/** The cookie jar over whole sequences of calls on any hosts, each call atomic. */
module JarRuns {
  import opened Cookies
  import opened JarLaws

  type Jar = map<string, seq<Cookie>>

  /** A call on the URL with the given host key. */
  datatype Op = SetCookies(host: string, cookies: seq<Cookie>) | ReadCookies(host: string)

  function Stored(jar: Jar, host: string): seq<Cookie> {
    if host in jar then jar[host] else []
  }

  function Apply(cfg: Config, jar: Jar, op: Op): Jar {
    match op
    case SetCookies(host, cs) => jar[host := Set(cfg, Stored(jar, host), cs)]
    case ReadCookies(host) => if host in jar then jar[host := Read(jar[host])] else jar
  }

  function Run(cfg: Config, jar: Jar, ops: seq<Op>): Jar
    decreases |ops|
  {
    if ops == [] then jar else Run(cfg, Apply(cfg, jar, ops[0]), ops[1..])
  }

  lemma {:induction false} RunEnd(cfg: Config, jar: Jar, ops: seq<Op>, op: Op)
    ensures Run(cfg, jar, ops + [op]) == Apply(cfg, Run(cfg, jar, ops), op)
    decreases |ops|
  {
    if ops == [] {
      assert [op][1..] == [];
    } else {
      assert (ops + [op])[1..] == ops[1..] + [op];
      RunEnd(cfg, Apply(cfg, jar, ops[0]), ops[1..], op);
    }
  }

  // ---------------------------------------------------------------- the jar as a map of maps

  type Abstract = map<string, map<string, Cookie>>

  function AbstractOf(jar: Jar): Abstract {
    map h | h in jar :: MapOf(jar[h])
  }

  function At(a: Abstract, host: string): map<string, Cookie> {
    if host in a then a[host] else map[]
  }

  /** The specification of one call: host -> name -> cookie. */
  ghost predicate Allowed(cfg: Config, a: Abstract, op: Op, a': Abstract) {
    match op
    case SetCookies(host, cs) => a' == a[host := Merge(cfg, At(a, host), Incoming(cfg, cs))]
    case ReadCookies(host) =>
      if host in a then host in a' && a' == a[host := a'[host]] && Forgets(a[host], a'[host]) else a' == a
  }

  ghost predicate AllowedRun(cfg: Config, a: Abstract, ops: seq<Op>, a': Abstract)
    decreases |ops|
  {
    if ops == [] then a == a'
    else exists b :: Allowed(cfg, a, ops[0], b) && AllowedRun(cfg, b, ops[1..], a')
  }

  predicate AllConsistent(jar: Jar) {
    forall h :: h in jar ==> Consistent(jar[h])
  }

  lemma AbstractPut(jar: Jar, host: string, xs: seq<Cookie>)
    ensures AbstractOf(jar[host := xs]) == AbstractOf(jar)[host := MapOf(xs)]
    ensures At(AbstractOf(jar), host) == MapOf(Stored(jar, host))
  {
  }

  lemma SetAllowed(cfg: Config, jar: Jar, op: Op)
    requires AllConsistent(jar) && op.SetCookies?
    ensures AllConsistent(Apply(cfg, jar, op))
    ensures Allowed(cfg, AbstractOf(jar), op, AbstractOf(Apply(cfg, jar, op)))
  {
    var stored := Stored(jar, op.host);
    SetMerges(cfg, stored, op.cookies);
    SetKeepsConsistent(cfg, stored, op.cookies);
    AbstractPut(jar, op.host, Set(cfg, stored, op.cookies));
  }

  lemma ReadAllowed(cfg: Config, jar: Jar, op: Op)
    requires AllConsistent(jar) && op.ReadCookies?
    ensures AllConsistent(Apply(cfg, jar, op))
    ensures Allowed(cfg, AbstractOf(jar), op, AbstractOf(Apply(cfg, jar, op)))
  {
    if op.host in jar {
      ReadForgetsOnlyExpired(jar[op.host]);
      ReadKeepsConsistent(jar[op.host]);
      AbstractPut(jar, op.host, Read(jar[op.host]));
    }
  }

  /** Each call takes the jar where the specification allows, and keeps its lists consistent. */
  lemma ApplyAllowed(cfg: Config, jar: Jar, op: Op)
    requires AllConsistent(jar)
    ensures AllConsistent(Apply(cfg, jar, op))
    ensures Allowed(cfg, AbstractOf(jar), op, AbstractOf(Apply(cfg, jar, op)))
  {
    if op.SetCookies? {
      SetAllowed(cfg, jar, op);
    } else {
      ReadAllowed(cfg, jar, op);
    }
  }

  /** Over any sequence of calls the jar is a map of maps, and equal names in a host list always
      denote the same cookie. */
  lemma {:induction false} JarRefinesMap(cfg: Config, jar: Jar, ops: seq<Op>)
    requires AllConsistent(jar)
    ensures AllConsistent(Run(cfg, jar, ops))
    ensures AllowedRun(cfg, AbstractOf(jar), ops, AbstractOf(Run(cfg, jar, ops)))
    decreases |ops|
  {
    if ops != [] {
      ApplyAllowed(cfg, jar, ops[0]);
      JarRefinesMap(cfg, Apply(cfg, jar, ops[0]), ops[1..]);
    }
  }

  // ---------------------------------------------------------------- when reading is invisible

  /** What the jar would hold if reading changed nothing. */
  function Ideal(cfg: Config, a: Abstract, ops: seq<Op>): Abstract
    decreases |ops|
  {
    if ops == [] then a
    else match ops[0]
      case SetCookies(host, cs) => Ideal(cfg, a[host := Merge(cfg, At(a, host), Incoming(cfg, cs))], ops[1..])
      case ReadCookies(_) => Ideal(cfg, a, ops[1..])
  }

  function LiveMap(m: map<string, Cookie>): map<string, Cookie> {
    map n | n in m && Live(m[n]) :: m[n]
  }

  function LiveAt(a: Abstract, host: string): map<string, Cookie> {
    LiveMap(At(a, host))
  }

  ghost predicate SameLive(a: Abstract, b: Abstract) {
    forall h :: LiveAt(a, h) == LiveAt(b, h)
  }

  lemma MergeLive(m: map<string, Cookie>, m': map<string, Cookie>, i: map<string, Cookie>)
    requires LiveMap(m) == LiveMap(m')
    ensures LiveMap(m + i) == LiveMap(m' + i)
  {
    forall n ensures n in LiveMap(m + i) <==> n in LiveMap(m' + i) {
      assert n in LiveMap(m) <==> n in LiveMap(m');
    }
    forall n | n in LiveMap(m + i) ensures LiveMap(m + i)[n] == LiveMap(m' + i)[n] {
      assert n in LiveMap(m' + i);
      if n !in i { assert n in LiveMap(m); }
    }
  }

  lemma ForgetLive(m: map<string, Cookie>, m': map<string, Cookie>)
    requires Forgets(m, m')
    ensures LiveMap(m) == LiveMap(m')
  {
  }

  lemma PutSameLive(a: Abstract, b: Abstract, host: string, m: map<string, Cookie>, m': map<string, Cookie>)
    requires SameLive(a, b) && LiveMap(m) == LiveMap(m')
    ensures SameLive(a[host := m], b[host := m'])
  {
    var a', b' := a[host := m], b[host := m'];
    forall h ensures LiveAt(a', h) == LiveAt(b', h) {
      assert LiveAt(a, h) == LiveAt(b, h);
      assert h != host ==> At(a[host := m], h) == At(a, h) && At(b[host := m'], h) == At(b, h);
    }
  }

  lemma ReadSameLive(cfg: Config, jar: Jar, a: Abstract, host: string)
    requires AllConsistent(jar) && SameLive(AbstractOf(jar), a)
    ensures SameLive(AbstractOf(Apply(cfg, jar, ReadCookies(host))), a)
  {
    if host in jar {
      ReadForgetsOnlyExpired(jar[host]);
      ForgetLive(MapOf(jar[host]), MapOf(Read(jar[host])));
      AbstractPut(jar, host, Read(jar[host]));
      forall h ensures LiveAt(AbstractOf(Apply(cfg, jar, ReadCookies(host))), h) == LiveAt(a, h) {
        assert LiveAt(AbstractOf(jar), h) == LiveAt(a, h);
      }
    }
  }

  /** In override mode, reads between the calls of `SetCookies` are invisible: the live cookies of
      every host are those of the jar on which nothing was ever read. */
  lemma {:induction false} OverrideIgnoresReads(cfg: Config, jar: Jar, a: Abstract, ops: seq<Op>)
    requires !cfg.skipExisting && AllConsistent(jar) && SameLive(AbstractOf(jar), a)
    ensures SameLive(AbstractOf(Run(cfg, jar, ops)), Ideal(cfg, a, ops))
    decreases |ops|
  {
    if ops != [] {
      var jar' := Apply(cfg, jar, ops[0]);
      ApplyAllowed(cfg, jar, ops[0]);
      match ops[0] {
        case SetCookies(host, cs) =>
          var i := Incoming(cfg, cs);
          SetMerges(cfg, Stored(jar, host), cs);
          AbstractPut(jar, host, Set(cfg, Stored(jar, host), cs));
          assert LiveAt(AbstractOf(jar), host) == LiveAt(a, host);
          MergeLive(At(AbstractOf(jar), host), At(a, host), i);
          PutSameLive(AbstractOf(jar), a, host, Merge(cfg, At(AbstractOf(jar), host), i), Merge(cfg, At(a, host), i));
          OverrideIgnoresReads(cfg, jar', a[host := Merge(cfg, At(a, host), i)], ops[1..]);
        case ReadCookies(host) =>
          ReadSameLive(cfg, jar, a, host);
          OverrideIgnoresReads(cfg, jar', a, ops[1..]);
      }
    }
  }

  /** The names a read forgets. */
  predicate Forgotten(xs: seq<Cookie>, name: string) {
    name in MapOf(xs) && name !in MapOf(Read(xs))
  }

  lemma AddAfterForgetting(i: map<string, Cookie>, m: map<string, Cookie>, m': map<string, Cookie>)
    requires Forgets(m, m')
    ensures LiveMap(i + m') == LiveMap(i + m) <==>
              forall n :: n in i && Live(i[n]) ==> !(n in m && n !in m')
  {
    if n :| n in i && Live(i[n]) && n in m && n !in m' {
      assert n in LiveMap(i + m') && n !in LiveMap(i + m);
    } else {
      forall n ensures n in LiveMap(i + m') <==> n in LiveMap(i + m) {
        assert n in m' ==> m'[n] == m[n];
      }
      assert forall n :: n in LiveMap(i + m') ==> LiveMap(i + m')[n] == LiveMap(i + m)[n];
    }
  }

  /** With skipExisting a read before a `SetCookies` is invisible exactly when that call brings no
      live cookie under a name the read forgets: the expired cookie would have kept it out. */
  lemma SkipNoticesRead(cfg: Config, xs: seq<Cookie>, cs: seq<Cookie>)
    requires cfg.skipExisting && Consistent(xs)
    ensures LiveMap(MapOf(Set(cfg, Read(xs), cs))) == LiveMap(MapOf(Set(cfg, xs, cs))) <==>
              forall n :: n in Incoming(cfg, cs) && Live(Incoming(cfg, cs)[n]) ==> !Forgotten(xs, n)
  {
    SetMerges(cfg, xs, cs);
    SetMerges(cfg, Read(xs), cs);
    ReadForgetsOnlyExpired(xs);
    AddAfterForgetting(Incoming(cfg, cs), MapOf(xs), MapOf(Read(xs)));
  }

  /** Such a case: the cookie `a` has expired and `b` is live; reading forgets `a`, and a new `a`
      is then accepted that would otherwise have been skipped. */
  lemma SkipNoticesReadExample()
    ensures var cfg := Config(true, false);
            var xs := [Cookie(0, "a", "x", -1), Cookie(1, "b", "x", 1)];
            var cs := [Cookie(2, "a", "y", 1)];
            LiveMap(MapOf(Set(cfg, Read(xs), cs))) != LiveMap(MapOf(Set(cfg, xs, cs)))
  {
    var cfg := Config(true, false);
    var a, b, c := Cookie(0, "a", "x", -1), Cookie(1, "b", "x", 1), Cookie(2, "a", "y", 1);
    var xs, cs := [a, b], [c];
    assert Distinct(xs);
    DistinctConsistent(xs);
    assert xs[..1] == [a] && [a][..0] == [];
    assert Filter(Live, [a]) == [] && Filter(Live, xs) == [b] && Read(xs) == [b, b];
    MapOfIn(xs, "a");
    assert a in xs;
    MapOfIn([b, b], "a");
    assert Forgotten(xs, "a");
    assert [c][..0] == [] && Filter(Accepts(cfg), cs) == [c];
    MapOfIn([c], "a");
    SkipNoticesRead(cfg, xs, cs);
  }
}
