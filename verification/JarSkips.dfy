/** With skipExisting, over whole sequences of calls: when the reads in between can be noticed. */
module JarSkips {
  import opened Cookies
  import opened JarLaws
  import opened JarRuns

  /** `m` holds the live entries of `a`, and no names that `a` does not have. */
  predicate Tracks(m: map<string, Cookie>, a: map<string, Cookie>) {
    LiveMap(m) == LiveMap(a) && forall n :: n in m ==> n in a
  }

  ghost predicate TracksAll(jar: Jar, a: Abstract) {
    forall h :: Tracks(MapOf(Stored(jar, h)), At(a, h))
  }

  /** No live incoming cookie has a name that `a` has and `m` has forgotten. */
  predicate Unnoticed(m: map<string, Cookie>, a: map<string, Cookie>, i: map<string, Cookie>) {
    forall n :: n in i && Live(i[n]) && n in a ==> n in m
  }

  /** The jar on which reading changes nothing, after one call. */
  function IdealStep(cfg: Config, a: Abstract, op: Op): Abstract {
    match op
    case SetCookies(host, cs) => a[host := Merge(cfg, At(a, host), Incoming(cfg, cs))]
    case ReadCookies(_) => a
  }

  ghost predicate OpUnnoticed(cfg: Config, jar: Jar, a: Abstract, op: Op) {
    op.SetCookies? ==> Unnoticed(MapOf(Stored(jar, op.host)), At(a, op.host), Incoming(cfg, op.cookies))
  }

  /** No call of `SetCookies` brings a live cookie under a name that reads have forgotten. */
  ghost predicate NeverNoticed(cfg: Config, jar: Jar, a: Abstract, ops: seq<Op>)
    decreases |ops|
  {
    if ops == [] then true
    else
      && OpUnnoticed(cfg, jar, a, ops[0])
      && NeverNoticed(cfg, Apply(cfg, jar, ops[0]), IdealStep(cfg, a, ops[0]), ops[1..])
  }

  // ---------------------------------------------------------------- one call

  lemma LiveMapIn(m: map<string, Cookie>, n: string)
    ensures n in LiveMap(m) <==> n in m && Live(m[n])
    ensures n in LiveMap(m) ==> LiveMap(m)[n] == m[n]
  {
  }

  lemma AddTracks(m: map<string, Cookie>, a: map<string, Cookie>, i: map<string, Cookie>)
    requires Tracks(m, a) && Unnoticed(m, a, i)
    ensures Tracks(i + m, i + a)
  {
    forall n ensures n in LiveMap(i + m) <==> n in LiveMap(i + a) {
      LiveMapIn(m, n);
      LiveMapIn(a, n);
    }
    forall n | n in LiveMap(i + m) ensures LiveMap(i + m)[n] == LiveMap(i + a)[n] {
      LiveMapIn(m, n);
      LiveMapIn(a, n);
    }
  }

  lemma ForgetTracks(m: map<string, Cookie>, m': map<string, Cookie>, a: map<string, Cookie>)
    requires Tracks(m, a) && Forgets(m, m')
    ensures Tracks(m', a)
  {
    ForgetLive(m, m');
  }

  /** What a call does to the map of a host. */
  lemma StoredAfter(cfg: Config, jar: Jar, op: Op, h: string)
    requires AllConsistent(jar)
    ensures var m, m' := MapOf(Stored(jar, h)), MapOf(Stored(Apply(cfg, jar, op), h));
            if op.host != h then m' == m
            else if op.SetCookies? then m' == Merge(cfg, m, Incoming(cfg, op.cookies))
            else Forgets(m, m')
  {
    if op.host == h {
      if op.SetCookies? {
        SetMerges(cfg, Stored(jar, h), op.cookies);
      } else if h in jar {
        ReadForgetsOnlyExpired(jar[h]);
      }
    }
  }

  lemma StepTracks(cfg: Config, jar: Jar, a: Abstract, op: Op)
    requires cfg.skipExisting && AllConsistent(jar) && TracksAll(jar, a) && OpUnnoticed(cfg, jar, a, op)
    ensures TracksAll(Apply(cfg, jar, op), IdealStep(cfg, a, op))
  {
    forall h ensures Tracks(MapOf(Stored(Apply(cfg, jar, op), h)), At(IdealStep(cfg, a, op), h)) {
      StoredAfter(cfg, jar, op, h);
      assert Tracks(MapOf(Stored(jar, h)), At(a, h));
      if op.host == h {
        if op.SetCookies? {
          AddTracks(MapOf(Stored(jar, h)), At(a, h), Incoming(cfg, op.cookies));
        } else {
          ForgetTracks(MapOf(Stored(jar, h)), MapOf(Stored(Apply(cfg, jar, op), h)), At(a, h));
        }
      }
    }
  }

  // ---------------------------------------------------------------- a difference stays

  /** A live cookie stands where the jar without reads has an expired one. */
  predicate Differs(m: map<string, Cookie>, a: map<string, Cookie>, n: string) {
    n in m && n in a && Live(m[n]) && !Live(a[n])
  }

  lemma AddDiffers(m: map<string, Cookie>, a: map<string, Cookie>, i: map<string, Cookie>) returns (n: string)
    requires Tracks(m, a) && !Unnoticed(m, a, i)
    ensures Differs(i + m, i + a, n)
  {
    n :| n in i && Live(i[n]) && n in a && n !in m;
    LiveMapIn(m, n);
    LiveMapIn(a, n);
  }

  lemma StepDiffers(cfg: Config, jar: Jar, a: Abstract, op: Op) returns (n: string)
    requires cfg.skipExisting && AllConsistent(jar) && TracksAll(jar, a) && !OpUnnoticed(cfg, jar, a, op)
    ensures Differs(MapOf(Stored(Apply(cfg, jar, op), op.host)), At(IdealStep(cfg, a, op), op.host), n)
  {
    assert Tracks(MapOf(Stored(jar, op.host)), At(a, op.host));
    n := AddDiffers(MapOf(Stored(jar, op.host)), At(a, op.host), Incoming(cfg, op.cookies));
    StoredAfter(cfg, jar, op, op.host);
  }

  lemma {:induction false} DifferenceStays(cfg: Config, jar: Jar, a: Abstract, ops: seq<Op>, h: string, n: string)
    requires cfg.skipExisting && AllConsistent(jar) && Differs(MapOf(Stored(jar, h)), At(a, h), n)
    ensures Differs(MapOf(Stored(Run(cfg, jar, ops), h)), At(Ideal(cfg, a, ops), h), n)
    decreases |ops|
  {
    if ops != [] {
      ApplyAllowed(cfg, jar, ops[0]);
      StoredAfter(cfg, jar, ops[0], h);
      DifferenceStays(cfg, Apply(cfg, jar, ops[0]), IdealStep(cfg, a, ops[0]), ops[1..], h, n);
    }
  }

  /** With skipExisting, a sequence of calls ends with the live cookies of the jar on which nothing was
      ever read, if and only if no call of `SetCookies` in it brings a live cookie under a name that
      reads have forgotten by then. */
  lemma {:induction false} SkipIgnoresReadsIff(cfg: Config, jar: Jar, a: Abstract, ops: seq<Op>)
    requires cfg.skipExisting && AllConsistent(jar) && TracksAll(jar, a)
    ensures SameLive(AbstractOf(Run(cfg, jar, ops)), Ideal(cfg, a, ops)) <==> NeverNoticed(cfg, jar, a, ops)
    decreases |ops|
  {
    if ops == [] {
      AllTracked(jar, a);
    } else {
      var jar', a' := Apply(cfg, jar, ops[0]), IdealStep(cfg, a, ops[0]);
      ApplyAllowed(cfg, jar, ops[0]);
      if OpUnnoticed(cfg, jar, a, ops[0]) {
        StepTracks(cfg, jar, a, ops[0]);
        SkipIgnoresReadsIff(cfg, jar', a', ops[1..]);
      } else {
        var n := StepDiffers(cfg, jar, a, ops[0]);
        DifferenceStays(cfg, jar', a', ops[1..], ops[0].host, n);
        NotSameLive(Run(cfg, jar, ops), Ideal(cfg, a, ops), ops[0].host, n);
      }
    }
  }

  lemma AtStored(jar: Jar, h: string)
    ensures At(AbstractOf(jar), h) == MapOf(Stored(jar, h))
  {
  }

  lemma AllTracked(jar: Jar, a: Abstract)
    requires TracksAll(jar, a)
    ensures SameLive(AbstractOf(jar), a)
  {
    forall h ensures LiveAt(AbstractOf(jar), h) == LiveAt(a, h) {
      AtStored(jar, h);
      assert Tracks(MapOf(Stored(jar, h)), At(a, h));
    }
  }

  lemma NotSameLive(jar: Jar, a: Abstract, h: string, n: string)
    requires Differs(MapOf(Stored(jar, h)), At(a, h), n)
    ensures !SameLive(AbstractOf(jar), a)
  {
    AtStored(jar, h);
    LiveMapIn(MapOf(Stored(jar, h)), n);
    LiveMapIn(At(a, h), n);
    assert LiveAt(AbstractOf(jar), h) != LiveAt(a, h);
  }

  /** In particular for a new jar. */
  lemma NewJarIgnoresReadsIff(cfg: Config, ops: seq<Op>)
    requires cfg.skipExisting
    ensures SameLive(AbstractOf(Run(cfg, map[], ops)), Ideal(cfg, map[], ops)) <==> NeverNoticed(cfg, map[], map[], ops)
  {
    assert TracksAll(map[], map[]);
    SkipIgnoresReadsIff(cfg, map[], map[], ops);
  }
}
