/** Laws of the cookie jar over single calls and over whole sequences of calls. */
module JarLaws {
  import opened Cookies

  // ---------------------------------------------------------------- lists as maps

  /** Equal names denote the same cookie. */
  predicate Consistent(xs: seq<Cookie>) {
    forall c, d :: c in xs && d in xs && c.name == d.name ==> c == d
  }

  /** The map from names to cookies a list stands for; a later cookie overrides. */
  function MapOf(xs: seq<Cookie>): map<string, Cookie> {
    if xs == [] then map[] else MapOf(xs[..|xs| - 1])[xs[|xs| - 1].name := xs[|xs| - 1]]
  }

  function Incoming(cfg: Config, cs: seq<Cookie>): map<string, Cookie> {
    MapOf(Filter(Accepts(cfg), cs))
  }

  lemma {:induction false} MapOfIn(xs: seq<Cookie>, name: string)
    ensures name in MapOf(xs) <==> HasName(xs, name)
    ensures name in MapOf(xs) ==> MapOf(xs)[name] in xs && MapOf(xs)[name].name == name
  {
    if xs != [] {
      MapOfIn(xs[..|xs| - 1], name);
      assert xs == xs[..|xs| - 1] + [xs[|xs| - 1]];
    }
  }

  lemma MapOfMembers(xs: seq<Cookie>)
    ensures forall name :: name in MapOf(xs) <==> HasName(xs, name)
    ensures forall name :: name in MapOf(xs) ==> MapOf(xs)[name] in xs && MapOf(xs)[name].name == name
  {
    forall name
      ensures name in MapOf(xs) <==> HasName(xs, name)
      ensures name in MapOf(xs) ==> MapOf(xs)[name] in xs && MapOf(xs)[name].name == name
    {
      MapOfIn(xs, name);
    }
  }

  lemma {:induction false} MapOfAppend(xs: seq<Cookie>, ys: seq<Cookie>)
    ensures MapOf(xs + ys) == MapOf(xs) + MapOf(ys)
  {
    if ys == [] {
      assert xs + ys == xs;
    } else {
      assert (xs + ys)[..|xs + ys| - 1] == xs + ys[..|ys| - 1];
      MapOfAppend(xs, ys[..|ys| - 1]);
    }
  }

  /** `unique` keeps the map: in particular the last cookie of each name wins. */
  lemma {:induction false} UniqueKeepsMap(xs: seq<Cookie>)
    ensures MapOf(Unique(xs)) == MapOf(xs)
  {
    if xs != [] {
      var x, tail := xs[0], xs[1..];
      UniqueKeepsMap(tail);
      assert xs == [x] + tail;
      MapOfCons(x, tail);
      MapOfIn(Unique(tail), x.name);
      if HasName(Unique(tail), x.name) {
        PutUnder(MapOf(tail), x.name, x);
      } else {
        PutBefore(MapOf(tail), x.name, x);
        MapOfPut(Unique(tail), x);
      }
    }
  }

  lemma MapOfPut(xs: seq<Cookie>, x: Cookie)
    ensures MapOf(xs + [x]) == MapOf(xs)[x.name := x]
  {
    assert (xs + [x])[..|xs|] == xs;
  }

  lemma MapOfCons(x: Cookie, tail: seq<Cookie>)
    ensures MapOf([x] + tail) == map[x.name := x] + MapOf(tail)
  {
    MapOfAppend([x], tail);
    MapOfPut([], x);
    assert [] + [x] == [x];
  }

  lemma PutUnder<V>(m: map<string, V>, k: string, v: V)
    requires k in m
    ensures map[k := v] + m == m
  {
  }

  lemma PutBefore<V>(m: map<string, V>, k: string, v: V)
    requires k !in m
    ensures map[k := v] + m == m[k := v]
  {
  }

  lemma PutAbsent<V>(m: map<string, V>, i: map<string, V>)
    ensures m + (map n | n in i && n !in m :: i[n]) == i + m
    ensures (map n | n in m && n !in i :: m[n]) + i == m + i
  {
  }

  lemma {:induction false} MapOfUnnamed(ys: seq<Cookie>, xs: seq<Cookie>)
    ensures MapOf(Filter(Unnamed(ys), xs)) == map n | n in MapOf(xs) && n !in MapOf(ys) :: MapOf(xs)[n]
  {
    if xs != [] {
      MapOfUnnamed(ys, xs[..|xs| - 1]);
      MapOfIn(ys, xs[|xs| - 1].name);
    }
  }

  /** How `SetCookies` changes the map of one host: the last non-empty cookie of each name
      overrides, or absent names are added. */
  function Merge(cfg: Config, m: map<string, Cookie>, incoming: map<string, Cookie>): map<string, Cookie> {
    if cfg.skipExisting then incoming + m else m + incoming
  }

  /** `SetCookies` is that merge, for every stored list. */
  lemma SetMerges(cfg: Config, stored: seq<Cookie>, incoming: seq<Cookie>)
    ensures MapOf(Set(cfg, stored, incoming)) == Merge(cfg, MapOf(stored), Incoming(cfg, incoming))
  {
    var cs := Unique(Filter(Accepts(cfg), incoming));
    UniqueKeepsMap(Filter(Accepts(cfg), incoming));
    PutAbsent(MapOf(stored), MapOf(cs));
    if cfg.skipExisting {
      MapOfUnnamed(stored, cs);
      MapOfAppend(stored, Filter(Unnamed(stored), cs));
    } else {
      MapOfUnnamed(cs, stored);
      MapOfAppend(Filter(Unnamed(cs), stored), cs);
    }
  }

  // ---------------------------------------------------------------- invariants of a host list

  lemma DistinctConsistent(xs: seq<Cookie>)
    requires Distinct(xs)
    ensures Consistent(xs)
  {
    forall c, d | c in xs && d in xs && c.name == d.name ensures c == d {
      var i :| 0 <= i < |xs| && xs[i] == c;
      var j :| 0 <= j < |xs| && xs[j] == d;
    }
  }

  lemma SetKeepsConsistent(cfg: Config, stored: seq<Cookie>, incoming: seq<Cookie>)
    requires Consistent(stored)
    ensures Consistent(Set(cfg, stored, incoming))
  {
    var cs := Unique(Filter(Accepts(cfg), incoming));
    UniqueDistinct(Filter(Accepts(cfg), incoming));
    DistinctConsistent(cs);
    FilterMembers(Unnamed(stored), cs);
    FilterMembers(Unnamed(cs), stored);
  }

  lemma ReadMembers(xs: seq<Cookie>)
    ensures forall c :: c in Read(xs) ==> c in xs
    ensures forall c :: c in xs && Live(c) ==> c in Read(xs)
  {
    FilterMembers(Live, xs);
  }

  lemma ReadKeepsConsistent(xs: seq<Cookie>)
    requires Consistent(xs)
    ensures Consistent(Read(xs))
  {
    ReadMembers(xs);
  }

  lemma {:induction false} FilterDistinct(p: Cookie -> bool, xs: seq<Cookie>)
    requires Distinct(xs)
    ensures Distinct(Filter(p, xs))
  {
    if xs != [] {
      var front := xs[..|xs| - 1];
      FilterDistinct(p, front);
      FilterMembers(p, front);
      forall i | 0 <= i < |Filter(p, front)| ensures Filter(p, front)[i].name != xs[|xs| - 1].name {
        assert Filter(p, front)[i] in front;
      }
    }
  }

  lemma DistinctAppend(xs: seq<Cookie>, ys: seq<Cookie>)
    requires Distinct(xs) && Distinct(ys) && forall c, d :: c in xs && d in ys ==> c.name != d.name
    ensures Distinct(xs + ys)
  {
    forall i, j | 0 <= i < j < |xs + ys| ensures (xs + ys)[i].name != (xs + ys)[j].name {
      if i < |xs| <= j { assert xs[i] in xs && ys[j - |xs|] in ys; }
    }
  }

  /** In both modes `SetCookies` keeps the names of a host list distinct. */
  lemma SetKeepsDistinct(cfg: Config, stored: seq<Cookie>, incoming: seq<Cookie>)
    requires Distinct(stored)
    ensures Distinct(Set(cfg, stored, incoming))
  {
    var cs := Unique(Filter(Accepts(cfg), incoming));
    UniqueDistinct(Filter(Accepts(cfg), incoming));
    if cfg.skipExisting {
      FilterDistinct(Unnamed(stored), cs);
      FilterMembers(Unnamed(stored), cs);
      DistinctAppend(stored, Filter(Unnamed(stored), cs));
    } else {
      FilterDistinct(Unnamed(cs), stored);
      FilterMembers(Unnamed(cs), stored);
      DistinctAppend(Filter(Unnamed(cs), stored), cs);
    }
  }

  // ---------------------------------------------------------------- reading

  /** `m'` is `m` with some expired entries forgotten. */
  ghost predicate Forgets(m: map<string, Cookie>, m': map<string, Cookie>) {
    && (forall n :: n in m' ==> n in m && m'[n] == m[n])
    && (forall n :: n in m && Live(m[n]) ==> n in m')
  }

  /** `Cookies` may forget expired entries and never a live one. */
  lemma ReadForgetsOnlyExpired(xs: seq<Cookie>)
    requires Consistent(xs)
    ensures Forgets(MapOf(xs), MapOf(Read(xs)))
  {
    MapOfMembers(xs);
    MapOfMembers(Read(xs));
    ReadMembers(xs);
    forall n | n in MapOf(Read(xs)) ensures n in MapOf(xs) && MapOf(Read(xs))[n] == MapOf(xs)[n] {
      assert MapOf(Read(xs))[n] in xs;
    }
  }

  lemma {:induction false} FindAppend(xs: seq<Cookie>, ys: seq<Cookie>, name: string)
    ensures Find(xs + ys, name) == if Find(xs, name).Some? then Find(xs, name) else Find(ys, name)
  {
    if xs == [] {
      assert xs + ys == ys;
    } else {
      assert (xs + ys)[1..] == xs[1..] + ys;
      FindAppend(xs[1..], ys, name);
    }
  }

  lemma {:induction false} FindLive(xs: seq<Cookie>, name: string)
    ensures Find(Filter(Live, xs), name) == Find(xs, name)
  {
    if xs != [] {
      var front, last := xs[..|xs| - 1], xs[|xs| - 1];
      FindLive(front, name);
      assert xs == front + [last];
      FindAppend(front, [last], name);
      FindAppend(Filter(Live, front), [last], name);
    }
  }

  /** What `Cookie` returns for any name is the same before and after `Cookies`. */
  lemma ReadKeepsFind(xs: seq<Cookie>, name: string)
    ensures Find(Read(xs), name) == Find(xs, name)
  {
    var live := Filter(Live, xs);
    FindLive(xs, name);
    FindAppend(live, xs[|live|..], name);
    assert xs == xs[..|live|] + xs[|live|..];
    FindAppend(xs[..|live|], xs[|live|..], name);
  }

  // ---------------------------------------------------------------- repeated reading

  /** All live slots precede all expired ones. */
  predicate Partitioned(xs: seq<Cookie>) {
    forall i, j :: 0 <= i < j < |xs| && Live(xs[j]) ==> Live(xs[i])
  }

  function LiveCount(xs: seq<Cookie>): nat {
    |Filter(Live, xs)|
  }

  lemma {:induction false} FullFilter(p: Cookie -> bool, xs: seq<Cookie>)
    requires |Filter(p, xs)| == |xs|
    ensures forall c :: c in xs ==> p(c)
  {
    if xs != [] {
      FullFilter(p, xs[..|xs| - 1]);
      assert xs == xs[..|xs| - 1] + [xs[|xs| - 1]];
    }
  }

  /** A list is partitioned exactly when no live slot lies beyond the number of live slots. */
  lemma PartitionedTail(xs: seq<Cookie>)
    ensures Partitioned(xs) <==> Filter(Live, xs[LiveCount(xs)..]) == []
    ensures Partitioned(xs) ==> Filter(Live, xs) == xs[..LiveCount(xs)]
  {
    var head, tail := xs[..LiveCount(xs)], xs[LiveCount(xs)..];
    assert xs == head + tail;
    FilterAppend(Live, head, tail);
    if Filter(Live, tail) == [] {
      DeadTail(xs);
    } else {
      LiveTail(xs);
    }
  }

  lemma DeadTail(xs: seq<Cookie>)
    requires Filter(Live, xs[LiveCount(xs)..]) == []
    ensures Partitioned(xs) && Filter(Live, xs) == xs[..LiveCount(xs)]
  {
    var head, tail := xs[..LiveCount(xs)], xs[LiveCount(xs)..];
    assert xs == head + tail;
    FilterAppend(Live, head, tail);
    FilterMembers(Live, tail);
    FullFilter(Live, head);
    FilterAll(Live, head);
    forall i | 0 <= i < |xs| ensures Live(xs[i]) <==> i < LiveCount(xs) {
      assert if i < LiveCount(xs) then xs[i] in head else xs[i] in tail;
    }
  }

  lemma LiveSlot(xs: seq<Cookie>) returns (j: nat)
    requires Filter(Live, xs) != []
    ensures j < |xs| && Live(xs[j])
  {
    var c := Filter(Live, xs)[0];
    FilterIn(Live, xs, c);
    j :| 0 <= j < |xs| && xs[j] == c;
  }

  lemma LiveHead(xs: seq<Cookie>, k: nat)
    requires k <= |xs| && forall i :: 0 <= i < k ==> Live(xs[i])
    ensures LiveCount(xs) == k + LiveCount(xs[k..])
  {
    assert xs == xs[..k] + xs[k..];
    FilterAppend(Live, xs[..k], xs[k..]);
    FilterAll(Live, xs[..k]);
  }

  /** A live cookie after as many slots as there are live ones: some slot before it is expired. */
  lemma LiveTail(xs: seq<Cookie>)
    requires Filter(Live, xs[LiveCount(xs)..]) != []
    ensures !Partitioned(xs)
  {
    var k := LiveCount(xs);
    var j := LiveSlot(xs[k..]);
    assert Live(xs[k + j]);
    if Partitioned(xs) {
      LiveHead(xs, k);
      assert false;
    }
  }

  /** Reading never lowers the number of live slots, and raises it unless the list is partitioned;
      exactly then it is a fixed point. */
  lemma ReadRaisesLiveCount(xs: seq<Cookie>)
    ensures LiveCount(Read(xs)) >= LiveCount(xs)
    ensures LiveCount(Read(xs)) == LiveCount(xs) <==> Partitioned(xs)
    ensures Read(xs) == xs <==> Partitioned(xs)
  {
    var n := LiveCount(xs);
    ReadLiveCount(xs);
    PartitionedTail(xs);
    if Partitioned(xs) {
      assert xs == xs[..n] + xs[n..];
    }
  }

  lemma ReadLiveCount(xs: seq<Cookie>)
    ensures LiveCount(Read(xs)) == LiveCount(xs) + LiveCount(xs[LiveCount(xs)..])
  {
    var live := Filter(Live, xs);
    FilterMembers(Live, xs);
    FilterAll(Live, live);
    FilterAppend(Live, live, xs[|live|..]);
  }

  function Reads(xs: seq<Cookie>, n: nat): seq<Cookie>
    decreases n
  {
    if n == 0 then xs else Reads(Read(xs), n - 1)
  }

  lemma {:induction false} SettledStays(xs: seq<Cookie>, n: nat)
    requires Read(xs) == xs
    ensures Reads(xs, n) == xs
    decreases n
  {
    if n > 0 {
      SettledStays(xs, n - 1);
    }
  }

  /** Repeated reading settles after at most as many calls as there were expired slots. */
  lemma {:induction false} ReadsSettle(xs: seq<Cookie>, n: nat)
    requires n >= |xs| - LiveCount(xs)
    ensures Partitioned(Reads(xs, n)) && Read(Reads(xs, n)) == Reads(xs, n)
    decreases n
  {
    ReadRaisesLiveCount(xs);
    if n == 0 {
      FullFilter(Live, xs);
    } else if Partitioned(xs) {
      SettledStays(xs, n);
    } else {
      ReadsSettle(Read(xs), n - 1);
    }
  }

  /** A second read returns each name once, and the same cookies as the first, exactly when no
      expired slot preceded a live one. */
  lemma SecondReadDuplicates(xs: seq<Cookie>)
    requires Distinct(xs)
    ensures Distinct(Filter(Live, Read(xs))) <==> Partitioned(xs)
    ensures Filter(Live, Read(xs)) == Filter(Live, xs) <==> Partitioned(xs)
  {
    var live := Filter(Live, xs);
    var tail := xs[|live|..];
    FilterDistinct(Live, xs);
    FilterMembers(Live, xs);
    FilterMembers(Live, tail);
    FilterAll(Live, live);
    FilterAppend(Live, live, tail);
    PartitionedTail(xs);
    var again := Filter(Live, tail);
    if again == [] {
      assert live + again == live;
    } else {
      assert again[0] in again && again[0] in tail;
      assert again[0] in xs && again[0] in live;
      var i :| 0 <= i < |live| && live[i] == again[0];
      assert (live + again)[i].name == (live + again)[|live|].name;
    }
  }
}
