/** What the calls of the cookie jar do, in plain terms: position by position in the stored list of the
    host, and nothing to the lists of other hosts. */
module JarTerms {
  import opened Options
  import opened Cookies
  import JarLaws
  import opened JarRuns

  predicate Increasing(at: seq<nat>) {
    forall k, l :: 0 <= k < l < |at| ==> at[k] < at[l]
  }

  predicate Decreasing(at: seq<nat>) {
    forall k, l :: 0 <= k < l < |at| ==> at[k] > at[l]
  }

  /** `r` is the list of the cookies of `xs` at these positions. */
  predicate Picks(xs: seq<Cookie>, at: seq<nat>, r: seq<Cookie>) {
    |r| == |at| && forall k :: 0 <= k < |at| ==> at[k] < |xs| && r[k] == xs[at[k]]
  }

  // ---------------------------------------------------------------- SetCookies

  /** Some incoming cookie of that name is not empty, or empty ones are allowed. */
  ghost predicate Given(cfg: Config, incoming: seq<Cookie>, name: string) {
    exists c :: c in incoming && c.name == name && (c.value != "" || cfg.allowEmpty)
  }

  /** The last such cookie of its name. */
  predicate Wins(cfg: Config, incoming: seq<Cookie>, i: nat) {
    && i < |incoming| && (incoming[i].value != "" || cfg.allowEmpty)
    && forall j :: i < j < |incoming| && incoming[j].name == incoming[i].name ==>
          incoming[j].value == "" && !cfg.allowEmpty
  }

  /** `SetCookies`: the stored cookies in their order, without those given anew unless these are to
      be skipped, followed by the last cookie given of each name, from the end of the incoming list
      to its start, without names already stored if these are to be skipped. */
  ghost predicate SetDoes(cfg: Config, before: seq<Cookie>, incoming: seq<Cookie>, after: seq<Cookie>,
        kept: seq<nat>, added: seq<nat>)
  {
    && Increasing(kept) && Decreasing(added) && |kept| <= |after|
    && Picks(before, kept, after[..|kept|]) && Picks(incoming, added, after[|kept|..])
    && (forall i: nat :: i in kept <==> i < |before| && (cfg.skipExisting || !Given(cfg, incoming, before[i].name)))
    && (forall i: nat :: i in added <==>
          Wins(cfg, incoming, i) && (cfg.skipExisting ==> !HasName(before, incoming[i].name)))
  }

  /** Positions of positions. */
  function Through(from: seq<nat>, at: seq<nat>): (r: seq<nat>)
    requires forall k :: 0 <= k < |at| ==> at[k] < |from|
    ensures |r| == |at| && forall k :: 0 <= k < |at| ==> r[k] == from[at[k]]
    ensures forall i :: i in r ==> i in from
  {
    seq(|at|, k requires 0 <= k < |at| => from[at[k]])
  }

  lemma ThroughIn(from: seq<nat>, at: seq<nat>, m: nat)
    requires forall k :: 0 <= k < |at| ==> at[k] < |from|
    requires forall k, l :: 0 <= k < l < |from| ==> from[k] != from[l]
    requires m < |from|
    ensures from[m] in Through(from, at) <==> m in at
  {
    if from[m] in Through(from, at) {
      var k :| 0 <= k < |at| && Through(from, at)[k] == from[m];
      assert at[k] == m;
    }
    if m in at {
      var k :| 0 <= k < |at| && at[k] == m;
      assert Through(from, at)[k] == from[m];
    }
  }

  /** The positions of the cookies `unique` leaves of those `nonEmpty` lets through. */
  lemma Winners(cfg: Config, incoming: seq<Cookie>) returns (at: seq<nat>)
    ensures Decreasing(at) && Picks(incoming, at, Unique(Filter(Accepts(cfg), incoming)))
    ensures forall i: nat :: i in at <==> Wins(cfg, incoming, i)
  {
    var from := FilterPositions(Accepts(cfg), incoming);
    var last := UniquePositions(Filter(Accepts(cfg), incoming));
    at := Through(from, last);
    forall i: nat ensures i in at <==> Wins(cfg, incoming, i) {
      if i in from {
        var m :| 0 <= m < |from| && from[m] == i;
        LastAccepted(cfg, incoming, from, m);
        ThroughIn(from, last, m);
      }
    }
  }

  lemma LastAccepted(cfg: Config, incoming: seq<Cookie>, from: seq<nat>, m: nat)
    requires KeptAt(Accepts(cfg), incoming, from) && m < |from| == |Filter(Accepts(cfg), incoming)|
    requires forall k :: 0 <= k < |from| ==> Filter(Accepts(cfg), incoming)[k] == incoming[from[k]]
    ensures LastOfName(Filter(Accepts(cfg), incoming), m) <==> Wins(cfg, incoming, from[m])
  {
    var accepted, i := Filter(Accepts(cfg), incoming), from[m];
    assert i in from;
    if j :| i < j < |incoming| && incoming[j].name == incoming[i].name && Accepts(cfg)(incoming[j]) {
      assert j in from;
      var l :| 0 <= l < |from| && from[l] == j;
      assert accepted[l].name == accepted[m].name && m < l;
    } else {
      forall l | m < l < |accepted| ensures accepted[l].name != accepted[m].name {
        assert from[l] in from;
      }
    }
  }

  lemma GivenNames(cfg: Config, incoming: seq<Cookie>, name: string)
    ensures HasName(Unique(Filter(Accepts(cfg), incoming)), name) <==> Given(cfg, incoming, name)
  {
    UniqueNames(Filter(Accepts(cfg), incoming), name);
    FilterMembers(Accepts(cfg), incoming);
  }

  lemma SkipPositions(cfg: Config, before: seq<Cookie>, incoming: seq<Cookie>) returns (kept: seq<nat>, added: seq<nat>)
    requires cfg.skipExisting
    ensures SetDoes(cfg, before, incoming, Set(cfg, before, incoming), kept, added)
  {
    var cs := Unique(Filter(Accepts(cfg), incoming));
    var winners := Winners(cfg, incoming);
    var absent := FilterPositions(Unnamed(before), cs);
    kept, added := seq(|before|, k => k), Through(winners, absent);
    forall i: nat ensures i in added <==> i in winners && !HasName(before, incoming[i].name) {
      if i in winners {
        var m :| 0 <= m < |winners| && winners[m] == i;
        ThroughIn(winners, absent, m);
      }
    }
    var after := Set(cfg, before, incoming);
    assert after[..|kept|] == before && after[|kept|..] == Filter(Unnamed(before), cs);
    forall i: nat ensures i in kept <==> i < |before| {
      if i < |before| { assert kept[i] == i; }
    }
  }

  lemma OverridePositions(cfg: Config, before: seq<Cookie>, incoming: seq<Cookie>)
    returns (kept: seq<nat>, added: seq<nat>)
    requires !cfg.skipExisting
    ensures SetDoes(cfg, before, incoming, Set(cfg, before, incoming), kept, added)
  {
    var cs := Unique(Filter(Accepts(cfg), incoming));
    added := Winners(cfg, incoming);
    kept := FilterPositions(Unnamed(cs), before);
    var after := Set(cfg, before, incoming);
    assert after[..|kept|] == Filter(Unnamed(cs), before) && after[|kept|..] == cs;
    forall i: nat ensures i in kept <==> i < |before| && !Given(cfg, incoming, before[i].name) {
      if i < |before| { GivenNames(cfg, incoming, before[i].name); }
    }
  }

  /** The exact layout of the list after `SetCookies`. */
  lemma SetPositions(cfg: Config, before: seq<Cookie>, incoming: seq<Cookie>) returns (kept: seq<nat>, added: seq<nat>)
    ensures SetDoes(cfg, before, incoming, Set(cfg, before, incoming), kept, added)
  {
    if cfg.skipExisting {
      kept, added := SkipPositions(cfg, before, incoming);
    } else {
      kept, added := OverridePositions(cfg, before, incoming);
    }
  }

  /** A name is stored afterwards if and only if it was, or is given. */
  lemma SetNames(cfg: Config, before: seq<Cookie>, incoming: seq<Cookie>, name: string)
    ensures HasName(Set(cfg, before, incoming), name) <==> HasName(before, name) || Given(cfg, incoming, name)
  {
    var cs := Unique(Filter(Accepts(cfg), incoming));
    GivenNames(cfg, incoming, name);
    FilterMembers(Unnamed(before), cs);
    FilterMembers(Unnamed(cs), before);
    if c :| c in cs && c.name == name && !HasName(before, name) {
      assert Unnamed(before)(c);
    }
  }

  /** In override mode the last cookie given of a name is what is stored under that name. */
  lemma LastGivenWins(cfg: Config, before: seq<Cookie>, incoming: seq<Cookie>, i: nat)
    requires !cfg.skipExisting && Wins(cfg, incoming, i)
    ensures forall c :: c in Set(cfg, before, incoming) && c.name == incoming[i].name ==> c == incoming[i]
    ensures incoming[i] in Set(cfg, before, incoming)
  {
    var cs := Unique(Filter(Accepts(cfg), incoming));
    var at := Winners(cfg, incoming);
    assert i in at;
    var k :| 0 <= k < |at| && at[k] == i;
    assert cs[k] == incoming[i] && cs[k] in cs;
    UniqueDistinct(Filter(Accepts(cfg), incoming));
    JarLaws.DistinctConsistent(cs);
    FilterMembers(Unnamed(cs), before);
  }

  /** Exactly the names that were stored or are given are stored; in override mode the last cookie
      given of a name is the only one stored under it. */
  ghost predicate SetKeeps(cfg: Config, before: seq<Cookie>, incoming: seq<Cookie>, after: seq<Cookie>) {
    && (forall name :: HasName(after, name) <==> HasName(before, name) || Given(cfg, incoming, name))
    && (forall i: nat, c :: !cfg.skipExisting && Wins(cfg, incoming, i) && c in after && c.name == incoming[i].name ==>
          c == incoming[i])
  }

  lemma SetKeepsNames(cfg: Config, before: seq<Cookie>, incoming: seq<Cookie>)
    ensures SetKeeps(cfg, before, incoming, Set(cfg, before, incoming))
  {
    var after := Set(cfg, before, incoming);
    forall name ensures HasName(after, name) <==> HasName(before, name) || Given(cfg, incoming, name) {
      SetNames(cfg, before, incoming, name);
    }
    forall i: nat, c | !cfg.skipExisting && Wins(cfg, incoming, i) && c in after && c.name == incoming[i].name
      ensures c == incoming[i]
    {
      LastGivenWins(cfg, before, incoming, i);
    }
  }

  /** The jar after `SetCookies` on the URL with that key. */
  ghost predicate SetCall(cfg: Config, jar: Jar, key: string, incoming: seq<Cookie>, jar': Jar) {
    && (exists kept, added :: SetDoes(cfg, Stored(jar, key), incoming, Stored(jar', key), kept, added))
    && SetKeeps(cfg, Stored(jar, key), incoming, Stored(jar', key))
    && (forall h :: h != key ==> Stored(jar', h) == Stored(jar, h))
  }

  lemma SetInPlainTerms(cfg: Config, jar: Jar, key: string, incoming: seq<Cookie>)
    ensures SetCall(cfg, jar, key, incoming, Apply(cfg, jar, SetCookies(key, incoming)))
  {
    var before := Stored(jar, key);
    assert Stored(Apply(cfg, jar, SetCookies(key, incoming)), key) == Set(cfg, before, incoming);
    var kept, added := SetPositions(cfg, before, incoming);
    SetKeepsNames(cfg, before, incoming);
  }

  // ---------------------------------------------------------------- Cookies and Cookie

  /** `Cookies`: it returns the cookies with `MaxAge` above -1, in order, and moves them to the front
      of the stored list, leaving the rest of it as it was. */
  ghost predicate ReadDoes(before: seq<Cookie>, after: seq<Cookie>, returned: seq<Cookie>, at: seq<nat>) {
    && Increasing(at) && Picks(before, at, returned) && |returned| <= |before|
    && (forall i: nat :: i in at <==> i < |before| && before[i].maxAge > -1)
    && after == returned + before[|returned|..]
  }

  lemma ReadPositions(before: seq<Cookie>) returns (at: seq<nat>)
    ensures ReadDoes(before, Read(before), Filter(Live, before), at)
  {
    at := FilterPositions(Live, before);
  }

  /** The jar after `Cookies` on the URL with that key. */
  ghost predicate ReadCall(jar: Jar, key: string, jar': Jar, returned: seq<Cookie>) {
    && (exists at :: ReadDoes(Stored(jar, key), Stored(jar', key), returned, at))
    && (forall h :: h != key ==> Stored(jar', h) == Stored(jar, h))
  }

  lemma ReadInPlainTerms(cfg: Config, jar: Jar, key: string)
    ensures ReadCall(jar, key, Apply(cfg, jar, ReadCookies(key)), Filter(Live, Stored(jar, key)))
  {
    var at := ReadPositions(Stored(jar, key));
    assert Stored(Apply(cfg, jar, ReadCookies(key)), key) == Read(Stored(jar, key));
  }

  /** `Cookie`: the first stored cookie of that name with `MaxAge` above -1, or nil if there is none. */
  ghost predicate Finds(xs: seq<Cookie>, name: string, found: Option<Cookie>) {
    && (found.None? <==> forall i :: 0 <= i < |xs| ==> xs[i].name != name || xs[i].maxAge <= -1)
    && (forall c :: found == Some(c) <==> FirstLive(xs, name, c))
  }

  ghost predicate FirstLive(xs: seq<Cookie>, name: string, c: Cookie) {
    exists i :: 0 <= i < |xs| && xs[i] == c && c.name == name && c.maxAge > -1
      && forall j :: 0 <= j < i ==> xs[j].name != name || xs[j].maxAge <= -1
  }

  /** How far the loop of `Cookie` comes. */
  lemma {:induction false} FindStop(xs: seq<Cookie>, name: string) returns (i: nat)
    ensures i <= |xs| && Find(xs, name) == (if i < |xs| then Some(xs[i]) else None)
    ensures i < |xs| ==> xs[i].name == name && xs[i].maxAge > -1
    ensures forall j :: 0 <= j < i ==> xs[j].name != name || xs[j].maxAge <= -1
  {
    if xs == [] || (xs[0].name == name && xs[0].maxAge > -1) {
      i := 0;
    } else {
      i := FindStop(xs[1..], name);
      assert forall j :: 0 < j < |xs| ==> xs[1..][j - 1] == xs[j];
      i := i + 1;
    }
  }

  lemma FindFinds(xs: seq<Cookie>, name: string)
    ensures Finds(xs, name, Find(xs, name))
  {
    var i := FindStop(xs, name);
  }

  /** `nonEmpty`: the cookies with a value, or all of them if empty ones are allowed, in order. */
  ghost predicate NonEmptyDoes(cfg: Config, before: seq<Cookie>, returned: seq<Cookie>, at: seq<nat>) {
    && Increasing(at) && Picks(before, at, returned)
    && (forall i: nat :: i in at <==> i < |before| && (before[i].value != "" || cfg.allowEmpty))
  }

  lemma NonEmptyPositions(cfg: Config, xs: seq<Cookie>) returns (at: seq<nat>)
    ensures NonEmptyDoes(cfg, xs, Filter(Accepts(cfg), xs), at)
  {
    at := FilterPositions(Accepts(cfg), xs);
  }
}
