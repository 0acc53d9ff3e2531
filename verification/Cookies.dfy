/** What the cookie jar computes, on values: the stored list of one host is a sequence, and the
    whole jar a map from host keys to such lists. */
module Cookies {
  import opened Options

  /** A cookie; `id` is the identity of the object pointed to. */
  datatype Cookie = Cookie(id: nat, name: string, value: string, maxAge: int)

  /** The two options that matter to `SetCookies`. */
  datatype Config = Config(skipExisting: bool, allowEmpty: bool)

  /** `MaxAge > CookieExpired`. */
  predicate Live(c: Cookie) {
    c.maxAge > -1
  }

  /** What `nonEmpty` lets through. */
  function Accepts(cfg: Config): Cookie -> bool {
    (c: Cookie) => cfg.allowEmpty || c.value != ""
  }

  predicate HasName(xs: seq<Cookie>, name: string) {
    exists c :: c in xs && c.name == name
  }

  function Unnamed(xs: seq<Cookie>): Cookie -> bool {
    (c: Cookie) => !HasName(xs, c.name)
  }

  /** The elements a filtering loop keeps, in order. */
  function Filter(p: Cookie -> bool, xs: seq<Cookie>): (r: seq<Cookie>)
    ensures |r| <= |xs|
  {
    if xs == [] then []
    else
      var r := Filter(p, xs[..|xs| - 1]);
      if p(xs[|xs| - 1]) then r + [xs[|xs| - 1]] else r
  }

  /** `unique`: the loop walks from the end, so the rest of the list comes first. */
  function Unique(xs: seq<Cookie>): (r: seq<Cookie>)
    ensures |r| <= |xs|
  {
    if xs == [] then []
    else
      var r := Unique(xs[1..]);
      if HasName(r, xs[0].name) then r else r + [xs[0]]
  }

  /** The stored list after `SetCookies`. */
  function Set(cfg: Config, stored: seq<Cookie>, incoming: seq<Cookie>): seq<Cookie> {
    SetUnique(cfg, stored, Unique(Filter(Accepts(cfg), incoming)))
  }

  function SetUnique(cfg: Config, stored: seq<Cookie>, cs: seq<Cookie>): seq<Cookie> {
    if cfg.skipExisting then stored + Filter(Unnamed(stored), cs) else Filter(Unnamed(cs), stored) + cs
  }

  /** The stored list after `Cookies`, which compacts its array but keeps its length. */
  function Read(stored: seq<Cookie>): (r: seq<Cookie>)
    ensures |r| == |stored|
  {
    var live := Filter(Live, stored);
    live + stored[|live|..]
  }

  /** What `Cookie` finds. */
  function Find(stored: seq<Cookie>, name: string): Option<Cookie> {
    if stored == [] then None
    else if stored[0].name == name && Live(stored[0]) then Some(stored[0])
    else Find(stored[1..], name)
  }

  // ---------------------------------------------------------------- filtering

  lemma {:induction false} FilterIn(p: Cookie -> bool, xs: seq<Cookie>, c: Cookie)
    ensures c in Filter(p, xs) <==> c in xs && p(c)
  {
    if xs != [] {
      FilterIn(p, xs[..|xs| - 1], c);
      assert xs == xs[..|xs| - 1] + [xs[|xs| - 1]];
    }
  }

  lemma FilterMembers(p: Cookie -> bool, xs: seq<Cookie>)
    ensures forall c :: c in Filter(p, xs) <==> c in xs && p(c)
  {
    forall c ensures c in Filter(p, xs) <==> c in xs && p(c) {
      FilterIn(p, xs, c);
    }
  }

  /** One more turn of a filtering loop. */
  lemma FilterStep(p: Cookie -> bool, xs: seq<Cookie>, i: nat)
    requires i < |xs|
    ensures Filter(p, xs[..i + 1]) == if p(xs[i]) then Filter(p, xs[..i]) + [xs[i]] else Filter(p, xs[..i])
  {
    assert xs[..i + 1][..i] == xs[..i];
  }

  lemma {:induction false} FilterAppend(p: Cookie -> bool, xs: seq<Cookie>, ys: seq<Cookie>)
    ensures Filter(p, xs + ys) == Filter(p, xs) + Filter(p, ys)
  {
    if ys == [] {
      assert xs + ys == xs;
    } else {
      assert (xs + ys)[..|xs + ys| - 1] == xs + ys[..|ys| - 1];
      FilterAppend(p, xs, ys[..|ys| - 1]);
    }
  }

  lemma {:induction false} FilterAll(p: Cookie -> bool, xs: seq<Cookie>)
    requires forall c :: c in xs ==> p(c)
    ensures Filter(p, xs) == xs
  {
    if xs != [] {
      FilterAll(p, xs[..|xs| - 1]);
      assert xs == xs[..|xs| - 1] + [xs[|xs| - 1]];
    }
  }

  lemma {:induction false} FilterNone(p: Cookie -> bool, xs: seq<Cookie>)
    requires forall c :: c in xs ==> !p(c)
    ensures Filter(p, xs) == []
  {
    if xs != [] {
      FilterNone(p, xs[..|xs| - 1]);
    }
  }

  /** `at` lists exactly the accepted positions, in increasing order. */
  ghost predicate KeptAt(p: Cookie -> bool, xs: seq<Cookie>, at: seq<nat>) {
    && (forall k :: 0 <= k < |at| ==> at[k] < |xs|)
    && (forall k, l :: 0 <= k < l < |at| ==> at[k] < at[l])
    && (forall i: nat :: i in at <==> i < |xs| && p(xs[i]))
  }

  /** The accepted positions. */
  function Kept(p: Cookie -> bool, xs: seq<Cookie>): (at: seq<nat>)
    ensures |at| == |Filter(p, xs)|
    ensures forall k :: 0 <= k < |at| ==> k <= at[k] < |xs|
    ensures forall k, l :: 0 <= k < l < |at| ==> at[k] < at[l]
  {
    if xs == [] then []
    else
      var at := Kept(p, xs[..|xs| - 1]);
      if p(xs[|xs| - 1]) then at + [|xs| - 1] else at
  }

  lemma {:induction false} KeptIn(p: Cookie -> bool, xs: seq<Cookie>, i: nat)
    ensures i in Kept(p, xs) <==> i < |xs| && p(xs[i])
  {
    if xs != [] {
      KeptIn(p, xs[..|xs| - 1], i);
    }
  }

  lemma {:induction false} KeptValue(p: Cookie -> bool, xs: seq<Cookie>, k: nat)
    requires k < |Kept(p, xs)|
    ensures Filter(p, xs)[k] == xs[Kept(p, xs)[k]]
  {
    var front := xs[..|xs| - 1];
    if k < |Kept(p, front)| {
      KeptValue(p, front, k);
    }
  }

  /** Filtering keeps exactly the accepted positions, in order, and moves none to the right. */
  lemma FilterPositions(p: Cookie -> bool, xs: seq<Cookie>) returns (at: seq<nat>)
    ensures KeptAt(p, xs, at) && |at| == |Filter(p, xs)|
    ensures forall k :: 0 <= k < |at| ==> Filter(p, xs)[k] == xs[at[k]] && k <= at[k]
  {
    at := Kept(p, xs);
    forall i: nat ensures i in at <==> i < |xs| && p(xs[i]) { KeptIn(p, xs, i); }
    forall k | 0 <= k < |at| ensures Filter(p, xs)[k] == xs[at[k]] && k <= at[k] { KeptValue(p, xs, k); }
  }

  // ---------------------------------------------------------------- unique

  predicate Distinct(xs: seq<Cookie>) {
    forall i, j :: 0 <= i < j < |xs| ==> xs[i].name != xs[j].name
  }

  predicate LastOfName(xs: seq<Cookie>, i: nat) {
    i < |xs| && forall j :: i < j < |xs| ==> xs[j].name != xs[i].name
  }

  function Reverse(xs: seq<Cookie>): (r: seq<Cookie>)
    ensures |r| == |xs|
  {
    if xs == [] then [] else Reverse(xs[1..]) + [xs[0]]
  }

  lemma {:induction false} UniqueNames(xs: seq<Cookie>, name: string)
    ensures HasName(Unique(xs), name) <==> HasName(xs, name)
  {
    if xs != [] {
      UniqueNames(xs[1..], name);
      assert xs == [xs[0]] + xs[1..];
    }
  }

  /** `at` lists exactly the last occurrence of each name, in decreasing order of position. */
  ghost predicate LastAt(xs: seq<Cookie>, at: seq<nat>) {
    && (forall k :: 0 <= k < |at| ==> at[k] < |xs|)
    && (forall k, l :: 0 <= k < l < |at| ==> at[k] > at[l])
    && (forall i: nat :: i in at <==> LastOfName(xs, i))
  }

  function Shift(at: seq<nat>): (r: seq<nat>)
    ensures |r| == |at| && forall k :: 0 <= k < |at| ==> r[k] == at[k] + 1
  {
    seq(|at|, k requires 0 <= k < |at| => at[k] + 1)
  }

  /** The positions `unique` picks. */
  function Lasts(xs: seq<Cookie>): (at: seq<nat>)
    ensures |at| == |Unique(xs)|
    ensures forall k :: 0 <= k < |at| ==> at[k] < |xs|
    ensures forall k, l :: 0 <= k < l < |at| ==> at[k] > at[l]
  {
    if xs == [] then []
    else
      var shifted := Shift(Lasts(xs[1..]));
      if HasName(Unique(xs[1..]), xs[0].name) then shifted else shifted + [0]
  }

  lemma {:induction false} LastsIn(xs: seq<Cookie>, i: nat)
    ensures i in Lasts(xs) <==> LastOfName(xs, i)
  {
    if xs != [] {
      var shifted := Shift(Lasts(xs[1..]));
      if i > 0 {
        LastsIn(xs[1..], i - 1);
        LastOfNameTail(xs, i);
        ShiftedIn(Lasts(xs[1..]), shifted, i);
        assert i in Lasts(xs) <==> i in shifted;
      } else {
        assert 0 !in shifted;
        FirstIsLast(xs);
      }
    }
  }

  lemma FirstIsLast(xs: seq<Cookie>)
    requires xs != []
    ensures LastOfName(xs, 0) <==> !HasName(Unique(xs[1..]), xs[0].name)
  {
    UniqueNames(xs[1..], xs[0].name);
    HasNameAt(xs[1..], xs[0].name);
    if j :| 0 < j < |xs| && xs[j].name == xs[0].name {
      assert xs[1..][j - 1] == xs[j];
    }
    if j :| 0 <= j < |xs[1..]| && xs[1..][j].name == xs[0].name {
      assert xs[j + 1].name == xs[0].name;
    }
  }

  lemma {:induction false} LastsValue(xs: seq<Cookie>, k: nat)
    requires k < |Lasts(xs)|
    ensures Unique(xs)[k] == xs[Lasts(xs)[k]]
  {
    if k < |Lasts(xs[1..])| {
      LastsValue(xs[1..], k);
    }
  }

  /** `unique` returns the last occurrence of each name, once, in decreasing order of position. */
  lemma UniquePositions(xs: seq<Cookie>) returns (at: seq<nat>)
    ensures LastAt(xs, at) && |at| == |Unique(xs)|
    ensures forall k :: 0 <= k < |at| ==> Unique(xs)[k] == xs[at[k]]
  {
    at := Lasts(xs);
    forall i: nat ensures i in at <==> LastOfName(xs, i) { LastsIn(xs, i); }
    forall k | 0 <= k < |at| ensures Unique(xs)[k] == xs[at[k]] { LastsValue(xs, k); }
  }

  lemma ShiftedIn(rest: seq<nat>, shifted: seq<nat>, i: nat)
    requires 0 < i && |shifted| == |rest| && forall k :: 0 <= k < |rest| ==> shifted[k] == rest[k] + 1
    ensures i in shifted <==> i - 1 in rest
  {
    if i - 1 in rest {
      var k :| 0 <= k < |rest| && rest[k] == i - 1;
      assert shifted[k] == i;
    }
  }

  lemma LastOfNameTail(xs: seq<Cookie>, i: nat)
    requires 0 < i
    ensures LastOfName(xs, i) <==> xs != [] && LastOfName(xs[1..], i - 1)
  {
    if xs != [] {
      var tail := xs[1..];
      if LastOfName(tail, i - 1) {
        forall j | i < j < |xs| ensures xs[j].name != xs[i].name { assert xs[j] == tail[j - 1]; }
      }
      if LastOfName(xs, i) {
        forall j | i - 1 < j < |tail| ensures tail[j].name != tail[i - 1].name { assert tail[j] == xs[j + 1]; }
      }
    }
  }

  lemma HasNameAt(xs: seq<Cookie>, name: string)
    ensures HasName(xs, name) <==> exists i :: 0 <= i < |xs| && xs[i].name == name
  {
    if i :| 0 <= i < |xs| && xs[i].name == name {
      assert xs[i] in xs;
    }
  }

  lemma UniqueDistinct(xs: seq<Cookie>)
    ensures Distinct(Unique(xs))
  {
    var at := UniquePositions(xs);
    forall i, j | 0 <= i < j < |Unique(xs)| ensures Unique(xs)[i].name != Unique(xs)[j].name {
      assert at[j] in at && at[i] in at;
      assert LastOfName(xs, at[j]);
    }
  }

  lemma {:induction false} UniqueOfDistinct(xs: seq<Cookie>)
    requires Distinct(xs)
    ensures Unique(xs) == Reverse(xs)
  {
    if xs != [] {
      UniqueOfDistinct(xs[1..]);
      UniqueNames(xs[1..], xs[0].name);
      HasNameAt(xs[1..], xs[0].name);
    }
  }

  /** Applying `unique` twice reverses what applying it once gives. */
  lemma UniqueTwice(xs: seq<Cookie>)
    ensures Unique(Unique(xs)) == Reverse(Unique(xs))
  {
    UniqueDistinct(xs);
    UniqueOfDistinct(Unique(xs));
  }
}
