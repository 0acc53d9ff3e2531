/** Go slices of cookies: a window of an array, with a length and a capacity. */
module Slices {
  import opened Options
  import opened Cookies

  /** `Nil` is the nil slice. */
  datatype Slice = Nil | Window(arr: array<Cookie>, off: nat, len: nat, cap: nat)
  {
    predicate Ok() {
      Window? ==> len <= cap && off + cap <= arr.Length
    }

    function Arrays(): set<array<Cookie>> {
      if Window? then {arr} else {}
    }

    function View(): seq<Cookie>
      requires Ok()
      reads Arrays()
    {
      if Window? then arr[off..off + len] else []
    }

    function Len(): nat {
      if Window? then len else 0
    }

    function Get(i: nat): (c: Cookie)
      requires Ok() && i < Len()
      reads Arrays()
      ensures c == View()[i]
    {
      arr[off + i]
    }

    /** The window after appending `n` cookies in place. */
    function Longer(n: nat): Slice {
      if Window? then Window(arr, off, len + n, cap) else Nil
    }

    /** Whether `append` of `n` cookies stays in the same array. */
    predicate Fits(n: nat) {
      if Window? then len + n <= cap else n == 0
    }
  }

  /** `append(s, xs...)`: in place when the capacity allows, else into a new array. */
  method Append(s: Slice, xs: Slice) returns (r: Slice)
    requires s.Ok() && xs.Ok() && s.Arrays() !! xs.Arrays()
    modifies s.Arrays()
    ensures r.Ok() && r.View() == old(s.View()) + old(xs.View())
    ensures if s.Fits(xs.Len()) then r == s.Longer(xs.Len()) else r.Window? && r.off == 0 && fresh(r.arr)
    ensures s.Window? && s.len + xs.Len() <= s.cap ==> r == Window(s.arr, s.off, s.len + xs.Len(), s.cap)
    ensures s.Window? && s.len + xs.Len() > s.cap ==> fresh(r.Arrays())
    ensures s.Nil? ==> if xs.Len() == 0 then r == Nil else fresh(r.Arrays())
    ensures s.Window? ==>
              var n, was := s.off + s.len, old(s.arr[..]);
              s.arr[..] == if s.Fits(xs.Len()) then was[..n] + old(xs.View()) + was[n + xs.Len()..] else was
  {
    if s.Fits(xs.Len()) {
      r := AppendInPlace(s, xs);
    } else {
      r := AppendToNew(s, xs);
    }
  }

  method AppendInPlace(s: Slice, xs: Slice) returns (r: Slice)
    requires s.Ok() && xs.Ok() && s.Arrays() !! xs.Arrays() && s.Fits(xs.Len())
    modifies s.Arrays()
    ensures r == s.Longer(xs.Len()) && r.Ok() && r.View() == old(s.View()) + old(xs.View())
    ensures s.Window? ==>
              var n, was := s.off + s.len, old(s.arr[..]); s.arr[..] == was[..n] + old(xs.View()) + was[n + xs.Len()..]
  {
    if s.Window? {
      Overwrite(s.arr, s.off + s.len, xs);
    }
    r := s.Longer(xs.Len());
  }

  method Overwrite(arr: array<Cookie>, n: nat, xs: Slice)
    requires xs.Ok() && arr !in xs.Arrays() && n + xs.Len() <= arr.Length
    modifies arr
    ensures arr[..] == old(arr[..n]) + xs.View() + old(arr[n + xs.Len()..])
  {
    if xs.Window? {
      forall j | 0 <= j < xs.len {
        arr[n + j] := xs.arr[xs.off + j];
      }
    }
  }

  method AppendToNew(s: Slice, xs: Slice) returns (r: Slice)
    requires s.Ok() && xs.Ok()
    ensures r.Ok() && r.View() == s.View() + xs.View()
    ensures r.Window? && r.off == 0 && fresh(r.arr)
  {
    var m, n := s.Len(), xs.Len();
    var extra: nat :| true;
    var arr := new Cookie[m + n + extra];
    Overwrite(arr, 0, s);
    Overwrite(arr, m, xs);
    r := Window(arr, 0, m + n, m + n + extra);
  }

  /** `append(s, x)`. */
  method Push(s: Slice, x: Cookie) returns (r: Slice)
    requires s.Ok()
    modifies s.Arrays()
    ensures r.Ok() && r.Window? && r.View() == old(s.View()) + [x]
    ensures fresh(r.Arrays() - s.Arrays())
    ensures (s.Window? ==> s.off == 0) ==> r.off == 0
  {
    var one := new Cookie[1];
    one[0] := x;
    r := Append(s, Window(one, 0, 1, 1));
  }

  /** `arr[off+k] = c`: the `k` cookies from `off` on become `k + 1`. */
  method Put(arr: array<Cookie>, off: nat, k: nat, c: Cookie)
    requires off + k < arr.Length
    modifies arr
    ensures arr[off..off + k + 1] == old(arr[off..off + k]) + [c]
    ensures forall j :: 0 <= j < arr.Length && j != off + k ==> arr[j] == old(arr[j])
  {
    arr[off + k] := c;
  }

  /** The loop of `nonEmpty` and `notExpired`: compact the accepted cookies to the front of the
      window, in place.  What lies beyond them, up to the old length, stays as it was. */
  method Compact(cookies: Slice, accept: Cookie -> bool) returns (kept: Slice)
    requires cookies.Ok()
    modifies cookies.Arrays()
    ensures kept.Ok() && kept.View() == Filter(accept, old(cookies.View()))
    ensures kept.Window? == cookies.Window?
    ensures cookies.Window? ==> kept == cookies.(len := |Filter(accept, old(cookies.View()))|)
    ensures cookies.View() ==
            Filter(accept, old(cookies.View())) + old(cookies.View())[|Filter(accept, old(cookies.View()))|..]
    ensures cookies.Window? ==> cookies.arr[..] == Packed(old(cookies.arr[..]), cookies.off, cookies.len, accept)
  {
    if cookies.Nil? {
      return Nil;
    }
    ghost var was := cookies.View();
    var k := CompactWindow(cookies.arr, cookies.off, cookies.len, accept);
    kept := cookies.(len := k);
    assert kept.View() == cookies.arr[cookies.off..cookies.off + k] == Filter(accept, was);
  }

  /** An array after compacting a window of it. */
  function Packed(xs: seq<Cookie>, off: nat, len: nat, accept: Cookie -> bool): (r: seq<Cookie>)
    requires off + len <= |xs|
    ensures |r| == |xs|
  {
    var kept := Filter(accept, xs[off..off + len]);
    xs[..off] + kept + xs[off + |kept|..]
  }

  lemma PackedParts(xs: seq<Cookie>, off: nat, len: nat, accept: Cookie -> bool)
    requires off + len <= |xs|
    ensures var was, kept, now := xs[off..off + len], Filter(accept, xs[off..off + len]), Packed(xs, off, len, accept);
            && now[off..off + |kept|] == kept
            && now[off..off + len] == kept + was[|kept|..]
            && forall i :: 0 <= i < |xs| && !(off <= i < off + len) ==> now[i] == xs[i]
  {
  }

  lemma PackedNone(xs: seq<Cookie>, off: nat, accept: Cookie -> bool)
    requires off <= |xs|
    ensures Packed(xs, off, 0, accept) == xs && |Filter(accept, xs[off..off + 0])| == 0
  {
  }

  /** One more turn of the compacting loop. */
  lemma PackedStep(xs: seq<Cookie>, off: nat, i: nat, accept: Cookie -> bool)
    requires off + i < |xs|
    ensures var k, now := |Filter(accept, xs[off..off + i])|, Packed(xs, off, i, accept);
            && now[off + i] == xs[off + i]
            && |Filter(accept, xs[off..off + i + 1])| == (if accept(xs[off + i]) then k + 1 else k)
            && Packed(xs, off, i + 1, accept) == if accept(xs[off + i]) then now[off + k := xs[off + i]] else now
  {
    var was := xs[off..off + i + 1];
    assert was[..i] == xs[off..off + i] && was[..i + 1] == was;
    FilterStep(accept, was, i);
  }

  /** A window whose cookies are all accepted is not changed. */
  lemma PackedSame(xs: seq<Cookie>, off: nat, len: nat, accept: Cookie -> bool)
    requires off + len <= |xs| && Filter(accept, xs[off..off + len]) == xs[off..off + len]
    ensures Packed(xs, off, len, accept) == xs
  {
  }

  /** At the start of an array. */
  lemma PackedHead(xs: seq<Cookie>, len: nat)
    requires len <= |xs|
    ensures Packed(xs, 0, len, Live) == Read(xs[..len]) + xs[len..]
  {
    assert xs[0..len] == xs[..len];
  }

  method CompactWindow(arr: array<Cookie>, off: nat, len: nat, accept: Cookie -> bool) returns (k: nat)
    requires off + len <= arr.Length
    modifies arr
    ensures k == |Filter(accept, old(arr[off..off + len]))|
    ensures arr[off..off + k] == Filter(accept, old(arr[off..off + len]))
    ensures arr[off..off + len] == Filter(accept, old(arr[off..off + len])) + old(arr[off..off + len])[k..]
    ensures arr[..] == Packed(old(arr[..]), off, len, accept)
  {
    ghost var was := arr[..];
    assert was[off..off + len] == arr[off..off + len];
    k := CompactArray(arr, off, len, accept, was);
    PackedParts(was, off, len, accept);
    PartsOfArray(arr, off, k, len);
  }

  lemma PartsOfArray(arr: array<Cookie>, off: nat, k: nat, len: nat)
    requires k <= len && off + len <= arr.Length
    ensures arr[off..off + k] == arr[..][off..off + k] && arr[off..off + len] == arr[..][off..off + len]
  {
  }

  /** One turn of the loop, over an array that first held `all`. */
  method CompactTurn(arr: array<Cookie>, off: nat, i: nat, k: nat, accept: Cookie -> bool, ghost all: seq<Cookie>)
    returns (k': nat)
    requires off + i < |all| && k == |Filter(accept, all[off..off + i])|
    requires arr[..] == Packed(all, off, i, accept)
    modifies arr
    ensures k' == |Filter(accept, all[off..off + i + 1])|
    ensures arr[..] == Packed(all, off, i + 1, accept)
  {
    PackedStep(all, off, i, accept);
    var cookie := arr[off + i];
    assert cookie == arr[..][off + i] == all[off + i];
    k' := k;
    if accept(cookie) {
      arr[off + k] := cookie;
      k' := k + 1;
    }
  }

  method CompactArray(arr: array<Cookie>, off: nat, len: nat, accept: Cookie -> bool, ghost all: seq<Cookie>)
    returns (k: nat)
    requires arr[..] == all && off + len <= |all|
    modifies arr
    ensures k == |Filter(accept, all[off..off + len])|
    ensures arr[..] == Packed(all, off, len, accept)
  {
    PackedNone(all, off, accept);
    k := 0;
    for i := 0 to len
      invariant k == |Filter(accept, all[off..off + i])|
      invariant arr[..] == Packed(all, off, i, accept)
    {
      k := CompactTurn(arr, off, i, k, accept, all);
    }
  }

  /** `found` is the first cookie of that name, if there is one. */
  ghost predicate FirstOfName(xs: seq<Cookie>, name: string, found: Option<Cookie>) {
    match found
    case None => !HasName(xs, name)
    case Some(c) =>
      exists i :: 0 <= i < |xs| && xs[i] == c && c.name == name && forall j :: 0 <= j < i ==> xs[j].name != name
  }

  /** `findCookieByName`. */
  method FindByName(cookies: Slice, name: string) returns (found: Option<Cookie>)
    requires cookies.Ok()
    ensures FirstOfName(cookies.View(), name, found)
    ensures found.Some? <==> HasName(cookies.View(), name)
  {
    for i := 0 to cookies.Len()
      invariant forall j :: 0 <= j < i ==> cookies.View()[j].name != name
    {
      var c := cookies.Get(i);
      if c.name == name {
        return Some(c);
      }
    }
    return None;
  }

  /** One turn of the loops of `SetCookies`: skip a cookie whose name is taken, else append it. */
  method PushUnnamed(taken: Slice, r: Slice, cookie: Cookie) returns (r': Slice)
    requires taken.Ok() && r.Ok() && r.Arrays() !! taken.Arrays()
    modifies r.Arrays()
    ensures r'.Ok()
    ensures r'.View() == if HasName(old(taken.View()), cookie.name) then old(r.View()) else old(r.View()) + [cookie]
    ensures fresh(r'.Arrays() - r.Arrays())
    ensures (r.Window? ==> r.off == 0) ==> (r'.Window? ==> r'.off == 0)
  {
    var found := FindByName(taken, cookie.name);
    r' := r;
    if found.None? {
      r' := Push(r, cookie);
    }
  }

  /** The cookies among the first `i` whose name is not taken. */
  ghost function Untaken(taken: Slice, cookies: Slice, i: nat): seq<Cookie>
    requires taken.Ok() && cookies.Ok() && i <= cookies.Len()
    reads taken.Arrays(), cookies.Arrays()
  {
    Filter(Unnamed(taken.View()), cookies.View()[..i])
  }

  method CollectNext(taken: Slice, cookies: Slice, i: nat, r: Slice) returns (r': Slice)
    requires taken.Ok() && cookies.Ok() && i < cookies.Len() && r.Ok()
    requires r.Window? ==> r.off == 0 && r.arr !in taken.Arrays() && r.arr !in cookies.Arrays()
    requires r.View() == Untaken(taken, cookies, i)
    modifies r.Arrays()
    ensures r'.Ok() && r'.View() == Untaken(taken, cookies, i + 1)
    ensures r'.Window? ==> r'.off == 0 && (fresh(r'.arr) || (r.Window? && r'.arr == r.arr))
  {
    FilterStep(Unnamed(taken.View()), cookies.View(), i);
    r' := PushUnnamed(taken, r, cookies.Get(i));
  }

  /** The loop of `SetCookies` that collects, in a new slice, the cookies whose name is not taken. */
  method CollectUnnamed(taken: Slice, cookies: Slice) returns (r: Slice)
    requires taken.Ok() && cookies.Ok()
    ensures r.Ok() && r.View() == Filter(Unnamed(taken.View()), cookies.View())
    ensures fresh(r.Arrays()) && (r.Window? ==> r.off == 0)
  {
    r := Nil;
    for i := 0 to cookies.Len()
      invariant r.Ok() && (r.Window? ==> r.off == 0 && fresh(r.arr))
      invariant r.View() == Untaken(taken, cookies, i)
    {
      r := CollectNext(taken, cookies, i, r);
    }
    assert cookies.View()[..cookies.Len()] == cookies.View();
  }

  lemma UniqueStep(xs: seq<Cookie>, i: nat)
    requires i < |xs|
    ensures Unique(xs[i..]) ==
            if HasName(Unique(xs[i + 1..]), xs[i].name) then Unique(xs[i + 1..]) else Unique(xs[i + 1..]) + [xs[i]]
  {
    assert xs[i..][1..] == xs[i + 1..];
  }

  /** `seen` holds exactly the names `unique` has picked from a list. */
  ghost predicate Sees(seen: set<string>, xs: seq<Cookie>) {
    forall name :: name in seen <==> HasName(Unique(xs), name)
  }

  lemma SeesOneMore(seen: set<string>, xs: seq<Cookie>, i: nat)
    requires i < |xs| && Sees(seen, xs[i + 1..])
    ensures Sees(seen + {xs[i].name}, xs[i..])
  {
    forall name ensures name in seen + {xs[i].name} <==> HasName(Unique(xs[i..]), name) {
      UniqueNames(xs[i..], name);
      UniqueNames(xs[i + 1..], name);
      assert name in seen <==> HasName(Unique(xs[i + 1..]), name);
      assert xs[i..] == [xs[i]] + xs[i + 1..];
    }
  }

  /** One turn of the loop of `unique`. */
  method UniqueTurn(c: Cookie, arr: array<Cookie>, k: nat, seen: set<string>, ghost xs: seq<Cookie>, ghost i: nat)
    returns (k': nat, seen': set<string>)
    requires i < |xs| && c == xs[i] && k + i < arr.Length
    requires arr[0..k] == Unique(xs[i + 1..]) && Sees(seen, xs[i + 1..])
    modifies arr
    ensures k' <= k + 1 <= arr.Length && arr[0..k'] == Unique(xs[i..]) && Sees(seen', xs[i..])
  {
    UniqueStep(xs, i);
    SeesOneMore(seen, xs, i);
    k', seen' := k, seen;
    if c.name !in seen {
      Put(arr, 0, k, c);
      k', seen' := k + 1, seen + {c.name};
    } else {
      assert seen + {c.name} == seen;
    }
  }

  /** `unique`: a new slice, filled from the end of the list. */
  method UniqueByName(cookies: Slice) returns (r: Slice)
    requires cookies.Ok()
    ensures r.Ok() && r.View() == Unique(cookies.View())
    ensures r.Window? && r.off == 0 && fresh(r.arr)
  {
    ghost var xs := cookies.View();
    var arr := new Cookie[cookies.Len()];
    var k: nat := 0;
    var seen: set<string> := {};
    var i := cookies.Len();
    while i > 0
      invariant 0 <= i <= |xs| && k + i <= |xs| && cookies.View() == xs
      invariant arr[0..k] == Unique(xs[i..]) && Sees(seen, xs[i..])
    {
      i := i - 1;
      k, seen := UniqueTurn(cookies.Get(i), arr, k, seen, xs, i);
    }
    assert xs[0..] == xs;
    r := Window(arr, 0, k, arr.Length);
  }
}
