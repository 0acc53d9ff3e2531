/** Which live cookies interleaved readers of one host can lose, and which they cannot. */
module JarLosses {
  import opened Options
  import opened Cookies
  import opened JarLaws
  import opened JarReaders

  /** The first expired slot, or the length if there is none. */
  function FirstExpired(xs: seq<Cookie>): (p: nat)
    ensures p <= |xs| && (forall j :: 0 <= j < p ==> Live(xs[j])) && (p < |xs| ==> !Live(xs[p]))
  {
    if xs == [] || !Live(xs[0]) then 0 else 1 + FirstExpired(xs[1..])
  }

  /** The last live slot, or -1 if there is none. */
  function LastLive(xs: seq<Cookie>): (q: int)
    ensures -1 <= q < |xs| && (q >= 0 ==> Live(xs[q])) && (forall j :: q < j < |xs| ==> !Live(xs[j]))
  {
    if xs == [] then -1 else if Live(xs[|xs| - 1]) then |xs| - 1 else LastLive(xs[..|xs| - 1])
  }

  // ---------------------------------------------------------------- what stays

  /** The live slots before the first expired one, and the last live slot, are as at the start. */
  predicate SlotsKept(xs: seq<Cookie>, slots: seq<Cookie>) {
    && |slots| == |xs|
    && (forall j :: 0 <= j < FirstExpired(xs) ==> slots[j] == xs[j])
    && (forall j :: 0 <= j < |xs| && LastLive(xs) <= j ==> slots[j] == xs[j])
  }

  /** A reader has kept every slot before the first expired one, and what it holds from outside the
      slots in between is what was there at the start. */
  predicate ReaderKept(xs: seq<Cookie>, r: Reader) {
    var p := FirstExpired(xs);
    && r.k <= r.i <= |xs| && (r.i <= p ==> r.k == r.i) && (r.i > p ==> r.k >= p)
    && (r.held.Some? ==> r.i < |xs| && (r.i < p || r.i >= LastLive(xs) ==> r.held.value == xs[r.i]))
  }

  ghost predicate EndsKept(xs: seq<Cookie>, s: State) {
    SlotsKept(xs, s.slots) && forall r :: 0 <= r < |s.readers| ==> ReaderKept(xs, s.readers[r])
  }

  lemma KeptStep(xs: seq<Cookie>, s: State, r: nat)
    requires EndsKept(xs, s) && CanStep(s, r)
    ensures EndsKept(xs, Step(s, r))
  {
    assert ReaderKept(xs, s.readers[r]);
  }

  lemma {:induction false} KeptRun(xs: seq<Cookie>, s: State, run: seq<nat>)
    requires EndsKept(xs, s) && Feasible(s, run)
    ensures EndsKept(xs, Exec(s, run))
    decreases |run|
  {
    if run != [] {
      KeptStep(xs, s, run[0]);
      KeptRun(xs, Step(s, run[0]), run[1..]);
    }
  }

  // ---------------------------------------------------------------- readers paused at the first expired slot

  lemma {:induction false} Then(s: State, run: seq<nat>, t: State, run': seq<nat>, u: State)
    requires Reaches(s, run, t) && Reaches(t, run', u)
    ensures Reaches(s, run + run', u)
    decreases |run|
  {
    if run == [] {
      assert run + run' == run';
    } else {
      var s1 := Step(s, run[0]);
      Then(s1, run[1..], t, run', u);
      First(s, run[0], s1, run[1..] + run', u);
      assert [run[0]] + (run[1..] + run') == run + run';
    }
  }

  ghost predicate Leads(s: State, t: State) {
    exists run :: Reaches(s, run, t)
  }

  lemma LeadsThen(s: State, t: State, u: State)
    requires Leads(s, t) && Leads(t, u)
    ensures Leads(s, u)
  {
    var run :| Reaches(s, run, t);
    var run' :| Reaches(t, run', u);
    Then(s, run, t, run', u);
  }

  lemma LeadsToItself(s: State)
    ensures Leads(s, s)
  {
    assert Reaches(s, [], s);
  }

  /** A reader that has passed the first expired slot and stopped there. */
  function Paused(p: nat): Reader {
    Reader(p + 1, p, None)
  }

  /** A reader gets there without changing the array. */
  lemma {:induction false} Pause(s: State, r: nat, i: nat)
    requires r < |s.readers| && s.readers[r] == Reader(i, i, None) && i <= FirstExpired(s.slots) < |s.slots|
    ensures Leads(s, State(s.slots, s.readers[r := Paused(FirstExpired(s.slots))]))
    decreases FirstExpired(s.slots) - i
  {
    var p := FirstExpired(s.slots);
    var t := State(s.slots, s.readers[r := Paused(p)]);
    var s' := Step(Step(s, r), r);
    if i == p {
      assert s' == t;
      Turn(s, r, s', [], t);
    } else {
      assert s.slots[i := s.slots[i]] == s.slots;
      assert s' == State(s.slots, s.readers[r := Reader(i + 1, i + 1, None)]);
      Pause(s', r, i + 1);
      assert s'.readers[r := Paused(p)] == s.readers[r := Paused(p)];
      var run :| Reaches(s', run, t);
      Turn(s, r, s', run, t);
    }
  }

  /** The first `j` of `n` readers have paused. */
  function SomePaused(slots: seq<Cookie>, n: nat, j: nat): State {
    State(slots, seq(n, x requires 0 <= x < n => if x < j then Paused(FirstExpired(slots)) else Reader(0, 0, None)))
  }

  lemma {:induction false} PauseAll(slots: seq<Cookie>, n: nat, j: nat)
    requires j <= n && FirstExpired(slots) < |slots|
    ensures Leads(SomePaused(slots, n, j), SomePaused(slots, n, n))
    decreases n - j
  {
    if j == n {
      LeadsToItself(SomePaused(slots, n, n));
    } else {
      var here, next := SomePaused(slots, n, j), SomePaused(slots, n, j + 1);
      Pause(here, j, 0);
      assert here.readers[j := Paused(FirstExpired(slots))] == next.readers;
      PauseAll(slots, n, j + 1);
      LeadsThen(here, next, SomePaused(slots, n, n));
    }
  }

  // ---------------------------------------------------------------- what a paused reader does later

  /** The array after a paused reader has run to its end. */
  function ShiftLeft(xs: seq<Cookie>, p: nat): (r: seq<Cookie>)
    requires p < |xs|
    ensures |r| == |xs|
  {
    Compacted(xs, p + 1, p)
  }

  function ShiftsLeft(xs: seq<Cookie>, p: nat, n: nat): (r: seq<Cookie>)
    requires p < |xs|
    ensures |r| == |xs|
    decreases n
  {
    if n == 0 then xs else ShiftsLeft(ShiftLeft(xs, p), p, n - 1)
  }

  /** The readers from `r` on are paused, the others have finished. */
  predicate PausedFrom(s: State, p: nat, r: nat) {
    && r <= |s.readers|
    && (forall x :: r <= x < |s.readers| ==> s.readers[x] == Paused(p))
    && (forall x :: 0 <= x < r ==> Finished(s.slots, s.readers[x]))
  }

  lemma ShiftOne(s: State, p: nat, r: nat) returns (s': State)
    requires p < |s.slots| && r < |s.readers| && PausedFrom(s, p, r)
    ensures Leads(s, s') && s'.slots == ShiftLeft(s.slots, p)
    ensures |s'.readers| == |s.readers| && PausedFrom(s', p, r + 1)
  {
    var run := RunsToEnd(s, r);
    s' := RunToEnd(s, r);
  }

  /** They run to their ends one after the other. */
  lemma {:induction false} ShiftAll(s: State, p: nat, r: nat) returns (t: State)
    requires p < |s.slots| && PausedFrom(s, p, r)
    ensures Leads(s, t) && Ended(t) && t.slots == ShiftsLeft(s.slots, p, |s.readers| - r)
    decreases |s.readers| - r
  {
    if r == |s.readers| {
      t := s;
      LeadsToItself(s);
    } else {
      var s' := ShiftOne(s, p, r);
      t := ShiftAll(s', p, r + 1);
      LeadsThen(s, s', t);
    }
  }

  /** A shift fills the slots from `p` on with live cookies from further right, and leaves the rest. */
  lemma ShiftMoves(xs: seq<Cookie>, p: nat, j: nat) returns (m: nat)
    requires p < |xs| && p <= j < p + Beyond(xs, p)
    ensures j < m < |xs| && Live(xs[m]) && ShiftLeft(xs, p)[j] == xs[m]
  {
    var zs := xs[p + 1..];
    var at := FilterPositions(Live, zs);
    m := p + 1 + at[j - p];
    assert at[j - p] in at;
  }

  lemma ShiftLeaves(xs: seq<Cookie>, p: nat)
    requires p < |xs|
    ensures forall j :: 0 <= j < p || p + Beyond(xs, p) <= j < |xs| ==> ShiftLeft(xs, p)[j] == xs[j]
  {
  }

  lemma LiveAt(zs: seq<Cookie>, i: nat)
    requires i < |zs| && Live(zs[i])
    ensures |Filter(Live, zs)| >= 1
  {
    FilterIn(Live, zs, zs[i]);
  }

  lemma TwoLiveAt(zs: seq<Cookie>, i: nat, j: nat)
    requires i < j < |zs| && Live(zs[i]) && Live(zs[j])
    ensures |Filter(Live, zs)| >= 2
  {
    assert zs == zs[..j] + zs[j..];
    FilterAppend(Live, zs[..j], zs[j..]);
    LiveAt(zs[..j], i);
    LiveAt(zs[j..], 0);
  }

  /** How many live slots lie beyond `p`. */
  function Beyond(xs: seq<Cookie>, p: nat): (n: nat)
    requires p < |xs|
    ensures n < |xs|
  {
    |Filter(Live, xs[p + 1..])|
  }

  /** There are no more live slots beyond `p` than up to the last one. */
  lemma BeyondFits(xs: seq<Cookie>, p: nat, q: nat)
    requires p < q < |xs| && Live(xs[q]) && forall j :: q < j < |xs| ==> !Live(xs[j])
    ensures 1 <= Beyond(xs, p) <= q - p
  {
    var zs := xs[p + 1..];
    LiveAt(zs, q - p - 1);
    assert zs == zs[..q - p] + zs[q - p..];
    FilterAppend(Live, zs[..q - p], zs[q - p..]);
    FilterNone(Live, zs[q - p..]);
  }

  lemma LaidTail(slots: seq<Cookie>, k: nat, live: seq<Cookie>)
    requires 1 <= |live| && k + |live| <= |slots|
    ensures Laid(slots, k, live)[k + 1..] == live[1..] + slots[k + |live|..]
  {
  }

  lemma FilteredAreLive(xs: seq<Cookie>, rest: seq<Cookie>)
    requires Filter(Live, xs) != []
    ensures LiveCount(Filter(Live, xs)[1..] + rest) == |Filter(Live, xs)| - 1 + LiveCount(rest)
  {
    var live := Filter(Live, xs);
    FilterMembers(Live, xs);
    FilterAll(Live, live[1..]);
    FilterAppend(Live, live[1..], rest);
  }

  /** How many live slots lie beyond `p` after a shift. */
  lemma BeyondAfterShift(xs: seq<Cookie>, p: nat)
    requires p < |xs| && Beyond(xs, p) >= 1
    ensures var n := Beyond(xs, p); Beyond(ShiftLeft(xs, p), p) == n - 1 + |Filter(Live, xs[p + n..])|
  {
    LaidTail(xs, p, Filter(Live, xs[p + 1..]));
    FilteredAreLive(xs[p + 1..], xs[p + Beyond(xs, p)..]);
  }

  /** From slot `b` on, every live slot holds `c`. */
  predicate OnlyFrom(xs: seq<Cookie>, b: nat, c: Cookie) {
    forall j :: b <= j < |xs| && Live(xs[j]) ==> xs[j] == c
  }

  predicate SameUpTo(xs: seq<Cookie>, ys: seq<Cookie>, p: nat) {
    p <= |xs| == |ys| && forall j :: 0 <= j < p ==> ys[j] == xs[j]
  }

  /** `q` is the last live slot, and beyond `p`. */
  predicate LastLiveIs(xs: seq<Cookie>, p: nat, q: nat) {
    p < q < |xs| && Live(xs[q]) && forall j :: q < j < |xs| ==> !Live(xs[j])
  }

  lemma ShiftKeepsLast(xs: seq<Cookie>, p: nat, q: nat)
    requires LastLiveIs(xs, p, q)
    ensures LastLiveIs(ShiftLeft(xs, p), p, q) && ShiftLeft(xs, p)[q] == xs[q] && SameUpTo(xs, ShiftLeft(xs, p), p)
  {
    BeyondFits(xs, p, q);
    ShiftLeaves(xs, p);
  }

  /** A shift that reaches slot `b` fills slot `b-1` with the last live cookie. */
  lemma ShiftFills(xs: seq<Cookie>, p: nat, q: nat, b: nat)
    requires LastLiveIs(xs, p, q) && p < b <= p + Beyond(xs, p) && OnlyFrom(xs, b, xs[q])
    ensures OnlyFrom(ShiftLeft(xs, p), b - 1, xs[q]) && Beyond(ShiftLeft(xs, p), p) >= Beyond(xs, p)
  {
    var ys, e := ShiftLeft(xs, p), p + Beyond(xs, p);
    BeyondFits(xs, p, q);
    BeyondAfterShift(xs, p);
    LiveAt(xs[e..], q - e);
    ShiftLeaves(xs, p);
    forall j | b - 1 <= j < |ys| && Live(ys[j]) ensures ys[j] == xs[q] {
      if j < e { var m := ShiftMoves(xs, p, j); }
    }
  }

  lemma ShiftLeavesOnly(xs: seq<Cookie>, p: nat, b: nat, c: Cookie)
    requires p < |xs| && p + Beyond(xs, p) <= b <= |xs| && OnlyFrom(xs, b, c)
    ensures OnlyFrom(ShiftLeft(xs, p), b, c)
  {
    ShiftLeaves(xs, p);
  }

  /** A shift that does not reach a live slot before the last one adds live slots. */
  lemma ShiftAdds(xs: seq<Cookie>, p: nat, i: nat, q: nat)
    requires p < |xs| && 1 <= Beyond(xs, p) && p + Beyond(xs, p) <= i < q < |xs| && Live(xs[i]) && Live(xs[q])
    ensures Beyond(ShiftLeft(xs, p), p) > Beyond(xs, p)
  {
    var e := p + Beyond(xs, p);
    TwoLiveAt(xs[e..], i - e, q - e);
    BeyondAfterShift(xs, p);
  }

  /** Enough shifts leave no live cookie from `p` on but the last one. */
  lemma {:induction false} Squeeze(xs: seq<Cookie>, p: nat, q: nat, b: nat) returns (n: nat)
    requires LastLiveIs(xs, p, q) && p <= b <= |xs| && OnlyFrom(xs, b, xs[q])
    ensures SameUpTo(xs, ShiftsLeft(xs, p, n), p) && OnlyFrom(ShiftsLeft(xs, p, n), p, xs[q])
    decreases |xs| - Beyond(xs, p) + b
  {
    if b == p {
      n := 0;
    } else if OnlyFrom(xs, b - 1, xs[q]) {
      n := Squeeze(xs, p, q, b - 1);
    } else {
      ShiftKeepsLast(xs, p, q);
      if p + Beyond(xs, p) >= b {
        ShiftFills(xs, p, q, b);
        n := Squeeze(ShiftLeft(xs, p), p, q, b - 1);
      } else {
        BeyondFits(xs, p, q);
        ShiftLeavesOnly(xs, p, b, xs[q]);
        ShiftAdds(xs, p, b - 1, q);
        n := Squeeze(ShiftLeft(xs, p), p, q, b);
      }
      n := n + 1;
    }
  }

  /** Some interleaving of readers leaves the slots before the first expired one as they were, and
      beyond it no live cookie but the last one. */
  lemma ReadersSqueeze(xs: seq<Cookie>) returns (n: nat, t: State)
    requires FirstExpired(xs) < LastLive(xs)
    ensures Leads(Start(xs, n), t) && Ended(t)
    ensures SameUpTo(xs, t.slots, FirstExpired(xs)) && OnlyFrom(t.slots, FirstExpired(xs), xs[LastLive(xs)])
  {
    n := Squeeze(xs, FirstExpired(xs), LastLive(xs), |xs|);
    t := AllShift(xs, n);
  }

  /** All `n` readers pause at the first expired slot, and then run to their ends. */
  lemma AllShift(xs: seq<Cookie>, n: nat) returns (t: State)
    requires FirstExpired(xs) < |xs|
    ensures Leads(Start(xs, n), t) && Ended(t) && t.slots == ShiftsLeft(xs, FirstExpired(xs), n)
  {
    var paused := SomePaused(xs, n, n);
    assert Start(xs, n) == SomePaused(xs, n, 0);
    PauseAll(xs, n, 0);
    t := ShiftAll(paused, FirstExpired(xs), 0);
    LeadsThen(Start(xs, n), paused, t);
  }

  // ---------------------------------------------------------------- the exact condition

  /** Some interleaving of any number of readers comes to a state without the live cookie `d`. */
  ghost predicate CanBeAbsent(xs: seq<Cookie>, d: Cookie) {
    Live(d) && d in xs && exists n: nat, t :: Leads(Start(xs, n), t) && d !in t.slots
  }

  /** Some interleaving, when all its readers have returned, has left no slot with the live cookie. */
  ghost predicate CanBeLost(xs: seq<Cookie>, d: Cookie) {
    Live(d) && d in xs && exists n: nat, t :: Leads(Start(xs, n), t) && Ended(t) && d !in t.slots
  }

  /** `d` stands before the first expired slot. */
  predicate BeforeExpired(xs: seq<Cookie>, d: Cookie) {
    exists j :: 0 <= j < FirstExpired(xs) && xs[j] == d
  }

  /** Interleaved readers can lose a live cookie if and only if it does not stand before the first
      expired slot and is not the last live one; otherwise it is there in every state of every run. */
  lemma CanBeLostIff(xs: seq<Cookie>, d: Cookie)
    ensures CanBeLost(xs, d) <==> Live(d) && d in xs && !BeforeExpired(xs, d) && d != xs[LastLive(xs)]
    ensures CanBeAbsent(xs, d) <==> CanBeLost(xs, d)
  {
    if Live(d) && d in xs {
      var i :| 0 <= i < |xs| && xs[i] == d;
      assert i <= LastLive(xs);
      if !BeforeExpired(xs, d) && d != xs[LastLive(xs)] {
        Lose(xs, i);
      } else {
        forall n: nat, t | Leads(Start(xs, n), t) ensures d in t.slots {
          var run :| Reaches(Start(xs, n), run, t);
          StaysInPlace(xs, d, n, run);
        }
      }
    }
  }

  lemma Lose(xs: seq<Cookie>, i: nat)
    requires i < |xs| && Live(xs[i]) && !BeforeExpired(xs, xs[i]) && xs[i] != xs[LastLive(xs)]
    ensures CanBeLost(xs, xs[i])
  {
    assert FirstExpired(xs) <= i < LastLive(xs);
    var n, t := ReadersSqueeze(xs);
    assert forall j :: 0 <= j < |t.slots| ==> t.slots[j] != xs[i];
  }

  lemma StaysInPlace(xs: seq<Cookie>, d: Cookie, n: nat, run: seq<nat>)
    requires LastLive(xs) >= 0 && (BeforeExpired(xs, d) || d == xs[LastLive(xs)])
    requires Feasible(Start(xs, n), run)
    ensures d in Exec(Start(xs, n), run).slots
  {
    KeptRun(xs, Start(xs, n), run);
    var ys := Exec(Start(xs, n), run).slots;
    var i :| 0 <= i < |xs| && xs[i] == d && (i < FirstExpired(xs) || i == LastLive(xs));
    assert ys[i] == d;
  }

  /** Two live slots follow an expired one. */
  predicate TwoLiveAfterExpired(xs: seq<Cookie>) {
    exists e, i, j :: 0 <= e < i < j < |xs| && !Live(xs[e]) && Live(xs[i]) && Live(xs[j])
  }

  lemma LossNeedsTwoLive(xs: seq<Cookie>, d: Cookie)
    requires CanBeLost(xs, d)
    ensures TwoLiveAfterExpired(xs)
  {
    CanBeLostIff(xs, d);
    var i :| 0 <= i < |xs| && xs[i] == d;
    assert FirstExpired(xs) < i < LastLive(xs);
  }

  lemma TwoLiveCanBeLost(xs: seq<Cookie>, e: nat, i: nat, j: nat)
    requires Distinct(xs) && e < i < j < |xs| && !Live(xs[e]) && Live(xs[i]) && Live(xs[j])
    ensures CanBeLost(xs, xs[i])
  {
    assert FirstExpired(xs) <= e && j <= LastLive(xs);
    DistinctSlots(xs, i);
    CanBeLostIff(xs, xs[i]);
  }

  /** On a list of distinct names interleaved readers can lose a live cookie if and only if at least
      two live slots follow the first expired one. */
  lemma LossIffTwoLiveAfterExpired(xs: seq<Cookie>)
    requires Distinct(xs)
    ensures (exists d :: CanBeLost(xs, d)) <==> TwoLiveAfterExpired(xs)
  {
    if d :| CanBeLost(xs, d) {
      LossNeedsTwoLive(xs, d);
    }
    if e, i, j :| 0 <= e < i < j < |xs| && !Live(xs[e]) && Live(xs[i]) && Live(xs[j]) {
      TwoLiveCanBeLost(xs, e, i, j);
    }
  }

  lemma DistinctSlots(xs: seq<Cookie>, i: nat)
    requires Distinct(xs) && i < |xs|
    ensures forall j :: 0 <= j < |xs| && j != i ==> xs[j] != xs[i]
  {
    forall j | 0 <= j < |xs| && j != i ensures xs[j] != xs[i] {
      assert if j < i then xs[j].name != xs[i].name else xs[i].name != xs[j].name;
    }
  }
}
