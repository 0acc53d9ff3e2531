/** `Cookies` compacts the stored array while it holds only the read lock, so several readers of
    one host can run at once.  Here their loops interleave. */
module JarReaders {
  import opened Options
  import opened Cookies
  import opened JarLaws

  /** A reader is about to look at slot `i`, or holds the cookie it read there; `k` slots are kept. */
  datatype Reader = Reader(i: nat, k: nat, held: Option<Cookie>)

  /** The stored array, up to the stored length, and the readers. */
  datatype State = State(slots: seq<Cookie>, readers: seq<Reader>)

  function Start(slots: seq<Cookie>, n: nat): State {
    State(slots, seq(n, _ => Reader(0, 0, None)))
  }

  predicate CanStep(s: State, r: nat) {
    && r < |s.readers|
    && (s.readers[r].held.None? ==> s.readers[r].i < |s.slots|)
    && (s.readers[r].held.Some? ==> s.readers[r].k < |s.slots|)
  }

  /** Reader `r` reads its next slot, or keeps or drops the cookie it holds. */
  function Step(s: State, r: nat): State
    requires CanStep(s, r)
  {
    var Reader(i, k, held) := s.readers[r];
    match held
    case None => s.(readers := s.readers[r := Reader(i, k, Some(s.slots[i]))])
    case Some(c) =>
      if Live(c) then State(s.slots[k := c], s.readers[r := Reader(i + 1, k + 1, None)])
      else s.(readers := s.readers[r := Reader(i + 1, k, None)])
  }

  predicate Feasible(s: State, run: seq<nat>)
    decreases |run|
  {
    run == [] || (CanStep(s, run[0]) && Feasible(Step(s, run[0]), run[1..]))
  }

  function Exec(s: State, run: seq<nat>): State
    requires Feasible(s, run)
    decreases |run|
  {
    if run == [] then s else Exec(Step(s, run[0]), run[1..])
  }

  /** The reader has passed all slots and returned the first `k` of them. */
  predicate Finished(slots: seq<Cookie>, r: Reader) {
    r.held.None? && r.i == |slots|
  }

  predicate Ended(s: State) {
    forall r :: 0 <= r < |s.readers| ==> Finished(s.slots, s.readers[r])
  }

  // ---------------------------------------------------------------- harmless interleavings

  predicate ReaderOk(slots: seq<Cookie>, r: Reader) {
    && r.i <= |slots| && r.k == |Filter(Live, slots[..r.i])|
    && (r.held.Some? ==> r.i < |slots| && r.held.value == slots[r.i])
  }

  lemma PartitionedPrefix(xs: seq<Cookie>, i: nat)
    requires Partitioned(xs) && i < |xs| && Live(xs[i])
    ensures |Filter(Live, xs[..i])| == i
  {
    FilterAll(Live, xs[..i]);
  }

  lemma {:induction false} QuietRun(s: State, run: seq<nat>)
    requires Partitioned(s.slots) && Feasible(s, run)
    requires forall r :: 0 <= r < |s.readers| ==> ReaderOk(s.slots, s.readers[r])
    ensures Exec(s, run).slots == s.slots
    ensures forall r :: 0 <= r < |Exec(s, run).readers| ==> ReaderOk(s.slots, Exec(s, run).readers[r])
    decreases |run|
  {
    if run != [] {
      var r := s.readers[run[0]];
      assert ReaderOk(s.slots, r);
      if r.held.Some? {
        FilterStep(Live, s.slots, r.i);
        if Live(r.held.value) { PartitionedPrefix(s.slots, r.i); }
        assert Step(s, run[0]).slots == s.slots;
      }
      QuietRun(Step(s, run[0]), run[1..]);
    }
  }

  // ---------------------------------------------------------------- one reader alone

  ghost predicate Reaches(s: State, run: seq<nat>, t: State) {
    Feasible(s, run) && Exec(s, run) == t
  }

  lemma First(s: State, r: nat, s1: State, run: seq<nat>, t: State)
    requires CanStep(s, r) && s1 == Step(s, r) && Reaches(s1, run, t)
    ensures Reaches(s, [r] + run, t)
  {
    assert ([r] + run)[1..] == run;
  }

  /** A whole turn of a reader's loop. */
  lemma Turn(s: State, r: nat, s': State, run: seq<nat>, t: State)
    requires CanStep(s, r) && s.readers[r].held.None?
    requires CanStep(Step(s, r), r) && Step(Step(s, r), r) == s' && Reaches(s', run, t)
    ensures Reaches(s, [r, r] + run, t)
  {
    First(Step(s, r), r, s', run, t);
    First(s, r, Step(s, r), [r] + run, t);
    assert [r] + ([r] + run) == [r, r] + run;
  }

  /** Reader `r` between two turns of its loop. */
  predicate BetweenTurns(s: State, r: nat) {
    r < |s.readers| && s.readers[r].held.None? && s.readers[r].k <= s.readers[r].i <= |s.slots|
  }

  /** `live` written into the array from slot `k` on. */
  function Laid(slots: seq<Cookie>, k: nat, live: seq<Cookie>): (r: seq<Cookie>)
    requires k + |live| <= |slots|
    ensures |r| == |slots|
  {
    slots[..k] + live + slots[k + |live|..]
  }

  /** The array after a reader at slot `i`, with `k` slots kept, has run to its end. */
  function Compacted(slots: seq<Cookie>, i: nat, k: nat): (r: seq<Cookie>)
    requires k <= i <= |slots|
    ensures |r| == |slots|
  {
    Laid(slots, k, Filter(Live, slots[i..]))
  }

  /** The state after reader `r`, at slot `i` with `k` slots kept, has run to its end. */
  function EndOf(slots: seq<Cookie>, readers: seq<Reader>, r: nat, i: nat, k: nat): State
    requires k <= i <= |slots| && r < |readers|
  {
    State(Compacted(slots, i, k), readers[r := Reader(|slots|, k + |Filter(Live, slots[i..])|, None)])
  }

  function RunToEnd(s: State, r: nat): State
    requires BetweenTurns(s, r)
  {
    EndOf(s.slots, s.readers, r, s.readers[r].i, s.readers[r].k)
  }

  lemma LaidCons(slots: seq<Cookie>, k: nat, c: Cookie, rest: seq<Cookie>)
    requires k + 1 + |rest| <= |slots|
    ensures Laid(slots, k, [c] + rest) == Laid(slots[k := c], k + 1, rest)
  {
  }

  lemma FilterFrom(slots: seq<Cookie>, i: nat)
    requires i < |slots|
    ensures Filter(Live, slots[i..]) ==
            if Live(slots[i]) then [slots[i]] + Filter(Live, slots[i + 1..]) else Filter(Live, slots[i + 1..])
  {
    var c, rest := slots[i], slots[i + 1..];
    assert slots[i..] == [c] + rest && [c][..0] == [];
    FilterAppend(Live, [c], rest);
    assert Filter(Live, [c]) == if Live(c) then [c] else [];
  }

  /** The array after one turn at slot `i` with `k` slots kept. */
  function Turned(slots: seq<Cookie>, i: nat, k: nat): (r: seq<Cookie>)
    requires k <= i < |slots|
    ensures |r| == |slots|
  {
    if Live(slots[i]) then slots[k := slots[i]] else slots
  }

  lemma CompactedTurn(slots: seq<Cookie>, i: nat, k: nat)
    requires k <= i < |slots|
    ensures var k' := if Live(slots[i]) then k + 1 else k;
            && k + |Filter(Live, slots[i..])| == k' + |Filter(Live, Turned(slots, i, k)[i + 1..])|
            && Compacted(slots, i, k) == Compacted(Turned(slots, i, k), i + 1, k')
  {
    var c := slots[i];
    FilterFrom(slots, i);
    assert Turned(slots, i, k)[i + 1..] == slots[i + 1..];
    if Live(c) {
      LaidCons(slots, k, c, Filter(Live, slots[i + 1..]));
    }
  }

  /** One turn of a reader. */
  lemma WholeTurn(s: State, r: nat)
    requires BetweenTurns(s, r) && s.readers[r].i < |s.slots|
    ensures CanStep(s, r) && CanStep(Step(s, r), r)
    ensures var i, k := s.readers[r].i, s.readers[r].k;
            var turned := Reader(i + 1, if Live(s.slots[i]) then k + 1 else k, None);
            Step(Step(s, r), r) == State(Turned(s.slots, i, k), s.readers[r := turned])
  {
  }

  lemma UpdateTwice(readers: seq<Reader>, r: nat, x: Reader, y: Reader)
    requires r < |readers|
    ensures readers[r := x][r := y] == readers[r := y]
  {
  }

  /** One turn of a reader that runs alone does not change where it ends. */
  lemma EndOfTurn(slots: seq<Cookie>, readers: seq<Reader>, r: nat, i: nat, k: nat, turned: Reader)
    requires k <= i < |slots| && r < |readers|
    ensures EndOf(Turned(slots, i, k), readers[r := turned], r, i + 1, if Live(slots[i]) then k + 1 else k) ==
            EndOf(slots, readers, r, i, k)
  {
    CompactedTurn(slots, i, k);
    UpdateTwice(readers, r, turned, Reader(|slots|, k + |Filter(Live, slots[i..])|, None));
  }

  /** A reader that runs alone from between two turns compacts the rest of the array as it is then. */
  lemma {:induction false} RunsToEnd(s: State, r: nat) returns (run: seq<nat>)
    requires BetweenTurns(s, r)
    ensures Reaches(s, run, RunToEnd(s, r))
    decreases |s.slots| - s.readers[r].i
  {
    var i, k := s.readers[r].i, s.readers[r].k;
    if i == |s.slots| {
      assert s.slots[i..] == [] && Compacted(s.slots, i, k) == s.slots;
      assert s.readers[r := s.readers[r]] == s.readers;
      run := [];
    } else {
      var turned := Reader(i + 1, if Live(s.slots[i]) then k + 1 else k, None);
      WholeTurn(s, r);
      EndOfTurn(s.slots, s.readers, r, i, k, turned);
      var s' := State(Turned(s.slots, i, k), s.readers[r := turned]);
      run := RunsToEnd(s', r);
      Turn(s, r, s', run, RunToEnd(s, r));
      run := [r, r] + run;
    }
  }

  /** One reader running alone leaves the array as `Read` says. */
  lemma SoloRun(slots: seq<Cookie>) returns (run: seq<nat>)
    ensures Feasible(Start(slots, 1), run) && Exec(Start(slots, 1), run).slots == Read(slots)
  {
    run := RunsToEnd(Start(slots, 1), 0);
    assert slots[0..] == slots;
  }

  /** Every interleaving of readers leaves the stored array as it is exactly when all live slots
      precede all expired ones; otherwise one reader alone already changes it. */
  lemma ReadersHarmlessIffPartitioned(slots: seq<Cookie>)
    ensures Partitioned(slots) <==>
              forall n, run :: Feasible(Start(slots, n), run) ==> Exec(Start(slots, n), run).slots == slots
  {
    if Partitioned(slots) {
      forall n: nat, run | Feasible(Start(slots, n), run) ensures Exec(Start(slots, n), run).slots == slots {
        QuietRun(Start(slots, n), run);
      }
    } else {
      var run := SoloRun(slots);
      ReadRaisesLiveCount(slots);
      assert Exec(Start(slots, 1), run).slots != slots;
    }
  }

  /** Two readers can lose a live cookie: `a` has expired, `b` and `c` are live, and after the run
      below no slot holds `b`, nor does either slice the readers got. */
  lemma TwoReadersLoseCookie()
    ensures var a, b, c := Cookie(0, "a", "x", -1), Cookie(1, "b", "x", 1), Cookie(2, "c", "x", 1);
            exists run :: Reaches(Start([a, b, c], 2), run, State([c, c, c], [Reader(3, 2, None), Reader(3, 2, None)]))
  {
    var a, b, c := Cookie(0, "a", "x", -1), Cookie(1, "b", "x", 1), Cookie(2, "c", "x", 1);
    var s := [Start([a, b, c], 2), State([a, b, c], [Reader(1, 0, None), Reader(0, 0, None)]),
              State([a, b, c], [Reader(1, 0, None), Reader(1, 0, None)]),
              State([b, b, c], [Reader(1, 0, None), Reader(2, 1, None)]),
              State([b, c, c], [Reader(1, 0, None), Reader(3, 2, None)]),
              State([c, c, c], [Reader(2, 1, None), Reader(3, 2, None)]),
              State([c, c, c], [Reader(3, 2, None), Reader(3, 2, None)])];
    assert s[0].readers == [Reader(0, 0, None), Reader(0, 0, None)];
    Turn(s[5], 0, s[6], [], s[6]);
    Turn(s[4], 0, s[5], [0, 0] + [], s[6]);
    Turn(s[3], 1, s[4], [0, 0] + ([0, 0] + []), s[6]);
    Turn(s[2], 1, s[3], [1, 1] + ([0, 0] + ([0, 0] + [])), s[6]);
    Turn(s[1], 1, s[2], [1, 1] + ([1, 1] + ([0, 0] + ([0, 0] + []))), s[6]);
    Turn(s[0], 0, s[1], [1, 1] + ([1, 1] + ([1, 1] + ([0, 0] + ([0, 0] + [])))), s[6]);
  }
}
