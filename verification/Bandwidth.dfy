/** The bandwidth tracker: tracked connections, total and reset as interleaved steps on two atomic
    64-bit counters. */
module Bandwidth {
  const LIMIT := 0x8000_0000_0000_0000

  /** The value an `int64` holds after overflow. */
  function Wrap(x: int): int {
    (x + LIMIT) % (2 * LIMIT) - LIMIT
  }

  datatype Side = Reads | Writes

  datatype Task = Transfer(side: Side) | GetTotal | Reset

  datatype Pc =
    | Moving(side: Side)            // Read or Write of the wrapped connection
    | Adding(side: Side, n: nat)    // `n` bytes moved, not yet counted
    | Moved(side: Side, n: nat)
    | LoadRead                      // GetTotalBandwidth, first load
    | LoadWrite(loaded: int)        // second load
    | Total(sum: int)
    | StoreWrite                    // Reset, first store
    | StoreRead                     // second store
    | Cleared

  datatype State = State(readBytes: int, writeBytes: int, threads: seq<Pc>)

  /** `n` is the number of bytes a connection says it moved, with or without an error. */
  datatype Step = Begin(task: Task) | Advance(i: nat, n: nat)

  function Init(): State {
    State(0, 0, [])
  }

  function Entry(task: Task): Pc {
    match task
    case Transfer(side) => Moving(side)
    case GetTotal => LoadRead
    case Reset => StoreWrite
  }

  predicate Finished(pc: Pc) {
    pc.Moved? || pc.Total? || pc.Cleared?
  }

  predicate Enabled(s: State, step: Step) {
    step.Begin? || (step.i < |s.threads| && !Finished(s.threads[step.i]))
  }

  function Counter(s: State, side: Side): int {
    if side.Reads? then s.readBytes else s.writeBytes
  }

  function Act(s: State, i: nat, n: nat): State
    requires i < |s.threads|
  {
    match s.threads[i]
    case Moving(side) => s.(threads := s.threads[i := Adding(side, n)])
    case Adding(Reads, k) => s.(readBytes := Wrap(s.readBytes + k), threads := s.threads[i := Moved(Reads, k)])
    case Adding(Writes, k) => s.(writeBytes := Wrap(s.writeBytes + k), threads := s.threads[i := Moved(Writes, k)])
    case LoadRead => s.(threads := s.threads[i := LoadWrite(s.readBytes)])
    case LoadWrite(r) => s.(threads := s.threads[i := Total(Wrap(r + s.writeBytes))])
    case StoreWrite => s.(writeBytes := 0, threads := s.threads[i := StoreRead])
    case StoreRead => s.(readBytes := 0, threads := s.threads[i := Cleared])
    case _ => s
  }

  function Next(s: State, step: Step): State
    requires Enabled(s, step)
  {
    match step
    case Begin(task) => s.(threads := s.threads + [Entry(task)])
    case Advance(i, n) => Act(s, i, n)
  }

  predicate Feasible(s: State, run: seq<Step>)
    decreases |run|
  {
    run == [] || (Enabled(s, run[0]) && Feasible(Next(s, run[0]), run[1..]))
  }

  function Exec(s: State, run: seq<Step>): State
    requires Feasible(s, run)
    decreases |run|
  {
    if run == [] then s else Exec(Next(s, run[0]), run[1..])
  }

  lemma {:induction false} Extend(s: State, run: seq<Step>, step: Step)
    requires Feasible(s, run) && Enabled(Exec(s, run), step)
    ensures Feasible(s, run + [step]) && Exec(s, run + [step]) == Next(Exec(s, run), step)
    decreases |run|
  {
    if run == [] {
      assert [step][1..] == [];
    } else {
      assert (run + [step])[1..] == run[1..] + [step];
      Extend(Next(s, run[0]), run[1..], step);
    }
  }

  // ---------------------------------------------------------------- the true byte counts

  predicate At(s: State, step: Step, pc: Pc) {
    step.Advance? && step.i < |s.threads| && s.threads[step.i] == pc
  }

  predicate Resets(s: State, step: Step, side: Side) {
    At(s, step, if side.Reads? then StoreRead else StoreWrite)
  }

  /** The bytes `step` adds on one side. */
  function AddedBy(s: State, step: Step, side: Side): nat {
    if step.Advance? && step.i < |s.threads| && s.threads[step.i].Adding? && s.threads[step.i].side == side
    then s.threads[step.i].n else 0
  }

  /** The bytes counted on one side since its last reset, without any overflow; `before` were
      counted when the run starts. */
  function Since(s: State, run: seq<Step>, side: Side, before: nat): nat
    requires Feasible(s, run)
    decreases |run|
  {
    if run == [] then before
    else Since(Next(s, run[0]), run[1..], side,
               if Resets(s, run[0], side) then 0 else before + AddedBy(s, run[0], side))
  }

  lemma WrapAdd(x: int, n: int)
    ensures Wrap(Wrap(x) + n) == Wrap(x + n)
  {
    var q := (x + LIMIT) / (2 * LIMIT);
    assert Wrap(x) == x - q * (2 * LIMIT);
    var a := x + n + LIMIT;
    ModShift(a, q, 2 * LIMIT);
  }

  lemma ModShift(a: int, q: int, m: int)
    requires m > 0
    ensures (a - q * m) % m == a % m
  {
    var k := a / m;
    assert a - q * m == (k - q) * m + a % m;
    ModUnique(a - q * m, k - q, a % m, m);
  }

  lemma ModUnique(x: int, k: int, r: int, m: int)
    requires 0 <= r < m && x == k * m + r
    ensures x % m == r
  {
    var d := x / m - k;
    assert d * m == r - x % m;
    MulBound(d, m);
  }

  lemma MulBound(d: int, m: int)
    requires m > 0
    ensures d >= 1 ==> d * m >= m
    ensures d <= -1 ==> d * m <= -m
  {
    if d >= 1 {
      assert (d - 1) * m >= 0;
    } else if d <= -1 {
      assert (-1 - d) * m >= 0;
    }
  }

  /** `n` is what an `int64` shows of a count: the count itself below 2^63, and in any case the value
      of that range it differs from by a multiple of 2^64. */
  predicate Shows64(n: int, count: nat) {
    && -0x8000_0000_0000_0000 <= n < 0x8000_0000_0000_0000
    && (count < 0x8000_0000_0000_0000 ==> n == count)
    && (count - n) % 0x1_0000_0000_0000_0000 == 0
  }

  lemma WrapShows64(count: nat)
    ensures Shows64(Wrap(count), count)
  {
  }

  /** Over every run of transfers, totals and resets on any number of connections, each counter is
      the number of bytes counted since its last reset, reduced to 64 bits. */
  lemma {:induction false} CountersCount(s: State, run: seq<Step>, side: Side, before: nat)
    requires Feasible(s, run) && Counter(s, side) == Wrap(before)
    ensures Counter(Exec(s, run), side) == Wrap(Since(s, run, side, before))
    decreases |run|
  {
    if run != [] {
      var now := if Resets(s, run[0], side) then 0 else before + AddedBy(s, run[0], side);
      WrapAdd(before, AddedBy(s, run[0], side));
      assert Counter(Next(s, run[0]), side) == Wrap(now);
      CountersCount(Next(s, run[0]), run[1..], side, now);
    }
  }

  /** A counter shows the true count exactly as long as that is below 2^63. */
  lemma CounterIsExactIff(run: seq<Step>, side: Side)
    requires Feasible(Init(), run)
    ensures Counter(Exec(Init(), run), side) == Since(Init(), run, side, 0) <==>
            Since(Init(), run, side, 0) < 0x8000_0000_0000_0000
  {
    CountersCount(Init(), run, side, 0);
  }

  // ---------------------------------------------------------------- no reset

  /** No step of the run stores a zero. */
  predicate NoReset(s: State, run: seq<Step>)
    requires Feasible(s, run)
    decreases |run|
  {
    run == [] || (!Resets(s, run[0], Reads) && !Resets(s, run[0], Writes) && NoReset(Next(s, run[0]), run[1..]))
  }

  /** The bytes of the finished reads or writes. */
  function Counted(threads: seq<Pc>, side: Side): nat {
    if threads == [] then 0
    else Counted(threads[..|threads| - 1], side) + Bytes(threads[|threads| - 1], side)
  }

  function Bytes(pc: Pc, side: Side): nat {
    if pc.Moved? && pc.side == side then pc.n else 0
  }

  lemma {:induction false} CountedUpdate(threads: seq<Pc>, side: Side, i: nat, pc: Pc)
    requires i < |threads|
    ensures Counted(threads[i := pc], side) == Counted(threads, side) - Bytes(threads[i], side) + Bytes(pc, side)
  {
    var last := |threads| - 1;
    if i == last {
      assert threads[i := pc][..last] == threads[..last];
    } else {
      assert threads[i := pc][..last] == threads[..last][i := pc];
      CountedUpdate(threads[..last], side, i, pc);
    }
  }

  lemma CountedStep(s: State, step: Step, side: Side)
    requires Enabled(s, step)
    ensures Counted(Next(s, step).threads, side) == Counted(s.threads, side) + AddedBy(s, step, side)
  {
    match step
    case Begin(task) => assert (s.threads + [Entry(task)])[..|s.threads|] == s.threads;
    case Advance(i, n) => CountedUpdate(s.threads, side, i, Next(s, step).threads[i]);
  }

  /** Without a reset the count is the sum over the finished operations: none is lost or counted
      twice, however the operations on the connections interleave. */
  lemma {:induction false} NothingLostOrCountedTwice(s: State, run: seq<Step>, side: Side)
    requires Feasible(s, run) && NoReset(s, run)
    ensures Since(s, run, side, Counted(s.threads, side)) == Counted(Exec(s, run).threads, side)
    decreases |run|
  {
    if run != [] {
      CountedStep(s, run[0], side);
      NothingLostOrCountedTwice(Next(s, run[0]), run[1..], side);
    }
  }

  lemma {:induction false} SinceGrows(s: State, run: seq<Step>, side: Side, before: nat)
    requires Feasible(s, run) && NoReset(s, run)
    ensures before <= Since(s, run, side, before)
    decreases |run|
  {
    if run != [] {
      SinceGrows(Next(s, run[0]), run[1..], side, before + AddedBy(s, run[0], side));
    }
  }

  // ---------------------------------------------------------------- the total

  /** What a call of GetTotalBandwidth that began at a true total of `low` knows. */
  predicate TotalOk(pc: Pc, low: nat, rd: nat, wr: nat) {
    match pc
    case LoadRead => low <= rd + wr
    case LoadWrite(r) => 0 <= r <= rd && low <= r + wr
    case Total(sum) => low <= sum <= rd + wr
    case _ => false
  }

  lemma CounterStep(s: State, step: Step, side: Side, before: nat)
    requires Enabled(s, step) && !Resets(s, step, side)
    requires Counter(s, side) == before && before + AddedBy(s, step, side) < LIMIT
    ensures Counter(Next(s, step), side) == before + AddedBy(s, step, side)
  {
  }

  lemma TotalStep(s: State, step: Step, i: nat, low: nat, rd: nat, wr: nat)
    requires Enabled(s, step) && i < |s.threads|
    requires s.readBytes == rd && s.writeBytes == wr
    requires rd + wr + AddedBy(s, step, Reads) + AddedBy(s, step, Writes) < LIMIT
    requires TotalOk(s.threads[i], low, rd, wr)
    ensures i < |Next(s, step).threads|
    ensures TotalOk(Next(s, step).threads[i], low, rd + AddedBy(s, step, Reads), wr + AddedBy(s, step, Writes))
  {
  }

  lemma {:induction false} TotalFromState(s: State, run: seq<Step>, i: nat, low: nat, rd: nat, wr: nat)
    requires Feasible(s, run) && NoReset(s, run) && i < |s.threads|
    requires s.readBytes == rd && s.writeBytes == wr
    requires Since(s, run, Reads, rd) + Since(s, run, Writes, wr) < LIMIT
    requires TotalOk(s.threads[i], low, rd, wr)
    ensures i < |Exec(s, run).threads|
    ensures TotalOk(Exec(s, run).threads[i], low, Since(s, run, Reads, rd), Since(s, run, Writes, wr))
    decreases |run|
  {
    if run != [] {
      var s1 := Next(s, run[0]);
      var rd1, wr1 := rd + AddedBy(s, run[0], Reads), wr + AddedBy(s, run[0], Writes);
      SinceGrows(s1, run[1..], Reads, rd1);
      SinceGrows(s1, run[1..], Writes, wr1);
      TotalStep(s, run[0], i, low, rd, wr);
      CounterStep(s, run[0], Reads, rd);
      CounterStep(s, run[0], Writes, wr);
      TotalFromState(s1, run[1..], i, low, rd1, wr1);
    }
  }

  /** With no reset while it runs and totals below 2^63, GetTotalBandwidth returns a value between
      the true total when it starts, after `run0`, and the true total when it returns, after `run`,
      although it loads the two counters at different times. */
  lemma TotalIsBetween(run0: seq<Step>, run: seq<Step>, i: nat)
    requires Feasible(Init(), run0) && Feasible(Exec(Init(), run0), run) && NoReset(Exec(Init(), run0), run)
    requires i < |Exec(Init(), run0).threads| && Exec(Init(), run0).threads[i].LoadRead?
    requires i < |Exec(Exec(Init(), run0), run).threads| && Exec(Exec(Init(), run0), run).threads[i].Total?
    requires var rd, wr := Since(Init(), run0, Reads, 0), Since(Init(), run0, Writes, 0);
             Since(Exec(Init(), run0), run, Reads, rd) + Since(Exec(Init(), run0), run, Writes, wr) <
             0x8000_0000_0000_0000
    ensures var rd, wr := Since(Init(), run0, Reads, 0), Since(Init(), run0, Writes, 0);
            var s := Exec(Init(), run0);
            rd + wr <= Exec(s, run).threads[i].sum <= Since(s, run, Reads, rd) + Since(s, run, Writes, wr)
  {
    var rd, wr := Since(Init(), run0, Reads, 0), Since(Init(), run0, Writes, 0);
    var s := Exec(Init(), run0);
    SinceGrows(s, run, Reads, rd);
    SinceGrows(s, run, Writes, wr);
    CounterIsExactIff(run0, Reads);
    CounterIsExactIff(run0, Writes);
    TotalFromState(s, run, i, rd + wr, rd, wr);
  }

  // ---------------------------------------------------------------- when the answer was a total

  /** The total the counters show, as GetTotalBandwidth would return it. */
  function Shown(s: State): int {
    Wrap(s.readBytes + s.writeBytes)
  }

  /** The totals in the states of a run. */
  function Totals(s: State, run: seq<Step>): set<int>
    requires Feasible(s, run)
    decreases |run|
  {
    {Shown(s)} + if run == [] then {} else Totals(Next(s, run[0]), run[1..])
  }

  predicate ShownAfter(s: State, run: seq<Step>, k: nat, v: int) {
    k <= |run| && Feasible(s, run[..k]) && Shown(Exec(s, run[..k])) == v
  }

  /** They are the totals after the prefixes of the run. */
  lemma {:induction false} TotalsArePrefixTotals(s: State, run: seq<Step>, v: int)
    requires Feasible(s, run)
    ensures v in Totals(s, run) <==> exists k: nat :: ShownAfter(s, run, k, v)
    decreases |run|
  {
    assert run[..0] == [];
    if run != [] {
      var s', rest := Next(s, run[0]), run[1..];
      TotalsArePrefixTotals(s', rest, v);
      if k: nat :| ShownAfter(s', rest, k, v) {
        assert run[..k + 1][1..] == rest[..k];
        assert ShownAfter(s, run, k + 1, v);
      }
      if k: nat :| 0 < k && ShownAfter(s, run, k, v) {
        assert run[..k][1..] == rest[..k - 1];
        assert ShownAfter(s', rest, k - 1, v);
      }
    }
    assert Shown(s) == v ==> ShownAfter(s, run, 0, v);
  }

  /** While call `i` is between its two loads, nothing is reset and bytes are counted only on the
      sides `allowed`. */
  predicate CountsOnly(s: State, run: seq<Step>, i: nat, allowed: set<Side>)
    requires Feasible(s, run)
    decreases |run|
  {
    run == [] || (Quiet(s, run[0], i, allowed) && CountsOnly(Next(s, run[0]), run[1..], i, allowed))
  }

  predicate Quiet(s: State, step: Step, i: nat, allowed: set<Side>) {
    i < |s.threads| && s.threads[i].LoadWrite? ==>
      SideQuiet(s, step, Reads, allowed) && SideQuiet(s, step, Writes, allowed)
  }

  predicate SideQuiet(s: State, step: Step, side: Side, allowed: set<Side>) {
    !Resets(s, step, side) && (side !in allowed ==> AddedBy(s, step, side) == 0)
  }

  /** Both counters hold 64-bit values. */
  predicate InRange(s: State) {
    -LIMIT <= s.readBytes < LIMIT && -LIMIT <= s.writeBytes < LIMIT
  }

  lemma InRangeStep(s: State, step: Step)
    requires InRange(s) && Enabled(s, step)
    ensures InRange(Next(s, step))
  {
  }

  lemma {:induction false} InRangeRun(s: State, run: seq<Step>)
    requires InRange(s) && Feasible(s, run)
    ensures InRange(Exec(s, run))
    decreases |run|
  {
    if run != [] {
      InRangeStep(s, run[0]);
      InRangeRun(Next(s, run[0]), run[1..]);
    }
  }

  /** A side on which nothing is counted keeps its counter between the loads. */
  lemma QuietKeeps(s: State, step: Step, i: nat, allowed: set<Side>, side: Side)
    requires InRange(s) && Enabled(s, step) && Quiet(s, step, i, allowed) && side !in allowed
    requires i < |s.threads| && s.threads[i].LoadWrite?
    ensures Counter(Next(s, step), side) == Counter(s, side)
  {
  }

  /** What call `i` has seen: before the first load nothing; between the loads, a value that with the
      counter of a quiet side makes a total; at the end a total, in `seen`. */
  predicate AnswerOk(pc: Pc, s: State, allowed: set<Side>, seen: set<int>) {
    match pc
    case LoadRead => true
    case LoadWrite(r) =>
      (Writes !in allowed ==> Wrap(r + s.writeBytes) in seen) && (Reads !in allowed ==> r == s.readBytes)
    case Total(sum) => sum in seen
    case _ => false
  }

  lemma AnswerStep(s: State, step: Step, i: nat, allowed: set<Side>, seen: set<int>)
    requires InRange(s) && Enabled(s, step) && i < |s.threads| && Quiet(s, step, i, allowed)
    requires Reads !in allowed || Writes !in allowed
    requires AnswerOk(s.threads[i], s, allowed, seen) && Shown(s) in seen
    ensures i < |Next(s, step).threads|
    ensures AnswerOk(Next(s, step).threads[i], Next(s, step), allowed, seen)
  {
    if s.threads[i].LoadWrite? {
      if Reads !in allowed { QuietKeeps(s, step, i, allowed, Reads); }
      if Writes !in allowed { QuietKeeps(s, step, i, allowed, Writes); }
    }
  }

  lemma {:induction false} AnswerRun(s: State, run: seq<Step>, i: nat, allowed: set<Side>, seen: set<int>)
    requires InRange(s) && Feasible(s, run) && i < |s.threads| && CountsOnly(s, run, i, allowed)
    requires Reads !in allowed || Writes !in allowed
    requires AnswerOk(s.threads[i], s, allowed, seen) && Totals(s, run) <= seen
    ensures i < |Exec(s, run).threads| && AnswerOk(Exec(s, run).threads[i], Exec(s, run), allowed, seen)
    decreases |run|
  {
    if run != [] {
      AnswerStep(s, run[0], i, allowed, seen);
      InRangeStep(s, run[0]);
      AnswerRun(Next(s, run[0]), run[1..], i, allowed, seen);
    }
  }

  /** After `run0`, call `i` of GetTotalBandwidth is about to start; in `run` it returns. */
  predicate Answers(run0: seq<Step>, run: seq<Step>, i: nat) {
    && Feasible(Init(), run0)
    && var s := Exec(Init(), run0);
       && Feasible(s, run)
       && i < |s.threads| && s.threads[i].LoadRead?
       && i < |Exec(s, run).threads| && Exec(s, run).threads[i].Total?
  }

  /** What it returns was the total in some state of `run`. */
  predicate AnswersATotal(run0: seq<Step>, run: seq<Step>, i: nat)
    requires Answers(run0, run, i)
  {
    Exec(Exec(Init(), run0), run).threads[i].sum in Totals(Exec(Init(), run0), run)
  }

  lemma OneQuietSideGivesATotal(run0: seq<Step>, run: seq<Step>, i: nat, allowed: set<Side>)
    requires Answers(run0, run, i) && CountsOnly(Exec(Init(), run0), run, i, allowed)
    requires Reads !in allowed || Writes !in allowed
    ensures AnswersATotal(run0, run, i)
  {
    var s := Exec(Init(), run0);
    InRangeRun(Init(), run0);
    AnswerRun(s, run, i, allowed, Totals(s, run));
  }

  lemma TwoSides(allowed: set<Side>)
    ensures allowed == {Reads, Writes} <==> Reads in allowed && Writes in allowed
  {
    if Reads in allowed && Writes in allowed {
      forall side ensures side in allowed <==> side in {Reads, Writes} {
        match side { case Reads => case Writes => }
      }
    }
  }

  /** What GetTotalBandwidth returns is always the total at some moment of its run, if and only if
      bytes are counted on at most one side between its two loads. */
  lemma AnswerIsATotalIff(allowed: set<Side>)
    ensures allowed != {Reads, Writes} <==>
              forall run0, run, i: nat :: Answers(run0, run, i) && CountsOnly(Exec(Init(), run0), run, i, allowed) ==>
                AnswersATotal(run0, run, i)
  {
    TwoSides(allowed);
    if allowed == {Reads, Writes} {
      var run := AnswerWasNeverTheTotal();
      assert !AnswersATotal([Begin(GetTotal)], run, 0);
    } else {
      forall run0, run, i: nat | Answers(run0, run, i) && CountsOnly(Exec(Init(), run0), run, i, allowed)
        ensures AnswersATotal(run0, run, i)
      {
        OneQuietSideGivesATotal(run0, run, i, allowed);
      }
    }
  }

  /** Call 0 answers 7 at the end of a run without resets, and 7 was the total in no state of it. */
  predicate Torn(s: State, run: seq<Step>) {
    && Feasible(s, run) && NoReset(s, run) && 7 !in Totals(s, run)
    && |Exec(s, run).threads| > 0 && Exec(s, run).threads[0] == Total(7)
  }

  lemma Earlier(s: State, step: Step, s': State, rest: seq<Step>)
    requires Enabled(s, step) && Next(s, step) == s' && Shown(s) != 7 && Torn(s', rest)
    requires !Resets(s, step, Reads) && !Resets(s, step, Writes)
    ensures Torn(s, [step] + rest)
  {
    assert ([step] + rest)[1..] == rest;
  }

  lemma {:induction false} NoResetCountsOnly(s: State, run: seq<Step>, i: nat)
    requires Feasible(s, run) && NoReset(s, run)
    ensures CountsOnly(s, run, i, {Reads, Writes})
    decreases |run|
  {
    if run != [] {
      NoResetCountsOnly(Next(s, run[0]), run[1..], i);
    }
  }

  /** A run without resets in which both sides are counted on: five bytes are read after the first
      load and seven written before the second, so the totals are 0, 5 and 12 and the answer is 7. */
  lemma AnswerWasNeverTheTotal() returns (run: seq<Step>)
    ensures Answers([Begin(GetTotal)], run, 0)
    ensures var s := Exec(Init(), [Begin(GetTotal)]);
            && NoReset(s, run) && CountsOnly(s, run, 0, {Reads, Writes})
            && Exec(s, run).threads[0] == Total(7) && 7 !in Totals(s, run)
  {
    run := TornEnd();
    var s1, s2 := State(0, 0, [LoadRead]), State(0, 0, [LoadRead, Moving(Reads)]);
    var s3 := State(0, 0, [LoadRead, Moving(Reads), Moving(Writes)]);
    var s4 := State(0, 0, [LoadRead, Adding(Reads, 5), Moving(Writes)]);
    Earlier(s4, Advance(2, 7), BothMoved(), run);
    run := [Advance(2, 7)] + run;
    Earlier(s3, Advance(1, 5), s4, run);
    run := [Advance(1, 5)] + run;
    Earlier(s2, Begin(Transfer(Writes)), s3, run);
    run := [Begin(Transfer(Writes))] + run;
    Earlier(s1, Begin(Transfer(Reads)), s2, run);
    run := [Begin(Transfer(Reads))] + run;
    TornAnswers(run);
  }

  /** Five bytes were read and seven written, and neither is counted yet. */
  function BothMoved(): State {
    State(0, 0, [LoadRead, Adding(Reads, 5), Adding(Writes, 7)])
  }

  lemma TornEnd() returns (run: seq<Step>)
    ensures Torn(BothMoved(), run)
  {
    var s6 := State(0, 0, [LoadWrite(0), Adding(Reads, 5), Adding(Writes, 7)]);
    var s7 := State(5, 0, [LoadWrite(0), Moved(Reads, 5), Adding(Writes, 7)]);
    run := TornLast(s7);
    Earlier(s6, Advance(1, 0), s7, run);
    run := [Advance(1, 0)] + run;
    Earlier(BothMoved(), Advance(0, 0), s6, run);
    run := [Advance(0, 0)] + run;
  }

  lemma TornLast(s: State) returns (run: seq<Step>)
    requires s == State(5, 0, [LoadWrite(0), Moved(Reads, 5), Adding(Writes, 7)])
    ensures Torn(s, run)
  {
    var s8 := State(5, 7, [LoadWrite(0), Moved(Reads, 5), Moved(Writes, 7)]);
    Earlier(s8, Advance(0, 0), State(5, 7, [Total(7), Moved(Reads, 5), Moved(Writes, 7)]), []);
    run := [Advance(0, 0)] + [];
    Earlier(s, Advance(2, 0), s8, run);
    run := [Advance(2, 0)] + run;
  }

  lemma AfterBegin()
    ensures Feasible(Init(), [Begin(GetTotal)])
    ensures Exec(Init(), [Begin(GetTotal)]) == State(0, 0, [LoadRead])
  {
    var s := Next(Init(), Begin(GetTotal));
    assert s == State(0, 0, [LoadRead]);
    assert [Begin(GetTotal)][1..] == [] && Feasible(s, []) && Exec(s, []) == s;
  }

  lemma TornAnswers(run: seq<Step>)
    requires Torn(State(0, 0, [LoadRead]), run)
    ensures Exec(Init(), [Begin(GetTotal)]) == State(0, 0, [LoadRead])
    ensures Answers([Begin(GetTotal)], run, 0)
    ensures CountsOnly(State(0, 0, [LoadRead]), run, 0, {Reads, Writes})
  {
    AfterBegin();
    NoResetCountsOnly(State(0, 0, [LoadRead]), run, 0);
  }
}
