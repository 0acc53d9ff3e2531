/** `Tracker` and the connections it hands out.  Every atomic operation is paired with the step of
    the machine in `Bandwidth` that it performs. */
module Trackers {
  import opened Bandwidth

  lemma {:induction false} SinceExtend(s: State, run: seq<Step>, step: Step, side: Side, before: nat)
    requires Feasible(s, run) && Enabled(Exec(s, run), step) && Feasible(s, run + [step])
    ensures Since(s, run + [step], side, before) ==
            if Resets(Exec(s, run), step, side) then 0
                else Since(s, run, side, before) + AddedBy(Exec(s, run), step, side)
    decreases |run|
  {
    if run == [] {
      assert [step][1..] == [];
    } else {
      assert (run + [step])[1..] == run[1..] + [step];
      SinceExtend(Next(s, run[0]), run[1..], step, side,
                  if Resets(s, run[0], side) then 0 else before + AddedBy(s, run[0], side));
    }
  }

  class Tracker {
    var writeBytes: int
    var readBytes: int
    ghost var trace: seq<Step>     // the steps taken so far
    ghost var sys: State           // the state they lead to

    /** The history of the tracker is a run, and its counters are those of the last state. */
    ghost predicate Valid()
      reads this
    {
      && Feasible(Init(), trace) && Exec(Init(), trace) == sys
      && sys.readBytes == readBytes && sys.writeBytes == writeBytes
    }

    /** The true number of bytes counted on one side since the last reset. */
    ghost function Count(side: Side): nat
      reads this
      requires Valid()
    {
      Since(Init(), trace, side, 0)
    }

    constructor ()
      ensures Valid() && Count(Reads) == 0 && Count(Writes) == 0
    {
      writeBytes, readBytes := 0, 0;
      trace, sys := [], Init();
    }

    ghost method Record(step: Step)
      requires Feasible(Init(), trace) && Exec(Init(), trace) == sys && Enabled(sys, step)
      modifies this`trace, this`sys
      ensures Feasible(Init(), trace) && Exec(Init(), trace) == sys
      ensures sys == Next(old(sys), step)
      ensures forall side :: Since(Init(), trace, side, 0) ==
                if Resets(old(sys), step, side) then 0
                else old(Since(Init(), trace, side, 0)) + AddedBy(old(sys), step, side)
    {
      Extend(Init(), trace, step);
      forall side ensures Since(Init(), trace + [step], side, 0) ==
                          if Resets(sys, step, side) then 0
                              else Since(Init(), trace, side, 0) + AddedBy(sys, step, side)
      {
        SinceExtend(Init(), trace, step, side, 0);
      }
      trace, sys := trace + [step], Next(sys, step);
    }

    ghost method Start(task: Task) returns (i: nat)
      requires Valid()
      modifies this`trace, this`sys
      ensures Valid() && i < |sys.threads| && sys.threads[i] == Entry(task)
      ensures Count(Reads) == old(Count(Reads)) && Count(Writes) == old(Count(Writes))
    {
      i := |sys.threads|;
      Record(Begin(task));
    }

    method AddReadBytes(n: nat, ghost i: nat)
      requires Valid() && i < |sys.threads| && sys.threads[i] == Adding(Reads, n)
      modifies this
      ensures Valid() && Count(Reads) == old(Count(Reads)) + n && Count(Writes) == old(Count(Writes))
    {
      readBytes := Wrap(readBytes + n);
      Record(Advance(i, 0));
    }

    method AddWriteBytes(n: nat, ghost i: nat)
      requires Valid() && i < |sys.threads| && sys.threads[i] == Adding(Writes, n)
      modifies this
      ensures Valid() && Count(Writes) == old(Count(Writes)) + n && Count(Reads) == old(Count(Reads))
    {
      writeBytes := Wrap(writeBytes + n);
      Record(Advance(i, 0));
    }

    method GetReadBytes() returns (n: int)
      requires Valid()
      ensures n == Wrap(Count(Reads)) && Shows64(n, Count(Reads))
    {
      WrapShows64(Count(Reads));
      CountersCount(Init(), trace, Reads, 0);
      n := readBytes;
    }

    method GetWriteBytes() returns (n: int)
      requires Valid()
      ensures n == Wrap(Count(Writes)) && Shows64(n, Count(Writes))
    {
      WrapShows64(Count(Writes));
      CountersCount(Init(), trace, Writes, 0);
      n := writeBytes;
    }

    /** Undisturbed, the two loads give the total; with other calls in between see
        `Bandwidth.TotalIsBetween`. */
    method GetTotalBandwidth() returns (n: int)
      requires Valid()
      modifies this`trace, this`sys
      ensures Valid() && Count(Reads) == old(Count(Reads)) && Count(Writes) == old(Count(Writes))
      ensures n == Wrap(Count(Reads) + Count(Writes)) && Shows64(n, Count(Reads) + Count(Writes))
    {
      SumShows();
      ghost var i := Start(GetTotal);
      var loaded := readBytes;
      Record(Advance(i, 0));
      n := Wrap(loaded + writeBytes);
      Record(Advance(i, 0));
    }

    lemma SumShows()
      requires Valid()
      ensures Wrap(readBytes + writeBytes) == Wrap(Count(Reads) + Count(Writes))
      ensures Shows64(Wrap(readBytes + writeBytes), Count(Reads) + Count(Writes))
    {
      CountersCount(Init(), trace, Reads, 0);
      CountersCount(Init(), trace, Writes, 0);
      WrapSum(Count(Reads), Count(Writes));
      WrapShows64(Count(Reads) + Count(Writes));
    }

    method Reset()
      requires Valid()
      modifies this
      ensures Valid() && Count(Reads) == 0 && Count(Writes) == 0
    {
      ghost var i := Start(Task.Reset);
      writeBytes := 0;
      Record(Advance(i, 0));
      readBytes := 0;
      Record(Advance(i, 0));
    }

    /** A new connection around the given one. */
    method TrackConnection(inner: nat) returns (conn: BTConn)
      ensures fresh(conn) && conn.tracker == this && conn.inner == inner
    {
      conn := new BTConn(inner, this);
    }
  }

  lemma WrapSum(x: int, y: int)
    ensures Wrap(Wrap(x) + Wrap(y)) == Wrap(x + y)
  {
    WrapAdd(x, Wrap(y));
    WrapAdd(y, x);
    assert Wrap(x + Wrap(y)) == Wrap(Wrap(y) + x);
  }

  /** A tracked connection; `n` and `failed` are what the wrapped connection answers. */
  class BTConn {
    const inner: nat               // the identity of the wrapped connection
    const tracker: Tracker

    constructor (inner: nat, tracker: Tracker)
      ensures this.inner == inner && this.tracker == tracker
    {
      this.inner, this.tracker := inner, tracker;
    }

    /** The bytes count whether or not the read failed. */
    method Read(n: nat, failed: bool) returns (count: nat, err: bool)
      requires tracker.Valid()
      modifies tracker
      ensures tracker.Valid() && count == n && err == failed
      ensures tracker.Count(Reads) == old(tracker.Count(Reads)) + n
      ensures tracker.Count(Writes) == old(tracker.Count(Writes))
    {
      ghost var i := tracker.Start(Transfer(Reads));
      count, err := n, failed;
      tracker.Record(Advance(i, n));
      tracker.AddReadBytes(count, i);
    }

    method Write(n: nat, failed: bool) returns (count: nat, err: bool)
      requires tracker.Valid()
      modifies tracker
      ensures tracker.Valid() && count == n && err == failed
      ensures tracker.Count(Writes) == old(tracker.Count(Writes)) + n
      ensures tracker.Count(Reads) == old(tracker.Count(Reads))
    {
      ghost var i := tracker.Start(Transfer(Writes));
      count, err := n, failed;
      tracker.Record(Advance(i, n));
      tracker.AddWriteBytes(count, i);
    }
  }
}
