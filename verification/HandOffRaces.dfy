/** The accesses of `cachedTransports` that can collide: `dialTLS` reads the map without the mutex
    that guards it when a transport dials. */
module HandOffRaces {
  import opened Options
  import opened HandOff

  /** The next step of the thread looks into the map. */
  predicate ReadsMap(pc: Pc) {
    pc.Checking? || pc.Fetching? || pc.Closing? || (pc.InDial? && pc.at.Looking?)
  }

  /** The next step of the thread stores into the map. */
  predicate WritesMap(t: Thread) {
    || (t.pc.Choosing? && t.call.Request? && t.call.scheme.Plain?)
    || (t.pc.InDial? && t.pc.at.Building?)
  }

  /** Two threads are about to access the map, one of them to write: an overlap that the Go runtime
      may end with a fatal error. */
  predicate Race(s: State, i: nat, j: nat) {
    && i < |s.threads| && j < |s.threads| && i != j
    && WritesMap(s.threads[i]) && (ReadsMap(s.threads[j].pc) || WritesMap(s.threads[j]))
  }

  predicate PlainStores(t: Thread) {
    t.call.Request? && t.call.scheme.Plain? && t.pc.Choosing?
  }

  predicate RedialLooks(t: Thread) {
    t.call.Redial? && t.pc.InDial? && t.pc.at.Looking?
  }

  /** In every reachable state the only accesses that collide are a plain request about to cache its
      transport and a dial by a transport about to look whether there is one. */
  lemma RaceIff(handler: bool, run: seq<Step>, i: nat, j: nat)
    requires Lawful(Init(handler), run)
    requires var n := |Exec(Init(handler), run).threads|; i < n && j < n
    ensures var s := Exec(Init(handler), run);
            Race(s, i, j) <==> PlainStores(s.threads[i]) && RedialLooks(s.threads[j])
  {
    InvHolds(Init(handler), run);
    var s := Exec(Init(handler), run);
    assert LocksOk(s.m, i, s.threads[i]) && ThreadOk(s.m, s.threads[i]);
    assert LocksOk(s.m, j, s.threads[j]) && ThreadOk(s.m, s.threads[j]);
  }

  // ---------------------------------------------------------------- such a state is reachable

  /** A lawful run of `s0` has reached `s`. */
  ghost predicate Arrives(s0: State, s: State) {
    exists run :: Lawful(s0, run) && Exec(s0, run) == s
  }

  lemma Go(s0: State, s: State, step: Step)
    requires Arrives(s0, s) && Enabled(s, step) && Assumed(s, step)
    ensures Arrives(s0, Next(s, step))
  {
    var run :| Lawful(s0, run) && Exec(s0, run) == s;
    LawfulExtend(s0, run, step);
    assert Lawful(s0, run + [step]) && Exec(s0, run + [step]) == Next(s, step);
  }

  lemma {:induction false} LawfulExtend(s0: State, run: seq<Step>, step: Step)
    requires Lawful(s0, run) && Enabled(Exec(s0, run), step) && Assumed(Exec(s0, run), step)
    ensures Lawful(s0, run + [step]) && Exec(s0, run + [step]) == Next(Exec(s0, run), step)
    decreases |run|
  {
    if run == [] {
      assert [step][1..] == [];
    } else {
      assert (run + [step])[1..] == run[1..] + [step];
      LawfulExtend(Next(s0, run[0]), run[1..], step);
    }
  }

  /** From every reachable state with both mutexes free: if some address has a transport and none
      of its connections is stashed, the collision can come about. */
  lemma RaceCanCome(s0: State, s: State, a: string, b: string) returns (t: State)
    requires Arrives(s0, s) && s.m.transportsLck.None? && s.m.mutex.None?
    requires a in s.m.transports && a !in s.m.stash && b !in s.m.transports
    ensures Arrives(s0, t) && Race(t, |s.threads| + 1, |s.threads|)
  {
    var n := |s.threads|;
    var u := RedialComesToLook(s0, s, a);
    t := PlainComesToStore(s0, u, b);
  }

  /** A dial by a transport gets as far as looking into the map. */
  lemma RedialComesToLook(s0: State, s: State, a: string) returns (t: State)
    requires Arrives(s0, s) && s.m.mutex.None? && a in s.m.transports && a !in s.m.stash
    ensures Arrives(s0, t) && |t.threads| == |s.threads| + 1
    ensures t.threads[|s.threads|].call == Redial(a) && RedialLooks(t.threads[|s.threads|])
    ensures t.m.transports == s.m.transports && t.m.transportsLck == s.m.transportsLck
  {
    var n := |s.threads|;
    Go(s0, s, Begin(Redial(a)));
    t := Next(s, Begin(Redial(a)));
    t := Moves(s0, t, n);
    t := Moves(s0, t, n);
    t := Moves(s0, t, n);
    t := Moves(s0, t, n);
    t := Moves(s0, t, n);
  }

  lemma Moves(s0: State, s: State, i: nat) returns (t: State)
    requires Arrives(s0, s) && CanAdvance(s, i)
    ensures t == Next(s, Advance(i, true, Other)) && Arrives(s0, t)
  {
    Go(s0, s, Advance(i, true, Other));
    t := Next(s, Advance(i, true, Other));
  }

  /** A plain request gets as far as storing into the map. */
  lemma PlainComesToStore(s0: State, s: State, b: string) returns (t: State)
    requires Arrives(s0, s) && s.m.transportsLck.None? && b !in s.m.transports
    ensures Arrives(s0, t)
    ensures t == State(s.m.(transportsLck := Some(|s.threads|)), s.threads + [Thread(Request(Plain, b), Choosing)])
  {
    var n := |s.threads|;
    Go(s0, s, Begin(Request(Plain, b)));
    t := Next(s, Begin(Request(Plain, b)));
    t := Moves(s0, t, n);
    t := Moves(s0, t, n);
  }

  /** The first request for a plain address caches its transport and lets go of the mutex. */
  lemma PlainCaches(s0: State, s: State, a: string) returns (t: State)
    requires Arrives(s0, s) && s.m.transportsLck.None? && s.m.mutex.None? && a !in s.m.transports
    ensures Arrives(s0, t) && t.m.transportsLck.None? && t.m.mutex.None?
    ensures t.m.transports == s.m.transports[a := Transport(s.m.built, Http1)] && t.m.stash == s.m.stash
  {
    t := PlainComesToStore(s0, s, a);
    t := PlainStored(s0, t, |s.threads|, a);
  }

  lemma PlainStored(s0: State, s: State, i: nat, a: string) returns (t: State)
    requires Arrives(s0, s) && i < |s.threads| && s.threads[i] == Thread(Request(Plain, a), Choosing)
    ensures Arrives(s0, t) && t.m == Publish(s.m, a, Http1).(transportsLck := None)
  {
    t := Moves(s0, s, i);
    t := Moves(s0, t, i);
  }

  /** So it can come about from the start, whatever two addresses are used. */
  lemma RaceIsReachable(handler: bool, a: string, b: string) returns (t: State, i: nat, j: nat)
    requires a != b
    ensures Arrives(Init(handler), t) && Race(t, i, j)
  {
    var s := Init(handler);
    assert Lawful(s, []) && Exec(s, []) == s;
    var u := PlainCaches(s, s, a);
    t := RaceCanCome(s, u, a, b);
    i, j := |u.threads| + 1, |u.threads|;
  }
}
