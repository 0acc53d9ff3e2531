/** What the hand-off machine's safety depends on, and the connection it never uses. */
module HandOffLimits {
  import opened Options
  import opened HandOff

  // ---------------------------------------------------------------- the redial assumption

  predicate Panics(s: State) {
    exists i :: 0 <= i < |s.threads| && s.threads[i].pc.Panicked?
  }

  predicate NoRedials(run: seq<Step>) {
    forall k :: 0 <= k < |run| ==> run[k].Begin? ==> !run[k].call.Redial?
  }

  /** A run of `s0` that has reached `s` without further redials. */
  ghost predicate Leads(s0: State, run: seq<Step>, s: State) {
    NoRedials(run) && Feasible(s0, run) && Exec(s0, run) == s
  }

  lemma Go(s0: State, run: seq<Step>, s: State, i: nat) returns (run': seq<Step>, s': State)
    requires Leads(s0, run, s) && CanAdvance(s, i)
    ensures s' == Next(s, Advance(i, true, H2)) && Leads(s0, run', s')
  {
    Extend(s0, run, Advance(i, true, H2));
    run' := run + [Advance(i, true, H2)];
    s' := Next(s, Advance(i, true, H2));
  }

  predicate ThreadIs(s: State, i: nat, call: Call, pc: Pc) {
    i < |s.threads| && s.threads[i] == Thread(call, pc)
  }

  /** A request for an uncached https address gets as far as waiting for the embedded mutex. */
  lemma RequestArrives(s0: State, run: seq<Step>, s: State, i: nat, a: string) returns (run': seq<Step>, s': State)
    requires Leads(s0, run, s) && ThreadIs(s, i, Request(Secure, a), Ready)
    requires s.m.transportsLck.None? && a !in s.m.transports
    ensures Leads(s0, run', s')
    ensures s' == State(s.m.(transportsLck := Some(i)), s.threads[i := Thread(Request(Secure, a), InDial(Waiting))])
  {
    run', s' := Go(s0, run, s, i);
    run', s' := Go(s0, run', s', i);
    run', s' := Go(s0, run', s', i);
  }

  /** A redial of an uncached address builds a transport for it and stashes its connection. */
  lemma RedialStashes(s0: State, run: seq<Step>, s: State, i: nat, a: string) returns (run': seq<Step>, s': State)
    requires Leads(s0, run, s) && ThreadIs(s, i, Redial(a), InDial(Waiting))
    requires s.m.mutex.None? && a !in s.m.transports && a !in s.m.stash
    ensures Leads(s0, run', s')
    ensures s'.m.mutex.None? && a in s'.m.stash && |s'.threads| == |s.threads|
    ensures forall j :: 0 <= j < |s.threads| && j != i ==> s'.threads[j] == s.threads[j]
  {
    run', s' := Go(s0, run, s, i);
    run', s' := Go(s0, run', s', i);
    run', s' := Go(s0, run', s', i);
    run', s' := Go(s0, run', s', i);
    run', s' := RedialStashes2(s0, run', s', i, a);
  }

  lemma RedialStashes2(s0: State, run: seq<Step>, s: State, i: nat, a: string) returns (run': seq<Step>, s': State)
    requires Leads(s0, run, s) && i < |s.threads| && s.threads[i].call == Redial(a)
    requires s.threads[i].pc.InDial? && s.threads[i].pc.at.Pinning? && a !in s.m.transports && a !in s.m.stash
    ensures Leads(s0, run', s')
    ensures s'.m.mutex.None? && a in s'.m.stash && |s'.threads| == |s.threads|
    ensures forall j :: 0 <= j < |s.threads| && j != i ==> s'.threads[j] == s.threads[j]
  {
    run', s' := Go(s0, run, s, i);
    run', s' := Go(s0, run', s', i);
    run', s' := Go(s0, run', s', i);
    run', s' := Go(s0, run', s', i);
    run', s' := Go(s0, run', s', i);
  }

  /** The waiting request then finds the stash and panics. */
  lemma RequestPanics(s0: State, run: seq<Step>, s: State, i: nat, a: string) returns (run': seq<Step>, s': State)
    requires Leads(s0, run, s) && ThreadIs(s, i, Request(Secure, a), InDial(Waiting))
    requires s.m.mutex.None? && a in s.m.stash
    ensures Leads(s0, run', s') && Panics(s')
  {
    run', s' := Go(s0, run, s, i);
    run', s' := Go(s0, run', s', i);
    run', s' := Go(s0, run', s', i);
    assert s'.threads[i].pc.Panicked?;
  }

  lemma {:induction false} NoRedialsLawful(s: State, run: seq<Step>)
    requires Feasible(s, run) && NoRedials(run)
    ensures Lawful(s, run)
    decreases |run|
  {
    if run != [] {
      assert NoRedials(run[1..]);
      NoRedialsLawful(Next(s, run[0]), run[1..]);
    }
  }

  /** The assumption about transports is exact: with both mutexes free, one dial by a transport can
      lead to the panic, with no further such dial, if and only if its address has no transport. */
  lemma RedialPanicsIffUncached(s: State, a: string)
    requires Inv(s) && s.m.transportsLck.None? && s.m.mutex.None?
    ensures a !in s.m.transports <==>
              exists run, s' :: Leads(Next(s, Begin(Redial(a))), run, s') && Panics(s')
  {
    var s0 := Next(s, Begin(Redial(a)));
    if a in s.m.transports {
      InvStep(s, Begin(Redial(a)));
      forall run, s' | Leads(s0, run, s') ensures !Panics(s') {
        NoRedialsLawful(s0, run);
        InvHolds(s0, run);
        assert forall i :: 0 <= i < |s'.threads| ==> ThreadOk(s'.m, s'.threads[i]);
      }
    } else {
      var request := Begin(Request(Secure, a));
      var n := |s.threads|;
      Extend(s0, [], request);
      var run, s1 := [] + [request], Next(s0, request);
      run, s1 := RequestArrives(s0, run, s1, n + 1, a);
      run, s1 := RedialStashes(s0, run, s1, n, a);
      run, s1 := RequestPanics(s0, run, s1, n + 1, a);
    }
  }

  // ---------------------------------------------------------------- HTTP/3

  /** The HTTP/3 transport is built without a dial hook, so it never dials through `dialTLS`. */
  predicate NoHttp3Dial(s: State, step: Step) {
    step.Begin? && step.call.Redial? && step.call.addr in s.m.transports ==>
      !s.m.transports[step.call.addr].kind.Http3?
  }

  predicate LawfulHttp3(s: State, run: seq<Step>): (b: bool)
    ensures b ==> Lawful(s, run)
    decreases |run|
  {
    run == [] || (Enabled(s, run[0]) && Assumed(s, run[0]) && NoHttp3Dial(s, run[0])
        && LawfulHttp3(Next(s, run[0]), run[1..]))
  }

  ghost predicate DialersAreNotHttp3(s: State) {
    forall i :: 0 <= i < |s.threads| && s.threads[i].call.Redial? ==>
      s.threads[i].call.addr in s.m.transports && !s.m.transports[s.threads[i].call.addr].kind.Http3?
  }

  lemma Http3Step(s: State, step: Step, a: string)
    requires Inv(s) && DialersAreNotHttp3(s) && Enabled(s, step) && Assumed(s, step) && NoHttp3Dial(s, step)
    ensures DialersAreNotHttp3(Next(s, step))
    ensures a in s.m.stash && s.m.stash[a].proto.H3? ==>
              a in Next(s, step).m.stash && Next(s, step).m.stash[a] == s.m.stash[a]
  {
    InvStep(s, step);
    if step.Advance? {
      assert ThreadOk(s.m, s.threads[step.i]) && LocksOk(s.m, step.i, s.threads[step.i]);
      if a in s.m.stash {
        StashShrinksOnlyByTaking(s.m, step.i, s.threads[step.i], step.ok, step.proto, a);
      }
    }
  }

  lemma StashShrinksOnlyByTaking(m: Shared, i: nat, t: Thread, ok: bool, proto: Protocol, a: string)
    requires Runnable(m, t.pc) && ThreadOk(m, t) && a in m.stash
    ensures var m' := Act(m, i, t, ok, proto).0;
            (a in m'.stash && m'.stash[a] == m.stash[a]) || (t.pc == InDial(Taking) && t.call.Addr() == a)
  {
  }

  lemma {:induction false} Http3StashStays(s: State, run: seq<Step>, a: string)
    requires Inv(s) && DialersAreNotHttp3(s) && LawfulHttp3(s, run)
    ensures Inv(Exec(s, run)) && DialersAreNotHttp3(Exec(s, run))
    ensures a in s.m.stash && s.m.stash[a].proto.H3? ==>
              a in Exec(s, run).m.stash && Exec(s, run).m.stash[a] == s.m.stash[a]
    decreases |run|
  {
    if run != [] {
      InvStep(s, run[0]);
      Http3Step(s, run[0], a);
      Http3StashStays(Next(s, run[0]), run[1..], a);
    }
  }

  /** A connection that negotiated h3 is stashed for a transport that never asks for it: whatever
      happens later, it stays in the stash. */
  lemma Http3StashIsNeverTaken(handler: bool, before: seq<Step>, after: seq<Step>, a: string)
    requires LawfulHttp3(Init(handler), before) && LawfulHttp3(Exec(Init(handler), before), after)
    requires a in Exec(Init(handler), before).m.stash && Exec(Init(handler), before).m.stash[a].proto.H3?
    ensures var s := Exec(Init(handler), before);
            a in Exec(s, after).m.stash && Exec(s, after).m.stash[a] == s.m.stash[a]
  {
    Http3StashStays(Init(handler), before, a);
    Http3StashStays(Exec(Init(handler), before), after, a);
  }
}
