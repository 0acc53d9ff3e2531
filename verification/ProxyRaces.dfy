/** `SetProxy` takes no lock, and `DoWithProxy` one that `SetProxy` ignores: both kinds of call
    interleaved statement by statement, with arbitrary answers of the dialer constructor. */
module ProxyRaces {
  import opened Options

  /** The fields the calls share.  A transport is named by the URL it was built for. */
  datatype Client = Client(hasFactory: bool, proxyUrl: string, transport: string)

  datatype Call = SetProxy(url: string) | DoWithProxy(url: string)

  /** Program points of `SetProxy`.  `applyProxy` reads the URL for its test, reads it again for the
      dialer, and installs the transport in a later statement. */
  datatype SetPc =
    | Saving(target: string)                     // currentProxy := proxyUrl
    | Assigning(target: string, prev: string)    // proxyUrl := target
    | Testing(prev: string)                      // proxyUrl != "", without a factory
    | Building(prev: string)
    | Installing(built: string, prev: string)
    | RollingBack(prev: string)                  // proxyUrl := currentProxy
    | Retesting
    | Rebuilding
    | Reinstalling(built: string)

  /** What follows a `SetProxy`: it was called alone, or as the first or the last part of `DoWithProxy`. */
  datatype After = Returns | Sends(saved: string) | Unlocks

  datatype Pc =
    | Waiting                                    // before taking proxyLck
    | Reading                                    // currentProxy := GetProxy()
    | Setting(at: SetPc, after: After)
    | Sending(saved: string)
    | Unlocking(failed: bool)
    | Done(failed: bool)

  datatype State = State(client: Client, lck: Option<nat>, calls: seq<Call>, pcs: seq<Pc>)

  /** `ok` is the answer of the dialer constructor where it is asked. */
  datatype Step = Advance(i: nat, ok: bool)

  function Entry(call: Call): Pc {
    if call.SetProxy? then Setting(Saving(call.url), Returns) else Waiting
  }

  function Start(hasFactory: bool, orig: string, calls: seq<Call>): State {
    State(Client(hasFactory, orig, orig), None, calls, seq(|calls|, i requires 0 <= i < |calls| => Entry(calls[i])))
  }

  /** Without a factory no dialer is made for the empty URL. */
  predicate Direct(c: Client) {
    !c.hasFactory && c.proxyUrl == ""
  }

  datatype SetResult = Continue(at: SetPc) | Return(failed: bool)

  /** One step of `SetProxy`. */
  function ActSet(c: Client, at: SetPc, ok: bool): (Client, SetResult) {
    match at
    case Saving(target) => (c, Continue(Assigning(target, c.proxyUrl)))
    case Assigning(target, prev) => (c.(proxyUrl := target), Continue(Testing(prev)))
    case Testing(prev) => (c, Continue(if Direct(c) then Installing("", prev) else Building(prev)))
    case Building(prev) =>
      (c, Continue(if ok && !Direct(c) then Installing(c.proxyUrl, prev) else RollingBack(prev)))
    case Installing(built, _) => (c.(transport := built), Return(false))
    case RollingBack(prev) => (c.(proxyUrl := prev), Continue(Retesting))
    case Retesting => (c, Continue(if Direct(c) then Reinstalling("") else Rebuilding))
    case Rebuilding => (c, if ok && !Direct(c) then Continue(Reinstalling(c.proxyUrl)) else Return(true))
    case Reinstalling(built) => (c.(transport := built), Return(false))
  }

  function AfterSet(after: After, failed: bool): Pc {
    match after
    case Returns => Done(failed)
    case Sends(saved) => if failed then Unlocking(true) else Sending(saved)
    case Unlocks => Unlocking(false)
  }

  predicate CanStep(s: State, i: nat) {
    && i < |s.pcs| == |s.calls| && !s.pcs[i].Done?
    && (s.pcs[i].Waiting? ==> s.lck.None?)
  }

  /** Call `i` comes to `pc`. */
  function Goto(s: State, i: nat, pc: Pc): State
    requires i < |s.pcs|
  {
    s.(pcs := s.pcs[i := pc])
  }

  function Next(s: State, step: Step): (s': State)
    requires CanStep(s, step.i)
    ensures |s'.pcs| == |s.pcs| && s'.calls == s.calls && s'.client.hasFactory == s.client.hasFactory
  {
    var i := step.i;
    match s.pcs[i]
    case Waiting => Goto(s.(lck := Some(i)), i, Reading)
    case Reading => Goto(s, i, Setting(Saving(s.calls[i].url), Sends(s.client.proxyUrl)))
    case Setting(at, after) =>
      var (c, r) := ActSet(s.client, at, step.ok);
      Goto(s.(client := c), i, if r.Continue? then Setting(r.at, after) else AfterSet(after, r.failed))
    case Sending(saved) => Goto(s, i, Setting(Saving(saved), Unlocks))
    case Unlocking(failed) => Goto(s.(lck := None), i, Done(failed))
    case Done(_) => s
  }

  /** The run leads from `s` to `t`; if `sure`, the dialer constructor fails in it on no URL, but for the
      empty one without a factory. */
  ghost predicate Leads(sure: bool, s: State, run: seq<Step>, t: State)
    decreases |run|
  {
    if run == [] then s == t
    else (sure ==> run[0].ok) && CanStep(s, run[0].i) && Leads(sure, Next(s, run[0]), run[1..], t)
  }

  ghost predicate Reachable(sure: bool, s: State, t: State) {
    exists run :: Leads(sure, s, run, t)
  }

  predicate AllDone(s: State) {
    forall i :: 0 <= i < |s.pcs| ==> s.pcs[i].Done?
  }

  /** No call has returned an error. */
  predicate NoErrors(s: State) {
    forall i :: 0 <= i < |s.pcs| && s.pcs[i].Done? ==> !s.pcs[i].failed
  }

  predicate Agrees(c: Client) {
    c.transport == c.proxyUrl
  }

  /** Whenever all calls have returned, the transport is one built for the configured URL. */
  ghost predicate AlwaysAgrees(sure: bool, hasFactory: bool, orig: string, calls: seq<Call>) {
    forall t :: Reachable(sure, Start(hasFactory, orig, calls), t) && AllDone(t) ==> Agrees(t.client)
  }

  /** The same of the runs in which no call returns an error. */
  ghost predicate AgreesWithoutErrors(hasFactory: bool, orig: string, calls: seq<Call>) {
    forall t :: Reachable(false, Start(hasFactory, orig, calls), t) && AllDone(t) && NoErrors(t) ==> Agrees(t.client)
  }

  // ---------------------------------------------------------------- runs

  lemma StepFirst(sure: bool, s: State, i: nat, ok: bool, t: State)
    requires CanStep(s, i) && (sure ==> ok) && Reachable(sure, Next(s, Advance(i, ok)), t)
    ensures Reachable(sure, s, t)
  {
    var run :| Leads(sure, Next(s, Advance(i, ok)), run, t);
    assert ([Advance(i, ok)] + run)[1..] == run;
    assert Leads(sure, s, [Advance(i, ok)] + run, t);
  }

  lemma Itself(sure: bool, s: State)
    ensures Reachable(sure, s, s)
  {
    assert Leads(sure, s, [], s);
  }

  /** `s` with call `i` at `pc`, and this URL and this transport. */
  function At(s: State, i: nat, pc: Pc, proxyUrl: string, transport: string): State
    requires i < |s.pcs|
  {
    s.(client := Client(s.client.hasFactory, proxyUrl, transport), pcs := s.pcs[i := pc])
  }

  predicate Is(s: State, i: nat, pc: Pc) {
    i < |s.pcs| == |s.calls| && s.pcs[i] == pc
  }

  /** One step of call `i` from `pc` to `pc'`, in the context of `s`. */
  lemma Moves(sure: bool, s: State, i: nat, pc: Pc, u: string, tr: string, pc': Pc, u': string, tr': string, ok: bool,
        t: State)
    requires i < |s.pcs| == |s.calls| && pc.Setting? && (sure ==> ok)
    requires var (c, r) := ActSet(Client(s.client.hasFactory, u, tr), pc.at, ok);
             && c == Client(s.client.hasFactory, u', tr')
             && pc' == if r.Continue? then Setting(r.at, pc.after) else AfterSet(pc.after, r.failed)
    requires Reachable(sure, At(s, i, pc', u', tr'), t)
    ensures Reachable(sure, At(s, i, pc, u, tr), t)
  {
    assert s.pcs[i := pc][i := pc'] == s.pcs[i := pc'];
    assert Next(At(s, i, pc, u, tr), Advance(i, ok)) == At(s, i, pc', u', tr');
    StepFirst(sure, At(s, i, pc, u, tr), i, ok, t);
  }

  /** `applyProxy` up to the transport it has built for the URL it finds. */
  lemma Build(sure: bool, s: State, i: nat, prev: string, a: After, u: string, t: State)
    requires i < |s.pcs| == |s.calls|
    requires Reachable(sure, At(s, i, Setting(Installing(u, prev), a), u, s.client.transport), t)
    ensures Reachable(sure, At(s, i, Setting(Testing(prev), a), u, s.client.transport), t)
  {
    var tr := s.client.transport;
    if !Direct(Client(s.client.hasFactory, u, tr)) {
      Moves(sure, s, i, Setting(Building(prev), a), u, tr, Setting(Installing(u, prev), a), u, tr, true, t);
      Moves(sure, s, i, Setting(Testing(prev), a), u, tr, Setting(Building(prev), a), u, tr, true, t);
    } else {
      Moves(sure, s, i, Setting(Testing(prev), a), u, tr, Setting(Installing(u, prev), a), u, tr, true, t);
    }
  }

  lemma Here(s: State, i: nat)
    requires i < |s.pcs|
    ensures At(s, i, s.pcs[i], s.client.proxyUrl, s.client.transport) == s
  {
    assert s.pcs[i := s.pcs[i]] == s.pcs;
  }

  /** A `SetProxy` up to the assignment of its URL. */
  lemma Assign(sure: bool, s: State, i: nat, x: string, a: After, t: State)
    requires Is(s, i, Setting(Saving(x), a))
    requires Reachable(sure, At(s, i, Setting(Testing(s.client.proxyUrl), a), x, s.client.transport), t)
    ensures Reachable(sure, s, t)
  {
    var u, tr := s.client.proxyUrl, s.client.transport;
    Moves(sure, s, i, Setting(Assigning(x, u), a), u, tr, Setting(Testing(u), a), x, tr, true, t);
    Moves(sure, s, i, Setting(Saving(x), a), u, tr, Setting(Assigning(x, u), a), u, tr, true, t);
    Here(s, i);
  }

  /** A `SetProxy` up to the transport it has built for its URL. */
  lemma AssignAndBuild(sure: bool, s: State, i: nat, x: string, a: After, t: State)
    requires Is(s, i, Setting(Saving(x), a))
    requires Reachable(sure, At(s, i, Setting(Installing(x, s.client.proxyUrl), a), x, s.client.transport), t)
    ensures Reachable(sure, s, t)
  {
    Build(sure, s, i, s.client.proxyUrl, a, x, t);
    Assign(sure, s, i, x, a, t);
  }

  /** A transport that was built is installed. */
  lemma Install(sure: bool, s: State, i: nat, built: string, prev: string, a: After, t: State)
    requires Is(s, i, Setting(Installing(built, prev), a))
    requires Reachable(sure, At(s, i, AfterSet(a, false), s.client.proxyUrl, built), t)
    ensures Reachable(sure, s, t)
  {
    var u, tr := s.client.proxyUrl, s.client.transport;
    Moves(sure, s, i, Setting(Installing(built, prev), a), u, tr, AfterSet(a, false), u, built, true, t);
    Here(s, i);
  }

  /** One `SetProxy` without interference. */
  lemma WholeSet(sure: bool, s: State, i: nat, x: string, a: After, t: State)
    requires Is(s, i, Setting(Saving(x), a))
    requires Reachable(sure, At(s, i, AfterSet(a, false), x, x), t)
    ensures Reachable(sure, s, t)
  {
    var u, tr := s.client.proxyUrl, s.client.transport;
    Moves(sure, s, i, Setting(Installing(x, u), a), x, tr, AfterSet(a, false), x, x, true, t);
    AssignAndBuild(sure, s, i, x, a, t);
  }

  /** A `SetProxy` whose constructor fails, up to its rollback. */
  lemma FailAndStop(s: State, i: nat, x: string, a: After, t: State)
    requires Is(s, i, Setting(Saving(x), a)) && (s.client.hasFactory || x != "")
    requires Reachable(false, At(s, i, Setting(RollingBack(s.client.proxyUrl), a), x, s.client.transport), t)
    ensures Reachable(false, s, t)
  {
    var u, tr := s.client.proxyUrl, s.client.transport;
    Moves(false, s, i, Setting(Building(u), a), x, tr, Setting(RollingBack(u), a), x, tr, false, t);
    Moves(false, s, i, Setting(Testing(u), a), x, tr, Setting(Building(u), a), x, tr, true, t);
    Assign(false, s, i, x, a, t);
  }

  /** The rollback, when it succeeds. */
  lemma RollBack(s: State, i: nat, prev: string, a: After, t: State)
    requires Is(s, i, Setting(RollingBack(prev), a))
    requires Reachable(false, At(s, i, AfterSet(a, false), prev, prev), t)
    ensures Reachable(false, s, t)
  {
    var u, tr := s.client.proxyUrl, s.client.transport;
    Moves(false, s, i, Setting(Reinstalling(prev), a), prev, tr, AfterSet(a, false), prev, prev, true, t);
    if !Direct(Client(s.client.hasFactory, prev, tr)) {
      Moves(false, s, i, Setting(Rebuilding, a), prev, tr, Setting(Reinstalling(prev), a), prev, tr, true, t);
      Moves(false, s, i, Setting(Retesting, a), prev, tr, Setting(Rebuilding, a), prev, tr, true, t);
    } else {
      Moves(false, s, i, Setting(Retesting, a), prev, tr, Setting(Reinstalling(prev), a), prev, tr, true, t);
    }
    Moves(false, s, i, Setting(RollingBack(prev), a), u, tr, Setting(Retesting, a), prev, tr, true, t);
    Here(s, i);
  }

  // ---------------------------------------------------------------- calls that do not overlap

  /** What holds inside a `SetProxy` that nothing interferes with. */
  predicate SetOk(c: Client, at: SetPc) {
    match at
    case Saving(_) => Agrees(c)
    case Assigning(_, prev) => Agrees(c) && c.transport == prev
    case Testing(prev) => c.transport == prev
    case Building(prev) => c.transport == prev
    case Installing(built, _) => built == c.proxyUrl
    case RollingBack(prev) => c.transport == prev
    case Retesting => Agrees(c)
    case Rebuilding => Agrees(c)
    case Reinstalling(built) => built == c.proxyUrl
  }

  /** At most one call is inside a `SetProxy`. */
  predicate OneSets(s: State) {
    forall i, j :: 0 <= i < |s.pcs| && 0 <= j < |s.pcs| && s.pcs[i].Setting? && s.pcs[j].Setting? ==> i == j
  }

  ghost predicate Coherent(s: State) {
    && (forall i :: 0 <= i < |s.pcs| && s.pcs[i].Setting? ==> SetOk(s.client, s.pcs[i].at))
    && ((forall i :: 0 <= i < |s.pcs| ==> !s.pcs[i].Setting?) ==> Agrees(s.client))
  }

  lemma ActSetOk(c: Client, at: SetPc, ok: bool)
    requires SetOk(c, at)
    ensures var (c', r) := ActSet(c, at, ok); if r.Continue? then SetOk(c', r.at) else Agrees(c')
  {
  }

  lemma OthersStay(s: State, step: Step)
    requires CanStep(s, step.i)
    ensures forall j :: 0 <= j < |s.pcs| && j != step.i ==> Next(s, step).pcs[j] == s.pcs[j]
  {
  }

  /** A step inside a `SetProxy`, which no other call is inside. */
  lemma CoherentInside(s: State, step: Step)
    requires Coherent(s) && OneSets(s) && CanStep(s, step.i) && s.pcs[step.i].Setting?
    ensures Coherent(Next(s, step))
  {
    var s' := Next(s, step);
    ActSetOk(s.client, s.pcs[step.i].at, step.ok);
    OthersStay(s, step);
    forall j | 0 <= j < |s.pcs| && s'.pcs[j].Setting? ensures SetOk(s'.client, s'.pcs[j].at) {
      assert j == step.i;
    }
    if forall j :: 0 <= j < |s'.pcs| ==> !s'.pcs[j].Setting? {
      assert !s'.pcs[step.i].Setting?;
    }
  }

  /** A step outside changes neither URL nor transport; it may begin a `SetProxy`. */
  lemma CoherentOutside(s: State, step: Step)
    requires Coherent(s) && CanStep(s, step.i) && OneSets(Next(s, step)) && !s.pcs[step.i].Setting?
    ensures Coherent(Next(s, step))
  {
    var s' := Next(s, step);
    assert s'.client == s.client;
    OthersStay(s, step);
    if s'.pcs[step.i].Setting? {
      forall j | 0 <= j < |s.pcs| ensures !s.pcs[j].Setting? {
        assert j != step.i ==> s'.pcs[j] == s.pcs[j];
      }
      assert s'.pcs[step.i].at.Saving?;
    } else {
      assert forall j :: 0 <= j < |s.pcs| ==> s'.pcs[j].Setting? == s.pcs[j].Setting?;
    }
  }

  lemma CoherentStep(s: State, step: Step)
    requires Coherent(s) && OneSets(s) && CanStep(s, step.i) && OneSets(Next(s, step))
    ensures Coherent(Next(s, step))
  {
    if s.pcs[step.i].Setting? {
      CoherentInside(s, step);
    } else {
      CoherentOutside(s, step);
    }
  }

  /** The points of `DoWithProxy` at which it holds `proxyLck`. */
  predicate Holds(call: Call, pc: Pc) {
    call.DoWithProxy? && !pc.Waiting? && !pc.Done?
  }

  /** No call is a plain `SetProxy`, and whoever holds the lock knows. */
  ghost predicate Locked(s: State) {
    |s.pcs| == |s.calls| && forall i: nat :: i < |s.pcs| ==> LockedPc(s, i)
  }

  predicate LockedPc(s: State, i: nat)
    requires i < |s.pcs| == |s.calls|
  {
    s.calls[i].DoWithProxy? && (Holds(s.calls[i], s.pcs[i]) <==> s.lck == Some(i)) && !Alone(s.pcs[i])
  }

  predicate Alone(pc: Pc) {
    pc.Setting? && pc.after.Returns?
  }

  lemma LockedStep(s: State, step: Step)
    requires Locked(s) && CanStep(s, step.i)
    ensures Locked(Next(s, step)) && OneSets(Next(s, step))
  {
    var s' := Next(s, step);
    assert LockedPc(s, step.i);
    forall j: nat | j < |s'.pcs| ensures LockedPc(s', j) {
      assert LockedPc(s, j);
    }
    assert Locked(s');
    LockedOneSets(s');
  }

  lemma LockedOneSets(s: State)
    requires Locked(s)
    ensures OneSets(s)
  {
    forall i: nat, j: nat | i < |s.pcs| && j < |s.pcs| && s.pcs[i].Setting? && s.pcs[j].Setting? ensures i == j {
      assert LockedPc(s, i) && LockedPc(s, j);
    }
  }

  lemma {:induction false} LockedRun(sure: bool, s: State, run: seq<Step>, t: State)
    requires Locked(s) && Coherent(s) && Leads(sure, s, run, t)
    ensures Locked(t) && Coherent(t)
    decreases |run|
  {
    if run != [] {
      LockedOneSets(s);
      LockedStep(s, run[0]);
      CoherentStep(s, run[0]);
      LockedRun(sure, Next(s, run[0]), run[1..], t);
    }
  }

  lemma {:induction false} SingleRun(sure: bool, s: State, run: seq<Step>, t: State)
    requires |s.pcs| <= 1 && Coherent(s) && Leads(sure, s, run, t)
    ensures Coherent(t)
    decreases |run|
  {
    if run != [] {
      CoherentStep(s, run[0]);
      SingleRun(sure, Next(s, run[0]), run[1..], t);
    }
  }

  lemma StartCoherent(hasFactory: bool, orig: string, calls: seq<Call>)
    ensures Coherent(Start(hasFactory, orig, calls))
  {
  }

  /** As long as every call is a `DoWithProxy`, its lock is enough: in every state of every run in which
      the lock is free, the transport is one built for the configured URL. */
  lemma LockProtects(hasFactory: bool, orig: string, calls: seq<Call>, t: State)
    requires forall c :: c in calls ==> c.DoWithProxy?
    requires Reachable(false, Start(hasFactory, orig, calls), t) && t.lck.None?
    ensures Agrees(t.client)
  {
    var s := Start(hasFactory, orig, calls);
    var run :| Leads(false, s, run, t);
    StartCoherent(hasFactory, orig, calls);
    LockedRun(false, s, run, t);
    forall i: nat | i < |t.pcs| ensures !t.pcs[i].Setting? {
      assert LockedPc(t, i);
    }
  }

  lemma DoWithProxyCallsAgree(hasFactory: bool, orig: string, calls: seq<Call>, t: State)
    requires forall c :: c in calls ==> c.DoWithProxy?
    requires Reachable(false, Start(hasFactory, orig, calls), t) && AllDone(t)
    ensures Agrees(t.client)
  {
    var s := Start(hasFactory, orig, calls);
    var run :| Leads(false, s, run, t);
    StartCoherent(hasFactory, orig, calls);
    LockedRun(false, s, run, t);
  }

  lemma SingleCallAgrees(hasFactory: bool, orig: string, calls: seq<Call>, t: State)
    requires |calls| <= 1
    requires Reachable(false, Start(hasFactory, orig, calls), t) && AllDone(t)
    ensures Agrees(t.client)
  {
    var run :| Leads(false, Start(hasFactory, orig, calls), run, t);
    StartCoherent(hasFactory, orig, calls);
    SingleRun(false, Start(hasFactory, orig, calls), run, t);
  }

  // ---------------------------------------------------------------- calls that change nothing

  predicate OrigSet(at: SetPc, orig: string) {
    match at
    case Saving(target) => target == orig
    case Assigning(target, prev) => target == orig && prev == orig
    case Testing(prev) => prev == orig
    case Building(prev) => prev == orig
    case Installing(built, prev) => built == orig && prev == orig
    case RollingBack(prev) => prev == orig
    case Retesting => true
    case Rebuilding => true
    case Reinstalling(built) => built == orig
  }

  predicate OrigPc(pc: Pc, orig: string) {
    match pc
    case Setting(at, after) => OrigSet(at, orig) && (after.Sends? ==> after.saved == orig)
    case Sending(saved) => saved == orig
    case _ => true
  }

  /** Every URL there is is `orig`. */
  ghost predicate AllOrig(s: State, orig: string) {
    && s.client.proxyUrl == orig && s.client.transport == orig && |s.pcs| == |s.calls|
    && forall i :: 0 <= i < |s.pcs| ==> s.calls[i].url == orig && OrigPc(s.pcs[i], orig)
  }

  lemma OrigStep(s: State, orig: string, step: Step)
    requires AllOrig(s, orig) && CanStep(s, step.i)
    ensures AllOrig(Next(s, step), orig)
  {
    assert s.calls[step.i].url == orig && OrigPc(s.pcs[step.i], orig);
  }

  lemma {:induction false} OrigRun(sure: bool, s: State, orig: string, run: seq<Step>, t: State)
    requires AllOrig(s, orig) && Leads(sure, s, run, t)
    ensures AllOrig(t, orig)
    decreases |run|
  {
    if run != [] {
      OrigStep(s, orig, run[0]);
      OrigRun(sure, Next(s, run[0]), orig, run[1..], t);
    }
  }

  lemma OrigCallsAgree(hasFactory: bool, orig: string, calls: seq<Call>, t: State)
    requires forall i :: 0 <= i < |calls| ==> calls[i].url == orig
    requires Reachable(false, Start(hasFactory, orig, calls), t)
    ensures Agrees(t.client)
  {
    var run :| Leads(false, Start(hasFactory, orig, calls), run, t);
    OrigRun(false, Start(hasFactory, orig, calls), orig, run, t);
  }

  // ---------------------------------------------------------------- calls that set one URL and cannot fail

  /** What a `SetProxy` to `u` may rely on when all others set `u` as well and none fails. */
  predicate UniformPc(c: Client, u: string, pc: Pc) {
    match pc
    case Setting(at, after) =>
      after.Returns? &&
      (match at
       case Saving(target) => target == u
       case Assigning(target, _) => target == u
       case Testing(_) => c.proxyUrl == u
       case Building(_) => c.proxyUrl == u && !Direct(c)
       case Installing(built, _) => c.proxyUrl == u && built == u
       case _ => false)
    case Done(failed) => !failed && c.proxyUrl == u && c.transport == u
    case _ => false
  }

  ghost predicate Uniform(s: State, u: string) {
    forall i :: 0 <= i < |s.pcs| ==> UniformPc(s.client, u, s.pcs[i])
  }

  lemma UniformStep(s: State, u: string, step: Step)
    requires Uniform(s, u) && CanStep(s, step.i) && (step.ok || (!s.client.hasFactory && u == ""))
    ensures Uniform(Next(s, step), u)
  {
    assert UniformPc(s.client, u, s.pcs[step.i]);
  }

  lemma {:induction false} UniformRun(sure: bool, s: State, u: string, run: seq<Step>, t: State)
    requires Uniform(s, u) && Leads(sure, s, run, t) && (sure || (!s.client.hasFactory && u == ""))
    ensures Uniform(t, u) && |t.pcs| == |s.pcs|
    decreases |run|
  {
    if run != [] {
      UniformStep(s, u, run[0]);
      UniformRun(sure, Next(s, run[0]), u, run[1..], t);
    }
  }

  lemma UniformCallsAgree(sure: bool, hasFactory: bool, orig: string, calls: seq<Call>, u: string, t: State)
    requires |calls| > 0 && forall i :: 0 <= i < |calls| ==> calls[i] == SetProxy(u)
    requires sure || (!hasFactory && u == "")
    requires Reachable(sure, Start(hasFactory, orig, calls), t) && AllDone(t)
    ensures Agrees(t.client)
  {
    var run :| Leads(sure, Start(hasFactory, orig, calls), run, t);
    UniformRun(sure, Start(hasFactory, orig, calls), u, run, t);
    assert UniformPc(t.client, u, t.pcs[0]);
  }

  // ---------------------------------------------------------------- calls of SetProxy: how they can disagree

  function SetCalls(targets: seq<string>): seq<Call> {
    seq(|targets|, i requires 0 <= i < |targets| => SetProxy(targets[i]))
  }

  /** Call `y` of `s` is a `SetProxy` that has not begun. */
  predicate Fresh(s: State, y: nat) {
    y < |s.pcs| == |s.calls| && s.pcs[y] == Setting(Saving(s.calls[y].url), Returns)
  }

  /** The calls from `x` on, but for `i` and `j`, run to their ends one after the other. */
  lemma {:induction false} OthersRun(sure: bool, s: State, x: nat, i: nat, j: nat) returns (t: State)
    requires x <= |s.pcs| == |s.calls| && i < |s.pcs| && j < |s.pcs|
    requires forall y :: x <= y < |s.pcs| && y != i && y != j ==> Fresh(s, y)
    requires forall y :: 0 <= y < x && y != i && y != j ==> s.pcs[y] == Done(false)
    ensures Reachable(sure, s, t) && t.calls == s.calls && |t.pcs| == |s.pcs| && t.lck == s.lck
    ensures t.pcs[i] == s.pcs[i] && t.pcs[j] == s.pcs[j] && t.client.hasFactory == s.client.hasFactory
    ensures forall y :: 0 <= y < |t.pcs| && y != i && y != j ==> t.pcs[y] == Done(false)
    decreases |s.pcs| - x
  {
    if x == |s.pcs| {
      t := s;
      Itself(sure, s);
    } else if x == i || x == j {
      t := OthersRun(sure, s, x + 1, i, j);
    } else {
      var u := s.calls[x].url;
      assert Fresh(s, x);
      var s' := At(s, x, Done(false), u, u);
      forall y | x + 1 <= y < |s.pcs| && y != i && y != j ensures Fresh(s', y) {
        assert Fresh(s, y);
      }
      t := OthersRun(sure, s', x + 1, i, j);
      WholeSet(sure, s, x, u, Returns, t);
    }
  }

  lemma Then(sure: bool, s: State, t: State, u: State)
    requires Reachable(sure, s, t) && Reachable(sure, t, u)
    ensures Reachable(sure, s, u)
  {
    var run :| Leads(sure, s, run, t);
    Prepend(sure, s, run, t, u);
  }

  lemma {:induction false} Prepend(sure: bool, s: State, run: seq<Step>, t: State, u: State)
    requires Leads(sure, s, run, t) && Reachable(sure, t, u)
    ensures Reachable(sure, s, u)
    decreases |run|
  {
    if run != [] {
      Prepend(sure, Next(s, run[0]), run[1..], t, u);
      assert run[0] == Advance(run[0].i, run[0].ok);
      StepFirst(sure, s, run[0].i, run[0].ok, u);
    }
  }

  /** All calls have returned without an error, and the transport is built for another URL. */
  predicate Disagrees(t: State) {
    AllDone(t) && NoErrors(t) && !Agrees(t.client)
  }

  /** All but two calls have returned. */
  predicate OthersDone(s: State, i: nat, j: nat) {
    && i < |s.pcs| == |s.calls| && j < |s.pcs| && i != j
    && forall y :: 0 <= y < |s.pcs| && y != i && y != j ==> s.pcs[y] == Done(false)
  }

  lemma BothDone(s: State, i: nat, j: nat, t: State)
    requires OthersDone(s, i, j) && t.pcs == s.pcs[i := Done(false)][j := Done(false)]
    ensures AllDone(t) && NoErrors(t)
  {
  }

  /** Call `i` builds its transport, call `j` runs, and only then `i` installs what it built. */
  lemma LateInstall(sure: bool, s: State, i: nat, j: nat) returns (t: State)
    requires OthersDone(s, i, j) && Fresh(s, i) && Fresh(s, j) && s.calls[i].url != s.calls[j].url
    ensures Reachable(sure, s, t) && Disagrees(t)
  {
    var x, y := s.calls[i].url, s.calls[j].url;
    var held := At(s, i, Setting(Installing(x, s.client.proxyUrl), Returns), x, s.client.transport);
    var last := At(held, j, Done(false), y, y);
    t := At(last, i, Done(false), y, x);
    assert t.pcs == s.pcs[i := Done(false)][j := Done(false)];
    BothDone(s, i, j, t);
    Itself(sure, t);
    Install(sure, last, i, x, s.client.proxyUrl, Returns, t);
    WholeSet(sure, held, j, y, Returns, t);
    AssignAndBuild(sure, s, i, x, Returns, t);
  }

  /** Call `i` has failed and is about to roll back to `prev`; call `j` builds its transport, then `i`
      rolls back, and only then `j` installs what it built. */
  lemma LateRollback(s: State, i: nat, j: nat, prev: string) returns (t: State)
    requires OthersDone(s, i, j) && Is(s, i, Setting(RollingBack(prev), Returns))
    requires Fresh(s, j) && s.calls[j].url != prev
    ensures Reachable(false, s, t) && Disagrees(t)
  {
    var y := s.calls[j].url;
    var held := At(s, j, Setting(Installing(y, s.client.proxyUrl), Returns), y, s.client.transport);
    var last := At(held, i, Done(false), prev, prev);
    t := At(last, j, Done(false), prev, y);
    assert t.pcs == s.pcs[i := Done(false)][j := Done(false)];
    BothDone(s, i, j, t);
    Itself(false, t);
    Install(false, last, j, y, s.client.proxyUrl, Returns, t);
    RollBack(held, i, prev, Returns, t);
    AssignAndBuild(false, s, j, y, Returns, t);
  }

  lemma DifferentTargetsDisagree(sure: bool, hasFactory: bool, orig: string, targets: seq<string>, i: nat, j: nat)
    returns (t: State)
    requires i < |targets| && j < |targets| && targets[i] != targets[j]
    ensures Reachable(sure, Start(hasFactory, orig, SetCalls(targets)), t) && Disagrees(t)
  {
    var s := Start(hasFactory, orig, SetCalls(targets));
    assert forall y :: 0 <= y < |s.pcs| ==> Fresh(s, y);
    var u := OthersRun(sure, s, 0, i, j);
    t := LateInstall(sure, u, i, j);
    Then(sure, s, u, t);
  }

  lemma SameTargetsDisagree(hasFactory: bool, orig: string, targets: seq<string>, x: string) returns (t: State)
    requires |targets| >= 2 && x != orig && (hasFactory || x != "")
    requires forall i :: 0 <= i < |targets| ==> targets[i] == x
    ensures Reachable(false, Start(hasFactory, orig, SetCalls(targets)), t) && Disagrees(t)
  {
    var s := Start(hasFactory, orig, SetCalls(targets));
    var stopped := At(s, 0, Setting(RollingBack(orig), Returns), x, orig);
    assert forall y :: 0 < y < |s.pcs| ==> Fresh(stopped, y);
    var u := OthersRun(false, stopped, 0, 0, 1);
    t := LateRollback(u, 0, 1, orig);
    Then(false, stopped, u, t);
    FailAndStop(s, 0, x, Returns, t);
  }

  // ---------------------------------------------------------------- the exact conditions

  predicate SameTargets(targets: seq<string>) {
    forall i, j :: 0 <= i < |targets| && 0 <= j < |targets| ==> targets[i] == targets[j]
  }

  predicate AllAre(targets: seq<string>, url: string) {
    forall i :: 0 <= i < |targets| ==> targets[i] == url
  }

  /** Calls of `SetProxy` that cannot disturb each other: at most one, or all set the URL that is
      configured anyway, or, without a factory, all set the empty URL, for which no dialer is built. */
  predicate Harmless(hasFactory: bool, orig: string, targets: seq<string>) {
    |targets| <= 1 || AllAre(targets, orig) || (!hasFactory && AllAre(targets, ""))
  }

  lemma HarmlessAgrees(hasFactory: bool, orig: string, targets: seq<string>)
    requires Harmless(hasFactory, orig, targets)
    ensures AlwaysAgrees(false, hasFactory, orig, SetCalls(targets))
  {
    var calls := SetCalls(targets);
    forall t | Reachable(false, Start(hasFactory, orig, calls), t) && AllDone(t) ensures Agrees(t.client) {
      if |targets| <= 1 {
        SingleCallAgrees(hasFactory, orig, calls, t);
      } else if AllAre(targets, orig) {
        OrigCallsAgree(hasFactory, orig, calls, t);
      } else {
        UniformCallsAgree(false, hasFactory, orig, calls, "", t);
      }
    }
  }

  lemma HarmfulDisagrees(hasFactory: bool, orig: string, targets: seq<string>) returns (t: State)
    requires !Harmless(hasFactory, orig, targets)
    ensures Reachable(false, Start(hasFactory, orig, SetCalls(targets)), t) && Disagrees(t)
  {
    if i, j :| 0 <= i < |targets| && 0 <= j < |targets| && targets[i] != targets[j] {
      t := DifferentTargetsDisagree(false, hasFactory, orig, targets, i, j);
    } else {
      assert AllAre(targets, targets[0]);
      t := SameTargetsDisagree(hasFactory, orig, targets, targets[0]);
    }
  }

  /** With arbitrary answers of the dialer constructor, interleaved calls of `SetProxy` always end with a
      transport built for the configured URL if and only if they are harmless; and the same holds of
      the runs in which no call returns an error. */
  lemma SetCallsAgreeIff(hasFactory: bool, orig: string, targets: seq<string>)
    ensures AlwaysAgrees(false, hasFactory, orig, SetCalls(targets)) <==> Harmless(hasFactory, orig, targets)
    ensures AgreesWithoutErrors(hasFactory, orig, SetCalls(targets)) <==> Harmless(hasFactory, orig, targets)
  {
    if Harmless(hasFactory, orig, targets) {
      HarmlessAgrees(hasFactory, orig, targets);
    } else {
      var t := HarmfulDisagrees(hasFactory, orig, targets);
    }
  }

  /** If the constructor fails on no URL, it is enough, and needed, that all calls set the same one. */
  lemma AgreesIffSameTargets(hasFactory: bool, orig: string, targets: seq<string>)
    ensures AlwaysAgrees(true, hasFactory, orig, SetCalls(targets)) <==> SameTargets(targets)
  {
    var calls := SetCalls(targets);
    if i, j :| 0 <= i < |targets| && 0 <= j < |targets| && targets[i] != targets[j] {
      var t := DifferentTargetsDisagree(true, hasFactory, orig, targets, i, j);
    } else {
      forall t | Reachable(true, Start(hasFactory, orig, calls), t) && AllDone(t) ensures Agrees(t.client) {
        if targets == [] {
          Weaken(Start(hasFactory, orig, calls), t);
          SingleCallAgrees(hasFactory, orig, calls, t);
        } else {
          UniformCallsAgree(true, hasFactory, orig, calls, targets[0], t);
        }
      }
    }
  }

  lemma Weaken(s: State, t: State)
    requires Reachable(true, s, t)
    ensures Reachable(false, s, t)
  {
    var run :| Leads(true, s, run, t);
    WeakenRun(s, run, t);
  }

  lemma {:induction false} WeakenRun(s: State, run: seq<Step>, t: State)
    requires Leads(true, s, run, t)
    ensures Leads(false, s, run, t)
    decreases |run|
  {
    if run != [] {
      WeakenRun(Next(s, run[0]), run[1..], t);
    }
  }

  // ---------------------------------------------------------------- SetProxy beside DoWithProxy

  /** The two calls, and where they stand; the second holds the lock. */
  function Pair(hasFactory: bool, u: string, tr: string, calls: seq<Call>, first: Pc, second: Pc): State {
    State(Client(hasFactory, u, tr), Some(1), calls, [first, second])
  }

  /** `DoWithProxy` takes the lock and reads the URL it will go back to. */
  lemma LockAndRead(s: State, t: State)
    requires |s.calls| == 2 == |s.pcs| && s.pcs[1].Waiting? && s.lck.None?
    requires Reachable(false, Goto(s.(lck := Some(1)), 1, Setting(Saving(s.calls[1].url), Sends(s.client.proxyUrl))), t)
    ensures Reachable(false, s, t)
  {
    var s1 := Goto(s.(lck := Some(1)), 1, Reading);
    assert s1.pcs[1 := Setting(Saving(s.calls[1].url), Sends(s.client.proxyUrl))] ==
           s.pcs[1 := Setting(Saving(s.calls[1].url), Sends(s.client.proxyUrl))];
    StepFirst(false, s1, 1, true, t);
    StepFirst(false, s, 1, true, t);
  }

  /** From its request on, `DoWithProxy` goes back to the saved URL, unlocks and returns. */
  lemma GoBack(s: State, saved: string, t: State)
    requires |s.calls| == 2 == |s.pcs| && s.pcs[1] == Sending(saved)
    requires Reachable(false, At(s, 1, Done(false), saved, saved).(lck := None), t)
    ensures Reachable(false, s, t)
  {
    var s1, s2 := Goto(s, 1, Setting(Saving(saved), Unlocks)), At(s, 1, Unlocking(false), saved, saved);
    assert s2.pcs[1 := Done(false)] == s.pcs[1 := Done(false)];
    StepFirst(false, s2, 1, true, t);
    assert s1.pcs[1 := Unlocking(false)] == s.pcs[1 := Unlocking(false)];
    WholeSet(false, s1, 1, saved, Unlocks, t);
    StepFirst(false, s, 1, true, t);
  }

  /** `DoWithProxy` is about to send; it goes back to `orig`, and only then `SetProxy` installs what it
      has built. */
  lemma InstallsLast(hasFactory: bool, orig: string, calls: seq<Call>, y: string, built: string) returns (t: State)
    requires |calls| == 2 && built != orig
    ensures Disagrees(t)
    ensures Reachable(false, Pair(hasFactory, y, y, calls, Setting(Installing(built, orig), Returns), Sending(orig)), t)
  {
    var pc := Setting(Installing(built, orig), Returns);
    var s := Pair(hasFactory, y, y, calls, pc, Sending(orig));
    var back := State(Client(hasFactory, orig, orig), None, calls, [pc, Done(false)]);
    t := State(Client(hasFactory, orig, built), None, calls, [Done(false), Done(false)]);
    Itself(false, t);
    assert At(back, 0, Done(false), orig, built) == t;
    Install(false, back, 0, built, orig, Returns, t);
    assert At(s, 1, Done(false), orig, orig).(lck := None) == back;
    GoBack(s, orig, t);
  }

  /** `DoWithProxy` has read the URL it will go back to, and `SetProxy` has not begun. */
  function Begun(hasFactory: bool, orig: string, x: string, y: string): State {
    Pair(hasFactory, orig, orig, [SetProxy(x), DoWithProxy(y)], Setting(Saving(x), Returns),
         Setting(Saving(y), Sends(orig)))
  }

  lemma ComesToBegin(hasFactory: bool, orig: string, x: string, y: string, t: State)
    requires Reachable(false, Begun(hasFactory, orig, x, y), t)
    ensures Reachable(false, Start(hasFactory, orig, [SetProxy(x), DoWithProxy(y)]), t)
  {
    var s := Start(hasFactory, orig, [SetProxy(x), DoWithProxy(y)]);
    assert s.pcs == [Setting(Saving(x), Returns), Waiting];
    assert Goto(s.(lck := Some(1)), 1, Setting(Saving(y), Sends(orig))) == Begun(hasFactory, orig, x, y);
    LockAndRead(s, t);
  }

  /** `SetProxy` builds its transport before `DoWithProxy` goes there and back. */
  lemma BackBeforeInstall(hasFactory: bool, orig: string, x: string, y: string) returns (t: State)
    requires x != orig
    ensures Reachable(false, Begun(hasFactory, orig, x, y), t) && Disagrees(t)
  {
    var s, built := Begun(hasFactory, orig, x, y), Setting(Installing(x, orig), Returns);
    var s2 := Pair(hasFactory, x, orig, s.calls, built, s.pcs[1]);
    t := InstallsLast(hasFactory, orig, s.calls, y, x);
    assert At(s2, 1, Sending(orig), y, y) == Pair(hasFactory, y, y, s.calls, built, Sending(orig));
    WholeSet(false, s2, 1, y, Sends(orig), t);
    assert At(s, 0, built, x, orig) == s2;
    AssignAndBuild(false, s, 0, x, Returns, t);
  }

  /** Both have assigned, `DoWithProxy` last: both build a transport for its URL. */
  lemma BothBuild(hasFactory: bool, orig: string, calls: seq<Call>, x: string, y: string) returns (t: State)
    requires |calls| == 2 && y != orig
    ensures Disagrees(t)
    ensures Reachable(false, Pair(hasFactory, y, orig, calls, Setting(Testing(orig), Returns),
                                  Setting(Testing(x), Sends(orig))), t)
  {
    var first, second := Setting(Testing(orig), Returns), Setting(Testing(x), Sends(orig));
    var built, built2 := Setting(Installing(y, orig), Returns), Setting(Installing(y, x), Sends(orig));
    var s3, s4 := Pair(hasFactory, y, orig, calls, first, second), Pair(hasFactory, y, orig, calls, built, second);
    var s5 := Pair(hasFactory, y, orig, calls, built, built2);
    t := InstallsLast(hasFactory, orig, calls, y, y);
    assert At(s5, 1, Sending(orig), y, y) == Pair(hasFactory, y, y, calls, built, Sending(orig));
    Install(false, s5, 1, y, x, Sends(orig), t);
    assert At(s4, 1, built2, y, orig) == s5 && At(s4, 1, second, y, orig) == s4;
    Build(false, s4, 1, x, Sends(orig), y, t);
    assert At(s3, 0, built, y, orig) == s4 && At(s3, 0, first, y, orig) == s3;
    Build(false, s3, 0, orig, Returns, y, t);
  }

  /** `SetProxy` builds its transport for the URL of `DoWithProxy`. */
  lemma OtherUrlBuilt(hasFactory: bool, orig: string, x: string, y: string) returns (t: State)
    requires y != orig
    ensures Reachable(false, Begun(hasFactory, orig, x, y), t) && Disagrees(t)
  {
    var s, testing := Begun(hasFactory, orig, x, y), Setting(Testing(orig), Returns);
    var s2 := Pair(hasFactory, x, orig, s.calls, testing, s.pcs[1]);
    t := BothBuild(hasFactory, orig, s.calls, x, y);
    assert At(s2, 1, Setting(Testing(x), Sends(orig)), y, orig) ==
           Pair(hasFactory, y, orig, s.calls, testing, Setting(Testing(x), Sends(orig)));
    Assign(false, s2, 1, y, Sends(orig), t);
    assert At(s, 0, testing, x, orig) == s2;
    Assign(false, s, 0, x, Returns, t);
  }

  /** The lock of `DoWithProxy` does not protect it against one `SetProxy`, unless neither changes the
      URL. */
  lemma PairDisagrees(hasFactory: bool, orig: string, x: string, y: string) returns (t: State)
    requires x != orig || y != orig
    ensures Reachable(false, Start(hasFactory, orig, [SetProxy(x), DoWithProxy(y)]), t) && Disagrees(t)
  {
    if x != orig {
      t := BackBeforeInstall(hasFactory, orig, x, y);
    } else {
      t := OtherUrlBuilt(hasFactory, orig, x, y);
    }
    ComesToBegin(hasFactory, orig, x, y, t);
  }

  predicate OnlyDoWithProxy(kinds: set<Call>) {
    forall c :: c in kinds ==> c.DoWithProxy?
  }

  predicate NoChange(kinds: set<Call>, orig: string) {
    forall c :: c in kinds ==> c.url == orig
  }

  predicate OnlySetEmpty(kinds: set<Call>) {
    forall c :: c in kinds ==> c == SetProxy("")
  }

  ghost predicate Drawn(calls: seq<Call>, kinds: set<Call>) {
    forall i :: 0 <= i < |calls| ==> calls[i] in kinds
  }

  /** However many calls of these kinds there are, and however they interleave. */
  ghost predicate KindsAgree(hasFactory: bool, orig: string, kinds: set<Call>) {
    forall calls :: Drawn(calls, kinds) ==> AlwaysAgrees(false, hasFactory, orig, calls)
  }

  lemma KindsThatAgree(hasFactory: bool, orig: string, kinds: set<Call>, calls: seq<Call>, t: State)
    requires OnlyDoWithProxy(kinds) || NoChange(kinds, orig) || (!hasFactory && OnlySetEmpty(kinds))
    requires Drawn(calls, kinds) && Reachable(false, Start(hasFactory, orig, calls), t) && AllDone(t)
    ensures Agrees(t.client)
  {
    if OnlyDoWithProxy(kinds) {
      DoWithProxyCallsAgree(hasFactory, orig, calls, t);
    } else if NoChange(kinds, orig) {
      OrigCallsAgree(hasFactory, orig, calls, t);
    } else if calls == [] {
      SingleCallAgrees(hasFactory, orig, calls, t);
    } else {
      UniformCallsAgree(false, hasFactory, orig, calls, "", t);
    }
  }

  lemma KindsThatDisagree(hasFactory: bool, orig: string, kinds: set<Call>) returns (calls: seq<Call>, t: State)
    requires !OnlyDoWithProxy(kinds) && !NoChange(kinds, orig) && (hasFactory || !OnlySetEmpty(kinds))
    ensures Drawn(calls, kinds) && Reachable(false, Start(hasFactory, orig, calls), t) && Disagrees(t)
  {
    var a :| a in kinds && a.SetProxy?;
    var c :| c in kinds && c.url != orig;
    if c.DoWithProxy? {
      calls := [a, c];
      t := PairDisagrees(hasFactory, orig, a.url, c.url);
    } else if w :| w in kinds && w.DoWithProxy? {
      calls := [c, w];
      t := PairDisagrees(hasFactory, orig, c.url, w.url);
    } else {
      var targets := [c.url, c.url];
      if !hasFactory && c.url == "" {
        var d :| d in kinds && d != SetProxy("");
        targets := [c.url, d.url];
        assert targets[0] == "" && targets[1] != "";
      }
      calls := SetCalls(targets);
      assert targets[0] == c.url;
      t := HarmfulDisagrees(hasFactory, orig, targets);
    }
  }

  /** Interleaved calls always end with a transport built for the configured URL if and only if they are
      all `DoWithProxy`, which exclude one another, or none changes the URL, or, without a factory, all
      are `SetProxy` to the empty URL. */
  lemma KindsAgreeIff(hasFactory: bool, orig: string, kinds: set<Call>)
    ensures KindsAgree(hasFactory, orig, kinds) <==>
              OnlyDoWithProxy(kinds) || NoChange(kinds, orig) || (!hasFactory && OnlySetEmpty(kinds))
  {
    if OnlyDoWithProxy(kinds) || NoChange(kinds, orig) || (!hasFactory && OnlySetEmpty(kinds)) {
      forall calls, t | Drawn(calls, kinds) && Reachable(false, Start(hasFactory, orig, calls), t) && AllDone(t)
        ensures Agrees(t.client)
      {
        KindsThatAgree(hasFactory, orig, kinds, calls, t);
      }
    } else {
      var calls, t := KindsThatDisagree(hasFactory, orig, kinds);
      assert !AlwaysAgrees(false, hasFactory, orig, calls);
    }
  }

  // ---------------------------------------------------------------- what each call answers and sends

  /** How often call `i` sends its request. */
  function SendsOf(s: State, run: seq<Step>, i: nat): nat
    decreases |run|
  {
    if run == [] || !CanStep(s, run[0].i) then 0
    else (if run[0].i == i && s.pcs[i].Sending? then 1 else 0) + SendsOf(Next(s, run[0]), run[1..], i)
  }

  /** The rollback of a `SetProxy` fails: its constructor does, or it finds the URL empty by now and has
      no factory. */
  predicate RollbackFails(s: State, step: Step) {
    && step.i < |s.pcs| && s.pcs[step.i].Setting? && s.pcs[step.i].at.Rebuilding?
    && !(step.ok && (s.client.hasFactory || s.client.proxyUrl != ""))
  }

  /** Some rollback of call `i` fails, other than that of a last `SetProxy`, after the request. */
  predicate Refused(s: State, run: seq<Step>, i: nat)
    decreases |run|
  {
    if run == [] || !CanStep(s, run[0].i) then false
    else || (run[0].i == i && RollbackFails(s, run[0]) && !s.pcs[i].after.Unlocks?)
         || Refused(Next(s, run[0]), run[1..], i)
  }

  /** What is left to send, and whether an error can still come, at a program point. */
  predicate Outlook(pc: Pc, sends: nat, refused: bool, failed: bool) {
    match pc
    case Waiting => sends == (if refused then 0 else 1) && failed == refused
    case Reading => sends == (if refused then 0 else 1) && failed == refused
    case Setting(_, Returns) => sends == 0 && failed == refused
    case Setting(_, Sends(_)) => sends == (if refused then 0 else 1) && failed == refused
    case Setting(_, Unlocks) => sends == 0 && !refused && !failed
    case Sending(_) => sends == 1 && !refused && !failed
    case Unlocking(f) => sends == 0 && !refused && failed == f
    case Done(f) => sends == 0 && !refused && failed == f
  }

  lemma {:induction false} Ends(s: State, run: seq<Step>, t: State, i: nat)
    requires Leads(false, s, run, t) && i < |s.pcs| == |t.pcs| && t.pcs[i].Done?
    ensures Outlook(s.pcs[i], SendsOf(s, run, i), Refused(s, run, i), t.pcs[i].failed)
    decreases |run|
  {
    if run != [] {
      Ends(Next(s, run[0]), run[1..], t, i);
      OthersStay(s, run[0]);
    }
  }

  /** With arbitrary answers, however the calls interleave: a call ends with an error if and only if its
      `SetProxy`, before any request, failed in its rollback too; a `DoWithProxy` then sends nothing, and
      else sends its request once. */
  lemma SendsOnceUnlessRefused(hasFactory: bool, orig: string, calls: seq<Call>, run: seq<Step>, t: State, i: nat)
    requires Leads(false, Start(hasFactory, orig, calls), run, t) && i < |calls| == |t.pcs| && t.pcs[i].Done?
    ensures var s := Start(hasFactory, orig, calls);
            && (t.pcs[i].failed <==> Refused(s, run, i))
            && SendsOf(s, run, i) == if calls[i].DoWithProxy? && !Refused(s, run, i) then 1 else 0
  {
    Ends(Start(hasFactory, orig, calls), run, t, i);
  }
}
