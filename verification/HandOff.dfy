/** The connection hand-off of `roundTripper`, as a state machine.

    Threads run `RoundTrip`, the dials that cached transports start by themselves, and
    `CloseIdleConnections`.  A step is one access to shared state, one lock operation or one
    answer of the network; any thread may take the next step.  The two mutexes are explicit
    owners, and the two maps are the fields `transports` and `stash`. */
module HandOff {
  import opened Options

  /** The URL scheme as the switch of `getTransport` sees it. */
  datatype Scheme = Plain | Secure | Unknown

  /** The negotiated protocol as the switch of `dialTLS` sees it: `h2`, `h3` or anything else. */
  datatype Protocol = H2 | H3 | Other

  datatype Kind = Http1 | Http2 | Http3

  /** A cached transport.  The id tells apart two transports of the same kind. */
  datatype Transport = Transport(id: nat, kind: Kind)

  /** A connection that finished its handshake, with the ALPN protocol it negotiated. */
  datatype Conn = Conn(id: nat, proto: Protocol)

  datatype Error = InvalidScheme | DialFailed | HandshakeFailed | BadPin

  /** What `dialTLS` returns; `Negotiated` is the sentinel `errProtocolNegotiated`. */
  datatype DialResult = Negotiated | Got(conn: Conn) | Failed(error: Error)

  datatype Call = Request(scheme: Scheme, addr: string) | Redial(addr: string) | CloseIdle
  {
    function Addr(): string {
      if CloseIdle? then "" else addr
    }
  }

  datatype Outcome = Response(transport: Transport) | Refused(error: Error) | Dialed(result: DialResult) | IdleClosed

  /** Program points of `dialTLS`. */
  datatype DialPc =
    | Waiting                     // before taking the embedded mutex
    | Taking                      // look for a stashed connection
    | Connecting                  // dialer.DialContext
    | Handshaking(id: nat)        // HandshakeContext
    | Pinning(conn: Conn)         // certificatePinner.Pin
    | Looking(conn: Conn)         // is there a transport already?
    | Building(conn: Conn)        // cache the transport the protocol asks for
    | Stashing(conn: Conn)        // stash the connection
    | Returning(result: DialResult)  // deferred unlock

  datatype Pc =
    | Ready                           // before taking cachedTransportsLck
    | Checking                        // is there a transport for the address?
    | Choosing                        // getTransport: switch on the scheme
    | InDial(at: DialPc)
    | Fetching                        // t := cachedTransports[addr], then unlock
    | Failing(error: Error)           // unlock, then return or run the handler
    | Handling                        // badPinHandlerFunc is running
    | Serving(transport: Transport)   // t.RoundTrip is running
    | Closing                         // CloseIdleConnections walks the transports
    | Done(outcome: Outcome)
    | Panicked                        // getTransport's panic; cachedTransportsLck stays taken

  datatype Thread = Thread(call: Call, pc: Pc)

  /** A connection returned to the caller of `dialTLS`. */
  datatype Handout = Handout(conn: Conn, caller: nat, addr: string)

  /** The fields of the round tripper the threads share, and a log of what became of connections. */
  datatype Shared = Shared(
    handler: bool,                        // is badPinHandlerFunc set?
    transports: map<string, Transport>,   // cachedTransports
    stash: map<string, Conn>,             // cachedConnections
    transportsLck: Option<nat>,           // owner of cachedTransportsLck
    mutex: Option<nat>,                   // owner of the embedded mutex
    built: nat,                           // transports built so far
    dialed: seq<string>,                  // connection id -> address it was dialed for
    broken: seq<nat>,                     // connections whose handshake failed
    rejected: seq<nat>,                   // connections refused by the pin check
    handed: seq<Handout>)                 // connections returned to callers

  datatype State = State(m: Shared, threads: seq<Thread>)

  datatype Step = Begin(call: Call) | Advance(i: nat, ok: bool, proto: Protocol)

  function Init(handler: bool): State {
    State(Shared(handler, map[], map[], None, None, 0, [], [], [], []), [])
  }

  /** The transport built for a connection that negotiated `proto`. */
  function KindFor(proto: Protocol): Kind {
    match proto
    case H2 => Http2
    case H3 => Http3
    case Other => Http1
  }

  /** HTTP/2 for `h2`, HTTP/3 for `h3`, HTTP/1 for anything else. */
  predicate KindFits(proto: Protocol, kind: Kind) {
    (proto.H2? <==> kind.Http2?) && (proto.H3? <==> kind.Http3?) && (proto.Other? <==> kind.Http1?)
  }

  function Entry(call: Call): Pc {
    if call.Redial? then InDial(Waiting) else Ready
  }

  predicate Finished(pc: Pc) {
    pc.Done? || pc.Panicked?
  }

  predicate Runnable(m: Shared, pc: Pc) {
    && !Finished(pc)
    && (pc.Ready? ==> m.transportsLck.None?)
    && (pc == InDial(Waiting) ==> m.mutex.None?)
  }

  function Publish(m: Shared, addr: string, kind: Kind): Shared {
    m.(transports := m.transports[addr := Transport(m.built, kind)], built := m.built + 1)
  }

  /** Where a thread goes on after `dialTLS` returned. */
  function AfterDial(call: Call, result: DialResult): Pc {
    if !call.Request? then Done(Dialed(result))
    else match result
      case Negotiated => Fetching
      case Got(_) => Panicked
      case Failed(e) => Failing(e)
  }

  /** One step of `dialTLS`.  `ok` and `proto` are the network's answer, where one is awaited. */
  function ActDial(m: Shared, i: nat, call: Call, at: DialPc, ok: bool, proto: Protocol): (Shared, Pc) {
    var addr := call.Addr();
    match at
    case Waiting => (m.(mutex := Some(i)), InDial(Taking))
    case Taking =>
      if addr in m.stash then (m.(stash := m.stash - {addr}), InDial(Returning(Got(m.stash[addr]))))
      else (m, InDial(Connecting))
    case Connecting =>
      if ok then (m.(dialed := m.dialed + [addr]), InDial(Handshaking(|m.dialed|)))
      else (m, InDial(Returning(Failed(DialFailed))))
    case Handshaking(id) =>
      if ok then (m, InDial(Pinning(Conn(id, proto))))
      else (m.(broken := m.broken + [id]), InDial(Returning(Failed(HandshakeFailed))))
    case Pinning(c) =>
      if ok then (m, InDial(Looking(c)))
      else (m.(rejected := m.rejected + [c.id]), InDial(Returning(Failed(BadPin))))
    case Looking(c) => (m, InDial(if addr in m.transports then Returning(Got(c)) else Building(c)))
    case Building(c) => (Publish(m, addr, KindFor(c.proto)), InDial(Stashing(c)))
    case Stashing(c) => (m.(stash := m.stash[addr := c]), InDial(Returning(Negotiated)))
    case Returning(result) =>
      var handed := if result.Got? then m.handed + [Handout(result.conn, i, addr)] else m.handed;
      (m.(mutex := None, handed := handed), AfterDial(call, result))
  }

  /** One step of `RoundTrip` or `CloseIdleConnections` outside `dialTLS`. */
  function ActTrip(m: Shared, i: nat, call: Call, pc: Pc): (Shared, Pc) {
    var addr := call.Addr();
    match pc
    case Ready => (m.(transportsLck := Some(i)), if call.CloseIdle? then Closing else Checking)
    case Checking => (m, if addr in m.transports then Fetching else Choosing)
    case Choosing =>
      (match if call.Request? then call.scheme else Unknown
       case Plain => (Publish(m, addr, Http1), Fetching)
       case Secure => (m, InDial(Waiting))
       case Unknown => (m, Failing(InvalidScheme)))
    case Fetching =>
      if addr in m.transports then (m.(transportsLck := None), Serving(m.transports[addr]))
      else (m, Panicked)
    case Failing(e) =>
      (m.(transportsLck := None), if e.BadPin? && m.handler then Handling else Done(Refused(e)))
    case Handling => (m, Done(Refused(BadPin)))
    case Serving(t) => (m, Done(Response(t)))
    case Closing => (m.(transportsLck := None), Done(IdleClosed))
    case _ => (m, pc)
  }

  function Act(m: Shared, i: nat, t: Thread, ok: bool, proto: Protocol): (Shared, Pc) {
    if t.pc.InDial? then ActDial(m, i, t.call, t.pc.at, ok, proto) else ActTrip(m, i, t.call, t.pc)
  }

  predicate CanAdvance(s: State, i: nat) {
    i < |s.threads| && Runnable(s.m, s.threads[i].pc)
  }

  predicate Enabled(s: State, step: Step) {
    step.Begin? || CanAdvance(s, step.i)
  }

  function Next(s: State, step: Step): State
    requires Enabled(s, step)
  {
    match step
    case Begin(call) => s.(threads := s.threads + [Thread(call, Entry(call))])
    case Advance(i, ok, proto) =>
      var (m, pc) := Act(s.m, i, s.threads[i], ok, proto);
      State(m, s.threads[i := s.threads[i].(pc := pc)])
  }

  /** The assumption about transports: the transport cached under an address dials, through
      `dialTLS`, only that address. */
  predicate Assumed(s: State, step: Step) {
    step.Begin? && step.call.Redial? ==> step.call.addr in s.m.transports
  }

  predicate Feasible(s: State, run: seq<Step>)
    decreases |run|
  {
    run == [] || (Enabled(s, run[0]) && Feasible(Next(s, run[0]), run[1..]))
  }

  function Exec(s: State, run: seq<Step>): State
    requires Feasible(s, run)
    decreases |run|
  {
    if run == [] then s else Exec(Next(s, run[0]), run[1..])
  }

  /** A run in which every dial a transport starts meets the assumption. */
  predicate Lawful(s: State, run: seq<Step>): (b: bool)
    ensures b ==> Feasible(s, run)
    decreases |run|
  {
    run == [] || (Enabled(s, run[0]) && Assumed(s, run[0]) && Lawful(Next(s, run[0]), run[1..]))
  }

  /** A run can be lengthened at its end. */
  lemma {:induction false} Extend(s: State, run: seq<Step>, step: Step)
    requires Feasible(s, run) && Enabled(Exec(s, run), step)
    ensures Feasible(s, run + [step]) && Exec(s, run + [step]) == Next(Exec(s, run), step)
    ensures Lawful(s, run) && Assumed(Exec(s, run), step) ==> Lawful(s, run + [step])
    decreases |run|
  {
    if run == [] {
      assert [step][1..] == [];
    } else {
      assert (run + [step])[1..] == run[1..] + [step];
      Extend(Next(s, run[0]), run[1..], step);
    }
  }

  // ---------------------------------------------------------------- the invariant

  predicate HoldsTransportsLck(t: Thread) {
    || t.pc.Checking? || t.pc.Choosing? || t.pc.Fetching? || t.pc.Failing? || t.pc.Closing? || t.pc.Panicked?
    || (t.pc.InDial? && t.call.Request?)
  }

  predicate HoldsMutex(t: Thread) {
    t.pc.InDial? && !t.pc.at.Waiting?
  }

  /** Thread `i` is inside a critical section exactly when the mutex says so. */
  predicate LocksOk(m: Shared, i: nat, t: Thread) {
    && (HoldsTransportsLck(t) <==> m.transportsLck == Some(i))
    && (HoldsMutex(t) <==> m.mutex == Some(i))
  }

  /** Each stashed connection has a cached transport of the kind its protocol asks for. */
  ghost predicate StashMatches(m: Shared) {
    forall a :: a in m.stash ==> a in m.transports && KindFits(m.stash[a].proto, m.transports[a].kind)
  }

  /** What a thread inside `dialTLS` may rely on. */
  predicate DialOk(m: Shared, call: Call, at: DialPc) {
    var addr := call.Addr();
    if call.Request? then
      && (at.Stashing? ==>
            addr in m.transports && addr !in m.stash && KindFits(at.conn.proto, m.transports[addr].kind))
      && (at.Returning? ==> !at.result.Got? && (at.result.Negotiated? ==> addr in m.transports))
      && (!at.Stashing? && !at.Returning? ==> addr !in m.transports)
    else
      && addr in m.transports && !at.Building? && !at.Stashing? && at != Returning(Negotiated)
  }

  /** What each thread may rely on at its program point. */
  predicate ThreadOk(m: Shared, t: Thread) {
    var addr := t.call.Addr();
    match t.pc
    case InDial(at) => !t.call.CloseIdle? && DialOk(m, t.call, at)
    case Ready => !t.call.Redial?
    case Closing => t.call.CloseIdle?
    case Checking => t.call.Request?
    case Choosing => t.call.Request? && addr !in m.transports
    case Fetching => t.call.Request? && addr in m.transports
    case Failing(_) => t.call.Request?
    case Handling => t.call.Request?
    case Serving(transport) => t.call.Request? && addr in m.transports && m.transports[addr] == transport
    case Done(outcome) =>
      (match t.call
       case Request(_, _) => outcome.Response? || outcome.Refused?
       case Redial(_) => addr in m.transports && outcome.Dialed? && !outcome.result.Negotiated?
       case CloseIdle => outcome.IdleClosed?)
    case Panicked => false
  }

  ghost predicate Inv(s: State) {
    && StashMatches(s.m)
    && (s.m.transportsLck.Some? ==> s.m.transportsLck.value < |s.threads|)
    && (s.m.mutex.Some? ==> s.m.mutex.value < |s.threads|)
    && (forall i :: 0 <= i < |s.threads| ==> LocksOk(s.m, i, s.threads[i]) && ThreadOk(s.m, s.threads[i]))
  }

  /** The thread that moves: it takes only free locks, gives back only its own, and ends at a
      point whose expectations hold. */
  lemma TripKeeps(m: Shared, i: nat, t: Thread)
    requires Runnable(m, t.pc) && !t.pc.InDial?
    requires StashMatches(m) && LocksOk(m, i, t) && ThreadOk(m, t)
    ensures var (m', pc) := ActTrip(m, i, t.call, t.pc);
            StashMatches(m') && LocksOk(m', i, t.(pc := pc)) && ThreadOk(m', t.(pc := pc))
  {
  }

  lemma DialKeeps(m: Shared, i: nat, t: Thread, ok: bool, proto: Protocol)
    requires Runnable(m, t.pc) && t.pc.InDial?
    requires StashMatches(m) && LocksOk(m, i, t) && ThreadOk(m, t)
    ensures var (m', pc) := ActDial(m, i, t.call, t.pc.at, ok, proto);
            StashMatches(m') && LocksOk(m', i, t.(pc := pc)) && ThreadOk(m', t.(pc := pc))
  {
  }

  predicate LockMoves(before: Option<nat>, after: Option<nat>, i: nat) {
    before == after || (before.None? && after == Some(i)) || (before == Some(i) && after.None?)
  }

  /** All one step of thread `i` can do to the shared fields: it adds at most one transport, under
      its own address and holding `cachedTransportsLck`; it replaces and removes none; it fills an
      empty stash slot of its address or empties it, holding the embedded mutex. */
  ghost predicate Effect(m: Shared, m': Shared, i: nat, t: Thread) {
    var addr := t.call.Addr();
    && LockMoves(m.transportsLck, m'.transportsLck, i)
    && LockMoves(m.mutex, m'.mutex, i)
    && (m'.transports == m.transports
        || (HoldsTransportsLck(t) && addr !in m.transports && addr in m'.transports
            && m'.transports == m.transports[addr := m'.transports[addr]]))
    && (m'.stash == m.stash
        || (HoldsMutex(t) && addr !in m.stash && addr in m'.stash && m'.stash == m.stash[addr := m'.stash[addr]])
        || (HoldsMutex(t) && addr in m.stash && m'.stash == m.stash - {addr}))
  }

  lemma TripEffect(m: Shared, i: nat, t: Thread)
    requires Runnable(m, t.pc) && !t.pc.InDial? && LocksOk(m, i, t) && ThreadOk(m, t)
    ensures Effect(m, ActTrip(m, i, t.call, t.pc).0, i, t)
  {
  }

  lemma DialEffect(m: Shared, i: nat, t: Thread, ok: bool, proto: Protocol)
    requires Runnable(m, t.pc) && t.pc.InDial? && LocksOk(m, i, t) && ThreadOk(m, t)
    ensures Effect(m, ActDial(m, i, t.call, t.pc.at, ok, proto).0, i, t)
  {
  }

  /** The expectations of every other thread survive such an effect. */
  lemma OtherKeeps(m: Shared, m': Shared, i: nat, t: Thread, j: nat, u: Thread)
    requires Effect(m, m', i, t) && i != j
    requires LocksOk(m, i, t) && LocksOk(m, j, u) && ThreadOk(m, u)
    ensures LocksOk(m', j, u) && ThreadOk(m', u)
  {
  }

  lemma InvStep(s: State, step: Step)
    requires Inv(s) && Enabled(s, step) && Assumed(s, step)
    ensures Inv(Next(s, step))
    ensures step.Advance? ==> Effect(s.m, Next(s, step).m, step.i, s.threads[step.i])
  {
    if step.Advance? {
      var i, t := step.i, s.threads[step.i];
      var s' := Next(s, step);
      if t.pc.InDial? {
        DialEffect(s.m, i, t, step.ok, step.proto);
        DialKeeps(s.m, i, t, step.ok, step.proto);
      } else {
        TripEffect(s.m, i, t);
        TripKeeps(s.m, i, t);
      }
      forall j | 0 <= j < |s.threads| && j != i
        ensures LocksOk(s'.m, j, s'.threads[j]) && ThreadOk(s'.m, s'.threads[j])
      {
        OtherKeeps(s.m, s'.m, i, t, j, s.threads[j]);
      }
    }
  }

  /** The invariant holds in every reachable state of every lawful interleaving. */
  lemma {:induction false} InvHolds(s: State, run: seq<Step>)
    requires Inv(s) && Lawful(s, run)
    ensures Inv(Exec(s, run))
    decreases |run|
  {
    if run != [] {
      InvStep(s, run[0]);
      InvHolds(Next(s, run[0]), run[1..]);
    }
  }

  // ---------------------------------------------------------------- safety

  /** In every reachable state the "should never happen" panic has not happened, the transport
      about to be fetched is present, a dial started by a transport never saw the sentinel error,
      and each stashed connection has a transport of the kind its protocol asks for. */
  lemma NoPanic(handler: bool, run: seq<Step>)
    requires Lawful(Init(handler), run)
    ensures var s := Exec(Init(handler), run);
            && (forall a :: a in s.m.stash ==>
                  a in s.m.transports && KindFits(s.m.stash[a].proto, s.m.transports[a].kind))
            && (forall i :: 0 <= i < |s.threads| ==>
                  var t := s.threads[i];
                  && !t.pc.Panicked?
                  && (t.pc.Fetching? ==> t.call.Addr() in s.m.transports)
                  && (t.call.Redial? && t.pc.Done? ==> t.pc.outcome.Dialed? && !t.pc.outcome.result.Negotiated?))
  {
    InvHolds(Init(handler), run);
    var s := Exec(Init(handler), run);
    forall i | 0 <= i < |s.threads|
      ensures !s.threads[i].pc.Panicked?
      ensures s.threads[i].pc.Fetching? ==> s.threads[i].call.Addr() in s.m.transports
      ensures s.threads[i].call.Redial? && s.threads[i].pc.Done? ==>
                s.threads[i].pc.outcome.Dialed? && !s.threads[i].pc.outcome.result.Negotiated?
    {
      assert ThreadOk(s.m, s.threads[i]);
    }
  }

  /** A cached transport is never replaced or removed. */
  lemma {:induction false} TransportsPersist(s: State, run: seq<Step>, addr: string)
    requires Inv(s) && Lawful(s, run) && addr in s.m.transports
    ensures addr in Exec(s, run).m.transports && Exec(s, run).m.transports[addr] == s.m.transports[addr]
    decreases |run|
  {
    if run != [] {
      InvStep(s, run[0]);
      TransportsPersist(Next(s, run[0]), run[1..], addr);
    }
  }

  // ---------------------------------------------------------------- deadlock freedom

  /** Whenever some thread is unfinished, some unfinished thread can take a step. */
  lemma SomeThreadCanStep(s: State, i: nat) returns (j: nat)
    requires Inv(s) && i < |s.threads| && !Finished(s.threads[i].pc)
    ensures CanAdvance(s, j)
  {
    j := i;
    if s.threads[j].pc.Ready? && s.m.transportsLck.Some? {
      j := s.m.transportsLck.value;
      assert LocksOk(s.m, j, s.threads[j]) && ThreadOk(s.m, s.threads[j]);
    }
    if s.threads[j].pc == InDial(Waiting) && s.m.mutex.Some? {
      j := s.m.mutex.value;
      assert LocksOk(s.m, j, s.threads[j]);
    }
  }

  /** Lock discipline in every reachable state: the bad-pin handler and the transport run with
      neither mutex held, `cachedTransportsLck` is only waited for by calls that hold nothing, and
      the embedded mutex only by calls that do not hold it. */
  lemma LockDiscipline(handler: bool, run: seq<Step>, i: nat)
    requires Lawful(Init(handler), run) && i < |Exec(Init(handler), run).threads|
    ensures var s := Exec(Init(handler), run);
            var pc := s.threads[i].pc;
            && (pc.Handling? || pc.Serving? || pc.Ready? || pc.Done? ==>
                  s.m.transportsLck != Some(i) && s.m.mutex != Some(i))
            && (pc == InDial(Waiting) ==> s.m.mutex != Some(i))
            && (pc.InDial? && !pc.at.Waiting? ==> s.m.mutex == Some(i))
            && (pc.InDial? && s.threads[i].call.Request? ==> s.m.transportsLck == Some(i))
  {
    InvHolds(Init(handler), run);
    var s := Exec(Init(handler), run);
    assert LocksOk(s.m, i, s.threads[i]) && ThreadOk(s.m, s.threads[i]);
  }

  /** An upper bound on the steps a thread still has to take. */
  function Rank(pc: Pc): nat {
    match pc
    case Ready => 14
    case Checking => 13
    case Choosing => 12
    case InDial(at) =>
      (match at
       case Waiting => 11 case Taking => 10 case Connecting => 9 case Handshaking(_) => 8 case Pinning(_) => 7
       case Looking(_) => 6 case Building(_) => 5 case Stashing(_) => 4 case Returning(_) => 3)
    case Fetching => 2
    case Failing(_) => 2
    case Handling => 1
    case Serving(_) => 1
    case Closing => 1
    case Done(_) => 0
    case Panicked => 0
  }

  function TotalRank(threads: seq<Thread>): nat {
    if threads == [] then 0 else Rank(threads[0].pc) + TotalRank(threads[1..])
  }

  lemma {:induction false} TotalRankUpdate(threads: seq<Thread>, i: nat, t: Thread)
    requires i < |threads|
    ensures TotalRank(threads[i := t]) + Rank(threads[i].pc) == TotalRank(threads) + Rank(t.pc)
  {
    if i == 0 {
      assert threads[i := t][1..] == threads[1..];
    } else {
      assert threads[i := t][1..] == threads[1..][i - 1 := t];
      TotalRankUpdate(threads[1..], i - 1, t);
    }
  }

  predicate AdvanceOnly(run: seq<Step>) {
    forall k :: 0 <= k < |run| ==> run[k].Advance?
  }

  lemma RankFalls(s: State, step: Step)
    requires step.Advance? && Enabled(s, step)
    ensures TotalRank(Next(s, step).threads) < TotalRank(s.threads)
  {
    var t := s.threads[step.i];
    var pc := Act(s.m, step.i, t, step.ok, step.proto).1;
    assert Rank(pc) < Rank(t.pc);
    TotalRankUpdate(s.threads, step.i, t.(pc := pc));
  }

  /** Calls already begun take a bounded number of steps between them, in any order. */
  lemma {:induction false} RunsAreBounded(s: State, run: seq<Step>)
    requires Feasible(s, run) && AdvanceOnly(run)
    ensures |run| + TotalRank(Exec(s, run).threads) <= TotalRank(s.threads)
    decreases |run|
  {
    if run != [] {
      RankFalls(s, run[0]);
      assert AdvanceOnly(run[1..]);
      RunsAreBounded(Next(s, run[0]), run[1..]);
    }
  }

  lemma OwnersAreBusy(s: State)
    requires Inv(s)
    ensures s.m.transportsLck.Some? ==> !s.threads[s.m.transportsLck.value].pc.Done?
    ensures s.m.mutex.Some? ==> !s.threads[s.m.mutex.value].pc.Done?
  {
    if s.m.transportsLck.Some? {
      assert LocksOk(s.m, s.m.transportsLck.value, s.threads[s.m.transportsLck.value]);
    }
    if s.m.mutex.Some? {
      assert LocksOk(s.m, s.m.mutex.value, s.threads[s.m.mutex.value]);
    }
  }

  predicate AllDone(s: State) {
    forall i :: 0 <= i < |s.threads| ==> s.threads[i].pc.Done?
  }

  lemma AllDoneUnlessRunning(s: State) returns (i: nat)
    requires Inv(s)
    ensures i < |s.threads| ==> !Finished(s.threads[i].pc)
    ensures i >= |s.threads| ==> AllDone(s) && s.m.transportsLck.None? && s.m.mutex.None?
  {
    if j :| 0 <= j < |s.threads| && !Finished(s.threads[j].pc) {
      i := j;
    } else {
      i := |s.threads|;
      forall j | 0 <= j < |s.threads| ensures s.threads[j].pc.Done? {
        assert ThreadOk(s.m, s.threads[j]);
      }
      OwnersAreBusy(s);
    }
  }

  lemma StepFirst(s: State, step: Step, rest: seq<Step>)
    requires step.Advance? && Enabled(s, step) && Assumed(s, step)
    requires AdvanceOnly(rest) && Lawful(Next(s, step), rest)
    ensures AdvanceOnly([step] + rest) && Lawful(s, [step] + rest)
    ensures Exec(s, [step] + rest) == Exec(Next(s, step), rest)
    ensures |Next(s, step).threads| == |s.threads|
  {
    assert ([step] + rest)[1..] == rest;
  }

  /** From every state of a lawful run all begun calls can be brought to an end; then both
      mutexes are free. */
  lemma {:induction false} AllCallsCanFinish(s: State) returns (run: seq<Step>)
    requires Inv(s)
    ensures AdvanceOnly(run) && Lawful(s, run)
    ensures |Exec(s, run).threads| == |s.threads| && AllDone(Exec(s, run))
    ensures Exec(s, run).m.transportsLck.None? && Exec(s, run).m.mutex.None?
    decreases TotalRank(s.threads)
  {
    var i := AllDoneUnlessRunning(s);
    if i < |s.threads| {
      var j := SomeThreadCanStep(s, i);
      var step := Advance(j, true, Other);
      RankFalls(s, step);
      InvStep(s, step);
      var rest := AllCallsCanFinish(Next(s, step));
      StepFirst(s, step, rest);
      run := [step] + rest;
    } else {
      run := [];
    }
  }
}
