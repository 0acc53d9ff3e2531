/** `connectDialer.DialContext` with its cached HTTP/2 connection, as a state machine of
    interleaved calls. */
module Tunnels {
  import opened Options

  /** What was negotiated with the proxy: nothing or `http/1.1`, `h2`, or something else. */
  datatype Protocol = Http1 | Http2 | Unsupported

  /** A raw connection to the proxy: which call dialed it, whether it was closed, and whether a
      CONNECT on it was answered with 200. */
  datatype Raw = Raw(dialer: nat, proto: Protocol, closed: bool, accepted: bool)

  datatype Result = Tunnel(raw: nat) | Failed

  datatype Pc =
    | Start
    | Checking                        // holding cacheH2Mu: look at the cache
    | Releasing(next: Pc)             // unlock, then go on
    | Reusing(client: nat, raw: nat)  // connectHttp2 on the cached connection
    | ReuseFailed(raw: nat)           // close it and carry on
    | Dialing                         // dial, and TLS handshake for https
    | Chosen(raw: nat)                // switch on the protocol
    | Talking(raw: nat, stage: nat)   // connectHttp1: set deadline, write, read, check the status
    | Wrapping(raw: nat)              // NewClientConn
    | Connecting(raw: nat)            // connectHttp2 on the new connection
    | Dropping(raw: nat)              // close the new connection and return the error
    | StoreWait(raw: nat)             // before taking cacheH2Mu again
    | StoringClient(raw: nat)
    | StoringRaw(raw: nat)
    | Done(result: Result)

  /** The fields the calls share; a client connection is named by the raw connection it wraps. */
  datatype Shared = Shared(
    reuse: bool,                      // EnableH2ConnReuse
    cachedClient: Option<nat>,        // cachedH2ClientConn
    cachedRaw: Option<nat>,           // cachedH2RawConn
    lck: Option<nat>,                 // owner of cacheH2Mu
    raws: seq<Raw>,
    handshakesLost: nat)              // connections whose TLS handshake failed: they are not closed

  datatype State = State(m: Shared, threads: seq<Pc>)

  /** The answer of the network: `ok`, and for a dial also the negotiated protocol or, if not ok,
      whether it was the handshake that failed. */
  datatype Answer = Answer(ok: bool, proto: Protocol, shaking: bool)

  datatype Step = Begin | Advance(i: nat, answer: Answer)

  function Init(reuse: bool): State {
    State(Shared(reuse, None, None, None, [], 0), [])
  }

  predicate Runnable(m: Shared, pc: Pc) {
    !pc.Done? && (pc.StoreWait? || (pc.Start? && m.reuse) ==> m.lck.None?)
  }

  predicate CanAdvance(s: State, i: nat) {
    i < |s.threads| && Runnable(s.m, s.threads[i])
  }

  function Close(m: Shared, r: nat): Shared {
    if r < |m.raws| then m.(raws := m.raws[r := m.raws[r].(closed := true)]) else m
  }

  function Accept(m: Shared, r: nat): Shared {
    if r < |m.raws| then m.(raws := m.raws[r := m.raws[r].(accepted := true)]) else m
  }

  predicate Early(pc: Pc) {
    pc.Start? || pc.Checking? || pc.Releasing? || pc.Reusing? || pc.ReuseFailed? || pc.Dialing?
  }

  /** The steps before a new connection is there, and the final unlock. */
  function ActEarly(m: Shared, i: nat, pc: Pc, answer: Answer): (Shared, Pc) {
    match pc
    case Start => if m.reuse then (m.(lck := Some(i)), Checking) else (m, Dialing)
    case Checking =>
      // `ok` is CanTakeNewRequest
      (m, Releasing(if m.cachedClient.Some? && m.cachedRaw.Some? && answer.ok
                    then Reusing(m.cachedClient.value, m.cachedRaw.value) else Dialing))
    case Releasing(next) => (m.(lck := None), next)
    case Reusing(client, raw) =>
      if answer.ok then (Accept(m, client), Done(Tunnel(raw))) else (m, ReuseFailed(raw))
    case ReuseFailed(raw) => (Close(m, raw), Dialing)
    case Dialing =>
      if answer.ok then (m.(raws := m.raws + [Raw(i, answer.proto, false, false)]), Chosen(|m.raws|))
      else (m.(handshakesLost := m.handshakesLost + if answer.shaking then 1 else 0), Done(Failed))
    case _ => (m, pc)
  }

  /** The steps on a new connection. */
  function ActLate(m: Shared, i: nat, pc: Pc, answer: Answer): (Shared, Pc) {
    match pc
    case Chosen(raw) =>
      if raw >= |m.raws| then (m, pc)
      else (m, match m.raws[raw].proto
               case Http1 => Talking(raw, 0)
               case Http2 => Wrapping(raw)
               case Unsupported => Dropping(raw))
    case Talking(raw, stage) =>
      if !answer.ok then (m, Dropping(raw))
      else if stage < 3 then (m, Talking(raw, stage + 1))
      else (Accept(m, raw), Done(Tunnel(raw)))
    case Wrapping(raw) => (m, if answer.ok then Connecting(raw) else Dropping(raw))
    case Connecting(raw) =>
      if !answer.ok then (m, Dropping(raw))
      else (Accept(m, raw), if m.reuse then StoreWait(raw) else Done(Tunnel(raw)))
    case Dropping(raw) => (Close(m, raw), Done(Failed))
    case StoreWait(raw) => (m.(lck := Some(i)), StoringClient(raw))
    case StoringClient(raw) => (m.(cachedClient := Some(raw)), StoringRaw(raw))
    case StoringRaw(raw) => (m.(cachedRaw := Some(raw)), Releasing(Done(Tunnel(raw))))
    case _ => (m, pc)
  }

  function Act(m: Shared, i: nat, pc: Pc, answer: Answer): (Shared, Pc) {
    if Early(pc) then ActEarly(m, i, pc, answer) else ActLate(m, i, pc, answer)
  }

  predicate Enabled(s: State, step: Step) {
    step.Begin? || CanAdvance(s, step.i)
  }

  function Next(s: State, step: Step): State
    requires Enabled(s, step)
  {
    match step
    case Begin => s.(threads := s.threads + [Start])
    case Advance(i, answer) =>
      var (m, pc) := Act(s.m, i, s.threads[i], answer);
      State(m, s.threads[i := pc])
  }

  predicate Feasible(s: State, run: seq<Step>)
    decreases |run|
  {
    run == [] || (Enabled(s, run[0]) && Feasible(Next(s, run[0]), run[1..]))
  }

  function Exec(s: State, run: seq<Step>): State
    requires Feasible(s, run)
    decreases |run|
  {
    if run == [] then s else Exec(Next(s, run[0]), run[1..])
  }

  lemma {:induction false} Extend(s: State, run: seq<Step>, step: Step)
    requires Feasible(s, run) && Enabled(Exec(s, run), step)
    ensures Feasible(s, run + [step]) && Exec(s, run + [step]) == Next(Exec(s, run), step)
    decreases |run|
  {
    if run == [] {
      assert [step][1..] == [];
    } else {
      assert (run + [step])[1..] == run[1..] + [step];
      Extend(Next(s, run[0]), run[1..], step);
    }
  }

  // ---------------------------------------------------------------- the invariant

  /** The points where a call talks to the network. */
  predicate OnNetwork(pc: Pc) {
    pc.Reusing? || pc.Dialing? || pc.Talking? || pc.Wrapping? || pc.Connecting?
  }

  predicate HoldsLock(pc: Pc) {
    pc.Checking? || pc.Releasing? || pc.StoringClient? || pc.StoringRaw?
  }

  /** A connection that may be in the cache: HTTP/2, and its CONNECT was answered with 200. */
  predicate Cacheable(m: Shared, r: nat) {
    m.reuse && r < |m.raws| && m.raws[r].proto.Http2? && m.raws[r].accepted
  }

  predicate DialedBy(m: Shared, r: nat, i: nat) {
    r < |m.raws| && m.raws[r].dialer == i
  }

  /** The new connection a call is working on. */
  function Work(pc: Pc): Option<nat> {
    match pc
    case Chosen(raw) => Some(raw)
    case Talking(raw, _) => Some(raw)
    case Wrapping(raw) => Some(raw)
    case Connecting(raw) => Some(raw)
    case Dropping(raw) => Some(raw)
    case StoreWait(raw) => Some(raw)
    case StoringClient(raw) => Some(raw)
    case StoringRaw(raw) => Some(raw)
    case Releasing(Done(Tunnel(raw))) => Some(raw)
    case _ => None
  }

  predicate LocksOk(m: Shared, i: nat, pc: Pc) {
    HoldsLock(pc) <==> m.lck == Some(i)
  }

  /** What a call may rely on at its program point. */
  predicate ThreadOk(m: Shared, i: nat, pc: Pc) {
    && (Work(pc).Some? ==> DialedBy(m, Work(pc).value, i))
    && match pc
       case Releasing(next) =>
         (match next
          case Dialing => true
          case Reusing(client, raw) => client == raw && Cacheable(m, raw)
          case Done(Tunnel(raw)) => Cacheable(m, raw)
          case _ => false)
       case Reusing(client, raw) => client == raw && Cacheable(m, raw)
       case ReuseFailed(raw) => Cacheable(m, raw)
       case Talking(raw, _) => m.raws[raw].proto.Http1?
       case Wrapping(raw) => m.raws[raw].proto.Http2?
       case Connecting(raw) => m.raws[raw].proto.Http2?
       case StoreWait(raw) => Cacheable(m, raw)
       case StoringClient(raw) => Cacheable(m, raw)
       case StoringRaw(raw) => Cacheable(m, raw) && m.cachedClient == Some(raw)
       case Done(Tunnel(raw)) =>
         raw < |m.raws| && m.raws[raw].accepted && (Cacheable(m, raw) || DialedBy(m, raw, i))
       case _ => true
  }

  /** Each cache field names a connection that received a 200; they agree unless `storing`. */
  predicate CacheOk(m: Shared, storing: bool) {
    && (m.cachedClient.Some? ==> Cacheable(m, m.cachedClient.value))
    && (m.cachedRaw.Some? ==> Cacheable(m, m.cachedRaw.value))
    && (m.cachedClient == m.cachedRaw || storing)
  }

  /** What became of connection `r`, seen from the call that dialed it: it works on it, returned it,
      or failed and closed it.  Otherwise only a shared HTTP/2 connection can be closed. */
  predicate RawOk(m: Shared, r: nat, dialer: Pc)
    requires r < |m.raws|
  {
    && (Work(dialer) == Some(r) || dialer == Done(Tunnel(r)) || (dialer == Done(Failed) && m.raws[r].closed))
    && (m.raws[r].closed ==> dialer == Done(Failed) || Cacheable(m, r))
  }

  predicate Storing(s: State) {
    s.m.lck.Some? && s.m.lck.value < |s.threads| && s.threads[s.m.lck.value].StoringRaw?
  }

  ghost predicate Inv(s: State) {
    && (s.m.lck.Some? ==> s.m.lck.value < |s.threads|)
    && CacheOk(s.m, Storing(s))
    && (forall i: nat :: i < |s.threads| ==> LocksOk(s.m, i, s.threads[i]) && ThreadOk(s.m, i, s.threads[i]))
    && (forall r: nat :: r < |s.m.raws| ==>
          s.m.raws[r].dialer < |s.threads| && RawOk(s.m, r, s.threads[s.m.raws[r].dialer]))
  }

  // ---------------------------------------------------------------- one step

  predicate LockMoves(before: Option<nat>, after: Option<nat>, i: nat) {
    before == after || (before.None? && after == Some(i)) || (before == Some(i) && after.None?)
  }

  /** All one step of call `i` can do to the shared fields.  `r` is the connection it may touch. */
  ghost predicate Effect(m: Shared, m': Shared, i: nat, holds: bool) {
    && m'.reuse == m.reuse
    && LockMoves(m.lck, m'.lck, i)
    && (m'.cachedClient == m.cachedClient || holds)
    && (m'.cachedRaw == m.cachedRaw || holds)
    && |m.raws| <= |m'.raws|
    && forall r: nat :: r < |m.raws| ==>
         && m'.raws[r].dialer == m.raws[r].dialer && m'.raws[r].proto == m.raws[r].proto
         && (m.raws[r].closed ==> m'.raws[r].closed)
         && (m.raws[r].accepted ==> m'.raws[r].accepted)
  }

  lemma ActEffect(m: Shared, i: nat, pc: Pc, answer: Answer)
    requires Runnable(m, pc) && LocksOk(m, i, pc)
    ensures Effect(m, Act(m, i, pc, answer).0, i, HoldsLock(pc))
  {
  }

  /** The call that moves ends at a point whose expectations hold. */
  lemma EarlyOk(m: Shared, i: nat, pc: Pc, answer: Answer)
    requires Runnable(m, pc) && Early(pc) && LocksOk(m, i, pc) && ThreadOk(m, i, pc)
    requires pc.Checking? ==> CacheOk(m, false)
    ensures var (m', pc') := ActEarly(m, i, pc, answer); LocksOk(m', i, pc') && ThreadOk(m', i, pc')
  {
  }

  lemma LateOk(m: Shared, i: nat, pc: Pc, answer: Answer)
    requires Runnable(m, pc) && !Early(pc) && LocksOk(m, i, pc) && ThreadOk(m, i, pc)
    ensures var (m', pc') := ActLate(m, i, pc, answer); LocksOk(m', i, pc') && ThreadOk(m', i, pc')
  {
  }

  /** The cache fields agree again when the call that stores into them lets go of the lock. */
  lemma ActCache(m: Shared, i: nat, pc: Pc, answer: Answer, storing: bool)
    requires Runnable(m, pc) && LocksOk(m, i, pc) && ThreadOk(m, i, pc)
    requires CacheOk(m, storing) && (storing ==> m.lck.Some?) && (m.lck == Some(i) ==> storing == pc.StoringRaw?)
    ensures var (m', pc') := Act(m, i, pc, answer);
            CacheOk(m', if m'.lck == Some(i) then pc'.StoringRaw? else storing && m.lck == m'.lck)
  {
  }

  /** A connection is closed only by the call that dialed it and fails, or when it is shared. */
  lemma ActCloses(m: Shared, i: nat, pc: Pc, answer: Answer, r: nat)
    requires Runnable(m, pc) && ThreadOk(m, i, pc) && r < |m.raws|
    ensures var (m', pc') := Act(m, i, pc, answer);
            && |m.raws| <= |m'.raws|
            && (m'.raws[r].closed && !m.raws[r].closed ==>
                  Cacheable(m, r) || (Work(pc) == Some(r) && pc' == Done(Failed)))
            && (Work(pc) == Some(r) ==>
                  Work(pc') == Some(r) || pc' == Done(Tunnel(r)) || (pc' == Done(Failed) && m'.raws[r].closed))
  {
  }

  /** A new connection is the work of the call that dialed it. */
  lemma ActDials(m: Shared, i: nat, pc: Pc, answer: Answer, r: nat)
    requires Runnable(m, pc) && |m.raws| <= r < |Act(m, i, pc, answer).0.raws|
    ensures var (m', pc') := Act(m, i, pc, answer);
            m'.raws[r].dialer == i && !m'.raws[r].closed && Work(pc') == Some(r)
  {
  }

  /** What the other calls rely on survives a step of call `i`. */
  lemma OtherKeeps(m: Shared, m': Shared, i: nat, holds: bool, j: nat, pc: Pc)
    requires Effect(m, m', i, holds) && (holds ==> m.lck == Some(i)) && i != j
    requires LocksOk(m, j, pc) && ThreadOk(m, j, pc)
    ensures LocksOk(m', j, pc) && ThreadOk(m', j, pc)
  {
  }

  lemma MoverOk(s: State, i: nat, answer: Answer)
    requires Inv(s) && CanAdvance(s, i)
    ensures var (m', pc') := Act(s.m, i, s.threads[i], answer); LocksOk(m', i, pc') && ThreadOk(m', i, pc')
  {
    var pc := s.threads[i];
    assert LocksOk(s.m, i, pc);
    if Early(pc) { EarlyOk(s.m, i, pc, answer); } else { LateOk(s.m, i, pc, answer); }
  }

  lemma CacheStep(s: State, i: nat, answer: Answer)
    requires Inv(s) && CanAdvance(s, i)
    ensures var s' := Next(s, Advance(i, answer)); CacheOk(s'.m, Storing(s'))
  {
    var pc := s.threads[i];
    assert LocksOk(s.m, i, pc) && ThreadOk(s.m, i, pc);
    ActCache(s.m, i, pc, answer, Storing(s));
    ActEffect(s.m, i, pc, answer);
  }

  lemma RawsStep(s: State, i: nat, answer: Answer, r: nat)
    requires Inv(s) && CanAdvance(s, i) && r < |Next(s, Advance(i, answer)).m.raws|
    ensures var s' := Next(s, Advance(i, answer));
            s'.m.raws[r].dialer < |s'.threads| && RawOk(s'.m, r, s'.threads[s'.m.raws[r].dialer])
  {
    var pc := s.threads[i];
    assert LocksOk(s.m, i, pc) && ThreadOk(s.m, i, pc);
    ActEffect(s.m, i, pc, answer);
    if r < |s.m.raws| {
      assert RawOk(s.m, r, s.threads[s.m.raws[r].dialer]);
      ActCloses(s.m, i, pc, answer, r);
    } else {
      ActDials(s.m, i, pc, answer, r);
    }
  }

  lemma InvStep(s: State, step: Step)
    requires Inv(s) && Enabled(s, step)
    ensures Inv(Next(s, step))
  {
    var s' := Next(s, step);
    match step
    case Begin =>
      forall r: nat | r < |s'.m.raws|
        ensures s'.m.raws[r].dialer < |s'.threads| && RawOk(s'.m, r, s'.threads[s'.m.raws[r].dialer])
      {
        assert RawOk(s.m, r, s.threads[s.m.raws[r].dialer]);
      }
    case Advance(i, answer) =>
      var pc := s.threads[i];
      assert LocksOk(s.m, i, pc);
      ActEffect(s.m, i, pc, answer);
      CacheStep(s, i, answer);
      forall j: nat | j < |s'.threads| ensures LocksOk(s'.m, j, s'.threads[j]) && ThreadOk(s'.m, j, s'.threads[j]) {
        if j == i { MoverOk(s, i, answer); } else { OtherKeeps(s.m, s'.m, i, HoldsLock(pc), j, s.threads[j]); }
      }
      forall r: nat | r < |s'.m.raws|
        ensures s'.m.raws[r].dialer < |s'.threads| && RawOk(s'.m, r, s'.threads[s'.m.raws[r].dialer])
      {
        RawsStep(s, i, answer, r);
      }
  }

  lemma {:induction false} InvHolds(s: State, run: seq<Step>)
    requires Inv(s) && Feasible(s, run)
    ensures Inv(Exec(s, run))
    decreases |run|
  {
    if run != [] {
      InvStep(s, run[0]);
      InvHolds(Next(s, run[0]), run[1..]);
    }
  }

  // ---------------------------------------------------------------- what a run keeps

  /** Whenever the cache lock is free, the two cache fields are both empty or both name the same
      connection, which speaks HTTP/2 and had a CONNECT answered with 200. */
  lemma CacheNamesOneAcceptedConnection(reuse: bool, run: seq<Step>)
    requires Feasible(Init(reuse), run)
    requires Exec(Init(reuse), run).m.lck.None?
    ensures var m := Exec(Init(reuse), run).m;
            && m.cachedClient == m.cachedRaw
            && (m.cachedRaw.Some? ==>
                  && m.cachedRaw.value < |m.raws|
                  && m.raws[m.cachedRaw.value].proto.Http2?
                  && m.raws[m.cachedRaw.value].accepted)
  {
    InvHolds(Init(reuse), run);
  }

  /** No call holds the lock while it waits for the network or after it returned, no call releases it
      without holding it, and the holder's next step needs no other call to move first. */
  lemma NoLockOverTheNetwork(reuse: bool, run: seq<Step>, i: nat)
    requires Feasible(Init(reuse), run)
    requires i < |Exec(Init(reuse), run).threads|
    ensures var s := Exec(Init(reuse), run);
            && (OnNetwork(s.threads[i]) || s.threads[i].Done? ==> s.m.lck != Some(i))
            && (s.threads[i].Releasing? ==> s.m.lck == Some(i))
            && (s.m.lck == Some(i) ==> CanAdvance(s, i))
            && (s.m.lck.Some? ==> s.m.lck.value < |s.threads| && CanAdvance(s, s.m.lck.value))
  {
    InvHolds(Init(reuse), run);
    var s := Exec(Init(reuse), run);
    assert LocksOk(s.m, i, s.threads[i]);
    if s.m.lck.Some? {
      var o := s.m.lck.value;
      assert LocksOk(s.m, o, s.threads[o]) && ThreadOk(s.m, o, s.threads[o]);
    }
  }

  /** Whenever a call is unfinished, some call can move. */
  lemma SomeCallCanMove(reuse: bool, run: seq<Step>, i: nat) returns (j: nat)
    requires Feasible(Init(reuse), run)
    requires i < |Exec(Init(reuse), run).threads| && !Exec(Init(reuse), run).threads[i].Done?
    ensures CanAdvance(Exec(Init(reuse), run), j)
  {
    var s := Exec(Init(reuse), run);
    NoLockOverTheNetwork(reuse, run, i);
    j := if s.m.lck.Some? then s.m.lck.value else i;
  }

  /** Every tunnel returned runs over a connection that answered a CONNECT with 200. */
  lemma TunnelsWereAccepted(reuse: bool, run: seq<Step>, i: nat)
    requires Feasible(Init(reuse), run)
    requires i < |Exec(Init(reuse), run).threads| && Exec(Init(reuse), run).threads[i].Done?
    requires Exec(Init(reuse), run).threads[i].result.Tunnel?
    ensures var s := Exec(Init(reuse), run);
            s.threads[i].result.raw < |s.m.raws| && s.m.raws[s.threads[i].result.raw].accepted
  {
    InvHolds(Init(reuse), run);
    var s := Exec(Init(reuse), run);
    assert ThreadOk(s.m, i, s.threads[i]);
  }

  /** Once the call that dialed a connection has returned, the connection is the tunnel it returned,
      or the call failed and closed it: a failure after the protocol choice loses no connection. */
  lemma NoConnectionIsLost(reuse: bool, run: seq<Step>, r: nat)
    requires Feasible(Init(reuse), run)
    requires r < |Exec(Init(reuse), run).m.raws|
    ensures var s := Exec(Init(reuse), run);
            var raw := s.m.raws[r];
            && raw.dialer < |s.threads|
            && (s.threads[raw.dialer].Done? ==>
                  s.threads[raw.dialer].result == Tunnel(r) || (s.threads[raw.dialer].result.Failed? && raw.closed))
  {
    InvHolds(Init(reuse), run);
    var s := Exec(Init(reuse), run);
    assert RawOk(s.m, r, s.threads[s.m.raws[r].dialer]);
  }

  /** The dialer never closes a connection it returned, except one that is shared: an HTTP/2
      connection of a dialer that reuses connections. */
  lemma OnlySharedTunnelsAreClosed(reuse: bool, run: seq<Step>, i: nat)
    requires Feasible(Init(reuse), run)
    requires i < |Exec(Init(reuse), run).threads| && Exec(Init(reuse), run).threads[i].Done?
    requires Exec(Init(reuse), run).threads[i].result.Tunnel?
    requires var s := Exec(Init(reuse), run);
             var r := s.threads[i].result.raw; r < |s.m.raws| && s.m.raws[r].closed
    ensures reuse && Exec(Init(reuse), run).m.raws[Exec(Init(reuse), run).threads[i].result.raw].proto.Http2?
  {
    InvHolds(Init(reuse), run);
    ReuseIsFixed(Init(reuse), run);
    var s := Exec(Init(reuse), run);
    var r := s.threads[i].result.raw;
    assert ThreadOk(s.m, i, s.threads[i]);
    assert RawOk(s.m, r, s.threads[s.m.raws[r].dialer]);
  }

  lemma {:induction false} ReuseIsFixed(s: State, run: seq<Step>)
    requires Inv(s) && Feasible(s, run)
    ensures Exec(s, run).m.reuse == s.m.reuse
    decreases |run|
  {
    if run != [] {
      InvStep(s, run[0]);
      if run[0].Advance? {
        assert LocksOk(s.m, run[0].i, s.threads[run[0].i]);
        ActEffect(s.m, run[0].i, s.threads[run[0].i], run[0].answer);
      }
      ReuseIsFixed(Next(s, run[0]), run[1..]);
    }
  }

  // ---------------------------------------------------------------- a failed reuse

  const YES := Answer(true, Http2, false)
  const NO := Answer(false, Http2, false)

  /** A new call `n` that takes the cached connection and whose CONNECT on it fails. */
  function FailedReuse(n: nat): seq<Step> {
    [Begin, Advance(n, YES), Advance(n, YES), Advance(n, YES), Advance(n, NO), Advance(n, NO)]
  }

  /** From every state with a free lock and a filled cache: one failed CONNECT on the cached
      connection closes it, whichever calls returned it as their tunnel before, and leaves the closed
      connection in the cache. */
  lemma FailedReuseClosesTheTunnelsOfOthers(s: State)
    requires Inv(s) && s.m.reuse && s.m.lck.None? && s.m.cachedRaw.Some?
    ensures Feasible(s, FailedReuse(|s.threads|))
    ensures var s' := Exec(s, FailedReuse(|s.threads|));
            && s'.m.cachedRaw == s.m.cachedRaw
            && s'.m.cachedRaw.value < |s'.m.raws| && s'.m.raws[s'.m.cachedRaw.value].closed
            && s'.threads == s.threads + [Dialing]
  {
    assert CacheOk(s.m, false) && Cacheable(s.m, s.m.cachedRaw.value);
    FailedReuseRuns(s.threads, s.m, s.m.cachedRaw.value);
  }

  lemma FailedReuseRuns(others: seq<Pc>, m: Shared, r: nat)
    requires m.reuse && m.lck.None? && m.cachedClient == m.cachedRaw == Some(r)
    ensures Feasible(State(m, others), FailedReuse(|others|))
    ensures Exec(State(m, others), FailedReuse(|others|)) == State(Close(m, r), others + [Dialing])
  {
    var held := m.(lck := Some(|others|));
    TakesCached(others, m, r);
    FailsOnCached(others, m, r);
    assert Moves(State(m, others), Begin, State(m, others + [Start]));
    Chain6(State(m, others), FailedReuse(|others|), State(m, others + [Start]), State(held, others + [Checking]),
           State(held, others + [Releasing(Reusing(r, r))]), State(m, others + [Reusing(r, r)]),
           State(m, others + [ReuseFailed(r)]), State(Close(m, r), others + [Dialing]));
  }

  predicate Moves(s: State, step: Step, s': State) {
    Enabled(s, step) && Next(s, step) == s'
  }

  lemma LastCallMoves(others: seq<Pc>, m: Shared, pc: Pc, answer: Answer, m': Shared, pc': Pc)
    requires Runnable(m, pc) && Act(m, |others|, pc, answer) == (m', pc')
    ensures Moves(State(m, others + [pc]), Advance(|others|, answer), State(m', others + [pc']))
  {
    assert (others + [pc])[|others| := pc'] == others + [pc'];
  }

  lemma TakesCached(others: seq<Pc>, m: Shared, r: nat)
    requires m.reuse && m.lck.None? && m.cachedClient == m.cachedRaw == Some(r)
    ensures var n, held := |others|, m.(lck := Some(|others|));
            && Moves(State(m, others + [Start]), Advance(n, YES), State(held, others + [Checking]))
            && Moves(State(held, others + [Checking]), Advance(n, YES),
                     State(held, others + [Releasing(Reusing(r, r))]))
            && Moves(State(held, others + [Releasing(Reusing(r, r))]), Advance(n, YES),
                     State(m, others + [Reusing(r, r)]))
  {
    var held := m.(lck := Some(|others|));
    LastCallMoves(others, m, Start, YES, held, Checking);
    LastCallMoves(others, held, Checking, YES, held, Releasing(Reusing(r, r)));
    LastCallMoves(others, held, Releasing(Reusing(r, r)), YES, m, Reusing(r, r));
  }

  lemma FailsOnCached(others: seq<Pc>, m: Shared, r: nat)
    ensures Moves(State(m, others + [Reusing(r, r)]), Advance(|others|, NO), State(m, others + [ReuseFailed(r)]))
    ensures Moves(State(m, others + [ReuseFailed(r)]), Advance(|others|, NO), State(Close(m, r), others + [Dialing]))
  {
    LastCallMoves(others, m, Reusing(r, r), NO, m, ReuseFailed(r));
    LastCallMoves(others, m, ReuseFailed(r), NO, Close(m, r), Dialing);
  }

  lemma Chain6(s: State, run: seq<Step>, s1: State, s2: State, s3: State, s4: State, s5: State, s6: State)
    requires |run| == 6
    requires Moves(s, run[0], s1) && Moves(s1, run[1], s2) && Moves(s2, run[2], s3)
    requires Moves(s3, run[3], s4) && Moves(s4, run[4], s5) && Moves(s5, run[5], s6)
    ensures Feasible(s, run) && Exec(s, run) == s6
  {
    var r1, r2, r3, r4, r5 := run[..1], run[..2], run[..3], run[..4], run[..5];
    assert [run[0]][1..] == [];
    assert r1 == [run[0]] && Feasible(s1, []) && Exec(s1, []) == s1;
    assert Feasible(s, r1) && Exec(s, r1) == s1;
    Extend(s, r1, run[1]);
    assert r2 == r1 + [run[1]];
    Extend(s, r2, run[2]);
    assert r3 == r2 + [run[2]];
    Extend(s, r3, run[3]);
    assert r4 == r3 + [run[3]];
    Extend(s, r4, run[4]);
    assert r5 == r4 + [run[4]];
    Extend(s, r5, run[5]);
    assert run == r5 + [run[5]];
  }

  // ---------------------------------------------------------------- which tunnels can still be closed

  /** The call works on connection `r`, or is about to take it from the cache. */
  predicate Touches(pc: Pc, r: nat) {
    || Work(pc) == Some(r)
    || (pc.Releasing? && pc.next.Reusing? && (pc.next.client == r || pc.next.raw == r))
    || (pc.Reusing? && (pc.client == r || pc.raw == r))
    || (pc.ReuseFailed? && pc.raw == r)
  }

  /** An open connection that is not in the cache and that no call touches. */
  ghost predicate Untouched(s: State, r: nat) {
    Aside(s.m, r) && forall i: nat :: i < |s.threads| ==> !Touches(s.threads[i], r)
  }

  /** The connection is open and not in the cache. */
  predicate Aside(m: Shared, r: nat) {
    r < |m.raws| && !m.raws[r].closed && m.cachedClient != Some(r) && m.cachedRaw != Some(r)
  }

  lemma EarlyLeavesAside(m: Shared, i: nat, pc: Pc, answer: Answer, r: nat)
    requires Aside(m, r) && Early(pc) && ThreadOk(m, i, pc) && !Touches(pc, r)
    ensures Aside(ActEarly(m, i, pc, answer).0, r) && !Touches(ActEarly(m, i, pc, answer).1, r)
  {
  }

  lemma LateLeavesAside(m: Shared, i: nat, pc: Pc, answer: Answer, r: nat)
    requires Aside(m, r) && !Early(pc) && !Touches(pc, r)
    ensures Aside(ActLate(m, i, pc, answer).0, r) && !Touches(ActLate(m, i, pc, answer).1, r)
  {
  }

  lemma UntouchedStep(s: State, step: Step, r: nat)
    requires Inv(s) && Enabled(s, step) && Untouched(s, r)
    ensures Untouched(Next(s, step), r)
  {
    if step.Advance? {
      var pc := s.threads[step.i];
      assert ThreadOk(s.m, step.i, pc) && !Touches(pc, r);
      if Early(pc) {
        EarlyLeavesAside(s.m, step.i, pc, step.answer, r);
      } else {
        LateLeavesAside(s.m, step.i, pc, step.answer, r);
      }
    }
  }

  lemma {:induction false} UntouchedStaysOpen(s: State, run: seq<Step>, r: nat)
    requires Inv(s) && Feasible(s, run) && Untouched(s, r)
    ensures Untouched(Exec(s, run), r)
    decreases |run|
  {
    if run != [] {
      InvStep(s, run[0]);
      UntouchedStep(s, run[0], r);
      UntouchedStaysOpen(Next(s, run[0]), run[1..], r);
    }
  }

  ghost predicate CanBeClosed(s: State, r: nat) {
    exists run :: Feasible(s, run) && r < |Exec(s, run).m.raws| && Exec(s, run).m.raws[r].closed
  }

  /** When all calls have returned, an open connection can still be closed by the dialer, in whatever
      calls follow, if and only if reuse is on and it is the cached one: a tunnel that was replaced
      in the cache is safe. */
  lemma CanBeClosedIffCached(reuse: bool, run: seq<Step>, r: nat)
    requires Feasible(Init(reuse), run)
    requires var s := Exec(Init(reuse), run);
             && (forall i: nat :: i < |s.threads| ==> s.threads[i].Done?)
             && r < |s.m.raws| && !s.m.raws[r].closed
    ensures var s := Exec(Init(reuse), run);
            CanBeClosed(s, r) <==> s.m.reuse && s.m.cachedRaw == Some(r)
  {
    InvHolds(Init(reuse), run);
    QuietCanBeClosedIff(Exec(Init(reuse), run), r);
  }

  lemma QuietCanBeClosedIff(s: State, r: nat)
    requires Inv(s) && forall i: nat :: i < |s.threads| ==> s.threads[i].Done?
    requires r < |s.m.raws| && !s.m.raws[r].closed
    ensures CanBeClosed(s, r) <==> s.m.reuse && s.m.cachedRaw == Some(r)
  {
    LockIsFree(s);
    if s.m.cachedRaw == Some(r) {
      assert Cacheable(s.m, r);
      FailedReuseClosesTheTunnelsOfOthers(s);
    } else {
      assert Untouched(s, r);
      forall run | Feasible(s, run) ensures !(r < |Exec(s, run).m.raws| && Exec(s, run).m.raws[r].closed) {
        UntouchedStaysOpen(s, run, r);
      }
    }
  }

  lemma LockIsFree(s: State)
    requires Inv(s) && forall i: nat :: i < |s.threads| ==> s.threads[i].Done?
    ensures s.m.lck.None? && CacheOk(s.m, false)
  {
    assert s.m.lck.Some? ==> LocksOk(s.m, s.m.lck.value, s.threads[s.m.lck.value]);
  }
}
