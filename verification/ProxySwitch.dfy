/** Proxy switching of the client: `SetProxy` with its rollback, and `DoWithProxy` calls that
    interleave with each other and with plain `Do` calls. */
module ProxySwitch {
  import opened Options

  /** A transport, and the proxy URL whose dialer it was built with. */
  datatype Transport = Transport(id: nat, url: string)

  // ---------------------------------------------------------------- SetProxy, on values

  datatype Client = Client(proxyUrl: string, transport: Transport, built: nat)

  /** `applyProxy`; `ok` is the answer of the dialer constructor. */
  function Apply(c: Client, ok: bool): Client {
    if ok then c.(transport := Transport(c.built, c.proxyUrl), built := c.built + 1) else c
  }

  /** `SetProxy` and whether it returned an error; `ok` and `ok2` are the answers for the new
      proxy and for the rollback. */
  function SetProxy(c: Client, url: string, ok: bool, ok2: bool): (Client, bool) {
    var applied := Apply(c.(proxyUrl := url), ok);
    if ok then (applied, false) else (Apply(applied.(proxyUrl := c.proxyUrl), ok2), !ok2)
  }

  /** A call of `SetProxy` with the answers its dialer constructions got. */
  datatype Switch = Switch(url: string, ok: bool, ok2: bool)

  function SwitchAll(c: Client, calls: seq<Switch>): Client
    decreases |calls|
  {
    if calls == [] then c else SwitchAll(SetProxy(c, calls[0].url, calls[0].ok, calls[0].ok2).0, calls[1..])
  }

  /** The proxy set by the last call whose own apply succeeded. */
  function LastApplied(url: string, calls: seq<Switch>): string {
    if calls == [] then url
    else if calls[|calls| - 1].ok then calls[|calls| - 1].url else LastApplied(url, calls[..|calls| - 1])
  }

  lemma {:induction false} SwitchAllEnd(c: Client, calls: seq<Switch>, last: Switch)
    ensures SwitchAll(c, calls + [last]) == SetProxy(SwitchAll(c, calls), last.url, last.ok, last.ok2).0
    decreases |calls|
  {
    if calls == [] {
      assert [last][1..] == [];
    } else {
      assert (calls + [last])[1..] == calls[1..] + [last];
      SwitchAllEnd(SetProxy(c, calls[0].url, calls[0].ok, calls[0].ok2).0, calls[1..], last);
    }
  }

  /** After any sequence of calls with arbitrary answers, the transport is the one built from the
      current proxy URL, which is that of the last call whose own apply succeeded; and the next
      call changes the URL exactly if it succeeds, and fails only if its rollback fails too. */
  lemma {:induction false} TransportFollowsProxy(c: Client, calls: seq<Switch>, next: Switch)
    requires c.transport.url == c.proxyUrl
    ensures var d := SwitchAll(c, calls);
            var (e, failed) := SetProxy(d, next.url, next.ok, next.ok2);
            && d.transport.url == d.proxyUrl == LastApplied(c.proxyUrl, calls)
            && e.proxyUrl == (if next.ok then next.url else d.proxyUrl)
            && (failed <==> !next.ok && !next.ok2)
            && (failed ==> e == d)
    decreases |calls|
  {
    if calls != [] {
      var front, last := calls[..|calls| - 1], calls[|calls| - 1];
      assert calls == front + [last];
      TransportFollowsProxy(c, front, last);
      SwitchAllEnd(c, front, last);
    }
  }

  // ---------------------------------------------------------------- DoWithProxy, on values

  /** The answers of the dialer constructions of one `DoWithProxy`. */
  datatype Answers = Answers(to: bool, toBack: bool, from: bool, fromBack: bool)

  /** `DoWithProxy`: the client after it, and the proxy its request ran on unless it failed before. */
  function DoWithProxy(c: Client, url: string, a: Answers): (Client, Option<string>) {
    var (d, failed) := SetProxy(c, url, a.to, a.toBack);
    if failed then (d, None) else (SetProxy(d, c.proxyUrl, a.from, a.fromBack).0, Some(d.transport.url))
  }

  /** With arbitrary answers the client comes back to its proxy exactly if the new proxy was not
      applied, or was the same, or the old one could be applied again. */
  lemma BackToOriginalIff(c: Client, url: string, a: Answers)
    requires c.transport.url == c.proxyUrl
    ensures DoWithProxy(c, url, a).0.proxyUrl == c.proxyUrl <==> !a.to || a.from || url == c.proxyUrl
    ensures DoWithProxy(c, url, a).1 == if a.to then Some(url) else if a.toBack then Some(c.proxyUrl) else None
  {
  }

  // ---------------------------------------------------------------- the machine

  datatype Call = WithProxy(url: string) | Plain

  /** Program points of `SetProxy`. */
  datatype SetPc = Assigning(target: string) | Applying(prev: string) | RollingBack(prev: string) | Reapplying

  datatype Pc =
    | Waiting                         // before taking proxyLck
    | Saving                          // currentProxy := GetProxy()
    | Entering(at: SetPc, saved: string)   // SetProxy(proxyUrl)
    | Sending(saved: string)          // Do: each send reads the client's transport
    | Leaving(at: SetPc)             // SetProxy(currentProxy)
    | Unlocking(failed: bool)         // deferred unlock
    | Done(failed: bool)

  datatype Thread = Thread(call: Call, pc: Pc)

  /** One send of a request: by which call, and on a transport built for which proxy. */
  datatype Send = Send(caller: nat, url: string)

  datatype State = State(client: Client, lck: Option<nat>, threads: seq<Thread>, sent: seq<Send>)

  /** `ok` answers a dialer construction; at `Sending` it says whether to send once more. */
  datatype Step = Begin(call: Call) | Advance(i: nat, ok: bool)

  function Init(url: string): State {
    State(Client(url, Transport(0, url), 1), None, [], [])
  }

  /** One step of `SetProxy`: the client, and where it goes on, or whether it returned an error. */
  datatype SetResult = Continue(at: SetPc) | Return(failed: bool)

  function ActSet(c: Client, at: SetPc, ok: bool): (Client, SetResult) {
    match at
    case Assigning(target) => (c.(proxyUrl := target), Continue(Applying(c.proxyUrl)))
    case Applying(prev) => (Apply(c, ok), if ok then Return(false) else Continue(RollingBack(prev)))
    case RollingBack(prev) => (c.(proxyUrl := prev), Continue(Reapplying))
    case Reapplying => (Apply(c, ok), Return(!ok))
  }

  predicate CanAdvance(s: State, i: nat) {
    && i < |s.threads|
    && !s.threads[i].pc.Done?
    && (s.threads[i].pc.Waiting? ==> s.lck.None?)
  }

  function Move(s: State, i: nat, ok: bool): State
    requires CanAdvance(s, i)
  {
    var t := s.threads[i];
    match t.pc
    case Waiting => Goto(s.(lck := Some(i)), i, Saving)
    case Saving =>
      Goto(s, i, Entering(Assigning(if t.call.WithProxy? then t.call.url else ""), s.client.proxyUrl))
    case Entering(at, saved) =>
      var (c, r) := ActSet(s.client, at, ok);
      Goto(s.(client := c), i,
           match r
           case Continue(next) => Entering(next, saved)
           case Return(failed) => if failed then Unlocking(true) else Sending(saved))
    case Sending(saved) =>
      if ok then s.(sent := s.sent + [Send(i, s.client.transport.url)])
      else Goto(s, i, if t.call.Plain? then Done(false) else Leaving(Assigning(saved)))
    case Leaving(at) =>
      var (c, r) := ActSet(s.client, at, ok);
      Goto(s.(client := c), i,
           match r
           case Continue(next) => Leaving(next)
           case Return(_) => Unlocking(false))
    case Unlocking(failed) => Goto(s.(lck := None), i, Done(failed))
    case Done(_) => s
  }

  function Goto(s: State, i: nat, pc: Pc): State
    requires i < |s.threads|
  {
    s.(threads := s.threads[i := s.threads[i].(pc := pc)])
  }

  predicate Enabled(s: State, step: Step) {
    step.Begin? || CanAdvance(s, step.i)
  }

  function Next(s: State, step: Step): State
    requires Enabled(s, step)
  {
    match step
    case Begin(call) => s.(threads := s.threads + [Thread(call, if call.Plain? then Sending("") else Waiting)])
    case Advance(i, ok) => Move(s, i, ok)
  }

  predicate Feasible(s: State, run: seq<Step>)
    decreases |run|
  {
    run == [] || (Enabled(s, run[0]) && Feasible(Next(s, run[0]), run[1..]))
  }

  function Exec(s: State, run: seq<Step>): State
    requires Feasible(s, run)
    decreases |run|
  {
    if run == [] then s else Exec(Next(s, run[0]), run[1..])
  }

  // ---------------------------------------------------------------- a deterministic constructor

  predicate Builds(pc: Pc) {
    (pc.Entering? || pc.Leaving?) && (pc.at.Applying? || pc.at.Reapplying?)
  }

  /** The dialer constructor answers as `usable` says. */
  predicate Answered(usable: string -> bool, s: State, step: Step)
    requires Enabled(s, step)
  {
    step.Advance? && Builds(s.threads[step.i].pc) ==> step.ok == usable(s.client.proxyUrl)
  }

  predicate Lawful(usable: string -> bool, s: State, run: seq<Step>): (b: bool)
    ensures b ==> Feasible(s, run)
    decreases |run|
  {
    run == [] || (Enabled(s, run[0]) && Answered(usable, s, run[0]) && Lawful(usable, Next(s, run[0]), run[1..]))
  }

  /** The proxy a call should run on. */
  function Target(usable: string -> bool, orig: string, call: Call): string {
    if call.WithProxy? && usable(call.url) then call.url else orig
  }

  predicate ClientIs(c: Client, proxyUrl: string, transport: string) {
    c.proxyUrl == proxyUrl && c.transport.url == transport
  }

  /** What holds of the client while a call at this point holds `proxyLck`. */
  predicate HolderOk(usable: string -> bool, orig: string, c: Client, t: Thread) {
    var target := Target(usable, orig, t.call);
    t.call.WithProxy? &&
    match t.pc
    case Saving => ClientIs(c, orig, orig)
    case Entering(Assigning(url), saved) => saved == orig && url == t.call.url && ClientIs(c, orig, orig)
    case Entering(Applying(prev), saved) => saved == orig && prev == orig && ClientIs(c, t.call.url, orig)
    case Entering(RollingBack(prev), saved) => saved == orig && prev == orig && !usable(t.call.url)
        && ClientIs(c, t.call.url, orig)
    case Entering(Reapplying, saved) => saved == orig && !usable(t.call.url) && ClientIs(c, orig, orig)
    case Sending(saved) => saved == orig && ClientIs(c, target, target)
    case Leaving(Assigning(url)) => url == orig && ClientIs(c, target, target)
    case Leaving(Applying(_)) => ClientIs(c, orig, target)
    case Leaving(_) => false
    case Unlocking(failed) => !failed && ClientIs(c, orig, orig)
    case _ => false
  }

  predicate Holds(t: Thread) {
    t.call.WithProxy? && !t.pc.Waiting? && !t.pc.Done?
  }

  predicate ThreadOk(usable: string -> bool, orig: string, s: State, i: nat)
    requires i < |s.threads|
  {
    var t := s.threads[i];
    && (Holds(t) <==> s.lck == Some(i))
    && (Holds(t) ==> HolderOk(usable, orig, s.client, t))
    && (t.call.Plain? ==> t.pc.Sending? || t.pc.Done?)
    && (t.pc.Done? ==> !t.pc.failed)
  }

  ghost predicate SentOk(usable: string -> bool, orig: string, s: State) {
    forall k :: 0 <= k < |s.sent| ==>
      && s.sent[k].caller < |s.threads|
      && (s.threads[s.sent[k].caller].call.WithProxy? ==>
            s.sent[k].url == Target(usable, orig, s.threads[s.sent[k].caller].call))
  }

  ghost predicate Inv(usable: string -> bool, orig: string, s: State) {
    && (s.lck.None? ==> ClientIs(s.client, orig, orig))
    && (s.lck.Some? ==> s.lck.value < |s.threads|)
    && (forall i: nat :: i < |s.threads| ==> ThreadOk(usable, orig, s, i))
    && SentOk(usable, orig, s)
  }

  lemma MoverOk(usable: string -> bool, orig: string, s: State, i: nat, ok: bool)
    requires usable(orig) && CanAdvance(s, i) && ThreadOk(usable, orig, s, i)
    requires s.lck.None? ==> ClientIs(s.client, orig, orig)
    requires Answered(usable, s, Advance(i, ok))
    ensures var s' := Move(s, i, ok);
            && ThreadOk(usable, orig, s', i)
            && (s'.lck.None? ==> ClientIs(s'.client, orig, orig))
            && (s'.client == s.client || s.lck == Some(i))
            && (s'.lck == s.lck || (s.lck.None? && s'.lck == Some(i)) || (s.lck == Some(i) && s'.lck.None?))
  {
    match s.threads[i].pc {
      case Entering(at, saved) =>
        match at { case Assigning(_) => case Applying(_) => case RollingBack(_) => case Reapplying => }
      case Leaving(at) =>
        match at { case Assigning(_) => case Applying(_) => case RollingBack(_) => case Reapplying => }
      case _ =>
    }
  }

  lemma InvStep(usable: string -> bool, orig: string, s: State, step: Step)
    requires usable(orig) && Inv(usable, orig, s) && Enabled(s, step) && Answered(usable, s, step)
    ensures Inv(usable, orig, Next(s, step))
  {
    var s' := Next(s, step);
    if step.Advance? {
      var i := step.i;
      assert ThreadOk(usable, orig, s, i);
      MoverOk(usable, orig, s, i, step.ok);
      forall j: nat | j < |s'.threads| ensures ThreadOk(usable, orig, s', j) {
        assert ThreadOk(usable, orig, s, j);
        if j != i { assert s'.threads[j] == s.threads[j]; }
      }
    } else {
      forall j: nat | j < |s'.threads| ensures ThreadOk(usable, orig, s', j) {
        if j < |s.threads| { assert ThreadOk(usable, orig, s, j) && s'.threads[j] == s.threads[j]; }
      }
    }
  }

  lemma {:induction false} InvHolds(usable: string -> bool, orig: string, s: State, run: seq<Step>)
    requires usable(orig) && Inv(usable, orig, s) && Lawful(usable, s, run)
    ensures Inv(usable, orig, Exec(s, run))
    decreases |run|
  {
    if run != [] {
      InvStep(usable, orig, s, run[0]);
      InvHolds(usable, orig, Next(s, run[0]), run[1..]);
    }
  }

  /** In every interleaving of calls, with a deterministic dialer constructor: each send of a
      `DoWithProxy` runs on a transport built for its own proxy if that is usable and for the
      client's original one otherwise; no call fails on its proxy; and whenever `proxyLck` is free
      the client is back on its original proxy. */
  lemma EachRequestOnItsProxy(usable: string -> bool, orig: string, run: seq<Step>)
    requires usable(orig) && Lawful(usable, Init(orig), run)
    ensures var s := Exec(Init(orig), run);
            && (forall k :: 0 <= k < |s.sent| ==>
                  && s.sent[k].caller < |s.threads|
                  && (s.threads[s.sent[k].caller].call.WithProxy? ==>
                        s.sent[k].url == Target(usable, orig, s.threads[s.sent[k].caller].call)))
            && (forall i: nat :: i < |s.threads| && s.threads[i].pc.Done? ==> !s.threads[i].pc.failed)
            && (s.lck.None? ==> s.client.proxyUrl == orig && s.client.transport.url == orig)
  {
    InvHolds(usable, orig, Init(orig), run);
    var s := Exec(Init(orig), run);
    forall i: nat | i < |s.threads| && s.threads[i].pc.Done? ensures !s.threads[i].pc.failed {
      assert ThreadOk(usable, orig, s, i);
    }
  }

  /** The holder has put its own proxy in place and not yet taken it back. */
  predicate Switched(usable: string -> bool, orig: string, t: Thread) {
    && t.call.WithProxy? && Target(usable, orig, t.call) != orig
    && (t.pc.Sending? || (t.pc.Leaving? && (t.pc.at.Assigning? || t.pc.at.Applying?)))
  }

  /** A plain `Do` takes no lock: a send of it runs on the original proxy except exactly while some
      `DoWithProxy` has another one in place. */
  lemma PlainSendsElsewhereIff(usable: string -> bool, orig: string, run: seq<Step>)
    requires usable(orig) && Lawful(usable, Init(orig), run)
    ensures var s := Exec(Init(orig), run);
            s.client.transport.url != orig <==> exists i: nat :: i < |s.threads| && Switched(usable, orig, s.threads[i])
  {
    InvHolds(usable, orig, Init(orig), run);
    var s := Exec(Init(orig), run);
    forall i: nat | i < |s.threads| && Switched(usable, orig, s.threads[i]) ensures s.client.transport.url != orig {
      assert ThreadOk(usable, orig, s, i);
    }
    if s.client.transport.url != orig {
      var i := s.lck.value;
      assert ThreadOk(usable, orig, s, i);
      assert Switched(usable, orig, s.threads[i]);
    }
  }

  // ---------------------------------------------------------------- one call alone

  lemma {:induction false} Extend(s: State, run: seq<Step>, step: Step)
    requires Feasible(s, run) && Enabled(Exec(s, run), step)
    ensures Feasible(s, run + [step]) && Exec(s, run + [step]) == Next(Exec(s, run), step)
    decreases |run|
  {
    if run == [] {
      assert [step][1..] == [];
    } else {
      assert (run + [step])[1..] == run[1..] + [step];
      Extend(Next(s, run[0]), run[1..], step);
    }
  }

  /** A run of `s0` in which only thread `i` moves, and which ends in `s`. */
  ghost predicate Alone(s0: State, i: nat, run: seq<Step>, s: State) {
    (forall k :: 0 <= k < |run| ==> run[k].Advance? && run[k].i == i) && Feasible(s0, run) && Exec(s0, run) == s
  }

  lemma Go(s0: State, i: nat, run: seq<Step>, s: State, ok: bool) returns (run': seq<Step>, s': State)
    requires Alone(s0, i, run, s) && CanAdvance(s, i)
    ensures s' == Move(s, i, ok) && Alone(s0, i, run', s')
  {
    Extend(s0, run, Advance(i, ok));
    run' := run + [Advance(i, ok)];
    s' := Next(s, Advance(i, ok));
  }

  /** The first `SetProxy` of a call. */
  lemma EnterAlone(s0: State, i: nat, run: seq<Step>, s: State, url: string, saved: string, ok: bool, ok2: bool)
    returns (run': seq<Step>, s': State)
    requires Alone(s0, i, run, s) && i < |s.threads|
        && s.threads[i] == Thread(WithProxy(url), Entering(Assigning(url), saved))
    ensures Alone(s0, i, run', s')
    ensures var (c, failed) := SetProxy(s.client, url, ok, ok2);
            var pc := if failed then Unlocking(true) else Sending(saved);
            s' == State(c, s.lck, s.threads[i := Thread(WithProxy(url), pc)], s.sent)
  {
    run', s' := Go(s0, i, run, s, true);
    run', s' := Go(s0, i, run', s', ok);
    if !ok {
      run', s' := Go(s0, i, run', s', true);
      run', s' := Go(s0, i, run', s', ok2);
    }
  }

  /** The last `SetProxy` of a call; its error is dropped. */
  lemma LeaveAlone(s0: State, i: nat, run: seq<Step>, s: State, url: string, saved: string, ok: bool, ok2: bool)
    returns (run': seq<Step>, s': State)
    requires Alone(s0, i, run, s) && i < |s.threads|
        && s.threads[i] == Thread(WithProxy(url), Leaving(Assigning(saved)))
    ensures Alone(s0, i, run', s')
    ensures s' == State(SetProxy(s.client, saved, ok, ok2).0, s.lck,
                        s.threads[i := Thread(WithProxy(url), Unlocking(false))], s.sent)
  {
    run', s' := Go(s0, i, run, s, true);
    run', s' := Go(s0, i, run', s', ok);
    if !ok {
      run', s' := Go(s0, i, run', s', true);
      run', s' := Go(s0, i, run', s', ok2);
    }
  }

  /** Undisturbed, a `DoWithProxy` that sends once does to the client what the function says. */
  lemma AloneDoesAsSpecified(s: State, i: nat, url: string, a: Answers)
    requires i < |s.threads| && s.threads[i] == Thread(WithProxy(url), Waiting) && s.lck.None?
    ensures exists run, s' :: Alone(s, i, run, s') &&
              var (c, used) := DoWithProxy(s.client, url, a);
              && s'.client == c && s'.lck.None?
                  && s'.threads == s.threads[i := Thread(WithProxy(url), Done(used.None?))]
              && s'.sent == if used.Some? then s.sent + [Send(i, used.value)] else s.sent
  {
    var saved := s.client.proxyUrl;
    var run, t := Go(s, i, [], s, true);
    run, t := Go(s, i, run, t, true);
    run, t := EnterAlone(s, i, run, t, url, saved, a.to, a.toBack);
    if t.threads[i].pc.Sending? {
      run, t := Go(s, i, run, t, true);
      run, t := Go(s, i, run, t, false);
      run, t := LeaveAlone(s, i, run, t, url, saved, a.from, a.fromBack);
    }
    run, t := Go(s, i, run, t, true);
  }
}
