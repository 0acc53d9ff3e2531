/** Where every dialed connection of the hand-off machine ends up: a conservation law. */
module Accounting {
  import opened Options
  import opened HandOff

  /** The places a dialed connection can be.  `k` is a position in the log of that name. */
  datatype Place =
    | InFlight(i: nat)          // thread i is working on it inside dialTLS
    | Broken(k: nat)            // its handshake failed
    | Rejected(k: nat)          // its pin check failed
    | Stashed(addr: string)     // it waits in cachedConnections
    | Handed(k: nat)            // it was returned to a caller

  function InHand(pc: Pc): Option<nat> {
    if !pc.InDial? then None
    else match pc.at
      case Handshaking(id) => Some(id)
      case Pinning(c) => Some(c.id)
      case Looking(c) => Some(c.id)
      case Building(c) => Some(c.id)
      case Stashing(c) => Some(c.id)
      case Returning(result) => if result.Got? then Some(result.conn.id) else None
      case _ => None
  }

  /** The connection is at a place recorded in the shared fields. */
  predicate Recorded(m: Shared, id: nat, p: Place) {
    match p
    case InFlight(_) => false
    case Broken(k) => k < |m.broken| && m.broken[k] == id
    case Rejected(k) => k < |m.rejected| && m.rejected[k] == id
    case Stashed(a) => a in m.stash && m.stash[a].id == id
    case Handed(k) => k < |m.handed| && m.handed[k].conn.id == id
  }

  predicate At(s: State, id: nat, p: Place) {
    if p.InFlight? then p.i < |s.threads| && InHand(s.threads[p.i].pc) == Some(id)
    else Recorded(s.m, id, p)
  }

  /** The place agrees with the address the connection was dialed for; a handed-out connection is
      the result of exactly the caller it was handed to. */
  predicate Fits(s: State, id: nat, p: Place)
    requires id < |s.m.dialed| && At(s, id, p)
  {
    match p
    case InFlight(i) => s.threads[i].call.Addr() == s.m.dialed[id]
    case Stashed(a) => a == s.m.dialed[id]
    case Handed(k) =>
      var h := s.m.handed[k];
      && h.addr == s.m.dialed[id]
      && h.caller < |s.threads|
      && s.threads[h.caller] == Thread(Redial(h.addr), Done(Dialed(Got(h.conn))))
    case _ => true
  }

  ghost predicate Somewhere(s: State, id: nat)
    requires id < |s.m.dialed|
  {
    exists p :: At(s, id, p) && Fits(s, id, p)
  }

  /** `w` lists, for each dialed connection, the one place it is at. */
  ghost predicate Accounted(s: State, w: seq<Place>) {
    && |w| == |s.m.dialed|
    && (forall id: nat, p {:trigger At(s, id, p)} :: At(s, id, p) <==> id < |w| && w[id] == p)
    && (forall id: nat {:trigger w[id]} :: id < |w| ==> At(s, id, w[id]) && Fits(s, id, w[id]))
  }

  /** The connection a step moves, and the place it moves to. */
  datatype Transfer = Stay | To(id: nat, place: Place)

  function TransferOf(m: Shared, i: nat, t: Thread, ok: bool): Transfer {
    if !t.pc.InDial? then Stay
    else
      var addr := t.call.Addr();
      match t.pc.at
      case Taking => if addr in m.stash then To(m.stash[addr].id, InFlight(i)) else Stay
      case Connecting => if ok then To(|m.dialed|, InFlight(i)) else Stay
      case Handshaking(id) => if ok then Stay else To(id, Broken(|m.broken|))
      case Pinning(c) => if ok then Stay else To(c.id, Rejected(|m.rejected|))
      case Stashing(c) => To(c.id, Stashed(addr))
      case Returning(result) => if result.Got? then To(result.conn.id, Handed(|m.handed|)) else Stay
      case _ => Stay
  }

  function Track(s: State, step: Step, w: seq<Place>): seq<Place>
    requires Enabled(s, step)
  {
    if step.Begin? then w
    else match TransferOf(s.m, step.i, s.threads[step.i], step.ok)
      case Stay => w
      case To(id, place) => if id < |w| then w[id := place] else w + [place]
  }

  /** Where the transferred connection came from; a new connection comes from nowhere. */
  predicate Leaves(m: Shared, i: nat, t: Thread, id: nat, from: Place) {
    if !t.pc.InDial? || t.pc.at.Connecting? then false
    else if t.pc.at.Taking? then from == Stashed(t.call.Addr())
    else from == InFlight(i)
  }

  lemma FlightLocal(m: Shared, i: nat, t: Thread, ok: bool, proto: Protocol)
    requires Runnable(m, t.pc) && ThreadOk(m, t)
    ensures var tr, hand := TransferOf(m, i, t, ok), InHand(Act(m, i, t, ok, proto).1);
            if !tr.To? then hand == InHand(t.pc)
            else if tr.place.InFlight? then tr.place == InFlight(i) && hand == Some(tr.id) && InHand(t.pc).None?
            else hand.None? && InHand(t.pc) == Some(tr.id)
  {
  }

  /** The logs only grow, and the stash changes only under the address of the thread. */
  lemma StashLocal(m: Shared, i: nat, t: Thread, ok: bool, proto: Protocol, id: nat, a: string)
    requires Runnable(m, t.pc) && ThreadOk(m, t)
    ensures var tr := TransferOf(m, i, t, ok);
            Recorded(Act(m, i, t, ok, proto).0, id, Stashed(a)) <==>
              || tr == To(id, Stashed(a))
              || (Recorded(m, id, Stashed(a)) && !(tr.To? && tr.id == id && Leaves(m, i, t, id, Stashed(a))))
  {
    StashChanges(m, i, t, ok, proto);
  }

  lemma StashChanges(m: Shared, i: nat, t: Thread, ok: bool, proto: Protocol)
    ensures Act(m, i, t, ok, proto).0.stash ==
              if t.pc == InDial(Taking) then m.stash - {t.call.Addr()}
              else if t.pc.InDial? && t.pc.at.Stashing? then m.stash[t.call.Addr() := t.pc.at.conn]
              else m.stash
  {
    if t.pc == InDial(Taking) && t.call.Addr() !in m.stash {
      assert m.stash - {t.call.Addr()} == m.stash;
    }
  }

  /** What a step adds to the three logs. */
  lemma LogsGrow(m: Shared, i: nat, t: Thread, ok: bool, proto: Protocol)
    ensures var m' := Act(m, i, t, ok, proto).0;
            && m'.broken == (if t.pc.InDial? && t.pc.at.Handshaking? && !ok then m.broken + [t.pc.at.id] else m.broken)
            && m'.rejected == (if t.pc.InDial? && t.pc.at.Pinning? && !ok then m.rejected + [t.pc.at.conn.id]
                else m.rejected)
            && m'.handed == (if t.pc.InDial? && t.pc.at.Returning? && t.pc.at.result.Got?
                             then m.handed + [Handout(t.pc.at.result.conn, i, t.call.Addr())] else m.handed)
  {
  }

  lemma LogLocal(m: Shared, i: nat, t: Thread, ok: bool, proto: Protocol, id: nat, p: Place)
    requires p.Broken? || p.Rejected? || p.Handed?
    ensures Recorded(Act(m, i, t, ok, proto).0, id, p) <==> TransferOf(m, i, t, ok) == To(id, p) || Recorded(m, id, p)
  {
    LogsGrow(m, i, t, ok, proto);
  }

  /** The transferred connection is new or was at the place it leaves. */
  lemma Origin(s: State, i: nat, ok: bool, w: seq<Place>)
    requires Inv(s) && CanAdvance(s, i) && Accounted(s, w)
    ensures var t, tr := s.threads[i], TransferOf(s.m, i, s.threads[i], ok);
            tr.To? ==>
              if t.pc.at.Connecting? then tr.id == |w|
              else tr.id < |w| && Leaves(s.m, i, t, tr.id, w[tr.id])
  {
    var t, tr := s.threads[i], TransferOf(s.m, i, s.threads[i], ok);
    assert ThreadOk(s.m, t);
    if tr.To? && t.pc.at.Taking? {
      assert At(s, tr.id, Stashed(t.call.Addr()));
    } else if tr.To? && !t.pc.at.Connecting? {
      assert At(s, tr.id, InFlight(i));
    }
  }

  /** One step changes the place of the transferred connection and of no other. */
  lemma AtStep(s: State, i: nat, ok: bool, proto: Protocol, w: seq<Place>, id: nat, p: Place)
    requires Inv(s) && CanAdvance(s, i) && Accounted(s, w)
    ensures var tr := TransferOf(s.m, i, s.threads[i], ok);
            At(Next(s, Advance(i, ok, proto)), id, p) <==>
              if tr.To? && tr.id == id then tr.place == p else At(s, id, p)
  {
    var t, s' := s.threads[i], Next(s, Advance(i, ok, proto));
    assert ThreadOk(s.m, t);
    assert At(s, id, p) <==> id < |w| && w[id] == p;
    Origin(s, i, ok, w);
    if p.InFlight? {
      FlightLocal(s.m, i, t, ok, proto);
      assert s'.threads == s.threads[i := t.(pc := Act(s.m, i, t, ok, proto).1)];
    } else if p.Stashed? {
      StashLocal(s.m, i, t, ok, proto, id, p.addr);
    } else {
      LogLocal(s.m, i, t, ok, proto, id, p);
    }
  }

  /** The moved connection fits its new place. */
  lemma TransferFits(s: State, i: nat, ok: bool, proto: Protocol, w: seq<Place>)
    requires Inv(s) && CanAdvance(s, i) && Accounted(s, w)
    requires TransferOf(s.m, i, s.threads[i], ok).To?
    ensures var s', tr := Next(s, Advance(i, ok, proto)), TransferOf(s.m, i, s.threads[i], ok);
            tr.id < |s'.m.dialed| && tr.id <= |w| && At(s', tr.id, tr.place) && Fits(s', tr.id, tr.place)
  {
    var t, tr := s.threads[i], TransferOf(s.m, i, s.threads[i], ok);
    Origin(s, i, ok, w);
    AtStep(s, i, ok, proto, w, tr.id, tr.place);
    DialedGrows(s.m, i, t, ok, proto);
    if !t.pc.at.Connecting? {
      assert At(s, tr.id, w[tr.id]) && Fits(s, tr.id, w[tr.id]);
    }
    if tr.place.Handed? {
      HandedLocal(s.m, i, t, ok, proto);
      assert ThreadOk(s.m, t);
    }
  }

  /** A hand-out is logged with the caller and the address it asked for. */
  lemma HandedLocal(m: Shared, i: nat, t: Thread, ok: bool, proto: Protocol)
    requires TransferOf(m, i, t, ok).To? && TransferOf(m, i, t, ok).place.Handed? && ThreadOk(m, t)
    ensures var (m', pc) := Act(m, i, t, ok, proto);
            && |m'.handed| == |m.handed| + 1
            && var h := m'.handed[|m.handed|];
               h.caller == i && h.addr == t.call.Addr() && t.call == Redial(h.addr) && pc == Done(Dialed(Got(h.conn)))
  {
  }

  /** The connections left in place still fit it. */
  lemma OthersFit(s: State, i: nat, ok: bool, proto: Protocol, id: nat, p: Place)
    requires CanAdvance(s, i) && id < |s.m.dialed| && At(s, id, p) && Fits(s, id, p)
    requires At(Next(s, Advance(i, ok, proto)), id, p)
    ensures var s' := Next(s, Advance(i, ok, proto)); id < |s'.m.dialed| && Fits(s', id, p)
  {
    var s' := Next(s, Advance(i, ok, proto));
    DialedGrows(s.m, i, s.threads[i], ok, proto);
    LogsGrow(s.m, i, s.threads[i], ok, proto);
    match p {
      case InFlight(j) =>
      case Handed(k) => assert s'.threads[s.m.handed[k].caller] == s.threads[s.m.handed[k].caller];
      case _ =>
    }
  }

  lemma DialedGrows(m: Shared, i: nat, t: Thread, ok: bool, proto: Protocol)
    ensures Act(m, i, t, ok, proto).0.dialed ==
              if t.pc == InDial(Connecting) && ok then m.dialed + [t.call.Addr()] else m.dialed
  {
  }

  lemma AccountedBegin(s: State, step: Step, w: seq<Place>)
    requires Inv(s) && Enabled(s, step) && step.Begin? && Accounted(s, w)
    ensures Accounted(Next(s, step), w)
  {
    var s' := Next(s, step);
    assert forall id: nat, p {:trigger At(s', id, p)} :: At(s', id, p) <==> At(s, id, p);
    assert forall id: nat {:trigger w[id]} :: id < |w| ==> At(s, id, w[id]) && Fits(s, id, w[id]);
  }

  /** After a step of a call each connection fits the place it is listed at. */
  lemma TrackedFits(s: State, step: Step, w: seq<Place>, id: nat)
    requires Inv(s) && Enabled(s, step) && step.Advance? && Accounted(s, w) && id < |Track(s, step, w)|
    ensures At(Next(s, step), id, Track(s, step, w)[id])
    ensures id < |Next(s, step).m.dialed| && Fits(Next(s, step), id, Track(s, step, w)[id])
  {
    var tr := TransferOf(s.m, step.i, s.threads[step.i], step.ok);
    if tr.To? {
      TransferFits(s, step.i, step.ok, step.proto, w);
    }
    if !(tr.To? && tr.id == id) {
      assert At(s, id, w[id]) && Fits(s, id, w[id]);
      AtStep(s, step.i, step.ok, step.proto, w, id, w[id]);
      OthersFit(s, step.i, step.ok, step.proto, id, w[id]);
    }
  }

  lemma AccountedStep(s: State, step: Step, w: seq<Place>)
    requires Inv(s) && Enabled(s, step) && Accounted(s, w)
    ensures Accounted(Next(s, step), Track(s, step, w))
  {
    var s', w' := Next(s, step), Track(s, step, w);
    if step.Begin? {
      AccountedBegin(s, step, w);
    } else {
      Origin(s, step.i, step.ok, w);
      forall id: nat, p {:trigger At(s', id, p)} ensures At(s', id, p) <==> id < |w'| && w'[id] == p {
        AtStep(s, step.i, step.ok, step.proto, w, id, p);
        assert At(s, id, p) <==> id < |w| && w[id] == p;
      }
      forall id: nat {:trigger w'[id]} | id < |w'| ensures At(s', id, w'[id]) && Fits(s', id, w'[id]) {
        TrackedFits(s, step, w, id);
      }
      DialedGrows(s.m, step.i, s.threads[step.i], step.ok, step.proto);
    }
  }

  lemma {:induction false} AccountedHolds(s: State, run: seq<Step>, w: seq<Place>) returns (w': seq<Place>)
    requires Inv(s) && Lawful(s, run) && Accounted(s, w)
    ensures Accounted(Exec(s, run), w')
    decreases |run|
  {
    if run == [] {
      w' := w;
    } else {
      InvStep(s, run[0]);
      AccountedStep(s, run[0], w);
      w' := AccountedHolds(Next(s, run[0]), run[1..], Track(s, run[0], w));
    }
  }

  /** In every reachable state each dialed connection is at exactly one place, under the address
      it was dialed for.  So a stash is never overwritten, no connection is handed out twice, and
      each handed-out connection is the result of one caller, which asked for that address. */
  lemma EveryConnectionAtOnePlace(handler: bool, run: seq<Step>)
    requires Lawful(Init(handler), run)
    ensures var s := Exec(Init(handler), run);
            && (forall id: nat :: id < |s.m.dialed| ==> Somewhere(s, id))
            && (forall id: nat, p, q :: At(s, id, p) && At(s, id, q) ==> p == q)
            && (forall id: nat, p :: At(s, id, p) ==> id < |s.m.dialed|)
            && (forall k, l :: 0 <= k < |s.m.handed| && 0 <= l < |s.m.handed| ==>
                  s.m.handed[k].caller == s.m.handed[l].caller ==> k == l)
  {
    var s := Exec(Init(handler), run);
    var w := AccountedHolds(Init(handler), run, []);
    forall id: nat | id < |s.m.dialed| ensures Somewhere(s, id) {
      assert At(s, id, w[id]) && Fits(s, id, w[id]);
    }
    forall k, l | 0 <= k < |s.m.handed| && 0 <= l < |s.m.handed| && s.m.handed[k].caller == s.m.handed[l].caller
      ensures k == l
    {
      var id := s.m.handed[k].conn.id;
      assert At(s, id, Handed(k)) && Fits(s, id, w[id]);
      assert At(s, s.m.handed[l].conn.id, Handed(l)) && Fits(s, s.m.handed[l].conn.id, w[s.m.handed[l].conn.id]);
      assert At(s, id, Handed(l));
    }
  }

  /** A connection whose handshake or pin check failed, or which was handed out, stays so. */
  lemma {:induction false} FatesAreFinal(s: State, run: seq<Step>, id: nat, p: Place)
    requires Feasible(s, run) && At(s, id, p) && (p.Broken? || p.Rejected? || p.Handed?)
    ensures At(Exec(s, run), id, p)
    decreases |run|
  {
    if run != [] {
      if run[0].Advance? {
        LogLocal(s.m, run[0].i, s.threads[run[0].i], run[0].ok, run[0].proto, id, p);
      }
      FatesAreFinal(Next(s, run[0]), run[1..], id, p);
    }
  }

  /** What failed its handshake or its pin check is neither stashed nor handed out, then or later. */
  lemma FailedNeverServed(handler: bool, before: seq<Step>, after: seq<Step>, id: nat, p: Place)
    requires Lawful(Init(handler), before) && Lawful(Exec(Init(handler), before), after)
    requires At(Exec(Init(handler), before), id, p) && (p.Broken? || p.Rejected?)
    ensures var s := Exec(Exec(Init(handler), before), after);
            && (forall a :: a in s.m.stash ==> s.m.stash[a].id != id)
            && (forall k :: 0 <= k < |s.m.handed| ==> s.m.handed[k].conn.id != id)
  {
    var s0 := Exec(Init(handler), before);
    var s := Exec(s0, after);
    InvHolds(Init(handler), before);
    var w0 := AccountedHolds(Init(handler), before, []);
    var w := AccountedHolds(s0, after, w0);
    FatesAreFinal(s0, after, id, p);
    forall a | a in s.m.stash ensures s.m.stash[a].id != id {
      assert At(s, s.m.stash[a].id, Stashed(a));
    }
    forall k | 0 <= k < |s.m.handed| ensures s.m.handed[k].conn.id != id {
      assert At(s, s.m.handed[k].conn.id, Handed(k));
    }
  }
}
