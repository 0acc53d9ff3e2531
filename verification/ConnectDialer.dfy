/** `connectDialer` itself: the cache fields, the lock and `DialContext` with its two closures.  Each
    statement that touches shared state is paired with the step of the machine in `Tunnels` that it
    performs, so what holds of all runs of that machine holds of every dialer. */
module ConnectDialers {
  import opened Options
  import opened Tunnels

  /** The switch on the negotiated protocol. */
  function ProtocolOf(negotiated: string): Protocol {
    if negotiated == "" || negotiated == "http/1.1" then Http1
    else if negotiated == "h2" then Http2
    else Unsupported
  }

  /** What the proxy answers during one call: whether the cached connection takes a request and
      accepts the CONNECT; whether the dial and the handshake succeed and what they negotiate; the
      four steps of an HTTP/1.1 CONNECT; and, for HTTP/2, client connection and CONNECT. */
  datatype Net = Net(
    takes: bool, reuseOk: bool,
    dials: bool, shakes: bool, negotiated: string,
    http1: int -> bool,
    wraps: bool, http2: bool)

  /** The new connection becomes a tunnel. */
  predicate Establishes(net: Net) {
    match ProtocolOf(net.negotiated)
    case Http1 => net.http1(0) && net.http1(1) && net.http1(2) && net.http1(3)
    case Http2 => net.wraps && net.http2
    case Unsupported => false
  }

  predicate Dials(net: Net) {
    net.dials && net.shakes
  }

  /** A new connection after the call that dialed it: accepted or closed. */
  function NewConn(i: nat, net: Net): Raw {
    Raw(i, ProtocolOf(net.negotiated), !Establishes(net), Establishes(net))
  }

  /** The CONNECT request, which both closures change in place. */
  class Request {
    var protoMajor: nat
    var piped: bool               // the body is the read end of a pipe

    constructor ()
      ensures protoMajor == 0 && !piped
    {
      protoMajor, piped := 0, false;
    }
  }

  class ConnectDialer {
    const enableH2ConnReuse: bool
    var cachedH2ClientConn: Option<nat>
    var cachedH2RawConn: Option<nat>
    var cacheLocked: bool         // cacheH2Mu
    var conns: seq<Raw>           // the connections to the proxy
    var lost: nat                 // connections whose handshake failed
    var calls: nat
    ghost var trace: seq<Step>    // the steps taken so far
    ghost var sys: State          // the state they lead to

    /** The history of the dialer is a run, and its fields are those of the last state. */
    ghost predicate Traced()
      reads this
    {
      && Feasible(Init(enableH2ConnReuse), trace) && Exec(Init(enableH2ConnReuse), trace) == sys && Inv(sys)
      && Agrees()
    }

    ghost predicate Agrees()
      reads this
    {
      && sys.m.reuse == enableH2ConnReuse
      && sys.m.cachedClient == cachedH2ClientConn
      && sys.m.cachedRaw == cachedH2RawConn
      && sys.m.lck.Some? == cacheLocked
      && sys.m.raws == conns
      && sys.m.handshakesLost == lost
      && |sys.threads| == calls
    }

    ghost predicate At(i: nat, pc: Pc)
      reads this`sys
    {
      i < |sys.threads| && sys.threads[i] == pc
    }

    /** Between calls the lock is free and the two cache fields name one connection that had a
        CONNECT accepted, or none. */
    ghost predicate Valid()
      reads this
    {
      && Traced() && !cacheLocked
      && cachedH2ClientConn == cachedH2RawConn
      && (cachedH2RawConn.Some? ==> CachedOk(cachedH2RawConn.value))
    }

    predicate CachedOk(r: nat)
      reads this`conns
    {
      enableH2ConnReuse && r < |conns| && conns[r].proto.Http2? && conns[r].accepted
    }

    constructor (reuse: bool)
      ensures Valid() && enableH2ConnReuse == reuse && cachedH2RawConn.None? && conns == [] && calls == 0
    {
      enableH2ConnReuse := reuse;
      cachedH2ClientConn, cachedH2RawConn, cacheLocked, conns, lost, calls := None, None, false, [], 0, 0;
      trace, sys := [], Init(reuse);
    }

    /** Record one step of the machine. */
    ghost method Record(step: Step)
      requires Feasible(Init(enableH2ConnReuse), trace) && Exec(Init(enableH2ConnReuse), trace) == sys && Inv(sys)
      requires Enabled(sys, step)
      modifies this`trace, this`sys
      ensures Feasible(Init(enableH2ConnReuse), trace) && Exec(Init(enableH2ConnReuse), trace) == sys && Inv(sys)
      ensures sys == Next(old(sys), step)
    {
      InvStep(sys, step);
      Extend(Init(enableH2ConnReuse), trace, step);
      trace, sys := trace + [step], Next(sys, step);
    }

    // ---------------------------------------------------------------- the cache

    method LockCache(i: nat)
      requires Traced() && enableH2ConnReuse && !cacheLocked && At(i, Start)
      modifies this`cacheLocked, this`trace, this`sys
      ensures Traced() && cacheLocked && At(i, Checking)
    {
      cacheLocked := true;
      Record(Advance(i, YES));
    }

    /** Look for a cached connection that can take a request. */
    method FindCached(i: nat, takes: bool) returns (hit: bool, client: nat, raw: nat)
      requires Traced() && At(i, Checking)
      modifies this`trace, this`sys
      ensures Traced() && hit == (cachedH2ClientConn.Some? && cachedH2RawConn.Some? && takes)
      ensures hit ==> cachedH2ClientConn == Some(client) && cachedH2RawConn == Some(raw)
      ensures At(i, Releasing(if hit then Reusing(client, raw) else Dialing))
    {
      hit, client, raw := false, 0, 0;
      if cachedH2ClientConn.Some? && cachedH2RawConn.Some? {
        if takes {
          hit, client, raw := true, cachedH2ClientConn.value, cachedH2RawConn.value;
        }
      }
      Record(Advance(i, Answer(takes, Http2, false)));
    }

    method UnlockCache(i: nat, ghost next: Pc)
      requires Traced() && cacheLocked && At(i, Releasing(next))
      modifies this`cacheLocked, this`trace, this`sys
      ensures Traced() && !cacheLocked && At(i, next)
    {
      cacheLocked := false;
      Record(Advance(i, YES));
    }

    method LockToStore(i: nat, raw: nat)
      requires Traced() && !cacheLocked && At(i, StoreWait(raw))
      modifies this`cacheLocked, this`trace, this`sys
      ensures Traced() && cacheLocked && At(i, StoringClient(raw))
    {
      cacheLocked := true;
      Record(Advance(i, YES));
    }

    method StoreClient(i: nat, client: nat)
      requires Traced() && At(i, StoringClient(client))
      modifies this`cachedH2ClientConn, this`trace, this`sys
      ensures Traced() && At(i, StoringRaw(client)) && cachedH2ClientConn == Some(client)
    {
      cachedH2ClientConn := Some(client);
      Record(Advance(i, YES));
    }

    method StoreRaw(i: nat, raw: nat)
      requires Traced() && At(i, StoringRaw(raw))
      modifies this`cachedH2RawConn, this`trace, this`sys
      ensures Traced() && At(i, Releasing(Done(Tunnel(raw)))) && cachedH2RawConn == Some(raw)
    {
      cachedH2RawConn := Some(raw);
      Record(Advance(i, YES));
    }

    /** Remember the client connection and the raw connection it runs on. */
    method Store(i: nat, client: nat, raw: nat)
      requires Traced() && !cacheLocked && At(i, StoreWait(raw)) && client == raw
      modifies this`cachedH2ClientConn, this`cachedH2RawConn, this`cacheLocked, this`trace, this`sys
      ensures Traced() && !cacheLocked && At(i, Done(Tunnel(raw)))
      ensures cachedH2ClientConn == Some(client) && cachedH2RawConn == Some(raw)
    {
      LockToStore(i, raw);
      StoreClient(i, client);
      StoreRaw(i, raw);
      UnlockCache(i, Done(Tunnel(raw)));
    }

    // ---------------------------------------------------------------- the two closures

    /** `rawConn.Close()` on a connection that failed. */
    method CloseRaw(i: nat, raw: nat)
      requires Traced() && raw < |conns| && (At(i, ReuseFailed(raw)) || At(i, Dropping(raw)))
      modifies this`conns, this`trace, this`sys
      ensures Traced() && conns == old(conns)[raw := old(conns)[raw].(closed := true)]
      ensures At(i, if old(At(i, Dropping(raw))) then Done(Failed) else Dialing)
    {
      conns := conns[raw := conns[raw].(closed := true)];
      Record(Advance(i, YES));
    }

    /** The round trip of the HTTP/2 CONNECT. */
    method AskHttp2(i: nat, raw: nat, ok: bool)
      requires Traced() && raw < |conns| && (At(i, Reusing(raw, raw)) || At(i, Connecting(raw)))
      modifies this`conns, this`trace, this`sys
      ensures Traced() && conns == if ok then old(conns)[raw := old(conns)[raw].(accepted := true)] else old(conns)
      ensures At(i, if old(At(i, Reusing(raw, raw))) then if ok then Done(Tunnel(raw)) else ReuseFailed(raw)
                    else if !ok then Dropping(raw)
                    else if enableH2ConnReuse then StoreWait(raw)
                    else Done(Tunnel(raw)))
    {
      if ok {
        conns := conns[raw := conns[raw].(accepted := true)];
      }
      Record(Advance(i, Answer(ok, Http2, false)));
    }

    /** `connectHttp2`. */
    method ConnectHttp2(i: nat, raw: nat, request: Request, ok: bool)
      requires Traced() && raw < |conns| && (At(i, Reusing(raw, raw)) || At(i, Connecting(raw)))
      modifies this`conns, this`trace, this`sys, request
      ensures Traced() && request.protoMajor == 2 && request.piped
      ensures conns == old(conns)[raw := if ok then old(conns)[raw].(accepted := true)
          else old(conns)[raw].(closed := true)]
      ensures At(i, if old(At(i, Reusing(raw, raw))) then if ok then Done(Tunnel(raw)) else Dialing
                    else if !ok then Done(Failed)
                    else if enableH2ConnReuse then StoreWait(raw)
                    else Done(Tunnel(raw)))
    {
      request.protoMajor := 2;
      request.piped := true;
      AskHttp2(i, raw, ok);
      if !ok {
        CloseRaw(i, raw);
      }
    }

    /** One step of the HTTP/1.1 CONNECT; the last one finds status 200. */
    method Talk(i: nat, raw: nat, stage: nat, ok: bool)
      requires Traced() && raw < |conns| && stage < 4 && At(i, Talking(raw, stage))
      modifies this`conns, this`trace, this`sys
      ensures Traced()
      ensures conns == if ok && stage == 3 then old(conns)[raw := old(conns)[raw].(accepted := true)] else old(conns)
      ensures At(i, if !ok then Dropping(raw) else if stage < 3 then Talking(raw, stage + 1) else Done(Tunnel(raw)))
    {
      if ok && stage == 3 {
        conns := conns[raw := conns[raw].(accepted := true)];
      }
      Record(Advance(i, Answer(ok, Http1, false)));
    }

    method TalkOrClose(i: nat, raw: nat, stage: nat, ok: bool)
      requires Traced() && raw < |conns| && stage < 4 && At(i, Talking(raw, stage))
      modifies this`conns, this`trace, this`sys
      ensures Traced()
      ensures !ok ==> conns == old(conns)[raw := old(conns)[raw].(closed := true)] && At(i, Done(Failed))
      ensures ok && stage < 3 ==> conns == old(conns) && At(i, Talking(raw, stage + 1))
      ensures ok && stage == 3 ==>
                conns == old(conns)[raw := old(conns)[raw].(accepted := true)] && At(i, Done(Tunnel(raw)))
    {
      Talk(i, raw, stage, ok);
      if !ok {
        CloseRaw(i, raw);
      }
    }

    /** Set the deadline and write the request. */
    method Ask(i: nat, raw: nat, answers: int -> bool) returns (ok: bool)
      requires Traced() && raw < |conns| && At(i, Talking(raw, 0))
      modifies this`conns, this`trace, this`sys
      ensures Traced() && ok == (answers(0) && answers(1))
      ensures conns == if ok then old(conns) else old(conns)[raw := old(conns)[raw].(closed := true)]
      ensures At(i, if ok then Talking(raw, 2) else Done(Failed))
    {
      ok := answers(0);
      TalkOrClose(i, raw, 0, ok);
      if ok {
        ok := answers(1);
        TalkOrClose(i, raw, 1, ok);
      }
    }

    /** Read the response and look at its status. */
    method Hear(i: nat, raw: nat, answers: int -> bool) returns (ok: bool)
      requires Traced() && raw < |conns| && At(i, Talking(raw, 2))
      modifies this`conns, this`trace, this`sys
      ensures Traced() && ok == (answers(2) && answers(3))
      ensures conns == Tried(old(conns), raw, ok)
      ensures At(i, Done(if ok then Tunnel(raw) else Failed))
    {
      ok := answers(2);
      TalkOrClose(i, raw, 2, ok);
      if ok {
        ok := answers(3);
        TalkOrClose(i, raw, 3, ok);
      }
    }

    /** `connectHttp1`. */
    method ConnectHttp1(i: nat, raw: nat, request: Request, answers: int -> bool) returns (ok: bool)
      requires Traced() && raw < |conns| && At(i, Talking(raw, 0))
      modifies this`conns, this`trace, this`sys, request
      ensures Traced() && request.protoMajor == 1 && request.piped == old(request.piped)
      ensures ok == (answers(0) && answers(1) && answers(2) && answers(3))
      ensures conns == Tried(old(conns), raw, ok)
      ensures At(i, Done(if ok then Tunnel(raw) else Failed))
    {
      request.protoMajor := 1;
      ok := Ask(i, raw, answers);
      if ok {
        ok := Hear(i, raw, answers);
      }
    }

    // ---------------------------------------------------------------- DialContext

    /** Without reuse the cache is not looked at. */
    ghost method SkipCache(i: nat)
      requires Traced() && !enableH2ConnReuse && At(i, Start)
      modifies this`trace, this`sys
      ensures Traced() && At(i, Dialing)
    {
      Record(Advance(i, YES));
    }

    /** Look at the cache under its lock, and let go of the lock before any use of the network. */
    method TakeCached(i: nat, takes: bool) returns (hit: bool, client: nat, raw: nat)
      requires Traced() && enableH2ConnReuse && !cacheLocked && At(i, Start) && cachedH2ClientConn == cachedH2RawConn
      modifies this`cacheLocked, this`trace, this`sys
      ensures Traced() && !cacheLocked && hit == (cachedH2RawConn.Some? && takes)
      ensures hit ==> client == raw == cachedH2RawConn.value
      ensures At(i, if hit then Reusing(raw, raw) else Dialing)
    {
      LockCache(i);
      hit, client, raw := FindCached(i, takes);
      UnlockCache(i, if hit then Reusing(client, raw) else Dialing);
    }

    /** The cached connection takes this call. */
    predicate Tries(net: Net)
      reads this
    {
      enableH2ConnReuse && cachedH2RawConn.Some? && net.takes
    }

    /** Try the cached connection. */
    method Reuse(i: nat, request: Request, net: Net) returns (result: Option<nat>)
      requires Valid() && At(i, Start)
      modifies this`cacheLocked, this`conns, this`trace, this`sys, request
      ensures Traced() && !cacheLocked
      ensures result == if Tries(net) && net.reuseOk then cachedH2RawConn else None
      ensures At(i, if result.Some? then Done(Tunnel(result.value)) else Dialing)
      ensures conns == if Tries(net) then Tried(old(conns), cachedH2RawConn.value, net.reuseOk) else old(conns)
      ensures request.piped == (old(request.piped) || Tries(net)) && (Tries(net) ==> request.protoMajor == 2)
    {
      result := None;
      if enableH2ConnReuse {
        var hit, client, raw := TakeCached(i, net.takes);
        if hit {
          ConnectHttp2(i, raw, request, net.reuseOk);
          if net.reuseOk {
            result := Some(raw);
          }
        }
      } else {
        SkipCache(i);
      }
    }

    /** Dial the proxy, with a TLS handshake if its URL says https. */
    method DialProxy(i: nat, net: Net) returns (raw: Option<nat>)
      requires Traced() && At(i, Dialing)
      modifies this`conns, this`lost, this`trace, this`sys
      ensures Traced() && raw == (if net.dials && net.shakes then Some(|old(conns)|) else None)
      ensures conns == old(conns) + if raw.Some? then [Raw(i, ProtocolOf(net.negotiated), false, false)] else []
      ensures lost == old(lost) + if net.dials && !net.shakes then 1 else 0
      ensures At(i, if raw.Some? then Chosen(raw.value) else Done(Failed))
    {
      raw := None;
      if net.dials {
        if net.shakes {
          raw := Some(|conns|);
          conns := conns + [Raw(i, ProtocolOf(net.negotiated), false, false)];
        } else {
          lost := lost + 1;
        }
      }
      Record(Advance(i, Answer(net.dials && net.shakes, ProtocolOf(net.negotiated), net.dials)));
    }

    /** The switch on the protocol. */
    method Choose(i: nat, raw: nat) returns (proto: Protocol)
      requires Traced() && raw < |conns| && At(i, Chosen(raw))
      modifies this`trace, this`sys
      ensures Traced() && proto == conns[raw].proto
      ensures At(i, match proto
                    case Http1 => Talking(raw, 0)
                    case Http2 => Wrapping(raw)
                    case Unsupported => Dropping(raw))
    {
      proto := conns[raw].proto;
      Record(Advance(i, YES));
    }

    /** `NewClientConn`. */
    method Wrap(i: nat, raw: nat, ok: bool)
      requires Traced() && At(i, Wrapping(raw))
      modifies this`trace, this`sys
      ensures Traced() && At(i, if ok then Connecting(raw) else Dropping(raw))
    {
      Record(Advance(i, Answer(ok, Http2, false)));
    }

    /** The branch for `h2`: a client connection, the CONNECT, and the cache.  The source closes the
        connection of a failed CONNECT once more here, which changes nothing. */
    method EstablishHttp2(i: nat, raw: nat, request: Request, net: Net) returns (ok: bool)
      requires Traced() && !cacheLocked && raw < |conns| && At(i, Wrapping(raw))
      modifies this`cachedH2ClientConn, this`cachedH2RawConn, this`cacheLocked, this`conns, this`trace, this`sys,
          request
      ensures Traced() && !cacheLocked && ok == (net.wraps && net.http2)
      ensures At(i, Done(if ok then Tunnel(raw) else Failed))
      ensures conns == Tried(old(conns), raw, ok)
      ensures if ok && enableH2ConnReuse then cachedH2ClientConn == cachedH2RawConn == Some(raw)
              else cachedH2ClientConn == old(cachedH2ClientConn) && cachedH2RawConn == old(cachedH2RawConn)
      ensures net.wraps ==> request.protoMajor == 2 && request.piped
    {
      Wrap(i, raw, net.wraps);
      if !net.wraps {
        CloseRaw(i, raw);
        return false;
      }
      ConnectHttp2(i, raw, request, net.http2);
      ok := net.http2;
      if ok && enableH2ConnReuse {
        Store(i, raw, raw);
      }
    }

    /** The switch on the negotiated protocol, run on a new connection. */
    method Establish(i: nat, raw: nat, request: Request, net: Net) returns (ok: bool)
      requires Traced() && !cacheLocked && raw < |conns| && At(i, Chosen(raw))
          && conns[raw].proto == ProtocolOf(net.negotiated)
      modifies this`cachedH2ClientConn, this`cachedH2RawConn, this`cacheLocked, this`conns, this`trace, this`sys,
          request
      ensures Traced() && !cacheLocked && ok == Establishes(net)
      ensures At(i, Done(if ok then Tunnel(raw) else Failed))
      ensures conns == Tried(old(conns), raw, ok)
      ensures if ok && enableH2ConnReuse && old(conns)[raw].proto.Http2?
          then cachedH2ClientConn == cachedH2RawConn == Some(raw)
              else cachedH2ClientConn == old(cachedH2ClientConn) && cachedH2RawConn == old(cachedH2RawConn)
      ensures old(conns)[raw].proto.Http1? ==> request.protoMajor == 1 && request.piped == old(request.piped)
      ensures old(conns)[raw].proto.Http2? && net.wraps ==> request.protoMajor == 2 && request.piped
    {
      var proto := Choose(i, raw);
      match proto {
        case Http1 => ok := ConnectHttp1(i, raw, request, net.http1);
        case Http2 => ok := EstablishHttp2(i, raw, request, net);
        case Unsupported =>
          CloseRaw(i, raw);
          ok := false;
      }
    }

    method NewCall() returns (i: nat)
      requires Valid()
      modifies this`calls, this`trace, this`sys
      ensures Valid() && i == old(calls) && calls == i + 1 && At(i, Start)
    {
      i := calls;
      calls := calls + 1;
      Record(Begin);
    }

    /** After a call the cache agrees again: that is what the invariant of the machine says when the
        lock is free. */
    lemma FreeLockMeansValid()
      requires Traced() && !cacheLocked
      ensures Valid()
    {
      assert CacheOk(sys.m, false);
    }

    /** The part of `DialContext` after the cached connection was not used. */
    method DialNew(i: nat, request: Request, net: Net) returns (result: Option<nat>)
      requires Valid() && At(i, Dialing)
      modifies this`cachedH2ClientConn, this`cachedH2RawConn, this`cacheLocked, this`conns, this`lost, this`trace,
          this`sys, request
      ensures Valid()
      ensures result == if Dials(net) && Establishes(net) then Some(|old(conns)|) else None
      ensures conns == old(conns) + if Dials(net) then [NewConn(i, net)] else []
      ensures cachedH2RawConn == if result.Some? && enableH2ConnReuse && ProtocolOf(net.negotiated).Http2? then result
                                 else old(cachedH2RawConn)
      ensures Dials(net) && ProtocolOf(net.negotiated).Http1? ==>
                request.protoMajor == 1 && request.piped == old(request.piped)
      ensures Dials(net) && ProtocolOf(net.negotiated).Http2? && net.wraps ==> request.protoMajor == 2 && request.piped
      ensures NewDoes(enableH2ConnReuse, net, |old(conns)|, old(cachedH2RawConn), conns, cachedH2RawConn, result,
                  request.protoMajor)
      ensures lost == old(lost) + if net.dials && !net.shakes then 1 else 0
    {
      var raw := DialProxy(i, net);
      if raw.None? {
        return None;
      }
      var ok := Establish(i, raw.value, request, net);
      result := if ok then raw else None;
      FreeLockMeansValid();
    }

    /** `DialContext`.  A tunnel is the cached connection if that takes the call and accepts the
        CONNECT, else a new connection that did; a new connection that did not is closed, and the
        cache changes exactly when a new HTTP/2 connection becomes a tunnel.  An HTTP/1.1 CONNECT
        that follows an attempt on the cached connection still carries the pipe of that attempt. */
    method DialContext(net: Net) returns (result: Option<nat>, request: Request)
      requires Valid()
      modifies this
      ensures Valid() && fresh(request)
      ensures var tries := old(Tries(net)); var cached := old(cachedH2RawConn); var before := old(conns);
              if tries && net.reuseOk then
                result == cached && cachedH2RawConn == cached && conns == Tried(before, cached.value, true)
              else
                && result == (if Dials(net) && Establishes(net) then Some(|before|) else None)
                && conns == (if tries then Tried(before, cached.value, false) else before)
                            + (if Dials(net) then [NewConn(old(calls), net)] else [])
                && cachedH2RawConn == (if result.Some? && enableH2ConnReuse && ProtocolOf(net.negotiated).Http2?
                    then result else cached)
                && (Dials(net) && ProtocolOf(net.negotiated).Http1? ==>
                      request.protoMajor == 1 && request.piped == tries)
      ensures result.Some? ==> result.value < |conns| && conns[result.value].accepted
      ensures var reused := enableH2ConnReuse && old(cachedH2RawConn).Some? && net.takes && net.reuseOk;
              if reused then
                && result == old(cachedH2RawConn) == cachedH2RawConn && |conns| == |old(conns)|
                && request.protoMajor == 2 && request.piped && lost == old(lost)
              else
                && lost == old(lost) + (if net.dials && !net.shakes then 1 else 0)
                && NewDoes(enableH2ConnReuse, net, |old(conns)|, old(cachedH2RawConn), conns, cachedH2RawConn, result,
                    request.protoMajor)
      ensures forall r :: 0 <= r < |old(conns)| ==>
                var tried := enableH2ConnReuse && net.takes && old(cachedH2RawConn) == Some(r);
                && conns[r].closed == (old(conns)[r].closed || (tried && !net.reuseOk))
                && conns[r].accepted == (old(conns)[r].accepted || (tried && net.reuseOk))
    {
      request := new Request();
      var i := NewCall();
      result := Reuse(i, request, net);
      FreeLockMeansValid();
      if result.None? {
        result := DialNew(i, request, net);
      }
    }

  }

  /** The connections after a CONNECT on `raw` that was accepted, or failed and closed it. */
  function Tried(conns: seq<Raw>, raw: nat, ok: bool): seq<Raw>
    requires raw < |conns|
  {
    conns[raw := if ok then conns[raw].(accepted := true) else conns[raw].(closed := true)]
  }

  /** What `DialContext` does when the cached connection does not serve it, case by case.  An empty
      text, as for a proxy without TLS, and "http/1.1" mean an HTTP/1.1 CONNECT; "h2" an HTTP/2 one,
      after which the new connection is cached if reuse is on; any other text is refused. */
  predicate NewDoes(reuse: bool, net: Net, before: nat, cached: Option<nat>, conns: seq<Raw>, cached': Option<nat>,
        result: Option<nat>, protoMajor: nat)
  {
    if net.dials && net.shakes then
      && |conns| == before + 1 && (result.None? || result == Some(before))
      && conns[before].closed == result.None? && conns[before].accepted == result.Some?
      && (net.negotiated == "" || net.negotiated == "http/1.1" ==>
            && (result.Some? <==> net.http1(0) && net.http1(1) && net.http1(2) && net.http1(3))
            && protoMajor == 1 && cached' == cached)
      && (net.negotiated == "h2" ==>
            && (result.Some? <==> net.wraps && net.http2)
            && (net.wraps ==> protoMajor == 2)
            && cached' == (if net.wraps && net.http2 && reuse then Some(before) else cached))
      && (net.negotiated != "" && net.negotiated != "http/1.1" && net.negotiated != "h2" ==>
            result.None? && cached' == cached)
    else
      result.None? && |conns| == before && cached' == cached
  }

  /** Two calls one after the other: the first is given a new HTTP/2 tunnel, the second fails on the
      same connection.  The tunnel of the first is closed under it, and stays the cached connection
      unless the second call gets a new HTTP/2 tunnel. */
  method SecondCallClosesTheFirstTunnel(first: Net, second: Net) returns (dialer: ConnectDialer, tunnel: nat)
    requires Dials(first) && Establishes(first) && ProtocolOf(first.negotiated).Http2?
    requires second.takes && !second.reuseOk
    ensures fresh(dialer) && dialer.Valid()
    ensures tunnel < |dialer.conns| && dialer.conns[tunnel].accepted && dialer.conns[tunnel].closed
    ensures dialer.cachedH2RawConn == Some(tunnel) <==>
            !(Dials(second) && Establishes(second) && ProtocolOf(second.negotiated).Http2?)
  {
    dialer := new ConnectDialer(true);
    var given, _ := dialer.DialContext(first);
    tunnel := given.value;
    var _, _ := dialer.DialContext(second);
  }
}
