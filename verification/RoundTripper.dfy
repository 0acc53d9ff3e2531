/** `roundTripper` itself: the maps, the two mutexes and the methods that use them, called one
    after another.  Each statement that touches shared state is paired with the step of the
    interleaving machine it performs, so the whole history of an object is a lawful run of
    that machine and everything proved of all runs holds of it. */
module RoundTrippers {
  import opened Options
  import opened HandOff

  function LowerChar(c: char): char {
    if 'A' <= c <= 'Z' then c - 'A' + 'a' else c
  }

  function Lower(s: string): string {
    seq(|s|, i requires 0 <= i < |s| => LowerChar(s[i]))
  }

  /** The switch of `getTransport`. */
  function SchemeOf(scheme: string): Scheme {
    if Lower(scheme) == "http" then Plain else if Lower(scheme) == "https" then Secure else Unknown
  }

  /** The switch of `dialTLS`. */
  function ProtocolOf(negotiated: string): Protocol {
    if negotiated == "h2" then H2 else if negotiated == "h3" then H3 else Other
  }

  /** What the network answers when `dialTLS` asks. */
  datatype Net = Net(dials: bool, shakes: bool, pins: bool, negotiated: string)

  /** The connection the network gives, or the error. */
  function NetResult(net: Net, id: nat): (r: DialResult)
    ensures !r.Negotiated?
    ensures r.Got? <==> net.dials && net.shakes && net.pins
  {
    if !net.dials then Failed(DialFailed)
    else if !net.shakes then Failed(HandshakeFailed)
    else if !net.pins then Failed(BadPin)
    else Got(Conn(id, ProtocolOf(net.negotiated)))
  }

  /** The two maps after an undisturbed `dialTLS`, and its result. */
  function DialSpec(transports: map<string, Transport>, stash: map<string, Conn>, built: nat, addr: string,
        net: DialResult)
    : (map<string, Transport>, map<string, Conn>, DialResult)
  {
    if addr in stash then (transports, stash - {addr}, Got(stash[addr]))
    else if !net.Got? || addr in transports then (transports, stash, net)
    else (transports[addr := Transport(built, KindFor(net.conn.proto))], stash[addr := net.conn], Negotiated)
  }

  function GetSpec(transports: map<string, Transport>, stash: map<string, Conn>, built: nat, scheme: Scheme,
        addr: string, net: DialResult)
    : (r: (map<string, Transport>, map<string, Conn>, Option<Error>))
    requires addr !in transports && addr !in stash && !net.Negotiated?
    ensures r.2.None? ==> addr in r.0
  {
    match scheme
    case Plain => (transports[addr := Transport(built, Http1)], stash, None)
    case Unknown => (transports, stash, Some(InvalidScheme))
    case Secure =>
      var (t, s, r) := DialSpec(transports, stash, built, addr, net);
      (t, s, if r.Failed? then Some(r.error) else None)
  }

  /** The two maps after an undisturbed `RoundTrip`, and its outcome. */
  function TripSpec(transports: map<string, Transport>, stash: map<string, Conn>, built: nat, scheme: Scheme,
        addr: string, net: DialResult)
    : (map<string, Transport>, map<string, Conn>, Outcome)
    requires (addr in stash ==> addr in transports) && !net.Negotiated?
  {
    if addr in transports then (transports, stash, Response(transports[addr]))
    else
      var (t, s, err) := GetSpec(transports, stash, built, scheme, addr, net);
      (t, s, if err.Some? then Refused(err.value) else Response(t[addr]))
  }

  /** The hand-off round trip: after the first https request the transport is of the kind the
      connection negotiated, and its next dial takes out that very connection and leaves the
      stash as it was before the request. */
  lemma FirstRequestThenDial(transports: map<string, Transport>, stash: map<string, Conn>, built: nat, addr: string,
        net: DialResult, later: DialResult)
    requires addr !in transports && addr !in stash && net.Got?
    ensures var (t, s, out) := TripSpec(transports, stash, built, Secure, addr, net);
            && out.Response? && out.transport.id == built && KindFits(net.conn.proto, out.transport.kind)
            && DialSpec(t, s, built + 1, addr, later) == (t, stash, Got(net.conn))
            && t - {addr} == transports
  {
    assert stash[addr := net.conn] - {addr} == stash;
    assert transports[addr := Transport(built, KindFor(net.conn.proto))] - {addr} == transports;
  }

  // ---------------------------------------------------------------- the same in plain terms

  /** "http", in any mixture of letter cases. */
  predicate SpellsHttp(s: string) {
    |s| == 4 && s[0] in "hH" && s[1] in "tT" && s[2] in "tT" && s[3] in "pP"
  }

  /** "https", in any mixture of letter cases. */
  predicate SpellsHttps(s: string) {
    |s| == 5 && SpellsHttp(s[..4]) && s[4] in "sS"
  }

  /** The scheme is "http" or "https" exactly when it is spelled so, in capitals or not. */
  lemma SchemeSpelled(s: string)
    ensures SchemeOf(s).Plain? <==> SpellsHttp(s)
    ensures SchemeOf(s).Secure? <==> SpellsHttps(s)
  {
    var t := Lower(s);
    assert |s| == 4 ==> (t == "http" <==> t[0] == 'h' && t[1] == 't' && t[2] == 't' && t[3] == 'p');
    assert |s| == 5 ==>
        (t == "https" <==> t[0] == 'h' && t[1] == 't' && t[2] == 't' && t[3] == 'p' && t[4] == 's');
  }

  /** What `dialTLS` does, case by case.  Without a stashed connection a new one is dialed; if the
      address has no transport, the negotiated text says which kind is cached, and the connection
      is stashed. */
  predicate DialDoes(transports: map<string, Transport>, stash: map<string, Conn>, addr: string, net: Net,
        transports': map<string, Transport>, stash': map<string, Conn>, result: DialResult)
  {
    && (addr in stash ==> result == Got(stash[addr]) && transports' == transports && stash' == stash - {addr})
    && (addr !in stash && !net.dials ==> result == Failed(DialFailed))
    && (addr !in stash && net.dials && !net.shakes ==> result == Failed(HandshakeFailed))
    && (addr !in stash && net.dials && net.shakes && !net.pins ==> result == Failed(BadPin))
    && (addr !in stash && (result.Failed? || addr in transports) ==> transports' == transports && stash' == stash)
    && (addr !in stash && net.dials && net.shakes && net.pins && addr in transports ==> result.Got?)
    && (addr !in stash && net.dials && net.shakes && net.pins && addr !in transports ==>
          && result == Negotiated
          && Caches(transports, stash, addr, net.negotiated, transports', stash'))
  }

  /** The transport cached under the address is HTTP/2 for "h2", HTTP/3 for "h3" and HTTP/1 for any
      other text; the connection is stashed; nothing else changes. */
  predicate Caches(transports: map<string, Transport>, stash: map<string, Conn>, addr: string, negotiated: string,
        transports': map<string, Transport>, stash': map<string, Conn>)
  {
    && addr in transports' && transports' == transports[addr := transports'[addr]]
    && addr in stash' && stash' == stash[addr := stash'[addr]]
    && (negotiated == "h2" ==> transports'[addr].kind == Http2)
    && (negotiated == "h3" ==> transports'[addr].kind == Http3)
    && (negotiated != "h2" && negotiated != "h3" ==> transports'[addr].kind == Http1)
  }

  /** What `RoundTrip` does, case by case. */
  predicate TripDoes(transports: map<string, Transport>, stash: map<string, Conn>, scheme: string, addr: string,
        net: Net, transports': map<string, Transport>, stash': map<string, Conn>, out: Outcome)
  {
    && (out.Response? ==> addr in transports' && out == Response(transports'[addr]))
    && (out.Refused? || addr in transports ==> transports' == transports && stash' == stash)
    && (addr in transports ==> out.Response?)
    && (addr !in transports && SpellsHttp(scheme) ==>
          && out.Response? && out.transport.kind == Http1
          && transports' == transports[addr := out.transport] && stash' == stash)
    && (addr !in transports && SpellsHttps(scheme) ==>
          && (!net.dials ==> out == Refused(DialFailed))
          && (net.dials && !net.shakes ==> out == Refused(HandshakeFailed))
          && (net.dials && net.shakes && !net.pins ==> out == Refused(BadPin))
          && (net.dials && net.shakes && net.pins ==>
                out.Response? && Caches(transports, stash, addr, net.negotiated, transports', stash')))
    && (addr !in transports && !SpellsHttp(scheme) && !SpellsHttps(scheme) ==> out == Refused(InvalidScheme))
  }

  lemma DialInPlainTerms(transports: map<string, Transport>, stash: map<string, Conn>, built: nat, id: nat,
        addr: string, net: Net)
    ensures var (t, s, r) := DialSpec(transports, stash, built, addr, NetResult(net, id));
            DialDoes(transports, stash, addr, net, t, s, r)
  {
  }

  lemma TripInPlainTerms(transports: map<string, Transport>, stash: map<string, Conn>, built: nat, id: nat,
        scheme: string, addr: string, net: Net)
    requires addr in stash ==> addr in transports
    ensures var (t, s, out) := TripSpec(transports, stash, built, SchemeOf(scheme), addr, NetResult(net, id));
            TripDoes(transports, stash, scheme, addr, net, t, s, out)
  {
    SchemeSpelled(scheme);
    DialInPlainTerms(transports, stash, built, id, addr, net);
  }

  /** How `newRoundTripper` ends. */
  datatype Built = PinnerFailed | NoDialer | Made

  class RoundTripper {
    const hasHandler: bool
    var cachedTransports: map<string, Transport>
    var cachedConnections: map<string, Conn>
    var transportsLocked: bool      // cachedTransportsLck
    var locked: bool                // the embedded mutex
    var built: nat                  // identities used for transports
    var dialed: nat                 // identities used for connections
    ghost var trace: seq<Step>      // the steps taken so far
    ghost var sys: State            // the state they lead to

    /** The history of the object is a lawful run, and the fields are those of its last state. */
    ghost predicate Traced()
      reads this
    {
      && Lawful(Init(hasHandler), trace) && Exec(Init(hasHandler), trace) == sys && Inv(sys)
      && Agrees()
    }

    ghost predicate Agrees()
      reads this
    {
      && sys.m.handler == hasHandler
      && sys.m.transports == cachedTransports
      && sys.m.stash == cachedConnections
      && sys.m.transportsLck.Some? == transportsLocked
      && sys.m.mutex.Some? == locked
      && sys.m.built == built
      && |sys.m.dialed| == dialed
    }

    /** Thread `i` of the machine runs `call` and has come to `pc`. */
    ghost predicate ThreadAt(i: nat, call: Call, pc: Pc)
      reads this`sys
    {
      i < |sys.threads| && sys.threads[i] == Thread(call, pc)
    }

    /** Between calls both mutexes are free. */
    ghost predicate Valid()
      reads this
    {
      Traced() && !transportsLocked && !locked
    }

    /** `newRoundTripper`: an error if the pinner cannot be built, and a panic without a dialer, since
        the first one is taken before the number of dialers is looked at. */
    static method Build(hasHandler: bool, pinned: bool, dialers: nat) returns (built: Built, rt: RoundTripper?)
      ensures built == if !pinned then PinnerFailed else if dialers == 0 then NoDialer else Made
      ensures rt == null <==> !built.Made?
      ensures rt != null ==> fresh(rt) && rt.Valid() && rt.hasHandler == hasHandler && rt.cachedTransports == map[]
    {
      if !pinned {
        return PinnerFailed, null;
      }
      if dialers == 0 {
        return NoDialer, null;
      }
      rt := new RoundTripper(hasHandler);
      built := Made;
    }

    constructor (hasHandler: bool)
      ensures Valid() && this.hasHandler == hasHandler
      ensures cachedTransports == map[] && cachedConnections == map[]
    {
      this.hasHandler := hasHandler;
      cachedTransports, cachedConnections := map[], map[];
      transportsLocked, locked, built, dialed := false, false, 0, 0;
      trace, sys := [], Init(hasHandler);
    }

    /** Record one step of the machine. */
    ghost method Record(step: Step)
      requires Lawful(Init(hasHandler), trace) && Exec(Init(hasHandler), trace) == sys && Inv(sys)
      requires Enabled(sys, step) && Assumed(sys, step)
      modifies this`trace, this`sys
      ensures Lawful(Init(hasHandler), trace) && Exec(Init(hasHandler), trace) == sys && Inv(sys)
      ensures sys == Next(old(sys), step) && trace == old(trace) + [step]
    {
      InvStep(sys, step);
      Extend(Init(hasHandler), trace, step);
      trace, sys := trace + [step], Next(sys, step);
    }

    // ---------------------------------------------------------------- the statements of dialTLS

    method Lock(ghost i: nat, ghost call: Call)
      requires Traced() && !locked && ThreadAt(i, call, InDial(Waiting))
      modifies this`locked, this`trace, this`sys
      ensures Traced() && locked && ThreadAt(i, call, InDial(Taking))
    {
      locked := true;
      Record(Advance(i, true, Other));
    }

    method TakeStash(addr: string, ghost i: nat, ghost call: Call) returns (conn: Option<Conn>)
      requires Traced() && ThreadAt(i, call, InDial(Taking)) && call.Addr() == addr
      modifies this`cachedConnections, this`trace, this`sys
      ensures Traced()
      ensures if addr in old(cachedConnections) then
                && conn == Some(old(cachedConnections)[addr])
                && cachedConnections == old(cachedConnections) - {addr}
                && ThreadAt(i, call, InDial(Returning(Got(conn.value))))
              else
                conn.None? && cachedConnections == old(cachedConnections) && ThreadAt(i, call, InDial(Connecting))
    {
      conn := None;
      if addr in cachedConnections {
        conn := Some(cachedConnections[addr]);
        cachedConnections := cachedConnections - {addr};
      }
      Record(Advance(i, true, Other));
    }

    /** `dialer.DialContext`. */
    method Dial(dials: bool, ghost i: nat, ghost call: Call) returns (id: nat)
      requires Traced() && ThreadAt(i, call, InDial(Connecting))
      modifies this`dialed, this`trace, this`sys
      ensures Traced()
      ensures if dials then id == old(dialed) && ThreadAt(i, call, InDial(Handshaking(id)))
              else ThreadAt(i, call, InDial(Returning(Failed(DialFailed))))
    {
      id := dialed;
      if dials {
        dialed := dialed + 1;
      }
      Record(Advance(i, dials, Other));
    }

    /** `HandshakeContext`. */
    method Handshake(id: nat, net: Net, ghost i: nat, ghost call: Call) returns (conn: Conn)
      requires Traced() && ThreadAt(i, call, InDial(Handshaking(id)))
      modifies this`trace, this`sys
      ensures Traced() && conn == Conn(id, ProtocolOf(net.negotiated))
      ensures ThreadAt(i, call, InDial(if net.shakes then Pinning(conn) else Returning(Failed(HandshakeFailed))))
    {
      conn := Conn(id, ProtocolOf(net.negotiated));
      Record(Advance(i, net.shakes, conn.proto));
    }

    /** `certificatePinner.Pin`. */
    method Pin(conn: Conn, pins: bool, ghost i: nat, ghost call: Call)
      requires Traced() && ThreadAt(i, call, InDial(Pinning(conn)))
      modifies this`trace, this`sys
      ensures Traced()
      ensures ThreadAt(i, call, InDial(if pins then Looking(conn) else Returning(Failed(BadPin))))
    {
      Record(Advance(i, pins, Other));
    }

    method HasTransport(addr: string, conn: Conn, ghost i: nat, ghost call: Call) returns (has: bool)
      requires Traced() && ThreadAt(i, call, InDial(Looking(conn))) && call.Addr() == addr
      modifies this`trace, this`sys
      ensures Traced() && has == (addr in cachedTransports)
      ensures ThreadAt(i, call, InDial(if has then Returning(Got(conn)) else Building(conn)))
    {
      has := addr in cachedTransports;
      Record(Advance(i, true, Other));
    }

    method CacheTransport(addr: string, conn: Conn, ghost i: nat, ghost call: Call)
      requires Traced() && ThreadAt(i, call, InDial(Building(conn))) && call.Addr() == addr
      modifies this`cachedTransports, this`built, this`trace, this`sys
      ensures Traced() && ThreadAt(i, call, InDial(Stashing(conn)))
      ensures cachedTransports == old(cachedTransports)[addr := Transport(old(built), KindFor(conn.proto))]
    {
      var kind;
      match conn.proto {
        case H2 => kind := Http2;
        case H3 => kind := Http3;
        case Other => kind := Http1;
      }
      cachedTransports := cachedTransports[addr := Transport(built, kind)];
      built := built + 1;
      Record(Advance(i, true, Other));
    }

    method Stash(addr: string, conn: Conn, ghost i: nat, ghost call: Call)
      requires Traced() && ThreadAt(i, call, InDial(Stashing(conn))) && call.Addr() == addr
      modifies this`cachedConnections, this`trace, this`sys
      ensures Traced() && ThreadAt(i, call, InDial(Returning(Negotiated)))
      ensures cachedConnections == old(cachedConnections)[addr := conn]
    {
      cachedConnections := cachedConnections[addr := conn];
      Record(Advance(i, true, Other));
    }

    /** The deferred unlock. */
    method Unlock(ghost i: nat, ghost call: Call, ghost result: DialResult)
      requires Traced() && locked && ThreadAt(i, call, InDial(Returning(result)))
      modifies this`locked, this`trace, this`sys
      ensures Traced() && !locked && ThreadAt(i, call, AfterDial(call, result))
    {
      locked := false;
      Record(Advance(i, true, Other));
    }

    // ---------------------------------------------------------------- dialTLS

    /** Dial, handshake and pin check. */
    method Connect(net: Net, ghost i: nat, ghost call: Call) returns (result: DialResult)
      requires Traced() && ThreadAt(i, call, InDial(Connecting))
      modifies this`dialed, this`trace, this`sys
      ensures Traced()
      ensures result == NetResult(net, old(dialed))
      ensures ThreadAt(i, call, InDial(if result.Got? then Looking(result.conn) else Returning(result)))
    {
      var id := Dial(net.dials, i, call);
      if !net.dials {
        return Failed(DialFailed);
      }
      var conn := Handshake(id, net, i, call);
      if !net.shakes {
        return Failed(HandshakeFailed);
      }
      Pin(conn, net.pins, i, call);
      result := if net.pins then Got(conn) else Failed(BadPin);
    }

    /** Return the connection, or cache its transport and stash it. */
    method Publish(addr: string, conn: Conn, ghost i: nat, ghost call: Call) returns (result: DialResult)
      requires Traced() && ThreadAt(i, call, InDial(Looking(conn))) && call.Addr() == addr
      modifies this`cachedTransports, this`cachedConnections, this`built, this`trace, this`sys
      ensures Traced() && ThreadAt(i, call, InDial(Returning(result)))
      ensures result == if addr in old(cachedTransports) then Got(conn) else Negotiated
      ensures cachedConnections == if result.Got? then old(cachedConnections) else old(cachedConnections)[addr := conn]
      ensures cachedTransports == if result.Got? then old(cachedTransports)
                                  else old(cachedTransports)[addr := Transport(old(built), KindFor(conn.proto))]
    {
      var has := HasTransport(addr, conn, i, call);
      if has {
        return Got(conn);
      }
      CacheTransport(addr, conn, i, call);
      Stash(addr, conn, i, call);
      result := Negotiated;
    }

    method Establish(addr: string, net: Net, ghost i: nat, ghost call: Call) returns (result: DialResult)
      requires Traced() && ThreadAt(i, call, InDial(Connecting)) && call.Addr() == addr && addr !in cachedConnections
      modifies this`cachedTransports, this`cachedConnections, this`built, this`dialed, this`trace, this`sys
      ensures Traced() && ThreadAt(i, call, InDial(Returning(result)))
      ensures (cachedTransports, cachedConnections, result) ==
              DialSpec(old(cachedTransports), old(cachedConnections), old(built), addr, NetResult(net, old(dialed)))
    {
      result := Connect(net, i, call);
      if result.Got? {
        result := Publish(addr, result.conn, i, call);
      }
    }

    /** `dialTLS`, run by thread `i` of the machine. */
    method DialTLS(addr: string, net: Net, ghost i: nat, ghost call: Call) returns (result: DialResult)
      requires Traced() && !locked && ThreadAt(i, call, InDial(Waiting)) && call.Addr() == addr
      modifies this`cachedTransports, this`cachedConnections, this`built, this`dialed, this`locked, this`trace, this`sys
      ensures Traced() && !locked && ThreadAt(i, call, AfterDial(call, result))
      ensures (cachedTransports, cachedConnections, result) ==
              DialSpec(old(cachedTransports), old(cachedConnections), old(built), addr, NetResult(net, old(dialed)))
      ensures DialDoes(old(cachedTransports), old(cachedConnections), addr, net, cachedTransports, cachedConnections,
                       result)
    {
      DialInPlainTerms(cachedTransports, cachedConnections, built, dialed, addr, net);
      Lock(i, call);
      var stashed := TakeStash(addr, i, call);
      if stashed.Some? {
        result := Got(stashed.value);
      } else {
        result := Establish(addr, net, i, call);
      }
      Unlock(i, call, result);
    }

    ghost method Start(call: Call) returns (i: nat)
      requires Traced() && (call.Redial? ==> call.addr in cachedTransports)
      modifies this`trace, this`sys
      ensures Traced() && ThreadAt(i, call, Entry(call))
    {
      i := |sys.threads|;
      Record(Begin(call));
    }

    /** A dial started by the transport cached under `addr`: it never sees the sentinel error. */
    method TransportDial(addr: string, net: Net) returns (result: DialResult)
      requires Valid() && addr in cachedTransports
      modifies this
      ensures Valid()
      ensures cachedTransports == old(cachedTransports)
      ensures if addr in old(cachedConnections) then
                result == Got(old(cachedConnections)[addr]) && cachedConnections == old(cachedConnections) - {addr}
              else
                result == NetResult(net, old(dialed)) && cachedConnections == old(cachedConnections)
    {
      ghost var i := Start(Redial(addr));
      result := DialTLS(addr, net, i, Redial(addr));
    }

    // ---------------------------------------------------------------- RoundTrip

    method LockTransports(ghost i: nat, ghost call: Call)
      requires Traced() && !transportsLocked && !call.Redial? && ThreadAt(i, call, Ready)
      modifies this`transportsLocked, this`trace, this`sys
      ensures Traced() && transportsLocked && ThreadAt(i, call, if call.CloseIdle? then Closing else Checking)
    {
      transportsLocked := true;
      Record(Advance(i, true, Other));
    }

    method Check(addr: string, ghost i: nat, ghost call: Call) returns (has: bool)
      requires Traced() && ThreadAt(i, call, Checking) && call.Addr() == addr
      modifies this`trace, this`sys
      ensures Traced() && has == (addr in cachedTransports)
      ensures ThreadAt(i, call, if has then Fetching else Choosing)
    {
      has := addr in cachedTransports;
      Record(Advance(i, true, Other));
    }

    method CacheHttp1(addr: string, ghost i: nat, ghost call: Call)
      requires Traced() && call == Request(Plain, addr) && ThreadAt(i, call, Choosing)
      modifies this`cachedTransports, this`built, this`trace, this`sys
      ensures Traced() && ThreadAt(i, call, Fetching)
      ensures cachedTransports == old(cachedTransports)[addr := Transport(old(built), Http1)]
    {
      cachedTransports := cachedTransports[addr := Transport(built, Http1)];
      built := built + 1;
      Record(Advance(i, true, Other));
    }

    /** The switch on the scheme finds no way to dial, or goes on to dial. */
    method ChooseDial(addr: string, ghost i: nat, ghost call: Call)
      requires Traced() && call.Request? && !call.scheme.Plain? && ThreadAt(i, call, Choosing)
      modifies this`trace, this`sys
      ensures Traced()
      ensures ThreadAt(i, call, if call.scheme.Secure? then InDial(Waiting) else Failing(InvalidScheme))
    {
      Record(Advance(i, true, Other));
    }

    /** `getTransport`.  The panic of the source stands in the branch for a connection without an
        error, which cannot be reached. */
    method GetTransport(scheme: string, addr: string, net: Net, ghost i: nat, ghost call: Call)
          returns (err: Option<Error>)
      requires Traced() && !locked && transportsLocked
      requires call == Request(SchemeOf(scheme), addr) && ThreadAt(i, call, Choosing)
      requires addr !in cachedTransports && addr !in cachedConnections
      modifies this`cachedTransports, this`cachedConnections, this`built, this`dialed, this`locked, this`trace, this`sys
      ensures Traced() && !locked && ThreadAt(i, call, if err.Some? then Failing(err.value) else Fetching)
      ensures (cachedTransports, cachedConnections, err) ==
              GetSpec(old(cachedTransports), old(cachedConnections), old(built), SchemeOf(scheme), addr,
                      NetResult(net, old(dialed)))
    {
      match SchemeOf(scheme) {
        case Plain =>
          CacheHttp1(addr, i, call);
          return None;
        case Unknown =>
          ChooseDial(addr, i, call);
          return Some(InvalidScheme);
        case Secure =>
          ChooseDial(addr, i, call);
          var result := DialTLS(addr, net, i, call);
          match result {
            case Negotiated => return None;
            case Failed(e) => return Some(e);
            case Got(_) => assert false;
          }
      }
    }

    method Fetch(addr: string, ghost i: nat, ghost call: Call) returns (t: Transport)
      requires Traced() && transportsLocked && ThreadAt(i, call, Fetching) && call.Addr() == addr
          && addr in cachedTransports
      modifies this`transportsLocked, this`trace, this`sys
      ensures Traced() && !transportsLocked && t == cachedTransports[addr] && ThreadAt(i, call, Serving(t))
    {
      t := cachedTransports[addr];
      transportsLocked := false;
      Record(Advance(i, true, Other));
    }

    method Fail(e: Error, ghost i: nat, ghost call: Call) returns (handle: bool)
      requires Traced() && transportsLocked && ThreadAt(i, call, Failing(e))
      modifies this`transportsLocked, this`trace, this`sys
      ensures Traced() && !transportsLocked && handle == (e.BadPin? && hasHandler)
      ensures ThreadAt(i, call, if handle then Handling else Done(Refused(e)))
    {
      transportsLocked := false;
      handle := e.BadPin? && hasHandler;
      Record(Advance(i, true, Other));
    }

    /** `RoundTrip`, run by thread `i` of the machine. */
    method Trip(scheme: string, addr: string, net: Net, ghost i: nat, ghost call: Call)
          returns (out: Outcome, handled: bool)
      requires Valid() && call == Request(SchemeOf(scheme), addr) && ThreadAt(i, call, Ready)
      modifies this
      ensures Valid()
      ensures (cachedTransports, cachedConnections, out) ==
              TripSpec(old(cachedTransports), old(cachedConnections), old(built), SchemeOf(scheme), addr,
                  NetResult(net, old(dialed)))
      ensures handled == (out == Refused(BadPin) && hasHandler)
    {
      LockTransports(i, call);
      var has := Check(addr, i, call);
      if !has {
        var err := GetTransport(scheme, addr, net, i, call);
        if err.Some? {
          handled := Fail(err.value, i, call);
          if handled {
            assert Valid();
            Record(Advance(i, true, Other));
          }
          return Refused(err.value), handled;
        }
      }
      var t := Fetch(addr, i, call);
      return Response(t), false;
    }

    /** `RoundTrip`, up to the call of the transport.  `handled` tells whether the bad-pin handler
        ran; when it runs, both mutexes are free. */
    method RoundTrip(scheme: string, addr: string, net: Net) returns (out: Outcome, handled: bool)
      requires Valid()
      modifies this
      ensures Valid()
      ensures (cachedTransports, cachedConnections, out) ==
              TripSpec(old(cachedTransports), old(cachedConnections), old(built), SchemeOf(scheme), addr,
                  NetResult(net, old(dialed)))
      ensures TripDoes(old(cachedTransports), old(cachedConnections), scheme, addr, net, cachedTransports,
                       cachedConnections, out)
      ensures handled == (out == Refused(BadPin) && hasHandler)
    {
      TripInPlainTerms(cachedTransports, cachedConnections, built, dialed, scheme, addr, net);
      ghost var call := Request(SchemeOf(scheme), addr);
      ghost var i := Start(call);
      out, handled := Trip(scheme, addr, net, i, call);
    }

    /** `CloseIdleConnections`: under `cachedTransportsLck` it visits every cached transport.
        `closes` says which transports have such a method. */
    method CloseIdleConnections(closes: Kind -> bool) returns (closed: set<string>)
      requires Valid()
      modifies this
      ensures Valid() && cachedTransports == old(cachedTransports) && cachedConnections == old(cachedConnections)
      ensures closed == set a | a in cachedTransports && closes(cachedTransports[a].kind)
    {
      ghost var i := Start(CloseIdle);
      LockTransports(i, CloseIdle);
      closed := {};
      var left := cachedTransports.Keys;
      while left != {}
        invariant left <= cachedTransports.Keys
        invariant closed == set a | a in cachedTransports && a !in left && closes(cachedTransports[a].kind)
        decreases left
      {
        var a :| a in left;
        if closes(cachedTransports[a].kind) {
          closed := closed + {a};
        }
        left := left - {a};
      }
      transportsLocked := false;
      Record(Advance(i, true, Other));
    }
  }
}
