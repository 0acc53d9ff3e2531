/** `stringToSpec` as the source runs it: loops that append, an extension table overwritten entry
    by entry, and extension objects that may or may not be shared. */
module Ja3Objects {
  import opened Options
  import opened Text
  import opened Numerals
  import opened Ja3

  class Extension {
    const id: nat
    const payload: Payload

    constructor (id: nat, payload: Payload)
      ensures this.id == id && this.payload == payload
    {
      this.id := id;
      this.payload := payload;
    }
  }

  datatype ClientHelloSpec = ClientHelloSpec(cipherSuites: seq<nat>, compressionMethods: seq<nat>,
        extensions: seq<Extension>)

  function EntriesIn(exts: seq<Extension>): seq<Entry> {
    seq(|exts|, i requires 0 <= i < |exts| => Entry(exts[i].id, exts[i].payload))
  }

  function HelloIn(spec: ClientHelloSpec): Hello {
    Hello(spec.cipherSuites, spec.compressionMethods, EntriesIn(spec.extensions))
  }

  /** The result with its objects replaced by what they hold. */
  function ValueOf(out: Outcome<ClientHelloSpec>): Outcome<Hello> {
    match out
    case Panics => Panics
    case Returns(Err(e)) => Returns(Err(e))
    case Returns(Ok(spec)) => Returns(Ok(HelloIn(spec)))
  }

  // ---------------------------------------------------------------- the number loops

  lemma {:induction false} NumbersStop(texts: seq<string>, max: nat, i: nat)
    requires i <= |texts| && Numbers(texts[..i], max).Err?
    ensures Numbers(texts, max) == Numbers(texts[..i], max)
    decreases |texts| - i
  {
    if i == |texts| {
      assert texts[..i] == texts;
    } else {
      assert texts[..i + 1][..i] == texts[..i];
      NumbersStop(texts, max, i + 1);
    }
  }

  method ParseNumbers(texts: seq<string>, max: nat) returns (r: Result<seq<nat>, Error>)
    ensures r == Numbers(texts, max)
  {
    var ns := [];
    for i := 0 to |texts|
      invariant Numbers(texts[..i], max) == Ok(ns)
    {
      assert texts[..i + 1][..i] == texts[..i];
      match ParseUint(texts[i], 10, max) {
        case None =>
          NumbersStop(texts, max, i + 1);
          return Err(BadNumber(texts[i]));
        case Some(n) =>
          ns := ns + [n];
      }
    }
    assert texts[..|texts|] == texts;
    r := Ok(ns);
  }

  // ---------------------------------------------------------------- the extension table

  type Objects = map<nat, Extension>

  /** The payloads the table holds; each object must be stored under its own id. */
  function Payloads(m: Objects): Table {
    map id | id in m :: m[id].payload
  }

  ghost predicate OwnIds(m: Objects) {
    forall id :: id in m ==> m[id].id == id
  }

  /** `extMap[id] = &...{...}`: a new object each time. */
  method Put(m: Objects, id: nat, payload: Payload) returns (m': Objects)
    requires OwnIds(m)
    ensures OwnIds(m') && Payloads(m') == Payloads(m)[id := payload]
    ensures forall k :: k in m' ==> (k in m && m'[k] == m[k]) || fresh(m'[k])
  {
    var e := new Extension(id, payload);
    m' := m[id := e];
  }

  method PutFour(m: Objects, a: nat, b: nat, c: nat, d: nat) returns (m': Objects)
    requires OwnIds(m)
    ensures OwnIds(m') && Payloads(m') == Payloads(m)[a := Fixed][b := Fixed][c := Fixed][d := Fixed]
    ensures forall k :: k in m' ==> (k in m && m'[k] == m[k]) || fresh(m'[k])
  {
    m' := Put(m, a, Fixed);
    m' := Put(m', b, Fixed);
    m' := Put(m', c, Fixed);
    m' := Put(m', d, Fixed);
  }

  /** `getExtensionBaseMap`. */
  method BaseMap() returns (m: Objects)
    ensures OwnIds(m) && Payloads(m) == BaseTable()
    ensures forall k :: k in m ==> fresh(m[k])
  {
    m := PutFour(map[], 0, 5, 18, 21);
    m := PutFour(m, 23, 35, 41, 42);
    m := PutFour(m, 44, 45, 13172, 65281);
  }

  /** The table up to the point formats. */
  method BuildLists(cfg: Config, curves: seq<nat>, points: seq<nat>) returns (m: Objects)
    ensures OwnIds(m) && Payloads(m) == ListsTable(cfg, curves, points)
    ensures forall k :: k in m ==> fresh(m[k])
  {
    m := BaseMap();
    m := Put(m, 10, Curves(curves));
    if cfg.certCompression != [] {
      m := Put(m, 27, Compression(cfg.certCompression));
    }
    m := Put(m, 51, Shares(cfg.keyShares));
    m := Put(m, 11, Points(points));
  }

  /** The table up to the delegated credentials. */
  method BuildAlgorithms(cfg: Config, curves: seq<nat>, points: seq<nat>) returns (m: Objects)
    ensures OwnIds(m) && Payloads(m) == AlgorithmsTable(cfg, curves, points)
    ensures forall k :: k in m ==> fresh(m[k])
  {
    m := BuildLists(cfg, curves, points);
    m := Put(m, 65037, Ech(cfg.suites, cfg.payloads));
    m := Put(m, 43, Versions(cfg.versions));
    m := Put(m, 13, Signatures(cfg.signatureAlgorithms));
    m := Put(m, 34, Delegated(cfg.delegatedCredentials));
  }

  /** The extension table of `stringToSpec`: all its objects are new. */
  method BuildTable(cfg: Config, curves: seq<nat>, points: seq<nat>) returns (m: Objects)
    ensures OwnIds(m) && Payloads(m) == FinalTable(cfg, curves, points)
    ensures forall k :: k in m ==> fresh(m[k])
  {
    m := BuildAlgorithms(cfg, curves, points);
    m := Put(m, 16, Protocols(cfg.alpn));
    m := Put(m, 17513, SettingsOld(cfg.alps));
    m := Put(m, 17613, Settings(cfg.alps));
    m := Put(m, 28, RecordLimit(cfg.recordSizeLimit));
  }

  // ---------------------------------------------------------------- the extension loop

  lemma {:induction false} EntriesStop(table: Table, texts: seq<string>, i: nat)
    requires i <= |texts| && Entries(table, texts[..i]).Err?
    ensures Entries(table, texts) == Entries(table, texts[..i])
    decreases |texts| - i
  {
    if i == |texts| {
      assert texts[..i] == texts;
    } else {
      assert texts[..i + 1][..i] == texts[..i];
      EntriesStop(table, texts, i + 1);
    }
  }

  /** Two positions hold the same object exactly when they are the same position or have the same
      non-GREASE id. */
  ghost predicate Sharing(exts: seq<Extension>) {
    forall i, j :: 0 <= i < j < |exts| ==> (exts[i] == exts[j] <==> exts[i].id == exts[j].id != GREASE)
  }

  ghost predicate FromTable(m: Objects, exts: seq<Extension>) {
    forall i :: 0 <= i < |exts| && exts[i].id != GREASE ==> exts[i].id in m && exts[i] == m[exts[i].id]
  }

  /** One turn of the extension loop: GREASE always gets a new object. */
  method FindExtension(m: Objects, text: string) returns (r: Result<Extension, Error>)
    requires OwnIds(m) && GREASE !in m
    ensures match r
            case Err(e) => ExtensionId(Payloads(m), text) == Err(e)
            case Ok(e) =>
              ExtensionId(Payloads(m), text) == Ok(e.id) && Entry(e.id, e.payload) == EntryOf(Payloads(m), e.id)
    ensures r.Ok? ==> if r.value.id == GREASE then fresh(r.value) else r.value.id in m && r.value == m[r.value.id]
  {
    match ParseUint(text, 10, MAX16) {
      case None => return Err(BadNumber(text));
      case Some(id) =>
        if id == GREASE {
          var e := new Extension(GREASE, Grease);
          return Ok(e);
        }
        if id !in m {
          return Err(UnknownExtension(text));
        }
        return Ok(m[id]);
    }
  }

  method ParseExtensions(m: Objects, texts: seq<string>) returns (r: Result<seq<Extension>, Error>)
    requires OwnIds(m) && GREASE !in m
    ensures match r
            case Err(e) => Entries(Payloads(m), texts) == Err(e)
            case Ok(exts) => Entries(Payloads(m), texts) == Ok(EntriesIn(exts)) && Sharing(exts)
    ensures r.Ok? ==> forall i :: 0 <= i < |r.value| ==> fresh(r.value[i]) || r.value[i] in m.Values
  {
    var exts: seq<Extension> := [];
    assert EntriesIn(exts) == [];
    for i := 0 to |texts|
      invariant Entries(Payloads(m), texts[..i]) == Ok(EntriesIn(exts))
      invariant Sharing(exts) && FromTable(m, exts)
      invariant forall k :: 0 <= k < |exts| ==> fresh(exts[k]) || exts[k] in m.Values
    {
      assert texts[..i + 1][..i] == texts[..i];
      var e := FindExtension(m, texts[i]);
      if e.Err? {
        EntriesStop(Payloads(m), texts, i + 1);
        return Err(e.error);
      }
      assert EntriesIn(exts + [e.value]) == EntriesIn(exts) + [Entry(e.value.id, e.value.payload)];
      exts := exts + [e.value];
    }
    assert texts[..|texts|] == texts;
    r := Ok(exts);
  }

  // ---------------------------------------------------------------- stringToSpec

  /** `stringToSpec`.  All extension objects of a result are new, so two results share none. */
  method StringToSpec(ja3: string, cfg: Config) returns (out: Outcome<ClientHelloSpec>)
    ensures ValueOf(out) == Parse(ja3, cfg)
    ensures out.Returns? && out.result.Ok? ==>
              && Sharing(out.result.value.extensions)
              && forall i :: 0 <= i < |out.result.value.extensions| ==> fresh(out.result.value.extensions[i])
  {
    var parts := Split(ja3, ',');
    if |parts| < 5 {
      return Panics;
    }
    var curves := ParseNumbers(OptionalList(parts[3]), MAX16);
    if curves.Err? {
      return Returns(Err(curves.error));
    }
    var points := ParseNumbers(OptionalList(parts[4]), MAX8);
    if points.Err? {
      return Returns(Err(points.error));
    }
    var table := BuildTable(cfg, curves.value, points.value);
    TableBelow(cfg, curves.value, points.value);
    var exts := ParseExtensions(table, Split(parts[2], '-'));
    if exts.Err? {
      return Returns(Err(exts.error));
    }
    var ciphers := ParseNumbers(Split(parts[1], '-'), MAX16);
    if ciphers.Err? {
      return Returns(Err(ciphers.error));
    }
    out := Returns(Ok(ClientHelloSpec(ciphers.value, [0], exts.value)));
  }

  /** Two invocations give equal values and share no extension object. */
  method InvokeTwice(ja3: string, cfg: Config) returns (a: Outcome<ClientHelloSpec>, b: Outcome<ClientHelloSpec>)
    ensures ValueOf(a) == ValueOf(b) == Parse(ja3, cfg)
    ensures a.Returns? && a.result.Ok? && b.Returns? && b.result.Ok? ==>
              forall e :: e in a.result.value.extensions ==> e !in b.result.value.extensions
  {
    a := StringToSpec(ja3, cfg);
    b := StringToSpec(ja3, cfg);
  }
}
