/** The JA3 parser: `stringToSpec` and the factory around it. */
module Ja3 {
  import opened Options
  import opened Text
  import opened Numerals

  const MAX16 := 0xFFFF
  const MAX8 := 0xFF

  /** `tls.GREASE_PLACEHOLDER`. */
  const GREASE := 0x0A0A

  datatype KeyShare = KeyShare(group: nat, data: seq<nat>)

  datatype Suite = Suite(kdf: nat, aead: nat)

  /** What `stringToSpec` gets besides the JA3 string. */
  datatype Config = Config(
    signatureAlgorithms: seq<nat>, delegatedCredentials: seq<nat>, versions: seq<nat>, keyShares: seq<KeyShare>,
    suites: seq<Suite>, payloads: seq<nat>, alpn: seq<string>, alps: seq<string>,
    certCompression: seq<nat>, recordSizeLimit: nat)

  /** What an extension carries. */
  datatype Payload =
    | Fixed                              // an entry of getExtensionBaseMap
    | Grease
    | Curves(curves: seq<nat>)
    | Points(points: seq<nat>)
    | Compression(algorithms: seq<nat>)
    | Shares(shares: seq<KeyShare>)
    | Ech(suites: seq<Suite>, lengths: seq<nat>)
    | Versions(versions: seq<nat>)
    | Signatures(schemes: seq<nat>)
    | Delegated(schemes: seq<nat>)
    | Protocols(protocols: seq<string>)
    | Settings(protocols: seq<string>)
    | SettingsOld(protocols: seq<string>)
    | RecordLimit(limit: nat)

  type Table = map<nat, Payload>

  /** `getExtensionBaseMap`: server name, status request, SCT, padding, extended master secret,
      session ticket, pre-shared key, early data, cookie, PSK modes, NPN, renegotiation. */
  function BaseTable(): Table {
    map[0 := Fixed, 5 := Fixed, 18 := Fixed, 21 := Fixed, 23 := Fixed, 35 := Fixed,
        41 := Fixed, 42 := Fixed, 44 := Fixed, 45 := Fixed, 13172 := Fixed, 65281 := Fixed]
  }

  /** The table up to the point formats.  Certificate compression is there only if algorithms were
      given. */
  function ListsTable(cfg: Config, curves: seq<nat>, points: seq<nat>): Table {
    var lists := BaseTable()[10 := Curves(curves)];
    var compressed := if cfg.certCompression != [] then lists[27 := Compression(cfg.certCompression)] else lists;
    compressed[51 := Shares(cfg.keyShares)][11 := Points(points)]
  }

  /** The table up to the delegated credentials. */
  function AlgorithmsTable(cfg: Config, curves: seq<nat>, points: seq<nat>): Table {
    ListsTable(cfg, curves, points)
      [65037 := Ech(cfg.suites, cfg.payloads)][43 := Versions(cfg.versions)]
      [13 := Signatures(cfg.signatureAlgorithms)][34 := Delegated(cfg.delegatedCredentials)]
  }

  /** The final extension table. */
  function FinalTable(cfg: Config, curves: seq<nat>, points: seq<nat>): Table {
    AlgorithmsTable(cfg, curves, points)
      [16 := Protocols(cfg.alpn)][17513 := SettingsOld(cfg.alps)]
      [17613 := Settings(cfg.alps)][28 := RecordLimit(cfg.recordSizeLimit)]
  }

  predicate Known(cfg: Config, id: nat) {
    id in FinalTable(cfg, [], [])
  }

  lemma FinalKeys(cfg: Config, curves: seq<nat>, points: seq<nat>)
    ensures FinalTable(cfg, curves, points).Keys ==
            BaseTable().Keys + {10, 11, 13, 16, 28, 34, 43, 51, 17513, 17613, 65037}
            + if cfg.certCompression != [] then {27} else {}
  {
  }

  /** The known ids do not depend on the curves and points. */
  lemma TableIds(cfg: Config, curves: seq<nat>, points: seq<nat>)
    ensures forall id :: id in FinalTable(cfg, curves, points) <==> Known(cfg, id)
  {
    FinalKeys(cfg, curves, points);
    FinalKeys(cfg, [], []);
    var t, u := FinalTable(cfg, curves, points), FinalTable(cfg, [], []);
    assert t.Keys == u.Keys;
    assert forall id :: id in t <==> id in t.Keys;
  }

  /** The ids of the base map. */
  predicate IsBaseId(id: nat) {
    || id == 0 || id == 5 || id == 18 || id == 21 || id == 23 || id == 35
    || id == 41 || id == 42 || id == 44 || id == 45 || id == 13172 || id == 65281
  }

  /** The ids added to it in any case. */
  predicate IsAddedId(id: nat) {
    || id == 10 || id == 11 || id == 13 || id == 16 || id == 28 || id == 34
    || id == 43 || id == 51 || id == 17513 || id == 17613 || id == 65037
  }

  lemma BaseId(id: nat)
    ensures id in BaseTable() <==> IsBaseId(id)
  {
  }

  /** The known ids: those of the base map, those always added, and 27 exactly when compression
      algorithms were given. */
  lemma KnownIds(cfg: Config, id: nat)
    ensures Known(cfg, id) <==> IsBaseId(id) || IsAddedId(id) || (id == 27 && cfg.certCompression != [])
  {
    BaseId(id);
  }

  /** What an extension must carry, id by id. */
  function PayloadFor(cfg: Config, curves: seq<nat>, points: seq<nat>, id: nat): Payload {
    if id == GREASE then Grease
    else if id == 10 then Curves(curves)
    else if id == 11 then Points(points)
    else if id == 13 then Signatures(cfg.signatureAlgorithms)
    else if id == 16 then Protocols(cfg.alpn)
    else if id == 27 then Compression(cfg.certCompression)
    else if id == 28 then RecordLimit(cfg.recordSizeLimit)
    else if id == 34 then Delegated(cfg.delegatedCredentials)
    else if id == 43 then Versions(cfg.versions)
    else if id == 51 then Shares(cfg.keyShares)
    else if id == 17513 then SettingsOld(cfg.alps)
    else if id == 17613 then Settings(cfg.alps)
    else if id == 65037 then Ech(cfg.suites, cfg.payloads)
    else Fixed
  }

  /** The table overwritten entry by entry holds, under each id, what that extension must carry. */
  lemma TablePayload(cfg: Config, curves: seq<nat>, points: seq<nat>, id: nat)
    requires id in FinalTable(cfg, curves, points)
    ensures FinalTable(cfg, curves, points)[id] == PayloadFor(cfg, curves, points, id)
  {
    TableBelow(cfg, curves, points);
    BasePayload(id);
  }

  lemma BasePayload(id: nat)
    ensures id in BaseTable() ==> BaseTable()[id] == Fixed
  {
  }

  lemma TableBelow(cfg: Config, curves: seq<nat>, points: seq<nat>)
    ensures Below16(FinalTable(cfg, curves, points))
  {
  }

  predicate Below16(table: Table) {
    GREASE !in table && forall id :: id in table ==> id <= MAX16
  }

  datatype Error = BadNumber(text: string) | UnknownExtension(text: string)

  /** An extension as it stands in the result. */
  datatype Entry = Entry(id: nat, payload: Payload)

  datatype Hello = Hello(cipherSuites: seq<nat>, compressionMethods: seq<nat>, extensions: seq<Entry>)

  /** The index expressions of `stringToSpec` panic on fewer than five parts. */
  datatype Outcome<+T> = Panics | Returns(result: Result<T, Error>)

  // ---------------------------------------------------------------- parsing, on values

  /** `ParseUint` of one text, with its error. */
  function Number(text: string, max: nat): Result<nat, Error> {
    match ParseUint(text, 10, max)
    case None => Err(BadNumber(text))
    case Some(n) => Ok(n)
  }

  /** A parsing loop: it stops at the first text that is not a number in range. */
  function Numbers(texts: seq<string>, max: nat): Result<seq<nat>, Error> {
    if texts == [] then Ok([])
    else
      var before :- Numbers(texts[..|texts| - 1], max);
      var n :- Number(texts[|texts| - 1], max);
      Ok(before + [n])
  }

  /** The fields of curves and point formats may be empty. */
  function OptionalList(field: string): seq<string> {
    if field == "" then [] else Split(field, '-')
  }

  function EntryOf(table: Table, id: nat): Entry
    requires id == GREASE || id in table
  {
    Entry(id, if id == GREASE then Grease else table[id])
  }

  function ExtensionId(table: Table, text: string): (r: Result<nat, Error>)
    ensures r.Ok? ==> r.value == GREASE || r.value in table
  {
    var id :- Number(text, MAX16);
    if id == GREASE || id in table then Ok(id) else Err(UnknownExtension(text))
  }

  /** The extension loop. */
  function Entries(table: Table, texts: seq<string>): Result<seq<Entry>, Error> {
    if texts == [] then Ok([])
    else
      var before :- Entries(table, texts[..|texts| - 1]);
      var id :- ExtensionId(table, texts[|texts| - 1]);
      Ok(before + [EntryOf(table, id)])
  }

  /** `stringToSpec` on the parts: curves first, then points, extensions and ciphers. */
  function ParseParts(parts: seq<string>, cfg: Config): Result<Hello, Error>
    requires |parts| >= 5
  {
    var curves :- Numbers(OptionalList(parts[3]), MAX16);
    var points :- Numbers(OptionalList(parts[4]), MAX8);
    var extensions :- Entries(FinalTable(cfg, curves, points), Split(parts[2], '-'));
    var ciphers :- Numbers(Split(parts[1], '-'), MAX16);
    Ok(Hello(ciphers, [0], extensions))
  }

  function Parse(ja3: string, cfg: Config): Outcome<Hello> {
    var parts := Split(ja3, ',');
    if |parts| < 5 then Panics else Returns(ParseParts(parts, cfg))
  }

  // ---------------------------------------------------------------- what is accepted

  predicate AreNumbers(texts: seq<string>, max: nat) {
    forall t :: t in texts ==> ParseUint(t, 10, max).Some?
  }

  predicate AreExtensions(cfg: Config, texts: seq<string>) {
    forall t :: t in texts ==> IsExtension(cfg, t)
  }

  predicate IsExtension(cfg: Config, text: string) {
    var id := ParseUint(text, 10, MAX16);
    id.Some? && (id.value == GREASE || Known(cfg, id.value))
  }

  lemma {:induction false} NumbersAccepts(texts: seq<string>, max: nat)
    ensures Numbers(texts, max).Ok? <==> AreNumbers(texts, max)
    ensures Numbers(texts, max).Ok? ==> |Numbers(texts, max).value| == |texts|
    ensures Numbers(texts, max).Ok? ==>
              forall i :: 0 <= i < |texts| ==> Some(Numbers(texts, max).value[i]) == ParseUint(texts[i], 10, max)
  {
    if texts != [] {
      NumbersAccepts(texts[..|texts| - 1], max);
      assert texts == texts[..|texts| - 1] + [texts[|texts| - 1]];
    }
  }

  lemma {:induction false} EntriesAccepts(cfg: Config, table: Table, texts: seq<string>)
    requires forall id :: id in table <==> Known(cfg, id)
    ensures Entries(table, texts).Ok? <==> AreExtensions(cfg, texts)
  {
    if texts != [] {
      EntriesAccepts(cfg, table, texts[..|texts| - 1]);
      assert texts == texts[..|texts| - 1] + [texts[|texts| - 1]];
      assert ExtensionId(table, texts[|texts| - 1]).Ok? <==> IsExtension(cfg, texts[|texts| - 1]);
    }
  }

  /** Exact acceptance: with at least five parts, parsing succeeds if and only if ciphers, extensions
      and curves are 16-bit decimals, points 8-bit decimals, and every extension is GREASE or known;
      the fields of curves and points may be empty.  With fewer parts it panics. */
  lemma AcceptedIff(ja3: string, cfg: Config)
    ensures var parts := Split(ja3, ',');
            && (Parse(ja3, cfg).Panics? <==> |parts| < 5)
            && (|parts| >= 5 ==>
                  (Parse(ja3, cfg).result.Ok? <==>
                     && AreNumbers(Split(parts[1], '-'), MAX16)
                     && AreExtensions(cfg, Split(parts[2], '-'))
                     && (parts[3] == "" || AreNumbers(Split(parts[3], '-'), MAX16))
                     && (parts[4] == "" || AreNumbers(Split(parts[4], '-'), MAX8))))
  {
    var parts := Split(ja3, ',');
    if |parts| >= 5 {
      NumbersAccepts(OptionalList(parts[3]), MAX16);
      NumbersAccepts(OptionalList(parts[4]), MAX8);
      NumbersAccepts(Split(parts[1], '-'), MAX16);
      var curves, points := Numbers(OptionalList(parts[3]), MAX16), Numbers(OptionalList(parts[4]), MAX8);
      if curves.Ok? && points.Ok? {
        TableIds(cfg, curves.value, points.value);
        EntriesAccepts(cfg, FinalTable(cfg, curves.value, points.value), Split(parts[2], '-'));
      }
    }
  }

  /** Empty cipher or extension fields are refused. */
  lemma EmptyFieldsRefused(ja3: string, cfg: Config)
    requires var parts := Split(ja3, ','); |parts| >= 5 && (parts[1] == "" || parts[2] == "")
    ensures Parse(ja3, cfg).Returns? && Parse(ja3, cfg).result.Err?
  {
    var parts := Split(ja3, ',');
    AcceptedIff(ja3, cfg);
    assert "" in Split("", '-');
  }

  // ---------------------------------------------------------------- printing and parsing back

  function PrintAll(ns: seq<nat>): seq<string> {
    seq(|ns|, i requires 0 <= i < |ns| => Print(ns[i]))
  }

  /** A JA3 string: version, ciphers, extensions, curves, point formats. */
  function PrintJa3(version: nat, ciphers: seq<nat>, extensions: seq<nat>, curves: seq<nat>, points: seq<nat>): string {
    Join([Print(version), Join(PrintAll(ciphers), '-'), Join(PrintAll(extensions), '-'),
          Join(PrintAll(curves), '-'), Join(PrintAll(points), '-')], ',')
  }

  predicate Below(ns: seq<nat>, max: nat) {
    forall n :: n in ns ==> n <= max
  }

  lemma PrintedList(ns: seq<nat>)
    ensures ns != [] ==> Split(Join(PrintAll(ns), '-'), '-') == PrintAll(ns)
    ensures OptionalList(Join(PrintAll(ns), '-')) == PrintAll(ns)
    ensures ',' !in Join(PrintAll(ns), '-')
  {
    if ns != [] {
      forall t | t in PrintAll(ns) ensures '-' !in t && ',' !in t {
        var i :| 0 <= i < |ns| && PrintAll(ns)[i] == t;
        ParsePrint(ns[i]);
      }
      SplitJoin(PrintAll(ns), '-');
      JoinAvoids(PrintAll(ns), '-', ',');
      ParsePrint(ns[0]);
      JoinNonEmpty(PrintAll(ns), '-');
    }
  }

  lemma {:induction false} JoinAvoids(parts: seq<string>, sep: char, c: char)
    requires sep != c && forall p :: p in parts ==> c !in p
    ensures c !in Join(parts, sep)
  {
    if |parts| > 1 {
      JoinAvoids(parts[1..], sep, c);
    }
  }

  lemma JoinNonEmpty(parts: seq<string>, sep: char)
    requires |parts| > 0 && parts[0] != ""
    ensures Join(parts, sep) != ""
  {
  }

  lemma PrintAllFront(ns: seq<nat>)
    requires ns != []
    ensures |PrintAll(ns)| == |ns| && PrintAll(ns)[..|ns| - 1] == PrintAll(ns[..|ns| - 1])
    ensures PrintAll(ns)[|ns| - 1] == Print(ns[|ns| - 1])
  {
  }

  lemma NumbersStep(texts: seq<string>, front: seq<string>, before: seq<nat>, n: nat, max: nat)
    requires |texts| > 0 && texts[..|texts| - 1] == front && Numbers(front, max) == Ok(before)
    requires Number(texts[|texts| - 1], max) == Ok(n)
    ensures Numbers(texts, max) == Ok(before + [n])
  {
  }

  lemma {:induction false} NumbersPrinted(ns: seq<nat>, max: nat)
    requires Below(ns, max)
    ensures Numbers(PrintAll(ns), max) == Ok(ns)
    decreases |ns|
  {
    if ns != [] {
      var front, last := ns[..|ns| - 1], ns[|ns| - 1];
      assert ns == front + [last] && last in ns;
      assert Below(front, max) by { assert forall n :: n in front ==> n in ns; }
      NumbersPrinted(front, max);
      PrintedNumber(last, max);
      PrintAllFront(ns);
      NumbersStep(PrintAll(ns), PrintAll(front), front, last, max);
    }
  }

  predicate Listable(table: Table, ids: seq<nat>) {
    forall i :: 0 <= i < |ids| ==> ids[i] == GREASE || ids[i] in table
  }

  function EntriesOf(table: Table, ids: seq<nat>): seq<Entry>
    requires Listable(table, ids)
  {
    seq(|ids|, i requires 0 <= i < |ids| => EntryOf(table, ids[i]))
  }

  lemma PrintedId(table: Table, id: nat)
    requires Below16(table) && (id == GREASE || id in table)
    ensures ExtensionId(table, Print(id)) == Ok(id)
  {
    PrintedNumber(id, MAX16);
  }

  lemma PrintedNumber(n: nat, max: nat)
    requires n <= max
    ensures Number(Print(n), max) == Ok(n)
  {
    ParsePrint(n);
  }

  lemma EntriesStep(table: Table, texts: seq<string>, front: seq<string>, before: seq<Entry>, id: nat)
    requires |texts| > 0 && texts[..|texts| - 1] == front && Entries(table, front) == Ok(before)
    requires ExtensionId(table, texts[|texts| - 1]) == Ok(id) && (id == GREASE || id in table)
    ensures Entries(table, texts) == Ok(before + [EntryOf(table, id)])
  {
  }

  lemma EntriesOfFront(table: Table, ids: seq<nat>)
    requires ids != [] && Listable(table, ids)
    ensures EntriesOf(table, ids) == EntriesOf(table, ids[..|ids| - 1]) + [EntryOf(table, ids[|ids| - 1])]
  {
  }

  lemma {:induction false} EntriesPrinted(table: Table, ids: seq<nat>)
    requires Below16(table) && Listable(table, ids)
    ensures Entries(table, PrintAll(ids)) == Ok(EntriesOf(table, ids))
    decreases |ids|
  {
    if ids == [] {
      assert PrintAll(ids) == [] && EntriesOf(table, ids) == [];
    } else {
      var front, last := ids[..|ids| - 1], ids[|ids| - 1];
      EntriesPrinted(table, front);
      PrintedId(table, last);
      PrintAllFront(ids);
      EntriesStep(table, PrintAll(ids), PrintAll(front), EntriesOf(table, front), last);
      EntriesOfFront(table, ids);
    }
  }

  lemma PrintedFields(version: nat, ciphers: seq<nat>, extensions: seq<nat>, curves: seq<nat>, points: seq<nat>)
    ensures Split(PrintJa3(version, ciphers, extensions, curves, points), ',') ==
            [Print(version), Join(PrintAll(ciphers), '-'), Join(PrintAll(extensions), '-'),
             Join(PrintAll(curves), '-'), Join(PrintAll(points), '-')]
  {
    ParsePrint(version);
    PrintedList(ciphers);
    PrintedList(extensions);
    PrintedList(curves);
    PrintedList(points);
    SplitJoin([Print(version), Join(PrintAll(ciphers), '-'), Join(PrintAll(extensions), '-'),
               Join(PrintAll(curves), '-'), Join(PrintAll(points), '-')], ',');
  }

  predicate Recovered(cfg: Config, curves: seq<nat>, points: seq<nat>, id: nat, e: Entry) {
    e == Entry(id, PayloadFor(cfg, curves, points, id))
  }

  lemma EntriesBack(cfg: Config, curves: seq<nat>, points: seq<nat>, ids: seq<nat>)
    requires forall i :: 0 <= i < |ids| ==> ids[i] == GREASE || Known(cfg, ids[i])
    ensures var r := Entries(FinalTable(cfg, curves, points), PrintAll(ids));
            r.Ok? && |r.value| == |ids| && forall i :: 0 <= i < |ids| ==>
                Recovered(cfg, curves, points, ids[i], r.value[i])
  {
    var table := FinalTable(cfg, curves, points);
    TableIds(cfg, curves, points);
    TableBelow(cfg, curves, points);
    EntriesPrinted(table, ids);
    forall i | 0 <= i < |ids| ensures Recovered(cfg, curves, points, ids[i], EntriesOf(table, ids)[i]) {
      if ids[i] != GREASE { TablePayload(cfg, curves, points, ids[i]); }
    }
  }

  /** Printing a JA3 and parsing it gives back the ciphers and the extension ids in order, each with
      what it must carry: the curves and point formats wherever extensions 10 and 11 are listed. */
  lemma ParsePrinted(version: nat, ciphers: seq<nat>, extensions: seq<nat>, curves: seq<nat>, points: seq<nat>,
        cfg: Config)
    requires ciphers != [] && Below(ciphers, MAX16)
    requires extensions != []
    requires forall i :: 0 <= i < |extensions| ==> extensions[i] == GREASE || Known(cfg, extensions[i])
    requires Below(curves, MAX16) && Below(points, MAX8)
    ensures var out := Parse(PrintJa3(version, ciphers, extensions, curves, points), cfg);
            && out.Returns? && out.result.Ok?
            && out.result.value.cipherSuites == ciphers && out.result.value.compressionMethods == [0]
            && |out.result.value.extensions| == |extensions|
            && forall i :: 0 <= i < |extensions| ==>
                Recovered(cfg, curves, points, extensions[i], out.result.value.extensions[i])
  {
    PrintedFields(version, ciphers, extensions, curves, points);
    PrintedList(ciphers);
    PrintedList(extensions);
    PrintedList(curves);
    PrintedList(points);
    NumbersPrinted(ciphers, MAX16);
    NumbersPrinted(curves, MAX16);
    NumbersPrinted(points, MAX8);
    EntriesBack(cfg, curves, points, extensions);
  }
}
