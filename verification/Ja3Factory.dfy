/** `GetSpecFactoryFromJa3String`: names are mapped to numbers, then the JA3 string is parsed.  The
    name tables are parameters. */
module Ja3Factory {
  import opened Options
  import opened Text
  import opened Numerals
  import opened Ja3
  import opened Ja3Objects

  type Names = map<string, nat>

  datatype Tables = Tables(signatures: Names, delegated: Names, kdfs: Names, aeads: Names, versions: Names,
        curves: Names, compression: Names)

  datatype Candidate = Candidate(kdfId: string, aeadId: string)

  datatype Inputs = Inputs(
    signatures: seq<string>, delegated: seq<string>, versions: seq<string>, keyShares: seq<string>, alpn: seq<string>,
    alps: seq<string>, candidates: seq<Candidate>, payloads: seq<nat>, compression: seq<string>, recordSizeLimit: nat)

  /** A known name, or else a 16-bit hexadecimal number. */
  function Algorithm(table: Names, name: string): Result<nat, string> {
    if name in table then Ok(table[name])
    else match ParseUint(name, 16, MAX16)
      case Some(n) => Ok(n)
      case None => Err(name)
  }

  function Algorithms(table: Names, names: seq<string>): Result<seq<nat>, string> {
    if names == [] then Ok([])
    else
      var before :- Algorithms(table, names[..|names| - 1]);
      var n :- Algorithm(table, names[|names| - 1]);
      Ok(before + [n])
  }

  /** Two known names, or else two 16-bit hexadecimal numbers. */
  function SuiteOf(kdfs: Names, aeads: Names, c: Candidate): Result<Suite, string> {
    if c.kdfId in kdfs && c.aeadId in aeads then Ok(Suite(kdfs[c.kdfId], aeads[c.aeadId]))
    else
      var kdf :- Algorithm(map[], c.kdfId);
      var aead :- Algorithm(map[], c.aeadId);
      Ok(Suite(kdf, aead))
  }

  function Suites(kdfs: Names, aeads: Names, cs: seq<Candidate>): Result<seq<Suite>, string> {
    if cs == [] then Ok([])
    else
      var before :- Suites(kdfs, aeads, cs[..|cs| - 1]);
      var suite :- SuiteOf(kdfs, aeads, cs[|cs| - 1]);
      Ok(before + [suite])
  }

  /** Unknown names are dropped. */
  function KnownOnly(table: Names, names: seq<string>): seq<nat> {
    if names == [] then []
    else
      var before, name := KnownOnly(table, names[..|names| - 1]), names[|names| - 1];
      if name in table then before + [table[name]] else before
  }

  function ShareOf(table: Names, name: string): KeyShare
    requires name in table
  {
    KeyShare(table[name], if name == "GREASE" then [0] else [])
  }

  function KeyShares(table: Names, names: seq<string>): seq<KeyShare> {
    if names == [] then []
    else
      var before, name := KeyShares(table, names[..|names| - 1]), names[|names| - 1];
      if name in table then before + [ShareOf(table, name)] else before
  }

  /** The arguments the factory hands to `stringToSpec`, or the first name it refuses. */
  function ConfigOf(t: Tables, i: Inputs): Result<Config, string> {
    var signatures :- Algorithms(t.signatures, i.signatures);
    var delegated :- Algorithms(t.delegated, i.delegated);
    var suites :- Suites(t.kdfs, t.aeads, i.candidates);
    Ok(Config(signatures, delegated, KnownOnly(t.versions, i.versions), KeyShares(t.curves, i.keyShares),
              suites, i.payloads, i.alpn, i.alps, KnownOnly(t.compression, i.compression), i.recordSizeLimit))
  }

  // ---------------------------------------------------------------- what is accepted

  predicate IsHex(name: string) {
    ParseUint(name, 16, MAX16).Some?
  }

  lemma {:induction false} AlgorithmsAccepts(table: Names, names: seq<string>)
    ensures Algorithms(table, names).Ok? <==> forall n :: n in names ==> n in table || IsHex(n)
    ensures Algorithms(table, names).Ok? ==>
              && |Algorithms(table, names).value| == |names|
              && forall i :: 0 <= i < |names| ==> Algorithm(table, names[i]) == Ok(Algorithms(table, names).value[i])
  {
    if names != [] {
      AlgorithmsAccepts(table, names[..|names| - 1]);
      assert names == names[..|names| - 1] + [names[|names| - 1]];
    }
  }

  lemma {:induction false} SuitesAccepts(kdfs: Names, aeads: Names, cs: seq<Candidate>)
    ensures Suites(kdfs, aeads, cs).Ok? <==>
              forall c :: c in cs ==> (c.kdfId in kdfs && c.aeadId in aeads) || (IsHex(c.kdfId) && IsHex(c.aeadId))
    ensures Suites(kdfs, aeads, cs).Ok? ==>
              && |Suites(kdfs, aeads, cs).value| == |cs|
              && forall i :: 0 <= i < |cs| ==> SuiteOf(kdfs, aeads, cs[i]) == Ok(Suites(kdfs, aeads, cs).value[i])
  {
    if cs != [] {
      SuitesAccepts(kdfs, aeads, cs[..|cs| - 1]);
      assert cs == cs[..|cs| - 1] + [cs[|cs| - 1]];
    }
  }

  lemma {:induction false} KnownOnlyEmpty(table: Names, names: seq<string>)
    ensures KnownOnly(table, names) == [] <==> forall n :: n in names ==> n !in table
  {
    if names != [] {
      KnownOnlyEmpty(table, names[..|names| - 1]);
      assert names == names[..|names| - 1] + [names[|names| - 1]];
    }
  }

  /** The factory gets as far as parsing exactly when each algorithm is a known name or 16-bit
      hexadecimal, and each candidate suite is two known names or two 16-bit hexadecimals: a known
      name beside a hexadecimal is refused.  Extension 27 is then accepted exactly when one of the
      compression names is known. */
  lemma FactoryAcceptedIff(t: Tables, i: Inputs)
    ensures ConfigOf(t, i).Ok? <==>
              && (forall n :: n in i.signatures ==> n in t.signatures || IsHex(n))
              && (forall n :: n in i.delegated ==> n in t.delegated || IsHex(n))
              && (forall c :: c in i.candidates ==>
                    (c.kdfId in t.kdfs && c.aeadId in t.aeads) || (IsHex(c.kdfId) && IsHex(c.aeadId)))
    ensures ConfigOf(t, i).Ok? ==>
              (Known(ConfigOf(t, i).value, 27) <==> exists n :: n in i.compression && n in t.compression)
  {
    AlgorithmsAccepts(t.signatures, i.signatures);
    AlgorithmsAccepts(t.delegated, i.delegated);
    SuitesAccepts(t.kdfs, t.aeads, i.candidates);
    KnownOnlyEmpty(t.compression, i.compression);
    if ConfigOf(t, i).Ok? {
      KnownIds(ConfigOf(t, i).value, 27);
    }
  }

  // ---------------------------------------------------------------- the same in plain terms

  /** A known name stands for its number in the table, any other for its value as a 16-bit
      hexadecimal. */
  predicate Stands(table: Names, name: string, n: nat) {
    if name in table then n == table[name] else ParseUint(name, 16, 0xFFFF) == Some(n)
  }

  predicate AllStand(table: Names, names: seq<string>, ns: seq<nat>) {
    |ns| == |names| && forall k :: 0 <= k < |names| ==> Stands(table, names[k], ns[k])
  }

  /** Both names of a suite are known, or both are hexadecimals; each stands on its own side. */
  predicate SuiteStands(kdfs: Names, aeads: Names, c: Candidate, s: Suite) {
    if c.kdfId in kdfs && c.aeadId in aeads then s.kdf == kdfs[c.kdfId] && s.aead == aeads[c.aeadId]
    else ParseUint(c.kdfId, 16, 0xFFFF) == Some(s.kdf) && ParseUint(c.aeadId, 16, 0xFFFF) == Some(s.aead)
  }

  predicate AllSuitesStand(kdfs: Names, aeads: Names, cs: seq<Candidate>, suites: seq<Suite>) {
    |suites| == |cs| && forall k :: 0 <= k < |cs| ==> SuiteStands(kdfs, aeads, cs[k], suites[k])
  }

  /** `at` lists exactly the positions of the known names, in order. */
  ghost predicate KnownAt(table: Names, names: seq<string>, at: seq<nat>) {
    && (forall k, l :: 0 <= k < l < |at| ==> at[k] < at[l])
    && (forall i: nat :: i in at <==> i < |names| && names[i] in table)
  }

  predicate NumberAt(table: Names, names: seq<string>, n: nat, at: nat) {
    at < |names| && names[at] in table && n == table[names[at]]
  }

  /** The numbers of the known names, in order. */
  ghost predicate NumbersKnown(table: Names, names: seq<string>, ns: seq<nat>, at: seq<nat>) {
    KnownAt(table, names, at) && |ns| == |at| && forall k :: 0 <= k < |at| ==> NumberAt(table, names, ns[k], at[k])
  }

  predicate ShareAt(table: Names, names: seq<string>, s: KeyShare, at: nat) {
    && at < |names| && names[at] in table && s.group == table[names[at]]
    && s.data == if names[at] == "GREASE" then [0] else []
  }

  /** A key share for each known curve, in order, with the data [0] exactly for "GREASE". */
  ghost predicate SharesKnown(table: Names, names: seq<string>, shares: seq<KeyShare>, at: seq<nat>) {
    && KnownAt(table, names, at) && |shares| == |at|
    && forall k :: 0 <= k < |at| ==> ShareAt(table, names, shares[k], at[k])
  }

  /** The numbers between the dashes of a field. */
  predicate Decimals(field: string, max: nat, ns: seq<nat>) {
    var texts := Split(field, '-');
    |ns| == |texts| && forall k :: 0 <= k < |texts| ==> ParseUint(texts[k], 10, max) == Some(ns[k])
  }

  /** What the extension with that id carries, input by input. */
  ghost predicate Carries(parts: seq<string>, t: Tables, i: Inputs, id: nat, p: Payload)
    requires |parts| >= 5
  {
    && (id == 10 ==> p.Curves? && if parts[3] == "" then p.curves == [] else Decimals(parts[3], 0xFFFF, p.curves))
    && (id == 11 ==> p.Points? && if parts[4] == "" then p.points == [] else Decimals(parts[4], 0xFF, p.points))
    && (id == 13 ==> p.Signatures? && AllStand(t.signatures, i.signatures, p.schemes))
    && (id == 16 ==> p == Protocols(i.alpn))
    && (id == 27 ==> p.Compression? && exists at :: NumbersKnown(t.compression, i.compression, p.algorithms, at))
    && (id == 28 ==> p == RecordLimit(i.recordSizeLimit))
    && (id == 34 ==> p.Delegated? && AllStand(t.delegated, i.delegated, p.schemes))
    && (id == 43 ==> p.Versions? && exists at :: NumbersKnown(t.versions, i.versions, p.versions, at))
    && (id == 51 ==> p.Shares? && exists at :: SharesKnown(t.curves, i.keyShares, p.shares, at))
    && (id == 2570 ==> p == Grease)
    && (id == 17513 ==> p == SettingsOld(i.alps))
    && (id == 17613 ==> p == Settings(i.alps))
    && (id == 65037 ==>
          p.Ech? && AllSuitesStand(t.kdfs, t.aeads, i.candidates, p.suites) && p.lengths == i.payloads)
    && (id in {0, 5, 18, 21, 23, 35, 41, 42, 44, 45, 13172, 65281} ==> p == Fixed)
  }

  /** The extensions a JA3 string may list; 27 only if some compression name is known. */
  predicate Allowed(t: Tables, i: Inputs, id: nat) {
    && id in {0, 5, 10, 11, 13, 16, 18, 21, 23, 27, 28, 34, 35, 41, 42, 43, 44, 45, 51, 2570, 13172, 17513, 17613,
              65037, 65281}
    && (id == 27 ==> exists n :: n in i.compression && n in t.compression)
  }

  /** The whole result: ciphers and extension ids are those of the JA3 string, in order. */
  ghost predicate Fits(ja3: string, t: Tables, i: Inputs, cipherSuites: seq<nat>, compressionMethods: seq<nat>,
        extensions: seq<Entry>)
  {
    var parts := Split(ja3, ',');
    && |parts| >= 5
    && Decimals(parts[1], 0xFFFF, cipherSuites)
    && compressionMethods == [0]
    && |extensions| == |Split(parts[2], '-')|
    && forall k :: 0 <= k < |extensions| ==>
        && ParseUint(Split(parts[2], '-')[k], 10, 0xFFFF) == Some(extensions[k].id)
        && Allowed(t, i, extensions[k].id)
        && Carries(parts, t, i, extensions[k].id, extensions[k].payload)
  }

  /** The arguments of `stringToSpec`. */
  ghost predicate ConfigFits(t: Tables, i: Inputs, cfg: Config) {
    && AllStand(t.signatures, i.signatures, cfg.signatureAlgorithms)
    && AllStand(t.delegated, i.delegated, cfg.delegatedCredentials)
    && (exists at :: NumbersKnown(t.versions, i.versions, cfg.versions, at))
    && (exists at :: SharesKnown(t.curves, i.keyShares, cfg.keyShares, at))
    && AllSuitesStand(t.kdfs, t.aeads, i.candidates, cfg.suites) && cfg.payloads == i.payloads
    && (exists at :: NumbersKnown(t.compression, i.compression, cfg.certCompression, at))
    && cfg.alpn == i.alpn && cfg.alps == i.alps && cfg.recordSizeLimit == i.recordSizeLimit
  }

  /** One more name. */
  lemma KnownAtEnd(table: Names, names: seq<string>, at: seq<nat>)
    requires names != [] && KnownAt(table, names[..|names| - 1], at)
    ensures KnownAt(table, names, if names[|names| - 1] in table then at + [|names| - 1] else at)
    ensures forall k :: 0 <= k < |at| ==> at[k] < |names| - 1
  {
    var n := |names| - 1;
    forall k | 0 <= k < |at| ensures at[k] < n { assert at[k] in at; }
    forall i: nat ensures i in at + [n] <==> i in at || i == n {
      if i == n { assert (at + [n])[|at|] == n; }
    }
  }

  lemma NumbersEnd(table: Names, names: seq<string>, ns: seq<nat>, at: seq<nat>)
    requires names != [] && NumbersKnown(table, names[..|names| - 1], ns, at)
    ensures var n := |names| - 1;
            if names[n] in table then NumbersKnown(table, names, ns + [table[names[n]]], at + [n])
            else NumbersKnown(table, names, ns, at)
  {
    KnownAtEnd(table, names, at);
    forall k | 0 <= k < |at| ensures NumberAt(table, names, ns[k], at[k]) {
      assert NumberAt(table, names[..|names| - 1], ns[k], at[k]);
    }
  }

  lemma {:induction false} KnownPositions(table: Names, names: seq<string>) returns (at: seq<nat>)
    ensures NumbersKnown(table, names, KnownOnly(table, names), at)
  {
    if names == [] {
      at := [];
    } else {
      var n := |names| - 1;
      var front := KnownPositions(table, names[..n]);
      NumbersEnd(table, names, KnownOnly(table, names[..n]), front);
      at := if names[n] in table then front + [n] else front;
    }
  }

  lemma SharesEnd(table: Names, names: seq<string>, shares: seq<KeyShare>, at: seq<nat>)
    requires names != [] && SharesKnown(table, names[..|names| - 1], shares, at)
    ensures var n := |names| - 1;
            if names[n] in table then SharesKnown(table, names, shares + [ShareOf(table, names[n])], at + [n])
            else SharesKnown(table, names, shares, at)
  {
    KnownAtEnd(table, names, at);
    forall k | 0 <= k < |at| ensures ShareAt(table, names, shares[k], at[k]) {
      assert ShareAt(table, names[..|names| - 1], shares[k], at[k]);
    }
  }

  lemma {:induction false} SharePositions(table: Names, names: seq<string>) returns (at: seq<nat>)
    ensures SharesKnown(table, names, KeyShares(table, names), at)
  {
    if names == [] {
      at := [];
    } else {
      var n := |names| - 1;
      var front := SharePositions(table, names[..n]);
      SharesEnd(table, names, KeyShares(table, names[..n]), front);
      at := if names[n] in table then front + [n] else front;
    }
  }

  lemma ConfigGives(t: Tables, i: Inputs)
    requires ConfigOf(t, i).Ok?
    ensures ConfigFits(t, i, ConfigOf(t, i).value)
  {
    AlgorithmsAccepts(t.signatures, i.signatures);
    AlgorithmsAccepts(t.delegated, i.delegated);
    SuitesAccepts(t.kdfs, t.aeads, i.candidates);
    var versions := KnownPositions(t.versions, i.versions);
    var shares := SharePositions(t.curves, i.keyShares);
    var compression := KnownPositions(t.compression, i.compression);
  }

  lemma {:induction false} EntriesGive(table: Table, texts: seq<string>)
    requires Entries(table, texts).Ok?
    ensures var es := Entries(table, texts).value;
            |es| == |texts| && forall k :: 0 <= k < |es| ==>
                && ParseUint(texts[k], 10, MAX16) == Some(es[k].id)
                && (es[k].id == GREASE || es[k].id in table) && es[k] == EntryOf(table, es[k].id)
  {
    if texts != [] {
      EntriesGive(table, texts[..|texts| - 1]);
    }
  }

  lemma PayloadCarried(parts: seq<string>, t: Tables, i: Inputs, cfg: Config, curves: seq<nat>, points: seq<nat>,
        id: nat)
    requires |parts| >= 5 && ConfigFits(t, i, cfg)
    requires if parts[3] == "" then curves == [] else Decimals(parts[3], 0xFFFF, curves)
    requires if parts[4] == "" then points == [] else Decimals(parts[4], 0xFF, points)
    requires id == GREASE || Known(cfg, id)
    ensures Carries(parts, t, i, id, PayloadFor(cfg, curves, points, id))
  {
    KnownIds(cfg, id);
  }

  lemma NumbersGive(field: string, max: nat)
    requires Numbers(OptionalList(field), max).Ok?
    ensures var ns := Numbers(OptionalList(field), max).value;
            if field == "" then ns == [] else Decimals(field, max, ns)
  {
    NumbersAccepts(OptionalList(field), max);
  }

  lemma ParseGives(ja3: string, t: Tables, i: Inputs, cfg: Config)
    requires ConfigFits(t, i, cfg) && Parse(ja3, cfg).Returns? && Parse(ja3, cfg).result.Ok?
    ensures var hello := Parse(ja3, cfg).result.value;
            Fits(ja3, t, i, hello.cipherSuites, hello.compressionMethods, hello.extensions)
  {
    var parts, hello := Split(ja3, ','), Parse(ja3, cfg).result.value;
    var curves := Numbers(OptionalList(parts[3]), MAX16).value;
    var points := Numbers(OptionalList(parts[4]), MAX8).value;
    NumbersGive(parts[3], MAX16);
    NumbersGive(parts[4], MAX8);
    NumbersAccepts(Split(parts[1], '-'), MAX16);
    EntriesGive(FinalTable(cfg, curves, points), Split(parts[2], '-'));
    TableIds(cfg, curves, points);
    forall k | 0 <= k < |hello.extensions|
      ensures Allowed(t, i, hello.extensions[k].id)
      ensures Carries(parts, t, i, hello.extensions[k].id, hello.extensions[k].payload)
    {
      var id := hello.extensions[k].id;
      if id != GREASE { TablePayload(cfg, curves, points, id); }
      PayloadCarried(parts, t, i, cfg, curves, points, id);
      KnownAllowed(t, i, cfg, id);
    }
  }

  lemma CompressionKnown(table: Names, names: seq<string>, ns: seq<nat>, at: seq<nat>)
    requires NumbersKnown(table, names, ns, at)
    ensures ns != [] <==> exists n :: n in names && n in table
  {
    if n :| n in names && n in table {
      var k :| 0 <= k < |names| && names[k] == n;
      assert k in at;
    }
    if ns != [] {
      assert names[at[0]] in names;
    }
  }

  lemma KnownAllowed(t: Tables, i: Inputs, cfg: Config, id: nat)
    requires ConfigFits(t, i, cfg)
    ensures id == GREASE || Known(cfg, id) <==> Allowed(t, i, id)
  {
    var at :| NumbersKnown(t.compression, i.compression, cfg.certCompression, at);
    CompressionKnown(t.compression, i.compression, cfg.certCompression, at);
    KnownIds(cfg, id);
  }

  // ---------------------------------------------------------------- refusals, in plain terms

  /** `e` is the first name without a meaning. */
  ghost predicate FirstRefused(table: Names, names: seq<string>, e: string) {
    exists k :: 0 <= k < |names| && names[k] == e && !Meant(table, e)
      && forall j :: 0 <= j < k ==> Meant(table, names[j])
  }

  predicate Meant(table: Names, name: string) {
    name in table || ParseUint(name, 16, 0xFFFF).Some?
  }

  predicate AllMeant(table: Names, names: seq<string>) {
    forall n :: n in names ==> Meant(table, n)
  }

  predicate SuiteMeant(t: Tables, c: Candidate) {
    || (c.kdfId in t.kdfs && c.aeadId in t.aeads)
    || (ParseUint(c.kdfId, 16, 0xFFFF).Some? && ParseUint(c.aeadId, 16, 0xFFFF).Some?)
  }

  /** `e` is the name refused in the first suite without a meaning: the first of its two that is not a
      hexadecimal. */
  ghost predicate FirstSuiteRefused(t: Tables, cs: seq<Candidate>, e: string) {
    exists k :: 0 <= k < |cs| && !SuiteMeant(t, cs[k]) && (forall j :: 0 <= j < k ==> SuiteMeant(t, cs[j]))
      && e == if ParseUint(cs[k].kdfId, 16, 0xFFFF).None? then cs[k].kdfId else cs[k].aeadId
  }

  /** The factory refuses a name: signature algorithms come first, then delegated credentials, then
      suites. */
  ghost predicate RefusesName(t: Tables, i: Inputs, e: string) {
    if !AllMeant(t.signatures, i.signatures) then FirstRefused(t.signatures, i.signatures, e)
    else if !AllMeant(t.delegated, i.delegated) then FirstRefused(t.delegated, i.delegated, e)
    else FirstSuiteRefused(t, i.candidates, e)
  }

  lemma {:induction false} AlgorithmsRefuse(table: Names, names: seq<string>)
    requires Algorithms(table, names).Err?
    ensures !AllMeant(table, names) && FirstRefused(table, names, Algorithms(table, names).error)
  {
    var n := |names| - 1;
    assert names == names[..n] + [names[n]];
    AlgorithmsAccepts(table, names);
    if Algorithms(table, names[..n]).Err? {
      AlgorithmsRefuse(table, names[..n]);
    } else {
      AlgorithmsAccepts(table, names[..n]);
    }
  }

  /** Where the loop over the suites stops. */
  lemma {:induction false} SuitesStopAt(kdfs: Names, aeads: Names, cs: seq<Candidate>) returns (k: nat)
    requires Suites(kdfs, aeads, cs).Err?
    ensures k < |cs| && Suites(kdfs, aeads, cs[..k]).Ok?
    ensures SuiteOf(kdfs, aeads, cs[k]) == Err(Suites(kdfs, aeads, cs).error)
  {
    k := |cs| - 1;
    if Suites(kdfs, aeads, cs[..k]).Err? {
      var front := cs[..k];
      k := SuitesStopAt(kdfs, aeads, front);
      assert front[..k] == cs[..k];
    }
  }

  lemma SuitesRefuse(t: Tables, cs: seq<Candidate>)
    requires Suites(t.kdfs, t.aeads, cs).Err?
    ensures FirstSuiteRefused(t, cs, Suites(t.kdfs, t.aeads, cs).error)
  {
    var k := SuitesStopAt(t.kdfs, t.aeads, cs);
    SuitesAccepts(t.kdfs, t.aeads, cs[..k]);
    forall j | 0 <= j < k ensures SuiteMeant(t, cs[j]) {
      assert cs[..k][j] in cs[..k];
    }
  }

  lemma ConfigRefuses(t: Tables, i: Inputs)
    requires ConfigOf(t, i).Err?
    ensures RefusesName(t, i, ConfigOf(t, i).error)
  {
    AlgorithmsAccepts(t.signatures, i.signatures);
    AlgorithmsAccepts(t.delegated, i.delegated);
    if Algorithms(t.signatures, i.signatures).Err? {
      AlgorithmsRefuse(t.signatures, i.signatures);
    } else if Algorithms(t.delegated, i.delegated).Err? {
      AlgorithmsRefuse(t.delegated, i.delegated);
    } else {
      SuitesRefuse(t, i.candidates);
    }
  }

  predicate AreDecimals(texts: seq<string>, max: nat) {
    forall text :: text in texts ==> ParseUint(text, 10, max).Some?
  }

  /** The error names the first text that is not a decimal in range. */
  ghost predicate FirstBad(texts: seq<string>, max: nat, e: Error) {
    exists k :: 0 <= k < |texts| && ParseUint(texts[k], 10, max).None? && e == BadNumber(texts[k])
      && forall j :: 0 <= j < k ==> ParseUint(texts[j], 10, max).Some?
  }

  predicate AllowedText(t: Tables, i: Inputs, text: string) {
    var id := ParseUint(text, 10, 0xFFFF);
    id.Some? && Allowed(t, i, id.value)
  }

  ghost predicate FirstBadExtension(t: Tables, i: Inputs, texts: seq<string>, e: Error) {
    exists k :: 0 <= k < |texts| && !AllowedText(t, i, texts[k])
      && (forall j :: 0 <= j < k ==> AllowedText(t, i, texts[j]))
      && e == if ParseUint(texts[k], 10, 0xFFFF).None? then BadNumber(texts[k]) else UnknownExtension(texts[k])
  }

  /** Parsing refuses a text: curves come first, then point formats, extensions and ciphers. */
  ghost predicate RefusesText(ja3: string, t: Tables, i: Inputs, e: Error) {
    var parts := Split(ja3, ',');
    && |parts| >= 5
    && var curves := if parts[3] == "" then [] else Split(parts[3], '-');
       var points := if parts[4] == "" then [] else Split(parts[4], '-');
       if !AreDecimals(curves, 0xFFFF) then FirstBad(curves, 0xFFFF, e)
       else if !AreDecimals(points, 0xFF) then FirstBad(points, 0xFF, e)
       else if exists text :: text in Split(parts[2], '-') && !AllowedText(t, i, text)
       then FirstBadExtension(t, i, Split(parts[2], '-'), e)
       else FirstBad(Split(parts[1], '-'), 0xFFFF, e)
  }

  lemma {:induction false} NumbersRefuse(texts: seq<string>, max: nat)
    requires Numbers(texts, max).Err?
    ensures FirstBad(texts, max, Numbers(texts, max).error)
  {
    var n := |texts| - 1;
    if Numbers(texts[..n], max).Err? {
      NumbersRefuse(texts[..n], max);
    } else {
      NumbersAccepts(texts[..n], max);
    }
  }

  /** Where the extension loop stops. */
  lemma {:induction false} EntriesStopAt(table: Table, texts: seq<string>) returns (k: nat)
    requires Entries(table, texts).Err?
    ensures k < |texts| && Entries(table, texts[..k]).Ok?
    ensures ExtensionId(table, texts[k]) == Err(Entries(table, texts).error)
  {
    k := |texts| - 1;
    if Entries(table, texts[..k]).Err? {
      var front := texts[..k];
      k := EntriesStopAt(table, front);
      assert front[..k] == texts[..k];
    }
  }

  lemma EntriesRefuse(t: Tables, i: Inputs, table: Table, texts: seq<string>)
    requires forall id :: id == GREASE || id in table <==> Allowed(t, i, id)
    requires Entries(table, texts).Err?
    ensures FirstBadExtension(t, i, texts, Entries(table, texts).error)
  {
    var k := EntriesStopAt(table, texts);
    EntriesGive(table, texts[..k]);
    forall j | 0 <= j < k ensures AllowedText(t, i, texts[j]) {
      assert texts[..k][j] == texts[j];
    }
  }

  lemma ParseRefuses(ja3: string, t: Tables, i: Inputs, cfg: Config)
    requires ConfigFits(t, i, cfg) && Parse(ja3, cfg).Returns? && Parse(ja3, cfg).result.Err?
    ensures RefusesText(ja3, t, i, Parse(ja3, cfg).result.error)
  {
    var parts := Split(ja3, ',');
    var curves, points := Numbers(OptionalList(parts[3]), MAX16), Numbers(OptionalList(parts[4]), MAX8);
    NumbersAccepts(OptionalList(parts[3]), MAX16);
    NumbersAccepts(OptionalList(parts[4]), MAX8);
    if curves.Err? {
      NumbersRefuse(OptionalList(parts[3]), MAX16);
    } else if points.Err? {
      NumbersRefuse(OptionalList(parts[4]), MAX8);
    } else {
      ExtensionsOrCiphersRefuse(ja3, t, i, cfg, curves.value, points.value);
    }
  }

  lemma ExtensionsOrCiphersRefuse(ja3: string, t: Tables, i: Inputs, cfg: Config, curves: seq<nat>, points: seq<nat>)
    requires |Split(ja3, ',')| >= 5 && ConfigFits(t, i, cfg)
    ensures var parts := Split(ja3, ',');
            var extensions := Entries(FinalTable(cfg, curves, points), Split(parts[2], '-'));
            var ciphers := Numbers(Split(parts[1], '-'), MAX16);
            && (extensions.Err? ==>
                  && (exists text :: text in Split(parts[2], '-') && !AllowedText(t, i, text))
                  && FirstBadExtension(t, i, Split(parts[2], '-'), extensions.error))
            && (extensions.Ok? ==> forall text :: text in Split(parts[2], '-') ==> AllowedText(t, i, text))
            && (ciphers.Err? ==> FirstBad(Split(parts[1], '-'), MAX16, ciphers.error))
  {
    var parts, table := Split(ja3, ','), FinalTable(cfg, curves, points);
    forall id ensures id == GREASE || id in table <==> Allowed(t, i, id) {
      TableIds(cfg, curves, points);
      KnownAllowed(t, i, cfg, id);
    }
    if Entries(table, Split(parts[2], '-')).Err? {
      EntriesRefuse(t, i, table, Split(parts[2], '-'));
    } else {
      EntriesGive(table, Split(parts[2], '-'));
    }
    if Numbers(Split(parts[1], '-'), MAX16).Err? {
      NumbersRefuse(Split(parts[1], '-'), MAX16);
    }
  }

  // ---------------------------------------------------------------- the loops

  lemma {:induction false} AlgorithmsStop(table: Names, names: seq<string>, i: nat)
    requires i <= |names| && Algorithms(table, names[..i]).Err?
    ensures Algorithms(table, names) == Algorithms(table, names[..i])
    decreases |names| - i
  {
    if i == |names| {
      assert names[..i] == names;
    } else {
      assert names[..i + 1][..i] == names[..i];
      AlgorithmsStop(table, names, i + 1);
    }
  }

  method MapAlgorithms(table: Names, names: seq<string>) returns (r: Result<seq<nat>, string>)
    ensures r == Algorithms(table, names)
  {
    var mapped := [];
    for i := 0 to |names|
      invariant Algorithms(table, names[..i]) == Ok(mapped)
    {
      assert names[..i + 1][..i] == names[..i];
      if names[i] in table {
        mapped := mapped + [table[names[i]]];
      } else {
        match ParseUint(names[i], 16, MAX16) {
          case None =>
            AlgorithmsStop(table, names, i + 1);
            return Err(names[i]);
          case Some(n) =>
            mapped := mapped + [n];
        }
      }
    }
    assert names[..|names|] == names;
    r := Ok(mapped);
  }

  lemma {:induction false} SuitesStop(kdfs: Names, aeads: Names, cs: seq<Candidate>, i: nat)
    requires i <= |cs| && Suites(kdfs, aeads, cs[..i]).Err?
    ensures Suites(kdfs, aeads, cs) == Suites(kdfs, aeads, cs[..i])
    decreases |cs| - i
  {
    if i == |cs| {
      assert cs[..i] == cs;
    } else {
      assert cs[..i + 1][..i] == cs[..i];
      SuitesStop(kdfs, aeads, cs, i + 1);
    }
  }

  method MapSuites(kdfs: Names, aeads: Names, cs: seq<Candidate>) returns (r: Result<seq<Suite>, string>)
    ensures r == Suites(kdfs, aeads, cs)
  {
    var mapped := [];
    for i := 0 to |cs|
      invariant Suites(kdfs, aeads, cs[..i]) == Ok(mapped)
    {
      assert cs[..i + 1][..i] == cs[..i];
      var c := cs[i];
      if c.kdfId in kdfs && c.aeadId in aeads {
        mapped := mapped + [Suite(kdfs[c.kdfId], aeads[c.aeadId])];
      } else {
        var kdf, aead := ParseUint(c.kdfId, 16, MAX16), ParseUint(c.aeadId, 16, MAX16);
        if kdf.None? || aead.None? {
          SuitesStop(kdfs, aeads, cs, i + 1);
          return Err(if kdf.None? then c.kdfId else c.aeadId);
        }
        mapped := mapped + [Suite(kdf.value, aead.value)];
      }
    }
    assert cs[..|cs|] == cs;
    r := Ok(mapped);
  }

  method MapKnown(table: Names, names: seq<string>) returns (mapped: seq<nat>)
    ensures mapped == KnownOnly(table, names)
  {
    mapped := [];
    for i := 0 to |names|
      invariant mapped == KnownOnly(table, names[..i])
    {
      assert names[..i + 1][..i] == names[..i];
      if names[i] in table {
        mapped := mapped + [table[names[i]]];
      }
    }
    assert names[..|names|] == names;
  }

  method MapKeyShares(table: Names, names: seq<string>) returns (mapped: seq<KeyShare>)
    ensures mapped == KeyShares(table, names)
  {
    mapped := [];
    for i := 0 to |names|
      invariant mapped == KeyShares(table, names[..i])
    {
      assert names[..i + 1][..i] == names[..i];
      if names[i] in table {
        var data := if names[i] == "GREASE" then [0] else [];
        mapped := mapped + [KeyShare(table[names[i]], data)];
      }
    }
    assert names[..|names|] == names;
  }

  /** What the function `GetSpecFactoryFromJa3String` returns does, in plain terms. */
  ghost predicate Answers(ja3: string, t: Tables, i: Inputs, r: Result<Outcome<ClientHelloSpec>, string>) {
    && (r.Ok? <==>
          && AllMeant(t.signatures, i.signatures) && AllMeant(t.delegated, i.delegated)
          && forall c :: c in i.candidates ==> SuiteMeant(t, c))
    && match r
       case Err(name) => RefusesName(t, i, name)
       case Ok(Panics) => |Split(ja3, ',')| < 5
       case Ok(Returns(Err(e))) => RefusesText(ja3, t, i, e)
       case Ok(Returns(Ok(spec))) =>
         && Fits(ja3, t, i, spec.cipherSuites, spec.compressionMethods, EntriesIn(spec.extensions))
         && (Split(ja3, ',')[3] == "" || AreDecimals(Split(Split(ja3, ',')[3], '-'), 0xFFFF))
         && (Split(ja3, ',')[4] == "" || AreDecimals(Split(Split(ja3, ',')[4], '-'), 0xFF))
  }

  lemma AnswersInPlainTerms(ja3: string, t: Tables, i: Inputs, r: Result<Outcome<ClientHelloSpec>, string>)
    requires match ConfigOf(t, i)
             case Err(name) => r == Err(name)
             case Ok(cfg) => r.Ok? && ValueOf(r.value) == Parse(ja3, cfg)
    ensures Answers(ja3, t, i, r)
  {
    FactoryAcceptedIff(t, i);
    match ConfigOf(t, i) {
      case Err(_) => ConfigRefuses(t, i);
      case Ok(cfg) =>
        ConfigGives(t, i);
        if Parse(ja3, cfg).Returns? {
          if Parse(ja3, cfg).result.Ok? {
            ParseGives(ja3, t, i, cfg);
            AcceptedIff(ja3, cfg);
          } else {
            ParseRefuses(ja3, t, i, cfg);
          }
        }
    }
  }

  /** The function `GetSpecFactoryFromJa3String` returns. */
  method Factory(ja3: string, t: Tables, i: Inputs) returns (r: Result<Outcome<ClientHelloSpec>, string>)
    ensures match ConfigOf(t, i)
            case Err(name) => r == Err(name)
            case Ok(cfg) => r.Ok? && ValueOf(r.value) == Parse(ja3, cfg)
    ensures Answers(ja3, t, i, r)
    ensures r.Ok? && r.value.Returns? && r.value.result.Ok? ==>
              && Sharing(r.value.result.value.extensions)
              && forall k :: 0 <= k < |r.value.result.value.extensions| ==> fresh(r.value.result.value.extensions[k])
  {
    var signatures := MapAlgorithms(t.signatures, i.signatures);
    if signatures.Err? {
      AnswersInPlainTerms(ja3, t, i, Err(ConfigOf(t, i).error));
      return Err(signatures.error);
    }
    var delegated := MapAlgorithms(t.delegated, i.delegated);
    if delegated.Err? {
      AnswersInPlainTerms(ja3, t, i, Err(ConfigOf(t, i).error));
      return Err(delegated.error);
    }
    var suites := MapSuites(t.kdfs, t.aeads, i.candidates);
    if suites.Err? {
      AnswersInPlainTerms(ja3, t, i, Err(ConfigOf(t, i).error));
      return Err(suites.error);
    }
    var versions := MapKnown(t.versions, i.versions);
    var shares := MapKeyShares(t.curves, i.keyShares);
    var compression := MapKnown(t.compression, i.compression);
    var cfg := Config(signatures.value, delegated.value, versions, shares, suites.value, i.payloads, i.alpn,
        i.alps, compression, i.recordSizeLimit);
    var out := StringToSpec(ja3, cfg);
    r := Ok(out);
    AnswersInPlainTerms(ja3, t, i, r);
  }
}
