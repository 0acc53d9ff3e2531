/** `Cookie` runs under the read lock too: a lookup that interleaves with the readers of its host. */
module JarLookups {
  import opened Options
  import opened Cookies
  import opened JarReaders
  import opened JarLosses
  import JarAtomicity
  import JarTerms

  /** A lookup about to look at slot `pos`, or that has found a cookie. */
  datatype Lookup = Lookup(name: string, pos: nat, found: Option<Cookie>)

  datatype Both = Both(state: State, look: Lookup)

  datatype Move = ByReader(r: nat) | ByLookup

  function Begin(xs: seq<Cookie>, n: nat, name: string): Both {
    Both(Start(xs, n), Lookup(name, 0, None))
  }

  /** The condition in the loop of `Cookie`. */
  predicate Matches(c: Cookie, name: string) {
    c.name == name && Live(c)
  }

  predicate CanMove(b: Both, m: Move) {
    match m
    case ByReader(r) => CanStep(b.state, r)
    case ByLookup => b.look.found.None? && b.look.pos < |b.state.slots|
  }

  function After(b: Both, m: Move): Both
    requires CanMove(b, m)
  {
    match m
    case ByReader(r) => b.(state := Step(b.state, r))
    case ByLookup =>
      var c := b.state.slots[b.look.pos];
      b.(look := if Matches(c, b.look.name) then b.look.(found := Some(c)) else b.look.(pos := b.look.pos + 1))
  }

  predicate CanRun(b: Both, run: seq<Move>)
    decreases |run|
  {
    run == [] || (CanMove(b, run[0]) && CanRun(After(b, run[0]), run[1..]))
  }

  function Ran(b: Both, run: seq<Move>): Both
    requires CanRun(b, run)
    decreases |run|
  {
    if run == [] then b else Ran(After(b, run[0]), run[1..])
  }

  /** The lookup has passed all slots and returns nil. */
  predicate Missed(b: Both) {
    b.look.found.None? && b.look.pos == |b.state.slots|
  }

  ghost predicate CanMiss(xs: seq<Cookie>, name: string) {
    exists n: nat, run :: CanRun(Begin(xs, n, name), run) && Missed(Ran(Begin(xs, n, name), run))
  }

  // ---------------------------------------------------------------- names that are always found

  /** The slots that no reader changes. */
  predicate Fixed(xs: seq<Cookie>, j: int) {
    0 <= j < |xs| && (j < FirstExpired(xs) || j == LastLive(xs))
  }

  /** The fixed slots a lookup has passed do not hold its name. */
  ghost predicate PassedOk(xs: seq<Cookie>, b: Both) {
    && EndsKept(xs, b.state) && b.look.pos <= |xs|
    && (b.look.found.None? ==> forall j :: Fixed(xs, j) && j < b.look.pos ==> xs[j].name != b.look.name)
  }

  lemma PassedStep(xs: seq<Cookie>, b: Both, m: Move)
    requires PassedOk(xs, b) && CanMove(b, m)
    ensures PassedOk(xs, After(b, m)) && After(b, m).look.name == b.look.name
  {
    if m.ByReader? {
      KeptStep(xs, b.state, m.r);
    }
  }

  lemma {:induction false} PassedRun(xs: seq<Cookie>, b: Both, run: seq<Move>)
    requires PassedOk(xs, b) && CanRun(b, run)
    ensures PassedOk(xs, Ran(b, run)) && Ran(b, run).look.name == b.look.name
    decreases |run|
  {
    if run != [] {
      PassedStep(xs, b, run[0]);
      PassedRun(xs, After(b, run[0]), run[1..]);
    }
  }

  // ---------------------------------------------------------------- what is found

  /** A cookie found was stored at the start, has the name, and is live. */
  predicate FoundOk(xs: seq<Cookie>, look: Lookup) {
    look.found.Some? ==> look.found.value in xs && look.found.value.name == look.name && look.found.value.maxAge > -1
  }

  lemma {:induction false} FoundRun(xs: seq<Cookie>, b: Both, run: seq<Move>)
    requires JarAtomicity.KeepsLive(xs, b.state) && FoundOk(xs, b.look) && CanRun(b, run)
    ensures FoundOk(xs, Ran(b, run).look) && Ran(b, run).look.name == b.look.name
    decreases |run|
  {
    if run != [] {
      if run[0].ByReader? {
        JarAtomicity.KeepsLiveStep(xs, b.state, run[0].r);
      }
      FoundRun(xs, After(b, run[0]), run[1..]);
    }
  }

  /** However a lookup interleaves with readers, what it returns was stored under that name, and live. */
  lemma FindsOnlyStored(xs: seq<Cookie>, n: nat, name: string, run: seq<Move>)
    requires CanRun(Begin(xs, n, name), run)
    ensures var found := Ran(Begin(xs, n, name), run).look.found;
            found.Some? ==> found.value in xs && found.value.name == name && found.value.maxAge > -1
  {
    FoundRun(xs, Begin(xs, n, name), run);
  }

  /** The slots an undisturbed lookup has passed do not match, and the one it stands at may. */
  ghost predicate AloneOk(b: Both) {
    && b.state.readers == [] && b.look.pos <= |b.state.slots|
    && (forall j :: 0 <= j < b.look.pos ==>
          b.state.slots[j].name != b.look.name || b.state.slots[j].maxAge <= -1)
    && (b.look.found.Some? ==>
          && b.look.pos < |b.state.slots| && b.state.slots[b.look.pos] == b.look.found.value
          && b.look.found.value.name == b.look.name && b.look.found.value.maxAge > -1)
  }

  lemma {:induction false} AloneRun(b: Both, run: seq<Move>)
    requires AloneOk(b) && CanRun(b, run)
    ensures AloneOk(Ran(b, run)) && Ran(b, run).state == b.state && Ran(b, run).look.name == b.look.name
    decreases |run|
  {
    if run != [] {
      AloneRun(After(b, run[0]), run[1..]);
    }
  }

  /** Undisturbed, it finds the first live cookie of that name. */
  lemma AloneFindsFirst(xs: seq<Cookie>, name: string, run: seq<Move>)
    requires CanRun(Begin(xs, 0, name), run)
    requires var b := Ran(Begin(xs, 0, name), run); b.look.found.Some? || Missed(b)
    ensures JarTerms.Finds(xs, name, Ran(Begin(xs, 0, name), run).look.found)
  {
    AloneRun(Begin(xs, 0, name), run);
  }

  // ---------------------------------------------------------------- runs

  ghost predicate Goes(b: Both, b': Both) {
    exists run :: CanRun(b, run) && Ran(b, run) == b'
  }

  lemma GoesFirst(b: Both, m: Move, b': Both)
    requires CanMove(b, m) && Goes(After(b, m), b')
    ensures Goes(b, b')
  {
    var run :| CanRun(After(b, m), run) && Ran(After(b, m), run) == b';
    assert ([m] + run)[1..] == run;
    assert CanRun(b, [m] + run) && Ran(b, [m] + run) == b';
  }

  /** What readers can do, they can do before anything else happens. */
  lemma {:induction false} ReadersGo(b: Both, run: seq<nat>, t: State, end: Both)
    requires Reaches(b.state, run, t) && Goes(b.(state := t), end)
    ensures Goes(b, end)
    decreases |run|
  {
    if run == [] {
      assert b.(state := t) == b;
    } else {
      ReadersGo(After(b, ByReader(run[0])), run[1..], t, end);
      GoesFirst(b, ByReader(run[0]), end);
    }
  }

  /** A lookup passes slots that do not match. */
  lemma {:induction false} LookupGoes(b: Both, upto: nat, end: Both)
    requires b.look.found.None? && b.look.pos <= upto <= |b.state.slots|
    requires forall j :: b.look.pos <= j < upto ==> !Matches(b.state.slots[j], b.look.name)
    requires Goes(b.(look := b.look.(pos := upto)), end)
    ensures Goes(b, end)
    decreases upto - b.look.pos
  {
    if b.look.pos < upto {
      LookupGoes(After(b, ByLookup), upto, end);
      GoesFirst(b, ByLookup, end);
    } else {
      assert b.(look := b.look.(pos := upto)) == b;
    }
  }

  lemma GoesNowhere(b: Both)
    ensures Goes(b, b)
  {
    assert CanRun(b, []) && Ran(b, []) == b;
  }

  // ---------------------------------------------------------------- the exact condition

  /** The lookup passes the first slots, the readers run, and it passes the rest. */
  lemma PassRunPass(xs: seq<Cookie>, n: nat, t: State, first: nat, name: string)
    requires first <= |xs| == |t.slots| && Leads(Start(xs, n), t)
    requires forall j :: 0 <= j < first ==> !Matches(xs[j], name)
    requires forall j :: first <= j < |xs| ==> !Matches(t.slots[j], name)
    ensures CanMiss(xs, name)
  {
    var run :| Reaches(Start(xs, n), run, t);
    var end := Both(t, Lookup(name, |xs|, None));
    GoesNowhere(end);
    LookupGoes(Both(t, Lookup(name, first, None)), |xs|, end);
    ReadersGo(Both(Start(xs, n), Lookup(name, first, None)), run, t, end);
    LookupGoes(Begin(xs, n, name), first, end);
  }

  lemma Miss(xs: seq<Cookie>, name: string)
    requires forall j :: Fixed(xs, j) ==> xs[j].name != name
    ensures CanMiss(xs, name)
  {
    var p := FirstExpired(xs);
    if p < LastLive(xs) {
      assert Fixed(xs, LastLive(xs));
      var n, t := ReadersSqueeze(xs);
      PassRunPass(xs, n, t, p + 1, name);
    } else {
      LeadsToItself(Start(xs, 0));
      forall j | 0 <= j < |xs| ensures !Matches(xs[j], name) {
        if Live(xs[j]) { assert Fixed(xs, j); }
      }
      PassRunPass(xs, 0, Start(xs, 0), |xs|, name);
    }
  }

  /** A lookup that interleaves with readers can return nil for a name if and only if the name
      stands neither before the first expired slot nor in the last live one. */
  lemma LookupMissesIff(xs: seq<Cookie>, name: string)
    ensures CanMiss(xs, name) <==> forall j :: Fixed(xs, j) ==> xs[j].name != name
  {
    if n: nat, run :| CanRun(Begin(xs, n, name), run) && Missed(Ran(Begin(xs, n, name), run)) {
      PassedRun(xs, Begin(xs, n, name), run);
    }
    if forall j :: Fixed(xs, j) ==> xs[j].name != name {
      Miss(xs, name);
    }
  }

  /** On a list of distinct names a lookup can miss a live cookie exactly when readers can lose it. */
  lemma MissedIffLost(xs: seq<Cookie>, i: nat)
    requires Distinct(xs) && i < |xs| && Live(xs[i])
    ensures CanMiss(xs, xs[i].name) <==> CanBeLost(xs, xs[i])
  {
    LookupMissesIff(xs, xs[i].name);
    CanBeLostIff(xs, xs[i]);
    assert forall j :: 0 <= j < |xs| ==> (xs[j].name == xs[i].name <==> j == i);
    DistinctSlots(xs, i);
  }
}
