/** Whether interleaved calls of `Cookies` on one host act like calls made one after the other, and
    what they return in any case. */
module JarAtomicity {
  import opened Options
  import opened Cookies
  import opened JarLaws
  import opened JarReaders
  import opened JarLosses

  // ---------------------------------------------------------------- what every call returns

  /** Every slot and every held cookie was stored at the start, and each reader has kept live
      cookies only. */
  ghost predicate KeepsLive(xs: seq<Cookie>, s: State) {
    && (forall j :: 0 <= j < |s.slots| ==> s.slots[j] in xs)
    && (forall r :: 0 <= r < |s.readers| ==> ReaderKeepsLive(xs, s.slots, s.readers[r]))
  }

  predicate ReaderKeepsLive(xs: seq<Cookie>, slots: seq<Cookie>, r: Reader) {
    && r.k <= r.i <= |slots| && (forall j :: 0 <= j < r.k ==> Live(slots[j]))
    && (r.held.Some? ==> r.i < |slots| && r.held.value in xs)
  }

  lemma KeepsLiveStep(xs: seq<Cookie>, s: State, r: nat)
    requires KeepsLive(xs, s) && CanStep(s, r)
    ensures KeepsLive(xs, Step(s, r))
  {
    assert ReaderKeepsLive(xs, s.slots, s.readers[r]);
  }

  lemma {:induction false} KeepsLiveRun(xs: seq<Cookie>, s: State, run: seq<nat>)
    requires KeepsLive(xs, s) && Feasible(s, run)
    ensures KeepsLive(xs, Exec(s, run))
    decreases |run|
  {
    if run != [] {
      KeepsLiveStep(xs, s, run[0]);
      KeepsLiveRun(xs, Step(s, run[0]), run[1..]);
    }
  }

  /** However calls of `Cookies` interleave, no call returns an expired cookie, or one that was not
      stored: that holds of its slice when it returns and for as long as only readers run. */
  lemma ReturnsLiveStoredCookies(xs: seq<Cookie>, n: nat, t: State)
    requires Leads(Start(xs, n), t)
    ensures forall r, j :: 0 <= r < |t.readers| && 0 <= j < t.readers[r].k ==>
              j < |t.slots| && Live(t.slots[j]) && t.slots[j] in xs
  {
    var run :| Reaches(Start(xs, n), run, t);
    KeepsLiveRun(xs, Start(xs, n), run);
    forall r, j | 0 <= r < |t.readers| && 0 <= j < t.readers[r].k
      ensures j < |t.slots| && Live(t.slots[j]) && t.slots[j] in xs
    {
      assert ReaderKeepsLive(xs, t.slots, t.readers[r]);
    }
  }

  // ---------------------------------------------------------------- calls one after the other

  /** The lengths of the slices the readers return. */
  function Lengths(t: State): seq<nat> {
    seq(|t.readers|, r requires 0 <= r < |t.readers| => t.readers[r].k)
  }

  /** Those of `n` calls made one after the other. */
  function SerialLengths(xs: seq<Cookie>, n: nat): seq<nat> {
    seq(n, j requires 0 <= j < n => LiveCount(Reads(xs, j)))
  }

  lemma {:induction false} ReadsLast(xs: seq<Cookie>, n: nat)
    ensures Reads(xs, n + 1) == Read(Reads(xs, n)) && |Reads(xs, n)| == |xs|
    decreases n
  {
    if n > 0 {
      ReadsLast(Read(xs), n - 1);
    }
  }

  /** The readers from `j` up to `m` have not begun. */
  predicate Fresh(s: State, j: nat, m: nat) {
    j <= m <= |s.readers| && forall r :: j <= r < m ==> s.readers[r] == Reader(0, 0, None)
  }

  /** They have run one after the other, each on the array the one before it left. */
  predicate Served(xs: seq<Cookie>, t: State, j: nat, m: nat) {
    j <= m <= |t.readers| && forall r :: j <= r < m ==> t.readers[r] == Reader(|xs|, LiveCount(Reads(xs, r)), None)
  }

  lemma ServeOne(xs: seq<Cookie>, s: State, j: nat) returns (t: State)
    requires j < |s.readers| && s.slots == Reads(xs, j) && s.readers[j] == Reader(0, 0, None)
    ensures Leads(s, t) && t.slots == Reads(xs, j + 1)
    ensures t.readers == s.readers[j := Reader(|xs|, LiveCount(Reads(xs, j)), None)]
  {
    ReadsLast(xs, j);
    var run := RunsToEnd(s, j);
    t := RunToEnd(s, j);
    assert s.slots[0..] == s.slots;
  }

  lemma {:induction false} Serve(xs: seq<Cookie>, s: State, j: nat, m: nat) returns (t: State)
    requires s.slots == Reads(xs, j) && Fresh(s, j, m)
    ensures Leads(s, t) && t.slots == Reads(xs, m) && |t.readers| == |s.readers| && Served(xs, t, j, m)
    ensures forall r :: 0 <= r < |s.readers| && !(j <= r < m) ==> t.readers[r] == s.readers[r]
    decreases m - j
  {
    if j == m {
      t := s;
      LeadsToItself(s);
    } else {
      var s' := ServeOne(xs, s, j);
      t := Serve(xs, s', j + 1, m);
      LeadsThen(s, s', t);
    }
  }

  /** Calls one after the other return slices of those lengths and leave that array. */
  lemma SerialRun(xs: seq<Cookie>, n: nat) returns (t: State)
    ensures Leads(Start(xs, n), t) && Ended(t)
    ensures t.slots == Reads(xs, n) && Lengths(t) == SerialLengths(xs, n)
  {
    t := Serve(xs, Start(xs, n), 0, n);
    ReadsLast(xs, n);
  }

  /** The readers have left the array, and returned slices of the lengths, that calls made one after
      the other in some order do. */
  ghost predicate LikeAtomicCalls(xs: seq<Cookie>, t: State) {
    && t.slots == Reads(xs, |t.readers|)
    && multiset(Lengths(t)) == multiset(SerialLengths(xs, |t.readers|))
  }

  // ---------------------------------------------------------------- when interleaving cannot be seen

  lemma {:induction false} SameReaders(s: State, run: seq<nat>)
    requires Feasible(s, run)
    ensures |Exec(s, run).readers| == |s.readers|
    decreases |run|
  {
    if run != [] {
      SameReaders(Step(s, run[0]), run[1..]);
    }
  }

  lemma QuietIsAtomic(xs: seq<Cookie>, n: nat, t: State)
    requires Partitioned(xs) && Leads(Start(xs, n), t) && Ended(t)
    ensures LikeAtomicCalls(xs, t)
  {
    var run :| Reaches(Start(xs, n), run, t);
    QuietRun(Start(xs, n), run);
    SameReaders(Start(xs, n), run);
    ReadRaisesLiveCount(xs);
    SettledStays(xs, n);
    forall r | 0 <= r < n ensures t.readers[r].k == LiveCount(Reads(xs, r)) {
      SettledStays(xs, r);
      assert ReaderOk(xs, t.readers[r]) && Finished(t.slots, t.readers[r]) && xs[..|xs|] == xs;
    }
    assert Lengths(t) == SerialLengths(xs, n);
  }

  /** A single reader has one run only. */
  lemma {:induction false} SingleRun(s: State, run: seq<nat>, t: State, run': seq<nat>, t': State)
    requires |s.readers| <= 1 && Reaches(s, run, t) && Reaches(s, run', t') && Ended(t) && Ended(t')
    ensures t == t'
    decreases |run|
  {
    if run != [] && run' != [] {
      SingleRun(Step(s, run[0]), run[1..], t, run'[1..], t');
    }
  }

  lemma SingleIsAtomic(xs: seq<Cookie>, n: nat, t: State)
    requires n <= 1 && Leads(Start(xs, n), t) && Ended(t)
    ensures LikeAtomicCalls(xs, t)
  {
    var t' := SerialRun(xs, n);
    var run :| Reaches(Start(xs, n), run, t);
    var run' :| Reaches(Start(xs, n), run', t');
    SingleRun(Start(xs, n), run, t, run', t');
    SameReaders(Start(xs, n), run);
  }

  // ---------------------------------------------------------------- when it can

  predicate LiveUpTo(xs: seq<Cookie>, k: nat) {
    k <= |xs| && forall i :: 0 <= i < k ==> Live(xs[i])
  }

  lemma ReadIsLiveUpTo(xs: seq<Cookie>)
    ensures LiveUpTo(Read(xs), LiveCount(xs))
  {
    FilterMembers(Live, xs);
    forall i | 0 <= i < LiveCount(xs) ensures Live(Read(xs)[i]) {
      assert Filter(Live, xs)[i] in Filter(Live, xs);
    }
  }

  lemma {:induction false} ReadsStayLiveUpTo(xs: seq<Cookie>, k: nat, n: nat)
    requires LiveUpTo(xs, k)
    ensures LiveUpTo(Reads(xs, n), k)
    decreases n
  {
    if n > 0 {
      LiveHead(xs, k);
      ReadIsLiveUpTo(xs);
      ReadsStayLiveUpTo(Read(xs), k, n - 1);
    }
  }

  lemma ExpiredBeforeLive(xs: seq<Cookie>)
    requires !Partitioned(xs)
    ensures FirstExpired(xs) < LastLive(xs)
  {
    var i, j :| 0 <= i < j < |xs| && Live(xs[j]) && !Live(xs[i]);
    assert FirstExpired(xs) <= i && j <= LastLive(xs);
  }

  lemma OneMoreLive(xs: seq<Cookie>, p: nat, q: nat)
    requires p <= q < |xs| && Live(xs[q]) && forall i :: 0 <= i < p ==> Live(xs[i])
    ensures LiveCount(xs) >= p + 1
  {
    LiveHead(xs, p);
    LiveAt(xs[p..], q - p);
  }

  /** After a read the first expired slot of before is live, and stays so. */
  lemma ExpiredSlotIsFilled(xs: seq<Cookie>, n: nat)
    requires !Partitioned(xs) && n >= 1
    ensures FirstExpired(xs) < LastLive(xs) && LiveUpTo(Reads(xs, n), FirstExpired(xs) + 1)
  {
    ExpiredBeforeLive(xs);
    OneMoreLive(xs, FirstExpired(xs), LastLive(xs));
    ReadIsLiveUpTo(xs);
    ReadsStayLiveUpTo(Read(xs), FirstExpired(xs) + 1, n - 1);
  }

  /** The last reader passes the first expired slot before the others begin, and they return. */
  lemma LateBegin(xs: seq<Cookie>, last: nat) returns (u: State)
    requires FirstExpired(xs) < |xs|
    ensures Leads(Start(xs, last + 1), u) && u.slots == Reads(xs, last)
    ensures |u.readers| == last + 1 && Served(xs, u, 0, last) && u.readers[last] == Paused(FirstExpired(xs))
  {
    var s := Start(xs, last + 1);
    Pause(s, last, 0);
    var paused := State(xs, s.readers[last := Paused(FirstExpired(xs))]);
    u := Serve(xs, paused, 0, last);
    LeadsThen(s, paused, u);
  }

  /** It goes on on a longer live prefix, and returns a slice one shorter than a call made then. */
  lemma LateEnd(xs: seq<Cookie>, last: nat, u: State) returns (t: State)
    requires !Partitioned(xs) && last >= 1 && u.slots == Reads(xs, last)
    requires |u.readers| == last + 1 && Served(xs, u, 0, last) && u.readers[last] == Paused(FirstExpired(xs))
    ensures Leads(u, t) && Ended(t) && |t.readers| == last + 1
    ensures Served(xs, t, 0, last) && t.readers[last].k + 1 == LiveCount(Reads(xs, last))
  {
    ExpiredSlotIsFilled(xs, last);
    ReadsLast(xs, last);
    LiveHead(Reads(xs, last), FirstExpired(xs) + 1);
    var run := RunsToEnd(u, last);
    t := RunToEnd(u, last);
  }

  lemma LateReader(xs: seq<Cookie>, n: nat) returns (t: State)
    requires !Partitioned(xs) && n >= 2
    ensures Leads(Start(xs, n), t) && Ended(t) && !LikeAtomicCalls(xs, t)
  {
    ExpiredBeforeLive(xs);
    var u := LateBegin(xs, n - 1);
    t := LateEnd(xs, n - 1, u);
    LeadsThen(Start(xs, n), u, t);
    OneShorter(xs, t);
  }

  lemma OneShorter(xs: seq<Cookie>, t: State)
    requires |t.readers| >= 2 && var last := |t.readers| - 1;
             Served(xs, t, 0, last) && t.readers[last].k + 1 == LiveCount(Reads(xs, last))
    ensures !LikeAtomicCalls(xs, t)
  {
    var last := |t.readers| - 1;
    var m, front := LiveCount(Reads(xs, last)), SerialLengths(xs, last);
    assert Lengths(t) == front + [m - 1];
    assert SerialLengths(xs, last + 1) == front + [m];
    assert multiset(Lengths(t))[m] == multiset(front)[m];
    assert multiset(SerialLengths(xs, last + 1))[m] == multiset(front)[m] + 1;
  }

  /** The assumption that `Cookies` is atomic is exact: `n` interleaved calls on one host always act
      like `n` calls made one after the other, if and only if there is at most one of them or all
      live slots precede all expired ones. */
  lemma AtomicIff(xs: seq<Cookie>, n: nat)
    ensures (forall t :: Leads(Start(xs, n), t) && Ended(t) ==> LikeAtomicCalls(xs, t)) <==> n <= 1 || Partitioned(xs)
  {
    if n <= 1 || Partitioned(xs) {
      forall t | Leads(Start(xs, n), t) && Ended(t) ensures LikeAtomicCalls(xs, t) {
        if n <= 1 {
          SingleIsAtomic(xs, n, t);
        } else {
          QuietIsAtomic(xs, n, t);
        }
      }
    } else {
      var t := LateReader(xs, n);
    }
  }
}
