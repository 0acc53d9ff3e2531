/** The cookie jar on Go slices: compaction in place, appends that may reuse capacity, and slices
    handed out to callers that share the jar's arrays. */
module CookieJars {
  import opened Options
  import opened Cookies
  import opened Slices
  import opened HostKeys
  import JarLaws
  import JarRuns
  import JarTerms

  /** A slice `Cookies` returned, with the cookies it held then. */
  datatype Loan = Loan(slice: Slice, contents: seq<Cookie>)

  // ---------------------------------------------------------------- the jar's arrays, as values

  type Memory = map<array<Cookie>, seq<Cookie>>

  /** The first `n` slots hold only cookies `nonEmpty` lets through. */
  ghost predicate AllAccepted(cfg: Config, slots: seq<Cookie>, n: nat) {
    n <= |slots| && forall c :: c in slots[..n] ==> Accepts(cfg)(c)
  }

  ghost predicate FilledOk(cfg: Config, mem: Memory, filled: map<array<Cookie>, nat>) {
    forall a :: a in mem ==> a in filled && AllAccepted(cfg, mem[a], filled[a])
  }

  /** The loan lies within the filled slots, still holds what it held, and that is all live. */
  ghost predicate LoanOk(mem: Memory, filled: map<array<Cookie>, nat>, l: Loan) {
    && (forall c :: c in l.contents ==> Live(c))
    && if l.slice.Nil? then l.contents == []
       else
         var a := l.slice.arr;
         && l.slice.Ok() && l.slice.off == 0 && a in mem && a in filled && l.slice.len <= filled[a] <= |mem[a]|
         && l.contents == mem[a][..l.slice.len]
  }

  ghost predicate LoansOk(mem: Memory, filled: map<array<Cookie>, nat>, lent: set<Loan>) {
    forall l :: l in lent ==> LoanOk(mem, filled, l)
  }

  lemma LivePrefixFixed(xs: seq<Cookie>, n: nat)
    requires n <= |xs| && forall c :: c in xs[..n] ==> Live(c)
    ensures n <= |Filter(Live, xs)| && Read(xs)[..n] == xs[..n]
  {
    FilterAppend(Live, xs[..n], xs[n..]);
    FilterAll(Live, xs[..n]);
    assert xs == xs[..n] + xs[n..];
  }

  /** Compacting the live cookies of a stored array changes no loan: live prefixes are fixed points
      of compaction. */
  lemma ReadKeepsLoans(cfg: Config, mem: Memory, filled: map<array<Cookie>, nat>, lent: set<Loan>, a: array<Cookie>)
    requires FilledOk(cfg, mem, filled) && LoansOk(mem, filled, lent) && a in mem
    ensures var mem' := mem[a := Read(mem[a][..filled[a]]) + mem[a][filled[a]..]];
            FilledOk(cfg, mem', filled) && LoansOk(mem', filled, lent)
  {
    var n := filled[a];
    var was := mem[a][..n];
    var mem' := mem[a := Read(was) + mem[a][n..]];
    JarLaws.ReadMembers(was);
    assert mem'[a][..n] == Read(was);
    forall l | l in lent ensures LoanOk(mem', filled, l) {
      assert LoanOk(mem, filled, l);
      if l.slice.Window? && l.slice.arr == a {
        assert was[..l.slice.len] == l.contents;
        LivePrefixFixed(was, l.slice.len);
        assert mem'[a][..l.slice.len] == Read(was)[..l.slice.len];
      }
    }
  }

  /** The memory after writing `xs` into array `a` from slot `n` on. */
  ghost function AfterAppend(mem: Memory, a: array<Cookie>, n: nat, xs: seq<Cookie>): Memory {
    if a in mem && n + |xs| <= |mem[a]| then mem[a := mem[a][..n] + xs + mem[a][n + |xs|..]] else mem
  }

  lemma AppendKeepsLoan(mem: Memory, filled: map<array<Cookie>, nat>, a: array<Cookie>, xs: seq<Cookie>, l: Loan)
    requires a in mem && a in filled && filled[a] + |xs| <= |mem[a]| && LoanOk(mem, filled, l)
    ensures LoanOk(AfterAppend(mem, a, filled[a], xs), filled[a := filled[a] + |xs|], l)
  {
    if l.slice.Window? && l.slice.arr == a {
      assert AfterAppend(mem, a, filled[a], xs)[a][..l.slice.len] == mem[a][..l.slice.len];
    }
  }

  lemma AppendKeepsFilled(cfg: Config, mem: Memory, filled: map<array<Cookie>, nat>, a: array<Cookie>, xs: seq<Cookie>)
    requires FilledOk(cfg, mem, filled) && a in mem
    requires filled[a] + |xs| <= |mem[a]| && forall c :: c in xs ==> Accepts(cfg)(c)
    ensures FilledOk(cfg, AfterAppend(mem, a, filled[a], xs), filled[a := filled[a] + |xs|])
  {
    var n, mem' := filled[a], AfterAppend(mem, a, filled[a], xs);
    assert AllAccepted(cfg, mem[a], n);
    assert mem'[a][..n + |xs|] == mem[a][..n] + xs;
  }

  /** Appending accepted cookies beyond the filled slots changes no loan. */
  lemma AppendKeepsLoans(cfg: Config, mem: Memory, filled: map<array<Cookie>, nat>, lent: set<Loan>, a: array<Cookie>,
        xs: seq<Cookie>)
    requires FilledOk(cfg, mem, filled) && LoansOk(mem, filled, lent) && a in mem
    requires filled[a] + |xs| <= |mem[a]| && forall c :: c in xs ==> Accepts(cfg)(c)
    ensures var mem', filled' := AfterAppend(mem, a, filled[a], xs), filled[a := filled[a] + |xs|];
            FilledOk(cfg, mem', filled') && LoansOk(mem', filled', lent)
  {
    AppendKeepsFilled(cfg, mem, filled, a, xs);
    forall l | l in lent ensures LoanOk(AfterAppend(mem, a, filled[a], xs), filled[a := filled[a] + |xs|], l) {
      AppendKeepsLoan(mem, filled, a, xs, l);
    }
  }

  /** A new array changes no loan. */
  lemma NewKeepsLoans(cfg: Config, mem: Memory, filled: map<array<Cookie>, nat>, lent: set<Loan>, a: array<Cookie>,
        xs: seq<Cookie>, n: nat)
    requires FilledOk(cfg, mem, filled) && LoansOk(mem, filled, lent) && a !in mem
    requires n <= |xs| && forall c :: c in xs[..n] ==> Accepts(cfg)(c)
    ensures FilledOk(cfg, mem[a := xs], filled[a := n]) && LoansOk(mem[a := xs], filled[a := n], lent)
  {
    forall l | l in lent ensures LoanOk(mem[a := xs], filled[a := n], l) {
      assert LoanOk(mem, filled, l);
    }
  }

  // ---------------------------------------------------------------- the store, as values

  /** The cookies a stored slice shows. */
  ghost function Shown(mem: Memory, s: Slice): seq<Cookie> {
    if s.Window? && s.arr in mem && s.len <= |mem[s.arr]| then mem[s.arr][..s.len] else []
  }

  ghost function Lists(cookies: map<string, Slice>, mem: Memory): JarRuns.Jar {
    map h | h in cookies :: Shown(mem, cookies[h])
  }

  predicate Apart(s: Slice, t: Slice) {
    s.Window? && t.Window? ==> s.arr != t.arr
  }

  /** The slice fills its array from the start. */
  ghost predicate SliceOk(s: Slice, mem: Memory, filled: map<array<Cookie>, nat>) {
    s.Window? ==>
      s.Ok() && s.off == 0 && s.arr in mem && s.arr in filled && filled[s.arr] == s.len && |mem[s.arr]| == s.arr.Length
  }

  /** Each stored slice fills its own array; hosts share no array. */
  ghost predicate StoreOk(cookies: map<string, Slice>, mem: Memory, filled: map<array<Cookie>, nat>) {
    && (forall h :: h in cookies ==> SliceOk(cookies[h], mem, filled))
    && (forall h, g :: h in cookies && g in cookies && h != g ==> Apart(cookies[h], cookies[g]))
  }

  ghost predicate Good(cfg: Config, cookies: map<string, Slice>, mem: Memory, filled: map<array<Cookie>, nat>,
        lent: set<Loan>) {
    StoreOk(cookies, mem, filled) && FilledOk(cfg, mem, filled) && LoansOk(mem, filled, lent)
  }

  ghost function AfterRead(mem: Memory, filled: map<array<Cookie>, nat>, s: Slice): Memory {
    if s.Window? && s.arr in mem && s.arr in filled && filled[s.arr] <= |mem[s.arr]| then
      mem[s.arr := Read(mem[s.arr][..filled[s.arr]]) + mem[s.arr][filled[s.arr]..]]
    else mem
  }

  function StoredIn(cookies: map<string, Slice>, key: string): Slice {
    if key in cookies then cookies[key] else Nil
  }

  lemma ReadLists(cookies: map<string, Slice>, mem: Memory, filled: map<array<Cookie>, nat>, key: string)
    requires StoreOk(cookies, mem, filled)
    ensures var mem' := AfterRead(mem, filled, StoredIn(cookies, key));
            && StoreOk(cookies, mem', filled)
            && Lists(cookies, mem') ==
               JarRuns.Apply(Config(false, false), Lists(cookies, mem), JarRuns.ReadCookies(key))
  {
    var mem' := AfterRead(mem, filled, StoredIn(cookies, key));
    if key in cookies {
      var s := cookies[key];
      if s.Window? {
        assert mem'[s.arr][..s.len] == Read(mem[s.arr][..s.len]);
      }
      assert Shown(mem', s) == Read(Shown(mem, s));
      forall h | h in cookies && h != key ensures Shown(mem', cookies[h]) == Shown(mem, cookies[h]) {
        assert Apart(cookies[h], s);
      }
    }
  }

  /** What `Cookies` does to the jar: it keeps every loan and returns a new one. */
  lemma ReadKeepsGood(cfg: Config, cookies: map<string, Slice>, mem: Memory, filled: map<array<Cookie>, nat>,
        lent: set<Loan>, key: string, r: Slice)
    requires Good(cfg, cookies, mem, filled, lent)
    requires var s := StoredIn(cookies, key);
             r == if s.Window? then s.(len := |Filter(Live, Shown(mem, s))|) else Nil
    ensures var s := StoredIn(cookies, key);
            Good(cfg, cookies, AfterRead(mem, filled, s), filled, lent + {Loan(r, Filter(Live, Shown(mem, s)))})
  {
    var s := StoredIn(cookies, key);
    var was := Shown(mem, s);
    var mem' := AfterRead(mem, filled, s);
    ReadLists(cookies, mem, filled, key);
    FilterMembers(Live, was);
    if s.Window? {
      ReadKeepsLoans(cfg, mem, filled, lent, s.arr);
      assert mem'[s.arr][..r.len] == Filter(Live, was);
      assert LoanOk(mem', filled, Loan(r, Filter(Live, was)));
    }
  }

  /** Storing, under a key, the slice its own array was extended to in place. */
  lemma ExtendKeepsStore(cookies: map<string, Slice>, mem: Memory, filled: map<array<Cookie>, nat>, key: string,
        xs: seq<Cookie>)
    requires StoreOk(cookies, mem, filled) && key in cookies && cookies[key].Window?
    requires cookies[key].len + |xs| <= cookies[key].cap
    ensures var s := cookies[key];
            StoreOk(cookies[key := s.Longer(|xs|)], AfterAppend(mem, s.arr, s.len, xs), filled[s.arr := s.len + |xs|])
  {
    var s := cookies[key];
    assert SliceOk(s, mem, filled);
    var stored := cookies[key := s.Longer(|xs|)];
    forall h | h in stored
      ensures SliceOk(stored[h], AfterAppend(mem, s.arr, s.len, xs), filled[s.arr := s.len + |xs|])
    {
      if h != key { assert SliceOk(cookies[h], mem, filled) && Apart(cookies[h], s); }
    }
    forall h, g | h in stored && g in stored && h != g ensures Apart(stored[h], stored[g]) {
      assert Apart(cookies[h], cookies[g]);
    }
  }

  lemma ExtendLists(cookies: map<string, Slice>, mem: Memory, filled: map<array<Cookie>, nat>, key: string,
        xs: seq<Cookie>)
    requires StoreOk(cookies, mem, filled) && key in cookies && cookies[key].Window?
    requires cookies[key].len + |xs| <= cookies[key].cap
    ensures var s := cookies[key];
            Lists(cookies[key := s.Longer(|xs|)], AfterAppend(mem, s.arr, s.len, xs)) ==
            Lists(cookies, mem)[key := Shown(mem, s) + xs]
  {
    var s, n := cookies[key], cookies[key].len;
    assert SliceOk(s, mem, filled);
    var mem' := AfterAppend(mem, s.arr, n, xs);
    assert Shown(mem', s.Longer(|xs|)) == Shown(mem, s) + xs;
    forall h | h in cookies && h != key ensures Shown(mem', cookies[h]) == Shown(mem, cookies[h]) {
      assert Apart(cookies[h], s);
    }
  }

  lemma ReplaceLists(cookies: map<string, Slice>, mem: Memory, filled: map<array<Cookie>, nat>, key: string, r: Slice,
        mem': Memory)
    requires StoreOk(cookies, mem, filled)
    requires forall a :: a in mem ==> a in mem' && mem'[a] == mem[a]
    ensures Lists(cookies[key := r], mem') == Lists(cookies, mem)[key := Shown(mem', r)]
  {
    forall h | h in cookies && h != key ensures Shown(mem', cookies[h]) == Shown(mem, cookies[h]) {
      assert SliceOk(cookies[h], mem, filled);
    }
  }

  lemma ReplaceKeepsStore(cookies: map<string, Slice>, mem: Memory, filled: map<array<Cookie>, nat>, key: string,
        r: Slice, slots: seq<Cookie>)
    requires StoreOk(cookies, mem, filled) && r.Ok()
    requires r.Window? ==> r.arr !in mem && r.off == 0 && |slots| == r.arr.Length
    ensures var mem' := if r.Window? then mem[r.arr := slots] else mem;
            var filled' := if r.Window? then filled[r.arr := r.len] else filled;
            StoreOk(cookies[key := r], mem', filled')
  {
    forall h | h in cookies ensures SliceOk(cookies[h], mem, filled) {}
  }

  /** Storing, under a key, a nil slice or a slice of a new array. */
  lemma ReplaceKeepsGood(cfg: Config, cookies: map<string, Slice>, mem: Memory, filled: map<array<Cookie>, nat>,
        lent: set<Loan>, key: string, r: Slice, slots: seq<Cookie>)
    requires Good(cfg, cookies, mem, filled, lent) && r.Ok()
    requires r.Window? ==> r.arr !in mem && r.off == 0 && |slots| == r.arr.Length
    requires r.Window? ==> forall c :: c in slots[..r.len] ==> Accepts(cfg)(c)
    ensures var mem' := if r.Window? then mem[r.arr := slots] else mem;
            var filled' := if r.Window? then filled[r.arr := r.len] else filled;
            && Good(cfg, cookies[key := r], mem', filled', lent)
            && Lists(cookies[key := r], mem') == Lists(cookies, mem)[key := if r.Window? then slots[..r.len] else []]
  {
    ReplaceKeepsStore(cookies, mem, filled, key, r, slots);
    ReplaceLists(cookies, mem, filled, key, r, if r.Window? then mem[r.arr := slots] else mem);
    if r.Window? {
      NewKeepsLoans(cfg, mem, filled, lent, r.arr, slots, r.len);
    }
  }

  lemma ShownAccepted(cfg: Config, cookies: map<string, Slice>, mem: Memory, filled: map<array<Cookie>, nat>,
        key: string)
    requires StoreOk(cookies, mem, filled) && FilledOk(cfg, mem, filled)
    ensures forall c :: c in Shown(mem, StoredIn(cookies, key)) ==> Accepts(cfg)(c)
  {
  }

  /** A window of filled slots is a fixed point of `nonEmpty`. */
  lemma AcceptedWindow(cfg: Config, slots: seq<Cookie>, n: nat, off: nat, len: nat)
    requires AllAccepted(cfg, slots, n) && off + len <= n
    ensures Packed(slots, off, len, Accepts(cfg)) == slots
  {
    assert slots[off..off + len] == slots[..n][off..off + len];
    FilterAll(Accepts(cfg), slots[off..off + len]);
    PackedSame(slots, off, len, Accepts(cfg));
  }

  lemma {:induction false} UniqueMembers(xs: seq<Cookie>)
    ensures forall c :: c in Unique(xs) ==> c in xs
  {
    if xs != [] {
      UniqueMembers(xs[1..]);
    }
  }

  // ---------------------------------------------------------------- the jar

  class CookieJar {
    const config: Config
    var cookies: map<string, Slice>
    ghost var arrays: set<array<Cookie>>          // the arrays the jar has ever stored
    ghost var filled: map<array<Cookie>, nat>     // how many of their slots it has filled
    ghost var lent: set<Loan>                     // the slices Cookies has returned
    ghost var calls: seq<JarRuns.Op>              // the calls so far

    ghost function Mem(): Memory
      reads this`arrays, arrays
    {
      map a | a in arrays :: a[..]
    }

    /** The stored lists, as values. */
    ghost function Contents(): JarRuns.Jar
      reads this`cookies, this`arrays, arrays
    {
      Lists(cookies, Mem())
    }

    ghost predicate Valid()
      reads this, arrays
    {
      && Good(config, cookies, Mem(), filled, lent)
      && Contents() == JarRuns.Run(config, map[], calls)
    }

    /** What a caller may pass: a slice of its own, or cookies within a slice the jar handed out. */
    ghost predicate Passable(s: Slice)
      reads this
    {
      s.Ok() && (s.Window? && s.arr in arrays ==> s.arr in filled && s.off + s.len <= filled[s.arr])
    }

    constructor (config: Config)
      ensures Valid() && this.config == config && cookies == map[] && lent == {} && calls == [] && fresh(arrays)
    {
      this.config := config;
      cookies, arrays, filled, lent, calls := map[], {}, map[], {}, [];
    }

    /** Note a finished call, and the slice it returned if any. */
    ghost method Record(op: JarRuns.Op, loans: set<Loan>)
      requires Good(config, cookies, Mem(), filled, lent + loans)
      requires Contents() == JarRuns.Apply(config, JarRuns.Run(config, map[], calls), op)
      modifies this`lent, this`calls
      ensures Valid() && lent == old(lent) + loans
      ensures Contents() == old(Contents())
    {
      JarRuns.RunEnd(config, map[], calls, op);
      ghost var mem := Mem();
      lent := lent + loans;
      calls := calls + [op];
      assert Mem() == mem;
      assert Contents() == Lists(cookies, mem);
    }

    /** `notExpired` on the slice stored under a key. */
    method NotExpired(key: string) returns (r: Slice)
      requires StoreOk(cookies, Mem(), filled)
      modifies StoredIn(cookies, key).Arrays()
      ensures Mem() == AfterRead(old(Mem()), filled, StoredIn(cookies, key))
      ensures var s := StoredIn(cookies, key);
              r == if s.Window? then s.(len := |Filter(Live, Shown(old(Mem()), s))|) else Nil
      ensures r.Ok() && r.View() == Filter(Live, Shown(old(Mem()), StoredIn(cookies, key)))
    {
      var stored := StoredIn(cookies, key);
      ghost var mem := Mem();
      StoredShows(key);
      r := Compact(stored, Live);
      assert Mem() == AfterRead(mem, filled, stored) by {
        if stored.Window? {
          PackedHead(mem[stored.arr], stored.len);
        }
        forall a | a in arrays ensures a[..] == AfterRead(mem, filled, stored)[a] {
          assert a !in stored.Arrays() ==> a[..] == mem[a];
        }
      }
    }

    lemma StoredShows(key: string)
      requires StoreOk(cookies, Mem(), filled)
      ensures var s := StoredIn(cookies, key);
              && SliceOk(s, Mem(), filled) && s.Ok() && s.View() == Shown(Mem(), s)
              && (s.Window? ==> s.View() == Mem()[s.arr][..s.len])
    {
      var s := StoredIn(cookies, key);
      assert SliceOk(s, Mem(), filled);
    }

    /** `Cookies` on the slice stored under a key. */
    method TakeLive(key: string) returns (r: Slice)
      requires Valid()
      modifies this`lent, this`calls, arrays
      ensures Valid() && old(lent) <= lent
      ensures r.Ok() && r.View() == Filter(Live, JarRuns.Stored(old(Contents()), key))
      ensures Loan(r, r.View()) in lent
      ensures Contents() == JarRuns.Apply(config, old(Contents()), JarRuns.ReadCookies(key))
    {
      ghost var mem, lists := Mem(), Contents();
      ghost var live := Filter(Live, Shown(mem, StoredIn(cookies, key)));
      assert live == Filter(Live, JarRuns.Stored(lists, key));
      r := NotExpired(key);
      ReadLists(cookies, mem, filled, key);
      assert Contents() == JarRuns.Apply(config, lists, JarRuns.ReadCookies(key));
      ReadKeepsGood(config, cookies, mem, filled, lent, key, r);
      Record(JarRuns.ReadCookies(key), {Loan(r, live)});
    }

    /** `Cookies`: it returns exactly the live stored cookies, in order. */
    method GetCookies(host: string) returns (r: Slice)
      requires Valid()
      modifies this`lent, this`calls, arrays
      ensures Valid() && old(lent) <= lent
      ensures r.Ok() && r.View() == Filter(Live, JarRuns.Stored(old(Contents()), HostKey(host)))
      ensures Loan(r, r.View()) in lent
      ensures Contents() == JarRuns.Apply(config, old(Contents()), JarRuns.ReadCookies(HostKey(host)))
      ensures JarTerms.ReadCall(old(Contents()), HostKey(host), Contents(), r.View())
    {
      JarTerms.ReadInPlainTerms(config, Contents(), HostKey(host));
      r := TakeLive(HostKey(host));
    }

    /** `nonEmpty`: it compacts the caller's slice in place, and changes no array of the jar. */
    method NonEmpty(cookies: Slice) returns (r: Slice)
      requires FilledOk(config, Mem(), filled) && Passable(cookies)
      modifies cookies.Arrays()
      ensures Mem() == old(Mem())
      ensures r.Ok() && r.View() == Filter(Accepts(config), old(cookies.View()))
      ensures var kept := Filter(Accepts(config), old(cookies.View()));
              cookies.View() == kept + old(cookies.View())[|kept|..]
      ensures exists at :: JarTerms.NonEmptyDoes(config, old(cookies.View()), r.View(), at)
    {
      ghost var at := JarTerms.NonEmptyPositions(config, cookies.View());
      ghost var was, mem := cookies.View(), Mem();
      if config.allowEmpty {
        FilterAll(Accepts(config), was);
        return cookies;
      }
      r := Compact(cookies, Accepts(config));
      if cookies.Window? && cookies.arr in arrays {
        assert cookies.arr in mem && mem[cookies.arr] == old(cookies.arr[..]);
        AcceptedWindow(config, mem[cookies.arr], filled[cookies.arr], cookies.off, cookies.len);
        assert cookies.arr[..] == mem[cookies.arr];
      }
      forall a | a in arrays ensures a[..] == mem[a] {
        assert a !in cookies.Arrays() ==> a[..] == old(a[..]);
      }
      assert Mem() == mem;
    }

    /** `jar.cookies[key] = r` for a nil slice or a slice of a new array. */
    method StoreNew(key: string, r: Slice)
      requires Good(config, cookies, Mem(), filled, lent)
      requires r.Ok() && r.Arrays() !! arrays && (r.Window? ==> r.off == 0)
      requires forall c :: c in r.View() ==> Accepts(config)(c)
      modifies this`cookies, this`arrays, this`filled
      ensures Good(config, cookies, Mem(), filled, lent) && arrays == old(arrays) + r.Arrays()
      ensures Contents() == old(Contents())[key := r.View()]
    {
      ghost var mem := Mem();
      ReplaceKeepsGood(config, cookies, mem, filled, lent, key, r, if r.Window? then r.arr[..] else []);
      cookies := cookies[key := r];
      if r.Window? {
        filled := filled[r.arr := r.len];
        arrays := arrays + {r.arr};
        assert r.arr[..][..r.len] == r.View();
        assert Mem() == mem[r.arr := r.arr[..]];
      }
    }

    /** `jar.cookies[key] = r` for a slice extended in place. */
    method StoreLonger(key: string, r: Slice, ghost mem: Memory, ghost xs: seq<Cookie>)
      requires Good(config, cookies, mem, filled, lent) && key in cookies && cookies[key].Window?
      requires r == cookies[key].Longer(|xs|) && r.Ok() && forall c :: c in xs ==> Accepts(config)(c)
      requires Mem() == AfterAppend(mem, r.arr, cookies[key].len, xs)
      modifies this`cookies, this`filled
      ensures Good(config, cookies, Mem(), filled, lent)
      ensures Contents() == Lists(old(cookies), mem)[key := Shown(mem, old(cookies)[key]) + xs]
    {
      var s := cookies[key];
      ghost var now := Mem();
      assert SliceOk(s, mem, filled);
      AppendKeepsLoans(config, mem, filled, lent, s.arr, xs);
      ExtendKeepsStore(cookies, mem, filled, key, xs);
      ExtendLists(cookies, mem, filled, key, xs);
      filled := filled[s.arr := s.len + |xs|];
      cookies := cookies[key := r];
      assert Mem() == now;
    }

    /** `append(existing, newCookies...)` on the stored slice, and storing the result. */
    method AppendStored(key: string, newCookies: Slice)
      requires Good(config, cookies, Mem(), filled, lent)
      requires newCookies.Ok() && newCookies.Arrays() !! arrays
      requires forall c :: c in newCookies.View() ==> Accepts(config)(c)
      modifies this`cookies, this`arrays, this`filled, StoredIn(cookies, key).Arrays()
      ensures Good(config, cookies, Mem(), filled, lent) && fresh(arrays - old(arrays))
      ensures Contents() == old(Contents())[key := JarRuns.Stored(old(Contents()), key) + old(newCookies.View())]
    {
      var existing := StoredIn(cookies, key);
      ghost var mem, xs := Mem(), newCookies.View();
      assert existing.View() == Shown(mem, existing);
      if existing.Window? && existing.Fits(newCookies.Len()) {
        var result := Append(existing, newCookies);
        assert Mem() == AfterAppend(mem, existing.arr, existing.len, xs);
        StoreLonger(key, result, mem, xs);
      } else {
        ShownAccepted(config, cookies, mem, filled, key);
        AppendAndStore(key, existing, newCookies);
      }
    }

    /** `jar.cookies[key] = append(s, xs...)` where the result is not in an array of the jar. */
    method AppendAndStore(key: string, s: Slice, xs: Slice)
      requires Good(config, cookies, Mem(), filled, lent)
      requires s.Ok() && xs.Ok() && s.Arrays() !! xs.Arrays() && xs.Arrays() !! arrays
      requires s.Fits(xs.Len()) ==> s.Arrays() !! arrays && (s.Window? ==> s.off == 0)
      requires forall c :: c in s.View() + xs.View() ==> Accepts(config)(c)
      modifies this`cookies, this`arrays, this`filled, s.Arrays()
      ensures Good(config, cookies, Mem(), filled, lent) && fresh(arrays - old(arrays) - s.Arrays())
      ensures s.Arrays() <= old(arrays) ==> fresh(arrays - old(arrays))
      ensures Contents() == old(Contents())[key := old(s.View()) + old(xs.View())]
    {
      ghost var mem := Mem();
      var result := Append(s, xs);
      assert Mem() == mem;
      StoreNew(key, result);
    }

    /** The skipExisting branch of `SetCookies`: absent cookies are appended to the stored slice. */
    method AddAbsent(key: string, unique: Slice)
      requires Good(config, cookies, Mem(), filled, lent)
      requires unique.Ok() && forall c :: c in unique.View() ==> Accepts(config)(c)
      modifies this`cookies, this`arrays, this`filled, StoredIn(cookies, key).Arrays()
      ensures Good(config, cookies, Mem(), filled, lent) && fresh(arrays - old(arrays))
      ensures var stored := JarRuns.Stored(old(Contents()), key);
              Contents() == old(Contents())[key := stored + Filter(Unnamed(stored), old(unique.View()))]
    {
      var existing := StoredIn(cookies, key);
      ghost var lists, xs, stored := Contents(), unique.View(), existing.View();
      assert stored == JarRuns.Stored(lists, key);
      var newCookies := CollectUnnamed(existing, unique);
      assert Contents() == lists && newCookies.View() == Filter(Unnamed(stored), xs);
      FilterMembers(Unnamed(stored), xs);
      AppendStored(key, newCookies);
    }

    /** The override branch of `SetCookies`: the new cookies follow the stored ones they do not
        override, in a new slice. */
    method Override(key: string, unique: Slice)
      requires Good(config, cookies, Mem(), filled, lent)
      requires unique.Ok() && unique.Arrays() !! arrays && forall c :: c in unique.View() ==> Accepts(config)(c)
      modifies this`cookies, this`arrays, this`filled
      ensures Good(config, cookies, Mem(), filled, lent) && fresh(arrays - old(arrays) - unique.Arrays())
      ensures var stored := JarRuns.Stored(old(Contents()), key);
              Contents() == old(Contents())[key := Filter(Unnamed(old(unique.View())), stored) + old(unique.View())]
    {
      var existing := StoredIn(cookies, key);
      ghost var lists, xs := Contents(), unique.View();
      assert existing.View() == JarRuns.Stored(lists, key);
      var existingCookies := CollectUnnamed(unique, existing);
      assert Contents() == lists && unique.View() == xs;
      FilterMembers(Unnamed(xs), existing.View());
      ShownAccepted(config, cookies, Mem(), filled, key);
      AppendAndStore(key, existingCookies, unique);
    }

    /** The filters of `SetCookies`: the last non-empty cookie of each name, in a new slice. */
    method Prepare(cs: Slice) returns (unique: Slice)
      requires FilledOk(config, Mem(), filled) && Passable(cs)
      modifies cs.Arrays()
      ensures Mem() == old(Mem())
      ensures unique.Ok() && fresh(unique.Arrays()) && unique.View() == Unique(Filter(Accepts(config), old(cs.View())))
      ensures forall c :: c in unique.View() ==> Accepts(config)(c)
    {
      ghost var incoming := cs.View();
      var accepted := NonEmpty(cs);
      unique := UniqueByName(accepted);
      UniqueMembers(accepted.View());
      FilterMembers(Accepts(config), incoming);
    }

    method Merge(key: string, unique: Slice)
      requires Good(config, cookies, Mem(), filled, lent)
      requires unique.Ok() && unique.Arrays() !! arrays && forall c :: c in unique.View() ==> Accepts(config)(c)
      modifies this`cookies, this`arrays, this`filled, arrays
      ensures Good(config, cookies, Mem(), filled, lent) && fresh(arrays - old(arrays) - unique.Arrays())
      ensures var stored := JarRuns.Stored(old(Contents()), key);
              Contents() == old(Contents())[key := SetUnique(config, stored, old(unique.View()))]
    {
      if config.skipExisting {
        AddAbsent(key, unique);
      } else {
        Override(key, unique);
      }
    }

    /** `SetCookies` under a key. */
    method SetListed(key: string, cs: Slice)
      requires Valid() && Passable(cs)
      modifies this, arrays, cs.Arrays()
      ensures Valid() && lent == old(lent) && fresh(arrays - old(arrays))
      ensures Contents() == JarRuns.Apply(config, old(Contents()), JarRuns.SetCookies(key, old(cs.View())))
    {
      ghost var incoming, lists := cs.View(), Contents();
      var unique := Prepare(cs);
      assert Contents() == lists;
      Merge(key, unique);
      Record(JarRuns.SetCookies(key, incoming), {});
    }

    /** `SetCookies`.  The caller's slice is compacted in place unless empty cookies are allowed. */
    method SetCookies(host: string, cs: Slice)
      requires Valid() && Passable(cs)
      modifies this, arrays, cs.Arrays()
      ensures Valid() && lent == old(lent) && fresh(arrays - old(arrays))
      ensures Contents() == JarRuns.Apply(config, old(Contents()), JarRuns.SetCookies(HostKey(host), old(cs.View())))
      ensures JarTerms.SetCall(config, old(Contents()), HostKey(host), old(cs.View()), Contents())
    {
      JarTerms.SetInPlainTerms(config, Contents(), HostKey(host), cs.View());
      SetListed(HostKey(host), cs);
    }

    /** `Cookie`: the first live cookie of that name. */
    method GetCookie(host: string, name: string) returns (r: Option<Cookie>)
      requires Valid()
      ensures r == Find(JarRuns.Stored(Contents(), HostKey(host)), name)
      ensures JarTerms.Finds(JarRuns.Stored(Contents(), HostKey(host)), name, r)
    {
      var stored := StoredIn(cookies, HostKey(host));
      ghost var xs := stored.View();
      assert xs == JarRuns.Stored(Contents(), HostKey(host));
      JarTerms.FindFinds(xs, name);
      ghost var stop := JarTerms.FindStop(xs, name);
      for i := 0 to stored.Len()
        invariant i <= stop
      {
        var c := stored.Get(i);
        if c.name == name && c.maxAge > -1 {
          return Some(c);
        }
      }
      return None;
    }

    /** `CookiesMap`: a new map of the stored slices themselves. */
    method CookiesMap() returns (r: map<string, Slice>)
      requires Valid()
      ensures r == cookies && forall h :: h in r ==> Passable(r[h]) && r[h].View() == Contents()[h]
    {
      r := cookies;
    }

    lemma StoredView(key: string)
      requires Valid() && key in cookies
      ensures cookies[key].Ok() && cookies[key].View() == JarRuns.Stored(Contents(), key)
    {
      assert SliceOk(cookies[key], Mem(), filled);
    }

    /** Whatever calls followed it, a slice returned by `Cookies` still holds what it held. */
    lemma LoanUnchanged(l: Loan)
      requires Valid() && l in lent
      ensures l.slice.Ok() && l.slice.View() == l.contents && Passable(l.slice)
    {
      assert LoanOk(Mem(), filled, l);
    }
  }

  /** A slice of `CookiesMap` is the stored slice itself: a later call of `Cookies` on its host leaves
      what it shows unchanged if and only if all its live cookies precede all expired ones. */
  method StoredSliceKeptIff(jar: CookieJar, host: string) returns (s: Slice, r: Slice)
    requires jar.Valid() && HostKey(host) in jar.cookies
    modifies jar, jar.arrays
    ensures jar.Valid() && s == old(jar.cookies)[HostKey(host)] && s.Ok()
    ensures s.View() == old(s.View()) <==> JarLaws.Partitioned(old(s.View()))
  {
    var m := jar.CookiesMap();
    s := m[HostKey(host)];
    jar.StoredView(HostKey(host));
    JarLaws.ReadRaisesLiveCount(s.View());
    r := ReadStored(jar, host);
  }

  /** What the slice stored for a host shows after a call of `Cookies`. */
  method ReadStored(jar: CookieJar, host: string) returns (r: Slice)
    requires jar.Valid() && HostKey(host) in jar.cookies
    modifies jar, jar.arrays
    ensures jar.Valid() && jar.cookies == old(jar.cookies) && jar.cookies[HostKey(host)].Ok()
    ensures jar.cookies[HostKey(host)].View() == Read(JarRuns.Stored(old(jar.Contents()), HostKey(host)))
  {
    r := jar.GetCookies(host);
    jar.StoredView(HostKey(host));
  }

  /** For example when it is passed back to `SetCookies`, on any host, and its host is read again. */
  method ReturnedSliceIsFrozen(jar: CookieJar, host: string, other: string) returns (r: Slice, again: Slice)
    requires jar.Valid()
    modifies jar, jar.arrays
    ensures jar.Valid() && r.Ok() && r.View() == Filter(Live, JarRuns.Stored(old(jar.Contents()), HostKey(host)))
  {
    r := jar.GetCookies(host);
    ghost var loan := Loan(r, r.View());
    PassBack(jar, other, r, loan);
    again := jar.GetCookies(host);
    jar.LoanUnchanged(loan);
  }

  method PassBack(jar: CookieJar, other: string, r: Slice, ghost loan: Loan)
    requires jar.Valid() && loan in jar.lent && loan.slice == r
    modifies jar, jar.arrays
    ensures jar.Valid() && loan in jar.lent && fresh(jar.arrays - old(jar.arrays))
  {
    jar.LoanUnchanged(loan);
    jar.SetCookies(other, r);
  }
}
