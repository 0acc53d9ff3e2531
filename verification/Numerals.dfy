/** `strconv.ParseUint` for the bases the JA3 code uses, and printing. */
module Numerals {
  import opened Options

  /** The value of a digit or letter; 36 for anything else. */
  function Digit(c: char): nat {
    if '0' <= c <= '9' then (c as int) - ('0' as int)
    else if 'a' <= c <= 'z' then (c as int) - ('a' as int) + 10
    else if 'A' <= c <= 'Z' then (c as int) - ('A' as int) + 10
    else 36
  }

  type Base = b: nat | b == 10 || b == 16 witness 10

  /** `base` times `n`, by a constant in each case. */
  function Times(base: Base, n: nat): nat {
    if base == 10 then 10 * n else 16 * n
  }

  predicate IsNumeral(s: string, base: Base) {
    s != "" && forall c :: c in s ==> Digit(c) < base
  }

  function Value(s: string, base: Base): nat {
    if s == "" then 0 else Times(base, Value(s[..|s| - 1], base)) + Digit(s[|s| - 1])
  }

  /** `ParseUint(s, base, bits)` where `max` is the largest value of that many bits. */
  function ParseUint(s: string, base: Base, max: nat): Option<nat> {
    if IsNumeral(s, base) && Value(s, base) <= max then Some(Value(s, base)) else None
  }

  // ---------------------------------------------------------------- printing

  const DIGITS := "0123456789abcdef"

  function Over(base: Base, n: nat): (q: nat)
    ensures n >= base ==> 0 < q < n
  {
    if base == 10 then n / 10 else n / 16
  }

  /** Without leading zeros, in small letters. */
  function PrintIn(n: nat, base: Base): (s: string)
    ensures s != ""
    decreases n
  {
    if n < base then [DIGITS[n]] else PrintIn(Over(base, n), base) + [DIGITS[n - Times(base, Over(base, n))]]
  }

  /** Decimal. */
  function Print(n: nat): string {
    PrintIn(n, 10)
  }

  lemma DigitOf(d: nat)
    requires d < 16
    ensures Digit(DIGITS[d]) == d
  {
    assert forall k :: 0 <= k < 10 ==> DIGITS[k] as int == '0' as int + k;
    assert forall k :: 10 <= k < 16 ==> DIGITS[k] as int == 'a' as int + k - 10;
  }

  lemma ValueEnd(s: string, c: char, base: Base)
    requires IsNumeral(s, base) && Digit(c) < base
    ensures IsNumeral(s + [c], base) && Value(s + [c], base) == Times(base, Value(s, base)) + Digit(c)
  {
    assert (s + [c])[..|s|] == s;
  }

  lemma PrintEnd(q: nat, d: nat, base: Base)
    requires 0 < q && d < base
    ensures PrintIn(Times(base, q) + d, base) == PrintIn(q, base) + [DIGITS[d]]
  {
    assert Over(base, Times(base, q) + d) == q;
  }

  /** Printing and then parsing gives the number back. */
  lemma {:induction false} ParsePrintIn(n: nat, base: Base)
    ensures IsNumeral(PrintIn(n, base), base) && Value(PrintIn(n, base), base) == n
    decreases n
  {
    if n < base {
      DigitOf(n);
      assert Value(PrintIn(n, base)[..0], base) == 0;
    } else {
      var q := Over(base, n);
      var d := n - Times(base, q);
      ParsePrintIn(q, base);
      DigitOf(d);
      ValueEnd(PrintIn(q, base), DIGITS[d], base);
    }
  }

  lemma ParsePrint(n: nat)
    ensures IsNumeral(Print(n), 10) && Value(Print(n), 10) == n
    ensures forall c :: c in Print(n) ==> '0' <= c <= '9'
  {
    ParsePrintIn(n, 10);
  }

  // ---------------------------------------------------------------- what is parsed

  /** Capital letters made small. */
  function Small(s: string): (r: string)
    ensures |r| == |s|
  {
    seq(|s|, i requires 0 <= i < |s| => if 'A' <= s[i] <= 'Z' then s[i] - 'A' + 'a' else s[i])
  }

  function Zeros(k: nat): (r: string)
    ensures |r| == k && forall c :: c in r ==> c == '0'
  {
    seq(k, _ => '0')
  }

  /** `s` is `n` as printed, up to leading zeros and capital letters. */
  ghost predicate Spells(s: string, n: nat, base: Base) {
    exists k: nat :: Small(s) == Zeros(k) + PrintIn(n, base)
  }

  lemma DigitChar(c: char)
    requires Digit(c) < 16
    ensures DIGITS[Digit(c)] == if 'A' <= c <= 'Z' then c - 'A' + 'a' else c
  {
    assert forall k :: 0 <= k < 10 ==> DIGITS[k] as int == '0' as int + k;
    assert forall k :: 10 <= k < 16 ==> DIGITS[k] as int == 'a' as int + k - 10;
  }

  lemma SmallEnd(s: string, c: char)
    requires Digit(c) < 16
    ensures Small(s + [c]) == Small(s) + [DIGITS[Digit(c)]]
  {
    DigitChar(c);
  }

  lemma ZerosEnd(k: nat, base: Base)
    ensures Zeros(k) + "0" == Zeros(k + 1) && PrintIn(0, base) == "0"
  {
  }

  lemma JoinEnd(small: string, zeros: string, printed: string, c: char)
    requires small == zeros + printed
    ensures small + [c] == zeros + (printed + [c])
  {
  }

  lemma SpelledFrom(s: string, n: nat, base: Base, k: nat, printed: string)
    requires printed == PrintIn(n, base) && Small(s) == Zeros(k) + printed
    ensures Spells(s, n, base)
  {
  }

  lemma SpellsMore(s: string, c: char, v: nat, base: Base)
    requires Spells(s, v, base) && Digit(c) < base && 0 < v
    ensures Spells(s + [c], Times(base, v) + Digit(c), base)
  {
    var k: nat :| Small(s) == Zeros(k) + PrintIn(v, base);
    var d := DIGITS[Digit(c)];
    SmallEnd(s, c);
    PrintEnd(v, Digit(c), base);
    JoinEnd(Small(s), Zeros(k), PrintIn(v, base), d);
    SpelledFrom(s + [c], Times(base, v) + Digit(c), base, k, PrintIn(v, base) + [d]);
  }

  lemma SpellsFirst(s: string, c: char, base: Base)
    requires Spells(s, 0, base) && Digit(c) < base
    ensures Spells(s + [c], Digit(c), base)
  {
    var k: nat :| Small(s) == Zeros(k) + PrintIn(0, base);
    SmallEnd(s, c);
    ZerosEnd(k, base);
    assert Small(s + [c]) == Zeros(k + 1) + PrintIn(Digit(c), base);
  }

  lemma DigitSpells(c: char, base: Base)
    requires Digit(c) < base
    ensures Spells([c], Digit(c), base) && Value([c], base) == Digit(c)
  {
    SmallEnd("", c);
    assert Small([c]) == Zeros(0) + PrintIn(Digit(c), base);
    assert [c][..0] == "";
  }

  lemma SpellsEnd(s: string, c: char, v: nat, base: Base)
    requires Spells(s, v, base) && Digit(c) < base
    ensures Spells(s + [c], Times(base, v) + Digit(c), base)
  {
    if v == 0 {
      SpellsFirst(s, c, base);
    } else {
      SpellsMore(s, c, v, base);
    }
  }

  /** A numeral spells its value. */
  lemma {:induction false} NumeralSpells(s: string, base: Base)
    requires IsNumeral(s, base)
    ensures Spells(s, Value(s, base), base)
    decreases |s|
  {
    var front, c := s[..|s| - 1], s[|s| - 1];
    assert s == front + [c];
    if front == "" {
      DigitSpells(c, base);
    } else {
      NumeralSpells(front, base);
      SpellsEnd(front, c, Value(front, base), base);
    }
  }

  /** What spells a number is a numeral of that value. */
  lemma SpellsNumeral(s: string, n: nat, base: Base)
    requires Spells(s, n, base)
    ensures IsNumeral(s, base) && Value(s, base) == n
    decreases |s|
  {
    ParsePrintIn(n, base);
    SmallValue(s, base);
    var k: nat :| Small(s) == Zeros(k) + PrintIn(n, base);
    ZerosNumeral(k, PrintIn(n, base), base);
    ZerosValue(k, PrintIn(n, base), base);
  }

  lemma SmallDigit(s: string, c: char)
    ensures |Small([c])| == 1 && Digit(Small([c])[0]) == Digit(c)
    ensures Small(s + [c]) == Small(s) + [Small([c])[0]]
  {
  }

  lemma NumeralEnd(s: string, c: char, base: Base)
    ensures IsNumeral(s + [c], base) <==> (s == "" || IsNumeral(s, base)) && Digit(c) < base
  {
    assert forall d :: d in s + [c] <==> d in s || d == c;
  }

  lemma {:induction false} SmallValue(s: string, base: Base)
    ensures IsNumeral(s, base) <==> IsNumeral(Small(s), base)
    ensures Value(s, base) == Value(Small(s), base)
    decreases |s|
  {
    if s != "" {
      var front, c := s[..|s| - 1], s[|s| - 1];
      var small := Small([c])[0];
      assert s == front + [c];
      SmallValue(front, base);
      SmallDigit(front, c);
      NumeralEnd(front, c, base);
      NumeralEnd(Small(front), small, base);
      assert Small(s)[..|s| - 1] == Small(front);
    }
  }

  lemma ZerosNumeral(k: nat, t: string, base: Base)
    requires IsNumeral(t, base)
    ensures IsNumeral(Zeros(k) + t, base)
  {
    assert forall d :: d in Zeros(k) + t ==> d == '0' || d in t;
  }

  lemma {:induction false} ZerosValue(k: nat, t: string, base: Base)
    ensures Value(Zeros(k) + t, base) == Value(t, base)
    decreases |t|
  {
    if t == "" {
      assert Zeros(k) + t == Zeros(k);
      ZerosAreZero(k, base);
    } else {
      assert (Zeros(k) + t)[..k + |t| - 1] == Zeros(k) + t[..|t| - 1];
      ZerosValue(k, t[..|t| - 1], base);
    }
  }

  lemma {:induction false} ZerosAreZero(k: nat, base: Base)
    ensures Value(Zeros(k), base) == 0
  {
    if k > 0 {
      ZerosAreZero(k - 1, base);
      assert Zeros(k)[..k - 1] == Zeros(k - 1);
    }
  }

  /** Exactly what `ParseUint` takes for `n`: its digits, in either case, after any zeros. */
  lemma ParsesIff(s: string, base: Base, max: nat, n: nat)
    ensures ParseUint(s, base, max) == Some(n) <==> n <= max && Spells(s, n, base)
  {
    if IsNumeral(s, base) { NumeralSpells(s, base); }
    if Spells(s, n, base) { SpellsNumeral(s, n, base); }
  }
}
