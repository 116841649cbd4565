/** Base-16 text as the stratum server reads and writes it. */
module Hex {
  import opened Sequences
  import opened Powers
  import opened Options

  function DigitChar(n: nat): (c: char)
    requires n < 16
    ensures IsLowerHex(c) && DigitValue(c) == Some(n)
  {
    if n < 10 then ('0' as int + n) as char else ('a' as int + n - 10) as char
  }

  function DigitValue(c: char): (v: Option<nat>)
    ensures v.Some? ==> v.value < 16
  {
    if '0' <= c <= '9' then Some(c as int - '0' as int)
    else if 'a' <= c <= 'f' then Some(c as int - 'a' as int + 10)
    else if 'A' <= c <= 'F' then Some(c as int - 'A' as int + 10)
    else None
  }

  predicate IsLowerHex(c: char) {
    '0' <= c <= '9' || 'a' <= c <= 'f'
  }

  predicate AllHex(s: string) {
    forall i :: 0 <= i < |s| ==> DigitValue(s[i]).Some?
  }

  predicate AllLowerHex(s: string) {
    forall i :: 0 <= i < |s| ==> IsLowerHex(s[i])
  }

  /** The number an all-hex text denotes, most significant digit first. */
  function Value(s: string): nat
    requires AllHex(s)
  {
    if s == "" then 0 else 16 * Value(s[..|s| - 1]) + DigitValue(s[|s| - 1]).value
  }

  /** The last width hex digits of v, in lower case, padded with zeros. */
  function Format(v: nat, width: nat): (s: string)
    ensures |s| == width && AllLowerHex(s) && AllHex(s)
  {
    if width == 0 then "" else Format(v / 16, width - 1) + [DigitChar(v % 16)]
  }

  lemma {:induction false} ValueBound(s: string)
    requires AllHex(s)
    ensures Value(s) < Pow2(4 * |s|)
  {
    if s != "" {
      ValueBound(s[..|s| - 1]);
      Pow2Add(4, 4 * (|s| - 1));
      assert Pow2(4) == 16;
    }
  }

  lemma {:induction false} ValueConcat(a: string, b: string)
    requires AllHex(a) && AllHex(b)
    ensures AllHex(a + b) && Value(a + b) == Value(a) * Pow2(4 * |b|) + Value(b)
  {
    if b == "" {
      assert a + b == a;
    } else {
      var n := |b| - 1;
      ValueConcat(a, b[..n]);
      ConcatLast(a, b);
      SixteenFold(n);
      Shift(Value(a), Pow2(4 * n), Value(b[..n]), DigitValue(b[n]).value);
    }
  }

  lemma SixteenFold(n: nat)
    ensures Pow2(4 * (n + 1)) == 16 * Pow2(4 * n)
  {
    Pow2Add(4, 4 * n);
    assert Pow2(4) == 16;
    assert 4 * (n + 1) == 4 + 4 * n;
  }

  lemma Shift(a: nat, p: nat, b: nat, d: nat)
    ensures 16 * (a * p + b) + d == a * (16 * p) + (16 * b + d)
  {
  }

  lemma {:induction false} ValueOfFormat(v: nat, width: nat)
    ensures Value(Format(v, width)) == v % Pow2(4 * width)
  {
    if width > 0 {
      ValueOfFormat(v / 16, width - 1);
      var s := Format(v, width);
      assert s[..width - 1] == Format(v / 16, width - 1);
      Pow2Add(4, 4 * (width - 1));
      assert Pow2(4) == 16;
      DivMod16(v, Pow2(4 * (width - 1)));
    }
  }

  lemma DivMod16(v: nat, p: nat)
    requires p > 0
    ensures 16 * ((v / 16) % p) + v % 16 == v % (16 * p)
  {
    var q, r := (v / 16) / p, (v / 16) % p;
    assert v / 16 == q * p + r;
    var low := 16 * r + v % 16;
    assert v == q * (16 * p) + low by {
      assert 16 * (q * p) == q * (16 * p);
    }
    assert low < 16 * p;
    RemainderIsUnique(v, q, 16 * p, low);
  }

  lemma RemainderIsUnique(v: nat, q: nat, m: nat, r: nat)
    requires v == q * m + r && r < m
    ensures v % m == r && v / m == q
  {
    assert (v / m) * m + v % m == v;
    assert (q - v / m) * m == q * m - (v / m) * m;
    MultipleBounds(q - v / m, m);
  }

  lemma MultipleBounds(k: int, m: nat)
    ensures k >= 1 ==> k * m >= m
    ensures k <= -1 ==> -(k * m) >= m
  {
  }

  /** Two numbers print alike exactly when they agree modulo 16^width. */
  lemma FormatInjective(a: nat, b: nat, width: nat)
    ensures Format(a, width) == Format(b, width) <==> a % Pow2(4 * width) == b % Pow2(4 * width)
  {
    ValueOfFormat(a, width);
    ValueOfFormat(b, width);
    FormatOfValue(Format(a, width));
    FormatOfValue(Format(b, width));
  }

  /** Numbers that fit the width print alike only when they are equal. */
  lemma FormatSeparates(a: nat, b: nat, width: nat)
    requires a < Pow2(4 * width) && b < Pow2(4 * width)
    ensures Format(a, width) == Format(b, width) <==> a == b
  {
    FormatInjective(a, b, width);
    RemainderIsUnique(a, 0, Pow2(4 * width), a);
    RemainderIsUnique(b, 0, Pow2(4 * width), b);
  }

  lemma {:induction false} FormatOfValue(s: string)
    requires AllLowerHex(s) && AllHex(s)
    ensures Format(Value(s), |s|) == s
  {
    if s != "" {
      var n := |s| - 1;
      FormatOfValue(s[..n]);
      assert s == s[..n] + [s[n]];
    }
  }

  /** u64::from_str_radix(s, 16): a leading plus is accepted, overflow and empty text are not. */
  function ParseU64(s: string): Option<nat> {
    var digits := if s != "" && s[0] == '+' then s[1..] else s;
    if digits == "" || !AllHex(digits) || Value(digits) >= Pow2(64) then None else Some(Value(digits))
  }

  /** Removes every leading occurrence of "0x". */
  function TrimPrefix(s: string): string {
    if |s| >= 2 && s[0] == '0' && s[1] == 'x' then TrimPrefix(s[2..]) else s
  }

  /** The digits, in both cases, and nothing else. */
  lemma DigitsAre(c: char)
    ensures DigitValue('0') == Some(0) && DigitValue('1') == Some(1) && DigitValue('2') == Some(2) && DigitValue('3') == Some(3)
    ensures DigitValue('4') == Some(4) && DigitValue('5') == Some(5) && DigitValue('6') == Some(6) && DigitValue('7') == Some(7)
    ensures DigitValue('8') == Some(8) && DigitValue('9') == Some(9) && DigitValue('a') == Some(10) && DigitValue('b') == Some(11)
    ensures DigitValue('c') == Some(12) && DigitValue('d') == Some(13) && DigitValue('e') == Some(14) && DigitValue('f') == Some(15)
    ensures DigitValue('A') == Some(10) && DigitValue('B') == Some(11) && DigitValue('C') == Some(12)
    ensures DigitValue('D') == Some(13) && DigitValue('E') == Some(14) && DigitValue('F') == Some(15)
    ensures DigitValue(c).Some? ==>
              c in {'0', '1', '2', '3', '4', '5', '6', '7', '8', '9', 'a', 'b', 'c', 'd', 'e', 'f', 'A', 'B', 'C', 'D', 'E', 'F'}
    ensures IsLowerHex(c) <==> DigitValue(c).Some? && c !in {'A', 'B', 'C', 'D', 'E', 'F'}
  {
  }

  /** What parses: digits, with or without a plus sign, that denote less than 2^64. */
  lemma ParsesIff(s: string, v: nat)
    ensures ParseU64(s) == Some(v) <==>
              exists digits :: (s == digits || s == "+" + digits)
                               && digits != "" && AllHex(digits) && Value(digits) == v && v < Pow2(64)
  {
    var body := if s != "" && s[0] == '+' then s[1..] else s;
    assert s == body || s == "+" + body;
    forall digits | (s == digits || s == "+" + digits) && digits != "" && AllHex(digits) ensures digits == body {
      assert DigitValue(digits[0]).Some? && DigitValue('+').None?;
      if s == "+" + digits {
        assert s[0] == '+' && s[1..] == digits;
      }
    }
  }

  /** No prefix is left, and one more makes no difference. */
  lemma {:induction false} PrefixTrimmed(s: string)
    ensures !("0x" <= TrimPrefix(s)) && (!("0x" <= s) ==> TrimPrefix(s) == s)
    ensures TrimPrefix("0x" + s) == TrimPrefix(s)
  {
    assert ("0x" + s)[2..] == s;
    if "0x" <= s {
      assert s == "0x" + s[2..];
      PrefixTrimmed(s[2..]);
    }
  }
}
