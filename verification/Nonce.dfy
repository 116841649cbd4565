/** Nonce composition: a connection's extranonce in front of the miner's suffix. */
module Nonce {
  import opened Powers
  import opened Hex

  const SUFFIX_DIGITS: nat := 12

  /** The nonces that share an extranonce: 16^12 of them. */
  const SLICE := 0x1_0000_0000_0000

  /** A connection's extranonce: the low 16 bits of its id as four hex digits. */
  function Extranonce(conn: nat): string {
    Format(conn % 0x1_0000, 4)
  }

  function PadLeft(s: string, width: nat): string
    decreases width - |s|
  {
    if |s| >= width then s else PadLeft("0" + s, width)
  }

  /** The nonce of a submit: short suffixes are padded and prefixed, anything longer stands alone,
      and text that does not parse counts as 0. */
  function Compose(extranonce: string, nonceText: string): nat {
    var clean := TrimPrefix(nonceText);
    var alone := ParseU64(clean).GetOr(0);
    if |clean| <= SUFFIX_DIGITS
    then ParseU64(extranonce + PadLeft(clean, SUFFIX_DIGITS)).GetOr(alone)
    else alone
  }

  lemma {:induction false} PadLeftValue(s: string, width: nat)
    requires |s| <= width
    ensures |PadLeft(s, width)| == width
    ensures AllHex(PadLeft(s, width)) <==> AllHex(s)
    ensures AllHex(s) ==> Value(PadLeft(s, width)) == Value(s)
    decreases width - |s|
  {
    if |s| < width {
      PadLeftValue("0" + s, width);
      assert forall i :: 0 <= i < |s| ==> ("0" + s)[i + 1] == s[i];
      if AllHex(s) {
        assert AllHex("0") && Value("0") == 0;
        ValueConcat("0", s);
      }
    }
  }

  lemma Slot(c: nat, v: nat)
    requires c < 0x1_0000 && v < SLICE
    ensures var nonce := c * SLICE + v;
            nonce < 0x1_0000_0000_0000_0000 && nonce / SLICE == c && nonce % SLICE == v
  {
    Pow2Values();
    RemainderIsUnique(c * SLICE + v, c, SLICE, v);
  }

  lemma PrefixedValue(c: nat, padded: string)
    requires c < 0x1_0000 && |padded| == SUFFIX_DIGITS && AllHex(padded)
    ensures var full := Format(c, 4) + padded;
            AllHex(full) && Value(full) == c * SLICE + Value(padded) && Value(padded) < SLICE && full[0] != '+'
  {
    FourDigits(c);
    ValueConcat(Format(c, 4), padded);
    ValueBound(padded);
    assert Pow2(4 * |padded|) == SLICE by { Pow2Values(); }
    assert DigitValue((Format(c, 4) + padded)[0]).Some?;
  }

  lemma FourDigits(c: nat)
    requires c < 0x1_0000
    ensures Value(Format(c, 4)) == c
  {
    ValueOfFormat(c, 4);
    assert Pow2(4 * 4) == 0x1_0000 by { Pow2Values(); }
  }

  /** What a client is told: four lower-case hex digits of its id modulo 2^16. */
  lemma ExtranonceText(conn: nat)
    ensures |Extranonce(conn)| == 4 && AllLowerHex(Extranonce(conn)) && AllHex(Extranonce(conn))
    ensures Value(Extranonce(conn)) == conn % 65536
  {
    FourDigits(conn % 0x1_0000);
  }

  /** A hex suffix of at most twelve digits lands in the connection's own slice of 2^48 nonces, and
      the extranonce and the suffix can be read back off the nonce. */
  lemma ComposeIsSlot(conn: nat, text: string)
    requires |TrimPrefix(text)| <= 12 && AllHex(TrimPrefix(text))
    ensures var nonce := Compose(Extranonce(conn), text);
            && nonce == (conn % 65536) * Pow2(48) + Value(TrimPrefix(text))
            && nonce / Pow2(48) == conn % 65536
            && nonce % Pow2(48) == Value(TrimPrefix(text))
            && nonce < Pow2(64)
  {
    var clean, c := TrimPrefix(text), conn % 0x1_0000;
    PadLeftValue(clean, SUFFIX_DIGITS);
    var padded := PadLeft(clean, SUFFIX_DIGITS);
    PrefixedValue(c, padded);
    Pow2Values();
    Slot(c, Value(padded));
  }

  /** A longer text is the nonce itself when it parses, and 0 otherwise. */
  lemma LongSubmit(conn: nat, text: string)
    requires |TrimPrefix(text)| > 12
    ensures var clean, nonce := TrimPrefix(text), Compose(Extranonce(conn), text);
            && (AllHex(clean) && Value(clean) < Pow2(64) ==> nonce == Value(clean))
            && (ParseU64(clean).None? ==> nonce == 0)
  {
    var clean := TrimPrefix(text);
    if AllHex(clean) {
      assert DigitValue(clean[0]).Some? && DigitValue('+').None?;
    }
  }

  lemma SliceAndSuffix(conn: nat, text: string)
    requires |TrimPrefix(text)| <= SUFFIX_DIGITS && AllHex(TrimPrefix(text))
    ensures var nonce := Compose(Extranonce(conn), text);
            nonce / SLICE == conn % 0x1_0000 && nonce % SLICE == Value(TrimPrefix(text))
  {
    ComposeIsSlot(conn, text);
    Pow2Values();
  }

  lemma AloneBound(clean: string)
    requires |clean| <= SUFFIX_DIGITS
    ensures ParseU64(clean).GetOr(0) < SLICE
  {
    if ParseU64(clean).Some? {
      var digits := if clean[0] == '+' then clean[1..] else clean;
      ValueBound(digits);
      Pow2Monotone(4 * |digits|, 48);
      Pow2Values();
    }
  }

  /** The slice of a short submit: the connection's own when it is hex; a suffix that is not falls
      back to a small number. */
  lemma ShortSubmitSlice(conn: nat, text: string)
    requires |TrimPrefix(text)| <= SUFFIX_DIGITS
    ensures Compose(Extranonce(conn), text) / SLICE == if AllHex(TrimPrefix(text)) then conn % 0x1_0000 else 0
  {
    var clean, prefix := TrimPrefix(text), Extranonce(conn);
    if AllHex(clean) {
      SliceAndSuffix(conn, text);
    } else {
      PadLeftValue(clean, SUFFIX_DIGITS);
      var padded := PadLeft(clean, SUFFIX_DIGITS);
      NotHexWithPrefix(prefix, padded);
      AloneBound(clean);
      RemainderIsUnique(Compose(prefix, text), 0, SLICE, Compose(prefix, text));
    }
  }

  lemma NotHexWithPrefix(prefix: string, padded: string)
    requires prefix != "" && AllHex(prefix) && !AllHex(padded)
    ensures ParseU64(prefix + padded).None?
  {
    var i :| 0 <= i < |padded| && DigitValue(padded[i]).None?;
    assert (prefix + padded)[|prefix| + i] == padded[i];
    assert DigitValue((prefix + padded)[0]).Some?;
  }

  /** The digits of a nonce text: what is left after the prefix and one plus sign. */
  function DigitsOf(text: string): string {
    var clean := TrimPrefix(text);
    if clean != "" && clean[0] == '+' then clean[1..] else clean
  }

  /** The part of a long nonce text before its last twelve digits, as a number. */
  function Head(text: string): nat
    requires |DigitsOf(text)| >= SUFFIX_DIGITS && AllHex(DigitsOf(text))
  {
    Value(DigitsOf(text)[..|DigitsOf(text)| - SUFFIX_DIGITS])
  }

  lemma LongValue(text: string)
    requires |DigitsOf(text)| >= SUFFIX_DIGITS && AllHex(DigitsOf(text))
    ensures Value(DigitsOf(text)) / SLICE == Head(text)
  {
    var digits := DigitsOf(text);
    var n := |digits| - SUFFIX_DIGITS;
    assert digits == digits[..n] + digits[n..];
    ValueConcat(digits[..n], digits[n..]);
    ValueBound(digits[n..]);
    assert Pow2(4 * |digits[n..]|) == SLICE by { Pow2Values(); }
    RemainderIsUnique(Value(digits), Value(digits[..n]), SLICE, Value(digits[n..]));
  }

  /** The slice of any submit. Texts of more than twelve digits stand alone: their own leading digits
      decide, or they count as 0 when they do not parse. */
  lemma SubmitSlice(conn: nat, text: string)
    ensures Compose(Extranonce(conn), text) / SLICE ==
            if |TrimPrefix(text)| <= SUFFIX_DIGITS
            then if AllHex(TrimPrefix(text)) then conn % 0x1_0000 else 0
            else if ParseU64(TrimPrefix(text)).Some? then Head(text) else 0
  {
    var clean := TrimPrefix(text);
    if |clean| <= SUFFIX_DIGITS {
      ShortSubmitSlice(conn, text);
    } else if ParseU64(clean).Some? {
      LongValue(text);
    } else {
      assert Compose(Extranonce(conn), text) == 0;
    }
  }

  /** Exactly which submits stay in the connection's own slice. */
  lemma SubmitInSliceIff(conn: nat, text: string)
    ensures Compose(Extranonce(conn), text) / SLICE == conn % 0x1_0000 <==>
              || (|TrimPrefix(text)| <= SUFFIX_DIGITS && AllHex(TrimPrefix(text)))
              || (|TrimPrefix(text)| > SUFFIX_DIGITS && ParseU64(TrimPrefix(text)).Some? && Head(text) == conn % 0x1_0000)
              || (conn % 0x1_0000 == 0 && if |TrimPrefix(text)| <= SUFFIX_DIGITS then !AllHex(TrimPrefix(text))
                                          else ParseU64(TrimPrefix(text)).None?)
  {
    SubmitSlice(conn, text);
  }

  /** A suffix that falls back: connection 1 submitting "+5" mines nonce 5, in connection 0's slice. */
  lemma PlusSignLeavesSlice()
    ensures Compose(Extranonce(1), "+5") == 5
  {
    assert TrimPrefix("+5") == "+5";
    PadLeftValue("+5", SUFFIX_DIGITS);
    var padded := PadLeft("+5", SUFFIX_DIGITS);
    assert DigitValue("+5"[0]).None?;
    NotHexWithPrefix(Extranonce(1), padded);
    assert "+5"[1..] == "5";
    assert Value("5") == 5 by { assert "5"[..0] == ""; }
    Pow2Values();
  }

  /** Connections whose ids are less than 65536 apart never compose the same nonce. */
  lemma SlicesDisjoint(conn: nat, other: nat, text: string, otherText: string)
    requires conn < other < conn + 0x1_0000
    requires |TrimPrefix(text)| <= SUFFIX_DIGITS && AllHex(TrimPrefix(text))
    requires |TrimPrefix(otherText)| <= SUFFIX_DIGITS && AllHex(TrimPrefix(otherText))
    ensures Compose(Extranonce(conn), text) != Compose(Extranonce(other), otherText)
  {
    SliceAndSuffix(conn, text);
    SliceAndSuffix(other, otherText);
    NearbyDiffer(conn, other);
  }

  lemma NearbyDiffer(a: nat, b: nat)
    requires a < b < a + 0x1_0000
    ensures a % 0x1_0000 != b % 0x1_0000
  {
  }

  /** Two short hex suffixes of one connection give the same nonce exactly when they denote the same
      number. */
  lemma SuffixDecidesNonce(conn: nat, text: string, otherText: string)
    requires |TrimPrefix(text)| <= SUFFIX_DIGITS && AllHex(TrimPrefix(text))
    requires |TrimPrefix(otherText)| <= SUFFIX_DIGITS && AllHex(TrimPrefix(otherText))
    ensures Compose(Extranonce(conn), text) == Compose(Extranonce(conn), otherText) <==>
              Value(TrimPrefix(text)) == Value(TrimPrefix(otherText))
  {
    SliceAndSuffix(conn, text);
    SliceAndSuffix(conn, otherText);
    if Value(TrimPrefix(text)) == Value(TrimPrefix(otherText)) {
      ComposeIsSlot(conn, text);
      ComposeIsSlot(conn, otherText);
    }
  }
}
