/** The 80-character job parameter: a 32-byte hash and a little-endian timestamp in lower-case hex. */
module JobString {
  import opened Sequences
  import opened Powers
  import opened Hex

  type Byte = b: nat | b < 0x100

  /** The low n bytes of v, least significant first. */
  function LittleEndian(v: nat, n: nat): (bs: seq<Byte>)
    ensures |bs| == n
  {
    if n == 0 then [] else [v % 0x100] + LittleEndian(v / 0x100, n - 1)
  }

  function FromLittleEndian(bs: seq<Byte>): nat {
    if bs == [] then 0 else bs[0] + 0x100 * FromLittleEndian(bs[1..])
  }

  function EncodeBytes(bs: seq<Byte>): (s: string)
    ensures |s| == 2 * |bs| && AllLowerHex(s)
  {
    if bs == [] then "" else EncodeBytes(bs[..|bs| - 1]) + Format(bs[|bs| - 1], 2)
  }

  /** Base16 decoding of an even number of lower-case digits, section 8 of RFC 4648. */
  function DecodeBytes(s: string): (bs: seq<Byte>)
    requires |s| % 2 == 0 && AllLowerHex(s)
    ensures |bs| == |s| / 2
  {
    if s == "" then []
    else
      var n := |s| - 2;
      TwoDigits(s[n..]);
      DecodeBytes(s[..n]) + [Value(s[n..])]
  }

  /** What the miner reads back out of the parameter. */
  function Decode(s: string): (seq<Byte>, nat)
    requires |s| == 80 && AllLowerHex(s)
  {
    var bs := DecodeBytes(s);
    (bs[..32], FromLittleEndian(bs[32..]))
  }

  /** Builds the parameter by appending the bytes of the hash and of the timestamp. */
  method BuildJobString(hash: seq<Byte>, timestamp: nat) returns (param: string)
    requires |hash| == 32 && timestamp < U64
    ensures |param| == 80 && AllLowerHex(param)
    ensures param == EncodeBytes(hash + LittleEndian(timestamp, 8))
    ensures Decode(param) == (hash, timestamp)
  {
    param := "";
    for i := 0 to |hash|
      invariant param == EncodeBytes(hash[..i])
    {
      param := param + Format(hash[i], 2);
      assert hash[..i + 1][..i] == hash[..i];
    }
    var bytes := LittleEndian(timestamp, 8);
    assert hash + bytes[..0] == hash[..|hash|];
    for i := 0 to |bytes|
      invariant param == EncodeBytes(hash + bytes[..i])
    {
      param := param + Format(bytes[i], 2);
      assert (hash + bytes[..i + 1])[..|hash| + i] == hash + bytes[..i];
    }
    assert bytes[..|bytes|] == bytes;
    DecodeOfEncode(hash + bytes);
    TimestampRoundTrip(timestamp);
    assert (hash + bytes)[..32] == hash && (hash + bytes)[32..] == bytes;
  }

  lemma ByteDigits(b: Byte)
    ensures |Format(b, 2)| == 2 && AllHex(Format(b, 2)) && Value(Format(b, 2)) == b
  {
    ValueOfFormat(b, 2);
    assert Pow2(4 * 2) == 0x100 by { Pow2Values(); }
  }

  lemma TwoDigits(s: string)
    requires |s| == 2 && AllLowerHex(s)
    ensures AllHex(s) && Value(s) < 0x100
  {
    assert forall i :: 0 <= i < |s| ==> DigitValue(s[i]).Some?;
    ValueBound(s);
    Pow2Values();
  }

  lemma DecodeAppend(s: string, pair: string)
    requires |s| % 2 == 0 && AllLowerHex(s) && |pair| == 2 && AllLowerHex(pair) && AllHex(pair) && Value(pair) < 0x100
    ensures DecodeBytes(s + pair) == DecodeBytes(s) + [Value(pair)]
  {
    var t := s + pair;
    assert t[..|t| - 2] == s && t[|t| - 2..] == pair;
  }

  lemma {:induction false} DecodeOfEncode(bs: seq<Byte>)
    ensures DecodeBytes(EncodeBytes(bs)) == bs
  {
    if bs != [] {
      var n := |bs| - 1;
      var text, pair := EncodeBytes(bs[..n]), Format(bs[n], 2);
      DecodeOfEncode(bs[..n]);
      ByteDigits(bs[n]);
      DecodeAppend(text, pair);
      assert EncodeBytes(bs) == text + pair && DecodeBytes(text + pair) == bs[..n] + [bs[n]];
      assert bs == bs[..n] + [bs[n]];
    }
  }

  lemma EncodeSnoc(bs: seq<Byte>, b: Byte)
    ensures EncodeBytes(bs + [b]) == EncodeBytes(bs) + Format(b, 2)
  {
    assert (bs + [b])[..|bs|] == bs;
  }

  lemma {:induction false} EncodeOfDecode(s: string)
    requires |s| % 2 == 0 && AllLowerHex(s)
    ensures EncodeBytes(DecodeBytes(s)) == s
  {
    if s != "" {
      var front, pair := s[..|s| - 2], s[|s| - 2..];
      EncodeOfDecode(front);
      TwoDigits(pair);
      FormatOfValue(pair);
      EncodeSnoc(DecodeBytes(front), Value(pair));
      assert s == front + pair;
    }
  }

  lemma BytePower(n: nat)
    ensures Pow2(8 * (n + 1)) == 0x100 * Pow2(8 * n)
  {
    Pow2Add(8, 8 * n);
    assert Pow2(8) == 0x100 by { Pow2Values(); }
    assert 8 * (n + 1) == 8 + 8 * n;
  }

  lemma {:induction false} FromOfLittleEndian(v: nat, n: nat)
    requires v < Pow2(8 * n)
    ensures FromLittleEndian(LittleEndian(v, n)) == v
  {
    if n > 0 {
      BytePower(n - 1);
      FromOfLittleEndian(v / 0x100, n - 1);
      var bs := LittleEndian(v, n);
      assert bs[1..] == LittleEndian(v / 0x100, n - 1);
    }
  }

  lemma TimestampRoundTrip(timestamp: nat)
    requires timestamp < U64
    ensures FromLittleEndian(LittleEndian(timestamp, 8)) == timestamp
  {
    assert Pow2(8 * 8) == U64 by { Pow2Values(); }
    FromOfLittleEndian(timestamp, 8);
  }

  lemma {:induction false} LittleEndianOfFrom(bs: seq<Byte>)
    ensures FromLittleEndian(bs) < Pow2(8 * |bs|)
    ensures LittleEndian(FromLittleEndian(bs), |bs|) == bs
  {
    if bs != [] {
      LittleEndianOfFrom(bs[1..]);
      BytePower(|bs| - 1);
      var v := FromLittleEndian(bs);
      assert v % 0x100 == bs[0] && v / 0x100 == FromLittleEndian(bs[1..]);
    }
  }

  /** Every lower-case text of 80 hex digits is the parameter of exactly the hash and timestamp it
      decodes to. */
  lemma EveryTextIsAJob(s: string)
    requires |s| == 80 && AllLowerHex(s)
    ensures var (hash, timestamp) := Decode(s);
            && |hash| == 32 && timestamp < U64
            && EncodeBytes(hash + LittleEndian(timestamp, 8)) == s
  {
    var bs := DecodeBytes(s);
    LittleEndianOfFrom(bs[32..]);
    assert Pow2(8 * 8) == U64 by { Pow2Values(); }
    EncodeOfDecode(s);
    assert bs[..32] + bs[32..] == bs;
  }

  /** Where a byte is: two digits each, in order; and a timestamp's, least significant first. */
  lemma {:induction false} ByteAt(bs: seq<Byte>, i: nat)
    requires i < |bs|
    ensures EncodeBytes(bs)[2 * i..2 * i + 2] == Format(bs[i], 2)
  {
    var n := |bs| - 1;
    var front, pair := EncodeBytes(bs[..n]), Format(bs[n], 2);
    if i < n {
      ByteAt(bs[..n], i);
      SliceOfConcat(front, pair, 2 * i, 2 * i + 2);
    } else {
      SliceOfConcat(front, pair, 0, 0);
    }
  }

  lemma {:induction false} TimestampByte(v: nat, n: nat, i: nat)
    requires i < n
    ensures LittleEndian(v, n)[i] == (v / Pow2(8 * i)) % 256
  {
    if i > 0 {
      TimestampByte(v / 0x100, n - 1, i - 1);
      BytePower(i - 1);
      DivTwice(v, Pow2(8 * (i - 1)));
    }
  }

  lemma DivTwice(v: nat, p: nat)
    requires p > 0
    ensures (v / 0x100) / p == v / (0x100 * p)
  {
    var q, r := (v / 0x100) / p, (v / 0x100) % p;
    assert v / 0x100 == q * p + r;
    var low := 0x100 * r + v % 0x100;
    assert v == q * (0x100 * p) + low by { assert 0x100 * (q * p) == q * (0x100 * p); }
    RemainderIsUnique(v, q, 0x100 * p, low);
  }
}
