/** `NativeRecordReceivePCM` of the JavaScript side: a chunk of bytes
    becomes signed 16-bit little-endian samples and the sum of their
    magnitudes. The JavaScript operators it uses are written out on integers. */
module PcmReceiver {
  import opened Common

  /** An element of an Int16Array. */
  type int16 = x: int | -0x8000 <= x < 0x8000

  function Pow2(k: nat): (r: nat)
    ensures r >= 1
  {
    if k == 0 then 1 else 2 * Pow2(k - 1)
  }

  lemma Pow2Of8And16()
    ensures Pow2(8) == 0x100 && Pow2(16) == 0x1_0000
  {
    assert Pow2(4) == 16 by {
      assert Pow2(1) == 2 && Pow2(2) == 4 && Pow2(3) == 8;
    }
    assert Pow2(8) == 0x100 by {
      assert Pow2(5) == 32 && Pow2(6) == 64 && Pow2(7) == 128;
    }
    assert Pow2(12) == 0x1000 by {
      assert Pow2(9) == 0x200 && Pow2(10) == 0x400 && Pow2(11) == 0x800;
    }
    assert Pow2(13) == 0x2000 && Pow2(14) == 0x4000 && Pow2(15) == 0x8000;
  }

  /** JavaScript `x << k` for 0 <= k < 32. */
  function ShiftLeft(x: int32, k: nat): (r: int32)
    requires k < 32
    ensures (r - x * Pow2(k)) % 0x1_0000_0000 == 0
    ensures -0x8000_0000 <= x * Pow2(k) < 0x8000_0000 ==> r == x * Pow2(k)
  {
    Wrap32(x * Pow2(k))
  }

  /** JavaScript `x >> k`, the sign-propagating shift: k halvings, each
      rounding down (Dafny's division by 2 rounds down for negative x too). */
  function ShiftRight(x: int32, k: nat): (r: int32)
    requires k < 32
    ensures x >= 0 ==> 0 <= r <= x
    ensures x < 0 ==> x <= r < 0
    decreases k
  {
    if k == 0 then x else ShiftRight(x / 2, k - 1)
  }

  /** Shifting right by k undoes a multiplication by 2^k. */
  lemma {:induction false} ShiftRightOfMultiple(x: int, k: nat)
    requires k < 32 && -0x8000_0000 <= x * Pow2(k) < 0x8000_0000
    ensures ShiftRight(x * Pow2(k), k) == x
  {
    if k > 0 {
      var p := Pow2(k - 1);
      var h := x * p;
      assert Pow2(k) == 2 * p;
      assert x * Pow2(k) == 2 * h by {
        assert x * (2 * p) == 2 * (x * p);
      }
      assert -0x8000_0000 <= h < 0x8000_0000;
      assert ShiftRight(2 * h, k) == ShiftRight(h, k - 1) by {
        assert (2 * h) / 2 == h;
      }
      ShiftRightOfMultiple(x, k - 1);
    }
  }

  /** JavaScript `a | b` on non-negative operands: the bitwise or of their
      binary digits. */
  function BitOr(a: nat, b: nat): (r: nat)
    ensures r <= a + b
    decreases a + b
  {
    if a == 0 then b
    else if b == 0 then a
    else 2 * BitOr(a / 2, b / 2) + (if a % 2 == 1 || b % 2 == 1 then 1 else 0)
  }

  /** Or-ing in a value whose low k bits are clear adds it. */
  lemma {:induction false} BitOrDisjoint(a: nat, b: nat, k: nat)
    requires a < Pow2(k)
    ensures BitOr(a, b * Pow2(k)) == a + b * Pow2(k)
  {
    if k == 0 || a == 0 || b == 0 {
    } else {
      var h := b * Pow2(k - 1);
      assert b * Pow2(k) == 2 * h;
      BitOrDisjoint(a / 2, b, k - 1);
      assert BitOr(a, 2 * h) == 2 * BitOr(a / 2, h) + a % 2;
    }
  }

  /** The signed 16-bit sample whose two's-complement bits are `lo + 256 * hi`. */
  function Sample(lo: byte, hi: byte): (s: int16)
    ensures (s - (lo + 256 * hi)) % 0x1_0000 == 0
  {
    var w := lo + 256 * hi;
    if w < 0x8000 then w else w - 0x1_0000
  }

  /** The expression `((lo | (hi << 8)) << 16) >> 16` of the decoder loop,
      evaluated with JavaScript's operators. */
  method SampleExpression(lo: byte, hi: byte) returns (s: int32)
    ensures s == Sample(lo, hi)
  {
    Pow2Of8And16();
    var high := ShiftLeft(hi, 8);
    BitOrDisjoint(lo, hi, 8);
    var word := BitOr(lo, high);
    assert word == lo + 256 * hi;
    SignExtend16(word);
    s := ShiftRight(ShiftLeft(word, 16), 16);
  }

  /** Shifting a 16-bit value up by 16 and back down with sign propagation
      sign-extends its top bit. */
  lemma SignExtend16(w: nat)
    requires w < 0x1_0000
    ensures ShiftRight(ShiftLeft(w, 16), 16) == if w < 0x8000 then w else w - 0x1_0000
  {
    Pow2Of8And16();
    if w < 0x8000 {
      assert ShiftLeft(w, 16) == w * Pow2(16);
      ShiftRightOfMultiple(w, 16);
    } else {
      var up := w * 0x1_0000;
      assert 0x8000_0000 <= up < 0x1_0000_0000;
      assert Wrap32(up) == up - 0x1_0000_0000;
      assert up - 0x1_0000_0000 == (w - 0x1_0000) * Pow2(16);
      ShiftRightOfMultiple(w - 0x1_0000, 16);
    }
  }

  /** The samples of a byte string: one per complete pair, low byte first. */
  function Decode(bytes: seq<byte>): seq<int16>
    decreases |bytes|
  {
    if |bytes| < 2 then [] else [Sample(bytes[0], bytes[1])] + Decode(bytes[2..])
  }

  /** floor(n / 2) samples; sample k depends only on bytes 2k and 2k + 1. */
  lemma {:induction false} DecodeAt(bytes: seq<byte>)
    ensures |Decode(bytes)| == |bytes| / 2
    ensures forall k :: 0 <= k < |bytes| / 2 ==> Decode(bytes)[k] == Sample(bytes[2 * k], bytes[2 * k + 1])
  {
    if |bytes| >= 2 {
      DecodeAt(bytes[2..]);
      forall k | 1 <= k < |bytes| / 2 ensures Decode(bytes)[k] == Sample(bytes[2 * k], bytes[2 * k + 1]) {
        assert Decode(bytes)[k] == Decode(bytes[2..])[k - 1];
        assert bytes[2..][2 * (k - 1)] == bytes[2 * k];
      }
    }
  }

  /** Sample `k` of the decoding, one index at a time. */
  lemma DecodeIndex(bytes: seq<byte>, k: nat)
    requires k < |bytes| / 2
    ensures k < |Decode(bytes)| && Decode(bytes)[k] == Sample(bytes[2 * k], bytes[2 * k + 1])
  {
    DecodeAt(bytes);
  }

  /** Little-endian bytes of a sample. */
  function LowByte(s: int16): byte {
    (s % 0x1_0000) % 256
  }

  function HighByte(s: int16): byte {
    (s % 0x1_0000) / 256
  }

  /** The byte string that the capture side sends for a list of samples. */
  function Encode(pcm: seq<int16>): (bytes: seq<byte>)
    ensures |bytes| == 2 * |pcm|
  {
    if pcm == [] then [] else [LowByte(pcm[0]), HighByte(pcm[0])] + Encode(pcm[1..])
  }

  /** The two bytes of a sample are its value modulo 2^16, split at bit 8. */
  lemma BytesSplitWord(s: int16)
    ensures LowByte(s) + 256 * HighByte(s) == s % 0x1_0000
    ensures s % 0x1_0000 == if s >= 0 then s else s + 0x1_0000
  {
    var u := s % 0x1_0000;
    assert u == (u / 256) * 256 + u % 256;
  }

  lemma SampleOfBytes(s: int16)
    ensures Sample(LowByte(s), HighByte(s)) == s
  {
    BytesSplitWord(s);
  }

  lemma BytesOfSample(lo: byte, hi: byte)
    ensures LowByte(Sample(lo, hi)) == lo && HighByte(Sample(lo, hi)) == hi
  {
    var w := lo + 256 * hi;
    assert Sample(lo, hi) % 0x1_0000 == w;
    assert w % 256 == lo && w / 256 == hi;
  }

  /** Decoding undoes encoding. */
  lemma {:induction false} DecodeEncode(pcm: seq<int16>)
    ensures Decode(Encode(pcm)) == pcm
  {
    if pcm != [] {
      var bytes := Encode(pcm);
      assert bytes[2..] == Encode(pcm[1..]);
      DecodeEncode(pcm[1..]);
      SampleOfBytes(pcm[0]);
    }
  }

  /** Encoding the samples gives back the input without a trailing odd byte. */
  lemma {:induction false} EncodeDecode(bytes: seq<byte>)
    ensures Encode(Decode(bytes)) == bytes[..2 * (|bytes| / 2)]
  {
    if |bytes| >= 2 {
      var rest := bytes[2..];
      var m := |rest| / 2;
      assert |bytes| / 2 == m + 1;
      EncodeDecode(rest);
      BytesOfSample(bytes[0], bytes[1]);
      var pcm := Decode(bytes);
      assert pcm == [Sample(bytes[0], bytes[1])] + Decode(rest);
      assert pcm[1..] == Decode(rest);
      assert Encode(pcm) == [bytes[0], bytes[1]] + rest[..2 * m];
      assert bytes[..2 * (m + 1)] == [bytes[0], bytes[1]] + rest[..2 * m];
    }
  }

  function Abs(s: int): nat {
    if s < 0 then -s else s
  }

  /** The sum of the magnitudes of the samples. */
  function AbsSum(pcm: seq<int16>): int
    decreases |pcm|
  {
    if pcm == [] then 0 else AbsSum(pcm[..|pcm| - 1]) + Abs(pcm[|pcm| - 1])
  }

  lemma {:induction false} AbsSumBounds(pcm: seq<int16>)
    ensures 0 <= AbsSum(pcm) <= 0x8000 * |pcm|
  {
    if pcm != [] {
      AbsSumBounds(pcm[..|pcm| - 1]);
    }
  }

  /** One iteration of the decoder on sequences: the prefix of `pcm` written
      so far grows by the next sample, and the running sum by its magnitude. */
  lemma PrefixStep(pcm: seq<int16>, idx: nat, prev: seq<int16>, s: int16, sum: int)
    requires idx < |pcm| && prev == pcm[..idx] && s == pcm[idx] && sum == AbsSum(prev)
    ensures prev + [s] == pcm[..idx + 1]
    ensures sum + Abs(s) == AbsSum(pcm[..idx + 1])
  {
    assert pcm[..idx + 1][..idx] == prev;
  }

  /** `NativeRecordReceivePCM` after `atob`: fill a new Int16Array of
      floor(n / 2) samples and add up their magnitudes. */
  method ReceivePcm(bstr: seq<byte>) returns (pcm: array<int16>, sum: int)
    ensures fresh(pcm) && pcm.Length == |bstr| / 2
    ensures pcm[..] == Decode(bstr)
    ensures sum == AbsSum(pcm[..])
    ensures 0 <= sum <= 0x8000 * (|bstr| / 2)
  {
    var n := |bstr|;
    pcm := new int16[n / 2](_ => 0);
    sum := 0;
    ghost var samples := Decode(bstr);
    assert |samples| == n / 2 by {
      DecodeAt(bstr);
    }
    var idx, i := 0, 0;
    while i + 2 <= n
      invariant 0 <= idx <= pcm.Length && i == 2 * idx
      invariant pcm[..idx] == samples[..idx]
      invariant sum == AbsSum(samples[..idx])
    {
      var s := SampleExpression(bstr[i], bstr[i + 1]);
      DecodeIndex(bstr, idx);
      assert s == samples[idx];
      PrefixStep(samples, idx, pcm[..idx], s, sum);
      ghost var prev := pcm[..idx];
      pcm[idx] := s;
      assert pcm[..idx + 1] == prev + [s];
      sum := sum + Abs(s);
      idx, i := idx + 1, i + 2;
    }
    assert idx == pcm.Length;
    assert pcm[..] == pcm[..idx] && samples == samples[..idx];
    AbsSumBounds(pcm[..]);
  }
}
