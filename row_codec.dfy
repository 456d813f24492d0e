/**
 * The grid-row codec of src/utils/functions.ts: a row of 22 booleans is read
 * as an unsigned integer, most significant bit first, and back.
 *
 * The specification functions Encode and Decode are written for any width n;
 * the two methods model the source's loops, which fix the width at 22.
 */
module RowCodec {
  import opened Wrappers

  /** The width the source hard-codes in both directions. */
  const RowWidth: nat := 22

  datatype CodecError =
    | InvalidLength   // the row does not have RowWidth entries
    | OutOfRange      // the integer is negative or at least 2^RowWidth

  function Pow2(k: nat): (r: nat)
    ensures r >= 1
  {
    if k == 0 then 1 else 2 * Pow2(k - 1)
  }

  /** Bit i (counted from the least significant end) of v, that is (v / 2^i) % 2 == 1. */
  predicate Bit(v: nat, i: nat) {
    if i == 0 then v % 2 == 1 else Bit(v / 2, i - 1)
  }

  /** Σ 2^(|b|-1-i) over the positions i where b[i] is true. */
  function Encode(b: seq<bool>): (r: nat)
    ensures r < Pow2(|b|)
  {
    if b == [] then 0
    else (if b[0] then Pow2(|b| - 1) else 0) + Encode(b[1..])
  }

  /** Greedy extraction from the most significant of n bits down. */
  function Decode(v: nat, n: nat): (r: seq<bool>)
    requires v < Pow2(n)
    ensures |r| == n
  {
    if n == 0 then []
    else if v >= Pow2(n - 1) then [true] + Decode(v - Pow2(n - 1), n - 1)
    else [false] + Decode(v, n - 1)
  }

  lemma {:induction false} DecodeEncode(b: seq<bool>)
    ensures Decode(Encode(b), |b|) == b
  {
    if b != [] {
      DecodeEncode(b[1..]);
      assert Encode(b[1..]) < Pow2(|b| - 1);
    }
  }

  lemma {:induction false} EncodeDecode(v: nat, n: nat)
    requires v < Pow2(n)
    ensures Encode(Decode(v, n)) == v
  {
    if n > 0 {
      if v >= Pow2(n - 1) {
        EncodeDecode(v - Pow2(n - 1), n - 1);
        EncodeDecodeHigh(v, n);
      } else {
        EncodeDecode(v, n - 1);
        EncodeDecodeLow(v, n);
      }
    }
  }

  /** The inductive step of EncodeDecode when the top bit is set. */
  lemma EncodeDecodeHigh(v: nat, n: nat)
    requires n > 0 && Pow2(n - 1) <= v < Pow2(n)
    requires Encode(Decode(v - Pow2(n - 1), n - 1)) == v - Pow2(n - 1)
    ensures Encode(Decode(v, n)) == v
  {
    DecodeStep(v, n, n - 1);
    EncodeCons(true, Decode(v - Pow2(n - 1), n - 1));
  }

  /** The inductive step of EncodeDecode when the top bit is clear. */
  lemma EncodeDecodeLow(v: nat, n: nat)
    requires n > 0 && v < Pow2(n - 1)
    requires Encode(Decode(v, n - 1)) == v
    ensures Encode(Decode(v, n)) == v
  {
    DecodeStep(v, n, n - 1);
    EncodeCons(false, Decode(v, n - 1));
  }

  /** Encoding a row is its first entry's weight plus the encoding of the rest. */
  lemma EncodeCons(x: bool, t: seq<bool>)
    ensures Encode([x] + t) == (if x then Pow2(|t|) else 0) + Encode(t)
  {
    assert ([x] + t)[1..] == t;
  }

  lemma {:induction false} Pow2Add(a: nat, b: nat)
    ensures Pow2(a + b) == Pow2(a) * Pow2(b)
  {
    if a > 0 {
      Pow2Add(a - 1, b);
    }
  }

  /** 2^22 = 4194304, so the largest row value is 4194303. */
  lemma Pow2RowWidth()
    ensures Pow2(RowWidth) == 4194304
  {
    Pow2Add(11, 11);
    assert Pow2(11) == 2048;
  }

  /** Below 2^(h+1), bit h is set exactly when the value reaches 2^h. */
  lemma {:induction false} TopBit(v: nat, h: nat)
    requires v < Pow2(h + 1)
    ensures Bit(v, h) <==> v >= Pow2(h)
  {
    if h > 0 {
      TopBit(v / 2, h - 1);
    }
  }

  /** Adding 2^h leaves every bit below h unchanged. */
  lemma {:induction false} LowBitsUnchanged(w: nat, h: nat, j: nat)
    requires j < h
    ensures Bit(w + Pow2(h), j) <==> Bit(w, j)
  {
    if j > 0 {
      assert (w + Pow2(h)) / 2 == w / 2 + Pow2(h - 1);
      LowBitsUnchanged(w / 2, h - 1, j - 1);
    }
  }

  lemma {:induction false} DecodeBit(v: nat, n: nat, k: nat)
    requires v < Pow2(n) && k < n
    ensures Decode(v, n)[k] <==> Bit(v, n - 1 - k)
  {
    if k == 0 {
      DecodeHead(v, n);
      TopBit(v, n - 1);
    } else if v >= Pow2(n - 1) {
      DecodeBit(v - Pow2(n - 1), n - 1, k - 1);
      DecodeBitHigh(v, n, k);
    } else {
      DecodeBit(v, n - 1, k - 1);
      DecodeBitLow(v, n, k);
    }
  }

  /** The inductive step of DecodeBit below the top bit, when the top bit is set. */
  lemma DecodeBitHigh(v: nat, n: nat, k: nat)
    requires 0 < k < n && Pow2(n - 1) <= v < Pow2(n)
    requires Decode(v - Pow2(n - 1), n - 1)[k - 1] <==> Bit(v - Pow2(n - 1), n - 1 - 1 - (k - 1))
    ensures Decode(v, n)[k] <==> Bit(v, n - 1 - k)
  {
    var j := n - 1 - k;
    var w := v - Pow2(n - 1);
    assert n - 1 - 1 - (k - 1) == j;
    DecodeTail(v, n, k);
    LowBitsUnchanged(w, n - 1, j);
    assert w + Pow2(n - 1) == v;
  }

  /** The inductive step of DecodeBit below the top bit, when the top bit is clear. */
  lemma DecodeBitLow(v: nat, n: nat, k: nat)
    requires 0 < k < n && v < Pow2(n - 1)
    requires Decode(v, n - 1)[k - 1] <==> Bit(v, n - 1 - 1 - (k - 1))
    ensures Decode(v, n)[k] <==> Bit(v, n - 1 - k)
  {
    assert n - 1 - 1 - (k - 1) == n - 1 - k;
    DecodeTail(v, n, k);
  }

  /** The first decoded entry is the top bit. */
  lemma DecodeHead(v: nat, n: nat)
    requires n > 0 && v < Pow2(n)
    ensures Decode(v, n)[0] <==> v >= Pow2(n - 1)
  {
    DecodeStep(v, n, n - 1);
  }

  /** The later decoded entries are those of the remaining n - 1 bits. */
  lemma DecodeTail(v: nat, n: nat, k: nat)
    requires 0 < k < n && v < Pow2(n)
    ensures v >= Pow2(n - 1) ==> v - Pow2(n - 1) < Pow2(n - 1) && Decode(v, n)[k] == Decode(v - Pow2(n - 1), n - 1)[k - 1]
    ensures v < Pow2(n - 1) ==> Decode(v, n)[k] == Decode(v, n - 1)[k - 1]
  {
    DecodeStep(v, n, n - 1);
  }

  /** The all-true row of width n encodes as 2^n - 1. */
  lemma {:induction false} EncodeAllTrue(n: nat)
    ensures Encode(seq(n, _ => true)) == Pow2(n) - 1
  {
    if n > 0 {
      EncodeAllTrue(n - 1);
      assert seq(n, _ => true)[1..] == seq(n - 1, _ => true);
    }
  }

  lemma {:induction false} EncodeAllFalse(n: nat)
    ensures Encode(seq(n, _ => false)) == 0
  {
    if n > 0 {
      EncodeAllFalse(n - 1);
      assert seq(n, _ => false)[1..] == seq(n - 1, _ => false);
    }
  }

  lemma RowExtremes()
    ensures Encode(seq(RowWidth, _ => false)) == 0
    ensures Encode(seq(RowWidth, _ => true)) == 4194303
  {
    EncodeAllFalse(RowWidth);
    EncodeAllTrue(RowWidth);
    Pow2RowWidth();
  }

  /** booleanArrayToDecimal: rejects rows whose length is not 22. */
  method BooleanArrayToDecimal(b: seq<bool>) returns (r: Result<nat, CodecError>)
    ensures r.Err? <==> |b| != RowWidth
    ensures r.Err? ==> r.error == InvalidLength
    ensures r.Ok? ==> r.value == Encode(b) && r.value < Pow2(RowWidth)
  {
    if |b| != RowWidth {
      return Err(InvalidLength);
    }
    var decimal: nat := 0;
    for i := 0 to RowWidth
      invariant decimal + Encode(b[i..]) == Encode(b)
    {
      assert b[i..][1..] == b[i + 1..];
      if b[i] {
        decimal := decimal + Pow2(21 - i);
      }
    }
    assert b[RowWidth..] == [];
    return Ok(decimal);
  }

  /** One step of the greedy extraction: the top bit of n = m + 1 bits, then the m bits below it. */
  lemma DecodeStep(v: nat, n: nat, m: nat)
    requires n == m + 1 && v < Pow2(n)
    ensures Pow2(n) == 2 * Pow2(m)
    ensures v >= Pow2(m) ==> v - Pow2(m) < Pow2(m) && Decode(v, n) == [true] + Decode(v - Pow2(m), m)
    ensures v < Pow2(m) ==> Decode(v, n) == [false] + Decode(v, m)
  {
  }

  /** One iteration of decimalToBooleanArray keeps "emitted bits, then the rest decoded" equal to the target. */
  lemma ExtractStep(acc: seq<bool>, d: nat, n: nat, m: nat, target: seq<bool>)
    requires n == m + 1 && d < Pow2(n) && acc + Decode(d, n) == target
    ensures d >= Pow2(m) ==> d - Pow2(m) < Pow2(m) && (acc + [true]) + Decode(d - Pow2(m), m) == target
    ensures d < Pow2(m) ==> (acc + [false]) + Decode(d, m) == target
  {
    DecodeStep(d, n, m);
    if d >= Pow2(m) {
      assert (acc + [true]) + Decode(d - Pow2(m), m) == acc + ([true] + Decode(d - Pow2(m), m));
    } else {
      assert (acc + [false]) + Decode(d, m) == acc + ([false] + Decode(d, m));
    }
  }

  /** decimalToBooleanArray: rejects values outside [0, 2^22). */
  method DecimalToBooleanArray(value: int) returns (r: Result<seq<bool>, CodecError>)
    ensures r.Err? <==> value < 0 || value >= Pow2(RowWidth)
    ensures r.Err? ==> r.error == OutOfRange
    ensures r.Ok? ==> r.value == Decode(value, RowWidth) && |r.value| == RowWidth
  {
    if value < 0 || value >= Pow2(RowWidth) {
      return Err(OutOfRange);
    }
    var decimal: nat := value;
    var booleanArray: seq<bool> := [];
    var k: nat := RowWidth;  // the bits still to extract; the source's index i is k - 1
    while k > 0
      invariant k <= RowWidth
      invariant decimal < Pow2(k)
      invariant booleanArray + Decode(decimal, k) == Decode(value, RowWidth)
    {
      var i: nat := k - 1;
      ExtractStep(booleanArray, decimal, k, i, Decode(value, RowWidth));
      if decimal >= Pow2(i) {
        booleanArray := booleanArray + [true];
        decimal := decimal - Pow2(i);
        assert booleanArray + Decode(decimal, i) == Decode(value, RowWidth);
      } else {
        booleanArray := booleanArray + [false];
        assert booleanArray + Decode(decimal, i) == Decode(value, RowWidth);
      }
      k := i;
    }
    assert Decode(decimal, 0) == [];
    assert booleanArray + [] == booleanArray;
    return Ok(booleanArray);
  }
}
