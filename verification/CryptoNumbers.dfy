/** How numbers of data units and of blocks are written as bytes. */
module CryptoNumbers {
  import opened Arithmetic
  import opened CryptoModes
  import opened CryptoSpec
  import Words

  function Power256(k: nat): (p: nat)
    ensures p > 0
  {
    if k == 0 then 1 else 256 * Power256(k - 1)
  }

  /** Byte k of a number, the least significant one being byte 0. */
  function ByteOf(n: nat, k: nat): (b: nat)
    ensures b < 256
  {
    n / Power256(k) % 256
  }

  lemma NextByte(n: nat, k: nat)
    requires k > 0
    ensures ByteOf(n, k) == ByteOf(n / 256, k - 1)
  {
    DivDiv(n, 256, Power256(k - 1));
  }

  lemma FirstByte(n: nat)
    ensures ByteOf(n, 0) == n % 256
  {
    assert Power256(0) == 1;
  }

  /** Main result: byte k of the little-endian form of n is n / 256^k modulo 256. */
  lemma {:induction false} LittleEndianBytes(n: nat, count: nat, k: nat)
    requires k < count
    ensures LittleEndian(n, count)[k] == ByteOf(n, k) as bv8
    decreases count
  {
    hide ByteOf;
    if k == 0 {
      FirstByte(n);
    } else {
      LittleEndianBytes(n / 256, count - 1, k - 1);
      NextByte(n, k);
    }
  }

  /** And of the big-endian form, counted from its end. */
  lemma {:induction false} BigEndianBytes(n: nat, count: nat, k: nat)
    requires k < count
    ensures |BigEndian(n, count)| == count && BigEndian(n, count)[count - 1 - k] == ByteOf(n, k)
    decreases count
  {
    hide ByteOf;
    if k == 0 {
      FirstByte(n);
      if count > 1 { BigEndianBytes(n / 256, count - 1, 0); }
    } else {
      BigEndianBytes(n / 256, count - 1, k - 1);
      NextByte(n, k);
    }
  }

  /** Numbers below 256^count are told apart by their bytes. */
  lemma {:induction false} BytesTellApart(n: nat, m: nat, count: nat)
    requires n < Power256(count) && m < Power256(count) && n != m
    ensures LittleEndian(n, count) != LittleEndian(m, count)
    decreases count
  {
    if count > 0 && LittleEndian(n, count) == LittleEndian(m, count) {
      var a, b := LittleEndian(n, count), LittleEndian(m, count);
      assert a[0] == b[0] && a[1..] == b[1..];
      assert a[1..] == LittleEndian(n / 256, count - 1) && b[1..] == LittleEndian(m / 256, count - 1);
      Words.ByteBack(n % 256);
      Words.ByteBack(m % 256);
      assert n % 256 == m % 256;
      assert n / 256 != m / 256;
      BytesTellApart(n / 256, m / 256, count - 1);
    }
  }

  /** The sixteen bytes that XTS encrypts for a data unit: its number, and eight zeros. */
  function UnitBytes(unitNo: nat): (x: Bytes)
    ensures |x| == 16
  {
    seq(16, k requires 0 <= k < 16 => if k < 8 then ByteOf(unitNo, k) as bv8 else 0)
  }

  lemma UnitBytesAre(unitNo: nat)
    ensures LittleEndian(unitNo, 8) + LittleEndian(0, 8) == UnitBytes(unitNo)
  {
    hide LittleEndian; hide ByteOf;
    var x := LittleEndian(unitNo, 8) + LittleEndian(0, 8);
    forall k | 0 <= k < 16 ensures x[k] == UnitBytes(unitNo)[k] {
      if k < 8 {
        LittleEndianBytes(unitNo, 8, k);
      } else {
        LittleEndianBytes(0, 8, k - 8);
        NoByte(k - 8);
      }
    }
  }

  lemma NoByte(k: nat)
    ensures ByteOf(0, k) == 0
  {
    DivModUnique(0, 0, Power256(k));
  }

  /** Different data units have different numbers to encrypt. */
  lemma UnitsDiffer(u: nat, v: nat)
    requires u < TWO_TO_THE_64 && v < TWO_TO_THE_64 && u != v
    ensures UnitBytes(u) != UnitBytes(v)
  {
    assert Power256(8) == 0x1_0000_0000_0000_0000;
    hide LittleEndian; hide UnitBytes; hide Power256;
    BytesTellApart(u, v, 8);
    UnitBytesAre(u);
    UnitBytesAre(v);
    assert (LittleEndian(u, 8) + LittleEndian(0, 8))[..8] == LittleEndian(u, 8);
    assert (LittleEndian(v, 8) + LittleEndian(0, 8))[..8] == LittleEndian(v, 8);
  }

  /** Data units 0 and 256. */
  lemma UnitExamples()
    ensures UnitBytes(0) == seq(16, _ => 0)
    ensures UnitBytes(256) == [0, 1] + seq(14, _ => 0)
  {
    forall k: nat | k < 8 ensures ByteOf(256, k) == if k == 1 then 1 else 0 { Of256(k); }
    forall k: nat ensures ByteOf(0, k) == 0 { NoByte(k); }
    hide ByteOf;
  }

  lemma Of256(k: nat)
    requires k < 8
    ensures ByteOf(256, k) == if k == 1 then 1 else 0
  {
    if k == 0 { FirstByte(256); }
    else if k == 1 { NextByte(256, 1); FirstByte(1); }
    else { NextByte(256, k); NextByte(1, k - 1); NoByte(k - 2); }
  }
}
