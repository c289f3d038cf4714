/** Operations on 32-bit words under names, so that proofs can take them as given. */
module Words {

  function Xor(a: bv32, b: bv32): bv32 { a ^ b }

  /** a >> 1. */
  function Half(a: bv32): bv32 { a >> 1 }

  function Odd(a: bv32): bool { a & 1 == 1 }

  /** a >> 8. */
  function DropByte(a: bv32): bv32 { a >> 8 }

  /** a << 8. */
  function MakeRoom(a: bv32): bv32 { a << 8 }

  /** The low eight bits. */
  function LowByte(a: bv32): bv8 { (a & 0xff) as bv8 }

  /** All but the low eight bits. */
  function WithoutByte(a: bv32): bv32 { a & 0xffffff00 }

  function Extend(b: bv8): bv32 { b as bv32 }

  lemma XorIs(a: bv32, b: bv32)
    ensures Xor(a, b) == a ^ b
  {
  }

  lemma XorAssoc(a: bv32, b: bv32, c: bv32)
    ensures Xor(Xor(a, b), c) == Xor(a, Xor(b, c))
  {
    assert (a ^ b) ^ c == a ^ (b ^ c);
  }

  lemma XorComm(a: bv32, b: bv32)
    ensures Xor(a, b) == Xor(b, a)
  {
  }

  lemma XorSelf(a: bv32)
    ensures Xor(a, a) == 0 && Xor(a, 0) == a && Xor(0, a) == a
  {
  }

  lemma XorMiddle(a: bv32, b: bv32, c: bv32, d: bv32)
    ensures Xor(Xor(a, b), Xor(c, d)) == Xor(Xor(a, c), Xor(b, d))
  {
    hide Xor;
    XorAssoc(Xor(a, b), c, d);
    XorAssoc(a, b, c);
    XorComm(b, c);
    XorAssoc(a, c, b);
    XorAssoc(Xor(a, c), b, d);
  }

  lemma XorCancel(a: bv32, b: bv32, c: bv32)
    requires Xor(a, c) == Xor(b, c)
    ensures a == b
  {
    hide Xor;
    XorAssoc(a, c, c);
    XorAssoc(b, c, c);
    XorSelf(c);
    XorSelf(a);
    XorSelf(b);
  }

  lemma XorZeroSame(a: bv32, b: bv32)
    requires Xor(a, b) == 0
    ensures a == b
  {
    hide Xor;
    XorSelf(b);
    XorCancel(a, b, b);
  }

  lemma HalfXor(a: bv32, b: bv32)
    ensures Half(Xor(a, b)) == Xor(Half(a), Half(b))
    ensures Odd(Xor(a, b)) <==> Odd(a) != Odd(b)
  {
  }

  /** A word is its low byte and the rest. */
  lemma Parts(a: bv32)
    ensures a == Xor(WithoutByte(a), Extend(LowByte(a)))
    ensures LowByte(WithoutByte(a)) == 0 && DropByte(WithoutByte(a)) == DropByte(a)
  {
  }

  lemma MakeRoomXor(a: bv32, b: bv32)
    ensures MakeRoom(Xor(a, b)) == Xor(MakeRoom(a), MakeRoom(b))
  {
  }


  /** A number that fits a byte comes back. */
  lemma ByteBack(b: nat)
    requires b < 256
    ensures (b as bv8) as int == b
  {
    hide *;
    assert b % 256 == b;
  }
}
