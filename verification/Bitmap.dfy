/** The free-block bitmap of kernel/fs.c: one bit per block, eight to a byte. */
module Bitmap {

  type Bits = seq<bv8>

  /** 1 << k, for the bits of a byte. */
  function Mask(k: nat): (m: bv8)
    requires k < 8
  {
    if k == 0 then 1 else if k == 1 then 2 else if k == 2 then 4 else if k == 3 then 8
    else if k == 4 then 16 else if k == 5 then 32 else if k == 6 then 64 else 128
  }

  predicate InRange(bits: Bits, b: nat) {
    b / 8 < |bits|
  }

  /** Bit k of a byte is set. */
  predicate Has(x: bv8, k: nat)
    requires k < 8
  {
    x & Mask(k) != 0
  }

  function With(x: bv8, k: nat): (r: bv8)
    requires k < 8
    ensures forall j: nat :: j < 8 ==> (Has(r, j) <==> j == k || Has(x, j))
  {
    x | Mask(k)
  }

  function Without(x: bv8, k: nat): (r: bv8)
    requires k < 8
    ensures forall j: nat :: j < 8 ==> (Has(r, j) <==> j != k && Has(x, j))
  {
    x & !Mask(k)
  }

  predicate Used(bits: Bits, b: nat)
    requires InRange(bits, b)
  {
    Has(bits[b / 8], b % 8)
  }

  /** bytes[bi / 8] |= m */
  function Mark(bits: Bits, b: nat): (r: Bits)
    requires InRange(bits, b)
    ensures |r| == |bits|
  {
    bits[b / 8 := With(bits[b / 8], b % 8)]
  }

  /** bytes[bi / 8] &= ~m */
  function Clear(bits: Bits, b: nat): (r: Bits)
    requires InRange(bits, b)
    ensures |r| == |bits|
  {
    bits[b / 8 := Without(bits[b / 8], b % 8)]
  }

  lemma SamePlace(b: nat, c: nat)
    ensures b == c <==> b / 8 == c / 8 && b % 8 == c % 8
  {
  }

  /** Marking changes exactly one block's bit. */
  lemma MarkUsed(bits: Bits, b: nat, c: nat)
    requires InRange(bits, b) && InRange(bits, c)
    ensures Used(Mark(bits, b), c) <==> c == b || Used(bits, c)
  {
    SamePlace(b, c);
    var x, y := bits[b / 8], Mark(bits, b)[b / 8];
    assert y == With(x, b % 8);
    assert Has(y, c % 8) <==> c % 8 == b % 8 || Has(x, c % 8);
  }

  /** Clearing changes exactly one block's bit. */
  lemma ClearUsed(bits: Bits, b: nat, c: nat)
    requires InRange(bits, b) && InRange(bits, c)
    ensures Used(Clear(bits, b), c) <==> c != b && Used(bits, c)
  {
    SamePlace(b, c);
    var x, y := bits[b / 8], Clear(bits, b)[b / 8];
    assert y == Without(x, b % 8);
    assert Has(y, c % 8) <==> c % 8 != b % 8 && Has(x, c % 8);
  }
}
