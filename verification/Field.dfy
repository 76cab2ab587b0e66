// The scalar field of BN254, the native field of the circuits, with the
// 127-bit range check the circuits use to read field elements as amounts.
module Field {

  const MODULUS: int := 21888242871839275222246405745257275088548364400416034343698204186575808495617
  const TWO_127: int := 0x8000_0000_0000_0000_0000_0000_0000_0000

  type Felt = x: int | 0 <= x < MODULUS

  /** How a circuit reads an integer it is handed: modulo the field's order. */
  function FieldIn(x: int): Felt {
    x % MODULUS
  }

  function Add(a: int, b: int): Felt {
    (a + b) % MODULUS
  }

  function Sub(a: int, b: int): Felt {
    (a - b) % MODULUS
  }

  /** assert_max_bit_size::<127> */
  predicate FitsAmount(x: int) {
    0 <= x < TWO_127
  }

  lemma FieldInFits(x: int)
    requires 0 <= x < MODULUS
    ensures FieldIn(x) == x
  {
  }

  /** The range check on a difference of two amounts is exactly an integer comparison. */
  lemma DifferenceFitsIffOrdered(a: Felt, b: Felt)
    requires FitsAmount(a) && FitsAmount(b)
    ensures FitsAmount(Sub(a, b)) <==> b <= a
  {
  }

  /** Removing a mask undoes adding it, for every mask and every field element. */
  lemma MaskUnmask(c: Felt, mask: int)
    ensures Add(Sub(c, mask), mask) == c
  {
  }

  lemma UnmaskMask(x: Felt, mask: int)
    ensures Sub(Add(x, mask), mask) == x
  {
  }
}
