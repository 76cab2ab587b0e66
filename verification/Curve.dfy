// The cryptographic primitives the repository imports: Pedersen commitments,
// scalar multiplication, Poseidon masks and key derivations. They are
// parameters; what a proof needs of them is a named hypothesis.
module Curve {
  import opened Field
  import opened Prelude

  /** Affine coordinates; (0, 0) is on no curve used here and stands for the identity. */
  datatype Point = Point(x: Felt, y: Felt)

  const IDENTITY: Point := Point(0, 0)

  type Commitment = (int, int) -> Point

  /** Two openings of one point that differ in value: what breaking the commitment means. */
  predicate Collision(commit: Commitment, v1: int, r1: int, v2: int, r2: int) {
    v1 != v2 && commit(v1, r1) == commit(v2, r2)
  }

  datatype Domain = TxAmount | EncryptedBalance | AuditorSender | AuditorRecipient | Ecdh | SettlementDisclosure

  datatype Crypto = Crypto(
    commit: Commitment,
    add: (Point, Point) -> Point,
    addRandomness: (int, int) -> int,
    scalarMul: (int, Point) -> Point,
    base: Point,
    onCurve: Point -> bool,
    poseidon: (Domain, int, int) -> Felt,
    squeeze: (Domain, int, int) -> (Felt, Felt),
    viewingKey: (int, int) -> int,
    deriveSpendR: (int, int) -> Felt,
    deriveAllowR: (int, int) -> Felt,
    deriveTxBlind: (int, int) -> Felt,
    delegationKey: (int, int) -> int,
    encryptAllowance: (int, int, int) -> Felt,
    encryptDelegationKey: (int, int, int) -> Felt)

  // The laws. Each is a quantifier over a named instance, so that a proof uses
  // exactly the instances it names.

  predicate Exchange(c: Crypto, a: int, b: int) {
    c.scalarMul(a, c.scalarMul(b, c.base)) == c.scalarMul(b, c.scalarMul(a, c.base))
  }

  /** Diffie-Hellman: the two orders of scalar multiplication of the base agree. */
  ghost predicate Commutes(c: Crypto) {
    forall a: int, b: int :: Exchange(c, a, b)
  }

  predicate AddsUp(c: Crypto, v1: int, r1: int, v2: int, r2: int) {
    c.add(c.commit(v1, r1), c.commit(v2, r2)) == c.commit(v1 + v2, c.addRandomness(r1, r2))
  }

  /** Pedersen commitments add, and (0, 0) opens the identity. */
  ghost predicate Homomorphic(c: Crypto) {
    c.commit(0, 0) == IDENTITY && forall v1: int, r1: int, v2: int, r2: int :: AddsUp(c, v1, r1, v2, r2)
  }

  predicate ZeroDropsOut(c: Crypto, v: int, r: int) {
    c.commit(v, c.addRandomness(r, 0)) == c.commit(v, r) == c.commit(v, c.addRandomness(0, r))
  }

  /** Adding zero randomness, as a deposit does, changes no commitment. */
  ghost predicate ZeroIsNeutral(c: Crypto) {
    forall v: int, r: int :: ZeroDropsOut(c, v, r)
  }

  predicate OnlyIdentityKeeps(c: Crypto, v: int, r: int, w: int, s: int) {
    c.add(c.commit(v, r), c.commit(w, s)) == c.commit(v, r) <==> c.commit(w, s) == IDENTITY
  }

  /** A commitment changes when anything but the identity is added to it. */
  ghost predicate Cancels(c: Crypto) {
    forall v: int, r: int, w: int, s: int :: OnlyIdentityKeeps(c, v, r, w, s)
  }

  predicate SameAction(c: Crypto, a: int, b: int, point: Point) {
    c.scalarMul(a, c.base) == c.scalarMul(b, c.base) ==> c.scalarMul(a, point) == c.scalarMul(b, point)
  }

  /** A public key determines its scalar as far as multiplication goes: the base generates the group. */
  ghost predicate KeysDetermine(c: Crypto) {
    forall a: int, b: int, point: Point :: SameAction(c, a, b, point)
  }

  datatype EcdhError = IdentityShared

  /** currentEcdh: the shared point hashed over both coordinates; throws on the identity. */
  function SharedSecret(c: Crypto, scalar: int, point: Point): Result<Felt, EcdhError> {
    var shared := c.scalarMul(scalar, point);
    if shared == IDENTITY then Failure(IdentityShared)
    else Success(c.poseidon(Ecdh, shared.x, shared.y))
  }

  lemma SameShared(c: Crypto, a: int, b: int)
    requires Commutes(c)
    ensures c.scalarMul(a, c.scalarMul(b, c.base)) == c.scalarMul(b, c.scalarMul(a, c.base))
  {
    assert Exchange(c, a, b);
  }

  /** Both ends of a key exchange on the base point get the same answer, including the same failure. */
  lemma SharedSecretsAgree(c: Crypto, a: int, b: int)
    requires Commutes(c)
    ensures SharedSecret(c, a, c.scalarMul(b, c.base)) == SharedSecret(c, b, c.scalarMul(a, c.base))
  {
    SameShared(c, a, b);
  }

  lemma SumOpens(c: Crypto, v1: int, r1: int, v2: int, r2: int)
    requires Homomorphic(c)
    ensures c.add(c.commit(v1, r1), c.commit(v2, r2)) == c.commit(v1 + v2, c.addRandomness(r1, r2))
  {
    assert AddsUp(c, v1, r1, v2, r2);
  }

  /** A deposit carries no blinding: it raises the value and keeps the randomness. */
  lemma DepositOpens(c: Crypto, v: int, r: int, amount: int)
    requires Homomorphic(c) && ZeroIsNeutral(c)
    ensures c.add(c.commit(v, r), c.commit(amount, 0)) == c.commit(v + amount, r)
  {
    SumOpens(c, v, r, amount, 0);
    assert ZeroDropsOut(c, v + amount, r);
  }

  lemma IdentityIsNeutral(c: Crypto, v: int, r: int)
    requires Homomorphic(c) && ZeroIsNeutral(c)
    ensures c.add(IDENTITY, c.commit(v, r)) == c.commit(v, r)
  {
    SumOpens(c, 0, 0, v, r);
    assert ZeroDropsOut(c, v, r);
  }
}
