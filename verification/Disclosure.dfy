// packages/sdk/src/disclosure.ts and circuits/disclose_settlement/src/main.nr:
// a recipient-bound proof of the amount a settlement paid.
module DisclosureCircuit {
  import opened Field
  import opened Curve

  datatype Secrets = Secrets(sk: Felt, vTx: Felt, rDisc: Felt)

  datatype PublicInputs = PublicInputs(
    addressField: Felt, pvk: Point, rE: Point, sigma: Felt, vTilde: Felt,
    recipient: Point, nu: Felt, rDisc: Point, vTildeDisc: Felt)

  /** The circuit's public parameters in declaration order. */
  function Listed(pub: PublicInputs): seq<Felt> {
    [pub.addressField, pub.pvk.x, pub.pvk.y, pub.rE.x, pub.rE.y, pub.sigma, pub.vTilde,
     pub.recipient.x, pub.recipient.y, pub.nu, pub.rDisc.x, pub.rDisc.y, pub.vTildeDisc]
  }

  function HashedPoint(c: Crypto, point: Point): Felt {
    c.poseidon(Ecdh, point.x, point.y)
  }

  predicate OnCurveNonIdentity(c: Crypto, point: Point) {
    point != IDENTITY && c.onCurve(point)
  }

  predicate Accepts(c: Crypto, s: Secrets, pub: PublicInputs) {
    && s.rDisc != 0
    && (var vk := c.viewingKey(s.sk, pub.addressField);
        var eventShared := HashedPoint(c, c.scalarMul(vk, pub.rE));
        var disclosureShared := HashedPoint(c, c.scalarMul(s.rDisc, pub.recipient));
        && c.scalarMul(vk, c.base) == pub.pvk
        && OnCurveNonIdentity(c, pub.rE)
        && Add(s.vTx, c.poseidon(TxAmount, eventShared, pub.sigma)) == pub.vTilde
        && FitsAmount(s.vTx)
        && c.scalarMul(s.rDisc, c.base) == pub.rDisc
        && OnCurveNonIdentity(c, pub.recipient)
        && Add(s.vTx, c.poseidon(SettlementDisclosure, disclosureShared, pub.nu)) == pub.vTildeDisc)
  }
}

module Disclosure {
  import opened Prelude
  import opened Field
  import opened Curve
  import opened DelegationBuilders
  import opened DisclosureCircuit

  datatype IncomingError = Identity | DoesNotDecrypt

  function DecryptIncoming(c: Crypto, vk: int, rE: Point, sigma: int, vTilde: int): (r: Result<Opening, IncomingError>)
    ensures r.Success? ==> FitsAmount(r.value.value)
  {
    match SharedSecret(c, vk, rE)
    case Failure(_) => Failure(Identity)
    case Success(shared) =>
      var value := Sub(vTilde, c.poseidon(TxAmount, shared, sigma));
      if value >= TWO_127 then Failure(DoesNotDecrypt)
      else Success(Opening(value, c.deriveTxBlind(shared, sigma)))
  }

  /** The part of a spender-transfer event a disclosure uses. */
  datatype TransferEvent = TransferEvent(rE: Point, sigmaA: Felt, vTilde: Felt)

  datatype Request = Request(recipient: Point, nonce: Felt)

  datatype DisclosureWitness = DisclosureWitness(secrets: Secrets, inputs: PublicInputs)

  function BuildDisclosure(c: Crypto, holder: KeyPair, e: TransferEvent, request: Request, rDisc: Felt)
    : Result<DisclosureWitness, IncomingError>
  {
    var amount :- DecryptIncoming(c, holder.vk, e.rE, e.sigmaA, e.vTilde);
    match SharedSecret(c, rDisc, request.recipient)
    case Failure(_) => Failure(Identity)
    case Success(shared) =>
      var vTildeDisc := Add(amount.value, c.poseidon(SettlementDisclosure, shared, request.nonce));
      Success(DisclosureWitness(
        Secrets(holder.sk, amount.value, rDisc),
        PublicInputs(holder.addressField, holder.viewing, e.rE, e.sigmaA, e.vTilde,
                     request.recipient, request.nonce, c.scalarMul(rDisc, c.base), vTildeDisc)))
  }

  /** The list a verifier assembles from the event, its own request and the published ciphertext. */
  function VerifierInputs(
    addressField: Felt, pvk: Point, e: TransferEvent, request: Request, rDisc: Point, vTildeDisc: Felt)
    : seq<Felt>
  {
    [addressField, pvk.x, pvk.y, e.rE.x, e.rE.y, e.sigmaA, e.vTilde,
     request.recipient.x, request.recipient.y, request.nonce, rDisc.x, rDisc.y, vTildeDisc]
  }

  function DecryptDisclosure(c: Crypto, secret: int, request: Request, rDisc: Point, vTildeDisc: Felt)
    : Result<Felt, EcdhError>
  {
    var shared :- SharedSecret(c, secret, rDisc);
    Success(Sub(vTildeDisc, c.poseidon(SettlementDisclosure, shared, request.nonce)))
  }

  /** An incoming transfer opens to a value exactly when that value encrypts to its ciphertext and is in range. */
  lemma DecryptsExactly(c: Crypto, vk: int, rE: Point, sigma: int, vTilde: Felt, value: int)
    ensures
      var opening := DecryptIncoming(c, vk, rE, sigma, vTilde);
      (opening.Success? && opening.value.value == value)
      <==>
      && SharedSecret(c, vk, rE).Success?
      && FitsAmount(value)
      && EncryptAmount(c, value, SharedSecret(c, vk, rE).value, sigma) == vTilde
  {
    if SharedSecret(c, vk, rE).Success? {
      var mask := c.poseidon(TxAmount, SharedSecret(c, vk, rE).value, sigma);
      MaskUnmask(vTilde, mask);
      if FitsAmount(value) { UnmaskMask(value, mask); }
    }
  }

  function EventOf(c: Crypto, p: TransferParams): TransferEvent
    requires BuildSpenderTransfer(c, p).Success? && 0 <= p.salt < MODULUS
  {
    var payload := BuildSpenderTransfer(c, p).value.payload;
    TransferEvent(payload.rE, p.salt, payload.vTilde)
  }

  /** The party that was paid recovers the opening of the commitment it was paid. */
  lemma RecipientOpensPayment(c: Crypto, p: TransferParams, vk: int)
    requires Commutes(c) && p.recipientViewingKey == c.scalarMul(vk, c.base)
    requires BuildSpenderTransfer(c, p).Success?
    ensures
      var w := BuildSpenderTransfer(c, p).value;
      DecryptIncoming(c, vk, w.payload.rE, p.salt, w.payload.vTilde) == Success(w.payment)
  {
    SharedSecretsAgree(c, vk, p.rE);
    UnmaskMask(p.amount, c.poseidon(TxAmount, SharedSecret(c, p.rE, p.recipientViewingKey).value, p.salt));
  }

  /** The identity absorbs scalar multiplication, and zero sends every point to it. */
  ghost predicate Annihilates(c: Crypto) {
    && (forall p: Point :: c.scalarMul(0, p) == IDENTITY)
    && (forall s: int :: c.scalarMul(s, IDENTITY) == IDENTITY)
  }

  predicate WellFormed(c: Crypto, keys: KeyPair) {
    keys.vk == c.viewingKey(keys.sk, keys.addressField) && keys.viewing == c.scalarMul(keys.vk, c.base)
  }

  /**
   * Completeness, exactly: what the builder returns satisfies the circuit just when the event's
   * point and the requested recipient are on the curve, which the builder does not check.
   */
  lemma BuiltDisclosureAccepted(c: Crypto, holder: KeyPair, e: TransferEvent, request: Request, rDisc: Felt)
    requires Annihilates(c) && WellFormed(c, holder)
    requires BuildDisclosure(c, holder, e, request, rDisc).Success?
    ensures
      var w := BuildDisclosure(c, holder, e, request, rDisc).value;
      && (Accepts(c, w.secrets, w.inputs) <==> c.onCurve(e.rE) && c.onCurve(request.recipient))
      && Listed(w.inputs)
         == VerifierInputs(holder.addressField, holder.viewing, e, request, w.inputs.rDisc, w.inputs.vTildeDisc)
  {
    var amount := DecryptIncoming(c, holder.vk, e.rE, e.sigmaA, e.vTilde).value;
    DecryptsExactly(c, holder.vk, e.rE, e.sigmaA, e.vTilde, amount.value);
  }

  /** The verifier's list determines the whole statement. */
  lemma ListDeterminesStatement(pub: PublicInputs, addressField: Felt, pvk: Point, e: TransferEvent, request: Request,
                                rDisc: Point, vTildeDisc: Felt)
    requires Listed(pub) == VerifierInputs(addressField, pvk, e, request, rDisc, vTildeDisc)
    ensures pub == PublicInputs(addressField, pvk, e.rE, e.sigmaA, e.vTilde,
                                request.recipient, request.nonce, rDisc, vTildeDisc)
  {
  }

  /** The value a proof speaks of is the one the recipient of the disclosure decrypts. */
  lemma DisclosedIsProved(c: Crypto, s: Secrets, pub: PublicInputs, secret: int)
    requires Commutes(c) && Accepts(c, s, pub) && pub.recipient == c.scalarMul(secret, c.base)
    requires Reaches(c, s.rDisc, pub.recipient)
    ensures DecryptDisclosure(c, secret, Request(pub.recipient, pub.nu), pub.rDisc, pub.vTildeDisc) == Success(s.vTx)
  {
    SharedSecretsAgree(c, secret, s.rDisc);
    UnmaskMask(s.vTx, c.poseidon(SettlementDisclosure, SharedSecret(c, s.rDisc, pub.recipient).value, pub.nu));
  }

  /**
   * Whatever the event, however it was made: the value a proof speaks of is what any holder of the
   * named viewing key decrypts from it, unless that exchange is degenerate.
   */
  lemma ProvedIsDecrypted(c: Crypto, s: Secrets, pub: PublicInputs, vk: int)
    requires KeysDetermine(c) && Accepts(c, s, pub) && c.scalarMul(vk, c.base) == pub.pvk
    ensures
      var opening := DecryptIncoming(c, vk, pub.rE, pub.sigma, pub.vTilde);
      if Reaches(c, vk, pub.rE) then opening.Success? && opening.value.value == s.vTx
      else opening == Failure(Identity)
  {
    assert SameAction(c, vk, c.viewingKey(s.sk, pub.addressField), pub.rE);
    if Reaches(c, vk, pub.rE) { DecryptsExactly(c, vk, pub.rE, pub.sigma, pub.vTilde, s.vTx); }
  }

  /**
   * Soundness for an arbitrary event: if a proof verifies against the list assembled from it, the
   * requester decrypts exactly what the named viewing key decrypts, degenerate exchanges apart.
   */
  lemma DisclosureReadsEvent(c: Crypto, s: Secrets, pub: PublicInputs, e: TransferEvent, addressField: Felt, pvk: Point,
                             vk: int, request: Request, secret: int, rDisc: Point, vTildeDisc: Felt)
    requires Commutes(c) && KeysDetermine(c) && Accepts(c, s, pub) && c.scalarMul(vk, c.base) == pvk
    requires Listed(pub) == VerifierInputs(addressField, pvk, e, request, rDisc, vTildeDisc)
    requires request.recipient == c.scalarMul(secret, c.base)
    ensures
      var seen := DecryptDisclosure(c, secret, request, rDisc, vTildeDisc);
      var opening := DecryptIncoming(c, vk, e.rE, e.sigmaA, e.vTilde);
      && (seen.Failure? <==> !Reaches(c, secret, rDisc))
      && (opening.Failure? <==> !Reaches(c, vk, e.rE))
      && (seen.Success? && opening.Success? ==> seen.value == opening.value.value)
  {
    ListDeterminesStatement(pub, addressField, pvk, e, request, rDisc, vTildeDisc);
    ProvedIsDecrypted(c, s, pub, vk);
    SameShared(c, secret, s.rDisc);
    if Reaches(c, secret, rDisc) { DisclosedIsProved(c, s, pub, secret); }
  }

  /** The value a proof speaks of is the one the event pays to the named viewing key. */
  lemma ProvedIsPaid(c: Crypto, s: Secrets, pub: PublicInputs, p: TransferParams)
    requires Commutes(c) && Accepts(c, s, pub)
    requires BuildSpenderTransfer(c, p).Success? && 0 <= p.salt < MODULUS
    requires p.recipientViewingKey == pub.pvk && EventOf(c, p) == TransferEvent(pub.rE, pub.sigma, pub.vTilde)
    ensures s.vTx == p.amount
  {
    var vk := c.viewingKey(s.sk, pub.addressField);
    SharedSecretsAgree(c, vk, p.rE);
    var mask := c.poseidon(TxAmount, SharedSecret(c, p.rE, p.recipientViewingKey).value, p.salt);
    UnmaskMask(s.vTx, mask);
    UnmaskMask(p.amount, mask);
  }

  /**
   * Soundness: whoever made the proof, if it verifies against the list assembled from a settlement
   * event paying this viewing key, the requester decrypts exactly the amount that was paid.
   */
  lemma DisclosureIsSound(c: Crypto, s: Secrets, pub: PublicInputs, p: TransferParams, addressField: Felt,
                          request: Request, secret: int, rDisc: Point, vTildeDisc: Felt)
    requires Commutes(c) && Accepts(c, s, pub)
    requires BuildSpenderTransfer(c, p).Success? && 0 <= p.salt < MODULUS
    requires Listed(pub)
          == VerifierInputs(addressField, p.recipientViewingKey, EventOf(c, p), request, rDisc, vTildeDisc)
    requires request.recipient == c.scalarMul(secret, c.base)
    ensures DecryptDisclosure(c, secret, request, rDisc, vTildeDisc)
         == if Reaches(c, secret, rDisc) then Success(p.amount) else Failure(IdentityShared)
  {
    ListDeterminesStatement(pub, addressField, p.recipientViewingKey, EventOf(c, p), request, rDisc, vTildeDisc);
    ProvedIsPaid(c, s, pub, p);
    SameShared(c, secret, s.rDisc);
    if Reaches(c, secret, rDisc) {
      DisclosedIsProved(c, s, pub, secret);
    }
  }

  predicate KeepsFromIdentity(c: Crypto, s: int, point: Point) {
    0 < s < MODULUS && OnCurveNonIdentity(c, point) ==> c.scalarMul(s, point) != IDENTITY
  }

  /** The curve's order is a prime above every field element: no such scalar sends a point of it to the identity. */
  ghost predicate PrimeOrder(c: Crypto) {
    forall s: int, point: Point :: KeepsFromIdentity(c, s, point)
  }

  /**
   * On a curve of prime order an accepted proof is never degenerate for the requester: whoever made
   * it, and whatever event it is about, the requester decrypts the value it speaks of.
   */
  lemma RequesterAlwaysReads(c: Crypto, s: Secrets, pub: PublicInputs, secret: int)
    requires Commutes(c) && PrimeOrder(c) && Accepts(c, s, pub) && pub.recipient == c.scalarMul(secret, c.base)
    ensures DecryptDisclosure(c, secret, Request(pub.recipient, pub.nu), pub.rDisc, pub.vTildeDisc) == Success(s.vTx)
  {
    assert KeepsFromIdentity(c, s.rDisc, pub.recipient);
    DisclosedIsProved(c, s, pub, secret);
  }

  /** Multiples of the base are on the curve. */
  ghost predicate BaseGeneratesCurve(c: Crypto) {
    forall s: int :: c.onCurve(c.scalarMul(s, c.base)) || c.scalarMul(s, c.base) == IDENTITY
  }

  /** End to end: the paid party can always convince a requester, who then reads the amount paid. */
  lemma DisclosureEndToEnd(c: Crypto, p: TransferParams, holder: KeyPair, secret: int, nonce: Felt, rDisc: Felt)
    requires Commutes(c) && Annihilates(c) && BaseGeneratesCurve(c) && WellFormed(c, holder)
    requires BuildSpenderTransfer(c, p).Success? && 0 <= p.salt < MODULUS
    requires p.recipientViewingKey == holder.viewing
    requires Reaches(c, rDisc, c.scalarMul(secret, c.base))
    ensures
      var request := Request(c.scalarMul(secret, c.base), nonce);
      var built := BuildDisclosure(c, holder, EventOf(c, p), request, rDisc);
      && built.Success?
      && Accepts(c, built.value.secrets, built.value.inputs)
      && DecryptDisclosure(c, secret, request, built.value.inputs.rDisc, built.value.inputs.vTildeDisc)
         == Success(p.amount)
  {
    var request := Request(c.scalarMul(secret, c.base), nonce);
    var e := EventOf(c, p);
    RecipientOpensPayment(c, p, holder.vk);
    var built := BuildDisclosure(c, holder, e, request, rDisc).value;
    BuiltDisclosureAccepted(c, holder, e, request, rDisc);
    SameShared(c, p.rE, holder.vk);
    assert c.onCurve(e.rE) && c.onCurve(request.recipient);
    ProvedIsPaid(c, built.secrets, built.inputs, p);
    DisclosedIsProved(c, built.secrets, built.inputs, secret);
  }
}
