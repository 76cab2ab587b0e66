// packages/sdk/src/spender.ts: the three witness builders of a confidential
// delegation, as functions of their arguments and of the drawn scalars.
module DelegationBuilders {
  import opened Prelude
  import opened Field
  import opened Curve

  /** A value with the randomness of its commitment. */
  datatype Opening = Opening(value: int, randomness: int)

  datatype KeyPair = KeyPair(sk: Felt, vk: int, addressField: Felt, spending: Point, viewing: Point)

  datatype BuildError =
    | OutOfRange
    | OpeningMismatch
    | SaltMustRotate
    | SharedIdentity

  function Open(c: Crypto, o: Opening): Point {
    c.commit(o.value, o.randomness)
  }

  function EncryptBalance(c: Crypto, value: int, vk: int, sigma: int): Felt {
    Add(value, c.poseidon(EncryptedBalance, vk, sigma))
  }

  function EncryptAmount(c: Crypto, value: int, shared: int, sigma: int): Felt {
    Add(value, c.poseidon(TxAmount, shared, sigma))
  }

  function CurrentEcdh(c: Crypto, scalar: int, point: Point): Result<Felt, BuildError> {
    match SharedSecret(c, scalar, point)
    case Success(shared) => Success(shared)
    case Failure(_) => Failure(SharedIdentity)
  }

  /** What a delegate holds: the allowance opening, with the key and salt that derive its randomness. */
  datatype Delegation = Delegation(opening: Opening, key: int, salt: int, commitment: Point)

  datatype Escrow = Escrow(rX: Felt, cipher: Felt)

  datatype SetSpenderParams = SetSpenderParams(
    owner: KeyPair, spendable: Opening, allowance: int, spenderKey: Point, spenderId: int,
    ownerAuditorKey: Point, sigma: int, sigmaA: int, rE: int)

  datatype AllowancePayload = AllowancePayload(
    cSpendNew: Point, bTilde: Felt, rE: Point, sigma: int, vAudS: Felt, bAudS: Felt)

  datatype SetSpenderWitness = SetSpenderWitness(
    cSpend: Point, payload: AllowancePayload, escrow: Escrow, aTilde: Felt,
    delegation: Delegation, nextSpendable: Opening)

  function BuildSetSpender(c: Crypto, p: SetSpenderParams): Result<SetSpenderWitness, BuildError> {
    var next := Opening(p.spendable.value - p.allowance, c.deriveSpendR(p.owner.vk, p.sigma));
    :- Need(FitsAmount(p.spendable.value), OutOfRange);
    :- Need(FitsAmount(p.allowance), OutOfRange);
    :- Need(FitsAmount(next.value), OutOfRange);
    var key := c.delegationKey(p.owner.vk, p.spenderId);
    var allowance := Opening(p.allowance, c.deriveAllowR(key, p.sigmaA));
    var rE := c.scalarMul(p.rE, c.base);
    var escrowShared :- CurrentEcdh(c, p.rE, p.spenderKey);
    var auditorShared :- CurrentEcdh(c, p.rE, p.ownerAuditorKey);
    var masks := c.squeeze(AuditorSender, auditorShared, p.sigma);
    var payload := AllowancePayload(
      Open(c, next), EncryptBalance(c, next.value, p.owner.vk, p.sigma), rE, p.sigma,
      Add(p.allowance, masks.0), Add(next.value, masks.1));
    Success(SetSpenderWitness(
      Open(c, p.spendable), payload,
      Escrow(rE.x, c.encryptDelegationKey(key, escrowShared, p.spenderId)),
      c.encryptAllowance(p.allowance, key, p.sigmaA),
      Delegation(allowance, key, p.sigmaA, Open(c, allowance)), next))
  }

  datatype RevokeParams = RevokeParams(
    owner: KeyPair, spendable: Opening, allowance: Opening, allowanceSalt: int, spenderId: int,
    ownerAuditorKey: Point, sigma: int, rE: int)

  datatype RevokeWitness = RevokeWitness(cSpend: Point, cA: Point, payload: AllowancePayload, nextSpendable: Opening)

  function BuildRevoke(c: Crypto, p: RevokeParams): Result<RevokeWitness, BuildError> {
    var next := Opening(p.spendable.value + p.allowance.value, c.deriveSpendR(p.owner.vk, p.sigma));
    :- Need(FitsAmount(p.spendable.value), OutOfRange);
    :- Need(FitsAmount(p.allowance.value), OutOfRange);
    :- Need(FitsAmount(next.value), OutOfRange);
    var expected := c.deriveAllowR(c.delegationKey(p.owner.vk, p.spenderId), p.allowanceSalt);
    :- Need(expected == p.allowance.randomness, OpeningMismatch);
    var auditorShared :- CurrentEcdh(c, p.rE, p.ownerAuditorKey);
    var masks := c.squeeze(AuditorSender, auditorShared, p.sigma);
    var payload := AllowancePayload(
      Open(c, next), EncryptBalance(c, next.value, p.owner.vk, p.sigma), c.scalarMul(p.rE, c.base), p.sigma,
      Add(p.allowance.value, masks.0), Add(next.value, masks.1));
    Success(RevokeWitness(Open(c, p.spendable), Open(c, p.allowance), payload, next))
  }

  datatype TransferParams = TransferParams(
    allowance: Opening, key: int, salt: int, amount: int, recipientViewingKey: Point,
    recipientAuditorKey: Point, ownerAuditorKey: Point, nextSalt: int, rE: int)

  datatype TransferPayload = TransferPayload(
    cANew: Point, cTransfer: Point, rE: Point, vTilde: Felt, aTildeNew: Felt, sigmaANew: int,
    vAudR: Felt, rAudR: Felt, vAudS: Felt, aAudS: Felt)

  datatype TransferWitness = TransferWitness(
    cA: Point, payload: TransferPayload, payment: Opening, nextDelegation: Delegation)

  function BuildSpenderTransfer(c: Crypto, p: TransferParams): Result<TransferWitness, BuildError> {
    var nextValue := p.allowance.value - p.amount;
    :- Need(FitsAmount(p.allowance.value), OutOfRange);
    :- Need(FitsAmount(p.amount), OutOfRange);
    :- Need(FitsAmount(nextValue), OutOfRange);
    :- Need(c.deriveAllowR(p.key, p.salt) == p.allowance.randomness, OpeningMismatch);
    :- Need(p.nextSalt != p.salt, SaltMustRotate);
    var recipientShared :- CurrentEcdh(c, p.rE, p.recipientViewingKey);
    var payment := Opening(p.amount, c.deriveTxBlind(recipientShared, p.salt));
    var next := Opening(nextValue, c.deriveAllowR(p.key, p.nextSalt));
    var recipientAuditorShared :- CurrentEcdh(c, p.rE, p.recipientAuditorKey);
    var recipientMasks := c.squeeze(AuditorRecipient, recipientAuditorShared, p.salt);
    var ownerAuditorShared :- CurrentEcdh(c, p.rE, p.ownerAuditorKey);
    var ownerMasks := c.squeeze(AuditorSender, ownerAuditorShared, p.salt);
    var payload := TransferPayload(
      Open(c, next), Open(c, payment), c.scalarMul(p.rE, c.base),
      EncryptAmount(c, p.amount, recipientShared, p.salt),
      c.encryptAllowance(nextValue, p.key, p.nextSalt), p.nextSalt,
      Add(p.amount, recipientMasks.0), Add(payment.randomness, recipientMasks.1),
      Add(p.amount, ownerMasks.0), Add(nextValue, ownerMasks.1));
    Success(TransferWitness(Open(c, p.allowance), payload, payment, Delegation(next, p.key, p.nextSalt, Open(c, next))))
  }

  /** The exchange with this point yields a secret, not the identity. */
  predicate Reaches(c: Crypto, scalar: int, point: Point) {
    c.scalarMul(scalar, point) != IDENTITY
  }

  /** Delegating succeeds exactly on in-range amounts within the balance, and moves value without changing it. */
  lemma SetSpenderMovesValue(c: Crypto, p: SetSpenderParams)
    ensures
      BuildSetSpender(c, p).Success? <==>
        && 0 <= p.allowance <= p.spendable.value < TWO_127
        && Reaches(c, p.rE, p.spenderKey) && Reaches(c, p.rE, p.ownerAuditorKey)
    ensures
      BuildSetSpender(c, p).Success? ==>
        var w := BuildSetSpender(c, p).value;
        && w.nextSpendable.value + w.delegation.opening.value == p.spendable.value
        && w.payload.cSpendNew == Open(c, w.nextSpendable)
        && w.delegation.commitment == Open(c, w.delegation.opening)
  {
  }

  lemma RevokeMovesValue(c: Crypto, p: RevokeParams)
    ensures
      BuildRevoke(c, p).Success? <==>
        && 0 <= p.spendable.value && 0 <= p.allowance.value && p.spendable.value + p.allowance.value < TWO_127
        && p.allowance.randomness == c.deriveAllowR(c.delegationKey(p.owner.vk, p.spenderId), p.allowanceSalt)
        && Reaches(c, p.rE, p.ownerAuditorKey)
    ensures
      BuildRevoke(c, p).Success? ==>
        var w := BuildRevoke(c, p).value;
        && w.nextSpendable.value == p.spendable.value + p.allowance.value
        && w.payload.cSpendNew == Open(c, w.nextSpendable)
  {
  }

  lemma TransferMovesValue(c: Crypto, p: TransferParams)
    ensures
      BuildSpenderTransfer(c, p).Success? <==>
        && 0 <= p.amount <= p.allowance.value < TWO_127
        && p.allowance.randomness == c.deriveAllowR(p.key, p.salt)
        && p.nextSalt != p.salt
        && Reaches(c, p.rE, p.recipientViewingKey)
        && Reaches(c, p.rE, p.recipientAuditorKey)
        && Reaches(c, p.rE, p.ownerAuditorKey)
    ensures
      BuildSpenderTransfer(c, p).Success? ==>
        var w := BuildSpenderTransfer(c, p).value;
        && w.nextDelegation.opening.value + w.payment.value == p.allowance.value
        && w.payload.cTransfer == Open(c, w.payment)
        && w.nextDelegation.commitment == Open(c, w.nextDelegation.opening)
  {
  }

  /** A spender's way back from a value and a key to what was encrypted, as the token client has it. */
  datatype Reader = Reader(allowance: (int, int, int) -> int, delegationKey: (int, int, int) -> int)

  predicate ReadsBack(c: Crypto, reader: Reader, value: int, key: int, salt: int) {
    FitsAmount(value) ==> reader.allowance(c.encryptAllowance(value, key, salt), key, salt) == value
  }

  predicate KeyReadsBack(c: Crypto, reader: Reader, key: int, shared: int, id: int) {
    reader.delegationKey(c.encryptDelegationKey(key, shared, id), shared, id) == key
  }

  /** The reader inverts the two encryptions, wherever a key of the scheme is encrypted. */
  ghost predicate Inverts(c: Crypto, reader: Reader) {
    && (forall value: int, key: int, salt: int :: ReadsBack(c, reader, value, key, salt))
    && (forall vk: int, owner: int, shared: int, id: int ::
          KeyReadsBack(c, reader, c.delegationKey(vk, owner), shared, id))
  }

  /** What a spender recovers from a set_spender event with its own secret. */
  function ReadDelegation(
    c: Crypto, reader: Reader, secret: int, spenderId: int, rE: Point, escrow: Escrow, aTilde: Felt, salt: int)
    : Result<Delegation, EcdhError>
  {
    var shared :- SharedSecret(c, secret, rE);
    var key := reader.delegationKey(escrow.cipher, shared, spenderId);
    var opening := Opening(reader.allowance(aTilde, key, salt), c.deriveAllowR(key, salt));
    Success(Delegation(opening, key, salt, Open(c, opening)))
  }

  /** The spender named in a delegation recovers all of it from the published payload and its own secret. */
  lemma SpenderReadsDelegation(c: Crypto, reader: Reader, p: SetSpenderParams, secret: int)
    requires Commutes(c) && Inverts(c, reader) && p.spenderKey == c.scalarMul(secret, c.base)
    requires BuildSetSpender(c, p).Success?
    ensures
      var w := BuildSetSpender(c, p).value;
      && ReadDelegation(c, reader, secret, p.spenderId, w.payload.rE, w.escrow, w.aTilde, w.delegation.salt)
         == Success(w.delegation)
      && w.escrow.rX == w.payload.rE.x
  {
    SharedSecretsAgree(c, secret, p.rE);
    var key, shared := c.delegationKey(p.owner.vk, p.spenderId), SharedSecret(c, p.rE, p.spenderKey).value;
    assert KeyReadsBack(c, reader, key, shared, p.spenderId);
    assert ReadsBack(c, reader, p.allowance, key, p.sigmaA);
  }

  /** After a spender transfer, whoever holds the delegation's key reads what is left of it. */
  lemma HolderReadsRemainder(c: Crypto, reader: Reader, p: TransferParams)
    requires Inverts(c, reader) && BuildSpenderTransfer(c, p).Success?
    ensures
      var w := BuildSpenderTransfer(c, p).value;
      && reader.allowance(w.payload.aTildeNew, p.key, w.payload.sigmaANew) == p.allowance.value - p.amount
      && w.nextDelegation.key == p.key && w.nextDelegation.salt == w.payload.sigmaANew
      && w.payload.cANew == w.nextDelegation.commitment
      && w.nextDelegation.opening == Opening(p.allowance.value - p.amount, c.deriveAllowR(p.key, w.payload.sigmaANew))
  {
    assert ReadsBack(c, reader, p.allowance.value - p.amount, p.key, p.nextSalt);
  }

  /** Revoking a fresh delegation gives back the balance it came from. */
  lemma RevokeUndoesSetSpender(c: Crypto, p: SetSpenderParams, sigma: int, rE: int)
    requires BuildSetSpender(c, p).Success? && Reaches(c, rE, p.ownerAuditorKey)
    ensures
      var delegated := BuildSetSpender(c, p).value;
      var revoked := BuildRevoke(c, RevokeParams(p.owner, delegated.nextSpendable, delegated.delegation.opening,
                                                 delegated.delegation.salt, p.spenderId, p.ownerAuditorKey, sigma, rE));
      && revoked.Success?
      && revoked.value.nextSpendable == Opening(p.spendable.value, c.deriveSpendR(p.owner.vk, sigma))
      && revoked.value.cSpend == delegated.payload.cSpendNew
      && revoked.value.cA == delegated.delegation.commitment
  {
  }
}

// packages/sdk/src/audit.ts: what an auditor decrypts from delegation events.
module Audit {
  import opened Prelude
  import opened Field
  import opened Curve
  import opened DelegationBuilders

  datatype AllowanceAudit = AllowanceAudit(allowance: Felt, ownerPostBalance: Felt)

  datatype TransferAudit = TransferAudit(
    amount: Felt, recipientAmount: Felt, remainingAllowance: Felt, transferRandomness: Felt, channelsAgree: bool)

  function DecryptAllowance(c: Crypto, secret: int, e: AllowancePayload): Result<AllowanceAudit, EcdhError> {
    var shared :- SharedSecret(c, secret, e.rE);
    var masks := c.squeeze(AuditorSender, shared, e.sigma);
    Success(AllowanceAudit(Sub(e.vAudS, masks.0), Sub(e.bAudS, masks.1)))
  }

  /** The event of a spender transfer: its payload under the salt it spent. */
  function DecryptSpenderTransfer(c: Crypto, secret: int, e: TransferPayload, salt: int)
    : Result<TransferAudit, EcdhError>
  {
    var shared :- SharedSecret(c, secret, e.rE);
    var senderMasks := c.squeeze(AuditorSender, shared, salt);
    var recipientMasks := c.squeeze(AuditorRecipient, shared, salt);
    var senderAmount := Sub(e.vAudS, senderMasks.0);
    var recipientAmount := Sub(e.vAudR, recipientMasks.0);
    Success(TransferAudit(senderAmount, recipientAmount, Sub(e.aAudS, senderMasks.1),
                          Sub(e.rAudR, recipientMasks.1), senderAmount == recipientAmount))
  }

  /** The owner's auditor reads the allowance and what the owner has left, for every scalar and salt. */
  lemma SetSpenderAudited(c: Crypto, p: SetSpenderParams, secret: int)
    requires Commutes(c) && p.ownerAuditorKey == c.scalarMul(secret, c.base)
    requires BuildSetSpender(c, p).Success?
    ensures DecryptAllowance(c, secret, BuildSetSpender(c, p).value.payload)
         == Success(AllowanceAudit(p.allowance, p.spendable.value - p.allowance))
  {
    SharedSecretsAgree(c, secret, p.rE);
    var masks := c.squeeze(AuditorSender, SharedSecret(c, p.rE, p.ownerAuditorKey).value, p.sigma);
    UnmaskMask(p.allowance, masks.0);
    UnmaskMask(p.spendable.value - p.allowance, masks.1);
  }

  lemma RevokeAudited(c: Crypto, p: RevokeParams, secret: int)
    requires Commutes(c) && p.ownerAuditorKey == c.scalarMul(secret, c.base)
    requires BuildRevoke(c, p).Success?
    ensures DecryptAllowance(c, secret, BuildRevoke(c, p).value.payload)
         == Success(AllowanceAudit(p.allowance.value, p.spendable.value + p.allowance.value))
  {
    SharedSecretsAgree(c, secret, p.rE);
    var masks := c.squeeze(AuditorSender, SharedSecret(c, p.rE, p.ownerAuditorKey).value, p.sigma);
    UnmaskMask(p.allowance.value, masks.0);
    UnmaskMask(p.spendable.value + p.allowance.value, masks.1);
  }

  /** The owner's auditor reads the amount and the remaining allowance. */
  lemma OwnerChannelAudited(c: Crypto, p: TransferParams, secret: int)
    requires Commutes(c) && p.ownerAuditorKey == c.scalarMul(secret, c.base)
    requires BuildSpenderTransfer(c, p).Success?
    ensures
      var audit := DecryptSpenderTransfer(c, secret, BuildSpenderTransfer(c, p).value.payload, p.salt);
      && audit.Success?
      && audit.value.amount == p.amount
      && audit.value.remainingAllowance == p.allowance.value - p.amount
  {
    SharedSecretsAgree(c, secret, p.rE);
    var masks := c.squeeze(AuditorSender, SharedSecret(c, p.rE, p.ownerAuditorKey).value, p.salt);
    UnmaskMask(p.amount, masks.0);
    UnmaskMask(p.allowance.value - p.amount, masks.1);
  }

  /** The recipient's auditor reads an opening of the very commitment that was paid. */
  lemma RecipientChannelAudited(c: Crypto, p: TransferParams, secret: int)
    requires Commutes(c) && p.recipientAuditorKey == c.scalarMul(secret, c.base)
    requires BuildSpenderTransfer(c, p).Success?
    ensures
      var w := BuildSpenderTransfer(c, p).value;
      var audit := DecryptSpenderTransfer(c, secret, w.payload, p.salt);
      && audit.Success?
      && Opening(audit.value.recipientAmount, audit.value.transferRandomness) == w.payment
      && c.commit(audit.value.recipientAmount, audit.value.transferRandomness) == w.payload.cTransfer
  {
    SharedSecretsAgree(c, secret, p.rE);
    var w := BuildSpenderTransfer(c, p).value;
    var masks := c.squeeze(AuditorRecipient, SharedSecret(c, p.rE, p.recipientAuditorKey).value, p.salt);
    UnmaskMask(p.amount, masks.0);
    UnmaskMask(w.payment.randomness, masks.1);
  }

  /** A value read through the wrong mask is right only if the masks are equal. */
  lemma WrongMask(x: Felt, m: Felt, k: Felt)
    ensures Sub(Add(x, m), k) == x <==> m == k
  {
  }

  /**
   * Channel agreement, exactly: the owner's auditor sees the two channels agree just when its
   * own recipient mask is the one the builder used, as it is whenever both auditor keys are its own.
   */
  lemma ChannelsAgreeExactly(c: Crypto, p: TransferParams, secret: int)
    requires Commutes(c) && p.ownerAuditorKey == c.scalarMul(secret, c.base)
    requires BuildSpenderTransfer(c, p).Success?
    ensures
      var audit := DecryptSpenderTransfer(c, secret, BuildSpenderTransfer(c, p).value.payload, p.salt);
      var used := SharedSecret(c, p.rE, p.recipientAuditorKey).value;
      var own := SharedSecret(c, p.rE, p.ownerAuditorKey).value;
      && audit.Success?
      && (audit.value.channelsAgree <==>
            c.squeeze(AuditorRecipient, used, p.salt).0 == c.squeeze(AuditorRecipient, own, p.salt).0)
      && (p.recipientAuditorKey == p.ownerAuditorKey ==> audit.value.channelsAgree)
  {
    OwnerChannelAudited(c, p, secret);
    SharedSecretsAgree(c, secret, p.rE);
    var used := SharedSecret(c, p.rE, p.recipientAuditorKey).value;
    var own := SharedSecret(c, p.rE, p.ownerAuditorKey).value;
    WrongMask(p.amount, c.squeeze(AuditorRecipient, used, p.salt).0, c.squeeze(AuditorRecipient, own, p.salt).0);
  }
}

// Runs of one owner's delegation: set, spend any number of times, revoke, and again.
module DelegationRuns {
  import opened Prelude
  import opened Field
  import opened Curve
  import opened DelegationBuilders

  datatype Operation =
    | SetSpender(allowance: int, spenderKey: Point, sigma: int, sigmaA: int, rE: int)
    | SpenderTransfer(amount: int, recipientViewingKey: Point, recipientAuditorKey: Point, nextSalt: int, rE: int)
    | Revoke(sigma: int, rE: int)

  /** Who is delegating to whom, under which auditor. */
  datatype Parties = Parties(owner: KeyPair, spenderId: int, ownerAuditorKey: Point)

  /** The clients' openings next to the commitments the token stores. */
  datatype Account = Account(
    spendable: Opening, delegation: Option<Delegation>, paid: int, cSpend: Point, cA: Option<Point>)

  datatype RunError = NoDelegation | DelegationExists | StaleCommitment | Rejected(error: BuildError)

  /** The token checks a proof against the commitments it stores. */
  function Perform(c: Crypto, who: Parties, a: Account, op: Operation): Result<Account, RunError> {
    match op
    case SetSpender(allowance, spenderKey, sigma, sigmaA, rE) =>
      if a.cA.Some? then Failure(DelegationExists)
      else (
        match BuildSetSpender(c, SetSpenderParams(who.owner, a.spendable, allowance, spenderKey, who.spenderId,
                                                  who.ownerAuditorKey, sigma, sigmaA, rE))
        case Failure(error) => Failure(Rejected(error))
        case Success(w) =>
          if w.cSpend != a.cSpend then Failure(StaleCommitment)
          else Success(Account(w.nextSpendable, Some(w.delegation), a.paid, w.payload.cSpendNew,
                               Some(w.delegation.commitment))))
    case SpenderTransfer(amount, recipientViewingKey, recipientAuditorKey, nextSalt, rE) =>
      if a.delegation.None? || a.cA.None? then Failure(NoDelegation)
      else (
        var d := a.delegation.value;
        match BuildSpenderTransfer(c, TransferParams(d.opening, d.key, d.salt, amount, recipientViewingKey,
                                                     recipientAuditorKey, who.ownerAuditorKey, nextSalt, rE))
        case Failure(error) => Failure(Rejected(error))
        case Success(w) =>
          if w.cA != a.cA.value then Failure(StaleCommitment)
          else Success(a.(delegation := Some(w.nextDelegation), paid := a.paid + w.payment.value,
                          cA := Some(w.payload.cANew))))
    case Revoke(sigma, rE) =>
      if a.delegation.None? || a.cA.None? then Failure(NoDelegation)
      else (
        var d := a.delegation.value;
        match BuildRevoke(c, RevokeParams(who.owner, a.spendable, d.opening, d.salt, who.spenderId,
                                          who.ownerAuditorKey, sigma, rE))
        case Failure(error) => Failure(Rejected(error))
        case Success(w) =>
          if w.cSpend != a.cSpend || w.cA != a.cA.value then Failure(StaleCommitment)
          else Success(Account(w.nextSpendable, None, a.paid, w.payload.cSpendNew, None)))
  }

  /** A failed operation leaves the account as it was. */
  function Performed(c: Crypto, who: Parties, a: Account, ops: seq<Operation>): Account
    decreases |ops|
  {
    if |ops| == 0 then a
    else
      var next := Perform(c, who, a, ops[0]);
      Performed(c, who, if next.Success? then next.value else a, ops[1..])
  }

  function Total(a: Account): int {
    a.spendable.value + (if a.delegation.Some? then a.delegation.value.opening.value else 0) + a.paid
  }

  /** Client and token agree: every opening opens what is stored and is the one its key and salt derive. */
  predicate InStep(c: Crypto, who: Parties, a: Account) {
    && a.cSpend == Open(c, a.spendable)
    && (a.delegation.Some? <==> a.cA.Some?)
    && (a.delegation.Some? ==>
          var d := a.delegation.value;
          && a.cA.value == Open(c, d.opening) == d.commitment
          && d.key == c.delegationKey(who.owner.vk, who.spenderId)
          && d.opening.randomness == c.deriveAllowR(d.key, d.salt)
          && 0 <= d.opening.value)
    && 0 <= a.spendable.value && 0 <= a.paid && Total(a) < TWO_127
  }

  lemma PerformKeepsStep(c: Crypto, who: Parties, a: Account, op: Operation)
    requires InStep(c, who, a)
    ensures
      var next := Perform(c, who, a, op);
      && (next.Success? ==> InStep(c, who, next.value) && Total(next.value) == Total(a))
      && (next.Failure? ==> next.error !in {StaleCommitment, Rejected(OpeningMismatch)})
  {
  }

  /** In step, revoking is refused only when no secret can be shared with the auditor. */
  lemma RevokeAlwaysPossible(c: Crypto, who: Parties, a: Account, sigma: int, rE: int)
    requires InStep(c, who, a) && a.delegation.Some? && Reaches(c, rE, who.ownerAuditorKey)
    ensures
      var next := Perform(c, who, a, Revoke(sigma, rE));
      && next.Success? && next.value.delegation.None?
      && next.value.spendable.value == a.spendable.value + a.delegation.value.opening.value
  {
  }

  /** Over every run, whichever steps succeed: nothing is created, nothing is lost, and client and token agree. */
  lemma {:induction false} RunsConserve(c: Crypto, who: Parties, a: Account, ops: seq<Operation>)
    requires InStep(c, who, a)
    ensures InStep(c, who, Performed(c, who, a, ops))
    ensures Total(Performed(c, who, a, ops)) == Total(a)
    decreases |ops|
  {
    if |ops| > 0 {
      PerformKeepsStep(c, who, a, ops[0]);
      var next := Perform(c, who, a, ops[0]);
      RunsConserve(c, who, if next.Success? then next.value else a, ops[1..]);
    }
  }
}
