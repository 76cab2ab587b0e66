// apps/indexer/src/sandbox.ts, settle: from the openings that the bidders' own
// builders made to a finalize that succeeds.
module Coordinator {
  import opened Prelude
  import opened Field
  import opened Curve
  import opened Encoding
  import opened Statement
  import opened MaxBidWitness
  import opened MarketTypes
  import opened MarketSpec
  import opened MarketRuns
  import opened MarketInvariants
  import opened Settlement
  import opened HonestProver
  import D = DelegationBuilders

  /** What a bidder leaves with the operator after delegating. */
  datatype Recorded = Recorded(value: int, randomness: int, salt: int, key: int)

  function RecordOf(d: D.Delegation): Recorded {
    Recorded(d.opening.value, d.opening.randomness, d.salt, d.key)
  }

  /** The bids handed to the maximum-bid builder: openings without their commitments. */
  function BidsOf(records: seq<Recorded>): (bids: seq<BidOpening>)
    ensures |bids| == |records|
  {
    seq(|records|, i requires 0 <= i < |records| => BidOpening(records[i].value, records[i].randomness, None))
  }

  /** The recipient, the auditor and the scalars of the one transfer of a settlement. */
  datatype Terminal = Terminal(recipientKey: Point, auditorKey: Point, nextSalt: int, rE: int)

  /** The parameters of a transfer of the whole winning delegation. */
  function TransferOf(r: Recorded, at: Terminal): D.TransferParams {
    D.TransferParams(D.Opening(r.value, r.randomness), r.key, r.salt, r.value,
                     at.recipientKey, at.auditorKey, at.auditorKey, at.nextSalt, at.rE)
  }

  /** The record is of a delegation that its bidder's builder made. */
  predicate Made(c: Crypto, params: D.SetSpenderParams, r: Recorded) {
    var built := D.BuildSetSpender(c, params);
    built.Success? && r == RecordOf(built.value.delegation)
  }

  function CommitmentMade(c: Crypto, r: Recorded): Point {
    c.commit(r.value, r.randomness)
  }

  /** Every slot of the statement is the delegation one of the bidders made, as its builder encodes it. */
  predicate SlotsMade(c: Crypto, t: Terms, params: seq<D.SetSpenderParams>, records: seq<Recorded>) {
    && |t.slots| == |records| == |params|
    && forall i | 0 <= i < |records| ::
         Made(c, params[i], records[i]) && t.slots[i] == EncodePoint(CommitmentMade(c, records[i]))
  }

  function PaymentOf(w: D.TransferWitness): PaymentOpening {
    PaymentOpening(w.payment.value, w.payment.randomness, w.payload.cTransfer)
  }

  /** What settle hands to the maximum-bid builder. */
  function ParamsOf(t: Terms, records: seq<Recorded>, w: D.TransferWitness): Params {
    Params(FromBE(t.domain), BidsOf(records), t.reserve, PaymentOf(w))
  }

  /** What the transfer pays is a whole recorded bid, opened by the payment's own opening. */
  lemma TransferPaysBid(c: Crypto, params: D.SetSpenderParams, r: Recorded, at: Terminal)
    requires Made(c, params, r)
    ensures
      var built := D.BuildSpenderTransfer(c, TransferOf(r, at));
      && (built.Success? <==>
            at.nextSalt != r.salt && D.Reaches(c, at.rE, at.recipientKey) && D.Reaches(c, at.rE, at.auditorKey))
      && (built.Success? ==>
            && built.value.payment.value == r.value
            && built.value.payload.cTransfer == c.commit(r.value, built.value.payment.randomness)
            && 0 <= built.value.payment.randomness < MODULUS)
    ensures FitsAmount(r.value) && 0 <= r.randomness < MODULUS
  {
    D.SetSpenderMovesValue(c, params);
    D.TransferMovesValue(c, TransferOf(r, at));
  }

  lemma MadeBids(c: Crypto, t: Terms, params: seq<D.SetSpenderParams>, records: seq<Recorded>, i: nat)
    requires SlotsMade(c, t, params, records) && i < |records|
    ensures FitsAmount(records[i].value) && 0 <= records[i].randomness < MODULUS
    ensures PointOf(t.slots[i]) == c.commit(records[i].value, records[i].randomness)
  {
    D.SetSpenderMovesValue(c, params[i]);
    assert Made(c, params[i], records[i]);
    PointRoundTrip(CommitmentMade(c, records[i]));
  }

  lemma MadeRecord(c: Crypto, t: Terms, params: seq<D.SetSpenderParams>, records: seq<Recorded>, i: nat)
    requires SlotsMade(c, t, params, records) && i < |records|
    ensures Made(c, params[i], records[i])
  {
  }

  /** Every recorded bid is in range, with a canonical blinding, and opens its slot. */
  predicate BidsOpen(c: Crypto, t: Terms, records: seq<Recorded>) {
    && |t.slots| == |records|
    && forall i | 0 <= i < |records| ::
         && FitsAmount(records[i].value) && 0 <= records[i].randomness < MODULUS
         && PointOf(t.slots[i]) == c.commit(records[i].value, records[i].randomness)
  }

  lemma AllMadeBids(c: Crypto, t: Terms, params: seq<D.SetSpenderParams>, records: seq<Recorded>)
    requires SlotsMade(c, t, params, records)
    ensures BidsOpen(c, t, records)
  {
    forall i | 0 <= i < |records|
      ensures FitsAmount(records[i].value) && 0 <= records[i].randomness < MODULUS
      ensures PointOf(t.slots[i]) == c.commit(records[i].value, records[i].randomness)
    {
      MadeBids(c, t, params, records, i);
    }
  }

  lemma PreparedByBuilders(c: Crypto, t: Terms, records: seq<Recorded>, w: D.TransferWitness)
    requires BidsOpen(c, t, records) && t.payment == EncodePoint(w.payload.cTransfer)
    ensures Prepared(c.commit, t, ParamsOf(t, records, w))
  {
    PointRoundTrip(w.payload.cTransfer);
  }

  lemma SurvivesFromBuilders(c: Crypto, t: Terms, records: seq<Recorded>, w: D.TransferWitness)
    requires BidsOpen(c, t, records) && 0 < FromBE(t.domain) < MODULUS && 0 <= w.payment.randomness < MODULUS
    ensures SurvivesField(c.commit, ParamsOf(t, records, w))
  {
    CanonicalSurvives(c.commit, ParamsOf(t, records, w));
  }

  /** Everything but the reserve is already in order. */
  lemma ProvableAtReserve(commit: Commitment, p: Params, k: nat)
    requires p.roundDomain != 0 && 1 <= |p.bids| <= 3 && 0 <= p.reserve && k == FoldWinner(Values(p.bids))
    requires forall i | 0 <= i < |p.bids| :: FitsAmount(p.bids[i].value) && p.bids[i].commitment.None?
    requires p.payment.value == p.bids[k].value
    requires commit(p.payment.value, p.payment.randomness) == p.payment.commitment
    ensures Provable(commit, p, k) <==> p.reserve <= p.bids[k].value
  {
    FoldFindsLeftmostMax(Values(p.bids));
  }

  /**
   * The openings made by the bidders' builders, and the payment made by the transfer
   * builder for the coordinator's own winner, are what the maximum-bid builder and
   * the chain want: the winner is provable exactly when it meets the reserve.
   */
  lemma BuildersPrepare(
    c: Crypto, t: Terms, params: seq<D.SetSpenderParams>, records: seq<Recorded>, at: Terminal, k: nat)
    requires SlotsMade(c, t, params, records) && 0 < |records| <= 3 && t.reserve >= 0 && FromBE(t.domain) != 0
    requires FromBE(t.domain) < MODULUS && k == FoldWinner(Values(BidsOf(records)))
    requires D.BuildSpenderTransfer(c, TransferOf(records[k], at)).Success?
    requires t.payment == EncodePoint(D.BuildSpenderTransfer(c, TransferOf(records[k], at)).value.payload.cTransfer)
    ensures
      var p := ParamsOf(t, records, D.BuildSpenderTransfer(c, TransferOf(records[k], at)).value);
      && Prepared(c.commit, t, p) && SurvivesField(c.commit, p)
      && (Provable(c.commit, p, k) <==> t.reserve <= records[k].value)
  {
    var w := D.BuildSpenderTransfer(c, TransferOf(records[k], at)).value;
    var p := ParamsOf(t, records, w);
    MadeRecord(c, t, params, records, k);
    TransferPaysBid(c, params[k], records[k], at);
    AllMadeBids(c, t, params, records);
    PreparedByBuilders(c, t, records, w);
    SurvivesFromBuilders(c, t, records, w);
    ProvableAtReserve(c.commit, p, k);
  }

  /** Encoded points are canonical, so the byte comparison of settle passes. */
  lemma BuiltTermsAreCanonical(
    c: Crypto, t: Terms, params: seq<D.SetSpenderParams>, records: seq<Recorded>, payment: Point)
    requires SlotsMade(c, t, params, records) && t.payment == EncodePoint(payment)
    ensures CanonicalTerms(t)
  {
    EncodedIsCanonical(payment);
    forall i | 0 <= i < |t.slots|
      ensures CanonicalPoint(t.slots[i])
    {
      EncodedIsCanonical(CommitmentMade(c, records[i]));
    }
  }

  /**
   * Settlement by the coordinator, end to end: in time, for delegations the bidders'
   * builders made and a winner at or above the reserve, the transfer that is built
   * and the proof that is made pass the coordinator's byte comparison, and finalize
   * succeeds, whenever the token accepts the transfer.
   */
  lemma CoordinatorSettles(
    o: Oracle, c: Crypto, prove: ProofSystem, w: World, id: RoundId, data: TransferData, k: U32,
    params: seq<D.SetSpenderParams>, records: seq<Recorded>, at: Terminal)
    requires Reachable(o, w) && id in w.rounds && w.rounds[id].status.Closed?
    requires w.ledger <= w.rounds[id].config.settlementDeadline
    requires PublicTerms(o, w, w.rounds[id], k, data).Success? && data.Transfer? && data.accepted
    requires
      var t := PublicTerms(o, w, w.rounds[id], k, data).value;
      SlotsMade(c, t, params, records) && FromBE(t.domain) != 0
    requires 0 < |records| && k == FoldWinner(Values(BidsOf(records)))
    requires w.rounds[id].config.reservePublic <= records[k].value
    requires D.BuildSpenderTransfer(c, TransferOf(records[k], at)).Success?
    requires
      data.cTransfer == EncodePoint(D.BuildSpenderTransfer(c, TransferOf(records[k], at)).value.payload.cTransfer)
    requires VerifierComplete(o, w.rounds[id].config.maxBidVerifier, c.commit, prove)
    ensures PublicInputBytes(o, w, w.rounds[id], k, data).Success?
    ensures
      var t := PublicTerms(o, w, w.rounds[id], k, data).value;
      var p := ParamsOf(t, records, D.BuildSpenderTransfer(c, TransferOf(records[k], at)).value);
      var inputs := PublicInputBytes(o, w, w.rounds[id], k, data).value;
      && ProverBytes(BuiltInputs(c.commit, p, k)) == inputs
      && Finalized(o, w, id, k, prove(inputs, BuiltSecrets(p)), data).Success?
  {
    var t := PublicTerms(o, w, w.rounds[id], k, data).value;
    var payment := D.BuildSpenderTransfer(c, TransferOf(records[k], at)).value;
    var p := ParamsOf(t, records, payment);
    ReachableRound(o, w, id);
    TermsShape(o, w, id, k, data);
    DomainIsCanonical(t.domain);
    BuildersPrepare(c, t, params, records, at, k);
    HonestSettlementSucceeds(o, c.commit, prove, w, id, data, p, k);
    InputsMatch(c.commit, t, p, k);
    BuiltTermsAreCanonical(c, t, params, records, payment.payload.cTransfer);
    ProverBytesAgreeExactly(t);
  }
}
