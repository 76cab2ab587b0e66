// The two ends of a proof: what the coordinator's witness builder proves is
// word for word what finalize verifies.
module HonestProver {
  import opened Prelude
  import opened Field
  import opened Curve
  import opened Encoding
  import opened Statement
  import opened MaxBidCircuit
  import opened MaxBidWitness
  import opened MarketTypes
  import opened MarketSpec
  import opened MarketInvariants
  import opened MarketRuns
  import opened Settlement

  /** The parameters of a coordinator that holds the openings of the frozen delegations. */
  predicate Prepared(commit: Commitment, t: Terms, p: Params) {
    && p.roundDomain == FromBE(t.domain)
    && |p.bids| == |t.slots|
    && (forall i | 0 <= i < |p.bids| ::
          commit(p.bids[i].value, p.bids[i].randomness) == PointOf(t.slots[i]))
    && p.reserve == t.reserve
    && p.payment.commitment == PointOf(t.payment)
  }

  lemma SlotsMatch(commit: Commitment, t: Terms, p: Params, i: nat)
    requires i < 3 && Prepared(commit, t, p)
    ensures SlotCommitment(commit, p, i) == CommitmentOf(t, i)
  {
  }

  /** The builder's public inputs are the circuit inputs that the chain's terms stand for. */
  lemma InputsMatch(commit: Commitment, t: Terms, p: Params, k: nat)
    requires Encodable(t) && t.reserve >= 0 && FromBE(t.domain) < MODULUS
    requires Prepared(commit, t, p) && t.winnerIndex == k
    ensures BuiltInputs(commit, p, k) == Inputs(t)
  {
    SlotsMatch(commit, t, p, 0);
    SlotsMatch(commit, t, p, 1);
    SlotsMatch(commit, t, p, 2);
    FieldInFits(p.roundDomain);
    FieldInFits(p.reserve);
    FieldInFits(k);
  }

  /**
   * On every reachable closed round, a coordinator prepared for the round's terms
   * builds exactly the public inputs that the market's 448 bytes decode to, with
   * the winner index of its own fold.
   */
  lemma ProverMeetsChain(
    o: Oracle, commit: Commitment, w: World, id: RoundId, data: TransferData, p: Params, k: nat)
    requires Reachable(o, w) && id in w.rounds && Frozen(w.rounds[id])
    requires Provable(commit, p, k)
    requires PublicTerms(o, w, w.rounds[id], k, data).Success?
    requires Prepared(commit, PublicTerms(o, w, w.rounds[id], k, data).value, p)
    ensures FoldWinner(Values(p.bids)) == k
    ensures PublicInputBytes(o, w, w.rounds[id], k, data).Success?
    ensures Decode(PublicInputBytes(o, w, w.rounds[id], k, data).value) == Some(BuiltInputs(commit, p, k))
  {
    var t := PublicTerms(o, w, w.rounds[id], k, data).value;
    ReachableRound(o, w, id);
    TermsShape(o, w, id, k, data);
    StatementDecodes(t);
    InputsMatch(commit, t, p, k);
    FoldAgreesWithBuilder(commit, p, k);
  }

  /** Makes a proof from a statement and its witness. */
  type ProofSystem = (Bytes, PrivateInputs) -> Proof

  /** Every proof honestly made is accepted. */
  ghost predicate VerifierComplete(o: Oracle, verifier: Address, commit: Commitment, prove: ProofSystem) {
    forall inputs: Bytes, secrets: PrivateInputs :: CompleteAt(o, verifier, commit, prove, inputs, secrets)
  }

  predicate CompleteAt(
    o: Oracle, verifier: Address, commit: Commitment, prove: ProofSystem, inputs: Bytes, secrets: PrivateInputs) {
    Decode(inputs).Some? && Accepts(commit, Decode(inputs).value, secrets) ==>
      o.verify(verifier, inputs, prove(inputs, secrets))
  }

  /** The proof of the built witness is one that finalize's verification accepts. */
  lemma HonestProofVerifies(
    o: Oracle, commit: Commitment, prove: ProofSystem, w: World, id: RoundId, data: TransferData, p: Params, k: nat)
    requires Reachable(o, w) && id in w.rounds && Frozen(w.rounds[id])
    requires Provable(commit, p, k) && SurvivesField(commit, p)
    requires PublicTerms(o, w, w.rounds[id], k, data).Success?
    requires Prepared(commit, PublicTerms(o, w, w.rounds[id], k, data).value, p)
    requires VerifierComplete(o, w.rounds[id].config.maxBidVerifier, commit, prove)
    ensures PublicInputBytes(o, w, w.rounds[id], k, data).Success?
    ensures
      var inputs := PublicInputBytes(o, w, w.rounds[id], k, data).value;
      o.verify(w.rounds[id].config.maxBidVerifier, inputs, prove(inputs, BuiltSecrets(p)))
  {
    ProverMeetsChain(o, commit, w, id, data, p, k);
    BuiltWitnessAccepted(commit, p, k);
    var inputs := PublicInputBytes(o, w, w.rounds[id], k, data).value;
    assert CompleteAt(o, w.rounds[id].config.maxBidVerifier, commit, prove, inputs, BuiltSecrets(p));
  }

  /**
   * An honest settlement goes through: in time, while the statement can be built
   * at all and with a transfer the token accepts, finalize succeeds with the built
   * witness's proof and the coordinator's own winner.
   */
  lemma HonestSettlementSucceeds(
    o: Oracle, commit: Commitment, prove: ProofSystem, w: World, id: RoundId, data: TransferData, p: Params, k: nat)
    requires Reachable(o, w) && id in w.rounds && w.rounds[id].status.Closed?
    requires w.ledger <= w.rounds[id].config.settlementDeadline
    requires Provable(commit, p, k) && SurvivesField(commit, p)
    requires PublicTerms(o, w, w.rounds[id], k, data).Success? && data.Transfer? && data.accepted
    requires Prepared(commit, PublicTerms(o, w, w.rounds[id], k, data).value, p)
    requires VerifierComplete(o, w.rounds[id].config.maxBidVerifier, commit, prove)
    ensures PublicInputBytes(o, w, w.rounds[id], k, data).Success?
    ensures
      var inputs := PublicInputBytes(o, w, w.rounds[id], k, data).value;
      Finalized(o, w, id, k, prove(inputs, BuiltSecrets(p)), data).Success?
  {
    HonestProofVerifies(o, commit, prove, w, id, data, p, k);
    ReachableRound(o, w, id);
    StatementExactly(o, w, id, k, data);
    var inputs := PublicInputBytes(o, w, w.rounds[id], k, data).value;
    FinalizeExactly(o, w, id, k, prove(inputs, BuiltSecrets(p)), data);
  }
}
