// The two promises a bidder cares about: the frozen list is the filtered book,
// and the lot goes to its leftmost highest bid, for exactly that bid.
module Settlement {
  import opened Prelude
  import opened Field
  import opened Curve
  import opened Encoding
  import opened Statement
  import opened MaxBidCircuit
  import opened MaxBidWitness
  import opened MarketTypes
  import opened MarketSpec
  import opened MarketInvariants
  import opened MarketSteps
  import opened MarketRuns

  /**
   * The book while it is open: at most three distinct bidders, each record at its
   * own position, and the counter equal to the number of active records.
   */
  lemma OpenBookInvariant(o: Oracle, w: World, id: RoundId)
    requires Reachable(o, w) && id in w.rounds && w.rounds[id].status.Open?
    ensures
      var book := LoadBook(w.books, id);
      && |book| <= MAX_BIDDERS && NoDuplicates(book)
      && (forall i | 0 <= i < |book| :: (id, book[i]) in w.bids && w.bids[(id, book[i])].registrationIndex == i)
      && (forall b :: (id, b) in w.bids <==> b in book)
      && w.rounds[id].bidderCount == ActiveCount(w.bids, id, book)
  {
    ReachableRound(o, w, id);
    BookHoldsRecords(w, id);
  }

  lemma BookHoldsRecords(w: World, id: RoundId)
    requires RoundOk(w, id) && w.rounds[id].status.Open?
    ensures forall b :: (id, b) in w.bids <==> b in LoadBook(w.books, id)
  {
  }

  /**
   * close_round leaves exactly the active bidders whose delegation lives through
   * the settlement deadline, in registration order, deactivates everyone else,
   * and commits to the list.
   */
  lemma CloseFiltersBook(o: Oracle, w: World, id: RoundId)
    requires Reachable(o, w) && Close(w, id).Success?
    ensures id in w.rounds && id in w.books
    ensures
      var w', config := Close(w, id).value, w.rounds[id].config;
      var kept := LoadBook(w'.books, id);
      && id in w'.rounds
      && (forall b :: b in kept <==> b in w.books[id] && Active(w.bids, id, b) && Live(w, config, b))
      && (forall b :: Active(w'.bids, id, b) <==> b in kept)
      && (forall i, j | 0 <= i < j < |kept| ::
            && (id, kept[i]) in w.bids && (id, kept[j]) in w.bids
            && w.bids[(id, kept[i])].registrationIndex < w.bids[(id, kept[j])].registrationIndex)
      && w'.rounds[id].bidderCount == |kept|
      && w'.rounds[id].participantSetHash == Some(BookDigest(id, kept))
  {
    ReachableRound(o, w, id);
    ClosedBookMembers(w, id);
    KeptPositions(w, id);
  }

  lemma KeptPositions(w: World, id: RoundId)
    requires RoundOk(w, id) && w.rounds[id].status.Open?
    ensures
      var kept := Kept(w, id, w.rounds[id].config, w.books[id]);
      forall i, j | 0 <= i < j < |kept| ::
        && (id, kept[i]) in w.bids && (id, kept[j]) in w.bids
        && w.bids[(id, kept[i])].registrationIndex < w.bids[(id, kept[j])].registrationIndex
  {
    KeptInOrder(w, id, w.rounds[id].config, w.books[id]);
  }

  lemma ClosedBookMembers(w: World, id: RoundId)
    requires RoundOk(w, id) && Close(w, id).Success?
    ensures
      var w', config := Close(w, id).value, w.rounds[id].config;
      var kept := LoadBook(w'.books, id);
      && w.rounds[id].status.Open?
      && kept == Kept(w, id, config, w.books[id])
      && w'.rounds == w.rounds[id := ClosedRecord(w, id)]
      && (forall b :: b in kept <==> b in w.books[id] && Active(w.bids, id, b) && Live(w, config, b))
      && (forall b :: Active(w'.bids, id, b) <==> b in kept)
  {
    var config, book := w.rounds[id].config, w.books[id];
    KeptMembers(w, id, config, book);
    CloseRebooks(w, id);
    ClosedBookOk(w, id);
    var w' := Close(w, id).value;
    forall b
      ensures Active(w'.bids, id, b) <==> b in Kept(w, id, config, book)
    {
      if Active(w'.bids, id, b) { assert (id, b).0 == id; }
    }
  }

  /** A frozen list never changes again, on any run. */
  lemma FrozenListIsFinal(o: Oracle, w: World, steps: seq<Step>, id: RoundId)
    requires Reachable(o, w) && LegalRun(o, w, steps) && id in w.rounds && Frozen(w.rounds[id])
    ensures id in Run(o, w, steps).rounds && Frozen(Run(o, w, steps).rounds[id])
    ensures LoadBook(Run(o, w, steps).books, id) == LoadBook(w.books, id)
  {
    ReachableIsSolvent(o, w);
    RunKeeps(o, w, steps);
    assert RoundAdvances(w, Run(o, w, steps), id);
  }

  /** Reads the witness a proof was made with. */
  type Extractor = (Address, Bytes, Proof) -> PrivateInputs

  /**
   * The verifier is sound: from any proof it accepts, the extractor reads a
   * witness of the circuit for the very statement that was verified.
   */
  ghost predicate VerifierSound(o: Oracle, verifier: Address, commit: Commitment, extract: Extractor) {
    forall inputs: Bytes, proof: Proof :: SoundAt(o, verifier, commit, extract, inputs, proof)
  }

  predicate SoundAt(
    o: Oracle, verifier: Address, commit: Commitment, extract: Extractor, inputs: Bytes, proof: Proof) {
    o.verify(verifier, inputs, proof) ==>
      Decode(inputs).Some? && Accepts(commit, Decode(inputs).value, extract(verifier, inputs, proof))
  }

  datatype OpenedBid = OpenedBid(value: int, blind: int)

  /** The bidders' own openings of the commitments they delegated. */
  ghost predicate OpenTheBook(
    commit: Commitment, w: World, config: RoundConfig, book: seq<Address>, openings: seq<OpenedBid>) {
    && |openings| == |book|
    && forall i | 0 <= i < |book| ::
         IsSpender(w, config, book[i]) ==>
           PointOf(DelegationOf(w, config, book[i]).allowanceCommitment) == commit(openings[i].value, openings[i].blind)
  }

  function OpenedValues(openings: seq<OpenedBid>): (vs: seq<int>)
    ensures |vs| == |openings| && forall i | 0 <= i < |vs| :: vs[i] == openings[i].value
  {
    seq(|openings|, i requires 0 <= i < |openings| => openings[i].value)
  }

  /** A bidder's own opening and the prover's of the same slot differ in value: the commitment is broken, in hand. */
  predicate Collides(commit: Commitment, openings: seq<OpenedBid>, secrets: PrivateInputs)
    requires |openings| <= 3
  {
    exists i | 0 <= i < |openings| ::
      Collision(commit, openings[i].value, openings[i].blind, secrets.bids.At(i), secrets.blinds.At(i))
  }

  /** What finalize verified, read as the circuit's public inputs. */
  lemma FinalizedStatement(
    o: Oracle, w: World, id: RoundId, winnerIndex: U32, proof: Proof, data: TransferData) returns (t: Terms)
    requires RoundOk(w, id) && Finalized(o, w, id, winnerIndex, proof, data).Success?
    ensures data.Transfer?
    ensures Encodable(t) && t.reserve >= 0 && FromBE(t.domain) < MODULUS
    ensures
      var config, book := w.rounds[id].config, LoadBook(w.books, id);
      && t.reserve == config.reservePublic && t.winnerIndex == winnerIndex && t.payment == data.cTransfer
      && t.domain[1..] == o.domainHash(w.market, id, config, BookDigest(id, book))[1..]
      && winnerIndex < |t.slots| == |book|
      && (forall i | 0 <= i < |book| ::
            IsSpender(w, config, book[i]) && t.slots[i] == DelegationOf(w, config, book[i]).allowanceCommitment)
      && PublicInputBytes(o, w, w.rounds[id], winnerIndex, data) == Success(StatementBytes(t))
      && Decode(StatementBytes(t)) == Some(Inputs(t))
      && o.verify(config.maxBidVerifier, StatementBytes(t), proof)
  {
    FinalizedShape(o, w, id, winnerIndex, proof, data);
    t := PublicTerms(o, w, w.rounds[id], winnerIndex, data).value;
    TermsShape(o, w, id, winnerIndex, data);
    StatementDecodes(t);
  }

  lemma TermsShape(o: Oracle, w: World, id: RoundId, winnerIndex: U32, data: TransferData)
    requires RoundOk(w, id) && Frozen(w.rounds[id]) && PublicTerms(o, w, w.rounds[id], winnerIndex, data).Success?
    ensures data.Transfer? && winnerIndex < |LoadBook(w.books, id)|
    ensures
      var t := PublicTerms(o, w, w.rounds[id], winnerIndex, data).value;
      var config, book := w.rounds[id].config, LoadBook(w.books, id);
      && Encodable(t) && t.reserve >= 0 && t.domain[0] == 0
      && (!w.rounds[id].status.Cancelled? ==>
            t.domain[1..] == o.domainHash(w.market, id, config, BookDigest(id, book))[1..])
      && t.reserve == config.reservePublic && t.winnerIndex == winnerIndex && t.payment == data.cTransfer
      && |t.slots| == |book|
      && (forall i | 0 <= i < |book| ::
            IsSpender(w, config, book[i]) && t.slots[i] == DelegationOf(w, config, book[i]).allowanceCommitment)
      && PublicInputBytes(o, w, w.rounds[id], winnerIndex, data) == Success(StatementBytes(t))
  {
    var r, book := w.rounds[id], LoadBook(w.books, id);
    assert Min(r.bidderCount, MAX_BIDDERS) == |book|;
    SlotsLength(w, r.config, book, |book|);
  }

  /** What the market hashes into the first word of a closed round's statement. */
  datatype DomainArguments = DomainArguments(market: Address, id: RoundId, config: RoundConfig, book: seq<Address>)

  function DomainOf(w: World, id: RoundId): DomainArguments
    requires id in w.rounds
  {
    DomainArguments(w.market, id, w.rounds[id].config, LoadBook(w.books, id))
  }

  function DomainHash(o: Oracle, a: DomainArguments): Word {
    o.domainHash(a.market, a.id, a.config, BookDigest(a.id, a.book))
  }

  /** Two different lists of arguments with one hash, but for the first byte, which the statement clears. */
  predicate DomainCollision(o: Oracle, a: DomainArguments, b: DomainArguments) {
    a != b && DomainHash(o, a)[1..] == DomainHash(o, b)[1..]
  }

  /**
   * The statement binds the list. Equal bytes for two closed rounds, of one market
   * or of two, come from the same market and round with the same terms and the same
   * frozen list, unless the two are a collision of the hash, in hand; and always
   * from the same index and payment.
   */
  lemma StatementBindsList(
    o: Oracle, w: World, id: RoundId, k: U32, data: TransferData,
    w': World, id': RoundId, k': U32, data': TransferData)
    requires Reachable(o, w) && id in w.rounds && w.rounds[id].status.Closed?
    requires Reachable(o, w') && id' in w'.rounds && w'.rounds[id'].status.Closed?
    requires
      var inputs := PublicInputBytes(o, w, w.rounds[id], k, data);
      inputs.Success? && inputs == PublicInputBytes(o, w', w'.rounds[id'], k', data')
    ensures DomainOf(w, id) == DomainOf(w', id') || DomainCollision(o, DomainOf(w, id), DomainOf(w', id'))
    ensures k == k' && data.Transfer? && data'.Transfer? && data.cTransfer == data'.cTransfer
  {
    ReachableRound(o, w, id);
    ReachableRound(o, w', id');
    TermsShape(o, w, id, k, data);
    TermsShape(o, w', id', k', data');
    StatementIsInjective(PublicTerms(o, w, w.rounds[id], k, data).value,
                         PublicTerms(o, w', w'.rounds[id'], k', data').value);
  }

  /** The circuit's answer on a dense book is the leftmost maximum of the opened values. */
  lemma WitnessNamesWinner(
    commit: Commitment, t: Terms, secrets: PrivateInputs, openings: seq<OpenedBid>)
    requires Encodable(t) && t.reserve >= 0 && FromBE(t.domain) < MODULUS
    requires Accepts(commit, Inputs(t), secrets)
    requires |openings| == |t.slots| && t.winnerIndex < |openings|
    requires forall i | 0 <= i < |openings| :: PointOf(t.slots[i]) == commit(openings[i].value, openings[i].blind)
    ensures Collides(commit, openings, secrets) ||
      (&& IsLeftmostMax(OpenedValues(openings), t.winnerIndex)
       && t.reserve <= openings[t.winnerIndex].value
       && PointOf(t.payment) == commit(openings[t.winnerIndex].value, secrets.paymentBlind))
  {
    if !Collides(commit, openings, secrets) {
      CircuitIsIntegerStatement(commit, Inputs(t), secrets);
      forall i | 0 <= i < |openings|
        ensures Inputs(t).active.At(i) && secrets.bids.At(i) == openings[i].value
      {
        SameSlot(commit, t, secrets, openings, i);
      }
      OpenedMaximum(t, secrets, openings);
    }
  }

  lemma SameSlot(commit: Commitment, t: Terms, secrets: PrivateInputs, openings: seq<OpenedBid>, i: nat)
    requires Encodable(t) && t.reserve >= 0 && FromBE(t.domain) < MODULUS
    requires StatementHolds(commit, Inputs(t), secrets)
    requires i < |openings| == |t.slots|
    requires PointOf(t.slots[i]) == commit(openings[i].value, openings[i].blind)
    requires !Collides(commit, openings, secrets)
    ensures Inputs(t).active.At(i) && secrets.bids.At(i) == openings[i].value
  {
    assert SlotOpened(commit, Inputs(t), secrets, i);
    assert !Collision(commit, openings[i].value, openings[i].blind, secrets.bids.At(i), secrets.blinds.At(i));
  }

  lemma OpenedMaximum(t: Terms, secrets: PrivateInputs, openings: seq<OpenedBid>)
    requires Encodable(t) && t.reserve >= 0 && FromBE(t.domain) < MODULUS
    requires |openings| == |t.slots| && t.winnerIndex < |openings|
    requires LeftmostMaximum(Inputs(t).active, secrets.bids, t.winnerIndex)
    requires forall i | 0 <= i < |openings| :: Inputs(t).active.At(i) && secrets.bids.At(i) == openings[i].value
    ensures IsLeftmostMax(OpenedValues(openings), t.winnerIndex)
  {
    var values, k := OpenedValues(openings), t.winnerIndex;
    forall i | 0 <= i < |values|
      ensures values[i] <= values[k] && (i < k ==> values[i] < values[k])
    {
      assert Inputs(t).active.At(i) && Inputs(t).active.At(k);
    }
  }

  /**
   * Settlement, end to end. If finalize succeeds on a reachable market with a
   * sound verifier, then for whatever openings the bidders hold of their
   * delegated commitments: the index is that of the lowest-index highest bid of
   * the frozen list, that bid meets the reserve, and the transfer commitment
   * handed to the token opens to exactly that bid under the prover's blinding,
   * unless a bidder's opening and the prover's are two openings of one
   * commitment.
   */
  lemma SettlementIsCorrect(
    o: Oracle, commit: Commitment, extract: Extractor, w: World, id: RoundId,
    winnerIndex: U32, proof: Proof, data: TransferData, openings: seq<OpenedBid>)
    requires Reachable(o, w)
    requires Finalized(o, w, id, winnerIndex, proof, data).Success?
    requires VerifierSound(o, w.rounds[id].config.maxBidVerifier, commit, extract)
    requires OpenTheBook(commit, w, w.rounds[id].config, LoadBook(w.books, id), openings)
    ensures data.Transfer? && winnerIndex < |openings| <= 3
    ensures PublicInputBytes(o, w, w.rounds[id], winnerIndex, data).Success?
    ensures
      var config := w.rounds[id].config;
      var inputs := PublicInputBytes(o, w, w.rounds[id], winnerIndex, data).value;
      var secrets := extract(config.maxBidVerifier, inputs, proof);
      Collides(commit, openings, secrets) ||
      (&& IsLeftmostMax(OpenedValues(openings), winnerIndex)
       && config.reservePublic <= openings[winnerIndex].value
       && PointOf(data.cTransfer) == commit(openings[winnerIndex].value, secrets.paymentBlind))
  {
    ReachableRound(o, w, id);
    var t := FinalizedStatement(o, w, id, winnerIndex, proof, data);
    ProvenTerms(o, commit, extract, w, w.rounds[id].config, LoadBook(w.books, id), t, proof, openings);
  }

  lemma ProvenTerms(
    o: Oracle, commit: Commitment, extract: Extractor, w: World, config: RoundConfig, book: seq<Address>,
    t: Terms, proof: Proof, openings: seq<OpenedBid>)
    requires Encodable(t) && t.reserve >= 0 && FromBE(t.domain) < MODULUS
    requires Decode(StatementBytes(t)) == Some(Inputs(t))
    requires o.verify(config.maxBidVerifier, StatementBytes(t), proof)
    requires VerifierSound(o, config.maxBidVerifier, commit, extract)
    requires OpenTheBook(commit, w, config, book, openings)
    requires |t.slots| == |book| && t.winnerIndex < |book|
    requires forall i | 0 <= i < |book| ::
      IsSpender(w, config, book[i]) && t.slots[i] == DelegationOf(w, config, book[i]).allowanceCommitment
    ensures |openings| <= 3
    ensures
      var secrets := extract(config.maxBidVerifier, StatementBytes(t), proof);
      Collides(commit, openings, secrets) ||
      (&& IsLeftmostMax(OpenedValues(openings), t.winnerIndex)
       && t.reserve <= openings[t.winnerIndex].value
       && PointOf(t.payment) == commit(openings[t.winnerIndex].value, secrets.paymentBlind))
  {
    assert SoundAt(o, config.maxBidVerifier, commit, extract, StatementBytes(t), proof);
    WitnessNamesWinner(commit, t, extract(config.maxBidVerifier, StatementBytes(t), proof), openings);
  }

  /**
   * What changes hands: the bidder at the proven index, and nobody else, receives
   * exactly the lot out of the market's balance, and the round's controller asks
   * the round's token, once, to move that bidder's delegated amount to the
   * round's issuer with the very payload the proof was checked against.
   */
  lemma SettlementMovesLotAndPayment(
    o: Oracle, w: World, id: RoundId, winnerIndex: U32, proof: Proof, data: TransferData)
    requires Reachable(o, w) && Finalized(o, w, id, winnerIndex, proof, data).Success?
    ensures winnerIndex < |LoadBook(w.books, id)|
    ensures
      var w', c := Finalized(o, w, id, winnerIndex, proof, data).value, w.rounds[id].config;
      var winner := LoadBook(w.books, id)[winnerIndex];
      && winner != w.market
      && w'.balances == Moved(w.balances, c.rwaToken, w.market, winner, c.rwaLot)
      && Balance(w'.balances, c.rwaToken, winner) == Balance(w.balances, c.rwaToken, winner) + c.rwaLot
      && w'.payments == w.payments + [Payment(c.confidentialToken, c.controller, winner, c.issuer, data)]
      && id in w'.rounds && w'.rounds[id].winner == Some(winner)
  {
    FinalizedShape(o, w, id, winnerIndex, proof, data);
    ReachableRound(o, w, id);
    var c := w.rounds[id].config;
    var winner := LoadBook(w.books, id)[winnerIndex];
    WinnerIsBidder(w, id, winnerIndex);
    MarketPays(w.market, w.balances, c.rwaToken, winner, c.rwaLot);
    PaidByRoundController(w, id, winnerIndex, data);
  }

  lemma WinnerIsBidder(w: World, id: RoundId, i: nat)
    requires RoundOk(w, id) && i < |LoadBook(w.books, id)|
    ensures LoadBook(w.books, id)[i] != w.market
  {
  }

  lemma PaidByRoundController(w: World, id: RoundId, winnerIndex: nat, data: TransferData)
    requires RoundOk(w, id) && w.rounds[id].status.Closed? && winnerIndex < |LoadBook(w.books, id)|
    requires Paid(w, id, winnerIndex, data).Success?
    ensures
      var c := w.rounds[id].config;
      Paid(w, id, winnerIndex, data).value.payments
        == w.payments + [Payment(c.confidentialToken, c.controller, LoadBook(w.books, id)[winnerIndex], c.issuer, data)]
  {
  }

  // When settlement goes through.

  /** Every bidder of a list still has the round's controller as spender. */
  predicate AllDelegated(w: World, config: RoundConfig, book: seq<Address>, n: nat)
    requires n <= |book|
  {
    forall i | 0 <= i < n :: IsSpender(w, config, book[i])
  }

  lemma {:induction false} SlotsExactly(w: World, config: RoundConfig, book: seq<Address>, n: nat)
    requires n <= |book|
    ensures Slots(w, config, book, n).Success? <==> AllDelegated(w, config, book, n)
  {
    if n > 0 { SlotsExactly(w, config, book, n - 1); }
  }

  /** The statement of a frozen round is built exactly while every frozen bidder is delegated. */
  lemma StatementExactly(o: Oracle, w: World, id: RoundId, winnerIndex: U32, data: TransferData)
    requires RoundOk(w, id) && w.rounds[id].status.Closed?
    ensures PublicInputBytes(o, w, w.rounds[id], winnerIndex, data).Success? <==>
              && winnerIndex < |w.books[id]| && data.Transfer?
              && AllDelegated(w, w.rounds[id].config, w.books[id], |w.books[id]|)
  {
    var r, book := w.rounds[id], w.books[id];
    assert Min(r.bidderCount, MAX_BIDDERS) == |book|;
    SlotsExactly(w, r.config, book, |book|);
  }

  /** The controller of a closed round refuses only what the token refuses. */
  lemma ControllerAgrees(w: World, id: RoundId, winnerIndex: nat, data: TransferData)
    requires RoundOk(w, id) && w.rounds[id].status.Closed? && winnerIndex < |w.books[id]|
    requires w.ledger <= w.rounds[id].config.settlementDeadline
    requires IsSpender(w, w.rounds[id].config, w.books[id][winnerIndex])
    ensures Paid(w, id, winnerIndex, data).Success? <==> data.Transfer? && data.accepted
    ensures Paid(w, id, winnerIndex, data).Success? ==> Paid(w, id, winnerIndex, data).value.balances == w.balances
  {
  }

  /**
   * What finalize needs, and all it needs, on any reachable market: the round is
   * closed and not past its settlement deadline, every frozen bidder is still
   * delegated, the index is one of them, the proof verifies, and the token accepts
   * the transfer. The controller and the escrowed lot never stand in the way.
   */
  lemma FinalizeExactly(o: Oracle, w: World, id: RoundId, winnerIndex: U32, proof: Proof, data: TransferData)
    requires Reachable(o, w) && id in w.rounds && w.rounds[id].status.Closed?
    ensures id in w.books
    ensures
      var config, book := w.rounds[id].config, w.books[id];
      var inputs := PublicInputBytes(o, w, w.rounds[id], winnerIndex, data);
      Finalized(o, w, id, winnerIndex, proof, data).Success? <==>
        && w.ledger <= config.settlementDeadline && winnerIndex < |book|
        && AllDelegated(w, config, book, |book|)
        && data.Transfer? && data.accepted
        && inputs.Success? && o.verify(config.maxBidVerifier, inputs.value, proof)
  {
    ReachableRound(o, w, id);
    HeldLotIsThere(o, w, id);
    StatementExactly(o, w, id, winnerIndex, data);
    var book := w.books[id];
    if w.ledger <= w.rounds[id].config.settlementDeadline && winnerIndex < |book|
       && AllDelegated(w, w.rounds[id].config, book, |book|) {
      ControllerAgrees(w, id, winnerIndex, data);
    }
  }

  /** The ledger after one bidder's delegation to a round's controller is taken away. */
  function DelegationRemoved(w: World, config: RoundConfig, bidder: Address): World {
    w.(delegations := w.delegations - {(config.confidentialToken, bidder, config.controller)})
  }

  /**
   * One frozen bidder, winner or not, can stop the settlement: taking its
   * delegation away is a legal step outside the market, and after it every finalize
   * of the round fails, whatever index, proof and transfer it is given.
   */
  lemma OneBidderBlocksFinalize(o: Oracle, w: World, id: RoundId, i: nat)
    requires Reachable(o, w) && id in w.rounds && w.rounds[id].status.Closed? && i < |LoadBook(w.books, id)|
    ensures
      var w' := DelegationRemoved(w, w.rounds[id].config, LoadBook(w.books, id)[i]);
      && Legal(w, Environment(w')) && Reachable(o, w')
      && id in w'.rounds && w'.rounds[id].status.Closed?
      && forall winnerIndex: U32, proof, data :: Finalized(o, w', id, winnerIndex, proof, data).Failure?
  {
    var w' := DelegationRemoved(w, w.rounds[id].config, LoadBook(w.books, id)[i]);
    ReachableStep(o, w, Environment(w'));
    forall winnerIndex: U32, proof, data
      ensures Finalized(o, w', id, winnerIndex, proof, data).Failure?
    {
      FinalizeExactly(o, w', id, winnerIndex, proof, data);
    }
  }
}
