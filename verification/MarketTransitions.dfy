// The transition table of a round: which call moves it where, and past which
// guard on the ledger clock.
module MarketTransitions {
  import opened Prelude
  import opened Encoding
  import opened MarketTypes
  import opened MarketSpec
  import opened MarketInvariants
  import opened MarketSteps

  /** The record a call rewrites: one round of the ledger, at most. */
  ghost predicate RewritesRecord(w: World, w': World, id: RoundId) {
    forall j | j in w.rounds && j != id :: j in w'.rounds && w'.rounds[j] == w.rounds[j]
  }

  /** The moves of a round's status, with the guard each one passed. */
  predicate StatusMove(w: World, w': World, call: Call, id: RoundId)
    requires id in w.rounds && id in w'.rounds
  {
    var from, to, c := w.rounds[id].status, w'.rounds[id].status, w.rounds[id].config;
    && (w'.rounds[id].rwaReclaimed == w.rounds[id].rwaReclaimed || call == ReclaimRwa(id))
    && (|| to == from
        || (call == OpenRound(id) && from.Draft? && to.Open? && w.ledger <= c.bidDeadline)
        || (call == CancelRound(id) && from.Draft? && to.Cancelled?)
        || (call == CloseRound(id) && from.Open? && to.Closed? && w.ledger > c.bidDeadline)
        || (call == MarkNoSale(id) && from.Closed? && to.Failed?
            && (w.rounds[id].bidderCount == 0 || w.ledger > c.settlementDeadline))
        || (call.Finalize? && call.id == id && from.Closed? && to.Settled? && w.ledger <= c.settlementDeadline)
        || (call == ReclaimRwa(id) && from.Failed? && to.Cancelled?))
  }

  ghost predicate MovesOnly(w: World, w': World, call: Call, id: RoundId) {
    RewritesRecord(w, w', id) && (id in w.rounds ==> id in w'.rounds && StatusMove(w, w', call, id))
  }

  lemma FundMoves(w: World, id: RoundId)
    requires Fund(w, id).Success? && w.rounds[id].id == id
    ensures MovesOnly(w, Fund(w, id).value, FundRound(id), id)
  {
  }

  lemma RegisterMoves(w: World, id: RoundId, accepts: bool)
    requires Register(w, id, accepts).Success?
    ensures Register(w, id, accepts).value.rounds == w.rounds
  {
  }

  lemma OpenBookMoves(w: World, id: RoundId)
    requires OpenBook(w, id).Success? && w.rounds[id].id == id
    ensures MovesOnly(w, OpenBook(w, id).value, OpenRound(id), id)
  {
  }

  lemma AddBidMoves(w: World, id: RoundId, bidder: Address)
    requires AddBid(w, id, bidder).Success? && w.rounds[id].id == id
    ensures MovesOnly(w, AddBid(w, id, bidder).value, RegisterBid(id, bidder), id)
    ensures AddBid(w, id, bidder).value.rounds[id].status == w.rounds[id].status
  {
  }

  lemma WithdrawMoves(w: World, id: RoundId, bidder: Address, accepted: bool)
    requires Withdraw(w, id, bidder, accepted).Success? && w.rounds[id].id == id
    ensures MovesOnly(w, Withdraw(w, id, bidder, accepted).value, WithdrawBid(id, bidder, accepted), id)
  {
  }

  lemma CloseMoves(w: World, id: RoundId)
    requires Close(w, id).Success? && w.rounds[id].id == id
    ensures MovesOnly(w, Close(w, id).value, CloseRound(id), id)
  {
  }

  lemma CancelMoves(w: World, id: RoundId)
    requires Cancel(w, id).Success? && w.rounds[id].id == id
    ensures MovesOnly(w, Cancel(w, id).value, CancelRound(id), id)
  {
  }

  lemma NoSaleMoves(w: World, id: RoundId)
    requires NoSale(w, id).Success? && w.rounds[id].id == id
    ensures MovesOnly(w, NoSale(w, id).value, MarkNoSale(id), id)
  {
  }

  lemma ReclaimMoves(w: World, id: RoundId)
    requires Reclaim(w, id).Success? && w.rounds[id].id == id
    ensures MovesOnly(w, Reclaim(w, id).value, ReclaimRwa(id), id)
  {
  }

  lemma FinalizedMoves(o: Oracle, w: World, id: RoundId, winnerIndex: U32, proof: Proof, data: TransferData)
    requires Finalized(o, w, id, winnerIndex, proof, data).Success? && w.rounds[id].id == id
    ensures
      var call := Finalize(id, winnerIndex, proof, data);
      MovesOnly(w, Finalized(o, w, id, winnerIndex, proof, data).value, call, id)
  {
    FinalizedShape(o, w, id, winnerIndex, proof, data);
  }

  lemma CreateMoves(w: World, config: RoundConfig)
    requires Create(w, config).Success?
    ensures NewRoundId(w, config) in Create(w, config).value.rounds
    ensures Create(w, config).value.rounds[NewRoundId(w, config)].id == NewRoundId(w, config)
    ensures RewritesRecord(w, Create(w, config).value, NewRoundId(w, config))
  {
  }

  lemma FundedRecord(w: World, id: RoundId)
    requires Fund(w, id).Success? && w.rounds[id].id == id
    ensures id in Fund(w, id).value.rounds && Fund(w, id).value.rounds[id].id == id
    ensures RewritesRecord(w, Fund(w, id).value, id)
  {
  }

  lemma CreateAndOpenMoves(w: World, config: RoundConfig, accepts: bool)
    requires CreateAndOpen(w, config, accepts).Success?
    ensures RewritesRecord(w, CreateAndOpen(w, config, accepts).value, NewRoundId(w, config))
  {
    var id := NewRoundId(w, config);
    var created := Create(w, config).value;
    CreateMoves(w, config);
    FundedRecord(created, id);
    var funded := Fund(created, id).value;
    RegisterMoves(funded, id, accepts);
    OpenBookMoves(Register(funded, id, accepts).value, id);
  }

  lemma LoadedIds(w: World)
    requires Inv(w)
    ensures forall j | j in w.rounds :: w.rounds[j].id == j
  {
    forall j | j in w.rounds ensures w.rounds[j].id == j {
      assert RoundOk(w, j);
    }
  }

  predicate CreatesRound(call: Call) {
    call.CreateRound? || call.CreateAndOpenRound?
  }

  lemma CallMoves(o: Oracle, w: World, call: Call)
    requires forall j | j in w.rounds :: w.rounds[j].id == j
    requires !CreatesRound(call) && !TouchesBook(call) && Perform(o, w, call).Success?
    ensures MovesOnly(w, Perform(o, w, call).value, call, call.id)
  {
    match call
    case FundRound(id) => FundMoves(w, id);
    case RegisterController(id, accepts) => RegisterMoves(w, id, accepts);
    case OpenRound(id) => OpenBookMoves(w, id);
    case CancelRound(id) => CancelMoves(w, id);
    case MarkNoSale(id) => NoSaleMoves(w, id);
    case ReclaimRwa(id) => ReclaimMoves(w, id);
  }

  lemma BookCallMoves(o: Oracle, w: World, call: Call)
    requires forall j | j in w.rounds :: w.rounds[j].id == j
    requires TouchesBook(call) && Perform(o, w, call).Success?
    ensures MovesOnly(w, Perform(o, w, call).value, call, call.id)
  {
    match call
    case RegisterBid(id, bidder) => AddBidMoves(w, id, bidder);
    case SubmitBid(id, bidder, amount, data) =>
      SubmitDelegatesThenAdds(w, id, bidder, amount, data);
      AddBidMoves(Delegated(w, w.rounds[id].config, bidder, data.allowance), id, bidder);
    case WithdrawBid(id, bidder, accepted) => WithdrawMoves(w, id, bidder, accepted);
    case CloseRound(id) => CloseMoves(w, id);
    case Finalize(id, winnerIndex, proof, data) => FinalizedMoves(o, w, id, winnerIndex, proof, data);
  }

  lemma CreationMoves(o: Oracle, w: World, call: Call)
    requires Inv(w) && CreatesRound(call) && Perform(o, w, call).Success?
    ensures forall j | j in w.rounds :: j in Perform(o, w, call).value.rounds
                                        && Perform(o, w, call).value.rounds[j] == w.rounds[j]
  {
    NewIdIsFresh(w, call.config);
    match call
    case CreateRound(config) => CreateMoves(w, config);
    case CreateAndOpenRound(config, accepts) => CreateAndOpenMoves(w, config, accepts);
  }

  /** The whole transition table: no other call changes a round's status, and each change passed its guard. */
  lemma StatusTransitions(o: Oracle, w: World, auth: set<Address>, call: Call, id: RoundId)
    requires Inv(w) && id in w.rounds && Execute(o, w, auth, call).Success?
    ensures id in Execute(o, w, auth, call).value.rounds
    ensures StatusMove(w, Execute(o, w, auth, call).value, call, id)
  {
    LoadedIds(w);
    if CreatesRound(call) {
      CreationMoves(o, w, call);
    } else if TouchesBook(call) {
      BookCallMoves(o, w, call);
    } else {
      CallMoves(o, w, call);
    }
  }
}
