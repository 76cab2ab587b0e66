// Who can change what: a bid belongs to its bidder until the book closes, and a
// delegation that a bid made is the one the statement names.
module MarketAccess {
  import opened Prelude
  import opened Encoding
  import opened Statement
  import opened MarketTypes
  import opened MarketSpec
  import opened MarketInvariants
  import opened MarketSteps
  import opened MarketRuns
  import opened MarketTransitions
  import opened Settlement

  type DelegationKey = (Address, Address, Address)

  /** The token's entry for a bidder and a round's controller. */
  function KeyOf(config: RoundConfig, bidder: Address): DelegationKey {
    (config.confidentialToken, bidder, config.controller)
  }

  function DelegationAt(w: World, key: DelegationKey): Option<Delegation> {
    if key in w.delegations then Some(w.delegations[key]) else None
  }

  function BidAt(w: World, id: RoundId, bidder: Address): Option<BidRegistration> {
    if (id, bidder) in w.bids then Some(w.bids[(id, bidder)]) else None
  }

  // What one call does to a bid and to its delegation.

  /** The conditions of admission, and where the bid ends up. */
  predicate Admitted(w: World, w': World, id: RoundId, bidder: Address) {
    && id in w.rounds && w.rounds[id].status.Open? && w.ledger <= w.rounds[id].config.bidDeadline
    && BidAt(w, id, bidder).None? && |LoadBook(w.books, id)| < 3
    && (var c := w.rounds[id].config;
        && (c.eligibilityPolicy, bidder, c.confidentialToken) in w.eligible
        && DelegationAt(w', KeyOf(c, bidder)).Some?
        && DelegationAt(w', KeyOf(c, bidder)).value.liveUntil >= c.settlementDeadline)
    && BidAt(w', id, bidder) == Some(BidRegistration(id, bidder, |LoadBook(w.books, id)|, w.ledger, true))
    && LoadBook(w'.books, id) == LoadBook(w.books, id) + [bidder]
    && id in w'.rounds && w'.rounds[id] == w.rounds[id].(bidderCount := w.rounds[id].bidderCount + 1)
  }

  /** Nothing but the round's own record, book, new bid and log changed. */
  predicate OnlyBidAdded(w: World, w': World, id: RoundId, bidder: Address) {
    && w'.bids == w.bids[(id, bidder) := BidRegistration(id, bidder, |LoadBook(w.books, id)|, w.ledger, true)]
    && w'.balances == w.balances && w'.payments == w.payments && w'.controllers == w.controllers
    && w'.events == w.events
         + [Logged(w.market, w.ledger, BidRegistered(id, bidder, |LoadBook(w.books, id)|))]
  }

  lemma AddBidAdmits(w: World, id: RoundId, bidder: Address)
    requires AddBid(w, id, bidder).Success? && w.rounds[id].id == id
    ensures
      var w' := AddBid(w, id, bidder).value;
      Admitted(w, w', id, bidder) && OnlyBidAdded(w, w', id, bidder) && w'.delegations == w.delegations
  {
  }

  /** register_bid admits exactly the eligible bidders with a delegation live through the settlement deadline. */
  lemma AdmittedExactly(w: World, id: RoundId, bidder: Address)
    ensures AddBid(w, id, bidder).Success? <==>
      && id in w.rounds && w.rounds[id].status.Open? && w.ledger <= w.rounds[id].config.bidDeadline
      && BidAt(w, id, bidder).None? && |LoadBook(w.books, id)| < 3
      && (var c := w.rounds[id].config;
          && (c.eligibilityPolicy, bidder, c.confidentialToken) in w.eligible
          && DelegationAt(w, KeyOf(c, bidder)).Some?
          && DelegationAt(w, KeyOf(c, bidder)).value.liveUntil >= c.settlementDeadline)
  {
  }

  /** A submitted bid delegates the bidder's own commitment, through the settlement deadline, and nothing else. */
  lemma SubmitDelegates(w: World, id: RoundId, bidder: Address, amount: int, data: SpenderData)
    requires Submit(w, id, bidder, amount, data).Success? && (id in w.rounds ==> w.rounds[id].id == id)
    ensures id in w.rounds && amount >= 0 && data.spenderAccepted && (amount > 0 ==> data.depositAccepted)
    ensures
      var w', c := Submit(w, id, bidder, amount, data).value, w.rounds[id].config;
      && Admitted(w, w', id, bidder) && OnlyBidAdded(w, w', id, bidder)
      && DelegationAt(w', KeyOf(c, bidder)) == Some(Delegation(data.allowance, c.settlementDeadline))
      && forall key: DelegationKey | key != KeyOf(c, bidder) :: DelegationAt(w', key) == DelegationAt(w, key)
  {
    SubmitDelegatesThenAdds(w, id, bidder, amount, data);
    AddBidAdmits(Delegated(w, w.rounds[id].config, bidder, data.allowance), id, bidder);
  }

  /** A withdrawn bid is inactive and its delegation gone; every other bid and delegation stays. */
  lemma WithdrawRevokes(w: World, id: RoundId, bidder: Address, accepted: bool)
    requires Withdraw(w, id, bidder, accepted).Success?
    ensures id in w.rounds && w.rounds[id].status.Open? && w.ledger <= w.rounds[id].config.bidDeadline
    ensures BidAt(w, id, bidder).Some? && BidAt(w, id, bidder).value.active
    ensures
      var w', c := Withdraw(w, id, bidder, accepted).value, w.rounds[id].config;
      && (DelegationAt(w, KeyOf(c, bidder)).Some? ==> accepted)
      && DelegationAt(w', KeyOf(c, bidder)).None?
      && (forall key: DelegationKey | key != KeyOf(c, bidder) :: DelegationAt(w', key) == DelegationAt(w, key))
      && w'.bids == w.bids[(id, bidder) := w.bids[(id, bidder)].(active := false)]
      && w'.books == w.books && w'.balances == w.balances && w'.payments == w.payments
  {
  }

  // The controller on its own, whatever market it serves.

  /** settle forwards one transfer for its own market, once registered, up to its own deadline, as the token accepts. */
  lemma ControllerSettlesExactly(w: World, at: Address, from: Address, data: TransferData)
    ensures ControllerSettle(w, at, from, data).Success? <==>
      && at in w.controllers && data.Transfer? && data.accepted
      && (var c := w.controllers[at];
          c.market == w.market && c.registered && w.ledger <= c.deadline
          && DelegationAt(w, (c.token, from, at)).Some?)
    ensures ControllerSettle(w, at, from, data).Success? ==>
      var w', c := ControllerSettle(w, at, from, data).value, w.controllers[at];
      && w'.payments == w.payments + [Payment(c.token, at, from, c.issuer, data)]
      && w'.balances == w.balances && w'.controllers == w.controllers && w'.rounds == w.rounds
  {
  }

  /** register flips the flag once, for its own market, when the token accepts the registration. */
  lemma ControllerRegistersOnce(w: World, at: Address, accepts: bool)
    ensures ControllerRegister(w, at, accepts).Success? <==>
      at in w.controllers && w.controllers[at].market == w.market && !w.controllers[at].registered && accepts
    ensures ControllerRegister(w, at, accepts).Success? ==>
      var w' := ControllerRegister(w, at, accepts).value;
      && at in w'.controllers && w'.controllers[at].registered
      && ControllerRegister(w', at, accepts) == Failure(AlreadyRegistered)
  {
  }

  // Over all calls.

  /** The call ended the bid or registered it, with the signature and for the reason each needs. */
  predicate BidMove(w: World, w': World, auth: set<Address>, call: Call, id: RoundId, bidder: Address) {
    var before, after := BidAt(w, id, bidder), BidAt(w', id, bidder);
    || after == before
    || (&& before.None? && bidder in auth && Admitted(w, w', id, bidder)
        && (call == RegisterBid(id, bidder) || (call.SubmitBid? && call.id == id && call.bidder == bidder)))
    || (&& before.Some? && before.value.active && after == Some(before.value.(active := false))
        && id in w.rounds && w.rounds[id].status.Open?
        && (|| (call.WithdrawBid? && call.id == id && call.bidder == bidder && bidder in auth)
            || (call == CloseRound(id) && !Live(w, w.rounds[id].config, bidder))))
  }

  /** Calls that leave every registration and every delegation as it is. */
  predicate LeavesBids(call: Call) {
    !call.RegisterBid? && !call.SubmitBid? && !call.WithdrawBid? && !call.CloseRound? && !call.Finalize?
  }

  lemma CreateAndOpenLeavesBids(w: World, config: RoundConfig, accepts: bool)
    requires CreateAndOpen(w, config, accepts).Success?
    ensures
      var w' := CreateAndOpen(w, config, accepts).value;
      w'.bids == w.bids && w'.delegations == w.delegations
  {
    var id, created := NewRoundId(w, config), Create(w, config).value;
    var funded := Fund(created, id).value;
    FundLeavesBids(created, id);
    RegisterLeavesBids(funded, id, accepts);
  }

  lemma FundLeavesBids(w: World, id: RoundId)
    requires Fund(w, id).Success?
    ensures Fund(w, id).value.bids == w.bids && Fund(w, id).value.delegations == w.delegations
  {
  }

  lemma RegisterLeavesBids(w: World, id: RoundId, accepts: bool)
    requires Register(w, id, accepts).Success?
    ensures Register(w, id, accepts).value.bids == w.bids
    ensures Register(w, id, accepts).value.delegations == w.delegations
  {
  }

  lemma OtherCallsLeaveBids(o: Oracle, w: World, call: Call)
    requires LeavesBids(call) && Perform(o, w, call).Success?
    ensures Perform(o, w, call).value.bids == w.bids && Perform(o, w, call).value.delegations == w.delegations
  {
    match call
    case FundRound(id) => FundLeavesBids(w, id);
    case RegisterController(id, accepts) => RegisterLeavesBids(w, id, accepts);
    case CreateAndOpenRound(config, accepts) => CreateAndOpenLeavesBids(w, config, accepts);
    case _ =>
  }

  lemma CloseMovesBid(w: World, id: RoundId, j: RoundId, bidder: Address)
    requires RoundOk(w, id) && Close(w, id).Success?
    ensures
      var w' := Close(w, id).value;
      && w'.delegations == w.delegations
      && (BidAt(w', j, bidder) == BidAt(w, j, bidder)
          || (&& j == id && BidAt(w, id, bidder).Some? && BidAt(w, id, bidder).value.active
              && !Live(w, w.rounds[id].config, bidder)
              && BidAt(w', id, bidder) == Some(BidAt(w, id, bidder).value.(active := false))))
  {
    CloseShape(w, id);
    DroppedMembers(w, id, w.rounds[id].config, w.books[id]);
  }

  lemma FinalizedLeavesBids(
    o: Oracle, w: World, id: RoundId, winnerIndex: U32, proof: Proof, data: TransferData)
    requires Finalized(o, w, id, winnerIndex, proof, data).Success?
    ensures Finalized(o, w, id, winnerIndex, proof, data).value.bids == w.bids
  {
    FinalizedShape(o, w, id, winnerIndex, proof, data);
  }

  lemma SubmittedRound(w: World, id: RoundId, bidder: Address, amount: int, data: SpenderData)
    requires Inv(w) && Submit(w, id, bidder, amount, data).Success?
    ensures RoundOk(w, id)
  {
    SubmitDelegatesThenAdds(w, id, bidder, amount, data);
    assert RoundOk(w, id);
  }

  lemma RegisterMovesBid(o: Oracle, w: World, auth: set<Address>, call: Call, id: RoundId, bidder: Address)
    requires call.RegisterBid? && Inv(w) && Execute(o, w, auth, call).Success?
    ensures BidMove(w, Execute(o, w, auth, call).value, auth, call, id, bidder)
  {
    assert RoundOk(w, call.id);
    AddBidAdmits(w, call.id, call.bidder);
  }

  lemma SubmitMovesBid(o: Oracle, w: World, auth: set<Address>, call: Call, id: RoundId, bidder: Address)
    requires call.SubmitBid? && Inv(w) && Execute(o, w, auth, call).Success?
    ensures BidMove(w, Execute(o, w, auth, call).value, auth, call, id, bidder)
  {
    SubmittedRound(w, call.id, call.bidder, call.depositAmount, call.data);
    SubmitDelegates(w, call.id, call.bidder, call.depositAmount, call.data);
  }

  /**
   * A bid belongs to its bidder: it is registered and withdrawn only with the
   * bidder's signature, and otherwise ends only at the close, for want of a
   * delegation that lives long enough.
   */
  lemma BidsMove(o: Oracle, w: World, auth: set<Address>, call: Call, id: RoundId, bidder: Address)
    requires Inv(w) && Execute(o, w, auth, call).Success?
    ensures BidMove(w, Execute(o, w, auth, call).value, auth, call, id, bidder)
  {
    match call
    case RegisterBid(j, b) => RegisterMovesBid(o, w, auth, call, id, bidder);
    case SubmitBid(j, b, amount, data) => SubmitMovesBid(o, w, auth, call, id, bidder);
    case WithdrawBid(j, b, accepted) => WithdrawRevokes(w, j, b, accepted);
    case CloseRound(j) =>
      assert RoundOk(w, j);
      CloseMovesBid(w, j, id, bidder);
    case Finalize(j, winnerIndex, proof, data) => FinalizedLeavesBids(o, w, j, winnerIndex, proof, data);
    case _ => OtherCallsLeaveBids(o, w, call);
  }

  /** What the call did to one entry of the token, with the signature and for the reason it needs. */
  predicate DelegationMove(w: World, w': World, auth: set<Address>, call: Call, key: DelegationKey) {
    var before, after := DelegationAt(w, key), DelegationAt(w', key);
    || after == before
    || (&& call.SubmitBid? && call.bidder in auth && call.id in w.rounds
        && key == KeyOf(w.rounds[call.id].config, call.bidder)
        && after == Some(Delegation(call.data.allowance, w.rounds[call.id].config.settlementDeadline)))
    || (&& call.WithdrawBid? && call.bidder in auth && call.id in w.rounds
        && key == KeyOf(w.rounds[call.id].config, call.bidder) && after.None?)
    || (&& call.Finalize? && call.id in w.rounds && w.rounds[call.id].status.Closed? && before.Some?
        && call.winnerIndex < |LoadBook(w.books, call.id)| && call.transfer.Transfer?
        && key == KeyOf(w.rounds[call.id].config, LoadBook(w.books, call.id)[call.winnerIndex])
        && after == Some(before.value.(allowanceCommitment := call.transfer.nextAllowance)))
  }

  lemma FinalizedMovesDelegation(
    o: Oracle, w: World, id: RoundId, winnerIndex: U32, proof: Proof, data: TransferData)
    requires RoundOk(w, id) && Finalized(o, w, id, winnerIndex, proof, data).Success?
    ensures w.rounds[id].status.Closed? && winnerIndex < |LoadBook(w.books, id)| && data.Transfer?
    ensures
      var w' := Finalized(o, w, id, winnerIndex, proof, data).value;
      var key := KeyOf(w.rounds[id].config, LoadBook(w.books, id)[winnerIndex]);
      && DelegationAt(w, key).Some?
      && DelegationAt(w', key)
         == Some(DelegationAt(w, key).value.(allowanceCommitment := data.nextAllowance))
      && forall other: DelegationKey | other != key :: DelegationAt(w', other) == DelegationAt(w, other)
  {
  }

  lemma SubmitMovesDelegation(o: Oracle, w: World, auth: set<Address>, call: Call, key: DelegationKey)
    requires call.SubmitBid? && Inv(w) && Execute(o, w, auth, call).Success?
    ensures DelegationMove(w, Execute(o, w, auth, call).value, auth, call, key)
  {
    SubmittedRound(w, call.id, call.bidder, call.depositAmount, call.data);
    SubmitDelegates(w, call.id, call.bidder, call.depositAmount, call.data);
  }

  /** A delegation changes only by its bidder's own bid or withdrawal, or as the winner's at settlement. */
  lemma DelegationsMove(o: Oracle, w: World, auth: set<Address>, call: Call, key: DelegationKey)
    requires Inv(w) && Execute(o, w, auth, call).Success?
    ensures DelegationMove(w, Execute(o, w, auth, call).value, auth, call, key)
  {
    match call
    case RegisterBid(j, b) =>
      assert RoundOk(w, j);
      AddBidAdmits(w, j, b);
    case SubmitBid(j, b, amount, data) => SubmitMovesDelegation(o, w, auth, call, key);
    case WithdrawBid(j, b, accepted) => WithdrawRevokes(w, j, b, accepted);
    case CloseRound(j) =>
      assert RoundOk(w, j);
      CloseMovesBid(w, j, j, 0);
    case Finalize(j, winnerIndex, proof, data) =>
      FinalizedShape(o, w, j, winnerIndex, proof, data);
      assert RoundOk(w, j);
      FinalizedMovesDelegation(o, w, j, winnerIndex, proof, data);
    case _ => OtherCallsLeaveBids(o, w, call);
  }

  // From the bid to the statement.

  /** The delegation is there, unchanged, in every state of the run. */
  ghost predicate Undisturbed(o: Oracle, w: World, steps: seq<Step>, key: DelegationKey, d: Delegation)
    decreases |steps|
  {
    && DelegationAt(w, key) == Some(d)
    && (|steps| > 0 ==> Undisturbed(o, Next(o, w, steps[0]), steps[1..], key, d))
  }

  /** The bid is active while the book is open, and on the list once it is frozen. */
  predicate BidStands(w: World, id: RoundId, bidder: Address) {
    && id in w.rounds
    && ((w.rounds[id].status.Open? && Active(w.bids, id, bidder))
        || (Frozen(w.rounds[id]) && bidder in LoadBook(w.books, id)))
  }

  lemma OpenBidStands(o: Oracle, w: World, auth: set<Address>, call: Call, id: RoundId, bidder: Address)
    requires Inv(w) && id in w.rounds && w.rounds[id].status.Open? && Active(w.bids, id, bidder)
    requires Live(w, w.rounds[id].config, bidder) && Execute(o, w, auth, call).Success? && w.market !in auth
    requires IsSpender(Execute(o, w, auth, call).value, w.rounds[id].config, bidder)
    ensures BidStands(Execute(o, w, auth, call).value, id, bidder)
  {
    var w' := Execute(o, w, auth, call).value;
    assert RoundOk(w, id);
    BidsMove(o, w, auth, call, id, bidder);
    StatusTransitions(o, w, auth, call, id);
    if call == CloseRound(id) {
      ClosedBookMembers(w, id);
    } else if call.WithdrawBid? && call.id == id && call.bidder == bidder {
      WithdrawRevokes(w, id, bidder, call.revokeAccepted);
    }
  }

  lemma BidKeepsStanding(o: Oracle, w: World, step: Step, id: RoundId, bidder: Address, d: Delegation)
    requires Inv(w) && Legal(w, step) && BidStands(w, id, bidder)
    requires d.liveUntil >= w.rounds[id].config.settlementDeadline
    requires DelegationAt(w, KeyOf(w.rounds[id].config, bidder)) == Some(d)
    requires DelegationAt(Next(o, w, step), KeyOf(w.rounds[id].config, bidder)) == Some(d)
    ensures BidStands(Next(o, w, step), id, bidder)
    ensures Next(o, w, step).rounds[id].config == w.rounds[id].config
  {
    var w' := Next(o, w, step);
    StepKeeps(o, w, step);
    assert RoundAdvances(w, w', id);
    if w.rounds[id].status.Open? && step.Invoke? && Execute(o, w, step.auth, step.call).Success? {
      OpenBidStands(o, w, step.auth, step.call, id, bidder);
    }
  }

  lemma {:induction false} BidStandsAlong(
    o: Oracle, w: World, steps: seq<Step>, id: RoundId, bidder: Address, d: Delegation)
    requires Inv(w) && LegalRun(o, w, steps) && BidStands(w, id, bidder)
    requires d.liveUntil >= w.rounds[id].config.settlementDeadline
    requires Undisturbed(o, w, steps, KeyOf(w.rounds[id].config, bidder), d)
    ensures
      var w' := Run(o, w, steps);
      && BidStands(w', id, bidder) && w'.rounds[id].config == w.rounds[id].config
      && DelegationAt(w', KeyOf(w.rounds[id].config, bidder)) == Some(d)
    decreases |steps|
  {
    if |steps| > 0 {
      BidKeepsStanding(o, w, steps[0], id, bidder, d);
      StepKeeps(o, w, steps[0]);
      BidStandsAlong(o, Next(o, w, steps[0]), steps[1..], id, bidder, d);
    }
  }

  /**
   * From the bid to the statement. A bid that was submitted, and whose delegation
   * nobody changes, is on the closed round's list exactly once, and the statement
   * carries in its slot the very commitment that the bidder submitted.
   */
  lemma SubmittedBidIsStated(
    o: Oracle, w: World, id: RoundId, bidder: Address, amount: int, data: SpenderData, steps: seq<Step>,
    winnerIndex: U32, transfer: TransferData)
    requires Reachable(o, w) && bidder != w.market && Submit(w, id, bidder, amount, data).Success?
    requires
      var c, bid := w.rounds[id].config, Submit(w, id, bidder, amount, data).value;
      && LegalRun(o, bid, steps)
      && Undisturbed(o, bid, steps, KeyOf(c, bidder), Delegation(data.allowance, c.settlementDeadline))
    requires
      var closed := Run(o, Submit(w, id, bidder, amount, data).value, steps);
      && id in closed.rounds && closed.rounds[id].status.Closed?
      && PublicTerms(o, closed, closed.rounds[id], winnerIndex, transfer).Success?
    ensures
      var closed := Run(o, Submit(w, id, bidder, amount, data).value, steps);
      var book, t := LoadBook(closed.books, id), PublicTerms(o, closed, closed.rounds[id], winnerIndex, transfer).value;
      && |t.slots| == |book| && NoDuplicates(book)
      && exists i :: 0 <= i < |book| && book[i] == bidder && t.slots[i] == data.allowance
  {
    var bid := Submit(w, id, bidder, amount, data).value;
    var closed := Run(o, bid, steps);
    ReachableIsSolvent(o, w);
    SubmittedRound(w, id, bidder, amount, data);
    SubmitDelegates(w, id, bidder, amount, data);
    SubmitKeeps(w, id, bidder, amount, data);
    BidStandsAlong(o, bid, steps, id, bidder, Delegation(data.allowance, w.rounds[id].config.settlementDeadline));
    RunKeeps(o, bid, steps);
    StandingBidIsStated(o, closed, id, bidder, data.allowance, winnerIndex, transfer);
  }

  lemma StandingBidIsStated(
    o: Oracle, w: World, id: RoundId, bidder: Address, allowance: PointBytes, winnerIndex: U32, transfer: TransferData)
    requires Inv(w) && id in w.rounds && w.rounds[id].status.Closed? && bidder in LoadBook(w.books, id)
    requires DelegationAt(w, KeyOf(w.rounds[id].config, bidder)).Some?
    requires DelegationAt(w, KeyOf(w.rounds[id].config, bidder)).value.allowanceCommitment == allowance
    requires PublicTerms(o, w, w.rounds[id], winnerIndex, transfer).Success?
    ensures
      var book, t := LoadBook(w.books, id), PublicTerms(o, w, w.rounds[id], winnerIndex, transfer).value;
      && |t.slots| == |book| && NoDuplicates(book)
      && exists i :: 0 <= i < |book| && book[i] == bidder && t.slots[i] == allowance
  {
    assert RoundOk(w, id);
    TermsShape(o, w, id, winnerIndex, transfer);
    var book := LoadBook(w.books, id);
    var i :| 0 <= i < |book| && book[i] == bidder;
    assert PublicTerms(o, w, w.rounds[id], winnerIndex, transfer).value.slots[i] == allowance;
  }
}
