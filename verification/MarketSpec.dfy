// What every entry point of the market does to the ledger: a fault, or the new
// ledger. A fault leaves no trace, because a panicking invocation is rolled back.
module MarketSpec {
  import opened Prelude
  import opened Encoding
  import opened Statement
  import opened MarketTypes

  function LoadRound(w: World, id: RoundId): Result<Round, Fault> {
    if id in w.rounds then Success(w.rounds[id]) else Failure(RoundNotFound)
  }

  function LoadBook(books: Books, id: RoundId): seq<Address> {
    if id in books then books[id] else []
  }

  function SaveRound(w: World, r: Round): World {
    w.(rounds := w.rounds[r.id := r])
  }

  function Publish(w: World, e: Event): World {
    w.(events := w.events + [Logged(w.market, w.ledger, e)])
  }

  function TransferRwa(w: World, token: Address, from: Address, to: Address, amount: int): Result<World, Fault> {
    if 0 <= amount <= Balance(w.balances, token, from)
    then Success(w.(balances := Moved(w.balances, token, from, to, amount)))
    else Failure(TokenRefused)
  }

  predicate ValidConfig(config: RoundConfig, ledger: nat) {
    && config.rwaLot > 0
    && config.reservePublic >= 0
    && config.bidDeadline > ledger
    && config.settlementDeadline > config.bidDeadline
  }

  /** sha256((current contract, counter, config)) */
  function NewRoundId(w: World, config: RoundConfig): RoundId {
    RoundDigest(w.market, w.nextRound, config)
  }

  function FreshRound(id: RoundId, config: RoundConfig): Round {
    Round(id, config, Draft, 0, None, None, None, false, false)
  }

  function Create(w: World, config: RoundConfig): Result<World, Fault> {
    var id := NewRoundId(w, config);
    :- Need(ValidConfig(config, w.ledger), InvalidRoundConfig);
    var w' := w.(nextRound := w.nextRound + 1,
                 rounds := w.rounds[id := FreshRound(id, config)],
                 books := w.books[id := []]);
    Success(Publish(w', RoundCreated(id, config.issuer, config)))
  }

  function Fund(w: World, id: RoundId): Result<World, Fault> {
    var r :- LoadRound(w, id);
    :- Need(r.status.Draft?, RoundNotDraft);
    :- Need(!r.rwaEscrowed, RwaEscrowInsufficient);
    var w' :- TransferRwa(w, r.config.rwaToken, r.config.issuer, w.market, r.config.rwaLot);
    Success(SaveRound(Publish(w', RwaFunded(id, r.config.rwaLot)), r.(rwaEscrowed := true)))
  }

  /** controller_configuration_matches, on a deployed controller. */
  predicate ControllerMatches(market: Address, c: Controller, config: RoundConfig, registered: bool) {
    c == Controller(market, config.confidentialToken, config.issuer, config.settlementDeadline, registered)
  }

  /** RoundController::register, called by the market. */
  function ControllerRegister(w: World, at: Address, tokenAccepts: bool): Result<World, Fault> {
    var deployed := at in w.controllers;
    :- Need(deployed, ContractMissing);
    var c := w.controllers[at];
    :- Need(c.market == w.market, Unauthorized);
    :- Need(!c.registered, AlreadyRegistered);
    :- Need(tokenAccepts, TokenRefused);
    Success(w.(controllers := w.controllers[at := c.(registered := true)]))
  }

  function Register(w: World, id: RoundId, tokenAccepts: bool): Result<World, Fault> {
    var r :- LoadRound(w, id);
    :- Need(r.status.Draft?, RoundNotDraft);
    :- Need(r.config.controller in w.controllers, ContractMissing);
    :- Need(ControllerMatches(w.market, w.controllers[r.config.controller], r.config, false),
            ControllerConfigurationMismatch);
    var w' :- ControllerRegister(w, r.config.controller, tokenAccepts);
    :- Need(ControllerMatches(w.market, w'.controllers[r.config.controller], r.config, true),
            ControllerConfigurationMismatch);
    Success(w')
  }

  function OpenBook(w: World, id: RoundId): Result<World, Fault> {
    var r :- LoadRound(w, id);
    :- Need(r.status.Draft?, RoundNotDraft);
    :- Need(w.ledger <= r.config.bidDeadline, BidDeadlinePassed);
    :- Need(r.rwaEscrowed && Balance(w.balances, r.config.rwaToken, w.market) >= r.config.rwaLot,
            RwaEscrowInsufficient);
    :- Need(r.config.controller in w.controllers, ContractMissing);
    :- Need(ControllerMatches(w.market, w.controllers[r.config.controller], r.config, true),
            ControllerConfigurationMismatch);
    Success(SaveRound(Publish(w, RoundOpened(id)), r.(status := Open)))
  }

  function CreateAndOpen(w: World, config: RoundConfig, tokenAccepts: bool): Result<World, Fault> {
    var id := NewRoundId(w, config);
    var created :- Create(w, config);
    var funded :- Fund(created, id);
    var registered :- Register(funded, id, tokenAccepts);
    OpenBook(registered, id)
  }

  predicate IsSpender(w: World, config: RoundConfig, bidder: Address) {
    (config.confidentialToken, bidder, config.controller) in w.delegations
  }

  function DelegationOf(w: World, config: RoundConfig, bidder: Address): Delegation
    requires IsSpender(w, config, bidder)
  {
    w.delegations[(config.confidentialToken, bidder, config.controller)]
  }

  /** Delegated to the round's controller through the settlement deadline. */
  predicate Live(w: World, config: RoundConfig, bidder: Address) {
    IsSpender(w, config, bidder) && DelegationOf(w, config, bidder).liveUntil >= config.settlementDeadline
  }

  function ValidateCandidate(w: World, id: RoundId, bidder: Address): Result<Round, Fault> {
    var r :- LoadRound(w, id);
    :- Need(r.status.Open?, RoundNotOpen);
    :- Need(w.ledger <= r.config.bidDeadline, BidDeadlinePassed);
    :- Need((id, bidder) !in w.bids, BidAlreadyRegistered);
    :- Need(|LoadBook(w.books, id)| < MAX_BIDDERS, BidCapacityReached);
    :- Need((r.config.eligibilityPolicy, bidder, r.config.confidentialToken) in w.eligible, InvestorNotAuthorized);
    Success(r)
  }

  function AddBid(w: World, id: RoundId, bidder: Address): Result<World, Fault> {
    var r :- ValidateCandidate(w, id, bidder);
    :- Need(IsSpender(w, r.config, bidder), DelegationNotFound);
    :- Need(Live(w, r.config, bidder), DelegationExpired);
    var book := LoadBook(w.books, id);
    var registration := BidRegistration(id, bidder, |book|, w.ledger, true);
    var w' := w.(bids := w.bids[(id, bidder) := registration], books := w.books[id := book + [bidder]]);
    Success(SaveRound(Publish(w', BidRegistered(id, bidder, |book|)), r.(bidderCount := r.bidderCount + 1)))
  }

  function Submit(w: World, id: RoundId, bidder: Address, depositAmount: int, data: SpenderData): Result<World, Fault> {
    var deposits := depositAmount > 0;
    :- Need(depositAmount >= 0, InvalidDepositAmount);
    var r :- ValidateCandidate(w, id, bidder);
    :- Need(deposits ==> data.depositAccepted, TokenRefused);
    :- Need(data.spenderAccepted, TokenRefused);
    AddBid(Delegated(w, r.config, bidder, data.allowance), id, bidder)
  }

  /** token.set_spender with the settlement deadline as its expiry. */
  function Delegated(w: World, config: RoundConfig, bidder: Address, allowance: PointBytes): World {
    w.(delegations := w.delegations[(config.confidentialToken, bidder, config.controller) :=
                                      Delegation(allowance, config.settlementDeadline)])
  }

  function Withdraw(w: World, id: RoundId, bidder: Address, revokeAccepted: bool): Result<World, Fault> {
    var r :- LoadRound(w, id);
    :- Need(r.status.Open?, RoundNotOpen);
    :- Need(w.ledger <= r.config.bidDeadline, BidDeadlinePassed);
    :- Need((id, bidder) in w.bids, BidNotRegistered);
    :- Need(w.bids[(id, bidder)].active, BidNotActive);
    :- Need(IsSpender(w, r.config, bidder) ==> revokeAccepted, TokenRefused);
    :- Need(r.bidderCount > 0, CountUnderflow);
    var w' := w.(delegations := w.delegations - {(r.config.confidentialToken, bidder, r.config.controller)},
                 bids := w.bids[(id, bidder) := w.bids[(id, bidder)].(active := false)]);
    Success(SaveRound(Publish(w', BidWithdrawn(id, bidder)), r.(bidderCount := r.bidderCount - 1)))
  }

  predicate Active(bids: Bids, id: RoundId, bidder: Address) {
    (id, bidder) in bids && bids[(id, bidder)].active
  }

  /** The active, live bidders of a list, in its order. */
  function Kept(w: World, id: RoundId, config: RoundConfig, book: seq<Address>): seq<Address> {
    if |book| == 0 then []
    else
      var last := book[|book| - 1];
      var front := Kept(w, id, config, book[..|book| - 1]);
      if Active(w.bids, id, last) && Live(w, config, last) then front + [last] else front
  }

  /** The active bidders of a list whose delegation is gone or too short, each once, in its order. */
  function Dropped(w: World, id: RoundId, config: RoundConfig, book: seq<Address>): seq<Address> {
    if |book| == 0 then []
    else
      var last := book[|book| - 1];
      var front := Dropped(w, id, config, book[..|book| - 1]);
      if Active(w.bids, id, last) && !Live(w, config, last) && last !in front then front + [last] else front
  }

  /** Every registration of the round held by one of the bidders becomes inactive. */
  function Deactivated(bids: Bids, id: RoundId, bidders: seq<Address>): Bids {
    map k | k in bids :: if k.0 == id && k.1 in bidders then bids[k].(active := false) else bids[k]
  }

  function Withdrawals(market: Address, ledger: nat, id: RoundId, bidders: seq<Address>): (es: seq<Logged>)
    ensures |es| == |bidders|
  {
    seq(|bidders|, i requires 0 <= i < |bidders| => Logged(market, ledger, BidWithdrawn(id, bidders[i])))
  }

  predicate AllRegistered(bids: Bids, id: RoundId, bidders: seq<Address>) {
    forall b | b in bidders :: (id, b) in bids
  }

  function Close(w: World, id: RoundId): Result<World, Fault> {
    var r :- LoadRound(w, id);
    :- Need(r.status.Open?, RoundNotOpen);
    :- Need(w.ledger > r.config.bidDeadline, BidDeadlineNotReached);
    var book := LoadBook(w.books, id);
    :- Need(AllRegistered(w.bids, id, book), BidNotRegistered);
    var kept := Kept(w, id, r.config, book);
    var dropped := Dropped(w, id, r.config, book);
    var hash := BookDigest(id, kept);
    var w' := w.(bids := Deactivated(w.bids, id, dropped),
                 books := w.books[id := kept],
                 events := w.events + Withdrawals(w.market, w.ledger, id, dropped));
    Success(SaveRound(Publish(w', RoundClosed(id, |kept|, hash)),
                      r.(status := Closed, bidderCount := |kept|, participantSetHash := Some(hash))))
  }

  function Cancel(w: World, id: RoundId): Result<World, Fault> {
    var r :- LoadRound(w, id);
    :- Need(r.status.Draft?, RoundNotDraft);
    Success(SaveRound(w, r.(status := Cancelled)))
  }

  function NoSale(w: World, id: RoundId): Result<World, Fault> {
    var r :- LoadRound(w, id);
    :- Need(r.status.Closed?, RoundNotClosed);
    :- Need(r.bidderCount == 0 || w.ledger > r.config.settlementDeadline, NoSaleNotAvailable);
    Success(SaveRound(Publish(w, RoundFailed(id, if r.bidderCount == 0 then 0 else 1)), r.(status := Failed)))
  }

  function Reclaim(w: World, id: RoundId): Result<World, Fault> {
    var r :- LoadRound(w, id);
    :- Need(r.status.Failed? || r.status.Cancelled?, InvalidFailureTransition);
    :- Need(r.rwaEscrowed && !r.rwaReclaimed, RwaAlreadyReclaimed);
    var w' :- TransferRwa(w, r.config.rwaToken, w.market, r.config.issuer, r.config.rwaLot);
    Success(SaveRound(Publish(w', RwaReclaimed(id, r.config.issuer, r.config.rwaLot)),
                      r.(rwaReclaimed := true, status := Cancelled)))
  }

  /** The delegated commitments of the first n frozen bidders. */
  function Slots(w: World, config: RoundConfig, book: seq<Address>, n: nat): Result<seq<PointBytes>, Fault> {
    if n == 0 then Success([])
    else
      var front :- Slots(w, config, book, n - 1);
      :- Need(n - 1 < |book|, WinnerIndexInvalid);
      :- Need(IsSpender(w, config, book[n - 1]), DelegationNotFound);
      Success(front + [DelegationOf(w, config, book[n - 1]).allowanceCommitment])
  }

  function Min(a: nat, b: nat): nat {
    if a < b then a else b
  }

  /** What build_max_bid_public_inputs encodes, or why it refuses. */
  function PublicTerms(o: Oracle, w: World, r: Round, winnerIndex: U32, data: TransferData): Result<Terms, Fault> {
    var count := Min(r.bidderCount, MAX_BIDDERS);
    :- Need(winnerIndex < r.bidderCount, WinnerIndexInvalid);
    :- Need(r.participantSetHash.Some?, RoundNotClosed);
    var domain := ClearTop(o.domainHash(w.market, r.id, r.config, r.participantSetHash.value));
    var slots :- Slots(w, r.config, LoadBook(w.books, r.id), count);
    :- Need(data.Transfer?, DecodeFailed);
    Success(Terms(domain, slots, r.config.reservePublic, winnerIndex, data.cTransfer))
  }

  lemma {:induction false} SlotsLength(w: World, config: RoundConfig, book: seq<Address>, n: nat)
    requires Slots(w, config, book, n).Success?
    ensures |Slots(w, config, book, n).value| == n <= |book|
    ensures forall i | 0 <= i < n ::
      && IsSpender(w, config, book[i])
      && Slots(w, config, book, n).value[i] == DelegationOf(w, config, book[i]).allowanceCommitment
  {
    if n > 0 {
      SlotsLength(w, config, book, n - 1);
    }
  }

  function PublicInputBytes(o: Oracle, w: World, r: Round, winnerIndex: U32, data: TransferData): Result<Bytes, Fault> {
    var t :- PublicTerms(o, w, r, winnerIndex, data);
    SlotsLength(w, r.config, LoadBook(w.books, r.id), Min(r.bidderCount, MAX_BIDDERS));
    Success(StatementBytes(t))
  }

  /** RoundController::settle, called by the market: the token moves the bidder's delegated amount to the issuer. */
  function ControllerSettle(w: World, at: Address, from: Address, data: TransferData): Result<World, Fault> {
    var deployed := at in w.controllers;
    :- Need(deployed, ContractMissing);
    var c := w.controllers[at];
    :- Need(c.market == w.market, Unauthorized);
    :- Need(c.registered, NotRegistered);
    :- Need(w.ledger <= c.deadline, ControllerDeadlinePassed);
    var key := (c.token, from, at);
    :- Need(data.Transfer? && data.accepted && key in w.delegations, TokenRefused);
    Success(w.(delegations := w.delegations[key := w.delegations[key].(allowanceCommitment := data.nextAllowance)],
               payments := w.payments + [Payment(c.token, at, from, c.issuer, data)]))
  }

  function Finalized(o: Oracle, w: World, id: RoundId, winnerIndex: U32, proof: Proof, data: TransferData)
    : Result<World, Fault>
  {
    var r :- LoadRound(w, id);
    :- Need(!r.status.Settled?, RoundAlreadySettled);
    :- Need(r.status.Closed?, RoundNotClosed);
    :- Need(w.ledger <= r.config.settlementDeadline, SettlementDeadlinePassed);
    var book := LoadBook(w.books, id);
    :- Need(winnerIndex < |book|, WinnerIndexInvalid);
    var winner := book[winnerIndex];
    var inputs :- PublicInputBytes(o, w, r, winnerIndex, data);
    :- Need(o.verify(r.config.maxBidVerifier, inputs, proof), MaxProofInvalid);
    var paid :- ControllerSettle(w, r.config.controller, winner, data);
    var delivered :- TransferRwa(paid, r.config.rwaToken, w.market, winner, r.config.rwaLot);
    var hash := ProofDigest(proof);
    var proven := Publish(delivered, WinnerProven(id, winner, hash, r.participantSetHash.value));
    var w' := Publish(proven, RoundSettled(id, winner, hash));
    Success(SaveRound(w', r.(status := Settled, winner := Some(winner), proofHash := Some(hash))))
  }

  /** Whose authorization a call needs; None for the calls anyone may make. */
  function Signer(w: World, call: Call): Result<Option<Address>, Fault> {
    match call
    case CreateRound(config) => Success(Some(config.issuer))
    case CreateAndOpenRound(config, _) => Success(Some(config.issuer))
    case RegisterBid(_, bidder) => Success(Some(bidder))
    case SubmitBid(_, bidder, _, _) => Success(Some(bidder))
    case WithdrawBid(_, bidder, _) => Success(Some(bidder))
    case CloseRound(_) => Success(None)
    case Finalize(_, _, _, _) => Success(None)
    case _ =>
      var r :- LoadRound(w, call.id);
      Success(Some(r.config.issuer))
  }

  function Perform(o: Oracle, w: World, call: Call): Result<World, Fault> {
    match call
    case CreateRound(config) => Create(w, config)
    case CreateAndOpenRound(config, accepts) => CreateAndOpen(w, config, accepts)
    case FundRound(id) => Fund(w, id)
    case RegisterController(id, accepts) => Register(w, id, accepts)
    case OpenRound(id) => OpenBook(w, id)
    case RegisterBid(id, bidder) => AddBid(w, id, bidder)
    case SubmitBid(id, bidder, amount, data) => Submit(w, id, bidder, amount, data)
    case WithdrawBid(id, bidder, accepted) => Withdraw(w, id, bidder, accepted)
    case CloseRound(id) => Close(w, id)
    case CancelRound(id) => Cancel(w, id)
    case MarkNoSale(id) => NoSale(w, id)
    case ReclaimRwa(id) => Reclaim(w, id)
    case Finalize(id, winnerIndex, proof, data) => Finalized(o, w, id, winnerIndex, proof, data)
  }

  /** One invocation, signed by the addresses in auth. */
  function Execute(o: Oracle, w: World, auth: set<Address>, call: Call): Result<World, Fault> {
    var signer :- Signer(w, call);
    :- Need(signer.Some? ==> signer.value in auth, Unauthorized);
    Perform(o, w, call)
  }
}
