// When each call of a reachable market succeeds: the conditions a caller can
// check beforehand, and no others. Guards that never fail are not among them.
module MarketEnabling {
  import opened Prelude
  import opened Encoding
  import opened MarketTypes
  import opened MarketSpec
  import opened MarketInvariants
  import opened MarketSteps
  import opened MarketRuns
  import opened MarketRecovery
  import opened Settlement
  import opened MarketAccess

  /** The controller a configuration asks for, before or after it is registered. */
  function ControllerFor(market: Address, c: RoundConfig, registered: bool): Controller {
    Controller(market, c.confidentialToken, c.issuer, c.settlementDeadline, registered)
  }

  function ControllerAt(w: World, at: Address): Option<Controller> {
    if at in w.controllers then Some(w.controllers[at]) else None
  }

  predicate TermsInOrder(c: RoundConfig, ledger: nat) {
    c.rwaLot > 0 && c.reservePublic >= 0 && ledger < c.bidDeadline < c.settlementDeadline
  }

  /** A bidder that may be admitted now, delegation apart. */
  predicate Admissible(w: World, id: RoundId, bidder: Address) {
    && id in w.rounds && w.rounds[id].status.Open? && w.ledger <= w.rounds[id].config.bidDeadline
    && BidAt(w, id, bidder).None? && |LoadBook(w.books, id)| < 3
    && (w.rounds[id].config.eligibilityPolicy, bidder, w.rounds[id].config.confidentialToken) in w.eligible
  }

  lemma CreateExactly(w: World, config: RoundConfig)
    ensures Create(w, config).Success? <==> TermsInOrder(config, w.ledger)
    ensures Create(w, config).Success? ==>
      var w', id := Create(w, config).value, RoundDigest(w.market, w.nextRound, config);
      && w'.nextRound == w.nextRound + 1
      && w'.rounds == w.rounds[id := Round(id, config, Draft, 0, None, None, None, false, false)]
      && w'.books == w.books[id := []] && w'.bids == w.bids && w'.balances == w.balances
      && w'.controllers == w.controllers && w'.delegations == w.delegations && w'.ledger == w.ledger
  {
  }

  lemma FundExactly(w: World, id: RoundId)
    requires RoundOk(w, id)
    ensures
      var r := w.rounds[id];
      Fund(w, id).Success? <==>
        r.status.Draft? && !r.rwaEscrowed && Balance(w.balances, r.config.rwaToken, r.config.issuer) >= r.config.rwaLot
  {
  }

  lemma RegisterExactly(w: World, id: RoundId, accepts: bool)
    requires RoundOk(w, id)
    ensures
      var r := w.rounds[id];
      Register(w, id, accepts).Success? <==>
        && r.status.Draft? && accepts
        && ControllerAt(w, r.config.controller) == Some(ControllerFor(w.market, r.config, false))
    ensures Register(w, id, accepts).Success? ==>
      var w', c := Register(w, id, accepts).value, w.rounds[id].config;
      w' == w.(controllers := w.controllers[c.controller := ControllerFor(w.market, c, true)])
  {
  }

  /** On a solvent market the escrowed lot is always there. */
  lemma OpenBookExactly(w: World, id: RoundId)
    requires Solvent(w) && id in w.rounds
    ensures
      var r := w.rounds[id];
      OpenBook(w, id).Success? <==>
        && r.status.Draft? && r.rwaEscrowed && w.ledger <= r.config.bidDeadline
        && ControllerAt(w, r.config.controller) == Some(ControllerFor(w.market, r.config, true))
  {
    assert RoundOk(w, id);
    if Held(w, id) { SolventHoldsLot(w, id); }
  }

  /** A round is created, funded and opened in one call exactly when its terms, issuer and controller are ready. */
  lemma CreateAndOpenExactly(w: World, config: RoundConfig, accepts: bool)
    requires Solvent(w) && config.issuer != w.market
    ensures CreateAndOpen(w, config, accepts).Success? <==>
      && TermsInOrder(config, w.ledger)
      && Balance(w.balances, config.rwaToken, config.issuer) >= config.rwaLot
      && ControllerAt(w, config.controller) == Some(ControllerFor(w.market, config, false)) && accepts
  {
    CreateExactly(w, config);
    if Create(w, config).Success? {
      var id, created := NewRoundId(w, config), Create(w, config).value;
      CreateKeeps(w, config);
      SoundIsSolvent(w, created);
      assert RoundOk(created, id);
      FundExactly(created, id);
      if Fund(created, id).Success? {
        var funded := Fund(created, id).value;
        FundKeeps(created, id);
        SoundIsSolvent(created, funded);
        FundedStaysDraft(created, id);
        assert RoundOk(funded, id);
        RegisterExactly(funded, id, accepts);
        if Register(funded, id, accepts).Success? {
          var registered := Register(funded, id, accepts).value;
          RegisterKeeps(funded, id, accepts);
          SoundIsSolvent(funded, registered);
          OpenBookExactly(registered, id);
        }
      }
    }
  }

  lemma SoundIsSolvent(w: World, w': World)
    requires Solvent(w) && Sound(w, w')
    ensures Solvent(w')
  {
  }

  lemma FundedStaysDraft(w: World, id: RoundId)
    requires RoundOk(w, id) && Fund(w, id).Success?
    ensures
      var w' := Fund(w, id).value;
      && w'.ledger == w.ledger && w'.market == w.market && w'.controllers == w.controllers
      && w.rounds[id].status.Draft? && w'.rounds == w.rounds[id := w.rounds[id].(rwaEscrowed := true)]
  {
  }

  /** A bid is submitted exactly when its bidder is admissible and the token accepts deposit and delegation. */
  lemma SubmitExactly(w: World, id: RoundId, bidder: Address, amount: int, data: SpenderData)
    ensures Submit(w, id, bidder, amount, data).Success? <==>
      && Admissible(w, id, bidder) && amount >= 0
      && (amount > 0 ==> data.depositAccepted) && data.spenderAccepted
  {
    if Admissible(w, id, bidder) {
      var c := w.rounds[id].config;
      AdmittedExactly(Delegated(w, c, bidder, data.allowance), id, bidder);
    }
  }

  /** A bid is withdrawn exactly while it is active and the bid window is open; the count never stands in the way. */
  lemma WithdrawExactly(w: World, id: RoundId, bidder: Address, accepted: bool)
    requires Inv(w) && id in w.rounds
    ensures
      var r := w.rounds[id];
      Withdraw(w, id, bidder, accepted).Success? <==>
        && r.status.Open? && w.ledger <= r.config.bidDeadline
        && BidAt(w, id, bidder).Some? && BidAt(w, id, bidder).value.active
        && (DelegationAt(w, KeyOf(r.config, bidder)).Some? ==> accepted)
  {
    assert RoundOk(w, id);
    WithdrawNeverUnderflows(w, id, bidder, accepted);
  }

  /** Closing needs only the deadline: every entry of the list is registered. */
  lemma CloseExactly(w: World, id: RoundId)
    requires RoundOk(w, id)
    ensures Close(w, id).Success? <==> w.rounds[id].status.Open? && w.ledger > w.rounds[id].config.bidDeadline
  {
    BookIsRegistered(w, id);
  }

  lemma CancelExactly(w: World, id: RoundId)
    requires RoundOk(w, id)
    ensures Cancel(w, id).Success? <==> w.rounds[id].status.Draft?
  {
  }

  /** No sale is available exactly on a closed round that is empty, or past its settlement deadline. */
  lemma NoSaleExactly(w: World, id: RoundId)
    requires RoundOk(w, id)
    ensures NoSale(w, id).Success? <==>
      && w.rounds[id].status.Closed?
      && (w.books[id] == [] || w.ledger > w.rounds[id].config.settlementDeadline)
  {
  }

  /** A lot is reclaimed exactly once, from a failed or cancelled round; it is always there to be paid. */
  lemma ReclaimExactly(w: World, id: RoundId)
    requires Solvent(w) && id in w.rounds
    ensures
      var r := w.rounds[id];
      Reclaim(w, id).Success? <==>
        (r.status.Failed? || r.status.Cancelled?) && r.rwaEscrowed && !r.rwaReclaimed
  {
    assert RoundOk(w, id);
    if Held(w, id) { SolventHoldsLot(w, id); }
  }

  /** Who has to sign: the issuer for its round, the bidder for its bid, nobody to close and to finalize. */
  predicate Signed(w: World, auth: set<Address>, call: Call) {
    match call
    case CreateRound(config) => config.issuer in auth
    case CreateAndOpenRound(config, _) => config.issuer in auth
    case RegisterBid(_, bidder) => bidder in auth
    case SubmitBid(_, bidder, _, _) => bidder in auth
    case WithdrawBid(_, bidder, _) => bidder in auth
    case CloseRound(_) => true
    case Finalize(_, _, _, _) => true
    case FundRound(id) => id in w.rounds && w.rounds[id].config.issuer in auth
    case RegisterController(id, _) => id in w.rounds && w.rounds[id].config.issuer in auth
    case OpenRound(id) => id in w.rounds && w.rounds[id].config.issuer in auth
    case CancelRound(id) => id in w.rounds && w.rounds[id].config.issuer in auth
    case MarkNoSale(id) => id in w.rounds && w.rounds[id].config.issuer in auth
    case ReclaimRwa(id) => id in w.rounds && w.rounds[id].config.issuer in auth
  }

  /** What each call needs of the ledger, its signatures apart. */
  ghost predicate Ready(o: Oracle, w: World, call: Call) {
    match call
    case CreateRound(config) => TermsInOrder(config, w.ledger)
    case CreateAndOpenRound(config, accepts) =>
      && TermsInOrder(config, w.ledger) && accepts
      && Balance(w.balances, config.rwaToken, config.issuer) >= config.rwaLot
      && ControllerAt(w, config.controller) == Some(ControllerFor(w.market, config, false))
    case SubmitBid(id, bidder, amount, data) =>
      && Admissible(w, id, bidder) && amount >= 0
      && (amount > 0 ==> data.depositAccepted) && data.spenderAccepted
    case _ => call.id in w.rounds && RoundReady(o, w, call)
  }

  ghost predicate RoundReady(o: Oracle, w: World, call: Call)
    requires !call.CreateRound? && !call.CreateAndOpenRound? && call.id in w.rounds
  {
    var r := w.rounds[call.id];
    match call
    case FundRound(_) =>
      r.status.Draft? && !r.rwaEscrowed && Balance(w.balances, r.config.rwaToken, r.config.issuer) >= r.config.rwaLot
    case RegisterController(_, accepts) =>
      r.status.Draft? && accepts
      && ControllerAt(w, r.config.controller) == Some(ControllerFor(w.market, r.config, false))
    case OpenRound(_) =>
      && r.status.Draft? && r.rwaEscrowed && w.ledger <= r.config.bidDeadline
      && ControllerAt(w, r.config.controller) == Some(ControllerFor(w.market, r.config, true))
    case RegisterBid(id, bidder) =>
      && Admissible(w, id, bidder) && DelegationAt(w, KeyOf(r.config, bidder)).Some?
      && DelegationAt(w, KeyOf(r.config, bidder)).value.liveUntil >= r.config.settlementDeadline
    case WithdrawBid(id, bidder, accepted) =>
      && r.status.Open? && w.ledger <= r.config.bidDeadline
      && BidAt(w, id, bidder).Some? && BidAt(w, id, bidder).value.active
      && (DelegationAt(w, KeyOf(r.config, bidder)).Some? ==> accepted)
    case CloseRound(_) => r.status.Open? && w.ledger > r.config.bidDeadline
    case CancelRound(_) => r.status.Draft?
    case MarkNoSale(id) =>
      r.status.Closed? && (LoadBook(w.books, id) == [] || w.ledger > r.config.settlementDeadline)
    case ReclaimRwa(_) => (r.status.Failed? || r.status.Cancelled?) && r.rwaEscrowed && !r.rwaReclaimed
    case Finalize(id, winnerIndex, proof, data) =>
      var book, inputs := LoadBook(w.books, id), PublicInputBytes(o, w, r, winnerIndex, data);
      && r.status.Closed? && w.ledger <= r.config.settlementDeadline && winnerIndex < |book|
      && AllDelegated(w, r.config, book, |book|) && data.Transfer? && data.accepted
      && inputs.Success? && o.verify(r.config.maxBidVerifier, inputs.value, proof)
    case _ => false
  }

  lemma SignaturesExactly(o: Oracle, w: World, auth: set<Address>, call: Call)
    ensures Execute(o, w, auth, call).Success? <==> Signed(w, auth, call) && Perform(o, w, call).Success?
  {
  }

  lemma RoundCallExactly(o: Oracle, w: World, call: Call)
    requires Reachable(o, w) && !call.CreateRound? && !call.CreateAndOpenRound? && !call.SubmitBid?
    requires call.id in w.rounds
    ensures Perform(o, w, call).Success? <==> RoundReady(o, w, call)
  {
    ReachableIsSolvent(o, w);
    assert RoundOk(w, call.id);
    match call
    case FundRound(id) => FundExactly(w, id);
    case RegisterController(id, accepts) => RegisterExactly(w, id, accepts);
    case OpenRound(id) => OpenBookExactly(w, id);
    case RegisterBid(id, bidder) => AdmittedExactly(w, id, bidder);
    case WithdrawBid(id, bidder, accepted) => WithdrawExactly(w, id, bidder, accepted);
    case CloseRound(id) => CloseExactly(w, id);
    case CancelRound(id) => CancelExactly(w, id);
    case MarkNoSale(id) => NoSaleExactly(w, id);
    case ReclaimRwa(id) => ReclaimExactly(w, id);
    case Finalize(id, winnerIndex, proof, data) => FinalizedReady(o, w, id, winnerIndex, proof, data);
  }

  lemma FinalizedReady(o: Oracle, w: World, id: RoundId, winnerIndex: U32, proof: Proof, data: TransferData)
    requires Reachable(o, w) && id in w.rounds
    ensures Finalized(o, w, id, winnerIndex, proof, data).Success?
            <==> RoundReady(o, w, Finalize(id, winnerIndex, proof, data))
  {
    if w.rounds[id].status.Closed? { FinalizeExactly(o, w, id, winnerIndex, proof, data); }
  }

  /**
   * Every call, on every reachable market: it succeeds exactly when those who must
   * have signed and the round, the clock and the tokens are as the call needs them.
   */
  lemma CallsExactly(o: Oracle, w: World, auth: set<Address>, call: Call)
    requires Reachable(o, w) && w.market !in auth
    ensures Execute(o, w, auth, call).Success? <==> Signed(w, auth, call) && Ready(o, w, call)
  {
    SignaturesExactly(o, w, auth, call);
    ReachableIsSolvent(o, w);
    if Signed(w, auth, call) {
      match call
      case CreateRound(config) => CreateExactly(w, config);
      case CreateAndOpenRound(config, accepts) => CreateAndOpenExactly(w, config, accepts);
      case SubmitBid(id, bidder, amount, data) => SubmitExactly(w, id, bidder, amount, data);
      case _ => if call.id in w.rounds { RoundCallExactly(o, w, call); }
    }
  }
}
