// Several markets on one ledger: what one market does is, to every other, the
// kind of thing its environment may do, so each behaves as if it were alone.
module SharedLedger {
  import opened Prelude
  import opened Encoding
  import opened MarketTypes
  import opened MarketSpec
  import opened MarketInvariants
  import opened MarketSteps
  import opened MarketRuns

  /** Markets by address, each with its own storage and its view of what all of them share. */
  type Markets = map<Address, World>

  /** Every market is at its own address and in a state its contract can reach. */
  ghost predicate AllReachable(o: Oracle, markets: Markets) {
    forall m | m in markets :: markets[m].market == m && Reachable(o, markets[m])
  }

  /** A market's storage, on the ledger as another market's call left it. */
  function Seen(w: World, shared: World): World {
    w.(ledger := shared.ledger, balances := shared.balances, delegations := shared.delegations,
       controllers := shared.controllers, eligible := shared.eligible)
  }

  predicate OneLedger(markets: Markets) {
    forall m, n | m in markets && n in markets :: Seen(markets[m], markets[n]) == markets[m]
  }

  /** One market's call, as all of them see it. */
  function JointCall(o: Oracle, markets: Markets, m: Address, auth: set<Address>, call: Call): Markets
    requires m in markets
  {
    var r := Execute(o, markets[m], auth, call);
    if r.Failure? then markets
    else map n | n in markets :: if n == m then r.value else Seen(markets[n], r.value)
  }

  /** Nothing leaves this holder's balances, and the controllers that serve it stay as they are. */
  ghost predicate SparesHolder(w: World, w': World, holder: Address) {
    && w.ledger <= w'.ledger
    && (forall token: Address :: Balance(w'.balances, token, holder) >= Balance(w.balances, token, holder))
    && (forall at | at in w.controllers && w.controllers[at].market == holder ::
          at in w'.controllers && w'.controllers[at] == w.controllers[at])
  }

  lemma TransferSpares(
    b: Balances, token: Address, from: Address, to: Address, amount: nat, holder: Address)
    requires from != holder && Balance(b, token, from) >= amount
    ensures forall t: Address :: Balance(Moved(b, token, from, to, amount), t, holder) >= Balance(b, t, holder)
  {
  }

  lemma FundSpares(w: World, id: RoundId, holder: Address)
    requires Fund(w, id).Success? && id in w.rounds && w.rounds[id].config.issuer != holder
    ensures SparesHolder(w, Fund(w, id).value, holder)
  {
    var c := w.rounds[id].config;
    TransferSpares(w.balances, c.rwaToken, c.issuer, w.market, c.rwaLot, holder);
  }

  lemma RegisterSpares(w: World, id: RoundId, accepts: bool, holder: Address)
    requires Register(w, id, accepts).Success? && w.market != holder
    ensures SparesHolder(w, Register(w, id, accepts).value, holder)
  {
  }

  lemma OpenBookSpares(w: World, id: RoundId, holder: Address)
    requires OpenBook(w, id).Success?
    ensures SparesHolder(w, OpenBook(w, id).value, holder)
  {
  }

  lemma CreateAndOpenSpares(w: World, config: RoundConfig, accepts: bool, holder: Address)
    requires CreateAndOpen(w, config, accepts).Success? && config.issuer != holder && w.market != holder
    ensures SparesHolder(w, CreateAndOpen(w, config, accepts).value, holder)
  {
    var id, created := NewRoundId(w, config), Create(w, config).value;
    FundSpares(created, id, holder);
    var funded := Fund(created, id).value;
    RegisterSpares(funded, id, accepts, holder);
    OpenBookSpares(Register(funded, id, accepts).value, id, holder);
  }

  lemma ReclaimSpares(w: World, id: RoundId, holder: Address)
    requires Reclaim(w, id).Success? && w.market != holder
    ensures SparesHolder(w, Reclaim(w, id).value, holder)
  {
    var c := w.rounds[id].config;
    TransferSpares(w.balances, c.rwaToken, w.market, c.issuer, c.rwaLot, holder);
  }

  lemma FinalizedSpares(
    o: Oracle, w: World, id: RoundId, winnerIndex: U32, proof: Proof, data: TransferData, holder: Address)
    requires Finalized(o, w, id, winnerIndex, proof, data).Success? && w.market != holder
    ensures SparesHolder(w, Finalized(o, w, id, winnerIndex, proof, data).value, holder)
  {
    FinalizedShape(o, w, id, winnerIndex, proof, data);
    var c := w.rounds[id].config;
    TransferSpares(w.balances, c.rwaToken, w.market, LoadBook(w.books, id)[winnerIndex], c.rwaLot, holder);
  }

  /** The call moves no tokens and no controllers. */
  predicate MovesNothing(w: World, w': World) {
    w'.ledger == w.ledger && w'.balances == w.balances && w'.controllers == w.controllers
  }

  lemma CreateMovesNothing(w: World, config: RoundConfig)
    requires Create(w, config).Success?
    ensures MovesNothing(w, Create(w, config).value)
  {
  }

  lemma AddBidMovesNothing(w: World, id: RoundId, bidder: Address)
    requires AddBid(w, id, bidder).Success?
    ensures MovesNothing(w, AddBid(w, id, bidder).value)
  {
  }

  lemma WithdrawMovesNothing(w: World, id: RoundId, bidder: Address, accepted: bool)
    requires Withdraw(w, id, bidder, accepted).Success?
    ensures MovesNothing(w, Withdraw(w, id, bidder, accepted).value)
  {
  }

  lemma CloseMovesNothing(w: World, id: RoundId)
    requires Close(w, id).Success?
    ensures MovesNothing(w, Close(w, id).value)
  {
  }

  lemma QuietCallSpares(o: Oracle, w: World, call: Call, holder: Address)
    requires Perform(o, w, call).Success?
    requires call.CreateRound? || call.RegisterBid? || call.SubmitBid? || call.WithdrawBid? || call.CloseRound?
             || call.CancelRound? || call.MarkNoSale?
    ensures SparesHolder(w, Perform(o, w, call).value, holder)
  {
    match call
    case CreateRound(config) => CreateMovesNothing(w, config);
    case RegisterBid(id, bidder) => AddBidMovesNothing(w, id, bidder);
    case SubmitBid(id, bidder, amount, data) =>
      SubmitDelegatesThenAdds(w, id, bidder, amount, data);
      AddBidMovesNothing(Delegated(w, w.rounds[id].config, bidder, data.allowance), id, bidder);
    case WithdrawBid(id, bidder, accepted) => WithdrawMovesNothing(w, id, bidder, accepted);
    case CloseRound(id) => CloseMovesNothing(w, id);
    case CancelRound(id) =>
    case MarkNoSale(id) =>
  }

  /** A call of one market leaves another market's balance and controllers alone, unless that market signed it. */
  lemma CallSparesOthers(o: Oracle, w: World, auth: set<Address>, call: Call, holder: Address)
    requires Execute(o, w, auth, call).Success? && w.market != holder && holder !in auth
    ensures SparesHolder(w, Execute(o, w, auth, call).value, holder)
  {
    match call
    case FundRound(id) => FundSpares(w, id, holder);
    case CreateAndOpenRound(config, accepts) => CreateAndOpenSpares(w, config, accepts, holder);
    case RegisterController(id, accepts) => RegisterSpares(w, id, accepts, holder);
    case OpenRound(id) => OpenBookSpares(w, id, holder);
    case ReclaimRwa(id) => ReclaimSpares(w, id, holder);
    case Finalize(id, winnerIndex, proof, data) => FinalizedSpares(o, w, id, winnerIndex, proof, data, holder);
    case _ => QuietCallSpares(o, w, call, holder);
  }

  /** To every other market on the ledger, a market's call is a legal step of the environment. */
  lemma OtherMarketIsEnvironment(o: Oracle, w: World, other: World, auth: set<Address>, call: Call)
    requires Seen(w, other) == w && w.market != other.market && w.market !in auth
    requires Execute(o, other, auth, call).Success?
    ensures Legal(w, Environment(Seen(w, Execute(o, other, auth, call).value)))
  {
    CallSparesOthers(o, other, auth, call, w.market);
  }

  lemma InvocationKeepsMarket(o: Oracle, w: World, auth: set<Address>, call: Call)
    requires Reachable(o, w) && w.market !in auth && Execute(o, w, auth, call).Success?
    ensures Execute(o, w, auth, call).value.market == w.market
  {
    ReachableIsSolvent(o, w);
    InvocationKeeps(o, w, auth, call);
  }

  /** After a joint call, each market is where its own step took it. */
  lemma JointCallReaches(o: Oracle, markets: Markets, m: Address, auth: set<Address>, call: Call, n: Address)
    requires m in markets && n in markets && markets[m].market == m && markets[n].market == n
    requires Reachable(o, markets[m]) && Reachable(o, markets[n]) && m !in auth && n !in auth
    requires Seen(markets[n], markets[m]) == markets[n] && Execute(o, markets[m], auth, call).Success?
    ensures
      var after := JointCall(o, markets, m, auth, call);
      n in after && after[n].market == n && Reachable(o, after[n])
  {
    if n == m {
      ReachableStep(o, markets[m], Invoke(auth, call));
      InvocationKeepsMarket(o, markets[m], auth, call);
    } else {
      OtherMarketIsEnvironment(o, markets[n], markets[m], auth, call);
      ReachableStep(o, markets[n], Environment(Seen(markets[n], Execute(o, markets[m], auth, call).value)));
    }
  }

  lemma JointCallShares(o: Oracle, markets: Markets, m: Address, auth: set<Address>, call: Call)
    requires m in markets && Execute(o, markets[m], auth, call).Success?
    ensures OneLedger(JointCall(o, markets, m, auth, call))
  {
    var after, v := JointCall(o, markets, m, auth, call), Execute(o, markets[m], auth, call).value;
    forall n | n in after ensures Seen(after[n], v) == after[n] && Seen(v, after[n]) == v {}
  }

  /**
   * Markets do not disturb each other: a call of one of them, signed by none of
   * them, leaves every market on the same ledger in a state its contract reaches
   * on its own, so whatever holds of one reachable market holds of each.
   */
  lemma MarketsShareLedger(o: Oracle, markets: Markets, m: Address, auth: set<Address>, call: Call)
    requires AllReachable(o, markets) && OneLedger(markets) && m in markets && markets.Keys !! auth
    ensures
      var after := JointCall(o, markets, m, auth, call);
      AllReachable(o, after) && OneLedger(after)
  {
    if Execute(o, markets[m], auth, call).Success? {
      JointCallShares(o, markets, m, auth, call);
      forall n | n in markets
        ensures
          var after := JointCall(o, markets, m, auth, call);
          n in after && after[n].market == n && Reachable(o, after[n])
      {
        assert Seen(markets[n], markets[m]) == markets[n];
        JointCallReaches(o, markets, m, auth, call, n);
      }
    }
  }
}
