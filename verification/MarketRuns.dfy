// Whole runs of the market: any number of rounds, any interleaving of calls
// with what bidders, donors and the passing of time do outside it.
module MarketRuns {
  import opened Prelude
  import opened Encoding
  import opened MarketTypes
  import opened MarketSpec
  import opened MarketInvariants
  import opened MarketSteps

  datatype Step = Invoke(auth: set<Address>, call: Call) | Environment(after: World)

  /**
   * What the rest of the ledger may do between two calls: time passes, delegations
   * come and go at will, tokens move between other holders or into the market,
   * controllers are deployed, eligibility changes. Only the market spends the
   * market's balance, and only the market registers its controllers.
   */
  ghost predicate EnvironmentMay(w: World, w': World) {
    && w'.market == w.market && w.ledger <= w'.ledger
    && w'.nextRound == w.nextRound && w'.rounds == w.rounds && w'.books == w.books && w'.bids == w.bids
    && w'.events == w.events && w'.payments == w.payments
    && (forall token: Address :: Balance(w'.balances, token, w.market) >= Balance(w.balances, token, w.market))
    && (forall at | at in w.controllers && w.controllers[at].market == w.market ::
          at in w'.controllers && w'.controllers[at] == w.controllers[at])
  }

  ghost predicate Legal(w: World, step: Step) {
    match step
    case Invoke(auth, _) => w.market !in auth
    case Environment(after) => EnvironmentMay(w, after)
  }

  /** A call that panics changes nothing. */
  function Next(o: Oracle, w: World, step: Step): World {
    match step
    case Invoke(auth, call) =>
      var r := Execute(o, w, auth, call);
      if r.Success? then r.value else w
    case Environment(after) => after
  }

  function Run(o: Oracle, w: World, steps: seq<Step>): World
    decreases |steps|
  {
    if |steps| == 0 then w else Run(o, Next(o, w, steps[0]), steps[1..])
  }

  ghost predicate LegalRun(o: Oracle, w: World, steps: seq<Step>)
    decreases |steps|
  {
    |steps| == 0 || (Legal(w, steps[0]) && LegalRun(o, Next(o, w, steps[0]), steps[1..]))
  }

  /** What one outside step added to the market's balance. */
  function Donated(w: World, step: Step, token: Address): int {
    if step.Environment? then Balance(step.after.balances, token, w.market) - Balance(w.balances, token, w.market)
    else 0
  }

  /** What outsiders sent to the market along a run, in one token. */
  function Donations(o: Oracle, w: World, steps: seq<Step>, token: Address): int
    decreases |steps|
  {
    if |steps| == 0 then 0
    else Donated(w, steps[0], token) + Donations(o, Next(o, w, steps[0]), steps[1..], token)
  }

  predicate Genesis(w: World) {
    w.nextRound == 0 && w.rounds == map[] && w.books == map[] && w.bids == map[] && w.events == [] && w.payments == []
  }

  ghost predicate Reachable(o: Oracle, w: World) {
    exists w0, steps :: Genesis(w0) && LegalRun(o, w0, steps) && Run(o, w0, steps) == w
  }

  lemma EnvironmentKeepsRound(w: World, w': World, id: RoundId)
    requires RoundOk(w, id) && EnvironmentMay(w, w')
    ensures RoundOk(w', id)
  {
  }

  lemma EnvironmentKeeps(w: World, w': World)
    requires Inv(w) && EnvironmentMay(w, w')
    ensures Inv(w') && Later(w, w')
  {
    forall id | id in w.rounds
      ensures RoundOk(w', id)
    {
      EnvironmentKeepsRound(w, w', id);
    }
  }

  /** The market stays in order, moves on, and neither gains nor loses tokens it does not owe. */
  ghost predicate OrderlyMove(w: World, w': World) {
    Inv(w') && Later(w, w') && forall token: Address :: Surplus(w', token) == Surplus(w, token)
  }

  /** An invocation as the ledger sees it, carried out or rolled back. */
  lemma InvocationKeeps(o: Oracle, w: World, auth: set<Address>, call: Call)
    requires Inv(w) && w.market !in auth
    ensures
      var r := Execute(o, w, auth, call);
      OrderlyMove(w, if r.Success? then r.value else w)
  {
    StepKeeps(o, w, Invoke(auth, call));
  }

  lemma StepKeeps(o: Oracle, w: World, step: Step)
    requires Inv(w) && Legal(w, step)
    ensures Inv(Next(o, w, step)) && Later(w, Next(o, w, step))
    ensures forall token: Address ::
      Surplus(Next(o, w, step), token) == Surplus(w, token) + Donated(w, step, token)
  {
    match step
    case Invoke(auth, call) =>
      if Execute(o, w, auth, call).Success? { CallIsSound(o, w, auth, call); }
    case Environment(after) =>
      EnvironmentKeeps(w, after);
  }

  lemma {:induction false} RunKeeps(o: Oracle, w: World, steps: seq<Step>)
    requires Inv(w) && LegalRun(o, w, steps)
    ensures Inv(Run(o, w, steps)) && Later(w, Run(o, w, steps))
    decreases |steps|
  {
    if |steps| > 0 {
      var w' := Next(o, w, steps[0]);
      StepKeeps(o, w, steps[0]);
      RunKeeps(o, w', steps[1..]);
      LaterTransitive(w, w', Run(o, w', steps[1..]));
    }
  }

  lemma {:induction false} SurplusIsDonated(o: Oracle, w: World, steps: seq<Step>, token: Address)
    requires Inv(w) && LegalRun(o, w, steps)
    ensures Surplus(Run(o, w, steps), token) == Surplus(w, token) + Donations(o, w, steps, token)
    decreases |steps|
  {
    if |steps| > 0 {
      StepKeeps(o, w, steps[0]);
      SurplusIsDonated(o, Next(o, w, steps[0]), steps[1..], token);
    }
  }

  lemma {:induction false} DonationsNonNegative(o: Oracle, w: World, steps: seq<Step>, token: Address)
    requires LegalRun(o, w, steps)
    ensures Donations(o, w, steps, token) >= 0
    decreases |steps|
  {
    if |steps| > 0 {
      DonationsNonNegative(o, Next(o, w, steps[0]), steps[1..], token);
    }
  }

  /**
   * Escrow conservation. Over every run, in every token, the market holds
   * exactly what it owes to all rounds together, plus what it started with and
   * was given.
   */
  lemma EscrowConserved(o: Oracle, w0: World, steps: seq<Step>, token: Address)
    requires Genesis(w0) && LegalRun(o, w0, steps)
    ensures
      var w := Run(o, w0, steps);
      && Balance(w.balances, token, w.market)
         == TotalOwed(w.rounds, token) + Balance(w0.balances, token, w.market) + Donations(o, w0, steps, token)
      && Balance(w.balances, token, w.market) >= TotalOwed(w.rounds, token) >= 0
  {
    assert Inv(w0);
    RunKeeps(o, w0, steps);
    DonationsNonNegative(o, w0, steps, token);
    SurplusIsDonated(o, w0, steps, token);
    OwedNonNegative(Run(o, w0, steps), token);
  }

  lemma LotsArePositive(w: World)
    requires Inv(w)
    ensures forall id | id in w.rounds :: w.rounds[id].config.rwaLot > 0
  {
    forall id | id in w.rounds ensures w.rounds[id].config.rwaLot > 0 {
      assert RoundOk(w, id);
    }
  }

  lemma OwedNonNegative(w: World, token: Address)
    requires Inv(w)
    ensures TotalOwed(w.rounds, token) >= 0
  {
    LotsArePositive(w);
    if w.rounds != map[] { TotalOwedCovers(w.rounds, Pick(w.rounds), token); }
  }

  /** Every reachable market is in order and solvent. */
  lemma ReachableIsSolvent(o: Oracle, w: World)
    requires Reachable(o, w)
    ensures Inv(w)
    ensures forall token: Address :: Surplus(w, token) >= 0
  {
    var w0, steps :| Genesis(w0) && LegalRun(o, w0, steps) && Run(o, w0, steps) == w;
    assert Inv(w0);
    RunKeeps(o, w0, steps);
    forall token: Address
      ensures Surplus(w, token) >= 0
    {
      EscrowConserved(o, w0, steps, token);
    }
  }

  lemma ReachableRound(o: Oracle, w: World, id: RoundId)
    requires Reachable(o, w) && id in w.rounds
    ensures RoundOk(w, id)
  {
    ReachableIsSolvent(o, w);
  }

  lemma {:induction false} RunThenStep(o: Oracle, w: World, steps: seq<Step>, step: Step)
    requires LegalRun(o, w, steps) && Legal(Run(o, w, steps), step)
    ensures LegalRun(o, w, steps + [step]) && Run(o, w, steps + [step]) == Next(o, Run(o, w, steps), step)
    decreases |steps|
  {
    if |steps| == 0 {
      assert (steps + [step])[1..] == [];
    } else {
      assert (steps + [step])[1..] == steps[1..] + [step];
      RunThenStep(o, Next(o, w, steps[0]), steps[1..], step);
    }
  }

  lemma ReachableStep(o: Oracle, w: World, step: Step)
    requires Reachable(o, w) && Legal(w, step)
    ensures Reachable(o, Next(o, w, step))
  {
    var w0, steps :| Genesis(w0) && LegalRun(o, w0, steps) && Run(o, w0, steps) == w;
    RunThenStep(o, w0, steps, step);
  }

  predicate Held(w: World, id: RoundId) {
    id in w.rounds && w.rounds[id].rwaEscrowed && !w.rounds[id].rwaReclaimed && !w.rounds[id].status.Settled?
  }

  /** The lot of a held round is there, whatever the other rounds did. */
  lemma HeldLotIsThere(o: Oracle, w: World, id: RoundId)
    requires Reachable(o, w) && Held(w, id)
    ensures Balance(w.balances, w.rounds[id].config.rwaToken, w.market) >= w.rounds[id].config.rwaLot > 0
  {
    ReachableIsSolvent(o, w);
    var token := w.rounds[id].config.rwaToken;
    LotsArePositive(w);
    TotalOwedCovers(w.rounds, id, token);
    assert Surplus(w, token) >= 0;
  }

  /** Ids never collide: a new round's id is not in use, on any run. */
  lemma NewRoundNeverCollides(o: Oracle, w: World, config: RoundConfig)
    requires Reachable(o, w)
    ensures NewRoundId(w, config) !in w.rounds
  {
    ReachableIsSolvent(o, w);
    NewIdIsFresh(w, config);
  }

  lemma FinalizeNeeds(
    o: Oracle, w: World, id: RoundId, auth: set<Address>, winnerIndex: U32, proof: Proof, data: TransferData)
    requires Execute(o, w, auth, Finalize(id, winnerIndex, proof, data)).Success?
    ensures id in w.rounds && w.rounds[id].status.Closed?
    ensures w.ledger <= w.rounds[id].config.settlementDeadline && |LoadBook(w.books, id)| > 0
  {
  }

  lemma NoSaleNeeds(o: Oracle, w: World, id: RoundId, auth: set<Address>)
    requires RoundOk(w, id) && w.rounds[id].status.Closed?
    requires w.ledger <= w.rounds[id].config.settlementDeadline && |LoadBook(w.books, id)| > 0
    ensures Execute(o, w, auth, MarkNoSale(id)).Failure?
  {
  }

  /** Two calls that would give one lot to two parties are never both available. */
  lemma FinalizeExcludesNoSale(
    o: Oracle, w: World, id: RoundId, auth: set<Address>, auth': set<Address>,
    winnerIndex: U32, proof: Proof, data: TransferData)
    requires Reachable(o, w)
    requires Execute(o, w, auth, Finalize(id, winnerIndex, proof, data)).Success?
    ensures Execute(o, w, auth', MarkNoSale(id)).Failure?
  {
    FinalizeNeeds(o, w, id, auth, winnerIndex, proof, data);
    ReachableIsSolvent(o, w);
    NoSaleNeeds(o, w, id, auth');
  }
}
