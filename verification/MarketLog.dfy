// The market's event log tells the truth: every event it ever published is
// borne out by the ledger, then and for good.
module MarketLog {
  import opened Prelude
  import opened Encoding
  import opened MarketTypes
  import opened MarketSpec
  import opened MarketInvariants
  import opened MarketSteps
  import opened MarketRuns
  import opened MarketTransitions
  import opened MarketAccess
  import opened MarketEnabling

  /** What an event says of the ledger, payload and all. */
  predicate BorneOut(w: World, e: Event, ledger: nat)
    requires e.roundId in w.rounds
  {
    var (id, r) := (e.roundId, w.rounds[e.roundId]);
    match e
    case RoundCreated(_, issuer, config) => issuer == r.config.issuer && config == r.config
    case RwaFunded(_, amount) => r.rwaEscrowed && amount == r.config.rwaLot
    case RoundOpened(_) => !r.status.Draft?
    case BidRegistered(_, bidder, index) =>
      var bid := BidAt(w, id, bidder);
      bid.Some? && bid.value.registrationIndex == index && bid.value.registeredLedger == ledger
    case BidWithdrawn(_, bidder) => BidAt(w, id, bidder).Some? && !BidAt(w, id, bidder).value.active
    case RoundClosed(_, count, hash) =>
      Frozen(r) && count == |LoadBook(w.books, id)| && hash == BookDigest(id, LoadBook(w.books, id))
    case RoundFailed(_, reason) =>
      && (r.status.Failed? || r.status.Cancelled?) && Frozen(r)
      && reason == (if LoadBook(w.books, id) == [] then 0 else 1)
    case RwaReclaimed(_, issuer, amount) =>
      r.rwaReclaimed && issuer == r.config.issuer && amount == r.config.rwaLot
    case WinnerProven(_, winner, proof, hash) =>
      && r.status.Settled? && r.winner == Some(winner) && r.proofHash == Some(proof)
      && hash == BookDigest(id, LoadBook(w.books, id))
    case RoundSettled(_, winner, proof) => r.status.Settled? && r.winner == Some(winner) && r.proofHash == Some(proof)
  }

  predicate Truthful(w: World, l: Logged) {
    l.contract == w.market && l.ledger <= w.ledger && l.event.roundId in w.rounds && BorneOut(w, l.event, l.ledger)
  }

  predicate AllTruthful(w: World) {
    forall i | 0 <= i < |w.events| :: Truthful(w, w.events[i])
  }

  predicate NewTruthful(w: World, w': World) {
    w.events <= w'.events && forall i | |w.events| <= i < |w'.events| :: Truthful(w', w'.events[i])
  }

  /** What, besides the forward march of a round, keeps its events true. */
  predicate RecordStays(r: Round, r': Round) {
    && (r.status.Settled? ==> r'.proofHash == r.proofHash)
    && (r.status.Failed? || r.status.Cancelled? ==> r'.status.Failed? || r'.status.Cancelled?)
    && (Frozen(r) ==> Frozen(r'))
  }

  predicate RecordsStay(w: World, w': World) {
    forall j | j in w.rounds :: j in w'.rounds && RecordStays(w.rounds[j], w'.rounds[j])
  }

  ghost predicate BidsStay(w: World, w': World) {
    forall id: RoundId, bidder: Address :: BidStays(w, w', id, bidder)
  }

  predicate BidStays(w: World, w': World, id: RoundId, bidder: Address) {
    var before, after := BidAt(w, id, bidder), BidAt(w', id, bidder);
    before.Some? ==> after.Some? && (after == before || after.value == before.value.(active := false))
  }

  /** Once true, always true. */
  lemma TruthStays(w: World, w': World, l: Logged)
    requires Truthful(w, l) && Later(w, w') && RecordsStay(w, w') && BidsStay(w, w')
    ensures Truthful(w', l)
  {
    var id := l.event.roundId;
    assert RoundAdvances(w, w', id);
    if l.event.BidRegistered? || l.event.BidWithdrawn? { assert BidStays(w, w', id, l.event.bidder); }
  }

  lemma LogStaysTruthful(w: World, w': World)
    requires AllTruthful(w) && NewTruthful(w, w') && Later(w, w') && RecordsStay(w, w') && BidsStay(w, w')
    ensures AllTruthful(w')
  {
    forall i | 0 <= i < |w'.events|
      ensures Truthful(w', w'.events[i])
    {
      if i < |w.events| { TruthStays(w, w', w.events[i]); }
    }
  }

  // The new events of each call.

  lemma CreateTruthful(w: World, config: RoundConfig)
    requires Create(w, config).Success?
    ensures NewTruthful(w, Create(w, config).value)
  {
  }

  lemma CreateAndOpenShape(w: World, config: RoundConfig, accepts: bool)
    requires CreateAndOpen(w, config, accepts).Success?
    ensures
      var w', id := CreateAndOpen(w, config, accepts).value, NewRoundId(w, config);
      && w'.market == w.market && w'.ledger == w.ledger
      && w'.rounds == w.rounds[id := FreshRound(id, config).(status := Open, rwaEscrowed := true)]
      && w'.events == w.events
           + [Logged(w.market, w.ledger, RoundCreated(id, config.issuer, config))]
           + [Logged(w.market, w.ledger, RwaFunded(id, config.rwaLot))]
           + [Logged(w.market, w.ledger, RoundOpened(id))]
  {
    var id, created := NewRoundId(w, config), Create(w, config).value;
    var funded := Fund(created, id).value;
    FundShape(created, id);
    RegisterPublishesNothing(funded, id, accepts);
    OpenBookShape(Register(funded, id, accepts).value, id);
  }

  lemma CreateAndOpenTruthful(w: World, config: RoundConfig, accepts: bool)
    requires CreateAndOpen(w, config, accepts).Success?
    ensures NewTruthful(w, CreateAndOpen(w, config, accepts).value)
  {
    CreateAndOpenShape(w, config, accepts);
    ThreeTruthful(w, CreateAndOpen(w, config, accepts).value, NewRoundId(w, config), config);
  }

  lemma ThreeTruthful(w: World, w': World, id: RoundId, config: RoundConfig)
    requires w'.market == w.market && w'.ledger == w.ledger && id in w'.rounds
    requires w'.rounds[id] == FreshRound(id, config).(status := Open, rwaEscrowed := true)
    requires w'.events == w.events
           + [Logged(w.market, w.ledger, RoundCreated(id, config.issuer, config))]
           + [Logged(w.market, w.ledger, RwaFunded(id, config.rwaLot))]
           + [Logged(w.market, w.ledger, RoundOpened(id))]
    ensures NewTruthful(w, w')
  {
  }

  lemma FundShape(w: World, id: RoundId)
    requires Fund(w, id).Success? && w.rounds[id].id == id
    ensures
      var w', r := Fund(w, id).value, w.rounds[id];
      && w'.market == w.market && w'.ledger == w.ledger
      && w'.rounds == w.rounds[id := r.(rwaEscrowed := true)]
      && w'.events == w.events + [Logged(w.market, w.ledger, RwaFunded(id, r.config.rwaLot))]
  {
  }

  lemma RegisterPublishesNothing(w: World, id: RoundId, accepts: bool)
    requires Register(w, id, accepts).Success?
    ensures
      var w' := Register(w, id, accepts).value;
      w'.market == w.market && w'.ledger == w.ledger && w'.rounds == w.rounds && w'.events == w.events
  {
  }

  lemma OpenBookShape(w: World, id: RoundId)
    requires OpenBook(w, id).Success? && w.rounds[id].id == id
    ensures
      var w' := OpenBook(w, id).value;
      && w'.market == w.market && w'.ledger == w.ledger
      && w'.rounds == w.rounds[id := w.rounds[id].(status := Open)]
      && w'.events == w.events + [Logged(w.market, w.ledger, RoundOpened(id))]
  {
  }

  lemma WithdrawShape(w: World, id: RoundId, bidder: Address, accepted: bool)
    requires Withdraw(w, id, bidder, accepted).Success? && w.rounds[id].id == id
    ensures
      var w' := Withdraw(w, id, bidder, accepted).value;
      && w'.market == w.market && w'.ledger == w.ledger
      && w'.rounds == w.rounds[id := w.rounds[id].(bidderCount := w.rounds[id].bidderCount - 1)]
      && BidAt(w', id, bidder).Some? && !BidAt(w', id, bidder).value.active
      && w'.events == w.events + [Logged(w.market, w.ledger, BidWithdrawn(id, bidder))]
  {
  }

  lemma CloseTruthful(w: World, id: RoundId)
    requires RoundOk(w, id) && Close(w, id).Success?
    ensures NewTruthful(w, Close(w, id).value)
  {
    var w', c, book := Close(w, id).value, w.rounds[id].config, w.books[id];
    var dropped := Dropped(w, id, c, book);
    CloseShape(w, id);
    DroppedMembers(w, id, c, book);
    forall i | |w.events| <= i < |w'.events|
      ensures Truthful(w', w'.events[i])
    {
      if i < |w.events| + |dropped| {
        var b := dropped[i - |w.events|];
        assert b in dropped;
        assert w'.events[i] == Logged(w.market, w.ledger, BidWithdrawn(id, b));
      }
    }
  }

  lemma NoSaleTruthful(w: World, id: RoundId)
    requires RoundOk(w, id) && NoSale(w, id).Success?
    ensures NewTruthful(w, NoSale(w, id).value)
  {
  }

  lemma ReclaimTruthful(w: World, id: RoundId)
    requires RoundOk(w, id) && Reclaim(w, id).Success?
    ensures NewTruthful(w, Reclaim(w, id).value)
  {
  }

  lemma FinalizedTruthful(o: Oracle, w: World, id: RoundId, winnerIndex: U32, proof: Proof, data: TransferData)
    requires RoundOk(w, id) && Finalized(o, w, id, winnerIndex, proof, data).Success?
    ensures NewTruthful(w, Finalized(o, w, id, winnerIndex, proof, data).value)
  {
    FinalizedShape(o, w, id, winnerIndex, proof, data);
  }

  /** A call that succeeds on a round was given one that exists. */
  lemma CalledRound(o: Oracle, w: World, call: Call)
    requires !CreatesRound(call) && Perform(o, w, call).Success?
    ensures call.id in w.rounds
  {
  }

  lemma AddBidTruthful(w: World, id: RoundId, bidder: Address)
    requires id in w.rounds && w.rounds[id].id == id && AddBid(w, id, bidder).Success?
    ensures NewTruthful(w, AddBid(w, id, bidder).value)
  {
    AddBidAdmits(w, id, bidder);
  }

  lemma BidCallTruthful(o: Oracle, w: World, call: Call)
    requires Inv(w) && Perform(o, w, call).Success?
    requires call.RegisterBid? || call.SubmitBid? || call.WithdrawBid?
    ensures NewTruthful(w, Perform(o, w, call).value)
  {
    CalledRound(o, w, call);
    assert RoundOk(w, call.id);
    match call
    case RegisterBid(id, bidder) => AddBidTruthful(w, id, bidder);
    case SubmitBid(id, bidder, amount, data) =>
      SubmitDelegatesThenAdds(w, id, bidder, amount, data);
      AddBidTruthful(Delegated(w, w.rounds[id].config, bidder, data.allowance), id, bidder);
    case WithdrawBid(id, bidder, accepted) =>
      WithdrawShape(w, id, bidder, accepted);
  }

  lemma IssuerCallTruthful(o: Oracle, w: World, call: Call)
    requires call.FundRound? || call.RegisterController? || call.OpenRound? || call.CancelRound?
    requires Perform(o, w, call).Success? && RoundOk(w, call.id)
    ensures NewTruthful(w, Perform(o, w, call).value)
  {
    match call
    case FundRound(id) => FundShape(w, id);
    case RegisterController(id, accepts) => RegisterPublishesNothing(w, id, accepts);
    case OpenRound(id) => OpenBookShape(w, id);
    case CancelRound(id) =>
  }

  lemma EndCallTruthful(o: Oracle, w: World, call: Call)
    requires call.CloseRound? || call.MarkNoSale? || call.ReclaimRwa? || call.Finalize?
    requires Perform(o, w, call).Success? && RoundOk(w, call.id)
    ensures NewTruthful(w, Perform(o, w, call).value)
  {
    match call
    case CloseRound(id) => CloseTruthful(w, id);
    case MarkNoSale(id) => NoSaleTruthful(w, id);
    case ReclaimRwa(id) => ReclaimTruthful(w, id);
    case Finalize(id, winnerIndex, proof, data) => FinalizedTruthful(o, w, id, winnerIndex, proof, data);
  }

  lemma CreationTruthful(o: Oracle, w: World, call: Call)
    requires CreatesRound(call) && Perform(o, w, call).Success?
    ensures NewTruthful(w, Perform(o, w, call).value)
  {
    match call
    case CreateRound(config) => CreateTruthful(w, config);
    case CreateAndOpenRound(config, accepts) => CreateAndOpenTruthful(w, config, accepts);
  }

  lemma CallTruthful(o: Oracle, w: World, call: Call)
    requires Inv(w) && Perform(o, w, call).Success?
    ensures NewTruthful(w, Perform(o, w, call).value)
  {
    if CreatesRound(call) {
      CreationTruthful(o, w, call);
    } else {
      CalledRound(o, w, call);
      assert RoundOk(w, call.id);
      if call.RegisterBid? || call.SubmitBid? || call.WithdrawBid? {
        BidCallTruthful(o, w, call);
      } else if call.FundRound? || call.RegisterController? || call.OpenRound? || call.CancelRound? {
        IssuerCallTruthful(o, w, call);
      } else {
        EndCallTruthful(o, w, call);
      }
    }
  }

  // Over every run.

  lemma SettledRefuses(o: Oracle, w: World, call: Call)
    requires !CreatesRound(call) && call.id in w.rounds && w.rounds[call.id].status.Settled?
    ensures Perform(o, w, call).Failure?
  {
    match call
    case SubmitBid(id, bidder, amount, data) => SubmitExactly(w, id, bidder, amount, data);
    case _ =>
  }

  /** No call touches the record of another round, or of a settled one. */
  lemma OthersUntouched(o: Oracle, w: World, call: Call, j: RoundId)
    requires Inv(w) && Perform(o, w, call).Success? && j in w.rounds
    requires CreatesRound(call) || call.id != j || w.rounds[j].status.Settled?
    ensures j in Perform(o, w, call).value.rounds && Perform(o, w, call).value.rounds[j] == w.rounds[j]
  {
    LoadedIds(w);
    if CreatesRound(call) {
      CreationMoves(o, w, call);
    } else if call.id == j {
      SettledRefuses(o, w, call);
    } else if TouchesBook(call) {
      BookCallMoves(o, w, call);
    } else {
      CallMoves(o, w, call);
    }
  }

  lemma CallKeepsRecords(o: Oracle, w: World, auth: set<Address>, call: Call)
    requires Inv(w) && Execute(o, w, auth, call).Success?
    ensures RecordsStay(w, Execute(o, w, auth, call).value)
  {
    var w' := Execute(o, w, auth, call).value;
    forall j | j in w.rounds
      ensures j in w'.rounds && RecordStays(w.rounds[j], w'.rounds[j])
    {
      CallKeepsRecord(o, w, auth, call, j);
    }
  }

  lemma CallKeepsRecord(o: Oracle, w: World, auth: set<Address>, call: Call, j: RoundId)
    requires Inv(w) && Execute(o, w, auth, call).Success? && j in w.rounds
    ensures j in Execute(o, w, auth, call).value.rounds
    ensures RecordStays(w.rounds[j], Execute(o, w, auth, call).value.rounds[j])
  {
    StatusTransitions(o, w, auth, call, j);
    if w.rounds[j].status.Settled? { OthersUntouched(o, w, call, j); }
  }

  lemma CallKeepsBids(o: Oracle, w: World, auth: set<Address>, call: Call)
    requires Inv(w) && Execute(o, w, auth, call).Success?
    ensures BidsStay(w, Execute(o, w, auth, call).value)
  {
    var w' := Execute(o, w, auth, call).value;
    forall id: RoundId, bidder: Address
      ensures BidStays(w, w', id, bidder)
    {
      BidsMove(o, w, auth, call, id, bidder);
    }
  }

  lemma StepKeepsTruth(o: Oracle, w: World, step: Step)
    requires Inv(w) && Legal(w, step) && AllTruthful(w)
    ensures AllTruthful(Next(o, w, step))
  {
    var w' := Next(o, w, step);
    StepKeeps(o, w, step);
    if step.Invoke? && Execute(o, w, step.auth, step.call).Success? {
      CallTruthful(o, w, step.call);
      CallKeepsRecords(o, w, step.auth, step.call);
      CallKeepsBids(o, w, step.auth, step.call);
    }
    if !step.Invoke? || Execute(o, w, step.auth, step.call).Success? {
      if step.Environment? { NothingMoves(w, w'); }
      LogStaysTruthful(w, w');
    }
  }

  lemma NothingMoves(w: World, w': World)
    requires EnvironmentMay(w, w')
    ensures NewTruthful(w, w') && RecordsStay(w, w') && BidsStay(w, w')
  {
    forall id: RoundId, bidder: Address
      ensures BidStays(w, w', id, bidder)
    {
    }
  }

  lemma {:induction false} RunKeepsTruth(o: Oracle, w: World, steps: seq<Step>)
    requires Inv(w) && LegalRun(o, w, steps) && AllTruthful(w)
    ensures AllTruthful(Run(o, w, steps))
    decreases |steps|
  {
    if |steps| > 0 {
      StepKeepsTruth(o, w, steps[0]);
      StepKeeps(o, w, steps[0]);
      RunKeepsTruth(o, Next(o, w, steps[0]), steps[1..]);
    }
  }

  /**
   * The log tells the truth. On every reachable market, whatever came later, each
   * event ever published is borne out: amounts, indices, counts, hashes, winners
   * and reasons are those of the ledger.
   */
  lemma LogTellsTheTruth(o: Oracle, w: World)
    requires Reachable(o, w)
    ensures AllTruthful(w)
  {
    var w0, steps :| Genesis(w0) && LegalRun(o, w0, steps) && Run(o, w0, steps) == w;
    assert Inv(w0);
    RunKeepsTruth(o, w0, steps);
  }

  // The counter.

  predicate SameCount(w: World, w': World) {
    w'.nextRound == w.nextRound && w'.rounds.Keys == w.rounds.Keys
  }

  lemma FinalizedCounts(o: Oracle, w: World, id: RoundId, winnerIndex: U32, proof: Proof, data: TransferData)
    requires RoundOk(w, id) && Finalized(o, w, id, winnerIndex, proof, data).Success?
    ensures SameCount(w, Finalized(o, w, id, winnerIndex, proof, data).value)
  {
    FinalizedShape(o, w, id, winnerIndex, proof, data);
  }

  lemma AddBidCounts(w: World, id: RoundId, bidder: Address)
    requires id in w.rounds && w.rounds[id].id == id && AddBid(w, id, bidder).Success?
    ensures SameCount(w, AddBid(w, id, bidder).value)
  {
  }

  lemma WithdrawCounts(w: World, id: RoundId, bidder: Address, accepted: bool)
    requires id in w.rounds && w.rounds[id].id == id && Withdraw(w, id, bidder, accepted).Success?
    ensures SameCount(w, Withdraw(w, id, bidder, accepted).value)
  {
  }

  lemma CloseCounts(w: World, id: RoundId)
    requires RoundOk(w, id) && Close(w, id).Success?
    ensures SameCount(w, Close(w, id).value)
  {
    CloseShape(w, id);
  }

  lemma BookCallCounts(o: Oracle, w: World, call: Call)
    requires TouchesBook(call) && Perform(o, w, call).Success? && RoundOk(w, call.id)
    ensures SameCount(w, Perform(o, w, call).value)
  {
    match call
    case RegisterBid(id, bidder) => AddBidCounts(w, id, bidder);
    case SubmitBid(id, bidder, amount, data) =>
      SubmitDelegatesThenAdds(w, id, bidder, amount, data);
      AddBidCounts(Delegated(w, w.rounds[id].config, bidder, data.allowance), id, bidder);
    case WithdrawBid(id, bidder, accepted) => WithdrawCounts(w, id, bidder, accepted);
    case CloseRound(id) => CloseCounts(w, id);
    case Finalize(id, winnerIndex, proof, data) => FinalizedCounts(o, w, id, winnerIndex, proof, data);
  }

  lemma OtherCallCounts(o: Oracle, w: World, call: Call)
    requires !TouchesBook(call) && !CreatesRound(call) && Perform(o, w, call).Success? && RoundOk(w, call.id)
    ensures SameCount(w, Perform(o, w, call).value)
  {
  }

  lemma CounterStays(o: Oracle, w: World, call: Call)
    requires Inv(w) && !CreatesRound(call) && Perform(o, w, call).Success?
    ensures SameCount(w, Perform(o, w, call).value)
  {
    CalledRound(o, w, call);
    assert RoundOk(w, call.id);
    if TouchesBook(call) { BookCallCounts(o, w, call); } else { OtherCallCounts(o, w, call); }
  }

  lemma CreationCounts(o: Oracle, w: World, call: Call)
    requires Inv(w) && CreatesRound(call) && Perform(o, w, call).Success?
    ensures
      var w', id := Perform(o, w, call).value, RoundDigest(w.market, w.nextRound, call.config);
      w'.nextRound == w.nextRound + 1 && id !in w.rounds && w'.rounds.Keys == w.rounds.Keys + {id}
  {
    NewIdIsFresh(w, call.config);
    CreateExactly(w, call.config);
    if call.CreateAndOpenRound? { CreateAndOpenCounts(w, call.config, call.tokenAccepts); }
  }

  lemma CreateAndOpenCounts(w: World, config: RoundConfig, accepts: bool)
    requires CreateAndOpen(w, config, accepts).Success?
    ensures CreateAndOpen(w, config, accepts).value.nextRound == Create(w, config).value.nextRound
    ensures CreateAndOpen(w, config, accepts).value.rounds.Keys == Create(w, config).value.rounds.Keys
  {
    CreateAndOpenShape(w, config, accepts);
  }

  lemma StepCounts(o: Oracle, w: World, step: Step)
    requires Inv(w) && Legal(w, step) && w.nextRound == |w.rounds|
    ensures Next(o, w, step).nextRound == |Next(o, w, step).rounds|
  {
    var w' := Next(o, w, step);
    if step.Invoke? && Execute(o, w, step.auth, step.call).Success? {
      if CreatesRound(step.call) {
        CreationCounts(o, w, step.call);
        assert |w'.rounds.Keys| == |w.rounds.Keys| + 1;
      } else {
        CounterStays(o, w, step.call);
        assert |w'.rounds| == |w'.rounds.Keys| == |w.rounds.Keys|;
      }
    }
  }

  lemma {:induction false} RunCounts(o: Oracle, w: World, steps: seq<Step>)
    requires Inv(w) && LegalRun(o, w, steps) && w.nextRound == |w.rounds|
    ensures Run(o, w, steps).nextRound == |Run(o, w, steps).rounds|
    decreases |steps|
  {
    if |steps| > 0 {
      StepKeeps(o, w, steps[0]);
      StepCounts(o, w, steps[0]);
      RunCounts(o, Next(o, w, steps[0]), steps[1..]);
    }
  }

  /** The counter counts the rounds, so ids are hashed over consecutive numbers from zero. */
  lemma CounterCountsRounds(o: Oracle, w: World)
    requires Reachable(o, w)
    ensures w.nextRound == |w.rounds|
  {
    var w0, steps :| Genesis(w0) && LegalRun(o, w0, steps) && Run(o, w0, steps) == w;
    assert Inv(w0);
    RunCounts(o, w0, steps);
  }
}
