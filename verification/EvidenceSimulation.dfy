// The indexer's rounds table simulates the contract: folding the emitted events
// gives every round's public record, over every run.
module EvidenceSimulation {
  import opened Prelude
  import opened Encoding
  import opened MarketTypes
  import opened MarketSpec
  import opened MarketInvariants
  import opened MarketSteps
  import opened MarketRuns
  import opened MarketTransitions
  import opened EvidenceView

  /** cancel_round publishes nothing, so until the reclaim the table still says Draft. */
  function PublicStatus(r: Round): RoundStatus {
    if r.status.Cancelled? && !r.rwaReclaimed then Draft else r.status
  }

  /** The public row of a round agrees with the contract's record. */
  predicate Mirrors(row: Row, r: Round) {
    && r.id.RoundDigest? && row.marketId == r.id.contract
    && row.issuer == r.config.issuer
    && row.terms == r.config
    && row.status == PublicStatus(r)
    && row.bidderCount == r.bidderCount
    && row.winner == r.winner
    && row.participantSetHash == r.participantSetHash
    && row.proofHash == r.proofHash
    && row.rwaEscrowed == (r.rwaEscrowed && !r.rwaReclaimed)
  }

  /** One exit event once the lot has left the market, none before. */
  function ExitsOf(r: Round): nat {
    if r.status.Settled? || r.rwaReclaimed then 1 else 0
  }

  predicate RowOk(table: Table, exits: nat, id: RoundId, r: Round) {
    id in table && Mirrors(table[id], r) && exits == ExitsOf(r)
  }

  /** What the log says about one id: the row of its round, or nothing. */
  predicate RowAt(rounds: Rounds, log: seq<Logged>, id: RoundId) {
    if id in rounds then RowOk(View(log), Exits(log, id), id, rounds[id])
    else id !in View(log) && Exits(log, id) == 0
  }

  ghost predicate LogInv(rounds: Rounds, log: seq<Logged>) {
    (forall id: RoundId :: RowAt(rounds, log, id)) && Guarded(log)
  }

  /** An event about one existing round, on a record that follows it. */
  lemma OneEvent(rounds: Rounds, log: seq<Logged>, l: Logged, r': Round)
    requires LogInv(rounds, log) && l.event.roundId in rounds && !l.event.RoundCreated?
    requires RowAt(rounds, log, l.event.roundId) && Fits(View(log)[l.event.roundId], l.event)
    requires Mirrors(UpdateRow(View(log)[l.event.roundId], l), r')
    requires ExitsOf(r') == ExitsOf(rounds[l.event.roundId]) + (if IsExit(l.event) then 1 else 0)
    ensures LogInv(rounds[l.event.roundId := r'], log + [l])
  {
    var id := l.event.roundId;
    var rounds' := rounds[id := r'];
    assert RowAt(rounds, log, id);
    ViewAppend(log, l);
    GuardedAppend(log, l);
    forall j: RoundId
      ensures RowAt(rounds', log + [l], j)
    {
      assert RowAt(rounds, log, j);
      ExitsAppend(log, l, j);
    }
  }

  lemma CreatedEvent(
    rounds: Rounds, log: seq<Logged>, market: Address, ledger: nat, id: RoundId, config: RoundConfig)
    requires LogInv(rounds, log) && id !in rounds && id.RoundDigest? && id.contract == market
    ensures
      var l := Logged(market, ledger, RoundCreated(id, config.issuer, config));
      LogInv(rounds[id := FreshRound(id, config)], log + [l])
  {
    var l := Logged(market, ledger, RoundCreated(id, config.issuer, config));
    var rounds' := rounds[id := FreshRound(id, config)];
    assert RowAt(rounds, log, id);
    ViewAppend(log, l);
    GuardedAppend(log, l);
    forall j: RoundId
      ensures RowAt(rounds', log + [l], j)
    {
      assert RowAt(rounds, log, j);
      ExitsAppend(log, l, j);
    }
  }

  /** No event, and a record whose public face did not change. */
  lemma SilentChange(rounds: Rounds, log: seq<Logged>, id: RoundId, r': Round)
    requires LogInv(rounds, log) && id in rounds
    requires forall row: Row :: Mirrors(row, rounds[id]) ==> Mirrors(row, r')
    requires ExitsOf(r') == ExitsOf(rounds[id])
    ensures LogInv(rounds[id := r'], log)
  {
    var rounds' := rounds[id := r'];
    forall j: RoundId
      ensures RowAt(rounds', log, j)
    {
      assert RowAt(rounds, log, j);
    }
  }

  lemma FundSimulated(w: World, id: RoundId)
    requires LogInv(w.rounds, w.events) && Fund(w, id).Success? && RoundOk(w, id)
    ensures LogInv(Fund(w, id).value.rounds, Fund(w, id).value.events)
  {
    assert RowAt(w.rounds, w.events, id);
    OneEvent(w.rounds, w.events, Logged(w.market, w.ledger, RwaFunded(id, w.rounds[id].config.rwaLot)),
             w.rounds[id].(rwaEscrowed := true));
  }

  lemma OpenBookSimulated(w: World, id: RoundId)
    requires LogInv(w.rounds, w.events) && OpenBook(w, id).Success? && RoundOk(w, id)
    ensures LogInv(OpenBook(w, id).value.rounds, OpenBook(w, id).value.events)
  {
    assert RowAt(w.rounds, w.events, id);
    OneEvent(w.rounds, w.events, Logged(w.market, w.ledger, RoundOpened(id)), w.rounds[id].(status := Open));
  }

  lemma AddBidShape(w: World, id: RoundId, bidder: Address)
    requires AddBid(w, id, bidder).Success?
    ensures id in w.rounds
    ensures
      var w', r := AddBid(w, id, bidder).value, w.rounds[id];
      && w'.rounds == w.rounds[r.id := r.(bidderCount := r.bidderCount + 1)]
      && w'.events == w.events + [Logged(w.market, w.ledger, BidRegistered(id, bidder, |LoadBook(w.books, id)|))]
  {
  }

  lemma AddBidSimulated(w: World, id: RoundId, bidder: Address)
    requires LogInv(w.rounds, w.events) && AddBid(w, id, bidder).Success? && w.rounds[id].id == id
    ensures LogInv(AddBid(w, id, bidder).value.rounds, AddBid(w, id, bidder).value.events)
  {
    AddBidShape(w, id, bidder);
    assert RowAt(w.rounds, w.events, id);
    OneEvent(w.rounds, w.events, Logged(w.market, w.ledger, BidRegistered(id, bidder, |LoadBook(w.books, id)|)),
             w.rounds[id].(bidderCount := w.rounds[id].bidderCount + 1));
  }

  lemma WithdrawSimulated(w: World, id: RoundId, bidder: Address, accepted: bool)
    requires LogInv(w.rounds, w.events) && Withdraw(w, id, bidder, accepted).Success? && RoundOk(w, id)
    ensures LogInv(Withdraw(w, id, bidder, accepted).value.rounds, Withdraw(w, id, bidder, accepted).value.events)
  {
    assert RowAt(w.rounds, w.events, id);
    OneEvent(w.rounds, w.events, Logged(w.market, w.ledger, BidWithdrawn(id, bidder)),
             w.rounds[id].(bidderCount := w.rounds[id].bidderCount - 1));
  }

  lemma CancelSimulated(w: World, id: RoundId)
    requires LogInv(w.rounds, w.events) && Cancel(w, id).Success? && RoundOk(w, id)
    ensures LogInv(Cancel(w, id).value.rounds, Cancel(w, id).value.events)
  {
    SilentChange(w.rounds, w.events, id, w.rounds[id].(status := Cancelled));
  }

  lemma NoSaleSimulated(w: World, id: RoundId)
    requires LogInv(w.rounds, w.events) && NoSale(w, id).Success? && RoundOk(w, id)
    ensures LogInv(NoSale(w, id).value.rounds, NoSale(w, id).value.events)
  {
    assert RowAt(w.rounds, w.events, id);
    var reasonCode := if w.rounds[id].bidderCount == 0 then 0 else 1;
    OneEvent(w.rounds, w.events, Logged(w.market, w.ledger, RoundFailed(id, reasonCode)),
             w.rounds[id].(status := Failed));
  }

  lemma ReclaimSimulated(w: World, id: RoundId)
    requires LogInv(w.rounds, w.events) && Reclaim(w, id).Success? && RoundOk(w, id)
    ensures LogInv(Reclaim(w, id).value.rounds, Reclaim(w, id).value.events)
  {
    assert RowAt(w.rounds, w.events, id);
    var c := w.rounds[id].config;
    OneEvent(w.rounds, w.events, Logged(w.market, w.ledger, RwaReclaimed(id, c.issuer, c.rwaLot)),
             w.rounds[id].(rwaReclaimed := true, status := Cancelled));
  }

  /** winner_proven runs ahead of the status for one event; round_settled catches up. */
  lemma SettlingEvents(
    rounds: Rounds, log: seq<Logged>, market: Address, ledger: nat, id: RoundId, winner: Address, hash: Digest)
    requires LogInv(rounds, log) && id in rounds && rounds[id].status.Closed? && !rounds[id].rwaReclaimed
    requires rounds[id].participantSetHash.Some? && rounds[id].winner.None? && rounds[id].proofHash.None?
    ensures
      var r := rounds[id];
      LogInv(rounds[id := r.(status := Settled, winner := Some(winner), proofHash := Some(hash))],
             log + [Logged(market, ledger, WinnerProven(id, winner, hash, r.participantSetHash.value))]
                 + [Logged(market, ledger, RoundSettled(id, winner, hash))])
  {
    var r := rounds[id];
    var proven := Logged(market, ledger, WinnerProven(id, winner, hash, r.participantSetHash.value));
    var settled := Logged(market, ledger, RoundSettled(id, winner, hash));
    var r1 := r.(winner := Some(winner), proofHash := Some(hash));
    var r2 := r1.(status := Settled);
    assert RowAt(rounds, log, id);
    OneEvent(rounds, log, proven, r1);
    assert RowAt(rounds[id := r1], log + [proven], id);
    OneEvent(rounds[id := r1], log + [proven], settled, r2);
    assert rounds[id := r1][id := r2] == rounds[id := r2];
  }

  lemma FinalizedSimulated(o: Oracle, w: World, id: RoundId, winnerIndex: U32, proof: Proof, data: TransferData)
    requires LogInv(w.rounds, w.events) && Finalized(o, w, id, winnerIndex, proof, data).Success? && RoundOk(w, id)
    ensures
      var w' := Finalized(o, w, id, winnerIndex, proof, data).value;
      LogInv(w'.rounds, w'.events)
  {
    FinalizedShape(o, w, id, winnerIndex, proof, data);
    SettlingEvents(w.rounds, w.events, w.market, w.ledger, id, LoadBook(w.books, id)[winnerIndex], ProofDigest(proof));
  }

  lemma OneWithdrawal(
    rounds: Rounds, log: seq<Logged>, market: Address, ledger: nat, id: RoundId, bidder: Address, r: Round, r': Round)
    requires LogInv(rounds[id := r], log)
    requires r.status.Open? && r.bidderCount > 0 && r' == r.(bidderCount := r.bidderCount - 1)
    ensures LogInv(rounds[id := r'], log + [Logged(market, ledger, BidWithdrawn(id, bidder))])
  {
    var rounds1 := rounds[id := r];
    assert RowAt(rounds1, log, id);
    OneEvent(rounds1, log, Logged(market, ledger, BidWithdrawn(id, bidder)), r');
    assert rounds1[id := r'] == rounds[id := r'];
  }

  /** The log as close_round extends it, one withdrawal at a time. */
  function Extended(log: seq<Logged>, market: Address, ledger: nat, id: RoundId, bidders: seq<Address>): seq<Logged> {
    if |bidders| == 0 then log
    else
      var front, last := bidders[..|bidders| - 1], bidders[|bidders| - 1];
      Extended(log, market, ledger, id, front) + [Logged(market, ledger, BidWithdrawn(id, last))]
  }

  lemma {:induction false} ExtendedByWithdrawals(
    log: seq<Logged>, market: Address, ledger: nat, id: RoundId, bidders: seq<Address>)
    ensures Extended(log, market, ledger, id, bidders) == log + Withdrawals(market, ledger, id, bidders)
    decreases |bidders|
  {
    if |bidders| > 0 {
      ExtendedByWithdrawals(log, market, ledger, id, bidders[..|bidders| - 1]);
    }
  }

  lemma {:induction false} WithdrawalEvents(
    rounds: Rounds, log: seq<Logged>, market: Address, ledger: nat, id: RoundId, r: Round, bidders: seq<Address>)
    requires LogInv(rounds[id := r], log) && r.status.Open? && r.bidderCount >= |bidders|
    ensures LogInv(rounds[id := r.(bidderCount := r.bidderCount - |bidders|)],
                   Extended(log, market, ledger, id, bidders))
    decreases |bidders|
  {
    if |bidders| > 0 {
      var n := |bidders| - 1;
      WithdrawalEvents(rounds, log, market, ledger, id, r, bidders[..n]);
      OneWithdrawal(rounds, Extended(log, market, ledger, id, bidders[..n]), market, ledger, id, bidders[n],
                    r.(bidderCount := r.bidderCount - n), r.(bidderCount := r.bidderCount - n - 1));
    }
  }

  /** Closing accounts for every active bidder: kept or dropped. */
  lemma {:induction false} KeptAndDropped(w: World, id: RoundId, config: RoundConfig, book: seq<Address>)
    requires NoDuplicates(book)
    ensures |Kept(w, id, config, book)| + |Dropped(w, id, config, book)| == ActiveCount(w.bids, id, book)
  {
    if |book| > 0 {
      var front, last := book[..|book| - 1], book[|book| - 1];
      KeptAndDropped(w, id, config, front);
      DroppedMembers(w, id, config, front);
    }
  }

  lemma ClosingEvents(
    rounds: Rounds, log: seq<Logged>, market: Address, ledger: nat, id: RoundId, dropped: seq<Address>,
    kept: nat, hash: Digest)
    requires LogInv(rounds, log) && id in rounds && rounds[id].status.Open?
    requires rounds[id].bidderCount == kept + |dropped|
    requires rounds[id].participantSetHash.None? && rounds[id].winner.None?
    ensures LogInv(rounds[id := rounds[id].(status := Closed, bidderCount := kept, participantSetHash := Some(hash))],
                   log + Withdrawals(market, ledger, id, dropped)
                       + [Logged(market, ledger, RoundClosed(id, kept, hash))])
  {
    var r := rounds[id];
    assert rounds[id := r] == rounds;
    WithdrawalEvents(rounds, log, market, ledger, id, r, dropped);
    ExtendedByWithdrawals(log, market, ledger, id, dropped);
    var r1 := r.(bidderCount := kept);
    var r2 := r.(status := Closed, bidderCount := kept, participantSetHash := Some(hash));
    var log1 := log + Withdrawals(market, ledger, id, dropped);
    assert RowAt(rounds[id := r1], log1, id);
    OneEvent(rounds[id := r1], log1, Logged(market, ledger, RoundClosed(id, kept, hash)), r2);
    assert rounds[id := r1][id := r2] == rounds[id := r2];
  }

  lemma CloseSimulated(w: World, id: RoundId)
    requires LogInv(w.rounds, w.events) && Close(w, id).Success? && RoundOk(w, id)
    ensures LogInv(Close(w, id).value.rounds, Close(w, id).value.events)
  {
    var c, book := w.rounds[id].config, w.books[id];
    var kept, dropped := Kept(w, id, c, book), Dropped(w, id, c, book);
    CloseShape(w, id);
    KeptAndDropped(w, id, c, book);
    ClosingEvents(w.rounds, w.events, w.market, w.ledger, id, dropped, |kept|, BookDigest(id, kept));
  }

  lemma CreateSimulated(w: World, config: RoundConfig)
    requires LogInv(w.rounds, w.events) && Create(w, config).Success? && NewRoundId(w, config) !in w.rounds
    ensures LogInv(Create(w, config).value.rounds, Create(w, config).value.events)
  {
    CreatedEvent(w.rounds, w.events, w.market, w.ledger, NewRoundId(w, config), config);
  }

  lemma RegisterShape(w: World, id: RoundId, accepts: bool)
    requires Register(w, id, accepts).Success?
    ensures Register(w, id, accepts).value.rounds == w.rounds && Register(w, id, accepts).value.events == w.events
  {
  }

  lemma CreateAndOpenSimulated(w: World, config: RoundConfig, accepts: bool)
    requires Inv(w) && LogInv(w.rounds, w.events) && config.issuer != w.market
    requires CreateAndOpen(w, config, accepts).Success?
    ensures
      var w' := CreateAndOpen(w, config, accepts).value;
      LogInv(w'.rounds, w'.events)
  {
    var id := NewRoundId(w, config);
    var created := Create(w, config).value;
    CreateKeeps(w, config);
    CreateSimulated(w, config);
    var funded := Fund(created, id).value;
    FundKeeps(created, id);
    assert RoundOk(created, id);
    FundSimulated(created, id);
    var registered := Register(funded, id, accepts).value;
    RegisterKeeps(funded, id, accepts);
    RegisterShape(funded, id, accepts);
    assert RoundOk(registered, id);
    OpenBookSimulated(registered, id);
  }

  lemma BookCallSimulated(o: Oracle, w: World, call: Call)
    requires LogInv(w.rounds, w.events) && TouchesBook(call) && Perform(o, w, call).Success?
    requires call.id in w.rounds ==> RoundOk(w, call.id)
    ensures LogInv(Perform(o, w, call).value.rounds, Perform(o, w, call).value.events)
  {
    match call
    case RegisterBid(id, bidder) => AddBidSimulated(w, id, bidder);
    case SubmitBid(id, bidder, amount, data) =>
      SubmitDelegatesThenAdds(w, id, bidder, amount, data);
      AddBidSimulated(Delegated(w, w.rounds[id].config, bidder, data.allowance), id, bidder);
    case WithdrawBid(id, bidder, accepted) => WithdrawSimulated(w, id, bidder, accepted);
    case CloseRound(id) => CloseSimulated(w, id);
    case Finalize(id, winnerIndex, proof, data) => FinalizedSimulated(o, w, id, winnerIndex, proof, data);
  }

  lemma OtherCallSimulated(o: Oracle, w: World, call: Call)
    requires LogInv(w.rounds, w.events) && !TouchesBook(call) && !CreatesRound(call) && Perform(o, w, call).Success?
    requires call.id in w.rounds ==> RoundOk(w, call.id)
    ensures LogInv(Perform(o, w, call).value.rounds, Perform(o, w, call).value.events)
  {
    match call
    case FundRound(id) => FundSimulated(w, id);
    case RegisterController(id, accepts) => RegisterShape(w, id, accepts);
    case OpenRound(id) => OpenBookSimulated(w, id);
    case CancelRound(id) => CancelSimulated(w, id);
    case MarkNoSale(id) => NoSaleSimulated(w, id);
    case ReclaimRwa(id) => ReclaimSimulated(w, id);
  }

  lemma CreationSimulated(o: Oracle, w: World, call: Call)
    requires Inv(w) && LogInv(w.rounds, w.events) && CreatesRound(call) && Perform(o, w, call).Success?
    requires SignersAreOthers(w.market, call)
    ensures LogInv(Perform(o, w, call).value.rounds, Perform(o, w, call).value.events)
  {
    match call
    case CreateRound(config) =>
      NewIdIsFresh(w, config);
      CreateSimulated(w, config);
    case CreateAndOpenRound(config, accepts) => CreateAndOpenSimulated(w, config, accepts);
  }

  lemma CallSimulated(o: Oracle, w: World, auth: set<Address>, call: Call)
    requires Inv(w) && LogInv(w.rounds, w.events) && w.market !in auth && Execute(o, w, auth, call).Success?
    ensures
      var w' := Execute(o, w, auth, call).value;
      LogInv(w'.rounds, w'.events)
  {
    if CreatesRound(call) {
      CreationSimulated(o, w, call);
    } else if TouchesBook(call) {
      BookCallSimulated(o, w, call);
    } else {
      OtherCallSimulated(o, w, call);
    }
  }

  lemma {:induction false} RunSimulated(o: Oracle, w: World, steps: seq<Step>)
    requires Inv(w) && LogInv(w.rounds, w.events) && LegalRun(o, w, steps)
    ensures LogInv(Run(o, w, steps).rounds, Run(o, w, steps).events)
    decreases |steps|
  {
    if |steps| > 0 {
      var step := steps[0];
      if step.Invoke? && Execute(o, w, step.auth, step.call).Success? {
        CallSimulated(o, w, step.auth, step.call);
      }
      StepKeeps(o, w, step);
      RunSimulated(o, Next(o, w, step), steps[1..]);
    }
  }

  /**
   * The table is the contract. In every reachable state, folding the event log
   * gives one row for exactly the rounds that exist, each agreeing with the
   * contract's record (a cancelled round reads Draft until it is reclaimed), and
   * the clamp of bid_withdrawn has never fired.
   */
  lemma TableSimulatesContract(o: Oracle, w: World)
    requires Reachable(o, w)
    ensures View(w.events).Keys == w.rounds.Keys
    ensures forall id | id in w.rounds :: Mirrors(View(w.events)[id], w.rounds[id])
    ensures Guarded(w.events) && NeverClamps(w.events)
  {
    ReachableLog(o, w);
    GuardedNeverClamps(w.events);
    forall id: RoundId
      ensures id in View(w.events) <==> id in w.rounds
      ensures id in w.rounds ==> Mirrors(View(w.events)[id], w.rounds[id])
    {
      assert RowAt(w.rounds, w.events, id);
    }
  }

  lemma ReachableLog(o: Oracle, w: World)
    requires Reachable(o, w)
    ensures LogInv(w.rounds, w.events)
  {
    var w0, steps :| Genesis(w0) && LegalRun(o, w0, steps) && Run(o, w0, steps) == w;
    assert Inv(w0);
    RunSimulated(o, w0, steps);
  }

  /**
   * One exit per lot: along every run a round's lot has left the market at most
   * once, to the winner or back to the issuer, never both.
   */
  lemma OneExitPerLot(o: Oracle, w: World, id: RoundId)
    requires Reachable(o, w)
    ensures Exits(w.events, id) <= 1
    ensures Exits(w.events, id) == 1 <==> id in w.rounds && (w.rounds[id].status.Settled? || w.rounds[id].rwaReclaimed)
    ensures id in w.rounds ==> !(w.rounds[id].status.Settled? && w.rounds[id].rwaReclaimed)
  {
    ReachableLog(o, w);
    ReachableIsSolvent(o, w);
    assert RowAt(w.rounds, w.events, id);
    if id in w.rounds { assert RoundOk(w, id); }
  }
}
