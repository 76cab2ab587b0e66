// A crash inside insertEvent: the row of chain_events is written, the update of
// the rounds table is not. Which lost updates later events make up for.
module EvidenceLoss {
  import opened Prelude
  import opened MarketTypes
  import opened MarketSpec
  import opened MarketInvariants
  import opened MarketRuns
  import opened EvidenceView
  import opened EvidenceSimulation
  import opened EvidenceStore
  import opened SharedLedger
  import opened EvidenceMirror

  /** The log without its event at position k. */
  function Without(log: seq<Logged>, k: nat): seq<Logged>
    requires k < |log|
    decreases |log|
  {
    var front, last := log[..|log| - 1], log[|log| - 1];
    if k == |front| then front else Without(front, k) + [last]
  }

  predicate NowZero(table: Table, id: RoundId) {
    id in table && table[id].bidderCount == 0
  }

  /** At some point after event k the round's row counted no bids. */
  predicate CountWasZero(log: seq<Logged>, k: nat, id: RoundId) {
    |log| > k + 1 &&
    (NowZero(View(log), id) || CountWasZero(log[..|log| - 1], k, id))
  }

  /** Equal but for the ledger of the last update. */
  predicate SameRow(a: Row, b: Row) {
    a.(lastLedger := b.lastLedger) == b
  }

  predicate PastOpen(row: Row) {
    row.status.Closed? || row.status.Settled? || row.status.Failed? || row.status.Cancelled?
  }

  /** How the row s, which missed event e, still differs from the row t, which did not. */
  predicate Defect(e: Event, t: Row, s: Row, wasZero: bool) {
    match e
    case RoundCreated(_, _, _) => true
    case RwaFunded(_, _) =>
      SameRow(s, t.(rwaEscrowed := false)) && (t.rwaEscrowed || t.status.Cancelled?)
    case RoundOpened(_) =>
      SameRow(s, t.(status := if t.status.Open? then Draft else t.status)) && !t.status.Draft?
    case BidRegistered(_, _, _) =>
      && !t.status.Draft? && (t.status.Open? && !wasZero ==> t.bidderCount >= 1)
      && SameRow(s, if t.status.Open? && !wasZero then t.(bidderCount := t.bidderCount - 1) else t)
    case BidWithdrawn(_, _) =>
      && !t.status.Draft?
      && SameRow(s, if t.status.Open? then t.(bidderCount := t.bidderCount + 1) else t)
    case RoundClosed(_, _, _) =>
      && PastOpen(t) && t.participantSetHash.Some?
      && (t.status.Settled? ==> t.winner.Some?) && (t.status.Failed? || t.status.Cancelled? ==> t.winner.None?)
      && SameRow(s, t.(status := if t.status.Closed? then Open else t.status,
                       participantSetHash := if t.winner.Some? then t.participantSetHash else None))
    case WinnerProven(_, _, _, _) =>
      && (t.status.Closed? || t.status.Settled?) && t.winner.Some?
      && SameRow(s, if t.status.Settled? then t else t.(winner := None, proofHash := None))
    case RoundSettled(_, _, _) => t.status.Settled? && SameRow(s, t.(status := Closed))
    case RoundFailed(_, _) =>
      && (t.status.Failed? || t.status.Cancelled?)
      && SameRow(s, t.(status := if t.status.Failed? then Closed else t.status))
    case RwaReclaimed(_, _, _) => t.status.Cancelled? && !s.status.Cancelled?
  }

  /** Losing the event makes its defect. */
  lemma LossMakesDefect(t: Row, l: Logged)
    requires Fits(t, l.event)
    ensures Defect(l.event, UpdateRow(t, l), t, false)
  {
  }

  /** An event of the contract applied to both rows keeps the defect, unless it makes up for it. */
  lemma DefectStays(e: Event, t: Row, s: Row, wasZero: bool, l: Logged)
    requires !e.RoundCreated? && Defect(e, t, s, wasZero) && Fits(t, l.event)
    ensures Defect(e, UpdateRow(t, l), UpdateRow(s, l), wasZero || UpdateRow(t, l).bidderCount == 0)
  {
  }

  /** What the two tables say about one id. */
  predicate Compared(e: Event, table: Table, lost: Table, id: RoundId, wasZero: bool) {
    if id != e.roundId then RowOf(table, id) == RowOf(lost, id)
    else
      && id in table
      && (if e.RoundCreated? then id !in lost else id in lost && Defect(e, table[id], lost[id], wasZero))
  }

  lemma LossStarts(table: Table, l: Logged, id: RoundId)
    requires Meets(table, l.event)
    ensures Compared(l.event, ApplyRoundEvent(table, l), table, id, false)
  {
    if id == l.event.roundId && !l.event.RoundCreated? { LossMakesDefect(table[id], l); }
  }

  lemma OtherRowsStay(e: Event, table: Table, lost: Table, l: Logged, id: RoundId, wasZero: bool)
    requires id != e.roundId && Compared(e, table, lost, id, wasZero)
    ensures Compared(e, ApplyRoundEvent(table, l), ApplyRoundEvent(lost, l), id, wasZero)
  {
  }

  lemma LossStays(e: Event, table: Table, lost: Table, l: Logged, wasZero: bool)
    requires Compared(e, table, lost, e.roundId, wasZero) && Meets(table, l.event)
    ensures
      var table', lost' := ApplyRoundEvent(table, l), ApplyRoundEvent(lost, l);
      Compared(e, table', lost', e.roundId, wasZero || NowZero(table', e.roundId))
  {
    if !e.RoundCreated? {
      if l.event.roundId == e.roundId {
        DefectStays(e, table[e.roundId], lost[e.roundId], wasZero, l);
      } else {
        DefectWaits(e, table[e.roundId], lost[e.roundId], wasZero);
      }
    }
  }

  /** Events of other rounds change nothing, not even by noticing a count of zero. */
  lemma DefectWaits(e: Event, t: Row, s: Row, wasZero: bool)
    requires Defect(e, t, s, wasZero)
    ensures Defect(e, t, s, wasZero || t.bidderCount == 0)
  {
  }

  lemma {:induction false} LossCompared(log: seq<Logged>, k: nat, id: RoundId)
    requires Guarded(log) && k < |log|
    ensures Compared(log[k].event, View(log), View(Without(log, k)), id,
                     CountWasZero(log, k, log[k].event.roundId))
    decreases |log|
  {
    var front, last := log[..|log| - 1], log[|log| - 1];
    var e := log[k].event;
    if k == |front| {
      LossStarts(View(front), last, id);
    } else {
      LossCompared(front, k, id);
      assert log == front + [last];
      ViewAppend(Without(front, k), last);
      var wasZero := CountWasZero(front, k, e.roundId);
      if id == e.roundId {
        LossStays(e, View(front), View(Without(front, k)), last, wasZero);
      } else {
        OtherRowsStay(e, View(front), View(Without(front, k)), last, id, wasZero);
      }
    }
  }

  // In the database.

  lemma {:induction false} RoundEventsBefore(log: seq<IndexedEvent>, i: nat, n: nat)
    requires n <= i < |log|
    ensures RoundEvents(Silenced(log, i), n) == RoundEvents(log, n)
  {
    if n > 0 { RoundEventsBefore(log, i, n - 1); }
  }

  /** Silencing an event of the log takes its round event out of the round events. */
  lemma {:induction false} SilencedIsWithout(log: seq<IndexedEvent>, i: nat, n: nat)
    requires i < n <= |log| && log[i].roundEvent.Some?
    ensures
      var k, events := |RoundEvents(log, i)|, RoundEvents(log, n);
      && k < |events| && events[k] == Decoded(log[i])
      && RoundEvents(Silenced(log, i), n) == Without(events, k)
    decreases n
  {
    RoundEventsBefore(log, i, i);
    if i < n - 1 { SilencedIsWithout(log, i, n - 1); }
  }

  lemma {:induction false} SilencedIsSame(log: seq<IndexedEvent>, i: nat, n: nat)
    requires i < |log| && n <= |log| && log[i].roundEvent.None?
    ensures RoundEvents(Silenced(log, i), n) == RoundEvents(log, n)
    decreases n
  {
    if n > 0 { SilencedIsSame(log, i, n - 1); }
  }

  /** Whether a lost update has been made up for, told from the round's record and its log. */
  predicate Absorbed(e: Event, r: Round, wasZero: bool) {
    match e
    case RoundCreated(_, _, _) => false
    case RwaFunded(_, _) => r.rwaReclaimed
    case RoundOpened(_) => !r.status.Open?
    case BidRegistered(_, _, _) => !r.status.Open? || wasZero
    case BidWithdrawn(_, _) => !r.status.Open?
    case RoundClosed(_, _, _) => r.status.Settled?
    case WinnerProven(_, _, _, _) => true
    case RoundSettled(_, _, _) => false
    case RoundFailed(_, _) => r.rwaReclaimed
    case RwaReclaimed(_, _, _) => false
  }

  lemma DefectAbsorbed(w: World, id: RoundId, e: Event, t: Row, s: Row, wasZero: bool)
    requires RoundOk(w, id) && Mirrors(t, w.rounds[id])
    requires !e.RoundCreated? && Defect(e, t, s, wasZero)
    ensures Mirrors(s, w.rounds[id]) && s.marketId == t.marketId <==> Absorbed(e, w.rounds[id], wasZero)
  {
    var r := w.rounds[id];
    assert r.rwaReclaimed ==> r.status.Cancelled?;
    assert Mirrors(s, r) && s.marketId == t.marketId <==> SameRow(s, t);
  }

  /** The table with one update lost, against the markets. */
  lemma LostUpdateMirrors(o: Oracle, markets: Markets, events: seq<Logged>, k: nat)
    requires AllReachable(o, markets) && Interleaves(events, markets) && k < |events|
    ensures RecordOf(markets, events[k].event.roundId).Some?
    ensures
      var e := events[k].event;
      MirrorsMarkets(View(Without(events, k)), markets)
      <==> Absorbed(e, RecordOf(markets, e.roundId).value, CountWasZero(events, k, e.roundId))
  {
    var e := events[k].event;
    var table, lost := View(events), View(Without(events, k));
    InterleavingGuarded(o, events, markets);
    ViewMirrorsMarkets(o, events, markets);
    LossCompared(events, k, e.roundId);
    assert RowMirrors(table, markets, e.roundId);
    var record := RecordOf(markets, e.roundId).value;
    assert RowMirrors(lost, markets, e.roundId) <==> Absorbed(e, record, CountWasZero(events, k, e.roundId)) by {
      OwnDefectAbsorbed(o, markets, e, table, lost, CountWasZero(events, k, e.roundId));
    }
    forall id: RoundId | id != e.roundId
      ensures RowMirrors(lost, markets, id)
    {
      LossCompared(events, k, id);
      assert RowMirrors(table, markets, id);
    }
  }

  lemma OwnDefectAbsorbed(o: Oracle, markets: Markets, e: Event, table: Table, lost: Table, wasZero: bool)
    requires AllReachable(o, markets) && RecordOf(markets, e.roundId).Some?
    requires RowMirrors(table, markets, e.roundId) && Compared(e, table, lost, e.roundId, wasZero)
    ensures RowMirrors(lost, markets, e.roundId) <==> Absorbed(e, RecordOf(markets, e.roundId).value, wasZero)
  {
    if !e.RoundCreated? {
      var w := markets[e.roundId.contract];
      ReachableRound(o, w, e.roundId);
      DefectAbsorbed(w, e.roundId, e, table[e.roundId], lost[e.roundId], wasZero);
    }
  }

  lemma InterleavingGuarded(o: Oracle, events: seq<Logged>, markets: Markets)
    requires AllReachable(o, markets) && Interleaves(events, markets)
    ensures Guarded(events)
  {
    AllAboutOwnRounds(o, events, markets);
    forall market: Address
      ensures Guarded(PublishedBy(events, market))
    {
      if market in markets {
        TableSimulatesContract(o, markets[market]);
      } else {
        NothingPublished(events, market);
      }
    }
    GuardedTogether(events);
  }

  lemma {:induction false} NothingPublished(events: seq<Logged>, market: Address)
    requires forall i | 0 <= i < |events| :: events[i].contract != market
    ensures PublishedBy(events, market) == []
  {
    if |events| > 0 { NothingPublished(events[..|events| - 1], market); }
  }

  /**
   * A crash between the two statements of insertEvent, at event i of a log that
   * carries reachable markets, followed by a pass that resumes anywhere before it:
   * the finished table mirrors the markets exactly if the event was not a round's,
   * or later events made up for the lost update.
   */
  lemma TornInsertExactly(o: Oracle, markets: Markets, log: seq<IndexedEvent>, i: nat, c: nat)
    requires AllReachable(o, markets) && Carries(log, markets) && c <= i < |log|
    ensures log[i].roundEvent.Some? ==> RecordOf(markets, log[i].roundEvent.value.roundId).Some?
    ensures
      var finished := Ingested(Torn(Ingested(EMPTY, log, 0, i), log[i]), log, c, |log|);
      MirrorsMarkets(finished.rounds, markets) <==>
        (log[i].roundEvent.Some? ==>
           var e := log[i].roundEvent.value;
           Absorbed(e, RecordOf(markets, e.roundId).value,
                    CountWasZero(RoundEvents(log, |log|), |RoundEvents(log, i)|, e.roundId)))
  {
    TornInsertForgets(log, i, c, |log|);
    if log[i].roundEvent.Some? {
      SilencedIsWithout(log, i, |log|);
      LostUpdateMirrors(o, markets, RoundEvents(log, |log|), |RoundEvents(log, i)|);
    } else {
      SilencedIsSame(log, i, |log|);
      ViewMirrorsMarkets(o, RoundEvents(log, |log|), markets);
    }
  }

  /** A market's first call, creating a round, and the log that carries it. */
  function FirstRound(w: World, config: RoundConfig): IndexedEvent {
    IndexedEvent(0, w.market, w.ledger, Some(RoundCreated(NewRoundId(w, config), config.issuer, config)))
  }

  lemma FirstCallReaches(o: Oracle, w: World, step: Step)
    requires Genesis(w) && Legal(w, step)
    ensures Reachable(o, Next(o, w, step))
  {
    assert LegalRun(o, w, []) && Run(o, w, []) == w;
    ReachableStep(o, w, step);
  }

  /** The table really is left wrong: when the first update of a market is lost, its round has no row. */
  lemma LostCreationLeavesNoRow(o: Oracle, w: World, config: RoundConfig)
    requires Genesis(w) && ValidConfig(config, w.ledger) && config.issuer != w.market
    ensures
      var created := Next(o, w, Invoke({config.issuer}, CreateRound(config)));
      var markets, log := map[w.market := created], [FirstRound(w, config)];
      var finished := Ingested(Torn(EMPTY, log[0]), log, 0, 1);
      && AllReachable(o, markets) && Carries(log, markets) && NewRoundId(w, config) in created.rounds
      && finished.rounds == map[] && !MirrorsMarkets(finished.rounds, markets)
  {
    var step := Invoke({config.issuer}, CreateRound(config));
    var created := Next(o, w, step);
    var markets, log := map[w.market := created], [FirstRound(w, config)];
    FirstCallReaches(o, w, step);
    var front, l := RoundEvents(log, 0), Logged(w.market, w.ledger, log[0].roundEvent.value);
    assert RoundEvents(log, 1) == [l];
    assert PublishedBy([l], w.market) == [l];
    var id := NewRoundId(w, config);
    assert Ingested(Torn(EMPTY, log[0]), log, 0, 0) == Torn(EMPTY, log[0]);
    assert !RowMirrors(map[], markets, id);
  }
}
