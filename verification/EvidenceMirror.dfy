// The indexer end to end: whatever crashes came before, the synchronised rounds
// table is the record of every market it was configured with.
module EvidenceMirror {
  import opened Prelude
  import opened MarketTypes
  import opened MarketInvariants
  import opened MarketRuns
  import opened SharedLedger
  import opened EvidenceView
  import opened EvidenceSimulation
  import opened EvidenceStore
  import opened EvidenceSync

  /** The round of an id, in whichever market it belongs to. */
  function RecordOf(markets: Markets, id: RoundId): Option<Round> {
    if id.RoundDigest? && id.contract in markets && id in markets[id.contract].rounds
    then Some(markets[id.contract].rounds[id])
    else None
  }

  predicate RowMirrors(table: Table, markets: Markets, id: RoundId) {
    var record := RecordOf(markets, id);
    if record.Some? then id in table && table[id].marketId == id.contract && Mirrors(table[id], record.value)
    else id !in table
  }

  /** One row for exactly the rounds of these markets, under the market's address and agreeing with its record. */
  ghost predicate MirrorsMarkets(table: Table, markets: Markets) {
    forall id: RoundId :: RowMirrors(table, markets, id)
  }

  /** The events of all these markets, interleaved in any way. */
  predicate Interleaves(events: seq<Logged>, markets: Markets) {
    && (forall i | 0 <= i < |events| :: events[i].contract in markets)
    && (forall m | m in markets :: PublishedBy(events, m) == markets[m].events)
  }

  /** The node's core log carries these events, each once; what it has of other contracts is not decoded. */
  predicate Carries(log: seq<IndexedEvent>, markets: Markets) {
    DistinctIds(log) && Interleaves(RoundEvents(log, |log|), markets)
  }

  lemma {:induction false} PublishedHas(log: seq<Logged>, i: nat)
    requires i < |log|
    ensures log[i] in PublishedBy(log, log[i].contract)
  {
    if i < |log| - 1 { PublishedHas(log[..|log| - 1], i); }
  }

  /** A market's events are about its own rounds. */
  lemma AllAboutOwnRounds(o: Oracle, events: seq<Logged>, markets: Markets)
    requires AllReachable(o, markets) && Interleaves(events, markets)
    ensures forall i | 0 <= i < |events| :: AboutOwnRound(events[i])
  {
    forall i | 0 <= i < |events|
      ensures AboutOwnRound(events[i])
    {
      PublishedHas(events, i);
      EventAboutOwnRound(o, markets[events[i].contract], events[i]);
    }
  }

  lemma EventAboutOwnRound(o: Oracle, w: World, l: Logged)
    requires Reachable(o, w) && l in w.events
    ensures l.event.roundId in w.rounds && AboutOwnRound(l) && l.contract == w.market
  {
    ReachableIsSolvent(o, w);
    assert RoundOk(w, l.event.roundId);
  }

  /** The view of an interleaved log mirrors every market at once. */
  lemma ViewMirrorsMarkets(o: Oracle, events: seq<Logged>, markets: Markets)
    requires AllReachable(o, markets) && Interleaves(events, markets)
    ensures MirrorsMarkets(View(events), markets)
  {
    AllAboutOwnRounds(o, events, markets);
    forall id: RoundId
      ensures RowMirrors(View(events), markets, id)
    {
      RowMirrorsMarket(o, events, markets, id);
    }
  }

  lemma RowMirrorsMarket(o: Oracle, events: seq<Logged>, markets: Markets, id: RoundId)
    requires AllReachable(o, markets) && Interleaves(events, markets)
    requires forall i | 0 <= i < |events| :: AboutOwnRound(events[i])
    ensures RowMirrors(View(events), markets, id)
  {
    if id.RoundDigest? && id.contract in markets {
      MarketsDoNotInterfere(events, id);
      OwnRowMirrors(o, markets[id.contract], id);
    } else {
      UnpublishedHasNoRow(events, id);
    }
  }

  lemma OwnRowMirrors(o: Oracle, w: World, id: RoundId)
    requires Reachable(o, w)
    ensures id in View(w.events) <==> id in w.rounds
    ensures id in w.rounds ==>
      Mirrors(View(w.events)[id], w.rounds[id]) && id.RoundDigest? && View(w.events)[id].marketId == id.contract
  {
    TableSimulatesContract(o, w);
    if id in w.rounds { ReachableRound(o, w, id); }
  }

  lemma {:induction false} UnpublishedHasNoRow(events: seq<Logged>, id: RoundId)
    requires forall i | 0 <= i < |events| :: events[i].event.roundId != id
    ensures id !in View(events)
  {
    if |events| > 0 { UnpublishedHasNoRow(events[..|events| - 1], id); }
  }

  /** A database that holds both logs holds every market's table. */
  lemma HeldLogsMirror(o: Oracle, markets: Markets, contents: Store, a: Attempt)
    requires AllReachable(o, markets) && Carries(a.core.log, markets)
    requires NoRoundEvents(a.infrastructure.log) && HoldsAll(contents, a)
    ensures MirrorsMarkets(contents.rounds, markets)
  {
    var core, quiet := a.core.log, a.infrastructure.log;
    OnePassIsView(core, |core|);
    QuietKeepsTable(IngestAll(EMPTY, core), quiet, |quiet|);
    ViewMirrorsMarkets(o, RoundEvents(core, |core|), markets);
  }

  /**
   * The synchroniser over any number of attempts. If the last one meets an
   * exhaustive node whose core log carries the events of reachable markets, and it
   * completes, as it does when it may write everything once, the rounds table
   * mirrors all of them.
   */
  method IndexMarkets(db: EvidenceDatabase, attempts: seq<Attempt>, ghost o: Oracle, ghost markets: Markets)
    returns (done: bool)
    requires |attempts| > 0 && Growing(attempts)
    requires db.Contents() == EMPTY && db.syncState == map[]
    requires
      var last := attempts[|attempts| - 1];
      ExhaustiveAttempt(last) && AllReachable(o, markets) && Carries(last.core.log, markets)
    modifies db
    ensures done ==> MirrorsMarkets(db.rounds, markets)
    ensures Unhurried(attempts[|attempts| - 1]) ==> done
  {
    done := SyncRepeatedly(db, attempts);
    ghost var last := attempts[|attempts| - 1];
    assert Orderly(last);
    if done { HeldLogsMirror(o, markets, db.Contents(), last); }
  }
}
