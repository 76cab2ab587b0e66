// apps/indexer/src/db.ts: the event archive, the rounds table it materialises,
// and the per-source progress record.
module EvidenceStore {
  import opened Prelude
  import opened MarketTypes
  import opened EvidenceView

  type EventId = nat

  /** A chain event; only the market's own events carry a decoded round event. */
  datatype IndexedEvent = IndexedEvent(id: EventId, contractId: Address, ledger: nat, roundEvent: Option<Event>)

  datatype Source = Core | Infrastructure

  datatype SyncState = SyncState(cursor: Option<nat>, latestLedger: nat)

  /** The two tables that events are written to. */
  datatype Store = Store(events: map<EventId, IndexedEvent>, rounds: Table)

  const EMPTY: Store := Store(map[], map[])

  /** The round event as the ledger recorded it. */
  function Decoded(e: IndexedEvent): Logged
    requires e.roundEvent.Some?
  {
    Logged(e.contractId, e.ledger, e.roundEvent.value)
  }

  /** insertEvent on values: a known id changes nothing, a new one is stored and applied. */
  function Ingest(s: Store, e: IndexedEvent): Store {
    if e.id in s.events then s
    else Store(
      s.events[e.id := e],
      if e.roundEvent.Some? then ApplyRoundEvent(s.rounds, Decoded(e)) else s.rounds)
  }

  /** insertEvent for the events of a log from one position up to another, in order. */
  function Ingested(s: Store, log: seq<IndexedEvent>, from: nat, to: nat): Store
    requires to <= |log|
  {
    if to <= from then s else Ingest(Ingested(s, log, from, to - 1), log[to - 1])
  }

  function IngestAll(s: Store, log: seq<IndexedEvent>): Store {
    Ingested(s, log, 0, |log|)
  }

  class EvidenceDatabase {
    var chainEvents: map<EventId, IndexedEvent>
    var rounds: Table
    var syncState: map<Source, SyncState>

    ghost function Contents(): Store
      reads this`chainEvents, this`rounds
    {
      Store(chainEvents, rounds)
    }

    constructor ()
      ensures Contents() == EMPTY && syncState == map[]
    {
      chainEvents, rounds, syncState := map[], map[], map[];
    }

    /** INSERT OR IGNORE, then the view; true when the event was new. */
    method InsertEvent(event: IndexedEvent) returns (inserted: bool)
      modifies this`chainEvents, this`rounds
      ensures inserted == (event.id !in old(chainEvents))
      ensures Contents() == Ingest(old(Contents()), event)
    {
      if event.id in chainEvents { return false; }
      chainEvents := chainEvents[event.id := event];
      if event.roundEvent.Some? {
        ApplyRoundEvent(event.contractId, event.ledger, event.roundEvent.value);
      }
      return true;
    }

    /** One INSERT OR REPLACE or UPDATE ... WHERE round_id = ? per event type. */
    method ApplyRoundEvent(contractId: Address, ledger: nat, event: Event)
      modifies this`rounds
      ensures rounds == EvidenceView.ApplyRoundEvent(old(rounds), Logged(contractId, ledger, event))
    {
      var id := event.roundId;
      if event.RoundCreated? {
        rounds := rounds[id := Row(contractId, event.issuer, Draft, 0, None, None, None, event.config, false, ledger)];
        return;
      }
      if id !in rounds { return; }
      var row := rounds[id].(lastLedger := ledger);
      match event {
        case RwaFunded(_, _) => row := row.(rwaEscrowed := true);
        case RoundOpened(_) => row := row.(status := Open);
        case BidRegistered(_, _, _) => row := row.(bidderCount := row.bidderCount + 1);
        case BidWithdrawn(_, _) =>
          var decremented: int := row.bidderCount - 1;
          row := row.(bidderCount := if 0 > decremented then 0 else decremented);
        case RoundClosed(_, count, hash) =>
          row := row.(status := Closed, bidderCount := count, participantSetHash := Some(hash));
        case WinnerProven(_, winner, proof, hash) =>
          row := row.(winner := Some(winner), proofHash := Some(proof), participantSetHash := Some(hash));
        case RoundSettled(_, winner, proof) =>
          row := row.(status := Settled, winner := Some(winner), proofHash := Some(proof));
        case RoundFailed(_, _) => row := row.(status := Failed);
        case RwaReclaimed(_, _, _) => row := row.(status := Cancelled, rwaEscrowed := false);
      }
      rounds := rounds[id := row];
    }

    method SetSyncState(source: Source, cursor: Option<nat>, latestLedger: nat)
      modifies this`syncState
      ensures syncState == old(syncState)[source := SyncState(cursor, latestLedger)]
    {
      syncState := syncState[source := SyncState(cursor, latestLedger)];
    }
  }

  function Max(a: nat, b: nat): nat {
    if a < b then b else a
  }

  lemma {:induction false} IngestedKeeps(s: Store, log: seq<IndexedEvent>, from: nat, to: nat, id: EventId)
    requires to <= |log| && id in s.events
    ensures id in Ingested(s, log, from, to).events
  {
    if from < to { IngestedKeeps(s, log, from, to - 1, id); }
  }

  lemma {:induction false} IngestedHas(s: Store, log: seq<IndexedEvent>, from: nat, to: nat, i: nat)
    requires from <= i < to <= |log|
    ensures log[i].id in Ingested(s, log, from, to).events
  {
    if i < to - 1 { IngestedHas(s, log, from, to - 1, i); }
  }

  /**
   * Resuming repeats nothing: having stored the first n events of a log, going
   * through any stretch from c to m that starts no later gives what one pass
   * over the first max(n, m) events gives.
   */
  lemma {:induction false} ResumeIsIdempotent(s: Store, log: seq<IndexedEvent>, c: nat, n: nat, m: nat)
    requires c <= n <= |log| && m <= |log|
    ensures Ingested(Ingested(s, log, 0, n), log, c, m) == Ingested(s, log, 0, Max(n, m))
    decreases m
  {
    if c < m {
      ResumeIsIdempotent(s, log, c, n, m - 1);
      if m - 1 < n { IngestedHas(s, log, 0, n, m - 1); }
    }
  }

  /** A longer log starts with the same pass. */
  lemma {:induction false} PrefixIngestsAlike(s: Store, log: seq<IndexedEvent>, log': seq<IndexedEvent>, n: nat)
    requires log <= log' && n <= |log|
    ensures Ingested(s, log, 0, n) == Ingested(s, log', 0, n)
  {
    if n > 0 { PrefixIngestsAlike(s, log, log', n - 1); }
  }

  predicate Apart(a: seq<IndexedEvent>, b: seq<IndexedEvent>, i: nat, j: nat) {
    i < |a| && j < |b| ==> a[i].id != b[j].id
  }

  predicate Quiet(es: seq<IndexedEvent>, j: nat) {
    j < |es| ==> es[j].roundEvent.None?
  }

  ghost predicate Disjoint(a: seq<IndexedEvent>, b: seq<IndexedEvent>) {
    forall i: nat, j: nat :: Apart(a, b, i, j)
  }

  ghost predicate NoRoundEvents(es: seq<IndexedEvent>) {
    forall j: nat :: Quiet(es, j)
  }

  lemma IngestCommutes(s: Store, e: IndexedEvent, f: IndexedEvent)
    requires e.id != f.id && f.roundEvent.None?
    ensures Ingest(Ingest(s, e), f) == Ingest(Ingest(s, f), e)
  {
    assert s.events[e.id := e][f.id := f] == s.events[f.id := f][e.id := e];
  }

  lemma {:induction false} IngestOneCommutes(
    s: Store, core: seq<IndexedEvent>, i: nat, quiet: seq<IndexedEvent>, m: nat)
    requires NoRoundEvents(quiet) && Disjoint(core, quiet) && i < |core| && m <= |quiet|
    ensures Ingest(Ingested(s, quiet, 0, m), core[i]) == Ingested(Ingest(s, core[i]), quiet, 0, m)
    decreases m
  {
    if m > 0 {
      IngestOneCommutes(s, core, i, quiet, m - 1);
      assert Apart(core, quiet, i, m - 1) && Quiet(quiet, m - 1);
      IngestCommutes(Ingested(s, quiet, 0, m - 1), core[i], quiet[m - 1]);
    }
  }

  /** The two contract groups commute: only the market's group writes the rounds table. */
  lemma {:induction false} GroupsCommute(s: Store, core: seq<IndexedEvent>, n: nat, quiet: seq<IndexedEvent>, m: nat)
    requires NoRoundEvents(quiet) && Disjoint(core, quiet) && n <= |core| && m <= |quiet|
    ensures Ingested(Ingested(s, core, 0, n), quiet, 0, m) == Ingested(Ingested(s, quiet, 0, m), core, 0, n)
    decreases n
  {
    if n > 0 {
      GroupsCommute(s, core, n - 1, quiet, m);
      IngestOneCommutes(Ingested(s, core, 0, n - 1), core, n - 1, quiet, m);
    }
  }

  /** A group without round events leaves the rounds table alone. */
  lemma {:induction false} QuietKeepsTable(s: Store, quiet: seq<IndexedEvent>, m: nat)
    requires NoRoundEvents(quiet) && m <= |quiet|
    ensures Ingested(s, quiet, 0, m).rounds == s.rounds
    decreases m
  {
    if m > 0 {
      QuietKeepsTable(s, quiet, m - 1);
      assert Quiet(quiet, m - 1);
    }
  }

  /** The round events of the first n events of a log. */
  function RoundEvents(log: seq<IndexedEvent>, n: nat): seq<Logged>
    requires n <= |log|
  {
    if n == 0 then []
    else
      var front, e := RoundEvents(log, n - 1), log[n - 1];
      if e.roundEvent.Some? then front + [Decoded(e)] else front
  }

  predicate DistinctIds(log: seq<IndexedEvent>) {
    forall i, j | 0 <= i < j < |log| :: log[i].id != log[j].id
  }

  lemma {:induction false} NotYetIngested(log: seq<IndexedEvent>, n: nat, k: nat)
    requires DistinctIds(log) && n <= k < |log|
    ensures log[k].id !in Ingested(EMPTY, log, 0, n).events
    decreases n
  {
    if n > 0 {
      NotYetIngested(log, n - 1, k);
      assert log[n - 1].id != log[k].id;
    }
  }

  /** On a log of distinct ids, the archive's rounds table is the view of the log. */
  lemma {:induction false} OnePassIsView(log: seq<IndexedEvent>, n: nat)
    requires DistinctIds(log) && n <= |log|
    ensures Ingested(EMPTY, log, 0, n).rounds == View(RoundEvents(log, n))
    decreases n
  {
    if n > 0 {
      var e := log[n - 1];
      OnePassIsView(log, n - 1);
      NotYetIngested(log, n - 1, n - 1);
      if e.roundEvent.Some? { ViewAppend(RoundEvents(log, n - 1), Decoded(e)); }
    }
  }

  /** The archive holds exactly the log's events, each under its id and as it came. */
  lemma {:induction false} ArchiveHoldsLog(log: seq<IndexedEvent>, n: nat)
    requires DistinctIds(log) && n <= |log|
    ensures
      var archive := Ingested(EMPTY, log, 0, n).events;
      && (forall i | 0 <= i < n :: log[i].id in archive && archive[log[i].id] == log[i])
      && (forall id | id in archive :: exists i :: 0 <= i < n && log[i].id == id)
    decreases n
  {
    if n > 0 {
      var archive, archive' := Ingested(EMPTY, log, 0, n - 1).events, Ingested(EMPTY, log, 0, n).events;
      ArchiveHoldsLog(log, n - 1);
      NotYetIngested(log, n - 1, n - 1);
      forall id | id in archive' ensures exists i :: 0 <= i < n && log[i].id == id {
        if id == log[n - 1].id { assert log[n - 1].id == id; } else { assert id in archive; }
      }
    }
  }

  /** The row insert of insertEvent without the table update that follows it: what a crash between the two leaves. */
  function Torn(s: Store, e: IndexedEvent): Store {
    s.(events := s.events[e.id := e])
  }

  /** The log as if event i carried no round event. */
  function Silenced(log: seq<IndexedEvent>, i: nat): (silenced: seq<IndexedEvent>)
    requires i < |log|
    ensures |silenced| == |log|
  {
    log[i := log[i].(roundEvent := None)]
  }

  /** The same events known, and the same table. */
  predicate Agree(a: Store, b: Store) {
    a.events.Keys == b.events.Keys && a.rounds == b.rounds
  }

  lemma {:induction false} SilencedAgree(a: Store, b: Store, log: seq<IndexedEvent>, i: nat, from: nat, to: nat)
    requires i < |log| && to <= |log| && Agree(a, b) && log[i].id in a.events
    ensures Agree(Ingested(a, log, from, to), Ingested(b, Silenced(log, i), from, to))
  {
    if from < to {
      SilencedAgree(a, b, log, i, from, to - 1);
      IngestedKeeps(a, log, from, to - 1, log[i].id);
    }
  }

  lemma {:induction false} SilencedAlikeBefore(log: seq<IndexedEvent>, i: nat, n: nat)
    requires n <= i < |log|
    ensures Ingested(EMPTY, Silenced(log, i), 0, n) == Ingested(EMPTY, log, 0, n)
    decreases n
  {
    if n > 0 { SilencedAlikeBefore(log, i, n - 1); }
  }

  lemma TornAgrees(log: seq<IndexedEvent>, i: nat)
    requires DistinctIds(log) && i < |log|
    ensures Agree(Torn(Ingested(EMPTY, log, 0, i), log[i]), Ingested(EMPTY, Silenced(log, i), 0, i + 1))
  {
    SilencedAlikeBefore(log, i, i);
    NotYetIngested(log, i, i);
  }

  /**
   * After a crash between the two statements of insertEvent the event counts as
   * known, so wherever a later pass resumes, it leaves the view of the log without
   * that event.
   */
  lemma TornInsertForgets(log: seq<IndexedEvent>, i: nat, c: nat, n: nat)
    requires DistinctIds(log) && c <= i < n <= |log|
    ensures Ingested(Torn(Ingested(EMPTY, log, 0, i), log[i]), log, c, n).rounds
         == View(RoundEvents(Silenced(log, i), n))
  {
    var torn, whole := Torn(Ingested(EMPTY, log, 0, i), log[i]), Ingested(EMPTY, Silenced(log, i), 0, i + 1);
    TornAgrees(log, i);
    SilencedAgree(torn, whole, log, i, c, n);
    ResumeIsIdempotent(EMPTY, Silenced(log, i), c, i + 1, n);
    OnePassIsView(Silenced(log, i), n);
  }
}
