// apps/indexer/src/sync.ts: paging through each contract group's log with a
// persisted cursor. A process may die between any two database writes.
module EvidenceSync {
  import opened Prelude
  import opened EvidenceStore

  /** One getEvents response; the cursor, when present, stands right after the last event returned. */
  datatype Page = Page(events: seq<IndexedEvent>, cursor: Option<nat>, latestLedger: nat)

  /** A group's log from the start ledger on, and what the node answers from each position. */
  datatype Rpc = Rpc(log: seq<IndexedEvent>, serve: nat -> Page)

  const PAGE_LIMIT: nat := 100

  /** Pages are stretches of the log, in order, never longer than the limit. */
  ghost predicate Honest(rpc: Rpc) {
    forall s: nat | s <= |rpc.log| ::
      var p := rpc.serve(s);
      && |p.events| <= PAGE_LIMIT
      && s + |p.events| <= |rpc.log|
      && p.events == rpc.log[s..s + |p.events|]
      && (p.cursor.Some? ==> p.cursor.value == s + |p.events|)
  }

  /** A node that never cuts a page short of the end and always says where it ended. */
  ghost predicate Exhaustive(rpc: Rpc) {
    forall s: nat | s <= |rpc.log| ::
      var p := rpc.serve(s);
      && (|p.events| < PAGE_LIMIT ==> s + |p.events| == |rpc.log|)
      && (|p.events| == PAGE_LIMIT ==> p.cursor.Some?)
  }

  function CursorOf(state: map<Source, SyncState>, source: Source): Option<nat> {
    if source in state then state[source].cursor else None
  }

  function Position(cursor: Option<nat>): nat {
    match cursor case Some(p) => p case None => 0
  }

  /** How far each group has been stored. */
  datatype Progress = Progress(core: nat, infrastructure: nat) {
    function Of(source: Source): nat {
      match source case Core => core case Infrastructure => infrastructure
    }

    function With(source: Source, n: nat): Progress {
      match source case Core => this.(core := n) case Infrastructure => this.(infrastructure := n)
    }
  }

  datatype Logs = Logs(core: seq<IndexedEvent>, infrastructure: seq<IndexedEvent>) {
    function Of(source: Source): seq<IndexedEvent> {
      match source case Core => core case Infrastructure => infrastructure
    }
  }

  /** Distinct ids across the groups, and round events in the core group only. */
  ghost predicate WellGrouped(logs: Logs) {
    Disjoint(logs.core, logs.infrastructure) && NoRoundEvents(logs.infrastructure)
  }

  /** The uninterrupted in-order pass over the first events of both groups. */
  function OnePass(logs: Logs, p: Progress): Store
    requires p.core <= |logs.core| && p.infrastructure <= |logs.infrastructure|
  {
    Ingested(Ingested(EMPTY, logs.core, 0, p.core), logs.infrastructure, 0, p.infrastructure)
  }

  /** The database holds exactly a prefix of each group, and no cursor is ahead of what is stored. */
  ghost predicate Tracks(contents: Store, state: map<Source, SyncState>, logs: Logs, p: Progress) {
    && p.core <= |logs.core| && p.infrastructure <= |logs.infrastructure|
    && contents == OnePass(logs, p)
    && Position(CursorOf(state, Core)) <= p.core
    && Position(CursorOf(state, Infrastructure)) <= p.infrastructure
  }

  /** Storing one group's event, old or next in line, keeps the database a pair of prefixes. */
  lemma StoredOne(logs: Logs, p: Progress, source: Source, i: nat)
    requires WellGrouped(logs) && p.core <= |logs.core| && p.infrastructure <= |logs.infrastructure|
    requires i <= p.Of(source) && i < |logs.Of(source)|
    ensures
      var p' := p.With(source, Max(p.Of(source), i + 1));
      Ingest(OnePass(logs, p), logs.Of(source)[i]) == OnePass(logs, p')
  {
    match source
    case Infrastructure =>
      StoredInGroup(Ingested(EMPTY, logs.core, 0, p.core), logs.infrastructure, p.infrastructure, i);
    case Core =>
      GroupsCommute(EMPTY, logs.core, p.core, logs.infrastructure, p.infrastructure);
      GroupsCommute(EMPTY, logs.core, Max(p.core, i + 1), logs.infrastructure, p.infrastructure);
      StoredInGroup(Ingested(EMPTY, logs.infrastructure, 0, p.infrastructure), logs.core, p.core, i);
  }

  lemma StoredInGroup(s: Store, log: seq<IndexedEvent>, n: nat, i: nat)
    requires i <= n <= |log| && i < |log|
    ensures Ingest(Ingested(s, log, 0, n), log[i]) == Ingested(s, log, 0, Max(n, i + 1))
  {
    ResumeIsIdempotent(s, log, i, n, i + 1);
    assert Ingested(Ingested(s, log, 0, n), log, i, i) == Ingested(s, log, 0, n);
  }

  /** The progress p' is p with this group at least as far. */
  ghost predicate Onward(p: Progress, p': Progress, source: Source) {
    p.Of(source) <= p'.Of(source) && p' == p.With(source, p'.Of(source))
  }

  lemma TracksStored(
    contents: Store, state: map<Source, SyncState>, logs: Logs, p: Progress, source: Source, i: nat)
    requires WellGrouped(logs) && Tracks(contents, state, logs, p)
    requires i <= p.Of(source) && i < |logs.Of(source)|
    ensures
      var p' := p.With(source, Max(p.Of(source), i + 1));
      Tracks(Ingest(contents, logs.Of(source)[i]), state, logs, p')
  {
    StoredOne(logs, p, source, i);
  }

  /** The inner loop: one page's events, one write each, until the budget is spent. */
  method StorePage(
    db: EvidenceDatabase, source: Source, start: nat, events: seq<IndexedEvent>, budget: nat,
    ghost logs: Logs, ghost p: Progress)
    returns (left: nat, done: bool, inserted: nat, ghost p': Progress)
    requires WellGrouped(logs) && Tracks(db.Contents(), db.syncState, logs, p)
    requires start <= p.Of(source) && start + |events| <= |logs.Of(source)|
    requires forall i | 0 <= i < |events| :: events[i] == logs.Of(source)[start + i]
    modifies db`chainEvents, db`rounds
    ensures Tracks(db.Contents(), db.syncState, logs, p') && Onward(p, p', source)
    ensures done <==> budget >= |events|
    ensures left == if done then budget - |events| else 0
    ensures done ==> start + |events| <= p'.Of(source)
    ensures |db.chainEvents| == old(|db.chainEvents|) + inserted
  {
    left, inserted, p' := budget, 0, p;
    for i := 0 to |events|
      invariant Tracks(db.Contents(), db.syncState, logs, p') && Onward(p, p', source)
      invariant start + i <= p'.Of(source)
      invariant left == budget - i
      invariant |db.chainEvents| == old(|db.chainEvents|) + inserted
    {
      if left == 0 { return left, false, inserted, p'; }
      TracksStored(db.Contents(), db.syncState, logs, p', source, start + i);
      var isNew := db.InsertEvent(events[i]);
      if isNew { inserted := inserted + 1; }
      p' := p'.With(source, Max(p'.Of(source), start + i + 1));
      left := left - 1;
    }
    done := true;
  }

  /** The cursors of the other groups. */
  predicate OtherCursorsKept(state: map<Source, SyncState>, state': map<Source, SyncState>, source: Source) {
    forall other: Source | other != source :: CursorOf(state', other) == CursorOf(state, other)
  }

  lemma CursorStored(
    contents: Store, state: map<Source, SyncState>, logs: Logs, p: Progress, source: Source, next: SyncState)
    requires Tracks(contents, state, logs, p) && Position(next.cursor) <= p.Of(source)
    ensures Tracks(contents, state[source := next], logs, p)
    ensures OtherCursorsKept(state, state[source := next], source)
  {
  }

  lemma PageEnd(rpc: Rpc, s: nat)
    requires Honest(rpc) && s <= |rpc.log|
    ensures
      var p := rpc.serve(s);
      && |p.events| <= PAGE_LIMIT
      && s + |p.events| <= |rpc.log|
      && (forall i | 0 <= i < |p.events| :: p.events[i] == rpc.log[s + i])
      && (p.cursor.Some? ==> p.cursor.value == s + |p.events|)
      && (Exhaustive(rpc) ==>
            && (|p.events| < PAGE_LIMIT ==> s + |p.events| == |rpc.log|)
            && (|p.events| == PAGE_LIMIT ==> p.cursor.Some?))
  {
  }

  /** The writes that reading n more events takes: one an event, and one a page for the cursor. */
  function Cost(n: int): int {
    if n < PAGE_LIMIT then n + 1 else PAGE_LIMIT + 1 + Cost(n - PAGE_LIMIT)
  }

  lemma {:induction false} CostGrows(m: nat, n: nat)
    requires m <= n
    ensures m < Cost(m) <= Cost(n)
    decreases n
  {
    if m >= PAGE_LIMIT {
      CostGrows(m - PAGE_LIMIT, n - PAGE_LIMIT);
    } else if n >= PAGE_LIMIT {
      CostGrows(n - PAGE_LIMIT, n - PAGE_LIMIT);
    }
  }

  function CostLeft(rpc: Rpc, cursor: Option<nat>): int {
    Cost(|rpc.log| - Position(cursor))
  }

  function NextCursor(page: Page, cursor: Option<nat>): Option<nat> {
    if page.cursor.Some? then page.cursor else cursor
  }

  /** Whether the loop goes on after a page. */
  predicate GoesOn(page: Page, cursor: Option<nat>) {
    var next := NextCursor(page, cursor);
    |page.events| >= PAGE_LIMIT && next.Some? && next != cursor
  }

  /** A page and its cursor cost one write an event and one more; what remains costs the rest. */
  lemma PageCost(rpc: Rpc, cursor: Option<nat>)
    requires Honest(rpc) && Exhaustive(rpc) && Position(cursor) <= |rpc.log|
    ensures
      var page := rpc.serve(Position(cursor));
      CostLeft(rpc, cursor) == |page.events| + 1
        + (if GoesOn(page, cursor) then CostLeft(rpc, NextCursor(page, cursor)) else 0)
    ensures GoesOn(rpc.serve(Position(cursor)), cursor) ==>
      CostLeft(rpc, NextCursor(rpc.serve(Position(cursor)), cursor)) > 0
  {
    PageEnd(rpc, Position(cursor));
    var next := NextCursor(rpc.serve(Position(cursor)), cursor);
    if Position(next) <= |rpc.log| { CostGrows(|rpc.log| - Position(next), |rpc.log| - Position(next)); }
  }

  /** An honest page moves the cursor forward, or ends the loop, at the end of an exhaustive node's log. */
  lemma PageMoves(rpc: Rpc, cursor: Option<nat>)
    requires Honest(rpc) && Position(cursor) <= |rpc.log|
    ensures
      var page, n := rpc.serve(Position(cursor)), Position(cursor);
      && Position(NextCursor(page, cursor)) <= n + |page.events|
      && (GoesOn(page, cursor) ==> n < Position(NextCursor(page, cursor)))
      && (!GoesOn(page, cursor) && Exhaustive(rpc) ==> n + |page.events| == |rpc.log|)
  {
    PageEnd(rpc, Position(cursor));
  }

  /**
   * One turn of the paging loop: a request, its events, and the new cursor. It is
   * cut short when the budget runs out, and says whether there is another page.
   */
  method SyncPage(
    db: EvidenceDatabase, source: Source, rpc: Rpc, cursor: Option<nat>, budget: nat,
    ghost logs: Logs, ghost p: Progress)
    returns (left: nat, done: bool, inserted: nat, ghost p': Progress)
    requires WellGrouped(logs) && logs.Of(source) == rpc.log && Honest(rpc)
    requires Tracks(db.Contents(), db.syncState, logs, p) && Position(cursor) <= p.Of(source)
    modifies db
    ensures Tracks(db.Contents(), db.syncState, logs, p') && Onward(p, p', source)
    ensures OtherCursorsKept(old(db.syncState), db.syncState, source)
    ensures |db.chainEvents| == old(|db.chainEvents|) + inserted
    ensures
      var n := |rpc.serve(Position(cursor)).events|;
      && (done <==> budget > n)
      && left == (if done then budget - n - 1 else 0)
      && (done ==> Position(cursor) + n <= p'.Of(source))
    ensures
      var page := rpc.serve(Position(cursor));
      if done then
        && source in db.syncState
        && db.syncState[source]
           == SyncState(if page.cursor.Some? then page.cursor else cursor, page.latestLedger)
      else db.syncState == old(db.syncState)
  {
    var page := rpc.serve(Position(cursor));
    PageEnd(rpc, Position(cursor));
    left, done, inserted, p' := StorePage(db, source, Position(cursor), page.events, budget, logs, p);
    if !done || left == 0 { return 0, false, inserted, p'; }
    PageMoves(rpc, cursor);
    var state := SyncState(NextCursor(page, cursor), page.latestLedger);
    CursorStored(db.Contents(), db.syncState, logs, p', source, state);
    db.SetSyncState(source, state.cursor, state.latestLedger);
    left := left - 1;
  }

  /** A page of an exhaustive node that is not the last is full, and its cursor is a page further. */
  lemma FullPage(rpc: Rpc, cursor: Option<nat>)
    requires Honest(rpc) && Exhaustive(rpc) && Position(cursor) <= |rpc.log|
    ensures
      var page, n := rpc.serve(Position(cursor)), |rpc.log| - Position(cursor);
      if GoesOn(page, cursor) then
        && |page.events| == PAGE_LIMIT <= n
        && NextCursor(page, cursor) == Some(Position(cursor) + PAGE_LIMIT)
      else |page.events| == n < PAGE_LIMIT && CostLeft(rpc, NextCursor(page, cursor)) <= PAGE_LIMIT
  {
    PageEnd(rpc, Position(cursor));
  }

  /** Where the source's stored cursor is after a pass over an exhaustive node that was allowed so many writes. */
  predicate CursorAfter(rpc: Rpc, before: Option<nat>, after: Option<nat>, budget: nat, done: bool) {
    if !done then Position(after) == Position(before) + PAGE_LIMIT * (budget / (PAGE_LIMIT + 1))
    else
      && Position(before) <= Position(after) && CostLeft(rpc, after) <= PAGE_LIMIT
      && (|rpc.log| - Position(before) < PAGE_LIMIT ==> after == NextCursor(rpc.serve(Position(before)), before))
  }

  /** Where the loop stands after so many full pages of an exhaustive node, or at its end. */
  predicate Paging(
    rpc: Rpc, start: Option<nat>, cursor: Option<nat>, budget: nat, left: nat, pages: nat, more: bool) {
    && left == budget - CostLeft(rpc, start) + (if more then CostLeft(rpc, cursor) else 0)
    && (if more then
          && Position(cursor) == Position(start) + PAGE_LIMIT * pages
          && left == budget - (PAGE_LIMIT + 1) * pages
          && (pages == 0 ==> cursor == start)
        else CursorAfter(rpc, start, cursor, budget, true))
  }

  /** One more page, or the budget runs out inside it. */
  lemma PagingTurn(rpc: Rpc, start: Option<nat>, cursor: Option<nat>, budget: nat, left: nat, pages: nat)
    requires Honest(rpc) && Exhaustive(rpc) && Position(cursor) <= |rpc.log|
    requires Paging(rpc, start, cursor, budget, left, pages, true)
    ensures
      var page := rpc.serve(Position(cursor));
      if left > |page.events| then
        Paging(rpc, start, NextCursor(page, cursor), budget, left - |page.events| - 1, pages + 1, GoesOn(page, cursor))
      else budget < CostLeft(rpc, start) && CursorAfter(rpc, start, cursor, budget, false)
  {
    PageCost(rpc, cursor);
    FullPage(rpc, cursor);
    var page := rpc.serve(Position(cursor));
    if left <= |page.events| {
      assert budget / (PAGE_LIMIT + 1) == pages;
    }
  }

  /**
   * One group's part of syncEvidenceStore, allowed at most `budget` database
   * writes before the process dies. However it ends, the database still holds a
   * prefix of each group; when it runs to completion against an exhaustive node,
   * it holds the whole group, and it runs to completion exactly when the budget
   * covers the events and cursors that remain. Short of that, every full page that
   * the budget covers moves the stored cursor on.
   */
  method SyncSource(db: EvidenceDatabase, source: Source, rpc: Rpc, budget: nat, ghost logs: Logs, ghost p: Progress)
    returns (left: nat, done: bool, inserted: nat, ghost p': Progress)
    requires WellGrouped(logs) && logs.Of(source) == rpc.log && Honest(rpc)
    requires Tracks(db.Contents(), db.syncState, logs, p)
    modifies db
    ensures Tracks(db.Contents(), db.syncState, logs, p') && Onward(p, p', source)
    ensures done && Exhaustive(rpc) ==> p'.Of(source) == |rpc.log|
    ensures !done ==> left == 0
    ensures
      var cost := CostLeft(rpc, CursorOf(old(db.syncState), source));
      Exhaustive(rpc) ==> (done <==> budget >= cost) && (done ==> left == budget - cost)
    ensures Exhaustive(rpc) ==>
      CursorAfter(rpc, CursorOf(old(db.syncState), source), CursorOf(db.syncState, source), budget, done)
    ensures OtherCursorsKept(old(db.syncState), db.syncState, source)
    ensures |db.chainEvents| == old(|db.chainEvents|) + inserted
  {
    left, inserted, p' := budget, 0, p;
    var cursor, more := CursorOf(db.syncState, source), true;
    ghost var start, pages: nat := cursor, 0;
    while more
      invariant Tracks(db.Contents(), db.syncState, logs, p') && Onward(p, p', source)
      invariant more ==> Position(cursor) <= p'.Of(source)
      invariant !more && Exhaustive(rpc) ==> p'.Of(source) == |rpc.log|
      invariant cursor == CursorOf(db.syncState, source)
      invariant Exhaustive(rpc) ==> Paging(rpc, start, cursor, budget, left, pages, more)
      invariant OtherCursorsKept(old(db.syncState), db.syncState, source)
      invariant |db.chainEvents| == old(|db.chainEvents|) + inserted
      decreases more, |rpc.log| - Position(cursor)
    {
      var page := rpc.serve(Position(cursor));
      PageMoves(rpc, cursor);
      if Exhaustive(rpc) { PagingTurn(rpc, start, cursor, budget, left, pages); }
      var added;
      left, done, added, p' := SyncPage(db, source, rpc, cursor, left, logs, p');
      inserted := inserted + added;
      if !done { return 0, false, inserted, p'; }
      more := GoesOn(page, cursor);
      cursor := NextCursor(page, cursor);
      pages := pages + 1;
    }
    done := true;
  }

  /** Where both stored cursors are after an attempt against exhaustive nodes: what core leaves is for the other. */
  predicate AttemptLeaves(
    core: Rpc, infrastructure: Rpc, before: map<Source, SyncState>, after: map<Source, SyncState>, budget: nat,
    done: bool) {
    var cost := CostLeft(core, CursorOf(before, Core));
    && CursorAfter(core, CursorOf(before, Core), CursorOf(after, Core), budget, budget >= cost)
    && (if budget < cost then !done && CursorOf(after, Infrastructure) == CursorOf(before, Infrastructure)
        else
          && (done <==> budget - cost >= CostLeft(infrastructure, CursorOf(before, Infrastructure)))
          && CursorAfter(infrastructure, CursorOf(before, Infrastructure), CursorOf(after, Infrastructure),
                         budget - cost, done))
  }

  /** Both groups, one after the other. */
  method SyncEvidenceStore(db: EvidenceDatabase, core: Rpc, infrastructure: Rpc, budget: nat, ghost p: Progress)
    returns (done: bool, inserted: nat, ghost p': Progress)
    requires WellGrouped(Logs(core.log, infrastructure.log)) && Honest(core) && Honest(infrastructure)
    requires Tracks(db.Contents(), db.syncState, Logs(core.log, infrastructure.log), p)
    modifies db
    ensures Tracks(db.Contents(), db.syncState, Logs(core.log, infrastructure.log), p')
    ensures done && Exhaustive(core) && Exhaustive(infrastructure) ==>
      p' == Progress(|core.log|, |infrastructure.log|)
    ensures
      var cost := CostLeft(core, CursorOf(old(db.syncState), Core))
                  + CostLeft(infrastructure, CursorOf(old(db.syncState), Infrastructure));
      Exhaustive(core) && Exhaustive(infrastructure) ==> (done <==> budget >= cost)
    ensures Exhaustive(core) && Exhaustive(infrastructure) ==>
      AttemptLeaves(core, infrastructure, old(db.syncState), db.syncState, budget, done)
    ensures |db.chainEvents| == old(|db.chainEvents|) + inserted
  {
    ghost var logs, before := Logs(core.log, infrastructure.log), db.syncState;
    var left;
    var ahead := |infrastructure.log| - Position(CursorOf(db.syncState, Infrastructure));
    CostGrows(ahead, ahead);
    left, done, inserted, p' := SyncSource(db, Core, core, budget, logs, p);
    if done {
      var added;
      left, done, added, p' := SyncSource(db, Infrastructure, infrastructure, left, logs, p');
      inserted := inserted + added;
    }
  }

  /** One run of the indexer: what the node showed it, and how long it lived. */
  datatype Attempt = Attempt(core: Rpc, infrastructure: Rpc, budget: nat)

  /** What the node showed this time. */
  function LogsOf(a: Attempt): Logs {
    Logs(a.core.log, a.infrastructure.log)
  }

  ghost predicate Orderly(a: Attempt) {
    Honest(a.core) && Honest(a.infrastructure) && WellGrouped(LogsOf(a))
  }

  predicate Extends(logs: Logs, logs': Logs) {
    logs.core <= logs'.core && logs.infrastructure <= logs'.infrastructure
  }

  /** Every attempt meets an honest node, and the chain only grows. */
  ghost predicate Growing(attempts: seq<Attempt>) {
    && (forall i | 0 <= i < |attempts| :: Orderly(attempts[i]))
    && (forall i | 0 < i < |attempts| :: Extends(LogsOf(attempts[i - 1]), LogsOf(attempts[i])))
  }

  /** What the attempts before number i have seen. */
  function LogsBefore(attempts: seq<Attempt>, i: nat): Logs
    requires i <= |attempts|
  {
    if i == 0 then Logs([], []) else LogsOf(attempts[i - 1])
  }

  lemma LongerLogs(contents: Store, state: map<Source, SyncState>, logs: Logs, logs': Logs, p: Progress)
    requires Tracks(contents, state, logs, p)
    requires Extends(logs, logs')
    ensures Tracks(contents, state, logs', p)
  {
    PrefixIngestsAlike(EMPTY, logs.core, logs'.core, p.core);
    var base := Ingested(EMPTY, logs.core, 0, p.core);
    PrefixIngestsAlike(base, logs.infrastructure, logs'.infrastructure, p.infrastructure);
  }

  /** The database holds the two logs of a completed attempt, as one uninterrupted pass writes them. */
  predicate HoldsAll(contents: Store, a: Attempt) {
    contents == IngestAll(IngestAll(EMPTY, a.core.log), a.infrastructure.log)
  }

  ghost predicate ExhaustiveAttempt(a: Attempt) {
    Exhaustive(a.core) && Exhaustive(a.infrastructure)
  }

  /** An attempt that may write every event and every cursor of both logs once. */
  predicate Unhurried(a: Attempt) {
    a.budget >= Cost(|a.core.log|) + Cost(|a.infrastructure.log|)
  }

  lemma UnhurriedSuffices(contents: Store, state: map<Source, SyncState>, a: Attempt, p: Progress)
    requires Unhurried(a) && Tracks(contents, state, LogsOf(a), p)
    ensures CostLeft(a.core, CursorOf(state, Core)) + CostLeft(a.infrastructure, CursorOf(state, Infrastructure))
            <= a.budget
  {
    CostGrows(|a.core.log| - Position(CursorOf(state, Core)), |a.core.log|);
    CostGrows(|a.infrastructure.log| - Position(CursorOf(state, Infrastructure)), |a.infrastructure.log|);
  }

  lemma CompletedHoldsAll(contents: Store, state: map<Source, SyncState>, a: Attempt)
    requires
      var logs := LogsOf(a);
      Tracks(contents, state, logs, Progress(|logs.core|, |logs.infrastructure|))
    ensures HoldsAll(contents, a)
  {
  }

  /**
   * Exactly-once effect. Whatever sequence of attempts came before, each cut off
   * at an arbitrary write while the chain kept growing, an attempt that completes
   * against an exhaustive node leaves exactly what one uninterrupted pass over
   * the two logs writes into an empty database; and an attempt that may write
   * every event and cursor once completes.
   */
  method SyncRepeatedly(db: EvidenceDatabase, attempts: seq<Attempt>) returns (done: bool)
    requires |attempts| > 0 && Growing(attempts)
    requires db.Contents() == EMPTY && db.syncState == map[]
    modifies db
    ensures
      var last := attempts[|attempts| - 1];
      ExhaustiveAttempt(last) ==> (done ==> HoldsAll(db.Contents(), last)) && (Unhurried(last) ==> done)
  {
    ghost var p := Progress(0, 0);
    done := false;
    for i := 0 to |attempts|
      invariant Tracks(db.Contents(), db.syncState, LogsBefore(attempts, i), p)
      invariant i > 0 && ExhaustiveAttempt(attempts[i - 1]) ==>
        (done ==> HoldsAll(db.Contents(), attempts[i - 1])) && (Unhurried(attempts[i - 1]) ==> done)
    {
      var a := attempts[i];
      LongerLogs(db.Contents(), db.syncState, LogsBefore(attempts, i), LogsOf(a), p);
      done, p := Try(db, a, p);
    }
  }

  /** One attempt, from whatever an earlier one left. */
  method Try(db: EvidenceDatabase, a: Attempt, ghost p: Progress) returns (done: bool, ghost p': Progress)
    requires Orderly(a) && Tracks(db.Contents(), db.syncState, LogsOf(a), p)
    modifies db
    ensures Tracks(db.Contents(), db.syncState, LogsOf(a), p')
    ensures ExhaustiveAttempt(a) && done ==> HoldsAll(db.Contents(), a)
    ensures ExhaustiveAttempt(a) && Unhurried(a) ==> done
  {
    if a.budget >= Cost(|a.core.log|) + Cost(|a.infrastructure.log|) {
      UnhurriedSuffices(db.Contents(), db.syncState, a, p);
    }
    var inserted;
    done, inserted, p' := SyncEvidenceStore(db, a.core, a.infrastructure, a.budget, p);
    if done && ExhaustiveAttempt(a) { CompletedHoldsAll(db.Contents(), db.syncState, a); }
  }

  // Progress over attempts that are all cut short.

  /** The full pages that a source's stored cursor has not passed. */
  function PagesLeft(rpc: Rpc, cursor: Option<nat>): int {
    (|rpc.log| - Position(cursor)) / PAGE_LIMIT
  }

  function AllPagesLeft(a: Attempt, state: map<Source, SyncState>): int {
    PagesLeft(a.core, CursorOf(state, Core)) + PagesLeft(a.infrastructure, CursorOf(state, Infrastructure))
  }

  /** The writes it takes to find nothing new, from these cursors. */
  function ResumeCost(a: Attempt, state: map<Source, SyncState>): int {
    CostLeft(a.core, CursorOf(state, Core)) + CostLeft(a.infrastructure, CursorOf(state, Infrastructure))
  }

  /** How far a source's attempts have come: done and cheap to resume, or so many pages from it. */
  predicate Come(a: Attempt, state: map<Source, SyncState>, done: bool, pages: int) {
    if done then ResumeCost(a, state) <= 2 * PAGE_LIMIT else AllPagesLeft(a, state) <= pages
  }

  lemma ComeAlike(a: Attempt, b: Attempt, state: map<Source, SyncState>, done: bool, pages: int)
    requires LogsOf(a) == LogsOf(b) && Come(a, state, done, pages)
    ensures Come(b, state, done, pages)
  {
  }

  lemma CheapMeansLastPage(n: nat)
    ensures Cost(n) <= PAGE_LIMIT <==> n < PAGE_LIMIT
  {
    if n >= PAGE_LIMIT { CostGrows(n - PAGE_LIMIT, n - PAGE_LIMIT); }
  }

  /** A finished source has no full page left, and had one if finishing cost more than a page. */
  lemma SourceDone(rpc: Rpc, before: Option<nat>, after: Option<nat>, budget: nat)
    requires Position(before) <= |rpc.log| && Position(after) <= |rpc.log|
    requires CursorAfter(rpc, before, after, budget, true)
    ensures PagesLeft(rpc, after) == 0 <= PagesLeft(rpc, before)
    ensures CostLeft(rpc, before) > PAGE_LIMIT ==> PagesLeft(rpc, before) >= 1
  {
    CheapMeansLastPage(|rpc.log| - Position(before));
    CheapMeansLastPage(|rpc.log| - Position(after));
  }

  /** An unfinished source is no further back, and further on if it was allowed a whole page. */
  lemma SourceMoves(rpc: Rpc, before: Option<nat>, after: Option<nat>, budget: nat)
    requires CursorAfter(rpc, before, after, budget, false)
    ensures PagesLeft(rpc, after) <= PagesLeft(rpc, before)
    ensures budget >= PAGE_LIMIT + 1 ==> PagesLeft(rpc, after) < PagesLeft(rpc, before)
  {
  }

  /** An attempt that may write two pages completes, cheaply resumable, or is at least one page further. */
  lemma AttemptProgress(a: Attempt, before: map<Source, SyncState>, after: map<Source, SyncState>, done: bool)
    requires Position(CursorOf(before, Core)) <= |a.core.log|
    requires Position(CursorOf(before, Infrastructure)) <= |a.infrastructure.log|
    requires Position(CursorOf(after, Core)) <= |a.core.log|
    requires Position(CursorOf(after, Infrastructure)) <= |a.infrastructure.log|
    requires a.budget >= 2 * PAGE_LIMIT + 1
    requires AttemptLeaves(a.core, a.infrastructure, before, after, a.budget, done)
    ensures
      if done then ResumeCost(a, after) <= 2 * PAGE_LIMIT
      else AllPagesLeft(a, after) < AllPagesLeft(a, before)
  {
    var c0, c1 := CursorOf(before, Core), CursorOf(after, Core);
    var i0, i1 := CursorOf(before, Infrastructure), CursorOf(after, Infrastructure);
    var cost := CostLeft(a.core, c0);
    if a.budget < cost {
      SourceMoves(a.core, c0, c1, a.budget);
    } else {
      SourceDone(a.core, c0, c1, a.budget);
      if !done { SourceMoves(a.infrastructure, i0, i1, a.budget - cost); }
    }
  }

  /** The next attempt, after earlier ones that came so far. */
  lemma ComesFurther(
    a: Attempt, before: map<Source, SyncState>, after: map<Source, SyncState>, wasDone: bool, done: bool, pages: int)
    requires Position(CursorOf(before, Core)) <= |a.core.log|
    requires Position(CursorOf(before, Infrastructure)) <= |a.infrastructure.log|
    requires Position(CursorOf(after, Core)) <= |a.core.log|
    requires Position(CursorOf(after, Infrastructure)) <= |a.infrastructure.log|
    requires a.budget >= 2 * PAGE_LIMIT + 1 && Come(a, before, wasDone, pages)
    requires AttemptLeaves(a.core, a.infrastructure, before, after, a.budget, done)
    requires done <==> a.budget >= ResumeCost(a, before)
    ensures Come(a, after, done, pages - 1) && (wasDone ==> done)
  {
    AttemptProgress(a, before, after, done);
  }

  /** The node shows these logs in every attempt, in full, and each may write two pages and one thing more. */
  ghost predicate Persistent(attempts: seq<Attempt>, logs: Logs) {
    forall i | 0 <= i < |attempts| ::
      && Orderly(attempts[i]) && ExhaustiveAttempt(attempts[i])
      && LogsOf(attempts[i]) == logs && attempts[i].budget >= 2 * PAGE_LIMIT + 1
  }

  method TryAgain(
    db: EvidenceDatabase, a: Attempt, ghost logs: Logs, ghost p: Progress, ghost wasDone: bool, ghost pages: int,
    ghost first: Attempt)
    returns (done: bool, ghost p': Progress)
    requires Orderly(a) && ExhaustiveAttempt(a) && LogsOf(a) == logs == LogsOf(first)
    requires a.budget >= 2 * PAGE_LIMIT + 1 && Tracks(db.Contents(), db.syncState, logs, p)
    requires Come(first, db.syncState, wasDone, pages)
    modifies db
    ensures Tracks(db.Contents(), db.syncState, logs, p')
    ensures done ==> p' == Progress(|logs.core|, |logs.infrastructure|)
    ensures Come(first, db.syncState, done, pages - 1)
  {
    ghost var before := db.syncState;
    ComeAlike(first, a, before, wasDone, pages);
    var inserted;
    done, inserted, p' := SyncEvidenceStore(db, a.core, a.infrastructure, a.budget, p);
    ComesFurther(a, before, db.syncState, wasDone, done, pages);
    ComeAlike(a, first, db.syncState, done, pages - 1);
  }

  /**
   * Attempts that are all cut short still finish. From whatever earlier attempts
   * left, once the chain stands still, more attempts than there are full pages
   * left, each allowed two pages of writes and one more, complete both logs.
   */
  method SyncPersistently(db: EvidenceDatabase, attempts: seq<Attempt>, ghost logs: Logs, ghost p: Progress)
    returns (done: bool)
    requires |attempts| > 0 && Persistent(attempts, logs)
    requires WellGrouped(logs) && Tracks(db.Contents(), db.syncState, logs, p)
    requires |attempts| > AllPagesLeft(attempts[0], db.syncState)
    modifies db
    ensures done && HoldsAll(db.Contents(), attempts[0])
  {
    ghost var pages, p' := AllPagesLeft(attempts[0], db.syncState), p;
    done := false;
    for i := 0 to |attempts|
      invariant Tracks(db.Contents(), db.syncState, logs, p')
      invariant done ==> p' == Progress(|logs.core|, |logs.infrastructure|)
      invariant Come(attempts[0], db.syncState, done, pages - i)
    {
      done, p' := TryAgain(db, attempts[i], logs, p', done, pages - i, attempts[0]);
    }
    CompletedHoldsAll(db.Contents(), db.syncState, attempts[0]);
  }

  // Two pages of writes and no more.

  /** A log of events that decode to nothing. */
  function Plain(from: nat, n: nat): (log: seq<IndexedEvent>)
    ensures |log| == n && forall i | 0 <= i < n :: log[i] == IndexedEvent(from + i, 0, 0, None)
  {
    seq(n, i requires 0 <= i < n => IndexedEvent(from + i, 0, 0, None))
  }

  /** An exhaustive node that gives no cursor with a page that is not full. */
  function TerseNode(log: seq<IndexedEvent>): Rpc {
    Rpc(log, (s: nat) =>
          if s + PAGE_LIMIT <= |log| then Page(log[s..s + PAGE_LIMIT], Some(s + PAGE_LIMIT), 0)
          else if s <= |log| then Page(log[s..], None, 0)
          else Page([], None, 0))
  }

  lemma TerseNodeIsExhaustive(log: seq<IndexedEvent>)
    ensures Honest(TerseNode(log)) && Exhaustive(TerseNode(log))
  {
  }

  /** A core log one event short of a page, with no cursor for that page, before another log of at least a page. */
  ghost predicate Starves(core: Rpc, infrastructure: Rpc) {
    && Honest(core) && Exhaustive(core) && Honest(infrastructure) && Exhaustive(infrastructure)
    && WellGrouped(Logs(core.log, infrastructure.log))
    && |core.log| == PAGE_LIMIT - 1 && core.serve(0).cursor.None? && |infrastructure.log| >= PAGE_LIMIT
  }

  lemma StarvationIsPossible()
    ensures Starves(TerseNode(Plain(0, PAGE_LIMIT - 1)), TerseNode(Plain(PAGE_LIMIT, PAGE_LIMIT)))
  {
    TerseNodeIsExhaustive(Plain(0, PAGE_LIMIT - 1));
    TerseNodeIsExhaustive(Plain(PAGE_LIMIT, PAGE_LIMIT));
    PlainLogsAreGrouped();
  }

  lemma PlainLogsAreGrouped()
    ensures WellGrouped(Logs(Plain(0, PAGE_LIMIT - 1), Plain(PAGE_LIMIT, PAGE_LIMIT)))
  {
    var a, b := Plain(0, PAGE_LIMIT - 1), Plain(PAGE_LIMIT, PAGE_LIMIT);
    forall i: nat, j: nat ensures Apart(a, b, i, j) {}
    forall j: nat ensures Quiet(b, j) {}
  }

  lemma Starved(
    core: Rpc, infrastructure: Rpc, before: map<Source, SyncState>, after: map<Source, SyncState>, budget: nat,
    done: bool)
    requires Starves(core, infrastructure) && budget <= 2 * PAGE_LIMIT
    requires Position(CursorOf(before, Core)) == 0 && Position(CursorOf(before, Infrastructure)) == 0
    requires AttemptLeaves(core, infrastructure, before, after, budget, done)
    ensures !done && Position(CursorOf(after, Core)) == 0 && Position(CursorOf(after, Infrastructure)) == 0
  {
    var n := |infrastructure.log| - PAGE_LIMIT;
    CostGrows(n, n);
    assert CostLeft(core, CursorOf(before, Core)) == PAGE_LIMIT;
  }

  /**
   * Two pages of writes do not suffice: when the core log is one event short of a
   * page and its node gives no cursor for that, every attempt stores it again and
   * dies before the other group's first cursor, however many attempts there are.
   */
  method TwoPagesMayNotSuffice(
    db: EvidenceDatabase, core: Rpc, infrastructure: Rpc, budget: nat, attempts: nat) returns (completed: bool)
    requires db.Contents() == EMPTY && db.syncState == map[]
    requires Starves(core, infrastructure) && budget <= 2 * PAGE_LIMIT
    modifies db
    ensures !completed
  {
    completed := false;
    ghost var p := Progress(0, 0);
    for i := 0 to attempts
      invariant !completed
      invariant Tracks(db.Contents(), db.syncState, Logs(core.log, infrastructure.log), p)
      invariant Position(CursorOf(db.syncState, Core)) == 0 && Position(CursorOf(db.syncState, Infrastructure)) == 0
    {
      ghost var before := db.syncState;
      var done, inserted;
      done, inserted, p := SyncEvidenceStore(db, core, infrastructure, budget, p);
      Starved(core, infrastructure, before, db.syncState, budget, done);
      completed := completed || done;
    }
  }
}
