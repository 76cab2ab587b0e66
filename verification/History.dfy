// Where the replay gets its events: the indexer's archive, filtered for one
// wallet (apps/indexer/src/server.ts), merged with the RPC's newest window,
// deduplicated by id and sorted (apps/web/src/sandbox.ts).
module EventHistory {
  import opened Prelude
  import opened Curve
  import opened Disclosure
  import opened BalanceReplay
  import opened ConfidentialToken

  /** An event with its place in the chain; ids are their ranks in the order of their strings. */
  datatype Logged = Logged(ledger: nat, id: nat, event: TokenEvent)

  /** A stored row, or one whose text no longer parses. */
  datatype Row = Stored(logged: Logged) | Corrupt

  predicate Names(l: Logged, account: Account) {
    account in Topics(l.event)
  }

  /** The archive's answer for one wallet. */
  function ArchiveFor(rows: seq<Row>, account: Account): seq<Logged> {
    if |rows| == 0 then []
    else
      var (front, last) := (ArchiveFor(rows[..|rows| - 1], account), rows[|rows| - 1]);
      if last.Stored? && Names(last.logged, account) then front + [last.logged] else front
  }

  lemma ArchiveSnoc(rows: seq<Row>, row: Row, account: Account)
    ensures ArchiveFor(rows + [row], account)
         == ArchiveFor(rows, account)
            + (if row.Stored? && account in Topics(row.logged.event) then [row.logged] else [])
  {
    assert (rows + [row])[..|rows|] == rows;
  }

  /** Rows are filtered one by one, in their order. */
  lemma {:induction false} ArchiveInOrder(rows: seq<Row>, more: seq<Row>, account: Account)
    ensures ArchiveFor(rows + more, account) == ArchiveFor(rows, account) + ArchiveFor(more, account)
    decreases |more|
  {
    if |more| == 0 {
      assert rows + more == rows;
    } else {
      var front, last := more[..|more| - 1], more[|more| - 1];
      ArchiveInOrder(rows, front, account);
      assert rows + more == (rows + front) + [last];
      ArchiveSnoc(rows + front, last, account);
      assert more == front + [last];
      ArchiveSnoc(front, last, account);
    }
  }

  method ConfidentialEventsForWallet(rows: seq<Row>, account: Account) returns (result: seq<Logged>)
    ensures result == ArchiveFor(rows, account)
  {
    result := [];
    for i := 0 to |rows|
      invariant result == ArchiveFor(rows[..i], account)
    {
      assert rows[..i + 1][..i] == rows[..i];
      if rows[i].Corrupt? { continue; }
      if account !in Topics(rows[i].logged.event) { continue; }
      result := result + [rows[i].logged];
    }
    assert rows[..|rows|] == rows;
  }

  /** Map.set on a map from ids to events, as its values in insertion order. */
  function Store(es: seq<Logged>, l: Logged): seq<Logged> {
    if |es| == 0 then [l]
    else if es[0].id == l.id then [l] + es[1..]
    else [es[0]] + Store(es[1..], l)
  }

  function StoreAll(es: seq<Logged>, ls: seq<Logged>): seq<Logged> {
    if |ls| == 0 then es else Store(StoreAll(es, ls[..|ls| - 1]), ls[|ls| - 1])
  }

  function StorePages(es: seq<Logged>, pages: seq<seq<Logged>>): seq<Logged> {
    if |pages| == 0 then es else StoreAll(StorePages(es, pages[..|pages| - 1]), pages[|pages| - 1])
  }

  predicate Before(a: Logged, b: Logged) {
    a.ledger < b.ledger || (a.ledger == b.ledger && a.id < b.id)
  }

  function Insert(l: Logged, es: seq<Logged>): seq<Logged> {
    if |es| == 0 then [l]
    else if Before(l, es[0]) then [l] + es
    else [es[0]] + Insert(l, es[1..])
  }

  /** The stable sort by ledger, then id. */
  function Sorted(es: seq<Logged>): seq<Logged> {
    if |es| == 0 then [] else Insert(es[|es| - 1], Sorted(es[..|es| - 1]))
  }

  /** What the client's try block stores: the rows before the first that does not parse. */
  function Parsed(rows: seq<Row>): (parsed: seq<Logged>)
    ensures |parsed| <= |rows|
  {
    if |rows| == 0 then []
    else
      var front, last := Parsed(rows[..|rows| - 1]), rows[|rows| - 1];
      if |front| == |rows| - 1 && last.Stored? then front + [last.logged] else front
  }

  /** An archive that does not answer contributes nothing. */
  function FromArchive(answer: Option<seq<Row>>): seq<Logged> {
    if answer.Some? then Parsed(answer.value) else []
  }

  function Merged(archived: seq<Logged>, pages: seq<seq<Logged>>): seq<Logged> {
    Sorted(StorePages(StoreAll([], archived), pages))
  }

  // Elements and order.

  predicate Has(es: seq<Logged>, l: Logged) {
    |es| > 0 && (es[0] == l || Has(es[1..], l))
  }

  ghost predicate DistinctIds(es: seq<Logged>) {
    |es| == 0 || ((forall l :: Has(es[1..], l) ==> l.id != es[0].id) && DistinctIds(es[1..]))
  }

  /** The order of the chain: by ledger, and within one by id. */
  predicate Precedes(a: Logged, b: Logged) {
    if a.ledger == b.ledger then a.id < b.id else a.ledger < b.ledger
  }

  ghost predicate InOrder(es: seq<Logged>) {
    |es| == 0 || ((forall l :: Has(es[1..], l) ==> Precedes(es[0], l)) && InOrder(es[1..]))
  }

  /** Every element is in the log, where an id names one event. */
  ghost predicate From(log: seq<Logged>, es: seq<Logged>) {
    forall l :: Has(es, l) ==> Has(log, l)
  }

  ghost predicate IdsNameEvents(log: seq<Logged>) {
    forall k, l :: Has(log, k) && Has(log, l) && k.id == l.id ==> k == l
  }

  /** Map.set: an event stored later replaces the one of the same id, whatever that was. */
  lemma {:induction false} StoreReplaces(es: seq<Logged>, l: Logged)
    requires DistinctIds(es)
    ensures forall k :: Has(Store(es, l), k) <==> k == l || (Has(es, k) && k.id != l.id)
  {
    if |es| > 0 {
      if es[0].id == l.id {
        assert ([l] + es[1..])[1..] == es[1..];
      } else {
        StoreReplaces(es[1..], l);
        assert Store(es, l)[1..] == Store(es[1..], l);
      }
    } else {
      assert [l][1..] == [];
    }
  }

  lemma {:induction false} StoreAdds(log: seq<Logged>, es: seq<Logged>, l: Logged)
    requires IdsNameEvents(log) && From(log, es) && Has(log, l) && DistinctIds(es)
    ensures DistinctIds(Store(es, l))
    ensures forall k :: Has(Store(es, l), k) <==> Has(es, k) || k == l
  {
    if |es| > 0 {
      assert Has(es, es[0]);
      assert forall k :: Has(es[1..], k) ==> Has(es, k);
      if es[0].id == l.id {
        assert ([l] + es[1..])[1..] == es[1..];
      } else {
        StoreAdds(log, es[1..], l);
        assert Store(es, l)[1..] == Store(es[1..], l);
      }
    } else {
      assert [l][1..] == [];
    }
  }

  lemma {:induction false} StoreAllAdds(log: seq<Logged>, es: seq<Logged>, ls: seq<Logged>)
    requires IdsNameEvents(log) && From(log, es) && DistinctIds(es)
    requires forall i :: 0 <= i < |ls| ==> Has(log, ls[i])
    ensures DistinctIds(StoreAll(es, ls)) && From(log, StoreAll(es, ls))
    ensures forall k :: Has(StoreAll(es, ls), k) <==> Has(es, k) || k in ls
    decreases |ls|
  {
    if |ls| > 0 {
      var front, last := ls[..|ls| - 1], ls[|ls| - 1];
      StoreAllAdds(log, es, front);
      StoreAdds(log, StoreAll(es, front), last);
      assert ls == front + [last];
    }
  }

  predicate InPages(pages: seq<seq<Logged>>, l: Logged) {
    exists p :: 0 <= p < |pages| && l in pages[p]
  }

  lemma InPagesSnoc(pages: seq<seq<Logged>>, page: seq<Logged>, l: Logged)
    ensures InPages(pages + [page], l) <==> InPages(pages, l) || l in page
  {
    var all := pages + [page];
    if InPages(pages, l) {
      var p :| 0 <= p < |pages| && l in pages[p];
      assert l in all[p];
    }
    if l in page { assert l in all[|pages|]; }
  }

  lemma {:induction false} StorePagesAdds(log: seq<Logged>, es: seq<Logged>, pages: seq<seq<Logged>>)
    requires IdsNameEvents(log) && From(log, es) && DistinctIds(es)
    requires forall l :: InPages(pages, l) ==> Has(log, l)
    ensures DistinctIds(StorePages(es, pages)) && From(log, StorePages(es, pages))
    ensures forall k :: Has(StorePages(es, pages), k) <==> Has(es, k) || InPages(pages, k)
    decreases |pages|
  {
    if |pages| > 0 {
      var front, last := pages[..|pages| - 1], pages[|pages| - 1];
      assert pages == front + [last];
      forall k ensures InPages(pages, k) <==> InPages(front, k) || k in last {
        InPagesSnoc(front, last, k);
      }
      StorePagesAdds(log, es, front);
      StoreAllAdds(log, StorePages(es, front), last);
    }
  }

  // Reading the node's window.

  /** One getEvents response: a page, the cursor where it ends, and the node's latest ledger. */
  datatype Response = Response(events: seq<Logged>, cursor: Option<nat>, latestLedger: nat)

  /** What the node answers to a cursor, or to the request for the start of its window. */
  type Node = Option<nat> -> Response

  const LEDGER_SPAN: nat := 0x1_0000_0000
  const EVENT_LIMIT: nat := 100

  /** Cursors and event ids are positions in the chain; the high part is the ledger. */
  function CursorLedger(cursor: nat): nat {
    cursor / LEDGER_SPAN
  }

  /** A page holds exactly the window's events after the request and up to its own cursor. */
  predicate AnsweredAt(window: seq<Logged>, request: Option<nat>, r: Response, l: Logged) {
    && (l in r.events ==> Has(window, l))
    && (r.cursor.Some? ==>
          (l in r.events <==> Has(window, l) && (request.Some? ==> l.id > request.value) && l.id <= r.cursor.value))
  }

  ghost predicate AnswersAt(node: Node, window: seq<Logged>, tip: nat, request: Option<nat>) {
    var r := node(request);
    && |r.events| <= EVENT_LIMIT && r.latestLedger <= tip
    && (request.Some? && r.cursor.Some? ==> request.value <= r.cursor.value)
    && (forall l: Logged :: AnsweredAt(window, request, r, l))
  }

  /** The node answers every request from one window, which ends at its tip. */
  ghost predicate HonestNode(node: Node, window: seq<Logged>, tip: nat) {
    forall request: Option<nat> :: AnswersAt(node, window, tip, request)
  }

  predicate ReadAt(window: seq<Logged>, pages: seq<seq<Logged>>, cursor: Option<nat>, l: Logged) {
    && (InPages(pages, l) ==> Has(window, l))
    && (cursor.Some? ==> (InPages(pages, l) <==> Has(window, l) && l.id <= cursor.value))
  }

  /** What was read is the window's events up to the cursor, no fewer and no more. */
  ghost predicate ReadUpTo(window: seq<Logged>, pages: seq<seq<Logged>>, cursor: Option<nat>) {
    forall l: Logged :: ReadAt(window, pages, cursor, l)
  }

  lemma PageRead(
    node: Node, window: seq<Logged>, tip: nat, pages: seq<seq<Logged>>, request: Option<nat>)
    requires AnswersAt(node, window, tip, request) && ReadUpTo(window, pages, request)
    requires request.None? ==> pages == []
    ensures ReadUpTo(window, pages + [node(request).events], node(request).cursor)
  {
    var r := node(request);
    var pages' := pages + [r.events];
    forall l: Logged
      ensures ReadAt(window, pages', r.cursor, l)
    {
      InPagesSnoc(pages, r.events, l);
      assert AnsweredAt(window, request, r, l) && ReadAt(window, pages, request, l);
    }
  }

  /** `for (const event of page) events.set(event.id, event)` */
  method StoreRows(events: seq<Logged>, page: seq<Logged>) returns (stored: seq<Logged>)
    ensures stored == StoreAll(events, page)
  {
    stored := events;
    for i := 0 to |page|
      invariant stored == StoreAll(events, page[..i])
    {
      assert page[..i + 1][..i] == page[..i];
      stored := Store(stored, page[i]);
    }
    assert page[..|page|] == page;
  }

  predicate Stops(previous: Option<nat>, r: Response) {
    r.cursor.None? || r.cursor == previous || CursorLedger(r.cursor.value) >= r.latestLedger
  }

  /** Request j was made with the cursor of the answer before it, which gave no reason to stop. */
  predicate GoesOn(node: Node, requests: seq<Option<nat>>, j: nat)
    requires 0 < j < |requests|
  {
    requests[j] == node(requests[j - 1]).cursor && !Stops(requests[j - 1], node(requests[j - 1]))
  }

  /** The requests of one reading, each with the cursor of the answer before it, up to the first reason to stop. */
  predicate Trace(node: Node, requests: seq<Option<nat>>) {
    && |requests| > 0 && requests[0].None?
    && (forall j | 0 < j < |requests| :: GoesOn(node, requests, j))
  }

  predicate Finished(node: Node, requests: seq<Option<nat>>) {
    |requests| > 0 && Stops(requests[|requests| - 1], node(requests[|requests| - 1]))
  }

  function Pages(node: Node, requests: seq<Option<nat>>): seq<seq<Logged>> {
    seq(|requests|, j requires 0 <= j < |requests| => node(requests[j]).events)
  }

  lemma {:induction false} TracesAgree(node: Node, a: seq<Option<nat>>, b: seq<Option<nat>>, n: nat)
    requires Trace(node, a) && Trace(node, b) && n < |a| && n < |b|
    ensures a[n] == b[n]
  {
    if n > 0 {
      TracesAgree(node, a, b, n - 1);
      assert GoesOn(node, a, n) && GoesOn(node, b, n);
    }
  }

  /** A node determines the whole reading: no longer and no shorter one is finished. */
  lemma ReadingIsDetermined(node: Node, a: seq<Option<nat>>, b: seq<Option<nat>>)
    requires Trace(node, a) && Finished(node, a) && Trace(node, b) && Finished(node, b)
    ensures a == b
  {
    if |a| < |b| {
      TracesAgree(node, a, b, |a| - 1);
      assert GoesOn(node, b, |a|);
    }
    if |b| < |a| {
      TracesAgree(node, a, b, |b| - 1);
      assert GoesOn(node, a, |b|);
    }
    forall n | 0 <= n < |a| && n < |b| ensures a[n] == b[n] { TracesAgree(node, a, b, n); }
  }

  /** How far a cursor can still move before its ledger reaches the tip. */
  function Headroom(cursor: Option<nat>, tip: nat): int {
    if cursor.None? then tip * LEDGER_SPAN + 1 else tip * LEDGER_SPAN - cursor.value
  }

  lemma CursorMoves(node: Node, window: seq<Logged>, tip: nat, request: Option<nat>)
    requires AnswersAt(node, window, tip, request) && !Stops(request, node(request))
    ensures 0 <= Headroom(node(request).cursor, tip) < Headroom(request, tip)
  {
  }

  lemma {:induction false} ParsingStops(rows: seq<Row>, i: nat)
    requires i < |rows| && rows[i].Corrupt? && |Parsed(rows[..i])| == i
    ensures Parsed(rows) == Parsed(rows[..i])
    decreases |rows|
  {
    if i < |rows| - 1 {
      assert rows[..|rows| - 1][..i] == rows[..i];
      ParsingStops(rows[..|rows| - 1], i);
    }
  }

  /** The try block: rows are stored one by one until one does not parse; then the rest is given up. */
  method StoreArchive(rows: seq<Row>) returns (stored: seq<Logged>)
    ensures stored == StoreAll([], Parsed(rows))
  {
    stored := [];
    for i := 0 to |rows|
      invariant |Parsed(rows[..i])| == i && stored == StoreAll([], Parsed(rows[..i]))
    {
      if rows[i].Corrupt? {
        ParsingStops(rows, i);
        return;
      }
      assert rows[..i + 1][..i] == rows[..i];
      assert Parsed(rows[..i + 1])[..i] == Parsed(rows[..i]);
      stored := Store(stored, rows[i].logged);
    }
    assert rows[..|rows|] == rows;
  }

  /** Where the loop stands: what was asked, what was stored, and no reason to stop yet. */
  ghost predicate Reading(
    node: Node, window: seq<Logged>, start: seq<Logged>, requests: seq<Option<nat>>, cursor: Option<nat>,
    events: seq<Logged>) {
    && events == StorePages(start, Pages(node, requests)) && ReadUpTo(window, Pages(node, requests), cursor)
    && (|requests| == 0 <==> cursor.None?)
    && (|requests| > 0 ==>
          Trace(node, requests) && !Finished(node, requests) && cursor == node(requests[|requests| - 1]).cursor)
  }

  lemma PagesGrow(node: Node, requests: seq<Option<nat>>, request: Option<nat>)
    ensures Pages(node, requests + [request]) == Pages(node, requests) + [node(request).events]
    ensures Pages(node, requests + [request])[..|requests|] == Pages(node, requests)
  {
  }

  lemma TraceGrows(node: Node, requests: seq<Option<nat>>, request: Option<nat>)
    requires if |requests| == 0 then request.None?
             else Trace(node, requests) && !Finished(node, requests)
                  && request == node(requests[|requests| - 1]).cursor
    ensures Trace(node, requests + [request])
  {
    var longer := requests + [request];
    forall j | 0 < j < |longer|
      ensures GoesOn(node, longer, j)
    {
      if j < |requests| { assert GoesOn(node, requests, j); }
    }
  }

  lemma ReadOnePage(
    node: Node, window: seq<Logged>, tip: nat, start: seq<Logged>, requests: seq<Option<nat>>,
    cursor: Option<nat>, events: seq<Logged>)
    requires AnswersAt(node, window, tip, cursor) && Reading(node, window, start, requests, cursor, events)
    ensures
      var requests', stored := requests + [cursor], StoreAll(events, node(cursor).events);
      && Trace(node, requests') && stored == StorePages(start, Pages(node, requests'))
      && ReadUpTo(window, Pages(node, requests'), node(cursor).cursor)
      && (!Stops(cursor, node(cursor)) ==>
            Reading(node, window, start, requests', node(cursor).cursor, stored))
  {
    PageRead(node, window, tip, Pages(node, requests), cursor);
    PagesGrow(node, requests, cursor);
    TraceGrows(node, requests, cursor);
  }

  /** An id is a ledger and a place in it. */
  ghost predicate Ranked(log: seq<Logged>) {
    forall l :: Has(log, l) ==> l.ledger == CursorLedger(l.id)
  }

  /** When the cursor's ledger has reached the node's latest, every event of an earlier ledger was read. */
  lemma EarlierLedgersRead(window: seq<Logged>, pages: seq<seq<Logged>>, cursor: nat, latestLedger: nat, l: Logged)
    requires ReadUpTo(window, pages, Some(cursor)) && CursorLedger(cursor) >= latestLedger
    requires Ranked(window) && Has(window, l) && l.ledger < latestLedger
    ensures InPages(pages, l)
  {
    assert ReadAt(window, pages, Some(cursor), l);
  }

  /**
   * historicalTokenEvents: the archive as far as it answers, then the node's window
   * page by page up to the first answer that gives a reason to stop, then the sort.
   * What was read is exactly the window's events up to the last cursor, and unless
   * the node stopped moving its cursor, that is every event of a ledger before its latest.
   */
  method HistoricalTokenEvents(answer: Option<seq<Row>>, node: Node, ghost window: seq<Logged>, ghost tip: nat)
    returns (history: seq<Logged>, ghost requests: seq<Option<nat>>)
    requires HonestNode(node, window, tip)
    ensures Trace(node, requests) && Finished(node, requests)
    ensures history == Merged(FromArchive(answer), Pages(node, requests))
    ensures ReadUpTo(window, Pages(node, requests), node(requests[|requests| - 1]).cursor)
    ensures
      var last := requests[|requests| - 1];
      Ranked(window) && node(last).cursor.Some? && node(last).cursor != last ==>
        forall l | Has(window, l) && l.ledger < node(last).latestLedger :: InPages(Pages(node, requests), l)
  {
    var events: seq<Logged> := [];
    if answer.Some? { events := StoreArchive(answer.value); }
    ghost var start := events;
    requests := [];
    var cursor: Option<nat> := None;
    while true
      invariant Reading(node, window, start, requests, cursor, events)
      decreases Headroom(cursor, tip)
    {
      assert AnswersAt(node, window, tip, cursor);
      var response := node(cursor);
      var previous := cursor;
      ReadOnePage(node, window, tip, start, requests, cursor, events);
      events := StoreRows(events, response.events);
      requests := requests + [previous];
      cursor := response.cursor;
      if cursor.None? || cursor == previous || CursorLedger(cursor.value) >= response.latestLedger { break; }
      CursorMoves(node, window, tip, previous);
    }
    history := Sorted(events);
    ghost var last := requests[|requests| - 1];
    if Ranked(window) && cursor.Some? && cursor != last {
      forall l | Has(window, l) && l.ledger < node(last).latestLedger
        ensures InPages(Pages(node, requests), l)
      {
        EarlierLedgersRead(window, Pages(node, requests), cursor.value, node(last).latestLedger, l);
      }
    }
  }

  /**
   * Reading covers the account's events exactly when the archive holds those of
   * them that are not in the window up to the last cursor.
   */
  lemma ReadingCovers(log: seq<Logged>, archived: seq<Logged>, window: seq<Logged>, pages: seq<seq<Logged>>,
                      cursor: nat, account: Account)
    requires From(log, window) && forall l :: l in archived ==> Has(log, l)
    requires ReadUpTo(window, pages, Some(cursor))
    ensures Covered(log, archived, pages, account) <==>
      forall l :: Has(log, l) && Names(l, account) && !(Has(window, l) && l.id <= cursor) ==> l in archived
  {
    forall l ensures InPages(pages, l) <==> Has(window, l) && l.id <= cursor {
      assert ReadAt(window, pages, Some(cursor), l);
    }
  }

  // A ledger with more events than a page.

  /** The first n events of one ledger, all alike. */
  function FullLedger(ledger: nat, e: TokenEvent, n: nat): seq<Logged> {
    if n == 0 then [] else FullLedger(ledger, e, n - 1) + [Logged(ledger, ledger * LEDGER_SPAN + n - 1, e)]
  }

  lemma {:induction false} FullLedgerHas(ledger: nat, e: TokenEvent, n: nat, l: Logged)
    ensures |FullLedger(ledger, e, n)| == n
    ensures l in FullLedger(ledger, e, n) <==>
      l.ledger == ledger && l.event == e && 0 <= l.id - ledger * LEDGER_SPAN < n
    ensures Has(FullLedger(ledger, e, n), l) <==> l in FullLedger(ledger, e, n)
  {
    if n > 0 {
      FullLedgerHas(ledger, e, n - 1, l);
      HasSnoc(FullLedger(ledger, e, n - 1), Logged(ledger, ledger * LEDGER_SPAN + n - 1, e));
    }
  }

  /** A node whose whole window is one ledger of n + 1 events, of which a page shows n. */
  function CrowdedNode(ledger: nat, e: TokenEvent, n: nat): Node
    requires n > 0
  {
    var last := ledger * LEDGER_SPAN + n;
    (request: Option<nat>) =>
      if request.None? then Response(FullLedger(ledger, e, n), Some(last - 1), ledger)
      else if request.value == last - 1 then Response([Logged(ledger, last, e)], Some(last), ledger)
      else Response([], request, ledger)
  }

  lemma CrowdedNodeIsHonest(ledger: nat, e: TokenEvent, n: nat)
    requires 0 < n <= EVENT_LIMIT
    ensures HonestNode(CrowdedNode(ledger, e, n), FullLedger(ledger, e, n + 1), ledger)
  {
    var node, window := CrowdedNode(ledger, e, n), FullLedger(ledger, e, n + 1);
    forall request: Option<nat>
      ensures AnswersAt(node, window, ledger, request)
    {
      forall l: Logged
        ensures AnsweredAt(window, request, node(request), l)
      {
        FullLedgerHas(ledger, e, n, l);
        FullLedgerHas(ledger, e, n + 1, l);
      }
      FullLedgerHas(ledger, e, n, Logged(ledger, 0, e));
    }
  }

  /**
   * Events of the window can be left unread: when the newest ledger has one event
   * more than a page shows, the one request of the reading stops at its cursor,
   * and the last event, whomever it names, is not in what was read.
   */
  lemma LastEventUnread(ledger: nat, e: TokenEvent, n: nat, requests: seq<Option<nat>>)
    requires 0 < n <= EVENT_LIMIT
    requires Trace(CrowdedNode(ledger, e, n), requests) && Finished(CrowdedNode(ledger, e, n), requests)
    ensures HonestNode(CrowdedNode(ledger, e, n), FullLedger(ledger, e, n + 1), ledger)
    ensures Ranked(FullLedger(ledger, e, n + 1))
    ensures
      var last := Logged(ledger, ledger * LEDGER_SPAN + n, e);
      Has(FullLedger(ledger, e, n + 1), last) && !InPages(Pages(CrowdedNode(ledger, e, n), requests), last)
  {
    var node, last := CrowdedNode(ledger, e, n), Logged(ledger, ledger * LEDGER_SPAN + n, e);
    CrowdedNodeIsHonest(ledger, e, n);
    ReadingIsDetermined(node, requests, [None]);
    FullLedgerHas(ledger, e, n + 1, last);
    FullLedgerHas(ledger, e, n, last);
    assert Pages(node, [None]) == [] + [FullLedger(ledger, e, n)];
    InPagesSnoc([], FullLedger(ledger, e, n), last);
    forall l | Has(FullLedger(ledger, e, n + 1), l)
      ensures l.ledger == CursorLedger(l.id)
    {
      FullLedgerHas(ledger, e, n + 1, l);
    }
  }

  lemma {:induction false} InsertPlaces(l: Logged, es: seq<Logged>)
    requires InOrder(es) && forall k :: Has(es, k) ==> k.id != l.id
    ensures InOrder(Insert(l, es))
    ensures forall k :: Has(Insert(l, es), k) <==> Has(es, k) || k == l
  {
    if |es| == 0 {
      assert [l][1..] == [];
    } else {
      assert Has(es, es[0]);
      assert forall k :: Has(es[1..], k) ==> Has(es, k);
      if Before(l, es[0]) {
        assert ([l] + es)[1..] == es;
      } else {
        InsertPlaces(l, es[1..]);
        assert Insert(l, es)[1..] == Insert(l, es[1..]);
      }
    }
  }

  lemma {:induction false} HasSnoc(es: seq<Logged>, l: Logged)
    ensures forall k :: Has(es + [l], k) <==> Has(es, k) || k == l
  {
    if |es| > 0 {
      HasSnoc(es[1..], l);
      assert (es + [l])[1..] == es[1..] + [l];
    } else {
      assert [l][1..] == [];
    }
  }

  lemma FrontElements(es: seq<Logged>)
    requires |es| > 0
    ensures forall k :: Has(es[..|es| - 1], k) ==> Has(es, k)
  {
    HasSnoc(es[..|es| - 1], es[|es| - 1]);
    assert es == es[..|es| - 1] + [es[|es| - 1]];
  }

  lemma {:induction false} DistinctFront(es: seq<Logged>)
    requires DistinctIds(es) && |es| > 0
    ensures DistinctIds(es[..|es| - 1])
  {
    if |es| > 1 {
      DistinctFront(es[1..]);
      FrontElements(es[1..]);
      assert es[..|es| - 1][1..] == es[1..][..|es| - 2];
    }
  }

  lemma {:induction false} LastIsDistinct(es: seq<Logged>, k: Logged)
    requires DistinctIds(es) && |es| > 0 && Has(es[..|es| - 1], k)
    ensures k.id != es[|es| - 1].id
  {
    if k == es[0] {
      HasLast(es[1..]);
      assert es[1..][|es| - 2] == es[|es| - 1];
    } else {
      assert es[..|es| - 1][1..] == es[1..][..|es| - 2];
      LastIsDistinct(es[1..], k);
    }
  }

  lemma HasLast(es: seq<Logged>)
    requires |es| > 0
    ensures Has(es, es[|es| - 1])
  {
    HasSnoc(es[..|es| - 1], es[|es| - 1]);
    assert es == es[..|es| - 1] + [es[|es| - 1]];
  }

  lemma {:induction false} SortOrders(es: seq<Logged>)
    requires DistinctIds(es)
    ensures InOrder(Sorted(es))
    ensures forall k :: Has(Sorted(es), k) <==> Has(es, k)
    decreases |es|
  {
    if |es| > 0 {
      var front, last := es[..|es| - 1], es[|es| - 1];
      DistinctFront(es);
      SortOrders(front);
      forall k | Has(front, k) ensures k.id != last.id { LastIsDistinct(es, k); }
      InsertPlaces(last, Sorted(front));
      HasSnoc(front, last);
      assert es == front + [last];
    }
  }

  lemma HeadIsFirst(es: seq<Logged>, l: Logged)
    requires InOrder(es) && Has(es, l)
    ensures es[0] == l || Precedes(es[0], l)
  {
  }

  /** Two lists in order with the same elements are the same list. */
  lemma {:induction false} OrderIsUnique(xs: seq<Logged>, ys: seq<Logged>)
    requires InOrder(xs) && InOrder(ys)
    requires forall k :: Has(xs, k) <==> Has(ys, k)
    ensures xs == ys
  {
    if |xs| > 0 { assert Has(xs, xs[0]) && Has(ys, xs[0]); }
    if |ys| > 0 { assert Has(ys, ys[0]) && Has(xs, ys[0]); }
    if |xs| > 0 && |ys| > 0 {
      HeadIsFirst(xs, ys[0]);
      HeadIsFirst(ys, xs[0]);
      forall k
        ensures Has(xs[1..], k) <==> Has(ys[1..], k)
      {
        assert Has(xs, k) <==> Has(ys, k);
      }
      OrderIsUnique(xs[1..], ys[1..]);
    }
  }

  // The part of the log that was gathered.

  function Gathered(log: seq<Logged>, es: seq<Logged>): seq<Logged> {
    if |log| == 0 then []
    else if Has(es, log[0]) then [log[0]] + Gathered(log[1..], es)
    else Gathered(log[1..], es)
  }

  lemma {:induction false} GatheredInOrder(log: seq<Logged>, es: seq<Logged>)
    requires InOrder(log)
    ensures InOrder(Gathered(log, es))
    ensures forall k :: Has(Gathered(log, es), k) <==> Has(log, k) && Has(es, k)
  {
    if |log| > 0 {
      GatheredInOrder(log[1..], es);
      if Has(es, log[0]) {
        assert Gathered(log, es)[1..] == Gathered(log[1..], es);
      }
    }
  }

  function Events(es: seq<Logged>): seq<TokenEvent> {
    if |es| == 0 then [] else [es[0].event] + Events(es[1..])
  }

  /** Leaving out events that do not name the account leaves its replay alone. */
  lemma {:induction false} GatheredReplaysAlike(c: Crypto, me: Holder, b: Balance, log: seq<Logged>, es: seq<Logged>)
    requires forall k :: Has(log, k) && Names(k, me.account) ==> Has(es, k)
    ensures Replay(c, me, b, Events(Gathered(log, es))) == Replay(c, me, b, Events(log))
    decreases |log|
  {
    if |log| > 0 {
      assert Has(log, log[0]);
      assert forall k :: Has(log[1..], k) ==> Has(log, k);
      var step := ReplayStep(c, me, b, log[0].event);
      assert Events(log)[0] == log[0].event && Events(log)[1..] == Events(log[1..]);
      if Has(es, log[0]) {
        var kept := Gathered(log, es);
        assert kept[0] == log[0] && kept[1..] == Gathered(log[1..], es);
        assert Events(kept)[0] == log[0].event && Events(kept)[1..] == Events(kept[1..]);
        if step.Success? { GatheredReplaysAlike(c, me, step.value, log[1..], es); }
      } else {
        UnnamedIsSkipped(c, me, b, log[0].event);
        GatheredReplaysAlike(c, me, b, log[1..], es);
      }
    }
  }

  /** Archive and window hold events of the log only, and between them every one that names the account. */
  ghost predicate Covered(log: seq<Logged>, archived: seq<Logged>, pages: seq<seq<Logged>>, account: Account) {
    && (forall l :: l in archived ==> Has(log, l))
    && (forall l :: InPages(pages, l) ==> Has(log, l))
    && (forall l :: Has(log, l) && Names(l, account) ==> l in archived || InPages(pages, l))
  }

  /** What the server answers with is what its readable rows say about the account. */
  lemma {:induction false} ArchiveContents(rows: seq<Row>, account: Account)
    ensures forall l :: l in ArchiveFor(rows, account) <==> Stored(l) in rows && Names(l, account)
    decreases |rows|
  {
    if |rows| > 0 {
      ArchiveContents(rows[..|rows| - 1], account);
      assert rows == rows[..|rows| - 1] + [rows[|rows| - 1]];
    }
  }

  /** An ordered log has one event an id. */
  ghost predicate ChainLog(log: seq<Logged>) {
    InOrder(log) && IdsNameEvents(log)
  }

  lemma MergedIsGathered(log: seq<Logged>, archived: seq<Logged>, pages: seq<seq<Logged>>, account: Account)
    requires ChainLog(log) && Covered(log, archived, pages, account)
    ensures
      var merged := Merged(archived, pages);
      && merged == Gathered(log, merged)
      && forall l :: Has(log, l) && Names(l, account) ==> Has(merged, l)
  {
    forall i | 0 <= i < |archived| ensures Has(log, archived[i]) {
      assert archived[i] in archived;
    }
    StoreAllAdds(log, [], archived);
    var kept := StoreAll([], archived);
    StorePagesAdds(log, kept, pages);
    var stored := StorePages(kept, pages);
    SortOrders(stored);
    var merged := Sorted(stored);
    GatheredInOrder(log, merged);
    OrderIsUnique(merged, Gathered(log, merged));
  }

  /**
   * The merged history replays as the whole chain log does: what the server's filter dropped and what
   * the window holds of other accounts make no difference, in either recovery loop.
   */
  lemma MergedHistoryReplaysAlike(
    c: Crypto, me: Holder, log: seq<Logged>, archived: seq<Logged>, pages: seq<seq<Logged>>)
    requires ChainLog(log) && Covered(log, archived, pages, me.account)
    ensures
      var merged := Events(Merged(archived, pages));
      && Replay(c, me, START, merged) == Replay(c, me, START, Events(log))
      && ReceivingReplay(c, me, ZERO, merged) == ReceivingReplay(c, me, ZERO, Events(log))
  {
    var merged := Merged(archived, pages);
    MergedIsGathered(log, archived, pages, me.account);
    GatheredReplaysAlike(c, me, START, log, merged);
    ReceivingIsPending(c, me, START, Events(merged));
    ReceivingIsPending(c, me, START, Events(log));
  }

  /** With the archive down, the window alone must cover; an absent archive is an empty one. */
  lemma WindowAloneSuffices(c: Crypto, me: Holder, log: seq<Logged>, pages: seq<seq<Logged>>)
    requires ChainLog(log) && Covered(log, [], pages, me.account)
    ensures Replay(c, me, START, Events(Merged(FromArchive(None), pages))) == Replay(c, me, START, Events(log))
  {
    MergedHistoryReplaysAlike(c, me, log, [], pages);
  }

  lemma {:induction false} WholeAnswerParsed(es: seq<Logged>)
    ensures Parsed(seq(|es|, i requires 0 <= i < |es| => Stored(es[i]))) == es
  {
    var rows := seq(|es|, i requires 0 <= i < |es| => Stored(es[i]));
    if |es| > 0 {
      var front := es[..|es| - 1];
      WholeAnswerParsed(front);
      assert rows[..|es| - 1] == seq(|front|, i requires 0 <= i < |front| => Stored(front[i]));
    }
  }

  /** End to end: over every history of the token, a covered merged history recovers the true amounts. */
  lemma CoveredHistoryRecovers(c: Crypto, keys: Keys, actions: seq<Action>, me: Account, log: seq<Logged>,
                               archived: seq<Logged>, pages: seq<seq<Logged>>)
    requires Lawful(c) && ChainLog(log) && Covered(log, archived, pages, me)
    requires Events(log) == History(c, keys, actions).1
    ensures
      var h := Of(History(c, keys, actions).0, me);
      var (holder, merged) := (Holder(me, keys(me)), Events(Merged(archived, pages)));
      var spendable := RecoveredSpendable(c, holder, merged, h.cSpend);
      var receiving := RecoveredReceiving(c, holder, merged, h.cReceive);
      && spendable.Success? && spendable.value.Some? && spendable.value.value.value == h.spendable
      && receiving.Success? && receiving.value.Some? && receiving.value.value.value == h.receiving
  {
    MergedHistoryReplaysAlike(c, Holder(me, keys(me)), log, archived, pages);
    RecoverySucceeds(c, keys, actions, me);
  }
}
