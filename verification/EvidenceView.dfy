// apps/indexer/src/db.ts, applyRoundEvent: the rounds table as a fold over the
// market's event log.
module EvidenceView {
  import opened Prelude
  import opened MarketTypes

  datatype Row = Row(
    marketId: Address,
    issuer: Address,
    status: RoundStatus,
    bidderCount: nat,
    winner: Option<Address>,
    participantSetHash: Option<Digest>,
    proofHash: Option<Digest>,
    terms: RoundConfig,
    rwaEscrowed: bool,
    lastLedger: nat)

  type Table = map<RoundId, Row>

  /** The UPDATE statement of each event type, on an existing row. */
  function UpdateRow(row: Row, l: Logged): Row {
    var touched := row.(lastLedger := l.ledger);
    match l.event
    case RoundCreated(_, _, _) => row
    case RwaFunded(_, _) => touched.(rwaEscrowed := true)
    case RoundOpened(_) => touched.(status := Open)
    case BidRegistered(_, _, _) => touched.(bidderCount := row.bidderCount + 1)
    case BidWithdrawn(_, _) => touched.(bidderCount := if row.bidderCount > 0 then row.bidderCount - 1 else 0)
    case RoundClosed(_, count, hash) =>
      touched.(status := Closed, bidderCount := count, participantSetHash := Some(hash))
    case WinnerProven(_, winner, proof, hash) =>
      touched.(winner := Some(winner), proofHash := Some(proof), participantSetHash := Some(hash))
    case RoundSettled(_, winner, proof) => touched.(status := Settled, winner := Some(winner), proofHash := Some(proof))
    case RoundFailed(_, _) => touched.(status := Failed)
    case RwaReclaimed(_, _, _) => touched.(status := Cancelled, rwaEscrowed := false)
  }

  /** applyRoundEvent: round_created replaces the row, anything else updates it where it exists. */
  function ApplyRoundEvent(table: Table, l: Logged): Table {
    var id := l.event.roundId;
    if l.event.RoundCreated? then
      table[id := Row(l.contract, l.event.issuer, Draft, 0, None, None, None, l.event.config, false, l.ledger)]
    else if id in table then table[id := UpdateRow(table[id], l)]
    else table
  }

  function View(log: seq<Logged>): Table {
    if |log| == 0 then map[] else ApplyRoundEvent(View(log[..|log| - 1]), log[|log| - 1])
  }

  lemma ViewAppend(log: seq<Logged>, l: Logged)
    ensures View(log + [l]) == ApplyRoundEvent(View(log), l)
  {
  }

  /** The state in which a row must be when one of its contract's events arrives. */
  predicate Fits(row: Row, e: Event) {
    match e
    case RoundCreated(_, _, _) => false
    case RwaFunded(_, _) => row.status.Draft? && !row.rwaEscrowed
    case RoundOpened(_) => row.status.Draft? && row.rwaEscrowed
    case BidRegistered(_, _, _) => row.status.Open?
    case BidWithdrawn(_, _) => row.status.Open? && row.bidderCount > 0
    case RoundClosed(_, count, _) =>
      row.status.Open? && row.bidderCount == count && row.participantSetHash.None? && row.winner.None?
    case WinnerProven(_, _, _, hash) =>
      row.status.Closed? && row.winner.None? && row.proofHash.None? && row.participantSetHash == Some(hash)
    case RoundSettled(_, winner, proof) =>
      row.status.Closed? && row.winner == Some(winner) && row.proofHash == Some(proof)
    case RoundFailed(_, _) => row.status.Closed? && row.winner.None?
    case RwaReclaimed(_, _, _) => (row.status.Failed? || row.status.Draft?) && row.rwaEscrowed
  }

  /** A round is created once, and every other event meets a row it fits. */
  predicate Meets(table: Table, e: Event) {
    if e.RoundCreated? then e.roundId !in table else e.roundId in table && Fits(table[e.roundId], e)
  }

  predicate Guarded(log: seq<Logged>) {
    |log| == 0 || (Guarded(log[..|log| - 1]) && Meets(View(log[..|log| - 1]), log[|log| - 1].event))
  }

  lemma GuardedAppend(log: seq<Logged>, l: Logged)
    ensures Guarded(log + [l]) <==> Guarded(log) && Meets(View(log), l.event)
  {
    assert (log + [l])[..|log|] == log;
  }

  /** Every bid_withdrawn of the log meets a row that still counts a bid: MAX(0, ...) never fires. */
  predicate NeverClamps(log: seq<Logged>) {
    |log| == 0 ||
    (var front, last := log[..|log| - 1], log[|log| - 1].event;
     && NeverClamps(front)
     && (last.BidWithdrawn? ==> last.roundId in View(front) && View(front)[last.roundId].bidderCount > 0))
  }

  lemma {:induction false} GuardedNeverClamps(log: seq<Logged>)
    requires Guarded(log)
    ensures NeverClamps(log)
  {
    if |log| > 0 { GuardedNeverClamps(log[..|log| - 1]); }
  }

  /** The events by which a round's lot leaves the market. */
  predicate IsExit(e: Event) {
    e.RoundSettled? || e.RwaReclaimed?
  }

  function Exits(log: seq<Logged>, id: RoundId): nat {
    if |log| == 0 then 0
    else
      var last := log[|log| - 1].event;
      Exits(log[..|log| - 1], id) + (if IsExit(last) && last.roundId == id then 1 else 0)
  }

  lemma ExitsAppend(log: seq<Logged>, l: Logged, id: RoundId)
    ensures Exits(log + [l], id) == Exits(log, id) + (if IsExit(l.event) && l.event.roundId == id then 1 else 0)
  {
  }

  /** Events about one round say nothing about another. */
  lemma {:induction false} OtherRoundsUnaffected(log: seq<Logged>, more: seq<Logged>, id: RoundId)
    requires forall i | 0 <= i < |more| :: more[i].event.roundId != id
    ensures id in View(log + more) <==> id in View(log)
    ensures id in View(log) ==> View(log + more)[id] == View(log)[id]
    ensures Exits(log + more, id) == Exits(log, id)
  {
    if |more| == 0 {
      assert log + more == log;
    } else {
      var front, last := more[..|more| - 1], more[|more| - 1];
      OtherRoundsUnaffected(log, front, id);
      assert log + more == log + front + [last];
      ViewAppend(log + front, last);
      ExitsAppend(log + front, last, id);
    }
  }

  /** The ledger of the last event about a round. */
  function LastLedger(log: seq<Logged>, id: RoundId): Option<nat> {
    if |log| == 0 then None
    else if log[|log| - 1].event.roundId == id then Some(log[|log| - 1].ledger)
    else LastLedger(log[..|log| - 1], id)
  }

  /** A row is stamped with the ledger of its round's last event. */
  lemma {:induction false} RowsAreStamped(log: seq<Logged>, id: RoundId)
    requires Guarded(log)
    ensures id in View(log) ==> LastLedger(log, id) == Some(View(log)[id].lastLedger)
  {
    if |log| > 0 { RowsAreStamped(log[..|log| - 1], id); }
  }

  // Several markets in one log.

  function RowOf(table: Table, id: RoundId): Option<Row> {
    if id in table then Some(table[id]) else None
  }

  /** The part of a log that one contract published. */
  function PublishedBy(log: seq<Logged>, market: Address): seq<Logged> {
    if |log| == 0 then []
    else
      var front, last := PublishedBy(log[..|log| - 1], market), log[|log| - 1];
      if last.contract == market then front + [last] else front
  }

  /** The event is about a round of the contract that published it, as its hashed id says. */
  predicate AboutOwnRound(l: Logged) {
    l.event.roundId.RoundDigest? && l.event.roundId.contract == l.contract
  }

  /** However the logs of several markets interleave, a round's row is what its own market's events make it. */
  lemma {:induction false} MarketsDoNotInterfere(log: seq<Logged>, id: RoundId)
    requires id.RoundDigest? && forall i | 0 <= i < |log| :: AboutOwnRound(log[i])
    ensures RowOf(View(log), id) == RowOf(View(PublishedBy(log, id.contract)), id)
  {
    if |log| > 0 {
      var front, last := log[..|log| - 1], log[|log| - 1];
      MarketsDoNotInterfere(front, id);
      assert AboutOwnRound(last);
      if last.contract == id.contract { ViewAppend(PublishedBy(front, id.contract), last); }
    }
  }

  /** If each market's own events are guarded, so is every interleaving. */
  lemma {:induction false} GuardedTogether(log: seq<Logged>)
    requires forall i | 0 <= i < |log| :: AboutOwnRound(log[i])
    requires forall market: Address :: Guarded(PublishedBy(log, market))
    ensures Guarded(log)
  {
    if |log| > 0 {
      var front, last := log[..|log| - 1], log[|log| - 1];
      forall market: Address
        ensures Guarded(PublishedBy(front, market))
      {
        assert Guarded(PublishedBy(log, market));
        if last.contract == market { GuardedAppend(PublishedBy(front, market), last); }
      }
      GuardedTogether(front);
      assert AboutOwnRound(last);
      assert Guarded(PublishedBy(log, last.contract));
      GuardedAppend(PublishedBy(front, last.contract), last);
      MarketsDoNotInterfere(front, last.event.roundId);
    }
  }
}
