// What every market call keeps, for every round at once.
module MarketInvariants {
  import opened Prelude
  import opened Encoding
  import opened Statement
  import opened MarketTypes
  import opened MarketSpec

  predicate NoDuplicates(xs: seq<Address>) {
    forall i, j | 0 <= i < j < |xs| :: xs[i] != xs[j]
  }

  function ActiveCount(bids: Bids, id: RoundId, book: seq<Address>): nat {
    if |book| == 0 then 0
    else ActiveCount(bids, id, book[..|book| - 1]) + (if Active(bids, id, book[|book| - 1]) then 1 else 0)
  }

  predicate Frozen(r: Round) {
    !r.status.Draft? && !r.status.Open?
  }

  /** Who the round is, and that its terms were valid when it was created. */
  predicate IdentityOk(w: World, id: RoundId, r: Round) {
    && r.id == id
    && id.RoundDigest? && id.contract == w.market && id.config == r.config && id.sequence < w.nextRound
    && r.config.rwaLot > 0
    && r.config.reservePublic >= 0
    && r.config.bidDeadline < r.config.settlementDeadline
    && r.config.issuer != w.market
  }

  /** Entries of the list are distinct registered bidders, at most as many as the circuit has slots. */
  predicate BookOk(bids: Bids, id: RoundId, book: seq<Address>) {
    && NoDuplicates(book)
    && |book| <= MAX_BIDDERS
    && (forall i | 0 <= i < |book| ::
          && (id, book[i]) in bids
          && bids[(id, book[i])].roundId == id
          && bids[(id, book[i])].bidder == book[i])
  }

  /** While bids are taken: positions are registration indices and the count is the number of active records. */
  predicate OpenBookOk(bids: Bids, id: RoundId, book: seq<Address>, count: nat) {
    && count == ActiveCount(bids, id, book)
    && (forall i | 0 <= i < |book| :: (id, book[i]) in bids && bids[(id, book[i])].registrationIndex == i)
    && (forall k | k in bids && k.0 == id :: k.1 in book)
  }

  /** Once frozen: exactly the active bidders remain. */
  predicate FrozenBookOk(bids: Bids, id: RoundId, book: seq<Address>, count: nat) {
    && count == |book|
    && (forall i | 0 <= i < |book| :: Active(bids, id, book[i]))
    && (forall k | k in bids && k.0 == id && bids[k].active :: k.1 in book)
  }

  predicate FlagsOk(id: RoundId, r: Round, book: seq<Address>) {
    && (r.rwaReclaimed ==> r.rwaEscrowed && r.status.Cancelled?)
    && (r.status in {Open, Closed, Settled, Failed} ==> r.rwaEscrowed)
    && (r.winner.Some? <==> r.status.Settled?)
    && (r.proofHash.Some? <==> r.status.Settled?)
    && (r.winner.Some? ==> r.winner.value in book)
    && (r.status.Draft? ==> book == [])
    && (!Frozen(r) ==> r.participantSetHash.None?)
    && (r.status in {Closed, Settled, Failed} ==> r.participantSetHash == Some(BookDigest(id, book)))
  }

  predicate ControllerOk(w: World, r: Round) {
    r.status.Open? || r.status.Closed? ==>
      && r.config.controller in w.controllers
      && ControllerMatches(w.market, w.controllers[r.config.controller], r.config, true)
  }

  predicate RoundOk(w: World, id: RoundId) {
    && id in w.rounds
    && id in w.books
    && (var r, book := w.rounds[id], w.books[id];
        && IdentityOk(w, id, r)
        && BookOk(w.bids, id, book)
        && w.market !in book
        && (if Frozen(r) then FrozenBookOk(w.bids, id, book, r.bidderCount)
            else OpenBookOk(w.bids, id, book, r.bidderCount))
        && FlagsOk(id, r, book)
        && ControllerOk(w, r))
  }

  ghost predicate Inv(w: World) {
    && (forall id {:trigger RoundOk(w, id)} | id in w.rounds :: RoundOk(w, id))
    && w.books.Keys == w.rounds.Keys
    && (forall k | k in w.bids :: k.0 in w.rounds)
    && (forall i | 0 <= i < |w.events| ::
          w.events[i].contract == w.market && w.events[i].event.roundId in w.rounds)
  }

  /** What the market owes a round's issuer or winner, in one token. */
  function Owed(r: Round, token: Address): int {
    if r.config.rwaToken == token && r.rwaEscrowed && !r.rwaReclaimed && !r.status.Settled? then r.config.rwaLot else 0
  }

  function OwedAt(rounds: Rounds, id: RoundId, token: Address): int {
    if id in rounds then Owed(rounds[id], token) else 0
  }

  ghost function Pick(rounds: Rounds): RoundId
    requires rounds != map[]
    ensures Pick(rounds) in rounds
  {
    var id :| id in rounds;
    id
  }

  ghost function TotalOwed(rounds: Rounds, token: Address): int {
    if rounds == map[] then 0
    else
      var id := Pick(rounds);
      Owed(rounds[id], token) + TotalOwed(rounds - {id}, token)
  }

  /** The sum does not depend on the order of summation. */
  lemma {:induction false} TotalOwedSplit(rounds: Rounds, id: RoundId, token: Address)
    requires id in rounds
    ensures TotalOwed(rounds, token) == Owed(rounds[id], token) + TotalOwed(rounds - {id}, token)
    decreases |rounds|
  {
    var first := Pick(rounds);
    if first != id {
      var a, b := rounds - {first}, rounds - {id};
      TotalOwedSplit(a, id, token);
      TotalOwedSplit(b, first, token);
      assert a - {id} == b - {first};
    }
  }

  lemma TotalOwedUpdate(rounds: Rounds, id: RoundId, r: Round, token: Address)
    ensures TotalOwed(rounds[id := r], token) == TotalOwed(rounds, token) - OwedAt(rounds, id, token) + Owed(r, token)
  {
    var rounds' := rounds[id := r];
    TotalOwedSplit(rounds', id, token);
    assert rounds' - {id} == rounds - {id};
    if id in rounds {
      TotalOwedSplit(rounds, id, token);
    } else {
      assert rounds - {id} == rounds;
    }
  }

  lemma {:induction false} TotalOwedCovers(rounds: Rounds, id: RoundId, token: Address)
    requires forall j | j in rounds :: rounds[j].config.rwaLot > 0
    ensures 0 <= OwedAt(rounds, id, token) <= TotalOwed(rounds, token)
    decreases |rounds|
  {
    if id in rounds {
      TotalOwedSplit(rounds, id, token);
      TotalOwedCovers(rounds - {id}, id, token);
    } else if rounds != map[] {
      TotalOwedCovers(rounds - {Pick(rounds)}, id, token);
    }
  }

  /** What the market holds beyond what it owes. */
  ghost function Surplus(w: World, token: Address): int {
    Balance(w.balances, token, w.market) - TotalOwed(w.rounds, token)
  }

  function Rank(s: RoundStatus): nat {
    match s
    case Draft => 0
    case Open => 1
    case Closed => 2
    case Failed => 3
    case Settled => 4
    case Cancelled => 4
  }

  /** A round only moves forward, keeps its terms, and once frozen keeps its bidder list. */
  predicate RoundAdvances(w: World, w': World, id: RoundId)
    requires id in w.rounds
  {
    && id in w'.rounds
    && w'.rounds[id].config == w.rounds[id].config
    && Rank(w.rounds[id].status) <= Rank(w'.rounds[id].status)
    && (Rank(w.rounds[id].status) == 4 ==> w'.rounds[id].status == w.rounds[id].status)
    && (w.rounds[id].rwaReclaimed ==> w'.rounds[id].rwaReclaimed)
    && (w.rounds[id].rwaEscrowed ==> w'.rounds[id].rwaEscrowed)
    && (Frozen(w.rounds[id]) ==> LoadBook(w'.books, id) == LoadBook(w.books, id))
    && (w.rounds[id].winner.Some? ==> w'.rounds[id].winner == w.rounds[id].winner)
  }

  ghost predicate Later(w: World, w': World) {
    && w'.market == w.market
    && w.ledger <= w'.ledger
    && w.nextRound <= w'.nextRound
    && (forall id | id in w.rounds :: RoundAdvances(w, w', id))
    && w.events <= w'.events
    && w.payments <= w'.payments
  }

  lemma LaterTransitive(a: World, b: World, c: World)
    requires Later(a, b) && Later(b, c)
    ensures Later(a, c)
  {
  }

  /** No controller that a round may rely on is lost or reconfigured. */
  predicate ControllersKept(w: World, w': World) {
    forall at | at in w.controllers && w.controllers[at].market == w.market ::
      && at in w'.controllers
      && (w'.controllers[at] == w.controllers[at] || w'.controllers[at] == w.controllers[at].(registered := true))
  }

  /** The call changed at most round id. */
  ghost predicate OnlyTouches(w: World, w': World, id: RoundId) {
    && w'.market == w.market
    && w'.ledger == w.ledger
    && w.nextRound <= w'.nextRound
    && w'.rounds.Keys == w.rounds.Keys + {id}
    && w'.books.Keys == w.books.Keys + {id}
    && (forall j | j in w.rounds && j != id :: w'.rounds[j] == w.rounds[j])
    && (forall j | j in w.books && j != id :: w'.books[j] == w.books[j])
    && (forall k | k in w.bids && k.0 != id :: k in w'.bids && w'.bids[k] == w.bids[k])
    && (forall k | k in w'.bids && k.0 != id :: k in w.bids)
    && ControllersKept(w, w')
    && w.events <= w'.events
    && (forall i | |w.events| <= i < |w'.events| ::
          w'.events[i].contract == w.market && w'.events[i].event.roundId == id)
    && w.payments <= w'.payments
  }

  /** Local bookkeeping of one token movement: what left or entered the market is what the round's claim changed by. */
  ghost predicate LocalEscrow(w: World, w': World, id: RoundId) {
    && w'.market == w.market
    && (forall j | j in w.rounds && j != id :: j in w'.rounds && w'.rounds[j] == w.rounds[j])
    && forall token: Address ::
         Balance(w'.balances, token, w'.market) - OwedAt(w'.rounds, id, token)
         == Balance(w.balances, token, w.market) - OwedAt(w.rounds, id, token)
  }

  lemma {:induction false} ActiveCountDepends(bids: Bids, bids': Bids, id: RoundId, book: seq<Address>)
    requires forall b | b in book :: Active(bids, id, b) == Active(bids', id, b)
    ensures ActiveCount(bids, id, book) == ActiveCount(bids', id, book)
  {
    if |book| > 0 {
      assert book[|book| - 1] in book;
      ActiveCountDepends(bids, bids', id, book[..|book| - 1]);
    }
  }

  predicate SameRecords(bids: Bids, bids': Bids, id: RoundId) {
    && (forall k | k in bids && k.0 == id :: k in bids' && bids'[k] == bids[k])
    && (forall k | k in bids' && k.0 == id :: k in bids)
  }

  lemma BookFrame(bids: Bids, bids': Bids, id: RoundId, book: seq<Address>, count: nat)
    requires SameRecords(bids, bids', id)
    ensures BookOk(bids, id, book) ==> BookOk(bids', id, book)
    ensures FrozenBookOk(bids, id, book, count) ==> FrozenBookOk(bids', id, book, count)
  {
  }

  lemma OpenBookFrame(bids: Bids, bids': Bids, id: RoundId, book: seq<Address>, count: nat)
    requires SameRecords(bids, bids', id)
    requires OpenBookOk(bids, id, book, count)
    ensures OpenBookOk(bids', id, book, count)
  {
    forall b | b in book
      ensures Active(bids, id, b) == Active(bids', id, b)
    {
    }
    ActiveCountDepends(bids, bids', id, book);
  }

  lemma ControllerFrame(w: World, w': World, r: Round)
    requires w'.market == w.market && ControllersKept(w, w') && ControllerOk(w, r)
    ensures ControllerOk(w', r)
  {
  }

  /** A round nobody touched is still in order. */
  lemma UntouchedRoundOk(w: World, w': World, id: RoundId, j: RoundId)
    requires RoundOk(w, j) && OnlyTouches(w, w', id) && j != id
    ensures RoundOk(w', j)
  {
    var r, book := w.rounds[j], w.books[j];
    assert SameRecords(w.bids, w'.bids, j);
    BookFrame(w.bids, w'.bids, j, book, r.bidderCount);
    if !Frozen(r) { OpenBookFrame(w.bids, w'.bids, j, book, r.bidderCount); }
    ControllerFrame(w, w', r);
  }

  lemma TouchedWorldOk(w: World, w': World, id: RoundId)
    requires Inv(w) && OnlyTouches(w, w', id)
    requires RoundOk(w', id)
    ensures Inv(w')
  {
    forall j | j in w'.rounds && j != id
      ensures RoundOk(w', j)
    {
      UntouchedRoundOk(w, w', id, j);
    }
    forall i | 0 <= i < |w'.events|
      ensures w'.events[i].contract == w'.market && w'.events[i].event.roundId in w'.rounds
    {
      if i < |w.events| { assert w'.events[i] == w.events[i]; }
    }
    forall k | k in w'.bids
      ensures k.0 in w'.rounds
    {
      if k.0 != id { assert k in w.bids; }
    }
  }

  lemma SurplusKept(w: World, w': World, id: RoundId)
    requires LocalEscrow(w, w', id)
    requires id in w'.rounds && w'.rounds.Keys == w.rounds.Keys + {id}
    ensures forall token :: Surplus(w', token) == Surplus(w, token)
  {
    forall token: Address
      ensures Surplus(w', token) == Surplus(w, token)
    {
      assert w'.rounds == w.rounds[id := w'.rounds[id]];
      TotalOwedUpdate(w.rounds, id, w'.rounds[id], token);
    }
  }
}
