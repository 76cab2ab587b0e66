// Each entry point keeps the market in order, moves rounds only forward, and
// leaves the market's surplus of every token where it was.
module MarketSteps {
  import opened Prelude
  import opened Encoding
  import opened Statement
  import opened MarketTypes
  import opened MarketSpec
  import opened MarketInvariants

  /** What one successful market call guarantees. */
  ghost predicate Sound(w: World, w': World) {
    && Inv(w')
    && Later(w, w')
    && ControllersKept(w, w')
    && w'.ledger == w.ledger
    && forall token: Address :: Surplus(w', token) == Surplus(w, token)
  }

  lemma SoundTransitive(a: World, b: World, c: World)
    requires Sound(a, b) && Sound(b, c)
    ensures Sound(a, c)
  {
    LaterTransitive(a, b, c);
    forall token: Address
      ensures Surplus(c, token) == Surplus(a, token)
    {
      assert Surplus(b, token) == Surplus(a, token);
    }
  }

  lemma TouchedIsLater(w: World, w': World, id: RoundId)
    requires OnlyTouches(w, w', id) && w.books.Keys == w.rounds.Keys
    requires id in w.rounds ==> RoundAdvances(w, w', id)
    ensures Later(w, w')
  {
  }

  lemma TouchedIsSound(w: World, w': World, id: RoundId)
    requires Inv(w) && OnlyTouches(w, w', id) && LocalEscrow(w, w', id)
    requires RoundOk(w', id)
    requires id in w.rounds ==> RoundAdvances(w, w', id)
    ensures Sound(w, w')
  {
    TouchedWorldOk(w, w', id);
    SurplusKept(w, w', id);
    TouchedIsLater(w, w', id);
  }

  /** New ids are new: the counter of every existing id is smaller. */
  lemma NewIdIsFresh(w: World, config: RoundConfig)
    requires Inv(w)
    ensures NewRoundId(w, config) !in w.rounds
    ensures NewRoundId(w, config) !in w.books
    ensures forall k | k in w.bids :: k.0 != NewRoundId(w, config)
  {
    forall id | id in w.rounds ensures id != NewRoundId(w, config) {
      assert RoundOk(w, id);
    }
  }

  lemma CreateTouches(w: World, config: RoundConfig)
    requires Create(w, config).Success? && config.issuer != w.market
    requires NewRoundId(w, config) !in w.rounds && NewRoundId(w, config) !in w.books
    requires forall k | k in w.bids :: k.0 != NewRoundId(w, config)
    ensures
      var w', id := Create(w, config).value, NewRoundId(w, config);
      OnlyTouches(w, w', id) && LocalEscrow(w, w', id) && RoundOk(w', id)
  {
  }

  lemma CreateKeeps(w: World, config: RoundConfig)
    requires Inv(w) && config.issuer != w.market
    requires Create(w, config).Success?
    ensures Sound(w, Create(w, config).value)
    ensures NewRoundId(w, config) !in w.rounds && NewRoundId(w, config) in Create(w, config).value.rounds
  {
    NewIdIsFresh(w, config);
    CreateTouches(w, config);
    TouchedIsSound(w, Create(w, config).value, NewRoundId(w, config));
  }

  /** A call that rewrites one existing record and leaves every list and registration alone. */
  ghost predicate Rewrites(w: World, w': World, id: RoundId, r': Round) {
    && id in w.rounds
    && w'.market == w.market && w'.ledger == w.ledger && w'.nextRound == w.nextRound
    && w'.books == w.books && w'.bids == w.bids
    && w'.rounds == w.rounds[id := r']
    && r'.id == id && r'.config == w.rounds[id].config
    && r'.bidderCount == w.rounds[id].bidderCount
    && (Frozen(w.rounds[id]) ==> Frozen(r'))
    && w.events <= w'.events
    && (forall i | |w.events| <= i < |w'.events| ::
          w'.events[i].contract == w.market && w'.events[i].event.roundId == id)
    && w.payments <= w'.payments
    && ControllersKept(w, w')
  }

  lemma RewrittenRoundOk(w: World, w': World, id: RoundId, r': Round)
    requires RoundOk(w, id) && Rewrites(w, w', id, r')
    requires Frozen(w.rounds[id]) == Frozen(r') || w.rounds[id].status.Draft?
    requires FlagsOk(id, r', w.books[id])
    requires ControllerOk(w', r')
    ensures RoundOk(w', id)
  {
  }

  lemma RewriteTouches(w: World, w': World, id: RoundId, r': Round)
    requires Rewrites(w, w', id, r') && id in w.books
    ensures OnlyTouches(w, w', id)
  {
  }

  lemma RewriteKeeps(w: World, w': World, id: RoundId, r': Round)
    requires Inv(w) && Rewrites(w, w', id, r') && id in w.books
    requires Frozen(w.rounds[id]) == Frozen(r') || w.rounds[id].status.Draft?
    requires FlagsOk(id, r', w.books[id])
    requires ControllerOk(w', r')
    requires LocalEscrow(w, w', id)
    requires RoundAdvances(w, w', id)
    ensures Sound(w, w')
  {
    assert RoundOk(w, id);
    RewrittenRoundOk(w, w', id, r');
    RewriteTouches(w, w', id, r');
    TouchedIsSound(w, w', id);
  }

  lemma MarketReceives(market: Address, b: Balances, token: Address, from: Address, amount: nat)
    requires from != market && Balance(b, token, from) >= amount
    ensures forall t :: Balance(Moved(b, token, from, market, amount), t, market)
                        == Balance(b, t, market) + (if t == token then amount else 0)
  {
  }

  lemma MarketPays(market: Address, b: Balances, token: Address, to: Address, amount: nat)
    requires to != market && Balance(b, token, market) >= amount
    ensures forall t :: Balance(Moved(b, token, market, to, amount), t, market)
                        == Balance(b, t, market) - (if t == token then amount else 0)
    ensures Balance(Moved(b, token, market, to, amount), token, to) == Balance(b, token, to) + amount
  {
  }

  lemma FundRewrites(w: World, id: RoundId)
    requires RoundOk(w, id) && Fund(w, id).Success?
    ensures
      var w', r' := Fund(w, id).value, w.rounds[id].(rwaEscrowed := true);
      && Rewrites(w, w', id, r')
      && FlagsOk(id, r', w.books[id])
      && ControllerOk(w', r')
      && LocalEscrow(w, w', id)
      && RoundAdvances(w, w', id)
  {
    var c := w.rounds[id].config;
    MarketReceives(w.market, w.balances, c.rwaToken, c.issuer, c.rwaLot);
  }

  lemma FundKeeps(w: World, id: RoundId)
    requires Inv(w) && Fund(w, id).Success?
    ensures Sound(w, Fund(w, id).value)
  {
    assert RoundOk(w, id);
    FundRewrites(w, id);
    RewriteKeeps(w, Fund(w, id).value, id, w.rounds[id].(rwaEscrowed := true));
  }

  lemma RegisterRewrites(w: World, id: RoundId, accepts: bool)
    requires RoundOk(w, id) && Register(w, id, accepts).Success?
    ensures
      var w', r' := Register(w, id, accepts).value, w.rounds[id];
      && Rewrites(w, w', id, r')
      && FlagsOk(id, r', w.books[id])
      && ControllerOk(w', r')
      && LocalEscrow(w, w', id)
      && RoundAdvances(w, w', id)
  {
  }

  lemma RegisterKeeps(w: World, id: RoundId, accepts: bool)
    requires Inv(w) && Register(w, id, accepts).Success?
    ensures Sound(w, Register(w, id, accepts).value)
  {
    assert RoundOk(w, id);
    RegisterRewrites(w, id, accepts);
    RewriteKeeps(w, Register(w, id, accepts).value, id, w.rounds[id]);
  }

  lemma OpenBookRewrites(w: World, id: RoundId)
    requires RoundOk(w, id) && OpenBook(w, id).Success?
    ensures
      var w', r' := OpenBook(w, id).value, w.rounds[id].(status := Open);
      && Rewrites(w, w', id, r')
      && FlagsOk(id, r', w.books[id])
      && ControllerOk(w', r')
      && LocalEscrow(w, w', id)
      && RoundAdvances(w, w', id)
  {
  }

  lemma OpenBookKeeps(w: World, id: RoundId)
    requires Inv(w) && OpenBook(w, id).Success?
    ensures Sound(w, OpenBook(w, id).value)
  {
    assert RoundOk(w, id);
    OpenBookRewrites(w, id);
    RewriteKeeps(w, OpenBook(w, id).value, id, w.rounds[id].(status := Open));
  }

  lemma CancelRewrites(w: World, id: RoundId)
    requires RoundOk(w, id) && Cancel(w, id).Success?
    ensures
      var w', r' := Cancel(w, id).value, w.rounds[id].(status := Cancelled);
      && Rewrites(w, w', id, r')
      && FlagsOk(id, r', w.books[id])
      && ControllerOk(w', r')
      && LocalEscrow(w, w', id)
      && RoundAdvances(w, w', id)
  {
  }

  lemma CancelKeeps(w: World, id: RoundId)
    requires Inv(w) && Cancel(w, id).Success?
    ensures Sound(w, Cancel(w, id).value)
  {
    assert RoundOk(w, id);
    CancelRewrites(w, id);
    RewriteKeeps(w, Cancel(w, id).value, id, w.rounds[id].(status := Cancelled));
  }

  lemma NoSaleRewrites(w: World, id: RoundId)
    requires RoundOk(w, id) && NoSale(w, id).Success?
    ensures
      var w', r' := NoSale(w, id).value, w.rounds[id].(status := Failed);
      && Rewrites(w, w', id, r')
      && FlagsOk(id, r', w.books[id])
      && ControllerOk(w', r')
      && LocalEscrow(w, w', id)
      && RoundAdvances(w, w', id)
  {
  }

  lemma NoSaleKeeps(w: World, id: RoundId)
    requires Inv(w) && NoSale(w, id).Success?
    ensures Sound(w, NoSale(w, id).value)
  {
    assert RoundOk(w, id);
    NoSaleRewrites(w, id);
    RewriteKeeps(w, NoSale(w, id).value, id, w.rounds[id].(status := Failed));
  }

  lemma ReclaimRewrites(w: World, id: RoundId)
    requires RoundOk(w, id) && Reclaim(w, id).Success?
    ensures
      var w', r' := Reclaim(w, id).value, w.rounds[id].(rwaReclaimed := true, status := Cancelled);
      && Rewrites(w, w', id, r')
      && FlagsOk(id, r', w.books[id])
      && ControllerOk(w', r')
      && LocalEscrow(w, w', id)
      && RoundAdvances(w, w', id)
  {
    var c := w.rounds[id].config;
    MarketPays(w.market, w.balances, c.rwaToken, c.issuer, c.rwaLot);
  }

  lemma ReclaimKeeps(w: World, id: RoundId)
    requires Inv(w) && Reclaim(w, id).Success?
    ensures Sound(w, Reclaim(w, id).value)
  {
    assert RoundOk(w, id);
    ReclaimRewrites(w, id);
    RewriteKeeps(w, Reclaim(w, id).value, id, w.rounds[id].(rwaReclaimed := true, status := Cancelled));
  }

  function SettledRecord(w: World, id: RoundId, winnerIndex: nat, proof: Proof): Round
    requires id in w.rounds && winnerIndex < |LoadBook(w.books, id)|
  {
    w.rounds[id].(status := Settled,
                  winner := Some(LoadBook(w.books, id)[winnerIndex]),
                  proofHash := Some(ProofDigest(proof)))
  }

  /** The ledger after the controller's call, before the lot moves. */
  function Paid(w: World, id: RoundId, winnerIndex: nat, data: TransferData): Result<World, Fault>
    requires id in w.rounds && winnerIndex < |LoadBook(w.books, id)|
  {
    ControllerSettle(w, w.rounds[id].config.controller, LoadBook(w.books, id)[winnerIndex], data)
  }

  /** Taking finalize apart: what it checked, and what it changed. */
  lemma FinalizedShape(o: Oracle, w: World, id: RoundId, winnerIndex: U32, proof: Proof, data: TransferData)
    requires Finalized(o, w, id, winnerIndex, proof, data).Success?
    ensures id in w.rounds && w.rounds[id].status.Closed? && w.ledger <= w.rounds[id].config.settlementDeadline
    ensures winnerIndex < |LoadBook(w.books, id)|
    ensures w.rounds[id].participantSetHash.Some?
    ensures
      var r := w.rounds[id];
      var inputs := PublicInputBytes(o, w, r, winnerIndex, data);
      inputs.Success? && o.verify(r.config.maxBidVerifier, inputs.value, proof)
    ensures
      var w', r := Finalized(o, w, id, winnerIndex, proof, data).value, w.rounds[id];
      var winner, paid := LoadBook(w.books, id)[winnerIndex], Paid(w, id, winnerIndex, data);
      && paid.Success?
      && 0 <= r.config.rwaLot <= Balance(w.balances, r.config.rwaToken, w.market)
      && w'.balances == Moved(w.balances, r.config.rwaToken, w.market, winner, r.config.rwaLot)
      && w'.payments == paid.value.payments
      && w'.rounds == w.rounds[r.id := SettledRecord(w, id, winnerIndex, proof)]
      && w'.market == w.market && w'.ledger == w.ledger && w'.nextRound == w.nextRound
      && w'.books == w.books && w'.bids == w.bids
      && w'.controllers == w.controllers
      && w'.events == w.events
           + [Logged(w.market, w.ledger, WinnerProven(id, winner, ProofDigest(proof), r.participantSetHash.value))]
           + [Logged(w.market, w.ledger, RoundSettled(id, winner, ProofDigest(proof)))]
  {
  }

  lemma FinalizedRewrites(o: Oracle, w: World, id: RoundId, winnerIndex: U32, proof: Proof, data: TransferData)
    requires RoundOk(w, id) && Finalized(o, w, id, winnerIndex, proof, data).Success?
    ensures winnerIndex < |LoadBook(w.books, id)|
    ensures
      var w', r' := Finalized(o, w, id, winnerIndex, proof, data).value, SettledRecord(w, id, winnerIndex, proof);
      && Rewrites(w, w', id, r')
      && FlagsOk(id, r', w.books[id])
      && ControllerOk(w', r')
      && LocalEscrow(w, w', id)
      && RoundAdvances(w, w', id)
  {
    FinalizedShape(o, w, id, winnerIndex, proof, data);
    var c := w.rounds[id].config;
    MarketPays(w.market, w.balances, c.rwaToken, w.books[id][winnerIndex], c.rwaLot);
  }

  lemma FinalizedKeeps(o: Oracle, w: World, id: RoundId, winnerIndex: U32, proof: Proof, data: TransferData)
    requires Inv(w) && Finalized(o, w, id, winnerIndex, proof, data).Success?
    ensures Sound(w, Finalized(o, w, id, winnerIndex, proof, data).value)
  {
    FinalizedShape(o, w, id, winnerIndex, proof, data);
    assert RoundOk(w, id);
    FinalizedRewrites(o, w, id, winnerIndex, proof, data);
    RewriteKeeps(w, Finalized(o, w, id, winnerIndex, proof, data).value, id, SettledRecord(w, id, winnerIndex, proof));
  }

  lemma DelegationsOutsideRound(w: World, d: Delegations, id: RoundId)
    requires RoundOk(w, id)
    ensures RoundOk(w.(delegations := d), id)
  {
  }

  /** What bidders do inside the confidential token is no concern of the market's own records. */
  lemma DelegationsIrrelevant(w: World, d: Delegations)
    requires Inv(w)
    ensures Sound(w, w.(delegations := d))
  {
    forall id | id in w.rounds
      ensures RoundOk(w.(delegations := d), id)
    {
      DelegationsOutsideRound(w, d, id);
    }
  }

  /** A call that changes one open round's list or registrations, and its record. */
  ghost predicate Rebooks(w: World, w': World, id: RoundId, r': Round, book': seq<Address>) {
    && id in w.rounds
    && w'.market == w.market && w'.ledger == w.ledger && w'.nextRound == w.nextRound && w'.balances == w.balances
    && w'.controllers == w.controllers
    && w'.rounds == w.rounds[id := r'] && w'.books == w.books[id := book']
    && r'.id == id && r'.config == w.rounds[id].config && r'.rwaEscrowed == w.rounds[id].rwaEscrowed
    && !r'.rwaReclaimed && !w.rounds[id].rwaReclaimed
    && w.rounds[id].status.Open? && (r'.status.Open? || r'.status.Closed?)
    && w'.bids.Keys >= w.bids.Keys
    && (forall k | k in w'.bids && k.0 != id :: k in w.bids && w'.bids[k] == w.bids[k])
    && w.events <= w'.events
    && (forall i | |w.events| <= i < |w'.events| ::
          w'.events[i].contract == w.market && w'.events[i].event.roundId == id)
    && w'.payments == w.payments
  }

  lemma RebookedRoundOk(w: World, w': World, id: RoundId, r': Round, book': seq<Address>)
    requires RoundOk(w, id) && Rebooks(w, w', id, r', book')
    requires BookOk(w'.bids, id, book') && w.market !in book'
    requires if Frozen(r') then FrozenBookOk(w'.bids, id, book', r'.bidderCount)
             else OpenBookOk(w'.bids, id, book', r'.bidderCount)
    requires FlagsOk(id, r', book')
    ensures RoundOk(w', id)
  {
  }

  lemma RebookTouches(w: World, w': World, id: RoundId, r': Round, book': seq<Address>)
    requires RoundOk(w, id) && Rebooks(w, w', id, r', book')
    requires r'.winner == w.rounds[id].winner
    ensures OnlyTouches(w, w', id) && LocalEscrow(w, w', id) && RoundAdvances(w, w', id)
  {
  }

  lemma RebookKeeps(w: World, w': World, id: RoundId, r': Round, book': seq<Address>)
    requires Inv(w) && Rebooks(w, w', id, r', book')
    requires r'.winner == w.rounds[id].winner
    requires BookOk(w'.bids, id, book') && w.market !in book'
    requires if Frozen(r') then FrozenBookOk(w'.bids, id, book', r'.bidderCount)
             else OpenBookOk(w'.bids, id, book', r'.bidderCount)
    requires FlagsOk(id, r', book')
    ensures Sound(w, w')
  {
    assert RoundOk(w, id);
    RebookedRoundOk(w, w', id, r', book');
    RebookTouches(w, w', id, r', book');
    TouchedIsSound(w, w', id);
  }

  lemma ActiveCountAppend(bids: Bids, id: RoundId, book: seq<Address>, bidder: Address)
    ensures ActiveCount(bids, id, book + [bidder])
         == ActiveCount(bids, id, book) + (if Active(bids, id, bidder) then 1 else 0)
  {
  }

  lemma AddedBookOk(
    bids: Bids, bids': Bids, id: RoundId, book: seq<Address>, count: nat, bidder: Address, reg: BidRegistration)
    requires BookOk(bids, id, book) && OpenBookOk(bids, id, book, count) && |book| < MAX_BIDDERS
    requires (id, bidder) !in bids
    requires reg.roundId == id && reg.bidder == bidder && reg.registrationIndex == |book| && reg.active
    requires bids' == bids[(id, bidder) := reg]
    ensures BookOk(bids', id, book + [bidder])
    ensures OpenBookOk(bids', id, book + [bidder], count + 1)
  {
    forall b | b in book
      ensures b != bidder && Active(bids, id, b) == Active(bids', id, b)
    {
    }
    ActiveCountDepends(bids, bids', id, book);
    ActiveCountAppend(bids', id, book, bidder);
  }

  lemma AddBidRebooks(w: World, id: RoundId, bidder: Address)
    requires RoundOk(w, id) && AddBid(w, id, bidder).Success?
    ensures Rebooks(w, AddBid(w, id, bidder).value, id,
                    w.rounds[id].(bidderCount := w.rounds[id].bidderCount + 1), w.books[id] + [bidder])
  {
  }

  lemma AddBidBookOk(w: World, id: RoundId, bidder: Address)
    requires RoundOk(w, id) && bidder != w.market && AddBid(w, id, bidder).Success?
    ensures
      var w', book' := AddBid(w, id, bidder).value, w.books[id] + [bidder];
      BookOk(w'.bids, id, book') && OpenBookOk(w'.bids, id, book', w.rounds[id].bidderCount + 1)
  {
    var w' := AddBid(w, id, bidder).value;
    AddedBookOk(w.bids, w'.bids, id, w.books[id], w.rounds[id].bidderCount, bidder, w'.bids[(id, bidder)]);
  }

  lemma AddBidKeeps(w: World, id: RoundId, bidder: Address)
    requires Inv(w) && bidder != w.market && AddBid(w, id, bidder).Success?
    ensures Sound(w, AddBid(w, id, bidder).value)
  {
    var w' := AddBid(w, id, bidder).value;
    assert RoundOk(w, id);
    AddBidRebooks(w, id, bidder);
    AddBidBookOk(w, id, bidder);
    RebookKeeps(w, w', id, w.rounds[id].(bidderCount := w.rounds[id].bidderCount + 1), w.books[id] + [bidder]);
  }

  lemma SubmitDelegatesThenAdds(w: World, id: RoundId, bidder: Address, amount: int, data: SpenderData)
    requires Submit(w, id, bidder, amount, data).Success?
    ensures id in w.rounds
    ensures
      var delegated := Delegated(w, w.rounds[id].config, bidder, data.allowance);
      AddBid(delegated, id, bidder) == Submit(w, id, bidder, amount, data)
  {
  }

  lemma SubmitKeeps(w: World, id: RoundId, bidder: Address, amount: int, data: SpenderData)
    requires Inv(w) && bidder != w.market && Submit(w, id, bidder, amount, data).Success?
    ensures Sound(w, Submit(w, id, bidder, amount, data).value)
  {
    SubmitDelegatesThenAdds(w, id, bidder, amount, data);
    DelegatedThenAdded(w, Delegated(w, w.rounds[id].config, bidder, data.allowance), id, bidder);
  }

  lemma DelegatedThenAdded(w: World, delegated: World, id: RoundId, bidder: Address)
    requires Inv(w) && bidder != w.market
    requires delegated == w.(delegations := delegated.delegations) && AddBid(delegated, id, bidder).Success?
    ensures Sound(w, AddBid(delegated, id, bidder).value)
  {
    DelegationsIrrelevant(w, delegated.delegations);
    AddBidKeeps(delegated, id, bidder);
    SoundTransitive(w, delegated, AddBid(delegated, id, bidder).value);
  }

  lemma {:induction false} OneFewerActive(bids: Bids, bids': Bids, id: RoundId, book: seq<Address>, bidder: Address)
    requires NoDuplicates(book) && bidder in book
    requires Active(bids, id, bidder) && !Active(bids', id, bidder)
    requires forall b | b in book && b != bidder :: Active(bids, id, b) == Active(bids', id, b)
    ensures ActiveCount(bids', id, book) == ActiveCount(bids, id, book) - 1
  {
    var last, front := book[|book| - 1], book[..|book| - 1];
    if last == bidder {
      ActiveCountDepends(bids, bids', id, front);
    } else {
      OneFewerActive(bids, bids', id, front, bidder);
    }
  }

  lemma WithdrawnBookOk(bids: Bids, id: RoundId, book: seq<Address>, count: nat, bidder: Address)
    requires BookOk(bids, id, book) && OpenBookOk(bids, id, book, count)
    requires Active(bids, id, bidder)
    ensures count > 0
    ensures
      var bids' := bids[(id, bidder) := bids[(id, bidder)].(active := false)];
      BookOk(bids', id, book) && OpenBookOk(bids', id, book, count - 1)
  {
    var bids' := bids[(id, bidder) := bids[(id, bidder)].(active := false)];
    OneFewerActive(bids, bids', id, book, bidder);
  }

  lemma WithdrawRebooks(w: World, id: RoundId, bidder: Address, accepted: bool)
    requires RoundOk(w, id) && Withdraw(w, id, bidder, accepted).Success?
    ensures w.rounds[id].bidderCount > 0
    ensures Rebooks(w, Withdraw(w, id, bidder, accepted).value, id,
                    w.rounds[id].(bidderCount := w.rounds[id].bidderCount - 1), w.books[id])
  {
  }

  lemma WithdrawBookOk(w: World, id: RoundId, bidder: Address, accepted: bool)
    requires RoundOk(w, id) && Withdraw(w, id, bidder, accepted).Success?
    ensures
      var w' := Withdraw(w, id, bidder, accepted).value;
      BookOk(w'.bids, id, w.books[id]) && OpenBookOk(w'.bids, id, w.books[id], w.rounds[id].bidderCount - 1)
  {
    WithdrawnBookOk(w.bids, id, w.books[id], w.rounds[id].bidderCount, bidder);
  }

  lemma WithdrawKeeps(w: World, id: RoundId, bidder: Address, accepted: bool)
    requires Inv(w) && Withdraw(w, id, bidder, accepted).Success?
    ensures Sound(w, Withdraw(w, id, bidder, accepted).value)
  {
    var w' := Withdraw(w, id, bidder, accepted).value;
    assert RoundOk(w, id);
    WithdrawRebooks(w, id, bidder, accepted);
    WithdrawBookOk(w, id, bidder, accepted);
    RebookKeeps(w, w', id, w.rounds[id].(bidderCount := w.rounds[id].bidderCount - 1), w.books[id]);
  }

  lemma ActiveBidderCounts(w: World, id: RoundId, bidder: Address)
    requires RoundOk(w, id) && w.rounds[id].status.Open? && Active(w.bids, id, bidder)
    ensures w.rounds[id].bidderCount > 0
  {
    WithdrawnBookOk(w.bids, id, w.books[id], w.rounds[id].bidderCount, bidder);
  }

  lemma OrderlyWithdrawal(w: World, id: RoundId, bidder: Address, accepted: bool)
    requires RoundOk(w, id)
    ensures Withdraw(w, id, bidder, accepted) != Failure(CountUnderflow)
  {
    if w.rounds[id].status.Open? && Active(w.bids, id, bidder) {
      ActiveBidderCounts(w, id, bidder);
    }
  }

  /** In an orderly market the decrement of withdraw_bid never underflows. */
  lemma WithdrawNeverUnderflows(w: World, id: RoundId, bidder: Address, accepted: bool)
    requires Inv(w)
    ensures Withdraw(w, id, bidder, accepted) != Failure(CountUnderflow)
  {
    if id in w.rounds { OrderlyWithdrawal(w, id, bidder, accepted); }
  }

  lemma {:induction false} KeptMembers(w: World, id: RoundId, config: RoundConfig, book: seq<Address>)
    requires NoDuplicates(book)
    ensures forall b :: b in Kept(w, id, config, book) <==> b in book && Active(w.bids, id, b) && Live(w, config, b)
    ensures NoDuplicates(Kept(w, id, config, book)) && |Kept(w, id, config, book)| <= |book|
  {
    if |book| > 0 {
      var front, last := book[..|book| - 1], book[|book| - 1];
      KeptMembers(w, id, config, front);
      assert book == front + [last];
    }
  }

  lemma {:induction false} DroppedMembers(w: World, id: RoundId, config: RoundConfig, book: seq<Address>)
    ensures forall b :: b in Dropped(w, id, config, book) <==> b in book && Active(w.bids, id, b) && !Live(w, config, b)
    ensures NoDuplicates(Dropped(w, id, config, book))
  {
    if |book| > 0 {
      var front, last := book[..|book| - 1], book[|book| - 1];
      DroppedMembers(w, id, config, front);
      assert book == front + [last];
    }
  }

  /** The filter keeps registration order. */
  lemma {:induction false} KeptInOrder(w: World, id: RoundId, config: RoundConfig, book: seq<Address>)
    requires forall i | 0 <= i < |book| :: (id, book[i]) in w.bids && w.bids[(id, book[i])].registrationIndex == i
    ensures
      var kept := Kept(w, id, config, book);
      && (forall b | b in kept :: (id, b) in w.bids && w.bids[(id, b)].registrationIndex < |book|)
      && forall i, j | 0 <= i < j < |kept| ::
           w.bids[(id, kept[i])].registrationIndex < w.bids[(id, kept[j])].registrationIndex
  {
    if |book| > 0 {
      var front, last := book[..|book| - 1], book[|book| - 1];
      KeptInOrder(w, id, config, front);
      assert w.bids[(id, last)].registrationIndex == |front|;
    }
  }

  lemma ClosedBookOk(w: World, id: RoundId)
    requires RoundOk(w, id) && w.rounds[id].status.Open?
    ensures
      var config, book := w.rounds[id].config, w.books[id];
      var kept, bids' := Kept(w, id, config, book), Deactivated(w.bids, id, Dropped(w, id, config, book));
      BookOk(bids', id, kept) && w.market !in kept && FrozenBookOk(bids', id, kept, |kept|)
  {
    var config, book := w.rounds[id].config, w.books[id];
    KeptMembers(w, id, config, book);
    DroppedMembers(w, id, config, book);
    var kept := Kept(w, id, config, book);
    forall i | 0 <= i < |kept|
      ensures kept[i] in book && kept[i] !in Dropped(w, id, config, book)
    {
      assert kept[i] in kept;
    }
  }

  function ClosedRecord(w: World, id: RoundId): Round
    requires id in w.rounds && id in w.books
  {
    var kept := Kept(w, id, w.rounds[id].config, w.books[id]);
    w.rounds[id].(status := Closed, bidderCount := |kept|, participantSetHash := Some(BookDigest(id, kept)))
  }

  /** Everything a successful close_round writes. */
  lemma CloseShape(w: World, id: RoundId)
    requires Close(w, id).Success? && w.rounds[id].id == id && id in w.books
    ensures w.rounds[id].status.Open?
    ensures
      var c, book := w.rounds[id].config, w.books[id];
      var kept, dropped := Kept(w, id, c, book), Dropped(w, id, c, book);
      Close(w, id).value == w.(
        rounds := w.rounds[id := ClosedRecord(w, id)],
        books := w.books[id := kept],
        bids := Deactivated(w.bids, id, dropped),
        events := w.events + Withdrawals(w.market, w.ledger, id, dropped)
                  + [Logged(w.market, w.ledger, RoundClosed(id, |kept|, BookDigest(id, kept)))])
  {
  }

  lemma ClosedFlags(w: World, id: RoundId)
    requires RoundOk(w, id) && w.rounds[id].status.Open?
    ensures Frozen(ClosedRecord(w, id))
    ensures FlagsOk(id, ClosedRecord(w, id), Kept(w, id, w.rounds[id].config, w.books[id]))
    ensures !w.rounds[id].rwaReclaimed
  {
  }

  lemma CloseRebooks(w: World, id: RoundId)
    requires RoundOk(w, id) && Close(w, id).Success?
    ensures
      var kept := Kept(w, id, w.rounds[id].config, w.books[id]);
      && Rebooks(w, Close(w, id).value, id, ClosedRecord(w, id), kept)
      && Frozen(ClosedRecord(w, id))
      && FlagsOk(id, ClosedRecord(w, id), kept)
      && Close(w, id).value.bids == Deactivated(w.bids, id, Dropped(w, id, w.rounds[id].config, w.books[id]))
  {
    CloseShape(w, id);
    ClosedFlags(w, id);
  }

  lemma CloseKeeps(w: World, id: RoundId)
    requires Inv(w) && Close(w, id).Success?
    ensures Sound(w, Close(w, id).value)
  {
    assert RoundOk(w, id);
    CloseRebooks(w, id);
    ClosedBookOk(w, id);
    RebookKeeps(w, Close(w, id).value, id, ClosedRecord(w, id), Kept(w, id, w.rounds[id].config, w.books[id]));
  }

  lemma CreateAndOpenKeeps(w: World, config: RoundConfig, accepts: bool)
    requires Inv(w) && config.issuer != w.market && CreateAndOpen(w, config, accepts).Success?
    ensures Sound(w, CreateAndOpen(w, config, accepts).value)
  {
    var id := NewRoundId(w, config);
    var created := Create(w, config).value;
    var funded := Fund(created, id).value;
    var registered := Register(funded, id, accepts).value;
    CreateKeeps(w, config);
    FundKeeps(created, id);
    SoundTransitive(w, created, funded);
    RegisterKeeps(funded, id, accepts);
    SoundTransitive(w, funded, registered);
    OpenBookKeeps(registered, id);
    SoundTransitive(w, registered, OpenBook(registered, id).value);
  }

  /** Issuers and bidders that had to sign are not the market itself. */
  predicate SignersAreOthers(market: Address, call: Call) {
    match call
    case CreateRound(config) => config.issuer != market
    case CreateAndOpenRound(config, _) => config.issuer != market
    case RegisterBid(_, bidder) => bidder != market
    case SubmitBid(_, bidder, _, _) => bidder != market
    case _ => true
  }

  predicate TouchesBook(call: Call) {
    call.RegisterBid? || call.SubmitBid? || call.WithdrawBid? || call.CloseRound? || call.Finalize?
  }

  lemma BookCallIsSound(o: Oracle, w: World, call: Call)
    requires Inv(w) && SignersAreOthers(w.market, call) && TouchesBook(call) && Perform(o, w, call).Success?
    ensures Sound(w, Perform(o, w, call).value)
  {
    match call
    case RegisterBid(id, bidder) => AddBidKeeps(w, id, bidder);
    case SubmitBid(id, bidder, amount, data) => SubmitKeeps(w, id, bidder, amount, data);
    case WithdrawBid(id, bidder, accepted) => WithdrawKeeps(w, id, bidder, accepted);
    case CloseRound(id) => CloseKeeps(w, id);
    case Finalize(id, winnerIndex, proof, data) => FinalizedKeeps(o, w, id, winnerIndex, proof, data);
  }

  lemma PerformIsSound(o: Oracle, w: World, call: Call)
    requires Inv(w) && SignersAreOthers(w.market, call) && Perform(o, w, call).Success?
    ensures Sound(w, Perform(o, w, call).value)
  {
    if TouchesBook(call) {
      BookCallIsSound(o, w, call);
      return;
    }
    match call
    case CreateRound(config) => CreateKeeps(w, config);
    case CreateAndOpenRound(config, accepts) => CreateAndOpenKeeps(w, config, accepts);
    case FundRound(id) => FundKeeps(w, id);
    case RegisterController(id, accepts) => RegisterKeeps(w, id, accepts);
    case OpenRound(id) => OpenBookKeeps(w, id);
    case CancelRound(id) => CancelKeeps(w, id);
    case MarkNoSale(id) => NoSaleKeeps(w, id);
    case ReclaimRwa(id) => ReclaimKeeps(w, id);
  }

  /**
   * Every successful call, signed by anyone but the market itself, keeps the
   * market in order and its surplus of every token unchanged.
   */
  lemma CallIsSound(o: Oracle, w: World, auth: set<Address>, call: Call)
    requires Inv(w) && w.market !in auth && Execute(o, w, auth, call).Success?
    ensures Sound(w, Execute(o, w, auth, call).value)
  {
    PerformIsSound(o, w, call);
  }
}
