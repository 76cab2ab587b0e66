// contracts/market/src/lib.rs and contracts/round-controller/src/lib.rs as they
// run: entry points load a record, change it and save it, over contract storage
// held in maps. Every method is proved against MarketSpec.
module MarketContract {
  import opened Prelude
  import opened Encoding
  import opened Statement
  import opened MarketTypes
  import Invariants = MarketInvariants
  import Runs = MarketRuns
  import Spec = MarketSpec

  class Ledger {
    const oracle: Oracle
    const market: Address
    var sequence: nat
    var nextRound: nat
    var rounds: Rounds
    var books: Books
    var bids: Bids
    var balances: Balances
    var delegations: Delegations
    var controllers: map<Address, Controller>
    var eligible: set<(Address, Address, Address)>
    var events: seq<Logged>
    var payments: seq<Payment>

    ghost function State(): World
      reads this
    {
      World(market, sequence, nextRound, rounds, books, bids, balances, delegations, controllers,
            eligible, events, payments)
    }

    /** The method ended the way the specification says; on a fault the host will roll back. */
    ghost predicate Follows(r: Result<(), Fault>, spec: Result<World, Fault>)
      reads this
    {
      match spec
      case Success(w) => r.Success? && State() == w
      case Failure(e) => r == Failure(e)
    }

    /** Before the market is used. */
    constructor (
      oracle: Oracle, market: Address, sequence: nat, balances: Balances, controllers: map<Address, Controller>)
      ensures this.oracle == oracle && this.market == market
      ensures State() == World(market, sequence, 0, map[], map[], map[], balances, map[], controllers, {}, [], [])
    {
      this.oracle := oracle;
      this.market := market;
      this.sequence := sequence;
      this.balances := balances;
      this.controllers := controllers;
      nextRound, rounds, books, bids := 0, map[], map[], map[];
      delegations, eligible, events, payments := map[], {}, [], [];
    }

    /**
     * One invocation. A call that panics leaves every storage entry as it was;
     * otherwise the new ledger is the specified one. Either way a market in order
     * stays in order: every round keeps its invariant and its history, and the
     * market's surplus of every token is what it was.
     */
    method Invoke(auth: set<Address>, call: Call) returns (r: Result<(), Fault>)
      modifies this
      ensures match Spec.Execute(oracle, old(State()), auth, call)
              case Success(w) => r.Success? && State() == w
              case Failure(e) => r == Failure(e) && State() == old(State())
      ensures Invariants.Inv(old(State())) && market !in auth ==> Runs.OrderlyMove(old(State()), State())
    {
      var before := Snapshot();
      if Invariants.Inv(before) && market !in auth { Runs.InvocationKeeps(oracle, before, auth, call); }
      r := Attempt(auth, call);
      if r.Failure? { RollBack(before); }
    }

    method Snapshot() returns (w: World)
      ensures w == State()
    {
      w := World(market, sequence, nextRound, rounds, books, bids, balances, delegations, controllers,
                 eligible, events, payments);
    }

    /** The host discards what a panicking invocation wrote. */
    method RollBack(before: World)
      requires before.market == market && before.ledger == sequence && before.eligible == eligible
      modifies this
      ensures State() == before
    {
      nextRound, rounds, books, bids := before.nextRound, before.rounds, before.books, before.bids;
      balances, delegations, controllers := before.balances, before.delegations, before.controllers;
      events, payments := before.events, before.payments;
    }

    method Attempt(auth: set<Address>, call: Call) returns (r: Result<(), Fault>)
      modifies this
      ensures Follows(r, Spec.Execute(oracle, old(State()), auth, call))
      ensures sequence == old(sequence) && eligible == old(eligible)
    {
      var signer :- RequiredSigner(call);
      :- Need(signer.Some? ==> signer.value in auth, Unauthorized);
      match call
      case CreateRound(config) => r := this.CreateRound(config);
      case CreateAndOpenRound(config, accepts) => r := this.CreateAndOpenRound(config, accepts);
      case FundRound(id) => r := this.FundRound(id);
      case RegisterController(id, accepts) => r := this.RegisterController(id, accepts);
      case OpenRound(id) => r := this.OpenRound(id);
      case RegisterBid(id, bidder) => r := this.RegisterBid(id, bidder);
      case SubmitBid(id, bidder, amount, data) => r := this.SubmitBid(id, bidder, amount, data);
      case WithdrawBid(id, bidder, accepted) => r := this.WithdrawBid(id, bidder, accepted);
      case CloseRound(id) => r := this.CloseRound(id);
      case CancelRound(id) => r := this.CancelRound(id);
      case MarkNoSale(id) => r := this.MarkNoSale(id);
      case ReclaimRwa(id) => r := this.ReclaimRwa(id);
      case Finalize(id, winnerIndex, proof, data) => r := this.Finalize(id, winnerIndex, proof, data);
    }

    method RequiredSigner(call: Call) returns (r: Result<Option<Address>, Fault>)
      ensures r == Spec.Signer(State(), call)
    {
      var w := Snapshot();
      r := Spec.Signer(w, call);
    }

    method LoadRound(id: RoundId) returns (r: Result<Round, Fault>)
      ensures r == Spec.LoadRound(State(), id)
    {
      if id !in rounds { return Failure(RoundNotFound); }
      r := Success(rounds[id]);
    }

    method LoadBidders(id: RoundId) returns (book: seq<Address>)
      ensures book == Spec.LoadBook(books, id)
    {
      book := if id in books then books[id] else [];
    }

    method SaveRound(round: Round)
      modifies this`rounds
      ensures State() == Spec.SaveRound(old(State()), round)
    {
      rounds := rounds[round.id := round];
    }

    method Publish(e: Event)
      modifies this`events
      ensures State() == Spec.Publish(old(State()), e)
    {
      events := events + [Logged(market, sequence, e)];
    }

    /** The RWA token's transfer: debits and credits, or panics for lack of funds. */
    method TransferRwa(token: Address, from: Address, to: Address, amount: int) returns (r: Result<(), Fault>)
      modifies this`balances
      ensures Follows(r, Spec.TransferRwa(old(State()), token, from, to, amount))
    {
      var held := if (token, from) in balances then balances[(token, from)] else 0;
      :- Need(0 <= amount <= held, TokenRefused);
      balances := balances[(token, from) := held - amount];
      var received := if (token, to) in balances then balances[(token, to)] else 0;
      balances := balances[(token, to) := received + amount];
      r := Success(());
    }

    method CreateRound(config: RoundConfig) returns (r: Result<(), Fault>)
      modifies this
      ensures Follows(r, Spec.Create(old(State()), config))
      ensures sequence == old(sequence) && eligible == old(eligible)
    {
      var id := RoundDigest(market, nextRound, config);
      :- Need(
        config.rwaLot > 0 && config.reservePublic >= 0 && config.bidDeadline > sequence
        && config.settlementDeadline > config.bidDeadline, InvalidRoundConfig);
      nextRound := nextRound + 1;
      rounds := rounds[id := Round(id, config, Draft, 0, None, None, None, false, false)];
      books := books[id := []];
      Publish(RoundCreated(id, config.issuer, config));
      r := Success(());
    }

    method FundRound(id: RoundId) returns (r: Result<(), Fault>)
      modifies this
      ensures Follows(r, Spec.Fund(old(State()), id))
      ensures sequence == old(sequence) && eligible == old(eligible)
    {
      var round :- LoadRound(id);
      :- Need(round.status.Draft?, RoundNotDraft);
      :- Need(!round.rwaEscrowed, RwaEscrowInsufficient);
      var _ :- TransferRwa(round.config.rwaToken, round.config.issuer, market, round.config.rwaLot);
      round := round.(rwaEscrowed := true);
      Publish(RwaFunded(id, round.config.rwaLot));
      SaveRound(round);
      r := Success(());
    }

    /** RoundController::register: flips the stored flag once, for its own market only. */
    method ControllerRegister(at: Address, tokenAccepts: bool) returns (r: Result<(), Fault>)
      modifies this`controllers
      ensures Follows(r, Spec.ControllerRegister(old(State()), at, tokenAccepts))
    {
      var deployed := at in controllers;
      :- Need(deployed, ContractMissing);
      :- Need(controllers[at].market == market, Unauthorized);
      :- Need(!controllers[at].registered, AlreadyRegistered);
      :- Need(tokenAccepts, TokenRefused);
      controllers := controllers[at := controllers[at].(registered := true)];
      r := Success(());
    }

    /** RoundController::settle: guarded by registration and by the controller's own deadline. */
    method ControllerSettle(at: Address, from: Address, data: TransferData) returns (r: Result<(), Fault>)
      modifies this`delegations, this`payments
      ensures Follows(r, Spec.ControllerSettle(old(State()), at, from, data))
    {
      var deployed := at in controllers;
      :- Need(deployed, ContractMissing);
      var c := controllers[at];
      :- Need(c.market == market, Unauthorized);
      :- Need(c.registered, NotRegistered);
      :- Need(sequence <= c.deadline, ControllerDeadlinePassed);
      var key := (c.token, from, at);
      :- Need(data.Transfer? && data.accepted && key in delegations, TokenRefused);
      delegations := delegations[key := delegations[key].(allowanceCommitment := data.nextAllowance)];
      payments := payments + [Payment(c.token, at, from, c.issuer, data)];
      r := Success(());
    }

    method RegisterController(id: RoundId, tokenAccepts: bool) returns (r: Result<(), Fault>)
      modifies this
      ensures Follows(r, Spec.Register(old(State()), id, tokenAccepts))
      ensures sequence == old(sequence) && eligible == old(eligible)
    {
      var round :- LoadRound(id);
      :- Need(round.status.Draft?, RoundNotDraft);
      var at := round.config.controller;
      :- Need(at in controllers, ContractMissing);
      :- Need(Spec.ControllerMatches(market, controllers[at], round.config, false), ControllerConfigurationMismatch);
      var _ :- ControllerRegister(at, tokenAccepts);
      r := if Spec.ControllerMatches(market, controllers[at], round.config, true) then Success(())
           else Failure(ControllerConfigurationMismatch);
    }

    method OpenRound(id: RoundId) returns (r: Result<(), Fault>)
      modifies this
      ensures Follows(r, Spec.OpenBook(old(State()), id))
      ensures sequence == old(sequence) && eligible == old(eligible)
    {
      var round :- LoadRound(id);
      :- Need(round.status.Draft?, RoundNotDraft);
      :- Need(sequence <= round.config.bidDeadline, BidDeadlinePassed);
      :- Need(round.rwaEscrowed && Balance(balances, round.config.rwaToken, market) >= round.config.rwaLot,
              RwaEscrowInsufficient);
      var at := round.config.controller;
      :- Need(at in controllers, ContractMissing);
      :- Need(Spec.ControllerMatches(market, controllers[at], round.config, true), ControllerConfigurationMismatch);
      round := round.(status := Open);
      Publish(RoundOpened(id));
      SaveRound(round);
      r := Success(());
    }

    method CreateAndOpenRound(config: RoundConfig, tokenAccepts: bool) returns (r: Result<(), Fault>)
      modifies this
      ensures Follows(r, Spec.CreateAndOpen(old(State()), config, tokenAccepts))
      ensures sequence == old(sequence) && eligible == old(eligible)
    {
      var id := RoundDigest(market, nextRound, config);
      var _ :- CreateRound(config);
      var _ :- FundRound(id);
      var _ :- RegisterController(id, tokenAccepts);
      r := OpenRound(id);
    }

    method ValidateCandidate(id: RoundId, bidder: Address) returns (r: Result<Round, Fault>)
      ensures r == Spec.ValidateCandidate(State(), id, bidder)
    {
      var round :- LoadRound(id);
      :- Need(round.status.Open?, RoundNotOpen);
      :- Need(sequence <= round.config.bidDeadline, BidDeadlinePassed);
      :- Need((id, bidder) !in bids, BidAlreadyRegistered);
      var book := LoadBidders(id);
      :- Need(|book| < MAX_BIDDERS, BidCapacityReached);
      var grant := (round.config.eligibilityPolicy, bidder, round.config.confidentialToken);
      :- Need(grant in eligible, InvestorNotAuthorized);
      r := Success(round);
    }

    method RegisterBid(id: RoundId, bidder: Address) returns (r: Result<(), Fault>)
      modifies this
      ensures Follows(r, Spec.AddBid(old(State()), id, bidder))
      ensures sequence == old(sequence) && eligible == old(eligible)
    {
      var round :- ValidateCandidate(id, bidder);
      var key := (round.config.confidentialToken, bidder, round.config.controller);
      :- Need(key in delegations, DelegationNotFound);
      :- Need(delegations[key].liveUntil >= round.config.settlementDeadline, DelegationExpired);
      var book := LoadBidders(id);
      var registration := BidRegistration(id, bidder, |book|, sequence, true);
      round := round.(bidderCount := round.bidderCount + 1);
      bids := bids[(id, bidder) := registration];
      books := books[id := book + [bidder]];
      Publish(BidRegistered(id, bidder, registration.registrationIndex));
      SaveRound(round);
      r := Success(());
    }

    method SubmitBid(id: RoundId, bidder: Address, depositAmount: int, data: SpenderData) returns (r: Result<(), Fault>)
      modifies this
      ensures Follows(r, Spec.Submit(old(State()), id, bidder, depositAmount, data))
      ensures sequence == old(sequence) && eligible == old(eligible)
    {
      var deposits := depositAmount > 0;
      :- Need(depositAmount >= 0, InvalidDepositAmount);
      var round :- ValidateCandidate(id, bidder);
      if deposits {
        :- Need(data.depositAccepted, TokenRefused);
      }
      :- Need(data.spenderAccepted, TokenRefused);
      var key := (round.config.confidentialToken, bidder, round.config.controller);
      delegations := delegations[key := Delegation(data.allowance, round.config.settlementDeadline)];
      assert State() == Spec.Delegated(old(State()), round.config, bidder, data.allowance);
      r := RegisterBid(id, bidder);
    }

    method WithdrawBid(id: RoundId, bidder: Address, revokeAccepted: bool) returns (r: Result<(), Fault>)
      modifies this
      ensures Follows(r, Spec.Withdraw(old(State()), id, bidder, revokeAccepted))
      ensures sequence == old(sequence) && eligible == old(eligible)
    {
      var round :- LoadRound(id);
      :- Need(round.status.Open?, RoundNotOpen);
      :- Need(sequence <= round.config.bidDeadline, BidDeadlinePassed);
      :- Need((id, bidder) in bids, BidNotRegistered);
      var registration := bids[(id, bidder)];
      :- Need(registration.active, BidNotActive);
      var key := (round.config.confidentialToken, bidder, round.config.controller);
      if key in delegations {
        :- Need(revokeAccepted, TokenRefused);
      }
      delegations := delegations - {key};
      registration := registration.(active := false);
      :- Need(round.bidderCount > 0, CountUnderflow);
      round := round.(bidderCount := round.bidderCount - 1);
      bids := bids[(id, bidder) := registration];
      Publish(BidWithdrawn(id, bidder));
      SaveRound(round);
      r := Success(());
    }

    /** One turn of close_round's loop: true keeps the bidder; a dead active one is deactivated and published. */
    method SweepOne(id: RoundId, config: RoundConfig, bidder: Address) returns (r: Result<bool, Fault>)
      modifies this`bids, this`events
      ensures r.Success? <==> (id, bidder) in old(bids)
      ensures r.Failure? ==> r.error == BidNotRegistered
      ensures r.Success? ==>
        var active, live := old(bids)[(id, bidder)].active, Spec.Live(old(State()), config, bidder);
        && r.value == (active && live)
        && bids == (if active && !live then old(bids)[(id, bidder) := old(bids)[(id, bidder)].(active := false)]
                    else old(bids))
        && events == (if active && !live then old(events) + [Logged(market, sequence, BidWithdrawn(id, bidder))]
                      else old(events))
    {
      var entry := (id, bidder);
      :- Need(entry in bids, BidNotRegistered);
      var registration := bids[entry];
      if !registration.active { return Success(false); }
      var key := (config.confidentialToken, bidder, config.controller);
      if key in delegations && delegations[key].liveUntil >= config.settlementDeadline {
        return Success(true);
      }
      bids := bids[entry := registration.(active := false)];
      Publish(BidWithdrawn(id, bidder));
      r := Success(false);
    }

    /**
     * close_round's loop: one pass over the list keeps the live bidders and
     * deactivates the rest, publishing one withdrawal for each.
     */
    method SweepBook(id: RoundId, config: RoundConfig, book: seq<Address>) returns (r: Result<seq<Address>, Fault>)
      modifies this`bids, this`events
      ensures r.Success? <==> Spec.AllRegistered(old(bids), id, book)
      ensures r.Failure? ==> r.error == BidNotRegistered
      ensures r.Success? ==> Swept(old(State()), id, config, book, r.value, bids, events)
    {
      ghost var w := State();
      var kept: seq<Address> := [];
      for i := 0 to |book|
        invariant Spec.AllRegistered(w.bids, id, book[..i])
        invariant Swept(w, id, config, book[..i], kept, bids, events)
      {
        assert book[..i + 1] == book[..i] + [book[i]];
        assert book[i] in book;
        ghost var bidsBefore, eventsBefore := bids, events;
        SweepReaches(w, id, config, book[..i], book[i], kept, bids, events);
        var keep :- SweepOne(id, config, book[i]);
        SweepAdvances(w, id, config, book[..i], book[i], kept, bidsBefore, eventsBefore, keep, bids, events);
        if keep { kept := kept + [book[i]]; }
      }
      assert book[..|book|] == book;
      r := Success(kept);
    }

    method CloseRound(id: RoundId) returns (r: Result<(), Fault>)
      modifies this
      ensures Follows(r, Spec.Close(old(State()), id))
      ensures sequence == old(sequence) && eligible == old(eligible)
    {
      var round :- LoadRound(id);
      :- Need(round.status.Open?, RoundNotOpen);
      :- Need(sequence > round.config.bidDeadline, BidDeadlineNotReached);
      var book := LoadBidders(id);
      ghost var w := State();
      var active :- SweepBook(id, round.config, book);
      SweptIsClose(w, State(), id, active);
      books := books[id := active];
      var hash := BookDigest(id, active);
      round := round.(bidderCount := |active|, status := Closed, participantSetHash := Some(hash));
      Publish(RoundClosed(id, round.bidderCount, hash));
      SaveRound(round);
      r := Success(());
    }

    method CancelRound(id: RoundId) returns (r: Result<(), Fault>)
      modifies this
      ensures Follows(r, Spec.Cancel(old(State()), id))
      ensures sequence == old(sequence) && eligible == old(eligible)
    {
      var round :- LoadRound(id);
      :- Need(round.status.Draft?, RoundNotDraft);
      SaveRound(round.(status := Cancelled));
      r := Success(());
    }

    method MarkNoSale(id: RoundId) returns (r: Result<(), Fault>)
      modifies this
      ensures Follows(r, Spec.NoSale(old(State()), id))
      ensures sequence == old(sequence) && eligible == old(eligible)
    {
      var round :- LoadRound(id);
      :- Need(round.status.Closed?, RoundNotClosed);
      var reasonCode := 0;
      if round.bidderCount == 0 {
      } else if sequence > round.config.settlementDeadline {
        reasonCode := 1;
      } else {
        return Failure(NoSaleNotAvailable);
      }
      round := round.(status := Failed);
      Publish(RoundFailed(id, reasonCode));
      SaveRound(round);
      r := Success(());
    }

    method ReclaimRwa(id: RoundId) returns (r: Result<(), Fault>)
      modifies this
      ensures Follows(r, Spec.Reclaim(old(State()), id))
      ensures sequence == old(sequence) && eligible == old(eligible)
    {
      var round :- LoadRound(id);
      :- Need(round.status.Failed? || round.status.Cancelled?, InvalidFailureTransition);
      :- Need(round.rwaEscrowed && !round.rwaReclaimed, RwaAlreadyReclaimed);
      var _ :- TransferRwa(round.config.rwaToken, market, round.config.issuer, round.config.rwaLot);
      round := round.(rwaReclaimed := true);
      if round.status.Failed? {
        round := round.(status := Cancelled);
      }
      Publish(RwaReclaimed(id, round.config.issuer, round.config.rwaLot));
      SaveRound(round);
      r := Success(());
    }

    /** The commitments of the frozen bidders, appended slot by slot and padded with zeros. */
    method AppendCommitments(round: Round, book: seq<Address>, domain: Word) returns (r: Result<Bytes, Fault>)
      ensures
        var slots := Spec.Slots(State(), round.config, book, Spec.Min(round.bidderCount, MAX_BIDDERS));
        match slots
        case Success(s) => r == Success(domain + SlotBytes(s, MAX_BIDDERS))
        case Failure(e) => r == Failure(e)
    {
      ghost var w := State();
      var inputs: Bytes := domain;
      for index := 0 to MAX_BIDDERS
        invariant Spec.Slots(w, round.config, book, Spec.Min(round.bidderCount, index)).Success?
        invariant inputs == domain + SlotBytes(
          Spec.Slots(w, round.config, book, Spec.Min(round.bidderCount, index)).value, index)
      {
        SlotStep(w, round, book, index);
        if index < round.bidderCount {
          if index >= |book| { return Failure(WinnerIndexInvalid); }
          var key := (round.config.confidentialToken, book[index], round.config.controller);
          if key !in delegations { return Failure(DelegationNotFound); }
          inputs := inputs + delegations[key].allowanceCommitment;
        } else {
          inputs := inputs + Zeros(64);
        }
      }
      r := Success(inputs);
    }

    /** build_max_bid_public_inputs */
    method MaxBidPublicInputs(round: Round, winnerIndex: U32, data: TransferData) returns (r: Result<Bytes, Fault>)
      ensures r == Spec.PublicInputBytes(oracle, State(), round, winnerIndex, data)
    {
      var book := LoadBidders(round.id);
      ghost var count := Spec.Min(round.bidderCount, MAX_BIDDERS);
      :- Need(winnerIndex < round.bidderCount, WinnerIndexInvalid);
      :- Need(round.participantSetHash.Some?, RoundNotClosed);
      var domain := oracle.domainHash(market, round.id, round.config, round.participantSetHash.value)[0 := 0];
      var inputs :- AppendCommitments(round, book, domain);
      Spec.SlotsLength(State(), round.config, book, count);
      inputs := AppendFlags(inputs, round.bidderCount, count);
      inputs := inputs + AmountField(round.config.reservePublic);
      inputs := inputs + U32Field(winnerIndex);
      :- Need(data.Transfer?, DecodeFailed);
      r := Success(inputs + data.cTransfer);
    }

    static method AppendFlags(inputs: Bytes, bidderCount: nat, ghost count: nat) returns (r: Bytes)
      requires count == Spec.Min(bidderCount, MAX_BIDDERS)
      ensures r == inputs + FlagBytes(count, MAX_BIDDERS)
    {
      r := inputs;
      for index := 0 to MAX_BIDDERS
        invariant r == inputs + FlagBytes(count, index)
      {
        r := r + U32Field(if index < bidderCount then 1 else 0);
      }
    }

    method Finalize(id: RoundId, winnerIndex: U32, proof: Proof, data: TransferData) returns (r: Result<(), Fault>)
      modifies this
      ensures Follows(r, Spec.Finalized(oracle, old(State()), id, winnerIndex, proof, data))
      ensures sequence == old(sequence) && eligible == old(eligible)
    {
      var round :- LoadRound(id);
      :- Need(!round.status.Settled?, RoundAlreadySettled);
      :- Need(round.status.Closed?, RoundNotClosed);
      :- Need(sequence <= round.config.settlementDeadline, SettlementDeadlinePassed);
      var book := LoadBidders(id);
      :- Need(winnerIndex < |book|, WinnerIndexInvalid);
      var winner := book[winnerIndex];
      var inputs :- MaxBidPublicInputs(round, winnerIndex, data);
      :- Need(oracle.verify(round.config.maxBidVerifier, inputs, proof), MaxProofInvalid);
      var proofHash := ProofDigest(proof);
      var _ :- ControllerSettle(round.config.controller, winner, data);
      var _ :- TransferRwa(round.config.rwaToken, market, winner, round.config.rwaLot);
      // The unwrap cannot panic: no statement is built without the hash.
      Publish(WinnerProven(id, winner, proofHash, round.participantSetHash.value));
      Publish(RoundSettled(id, winner, proofHash));
      SaveRound(round.(status := Settled, winner := Some(winner), proofHash := Some(proofHash)));
      r := Success(());
    }
  }

  /** Where the loop of close_round stands after part of the list. */
  predicate Swept(
    w: World, id: RoundId, config: RoundConfig, book: seq<Address>,
    kept: seq<Address>, bids: Bids, events: seq<Logged>) {
    var dropped := Spec.Dropped(w, id, config, book);
    && kept == Spec.Kept(w, id, config, book)
    && bids == Spec.Deactivated(w.bids, id, dropped)
    && events == w.events + Spec.Withdrawals(w.market, w.ledger, id, dropped)
  }

  /** A finished sweep, and what close_round then does. */
  lemma SweptIsClose(w: World, swept: World, id: RoundId, kept: seq<Address>)
    requires id in w.rounds && w.rounds[id].status.Open? && w.ledger > w.rounds[id].config.bidDeadline
    requires Spec.AllRegistered(w.bids, id, Spec.LoadBook(w.books, id))
    requires swept == w.(bids := swept.bids, events := swept.events)
    requires Swept(w, id, w.rounds[id].config, Spec.LoadBook(w.books, id), kept, swept.bids, swept.events)
    ensures
      var hash, frozen := BookDigest(id, kept), swept.(books := w.books[id := kept]);
      Spec.Close(w, id) == Success(Spec.SaveRound(
        Spec.Publish(frozen, RoundClosed(id, |kept|, hash)),
        w.rounds[id].(status := Closed, bidderCount := |kept|, participantSetHash := Some(hash))))
  {
  }

  /** One more entry of the list: how the filters and the records grow. */
  lemma SweepStep(w: World, id: RoundId, config: RoundConfig, front: seq<Address>, last: Address)
    ensures
      var book := front + [last];
      var before, after := Spec.Dropped(w, id, config, front), Spec.Dropped(w, id, config, book);
      var drops := Spec.Active(w.bids, id, last) && !Spec.Live(w, config, last) && last !in before;
      && Spec.Kept(w, id, config, book) == Spec.Kept(w, id, config, front)
           + (if Spec.Active(w.bids, id, last) && Spec.Live(w, config, last) then [last] else [])
      && after == before + (if drops then [last] else [])
      && (drops ==>
            && Spec.Deactivated(w.bids, id, after) ==
                 Spec.Deactivated(w.bids, id, before)[(id, last) := w.bids[(id, last)].(active := false)]
            && Spec.Withdrawals(w.market, w.ledger, id, after) ==
                 Spec.Withdrawals(w.market, w.ledger, id, before)
                   + [Logged(w.market, w.ledger, BidWithdrawn(id, last))])
      && forall b | b in before :: Spec.Active(w.bids, id, b) && !Spec.Live(w, config, b)
  {
    var book := front + [last];
    assert book[..|book| - 1] == front;
    DroppedWereActive(w, id, config, front);
  }

  /** The entry's own record is untouched unless it was dropped before. */
  lemma SweepReaches(
    w: World, id: RoundId, config: RoundConfig, front: seq<Address>, last: Address,
    kept: seq<Address>, bids: Bids, events: seq<Logged>)
    requires Swept(w, id, config, front, kept, bids, events)
    ensures (id, last) in bids <==> (id, last) in w.bids
  {
  }

  lemma SweepAdvances(
    w: World, id: RoundId, config: RoundConfig, front: seq<Address>, last: Address,
    kept: seq<Address>, bids: Bids, events: seq<Logged>, keep: bool, bids': Bids, events': seq<Logged>)
    requires Swept(w, id, config, front, kept, bids, events) && (id, last) in w.bids && (id, last) in bids
    requires
      var active, live := bids[(id, last)].active, Spec.Live(w, config, last);
      && keep == (active && live)
      && bids' == (if active && !live then bids[(id, last) := bids[(id, last)].(active := false)] else bids)
      && events' == (if active && !live then events + [Logged(w.market, w.ledger, BidWithdrawn(id, last))] else events)
    ensures Swept(w, id, config, front + [last], if keep then kept + [last] else kept, bids', events')
  {
    SweepStep(w, id, config, front, last);
  }

  lemma {:induction false} DroppedWereActive(w: World, id: RoundId, config: RoundConfig, book: seq<Address>)
    ensures forall b | b in Spec.Dropped(w, id, config, book) :: Spec.Active(w.bids, id, b) && !Spec.Live(w, config, b)
  {
    if |book| > 0 {
      DroppedWereActive(w, id, config, book[..|book| - 1]);
    }
  }

  /** One more slot: what it appends, or the fault that any longer list also gives. */
  lemma SlotStep(w: World, round: Round, book: seq<Address>, index: nat)
    requires index < MAX_BIDDERS
    requires Spec.Slots(w, round.config, book, Spec.Min(round.bidderCount, index)).Success?
    ensures
      var before := Spec.Slots(w, round.config, book, Spec.Min(round.bidderCount, index)).value;
      var after := Spec.Slots(w, round.config, book, Spec.Min(round.bidderCount, index + 1));
      if index >= round.bidderCount then
        after == Success(before) && SlotBytes(before, index + 1) == SlotBytes(before, index) + Zeros(64)
      else if index >= |book| then after == Failure(WinnerIndexInvalid)
      else if !Spec.IsSpender(w, round.config, book[index]) then after == Failure(DelegationNotFound)
      else
        var slot := Spec.DelegationOf(w, round.config, book[index]).allowanceCommitment;
        after == Success(before + [slot]) && SlotBytes(before + [slot], index + 1) == SlotBytes(before, index) + slot
    ensures
      Spec.Slots(w, round.config, book, Spec.Min(round.bidderCount, index + 1)).Failure? ==>
        Spec.Slots(w, round.config, book, Spec.Min(round.bidderCount, MAX_BIDDERS))
          == Failure(Spec.Slots(w, round.config, book, Spec.Min(round.bidderCount, index + 1)).error)
  {
    var n := Spec.Min(round.bidderCount, index);
    Spec.SlotsLength(w, round.config, book, n);
    var before := Spec.Slots(w, round.config, book, n).value;
    if index < round.bidderCount && index < |book| && Spec.IsSpender(w, round.config, book[index]) {
      SlotBytesExtend(before, Spec.DelegationOf(w, round.config, book[index]).allowanceCommitment, index);
    }
    var next := Spec.Min(round.bidderCount, index + 1);
    if Spec.Slots(w, round.config, book, next).Failure? {
      SlotFaultIsFinal(w, round.config, book, next, Spec.Min(round.bidderCount, MAX_BIDDERS));
    }
  }

  lemma {:induction false} SlotBytesExtend(slots: seq<PointBytes>, slot: PointBytes, n: nat)
    requires n <= |slots|
    ensures SlotBytes(slots + [slot], n) == SlotBytes(slots, n)
  {
    if n > 0 {
      SlotBytesExtend(slots, slot, n - 1);
    }
  }

  lemma {:induction false} SlotFaultIsFinal(w: World, config: RoundConfig, book: seq<Address>, n: nat, m: nat)
    requires n <= m && Spec.Slots(w, config, book, n).Failure?
    ensures Spec.Slots(w, config, book, m) == Failure(Spec.Slots(w, config, book, n).error)
    decreases m
  {
    if n < m {
      SlotFaultIsFinal(w, config, book, n, m - 1);
    }
  }
}
