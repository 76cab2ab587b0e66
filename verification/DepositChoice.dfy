// apps/web/src/sandbox.ts: how much a bid deposits, and whether the proof it
// builds speaks of the commitment the chain will hold.
module DepositChoice {
  import opened Prelude
  import opened Field
  import opened Curve
  import opened DelegationBuilders
  import opened Disclosure
  import opened BalanceReplay
  import opened ConfidentialToken

  const DEPOSIT: int := 200_000_000
  const MIN_BID: int := 80_000_000
  const OLD_DEPOSITS: nat := 10

  /** The commitment is opened by the value with so many whole deposits added, as interrupted flows may have left it. */
  predicate OpensAfter(c: Crypto, commitment: Point, o: Opening, deposits: nat) {
    c.commit(o.value + deposits * DEPOSIT, o.randomness) == commitment
  }

  /** No fewer deposits open the commitment. */
  predicate FirstOpening(c: Crypto, commitment: Point, o: Opening, deposits: nat) {
    OpensAfter(c, commitment, o, deposits) && forall k: nat :: k < deposits ==> !OpensAfter(c, commitment, o, k)
  }

  method ReconcilePublicDeposits(c: Crypto, commitment: Point, o: Opening) returns (r: Option<int>)
    ensures r.None? <==> forall d: nat :: d <= OLD_DEPOSITS ==> !OpensAfter(c, commitment, o, d)
    ensures r.Some? ==>
      (exists d: nat :: d <= OLD_DEPOSITS && r.value == o.value + d * DEPOSIT && FirstOpening(c, commitment, o, d))
    ensures c.commit(o.value, o.randomness) == commitment ==> r == Some(o.value)
  {
    var deposits: nat := 0;
    while deposits <= OLD_DEPOSITS
      invariant deposits <= OLD_DEPOSITS + 1
      invariant forall k: nat :: k < deposits ==> !OpensAfter(c, commitment, o, k)
      invariant deposits > 0 ==> c.commit(o.value, o.randomness) != commitment
    {
      var candidate := o.value + deposits * DEPOSIT;
      if c.commit(candidate, o.randomness) == commitment {
        assert FirstOpening(c, commitment, o, deposits);
        return Some(candidate);
      }
      deposits := deposits + 1;
    }
    r := None;
  }

  /** The deposit of a bid: up to DEPOSIT, or one stroop to force a merge of what was only received. */
  function DepositAmount(spendable: Opening, receiving: Opening): int {
    var total := spendable.value + receiving.value;
    if total < DEPOSIT then DEPOSIT - total else if receiving.value > 0 then 1 else 0
  }

  /** A deposit tops up to DEPOSIT and no further; only to force a merge is a single stroop added above it. */
  lemma DepositTopsUp(spendable: Opening, receiving: Opening)
    ensures
      var total, deposit := spendable.value + receiving.value, DepositAmount(spendable, receiving);
      && deposit >= 0 && total + deposit >= DEPOSIT
      && (total < DEPOSIT ==> total + deposit == DEPOSIT)
      && (total >= DEPOSIT && receiving.value > 0 ==> deposit == 1)
      && (total >= DEPOSIT && receiving.value <= 0 ==> deposit == 0)
  {
  }

  /** The opening the set_spender witness is built from. */
  function Expected(c: Crypto, spendable: Opening, receiving: Opening): Opening {
    Opening(spendable.value + receiving.value + DepositAmount(spendable, receiving),
            c.addRandomness(spendable.randomness, receiving.randomness))
  }

  /** What submit_bid does to the token before set_spender: deposit and merge, unless there is nothing to deposit. */
  function Prepared(c: Crypto, keys: Keys, t: Token, me: Account, deposit: nat): Token {
    if deposit == 0 then t
    else
      var deposited := Act(c, keys, t, DepositInto(me, me, deposit)).value.0;
      Act(c, keys, deposited, MergeOf(me)).value.0
  }

  /** The family of balances the choice gets wrong: enough to bid, nothing received, yet a blinded receiving side. */
  predicate BlindedDust(h: Holding, spendable: Opening, receiving: Opening) {
    spendable.value + receiving.value >= DEPOSIT && receiving.value == 0 && h.cReceive != IDENTITY
  }

  /** The choice is right for every pair of openings outside that family, and for none inside it. */
  lemma DepositChoiceExactly(c: Crypto, keys: Keys, t: Token, me: Account, spendable: Opening, receiving: Opening)
    requires Homomorphic(c) && ZeroIsNeutral(c) && Cancels(c) && 0 <= receiving.value
    requires Open(c, spendable) == Of(t, me).cSpend && Open(c, receiving) == Of(t, me).cReceive
    ensures
      var prepared := Prepared(c, keys, t, me, DepositAmount(spendable, receiving));
      Of(prepared, me).cSpend == Open(c, Expected(c, spendable, receiving))
      <==> !BlindedDust(Of(t, me), spendable, receiving)
  {
    if DepositAmount(spendable, receiving) == 0 {
      NothingDeposited(c, keys, t, me, spendable, receiving);
    } else {
      SomethingDeposited(c, keys, t, me, spendable, receiving);
    }
  }

  lemma NothingDeposited(c: Crypto, keys: Keys, t: Token, me: Account, spendable: Opening, receiving: Opening)
    requires Homomorphic(c) && Cancels(c) && DepositAmount(spendable, receiving) == 0
    requires Open(c, spendable) == Of(t, me).cSpend && Open(c, receiving) == Of(t, me).cReceive
    ensures Of(t, me).cSpend == Open(c, Expected(c, spendable, receiving)) <==> Of(t, me).cReceive == IDENTITY
  {
    SumOpens(c, spendable.value, spendable.randomness, receiving.value, receiving.randomness);
    assert OnlyIdentityKeeps(c, spendable.value, spendable.randomness, receiving.value, receiving.randomness);
  }

  lemma SomethingDeposited(c: Crypto, keys: Keys, t: Token, me: Account, spendable: Opening, receiving: Opening)
    requires Homomorphic(c) && ZeroIsNeutral(c) && DepositAmount(spendable, receiving) > 0
    requires Open(c, spendable) == Of(t, me).cSpend && Open(c, receiving) == Of(t, me).cReceive
    ensures
      var prepared := Prepared(c, keys, t, me, DepositAmount(spendable, receiving));
      Of(prepared, me).cSpend == Open(c, Expected(c, spendable, receiving))
  {
    var deposit := DepositAmount(spendable, receiving);
    PreparedCommitment(c, keys, t, me, deposit);
    DepositOpens(c, receiving.value, receiving.randomness, deposit);
    SumOpens(c, spendable.value, spendable.randomness, receiving.value + deposit, receiving.randomness);
  }

  lemma PreparedCommitment(c: Crypto, keys: Keys, t: Token, me: Account, deposit: nat)
    requires deposit > 0
    ensures Of(Prepared(c, keys, t, me, deposit), me).cSpend
         == c.add(Of(t, me).cSpend, c.add(Of(t, me).cReceive, c.commit(deposit, 0)))
  {
  }

  /** With zero receiving randomness whenever nothing was received, the choice is always right. */
  lemma UnblindedChoiceIsRight(c: Crypto, keys: Keys, t: Token, me: Account, spendable: Opening, receiving: Opening)
    requires Lawful(c) && Cancels(c) && 0 <= receiving.value
    requires Open(c, spendable) == Of(t, me).cSpend && Open(c, receiving) == Of(t, me).cReceive
    requires receiving.value == 0 ==> receiving.randomness == 0
    ensures Of(Prepared(c, keys, t, me, DepositAmount(spendable, receiving)), me).cSpend
         == Open(c, Expected(c, spendable, receiving))
  {
    DepositChoiceExactly(c, keys, t, me, spendable, receiving);
  }

  /** Any bid up to DEPOSIT leaves a non-negative remainder, so the witness is refused only for size or a bad key. */
  lemma BidLeavesRemainder(c: Crypto, p: SetSpenderParams, spendable: Opening, receiving: Opening)
    requires 0 <= spendable.value && 0 <= receiving.value
    requires p.spendable == Expected(c, spendable, receiving) && MIN_BID <= p.allowance <= DEPOSIT
    ensures BuildSetSpender(c, p).Success? <==>
              && spendable.value + receiving.value < (if receiving.value > 0 then TWO_127 - 1 else TWO_127)
              && Reaches(c, p.rE, p.spenderKey) && Reaches(c, p.rE, p.ownerAuditorKey)
    ensures BuildSetSpender(c, p).Success? ==>
              var w := BuildSetSpender(c, p).value;
              && w.cSpend == Open(c, p.spendable)
              && w.delegation.opening.value == p.allowance
              && 0 <= w.nextSpendable.value == p.spendable.value - p.allowance
  {
  }

  /** A depositor with DEPOSIT merged who is then paid nothing at all. */
  function PaidNothing(me: Account, other: Account, sigma: int, rE: int): seq<Action> {
    [DepositInto(me, me, DEPOSIT), MergeOf(me), Pay(other, me, 0, sigma, rE)]
  }

  /**
   * The wrong family is reachable: a transfer of nothing blinds the receiving side, and the recovered
   * openings then lead to a proof about a commitment the chain does not hold.
   */
  lemma PaymentOfNothingBlocksBid(c: Crypto, keys: Keys, me: Account, other: Account, sigma: int, rE: int)
    requires Lawful(c) && Cancels(c) && me != other
    requires Shared(c, keys, rE, me).Success?
    requires c.commit(0, c.deriveTxBlind(Shared(c, keys, rE, me).value, sigma)) != IDENTITY
    ensures
      var (t, es) := History(c, keys, PaidNothing(me, other, sigma, rE));
      var b := Replay(c, Holder(me, keys(me)), START, es);
      && b.Success?
      && Open(c, b.value.spendable) == Of(t, me).cSpend && Open(c, b.value.pending) == Of(t, me).cReceive
      && DepositAmount(b.value.spendable, b.value.pending) == 0
      && Of(Prepared(c, keys, t, me, 0), me).cSpend != Open(c, Expected(c, b.value.spendable, b.value.pending))
  {
    var actions := PaidNothing(me, other, sigma, rE);
    PaidNothingState(c, keys, me, other, sigma, rE);
    ReplayTracksToken(c, keys, actions, me);
    var (t, es) := History(c, keys, actions);
    var b := Replay(c, Holder(me, keys(me)), START, es).value;
    DepositChoiceExactly(c, keys, t, me, b.spendable, b.pending);
  }

  lemma PaidNothingState(c: Crypto, keys: Keys, me: Account, other: Account, sigma: int, rE: int)
    requires Homomorphic(c) && ZeroIsNeutral(c) && me != other && Shared(c, keys, rE, me).Success?
    ensures
      var h := Of(History(c, keys, PaidNothing(me, other, sigma, rE)).0, me);
      && h.spendable == DEPOSIT && h.receiving == 0
      && h.cReceive == c.commit(0, c.deriveTxBlind(Shared(c, keys, rE, me).value, sigma))
  {
    var merged := [] + [DepositInto(me, me, DEPOSIT)] + [MergeOf(me)];
    DepositMergedState(c, keys, me, other);
    PayOfNothing(c, keys, History(c, keys, merged).0, me, other, sigma, rE);
    HistorySnoc(c, keys, merged, Pay(other, me, 0, sigma, rE));
    assert PaidNothing(me, other, sigma, rE) == merged + [Pay(other, me, 0, sigma, rE)];
  }

  lemma DepositedState(c: Crypto, keys: Keys, me: Account)
    ensures History(c, keys, [] + [DepositInto(me, me, DEPOSIT)]).0
         == map[me := Receive(c, EMPTY, DEPOSIT, c.commit(DEPOSIT, 0))]
  {
    HistorySnoc(c, keys, [], DepositInto(me, me, DEPOSIT));
  }

  lemma DepositMergedState(c: Crypto, keys: Keys, me: Account, other: Account)
    requires me != other
    ensures
      var t := History(c, keys, [] + [DepositInto(me, me, DEPOSIT)] + [MergeOf(me)]).0;
      && Of(t, me).spendable == DEPOSIT && Of(t, me).receiving == 0
      && Of(t, me).cReceive == IDENTITY && Of(t, other) == EMPTY
  {
    DepositedState(c, keys, me);
    var t := map[me := Receive(c, EMPTY, DEPOSIT, c.commit(DEPOSIT, 0))];
    HistorySnoc(c, keys, [] + [DepositInto(me, me, DEPOSIT)], MergeOf(me));
    assert Act(c, keys, t, MergeOf(me)).Some?;
  }

  lemma PayOfNothing(c: Crypto, keys: Keys, t: Token, me: Account, other: Account, sigma: int, rE: int)
    requires Homomorphic(c) && ZeroIsNeutral(c) && me != other && Shared(c, keys, rE, me).Success?
    requires Of(t, other) == EMPTY && Of(t, me).cReceive == IDENTITY
    ensures
      var acted := Act(c, keys, t, Pay(other, me, 0, sigma, rE));
      var payment := c.commit(0, c.deriveTxBlind(Shared(c, keys, rE, me).value, sigma));
      acted.Some? && Of(acted.value.0, me) == Of(t, me).(cReceive := payment)
  {
    IdentityIsNeutral(c, 0, c.deriveTxBlind(Shared(c, keys, rE, me).value, sigma));
  }
}
