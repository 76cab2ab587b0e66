// The confidential token as its clients rely on it: two commitments an
// account, changed by the rules that the replay mirrors, beside the plain
// amounts that only the account's owner knows.
module ConfidentialToken {
  import opened Prelude
  import opened Field
  import opened Curve
  import opened DelegationBuilders
  import opened Disclosure
  import opened BalanceReplay

  datatype Holding = Holding(spendable: int, receiving: int, cSpend: Point, cReceive: Point)

  const EMPTY: Holding := Holding(0, 0, IDENTITY, IDENTITY)

  type Token = map<Account, Holding>

  function Of(t: Token, account: Account): Holding {
    if account in t then t[account] else EMPTY
  }

  datatype Action =
    | DepositInto(from: Account, to: Account, amount: nat)
    | MergeOf(account: Account)
    | WithdrawFrom(from: Account, to: Account, amount: nat, sigma: int)
    | Pay(from: Account, to: Account, amount: nat, sigma: int, rE: int)
    | Delegate(owner: Account, spender: Account, amount: nat, sigma: int)
    | TakeBack(owner: Account, spender: Account, amount: nat, sigma: int)
    | PayFromDelegation(spender: Account, from: Account, to: Account, amount: nat, salt: int, rE: int)

  /** Every account's viewing key. */
  type Keys = Account -> int

  /** An owner's proof replaces the spendable commitment and publishes the new value under its own key. */
  function Overwrite(c: Crypto, vk: int, h: Holding, after: int, sigma: int): Holding {
    h.(spendable := after, cSpend := c.commit(after, c.deriveSpendR(vk, sigma)))
  }

  function Receive(c: Crypto, h: Holding, amount: int, payment: Point): Holding {
    h.(receiving := h.receiving + amount, cReceive := c.add(h.cReceive, payment))
  }

  function Shared(c: Crypto, keys: Keys, rE: int, to: Account): Result<Felt, EcdhError> {
    SharedSecret(c, rE, c.scalarMul(keys(to), c.base))
  }

  /** None where a proof cannot be made: out of range, overdrawn, or a degenerate key exchange. */
  function Act(c: Crypto, keys: Keys, t: Token, a: Action): Option<(Token, TokenEvent)> {
    match a
    case DepositInto(from, to, amount) =>
      Some((t[to := Receive(c, Of(t, to), amount, c.commit(amount, 0))], Deposit(from, to, amount)))
    case MergeOf(account) =>
      var h := Of(t, account);
      Some((t[account := Holding(h.spendable + h.receiving, 0, c.add(h.cSpend, h.cReceive), IDENTITY)], Merge(account)))
    case WithdrawFrom(from, to, amount, sigma) =>
      var after := Of(t, from).spendable - amount;
      if !FitsAmount(after) then None
      else Some((t[from := Overwrite(c, keys(from), Of(t, from), after, sigma)],
                 Withdraw(from, to, EncryptBalance(c, after, keys(from), sigma), sigma)))
    case Pay(from, to, amount, sigma, rE) =>
      var after := Of(t, from).spendable - amount;
      var shared := Shared(c, keys, rE, to);
      if !FitsAmount(after) || !FitsAmount(amount) || shared.Failure? then None
      else
        var paid := t[from := Overwrite(c, keys(from), Of(t, from), after, sigma)];
        Some((paid[to := Receive(c, Of(paid, to), amount, c.commit(amount, c.deriveTxBlind(shared.value, sigma)))],
              Transfer(from, to, EncryptBalance(c, after, keys(from), sigma), sigma, c.scalarMul(rE, c.base),
                       EncryptAmount(c, amount, shared.value, sigma))))
    case Delegate(owner, spender, amount, sigma) =>
      var after := Of(t, owner).spendable - amount;
      if !FitsAmount(after) then None
      else Some((t[owner := Overwrite(c, keys(owner), Of(t, owner), after, sigma)],
                 SetSpender(owner, spender, EncryptBalance(c, after, keys(owner), sigma), sigma)))
    case TakeBack(owner, spender, amount, sigma) =>
      var after := Of(t, owner).spendable + amount;
      if !FitsAmount(after) then None
      else Some((t[owner := Overwrite(c, keys(owner), Of(t, owner), after, sigma)],
                 RevokeSpender(owner, spender, EncryptBalance(c, after, keys(owner), sigma), sigma)))
    case PayFromDelegation(spender, from, to, amount, salt, rE) =>
      var shared := Shared(c, keys, rE, to);
      if !FitsAmount(amount) || shared.Failure? then None
      else Some((t[to := Receive(c, Of(t, to), amount, c.commit(amount, c.deriveTxBlind(shared.value, salt)))],
                 SpenderTransfer(spender, from, to, c.scalarMul(rE, c.base), salt,
                                 EncryptAmount(c, amount, shared.value, salt))))
  }

  /** The token after a history of actions on a fresh token, and the events it emitted. */
  function History(c: Crypto, keys: Keys, actions: seq<Action>): (Token, seq<TokenEvent>)
    decreases |actions|
  {
    if |actions| == 0 then (map[], [])
    else
      var (t, es) := History(c, keys, actions[..|actions| - 1]);
      match Act(c, keys, t, actions[|actions| - 1])
      case None => (t, es)
      case Some((t', e)) => (t', es + [e])
  }

  lemma HistorySnoc(c: Crypto, keys: Keys, actions: seq<Action>, a: Action)
    ensures
      var (t, es) := History(c, keys, actions);
      var acted := Act(c, keys, t, a);
      History(c, keys, actions + [a]) == if acted.Some? then (acted.value.0, es + [acted.value.1]) else (t, es)
  {
  }

  ghost predicate Lawful(c: Crypto) {
    Commutes(c) && Homomorphic(c) && ZeroIsNeutral(c)
  }

  /** The replayed balance holds the true amounts and opens the stored commitments. */
  predicate Tracks(c: Crypto, h: Holding, b: Balance) {
    && b.spendable.value == h.spendable && Open(c, b.spendable) == h.cSpend
    && b.pending.value == h.receiving && Open(c, b.pending) == h.cReceive
  }

  /** The checkpoint an owner publishes decrypts to the opening it committed to. */
  lemma CheckpointOpens(c: Crypto, vk: int, h: Holding, after: int, sigma: int)
    requires FitsAmount(after)
    ensures
      var o := OpenSpendable(c, vk, EncryptBalance(c, after, vk, sigma), sigma);
      o.value == after && Open(c, o) == Overwrite(c, vk, h, after, sigma).cSpend
  {
    UnmaskMask(after, c.poseidon(EncryptedBalance, vk, sigma));
  }

  /** The payment a sender encrypts decrypts, for its recipient, to the value and blinding that were committed to. */
  lemma PaymentDecrypts(c: Crypto, keys: Keys, to: Account, amount: nat, sigma: int, rE: int)
    requires Commutes(c) && FitsAmount(amount) && Shared(c, keys, rE, to).Success?
    ensures
      var shared := Shared(c, keys, rE, to).value;
      DecryptIncoming(c, keys(to), c.scalarMul(rE, c.base), sigma, EncryptAmount(c, amount, shared, sigma))
        == Success(Opening(amount, c.deriveTxBlind(shared, sigma)))
  {
    SharedSecretsAgree(c, keys(to), rE);
    UnmaskMask(amount, c.poseidon(TxAmount, Shared(c, keys, rE, to).value, sigma));
  }

  /** Crediting it keeps what is pending open. */
  lemma PaymentOpens(
    c: Crypto, keys: Keys, h: Holding, pending: Opening, to: Account, amount: nat, sigma: int, rE: int)
    requires Commutes(c) && Homomorphic(c) && FitsAmount(amount) && Shared(c, keys, rE, to).Success?
    requires pending.value == h.receiving && Open(c, pending) == h.cReceive
    ensures
      var shared := Shared(c, keys, rE, to).value;
      var paid := Receive(c, h, amount, c.commit(amount, c.deriveTxBlind(shared, sigma)));
      var vTilde := EncryptAmount(c, amount, shared, sigma);
      var credited := Credited(c, keys(to), pending, c.scalarMul(rE, c.base), sigma, vTilde);
      credited.Success? && credited.value.value == paid.receiving && Open(c, credited.value) == paid.cReceive
  {
    PaymentDecrypts(c, keys, to, amount, sigma, rE);
    var blind := c.deriveTxBlind(Shared(c, keys, rE, to).value, sigma);
    SumOpens(c, pending.value, pending.randomness, amount, blind);
  }

  /** One action and one step of the replay keep the replayed balance true. */
  ghost predicate StepTracked(c: Crypto, keys: Keys, t: Token, a: Action, me: Account, b: Balance)
    requires Act(c, keys, t, a).Some?
  {
    var (t', e) := Act(c, keys, t, a).value;
    var b' := ReplayStep(c, Holder(me, keys(me)), b, e);
    b'.Success? && Tracks(c, Of(t', me), b'.value)
  }

  lemma DepositTracked(c: Crypto, keys: Keys, t: Token, a: Action, me: Account, b: Balance)
    requires Lawful(c) && Tracks(c, Of(t, me), b) && a.DepositInto?
    ensures StepTracked(c, keys, t, a, me, b)
  {
    DepositOpens(c, b.pending.value, b.pending.randomness, a.amount);
  }

  lemma MergeTracked(c: Crypto, keys: Keys, t: Token, a: Action, me: Account, b: Balance)
    requires Lawful(c) && Tracks(c, Of(t, me), b) && a.MergeOf?
    ensures StepTracked(c, keys, t, a, me, b)
  {
    SumOpens(c, b.spendable.value, b.spendable.randomness, b.pending.value, b.pending.randomness);
  }

  lemma DelegatedPaymentTracked(c: Crypto, keys: Keys, t: Token, a: Action, me: Account, b: Balance)
    requires Lawful(c) && Tracks(c, Of(t, me), b) && a.PayFromDelegation? && Act(c, keys, t, a).Some?
    ensures StepTracked(c, keys, t, a, me, b)
  {
    if a.to == me { PaymentOpens(c, keys, Of(t, me), b.pending, me, a.amount, a.salt, a.rE); }
  }

  lemma OverwriteTracked(c: Crypto, keys: Keys, t: Token, a: Action, me: Account, b: Balance)
    requires Tracks(c, Of(t, me), b) && Act(c, keys, t, a).Some?
    requires a.WithdrawFrom? || a.Delegate? || a.TakeBack?
    ensures StepTracked(c, keys, t, a, me, b)
  {
    var owner := if a.WithdrawFrom? then a.from else a.owner;
    var before := Of(t, owner).spendable;
    var after := if a.TakeBack? then before + a.amount else before - a.amount;
    CheckpointOpens(c, keys(owner), Of(t, owner), after, a.sigma);
  }

  /** A transfer overwrites the sender and credits the recipient, who may be the same account. */
  lemma PayTracked(c: Crypto, keys: Keys, t: Token, a: Action, me: Account, b: Balance)
    requires Lawful(c) && Tracks(c, Of(t, me), b) && a.Pay? && Act(c, keys, t, a).Some?
    ensures StepTracked(c, keys, t, a, me, b)
  {
    var after := Of(t, a.from).spendable - a.amount;
    var sent := Overwrite(c, keys(a.from), Of(t, a.from), after, a.sigma);
    var paid := t[a.from := sent];
    CheckpointOpens(c, keys(a.from), Of(t, a.from), after, a.sigma);
    assert Of(paid, me).cReceive == Of(t, me).cReceive && Of(paid, me).receiving == Of(t, me).receiving;
    if a.to == me { PaymentOpens(c, keys, Of(paid, me), b.pending, me, a.amount, a.sigma, a.rE); }
  }

  lemma ActionTracked(c: Crypto, keys: Keys, t: Token, a: Action, me: Account, b: Balance)
    requires Lawful(c) && Tracks(c, Of(t, me), b) && Act(c, keys, t, a).Some?
    ensures StepTracked(c, keys, t, a, me, b)
  {
    match a
    case DepositInto(_, _, _) => DepositTracked(c, keys, t, a, me, b);
    case MergeOf(_) => MergeTracked(c, keys, t, a, me, b);
    case Pay(_, _, _, _, _) => PayTracked(c, keys, t, a, me, b);
    case PayFromDelegation(_, _, _, _, _, _) => DelegatedPaymentTracked(c, keys, t, a, me, b);
    case _ => OverwriteTracked(c, keys, t, a, me, b);
  }

  /** For every history, the replay ends at the true amounts and opens both stored commitments. */
  lemma {:induction false} ReplayTracksToken(c: Crypto, keys: Keys, actions: seq<Action>, me: Account)
    requires Lawful(c)
    ensures
      var (t, es) := History(c, keys, actions);
      var b := Replay(c, Holder(me, keys(me)), START, es);
      b.Success? && Tracks(c, Of(t, me), b.value)
    decreases |actions|
  {
    if |actions| > 0 {
      var front, last := actions[..|actions| - 1], actions[|actions| - 1];
      ReplayTracksToken(c, keys, front, me);
      var (t, es) := History(c, keys, front);
      var holder := Holder(me, keys(me));
      var b := Replay(c, holder, START, es).value;
      var acted := Act(c, keys, t, last);
      if acted.Some? {
        ActionTracked(c, keys, t, last, me, b);
        var e := acted.value.1;
        ReplayConcat(c, holder, START, es, [e]);
        var b' := ReplayStep(c, holder, b, e).value;
        assert Replay(c, holder, b, [e]) == Replay(c, holder, b', []);
      }
    }
  }

  /** Recovery always succeeds, with the true amounts, on the full history. */
  lemma RecoverySucceeds(c: Crypto, keys: Keys, actions: seq<Action>, me: Account)
    requires Lawful(c)
    ensures
      var (t, es) := History(c, keys, actions);
      var (h, holder) := (Of(t, me), Holder(me, keys(me)));
      var spendable := RecoveredSpendable(c, holder, es, h.cSpend);
      var receiving := RecoveredReceiving(c, holder, es, h.cReceive);
      && spendable.Success? && spendable.value.Some? && spendable.value.value.value == h.spendable
      && receiving.Success? && receiving.value.Some? && receiving.value.value.value == h.receiving
  {
    ReplayTracksToken(c, keys, actions, me);
    var (t, es) := History(c, keys, actions);
    ReceivingIsPending(c, Holder(me, keys(me)), START, es);
  }

  /** Both openings differ in value and open one commitment, or the first value is the second's. */
  predicate SameValueOrCollision(c: Crypto, got: Opening, actual: Opening) {
    got.value == actual.value || Collision(c.commit, got.value, got.randomness, actual.value, actual.randomness)
  }

  /**
   * The final check: whatever event list and key the recovery is given, partial, foreign or forged, an
   * amount it returns is the true one, or it and the full history's replay are a collision in hand.
   */
  lemma WrongHistoryIsHarmless(
    c: Crypto, keys: Keys, actions: seq<Action>, me: Account, holder: Holder, given: seq<TokenEvent>)
    requires Lawful(c)
    ensures
      var (t, es) := History(c, keys, actions);
      var h, actual := Of(t, me), Replay(c, Holder(me, keys(me)), START, es);
      var spendable := RecoveredSpendable(c, holder, given, h.cSpend);
      var receiving := RecoveredReceiving(c, holder, given, h.cReceive);
      && actual.Success? && actual.value.spendable.value == h.spendable && actual.value.pending.value == h.receiving
      && (spendable.Success? && spendable.value.Some? ==>
            SameValueOrCollision(c, spendable.value.value, actual.value.spendable))
      && (receiving.Success? && receiving.value.Some? ==>
            SameValueOrCollision(c, receiving.value.value, actual.value.pending))
  {
    ReplayTracksToken(c, keys, actions, me);
  }

  /** What the witness builders publish is a checkpoint in this sense: replay recovers the builder's next opening. */
  lemma BuiltCheckpointsReplay(c: Crypto, delegate: SetSpenderParams, revoke: RevokeParams)
    ensures BuildSetSpender(c, delegate).Success? ==>
              var w := BuildSetSpender(c, delegate).value;
              OpenSpendable(c, delegate.owner.vk, w.payload.bTilde, w.payload.sigma) == w.nextSpendable
    ensures BuildRevoke(c, revoke).Success? ==>
              var w := BuildRevoke(c, revoke).value;
              OpenSpendable(c, revoke.owner.vk, w.payload.bTilde, w.payload.sigma) == w.nextSpendable
  {
    if BuildSetSpender(c, delegate).Success? {
      UnmaskMask(delegate.spendable.value - delegate.allowance,
                 c.poseidon(EncryptedBalance, delegate.owner.vk, delegate.sigma));
    }
    if BuildRevoke(c, revoke).Success? {
      UnmaskMask(revoke.spendable.value + revoke.allowance.value,
                 c.poseidon(EncryptedBalance, revoke.owner.vk, revoke.sigma));
    }
  }
}
