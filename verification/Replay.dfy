// apps/web/src/sandbox.ts: recovering the two openings of a confidential
// account by replaying the token's events.
module BalanceReplay {
  import opened Prelude
  import opened Field
  import opened Curve
  import opened DelegationBuilders
  import opened Disclosure

  type Account = string

  datatype TokenEvent =
    | Deposit(from: Account, to: Account, amount: int)
    | Merge(account: Account)
    | Withdraw(from: Account, to: Account, bTilde: Felt, sigma: int)
    | Transfer(from: Account, to: Account, bTilde: Felt, sigma: int, rE: Point, vTilde: Felt)
    | SetSpender(owner: Account, spender: Account, bTilde: Felt, sigma: int)
    | RevokeSpender(owner: Account, spender: Account, bTilde: Felt, sigma: int)
    | SpenderTransfer(spender: Account, from: Account, to: Account, rE: Point, sigmaA: int, vTilde: Felt)
    | Unrelated(topics: seq<Account>)

  datatype Balance = Balance(spendable: Opening, pending: Opening)

  const ZERO: Opening := Opening(0, 0)
  const START: Balance := Balance(ZERO, ZERO)

  /** Whose balance is replayed, and the key its incoming and own ciphertexts open under. */
  datatype Holder = Holder(account: Account, vk: int)

  function OpenSpendable(c: Crypto, vk: int, bTilde: Felt, sigma: int): Opening {
    Opening(Sub(bTilde, c.poseidon(EncryptedBalance, vk, sigma)), c.deriveSpendR(vk, sigma))
  }

  /** An incoming transfer is credited, skipped when it does not decrypt, and aborts on the identity. */
  function Credited(c: Crypto, vk: int, pending: Opening, rE: Point, sigma: int, vTilde: Felt)
    : Result<Opening, IncomingError>
  {
    match DecryptIncoming(c, vk, rE, sigma, vTilde)
    case Success(o) => Success(Opening(pending.value + o.value, c.addRandomness(pending.randomness, o.randomness)))
    case Failure(DoesNotDecrypt) => Success(pending)
    case Failure(Identity) => Failure(Identity)
  }

  function ReplayStep(c: Crypto, me: Holder, b: Balance, e: TokenEvent): Result<Balance, IncomingError> {
    match e
    case Merge(account) =>
      if account != me.account then Success(b)
      else Success(Balance(Opening(b.spendable.value + b.pending.value,
                                   c.addRandomness(b.spendable.randomness, b.pending.randomness)), ZERO))
    case Deposit(_, to, amount) =>
      if to != me.account then Success(b) else Success(b.(pending := b.pending.(value := b.pending.value + amount)))
    case Withdraw(from, _, bTilde, sigma) =>
      if from != me.account then Success(b) else Success(b.(spendable := OpenSpendable(c, me.vk, bTilde, sigma)))
    case SetSpender(owner, _, bTilde, sigma) =>
      if owner != me.account then Success(b) else Success(b.(spendable := OpenSpendable(c, me.vk, bTilde, sigma)))
    case RevokeSpender(owner, _, bTilde, sigma) =>
      if owner != me.account then Success(b) else Success(b.(spendable := OpenSpendable(c, me.vk, bTilde, sigma)))
    case Transfer(from, to, bTilde, sigma, rE, vTilde) =>
      var spendable := if from == me.account then OpenSpendable(c, me.vk, bTilde, sigma) else b.spendable;
      if to != me.account then Success(b.(spendable := spendable))
      else
        var pending :- Credited(c, me.vk, b.pending, rE, sigma, vTilde);
        Success(Balance(spendable, pending))
    case SpenderTransfer(_, _, to, rE, sigmaA, vTilde) =>
      if to != me.account then Success(b)
      else
        var pending :- Credited(c, me.vk, b.pending, rE, sigmaA, vTilde);
        Success(b.(pending := pending))
    case Unrelated(_) => Success(b)
  }

  function Replay(c: Crypto, me: Holder, b: Balance, es: seq<TokenEvent>): Result<Balance, IncomingError>
    decreases |es|
  {
    if |es| == 0 then Success(b)
    else
      var b' :- ReplayStep(c, me, b, es[0]);
      Replay(c, me, b', es[1..])
  }

  /** The receiving side of the replay on its own, as the second recovery loop keeps it. */
  function ReceivingStep(c: Crypto, me: Holder, pending: Opening, e: TokenEvent): Result<Opening, IncomingError> {
    match e
    case Merge(account) => Success(if account == me.account then ZERO else pending)
    case Deposit(_, to, amount) =>
      Success(if to == me.account then pending.(value := pending.value + amount) else pending)
    case Transfer(_, to, _, sigma, rE, vTilde) =>
      if to == me.account then Credited(c, me.vk, pending, rE, sigma, vTilde) else Success(pending)
    case SpenderTransfer(_, _, to, rE, sigmaA, vTilde) =>
      if to == me.account then Credited(c, me.vk, pending, rE, sigmaA, vTilde) else Success(pending)
    case _ => Success(pending)
  }

  function ReceivingReplay(c: Crypto, me: Holder, pending: Opening, es: seq<TokenEvent>): Result<Opening, IncomingError>
    decreases |es|
  {
    if |es| == 0 then Success(pending)
    else
      var pending' :- ReceivingStep(c, me, pending, es[0]);
      ReceivingReplay(c, me, pending', es[1..])
  }

  /** An opening is returned only when it opens what the chain stores. */
  function Checked(c: Crypto, expected: Point, o: Opening): Option<Opening> {
    if Open(c, o) == expected then Some(o) else None
  }

  function RecoveredSpendable(c: Crypto, me: Holder, es: seq<TokenEvent>, expected: Point)
    : Result<Option<Opening>, IncomingError>
  {
    var b :- Replay(c, me, START, es);
    Success(Checked(c, expected, b.spendable))
  }

  function RecoveredReceiving(c: Crypto, me: Holder, es: seq<TokenEvent>, expected: Point)
    : Result<Option<Opening>, IncomingError>
  {
    var pending :- ReceivingReplay(c, me, ZERO, es);
    Success(Checked(c, expected, pending))
  }

  method RecoverSpendableOpening(c: Crypto, me: Holder, es: seq<TokenEvent>, expected: Point)
    returns (r: Result<Option<Opening>, IncomingError>)
    ensures r == RecoveredSpendable(c, me, es, expected)
  {
    var spendableValue, spendableRandomness := 0, 0;
    var pendingValue, pendingRandomness := 0, 0;
    for i := 0 to |es|
      invariant Replay(c, me, START, es)
             == Replay(c, me, Balance(Opening(spendableValue, spendableRandomness),
                                      Opening(pendingValue, pendingRandomness)), es[i..])
    {
      var e := es[i];
      assert es[i..][1..] == es[i + 1..];
      if e.Merge? && e.account == me.account {
        spendableValue := spendableValue + pendingValue;
        spendableRandomness := c.addRandomness(spendableRandomness, pendingRandomness);
        pendingValue, pendingRandomness := 0, 0;
        continue;
      }
      if e.Deposit? && e.to == me.account {
        pendingValue := pendingValue + e.amount;
        continue;
      }
      if e.Withdraw? && e.from == me.account {
        var opening := OpenSpendable(c, me.vk, e.bTilde, e.sigma);
        spendableValue, spendableRandomness := opening.value, opening.randomness;
        continue;
      }
      if (e.SetSpender? || e.RevokeSpender?) && e.owner == me.account {
        var opening := OpenSpendable(c, me.vk, e.bTilde, e.sigma);
        spendableValue, spendableRandomness := opening.value, opening.randomness;
        continue;
      }
      if e.Transfer? && e.from == me.account {
        var opening := OpenSpendable(c, me.vk, e.bTilde, e.sigma);
        spendableValue, spendableRandomness := opening.value, opening.randomness;
      }
      var isTransfer := e.Transfer? && e.to == me.account;
      var isSpenderTransfer := e.SpenderTransfer? && e.to == me.account;
      if !isTransfer && !isSpenderTransfer { continue; }
      var opening := DecryptIncoming(c, me.vk, e.rE, if e.Transfer? then e.sigma else e.sigmaA, e.vTilde);
      if opening.Failure? {
        if opening.error == Identity { return Failure(Identity); }
        continue;
      }
      pendingValue := pendingValue + opening.value.value;
      pendingRandomness := c.addRandomness(pendingRandomness, opening.value.randomness);
    }
    var recovered := Opening(spendableValue, spendableRandomness);
    r := Success(if Open(c, recovered) == expected then Some(recovered) else None);
  }

  method RecoverReceivingOpening(c: Crypto, me: Holder, es: seq<TokenEvent>, expected: Point)
    returns (r: Result<Option<Opening>, IncomingError>)
    ensures r == RecoveredReceiving(c, me, es, expected)
  {
    var value, randomness := 0, 0;
    for i := 0 to |es|
      invariant ReceivingReplay(c, me, ZERO, es) == ReceivingReplay(c, me, Opening(value, randomness), es[i..])
    {
      var e := es[i];
      assert es[i..][1..] == es[i + 1..];
      if e.Merge? && e.account == me.account {
        value, randomness := 0, 0;
        continue;
      }
      if e.Deposit? && e.to == me.account {
        value := value + e.amount;
        continue;
      }
      var isTransfer := e.Transfer? && e.to == me.account;
      var isSpenderTransfer := e.SpenderTransfer? && e.to == me.account;
      if !isTransfer && !isSpenderTransfer { continue; }
      var opening := DecryptIncoming(c, me.vk, e.rE, if e.Transfer? then e.sigma else e.sigmaA, e.vTilde);
      if opening.Failure? {
        if opening.error == Identity { return Failure(Identity); }
        continue;
      }
      value := value + opening.value.value;
      randomness := c.addRandomness(randomness, opening.value.randomness);
    }
    r := Success(Checked(c, expected, Opening(value, randomness)));
  }

  lemma {:induction false} ReplayConcat(c: Crypto, me: Holder, b: Balance, xs: seq<TokenEvent>, ys: seq<TokenEvent>)
    ensures
      var half := Replay(c, me, b, xs);
      Replay(c, me, b, xs + ys) == if half.Success? then Replay(c, me, half.value, ys) else half
    decreases |xs|
  {
    if |xs| == 0 {
      assert xs + ys == ys;
    } else {
      assert (xs + ys)[1..] == xs[1..] + ys;
      var b' := ReplayStep(c, me, b, xs[0]);
      if b'.Success? { ReplayConcat(c, me, b'.value, xs[1..], ys); }
    }
  }

  /** The receiving loop is the pending half of the spendable loop, failures included. */
  lemma {:induction false} ReceivingIsPending(c: Crypto, me: Holder, b: Balance, es: seq<TokenEvent>)
    ensures
      var whole := Replay(c, me, b, es);
      ReceivingReplay(c, me, b.pending, es)
        == if whole.Success? then Success(whole.value.pending) else Failure(whole.error)
    decreases |es|
  {
    if |es| > 0 {
      var b' := ReplayStep(c, me, b, es[0]);
      if b'.Success? { ReceivingIsPending(c, me, b'.value, es[1..]); }
    }
  }

  /** The point and the salt under which a payment to an account is encrypted. */
  function Incoming(e: TokenEvent, account: Account): Option<(Point, int, Felt)> {
    match e
    case Transfer(_, to, _, sigma, rE, vTilde) => if to == account then Some((rE, sigma, vTilde)) else None
    case SpenderTransfer(_, _, to, rE, sigmaA, vTilde) => if to == account then Some((rE, sigmaA, vTilde)) else None
    case _ => None
  }

  /** A payment whose key exchange with the account gives the identity. */
  predicate Degenerate(c: Crypto, me: Holder, e: TokenEvent) {
    var paid := Incoming(e, me.account);
    paid.Some? && c.scalarMul(me.vk, paid.value.0) == IDENTITY
  }

  /** What a payment adds: the value its ciphertext hides under the shared secret, or nothing when it is too large. */
  lemma PaymentsAdd(c: Crypto, me: Holder, b: Balance, e: TokenEvent)
    requires Incoming(e, me.account).Some? && !Degenerate(c, me, e)
    ensures
      var (rE, sigma, vTilde) := Incoming(e, me.account).value;
      var shared := c.scalarMul(me.vk, rE);
      var secret := c.poseidon(Ecdh, shared.x, shared.y);
      var value := Sub(vTilde, c.poseidon(TxAmount, secret, sigma));
      var after := ReplayStep(c, me, b, e);
      && after.Success?
      && after.value.pending ==
           if FitsAmount(value) then
             Opening(b.pending.value + value, c.addRandomness(b.pending.randomness, c.deriveTxBlind(secret, sigma)))
           else b.pending
  {
  }

  /** A replay aborts exactly on a degenerate payment to the account; a ciphertext that does not decrypt is skipped. */
  lemma {:induction false} ReplayAbortsExactly(c: Crypto, me: Holder, b: Balance, es: seq<TokenEvent>)
    ensures Replay(c, me, b, es).Failure? <==> exists i :: 0 <= i < |es| && Degenerate(c, me, es[i])
    decreases |es|
  {
    if |es| > 0 {
      var b' := ReplayStep(c, me, b, es[0]);
      StepAbortsExactly(c, me, b, es[0]);
      if b'.Success? {
        ReplayAbortsExactly(c, me, b'.value, es[1..]);
        assert forall i | 0 < i < |es| :: es[i] == es[1..][i - 1];
      }
    }
  }

  lemma StepAbortsExactly(c: Crypto, me: Holder, b: Balance, e: TokenEvent)
    ensures ReplayStep(c, me, b, e).Failure? <==> Degenerate(c, me, e)
  {
  }

  /** The events of the account that replace its spendable opening. */
  predicate Overwrites(me: Holder, e: TokenEvent) {
    || (e.Withdraw? && e.from == me.account)
    || (e.Transfer? && e.from == me.account)
    || ((e.SetSpender? || e.RevokeSpender?) && e.owner == me.account)
  }

  /** Two balances that agree on what is pending go on to agree, and fully so after an overwrite. */
  lemma StepForgets(c: Crypto, me: Holder, a: Balance, b: Balance, e: TokenEvent)
    ensures
      var (a', b') := (ReplayStep(c, me, a, e), ReplayStep(c, me, b, e));
      && (a'.Failure? <==> b'.Failure?)
      && (a'.Failure? ==> a' == b')
      && (a'.Success? && (a.pending == b.pending || e == Merge(me.account)) ==> a'.value.pending == b'.value.pending)
      && (a'.Success? && a.pending == b.pending && (a == b || Overwrites(me, e)) ==> a' == b')
  {
  }

  lemma {:induction false} OverwriteForgets(c: Crypto, me: Holder, a: Balance, b: Balance, es: seq<TokenEvent>, j: nat)
    requires a.pending == b.pending && j < |es| && Overwrites(me, es[j])
    ensures Replay(c, me, a, es) == Replay(c, me, b, es)
    decreases |es|
  {
    StepForgets(c, me, a, b, es[0]);
    var (a', b') := (ReplayStep(c, me, a, es[0]), ReplayStep(c, me, b, es[0]));
    if j > 0 && a'.Success? {
      OverwriteForgets(c, me, a'.value, b'.value, es[1..], j - 1);
    }
  }

  lemma {:induction false} MergeThenOverwriteForgets(
    c: Crypto, me: Holder, a: Balance, b: Balance, es: seq<TokenEvent>, i: nat, j: nat)
    requires i < j < |es| && es[i] == Merge(me.account) && Overwrites(me, es[j])
    ensures Replay(c, me, a, es) == Replay(c, me, b, es)
    decreases |es|
  {
    StepForgets(c, me, a, b, es[0]);
    var (a', b') := (ReplayStep(c, me, a, es[0]), ReplayStep(c, me, b, es[0]));
    if a'.Success? {
      if i > 0 {
        MergeThenOverwriteForgets(c, me, a'.value, b'.value, es[1..], i - 1, j - 1);
      } else {
        OverwriteForgets(c, me, a'.value, b'.value, es[1..], j - 1);
      }
    }
  }

  /**
   * A truncated history is enough: replaying from event k on gives what replaying everything gives,
   * as soon as what is kept holds a merge of the account and, later, an overwrite.
   */
  lemma SuffixReplayIsFullReplay(c: Crypto, me: Holder, es: seq<TokenEvent>, k: nat, i: nat, j: nat)
    requires k <= i < j < |es| && es[i] == Merge(me.account) && Overwrites(me, es[j])
    requires Replay(c, me, START, es[..k]).Success?
    ensures Replay(c, me, START, es[k..]) == Replay(c, me, START, es)
  {
    assert es == es[..k] + es[k..];
    ReplayConcat(c, me, START, es[..k], es[k..]);
    MergeThenOverwriteForgets(c, me, START, Replay(c, me, START, es[..k]).value, es[k..], i - k, j - k);
  }

  /** The accounts an event names in its topics after the event name. */
  function Topics(e: TokenEvent): seq<Account> {
    match e
    case Deposit(from, to, _) => [from, to]
    case Merge(account) => [account]
    case Withdraw(from, to, _, _) => [from, to]
    case Transfer(from, to, _, _, _, _) => [from, to]
    case SetSpender(owner, spender, _, _) => [owner, spender]
    case RevokeSpender(owner, spender, _, _) => [owner, spender]
    case SpenderTransfer(spender, from, to, _, _, _) => [spender, from, to]
    case Unrelated(topics) => topics
  }

  /** Whoever an event of the token is from, to, by or for. */
  predicate IsParty(e: TokenEvent, account: Account) {
    || ((e.Deposit? || e.Withdraw? || e.Transfer? || e.SpenderTransfer?) && (e.from == account || e.to == account))
    || (e.Merge? && e.account == account)
    || ((e.SetSpender? || e.RevokeSpender?) && (e.owner == account || e.spender == account))
    || (e.SpenderTransfer? && e.spender == account)
  }

  /** The topics of a token event name its parties and nobody else. */
  lemma TopicsNameParties(e: TokenEvent, account: Account)
    requires !e.Unrelated?
    ensures account in Topics(e) <==> IsParty(e, account)
  {
  }

  /** An event that does not name the account leaves its replay alone. */
  lemma UnnamedIsSkipped(c: Crypto, me: Holder, b: Balance, e: TokenEvent)
    requires me.account !in Topics(e)
    ensures ReplayStep(c, me, b, e) == Success(b)
  {
  }
}
