// packages/sdk/src/max-bid.ts: the prover-side witness builder, and the winner
// fold of apps/indexer/src/sandbox.ts.
module MaxBidWitness {
  import opened Prelude
  import opened Field
  import opened Curve
  import opened MaxBidCircuit

  // As in the source, any integer may be given; the circuit reads it as a field element.
  datatype BidOpening = BidOpening(value: int, randomness: int, commitment: Option<Point>)
  datatype PaymentOpening = PaymentOpening(value: int, randomness: int, commitment: Point)
  datatype Params = Params(roundDomain: int, bids: seq<BidOpening>, reserve: int, payment: PaymentOpening)

  datatype Error =
    | ZeroDomain
    | BidCount
    | NegativeReserve
    | BidOutOfRange
    | BelowReserve
    | PaymentValueMismatch
    | PaymentCommitmentMismatch
    | BidCommitmentMismatch

  datatype Witness = Witness(
    inputs: PublicInputs,
    secrets: PrivateInputs,
    winnerIndex: nat,
    winnerValue: int,
    commitments: Three<Point>,
    active: Three<bool>)

  /** No entry exceeds entry k, and every earlier one is strictly below it. */
  predicate IsLeftmostMax(values: seq<int>, k: int) {
    && 0 <= k < |values|
    && (forall i | 0 <= i < |values| :: values[i] <= values[k])
    && (forall i | 0 <= i < k :: values[i] < values[k])
  }

  function Values(bids: seq<BidOpening>): (vs: seq<int>)
    ensures |vs| == |bids| && forall i | 0 <= i < |bids| :: vs[i] == bids[i].value
  {
    seq(|bids|, i requires 0 <= i < |bids| => bids[i].value)
  }

  /** What the caller has to bring, once the winning index is known. */
  predicate Provable(commit: Commitment, p: Params, k: int) {
    && p.roundDomain != 0
    && 1 <= |p.bids| <= 3
    && 0 <= p.reserve
    && (forall i | 0 <= i < |p.bids| :: FitsAmount(p.bids[i].value))
    && IsLeftmostMax(Values(p.bids), k)
    && p.reserve <= p.bids[k].value
    && p.payment.value == p.bids[k].value
    && commit(p.payment.value, p.payment.randomness) == p.payment.commitment
    && CommitmentsMatch(commit, p.bids)
  }

  /** What each error tells the caller about the parameters. */
  ghost predicate Refused(commit: Commitment, p: Params, e: Error) {
    match e
    case ZeroDomain => p.roundDomain == 0
    case BidCount => |p.bids| == 0 || |p.bids| > 3
    case NegativeReserve => p.reserve < 0
    case BidOutOfRange => exists i | 0 <= i < |p.bids| :: !FitsAmount(p.bids[i].value)
    case BelowReserve => forall i | 0 <= i < |p.bids| :: p.bids[i].value < p.reserve
    case PaymentValueMismatch => exists k :: IsLeftmostMax(Values(p.bids), k) && p.payment.value != p.bids[k].value
    case PaymentCommitmentMismatch => commit(p.payment.value, p.payment.randomness) != p.payment.commitment
    case BidCommitmentMismatch => !CommitmentsMatch(commit, p.bids)
  }

  predicate CommitmentsMatch(commit: Commitment, bids: seq<BidOpening>) {
    forall i | 0 <= i < |bids| ::
      bids[i].commitment.Some? ==> commit(bids[i].value, bids[i].randomness) == bids[i].commitment.value
  }

  /** No refusal is spurious: parameters that were refused have no winner to prove. */
  lemma RefusedIsUnprovable(commit: Commitment, p: Params, e: Error)
    requires Refused(commit, p, e)
    ensures forall k :: !Provable(commit, p, k)
  {
  }

  /** The checks of buildMaxBidWitness, in its order; the answer is the winning index. */
  method Check(commit: Commitment, p: Params) returns (r: Result<nat, Error>)
    ensures r.Success? ==> Provable(commit, p, r.value)
    ensures r.Failure? ==> Refused(commit, p, r.error)
  {
    var count := |p.bids|;
    :- Need(p.roundDomain != 0, ZeroDomain);
    :- Need(1 <= count <= 3, BidCount);
    :- Need(p.reserve >= 0, NegativeReserve);
    var winnerIndex :- FindWinner(p.bids);
    assert forall i | 0 <= i < |p.bids| :: Values(p.bids)[i] <= Values(p.bids)[winnerIndex];
    var winnerValue := p.bids[winnerIndex].value;
    :- Need(winnerValue >= p.reserve, BelowReserve);
    :- Need(p.payment.value == winnerValue, PaymentValueMismatch);
    :- Need(commit(p.payment.value, p.payment.randomness) == p.payment.commitment, PaymentCommitmentMismatch);
    :- Need(CommitmentsMatch(commit, p.bids), BidCommitmentMismatch);
    r := Success(winnerIndex);
  }

  // The three slots, padded.

  function SlotCommitment(commit: Commitment, p: Params, i: nat): Point {
    if i < |p.bids| then commit(p.bids[i].value, p.bids[i].randomness) else IDENTITY
  }

  function SlotValue(p: Params, i: nat): Felt {
    if i < |p.bids| then FieldIn(p.bids[i].value) else 0
  }

  function SlotBlind(p: Params, i: nat): Felt {
    if i < |p.bids| then FieldIn(p.bids[i].randomness) else 0
  }

  function BuiltInputs(commit: Commitment, p: Params, k: int): PublicInputs {
    PublicInputs(
      FieldIn(p.roundDomain),
      Three(SlotCommitment(commit, p, 0), SlotCommitment(commit, p, 1), SlotCommitment(commit, p, 2)),
      Three(|p.bids| > 0, |p.bids| > 1, |p.bids| > 2),
      FieldIn(p.reserve), FieldIn(k), p.payment.commitment)
  }

  function BuiltSecrets(p: Params): PrivateInputs {
    PrivateInputs(
      Three(SlotValue(p, 0), SlotValue(p, 1), SlotValue(p, 2)),
      Three(SlotBlind(p, 0), SlotBlind(p, 1), SlotBlind(p, 2)),
      FieldIn(p.payment.randomness))
  }

  /** Commitments that came with the bids are the statement's own, slot by slot, and absent slots are the identity. */
  lemma BuiltCommitmentsAreGiven(commit: Commitment, p: Params, k: int, i: nat)
    requires Provable(commit, p, k) && i < 3
    ensures
      var slot := BuiltInputs(commit, p, k).commitments.At(i);
      if i >= |p.bids| then slot == IDENTITY
      else p.bids[i].commitment.Some? ==> slot == p.bids[i].commitment.value
  {
  }

  /** Reading a randomness as a field element keeps what it opens. */
  predicate OpensAlike(commit: Commitment, value: int, randomness: int) {
    commit(value, FieldIn(randomness)) == commit(value, randomness)
  }

  /** What the builder does not check: that its integers survive being read as field elements. */
  predicate SurvivesField(commit: Commitment, p: Params) {
    && FieldIn(p.roundDomain) != 0
    && (forall i | 0 <= i < |p.bids| :: OpensAlike(commit, p.bids[i].value, p.bids[i].randomness))
    && OpensAlike(commit, p.payment.value, p.payment.randomness)
  }

  lemma CanonicalSurvives(commit: Commitment, p: Params)
    requires 0 < p.roundDomain < MODULUS && 0 <= p.payment.randomness < MODULUS
    requires forall i | 0 <= i < |p.bids| :: 0 <= p.bids[i].randomness < MODULUS
    ensures SurvivesField(commit, p)
  {
  }

  /**
   * buildMaxBidWitness. It succeeds exactly on provable parameters and names the
   * leftmost maximum. What it builds, padding included, satisfies the circuit
   * exactly when the parameters survive being read as field elements, as all
   * canonical ones do.
   */
  method Build(commit: Commitment, p: Params) returns (r: Result<Witness, Error>)
    ensures r.Success? <==> exists k :: Provable(commit, p, k)
    ensures r.Failure? ==> Refused(commit, p, r.error)
    ensures r.Success? ==>
      && Provable(commit, p, r.value.winnerIndex)
      && r.value.winnerValue == p.bids[r.value.winnerIndex].value
      && r.value.inputs == BuiltInputs(commit, p, r.value.winnerIndex)
      && r.value.inputs.winnerIndex == r.value.winnerIndex && r.value.inputs.reserve == p.reserve
      && r.value.commitments == r.value.inputs.commitments && r.value.active == r.value.inputs.active
      && (Accepts(commit, r.value.inputs, r.value.secrets) <==> SurvivesField(commit, p))
  {
    var checked := Check(commit, p);
    if checked.Failure? {
      RefusedIsUnprovable(commit, p, checked.error);
      return Failure(checked.error);
    }
    var winnerIndex := checked.value;
    var winnerValue := p.bids[winnerIndex].value;

    var commitments: seq<Point> :=
      seq(|p.bids|, i requires 0 <= i < |p.bids| => commit(p.bids[i].value, p.bids[i].randomness));
    var values: seq<Felt> := seq(|p.bids|, i requires 0 <= i < |p.bids| => FieldIn(p.bids[i].value));
    var blindings: seq<Felt> := seq(|p.bids|, i requires 0 <= i < |p.bids| => FieldIn(p.bids[i].randomness));
    commitments := Pad(commitments, IDENTITY);
    values := Pad(values, 0);
    blindings := Pad(blindings, 0);

    var active := Three(|p.bids| > 0, |p.bids| > 1, |p.bids| > 2);
    var fixedCommitments := Three(commitments[0], commitments[1], commitments[2]);
    var inputs := PublicInputs(FieldIn(p.roundDomain), fixedCommitments, active,
                               FieldIn(p.reserve), FieldIn(winnerIndex), p.payment.commitment);
    var secrets := PrivateInputs(Three(values[0], values[1], values[2]),
                                 Three(blindings[0], blindings[1], blindings[2]), FieldIn(p.payment.randomness));
    FieldInFits(p.reserve);
    FieldInFits(winnerIndex);
    BuiltWitnessAccepted(commit, p, winnerIndex);
    r := Success(Witness(inputs, secrets, winnerIndex, winnerValue, fixedCommitments, active));
  }

  /** The loop over the bids: range checks, and the index of the largest bid so far. */
  method FindWinner(bids: seq<BidOpening>) returns (r: Result<nat, Error>)
    requires |bids| > 0
    ensures r.Success? <==> forall i | 0 <= i < |bids| :: FitsAmount(bids[i].value)
    ensures r.Success? ==> IsLeftmostMax(Values(bids), r.value)
    ensures r.Failure? ==> r.error == BidOutOfRange
  {
    var winnerIndex := 0;
    for i := 0 to |bids|
      invariant forall j | 0 <= j < i :: FitsAmount(bids[j].value)
      invariant i == 0 ==> winnerIndex == 0
      invariant i > 0 ==> IsLeftmostMax(Values(bids)[..i], winnerIndex)
    {
      if !FitsAmount(bids[i].value) { return Failure(BidOutOfRange); }
      if i > 0 && bids[i].value > bids[winnerIndex].value { winnerIndex := i; }
    }
    assert Values(bids)[..|bids|] == Values(bids);
    r := Success(winnerIndex);
  }

  /** The padding loops: `while (xs.length < 3) xs.push(filler)`. */
  method Pad<T>(xs: seq<T>, filler: T) returns (r: seq<T>)
    requires |xs| <= 3
    ensures |r| == 3
    ensures forall i | 0 <= i < 3 :: r[i] == if i < |xs| then xs[i] else filler
  {
    r := xs;
    while |r| < 3
      invariant |xs| <= |r| <= 3
      invariant forall i | 0 <= i < |r| :: r[i] == if i < |xs| then xs[i] else filler
    {
      r := r + [filler];
    }
  }

  /** Slot i of a statement and its witness carries bid i, under some blinding, or padding. */
  predicate Carries(commit: Commitment, p: Params, pub: PublicInputs, w: PrivateInputs, i: nat)
    requires i < 3
  {
    && pub.active.At(i) == (i < |p.bids|)
    && pub.commitments.At(i) == SlotCommitment(commit, p, i)
    && (if i < |p.bids| then w.bids.At(i) == p.bids[i].value else w.bids.At(i) == 0 && w.blinds.At(i) == 0)
  }

  predicate Reopens(commit: Commitment, p: Params, w: PrivateInputs, i: nat)
    requires i < 3
  {
    i < |p.bids| ==> commit(p.bids[i].value, w.blinds.At(i)) == commit(p.bids[i].value, p.bids[i].randomness)
  }

  lemma SlotAccepted(commit: Commitment, p: Params, pub: PublicInputs, w: PrivateInputs, i: nat)
    requires i < 3 && Carries(commit, p, pub, w, i)
    requires i < |p.bids| ==> FitsAmount(p.bids[i].value)
    ensures SlotOpened(commit, pub, w, i) <==> Reopens(commit, p, w, i)
  {
  }

  lemma CarriedMaximum(commit: Commitment, p: Params, pub: PublicInputs, w: PrivateInputs, k: int)
    requires Provable(commit, p, k)
    requires forall i | 0 <= i < 3 :: Carries(commit, p, pub, w, i)
    ensures LeftmostMaximum(pub.active, w.bids, k)
  {
    var values := Values(p.bids);
    forall i | 0 <= i < 3 && pub.active.At(i)
      ensures w.bids.At(i) <= w.bids.At(k) && (i < k ==> w.bids.At(i) < w.bids.At(k))
    {
      assert Carries(commit, p, pub, w, i) && Carries(commit, p, pub, w, k);
      assert values[i] <= values[k] && (i < k ==> values[i] < values[k]);
    }
    assert Carries(commit, p, pub, w, k);
  }

  /** A statement about provable parameters is accepted exactly when its blindings open what was committed to. */
  lemma CarriedAccepted(commit: Commitment, p: Params, pub: PublicInputs, w: PrivateInputs, k: int)
    requires Provable(commit, p, k)
    requires Carries(commit, p, pub, w, 0) && Carries(commit, p, pub, w, 1) && Carries(commit, p, pub, w, 2)
    requires pub.reserve == p.reserve && pub.winnerIndex == k && pub.payment == p.payment.commitment
    ensures Accepts(commit, pub, w) <==>
              && pub.domain != 0
              && Reopens(commit, p, w, 0) && Reopens(commit, p, w, 1) && Reopens(commit, p, w, 2)
              && commit(p.payment.value, w.paymentBlind) == p.payment.commitment
  {
    CircuitIsIntegerStatement(commit, pub, w);
    forall i | 0 <= i < 3
      ensures Carries(commit, p, pub, w, i) && (SlotOpened(commit, pub, w, i) <==> Reopens(commit, p, w, i))
    {
      SlotAccepted(commit, p, pub, w, i);
    }
    CarriedMaximum(commit, p, pub, w, k);
    AcceptedSlots(commit, pub, w);
  }

  lemma AcceptedSlots(commit: Commitment, pub: PublicInputs, w: PrivateInputs)
    ensures (forall i | 0 <= i < 3 :: SlotOpened(commit, pub, w, i)) <==>
            SlotOpened(commit, pub, w, 0) && SlotOpened(commit, pub, w, 1) && SlotOpened(commit, pub, w, 2)
  {
  }

  lemma BuiltCarries(commit: Commitment, p: Params, k: int, i: nat)
    requires i < 3 && (i < |p.bids| ==> FitsAmount(p.bids[i].value))
    ensures Carries(commit, p, BuiltInputs(commit, p, k), BuiltSecrets(p), i)
    ensures Reopens(commit, p, BuiltSecrets(p), i)
            <==> (i < |p.bids| ==> OpensAlike(commit, p.bids[i].value, p.bids[i].randomness))
  {
    if i < |p.bids| { FieldInFits(p.bids[i].value); }
  }

  /** The built witness against the circuit. */
  lemma BuiltWitnessAccepted(commit: Commitment, p: Params, k: int)
    requires Provable(commit, p, k)
    ensures Accepts(commit, BuiltInputs(commit, p, k), BuiltSecrets(p)) <==> SurvivesField(commit, p)
  {
    var pub, w := BuiltInputs(commit, p, k), BuiltSecrets(p);
    FieldInFits(p.reserve);
    FieldInFits(k);
    BuiltCarries(commit, p, k, 0);
    BuiltCarries(commit, p, k, 1);
    BuiltCarries(commit, p, k, 2);
    CarriedAccepted(commit, p, pub, w, k);
  }

  /** openings.reduce((winner, opening, index) => opening.value > openings[winner].value ? index : winner, 0) */
  function FoldWinner(values: seq<int>): (k: nat)
    requires |values| > 0
    ensures k < |values|
  {
    if |values| == 1 then 0
    else
      var last := |values| - 1;
      var winner := FoldWinner(values[..last]);
      if values[last] > values[winner] then last else winner
  }

  /** The coordinator's fold finds the leftmost maximum of any number of openings. */
  lemma {:induction false} FoldFindsLeftmostMax(values: seq<int>)
    requires |values| > 0
    ensures IsLeftmostMax(values, FoldWinner(values))
  {
    if |values| > 1 {
      FoldFindsLeftmostMax(values[..|values| - 1]);
    }
  }

  /** The index sent to the chain is the index the witness builder proves. */
  lemma FoldAgreesWithBuilder(commit: Commitment, p: Params, k: nat)
    requires Provable(commit, p, k)
    ensures FoldWinner(Values(p.bids)) == k
  {
  }
}
