// circuits/max_bid/src/main.nr: the fixed-capacity maximum-bid statement over
// the field, and the integer statement it stands for.
module MaxBidCircuit {
  import opened Field
  import opened Curve

  datatype Three<T> = Three(a: T, b: T, c: T) {
    function At(i: nat): T
      requires i < 3
    {
      if i == 0 then a else if i == 1 then b else c
    }
  }

  datatype PublicInputs = PublicInputs(
    domain: Felt,
    commitments: Three<Point>,
    active: Three<bool>,
    reserve: Felt,
    winnerIndex: Felt,
    payment: Point)

  datatype PrivateInputs = PrivateInputs(
    bids: Three<Felt>,
    blinds: Three<Felt>,
    paymentBlind: Felt)

  predicate ConstrainSlot(commit: Commitment, active: bool, bid: Felt, blind: Felt, c: Point) {
    if active then
      && FitsAmount(bid)
      && commit(bid, blind).x == c.x
      && commit(bid, blind).y == c.y
    else
      bid == 0 && blind == 0 && c.x == 0 && c.y == 0
  }

  predicate ConstrainNotGreater(active: bool, winningBid: Felt, candidate: Felt) {
    active ==> FitsAmount(Sub(winningBid, candidate))
  }

  /** main: the conjunction of every assertion of the circuit, in its order. */
  predicate Accepts(commit: Commitment, pub: PublicInputs, w: PrivateInputs) {
    var winner0 := pub.winnerIndex == 0;
    var winner1 := pub.winnerIndex == 1;
    var winner2 := pub.winnerIndex == 2;
    var winningBid := if winner0 then w.bids.a else if winner1 then w.bids.b else w.bids.c;
    && pub.domain != 0
    && FitsAmount(pub.reserve)
    && ConstrainSlot(commit, pub.active.a, w.bids.a, w.blinds.a, pub.commitments.a)
    && ConstrainSlot(commit, pub.active.b, w.bids.b, w.blinds.b, pub.commitments.b)
    && ConstrainSlot(commit, pub.active.c, w.bids.c, w.blinds.c, pub.commitments.c)
    && (winner0 || winner1 || winner2)
    && ((winner0 && pub.active.a) || (winner1 && pub.active.b) || (winner2 && pub.active.c))
    && FitsAmount(Sub(winningBid, pub.reserve))
    && ConstrainNotGreater(pub.active.a, winningBid, w.bids.a)
    && ConstrainNotGreater(pub.active.b, winningBid, w.bids.b)
    && ConstrainNotGreater(pub.active.c, winningBid, w.bids.c)
    && (winner1 ==> !pub.active.a || w.bids.a != winningBid)
    && (winner2 ==> !pub.active.a || w.bids.a != winningBid)
    && (winner2 ==> !pub.active.b || w.bids.b != winningBid)
    && commit(winningBid, w.paymentBlind).x == pub.payment.x
    && commit(winningBid, w.paymentBlind).y == pub.payment.y
  }

  /** Slot k is active, no active slot exceeds it, and every earlier active slot is strictly below it. */
  predicate LeftmostMaximum(active: Three<bool>, values: Three<Felt>, k: int) {
    && 0 <= k < 3
    && active.At(k)
    && forall i | 0 <= i < 3 ::
         active.At(i) ==> values.At(i) <= values.At(k) && (i < k ==> values.At(i) < values.At(k))
  }

  /** A slot as its owner means it: an in-range opening of the commitment, or all-zero padding. */
  predicate SlotOpened(commit: Commitment, pub: PublicInputs, w: PrivateInputs, i: nat)
    requires i < 3
  {
    if pub.active.At(i) then
      FitsAmount(w.bids.At(i)) && commit(w.bids.At(i), w.blinds.At(i)) == pub.commitments.At(i)
    else
      w.bids.At(i) == 0 && w.blinds.At(i) == 0 && pub.commitments.At(i) == IDENTITY
  }

  /** The statement in integers. */
  predicate StatementHolds(commit: Commitment, pub: PublicInputs, w: PrivateInputs) {
    && pub.domain != 0
    && FitsAmount(pub.reserve)
    && (forall i | 0 <= i < 3 :: SlotOpened(commit, pub, w, i))
    && LeftmostMaximum(pub.active, w.bids, pub.winnerIndex)
    && pub.reserve <= w.bids.At(pub.winnerIndex)
    && commit(w.bids.At(pub.winnerIndex), w.paymentBlind) == pub.payment
  }

  /** Soundness and completeness at once: wrap-around in the field admits nothing else. */
  lemma CircuitIsIntegerStatement(commit: Commitment, pub: PublicInputs, w: PrivateInputs)
    ensures Accepts(commit, pub, w) <==> StatementHolds(commit, pub, w)
  {
    var k := pub.winnerIndex;
    assert (forall i | 0 <= i < 3 :: SlotOpened(commit, pub, w, i)) <==>
           SlotOpened(commit, pub, w, 0) && SlotOpened(commit, pub, w, 1) && SlotOpened(commit, pub, w, 2);
    if 0 <= k < 3 && pub.active.At(k) && FitsAmount(pub.reserve)
       && forall i | 0 <= i < 3 :: SlotOpened(commit, pub, w, i) {
      var winning := w.bids.At(k);
      DifferenceFitsIffOrdered(winning, pub.reserve);
      forall i | 0 <= i < 3
        ensures ConstrainNotGreater(pub.active.At(i), winning, w.bids.At(i)) <==>
                (pub.active.At(i) ==> w.bids.At(i) <= winning)
      {
        assert SlotOpened(commit, pub, w, i);
        DifferenceFitsIffOrdered(winning, w.bids.At(i));
      }
      assert ConstrainNotGreater(pub.active.At(0), winning, w.bids.At(0)) <==> (pub.active.a ==> w.bids.a <= winning);
      assert ConstrainNotGreater(pub.active.At(1), winning, w.bids.At(1)) <==> (pub.active.b ==> w.bids.b <= winning);
      assert ConstrainNotGreater(pub.active.At(2), winning, w.bids.At(2)) <==> (pub.active.c ==> w.bids.c <= winning);
      assert LeftmostMaximum(pub.active, w.bids, k) <==>
             forall i | 0 <= i < 3 ::
               pub.active.At(i) ==> w.bids.At(i) <= winning && (i < k ==> w.bids.At(i) < winning);
    }
  }

  /** Two leftmost maxima of one list are the same slot. */
  lemma LeftmostMaximumUnique(active: Three<bool>, values: Three<Felt>, j: int, k: int)
    requires LeftmostMaximum(active, values, j) && LeftmostMaximum(active, values, k)
    ensures j == k
  {
  }

  /**
   * Nobody can prove two winners for one book: two accepted statements over the
   * same commitments and flags name the same winner, unless the two witnesses
   * exhibit a collision of the commitment in an active slot.
   */
  lemma WinnerIsUnique(
    commit: Commitment, pub: PublicInputs, w: PrivateInputs, pub': PublicInputs, w': PrivateInputs)
    requires Accepts(commit, pub, w) && Accepts(commit, pub', w')
    requires pub.commitments == pub'.commitments && pub.active == pub'.active
    ensures
      || (pub.winnerIndex == pub'.winnerIndex && w.bids == w'.bids)
      || exists i | 0 <= i < 3 ::
           pub.active.At(i) && Collision(commit, w.bids.At(i), w.blinds.At(i), w'.bids.At(i), w'.blinds.At(i))
  {
    CircuitIsIntegerStatement(commit, pub, w);
    CircuitIsIntegerStatement(commit, pub', w');
    forall i | 0 <= i < 3
      ensures w.bids.At(i) == w'.bids.At(i) ||
              (pub.active.At(i) && Collision(commit, w.bids.At(i), w.blinds.At(i), w'.bids.At(i), w'.blinds.At(i)))
    {
      assert SlotOpened(commit, pub, w, i) && SlotOpened(commit, pub', w', i);
    }
    if forall i | 0 <= i < 3 :: w.bids.At(i) == w'.bids.At(i) {
      assert w.bids.At(0) == w'.bids.At(0) && w.bids.At(1) == w'.bids.At(1) && w.bids.At(2) == w'.bids.At(2);
      LeftmostMaximumUnique(pub.active, w.bids, pub.winnerIndex, pub'.winnerIndex);
    }
  }
}
