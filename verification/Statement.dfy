// contracts/market/src/lib.rs, build_max_bid_public_inputs: the 448-byte
// statement, and its reading as the circuit's public parameters.
module Statement {
  import opened Prelude
  import opened Field
  import opened Curve
  import opened MaxBidCircuit
  import opened Encoding

  const MAX_BIDDERS: nat := 3

  /** What the market encodes: the truncated domain hash, one commitment per frozen bidder, and the public terms. */
  datatype Terms = Terms(domain: Word, slots: seq<PointBytes>, reserve: I128, winnerIndex: U32, payment: PointBytes)

  predicate Encodable(t: Terms) {
    |t.slots| <= MAX_BIDDERS
  }

  /** domain_hash.to_array() with its first byte cleared. */
  function ClearTop(hash: Word): Word {
    hash[0 := 0]
  }

  function SlotBytes(slots: seq<PointBytes>, n: nat): Bytes {
    if n == 0 then []
    else SlotBytes(slots, n - 1) + (if n - 1 < |slots| then slots[n - 1] else Zeros(64))
  }

  function FlagBytes(count: nat, n: nat): Bytes {
    if n == 0 then []
    else FlagBytes(count, n - 1) + U32Field(if n - 1 < count then 1 else 0)
  }

  function StatementBytes(t: Terms): Bytes
    requires Encodable(t)
  {
    t.domain + SlotBytes(t.slots, MAX_BIDDERS) + FlagBytes(|t.slots|, MAX_BIDDERS)
    + AmountField(t.reserve) + U32Field(t.winnerIndex) + t.payment
  }

  /** The i-th 32-byte word. */
  function WordAt(s: Bytes, i: nat): Word
    requires 32 * (i + 1) <= |s|
  {
    s[32 * i..32 * (i + 1)]
  }

  function WordsOf(s: Bytes): (ws: seq<Word>)
    requires |s| == 448
    ensures |ws| == 14
  {
    seq(14, i requires 0 <= i < 14 => WordAt(s, i))
  }

  function FlagOf(w: Word): Option<bool> {
    if FieldWord(w) == 0 then Some(false) else if FieldWord(w) == 1 then Some(true) else None
  }

  function PointFrom(x: Word, y: Word): Point {
    Point(FieldWord(x), FieldWord(y))
  }

  /** The fourteen public parameters of the circuit, in its order: None unless every flag is a boolean. */
  function DecodeWords(ws: seq<Word>): Option<PublicInputs>
    requires |ws| == 14
  {
    if FlagOf(ws[7]).None? || FlagOf(ws[8]).None? || FlagOf(ws[9]).None? then None
    else Some(PublicInputs(
      FieldWord(ws[0]),
      Three(PointFrom(ws[1], ws[2]), PointFrom(ws[3], ws[4]), PointFrom(ws[5], ws[6])),
      Three(FlagOf(ws[7]).value, FlagOf(ws[8]).value, FlagOf(ws[9]).value),
      FieldWord(ws[10]),
      FieldWord(ws[11]),
      PointFrom(ws[12], ws[13])))
  }

  function Decode(s: Bytes): Option<PublicInputs> {
    if |s| != 448 then None else DecodeWords(WordsOf(s))
  }

  function Flatten(words: seq<Word>): (s: Bytes)
    ensures |s| == 32 * |words|
  {
    if |words| == 0 then [] else Flatten(words[..|words| - 1]) + words[|words| - 1]
  }

  lemma {:induction false} FlattenWord(words: seq<Word>, i: nat)
    requires i < |words|
    ensures WordAt(Flatten(words), i) == words[i]
  {
    var last := |words| - 1;
    if i < last {
      FlattenWord(words[..last], i);
      assert WordAt(Flatten(words), i) == WordAt(Flatten(words[..last]), i);
    }
  }

  lemma FlattenAppend(words: seq<Word>, w: Word)
    ensures Flatten(words + [w]) == Flatten(words) + w
  {
  }

  lemma WordsOfFlatten(ws: seq<Word>)
    requires |ws| == 14
    ensures WordsOf(Flatten(ws)) == ws
  {
    forall i | 0 <= i < 14
      ensures WordsOf(Flatten(ws))[i] == ws[i]
    {
      FlattenWord(ws, i);
    }
  }

  /** The order of the circuit's parameters. */
  function Layout(
    domain: Word, p0: PointBytes, p1: PointBytes, p2: PointBytes, f0: Word, f1: Word, f2: Word,
    reserve: Word, winner: Word, payment: PointBytes): (ws: seq<Word>)
    ensures |ws| == 14
  {
    [domain, p0[..32], p0[32..], p1[..32], p1[32..], p2[..32], p2[32..], f0, f1, f2,
     reserve, winner, payment[..32], payment[32..]]
  }

  lemma FlattenAppendPoint(words: seq<Word>, p: PointBytes)
    ensures Flatten(words + [p[..32], p[32..]]) == Flatten(words) + p
  {
    FlattenAppend(words, p[..32]);
    FlattenAppend(words + [p[..32]], p[32..]);
    assert words + [p[..32], p[32..]] == words + [p[..32]] + [p[32..]];
    assert p == p[..32] + p[32..];
    assert Flatten(words) + p == Flatten(words) + p[..32] + p[32..];
  }

  lemma FlattenHead(domain: Word, p0: PointBytes, p1: PointBytes, p2: PointBytes)
    ensures Flatten([domain, p0[..32], p0[32..], p1[..32], p1[32..], p2[..32], p2[32..]]) == domain + p0 + p1 + p2
  {
    var a := [domain];
    FlattenAppend([], domain);
    assert [] + [domain] == a && [] + domain == domain;
    var b := a + [p0[..32], p0[32..]];
    FlattenAppendPoint(a, p0);
    var c := b + [p1[..32], p1[32..]];
    FlattenAppendPoint(b, p1);
    FlattenAppendPoint(c, p2);
    assert c + [p2[..32], p2[32..]] == [domain, p0[..32], p0[32..], p1[..32], p1[32..], p2[..32], p2[32..]];
  }

  lemma FlattenTail(head: seq<Word>, f0: Word, f1: Word, f2: Word, reserve: Word, winner: Word, payment: PointBytes)
    ensures Flatten(head + [f0, f1, f2, reserve, winner, payment[..32], payment[32..]])
         == Flatten(head) + f0 + f1 + f2 + reserve + winner + payment
  {
    var a := head + [f0];
    FlattenAppend(head, f0);
    var b := a + [f1];
    FlattenAppend(a, f1);
    var c := b + [f2];
    FlattenAppend(b, f2);
    var d := c + [reserve];
    FlattenAppend(c, reserve);
    var e := d + [winner];
    FlattenAppend(d, winner);
    FlattenAppendPoint(e, payment);
    assert e + [payment[..32], payment[32..]] == head + [f0, f1, f2, reserve, winner, payment[..32], payment[32..]];
  }

  function Slot(t: Terms, i: nat): PointBytes {
    if i < |t.slots| then t.slots[i] else Zeros(64)
  }

  function Flag(t: Terms, i: nat): Word {
    U32Field(if i < |t.slots| then 1 else 0)
  }

  function Words(t: Terms): (ws: seq<Word>)
    requires Encodable(t)
    ensures |ws| == 14
  {
    Layout(t.domain, Slot(t, 0), Slot(t, 1), Slot(t, 2), Flag(t, 0), Flag(t, 1), Flag(t, 2),
           AmountField(t.reserve), U32Field(t.winnerIndex), t.payment)
  }

  lemma ThreeSlots(t: Terms)
    ensures SlotBytes(t.slots, 3) == Slot(t, 0) + Slot(t, 1) + Slot(t, 2)
    ensures FlagBytes(|t.slots|, 3) == Flag(t, 0) + Flag(t, 1) + Flag(t, 2)
  {
    assert SlotBytes(t.slots, 1) == Slot(t, 0);
    assert SlotBytes(t.slots, 2) == Slot(t, 0) + Slot(t, 1);
    assert FlagBytes(|t.slots|, 1) == Flag(t, 0);
    assert FlagBytes(|t.slots|, 2) == Flag(t, 0) + Flag(t, 1);
  }

  /** Concatenating the market's appends gives the words one after the other. */
  lemma LayoutIsConcatenation(
    domain: Word, p0: PointBytes, p1: PointBytes, p2: PointBytes, f0: Word, f1: Word, f2: Word,
    reserve: Word, winner: Word, payment: PointBytes)
    ensures domain + (p0 + p1 + p2) + (f0 + f1 + f2) + reserve + winner + payment
         == Flatten(Layout(domain, p0, p1, p2, f0, f1, f2, reserve, winner, payment))
  {
    var head := [domain, p0[..32], p0[32..], p1[..32], p1[32..], p2[..32], p2[32..]];
    FlattenHead(domain, p0, p1, p2);
    FlattenTail(head, f0, f1, f2, reserve, winner, payment);
    assert domain + (p0 + p1 + p2) == domain + p0 + p1 + p2;
    var h := domain + p0 + p1 + p2;
    assert h + (f0 + f1 + f2) == h + f0 + f1 + f2;
    assert head + [f0, f1, f2, reserve, winner, payment[..32], payment[32..]]
        == Layout(domain, p0, p1, p2, f0, f1, f2, reserve, winner, payment);
  }

  lemma StatementIsItsWords(t: Terms)
    requires Encodable(t)
    ensures StatementBytes(t) == Flatten(Words(t))
    ensures |StatementBytes(t)| == 448 && WordsOf(StatementBytes(t)) == Words(t)
  {
    ThreeSlots(t);
    LayoutIsConcatenation(t.domain, Slot(t, 0), Slot(t, 1), Slot(t, 2), Flag(t, 0), Flag(t, 1), Flag(t, 2),
                          AmountField(t.reserve), U32Field(t.winnerIndex), t.payment);
    WordsOfFlatten(Words(t));
  }

  lemma FlagDecodes(t: Terms, i: nat)
    ensures FlagOf(Flag(t, i)) == Some(i < |t.slots|)
  {
    var bit := if i < |t.slots| then 1 else 0;
    U32FieldIsWord(bit);
    assert bit % MODULUS == bit;
  }

  lemma SlotDecodes(t: Terms, i: nat)
    ensures PointFrom(Slot(t, i)[..32], Slot(t, i)[32..]) == CommitmentOf(t, i)
  {
    ZeroPoint();
  }

  lemma NumbersDecode(t: Terms)
    requires Encodable(t) && t.reserve >= 0
    ensures FieldWord(AmountField(t.reserve)) == t.reserve
    ensures FieldWord(U32Field(t.winnerIndex)) == t.winnerIndex
  {
    AmountFieldIsWordIffNonNegative(t.reserve);
    CanonicalWord(AmountField(t.reserve), t.reserve);
    U32FieldIsWord(t.winnerIndex);
    CanonicalWord(U32Field(t.winnerIndex), t.winnerIndex);
  }

  lemma CanonicalWord(w: Word, v: Felt)
    requires FromBE(w) == v
    ensures FieldWord(w) == v
  {
  }

  function CommitmentOf(t: Terms, i: nat): Point {
    if i < |t.slots| then PointOf(t.slots[i]) else IDENTITY
  }

  /** The public inputs the circuit is meant to be given for a closed round. */
  function Inputs(t: Terms): PublicInputs
    requires Encodable(t) && t.reserve >= 0 && FromBE(t.domain) < MODULUS
  {
    PublicInputs(
      FromBE(t.domain),
      Three(CommitmentOf(t, 0), CommitmentOf(t, 1), CommitmentOf(t, 2)),
      Three(0 < |t.slots|, 1 < |t.slots|, 2 < |t.slots|),
      t.reserve,
      t.winnerIndex,
      PointOf(t.payment))
  }

  /**
   * Word by word, the string is the circuit's parameter list: the truncated
   * domain is canonical, absent bidders are the identity with a false flag.
   */
  lemma StatementDecodes(t: Terms)
    requires Encodable(t) && t.reserve >= 0 && t.domain[0] == 0
    ensures |StatementBytes(t)| == 448
    ensures FromBE(t.domain) < MODULUS
    ensures Decode(StatementBytes(t)) == Some(Inputs(t))
  {
    StatementIsItsWords(t);
    DomainIsCanonical(t.domain);
    WordsDecode(t);
  }

  lemma WordsDecode(t: Terms)
    requires Encodable(t) && t.reserve >= 0 && FromBE(t.domain) < MODULUS
    ensures DecodeWords(Words(t)) == Some(Inputs(t))
  {
    CanonicalWord(t.domain, FromBE(t.domain));
    NumbersDecode(t);
    FlagDecodes(t, 0);
    FlagDecodes(t, 1);
    FlagDecodes(t, 2);
    SlotDecodes(t, 0);
    SlotDecodes(t, 1);
    SlotDecodes(t, 2);
    LayoutDecodes(t);
    PaymentDecodes(t);
  }

  lemma PaymentDecodes(t: Terms)
    ensures PointFrom(t.payment[..32], t.payment[32..]) == PointOf(t.payment)
  {
  }

  lemma LayoutDecodes(t: Terms)
    requires Encodable(t)
    requires FlagOf(Flag(t, 0)).Some? && FlagOf(Flag(t, 1)).Some? && FlagOf(Flag(t, 2)).Some?
    ensures DecodeWords(Words(t)) == Some(PublicInputs(
      FieldWord(t.domain),
      Three(PointFrom(Slot(t, 0)[..32], Slot(t, 0)[32..]),
            PointFrom(Slot(t, 1)[..32], Slot(t, 1)[32..]),
            PointFrom(Slot(t, 2)[..32], Slot(t, 2)[32..])),
      Three(FlagOf(Flag(t, 0)).value, FlagOf(Flag(t, 1)).value, FlagOf(Flag(t, 2)).value),
      FieldWord(AmountField(t.reserve)),
      FieldWord(U32Field(t.winnerIndex)),
      PointFrom(t.payment[..32], t.payment[32..])))
  {
  }

  lemma ZeroPoint()
    ensures PointOf(Zeros(64)) == IDENTITY
  {
    assert Zeros(64)[..32] == Zeros(32) && Zeros(64)[32..] == Zeros(32);
    ZeroWord(32);
    WordRoundTrip(0);
  }

  lemma DomainIsCanonical(domain: Word)
    requires domain[0] == 0
    ensures FromBE(domain) < Pow256(31) < MODULUS
  {
    WordSizes();
    assert domain == Zeros(1) + domain[1..];
    LeadingZeros(1, domain[1..]);
    DecodeFits(domain[1..]);
  }

  /** Nothing is lost: equal strings come from equal domains, commitments, counts, reserves, indices and payments. */
  lemma StatementIsInjective(t: Terms, u: Terms)
    requires Encodable(t) && Encodable(u)
    requires StatementBytes(t) == StatementBytes(u)
    ensures t == u
  {
    StatementIsItsWords(t);
    StatementIsItsWords(u);
    LayoutInjective(t, u);
    FlagsCount(t, u);
    SlotsAgree(t, u);
    U32FieldIsWord(t.winnerIndex);
    U32FieldIsWord(u.winnerIndex);
    AmountFieldIsWordIffNonNegative(t.reserve);
    AmountFieldIsWordIffNonNegative(u.reserve);
  }

  lemma SlotsAgree(t: Terms, u: Terms)
    requires Encodable(t) && Encodable(u) && |t.slots| == |u.slots|
    requires Slot(t, 0) == Slot(u, 0) && Slot(t, 1) == Slot(u, 1) && Slot(t, 2) == Slot(u, 2)
    ensures t.slots == u.slots
  {
    assert forall i | 0 <= i < |t.slots| :: t.slots[i] == Slot(t, i) && u.slots[i] == Slot(u, i);
  }

  /** The flags tell how many slots are in use. */
  lemma FlagsCount(t: Terms, u: Terms)
    requires Encodable(t) && Encodable(u)
    requires Flag(t, 0) == Flag(u, 0) && Flag(t, 1) == Flag(u, 1) && Flag(t, 2) == Flag(u, 2)
    ensures |t.slots| == |u.slots|
  {
    FlagDecodes(t, 0);
    FlagDecodes(t, 1);
    FlagDecodes(t, 2);
    FlagDecodes(u, 0);
    FlagDecodes(u, 1);
    FlagDecodes(u, 2);
  }

  lemma LayoutInjective(t: Terms, u: Terms)
    requires Encodable(t) && Encodable(u) && Words(t) == Words(u)
    ensures t.domain == u.domain && t.payment == u.payment
    ensures Slot(t, 0) == Slot(u, 0) && Slot(t, 1) == Slot(u, 1) && Slot(t, 2) == Slot(u, 2)
    ensures Flag(t, 0) == Flag(u, 0) && Flag(t, 1) == Flag(u, 1) && Flag(t, 2) == Flag(u, 2)
    ensures AmountField(t.reserve) == AmountField(u.reserve)
    ensures U32Field(t.winnerIndex) == U32Field(u.winnerIndex)
  {
  }

  // The prover's own bytes.

  function FlagWord(flag: bool): Word {
    ToBE(if flag then 1 else 0, 32)
  }

  function InputWords(pub: PublicInputs): (ws: seq<Word>)
    ensures |ws| == 14
  {
    Layout(ToBE(pub.domain, 32),
           EncodePoint(pub.commitments.At(0)), EncodePoint(pub.commitments.At(1)), EncodePoint(pub.commitments.At(2)),
           FlagWord(pub.active.At(0)), FlagWord(pub.active.At(1)), FlagWord(pub.active.At(2)),
           ToBE(pub.reserve, 32), ToBE(pub.winnerIndex, 32), EncodePoint(pub.payment))
  }

  /** The public inputs a prover returns, each padded to 32 bytes, one after the other. */
  function ProverBytes(pub: PublicInputs): Bytes {
    Flatten(InputWords(pub))
  }

  /** Both coordinate words are below the field's modulus. */
  predicate CanonicalPoint(b: PointBytes) {
    FromBE(b[..32]) < MODULUS && FromBE(b[32..]) < MODULUS
  }

  /** Encoding is canonical: a smaller value in the same number of bytes is another string. */
  lemma Reencodes(b: Bytes, value: nat)
    requires value <= FromBE(b)
    ensures ToBE(value, |b|) == b <==> value == FromBE(b)
  {
    EncodeDecode(b);
    DecodeEncode(value, |b|);
  }

  lemma CanonicalWordReencodes(w: Word)
    ensures ToBE(FieldWord(w), 32) == w <==> FromBE(w) < MODULUS
  {
    Reencodes(w, FieldWord(w));
  }

  /** Reading a point from its bytes and writing it again gives the bytes exactly when they were canonical. */
  lemma CanonicalPointReencodes(b: PointBytes)
    ensures EncodePoint(PointOf(b)) == b <==> CanonicalPoint(b)
  {
    CanonicalWordReencodes(b[..32]);
    CanonicalWordReencodes(b[32..]);
    HalvesOfConcat(ToBE(FieldWord(b[..32]), 32), ToBE(FieldWord(b[32..]), 32));
    assert b == b[..32] + b[32..];
  }

  lemma EncodedIsCanonical(p: Point)
    ensures CanonicalPoint(EncodePoint(p))
  {
    PointRoundTrip(p);
    CanonicalPointReencodes(EncodePoint(p));
  }

  /** Every point the statement carries is canonical. */
  predicate CanonicalTerms(t: Terms) {
    (forall i | 0 <= i < |t.slots| :: CanonicalPoint(t.slots[i])) && CanonicalPoint(t.payment)
  }

  lemma SlotReencodes(t: Terms, i: nat)
    requires i < 3
    ensures EncodePoint(CommitmentOf(t, i)) == Slot(t, i) <==> (i < |t.slots| ==> CanonicalPoint(t.slots[i]))
  {
    if i < |t.slots| {
      CanonicalPointReencodes(t.slots[i]);
    } else {
      ZeroWord(32);
      assert Zeros(32) + Zeros(32) == Zeros(64);
    }
  }

  lemma NumbersReencode(t: Terms)
    requires t.reserve >= 0
    ensures ToBE(FromBE(t.domain), 32) == t.domain
    ensures ToBE(t.reserve, 32) == AmountField(t.reserve) && ToBE(t.winnerIndex, 32) == U32Field(t.winnerIndex)
    ensures FlagWord(0 < |t.slots|) == Flag(t, 0) && FlagWord(1 < |t.slots|) == Flag(t, 1)
            && FlagWord(2 < |t.slots|) == Flag(t, 2)
  {
    EncodeDecode(t.domain);
    AmountFieldIsWordIffNonNegative(t.reserve);
    U32FieldIsWord(t.winnerIndex);
    U32FieldIsWord(0);
    U32FieldIsWord(1);
  }

  /** Points are told apart by the words of their layout. */
  lemma LayoutPoints(
    domain: Word, p0: PointBytes, p1: PointBytes, p2: PointBytes, q0: PointBytes, q1: PointBytes, q2: PointBytes,
    f0: Word, f1: Word, f2: Word, reserve: Word, winner: Word, p: PointBytes, q: PointBytes)
    ensures Layout(domain, p0, p1, p2, f0, f1, f2, reserve, winner, p)
            == Layout(domain, q0, q1, q2, f0, f1, f2, reserve, winner, q)
            <==> p0 == q0 && p1 == q1 && p2 == q2 && p == q
  {
    assert p0 == p0[..32] + p0[32..] && p1 == p1[..32] + p1[32..] && p2 == p2[..32] + p2[32..];
    assert q0 == q0[..32] + q0[32..] && q1 == q1[..32] + q1[32..] && q2 == q2[..32] + q2[32..];
    assert p == p[..32] + p[32..] && q == q[..32] + q[32..];
    var a := Layout(domain, p0, p1, p2, f0, f1, f2, reserve, winner, p);
    var b := Layout(domain, q0, q1, q2, f0, f1, f2, reserve, winner, q);
    if a == b {
      assert a[1] == b[1] && a[2] == b[2] && a[3] == b[3] && a[4] == b[4] && a[5] == b[5] && a[6] == b[6];
      assert a[12] == b[12] && a[13] == b[13];
    }
  }

  /** The prover's words are the statement's, but for the points. */
  lemma WordsOfInputs(t: Terms)
    requires Encodable(t) && t.reserve >= 0 && FromBE(t.domain) < MODULUS
    ensures InputWords(Inputs(t)) == Layout(
      t.domain, EncodePoint(CommitmentOf(t, 0)), EncodePoint(CommitmentOf(t, 1)), EncodePoint(CommitmentOf(t, 2)),
      Flag(t, 0), Flag(t, 1), Flag(t, 2), AmountField(t.reserve), U32Field(t.winnerIndex),
      EncodePoint(PointOf(t.payment)))
  {
    NumbersReencode(t);
  }

  lemma PointsReencode(t: Terms)
    requires Encodable(t)
    ensures
      && EncodePoint(CommitmentOf(t, 0)) == Slot(t, 0) && EncodePoint(CommitmentOf(t, 1)) == Slot(t, 1)
      && EncodePoint(CommitmentOf(t, 2)) == Slot(t, 2) && EncodePoint(PointOf(t.payment)) == t.payment
      <==> CanonicalTerms(t)
  {
    SlotReencodes(t, 0);
    SlotReencodes(t, 1);
    SlotReencodes(t, 2);
    CanonicalPointReencodes(t.payment);
    if CanonicalTerms(t) {
      assert |t.slots| > 0 ==> CanonicalPoint(t.slots[0]);
      assert |t.slots| > 1 ==> CanonicalPoint(t.slots[1]);
      assert |t.slots| > 2 ==> CanonicalPoint(t.slots[2]);
    }
  }

  lemma WordsAgreeExactly(t: Terms)
    requires Encodable(t) && t.reserve >= 0 && FromBE(t.domain) < MODULUS
    ensures InputWords(Inputs(t)) == Words(t) <==> CanonicalTerms(t)
  {
    WordsOfInputs(t);
    PointsReencode(t);
    LayoutPoints(
      t.domain, EncodePoint(CommitmentOf(t, 0)), EncodePoint(CommitmentOf(t, 1)), EncodePoint(CommitmentOf(t, 2)),
      Slot(t, 0), Slot(t, 1), Slot(t, 2), Flag(t, 0), Flag(t, 1), Flag(t, 2),
      AmountField(t.reserve), U32Field(t.winnerIndex), EncodePoint(PointOf(t.payment)), t.payment);
  }

  /**
   * The byte comparison before finalize: what a prover returns for the statement's
   * inputs is the market's own 448 bytes exactly when every point in them is canonical.
   */
  lemma ProverBytesAgreeExactly(t: Terms)
    requires Encodable(t) && t.reserve >= 0 && FromBE(t.domain) < MODULUS
    ensures ProverBytes(Inputs(t)) == StatementBytes(t) <==> CanonicalTerms(t)
  {
    StatementIsItsWords(t);
    WordsOfFlatten(InputWords(Inputs(t)));
    WordsAgreeExactly(t);
  }
}
