// A lot is never locked: past the settlement deadline the issuer gets it back
// in at most three calls of its own, whatever everybody else does in between.
module MarketRecovery {
  import opened Prelude
  import opened Encoding
  import opened MarketTypes
  import opened MarketSpec
  import opened MarketInvariants
  import opened MarketSteps
  import opened MarketRuns
  import opened MarketTransitions

  /** The issuer's next call on the way to its lot. */
  function RecoveryCall(w: World, id: RoundId): Call
    requires id in w.rounds
  {
    match w.rounds[id].status
    case Draft => CancelRound(id)
    case Open => CloseRound(id)
    case Closed => MarkNoSale(id)
    case _ => ReclaimRwa(id)
  }

  /** How many of those calls are left. */
  function Distance(w: World, id: RoundId): nat
    requires id in w.rounds
  {
    if w.rounds[id].rwaReclaimed then 0
    else
      match w.rounds[id].status
      case Draft => 2
      case Open => 3
      case Closed => 2
      case _ => 1
  }

  predicate Overdue(w: World, id: RoundId) {
    id in w.rounds && w.ledger > w.rounds[id].config.settlementDeadline
  }

  ghost predicate Solvent(w: World) {
    Inv(w) && forall token: Address :: Surplus(w, token) >= 0
  }

  lemma StaysSolvent(o: Oracle, w: World, step: Step)
    requires Solvent(w) && Legal(w, step)
    ensures Solvent(Next(o, w, step))
  {
    StepKeeps(o, w, step);
  }

  lemma SolventHoldsLot(w: World, id: RoundId)
    requires Solvent(w) && Held(w, id)
    ensures Balance(w.balances, w.rounds[id].config.rwaToken, w.market) >= w.rounds[id].config.rwaLot > 0
  {
    var token := w.rounds[id].config.rwaToken;
    LotsArePositive(w);
    TotalOwedCovers(w.rounds, id, token);
    assert Surplus(w, token) >= 0;
  }

  /** The next call in line, taken on the round alone: it is accepted and brings the lot one call closer. */
  lemma RecoveryCallWorks(o: Oracle, w: World, id: RoundId)
    requires RoundOk(w, id) && Held(w, id) && Overdue(w, id)
    requires Balance(w.balances, w.rounds[id].config.rwaToken, w.market) >= w.rounds[id].config.rwaLot
    ensures Perform(o, w, RecoveryCall(w, id)).Success?
    ensures
      var w', r := Perform(o, w, RecoveryCall(w, id)).value, w.rounds[id];
      && id in w'.rounds && w'.rounds[id].config == r.config && w'.ledger == w.ledger
      && Distance(w', id) == Distance(w, id) - 1
      && (if Distance(w, id) > 1 then w'.balances == w.balances && Held(w', id)
          else w'.balances == Moved(w.balances, r.config.rwaToken, w.market, r.config.issuer, r.config.rwaLot)
               && w'.rounds[id].rwaReclaimed)
  {
    match w.rounds[id].status
    case Open => BookIsRegistered(w, id);
    case _ =>
  }

  lemma BookIsRegistered(w: World, id: RoundId)
    requires RoundOk(w, id)
    ensures AllRegistered(w.bids, id, LoadBook(w.books, id))
  {
  }

  lemma IssuerMayRecover(o: Oracle, w: World, id: RoundId, auth: set<Address>)
    requires id in w.rounds && w.rounds[id].config.issuer in auth
    ensures Execute(o, w, auth, RecoveryCall(w, id)) == Perform(o, w, RecoveryCall(w, id))
  {
  }

  /**
   * One recovery step: signed by the issuer alone, the next call succeeds, and
   * either brings the lot one call closer or pays exactly the lot to the issuer.
   */
  lemma RecoveryStep(o: Oracle, w: World, id: RoundId)
    requires Solvent(w) && Held(w, id) && Overdue(w, id)
    ensures
      var r := w.rounds[id];
      var auth := {r.config.issuer};
      var token := r.config.rwaToken;
      var result := Execute(o, w, auth, RecoveryCall(w, id));
      && w.market !in auth
      && result.Success?
      && id in result.value.rounds && result.value.rounds[id].config == r.config
      && Distance(result.value, id) == Distance(w, id) - 1
      && (if Distance(w, id) > 1 then result.value.balances == w.balances && Held(result.value, id)
          else
            && result.value.rounds[id].rwaReclaimed
            && Balance(result.value.balances, token, r.config.issuer)
               == Balance(w.balances, token, r.config.issuer) + r.config.rwaLot)
  {
    assert RoundOk(w, id);
    SolventHoldsLot(w, id);
    var c := w.rounds[id].config;
    RecoveryCallWorks(o, w, id);
    IssuerMayRecover(o, w, id, {c.issuer});
    MarketPays(w.market, w.balances, c.rwaToken, c.issuer, c.rwaLot);
  }

  /** Past the deadline a held round cannot be opened or settled any more. */
  lemma OverdueMove(w: World, w': World, call: Call, id: RoundId)
    requires RoundOk(w, id) && Held(w, id) && Overdue(w, id)
    requires RoundAdvances(w, w', id) && StatusMove(w, w', call, id)
    ensures Distance(w', id) <= Distance(w, id)
    ensures Held(w', id) || w'.rounds[id].rwaReclaimed
  {
  }

  /** Nothing anyone else does takes the lot away or puts it further from the issuer. */
  lemma InterferenceIsHarmless(o: Oracle, w: World, step: Step, id: RoundId)
    requires Inv(w) && Held(w, id) && Overdue(w, id) && Legal(w, step)
    ensures
      var w' := Next(o, w, step);
      && Overdue(w', id)
      && Distance(w', id) <= Distance(w, id)
      && (Held(w', id) || w'.rounds[id].rwaReclaimed)
  {
    StepKeeps(o, w, step);
    assert RoundAdvances(w, Next(o, w, step), id);
    if step.Invoke? && Execute(o, w, step.auth, step.call).Success? {
      StatusTransitions(o, w, step.auth, step.call, id);
      assert RoundOk(w, id);
      OverdueMove(w, Next(o, w, step), step.call, id);
    }
  }

  /** A step of the run that is the issuer's own next recovery call. */
  predicate IsRecoveryMove(w: World, step: Step, id: RoundId) {
    id in w.rounds && step == Invoke({w.rounds[id].config.issuer}, RecoveryCall(w, id))
  }

  function RecoveryMoves(o: Oracle, w: World, steps: seq<Step>, id: RoundId): nat
    decreases |steps|
  {
    if |steps| == 0 then 0
    else (if IsRecoveryMove(w, steps[0], id) then 1 else 0) + RecoveryMoves(o, Next(o, w, steps[0]), steps[1..], id)
  }

  /** Overdue, and the lot either still held or already given back. */
  ghost predicate InRecovery(w: World, id: RoundId) {
    Solvent(w) && Overdue(w, id) && (Held(w, id) || w.rounds[id].rwaReclaimed)
  }

  lemma ReclaimedStays(o: Oracle, w: World, step: Step, id: RoundId)
    requires Inv(w) && Legal(w, step) && Overdue(w, id) && w.rounds[id].rwaReclaimed
    ensures Overdue(Next(o, w, step), id) && Next(o, w, step).rounds[id].rwaReclaimed
  {
    StepKeeps(o, w, step);
    assert RoundAdvances(w, Next(o, w, step), id);
  }

  lemma OwnStep(o: Oracle, w: World, step: Step, id: RoundId)
    requires Solvent(w) && Held(w, id) && Overdue(w, id) && IsRecoveryMove(w, step, id)
    ensures Overdue(Next(o, w, step), id) && Distance(Next(o, w, step), id) == Distance(w, id) - 1
    ensures Held(Next(o, w, step), id) || Next(o, w, step).rounds[id].rwaReclaimed
  {
    var w' := Next(o, w, step);
    RecoveryStep(o, w, id);
    StepClock(o, w, step);
    StaysOverdue(w, w', id);
  }

  lemma StepClock(o: Oracle, w: World, step: Step)
    requires Inv(w) && Legal(w, step)
    ensures w.ledger <= Next(o, w, step).ledger
  {
    StepKeeps(o, w, step);
  }

  /** Any step keeps the recovery going, and the issuer's own step brings it one closer. */
  lemma StepTowards(o: Oracle, w: World, step: Step, id: RoundId)
    requires InRecovery(w, id) && Legal(w, step)
    ensures InRecovery(Next(o, w, step), id)
    ensures Distance(Next(o, w, step), id) <= Distance(w, id)
    ensures IsRecoveryMove(w, step, id) && Distance(w, id) > 0 ==> Distance(Next(o, w, step), id) < Distance(w, id)
  {
    StaysSolvent(o, w, step);
    if w.rounds[id].rwaReclaimed {
      ReclaimedStays(o, w, step, id);
    } else if IsRecoveryMove(w, step, id) {
      OwnStep(o, w, step, id);
    } else {
      InterferenceIsHarmless(o, w, step, id);
    }
  }

  /**
   * A lot is never locked. From any orderly solvent state in which the lot is
   * held past its settlement deadline, every legal run in which the issuer makes
   * its next call as often as the distance says (three times at most) gives the
   * lot back, no matter what bidders, other rounds and outsiders do in between.
   */
  lemma {:induction false} LotIsNeverLocked(o: Oracle, w: World, steps: seq<Step>, id: RoundId)
    requires InRecovery(w, id) && LegalRun(o, w, steps)
    requires RecoveryMoves(o, w, steps, id) >= Distance(w, id)
    ensures Distance(w, id) <= 3
    ensures id in Run(o, w, steps).rounds && Run(o, w, steps).rounds[id].rwaReclaimed
    decreases |steps|
  {
    if |steps| == 0 {
      NoDistanceLeft(w, id);
    } else {
      StepTowards(o, w, steps[0], id);
      LotIsNeverLocked(o, Next(o, w, steps[0]), steps[1..], id);
    }
  }

  lemma NoDistanceLeft(w: World, id: RoundId)
    requires InRecovery(w, id) && Distance(w, id) == 0
    ensures w.rounds[id].rwaReclaimed
  {
  }

  lemma StaysOverdue(w: World, w': World, id: RoundId)
    requires Overdue(w, id) && id in w'.rounds && w'.rounds[id].config == w.rounds[id].config && w.ledger <= w'.ledger
    ensures Overdue(w', id)
  {
  }

  /** Calls signed by the issuer alone that give it back its lot, and exactly its lot. */
  ghost predicate GivesBack(o: Oracle, w: World, id: RoundId, steps: seq<Step>)
    requires id in w.rounds
  {
    var w', c := Run(o, w, steps), w.rounds[id].config;
    && LegalRun(o, w, steps)
    && (forall i | 0 <= i < |steps| :: steps[i].Invoke? && steps[i].auth == {c.issuer})
    && id in w'.rounds && w'.rounds[id].rwaReclaimed
    && Balance(w'.balances, c.rwaToken, c.issuer) == Balance(w.balances, c.rwaToken, c.issuer) + c.rwaLot
  }

  /** The schedule itself: at most three calls. */
  lemma {:induction false} RecoverySchedule(o: Oracle, w: World, id: RoundId) returns (steps: seq<Step>)
    requires Solvent(w) && Held(w, id) && Overdue(w, id)
    ensures |steps| == Distance(w, id) <= 3
    ensures GivesBack(o, w, id, steps)
    decreases Distance(w, id)
  {
    var step := Invoke({w.rounds[id].config.issuer}, RecoveryCall(w, id));
    ScheduledStep(o, w, id, step);
    if Distance(w, id) == 1 {
      steps := [step];
      LastCall(o, w, id, step);
    } else {
      var rest := RecoverySchedule(o, Next(o, w, step), id);
      steps := [step] + rest;
      EarlierCall(o, w, id, step, rest);
    }
  }

  lemma LastCall(o: Oracle, w: World, id: RoundId, step: Step)
    requires id in w.rounds && Legal(w, step) && step.Invoke? && step.auth == {w.rounds[id].config.issuer}
    requires id in Next(o, w, step).rounds && Next(o, w, step).rounds[id].rwaReclaimed
    requires
      var w', c := Next(o, w, step), w.rounds[id].config;
      Balance(w'.balances, c.rwaToken, c.issuer) == Balance(w.balances, c.rwaToken, c.issuer) + c.rwaLot
    ensures GivesBack(o, w, id, [step])
  {
  }

  lemma EarlierCall(o: Oracle, w: World, id: RoundId, step: Step, rest: seq<Step>)
    requires id in w.rounds && Legal(w, step) && step.Invoke? && step.auth == {w.rounds[id].config.issuer}
    requires id in Next(o, w, step).rounds && Next(o, w, step).rounds[id].config == w.rounds[id].config
    requires Next(o, w, step).balances == w.balances
    requires GivesBack(o, Next(o, w, step), id, rest)
    ensures GivesBack(o, w, id, [step] + rest)
  {
  }

  lemma ScheduledStep(o: Oracle, w: World, id: RoundId, step: Step)
    requires Solvent(w) && Held(w, id) && Overdue(w, id)
    requires step == Invoke({w.rounds[id].config.issuer}, RecoveryCall(w, id))
    ensures Legal(w, step)
    ensures
      var w', c := Next(o, w, step), w.rounds[id].config;
      && Solvent(w') && Overdue(w', id) && w'.rounds[id].config == c
      && Distance(w', id) == Distance(w, id) - 1
      && (if Distance(w, id) > 1 then Held(w', id) && w'.balances == w.balances
          else w'.rounds[id].rwaReclaimed &&
               Balance(w'.balances, c.rwaToken, c.issuer) == Balance(w.balances, c.rwaToken, c.issuer) + c.rwaLot)
  {
    RecoveryStep(o, w, id);
    StaysSolvent(o, w, step);
    OwnStep(o, w, step, id);
  }

  /** Only reclaim_rwa gives a lot back, and it pays exactly the lot, to the issuer. */
  lemma ReclaimPaysIssuer(o: Oracle, w: World, auth: set<Address>, call: Call, id: RoundId)
    requires Inv(w) && id in w.rounds && !w.rounds[id].rwaReclaimed
    requires Execute(o, w, auth, call).Success?
    requires id in Execute(o, w, auth, call).value.rounds
    requires Execute(o, w, auth, call).value.rounds[id].rwaReclaimed
    ensures
      var w', c := Execute(o, w, auth, call).value, w.rounds[id].config;
      && call == ReclaimRwa(id) && c.issuer in auth
      && Balance(w.balances, c.rwaToken, w.market) >= c.rwaLot > 0
      && w'.balances == Moved(w.balances, c.rwaToken, w.market, c.issuer, c.rwaLot)
  {
    StatusTransitions(o, w, auth, call, id);
    LotsArePositive(w);
    ReclaimShape(w, id);
  }

  lemma ReclaimShape(w: World, id: RoundId)
    requires Reclaim(w, id).Success?
    ensures
      var w', c := Reclaim(w, id).value, w.rounds[id].config;
      && 0 <= c.rwaLot <= Balance(w.balances, c.rwaToken, w.market)
      && w'.balances == Moved(w.balances, c.rwaToken, w.market, c.issuer, c.rwaLot)
  {
  }
}
