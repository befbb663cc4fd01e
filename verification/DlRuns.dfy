/** Runs of one user's downlink HARQ processes under single-codeword scheduling (DCI Format 1), one scheduler call
    per TTI, with any feedback in between: no block stays for ever, and feedback reaches its sender. */
module DlRuns {
  import opened Tti
  import opened Harq
  import opened DlProcs

  /** What the resource allocator decides for the user in one TTI. */
  datatype Pick = Nobody | OldestRetx | FirstEmpty

  datatype Feedback = Feedback(tti: nat, ack: bool)

  /** One TTI: the feedback that arrives, then the scheduling decision, with whether a DCI could be placed. */
  datatype Step = Step(feedback: seq<Feedback>, pick: Pick, dci: bool, mcs: int, tbs: int)

  /** Only transport block 0 is ever enabled, so only its feedback is looked at. */
  function Heard(ps: seq<Proc>, fb: seq<Feedback>): (r: seq<Proc>)
    ensures |r| == |ps| && (AllValid(ps) ==> AllValid(r))
  {
    if |fb| == 0 then ps
    else var f := fb[|fb| - 1]; SetAckInfo(Heard(ps, fb[..|fb| - 1]), f.tti, 0, f.ack)
  }

  lemma HeardOneMore(ps: seq<Proc>, fb: seq<Feedback>, f: Feedback)
    ensures Heard(ps, fb + [f]) == SetAckInfo(Heard(ps, fb), f.tti, 0, f.ack)
  {
    assert (fb + [f])[..|fb|] == fb;
  }

  function Chosen(ps: seq<Proc>, now: nat, pick: Pick): (r: Option<nat>)
    requires AllValid(ps) && now < TTI_PERIOD
    ensures r.Some? ==> r.value < |ps|
  {
    match pick
    case Nobody => None
    case OldestRetx => Pending(ps, now)
    case FirstEmpty => FirstEmptyFrom(ps, 0)
  }

  /** The grant of a chosen process: a new block if block 0 is free, the same block again otherwise. */
  function Sent(p: Proc, now: nat, mcs: int, tbs: int): Proc {
    if p.tb0.IsEmpty() then p.NewTx(0, now, mcs, tbs) else p.NewRetx(0, now)
  }

  /** The decision of the step; a chosen process without a DCI is reset. */
  function Scheduled(ps: seq<Proc>, now: nat, s: Step): (r: seq<Proc>)
    requires AllValid(ps) && now < TTI_PERIOD
    ensures |r| == |ps| && AllValid(r)
  {
    match Chosen(ps, now, s.pick)
    case None => ps
    case Some(i) => ps[i := if s.dci then Sent(ps[i], now, s.mcs, s.tbs) else ps[i].ResetBoth()]
  }

  function After(ps: seq<Proc>, now: nat, s: Step): (r: seq<Proc>)
    requires AllValid(ps) && now < TTI_PERIOD
    ensures |r| == |ps| && AllValid(r)
  {
    Timeouts(Scheduled(Heard(ps, s.feedback), now, s), now)
  }

  /** The processes after all steps of a run that starts in TTI `start`. */
  function Run(ps: seq<Proc>, start: nat, steps: seq<Step>): (r: seq<Proc>)
    requires AllValid(ps)
    ensures |r| == |ps| && AllValid(r)
  {
    if |steps| == 0 then ps
    else
      var k := |steps| - 1;
      After(Run(ps, start, steps[..k]), TtiAt(start, k), steps[k])
  }

  /** The process that step `k` of a run chooses, whether it finds a DCI or not. */
  function ChosenBy(ps: seq<Proc>, start: nat, steps: seq<Step>, k: nat): (r: Option<nat>)
    requires AllValid(ps) && k < |steps|
    ensures r.Some? ==> r.value < |ps|
  {
    Chosen(Heard(Run(ps, start, steps[..k]), steps[k].feedback), TtiAt(start, k), steps[k].pick)
  }

  /** The process that step `k` transmits on, if any. */
  function SentBy(ps: seq<Proc>, start: nat, steps: seq<Step>, k: nat): (r: Option<nat>)
    requires AllValid(ps) && k < |steps|
    ensures r.Some? ==> r.value < |ps|
  {
    if steps[k].dci then ChosenBy(ps, start, steps, k) else None
  }

  // ---- Retransmission counts

  /** Block 1 is unused and block 0 is within its retransmission limit. */
  predicate Format1Proc(p: Proc) {
    p.Valid() && !p.tb1.active && p.tb1.ack && p.tb0.nRtx <= p.maxRetx
  }

  predicate Format1(ps: seq<Proc>) {
    forall i | 0 <= i < |ps| :: Format1Proc(ps[i])
  }

  /** Feedback changes neither the limit, the count nor the transmission time, and never makes a block active. */
  predicate OnlyFeedback(p: Proc, q: Proc) {
    q.maxRetx == p.maxRetx && q.tti == p.tti && q.tb0.nRtx == p.tb0.nRtx && (q.tb0.active ==> p.tb0.active)
  }

  lemma {:induction false} HeardKeeps(ps: seq<Proc>, fb: seq<Feedback>)
    requires Format1(ps)
    ensures Format1(Heard(ps, fb))
    ensures forall i | 0 <= i < |ps| :: OnlyFeedback(ps[i], Heard(ps, fb)[i])
  {
    if |fb| > 0 { HeardKeeps(ps, fb[..|fb| - 1]); }
  }

  lemma ChosenMayBeSent(ps: seq<Proc>, now: nat, pick: Pick)
    requires Format1(ps) && now < TTI_PERIOD
    ensures match Chosen(ps, now, pick)
            case None => true
            case Some(i) => ps[i].tb0.IsEmpty() || ps[i].tb0.nRtx < ps[i].maxRetx
  {
    PendingIsOldest(ps, now, |ps|);
  }

  lemma AfterKeepsFormat1(ps: seq<Proc>, now: nat, s: Step)
    requires Format1(ps) && now < TTI_PERIOD
    ensures Format1(After(ps, now, s))
  {
    HeardKeeps(ps, s.feedback);
    var heard := Heard(ps, s.feedback);
    ChosenMayBeSent(heard, now, s.pick);
    var sched := Scheduled(heard, now, s);
    forall i | 0 <= i < |ps| ensures Format1Proc(Timeout(sched[i], now)) {
      assert Format1Proc(heard[i]);
    }
  }

  /** A block is never retransmitted more often than its process allows, whatever feedback arrives or is lost. */
  lemma {:induction false} RetxBounded(ps: seq<Proc>, start: nat, steps: seq<Step>)
    requires Format1(ps)
    ensures Format1(Run(ps, start, steps))
    ensures forall i | 0 <= i < |ps| :: Run(ps, start, steps)[i].maxRetx == ps[i].maxRetx
  {
    if |steps| > 0 {
      var k := |steps| - 1;
      RetxBounded(ps, start, steps[..k]);
      var before := Run(ps, start, steps[..k]);
      AfterKeepsFormat1(before, TtiAt(start, k), steps[k]);
      HeardKeeps(before, steps[k].feedback);
    }
  }

  // ---- Occupancy

  predicate Busy(p: Proc) {
    !p.tb0.IsEmpty()
  }

  /** Step `k` puts a new block on process `i`. */
  predicate NewBlock(ps: seq<Proc>, start: nat, steps: seq<Step>, k: nat, i: nat)
    requires AllValid(ps) && k < |steps| && i < |ps|
  {
    && SentBy(ps, start, steps, k) == Some(i)
    && Heard(Run(ps, start, steps[..k]), steps[k].feedback)[i].tb0.IsEmpty()
  }

  /** How long the block of process `p` can still stay, at most. */
  function Budget(p: Proc, now: nat): int
    requires p.Valid() && now < TTI_PERIOD
  {
    (TIMEOUT_MS + 1) * (p.maxRetx - p.tb0.nRtx) + TIMEOUT_MS - Interval(now, p.tti)
  }

  /** After every scheduler call a block in use was sent at most 50 ms ago. */
  predicate Recent(p: Proc, now: nat)
    requires p.Valid() && now < TTI_PERIOD
  {
    Busy(p) ==> Interval(now, p.tti) <= TIMEOUT_MS
  }

  lemma AfterIsRecent(ps: seq<Proc>, now: nat, s: Step, i: nat)
    requires AllValid(ps) && now < TTI_PERIOD && i < |ps|
    ensures Recent(After(ps, now, s)[i], now)
  {
  }

  lemma IntervalGrows(t: nat, past: nat)
    requires t < TTI_PERIOD && past < TTI_PERIOD && Interval(t, past) <= TIMEOUT_MS
    ensures Interval(Next(t), past) == Interval(t, past) + 1
  {
  }

  /** What a step that starts no new block on process `i` and does not free it does to that process. */
  lemma SurvivorStep(ps: seq<Proc>, now: nat, s: Step, i: nat)
    requires Format1(ps) && now < TTI_PERIOD && i < |ps|
    requires var heard := Heard(ps, s.feedback);
             && Busy(After(ps, now, s)[i])
             && !(s.dci && Chosen(heard, now, s.pick) == Some(i) && heard[i].tb0.IsEmpty())
    ensures var q := After(ps, now, s)[i];
            && q.maxRetx == ps[i].maxRetx
            && ((q.tti == ps[i].tti && q.tb0.nRtx == ps[i].tb0.nRtx)
                || (q.tti == now && q.tb0.nRtx == ps[i].tb0.nRtx + 1))
  {
    HeardKeeps(ps, s.feedback);
    var heard := Heard(ps, s.feedback);
    assert OnlyFeedback(ps[i], heard[i]);
  }

  /** A block that outlives one more TTI has used up some of its budget. */
  lemma BudgetShrinks(ps: seq<Proc>, t: nat, s: Step, i: nat)
    requires Format1(ps) && t < TTI_PERIOD && i < |ps|
    requires Busy(ps[i]) && Recent(ps[i], t)
    requires var now := Next(t);
             var heard := Heard(ps, s.feedback);
             && Busy(After(ps, now, s)[i])
             && !(s.dci && Chosen(heard, now, s.pick) == Some(i) && heard[i].tb0.IsEmpty())
    ensures Budget(After(ps, Next(t), s)[i], Next(t)) < Budget(ps[i], t)
  {
    SurvivorStep(ps, Next(t), s, i);
    IntervalGrows(t, ps[i].tti);
  }

  lemma RecentAfter(ps: seq<Proc>, start: nat, steps: seq<Step>, i: nat, b: nat)
    requires AllValid(ps) && i < |ps| && 1 <= b <= |steps|
    ensures Recent(Run(ps, start, steps[..b])[i], TtiAt(start, b - 1))
  {
    assert steps[..b][..b - 1] == steps[..b - 1];
    AfterIsRecent(Run(ps, start, steps[..b - 1]), TtiAt(start, b - 1), steps[b - 1], i);
  }

  lemma RunStep(ps: seq<Proc>, start: nat, steps: seq<Step>, k: nat)
    requires AllValid(ps) && k < |steps|
    ensures Run(ps, start, steps[..k + 1]) == After(Run(ps, start, steps[..k]), TtiAt(start, k), steps[k])
  {
    assert steps[..k + 1][..k] == steps[..k];
  }

  lemma BudgetStep(ps: seq<Proc>, start: nat, steps: seq<Step>, i: nat, b: nat)
    requires Format1(ps) && i < |ps| && 2 <= b <= |steps|
    requires Busy(Run(ps, start, steps[..b - 1])[i]) && Busy(Run(ps, start, steps[..b])[i])
    requires !NewBlock(ps, start, steps, b - 1, i)
    ensures Budget(Run(ps, start, steps[..b])[i], TtiAt(start, b - 1))
            < Budget(Run(ps, start, steps[..b - 1])[i], TtiAt(start, b - 2))
  {
    RetxBounded(ps, start, steps[..b - 1]);
    RecentAfter(ps, start, steps, i, b - 1);
    TtiAtNext(start, b - 2);
    RunStep(ps, start, steps, b - 1);
    BudgetShrinks(Run(ps, start, steps[..b - 1]), TtiAt(start, b - 2), steps[b - 1], i);
  }

  lemma {:induction false} BudgetLeft(ps: seq<Proc>, start: nat, steps: seq<Step>, i: nat, a: nat, b: nat)
    requires Format1(ps) && i < |ps| && 1 <= a <= b <= |steps|
    requires forall k | a <= k <= b :: Busy(Run(ps, start, steps[..k])[i])
    requires forall k | a <= k < b :: !NewBlock(ps, start, steps, k, i)
    ensures Budget(Run(ps, start, steps[..b])[i], TtiAt(start, b - 1)) + b - a
            <= (TIMEOUT_MS + 1) * ps[i].maxRetx + TIMEOUT_MS
    decreases b
  {
    if a < b {
      BudgetLeft(ps, start, steps, i, a, b - 1);
      assert !NewBlock(ps, start, steps, b - 1, i);
      BudgetStep(ps, start, steps, i, b);
    } else {
      RetxBounded(ps, start, steps[..b]);
    }
  }

  /** No transport block stays on its process for as long as 51 ms for every transmission it may have: if process
      `i` is busy after each of steps a..b and gets no new block in between, b - a is below 51 * (max_retx + 1). */
  lemma {:induction false} OccupancyBounded(ps: seq<Proc>, start: nat, steps: seq<Step>, i: nat, a: nat, b: nat)
    requires Format1(ps) && i < |ps| && 1 <= a <= b <= |steps|
    requires forall k | a <= k <= b :: Busy(Run(ps, start, steps[..k])[i])
    requires forall k | a <= k < b :: !NewBlock(ps, start, steps, k, i)
    ensures b - a < (TIMEOUT_MS + 1) * (ps[i].maxRetx + 1)
  {
    BudgetLeft(ps, start, steps, i, a, b);
    RetxBounded(ps, start, steps[..b]);
    RecentAfter(ps, start, steps, i, b);
  }

  // ---- Routing of feedback

  lemma {:induction false} HeardKeepsTti(ps: seq<Proc>, fb: seq<Feedback>)
    requires AllValid(ps)
    ensures forall i | 0 <= i < |ps| :: Heard(ps, fb)[i].tti == ps[i].tti
  {
    if |fb| > 0 { HeardKeepsTti(ps, fb[..|fb| - 1]); }
  }

  /** Every non-zero transmission time on record is the TTI of a step that sent on that very process. */
  lemma {:induction false} TtiIsSendTime(ps: seq<Proc>, start: nat, steps: seq<Step>, i: nat) returns (k: nat)
    requires AllValid(ps) && i < |ps| && ps[i].tti == 0
    requires Run(ps, start, steps)[i].tti != 0
    ensures k < |steps| && SentBy(ps, start, steps, k) == Some(i) && TtiAt(start, k) == Run(ps, start, steps)[i].tti
  {
    var n := |steps| - 1;
    var before := Run(ps, start, steps[..n]);
    HeardKeepsTti(before, steps[n].feedback);
    if SentBy(ps, start, steps, n) == Some(i) {
      k := n;
    } else {
      k := TtiIsSendTime(ps, start, steps[..n], i);
      assert steps[..n][..k] == steps[..k];
    }
  }

  predicate Unsent(ps: seq<Proc>) {
    forall i | 0 <= i < |ps| :: ps[i].tti == 0
  }

  lemma DistinctTtis(start: nat, k: nat, m: nat, n: nat)
    requires k < n && m < n && n <= TTI_PERIOD && TtiAt(start, k) == TtiAt(start, m)
    ensures k == m
  {
    var a, b := (start + k) / TTI_PERIOD, (start + m) / TTI_PERIOD;
    assert start + k - (start + m) == TTI_PERIOD * (a - b);
  }

  /** In a run of at most 10240 TTIs, the non-zero transmission times of the processes of a user are distinct. */
  lemma SendTimesDistinct(ps: seq<Proc>, start: nat, steps: seq<Step>, i: nat, j: nat)
    requires AllValid(ps) && Unsent(ps) && |steps| <= TTI_PERIOD && i < |ps| && j < |ps| && i != j
    requires Run(ps, start, steps)[i].tti != 0
    ensures Run(ps, start, steps)[i].tti != Run(ps, start, steps)[j].tti
  {
    if Run(ps, start, steps)[i].tti == Run(ps, start, steps)[j].tti {
      var k := TtiIsSendTime(ps, start, steps, i);
      var m := TtiIsSendTime(ps, start, steps, j);
      DistinctTtis(start, k, m, |steps|);
    }
  }

  /** Process `q` is the first that stands at TTI 0. */
  predicate FirstAtZero(ps: seq<Proc>, q: nat) {
    q < |ps| && ps[q].tti == 0 && forall j | 0 <= j < q :: ps[j].tti != 0
  }

  /** Feedback in TTI 4 goes to the first process that stands at TTI 0: it sent then, was reset or was never used. */
  lemma ZeroGoesToFirst(now: seq<Proc>, q: nat)
    requires AllValid(now)
    ensures AckTargetFrom(now, 0, TtiTx(0)) == Some(q) <==> FirstAtZero(now, q)
  {
    forall j | 0 <= j < |now| ensures TtiTx(now[j].tti) == TtiTx(0) <==> now[j].tti == 0 {
      if TtiTx(now[j].tti) == TtiTx(0) { TtiTxInjective(now[j].tti, 0); }
    }
  }

  /** Feedback for what was sent in another TTI than 0 goes to the process that sent it or to none. */
  lemma OthersNotReached(ps: seq<Proc>, start: nat, steps: seq<Step>, k: nat)
    requires AllValid(ps) && Unsent(ps) && |steps| <= TTI_PERIOD
    requires k < |steps| && SentBy(ps, start, steps, k).Some? && TtiAt(start, k) != 0
    ensures var p := SentBy(ps, start, steps, k).value;
            var now := Run(ps, start, steps);
            AckTargetFrom(now, 0, TtiTx(TtiAt(start, k))) == if now[p].tti == TtiAt(start, k) then Some(p) else None
  {
    var now := Run(ps, start, steps);
    var t := TtiAt(start, k);
    match AckTargetFrom(now, 0, TtiTx(t))
    case None =>
    case Some(q) =>
      TtiTxInjective(now[q].tti, t);
      var m := TtiIsSendTime(ps, start, steps, q);
      DistinctTtis(start, k, m, |steps|);
  }

  /** What feedback for the transmission of step `k` does. If that was not in TTI 0, it updates exactly the process that
      sent, or none if that process has been reset or has sent something else since. If it was in TTI 0, it updates the
      first process that stands at TTI 0, whichever that is. */
  lemma FeedbackReachesSender(ps: seq<Proc>, start: nat, steps: seq<Step>, k: nat, tb: nat, ack: bool)
    requires AllValid(ps) && Unsent(ps) && |steps| <= TTI_PERIOD && tb < 2
    requires k < |steps| && SentBy(ps, start, steps, k).Some?
    ensures var p := SentBy(ps, start, steps, k).value;
            var now, t := Run(ps, start, steps), TtiAt(start, k);
            var after := SetAckInfo(now, TtiTx(t), tb, ack);
            if t != 0 then after == if now[p].tti == t then now[p := now[p].SetAck(tb, ack)] else now
            else
              && (forall q | 0 <= q < |now| && FirstAtZero(now, q) :: after == now[q := now[q].SetAck(tb, ack)])
              && ((forall q | 0 <= q < |now| :: now[q].tti != 0) ==> after == now)
  {
    var now := Run(ps, start, steps);
    if TtiAt(start, k) != 0 {
      OthersNotReached(ps, start, steps, k);
    } else {
      forall q | 0 <= q < |now| ensures AckTargetFrom(now, 0, TtiTx(0)) == Some(q) <==> FirstAtZero(now, q) {
        ZeroGoesToFirst(now, q);
      }
    }
  }

  /** Whatever TTI step `k` sent in: its feedback updates the process that sent exactly if that process still stands at
      that TTI and, in case of TTI 0, no process before it stands there too. */
  lemma FeedbackReachesSenderIff(ps: seq<Proc>, start: nat, steps: seq<Step>, k: nat)
    requires AllValid(ps) && Unsent(ps) && |steps| <= TTI_PERIOD
    requires k < |steps| && SentBy(ps, start, steps, k).Some?
    ensures var p := SentBy(ps, start, steps, k).value;
            var now, t := Run(ps, start, steps), TtiAt(start, k);
            AckTargetFrom(now, 0, TtiTx(t)) == Some(p)
            <==> now[p].tti == t && (t != 0 || forall j | 0 <= j < p :: now[j].tti != 0)
  {
    if TtiAt(start, k) == 0 {
      ZeroGoesToFirst(Run(ps, start, steps), SentBy(ps, start, steps, k).value);
    } else {
      OthersNotReached(ps, start, steps, k);
    }
  }

  /** Feedback that answers nothing the user was sent is dropped exactly when it is not the feedback of TTI 0, or no
      process stands at TTI 0: a process that was reset or never used stands there and takes it. */
  lemma StrayFeedbackDroppedIff(ps: seq<Proc>, start: nat, steps: seq<Step>, t: nat)
    requires AllValid(ps) && Unsent(ps) && |steps| <= TTI_PERIOD && t < TTI_PERIOD
    requires forall k | 0 <= k < |steps| && TtiAt(start, k) == t :: SentBy(ps, start, steps, k).None?
    ensures AckTargetFrom(Run(ps, start, steps), 0, TtiTx(t)).None?
            <==> t != 0 || forall i | 0 <= i < |ps| :: Run(ps, start, steps)[i].tti != 0
  {
    var now := Run(ps, start, steps);
    match AckTargetFrom(now, 0, TtiTx(t))
    case None =>
      if t == 0 {
        forall i | 0 <= i < |ps| ensures now[i].tti != 0 { assert TtiTx(now[i].tti) != TtiTx(0); }
      }
    case Some(q) =>
      TtiTxInjective(now[q].tti, t);
      if t != 0 {
        var m := TtiIsSendTime(ps, start, steps, q);
      }
  }

  // ---- Feedback to what was sent

  /** Step `k` hears only answers to what was sent eight steps before: four TTIs later they are received, and what is
      scheduled then goes out four TTIs after that. */
  predicate HearsAnswers(ps: seq<Proc>, start: nat, steps: seq<Step>, k: nat)
    requires AllValid(ps) && k < |steps|
  {
    forall f | f in steps[k].feedback ::
      k >= 8 && SentBy(ps, start, steps, k - 8).Some? && f.tti == TtiTx(TtiAt(start, k - 8))
  }

  predicate OnlyAnswers(ps: seq<Proc>, start: nat, steps: seq<Step>)
    requires AllValid(ps)
  {
    forall k | 0 <= k < |steps| :: HearsAnswers(ps, start, steps, k)
  }

  /** The process was chosen by one of the first `n` steps. */
  ghost predicate Touched(ps: seq<Proc>, start: nat, steps: seq<Step>, n: nat, i: nat)
    requires AllValid(ps) && n <= |steps|
  {
    exists k | 0 <= k < n :: ChosenBy(ps, start, steps, k) == Some(i)
  }

  lemma NearTtis(start: nat, a: nat, b: nat)
    requires a < b < a + TTI_PERIOD
    ensures TtiAt(start, a) != TtiAt(start, b)
  {
    if TtiAt(start, a) == TtiAt(start, b) { DistinctTtis(start + a, 0, b - a, TTI_PERIOD); }
  }

  lemma IntervalOf(start: nat, a: nat, d: nat)
    requires d < TTI_PERIOD
    ensures Interval(TtiAt(start, a + d), TtiAt(start, a)) == d
  {
  }

  /** Who takes feedback depends on the transmission times only. */
  lemma {:induction false} SameTarget(ps: seq<Proc>, qs: seq<Proc>, i: nat, tti: nat)
    requires |ps| == |qs| && i <= |ps| && forall j | 0 <= j < |ps| :: ps[j].tti == qs[j].tti
    ensures AckTargetFrom(ps, i, tti) == AckTargetFrom(qs, i, tti)
    decreases |ps| - i
  {
    if i < |ps| { SameTarget(ps, qs, i + 1, tti); }
  }

  /** Feedback that does not go to process `i` leaves it alone. */
  lemma {:induction false} HeardSpares(ps: seq<Proc>, fb: seq<Feedback>, i: nat)
    requires AllValid(ps) && i < |ps| && forall f | f in fb :: AckTargetFrom(ps, 0, f.tti) != Some(i)
    ensures Heard(ps, fb)[i] == ps[i]
  {
    if |fb| > 0 {
      var init := fb[..|fb| - 1];
      HeardSpares(ps, init, i);
      HeardKeepsTti(ps, init);
      assert fb[|fb| - 1] in fb;
      SameTarget(ps, Heard(ps, init), 0, fb[|fb| - 1].tti);
    }
  }

  /** A block that was sent in TTI `t` and has not been answered. */
  predicate Unanswered(p: Proc, t: nat) {
    p.Valid() && p.tti == t && p.tb0.active && !p.tb0.ackReceived
  }

  lemma SentIsUnanswered(p: Proc, now: nat, mcs: int, tbs: int)
    requires p.Valid() && now < TTI_PERIOD && p.maxRetx > 0
    ensures Unanswered(Sent(p, now, mcs, tbs), now)
  {
  }

  /** An unanswered block of less than eight TTIs is left alone by a step whose feedback is for others. */
  lemma UnansweredStays(ps: seq<Proc>, now: nat, s: Step, i: nat, t: nat)
    requires AllValid(ps) && now < TTI_PERIOD && t < TTI_PERIOD && i < |ps| && Unanswered(ps[i], t)
    requires 0 < Interval(now, t) < 8 && forall f | f in s.feedback :: f.tti != TtiTx(t)
    ensures After(ps, now, s)[i] == ps[i]
  {
    forall f | f in s.feedback ensures AckTargetFrom(ps, 0, f.tti) != Some(i) {
    }
    HeardSpares(ps, s.feedback, i);
    PendingIsOldest(Heard(ps, s.feedback), now, |ps|);
  }

  lemma {:induction false} HeardKeepsMax(ps: seq<Proc>, fb: seq<Feedback>, i: nat)
    requires AllValid(ps) && i < |ps|
    ensures Heard(ps, fb)[i].maxRetx == ps[i].maxRetx
  {
    if |fb| > 0 { HeardKeepsMax(ps, fb[..|fb| - 1], i); }
  }

  lemma {:induction false} MaxRetxStays(ps: seq<Proc>, start: nat, steps: seq<Step>, i: nat)
    requires AllValid(ps) && i < |ps|
    ensures Run(ps, start, steps)[i].maxRetx == ps[i].maxRetx
  {
    if |steps| > 0 {
      var k := |steps| - 1;
      MaxRetxStays(ps, start, steps[..k], i);
      HeardKeepsMax(Run(ps, start, steps[..k]), steps[k].feedback, i);
    }
  }

  /** Every process may retransmit. */
  predicate MayRetransmit(ps: seq<Proc>) {
    forall i | 0 <= i < |ps| :: ps[i].maxRetx > 0
  }

  lemma StandsAfterSending(ps: seq<Proc>, start: nat, steps: seq<Step>, k: nat)
    requires AllValid(ps) && MayRetransmit(ps) && k < |steps| && SentBy(ps, start, steps, k).Some?
    ensures var i := SentBy(ps, start, steps, k).value;
            Unanswered(Run(ps, start, steps[..k + 1])[i], TtiAt(start, k))
  {
    var i := SentBy(ps, start, steps, k).value;
    RunStep(ps, start, steps, k);
    MaxRetxStays(ps, start, steps[..k], i);
    HeardKeepsMax(Run(ps, start, steps[..k]), steps[k].feedback, i);
    var heard := Heard(Run(ps, start, steps[..k]), steps[k].feedback);
    SentIsUnanswered(heard[i], TtiAt(start, k), steps[k].mcs, steps[k].tbs);
  }

  /** The answers that step `j` hears are not for what was sent less than eight steps before. */
  lemma AnswersAreOld(ps: seq<Proc>, start: nat, steps: seq<Step>, j: nat, k: nat)
    requires AllValid(ps) && j < |steps| && HearsAnswers(ps, start, steps, j) && k < j < k + 8
    ensures forall f | f in steps[j].feedback :: f.tti != TtiTx(TtiAt(start, k))
  {
    forall f | f in steps[j].feedback ensures f.tti != TtiTx(TtiAt(start, k)) {
      NearTtis(start, j - 8, k);
      if f.tti == TtiTx(TtiAt(start, k)) { TtiTxInjective(TtiAt(start, j - 8), TtiAt(start, k)); }
    }
  }

  lemma StandsOneMore(ps: seq<Proc>, start: nat, steps: seq<Step>, j: nat, i: nat, now: nat, t: nat)
    requires AllValid(ps) && i < |ps| && j < |steps| && now == TtiAt(start, j) && t < TTI_PERIOD
    requires 0 < Interval(now, t) < 8 && forall f | f in steps[j].feedback :: f.tti != TtiTx(t)
    requires Unanswered(Run(ps, start, steps[..j])[i], t)
    ensures Unanswered(Run(ps, start, steps[..j + 1])[i], t)
  {
    RunStep(ps, start, steps, j);
    UnansweredStays(Run(ps, start, steps[..j]), now, steps[j], i, t);
  }

  /** When the answer comes, the process that sent stands where it stood after sending. */
  lemma {:induction false} StandsStill(ps: seq<Proc>, start: nat, steps: seq<Step>, k: nat, d: nat)
    requires AllValid(ps) && MayRetransmit(ps) && OnlyAnswers(ps, start, steps) && 0 < d <= 8 && k + d <= |steps|
    requires SentBy(ps, start, steps, k).Some?
    ensures var i := SentBy(ps, start, steps, k).value;
            Unanswered(Run(ps, start, steps[..k + d])[i], TtiAt(start, k))
    decreases d
  {
    if d == 1 {
      StandsAfterSending(ps, start, steps, k);
    } else {
      var j := k + d - 1;
      StandsStill(ps, start, steps, k, d - 1);
      assert HearsAnswers(ps, start, steps, j);
      IntervalOf(start, k, d - 1);
      AnswersAreOld(ps, start, steps, j, k);
      var i := SentBy(ps, start, steps, k).value;
      StandsOneMore(ps, start, steps, j, i, TtiAt(start, j), TtiAt(start, k));
    }
  }

  lemma SameTtiFarApart(start: nat, m: nat, k: nat)
    requires m != k && TtiAt(start, m) == TtiAt(start, k)
    ensures m + TTI_PERIOD <= k || k + TTI_PERIOD <= m
  {
    if m < k < m + TTI_PERIOD { NearTtis(start, m, k); }
    if k < m < k + TTI_PERIOD { NearTtis(start, k, m); }
  }

  /** Step `m` put on record that process `j` sent in TTI `t`, a whole round of the TTI counter before step `k`. */
  ghost predicate RoundBefore(ps: seq<Proc>, start: nat, steps: seq<Step>, j: nat, t: nat, k: nat)
    requires AllValid(ps) && k <= |steps|
  {
    exists m | 0 <= m < k :: m + TTI_PERIOD <= k && SentBy(ps, start, steps, m) == Some(j) && TtiAt(start, m) == t
  }

  /** A process other than the sender that stands at the same TTI is at TTI 0 or has its record from a round before. */
  lemma StandsFromBefore(ps: seq<Proc>, start: nat, steps: seq<Step>, k: nat, j: nat)
    requires AllValid(ps) && Unsent(ps) && k + 8 <= |steps| && SentBy(ps, start, steps, k).Some? && j < |ps|
    requires SentBy(ps, start, steps, k) != Some(j) && TtiAt(start, k) != 0
    requires Run(ps, start, steps[..k + 8])[j].tti == TtiAt(start, k)
    ensures RoundBefore(ps, start, steps, j, TtiAt(start, k), k)
  {
    var m := TtiIsSendTime(ps, start, steps[..k + 8], j);
    assert steps[..k + 8][..m] == steps[..m];
    SameTtiFarApart(start, m, k);
  }

  /** In a run of any length of a user that only answers what it was sent: the answer to step `k`, heard eight steps
      later, updates the process that sent exactly if no process before it stands at the same TTI. If one does, it is
      TTI 0, or that process last sent a whole round of the TTI counter before. */
  lemma AnswerReachesSenderIff(ps: seq<Proc>, start: nat, steps: seq<Step>, k: nat)
    requires AllValid(ps) && Unsent(ps) && MayRetransmit(ps) && OnlyAnswers(ps, start, steps)
    requires k + 8 <= |steps| && SentBy(ps, start, steps, k).Some?
    ensures var p := SentBy(ps, start, steps, k).value;
            var now, t := Run(ps, start, steps[..k + 8]), TtiAt(start, k);
            && (AckTargetFrom(now, 0, TtiTx(t)) == Some(p) <==> forall j | 0 <= j < p :: now[j].tti != t)
            && (forall j | 0 <= j < p && now[j].tti == t :: t == 0 || RoundBefore(ps, start, steps, j, t, k))
  {
    var p := SentBy(ps, start, steps, k).value;
    var now, t := Run(ps, start, steps[..k + 8]), TtiAt(start, k);
    StandsStill(ps, start, steps, k, 8);
    forall j | 0 <= j < |now| ensures TtiTx(now[j].tti) == TtiTx(t) <==> now[j].tti == t {
      if TtiTx(now[j].tti) == TtiTx(t) { TtiTxInjective(now[j].tti, t); }
    }
    forall j | 0 <= j < p && now[j].tti == t ensures t == 0 || RoundBefore(ps, start, steps, j, t, k) {
      if t != 0 { StandsFromBefore(ps, start, steps, k, j); }
    }
  }

  /** No process has been used. */
  predicate AllFresh(ps: seq<Proc>) {
    forall i | 0 <= i < |ps| :: ps[i] == Fresh(ps[i].maxRetx)
  }

  /** A process that no step has chosen is as it was, and processes are taken into use from the first one on. */
  ghost predicate InOrderOfUse(ps: seq<Proc>, start: nat, steps: seq<Step>, n: nat)
    requires AllValid(ps) && n <= |steps|
  {
    && (forall i | 0 <= i < |ps| && !Touched(ps, start, steps, n, i) :: Run(ps, start, steps[..n])[i] == ps[i])
    && (forall p: nat, q: nat | q < p && Touched(ps, start, steps, n, p) :: Touched(ps, start, steps, n, q))
  }

  lemma TouchedStep(ps: seq<Proc>, start: nat, steps: seq<Step>, n: nat, i: nat)
    requires AllValid(ps) && n < |steps|
    ensures Touched(ps, start, steps, n + 1, i)
            <==> Touched(ps, start, steps, n, i) || ChosenBy(ps, start, steps, n) == Some(i)
  {
  }

  /** An answer goes to the process that sent or to one before it. */
  lemma AnswerWithin(ps: seq<Proc>, start: nat, steps: seq<Step>, n: nat)
    requires AllValid(ps) && MayRetransmit(ps) && OnlyAnswers(ps, start, steps) && 8 <= n < |steps|
    requires SentBy(ps, start, steps, n - 8).Some?
    ensures var p := SentBy(ps, start, steps, n - 8).value;
            var target := AckTargetFrom(Run(ps, start, steps[..n]), 0, TtiTx(TtiAt(start, n - 8)));
            target.Some? && target.value <= p && ChosenBy(ps, start, steps, n - 8) == Some(p)
  {
    StandsStill(ps, start, steps, n - 8, 8);
  }

  lemma AnswerToTouched(ps: seq<Proc>, start: nat, steps: seq<Step>, n: nat, i: nat)
    requires AllValid(ps) && MayRetransmit(ps) && OnlyAnswers(ps, start, steps) && 8 <= n < |steps|
    requires SentBy(ps, start, steps, n - 8).Some?
    requires InOrderOfUse(ps, start, steps, n) && !Touched(ps, start, steps, n, i)
    ensures AckTargetFrom(Run(ps, start, steps[..n]), 0, TtiTx(TtiAt(start, n - 8))) != Some(i)
  {
    AnswerWithin(ps, start, steps, n);
    assert Touched(ps, start, steps, n, SentBy(ps, start, steps, n - 8).value);
  }

  /** A process that was never chosen hears nothing. */
  lemma AnswersToTouched(ps: seq<Proc>, start: nat, steps: seq<Step>, n: nat, i: nat)
    requires AllValid(ps) && MayRetransmit(ps) && OnlyAnswers(ps, start, steps) && n < |steps|
    requires InOrderOfUse(ps, start, steps, n) && i < |ps| && !Touched(ps, start, steps, n, i)
    ensures Heard(Run(ps, start, steps[..n]), steps[n].feedback)[i] == ps[i]
  {
    var now := Run(ps, start, steps[..n]);
    assert HearsAnswers(ps, start, steps, n);
    if n >= 8 && SentBy(ps, start, steps, n - 8).Some? { AnswerToTouched(ps, start, steps, n, i); }
    HeardSpares(now, steps[n].feedback, i);
  }

  /** The step that is chosen next keeps the order of use. */
  lemma NextInOrder(ps: seq<Proc>, start: nat, steps: seq<Step>, n: nat, q: nat)
    requires AllValid(ps) && AllFresh(ps) && MayRetransmit(ps) && OnlyAnswers(ps, start, steps) && n < |steps|
    requires InOrderOfUse(ps, start, steps, n)
    requires ChosenBy(ps, start, steps, n).Some? && q < ChosenBy(ps, start, steps, n).value
    ensures Touched(ps, start, steps, n, q)
  {
    var p := ChosenBy(ps, start, steps, n).value;
    var heard := Heard(Run(ps, start, steps[..n]), steps[n].feedback);
    if !Touched(ps, start, steps, n, q) {
      AnswersToTouched(ps, start, steps, n, q);
      if !Touched(ps, start, steps, n, p) { AnswersToTouched(ps, start, steps, n, p); }
      PendingIsOldest(heard, TtiAt(start, n), |heard|);
    }
  }

  lemma {:induction false} UseIsInOrder(ps: seq<Proc>, start: nat, steps: seq<Step>, n: nat)
    requires AllValid(ps) && AllFresh(ps) && MayRetransmit(ps) && OnlyAnswers(ps, start, steps) && n <= |steps|
    ensures InOrderOfUse(ps, start, steps, n)
  {
    if n > 0 {
      UseIsInOrder(ps, start, steps, n - 1);
      RunStep(ps, start, steps, n - 1);
      forall i: nat ensures Touched(ps, start, steps, n, i)
                            <==> Touched(ps, start, steps, n - 1, i) || ChosenBy(ps, start, steps, n - 1) == Some(i)
      {
        TouchedStep(ps, start, steps, n - 1, i);
      }
      forall i | 0 <= i < |ps| && !Touched(ps, start, steps, n, i)
        ensures Run(ps, start, steps[..n])[i] == ps[i]
      {
        AnswersToTouched(ps, start, steps, n - 1, i);
      }
      forall p: nat, q: nat | q < p && Touched(ps, start, steps, n, p) ensures Touched(ps, start, steps, n, q) {
        if ChosenBy(ps, start, steps, n - 1) == Some(p) { NextInOrder(ps, start, steps, n - 1, q); }
      }
    }
  }

  /** If a user only answers what it was sent, what waits for retransmission was chosen before, however feedback is
      routed: the first process that stands at TTI 0 is never behind the one that sent. */
  lemma PendingWasChosen(ps: seq<Proc>, start: nat, steps: seq<Step>, i: nat, now: nat)
    requires AllValid(ps) && AllFresh(ps) && MayRetransmit(ps) && OnlyAnswers(ps, start, steps)
    requires i < |ps| && now < TTI_PERIOD && Run(ps, start, steps)[i].HasPendingRetx(now)
    ensures Touched(ps, start, steps, |steps|, i)
  {
    UseIsInOrder(ps, start, steps, |steps|);
    assert steps[..|steps|] == steps;
  }
}
