/** The lives of downlink blocks over runs of a user that only answers what it was sent: what an answer does to the
    process that sent, and what goes out on it next. A new block is recognized by its new-data indicator. */
module DlLives {
  import opened Tti
  import opened Harq
  import opened DlProcs
  import opened DlRuns

  /** The block has been sent, and was neither acknowledged nor given up. */
  predicate InFlight(b: Block) {
    b.active && !(b.ackReceived && b.ack)
  }

  /** At most one answer arrives in each TTI. */
  predicate SingleAnswers(steps: seq<Step>) {
    forall k | 0 <= k < |steps| :: |steps[k].feedback| <= 1
  }

  /** A user as the lemmas here are about. */
  predicate Proper(ps: seq<Proc>, start: nat, steps: seq<Step>) {
    Format1(ps) && MayRetransmit(ps) && OnlyAnswers(ps, start, steps) && SingleAnswers(steps)
  }

  /** Step `k` sends on process `p`, and no step between it and step `n` chooses that process. */
  predicate NotSince(ps: seq<Proc>, start: nat, steps: seq<Step>, k: nat, p: nat, n: nat)
    requires AllValid(ps)
  {
    && k < n <= |steps| && p < |ps| && SentBy(ps, start, steps, k) == Some(p)
    && forall m | k < m < n :: ChosenBy(ps, start, steps, m) != Some(p)
  }

  /** Process `p` after step `k`. */
  function After1(ps: seq<Proc>, start: nat, steps: seq<Step>, k: nat, p: nat): (q: Proc)
    requires AllValid(ps) && k < |steps| && p < |ps|
    ensures q.Valid()
  {
    Run(ps, start, steps[..k + 1])[p]
  }

  /** The processes after the feedback of step `n`. */
  function HeardAt(ps: seq<Proc>, start: nat, steps: seq<Step>, n: nat): (qs: seq<Proc>)
    requires AllValid(ps) && n < |steps|
    ensures |qs| == |ps| && AllValid(qs)
  {
    Heard(Run(ps, start, steps[..n]), steps[n].feedback)
  }

  /** The answer to what step `k` sent on process `p`, if it is heard eight steps later and reaches that process. */
  function AnswerTo(ps: seq<Proc>, start: nat, steps: seq<Step>, k: nat, p: nat): Option<bool>
    requires AllValid(ps)
  {
    if k + 8 < |steps| && |steps[k + 8].feedback| == 1
       && AckTargetFrom(Run(ps, start, steps[..k + 8]), 0, steps[k + 8].feedback[0].tti) == Some(p)
    then Some(steps[k + 8].feedback[0].ack)
    else None
  }

  /** The answer ends the block: it is positive, or the block has been sent as often as it may. */
  predicate Ended(ps: seq<Proc>, start: nat, steps: seq<Step>, k: nat, p: nat)
    requires AllValid(ps) && k < |steps| && p < |ps|
  {
    var answer, sent := AnswerTo(ps, start, steps, k, p), After1(ps, start, steps, k, p);
    answer.Some? && (answer.value || sent.tb0.nRtx + 1 >= sent.maxRetx)
  }

  /** Process `p` after the answer to step `k`. */
  function Answered(ps: seq<Proc>, start: nat, steps: seq<Step>, k: nat, p: nat): (q: Proc)
    requires AllValid(ps) && k < |steps| && p < |ps|
  {
    var answer, sent := AnswerTo(ps, start, steps, k, p), After1(ps, start, steps, k, p);
    if answer.Some? then sent.SetAck(0, answer.value) else sent
  }

  lemma AnsweredIs(ps: seq<Proc>, start: nat, steps: seq<Step>, k: nat, p: nat)
    requires Proper(ps, start, steps) && k < |steps| && p < |ps| && SentBy(ps, start, steps, k) == Some(p)
    ensures Unanswered(After1(ps, start, steps, k, p), TtiAt(start, k))
    ensures InFlight(Answered(ps, start, steps, k, p).tb0) <==> !Ended(ps, start, steps, k, p)
  {
    StandsAfterSending(ps, start, steps, k);
  }

  /** The block is gone: the process was reset, which keeps the new-data indicator. */
  predicate Gone(q: Proc, ndi: bool) {
    q.tti == 0 && !q.tb0.active && q.tb0.ndi == ndi
  }

  predicate SentAt(ps: seq<Proc>, start: nat, steps: seq<Step>, k: nat, p: nat)
    requires AllValid(ps)
  {
    k < |steps| && p < |ps| && SentBy(ps, start, steps, k) == Some(p)
  }

  lemma LeftAlone(ps: seq<Proc>, start: nat, steps: seq<Step>, j: nat, p: nat, now: nat, t: nat)
    requires AllValid(ps) && p < |ps| && j < |steps| && now == TtiAt(start, j) && t < TTI_PERIOD
    requires 0 < Interval(now, t) < 8 && forall f | f in steps[j].feedback :: f.tti != TtiTx(t)
    requires Unanswered(Run(ps, start, steps[..j])[p], t)
    ensures Run(ps, start, steps[..j + 1])[p] == Run(ps, start, steps[..j])[p]
  {
    RunStep(ps, start, steps, j);
    UnansweredStays(Run(ps, start, steps[..j]), now, steps[j], p, t);
  }

  /** Before its answer a process stands as it was sent on. */
  lemma {:induction false} BeforeAnswer(ps: seq<Proc>, start: nat, steps: seq<Step>, k: nat, p: nat, d: nat)
    requires Proper(ps, start, steps) && SentAt(ps, start, steps, k, p) && 0 < d <= 8 && k + d <= |steps|
    ensures Run(ps, start, steps[..k + d])[p] == After1(ps, start, steps, k, p)
  {
    if d > 1 {
      var j := k + d - 1;
      BeforeAnswer(ps, start, steps, k, p, d - 1);
      StandsAfterSending(ps, start, steps, k);
      assert HearsAnswers(ps, start, steps, j);
      IntervalOf(start, k, d - 1);
      AnswersAreOld(ps, start, steps, j, k);
      LeftAlone(ps, start, steps, j, p, TtiAt(start, j), TtiAt(start, k));
    }
  }

  lemma HeardSingle(ps: seq<Proc>, fb: seq<Feedback>)
    requires |fb| <= 1
    ensures Heard(ps, fb) == if |fb| == 0 then ps else SetAckInfo(ps, fb[0].tti, 0, fb[0].ack)
  {
    if |fb| == 1 { assert fb[..0] == []; }
  }

  /** The process hears its answer. */
  lemma HearsAnswer(ps: seq<Proc>, start: nat, steps: seq<Step>, k: nat, p: nat)
    requires Proper(ps, start, steps) && SentAt(ps, start, steps, k, p) && k + 8 < |steps|
    ensures HeardAt(ps, start, steps, k + 8)[p] == Answered(ps, start, steps, k, p)
  {
    BeforeAnswer(ps, start, steps, k, p, 8);
    HeardSingle(Run(ps, start, steps[..k + 8]), steps[k + 8].feedback);
  }

  /** Answers for other TTIs leave a process alone that still stands at its own, and do not bring a block back. */
  lemma HearsOther(qs: seq<Proc>, fb: seq<Feedback>, p: nat, t: nat, u: nat)
    requires AllValid(qs) && p < |qs| && |fb| <= 1 && t < TTI_PERIOD && u < TTI_PERIOD && t != u
    requires forall f | f in fb :: f.tti == TtiTx(u)
    ensures qs[p].tti == t ==> Heard(qs, fb)[p] == qs[p]
    ensures forall ndi | Gone(qs[p], ndi) :: Gone(Heard(qs, fb)[p], ndi)
  {
    HeardSingle(qs, fb);
    if |fb| == 1 {
      assert fb[0] in fb;
      if TtiTx(t) == TtiTx(u) { TtiTxInjective(t, u); }
    }
  }

  /** A step that does not choose process `p`. */
  lemma NotChosen(ps: seq<Proc>, start: nat, steps: seq<Step>, n: nat, p: nat)
    requires Format1(ps) && n < |steps| && p < |ps| && ChosenBy(ps, start, steps, n) != Some(p)
    ensures Run(ps, start, steps[..n + 1])[p] == Timeout(HeardAt(ps, start, steps, n)[p], TtiAt(start, n))
  {
    RunStep(ps, start, steps, n);
  }

  lemma Format1At(ps: seq<Proc>, start: nat, steps: seq<Step>, n: nat)
    requires Format1(ps) && n < |steps|
    ensures Format1(HeardAt(ps, start, steps, n))
  {
    RetxBounded(ps, start, steps[..n]);
    HeardKeeps(Run(ps, start, steps[..n]), steps[n].feedback);
  }

  /** A process of age `d` stands as its answer left it, until a block in flight is too old. */
  predicate Right(answered: Proc, q: Proc, d: nat) {
    if InFlight(answered.tb0) && d > TIMEOUT_MS + 1 then Gone(q, answered.tb0.ndi) else q == answered
  }

  lemma AgeOf(start: nat, k: nat, n: nat)
    requires k <= n < k + TTI_PERIOD
    ensures Interval(TtiAt(start, n), TtiAt(start, k)) == n - k
  {
    IntervalOf(start, k, n - k);
  }

  lemma RightAfterTimeout(heard: Proc, answered: Proc, d: nat, now: nat)
    requires Format1Proc(heard) && answered.Valid() && now < TTI_PERIOD && Right(answered, heard, d)
    requires InFlight(answered.tb0) && d <= TIMEOUT_MS + 1 ==> Interval(now, answered.tti) == d
    ensures Right(answered, Timeout(heard, now), d + 1)
  {
  }

  lemma AnswersOther(ps: seq<Proc>, start: nat, steps: seq<Step>, k: nat, n: nat, t: nat) returns (u: nat)
    requires AllValid(ps) && n < |steps| && HearsAnswers(ps, start, steps, n)
    requires k + 8 < n < k + 8 + TTI_PERIOD && t == TtiAt(start, k)
    ensures u < TTI_PERIOD && u != t && forall f | f in steps[n].feedback :: f.tti == TtiTx(u)
  {
    NearTtis(start, k, n - 8);
    u := TtiAt(start, n - 8);
  }

  lemma RightAfterFeedback(qs: seq<Proc>, fb: seq<Feedback>, p: nat, d: nat, answered: Proc, u: nat)
    requires AllValid(qs) && p < |qs| && |fb| <= 1 && answered.tti < TTI_PERIOD && u < TTI_PERIOD
    requires answered.tti != u && forall f | f in fb :: f.tti == TtiTx(u)
    requires Right(answered, qs[p], d)
    ensures Right(answered, Heard(qs, fb)[p], d)
  {
    HearsOther(qs, fb, p, answered.tti, u);
  }

  /** One step that does not choose the process. */
  lemma RightNext(ps: seq<Proc>, start: nat, steps: seq<Step>, k: nat, p: nat, n: nat, answered: Proc)
    requires Proper(ps, start, steps) && k + 8 <= n && n + 1 < |steps| && n + 1 < k + 8 + TTI_PERIOD
    requires SentAt(ps, start, steps, k, p) && ChosenBy(ps, start, steps, n) != Some(p)
    requires answered == Answered(ps, start, steps, k, p)
    requires Right(answered, HeardAt(ps, start, steps, n)[p], n - k)
    ensures Right(answered, HeardAt(ps, start, steps, n + 1)[p], n + 1 - k)
  {
    AnsweredIs(ps, start, steps, k, p);
    Format1At(ps, start, steps, n);
    if n < k + TTI_PERIOD { AgeOf(start, k, n); }
    RightAfterTimeout(HeardAt(ps, start, steps, n)[p], answered, n - k, TtiAt(start, n));
    NotChosen(ps, start, steps, n, p);
    var u := AnswersOther(ps, start, steps, k, n + 1, answered.tti);
    RightAfterFeedback(Run(ps, start, steps[..n + 1]), steps[n + 1].feedback, p, n + 1 - k, answered, u);
  }

  /** From its answer on, as long as it is not chosen again. */
  lemma RightSince(ps: seq<Proc>, start: nat, steps: seq<Step>, k: nat, p: nat, n: nat,
                   answered: Proc)
    requires Proper(ps, start, steps) && NotSince(ps, start, steps, k, p, n)
    requires k + 8 <= n < |steps| && n < k + 8 + TTI_PERIOD
    requires answered == Answered(ps, start, steps, k, p)
    ensures Right(answered, HeardAt(ps, start, steps, n)[p], n - k)
  {
    HearsAnswer(ps, start, steps, k, p);
    for m := k + 8 to n
      invariant Right(answered, HeardAt(ps, start, steps, m)[p], m - k)
    {
      RightNext(ps, start, steps, k, p, m, answered);
    }
  }

  // ---- What is chosen

  lemma NotChosenYoung(qs: seq<Proc>, fb: seq<Feedback>, p: nat, t: nat, now: nat, pick: Pick)
    requires AllValid(qs) && p < |qs| && t < TTI_PERIOD && now < TTI_PERIOD && Unanswered(qs[p], t)
    requires 0 < Interval(now, t) < 8 && forall f | f in fb :: f.tti != TtiTx(t)
    ensures Chosen(Heard(qs, fb), now, pick) != Some(p)
  {
    HeardSpares(qs, fb, p);
    PendingIsOldest(Heard(qs, fb), now, |qs|);
  }

  /** Nothing goes out on a process before the answer. */
  lemma EarlyNotChosen(ps: seq<Proc>, start: nat, steps: seq<Step>, k: nat, p: nat, n: nat)
    requires Proper(ps, start, steps) && SentAt(ps, start, steps, k, p) && k < n < k + 8 && n < |steps|
    ensures ChosenBy(ps, start, steps, n) != Some(p)
  {
    var qs, t := Run(ps, start, steps[..n]), TtiAt(start, k);
    BeforeAnswer(ps, start, steps, k, p, n - k);
    StandsAfterSending(ps, start, steps, k);
    AgeOf(start, k, n);
    assert HearsAnswers(ps, start, steps, n);
    AnswersAreOld(ps, start, steps, n, k);
    NotChosenYoung(qs, steps[n].feedback, p, t, TtiAt(start, n), steps[n].pick);
  }

  /** Block 0 decides whether a process is free. */
  lemma FreeIff(q: Proc)
    requires Format1Proc(q)
    ensures q.BothEmpty() <==> !InFlight(q.tb0)
  {
  }

  /** A positive answer, or the last one, frees the process: from then on there is a free process, this one or one
      before it, until this one is chosen. It is chosen for new data exactly if all processes before it are in
      flight. */
  lemma AnswerFrees(ps: seq<Proc>, start: nat, steps: seq<Step>, k: nat, p: nat, n: nat)
    requires Proper(ps, start, steps) && NotSince(ps, start, steps, k, p, n) && Ended(ps, start, steps, k, p)
    requires k + 8 <= n < |steps| && n < k + 8 + TTI_PERIOD
    ensures var qs := HeardAt(ps, start, steps, n);
            && FirstEmptyFrom(qs, 0).Some? && FirstEmptyFrom(qs, 0).value <= p
            && (steps[n].pick == FirstEmpty ==>
                  (ChosenBy(ps, start, steps, n) == Some(p) <==> forall j | 0 <= j < p :: InFlight(qs[j].tb0)))
  {
    var qs := HeardAt(ps, start, steps, n);
    AnsweredIs(ps, start, steps, k, p);
    RightSince(ps, start, steps, k, p, n, Answered(ps, start, steps, k, p));
    Format1At(ps, start, steps, n);
    forall j | 0 <= j < |qs| ensures qs[j].BothEmpty() <==> !InFlight(qs[j].tb0) { FreeIff(qs[j]); }
  }

  /** Who was refused below its limit and is old enough waits, and the oldest one that waits is chosen. */
  lemma WaitsIfRefused(qs: seq<Proc>, p: nat, now: nat)
    requires AllValid(qs) && p < |qs| && now < TTI_PERIOD
    ensures !qs[p].tb0.ack && qs[p].tb0.nRtx < qs[p].maxRetx && Interval(now, qs[p].tti) >= 8 ==>
              match Pending(qs, now)
              case None => false
              case Some(q) => Interval(now, qs[q].tti) >= Interval(now, qs[p].tti)
  {
    PendingIsOldest(qs, now, |qs|);
  }

  /** After a negative answer below the limit, or without an answer, the process is in flight until it is too old: it is
      not chosen for new data. After a negative answer it waits for a retransmission, and the process that is chosen for
      one is at least as old. */
  lemma AnswerKeeps(ps: seq<Proc>, start: nat, steps: seq<Step>, k: nat, p: nat, n: nat)
    requires Proper(ps, start, steps) && NotSince(ps, start, steps, k, p, n) && !Ended(ps, start, steps, k, p)
    requires k + 8 <= n < |steps| && n <= k + TIMEOUT_MS + 1
    ensures var qs, now := HeardAt(ps, start, steps, n), TtiAt(start, n);
            && InFlight(qs[p].tb0) && (ChosenBy(ps, start, steps, n) == Some(p) ==> steps[n].pick == OldestRetx)
            && (AnswerTo(ps, start, steps, k, p).Some? && steps[n].pick == OldestRetx ==>
                  match ChosenBy(ps, start, steps, n)
                  case None => false
                  case Some(q) => Interval(now, qs[q].tti) >= n - k)
  {
    var qs, now := HeardAt(ps, start, steps, n), TtiAt(start, n);
    AnsweredIs(ps, start, steps, k, p);
    RightSince(ps, start, steps, k, p, n, Answered(ps, start, steps, k, p));
    RetxBounded(ps, start, steps[..k + 1]);
    Format1At(ps, start, steps, n);
    FreeIff(qs[p]);
    AgeOf(start, k, n);
    WaitsIfRefused(qs, p, now);
  }

  // ---- What goes out next

  /** Step `j` sends a new block on process `p`: the new-data indicator changes. */
  predicate NewData(ps: seq<Proc>, start: nat, steps: seq<Step>, j: nat, p: nat)
    requires AllValid(ps) && j < |steps| && p < |ps|
  {
    After1(ps, start, steps, j, p).tb0.ndi != Run(ps, start, steps[..j])[p].tb0.ndi
  }

  lemma {:induction false} FeedbackKeepsNdi(ps: seq<Proc>, fb: seq<Feedback>, p: nat)
    requires p < |ps|
    ensures Heard(ps, fb)[p].tb0.ndi == ps[p].tb0.ndi
  {
    if |fb| > 0 { FeedbackKeepsNdi(ps, fb[..|fb| - 1], p); }
  }

  /** A block in flight is chosen only if it was refused. */
  lemma RepeatsRefused(ps: seq<Proc>, start: nat, steps: seq<Step>, j: nat, p: nat)
    requires Format1(ps) && SentAt(ps, start, steps, j, p) && InFlight(HeardAt(ps, start, steps, j)[p].tb0)
    ensures !HeardAt(ps, start, steps, j)[p].tb0.ack
  {
    Format1At(ps, start, steps, j);
    FreeIff(HeardAt(ps, start, steps, j)[p]);
    PendingIsOldest(HeardAt(ps, start, steps, j), TtiAt(start, j), |ps|);
  }

  /** What a step does to the process it sends on: a block in flight is repeated with its MCS and size, everything else
      is a new block with its own. */
  lemma SendIs(ps: seq<Proc>, start: nat, steps: seq<Step>, j: nat, p: nat)
    requires Format1(ps) && MayRetransmit(ps) && SentAt(ps, start, steps, j, p)
    ensures var was, b := HeardAt(ps, start, steps, j)[p].tb0, After1(ps, start, steps, j, p).tb0;
            && (NewData(ps, start, steps, j, p) <==> !InFlight(was))
            && (NewData(ps, start, steps, j, p) ==>
                  b.nRtx == 0 && b.txCnt == 1 && b.lastMcs == steps[j].mcs && b.lastTbs == steps[j].tbs)
            && (!NewData(ps, start, steps, j, p) ==>
                  && b.nRtx == was.nRtx + 1 && b.txCnt == was.txCnt
                  && b.lastMcs == was.lastMcs && b.lastTbs == was.lastTbs)
            && (b.ack <==> b.nRtx == 0)
  {
    RunStep(ps, start, steps, j);
    FeedbackKeepsNdi(Run(ps, start, steps[..j]), steps[j].feedback, p);
    Format1At(ps, start, steps, j);
    if InFlight(HeardAt(ps, start, steps, j)[p].tb0) { RepeatsRefused(ps, start, steps, j, p); }
  }

  /** A block with a limit of zero is not in flight at all: its process is free as soon as it has sent. */
  lemma FreeAtOnceIff(ps: seq<Proc>, start: nat, steps: seq<Step>, j: nat, p: nat)
    requires Format1(ps) && SentAt(ps, start, steps, j, p) && !InFlight(HeardAt(ps, start, steps, j)[p].tb0)
    ensures InFlight(After1(ps, start, steps, j, p).tb0) <==> ps[p].maxRetx > 0
  {
    RunStep(ps, start, steps, j);
    MaxRetxStays(ps, start, steps[..j + 1], p);
  }

  /** What goes out next on a process after step `k` sent on it, in step `j`: not before the answer. It is a new block
      exactly if the answer was positive or the block had been sent as often as it may, or if the block was too old.
      Else it is the same block once more, with its MCS and size. If the answer never came, that happens to a block that
      was sent again only; a block that was sent once waits until it is too old. */
  lemma NextSend(ps: seq<Proc>, start: nat, steps: seq<Step>, k: nat, p: nat, j: nat)
    requires Proper(ps, start, steps) && NotSince(ps, start, steps, k, p, j) && SentAt(ps, start, steps, j, p)
    requires j < k + 8 + TTI_PERIOD
    ensures j >= k + 8
    ensures NewData(ps, start, steps, j, p) <==> Ended(ps, start, steps, k, p) || j > k + TIMEOUT_MS + 1
    ensures !NewData(ps, start, steps, j, p) ==>
              var b, c := After1(ps, start, steps, k, p).tb0, After1(ps, start, steps, j, p).tb0;
              c.lastMcs == b.lastMcs && c.lastTbs == b.lastTbs && c.nRtx == b.nRtx + 1
    ensures AnswerTo(ps, start, steps, k, p).None? && After1(ps, start, steps, k, p).tb0.nRtx == 0 ==>
              j > k + TIMEOUT_MS + 1
  {
    if j < k + 8 { EarlyNotChosen(ps, start, steps, k, p, j); }
    AnsweredIs(ps, start, steps, k, p);
    RightSince(ps, start, steps, k, p, j, Answered(ps, start, steps, k, p));
    SendIs(ps, start, steps, j, p);
    SendIs(ps, start, steps, k, p);
    if j <= k + TIMEOUT_MS + 1 && !Ended(ps, start, steps, k, p) { RepeatsRefused(ps, start, steps, j, p); }
  }

  // ---- Whether anything was sent yet

  /** Step `m` resets the process: its grant finds no DCI, or its block is too old. */
  predicate ResetIn(ps: seq<Proc>, start: nat, steps: seq<Step>, m: nat, p: nat)
    requires AllValid(ps) && m < |steps| && p < |ps|
  {
    var q := HeardAt(ps, start, steps, m)[p];
    if ChosenBy(ps, start, steps, m) == Some(p) then !steps[m].dci
    else InFlight(q.tb0) && Interval(TtiAt(start, m), q.tti) > TIMEOUT_MS
  }

  /** Before step `n` something was sent on the process and it has not been reset since. */
  predicate SentSince(ps: seq<Proc>, start: nat, steps: seq<Step>, n: nat, p: nat)
    requires AllValid(ps) && n <= |steps| && p < |ps|
  {
    && n > 0
    && (SentBy(ps, start, steps, n - 1) == Some(p)
        || (!ResetIn(ps, start, steps, n - 1, p) && SentSince(ps, start, steps, n - 1, p)))
  }

  lemma {:induction false} FeedbackKeepsCount(ps: seq<Proc>, fb: seq<Feedback>, p: nat)
    requires p < |ps|
    ensures Heard(ps, fb)[p].tb0.txCnt == ps[p].tb0.txCnt
  {
    if |fb| > 0 { FeedbackKeepsCount(ps, fb[..|fb| - 1], p); }
  }

  /** The block counts what was sent, and only what was sent is in flight. */
  predicate Counts(b: Block, sent: bool) {
    (b.txCnt > 0 <==> sent) && (b.active ==> sent)
  }

  lemma CountNext(ps: seq<Proc>, start: nat, steps: seq<Step>, n: nat, p: nat, sent: bool)
    requires Format1(ps) && n < |steps| && p < |ps| && Counts(Run(ps, start, steps[..n])[p].tb0, sent)
    ensures Counts(Run(ps, start, steps[..n + 1])[p].tb0,
                   SentBy(ps, start, steps, n) == Some(p) || (!ResetIn(ps, start, steps, n, p) && sent))
  {
    RunStep(ps, start, steps, n);
    RetxBounded(ps, start, steps[..n]);
    HeardKeeps(Run(ps, start, steps[..n]), steps[n].feedback);
    FeedbackKeepsCount(Run(ps, start, steps[..n]), steps[n].feedback, p);
    FreeIff(HeardAt(ps, start, steps, n)[p]);
  }

  lemma {:induction false} CountsSends(ps: seq<Proc>, start: nat, steps: seq<Step>, n: nat, p: nat)
    requires Format1(ps) && AllFresh(ps) && n <= |steps| && p < |ps|
    ensures Counts(Run(ps, start, steps[..n])[p].tb0, SentSince(ps, start, steps, n, p))
  {
    if n == 0 {
      assert ps[p] == Fresh(ps[p].maxRetx);
    } else {
      CountsSends(ps, start, steps, n - 1, p);
      CountNext(ps, start, steps, n - 1, p, SentSince(ps, start, steps, n - 1, p));
    }
  }
}
