/** Runs in which the feedback of a user goes astray, although the user only answers what it was sent. */
module DlExamples {
  import opened Tti
  import opened Harq
  import opened DlProcs
  import opened DlRuns

  /** Process 0 and process 1 of eight stand like this, and the others are unused. */
  predicate TwoInUse(ps: seq<Proc>, p: Proc, q: Proc, maxRetx: nat) {
    |ps| == 8 && ps[0] == p && ps[1] == q && forall i | 2 <= i < 8 :: ps[i] == Fresh(maxRetx)
  }

  function FirstSend(maxRetx: nat, now: nat): Proc {
    Fresh(maxRetx).NewTx(0, now, 10, 100)
  }

  function Nacked(maxRetx: nat, now: nat): Proc {
    FirstSend(maxRetx, now).SetAck(0, false)
  }

  /** The process after a retransmission without a DCI. */
  function Lost(maxRetx: nat): Proc {
    Nacked(maxRetx, 10231).ResetBoth()
  }

  function First(): Step {
    Step([], FirstEmpty, true, 10, 100)
  }

  function Idle(): Step {
    Step([], Nobody, false, 0, 0)
  }

  /** The oldest block is to be sent again, and a negative acknowledgment arrives just before. */
  function Retx(tti: nat, dci: bool): Step {
    Step([Feedback(tti, false)], OldestRetx, dci, 0, 0)
  }

  /** From TTI 10231 on: two new blocks, and the user reports that it got neither. The first block is to be sent again
      in TTI 10239 and finds no DCI, the second one is sent again in TTI 0. */
  function Astray(): seq<Step> {
    [First(), First(), Idle(), Idle(), Idle(), Idle(), Idle(), Idle(), Retx(10235, false), Retx(10236, true)]
  }

  function Eight(maxRetx: nat): (ps: seq<Proc>)
    ensures |ps| == 8 && AllValid(ps) && Unsent(ps) && forall i | 0 <= i < 8 :: ps[i] == Fresh(maxRetx)
  {
    seq(8, _ => Fresh(maxRetx))
  }

  /** After `k` steps the first two processes are these. */
  predicate StandsAt(maxRetx: nat, start: nat, steps: seq<Step>, k: nat, p: Proc, q: Proc)
    requires k <= |steps|
  {
    TwoInUse(Run(Eight(maxRetx), start, steps[..k]), p, q, maxRetx)
  }

  /** Nothing is sent, and nothing is too old. */
  lemma IdleAfter(ps: seq<Proc>, p: Proc, q: Proc, maxRetx: nat, now: nat)
    requires AllValid(ps) && TwoInUse(ps, p, q, maxRetx) && now < TTI_PERIOD
    requires p.BothEmpty() || Interval(now, p.tti) <= TIMEOUT_MS
    requires q.BothEmpty() || Interval(now, q.tti) <= TIMEOUT_MS
    ensures TwoInUse(After(ps, now, Idle()), p, q, maxRetx)
  {
    assert Heard(ps, []) == ps;
  }

  lemma HeardOne(ps: seq<Proc>, p: Proc, q: Proc, maxRetx: nat, f: Feedback)
    requires AllValid(ps) && TwoInUse(ps, p, q, maxRetx) && (TtiTx(p.tti) == f.tti || TtiTx(q.tti) == f.tti)
    ensures TwoInUse(Heard(ps, [f]), if TtiTx(p.tti) == f.tti then p.SetAck(0, f.ack) else p,
                     if TtiTx(p.tti) == f.tti then q else q.SetAck(0, f.ack), maxRetx)
  {
    assert [f][..0] == [];
    assert Heard(ps, []) == ps;
    assert AckTargetFrom(ps, 0, f.tti) == Some(if TtiTx(p.tti) == f.tti then 0 else 1);
  }

  lemma FirstAfter(ps: seq<Proc>, p: Proc, maxRetx: nat, now: nat)
    requires AllValid(ps) && now < TTI_PERIOD && TwoInUse(ps, p, Fresh(maxRetx), maxRetx)
    requires p == Fresh(maxRetx) || (!p.BothEmpty() && Interval(now, p.tti) <= TIMEOUT_MS)
    ensures Chosen(Heard(ps, []), now, FirstEmpty) == Some(if p == Fresh(maxRetx) then 0 else 1)
    ensures if p == Fresh(maxRetx) then TwoInUse(After(ps, now, First()), FirstSend(maxRetx, now), p, maxRetx)
            else TwoInUse(After(ps, now, First()), p, FirstSend(maxRetx, now), maxRetx)
  {
    assert Heard(ps, []) == ps;
    assert FirstEmptyFrom(ps, 0) == Some(if p == Fresh(maxRetx) then 0 else 1);
  }

  /** The process `i` is the only one with a pending retransmission. */
  lemma OnlyPending(ps: seq<Proc>, now: nat, i: nat)
    requires AllValid(ps) && now < TTI_PERIOD && i < |ps| && ps[i].HasPendingRetx(now)
    requires forall j | 0 <= j < |ps| && j != i :: !ps[j].HasPendingRetx(now)
    ensures Pending(ps, now) == Some(i)
  {
    PendingIsOldest(ps, now, |ps|);
  }

  lemma LostAfter(ps: seq<Proc>, maxRetx: nat)
    requires AllValid(ps) && maxRetx > 1
    requires TwoInUse(ps, FirstSend(maxRetx, 10231), FirstSend(maxRetx, 10232), maxRetx)
    ensures TwoInUse(After(ps, 10239, Retx(10235, false)), Lost(maxRetx), FirstSend(maxRetx, 10232), maxRetx)
  {
    HeardOne(ps, FirstSend(maxRetx, 10231), FirstSend(maxRetx, 10232), maxRetx, Feedback(10235, false));
    OnlyPending(Heard(ps, [Feedback(10235, false)]), 10239, 0);
  }

  lemma RetxAfter(ps: seq<Proc>, maxRetx: nat)
    requires AllValid(ps) && maxRetx > 1 && TwoInUse(ps, Lost(maxRetx), FirstSend(maxRetx, 10232), maxRetx)
    ensures Chosen(Heard(ps, [Feedback(10236, false)]), 0, OldestRetx) == Some(1)
    ensures TwoInUse(After(ps, 0, Retx(10236, true)), Lost(maxRetx), Nacked(maxRetx, 10232).NewRetx(0, 0), maxRetx)
  {
    HeardOne(ps, Lost(maxRetx), FirstSend(maxRetx, 10232), maxRetx, Feedback(10236, false));
    OnlyPending(Heard(ps, [Feedback(10236, false)]), 0, 1);
  }

  /** Soon after the first two blocks were sent nothing is too old. */
  lemma IdleStep(maxRetx: nat, start: nat, steps: seq<Step>, k: nat)
    requires 2 <= k < 8 && k < |steps| && steps[k] == Idle()
    requires StandsAt(maxRetx, start, steps, k, FirstSend(maxRetx, TtiAt(start, 0)),
                      FirstSend(maxRetx, TtiAt(start, 1)))
    ensures StandsAt(maxRetx, start, steps, k + 1, FirstSend(maxRetx, TtiAt(start, 0)),
                     FirstSend(maxRetx, TtiAt(start, 1)))
  {
    RunStep(Eight(maxRetx), start, steps, k);
    IntervalOf(start, 0, k);
    IntervalOf(start, 1, k - 1);
    IdleAfter(Run(Eight(maxRetx), start, steps[..k]), FirstSend(maxRetx, TtiAt(start, 0)),
              FirstSend(maxRetx, TtiAt(start, 1)), maxRetx, TtiAt(start, k));
  }

  /** Two new blocks, and then nothing for some steps. */
  lemma FirstSteps(maxRetx: nat, start: nat, steps: seq<Step>)
    requires maxRetx > 0 && |steps| >= 8 && steps[0] == steps[1] == First()
    requires forall k | 2 <= k < 8 :: steps[k] == Idle()
    ensures SentBy(Eight(maxRetx), start, steps, 0) == Some(0) && SentBy(Eight(maxRetx), start, steps, 1) == Some(1)
    ensures StandsAt(maxRetx, start, steps, 8, FirstSend(maxRetx, TtiAt(start, 0)), FirstSend(maxRetx, TtiAt(start, 1)))
  {
    var ps, p := Eight(maxRetx), FirstSend(maxRetx, TtiAt(start, 0));
    assert Run(ps, start, steps[..0]) == ps;
    RunStep(ps, start, steps, 0);
    FirstAfter(ps, Fresh(maxRetx), maxRetx, TtiAt(start, 0));
    RunStep(ps, start, steps, 1);
    IntervalOf(start, 0, 1);
    FirstAfter(Run(ps, start, steps[..1]), p, maxRetx, TtiAt(start, 1));
    for k := 2 to 8
      invariant StandsAt(maxRetx, start, steps, k, p, FirstSend(maxRetx, TtiAt(start, 1)))
    {
      IdleStep(maxRetx, start, steps, k);
    }
  }

  /** One retransmission without a DCI, one with. */
  lemma LastSteps(maxRetx: nat, steps: seq<Step>)
    requires maxRetx > 1 && |steps| == 10 && steps[8] == Retx(10235, false) && steps[9] == Retx(10236, true)
    requires StandsAt(maxRetx, 10231, steps, 8, FirstSend(maxRetx, 10231), FirstSend(maxRetx, 10232))
    ensures SentBy(Eight(maxRetx), 10231, steps, 9) == Some(1)
    ensures TwoInUse(Run(Eight(maxRetx), 10231, steps), Lost(maxRetx), Nacked(maxRetx, 10232).NewRetx(0, 0), maxRetx)
  {
    var ps := Eight(maxRetx);
    RunStep(ps, 10231, steps, 8);
    LostAfter(Run(ps, 10231, steps[..8]), maxRetx);
    RunStep(ps, 10231, steps, 9);
    RetxAfter(Run(ps, 10231, steps[..9]), maxRetx);
    assert steps[..10] == steps;
  }

  /** Both reports come eight steps after what they answer. */
  lemma AstrayAnswers(maxRetx: nat, steps: seq<Step>)
    requires |steps| == 10 && forall k | 0 <= k < 8 :: steps[k].feedback == []
    requires SentBy(Eight(maxRetx), 10231, steps, 0).Some? && SentBy(Eight(maxRetx), 10231, steps, 1).Some?
    requires steps[8] == Retx(10235, false) && steps[9] == Retx(10236, true)
    ensures OnlyAnswers(Eight(maxRetx), 10231, steps)
  {
    forall k | 0 <= k < 10 ensures HearsAnswers(Eight(maxRetx), 10231, steps, k) {
      if k < 8 { assert steps[k].feedback == []; }
    }
  }

  lemma RunAstray(maxRetx: nat, steps: seq<Step>)
    requires maxRetx > 1 && |steps| == 10 && steps[0] == steps[1] == First()
    requires forall k | 2 <= k < 8 :: steps[k] == Idle()
    requires steps[8] == Retx(10235, false) && steps[9] == Retx(10236, true)
    ensures OnlyAnswers(Eight(maxRetx), 10231, steps) && SentBy(Eight(maxRetx), 10231, steps, 9) == Some(1)
    ensures TwoInUse(Run(Eight(maxRetx), 10231, steps), Lost(maxRetx), Nacked(maxRetx, 10232).NewRetx(0, 0), maxRetx)
  {
    FirstSteps(maxRetx, 10231, steps);
    assert TtiAt(10231, 0) == 10231 && TtiAt(10231, 1) == 10232;
    LastSteps(maxRetx, steps);
    AstrayAnswers(maxRetx, steps);
  }

  /** The user only answers what it was sent. Process 1 sends in TTI 0, and its feedback is credited to process 0, which
      was reset: even if the block arrived, process 1 asks for another retransmission. */
  lemma AstrayExample(maxRetx: nat, ack: bool)
    requires maxRetx > 1
    ensures var now := Run(Eight(maxRetx), 10231, Astray());
            var after := SetAckInfo(now, TtiTx(0), 0, ack);
            && OnlyAnswers(Eight(maxRetx), 10231, Astray())
            && SentBy(Eight(maxRetx), 10231, Astray(), 9) == Some(1) && TtiAt(10231, 9) == 0 && now[1].tti == 0
            && AckTargetFrom(now, 0, TtiTx(0)) == Some(0) && after[1] == now[1] && AllValid(after)
            && after[1].HasPendingRetx(8)
  {
    RunAstray(maxRetx, Astray());
    ZeroGoesToFirst(Run(Eight(maxRetx), 10231, Astray()), 0);
  }

  // ---- A round of the TTI counter later

  function Hears(tti: nat, ack: bool): Step {
    Step([Feedback(tti, ack)], Nobody, false, 0, 0)
  }

  /** Process 0 sends and is acknowledged; process 1 sends and has the only transmission that it may have refused. For a
      whole round of the TTI counter the user then gets nothing, until process 1 is served. */
  function Round(start: nat): (steps: seq<Step>)
    ensures |steps| == TTI_PERIOD + 1
  {
    seq(TTI_PERIOD + 1, k =>
      if k < 2 then First()
      else if k == 8 then Hears(TtiTx(TtiAt(start, 0)), true)
      else if k == 9 then Hears(TtiTx(TtiAt(start, 1)), false)
      else if k == TTI_PERIOD then Step([], OldestRetx, true, 10, 100)
      else Idle())
  }

  /** The process after its only transmission in TTI `now`. */
  function Over(now: nat, ack: bool): (p: Proc)
    requires now < TTI_PERIOD
    ensures p.Valid() && p.BothEmpty() && p.tti == now && p.tb0.ack == ack && p.tb1 == Fresh(1).tb1
  {
    FirstSend(1, now).SetAck(0, ack)
  }

  /** An acknowledgment for one process and nothing else. */
  lemma HearsAfter(ps: seq<Proc>, p: Proc, q: Proc, now: nat, f: Feedback)
    requires AllValid(ps) && TwoInUse(ps, p, q, 1) && now < TTI_PERIOD
    requires Interval(now, p.tti) <= TIMEOUT_MS && Interval(now, q.tti) <= TIMEOUT_MS
    requires TtiTx(p.tti) == f.tti || TtiTx(q.tti) == f.tti
    ensures TwoInUse(After(ps, now, Hears(f.tti, f.ack)), if TtiTx(p.tti) == f.tti then p.SetAck(0, f.ack) else p,
                     if TtiTx(p.tti) == f.tti then q else q.SetAck(0, f.ack), 1)
  {
    HeardOne(ps, p, q, 1, f);
  }

  lemma FirstIsOver(start: nat, steps: seq<Step>)
    requires |steps| > 8 && steps[8] == Hears(TtiTx(TtiAt(start, 0)), true)
    requires StandsAt(1, start, steps, 8, FirstSend(1, TtiAt(start, 0)), FirstSend(1, TtiAt(start, 1)))
    ensures StandsAt(1, start, steps, 9, Over(TtiAt(start, 0), true), FirstSend(1, TtiAt(start, 1)))
  {
    IntervalOf(start, 0, 8);
    IntervalOf(start, 1, 7);
    RunStep(Eight(1), start, steps, 8);
    HearsAfter(Run(Eight(1), start, steps[..8]), FirstSend(1, TtiAt(start, 0)), FirstSend(1, TtiAt(start, 1)),
               TtiAt(start, 8), Feedback(TtiTx(TtiAt(start, 0)), true));
  }

  lemma SecondIsOver(start: nat, steps: seq<Step>)
    requires |steps| > 9 && steps[9] == Hears(TtiTx(TtiAt(start, 1)), false)
    requires StandsAt(1, start, steps, 9, Over(TtiAt(start, 0), true), FirstSend(1, TtiAt(start, 1)))
    ensures StandsAt(1, start, steps, 10, Over(TtiAt(start, 0), true), Over(TtiAt(start, 1), false))
  {
    IntervalOf(start, 0, 9);
    IntervalOf(start, 1, 8);
    NearTtis(start, 0, 1);
    if TtiTx(TtiAt(start, 0)) == TtiTx(TtiAt(start, 1)) { TtiTxInjective(TtiAt(start, 0), TtiAt(start, 1)); }
    RunStep(Eight(1), start, steps, 9);
    HearsAfter(Run(Eight(1), start, steps[..9]), Over(TtiAt(start, 0), true), FirstSend(1, TtiAt(start, 1)),
               TtiAt(start, 9), Feedback(TtiTx(TtiAt(start, 1)), false));
  }

  lemma BothOver(start: nat)
    ensures SentBy(Eight(1), start, Round(start), 0) == Some(0) && SentBy(Eight(1), start, Round(start), 1) == Some(1)
    ensures StandsAt(1, start, Round(start), 10, Over(TtiAt(start, 0), true), Over(TtiAt(start, 1), false))
  {
    FirstSteps(1, start, Round(start));
    FirstIsOver(start, Round(start));
    SecondIsOver(start, Round(start));
  }

  /** What is over is never too old. */
  lemma {:induction false} StaysOver(start: nat, k: nat)
    requires 10 <= k <= TTI_PERIOD
    ensures StandsAt(1, start, Round(start), k, Over(TtiAt(start, 0), true), Over(TtiAt(start, 1), false))
  {
    if k == 10 {
      BothOver(start);
    } else {
      StaysOver(start, k - 1);
      RunStep(Eight(1), start, Round(start), k - 1);
      IdleAfter(Run(Eight(1), start, Round(start)[..k - 1]), Over(TtiAt(start, 0), true),
                Over(TtiAt(start, 1), false), 1, TtiAt(start, k - 1));
    }
  }

  lemma SameTti(start: nat)
    ensures TtiAt(start, TTI_PERIOD) == TtiAt(start, 0)
    ensures Interval(TtiAt(start, 0), TtiAt(start, 1)) == TTI_PERIOD - 1
  {
  }

  lemma RoundAnswers(start: nat)
    ensures OnlyAnswers(Eight(1), start, Round(start))
  {
    BothOver(start);
    forall k | 0 <= k <= TTI_PERIOD ensures HearsAnswers(Eight(1), start, Round(start), k) {
      if k == 8 {
        assert Round(start)[k] == Hears(TtiTx(TtiAt(start, 0)), true);
      } else if k == 9 {
        assert Round(start)[k] == Hears(TtiTx(TtiAt(start, 1)), false);
      } else {
        assert Round(start)[k] in {First(), Idle(), Step([], OldestRetx, true, 10, 100)};
      }
    }
  }

  /** Process 1 sends in the same TTI as process 0 a round before, and its answer is credited to process 0. */
  lemma RoundExample(start: nat)
    ensures var steps, t := Round(start), TtiAt(start, TTI_PERIOD);
            var now := Run(Eight(1), start, steps);
            && OnlyAnswers(Eight(1), start, steps) && SentBy(Eight(1), start, steps, TTI_PERIOD) == Some(1)
            && now[1].tti == t && RoundBefore(Eight(1), start, steps, 0, t, TTI_PERIOD)
            && AckTargetFrom(now, 0, TtiTx(t)) == Some(0)
  {
    var steps, s, t := Round(start), TtiAt(start, 0), TtiAt(start, 1);
    StaysOver(start, TTI_PERIOD);
    SameTti(start);
    RoundAnswers(start);
    BothOver(start);
    var before := Run(Eight(1), start, steps[..TTI_PERIOD]);
    assert Heard(before, []) == before;
    OnlyPending(before, s, 1);
    RunStep(Eight(1), start, steps, TTI_PERIOD);
    assert steps[..TTI_PERIOD + 1] == steps;
  }
}
