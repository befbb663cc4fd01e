/** The masks of a user's downlink processes over whole runs: what waits for a retransmission has groups to repeat. */
module DlMasks {
  import opened Tti
  import opened Harq
  import opened DlProcs
  import opened DlRuns

  /** The oldest pending retransmission is on an empty mask. */
  predicate EmptyOldest(ps: seq<Proc>, masks: seq<nat>, now: nat)
    requires AllValid(ps) && |masks| == |ps| && now < TTI_PERIOD
  {
    match Pending(ps, now)
    case None => false
    case Some(q) => masks[q] == 0
  }

  /** The masks before and after step `s` in TTI `now`: only the chosen process has a new one, and that is empty only if
      the oldest pending retransmission was on an empty one. */
  predicate MasksStep(ps: seq<Proc>, now: nat, s: Step, masks: seq<nat>, after: seq<nat>)
    requires AllValid(ps) && now < TTI_PERIOD
  {
    && |masks| == |after| == |ps|
    && var heard := Heard(ps, s.feedback);
       match Chosen(heard, now, s.pick)
       case None => after == masks
       case Some(p) =>
         && (forall q | 0 <= q < |masks| && q != p :: after[q] == masks[q])
         && (after[p] == 0 ==> EmptyOldest(heard, masks, now))
  }

  /** `trace[k]` are the masks before step `k` of the run. */
  predicate MasksOver(ps: seq<Proc>, start: nat, steps: seq<Step>, trace: seq<seq<nat>>)
    requires AllValid(ps)
  {
    && |trace| == |steps| + 1
    && forall k | 0 <= k < |steps| ::
         MasksStep(Run(ps, start, steps[..k]), TtiAt(start, k), steps[k], trace[k], trace[k + 1])
  }

  /** What waits for a retransmission after the feedback of step `n` was chosen before that. */
  lemma HeardPendingWasChosen(ps: seq<Proc>, start: nat, steps: seq<Step>, n: nat, i: nat, now: nat)
    requires AllValid(ps) && AllFresh(ps) && MayRetransmit(ps) && OnlyAnswers(ps, start, steps)
    requires n < |steps| && i < |ps| && now < TTI_PERIOD
    requires Heard(Run(ps, start, steps[..n]), steps[n].feedback)[i].HasPendingRetx(now)
    ensures Touched(ps, start, steps, n, i)
  {
    UseIsInOrder(ps, start, steps, n);
    if !Touched(ps, start, steps, n, i) { AnswersToTouched(ps, start, steps, n, i); }
  }

  /** All processes that were chosen have a mask. */
  ghost predicate TouchedHaveMasks(ps: seq<Proc>, start: nat, steps: seq<Step>, n: nat, masks: seq<nat>)
    requires AllValid(ps) && n <= |steps| && |masks| == |ps|
  {
    forall p | 0 <= p < |ps| && Touched(ps, start, steps, n, p) :: masks[p] != 0
  }

  lemma NotOnEmpty(ps: seq<Proc>, start: nat, steps: seq<Step>, n: nat, masks: seq<nat>)
    requires AllValid(ps) && AllFresh(ps) && MayRetransmit(ps) && OnlyAnswers(ps, start, steps)
    requires n < |steps| && |masks| == |ps| && TouchedHaveMasks(ps, start, steps, n, masks)
    ensures !EmptyOldest(Heard(Run(ps, start, steps[..n]), steps[n].feedback), masks, TtiAt(start, n))
  {
    var heard, now := Heard(Run(ps, start, steps[..n]), steps[n].feedback), TtiAt(start, n);
    PendingIsOldest(heard, now, |heard|);
    match Pending(heard, now)
    case None =>
    case Some(q) => HeardPendingWasChosen(ps, start, steps, n, q, now);
  }

  /** In a run of a user that only answers what it was sent, every process that was chosen has groups. */
  lemma {:induction false} ChosenHaveGroups(ps: seq<Proc>, start: nat, steps: seq<Step>, trace: seq<seq<nat>>, n: nat)
    requires AllValid(ps) && AllFresh(ps) && MayRetransmit(ps) && OnlyAnswers(ps, start, steps)
    requires MasksOver(ps, start, steps, trace) && n <= |steps| && |trace[0]| == |ps|
    ensures |trace[n]| == |ps| && TouchedHaveMasks(ps, start, steps, n, trace[n])
  {
    if n > 0 {
      ChosenHaveGroups(ps, start, steps, trace, n - 1);
      NotOnEmpty(ps, start, steps, n - 1, trace[n - 1]);
      assert MasksStep(Run(ps, start, steps[..n - 1]), TtiAt(start, n - 1), steps[n - 1], trace[n - 1], trace[n]);
      forall p | 0 <= p < |ps| && Touched(ps, start, steps, n, p) ensures trace[n][p] != 0 {
        TouchedStep(ps, start, steps, n - 1, p);
      }
    }
  }

  /** So it never repeats what went out on an empty mask. */
  lemma NeverRepeatsNothing(ps: seq<Proc>, start: nat, steps: seq<Step>, trace: seq<seq<nat>>, k: nat)
    requires AllValid(ps) && AllFresh(ps) && MayRetransmit(ps) && OnlyAnswers(ps, start, steps)
    requires MasksOver(ps, start, steps, trace) && k < |steps| && |trace[0]| == |ps|
    ensures |trace[k]| == |ps|
    ensures !EmptyOldest(Heard(Run(ps, start, steps[..k]), steps[k].feedback), trace[k], TtiAt(start, k))
  {
    ChosenHaveGroups(ps, start, steps, trace, k);
    NotOnEmpty(ps, start, steps, k, trace[k]);
  }
}
