/** The downlink HARQ processes of one user: which process is chosen, which process feedback goes to, and when a
    stuck process is given up. */
module DlProcs {
  import opened Tti
  import opened Harq

  /** Processes idle for longer than this are reset. */
  const TIMEOUT_MS: nat := 50

  predicate AllValid(ps: seq<Proc>) {
    forall i | 0 <= i < |ps| :: ps[i].Valid()
  }

  datatype Option<+T> = None | Some(value: T)

  /** The oldest process with a pending retransmission among the first `n`, with its age. */
  function OldestBelow(ps: seq<Proc>, now: nat, n: nat): (r: (Option<nat>, nat))
    requires n <= |ps| && AllValid(ps) && now < TTI_PERIOD
    ensures r.0.Some? ==> r.0.value < n
  {
    if n == 0 then (None, 0)
    else
      var (best, age) := OldestBelow(ps, now, n - 1);
      var p := ps[n - 1];
      var x := Interval(now, p.tti);
      if p.HasPendingRetx(now) && x > age then (Some(n - 1), x) else (best, age)
  }

  function Pending(ps: seq<Proc>, now: nat): (r: Option<nat>)
    requires AllValid(ps) && now < TTI_PERIOD
    ensures r.Some? ==> r.value < |ps|
  {
    OldestBelow(ps, now, |ps|).0
  }

  /** The first process with no transport block in use, from `i` on. */
  function FirstEmptyFrom(ps: seq<Proc>, i: nat): (r: Option<nat>)
    requires i <= |ps|
    ensures match r
            case Some(k) => i <= k < |ps| && ps[k].BothEmpty() && forall j | i <= j < k :: !ps[j].BothEmpty()
            case None => forall j | i <= j < |ps| :: !ps[j].BothEmpty()
    decreases |ps| - i
  {
    if i == |ps| then None
    else if ps[i].BothEmpty() then Some(i)
    else FirstEmptyFrom(ps, i + 1)
  }

  /** The first process, from `i` on, whose last transmission is answered in `tti`. */
  function AckTargetFrom(ps: seq<Proc>, i: nat, tti: nat): (r: Option<nat>)
    requires i <= |ps|
    ensures match r
            case Some(k) => i <= k < |ps| && TtiTx(ps[k].tti) == tti && forall j | i <= j < k :: TtiTx(ps[j].tti) != tti
            case None => forall j | i <= j < |ps| :: TtiTx(ps[j].tti) != tti
    decreases |ps| - i
  {
    if i == |ps| then None
    else if TtiTx(ps[i].tti) == tti then Some(i)
    else AckTargetFrom(ps, i + 1, tti)
  }

  /** Feedback received in `tti`. */
  function SetAckInfo(ps: seq<Proc>, tti: nat, tb: nat, ack: bool): (r: seq<Proc>)
    requires tb < 2
    ensures |r| == |ps|
    ensures AllValid(ps) ==> AllValid(r)
  {
    match AckTargetFrom(ps, 0, tti)
    case Some(k) => ps[k := ps[k].SetAck(tb, ack)]
    case None => ps
  }

  /** A process in use whose last transmission is older than the timeout is reset. */
  function Timeout(p: Proc, now: nat): (r: Proc)
    requires p.Valid() && now < TTI_PERIOD
    ensures r.Valid()
  {
    if !p.BothEmpty() && Interval(now, p.tti) > TIMEOUT_MS then p.ResetBoth() else p
  }

  function Timeouts(ps: seq<Proc>, now: nat): (r: seq<Proc>)
    requires AllValid(ps) && now < TTI_PERIOD
    ensures |r| == |ps| && AllValid(r)
    ensures forall i | 0 <= i < |ps| :: r[i] == Timeout(ps[i], now)
  {
    seq(|ps|, i requires 0 <= i < |ps| => Timeout(ps[i], now))
  }

  /** Process `p` is one whose pending retransmission is oldest, the first such one. */
  ghost predicate IsOldest(ps: seq<Proc>, now: nat, n: nat, k: nat)
    requires n <= |ps| && AllValid(ps) && now < TTI_PERIOD
  {
    && k < n && ps[k].HasPendingRetx(now)
    && (forall j | 0 <= j < n && ps[j].HasPendingRetx(now) :: Interval(now, ps[j].tti) <= Interval(now, ps[k].tti))
    && (forall j | 0 <= j < k && ps[j].HasPendingRetx(now) :: Interval(now, ps[j].tti) < Interval(now, ps[k].tti))
  }

  /** The scan finds the oldest pending retransmission whenever there is one, the lowest process among equals. */
  lemma {:induction false} PendingIsOldest(ps: seq<Proc>, now: nat, n: nat)
    requires n <= |ps| && AllValid(ps) && now < TTI_PERIOD
    ensures match OldestBelow(ps, now, n).0
            case Some(k) => IsOldest(ps, now, n, k) && OldestBelow(ps, now, n).1 == Interval(now, ps[k].tti)
            case None => OldestBelow(ps, now, n).1 == 0 && forall j | 0 <= j < n :: !ps[j].HasPendingRetx(now)
  {
    if n > 0 {
      PendingIsOldest(ps, now, n - 1);
    }
  }
}
