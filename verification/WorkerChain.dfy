/** The chain of semaphores that puts the transmissions of the PHY workers in order. Each subframe is a job, numbered
    in dispatch order; job k waits on semaphore k mod N and, once sent, posts the next one. A step is one atomic action
    of one thread, so a run is any interleaving. */
module WorkerChain {
  import opened Tti
  import opened Modular

  /** Where a job's thread is: decoding and encoding, waiting for its semaphore, between the wait and the radio,
      between the radio and the post, finished. */
  datatype Pc = Working | Waiting | Granted | Sent | Done

  /** `sem` are the semaphores, `firstTx` the flag that is still set before the first arrival, `jobs` the threads in
      dispatch order, `tti` and `slot` the dispatcher's counters; `slots` and `ttis` is what each job was given, `log`
      is what the radio has sent and `arrivals` the order in which jobs came to the chain. */
  datatype State = State(n: nat, sem: seq<nat>, firstTx: bool, jobs: seq<Pc>, tti: nat, slot: nat,
                         slots: seq<nat>, ttis: seq<nat>, log: seq<nat>, arrivals: seq<nat>)

  function Init(n: nat): State
    requires n > 0
  {
    State(n, seq(n, _ => 0), true, [], 10235, 0, [], [], [], [])
  }

  /** How many of the jobs are not finished. */
  function Unfinished(jobs: seq<Pc>): nat {
    if |jobs| == 0 then 0 else Unfinished(jobs[..|jobs| - 1]) + (if jobs[|jobs| - 1].Done? then 0 else 1)
  }

  datatype Action = Dispatch | Arrive(j: nat) | Take(j: nat) | Transmit(j: nat) | Post(j: nat)

  predicate Typed(s: State) {
    && s.n > 0 && |s.sem| == s.n && s.slot < s.n
    && |s.slots| == |s.ttis| == |s.jobs|
    && forall j | 0 <= j < |s.jobs| :: s.slots[j] < s.n
  }

  /** A worker thread is free for another job, and job `j` exists and is where the action starts. */
  predicate Enabled(s: State, a: Action)
    requires Typed(s)
  {
    match a
    case Dispatch => Unfinished(s.jobs) < s.n
    case Arrive(j) => j < |s.jobs| && s.jobs[j].Working?
    case Take(j) => j < |s.jobs| && s.jobs[j].Waiting? && s.sem[s.slots[j]] > 0
    case Transmit(j) => j < |s.jobs| && s.jobs[j].Granted?
    case Post(j) => j < |s.jobs| && s.jobs[j].Sent?
  }

  function Step(s: State, a: Action): State
    requires Typed(s) && Enabled(s, a)
  {
    match a
    case Dispatch =>
      var tti := (s.tti + 1) % TTI_PERIOD;
      s.(tti := tti, jobs := s.jobs + [Working], slots := s.slots + [s.slot], ttis := s.ttis + [tti],
         slot := (s.slot + 1) % s.n)
    case Arrive(j) =>
      // The flag is read and cleared in one step; the first job to arrive opens its own semaphore.
      var s' := s.(jobs := s.jobs[j := Waiting], arrivals := s.arrivals + [j], firstTx := false);
      if s.firstTx then s'.(sem := s.sem[s.slots[j] := s.sem[s.slots[j]] + 1]) else s'
    case Take(j) =>
      s.(jobs := s.jobs[j := Granted], sem := s.sem[s.slots[j] := s.sem[s.slots[j]] - 1])
    case Transmit(j) =>
      s.(jobs := s.jobs[j := Sent], log := s.log + [j])
    case Post(j) =>
      var next := (s.slots[j] + 1) % s.n;
      s.(jobs := s.jobs[j := Done], sem := s.sem[next := s.sem[next] + 1])
  }

  lemma StepTyped(s: State, a: Action)
    requires Typed(s) && Enabled(s, a)
    ensures Typed(Step(s, a))
  {
  }

  predicate Run(s: State, as_: seq<Action>, t: State)
    requires Typed(s)
    decreases |as_|
  {
    if |as_| == 0 then t == s
    else Enabled(s, as_[0]) && (StepTyped(s, as_[0]); Run(Step(s, as_[0]), as_[1..], t))
  }

  // ---- Orderly states: those of the runs in which the first subframe is the first to arrive

  /** What job `j` may be doing when `p` jobs have been sent. */
  predicate JobFits(pc: Pc, j: nat, p: nat) {
    if j + 1 < p then pc.Done?
    else if j + 1 == p then pc.Done? || pc.Sent?
    else if j == p then pc.Working? || pc.Waiting? || pc.Granted?
    else pc.Working? || pc.Waiting?
  }

  /** Some job is between its wait and its post. */
  predicate InFlight(s: State) {
    var p := |s.log|;
    (0 < p <= |s.jobs| && s.jobs[p - 1].Sent?) || (p < |s.jobs| && s.jobs[p].Granted?)
  }

  /** The dispatcher's counters and what it gave to each job. */
  predicate Counters(s: State)
    requires Typed(s)
  {
    && s.slot == |s.jobs| % s.n
    && s.tti == (10235 + |s.jobs|) % TTI_PERIOD
    && forall j | 0 <= j < |s.jobs| :: s.slots[j] == j % s.n && s.ttis[j] == (10236 + j) % TTI_PERIOD
  }

  /** The permission to send: on the semaphore of the next job unless some job is in flight. */
  predicate Token(s: State)
    requires Typed(s)
  {
    forall k | 0 <= k < s.n ::
      s.sem[k] == if !s.firstTx && k == |s.log| % s.n && !InFlight(s) then 1 else 0
  }

  predicate Orderly(s: State) {
    && Typed(s) && Counters(s) && Token(s)
    && var p := |s.log|;
       && p <= |s.jobs| <= p + s.n
       && (forall i | 0 <= i < p :: s.log[i] == i)
       && (forall j | 0 <= j < |s.jobs| :: JobFits(s.jobs[j], j, p))
       && !(0 < p < |s.jobs| && s.jobs[p - 1].Sent? && s.jobs[p].Granted?)
       && (s.firstTx == (s.arrivals == []))
       && (s.firstTx ==> p == 0 && forall j | 0 <= j < |s.jobs| :: s.jobs[j].Working?)
       && (!s.firstTx ==> |s.jobs| > 0 && (p == 0 ==> !s.jobs[0].Working?))
  }

  /** An action that keeps to the assumption that the first subframe is the first to arrive. */
  predicate InTurn(s: State, a: Action) {
    a.Arrive? && s.firstTx ==> a.j == 0
  }

  lemma {:induction false} UnfinishedMany(jobs: seq<Pc>, p: nat)
    requires p <= |jobs| && forall j | p <= j < |jobs| :: !jobs[j].Done?
    ensures Unfinished(jobs) >= |jobs| - p
  {
    if |jobs| > p { UnfinishedMany(jobs[..|jobs| - 1], p); }
  }

  lemma DispatchCounters(s: State)
    requires Typed(s) && Counters(s) && Enabled(s, Dispatch)
    ensures Typed(Step(s, Dispatch)) && Counters(Step(s, Dispatch))
  {
    var m := |s.jobs|;
    AddOne(m, s.n);
    AddOne(10235 + m, TTI_PERIOD);
    var t := Step(s, Dispatch);
    assert t.tti == (10236 + m) % TTI_PERIOD;
    forall j | 0 <= j < |t.jobs| ensures t.slots[j] == j % t.n && t.ttis[j] == (10236 + j) % TTI_PERIOD {
      if j < m {
        assert t.slots[j] == s.slots[j] && t.ttis[j] == s.ttis[j];
      }
    }
  }

  lemma DispatchOrderly(s: State)
    requires Orderly(s) && Enabled(s, Dispatch)
    ensures Orderly(Step(s, Dispatch))
  {
    UnfinishedMany(s.jobs, |s.log|);
    DispatchCounters(s);
    var t := Step(s, Dispatch);
    assert InFlight(t) == InFlight(s);
  }

  lemma ArriveOrderly(s: State, j: nat)
    requires Orderly(s) && Enabled(s, Arrive(j)) && InTurn(s, Arrive(j))
    ensures Orderly(Step(s, Arrive(j)))
  {
    var t := Step(s, Arrive(j));
    assert s.slots[j] == j % s.n;
    assert InFlight(t) == InFlight(s);
  }

  lemma TakeOrderly(s: State, j: nat)
    requires Orderly(s) && Enabled(s, Take(j))
    ensures Orderly(Step(s, Take(j)))
  {
    var p := |s.log|;
    assert j % s.n == p % s.n;
    CloseDiffer(p, j, s.n);
    assert InFlight(Step(s, Take(j)));
  }

  lemma TransmitOrderly(s: State, j: nat)
    requires Orderly(s) && Enabled(s, Transmit(j))
    ensures Orderly(Step(s, Transmit(j)))
  {
    assert j == |s.log|;
    assert InFlight(s) && InFlight(Step(s, Transmit(j)));
  }

  lemma PostOrderly(s: State, j: nat)
    requires Orderly(s) && Enabled(s, Post(j))
    ensures Orderly(Step(s, Post(j)))
  {
    assert j + 1 == |s.log|;
    AddOne(j, s.n);
    assert InFlight(s) && !InFlight(Step(s, Post(j)));
  }

  lemma StepOrderly(s: State, a: Action)
    requires Orderly(s) && Enabled(s, a) && InTurn(s, a)
    ensures Orderly(Step(s, a))
  {
    match a
    case Dispatch => DispatchOrderly(s);
    case Arrive(j) => ArriveOrderly(s, j);
    case Take(j) => TakeOrderly(s, j);
    case Transmit(j) => TransmitOrderly(s, j);
    case Post(j) => PostOrderly(s, j);
  }

  lemma {:induction false} ArrivalsGrow(s: State, as_: seq<Action>, t: State)
    requires Typed(s) && Run(s, as_, t)
    ensures s.arrivals <= t.arrivals
    decreases |as_|
  {
    if |as_| > 0 {
      StepTyped(s, as_[0]);
      ArrivalsGrow(Step(s, as_[0]), as_[1..], t);
    }
  }

  lemma {:induction false} RunOrderly(s: State, as_: seq<Action>, t: State)
    requires Orderly(s) && Run(s, as_, t)
    requires t.arrivals != [] ==> t.arrivals[0] == 0
    ensures Orderly(t)
    decreases |as_|
  {
    if |as_| > 0 {
      StepTyped(s, as_[0]);
      ArrivalsGrow(Step(s, as_[0]), as_[1..], t);
      StepOrderly(s, as_[0]);
      RunOrderly(Step(s, as_[0]), as_[1..], t);
    }
  }

  // ---- What the chain guarantees

  /** The subframe that job `i` sends. */
  lemma SendsTti(i: nat)
    ensures TtiTx((10236 + i) % TTI_PERIOD) == i % TTI_PERIOD
  {
  }

  lemma OneInFlight(s: State, i: nat, j: nat)
    requires Orderly(s) && i < |s.jobs| && j < |s.jobs|
    requires (s.jobs[i].Granted? || s.jobs[i].Sent?) && (s.jobs[j].Granted? || s.jobs[j].Sent?)
    ensures i == j
  {
    assert JobFits(s.jobs[i], i, |s.log|) && JobFits(s.jobs[j], j, |s.log|);
  }

  lemma InitOrderly(n: nat)
    requires n > 0
    ensures Orderly(Init(n))
  {
  }

  /** If the first subframe is the first to arrive, every interleaving sends the subframes in dispatch order, the i-th
      of them in TTI i of the wrapping counter, and never has two jobs between their wait and their post. */
  lemma ChainKeepsOrder(n: nat, as_: seq<Action>, t: State)
    requires n > 0 && Run(Init(n), as_, t)
    requires t.arrivals != [] ==> t.arrivals[0] == 0
    ensures Orderly(t)
    ensures forall i | 0 <= i < |t.log| :: t.log[i] == i && TtiTx(t.ttis[i]) == i % TTI_PERIOD
    ensures forall i, j | 0 <= i < |t.jobs| && 0 <= j < |t.jobs| ::
              (t.jobs[i].Granted? || t.jobs[i].Sent?) && (t.jobs[j].Granted? || t.jobs[j].Sent?) ==> i == j
  {
    InitOrderly(n);
    RunOrderly(Init(n), as_, t);
    forall i | 0 <= i < |t.log| ensures t.log[i] == i && TtiTx(t.ttis[i]) == i % TTI_PERIOD {
      SendsTti(i);
    }
    forall i, j | 0 <= i < |t.jobs| && 0 <= j < |t.jobs|
      && (t.jobs[i].Granted? || t.jobs[i].Sent?) && (t.jobs[j].Granted? || t.jobs[j].Sent?)
      ensures i == j
    {
      OneInFlight(t, i, j);
    }
  }

  /** As long as some dispatched job is not finished, some job can take a step. */
  lemma NoDeadlock(s: State, j: nat) returns (a: Action)
    requires Orderly(s) && j < |s.jobs| && !s.jobs[j].Done?
    ensures !a.Dispatch? && Enabled(s, a) && InTurn(s, a)
  {
    var p := |s.log|;
    assert JobFits(s.jobs[j], j, p);
    if s.firstTx {
      a := Arrive(0);
    } else if p > 0 && s.jobs[p - 1].Sent? {
      a := Post(p - 1);
    } else {
      assert JobFits(s.jobs[p], p, p);
      a := if s.jobs[p].Working? then Arrive(p) else if s.jobs[p].Waiting? then Take(p) else Transmit(p);
    }
  }

  function StepsLeft(pc: Pc): nat {
    match pc case Working => 4 case Waiting => 3 case Granted => 2 case Sent => 1 case Done => 0
  }

  function WorkLeft(jobs: seq<Pc>): nat {
    if |jobs| == 0 then 0 else WorkLeft(jobs[..|jobs| - 1]) + StepsLeft(jobs[|jobs| - 1])
  }

  function Dispatches(as_: seq<Action>): nat {
    if |as_| == 0 then 0 else (if as_[0].Dispatch? then 1 else 0) + Dispatches(as_[1..])
  }

  lemma {:induction false} WorkAfter(jobs: seq<Pc>, j: nat, pc: Pc)
    requires j < |jobs|
    ensures WorkLeft(jobs[j := pc]) == WorkLeft(jobs) - StepsLeft(jobs[j]) + StepsLeft(pc)
  {
    var n := |jobs| - 1;
    if j < n {
      WorkAfter(jobs[..n], j, pc);
      assert jobs[j := pc][..n] == jobs[..n][j := pc];
    } else {
      assert jobs[j := pc][..n] == jobs[..n];
    }
  }

  lemma WorkStep(s: State, a: Action)
    requires Typed(s) && Enabled(s, a)
    ensures WorkLeft(Step(s, a).jobs) == WorkLeft(s.jobs) + (if a.Dispatch? then 4 else -1)
  {
    match a
    case Dispatch => assert (s.jobs + [Working])[..|s.jobs|] == s.jobs;
    case Arrive(j) => WorkAfter(s.jobs, j, Waiting);
    case Take(j) => WorkAfter(s.jobs, j, Granted);
    case Transmit(j) => WorkAfter(s.jobs, j, Sent);
    case Post(j) => WorkAfter(s.jobs, j, Done);
  }

  /** Every job takes four steps, so a run with d dispatches has at most 4 d steps of jobs: with `NoDeadlock`, every
      run that goes on as long as it can finishes every job it has dispatched. */
  lemma {:induction false} RunsAreBounded(s: State, as_: seq<Action>, t: State)
    requires Typed(s) && Run(s, as_, t)
    ensures |as_| - Dispatches(as_) == WorkLeft(s.jobs) + 4 * Dispatches(as_) - WorkLeft(t.jobs)
    decreases |as_|
  {
    if |as_| > 0 {
      StepTyped(s, as_[0]);
      WorkStep(s, as_[0]);
      RunsAreBounded(Step(s, as_[0]), as_[1..], t);
    }
  }

  // ---- Without the assumption

  /** Before the first transmission, only the first job to arrive can have the permission to send. */
  predicate Early(s: State) {
    && Typed(s) && s.slot == |s.jobs| % s.n && |s.jobs| <= s.n
    && (forall j | 0 <= j < |s.jobs| :: s.slots[j] == j % s.n)
    && (forall j | 0 <= j < |s.jobs| :: s.jobs[j].Working? || s.jobs[j].Waiting? || s.jobs[j].Granted?)
    && (if s.firstTx then
          && s.arrivals == []
          && (forall j | 0 <= j < |s.jobs| :: s.jobs[j].Working?)
          && forall k | 0 <= k < s.n :: s.sem[k] == 0
        else
          && s.arrivals != [] && s.arrivals[0] < |s.jobs|
          && (forall j | 0 <= j < |s.jobs| && s.jobs[j].Granted? :: j == s.arrivals[0])
          && forall k | 0 <= k < s.n && s.sem[k] > 0 :: k == s.arrivals[0] % s.n)
  }

  predicate FirstSendsFirst(s: State) {
    Typed(s) && if s.log == [] then Early(s) else s.arrivals != [] && s.log[0] == s.arrivals[0]
  }

  lemma StepFirstSendsFirst(s: State, a: Action)
    requires FirstSendsFirst(s) && Enabled(s, a)
    ensures FirstSendsFirst(Step(s, a))
  {
    if s.log == [] {
      match a
      case Dispatch =>
        UnfinishedMany(s.jobs, 0);
        AddOne(|s.jobs|, s.n);
      case Take(j) =>
        if j <= s.arrivals[0] { CloseDiffer(j, s.arrivals[0], s.n); } else { CloseDiffer(s.arrivals[0], j, s.n); }
      case Arrive(j) =>
      case Transmit(j) =>
      case Post(j) =>
    }
  }

  lemma {:induction false} RunFirstSendsFirst(s: State, as_: seq<Action>, t: State)
    requires FirstSendsFirst(s) && Run(s, as_, t)
    ensures FirstSendsFirst(t)
    decreases |as_|
  {
    if |as_| > 0 {
      StepFirstSendsFirst(s, as_[0]);
      RunFirstSendsFirst(Step(s, as_[0]), as_[1..], t);
    }
  }

  /** Whatever the interleaving, transmissions are in dispatch order exactly when the first subframe was the first to
      arrive at the chain. */
  lemma InOrderIff(n: nat, as_: seq<Action>, t: State)
    requires n > 0 && Run(Init(n), as_, t) && |t.log| > 0
    ensures t.arrivals != []
    ensures (forall i | 0 <= i < |t.log| :: t.log[i] == i) <==> t.arrivals[0] == 0
  {
    RunFirstSendsFirst(Init(n), as_, t);
    if t.arrivals[0] == 0 {
      ChainKeepsOrder(n, as_, t);
    }
  }

  /** A run out of order: two subframes are dispatched, the second one is the first to arrive, and is sent first. */
  lemma OutOfOrderExample()
    ensures var as_ := [Dispatch, Dispatch, Arrive(1), Take(1), Transmit(1)];
            exists t :: Run(Init(2), as_, t) && t.log == [1]
  {
    var s0 := Init(2);
    var s1 := Step(s0, Dispatch);
    var s2 := Step(s1, Dispatch);
    var s3 := Step(s2, Arrive(1));
    var s4 := Step(s3, Take(1));
    var s5 := Step(s4, Transmit(1));
    assert Run(s5, [], s5);
    assert Run(s4, [Transmit(1)], s5);
    assert Run(s3, [Take(1), Transmit(1)], s5);
    assert Run(s2, [Arrive(1), Take(1), Transmit(1)], s5);
    assert Run(s1, [Dispatch, Arrive(1), Take(1), Transmit(1)], s5);
    assert Run(s0, [Dispatch, Dispatch, Arrive(1), Take(1), Transmit(1)], s5);
  }
}
