/** Where the users of a cell stand between subframes, and how a cell starts. */
module Standings {
  import opened Tti
  import opened Harq
  import opened HarqObjects
  import opened DlProcs
  import opened Queues
  import opened SchedUser
  import opened Pdcch
  import opened Broadcast
  import opened Scheduler
  import DlMetricRr
  import DlRuns
  import Bits
  import Rbg
  import SiWindows
  import UlMetricRr
  import UlRuns
  import UlScheduler

  /** One user between subframes: the states and masks of its downlink processes, the states of its uplink ones, its
      bearers and its channel. */
  datatype Standing = Standing(procs: seq<Proc>, masks: seq<nat>, ul: seq<UlRuns.Ul>, lch: seq<Bearer>,
                               channel: Channel)
  {
    predicate Ok() {
      |procs| == |masks| == |ul| == MAX_HARQ_PROC && AllValid(procs) && NonNegative(lch)
    }
  }

  ghost predicate UlStands(u: SchedUe, ul: seq<UlRuns.Ul>)
    reads u.ulHarq
  {
    && |u.ulHarq| == |ul| == MAX_HARQ_PROC
    && forall r | 0 <= r < MAX_HARQ_PROC :: u.ulHarq[r].Valid() && u.ulHarq[r].UlState() == ul[r]
  }

  /** The fields of a user, but for its processes. */
  ghost predicate FieldsStand(u: SchedUe, s: Standing)
    reads u`procs, u`masks, u`lch, u`channel
  {
    u.procs == s.procs && u.masks == s.masks && u.lch == s.lch && u.channel == s.channel
  }

  /** A user, but for its uplink processes. */
  ghost predicate DlStands(u: SchedUe, s: Standing)
    reads u, u.dlHarq, u.ulHarq
  {
    u.Valid() && FieldsStand(u, s)
  }

  ghost predicate Stands(u: SchedUe, s: Standing)
    reads u, u.dlHarq, u.ulHarq
  {
    UlStands(u, s.ul) && DlStands(u, s)
  }

  ghost predicate AllStand(users: seq<SchedUe>, ss: seq<Standing>)
    reads *
  {
    |users| == |ss| && forall i {:trigger Pick(i)} | 0 <= i < |users| :: Stands(users[i], ss[i])
  }

  lemma StandingOk(users: seq<SchedUe>, ss: seq<Standing>)
    requires AllStand(users, ss)
    ensures AllValidUsers(users) && forall i | 0 <= i < |ss| :: ss[i].Ok()
  {
    forall i | 0 <= i < |users| ensures users[i].Valid() && ss[i].Ok() { assert Pick(i); }
  }

  // ---- A cell

  predicate Outside(hs: seq<HarqProc>, procs: set<HarqProc>) {
    forall h | h in hs :: h !in procs
  }

  /** `dlProcs` and `ulProcs` are the processes of all users. */
  ghost predicate Owned(users: seq<SchedUe>, dlProcs: set<HarqProc>, ulProcs: set<HarqProc>) {
    && Apart(users, dlProcs, true) && (forall h | h in dlProcs :: h.downlink)
    && Apart(users, ulProcs, false) && (forall h | h in ulProcs :: !h.downlink)
  }

  /** The uplink processes are none of the downlink ones. */
  ghost predicate UlOutside(users: seq<SchedUe>, dlProcs: set<HarqProc>) {
    forall i | 0 <= i < |users| :: Outside(users[i].ulHarq, dlProcs)
  }

  lemma OwnedOutside(users: seq<SchedUe>, dlProcs: set<HarqProc>, ulProcs: set<HarqProc>)
    requires Owned(users, dlProcs, ulProcs)
    ensures UlOutside(users, dlProcs)
  {
    forall i | 0 <= i < |users| ensures Outside(users[i].ulHarq, dlProcs) { assert Pick(i); }
  }

  /** All users are on a carrier of `nofPrb` PRBs. */
  predicate OnCarrier(users: seq<SchedUe>, nofPrb: nat) {
    forall i {:trigger Pick(i)} | 0 <= i < |users| :: users[i].nofPrb == nofPrb
  }

  /** The next downlink half starts on a clear CCE map. */
  ghost predicate ClearFor(sched: Sched, tti: nat)
    reads sched, sched.usedCce
  {
    sched.currentTti != tti || sched.usedCce[..] == NoCce()
  }

  /** How the cell is set up. */
  datatype Setup = Setup(cell: UlScheduler.Cell, messages: seq<SiWindows.Si>, siNRbg: nat, rarNRbg: nat)

  function SetupOf(sched: Sched, c: UlScheduler.Cell): Setup {
    Setup(c, sched.messages, sched.siNRbg, sched.rarNRbg)
  }

  /** Everything is as it has to be between subframes. */
  ghost predicate Ready(sched: Sched, dl: DlMetricRr.DlMetric, ul: UlMetricRr.UlMetric, users: seq<SchedUe>,
                        c: UlScheduler.Cell, dlProcs: set<HarqProc>, ulProcs: set<HarqProc>)
    reads *
  {
    && sched.Valid() && 0 < sched.nofPrb <= 100 && dl.Sized() && ul.Valid() && c.Valid() && c.nofPrb == sched.nofPrb
    && dl.usedRbg != sched.usedCce && ul.usedRb != sched.usedCce && dl.usedRbg != ul.usedRb
    && Owned(users, dlProcs, ulProcs) && OnCarrier(users, sched.nofPrb)
    && AllValidUsers(users) && DlMetricRr.MasksBounded(users, Rbg.NofGroups(sched.nofPrb))
  }

  lemma MasksStand(users: seq<SchedUe>, ss: seq<Standing>, total: nat)
    requires AllStand(users, ss)
    ensures DlMetricRr.MasksBounded(users, total)
            <==> forall i | 0 <= i < |ss| :: forall k | 0 <= k < |ss[i].masks| :: ss[i].masks[k] < Bits.Pow2(total)
  {
    forall i | 0 <= i < |users| ensures users[i].masks == ss[i].masks { assert Pick(i); }
    if DlMetricRr.MasksBounded(users, total) {
      forall i | 0 <= i < |ss| ensures forall k | 0 <= k < |ss[i].masks| :: ss[i].masks[k] < Bits.Pow2(total) {
        assert Pick(i);
      }
    }
  }

  /** A user without a past. */
  function NewStanding(maxRetx: nat, bearers: seq<bool>, channel: Channel): (s: Standing)
    ensures s.Ok() && DlRuns.AllFresh(s.procs) && (maxRetx > 0 ==> DlRuns.MayRetransmit(s.procs))
    ensures forall r | 0 <= r < |s.ul| :: UlRuns.Settled(s.ul[r])
  {
    Standing(seq(MAX_HARQ_PROC, _ => Fresh(maxRetx)), seq(MAX_HARQ_PROC, _ => 0),
             seq(MAX_HARQ_PROC, _ => UlRuns.NewUl(maxRetx)),
             seq(|bearers|, i requires 0 <= i < |bearers| => Bearer(bearers[i], 0, 0)), channel.(ulPending := 0))
  }

  ghost predicate NewUser(u: SchedUe, rnti: nat, nofPrb: nat, maxRetx: nat, s: Standing)
    reads u, u.dlHarq, u.ulHarq
  {
    u.rnti == rnti && u.nofPrb == nofPrb && u.maxRetx == maxRetx && Stands(u, s)
  }

  ghost predicate AllNew(users: seq<SchedUe>, rntis: seq<nat>, nofPrb: nat, maxRetx: nat, s: Standing)
    reads *
  {
    && |users| <= |rntis|
    && forall i {:trigger Pick(i)} | 0 <= i < |users| :: NewUser(users[i], rntis[i], nofPrb, maxRetx, s)
  }

  lemma OneMoreUser(users: seq<SchedUe>, u: SchedUe, rntis: seq<nat>, nofPrb: nat, maxRetx: nat, s: Standing,
                    dlProcs: set<HarqProc>, ulProcs: set<HarqProc>)
    returns (dlProcs': set<HarqProc>, ulProcs': set<HarqProc>)
    requires |users| < |rntis| && forall i, j | 0 <= i < j < |rntis| :: rntis[i] != rntis[j]
    requires AllNew(users, rntis, nofPrb, maxRetx, s) && Owned(users, dlProcs, ulProcs)
    requires NewUser(u, rntis[|users|], nofPrb, maxRetx, s)
    ensures AllNew(users + [u], rntis, nofPrb, maxRetx, s) && Owned(users + [u], dlProcs', ulProcs')
  {
    dlProcs', ulProcs' := dlProcs + (set h | h in u.dlHarq), ulProcs + (set h | h in u.ulHarq);
    var more := users + [u];
    forall j | 0 <= j < |more|
      ensures NewUser(more[j], rntis[j], nofPrb, maxRetx, s)
      ensures forall h | h in more[j].dlHarq :: h in dlProcs'
      ensures forall h | h in more[j].ulHarq :: h in ulProcs'
    {
      assert Pick(j);
    }
    forall j, k | 0 <= j < k < |more| ensures more[j].rnti != more[k].rnti { assert Pick(j) && Pick(k); }
  }

  /** Users for all identities. */
  method AddUsers(rntis: seq<nat>, nofPrb: nat, maxRetx: nat, bearers: seq<bool>, channel: Channel)
    returns (users: seq<SchedUe>, ghost dlProcs: set<HarqProc>, ghost ulProcs: set<HarqProc>)
    requires forall i, j | 0 <= i < j < |rntis| :: rntis[i] != rntis[j]
    ensures |users| == |rntis| && AllNew(users, rntis, nofPrb, maxRetx, NewStanding(maxRetx, bearers, channel))
    ensures Owned(users, dlProcs, ulProcs)
  {
    users, dlProcs, ulProcs := [], {}, {};
    ghost var s := NewStanding(maxRetx, bearers, channel);
    for i := 0 to |rntis|
      invariant |users| == i && AllNew(users, rntis, nofPrb, maxRetx, s) && Owned(users, dlProcs, ulProcs)
    {
      var u := new SchedUe(rntis[i], nofPrb, maxRetx, bearers, channel);
      forall j | 0 <= j < i ensures NewUser(users[j], rntis[j], nofPrb, maxRetx, s) { assert Pick(j); }
      dlProcs, ulProcs := OneMoreUser(users, u, rntis, nofPrb, maxRetx, s, dlProcs, ulProcs);
      users := users + [u];
    }
  }

  /** A cell whose users have no past, ready for its first subframe. */
  method NewCell(c: UlScheduler.Cell, siNRbg: nat, rarNRbg: nat, messages: seq<SiWindows.Si>, rntis: seq<nat>,
                 maxRetx: nat, bearers: seq<bool>, channel: Channel)
    returns (sched: Sched, dl: DlMetricRr.DlMetric, ul: UlMetricRr.UlMetric, users: seq<SchedUe>,
             ghost dlProcs: set<HarqProc>, ghost ulProcs: set<HarqProc>, ghost ss: seq<Standing>)
    requires c.Valid() && Messages(messages) && forall i, j | 0 <= i < j < |rntis| :: rntis[i] != rntis[j]
    ensures Ready(sched, dl, ul, users, c, dlProcs, ulProcs) && AllStand(users, ss)
    ensures SetupOf(sched, c) == Setup(c, messages, siNRbg, rarNRbg)
    ensures sched.pendingSibs == Broadcast.Closed(|messages|) && forall tti :: ClearFor(sched, tti)
    ensures |users| == |rntis| && forall i | 0 <= i < |users| ::
              users[i].rnti == rntis[i] && users[i].maxRetx == maxRetx
              && ss[i] == NewStanding(maxRetx, bearers, channel)
  {
    sched := new Sched(c.nofPrb, siNRbg, rarNRbg, messages);
    dl := new DlMetricRr.DlMetric();
    ul := new UlMetricRr.UlMetric();
    users, dlProcs, ulProcs := AddUsers(rntis, c.nofPrb, maxRetx, bearers, channel);
    var s := NewStanding(maxRetx, bearers, channel);
    ss := seq(|users|, _ => s);
    forall i | 0 <= i < |users| ensures NewUser(users[i], rntis[i], c.nofPrb, maxRetx, s) { assert Pick(i); }
    MasksStand(users, ss, Rbg.NofGroups(c.nofPrb));
  }
}
