/** What holds of a user over any number of subframes: its processes go through the runs of `DlRuns` and `UlRuns`, so
    everything that is known of those holds of the scheduler. */
module WorkerRuns {
  import opened Modular
  import opened Tti
  import opened Harq
  import opened DlProcs
  import opened Queues
  import opened SchedUser
  import opened Scheduler
  import opened Standings
  import opened Reports
  import opened Worker
  import Broadcast
  import DlAllocation
  import DlLives
  import DlMasks
  import DlRuns
  import PendingAck
  import Pdcch
  import Rbg
  import SiWindows
  import UlAllocation
  import UlRuns
  import UlScheduler

  // ---- One user

  /** Names a subframe: the TTIs of subframes are looked at for the named ones only. */
  predicate Tick(k: int) { true }

  /** The number of the uplink process that is used in the subframe received in TTI `t`. */
  function ProcOf(t: nat): (r: nat)
    ensures r < MAX_HARQ_PROC
  {
    t % MAX_HARQ_PROC
  }

  /** User number `i`, with the identity `rnti`, in the subframes received from TTI `start` on: number `k` is received
      in TTI `ts[k]`, in which the uplink process `pids[k]` is used, and before it the user stands at `own[k]`. */
  datatype Life = Life(i: nat, rnti: nat, maxRetx: nat, p: Setup, start: nat, ts: seq<nat>, pids: seq<nat>,
                       own: seq<Standing>, accounts: seq<Account>, xs: seq<Input>, rs: seq<Result>)
  {
    predicate Shape() {
      && |own| == |xs| + 1 && |ts| == |pids| == |accounts| == |xs| == |rs| && own[0].Ok()
      && (forall k | 0 <= k < |xs| :: i < |accounts[k].turns| == |accounts[k].es|)
      && (forall k | 0 <= k < |ts| :: ts[k] < TTI_PERIOD) && forall k | 0 <= k < |pids| :: pids[k] < MAX_HARQ_PROC
    }

    predicate Timed() {
      && |pids| == |ts|
      && forall k {:trigger Tick(k)} | 0 <= k < |ts| :: ts[k] == TtiAt(start, k) && pids[k] == ProcOf(ts[k])
    }

    /** The user in subframe `k` with everything that was reported. */
    function Prep(k: nat): (h: Standing)
      requires k < |xs| <= |own| && |ts| == |xs| && own[k].Ok()
      ensures h.Ok()
    {
      Prepared(own[k], xs[k], i, ts[k])
    }

    /** What the user is told in subframe `k`. */
    ghost predicate Told(k: nat)
      requires Shape() && k < |xs| && own[k].Ok()
    {
      var found := Prep(k).ul[pids[k]];
      forall ack :: UlScheduler.Phich(rnti, ack) in rs[k].phichs <==>
        p.cell.PrachFits() && UlRuns.Output(found, accounts[k].es[i]).phich == Some(ack)
    }

    ghost predicate Step(k: nat)
      requires Shape() && k < |xs|
    {
      var a, now := accounts[k], TtiTx(ts[k]);
      && a.About(|a.turns|) && p.cell.Valid() && rs[k].blocks == a.stage.blocks
      && a.shares.Given() && a.shares.first == now % |a.turns|
      && (p.cell.PrachFits() ==> RbsFor(|a.turns|, a.rbs, xs[k], p.cell, TtiTx(now)))
      && UserMoved(own[k], own[k + 1], a, i, xs[k], ts[k], p)
      && UserServed(rnti, maxRetx, own[k], a, i, xs[k], ts[k], p, rs[k]) && Told(k)
    }

    ghost predicate Lived() {
      Shape() && Timed() && forall k | 0 <= k < |xs| :: Step(k)
    }

    /** The steps of its downlink processes. */
    function Steps(): (steps: seq<DlRuns.Step>)
      requires Shape()
      ensures |steps| == |xs|
      ensures forall k | 0 <= k < |steps| ::
                steps[k] == accounts[k].turns[i].Step().(feedback := FeedbackFor(xs[k].acks, i, ts[k]))
    {
      seq(|xs|, k requires 0 <= k < |xs| && Shape() =>
        accounts[k].turns[i].Step().(feedback := FeedbackFor(xs[k].acks, i, ts[k])))
    }

    /** The TTI of the first step. */
    function From(): nat {
      TtiTx(start)
    }

    function Share(k: nat): Share
      requires k < |accounts| && i < |accounts[k].shares.ms|
    {
      accounts[k].shares.ms[i]
    }
  }

  /** A user is told what its process waits to tell, and nothing else. */
  lemma {:induction false} ToldIff(users: seq<SchedUe>, found: seq<UlRuns.Ul>, n: nat, i: nat, ack: bool)
    requires Distinct(users) && n <= |users| == |found| && i < |users|
    ensures UlScheduler.Phich(users[i].rnti, ack) in UlScheduler.Phichs(users, found, n) <==>
            i < n && found[i].needAck && found[i].p.tb0.ack == ack
  {
    if n > 0 {
      ToldIff(users, found, n - 1, i, ack);
      assert Pick(i) && Pick(n - 1);
    }
  }

  /** User `i` before each subframe. */
  function Own(trace: seq<seq<Standing>>, i: nat): (own: seq<Standing>)
    requires forall k | 0 <= k < |trace| :: i < |trace[k]|
    ensures |own| == |trace| && forall k | 0 <= k < |own| :: own[k] == trace[k][i]
  {
    seq(|trace|, k requires 0 <= k < |trace| && i < |trace[k]| => trace[k][i])
  }

  function TtisFrom(start: nat, n: nat): (ts: seq<nat>)
    ensures |ts| == n && forall k | 0 <= k < n :: ts[k] == TtiAt(start, k)
  {
    seq(n, k requires 0 <= k < n => TtiAt(start, k))
  }

  function ProcsOf(ts: seq<nat>): (pids: seq<nat>)
    ensures |pids| == |ts| && forall k | 0 <= k < |ts| :: pids[k] == ProcOf(ts[k])
  {
    seq(|ts|, k requires 0 <= k < |ts| => ProcOf(ts[k]))
  }

  lemma AlwaysThere(users: seq<SchedUe>, p: Setup, start: nat, xs: seq<Input>, rs: seq<Result>,
                    accounts: seq<Account>, trace: seq<seq<Standing>>, i: nat)
    requires History(users, p, start, xs, rs, accounts, trace) && i < |users|
    ensures forall k | 0 <= k < |trace| :: i < |trace[k]|
    ensures forall k | 0 <= k < |xs| :: i < |accounts[k].turns| == |accounts[k].es|
  {
    forall k | 0 <= k < |xs| ensures i < |accounts[k].turns| == |accounts[k].es| {
      assert Moved(users, trace[k], trace[k + 1], accounts[k], xs[k], TtiAt(start, k), p, rs[k]);
    }
    forall k | 0 <= k < |trace| ensures i < |trace[k]| {
      if k > 0 {
        assert Moved(users, trace[k - 1], trace[k], accounts[k - 1], xs[k - 1], TtiAt(start, k - 1), p, rs[k - 1]);
      }
    }
  }

  lemma LifeAt(users: seq<SchedUe>, ss: seq<Standing>, after: seq<Standing>, l: Life, k: nat)
    requires l.Shape() && k < |l.xs| && Distinct(users) && l.i < |users| == |ss| == |after|
    requires l.pids[k] == ProcOf(l.ts[k])
    requires l.rnti == users[l.i].rnti && l.maxRetx == users[l.i].maxRetx
    requires l.own[k] == ss[l.i] && l.own[k + 1] == after[l.i]
    requires Moved(users, ss, after, l.accounts[k], l.xs[k], l.ts[k], l.p, l.rs[k])
    ensures l.Step(k)
  {
    assert Pick(l.i);
    var found := FoundAfter(ss, l.xs[k], l.ts[k]);
    if l.p.cell.PrachFits() {
      forall ack ensures UlScheduler.Phich(l.rnti, ack) in l.rs[k].phichs <==>
                         UlRuns.Output(found[l.i], l.accounts[k].es[l.i]).phich == Some(ack)
      {
        ToldIff(users, found, |users|, l.i, ack);
      }
    }
  }

  /** Every user of a history has its life. */
  lemma LifeOf(users: seq<SchedUe>, p: Setup, start: nat, xs: seq<Input>, rs: seq<Result>, accounts: seq<Account>,
               trace: seq<seq<Standing>>, i: nat)
    requires Distinct(users) && History(users, p, start, xs, rs, accounts, trace) && i < |users| && trace[0][i].Ok()
    ensures forall k | 0 <= k < |trace| :: i < |trace[k]|
    ensures var ts, own := TtisFrom(start, |xs|), Own(trace, i);
            Life(i, users[i].rnti, users[i].maxRetx, p, start, ts, ProcsOf(ts), own, accounts, xs, rs).Lived()
  {
    AlwaysThere(users, p, start, xs, rs, accounts, trace, i);
    var ts := TtisFrom(start, |xs|);
    var l := Life(i, users[i].rnti, users[i].maxRetx, p, start, ts, ProcsOf(ts), Own(trace, i), accounts, xs, rs);
    forall k | 0 <= k < |xs| ensures l.Step(k) {
      assert Moved(users, trace[k], trace[k + 1], accounts[k], xs[k], TtiAt(start, k), p, rs[k]);
      LifeAt(users, trace[k], trace[k + 1], l, k);
    }
  }

  // ---- Downlink

  /** What is received in one subframe is answered four TTIs later. */
  lemma SendTti(start: nat, k: nat)
    ensures TtiTx(TtiAt(start, k)) == TtiAt(TtiTx(start), k)
  {
    AddReduced(start + k, 4, TTI_PERIOD);
    AddReduced(start + 4, k, TTI_PERIOD);
  }

  lemma SendsAt(l: Life, k: nat)
    requires l.Lived() && k < |l.xs|
    ensures TtiTx(l.ts[k]) == TtiAt(l.From(), k)
  {
    assert Tick(k);
    SendTti(l.start, k);
  }

  lemma SameSchedule(ps: seq<Proc>, fb: seq<DlRuns.Feedback>, now: nat, turn: Turn)
    requires AllValid(ps) && now < TTI_PERIOD
    ensures DlRuns.After(DlRuns.Heard(ps, fb), now, turn.Step())
         == DlRuns.After(ps, now, turn.Step().(feedback := fb))
    ensures DlRuns.Chosen(DlRuns.Heard(ps, fb), now, turn.pick)
         == DlRuns.Chosen(DlRuns.Heard(ps, fb), now, turn.Step().(feedback := fb).pick)
  {
    assert DlRuns.Heard(DlRuns.Heard(ps, fb), []) == DlRuns.Heard(ps, fb);
  }

  lemma LoadKeepsOk(h: Standing, pid: Option<nat>, dci: bool, mask: nat, nofPrb: nat, nofCtrl: nat)
    requires h.Ok() && (pid.Some? ==> pid.value < |h.procs|)
    ensures NonNegative(LoadFor(h, pid, dci, mask, nofPrb, nofCtrl).lch)
  {
    if pid.Some? && dci {
      var grant := h.channel.block(Rbg.CountTrue(MaskPrbs(mask, nofPrb)), nofCtrl, Backlog(h.lch, |h.lch|));
      PackKeepsNonNegative(h.lch, grant.1);
    }
  }

  /** One subframe is one step of the run of the downlink processes. */
  lemma StepMoves(l: Life, k: nat)
    requires l.Lived() && k < |l.xs|
    ensures l.own[k].Ok() && l.own[k + 1].Ok()
    ensures l.own[k + 1].procs == DlRuns.After(l.own[k].procs, TtiAt(l.From(), k), l.Steps()[k])
  {
    assert l.Step(k);
    var a, h := l.accounts[k], l.Prep(k);
    SendsAt(l, k);
    SameSchedule(l.own[k].procs, FeedbackFor(l.xs[k].acks, l.i, l.ts[k]), TtiTx(l.ts[k]), a.turns[l.i]);
    var pid, g := DlRuns.Chosen(h.procs, TtiTx(l.ts[k]), a.turns[l.i].pick), a.shares.ms[l.i];
    LoadKeepsOk(h, pid, a.turns[l.i].dci, if g.Some? then g.value.mask else 0, l.p.cell.nofPrb, l.xs[k].nofCtrl);
  }

  lemma RunNext(l: Life, k: nat)
    requires l.Lived() && k < |l.xs| && l.own[k].procs == DlRuns.Run(l.own[0].procs, l.From(), l.Steps()[..k])
    ensures l.own[k + 1].Ok()
    ensures l.own[k + 1].procs == DlRuns.Run(l.own[0].procs, l.From(), l.Steps()[..k + 1])
  {
    DlRuns.RunStep(l.own[0].procs, l.From(), l.Steps(), k);
    StepMoves(l, k);
  }

  /** The downlink processes of a user go through one run. */
  lemma ProcsRun(l: Life, k: nat)
    requires l.Lived() && k <= |l.xs|
    ensures l.own[k].Ok() && l.own[k].procs == DlRuns.Run(l.own[0].procs, l.From(), l.Steps()[..k])
  {
    for m := 0 to k
      invariant l.own[m].Ok() && l.own[m].procs == DlRuns.Run(l.own[0].procs, l.From(), l.Steps()[..m])
    {
      RunNext(l, m);
    }
  }

  /** After any number of subframes no block has been retransmitted more often than its limit allows. */
  lemma UserStaysBounded(l: Life, k: nat)
    requires l.Lived() && k <= |l.xs| && DlRuns.Format1(l.own[0].procs)
    ensures DlRuns.Format1(l.own[k].procs)
  {
    ProcsRun(l, k);
    DlRuns.RetxBounded(l.own[0].procs, l.From(), l.Steps()[..k]);
  }

  /** The process that a user chooses in a subframe is that of its share. */
  lemma ChosenHasShare(l: Life, k: nat)
    requires l.Lived() && k < |l.xs|
    ensures l.own[k].Ok() && l.i < |l.accounts[k].shares.ms|
    ensures l.Prep(k).procs == DlLives.HeardAt(l.own[0].procs, l.From(), l.Steps(), k)
    ensures match DlRuns.ChosenBy(l.own[0].procs, l.From(), l.Steps(), k)
            case None => l.Share(k).None?
            case Some(q) => l.Share(k).Some? && l.Share(k).value.pid == q
  {
    ProcsRun(l, k);
    SendsAt(l, k);
    assert l.Step(k);
  }

  /** A grant goes out on the process of the share. */
  lemma ShareWasSent(l: Life, k: nat)
    requires l.Lived() && k < |l.xs| && HasData(l.rs[k].data, l.rnti)
    requires l.i < |l.accounts[k].shares.ms| && l.Share(k).Some?
    ensures l.own[0].Ok() && l.own[k].Ok()
    ensures DlRuns.SentBy(l.own[0].procs, l.From(), l.Steps(), k) == Some(l.Share(k).value.pid)
    ensures l.Prep(k).procs == DlLives.HeardAt(l.own[0].procs, l.From(), l.Steps(), k)
  {
    ChosenHasShare(l, k);
    assert l.Step(k);
  }

  lemma DataWasSent(l: Life, k: nat)
    requires l.Lived() && k < |l.xs| && HasData(l.rs[k].data, l.rnti)
    ensures l.own[0].Ok() && DlRuns.SentBy(l.own[0].procs, l.From(), l.Steps(), k).Some?
  {
    ChosenHasShare(l, k);
    assert l.Step(k);
  }

  // ---- Demand

  /** The user as the allocator sees it in subframe `k`: it needs what was last reported for its bearers and its
      channel. */
  function Seen(l: Life, k: nat): (v: DlAllocation.View)
    requires k < |l.xs| <= |l.own| && |l.ts| == |l.xs| && l.ts[k] < TTI_PERIOD && l.own[k].Ok()
  {
    ViewOf(l.Prep(k), l.p.cell.nofPrb, TtiTx(l.ts[k]), l.xs[k].nofCtrl)
  }

  /** A user needs groups exactly if bytes wait on its downlink bearers: as many as the fewest PRBs that hold them lie
      in, or all if no number of PRBs does. */
  lemma NeedIs(h: Standing, nofPrb: nat, now: nat, nofCtrl: nat) returns (prbs: nat)
    requires h.Ok() && now < TTI_PERIOD && nofPrb > 0 && forall n, c :: h.channel.approxTbs(n, c) >= 0
    ensures var v, waiting := ViewOf(h, nofPrb, now, nofCtrl), Backlog(h.lch, |h.lch|);
            var bytes := BytesWanted(waiting, FirstDlTx(h.procs));
            && v.need == Rbg.CeilDiv(prbs, Rbg.GroupSize(nofPrb)) && (v.need > 0 <==> waiting > 0)
            && bytes >= waiting && prbs <= nofPrb
            && (forall n | 0 < n < prbs :: h.channel.approxTbs(n, nofCtrl) < bytes)
            && (0 < prbs < nofPrb ==> h.channel.approxTbs(prbs, nofCtrl) >= bytes)
  {
    var waiting := Backlog(h.lch, |h.lch|);
    var bytes := BytesWanted(waiting, FirstDlTx(h.procs));
    prbs := RequiredFrom(h.channel.approxTbs, nofCtrl, nofPrb, bytes, 0, 0);
    if waiting > 0 { RequiredIsLeast(h.channel.approxTbs, nofCtrl, nofPrb, bytes, 0, 0); }
  }

  /** In each subframe a user has the share that is right for its demand, on top of the blocks and of the users before
      it, whose groups are `taken`. */
  lemma ShareForDemand(l: Life, k: nat) returns (taken: seq<bool>)
    requires l.Lived() && k < |l.xs|
    ensures var r, st := l.accounts[k].shares, l.accounts[k].stage;
            && l.own[k].Ok() && l.i < |r.ms| == |r.vs| && r.first < |r.vs| && |taken| == r.start + r.free
            && r.start == st.start && r.free == st.avail
            && (forall n | 0 <= n < |taken| :: taken[n] <==> n < r.start || TakenBefore(r, l.i, n))
            && DlAllocation.ViewOk(Seen(l, k), |taken|)
            && DlAllocation.ServedRight(taken, r.free, Seen(l, k), r.ms[l.i])
  {
    assert l.Step(k);
    taken := ShareIsRight(l.accounts[k].shares, l.i);
  }

  /** A user without a retransmission, with an empty process and data for some groups is given as many groups for it as
      that data needs, or as many as are left at its turn. */
  lemma DemandIsMet(l: Life, k: nat) returns (taken: seq<bool>)
    requires l.Lived() && k < |l.xs| && l.own[k].Ok()
    requires Seen(l, k).retx.None? && Seen(l, k).empty.Some? && Seen(l, k).need > 0
    ensures var r := l.accounts[k].shares;
            && l.i < |r.ms| == |r.vs| && r.first < |r.vs| && |taken| == r.start + r.free
            && (forall n | 0 <= n < |taken| :: taken[n] <==> n < r.start || TakenBefore(r, l.i, n))
            && (r.ms[l.i].Some? <==> Rbg.NofFree(taken) > 0)
            && (r.ms[l.i].Some? ==>
                  && Some(r.ms[l.i].value.pid) == Seen(l, k).empty
                  && DlAllocation.SizeOf(r.ms[l.i].value.mask, |taken|)
                     == DlAllocation.Least(Seen(l, k).need, Rbg.NofFree(taken)))
  {
    taken := ShareForDemand(l, k);
  }

  lemma {:induction false} BearerCounts(lch: seq<Bearer>, n: nat, b: nat)
    requires NonNegative(lch) && b < n <= |lch| && lch[b].isDl
    ensures Backlog(lch, n) >= lch[b].retx + lch[b].tx
  {
    if b < n - 1 { BearerCounts(lch, n - 1, b); }
  }

  /** Bytes are reported for a downlink bearer of a user that has an empty process and no retransmission: the user then
      needs the groups in which the fewest PRBs lie that hold all that waits, and is given as many of these as are left
      at its turn. */
  lemma ReportIsServed(l: Life, k: nat, m: nat) returns (taken: seq<bool>, prbs: nat)
    requires l.Lived() && k < |l.xs| && l.own[k].Ok() && m < |l.xs[k].queues|
    requires var q := l.xs[k].queues[m];
             && q.user == l.i && LastQueue(l.xs[k].queues, m) && q.retx + q.tx > 0
             && q.lcid < |l.own[k].lch| && l.own[k].lch[q.lcid].isDl
    requires Seen(l, k).retx.None? && Seen(l, k).empty.Some?
    requires forall n, c :: l.Prep(k).channel.approxTbs(n, c) >= 0
    ensures var r, h, c := l.accounts[k].shares, l.Prep(k), l.xs[k].nofCtrl;
            var bytes := BytesWanted(Backlog(h.lch, |h.lch|), FirstDlTx(h.procs));
            && bytes >= l.xs[k].queues[m].retx + l.xs[k].queues[m].tx
            && 0 < prbs <= l.p.cell.nofPrb && (forall n | 0 < n < prbs :: h.channel.approxTbs(n, c) < bytes)
            && (prbs < l.p.cell.nofPrb ==> h.channel.approxTbs(prbs, c) >= bytes)
            && |taken| == r.start + r.free && l.i < |r.ms| == |r.vs| && r.first < |r.vs|
            && (forall n | 0 <= n < |taken| :: taken[n] <==> n < r.start || TakenBefore(r, l.i, n))
            && (r.ms[l.i].Some? <==> Rbg.NofFree(taken) > 0)
            && (r.ms[l.i].Some? ==>
                  DlAllocation.SizeOf(r.ms[l.i].value.mask, |taken|)
                  == DlAllocation.Least(Rbg.CeilDiv(prbs, Rbg.GroupSize(l.p.cell.nofPrb)), Rbg.NofFree(taken)))
  {
    var h, q := l.Prep(k), l.xs[k].queues[m];
    BearerHolds(l.own[k].lch, l.xs[k].queues, m);
    BearerCounts(h.lch, |h.lch|, q.lcid);
    assert l.Step(k);
    prbs := NeedIs(h, l.p.cell.nofPrb, TtiTx(l.ts[k]), l.xs[k].nofCtrl);
    taken := DemandIsMet(l, k);
  }

  /** The data that goes out to a user in a new block is what was waiting, in as many bytes as the block has, and leaves
      its bearers; with a block that is repeated none does. */
  lemma DataIsTaken(l: Life, k: nat)
    requires l.Lived() && k < |l.xs| && HasData(l.rs[k].data, l.rnti)
    ensures l.own[k].Ok() && l.i < |l.accounts[k].shares.ms| && l.Share(k).Some?
    ensures l.Share(k).value.pid < MAX_HARQ_PROC
    ensures forall m | 0 <= m < |l.rs[k].data| && l.rs[k].data[m].rnti == l.rnti ::
              var d, queued := l.rs[k].data[m], Total(Flat(l.Prep(k).lch));
              && d.mask == l.Share(k).value.mask
              && PduBytes(d.pdus)
                 == (if l.Prep(k).procs[l.Share(k).value.pid].tb0.IsEmpty() then Min(d.tbs, queued) else 0)
              && Total(Flat(l.own[k + 1].lch)) == queued - PduBytes(d.pdus)
  {
    assert l.Step(k);
    var h, pid, mask := l.Prep(k), l.Share(k).value.pid, l.Share(k).value.mask;
    LoadConserves(h.procs, pid, h.lch, h.channel.block, Rbg.CountTrue(MaskPrbs(mask, l.p.cell.nofPrb)),
                  l.xs[k].nofCtrl);
  }

  // ---- Feedback to what was sent

  lemma {:induction false} FeedbackIs(acks: seq<Report>, i: nat, t: nat, f: DlRuns.Feedback) returns (m: nat)
    requires f in FeedbackFor(acks, i, t)
    ensures f.tti == t && m < |acks| && acks[m].user == i
  {
    var n := |acks| - 1;
    if f in FeedbackFor(acks[..n], i, t) { m := FeedbackIs(acks[..n], i, t, f); } else { m := n; }
  }

  lemma {:induction false} GrantedToSome(grants: seq<PendingAck.Grant>, rnti: nat, tb: nat)
    requires PendingAck.GrantsTo(grants, rnti, tb)
    ensures exists g :: g in grants && g.rnti == rnti
  {
    var n := |grants| - 1;
    if grants[n].rnti == rnti { assert grants[n] in grants; } else { GrantedToSome(grants[..n], rnti, tb); }
  }

  /** The answer to question `j` of subframe `k` is yes. */
  ghost predicate Expected(sfs: seq<PendingAck.Subframe>, ring: PendingAck.Ring, slot: nat -> nat, start: nat,
                           rnti: nat, k: nat, j: nat)
    requires k < |sfs| && j < |sfs[k].asks| && PendingAck.Spaced(slot, |ring|)
  {
    PendingAck.AnswerTo(PendingAck.Run(ring, rnti, slot, start, sfs[..k]), slot(start + k), sfs[k].asks, j).expected
  }

  /** The PHY expects feedback of the user `rnti` in `ring`, and passes on what it expects: what it takes for grants to
      the user are grants that went out, and every acknowledgment of user `i` was asked for and expected. */
  ghost predicate PassedOn(xs: seq<Input>, rs: seq<Result>, sfs: seq<PendingAck.Subframe>, ring: PendingAck.Ring,
                           slot: nat -> nat, start: nat, i: nat, rnti: nat, k: nat)
    requires k < |xs| == |rs| == |sfs| && PendingAck.Spaced(slot, |ring|)
  {
    && (forall g | g in sfs[k].grants && g.rnti == rnti :: HasData(rs[k].data, rnti))
    && (forall j | 0 <= j < |sfs[k].asks| :: sfs[k].asks[j].tb < PendingAck.MAX_TB)
    && forall m | 0 <= m < |xs[k].acks| && xs[k].acks[m].user == i ::
         exists j | 0 <= j < |sfs[k].asks| ::
           sfs[k].asks[j] == PendingAck.Ask(rnti, 0) && Expected(sfs, ring, slot, start, rnti, k, j)
  }

  /** What is expected answers data that went out eight subframes before. */
  lemma ExpectedWasSent(l: Life, sfs: seq<PendingAck.Subframe>, ring: PendingAck.Ring, slot: nat -> nat, k: nat, j: nat)
    requires l.Lived() && |sfs| == |l.xs| && k < |l.xs|
    requires PendingAck.Spaced(slot, |ring|) && PendingAck.Idle(ring)
    requires forall m | 0 <= m < |l.xs| :: PassedOn(l.xs, l.rs, sfs, ring, slot, l.start, l.i, l.rnti, m)
    requires j < |sfs[k].asks| && sfs[k].asks[j] == PendingAck.Ask(l.rnti, 0)
    requires Expected(sfs, ring, slot, l.start, l.rnti, k, j)
    ensures k >= 8 && DlRuns.SentBy(l.own[0].procs, l.From(), l.Steps(), k - 8).Some?
  {
    assert PassedOn(l.xs, l.rs, sfs, ring, slot, l.start, l.i, l.rnti, k);
    PendingAck.FeedbackAskedForOnce(ring, slot, l.start, sfs, k, j);
    GrantedToSome(PendingAck.AnsweredIn(sfs, k), l.rnti, 0);
    assert PassedOn(l.xs, l.rs, sfs, ring, slot, l.start, l.i, l.rnti, k - 8);
    DataWasSent(l, k - 8);
  }

  lemma AnswerTti(start: nat, k: nat)
    requires k >= 8
    ensures TtiAt(start, k) == TtiTx(TtiAt(TtiTx(start), k - 8))
  {
    AddReduced(TtiTx(start) + (k - 8), 4, TTI_PERIOD);
    AddReduced(start + 4, k - 4, TTI_PERIOD);
  }

  /** If the PHY passes on what its ring expects, and nothing was expected before, the run of the user hears answers to
      what was sent only. */
  lemma AnswersOnly(l: Life, sfs: seq<PendingAck.Subframe>, ring: PendingAck.Ring, slot: nat -> nat)
    requires l.Lived() && |sfs| == |l.xs| && PendingAck.Spaced(slot, |ring|) && PendingAck.Idle(ring)
    requires forall k | 0 <= k < |l.xs| :: PassedOn(l.xs, l.rs, sfs, ring, slot, l.start, l.i, l.rnti, k)
    ensures DlRuns.OnlyAnswers(l.own[0].procs, l.From(), l.Steps())
  {
    var ps, steps := l.own[0].procs, l.Steps();
    forall k | 0 <= k < |steps| ensures DlRuns.HearsAnswers(ps, l.From(), steps, k) {
      forall f | f in steps[k].feedback
        ensures k >= 8 && DlRuns.SentBy(ps, l.From(), steps, k - 8).Some?
        ensures f.tti == TtiTx(TtiAt(l.From(), k - 8))
      {
        var m := FeedbackIs(l.xs[k].acks, l.i, l.ts[k], f);
        assert PassedOn(l.xs, l.rs, sfs, ring, slot, l.start, l.i, l.rnti, k);
        var j :| 0 <= j < |sfs[k].asks| && sfs[k].asks[j] == PendingAck.Ask(l.rnti, 0)
                 && Expected(sfs, ring, slot, l.start, l.rnti, k, j);
        ExpectedWasSent(l, sfs, ring, slot, k, j);
        assert Tick(k);
        AnswerTti(l.start, k);
      }
    }
  }

  lemma LifeIsProper(l: Life)
    requires l.Lived() && DlRuns.AllFresh(l.own[0].procs) && DlRuns.MayRetransmit(l.own[0].procs)
    requires DlRuns.OnlyAnswers(l.own[0].procs, l.From(), l.Steps())
    requires forall m | 0 <= m < |l.xs| :: ReportsFor(l.xs[m].acks, l.i) <= 1
    ensures DlLives.Proper(l.own[0].procs, l.From(), l.Steps())
  {
    var steps := l.Steps();
    forall m | 0 <= m < |steps| ensures |steps[m].feedback| <= 1 { ReportsCount(l.xs[m].acks, l.i, l.ts[m]); }
  }

  /** The data of a user has the size on record in its process, which that of a repeated block was before. */
  lemma SentSize(l: Life, k: nat, q: nat)
    requires l.Lived() && k < |l.xs| && DlRuns.Format1(l.own[0].procs) && DlRuns.MayRetransmit(l.own[0].procs)
    requires HasData(l.rs[k].data, l.rnti) && l.i < |l.accounts[k].shares.ms|
    requires l.Share(k).Some? && l.Share(k).value.pid == q < MAX_HARQ_PROC
    ensures forall m | 0 <= m < |l.rs[k].data| && l.rs[k].data[m].rnti == l.rnti ::
              l.rs[k].data[m].tbs == DlLives.After1(l.own[0].procs, l.From(), l.Steps(), k, q).tb0.lastTbs
  {
    ShareWasSent(l, k);
    DlLives.SendIs(l.own[0].procs, l.From(), l.Steps(), k, q);
    assert l.Step(k);
  }

  /** A new user that only answers what it was sent, at most once in each subframe: its downlink
      blocks live as those of `DlLives` do. What goes out next on a process, in subframe `j` after subframe `k`, does
      not go out before the answer, and is a new block exactly if the answer was positive or the last one, or the block
      was too old. */
  lemma BlocksLive(l: Life, k: nat, q: nat, j: nat)
    requires l.Lived() && DlRuns.AllFresh(l.own[0].procs) && DlRuns.MayRetransmit(l.own[0].procs)
    requires DlRuns.OnlyAnswers(l.own[0].procs, l.From(), l.Steps())
    requires forall m | 0 <= m < |l.xs| :: ReportsFor(l.xs[m].acks, l.i) <= 1
    requires DlLives.NotSince(l.own[0].procs, l.From(), l.Steps(), k, q, j)
    requires j < |l.xs| && j < k + 8 + TTI_PERIOD && HasData(l.rs[j].data, l.rnti) && l.own[j].Ok()
    requires l.i < |l.accounts[j].shares.ms| && l.Share(j).Some? && l.Share(j).value.pid == q
    ensures j >= k + 8 && q < MAX_HARQ_PROC
    ensures var ended := DlLives.Ended(l.own[0].procs, l.From(), l.Steps(), k, q);
            && (DlLives.NewData(l.own[0].procs, l.From(), l.Steps(), j, q) <==> ended || j > k + TIMEOUT_MS + 1)
            && (l.Prep(j).procs[q].tb0.IsEmpty() <==> ended || j > k + TIMEOUT_MS + 1)
  {
    var ps, steps := l.own[0].procs, l.Steps();
    LifeIsProper(l);
    ShareWasSent(l, j);
    DlLives.NextSend(ps, l.From(), steps, k, q, j);
    DlLives.SendIs(ps, l.From(), steps, j, q);
  }

  /** A block is repeated in its size: the data of subframe `j` has that of subframe `k`, in which its process sent
      before. */
  lemma RepeatedSize(l: Life, k: nat, q: nat, j: nat, m: nat, n: nat)
    requires l.Lived() && DlRuns.AllFresh(l.own[0].procs) && DlRuns.MayRetransmit(l.own[0].procs)
    requires DlRuns.OnlyAnswers(l.own[0].procs, l.From(), l.Steps())
    requires forall m | 0 <= m < |l.xs| :: ReportsFor(l.xs[m].acks, l.i) <= 1
    requires DlLives.NotSince(l.own[0].procs, l.From(), l.Steps(), k, q, j)
    requires j < |l.xs| && j < k + 8 + TTI_PERIOD && q < MAX_HARQ_PROC
    requires l.i < |l.accounts[k].shares.ms| && l.Share(k).Some? && l.Share(k).value.pid == q
    requires l.i < |l.accounts[j].shares.ms| && l.Share(j).Some? && l.Share(j).value.pid == q
    requires m < |l.rs[k].data| && l.rs[k].data[m].rnti == l.rnti
    requires n < |l.rs[j].data| && l.rs[j].data[n].rnti == l.rnti
    requires !DlLives.NewData(l.own[0].procs, l.From(), l.Steps(), j, q)
    ensures l.rs[j].data[n].tbs == l.rs[k].data[m].tbs
  {
    LifeIsProper(l);
    SentSize(l, k, q);
    SentSize(l, j, q);
    ShareWasSent(l, j);
    DlLives.NextSend(l.own[0].procs, l.From(), l.Steps(), k, q, j);
  }

  /** Whether something was sent to the user since it is new, on a process that was not reset since. */
  ghost predicate WasSent(l: Life, k: nat)
    requires l.Lived() && k <= |l.xs|
  {
    exists q | 0 <= q < MAX_HARQ_PROC :: DlLives.SentSince(l.own[0].procs, l.From(), l.Steps(), k, q)
  }

  lemma FirstIff(l: Life, k: nat)
    requires l.Lived() && k < |l.xs| && l.own[k].Ok() && DlRuns.AllFresh(l.own[0].procs)
    ensures FirstDlTx(l.Prep(k).procs) <==> !WasSent(l, k)
  {
    var ps, steps := l.own[0].procs, l.Steps();
    ProcsRun(l, k);
    forall q | 0 <= q < MAX_HARQ_PROC
      ensures l.Prep(k).procs[q].tb0.txCnt == 0 <==> !DlLives.SentSince(ps, l.From(), steps, k, q)
    {
      DlLives.CountsSends(ps, l.From(), steps, k, q);
      DlLives.FeedbackKeepsCount(l.own[k].procs, FeedbackFor(l.xs[k].acks, l.i, l.ts[k]), q);
    }
  }

  /** A new user is sent the contention resolution message exactly with new blocks before anything else went out, or as
      long as everything that went out was given up. */
  lemma ConResWithFirst(l: Life, k: nat)
    requires l.Lived() && k < |l.xs| && l.own[k].Ok() && DlRuns.AllFresh(l.own[0].procs)
    requires l.i < |l.accounts[k].shares.ms| && l.Share(k).Some? && l.Share(k).value.pid < MAX_HARQ_PROC
    ensures forall m | 0 <= m < |l.rs[k].data| && l.rs[k].data[m].rnti == l.rnti ::
              Pdu(CON_RES_ID, 0) in l.rs[k].data[m].pdus
              <==> l.Prep(k).procs[l.Share(k).value.pid].tb0.IsEmpty() && !WasSent(l, k)
  {
    FirstIff(l, k);
    assert l.Step(k);
    var h := l.Prep(k);
    ConResIff(h.procs, l.Share(k).value.pid, h.lch, h.channel.block,
              Rbg.CountTrue(MaskPrbs(l.Share(k).value.mask, l.p.cell.nofPrb)), l.xs[k].nofCtrl);
  }

  // ---- Round robin

  function MasksOf(own: seq<Standing>): (masks: seq<seq<nat>>)
    ensures |masks| == |own| && forall k | 0 <= k < |own| :: masks[k] == own[k].masks
  {
    seq(|own|, k requires 0 <= k < |own| => own[k].masks)
  }

  lemma TurnedMasks(h: Standing, mid: Standing, turn: Turn, shares: Shares, i: nat, now: nat, nofPrb: nat, nofCtrl: nat,
                    ps: seq<Proc>, fb: seq<DlRuns.Feedback>)
    requires now < TTI_PERIOD && AllValid(ps) && h.Ok() && h.procs == DlRuns.Heard(ps, fb)
    requires shares.Given() && DlTurned(h, mid, turn, shares, i, now, nofPrb, nofCtrl)
    ensures DlMasks.MasksStep(ps, now, turn.Step().(feedback := fb), h.masks, mid.masks)
  {
    EmptyShareIff(shares, i);
  }

  lemma MasksStepOf(l: Life, k: nat)
    requires l.Lived() && k < |l.xs|
    ensures l.own[k].Ok() && l.own[k + 1].Ok()
    ensures DlMasks.MasksStep(l.own[k].procs, TtiTx(l.ts[k]), l.Steps()[k], l.own[k].masks, l.own[k + 1].masks)
  {
    StepMoves(l, k);
    assert l.Step(k);
    var a, h := l.accounts[k], l.Prep(k);
    TurnedMasks(h, l.own[k + 1].(ul := h.ul), a.turns[l.i], a.shares, l.i, TtiTx(l.ts[k]), l.p.cell.nofPrb,
                l.xs[k].nofCtrl, l.own[k].procs, FeedbackFor(l.xs[k].acks, l.i, l.ts[k]));
  }

  /** The masks of a user go along with its run. */
  lemma MasksGoAlong(l: Life)
    requires l.Lived()
    ensures DlMasks.MasksOver(l.own[0].procs, l.From(), l.Steps(), MasksOf(l.own))
  {
    var ps, steps, masks := l.own[0].procs, l.Steps(), MasksOf(l.own);
    forall k | 0 <= k < |steps|
      ensures DlMasks.MasksStep(DlRuns.Run(ps, l.From(), steps[..k]), TtiAt(l.From(), k), steps[k], masks[k],
                                masks[k + 1])
    {
      ProcsRun(l, k);
      SendsAt(l, k);
      MasksStepOf(l, k);
    }
  }

  /** A new user that only answers what it was sent never waits to repeat what went out on an empty mask. */
  lemma NeverRepeatsNothing(l: Life, k: nat)
    requires l.Lived() && k < |l.xs|
    requires DlRuns.AllFresh(l.own[0].procs) && DlRuns.MayRetransmit(l.own[0].procs)
    requires DlRuns.OnlyAnswers(l.own[0].procs, l.From(), l.Steps())
    ensures l.i < |l.accounts[k].shares.ms| && !DlAllocation.RepeatsNothing(l.accounts[k].shares.Round(), l.i)
    ensures l.Share(k).Some? ==> l.Share(k).value.mask != 0
  {
    MasksGoAlong(l);
    DlMasks.NeverRepeatsNothing(l.own[0].procs, l.From(), l.Steps(), MasksOf(l.own), k);
    ProcsRun(l, k);
    SendsAt(l, k);
    assert l.Step(k);
    EmptyShareIff(l.accounts[k].shares, l.i);
  }

  /** The shares of `len` subframes from number `from` on. */
  function SharesFrom(accounts: seq<Account>, from: nat, len: nat): (rs: seq<Shares>)
    requires from + len <= |accounts|
    ensures |rs| == len && forall m | 0 <= m < len :: rs[m] == accounts[from + m].shares
  {
    seq(len, m requires 0 <= m < len => accounts[from + m].shares)
  }

  /** In all these subframes user `i` of `n` has data and an empty process, and some group is left by the blocks. */
  predicate WaitsFor(rs: seq<Shares>, n: nat, i: nat) {
    forall m | 0 <= m < |rs| :: DlAllocation.Waiting(rs[m].Round(), n, i)
  }

  lemma Later(start: nat, from: nat, m: nat)
    ensures TtiTx(TtiAt(start, from + m)) == TtiAt(TtiAt(TtiTx(start), from), m)
  {
    SendTti(start, from + m);
    AddReduced(TtiTx(start) + from, m, TTI_PERIOD);
  }

  /** Who comes first depends on the TTI. */
  lemma FirstLater(l: Life, from: nat, m: nat, n: nat)
    requires l.Lived() && from + m < |l.xs| && l.i < n
    requires DlAllocation.Waiting(l.accounts[from + m].shares.Round(), n, l.i)
    ensures l.accounts[from + m].shares.Given()
    ensures l.accounts[from + m].shares.first == TtiAt(TtiAt(l.From(), from), m) % n
  {
    assert l.Step(from + m) && Tick(from + m);
    Later(l.start, from, m);
  }

  /** A new user of `n` that only answers what it was sent, and keeps data and an empty process, is given a group within
      2n-1 subframes, whatever the others want, and within n if the TTI counter does not wrap meanwhile. */
  lemma ServedInTurn(l: Life, from: nat, n: nat) returns (k: nat)
    requires l.Lived() && DlRuns.AllFresh(l.own[0].procs) && DlRuns.MayRetransmit(l.own[0].procs)
    requires DlRuns.OnlyAnswers(l.own[0].procs, l.From(), l.Steps())
    requires l.i < n <= TTI_PERIOD && from + 2 * n - 1 <= |l.xs|
    requires WaitsFor(SharesFrom(l.accounts, from, 2 * n - 1), n, l.i)
    ensures from <= k < from + 2 * n - 1 && l.accounts[k].shares.Gets(l.i)
    ensures TtiAt(l.From(), from) + n <= TTI_PERIOD ==> k < from + n
  {
    var t, shares := TtiAt(l.From(), from), SharesFrom(l.accounts, from, 2 * n - 1);
    forall m | 0 <= m < 2 * n - 1 ensures shares[m].Given() && shares[m].first == TtiAt(t, m) % n {
      assert DlAllocation.Waiting(shares[m].Round(), n, l.i);
      FirstLater(l, from, m, n);
    }
    var d := ServedSoon(t, shares, n, l.i);
    k := from + d;
    NeverRepeatsNothing(l, k);
  }

  // ---- Uplink

  /** The subframe in which the process that is first used in subframe `k0` has its opportunity number `m`. */
  function Nth(k0: nat, m: nat): nat {
    k0 + MAX_HARQ_PROC * m
  }

  /** The first `m` opportunities of that process. */
  function ChancesOf(l: Life, k0: nat, m: nat): (cs: seq<UlRuns.Chance>)
    requires l.Shape() && (m > 0 ==> Nth(k0, m - 1) < |l.xs|)
    ensures |cs| == m
    ensures forall j | 0 <= j < m :: cs[j] == UlRuns.Chance(CrcsFor(l.xs[Nth(k0, j)].crcs, l.i),
                                                            l.accounts[Nth(k0, j)].es[l.i])
  {
    seq(m, j requires 0 <= j < m && Nth(k0, j) < |l.xs| && l.Shape() =>
      UlRuns.Chance(CrcsFor(l.xs[Nth(k0, j)].crcs, l.i), l.accounts[Nth(k0, j)].es[l.i]))
  }

  /** Eight subframes later it is the turn of the same process, and of no other in between: eight divides 10240. */
  lemma ProcAt(start: nat, k: nat, d: nat)
    requires d <= MAX_HARQ_PROC
    ensures ProcOf(TtiAt(start, k + d)) == ProcOf(TtiAt(start, k)) <==> d == 0 || d == MAX_HARQ_PROC
  {
    ModMod(start + k, 8, 1280);
    ModMod(start + k + d, 8, 1280);
    assert TTI_PERIOD == 1280 * 8;
  }

  lemma {:induction false} ProcOfNth(start: nat, k0: nat, m: nat)
    ensures ProcOf(TtiAt(start, Nth(k0, m))) == ProcOf(TtiAt(start, k0))
  {
    if m > 0 {
      ProcOfNth(start, k0, m - 1);
      ProcAt(start, Nth(k0, m - 1), MAX_HARQ_PROC);
    }
  }

  lemma ProcIn(l: Life, k: nat, d: nat)
    requires l.Lived() && d <= MAX_HARQ_PROC && k + d < |l.xs|
    ensures l.pids[k + d] == l.pids[k] <==> d == 0 || d == MAX_HARQ_PROC
  {
    assert Tick(k) && Tick(k + d);
    ProcAt(l.start, k, d);
  }

  lemma ProcInNth(l: Life, k0: nat, m: nat)
    requires l.Lived() && Nth(k0, m) < |l.xs|
    ensures l.pids[Nth(k0, m)] == l.pids[k0]
  {
    assert Tick(k0) && Tick(Nth(k0, m));
    ProcOfNth(l.start, k0, m);
  }

  lemma TakenAt(ul: seq<UlRuns.Ul>, crcs: seq<Report>, i: nat, e: UlRuns.Env, r: nat)
    requires r < |ul|
    ensures var found := CheckedBy(ul, crcs, i, r);
            && found[r] == UlRuns.Checked(ul[r], CrcsFor(crcs, i))
            && found[r := UlRuns.Opportunity(UlRuns.Reported(found[r]), e).0]
               == ul[r := UlRuns.Taken(ul[r], UlRuns.Chance(CrcsFor(crcs, i), e))]
  {
  }

  /** What a subframe is to the uplink processes of a user. */
  lemma UlMoves(l: Life, k: nat)
    requires l.Lived() && k < |l.xs| && l.p.cell.PrachFits()
    ensures |l.own[k].ul| == |l.own[k + 1].ul| == MAX_HARQ_PROC && l.own[k].Ok()
    ensures var r := l.pids[k];
            && l.Prep(k).ul[r] == UlRuns.Checked(l.own[k].ul[r], CrcsFor(l.xs[k].crcs, l.i))
            && l.own[k + 1].ul == l.own[k].ul[r := UlRuns.Taken(l.own[k].ul[r],
                 UlRuns.Chance(CrcsFor(l.xs[k].crcs, l.i), l.accounts[k].es[l.i]))]
  {
    StepMoves(l, k);
    assert l.Step(k) && Tick(k);
    TakenAt(l.own[k].ul, l.xs[k].crcs, l.i, l.accounts[k].es[l.i], l.pids[k]);
  }

  /** A process stays as it is in the subframes of other processes. */
  lemma {:induction false} StaysFor(l: Life, k: nat, d: nat, r: nat)
    requires l.Lived() && k + d <= |l.xs| && r < MAX_HARQ_PROC && l.p.cell.PrachFits()
    requires forall n | k <= n < k + d :: l.pids[n] != r
    ensures |l.own[k].ul| == |l.own[k + d].ul| == MAX_HARQ_PROC && l.own[k + d].ul[r] == l.own[k].ul[r]
  {
    if d == 0 {
      ProcsRun(l, k);
    } else {
      StaysFor(l, k, d - 1, r);
      UlMoves(l, k + d - 1);
      assert l.pids[k + d - 1] != r;
    }
  }

  /** From one opportunity to the next. */
  lemma UntilNext(l: Life, k: nat, r: nat)
    requires l.Lived() && l.p.cell.PrachFits() && k + MAX_HARQ_PROC <= |l.xs| && r == l.pids[k]
    ensures |l.own[k].ul| == |l.own[k + MAX_HARQ_PROC].ul| == MAX_HARQ_PROC
    ensures l.own[k + MAX_HARQ_PROC].ul[r]
         == UlRuns.Taken(l.own[k].ul[r], UlRuns.Chance(CrcsFor(l.xs[k].crcs, l.i), l.accounts[k].es[l.i]))
  {
    UlMoves(l, k);
    forall n | k + 1 <= n < k + 8 ensures l.pids[n] != r { ProcIn(l, k, n - k); }
    StaysFor(l, k + 1, 7, r);
  }

  lemma CourseNext(l: Life, k0: nat, m: nat, r: nat)
    requires l.Lived() && l.p.cell.PrachFits() && 0 < m && Nth(k0, m) <= |l.xs|
    requires k0 < MAX_HARQ_PROC && k0 < |l.xs| && r == l.pids[k0] && |l.own[Nth(k0, m - 1)].ul| == MAX_HARQ_PROC
    requires l.own[Nth(k0, m - 1)].ul[r] == UlRuns.Course(l.own[0].ul[r], ChancesOf(l, k0, m - 1))
    ensures |l.own[Nth(k0, m)].ul| == MAX_HARQ_PROC
    ensures l.own[Nth(k0, m)].ul[r] == UlRuns.Course(l.own[0].ul[r], ChancesOf(l, k0, m))
  {
    ProcInNth(l, k0, m - 1);
    UntilNext(l, Nth(k0, m - 1), r);
    assert ChancesOf(l, k0, m)[..m - 1] == ChancesOf(l, k0, m - 1);
  }

  /** An uplink process takes its opportunities one after the other. */
  lemma {:induction false} CourseOf(l: Life, k0: nat, m: nat, r: nat)
    requires l.Lived() && l.p.cell.PrachFits() && Nth(k0, m) <= |l.xs|
    requires k0 < MAX_HARQ_PROC && k0 < |l.xs| && r == l.pids[k0]
    ensures |l.own[Nth(k0, m)].ul| == MAX_HARQ_PROC
    ensures l.own[Nth(k0, m)].ul[r] == UlRuns.Course(l.own[0].ul[r], ChancesOf(l, k0, m))
  {
    if m == 0 {
      forall n | 0 <= n < k0 ensures l.pids[n] != r { ProcIn(l, n, k0 - n); }
      StaysFor(l, 0, k0, r);
    } else {
      CourseOf(l, k0, m - 1, r);
      CourseNext(l, k0, m, r);
    }
  }

  /** `r` is the process that is first used in subframe `k0`, and there are `n` opportunities of it. */
  predicate Uplink(l: Life, k0: nat, n: nat, r: nat) {
    && l.Shape() && l.p.cell.PrachFits() && 0 < n && Nth(k0, n - 1) < |l.xs|
    && k0 < MAX_HARQ_PROC && r == l.pids[k0]
  }

  lemma CourseIn(l: Life, k0: nat, n: nat, m: nat, r: nat)
    requires l.Lived() && Uplink(l, k0, n, r) && m < n
    ensures |l.own[Nth(k0, m)].ul| == MAX_HARQ_PROC
    ensures l.own[Nth(k0, m)].ul[r] == UlRuns.Course(l.own[0].ul[r], ChancesOf(l, k0, n)[..m])
  {
    CourseOf(l, k0, m, r);
    assert ChancesOf(l, k0, n)[..m] == ChancesOf(l, k0, m);
  }

  /** What opportunity `m` of the process finds is what it has come to, after the CRC reports of its subframe. */
  lemma FoundIs(l: Life, k0: nat, n: nat, m: nat, r: nat)
    requires l.Lived() && Uplink(l, k0, n, r) && m < n
    ensures r == l.pids[Nth(k0, m)] && l.own[Nth(k0, m)].Ok()
    ensures UlRuns.Found(l.own[0].ul[r], ChancesOf(l, k0, n), m) == l.Prep(Nth(k0, m)).ul[r]
  {
    CourseIn(l, k0, n, m, r);
    ProcInNth(l, k0, m);
    UlMoves(l, Nth(k0, m));
  }

  predicate CrcAnswers(xs: seq<Input>, rs: seq<Result>, i: nat, rnti: nat, k: nat)
    requires k < |xs| == |rs|
  {
    ReportsFor(xs[k].crcs, i) == if k >= 8 && HasGrant(rs[k - 8].grants, rnti) then 1 else 0
  }

  /** Every block that was granted to user `i` has one CRC report in the subframe in which it is received, eight after
      the one in which it was granted, and there are no others. */
  predicate CrcsAnswer(xs: seq<Input>, rs: seq<Result>, i: nat, rnti: nat) {
    |xs| == |rs| && forall k | 0 <= k < |xs| :: CrcAnswers(xs, rs, i, rnti, k)
  }

  /** What the process sends in its opportunities has a size. */
  predicate AllSized(u: UlRuns.Ul, cs: seq<UlRuns.Chance>) {
    forall m | 0 <= m < |cs| && UlRuns.SendsAt(u, cs, m) :: cs[m].env.tbs > 0
  }

  /** What a user is told and granted in a subframe in which its process `found` took the opportunity `e`. */
  predicate ToldFor(res: Result, rnti: nat, out: UlRuns.Out, e: UlRuns.Env) {
    && (forall ack :: UlScheduler.Phich(rnti, ack) in res.phichs <==> out.phich == Some(ack))
    && (HasGrant(res.grants, rnti) <==> !out.tx.Silent? && e.tbs > 0)
  }

  /** The opportunity of a user in a subframe: it is told and granted what follows from it, what it sends again has as
      many RBs as before, and a new block has the limit of the user or of a random access grant. */
  lemma OpportunityIn(l: Life, k: nat, r: nat) returns (found: UlRuns.Ul, e: UlRuns.Env)
    requires l.Lived() && k < |l.xs| && l.p.cell.PrachFits() && r == l.pids[k]
    ensures l.own[k].Ok() && found == l.Prep(k).ul[r] && e == l.accounts[k].es[l.i]
    ensures ToldFor(l.rs[k], l.rnti, UlRuns.Output(found, e), e) && UlRuns.SameSize(found, e)
    ensures e.limit == if UlScheduler.IsRar(l.rnti, l.xs[k].msg3) then l.p.cell.maxMsg3Tx else l.maxRetx
  {
    assert l.Step(k) && Tick(k);
    found, e := l.Prep(k).ul[r], l.accounts[k].es[l.i];
    var rbs := l.accounts[k].rbs;
    assert Pick(l.i) && rbs.gs[l.i] == UlAllocation.Allocated(rbs.reserved, rbs.vs, rbs.first).1[l.i];
    UlAllocation.AllocatedRight(rbs.reserved, rbs.vs, rbs.first, l.i);
  }

  /** The same of opportunity `m` of a process. */
  lemma OpportunityAt(l: Life, k0: nat, n: nat, m: nat, r: nat) returns (found: UlRuns.Ul, e: UlRuns.Env)
    requires l.Lived() && Uplink(l, k0, n, r) && m < n
    ensures found == UlRuns.Found(l.own[0].ul[r], ChancesOf(l, k0, n), m) && e == ChancesOf(l, k0, n)[m].env
    ensures ToldFor(l.rs[Nth(k0, m)], l.rnti, UlRuns.Output(found, e), e) && UlRuns.SameSize(found, e)
    ensures e.limit == if UlScheduler.IsRar(l.rnti, l.xs[Nth(k0, m)].msg3) then l.p.cell.maxMsg3Tx else l.maxRetx
  {
    FoundIs(l, k0, n, m, r);
    found, e := OpportunityIn(l, Nth(k0, m), r);
  }

  /** A user is granted a block exactly in the opportunities in which its process sends one of some size. */
  lemma GrantedIff(l: Life, k0: nat, n: nat, m: nat, r: nat)
    requires l.Lived() && Uplink(l, k0, n, r) && m < n
    ensures var cs := ChancesOf(l, k0, n);
            HasGrant(l.rs[Nth(k0, m)].grants, l.rnti) <==> UlRuns.SendsAt(l.own[0].ul[r], cs, m) && cs[m].env.tbs > 0
  {
    var found, e := OpportunityAt(l, k0, n, m, r);
  }

  lemma OneReport(l: Life, k0: nat, n: nat, m: nat, r: nat)
    requires l.Lived() && Uplink(l, k0, n, r) && m < n && CrcsAnswer(l.xs, l.rs, l.i, l.rnti)
    ensures var cs := ChancesOf(l, k0, n);
            |cs[m].crcs|
            == if m > 0 && UlRuns.SendsAt(l.own[0].ul[r], cs, m - 1) && cs[m - 1].env.tbs > 0 then 1 else 0
  {
    var k := Nth(k0, m);
    assert CrcAnswers(l.xs, l.rs, l.i, l.rnti, k);
    ReportsCount(l.xs[k].crcs, l.i, l.ts[k]);
    if m > 0 {
      assert k - 8 == Nth(k0, m - 1);
      GrantedIff(l, k0, n, m - 1, r);
    }
  }

  /** The PHY reports on what was granted, and what the process sends has a size. */
  predicate Reporting(l: Life, k0: nat, n: nat, r: nat) {
    Uplink(l, k0, n, r) && CrcsAnswer(l.xs, l.rs, l.i, l.rnti) && AllSized(l.own[0].ul[r], ChancesOf(l, k0, n))
  }

  /** The run of the process. */
  function UlEnvs(l: Life, k0: nat, n: nat): (es: seq<UlRuns.Env>)
    requires l.Shape() && (n > 0 ==> Nth(k0, n - 1) < |l.xs|)
    ensures |es| == n
  {
    UlRuns.Envs(ChancesOf(l, k0, n))
  }

  /** If the PHY reports on what was granted, the process hears one report for everything it sends. */
  lemma OneReportEach(l: Life, k0: nat, n: nat, r: nat)
    requires l.Lived() && Reporting(l, k0, n, r)
    ensures UlRuns.OneCrcEach(l.own[0].ul[r], ChancesOf(l, k0, n))
  {
    var u, cs := l.own[0].ul[r], ChancesOf(l, k0, n);
    forall m | 0 <= m < n ensures |cs[m].crcs| == if m > 0 && UlRuns.SendsAt(u, cs, m - 1) then 1 else 0 {
      OneReport(l, k0, n, m, r);
    }
  }

  lemma RunOf(l: Life, k0: nat, n: nat, m: nat, r: nat)
    requires l.Lived() && Reporting(l, k0, n, r) && m < n
    ensures var u, cs, es := l.own[0].ul[r], ChancesOf(l, k0, n), UlEnvs(l, k0, n);
            && UlRuns.Found(u, cs, m) == UlRuns.Run(u, es[..m])
            && UlRuns.Output(UlRuns.Found(u, cs, m), cs[m].env) == UlRuns.OutAt(u, es, m)
            && (!UlRuns.OutAt(u, es, m).tx.Silent? ==> cs[m].env.tbs > 0)
  {
    OneReportEach(l, k0, n, r);
    UlRuns.CourseIsRun(l.own[0].ul[r], ChancesOf(l, k0, n), m);
    assert UlRuns.SendsAt(l.own[0].ul[r], ChancesOf(l, k0, n), m) ==> ChancesOf(l, k0, n)[m].env.tbs > 0;
  }

  /** What opportunity `m` finds and does is what the run says. */
  lemma FoundByRun(l: Life, k0: nat, n: nat, m: nat, r: nat) returns (found: UlRuns.Ul, e: UlRuns.Env)
    requires l.Lived() && Reporting(l, k0, n, r) && m < n
    ensures var u, es := l.own[0].ul[r], UlEnvs(l, k0, n);
            && found == UlRuns.Run(u, es[..m]) && es[m].(crc := e.crc) == e && e == l.accounts[Nth(k0, m)].es[l.i]
            && UlRuns.Output(found, e) == UlRuns.OutAt(u, es, m)
            && (!UlRuns.OutAt(u, es, m).tx.Silent? ==> e.tbs > 0)
    ensures ToldFor(l.rs[Nth(k0, m)], l.rnti, UlRuns.Output(found, e), e) && UlRuns.SameSize(found, e)
    ensures e.limit == if UlScheduler.IsRar(l.rnti, l.xs[Nth(k0, m)].msg3) then l.p.cell.maxMsg3Tx else l.maxRetx
  {
    RunOf(l, k0, n, m, r);
    found, e := OpportunityAt(l, k0, n, m, r);
  }

  /** Opportunity `m` of a run of `UlRuns` is what the user is told and granted in the subframe of that opportunity. */
  ghost predicate Shows(r: Result, rnti: nat, u: UlRuns.Ul, es: seq<UlRuns.Env>, m: nat)
    requires m < |es|
  {
    && (forall ack :: UlScheduler.Phich(rnti, ack) in r.phichs <==> UlRuns.OutAt(u, es, m).phich == Some(ack))
    && (HasGrant(r.grants, rnti) <==> !UlRuns.OutAt(u, es, m).tx.Silent?)
  }

  /** With these reports an uplink process goes through one run, and its user is told and granted what the run says. */
  lemma UplinkIsRun(l: Life, k0: nat, n: nat, m: nat, r: nat)
    requires l.Lived() && Reporting(l, k0, n, r) && m < n
    ensures Shows(l.rs[Nth(k0, m)], l.rnti, l.own[0].ul[r], UlEnvs(l, k0, n), m)
  {
    var found, e := FoundByRun(l, k0, n, m, r);
  }

  /** Of these opportunities `a` and `b` start new blocks, and none between them does. */
  predicate NextFirst(u: UlRuns.Ul, es: seq<UlRuns.Env>, a: nat, b: nat)
    requires a < b < |es|
  {
    forall j | a <= j <= b :: UlRuns.OutAt(u, es, j).tx.First? <==> j == a || j == b
  }

  /** So what is known of such runs holds of users: between two new blocks of a process its user is told the outcome in
      each subframe of the process up to a terminal one, there is exactly one of those, and the first block is sent no
      more often than its limit allows, which is that of the user, or of a random access grant. */
  lemma UplinkBlocksClose(l: Life, k0: nat, n: nat, r: nat, a: nat, b: nat) returns (m: nat)
    requires l.Lived() && Reporting(l, k0, n, r) && a < b < n && UlRuns.Settled(l.own[0].ul[r])
    requires UlRuns.NoPreemption(l.own[0].ul[r], UlEnvs(l, k0, n))
    requires NextFirst(l.own[0].ul[r], UlEnvs(l, k0, n), a, b)
    ensures a < m <= b
    ensures forall j | a < j <= b ::
              (exists ack :: UlScheduler.Phich(l.rnti, ack) in l.rs[Nth(k0, j)].phichs) <==> j <= m
    ensures forall j | a < j <= b :: UlRuns.Terminal(l.own[0].ul[r], UlEnvs(l, k0, n), j) <==> j == m
    ensures var limit := if UlScheduler.IsRar(l.rnti, l.xs[Nth(k0, a)].msg3) then l.p.cell.maxMsg3Tx else l.maxRetx;
            UlRuns.Sends(l.own[0].ul[r], UlEnvs(l, k0, n), a, b) <= if limit > 0 then limit else 1
  {
    var u, es := l.own[0].ul[r], UlEnvs(l, k0, n);
    m := UlRuns.BlockClosure(u, es, a, b);
    forall j | a < j <= b
      ensures (exists ack :: UlScheduler.Phich(l.rnti, ack) in l.rs[Nth(k0, j)].phichs) <==> j <= m
    {
      UplinkIsRun(l, k0, n, j, r);
      if j <= m {
        assert UlScheduler.Phich(l.rnti, UlRuns.OutAt(u, es, j).phich.value) in l.rs[Nth(k0, j)].phichs;
      }
    }
    var found, e := FoundByRun(l, k0, n, a, r);
  }

  lemma SizeForgetsCrc(v: UlRuns.Ul, e: UlRuns.Env, f: UlRuns.Env)
    requires f.(crc := e.crc) == e && UlRuns.SameSize(v, e)
    ensures UlRuns.SameSize(v, f)
  {
  }

  lemma SameSizeInRun(l: Life, k0: nat, n: nat, m: nat, r: nat)
    requires l.Lived() && Reporting(l, k0, n, r) && m < n
    ensures UlRuns.SameSize(UlRuns.Run(l.own[0].ul[r], UlEnvs(l, k0, n)[..m]), UlEnvs(l, k0, n)[m])
  {
    var found, e := FoundByRun(l, k0, n, m, r);
    SizeForgetsCrc(found, e, UlEnvs(l, k0, n)[m]);
  }

  /** All transmissions of an uplink block have the same number of RBs: what opportunity `b` repeats has as many as it
      had when opportunity `a` started it. */
  lemma UplinkKeepsSize(l: Life, k0: nat, n: nat, r: nat, a: nat, b: nat)
    requires l.Lived() && Reporting(l, k0, n, r) && a < b < n && UlRuns.Settled(l.own[0].ul[r])
    requires UlRuns.OutAt(l.own[0].ul[r], UlEnvs(l, k0, n), a).tx.First?
    requires forall j | a < j < b :: !UlRuns.OutAt(l.own[0].ul[r], UlEnvs(l, k0, n), j).tx.First?
    requires UlRuns.OutAt(l.own[0].ul[r], UlEnvs(l, k0, n), b).tx.Again?
    ensures l.accounts[Nth(k0, a)].es[l.i].rbs.Some? && l.accounts[Nth(k0, b)].es[l.i].rbs.Some?
    ensures l.accounts[Nth(k0, b)].es[l.i].rbs.value.len == l.accounts[Nth(k0, a)].es[l.i].rbs.value.len
  {
    var u, es := l.own[0].ul[r], UlEnvs(l, k0, n);
    forall j | a < j < n ensures UlRuns.SameSize(UlRuns.Run(u, es[..j]), es[j]) {
      SameSizeInRun(l, k0, n, j, r);
    }
    SameSizeInRun(l, k0, n, b, r);
    UlRuns.RepeatHasSize(u, es, a, b);
  }

  // ---- Broadcast

  function WantsOf(xs: seq<Input>): (ws: seq<Broadcast.Wants>)
    ensures |ws| == |xs| && forall k | 0 <= k < |ws| :: ws[k] == xs[k].wants
  {
    seq(|xs|, k requires 0 <= k < |xs| => xs[k].wants)
  }

  /** The windows of the messages and what they leave. */
  lemma BlocksAre(p: Setup, ws: seq<SiWindows.Win>, x: Broadcast.Wants, now: nat)
    requires WindowsOk(p, ws) && Broadcast.WantsOk(x, |p.messages|) && now < TTI_PERIOD
    ensures var r, total := BlocksOf(p, Pdcch.NoCce(), ws, x, now), Rbg.NofGroups(p.cell.nofPrb);
            && r.1 == Broadcast.WinsAfter(p.messages, ws, total, p.siNRbg, now, x.sibs)
            && Broadcast.LeftIn(p.messages, ws, total, p.siNRbg, now, x.sibs, |p.messages|).blocks <= r.0.blocks
  {
    var updated := Broadcast.UpdateAll(p.messages, ws, x.sibs, now);
    var s := Broadcast.Empty(Rbg.NofGroups(p.cell.nofPrb));
    Broadcast.SibsComeFirst(s, p.messages, updated, now, p.siNRbg, p.rarNRbg, x.sibs, x.paging, x.rars);
  }

  /** The windows before subframe `k`. */
  function WinsBefore(p: Setup, start: nat, xs: seq<Input>, k: nat): seq<SiWindows.Win>
    requires Broadcast.Messages(p.messages) && Broadcast.AllWantsOk(WantsOf(xs), |p.messages|) && k <= |xs|
  {
    Broadcast.WinsAt(p.messages, Rbg.NofGroups(p.cell.nofPrb), p.siNRbg, TtiTx(start), WantsOf(xs), k)
  }

  lemma WinsNext(p: Setup, start: nat, xs: seq<Input>, k: nat)
    requires Broadcast.Messages(p.messages) && Broadcast.AllWantsOk(WantsOf(xs), |p.messages|) && k < |xs|
    ensures Broadcast.WinsValid(WinsBefore(p, start, xs, k)) && |WinsBefore(p, start, xs, k)| == |p.messages|
    ensures WinsBefore(p, start, xs, k + 1)
         == Broadcast.WinsAfter(p.messages, WinsBefore(p, start, xs, k), Rbg.NofGroups(p.cell.nofPrb), p.siNRbg,
                                TtiTx(TtiAt(start, k)), xs[k].wants.sibs)
  {
    SendTti(start, k);
  }

  lemma AiredOk(p: Setup, start: nat, xs: seq<Input>, accounts: seq<Account>, wins: seq<seq<SiWindows.Win>>)
    requires Aired(p, Pdcch.NoCce(), start, xs, accounts, wins)
    ensures Broadcast.Messages(p.messages) && Broadcast.AllWantsOk(WantsOf(xs), |p.messages|)
  {
    assert WindowsOk(p, wins[0]);
  }

  lemma AiredNext(p: Setup, start: nat, xs: seq<Input>, accounts: seq<Account>, wins: seq<seq<SiWindows.Win>>, k: nat)
    requires Aired(p, Pdcch.NoCce(), start, xs, accounts, wins) && k < |xs|
    ensures wins[k + 1] == Broadcast.WinsAfter(p.messages, wins[k], Rbg.NofGroups(p.cell.nofPrb), p.siNRbg,
                                               TtiTx(TtiAt(start, k)), xs[k].wants.sibs)
    ensures Broadcast.LeftIn(p.messages, wins[k], Rbg.NofGroups(p.cell.nofPrb), p.siNRbg, TtiTx(TtiAt(start, k)),
                             xs[k].wants.sibs, |p.messages|).blocks <= accounts[k].stage.blocks
  {
    BlocksAre(p, wins[k], xs[k].wants, TtiTx(TtiAt(start, k)));
    assert (accounts[k].stage, wins[k + 1])
        == BlocksOf(p, Pdcch.NoCce(), wins[k], xs[k].wants, TtiTx(TtiAt(start, k)));
  }

  /** From the first subframe of a new cell on the windows are those of the runs of `Broadcast`. */
  lemma WindowsAre(p: Setup, start: nat, xs: seq<Input>, accounts: seq<Account>, wins: seq<seq<SiWindows.Win>>, k: nat)
    requires Aired(p, Pdcch.NoCce(), start, xs, accounts, wins) && k <= |xs|
    requires wins[0] == Broadcast.Closed(|p.messages|)
    ensures Broadcast.Messages(p.messages) && Broadcast.AllWantsOk(WantsOf(xs), |p.messages|)
    ensures wins[k] == WinsBefore(p, start, xs, k)
  {
    AiredOk(p, start, xs, accounts, wins);
    for m := 0 to k
      invariant wins[m] == WinsBefore(p, start, xs, m)
    {
      AiredNext(p, start, xs, accounts, wins, m);
      WinsNext(p, start, xs, m);
    }
  }

  lemma LeftIs(p: Setup, start: nat, xs: seq<Input>, k: nat, i: nat)
    requires Broadcast.Messages(p.messages) && Broadcast.AllWantsOk(WantsOf(xs), |p.messages|)
    requires k < |xs| && i <= |p.messages|
    ensures Broadcast.WinsValid(WinsBefore(p, start, xs, k)) && |WinsBefore(p, start, xs, k)| == |p.messages|
    ensures Broadcast.LeftFor(p.messages, Rbg.NofGroups(p.cell.nofPrb), p.siNRbg, TtiTx(start), WantsOf(xs), k, i)
         == Broadcast.LeftIn(p.messages, WinsBefore(p, start, xs, k), Rbg.NofGroups(p.cell.nofPrb), p.siNRbg,
                             TtiTx(TtiAt(start, k)), xs[k].wants.sibs, i)
  {
    SendTti(start, k);
  }

  /** And the blocks of system information that go out are theirs, and come first: for message `i` of them those that
      `Broadcast.MessageGoesOut` names. */
  lemma MessagesOnAir(p: Setup, start: nat, xs: seq<Input>, accounts: seq<Account>, wins: seq<seq<SiWindows.Win>>,
                      k: nat)
    requires Aired(p, Pdcch.NoCce(), start, xs, accounts, wins) && k < |xs|
    requires wins[0] == Broadcast.Closed(|p.messages|)
    ensures Broadcast.Messages(p.messages) && Broadcast.AllWantsOk(WantsOf(xs), |p.messages|)
    ensures Broadcast.LeftFor(p.messages, Rbg.NofGroups(p.cell.nofPrb), p.siNRbg, TtiTx(start), WantsOf(xs), k,
                              |p.messages|).blocks <= accounts[k].stage.blocks
  {
    WindowsAre(p, start, xs, accounts, wins, k);
    LeftIs(p, start, xs, k, |p.messages|);
    AiredNext(p, start, xs, accounts, wins, k);
  }

  /** In any run of a new cell that has room for it, SIB1 goes out on the first groups of the carrier in subframe 5 of
      every even frame, from the first such subframe on in which its window opens. */
  lemma Sib1OnAir(users: seq<SchedUe>, p: Setup, start: nat, xs: seq<Input>, rs: seq<Result>, accounts: seq<Account>,
                  trace: seq<seq<Standing>>, wins: seq<seq<SiWindows.Win>>, k: nat)
    requires History(users, p, start, xs, rs, accounts, trace)
    requires Aired(p, Pdcch.NoCce(), start, xs, accounts, wins) && k < |xs|
    requires wins[0] == Broadcast.Closed(|p.messages|) && 0 < |p.messages|
    requires Broadcast.Sib1Able(Rbg.NofGroups(p.cell.nofPrb), p.siNRbg, WantsOf(xs)) && p.messages[0].period > 0
    ensures var now := TtiTx(TtiAt(start, k));
            Broadcast.OpenedBy(p.messages[0], TtiTx(start), k) && (now / 10) % 2 == 0 && now % 10 == 5 ==>
              |rs[k].blocks| > 0 && rs[k].blocks[0] == Broadcast.Groups(0, p.siNRbg)
  {
    MessagesOnAir(p, start, xs, accounts, wins, k);
    SendTti(start, k);
    Broadcast.Sib1GoesOut(p.messages, Rbg.NofGroups(p.cell.nofPrb), p.siNRbg, TtiTx(start), WantsOf(xs), k);
    assert Moved(users, trace[k], trace[k + 1], accounts[k], xs[k], TtiAt(start, k), p, rs[k]);
  }
}
