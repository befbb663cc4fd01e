/** What a PHY worker asks of the scheduler in one subframe, and any number of subframes in a row. */
module Worker {
  import opened Tti
  import opened Harq
  import opened HarqObjects
  import opened DlProcs
  import opened Queues
  import opened SchedUser
  import opened Pdcch
  import opened Broadcast
  import opened Scheduler
  import opened Standings
  import opened Reports
  import DlAllocation
  import DlMetricRr
  import DlRuns
  import Bits
  import Rbg
  import SiWindows
  import UlAllocation
  import UlMetricRr
  import UlRuns
  import UlScheduler

  // ---- Both halves of a subframe share the control channel

  /** No CCE belongs to two of the DCIs of the downlink and uplink grants. */
  ghost predicate PlacesApart(data: seq<Data>, grants: seq<UlScheduler.Pusch>) {
    && (forall k, m | 0 <= k < m < |data| :: !Overlap(data[k].place, data[m].place))
    && (forall k, m | 0 <= k < m < |grants| :: !Overlap(grants[k].place, grants[m].place))
    && forall k, m | 0 <= k < |data| && 0 <= m < |grants| :: !Overlap(data[k].place, grants[m].place)
  }

  /** The downlink grants have DCIs among the first ones, the uplink grants have later ones or none. */
  lemma GrantPlacesApart(users: seq<SchedUe>, ms: seq<Share>, turns: seq<Turn>, data: seq<Data>, dlWho: seq<nat>,
                         dlSlots: seq<nat>, before: seq<Place>, gs: seq<Option<Alloc>>,
                         msg3: Option<UlScheduler.Msg3>, es: seq<UlRuns.Env>, grants: seq<UlScheduler.Pusch>,
                         ulWho: seq<nat>, ulSlots: seq<nat>, dcis: seq<Place>)
    requires |turns| == |users| == |ms| && Scheduler.SentTo(users, ms, turns, data, dlWho, dlSlots, before)
    requires |es| == |users| == |gs| && before <= dcis && Pdcch.Exclusive(dcis)
    requires UlScheduler.SentTo(users, gs, msg3, es, grants, ulWho, ulSlots, dcis, |before|)
    ensures PlacesApart(data, grants)
  {
    forall k | 0 <= k < |data| ensures dlSlots[k] < |before| && data[k].place == dcis[dlSlots[k]] {
      assert Scheduler.GrantOf(users[dlWho[k]], ms[dlWho[k]], turns[dlWho[k]].load, data[k], dlSlots[k], before);
    }
    forall k | 0 <= k < |grants|
      ensures grants[k].place.At? ==> |before| <= ulSlots[k] < |dcis| && grants[k].place == dcis[ulSlots[k]]
    {
      assert UlScheduler.GrantOf(users[ulWho[k]], gs[ulWho[k]], msg3, es[ulWho[k]], grants[k], ulSlots[k], dcis);
    }
  }

  lemma DataPlacesApart(users: seq<SchedUe>, ms: seq<Share>, turns: seq<Turn>, data: seq<Data>, who: seq<nat>,
                        slots: seq<nat>, before: seq<Place>, dcis: seq<Place>)
    requires |turns| == |users| == |ms| && Scheduler.SentTo(users, ms, turns, data, who, slots, before)
    requires before <= dcis && Pdcch.Exclusive(dcis)
    ensures PlacesApart(data, [])
  {
    forall k | 0 <= k < |data| ensures slots[k] < |before| && data[k].place == dcis[slots[k]] {
      assert Scheduler.GrantOf(users[who[k]], ms[who[k]], turns[who[k]].load, data[k], slots[k], before);
    }
  }

  // ---- One subframe

  lemma EightOn(t: nat)
    requires t < TTI_PERIOD
    ensures TtiTx(TtiTx(t)) == if t + 8 < TTI_PERIOD then t + 8 else t + 8 - TTI_PERIOD
  {
    assert TtiTx(t) == if t + 4 < TTI_PERIOD then t + 4 else t + 4 - TTI_PERIOD;
  }

  /** Uplink processes are numbered by TTIs, and eight divides the period of the counter. */
  lemma SameProcess(t: nat)
    requires t < TTI_PERIOD
    ensures TtiTx(TtiTx(t)) % MAX_HARQ_PROC == t % MAX_HARQ_PROC
  {
    EightOn(t);
    assert (t + 8) % 8 == t % 8 && TTI_PERIOD == 8 * 1280;
  }

  /** What comes from outside in one subframe: reports before it, and the requests and needs of its two halves. */
  datatype Input = Input(acks: seq<Report>, crcs: seq<Report>, queues: seq<Queue>, links: seq<Link>,
                         wants: Broadcast.Wants, dlRequests: seq<Request>, nofCtrl: nat, ulRequests: seq<Request>,
                         prach: bool, msg3: Option<UlScheduler.Msg3>, userPucch: seq<nat>)

  /** What goes out. */
  datatype Result = Result(blocks: seq<Groups>, data: seq<Data>, phichs: seq<UlScheduler.Phich>,
                           grants: seq<UlScheduler.Pusch>)

  /** The input is for `users` users of a cell that is set up as `p`. */
  predicate InputOk(x: Input, users: nat, p: Setup) {
    && (forall k | 0 <= k < |x.acks| :: x.acks[k].user < users)
    && (forall k | 0 <= k < |x.crcs| :: x.crcs[k].user < users)
    && (forall k | 0 <= k < |x.queues| :: x.queues[k].user < users)
    && (forall k | 0 <= k < |x.links| :: x.links[k].user < users)
    && Broadcast.WantsOk(x.wants, |p.messages|)
    && |x.dlRequests| == |x.ulRequests| == users && Pdcch.AllLegal(x.dlRequests) && Pdcch.AllLegal(x.ulRequests)
    && (x.msg3.Some? ==> x.msg3.value.alloc.start + x.msg3.value.alloc.len <= p.cell.nofPrb)
    && forall i | 0 <= i < |x.userPucch| :: x.userPucch[i] < MAX_PRB
  }

  /** No resource goes out twice: PRBs in the downlink, RBs in the uplink, CCEs for both. */
  ghost predicate UsedOnce(r: Result, x: Input, c: UlScheduler.Cell)
    requires c.Valid()
  {
    && PrbsUsedOnce(r.blocks, r.data, c.nofPrb)
    && PlacesApart(r.data, r.grants)
    && UlScheduler.AllApart(r.grants, UlScheduler.Reservations(c, x.prach, x.msg3, x.userPucch), x.msg3, c.nofPrb)
  }

  // ---- The downlink half

  predicate WindowsOk(p: Setup, ws: seq<SiWindows.Win>) {
    |ws| == |p.messages| && Messages(p.messages) && WinsValid(ws)
  }

  /** What broadcast, paging and random access responses leave of TTI `now`, if the CCE map was `used` and the windows
      were `ws` before, and the windows after it. */
  function BlocksOf(p: Setup, used: seq<bool>, ws: seq<SiWindows.Win>, x: Broadcast.Wants, now: nat)
    : (r: (Stage, seq<SiWindows.Win>))
    requires WindowsOk(p, ws) && |used| == MAX_CCE && Broadcast.WantsOk(x, |p.messages|) && now < TTI_PERIOD
    ensures r.0.Valid() && WindowsOk(p, r.1)
  {
    AllBlocks(Stage(used, 0, Rbg.NofGroups(p.cell.nofPrb), []), p.messages, UpdateAll(p.messages, ws, x.sibs, now), now,
              p.siNRbg, p.rarNRbg, x.sibs, x.paging, x.rars)
  }

  predicate HasData(data: seq<Data>, rnti: nat) {
    exists k | 0 <= k < |data| :: data[k].rnti == rnti
  }

  /** A user as the downlink allocator sees it. */
  function ViewOf(s: Standing, nofPrb: nat, now: nat, nofCtrl: nat): (v: DlAllocation.View)
    requires s.Ok() && now < TTI_PERIOD
  {
    var bytes := BytesWanted(Backlog(s.lch, |s.lch|), FirstDlTx(s.procs));
    DlAllocation.View(Pending(s.procs, now), s.masks, FirstEmptyFrom(s.procs, 0),
                      DlMetricRr.GroupsFor(s.channel.approxTbs, nofPrb, bytes, nofCtrl))
  }

  /** What the turn of a user makes of its bearers, if its process then has the mask `mask`. */
  function LoadFor(s: Standing, pid: Option<nat>, dci: bool, mask: nat, nofPrb: nat, nofCtrl: nat): Load
    requires s.Ok() && (pid.Some? ==> pid.value < |s.procs|)
  {
    if pid.Some? && dci
    then LoadOf(s.procs, pid.value, s.lch, s.channel.block, Rbg.CountTrue(MaskPrbs(mask, nofPrb)), nofCtrl)
    else Unloaded(s.lch)
  }

  /** User `i`, which stood at `s`, got its share of TTI `now` and took its turn. */
  ghost predicate DlTurned(s: Standing, after: Standing, turn: Turn, shares: Shares, i: nat, now: nat, nofPrb: nat,
                     nofCtrl: nat)
    requires now < TTI_PERIOD
  {
    && s.Ok() && i < |shares.ms| == |shares.vs| && shares.vs[i] == ViewOf(s, nofPrb, now, nofCtrl)
    && var pid, g := DlRuns.Chosen(s.procs, now, turn.pick), shares.ms[i];
       && (if pid.None? then g.None? && after.masks == s.masks
           else g.Some? && g.value.pid == pid.value && after.masks == s.masks[pid.value := g.value.mask])
       && turn.load == LoadFor(s, pid, turn.dci, if g.Some? then g.value.mask else 0, nofPrb, nofCtrl)
       && after == Standing(DlRuns.After(s.procs, now, turn.Step()), after.masks, s.ul, turn.load.lch, s.channel)
  }

  /** What goes out to a user: its groups, and the size and content of its block. */
  predicate DataRight(data: seq<Data>, rnti: nat, share: Share, load: Load) {
    forall k | 0 <= k < |data| && data[k].rnti == rnti ::
      share.Some? && data[k].mask == share.value.mask && data[k].tbs == load.tbs && data[k].pdus == load.pdus
  }

  /** User `i` is sent data exactly if it was given something, one of the candidates for its DCI is left over by the
      users before it, and there is a block. */
  predicate DlServed(rnti: nat, ms: seq<Share>, turn: Turn, i: nat, used: seq<bool>, requests: seq<Request>,
                     data: seq<Data>)
    requires |used| == MAX_CCE && i < |requests| == |ms| && Pdcch.AllLegal(requests)
  {
    && (ms[i].Some? ==> (turn.dci <==> FindsDci(CceAfter(used, requests, ms, i), requests[i])))
    && (HasData(data, rnti) <==> ms[i].Some? && turn.dci && turn.load.tbs > 0)
    && DataRight(data, rnti, ms[i], turn.load)
  }

  /** All users took their turns and were served. */
  ghost predicate DlDone(users: seq<SchedUe>, ss: seq<Standing>, after: seq<Standing>, turns: seq<Turn>,
                         shares: Shares, used: seq<bool>, x: Input, data: seq<Data>, now: nat, nofPrb: nat)
    requires now < TTI_PERIOD && |used| == MAX_CCE && |x.dlRequests| == |users| && Pdcch.AllLegal(x.dlRequests)
  {
    && |users| == |ss| == |after| == |turns| == |shares.ms| == |shares.vs| && shares.Given()
    && (|users| > 0 ==> shares.first == now % |users|)
    && forall i {:trigger Pick(i)} | 0 <= i < |users| ::
         && DlTurned(ss[i], after[i], turns[i], shares, i, now, nofPrb, x.nofCtrl)
         && DlServed(users[i].rnti, shares.ms, turns[i], i, used, x.dlRequests, data)
  }

  /** What the user looks like to the allocator. */
  ghost predicate LooksLike(l: DlMetricRr.Look, s: Standing) {
    && l.Shape() && l.procs == s.procs && l.masks == s.masks && l.lch == s.lch
    && l.channel == s.channel
  }

  ghost predicate AllLookLike(looks: seq<DlMetricRr.Look>, ss: seq<Standing>) {
    |looks| == |ss| && forall i {:trigger Pick(i)} | 0 <= i < |ss| :: ss[i].Ok() && LooksLike(looks[i], ss[i])
  }

  /** What the downlink scheduler does not touch. */
  ghost predicate RestStands(u: SchedUe, s: Standing)
    reads u`channel, u.ulHarq
  {
    UlStands(u, s.ul) && u.channel == s.channel
  }

  ghost predicate AllRestStand(users: seq<SchedUe>, ss: seq<Standing>)
    reads *
  {
    |users| == |ss| && forall i | 0 <= i < |users| :: RestStands(users[i], ss[i])
  }

  /** What stands between subframes is what the downlink half starts from. */
  lemma DlCanStart(users: seq<SchedUe>, ss: seq<Standing>, now: nat, nofCtrl: nat, total: nat)
    returns (looks: seq<DlMetricRr.Look>, vs: seq<DlAllocation.View>)
    requires AllStand(users, ss) && now < TTI_PERIOD && DlMetricRr.MasksBounded(users, total)
    ensures DlMetricRr.AllLook(users, looks) && DlMetricRr.Seen(users, looks, vs, now, nofCtrl)
    ensures DlAllocation.ViewsOk(vs, total) && AllLookLike(looks, ss) && AllRestStand(users, ss)
  {
    StandingOk(users, ss);
    looks, vs := NextTtiCanStart(users, now, nofCtrl, total);
    forall i | 0 <= i < |users| ensures ss[i].Ok() && LooksLike(looks[i], ss[i]) && RestStands(users[i], ss[i]) {
      assert Pick(i);
    }
  }

  lemma UserTurned(u: SchedUe, l: DlMetricRr.Look, m: Share, turns: seq<Turn>, now: nat, nofCtrl: nat, i: nat,
                   s: Standing, shares: Shares)
    requires now < TTI_PERIOD && u.Valid() && i < |turns| && s.Ok() && LooksLike(l, s) && u.channel == s.channel
    requires UserStepped(u, l, DlMetricRr.LookOf(u), m, turns, now, nofCtrl, i)
    requires i < |shares.ms| == |shares.vs| && shares.ms[i] == m && shares.vs[i] == l.View(u.nofPrb, now, nofCtrl)
    ensures DlTurned(s, Standing(u.procs, u.masks, s.ul, u.lch, s.channel), turns[i], shares, i, now, u.nofPrb, nofCtrl)
  {
  }

  lemma IsServed(users: seq<SchedUe>, ms: seq<Share>, requests: seq<Request>, used: seq<bool>, turns: seq<Turn>,
                 data: seq<Data>, who: seq<nat>, slots: seq<nat>, dcis: seq<Place>, now: seq<bool>, i: nat)
    requires |used| == MAX_CCE && |turns| == |requests| == |ms| == |users| && Pdcch.AllLegal(requests)
    requires Distinct(users) && i < |users| && Scheduler.SentTo(users, ms, turns, data, who, slots, dcis)
    requires Scheduler.AllSent(users, ms, requests, used, turns, who, now)
    ensures DlServed(users[i].rnti, ms, turns[i], i, used, requests, data)
  {
    var p := Search(CceAfter(used, requests, ms, i), requests[i], 0);
    Pdcch.SearchComplete(CceAfter(used, requests, ms, i), requests[i]);
    assert Scheduler.SentRight(ms[i], turns[i], p, i in who);
    forall k | 0 <= k < |data| && data[k].rnti == users[i].rnti
      ensures who[k] == i && Scheduler.GrantOf(users[i], ms[i], turns[i].load, data[k], slots[k], dcis)
    {
      assert Scheduler.GrantOf(users[who[k]], ms[who[k]], turns[who[k]].load, data[k], slots[k], dcis);
      assert Pick(who[k]) && Pick(i);
    }
    if k :| 0 <= k < |who| && who[k] == i {
      assert Scheduler.GrantOf(users[who[k]], ms[who[k]], turns[who[k]].load, data[k], slots[k], dcis);
    }
  }

  lemma AllTurned(users: seq<SchedUe>, ss: seq<Standing>, looks: seq<DlMetricRr.Look>, vs: seq<DlAllocation.View>,
                  afters: seq<DlMetricRr.Look>, ms: seq<Share>, turns: seq<Turn>, x: Input, used: seq<bool>,
                  data: seq<Data>, who: seq<nat>, slots: seq<nat>, dcis: seq<Place>, cce: seq<bool>, shares: Shares,
                  now: nat, nofPrb: nat) returns (after: seq<Standing>)
    requires now < TTI_PERIOD && |users| == |ss| == |turns| && Distinct(users) && OnCarrier(users, nofPrb)
    requires AllLookLike(looks, ss) && AllRestStand(users, ss)
    requires DlMetricRr.Seen(users, looks, vs, now, x.nofCtrl) && DlMetricRr.AllLook(users, afters)
    requires Scheduler.Stepped(users, looks, afters, ms, turns, now, x.nofCtrl)
    requires |used| == MAX_CCE && |x.dlRequests| == |ms| == |users| && Pdcch.AllLegal(x.dlRequests)
    requires Scheduler.SentTo(users, ms, turns, data, who, slots, dcis)
    requires Scheduler.AllSent(users, ms, x.dlRequests, used, turns, who, cce)
    requires shares.ms == ms && shares.vs == vs && shares.Given() && (|users| > 0 ==> shares.first == now % |users|)
    ensures AllStand(users, after) && DlDone(users, ss, after, turns, shares, used, x, data, now, nofPrb)
  {
    after := seq(|users|, i requires 0 <= i < |users| =>
      Standing(afters[i].procs, afters[i].masks, ss[i].ul, afters[i].lch, ss[i].channel));
    forall i | 0 <= i < |users|
      ensures Stands(users[i], after[i])
      ensures DlTurned(ss[i], after[i], turns[i], shares, i, now, nofPrb, x.nofCtrl)
      ensures DlServed(users[i].rnti, ms, turns[i], i, used, x.dlRequests, data)
    {
      assert Pick(i) && UserStepped(users[i], looks[i], afters[i], ms[i], turns, now, x.nofCtrl, i);
      UserTurned(users[i], looks[i], ms[i], turns, now, x.nofCtrl, i, ss[i], shares);
      IsServed(users, ms, x.dlRequests, used, turns, data, who, slots, dcis, cce, i);
    }
  }

  /** The downlink scheduler. */
  method DlCall(sched: Sched, dl: DlMetricRr.DlMetric, users: seq<SchedUe>, tti: nat, x: Input, ghost p: Setup,
                ghost ss: seq<Standing>, ghost looks: seq<DlMetricRr.Look>, ghost vs: seq<DlAllocation.View>,
                ghost dlProcs: set<HarqProc>)
    returns (blocks: seq<Groups>, data: seq<Data>, ghost turns: seq<Turn>, ghost shares: Shares, ghost stage: Stage,
             ghost who: seq<nat>, ghost slots: seq<nat>, ghost afters: seq<DlMetricRr.Look>)
    requires sched.Valid() && 0 < sched.nofPrb <= 100 && dl.Sized() && dl.usedRbg != sched.usedCce
    requires p == SetupOf(sched, p.cell) && p.cell.nofPrb == sched.nofPrb
    requires tti < TTI_PERIOD && InputOk(x, |users|, p) && Apart(users, dlProcs, true)
    requires DlMetricRr.AllLook(users, looks) && DlMetricRr.Seen(users, looks, vs, tti, x.nofCtrl)
    requires DlAllocation.ViewsOk(vs, Rbg.NofGroups(sched.nofPrb))
    requires UlOutside(users, dlProcs) && AllRestStand(users, ss)
    modifies sched, sched.usedCce, dl, dl.usedRbg
    modifies users`dlNextAlloc, users`masks, users`lch, users`procs
    modifies dlProcs`rbgMask, dlProcs`tti, dlProcs`tb, dlProcs`nCce
    ensures sched.Valid() && sched.currentTti == tti && dl.Sized() && AllRestStand(users, ss)
    ensures DlMetricRr.MasksBounded(users, Rbg.NofGroups(sched.nofPrb))
    ensures PrbsUsedOnce(blocks, data, sched.nofPrb)
    ensures |turns| == |users| == |shares.ms| && DlMetricRr.AllLook(users, afters)
    ensures Scheduler.Stepped(users, looks, afters, shares.ms, turns, tti, x.nofCtrl)
    ensures Scheduler.SentTo(users, shares.ms, turns, data, who, slots, sched.dcis)
    ensures var used := EnterDl(old(Map(sched.usedCce[..], sched.currentTti)), tti).used;
            (stage, sched.pendingSibs) == BlocksOf(p, used, old(sched.pendingSibs), x.wants, tti)
    ensures blocks == stage.blocks && shares.start == stage.start && shares.free == stage.avail && stage.Valid()
    ensures Scheduler.AllSent(users, shares.ms, x.dlRequests, stage.used, turns, who, sched.usedCce[..])
    ensures shares.vs == vs && shares.Given() && (|users| > 0 ==> shares.first == tti % |users|)
  {
    ghost var used := EnterDl(Map(sched.usedCce[..], sched.currentTti), tti).used;
    stage := BlocksOf(p, used, sched.pendingSibs, x.wants, tti).0;
    ghost var ms, first;
    blocks, data, ms, first, afters, turns, who, slots :=
      sched.DlSched(tti, x.wants.sibs, x.wants.paging, x.wants.rars, dl, users, x.dlRequests, x.nofCtrl, looks, vs,
                    dlProcs);
    shares := Shares(ms, vs, stage.start, stage.avail, first);
  }

  /** The downlink half of a subframe. */
  method DlHalf(sched: Sched, dl: DlMetricRr.DlMetric, users: seq<SchedUe>, tti: nat, x: Input, ghost p: Setup,
                ghost ss: seq<Standing>, ghost dlProcs: set<HarqProc>, ghost ulProcs: set<HarqProc>)
    returns (blocks: seq<Groups>, data: seq<Data>, ghost turns: seq<Turn>, ghost shares: Shares, ghost stage: Stage,
             ghost who: seq<nat>, ghost slots: seq<nat>, ghost after: seq<Standing>)
    requires sched.Valid() && 0 < sched.nofPrb <= 100 && dl.Sized() && dl.usedRbg != sched.usedCce
    requires p == SetupOf(sched, p.cell) && p.cell.nofPrb == sched.nofPrb
    requires tti < TTI_PERIOD && InputOk(x, |users|, p)
    requires Owned(users, dlProcs, ulProcs) && OnCarrier(users, sched.nofPrb) && AllStand(users, ss)
    requires DlMetricRr.MasksBounded(users, Rbg.NofGroups(sched.nofPrb))
    modifies sched, sched.usedCce, dl, dl.usedRbg
    modifies users`dlNextAlloc, users`masks, users`lch, users`procs
    modifies dlProcs`rbgMask, dlProcs`tti, dlProcs`tb, dlProcs`nCce
    ensures sched.Valid() && sched.currentTti == tti && dl.Sized() && AllStand(users, after)
    ensures DlMetricRr.MasksBounded(users, Rbg.NofGroups(sched.nofPrb))
    ensures var used := EnterDl(old(Map(sched.usedCce[..], sched.currentTti)), tti).used;
            (stage, sched.pendingSibs) == BlocksOf(p, used, old(sched.pendingSibs), x.wants, tti)
    ensures blocks == stage.blocks && shares.start == stage.start && shares.free == stage.avail && stage.Valid()
    ensures PrbsUsedOnce(blocks, data, sched.nofPrb)
    ensures DlDone(users, ss, after, turns, shares, stage.used, x, data, tti, sched.nofPrb)
    ensures Scheduler.SentTo(users, shares.ms, turns, data, who, slots, sched.dcis)
    ensures sched.usedCce[..] == CceAfter(stage.used, x.dlRequests, shares.ms, |users|)
  {
    ghost var looks, vs := DlCanStart(users, ss, tti, x.nofCtrl, Rbg.NofGroups(sched.nofPrb));
    OwnedOutside(users, dlProcs, ulProcs);
    ghost var afters;
    blocks, data, turns, shares, stage, who, slots, afters :=
      DlCall(sched, dl, users, tti, x, p, ss, looks, vs, dlProcs);
    after := AllTurned(users, ss, looks, vs, afters, shares.ms, turns, x, stage.used, data, who, slots, sched.dcis,
                       sched.usedCce[..], shares, tti, sched.nofPrb);
  }

  // ---- The uplink half

  /** What the uplink allocator gives on top of what is reserved, to users that look like `vs`, and what they need DCIs
      for. */
  datatype UlShares = UlShares(gs: seq<Option<Alloc>>, vs: seq<UlAllocation.View>, reserved: seq<bool>, first: nat,
                               asks: seq<Option<Alloc>>)
  {
    ghost predicate Given() {
      UlScheduler.GivenRbs(gs, vs, reserved, first)
    }
  }

  predicate HasGrant(grants: seq<UlScheduler.Pusch>, rnti: nat) {
    exists k | 0 <= k < |grants| :: grants[k].rnti == rnti
  }

  /** The uplink processes number `r` of all users. */
  function FoundIn(ss: seq<Standing>, r: nat): (us: seq<UlRuns.Ul>)
    requires r < MAX_HARQ_PROC && forall i | 0 <= i < |ss| :: ss[i].Ok()
    ensures |us| == |ss|
  {
    seq(|ss|, i requires 0 <= i < |ss| && ss[i].Ok() => ss[i].ul[r])
  }

  /** The uplink process number `r` of a user took the opportunity `e`, if anything is scheduled at all. */
  ghost predicate UlTurned(s: Standing, after: Standing, e: UlRuns.Env, open: bool, r: nat) {
    && s.Ok() && r < MAX_HARQ_PROC
    && after == s.(ul := s.ul[r := if open then UlRuns.Opportunity(UlRuns.Reported(s.ul[r]), e).0 else s.ul[r]])
  }

  /** What is granted to a user: the RBs of its opportunity, and the size of its block. */
  predicate GrantRight(grants: seq<UlScheduler.Pusch>, rnti: nat, e: UlRuns.Env) {
    forall k | 0 <= k < |grants| && grants[k].rnti == rnti :: Some(grants[k].alloc) == e.rbs && grants[k].tbs == e.tbs
  }

  /** User `i`, whose process stood at `u`, looked like that to the allocator, took the opportunity `e` with what it was
      given, had a DCI exactly if one of its candidates was left over, and is granted a block exactly if it transmits
      one of some size. */
  predicate UlServed(rnti: nat, maxRetx: nat, ch: Channel, u: UlRuns.Ul, rbs: UlShares, e: UlRuns.Env, i: nat, x: Input,
                     c: UlScheduler.Cell, now: nat, used: seq<bool>, grants: seq<UlScheduler.Pusch>)
    requires |used| == MAX_CCE && i < |x.ulRequests| == |rbs.asks| && Pdcch.AllLegal(x.ulRequests)
  {
    && i < |rbs.gs| == |rbs.vs| && rbs.vs[i] == UlScheduler.ViewOf(ch, UlRuns.Reported(u))
    && UlScheduler.EnvOf(rnti, maxRetx, rbs.gs[i], x.msg3, c, now, e)
    && UlScheduler.Sized(ch, UlRuns.Reported(u), x.msg3, e)
    && (rbs.asks[i].Some? ==> (e.dci <==> FindsDci(CceAfter(used, x.ulRequests, rbs.asks, i), x.ulRequests[i])))
    && (HasGrant(grants, rnti) <==> !UlRuns.Output(u, e).tx.Silent? && e.tbs > 0)
    && GrantRight(grants, rnti, e)
  }

  /** The RBs of TTI `now` were given to `n` users. */
  ghost predicate RbsFor(n: nat, rbs: UlShares, x: Input, c: UlScheduler.Cell, now: nat)
    requires c.Valid()
  {
    && rbs.Given() && |rbs.gs| == n && (n > 0 ==> rbs.first == (now + n / 2) % n)
    && rbs.reserved
       == UlScheduler.MarkAll(seq(c.nofPrb, _ => false), UlScheduler.Reservations(c, x.prach, x.msg3, x.userPucch))
  }

  ghost predicate RbsGiven(users: seq<SchedUe>, rbs: UlShares, x: Input, c: UlScheduler.Cell, now: nat)
    requires c.Valid()
  {
    RbsFor(|users|, rbs, x, c, now) && rbs.asks == UlScheduler.AllAsks(users, rbs.gs, x.msg3)
  }

  /** All users were told what they wait for, and took their opportunities. */
  ghost predicate UlDone(users: seq<SchedUe>, ss: seq<Standing>, after: seq<Standing>, es: seq<UlRuns.Env>,
                         rbs: UlShares, used: seq<bool>, x: Input, c: UlScheduler.Cell, now: nat,
                         phichs: seq<UlScheduler.Phich>, grants: seq<UlScheduler.Pusch>)
    requires c.Valid() && |used| == MAX_CCE && |x.ulRequests| == |users| && Pdcch.AllLegal(x.ulRequests)
  {
    var r, open := now % MAX_HARQ_PROC, c.PrachFits();
    && |users| == |ss| == |after| == |es| && (forall i | 0 <= i < |ss| :: ss[i].Ok())
    && phichs == (if open then UlScheduler.Phichs(users, FoundIn(ss, r), |users|) else [])
    && (if open then RbsGiven(users, rbs, x, c, now) else grants == [])
    && forall i {:trigger Pick(i)} | 0 <= i < |users| ::
         && UlTurned(ss[i], after[i], es[i], open, r)
         && (open ==> UlServed(users[i].rnti, users[i].maxRetx, ss[i].channel, ss[i].ul[r], rbs, es[i], i, x, c, now,
                               used, grants))
  }

  /** A user is granted an uplink block exactly if it transmits one of some size. */
  lemma GrantIff(users: seq<SchedUe>, gs: seq<Option<Alloc>>, msg3: Option<UlScheduler.Msg3>, requests: seq<Request>,
                 used: seq<bool>, found: seq<UlRuns.Ul>, es: seq<UlRuns.Env>, grants: seq<UlScheduler.Pusch>,
                 who: seq<nat>, slots: seq<nat>, dcis: seq<Place>, base: nat, now: seq<bool>, i: nat)
    requires |used| == MAX_CCE && |es| == |requests| == |gs| == |users| == |found| && Pdcch.AllLegal(requests)
    requires Distinct(users) && i < |users| && es[i].msg3 == UlScheduler.IsRar(users[i].rnti, msg3)
    requires es[i].rbs == if es[i].msg3 then Some(msg3.value.alloc) else gs[i]
    requires UlScheduler.SentTo(users, gs, msg3, es, grants, who, slots, dcis, base)
    requires UlScheduler.AllSent(UlScheduler.AllAsks(users, gs, msg3), requests, used, who, found, es, now)
    ensures HasGrant(grants, users[i].rnti)
            <==> UlRuns.Opportunity(found[i], es[i]).1 != UlRuns.Silent && es[i].tbs > 0
    ensures GrantRight(grants, users[i].rnti, es[i])
    ensures var asks := UlScheduler.AllAsks(users, gs, msg3);
            asks[i].Some? ==> (es[i].dci <==> FindsDci(CceAfter(used, requests, asks, i), requests[i]))
  {
    var asks := UlScheduler.AllAsks(users, gs, msg3);
    var p := Search(CceAfter(used, requests, asks, i), requests[i], 0);
    Pdcch.SearchComplete(CceAfter(used, requests, asks, i), requests[i]);
    assert UlScheduler.SentRight(asks[i], found[i], es[i], p, i in who);
    forall k | 0 <= k < |grants| && grants[k].rnti == users[i].rnti
      ensures who[k] == i && UlScheduler.GrantOf(users[i], gs[i], msg3, es[i], grants[k], slots[k], dcis)
    {
      assert UlScheduler.GrantOf(users[who[k]], gs[who[k]], msg3, es[who[k]], grants[k], slots[k], dcis);
      assert Pick(who[k]) && Pick(i);
    }
    if k :| 0 <= k < |who| && who[k] == i {
      assert UlScheduler.GrantOf(users[who[k]], gs[who[k]], msg3, es[who[k]], grants[k], slots[k], dcis);
    }
  }

  /** What stands between subframes is what the uplink half starts from. */
  lemma UlCanStart(users: seq<SchedUe>, ss: seq<Standing>, now: nat)
    returns (found: seq<UlRuns.Ul>, vs: seq<UlAllocation.View>)
    requires AllStand(users, ss)
    ensures (forall i | 0 <= i < |ss| :: ss[i].Ok()) && found == FoundIn(ss, now % MAX_HARQ_PROC)
    ensures UlScheduler.States(users, now, found) && |vs| == |users|
    ensures forall i | 0 <= i < |users| :: vs[i] == UlScheduler.ViewOf(ss[i].channel, UlRuns.Reported(found[i]))
    ensures UlScheduler.Viewed(users, now, UlScheduler.ReportedAll(found, |found|), vs)
  {
    StandingOk(users, ss);
    found := FoundIn(ss, now % MAX_HARQ_PROC);
    vs := seq(|ss|, i requires 0 <= i < |ss| && i < |found| =>
      UlScheduler.ViewOf(ss[i].channel, UlRuns.Reported(found[i])));
    forall i | 0 <= i < |users|
      ensures users[i].Valid() && users[i].GetUlHarq(now).UlState() == found[i]
      ensures vs[i] == UlScheduler.ViewOf(users[i].channel, UlScheduler.ReportedAll(found, |found|)[i])
    {
      assert Pick(i);
    }
  }

  /** None of the processes is the user's, except number `r`. */
  predicate OnlyNumber(u: SchedUe, procs: set<HarqProc>, r: nat) {
    && (forall k | 0 <= k < |u.ulHarq| && k != r :: u.ulHarq[k] !in procs) && Outside(u.dlHarq, procs)
  }

  predicate AllOnlyNumber(users: seq<SchedUe>, procs: set<HarqProc>, r: nat) {
    forall i | 0 <= i < |users| :: OnlyNumber(users[i], procs, r)
  }

  /** The uplink processes of one TTI. */
  lemma ProcsOfTti(users: seq<SchedUe>, dlProcs: set<HarqProc>, ulProcs: set<HarqProc>, now: nat)
    returns (procs: set<HarqProc>)
    requires Owned(users, dlProcs, ulProcs) && AllValidUsers(users)
    ensures procs == (set h | h in ulProcs && h.id == now % MAX_HARQ_PROC) && ApartIn(users, procs, now)
    ensures AllOnlyNumber(users, procs, now % MAX_HARQ_PROC)
  {
    procs := set h | h in ulProcs && h.id == now % MAX_HARQ_PROC;
    forall i | 0 <= i < |users|
      ensures OnlyNumber(users[i], procs, now % MAX_HARQ_PROC)
      ensures forall h | h in users[i].ulHarq && h.id == now % MAX_HARQ_PROC :: h in procs
    {
      assert Pick(i);
    }
  }

  /** The uplink processes of a user stand at `ul`, but for number `r`. */
  ghost predicate UlStandsBut(u: SchedUe, ul: seq<UlRuns.Ul>, r: nat)
    reads set k | 0 <= k < |u.ulHarq| && k != r :: u.ulHarq[k]
  {
    && |u.ulHarq| == |ul| == MAX_HARQ_PROC
    && forall k | 0 <= k < MAX_HARQ_PROC && k != r :: u.ulHarq[k].Valid() && u.ulHarq[k].UlState() == ul[k]
  }

  /** The uplink processes of all users but those number `r`. */
  ghost function OtherProcs(users: seq<SchedUe>, r: nat): set<HarqProc> {
    set i, k | 0 <= i < |users| && 0 <= k < |users[i].ulHarq| && k != r :: users[i].ulHarq[k]
  }

  /** All users stand as before, but for the uplink process number `r`. */
  ghost predicate UlKept(users: seq<SchedUe>, ss: seq<Standing>, r: nat)
    reads users`procs, users`masks, users`lch, users`channel, OtherProcs(users, r)
  {
    && |users| == |ss|
    && forall i | 0 <= i < |users| :: FieldsStand(users[i], ss[i]) && UlStandsBut(users[i], ss[i].ul, r)
  }

  lemma OthersOutside(users: seq<SchedUe>, procs: set<HarqProc>, r: nat)
    requires AllOnlyNumber(users, procs, r)
    ensures procs !! OtherProcs(users, r)
  {
  }

  /** The users and their processes of TTI `now` before the opportunities, which `found` are, and after them. */
  ghost predicate TookAll(users: seq<SchedUe>, ss: seq<Standing>, found: seq<UlRuns.Ul>, es: seq<UlRuns.Env>,
                          rbs: UlShares, x: Input, c: UlScheduler.Cell, now: nat)
    requires now < TTI_PERIOD && c.Valid()
    reads *
  {
    && Distinct(users) && |users| == |ss| == |es| && c.PrachFits() && (forall i | 0 <= i < |ss| :: ss[i].Ok())
    && found == FoundIn(ss, now % MAX_HARQ_PROC) && UlKept(users, ss, now % MAX_HARQ_PROC)
    && RbsGiven(users, rbs, x, c, now)
    && (forall i | 0 <= i < |users| :: rbs.vs[i] == UlScheduler.ViewOf(ss[i].channel, UlRuns.Reported(found[i])))
    && UlScheduler.Phase(users, now, UlScheduler.ReportedAll(found, |users|), rbs.gs, x.msg3, c, es)
  }

  lemma UserTook(users: seq<SchedUe>, ss: seq<Standing>, found: seq<UlRuns.Ul>, es: seq<UlRuns.Env>, rbs: UlShares,
                 x: Input, c: UlScheduler.Cell, now: nat, i: nat)
    requires now < TTI_PERIOD && c.Valid() && TookAll(users, ss, found, es, rbs, x, c, now) && i < |users|
    ensures var r, u := now % MAX_HARQ_PROC, UlRuns.Reported(found[i]);
            && Stands(users[i], ss[i].(ul := ss[i].ul[r := UlRuns.Opportunity(u, es[i]).0]))
            && UlScheduler.EnvOf(users[i].rnti, users[i].maxRetx, rbs.gs[i], x.msg3, c, now, es[i])
            && UlScheduler.Sized(ss[i].channel, u, x.msg3, es[i])
  {
    assert Pick(i);
  }

  lemma AllTook(users: seq<SchedUe>, ss: seq<Standing>, found: seq<UlRuns.Ul>, es: seq<UlRuns.Env>, rbs: UlShares,
                used: seq<bool>, x: Input, c: UlScheduler.Cell, now: nat, phichs: seq<UlScheduler.Phich>,
                grants: seq<UlScheduler.Pusch>, who: seq<nat>, slots: seq<nat>, dcis: seq<Place>, base: nat,
                cce: seq<bool>) returns (after: seq<Standing>)
    requires now < TTI_PERIOD && c.Valid() && TookAll(users, ss, found, es, rbs, x, c, now)
    requires phichs == UlScheduler.Phichs(users, found, |users|)
    requires |used| == MAX_CCE && |x.ulRequests| == |users| && Pdcch.AllLegal(x.ulRequests)
    requires UlScheduler.SentTo(users, rbs.gs, x.msg3, es, grants, who, slots, dcis, base)
    requires UlScheduler.AllSent(rbs.asks, x.ulRequests, used, who, UlScheduler.ReportedAll(found, |users|), es, cce)
    ensures AllStand(users, after) && UlDone(users, ss, after, es, rbs, used, x, c, now, phichs, grants)
  {
    var r := now % MAX_HARQ_PROC;
    after := seq(|users|, i requires 0 <= i < |users| && ss[i].Ok() =>
      ss[i].(ul := ss[i].ul[r := UlRuns.Opportunity(UlRuns.Reported(found[i]), es[i]).0]));
    forall i | 0 <= i < |users|
      ensures Stands(users[i], after[i]) && UlTurned(ss[i], after[i], es[i], true, r)
      ensures UlServed(users[i].rnti, users[i].maxRetx, ss[i].channel, ss[i].ul[r], rbs, es[i], i, x, c, now, used,
                       grants)
    {
      UserTook(users, ss, found, es, rbs, x, c, now, i);
      GrantIff(users, rbs.gs, x.msg3, x.ulRequests, used, UlScheduler.ReportedAll(found, |users|), es, grants, who,
               slots, dcis, base, cce, i);
    }
  }

  /** With a random access area outside the carrier nothing happens. */
  lemma NoneTook(users: seq<SchedUe>, ss: seq<Standing>, rbs: UlShares, used: seq<bool>, x: Input,
                 c: UlScheduler.Cell, now: nat) returns (es: seq<UlRuns.Env>)
    requires |users| == |ss| && now < TTI_PERIOD && forall i | 0 <= i < |ss| :: ss[i].Ok()
    requires c.Valid() && !c.PrachFits()
    requires |used| == MAX_CCE && |x.ulRequests| == |users| && Pdcch.AllLegal(x.ulRequests)
    ensures UlDone(users, ss, ss, es, rbs, used, x, c, now, [], [])
  {
    es := seq(|users|, i requires 0 <= i < |users| => UlRuns.Env(now, None, true, false, false, 0, 0, 0, false));
    forall i | 0 <= i < |users| ensures UlTurned(ss[i], ss[i], es[i], false, now % MAX_HARQ_PROC) {
      var r := now % MAX_HARQ_PROC;
      assert ss[i].ul[r := ss[i].ul[r]] == ss[i].ul;
    }
  }

  /** The uplink scheduler. */
  method UlCall(sched: Sched, ul: UlMetricRr.UlMetric, users: seq<SchedUe>, c: UlScheduler.Cell, tti: nat, x: Input,
                ghost p: Setup, ghost ss: seq<Standing>, ghost found: seq<UlRuns.Ul>,
                ghost vs: seq<UlAllocation.View>, ghost procs: set<HarqProc>)
    returns (ok: bool, phichs: seq<UlScheduler.Phich>, grants: seq<UlScheduler.Pusch>, ghost rbs: UlShares,
             ghost es: seq<UlRuns.Env>, ghost who: seq<nat>, ghost slots: seq<nat>)
    requires sched.Valid() && ul.Valid() && ul.usedRb != sched.usedCce && c.Valid() && tti < TTI_PERIOD
    requires p.cell == c && InputOk(x, |users|, p)
    requires ApartIn(users, procs, tti) && UlScheduler.States(users, tti, found)
    requires procs !! OtherProcs(users, tti % MAX_HARQ_PROC) && UlKept(users, ss, tti % MAX_HARQ_PROC)
    requires UlScheduler.Viewed(users, tti, UlScheduler.ReportedAll(found, |found|), vs)
    modifies sched`currentTti, sched`dcis, sched.usedCce, ul, ul.usedRb, users`ulNextAlloc, procs
    ensures sched.Valid() && ul.Valid() && UlKept(users, ss, tti % MAX_HARQ_PROC) && ok == c.PrachFits()
    ensures sched.currentTti == if ok then tti else old(sched.currentTti)
    ensures !ok ==> phichs == [] && grants == [] && UlScheduler.States(users, tti, found)
                    && sched.dcis == old(sched.dcis)
    ensures ok ==>
              && |es| == |users| && RbsGiven(users, rbs, x, c, tti) && rbs.vs == vs
              && phichs == UlScheduler.Phichs(users, found, |users|)
              && UlScheduler.Phase(users, tti, UlScheduler.ReportedAll(found, |users|), rbs.gs, x.msg3, c, es)
    ensures UlScheduler.AllApart(grants, UlScheduler.Reservations(c, x.prach, x.msg3, x.userPucch), x.msg3, c.nofPrb)
    ensures ok ==>
              var before := if TtiTx(old(sched.currentTti)) == tti then old(sched.dcis) else [];
              var used := EnterUl(old(Map(sched.usedCce[..], sched.currentTti)), tti).used;
              && before <= sched.dcis
              && UlScheduler.SentTo(users, rbs.gs, x.msg3, es, grants, who, slots, sched.dcis, |before|)
              && UlScheduler.AllSent(rbs.asks, x.ulRequests, used, who, UlScheduler.ReportedAll(found, |users|), es,
                                     sched.usedCce[..])
  {
    ghost var gs, first;
    ok, phichs, grants, gs, es, who, slots, first :=
      UlScheduler.UlSched(sched, ul, users, x.ulRequests, c, tti, x.prach, x.msg3, x.userPucch, found, vs, procs);
    rbs := UlShares(gs, vs, UlScheduler.MarkAll(seq(c.nofPrb, _ => false),
                                                UlScheduler.Reservations(c, x.prach, x.msg3, x.userPucch)), first,
                    if ok then UlScheduler.AllAsks(users, gs, x.msg3) else []);
  }

  lemma StillStand(users: seq<SchedUe>, ss: seq<Standing>, found: seq<UlRuns.Ul>, now: nat)
    requires forall i | 0 <= i < |ss| :: ss[i].Ok()
    requires found == FoundIn(ss, now % MAX_HARQ_PROC) && UlKept(users, ss, now % MAX_HARQ_PROC)
    requires UlScheduler.States(users, now, found)
    ensures AllStand(users, ss)
  {
    forall i | 0 <= i < |users| ensures Stands(users[i], ss[i]) { assert Pick(i); }
  }

  lemma KeptBefore(users: seq<SchedUe>, ss: seq<Standing>, r: nat)
    requires AllStand(users, ss)
    ensures UlKept(users, ss, r)
  {
    forall i | 0 <= i < |users| ensures FieldsStand(users[i], ss[i]) && UlStandsBut(users[i], ss[i].ul, r) {
      assert Pick(i);
    }
  }

  /** The uplink half of a subframe. */
  method UlHalf(sched: Sched, ul: UlMetricRr.UlMetric, users: seq<SchedUe>, c: UlScheduler.Cell, tti: nat, x: Input,
                ghost p: Setup, ghost ss: seq<Standing>, ghost dlProcs: set<HarqProc>, ghost ulProcs: set<HarqProc>)
    returns (phichs: seq<UlScheduler.Phich>, grants: seq<UlScheduler.Pusch>, ghost rbs: UlShares,
             ghost es: seq<UlRuns.Env>, ghost who: seq<nat>, ghost slots: seq<nat>, ghost after: seq<Standing>)
    requires sched.Valid() && ul.Valid() && ul.usedRb != sched.usedCce && c.Valid() && tti < TTI_PERIOD
    requires p.cell == c && InputOk(x, |users|, p)
    requires Owned(users, dlProcs, ulProcs) && AllStand(users, ss)
    modifies sched`currentTti, sched`dcis, sched.usedCce, ul, ul.usedRb, users`ulNextAlloc, ulProcs
    ensures sched.Valid() && ul.Valid() && AllStand(users, after)
    ensures sched.currentTti == if c.PrachFits() then tti else old(sched.currentTti)
    ensures var used := EnterUl(old(Map(sched.usedCce[..], sched.currentTti)), tti).used;
            UlDone(users, ss, after, es, rbs, used, x, c, tti, phichs, grants)
    ensures UlScheduler.AllApart(grants, UlScheduler.Reservations(c, x.prach, x.msg3, x.userPucch), x.msg3, c.nofPrb)
    ensures TtiTx(old(sched.currentTti)) == tti ==> old(sched.dcis) <= sched.dcis
    ensures TtiTx(old(sched.currentTti)) == tti && grants != [] ==>
              |es| == |users| == |rbs.gs|
              && UlScheduler.SentTo(users, rbs.gs, x.msg3, es, grants, who, slots, sched.dcis, |old(sched.dcis)|)
  {
    StandingOk(users, ss);
    ghost var procs := ProcsOfTti(users, dlProcs, ulProcs, tti);
    ghost var found, vs := UlCanStart(users, ss, tti);
    KeptBefore(users, ss, tti % MAX_HARQ_PROC);
    OthersOutside(users, procs, tti % MAX_HARQ_PROC);
    ghost var base := if TtiTx(sched.currentTti) == tti then |sched.dcis| else 0;
    ghost var used := EnterUl(Map(sched.usedCce[..], sched.currentTti), tti).used;
    var ok;
    ok, phichs, grants, rbs, es, who, slots := UlCall(sched, ul, users, c, tti, x, p, ss, found, vs, procs);
    if ok {
      after := AllTook(users, ss, found, es, rbs, used, x, c, tti, phichs, grants, who, slots, sched.dcis, base,
                       sched.usedCce[..]);
    } else {
      StillStand(users, ss, found, tti);
      after := ss;
      es := NoneTook(users, ss, rbs, used, x, c, tti);
    }
  }

  // ---- Both halves

  /** What was done in a subframe: what the blocks left, the turns of the users and their shares, the opportunities of
      their uplink processes of the TTI, and the RBs they got. */
  datatype Account = Account(stage: Stage, turns: seq<Turn>, shares: Shares, es: seq<UlRuns.Env>, rbs: UlShares)
  {
    /** It is about `n` users. */
    predicate About(n: nat) {
      && |turns| == |shares.ms| == |shares.vs| == |es| == n && stage.Valid()
      && shares.start == stage.start && shares.free == stage.avail
    }
  }

  /** The CCE map between the halves of a subframe. */
  function BetweenHalves(a: Account, x: Input): (used: seq<bool>)
    requires a.stage.Valid() && |x.dlRequests| == |a.shares.ms| && Pdcch.AllLegal(x.dlRequests)
    ensures |used| == MAX_CCE
  {
    CceAfter(a.stage.used, x.dlRequests, a.shares.ms, |a.shares.ms|)
  }

  /** The halves of the subframe received in TTI `t` took the users from `ss` over `mid` to `after` and sent `r`. */
  ghost predicate Scheduled(users: seq<SchedUe>, ss: seq<Standing>, mid: seq<Standing>, after: seq<Standing>,
                            a: Account, x: Input, t: nat, p: Setup, r: Result)
    requires InputOk(x, |users|, p) && p.cell.Valid() && t < TTI_PERIOD
  {
    && a.About(|users|) && r.blocks == a.stage.blocks
    && DlDone(users, ss, mid, a.turns, a.shares, a.stage.used, x, r.data, TtiTx(t), p.cell.nofPrb)
    && UlDone(users, mid, after, a.es, a.rbs, BetweenHalves(a, x), x, p.cell, TtiTx(TtiTx(t)), r.phichs, r.grants)
  }

  lemma UlKeepsMasks(users: seq<SchedUe>, mid: seq<Standing>, after: seq<Standing>, es: seq<UlRuns.Env>,
                     rbs: UlShares, used: seq<bool>, x: Input, c: UlScheduler.Cell, now: nat,
                     phichs: seq<UlScheduler.Phich>, grants: seq<UlScheduler.Pusch>, total: nat)
    requires c.Valid() && |used| == MAX_CCE && |x.ulRequests| == |users| && Pdcch.AllLegal(x.ulRequests)
    requires UlDone(users, mid, after, es, rbs, used, x, c, now, phichs, grants) && AllStand(users, after)
    requires forall i | 0 <= i < |mid| :: forall k | 0 <= k < |mid[i].masks| :: mid[i].masks[k] < Bits.Pow2(total)
    ensures AllValidUsers(users) && DlMetricRr.MasksBounded(users, total)
  {
    forall i | 0 <= i < |users| ensures after[i].masks == mid[i].masks { assert Pick(i); }
    MasksStand(users, after, total);
    StandingOk(users, after);
  }

  /** What a worker has scheduled in the subframe it received in TTI `t`. */
  method Subframe(sched: Sched, dl: DlMetricRr.DlMetric, ul: UlMetricRr.UlMetric, users: seq<SchedUe>,
                  c: UlScheduler.Cell, t: nat, x: Input, ghost ss: seq<Standing>, ghost dlProcs: set<HarqProc>,
                  ghost ulProcs: set<HarqProc>)
    returns (r: Result, ghost a: Account, ghost mid: seq<Standing>, ghost after: seq<Standing>)
    requires Ready(sched, dl, ul, users, c, dlProcs, ulProcs) && AllStand(users, ss) && t < TTI_PERIOD
    requires InputOk(x, |users|, SetupOf(sched, c))
    modifies sched, sched.usedCce, dl, dl.usedRbg, ul, ul.usedRb, dlProcs, ulProcs
    modifies users`dlNextAlloc, users`masks, users`lch, users`procs, users`ulNextAlloc
    ensures Ready(sched, dl, ul, users, c, dlProcs, ulProcs) && AllStand(users, after) && UsedOnce(r, x, c)
    ensures Scheduled(users, ss, mid, after, a, x, t, SetupOf(sched, c), r)
    ensures var used := EnterDl(old(Map(sched.usedCce[..], sched.currentTti)), TtiTx(t)).used;
            (a.stage, sched.pendingSibs) == BlocksOf(SetupOf(sched, c), used, old(sched.pendingSibs), x.wants, TtiTx(t))
    ensures sched.currentTti == if c.PrachFits() then TtiTx(TtiTx(t)) else TtiTx(t)
  {
    ghost var p := SetupOf(sched, c);
    var blocks, data; ghost var turns, shares, stage, dlWho, dlSlots;
    blocks, data, turns, shares, stage, dlWho, dlSlots, mid :=
      DlHalf(sched, dl, users, TtiTx(t), x, p, ss, dlProcs, ulProcs);
    ghost var dcis := sched.dcis;
    MasksStand(users, mid, Rbg.NofGroups(sched.nofPrb));
    var phichs, grants; ghost var rbs, es, who, slots;
    phichs, grants, rbs, es, who, slots, after :=
      UlHalf(sched, ul, users, c, TtiTx(TtiTx(t)), x, p, mid, dlProcs, ulProcs);
    r, a := Result(blocks, data, phichs, grants), Account(stage, turns, shares, es, rbs);
    if grants != [] {
      GrantPlacesApart(users, shares.ms, turns, data, dlWho, dlSlots, dcis, rbs.gs, x.msg3, es, grants, who, slots,
                       sched.dcis);
    } else {
      DataPlacesApart(users, shares.ms, turns, data, dlWho, dlSlots, dcis, sched.dcis);
    }
    UlKeepsMasks(users, mid, after, es, rbs, BetweenHalves(a, x), x, c, TtiTx(TtiTx(t)), phichs, grants,
                 Rbg.NofGroups(sched.nofPrb));
  }

  // ---- With the reports before it

  /** A user with everything that was reported in the subframe received in TTI `t`. */
  function Prepared(s: Standing, x: Input, i: nat, t: nat): (h: Standing)
    requires s.Ok()
    ensures h.Ok()
  {
    HeardBy(s, x.acks, x.crcs, i, t).(lch := QueuedBy(s.lch, x.queues, i), channel := LinkedBy(s.channel, x.links, i))
  }

  ghost predicate PreparedAll(ss: seq<Standing>, after: seq<Standing>, x: Input, t: nat) {
    && |ss| == |after|
    && forall i {:trigger Pick(i)} | 0 <= i < |ss| :: ss[i].Ok() && after[i] == Prepared(ss[i], x, i, t)
  }

  /** All that comes in, before anything is scheduled. */
  method BeforeSubframe(sched: Sched, dl: DlMetricRr.DlMetric, ul: UlMetricRr.UlMetric, users: seq<SchedUe>,
                        c: UlScheduler.Cell, t: nat, x: Input, ghost ss: seq<Standing>,
                        ghost dlProcs: set<HarqProc>, ghost ulProcs: set<HarqProc>)
    returns (ghost after: seq<Standing>)
    requires Ready(sched, dl, ul, users, c, dlProcs, ulProcs) && AllStand(users, ss) && t < TTI_PERIOD
    requires InputOk(x, |users|, SetupOf(sched, c))
    modifies users`lch, users`procs, users`channel, dlProcs`tb, ulProcs`tb
    ensures Ready(sched, dl, ul, users, c, dlProcs, ulProcs) && AllStand(users, after)
    ensures PreparedAll(ss, after, x, t)
  {
    MasksStand(users, ss, Rbg.NofGroups(sched.nofPrb));
    ghost var heard := Hear(users, t, x.acks, x.crcs, ss, dlProcs, ulProcs);
    ghost var queued := TakeQueues(users, x.queues, heard);
    after := TakeLinks(users, x.links, queued);
    forall i | 0 <= i < |ss| ensures ss[i].Ok() && after[i] == Prepared(ss[i], x, i, t) { assert Pick(i); }
    MasksStand(users, after, Rbg.NofGroups(sched.nofPrb));
    StandingOk(users, after);
  }

  /** What the subframe received in TTI `t` with the input `x` is to user `i`, which stood at `s`: it has what was
      reported, then gets its share of the downlink and takes its turn, then its uplink process of the TTI takes an
      opportunity. */
  ghost predicate UserMoved(s: Standing, after: Standing, a: Account, i: nat, x: Input, t: nat, p: Setup)
    requires t < TTI_PERIOD
  {
    && s.Ok() && i < |a.turns| == |a.es|
    && var h := Prepared(s, x, i, t);
       && DlTurned(h, after.(ul := h.ul), a.turns[i], a.shares, i, TtiTx(t), p.cell.nofPrb, x.nofCtrl)
       && UlTurned(after.(ul := h.ul), after, a.es[i], p.cell.PrachFits(), t % MAX_HARQ_PROC)
  }

  /** What is sent to a user and granted to it. */
  predicate UserServed(rnti: nat, maxRetx: nat, s: Standing, a: Account, i: nat, x: Input, t: nat, p: Setup, r: Result)
    requires t < TTI_PERIOD
  {
    && s.Ok() && i < |a.turns| && a.About(|a.turns|) && InputOk(x, |a.turns|, p)
    && DlServed(rnti, a.shares.ms, a.turns[i], i, a.stage.used, x.dlRequests, r.data)
    && var h := Prepared(s, x, i, t);
       if p.cell.PrachFits() then
         && |a.rbs.asks| == |x.ulRequests|
         && UlServed(rnti, maxRetx, h.channel, h.ul[t % MAX_HARQ_PROC], a.rbs, a.es[i], i, x, p.cell,
                     TtiTx(TtiTx(t)), BetweenHalves(a, x), r.grants)
       else r.grants == []
  }

  /** The uplink processes of TTI `t` with everything that was reported. */
  function FoundAfter(ss: seq<Standing>, x: Input, t: nat): (us: seq<UlRuns.Ul>)
    requires forall i | 0 <= i < |ss| :: ss[i].Ok()
    ensures |us| == |ss|
  {
    seq(|ss|, i requires 0 <= i < |ss| && ss[i].Ok() => Prepared(ss[i], x, i, t).ul[t % MAX_HARQ_PROC])
  }

  /** One subframe took all users from `ss` to `after` and sent `r`. */
  ghost predicate Moved(users: seq<SchedUe>, ss: seq<Standing>, after: seq<Standing>, a: Account, x: Input, t: nat,
                        p: Setup, r: Result)
    requires t < TTI_PERIOD
  {
    && |users| == |ss| == |after| && a.About(|users|) && p.cell.Valid() && (forall i | 0 <= i < |ss| :: ss[i].Ok())
    && r.blocks == a.stage.blocks && a.shares.Given() && (|users| > 0 ==> a.shares.first == TtiTx(t) % |users|)
    && (p.cell.PrachFits() ==> RbsGiven(users, a.rbs, x, p.cell, TtiTx(TtiTx(t))))
    && r.phichs == (if p.cell.PrachFits() then UlScheduler.Phichs(users, FoundAfter(ss, x, t), |users|) else [])
    && forall i {:trigger Pick(i)} | 0 <= i < |users| ::
         && UserMoved(ss[i], after[i], a, i, x, t, p)
         && UserServed(users[i].rnti, users[i].maxRetx, ss[i], a, i, x, t, p, r)
  }

  lemma OneMoved(users: seq<SchedUe>, ss: seq<Standing>, heard: seq<Standing>, mid: seq<Standing>,
                 after: seq<Standing>, a: Account, x: Input, t: nat, p: Setup, r: Result, i: nat)
    requires t < TTI_PERIOD && PreparedAll(ss, heard, x, t) && InputOk(x, |users|, p) && p.cell.Valid()
    requires Scheduled(users, heard, mid, after, a, x, t, p, r) && i < |users|
    ensures ss[i].Ok() && mid[i].Ok() && mid[i].ul == heard[i].ul && heard[i] == Prepared(ss[i], x, i, t)
    ensures UserMoved(ss[i], after[i], a, i, x, t, p)
    ensures UserServed(users[i].rnti, users[i].maxRetx, ss[i], a, i, x, t, p, r)
  {
    SameProcess(t);
    assert Pick(i);
    assert mid[i] == after[i].(ul := heard[i].ul);
  }

  lemma SubframeMoves(users: seq<SchedUe>, ss: seq<Standing>, heard: seq<Standing>, mid: seq<Standing>,
                      after: seq<Standing>, a: Account, x: Input, t: nat, p: Setup, r: Result)
    requires t < TTI_PERIOD && PreparedAll(ss, heard, x, t) && InputOk(x, |users|, p) && p.cell.Valid()
    requires Scheduled(users, heard, mid, after, a, x, t, p, r)
    ensures Moved(users, ss, after, a, x, t, p, r)
  {
    SameProcess(t);
    forall i | 0 <= i < |users|
      ensures ss[i].Ok() && mid[i].Ok() && mid[i].ul == heard[i].ul && heard[i] == Prepared(ss[i], x, i, t)
      ensures UserMoved(ss[i], after[i], a, i, x, t, p)
      ensures UserServed(users[i].rnti, users[i].maxRetx, ss[i], a, i, x, t, p, r)
    {
      OneMoved(users, ss, heard, mid, after, a, x, t, p, r, i);
    }
    assert FoundIn(mid, t % MAX_HARQ_PROC) == FoundAfter(ss, x, t);
  }

  /** All that comes in, then what is scheduled. */
  method FullSubframe(sched: Sched, dl: DlMetricRr.DlMetric, ul: UlMetricRr.UlMetric, users: seq<SchedUe>,
                      c: UlScheduler.Cell, t: nat, x: Input, ghost ss: seq<Standing>, ghost dlProcs: set<HarqProc>,
                      ghost ulProcs: set<HarqProc>)
    returns (r: Result, ghost a: Account, ghost after: seq<Standing>)
    requires Ready(sched, dl, ul, users, c, dlProcs, ulProcs) && AllStand(users, ss) && t < TTI_PERIOD
    requires InputOk(x, |users|, SetupOf(sched, c))
    modifies sched, sched.usedCce, dl, dl.usedRbg, ul, ul.usedRb, users, dlProcs, ulProcs
    ensures Ready(sched, dl, ul, users, c, dlProcs, ulProcs) && AllStand(users, after) && UsedOnce(r, x, c)
    ensures Moved(users, ss, after, a, x, t, SetupOf(sched, c), r)
    ensures var used := EnterDl(old(Map(sched.usedCce[..], sched.currentTti)), TtiTx(t)).used;
            (a.stage, sched.pendingSibs) == BlocksOf(SetupOf(sched, c), used, old(sched.pendingSibs), x.wants, TtiTx(t))
    ensures sched.currentTti == if c.PrachFits() then TtiTx(TtiTx(t)) else TtiTx(t)
  {
    ghost var p := SetupOf(sched, c);
    ghost var heard := BeforeSubframe(sched, dl, ul, users, c, t, x, ss, dlProcs, ulProcs);
    ghost var mid;
    r, a, mid, after := Subframe(sched, dl, ul, users, c, t, x, heard, dlProcs, ulProcs);
    SubframeMoves(users, ss, heard, mid, after, a, x, t, p, r);
  }

  // ---- Any number of subframes

  /** What happened in the subframes received from TTI `start` on: `trace[k]` is where the users stood before number
      `k`. */
  ghost predicate History(users: seq<SchedUe>, p: Setup, start: nat, xs: seq<Input>, rs: seq<Result>,
                          accounts: seq<Account>, trace: seq<seq<Standing>>)
  {
    && |rs| == |accounts| == |xs| && |trace| == |xs| + 1 && |trace[0]| == |users|
    && forall k | 0 <= k < |xs| ::
         Moved(users, trace[k], trace[k + 1], accounts[k], xs[k], TtiAt(start, k), p, rs[k])
  }

  lemma OneMoreSubframe(users: seq<SchedUe>, p: Setup, start: nat, xs: seq<Input>, rs: seq<Result>,
                        accounts: seq<Account>, trace: seq<seq<Standing>>, k: nat, r: Result, a: Account,
                        after: seq<Standing>)
    requires k < |xs| && |trace| == k + 1 && History(users, p, start, xs[..k], rs, accounts, trace)
    requires Moved(users, trace[k], after, a, xs[k], TtiAt(start, k), p, r)
    ensures History(users, p, start, xs[..k + 1], rs + [r], accounts + [a], trace + [after])
  {
    var ys, rs', accounts', trace' := xs[..k + 1], rs + [r], accounts + [a], trace + [after];
    forall m | 0 <= m < k + 1
      ensures Moved(users, trace'[m], trace'[m + 1], accounts'[m], ys[m], TtiAt(start, m), p, rs'[m])
    {
      if m < k { assert Moved(users, trace[m], trace[m + 1], accounts[m], xs[..k][m], TtiAt(start, m), p, rs[m]); }
    }
  }

  /** The windows before each of these subframes, and what the blocks left in it; the first one started on the CCE map
      `used`, the others on a clear one. */
  ghost predicate Aired(p: Setup, used: seq<bool>, start: nat, xs: seq<Input>, accounts: seq<Account>,
                        wins: seq<seq<SiWindows.Win>>)
    requires |used| == MAX_CCE
  {
    && |accounts| == |xs| && |wins| == |xs| + 1 && (forall k | 0 <= k < |wins| :: WindowsOk(p, wins[k]))
    && forall k | 0 <= k < |xs| ::
         && Broadcast.WantsOk(xs[k].wants, |p.messages|)
         && (accounts[k].stage, wins[k + 1])
            == BlocksOf(p, if k == 0 then used else NoCce(), wins[k], xs[k].wants, TtiTx(TtiAt(start, k)))
  }

  lemma OneMoreAired(p: Setup, used: seq<bool>, start: nat, xs: seq<Input>, accounts: seq<Account>,
                     wins: seq<seq<SiWindows.Win>>, k: nat, a: Account, ws: seq<SiWindows.Win>)
    requires |used| == MAX_CCE && k < |xs| && |wins| == k + 1 && Aired(p, used, start, xs[..k], accounts, wins)
    requires Broadcast.WantsOk(xs[k].wants, |p.messages|)
    requires (a.stage, ws)
          == BlocksOf(p, if k == 0 then used else NoCce(), wins[k], xs[k].wants, TtiTx(TtiAt(start, k)))
    ensures Aired(p, used, start, xs[..k + 1], accounts + [a], wins + [ws])
  {
    assert forall m | 0 <= m < k :: xs[..k][m] == xs[..k + 1][m];
  }

  /** In none of these subframes a resource went out twice. */
  ghost predicate AllUsedOnce(rs: seq<Result>, xs: seq<Input>, c: UlScheduler.Cell)
    requires c.Valid()
  {
    |rs| == |xs| && forall k | 0 <= k < |xs| :: UsedOnce(rs[k], xs[k], c)
  }

  lemma OneMore(users: seq<SchedUe>, p: Setup, used: seq<bool>, start: nat, xs: seq<Input>, rs: seq<Result>,
                accounts: seq<Account>, trace: seq<seq<Standing>>, wins: seq<seq<SiWindows.Win>>, k: nat, r: Result,
                a: Account, after: seq<Standing>, ws: seq<SiWindows.Win>)
    requires |used| == MAX_CCE && k < |xs| && |trace| == |wins| == k + 1 && p.cell.Valid()
    requires History(users, p, start, xs[..k], rs, accounts, trace) && Aired(p, used, start, xs[..k], accounts, wins)
    requires AllUsedOnce(rs, xs[..k], p.cell) && Moved(users, trace[k], after, a, xs[k], TtiAt(start, k), p, r)
    requires Broadcast.WantsOk(xs[k].wants, |p.messages|) && UsedOnce(r, xs[k], p.cell)
    requires (a.stage, ws)
          == BlocksOf(p, if k == 0 then used else NoCce(), wins[k], xs[k].wants, TtiTx(TtiAt(start, k)))
    ensures History(users, p, start, xs[..k + 1], rs + [r], accounts + [a], trace + [after])
    ensures Aired(p, used, start, xs[..k + 1], accounts + [a], wins + [ws])
    ensures AllUsedOnce(rs + [r], xs[..k + 1], p.cell)
  {
    OneMoreSubframe(users, p, start, xs, rs, accounts, trace, k, r, a, after);
    OneMoreAired(p, used, start, xs, accounts, wins, k, a, ws);
    assert forall m | 0 <= m < k :: xs[..k][m] == xs[..k + 1][m];
  }

  /** A subframe leaves a CCE map that the next one clears. */
  lemma ClearsNext(start: nat, k: nat, m: Pdcch.Map)
    requires m.tti == TtiTx(TtiAt(start, k)) || m.tti == TtiTx(TtiTx(TtiAt(start, k)))
    ensures EnterDl(m, TtiTx(TtiAt(start, k + 1))).used == NoCce()
  {
    var t := TtiAt(start, k);
    assert TtiAt(start, k + 1) == if t + 1 < TTI_PERIOD then t + 1 else 0;
    EightOn(t);
  }

  /** Any number of subframes in a row, from reception TTI `start` on and across the wrap of the TTI counter: in none of
      them a resource goes out twice, all users move as they should in each, and the blocks are those of the windows. */
  method RunSubframes(sched: Sched, dl: DlMetricRr.DlMetric, ul: UlMetricRr.UlMetric, users: seq<SchedUe>,
                      c: UlScheduler.Cell, start: nat, xs: seq<Input>, ghost ss: seq<Standing>,
                      ghost dlProcs: set<HarqProc>, ghost ulProcs: set<HarqProc>)
    returns (rs: seq<Result>, ghost accounts: seq<Account>, ghost trace: seq<seq<Standing>>,
             ghost wins: seq<seq<SiWindows.Win>>)
    requires Ready(sched, dl, ul, users, c, dlProcs, ulProcs) && AllStand(users, ss)
    requires forall k | 0 <= k < |xs| :: InputOk(xs[k], |users|, SetupOf(sched, c))
    modifies sched, sched.usedCce, dl, dl.usedRbg, ul, ul.usedRb, users, dlProcs, ulProcs
    ensures Ready(sched, dl, ul, users, c, dlProcs, ulProcs)
    ensures History(users, SetupOf(sched, c), start, xs, rs, accounts, trace)
    ensures trace[0] == ss && AllStand(users, trace[|xs|])
    ensures var used := EnterDl(old(Map(sched.usedCce[..], sched.currentTti)), TtiTx(TtiAt(start, 0))).used;
            Aired(SetupOf(sched, c), used, start, xs, accounts, wins)
    ensures wins[0] == old(sched.pendingSibs) && wins[|xs|] == sched.pendingSibs
    ensures AllUsedOnce(rs, xs, c)
  {
    ghost var p := SetupOf(sched, c);
    ghost var used := EnterDl(Map(sched.usedCce[..], sched.currentTti), TtiTx(TtiAt(start, 0))).used;
    rs, accounts, trace, wins := [], [], [ss], [sched.pendingSibs];
    for k := 0 to |xs|
      invariant Ready(sched, dl, ul, users, c, dlProcs, ulProcs)
      invariant |rs| == k && |trace| == k + 1 && trace[0] == ss && AllStand(users, trace[k])
      invariant History(users, p, start, xs[..k], rs, accounts, trace)
      invariant Aired(p, used, start, xs[..k], accounts, wins)
      invariant |wins| == k + 1 && wins[0] == old(sched.pendingSibs) && wins[k] == sched.pendingSibs
      invariant EnterDl(Map(sched.usedCce[..], sched.currentTti), TtiTx(TtiAt(start, k))).used
             == if k == 0 then used else NoCce()
      invariant AllUsedOnce(rs, xs[..k], c)
    {
      var r; ghost var a, after;
      r, a, after := FullSubframe(sched, dl, ul, users, c, TtiAt(start, k), xs[k], trace[k], dlProcs, ulProcs);
      OneMore(users, p, used, start, xs, rs, accounts, trace, wins, k, r, a, after, sched.pendingSibs);
      ClearsNext(start, k, Map(sched.usedCce[..], sched.currentTti));
      rs, accounts, trace, wins := rs + [r], accounts + [a], trace + [after], wins + [sched.pendingSibs];
    }
    assert xs[..|xs|] == xs;
  }
}
