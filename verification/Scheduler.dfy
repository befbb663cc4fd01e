/** The MAC scheduler of the cell: per TTI it places control messages, gives resource block groups to broadcast,
    random access and user data, and keeps the uplink reservations apart from user data. */
module Scheduler {
  import opened Tti
  import opened SiWindows
  import opened Broadcast
  import opened Pdcch

  import opened Harq
  import opened HarqObjects
  import opened DlProcs
  import opened Queues
  import opened SchedUser
  import opened DlMetricRr
  import DlAllocation
  import DlRuns
  import Bits
  import Modular
  import Rbg

  /** What the allocator gives to a user: a process and its groups, or nothing. */
  type Share = Option<DlAllocation.Grant>

  /** A grant that goes out: whose it is, its groups, where its DCI is, its block and what the block carries. */
  datatype Data = Data(rnti: nat, mask: nat, place: Place, tbs: int, pdus: seq<Pdu>)

  /** The process that a user was given is the one with the oldest retransmission or the first empty one. */
  predicate Choice(hs: seq<HarqProc>, l: DlMetricRr.Look, now: nat)
    requires l.Shape() && now < TTI_PERIOD
  {
    l.alloc != null ==>
      && l.alloc in hs
      && (Pending(l.procs, now) == Some(l.alloc.id) || FirstEmptyFrom(l.procs, 0) == Some(l.alloc.id))
  }

  /** The pick is the process `alloc`. */
  predicate Picked(ps: seq<Proc>, hs: seq<HarqProc>, alloc: HarqProc?, now: nat, pick: DlRuns.Pick)
    requires |ps| == |hs| && AllValid(ps) && now < TTI_PERIOD
  {
    match DlRuns.Chosen(ps, now, pick)
    case None => alloc == null
    case Some(pid) => alloc == hs[pid]
  }

  /** What one user's turn came to: the choice of the allocator, whether there was a DCI, and what the grant carries. */
  datatype Turn = Turn(pick: DlRuns.Pick, dci: bool, load: Load)
  {
    /** To the processes it is a step of their run. */
    function Step(): DlRuns.Step {
      DlRuns.Step([], pick, dci, load.mcs, load.tbs)
    }
  }

  function Filling(u: SchedUe, l: DlMetricRr.Look, a: DlMetricRr.Look, pid: nat, nofCtrl: nat): Load
    requires l.Shape() && a.Shape() && pid < MAX_HARQ_PROC
  {
    LoadOf(l.procs, pid, l.lch, a.channel.block, Rbg.CountTrue(MaskPrbs(a.masks[pid], u.nofPrb)), nofCtrl)
  }

  /** The chosen process is filled from the bearers if there is a DCI, and what is left stays on the bearers. */
  predicate Loaded(u: SchedUe, l: DlMetricRr.Look, a: DlMetricRr.Look, turn: Turn, now: nat, nofCtrl: nat)
    requires l.Shape() && a.Shape() && now < TTI_PERIOD
  {
    && a.lch == turn.load.lch
    && turn.load == match DlRuns.Chosen(l.procs, now, turn.pick)
                    case None => Unloaded(l.lch)
                    case Some(pid) => if turn.dci then Filling(u, l, a, pid, nofCtrl) else Unloaded(l.lch)
  }

  /** User `i` looked like `l` before the TTI, was given the mask `m` and now looks like `a`: if its turn is among
      `turns` it was taken, otherwise the user stands where the allocator left it. */
  predicate UserStepped(u: SchedUe, l: DlMetricRr.Look, a: DlMetricRr.Look, m: Share, turns: seq<Turn>, now: nat,
                        nofCtrl: nat, i: nat)
    requires now < TTI_PERIOD
  {
    && l.Shape() && a.Shape() && |u.dlHarq| == MAX_HARQ_PROC && Carries(u.dlHarq, l.masks, a, m)
    && if i < |turns|
       then Picked(l.procs, u.dlHarq, a.alloc, now, turns[i].pick)
            && a.procs == DlRuns.After(l.procs, now, turns[i].Step())
            && Loaded(u, l, a, turns[i], now, nofCtrl)
       else a.procs == l.procs && a.lch == l.lch && Choice(u.dlHarq, a, now)
  }

  ghost predicate Stepped(users: seq<SchedUe>, looks: seq<DlMetricRr.Look>, afters: seq<DlMetricRr.Look>,
                          ms: seq<Share>, turns: seq<Turn>, now: nat, nofCtrl: nat)
    requires now < TTI_PERIOD
  {
    && |users| == |looks| == |afters| == |ms|
    && forall i {:trigger Pick(i)} | 0 <= i < |users| ::
         UserStepped(users[i], looks[i], afters[i], ms[i], turns, now, nofCtrl, i)
  }

  /** One more user has had its turn. */
  lemma SteppedOne(users: seq<SchedUe>, looks: seq<DlMetricRr.Look>, afters: seq<DlMetricRr.Look>,
                   ms: seq<Share>, turns: seq<Turn>, now: nat, nofCtrl: nat, turn: Turn, a: DlMetricRr.Look)
    requires now < TTI_PERIOD && |turns| < |users| && Stepped(users, looks, afters, ms, turns, now, nofCtrl)
    requires UserStepped(users[|turns|], looks[|turns|], a, ms[|turns|], turns + [turn], now, nofCtrl, |turns|)
    ensures Stepped(users, looks, afters[|turns| := a], ms, turns + [turn], now, nofCtrl)
  {
    var after := afters[|turns| := a];
    forall j | 0 <= j < |users|
      ensures UserStepped(users[j], looks[j], after[j], ms[j], turns + [turn], now, nofCtrl, j)
    {
      assert Pick(j);
    }
  }

  /** Grant `d` is the one of user `u`, which was given the mask `m`, with this load, and its DCI is number `slot`. */
  predicate GrantOf(u: SchedUe, m: Share, load: Load, d: Data, slot: nat, dcis: seq<Place>) {
    && m.Some? && slot < |dcis| && dcis[slot].At?
    && d == Data(u.rnti, m.value.mask, dcis[slot], load.tbs, load.pdus)
  }

  /** The grants are those of the users `who`, in order, with the DCIs `slots`, in order; all users are among those that
      have had their turn. */
  predicate SentTo(users: seq<SchedUe>, ms: seq<Share>, turns: seq<Turn>, data: seq<Data>, who: seq<nat>,
                   slots: seq<nat>, dcis: seq<Place>)
    requires |turns| <= |users| == |ms|
  {
    && |data| == |who| == |slots|
    && (forall k | 0 <= k < |who| ::
          && who[k] < |turns|
          && GrantOf(users[who[k]], ms[who[k]], turns[who[k]].load, data[k], slots[k], dcis))
    && forall k, m | 0 <= k < m < |who| :: who[k] < who[m] && slots[k] < slots[m]
  }

  /** The CCE map after the DCIs of the first `k` users that were given something. */
  function CceAfter<T>(used: seq<bool>, requests: seq<Request>, ms: seq<Option<T>>, k: nat): (r: seq<bool>)
    requires |used| == MAX_CCE && k <= |requests| == |ms| && Pdcch.AllLegal(requests)
    ensures |r| == MAX_CCE
  {
    if k == 0 then used
    else
      var u := CceAfter(used, requests, ms, k - 1);
      if ms[k - 1].None? then u else Pdcch.After(u, Search(u, requests[k - 1], 0))
  }

  /** What the turn of a user sends: a grant exactly if the user was given something, has a DCI and a block. */
  predicate Outcome(u: SchedUe, m: Share, p: Place, turn: Turn, out: Option<Data>) {
    && (m.Some? ==> turn.dci == p.At?)
    && out == if m.Some? && p.At? && turn.load.tbs > 0
              then Some(Data(u.rnti, m.value.mask, p, turn.load.tbs, turn.load.pdus)) else None
  }

  /** A user that was given `m` and whose DCI went to `p` is sent a grant exactly if it has all it needs. */
  predicate SentRight(m: Share, turn: Turn, p: Place, sent: bool) {
    (m.Some? ==> turn.dci == p.At?) && (sent <==> m.Some? && turn.dci && turn.load.tbs > 0)
  }

  /** The first users have had their turns, which took the CCE map from `used` to `now`: each has a DCI exactly if one
      of its candidates was left over by the users before, and exactly those with something given, a DCI and a block
      are sent a grant. */
  predicate AllSent(users: seq<SchedUe>, ms: seq<Share>, requests: seq<Request>, used: seq<bool>,
                    turns: seq<Turn>, who: seq<nat>, now: seq<bool>)
    requires |used| == MAX_CCE && |turns| <= |requests| == |ms| == |users| && Pdcch.AllLegal(requests)
  {
    && now == CceAfter(used, requests, ms, |turns|)
    && forall i | 0 <= i < |turns| ::
         SentRight(ms[i], turns[i], Search(CceAfter(used, requests, ms, i), requests[i], 0), i in who)
  }

  /** The DCIs after a user that was given `m`. */
  function DcisAfter<T>(dcis: seq<Place>, m: Option<T>, p: Place): seq<Place> {
    if m.None? then dcis else dcis + [p]
  }

  function Listed<T, U>(out: Option<T>, x: U): seq<U> {
    if out.None? then [] else [x]
  }

  lemma SentToStep(users: seq<SchedUe>, ms: seq<Share>, turns: seq<Turn>, data: seq<Data>, who: seq<nat>,
                   slots: seq<nat>, dcis: seq<Place>, p: Place, turn: Turn, out: Option<Data>)
    requires |turns| < |users| == |ms| && SentTo(users, ms, turns, data, who, slots, dcis)
    requires Outcome(users[|turns|], ms[|turns|], p, turn, out)
    ensures SentTo(users, ms, turns + [turn], data + (if out.None? then [] else [out.value]),
                   who + Listed(out, |turns|), slots + Listed(out, |dcis|), DcisAfter(dcis, ms[|turns|], p))
  {
    var i := |turns|;
    var who', slots', dcis' := who + Listed(out, i), slots + Listed(out, |dcis|), DcisAfter(dcis, ms[i], p);
    var data', turns' := data + (if out.None? then [] else [out.value]), turns + [turn];
    forall k | 0 <= k < |who'|
      ensures who'[k] < |turns'|
      ensures GrantOf(users[who'[k]], ms[who'[k]], turns'[who'[k]].load, data'[k], slots'[k], dcis')
    {
      if k < |who| { assert GrantOf(users[who[k]], ms[who[k]], turns[who[k]].load, data[k], slots[k], dcis); }
    }
    forall k, m | 0 <= k < m < |who'| ensures who'[k] < who'[m] && slots'[k] < slots'[m] {
      assert GrantOf(users[who[k]], ms[who[k]], turns[who[k]].load, data[k], slots[k], dcis);
    }
  }

  lemma InListed<T>(who: seq<nat>, out: Option<T>, n: nat, i: nat)
    requires n !in who
    ensures i in who + Listed(out, n) <==> i in who || (i == n && out.Some?)
  {
  }

  lemma AllSentStep(users: seq<SchedUe>, ms: seq<Share>, requests: seq<Request>, used: seq<bool>,
                    turns: seq<Turn>, who: seq<nat>, turn: Turn, out: Option<Data>,
                    now: seq<bool>)
    requires |used| == MAX_CCE && |turns| < |requests| == |ms| == |users| && Pdcch.AllLegal(requests)
    requires AllSent(users, ms, requests, used, turns, who, now) && forall k | 0 <= k < |who| :: who[k] < |turns|
    requires var i := |turns|;
             Outcome(users[i], ms[i], Search(now, requests[i], 0), turn, out)
    ensures var p := Search(now, requests[|turns|], 0);
            AllSent(users, ms, requests, used, turns + [turn], who + Listed(out, |turns|),
                    if ms[|turns|].None? then now else Pdcch.After(now, p))
  {
    var n := |turns|;
    var who', turns' := who + Listed(out, n), turns + [turn];
    forall i | 0 <= i < n + 1
      ensures SentRight(ms[i], turns'[i], Search(CceAfter(used, requests, ms, i), requests[i], 0), i in who')
    {
      InListed(who, out, n, i);
      if i < n {
        assert SentRight(ms[i], turns[i], Search(CceAfter(used, requests, ms, i), requests[i], 0), i in who);
      }
    }
  }

  lemma LookedAt(users: seq<SchedUe>, looks: seq<DlMetricRr.Look>)
    requires AllLook(users, looks)
    ensures forall i | 0 <= i < |users| :: looks[i].procs == users[i].procs && looks[i].lch == users[i].lch
  {
    forall i | 0 <= i < |users| ensures looks[i].procs == users[i].procs && looks[i].lch == users[i].lch {
      assert Pick(i);
    }
  }

  /** The mask that user `i` gets above `start` groups if user `first` comes first. */
  function ShareFor(vs: seq<DlAllocation.View>, start: nat, free: nat, first: nat, i: nat): Share
    requires DlAllocation.ViewsOk(vs, start + free) && i < |vs| && first < |vs|
  {
    var gs := DlAllocation.Served(DlAllocation.Reserved(start, free), free, vs, first, |vs|).1;
    ByUser(gs, first, |vs|)[i]
  }

  /** All users get the masks that the allocation function gives to users that look like `vs`. */
  ghost predicate GivenMasks(ms: seq<Share>, vs: seq<DlAllocation.View>, start: nat, free: nat, first: nat) {
    && |ms| == |vs| && DlAllocation.ViewsOk(vs, start + free) && (|vs| > 0 ==> first < |vs|)
    && forall i {:trigger Pick(i)} | 0 <= i < |vs| :: ms[i] == ShareFor(vs, start, free, first, i)
  }

  lemma GivenFrom(ms: seq<Share>, vs: seq<DlAllocation.View>, start: nat, free: nat, first: nat)
    requires DlAllocation.ViewsOk(vs, start + free) && first < |vs|
    requires var gs := DlAllocation.Served(DlAllocation.Reserved(start, free), free, vs, first, |vs|).1;
             ms == ByUser(gs, first, |vs|)
    ensures GivenMasks(ms, vs, start, free, first)
  {
    forall i | 0 <= i < |vs| ensures ms[i] == ShareFor(vs, start, free, first, i) {
      var gs := DlAllocation.Served(DlAllocation.Reserved(start, free), free, vs, first, |vs|).1;
      assert ShareFor(vs, start, free, first, i) == ByUser(gs, first, |vs|)[i];
    }
  }

  /** The masks that the users got in one TTI: `start` groups were taken by blocks, and user `first` came first. */
  datatype Shares = Shares(ms: seq<Share>, vs: seq<DlAllocation.View>, start: nat, free: nat, first: nat)
  {
    ghost predicate Given() {
      GivenMasks(ms, vs, start, free, first)
    }

    /** To the allocation function. */
    function Round(): DlAllocation.Round {
      DlAllocation.Round(DlAllocation.Reserved(start, free), free, vs, first)
    }

    /** User `i` got at least one group. */
    predicate Gets(i: nat) {
      i < |ms| && ms[i].Some? && ms[i].value.mask != 0
    }
  }

  /** A user gets a group exactly if the allocation function grants it one. */
  lemma GetsIsGranted(r: Shares, i: nat)
    requires r.Given() && i < |r.vs|
    ensures r.ms[i].Some? <==> DlAllocation.Assigned(r.Round(), i)
    ensures r.Gets(i) <==> DlAllocation.Granted(r.Round(), i)
  {
    assert Pick(i);
    var gs := DlAllocation.Served(DlAllocation.Reserved(r.start, r.free), r.free, r.vs, r.first, |r.vs|).1;
    assert r.ms[i] == ByUser(gs, r.first, |r.vs|)[i];
  }

  /** A user is given a process without any group exactly if it waits to repeat what went out on an empty mask. */
  lemma EmptyShareIff(r: Shares, i: nat)
    requires r.Given() && i < |r.vs|
    ensures r.ms[i].Some? && r.ms[i].value.mask == 0 <==> DlAllocation.EmptyRetx(r.vs[i])
  {
    assert Pick(i);
    var used, n := DlAllocation.Reserved(r.start, r.free), |r.vs|;
    var k := DlAllocation.Position(r.first, i, n);
    DlAllocation.ServedAt(used, r.free, r.vs, r.first, n, k);
    DlAllocation.EachUserOnce(r.first, i, k, n);
    DlAllocation.EmptyGrantIff(DlAllocation.Served(used, r.free, r.vs, r.first, k).0, r.free, r.vs[i]);
    assert r.ms[i] == ByUser(DlAllocation.Served(used, r.free, r.vs, r.first, n).1, r.first, n)[i];
  }

  /** Group `n` went to a user that was served before user `i`. */
  ghost predicate TakenBefore(r: Shares, i: nat, n: nat)
    requires r.first < |r.vs| == |r.ms| && i < |r.vs| && n < r.start + r.free
  {
    exists j | 0 <= j < |r.ms| ::
      DlAllocation.Position(r.first, j, |r.vs|) < DlAllocation.Position(r.first, i, |r.vs|)
      && DlAllocation.Takes(r.ms[j], r.start + r.free, n)
  }

  lemma BeforeIsPrefix(r: Shares, i: nat, gs: seq<Share>, k: nat, n: nat)
    requires r.first < |r.vs| == |r.ms| == |gs| && i < |r.vs| && n < r.start + r.free
    requires k == DlAllocation.Position(r.first, i, |r.vs|)
    requires forall j | 0 <= j < |gs| :: r.ms[j] == gs[DlAllocation.Position(r.first, j, |gs|)]
    ensures DlAllocation.TakenBySome(gs[..k], r.start + r.free, n) <==> TakenBefore(r, i, n)
  {
    if m :| 0 <= m < k && DlAllocation.Takes(gs[..k][m], r.start + r.free, n) {
      var j := DlAllocation.Turn(r.first, m, |gs|);
      DlAllocation.EachUserOnce(r.first, j, m, |gs|);
      assert DlAllocation.Takes(r.ms[j], r.start + r.free, n);
    }
    if TakenBefore(r, i, n) {
      var j :| 0 <= j < |r.ms| && DlAllocation.Position(r.first, j, |r.vs|) < k
               && DlAllocation.Takes(r.ms[j], r.start + r.free, n);
      assert DlAllocation.Takes(gs[..k][DlAllocation.Position(r.first, j, |gs|)], r.start + r.free, n);
    }
  }

  /** The groups that are taken when it is the turn of user `i`: those of the blocks and of the users before it. On top
      of these the user gets what it should. */
  lemma ShareIsRight(r: Shares, i: nat) returns (taken: seq<bool>)
    requires r.Given() && i < |r.vs|
    ensures |taken| == r.start + r.free && |r.ms| == |r.vs| && r.first < |r.vs|
    ensures forall n | 0 <= n < |taken| :: taken[n] <==> n < r.start || TakenBefore(r, i, n)
    ensures DlAllocation.ServedRight(taken, r.free, r.vs[i], r.ms[i])
  {
    var used, n := DlAllocation.Reserved(r.start, r.free), |r.vs|;
    var k := DlAllocation.Position(r.first, i, n);
    var gs := DlAllocation.Served(used, r.free, r.vs, r.first, n).1;
    taken := DlAllocation.Served(used, r.free, r.vs, r.first, k).0;
    DlAllocation.TurnIsRight(used, r.free, r.vs, r.first, k);
    DlAllocation.EachUserOnce(r.first, i, k, n);
    forall j | 0 <= j < n ensures r.ms[j] == gs[DlAllocation.Position(r.first, j, n)] { assert Pick(j); }
    forall x | 0 <= x < |used|
      ensures DlAllocation.TakenBySome(gs[..k], |used|, x) <==> TakenBefore(r, i, x)
    {
      BeforeIsPrefix(r, i, gs, k, x);
    }
  }

  /** Of `n` users that a scheduler serves in `n` TTIs in a row, each one that keeps data and an empty process, while
      some group is left, gets a group in the TTI in which it comes first, unless it then waits to repeat what went out
      on an empty mask. */
  lemma ServedWithin(t: nat, rs: seq<Shares>, n: nat, i: nat) returns (k: nat)
    requires |rs| == n && i < n && t + n <= TTI_PERIOD
    requires forall m | 0 <= m < n ::
               rs[m].Given() && rs[m].first == (t + m) % n && DlAllocation.Waiting(rs[m].Round(), n, i)
    ensures k < n && rs[k].first == i < |rs[k].ms| && rs[k].ms[i].Some?
    ensures rs[k].Gets(i) <==> !DlAllocation.RepeatsNothing(rs[k].Round(), i)
  {
    var rounds := seq(n, m requires 0 <= m < n => rs[m].Round());
    k := DlAllocation.GrantWithin(t, rounds, 0, n, i);
    GetsIsGranted(rs[k], i);
  }

  /** Before a wrap of the TTI counter n TTIs are enough, across it 2n-1. */
  lemma ServedSoon(t: nat, rs: seq<Shares>, n: nat, i: nat) returns (k: nat)
    requires t < TTI_PERIOD && n <= TTI_PERIOD && |rs| == 2 * n - 1 && i < n
    requires forall m | 0 <= m < 2 * n - 1 ::
               rs[m].Given() && rs[m].first == TtiAt(t, m) % n && DlAllocation.Waiting(rs[m].Round(), n, i)
    ensures k < 2 * n - 1 && (t + n <= TTI_PERIOD ==> k < n)
    ensures rs[k].first == i < |rs[k].ms| && rs[k].ms[i].Some?
    ensures rs[k].Gets(i) <==> !DlAllocation.RepeatsNothing(rs[k].Round(), i)
  {
    var rounds := seq(2 * n - 1, m requires 0 <= m < 2 * n - 1 => rs[m].Round());
    if t + n <= TTI_PERIOD {
      forall m | 0 <= m < n ensures rounds[m].first == (t + m) % n { assert TtiAt(t, m) == t + m; }
      k := DlAllocation.GrantWithin(t, rounds, 0, n, i);
    } else {
      k := DlAllocation.GrantWithinWrap(t, rounds, n, i);
    }
    GetsIsGranted(rs[k], i);
  }

  ghost predicate SeenAs(u: SchedUe, l: DlMetricRr.Look, v: DlAllocation.View, now: nat, nofCtrl: nat, total: nat)
    requires now < TTI_PERIOD
  {
    l.Shape() && v == l.View(u.nofPrb, now, nofCtrl) && DlAllocation.ViewOk(v, total)
  }

  // ---- The turn of one user

  /** The grant of the process `h`, if its DCI is at `p`. Without a DCI the process is given up. */
  method SendGrant(user: SchedUe, h: HarqProc, p: Place, now: nat, nofCtrl: nat)
    returns (out: Option<Data>, ghost load: Load)
    requires user.Valid() && now < TTI_PERIOD && h in user.dlHarq
    modifies user`lch, user`procs, h`tti, h`tb, h`nCce
    ensures user.Valid() && h.id < MAX_HARQ_PROC
    ensures load == (if p.At? then user.LoadOn(old(user.procs), h.id, old(user.lch), nofCtrl)
                     else Unloaded(old(user.lch)))
    ensures user.lch == load.lch
    ensures var q := old(user.procs)[h.id];
            var q' := if p.At? then DlRuns.Sent(q, now, load.mcs, load.tbs) else q.ResetBoth();
            user.procs == old(user.procs)[h.id := q']
    ensures out == if p.At? && load.tbs > 0 then Some(Data(user.rnti, h.rbgMask, p, load.tbs, load.pdus)) else None
  {
    out, load := None, Unloaded(user.lch);
    if p.At? {
      var mcs, tbs, pdus := user.GenerateFormat1(h, now, nofCtrl, p.start);
      load := Load(mcs, tbs, pdus, user.lch);
      if tbs > 0 {
        out := Some(Data(user.rnti, h.rbgMask, p, tbs, pdus));
      }
    } else {
      user.GiveUp(h);
    }
  }

  /** Sends what a user was given, and gives up processes that are stuck. To the processes of the user this is one step
      of their run. */
  method ServeUser(user: SchedUe, p: Place, now: nat, nofCtrl: nat) returns (out: Option<Data>, ghost turn: Turn)
    requires user.Valid() && now < TTI_PERIOD && Choice(user.dlHarq, LookOf(user), now)
    modifies user`lch, user`procs, user.dlHarq`tti, user.dlHarq`tb, user.dlHarq`nCce
    ensures user.Valid() && user.procs == DlRuns.After(old(user.procs), now, turn.Step())
    ensures Picked(old(user.procs), user.dlHarq, user.dlNextAlloc, now, turn.pick)
    ensures Loaded(user, old(LookOf(user)), LookOf(user), turn, now, nofCtrl)
    ensures if user.dlNextAlloc == null then out == None
            else Outcome(user, Some(DlAllocation.Grant(user.dlNextAlloc.id, user.dlNextAlloc.rbgMask)), p, turn, out)
  {
    var h := user.dlNextAlloc;
    out := None;
    turn := Turn(DlRuns.Nobody, false, Unloaded(user.lch));
    ghost var ps := user.procs;
    if h != null {
      user.HarqAt(h);
      var pick := if Pending(ps, now) == Some(h.id) then DlRuns.OldestRetx else DlRuns.FirstEmpty;
      ghost var load;
      out, load := SendGrant(user, h, p, now, nofCtrl);
      turn := Turn(pick, p.At?, load);
    }
    assert DlRuns.Heard(ps, []) == ps;
    assert user.procs == DlRuns.Scheduled(ps, now, turn.Step());
    user.ResetTimeoutDlHarq(now);
  }

  /** The turn of a user that was given the mask `m`. */
  method TakeTurn(user: SchedUe, p: Place, now: nat, nofCtrl: nat, ghost l: DlMetricRr.Look, ghost m: Share,
                  ghost turns: seq<Turn>)
    returns (out: Option<Data>, ghost turn: Turn)
    requires user.Valid() && now < TTI_PERIOD && UserStepped(user, l, LookOf(user), m, turns, now, nofCtrl, |turns|)
    modifies user`lch, user`procs, user.dlHarq`tti, user.dlHarq`tb, user.dlHarq`nCce
    ensures user.Valid() && UserStepped(user, l, LookOf(user), m, turns + [turn], now, nofCtrl, |turns|)
    ensures Outcome(user, m, p, turn, out)
  {
    if user.dlNextAlloc != null { user.HarqAt(user.dlNextAlloc); }
    out, turn := ServeUser(user, p, now, nofCtrl);
  }

  /** The processes of user `v` are none of the downlink processes of user `u`. */
  predicate OwnProcs(u: SchedUe, v: SchedUe) {
    && u != v
    && (forall k | 0 <= k < |v.dlHarq| :: v.dlHarq[k] !in u.dlHarq)
    && (forall k | 0 <= k < |v.ulHarq| :: v.ulHarq[k] !in u.dlHarq)
  }

  /** The turn of one user, which leaves all others alone. */
  method TakeOneTurn(user: SchedUe, p: Place, now: nat, nofCtrl: nat, ghost l: DlMetricRr.Look, ghost m: Share,
                     ghost turns: seq<Turn>, ghost users: seq<SchedUe>)
    returns (out: Option<Data>, ghost turn: Turn)
    requires user.Valid() && now < TTI_PERIOD && |turns| < |users| && user == users[|turns|]
    requires UserStepped(user, l, LookOf(user), m, turns, now, nofCtrl, |turns|)
    requires forall j {:trigger Pick(j)} | 0 <= j < |users| && j != |turns| ::
               users[j].Valid() && OwnProcs(user, users[j])
    modifies user`lch, user`procs, user.dlHarq`tti, user.dlHarq`tb, user.dlHarq`nCce
    ensures user.Valid() && UserStepped(user, l, LookOf(user), m, turns + [turn], now, nofCtrl, |turns|)
    ensures Outcome(user, m, p, turn, out)
    ensures forall j {:trigger Pick(j)} | 0 <= j < |users| && j != |turns| ::
              users[j].Valid() && LookOf(users[j]) == old(LookOf(users[j]))
  {
    out, turn := TakeTurn(user, p, now, nofCtrl, l, m, turns);
    forall j | 0 <= j < |users| && j != |turns|
      ensures users[j].Valid() && LookOf(users[j]) == old(LookOf(users[j]))
    {
      assert Pick(j);
    }
  }

  /** The turn of user `i` of all users. */
  method ServeTurn(users: seq<SchedUe>, i: nat, p: Place, now: nat, nofCtrl: nat, ghost procs: set<HarqProc>,
                   ghost looks: seq<DlMetricRr.Look>, ghost before: seq<DlMetricRr.Look>, ghost turns: seq<Turn>,
                   ghost ms: seq<Share>)
    returns (out: Option<Data>, ghost turn: Turn, ghost afters: seq<DlMetricRr.Look>)
    requires Apart(users, procs, true) && now < TTI_PERIOD && i < |users| && |turns| == i
    requires AllLook(users, before) && Stepped(users, looks, before, ms, turns, now, nofCtrl)
    modifies users`lch, users`procs, procs`tti, procs`tb, procs`nCce
    ensures AllLook(users, afters) && Stepped(users, looks, afters, ms, turns + [turn], now, nofCtrl)
    ensures Outcome(users[i], ms[i], p, turn, out)
  {
    assert Pick(i);
    forall j | 0 <= j < |users| && j != i
      ensures users[j].Valid() && LookOf(users[j]) == before[j] && OwnProcs(users[i], users[j])
    {
      assert Pick(j);
    }
    assert UserStepped(users[i], looks[i], before[i], ms[i], turns, now, nofCtrl, i);
    out, turn := TakeOneTurn(users[i], p, now, nofCtrl, looks[i], ms[i], turns, users);
    ghost var a := LookOf(users[i]);
    afters := before[i := a];
    forall j | 0 <= j < |users| ensures users[j].Valid() && LookOf(users[j]) == afters[j] {
      assert Pick(j);
    }
    SteppedOne(users, looks, before, ms, turns, now, nofCtrl, turn, a);
  }

  /** A user was given a process exactly if it was given a mask. */
  lemma GivenIff(users: seq<SchedUe>, looks: seq<DlMetricRr.Look>, afters: seq<DlMetricRr.Look>, ms: seq<Share>,
                 turns: seq<Turn>, now: nat, nofCtrl: nat, i: nat)
    requires now < TTI_PERIOD && i < |users|
    requires AllLook(users, afters) && Stepped(users, looks, afters, ms, turns, now, nofCtrl)
    ensures users[i].dlNextAlloc != null <==> ms[i].Some?
  {
    assert Pick(i) && UserStepped(users[i], looks[i], afters[i], ms[i], turns, now, nofCtrl, i);
  }

  // ---- The result of the allocator

  /** After the allocator is done every user's process is one that it may use. */
  lemma StandAllocated(metric: DlMetric, users: seq<SchedUe>, looks: seq<DlMetricRr.Look>, afters: seq<DlMetricRr.Look>,
                 vs: seq<DlAllocation.View>, first: nat, used: seq<bool>, now: nat, nofCtrl: nat,
                 ms: seq<Share>)
    requires now < TTI_PERIOD && Seen(users, looks, vs, now, nofCtrl) && AllLook(users, afters) && |ms| == |users|
    requires metric.Underway(users, looks, afters, vs, first, |users|, used)
    requires forall i | 0 <= i < |users| :: looks[i].procs == users[i].procs && looks[i].lch == users[i].lch
    requires forall i | 0 <= i < |users| :: Carries(users[i].dlHarq, vs[i].masks, afters[i], ms[i])
    ensures Stepped(users, looks, afters, ms, [], now, nofCtrl)
  {
    forall i | 0 <= i < |users| ensures UserStepped(users[i], looks[i], afters[i], ms[i], [], now, nofCtrl, i) {
      assert Pick(i);
      GivenProcess(metric, users, looks, afters, vs, first, used, i, now, nofCtrl);
    }
  }

  /** After the allocator is done the masks are those of the allocation function, and the users are ready for their
      turns. */
  lemma WhenAllocated(metric: DlMetric, users: seq<SchedUe>, looks: seq<DlMetricRr.Look>,
                      afters: seq<DlMetricRr.Look>, vs: seq<DlAllocation.View>, first: nat, start: nat, free: nat,
                      now: nat, nofCtrl: nat) returns (ms: seq<Share>)
    requires now < TTI_PERIOD && Seen(users, looks, vs, now, nofCtrl) && AllLook(users, afters)
    requires metric.availableRbg == free && DlAllocation.ViewsOk(vs, start + free)
    requires metric.Underway(users, looks, afters, vs, first, |users|, DlAllocation.Reserved(start, free))
    requires forall i | 0 <= i < |users| :: looks[i].procs == users[i].procs && looks[i].lch == users[i].lch
    ensures Stepped(users, looks, afters, ms, [], now, nofCtrl) && MasksBounded(users, start + free)
    ensures MasksApart(ms, start, start + free) && GivenMasks(ms, vs, start, free, first)
  {
    ms := ServedApart(metric, users, looks, afters, vs, first, start, free);
    GivenFrom(ms, vs, start, free, first);
    StandAllocated(metric, users, looks, afters, vs, first, DlAllocation.Reserved(start, free), now, nofCtrl, ms);
    MasksStayBounded(metric, users, looks, afters, vs, first, DlAllocation.Reserved(start, free));
  }

  // ---- No PRB goes out twice

  lemma GroupsFit(nofPrb: nat)
    requires nofPrb <= 100
    ensures Rbg.NofGroups(nofPrb) <= MAX_RBG && (nofPrb > 0 ==> Rbg.NofGroups(nofPrb) > 0)
  {
  }

  /** PRB `x` belongs to the block, for groups of `p` PRBs. */
  predicate BlockHas(b: Groups, p: nat, x: nat) {
    b.start * p <= x < (b.start + b.len) * p
  }

  /** PRB `x` is addressed by the grant. */
  predicate DataHas(d: Data, nofPrb: nat, x: nat)
    requires x < nofPrb
  {
    MaskPrbs(d.mask, nofPrb)[x]
  }

  /** PRB `x` does not belong to two of the blocks and grants. */
  ghost predicate UsedOnce(blocks: seq<Groups>, data: seq<Data>, nofPrb: nat, x: nat)
    requires x < nofPrb
  {
    && (forall a, b | 0 <= a < b < |blocks| ::
          !(BlockHas(blocks[a], Rbg.GroupSize(nofPrb), x) && BlockHas(blocks[b], Rbg.GroupSize(nofPrb), x)))
    && (forall a, k | 0 <= a < |blocks| && 0 <= k < |data| ::
          !(BlockHas(blocks[a], Rbg.GroupSize(nofPrb), x) && DataHas(data[k], nofPrb, x)))
    && forall k, m | 0 <= k < m < |data| :: !(DataHas(data[k], nofPrb, x) && DataHas(data[m], nofPrb, x))
  }

  /** No PRB of the carrier is used twice. */
  ghost predicate PrbsUsedOnce(blocks: seq<Groups>, data: seq<Data>, nofPrb: nat) {
    forall x: nat | x < nofPrb :: UsedOnce(blocks, data, nofPrb, x)
  }

  lemma BlockGroup(b: Groups, p: nat, x: nat)
    requires p > 0 && BlockHas(b, p, x)
    ensures b.start <= x / p < b.start + b.len
  {
    Rbg.GroupBound(x, p, b.start + b.len);
    Modular.Decompose(x, p);
    if x / p < b.start { Modular.MulMono(x / p + 1, b.start, p); }
  }

  lemma BlocksOnce(s: Stage, total: nat, nofPrb: nat, x: nat)
    requires total == Rbg.NofGroups(nofPrb) && Gapless(s, total)
    ensures forall a, b | 0 <= a < b < |s.blocks| ::
              !(BlockHas(s.blocks[a], Rbg.GroupSize(nofPrb), x) && BlockHas(s.blocks[b], Rbg.GroupSize(nofPrb), x))
  {
    var p := Rbg.GroupSize(nofPrb);
    forall a, b | 0 <= a < b < |s.blocks| ensures !(BlockHas(s.blocks[a], p, x) && BlockHas(s.blocks[b], p, x)) {
      if BlockHas(s.blocks[a], p, x) && BlockHas(s.blocks[b], p, x) {
        BlockGroup(s.blocks[a], p, x);
        BlockGroup(s.blocks[b], p, x);
        BlocksInOrder(s, total, a, b);
      }
    }
  }

  lemma DataGroup(d: Data, nofPrb: nat, x: nat)
    requires x < nofPrb
    ensures var g, total := x / Rbg.GroupSize(nofPrb), Rbg.NofGroups(nofPrb);
            g < total && (DataHas(d, nofPrb, x) <==> Bits.Bit(d.mask, total - 1 - g))
  {
    Rbg.GroupBound(x, Rbg.GroupSize(nofPrb), Rbg.NofGroups(nofPrb));
  }

  lemma BlocksNotData(s: Stage, total: nat, data: seq<Data>, nofPrb: nat, users: seq<SchedUe>,
                      ms: seq<Share>, turns: seq<Turn>, who: seq<nat>, slots: seq<nat>, dcis: seq<Place>, x: nat)
    requires |turns| <= |ms| == |users| && SentTo(users, ms, turns, data, who, slots, dcis)
    requires total == Rbg.NofGroups(nofPrb) && Gapless(s, total) && MasksApart(ms, s.start, total) && x < nofPrb
    ensures forall a, k | 0 <= a < |s.blocks| && 0 <= k < |data| ::
              !(BlockHas(s.blocks[a], Rbg.GroupSize(nofPrb), x) && DataHas(data[k], nofPrb, x))
  {
    var p := Rbg.GroupSize(nofPrb);
    forall a, k | 0 <= a < |s.blocks| && 0 <= k < |data|
      ensures !(BlockHas(s.blocks[a], p, x) && DataHas(data[k], nofPrb, x))
    {
      if BlockHas(s.blocks[a], p, x) {
        BlockGroup(s.blocks[a], p, x);
        BlocksInOrder(s, total, a, a);
        DataGroup(data[k], nofPrb, x);
        assert !DlAllocation.Takes(ms[who[k]], total, x / p);
      }
    }
  }

  lemma DataOnce(s: Stage, total: nat, data: seq<Data>, nofPrb: nat, users: seq<SchedUe>,
                 ms: seq<Share>, turns: seq<Turn>, who: seq<nat>, slots: seq<nat>, dcis: seq<Place>, x: nat)
    requires |turns| <= |ms| == |users| && SentTo(users, ms, turns, data, who, slots, dcis)
    requires total == Rbg.NofGroups(nofPrb) && MasksApart(ms, s.start, total) && x < nofPrb
    ensures forall k, m | 0 <= k < m < |data| :: !(DataHas(data[k], nofPrb, x) && DataHas(data[m], nofPrb, x))
  {
    var p := Rbg.GroupSize(nofPrb);
    forall k, m | 0 <= k < m < |data| ensures !(DataHas(data[k], nofPrb, x) && DataHas(data[m], nofPrb, x)) {
      DataGroup(data[k], nofPrb, x);
      DataGroup(data[m], nofPrb, x);
      assert !(DlAllocation.Takes(ms[who[k]], total, x / p) && DlAllocation.Takes(ms[who[m]], total, x / p));
    }
  }

  /** Blocks without gaps below, and grants of users that share no group above them. */
  lemma OwnersUseOnce(s: Stage, total: nat, data: seq<Data>, nofPrb: nat, users: seq<SchedUe>,
                      ms: seq<Share>, turns: seq<Turn>, who: seq<nat>, slots: seq<nat>, dcis: seq<Place>)
    requires |turns| <= |ms| == |users| && SentTo(users, ms, turns, data, who, slots, dcis)
    requires total == Rbg.NofGroups(nofPrb) && Gapless(s, total) && MasksApart(ms, s.start, total)
    ensures PrbsUsedOnce(s.blocks, data, nofPrb)
  {
    forall x: nat | x < nofPrb ensures UsedOnce(s.blocks, data, nofPrb, x) {
      BlocksOnce(s, total, nofPrb, x);
      BlocksNotData(s, total, data, nofPrb, users, ms, turns, who, slots, dcis, x);
      DataOnce(s, total, data, nofPrb, users, ms, turns, who, slots, dcis, x);
    }
  }

  class Sched {
    const nofPrb: nat

    const siNRbg: nat

    const rarNRbg: nat

    const messages: seq<Si>

    const usedCce: array<bool>

    var currentTti: nat
    var availRbg: nat
    var startRbg: nat
    var pendingSibs: seq<Win>

    // The DCIs placed since the CCE map was cleared.
    ghost var dcis: seq<Place>

    ghost predicate Valid()
      reads this, usedCce
    {
      && usedCce.Length == MAX_CCE
      && |pendingSibs| == |messages| && Messages(messages) && WinsValid(pendingSibs)
      && currentTti < TTI_PERIOD
      && Exclusive(dcis) && Accounts(usedCce[..], dcis)
    }

    constructor (nofPrb_: nat, siNRbg_: nat, rarNRbg_: nat, messages_: seq<Si>)
      requires Messages(messages_)
      ensures Valid() && fresh(usedCce) && dcis == [] && pendingSibs == seq(|messages_|, _ => Win(false, 0, 0))
      ensures nofPrb == nofPrb_ && siNRbg == siNRbg_ && rarNRbg == rarNRbg_ && messages == messages_
    {
      nofPrb, siNRbg, rarNRbg, messages := nofPrb_, siNRbg_, rarNRbg_, messages_;
      usedCce := new bool[MAX_CCE](_ => false);
      currentTti, availRbg, startRbg := 0, 0, 0;
      pendingSibs := seq(|messages_|, _ => Win(false, 0, 0));
      dcis := [];
    }

    function StageNow(blocks: seq<Groups>): Stage
      reads this`startRbg, this`availRbg, usedCce
    {
      Stage(usedCce[..], startRbg, availRbg, blocks)
    }

    method FindCce(r: Request) returns (p: Place)
      requires usedCce.Length == MAX_CCE && r.Legal()
      ensures p == Search(usedCce[..], r, 0)
    {
      if |r.locs| == 0 {
        return Nowhere;
      }
      var nofCand, testCand := 0, r.first;
      while nofCand < |r.locs|
        invariant nofCand <= |r.locs|
        invariant testCand == if r.first + nofCand < |r.locs| then r.first + nofCand else r.first + nofCand - |r.locs|
        invariant Search(usedCce[..], r, 0) == Search(usedCce[..], r, nofCand)
      {
        var ncce := r.locs[testCand];
        assert ncce == r.Candidate(nofCand);
        var used := ncce in r.blocked;
        var j := 0;
        while j < r.size && !used
          invariant j <= r.size
          invariant used ==> !r.Fits(usedCce[..], ncce)
          invariant !used ==> ncce !in r.blocked && forall k | ncce <= k < ncce + j :: !usedCce[k]
        {
          if usedCce[ncce + j] {
            used := true;
          }
          j := j + 1;
        }
        if !used {
          return At(ncce, r.size);
        }
        testCand := testCand + 1;
        if testCand == |r.locs| {
          testCand := 0;
        }
        nofCand := nofCand + 1;
      }
      p := Nowhere;
    }

    method MarkCce(p: Place)
      requires usedCce.Length == MAX_CCE && (p.At? ==> p.start + p.size <= MAX_CCE)
      modifies usedCce
      ensures usedCce[..] == Pdcch.After(old(usedCce[..]), p)
    {
      if p.At? {
        ghost var used := usedCce[..];
        for j := 0 to p.size
          invariant usedCce[..] == Mark(used, p.start, j)
        {
          usedCce[p.start + j] := true;
        }
      }
    }

    /** Tries the candidates in turn, from a random first one on. */
    method GenerateDci(r: Request) returns (p: Place)
      requires Valid() && r.Legal()
      modifies this`dcis, usedCce
      ensures Valid() && dcis == old(dcis) + [p]
      ensures p == Search(old(usedCce[..]), r, 0) && usedCce[..] == Pdcch.After(old(usedCce[..]), p)
    {
      PlaceOne(usedCce[..], dcis, r);
      p := FindCce(r);
      MarkCce(p);
      dcis := dcis + [p];
    }

    method ClearCce()
      requires usedCce.Length == MAX_CCE
      modifies usedCce, this`dcis
      ensures usedCce[..] == NoCce() && dcis == []
    {
      for j := 0 to MAX_CCE
        invariant forall k | 0 <= k < j :: !usedCce[k]
      {
        usedCce[j] := false;
      }
      dcis := [];
      assert usedCce[..] == NoCce();
    }

    /** The beginning of a downlink TTI. */
    method EnterDlTti(tti: nat)
      requires Valid() && tti < TTI_PERIOD
      modifies this`currentTti, this`availRbg, this`startRbg, this`dcis, usedCce
      ensures Valid() && Map(usedCce[..], currentTti) == EnterDl(old(Map(usedCce[..], currentTti)), tti)
      ensures dcis == if old(currentTti) == tti then old(dcis) else []
      ensures startRbg == 0 && availRbg == Rbg.NofGroups(nofPrb)
    {
      if currentTti != tti {
        ClearCce();
      }
      currentTti := tti;
      availRbg := Rbg.NofGroups(nofPrb);
      startRbg := 0;
    }

    /** The beginning of an uplink TTI. */
    method EnterUlTti(tti: nat)
      requires Valid() && tti < TTI_PERIOD
      modifies this`currentTti, this`dcis, usedCce
      ensures Valid() && Map(usedCce[..], currentTti) == EnterUl(old(Map(usedCce[..], currentTti)), tti)
      ensures dcis == if TtiTx(old(currentTti)) == tti then old(dcis) else []
    {
      if TtiTx(currentTti) != tti {
        ClearCce();
      }
      currentTti := tti;
    }

    /** Places the DCI of a block and takes `n` groups for it. */
    method AttemptBlock(n: nat, t: Try, blocks: seq<Groups>) returns (sent: bool, blocks': seq<Groups>)
      requires Valid() && t.request.Legal() && n <= availRbg
      modifies this`availRbg, this`startRbg, this`dcis, usedCce
      ensures Valid() && StageNow(blocks') == Attempt(old(StageNow(blocks)), n, t)
      ensures sent == Sent(old(StageNow(blocks)), t)
    {
      var p := GenerateDci(t.request);
      sent := p.At? && t.fits;
      blocks' := blocks;
      if sent {
        blocks' := blocks + [Groups(startRbg, n)];
        availRbg := availRbg - n;
        startRbg := startRbg + n;
      }
    }

    method UpdateWindows(ts: seq<Try>)
      requires Valid() && |ts| == |messages|
      modifies this`pendingSibs
      ensures Valid() && pendingSibs == UpdateAll(messages, old(pendingSibs), ts, currentTti)
    {
      for i := 0 to |messages|
        invariant Valid()
        invariant forall k | 0 <= k < |messages| ::
                    pendingSibs[k] == if k < i then UpdateAll(messages, old(pendingSibs), ts, currentTti)[k]
                                      else old(pendingSibs)[k]
      {
        var w, m := pendingSibs[i], messages[i];
        if ts[i].wanted {
          if !w.isIn {
            var sf, x := 5, 0;
            if i > 0 {
              x := (i - 1) * m.w;
              sf := x % 10;
            }
            if (currentTti / 10) % m.period == x / 10 && currentTti % 10 == sf {
              w := Win(true, currentTti, 0);
            }
          } else if i > 0 {
            if Interval(currentTti, w.start) > m.w {
              w := Win(false, 0, w.nTx);
            }
          } else if w.nTx == 4 {
            w := w.(nTx := 0);
          }
          pendingSibs := pendingSibs[i := w];
        }
      }
    }

    /** One system information message. */
    method SendSib(i: nat, t: Try, before: seq<Groups>) returns (blocks: seq<Groups>)
      requires Valid() && i < |messages| && t.request.Legal()
      modifies this`pendingSibs, this`availRbg, this`startRbg, this`dcis, usedCce
      ensures Valid()
      ensures var (s, w) := Sib(old(StageNow(before)), messages[i], old(pendingSibs)[i], currentTti, siNRbg, t);
              StageNow(blocks) == s && pendingSibs == old(pendingSibs)[i := w]
    {
      blocks := before;
      if t.wanted && Due(messages[i], pendingSibs[i], currentTti) && availRbg > siNRbg {
        var sent;
        sent, blocks := AttemptBlock(siNRbg, t, blocks);
        if sent {
          pendingSibs := pendingSibs[i := pendingSibs[i].(nTx := pendingSibs[i].nTx + 1)];
        }
      }
      assert pendingSibs[i := pendingSibs[i]] == pendingSibs;
    }

    /** Broadcast: system information messages, then paging. */
    method DlSchedBc(ts: seq<Try>, paging: Try) returns (blocks: seq<Groups>)
      requires Valid() && |ts| == |messages| && Broadcast.AllLegal(ts) && paging.request.Legal()
      modifies this`pendingSibs, this`availRbg, this`startRbg, this`dcis, usedCce
      ensures Valid()
      ensures var ws := UpdateAll(messages, old(pendingSibs), ts, currentTti);
              var r := Sibs(old(StageNow([])), messages, ws, currentTti, siNRbg, ts, |ts|);
              pendingSibs == r.1 && StageNow(blocks) == Paging(r.0, siNRbg, paging)
    {
      blocks := [];
      ghost var s := StageNow([]);
      UpdateWindows(ts);
      ghost var ws := pendingSibs;
      for i := 0 to |messages|
        invariant Valid()
        invariant (StageNow(blocks), pendingSibs) == Sibs(s, messages, ws, currentTti, siNRbg, ts, i)
      {
        blocks := SendSib(i, ts[i], blocks);
      }
      if paging.wanted && availRbg > siNRbg {
        var sent;
        sent, blocks := AttemptBlock(siNRbg, paging, blocks);
      }
    }

    /** Random access responses. */
    method DlSchedRar(ts: seq<Try>, before: seq<Groups>) returns (blocks: seq<Groups>)
      requires Valid() && Broadcast.AllLegal(ts)
      modifies this`availRbg, this`startRbg, this`dcis, usedCce
      ensures Valid() && StageNow(blocks) == Rars(old(StageNow(before)), rarNRbg, ts, |ts|)
    {
      blocks := before;
      ghost var s := StageNow(before);
      for i := 0 to |ts|
        invariant Valid() && StageNow(blocks) == Rars(s, rarNRbg, ts, i)
      {
        if ts[i].wanted && availRbg >= rarNRbg {
          var sent;
          sent, blocks := AttemptBlock(rarNRbg, ts[i], blocks);
        }
      }
    }

    /** Placing a DCI touches no user. */
    method PlaceDci(request: Request, ghost users: seq<SchedUe>, ghost looks: seq<DlMetricRr.Look>) returns (p: Place)
      requires Valid() && request.Legal() && AllLook(users, looks)
      modifies this`dcis, usedCce
      ensures Valid() && dcis == old(dcis) + [p] && AllLook(users, looks)
      ensures p == Search(old(usedCce[..]), request, 0) && usedCce[..] == Pdcch.After(old(usedCce[..]), p)
    {
      p := GenerateDci(request);
      forall j | 0 <= j < |users| ensures users[j].Valid() && LookOf(users[j]) == looks[j] { assert Pick(j); }
    }

    /** A DCI first for what user `i` was given, then its turn. */
    method ScheduleTurn(users: seq<SchedUe>, i: nat, request: Request, nofCtrl: nat, ghost procs: set<HarqProc>,
                        ghost looks: seq<DlMetricRr.Look>, ghost before: seq<DlMetricRr.Look>, ghost turns: seq<Turn>,
                        ghost ms: seq<Share>)
      returns (out: Option<Data>, ghost turn: Turn, ghost afters: seq<DlMetricRr.Look>)
      requires Valid() && Apart(users, procs, true) && request.Legal() && i < |users| && |turns| == i
      requires AllLook(users, before) && Stepped(users, looks, before, ms, turns, currentTti, nofCtrl)
      modifies this`dcis, usedCce, users`lch, users`procs, procs`tti, procs`tb, procs`nCce
      ensures Valid() && AllLook(users, afters)
      ensures Stepped(users, looks, afters, ms, turns + [turn], currentTti, nofCtrl)
      ensures var p := Search(old(usedCce[..]), request, 0);
              && Outcome(users[i], ms[i], p, turn, out)
              && dcis == DcisAfter(old(dcis), ms[i], p)
              && usedCce[..] == (if ms[i].None? then old(usedCce[..]) else Pdcch.After(old(usedCce[..]), p))
    {
      GivenIff(users, looks, before, ms, turns, currentTti, nofCtrl, i);
      var p := Nowhere;
      if users[i].dlNextAlloc != null {
        p := PlaceDci(request, users, before);
      }
      out, turn, afters := ServeTurn(users, i, p, currentTti, nofCtrl, procs, looks, before, turns, ms);
    }

    /** The grant of user `i`, if it gets one. */
    method SendNext(users: seq<SchedUe>, i: nat, requests: seq<Request>, nofCtrl: nat, ghost procs: set<HarqProc>,
                    ghost looks: seq<DlMetricRr.Look>, ghost before: seq<DlMetricRr.Look>, ghost ms: seq<Share>,
                    ghost used: seq<bool>, sent: seq<Data>, ghost turns: seq<Turn>, ghost who: seq<nat>,
                    ghost slots: seq<nat>)
      returns (data: seq<Data>, ghost afters: seq<DlMetricRr.Look>, ghost turns': seq<Turn>, ghost who': seq<nat>,
               ghost slots': seq<nat>)
      requires Valid() && Apart(users, procs, true) && |requests| == |users| && Pdcch.AllLegal(requests)
      requires i < |users| && |turns| == i && AllLook(users, before)
      requires Stepped(users, looks, before, ms, turns, currentTti, nofCtrl)
      requires |used| == MAX_CCE && SentTo(users, ms, turns, sent, who, slots, dcis)
      requires AllSent(users, ms, requests, used, turns, who, usedCce[..])
      modifies this`dcis, usedCce, users`lch, users`procs, procs`tti, procs`tb, procs`nCce
      ensures Valid() && |turns'| == i + 1 && AllLook(users, afters)
      ensures Stepped(users, looks, afters, ms, turns', currentTti, nofCtrl)
      ensures SentTo(users, ms, turns', data, who', slots', dcis)
      ensures AllSent(users, ms, requests, used, turns', who', usedCce[..])
    {
      ghost var placed, placedOn, p := dcis, usedCce[..], Search(usedCce[..], requests[i], 0);
      var out; ghost var turn;
      out, turn, afters := ScheduleTurn(users, i, requests[i], nofCtrl, procs, looks, before, turns, ms);
      SentToStep(users, ms, turns, sent, who, slots, placed, p, turn, out);
      AllSentStep(users, ms, requests, used, turns, who, turn, out, placedOn);
      data := sent + (if out.None? then [] else [out.value]);
      turns', who', slots' := turns + [turn], who + Listed(out, i), slots + Listed(out, |placed|);
    }

    /** Grants for all users, in the order of their identities. `who` are the users whose grants go out, `slots` the
        numbers of their DCIs. */
    method SendAll(users: seq<SchedUe>, requests: seq<Request>, nofCtrl: nat, ghost procs: set<HarqProc>,
                   ghost looks: seq<DlMetricRr.Look>, ghost before: seq<DlMetricRr.Look>, ghost ms: seq<Share>,
                   ghost used: seq<bool>)
      returns (data: seq<Data>, ghost afters: seq<DlMetricRr.Look>, ghost turns: seq<Turn>, ghost who: seq<nat>,
               ghost slots: seq<nat>)
      requires Valid() && Apart(users, procs, true) && |requests| == |users| && Pdcch.AllLegal(requests)
      requires |used| == MAX_CCE && usedCce[..] == used
      requires AllLook(users, before) && Stepped(users, looks, before, ms, [], currentTti, nofCtrl)
      modifies this`dcis, usedCce, users`lch, users`procs, procs`tti, procs`tb, procs`nCce
      ensures Valid() && |turns| == |users| && AllLook(users, afters)
      ensures Stepped(users, looks, afters, ms, turns, currentTti, nofCtrl)
      ensures SentTo(users, ms, turns, data, who, slots, dcis)
      ensures AllSent(users, ms, requests, used, turns, who, usedCce[..])
    {
      data, turns, who, slots := [], [], [], [];
      afters := before;
      for i := 0 to |users|
        invariant Valid() && |turns| == i && AllLook(users, afters)
        invariant Stepped(users, looks, afters, ms, turns, currentTti, nofCtrl)
        invariant SentTo(users, ms, turns, data, who, slots, dcis)
        invariant AllSent(users, ms, requests, used, turns, who, usedCce[..])
      {
        data, afters, turns, who, slots :=
          SendNext(users, i, requests, nofCtrl, procs, looks, afters, ms, used, data, turns, who, slots);
      }
    }

    /** Groups for all users, which look like `looks` before. */
    method AllocateData(metric: DlMetric, users: seq<SchedUe>, nofCtrl: nat, ghost looks: seq<DlMetricRr.Look>,
                        ghost vs: seq<DlAllocation.View>, ghost procs: set<HarqProc>, ghost total: nat)
      returns (ghost afters: seq<DlMetricRr.Look>, ghost ms: seq<Share>, ghost first: nat)
      requires Valid() && metric.Sized() && metric.usedRbg != usedCce && startRbg + availRbg == total <= MAX_RBG
      requires Apart(users, procs, true) && AllLook(users, looks) && Seen(users, looks, vs, currentTti, nofCtrl)
      requires DlAllocation.ViewsOk(vs, total)
      modifies metric, metric.usedRbg, users`dlNextAlloc, users`masks, procs`rbgMask
      ensures Valid() && metric.Sized() && MasksBounded(users, total) && AllLook(users, afters)
      ensures Stepped(users, looks, afters, ms, [], currentTti, nofCtrl)
      ensures MasksApart(ms, startRbg, total)
      ensures GivenMasks(ms, vs, startRbg, availRbg, first) && (|users| > 0 ==> first == currentTti % |users|)
    {
      LookedAt(users, looks);
      afters, first := metric.NewTti(users, startRbg, availRbg, nofCtrl, currentTti, looks, vs, procs);
      if |users| == 0 {
        ms := [];
      } else {
        ms := WhenAllocated(metric, users, looks, afters, vs, first, startRbg, availRbg, currentTti, nofCtrl);
      }
    }

    /** Groups for all users, then their grants. */
    method DlGrants(metric: DlMetric, users: seq<SchedUe>, requests: seq<Request>, nofCtrl: nat,
                    ghost looks: seq<DlMetricRr.Look>, ghost vs: seq<DlAllocation.View>, ghost procs: set<HarqProc>,
                    ghost total: nat, ghost used: seq<bool>)
      returns (data: seq<Data>, ghost ms: seq<Share>, ghost first: nat,
               ghost afters: seq<DlMetricRr.Look>, ghost turns: seq<Turn>, ghost who: seq<nat>, ghost slots: seq<nat>)
      requires Valid() && metric.Sized() && metric.usedRbg != usedCce && startRbg + availRbg == total <= MAX_RBG
      requires |used| == MAX_CCE && usedCce[..] == used
      requires Apart(users, procs, true) && |requests| == |users| && Pdcch.AllLegal(requests)
      requires AllLook(users, looks) && Seen(users, looks, vs, currentTti, nofCtrl)
      requires DlAllocation.ViewsOk(vs, total)
      modifies this`dcis, usedCce, metric, metric.usedRbg
      modifies users`dlNextAlloc, users`masks, users`lch, users`procs
      modifies procs`rbgMask, procs`tti, procs`tb, procs`nCce
      ensures Valid() && metric.Sized() && MasksBounded(users, total)
      ensures |turns| == |users| && AllLook(users, afters)
      ensures Stepped(users, looks, afters, ms, turns, currentTti, nofCtrl)
      ensures |ms| == |users| && SentTo(users, ms, turns, data, who, slots, dcis)
      ensures AllSent(users, ms, requests, used, turns, who, usedCce[..])
      ensures MasksApart(ms, startRbg, total)
      ensures GivenMasks(ms, vs, startRbg, availRbg, first) && (|users| > 0 ==> first == currentTti % |users|)
    {
      ghost var given;
      given, ms, first := AllocateData(metric, users, nofCtrl, looks, vs, procs, total);
      ghost var start, free := startRbg, availRbg;
      assert usedCce[..] == used;
      data, afters, turns, who, slots := SendAll(users, requests, nofCtrl, procs, looks, given, ms, used);
      assert startRbg == start && availRbg == free;
    }

    /** User data on top of the blocks. */
    method DlSchedData(blocks: seq<Groups>, metric: DlMetric, users: seq<SchedUe>, requests: seq<Request>,
                       nofCtrl: nat, ghost looks: seq<DlMetricRr.Look>, ghost vs: seq<DlAllocation.View>,
                       ghost procs: set<HarqProc>)
      returns (data: seq<Data>, ghost ms: seq<Share>, ghost first: nat,
               ghost afters: seq<DlMetricRr.Look>, ghost turns: seq<Turn>, ghost who: seq<nat>, ghost slots: seq<nat>)
      requires Valid() && Gapless(StageNow(blocks), Rbg.NofGroups(nofPrb)) && Rbg.NofGroups(nofPrb) <= MAX_RBG
      requires metric.Sized() && metric.usedRbg != usedCce
      requires Apart(users, procs, true) && |requests| == |users| && Pdcch.AllLegal(requests)
      requires AllLook(users, looks) && Seen(users, looks, vs, currentTti, nofCtrl)
      requires DlAllocation.ViewsOk(vs, Rbg.NofGroups(nofPrb))
      modifies this`dcis, usedCce, metric, metric.usedRbg
      modifies users`dlNextAlloc, users`masks, users`lch, users`procs
      modifies procs`rbgMask, procs`tti, procs`tb, procs`nCce
      ensures Valid() && metric.Sized() && MasksBounded(users, Rbg.NofGroups(nofPrb))
      ensures |turns| == |users| && AllLook(users, afters)
      ensures Stepped(users, looks, afters, ms, turns, currentTti, nofCtrl)
      ensures |ms| == |users| && SentTo(users, ms, turns, data, who, slots, dcis)
      ensures AllSent(users, ms, requests, old(usedCce[..]), turns, who, usedCce[..])
      ensures GivenMasks(ms, vs, startRbg, availRbg, first) && (|users| > 0 ==> first == currentTti % |users|)
      ensures PrbsUsedOnce(blocks, data, nofPrb)
    {
      ghost var s, total := StageNow(blocks), Rbg.NofGroups(nofPrb);
      data, ms, first, afters, turns, who, slots :=
        DlGrants(metric, users, requests, nofCtrl, looks, vs, procs, total, usedCce[..]);
      OwnersUseOnce(s, total, data, nofPrb, users, ms, turns, who, slots, dcis);
    }

    /** Everything before user data: the blocks fill the carrier from below without gaps or overlaps. */
    method DlBlocks(sibs: seq<Try>, paging: Try, rars: seq<Try>) returns (blocks: seq<Groups>)
      requires Valid() && startRbg == 0 && availRbg == Rbg.NofGroups(nofPrb) > 0
      requires |sibs| == |messages| && Broadcast.AllLegal(sibs) && paging.request.Legal() && Broadcast.AllLegal(rars)
      modifies this`pendingSibs, this`availRbg, this`startRbg, this`dcis, usedCce
      ensures Valid() && Gapless(StageNow(blocks), Rbg.NofGroups(nofPrb))
      ensures (StageNow(blocks), pendingSibs)
           == AllBlocks(old(StageNow([])), messages, UpdateAll(messages, old(pendingSibs), sibs, currentTti),
                        currentTti, siNRbg, rarNRbg, sibs, paging, rars)
    {
      ghost var ws := UpdateAll(messages, pendingSibs, sibs, currentTti);
      AllBlocksGapless(StageNow([]), messages, ws, currentTti, siNRbg, rarNRbg, sibs, paging, rars,
                       Rbg.NofGroups(nofPrb));
      blocks := DlSchedBc(sibs, paging);
      blocks := DlSchedRar(rars, blocks);
    }

    /** The beginning of the TTI and everything before user data. */
    method DlCommon(tti: nat, sibs: seq<Try>, paging: Try, rars: seq<Try>) returns (blocks: seq<Groups>)
      requires Valid() && tti < TTI_PERIOD && Rbg.NofGroups(nofPrb) > 0
      requires |sibs| == |messages| && Broadcast.AllLegal(sibs) && paging.request.Legal() && Broadcast.AllLegal(rars)
      modifies this, usedCce
      ensures Valid() && currentTti == tti && Gapless(StageNow(blocks), Rbg.NofGroups(nofPrb))
      ensures var used := EnterDl(old(Map(usedCce[..], currentTti)), tti).used;
              var ws := UpdateAll(messages, old(pendingSibs), sibs, tti);
              (StageNow(blocks), pendingSibs)
              == AllBlocks(Stage(used, 0, Rbg.NofGroups(nofPrb), []), messages, ws, tti, siNRbg, rarNRbg, sibs, paging,
                           rars)
    {
      EnterDlTti(tti);
      blocks := DlBlocks(sibs, paging, rars);
    }

    /** The downlink scheduler. Whatever is asked for and whatever finds room on the control channel: no PRB is used
        twice, no two DCIs share a CCE, and every process of every user takes one step of its run. */
    method DlSched(tti: nat, sibs: seq<Try>, paging: Try, rars: seq<Try>, metric: DlMetric, users: seq<SchedUe>,
                   requests: seq<Request>, nofCtrl: nat, ghost looks: seq<DlMetricRr.Look>,
                   ghost vs: seq<DlAllocation.View>, ghost procs: set<HarqProc>)
      returns (blocks: seq<Groups>, data: seq<Data>, ghost ms: seq<Share>, ghost first: nat,
               ghost afters: seq<DlMetricRr.Look>, ghost turns: seq<Turn>, ghost who: seq<nat>, ghost slots: seq<nat>)
      requires Valid() && tti < TTI_PERIOD && 0 < nofPrb <= 100
      requires |sibs| == |messages| && Broadcast.AllLegal(sibs) && paging.request.Legal() && Broadcast.AllLegal(rars)
      requires metric.Sized() && metric.usedRbg != usedCce
      requires Apart(users, procs, true) && |requests| == |users| && Pdcch.AllLegal(requests)
      requires AllLook(users, looks) && Seen(users, looks, vs, tti, nofCtrl)
      requires DlAllocation.ViewsOk(vs, Rbg.NofGroups(nofPrb))
      modifies this, usedCce, metric, metric.usedRbg
      modifies users`dlNextAlloc, users`masks, users`lch, users`procs
      modifies procs`rbgMask, procs`tti, procs`tb, procs`nCce
      ensures Valid() && metric.Sized() && MasksBounded(users, Rbg.NofGroups(nofPrb))
      ensures currentTti == tti && PrbsUsedOnce(blocks, data, nofPrb)
      ensures |turns| == |users| && AllLook(users, afters)
      ensures Stepped(users, looks, afters, ms, turns, tti, nofCtrl)
      ensures |ms| == |users| && SentTo(users, ms, turns, data, who, slots, dcis)
      ensures var used := EnterDl(old(Map(usedCce[..], currentTti)), tti).used;
              var ws := UpdateAll(messages, old(pendingSibs), sibs, tti);
              var r := AllBlocks(Stage(used, 0, Rbg.NofGroups(nofPrb), []), messages, ws, tti, siNRbg, rarNRbg, sibs,
                                 paging, rars);
              && blocks == r.0.blocks && pendingSibs == r.1
              && GivenMasks(ms, vs, r.0.start, r.0.avail, first) && (|users| > 0 ==> first == tti % |users|)
              && AllSent(users, ms, requests, r.0.used, turns, who, usedCce[..])
    {
      GroupsFit(nofPrb);
      blocks := DlCommon(tti, sibs, paging, rars);
      forall i | 0 <= i < |users| ensures users[i].Valid() && LookOf(users[i]) == looks[i] { assert Pick(i); }
      data, ms, first, afters, turns, who, slots :=
        DlSchedData(blocks, metric, users, requests, nofCtrl, looks, vs, procs);
    }
  }

  ghost function LooksOf(users: seq<SchedUe>, n: nat): (looks: seq<DlMetricRr.Look>)
    requires n <= |users|
    reads users
    ensures |looks| == n && forall i | 0 <= i < n :: looks[i] == LookOf(users[i])
  {
    if n == 0 then [] else LooksOf(users, n - 1) + [LookOf(users[n - 1])]
  }

  ghost predicate AllValidUsers(users: seq<SchedUe>)
    reads *
  {
    forall i {:trigger Pick(i)} | 0 <= i < |users| :: users[i].Valid()
  }

  /** What a TTI leaves is what the next one starts from: all users look like something, with masks that fit. */
  lemma NextTtiCanStart(users: seq<SchedUe>, next: nat, nofCtrl: nat, total: nat)
    returns (looks: seq<DlMetricRr.Look>, vs: seq<DlAllocation.View>)
    requires next < TTI_PERIOD && AllValidUsers(users) && MasksBounded(users, total)
    ensures AllLook(users, looks) && Seen(users, looks, vs, next, nofCtrl) && DlAllocation.ViewsOk(vs, total)
  {
    looks := LooksOf(users, |users|);
    vs := [];
    for i := 0 to |users|
      invariant |vs| == i && forall j | 0 <= j < i :: SeenAs(users[j], looks[j], vs[j], next, nofCtrl, total)
    {
      assert Pick(i);
      vs := vs + [looks[i].View(users[i].nofPrb, next, nofCtrl)];
    }
    forall i | 0 <= i < |users| ensures users[i].Valid() && SeenAs(users[i], looks[i], vs[i], next, nofCtrl, total) {
      assert Pick(i);
    }
  }
}
