/** The uplink part of the scheduler: acknowledgments, reservations for random access and the control channel, and
    grants for user data. */
module UlScheduler {
  import opened Tti
  import opened Harq
  import opened HarqObjects
  import opened DlProcs
  import opened SchedUser
  import opened UlAllocation
  import opened UlMetricRr
  import opened Pdcch
  import opened Scheduler
  import UlRuns

  /** A random access grant that was promised for this TTI. */
  datatype Msg3 = Msg3(rnti: nat, alloc: Alloc, mcs: nat)

  /** An uplink grant; `place` is Nowhere if it needs no DCI. */
  datatype Pusch = Pusch(rnti: nat, alloc: Alloc, place: Place, tbs: int)

  datatype Phich = Phich(rnti: nat, ack: bool)

  /** `nrbPucch` is negative if control channel RBs are reserved user by user. */
  datatype Cell = Cell(nofPrb: nat, prachOffset: nat, nrbPucch: int, maxMsg3Tx: nat)
  {
    predicate Valid() {
      0 < nofPrb <= MAX_PRB && nrbPucch <= nofPrb && prachOffset + 6 <= MAX_PRB
    }

    /** The random access area lies inside the carrier, or the carrier has 10 RBs at most. */
    predicate PrachFits() {
      prachOffset + 6 <= nofPrb || nofPrb <= 10
    }
  }

  // ---- Reservations

  function Singles(rbs: seq<nat>): (rs: seq<Alloc>) {
    seq(|rbs|, i requires 0 <= i < |rbs| => Alloc(rbs[i], 1))
  }

  function Reservations(c: Cell, prach: bool, msg3: Option<Msg3>, userPucch: seq<nat>): (rs: seq<Alloc>)
    requires c.Valid()
  {
    (if prach then [Alloc(c.prachOffset, 6)] else [])
    + (if msg3.Some? then [msg3.value.alloc] else [])
    + (if c.nrbPucch >= 0 then [Alloc(0, c.nrbPucch), Alloc(c.nofPrb - c.nrbPucch, c.nrbPucch)]
       else Singles(userPucch))
  }

  predicate AllInArray(rs: seq<Alloc>) {
    forall i | 0 <= i < |rs| :: rs[i].start + rs[i].len <= MAX_PRB
  }

  function MarkAll(used: seq<bool>, rs: seq<Alloc>): (r: seq<bool>)
    ensures |r| == |used|
  {
    if |rs| == 0 then used else UlAllocation.Mark(MarkAll(used, rs[..|rs| - 1]), rs[|rs| - 1])
  }

  /** Every reserved RB is marked, whether it was reserved before or not. */
  lemma {:induction false} MarkAllIs(used: seq<bool>, rs: seq<Alloc>, n: nat)
    requires n < |used|
    ensures MarkAll(used, rs)[n] <==> used[n] || exists i :: 0 <= i < |rs| && Within(rs[i], n)
  {
    if |rs| > 0 {
      var k := |rs| - 1;
      MarkAllIs(used, rs[..k], n);
      if i :| 0 <= i < k && Within(rs[..k][i], n) {
        assert Within(rs[i], n);
      }
      if i :| 0 <= i < |rs| && Within(rs[i], n) && i < k {
        assert Within(rs[..k][i], n);
      }
      assert Within(rs[k], n) ==> MarkAll(used, rs)[n];
    }
  }

  /** RB `n` is reserved: for random access, for a promised grant, at the edges for the control channel, or for the
      control channel of a user. */
  predicate IsReserved(c: Cell, prach: bool, msg3: Option<Msg3>, userPucch: seq<nat>, n: nat) {
    || (prach && c.prachOffset <= n < c.prachOffset + 6)
    || (msg3.Some? && Within(msg3.value.alloc, n))
    || (if c.nrbPucch >= 0 then n < c.nrbPucch || c.nofPrb - c.nrbPucch <= n < c.nofPrb else n in userPucch)
  }

  lemma ReservedIff(c: Cell, prach: bool, msg3: Option<Msg3>, userPucch: seq<nat>, n: nat)
    requires c.Valid()
    ensures (exists r | 0 <= r < |Reservations(c, prach, msg3, userPucch)| ::
               Within(Reservations(c, prach, msg3, userPucch)[r], n))
            <==> IsReserved(c, prach, msg3, userPucch, n)
  {
    var rs := Reservations(c, prach, msg3, userPucch);
    var k := (if prach then 1 else 0) + if msg3.Some? then 1 else 0;
    if IsReserved(c, prach, msg3, userPucch, n) {
      if prach && Within(rs[0], n) {
      } else if msg3.Some? && Within(msg3.value.alloc, n) {
        assert rs[k - 1] == msg3.value.alloc;
      } else if c.nrbPucch >= 0 {
        assert Within(rs[k], n) || Within(rs[k + 1], n);
      } else {
        var i :| 0 <= i < |userPucch| && userPucch[i] == n;
        assert Within(rs[k + i], n);
      }
    }
    if r :| 0 <= r < |rs| && Within(rs[r], n) && r >= k && c.nrbPucch < 0 {
      assert rs[r] == Alloc(userPucch[r - k], 1);
    }
  }

  method Reserve(m: UlMetric, rs: seq<Alloc>)
    requires m.Valid() && AllInArray(rs)
    modifies m.usedRb
    ensures m.Used() == MarkAll(old(m.Used()), rs)
  {
    ghost var used := m.Used();
    for i := 0 to |rs|
      invariant m.Used() == MarkAll(used, rs[..i])
    {
      assert rs[..i + 1][..i] == rs[..i];
      var ok := m.UpdateAllocation(rs[i]);
    }
    assert rs[..|rs|] == rs;
  }

  // ---- One user

  predicate IsRar(rnti: nat, msg3: Option<Msg3>) {
    msg3.Some? && msg3.value.rnti == rnti
  }

  /** What opportunity `e` is to user `rnti`, which was given `g`: a random access grant comes first and brings its own
      RBs and limit. */
  predicate EnvOf(rnti: nat, maxRetx: nat, g: Option<Alloc>, msg3: Option<Msg3>, c: Cell, now: nat, e: UlRuns.Env) {
    && e.tti == now && e.data && e.msg3 == IsRar(rnti, msg3)
    && e.rbs == (if IsRar(rnti, msg3) then Some(msg3.value.alloc) else g)
    && e.limit == if IsRar(rnti, msg3) then c.maxMsg3Tx else maxRetx
  }

  /** MCS and size of what the opportunity `e` transmits, if the process was in state `s`: a random access grant brings
      its MCS, a new block is made for what is waiting, another one keeps its MCS. */
  predicate Sized(ch: Channel, s: UlRuns.Ul, msg3: Option<Msg3>, e: UlRuns.Env) {
    UlRuns.Opportunity(s, e).1 != UlRuns.Silent ==>
      && e.rbs.Some?
      && if e.msg3 then msg3.Some? && e.mcs == msg3.value.mcs && e.tbs == ch.ulTbs(e.mcs, e.rbs.value.len)
         else if s.p.tb0.IsEmpty() then (e.mcs, e.tbs) == ch.ulBlock(e.rbs.value.len, ch.ulPending)
         else e.mcs == s.p.tb0.lastMcs && e.tbs == ch.ulTbs(e.mcs, e.rbs.value.len)
  }

  function GivenTo(u: SchedUe, h: HarqProc): Option<Alloc>
    reads u, h
  {
    if u.ulNextAlloc == null then None else Some(h.allocation)
  }

  /** A random access grant brings its own RBs and MCS. A new block gets its limit. */
  method Prepare(h: HarqProc, rar: Option<Msg3>, limit: nat)
    requires h.Valid() && !h.hasRarMcs && !h.isAdaptive
    modifies h`allocation, h`isAdaptive, h`rarMcs, h`hasRarMcs, h`maxRetx
    ensures h.Valid() && !h.isAdaptive && h.hasRarMcs == rar.Some? && (rar.Some? ==> h.rarMcs == rar.value.mcs)
    ensures h.allocation == (if rar.Some? then rar.value.alloc else old(h.allocation))
    ensures h.State() == if old(h.State()).tb0.IsEmpty() then old(h.State()).(maxRetx := limit) else old(h.State())
  {
    if rar.Some? {
      h.SetAlloc(rar.value.alloc);
      h.SetRarMcs(rar.value.mcs);
    }
    if h.tb[0].IsEmpty() {
      h.SetMaxRetx(limit);
    }
  }

  /** A DCI first, unless a random access grant stands for it, then the grant. A process without a DCI is given up. */
  method Transmit(sched: Sched, user: SchedUe, h: HarqProc, request: Request, now: nat)
    returns (sent: bool, place: Place, ghost mcs: int, tbs: int)
    requires sched.Valid() && h.Valid() && request.Legal() && now < TTI_PERIOD
    modifies sched`dcis, sched.usedCce, h`tti, h`tb, h`needAck, h`pendingData, h`hasRarMcs
    ensures sched.Valid() && h.Valid() && !h.hasRarMcs
    ensures sent == (old(h.hasRarMcs) || place.At?)
    ensures h.UlState() ==
            if !sent then UlRuns.Ul(old(h.State()).Reset(0), old(h.needAck), h.allocation)
            else if old(h.hasRarMcs) || old(h.State()).tb0.IsEmpty()
            then UlRuns.Ul(old(h.State()).NewTx(0, now, mcs, tbs), true, h.allocation)
            else UlRuns.Ul(old(h.State()).NewRetx(0, now), old(h.needAck), h.allocation)
    ensures if old(h.hasRarMcs)
            then place == Nowhere && sched.dcis == old(sched.dcis) && sched.usedCce[..] == old(sched.usedCce[..])
            else
              && place == Search(old(sched.usedCce[..]), request, 0) && sched.dcis == old(sched.dcis) + [place]
              && sched.usedCce[..] == Pdcch.After(old(sched.usedCce[..]), place)
    ensures sent ==>
              if old(h.hasRarMcs) then mcs == h.rarMcs && tbs == user.channel.ulTbs(mcs, h.allocation.len)
              else if old(h.State()).tb0.IsEmpty()
              then (mcs, tbs) == user.channel.ulBlock(h.allocation.len, user.channel.ulPending)
              else mcs == old(h.State()).tb0.lastMcs && tbs == user.channel.ulTbs(mcs, h.allocation.len)
  {
    place, mcs, tbs := Nowhere, 0, 0;
    sent := true;
    if !h.hasRarMcs {
      place := sched.GenerateDci(request);
      sent := place.At?;
    }
    if sent {
      var m;
      m, tbs := user.GenerateFormat0(h, now);
      mcs := m;
    } else {
      h.Reset(0);
    }
  }

  /** The grant of a user for its process of this TTI, or nothing. A process without a DCI is given up. */
  method ScheduleUser(sched: Sched, user: SchedUe, c: Cell, msg3: Option<Msg3>, request: Request, now: nat)
    returns (out: Option<Pusch>, ghost e: UlRuns.Env)
    requires sched.Valid() && user.Valid() && request.Legal() && now < TTI_PERIOD
    requires user.ulNextAlloc != null ==> user.ulNextAlloc == user.GetUlHarq(now)
    requires IsRar(user.rnti, msg3) ==> msg3.value.alloc.start + msg3.value.alloc.len <= MAX_PRB
    modifies sched`dcis, sched.usedCce
    modifies user.GetUlHarq(now)
    ensures sched.Valid() && user.Valid()
    ensures EnvOf(user.rnti, user.maxRetx, old(GivenTo(user, user.GetUlHarq(now))), msg3, c, now, e)
    ensures var h := user.GetUlHarq(now);
            var (u, tx) := UlRuns.Opportunity(old(h.UlState()), e);
            && h.UlState() == u
            && (out.Some? <==> tx != UlRuns.Silent && e.tbs > 0)
            && Sized(user.channel, old(h.UlState()), msg3, e)
    ensures out.Some? ==>
              && out.value.rnti == user.rnti && out.value.tbs == e.tbs
              && Some(out.value.alloc) == e.rbs
    ensures var p := Search(old(sched.usedCce[..]), request, 0);
            if user.ulNextAlloc == null || IsRar(user.rnti, msg3)
            then sched.dcis == old(sched.dcis) && sched.usedCce[..] == old(sched.usedCce[..])
                 && (out.Some? ==> out.value.place == Nowhere)
            else
              && sched.dcis == old(sched.dcis) + [p] && sched.usedCce[..] == Pdcch.After(old(sched.usedCce[..]), p)
              && e.dci == p.At? && (out.Some? ==> out.value.place == p)
  {
    var h := user.GetUlHarq(now);
    user.UlHarqAt(h);
    var rar := IsRar(user.rnti, msg3);
    out := None;
    var limit := if rar then c.maxMsg3Tx else user.maxRetx;
    ghost var g := if rar then Some(msg3.value.alloc) else GivenTo(user, h);
    e := UlRuns.Env(now, g, true, rar, false, limit, 0, 0, false);
    if !rar && user.ulNextAlloc == null {
      return;
    }
    Prepare(h, if rar then msg3 else None, limit);
    var sent, place; ghost var mcs; var tbs;
    sent, place, mcs, tbs := Transmit(sched, user, h, request, now);
    e := e.(dci := sent, mcs := mcs, tbs := tbs);
    if sent && tbs > 0 {
      out := Some(Pusch(user.rnti, h.allocation, place, tbs));
    }
  }

  // ---- All users

  /** The process of a user that was given `g`. */
  function Holding(s: UlRuns.Ul, g: Option<Alloc>): UlRuns.Ul {
    if g.Some? then s.(alloc := g.value) else s
  }

  /** The user's process of this TTI was in state `s`, and the user was given `g`. */
  ghost predicate UserAt(u: SchedUe, now: nat, s: UlRuns.Ul, g: Option<Alloc>)
    reads u, u.dlHarq, u.ulHarq
  {
    && u.Valid()
    && var h := u.GetUlHarq(now);
       h.UlState() == Holding(s, g) && u.ulNextAlloc == if g.Some? then h else null
  }

  /** The process was in state `s` and took the opportunity `e`. */
  ghost predicate UserDone(u: SchedUe, now: nat, s: UlRuns.Ul, g: Option<Alloc>, msg3: Option<Msg3>, c: Cell,
                           e: UlRuns.Env)
    reads u, u.dlHarq, u.ulHarq
  {
    && u.Valid() && u.GetUlHarq(now).UlState() == UlRuns.Opportunity(s, e).0
    && EnvOf(u.rnti, u.maxRetx, g, msg3, c, now, e) && Sized(u.channel, s, msg3, e)
  }

  /** The users for which there is an opportunity took it, the others stand where the allocator left them. */
  ghost predicate Phase(users: seq<SchedUe>, now: nat, ss: seq<UlRuns.Ul>, gs: seq<Option<Alloc>>,
                        msg3: Option<Msg3>, c: Cell, es: seq<UlRuns.Env>)
    reads *
  {
    && |users| == |ss| == |gs|
    && forall i {:trigger Pick(i)} | 0 <= i < |users| ::
         if i < |es| then UserDone(users[i], now, ss[i], gs[i], msg3, c, es[i])
         else UserAt(users[i], now, ss[i], gs[i])
  }

  /** What a user needs a DCI for: the RBs it was given, unless it answers a random access. */
  function Asks(u: SchedUe, g: Option<Alloc>, msg3: Option<Msg3>): Option<Alloc> {
    if IsRar(u.rnti, msg3) then None else g
  }

  function AllAsks(users: seq<SchedUe>, gs: seq<Option<Alloc>>, msg3: Option<Msg3>): (ms: seq<Option<Alloc>>)
    requires |users| == |gs|
    ensures |ms| == |gs|
  {
    seq(|gs|, i requires 0 <= i < |gs| => Asks(users[i], gs[i], msg3))
  }

  /** What the grant of user `u` carries in the opportunity `e` if the allocator gave it `g`. A random access grant
      needs no DCI, any other has the DCI number `slot`. */
  predicate GrantOf(u: SchedUe, g: Option<Alloc>, msg3: Option<Msg3>, e: UlRuns.Env, d: Pusch, slot: nat,
                    dcis: seq<Place>) {
    && d.rnti == u.rnti && d.tbs == e.tbs
    && if IsRar(u.rnti, msg3) then d.alloc == msg3.value.alloc && d.place == Nowhere
       else g == Some(d.alloc) && slot < |dcis| && d.place == dcis[slot] && d.place.At?
  }

  /** What the opportunity of a user sends, if its DCI goes to `p`: a grant exactly if it transmits a block. */
  predicate Outcome(u: SchedUe, s: UlRuns.Ul, g: Option<Alloc>, msg3: Option<Msg3>, p: Place, e: UlRuns.Env,
                    out: Option<Pusch>) {
    && (Asks(u, g, msg3).Some? ==> e.dci == p.At?)
    && (out.Some? <==> UlRuns.Opportunity(s, e).1 != UlRuns.Silent && e.tbs > 0)
    && (out.Some? ==>
          && out.value.rnti == u.rnti && out.value.tbs == e.tbs
          && if IsRar(u.rnti, msg3) then out.value.alloc == msg3.value.alloc && out.value.place == Nowhere
             else g == Some(out.value.alloc) && out.value.place == p && p.At?)
  }

  method ScheduleTurn(sched: Sched, users: seq<SchedUe>, i: nat, c: Cell, msg3: Option<Msg3>, request: Request,
                      now: nat, ghost ss: seq<UlRuns.Ul>, ghost gs: seq<Option<Alloc>>, ghost es: seq<UlRuns.Env>,
                      ghost procs: set<HarqProc>)
    returns (out: Option<Pusch>, ghost e: UlRuns.Env)
    requires sched.Valid() && ApartIn(users, procs, now) && request.Legal() && now < TTI_PERIOD
    requires i < |users| && |es| == i
    requires Phase(users, now, ss, gs, msg3, c, es)
    requires msg3.Some? ==> msg3.value.alloc.start + msg3.value.alloc.len <= MAX_PRB
    modifies sched`dcis, sched.usedCce, procs
    ensures sched.Valid() && Phase(users, now, ss, gs, msg3, c, es + [e])
    ensures var p, ask := Search(old(sched.usedCce[..]), request, 0), Asks(users[i], gs[i], msg3);
            && Outcome(users[i], ss[i], gs[i], msg3, p, e, out)
            && sched.dcis == DcisAfter(old(sched.dcis), ask, p)
            && sched.usedCce[..] == (if ask.None? then old(sched.usedCce[..])
                                     else Pdcch.After(old(sched.usedCce[..]), p))
  {
    assert Pick(i);
    ghost var h := users[i].GetUlHarq(now);
    assert h in procs;
    forall j | 0 <= j < |users| && j != i
      ensures users[j].Valid() && users[j].rnti != users[i].rnti
      ensures if j < |es| then UserDone(users[j], now, ss[j], gs[j], msg3, c, es[j])
              else UserAt(users[j], now, ss[j], gs[j])
    {
      assert Pick(j);
    }
    out, e := ScheduleUser(sched, users[i], c, msg3, request, now);
    forall j | 0 <= j < |users|
      ensures if j < |es| + 1 then UserDone(users[j], now, ss[j], gs[j], msg3, c, (es + [e])[j])
              else UserAt(users[j], now, ss[j], gs[j])
    {
      assert Pick(j);
    }
  }

  /** The grants are those of the users `who`, in order, with the DCIs `slots`, in order, none of which is among the
      first `base`; all users are among those that have had their opportunity. */
  predicate SentTo(users: seq<SchedUe>, gs: seq<Option<Alloc>>, msg3: Option<Msg3>, es: seq<UlRuns.Env>,
                   grants: seq<Pusch>, who: seq<nat>, slots: seq<nat>, dcis: seq<Place>, base: nat)
    requires |es| <= |users| == |gs|
  {
    && |grants| == |who| == |slots|
    && (forall k | 0 <= k < |who| ::
          && who[k] < |es| && base <= slots[k] <= |dcis|
          && GrantOf(users[who[k]], gs[who[k]], msg3, es[who[k]], grants[k], slots[k], dcis))
    && forall k, m | 0 <= k < m < |who| ::
         who[k] < who[m] && slots[k] <= slots[m] && (grants[k].place.At? ==> slots[k] < slots[m])
  }

  /** A user has a DCI exactly if it asks for one that found room at `p`, and is sent a grant exactly if it transmits a
      block of some size. */
  predicate SentRight(ask: Option<Alloc>, s: UlRuns.Ul, e: UlRuns.Env, p: Place, sent: bool) {
    && (ask.Some? ==> e.dci == p.At?)
    && (sent <==> UlRuns.Opportunity(s, e).1 != UlRuns.Silent && e.tbs > 0)
  }

  /** The opportunities took the CCE map from `used` to `now`, each user had a DCI exactly if one of its candidates was
      left over by those before, and exactly those that transmit a block of some size are sent a grant. */
  predicate AllSent(asks: seq<Option<Alloc>>, requests: seq<Request>, used: seq<bool>, who: seq<nat>,
                    ss: seq<UlRuns.Ul>, es: seq<UlRuns.Env>, now: seq<bool>)
    requires |used| == MAX_CCE && |es| <= |asks| == |requests| == |ss| && Pdcch.AllLegal(requests)
  {
    && now == CceAfter(used, requests, asks, |es|)
    && forall i | 0 <= i < |es| ::
         SentRight(asks[i], ss[i], es[i], Search(CceAfter(used, requests, asks, i), requests[i], 0), i in who)
  }

  lemma SentToStep(users: seq<SchedUe>, ss: seq<UlRuns.Ul>, gs: seq<Option<Alloc>>, msg3: Option<Msg3>,
                   es: seq<UlRuns.Env>, grants: seq<Pusch>, who: seq<nat>, slots: seq<nat>, dcis: seq<Place>,
                   base: nat, p: Place, e: UlRuns.Env, out: Option<Pusch>)
    requires |es| < |users| == |gs| == |ss| && base <= |dcis|
    requires SentTo(users, gs, msg3, es, grants, who, slots, dcis, base)
    requires Outcome(users[|es|], ss[|es|], gs[|es|], msg3, p, e, out)
    ensures SentTo(users, gs, msg3, es + [e], grants + (if out.None? then [] else [out.value]),
                   who + Listed(out, |es|), slots + Listed(out, |dcis|),
                   DcisAfter(dcis, Asks(users[|es|], gs[|es|], msg3), p), base)
  {
    var i, es' := |es|, es + [e];
    var who', slots' := who + Listed(out, i), slots + Listed(out, |dcis|);
    var dcis' := DcisAfter(dcis, Asks(users[i], gs[i], msg3), p);
    var grants' := grants + (if out.None? then [] else [out.value]);
    forall k | 0 <= k < |who'|
      ensures who'[k] < |es'| && base <= slots'[k] <= |dcis'|
      ensures GrantOf(users[who'[k]], gs[who'[k]], msg3, es'[who'[k]], grants'[k], slots'[k], dcis')
    {
      if k < |who| { assert GrantOf(users[who[k]], gs[who[k]], msg3, es[who[k]], grants[k], slots[k], dcis); }
    }
    forall k, m | 0 <= k < m < |who'|
      ensures who'[k] < who'[m] && slots'[k] <= slots'[m] && (grants'[k].place.At? ==> slots'[k] < slots'[m])
    {
      assert GrantOf(users[who[k]], gs[who[k]], msg3, es[who[k]], grants[k], slots[k], dcis);
    }
  }

  lemma AllSentStep(asks: seq<Option<Alloc>>, requests: seq<Request>, used: seq<bool>, who: seq<nat>,
                    ss: seq<UlRuns.Ul>, es: seq<UlRuns.Env>, now: seq<bool>, e: UlRuns.Env, out: Option<Pusch>)
    requires |used| == MAX_CCE && |es| < |asks| == |requests| == |ss| && Pdcch.AllLegal(requests)
    requires AllSent(asks, requests, used, who, ss, es, now) && forall k | 0 <= k < |who| :: who[k] < |es|
    requires SentRight(asks[|es|], ss[|es|], e, Search(now, requests[|es|], 0), out.Some?)
    ensures AllSent(asks, requests, used, who + Listed(out, |es|), ss, es + [e],
                    if asks[|es|].None? then now else Pdcch.After(now, Search(now, requests[|es|], 0)))
  {
    var n := |es|;
    var who', es' := who + Listed(out, n), es + [e];
    forall i | 0 <= i < n + 1
      ensures SentRight(asks[i], ss[i], es'[i], Search(CceAfter(used, requests, asks, i), requests[i], 0), i in who')
    {
      InListed(who, out, n, i);
      if i < n {
        assert SentRight(asks[i], ss[i], es[i], Search(CceAfter(used, requests, asks, i), requests[i], 0), i in who);
      }
    }
  }

  /** The grant of user `i`, if it gets one. */
  method SendNext(sched: Sched, users: seq<SchedUe>, i: nat, c: Cell, msg3: Option<Msg3>, requests: seq<Request>,
                  now: nat, ghost ss: seq<UlRuns.Ul>, ghost gs: seq<Option<Alloc>>, ghost procs: set<HarqProc>,
                  ghost used: seq<bool>, ghost base: nat, sent: seq<Pusch>, ghost es: seq<UlRuns.Env>,
                  ghost who: seq<nat>, ghost slots: seq<nat>)
    returns (grants: seq<Pusch>, ghost es': seq<UlRuns.Env>, ghost who': seq<nat>, ghost slots': seq<nat>)
    requires sched.Valid() && ApartIn(users, procs, now) && now < TTI_PERIOD && i < |users| && |es| == i
    requires |requests| == |users| && Pdcch.AllLegal(requests) && |used| == MAX_CCE && base <= |sched.dcis|
    requires Phase(users, now, ss, gs, msg3, c, es)
    requires msg3.Some? ==> msg3.value.alloc.start + msg3.value.alloc.len <= MAX_PRB
    requires SentTo(users, gs, msg3, es, sent, who, slots, sched.dcis, base)
    requires AllSent(AllAsks(users, gs, msg3), requests, used, who, ss, es, sched.usedCce[..])
    modifies sched`dcis, sched.usedCce, procs
    ensures sched.Valid() && |es'| == i + 1 && Phase(users, now, ss, gs, msg3, c, es')
    ensures old(sched.dcis) <= sched.dcis && SentTo(users, gs, msg3, es', grants, who', slots', sched.dcis, base)
    ensures AllSent(AllAsks(users, gs, msg3), requests, used, who', ss, es', sched.usedCce[..])
  {
    ghost var placed, placedOn := sched.dcis, sched.usedCce[..];
    ghost var p := Search(placedOn, requests[i], 0);
    var out; ghost var e;
    out, e := ScheduleTurn(sched, users, i, c, msg3, requests[i], now, ss, gs, es, procs);
    SentToStep(users, ss, gs, msg3, es, sent, who, slots, placed, base, p, e, out);
    AllSentStep(AllAsks(users, gs, msg3), requests, used, who, ss, es, placedOn, e, out);
    grants := sent + (if out.None? then [] else [out.value]);
    es', who', slots' := es + [e], who + Listed(out, i), slots + Listed(out, |placed|);
  }

  /** Grants for all users. `who` are the users whose grants go out, `slots` the numbers of their DCIs, which come after
      the `base` DCIs that were placed before. */
  method SendAll(sched: Sched, users: seq<SchedUe>, c: Cell, msg3: Option<Msg3>, requests: seq<Request>, now: nat,
                 ghost ss: seq<UlRuns.Ul>, ghost gs: seq<Option<Alloc>>, ghost procs: set<HarqProc>,
                 ghost used: seq<bool>, ghost before: seq<Place>)
    returns (grants: seq<Pusch>, ghost es: seq<UlRuns.Env>, ghost who: seq<nat>, ghost slots: seq<nat>)
    requires sched.Valid() && ApartIn(users, procs, now) && now < TTI_PERIOD
    requires sched.dcis == before && |used| == MAX_CCE && sched.usedCce[..] == used
    requires |requests| == |users| && Pdcch.AllLegal(requests)
    requires Phase(users, now, ss, gs, msg3, c, [])
    requires msg3.Some? ==> msg3.value.alloc.start + msg3.value.alloc.len <= MAX_PRB
    modifies sched`dcis, sched.usedCce, procs
    ensures sched.Valid() && |es| == |users| && Phase(users, now, ss, gs, msg3, c, es)
    ensures before <= sched.dcis && SentTo(users, gs, msg3, es, grants, who, slots, sched.dcis, |before|)
    ensures AllSent(AllAsks(users, gs, msg3), requests, used, who, ss, es, sched.usedCce[..])
  {
    grants, es, who, slots := [], [], [], [];
    for i := 0 to |users|
      invariant sched.Valid() && |es| == i && Phase(users, now, ss, gs, msg3, c, es)
      invariant before <= sched.dcis && SentTo(users, gs, msg3, es, grants, who, slots, sched.dcis, |before|)
      invariant AllSent(AllAsks(users, gs, msg3), requests, used, who, ss, es, sched.usedCce[..])
    {
      grants, es, who, slots := SendNext(sched, users, i, c, msg3, requests, now, ss, gs, procs, used, |before|,
                                         grants, es, who, slots);
    }
  }

  // ---- Acknowledgments

  ghost predicate States(users: seq<SchedUe>, now: nat, ss: seq<UlRuns.Ul>)
    reads *
  {
    && |users| == |ss|
    && forall i {:trigger Pick(i)} | 0 <= i < |users| ::
         users[i].Valid() && users[i].GetUlHarq(now).UlState() == ss[i]
  }

  /** The acknowledgments for the first `n` users: what each of them is told about its process. */
  function Phichs(users: seq<SchedUe>, ss: seq<UlRuns.Ul>, n: nat): seq<Phich>
    requires n <= |users| == |ss|
  {
    if n == 0 then []
    else Phichs(users, ss, n - 1)
         + (if ss[n - 1].needAck then [Phich(users[n - 1].rnti, ss[n - 1].p.tb0.ack)] else [])
  }

  /** All states after the acknowledgments of the first `n` users were read. */
  function ReportedAll(ss: seq<UlRuns.Ul>, n: nat): (r: seq<UlRuns.Ul>)
    requires n <= |ss|
    ensures |r| == |ss|
  {
    seq(|ss|, i requires 0 <= i < |ss| => if i < n then UlRuns.Reported(ss[i]) else ss[i])
  }

  method AckTurn(users: seq<SchedUe>, i: nat, now: nat, ghost ss: seq<UlRuns.Ul>, ghost procs: set<HarqProc>)
    returns (pending: bool, ack: bool)
    requires ApartIn(users, procs, now) && States(users, now, ss) && i < |users|
    modifies procs`tb, procs`needAck
    ensures States(users, now, ss[i := UlRuns.Reported(ss[i])])
    ensures pending == ss[i].needAck && ack == ss[i].p.tb0.ack
  {
    assert Pick(i);
    var h := users[i].GetUlHarq(now);
    forall j | 0 <= j < |users| && j != i
      ensures users[j].Valid() && users[j].GetUlHarq(now).UlState() == ss[j] && users[j].rnti != users[i].rnti
    {
      assert Pick(j);
    }
    pending := h.HasPendingAck();
    ack := h.tb[0].ack;
    forall j | 0 <= j < |users|
      ensures users[j].Valid() && users[j].GetUlHarq(now).UlState() == ss[i := UlRuns.Reported(ss[i])][j]
    {
      assert Pick(j);
    }
  }

  method Acknowledge(users: seq<SchedUe>, now: nat, ghost ss: seq<UlRuns.Ul>, ghost procs: set<HarqProc>)
    returns (phichs: seq<Phich>)
    requires ApartIn(users, procs, now) && States(users, now, ss)
    modifies procs`tb, procs`needAck
    ensures States(users, now, ReportedAll(ss, |users|)) && phichs == Phichs(users, ss, |users|)
  {
    phichs := [];
    assert ReportedAll(ss, 0) == ss;
    for i := 0 to |users|
      invariant States(users, now, ReportedAll(ss, i)) && phichs == Phichs(users, ss, i)
    {
      var pending, ack := AckTurn(users, i, now, ReportedAll(ss, i), procs);
      assert ReportedAll(ss, i + 1) == ReportedAll(ss, i)[i := UlRuns.Reported(ss[i])];
      if pending {
        phichs := phichs + [Phich(users[i].rnti, ack)];
      }
    }
  }

  // ---- One uplink TTI

  /** A user as the allocation function sees it, with its process in state `s`. */
  function ViewOf(ch: Channel, s: UlRuns.Ul): View {
    View(!s.p.tb0.IsEmpty(), s.alloc, ch.ulPending, ch.ulRequired(ch.ulPending))
  }

  /** To the allocation function the users look like `vs`, with their processes in the states `ss`. */
  ghost predicate Viewed(users: seq<SchedUe>, now: nat, ss: seq<UlRuns.Ul>, vs: seq<View>)
    reads *
  {
    && |users| == |ss| == |vs|
    && forall i {:trigger Pick(i)} | 0 <= i < |users| ::
         users[i].Valid() && vs[i] == ViewOf(users[i].channel, ss[i])
  }

  /** All users get what the allocation function gives to users that look like `vs`, on top of what is reserved. */
  ghost predicate GivenRbs(gs: seq<Option<Alloc>>, vs: seq<View>, reserved: seq<bool>, first: nat) {
    && |gs| == |vs| && (|vs| > 0 ==> first < |vs|)
    && forall i {:trigger Pick(i)} | 0 <= i < |vs| :: gs[i] == Allocated(reserved, vs, first).1[i]
  }

  /** RBs for all users on top of what is reserved. */
  method AllocatePusch(metric: UlMetric, users: seq<SchedUe>, c: Cell, msg3: Option<Msg3>, now: nat,
                       ghost ss: seq<UlRuns.Ul>, ghost vs: seq<View>, ghost procs: set<HarqProc>)
    returns (ghost gs: seq<Option<Alloc>>, ghost first: nat)
    requires metric.Valid() && ApartIn(users, procs, now) && States(users, now, ss) && Viewed(users, now, ss, vs)
    modifies metric`currentTti, metric.usedRb, users`ulNextAlloc, procs`allocation, procs`isAdaptive
    ensures Phase(users, now, ss, gs, msg3, c, []) && metric.Valid() && metric.nofRb == old(metric.nofRb)
    ensures UlAllocation.Exclusive(old(metric.Used()), metric.Used(), gs)
    ensures GivenRbs(gs, vs, old(metric.Used()), first)
    ensures |users| > 0 ==> first == (now + |users| / 2) % |users|
  {
    forall i | 0 <= i < |users| ensures UserWould(users[i], now, vs[i]) { assert Pick(i); }
    ghost var reserved := metric.Used();
    metric.NewTti(users, now, vs, procs);
    gs, first := [], 0;
    if |users| > 0 {
      first := (now + |users| / 2) % |users|;
      AllocatedExclusive(reserved, vs, first);
      gs := Allocated(reserved, vs, first).1;
    }
    forall i | 0 <= i < |users| ensures UserAt(users[i], now, ss[i], gs[i]) {
      assert Pick(i);
    }
  }

  /** The grant is the one that was promised in a random access response. */
  predicate Answers(d: Pusch, msg3: Option<Msg3>) {
    msg3.Some? && d.rnti == msg3.value.rnti
  }

  /** RB `n` is in at most one grant, and if it is in one that does not answer a random access, it lies inside the
      carrier and was reserved for nothing. */
  ghost predicate GrantsApart(grants: seq<Pusch>, rs: seq<Alloc>, msg3: Option<Msg3>, nofPrb: nat, n: nat) {
    && (forall k, m | 0 <= k < m < |grants| :: !(Within(grants[k].alloc, n) && Within(grants[m].alloc, n)))
    && forall k | 0 <= k < |grants| && Within(grants[k].alloc, n) && !Answers(grants[k], msg3) ::
         n < nofPrb && forall r | 0 <= r < |rs| :: !Within(rs[r], n)
  }

  /** The same of all RBs. */
  ghost predicate AllApart(grants: seq<Pusch>, rs: seq<Alloc>, msg3: Option<Msg3>, nofPrb: nat) {
    forall n: nat :: GrantsApart(grants, rs, msg3, nofPrb, n)
  }

  lemma GrantsAreApart(c: Cell, rs: seq<Alloc>, used: seq<bool>, users: seq<SchedUe>,
                       gs: seq<Option<Alloc>>, msg3: Option<Msg3>, es: seq<UlRuns.Env>, grants: seq<Pusch>,
                       who: seq<nat>, slots: seq<nat>, dcis: seq<Place>, base: nat, n: nat)
    requires c.Valid() && Distinct(users) && |gs| == |users| == |es|
    requires SentTo(users, gs, msg3, es, grants, who, slots, dcis, base)
    requires msg3.Some? ==> msg3.value.alloc in rs && msg3.value.alloc.start + msg3.value.alloc.len <= c.nofPrb
    requires UlAllocation.Exclusive(MarkAll(seq(c.nofPrb, _ => false), rs), used, gs)
    ensures GrantsApart(grants, rs, msg3, c.nofPrb, n)
  {
    if n < c.nofPrb { MarkAllIs(seq(c.nofPrb, _ => false), rs, n); }
    forall k | 0 <= k < |grants| && Within(grants[k].alloc, n) && !Answers(grants[k], msg3)
      ensures n < c.nofPrb && Owns(gs[who[k]], n) && forall r | 0 <= r < |rs| :: !Within(rs[r], n)
    {
      assert GrantOf(users[who[k]], gs[who[k]], msg3, es[who[k]], grants[k], slots[k], dcis);
      assert Owns(gs[who[k]], n);
    }
    forall k, m | 0 <= k < m < |grants| ensures !(Within(grants[k].alloc, n) && Within(grants[m].alloc, n)) {
      assert Pick(who[k]) && Pick(who[m]);
      assert GrantOf(users[who[k]], gs[who[k]], msg3, es[who[k]], grants[k], slots[k], dcis);
      assert GrantOf(users[who[m]], gs[who[m]], msg3, es[who[m]], grants[m], slots[m], dcis);
      if Answers(grants[k], msg3) || Answers(grants[m], msg3) {
        var r :| 0 <= r < |rs| && rs[r] == msg3.value.alloc;
        assert Within(msg3.value.alloc, n) == Within(rs[r], n);
      } else {
        assert !(Owns(gs[who[k]], n) && Owns(gs[who[m]], n));
      }
    }
  }

  /** So RBs that are granted, but for the answer to a random access, lie on nothing that is reserved. */
  lemma GrantsSpare(c: Cell, prach: bool, msg3: Option<Msg3>, userPucch: seq<nat>, grants: seq<Pusch>, k: nat, n: nat)
    requires c.Valid() && AllApart(grants, Reservations(c, prach, msg3, userPucch), msg3, c.nofPrb)
    requires k < |grants| && Within(grants[k].alloc, n) && !Answers(grants[k], msg3)
    ensures n < c.nofPrb && !IsReserved(c, prach, msg3, userPucch, n)
  {
    assert GrantsApart(grants, Reservations(c, prach, msg3, userPucch), msg3, c.nofPrb, n);
    ReservedIff(c, prach, msg3, userPucch, n);
  }

  method Open(sched: Sched, metric: UlMetric, nofPrb: nat, tti: nat, ghost users: seq<SchedUe>,
              ghost ss: seq<UlRuns.Ul>)
    requires sched.Valid() && metric.Valid() && metric.usedRb != sched.usedCce && nofPrb <= MAX_PRB
    requires tti < TTI_PERIOD && States(users, tti, ss)
    modifies sched`currentTti, sched`dcis, sched.usedCce, metric`nofRb, metric.usedRb
    ensures sched.Valid() && sched.currentTti == tti && metric.Valid() && metric.Used() == seq(nofPrb, _ => false)
    ensures sched.dcis == if TtiTx(old(sched.currentTti)) == tti then old(sched.dcis) else []
    ensures sched.usedCce[..] == EnterUl(old(Map(sched.usedCce[..], sched.currentTti)), tti).used
    ensures States(users, tti, ss)
  {
    sched.EnterUlTti(tti);
    metric.ResetAllocation(nofPrb);
    forall i | 0 <= i < |users| ensures users[i].Valid() && users[i].GetUlHarq(tti).UlState() == ss[i] {
      assert Pick(i);
    }
  }

  /** The beginning of the TTI and the acknowledgments. */
  method OpenAndTell(sched: Sched, metric: UlMetric, nofPrb: nat, tti: nat, users: seq<SchedUe>,
                     ghost ss: seq<UlRuns.Ul>, ghost vs: seq<View>, ghost procs: set<HarqProc>)
    returns (phichs: seq<Phich>)
    requires sched.Valid() && metric.Valid() && metric.usedRb != sched.usedCce && nofPrb <= MAX_PRB
    requires tti < TTI_PERIOD && ApartIn(users, procs, tti) && States(users, tti, ss)
    requires Viewed(users, tti, ReportedAll(ss, |ss|), vs)
    modifies sched`currentTti, sched`dcis, sched.usedCce, metric`nofRb, metric.usedRb, procs`tb, procs`needAck
    ensures sched.Valid() && sched.currentTti == tti && metric.Valid() && metric.Used() == seq(nofPrb, _ => false)
    ensures sched.dcis == if TtiTx(old(sched.currentTti)) == tti then old(sched.dcis) else []
    ensures sched.usedCce[..] == EnterUl(old(Map(sched.usedCce[..], sched.currentTti)), tti).used
    ensures States(users, tti, ReportedAll(ss, |users|)) && Viewed(users, tti, ReportedAll(ss, |users|), vs)
    ensures phichs == Phichs(users, ss, |users|)
  {
    Open(sched, metric, nofPrb, tti, users, ss);
    phichs := Acknowledge(users, tti, ss, procs);
    forall i | 0 <= i < |users|
      ensures users[i].Valid() && vs[i] == ViewOf(users[i].channel, ReportedAll(ss, |users|)[i])
    {
      assert Pick(i);
    }
  }

  /** Reservations first, then users. */
  method GiveRbs(metric: UlMetric, users: seq<SchedUe>, c: Cell, rs: seq<Alloc>, msg3: Option<Msg3>, now: nat,
                 ghost ss: seq<UlRuns.Ul>, ghost vs: seq<View>, ghost procs: set<HarqProc>)
    returns (ghost gs: seq<Option<Alloc>>, ghost first: nat)
    requires metric.Valid() && ApartIn(users, procs, now) && States(users, now, ss) && Viewed(users, now, ss, vs)
    requires AllInArray(rs)
    modifies metric`currentTti, metric.usedRb, users`ulNextAlloc, procs`allocation, procs`isAdaptive
    ensures Phase(users, now, ss, gs, msg3, c, []) && metric.Valid() && metric.nofRb == old(metric.nofRb)
    ensures UlAllocation.Exclusive(MarkAll(old(metric.Used()), rs), metric.Used(), gs)
    ensures GivenRbs(gs, vs, MarkAll(old(metric.Used()), rs), first)
    ensures |users| > 0 ==> first == (now + |users| / 2) % |users|
  {
    Reserve(metric, rs);
    forall i | 0 <= i < |users| ensures users[i].Valid() && users[i].GetUlHarq(now).UlState() == ss[i] {
      assert Pick(i);
    }
    forall i | 0 <= i < |users| ensures vs[i] == ViewOf(users[i].channel, ss[i]) { assert Pick(i); }
    gs, first := AllocatePusch(metric, users, c, msg3, now, ss, vs, procs);
  }

  /** RBs for all users on top of the reservations, then their grants. */
  method GrantAll(sched: Sched, metric: UlMetric, users: seq<SchedUe>, requests: seq<Request>, c: Cell,
                  rs: seq<Alloc>, msg3: Option<Msg3>, now: nat, ghost ss: seq<UlRuns.Ul>, ghost vs: seq<View>,
                  ghost procs: set<HarqProc>, ghost before: seq<Place>, ghost used: seq<bool>)
    returns (grants: seq<Pusch>, ghost gs: seq<Option<Alloc>>, ghost es: seq<UlRuns.Env>, ghost who: seq<nat>,
             ghost slots: seq<nat>, ghost first: nat)
    requires sched.Valid() && metric.Valid() && metric.usedRb != sched.usedCce && c.Valid() && now < TTI_PERIOD
    requires sched.dcis == before && |used| == MAX_CCE && sched.usedCce[..] == used
    requires ApartIn(users, procs, now) && States(users, now, ss) && Viewed(users, now, ss, vs)
    requires |requests| == |users| && Pdcch.AllLegal(requests) && AllInArray(rs)
    requires metric.Used() == seq(c.nofPrb, _ => false)
    requires msg3.Some? ==> msg3.value.alloc in rs && msg3.value.alloc.start + msg3.value.alloc.len <= c.nofPrb
    modifies sched`dcis, sched.usedCce, metric`currentTti, metric.usedRb, users`ulNextAlloc, procs
    ensures sched.Valid() && metric.Valid() && |gs| == |users| == |es|
    ensures Phase(users, now, ss, gs, msg3, c, es)
    ensures GivenRbs(gs, vs, MarkAll(seq(c.nofPrb, _ => false), rs), first)
    ensures |users| > 0 ==> first == (now + |users| / 2) % |users|
    ensures AllApart(grants, rs, msg3, c.nofPrb)
    ensures before <= sched.dcis && SentTo(users, gs, msg3, es, grants, who, slots, sched.dcis, |before|)
    ensures AllSent(AllAsks(users, gs, msg3), requests, used, who, ss, es, sched.usedCce[..])
  {
    gs, first := GiveRbs(metric, users, c, rs, msg3, now, ss, vs, procs);
    ghost var rbs := metric.Used();
    grants, es, who, slots := SendAll(sched, users, c, msg3, requests, now, ss, gs, procs, used, before);
    forall n: nat ensures GrantsApart(grants, rs, msg3, c.nofPrb, n) {
      GrantsAreApart(c, rs, rbs, users, gs, msg3, es, grants, who, slots, sched.dcis, |before|, n);
    }
  }

  /** No bytes are pending on a process of this TTI without a block in use. */
  ghost predicate PendingCleared(users: seq<SchedUe>, now: nat)
    reads *
  {
    forall i {:trigger Pick(i)} | 0 <= i < |users| ::
      && users[i].Valid()
      && var h := users[i].GetUlHarq(now); !h.tb[0].active ==> h.pendingData == 0
  }

  method ClearTurn(users: seq<SchedUe>, i: nat, now: nat, ghost ss: seq<UlRuns.Ul>, ghost gs: seq<Option<Alloc>>,
                   ghost msg3: Option<Msg3>, ghost c: Cell, ghost es: seq<UlRuns.Env>, ghost procs: set<HarqProc>)
    requires ApartIn(users, procs, now) && Phase(users, now, ss, gs, msg3, c, es) && |es| == |users| && i < |users|
    requires PendingCleared(users[..i], now)
    modifies procs`pendingData
    ensures Phase(users, now, ss, gs, msg3, c, es) && PendingCleared(users[..i + 1], now)
    ensures forall h | h in procs && |h.tb| == 2 && h.tb[0].active :: h.pendingData == old(h.pendingData)
  {
    assert Pick(i);
    users[i].GetUlHarq(now).ResetPendingData();
    forall j | 0 <= j < |users| ensures UserDone(users[j], now, ss[j], gs[j], msg3, c, es[j]) { assert Pick(j); }
    forall j | 0 <= j < i + 1
      ensures users[j].Valid()
      ensures var h := users[j].GetUlHarq(now); !h.tb[0].active ==> h.pendingData == 0
    {
      assert Pick(j);
      assert j < i ==> users[..i][j] == users[j];
    }
  }

  /** Bytes that were granted are forgotten when their block is no longer in use. */
  method ClearPending(users: seq<SchedUe>, now: nat, ghost ss: seq<UlRuns.Ul>, ghost gs: seq<Option<Alloc>>,
                      ghost msg3: Option<Msg3>, ghost c: Cell, ghost es: seq<UlRuns.Env>, ghost procs: set<HarqProc>)
    requires ApartIn(users, procs, now) && Phase(users, now, ss, gs, msg3, c, es) && |es| == |users|
    modifies procs`pendingData
    ensures Phase(users, now, ss, gs, msg3, c, es) && PendingCleared(users, now)
    ensures forall h | h in procs && |h.tb| == 2 && h.tb[0].active :: h.pendingData == old(h.pendingData)
  {
    for i := 0 to |users|
      invariant Phase(users, now, ss, gs, msg3, c, es) && PendingCleared(users[..i], now)
      invariant forall h | h in procs && |h.tb| == 2 && h.tb[0].active :: h.pendingData == old(h.pendingData)
    {
      ClearTurn(users, i, now, ss, gs, msg3, c, es, procs);
    }
    assert users[..|users|] == users;
  }

  lemma ReservationsFit(c: Cell, prach: bool, msg3: Option<Msg3>, userPucch: seq<nat>)
    requires c.Valid() && (msg3.Some? ==> msg3.value.alloc.start + msg3.value.alloc.len <= c.nofPrb)
    requires forall i | 0 <= i < |userPucch| :: userPucch[i] < MAX_PRB
    ensures AllInArray(Reservations(c, prach, msg3, userPucch))
    ensures msg3.Some? ==> msg3.value.alloc in Reservations(c, prach, msg3, userPucch)
  {
  }

  /** The uplink scheduler. With a random access area outside the carrier nothing is scheduled. Otherwise every user is
      told the outcome of its last block if it waits for one, every process of this TTI takes one opportunity, no RB is
      granted twice or on top of a reservation, and no DCI shares a CCE with any other of the subframe. */
  method UlSched(sched: Sched, metric: UlMetric, users: seq<SchedUe>, requests: seq<Request>, c: Cell, tti: nat,
                 prach: bool, msg3: Option<Msg3>, userPucch: seq<nat>, ghost ss: seq<UlRuns.Ul>,
                 ghost vs: seq<View>, ghost procs: set<HarqProc>)
    returns (ok: bool, phichs: seq<Phich>, grants: seq<Pusch>, ghost gs: seq<Option<Alloc>>, ghost es: seq<UlRuns.Env>,
             ghost who: seq<nat>, ghost slots: seq<nat>, ghost first: nat)
    requires Viewed(users, tti, ReportedAll(ss, |ss|), vs)
    requires sched.Valid() && metric.Valid() && metric.usedRb != sched.usedCce && c.Valid() && tti < TTI_PERIOD
    requires ApartIn(users, procs, tti) && States(users, tti, ss) && |requests| == |users| && Pdcch.AllLegal(requests)
    requires msg3.Some? ==> msg3.value.alloc.start + msg3.value.alloc.len <= c.nofPrb
    requires forall i | 0 <= i < |userPucch| :: userPucch[i] < MAX_PRB
    modifies sched`currentTti, sched`dcis, sched.usedCce, metric, metric.usedRb, users`ulNextAlloc, procs
    ensures sched.Valid() && metric.Valid() && ok == c.PrachFits()
    ensures !ok ==>
              && phichs == [] && grants == [] && States(users, tti, ss) && sched.currentTti == old(sched.currentTti)
              && sched.dcis == old(sched.dcis) && sched.usedCce[..] == old(sched.usedCce[..])
    ensures ok ==>
              && |gs| == |users|
              && sched.currentTti == tti && phichs == Phichs(users, ss, |users|)
              && |es| == |users| && Phase(users, tti, ReportedAll(ss, |users|), gs, msg3, c, es)
              && GivenRbs(gs, vs, MarkAll(seq(c.nofPrb, _ => false), Reservations(c, prach, msg3, userPucch)), first)
              && (|users| > 0 ==> first == (tti + |users| / 2) % |users|)
              && PendingCleared(users, tti)
              && AllApart(grants, Reservations(c, prach, msg3, userPucch), msg3, c.nofPrb)
    ensures ok ==>
              var before := if TtiTx(old(sched.currentTti)) == tti then old(sched.dcis) else [];
              var used := EnterUl(old(Map(sched.usedCce[..], sched.currentTti)), tti).used;
              && before <= sched.dcis && SentTo(users, gs, msg3, es, grants, who, slots, sched.dcis, |before|)
              && AllSent(AllAsks(users, gs, msg3), requests, used, who, ReportedAll(ss, |users|), es,
                         sched.usedCce[..])
  {
    phichs, grants, gs, es, who, slots, first := [], [], [], [], [], [], 0;
    if c.prachOffset + 6 > c.nofPrb && c.nofPrb > 10 {
      return false, phichs, grants, gs, es, who, slots, first;
    }
    ok := true;
    phichs := OpenAndTell(sched, metric, c.nofPrb, tti, users, ss, vs, procs);
    var rs := Reservations(c, prach, msg3, userPucch);
    ReservationsFit(c, prach, msg3, userPucch);
    grants, gs, es, who, slots, first :=
      GrantAll(sched, metric, users, requests, c, rs, msg3, tti, ReportedAll(ss, |users|), vs, procs, sched.dcis,
               sched.usedCce[..]);
    ClearPending(users, tti, ReportedAll(ss, |users|), gs, msg3, c, es, procs);
  }
}
