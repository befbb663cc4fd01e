/** The uplink resource allocator: it hands out contiguous resource blocks (RBs), TTI by TTI, in place on a map of used
    RBs. Its methods are tied to the functions of UlAllocation. */
module UlMetricRr {
  import opened Harq
  import opened HarqObjects
  import opened DlProcs
  import opened SchedUser
  import opened UlAllocation
  import DlAllocation

  /** The user's process for TTI `now` is as in `v`, except that the user holds `g`. */
  ghost predicate UserIs(u: SchedUe, now: nat, v: View, g: Option<Alloc>)
    reads u, u.dlHarq, u.ulHarq
  {
    && u.Valid()
    && var h := u.GetUlHarq(now);
       && h.tb[0].IsEmpty() == !v.active
       && v.pending == u.channel.ulPending && v.want == u.channel.ulRequired(u.channel.ulPending)
       && match g
          case None => u.ulNextAlloc == null && h.allocation == v.alloc
          case Some(a) => u.ulNextAlloc == h && h.allocation == a
  }

  /** The same, whatever the user holds from the TTI before. */
  ghost predicate UserWould(u: SchedUe, now: nat, v: View)
    reads u, u.dlHarq, u.ulHarq
  {
    && u.Valid()
    && var h := u.GetUlHarq(now);
       && h.tb[0].IsEmpty() == !v.active && h.allocation == v.alloc
       && v.pending == u.channel.ulPending && v.want == u.channel.ulRequired(u.channel.ulPending)
  }

  ghost predicate AllWould(users: seq<SchedUe>, now: nat, vs: seq<View>)
    reads *
  {
    |users| == |vs| && forall i {:trigger Pick(i)} | 0 <= i < |users| :: UserWould(users[i], now, vs[i])
  }

  ghost predicate AllAre(users: seq<SchedUe>, now: nat, vs: seq<View>, gs: seq<Option<Alloc>>)
    reads *
  {
    && |users| == |vs| == |gs|
    && forall i {:trigger Pick(i)} | 0 <= i < |users| :: UserIs(users[i], now, vs[i], gs[i])
  }

  lemma OthersApart(users: seq<SchedUe>, procs: set<HarqProc>, i: nat, now: nat, vs: seq<View>, gs: seq<Option<Alloc>>)
    requires ApartIn(users, procs, now) && AllAre(users, now, vs, gs) && i < |users|
    ensures users[i].Valid() && users[i].GetUlHarq(now) in procs
    ensures forall j {:trigger Pick(j)} | 0 <= j < |users| && j != i ::
              users[j].rnti != users[i].rnti && UserIs(users[j], now, vs[j], gs[j])
  {
    assert Pick(i);
    forall j | 0 <= j < |users| && j != i
      ensures users[j].rnti != users[i].rnti && UserIs(users[j], now, vs[j], gs[j])
    {
      assert Pick(j);
    }
  }

  /** A free RB that follows a free run belongs to the same run. */
  lemma {:induction false} RunGoesOn(used: seq<bool>, s: nat, n: nat)
    requires s <= n <= |used| && forall k | s <= k < n :: !used[k]
    ensures RunEnd(used, s) == RunEnd(used, n)
    decreases n - s
  {
    if s < n { RunGoesOn(used, s + 1, n); }
  }

  class UlMetric {
    const usedRb: array<bool>
    var nofRb: nat
    var currentTti: nat

    predicate Valid()
      reads this
    {
      usedRb.Length == MAX_PRB && nofRb <= MAX_PRB
    }

    constructor ()
      ensures Valid() && fresh(usedRb)
    {
      usedRb := new bool[MAX_PRB];
      nofRb, currentTti := 0, 0;
    }

    function Used(): (u: seq<bool>)
      requires Valid()
      reads this, usedRb
      ensures |u| == nofRb
    {
      usedRb[..nofRb]
    }

    method ResetAllocation(nofRb_: nat)
      requires Valid() && nofRb_ <= MAX_PRB
      modifies this`nofRb, usedRb
      ensures Valid() && Used() == seq(nofRb_, _ => false)
    {
      nofRb := nofRb_;
      for i := 0 to nofRb_
        invariant nofRb == nofRb_ && forall k | 0 <= k < i :: !usedRb[k]
      {
        usedRb[i] := false;
      }
      assert Used() == seq(nofRb_, _ => false);
    }

    method AllocationIsValid(alloc: Alloc) returns (ok: bool)
      requires Valid()
      ensures ok == Free(Used(), alloc)
    {
      if alloc.start + alloc.len > nofRb {
        return false;
      }
      for n := alloc.start to alloc.start + alloc.len
        invariant forall k | alloc.start <= k < n :: !usedRb[k]
      {
        if usedRb[n] {
          return false;
        }
      }
      ok := true;
    }

    /** The first usable run of free RBs, cut to the wanted length. */
    method FirstFreeRun(want: nat) returns (alloc: Alloc)
      requires Valid()
      ensures alloc == FirstRun(Used(), want, 0)
    {
      alloc := Alloc(0, 0);
      ghost var used := Used();
      var n := 0;
      while n < nofRb && alloc.len < want
        invariant n <= nofRb && alloc.len <= want && used == Used()
        invariant alloc.len == 0 ==> alloc == Alloc(0, 0) && FirstRun(used, want, 0) == FirstRun(used, want, n)
        invariant alloc.len > 0 ==>
                    && alloc.start + alloc.len == n && FirstRun(used, want, 0) == FirstRun(used, want, alloc.start)
                    && forall k | alloc.start <= k < n :: !used[k]
      {
        if !usedRb[n] && alloc.len == 0 {
          alloc := Alloc(n, 0);
        }
        if !usedRb[n] {
          alloc := Alloc(alloc.start, alloc.len + 1);
        } else if alloc.len > 0 {
          RunGoesOn(used, alloc.start, n);
          if n < 3 {
            alloc := Alloc(0, 0);
          } else {
            break;
          }
        }
        n := n + 1;
      }
      if alloc.len > 0 { RunGoesOn(used, alloc.start, alloc.start + alloc.len); }
    }

    /** The first usable run, cut to the wanted and then to an allowed length. */
    method NewAllocation(want: nat) returns (ok: bool, alloc: Alloc)
      requires Valid()
      ensures alloc == Allocation(Used(), want) && ok == (0 < alloc.len == want)
    {
      alloc := FirstFreeRun(want);
      if alloc.len == 0 {
        return false, alloc;
      }
      while !DftValid(alloc.len)
        invariant alloc.len > 0 && Allocation(Used(), want) == Alloc(alloc.start, DftFloor(alloc.len))
        decreases alloc.len
      {
        alloc := Alloc(alloc.start, alloc.len - 1);
      }
      ok := alloc.len == want;
    }

    /** Marks the RBs as used, whether they were free or not. */
    method UpdateAllocation(alloc: Alloc) returns (ret: bool)
      requires Valid() && alloc.start + alloc.len <= MAX_PRB
      modifies usedRb
      ensures ret == Free(old(Used()), alloc) && Used() == Mark(old(Used()), alloc)
    {
      ret := AllocationIsValid(alloc);
      ghost var used := Used();
      for n := alloc.start to alloc.start + alloc.len
        invariant forall k | 0 <= k < nofRb :: usedRb[k] == (used[k] || alloc.start <= k < n)
      {
        usedRb[n] := true;
      }
      assert Used() == Mark(used, alloc);
    }

    /** Sends the block of a user again, on its old RBs if they are free. */
    method AllocateUserRetxPrbs(user: SchedUe, ghost v: View) returns (r: HarqProc?)
      requires Valid() && UserIs(user, currentTti, v, None)
      modifies usedRb, user.GetUlHarq(currentTti)`allocation, user.GetUlHarq(currentTti)`isAdaptive
      ensures user.Valid()
      ensures var (g, used) := Again(old(Used()), v);
              && Used() == used
              && r == (if g.Some? then user.GetUlHarq(currentTti) else null)
              && user.GetUlHarq(currentTti).allocation == (if g.Some? then g.value else v.alloc)
    {
      var h := user.GetUlHarq(currentTti);
      if !h.tb[0].IsEmpty() {
        var alloc := h.allocation;
        var ok := UpdateAllocation(alloc);
        if ok {
          return h;
        }
        AllocationFits(Used(), alloc.len);
        ok, alloc := NewAllocation(alloc.len);
        if ok {
          var valid := UpdateAllocation(alloc);
          assert valid;
          h.SetAlloc(alloc);
          return h;
        }
      }
      r := null;
    }

    /** Gives a user with new data RBs for it. */
    method AllocateUserNewtxPrbs(user: SchedUe, ghost v: View) returns (r: HarqProc?)
      requires Valid() && UserIs(user, currentTti, v, None)
      modifies usedRb, user.GetUlHarq(currentTti)`allocation, user.GetUlHarq(currentTti)`isAdaptive
      ensures user.Valid()
      ensures var (g, used) := Anew(old(Used()), v, None);
              && Used() == used
              && r == (if g.Some? then user.GetUlHarq(currentTti) else null)
              && user.GetUlHarq(currentTti).allocation == (if g.Some? then g.value else v.alloc)
    {
      var pending := user.channel.ulPending;
      var h := user.GetUlHarq(currentTti);
      if h.tb[0].IsEmpty() && pending > 0 {
        var want := user.channel.ulRequired(pending);
        AllocationFits(Used(), want);
        var _, alloc := NewAllocation(want);
        if alloc.len > 0 {
          var valid := UpdateAllocation(alloc);
          assert valid;
          h.SetAlloc(alloc);
          return h;
        }
      }
      r := null;
    }

    /** Sends the block of user `i` again if it has one, and leaves all others alone. */
    method RetxTurn(users: seq<SchedUe>, i: nat, ghost vs: seq<View>, ghost gs: seq<Option<Alloc>>,
                    ghost procs: set<HarqProc>)
      requires Valid() && ApartIn(users, procs, currentTti)
      requires AllAre(users, currentTti, vs, gs) && i < |users| && gs[i].None?
      modifies usedRb, users`ulNextAlloc, procs`allocation, procs`isAdaptive
      ensures var (g, used) := Again(old(Used()), vs[i]); Used() == used && AllAre(users, currentTti, vs, gs[i := g])
    {
      assert Pick(i);
      ghost var g := Again(Used(), vs[i]).0;
      OthersApart(users, procs, i, currentTti, vs, gs);
      var h := AllocateUserRetxPrbs(users[i], vs[i]);
      users[i].ulNextAlloc := h;
      forall j | 0 <= j < |users| ensures UserIs(users[j], currentTti, vs[j], gs[i := g][j]) {
        assert Pick(j);
      }
    }

    /** Gives user `i` RBs for new data unless it holds some, and leaves all others alone. */
    method NewtxTurn(users: seq<SchedUe>, i: nat, ghost vs: seq<View>, ghost gs: seq<Option<Alloc>>,
                     ghost procs: set<HarqProc>)
      requires Valid() && ApartIn(users, procs, currentTti) && AllAre(users, currentTti, vs, gs) && i < |users|
      modifies usedRb, users`ulNextAlloc, procs`allocation, procs`isAdaptive
      ensures var (g, used) := Anew(old(Used()), vs[i], gs[i]);
              Used() == used && AllAre(users, currentTti, vs, gs[i := g])
    {
      assert Pick(i);
      ghost var g := Anew(Used(), vs[i], gs[i]).0;
      OthersApart(users, procs, i, currentTti, vs, gs);
      if users[i].ulNextAlloc == null {
        var h := AllocateUserNewtxPrbs(users[i], vs[i]);
        users[i].ulNextAlloc := h;
        forall j | 0 <= j < |users| ensures UserIs(users[j], currentTti, vs[j], gs[i := g][j]) {
          assert Pick(j);
        }
      } else {
        assert gs[i := g] == gs;
      }
    }

    method ClearNextAlloc(users: seq<SchedUe>, ghost vs: seq<View>)
      requires AllWould(users, currentTti, vs)
      modifies users`ulNextAlloc
      ensures AllAre(users, currentTti, vs, seq(|users|, _ => None))
    {
      for i := 0 to |users|
        invariant AllWould(users, currentTti, vs)
        invariant forall j | 0 <= j < i :: users[j].ulNextAlloc == null
      {
        users[i].ulNextAlloc := null;
        forall j | 0 <= j < |users| ensures UserWould(users[j], currentTti, vs[j]) {
          assert Pick(j);
        }
      }
      forall j | 0 <= j < |users| ensures UserIs(users[j], currentTti, vs[j], None) {
        assert Pick(j);
      }
    }

    method Passes(users: seq<SchedUe>, first: nat, ghost vs: seq<View>, ghost procs: set<HarqProc>)
      requires Valid() && ApartIn(users, procs, currentTti) && first < |users|
      requires AllAre(users, currentTti, vs, seq(|users|, _ => None))
      modifies usedRb, users`ulNextAlloc, procs`allocation, procs`isAdaptive
      ensures var r := Allocated(old(Used()), vs, first); Used() == r.0 && AllAre(users, currentTti, vs, r.1)
    {
      ghost var used := Used();
      ghost var gs: seq<Option<Alloc>> := seq(|users|, _ => None);
      for i := 0 to |users|
        invariant (Used(), gs) == RetxPass(used, vs, i) && AllAre(users, currentTti, vs, gs)
        invariant forall k | i <= k < |users| :: gs[k].None?
      {
        ghost var g := Again(Used(), vs[i]).0;
        RetxTurn(users, i, vs, gs, procs);
        gs := gs[i := g];
      }
      used := Used();
      ghost var held := gs;
      var iter := first;
      for count := 0 to |users|
        invariant (Used(), gs) == NewPass(used, vs, held, first, count) && AllAre(users, currentTti, vs, gs)
        invariant iter == DlAllocation.Iterator(first, count, |users|)
      {
        if iter == |users| {
          iter := 0;
        }
        DlAllocation.WrappedIsTurn(first, count, |users|);
        ghost var g := Anew(Used(), vs[iter], gs[iter]).0;
        NewtxTurn(users, iter, vs, gs, procs);
        gs := gs[iter := g];
        iter := iter + 1;
      }
    }

    /** Serves all users of one TTI on top of what is reserved: first the blocks that are sent again, then new data, in
        turn from number (tti + |users|/2) % |users| on. */
    method NewTti(users: seq<SchedUe>, now: nat, ghost vs: seq<View>, ghost procs: set<HarqProc>)
      requires Valid() && ApartIn(users, procs, now) && AllWould(users, now, vs)
      modifies this`currentTti, usedRb, users`ulNextAlloc, procs`allocation, procs`isAdaptive
      ensures Valid() && currentTti == now && nofRb == old(nofRb)
      ensures |users| == 0 ==> Used() == old(Used())
      ensures |users| > 0 ==>
                var r := Allocated(old(Used()), vs, (now + |users| / 2) % |users|);
                Used() == r.0 && AllAre(users, now, vs, r.1)
    {
      currentTti := now;
      if |users| == 0 {
        return;
      }
      forall j | 0 <= j < |users| ensures UserWould(users[j], now, vs[j]) {
        assert Pick(j);
      }
      ClearNextAlloc(users, vs);
      var priorityIdx := (now + |users| / 2) % |users|;
      Passes(users, priorityIdx, vs, procs);
    }
  }

  /** After all users were served, an RB that belongs to the process a user holds lies inside the carrier, was not
      reserved, is marked, and belongs to no other user's process. */
  lemma AllocationsExclusive(m: UlMetric, users: seq<SchedUe>, vs: seq<View>, reserved: seq<bool>, first: nat,
                             i: nat, n: nat)
    requires m.Valid() && i < |users| == |vs| && first < |users|
    requires Allocated(reserved, vs, first).0 == m.Used()
    requires AllAre(users, m.currentTti, vs, Allocated(reserved, vs, first).1)
    requires users[i].ulNextAlloc != null && Within(users[i].ulNextAlloc.allocation, n)
    ensures n < |reserved| == m.nofRb && !reserved[n] && m.Used()[n]
    ensures forall j | 0 <= j < |users| && j != i && users[j].ulNextAlloc != null ::
              !Within(users[j].ulNextAlloc.allocation, n)
  {
    var gs := Allocated(reserved, vs, first).1;
    AllocatedExclusive(reserved, vs, first);
    assert Pick(i);
    assert Owns(gs[i], n);
    forall j | 0 <= j < |users| && j != i && users[j].ulNextAlloc != null
      ensures !Within(users[j].ulNextAlloc.allocation, n)
    {
      assert Pick(j);
      assert !Owns(gs[j], n);
    }
  }
}
