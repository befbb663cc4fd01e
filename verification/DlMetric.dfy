/** The downlink resource allocator: it hands out resource block groups (RBGs) to users, TTI by TTI, in place on a
    map of used groups. Its methods are tied to the functions of DlAllocation. */
module DlMetricRr {
  import opened Bits
  import opened Tti
  import opened DlProcs
  import opened Harq
  import opened Queues
  import opened HarqObjects
  import opened SchedUser
  import opened DlAllocation
  import Rbg

  const MAX_RBG: nat := 25

  function GroupsFor(approxTbs: (nat, nat) -> int, nofPrb: nat, bytes: nat, nofCtrl: nat): nat {
    Rbg.CeilDiv(RequiredFrom(approxTbs, nofCtrl, nofPrb, bytes, 0, 0), Rbg.GroupSize(nofPrb))
  }

  /** What the scheduler reads and writes of a user in a downlink TTI. */
  datatype Look = Look(lch: seq<Bearer>, channel: Channel, procs: seq<Proc>, masks: seq<nat>, alloc: HarqProc?)
  {
    predicate Shape() {
      |procs| == |masks| == MAX_HARQ_PROC && AllValid(procs) && NonNegative(lch)
    }

    /** The user as the allocation function sees it, on a carrier of `nofPrb` PRBs. */
    function View(nofPrb: nat, now: nat, nofCtrl: nat): (v: View)
      requires Shape() && now < TTI_PERIOD
      ensures v.masks == masks && (v.retx.Some? ==> v.retx.value < |masks|)
    {
      var bytes := BytesWanted(Backlog(lch, |lch|), FirstDlTx(procs));
      DlAllocation.View(Pending(procs, now), masks, FirstEmptyFrom(procs, 0),
                        GroupsFor(channel.approxTbs, nofPrb, bytes, nofCtrl))
    }
  }

  ghost function LookOf(u: SchedUe): Look
    reads u`lch, u`channel, u`procs, u`masks, u`dlNextAlloc
  {
    Look(u.lch, u.channel, u.procs, u.masks, u.dlNextAlloc)
  }

  /** `m << k`. */
  function Shifted(m: nat, k: nat): nat {
    if k == 0 then m else 2 * Shifted(m, k - 1)
  }

  lemma {:induction false} ShiftedAgain(m: nat, k: nat)
    ensures Shifted(2 * m, k) == Shifted(m, k + 1)
  {
    if k > 0 { ShiftedAgain(m, k - 1); }
  }

  lemma {:induction false} ShiftedOr(a: nat, k: nat)
    ensures Or(Shifted(2 * a, k), Pow2(k)) == Shifted(2 * a + 1, k)
  {
    if k == 0 {
      OrZero(a, 0);
    } else {
      ShiftedOr(a, k - 1);
    }
  }

  lemma MaskStep(s: seq<bool>, n: nat)
    requires n < |s|
    ensures Rbg.Mask(s[..n + 1]) == 2 * Rbg.Mask(s[..n]) + (if s[n] then 1 else 0)
  {
    assert s[..n + 1][..n] == s[..n];
  }

  /** Setting the bit of group `n` of `total`, or not, extends the mask of the groups before it. */
  lemma SetNextBit(s: seq<bool>, n: nat, total: nat)
    requires n < |s| && n < total
    ensures var k := total - 1 - n;
            var m := Shifted(Rbg.Mask(s[..n]), total - n);
            Shifted(Rbg.Mask(s[..n + 1]), k) == if s[n] then Or(m, Pow2(k)) else m
  {
    var k := total - 1 - n;
    MaskStep(s, n);
    ShiftedAgain(Rbg.Mask(s[..n]), k);
    ShiftedOr(Rbg.Mask(s[..n]), k);
  }

  lemma {:induction false} ZeroShifted(k: nat)
    ensures Shifted(0, k) == 0
  {
    if k > 0 { ZeroShifted(k - 1); }
  }

  /** First fit, one group further: group `i` is taken if it is free. */
  lemma FirstFitStep(used: seq<bool>, sel: seq<bool>, i: nat, left: nat)
    requires i < |used| == |sel| && left > 0 && sel[i..] == Rbg.FirstFree(used[i..], left)
    ensures sel[i] == !used[i]
    ensures sel[i + 1..] == Rbg.FirstFree(used[i + 1..], if used[i] then left else left - 1)
    ensures Rbg.NofFree(used[i..]) == (if used[i] then 0 else 1) + Rbg.NofFree(used[i + 1..])
  {
    assert used[i..][0] == used[i] && used[i..][1..] == used[i + 1..];
    assert sel[i..][0] == sel[i] && sel[i..][1..] == sel[i + 1..];
  }

  /** A user with processes `hs` that looked like `v` before holds the grant: its process, with the new mask, and all
      other masks as before. */
  predicate Holds(hs: seq<HarqProc>, masks: seq<nat>, alloc: HarqProc?, v: View, g: Option<Grant>) {
    && |hs| == |v.masks|
    && match g
       case None => alloc == null && masks == v.masks
       case Some(x) => x.pid < |hs| && alloc == hs[x.pid] && masks == v.masks[x.pid := x.mask]
  }

  /** All users look like this. */
  ghost predicate AllLook(users: seq<SchedUe>, looks: seq<Look>)
    reads *
  {
    && |users| == |looks|
    && forall i {:trigger Pick(i)} | 0 <= i < |users| :: users[i].Valid() && LookOf(users[i]) == looks[i]
  }

  /** To the allocation function the users look like `vs`. */
  predicate Seen(users: seq<SchedUe>, looks: seq<Look>, vs: seq<View>, now: nat, nofCtrl: nat)
    requires now < TTI_PERIOD
  {
    && |users| == |looks| == |vs|
    && forall i {:trigger Pick(i)} | 0 <= i < |users| ::
         looks[i].Shape() && looks[i].View(users[i].nofPrb, now, nofCtrl) == vs[i]
  }

  /** User `i`, in the order of service from `first` on: if its turn has come it holds its grant, otherwise it looks as
      it did before. */
  ghost predicate UserAt(users: seq<SchedUe>, before: seq<Look>, looks: seq<Look>, vs: seq<View>, first: nat,
                         gs: seq<Option<Grant>>, i: nat)
    requires i < |users| == |before| == |looks| == |vs| && first < |users|
  {
    var k := Position(first, i, |users|);
    if k < |gs| then Holds(users[i].dlHarq, looks[i].masks, looks[i].alloc, vs[i], gs[k]) else looks[i] == before[i]
  }

  /** The same of all users. */
  ghost predicate Progress(users: seq<SchedUe>, before: seq<Look>, looks: seq<Look>, vs: seq<View>, first: nat,
                           gs: seq<Option<Grant>>)
  {
    && first < |users| == |before| == |looks| == |vs|
    && forall i {:trigger Pick(i)} | 0 <= i < |users| :: UserAt(users, before, looks, vs, first, gs, i)
  }

  /** The user served next holds its grant, and nobody else changes. */
  lemma ProgressStep(users: seq<SchedUe>, before: seq<Look>, looks: seq<Look>, vs: seq<View>, first: nat,
                     gs: seq<Option<Grant>>, i: nat, l: Look, g: Option<Grant>)
    requires Progress(users, before, looks, vs, first, gs) && i < |users| && Position(first, i, |users|) == |gs|
    requires Holds(users[i].dlHarq, l.masks, l.alloc, vs[i], g)
    ensures Progress(users, before, looks[i := l], vs, first, gs + [g])
  {
    var after, hs := looks[i := l], gs + [g];
    forall j | 0 <= j < |users| ensures UserAt(users, before, after, vs, first, hs, j) {
      assert Pick(j);
      assert UserAt(users, before, looks, vs, first, gs, j);
    }
  }

  /** First fit ends when nothing more is wanted or no group is left. */
  lemma FirstFitDone(used: seq<bool>, sel: seq<bool>, bits: seq<bool>, i: nat, left: nat)
    requires i <= |used| == |sel| == |bits| && (i == |used| || left == 0)
    requires sel[i..] == Rbg.FirstFree(used[i..], left)
    requires forall k | 0 <= k < |bits| :: bits[k] == (k < i && sel[k])
    ensures bits == sel && (left <= Rbg.NofFree(used[i..]) <==> left == 0)
  {
    if i < |used| {
      Rbg.NothingWanted(used[i..]);
      forall k | i <= k < |used| ensures !sel[k] {
        assert sel[k] == sel[i..][k - i];
      }
    }
  }

  class DlMetric {
    const usedRbg: array<bool>
    var usedRbgMask: nat
    var totalRbg: nat
    var availableRbg: nat
    var currentTti: nat
    var nofCtrlSymbols: nat

    predicate Sized()
      reads this
    {
      usedRbg.Length == MAX_RBG && totalRbg <= MAX_RBG && currentTti < TTI_PERIOD
    }

    constructor ()
      ensures Sized() && fresh(usedRbg)
    {
      usedRbg := new bool[MAX_RBG];
      usedRbgMask, totalRbg, availableRbg, currentTti, nofCtrlSymbols := 0, 0, 0, 0, 0;
    }

    function Used(): (u: seq<bool>)
      requires Sized()
      reads this, usedRbg
      ensures |u| == totalRbg
    {
      usedRbg[..totalRbg]
    }

    /** The word and the array say the same. */
    predicate Valid()
      reads this, usedRbg
    {
      Sized() && usedRbgMask == Rbg.Mask(Used())
    }

    method CalcRbgMask(mask: array<bool>) returns (m: nat)
      requires Sized() && mask.Length == MAX_RBG
      ensures m == Rbg.Mask(mask[..totalRbg])
    {
      ZeroShifted(totalRbg);
      m := 0;
      for n := 0 to totalRbg
        invariant m == Shifted(Rbg.Mask(mask[..n]), totalRbg - n)
      {
        SetNextBit(mask[..], n, totalRbg);
        assert mask[..][..n + 1] == mask[..n + 1] && mask[..][..n] == mask[..n];
        if mask[n] {
          m := Or(m, Pow2(totalRbg - 1 - n));
        }
      }
    }

    method CountRbg(mask: nat) returns (count: nat)
      ensures count == PopCount(mask)
    {
      count := 0;
      var m := mask;
      while m > 0
        invariant PopCount(mask) == count + PopCount(m)
      {
        if m % 2 == 1 {
          count := count + 1;
        }
        m := m / 2;
      }
    }

    /** Despite its name, true exactly when the mask names a group that is in use. */
    method AllocationIsValid(mask: nat) returns (overlaps: bool)
      requires Valid()
      ensures overlaps <==> Rbg.NamesUsed(mask, Used())
    {
      Rbg.OverlapMeans(mask, Used());
      overlaps := And(mask, usedRbgMask) != 0;
    }

    /** The first free groups as a bit array; `left` are wanted in addition to them. */
    method FirstFreeBits(nofRbg: nat) returns (maskBit: array<bool>, left: nat)
      requires Sized()
      ensures maskBit.Length == MAX_RBG && maskBit[..totalRbg] == Rbg.FirstFree(Used(), nofRbg)
      ensures left == 0 <==> nofRbg <= Rbg.NofFree(Used())
    {
      maskBit := new bool[MAX_RBG](_ => false);
      left := nofRbg;
      var i := 0;
      ghost var used := Used();
      ghost var sel := Rbg.FirstFree(used, nofRbg);
      assert used[0..] == used && sel[0..] == sel;
      while i < totalRbg && left > 0
        invariant 0 <= i <= totalRbg && used == Used()
        invariant forall k | 0 <= k < totalRbg :: maskBit[k] == (k < i && sel[k])
        invariant sel[i..] == Rbg.FirstFree(used[i..], left)
        invariant left <= Rbg.NofFree(used[i..]) <==> nofRbg <= Rbg.NofFree(used)
      {
        FirstFitStep(used, sel, i, left);
        if usedRbg[i] {
          maskBit[i] := false;
        } else {
          maskBit[i] := true;
          left := left - 1;
        }
        i := i + 1;
      }
      FirstFitDone(used, sel, maskBit[..totalRbg], i, left);
    }

    /** Picks the first free groups; fails, with the mask of what there is, if they are too few. */
    method NewAllocation(nofRbg: nat) returns (ok: bool, mask: nat)
      requires Valid()
      ensures mask == Rbg.Mask(Rbg.FirstFree(Used(), nofRbg))
      ensures ok <==> nofRbg <= Rbg.NofFree(Used())
    {
      var maskBit, left := FirstFreeBits(nofRbg);
      mask := CalcRbgMask(maskBit);
      ok := left == 0;
    }

    method UpdateAllocation(newMask: nat)
      requires Valid() && newMask < Pow2(totalRbg)
      modifies this`usedRbgMask, usedRbg
      ensures Valid() && Used() == Rbg.Selection(Or(Rbg.Mask(old(Used())), newMask), totalRbg)
    {
      Rbg.MaskBelow(Used());
      OrBelow(usedRbgMask, newMask, totalRbg);
      usedRbgMask := Or(usedRbgMask, newMask);
      ghost var word := usedRbgMask;
      Rbg.MaskOfSelection(word, totalRbg);
      for n := 0 to totalRbg
        invariant usedRbgMask == word
        invariant forall k | 0 <= k < n :: usedRbg[k] == Bit(usedRbgMask, totalRbg - 1 - k)
      {
        if Bit(usedRbgMask, totalRbg - 1 - n) {
          usedRbg[n] := true;
        } else {
          usedRbg[n] := false;
        }
      }
      assert Used() == Rbg.Selection(word, totalRbg);
    }

    /** A retransmission on as many groups as it had, but other ones. */
    method MoveRetx(user: SchedUe, h: HarqProc) returns (ok: bool)
      requires Valid() && user.Valid() && h in user.dlHarq
      modifies this`usedRbgMask, usedRbg, user`masks, h`rbgMask
      ensures Valid() && user.Valid() && h.id < MAX_HARQ_PROC
      ensures var n := PopCount(old(user.masks)[h.id]);
              var mask := Rbg.Mask(Rbg.FirstFree(old(Used()), n));
              && ok == (n < availableRbg && n <= Rbg.NofFree(old(Used())))
              && user.masks == (if ok then old(user.masks)[h.id := mask] else old(user.masks))
              && Used() == After(old(Used()), if ok then Some(Grant(h.id, mask)) else None)
    {
      user.HarqAt(h);
      ok := false;
      var nofRbg := CountRbg(h.rbgMask);
      if nofRbg < availableRbg {
        FirstFitIsFresh(Used(), nofRbg);
        var fits, mask := NewAllocation(nofRbg);
        if fits {
          UpdateAllocation(mask);
          user.SetRbgMask(h, mask);
          return true;
        }
      }
    }

    /** A retransmission on its old mask if that is free, otherwise on as many other groups. */
    method ApplyRetx(user: SchedUe, h: HarqProc) returns (ok: bool)
      requires Valid() && user.Valid() && h in user.dlHarq && h.rbgMask < Pow2(totalRbg)
      modifies this`usedRbgMask, usedRbg, user`masks, h`rbgMask
      ensures Valid() && user.Valid() && h.id < MAX_HARQ_PROC
      ensures var again := Again(old(Used()), availableRbg, old(user.masks)[h.id]);
              && ok == again.Some?
              && user.masks == (if ok then old(user.masks)[h.id := again.value] else old(user.masks))
              && Used() == After(old(Used()), if ok then Some(Grant(h.id, again.value)) else None)
    {
      user.HarqAt(h);
      Rbg.OverlapMeans(h.rbgMask, Used());
      var overlaps := AllocationIsValid(h.rbgMask);
      if overlaps {
        ok := MoveRetx(user, h);
      } else {
        UpdateAllocation(h.rbgMask);
        ok := true;
      }
    }

    /** New data on the first `want` free groups, or fewer. */
    method ApplyNewTx(user: SchedUe, h: HarqProc, want: nat) returns (ok: bool)
      requires Valid() && user.Valid() && h in user.dlHarq
      modifies this`usedRbgMask, usedRbg, user`masks, h`rbgMask
      ensures Valid() && user.Valid() && h.id < MAX_HARQ_PROC
      ensures var mask := Rbg.Mask(Rbg.FirstFree(old(Used()), want));
              && ok == (mask != 0)
              && user.masks == (if ok then old(user.masks)[h.id := mask] else old(user.masks))
              && Used() == After(old(Used()), if ok then Some(Grant(h.id, mask)) else None)
    {
      user.HarqAt(h);
      FirstFitIsFresh(Used(), want);
      var _, mask := NewAllocation(want);
      if mask != 0 {
        UpdateAllocation(mask);
        user.SetRbgMask(h, mask);
        return true;
      }
      ok := false;
    }

    method PendingRbg(user: SchedUe, reqBytes: nat) returns (want: nat)
      ensures want == GroupsFor(user.channel.approxTbs, user.nofPrb, reqBytes, nofCtrlSymbols)
    {
      want := 0;
      if reqBytes > 0 {
        var prbs := user.GetRequiredPrbDl(reqBytes, nofCtrlSymbols);
        want := Rbg.CeilDiv(prbs, Rbg.GroupSize(user.nofPrb));
      }
    }

    /** Schedules the oldest retransmission of a user if it fits. */
    method ApplyPending(user: SchedUe, ghost v: View) returns (h: HarqProc?)
      requires Valid() && user.Valid() && ViewOk(v, totalRbg)
      requires v.retx == Pending(user.procs, currentTti) && v.masks == user.masks
      modifies this`usedRbgMask, usedRbg, user`masks, user.dlHarq`rbgMask
      ensures Valid() && user.Valid()
      ensures var g := ServeRetx(old(Used()), availableRbg, v);
              Holds(user.dlHarq, user.masks, h, v, g) && Used() == After(old(Used()), g)
    {
      h := user.GetPendingDlHarq(currentTti);
      if h != null {
        var ok := ApplyRetx(user, h);
        if !ok {
          h := null;
        }
      }
    }

    /** Schedules new data of a user on its first empty process. */
    method ApplyEmpty(user: SchedUe, reqBytes: nat, ghost v: View) returns (h: HarqProc?)
      requires Valid() && user.Valid()
      requires v.empty == FirstEmptyFrom(user.procs, 0) && v.masks == user.masks
      requires v.need == GroupsFor(user.channel.approxTbs, user.nofPrb, reqBytes, nofCtrlSymbols)
      modifies this`usedRbgMask, usedRbg, user`masks, user.dlHarq`rbgMask
      ensures Valid() && user.Valid()
      ensures var g := Anew(old(Used()), v);
              Holds(user.dlHarq, user.masks, h, v, g) && Used() == After(old(Used()), g)
    {
      h := user.GetEmptyDlHarq();
      if h != null {
        var want := PendingRbg(user, reqBytes);
        var ok := ApplyNewTx(user, h, want);
        if !ok {
          h := null;
        }
      }
    }

    /** Serves one user: its oldest retransmission if that fits, otherwise new data on an empty process. */
    method ApplyUserAllocation(user: SchedUe, ghost v: View) returns (h: HarqProc?)
      requires Valid() && user.Valid()
      requires v == LookOf(user).View(user.nofPrb, currentTti, nofCtrlSymbols) && ViewOk(v, totalRbg)
      modifies this`usedRbgMask, usedRbg, user`masks, user.dlHarq`rbgMask
      ensures Valid() && user.Valid()
      ensures var g := Serve(old(Used()), availableRbg, v);
              Holds(user.dlHarq, user.masks, h, v, g) && Used() == After(old(Used()), g)
    {
      var reqBytes := user.PendingDlNewDataTotal();
      h := ApplyPending(user, v);
      if h == null {
        h := ApplyEmpty(user, reqBytes, v);
      }
    }

    method ServeUser(user: SchedUe, ghost v: View)
      requires Valid() && user.Valid()
      requires v == LookOf(user).View(user.nofPrb, currentTti, nofCtrlSymbols) && ViewOk(v, totalRbg)
      modifies this`usedRbgMask, usedRbg, user`dlNextAlloc, user`masks, user.dlHarq`rbgMask
      ensures Valid() && user.Valid()
      ensures var g := Serve(old(Used()), availableRbg, v);
              Holds(user.dlHarq, user.masks, user.dlNextAlloc, v, g) && Used() == After(old(Used()), g)
    {
      var h := ApplyUserAllocation(user, v);
      user.dlNextAlloc := h;
    }

    /** Serves user `i` and leaves all others alone. */
    method ServeOne(user: SchedUe, ghost v: View, ghost users: seq<SchedUe>, ghost i: nat)
      requires Valid() && user.Valid() && i < |users| && user == users[i]
      requires forall j {:trigger Pick(j)} | 0 <= j < |users| && j != i ::
                 users[j].Valid() && users[j].rnti != user.rnti
      requires v == LookOf(user).View(user.nofPrb, currentTti, nofCtrlSymbols) && ViewOk(v, totalRbg)
      modifies this`usedRbgMask, usedRbg, user`dlNextAlloc, user`masks, user.dlHarq`rbgMask
      ensures Valid() && user.Valid()
      ensures var g := Serve(old(Used()), availableRbg, v);
              Holds(user.dlHarq, user.masks, user.dlNextAlloc, v, g) && Used() == After(old(Used()), g)
      ensures forall j {:trigger Pick(j)} | 0 <= j < |users| && j != i ::
                users[j].Valid() && LookOf(users[j]) == old(LookOf(users[j]))
    {
      ServeUser(user, v);
      forall j | 0 <= j < |users| && j != i
        ensures users[j].Valid() && LookOf(users[j]) == old(LookOf(users[j]))
      {
        assert Pick(j);
      }
    }

    /** Serves user `i` of all users. */
    method ServeTurn(users: seq<SchedUe>, i: nat, ghost looks: seq<Look>, ghost v: View, ghost procs: set<HarqProc>)
      returns (ghost l: Look)
      requires Valid() && Apart(users, procs, true) && i < |users| && AllLook(users, looks) && looks[i].Shape()
      requires v == looks[i].View(users[i].nofPrb, currentTti, nofCtrlSymbols) && ViewOk(v, totalRbg)
      modifies this`usedRbgMask, usedRbg, users`dlNextAlloc, users`masks, procs`rbgMask
      ensures Valid() && AllLook(users, looks[i := l])
      ensures var g := Serve(old(Used()), availableRbg, v);
              Holds(users[i].dlHarq, l.masks, l.alloc, v, g) && Used() == After(old(Used()), g)
    {
      assert Pick(i);
      forall j | 0 <= j < |users| && j != i
        ensures users[j].Valid() && LookOf(users[j]) == looks[j] && users[j].rnti != users[i].rnti
      {
        assert Pick(j);
      }
      ServeOne(users[i], v, users, i);
      l := LookOf(users[i]);
      forall j | 0 <= j < |users| ensures users[j].Valid() && LookOf(users[j]) == looks[i := l][j] {
        assert Pick(j);
      }
    }

    /** The map at the start of a TTI: `start` groups are already used by broadcast and random access blocks. */
    method Begin(start: nat, free: nat, nofCtrl: nat, now: nat)
      requires Sized() && start + free <= MAX_RBG && now < TTI_PERIOD
      modifies this, usedRbg
      ensures Valid() && Used() == Reserved(start, free)
      ensures availableRbg == free && currentTti == now && nofCtrlSymbols == nofCtrl
    {
      totalRbg := start + free;
      for i := 0 to totalRbg
        invariant Sized() && totalRbg == start + free
        invariant forall k | 0 <= k < i :: usedRbg[k] == (k < start)
      {
        if i < start {
          usedRbg[i] := true;
        } else {
          usedRbg[i] := false;
        }
      }
      availableRbg := free;
      usedRbgMask := CalcRbgMask(usedRbg);
      currentTti := now;
      nofCtrlSymbols := nofCtrl;
      assert Used() == Reserved(start, free);
    }

    /** The first `count` users in turn, from number `first` on, were served, starting with the groups `used`. */
    ghost predicate Underway(users: seq<SchedUe>, before: seq<Look>, looks: seq<Look>, vs: seq<View>, first: nat,
                             count: nat, used: seq<bool>)
      reads *
    {
      && Valid() && |used| == totalRbg && |users| == |vs| && first < |users| && count <= |users|
      && AllLook(users, looks) && ViewsOk(vs, |used|)
      && var s := Served(used, availableRbg, vs, first, count);
         Used() == s.0 && Progress(users, before, looks, vs, first, s.1)
    }

    /** Serves the user that is next in turn. */
    method ServeNext(users: seq<SchedUe>, iter: nat, ghost before: seq<Look>, ghost looks: seq<Look>,
                     ghost vs: seq<View>, ghost first: nat, ghost count: nat, ghost used: seq<bool>,
                     ghost procs: set<HarqProc>) returns (ghost next: seq<Look>)
      requires Underway(users, before, looks, vs, first, count, used) && Apart(users, procs, true)
      requires Seen(users, before, vs, currentTti, nofCtrlSymbols)
      requires first < |users| && count < |users| && iter == Wrapped(first, count, |users|)
      modifies this`usedRbgMask, usedRbg, users`dlNextAlloc, users`masks, procs`rbgMask
      ensures Underway(users, before, next, vs, first, count + 1, used)
    {
      WrappedIsTurn(first, count, |users|);
      assert Pick(iter);
      ghost var s := Served(used, availableRbg, vs, first, count);
      ghost var g := Serve(Used(), availableRbg, vs[iter]);
      EachUserOnce(first, iter, count, |users|);
      assert UserAt(users, before, looks, vs, first, s.1, iter);
      ghost var l := ServeTurn(users, iter, looks, vs[iter], procs);
      ProgressStep(users, before, looks, vs, first, s.1, iter, l, g);
      next := looks[iter := l];
    }

    /** Serves all users, in turn from number `first` on. */
    method ServeFrom(users: seq<SchedUe>, first: nat, ghost before: seq<Look>, ghost vs: seq<View>,
                     ghost procs: set<HarqProc>) returns (ghost looks: seq<Look>)
      requires Sized() && Apart(users, procs, true) && Seen(users, before, vs, currentTti, nofCtrlSymbols)
      requires Underway(users, before, before, vs, first, 0, Used())
      modifies this`usedRbgMask, usedRbg, users`dlNextAlloc, users`masks, procs`rbgMask
      ensures Underway(users, before, looks, vs, first, |users|, old(Used()))
    {
      ghost var used := Used();
      looks := before;
      var iter := first;
      for count := 0 to |users|
        invariant Underway(users, before, looks, vs, first, count, used)
        invariant iter == Iterator(first, count, |users|)
      {
        if iter == |users| {
          iter := 0;
        }
        looks := ServeNext(users, iter, before, looks, vs, first, count, used, procs);
        iter := iter + 1;
      }
    }

    /** Serves all users of one TTI, in turn from number tti % |users| on. Users come in the order of their
        identities; `start` groups are already used by broadcast and random access blocks. */
    method NewTti(users: seq<SchedUe>, start: nat, free: nat, nofCtrl: nat, now: nat, ghost before: seq<Look>,
                  ghost vs: seq<View>, ghost procs: set<HarqProc>)
      returns (ghost looks: seq<Look>, ghost first: nat)
      requires Sized() && start + free <= MAX_RBG && now < TTI_PERIOD && Apart(users, procs, true)
      requires AllLook(users, before) && Seen(users, before, vs, now, nofCtrl) && ViewsOk(vs, start + free)
      modifies this, usedRbg, users`dlNextAlloc, users`masks, procs`rbgMask
      ensures Valid() && availableRbg == free && currentTti == now && nofCtrlSymbols == nofCtrl
      ensures AllLook(users, looks)
      ensures |users| == 0 ==> Used() == Reserved(start, free)
      ensures |users| > 0 ==>
                first == now % |users| && Underway(users, before, looks, vs, first, |users|, Reserved(start, free))
    {
      Begin(start, free, nofCtrl, now);
      forall i | 0 <= i < |users| ensures users[i].Valid() && LookOf(users[i]) == before[i] {
        assert Pick(i);
      }
      looks, first := before, 0;
      if |users| == 0 {
        return;
      }
      var priorityIdx := now % |users|;
      first := priorityIdx;
      assert Served(Used(), free, vs, priorityIdx, 0).1 == [];
      forall i | 0 <= i < |users| ensures UserAt(users, before, before, vs, priorityIdx, [], i) {
      }
      assert Underway(users, before, before, vs, priorityIdx, 0, Used());
      looks := ServeFrom(users, priorityIdx, before, vs, procs);
    }
  }

  /** After all users were served, user `i` holds the grant of its turn: the process that it was given carries the
      mask of the grant. */
  lemma HeldGrant(m: DlMetric, users: seq<SchedUe>, before: seq<Look>, looks: seq<Look>, vs: seq<View>, first: nat,
                  used: seq<bool>, i: nat)
    requires m.Underway(users, before, looks, vs, first, |users|, used) && i < |users|
    ensures var g := Served(used, m.availableRbg, vs, first, |users|).1[Position(first, i, |users|)];
            match g
            case None => users[i].dlNextAlloc == null
            case Some(x) => users[i].dlNextAlloc != null && users[i].dlNextAlloc in users[i].dlHarq
                            && users[i].dlNextAlloc.rbgMask == x.mask
  {
    assert Pick(i);
    var gs := Served(used, m.availableRbg, vs, first, |users|).1;
    assert UserAt(users, before, looks, vs, first, gs, i);
    assert users[i].masks == looks[i].masks && users[i].dlNextAlloc == looks[i].alloc;
  }

  /** Group `n` belongs to the process that a user was given. */
  predicate Owns(u: SchedUe, total: nat, n: nat)
    requires n < total
    reads u`dlNextAlloc, u.dlHarq`rbgMask
  {
    u.dlNextAlloc != null && u.dlNextAlloc in u.dlHarq && Bit(u.dlNextAlloc.rbgMask, total - 1 - n)
  }

  /** After all users were served no group belongs to two users, or to a user and the blocks reserved before, and the
      map of the allocator shows exactly the groups that are taken. */
  lemma AllocationsExclusive(m: DlMetric, users: seq<SchedUe>, before: seq<Look>, looks: seq<Look>, vs: seq<View>,
                             first: nat, used: seq<bool>, n: nat)
    requires m.Underway(users, before, looks, vs, first, |users|, used) && n < |used|
    ensures forall i, j | 0 <= i < j < |users| && Owns(users[i], |used|, n) :: !Owns(users[j], |used|, n)
    ensures forall i | 0 <= i < |users| && Owns(users[i], |used|, n) :: !used[n] && m.Used()[n]
    ensures m.Used()[n] ==> used[n] || exists i :: 0 <= i < |users| && Owns(users[i], |used|, n)
  {
    GrantsExclusive(used, m.availableRbg, vs, first, |users|);
    var gs := Served(used, m.availableRbg, vs, first, |users|).1;
    forall i | 0 <= i < |users|
      ensures Owns(users[i], |used|, n) == Takes(gs[Position(first, i, |users|)], |used|, n)
    {
      HeldGrant(m, users, before, looks, vs, first, used, i);
    }
    if m.Used()[n] && !used[n] {
      assert TakenBySome(gs, |used|, n);
      var k :| 0 <= k < |gs| && Takes(gs[k], |used|, n);
      var i := Turn(first, k, |users|);
      EachUserOnce(first, i, k, |users|);
      assert Owns(users[i], |used|, n);
    }
    forall i | 0 <= i < |users| && Owns(users[i], |used|, n) ensures !used[n] && m.Used()[n] {
      assert TakenBySome(gs, |used|, n);
    }
  }

  /** A user that looks like `l` was given the process of the grant, if any, which now has its mask, and all others have
      the masks that they had before. */
  predicate Carries(hs: seq<HarqProc>, before: seq<nat>, l: Look, g: Option<Grant>) {
    match g
    case None => l.alloc == null && l.masks == before
    case Some(x) =>
      x.pid < |hs| == |before| && l.alloc == hs[x.pid] && l.alloc.id == x.pid && l.masks == before[x.pid := x.mask]
  }

  /** Of `total` groups none is in two masks, and the first `start` are in none. */
  ghost predicate MasksApart(ms: seq<Option<Grant>>, start: nat, total: nat) {
    && (forall i, j, n | 0 <= i < j < |ms| && 0 <= n < total :: !(Takes(ms[i], total, n) && Takes(ms[j], total, n)))
    && forall i, n | 0 <= i < |ms| && 0 <= n < total && n < start :: !Takes(ms[i], total, n)
  }

  /** The grants in the order of users. */
  function ByUser(gs: seq<Option<Grant>>, first: nat, n: nat): (ms: seq<Option<Grant>>)
    requires first < n == |gs|
    ensures |ms| == n && forall i | 0 <= i < n :: ms[i] == gs[Position(first, i, n)]
  {
    seq(n, i requires 0 <= i < n => gs[Position(first, i, n)])
  }

  lemma GrantMasksApart(used: seq<bool>, gs: seq<Option<Grant>>, first: nat, start: nat)
    requires first < |gs| && Exclusive(used, gs) && forall n | 0 <= n < |used| && n < start :: used[n]
    ensures MasksApart(ByUser(gs, first, |gs|), start, |used|)
  {
    var ms, total := ByUser(gs, first, |gs|), |used|;
    forall i, n | 0 <= i < |ms| && 0 <= n < total
      ensures Takes(ms[i], total, n) == Takes(gs[Position(first, i, |gs|)], total, n)
    {
    }
    forall i, j, n | 0 <= i < j < |ms| && 0 <= n < total ensures !(Takes(ms[i], total, n) && Takes(ms[j], total, n)) {
      var a, b := Position(first, i, |gs|), Position(first, j, |gs|);
      assert a != b;
      assert Takes(ms[i], total, n) == Takes(gs[a], total, n) && Takes(ms[j], total, n) == Takes(gs[b], total, n);
    }
    forall i, n | 0 <= i < |ms| && 0 <= n < total && n < start ensures !Takes(ms[i], total, n) {
      assert used[n] && !Takes(gs[Position(first, i, |gs|)], total, n);
    }
  }

  lemma ServedApart(m: DlMetric, users: seq<SchedUe>, before: seq<Look>, looks: seq<Look>, vs: seq<View>,
                    first: nat, start: nat, free: nat) returns (ms: seq<Option<Grant>>)
    requires m.availableRbg == free && m.Underway(users, before, looks, vs, first, |users|, Reserved(start, free))
    ensures ms == ByUser(Served(Reserved(start, free), free, vs, first, |users|).1, first, |users|)
    ensures MasksApart(ms, start, start + free)
    ensures forall i | 0 <= i < |users| :: Carries(users[i].dlHarq, vs[i].masks, looks[i], ms[i])
  {
    var used := Reserved(start, free);
    GrantsExclusive(used, free, vs, first, |users|);
    var gs := Served(used, free, vs, first, |users|).1;
    ms := ByUser(gs, first, |users|);
    GrantMasksApart(used, gs, first, start);
    forall i | 0 <= i < |users| ensures Carries(users[i].dlHarq, vs[i].masks, looks[i], ms[i]) {
      assert Pick(i);
      assert UserAt(users, before, looks, vs, first, gs, i);
    }
  }

  /** All masks of all processes name groups of the carrier only. */
  ghost predicate MasksBounded(users: seq<SchedUe>, total: nat)
    reads users`masks
  {
    forall i {:trigger Pick(i)} | 0 <= i < |users| ::
      forall k | 0 <= k < |users[i].masks| :: users[i].masks[k] < Pow2(total)
  }

  lemma MasksStayBounded(m: DlMetric, users: seq<SchedUe>, before: seq<Look>, looks: seq<Look>, vs: seq<View>,
                         first: nat, used: seq<bool>)
    requires m.Underway(users, before, looks, vs, first, |users|, used)
    ensures MasksBounded(users, |used|)
  {
    GrantsExclusive(used, m.availableRbg, vs, first, |users|);
    var gs := Served(used, m.availableRbg, vs, first, |users|).1;
    forall i | 0 <= i < |users|
      ensures forall k | 0 <= k < |users[i].masks| :: users[i].masks[k] < Pow2(|used|)
    {
      assert Pick(i);
      assert UserAt(users, before, looks, vs, first, gs, i);
      assert ViewOk(vs[i], |used|);
      assert users[i].masks == looks[i].masks;
    }
  }

  /** The process that a user was given is the one with its oldest retransmission or its first empty one. */
  lemma GivenProcess(m: DlMetric, users: seq<SchedUe>, before: seq<Look>, looks: seq<Look>, vs: seq<View>,
                     first: nat, used: seq<bool>, i: nat, now: nat, nofCtrl: nat)
    requires m.Underway(users, before, looks, vs, first, |users|, used) && i < |users|
    requires now < TTI_PERIOD && Seen(users, before, vs, now, nofCtrl)
    ensures users[i].Valid() && before[i].Shape()
    ensures users[i].dlNextAlloc != null ==>
              && users[i].dlNextAlloc in users[i].dlHarq
              && (Pending(before[i].procs, now) == Some(users[i].dlNextAlloc.id)
                  || FirstEmptyFrom(before[i].procs, 0) == Some(users[i].dlNextAlloc.id))
  {
    assert Pick(i);
    var k := Position(first, i, |users|);
    EachUserOnce(first, i, k, |users|);
    GrantedProcess(used, m.availableRbg, vs, first, |users|, k);
    var gs := Served(used, m.availableRbg, vs, first, |users|).1;
    assert UserAt(users, before, looks, vs, first, gs, i);
    assert looks[i].alloc == users[i].dlNextAlloc;
  }
}
