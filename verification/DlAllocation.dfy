/** The downlink allocator as a function: users are served one after the other, each gets a mask of resource block
    groups (RBGs) for one HARQ process or nothing. */
module DlAllocation {
  import opened Bits
  import opened DlProcs
  import opened Modular
  import opened Tti
  import Rbg

  /** What the allocator sees of a user: the process with the oldest pending retransmission, the masks of all
      processes, the first empty process and the RBGs that its queued data needs (0 if there is none). */
  datatype View = View(retx: Option<nat>, masks: seq<nat>, empty: Option<nat>, need: nat)

  datatype Grant = Grant(pid: nat, mask: nat)

  predicate ViewOk(v: View, total: nat) {
    && (v.retx.Some? ==> v.retx.value < |v.masks|)
    && forall i | 0 <= i < |v.masks| :: v.masks[i] < Pow2(total)
  }

  predicate ViewsOk(vs: seq<View>, total: nat) {
    forall i | 0 <= i < |vs| :: ViewOk(vs[i], total)
  }

  /** The mask for a retransmission: the old one if it is free, otherwise as many other groups. `budget` is the number
      of groups that were free before the first user was served. */
  function Again(used: seq<bool>, budget: nat, mask: nat): Option<nat> {
    if And(mask, Rbg.Mask(used)) == 0 then Some(mask)
    else
      var n := PopCount(mask);
      if n < budget && n <= Rbg.NofFree(used) then Some(Rbg.Mask(Rbg.FirstFree(used, n))) else None
  }

  /** The mask for new data: the first groups that are free, fewer than wanted if need be. */
  function Anew(used: seq<bool>, v: View): Option<Grant> {
    var mask := Rbg.Mask(Rbg.FirstFree(used, v.need));
    if v.empty.Some? && mask != 0 then Some(Grant(v.empty.value, mask)) else None
  }

  function ServeRetx(used: seq<bool>, budget: nat, v: View): Option<Grant>
    requires v.retx.Some? ==> v.retx.value < |v.masks|
  {
    var again := if v.retx.Some? then Again(used, budget, v.masks[v.retx.value]) else None;
    if again.Some? then Some(Grant(v.retx.value, again.value)) else None
  }

  /** A retransmission goes first; if there is none or it finds no room, the user gets new data on its way. */
  function Serve(used: seq<bool>, budget: nat, v: View): Option<Grant>
    requires v.retx.Some? ==> v.retx.value < |v.masks|
  {
    var again := ServeRetx(used, budget, v);
    if again.Some? then again else Anew(used, v)
  }

  function After(used: seq<bool>, g: Option<Grant>): (r: seq<bool>)
    ensures |r| == |used|
  {
    if g.None? then used else Rbg.Selection(Or(Rbg.Mask(used), g.value.mask), |used|)
  }

  /** The position served as number `k` when position `first` of `n` comes first. */
  function Turn(first: nat, k: nat, n: nat): (i: nat)
    requires first < n && k < n
    ensures i < n
  {
    if first + k < n then first + k else first + k - n
  }

  /** Where an iterator that started at `first` stands after `k` steps; it is wrapped only when it is used. */
  function Iterator(first: nat, k: nat, n: nat): (i: nat)
    decreases k, 0
  {
    if k == 0 then first else Wrapped(first, k - 1, n) + 1
  }

  function Wrapped(first: nat, k: nat, n: nat): (i: nat)
    decreases k, 1
  {
    if Iterator(first, k, n) == n then 0 else Iterator(first, k, n)
  }

  /** The iterator visits the users in turn. */
  lemma {:induction false} WrappedIsTurn(first: nat, k: nat, n: nat)
    requires first < n && k < n
    ensures Wrapped(first, k, n) == Turn(first, k, n)
  {
    if k > 0 { WrappedIsTurn(first, k - 1, n); }
  }

  /** The groups in use and the grants, in the order of service, after the first `k` users. */
  function Served(used: seq<bool>, budget: nat, vs: seq<View>, first: nat, k: nat): (r: (seq<bool>, seq<Option<Grant>>))
    requires first < |vs| && k <= |vs| && ViewsOk(vs, |used|)
    ensures |r.0| == |used| && |r.1| == k
  {
    if k == 0 then (used, [])
    else
      var (u, gs) := Served(used, budget, vs, first, k - 1);
      var g := Serve(u, budget, vs[Turn(first, k - 1, |vs|)]);
      (After(u, g), gs + [g])
  }

  /** A grant's mask names groups of the carrier only, and none of those in use. */
  predicate FreshMask(used: seq<bool>, g: Option<Grant>) {
    g.Some? ==> g.value.mask < Pow2(|used|) && And(g.value.mask, Rbg.Mask(used)) == 0
  }

  /** Group `n` of `total` belongs to the grant. */
  predicate Takes(g: Option<Grant>, total: nat, n: nat)
    requires n < total
  {
    g.Some? && Bit(g.value.mask, total - 1 - n)
  }

  lemma FirstFitIsFresh(used: seq<bool>, want: nat)
    ensures Rbg.Mask(Rbg.FirstFree(used, want)) < Pow2(|used|)
    ensures And(Rbg.Mask(Rbg.FirstFree(used, want)), Rbg.Mask(used)) == 0
  {
    Rbg.FirstFreeIsFirstFit(used, want);
    Rbg.MaskBelow(Rbg.FirstFree(used, want));
    Rbg.MasksDisjoint(Rbg.FirstFree(used, want), used);
  }

  lemma ServeIsFresh(used: seq<bool>, budget: nat, v: View)
    requires ViewOk(v, |used|)
    ensures FreshMask(used, Serve(used, budget, v))
  {
    FirstFitIsFresh(used, v.need);
    if v.retx.Some? { FirstFitIsFresh(used, PopCount(v.masks[v.retx.value])); }
  }

  /** A new grant takes groups that were free, and afterwards exactly those are in use in addition. */
  lemma FreshTakes(used: seq<bool>, g: Option<Grant>, n: nat)
    requires FreshMask(used, g) && n < |used|
    ensures Takes(g, |used|, n) ==> !used[n]
    ensures After(used, g)[n] <==> used[n] || Takes(g, |used|, n)
  {
    var k := |used| - 1 - n;
    Rbg.MaskBit(used, n);
    if g.Some? {
      AndBit(g.value.mask, Rbg.Mask(used), k);
      ZeroBit(k);
      OrBit(Rbg.Mask(used), g.value.mask, k);
    }
  }

  /** No group belongs to two of the grants or to a grant and the initial reservation. */
  ghost predicate Exclusive(used: seq<bool>, gs: seq<Option<Grant>>) {
    && (forall i, n | 0 <= i < |gs| && 0 <= n < |used| && used[n] :: !Takes(gs[i], |used|, n))
    && forall i, j, n | 0 <= i < j < |gs| && 0 <= n < |used| && Takes(gs[i], |used|, n) :: !Takes(gs[j], |used|, n)
  }

  ghost predicate TakenBySome(gs: seq<Option<Grant>>, total: nat, n: nat)
    requires n < total
  {
    exists i | 0 <= i < |gs| :: Takes(gs[i], total, n)
  }

  /** What is in use is the initial reservation and the grants, nothing else. */
  ghost predicate Accounts(used: seq<bool>, gs: seq<Option<Grant>>, now: seq<bool>)
    requires |now| == |used|
  {
    forall n | 0 <= n < |used| :: now[n] <==> used[n] || TakenBySome(gs, |used|, n)
  }

  ghost predicate WithinCarrier(gs: seq<Option<Grant>>, total: nat) {
    forall i | 0 <= i < |gs| && gs[i].Some? :: gs[i].value.mask < Pow2(total)
  }

  lemma TakenStep(gs: seq<Option<Grant>>, g: Option<Grant>, total: nat, n: nat)
    requires n < total
    ensures TakenBySome(gs + [g], total, n) <==> TakenBySome(gs, total, n) || Takes(g, total, n)
  {
    var hs := gs + [g];
    if TakenBySome(gs, total, n) {
      var i :| 0 <= i < |gs| && Takes(gs[i], total, n);
      assert hs[i] == gs[i];
    }
    assert hs[|gs|] == g;
  }

  lemma OneMore(used: seq<bool>, gs: seq<Option<Grant>>, now: seq<bool>, g: Option<Grant>)
    requires |now| == |used| && Exclusive(used, gs) && Accounts(used, gs, now) && FreshMask(now, g)
    ensures Exclusive(used, gs + [g]) && Accounts(used, gs + [g], After(now, g))
  {
    forall n | 0 <= n < |used|
      ensures After(now, g)[n] <==> used[n] || TakenBySome(gs + [g], |used|, n)
      ensures Takes(g, |used|, n) ==> !used[n] && !TakenBySome(gs, |used|, n)
    {
      FreshTakes(now, g, n);
      TakenStep(gs, g, |used|, n);
    }
  }

  /** Whatever the users want and whoever comes first, no RBG is given to two users or taken from the broadcast and
      random access blocks, and the allocator's map is exact. */
  lemma {:induction false} GrantsExclusive(used: seq<bool>, budget: nat, vs: seq<View>, first: nat, k: nat)
    requires first < |vs| && k <= |vs| && ViewsOk(vs, |used|)
    ensures var (now, gs) := Served(used, budget, vs, first, k);
            Exclusive(used, gs) && Accounts(used, gs, now) && WithinCarrier(gs, |used|)
  {
    if k > 0 {
      GrantsExclusive(used, budget, vs, first, k - 1);
      var (u, gs) := Served(used, budget, vs, first, k - 1);
      var v := vs[Turn(first, k - 1, |vs|)];
      ServeIsFresh(u, budget, v);
      OneMore(used, gs, u, Serve(u, budget, v));
    }
  }

  /** The grant of the user that is served as number `m`. */
  lemma {:induction false} ServedAt(used: seq<bool>, budget: nat, vs: seq<View>, first: nat, k: nat, m: nat)
    requires first < |vs| && m < k <= |vs| && ViewsOk(vs, |used|)
    ensures Served(used, budget, vs, first, k).1[m]
         == Serve(Served(used, budget, vs, first, m).0, budget, vs[Turn(first, m, |vs|)])
  {
    var before := Served(used, budget, vs, first, k - 1);
    var g := Serve(before.0, budget, vs[Turn(first, k - 1, |vs|)]);
    assert Served(used, budget, vs, first, k).1 == before.1 + [g];
    if m < k - 1 { ServedAt(used, budget, vs, first, k - 1, m); }
  }

  lemma ServeChooses(used: seq<bool>, budget: nat, v: View)
    requires ViewOk(v, |used|)
    ensures var g := Serve(used, budget, v);
            g.Some? ==> v.retx == Some(g.value.pid) || v.empty == Some(g.value.pid)
  {
  }

  /** A grant is for the process with the oldest retransmission or for the first empty one. */
  lemma GrantedProcess(used: seq<bool>, budget: nat, vs: seq<View>, first: nat, k: nat, m: nat)
    requires first < |vs| && m < k <= |vs| && ViewsOk(vs, |used|)
    ensures var g := Served(used, budget, vs, first, k).1[m];
            var v := vs[Turn(first, m, |vs|)];
            g.Some? ==> v.retx == Some(g.value.pid) || v.empty == Some(g.value.pid)
  {
    ServedAt(used, budget, vs, first, k, m);
    ServeChooses(Served(used, budget, vs, first, m).0, budget, vs[Turn(first, m, |vs|)]);
  }

  // ---- What a user gets

  /** The number of groups that a mask names. */
  function SizeOf(mask: nat, total: nat): nat {
    Rbg.CountTrue(Rbg.Selection(mask, total))
  }

  /** The mask names `n` groups, all of them free, and no free group below one of them is left out. */
  predicate LowestFree(used: seq<bool>, mask: nat, n: nat) {
    var sel := Rbg.Selection(mask, |used|);
    && SizeOf(mask, |used|) == n && (forall a | 0 <= a < |used| && sel[a] :: !used[a])
    && forall a, b | 0 <= a < b < |used| && sel[b] && !used[a] :: sel[a]
  }

  function Least(a: nat, b: nat): nat {
    if a < b then a else b
  }

  lemma FirstFitIsLowest(used: seq<bool>, want: nat)
    ensures LowestFree(used, Rbg.Mask(Rbg.FirstFree(used, want)), Least(want, Rbg.NofFree(used)))
  {
    Rbg.FirstFreeIsFirstFit(used, want);
    Rbg.SelectionOfMask(Rbg.FirstFree(used, want));
  }

  /** A retransmission that lost one of its groups can be moved: it had fewer groups than were free in the beginning,
      and as many are free. */
  predicate Movable(used: seq<bool>, budget: nat, mask: nat) {
    SizeOf(mask, |used|) < budget && SizeOf(mask, |used|) <= Rbg.NofFree(used)
  }

  /** What a user gets if the groups `used` are taken at its turn and `budget` were free in the beginning. Its oldest
      retransmission goes out on its old groups if none of them is taken, otherwise on as many, the lowest free ones, if
      it can be moved. If not, or if there is none, the first empty process gets as many of the lowest free groups as
      the data needs, or as there are. */
  predicate ServedRight(used: seq<bool>, budget: nat, v: View, g: Option<Grant>)
    requires ViewOk(v, |used|)
  {
    var retx := v.retx.Some?;
    var mask := if retx then v.masks[v.retx.value] else 0;
    if retx && !Rbg.NamesUsed(mask, used) then g == Some(Grant(v.retx.value, mask))
    else if retx && Movable(used, budget, mask) then
      g.Some? && g.value.pid == v.retx.value && LowestFree(used, g.value.mask, SizeOf(mask, |used|))
    else if v.empty.Some? && v.need > 0 && Rbg.NofFree(used) > 0 then
      g.Some? && g.value.pid == v.empty.value && LowestFree(used, g.value.mask, Least(v.need, Rbg.NofFree(used)))
    else g.None?
  }

  lemma {:induction false} MaskNonZero(sel: seq<bool>)
    ensures Rbg.Mask(sel) == 0 <==> Rbg.CountTrue(sel) == 0
  {
    if |sel| > 0 { MaskNonZero(sel[..|sel| - 1]); }
  }

  lemma AgainIsRight(used: seq<bool>, budget: nat, mask: nat)
    requires mask < Pow2(|used|)
    ensures var g := Again(used, budget, mask);
            if !Rbg.NamesUsed(mask, used) then g == Some(mask)
            else if Movable(used, budget, mask)
            then g.Some? && LowestFree(used, g.value, SizeOf(mask, |used|))
            else g.None?
  {
    Rbg.OverlapMeans(mask, used);
    Rbg.MaskOfSelection(mask, |used|);
    Rbg.PopCountMask(Rbg.Selection(mask, |used|));
    FirstFitIsLowest(used, SizeOf(mask, |used|));
  }

  lemma AnewIsRight(used: seq<bool>, v: View)
    ensures var g := Anew(used, v);
            if v.empty.Some? && v.need > 0 && Rbg.NofFree(used) > 0
            then g.Some? && g.value.pid == v.empty.value
                 && LowestFree(used, g.value.mask, Least(v.need, Rbg.NofFree(used)))
            else g.None?
  {
    Rbg.FirstFreeIsFirstFit(used, v.need);
    MaskNonZero(Rbg.FirstFree(used, v.need));
    FirstFitIsLowest(used, v.need);
  }

  lemma ServeIsRight(used: seq<bool>, budget: nat, v: View)
    requires ViewOk(v, |used|)
    ensures ServedRight(used, budget, v, Serve(used, budget, v))
  {
    if v.retx.Some? { AgainIsRight(used, budget, v.masks[v.retx.value]); }
    AnewIsRight(used, v);
  }

  /** The grants of the first `k` users served. */
  lemma {:induction false} ServedPrefix(used: seq<bool>, budget: nat, vs: seq<View>, first: nat, k: nat, n: nat)
    requires first < |vs| && k <= n <= |vs| && ViewsOk(vs, |used|)
    ensures Served(used, budget, vs, first, k).1 == Served(used, budget, vs, first, n).1[..k]
  {
    if k < n {
      ServedPrefix(used, budget, vs, first, k, n - 1);
      var s := Served(used, budget, vs, first, n - 1);
      assert Served(used, budget, vs, first, n).1[..n - 1] == s.1;
    }
  }

  /** At the turn of the user that is served as number `k` exactly those groups are taken that were reserved or went to
      users served before, and the user gets what it should on top of them. */
  lemma TurnIsRight(used: seq<bool>, budget: nat, vs: seq<View>, first: nat, k: nat)
    requires first < |vs| && k < |vs| && ViewsOk(vs, |used|)
    ensures var gs, now := Served(used, budget, vs, first, |vs|).1, Served(used, budget, vs, first, k).0;
            && (forall n | 0 <= n < |used| :: now[n] <==> used[n] || TakenBySome(gs[..k], |used|, n))
            && ServedRight(now, budget, vs[Turn(first, k, |vs|)], gs[k])
  {
    GrantsExclusive(used, budget, vs, first, k);
    ServedPrefix(used, budget, vs, first, k, |vs|);
    ServedAt(used, budget, vs, first, |vs|, k);
    ServeIsRight(Served(used, budget, vs, first, k).0, budget, vs[Turn(first, k, |vs|)]);
  }

  // ---- Down to physical resource blocks (PRBs)

  /** PRB `x` is addressed by the grant, for groups of `p` PRBs on a carrier of `nofPrb`. */
  predicate UsesPrb(g: Option<Grant>, total: nat, p: nat, nofPrb: nat, x: nat)
    requires p > 0 && total * p >= nofPrb && x < nofPrb
  {
    g.Some? && Rbg.Prbs(Rbg.Selection(g.value.mask, total), p, nofPrb)[x]
  }

  lemma PrbIsInGroup(g: Option<Grant>, total: nat, p: nat, nofPrb: nat, x: nat)
    requires p > 0 && total * p >= nofPrb && x < nofPrb
    ensures x / p < total && (UsesPrb(g, total, p, nofPrb, x) <==> Takes(g, total, x / p))
  {
    Rbg.GroupBound(x, p, total);
  }

  /** A PRB addressed by one grant is addressed by no other, and lies in no group that was reserved before. */
  lemma PrbsExclusive(used: seq<bool>, gs: seq<Option<Grant>>, p: nat, nofPrb: nat, i: nat, x: nat)
    requires p > 0 && |used| * p >= nofPrb && x < nofPrb && i < |gs|
    requires Exclusive(used, gs) && UsesPrb(gs[i], |used|, p, nofPrb, x)
    ensures x / p < |used| && !used[x / p]
    ensures forall j | 0 <= j < |gs| && j != i :: !UsesPrb(gs[j], |used|, p, nofPrb, x)
  {
    PrbIsInGroup(gs[i], |used|, p, nofPrb, x);
    forall j | 0 <= j < |gs| && j != i ensures !UsesPrb(gs[j], |used|, p, nofPrb, x) {
      PrbIsInGroup(gs[j], |used|, p, nofPrb, x);
    }
  }

  /** The first `start` of all groups are reserved. */
  function Reserved(start: nat, free: nat): (used: seq<bool>)
    ensures |used| == start + free
  {
    seq(start + free, n => n < start)
  }

  lemma {:induction false} NofFreeReserved(used: seq<bool>, start: nat)
    requires start <= |used| && forall n | 0 <= n < |used| :: used[n] == (n < start)
    ensures Rbg.NofFree(used) == |used| - start
  {
    if |used| > 0 { NofFreeReserved(used[1..], if start > 0 then start - 1 else 0); }
  }

  /** PRBs of the reserved blocks, `start` groups from PRB 0 on, are addressed by no user. */
  lemma BlocksApart(start: nat, free: nat, gs: seq<Option<Grant>>, p: nat, nofPrb: nat, i: nat, x: nat)
    requires p > 0 && (start + free) * p >= nofPrb && x < nofPrb && x < start * p && i < |gs|
    requires Exclusive(Reserved(start, free), gs)
    ensures !UsesPrb(gs[i], start + free, p, nofPrb, x)
  {
    var used := Reserved(start, free);
    Rbg.GroupBound(x, p, start);
    if UsesPrb(gs[i], |used|, p, nofPrb, x) {
      PrbsExclusive(used, gs, p, nofPrb, i, x);
    }
  }

  // ---- Round robin

  /** When user `i` of `n` is served if user `first` comes first. */
  function Position(first: nat, i: nat, n: nat): (k: nat)
    requires first < n && i < n
    ensures k < n
  {
    if i >= first then i - first else i + n - first
  }

  /** The grant of user `i` in a TTI in which the user at position `first` comes first. */
  function GrantOf(used: seq<bool>, budget: nat, vs: seq<View>, first: nat, i: nat): Option<Grant>
    requires first < |vs| && i < |vs| && ViewsOk(vs, |used|)
  {
    Served(used, budget, vs, first, |vs|).1[Position(first, i, |vs|)]
  }

  /** Turn and position are inverse: in every TTI each user is served exactly once. */
  lemma EachUserOnce(first: nat, i: nat, k: nat, n: nat)
    requires first < n && i < n && k < n
    ensures Turn(first, k, n) == i <==> k == Position(first, i, n)
  {
  }

  /** The oldest pending retransmission is on a process whose mask is empty: no group was ever given to it. */
  predicate EmptyRetx(v: View) {
    v.retx.Some? && v.retx.value < |v.masks| && v.masks[v.retx.value] == 0
  }

  lemma FirstFitNonZero(used: seq<bool>, want: nat)
    requires want > 0 && Rbg.NofFree(used) > 0
    ensures Rbg.Mask(Rbg.FirstFree(used, want)) != 0
  {
    Rbg.FirstFreeIsFirstFit(used, want);
    MaskNonZero(Rbg.FirstFree(used, want));
  }

  lemma {:induction false} BitsCount(m: nat, k: nat)
    requires Bit(m, k)
    ensures PopCount(m) > 0
  {
    if k > 0 { BitsCount(m / 2, k - 1); }
  }

  /** Only the empty mask has no bits, and it overlaps nothing. */
  lemma ZeroMask(m: nat, n: nat)
    ensures And(0, n) == 0 && (PopCount(m) == 0 <==> m == 0)
  {
    if m > 0 {
      var k := SomeBit(m);
      BitsCount(m, k);
    }
  }

  /** A user is given a process without any group exactly if it waits to repeat what went out on an empty mask. */
  lemma EmptyGrantIff(used: seq<bool>, budget: nat, v: View)
    requires ViewOk(v, |used|)
    ensures Serve(used, budget, v).Some? && Serve(used, budget, v).value.mask == 0 <==> EmptyRetx(v)
  {
    if v.retx.Some? {
      var mask := v.masks[v.retx.value];
      ZeroMask(mask, Rbg.Mask(used));
      if 0 < PopCount(mask) <= Rbg.NofFree(used) { FirstFitNonZero(used, PopCount(mask)); }
    }
  }

  /** A user that is served while some group is free, and has data and an empty process, is granted something. It is
      granted some group exactly if it does not wait to repeat what went out on an empty mask. */
  lemma ServedIfRoom(used: seq<bool>, budget: nat, v: View)
    requires ViewOk(v, |used|) && v.empty.Some? && v.need > 0 && Rbg.NofFree(used) > 0
    ensures Serve(used, budget, v).Some?
    ensures Serve(used, budget, v).value.mask != 0 <==> !EmptyRetx(v)
  {
    FirstFitNonZero(used, v.need);
    EmptyGrantIff(used, budget, v);
  }

  /** One TTI of the allocator: the groups reserved for broadcast and random access, all users, and who comes first. */
  datatype Round = Round(used: seq<bool>, budget: nat, users: seq<View>, first: nat)

  /** There is room left, and user `i` of `n` has data and an empty process. */
  predicate Waiting(r: Round, n: nat, i: nat) {
    && |r.users| == n && i < n && r.first < n && ViewsOk(r.users, |r.used|)
    && Rbg.NofFree(r.used) > 0 && r.users[i].empty.Some? && r.users[i].need > 0
  }

  /** User `i` is given a process to send on. */
  predicate Assigned(r: Round, i: nat) {
    && i < |r.users| && r.first < |r.users| && ViewsOk(r.users, |r.used|)
    && GrantOf(r.used, r.budget, r.users, r.first, i).Some?
  }

  /** User `i` is given at least one group. */
  predicate Granted(r: Round, i: nat) {
    Assigned(r, i) && GrantOf(r.used, r.budget, r.users, r.first, i).value.mask != 0
  }

  /** User `i` waits to repeat what went out on an empty mask. */
  predicate RepeatsNothing(r: Round, i: nat) {
    i < |r.users| && EmptyRetx(r.users[i])
  }

  lemma ResidueAt(t: nat, n: nat, i: nat)
    requires i < n
    ensures (t + Position(t % n, i, n)) % n == i
  {
    var q, r, k := t / n, t % n, Position(t % n, i, n);
    Decompose(t, n);
    if i >= r {
      DivMod(t + k, q, i, n);
    } else {
      assert (q + 1) * n == q * n + n;
      DivMod(t + k, q + 1, i, n);
    }
  }

  /** In `n` consecutive TTIs each of `n` users comes first exactly once. */
  lemma FirstExactlyOnce(t: nat, n: nat, i: nat, k: nat)
    requires i < n && k < n
    ensures (t + k) % n == i <==> k == Position(t % n, i, n)
  {
    ResidueAt(t, n, i);
    if (t + k) % n == i {
      var m := Position(t % n, i, n);
      if m <= k { CloseDiffer(t + m, t + k, n); } else { CloseDiffer(t + k, t + m, n); }
    }
  }

  /** Whoever comes first is given a process if anything is left, and a group unless it waits to repeat what went out
      on an empty mask. */
  lemma FirstIsServed(r: Round, i: nat)
    requires Waiting(r, |r.users|, i) && r.first == i
    ensures Assigned(r, i)
    ensures Granted(r, i) <==> !RepeatsNothing(r, i)
  {
    ServedAt(r.used, r.budget, r.users, i, |r.users|, 0);
    ServedIfRoom(r.used, r.budget, r.users[i]);
    assert Position(i, i, |r.users|) == 0;
  }

  /** A user of `n` that keeps data and an empty process comes first within `n` TTIs, and is then given a process, and
      a group unless it waits to repeat what went out on an empty mask. This is as long as the TTI counter does
      not wrap and something is left in each TTI. The TTIs are `t` and those after it, in the rounds from `from` on. */
  lemma GrantWithin(t: nat, rounds: seq<Round>, from: nat, n: nat, i: nat) returns (k: nat)
    requires from + n <= |rounds| && i < n && t + n <= TTI_PERIOD
    requires forall m | from <= m < from + n :: Waiting(rounds[m], n, i) && rounds[m].first == (t + (m - from)) % n
    ensures from <= k < from + n && rounds[k].first == i
    ensures Assigned(rounds[k], i)
    ensures Granted(rounds[k], i) <==> !RepeatsNothing(rounds[k], i)
  {
    var d := Position(t % n, i, n);
    FirstExactlyOnce(t, n, i, d);
    k := from + d;
    FirstIsServed(rounds[k], i);
  }

  lemma AfterWrap(t: nat, m: nat, w: nat)
    requires t < TTI_PERIOD && w <= m
    requires if w == 0 then t + m < TTI_PERIOD else w == TTI_PERIOD - t && m - w < TTI_PERIOD
    ensures (t + m) % TTI_PERIOD == if w == 0 then t + m else m - w
  {
  }

  /** Across a wrap the order of service jumps, but 2n-1 TTIs are always enough. */
  lemma GrantWithinWrap(t: nat, rounds: seq<Round>, n: nat, i: nat) returns (k: nat)
    requires t < TTI_PERIOD && n <= TTI_PERIOD && |rounds| == 2 * n - 1 && i < n
    requires forall m | 0 <= m < 2 * n - 1 ::
               Waiting(rounds[m], n, i) && rounds[m].first == ((t + m) % TTI_PERIOD) % n
    ensures k < 2 * n - 1 && rounds[k].first == i
    ensures Assigned(rounds[k], i)
    ensures Granted(rounds[k], i) <==> !RepeatsNothing(rounds[k], i)
  {
    var w := if t + n <= TTI_PERIOD then 0 else TTI_PERIOD - t;
    var s := if w == 0 then t else 0;
    forall m | w <= m < w + n ensures Waiting(rounds[m], n, i) && rounds[m].first == (s + (m - w)) % n {
      AfterWrap(t, m, w);
    }
    k := GrantWithin(s, rounds, w, n, i);
  }
}
