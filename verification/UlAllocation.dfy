/** The uplink allocator as functions: contiguous allocations of physical resource blocks (RBs), first the users with a
    block to send again, then the others. */
module UlAllocation {
  import opened Harq
  import opened DlProcs
  import DlAllocation

  /** Lengths allowed by transform precoding: 2^a * 3^b * 5^c (section 5.3.3 of 3GPP TS 36.211). */
  predicate DftValid(n: nat) {
    if n <= 1 then n == 1
    else if n % 2 == 0 then DftValid(n / 2)
    else if n % 3 == 0 then DftValid(n / 3)
    else n % 5 == 0 && DftValid(n / 5)
  }

  function Pow(b: nat, k: nat): nat {
    if k == 0 then 1 else b * Pow(b, k - 1)
  }

  function Product(a: nat, b: nat, c: nat): nat {
    Pow(2, a) * Pow(3, b) * Pow(5, c)
  }

  /** The largest allowed length up to `n`. */
  function DftFloor(n: nat): (r: nat)
    requires n > 0
    ensures 0 < r <= n && DftValid(r)
    ensures forall m | r < m <= n :: !DftValid(m)
  {
    if DftValid(n) then n else DftFloor(n - 1)
  }

  lemma Swap(p: nat, w: nat, z: nat)
    ensures (p * w) * z == p * (w * z) && w * (p * z) == p * (w * z)
  {
  }

  lemma Regroup(p: nat, x: nat, y: nat, z: nat)
    ensures (p * x) * y * z == p * (x * y * z)
    ensures x * (p * y) * z == p * (x * y * z)
    ensures x * y * (p * z) == p * (x * y * z)
  {
    var xy := x * y;
    assert (p * x) * y == p * xy && x * (p * y) == p * xy;
    Swap(p, xy, z);
  }

  /** The allowed lengths are exactly the products of powers of 2, 3 and 5. */
  lemma {:induction false} DftFactors(n: nat) returns (a: nat, b: nat, c: nat)
    requires DftValid(n)
    ensures n == Product(a, b, c)
  {
    if n == 1 {
      a, b, c := 0, 0, 0;
    } else if n % 2 == 0 {
      a, b, c := DftFactors(n / 2);
      a := a + 1;
      Regroup(2, Pow(2, a - 1), Pow(3, b), Pow(5, c));
    } else if n % 3 == 0 {
      a, b, c := DftFactors(n / 3);
      b := b + 1;
      Regroup(3, Pow(2, a), Pow(3, b - 1), Pow(5, c));
    } else {
      a, b, c := DftFactors(n / 5);
      c := c + 1;
      Regroup(5, Pow(2, a), Pow(3, b), Pow(5, c - 1));
    }
  }

  lemma Halves(m: nat)
    requires DftValid(m)
    ensures DftValid(2 * m)
  {
  }

  lemma Thirds(m: nat)
    requires DftValid(m) && (3 * m) % 2 == 1
    ensures DftValid(3 * m)
  {
  }

  lemma Fifths(m: nat)
    requires DftValid(m) && (5 * m) % 2 == 1 && (5 * m) % 3 != 0
    ensures DftValid(5 * m)
  {
  }

  lemma TimesOdd(p: nat, m: nat)
    requires (p == 3 || p == 5) && m % 2 == 1
    ensures (p * m) % 2 == 1
  {
  }

  lemma {:induction false} OddProduct(b: nat, c: nat)
    ensures Product(0, b, c) % 2 == 1
  {
    if b > 0 {
      OddProduct(b - 1, c);
      Regroup(3, 1, Pow(3, b - 1), Pow(5, c));
      TimesOdd(3, Product(0, b - 1, c));
    } else if c > 0 {
      OddProduct(0, c - 1);
      TimesOdd(5, Product(0, 0, c - 1));
    }
  }

  lemma FiveTimes(m: nat)
    requires m % 3 != 0
    ensures (5 * m) % 3 != 0
  {
  }

  lemma {:induction false} FivesModThree(c: nat)
    ensures Pow(5, c) % 3 != 0
  {
    if c > 0 {
      FivesModThree(c - 1);
      FiveTimes(Pow(5, c - 1));
    }
  }

  lemma {:induction false} ProductIsValid(a: nat, b: nat, c: nat)
    ensures DftValid(Product(a, b, c))
    decreases a + b + c
  {
    if a > 0 {
      ProductIsValid(a - 1, b, c);
      Regroup(2, Pow(2, a - 1), Pow(3, b), Pow(5, c));
      Halves(Product(a - 1, b, c));
    } else if b > 0 {
      ProductIsValid(0, b - 1, c);
      Regroup(3, 1, Pow(3, b - 1), Pow(5, c));
      OddProduct(b, c);
      Thirds(Product(0, b - 1, c));
    } else if c > 0 {
      ProductIsValid(0, 0, c - 1);
      OddProduct(0, c);
      FivesModThree(c);
      Fifths(Pow(5, c - 1));
    }
  }

  // ---- First fit

  predicate Free(used: seq<bool>, a: Alloc) {
    a.start + a.len <= |used| && forall n | a.start <= n < a.start + a.len :: !used[n]
  }

  function Mark(used: seq<bool>, a: Alloc): (r: seq<bool>)
    ensures |r| == |used|
  {
    seq(|used|, n requires 0 <= n < |used| => used[n] || a.start <= n < a.start + a.len)
  }

  /** Where the free run that contains `s` ends. */
  function RunEnd(used: seq<bool>, s: nat): (e: nat)
    requires s <= |used|
    ensures s <= e <= |used| && (forall n | s <= n < e :: !used[n]) && (e < |used| ==> used[e])
    decreases |used| - s
  {
    if s == |used| || used[s] then s else RunEnd(used, s + 1)
  }

  /** The allocation that a search for `want` RBs from RB `s` on settles on, before its length is made valid. A run
      that ends below RB 3 before it is long enough is skipped. */
  function FirstRun(used: seq<bool>, want: nat, s: nat): (a: Alloc)
    requires s <= |used|
    decreases |used| - s
  {
    if s == |used| || want == 0 then Alloc(0, 0)
    else if used[s] then FirstRun(used, want, s + 1)
    else
      var e := RunEnd(used, s);
      if e - s >= want then Alloc(s, want)
      else if e == |used| || e >= 3 then Alloc(s, e - s)
      else FirstRun(used, want, e)
  }

  function Allocation(used: seq<bool>, want: nat): (a: Alloc)
  {
    var a := FirstRun(used, want, 0);
    if a.len == 0 then a else Alloc(a.start, DftFloor(a.len))
  }

  /** A run of free RBs starts at `s`, and it is long enough or not cut off near the lower edge of the carrier. */
  predicate Usable(used: seq<bool>, want: nat, s: nat)
    requires s < |used|
  {
    && !used[s] && (s == 0 || used[s - 1])
    && var e := RunEnd(used, s); e - s >= want || e == |used| || e >= 3
  }

  lemma ShortRun(used: seq<bool>, want: nat, s: nat)
    requires s < |used| && RunEnd(used, s) - s < want && RunEnd(used, s) < |used| && RunEnd(used, s) < 3
    ensures forall n | s <= n < RunEnd(used, s) :: !Usable(used, want, n)
  {
  }

  /** The search takes the first usable run, as much of it as was wanted, and fails only if there is none. */
  lemma {:induction false} FirstRunIsFirst(used: seq<bool>, want: nat, s: nat)
    requires s <= |used| && want > 0 && (s == 0 || s == |used| || used[s] || used[s - 1])
    ensures var a := FirstRun(used, want, s);
            if a.len == 0 then a == Alloc(0, 0) && forall n | s <= n < |used| :: !Usable(used, want, n)
            else
              && s <= a.start < |used| && Usable(used, want, a.start)
              && (forall n | s <= n < a.start :: !Usable(used, want, n))
              && var run := RunEnd(used, a.start) - a.start; a.len == (if run < want then run else want)
    decreases |used| - s
  {
    if s < |used| {
      if used[s] {
        FirstRunIsFirst(used, want, s + 1);
      } else {
        var e := RunEnd(used, s);
        if e - s < want && e < |used| && e < 3 {
          FirstRunIsFirst(used, want, e);
          ShortRun(used, want, s);
        }
      }
    }
  }

  /** A new allocation is free and inside the carrier, its length is allowed, and it has the wanted length exactly when
      the first usable run is long enough and the wanted length is allowed. */
  lemma AllocationFits(used: seq<bool>, want: nat)
    ensures var a := Allocation(used, want);
            && Free(used, a) && a.len <= want
            && (a.len > 0 ==> DftValid(a.len))
            && (a.len == want > 0 <==> want > 0 && DftValid(want) && FirstRun(used, want, 0).len == want)
  {
    if want > 0 { FirstRunIsFirst(used, want, 0); }
  }

  // ---- The two passes

  /** What the allocator sees of a user: whether its process still has a block, the RBs that the process used last,
      the bytes waiting and the RBs they need. */
  datatype View = View(active: bool, alloc: Alloc, pending: nat, want: nat)

  /** A block is sent again on its old RBs if they are free, otherwise on as many others. The old RBs count as used in
      any case. */
  function Again(used: seq<bool>, v: View): (r: (Option<Alloc>, seq<bool>))
    ensures |r.1| == |used|
  {
    if !v.active then (None, used)
    else if Free(used, v.alloc) then (Some(v.alloc), Mark(used, v.alloc))
    else
      var u := Mark(used, v.alloc);
      var a := Allocation(u, v.alloc.len);
      if 0 < a.len == v.alloc.len then (Some(a), Mark(u, a)) else (None, u)
  }

  /** New data gets RBs if the user holds none and its process is free. */
  function Anew(used: seq<bool>, v: View, held: Option<Alloc>): (r: (Option<Alloc>, seq<bool>))
    ensures |r.1| == |used|
  {
    var a := Allocation(used, v.want);
    if held.Some? || v.active || v.pending == 0 || a.len == 0 then (held, used) else (Some(a), Mark(used, a))
  }

  /** The first pass, over the first `k` users: the map and what each user holds. */
  function RetxPass(used: seq<bool>, vs: seq<View>, k: nat): (r: (seq<bool>, seq<Option<Alloc>>))
    requires k <= |vs|
    ensures |r.0| == |used| && |r.1| == |vs|
  {
    if k == 0 then (used, seq(|vs|, _ => None))
    else
      var (u, gs) := RetxPass(used, vs, k - 1);
      var (g, u') := Again(u, vs[k - 1]);
      (u', gs[k - 1 := g])
  }

  /** The second pass, over the first `k` users in turn from number `first` on. */
  function NewPass(used: seq<bool>, vs: seq<View>, held: seq<Option<Alloc>>, first: nat, k: nat)
    : (r: (seq<bool>, seq<Option<Alloc>>))
    requires first < |vs| == |held| && k <= |vs|
    ensures |r.0| == |used| && |r.1| == |vs|
  {
    if k == 0 then (used, held)
    else
      var (u, gs) := NewPass(used, vs, held, first, k - 1);
      var i := DlAllocation.Turn(first, k - 1, |vs|);
      var (g, u') := Anew(u, vs[i], gs[i]);
      (u', gs[i := g])
  }

  /** Both passes. */
  function Allocated(used: seq<bool>, vs: seq<View>, first: nat): (r: (seq<bool>, seq<Option<Alloc>>))
    requires first < |vs|
    ensures |r.0| == |used| && |r.1| == |vs|
  {
    var (u, gs) := RetxPass(used, vs, |vs|);
    NewPass(u, vs, gs, first, |vs|)
  }

  /** RB `n` is one of these. */
  predicate Within(a: Alloc, n: nat) {
    a.start <= n < a.start + a.len
  }

  /** RB `n` belongs to what the user holds. */
  predicate Owns(g: Option<Alloc>, n: nat) {
    g.Some? && Within(g.value, n)
  }

  /** Every RB that is held lies inside the carrier, is marked, was not reserved before and is held once. */
  ghost predicate Exclusive(reserved: seq<bool>, used: seq<bool>, gs: seq<Option<Alloc>>) {
    && |used| == |reserved|
    && (forall n | 0 <= n < |used| && reserved[n] :: used[n])
    && (forall i, n: nat {:trigger Owns(gs[i], n)} | 0 <= i < |gs| && Owns(gs[i], n) ::
          n < |used| && used[n] && !reserved[n])
    && (forall i, j, n: nat {:trigger Owns(gs[i], n), Owns(gs[j], n)} | 0 <= i < j < |gs| ::
          !(Owns(gs[i], n) && Owns(gs[j], n)))
  }

  lemma MarkKeeps(reserved: seq<bool>, used: seq<bool>, gs: seq<Option<Alloc>>, a: Alloc)
    requires Exclusive(reserved, used, gs)
    ensures Exclusive(reserved, Mark(used, a), gs)
  {
  }

  /** A user that holds nothing is given free RBs. */
  lemma GiveKeeps(reserved: seq<bool>, used: seq<bool>, gs: seq<Option<Alloc>>, i: nat, a: Alloc)
    requires i < |gs| && gs[i].None? && Exclusive(reserved, used, gs) && Free(used, a)
    ensures Exclusive(reserved, Mark(used, a), gs[i := Some(a)])
  {
    var hs, u := gs[i := Some(a)], Mark(used, a);
    forall j, n: nat | 0 <= j < |hs| && Owns(hs[j], n) ensures n < |u| && u[n] && !reserved[n] {
      if j != i { assert Owns(gs[j], n); }
    }
    forall j, k, n: nat | 0 <= j < k < |hs| ensures !(Owns(hs[j], n) && Owns(hs[k], n)) {
      assert j != i ==> Owns(gs[j], n) == Owns(hs[j], n);
      assert k != i ==> Owns(gs[k], n) == Owns(hs[k], n);
    }
    assert Exclusive(reserved, u, hs);
  }

  lemma AgainExclusive(reserved: seq<bool>, used: seq<bool>, gs: seq<Option<Alloc>>, i: nat, v: View)
    requires i < |gs| && gs[i].None? && Exclusive(reserved, used, gs)
    ensures Exclusive(reserved, Again(used, v).1, gs[i := Again(used, v).0])
  {
    assert gs[i := None] == gs;
    if v.active && Free(used, v.alloc) {
      GiveKeeps(reserved, used, gs, i, v.alloc);
    } else if v.active {
      var u := Mark(used, v.alloc);
      MarkKeeps(reserved, used, gs, v.alloc);
      AllocationFits(u, v.alloc.len);
      GiveKeeps(reserved, u, gs, i, Allocation(u, v.alloc.len));
    }
  }

  lemma AnewExclusive(reserved: seq<bool>, used: seq<bool>, gs: seq<Option<Alloc>>, i: nat, v: View)
    requires i < |gs| && Exclusive(reserved, used, gs)
    ensures Exclusive(reserved, Anew(used, v, gs[i]).1, gs[i := Anew(used, v, gs[i]).0])
  {
    assert gs[i := gs[i]] == gs;
    AllocationFits(used, v.want);
    if gs[i].None? {
      GiveKeeps(reserved, used, gs, i, Allocation(used, v.want));
    }
  }

  lemma {:induction false} RetxPassExclusive(used: seq<bool>, vs: seq<View>, k: nat)
    requires k <= |vs|
    ensures Exclusive(used, RetxPass(used, vs, k).0, RetxPass(used, vs, k).1)
    ensures forall i | k <= i < |vs| :: RetxPass(used, vs, k).1[i].None?
  {
    if k == 0 {
      assert forall i, n: nat | 0 <= i < |vs| :: !Owns(RetxPass(used, vs, 0).1[i], n);
    } else {
      RetxPassExclusive(used, vs, k - 1);
      var (u, gs) := RetxPass(used, vs, k - 1);
      AgainExclusive(used, u, gs, k - 1, vs[k - 1]);
    }
  }

  lemma {:induction false} NewPassExclusive(reserved: seq<bool>, used: seq<bool>, vs: seq<View>,
                                            held: seq<Option<Alloc>>, first: nat, k: nat)
    requires first < |vs| == |held| && k <= |vs| && Exclusive(reserved, used, held)
    ensures var (u, gs) := NewPass(used, vs, held, first, k); Exclusive(reserved, u, gs)
  {
    if k > 0 {
      NewPassExclusive(reserved, used, vs, held, first, k - 1);
      var (u, gs) := NewPass(used, vs, held, first, k - 1);
      var i := DlAllocation.Turn(first, k - 1, |vs|);
      AnewExclusive(reserved, u, gs, i, vs[i]);
    }
  }

  /** Whatever is reserved for random access and the control channel, whatever the users want and whoever comes first:
      no RB is held twice, and none that is reserved or outside the carrier is held. */
  lemma AllocatedExclusive(used: seq<bool>, vs: seq<View>, first: nat)
    requires first < |vs|
    ensures var (u, gs) := Allocated(used, vs, first); Exclusive(used, u, gs)
  {
    RetxPassExclusive(used, vs, |vs|);
    var (u, gs) := RetxPass(used, vs, |vs|);
    NewPassExclusive(used, u, vs, gs, first, |vs|);
  }

  /** In `n` consecutive TTIs each of `n` users comes first in the second pass exactly once. */
  lemma FirstExactlyOnce(t: nat, n: nat, i: nat, k: nat)
    requires i < n && k < n
    ensures (t + k + n / 2) % n == i <==> k == DlAllocation.Position((t + n / 2) % n, i, n)
  {
    DlAllocation.FirstExactlyOnce(t + n / 2, n, i, k);
    assert t + k + n / 2 == t + n / 2 + k;
  }

  // ---- What a user gets

  /** The first usable run of free RBs starts at `s`. */
  predicate FirstUsable(used: seq<bool>, want: nat, s: nat) {
    s < |used| && Usable(used, want, s) && forall n | 0 <= n < s :: !Usable(used, want, n)
  }

  predicate SomeUsable(used: seq<bool>, want: nat) {
    exists s | 0 <= s < |used| :: Usable(used, want, s)
  }

  /** The first usable run is long enough. */
  predicate FirstIsLong(used: seq<bool>, want: nat) {
    exists s | 0 <= s < |used| :: FirstUsable(used, want, s) && RunEnd(used, s) - s >= want
  }

  /** A block that is sent again keeps its number of RBs: it has its old ones if they are free, otherwise the first ones
      of the first usable run if that is long enough, and if so many RBs are allowed at all. */
  predicate RetxRight(used: seq<bool>, was: Alloc, g: Option<Alloc>) {
    var rest := Mark(used, was);
    if Free(used, was) then g == Some(was)
    else
      && (g.Some? <==> DftValid(was.len) && FirstIsLong(rest, was.len))
      && (g.Some? ==> g.value.len == was.len && FirstUsable(rest, was.len, g.value.start))
  }

  /** New data has RBs if it needs any and some run is usable: from the first usable run on, as many as it needs or the
      run has, cut to an allowed number. */
  predicate NewRight(used: seq<bool>, v: View, g: Option<Alloc>) {
    && (g.Some? <==> v.pending > 0 && v.want > 0 && SomeUsable(used, v.want))
    && (g.Some? ==>
          && FirstUsable(used, v.want, g.value.start)
          && var run := RunEnd(used, g.value.start) - g.value.start;
             && 0 < g.value.len <= DlAllocation.Least(run, v.want) && DftValid(g.value.len)
             && forall n | g.value.len < n <= DlAllocation.Least(run, v.want) :: !DftValid(n))
  }

  lemma {:induction false} ZeroIsNot(n: nat)
    requires DftValid(n)
    ensures n > 0
  {
  }

  lemma AllocationIs(used: seq<bool>, want: nat)
    ensures var a := Allocation(used, want);
            && (a.len > 0 <==> want > 0 && SomeUsable(used, want))
            && (a.len > 0 ==>
                  && FirstUsable(used, want, a.start)
                  && var most := DlAllocation.Least(RunEnd(used, a.start) - a.start, want);
                     a.len == DftFloor(most))
  {
    if want > 0 { FirstRunIsFirst(used, want, 0); }
  }

  lemma SameFirst(used: seq<bool>, want: nat, s: nat, t: nat)
    requires FirstUsable(used, want, s) && FirstUsable(used, want, t)
    ensures s == t
  {
    assert Usable(used, want, s) && Usable(used, want, t);
  }

  lemma WholeIff(used: seq<bool>, n: nat, a: Alloc)
    requires DftValid(n) && n > 0 && (a.len > 0 <==> SomeUsable(used, n))
    requires a.len > 0 ==>
               && FirstUsable(used, n, a.start)
               && a.len == DftFloor(DlAllocation.Least(RunEnd(used, a.start) - a.start, n))
    ensures a.len == n <==> FirstIsLong(used, n)
  {
    if s :| 0 <= s < |used| && FirstUsable(used, n, s) && RunEnd(used, s) - s >= n {
      assert Usable(used, n, s);
      SameFirst(used, n, s, a.start);
    }
  }

  lemma AgainIsRight(used: seq<bool>, v: View)
    requires v.active
    ensures RetxRight(used, v.alloc, Again(used, v).0)
  {
    var rest, n := Mark(used, v.alloc), v.alloc.len;
    AllocationIs(rest, n);
    if DftValid(n) {
      ZeroIsNot(n);
      WholeIff(rest, n, Allocation(rest, n));
    }
  }

  lemma AnewIsRight(used: seq<bool>, v: View)
    requires !v.active
    ensures NewRight(used, v, Anew(used, v, None).0)
  {
    AllocationIs(used, v.want);
  }

  /** The first pass, in the order of users: a user with a block to send again gets what is right for it. */
  lemma {:induction false} RetxPassRight(used: seq<bool>, vs: seq<View>, k: nat, i: nat)
    requires i < k <= |vs|
    ensures var g := RetxPass(used, vs, k).1[i];
            if vs[i].active then RetxRight(RetxPass(used, vs, i).0, vs[i].alloc, g) else g.None?
  {
    if i == k - 1 {
      if vs[i].active { AgainIsRight(RetxPass(used, vs, i).0, vs[i]); }
    } else {
      RetxPassRight(used, vs, k - 1, i);
    }
  }

  /** The second pass leaves alone who has a block to send again, whether it got RBs or not. */
  lemma {:induction false} SecondPassKeeps(used: seq<bool>, vs: seq<View>, held: seq<Option<Alloc>>, first: nat,
                                           k: nat, i: nat)
    requires first < |vs| == |held| && k <= |vs| && i < |vs| && vs[i].active
    ensures NewPass(used, vs, held, first, k).1[i] == held[i]
  {
    if k > 0 { SecondPassKeeps(used, vs, held, first, k - 1, i); }
  }

  /** The others get what is right at their turn and keep it. */
  lemma {:induction false} NewPassRight(used: seq<bool>, vs: seq<View>, held: seq<Option<Alloc>>, first: nat, k: nat,
                                        i: nat)
    requires first < |vs| == |held| && k <= |vs| && i < |vs| && !vs[i].active && held[i].None?
    ensures var m, g := DlAllocation.Position(first, i, |vs|), NewPass(used, vs, held, first, k).1[i];
            if m < k then NewRight(NewPass(used, vs, held, first, m).0, vs[i], g) else g.None?
  {
    if k > 0 {
      var m := DlAllocation.Position(first, i, |vs|);
      NewPassRight(used, vs, held, first, k - 1, i);
      DlAllocation.EachUserOnce(first, i, k - 1, |vs|);
      if m == k - 1 { AnewIsRight(NewPass(used, vs, held, first, m).0, vs[i]); }
    }
  }

  predicate SomeOwns(gs: seq<Option<Alloc>>, n: nat) {
    exists j | 0 <= j < |gs| :: Owns(gs[j], n)
  }

  /** RB `n` is an old one of one of the first `k` users, which has a block to send again. */
  predicate SomeAsks(vs: seq<View>, k: nat, n: nat)
    requires k <= |vs|
  {
    exists j | 0 <= j < k :: vs[j].active && Within(vs[j].alloc, n)
  }

  lemma OneMoreOwns(gs: seq<Option<Alloc>>, i: nat, g: Option<Alloc>, n: nat)
    requires i < |gs| && gs[i].None?
    ensures SomeOwns(gs[i := g], n) <==> SomeOwns(gs, n) || Owns(g, n)
  {
    var hs := gs[i := g];
    if j :| 0 <= j < |gs| && Owns(gs[j], n) { assert Owns(hs[j], n); }
    if Owns(g, n) { assert Owns(hs[i], n); }
  }

  /** The first pass marks what it gives out and in any case the old RBs of all blocks that are to be sent again. */
  lemma {:induction false} RetxPassMarks(used: seq<bool>, vs: seq<View>, k: nat, n: nat)
    requires k <= |vs| && n < |used|
    ensures var r := RetxPass(used, vs, k); r.0[n] <==> used[n] || SomeAsks(vs, k, n) || SomeOwns(r.1, n)
  {
    if k > 0 {
      RetxPassMarks(used, vs, k - 1, n);
      RetxPassExclusive(used, vs, k - 1);
      var r := RetxPass(used, vs, k - 1);
      OneMoreOwns(r.1, k - 1, Again(r.0, vs[k - 1]).0, n);
    }
  }

  /** The second pass marks what it gives out, and nothing else. */
  lemma {:induction false} NewPassMarks(used: seq<bool>, vs: seq<View>, held: seq<Option<Alloc>>, first: nat, k: nat,
                                        n: nat)
    requires first < |vs| == |held| && k <= |vs| && n < |used| && (SomeOwns(held, n) ==> used[n])
    ensures var r := NewPass(used, vs, held, first, k); r.0[n] <==> used[n] || SomeOwns(r.1, n)
  {
    if k > 0 {
      NewPassMarks(used, vs, held, first, k - 1, n);
      var r, i := NewPass(used, vs, held, first, k - 1), DlAllocation.Turn(first, k - 1, |vs|);
      if r.1[i].None? { OneMoreOwns(r.1, i, Anew(r.0, vs[i], r.1[i]).0, n); } else { assert r.1[i := r.1[i]] == r.1; }
    }
  }

  lemma {:induction false} NewPassKeepsHeld(used: seq<bool>, vs: seq<View>, held: seq<Option<Alloc>>, first: nat,
                                            k: nat, n: nat)
    requires first < |vs| == |held| && k <= |vs| && SomeOwns(held, n)
    ensures SomeOwns(NewPass(used, vs, held, first, k).1, n)
  {
    if k > 0 {
      NewPassKeepsHeld(used, vs, held, first, k - 1, n);
      var r, i := NewPass(used, vs, held, first, k - 1), DlAllocation.Turn(first, k - 1, |vs|);
      if r.1[i].None? { OneMoreOwns(r.1, i, Anew(r.0, vs[i], r.1[i]).0, n); } else { assert r.1[i := r.1[i]] == r.1; }
    }
  }

  /** In the end exactly those RBs are marked that were reserved, are old ones of blocks to be sent again, or are held.
      */
  lemma AllocatedMarks(used: seq<bool>, vs: seq<View>, first: nat, n: nat)
    requires first < |vs| && n < |used|
    ensures var r := Allocated(used, vs, first); r.0[n] <==> used[n] || SomeAsks(vs, |vs|, n) || SomeOwns(r.1, n)
  {
    var pass := RetxPass(used, vs, |vs|);
    RetxPassMarks(used, vs, |vs|, n);
    NewPassMarks(pass.0, vs, pass.1, first, |vs|, n);
    if SomeOwns(pass.1, n) { NewPassKeepsHeld(pass.0, vs, pass.1, first, |vs|, n); }
  }

  /** What is used when it is the turn of user `i` in the second pass. */
  function UsedAt(used: seq<bool>, vs: seq<View>, first: nat, i: nat): (u: seq<bool>)
    requires first < |vs| && i < |vs|
    ensures |u| == |used|
  {
    var pass := RetxPass(used, vs, |vs|);
    NewPass(pass.0, vs, pass.1, first, DlAllocation.Position(first, i, |vs|)).0
  }

  /** What every user holds in the end: who has a block to send again holds what was right in the first pass, all others
      what was right at their turn in the second one. */
  lemma AllocatedRight(used: seq<bool>, vs: seq<View>, first: nat, i: nat)
    requires first < |vs| && i < |vs|
    ensures var g := Allocated(used, vs, first).1[i];
            if vs[i].active then RetxRight(RetxPass(used, vs, i).0, vs[i].alloc, g)
            else NewRight(UsedAt(used, vs, first, i), vs[i], g)
  {
    var pass := RetxPass(used, vs, |vs|);
    RetxPassRight(used, vs, |vs|, i);
    if vs[i].active {
      SecondPassKeeps(pass.0, vs, pass.1, first, |vs|, i);
    } else {
      NewPassRight(pass.0, vs, pass.1, first, |vs|, i);
    }
  }

  // ---- Who gets RBs

  /** The retransmissions leave a usable run of free RBs. */
  predicate RunLeft(used: seq<bool>, vs: seq<View>, want: nat) {
    SomeUsable(RetxPass(used, vs, |vs|).0, want)
  }

  /** The user that comes first in the second pass, has data and a free process, gets RBs exactly if it needs any and
      the retransmissions leave a usable run. */
  lemma FirstIsServed(used: seq<bool>, vs: seq<View>, first: nat)
    requires first < |vs| && !vs[first].active && vs[first].pending > 0
    ensures Allocated(used, vs, first).1[first].Some? <==>
            vs[first].want > 0 && RunLeft(used, vs, vs[first].want)
  {
    AllocatedRight(used, vs, first, first);
    assert DlAllocation.Position(first, first, |vs|) == 0;
  }

  /** One TTI of the allocator: what is reserved, all users, and who comes first in the second pass. */
  datatype Round = Round(used: seq<bool>, users: seq<View>, first: nat)

  /** User `i` of `n` keeps data, and its process of the TTI is free. */
  predicate Waiting(r: Round, n: nat, i: nat) {
    |r.users| == n && i < n && r.first < n && !r.users[i].active && r.users[i].pending > 0
  }

  /** In `n` TTIs in a row such a user comes first once, and then gets RBs exactly if it needs any and a usable run is
      left. */
  lemma ServedWithin(t: nat, rounds: seq<Round>, n: nat, i: nat) returns (k: nat)
    requires |rounds| == n && i < n
    requires forall m | 0 <= m < n :: Waiting(rounds[m], n, i) && rounds[m].first == (t + m + n / 2) % n
    ensures k < n && rounds[k].first == i < |rounds[k].users|
    ensures Allocated(rounds[k].used, rounds[k].users, i).1[i].Some? <==>
            rounds[k].users[i].want > 0 && RunLeft(rounds[k].used, rounds[k].users, rounds[k].users[i].want)
  {
    k := DlAllocation.Position((t + n / 2) % n, i, n);
    FirstExactlyOnce(t, n, i, k);
    FirstIsServed(rounds[k].used, rounds[k].users, i);
  }
}
