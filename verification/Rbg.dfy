/** Resource block groups (RBGs): how the PRBs of a carrier are grouped, and RBG selections as bit masks
    (resource allocation type 0, section 7.1.6.1 of 3GPP TS 36.213). */
module Rbg {
  import opened Bits
  import Modular

  /** PRBs per group for a downlink carrier of `nofPrb` PRBs. */
  function GroupSize(nofPrb: nat): (p: nat)
    ensures 1 <= p <= 4
  {
    if nofPrb <= 10 then 1 else if nofPrb <= 26 then 2 else if nofPrb <= 63 then 3 else 4
  }

  function CeilDiv(a: nat, b: nat): (q: nat)
    requires b > 0
    ensures q * b >= a && (a > 0 ==> (q - 1) * b < a)
    ensures a > 0 ==> q > 0
  {
    if a == 0 then 0 else (a - 1) / b + 1
  }

  function NofGroups(nofPrb: nat): nat {
    CeilDiv(nofPrb, GroupSize(nofPrb))
  }

  /** The groups of carriers of 1.4 to 20 MHz. */
  lemma StandardCarriers()
    ensures NofGroups(6) == 6 && NofGroups(15) == 8 && NofGroups(25) == 13
    ensures NofGroups(50) == 17 && NofGroups(75) == 19 && NofGroups(100) == 25
  {
  }

  /** The mask of a selection of groups: group 0 is the most significant of the |sel| bits. */
  function Mask(sel: seq<bool>): nat {
    if |sel| == 0 then 0
    else 2 * Mask(sel[..|sel| - 1]) + (if sel[|sel| - 1] then 1 else 0)
  }

  function CountTrue(s: seq<bool>): nat {
    if |s| == 0 then 0 else CountTrue(s[..|s| - 1]) + (if s[|s| - 1] then 1 else 0)
  }

  /** The groups that a mask selects out of `total`. */
  function Selection(mask: nat, total: nat): (sel: seq<bool>)
    ensures |sel| == total
  {
    seq(total, n requires 0 <= n < total => Bit(mask, total - 1 - n))
  }

  lemma GroupBound(j: nat, p: nat, n: nat)
    requires p > 0 && j < n * p
    ensures j / p < n
  {
    if j / p >= n {
      assert (j / p) * p >= n * p by { Modular.MulMono(n, j / p, p); }
    }
  }

  /** The PRBs covered by a selection of groups of size `p`, on a carrier of `nofPrb` PRBs. */
  function Prbs(sel: seq<bool>, p: nat, nofPrb: nat): (m: seq<bool>)
    requires p > 0 && |sel| * p >= nofPrb
    ensures |m| == nofPrb
  {
    seq(nofPrb, j requires 0 <= j < nofPrb => (GroupBound(j, p, |sel|); sel[j / p]))
  }

  /** The first `want` free groups, or all of them when there are fewer. */
  function FirstFree(used: seq<bool>, want: nat): (sel: seq<bool>)
    ensures |sel| == |used|
  {
    if |used| == 0 then []
    else if used[0] || want == 0 then [false] + FirstFree(used[1..], want)
    else [true] + FirstFree(used[1..], want - 1)
  }

  function NofFree(used: seq<bool>): (n: nat) {
    if |used| == 0 then 0 else (if used[0] then 0 else 1) + NofFree(used[1..])
  }

  lemma {:induction false} MaskBelow(sel: seq<bool>)
    ensures Mask(sel) < Pow2(|sel|)
  {
    if |sel| > 0 { MaskBelow(sel[..|sel| - 1]); }
  }

  /** Bit |sel|-1-n of the mask is the selection of group n. */
  lemma {:induction false} MaskBit(sel: seq<bool>, n: nat)
    requires n < |sel|
    ensures Bit(Mask(sel), |sel| - 1 - n) == sel[n]
  {
    var init := sel[..|sel| - 1];
    if n < |sel| - 1 {
      MaskBit(init, n);
      assert Mask(sel) / 2 == Mask(init);
    }
  }

  /** A word below 2^total is the mask of exactly one selection of `total` groups. */
  lemma {:induction false} MaskOfSelection(m: nat, total: nat)
    requires m < Pow2(total)
    ensures Mask(Selection(m, total)) == m
  {
    if total > 0 {
      var s := Selection(m, total);
      MaskOfSelection(m / 2, total - 1);
      var t := Selection(m / 2, total - 1);
      forall n | 0 <= n < total - 1 ensures s[n] == t[n] {
        assert Bit(m, total - 1 - n) == Bit(m / 2, total - 2 - n);
      }
      assert s[..total - 1] == t;
      assert s[total - 1] == Bit(m, 0);
      assert Bit(m, 0) == (m % 2 == 1);
    }
  }

  lemma SelectionOfMask(sel: seq<bool>)
    ensures Selection(Mask(sel), |sel|) == sel
  {
    forall n | 0 <= n < |sel| ensures Selection(Mask(sel), |sel|)[n] == sel[n] {
      MaskBit(sel, n);
    }
  }

  /** The number of set bits of a mask is the number of selected groups. */
  lemma {:induction false} PopCountMask(sel: seq<bool>)
    ensures PopCount(Mask(sel)) == CountTrue(sel)
  {
    if |sel| > 0 {
      PopCountMask(sel[..|sel| - 1]);
      assert Mask(sel) / 2 == Mask(sel[..|sel| - 1]);
    }
  }

  /** Selections that share no group have masks that share no bit, and the other way round. */
  lemma MasksDisjoint(a: seq<bool>, b: seq<bool>)
    requires |a| == |b|
    ensures And(Mask(a), Mask(b)) == 0 <==> forall n | 0 <= n < |a| :: !(a[n] && b[n])
  {
    DisjointBits(Mask(a), Mask(b));
    MaskBelow(a);
    forall n | 0 <= n < |a| ensures Bit(Mask(a), |a| - 1 - n) == a[n] && Bit(Mask(b), |a| - 1 - n) == b[n] {
      MaskBit(a, n);
      MaskBit(b, n);
    }
    if forall n | 0 <= n < |a| :: !(a[n] && b[n]) {
      forall k: nat | Bit(Mask(a), k) ensures !Bit(Mask(b), k) {
        NoHighBit(Mask(a), |a|, k);
        assert !(a[|a| - 1 - k] && b[|a| - 1 - k]);
        MaskBit(a, |a| - 1 - k);
        MaskBit(b, |a| - 1 - k);
      }
    }
  }

  /** The mask `m` names a group that is in use. */
  predicate NamesUsed(m: nat, used: seq<bool>) {
    exists n :: 0 <= n < |used| && used[n] && Bit(m, |used| - 1 - n)
  }

  /** A word overlaps the mask of the groups in use exactly when it names one of them. */
  lemma OverlapMeans(m: nat, used: seq<bool>)
    ensures And(m, Mask(used)) != 0 <==> NamesUsed(m, used)
  {
    DisjointBits(m, Mask(used));
    MaskBelow(used);
    if n :| 0 <= n < |used| && used[n] && Bit(m, |used| - 1 - n) {
      MaskBit(used, n);
    } else {
      forall k: nat | Bit(m, k) ensures !Bit(Mask(used), k) {
        if Bit(Mask(used), k) {
          NoHighBit(Mask(used), |used|, k);
          MaskBit(used, |used| - 1 - k);
        }
      }
    }
  }

  lemma {:induction false} NothingWanted(used: seq<bool>)
    ensures forall n | 0 <= n < |used| :: !FirstFree(used, 0)[n]
  {
    if |used| > 0 { NothingWanted(used[1..]); }
  }

  lemma {:induction false} CountTrueCons(b: bool, s: seq<bool>)
    ensures CountTrue([b] + s) == (if b then 1 else 0) + CountTrue(s)
  {
    var t := [b] + s;
    if |s| == 0 {
      assert t[..0] == [];
    } else {
      assert t[..|t| - 1] == [b] + s[..|s| - 1];
      CountTrueCons(b, s[..|s| - 1]);
    }
  }

  /** A first-fit selection takes free groups only, the lowest ones, and as many as were wanted or were free. */
  lemma {:induction false} FirstFreeIsFirstFit(used: seq<bool>, want: nat)
    ensures var sel := FirstFree(used, want);
            && (forall n | 0 <= n < |used| :: sel[n] ==> !used[n])
            && (forall n, m | 0 <= n < m < |used| :: sel[m] && !used[n] ==> sel[n])
    ensures CountTrue(FirstFree(used, want)) == if want <= NofFree(used) then want else NofFree(used)
  {
    if |used| > 0 {
      var rest := if used[0] || want == 0 then want else want - 1;
      FirstFreeIsFirstFit(used[1..], rest);
      var sel := FirstFree(used, want);
      var tail := FirstFree(used[1..], rest);
      assert sel == [sel[0]] + tail;
      CountTrueCons(sel[0], tail);
      forall n, m | 0 <= n < m < |used| && sel[m] && !used[n] ensures sel[n] {
        if n == 0 {
          if want == 0 { NothingWanted(used[1..]); }
        } else {
          assert tail[m - 1] && !used[1..][n - 1];
        }
      }
    }
  }

  /** Counts of PRBs add over selections that share no group. */
  lemma {:induction false} CountAdds(a: seq<bool>, b: seq<bool>, c: seq<bool>)
    requires |a| == |b| == |c|
    requires forall n | 0 <= n < |a| :: !(a[n] && b[n]) && c[n] == (a[n] || b[n])
    ensures CountTrue(c) == CountTrue(a) + CountTrue(b)
  {
    if |a| > 0 { CountAdds(a[..|a| - 1], b[..|a| - 1], c[..|a| - 1]); }
  }

  lemma {:induction false} CountSame(s: seq<bool>, b: bool)
    requires forall n | 0 <= n < |s| :: s[n] == b
    ensures CountTrue(s) == if b then |s| else 0
  {
    if |s| > 0 { CountSame(s[..|s| - 1], b); }
  }

  lemma SelectionAt(m: nat, total: nat, n: nat)
    requires n < total
    ensures Selection(m, total)[n] == Bit(m, total - 1 - n)
  {
  }

  /** The or of two masks is the mask of the union of the selections. */
  lemma UnionOfMasks(a: seq<bool>, b: seq<bool>, n: nat)
    requires |a| == |b| && n < |a|
    ensures Selection(Or(Mask(a), Mask(b)), |a|)[n] == (a[n] || b[n])
  {
    var k := |a| - 1 - n;
    assert k == |b| - 1 - n;
    MaskBit(a, n);
    MaskBit(b, n);
    SelectionAt(Or(Mask(a), Mask(b)), |a|, n);
    OrBit(Mask(a), Mask(b), k);
  }

  lemma PrbsOfUnion(a: seq<bool>, b: seq<bool>, c: seq<bool>, p: nat, nofPrb: nat)
    requires p > 0 && |a| == |b| == |c| && |a| * p >= nofPrb
    requires forall n | 0 <= n < |a| :: !(a[n] && b[n]) && c[n] == (a[n] || b[n])
    ensures CountTrue(Prbs(c, p, nofPrb)) == CountTrue(Prbs(a, p, nofPrb)) + CountTrue(Prbs(b, p, nofPrb))
  {
    var x, y, z := Prbs(a, p, nofPrb), Prbs(b, p, nofPrb), Prbs(c, p, nofPrb);
    forall j | 0 <= j < nofPrb ensures !(x[j] && y[j]) && z[j] == (x[j] || y[j]) {
      GroupBound(j, p, |a|);
    }
    CountAdds(x, y, z);
  }

  /** For selections that share no group the PRB counts add up. */
  lemma PrbCountsAdd(a: seq<bool>, b: seq<bool>, p: nat, nofPrb: nat)
    requires p > 0 && |a| == |b| && |a| * p >= nofPrb
    requires And(Mask(a), Mask(b)) == 0
    ensures var both := Selection(Or(Mask(a), Mask(b)), |a|);
            CountTrue(Prbs(both, p, nofPrb)) == CountTrue(Prbs(a, p, nofPrb)) + CountTrue(Prbs(b, p, nofPrb))
  {
    var both := Selection(Or(Mask(a), Mask(b)), |a|);
    MasksDisjoint(a, b);
    forall n | 0 <= n < |a| ensures both[n] == (a[n] || b[n]) {
      UnionOfMasks(a, b, n);
    }
    PrbsOfUnion(a, b, both, p, nofPrb);
  }

  lemma {:induction false} FullMask(sel: seq<bool>)
    requires forall n | 0 <= n < |sel| :: sel[n]
    ensures Mask(sel) == Pow2(|sel|) - 1
  {
    if |sel| > 0 { FullMask(sel[..|sel| - 1]); }
  }

  /** The full selection covers the whole carrier. */
  lemma FullMaskCoversCarrier(sel: seq<bool>, p: nat, nofPrb: nat)
    requires p > 0 && |sel| * p >= nofPrb
    requires forall n | 0 <= n < |sel| :: sel[n]
    ensures Mask(sel) == Pow2(|sel|) - 1
    ensures CountTrue(Prbs(sel, p, nofPrb)) == nofPrb
  {
    FullMask(sel);
    forall j | 0 <= j < nofPrb ensures Prbs(sel, p, nofPrb)[j] { GroupBound(j, p, |sel|); }
    CountSame(Prbs(sel, p, nofPrb), true);
  }
}
