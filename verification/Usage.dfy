/** The decoder of resource allocation indicators into per-PRB usage vectors (get_usage.m). */
module Usage {
  import opened Bits
  import opened Rbg
  import opened Vectors
  import Modular

  /** A resource allocation indicator: a type-0 RBG mask, a type-2 PRB range, or a type that is not decoded. */
  datatype Indicator = Type0(mask: nat) | Type2(start: nat, len: nat) | Other

  /** Every element of `v`, `p` times over. */
  function RepElem(v: seq<int>, p: nat): (r: seq<int>)
    ensures |r| == |v| * p
  {
    if |v| == 0 then [] else RepElem(v[..|v| - 1], p) + Repeat(v[|v| - 1], p)
  }

  /** The bits `n`-1 down to 0 of a word. */
  function BitsDown(mask: nat, n: nat): (v: seq<int>)
    ensures |v| == n
  {
    seq(n, i requires 0 <= i < n => if Bit(mask, n - 1 - i) then 1 else 0)
  }

  function Either(a: seq<int>, b: seq<int>): (r: seq<int>)
    requires |a| == |b|
    ensures |r| == |a|
  {
    seq(|a|, i requires 0 <= i < |a| => if a[i] != 0 || b[i] != 0 then 1 else 0)
  }

  /** The vector a type-0 mask stands for, before it is merged with what was marked already. */
  function MaskUsage(mask: nat, nrb: nat): (v: seq<int>)
    requires nrb > 0
    ensures |v| == nrb
  {
    var p, n := GroupSize(nrb), NofGroups(nrb);
    var bits := BitsDown(mask, n);
    RepElem(bits[..n - 1], p) + Repeat(bits[n - 1], nrb - p * (n - 1))
  }

  /** Usage of `nrb` PRBs before and after an assignment; assignments that do not fit are ignored. */
  function Assigned(ra: Indicator, before: seq<int>): (after: seq<int>)
    ensures |after| == |before|
  {
    var nrb := |before|;
    match ra
    case Type2(start, len) =>
      if start + len > nrb then before
      else Either(Repeat(0, start) + Repeat(1, len) + Repeat(0, nrb - (start + len)), before)
    case Type0(mask) =>
      if nrb == 0 then before else
      if mask > Pow2(NofGroups(nrb)) - 1 then before
      else Either(MaskUsage(mask, nrb), before)
    case Other => before
  }

  /** A usage row holds a header, the downlink PRBs and the uplink PRBs. */
  function GetUsage(ra: Indicator, isDown: bool, row: seq<int>): (out: seq<int>)
    requires |row| % 2 == 1
    ensures |out| == |row|
  {
    var nrb := (|row| - 1) / 2;
    if isDown then [row[0]] + Assigned(ra, row[1..nrb + 1]) + row[nrb + 1..]
    else row[..|row| - nrb] + Assigned(ra, row[|row| - nrb..])
  }

  lemma {:induction false} RepElemAt(v: seq<int>, p: nat, j: nat)
    requires p > 0 && j < |v| * p
    ensures j / p < |v| && RepElem(v, p)[j] == v[j / p]
  {
    GroupBound(j, p, |v|);
    var last := |v| - 1;
    if j < last * p {
      RepElemAt(v[..last], p, j);
    } else {
      Modular.DivMod(j, last, j - last * p, p);
    }
  }

  /** All groups but the last are full, and the last one is not empty. */
  lemma LastGroup(nrb: nat)
    requires nrb > 0
    ensures var p, n := GroupSize(nrb), NofGroups(nrb); n > 0 && (n - 1) * p < nrb <= (n - 1) * p + p
  {
    var p, n := GroupSize(nrb), NofGroups(nrb);
    assert n * p == (n - 1) * p + p;
  }

  lemma InFullGroup(bits: seq<int>, p: nat, tail: seq<int>, j: nat)
    requires p > 0 && j < |bits| * p
    ensures j / p < |bits| && (RepElem(bits, p) + tail)[j] == bits[j / p]
  {
    RepElemAt(bits, p, j);
  }

  lemma InLastGroup(bits: seq<int>, p: nat, b: int, m: nat, j: nat)
    requires |bits| * p <= j < |bits| * p + m && m <= p
    ensures j / p == |bits| && (RepElem(bits, p) + Repeat(b, m))[j] == b
  {
    Modular.DivMod(j, |bits|, j - |bits| * p, p);
  }

  lemma MaskUsageAt(sel: seq<bool>, nrb: nat, j: nat)
    requires j < nrb && |sel| == NofGroups(nrb)
    ensures j / GroupSize(nrb) < |sel|
    ensures MaskUsage(Mask(sel), nrb)[j] == if sel[j / GroupSize(nrb)] then 1 else 0
  {
    var p, n := GroupSize(nrb), NofGroups(nrb);
    LastGroup(nrb);
    var bits := BitsDown(Mask(sel), n);
    if j < (n - 1) * p {
      InFullGroup(bits[..n - 1], p, Repeat(bits[n - 1], nrb - p * (n - 1)), j);
    } else {
      InLastGroup(bits[..n - 1], p, bits[n - 1], nrb - p * (n - 1), j);
    }
    MaskBit(sel, j / p);
  }

  /** Decoding the mask of a selection marks PRB j exactly when the group of j is selected, on top of what was
      marked before. */
  lemma DecodeMask(sel: seq<bool>, before: seq<int>, j: nat)
    requires j < |before| && |sel| == NofGroups(|before|)
    ensures |sel| * GroupSize(|before|) >= |before|
    ensures Assigned(Type0(Mask(sel)), before)[j]
            == if Prbs(sel, GroupSize(|before|), |before|)[j] || before[j] != 0 then 1 else 0
  {
    MaskBelow(sel);
    MaskUsageAt(sel, |before|, j);
  }

  lemma {:induction false} SumIsCount(v: seq<int>, m: seq<bool>)
    requires |v| == |m| && forall j | 0 <= j < |v| :: v[j] == if m[j] then 1 else 0
    ensures Sum(v) == CountTrue(m)
  {
    if |v| > 0 { SumIsCount(v[..|v| - 1], m[..|v| - 1]); }
  }

  /** On a row that was idle, the number of PRBs marked is the number of PRBs of the selected groups. */
  lemma MarkedCount(sel: seq<bool>, before: seq<int>)
    requires |before| > 0 && |sel| == NofGroups(|before|)
    requires forall j | 0 <= j < |before| :: before[j] == 0
    ensures |sel| * GroupSize(|before|) >= |before|
    ensures Sum(Assigned(Type0(Mask(sel)), before)) == CountTrue(Prbs(sel, GroupSize(|before|), |before|))
  {
    forall j | 0 <= j < |before|
      ensures Assigned(Type0(Mask(sel)), before)[j] == if Prbs(sel, GroupSize(|before|), |before|)[j] then 1 else 0
    {
      DecodeMask(sel, before, j);
    }
    SumIsCount(Assigned(Type0(Mask(sel)), before), Prbs(sel, GroupSize(|before|), |before|));
  }

  /** A mask with a bit beyond the groups of the carrier changes nothing. */
  lemma IllegalMaskIgnored(mask: nat, k: nat, before: seq<int>)
    requires k >= NofGroups(|before|) && Bit(mask, k)
    ensures Assigned(Type0(mask), before) == before
  {
    if mask < Pow2(NofGroups(|before|)) { NoHighBit(mask, NofGroups(|before|), k); }
  }

  /** A legal range marks its own PRBs and keeps the marks of the others. */
  lemma DecodeRange(start: nat, len: nat, before: seq<int>, j: nat)
    requires start + len <= |before| && j < |before|
    ensures Assigned(Type2(start, len), before)[j] == if start <= j < start + len || before[j] != 0 then 1 else 0
  {
  }

  /** What a range does: nothing exactly if it goes beyond the PRBs of the carrier or marks what was marked before. */
  lemma RangeIgnoredIff(start: nat, len: nat, before: seq<int>)
    requires forall j | 0 <= j < |before| :: before[j] == 0 || before[j] == 1
    ensures Assigned(Type2(start, len), before) == before
            <==> start + len > |before| || forall j | start <= j < start + len :: before[j] == 1
  {
    if start + len <= |before| {
      var after := Assigned(Type2(start, len), before);
      forall j | 0 <= j < |before| ensures after[j] == if start <= j < start + len then 1 else before[j] {
        DecodeRange(start, len, before, j);
      }
    }
  }

  lemma ThreeParts(a: seq<int>, b: seq<int>, c: seq<int>)
    ensures (a + b + c)[|a|..|a| + |b|] == b && (a + b + c)[|a| + |b|..] == c && (a + b + c)[..|a|] == a
  {
  }

  /** A downlink assignment changes the downlink PRBs of a row only, an uplink one the uplink PRBs only. */
  lemma OtherLinkKept(ra: Indicator, header: int, dl: seq<int>, ul: seq<int>)
    requires |dl| == |ul|
    ensures GetUsage(ra, true, [header] + dl + ul) == [header] + Assigned(ra, dl) + ul
    ensures GetUsage(ra, false, [header] + dl + ul) == [header] + dl + Assigned(ra, ul)
  {
    var row := [header] + dl + ul;
    var nrb := (|row| - 1) / 2;
    assert nrb == |dl|;
    ThreeParts([header], dl, ul);
    assert row[..|row| - nrb] == [header] + dl;
  }
}
