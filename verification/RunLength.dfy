/** Occupancy columns of zeros and ones, and their off/on run lengths (getOffOn.m, get01.m). */
module RunLength {
  import opened Vectors

  /** One cycle: an idle period followed by a busy period. */
  datatype Cycle = Cycle(off: nat, on: nat)

  predicate Positive(cs: seq<Cycle>) {
    forall i | 0 <= i < |cs| :: cs[i].off > 0 && cs[i].on > 0
  }

  predicate Binary(x: seq<int>) {
    forall i | 0 <= i < |x| :: x[i] == 0 || x[i] == 1
  }

  // ---- The printer

  function One(c: Cycle): seq<int> {
    Repeat(0, c.off) + Repeat(1, c.on)
  }

  /** The column of a sequence of cycles. */
  function Expand(cs: seq<Cycle>): seq<int> {
    if |cs| == 0 then [] else Expand(cs[..|cs| - 1]) + One(cs[|cs| - 1])
  }

  function Length(cs: seq<Cycle>): nat {
    if |cs| == 0 then 0 else Length(cs[..|cs| - 1]) + cs[|cs| - 1].off + cs[|cs| - 1].on
  }

  /** A column of `fit` entries, or nothing when the cycles are too short for it. */
  datatype Column = NotANumber | Column(values: seq<int>)

  method WriteCycle(tmp: array<int>, idx: nat, c: Cycle)
    requires idx + c.off + c.on <= tmp.Length
    modifies tmp
    ensures tmp[..idx + c.off + c.on] == old(tmp[..idx]) + One(c)
  {
    ghost var done := tmp[..idx];
    var length := c.off + c.on;
    for k := 0 to length
      invariant tmp[..idx] == done
      invariant forall i | 0 <= i < k :: tmp[idx + i] == One(c)[i]
    {
      tmp[idx + k] := if k < c.off then 0 else 1;
    }
  }

  lemma {:induction false} ExpandLength(cs: seq<Cycle>)
    ensures |Expand(cs)| == Length(cs)
  {
    if |cs| > 0 { ExpandLength(cs[..|cs| - 1]); }
  }

  lemma {:induction false} PrefixLength(cs: seq<Cycle>, n: nat)
    requires n <= |cs|
    ensures Length(cs[..n]) <= Length(cs)
    decreases |cs|
  {
    if n < |cs| {
      PrefixLength(cs[..|cs| - 1], n);
      assert cs[..|cs| - 1][..n] == cs[..n];
    } else {
      assert cs[..n] == cs;
    }
  }

  /** get01 for one pair of columns: the cycles are written one after the other and cut to size. */
  method Get01(cs: seq<Cycle>, fit: nat) returns (r: Column)
    ensures r.NotANumber? <==> Length(cs) < fit
    ensures r.Column? ==> fit <= |Expand(cs)| && r.values == Expand(cs)[..fit]
  {
    var total := 0;
    for i := 0 to |cs|
      invariant total == Length(cs[..i])
    {
      assert cs[..i + 1][..i] == cs[..i];
      total := total + cs[i].off + cs[i].on;
    }
    assert cs[..|cs|] == cs;
    ExpandLength(cs);
    if total < fit {
      return NotANumber;
    }
    var tmp := new int[total](_ => 0);
    var idx := 0;
    for j := 0 to |cs|
      invariant idx == Length(cs[..j]) <= total
      invariant tmp[..idx] == Expand(cs[..j])
    {
      assert cs[..j + 1][..j] == cs[..j];
      PrefixLength(cs, j + 1);
      WriteCycle(tmp, idx, cs[j]);
      idx := idx + cs[j].off + cs[j].on;
    }
    assert tmp[..total] == Expand(cs);
    r := Column(tmp[..fit]);
  }

  // ---- The parser, on vectors

  /** The change into each entry: -1 where the column falls, 1 where it rises. */
  function Changes(x: seq<int>): (d: seq<int>)
    ensures |d| == |x|
  {
    seq(|x|, i requires 0 <= i < |x| => if i == 0 then 0 else x[i] - x[i - 1])
  }

  /** The positions of `v` in `d`, in order. */
  function Find(d: seq<int>, v: int): (ps: seq<nat>) {
    if |d| == 0 then []
    else Find(d[..|d| - 1], v) + (if d[|d| - 1] == v then [|d| - 1] else [])
  }

  lemma {:induction false} FindIs(d: seq<int>, v: int)
    ensures forall i | 0 <= i < |Find(d, v)| :: Find(d, v)[i] < |d| && d[Find(d, v)[i]] == v
    ensures forall i, j | 0 <= i < j < |Find(d, v)| :: Find(d, v)[i] < Find(d, v)[j]
  {
    if |d| > 0 { FindIs(d[..|d| - 1], v); }
  }

  /** Vector difference; vectors of different lengths have none. */
  datatype Vector = Mismatch | Vector(v: seq<int>)

  function Minus(a: seq<int>, b: seq<int>): Vector {
    if |a| != |b| then Mismatch else Vector(seq(|a|, i requires 0 <= i < |a| => a[i] - b[i]))
  }

  /** The lengths between consecutive positions, the last one up to the end. */
  function Gaps(ps: seq<nat>, end: nat): (g: seq<int>)
    requires |ps| > 0
    ensures |g| == |ps|
  {
    seq(|ps|, i requires 0 <= i < |ps| => if i + 1 < |ps| then ps[i + 1] - ps[i] else end - ps[i])
  }

  /** Off and on times found between the first and the last falling edge; none with fewer than two falling edges. */
  datatype OffOn = TooShort | OffOn(off: Vector, on: Vector)

  /** The off and on times of a slice of changes that starts with a fall. */
  function Decode(d: seq<int>): OffOn {
    var falls := Find(d, -1);
    if |falls| == 0 then TooShort else
    var gaps := Gaps(falls, |d|);
    var off := Minus(Find(d, 1), falls);
    OffOn(off, if off.Mismatch? then Mismatch else Minus(gaps, off.v))
  }

  /** Where a column falls. */
  function FallsOf(x: seq<int>): (ps: seq<nat>)
    ensures forall i | 0 <= i < |ps| :: ps[i] < |x| && Changes(x)[ps[i]] == -1
    ensures forall i, j | 0 <= i < j < |ps| :: ps[i] < ps[j]
  {
    FindIs(Changes(x), -1);
    Find(Changes(x), -1)
  }

  /** The part of a column's vector `d` from the first to the last of the positions `falls`. */
  function Between(d: seq<int>, falls: seq<nat>): seq<int>
    requires |falls| >= 2 && falls[0] <= falls[|falls| - 1] <= |d|
  {
    d[falls[0]..falls[|falls| - 1]]
  }

  function GetOffOn(x: seq<int>): OffOn {
    if |FallsOf(x)| < 2 then TooShort else Decode(Between(Changes(x), FallsOf(x)))
  }

  function Offs(cs: seq<Cycle>): (v: seq<int>)
    ensures |v| == |cs| && forall i | 0 <= i < |cs| :: v[i] == cs[i].off
  {
    seq(|cs|, i requires 0 <= i < |cs| => cs[i].off)
  }

  function Ons(cs: seq<Cycle>): (v: seq<int>)
    ensures |v| == |cs| && forall i | 0 <= i < |cs| :: v[i] == cs[i].on
  {
    seq(|cs|, i requires 0 <= i < |cs| => cs[i].on)
  }

  /** The off times and the on times of a sequence of cycles. */
  function Times(cs: seq<Cycle>): OffOn {
    OffOn(Vector(Offs(cs)), Vector(Ons(cs)))
  }

  // ---- Cycles seen as changes

  /** The changes of one cycle that follows a busy period. */
  function Edges(c: Cycle): (d: seq<int>)
    requires c.off > 0 && c.on > 0
    ensures |d| == c.off + c.on
  {
    seq(c.off + c.on, i => if i == 0 then -1 else if i == c.off then 1 else 0)
  }

  function AllEdges(cs: seq<Cycle>): (d: seq<int>)
    requires Positive(cs)
    ensures |d| == Length(cs)
  {
    if |cs| == 0 then [] else AllEdges(cs[..|cs| - 1]) + Edges(cs[|cs| - 1])
  }

  function Shift(ps: seq<nat>, k: nat): (r: seq<nat>)
    ensures |r| == |ps|
  {
    seq(|ps|, i requires 0 <= i < |ps| => ps[i] + k)
  }

  lemma {:induction false} FindConcat(a: seq<int>, b: seq<int>, v: int)
    ensures Find(a + b, v) == Find(a, v) + Shift(Find(b, v), |a|)
  {
    if |b| == 0 {
      assert a + b == a;
    } else {
      var b' := b[..|b| - 1];
      FindConcat(a, b', v);
      assert (a + b)[..|a + b| - 1] == a + b';
      assert Shift(Find(b, v), |a|)
          == Shift(Find(b', v), |a|) + (if b[|b| - 1] == v then [|b| - 1 + |a|] else []);
    }
  }

  lemma {:induction false} FindNone(d: seq<int>, v: int)
    requires forall i | 0 <= i < |d| :: d[i] != v
    ensures Find(d, v) == []
  {
    if |d| > 0 { FindNone(d[..|d| - 1], v); }
  }

  lemma {:induction false} FindOne(d: seq<int>, v: int, k: nat)
    requires k < |d| && forall i | 0 <= i < |d| :: d[i] == v <==> i == k
    ensures Find(d, v) == [k]
  {
    if k < |d| - 1 {
      FindOne(d[..|d| - 1], v, k);
    } else {
      FindNone(d[..|d| - 1], v);
    }
  }

  /** Where the cycles start, and where their busy periods start. */
  function Starts(cs: seq<Cycle>): (ps: seq<nat>)
    ensures |ps| == |cs|
  {
    if |cs| == 0 then [] else Starts(cs[..|cs| - 1]) + [Length(cs[..|cs| - 1])]
  }

  function Rises(cs: seq<Cycle>): (ps: seq<nat>)
    ensures |ps| == |cs|
  {
    if |cs| == 0 then [] else Rises(cs[..|cs| - 1]) + [Length(cs[..|cs| - 1]) + cs[|cs| - 1].off]
  }

  lemma FindInEdges(c: Cycle)
    requires c.off > 0 && c.on > 0
    ensures Find(Edges(c), -1) == [0] && Find(Edges(c), 1) == [c.off]
  {
    var e := Edges(c);
    forall i | 0 <= i < |e| ensures e[i] == if i == 0 then -1 else if i == c.off then 1 else 0 {
    }
    FindOne(e, -1, 0);
    FindOne(e, 1, c.off);
  }

  /** The one position of `v` in the second part comes after those in the first part. */
  lemma FindAppend(d: seq<int>, e: seq<int>, v: int, k: nat)
    requires Find(e, v) == [k]
    ensures Find(d + e, v) == Find(d, v) + [|d| + k]
  {
    FindConcat(d, e, v);
    assert Shift([k], |d|) == [|d| + k];
  }

  lemma NextStart(init: seq<Cycle>, c: Cycle)
    requires Positive(init) && c.off > 0 && c.on > 0 && Find(AllEdges(init), -1) == Starts(init)
    ensures Find(AllEdges(init) + Edges(c), -1) == Starts(init + [c])
  {
    FindInEdges(c);
    FindAppend(AllEdges(init), Edges(c), -1, 0);
    assert (init + [c])[..|init|] == init;
  }

  lemma NextRise(init: seq<Cycle>, c: Cycle)
    requires Positive(init) && c.off > 0 && c.on > 0 && Find(AllEdges(init), 1) == Rises(init)
    ensures Find(AllEdges(init) + Edges(c), 1) == Rises(init + [c])
  {
    FindInEdges(c);
    FindAppend(AllEdges(init), Edges(c), 1, c.off);
    assert (init + [c])[..|init|] == init;
  }

  /** The changes of a sequence of cycles fall where a cycle starts and rise where its busy period starts. */
  lemma {:induction false} FindInAllEdges(cs: seq<Cycle>)
    requires Positive(cs)
    ensures Find(AllEdges(cs), -1) == Starts(cs) && Find(AllEdges(cs), 1) == Rises(cs)
  {
    if |cs| > 0 {
      var init, c := cs[..|cs| - 1], cs[|cs| - 1];
      FindInAllEdges(init);
      NextStart(init, c);
      NextRise(init, c);
      assert init + [c] == cs;
    }
  }

  lemma {:induction false} StartsApart(cs: seq<Cycle>, i: nat)
    requires i < |cs|
    ensures Rises(cs)[i] == Starts(cs)[i] + cs[i].off
    ensures (if i + 1 < |cs| then Starts(cs)[i + 1] else Length(cs)) == Starts(cs)[i] + cs[i].off + cs[i].on
  {
    if i < |cs| - 1 { StartsApart(cs[..|cs| - 1], i); }
  }

  lemma MinusIs(a: seq<int>, b: seq<int>, c: seq<int>)
    requires |a| == |b| == |c| && forall i | 0 <= i < |a| :: a[i] - b[i] == c[i]
    ensures Minus(a, b) == Vector(c)
  {
    assert Minus(a, b).v == c;
  }

  lemma OffTimes(cs: seq<Cycle>)
    ensures Minus(Rises(cs), Starts(cs)) == Vector(Offs(cs))
  {
    var rises, starts, off := Rises(cs), Starts(cs), Offs(cs);
    forall i | 0 <= i < |cs| ensures rises[i] == starts[i] + off[i] {
      StartsApart(cs, i);
      assert off[i] == cs[i].off;
    }
    MinusIs(rises, starts, off);
  }

  lemma GapAt(cs: seq<Cycle>, i: nat)
    requires i < |cs|
    ensures Gaps(Starts(cs), Length(cs))[i] == cs[i].off + cs[i].on
  {
    StartsApart(cs, i);
  }

  lemma OnTimes(cs: seq<Cycle>)
    requires |cs| > 0
    ensures Minus(Gaps(Starts(cs), Length(cs)), Offs(cs)) == Vector(Ons(cs))
  {
    var gaps := Gaps(Starts(cs), Length(cs));
    forall i | 0 <= i < |cs| ensures gaps[i] == cs[i].off + cs[i].on {
      GapAt(cs, i);
    }
    MinusIs(gaps, Offs(cs), Ons(cs));
  }

  /** Decoding the changes of positive cycles gives their off and on times. */
  lemma DecodeEdges(cs: seq<Cycle>)
    requires Positive(cs) && |cs| > 0
    ensures Decode(AllEdges(cs)) == Times(cs)
  {
    FindInAllEdges(cs);
    OffTimes(cs);
    OnTimes(cs);
  }

  // ---- Parsing what was printed

  /** The changes of the first cycle of a column: nothing falls into it. */
  function FirstEdges(c: Cycle): (d: seq<int>)
    requires c.off > 0 && c.on > 0
    ensures |d| == c.off + c.on
  {
    seq(c.off + c.on, i => if i == c.off then 1 else 0)
  }

  lemma ChangesAppend(x: seq<int>, c: Cycle)
    requires c.off > 0 && c.on > 0 && |x| > 0 && x[|x| - 1] == 1
    ensures Changes(x + One(c)) == Changes(x) + Edges(c)
  {
    var y := x + One(c);
    forall i | 0 <= i < |y| ensures Changes(y)[i] == (Changes(x) + Edges(c))[i] {
      if i > |x| {
        assert y[i] == One(c)[i - |x|] && y[i - 1] == One(c)[i - 1 - |x|];
      } else if i == |x| {
        assert y[i] == One(c)[0];
      }
    }
  }

  lemma ChangesFirst(c: Cycle)
    requires c.off > 0 && c.on > 0
    ensures Changes(One(c)) == FirstEdges(c)
  {
    forall i | 0 <= i < c.off + c.on ensures Changes(One(c))[i] == FirstEdges(c)[i] {
    }
  }

  lemma EndsBusy(cs: seq<Cycle>)
    requires Positive(cs) && |cs| > 0
    ensures |Expand(cs)| > 0 && Expand(cs)[|Expand(cs)| - 1] == 1
  {
  }

  lemma ExpandAppend(cs: seq<Cycle>, c: Cycle)
    ensures Expand(cs + [c]) == Expand(cs) + One(c)
    ensures Positive(cs) && c.off > 0 && c.on > 0 ==> AllEdges(cs + [c]) == AllEdges(cs) + Edges(c)
  {
    assert (cs + [c])[..|cs|] == cs;
  }

  lemma Associate(a: seq<int>, b: seq<int>, c: seq<int>)
    ensures a + b + c == a + (b + c)
  {
  }

  lemma ExpandChangesStep(init: seq<Cycle>, c: Cycle)
    requires Positive(init) && |init| > 0 && c.off > 0 && c.on > 0
    requires Changes(Expand(init)) == FirstEdges(init[0]) + AllEdges(init[1..])
    ensures Changes(Expand(init + [c])) == FirstEdges(init[0]) + AllEdges(init[1..] + [c])
  {
    ExpandAppend(init, c);
    EndsBusy(init);
    ChangesAppend(Expand(init), c);
    ExpandAppend(init[1..], c);
    Associate(FirstEdges(init[0]), AllEdges(init[1..]), Edges(c));
  }

  /** The changes of a printed column. */
  lemma {:induction false} ExpandChanges(cs: seq<Cycle>)
    requires Positive(cs) && |cs| > 0
    ensures Changes(Expand(cs)) == FirstEdges(cs[0]) + AllEdges(cs[1..])
  {
    var init, c := cs[..|cs| - 1], cs[|cs| - 1];
    if |init| > 0 {
      ExpandChanges(init);
      ExpandChangesStep(init, c);
      assert init + [c] == cs && init[1..] + [c] == cs[1..];
    } else {
      assert Expand(cs) == One(c);
      ChangesFirst(c);
    }
  }

  lemma FallsAfterFirst(c: Cycle, tail: seq<Cycle>)
    requires c.off > 0 && c.on > 0 && Positive(tail)
    ensures Find(FirstEdges(c) + AllEdges(tail), -1) == Shift(Starts(tail), c.off + c.on)
  {
    FindNone(FirstEdges(c), -1);
    FindConcat(FirstEdges(c), AllEdges(tail), -1);
    FindInAllEdges(tail);
  }

  lemma MiddlePart(a: seq<int>, b: seq<int>, c: seq<int>, falls: seq<nat>)
    requires |falls| >= 2 && falls[0] == |a| && falls[|falls| - 1] == |a| + |b|
    ensures Between(a + (b + c), falls) == b
  {
  }

  lemma {:induction false} FirstStart(cs: seq<Cycle>)
    requires |cs| > 0
    ensures Starts(cs)[0] == 0
  {
    if |cs| > 1 { FirstStart(cs[..|cs| - 1]); }
  }

  /** Where the cycles after the first start: the second one first, the last one last. */
  lemma ShiftedStarts(tail: seq<Cycle>, k: nat)
    requires |tail| >= 2
    ensures var falls := Shift(Starts(tail), k);
            falls[0] == k && falls[|falls| - 1] == k + Length(tail[..|tail| - 1])
  {
    FirstStart(tail);
  }

  /** The first falling edge is where the first cycle ends, the last one where the last cycle starts. */
  lemma FallEnds(cs: seq<Cycle>)
    requires Positive(cs) && |cs| >= 3
    ensures var falls := FallsOf(Expand(cs));
            && |falls| >= 2 && falls[0] == cs[0].off + cs[0].on
            && falls[|falls| - 1] == falls[0] + Length(cs[1..|cs| - 1])
  {
    var tail := cs[1..];
    ExpandChanges(cs);
    FallsAfterFirst(cs[0], tail);
    assert tail[..|tail| - 1] == cs[1..|cs| - 1];
    ShiftedStarts(tail, cs[0].off + cs[0].on);
  }

  /** The column of at least three positive cycles, between its first and its last falling edge, is all its cycles
      but the first and the last. */
  lemma PrintedFalls(cs: seq<Cycle>)
    requires Positive(cs) && |cs| >= 3
    ensures var x := Expand(cs);
            |FallsOf(x)| >= 2 && Between(Changes(x), FallsOf(x)) == AllEdges(cs[1..|cs| - 1])
  {
    var mid, last := cs[1..|cs| - 1], cs[|cs| - 1];
    var a, b, c := FirstEdges(cs[0]), AllEdges(mid), Edges(last);
    assert Changes(Expand(cs)) == a + (b + c) by {
      ExpandChanges(cs);
      assert mid + [last] == cs[1..];
      ExpandAppend(mid, last);
    }
    FallEnds(cs);
    MiddlePart(a, b, c, FallsOf(Expand(cs)));
  }

  /** Printing at least three positive cycles and parsing the column gives back every cycle but the first and the
      last. */
  lemma PrintParse(cs: seq<Cycle>)
    requires Positive(cs) && |cs| >= 3
    ensures GetOffOn(Expand(cs)) == Times(cs[1..|cs| - 1])
  {
    PrintedFalls(cs);
    DecodeEdges(cs[1..|cs| - 1]);
  }

  // ---- Printing what was parsed

  predicate Falls(x: seq<int>, k: nat) {
    0 < k < |x| && x[k - 1] == 1 && x[k] == 0
  }

  lemma {:induction false} FindComplete(d: seq<int>, v: int, k: nat) returns (i: nat)
    requires k < |d| && d[k] == v
    ensures i < |Find(d, v)| && Find(d, v)[i] == k
  {
    if k == |d| - 1 {
      i := |Find(d, v)| - 1;
    } else {
      i := FindComplete(d[..|d| - 1], v, k);
    }
  }

  lemma StaysBusy(x: seq<int>, q: nat)
    requires Binary(x) && 0 < q < |x| && x[q - 1] == 1 && !Falls(x, q)
    ensures x[q] == 1
  {
  }

  lemma EdgesOfSlice(x: seq<int>, f: nat, c: Cycle)
    requires 0 < f && f + c.off + c.on <= |x| && x[f - 1] == 1 && c.off > 0 && c.on > 0
    requires x[f..f + c.off + c.on] == One(c)
    ensures Changes(x)[f..f + c.off + c.on] == Edges(c)
  {
    var n := c.off + c.on;
    forall i | 0 <= i < n ensures Changes(x)[f + i] == Edges(c)[i] {
      assert x[f + i] == x[f..f + n][i];
      if i > 0 { assert x[f + i - 1] == x[f..f + n][i - 1]; }
    }
  }

  /** The cycle that starts at a fall and ends at the next one. */
  lemma CycleAt(x: seq<int>, f: nat, m: nat) returns (c: Cycle)
    requires Binary(x) && f < m && Falls(x, f) && Falls(x, m) && forall k | f < k < m :: !Falls(x, k)
    ensures c.off > 0 && c.on > 0 && f + c.off + c.on == m
    ensures x[f..m] == One(c) && Changes(x)[f..m] == Edges(c)
  {
    var r := f;
    while x[r] == 0
      invariant f <= r < m
      invariant forall k | f <= k < r :: x[k] == 0
      decreases m - r
    {
      r := r + 1;
    }
    var q := r;
    while q < m
      invariant r <= q <= m
      invariant forall k | r <= k < q :: x[k] == 1
    {
      if q > r { StaysBusy(x, q); }
      q := q + 1;
    }
    c := Cycle(r - f, m - r);
    forall i | 0 <= i < m - f ensures x[f..m][i] == One(c)[i] {
    }
    EdgesOfSlice(x, f, c);
  }

  lemma SliceConcat(x: seq<int>, f: nat, m: nat, l: nat)
    requires f <= m <= l <= |x|
    ensures x[f..l] == x[f..m] + x[m..l]
  {
  }

  /** Every stretch from one fall to a later one is a sequence of positive cycles. */
  lemma {:induction false} SliceIsCycles(x: seq<int>, f: nat, l: nat) returns (cs: seq<Cycle>)
    requires Binary(x) && f <= l && Falls(x, f) && Falls(x, l)
    ensures Positive(cs) && x[f..l] == Expand(cs) && Changes(x)[f..l] == AllEdges(cs)
    ensures f < l ==> |cs| > 0
    decreases l
  {
    if f == l {
      cs := [];
    } else {
      var m := l - 1;
      while !Falls(x, m)
        invariant f <= m < l
        invariant forall k | m < k < l :: !Falls(x, k)
        decreases m
      {
        m := m - 1;
      }
      var init := SliceIsCycles(x, f, m);
      var c := CycleAt(x, m, l);
      cs := init + [c];
      assert cs[..|cs| - 1] == init;
      SliceConcat(x, f, m, l);
      SliceConcat(Changes(x), f, m, l);
    }
  }

  lemma FallsFall(x: seq<int>, i: nat)
    requires Binary(x) && i < |FallsOf(x)|
    ensures Falls(x, FallsOf(x)[i])
  {
    var k := FallsOf(x)[i];
    assert Changes(x)[k] == -1;
  }

  /** Parsing any column of zeros and ones with at least two falling edges gives positive off and on times, and
      printing them again reproduces the column from its first falling edge up to its last. */
  lemma ParsePrint(x: seq<int>) returns (cs: seq<Cycle>)
    requires Binary(x) && |FallsOf(x)| >= 2
    ensures Positive(cs) && GetOffOn(x) == Times(cs) && Between(x, FallsOf(x)) == Expand(cs)
  {
    var falls := FallsOf(x);
    FallsFall(x, 0);
    FallsFall(x, |falls| - 1);
    cs := SliceIsCycles(x, falls[0], falls[|falls| - 1]);
    DecodeEdges(cs);
  }

  /** Nothing else is a falling edge, so the first and the last one found are the first and the last there are. */
  lemma FallsComplete(x: seq<int>, k: nat)
    requires Falls(x, k)
    ensures k in FallsOf(x)
  {
    assert Changes(x)[k] == -1;
    var i := FindComplete(Changes(x), -1, k);
  }

  function Count(x: seq<int>, v: int): nat {
    if |x| == 0 then 0 else Count(x[..|x| - 1], v) + (if x[|x| - 1] == v then 1 else 0)
  }

  lemma {:induction false} CountConcat(a: seq<int>, b: seq<int>, v: int)
    ensures Count(a + b, v) == Count(a, v) + Count(b, v)
  {
    if |b| == 0 {
      assert a + b == a;
    } else {
      CountConcat(a, b[..|b| - 1], v);
      assert (a + b)[..|a + b| - 1] == a + b[..|b| - 1];
    }
  }

  lemma {:induction false} CountRepeat(e: int, n: nat, v: int)
    ensures Count(Repeat(e, n), v) == if e == v then n else 0
  {
    if n > 0 {
      assert Repeat(e, n)[..n - 1] == Repeat(e, n - 1);
      CountRepeat(e, n - 1, v);
    }
  }

  /** The off times add up to the zeros of the column, the on times to its ones. */
  lemma {:induction false} TimesAddUp(cs: seq<Cycle>)
    ensures Sum(Times(cs).off.v) == Count(Expand(cs), 0) && Sum(Times(cs).on.v) == Count(Expand(cs), 1)
  {
    if |cs| > 0 {
      var init, c := cs[..|cs| - 1], cs[|cs| - 1];
      TimesAddUp(init);
      CountConcat(Expand(init), One(c), 0); CountConcat(Expand(init), One(c), 1);
      CountConcat(Repeat(0, c.off), Repeat(1, c.on), 0); CountConcat(Repeat(0, c.off), Repeat(1, c.on), 1);
      CountRepeat(0, c.off, 0); CountRepeat(0, c.off, 1);
      CountRepeat(1, c.on, 0); CountRepeat(1, c.on, 1);
      assert Times(cs).off.v[..|cs| - 1] == Times(init).off.v;
      assert Times(cs).on.v[..|cs| - 1] == Times(init).on.v;
    }
  }

  /** No idle or busy time between the first and the last falling edge is lost. */
  lemma TimeConserved(x: seq<int>)
    requires Binary(x) && |FallsOf(x)| >= 2
    ensures var r := GetOffOn(x);
            && r.OffOn? && r.off.Vector? && r.on.Vector?
            && Sum(r.off.v) == Count(Between(x, FallsOf(x)), 0)
            && Sum(r.on.v) == Count(Between(x, FallsOf(x)), 1)
  {
    var cs := ParsePrint(x);
    TimesAddUp(cs);
  }
}
