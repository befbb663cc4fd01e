/** Allocation of PUCCH resources for scheduling requests (SR) and channel quality reports (CQI): a grid of PRBs and
    subframes with a user count in each cell. */
module Pucch {
  import opened DlProcs
  import opened Modular

  // ---- Configuration indices

  predicate SrPeriod(period: nat) {
    period in {5, 10, 20, 40, 80}
  }

  predicate CqiPeriod(period: nat) {
    period in {2, 5, 10, 20, 40, 80, 160, 32, 64, 128}
  }

  /** The SR configuration index of a period and an offset within it. */
  function SrIndex(period: nat, offset: nat): Option<nat> {
    if !SrPeriod(period) || offset >= period then None else Some(period - 5 + offset)
  }

  /** The CQI configuration index. */
  function CqiIndex(period: nat, offset: nat): Option<nat> {
    if !CqiPeriod(period) || offset >= period then None
    else if period == 32 then Some(318 + offset)
    else if period == 64 then Some(350 + offset)
    else if period == 128 then Some(414 + offset)
    else if period > 2 then Some(period - 3 + offset)
    else Some(offset)
  }

  /** Table 10.1.5-1 of 3GPP TS 36.213, as far as its periods are offered. */
  function SrDecode(index: nat): Option<(nat, nat)> {
    if index <= 4 then Some((5, index))
    else if index <= 14 then Some((10, index - 5))
    else if index <= 34 then Some((20, index - 15))
    else if index <= 74 then Some((40, index - 35))
    else if index <= 154 then Some((80, index - 75))
    else None
  }

  /** Table 7.2.2-1A of 3GPP TS 36.213. */
  function CqiDecode(index: nat): Option<(nat, nat)> {
    if index <= 1 then Some((2, index))
    else if index <= 6 then Some((5, index - 2))
    else if index <= 16 then Some((10, index - 7))
    else if index <= 36 then Some((20, index - 17))
    else if index <= 76 then Some((40, index - 37))
    else if index <= 156 then Some((80, index - 77))
    else if index <= 316 then Some((160, index - 157))
    else if index == 317 then None
    else if index <= 349 then Some((32, index - 318))
    else if index <= 413 then Some((64, index - 350))
    else if index <= 541 then Some((128, index - 414))
    else None
  }

  /** An index that is handed out means its period and offset, and every index of the table can be handed out. */
  lemma SrRoundTrip(period: nat, offset: nat, index: nat)
    ensures SrIndex(period, offset) == Some(index) <==> SrDecode(index) == Some((period, offset))
  {
  }

  lemma CqiRoundTrip(period: nat, offset: nat, index: nat)
    ensures CqiIndex(period, offset) == Some(index) <==> CqiDecode(index) == Some((period, offset))
  {
  }

  // ---- The order in which cells are taken

  /** Every cell before (i, j), row by row, has q+1 users, every other cell q. */
  datatype Front = Front(q: nat, i: nat, j: nat)

  predicate Before(a: nat, b: nat, i: nat, j: nat) {
    a < i || (a == i && b < j)
  }

  function Count(f: Front, a: nat, b: nat): nat {
    f.q + (if Before(a, b, f.i, f.j) then 1 else 0)
  }

  function Next(f: Front, rows: nat, cols: nat): Front {
    if f.j + 1 < cols then Front(f.q, f.i, f.j + 1)
    else if f.i + 1 < rows then Front(f.q, f.i + 1, 0)
    else Front(f.q + 1, 0, 0)
  }

  /** After `n` allocations on an empty grid. */
  function Nth(rows: nat, cols: nat, n: nat): (f: Front)
    requires rows > 0 && cols > 0
    ensures f.i < rows && f.j < cols
  {
    if n == 0 then Front(0, 0, 0) else Next(Nth(rows, cols, n - 1), rows, cols)
  }

  /** The next front has one more user, in the cell of this front. */
  lemma NextCount(f: Front, rows: nat, cols: nat, a: nat, b: nat)
    requires f.i < rows && f.j < cols && a < rows && b < cols
    ensures Count(Next(f, rows, cols), a, b) == Count(f, a, b) + (if a == f.i && b == f.j then 1 else 0)
  {
  }

  predicate Less(f: Front, g: Front) {
    f.q < g.q || (f.q == g.q && Before(f.i, f.j, g.i, g.j))
  }

  lemma {:induction false} NthIncreases(rows: nat, cols: nat, m: nat, n: nat)
    requires rows > 0 && cols > 0 && m < n
    ensures Less(Nth(rows, cols, m), Nth(rows, cols, n))
  {
    if m < n - 1 { NthIncreases(rows, cols, m, n - 1); }
  }

  /** The number of allocations that led to a front. */
  function Index(f: Front, rows: nat, cols: nat): nat {
    f.q * (rows * cols) + f.i * cols + f.j
  }

  lemma OneMore(a: nat, n: nat)
    ensures (a + 1) * n == a * n + n
  {
  }

  lemma IndexNext(f: Front, rows: nat, cols: nat)
    requires f.i < rows && f.j < cols
    ensures Index(Next(f, rows, cols), rows, cols) == Index(f, rows, cols) + 1
  {
    if f.j + 1 == cols {
      OneMore(f.i, cols);
      if f.i + 1 == rows {
        OneMore(f.q, rows * cols);
      }
    }
  }

  /** After `n` allocations the grid was gone through n / (rows * cols) times, row by row. */
  lemma {:induction false} NthIs(rows: nat, cols: nat, n: nat)
    requires rows > 0 && cols > 0
    ensures Index(Nth(rows, cols, n), rows, cols) == n
  {
    if n > 0 {
      NthIs(rows, cols, n - 1);
      IndexNext(Nth(rows, cols, n - 1), rows, cols);
    }
  }

  /** The number of users of the next cell is at most `q` exactly during the first q+1 times around. */
  lemma RoundIff(rows: nat, cols: nat, n: nat, q: nat)
    requires rows > 0 && cols > 0
    ensures Nth(rows, cols, n).q <= q <==> n < (q + 1) * (rows * cols)
  {
    NthIs(rows, cols, n);
    var f := Nth(rows, cols, n);
    MulMono(f.i + 1, rows, cols);
    OneMore(f.i, cols);
    OneMore(f.q, rows * cols);
    if f.q <= q {
      MulMono(f.q + 1, q + 1, rows * cols);
    } else {
      MulMono(q + 1, f.q, rows * cols);
    }
  }

  /** No cell is left out. */
  lemma {:induction false} NthReaches(rows: nat, cols: nat, n: nat, f: Front) returns (m: nat)
    requires rows > 0 && cols > 0 && f.i < rows && f.j < cols && !Less(Nth(rows, cols, n), f)
    ensures m <= n && Nth(rows, cols, m) == f
  {
    if Nth(rows, cols, n) == f { return n; }
    if n > 0 { m := NthReaches(rows, cols, n - 1, f); }
  }

  /** Users per cell: `normalCp` is the normal cyclic prefix. */
  function MaxUsers(normalCp: bool, deltaShift: nat): (m: nat)
    requires 1 <= deltaShift <= 3
    ensures m * deltaShift == (if normalCp then 36 else 24) && 8 <= m <= 36
  {
    12 * (if normalCp then 3 else 2) / deltaShift
  }

  datatype Config = Config(rows: nat, cols: nat, sf: seq<nat>, maxUsers: nat, nCsAn: nat)
  {
    predicate Valid() {
      rows > 0 && cols > 0 && |sf| >= cols && 0 < maxUsers <= 36
    }

    /** The subframes of the columns are different. */
    predicate Injective()
      requires Valid()
    {
      forall a, b | 0 <= a < b < cols :: sf[a] != sf[b]
    }

    function NPucch(f: Front): nat {
      f.i * maxUsers + f.q + nCsAn
    }
  }

  lemma NumberBelow(c: Config, f: Front)
    requires c.Valid() && f.i < c.rows && f.q < c.maxUsers
    ensures c.nCsAn <= c.NPucch(f) < c.nCsAn + c.rows * c.maxUsers
  {
    MulMono(f.i + 1, c.rows, c.maxUsers);
    OneMore(f.i, c.maxUsers);
  }

  lemma RowOf(y: nat, m: nat, rows: nat)
    requires m > 0 && y < rows * m
    ensures y / m < rows && y % m < m && (y / m) * m + y % m == y
  {
    Decompose(y, m);
    if y / m >= rows { MulMono(rows, y / m, m); }
  }

  lemma NumberOf(c: Config, x: nat) returns (f: Front)
    requires c.Valid() && c.nCsAn <= x < c.nCsAn + c.rows * c.maxUsers
    ensures f.i < c.rows && f.q < c.maxUsers && c.NPucch(f) == x
  {
    var y := x - c.nCsAn;
    RowOf(y, c.maxUsers, c.rows);
    f := Front(y % c.maxUsers, y / c.maxUsers, 0);
  }

  /** The numbers of cells with less than `maxUsers` users are all those of the rows, from `nCsAn` on. */
  lemma NumberIff(c: Config, x: nat)
    requires c.Valid()
    ensures (exists f: Front | f.i < c.rows && f.q < c.maxUsers :: c.NPucch(f) == x)
            <==> c.nCsAn <= x < c.nCsAn + c.rows * c.maxUsers
  {
    if f: Front :| f.i < c.rows && f.q < c.maxUsers && c.NPucch(f) == x { NumberBelow(c, f); }
    if c.nCsAn <= x < c.nCsAn + c.rows * c.maxUsers { var f := NumberOf(c, x); }
  }

  /** Two of the first `n` allocations of a run never get the same column and PUCCH number. */
  predicate AllDistinct(c: Config, n: nat)
    requires c.Valid()
  {
    forall a, b | 0 <= a < b < n ::
      var f, g := Nth(c.rows, c.cols, a), Nth(c.rows, c.cols, b);
      c.sf[f.j] != c.sf[g.j] || c.NPucch(f) != c.NPucch(g)
  }

  lemma SameResource(c: Config, f: Front, g: Front)
    requires c.Valid() && c.Injective() && f.i < c.rows && g.i < c.rows && f.j < c.cols && g.j < c.cols
    requires c.rows == 1 || (f.q < c.maxUsers && g.q < c.maxUsers)
    requires c.sf[f.j] == c.sf[g.j] && c.NPucch(f) == c.NPucch(g)
    ensures f == g
  {
    if c.rows > 1 {
      DivMod(f.i * c.maxUsers + f.q, f.i, f.q, c.maxUsers);
      DivMod(f.i * c.maxUsers + f.q, g.i, g.q, c.maxUsers);
    }
  }

  /** All resources handed out are different exactly when every cell was chosen with fewer than `maxUsers` users in it
      or there is one PRB only. (A cell may be chosen with `maxUsers` users.) */
  lemma DistinctIff(c: Config, n: nat)
    requires c.Valid() && c.Injective() && n > 0
    ensures AllDistinct(c, n) <==> c.rows == 1 || Nth(c.rows, c.cols, n - 1).q < c.maxUsers
  {
    var last := Nth(c.rows, c.cols, n - 1);
    if c.rows == 1 || last.q < c.maxUsers {
      forall a, b | 0 <= a < b < n
        ensures var f, g := Nth(c.rows, c.cols, a), Nth(c.rows, c.cols, b);
                c.sf[f.j] != c.sf[g.j] || c.NPucch(f) != c.NPucch(g)
      {
        var f, g := Nth(c.rows, c.cols, a), Nth(c.rows, c.cols, b);
        NthIncreases(c.rows, c.cols, a, b);
        if b < n - 1 { NthIncreases(c.rows, c.cols, b, n - 1); }
        if c.sf[f.j] == c.sf[g.j] && c.NPucch(f) == c.NPucch(g) {
          SameResource(c, f, g);
        }
      }
    } else {
      var a := NthReaches(c.rows, c.cols, n - 1, Front(c.maxUsers, 0, 0));
      var b := NthReaches(c.rows, c.cols, n - 1, Front(0, 1, 0));
      assert c.NPucch(Nth(c.rows, c.cols, a)) == c.NPucch(Nth(c.rows, c.cols, b));
    }
  }

  /** The users of TTI `t` with a period and an offset. */
  predicate SendsIn(t: nat, period: nat, offset: nat) {
    period > 0 && t % period == offset
  }

  /** In some TTI users with this period and these cells send on the same PUCCH number. */
  ghost predicate Meet(c: Config, period: nat, f: Front, g: Front)
    requires c.Valid() && f.j < c.cols && g.j < c.cols
  {
    c.NPucch(f) == c.NPucch(g) && exists t: nat :: SendsIn(t, period, c.sf[f.j]) && SendsIn(t, period, c.sf[g.j])
  }

  lemma MeetIff(c: Config, period: nat, f: Front, g: Front)
    requires c.Valid() && f.j < c.cols && g.j < c.cols && c.sf[f.j] < period
    ensures Meet(c, period, f, g) <==> c.NPucch(f) == c.NPucch(g) && c.sf[f.j] == c.sf[g.j]
  {
    var t := c.sf[f.j];
    DivMod(t, 0, t, period);
    assert SendsIn(t, period, c.sf[f.j]);
  }

  /** No two of the first `n` users with this period ever meet. */
  ghost predicate NeverMeet(c: Config, period: nat, n: nat)
    requires c.Valid()
  {
    forall a, b | 0 <= a < b < n :: !Meet(c, period, Nth(c.rows, c.cols, a), Nth(c.rows, c.cols, b))
  }

  /** All users of the cell get its one configured period, and all offsets lie within it (otherwise nothing is
      allocated). Then no two of them ever send on one PUCCH number in one TTI exactly when every cell was chosen with
      fewer than `maxUsers` users in it or there is one PRB only. */
  lemma NeverMeetIff(c: Config, period: nat, n: nat)
    requires c.Valid() && c.Injective() && n > 0 && forall j | 0 <= j < c.cols :: c.sf[j] < period
    ensures NeverMeet(c, period, n) <==> c.rows == 1 || Nth(c.rows, c.cols, n - 1).q < c.maxUsers
  {
    DistinctIff(c, n);
    forall a, b | 0 <= a < b < n
      ensures var f, g := Nth(c.rows, c.cols, a), Nth(c.rows, c.cols, b);
              Meet(c, period, f, g) <==> c.NPucch(f) == c.NPucch(g) && c.sf[f.j] == c.sf[g.j]
    {
      MeetIff(c, period, Nth(c.rows, c.cols, a), Nth(c.rows, c.cols, b));
    }
  }

  // ---- The grid

  const MAX_ROWS: nat := 100

  const MAX_COLS: nat := 80

  const START_MIN: nat := 1_000_000

  datatype Resource = Resource(index: nat, nPucch: nat, prb: nat, sf: nat)

  class Grid {
    const cfg: Config

    const nofUsers: array2<nat>

    predicate Valid()
      reads nofUsers
    {
      && cfg.Valid() && cfg.rows <= MAX_ROWS && cfg.cols <= MAX_COLS
      && nofUsers.Length0 == MAX_ROWS && nofUsers.Length1 == MAX_COLS
      && forall a, b | 0 <= a < cfg.rows && 0 <= b < cfg.cols :: nofUsers[a, b] <= cfg.maxUsers + 1
    }

    /** The grid is one that allocations from an empty grid lead to. */
    predicate Shows(f: Front)
      requires Valid()
      reads nofUsers
    {
      && f.i < cfg.rows && f.j < cfg.cols
      && forall a, b | 0 <= a < cfg.rows && 0 <= b < cfg.cols :: nofUsers[a, b] == Count(f, a, b)
    }

    /** An empty grid; the users per cell follow from the cyclic prefix and the PUCCH shift. */
    constructor (rows: nat, cols: nat, sf: seq<nat>, normalCp: bool, deltaShift: nat, nCsAn: nat)
      requires 0 < rows <= MAX_ROWS && 0 < cols <= MAX_COLS && |sf| >= cols && 1 <= deltaShift <= 3
      ensures cfg == Config(rows, cols, sf, MaxUsers(normalCp, deltaShift), nCsAn)
      ensures Valid() && fresh(nofUsers) && Shows(Front(0, 0, 0))
    {
      cfg := Config(rows, cols, sf, MaxUsers(normalCp, deltaShift), nCsAn);
      nofUsers := new nat[MAX_ROWS, MAX_COLS]((_, _) => 0);
    }

    /** (i, j) is the first cell, row by row, with the least number of users. */
    predicate FirstLeast(i: nat, j: nat)
      requires Valid()
      reads nofUsers
    {
      && i < cfg.rows && j < cfg.cols
      && forall a, b | 0 <= a < cfg.rows && 0 <= b < cfg.cols ::
           nofUsers[a, b] >= nofUsers[i, j] && (Before(a, b, i, j) ==> nofUsers[a, b] > nofUsers[i, j])
    }

    /** There is only one first least cell; on a grid that was filled from empty it is the front. */
    lemma FrontIsFirstLeast(f: Front, i: nat, j: nat)
      requires Valid() && Shows(f) && FirstLeast(i, j)
      ensures i == f.i && j == f.j && nofUsers[i, j] == f.q
    {
      assert nofUsers[f.i, f.j] == f.q;
    }

    /** Among the cells before (i, j), the cell (x, y) is the first least one and has `n` users. */
    predicate Least(i: nat, j: nat, x: nat, y: nat, n: nat)
      requires Valid()
      reads nofUsers
    {
      && x < cfg.rows && y < cfg.cols && Before(x, y, i, j) && nofUsers[x, y] == n
      && forall a, b | 0 <= a < cfg.rows && 0 <= b < cfg.cols && Before(a, b, i, j) ::
           nofUsers[a, b] >= n && (Before(a, b, x, y) ==> nofUsers[a, b] > n)
    }

    method FindLeast() returns (iMin: nat, jMin: nat)
      requires Valid()
      ensures FirstLeast(iMin, jMin)
    {
      iMin, jMin := 0, 0;
      var minUsers := START_MIN;
      for i := 0 to cfg.rows
        invariant i > 0 ==> Least(i, 0, iMin, jMin, minUsers)
        invariant i == 0 ==> minUsers == START_MIN
      {
        for j := 0 to cfg.cols
          invariant i > 0 || j > 0 ==> Least(i, j, iMin, jMin, minUsers)
          invariant i == 0 && j == 0 ==> minUsers == START_MIN
        {
          if nofUsers[i, j] < minUsers {
            iMin, jMin := i, j;
            minUsers := nofUsers[i, j];
          }
        }
      }
    }

    /** The state after an allocation: one more user in a cell that was a first least one. */
    twostate predicate Takes(indexOf: (nat, nat) -> Option<nat>, period: nat, r: Resource)
      requires old(Valid()) && Valid()
      reads nofUsers
    {
      && old(FirstLeast(r.prb, r.sf)) && old(nofUsers[r.prb, r.sf]) <= cfg.maxUsers
      && indexOf(period, cfg.sf[r.sf]) == Some(r.index)
      && r.nPucch == r.prb * cfg.maxUsers + old(nofUsers[r.prb, r.sf]) + cfg.nCsAn
      && forall a, b | 0 <= a < cfg.rows && 0 <= b < cfg.cols ::
           nofUsers[a, b] == old(nofUsers[a, b]) + (if a == r.prb && b == r.sf then 1 else 0)
    }

    /** One allocation for either purpose: the first least used cell, unless it is full, the period is unknown or the
        subframe of the cell lies outside the period. */
    method Take(indexOf: (nat, nat) -> Option<nat>, period: nat, ghost f: Front) returns (r: Option<Resource>)
      requires Valid()
      modifies nofUsers
      ensures Valid()
      ensures r.None? ==> forall a, b | 0 <= a < cfg.rows && 0 <= b < cfg.cols :: nofUsers[a, b] == old(nofUsers[a, b])
      ensures r.Some? ==> Takes(indexOf, period, r.value)
      ensures old(Shows(f)) ==>
                if f.q <= cfg.maxUsers && indexOf(period, cfg.sf[f.j]).Some?
                then Shows(Next(f, cfg.rows, cfg.cols))
                     && r == Some(Resource(indexOf(period, cfg.sf[f.j]).value, cfg.NPucch(f), f.i, f.j))
                else r == None
    {
      var i, j := FindLeast();
      ghost var filled := Shows(f);
      if filled {
        FrontIsFirstLeast(f, i, j);
      }
      var n := nofUsers[i, j];
      if n > cfg.maxUsers {
        return None;
      }
      var index := indexOf(period, cfg.sf[j]);
      if index.None? {
        return None;
      }
      nofUsers[i, j] := n + 1;
      r := Some(Resource(index.value, i * cfg.maxUsers + n + cfg.nCsAn, i, j));
      if filled {
        forall a, b | 0 <= a < cfg.rows && 0 <= b < cfg.cols
          ensures nofUsers[a, b] == Count(Next(f, cfg.rows, cfg.cols), a, b)
        {
          NextCount(f, cfg.rows, cfg.cols, a, b);
        }
      }
    }

    method SrAllocate(period: nat, ghost f: Front) returns (r: Option<Resource>)
      requires Valid()
      modifies nofUsers
      ensures Valid()
      ensures r.None? ==> forall a, b | 0 <= a < cfg.rows && 0 <= b < cfg.cols :: nofUsers[a, b] == old(nofUsers[a, b])
      ensures r.Some? ==> Takes(SrIndex, period, r.value)
      ensures old(Shows(f)) ==>
                if f.q <= cfg.maxUsers && SrIndex(period, cfg.sf[f.j]).Some?
                then Shows(Next(f, cfg.rows, cfg.cols))
                     && r == Some(Resource(SrIndex(period, cfg.sf[f.j]).value, cfg.NPucch(f), f.i, f.j))
                else r == None
    {
      r := Take(SrIndex, period, f);
    }

    method CqiAllocate(period: nat, ghost f: Front) returns (r: Option<Resource>)
      requires Valid()
      modifies nofUsers
      ensures Valid()
      ensures r.None? ==> forall a, b | 0 <= a < cfg.rows && 0 <= b < cfg.cols :: nofUsers[a, b] == old(nofUsers[a, b])
      ensures r.Some? ==> Takes(CqiIndex, period, r.value)
      ensures old(Shows(f)) ==>
                if f.q <= cfg.maxUsers && CqiIndex(period, cfg.sf[f.j]).Some?
                then Shows(Next(f, cfg.rows, cfg.cols))
                     && r == Some(Resource(CqiIndex(period, cfg.sf[f.j]).value, cfg.NPucch(f), f.i, f.j))
                else r == None
    {
      r := Take(CqiIndex, period, f);
    }

    /** Gives a user's cell back. */
    method Free(prb: nat, sf: nat)
      requires Valid() && prb < cfg.rows && sf < cfg.cols
      modifies nofUsers
      ensures Valid()
      ensures forall a, b | 0 <= a < cfg.rows && 0 <= b < cfg.cols ::
                nofUsers[a, b] == if a == prb && b == sf && old(nofUsers[a, b]) > 0 then old(nofUsers[a, b]) - 1
                                  else old(nofUsers[a, b])
    {
      if nofUsers[prb, sf] > 0 {
        nofUsers[prb, sf] := nofUsers[prb, sf] - 1;
      }
    }
  }
}
