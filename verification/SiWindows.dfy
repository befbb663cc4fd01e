/** System information windows (section 5.2.3 of 3GPP TS 36.331): when the scheduler considers a message to be in its
    window, and when it sends it. Message 0 is SIB1, the others are SI messages. */
module SiWindows {
  import opened Tti
  import opened Modular
  import opened Bits

  const MAX_TX: nat := 4

  const WORD: nat := 0x1_0000_0000

  /** The window of one message: whether it is open, the TTI it opened in, and the transmissions in it so far. */
  datatype Win = Win(isIn: bool, start: nat, nTx: nat)
  {
    predicate Valid() { start < TTI_PERIOD }
  }

  /** Message number, its period in frames and the common window length in ms. */
  datatype Si = Si(i: nat, period: nat, w: nat)
  {
    /** When its window should start within its period, in ms. */
    function X(): nat {
      if i == 0 then 0 else (i - 1) * w
    }

    function Subframe(): nat {
      if i == 0 then 5 else X() % 10
    }

    /** How often the message is to be sent in one window: once for every 10 ms begun, at most four times. */
    function NofTx(): (n: nat)
      ensures 1 <= n <= 4 && (i == 0 ==> n == 4)
      ensures i > 0 ==> (n > 1 ==> w > 10 * (n - 1)) && (n < 4 ==> w <= 10 * n)
    {
      if i == 0 then 4 else if w <= 10 then 1 else if w <= 20 then 2 else if w <= 30 then 3 else 4
    }
  }

  /** The window is opened and closed at the beginning of TTI `t`. */
  function Update(m: Si, win: Win, t: nat): (r: Win)
    requires m.period > 0 && win.Valid() && t < TTI_PERIOD
    ensures r.Valid()
  {
    if !win.isIn then
      if (t / 10) % m.period == m.X() / 10 && t % 10 == m.Subframe() then Win(true, t, 0) else win
    else if m.i > 0 then
      if Interval(t, win.start) > m.w then Win(false, 0, win.nTx) else win
    else if win.nTx == MAX_TX then win.(nTx := 0) else win
  }

  /** The scheduler wants to send the message in TTI `t`. The age of the window is a 32-bit difference. */
  predicate Due(m: Si, win: Win, t: nat)
    requires win.Valid() && t < TTI_PERIOD
  {
    && win.isIn && win.nTx < MAX_TX
    && if m.i == 0 then (t / 10) % 2 == 0 && t % 10 == 5
       else (t - win.start) % WORD >= (m.w / m.NofTx()) * win.nTx && t % 10 == 9
  }

  function After(win: Win, sent: bool): Win {
    if sent then win.(nTx := win.nTx + 1) else win
  }

  /** One TTI: `able` says whether there are RBGs, a DCI and a large enough block for the message. */
  datatype Tick = Tick(t: nat, able: bool)

  predicate InRange(ts: seq<Tick>) {
    forall k | 0 <= k < |ts| :: ts[k].t < TTI_PERIOD
  }

  function Run(m: Si, ts: seq<Tick>): (r: Win)
    requires m.period > 0 && InRange(ts)
    ensures r.Valid()
  {
    if |ts| == 0 then Win(false, 0, 0)
    else
      var k := |ts| - 1;
      var win := Update(m, Run(m, ts[..k]), ts[k].t);
      After(win, ts[k].able && Due(m, win, ts[k].t))
  }

  /** The window at step `k`, after it was opened or closed. */
  function WindowAt(m: Si, ts: seq<Tick>, k: nat): (r: Win)
    requires m.period > 0 && InRange(ts) && k < |ts|
    ensures r.Valid()
  {
    Update(m, Run(m, ts[..k]), ts[k].t)
  }

  predicate SentAt(m: Si, ts: seq<Tick>, k: nat)
    requires m.period > 0 && InRange(ts) && k < |ts|
  {
    ts[k].able && Due(m, WindowAt(m, ts, k), ts[k].t)
  }

  /** TTI `t` lies in the window that the standard gives to the message. */
  predicate Nominal(m: Si, t: nat)
    requires m.period > 0
  {
    m.X() <= t % (10 * m.period) < m.X() + m.w
  }

  /** Periods divide 1024 frames, and the windows of all `count` messages fit into the period. */
  predicate Fits(m: Si, count: nat) {
    && m.period > 0 && 1024 % m.period == 0 && 0 < m.i <= count
    && count * m.w <= 10 * m.period
  }

  /** The phase of a TTI within a period is given by its frame and subframe. */
  lemma Phase(t: nat, p: nat)
    requires p > 0
    ensures t % (10 * p) == 10 * ((t / 10) % p) + t % 10
  {
    Decompose(t / 10, p);
    var q, r := (t / 10) / p, (t / 10) % p;
    assert t == 10 * (q * p + r) + t % 10;
    assert 10 * (q * p) == q * (10 * p);
    DivMod(t, q, 10 * r + t % 10, 10 * p);
  }

  /** `d` TTIs after a TTI of phase `x`, the phase is x+d, also across the wrap of the TTI counter. */
  lemma PhaseLater(start: nat, d: nat, p: nat)
    requires p > 0 && 1024 % p == 0
    ensures ((start + d) % TTI_PERIOD) % (10 * p) == (start % (10 * p) + d) % (10 * p)
  {
    Decompose(1024, p);
    var k := 1024 / p;
    assert k > 0;
    assert k * (10 * p) == 10 * (k * p);
    ModMod(start + d, 10 * p, k);
    AddReduced(start, d, 10 * p);
  }

  /** An open window was opened at the nominal start and is at most one TTI too old. */
  predicate Sound(m: Si, win: Win, t: nat)
    requires m.period > 0 && win.Valid() && t < TTI_PERIOD
  {
    win.isIn ==> win.start % (10 * m.period) == m.X() && Interval(t, win.start) <= m.w
  }

  lemma OpensAtStart(m: Si, t: nat)
    requires m.period > 0 && m.i > 0
    requires (t / 10) % m.period == m.X() / 10 && t % 10 == m.Subframe()
    ensures t % (10 * m.period) == m.X()
  {
    Phase(t, m.period);
  }

  lemma {:induction false} WindowSound(m: Si, ts: seq<Tick>, k: nat)
    requires m.period > 0 && m.i > 0 && InRange(ts) && k < |ts|
    ensures Sound(m, WindowAt(m, ts, k), ts[k].t)
    decreases k
  {
    var before := Run(m, ts[..k]);
    if before.isIn {
      assert k > 0;
      WindowSound(m, ts[..k], k - 1);
      assert ts[..k][..k - 1] == ts[..k - 1];
    } else if WindowAt(m, ts, k).isIn {
      OpensAtStart(m, ts[k].t);
    }
  }

  /** The phase of a TTI in an open window. */
  lemma PhaseInWindow(m: Si, count: nat, win: Win, t: nat)
    requires Fits(m, count) && win.Valid() && t < TTI_PERIOD && win.isIn && Sound(m, win, t)
    ensures var d := Interval(t, win.start);
            t % (10 * m.period) == (m.X() + d) % (10 * m.period) && m.X() + m.w == m.i * m.w <= 10 * m.period
  {
    PhaseLater(win.start, Interval(t, win.start), m.period);
    MulMono(m.i, count, m.w);
    assert (m.i - 1) * m.w + m.w == m.i * m.w;
  }

  lemma LastDigit(t: nat, p: nat)
    requires p > 0
    ensures (t % (10 * p)) % 10 == t % 10
  {
    ModMod(t, 10, p);
  }

  /** A message is sent outside its nominal window exactly when its window should have been closed in this very TTI. */
  lemma SentNominalIff(m: Si, count: nat, ts: seq<Tick>, k: nat)
    requires Fits(m, count) && InRange(ts) && k < |ts| && SentAt(m, ts, k)
    ensures var d := Interval(ts[k].t, WindowAt(m, ts, k).start);
            && d <= m.w && (Nominal(m, ts[k].t) <==> d < m.w)
            && (d == m.w ==> (m.i * m.w) % 10 == 9)
  {
    var t, win := ts[k].t, WindowAt(m, ts, k);
    WindowSound(m, ts, k);
    PhaseInWindow(m, count, win, t);
    LastDigit(t, m.period);
    var d := Interval(t, win.start);
    var y := m.X() + d;
    if y < 10 * m.period {
      DivMod(y, 0, y, 10 * m.period);
    } else {
      DivMod(y, 1, 0, 10 * m.period);
    }
  }

  /** However the scheduler is called and whatever resources it finds, the message is only ever sent in its nominal
      window. */
  ghost predicate StaysInWindow(m: Si)
    requires m.period > 0
  {
    forall ts: seq<Tick>, k: nat | InRange(ts) && k < |ts| && SentAt(m, ts, k) :: Nominal(m, ts[k].t)
  }

  /** The first ticks of one window, of which only number `last` finds resources. */
  function TicksFor(m: Si, last: nat, n: nat): (ts: seq<Tick>)
    ensures |ts| == n && forall k | 0 <= k < n :: ts[k] == Tick(m.X() + k, k == last)
  {
    seq(n, k requires 0 <= k < n => Tick(m.X() + k, k == last))
  }

  lemma {:induction false} WaitInWindow(m: Si, last: nat, n: nat)
    requires m.period > 0 && m.i > 0 && n <= last <= m.w && m.X() + last < TTI_PERIOD && m.X() < 10 * m.period
    requires InRange(TicksFor(m, last, n + 1))
    ensures WindowAt(m, TicksFor(m, last, n + 1), n) == Win(true, m.X(), 0)
  {
    var ts := TicksFor(m, last, n + 1);
    if n == 0 {
      var x := m.X();
      DivMod(x, 0, x, 10 * m.period);
      Phase(x, m.period);
      assert ts[..0] == [];
    } else {
      var us := TicksFor(m, last, n);
      assert ts[..n] == us && us[..n - 1] == ts[..n - 1];
      WaitInWindow(m, last, n - 1);
      assert Run(m, us) == Win(true, m.X(), 0);
    }
  }

  lemma WithinDay(p: nat)
    requires p > 0 && 1024 % p == 0
    ensures 10 * p <= TTI_PERIOD
  {
    Decompose(1024, p);
  }

  lemma EndsInPeriod(m: Si, count: nat)
    requires Fits(m, count) && (m.i * m.w) % 10 == 9
    ensures m.X() + m.w == m.i * m.w < 10 * m.period <= TTI_PERIOD
  {
    MulMono(m.i, count, m.w);
    assert (m.i - 1) * m.w + m.w == m.i * m.w;
    WithinDay(m.period);
    assert (10 * m.period) % 10 == 0;
  }

  /** If nothing is found before, the message is sent in the TTI after its window. */
  lemma LateTick(m: Si)
    requires m.period > 0 && m.i > 0
    requires m.X() + m.w < 10 * m.period <= TTI_PERIOD && (m.X() + m.w) % 10 == 9
    ensures var ts := TicksFor(m, m.w, m.w + 1);
            InRange(ts) && SentAt(m, ts, m.w) && !Nominal(m, ts[m.w].t)
  {
    var end := m.X() + m.w;
    WaitInWindow(m, m.w, m.w);
    DivMod(end, 0, end, 10 * m.period);
  }

  lemma OverrunExists(m: Si, count: nat)
    requires Fits(m, count) && (m.i * m.w) % 10 == 9
    ensures !StaysInWindow(m)
  {
    EndsInPeriod(m, count);
    LateTick(m);
    assert SentAt(m, TicksFor(m, m.w, m.w + 1), m.w);
  }

  /** A message whose window should end in front of a subframe 9 is sent one TTI late if it finds no resources
      earlier; all other messages stay in their windows. */
  lemma StaysIff(m: Si, count: nat)
    requires Fits(m, count)
    ensures StaysInWindow(m) <==> (m.i * m.w) % 10 != 9
  {
    if (m.i * m.w) % 10 != 9 {
      forall ts: seq<Tick>, k: nat | InRange(ts) && k < |ts| && SentAt(m, ts, k) ensures Nominal(m, ts[k].t) {
        SentNominalIff(m, count, ts, k);
      }
    } else {
      OverrunExists(m, count);
    }
  }

  /** In some run the message is sent. */
  ghost predicate EverSent(m: Si)
    requires m.period > 0
  {
    exists ts: seq<Tick>, k: nat | InRange(ts) && k < |ts| :: SentAt(m, ts, k)
  }

  /** A subframe 9 is at most `w` TTIs after phase `x`. */
  lemma NineWithin(x: nat, d: nat, w: nat)
    requires d <= w && (x + d) % 10 == 9
    ensures x % 10 + w >= 9
  {
  }

  lemma NextNine(x: nat, w: nat) returns (d: nat)
    requires x % 10 + w >= 9
    ensures d <= w && (x + d) % 10 == 9
  {
    d := 9 - x % 10;
  }

  lemma SentBeforeNine(m: Si, count: nat, ts: seq<Tick>, k: nat)
    requires Fits(m, count) && InRange(ts) && k < |ts| && SentAt(m, ts, k)
    ensures m.X() % 10 + m.w >= 9
  {
    var t, win := ts[k].t, WindowAt(m, ts, k);
    var d := Interval(t, win.start);
    WindowSound(m, ts, k);
    PhaseInWindow(m, count, win, t);
    LastDigit(t, m.period);
    LastDigit(m.X() + d, m.period);
    NineWithin(m.X(), d, m.w);
  }

  lemma NineIsSent(m: Si, count: nat, d: nat)
    requires Fits(m, count) && d <= m.w && (m.X() + d) % 10 == 9
    ensures InRange(TicksFor(m, d, d + 1)) && SentAt(m, TicksFor(m, d, d + 1), d)
  {
    MulMono(m.i, count, m.w);
    assert (m.i - 1) * m.w + m.w == m.i * m.w;
    WithinDay(m.period);
    assert (10 * m.period) % 10 == 0;
    WaitInWindow(m, d, d);
  }

  /** Messages other than SIB1 are sent in subframe 9 only. So a message is sent in some run exactly if the window, or
      the TTI after it, reaches one: with windows of less than 9 ms some messages never are. */
  lemma EverSentIff(m: Si, count: nat)
    requires Fits(m, count)
    ensures EverSent(m) <==> m.X() % 10 + m.w >= 9
  {
    if EverSent(m) {
      var ts: seq<Tick>, k: nat :| InRange(ts) && k < |ts| && SentAt(m, ts, k);
      SentBeforeNine(m, count, ts, k);
    }
    if m.X() % 10 + m.w >= 9 {
      var d := NextNine(m.X(), m.w);
      NineIsSent(m, count, d);
      assert SentAt(m, TicksFor(m, d, d + 1), d);
    }
  }

  lemma {:induction false} Pow2Splits(a: nat, b: nat)
    ensures Pow2(a + b) == Pow2(b) * Pow2(a) >= Pow2(a)
    ensures b > 0 ==> Pow2(a + b) > Pow2(a)
  {
    if b > 0 {
      Pow2Splits(a, b - 1);
      assert Pow2(a + b) == 2 * Pow2(a + (b - 1));
    }
  }

  lemma HalfProduct(a: nat, b: nat)
    ensures a * (2 * b) == 2 * (a * b)
  {
  }

  lemma EvenFactor(q: nat, p: nat)
    requires p % 2 == 1 && (q * p) % 2 == 0
    ensures q % 2 == 0
  {
    if q % 2 == 1 {
      var x, y := q / 2, p / 2;
      assert q * p == 2 * (x * p + y) + 1 by { HalfProduct(p, x); }
    }
  }

  /** The divisors of a power of two are powers of two. */
  lemma {:induction false} DividesPow2(p: nat, k: nat) returns (a: nat)
    requires p > 0 && Pow2(k) % p == 0
    ensures p == Pow2(a)
  {
    Decompose(Pow2(k), p);
    var q := Pow2(k) / p;
    if p == 1 {
      a := 0;
    } else if k == 0 {
      DivMod(1, 0, 1, p);
    } else if p % 2 == 0 {
      HalfProduct(q, p / 2);
      DivMod(Pow2(k - 1), q, 0, p / 2);
      a := DividesPow2(p / 2, k - 1);
      a := a + 1;
    } else {
      EvenFactor(q, p);
      HalfProduct(p, q / 2);
      DivMod(Pow2(k - 1), q / 2, 0, p);
      a := DividesPow2(p, k - 1);
    }
  }

  /** Of two periods that divide 1024 the longer one is a multiple of the shorter one. */
  lemma PeriodsDivide(p: nat, q: nat)
    requires 0 < p <= q && 1024 % p == 0 && 1024 % q == 0
    ensures q % p == 0
  {
    assert Pow2(10) == 1024;
    var a := DividesPow2(p, 10);
    var b := DividesPow2(q, 10);
    if a > b { Pow2Splits(b, a - b); }
    Pow2Splits(a, b - a);
    DivMod(q, Pow2(b - a), 0, p);
  }

  /** A phase within a long period gives the phase within a shorter one. */
  lemma ShorterPhase(t: nat, p: nat, q: nat)
    requires 0 < p <= q && 1024 % p == 0 && 1024 % q == 0
    ensures (t % (10 * q)) % (10 * p) == t % (10 * p)
  {
    PeriodsDivide(p, q);
    Decompose(q, p);
    var k := q / p;
    assert k > 0;
    assert k * (10 * p) == 10 * (k * p);
    ModMod(t, 10 * p, k);
  }

  /** TTI `t` lies in slot number `s` of periods of `p` frames, if slots are `w` ms long. */
  predicate InSlot(t: nat, s: nat, w: nat, p: nat)
    requires p > 0
  {
    s > 0 && (s - 1) * w <= t % (10 * p) < s * w
  }

  /** The nominal window of message number `i` is slot number `i` of any shorter period that all windows fit into. */
  lemma NominalSlot(m: Si, count: nat, p: nat, t: nat)
    requires Fits(m, count) && 0 < p <= m.period && 1024 % p == 0 && count * m.w <= 10 * p && Nominal(m, t)
    ensures InSlot(t, m.i, m.w, p)
  {
    MulMono(m.i, count, m.w);
    assert (m.i - 1) * m.w + m.w == m.i * m.w;
    ShorterPhase(t, p, m.period);
    var y := t % (10 * m.period);
    DivMod(y, 0, y, 10 * p);
  }

  lemma SameSlot(t: nat, i: nat, j: nat, w: nat, p: nat)
    requires p > 0 && InSlot(t, i, w, p) && InSlot(t, j, w, p)
    ensures i == j
  {
    if i < j { MulMono(i, j - 1, w); } else if j < i { MulMono(j, i - 1, w); }
  }

  /** The shorter period of two messages. */
  function Shorter(a: Si, b: Si): nat {
    if a.period <= b.period then a.period else b.period
  }

  /** The windows of different messages are disjoint. */
  lemma NominalDisjoint(a: Si, b: Si, count: nat, t: nat)
    requires Fits(a, count) && Fits(b, count) && a.w == b.w && a.i != b.i
    ensures !(Nominal(a, t) && Nominal(b, t))
  {
    if Nominal(a, t) && Nominal(b, t) {
      NominalSlot(a, count, Shorter(a, b), t);
      NominalSlot(b, count, Shorter(a, b), t);
      SameSlot(t, a.i, b.i, a.w, Shorter(a, b));
    }
  }

  // ---- Two messages in one TTI

  /** The TTI after the nominal window, if that ends in front of a subframe 9. */
  lemma LateSlot(m: Si, count: nat, p: nat, t: nat)
    requires Fits(m, count) && 0 < p <= m.period && 1024 % p == 0 && count * m.w <= 10 * p
    requires (m.i * m.w) % 10 == 9 && t % (10 * m.period) == (m.i * m.w) % (10 * m.period)
    ensures InSlot(t, m.i + 1, m.w, p)
  {
    var end := m.i * m.w;
    MulMono(m.i, count, m.w);
    assert (10 * p) % 10 == 0 && (10 * m.period) % 10 == 0;
    DivMod(end, 0, end, 10 * m.period);
    ShorterPhase(t, p, m.period);
    DivMod(end, 0, end, 10 * p);
    assert (m.i + 1) * m.w == end + m.w;
  }

  /** A message that is sent is in its own slot or, if i*w ends in 9, in the first TTI of the next one. */
  lemma SentInSlot(m: Si, count: nat, p: nat, ts: seq<Tick>, k: nat) returns (s: nat)
    requires Fits(m, count) && InRange(ts) && k < |ts| && SentAt(m, ts, k)
    requires 0 < p <= m.period && 1024 % p == 0 && count * m.w <= 10 * p
    ensures InSlot(ts[k].t, s, m.w, p)
    ensures s == m.i || (s == m.i + 1 && (m.i * m.w) % 10 == 9)
  {
    var t, win := ts[k].t, WindowAt(m, ts, k);
    SentNominalIff(m, count, ts, k);
    if Interval(t, win.start) < m.w {
      NominalSlot(m, count, p, t);
      s := m.i;
    } else {
      WindowSound(m, ts, k);
      PhaseInWindow(m, count, win, t);
      LateSlot(m, count, p, t);
      s := m.i + 1;
    }
  }

  predicate Coincide(a: Si, b: Si, ts: seq<Tick>, us: seq<Tick>, k: nat)
    requires a.period > 0 && b.period > 0
  {
    && InRange(ts) && InRange(us) && k < |ts| == |us| && (forall j | 0 <= j < |ts| :: ts[j].t == us[j].t)
    && SentAt(a, ts, k) && SentAt(b, us, k)
  }

  /** In some run, with the same TTIs for both, the messages are sent in the same TTI. */
  ghost predicate MayCoincide(a: Si, b: Si)
    requires a.period > 0 && b.period > 0
  {
    exists ts: seq<Tick>, us: seq<Tick>, k: nat :: Coincide(a, b, ts, us, k)
  }

  lemma NextStarts(a: Si, b: Si, count: nat)
    requires Fits(a, count) && Fits(b, count) && a.w == b.w && b.i == a.i + 1 && a.w > 0
    ensures b.X() == a.X() + a.w == a.i * a.w < 10 * b.period
  {
    MulMono(b.i, count, b.w);
    assert b.i * b.w == a.i * a.w + a.w && (a.i - 1) * a.w + a.w == a.i * a.w;
  }

  /** Before the window of the next message it is closed. */
  lemma {:induction false} NotYetOpen(a: Si, b: Si, n: nat)
    requires a.period > 0 && b.period > 0 && a.i > 0 && b.i == a.i + 1 && a.w == b.w && n <= a.w
    requires InRange(TicksFor(a, a.w, n)) && b.X() == a.X() + a.w < 10 * b.period
    ensures Run(b, TicksFor(a, a.w, n)) == Win(false, 0, 0)
  {
    if n > 0 {
      assert TicksFor(a, a.w, n)[..n - 1] == TicksFor(a, a.w, n - 1);
      NotYetOpen(a, b, n - 1);
      var t := a.X() + n - 1;
      Phase(t, b.period);
      Phase(b.X(), b.period);
      DivMod(t, 0, t, 10 * b.period);
      DivMod(b.X(), 0, b.X(), 10 * b.period);
    }
  }

  /** The next message is sent at once when its window opens in a subframe 9. */
  lemma NextOpens(a: Si, b: Si)
    requires a.period > 0 && b.period > 0 && a.i > 0 && a.w == b.w && b.i == a.i + 1
    requires b.X() == a.X() + a.w < 10 * b.period && b.X() % 10 == 9 && InRange(TicksFor(a, a.w, a.w + 1))
    ensures SentAt(b, TicksFor(a, a.w, a.w + 1), a.w)
  {
    var ts, x := TicksFor(a, a.w, a.w + 1), b.X();
    assert ts[..a.w] == TicksFor(a, a.w, a.w);
    NotYetOpen(a, b, a.w);
    Phase(x, b.period);
    DivMod(x, 0, x, 10 * b.period);
    assert WindowAt(b, ts, a.w) == Win(true, x, 0);
  }

  /** Two SI messages are sent in one TTI in some run exactly if the windows are neighbours and the border between them
      is in front of a subframe 9. */
  lemma MayCoincideIff(a: Si, b: Si, count: nat)
    requires Fits(a, count) && Fits(b, count) && a.w == b.w && a.i < b.i
    ensures MayCoincide(a, b) <==> b.i == a.i + 1 && (a.i * a.w) % 10 == 9
  {
    if ts: seq<Tick>, us: seq<Tick>, k: nat :| Coincide(a, b, ts, us, k) {
      var s := SentInSlot(a, count, Shorter(a, b), ts, k);
      var r := SentInSlot(b, count, Shorter(a, b), us, k);
      SameSlot(ts[k].t, s, r, a.w, Shorter(a, b));
    }
    if b.i == a.i + 1 && (a.i * a.w) % 10 == 9 {
      EndsInPeriod(a, count);
      LateTick(a);
      NextStarts(a, b, count);
      NextOpens(a, b);
      assert Coincide(a, b, TicksFor(a, a.w, a.w + 1), TicksFor(a, a.w, a.w + 1), a.w);
    }
  }

  /** The window was opened at step `k`. */
  predicate OpenedAt(m: Si, ts: seq<Tick>, k: nat)
    requires m.period > 0 && InRange(ts) && k < |ts|
  {
    !Run(m, ts[..k]).isIn && WindowAt(m, ts, k).isIn
  }

  /** Transmissions in the steps from `k` up to `n`. */
  function Sends(m: Si, ts: seq<Tick>, k: nat, n: nat): nat
    requires m.period > 0 && InRange(ts) && k <= n <= |ts|
  {
    if n == k then 0 else Sends(m, ts, k, n - 1) + (if SentAt(m, ts, n - 1) then 1 else 0)
  }

  /** From one opening of the window to the next, an SI message is sent at most four times. */
  lemma {:induction false} AtMostFour(m: Si, ts: seq<Tick>, k: nat, n: nat)
    requires m.period > 0 && m.i > 0 && InRange(ts) && k < n <= |ts| && OpenedAt(m, ts, k)
    requires forall j | k < j < n :: !OpenedAt(m, ts, j)
    ensures Sends(m, ts, k, n) == Run(m, ts[..n]).nTx <= MAX_TX
  {
    assert ts[..n][..n - 1] == ts[..n - 1];
    if n == k + 1 {
      assert Sends(m, ts, k, k) == 0;
    } else {
      AtMostFour(m, ts, k, n - 1);
      assert !OpenedAt(m, ts, n - 1);
    }
  }

  /** Once its window is open, SIB1 is due exactly in subframe 5 of every even frame, for ever. */
  lemma {:induction false} Sib1AlwaysDue(m: Si, ts: seq<Tick>, k: nat)
    requires m.period > 0 && m.i == 0 && InRange(ts) && k < |ts|
    ensures Run(m, ts[..k]).nTx <= MAX_TX
    ensures WindowAt(m, ts, k).isIn ==>
              (Due(m, WindowAt(m, ts, k), ts[k].t) <==> (ts[k].t / 10) % 2 == 0 && ts[k].t % 10 == 5)
    ensures k + 1 < |ts| && WindowAt(m, ts, k).isIn ==> WindowAt(m, ts, k + 1).isIn
    decreases k
  {
    if k > 0 {
      Sib1AlwaysDue(m, ts, k - 1);
      assert ts[..k][..k - 1] == ts[..k - 1];
    }
    if k + 1 < |ts| { assert ts[..k + 1][..k] == ts[..k]; }
  }

  // ---- One call in every TTI

  predicate Consecutive(ts: seq<Tick>, start: nat) {
    forall k | 0 <= k < |ts| :: ts[k].t == TtiAt(start, k)
  }

  /** When the next subframe 9 comes, at least 10 ms have passed for every transmission so far. */
  predicate Spread(win: Win, t: nat)
    requires win.Valid() && t < TTI_PERIOD
  {
    win.isIn ==> 10 * win.nTx <= Interval(t, win.start) + (9 - t % 10)
  }

  lemma SpreadStep(m: Si, win: Win, t: nat, sent: bool)
    requires m.period > 0 && m.i > 0 && m.w < TTI_PERIOD - 1 && win.Valid() && t < TTI_PERIOD
    requires Spread(win, t) && (win.isIn ==> Interval(t, win.start) <= m.w) && (sent ==> Due(m, win, t))
    ensures Spread(Update(m, After(win, sent), Next(t)), Next(t))
  {
    assert Next(t) % 10 == if t % 10 == 9 then 0 else t % 10 + 1;
    if win.isIn { assert Interval(Next(t), win.start) == Interval(t, win.start) + 1; }
  }

  lemma {:induction false} WindowSpread(m: Si, ts: seq<Tick>, start: nat, k: nat)
    requires m.period > 0 && m.i > 0 && m.w < TTI_PERIOD - 1 && Consecutive(ts, start) && k < |ts|
    ensures InRange(ts) && Spread(WindowAt(m, ts, k), ts[k].t)
  {
    if k > 0 {
      WindowSpread(m, ts, start, k - 1);
      WindowSound(m, ts, k - 1);
      assert ts[..k][..k - 1] == ts[..k - 1];
      TtiAtNext(start, k - 1);
      SpreadStep(m, WindowAt(m, ts, k - 1), ts[k - 1].t, SentAt(m, ts, k - 1));
    } else {
      assert ts[..0] == [];
    }
  }

  lemma ShareIsShort(m: Si)
    requires m.w <= 40
    ensures m.w / m.NofTx() <= 10
  {
  }

  /** The age of a window as a 32-bit difference: it is far above all windows if the TTI counter wrapped. */
  lemma WordAge(t: nat, start: nat)
    requires t < TTI_PERIOD && start < TTI_PERIOD
    ensures (t - start) % WORD == if t >= start then t - start else WORD + t - start
    ensures t >= start ==> Interval(t, start) == t - start
  {
  }

  lemma DueIfSpread(m: Si, win: Win, t: nat)
    requires 0 < m.i && m.w <= 40 && win.Valid() && t < TTI_PERIOD && Spread(win, t)
    ensures Due(m, win, t) <==> win.isIn && win.nTx < MAX_TX && t % 10 == 9
  {
    ShareIsShort(m);
    MulMono(m.w / m.NofTx(), 10, win.nTx);
    WordAge(t, win.start);
  }

  /** With windows of at most 40 ms the spacing never holds a message back: with a call in every TTI it is due in every
      subframe 9 of its window until it has been sent four times. */
  lemma DueIff(m: Si, ts: seq<Tick>, start: nat, k: nat)
    requires m.period > 0 && 0 < m.i && m.w <= 40 && Consecutive(ts, start) && k < |ts|
    ensures InRange(ts)
    ensures var win := WindowAt(m, ts, k);
            Due(m, win, ts[k].t) <==> win.isIn && win.nTx < MAX_TX && ts[k].t % 10 == 9
  {
    WindowSpread(m, ts, start, k);
    DueIfSpread(m, WindowAt(m, ts, k), ts[k].t);
  }

  /** A message that was sent n times in its window is sent again only once n of the shares into which its transmissions
      divide the window have passed, unless the TTI counter wrapped since it was opened. */
  lemma SendsSpaced(m: Si, ts: seq<Tick>, k: nat)
    requires m.period > 0 && m.i > 0 && InRange(ts) && k < |ts| && SentAt(m, ts, k)
    ensures var win := WindowAt(m, ts, k);
            ts[k].t < win.start || Interval(ts[k].t, win.start) >= (m.w / m.NofTx()) * win.nTx
  {
  }

  /** Subframe 5 of a frame that the period of SIB1 divides. */
  predicate Opens(m: Si, t: nat)
    requires m.period > 0
  {
    (t / 10) % m.period == 0 && t % 10 == 5
  }

  /** SIB1 opens in the first such TTI and stays open. */
  lemma {:induction false} Sib1Opens(m: Si, ts: seq<Tick>, k: nat)
    requires m.period > 0 && m.i == 0 && InRange(ts) && k < |ts|
    ensures WindowAt(m, ts, k).isIn <==>
            exists j | 0 <= j <= k :: Opens(m, ts[j].t)
    decreases k
  {
    if k > 0 {
      Sib1Opens(m, ts, k - 1);
      assert ts[..k][..k - 1] == ts[..k - 1];
    } else {
      assert ts[..0] == [];
    }
  }

  /** Once it was opened SIB1 is sent exactly in subframe 5 of every even frame in which it finds what it needs. */
  lemma Sib1SentIff(m: Si, ts: seq<Tick>, k: nat)
    requires m.period > 0 && m.i == 0 && InRange(ts) && k < |ts|
    ensures SentAt(m, ts, k) <==>
            && ts[k].able && (ts[k].t / 10) % 2 == 0 && ts[k].t % 10 == 5
            && exists j | 0 <= j <= k :: Opens(m, ts[j].t)
  {
    Sib1Opens(m, ts, k);
    Sib1AlwaysDue(m, ts, k);
  }
}
