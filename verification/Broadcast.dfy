/** What the downlink scheduler does in a TTI before it serves users: system information, paging and random access
    responses take blocks of resource block groups (RBGs) from the lower edge of the carrier upwards. */
module Broadcast {
  import opened Tti
  import opened SiWindows
  import Pdcch
  import Modular
  import Rbg

  /** One try to send something: where its DCI may go, and whether its block turns out large enough. */
  datatype Try = Try(wanted: bool, request: Pdcch.Request, fits: bool)

  predicate AllLegal(ts: seq<Try>) {
    forall i | 0 <= i < |ts| :: ts[i].request.Legal()
  }

  /** Groups start..start+len-1. */
  datatype Groups = Groups(start: nat, len: nat)

  /** The CCE map, the first free group, the number of free groups, and the blocks given out. */
  datatype Stage = Stage(used: seq<bool>, start: nat, avail: nat, blocks: seq<Groups>)
  {
    predicate Valid() { |used| == Pdcch.MAX_CCE }
  }

  /** A DCI is placed first. If that works and the block is large enough, `n` groups are taken. */
  function Attempt(s: Stage, n: nat, t: Try): (r: Stage)
    requires s.Valid() && t.request.Legal() && n <= s.avail
    ensures r.Valid()
  {
    var p := Pdcch.Search(s.used, t.request, 0);
    var u := Pdcch.After(s.used, p);
    if p.At? && t.fits then Stage(u, s.start + n, s.avail - n, s.blocks + [Groups(s.start, n)]) else s.(used := u)
  }

  /** The try succeeded. */
  predicate Sent(s: Stage, t: Try)
    requires s.Valid() && t.request.Legal()
  {
    Pdcch.Search(s.used, t.request, 0).At? && t.fits
  }

  /** One system information message; `win` is its window in this TTI. One group must be left over. */
  function Sib(s: Stage, m: Si, win: Win, now: nat, n: nat, t: Try): (r: (Stage, Win))
    requires s.Valid() && t.request.Legal() && win.Valid() && now < TTI_PERIOD
    ensures r.0.Valid() && r.1.Valid()
  {
    if t.wanted && Due(m, win, now) && s.avail > n
    then (Attempt(s, n, t), SiWindows.After(win, Sent(s, t)))
    else (s, win)
  }

  predicate WinsValid(ws: seq<Win>) {
    forall i | 0 <= i < |ws| :: ws[i].Valid()
  }

  predicate Messages(ms: seq<Si>) {
    forall i | 0 <= i < |ms| :: ms[i].i == i && ms[i].period > 0
  }

  /** All windows at the beginning of the TTI. Messages without content are not looked at. */
  function UpdateAll(ms: seq<Si>, ws: seq<Win>, ts: seq<Try>, now: nat): (r: seq<Win>)
    requires |ms| == |ws| == |ts| && Messages(ms) && WinsValid(ws) && now < TTI_PERIOD
    ensures |r| == |ws| && WinsValid(r)
  {
    seq(|ws|, i requires 0 <= i < |ws| => if ts[i].wanted then Update(ms[i], ws[i], now) else ws[i])
  }

  /** The first `k` messages. */
  function Sibs(s: Stage, ms: seq<Si>, ws: seq<Win>, now: nat, n: nat, ts: seq<Try>, k: nat): (r: (Stage, seq<Win>))
    requires s.Valid() && |ms| == |ws| == |ts| && k <= |ms| && WinsValid(ws) && AllLegal(ts) && now < TTI_PERIOD
    ensures r.0.Valid() && |r.1| == |ws| && WinsValid(r.1)
    ensures forall i | k <= i < |ws| :: r.1[i] == ws[i]
  {
    if k == 0 then (s, ws)
    else
      var (s1, ws1) := Sibs(s, ms, ws, now, n, ts, k - 1);
      var (s2, w) := Sib(s1, ms[k - 1], ws1[k - 1], now, n, ts[k - 1]);
      (s2, ws1[k - 1 := w])
  }

  function Paging(s: Stage, n: nat, t: Try): (r: Stage)
    requires s.Valid() && t.request.Legal()
    ensures r.Valid()
  {
    if t.wanted && s.avail > n then Attempt(s, n, t) else s
  }

  /** The first `k` random access responses. They may take the last group. */
  function Rars(s: Stage, n: nat, ts: seq<Try>, k: nat): (r: Stage)
    requires s.Valid() && AllLegal(ts) && k <= |ts|
    ensures r.Valid()
  {
    if k == 0 then s
    else
      var s1 := Rars(s, n, ts, k - 1);
      if ts[k - 1].wanted && s1.avail >= n then Attempt(s1, n, ts[k - 1]) else s1
  }

  /** Everything that comes before user data. */
  function AllBlocks(s: Stage, ms: seq<Si>, ws: seq<Win>, now: nat, siN: nat, rarN: nat, sibs: seq<Try>, paging: Try,
                     rars: seq<Try>): (r: (Stage, seq<Win>))
    requires s.Valid() && |ms| == |ws| == |sibs| && WinsValid(ws) && now < TTI_PERIOD
    requires AllLegal(sibs) && paging.request.Legal() && AllLegal(rars)
    ensures r.0.Valid() && |r.1| == |ws| && WinsValid(r.1)
  {
    var (s1, ws1) := Sibs(s, ms, ws, now, siN, sibs, |sibs|);
    (Rars(Paging(s1, siN, paging), rarN, rars, |rars|), ws1)
  }

  // ---- What the stages keep

  /** The blocks follow each other without gaps from group 0 up to the first free group, and nothing is lost. */
  predicate Gapless(s: Stage, total: nat) {
    && s.start + s.avail == total
    && (if |s.blocks| == 0 then s.start == 0
        else s.blocks[0].start == 0
             && s.blocks[|s.blocks| - 1].start + s.blocks[|s.blocks| - 1].len == s.start)
    && forall i | 0 < i < |s.blocks| :: s.blocks[i].start == s.blocks[i - 1].start + s.blocks[i - 1].len
  }

  lemma AttemptGapless(s: Stage, n: nat, t: Try, total: nat)
    requires s.Valid() && t.request.Legal() && n <= s.avail && Gapless(s, total)
    ensures Gapless(Attempt(s, n, t), total)
  {
  }

  lemma {:induction false} SibsGapless(s: Stage, ms: seq<Si>, ws: seq<Win>, now: nat, n: nat, ts: seq<Try>, k: nat,
                                     total: nat)
    requires s.Valid() && |ms| == |ws| == |ts| && k <= |ms| && WinsValid(ws) && AllLegal(ts) && now < TTI_PERIOD
    requires Gapless(s, total) && s.start < total
    ensures var r := Sibs(s, ms, ws, now, n, ts, k).0; Gapless(r, total) && r.start < total
  {
    if k > 0 {
      SibsGapless(s, ms, ws, now, n, ts, k - 1, total);
      var s1 := Sibs(s, ms, ws, now, n, ts, k - 1).0;
      if s1.avail > n { AttemptGapless(s1, n, ts[k - 1], total); }
    }
  }

  lemma PagingGapless(s: Stage, n: nat, t: Try, total: nat)
    requires s.Valid() && t.request.Legal() && Gapless(s, total) && s.start < total
    ensures Gapless(Paging(s, n, t), total) && Paging(s, n, t).start < total
  {
    if s.avail > n { AttemptGapless(s, n, t, total); }
  }

  lemma {:induction false} RarsGapless(s: Stage, n: nat, ts: seq<Try>, k: nat, total: nat)
    requires s.Valid() && AllLegal(ts) && k <= |ts| && Gapless(s, total)
    ensures Gapless(Rars(s, n, ts, k), total)
  {
    if k > 0 {
      RarsGapless(s, n, ts, k - 1, total);
      var s1 := Rars(s, n, ts, k - 1);
      if s1.avail >= n { AttemptGapless(s1, n, ts[k - 1], total); }
    }
  }

  lemma AllBlocksGapless(s: Stage, ms: seq<Si>, ws: seq<Win>, now: nat, siN: nat, rarN: nat, sibs: seq<Try>,
                         paging: Try, rars: seq<Try>, total: nat)
    requires s.Valid() && |ms| == |ws| == |sibs| && WinsValid(ws) && now < TTI_PERIOD
    requires AllLegal(sibs) && paging.request.Legal() && AllLegal(rars)
    requires Gapless(s, total) && s.start < total
    ensures Gapless(AllBlocks(s, ms, ws, now, siN, rarN, sibs, paging, rars).0, total)
  {
    SibsGapless(s, ms, ws, now, siN, sibs, |sibs|, total);
    var s1 := Sibs(s, ms, ws, now, siN, sibs, |sibs|).0;
    PagingGapless(s1, siN, paging, total);
    RarsGapless(Paging(s1, siN, paging), rarN, rars, |rars|, total);
  }

  /** Blocks lie one above the other, so no group is in two of them, and all of them end at or below the first free
      group. */
  lemma {:induction false} BlocksInOrder(s: Stage, total: nat, a: nat, b: nat)
    requires Gapless(s, total) && a < |s.blocks| && a <= b < |s.blocks|
    ensures a < b ==> s.blocks[a].start + s.blocks[a].len <= s.blocks[b].start
    ensures s.blocks[a].start + s.blocks[a].len <= s.start
    decreases |s.blocks| - a
  {
    if a + 1 < |s.blocks| {
      BlocksInOrder(s, total, a + 1, if b > a then b else a + 1);
    }
  }

  // ---- What goes out

  /** Some candidate for the DCI is free on the CCE map. */
  predicate FindsDci(used: seq<bool>, r: Pdcch.Request)
    requires |used| == Pdcch.MAX_CCE && r.Legal()
  {
    exists k | 0 <= k < |r.locs| :: r.Fits(used, r.locs[k])
  }

  /** The try finds all it needs: a DCI, and a block that is large enough. */
  predicate Succeeds(s: Stage, t: Try)
    requires s.Valid() && t.request.Legal()
  {
    FindsDci(s.used, t.request) && t.fits
  }

  /** `n` groups go to one more block, on top of those before, exactly if `sent`. */
  predicate Grows(s: Stage, r: Stage, n: nat, sent: bool) {
    if sent then r.blocks == s.blocks + [Groups(s.start, n)] && r.start == s.start + n && r.avail == s.avail - n
    else r.blocks == s.blocks && r.start == s.start && r.avail == s.avail
  }

  lemma AttemptGrows(s: Stage, n: nat, t: Try)
    requires s.Valid() && t.request.Legal() && n <= s.avail
    ensures Grows(s, Attempt(s, n, t), n, Succeeds(s, t)) && (Sent(s, t) <==> Succeeds(s, t))
  {
    Pdcch.SearchComplete(s.used, t.request);
  }

  /** The CCEs of one of the candidates are taken if one is free, and none otherwise. */
  predicate TakesDci(used: seq<bool>, after: seq<bool>, r: Pdcch.Request)
    requires |used| == |after| == Pdcch.MAX_CCE && r.Legal()
  {
    if FindsDci(used, r) then
      exists k | 0 <= k < |r.locs| ::
        r.Fits(used, r.locs[k])
        && forall j | 0 <= j < |used| :: after[j] <==> used[j] || r.locs[k] <= j < r.locs[k] + r.size
    else after == used
  }

  /** A DCI that finds a place takes its CCEs also if the block then turns out too small. */
  lemma AttemptTakesDci(s: Stage, n: nat, t: Try)
    requires s.Valid() && t.request.Legal() && n <= s.avail
    ensures TakesDci(s.used, Attempt(s, n, t).used, t.request)
  {
    var p := Pdcch.Search(s.used, t.request, 0);
    Pdcch.SearchFrom(s.used, t.request, 0);
    Pdcch.SearchComplete(s.used, t.request);
    if p.At? {
      var k :| 0 <= k < |t.request.locs| && t.request.locs[k] == p.start;
      assert t.request.Fits(s.used, t.request.locs[k]);
    }
  }

  /** The message is wanted and finds all it needs, and a group is left over. */
  predicate Able(s: Stage, n: nat, t: Try)
    requires s.Valid() && t.request.Legal()
  {
    t.wanted && s.avail > n && Succeeds(s, t)
  }

  /** A message goes out, on one more block, exactly if it is due and able to; then its count grows by one. */
  lemma SibGoesOut(s: Stage, m: Si, win: Win, now: nat, n: nat, t: Try)
    requires s.Valid() && t.request.Legal() && win.Valid() && now < TTI_PERIOD
    ensures var r, out := Sib(s, m, win, now, n, t), Able(s, n, t) && Due(m, win, now);
            Grows(s, r.0, n, out) && r.1 == if out then Win(win.isIn, win.start, win.nTx + 1) else win
  {
    if s.avail > n { AttemptGrows(s, n, t); }
  }

  /** The same for each of all messages: the one after `k` others finds what these left, and keeps its block. */
  lemma {:induction false} SibsGoOut(s: Stage, ms: seq<Si>, ws: seq<Win>, now: nat, n: nat, ts: seq<Try>, k: nat,
                                     i: nat)
    requires s.Valid() && |ms| == |ws| == |ts| && i < k <= |ms| && WinsValid(ws) && AllLegal(ts) && now < TTI_PERIOD
    ensures var before, after := Sibs(s, ms, ws, now, n, ts, i).0, Sibs(s, ms, ws, now, n, ts, i + 1).0;
            var out := Able(before, n, ts[i]) && Due(ms[i], ws[i], now);
            && Grows(before, after, n, out) && after.blocks <= Sibs(s, ms, ws, now, n, ts, k).0.blocks
            && Sibs(s, ms, ws, now, n, ts, k).1[i] == After(ws[i], out)
  {
    var last := Sibs(s, ms, ws, now, n, ts, k - 1);
    SibGoesOut(last.0, ms[k - 1], last.1[k - 1], now, n, ts[k - 1]);
    if i < k - 1 { SibsGoOut(s, ms, ws, now, n, ts, k - 1, i); }
  }

  /** Paging goes out exactly if it is wanted, a group is left over, and it finds all it needs. */
  lemma PagingGoesOut(s: Stage, n: nat, t: Try)
    requires s.Valid() && t.request.Legal()
    ensures Grows(s, Paging(s, n, t), n, Able(s, n, t))
  {
    if s.avail > n { AttemptGrows(s, n, t); }
  }

  /** A random access response goes out exactly if it is wanted and finds all it needs; it may take the last group. */
  lemma {:induction false} RarsGoOut(s: Stage, n: nat, ts: seq<Try>, k: nat, i: nat)
    requires s.Valid() && AllLegal(ts) && i < k <= |ts|
    ensures var before, after := Rars(s, n, ts, i), Rars(s, n, ts, i + 1);
            && Grows(before, after, n, ts[i].wanted && before.avail >= n && Succeeds(before, ts[i]))
            && after.blocks <= Rars(s, n, ts, k).blocks
  {
    var last := Rars(s, n, ts, k - 1);
    if last.avail >= n { AttemptGrows(last, n, ts[k - 1]); }
    if i < k - 1 { RarsGoOut(s, n, ts, k - 1, i); }
  }

  lemma {:induction false} RarsOnTop(s: Stage, n: nat, ts: seq<Try>, k: nat)
    requires s.Valid() && AllLegal(ts) && k <= |ts|
    ensures s.blocks <= Rars(s, n, ts, k).blocks
  {
    if k > 0 { RarsOnTop(s, n, ts, k - 1); }
  }

  /** The blocks of system information come first, then paging, then random access. */
  lemma SibsComeFirst(s: Stage, ms: seq<Si>, ws: seq<Win>, now: nat, siN: nat, rarN: nat, sibs: seq<Try>, paging: Try,
                      rars: seq<Try>)
    requires s.Valid() && |ms| == |ws| == |sibs| && WinsValid(ws) && now < TTI_PERIOD
    requires AllLegal(sibs) && paging.request.Legal() && AllLegal(rars)
    ensures var s1 := Sibs(s, ms, ws, now, siN, sibs, |sibs|).0;
            s1.blocks <= Paging(s1, siN, paging).blocks
            <= AllBlocks(s, ms, ws, now, siN, rarN, sibs, paging, rars).0.blocks
  {
    var s1 := Sibs(s, ms, ws, now, siN, sibs, |sibs|).0;
    PagingGoesOut(s1, siN, paging);
    RarsOnTop(Paging(s1, siN, paging), rarN, rars, |rars|);
  }

  // ---- Runs of TTIs

  /** What is wanted in one TTI. */
  datatype Wants = Wants(sibs: seq<Try>, paging: Try, rars: seq<Try>)

  predicate WantsOk(x: Wants, n: nat) {
    |x.sibs| == n && AllLegal(x.sibs) && x.paging.request.Legal() && AllLegal(x.rars)
  }

  predicate AllWantsOk(xs: seq<Wants>, n: nat) {
    forall k | 0 <= k < |xs| :: WantsOk(xs[k], n)
  }

  /** A TTI begins with a free carrier and a clear CCE map. */
  function Empty(total: nat): (s: Stage)
    ensures s.Valid()
  {
    Stage(Pdcch.NoCce(), 0, total, [])
  }

  function Closed(n: nat): (ws: seq<Win>)
    ensures |ws| == n && WinsValid(ws) && forall i | 0 <= i < n :: ws[i] == Win(false, 0, 0)
  {
    seq(n, _ => Win(false, 0, 0))
  }

  /** What is left for message `i` in TTI `now`, if the windows were `ws` before. */
  function LeftIn(ms: seq<Si>, ws: seq<Win>, total: nat, n: nat, now: nat, sibs: seq<Try>, i: nat): (s: Stage)
    requires |ms| == |ws| == |sibs| && Messages(ms) && WinsValid(ws) && AllLegal(sibs) && now < TTI_PERIOD && i <= |ms|
    ensures s.Valid()
  {
    Sibs(Empty(total), ms, UpdateAll(ms, ws, sibs, now), now, n, sibs, i).0
  }

  /** The windows after TTI `now`. */
  function WinsAfter(ms: seq<Si>, ws: seq<Win>, total: nat, n: nat, now: nat, sibs: seq<Try>): (r: seq<Win>)
    requires |ms| == |ws| == |sibs| && Messages(ms) && WinsValid(ws) && AllLegal(sibs) && now < TTI_PERIOD
    ensures |r| == |ms| && WinsValid(r)
  {
    Sibs(Empty(total), ms, UpdateAll(ms, ws, sibs, now), now, n, sibs, |ms|).1
  }

  /** The windows before TTI number `k` after `start`, from closed ones on. */
  function WinsAt(ms: seq<Si>, total: nat, n: nat, start: nat, xs: seq<Wants>, k: nat): (ws: seq<Win>)
    requires Messages(ms) && AllWantsOk(xs, |ms|) && k <= |xs|
    ensures |ws| == |ms| && WinsValid(ws)
  {
    if k == 0 then Closed(|ms|)
    else WinsAfter(ms, WinsAt(ms, total, n, start, xs, k - 1), total, n, TtiAt(start, k - 1), xs[k - 1].sibs)
  }

  /** What is left for message `i` in TTI number `k`. */
  function LeftFor(ms: seq<Si>, total: nat, n: nat, start: nat, xs: seq<Wants>, k: nat, i: nat): (s: Stage)
    requires Messages(ms) && AllWantsOk(xs, |ms|) && k < |xs| && i <= |ms|
    ensures s.Valid()
  {
    LeftIn(ms, WinsAt(ms, total, n, start, xs, k), total, n, TtiAt(start, k), xs[k].sibs, i)
  }

  /** The message has content in every TTI. */
  predicate AlwaysWanted(xs: seq<Wants>, i: nat) {
    forall k | 0 <= k < |xs| :: i < |xs[k].sibs| && xs[k].sibs[i].wanted
  }

  /** One TTI for a message with content: its window is updated, and it takes a block exactly if it is due and able. */
  lemma MessageInTti(ms: seq<Si>, ws: seq<Win>, total: nat, n: nat, now: nat, sibs: seq<Try>, i: nat)
    requires |ms| == |ws| == |sibs| && Messages(ms) && WinsValid(ws) && AllLegal(sibs) && now < TTI_PERIOD && i < |ms|
    requires sibs[i].wanted
    ensures var before, after := LeftIn(ms, ws, total, n, now, sibs, i), LeftIn(ms, ws, total, n, now, sibs, i + 1);
            var win := Update(ms[i], ws[i], now);
            var out := Able(before, n, sibs[i]) && Due(ms[i], win, now);
            && Grows(before, after, n, out) && after.blocks <= LeftIn(ms, ws, total, n, now, sibs, |ms|).blocks
            && WinsAfter(ms, ws, total, n, now, sibs)[i] == After(win, out)
  {
    SibsGoOut(Empty(total), ms, UpdateAll(ms, ws, sibs, now), now, n, sibs, |ms|, i);
  }

  /** A message without content keeps its window and takes no block. */
  lemma WithoutContent(ms: seq<Si>, ws: seq<Win>, total: nat, n: nat, now: nat, sibs: seq<Try>, i: nat)
    requires |ms| == |ws| == |sibs| && Messages(ms) && WinsValid(ws) && AllLegal(sibs) && now < TTI_PERIOD && i < |ms|
    requires !sibs[i].wanted
    ensures LeftIn(ms, ws, total, n, now, sibs, i + 1).blocks == LeftIn(ms, ws, total, n, now, sibs, i).blocks
    ensures WinsAfter(ms, ws, total, n, now, sibs)[i] == ws[i]
  {
    SibsGoOut(Empty(total), ms, UpdateAll(ms, ws, sibs, now), now, n, sibs, |ms|, i);
  }

  lemma RunNext(m: Si, ts: seq<Tick>, us: seq<Tick>, win: Win, now: nat, able: bool)
    requires m.period > 0 && InRange(ts) && now < TTI_PERIOD && us == ts + [Tick(now, able)] && win == Run(m, ts)
    ensures InRange(us) && Run(m, us) == After(Update(m, win, now), able && Due(m, Update(m, win, now), now))
    ensures SentAt(m, us, |ts|) <==> able && Due(m, Update(m, win, now), now)
  {
    assert us[..|ts|] == ts;
  }

  /** The tick of TTI number `k` for message `i`. */
  function TickAt(ms: seq<Si>, total: nat, n: nat, start: nat, xs: seq<Wants>, i: nat, k: nat): (t: Tick)
    requires Messages(ms) && AllWantsOk(xs, |ms|) && k < |xs| && i < |ms|
    ensures t.t == TtiAt(start, k)
  {
    Tick(TtiAt(start, k), Able(LeftFor(ms, total, n, start, xs, k, i), n, xs[k].sibs[i]))
  }

  /** The run of message `i` alone: in each TTI it is able to go out if the others leave what it needs. */
  function TicksOf(ms: seq<Si>, total: nat, n: nat, start: nat, xs: seq<Wants>, i: nat, k: nat): (ts: seq<Tick>)
    requires Messages(ms) && AllWantsOk(xs, |ms|) && k <= |xs| && i < |ms|
    ensures |ts| == k && InRange(ts)
    ensures forall j | 0 <= j < k :: ts[j] == TickAt(ms, total, n, start, xs, i, j)
  {
    seq(k, j requires 0 <= j < k => TickAt(ms, total, n, start, xs, i, j))
  }

  lemma NextTick(ms: seq<Si>, total: nat, n: nat, start: nat, xs: seq<Wants>, i: nat, k: nat)
    requires Messages(ms) && AllWantsOk(xs, |ms|) && k < |xs| && i < |ms|
    ensures TicksOf(ms, total, n, start, xs, i, k + 1)
         == TicksOf(ms, total, n, start, xs, i, k) + [TickAt(ms, total, n, start, xs, i, k)]
  {
  }

  lemma WindowNext(ms: seq<Si>, ws: seq<Win>, total: nat, n: nat, sibs: seq<Try>, i: nat, ts: seq<Tick>, tick: Tick)
    requires |ms| == |ws| == |sibs| && Messages(ms) && WinsValid(ws) && AllLegal(sibs) && i < |ms| && sibs[i].wanted
    requires InRange(ts) && tick.t < TTI_PERIOD && ws[i] == Run(ms[i], ts)
    requires tick.able == Able(LeftIn(ms, ws, total, n, tick.t, sibs, i), n, sibs[i])
    ensures InRange(ts + [tick]) && WinsAfter(ms, ws, total, n, tick.t, sibs)[i] == Run(ms[i], ts + [tick])
    ensures Grows(LeftIn(ms, ws, total, n, tick.t, sibs, i), LeftIn(ms, ws, total, n, tick.t, sibs, i + 1), n,
                  SentAt(ms[i], ts + [tick], |ts|))
  {
    MessageInTti(ms, ws, total, n, tick.t, sibs, i);
    RunNext(ms[i], ts, ts + [tick], ws[i], tick.t, tick.able);
  }

  /** What happens to the window of a message is its own run. */
  lemma WindowsAreRuns(ms: seq<Si>, total: nat, n: nat, start: nat, xs: seq<Wants>, i: nat, k: nat)
    requires Messages(ms) && AllWantsOk(xs, |ms|) && k <= |xs| && i < |ms| && AlwaysWanted(xs, i)
    ensures WinsAt(ms, total, n, start, xs, k)[i] == Run(ms[i], TicksOf(ms, total, n, start, xs, i, k))
  {
    for m := 0 to k
      invariant WinsAt(ms, total, n, start, xs, m)[i] == Run(ms[i], TicksOf(ms, total, n, start, xs, i, m))
    {
      NextTick(ms, total, n, start, xs, i, m);
      WindowNext(ms, WinsAt(ms, total, n, start, xs, m), total, n, xs[m].sibs, i,
                 TicksOf(ms, total, n, start, xs, i, m), TickAt(ms, total, n, start, xs, i, m));
    }
  }

  /** In each TTI the message takes its block, on what the messages before it left, exactly if it is sent in its own
      run. So all that is known of the runs of windows holds of the scheduler. */
  lemma MessageGoesOut(ms: seq<Si>, total: nat, n: nat, start: nat, xs: seq<Wants>, i: nat, k: nat)
    requires Messages(ms) && AllWantsOk(xs, |ms|) && k < |xs| && i < |ms| && AlwaysWanted(xs, i)
    ensures Grows(LeftFor(ms, total, n, start, xs, k, i), LeftFor(ms, total, n, start, xs, k, i + 1), n,
                  SentAt(ms[i], TicksOf(ms, total, n, start, xs, i, k + 1), k))
    ensures LeftFor(ms, total, n, start, xs, k, i + 1).blocks <= LeftFor(ms, total, n, start, xs, k, |ms|).blocks
  {
    WindowsAreRuns(ms, total, n, start, xs, i, k);
    NextTick(ms, total, n, start, xs, i, k);
    var ws := WinsAt(ms, total, n, start, xs, k);
    WindowNext(ms, ws, total, n, xs[k].sibs, i, TicksOf(ms, total, n, start, xs, i, k),
               TickAt(ms, total, n, start, xs, i, k));
    MessageInTti(ms, ws, total, n, TtiAt(start, k), xs[k].sibs, i);
  }

  /** SIB1 finds a DCI on a clear map and a large enough block in every TTI, and the carrier has a group more than its
      block needs. */
  predicate Sib1Able(total: nat, n: nat, xs: seq<Wants>) {
    && total > n
    && forall k | 0 <= k < |xs| ::
         |xs[k].sibs| > 0 && xs[k].sibs[0].wanted && xs[k].sibs[0].fits
         && xs[k].sibs[0].request.Legal() && FindsDci(Pdcch.NoCce(), xs[k].sibs[0].request)
  }

  /** Between `start` and TTI number `k` after it there was one in which SIB1 opens. */
  predicate OpenedBy(m: Si, start: nat, k: nat)
    requires m.period > 0
  {
    exists j | 0 <= j <= k :: Opens(m, TtiAt(start, j))
  }

  lemma SameOpened(m: Si, ts: seq<Tick>, start: nat, k: nat)
    requires m.period > 0 && Consecutive(ts, start) && k < |ts|
    ensures OpenedBy(m, start, k) <==> exists j | 0 <= j <= k :: Opens(m, ts[j].t)
  {
    if OpenedBy(m, start, k) {
      var j :| 0 <= j <= k && Opens(m, TtiAt(start, j));
      assert Opens(m, ts[j].t);
    }
  }

  /** Then from the first subframe 5 of a frame that its period divides on, SIB1 has the first block of the carrier in
      subframe 5 of every even frame, and nothing in any other TTI. */
  lemma Sib1GoesOut(ms: seq<Si>, total: nat, n: nat, start: nat, xs: seq<Wants>, k: nat)
    requires Messages(ms) && AllWantsOk(xs, |ms|) && k < |xs| && 0 < |ms| && Sib1Able(total, n, xs)
    ensures var t := TtiAt(start, k);
            LeftFor(ms, total, n, start, xs, k, 1).blocks
            == if OpenedBy(ms[0], start, k) && (t / 10) % 2 == 0 && t % 10 == 5 then [Groups(0, n)] else []
    ensures LeftFor(ms, total, n, start, xs, k, 1).blocks <= LeftFor(ms, total, n, start, xs, k, |ms|).blocks
  {
    assert AlwaysWanted(xs, 0);
    var ts := TicksOf(ms, total, n, start, xs, 0, k + 1);
    MessageGoesOut(ms, total, n, start, xs, 0, k);
    Sib1SentIff(ms[0], ts, k);
    assert LeftFor(ms, total, n, start, xs, k, 0) == Empty(total);
    assert ts[k].able && ts[k].t == TtiAt(start, k);
    assert Consecutive(ts, start);
    SameOpened(ms[0], ts, start, k);
  }

  /** Blocks that end below the last group fit into the carrier; any block ends less than a group size above it. */
  lemma BlockInCarrier(end: nat, nofPrb: nat)
    requires nofPrb > 0 && end <= Rbg.NofGroups(nofPrb)
    ensures var p := Rbg.GroupSize(nofPrb);
            && end * p < nofPrb + p
            && (end < Rbg.NofGroups(nofPrb) ==> end * p <= nofPrb)
  {
    var p, g := Rbg.GroupSize(nofPrb), Rbg.NofGroups(nofPrb);
    Modular.MulMono(end, g, p);
    assert (g - 1) * p == g * p - p;
    if end < g { Modular.MulMono(end, g - 1, p); }
  }
}
