/** What users report before a subframe is scheduled: feedback, the outcome of what they sent, what waits on their
    bearers, and their channel. */
module Reports {
  import opened Tti
  import opened Harq
  import opened HarqObjects
  import opened DlProcs
  import opened Queues
  import opened SchedUser
  import opened Scheduler
  import opened Standings
  import DlRuns
  import UlRuns

  /** Feedback of a user for its block 0, or the CRC of what it sent. */
  datatype Report = Report(user: nat, good: bool)

  /** Bytes that wait on a bearer of a user. */
  datatype Queue = Queue(user: nat, lcid: nat, tx: nat, retx: nat)

  /** The channel of a user from now on. */
  datatype Link = Link(user: nat, channel: Channel)

  // ---- Feedback and CRC reports

  /** The feedback for user `i` that is received in TTI `t`. */
  function FeedbackFor(acks: seq<Report>, i: nat, t: nat): seq<DlRuns.Feedback> {
    if |acks| == 0 then []
    else
      var a := acks[|acks| - 1];
      FeedbackFor(acks[..|acks| - 1], i, t) + (if a.user == i then [DlRuns.Feedback(t, a.good)] else [])
  }

  /** The CRC reports for user `i`. */
  function CrcsFor(crcs: seq<Report>, i: nat): seq<bool> {
    if |crcs| == 0 then []
    else CrcsFor(crcs[..|crcs| - 1], i) + (if crcs[|crcs| - 1].user == i then [crcs[|crcs| - 1].good] else [])
  }

  /** How many of these reports are about user `i`. */
  function ReportsFor(reports: seq<Report>, i: nat): nat {
    if |reports| == 0 then 0
    else ReportsFor(reports[..|reports| - 1], i) + (if reports[|reports| - 1].user == i then 1 else 0)
  }

  /** A user hears as many reports as are about it. */
  lemma {:induction false} ReportsCount(reports: seq<Report>, i: nat, t: nat)
    ensures |FeedbackFor(reports, i, t)| == |CrcsFor(reports, i)| == ReportsFor(reports, i)
  {
    if |reports| > 0 { ReportsCount(reports[..|reports| - 1], i, t); }
  }

  /** The report number `m` is about user `i`: the user hears it, after those about it before. */
  lemma {:induction false} ReportIsHeard(reports: seq<Report>, i: nat, t: nat, m: nat)
    requires m < |reports| && reports[m].user == i
    ensures var k := ReportsFor(reports[..m], i);
            && k < |FeedbackFor(reports, i, t)| == |CrcsFor(reports, i)|
            && FeedbackFor(reports, i, t)[k] == DlRuns.Feedback(t, reports[m].good)
            && CrcsFor(reports, i)[k] == reports[m].good
  {
    var n := |reports| - 1;
    ReportsCount(reports[..n], i, t);
    ReportsCount(reports, i, t);
    if m < n {
      assert reports[..n][..m] == reports[..m];
      ReportIsHeard(reports[..n], i, t, m);
    }
  }

  /** The uplink processes of user `i` after the CRC reports on number `r`. */
  function CheckedBy(ul: seq<UlRuns.Ul>, crcs: seq<Report>, i: nat, r: nat): (after: seq<UlRuns.Ul>)
    requires r < |ul|
    ensures |after| == |ul|
  {
    ul[r := UlRuns.Checked(ul[r], CrcsFor(crcs, i))]
  }

  /** A user after the feedback and the CRC reports that are received in TTI `t`. */
  function HeardBy(s: Standing, acks: seq<Report>, crcs: seq<Report>, i: nat, t: nat): Standing
    requires s.Ok()
  {
    s.(procs := DlRuns.Heard(s.procs, FeedbackFor(acks, i, t)), ul := CheckedBy(s.ul, crcs, i, t % MAX_HARQ_PROC))
  }

  /** All users have heard these reports. */
  ghost predicate HeardAll(ss: seq<Standing>, after: seq<Standing>, acks: seq<Report>, crcs: seq<Report>, t: nat) {
    && |ss| == |after|
    && forall i {:trigger Pick(i)} | 0 <= i < |ss| :: ss[i].Ok() && after[i] == HeardBy(ss[i], acks, crcs, i, t)
  }

  lemma NothingHeard(ss: seq<Standing>, t: nat)
    requires forall i | 0 <= i < |ss| :: ss[i].Ok()
    ensures HeardAll(ss, ss, [], [], t)
  {
    forall i | 0 <= i < |ss| ensures ss[i] == HeardBy(ss[i], [], [], i, t) {
      var r := t % MAX_HARQ_PROC;
      assert ss[i].ul[r := ss[i].ul[r]] == ss[i].ul;
    }
  }

  lemma OneMoreCrc(ul: seq<UlRuns.Ul>, crcs: seq<Report>, c: Report, i: nat, r: nat)
    requires r < |ul|
    ensures var was := CheckedBy(ul, crcs, i, r);
            CheckedBy(ul, crcs + [c], i, r)
            == if c.user == i then was[r := UlRuns.Checked(was[r], [c.good])] else was
  {
    assert (crcs + [c])[..|crcs|] == crcs;
    UlRuns.CheckedOneMore(ul[r], CrcsFor(crcs, i), c.good);
    assert CrcsFor(crcs, i) + [] == CrcsFor(crcs, i);
  }

  lemma OneMoreAck(s: Standing, acks: seq<Report>, crcs: seq<Report>, a: Report, i: nat, t: nat)
    requires s.Ok()
    ensures var was := HeardBy(s, acks, crcs, i, t);
            HeardBy(s, acks + [a], crcs, i, t)
            == if a.user == i then was.(procs := DlProcs.SetAckInfo(was.procs, t, 0, a.good)) else was
  {
    assert (acks + [a])[..|acks|] == acks;
    DlRuns.HeardOneMore(s.procs, FeedbackFor(acks, i, t), DlRuns.Feedback(t, a.good));
    assert FeedbackFor(acks, i, t) + [] == FeedbackFor(acks, i, t);
  }

  /** What one more CRC report does. */
  function WithCrc(ss: seq<Standing>, c: Report, t: nat): (after: seq<Standing>)
    requires c.user < |ss| && |ss[c.user].ul| == MAX_HARQ_PROC
  {
    var s, r := ss[c.user], t % MAX_HARQ_PROC;
    ss[c.user := s.(ul := s.ul[r := UlRuns.Checked(s.ul[r], [c.good])])]
  }

  /** What one more acknowledgment does. */
  function WithAck(ss: seq<Standing>, a: Report, t: nat): (after: seq<Standing>)
    requires a.user < |ss|
  {
    var s := ss[a.user];
    ss[a.user := s.(procs := DlProcs.SetAckInfo(s.procs, t, 0, a.good))]
  }

  lemma CrcHeard(ss: seq<Standing>, after: seq<Standing>, crcs: seq<Report>, c: Report, t: nat)
    requires HeardAll(ss, after, [], crcs, t) && c.user < |ss|
    ensures |after[c.user].ul| == MAX_HARQ_PROC && HeardAll(ss, WithCrc(after, c, t), [], crcs + [c], t)
  {
    assert Pick(c.user);
    forall i | 0 <= i < |ss| ensures ss[i].Ok() && WithCrc(after, c, t)[i] == HeardBy(ss[i], [], crcs + [c], i, t) {
      assert Pick(i);
      OneMoreCrc(ss[i].ul, crcs, c, i, t % MAX_HARQ_PROC);
    }
  }

  lemma AckHeard(ss: seq<Standing>, after: seq<Standing>, acks: seq<Report>, crcs: seq<Report>, a: Report, t: nat)
    requires HeardAll(ss, after, acks, crcs, t) && a.user < |ss|
    ensures HeardAll(ss, WithAck(after, a, t), acks + [a], crcs, t)
  {
    forall i | 0 <= i < |ss| ensures ss[i].Ok() && WithAck(after, a, t)[i] == HeardBy(ss[i], acks + [a], crcs, i, t) {
      assert Pick(i);
      OneMoreAck(ss[i], acks, crcs, a, i, t);
    }
  }

  /** The processes of two users are different ones. */
  predicate Strangers(u: SchedUe, v: SchedUe) {
    && OwnProcs(u, v)
    && (forall k | 0 <= k < |v.ulHarq| :: v.ulHarq[k] !in u.ulHarq)
    && forall k | 0 <= k < |v.dlHarq| :: v.dlHarq[k] !in u.ulHarq
  }

  lemma OthersAreStrangers(users: seq<SchedUe>, ss: seq<Standing>, i: nat)
    requires Distinct(users) && AllStand(users, ss) && i < |users|
    ensures Stands(users[i], ss[i])
    ensures forall j {:trigger Pick(j)} | 0 <= j < |users| && j != i :: Strangers(users[i], users[j])
  {
    assert Pick(i);
    forall j | 0 <= j < |users| && j != i ensures Strangers(users[i], users[j]) { assert Pick(j); }
  }

  /** A CRC report for one user changes nothing about the others. */
  method CrcOne(user: SchedUe, t: nat, good: bool, ghost users: seq<SchedUe>, ghost ss: seq<Standing>, ghost i: nat)
    requires i < |users| == |ss| && user == users[i] && Stands(user, ss[i])
    requires forall j {:trigger Pick(j)} | 0 <= j < |users| && j != i ::
               Strangers(user, users[j]) && Stands(users[j], ss[j])
    modifies user.GetUlHarq(t)`tb
    ensures Stands(user, WithCrc(ss, Report(i, good), t)[i])
    ensures forall j {:trigger Pick(j)} | 0 <= j < |users| && j != i :: Stands(users[j], ss[j])
  {
    ghost var h := user.GetUlHarq(t);
    user.SetUlCrc(t, good);
    forall k | 0 <= k < MAX_HARQ_PROC && k != t % MAX_HARQ_PROC ensures user.ulHarq[k] != h {
    }
    forall j | 0 <= j < |users| && j != i ensures Stands(users[j], ss[j]) {
      assert Pick(j);
      assert Outside(users[j].ulHarq, {h}) && Outside(users[j].dlHarq, {h});
    }
  }

  method CrcNext(users: seq<SchedUe>, t: nat, c: Report, ghost ss: seq<Standing>, ghost dlProcs: set<HarqProc>,
                 ghost ulProcs: set<HarqProc>)
    requires Owned(users, dlProcs, ulProcs) && AllStand(users, ss) && c.user < |users|
    modifies ulProcs`tb
    ensures |ss[c.user].ul| == MAX_HARQ_PROC && AllStand(users, WithCrc(ss, c, t))
  {
    OthersAreStrangers(users, ss, c.user);
    assert Pick(c.user);
    assert users[c.user].GetUlHarq(t) in ulProcs;
    forall j | 0 <= j < |users| && j != c.user
      ensures Strangers(users[c.user], users[j]) && Stands(users[j], ss[j])
    {
      assert Pick(j);
    }
    CrcOne(users[c.user], t, c.good, users, ss, c.user);
    forall j | 0 <= j < |users| ensures Stands(users[j], WithCrc(ss, c, t)[j]) { assert Pick(j); }
  }

  /** Feedback for one user changes nothing about the others. */
  method AckOne(user: SchedUe, t: nat, ack: bool, ghost users: seq<SchedUe>, ghost ss: seq<Standing>, ghost i: nat)
    requires i < |users| == |ss| && user == users[i] && Stands(user, ss[i])
    requires forall j {:trigger Pick(j)} | 0 <= j < |users| && j != i ::
               Strangers(user, users[j]) && Stands(users[j], ss[j])
    modifies user`procs, user.dlHarq`tb
    ensures Stands(user, WithAck(ss, Report(i, ack), t)[i])
    ensures forall j {:trigger Pick(j)} | 0 <= j < |users| && j != i :: Stands(users[j], ss[j])
  {
    var ret := user.SetAckInfo(t, 0, ack);
    assert forall k | 0 <= k < MAX_HARQ_PROC :: user.ulHarq[k] !in user.dlHarq;
    forall j | 0 <= j < |users| && j != i ensures Stands(users[j], ss[j]) { assert Pick(j); }
  }

  method AckNext(users: seq<SchedUe>, t: nat, a: Report, ghost ss: seq<Standing>, ghost dlProcs: set<HarqProc>,
                 ghost ulProcs: set<HarqProc>)
    requires Owned(users, dlProcs, ulProcs) && AllStand(users, ss) && a.user < |users|
    modifies users`procs, dlProcs`tb
    ensures AllStand(users, WithAck(ss, a, t))
  {
    OthersAreStrangers(users, ss, a.user);
    assert Pick(a.user);
    forall j | 0 <= j < |users| && j != a.user ensures Strangers(users[a.user], users[j]) && Stands(users[j], ss[j]) {
      assert Pick(j);
    }
    AckOne(users[a.user], t, a.good, users, ss, a.user);
    forall j | 0 <= j < |users| ensures Stands(users[j], WithAck(ss, a, t)[j]) { assert Pick(j); }
  }

  /** The CRC reports and the feedback that are received in TTI `t`. */
  method Hear(users: seq<SchedUe>, t: nat, acks: seq<Report>, crcs: seq<Report>, ghost ss: seq<Standing>,
              ghost dlProcs: set<HarqProc>, ghost ulProcs: set<HarqProc>)
    returns (ghost after: seq<Standing>)
    requires Owned(users, dlProcs, ulProcs) && AllStand(users, ss) && t < TTI_PERIOD
    requires forall k | 0 <= k < |acks| :: acks[k].user < |users|
    requires forall k | 0 <= k < |crcs| :: crcs[k].user < |users|
    modifies users`procs, dlProcs`tb, ulProcs`tb
    ensures AllStand(users, after) && HeardAll(ss, after, acks, crcs, t)
  {
    after := ss;
    StandingOk(users, ss);
    NothingHeard(ss, t);
    assert crcs[..0] == [] && acks[..0] == [];
    for n := 0 to |crcs|
      invariant AllStand(users, after) && HeardAll(ss, after, [], crcs[..n], t)
    {
      assert crcs[..n + 1] == crcs[..n] + [crcs[n]];
      CrcNext(users, t, crcs[n], after, dlProcs, ulProcs);
      CrcHeard(ss, after, crcs[..n], crcs[n], t);
      after := WithCrc(after, crcs[n], t);
    }
    assert crcs[..|crcs|] == crcs;
    for n := 0 to |acks|
      invariant AllStand(users, after) && HeardAll(ss, after, acks[..n], crcs, t)
    {
      assert acks[..n + 1] == acks[..n] + [acks[n]];
      AckNext(users, t, acks[n], after, dlProcs, ulProcs);
      AckHeard(ss, after, acks[..n], crcs, acks[n], t);
      after := WithAck(after, acks[n], t);
    }
    assert acks[..|acks|] == acks;
  }

  // ---- Bearers

  /** The queues that a report names. */
  function WithQueue(lch: seq<Bearer>, q: Queue): (r: seq<Bearer>)
    ensures |r| == |lch| && (NonNegative(lch) ==> NonNegative(r))
  {
    if q.lcid < |lch| then lch[q.lcid := Bearer(lch[q.lcid].isDl, q.retx, q.tx)] else lch
  }

  /** The bearers of user `i` after these reports. */
  function QueuedBy(lch: seq<Bearer>, queues: seq<Queue>, i: nat): (r: seq<Bearer>)
    ensures |r| == |lch| && (NonNegative(lch) ==> NonNegative(r))
  {
    if |queues| == 0 then lch
    else
      var q, before := queues[|queues| - 1], QueuedBy(lch, queues[..|queues| - 1], i);
      if q.user == i then WithQueue(before, q) else before
  }

  /** Report `k` is the last one for its bearer. */
  predicate LastQueue(queues: seq<Queue>, k: nat)
    requires k < |queues|
  {
    forall m | k < m < |queues| :: !(queues[m].user == queues[k].user && queues[m].lcid == queues[k].lcid)
  }

  predicate IsFor(q: Queue, i: nat, b: nat) {
    q.user == i && q.lcid == b
  }

  lemma LastBefore(queues: seq<Queue>, k: nat)
    requires k + 1 < |queues| && LastQueue(queues, k)
    ensures LastQueue(queues[..|queues| - 1], k)
    ensures !IsFor(queues[|queues| - 1], queues[k].user, queues[k].lcid)
  {
  }

  lemma {:induction false} KeepsDirection(lch: seq<Bearer>, queues: seq<Queue>, i: nat, b: nat)
    requires b < |lch|
    ensures QueuedBy(lch, queues, i)[b].isDl == lch[b].isDl
  {
    if |queues| > 0 { KeepsDirection(lch, queues[..|queues| - 1], i, b); }
  }

  /** A bearer holds what was last reported for it. */
  lemma {:induction false} BearerHolds(lch: seq<Bearer>, queues: seq<Queue>, k: nat)
    requires k < |queues| && LastQueue(queues, k) && queues[k].lcid < |lch|
    ensures var b := queues[k].lcid;
            QueuedBy(lch, queues, queues[k].user)[b] == Bearer(lch[b].isDl, queues[k].retx, queues[k].tx)
  {
    var n := |queues| - 1;
    if k < n {
      LastBefore(queues, k);
      BearerHolds(lch, queues[..n], k);
    } else {
      KeepsDirection(lch, queues[..n], queues[k].user, queues[k].lcid);
    }
  }

  /** A bearer holds what it held if nothing was reported for it. */
  lemma {:induction false} BearerKeeps(lch: seq<Bearer>, queues: seq<Queue>, i: nat, b: nat)
    requires b < |lch| && forall k | 0 <= k < |queues| :: !IsFor(queues[k], i, b)
    ensures QueuedBy(lch, queues, i)[b] == lch[b]
  {
    if |queues| > 0 {
      assert !IsFor(queues[|queues| - 1], i, b);
      BearerKeeps(lch, queues[..|queues| - 1], i, b);
    }
  }

  /** All users have these reports on their bearers. */
  ghost predicate QueuedAll(ss: seq<Standing>, after: seq<Standing>, queues: seq<Queue>) {
    && |ss| == |after|
    && forall i {:trigger Pick(i)} | 0 <= i < |ss| :: after[i] == ss[i].(lch := QueuedBy(ss[i].lch, queues, i))
  }

  lemma QueuedMore(ss: seq<Standing>, after: seq<Standing>, queues: seq<Queue>, q: Queue)
    requires QueuedAll(ss, after, queues) && q.user < |ss|
    ensures QueuedAll(ss, after[q.user := after[q.user].(lch := WithQueue(after[q.user].lch, q))], queues + [q])
  {
    assert (queues + [q])[..|queues|] == queues;
    forall i | 0 <= i < |ss|
      ensures after[q.user := after[q.user].(lch := WithQueue(after[q.user].lch, q))][i]
           == ss[i].(lch := QueuedBy(ss[i].lch, queues + [q], i))
    {
      assert Pick(i);
    }
  }

  method QueueNext(users: seq<SchedUe>, q: Queue, ghost ss: seq<Standing>)
    requires Distinct(users) && AllStand(users, ss) && q.user < |users|
    modifies users`lch
    ensures AllStand(users, ss[q.user := ss[q.user].(lch := WithQueue(ss[q.user].lch, q))])
  {
    assert Pick(q.user);
    forall i | 0 <= i < |users| && i != q.user ensures users[i] != users[q.user] && Stands(users[i], ss[i]) {
      assert Pick(i);
    }
    users[q.user].DlBufferState(q.lcid, q.tx, q.retx);
    ghost var after := ss[q.user := ss[q.user].(lch := WithQueue(ss[q.user].lch, q))];
    assert users[q.user].lch == after[q.user].lch;
    forall i | 0 <= i < |users| ensures Stands(users[i], after[i]) { assert Pick(i); }
  }

  /** The upper layers report what waits on the bearers. */
  method TakeQueues(users: seq<SchedUe>, queues: seq<Queue>, ghost ss: seq<Standing>)
    returns (ghost after: seq<Standing>)
    requires Distinct(users) && AllStand(users, ss) && forall k | 0 <= k < |queues| :: queues[k].user < |users|
    modifies users`lch
    ensures AllStand(users, after) && QueuedAll(ss, after, queues)
  {
    after := ss;
    assert queues[..0] == [];
    forall i | 0 <= i < |ss| ensures ss[i] == ss[i].(lch := QueuedBy(ss[i].lch, [], i)) { assert ss[i].Standing?; }
    for n := 0 to |queues|
      invariant AllStand(users, after) && QueuedAll(ss, after, queues[..n])
    {
      assert queues[..n + 1] == queues[..n] + [queues[n]];
      QueueNext(users, queues[n], after);
      QueuedMore(ss, after, queues[..n], queues[n]);
      after := after[queues[n].user := after[queues[n].user].(lch := WithQueue(after[queues[n].user].lch, queues[n]))];
    }
    assert queues[..|queues|] == queues;
  }

  // ---- Channels

  /** The channel of user `i` after these reports. */
  function LinkedBy(ch: Channel, links: seq<Link>, i: nat): Channel {
    if |links| == 0 then ch
    else
      var l := links[|links| - 1];
      if l.user == i then l.channel else LinkedBy(ch, links[..|links| - 1], i)
  }

  /** A user has what was last reported for it, or what it had if nothing was reported. */
  lemma {:induction false} LastLinkHolds(ch: Channel, links: seq<Link>, i: nat)
    ensures forall k | 0 <= k < |links| && links[k].user == i && (forall m | k < m < |links| :: links[m].user != i) ::
              LinkedBy(ch, links, i) == links[k].channel
    ensures (forall k | 0 <= k < |links| :: links[k].user != i) ==> LinkedBy(ch, links, i) == ch
  {
    if |links| > 0 { LastLinkHolds(ch, links[..|links| - 1], i); }
  }

  ghost predicate LinkedAll(ss: seq<Standing>, after: seq<Standing>, links: seq<Link>) {
    && |ss| == |after|
    && forall i {:trigger Pick(i)} | 0 <= i < |ss| :: after[i] == ss[i].(channel := LinkedBy(ss[i].channel, links, i))
  }

  lemma LinkedMore(ss: seq<Standing>, after: seq<Standing>, links: seq<Link>, l: Link)
    requires LinkedAll(ss, after, links) && l.user < |ss|
    ensures LinkedAll(ss, after[l.user := after[l.user].(channel := l.channel)], links + [l])
  {
    assert (links + [l])[..|links|] == links;
    forall i | 0 <= i < |ss|
      ensures after[l.user := after[l.user].(channel := l.channel)][i]
           == ss[i].(channel := LinkedBy(ss[i].channel, links + [l], i))
    {
      assert Pick(i);
    }
  }

  method LinkNext(users: seq<SchedUe>, l: Link, ghost ss: seq<Standing>)
    requires Distinct(users) && AllStand(users, ss) && l.user < |users|
    modifies users`channel
    ensures AllStand(users, ss[l.user := ss[l.user].(channel := l.channel)])
  {
    assert Pick(l.user);
    forall i | 0 <= i < |users| && i != l.user ensures users[i] != users[l.user] && Stands(users[i], ss[i]) {
      assert Pick(i);
    }
    users[l.user].SetChannel(l.channel);
    ghost var after := ss[l.user := ss[l.user].(channel := l.channel)];
    forall i | 0 <= i < |users| ensures Stands(users[i], after[i]) { assert Pick(i); }
  }

  /** Channel quality and uplink demand change. */
  method TakeLinks(users: seq<SchedUe>, links: seq<Link>, ghost ss: seq<Standing>)
    returns (ghost after: seq<Standing>)
    requires Distinct(users) && AllStand(users, ss) && forall k | 0 <= k < |links| :: links[k].user < |users|
    modifies users`channel
    ensures AllStand(users, after) && LinkedAll(ss, after, links)
  {
    after := ss;
    assert links[..0] == [];
    forall i | 0 <= i < |ss| ensures ss[i] == ss[i].(channel := LinkedBy(ss[i].channel, [], i)) {
      assert ss[i].Standing?;
    }
    for n := 0 to |links|
      invariant AllStand(users, after) && LinkedAll(ss, after, links[..n])
    {
      assert links[..n + 1] == links[..n] + [links[n]];
      LinkNext(users, links[n], after);
      LinkedMore(ss, after, links[..n], links[n]);
      after := after[links[n].user := after[links[n].user].(channel := links[n].channel)];
    }
    assert links[..|links|] == links;
  }
}
