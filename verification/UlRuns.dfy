/** The life of uplink blocks on one HARQ process (section 5.4.2 of 3GPP TS 36.321): one step is one uplink scheduling
    opportunity of the process (every 8 ms) and, if it transmits, the CRC report that follows. */
module UlRuns {
  import opened Harq
  import opened DlProcs

  /** An uplink process: its block, whether the user still has to be told the outcome, and the resource blocks (RBs) it
      used last. */
  datatype Ul = Ul(p: Proc, needAck: bool, alloc: Alloc)

  /** What one opportunity brings: the RBs that the allocator or a Msg3 grant gives, whether there is data, whether it
      is a Msg3 grant, whether a DCI can be placed, the limit for a new block, the grant's MCS and size, the CRC. */
  datatype Env = Env(tti: nat, rbs: Option<Alloc>, data: bool, msg3: bool, dci: bool, limit: nat, mcs: int, tbs: int,
                     crc: bool)

  datatype Tx = Silent | First | Again

  datatype Out = Out(phich: Option<bool>, tx: Tx)

  /** A process before its first use. */
  function NewUl(maxRetx: nat): Ul {
    Ul(Fresh(maxRetx), false, Alloc(0, 0))
  }

  /** Reading the pending acknowledgment: a block that was acknowledged or given up needs no further one. */
  function Reported(u: Ul): Ul {
    var active := u.p.tb0.active && !u.p.tb0.ack;
    Ul(u.p.(tb0 := u.p.tb0.(active := active)), u.needAck && active, u.alloc)
  }

  /** The process has RBs and something for them: a Msg3 grant, a waiting block or new data. */
  predicate Granted(u: Ul, e: Env) {
    e.rbs.Some? && (e.msg3 || !u.p.tb0.IsEmpty() || e.data)
  }

  /** The state after the opportunity, and what is transmitted in it. */
  function Opportunity(u: Ul, e: Env): (Ul, Tx) {
    if !Granted(u, e) then (u, Silent)
    else
      var p := if u.p.tb0.IsEmpty() then u.p.(maxRetx := e.limit) else u.p;
      if !e.msg3 && !e.dci then (Ul(p.Reset(0), u.needAck, e.rbs.value), Silent)
      else if e.msg3 || p.tb0.IsEmpty() then (Ul(p.NewTx(0, e.tti, e.mcs, e.tbs), true, e.rbs.value), First)
      else (Ul(p.NewRetx(0, e.tti), u.needAck, e.rbs.value), Again)
  }

  function After(u: Ul, e: Env): Ul {
    var (v, tx) := Opportunity(Reported(u), e);
    if tx.Silent? then v else v.(p := v.p.SetAck(0, e.crc))
  }

  function Output(u: Ul, e: Env): Out {
    Out(if u.needAck then Some(u.p.tb0.ack) else None, Opportunity(Reported(u), e).1)
  }

  function Run(u: Ul, es: seq<Env>): Ul {
    if |es| == 0 then u else After(Run(u, es[..|es| - 1]), es[|es| - 1])
  }

  function OutAt(u: Ul, es: seq<Env>, k: nat): Out
    requires k < |es|
  {
    Output(Run(u, es[..k]), es[k])
  }

  /** The acknowledgment given at step `k` is the last one for its block. */
  predicate Terminal(u: Ul, es: seq<Env>, k: nat)
    requires k < |es|
  {
    OutAt(u, es, k).phich.Some? && !Reported(Run(u, es[..k])).needAck
  }

  /** A Msg3 grant never lands on a process with a block in flight. */
  predicate NoPreemption(u: Ul, es: seq<Env>) {
    forall k | 0 <= k < |es| && es[k].msg3 :: Reported(Run(u, es[..k])).p.tb0.IsEmpty()
  }

  /** Between opportunities: a block in flight has its CRC, is below its limit, and its user awaits the outcome. */
  predicate Settled(u: Ul) {
    u.p.tb0.active ==> u.needAck && u.p.tb0.ackReceived && u.p.tb0.nRtx + 1 < u.p.maxRetx
  }

  lemma {:induction false} RunSettled(u: Ul, es: seq<Env>)
    requires Settled(u)
    ensures Settled(Run(u, es))
  {
    if |es| > 0 { RunSettled(u, es[..|es| - 1]); }
  }

  /** A new block replaces one that is not closed exactly when a Msg3 grant lands on a block in flight. */
  lemma PreemptionIff(v: Ul, e: Env)
    requires Settled(v) && Output(v, e).tx.First?
    ensures Reported(v).needAck <==> e.msg3 && !Reported(v).p.tb0.IsEmpty()
  {
  }

  /** The process takes new data only once the previous block is closed. */
  lemma NewOnlyWhenClosed(u: Ul, es: seq<Env>, k: nat)
    requires Settled(u) && k < |es| && NoPreemption(u, es)
    requires OutAt(u, es, k).tx.First?
    ensures !Reported(Run(u, es[..k])).needAck && Reported(Run(u, es[..k])).p.tb0.IsEmpty()
    ensures Run(u, es[..k + 1]).needAck
  {
    RunSettled(u, es[..k]);
    assert es[..k + 1][..k] == es[..k];
  }

  function Sends(u: Ul, es: seq<Env>, k: nat, n: nat): nat
    requires k <= n <= |es|
  {
    if n == k then 0 else Sends(u, es, k, n - 1) + (if OutAt(u, es, n - 1).tx.Silent? then 0 else 1)
  }

  /** Some acknowledgment after step `k` and before step `n` was terminal. */
  predicate Closed(u: Ul, es: seq<Env>, k: nat, n: nat)
    requires n <= |es|
  {
    exists m | k < m < n :: Terminal(u, es, m)
  }

  lemma ClosedStep(u: Ul, es: seq<Env>, k: nat, n: nat)
    requires k + 1 < n <= |es|
    ensures Closed(u, es, k, n) <==> Closed(u, es, k, n - 1) || Terminal(u, es, n - 1)
  {
  }

  /** One opportunity of a settled process that starts no new block. */
  lemma StepOfBlock(v: Ul, e: Env)
    requires Settled(v) && !Output(v, e).tx.First?
    ensures var w := After(v, e);
            && w.needAck == Reported(v).needAck
            && (w.p.tb0.active ==> v.p.tb0.active && w.p.maxRetx == v.p.maxRetx)
            && (Output(v, e).tx.Again? ==> v.p.tb0.active && v.p.tb0.nRtx + 1 < v.p.maxRetx
                                           && w.p.tb0.nRtx == v.p.tb0.nRtx + 1)
            && (Output(v, e).tx.Silent? && w.p.tb0.active ==> w.p.tb0.nRtx == v.p.tb0.nRtx)
  {
  }

  /** The block that started at step `k`, before step `n`: its user waits as long as no terminal acknowledgment was
      given, its transmissions are counted, and they are within the limit. */
  predicate Lives(u: Ul, es: seq<Env>, k: nat, n: nat)
    requires k < n <= |es|
  {
    var v := Run(u, es[..n]);
    var limit := es[k].limit;
    && v.needAck == !Closed(u, es, k, n)
    && (v.p.tb0.active ==> v.p.maxRetx == limit && Sends(u, es, k, n) == v.p.tb0.nRtx + 1)
    && Sends(u, es, k, n) <= if limit > 0 then limit else 1
  }

  lemma BlockStarts(u: Ul, es: seq<Env>, k: nat)
    requires Settled(u) && NoPreemption(u, es) && k < |es| && OutAt(u, es, k).tx.First?
    ensures Lives(u, es, k, k + 1)
  {
    assert es[..k + 1][..k] == es[..k];
    NewOnlyWhenClosed(u, es, k);
    assert Sends(u, es, k, k) == 0;
  }

  lemma BlockGoesOn(u: Ul, es: seq<Env>, k: nat, n: nat)
    requires Settled(u) && k < n < |es| && Lives(u, es, k, n) && !OutAt(u, es, n).tx.First?
    ensures Lives(u, es, k, n + 1)
  {
    assert es[..n + 1][..n] == es[..n];
    RunSettled(u, es[..n]);
    StepOfBlock(Run(u, es[..n]), es[n]);
    ClosedStep(u, es, k, n + 1);
  }

  lemma BlockLife(u: Ul, es: seq<Env>, k: nat, n: nat)
    requires Settled(u) && NoPreemption(u, es) && k < n <= |es|
    requires OutAt(u, es, k).tx.First?
    requires forall j | k < j < n :: !OutAt(u, es, j).tx.First?
    ensures Lives(u, es, k, n)
  {
    BlockStarts(u, es, k);
    for m := k + 1 to n
      invariant Lives(u, es, k, m)
    {
      BlockGoesOn(u, es, k, m);
    }
  }

  /** Every block is acknowledged at each opportunity up to its terminal acknowledgment and at none after it. */
  lemma PhichUntilTerminal(u: Ul, es: seq<Env>, k: nat, j: nat)
    requires Settled(u) && NoPreemption(u, es) && k < j < |es|
    requires OutAt(u, es, k).tx.First?
    requires forall i | k < i < j :: !OutAt(u, es, i).tx.First?
    ensures OutAt(u, es, j).phich.Some? <==> !Closed(u, es, k, j)
  {
    BlockLife(u, es, k, j);
  }

  /** A block is sent at most as often as its limit says, and before the next block of the process starts it has got
      exactly one terminal acknowledgment. */
  lemma BlockClosure(u: Ul, es: seq<Env>, k: nat, n: nat) returns (m: nat)
    requires Settled(u) && NoPreemption(u, es) && k < n < |es|
    requires OutAt(u, es, k).tx.First? && OutAt(u, es, n).tx.First?
    requires forall j | k < j < n :: !OutAt(u, es, j).tx.First?
    ensures k < m <= n && Terminal(u, es, m)
    ensures forall j | k < j <= n && Terminal(u, es, j) :: j == m
    ensures forall j | k < j <= n :: OutAt(u, es, j).phich.Some? <==> j <= m
    ensures var limit := es[k].limit;
            Sends(u, es, k, n) <= if limit > 0 then limit else 1
  {
    BlockLife(u, es, k, n);
    NewOnlyWhenClosed(u, es, n);
    if Closed(u, es, k, n) {
      m :| k < m < n && Terminal(u, es, m);
    } else {
      m := n;
    }
    forall j | k < j <= n ensures OutAt(u, es, j).phich.Some? <==> !Closed(u, es, k, j) {
      PhichUntilTerminal(u, es, k, j);
    }
    assert !Closed(u, es, k, m);
    forall j | k < j <= n ensures Closed(u, es, k, j) <==> j > m {
      if j > m { assert Terminal(u, es, m); }
    }
  }

  /** The transmission of a block: a new one changes the new-data indicator, has the MCS and size of its grant, and the
      limit of its opportunity if its process was free; another one of the same block keeps all of these. Both are on
      the RBs of the opportunity. */
  lemma TransmissionIs(v: Ul, e: Env)
    requires !Output(v, e).tx.Silent?
    ensures var b, c := v.p.tb0, After(v, e).p.tb0;
            && e.rbs == Some(After(v, e).alloc)
            && (Output(v, e).tx.First? <==> c.ndi != b.ndi)
            && (Output(v, e).tx.First? ==> c.lastMcs == e.mcs && c.lastTbs == e.tbs && c.nRtx == 0)
            && (Output(v, e).tx.First? && Reported(v).p.tb0.IsEmpty() ==> After(v, e).p.maxRetx == e.limit)
            && (Output(v, e).tx.Again? ==>
                  && c.lastMcs == b.lastMcs && c.lastTbs == b.lastTbs && c.nRtx == b.nRtx + 1
                  && After(v, e).p.maxRetx == v.p.maxRetx)
  {
  }

  /** A process sends exactly if it has RBs and something for them, and a DCI unless a random access grant stands for
      it; it sends its block again exactly if that is still in flight and no random access grant comes. */
  lemma SendsIff(v: Ul, e: Env)
    ensures var out, busy := Output(v, e).tx, !Reported(v).p.tb0.IsEmpty();
            && (!out.Silent? <==> e.rbs.Some? && (e.msg3 || (e.dci && (busy || e.data))))
            && (out.Again? <==> e.rbs.Some? && !e.msg3 && e.dci && busy)
  {
  }

  /** What is sent again has as many RBs as before. */
  predicate SameSize(v: Ul, e: Env) {
    Output(v, e).tx.Again? ==> e.rbs.value.len == v.alloc.len
  }

  /** The block in flight before opportunity `n`, if any, was sent on `len` RBs. */
  predicate HasSize(u: Ul, es: seq<Env>, n: nat, len: nat)
    requires n <= |es|
  {
    Run(u, es[..n]).p.tb0.active ==> Run(u, es[..n]).alloc.len == len
  }

  lemma SizeNext(u: Ul, es: seq<Env>, n: nat, len: nat)
    requires Settled(u) && n < |es| && HasSize(u, es, n, len)
    requires !OutAt(u, es, n).tx.First? && SameSize(Run(u, es[..n]), es[n])
    ensures HasSize(u, es, n + 1, len)
  {
    assert es[..n + 1][..n] == es[..n];
    RunSettled(u, es[..n]);
  }

  lemma SizeOfFirst(u: Ul, es: seq<Env>, k: nat)
    requires k < |es| && OutAt(u, es, k).tx.First?
    ensures es[k].rbs.Some? && HasSize(u, es, k + 1, es[k].rbs.value.len)
  {
    assert es[..k + 1][..k] == es[..k];
    TransmissionIs(Run(u, es[..k]), es[k]);
  }

  /** From opportunity `k` up to `n` only its block is repeated, with as many RBs each time. */
  predicate Repeats(u: Ul, es: seq<Env>, k: nat, n: nat)
    requires n <= |es|
  {
    forall j | k < j < n :: !OutAt(u, es, j).tx.First? && SameSize(Run(u, es[..j]), es[j])
  }

  lemma RepeatsBefore(u: Ul, es: seq<Env>, k: nat, n: nat)
    requires k + 1 < n <= |es| && Repeats(u, es, k, n)
    ensures Repeats(u, es, k, n - 1)
    ensures !OutAt(u, es, n - 1).tx.First? && SameSize(Run(u, es[..n - 1]), es[n - 1])
  {
  }

  /** Then all transmissions of a block have the same number of RBs. */
  lemma {:induction false} BlockKeepsSize(u: Ul, es: seq<Env>, k: nat, n: nat)
    requires Settled(u) && k < n <= |es| && OutAt(u, es, k).tx.First? && Repeats(u, es, k, n)
    ensures es[k].rbs.Some? && HasSize(u, es, n, es[k].rbs.value.len)
    decreases n
  {
    if n == k + 1 {
      SizeOfFirst(u, es, k);
    } else {
      RepeatsBefore(u, es, k, n);
      BlockKeepsSize(u, es, k, n - 1);
      SizeNext(u, es, n - 1, es[k].rbs.value.len);
    }
  }

  /** So what is repeated in opportunity `n` has as many RBs as the block had in the beginning. */
  lemma RepeatHasSize(u: Ul, es: seq<Env>, k: nat, n: nat)
    requires Settled(u) && k < n < |es| && OutAt(u, es, k).tx.First? && Repeats(u, es, k, n)
    requires OutAt(u, es, n).tx.Again? && SameSize(Run(u, es[..n]), es[n])
    ensures es[k].rbs.Some? && es[n].rbs.Some? && es[n].rbs.value.len == es[k].rbs.value.len
  {
    BlockKeepsSize(u, es, k, n);
    RunSettled(u, es[..n]);
  }

  /** What a user is told about a block that is not closed is NACK. A terminal acknowledgment follows a transmission or
      the loss of the block because no DCI could be placed for it; it is ACK exactly when the CRC of that transmission
      was good or the block was lost. */
  lemma PhichMeaning(u: Ul, es: seq<Env>, k: nat)
    requires Settled(u) && k < |es| && OutAt(u, es, k).phich.Some?
    ensures !Terminal(u, es, k) ==> OutAt(u, es, k).phich == Some(false)
    ensures k > 0 ==>
              var e := es[k - 1];
              var out := OutAt(u, es, k - 1);
              var dropped := Granted(Reported(Run(u, es[..k - 1])), e) && out.tx.Silent?;
              && (Terminal(u, es, k) ==> !out.tx.Silent? || dropped)
              && (!out.tx.Silent? ==> OutAt(u, es, k).phich == Some(e.crc))
              && (dropped ==> OutAt(u, es, k).phich == Some(true) && Terminal(u, es, k))
              && (out.tx.Silent? && !dropped ==> OutAt(u, es, k).phich == out.phich)
  {
    RunSettled(u, es[..k]);
    if k > 0 {
      assert es[..k][..k - 1] == es[..k - 1];
      RunSettled(u, es[..k - 1]);
    }
  }

  // ---- Opportunities with the reports between them

  /** The CRC reports that come before an opportunity, and the opportunity; its own `crc` is not looked at. */
  datatype Chance = Chance(crcs: seq<bool>, env: Env)

  /** The process after CRC reports. */
  function Checked(u: Ul, crcs: seq<bool>): Ul {
    if |crcs| == 0 then u
    else
      var v := Checked(u, crcs[..|crcs| - 1]);
      v.(p := v.p.SetAck(0, crcs[|crcs| - 1]))
  }

  lemma CheckedOneMore(u: Ul, crcs: seq<bool>, crc: bool)
    ensures Checked(u, crcs + [crc]) == Checked(Checked(u, crcs), [crc])
  {
    assert (crcs + [crc])[..|crcs|] == crcs;
    assert [crc][..0] == [] && Checked(Checked(u, crcs), []) == Checked(u, crcs);
  }

  function Taken(u: Ul, c: Chance): Ul {
    Opportunity(Reported(Checked(u, c.crcs)), c.env).0
  }

  /** The process after its opportunities. */
  function Course(u: Ul, cs: seq<Chance>): Ul {
    if |cs| == 0 then u else Taken(Course(u, cs[..|cs| - 1]), cs[|cs| - 1])
  }

  /** What opportunity `k` finds. */
  function Found(u: Ul, cs: seq<Chance>, k: nat): Ul
    requires k < |cs|
  {
    Checked(Course(u, cs[..k]), cs[k].crcs)
  }

  predicate SendsAt(u: Ul, cs: seq<Chance>, k: nat)
    requires k < |cs|
  {
    !Output(Found(u, cs, k), cs[k].env).tx.Silent?
  }

  /** What was sent, and nothing else, has one CRC report before the next opportunity. */
  predicate OneCrcEach(u: Ul, cs: seq<Chance>) {
    forall k | 0 <= k < |cs| :: |cs[k].crcs| == if k > 0 && SendsAt(u, cs, k - 1) then 1 else 0
  }

  /** Opportunity `k` with the CRC report that follows it. */
  function EnvAt(cs: seq<Chance>, k: nat): Env
    requires k < |cs|
  {
    cs[k].env.(crc := k + 1 < |cs| && cs[k + 1].crcs == [true])
  }

  function Envs(cs: seq<Chance>): (es: seq<Env>)
    ensures |es| == |cs| && forall k | 0 <= k < |cs| :: es[k] == EnvAt(cs, k)
  {
    seq(|cs|, k requires 0 <= k < |cs| => EnvAt(cs, k))
  }

  lemma ThenChecked(v: Ul, e: Env, crcs: seq<bool>, crc: bool)
    requires crcs == if Output(v, e).tx.Silent? then [] else [crc]
    ensures Checked(Opportunity(Reported(v), e).0, crcs) == After(v, e.(crc := crc))
    ensures Output(v, e.(crc := crc)) == Output(v, e)
  {
    assert crcs != [] ==> crcs[..0] == [];
  }

  lemma FoundNext(u: Ul, cs: seq<Chance>, k: nat)
    requires 0 < k < |cs|
    ensures Found(u, cs, k) == Checked(Taken(Course(u, cs[..k - 1]), cs[k - 1]), cs[k].crcs)
  {
    assert cs[..k][..k - 1] == cs[..k - 1];
  }

  lemma RunNext(u: Ul, cs: seq<Chance>, k: nat)
    requires OneCrcEach(u, cs) && 0 < k < |cs| && Found(u, cs, k - 1) == Run(u, Envs(cs)[..k - 1])
    ensures Found(u, cs, k) == Run(u, Envs(cs)[..k])
  {
    assert Envs(cs)[..k][..k - 1] == Envs(cs)[..k - 1];
    FoundNext(u, cs, k);
    var crcs := cs[k].crcs;
    assert SendsAt(u, cs, k - 1) ==> |crcs| == 1 && crcs == [EnvAt(cs, k - 1).crc];
    ThenChecked(Found(u, cs, k - 1), cs[k - 1].env, crcs, EnvAt(cs, k - 1).crc);
  }

  lemma {:induction false} FoundIsRun(u: Ul, cs: seq<Chance>, k: nat)
    requires OneCrcEach(u, cs) && k < |cs|
    ensures Found(u, cs, k) == Run(u, Envs(cs)[..k])
  {
    if k > 0 {
      FoundIsRun(u, cs, k - 1);
      RunNext(u, cs, k);
    }
  }

  /** With one CRC report for everything sent the opportunities are a run. */
  lemma CourseIsRun(u: Ul, cs: seq<Chance>, k: nat)
    requires OneCrcEach(u, cs) && k < |cs|
    ensures Found(u, cs, k) == Run(u, Envs(cs)[..k]) && Output(Found(u, cs, k), cs[k].env) == OutAt(u, Envs(cs), k)
  {
    FoundIsRun(u, cs, k);
    ThenChecked(Found(u, cs, k), cs[k].env, if SendsAt(u, cs, k) then [EnvAt(cs, k).crc] else [], EnvAt(cs, k).crc);
  }
}
