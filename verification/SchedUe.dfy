/** One user as the scheduler sees it: its HARQ processes, its bearer queues and its channel quality. */
module SchedUser {
  import opened Bits
  import opened Tti
  import opened Harq
  import opened HarqObjects
  import opened DlProcs
  import opened Queues
  import DlRuns
  import UlRuns
  import Modular
  import Rbg

  const MAX_HARQ_PROC: nat := 2 * HARQ_DELAY_MS

  /** PDU identity of the contention resolution message. */
  const CON_RES_ID: nat := 28

  /** Bytes queued on the downlink bearers among the first `n`. */
  function Backlog(lch: seq<Bearer>, n: nat): (bytes: int)
    requires n <= |lch|
    ensures NonNegative(lch) ==> bytes >= 0
  {
    if n == 0 then 0
    else Backlog(lch, n - 1) + (if lch[n - 1].isDl then lch[n - 1].retx + lch[n - 1].tx else 0)
  }

  /** What waits on uplink bearers does not count. */
  lemma {:induction false} OnlyDownlink(lch: seq<Bearer>, after: seq<Bearer>, n: nat)
    requires n <= |lch| == |after|
    requires forall b | 0 <= b < n :: lch[b].isDl == after[b].isDl && (lch[b].isDl ==> lch[b] == after[b])
    ensures Backlog(after, n) == Backlog(lch, n)
  {
    if n > 0 { OnlyDownlink(lch, after, n - 1); }
  }

  /** Nothing was ever sent on any of the processes. */
  predicate FirstDlTx(ps: seq<Proc>) {
    forall i | 0 <= i < |ps| :: ps[i].tb0.txCnt == 0
  }

  /** The bytes to allocate for: the backlog, its header, and room for the contention resolution message. */
  function BytesWanted(backlog: nat, first: bool): (bytes: nat)
    ensures bytes > 0 <==> backlog > 0
  {
    if backlog == 0 then 0 else backlog + (if backlog < 128 then 2 else 3) + (if first then 6 else 0)
  }

  /** Grows an allocation from `n` PRBs, good for `got` bytes, until it holds `req`. `tbs(k, c)` is the size of a block
      on k PRBs with c control symbols. */
  function RequiredFrom(tbs: (nat, nat) -> int, c: nat, nofPrb: nat, req: nat, n: nat, got: nat): (r: nat)
    requires n <= nofPrb
    ensures r <= nofPrb
    decreases nofPrb - n
  {
    if n == nofPrb || got >= req then n
    else if tbs(n + 1, c) < 0 then 0
    else RequiredFrom(tbs, c, nofPrb, req, n + 1, if tbs(n + 1, c) > 0 then tbs(n + 1, c) else got)
  }

  /** The PRBs found are the fewest that hold the bytes, or the whole carrier if nothing does. */
  lemma {:induction false} RequiredIsLeast(tbs: (nat, nat) -> int, c: nat, nofPrb: nat, req: nat, n: nat, got: nat)
    requires n < nofPrb && got < req
    requires forall k, d :: tbs(k, d) >= 0
    ensures var r := RequiredFrom(tbs, c, nofPrb, req, n, got);
            && n < r <= nofPrb
            && (forall k | n < k < r :: tbs(k, c) < req)
            && (r < nofPrb ==> tbs(r, c) >= req)
    decreases nofPrb - n
  {
    var next := if tbs(n + 1, c) > 0 then tbs(n + 1, c) else got;
    if n + 1 < nofPrb && next < req {
      RequiredIsLeast(tbs, c, nofPrb, req, n + 1, next);
    }
  }

  /** Number `k` of PRBs has an invalid size, and no number below it has one that is invalid or large enough. */
  predicate FailsAt(tbs: (nat, nat) -> int, c: nat, req: nat, n: nat, k: nat) {
    tbs(k, c) < 0 && forall j | n < j < k :: 0 <= tbs(j, c) < req
  }

  /** The search gives up with no PRBs exactly if it meets an invalid size before one that is large enough. */
  lemma {:induction false} RequiredFailsIff(tbs: (nat, nat) -> int, c: nat, nofPrb: nat, req: nat, n: nat, got: nat)
    requires n < nofPrb && got < req
    ensures RequiredFrom(tbs, c, nofPrb, req, n, got) == 0 <==> exists k | n < k <= nofPrb :: FailsAt(tbs, c, req, n, k)
    decreases nofPrb - n
  {
    var i := n + 1;
    var next := if tbs(i, c) > 0 then tbs(i, c) else got;
    if tbs(i, c) < 0 {
      assert FailsAt(tbs, c, req, n, i);
    } else if i < nofPrb && next < req {
      RequiredFailsIff(tbs, c, nofPrb, req, i, next);
      if k :| i < k <= nofPrb && FailsAt(tbs, c, req, i, k) { assert FailsAt(tbs, c, req, n, k); }
      if k :| n < k <= nofPrb && FailsAt(tbs, c, req, n, k) { assert FailsAt(tbs, c, req, i, k); }
    }
  }

  /** The PRBs that a mask of groups covers. */
  function MaskPrbs(bitmask: nat, nofPrb: nat): (m: seq<bool>)
    ensures |m| == nofPrb
  {
    Rbg.Prbs(Rbg.Selection(bitmask, Rbg.NofGroups(nofPrb)), Rbg.GroupSize(nofPrb), nofPrb)
  }

  /** How many of them are below PRB `x`. */
  function CountUpTo(bitmask: nat, nofPrb: nat, x: nat): nat {
    Rbg.CountTrue(MaskPrbs(bitmask, nofPrb)[..Min(x, nofPrb)])
  }

  lemma NextGroup(i: nat, p: nat)
    ensures (i + 1) * p == i * p + p
  {
  }

  lemma InGroup(i: nat, j: nat, p: nat)
    requires j < p
    ensures (i * p + j) / p == i
  {
    Modular.DivMod(i * p + j, i, j, p);
  }

  /** PRB j of group i counts if it exists and its group is selected. */
  lemma CountPrb(m: nat, nofPrb: nat, i: nat, j: nat)
    requires i < Rbg.NofGroups(nofPrb) && j < Rbg.GroupSize(nofPrb)
    ensures var x := i * Rbg.GroupSize(nofPrb) + j;
            var counts := x < nofPrb && Bit(m, Rbg.NofGroups(nofPrb) - i - 1);
            CountUpTo(m, nofPrb, x + 1) == CountUpTo(m, nofPrb, x) + (if counts then 1 else 0)
  {
    var x := i * Rbg.GroupSize(nofPrb) + j;
    if x < nofPrb {
      var s := MaskPrbs(m, nofPrb);
      InGroup(i, j, Rbg.GroupSize(nofPrb));
      Rbg.SelectionAt(m, Rbg.NofGroups(nofPrb), i);
      assert s[..x + 1][..x] == s[..x];
    }
  }

  /** The first PRBs of a group that is not selected add nothing. */
  lemma {:induction false} SkipGroup(m: nat, nofPrb: nat, i: nat, j: nat)
    requires i < Rbg.NofGroups(nofPrb) && j <= Rbg.GroupSize(nofPrb) && !Bit(m, Rbg.NofGroups(nofPrb) - i - 1)
    ensures var x := i * Rbg.GroupSize(nofPrb);
            CountUpTo(m, nofPrb, x + j) == CountUpTo(m, nofPrb, x)
  {
    if j > 0 {
      SkipGroup(m, nofPrb, i, j - 1);
      CountPrb(m, nofPrb, i, j - 1);
    }
  }

  method Format1CountPrb(bitmask: nat, nofPrb: nat) returns (n: nat)
    ensures n == Rbg.CountTrue(MaskPrbs(bitmask, nofPrb))
  {
    var p := Rbg.GroupSize(nofPrb);
    var nb := Rbg.NofGroups(nofPrb);
    n := 0;
    for i := 0 to nb
      invariant n == CountUpTo(bitmask, nofPrb, i * p)
    {
      if Bit(bitmask, nb - i - 1) {
        for j := 0 to p
          invariant n == CountUpTo(bitmask, nofPrb, i * p + j)
        {
          CountPrb(bitmask, nofPrb, i, j);
          if i * p + j < nofPrb {
            n := n + 1;
          }
        }
      } else {
        SkipGroup(bitmask, nofPrb, i, p);
      }
      NextGroup(i, p);
    }
    assert MaskPrbs(bitmask, nofPrb)[..nofPrb] == MaskPrbs(bitmask, nofPrb);
  }

  /** A filled grant: MCS, block size, what the block carries, and what is left on the bearers. */
  datatype Load = Load(mcs: int, tbs: int, pdus: seq<Pdu>, lch: seq<Bearer>)

  function Unloaded(lch: seq<Bearer>): Load {
    Load(0, 0, [], lch)
  }

  /** The grant for process `pid` on so many PRBs: a new block filled from the queues if block 0 is free, with room for
      the contention resolution message if it is the first one, else the same block again. */
  function LoadOf(ps: seq<Proc>, pid: nat, lch: seq<Bearer>, block: (nat, nat, nat) -> (int, int), prbs: nat,
                  nofCtrl: nat): (l: Load)
    requires pid < |ps| && NonNegative(lch)
  {
    if ps[pid].tb0.IsEmpty() then
      var grant := block(prbs, nofCtrl, Backlog(lch, |lch|));
      var conRes := if FirstDlTx(ps) then [Pdu(CON_RES_ID, 0)] else [];
      var packed := Pack(lch, grant.1);
      Load(grant.0, grant.1, conRes + packed.0, packed.1)
    else Load(ps[pid].tb0.lastMcs, ps[pid].tb0.lastTbs, [], lch)
  }

  /** The contention resolution message goes out exactly with a new block while nothing was ever sent to the user. */
  lemma ConResIff(ps: seq<Proc>, pid: nat, lch: seq<Bearer>, block: (nat, nat, nat) -> (int, int), prbs: nat,
                  nofCtrl: nat)
    requires pid < |ps| && NonNegative(lch)
    ensures Pdu(CON_RES_ID, 0) in LoadOf(ps, pid, lch, block, prbs, nofCtrl).pdus
            <==> ps[pid].tb0.IsEmpty() && FirstDlTx(ps)
  {
    var tbs := block(prbs, nofCtrl, Backlog(lch, |lch|)).1;
    PackedPdus(lch, tbs);
    assert FirstDlTx(ps) ==> ([Pdu(CON_RES_ID, 0)] + Pack(lch, tbs).0)[0] == Pdu(CON_RES_ID, 0);
  }

  /** What a new block carries has left the queues, as much of it as the block holds; a retransmission takes nothing. */
  lemma LoadConserves(ps: seq<Proc>, pid: nat, lch: seq<Bearer>, block: (nat, nat, nat) -> (int, int), prbs: nat,
                      nofCtrl: nat)
    requires pid < |ps| && NonNegative(lch)
    requires ps[pid].tb0.IsEmpty() ==> LoadOf(ps, pid, lch, block, prbs, nofCtrl).tbs >= 0
    ensures var l, queued := LoadOf(ps, pid, lch, block, prbs, nofCtrl), Total(Flat(lch));
            && PduBytes(l.pdus) == (if ps[pid].tb0.IsEmpty() then Min(l.tbs, queued) else 0)
            && Total(Flat(l.lch)) == queued - PduBytes(l.pdus)
  {
    if ps[pid].tb0.IsEmpty() {
      var tbs := block(prbs, nofCtrl, Backlog(lch, |lch|)).1;
      var packed := Pack(lch, tbs).0;
      BytesConserved(lch, tbs);
      assert ([Pdu(CON_RES_ID, 0)] + packed)[1..] == packed;
      assert [] + packed == packed;
    }
  }

  /** Names a user: what is known of all users is looked at for the named ones only. */
  predicate Pick(i: int) { true }

  /** A process before its first use. */
  ghost predicate NewProc(h: HarqProc, rnti: nat, i: nat, downlink: bool, maxRetx: nat)
    reads h
  {
    && h.Valid() && h.rnti == rnti && h.id == i && h.downlink == downlink && h.State() == Fresh(maxRetx)
    && h.rbgMask == 0 && !h.needAck && h.allocation == Alloc(0, 0) && h.UlIdle()
  }

  /** Channel quality and demand of a user: the size of a downlink block on so many PRBs with so many control symbols;
      the MCS and size of a downlink grant on so many PRBs with so many control symbols for so many bytes; the bytes
      that the user still has to send and the RBs that so many bytes need; the MCS and size of an uplink grant on so
      many RBs for so many bytes; and the size for an MCS on so many RBs. */
  datatype Channel = Channel(approxTbs: (nat, nat) -> int, block: (nat, nat, nat) -> (int, int), ulPending: nat,
                             ulRequired: nat -> nat, ulBlock: (nat, nat) -> (int, int), ulTbs: (int, nat) -> int)

  class SchedUe {
    const rnti: nat

    const nofPrb: nat

    // Transmissions per uplink block.
    const maxRetx: nat

    const dlHarq: seq<HarqProc>

    const ulHarq: seq<HarqProc>

    var lch: seq<Bearer>

    // Set by the allocators.
    var dlNextAlloc: HarqProc?
    var ulNextAlloc: HarqProc?

    var channel: Channel

    // The states and the masks of the downlink processes.
    ghost var procs: seq<Proc>
    ghost var masks: seq<nat>

    ghost predicate Shape()
      reads this`lch, this`procs, this`masks
    {
      |procs| == |masks| == MAX_HARQ_PROC && AllValid(procs) && NonNegative(lch)
    }

    ghost predicate Valid()
      reads this`lch, this`procs, this`masks, dlHarq, ulHarq
    {
      && Shape() && |dlHarq| == |ulHarq| == MAX_HARQ_PROC
      && (forall i | 0 <= i < MAX_HARQ_PROC ::
            && dlHarq[i].Valid() && dlHarq[i].rnti == rnti && dlHarq[i].id == i && dlHarq[i].downlink
            && procs[i] == dlHarq[i].State() && masks[i] == dlHarq[i].rbgMask)
      && (forall i | 0 <= i < MAX_HARQ_PROC ::
            && ulHarq[i].Valid() && ulHarq[i].rnti == rnti && ulHarq[i].id == i && !ulHarq[i].downlink
            && ulHarq[i].UlIdle())
    }

    /** A new user on the carrier: nothing is queued, nothing was ever sent. */
    constructor (rnti_: nat, nofPrb_: nat, maxRetx_: nat, bearers: seq<bool>, channel_: Channel)
      ensures Valid() && rnti == rnti_ && nofPrb == nofPrb_ && maxRetx == maxRetx_
      ensures (forall h | h in dlHarq :: fresh(h)) && (forall h | h in ulHarq :: fresh(h))
      ensures forall i | 0 <= i < MAX_HARQ_PROC ::
                procs[i] == Fresh(maxRetx_) && masks[i] == 0 && ulHarq[i].UlState() == UlRuns.NewUl(maxRetx_)
      ensures lch == seq(|bearers|, i requires 0 <= i < |bearers| => Bearer(bearers[i], 0, 0))
      ensures dlNextAlloc == null && ulNextAlloc == null && channel == channel_.(ulPending := 0)
    {
      var dl, ul: seq<HarqProc> := [], [];
      for i := 0 to MAX_HARQ_PROC
        invariant |dl| == |ul| == i
        invariant forall k | 0 <= k < i :: NewProc(dl[k], rnti_, k, true, maxRetx_) && fresh(dl[k])
        invariant forall k | 0 <= k < i :: NewProc(ul[k], rnti_, k, false, maxRetx_) && fresh(ul[k])
      {
        var d := new HarqProc(rnti_, i, true, maxRetx_);
        var u := new HarqProc(rnti_, i, false, maxRetx_);
        dl, ul := dl + [d], ul + [u];
      }
      rnti, nofPrb, dlHarq, ulHarq, maxRetx := rnti_, nofPrb_, dl, ul, maxRetx_;
      lch := seq(|bearers|, i requires 0 <= i < |bearers| => Bearer(bearers[i], 0, 0));
      dlNextAlloc, ulNextAlloc, channel := null, null, channel_.(ulPending := 0);
      procs := seq(MAX_HARQ_PROC, _ => Fresh(maxRetx_));
      masks := seq(MAX_HARQ_PROC, _ => 0);
    }

    /** The upper layers report what waits on a bearer. */
    method DlBufferState(lcid: nat, txQueue: nat, retxQueue: nat)
      requires Valid()
      modifies this`lch
      ensures Valid() && |lch| == |old(lch)|
      ensures forall i | 0 <= i < |lch| ::
                lch[i] == if i == lcid then Bearer(old(lch)[i].isDl, retxQueue, txQueue) else old(lch)[i]
    {
      if lcid < |lch| {
        lch := lch[lcid := lch[lcid].(retx := retxQueue, tx := txQueue)];
      }
    }

    /** Channel quality and uplink demand change. */
    method SetChannel(channel_: Channel)
      modifies this`channel
      ensures channel == channel_
    {
      channel := channel_;
    }

    /** A process knows where it stands. */
    lemma HarqAt(h: HarqProc)
      requires Valid() && h in dlHarq
      ensures h.id < MAX_HARQ_PROC && dlHarq[h.id] == h
    {
      var i :| 0 <= i < |dlHarq| && dlHarq[i] == h;
    }

    // ---- Feedback and choice of processes

    /** Feedback received in `now` goes to the first process whose transmission it answers. */
    method SetAckInfo(now: nat, tb: nat, ack: bool) returns (ret: int)
      requires Valid() && tb < 2
      modifies this`procs, dlHarq`tb
      ensures Valid() && procs == DlProcs.SetAckInfo(old(procs), now, tb, ack)
      ensures match AckTargetFrom(old(procs), 0, now)
              case Some(k) => ret == procs[k].Tb(tb).lastTbs
              case None => ret == -1
    {
      for i := 0 to MAX_HARQ_PROC
        invariant Valid() && procs == old(procs)
        invariant AckTargetFrom(procs, 0, now) == AckTargetFrom(procs, i, now)
      {
        if TtiTx(dlHarq[i].tti) == now {
          dlHarq[i].SetAck(tb, ack);
          procs := procs[i := dlHarq[i].State()];
          return dlHarq[i].tb[tb].lastTbs;
        }
      }
      ret := -1;
    }

    /** Gives up processes that have been idle for too long. */
    method ResetTimeoutDlHarq(now: nat)
      requires Valid() && now < TTI_PERIOD
      modifies this`procs, dlHarq`tti, dlHarq`tb
      ensures Valid() && procs == Timeouts(old(procs), now)
    {
      for i := 0 to MAX_HARQ_PROC
        invariant Valid()
        invariant forall k | 0 <= k < MAX_HARQ_PROC ::
                    procs[k] == if k < i then Timeout(old(procs)[k], now) else old(procs)[k]
      {
        var h := dlHarq[i];
        if !(h.tb[0].IsEmpty() && h.tb[1].IsEmpty()) {
          if Interval(now, h.tti) > TIMEOUT_MS {
            h.Reset(0);
            h.Reset(1);
            procs := procs[i := h.State()];
          }
        }
      }
    }

    /** The process with the oldest pending retransmission. */
    method GetPendingDlHarq(now: nat) returns (h: HarqProc?)
      requires Valid() && now < TTI_PERIOD
      ensures match Pending(procs, now)
              case Some(k) => h == dlHarq[k]
              case None => h == null
    {
      h := null;
      var oldest := 0;
      for i := 0 to MAX_HARQ_PROC
        invariant match OldestBelow(procs, now, i).0
                  case Some(k) => h == dlHarq[k]
                  case None => h == null
        invariant oldest == OldestBelow(procs, now, i).1
      {
        if dlHarq[i].State().HasPendingRetx(now) {
          var x := Interval(now, dlHarq[i].tti);
          if x > oldest {
            h := dlHarq[i];
            oldest := x;
          }
        }
      }
    }

    /** The first process with no block in use. */
    method GetEmptyDlHarq() returns (h: HarqProc?)
      requires Valid()
      ensures match FirstEmptyFrom(procs, 0)
              case Some(k) => h == dlHarq[k]
              case None => h == null
    {
      h := null;
      var i := 0;
      while i < MAX_HARQ_PROC && h == null
        invariant 0 <= i <= MAX_HARQ_PROC
        invariant h == null ==> FirstEmptyFrom(procs, 0) == FirstEmptyFrom(procs, i)
        invariant h != null ==> i > 0 && FirstEmptyFrom(procs, 0) == Some(i - 1) && h == dlHarq[i - 1]
      {
        if dlHarq[i].State().BothEmpty() {
          h := dlHarq[i];
        }
        i := i + 1;
      }
    }

    method SetRbgMask(h: HarqProc, mask: nat)
      requires Valid() && h in dlHarq
      modifies this`masks, h`rbgMask
      ensures Valid() && h.id < MAX_HARQ_PROC && masks == old(masks)[h.id := mask]
    {
      HarqAt(h);
      h.SetRbgMask(mask);
      masks := masks[h.id := mask];
    }

    /** Uplink processes are tied to the TTI. */
    function GetUlHarq(now: nat): (h: HarqProc)
      requires |ulHarq| == MAX_HARQ_PROC
      ensures h in ulHarq
    {
      ulHarq[now % MAX_HARQ_PROC]
    }

    /** Whether what was received in `now` could be decoded. */
    method SetUlCrc(now: nat, crc: bool)
      requires Valid()
      modifies GetUlHarq(now)`tb
      ensures Valid() && GetUlHarq(now).UlState() == UlRuns.Checked(old(GetUlHarq(now).UlState()), [crc])
    {
      GetUlHarq(now).SetAck(0, crc);
    }

    // ---- Demand

    method PendingDlNewData() returns (bytes: int)
      requires Valid()
      ensures bytes == Backlog(lch, |lch|)
    {
      bytes := 0;
      for i := 0 to |lch|
        invariant bytes == Backlog(lch, i)
      {
        if lch[i].isDl {
          bytes := bytes + lch[i].retx + lch[i].tx;
        }
      }
    }

    method IsFirstDlTx() returns (r: bool)
      requires Valid()
      ensures r == FirstDlTx(procs)
    {
      for i := 0 to MAX_HARQ_PROC
        invariant forall k | 0 <= k < i :: procs[k].tb0.txCnt == 0
      {
        if dlHarq[i].tb[0].txCnt > 0 {
          return false;
        }
      }
      r := true;
    }

    method PendingDlNewDataTotal() returns (bytes: nat)
      requires Valid()
      ensures bytes == BytesWanted(Backlog(lch, |lch|), FirstDlTx(procs))
    {
      bytes := PendingDlNewData();
      if bytes > 0 {
        bytes := bytes + (if bytes < 128 then 2 else 3);
        var first := IsFirstDlTx();
        if first {
          bytes := bytes + 6;
        }
      }
    }

    method GetRequiredPrbDl(req: nat, nofCtrl: nat) returns (n: nat)
      ensures n == RequiredFrom(channel.approxTbs, nofCtrl, nofPrb, req, 0, 0)
    {
      var nbytes := 0;
      n := 0;
      while n < nofPrb && nbytes < req
        invariant n <= nofPrb && nbytes >= 0
        invariant RequiredFrom(channel.approxTbs, nofCtrl, nofPrb, req, 0, 0)
               == RequiredFrom(channel.approxTbs, nofCtrl, nofPrb, req, n, nbytes)
        decreases nofPrb - n
      {
        var tbs := channel.approxTbs(n + 1, nofCtrl);
        if tbs > 0 {
          nbytes := tbs;
        } else if tbs < 0 {
          return 0;
        }
        n := n + 1;
      }
    }

    // ---- Grants

    /** Takes bytes for one PDU from the first bearer that has any, retransmissions first. */
    method AllocPdu(room: int) returns (x: int, lcid: nat)
      modifies this`lch
      ensures (lcid, x, lch) == AllocFrom(old(lch), 0, room)
    {
      x := 0;
      lcid := 0;
      var i := 0;
      while i < |lch| && x == 0
        invariant 0 <= i <= |lch|
        invariant x == 0 ==> AllocFrom(old(lch), 0, room) == AllocFrom(lch, i, room)
        invariant x != 0 ==> i > 0 && AllocFrom(old(lch), 0, room) == (i - 1, x, lch)
      {
        assert lch[i := lch[i]] == lch;
        if lch[i].retx != 0 {
          x := Min(lch[i].retx, room);
          lch := lch[i := lch[i].(retx := lch[i].retx - x)];
        } else if lch[i].tx != 0 {
          x := Min(lch[i].tx, room);
          lch := lch[i := lch[i].(tx := lch[i].tx - x)];
        }
        i := i + 1;
      }
      if x != 0 {
        lcid := i - 1;
      }
    }

    /** Fills a block of `tbs` bytes from the queues. */
    method PackPdus(tbs: int) returns (pdus: seq<Pdu>)
      requires Valid()
      modifies this`lch
      ensures Valid() && pdus == Pack(old(lch), tbs).0 && lch == Pack(old(lch), tbs).1
    {
      PackKeepsNonNegative(lch, tbs);
      var left := tbs;
      pdus := [];
      var x := 1;
      while true
        invariant Pack(old(lch), tbs).0 == pdus + Pack(lch, left).0 && Pack(old(lch), tbs).1 == Pack(lch, left).1
        decreases if left > 0 then left else 0
      {
        var lcid;
        x, lcid := AllocPdu(left);
        left := left - x;
        if x != 0 {
          pdus := pdus + [Pdu(lcid, x)];
        }
        if !(left > 0 && x > 0) {
          break;
        }
      }
    }

    /** The grant for process `pid` on its groups, if the processes are `ps` and the bearers `lch_`. */
    ghost function LoadOn(ps: seq<Proc>, pid: nat, lch_: seq<Bearer>, nofCtrl: nat): Load
      requires pid < |ps| && pid < |masks| && NonNegative(lch_)
      reads this`masks, this`channel
    {
      LoadOf(ps, pid, lch_, channel.block, Rbg.CountTrue(MaskPrbs(masks[pid], nofPrb)), nofCtrl)
    }

    /** The MCS and size of a new block on the groups of process `pid`, for what is queued. */
    ghost function GrantFor(pid: nat, nofCtrl: nat): (int, int)
      requires Shape() && pid < MAX_HARQ_PROC
      reads this`lch, this`procs, this`masks, this`channel
    {
      channel.block(Rbg.CountTrue(MaskPrbs(masks[pid], nofPrb)), nofCtrl, Backlog(lch, |lch|))
    }

    method ChooseBlock(h: HarqProc, nofCtrl: nat) returns (mcs: int, tbs: int)
      requires Valid() && h in dlHarq
      ensures h.id < MAX_HARQ_PROC && (mcs, tbs) == GrantFor(h.id, nofCtrl)
    {
      HarqAt(h);
      var req := PendingDlNewData();
      var prbs := Format1CountPrb(h.rbgMask, nofPrb);
      var grant := channel.block(prbs, nofCtrl, req);
      mcs, tbs := grant.0, grant.1;
    }

    /** Fills in the grant of the process `h`: a new block if block 0 is free, else the same block again. */
    method GenerateFormat1(h: HarqProc, now: nat, nofCtrl: nat, ncce: nat)
      returns (mcs: int, tbs: int, pdus: seq<Pdu>)
      requires Valid() && h in dlHarq && now < TTI_PERIOD
      modifies this`lch, this`procs, h`tti, h`tb, h`nCce
      ensures Valid() && |lch| == |old(lch)| && h.id < MAX_HARQ_PROC
      ensures procs == old(procs)[h.id := DlRuns.Sent(old(procs)[h.id], now, mcs, tbs)]
      ensures Load(mcs, tbs, pdus, lch) == old(LoadOn(procs, h.id, lch, nofCtrl))
    {
      HarqAt(h);
      pdus := [];
      var first := IsFirstDlTx();
      if h.tb[0].IsEmpty() {
        mcs, tbs := ChooseBlock(h, nofCtrl);
        h.NewTxDl(0, now, mcs, tbs, ncce);
        procs := procs[h.id := h.State()];
        if first {
          pdus := [Pdu(CON_RES_ID, 0)];
        }
        var packed := PackPdus(tbs);
        pdus := pdus + packed;
      } else {
        mcs, tbs := h.NewRetx(0, now);
        procs := procs[h.id := h.State()];
      }
    }

    /** A process whose grant found no place on the control channel is given up. */
    method GiveUp(h: HarqProc)
      requires Valid() && h in dlHarq
      modifies this`procs, h`tti, h`tb
      ensures Valid() && h.id < MAX_HARQ_PROC && procs == old(procs)[h.id := old(procs)[h.id].ResetBoth()]
    {
      HarqAt(h);
      h.Reset(0);
      h.Reset(1);
      procs := procs[h.id := h.State()];
    }

    /** Fills in the uplink grant of the process `h`: a new block if there is a random access grant or the process is
        free, else the same block again. */
    method GenerateFormat0(h: HarqProc, now: nat) returns (mcs: int, tbs: int)
      requires h.Valid() && now < TTI_PERIOD
      modifies h`tti, h`tb, h`needAck, h`pendingData, h`hasRarMcs
      ensures h.Valid() && !h.hasRarMcs
      ensures h.UlState() ==
              if old(h.hasRarMcs) || old(h.State()).tb0.IsEmpty()
              then UlRuns.Ul(old(h.State()).NewTx(0, now, mcs, tbs), true, h.allocation)
              else UlRuns.Ul(old(h.State()).NewRetx(0, now), old(h.needAck), h.allocation)
      ensures if old(h.hasRarMcs) then mcs == h.rarMcs && tbs == channel.ulTbs(mcs, h.allocation.len)
              else if old(h.State()).tb0.IsEmpty()
              then (mcs, tbs) == channel.ulBlock(h.allocation.len, channel.ulPending)
              else mcs == old(h.State()).tb0.lastMcs && tbs == channel.ulTbs(mcs, h.allocation.len)
    {
      var rar, rarMcs := h.GetRarMcs();
      if rar {
        mcs, tbs := rarMcs, channel.ulTbs(rarMcs, h.allocation.len);
        h.NewTxUl(now, mcs, tbs);
      } else if h.tb[0].IsEmpty() {
        var grant := channel.ulBlock(h.allocation.len, channel.ulPending);
        mcs, tbs := grant.0, grant.1;
        h.NewTxUl(now, mcs, tbs);
      } else {
        mcs, tbs := h.NewRetx(0, now);
        tbs := channel.ulTbs(mcs, h.allocation.len);
      }
    }

    lemma UlHarqAt(h: HarqProc)
      requires Valid() && h in ulHarq
      ensures h.id < MAX_HARQ_PROC && ulHarq[h.id] == h
    {
      var i :| 0 <= i < |ulHarq| && ulHarq[i] == h;
    }
  }

  predicate Distinct(users: seq<SchedUe>) {
    forall i, j {:trigger Pick(i), Pick(j)} | 0 <= i < j < |users| :: users[i].rnti != users[j].rnti
  }

  /** The users are different ones, and `procs` holds all their processes of one direction. */
  predicate Apart(users: seq<SchedUe>, procs: set<HarqProc>, downlink: bool) {
    && Distinct(users)
    && forall i {:trigger Pick(i)} | 0 <= i < |users| ::
         forall h | h in (if downlink then users[i].dlHarq else users[i].ulHarq) :: h in procs
  }

  /** The users are different ones, and `procs` holds their uplink processes of TTI `now`. */
  predicate ApartIn(users: seq<SchedUe>, procs: set<HarqProc>, now: nat) {
    && Distinct(users)
    && forall i {:trigger Pick(i)} | 0 <= i < |users| ::
         forall h | h in users[i].ulHarq && h.id == now % MAX_HARQ_PROC :: h in procs
  }
}
