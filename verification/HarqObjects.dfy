/** HARQ process objects. Every method is tied to the operation on process states that it carries out. */
module HarqObjects {
  import opened Tti
  import opened Harq
  import UlRuns

  const MAX_PRB: nat := 100

  /** A HARQ process object, number `id` of the user `rnti` in one direction. Downlink processes use `rbgMask` and
      `nCce`, uplink processes the fields below them. */
  class HarqProc {
    const rnti: nat

    const id: nat

    const downlink: bool
    var maxRetx: nat
    var tti: nat
    var tb: seq<Block>

    var rbgMask: nat
    var nCce: nat

    var allocation: Alloc
    var needAck: bool
    var pendingData: int
    var rarMcs: nat
    var hasRarMcs: bool
    var isAdaptive: bool

    ghost predicate Valid()
      reads this`tti, this`tb
    {
      |tb| == 2 && tti < TTI_PERIOD
    }

    function State(): Proc
      requires Valid()
      reads this`maxRetx, this`tti, this`tb
    {
      Proc(maxRetx, tti, tb[0], tb[1])
    }

    constructor (rnti_: nat, id_: nat, downlink_: bool, maxRetx_: nat)
      ensures rnti == rnti_ && id == id_ && downlink == downlink_
      ensures Valid() && State() == Fresh(maxRetx_)
      ensures rbgMask == 0 && !needAck && pendingData == 0 && !hasRarMcs && !isAdaptive
      ensures allocation == Alloc(0, 0)
    {
      rnti, id, downlink := rnti_, id_, downlink_;
      maxRetx, tti := maxRetx_, 0;
      tb := [Block(false, true, false, false, 0, 0, -1, -1), Block(false, true, false, false, 0, 0, -1, -1)];
      rbgMask, nCce := 0, 0;
      allocation, needAck, pendingData := Alloc(0, 0), false, 0;
      rarMcs, hasRarMcs, isAdaptive := 0, false, false;
    }

    method Reset(i: nat)
      requires Valid() && i < 2
      modifies this`tti, this`tb
      ensures Valid() && State() == old(State()).Reset(i)
    {
      var b := tb[i];
      b := b.(active := false, ack := true, ackReceived := false, nRtx := 0);
      tti := 0;
      b := b.(lastMcs := -1, lastTbs := -1, txCnt := 0);
      tb := tb[i := b];
    }

    method SetAck(i: nat, value: bool)
      requires Valid() && i < 2
      modifies this`tb
      ensures Valid() && State() == old(State()).SetAck(i, value)
    {
      tb := tb[i := tb[i].(ack := value, ackReceived := true)];
      if tb[i].nRtx + 1 >= maxRetx {
        tb := tb[i := tb[i].(active := false)];
      }
    }

    method NewTxCommon(i: nat, now: nat, mcs: int, tbs: int)
      requires Valid() && i < 2 && now < TTI_PERIOD
      modifies this`tti, this`tb
      ensures Valid() && State() == old(State()).NewTx(i, now, mcs, tbs)
    {
      Reset(i);
      var b := tb[i];
      b := b.(ndi := !b.ndi);
      tti := now;
      b := b.(txCnt := b.txCnt + 1, lastMcs := mcs, lastTbs := tbs);
      if maxRetx > 0 {
        b := b.(active := true);
      } else {
        b := b.(active := false);
      }
      tb := tb[i := b];
    }

    method NewRetx(i: nat, now: nat) returns (mcs: int, tbs: int)
      requires Valid() && i < 2 && now < TTI_PERIOD
      modifies this`tti, this`tb
      ensures Valid() && State() == old(State()).NewRetx(i, now)
      ensures mcs == old(tb[i].lastMcs) && tbs == old(tb[i].lastTbs)
    {
      tb := tb[i := tb[i].(ackReceived := false)];
      tti := now;
      tb := tb[i := tb[i].(nRtx := tb[i].nRtx + 1)];
      mcs := tb[i].lastMcs;
      tbs := tb[i].lastTbs;
    }

    // ---- Downlink

    method NewTxDl(i: nat, now: nat, mcs: int, tbs: int, nCce_: nat)
      requires Valid() && i < 2 && now < TTI_PERIOD
      modifies this`tti, this`tb, this`nCce
      ensures Valid() && State() == old(State()).NewTx(i, now, mcs, tbs) && nCce == nCce_
    {
      nCce := nCce_;
      NewTxCommon(i, now, mcs, tbs);
    }

    method SetRbgMask(mask: nat)
      modifies this`rbgMask
      ensures rbgMask == mask
    {
      rbgMask := mask;
    }

    // ---- Uplink

    /** The process with what its user still has to be told and its RBs. */
    function UlState(): UlRuns.Ul
      requires Valid()
      reads this`maxRetx, this`tti, this`tb, this`needAck, this`allocation
    {
      UlRuns.Ul(State(), needAck, allocation)
    }

    /** Between two uplink TTIs: no random access grant is waiting, no retransmission is adaptive, and the RBs lie
        within the largest carrier. */
    predicate UlIdle()
      reads this`hasRarMcs, this`isAdaptive, this`allocation
    {
      !hasRarMcs && !isAdaptive && allocation.start + allocation.len <= MAX_PRB
    }

    method NewTxUl(now: nat, mcs: int, tbs: int)
      requires Valid() && now < TTI_PERIOD
      modifies this`tti, this`tb, this`needAck, this`pendingData
      ensures Valid() && UlState() == UlRuns.Ul(old(State()).NewTx(0, now, mcs, tbs), true, allocation)
      ensures pendingData == tbs
    {
      needAck := true;
      NewTxCommon(0, now, mcs, tbs);
      pendingData := tbs;
    }

    method HasPendingAck() returns (ret: bool)
      requires Valid()
      modifies this`tb, this`needAck
      ensures Valid() && ret == old(needAck) && UlState() == UlRuns.Reported(old(UlState()))
    {
      ret := needAck;
      if tb[0].active && tb[0].ack {
        tb := tb[0 := tb[0].(active := false)];
      }
      if !tb[0].active {
        needAck := false;
      }
    }

    method ResetPendingData()
      requires Valid()
      modifies this`pendingData
      ensures pendingData == if tb[0].active then old(pendingData) else 0
    {
      if !tb[0].active {
        pendingData := 0;
      }
    }

    method SetAlloc(alloc: Alloc)
      modifies this`allocation, this`isAdaptive
      ensures allocation == alloc && !isAdaptive
    {
      isAdaptive := false;
      allocation := alloc;
    }

    method SetMaxRetx(n: nat)
      requires Valid()
      modifies this`maxRetx
      ensures Valid() && State() == old(State()).(maxRetx := n)
    {
      maxRetx := n;
    }

    method SetRarMcs(mcs: nat)
      modifies this`rarMcs, this`hasRarMcs
      ensures rarMcs == mcs && hasRarMcs
    {
      rarMcs, hasRarMcs := mcs, true;
    }

    /** The MCS of a random access grant can be read once. */
    method GetRarMcs() returns (had: bool, mcs: nat)
      modifies this`hasRarMcs
      ensures had == old(hasRarMcs) && !hasRarMcs && (had ==> mcs == rarMcs)
    {
      had, mcs := false, 0;
      if hasRarMcs {
        mcs := rarMcs;
        hasRarMcs := false;
        had := true;
      }
    }
  }
}
