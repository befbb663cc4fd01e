/** The state of a HARQ process, and what each operation does to it. */
module Harq {
  import opened Tti

  /** One transport block of a process. */
  datatype Block = Block(active: bool, ack: bool, ackReceived: bool, ndi: bool,
                         nRtx: nat, txCnt: nat, lastMcs: int, lastTbs: int)
  {
    /** The block slot can take new data. */
    predicate IsEmpty() {
      !active || (ack && ackReceived)
    }

    function Reset(): Block {
      Block(false, true, false, ndi, 0, 0, -1, -1)
    }

    /** Feedback for the last transmission; at the retransmission limit the block is discarded. */
    function SetAck(value: bool, maxRetx: nat): Block {
      this.(ack := value, ackReceived := true, active := active && nRtx + 1 < maxRetx)
    }

    function NewTx(mcs: int, tbs: int, maxRetx: nat): Block {
      Block(maxRetx > 0, true, false, !ndi, 0, 1, mcs, tbs)
    }

    function NewRetx(): Block {
      this.(ackReceived := false, nRtx := nRtx + 1)
    }
  }

  /** The state that downlink and uplink processes have in common. */
  datatype Proc = Proc(maxRetx: nat, tti: nat, tb0: Block, tb1: Block) {

    predicate Valid() {
      tti < TTI_PERIOD
    }

    function Tb(i: nat): Block
      requires i < 2
    {
      if i == 0 then tb0 else tb1
    }

    function WithTb(i: nat, b: Block): Proc
      requires i < 2
    {
      if i == 0 then this.(tb0 := b) else this.(tb1 := b)
    }

    /** Neither transport block is in use. */
    predicate BothEmpty() {
      tb0.IsEmpty() && tb1.IsEmpty()
    }

    predicate RetxDue(i: nat)
      requires i < 2
    {
      !Tb(i).ack && Tb(i).nRtx < maxRetx
    }

    /** Some block was not acknowledged, may be sent again, and its last transmission is at least 8 ms old. */
    predicate HasPendingRetx(now: nat)
      requires Valid() && now < TTI_PERIOD
    {
      Interval(now, tti) >= 2 * HARQ_DELAY_MS && (RetxDue(0) || RetxDue(1))
    }

    function Reset(i: nat): Proc
      requires i < 2
    {
      WithTb(i, Tb(i).Reset()).(tti := 0)
    }

    function ResetBoth(): Proc {
      Reset(0).Reset(1)
    }

    function SetAck(i: nat, value: bool): Proc
      requires i < 2
    {
      WithTb(i, Tb(i).SetAck(value, maxRetx))
    }

    function NewTx(i: nat, now: nat, mcs: int, tbs: int): Proc
      requires i < 2
    {
      WithTb(i, Tb(i).NewTx(mcs, tbs, maxRetx)).(tti := now)
    }

    function NewRetx(i: nat, now: nat): Proc
      requires i < 2
    {
      WithTb(i, Tb(i).NewRetx()).(tti := now)
    }
  }

  /** A process before its first use. */
  function Fresh(maxRetx: nat): Proc {
    var b := Block(false, true, false, false, 0, 0, -1, -1);
    Proc(maxRetx, 0, b, b)
  }

  /** A contiguous uplink allocation. */
  datatype Alloc = Alloc(start: nat, len: nat)
}
