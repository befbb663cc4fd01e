/** The transmission time interval (TTI) counter of the cell: one tick per millisecond, modulo 10240. */
module Tti {
  const TTI_PERIOD: nat := 10240

  /** Milliseconds between a reception and the answer to it. */
  const HARQ_DELAY_MS: nat := 4

  /** The TTI in which the answer to something that happened in `tti` goes out. */
  function TtiTx(tti: nat): (r: nat)
    ensures r < TTI_PERIOD
  {
    (tti + HARQ_DELAY_MS) % TTI_PERIOD
  }

  /** How many TTIs `now` is ahead of `past`, on the wrapping counter. */
  function Interval(now: nat, past: nat): (r: nat)
    requires now < TTI_PERIOD && past < TTI_PERIOD
    ensures r < TTI_PERIOD
    ensures (past + r) % TTI_PERIOD == now
  {
    if now >= past then now - past else TTI_PERIOD - past + now
  }

  /** The tick after `tti`. */
  function Next(tti: nat): (r: nat)
    ensures r < TTI_PERIOD
  {
    (tti + 1) % TTI_PERIOD
  }

  lemma TtiTxInjective(a: nat, b: nat)
    requires a < TTI_PERIOD && b < TTI_PERIOD && TtiTx(a) == TtiTx(b)
    ensures a == b
  {
  }

  /** The `k`-th TTI after `start`. */
  function TtiAt(start: nat, k: nat): (t: nat)
    ensures t < TTI_PERIOD
  {
    (start + k) % TTI_PERIOD
  }

  lemma TtiAtNext(start: nat, k: nat)
    ensures TtiAt(start, k + 1) == Next(TtiAt(start, k))
  {
  }
}
