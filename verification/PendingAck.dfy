/** The rings of expected HARQ feedback that the PHY workers share: per user, in which TTI feedback has to arrive, for
    which transport block, and the CCE position of the grant it answers. Slots are reused modulo the ring size. */
module PendingAck {
  import opened Tti
  import opened Modular

  const MAX_TB: nat := 2

  /** One slot: for which transport blocks feedback is expected, and the CCE of the grant. */
  datatype Cell = Cell(tb0: bool, tb1: bool, nPdcch: nat)
  {
    predicate Pending(tb: nat) {
      (tb == 0 && tb0) || (tb == 1 && tb1)
    }

    function With(tb: nat, value: bool): Cell {
      if tb == 0 then this.(tb0 := value) else this.(tb1 := value)
    }
  }

  /** The ring of one user. */
  type Ring = seq<Cell>

  /** A downlink grant: the user, which transport blocks it enables, and where its DCI is. */
  datatype Grant = Grant(rnti: nat, tb0: bool, tb1: bool, ncce: nat)
  {
    predicate Enables(tb: nat) {
      (tb == 0 && tb0) || (tb == 1 && tb1)
    }
  }

  /** A question of a worker: is feedback of this user for this block due now? */
  datatype Ask = Ask(rnti: nat, tb: nat)

  datatype Answer = Answer(expected: bool, ncce: nat)

  /** What one worker does: the questions it asks, and the grants it has sent. */
  datatype Subframe = Subframe(asks: seq<Ask>, grants: seq<Grant>)

  // ---- What the operations do to the ring of user `rnti`

  function Clear(ring: Ring, k: nat): (r: Ring)
    requires k < |ring|
    ensures |r| == |ring|
  {
    ring[k := Cell(false, false, ring[k].nPdcch)]
  }

  /** The expectations that one grant creates. */
  function SetGrant(ring: Ring, k: nat, rnti: nat, g: Grant): (r: Ring)
    requires k < |ring|
    ensures |r| == |ring|
  {
    if g.rnti != rnti then ring
    else
      var r0 := if g.tb0 then ring[k := ring[k].With(0, true).(nPdcch := g.ncce)] else ring;
      if g.tb1 then r0[k := r0[k].With(1, true).(nPdcch := g.ncce)] else r0
  }

  function SetAll(ring: Ring, k: nat, rnti: nat, grants: seq<Grant>): (r: Ring)
    requires k < |ring|
    ensures |r| == |ring|
  {
    if |grants| == 0 then ring
    else SetGrant(SetAll(ring, k, rnti, grants[..|grants| - 1]), k, rnti, grants[|grants| - 1])
  }

  /** A question withdraws the expectation it is about. */
  function TakeOne(ring: Ring, k: nat, rnti: nat, a: Ask): (r: Ring)
    requires k < |ring|
    ensures |r| == |ring|
  {
    if a.rnti == rnti then ring[k := ring[k].With(a.tb, false)] else ring
  }

  function TakeAll(ring: Ring, k: nat, rnti: nat, asks: seq<Ask>): (r: Ring)
    requires k < |ring|
    ensures |r| == |ring|
  {
    if |asks| == 0 then ring
    else TakeOne(TakeAll(ring, k, rnti, asks[..|asks| - 1]), k, rnti, asks[|asks| - 1])
  }

  /** The answer to a question about a slot. */
  function AnswerOf(c: Cell, tb: nat): Answer {
    Answer(c.Pending(tb), if c.Pending(tb) then c.nPdcch else 0)
  }

  /** The answer to question `i` of a subframe, given the ring of the user it is about. */
  function AnswerTo(ring: Ring, k: nat, asks: seq<Ask>, i: nat): Answer
    requires k < |ring| && i < |asks|
  {
    AnswerOf(TakeAll(ring, k, asks[i].rnti, asks[..i])[k], asks[i].tb)
  }

  /** One subframe: the questions about slot `now`, then the grants of slot `due`. */
  function Work(ring: Ring, rnti: nat, now: nat, due: nat, sf: Subframe): (r: Ring)
    requires now < |ring| && due < |ring|
    ensures |r| == |ring|
  {
    SetAll(Clear(TakeAll(ring, now, rnti, sf.asks), due), due, rnti, sf.grants)
  }

  /** A numbering of the slots by TTIs of an unbounded clock, in which nine consecutive TTIs have nine slots. */
  ghost predicate Spaced(slot: nat -> nat, slots: nat) {
    && (forall t: nat :: slot(t) < slots)
    && (forall a: nat, b: nat | a < b <= a + 2 * HARQ_DELAY_MS :: slot(a) != slot(b))
  }

  /** The numbering in use: the TTI modulo the size of the ring. */
  function Modulo(slots: nat): nat -> nat
    requires slots > 0
  {
    (t: nat) => t % slots
  }

  /** The ring of user `rnti` after the subframes start, start+1, ... of a run. */
  ghost function Run(ring: Ring, rnti: nat, slot: nat -> nat, start: nat, sfs: seq<Subframe>): (r: Ring)
    requires Spaced(slot, |ring|)
    ensures |r| == |ring|
  {
    if |sfs| == 0 then ring
    else
      var k := |sfs| - 1;
      var t := start + k;
      Work(Run(ring, rnti, slot, start, sfs[..k]), rnti, slot(t), slot(t + 2 * HARQ_DELAY_MS), sfs[k])
  }

  // ---- The account by unbounded time

  /** Some grant of the list is for user `rnti` and enables block `tb`. */
  predicate GrantsTo(grants: seq<Grant>, rnti: nat, tb: nat) {
    |grants| > 0
    && var g := grants[|grants| - 1];
       ((g.rnti == rnti && g.Enables(tb)) || GrantsTo(grants[..|grants| - 1], rnti, tb))
  }

  /** The CCE of the last grant of the list for user `rnti` that enables anything. */
  function LastCce(grants: seq<Grant>, rnti: nat): nat {
    if |grants| == 0 then 0
    else
      var g := grants[|grants| - 1];
      if g.rnti == rnti && (g.tb0 || g.tb1) then g.ncce else LastCce(grants[..|grants| - 1], rnti)
  }

  /** What the feedback to `grants` asks of user `rnti`. */
  function Due(grants: seq<Grant>, rnti: nat): Cell {
    Cell(GrantsTo(grants, rnti, 0), GrantsTo(grants, rnti, 1), LastCce(grants, rnti))
  }

  /** A slot asks exactly for what is due; its CCE means nothing when nothing is due. */
  predicate Agrees(c: Cell, due: Cell) {
    c.tb0 == due.tb0 && c.tb1 == due.tb1 && (c.tb0 || c.tb1 ==> c.nPdcch == due.nPdcch)
  }

  /** The grants that are answered in subframe `k` of a run. */
  function AnsweredIn(sfs: seq<Subframe>, k: nat): seq<Grant>
    requires k < |sfs| + 2 * HARQ_DELAY_MS
  {
    if k < 2 * HARQ_DELAY_MS then [] else sfs[k - 2 * HARQ_DELAY_MS].grants
  }

  predicate Idle(ring: Ring) {
    forall k | 0 <= k < |ring| :: !ring[k].tb0 && !ring[k].tb1
  }

  // ---- The ring keeps the account

  lemma {:induction false} TakeAllElsewhere(ring: Ring, k: nat, rnti: nat, asks: seq<Ask>, m: nat)
    requires k < |ring| && m < |ring| && m != k
    ensures TakeAll(ring, k, rnti, asks)[m] == ring[m]
  {
    if |asks| > 0 { TakeAllElsewhere(ring, k, rnti, asks[..|asks| - 1], m); }
  }

  lemma {:induction false} SetAllElsewhere(ring: Ring, k: nat, rnti: nat, grants: seq<Grant>, m: nat)
    requires k < |ring| && m < |ring| && m != k
    ensures SetAll(ring, k, rnti, grants)[m] == ring[m]
  {
    if |grants| > 0 { SetAllElsewhere(ring, k, rnti, grants[..|grants| - 1], m); }
  }

  lemma {:induction false} SetAllAgrees(ring: Ring, k: nat, rnti: nat, grants: seq<Grant>)
    requires k < |ring| && !ring[k].tb0 && !ring[k].tb1
    ensures Agrees(SetAll(ring, k, rnti, grants)[k], Due(grants, rnti))
  {
    if |grants| > 0 { SetAllAgrees(ring, k, rnti, grants[..|grants| - 1]); }
  }

  /** A subframe records exactly the feedback to its own grants, and leaves all slots but two alone. */
  lemma WorkEffect(ring: Ring, rnti: nat, now: nat, due: nat, sf: Subframe, m: nat)
    requires now < |ring| && due < |ring| && m < |ring|
    ensures m != now && m != due ==> Work(ring, rnti, now, due, sf)[m] == ring[m]
    ensures m == due ==> Agrees(Work(ring, rnti, now, due, sf)[m], Due(sf.grants, rnti))
  {
    var taken := TakeAll(ring, now, rnti, sf.asks);
    if m == due {
      SetAllAgrees(Clear(taken, due), due, rnti, sf.grants);
    } else if m != now {
      TakeAllElsewhere(ring, now, rnti, sf.asks, m);
      SetAllElsewhere(Clear(taken, due), due, rnti, sf.grants, m);
    }
  }

  lemma SlotsApart(slot: nat -> nat, slots: nat, t: nat, d: nat)
    requires Spaced(slot, slots) && d < 2 * HARQ_DELAY_MS
    ensures slot(t + 1 + d) != slot(t)
    ensures slot(t + 1 + d) == slot(t + 8) <==> d == 7
  {
    var a, b := t + 1 + d, t + 8;
    if d < 7 { assert slot(a) != slot(b); }
  }

  lemma AnsweredBefore(sfs: seq<Subframe>, k: nat)
    requires |sfs| > 0 && k < |sfs| - 1 + 2 * HARQ_DELAY_MS
    ensures AnsweredIn(sfs[..|sfs| - 1], k) == AnsweredIn(sfs, k)
  {
  }

  /** Before any subframe, the slots of it and of the seven after it ask for exactly the feedback due in them: nothing
      is lost, left over or overwritten early, however often the ring wraps. */
  lemma {:induction false} RingIsExact(ring: Ring, rnti: nat, slot: nat -> nat, start: nat, sfs: seq<Subframe>, d: nat)
    requires Spaced(slot, |ring|) && Idle(ring) && d < 2 * HARQ_DELAY_MS
    ensures Agrees(Run(ring, rnti, slot, start, sfs)[slot(start + |sfs| + d)], Due(AnsweredIn(sfs, |sfs| + d), rnti))
  {
    if |sfs| > 0 {
      var n := |sfs| - 1;
      var t := start + n;
      SlotsApart(slot, |ring|, t, d);
      WorkEffect(Run(ring, rnti, slot, start, sfs[..n]), rnti, slot(t), slot(t + 8), sfs[n], slot(t + 1 + d));
      if d < 7 {
        RingIsExact(ring, rnti, slot, start, sfs[..n], d + 1);
        AnsweredBefore(sfs, n + 1 + d);
      }
    }
  }

  /** Questions take nothing but what they ask for. */
  lemma {:induction false} TakenSoFar(ring: Ring, k: nat, asks: seq<Ask>, a: Ask)
    requires k < |ring| && a.tb < MAX_TB && forall i | 0 <= i < |asks| :: asks[i].tb < MAX_TB
    ensures TakeAll(ring, k, a.rnti, asks)[k].Pending(a.tb) <==> ring[k].Pending(a.tb) && a !in asks
    ensures TakeAll(ring, k, a.rnti, asks)[k].nPdcch == ring[k].nPdcch
  {
    if |asks| > 0 {
      var n := |asks| - 1;
      TakenSoFar(ring, k, asks[..n], a);
      assert a in asks <==> a in asks[..n] || a == asks[n];
    }
  }

  /** In any run, the answer to a worker that asks for the feedback due in its subframe is yes exactly once, and
      exactly if a grant of the subframe eight before (transmitted four before) enabled that block for that user; the
      CCE it gets is that grant's. */
  lemma FeedbackAskedForOnce(ring: Ring, slot: nat -> nat, start: nat, sfs: seq<Subframe>, k: nat, i: nat)
    requires Spaced(slot, |ring|) && Idle(ring)
    requires k < |sfs| && i < |sfs[k].asks| && forall j | 0 <= j < |sfs[k].asks| :: sfs[k].asks[j].tb < MAX_TB
    ensures var ask := sfs[k].asks[i];
            var grants := AnsweredIn(sfs, k);
            var answer := AnswerTo(Run(ring, ask.rnti, slot, start, sfs[..k]), slot(start + k), sfs[k].asks, i);
            && (answer.expected <==> GrantsTo(grants, ask.rnti, ask.tb) && ask !in sfs[k].asks[..i])
            && (answer.expected ==> answer.ncce == LastCce(grants, ask.rnti))
  {
    var ask := sfs[k].asks[i];
    TakenSoFar(Run(ring, ask.rnti, slot, start, sfs[..k]), slot(start + k), sfs[k].asks[..i], ask);
    RingIsExact(ring, ask.rnti, slot, start, sfs[..k], 0);
    assert AnsweredIn(sfs[..k], k) == AnsweredIn(sfs, k);
  }

  /** A ring of more than eight slots numbered modulo its size is spaced as needed. */
  lemma ModuloIsSpaced(slots: nat)
    requires slots > 2 * HARQ_DELAY_MS
    ensures Spaced(Modulo(slots), slots)
  {
    forall a: nat, b: nat | a < b <= a + 2 * HARQ_DELAY_MS ensures Modulo(slots)(a) != Modulo(slots)(b) {
      if a % slots == b % slots { CloseDiffer(a, b, slots); }
    }
  }

  /** Computed from the wrapping TTI counter, the slots are still those of the unbounded clock, if the ring size
      divides the counter's period. */
  lemma SlotsOfCounter(t: nat, slots: nat, m: nat)
    requires slots > 0 && m * slots == TTI_PERIOD
    ensures (t % TTI_PERIOD) % slots == Modulo(slots)(t)
    ensures TtiTx(TtiTx(t % TTI_PERIOD) % slots) % slots == Modulo(slots)(t + 2 * HARQ_DELAY_MS)
  {
    assert m > 0;
    var tti := t % TTI_PERIOD;
    ModMod(t, slots, m);
    ModMod(tti + 4, slots, m);
    AddReduced(t % TTI_PERIOD, 4, slots);
    AddReduced(t, 4, slots);
    var tx := TtiTx(tti) % slots;
    assert tx == (t + 4) % slots;
    ModMod(tx + 4, slots, m);
    AddReduced(t + 4, 4, slots);
  }

  // ---- The shared object

  /** The part of the object shared by the PHY workers that keeps the rings. */
  class PhchCommon {
    const slots: nat

    const crntiStart: nat

    const crntiEnd: nat
    var db: map<nat, Ring>

    ghost predicate Valid()
      reads this
    {
      slots > 0 && forall r | r in db :: |db[r]| == slots
    }

    predicate IsCrnti(rnti: nat) {
      crntiStart <= rnti <= crntiEnd
    }

    constructor (slots_: nat, crntiStart_: nat, crntiEnd_: nat)
      requires slots_ > 0
      ensures Valid() && slots == slots_ && crntiStart == crntiStart_ && crntiEnd == crntiEnd_ && db == map[]
    {
      slots, crntiStart, crntiEnd, db := slots_, crntiStart_, crntiEnd_, map[];
    }

    /** A new user expects nothing. */
    method AddRnti(rnti: nat)
      requires Valid()
      modifies this
      ensures Valid() && rnti in db && Idle(db[rnti]) && |db[rnti]| == slots
      ensures db.Keys == old(db).Keys + {rnti} && forall r | r in old(db) && r != rnti :: db[r] == old(db)[r]
    {
      db := db[rnti := seq(slots, _ => Cell(false, false, 0))];
    }

    method UeDbClear(k: nat)
      requires Valid() && k < slots
      modifies this
      ensures Valid() && db.Keys == old(db).Keys && forall r | r in db :: db[r] == Clear(old(db)[r], k)
    {
      var todo := db.Keys;
      while todo != {}
        invariant todo <= db.Keys == old(db).Keys
        invariant forall r | r in db :: db[r] == if r in todo then old(db)[r] else Clear(old(db)[r], k)
        decreases |todo|
      {
        var r :| r in todo;
        var ring := db[r];
        for tb := 0 to MAX_TB
          invariant |ring| == slots
          invariant ring == if tb == 0 then db[r] else if tb == 1 then db[r][k := db[r][k].With(0, false)]
                            else Clear(db[r], k)
        {
          ring := ring[k := ring[k].With(tb, false)];
        }
        db := db[r := ring];
        todo := todo - {r};
      }
    }

    method SetAckPending(k: nat, rnti: nat, tb: nat, nPdcch: nat)
      requires Valid() && k < slots && tb < MAX_TB
      modifies this
      ensures Valid() && db.Keys == old(db).Keys
      ensures forall r | r in db :: db[r] == if r != rnti then old(db)[r]
                                             else old(db)[r][k := old(db)[r][k].With(tb, true).(nPdcch := nPdcch)]
    {
      if rnti in db {
        var c := db[rnti][k].With(tb, true);
        db := db[rnti := db[rnti][k := c.(nPdcch := nPdcch)]];
      }
    }

    /** An unknown user is never asked for anything. */
    method IsAckPending(k: nat, rnti: nat, tb: nat) returns (ret: bool, nPdcch: nat)
      requires Valid() && k < slots && tb < MAX_TB
      modifies this
      ensures Valid() && db.Keys == old(db).Keys
      ensures forall r | r in db :: db[r] == TakeOne(old(db)[r], k, r, Ask(rnti, tb))
      ensures Answer(ret, nPdcch) == if rnti in old(db) then AnswerOf(old(db)[rnti][k], tb) else Answer(false, 0)
    {
      ret, nPdcch := false, 0;
      if rnti in db {
        ret := db[rnti][k].Pending(tb);
        db := db[rnti := db[rnti][k := db[rnti][k].With(tb, false)]];
        if ret {
          nPdcch := db[rnti][k].nPdcch;
        }
      }
    }

    /** The enabled blocks of one grant become expected. */
    method ExpectGrant(k: nat, g: Grant)
      requires Valid() && k < slots
      modifies this
      ensures Valid() && db.Keys == old(db).Keys
      ensures forall r | r in db :: db[r] == SetGrant(old(db)[r], k, r, g)
    {
      for tb := 0 to MAX_TB
        invariant Valid() && db.Keys == old(db).Keys
        invariant forall r | r in db ::
                    db[r] == SetGrant(old(db)[r], k, r, Grant(g.rnti, tb > 0 && g.tb0, tb > 1 && g.tb1, g.ncce))
      {
        if g.Enables(tb) {
          SetAckPending(k, g.rnti, tb, g.ncce);
        }
      }
    }

    method AskAll(k: nat, asks: seq<Ask>) returns (answers: seq<Answer>)
      requires Valid() && k < slots && forall i | 0 <= i < |asks| :: asks[i].tb < MAX_TB
      modifies this
      ensures Valid() && db.Keys == old(db).Keys && |answers| == |asks|
      ensures forall r | r in db :: db[r] == TakeAll(old(db)[r], k, r, asks)
      ensures forall i | 0 <= i < |answers| ::
                answers[i] == if asks[i].rnti in db then AnswerTo(old(db)[asks[i].rnti], k, asks, i)
                              else Answer(false, 0)
    {
      answers := [];
      for i := 0 to |asks|
        invariant Valid() && db.Keys == old(db).Keys && |answers| == i
        invariant forall r | r in db :: db[r] == TakeAll(old(db)[r], k, r, asks[..i])
        invariant forall j | 0 <= j < i ::
                    answers[j] == if asks[j].rnti in db then AnswerTo(old(db)[asks[j].rnti], k, asks, j)
                                  else Answer(false, 0)
      {
        assert asks[..i + 1][..i] == asks[..i];
        var ret, n := IsAckPending(k, asks[i].rnti, asks[i].tb);
        answers := answers + [Answer(ret, n)];
      }
      assert asks[..|asks|] == asks;
    }

    /** Only users, not system information or random access responses, send feedback. */
    method ExpectAll(k: nat, grants: seq<Grant>)
      requires Valid() && k < slots
      modifies this
      ensures Valid() && db.Keys == old(db).Keys
      ensures forall r | r in db :: db[r] == if IsCrnti(r) then SetAll(old(db)[r], k, r, grants) else old(db)[r]
    {
      for i := 0 to |grants|
        invariant Valid() && db.Keys == old(db).Keys
        invariant forall r | r in db ::
                    db[r] == if IsCrnti(r) then SetAll(old(db)[r], k, r, grants[..i]) else old(db)[r]
      {
        assert grants[..i + 1][..i] == grants[..i];
        if IsCrnti(grants[i].rnti) {
          ExpectGrant(k, grants[i]);
        }
      }
      assert grants[..|grants|] == grants;
    }

    /** The ring's part of the work of one subframe, in the order of the worker: questions, room, expectations. The
        slots are computed from the wrapping counter as the worker does. */
    method WorkSubframe(tti: nat, sf: Subframe) returns (answers: seq<Answer>)
      requires Valid() && tti < TTI_PERIOD && forall i | 0 <= i < |sf.asks| :: sf.asks[i].tb < MAX_TB
      modifies this
      ensures Valid() && db.Keys == old(db).Keys && |answers| == |sf.asks|
      ensures forall i | 0 <= i < |answers| ::
                answers[i] == if sf.asks[i].rnti in db
                              then AnswerTo(old(db)[sf.asks[i].rnti], tti % slots, sf.asks, i) else Answer(false, 0)
      ensures forall r | r in db ::
                db[r] == Work(old(db)[r], r, tti % slots, TtiTx(TtiTx(tti) % slots) % slots,
                              if IsCrnti(r) then sf else sf.(grants := []))
    {
      var tTxDl, tRx := TtiTx(tti) % slots, tti % slots;
      answers := AskAll(tRx, sf.asks);
      var due := TtiTx(tTxDl) % slots;
      UeDbClear(due);
      ExpectAll(due, sf.grants);
    }
  }
}
