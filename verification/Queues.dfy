/** How a downlink transport block is filled from the bearer queues of a user. */
module Queues {
  /** One bearer: bytes waiting for retransmission and bytes waiting for their first transmission. */
  datatype Bearer = Bearer(isDl: bool, retx: int, tx: int)

  datatype Pdu = Pdu(lcid: nat, nbytes: int)

  predicate NonNegative(qs: seq<Bearer>) {
    forall i | 0 <= i < |qs| :: qs[i].retx >= 0 && qs[i].tx >= 0
  }

  function Min(a: int, b: int): int { if a < b then a else b }

  /** What one bearer gives to a block with room for `room` bytes. */
  function Give(b: Bearer, room: int): (int, Bearer) {
    if b.retx != 0 then
      var x := Min(b.retx, room); (x, b.(retx := b.retx - x))
    else if b.tx != 0 then
      var x := Min(b.tx, room); (x, b.(tx := b.tx - x))
    else (0, b)
  }

  /** The first bearer from `i` on that gives something: its number, the bytes, and the bearers afterwards. */
  function AllocFrom(qs: seq<Bearer>, i: nat, room: int): (r: (nat, int, seq<Bearer>))
    requires i <= |qs|
    ensures |r.2| == |qs| && (r.1 != 0 ==> r.0 < |qs|)
    decreases |qs| - i
  {
    if i == |qs| then (0, 0, qs)
    else
      var (x, b) := Give(qs[i], room);
      if x != 0 then (i, x, qs[i := b]) else AllocFrom(qs[i := b], i + 1, room)
  }

  /** The packing loop: the PDUs, the bearers afterwards and the room left. */
  function Pack(qs: seq<Bearer>, room: int): (r: (seq<Pdu>, seq<Bearer>, int))
    ensures |r.1| == |qs|
    decreases if room > 0 then room else 0
  {
    var (lcid, x, qs') := AllocFrom(qs, 0, room);
    var first := if x != 0 then [Pdu(lcid, x)] else [];
    if room - x > 0 && x > 0 then
      var (pdus, qs'', left) := Pack(qs', room - x);
      (first + pdus, qs'', left)
    else (first, qs', room - x)
  }

  /** No PDU is empty. */
  lemma {:induction false} PackedPdus(qs: seq<Bearer>, room: int)
    ensures forall k | 0 <= k < |Pack(qs, room).0| :: Pack(qs, room).0[k].nbytes != 0
    decreases if room > 0 then room else 0
  {
    var r := AllocFrom(qs, 0, room);
    if room - r.1 > 0 && r.1 > 0 { PackedPdus(r.2, room - r.1); }
  }

  lemma {:induction false} AllocKeepsNonNegative(qs: seq<Bearer>, i: nat, room: int)
    requires NonNegative(qs) && i <= |qs|
    ensures NonNegative(AllocFrom(qs, i, room).2)
    decreases |qs| - i
  {
    if i < |qs| {
      var (x, b) := Give(qs[i], room);
      if x == 0 { AllocKeepsNonNegative(qs[i := b], i + 1, room); }
    }
  }

  /** No queue gets negative, whatever the block size. */
  lemma {:induction false} PackKeepsNonNegative(qs: seq<Bearer>, room: int)
    requires NonNegative(qs)
    ensures NonNegative(Pack(qs, room).1)
    decreases if room > 0 then room else 0
  {
    AllocKeepsNonNegative(qs, 0, room);
    var (lcid, x, qs') := AllocFrom(qs, 0, room);
    if room - x > 0 && x > 0 { PackKeepsNonNegative(qs', room - x); }
  }

  // ---- An independent account: the queues in service order, and how many bytes each of them gives.

  /** All queues in the order of service: by bearer, retransmissions first. */
  function Flat(qs: seq<Bearer>): (f: seq<int>)
    ensures |f| == 2 * |qs|
    ensures forall i | 0 <= i < |qs| :: f[2 * i] == qs[i].retx && f[2 * i + 1] == qs[i].tx
  {
    if |qs| == 0 then [] else Flat(qs[..|qs| - 1]) + [qs[|qs| - 1].retx, qs[|qs| - 1].tx]
  }

  /** The bytes each queue gives when `room` bytes are drained from the front. */
  function Taken(f: seq<int>, room: int): (t: seq<int>)
    ensures |t| == |f|
  {
    if |f| == 0 then [] else [Min(f[0], room)] + Taken(f[1..], room - Min(f[0], room))
  }

  function Total(f: seq<int>): int {
    if |f| == 0 then 0 else f[0] + Total(f[1..])
  }

  /** One PDU for every queue that gives something, in order. Queue k belongs to bearer k/2. */
  function PdusOf(t: seq<int>, k: nat): seq<Pdu> {
    if |t| == 0 then []
    else (if t[0] != 0 then [Pdu(k / 2, t[0])] else []) + PdusOf(t[1..], k + 1)
  }

  function PduBytes(pdus: seq<Pdu>): int {
    if |pdus| == 0 then 0 else pdus[0].nbytes + PduBytes(pdus[1..])
  }

  /** `k` is the first queue that holds something, or the number of queues. */
  predicate FirstNonEmpty(f: seq<int>, k: nat) {
    k <= |f| && (forall j | 0 <= j < k :: f[j] == 0) && (k < |f| ==> f[k] != 0)
  }

  lemma {:induction false} FlatUpdate(qs: seq<Bearer>, i: nat, b: Bearer)
    requires i < |qs|
    ensures Flat(qs[i := b]) == Flat(qs)[2 * i := b.retx][2 * i + 1 := b.tx]
  {
    var n := |qs| - 1;
    if i < n {
      FlatUpdate(qs[..n], i, b);
      assert qs[i := b][..n] == qs[..n][i := b];
    } else {
      assert qs[i := b][..n] == qs[..n];
    }
  }

  /** What a bearer gives leaves its first queue that holds something. */
  lemma GiveFlat(qs: seq<Bearer>, i: nat, room: int, k: nat)
    requires i < |qs| && (qs[i].retx != 0 || qs[i].tx != 0)
    requires k == if qs[i].retx != 0 then 2 * i else 2 * i + 1
    ensures var (x, b) := Give(qs[i], room);
            x == Min(Flat(qs)[k], room) && Flat(qs[i := b]) == Flat(qs)[k := Flat(qs)[k] - x]
  {
    var (x, b) := Give(qs[i], room);
    FlatUpdate(qs, i, b);
    assert Flat(qs)[2 * i] == qs[i].retx && Flat(qs)[2 * i + 1] == qs[i].tx;
    assert Flat(qs[i := b]) == Flat(qs)[k := Flat(qs)[k] - x];
  }

  /** The first `i` bearers hold nothing. */
  predicate Dry(qs: seq<Bearer>, i: nat)
    requires i <= |qs|
  {
    forall j | 0 <= j < i :: qs[j].retx == 0 && qs[j].tx == 0
  }

  lemma DryQueues(qs: seq<Bearer>, i: nat, k: nat)
    requires i <= |qs| && Dry(qs, i) && k < 2 * i
    ensures Flat(qs)[k] == 0
  {
    var j := k / 2;
    assert Flat(qs)[2 * j] == qs[j].retx && Flat(qs)[2 * j + 1] == qs[j].tx;
  }

  /** The first queue that holds something, if the bearers before `i` do not and bearer `i` does. */
  lemma FirstAt(qs: seq<Bearer>, i: nat, k: nat)
    requires i <= |qs| && Dry(qs, i)
    requires if i == |qs| then k == 2 * i
             else (qs[i].retx != 0 || qs[i].tx != 0) && k == if qs[i].retx != 0 then 2 * i else 2 * i + 1
    ensures FirstNonEmpty(Flat(qs), k)
  {
    if i < |qs| { assert Flat(qs)[2 * i] == qs[i].retx && Flat(qs)[2 * i + 1] == qs[i].tx; }
    forall j | 0 <= j < k ensures Flat(qs)[j] == 0 {
      if j < 2 * i { DryQueues(qs, i, j); }
    }
  }

  lemma {:induction false} AllocSkipsDry(qs: seq<Bearer>, i: nat, m: nat, room: int)
    requires i <= m <= |qs| && Dry(qs, m)
    ensures AllocFrom(qs, i, room) == AllocFrom(qs, m, room)
    decreases m - i
  {
    if i < m {
      assert qs[i := qs[i]] == qs;
      AllocSkipsDry(qs, i + 1, m, room);
    }
  }

  /** The first bearer from `i` on that holds something, or the number of bearers. */
  function FirstWet(qs: seq<Bearer>, i: nat): (m: nat)
    requires i <= |qs|
    ensures i <= m <= |qs| && (m < |qs| ==> qs[m].retx != 0 || qs[m].tx != 0)
    ensures forall j | i <= j < m :: qs[j].retx == 0 && qs[j].tx == 0
    decreases |qs| - i
  {
    if i == |qs| || qs[i].retx != 0 || qs[i].tx != 0 then i else FirstWet(qs, i + 1)
  }

  /** The search takes from the first queue that holds something. */
  lemma AllocTakesFirst(qs: seq<Bearer>, room: int) returns (k: nat)
    requires room != 0 && NonNegative(qs)
    ensures FirstNonEmpty(Flat(qs), k)
    ensures var r := AllocFrom(qs, 0, room);
            if k == |Flat(qs)| then r.1 == 0 && r.2 == qs
            else r.0 == k / 2 && r.1 == Min(Flat(qs)[k], room) && Flat(r.2) == Flat(qs)[k := Flat(qs)[k] - r.1]
  {
    var i := FirstWet(qs, 0);
    AllocSkipsDry(qs, 0, i, room);
    k := if i < |qs| && qs[i].retx == 0 then 2 * i + 1 else 2 * i;
    FirstAt(qs, i, k);
    if i < |qs| { GiveFlat(qs, i, room, k); }
  }

  function Zeros(n: nat): (z: seq<int>)
    ensures |z| == n && forall i | 0 <= i < n :: z[i] == 0
  {
    if n == 0 then [] else [0] + Zeros(n - 1)
  }

  lemma {:induction false} TakenWhenDry(f: seq<int>, k: nat, room: int)
    requires k <= |f| && room >= 0 && forall j | 0 <= j < k :: f[j] == 0
    ensures Taken(f, room) == Zeros(k) + Taken(f[k..], room)
  {
    if k == 0 {
      assert f[0..] == f;
    } else {
      TakenWhenDry(f[1..], k - 1, room);
      assert f[1..][k - 1..] == f[k..];
    }
  }

  lemma {:induction false} TakenOfNothing(f: seq<int>)
    requires forall j | 0 <= j < |f| :: f[j] >= 0
    ensures Taken(f, 0) == Zeros(|f|)
  {
    if |f| > 0 {
      TakenOfNothing(f[1..]);
      assert Zeros(|f|) == [0] + Zeros(|f| - 1);
    }
  }

  lemma {:induction false} NoPdus(n: nat, k: nat)
    ensures PdusOf(Zeros(n), k) == []
  {
    if n > 0 {
      assert Zeros(n)[1..] == Zeros(n - 1);
      NoPdus(n - 1, k + 1);
    }
  }

  lemma {:induction false} PdusAfterDry(n: nat, t: seq<int>, k: nat)
    ensures PdusOf(Zeros(n) + t, k) == PdusOf(t, k + n)
  {
    var s := Zeros(n) + t;
    if n == 0 {
      assert s == t;
    } else {
      assert s[0] == 0 && s[1..] == Zeros(n - 1) + t;
      PdusAfterDry(n - 1, t, k + 1);
    }
  }

  /** Draining from queue `k`, the first that holds something. */
  lemma TakenNow(f: seq<int>, k: nat, room: int)
    requires FirstNonEmpty(f, k) && k < |f| && room > 0
    ensures var x := Min(f[k], room);
            Taken(f, room) == Zeros(k) + ([x] + Taken(f[k + 1..], room - x))
  {
    TakenWhenDry(f, k, room);
    assert f[k..][0] == f[k] && f[k..][1..] == f[k + 1..];
  }

  /** Draining on after queue `k` has given. */
  lemma TakenNext(f: seq<int>, k: nat, room: int)
    requires FirstNonEmpty(f, k) && k < |f| && room > 0 && forall j | 0 <= j < |f| :: f[j] >= 0
    ensures var x := Min(f[k], room);
            Taken(f[k := f[k] - x], room - x) == Zeros(k + 1) + Taken(f[k + 1..], room - x)
  {
    var x := Min(f[k], room);
    var f' := f[k := f[k] - x];
    if room - x > 0 {
      TakenWhenDry(f', k + 1, room - x);
      assert f'[k + 1..] == f[k + 1..];
    } else {
      TakenOfNothing(f');
      TakenOfNothing(f[k + 1..]);
      assert Zeros(|f|) == Zeros(k + 1) + Taken(f[k + 1..], 0);
    }
  }

  /** One round of the loop: queue `k` gives `x` bytes, and the rest is drained behind it. */
  lemma TakenRound(f: seq<int>, k: nat, room: int)
    requires FirstNonEmpty(f, k) && k < |f| && room > 0 && forall j | 0 <= j < |f| :: f[j] >= 0
    ensures var x := Min(f[k], room);
            var rest := Taken(f[k + 1..], room - x);
            && Taken(f, room) == Zeros(k) + ([x] + rest)
            && Taken(f[k := f[k] - x], room - x) == Zeros(k + 1) + rest
            && PdusOf(Taken(f, room), 0) == [Pdu(k / 2, x)] + PdusOf(rest, k + 1)
            && PdusOf(Taken(f[k := f[k] - x], room - x), 0) == PdusOf(rest, k + 1)
  {
    var x := Min(f[k], room);
    var rest := Taken(f[k + 1..], room - x);
    TakenNow(f, k, room);
    TakenNext(f, k, room);
    PdusAfterDry(k, [x] + rest, 0);
    assert ([x] + rest)[1..] == rest;
    PdusAfterDry(k + 1, rest, 0);
  }

  /** `pdus` is one PDU for every queue that gives something to `room` bytes, in service order, and `g` is what is
      left in the queues `f`. */
  predicate Drained(f: seq<int>, room: int, pdus: seq<Pdu>, g: seq<int>) {
    && |g| == |f|
    && pdus == PdusOf(Taken(f, room), 0)
    && forall k | 0 <= k < |f| :: g[k] == f[k] - Taken(f, room)[k]
  }

  lemma DrainedRound(f: seq<int>, k: nat, room: int, pdus: seq<Pdu>, g: seq<int>)
    requires FirstNonEmpty(f, k) && k < |f| && room > 0 && forall j | 0 <= j < |f| :: f[j] >= 0
    requires var x := Min(f[k], room); Drained(f[k := f[k] - x], room - x, pdus, g)
    ensures Drained(f, room, [Pdu(k / 2, Min(f[k], room))] + pdus, g)
  {
    TakenRound(f, k, room);
    var x := Min(f[k], room);
    var t, t' := Taken(f, room), Taken(f[k := f[k] - x], room - x);
    forall j | 0 <= j < |f| ensures g[j] == f[j] - t[j] {
      assert g[j] == f[k := f[k] - x][j] - t'[j];
      assert t[j] == if j == k then x else t'[j];
    }
  }

  lemma DrainedNothing(f: seq<int>)
    requires forall j | 0 <= j < |f| :: f[j] >= 0
    ensures Drained(f, 0, [], f)
  {
    TakenOfNothing(f);
    NoPdus(|f|, 0);
  }

  /** The loop drains the queues as it should. */
  predicate Packs(qs: seq<Bearer>, room: int) {
    var (pdus, after, left) := Pack(qs, room);
    NonNegative(after) && Drained(Flat(qs), room, pdus, Flat(after))
  }

  lemma {:induction false} FlatNonNegative(qs: seq<Bearer>)
    requires NonNegative(qs)
    ensures forall j | 0 <= j < |Flat(qs)| :: Flat(qs)[j] >= 0
  {
    if |qs| > 0 { FlatNonNegative(qs[..|qs| - 1]); }
  }

  lemma PackUnfolds(qs: seq<Bearer>, room: int, lcid: nat, x: int, qs': seq<Bearer>)
    requires x > 0 && AllocFrom(qs, 0, room) == (lcid, x, qs')
    ensures var rest := Pack(qs', room - x);
            Pack(qs, room) == if room - x > 0 then ([Pdu(lcid, x)] + rest.0, rest.1, rest.2)
                              else ([Pdu(lcid, x)], qs', room - x)
  {
  }

  /** Queue `k` of `f` gives `x` bytes, which leaves `f'`. */
  predicate Gives(f: seq<int>, f': seq<int>, k: nat, x: int, room: int) {
    && FirstNonEmpty(f, k) && k < |f| && room > 0 && x == Min(f[k], room) && f' == f[k := f[k] - x]
    && forall j | 0 <= j < |f| :: f[j] >= 0
  }

  lemma DrainsOn(f: seq<int>, f': seq<int>, k: nat, x: int, room: int, pdus: seq<Pdu>, g: seq<int>)
    requires Gives(f, f', k, x, room) && Drained(f', room - x, pdus, g)
    ensures Drained(f, room, [Pdu(k / 2, x)] + pdus, g)
  {
    DrainedRound(f, k, room, pdus, g);
  }

  lemma DrainsLast(f: seq<int>, f': seq<int>, k: nat, x: int, room: int)
    requires Gives(f, f', k, x, room) && room == x
    ensures Drained(f, room, [Pdu(k / 2, x)], f')
  {
    DrainedNothing(f');
    DrainsOn(f, f', k, x, room, [], f');
    assert [Pdu(k / 2, x)] + [] == [Pdu(k / 2, x)];
  }

  /** One round of the loop takes from queue `k`. */
  lemma PackRound(qs: seq<Bearer>, room: int, k: nat, x: int, qs': seq<Bearer>)
    requires NonNegative(qs') && AllocFrom(qs, 0, room) == (k / 2, x, qs')
    requires Gives(Flat(qs), Flat(qs'), k, x, room) && (room - x > 0 ==> Packs(qs', room - x))
    ensures Packs(qs, room)
  {
    PackUnfolds(qs, room, k / 2, x, qs');
    if room - x > 0 {
      DrainsOn(Flat(qs), Flat(qs'), k, x, room, Pack(qs', room - x).0, Flat(Pack(qs', room - x).1));
    } else {
      DrainsLast(Flat(qs), Flat(qs'), k, x, room);
    }
  }

  lemma DrainedAllEmpty(f: seq<int>, room: int)
    requires room >= 0 && FirstNonEmpty(f, |f|)
    ensures Drained(f, room, [], f)
  {
    TakenWhenDry(f, |f|, room);
    assert f[|f|..] == [] && Taken(f, room) == Zeros(|f|);
    NoPdus(|f|, 0);
  }

  lemma KeepsNonNegative(qs: seq<Bearer>, qs': seq<Bearer>, k: nat, x: int)
    requires NonNegative(qs) && |qs'| == |qs| && k < |Flat(qs)| && 0 <= x <= Flat(qs)[k]
    requires Flat(qs') == Flat(qs)[k := Flat(qs)[k] - x]
    ensures NonNegative(qs')
  {
    forall i | 0 <= i < |qs'| ensures qs'[i].retx >= 0 && qs'[i].tx >= 0 {
      assert qs[i].retx >= 0 && qs[i].tx >= 0;
      assert Flat(qs')[2 * i] == qs'[i].retx && Flat(qs')[2 * i + 1] == qs'[i].tx;
    }
  }

  lemma {:induction false} PackNothing(qs: seq<Bearer>, i: nat)
    requires NonNegative(qs) && i <= |qs|
    ensures AllocFrom(qs, i, 0).1 == 0 && AllocFrom(qs, i, 0).2 == qs
    decreases |qs| - i
  {
    if i < |qs| {
      assert qs[i := qs[i]] == qs;
      PackNothing(qs, i + 1);
    }
  }

  /** The loop drains the queues strictly in service order, with one PDU for every queue that gives something. */
  lemma {:induction false} PackDrainsInOrder(qs: seq<Bearer>, room: int)
    requires NonNegative(qs) && room >= 0
    ensures Packs(qs, room)
    decreases room
  {
    FlatNonNegative(qs);
    if room == 0 {
      PackNothing(qs, 0);
      DrainedNothing(Flat(qs));
    } else {
      var k := AllocTakesFirst(qs, room);
      if k == |Flat(qs)| {
        DrainedAllEmpty(Flat(qs), room);
      } else {
        var (lcid, x, qs') := AllocFrom(qs, 0, room);
        KeepsNonNegative(qs, qs', k, x);
        if room - x > 0 { PackDrainsInOrder(qs', room - x); }
        FlatNonNegative(qs);
        PackRound(qs, room, k, x, qs');
      }
    }
  }

  /** Draining stops at the first queue that is not emptied, and moves min(room, everything) bytes. */
  lemma {:induction false} TakenMeaning(f: seq<int>, room: int)
    requires room >= 0 && forall j | 0 <= j < |f| :: f[j] >= 0
    ensures var t := Taken(f, room);
            && (forall j | 0 <= j < |f| :: 0 <= t[j] <= f[j])
            && (forall j, m | 0 <= j < m < |f| && t[j] < f[j] :: t[m] == 0)
            && Total(t) == Min(room, Total(f))
    ensures Total(f) >= 0
  {
    if |f| > 0 {
      var x := Min(f[0], room);
      TakenMeaning(f[1..], room - x);
      var t := Taken(f, room);
      assert t[1..] == Taken(f[1..], room - x);
      forall j, m | 0 <= j < m < |f| && t[j] < f[j] ensures t[m] == 0 {
        if j == 0 {
          TakenOfNothing(f[1..]);
        } else {
          assert t[1..][j - 1] == t[j] && t[1..][m - 1] == t[m] && f[1..][j - 1] == f[j];
        }
      }
    }
  }

  lemma {:induction false} PdusCarryTaken(t: seq<int>, k: nat)
    ensures PduBytes(PdusOf(t, k)) == Total(t)
    ensures |PdusOf(t, k)| <= |t|
  {
    if |t| > 0 {
      PdusCarryTaken(t[1..], k + 1);
      var tail := PdusOf(t[1..], k + 1);
      if t[0] != 0 {
        assert ([Pdu(k / 2, t[0])] + tail)[1..] == tail;
      } else {
        assert [] + tail == tail;
      }
    }
  }

  lemma {:induction false} TotalOfDifference(a: seq<int>, t: seq<int>, b: seq<int>)
    requires |a| == |t| == |b| && forall k | 0 <= k < |a| :: b[k] == a[k] - t[k]
    ensures Total(b) == Total(a) - Total(t)
  {
    if |a| > 0 { TotalOfDifference(a[1..], t[1..], b[1..]); }
  }

  /** No byte is lost or invented: the PDUs of a block carry min(block size, queued bytes), and that is what
      leaves the queues. */
  lemma BytesConserved(qs: seq<Bearer>, room: int)
    requires NonNegative(qs) && room >= 0
    ensures var (pdus, after, left) := Pack(qs, room);
            && PduBytes(pdus) == Min(room, Total(Flat(qs)))
            && Total(Flat(after)) == Total(Flat(qs)) - PduBytes(pdus)
  {
    var f := Flat(qs);
    FlatNonNegative(qs);
    PackDrainsInOrder(qs, room);
    TakenMeaning(f, room);
    PdusCarryTaken(Taken(f, room), 0);
    TotalOfDifference(f, Taken(f, room), Flat(Pack(qs, room).1));
  }
}
