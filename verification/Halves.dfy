/** The halves of subframes in any order, as workers that run side by side call the scheduler: when do the DCIs of one
    subframe stay apart? */
module Halves {
  import opened Tti
  import opened Pdcch

  /** One call of the scheduler. */
  datatype Half = Dl(tti: nat) | Ul(tti: nat)

  function Enter(m: Map, h: Half): Map {
    match h
    case Dl(t) => EnterDl(m, t)
    case Ul(t) => EnterUl(m, t)
  }

  /** The map after one half and the places of its DCIs. */
  function Call(m: Map, h: Half, rs: seq<Request>): (r: (Map, seq<Place>))
    requires |m.used| == MAX_CCE && AllLegal(rs)
    ensures |r.0.used| == MAX_CCE
  {
    var e := Enter(m, h);
    var placed := PlaceAll(e.used, rs);
    (Map(placed.0, e.tti), placed.1)
  }

  /** There are requests for every half. */
  predicate Asks(hs: seq<Half>, rss: seq<seq<Request>>) {
    |rss| == |hs| && forall k | 0 <= k < |rss| :: AllLegal(rss[k])
  }

  /** The map before half `n`, from a clear one on. */
  function Before(hs: seq<Half>, rss: seq<seq<Request>>, n: nat): (m: Map)
    requires Asks(hs, rss) && n <= |hs|
    ensures |m.used| == MAX_CCE
  {
    if n == 0 then Map(NoCce(), 0) else Call(Before(hs, rss, n - 1), hs[n - 1], rss[n - 1]).0
  }

  /** Where half `n` has its DCIs. */
  function PlacesOf(hs: seq<Half>, rss: seq<seq<Request>>, n: nat): seq<Place>
    requires Asks(hs, rss) && n < |hs|
  {
    Call(Before(hs, rss, n), hs[n], rss[n]).1
  }

  /** Halves `a` and `b` are those of one subframe. */
  predicate Pair(hs: seq<Half>, a: nat, b: nat) {
    && a < b < |hs| && hs[a].Dl? && hs[b] == Ul(TtiTx(hs[a].tti))
    && forall k | a < k < b :: hs[k] != hs[a] && hs[k] != hs[b]
  }

  ghost predicate Apart(ps: seq<Place>, qs: seq<Place>) {
    forall i, j | 0 <= i < |ps| && 0 <= j < |qs| :: !Overlap(ps[i], qs[j])
  }

  /** The DCIs of every subframe are apart, whatever is asked for. */
  ghost predicate AlwaysApart(hs: seq<Half>) {
    forall rss, a, b | Asks(hs, rss) && Pair(hs, a, b) :: Apart(PlacesOf(hs, rss, a), PlacesOf(hs, rss, b))
  }

  /** Every uplink half comes right after the downlink half of its subframe. */
  predicate InPairs(hs: seq<Half>) {
    forall a, b | 0 <= a < |hs| && 0 <= b < |hs| && Pair(hs, a, b) :: b == a + 1
  }

  lemma {:induction false} StaysMarked(used: seq<bool>, rs: seq<Request>, c: nat)
    requires |used| == MAX_CCE && AllLegal(rs) && c < MAX_CCE && used[c]
    ensures PlaceAll(used, rs).0[c]
  {
    if |rs| > 0 { StaysMarked(used, rs[..|rs| - 1], c); }
  }

  /** DCIs are placed on free CCEs, which are marked afterwards. */
  lemma {:induction false} PlacedOnFree(used: seq<bool>, rs: seq<Request>, i: nat, c: nat)
    requires |used| == MAX_CCE && AllLegal(rs) && i < |rs| && Holds(PlaceAll(used, rs).1[i], c)
    ensures c < MAX_CCE && !used[c] && PlaceAll(used, rs).0[c]
  {
    var n := |rs| - 1;
    if i < n {
      PlacedOnFree(used, rs[..n], i, c);
    } else if c < MAX_CCE && used[c] {
      StaysMarked(used, rs[..n], c);
    }
  }

  /** Calls in a row of which the second keeps the map of the first keep their DCIs apart. */
  lemma KeptIsApart(hs: seq<Half>, rss: seq<seq<Request>>, a: nat)
    requires Asks(hs, rss) && a + 1 < |hs|
    requires Enter(Before(hs, rss, a + 1), hs[a + 1]).used == Before(hs, rss, a + 1).used
    ensures Apart(PlacesOf(hs, rss, a), PlacesOf(hs, rss, a + 1))
  {
    var ps, qs := PlacesOf(hs, rss, a), PlacesOf(hs, rss, a + 1);
    var u := Enter(Before(hs, rss, a), hs[a]).used;
    var v := PlaceAll(u, rss[a]).0;
    assert Enter(Before(hs, rss, a + 1), hs[a + 1]).used == v;
    forall i, j, c | 0 <= i < |ps| && 0 <= j < |qs| && Holds(ps[i], c) ensures !Holds(qs[j], c) {
      PlacedOnFree(u, rss[a], i, c);
      if Holds(qs[j], c) { PlacedOnFree(v, rss[a + 1], j, c); }
    }
  }

  /** Two calls of the downlink scheduler for one TTI in a row keep their DCIs apart as well. */
  lemma AgainIsApart(hs: seq<Half>, rss: seq<seq<Request>>, a: nat)
    requires Asks(hs, rss) && a + 1 < |hs| && hs[a].Dl? && hs[a + 1] == hs[a]
    ensures Apart(PlacesOf(hs, rss, a), PlacesOf(hs, rss, a + 1))
  {
    KeptIsApart(hs, rss, a);
  }

  /** A request for CCE 0. */
  function First(): (r: Request)
    ensures r.Legal()
  {
    Request([0], 1, 0, {})
  }

  /** The halves `a` and `b` ask for CCE 0, all others for nothing. */
  function Only(n: nat, a: nat, b: nat): (rss: seq<seq<Request>>)
    ensures |rss| == n && forall k | 0 <= k < n :: rss[k] == (if k == a || k == b then [First()] else [])
  {
    seq(n, k => if k == a || k == b then [First()] else [])
  }

  lemma PlacesFirst(used: seq<bool>)
    requires |used| == MAX_CCE && !used[0]
    ensures PlaceAll(used, [First()]).1 == [At(0, 1)]
  {
    assert [First()][..0] == [];
    assert PlaceAll(used, []) == (used, []);
    assert First().Candidate(0) == 0 && First().Fits(used, 0);
  }

  /** Where nothing is asked for a clear map stays clear. */
  lemma {:induction false} StaysClear(hs: seq<Half>, rss: seq<seq<Request>>, k: nat, n: nat)
    requires Asks(hs, rss) && k <= n <= |hs| && Before(hs, rss, k).used == NoCce()
    requires forall j | k <= j < n :: rss[j] == []
    ensures Before(hs, rss, n).used == NoCce()
    decreases n - k
  {
    if k < n { StaysClear(hs, rss, k, n - 1); }
  }

  /** A half of another subframe in between clears the map. */
  lemma OtherClears(hs: seq<Half>, rss: seq<seq<Request>>, a: nat)
    requires Asks(hs, rss) && a + 1 < |hs| && hs[a].Dl? && rss[a + 1] == []
    requires hs[a + 1] != hs[a] && hs[a + 1] != Ul(TtiTx(hs[a].tti))
    ensures Before(hs, rss, a + 2).used == NoCce()
  {
    assert Before(hs, rss, a + 1).tti == hs[a].tti;
    assert Before(hs, rss, a + 2) == Call(Before(hs, rss, a + 1), hs[a + 1], []).0;
  }

  lemma SplitPairMeets(hs: seq<Half>, a: nat, b: nat)
    requires Pair(hs, a, b) && b != a + 1
    ensures Asks(hs, Only(|hs|, a, b))
    ensures !Apart(PlacesOf(hs, Only(|hs|, a, b), a), PlacesOf(hs, Only(|hs|, a, b), b))
  {
    var rss := Only(|hs|, a, b);
    StaysClear(hs, rss, 0, a);
    PlacesFirst(Enter(Before(hs, rss, a), hs[a]).used);
    OtherClears(hs, rss, a);
    StaysClear(hs, rss, a + 2, b);
    PlacesFirst(Enter(Before(hs, rss, b), hs[b]).used);
    assert Holds(At(0, 1), 0) && Overlap(At(0, 1), At(0, 1));
    assert PlacesOf(hs, rss, a)[0] == At(0, 1) && PlacesOf(hs, rss, b)[0] == At(0, 1);
  }

  /** In whatever order the halves are called: the DCIs of every subframe stay apart, whatever is asked for, exactly if
      every uplink half comes right after the downlink half of its subframe. */
  lemma ApartIff(hs: seq<Half>)
    ensures AlwaysApart(hs) <==> InPairs(hs)
  {
    forall rss, a, b | InPairs(hs) && Asks(hs, rss) && Pair(hs, a, b)
      ensures Apart(PlacesOf(hs, rss, a), PlacesOf(hs, rss, b))
    {
      KeptIsApart(hs, rss, a);
    }
    if !InPairs(hs) {
      var a, b :| Pair(hs, a, b) && b != a + 1;
      SplitPairMeets(hs, a, b);
      assert Asks(hs, Only(|hs|, a, b)) && Pair(hs, a, b);
    }
  }

  /** With two workers: the downlink half of the next subframe between the halves of the first makes their DCIs meet. */
  lemma ParallelExample(t: nat)
    requires t < TTI_PERIOD
    ensures var hs := [Dl(TtiTx(t)), Dl(TtiTx(Next(t))), Ul(TtiTx(TtiTx(t))), Ul(TtiTx(TtiTx(Next(t))))];
            Pair(hs, 0, 2) && !AlwaysApart(hs)
  {
    var hs := [Dl(TtiTx(t)), Dl(TtiTx(Next(t))), Ul(TtiTx(TtiTx(t))), Ul(TtiTx(TtiTx(Next(t))))];
    if TtiTx(Next(t)) == TtiTx(t) { TtiTxInjective(Next(t), t); }
    ApartIff(hs);
    assert Pair(hs, 0, 2);
  }
}
