/** Placing control messages (DCIs) on the control channel elements (CCEs) of a subframe. */
module Pdcch {
  import opened Tti

  const MAX_CCE: nat := 128

  /** CCEs start..start+size-1 are all free. */
  predicate Free(used: seq<bool>, start: nat, size: nat)
    requires start + size <= |used|
  {
    forall j | start <= j < start + size :: !used[j]
  }

  function Mark(used: seq<bool>, start: nat, size: nat): (r: seq<bool>)
    requires start + size <= |used|
    ensures |r| == |used|
  {
    seq(|used|, j requires 0 <= j < |used| => used[j] || start <= j < start + size)
  }

  /** A DCI of `size` CCEs to be placed at one of the starts `locs`, tried in turn from number `first` on; `blocked`
      are the starts that would collide with the scheduling request of the user. */
  datatype Request = Request(locs: seq<nat>, size: nat, first: nat, blocked: set<nat>)
  {
    predicate Legal() {
      (|locs| > 0 ==> first < |locs|) && forall i | 0 <= i < |locs| :: locs[i] + size <= MAX_CCE
    }

    /** The k-th candidate in the order they are tried. */
    function Candidate(k: nat): (c: nat)
      requires Legal() && k < |locs|
      ensures c + size <= MAX_CCE && c in locs
    {
      locs[if first + k < |locs| then first + k else first + k - |locs|]
    }

    predicate Fits(used: seq<bool>, c: nat)
      requires |used| == MAX_CCE && c + size <= MAX_CCE
    {
      c !in blocked && Free(used, c, size)
    }
  }

  datatype Place = Nowhere | At(start: nat, size: nat)

  /** The first candidate that fits, from the k-th on. */
  function Search(used: seq<bool>, r: Request, k: nat): (p: Place)
    requires |used| == MAX_CCE && r.Legal() && k <= |r.locs|
    ensures p.At? ==> p.size == r.size && p.start + p.size <= MAX_CCE && r.Fits(used, p.start)
    decreases |r.locs| - k
  {
    if k == |r.locs| then Nowhere
    else if r.Fits(used, r.Candidate(k)) then At(r.Candidate(k), r.size)
    else Search(used, r, k + 1)
  }

  function After(used: seq<bool>, p: Place): (r: seq<bool>)
    requires |used| == MAX_CCE && (p.At? ==> p.start + p.size <= MAX_CCE)
    ensures |r| == MAX_CCE
  {
    if p.At? then Mark(used, p.start, p.size) else used
  }

  lemma {:induction false} SearchFrom(used: seq<bool>, r: Request, k: nat)
    requires |used| == MAX_CCE && r.Legal() && k <= |r.locs|
    ensures Search(used, r, k).At? ==> Search(used, r, k).start in r.locs
    ensures Search(used, r, k).Nowhere? ==> forall m | k <= m < |r.locs| :: !r.Fits(used, r.Candidate(m))
    decreases |r.locs| - k
  {
    if k < |r.locs| { SearchFrom(used, r, k + 1); }
  }

  /** Whatever candidate comes first, the search succeeds exactly when some candidate fits. */
  lemma SearchComplete(used: seq<bool>, r: Request)
    requires |used| == MAX_CCE && r.Legal()
    ensures Search(used, r, 0).At? <==> exists i | 0 <= i < |r.locs| :: r.Fits(used, r.locs[i])
  {
    SearchFrom(used, r, 0);
    if i :| 0 <= i < |r.locs| && r.Fits(used, r.locs[i]) {
      var k := if i >= r.first then i - r.first else i + |r.locs| - r.first;
      assert r.Candidate(k) == r.locs[i];
    }
  }

  // ---- Subframe after subframe

  /** The CCE map of the scheduler and the TTI it was last used for. */
  datatype Map = Map(used: seq<bool>, tti: nat)

  predicate Clear(used: seq<bool>) {
    forall j | 0 <= j < |used| :: !used[j]
  }

  function NoCce(): (u: seq<bool>)
    ensures |u| == MAX_CCE && Clear(u)
  {
    seq(MAX_CCE, _ => false)
  }

  /** The downlink scheduler starts on TTI `tti`. */
  function EnterDl(m: Map, tti: nat): Map {
    Map(if m.tti != tti then NoCce() else m.used, tti)
  }

  /** The uplink scheduler starts on TTI `tti`, four after that of the downlink scheduler of the same subframe. */
  function EnterUl(m: Map, tti: nat): Map {
    Map(if TtiTx(m.tti) != tti then NoCce() else m.used, tti)
  }

  predicate AllLegal(rs: seq<Request>) {
    forall i | 0 <= i < |rs| :: rs[i].Legal()
  }

  /** Places the DCIs of a list one after the other. */
  function PlaceAll(used: seq<bool>, rs: seq<Request>): (r: (seq<bool>, seq<Place>))
    requires |used| == MAX_CCE && AllLegal(rs)
    ensures |r.0| == MAX_CCE && |r.1| == |rs|
    ensures forall i | 0 <= i < |rs| && r.1[i].At? :: r.1[i].start + r.1[i].size <= MAX_CCE
  {
    if |rs| == 0 then (used, [])
    else
      var n := |rs| - 1;
      var (u, ps) := PlaceAll(used, rs[..n]);
      var p := Search(u, rs[n], 0);
      (After(u, p), ps + [p])
  }

  /** What one worker schedules: downlink DCIs, unless the subframe is a multicast one, then uplink DCIs. */
  datatype Subframe = Subframe(multicast: bool, dl: seq<Request>, ul: seq<Request>)

  predicate LegalSubframe(sf: Subframe) {
    AllLegal(sf.dl) && AllLegal(sf.ul)
  }

  function Schedule(m: Map, t: nat, sf: Subframe): (r: (Map, seq<Place>))
    requires |m.used| == MAX_CCE && LegalSubframe(sf)
    ensures |r.0.used| == MAX_CCE
  {
    var (m1, dl) :=
      if sf.multicast then (m, [])
      else
        var e := EnterDl(m, TtiTx(t));
        var (u, ps) := PlaceAll(e.used, sf.dl);
        (Map(u, e.tti), ps);
    var e := EnterUl(m1, TtiTx(TtiTx(t)));
    var (u, ul) := PlaceAll(e.used, sf.ul);
    (Map(u, e.tti), dl + ul)
  }

  /** The map after all subframes of a run, the first of which is received in TTI `t`. */
  function Run(m: Map, t: nat, sfs: seq<Subframe>): (r: Map)
    requires |m.used| == MAX_CCE && t < TTI_PERIOD && forall i | 0 <= i < |sfs| :: LegalSubframe(sfs[i])
    ensures |r.used| == MAX_CCE
  {
    if |sfs| == 0 then m
    else
      var n := |sfs| - 1;
      Schedule(Run(m, t, sfs[..n]), TtiAt(t, n), sfs[n]).0
  }

  /** CCE j belongs to the DCI placed at `p`. */
  predicate Holds(p: Place, j: nat) {
    p.At? && p.start <= j < p.start + p.size
  }

  ghost predicate Overlap(p: Place, q: Place) {
    exists j :: Holds(p, j) && Holds(q, j)
  }

  /** No two of the DCIs share a CCE. */
  ghost predicate Exclusive(ps: seq<Place>) {
    forall i, j | 0 <= i < j < |ps| :: !Overlap(ps[i], ps[j])
  }

  predicate Covered(ps: seq<Place>, j: nat) {
    exists i | 0 <= i < |ps| :: Holds(ps[i], j)
  }

  /** The map marks exactly the CCEs of the DCIs. */
  predicate Accounts(used: seq<bool>, ps: seq<Place>) {
    forall j | 0 <= j < |used| :: used[j] <==> Covered(ps, j)
  }

  lemma CoveredStep(ps: seq<Place>, p: Place, j: nat)
    ensures Covered(ps + [p], j) <==> Covered(ps, j) || Holds(p, j)
  {
    var qs := ps + [p];
    if Covered(ps, j) {
      var i :| 0 <= i < |ps| && Holds(ps[i], j);
      assert qs[i] == ps[i];
    }
    if Holds(p, j) {
      assert qs[|ps|] == p;
    }
  }

  /** A place that fits on the map touches none of the places the map accounts for. */
  lemma FitsApart(used: seq<bool>, ps: seq<Place>, a: nat, p: Place)
    requires |used| == MAX_CCE && Accounts(used, ps) && a < |ps|
    requires p.At? ==> p.start + p.size <= MAX_CCE && Free(used, p.start, p.size)
    ensures !Overlap(ps[a], p)
  {
    forall j: nat | Holds(p, j) ensures !Holds(ps[a], j) {
      assert !used[j];
      assert !Covered(ps, j);
    }
  }

  /** Placing one more DCI keeps the DCIs apart and the map exact. */
  lemma PlaceOne(used: seq<bool>, ps: seq<Place>, r: Request)
    requires |used| == MAX_CCE && r.Legal() && Exclusive(ps) && Accounts(used, ps)
    ensures var p := Search(used, r, 0);
            Exclusive(ps + [p]) && Accounts(After(used, p), ps + [p])
  {
    var p := Search(used, r, 0);
    var qs := ps + [p];
    forall j | 0 <= j < MAX_CCE ensures After(used, p)[j] <==> Covered(qs, j) {
      CoveredStep(ps, p, j);
    }
    forall a, b | 0 <= a < b < |qs| ensures !Overlap(qs[a], qs[b]) {
      if b == |ps| {
        FitsApart(used, ps, a, p);
      } else {
        assert !Overlap(ps[a], ps[b]);
      }
    }
  }

  lemma {:induction false} PlaceAllExclusive(used: seq<bool>, ps: seq<Place>, rs: seq<Request>)
    requires |used| == MAX_CCE && AllLegal(rs) && Exclusive(ps) && Accounts(used, ps)
    ensures var (u, qs) := PlaceAll(used, rs);
            Exclusive(ps + qs) && Accounts(u, ps + qs)
  {
    if |rs| == 0 {
      assert ps + [] == ps;
    } else {
      var n := |rs| - 1;
      PlaceAllExclusive(used, ps, rs[..n]);
      var (u, qs) := PlaceAll(used, rs[..n]);
      PlaceOne(u, ps + qs, rs[n]);
      assert ps + (qs + [Search(u, rs[n], 0)]) == ps + qs + [Search(u, rs[n], 0)];
    }
  }

  /** Once a subframe has been scheduled, the map stands at its uplink TTI. */
  predicate StandsAt(m: Map, t: nat) {
    m.tti == TtiTx(TtiTx(t))
  }

  /** The next subframe starts on a clear map in either half that comes first, and its second half continues it. */
  lemma NextIsFresh(m: Map, t: nat)
    requires t < TTI_PERIOD && StandsAt(m, t)
    ensures EnterDl(m, TtiTx(Next(t))).used == NoCce()
    ensures EnterUl(m, TtiTx(TtiTx(Next(t)))).used == NoCce()
    ensures forall u :: EnterUl(Map(u, TtiTx(Next(t))), TtiTx(TtiTx(Next(t)))).used == u
  {
  }

  /** The DCIs of subframe `sf`, scheduled at `t` on the map `m`, are apart, and the map is exact afterwards. */
  ghost predicate Clean(m: Map, t: nat, sf: Subframe)
    requires |m.used| == MAX_CCE && LegalSubframe(sf)
  {
    var (m', ps) := Schedule(m, t, sf);
    Exclusive(ps) && Accounts(m'.used, ps) && StandsAt(m', t)
  }

  lemma SubframeExclusive(m: Map, t: nat, sf: Subframe)
    requires |m.used| == MAX_CCE && LegalSubframe(sf)
    requires Clear(EnterDl(m, TtiTx(t)).used) && (sf.multicast ==> Clear(EnterUl(m, TtiTx(TtiTx(t))).used))
    ensures Clean(m, t, sf)
  {
    if sf.multicast {
      var u := EnterUl(m, TtiTx(TtiTx(t))).used;
      PlaceAllExclusive(u, [], sf.ul);
      assert [] + PlaceAll(u, sf.ul).1 == PlaceAll(u, sf.ul).1;
    } else {
      var u := EnterDl(m, TtiTx(t)).used;
      PlaceAllExclusive(u, [], sf.dl);
      var (u', dl) := PlaceAll(u, sf.dl);
      assert [] + dl == dl;
      PlaceAllExclusive(u', dl, sf.ul);
    }
  }

  lemma RunStep(m: Map, t: nat, sfs: seq<Subframe>)
    requires |m.used| == MAX_CCE && t < TTI_PERIOD && |sfs| > 0 && forall i | 0 <= i < |sfs| :: LegalSubframe(sfs[i])
    ensures var n := |sfs| - 1;
            Run(m, t, sfs) == Schedule(Run(m, t, sfs[..n]), TtiAt(t, n), sfs[n]).0
  {
  }

  lemma SubframeAfter(m: Map, t: nat, sf: Subframe)
    requires |m.used| == MAX_CCE && LegalSubframe(sf) && t < TTI_PERIOD && StandsAt(m, t)
    ensures Clean(m, Next(t), sf)
  {
    NextIsFresh(m, t);
    SubframeExclusive(m, Next(t), sf);
  }

  /** In any run of subframes, multicast ones or not, from a clear map and across the wrap of the TTI counter, the
      downlink and uplink DCIs of every subframe occupy disjoint CCEs, and no CCE is taken for any other reason. */
  lemma {:induction false} RunExclusive(m: Map, t: nat, sfs: seq<Subframe>)
    requires m.used == NoCce() && t < TTI_PERIOD && |sfs| > 0
    requires forall i | 0 <= i < |sfs| :: LegalSubframe(sfs[i])
    ensures var n := |sfs| - 1; Clean(Run(m, t, sfs[..n]), TtiAt(t, n), sfs[n])
  {
    var n := |sfs| - 1;
    if n == 0 {
      SubframeExclusive(m, t, sfs[0]);
    } else {
      RunExclusive(m, t, sfs[..n]);
      RunStep(m, t, sfs[..n]);
      TtiAtNext(t, n - 1);
      SubframeAfter(Run(m, t, sfs[..n]), TtiAt(t, n - 1), sfs[n]);
    }
  }
}
