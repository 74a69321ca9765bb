/** Threads without the identity of their nodes, and what pairs of insertions do to them. */
module Traces {
  import opened Cfg
  import opened ThreadSpec
  import opened SchedSpec

  type Trace = seq<Ev<Loc>>

  function Bare<N>(s: seq<Ev<N>>): (t: Trace)
    ensures |t| == |s| && forall i :: 0 <= i < |s| ==> t[i] == Ev(s[i].loc, s[i].loc, s[i].ty)
  {
    seq(|s|, i requires 0 <= i < |s| => Ev(s[i].loc, s[i].loc, s[i].ty))
  }

  lemma {:induction false} BareIndex<N>(s: seq<Ev<N>>, loc: Loc)
    ensures ThreadSpec.Has(Bare(s), loc) <==> ThreadSpec.Has(s, loc)
    ensures ThreadSpec.Has(s, loc) ==> IndexOf(Bare(s), loc) == IndexOf(s, loc)
  {
    if ThreadSpec.Has(s, loc) {
      var i := IndexOf(s, loc);
      assert Bare(s)[i].loc == loc;
    }
    if ThreadSpec.Has(Bare(s), loc) {
      var i := IndexOf(Bare(s), loc);
      assert s[i].loc == loc;
    }
  }

  lemma {:induction false} BareSlot<N>(g: Graph, s: seq<Ev<N>>, loc: Loc, i: nat, hi: nat)
    requires i <= hi <= |s|
    ensures Slot(g, Bare(s), loc, i, hi) == Slot(g, s, loc, i, hi)
    decreases hi - i
  {
    hide Reach;
    if i >= hi {
    } else {
      BareSlot(g, s, loc, i + 1, hi);
    }
  }

  /** Insertion looks at locations and types only. */
  lemma BareInsert<N>(g: Graph, s: seq<Ev<N>>, q: Request)
    requires Fits(s, q) && !q.dom
    ensures InsertCode(g, Bare(s), q) == InsertCode(g, s, q)
  {
    hide Reach, Slot;
    BareIndex(s, q.loc);
    var hi := Limit(s, q);
    if q.start + 1 < hi {
      BareSlot(g, s, q.loc, q.start + 1, hi);
    }
  }

  lemma BareSplice<N>(s: seq<Ev<N>>, k: nat, t: seq<Ev<N>>)
    requires k <= |s| && k < |t| && t == s[..k] + [t[k]] + s[k..]
    ensures Bare(t) == Bare(s)[..k] + [Ev(t[k].loc, t[k].loc, t[k].ty)] + Bare(s)[k..]
  {
  }

  lemma BareLanding<N>(g: Graph, s: seq<Ev<N>>, q: Request)
    requires Fits(s, q) && !q.dom && Accepted(InsertCode(g, s, q))
    ensures Accepted(InsertCode(g, Bare(s), q)) && Landing(g, Bare(s), q) == Landing(g, s, q)
  {
    hide Reach, Slot, FreshCode;
    BareInsert(g, s, q);
    BareIndex(s, q.loc);
  }

  /** The trace of a thread after an insertion. */
  lemma BareInserted<N>(g: Graph, s: seq<Ev<N>>, q: Request, n: N)
    requires Fits(s, q) && !q.dom
    ensures Bare(Inserted(g, s, q, n)) == Inserted(g, Bare(s), q, q.loc)
  {
    hide Reach, Slot, FreshCode, SameCode;
    BareInsert(g, s, q);
    BareIndex(s, q.loc);
    var ec := InsertCode(g, s, q);
    if ec >= 0 {
      BareSplice(s, ec, Inserted(g, s, q, n));
    }
  }

  /** Where index `i` moves when an insertion answers `ec`. */
  function Shifted(ec: int, i: nat): nat {
    if 0 <= ec <= i then i + 1 else i
  }

  /** Both ends of a region fit around index `i`: the lock in front of it, then the unlock behind it. */
  predicate RegionFits(g: Graph, t: Trace, i: nat, lock: Loc, unlock: Loc)
    requires i < |t|
  {
    var q0 := Request(lock, {Lock}, true, false, i, -1);
    var ec := InsertCode(g, t, q0);
    Accepted(ec) && Accepted(InsertCode(g, Inserted(g, t, q0, lock),
                                        Request(unlock, {Unlock}, true, false, -1, Shifted(ec, i))))
  }

  /** The thread with that region, or as it was. */
  function RegionTrace(g: Graph, t: Trace, i: nat, lock: Loc, unlock: Loc): Trace
    requires i < |t|
  {
    if !RegionFits(g, t, i, lock, unlock) then t else
    var q0 := Request(lock, {Lock}, true, false, i, -1);
    var ec := InsertCode(g, t, q0);
    Inserted(g, Inserted(g, t, q0, lock), Request(unlock, {Unlock}, true, false, -1, Shifted(ec, i)), unlock)
  }

  /** A CREATE event fits anywhere, and a JOIN event behind it. */
  predicate SyncFits(g: Graph, t: Trace, create: Loc, join: Loc) {
    var q0 := Request(create, {TrCreate}, true, false, -1, -1);
    Accepted(InsertCode(g, t, q0))
    && Accepted(InsertCode(g, Inserted(g, t, q0, create), Request(join, {TrJoin}, true, false, -1, Landing(g, t, q0))))
  }

  function SyncTrace(g: Graph, t: Trace, create: Loc, join: Loc): Trace {
    if !SyncFits(g, t, create, join) then t else
    var q0 := Request(create, {TrCreate}, true, false, -1, -1);
    Inserted(g, Inserted(g, t, q0, create), Request(join, {TrJoin}, true, false, -1, Landing(g, t, q0)), join)
  }

  // ---- killers ---------------------------------------------------------------------------------------

  function TracesOf<N>(st: State<N>): (ts: seq<Trace>)
    ensures |ts| == |st| && forall k :: 0 <= k < |st| ==> ts[k] == Bare(st[k])
  {
    seq(|st|, k requires 0 <= k < |st| => Bare(st[k]))
  }

  /** The first thread that takes the location. */
  function FirstTaker(g: Graph, ts: seq<Trace>, q: Request): (x: nat)
    requires q.start == -1 && q.stop == -1
    ensures x <= |ts| && (x < |ts| ==> Accepted(InsertCode(g, ts[x], q)))
    ensures forall y :: 0 <= y < x ==> !Accepted(InsertCode(g, ts[y], q))
  {
    if ts == [] || Accepted(InsertCode(g, ts[0], q)) then 0 else
      var x := FirstTaker(g, ts[1..], q);
      assert forall y :: 0 < y < |ts| ==> ts[y] == ts[1..][y - 1];
      x + 1
  }

  /** A killer at `kloc` is not kept for the check at index `i` of thread `k`: no thread takes it, or
      the first that does is the thread of the check, where it is harmless. */
  predicate KillerDropped(g: Graph, ts: seq<Trace>, k: nat, i: nat, kloc: Loc)
    requires k < |ts| && i < |ts[k]|
  {
    var q := Request(kloc, {GSet}, true, false, -1, -1);
    var x := FirstTaker(g, ts, q);
    x == |ts| ||
    (x == k && Harmless(g, Inserted(g, ts[k], q, kloc), Shifted(InsertCode(g, ts[k], q), i), Landing(g, ts[k], q)))
  }

  /** A killer at `kloc` dooms the check at index `i` of thread `k`: the first thread that takes it is that
      of the check, where it comes before the check, or is the check itself, and is not harmless. */
  predicate KillerFatal(g: Graph, ts: seq<Trace>, k: nat, i: nat, kloc: Loc)
    requires k < |ts| && i < |ts[k]|
  {
    var q := Request(kloc, {GSet}, true, false, -1, -1);
    && FirstTaker(g, ts, q) == k
    && Landing(g, ts[k], q) <= Shifted(InsertCode(g, ts[k], q), i)
    && !Harmless(g, Inserted(g, ts[k], q, kloc), Shifted(InsertCode(g, ts[k], q), i), Landing(g, ts[k], q))
  }

  lemma FatalIsNotDropped(g: Graph, ts: seq<Trace>, k: nat, i: nat, kloc: Loc)
    requires k < |ts| && i < |ts[k]| && KillerFatal(g, ts, k, i, kloc)
    ensures !KillerDropped(g, ts, k, i, kloc)
  {
    hide Harmless, FirstTaker, InsertCode, Inserted;
  }

  lemma BareHarmless<N>(g: Graph, s: seq<Ev<N>>, i: nat, j: nat)
    requires i < |s| && j < |s|
    ensures Harmless(g, Bare(s), i, j) <==> Harmless(g, s, i, j)
  {
    hide Dom;
  }

  lemma FirstTakerIs<N>(g: Graph, st: State<N>, q: Request, x: nat)
    requires q.start == -1 && q.stop == -1 && !q.dom && x <= |st|
    requires forall y :: 0 <= y < x ==> !Accepted(InsertCode(g, st[y], q))
    requires x < |st| ==> Accepted(InsertCode(g, st[x], q))
    ensures FirstTaker(g, TracesOf(st), q) == x
  {
    hide Reach, FreshCode, SameCode;
    forall y | 0 <= y < |st| ensures InsertCode(g, TracesOf(st)[y], q) == InsertCode(g, st[y], q) {
      BareInsert(g, st[y], q);
    }
  }

  /** Whether a check at `cloc`, in front of index `i` of thread `k`, comes to nothing: it does not fit,
      or none of its killers is kept. */
  predicate CheckVain(g: Graph, ts: seq<Trace>, k: nat, i: nat, cloc: Loc, klocs: seq<Loc>)
    requires k < |ts| && i < |ts[k]|
  {
    var q := Request(cloc, {GCheck}, true, false, i, -1);
    !Accepted(InsertCode(g, ts[k], q)) ||
    forall j :: 0 <= j < |klocs| ==>
      KillerDropped(g, ts[k := Inserted(g, ts[k], q, cloc)], k, Landing(g, ts[k], q), klocs[j])
  }

  /** The fate of a killer, asked of nodes and asked of traces. */
  lemma KillerByNodes<N>(g: Graph, st: State<N>, k: nat, i: nat, kloc: Loc, x: nat, n: N)
    requires var q := Request(kloc, {GSet}, true, false, -1, -1);
             && k < |st| && i < |st[k]| && x <= |st|
             && (forall y :: 0 <= y < x ==> !Accepted(InsertCode(g, st[y], q)))
             && (x < |st| ==> Accepted(InsertCode(g, st[x], q)))
    ensures var q := Request(kloc, {GSet}, true, false, -1, -1);
            KillerDropped(g, TracesOf(st), k, i, kloc) <==>
            (x == |st| || (x == k && Harmless(g, Inserted(g, st[k], q, n), Shifted(InsertCode(g, st[k], q), i),
                                              Landing(g, st[k], q))))
    ensures var q := Request(kloc, {GSet}, true, false, -1, -1);
            KillerFatal(g, TracesOf(st), k, i, kloc) <==>
            && x == k && Landing(g, st[k], q) <= Shifted(InsertCode(g, st[k], q), i)
            && !Harmless(g, Inserted(g, st[k], q, n), Shifted(InsertCode(g, st[k], q), i), Landing(g, st[k], q))
  {
    hide Reach, FreshCode, SameCode, Harmless;
    var q := Request(kloc, {GSet}, true, false, -1, -1);
    FirstTakerIs(g, st, q, x);
    if x == k {
      BareInsert(g, st[k], q);
      BareLanding(g, st[k], q);
      BareInserted(g, st[k], q, n);
      BareHarmless(g, Inserted(g, st[k], q, n), Shifted(InsertCode(g, st[k], q), i), Landing(g, st[k], q));
    }
  }

  // ---- when one location, and when two of them, fit a thread ---------------------------------------------

  /** The trace with `loc` at index `k`, unless it has it already. */
  function Put(t: Trace, loc: Loc, k: nat): Trace
    requires k <= |t|
  {
    if ThreadSpec.Has(t, loc) then t else t[..k] + [Ev(loc, loc, {})] + t[k..]
  }

  /** `loc` has its place at index `k`: it is there, or the trace stays in order when it gets there. */
  ghost predicate PlaceAt(g: Graph, t: Trace, loc: Loc, k: int) {
    0 <= k <= |t| && if ThreadSpec.Has(t, loc) then k < |t| && t[k].loc == loc else WellFormed(g, Put(t, loc, k))
  }

  lemma PlacedReach(g: Graph, t: Trace, loc: Loc, k: nat, j: nat)
    requires k <= |t| && j < |t| && WellFormed(g, t) && !ThreadSpec.Has(t, loc) && PlaceAt(g, t, loc, k)
    ensures if j < k then Reach(g, t[j].loc, loc, {}) else Reach(g, loc, t[j].loc, {})
  {
    hide Reach;
    var u := Put(t, loc, k);
    assert u[k].loc == loc && if j < k then u[j] == t[j] else u[j + 1] == t[j];
  }

  /** A location that may be merged is taken exactly if it has a place in the window. */
  lemma TakenMeans(g: Graph, t: Trace, q: Request)
    requires Fits(t, q) && WellFormed(g, t) && q.merge && !q.dom
    ensures Accepted(InsertCode(g, t, q)) <==> exists k :: PlaceAt(g, t, q.loc, k) && InWindow(q, k)
  {
    hide Reach, InsertCode;
    if ThreadSpec.Has(t, q.loc) {
      var k := IndexOf(t, q.loc);
      assert forall j :: PlaceAt(g, t, q.loc, j) <==> j == k;
      if q.start >= 0 && !Reach(g, t[q.start].loc, q.loc, {}) {
        UnreachedIsRefused(g, t, q, q.loc);
        assert !InWindow(q, k) || q.start == k;
      } else {
        PresentMeans(g, t, q, k, q.loc);
      }
    } else {
      InsertSucceedsIff(g, t, q);
      NewMeans(g, t, q, q.loc);
      if Accepted(InsertCode(g, t, q)) {
        LandsInPlace(g, t, q);
      }
      forall k | PlaceAt(g, t, q.loc, k) && InWindow(q, k) ensures Admissible(g, t, q) {
        forall j | 0 <= j < |t|
          ensures if j < k then Reach(g, t[j].loc, q.loc, {}) else Reach(g, q.loc, t[j].loc, {})
        {
          PlacedReach(g, t, q.loc, k, j);
        }
      }
    }
  }

  /** An accepted location lands in a place, and there is none before that in the window. */
  lemma LandsInPlace(g: Graph, t: Trace, q: Request)
    requires Fits(t, q) && WellFormed(g, t) && !q.dom && Accepted(InsertCode(g, t, q))
    ensures var k := Landing(g, t, q);
            && PlaceAt(g, t, q.loc, k) && InWindow(q, k) && k <= |t|
            && (forall j :: PlaceAt(g, t, q.loc, j) && InWindow(q, j) ==> k <= j)
  {
    hide Reach;
    var k := Landing(g, t, q);
    if ThreadSpec.Has(t, q.loc) {
      PresentMeans(g, t, q, k, q.loc);
    } else {
      NewMeans(g, t, q, q.loc);
      InsertPosition(g, t, q);
      SplicedIsWellFormed(g, t, k, Ev(q.loc, q.loc, {}));
      forall j | PlaceAt(g, t, q.loc, j) && InWindow(q, j) ensures k <= j {
        if j < k {
          PlacedReach(g, t, q.loc, j, j);
        }
      }
    }
  }

  /** Places do not depend on the types of a trace. */
  lemma PlacesAlike(g: Graph, t: Trace, u: Trace, loc: Loc, k: int)
    requires |t| == |u| && forall i :: 0 <= i < |t| ==> t[i].loc == u[i].loc
    ensures PlaceAt(g, t, loc, k) <==> PlaceAt(g, u, loc, k)
  {
    hide Reach;
    HasAlike(t, u, loc);
    if 0 <= k <= |t| {
      assert forall i :: 0 <= i < |Put(t, loc, k)| ==> Put(t, loc, k)[i].loc == Put(u, loc, k)[i].loc;
    }
  }

  lemma HasAlike(t: Trace, u: Trace, loc: Loc)
    requires |t| == |u| && forall i :: 0 <= i < |t| ==> t[i].loc == u[i].loc
    ensures ThreadSpec.Has(t, loc) <==> ThreadSpec.Has(u, loc)
  {
    if i :| 0 <= i < |t| && t[i].loc == loc {
      assert u[i].loc == loc;
    }
    if i :| 0 <= i < |u| && u[i].loc == loc {
      assert t[i].loc == loc;
    }
  }

  /** A second location keeps its place when the first one moves forward. */
  lemma SecondKeepsPlace(g: Graph, t: Trace, a: Loc, b: Loc, k0: nat, k: nat, m: nat)
    requires WellFormed(g, t) && PlaceAt(g, t, a, k0) && PlaceAt(g, t, a, k)
    requires k0 <= k < m && PlaceAt(g, Put(t, a, k), b, m)
    ensures PlaceAt(g, Put(t, a, k0), b, m)
  {
    hide Reach, Chain, Put;
    if ThreadSpec.Has(t, a) {
      SamePut(t, a, k0, k);
      return;
    }
    var u, u0 := Put(t, a, k), Put(t, a, k0);
    if ThreadSpec.Has(u, b) {
      KeepsPlacePresent(t, a, b, k0, k, m);
    } else {
      KeepsPlaceNew(g, t, a, b, k0, k, m);
    }
  }

  lemma SamePut(t: Trace, a: Loc, k0: nat, k: nat)
    requires k0 <= |t| && k <= |t| && ThreadSpec.Has(t, a)
    ensures Put(t, a, k0) == Put(t, a, k)
  {
  }

  /** Where an element of one trace is in the other. */
  lemma MovedBack(t: Trace, a: Loc, k0: nat, k: nat, i: nat) returns (j: nat)
    requires k0 <= k <= |t| && i <= |t| && !ThreadSpec.Has(t, a)
    ensures j <= |t| && |Put(t, a, k0)| == |Put(t, a, k)| == |t| + 1
    ensures Put(t, a, k)[j] == Put(t, a, k0)[i] && (i > k ==> j == i) && (i <= k ==> j <= k)
  {
    j := if i < k0 || i > k then i else if i == k0 then k else i - 1;
  }

  lemma KeepsPlacePresent(t: Trace, a: Loc, b: Loc, k0: nat, k: nat, m: nat)
    requires !ThreadSpec.Has(t, a) && k0 <= k <= |t| && k < m < |Put(t, a, k)| && Put(t, a, k)[m].loc == b
    ensures m < |Put(t, a, k0)| && Put(t, a, k0)[m].loc == b
  {
  }

  lemma KeepsPlaceNew(g: Graph, t: Trace, a: Loc, b: Loc, k0: nat, k: nat, m: nat)
    requires !ThreadSpec.Has(t, a) && k0 <= k <= |t| && k < m
    requires WellFormed(g, Put(t, a, k)) && WellFormed(g, Put(t, a, k0))
    requires !ThreadSpec.Has(Put(t, a, k), b) && PlaceAt(g, Put(t, a, k), b, m)
    ensures PlaceAt(g, Put(t, a, k0), b, m)
  {
    hide Reach, WellFormed;
    var u, u0 := Put(t, a, k), Put(t, a, k0);
    forall i | 0 <= i < |u0|
      ensures u0[i].loc != b && if i < m then Reach(g, u0[i].loc, b, {}) else Reach(g, b, u0[i].loc, {})
    {
      var j := MovedBack(t, a, k0, k, i);
      PlacedReach(g, u, b, m, j);
    }
    SplicedIsWellFormed(g, u0, m, Ev(b, b, {}));
  }

  /** The trace after an accepted insertion has the locations of the trace it was put in. */
  lemma InsertedIsPut(g: Graph, t: Trace, q: Request, k: nat)
    requires Fits(t, q) && Accepted(InsertCode(g, t, q)) && k == Landing(g, t, q)
    ensures var r, u := Inserted(g, t, q, q.loc), Put(t, q.loc, k);
            |r| == |u| && forall i :: 0 <= i < |r| ==> r[i].loc == u[i].loc
  {
    hide Reach, FreshCode, SameCode;
  }

  /** After an accepted insertion a second location is taken behind a start node exactly if the first one has a
      place with which the second has one behind it and behind the start node. */
  lemma SecondMeans(g: Graph, t: Trace, q: Request, p: Request)
    requires WellFormed(g, t) && Fits(t, q) && !q.dom && q.merge && Accepted(InsertCode(g, t, q))
    requires var r := Inserted(g, t, q, q.loc);
             Fits(r, p) && p.merge && !p.dom && p.stop == -1 && Landing(g, t, q) <= p.start
    ensures Accepted(InsertCode(g, Inserted(g, t, q, q.loc), p)) <==>
            exists k, m :: SecondAt(g, t, q, p, k, m)
  {
    hide Reach, InsertCode, Inserted, PlaceAt, WellFormed;
    var r, k0 := Inserted(g, t, q, q.loc), Landing(g, t, q);
    InsertKeepsWellFormed(g, t, q, q.loc);
    TakenMeans(g, r, p);
    LandsInPlace(g, t, q);
    InsertedIsPut(g, t, q, k0);
    if Accepted(InsertCode(g, r, p)) {
      var m :| PlaceAt(g, r, p.loc, m) && InWindow(p, m);
      PlacesAlike(g, r, Put(t, q.loc, k0), p.loc, m);
      assert SecondAt(g, t, q, p, k0, m);
    }
    if k, m :| SecondAt(g, t, q, p, k, m) {
      SecondKeepsPlace(g, t, q.loc, p.loc, k0, k, m);
      PlacesAlike(g, r, Put(t, q.loc, k0), p.loc, m);
    }
  }

  ghost predicate SecondAt(g: Graph, t: Trace, q: Request, p: Request, k: int, m: int) {
    && PlaceAt(g, t, q.loc, k) && 0 <= k <= |t| && InWindow(q, k) && k < m && p.start < m
    && PlaceAt(g, Put(t, q.loc, k), p.loc, m)
  }

  /** A CREATE and a JOIN event fit a thread exactly if there are places for both, in this order. */
  lemma SyncMeans(g: Graph, t: Trace, create: Loc, join: Loc)
    requires WellFormed(g, t)
    ensures SyncFits(g, t, create, join) <==>
            exists k, m :: 0 <= k <= |t| && k < m && PlaceAt(g, t, create, k) && PlaceAt(g, Put(t, create, k), join, m)
  {
    hide Reach, InsertCode, Inserted, PlaceAt, WellFormed;
    var q := Request(create, {TrCreate}, true, false, -1, -1);
    TakenMeans(g, t, q);
    if Accepted(InsertCode(g, t, q)) {
      var k0, p := Landing(g, t, q), Request(join, {TrJoin}, true, false, -1, Landing(g, t, q));
      LandsInPlace(g, t, q);
      InsertedIsPut(g, t, q, k0);
      SecondMeans(g, t, q, p);
      forall k, m | 0 <= k <= |t| && k < m && PlaceAt(g, t, create, k) && PlaceAt(g, Put(t, create, k), join, m)
        ensures SecondAt(g, t, q, p, k, m)
      {
        assert InWindow(q, k);
      }
    } else {
      assert forall k :: PlaceAt(g, t, create, k) ==> k < 0;
    }
  }

  /** A region fits around an event exactly if there is a place for the lock at or before the event, and with it
      one for the unlock after the event. */
  lemma RegionMeans(g: Graph, t: Trace, i: nat, lock: Loc, unlock: Loc)
    requires WellFormed(g, t) && i < |t|
    ensures RegionFits(g, t, i, lock, unlock) <==>
            exists k, m :: 0 <= k <= i && i + |Put(t, lock, k)| - |t| < m
                           && PlaceAt(g, t, lock, k) && PlaceAt(g, Put(t, lock, k), unlock, m)
  {
    hide Reach, InsertCode, Inserted, PlaceAt, WellFormed;
    var q := Request(lock, {Lock}, true, false, i, -1);
    TakenMeans(g, t, q);
    if Accepted(InsertCode(g, t, q)) {
      var k0, p := Landing(g, t, q), Request(unlock, {Unlock}, true, false, -1, Shifted(InsertCode(g, t, q), i));
      InsertedIsPut(g, t, q, k0);
      SecondMeans(g, t, q, p);
      forall k, m | 0 <= k <= i && i + |Put(t, lock, k)| - |t| < m
        && PlaceAt(g, t, lock, k) && PlaceAt(g, Put(t, lock, k), unlock, m)
        ensures SecondAt(g, t, q, p, k, m)
      {
        assert InWindow(q, k);
      }
    }
  }

  ghost predicate HasPlace(g: Graph, t: Trace, loc: Loc) {
    exists j :: PlaceAt(g, t, loc, j)
  }

  /** A check fits in front of index `i` exactly if it has a place up to there. */
  lemma CheckMeans(g: Graph, t: Trace, i: nat, cloc: Loc)
    requires WellFormed(g, t) && i < |t|
    ensures Accepted(InsertCode(g, t, Request(cloc, {GCheck}, true, false, i, -1))) <==>
            exists j :: j <= i && PlaceAt(g, t, cloc, j)
  {
    hide Reach, InsertCode, WellFormed;
    TakenMeans(g, t, Request(cloc, {GCheck}, true, false, i, -1));
  }

  /** A killer goes to the first thread that has a place for it; it dooms the check at index `i` of thread `k`
      exactly if that is thread `k`, it has a place there up to the check, and it is not harmless where it lands.
      It is dropped for want of a place exactly if no thread has one. */
  lemma KillerMeans(g: Graph, ts: seq<Trace>, k: nat, i: nat, kloc: Loc)
    requires k < |ts| && i < |ts[k]| && forall y :: 0 <= y < |ts| ==> WellFormed(g, ts[y])
    ensures var q := Request(kloc, {GSet}, true, false, -1, -1);
            KillerFatal(g, ts, k, i, kloc) <==>
            && (forall y :: 0 <= y < k ==> !HasPlace(g, ts[y], kloc))
            && (exists j :: j <= i && PlaceAt(g, ts[k], kloc, j))
            && Accepted(InsertCode(g, ts[k], q))
            && !Harmless(g, Inserted(g, ts[k], q, kloc), Shifted(InsertCode(g, ts[k], q), i), Landing(g, ts[k], q))
    ensures KillerDropped(g, ts, k, i, kloc) && HasPlace(g, ts[k], kloc) ==>
            forall y :: 0 <= y < k ==> !HasPlace(g, ts[y], kloc)
    ensures (forall y :: 0 <= y < |ts| ==> !HasPlace(g, ts[y], kloc)) ==> KillerDropped(g, ts, k, i, kloc)
    ensures KillerDropped(g, ts, k, i, kloc) && !HasPlace(g, ts[k], kloc) ==>
            forall y :: 0 <= y < |ts| ==> !HasPlace(g, ts[y], kloc)
  {
    hide Reach, WellFormed, FreshCode, SameCode, PlaceAt, Harmless;
    var q := Request(kloc, {GSet}, true, false, -1, -1);
    forall y | 0 <= y < |ts| ensures Accepted(InsertCode(g, ts[y], q)) <==> HasPlace(g, ts[y], kloc) {
      TakenMeans(g, ts[y], q);
      if j :| PlaceAt(g, ts[y], kloc, j) {
        PlaceIsIndex(g, ts[y], kloc, j);
        assert InWindow(q, j);
      }
    }
    if Accepted(InsertCode(g, ts[k], q)) {
      LandsInPlace(g, ts[k], q);
    }
    forall j | PlaceAt(g, ts[k], kloc, j) ensures InWindow(q, j) {
      PlaceIsIndex(g, ts[k], kloc, j);
    }
  }

  lemma PlaceIsIndex(g: Graph, t: Trace, loc: Loc, j: int)
    requires PlaceAt(g, t, loc, j)
    ensures 0 <= j <= |t|
  {
  }
}
