/** What one thread of a schedule holds, as a value, and what inserting into it and removing from
    it mean.  The class `Threads.Thread` is proved against these functions. */
module ThreadSpec {
  import opened Cfg

  datatype EvTy = Free | Use | Lock | Unlock | GSet | GCheck | Escape | Fetch | TrCreate | TrJoin

  /** The bits of a type mask; TY_DEF is the empty mask. */
  type Mask = set<EvTy>

  const TY_ALL: Mask := {Free, Use, Lock, Unlock, GSet, GCheck, Escape, Fetch, TrCreate, TrJoin}

  /** One location of a thread: which node object it is, where it is, what it is for. */
  datatype Ev<N> = Ev(node: N, loc: Loc, ty: Mask)

  predicate Has<N>(s: seq<Ev<N>>, loc: Loc) {
    exists i :: 0 <= i < |s| && s[i].loc == loc
  }

  function IndexOf<N>(s: seq<Ev<N>>, loc: Loc): (k: nat)
    requires Has(s, loc)
    ensures k < |s| && s[k].loc == loc && forall i :: 0 <= i < k ==> s[i].loc != loc
  {
    if s[0].loc == loc then 0 else
      assert Has(s[1..], loc) by {
        var i :| 0 <= i < |s| && s[i].loc == loc;
        assert s[1..][i - 1].loc == loc;
      }
      assert forall i :: 0 <= i < |s| - 1 ==> s[1..][i] == s[i + 1];
      1 + IndexOf(s[1..], loc)
  }

  predicate Distinct<N>(s: seq<Ev<N>>) {
    forall i, j :: 0 <= i < j < |s| ==> s[i].loc != s[j].loc
  }

  /** Every earlier location can reach every later one. */
  predicate Chain<N>(g: Graph, s: seq<Ev<N>>) {
    forall i, j :: 0 <= i < j < |s| ==> Reach(g, s[i].loc, s[j].loc, {})
  }

  predicate WellFormed<N>(g: Graph, s: seq<Ev<N>>) {
    Distinct(s) && Chain(g, s)
  }

  /** The first index of `[i, hi)` that `loc` can be put in front of, or that rules `loc` out. */
  function Slot<N>(g: Graph, s: seq<Ev<N>>, loc: Loc, i: nat, hi: nat): (k: nat)
    requires i <= hi <= |s|
    ensures i <= k <= hi
    ensures forall j :: i <= j < k ==> Reach(g, s[j].loc, loc, {}) && !Reach(g, loc, s[j].loc, {})
    ensures k < hi ==> Reach(g, loc, s[k].loc, {}) || !Reach(g, s[k].loc, loc, {})
    decreases hi - i
  {
    if i == hi || Reach(g, loc, s[i].loc, {}) || !Reach(g, s[i].loc, loc, {}) then i
    else Slot(g, s, loc, i + 1, hi)
  }

  /** Whether control flow cannot get around `loc` at index `i`. */
  predicate Inevitable<N>(g: Graph, s: seq<Ev<N>>, loc: Loc, i: nat)
    requires i <= |s|
  {
    if i < |s| then
      if i == 0 then Dom(g, loc, s[0].loc, true) else !Reach(g, s[i - 1].loc, s[i].loc, {loc})
    else
      |s| == 0 || PostDom(g, loc, s[|s| - 1].loc, true)
  }

  /** A request to insert; `stop` and `start` are indices, -1 where the caller gives none. */
  datatype Request = Request(loc: Loc, ty: Mask, merge: bool, dom: bool, stop: int, start: int)

  predicate Fits<N>(s: seq<Ev<N>>, q: Request) {
    -1 <= q.stop < |s| && -1 <= q.start < |s|
  }

  const REJECTED := -1
  const PRESENT := -2
  const MERGED := -3
  const OTHER := -4
  const AVOIDABLE := -5
  const PASSED := -6

  /** One past the last index the search may look at. */
  function Limit<N>(s: seq<Ev<N>>, q: Request): (hi: nat)
    requires Fits(s, q)
    ensures hi <= |s|
  {
    if q.stop >= 0 then q.stop + 1 else |s|
  }

  /** The answer when index `i` already holds the location. */
  function SameCode<N>(s: seq<Ev<N>>, q: Request, i: nat): (ec: int)
    requires Fits(s, q) && i < |s|
    ensures ec < 0
  {
    if i >= Limit(s, q) || i <= q.start then PASSED
    else if s[i].ty * q.ty != {} then PRESENT
    else if q.merge then MERGED
    else OTHER
  }

  /** The answer when the location is not in the thread yet. */
  function FreshCode<N>(g: Graph, s: seq<Ev<N>>, q: Request): (ec: int)
    requires Fits(s, q)
    ensures ec <= |s|
    ensures ec < 0 ==> !Accepted(ec)
  {
    var hi := Limit(s, q);
    var k := if q.start + 1 < hi then Slot(g, s, q.loc, q.start + 1, hi) else hi;
    if k < hi then
      if !Reach(g, q.loc, s[k].loc, {}) then REJECTED
      else if q.dom && !Inevitable(g, s, q.loc, k) then AVOIDABLE
      else k
    else if q.stop >= 0 then PASSED
    else if q.dom && !Inevitable(g, s, q.loc, |s|) then AVOIDABLE
    else |s|
  }

  /** The error code of Thread::insertLoc; a natural number is the index of a new node. */
  function InsertCode<N>(g: Graph, s: seq<Ev<N>>, q: Request): (ec: int)
    requires Fits(s, q)
    ensures ec <= |s|
    ensures ec >= 0 ==> !Has(s, q.loc)
    ensures ec == PRESENT || ec == MERGED ==> Has(s, q.loc)
  {
    if q.start >= 0 && !Reach(g, s[q.start].loc, q.loc, {}) then PASSED
    else if Has(s, q.loc) then SameCode(s, q, IndexOf(s, q.loc))
    else FreshCode(g, s, q)
  }

  /** Whether the call hands back a node, new or already there. */
  predicate Accepted(ec: int) {
    ec >= 0 || ec == PRESENT || ec == MERGED
  }

  function Inserted<N>(g: Graph, s: seq<Ev<N>>, q: Request, n: N): (r: seq<Ev<N>>)
    requires Fits(s, q)
  {
    var ec := InsertCode(g, s, q);
    if ec >= 0 then s[..ec] + [Ev(n, q.loc, q.ty)] + s[ec..]
    else if ec == MERGED then
      var i := IndexOf(s, q.loc);
      s[i := s[i].(ty := s[i].ty + q.ty)]
    else s
  }

  /** Clear `ty` at index `k`, and drop the node once no bit is left. */
  function Removed<N>(s: seq<Ev<N>>, k: nat, ty: Mask): (r: seq<Ev<N>>)
    requires k < |s|
  {
    if s[k].ty - ty == {} then s[..k] + s[k + 1..] else s[k := s[k].(ty := s[k].ty - ty)]
  }

  // ---- insertion keeps a thread well formed -------------------------------------------------

  /** Everything before the chosen index reaches the new location, which reaches the rest. */
  lemma InsertPosition<N>(g: Graph, s: seq<Ev<N>>, q: Request)
    requires Fits(s, q) && WellFormed(g, s)
    requires InsertCode(g, s, q) >= 0
    ensures var k := InsertCode(g, s, q);
            && !Has(s, q.loc)
            && q.start < k <= |s| && (q.stop >= 0 ==> k <= q.stop)
            && (forall j :: 0 <= j < k ==> Reach(g, s[j].loc, q.loc, {}))
            && (forall j :: k <= j < |s| ==> Reach(g, q.loc, s[j].loc, {}))
            && (forall j :: q.start < j < k ==> !Reach(g, q.loc, s[j].loc, {}))
            && (q.dom ==> Inevitable(g, s, q.loc, k))
  {
    var k := InsertCode(g, s, q);
    forall j | 0 <= j < k && j <= q.start ensures Reach(g, s[j].loc, q.loc, {}) {
      if j < q.start {
        ReachTransitive(g, s[j].loc, s[q.start].loc, q.loc);
      }
    }
    forall j | k <= j < |s| ensures Reach(g, q.loc, s[j].loc, {}) {
      if j > k {
        ReachTransitive(g, q.loc, s[k].loc, s[j].loc);
      }
    }
  }

  lemma SplicedIsWellFormed<N>(g: Graph, s: seq<Ev<N>>, k: nat, e: Ev<N>)
    requires WellFormed(g, s) && k <= |s| && !Has(s, e.loc)
    requires forall j :: 0 <= j < k ==> Reach(g, s[j].loc, e.loc, {})
    requires forall j :: k <= j < |s| ==> Reach(g, e.loc, s[j].loc, {})
    ensures WellFormed(g, s[..k] + [e] + s[k..])
  {
    var r := s[..k] + [e] + s[k..];
    forall i, j | 0 <= i < j < |r|
      ensures r[i].loc != r[j].loc && Reach(g, r[i].loc, r[j].loc, {})
    {
      assert r[i] == if i < k then s[i] else if i == k then e else s[i - 1];
      assert r[j] == if j < k then s[j] else if j == k then e else s[j - 1];
    }
  }

  lemma InsertKeepsWellFormed<N>(g: Graph, s: seq<Ev<N>>, q: Request, n: N)
    requires Fits(s, q) && WellFormed(g, s)
    ensures WellFormed(g, Inserted(g, s, q, n))
  {
    var k := InsertCode(g, s, q);
    if k >= 0 {
      InsertPosition(g, s, q);
      SplicedIsWellFormed(g, s, k, Ev(n, q.loc, q.ty));
    }
  }

  predicate Comparable(g: Graph, a: Loc, b: Loc) {
    Reach(g, a, b, {}) || Reach(g, b, a, {})
  }

  /** When a location that is not there yet gets in: it must be comparable with everything in the
      window, reach the stop location and be reached from the start location. */
  ghost predicate Admissible<N>(g: Graph, s: seq<Ev<N>>, q: Request)
    requires Fits(s, q)
  {
    && (q.start >= 0 ==> Reach(g, s[q.start].loc, q.loc, {}))
    && (q.stop >= 0 ==> q.start < q.stop && Reach(g, q.loc, s[q.stop].loc, {}))
    && (forall j :: q.start < j < |s| && (q.stop >= 0 ==> j <= q.stop) ==> Comparable(g, q.loc, s[j].loc))
  }

  lemma InsertSucceedsIff<N>(g: Graph, s: seq<Ev<N>>, q: Request)
    requires Fits(s, q) && WellFormed(g, s) && !Has(s, q.loc) && !q.dom
    ensures InsertCode(g, s, q) >= 0 <==> Admissible(g, s, q)
  {
    if InsertCode(g, s, q) >= 0 {
      InsertPosition(g, s, q);
    } else if q.start < 0 || Reach(g, s[q.start].loc, q.loc, {}) {
      var hi := if q.stop >= 0 then q.stop + 1 else |s|;
      if q.start + 1 < hi {
        var k := Slot(g, s, q.loc, q.start + 1, hi);
        if k < hi {
          assert !Reach(g, q.loc, s[k].loc, {});
          assert !Comparable(g, q.loc, s[k].loc);
        } else {
          assert !Reach(g, q.loc, s[hi - 1].loc, {});
        }
      }
    }
  }

  /** Index `k` lies behind the start node and not behind the stop node. */
  predicate InWindow(q: Request, k: int) {
    q.start < k && (q.stop >= 0 ==> k <= q.stop)
  }

  /** What becomes of a location that is there already, at index `k`, when the start node reaches it: it
      is accepted exactly if it lies in the window and has a type of the request or may be merged; it is
      merged exactly if it has none.  The node then holds its own types and those of the request; in all
      other cases, and at all other places, nothing changes. */
  lemma PresentMeans<N>(g: Graph, s: seq<Ev<N>>, q: Request, k: nat, n: N)
    requires Fits(s, q) && Distinct(s) && k < |s| && s[k].loc == q.loc
    requires q.start >= 0 ==> Reach(g, s[q.start].loc, q.loc, {})
    ensures Accepted(InsertCode(g, s, q)) <==>
            InWindow(q, k) && (q.merge || exists x :: x in s[k].ty && x in q.ty)
    ensures InsertCode(g, s, q) == -3 <==>
            InWindow(q, k) && q.merge && forall x :: x in s[k].ty ==> x !in q.ty
    ensures InsertCode(g, s, q) == -2 <==> InWindow(q, k) && exists x :: x in s[k].ty && x in q.ty
    ensures InsertCode(g, s, q) == -6 <==> !InWindow(q, k)
    ensures InsertCode(g, s, q) < 0
    ensures |Inserted(g, s, q, n)| == |s| && forall j :: 0 <= j < |s| && j != k ==> Inserted(g, s, q, n)[j] == s[j]
    ensures var e := Inserted(g, s, q, n)[k];
            && e.node == s[k].node && e.loc == q.loc
            && forall x :: x in e.ty <==> x in s[k].ty || (x in q.ty && InsertCode(g, s, q) == -3)
  {
    hide Reach;
    assert Has(s, q.loc);
    assert IndexOf(s, q.loc) == k;
    if x :| x in s[k].ty && x in q.ty {
      assert x in s[k].ty * q.ty;
    }
    if x :| x in s[k].ty * q.ty {
      assert x in s[k].ty && x in q.ty;
    }
  }

  /** A location that the start node does not reach is refused, there or not. */
  lemma UnreachedIsRefused<N>(g: Graph, s: seq<Ev<N>>, q: Request, n: N)
    requires Fits(s, q) && q.start >= 0 && !Reach(g, s[q.start].loc, q.loc, {})
    ensures InsertCode(g, s, q) == -6 && Inserted(g, s, q, n) == s
  {
  }

  /** A new node goes in at the index of the answer, with the types of the request. */
  lemma NewMeans<N>(g: Graph, s: seq<Ev<N>>, q: Request, n: N)
    requires Fits(s, q) && !Has(s, q.loc)
    ensures var k, r := InsertCode(g, s, q), Inserted(g, s, q, n);
            if k < 0 then r == s && k in {-1, -5, -6}
            else |r| == |s| + 1 && r[k] == Ev(n, q.loc, q.ty) && r[..k] == s[..k] && r[k + 1..] == s[k..]
  {
    hide Reach;
  }

  /** Whether a node gets a mark: the one an accepted request with a single type hands back holds it. */
  lemma AcceptedCarries<N>(g: Graph, s: seq<Ev<N>>, q: Request, n: N, ty: EvTy)
    requires Fits(s, q) && Accepted(InsertCode(g, s, q)) && q.ty == {ty}
    ensures var r, k := Inserted(g, s, q, n), Landing(g, s, q); k < |r| && r[k].loc == q.loc && ty in r[k].ty
  {
    hide Reach, FreshCode;
  }

  /** Control flow cannot get past the place of index `i` without meeting `loc`: not from the entry to the
      first location, not from one location to the next, and not from the last one to an exit. */
  ghost predicate Unavoidable<N>(g: Graph, s: seq<Ev<N>>, loc: Loc, i: nat)
    requires i <= |s|
  {
    if i == |s| then |s| == 0 || forall p :: LeavesThrough(g, p, s[|s| - 1].loc) ==> loc in p
    else forall p :: IsPath(g, p, {}) && Joins(p, if i == 0 then g.entry else s[i - 1].loc, s[i].loc) ==> loc in p
  }

  lemma BetweenMeaning(g: Graph, l: Loc, a: Loc, b: Loc)
    requires l != a && l != b
    ensures !Reach(g, a, b, {l}) <==> forall p :: IsPath(g, p, {}) && Joins(p, a, b) ==> l in p
  {
    ReachIffPath(g, a, b, {l});
    if Reach(g, a, b, {l}) {
      var p :| IsPath(g, p, {l}) && Joins(p, a, b);
      assert IsPath(g, p, {}) && l !in p;
    }
    forall p | IsPath(g, p, {}) && Joins(p, a, b) && l !in p ensures Reach(g, a, b, {l}) {
      assert IsPath(g, p, {l});
    }
  }

  /** What the three tests for an inevitable location come to. */
  lemma InevitableMeaning<N>(g: Graph, s: seq<Ev<N>>, loc: Loc, i: nat)
    requires i <= |s| && !Has(s, loc)
    ensures Inevitable(g, s, loc, i) <==> Unavoidable(g, s, loc, i)
  {
    hide Reach, IsPath, Joins, LeavesThrough;
    if i < |s| {
      assert s[i].loc != loc;
      if i == 0 {
        DomMeaning(g, loc, s[0].loc);
      } else {
        assert s[i - 1].loc != loc;
        BetweenMeaning(g, loc, s[i - 1].loc, s[i].loc);
      }
    } else if |s| > 0 {
      assert s[|s| - 1].loc != loc;
      PostDomMeaning(g, loc, s[|s| - 1].loc);
    }
  }

  /** Asking for an inevitable location only ever turns an insertion into a refusal: a new location is
      taken at the same place if no path gets around it there, and refused if one does. */
  lemma InevitableInsertIff<N>(g: Graph, s: seq<Ev<N>>, q: Request)
    requires Fits(s, q) && q.dom && !Has(s, q.loc)
    ensures var ec := InsertCode(g, s, q.(dom := false));
            && (Accepted(InsertCode(g, s, q)) <==> ec >= 0 && Unavoidable(g, s, q.loc, ec))
            && (Accepted(InsertCode(g, s, q)) ==> InsertCode(g, s, q) == ec)
  {
    hide Reach, Unavoidable, Inevitable;
    var q' := q.(dom := false);
    assert Limit(s, q') == Limit(s, q);
    var ec := InsertCode(g, s, q');
    if ec >= 0 {
      InevitableMeaning(g, s, q.loc, ec);
    }
  }

  // ---- removal and rollback -------------------------------------------------------------------

  lemma RemoveKeepsWellFormed<N>(g: Graph, s: seq<Ev<N>>, k: nat, ty: Mask)
    requires k < |s| && WellFormed(g, s)
    ensures WellFormed(g, Removed(s, k, ty))
  {
    var r := Removed(s, k, ty);
    if s[k].ty - ty == {} {
      assert forall i :: 0 <= i < |r| ==> r[i] == if i < k then s[i] else s[i + 1];
    }
  }

  /** The index of the node an accepted insertion hands back. */
  function Landing<N>(g: Graph, s: seq<Ev<N>>, q: Request): (k: nat)
    requires Fits(s, q) && Accepted(InsertCode(g, s, q))
    ensures q.start < k
    ensures InsertCode(g, s, q) >= 0 ==> k <= |s|
    ensures InsertCode(g, s, q) < 0 ==> k < |s| && s[k].loc == q.loc
    ensures q.stop >= 0 ==> k <= q.stop
  {
    var ec := InsertCode(g, s, q);
    if ec >= 0 then ec else IndexOf(s, q.loc)
  }

  lemma AddThenClear(a: Mask, b: Mask)
    requires a * b == {}
    ensures (a + b) - b == a
  {
    assert forall x :: x in a && x in b ==> x in a * b;
  }

  /** Undoing an insertion restores the thread exactly, unless the insertion added its bits to a
      node that had none: that node is dropped. */
  lemma RollbackIff<N>(g: Graph, s: seq<Ev<N>>, q: Request, n: N)
    requires Fits(s, q) && Accepted(InsertCode(g, s, q)) && InsertCode(g, s, q) != PRESENT
    ensures var k := Landing(g, s, q);
            Removed(Inserted(g, s, q, n), k, q.ty) == s
            <==> !(InsertCode(g, s, q) == MERGED && s[k].ty == {})
  {
    var k := Landing(g, s, q);
    var r := Inserted(g, s, q, n);
    var t := Removed(r, k, q.ty);
    if InsertCode(g, s, q) >= 0 {
      assert r[..k] == s[..k] && r[k + 1..] == s[k..];
      assert s[..k] + s[k..] == s;
    } else if s[k].ty == {} {
      assert |t| == |s| - 1;
    } else {
      AddThenClear(s[k].ty, q.ty);
      assert t == s[k := s[k]];
    }
  }

  /** The failing case, as a property of a thread alone: a bare location, as Thread::testLocInSeq leaves
      one, loses its place to a lock that is merged into it and rolled back.  No schedule holds a bare
      location, so no build comes to this. */
  lemma RollbackCanDropANode(g: Graph, l: Loc)
    ensures var s := [Ev(0, l, {})];
            var q := Request(l, {Lock}, true, false, -1, -1);
            && WellFormed(g, s)
            && InsertCode(g, s, q) == MERGED
            && Removed(Inserted(g, s, q, 1), 0, {Lock}) == []
  {
    var s := [Ev(0, l, {})];
    assert s[0].loc == l && Has(s, l);
  }
}
