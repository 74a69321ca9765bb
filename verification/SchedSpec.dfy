/** A schedule as a value, one sequence of locations per thread, and what its solutions mean. */
module SchedSpec {
  import opened Cfg
  import opened ThreadSpec
  import opened Constraints

  type State<N> = seq<seq<Ev<N>>>

  ghost predicate Holding<N>(s: seq<Ev<N>>, n: N) {
    exists i :: 0 <= i < |s| && s[i].node == n
  }

  /** `n` is a node of one of the threads. */
  ghost predicate In<N>(st: State<N>, n: N) {
    exists t :: 0 <= t < |st| && Holding(st[t], n)
  }

  ghost predicate Unique<N>(s: seq<Ev<N>>) {
    forall i, j :: 0 <= i < j < |s| ==> s[i].node != s[j].node
  }

  ghost predicate Before<N>(s: seq<Ev<N>>, a: N, b: N) {
    exists i, j :: 0 <= i < j < |s| && s[i].node == a && s[j].node == b
  }

  ghost predicate NotAfter<N>(s: seq<Ev<N>>, a: N, b: N) {
    Before(s, a, b) || (a == b && Holding(s, a))
  }

  lemma NotAfterHolds<N>(s: seq<Ev<N>>, a: N, b: N)
    requires NotAfter(s, a, b)
    ensures Holding(s, a) && Holding(s, b)
  {
  }

  // ---- growth --------------------------------------------------------------------------------

  ghost predicate Carries<N>(s: seq<Ev<N>>, e: Ev<N>) {
    exists i :: 0 <= i < |s| && s[i].node == e.node && s[i].loc == e.loc && e.ty <= s[i].ty
  }

  /** `r` still has every node of `s`, with at least its types, in the same relative order. */
  ghost predicate GrownSeq<N>(s: seq<Ev<N>>, r: seq<Ev<N>>) {
    && (forall i :: 0 <= i < |s| ==> Carries(r, s[i]))
    && (forall i, j :: 0 <= i < j < |s| ==> Before(r, s[i].node, s[j].node))
  }

  /** Threads are only ever added to, and only ever appended. */
  ghost predicate Grown<N>(st: State<N>, st': State<N>) {
    |st| <= |st'| && forall t :: 0 <= t < |st| ==> GrownSeq(st[t], st'[t])
  }

  lemma GrownSeqRefl<N>(s: seq<Ev<N>>)
    ensures GrownSeq(s, s)
  {
  }

  lemma GrownSeqBefore<N>(s: seq<Ev<N>>, r: seq<Ev<N>>, a: N, b: N)
    requires GrownSeq(s, r)
    ensures Before(s, a, b) ==> Before(r, a, b)
    ensures Holding(s, a) ==> Holding(r, a)
    ensures NotAfter(s, a, b) ==> NotAfter(r, a, b)
  {
    if Holding(s, a) {
      var i :| 0 <= i < |s| && s[i].node == a;
      assert Carries(r, s[i]);
    }
  }

  lemma GrownSeqTrans<N>(a: seq<Ev<N>>, b: seq<Ev<N>>, c: seq<Ev<N>>)
    requires GrownSeq(a, b) && GrownSeq(b, c)
    ensures GrownSeq(a, c)
  {
    forall i | 0 <= i < |a| ensures Carries(c, a[i]) {
      assert Carries(b, a[i]);
      var k :| 0 <= k < |b| && b[k].node == a[i].node && b[k].loc == a[i].loc && a[i].ty <= b[k].ty;
      assert Carries(c, b[k]);
    }
    forall i, j | 0 <= i < j < |a| ensures Before(c, a[i].node, a[j].node) {
      assert Before(b, a[i].node, a[j].node);
      GrownSeqBefore(b, c, a[i].node, a[j].node);
    }
  }

  lemma GrownRefl<N>(st: State<N>)
    ensures Grown(st, st)
  {
    forall t | 0 <= t < |st| ensures GrownSeq(st[t], st[t]) { GrownSeqRefl(st[t]); }
  }

  lemma GrownTrans<N>(a: State<N>, b: State<N>, c: State<N>)
    requires Grown(a, b) && Grown(b, c)
    ensures Grown(a, c)
  {
    forall t | 0 <= t < |a| ensures GrownSeq(a[t], c[t]) { GrownSeqTrans(a[t], b[t], c[t]); }
  }

  lemma GrownIn<N>(st: State<N>, st': State<N>, n: N)
    requires Grown(st, st') && In(st, n)
    ensures In(st', n)
  {
    var t :| 0 <= t < |st| && Holding(st[t], n);
    GrownSeqBefore(st[t], st'[t], n, n);
  }

  lemma SplicedGrows<N>(s: seq<Ev<N>>, k: nat, e: Ev<N>)
    requires k <= |s|
    ensures GrownSeq(s, s[..k] + [e] + s[k..])
  {
    var r := s[..k] + [e] + s[k..];
    forall i | 0 <= i < |s| ensures Carries(r, s[i]) {
      assert r[if i < k then i else i + 1] == s[i];
    }
    forall i, j | 0 <= i < j < |s| ensures Before(r, s[i].node, s[j].node) {
      assert r[if i < k then i else i + 1] == s[i] && r[if j < k then j else j + 1] == s[j];
    }
  }

  lemma MergedGrows<N>(s: seq<Ev<N>>, k: nat, ty: Mask)
    requires k < |s|
    ensures GrownSeq(s, s[k := s[k].(ty := s[k].ty + ty)])
  {
    var r := s[k := s[k].(ty := s[k].ty + ty)];
    assert forall i :: 0 <= i < |s| ==> r[i].node == s[i].node && r[i].loc == s[i].loc && s[i].ty <= r[i].ty;
    forall i, j | 0 <= i < j < |s| ensures Before(r, s[i].node, s[j].node) {
      assert r[i].node == s[i].node && r[j].node == s[j].node;
    }
  }

  /** Insertion, whatever its answer, only makes a thread grow. */
  lemma InsertGrows<N>(g: Graph, s: seq<Ev<N>>, q: Request, n: N)
    requires Fits(s, q)
    ensures GrownSeq(s, Inserted(g, s, q, n))
  {
    hide Reach;
    var k := InsertCode(g, s, q);
    if k >= 0 {
      SplicedGrows(s, k, Ev(n, q.loc, q.ty));
    } else if k == MERGED {
      MergedGrows(s, IndexOf(s, q.loc), q.ty);
    } else {
      GrownSeqRefl(s);
    }
  }

  /** Where an accepted location ends up: not behind the stop location, behind the start one. */
  lemma InsertPlaces<N>(g: Graph, s: seq<Ev<N>>, q: Request, n: N)
    requires Fits(s, q) && Accepted(InsertCode(g, s, q))
    ensures var r := Inserted(g, s, q, n);
            var k := Landing(g, s, q);
            && k < |r|
            && r[k].loc == q.loc
            && (q.stop >= 0 ==> NotAfter(r, r[k].node, s[q.stop].node))
            && (q.start >= 0 ==> Before(r, s[q.start].node, r[k].node))
            && (InsertCode(g, s, q) != PRESENT ==> q.ty <= r[k].ty)
            && (InsertCode(g, s, q) == PRESENT ==> q.ty * r[k].ty != {})
            && (InsertCode(g, s, q) >= 0 ==> r[k].node == n)
            && (InsertCode(g, s, q) < 0 ==> r[k].node == s[k].node)
  {
    hide Reach;
    var r := Inserted(g, s, q, n);
    var k := Landing(g, s, q);
    if InsertCode(g, s, q) >= 0 {
      assert forall i :: 0 <= i < |r| ==>
             r[i] == if i < k then s[i] else if i == k then Ev(n, q.loc, q.ty) else s[i - 1];
    } else {
      assert forall i :: 0 <= i < |r| ==> r[i].node == s[i].node;
    }
    if q.stop >= 0 {
      assert r[if InsertCode(g, s, q) >= 0 then q.stop + 1 else q.stop].node == s[q.stop].node;
    }
    if q.start >= 0 {
      assert r[q.start].node == s[q.start].node;
    }
  }

  /** The node is there, and for this among other things. */
  ghost predicate Marked<N>(s: seq<Ev<N>>, n: N, ty: EvTy) {
    exists i :: 0 <= i < |s| && s[i].node == n && ty in s[i].ty
  }

  lemma GrownMarked<N>(s: seq<Ev<N>>, r: seq<Ev<N>>, n: N, ty: EvTy)
    requires GrownSeq(s, r) && Marked(s, n, ty)
    ensures Marked(r, n, ty)
  {
    var i :| 0 <= i < |s| && s[i].node == n && ty in s[i].ty;
    assert Carries(r, s[i]);
  }

  ghost predicate TypedSeq<N>(s: seq<Ev<N>>) {
    forall i :: 0 <= i < |s| ==> s[i].ty != {}
  }

  lemma InsertKeepsTyped<N>(g: Graph, s: seq<Ev<N>>, q: Request, n: N)
    requires Fits(s, q) && TypedSeq(s) && q.ty != {}
    ensures TypedSeq(Inserted(g, s, q, n))
  {
    hide InsertCode;
    var k := InsertCode(g, s, q);
    var r := Inserted(g, s, q, n);
    forall i | 0 <= i < |r| ensures r[i].ty != {} {
      if k < 0 {
        assert s[i].ty <= r[i].ty;
      } else if i != k {
        assert r[i] == s[if i < k then i else i - 1];
      }
    }
  }

  /** All of the above about one thread of a state. */
  lemma InsertInState<N>(g: Graph, st: State<N>, k: nat, q: Request, n: N)
    requires k < |st| && Fits(st[k], q) && Typed(st) && q.ty != {}
    ensures Grown(st, st[k := Inserted(g, st[k], q, n)])
    ensures Typed(st[k := Inserted(g, st[k], q, n)])
  {
    hide Reach;
    InsertGrows(g, st[k], q, n);
    InsertKeepsTyped(g, st[k], q, n);
    GrownRefl(st);
  }

  // ---- what is kept all along a build --------------------------------------------------------

  /** Two nodes of one thread, the first before the second, that are there for this and for that. */
  ghost predicate PairIn<N>(st: State<N>, a: N, b: N, ta: EvTy, tb: EvTy) {
    exists t :: 0 <= t < |st| && Before(st[t], a, b) && Marked(st[t], a, ta) && Marked(st[t], b, tb)
  }

  lemma GrownPairIn<N>(st: State<N>, st': State<N>, a: N, b: N, ta: EvTy, tb: EvTy)
    requires Grown(st, st') && PairIn(st, a, b, ta, tb)
    ensures PairIn(st', a, b, ta, tb)
  {
    hide GrownSeq, Before, Marked;
    var t :| 0 <= t < |st| && Before(st[t], a, b) && Marked(st[t], a, ta) && Marked(st[t], b, tb);
    GrownSeqBefore(st[t], st'[t], a, b);
    GrownMarked(st[t], st'[t], a, ta);
    GrownMarked(st[t], st'[t], b, tb);
  }

  /** A critical region: its lock node comes before its unlock node in one thread. */
  ghost predicate RegionIn<N>(st: State<N>, p: (N, N)) {
    PairIn(st, p.0, p.1, Lock, Unlock)
  }

  /** The node is in some thread, and for this among other things. */
  ghost predicate MarkedIn<N>(st: State<N>, n: N, ty: EvTy) {
    exists t :: 0 <= t < |st| && Marked(st[t], n, ty)
  }

  lemma GrownMarkedIn<N>(st: State<N>, st': State<N>, n: N, ty: EvTy)
    requires Grown(st, st') && MarkedIn(st, n, ty)
    ensures MarkedIn(st', n, ty) && In(st', n)
  {
    var t :| 0 <= t < |st| && Marked(st[t], n, ty);
    GrownMarked(st[t], st'[t], n, ty);
    assert Holding(st'[t], n);
  }

  ghost predicate Typed<N>(st: State<N>) {
    forall t :: 0 <= t < |st| ==> TypedSeq(st[t])
  }

  ghost predicate Known<N>(st: State<N>, cs: seq<Clause<N>>) {
    forall c, d :: 0 <= c < |cs| && 0 <= d < |cs[c]| ==> In(st, cs[c][d].0) && In(st, cs[c][d].1)
  }

  /** Every node has a type; every node a constraint names, and every recorded region, is in place. */
  ghost predicate Sound<N, L(!new)>(st: State<N>, cs: seq<Clause<N>>, locks: map<L, set<(N, N)>>) {
    && Typed(st)
    && Known(st, cs)
    && (forall l, p :: l in locks && p in locks[l] ==> RegionIn(st, p))
  }

  lemma GrownSound<N, L(!new)>(st: State<N>, st': State<N>, cs: seq<Clause<N>>, locks: map<L, set<(N, N)>>)
    requires Sound(st, cs, locks) && Grown(st, st') && Typed(st')
    ensures Sound(st', cs, locks)
  {
    forall c, d | 0 <= c < |cs| && 0 <= d < |cs[c]| ensures In(st', cs[c][d].0) && In(st', cs[c][d].1) {
      GrownIn(st, st', cs[c][d].0);
      GrownIn(st, st', cs[c][d].1);
    }
    forall l, p | l in locks && p in locks[l] ensures RegionIn(st', p) {
      assert RegionIn(st, p);
      GrownPairIn(st, st', p.0, p.1, Lock, Unlock);
    }
  }

  lemma SoundIsTyped<N, L(!new)>(st: State<N>, cs: seq<Clause<N>>, locks: map<L, set<(N, N)>>)
    requires Sound(st, cs, locks)
    ensures Typed(st)
  {
  }

  lemma KnownAppend<N>(st: State<N>, cs: seq<Clause<N>>, ds: seq<Clause<N>>)
    requires Known(st, cs) && Known(st, ds)
    ensures Known(st, cs + ds)
  {
  }

  lemma OrderIsSound<N, L(!new)>(st: State<N>, cs: seq<Clause<N>>, locks: map<L, set<(N, N)>>, a: N, b: N)
    requires Sound(st, cs, locks) && In(st, a) && In(st, b)
    ensures Sound(st, cs + OrderClauses(Some(a), Some(b)), locks)
  {
    KnownAppend(st, cs, OrderClauses(Some(a), Some(b)));
  }

  lemma RegionAround<N>(s: seq<Ev<N>>, lk: N, n: N, uk: N)
    requires Unique(s) && NotAfter(s, lk, n) && Before(s, n, uk)
    ensures Before(s, lk, uk) && Holding(s, lk) && Holding(s, uk)
  {
  }

  lemma RegionIsSound<N, L(!new)>(st: State<N>, cs: seq<Clause<N>>, locks: map<L, set<(N, N)>>, l: L, k: nat, p: (N, N))
    requires Sound(st, cs, locks) && k < |st| && Before(st[k], p.0, p.1)
    requires Marked(st[k], p.0, Lock) && Marked(st[k], p.1, Unlock)
    ensures Sound(st, cs, locks[l := (if l in locks then locks[l] else {}) + {p}])
  {
    assert RegionIn(st, p);
  }

  // ---- what a solution means -----------------------------------------------------------------

  /** The natural order inside each thread is recorded, as far as neighbours go. */
  ghost predicate ThreadOrdered<N>(s: seq<Ev<N>>, cs: seq<Clause<N>>) {
    forall i :: 0 <= i < |s| - 1 && s[i].node != s[i + 1].node ==> [(s[i].node, s[i + 1].node)] in cs
  }

  /** Neighbouring constraints are enough: a solution orders a whole thread. */
  lemma {:induction false} SolutionFollowsThread<N>(s: seq<Ev<N>>, cs: seq<Clause<N>>, v: N -> int, i: nat, j: nat)
    requires Unique(s) && ThreadOrdered(s, cs) && Solves(v, cs)
    requires i < j < |s|
    ensures v(s[i].node) < v(s[j].node)
    decreases j - i
  {
    var c := [(s[j - 1].node, s[j].node)];
    assert s[j - 1].node != s[j].node;
    assert c in cs by { assert s[(j - 1) + 1] == s[j]; }
    assert Holds(v, c);
    if i >= j - 1 {
    } else {
      SolutionFollowsThread(s, cs, v, i, j - 1);
    }
  }

  lemma SolutionBefore<N>(s: seq<Ev<N>>, cs: seq<Clause<N>>, v: N -> int, a: N, b: N)
    requires Unique(s) && ThreadOrdered(s, cs) && Solves(v, cs)
    ensures Before(s, a, b) ==> v(a) < v(b)
    ensures NotAfter(s, a, b) ==> v(a) <= v(b)
  {
    if Before(s, a, b) {
      var i, j :| 0 <= i < j < |s| && s[i].node == a && s[j].node == b;
      SolutionFollowsThread(s, cs, v, i, j);
    }
  }

  lemma PairInOrder<N>(st: State<N>, cs: seq<Clause<N>>, v: N -> int, a: N, b: N, ta: EvTy, tb: EvTy)
    requires Ordered(st, cs) && Solves(v, cs) && PairIn(st, a, b, ta, tb)
    ensures v(a) < v(b)
  {
    var t :| 0 <= t < |st| && Before(st[t], a, b) && Marked(st[t], a, ta) && Marked(st[t], b, tb);
    SolutionBefore(st[t], cs, v, a, b);
  }

  /** `e` is one of the events between the two ends of a region, ends included. */
  ghost predicate Inside<N>(st: State<N>, p: (N, N), e: N) {
    exists t :: 0 <= t < |st| && NotAfter(st[t], p.0, e) && NotAfter(st[t], e, p.1)
  }

  ghost predicate Ordered<N>(st: State<N>, cs: seq<Clause<N>>) {
    forall t :: 0 <= t < |st| ==> Unique(st[t]) && ThreadOrdered(st[t], cs)
  }

  /** Each event of one region comes before each event of the other. */
  ghost predicate Apart<N>(st: State<N>, v: N -> int, p: (N, N), q: (N, N)) {
    forall t, i, u, j :: 0 <= t < |st| && 0 <= i < |st[t]| && 0 <= u < |st| && 0 <= j < |st[u]|
                         && Inside(st, p, st[t][i].node) && Inside(st, q, st[u][j].node)
                         ==> v(st[t][i].node) < v(st[u][j].node)
  }

  /** The clause addSuppTrLocs asks for: one region ends before the other begins. */
  function ExclusionClause<N(==)>(p: (N, N), q: (N, N)): Clause<N> {
    Kept([Some(p.1), Some(q.0), Some(q.1), Some(p.0)])
  }

  lemma ExclusionIs<N>(p: (N, N), q: (N, N))
    ensures ExclusionClause(p, q) == (if p.1 == q.0 then [] else [(p.1, q.0)]) + (if q.1 == p.0 then []
        else [(q.1, p.0)])
  {
    var locs := [Some(p.1), Some(q.0), Some(q.1), Some(p.0)];
    assert locs[2..] == [Some(q.1), Some(p.0)] && locs[2..][2..] == [];
    assert Kept(locs[2..]) == (if q.1 == p.0 then [] else [(q.1, p.0)]) + Kept(locs[2..][2..]);
  }

  lemma ExclusionMeans<N>(v: N -> int, p: (N, N), q: (N, N))
    ensures Holds(v, ExclusionClause(p, q)) <==> v(p.1) < v(q.0) || v(q.1) < v(p.0)
  {
    ExclusionIs(p, q);
    var c0 := if p.1 == q.0 then [] else [(p.1, q.0)];
    var c1 := if q.1 == p.0 then [] else [(q.1, p.0)];
    if v(p.1) < v(q.0) {
      assert (c0 + c1)[0] == (p.1, q.0);
    }
    if v(q.1) < v(p.0) {
      assert (c0 + c1)[|c0|] == (q.1, p.0);
    }
  }

  lemma SolutionInside<N>(st: State<N>, cs: seq<Clause<N>>, v: N -> int, p: (N, N), e: N)
    requires Ordered(st, cs) && Solves(v, cs) && Inside(st, p, e)
    ensures v(p.0) <= v(e) <= v(p.1)
  {
    var t :| 0 <= t < |st| && NotAfter(st[t], p.0, e) && NotAfter(st[t], e, p.1);
    SolutionBefore(st[t], cs, v, p.0, e);
    SolutionBefore(st[t], cs, v, e, p.1);
  }

  lemma OneEndsFirst<N>(st: State<N>, cs: seq<Clause<N>>, v: N -> int, p: (N, N), q: (N, N))
    requires Ordered(st, cs) && Solves(v, cs)
    requires v(p.1) < v(q.0)
    ensures Apart(st, v, p, q)
  {
    forall t, i, u, j | 0 <= t < |st| && 0 <= i < |st[t]| && 0 <= u < |st| && 0 <= j < |st[u]|
                        && Inside(st, p, st[t][i].node) && Inside(st, q, st[u][j].node)
      ensures v(st[t][i].node) < v(st[u][j].node)
    {
      SolutionInside(st, cs, v, p, st[t][i].node);
      SolutionInside(st, cs, v, q, st[u][j].node);
    }
  }

  /** Mutual exclusion: in a solution two regions with a recorded exclusion never interleave,
      whatever else the threads do inside them. */
  lemma MutualExclusion<N>(st: State<N>, cs: seq<Clause<N>>, v: N -> int, p: (N, N), q: (N, N))
    requires Ordered(st, cs) && Solves(v, cs)
    requires ExclusionClause(p, q) in cs
    ensures Apart(st, v, p, q) || Apart(st, v, q, p)
  {
    assert Holds(v, ExclusionClause(p, q));
    ExclusionMeans(v, p, q);
    if v(p.1) < v(q.0) {
      OneEndsFirst(st, cs, v, p, q);
    } else {
      OneEndsFirst(st, cs, v, q, p);
    }
  }

  /** Each node belongs to one thread, and occurs there once. */
  ghost predicate Separate<N>(st: State<N>) {
    && (forall t :: 0 <= t < |st| ==> Unique(st[t]))
    && (forall t, i, u, j :: (0 <= t < |st| && 0 <= i < |st[t]| && 0 <= u < |st| && 0 <= j < |st[u]|
                              && st[t][i].node == st[u][j].node) ==> t == u)
  }

  /** Two recorded regions never lose both disjuncts, so their exclusion always gets a clause. */
  lemma ExclusionIsNeverEmpty<N>(st: State<N>, p: (N, N), q: (N, N))
    requires Separate(st) && RegionIn(st, p) && RegionIn(st, q)
    ensures ExclusionClause(p, q) != []
  {
    ExclusionIs(p, q);
  }

  /** The child thread `s` may only run between `c`, its creation, and `j`, its join. */
  ghost predicate Bracketed<N>(cs: seq<Clause<N>>, s: seq<Ev<N>>, c: N, j: N) {
    s == [] || ([(c, s[0].node)] in cs && [(s[|s| - 1].node, j)] in cs)
  }


  lemma BracketedExtends<N>(cs: seq<Clause<N>>, ds: seq<Clause<N>>, s: seq<Ev<N>>, c: N, j: N)
    requires Bracketed(cs, s, c, j) && cs <= ds
    ensures Bracketed(ds, s, c, j)
  {
    assert forall x :: x in cs ==> x in ds;
  }

  /** Thread synchronisation: every event the child held when the pair was recorded falls strictly
      between creation and join, in every solution, however much its thread has grown since. */
  lemma ChildRunsInside<N>(s: seq<Ev<N>>, st: State<N>, t: nat, cs: seq<Clause<N>>, v: N -> int, c: N, j: N, i: nat)
    requires t < |st| && GrownSeq(s, st[t]) && i < |s|
    requires Bracketed(cs, s, c, j)
    requires Ordered(st, cs) && Solves(v, cs)
    ensures v(c) < v(s[i].node) < v(j)
  {
    var first, last := s[0].node, s[|s| - 1].node;
    assert Holds(v, [(c, first)]) && Holds(v, [(last, j)]);
    if i > 0 {
      assert Before(s, first, s[i].node);
      GrownSeqBefore(s, st[t], first, s[i].node);
      SolutionBefore(st[t], cs, v, first, s[i].node);
    }
    if i < |s| - 1 {
      assert Before(s, s[i].node, last);
      GrownSeqBefore(s, st[t], s[i].node, last);
      SolutionBefore(st[t], cs, v, s[i].node, last);
    }
  }

  // ---- which nodes there are ------------------------------------------------------------------

  ghost function NodeSet<N>(s: seq<Ev<N>>): set<N> {
    set i | 0 <= i < |s| :: s[i].node
  }

  ghost function NodesOf<N>(st: State<N>): set<N> {
    set t, i | 0 <= t < |st| && 0 <= i < |st[t]| :: st[t][i].node
  }

  lemma InsertedNodes<N>(g: Graph, s: seq<Ev<N>>, q: Request, n: N)
    requires Fits(s, q)
    ensures NodeSet(Inserted(g, s, q, n)) <= NodeSet(s) + if InsertCode(g, s, q) >= 0 then {n} else {}
  {
    hide InsertCode;
    var r, ec := Inserted(g, s, q, n), InsertCode(g, s, q);
    forall i | 0 <= i < |r| ensures r[i].node in NodeSet(s) + if ec >= 0 then {n} else {} {
      if ec >= 0 {
        if i != ec {
          assert r[i] == s[if i < ec then i else i - 1];
        }
      } else {
        assert r[i].node == s[i].node;
      }
    }
  }

  lemma NodesOfUpdated<N>(st: State<N>, k: nat, s: seq<Ev<N>>, more: set<N>)
    requires k < |st| && NodeSet(s) <= NodeSet(st[k]) + more
    ensures NodesOf(st[k := s]) <= NodesOf(st) + more
  {
    var r: State<N> := st[k := s];
    forall t, i | 0 <= t < |r| && 0 <= i < |r[t]| ensures r[t][i].node in NodesOf(st) + more {
      if t == k {
        assert s[i].node in NodeSet(st[k]) + more;
      } else {
        assert st[t][i] == r[t][i];
      }
    }
  }

  // ---- condition checks and their killers ----------------------------------------------------

  /** What ThreadSched::_noKill asks of a check at index `i` and a killer at index `j`: the killer
      comes first, control flow has a way around it, and no plain FREE precedes it. */
  predicate Harmless<N>(g: Graph, s: seq<Ev<N>>, i: nat, j: nat)
    requires i < |s| && j < |s|
  {
    && j <= i
    && !Dom(g, s[j].loc, s[i].loc, false)
    && (forall m :: 0 <= m < j ==> s[m].ty != {Free})
  }

  /** Over paths: some way from the entry to the check leaves the killer out, and nothing that only frees
      comes before the killer. */
  lemma HarmlessMeans<N>(g: Graph, s: seq<Ev<N>>, i: nat, j: nat)
    requires i < |s| && j < |s|
    ensures Harmless(g, s, i, j) <==>
            && j <= i
            && (exists p :: IsPath(g, p, {}) && Joins(p, g.entry, s[i].loc) && s[j].loc !in p)
            && (forall m :: 0 <= m < j ==> s[m].ty != {Free})
  {
    hide Dom, IsPath;
    DomMeans(g, s[j].loc, s[i].loc, false);
  }

  /** Early rejection: with the killer `k` at or before the check `c` in one thread, asking for the
      check to come first leaves no solution, unless both are one node; then the constraint is not
      recorded at all, and the rejection costs exactly the solutions there were. */
  lemma KillerBeforeCheck<N>(st: State<N>, cs: seq<Clause<N>>, v: N -> int, t: nat, c: N, k: N)
    requires Ordered(st, cs) && t < |st| && NotAfter(st[t], k, c)
    ensures Solves(v, cs + OrderClauses(Some(c), Some(k))) <==> c == k && Solves(v, cs)
  {
    SolvesAppend(v, cs, OrderClauses(Some(c), Some(k)));
    if c != k && Solves(v, cs + OrderClauses(Some(c), Some(k))) {
      assert Holds(v, OrderClauses(Some(c), Some(k))[0]);
      SolutionBefore(st[t], cs, v, k, c);
    }
  }

  lemma ExclusionIsSound<N, L(!new)>(st: State<N>, cs: seq<Clause<N>>, locks: map<L, set<(N, N)>>, p: (N, N), q: (N, N))
    requires Sound(st, cs, locks) && RegionIn(st, p) && RegionIn(st, q)
    ensures Sound(st, cs + [ExclusionClause(p, q)], locks)
  {
    assert In(st, p.0) && In(st, p.1) && In(st, q.0) && In(st, q.1) by {
      var t :| 0 <= t < |st| && Before(st[t], p.0, p.1);
      assert Holding(st[t], p.0) && Holding(st[t], p.1);
      var u :| 0 <= u < |st| && Before(st[u], q.0, q.1);
      assert Holding(st[u], q.0) && Holding(st[u], q.1);
    }
    ExclusionIs(p, q);
    KnownAppend(st, cs, [ExclusionClause(p, q)]);
  }
}
