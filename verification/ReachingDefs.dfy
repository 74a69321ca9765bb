/** What the field store computes when the accesses of a function are visited one after the other. */
module ReachingDefs {
  import opened Cfg
  import opened Constraints
  import opened FieldSpec
  import opened FieldStore

  /** An access of one field. */
  datatype Access = Write(loc: Loc, p: Pointee<AliasObject>, weak: bool) | Read(loc: Loc)

  predicate StrongWrite(a: Access) {
    a.Write? && !a.weak
  }

  /** No access can reach an earlier one. */
  ghost predicate Topological(g: Graph, order: seq<Access>) {
    forall i, j :: 0 <= i < j < |order| ==> !Reach(g, order[j].loc, order[i].loc, {})
  }

  ghost predicate Acyclic(g: Graph) {
    forall x, y :: y in g.Succ(x) ==> !Reach(g, y, x, {})
  }

  /** The locations of all strong writes. */
  function AllStrong(order: seq<Access>): set<Loc> {
    set i | 0 <= i < |order| && StrongWrite(order[i]) :: order[i].loc
  }

  /** Write `i` is a reaching definition of the access `k`: some path leads from one to the other
      without a strong write in between.  All writes of the function count, visited or not. */
  predicate Defines(g: Graph, order: seq<Access>, i: nat, k: nat)
    requires i < |order| && k < |order|
  {
    order[i].Write? && Reach(g, order[i].loc, order[k].loc, AllStrong(order))
  }

  /** What the field held when the entry was called reaches the access `k`. */
  predicate FromOutside(g: Graph, order: seq<Access>, k: nat)
    requires k < |order|
  {
    ReachFromEntry(g, order[k].loc, AllStrong(order))
  }

  /** No later strong write among the visited ones post-dominates write `i`. */
  ghost predicate Standing(g: Graph, done: seq<Access>, i: nat)
    requires i < |done|
  {
    !exists j :: i < j < |done| && StrongWrite(done[j]) && PostDom(g, done[j].loc, done[i].loc, true)
  }

  /** No strong write among the visited ones post-dominates the entry. */
  ghost predicate EntryStands(g: Graph, done: seq<Access>) {
    !exists j :: 0 <= j < |done| && StrongWrite(done[j]) && PostDom(g, done[j].loc, g.entry, false)
  }

  lemma SuffixIsPath(g: Graph, p: seq<Loc>, blk: set<Loc>, m: nat)
    requires IsPath(g, p, blk) && m < |p|
    ensures IsPath(g, p[m..], blk) && Joins(p[m..], p[m], p[|p| - 1])
  {
  }

  lemma NeverBack(g: Graph, p: seq<Loc>, y: Loc)
    requires Acyclic(g) && IsPath(g, p, {}) && y in g.Succ(p[|p| - 1])
    ensures y !in p && IsPath(g, p + [y], {}) && y in g.Nodes()
  {
    hide Reach;
    var last := p[|p| - 1];
    forall m | 0 <= m < |p| ensures p[m] != y {
      if p[m] == y {
        SuffixIsPath(g, p, {}, m);
        ReachIffPath(g, y, last, {});
      }
    }
  }

  function Untrodden(g: Graph, p: seq<Loc>): set<Loc> {
    set x | x in g.Nodes() && x !in p
  }

  lemma OneLess(g: Graph, p: seq<Loc>, y: Loc)
    requires y !in p && y in g.Nodes()
    ensures Untrodden(g, p + [y]) < Untrodden(g, p)
  {
    assert y in Untrodden(g, p) && y !in Untrodden(g, p + [y]);
  }

  /** In a finite acyclic graph control always leaves. */
  lemma {:induction false} AcyclicLeaves(g: Graph, p: seq<Loc>) returns (q: seq<Loc>)
    requires Acyclic(g) && IsPath(g, p, {})
    ensures p <= q && LeavesThrough(g, q, p[0])
    decreases Untrodden(g, p)
  {
    hide Acyclic, Untrodden;
    var last := p[|p| - 1];
    if g.Succ(last) == {} {
      q := p;
    } else {
      var y :| y in g.Succ(last);
      NeverBack(g, p, y);
      OneLess(g, p, y);
      q := AcyclicLeaves(g, p + [y]);
    }
  }

  /** The access `k` is not caught in a loop with what matters to it: control can leave from it, no
      write that is visited later reaches it, and it reaches no strong write visited before. */
  ghost predicate Settled(g: Graph, order: seq<Access>, k: nat)
    requires k < |order|
  {
    && (exists q :: LeavesThrough(g, q, order[k].loc))
    && (forall j :: k < j < |order| && order[j].Write? ==> !Reach(g, order[j].loc, order[k].loc, {}))
    && (forall j :: 0 <= j < k && StrongWrite(order[j]) ==> !Reach(g, order[k].loc, order[j].loc, {}))
  }

  /** In an acyclic function, visited in topological order, that goes for every access. */
  lemma TopologicalIsSettled(g: Graph, order: seq<Access>, k: nat)
    requires Acyclic(g) && Topological(g, order) && k < |order|
    ensures Settled(g, order, k)
  {
    hide Reach;
    var l := order[k].loc;
    assert IsPath(g, [l], {});
    var q := AcyclicLeaves(g, [l]);
    assert LeavesThrough(g, q, l);
  }

  /** A visited write that post-dominates the start of a path to the access `k` lies on it, before `k`. */
  lemma PassesThrough(g: Graph, order: seq<Access>, j: nat, k: nat, strict: bool, p: seq<Loc>) returns (m: nat)
    requires j < k < |order| && Settled(g, order, k) && StrongWrite(order[j])
    requires IsPath(g, p, {}) && p[|p| - 1] == order[k].loc
    requires PostDom(g, order[j].loc, p[0], strict)
    ensures m < |p| - 1 && p[m] == order[j].loc && (strict ==> 0 < m)
  {
    hide Reach;
    var s := order[j].loc;
    m := 0;
    if s != p[0] {
      var t :| LeavesThrough(g, t, order[k].loc);
      var q := p + t[1..];
      JoinedIsPath(g, p, t);
      PostDomMeaning(g, s, p[0]);
      m :| 0 <= m < |q| && q[m] == s;
      if m >= |p| - 1 {
        var u := t[..m - |p| + 2];
        assert t[m - |p| + 1] == s;
        assert IsPath(g, u, {}) && Joins(u, order[k].loc, s);
        ReachIffPath(g, order[k].loc, s, {});
      }
      assert p[m] == q[m];
    } else {
      StandsThere(g, s);
    }
  }

  lemma JoinedIsPath(g: Graph, p: seq<Loc>, t: seq<Loc>)
    requires IsPath(g, p, {}) && LeavesThrough(g, t, p[|p| - 1])
    ensures LeavesThrough(g, p + t[1..], p[0])
  {
    var q := p + t[1..];
    forall i | 0 <= i < |q| - 1 ensures q[i + 1] in g.Succ(q[i]) {
      if i >= |p| - 1 {
        assert q[i] == t[i - |p| + 1] && q[i + 1] == t[i - |p| + 2];
      }
    }
  }

  lemma StandsThere(g: Graph, s: Loc)
    ensures Reach(g, s, s, {})
  {
    assert IsPath(g, [s], {}) && Joins([s], s, s);
    ReachIffPath(g, s, s, {});
  }

  lemma LastStrong(order: seq<Access>, p: seq<Loc>, from: nat) returns (m: nat)
    requires from < |p| - 1 && p[from] in AllStrong(order)
    ensures from <= m < |p| - 1 && p[m] in AllStrong(order)
    ensures forall x :: m < x < |p| - 1 ==> p[x] !in AllStrong(order)
    decreases |p| - from
  {
    if x :| from < x < |p| - 1 && p[x] in AllStrong(order) {
      m := LastStrong(order, p, x);
    } else {
      m := from;
    }
  }

  /** Blockers that hold the strong writes that reach `k` hold back whatever a strong write holds back. */
  lemma BlockersSuffice(g: Graph, order: seq<Access>, k: nat, blk: set<Loc>, p: seq<Loc>, low: nat)
    requires k < |order| && IsPath(g, p, {}) && p[|p| - 1] == order[k].loc
    requires forall j :: 0 <= j < |order| && StrongWrite(order[j]) && Defines(g, order, j, k) ==> order[j].loc in blk
    requires forall x :: low <= x < |p| - 1 ==> p[x] !in blk
    ensures forall x :: low <= x < |p| - 1 ==> p[x] !in AllStrong(order)
  {
    hide Reach;
    if x :| low <= x < |p| - 1 && p[x] in AllStrong(order) {
      var m := LastStrong(order, p, x);
      var j :| 0 <= j < |order| && StrongWrite(order[j]) && order[j].loc == p[m];
      SuffixIsPath(g, p, {}, m);
      assert IsPath(g, p[m..], AllStrong(order));
      ReachIffPath(g, order[j].loc, order[k].loc, AllStrong(order));
    }
  }

  /** So a write reaches `k` around such blockers exactly if it is a reaching definition. */
  lemma BlockersDecide(g: Graph, order: seq<Access>, i: nat, k: nat, blk: set<Loc>)
    requires i < |order| && k < |order| && order[i].Write? && blk <= AllStrong(order)
    requires forall j :: 0 <= j < |order| && StrongWrite(order[j]) && Defines(g, order, j, k) ==> order[j].loc in blk
    ensures Reach(g, order[i].loc, order[k].loc, blk) <==> Defines(g, order, i, k)
  {
    hide Reach;
    var all := AllStrong(order);
    ReachIffPath(g, order[i].loc, order[k].loc, all);
    ReachIffPath(g, order[i].loc, order[k].loc, blk);
    if p :| IsPath(g, p, all) && Joins(p, order[i].loc, order[k].loc) {
      assert IsPath(g, p, blk);
    }
    if p :| IsPath(g, p, blk) && Joins(p, order[i].loc, order[k].loc) {
      BlockersSuffice(g, order, k, blk, p, 1);
      assert IsPath(g, p, all);
    }
  }

  /** A definition that reaches a settled access was visited before, and nothing has overridden it. */
  lemma StandingDecides(g: Graph, order: seq<Access>, i: nat, k: nat)
    requires i < |order| && k < |order| && order[k].Read? && Settled(g, order, k) && Defines(g, order, i, k)
    ensures i < k && Standing(g, order[..k], i)
  {
    hide Reach, PostDom;
    ReachIffPath(g, order[i].loc, order[k].loc, AllStrong(order));
    var p :| IsPath(g, p, AllStrong(order)) && Joins(p, order[i].loc, order[k].loc);
    assert IsPath(g, p, {});
    ReachIffPath(g, order[i].loc, order[k].loc, {});
    forall j | i < j < k && StrongWrite(order[j]) ensures !PostDom(g, order[j].loc, order[i].loc, true) {
      if PostDom(g, order[j].loc, order[i].loc, true) {
        var m := PassesThrough(g, order, j, k, true, p);
      }
    }
  }

  /** The same for what comes from outside. */
  lemma OutsideDecides(g: Graph, order: seq<Access>, k: nat, blk: set<Loc>)
    requires k < |order| && blk <= AllStrong(order)
    requires forall j :: 0 <= j < |order| && StrongWrite(order[j]) && Defines(g, order, j, k) ==> order[j].loc in blk
    ensures ReachFromEntry(g, order[k].loc, blk) <==> FromOutside(g, order, k)
  {
    hide Reach, ReachFromEntry, Defines;
    var l, all := order[k].loc, AllStrong(order);
    ReachFromEntryMeaning(g, l, all);
    ReachFromEntryMeaning(g, l, blk);
    if p :| WayIn(g, p, l, all) {
      assert WayIn(g, p, l, blk);
    }
    if p :| WayIn(g, p, l, blk) {
      BlockersSuffice(g, order, k, blk, p, 0);
      assert WayIn(g, p, l, all);
    }
  }

  lemma EntryStandsWhenReached(g: Graph, order: seq<Access>, k: nat)
    requires k < |order| && Settled(g, order, k) && FromOutside(g, order, k)
    ensures EntryStands(g, order[..k])
  {
    hide Reach, ReachFromEntry, PostDom, Settled;
    ReachFromEntryMeaning(g, order[k].loc, AllStrong(order));
    var p :| WayIn(g, p, order[k].loc, AllStrong(order));
    if !EntryStands(g, order[..k]) {
      var j :| 0 <= j < k && StrongWrite(order[j]) && PostDom(g, order[j].loc, g.entry, false);
      var m := PassesThrough(g, order, j, k, false, p);
    }
  }

  // ---- which records stay active -----------------------------------------------------------------

  /** The analysis of field `fid` under one entry: the control flow, the pointees for which the field has
      records of other entries, and the preset records that are active when the entry is called. */
  datatype Setting = Setting(fid: int, entry: Entry, g: Graph, taken: set<Pointee<AliasObject>>, base: set<Record>)

  /** The record of write `i` is the one its target keeps for the pointee. */
  ghost predicate Represents(taken: set<Pointee<AliasObject>>, done: seq<Access>, i: nat)
    requires i < |done| && done[i].Write?
  {
    && done[i].p.target.Some? && done[i].p !in taken
    && forall j :: 0 <= j < i && done[j].Write? ==> done[j].p != done[i].p
  }

  /** The record of write `i` is active after the accesses `done`.  The one kept by the target falls with
      every record of its pointee, and rises again when the pointee is stored anew. */
  ghost predicate Active(g: Graph, taken: set<Pointee<AliasObject>>, done: seq<Access>, i: nat)
    requires i < |done| && done[i].Write?
    decreases |done|
  {
    if !Represents(taken, done, i) then
      Standing(g, done, i)
    else
      var n := |done| - 1;
      || i == n
      || (done[n].Write? && done[n].p == done[i].p)
      || (&& Active(g, taken, done[..n], i)
          && !(StrongWrite(done[n])
               && exists j :: 0 <= j < n && done[j].Write? && done[j].p == done[i].p && Active(g, taken, done[..n], j)
                              && PostDom(g, done[n].loc, done[j].loc, true)))
  }

  ghost function ActiveStrong(x: Setting, done: seq<Access>): set<Loc> {
    set i | 0 <= i < |done| && StrongWrite(done[i]) && Active(x.g, x.taken, done, i) :: done[i].loc
  }

  /** Nothing the access `k` is owed has been lost: the definitions that reach it were visited and are
      active, and so are the preset records that reach it. */
  ghost predicate Kept(x: Setting, order: seq<Access>, k: nat)
    requires k < |order|
  {
    && (forall i :: 0 <= i < |order| && order[i].Write? && Defines(x.g, order, i, k) ==>
          i < k && Active(x.g, x.taken, order[..k], i))
    && (FromOutside(x.g, order, k) && (exists r :: r in x.base && r.site.Some?) ==> EntryStands(x.g, order[..k]))
  }

  /** The write `w` overrides write `j`, which shares its pointee with the older `i`; `i` stands, but
      its record is the one that the target keeps, and falls with the other. */
  ghost predicate Tangled(g: Graph, taken: set<Pointee<AliasObject>>, done: seq<Access>, i: nat, j: nat, w: nat) {
    && i < j < w < |done| && done[i].Write? && done[j].Write? && StrongWrite(done[w])
    && done[i].p == done[j].p != done[w].p && Represents(taken, done, i)
    && Standing(g, done[..w], j) && PostDom(g, done[w].loc, done[j].loc, true) && Standing(g, done[..w + 1], i)
  }

  ghost predicate Untangled(g: Graph, taken: set<Pointee<AliasObject>>, done: seq<Access>) {
    forall i: nat, j: nat, w: nat :: !Tangled(g, taken, done, i, j, w)
  }

  lemma StandingGrows(g: Graph, done: seq<Access>, w: Access, i: nat)
    requires i < |done|
    ensures Standing(g, done + [w], i) <==>
            Standing(g, done, i) && !(StrongWrite(w) && PostDom(g, w.loc, done[i].loc, true))
  {
    hide PostDom;
    var all := done + [w];
    if Standing(g, all, i) {
      forall j | i < j < |done| && StrongWrite(done[j]) ensures !PostDom(g, done[j].loc, done[i].loc, true) {
        assert all[j] == done[j];
      }
      assert all[|done|] == w;
    }
  }

  lemma EntryStandsGrows(g: Graph, done: seq<Access>, w: Access)
    ensures EntryStands(g, done + [w]) <==>
            EntryStands(g, done) && !(StrongWrite(w) && PostDom(g, w.loc, g.entry, false))
  {
    hide PostDom;
    var all := done + [w];
    if EntryStands(g, all) {
      forall j | 0 <= j < |done| && StrongWrite(done[j]) ensures !PostDom(g, done[j].loc, g.entry, false) {
        assert all[j] == done[j];
      }
      assert all[|done|] == w;
    }
  }

  lemma RepresentsGrows(taken: set<Pointee<AliasObject>>, done: seq<Access>, w: Access, i: nat)
    requires i < |done| && done[i].Write?
    ensures Represents(taken, done + [w], i) <==> Represents(taken, done, i)
  {
    var all := done + [w];
    assert forall j :: 0 <= j <= i ==> all[j] == done[j];
  }

  /** The record of write `i` before and after the access `w`. */
  lemma ActiveGrows(g: Graph, taken: set<Pointee<AliasObject>>, done: seq<Access>, w: Access, i: nat)
    requires i < |done| && done[i].Write?
    ensures Active(g, taken, done + [w], i) <==>
            || (w.Write? && w.p == done[i].p && Represents(taken, done, i))
            || (&& Active(g, taken, done, i)
                && !(StrongWrite(w)
                     && exists j :: 0 <= j < |done| && done[j].Write? && (j == i || Represents(taken, done, i))
                                    && done[j].p == done[i].p && Active(g, taken, done, j)
                                    && PostDom(g, w.loc, done[j].loc, true)))
  {
    hide PostDom, Standing;
    var all := done + [w];
    assert all[..|done|] == done && all[|done|] == w && forall j :: 0 <= j < |done| ==> all[j] == done[j];
    RepresentsGrows(taken, done, w, i);
    StandingGrows(g, done, w, i);
  }

  lemma NewestIsActive(g: Graph, taken: set<Pointee<AliasObject>>, done: seq<Access>, w: Access)
    requires w.Write?
    ensures Active(g, taken, done + [w], |done|)
  {
    assert (done + [w])[|done|] == w;
  }

  /** Without tangles whatever stands is active. */
  lemma {:induction false} StandingIsActive(g: Graph, taken: set<Pointee<AliasObject>>, done: seq<Access>, i: nat)
    requires Untangled(g, taken, done) && i < |done| && done[i].Write? && Standing(g, done, i)
    ensures Active(g, taken, done, i)
    decreases |done|
  {
    hide PostDom, Standing;
    var n := |done| - 1;
    if !Represents(taken, done, i) || i == n {
    } else {
      var prev, w := done[..n], done[n];
      assert done == prev + [w];
      assert prev[i] == done[i] && done[..n + 1] == done;
      StandingGrows(g, prev, w, i);
      UntangledBefore(g, taken, done);
      StandingIsActive(g, taken, prev, i);
      ActiveGrows(g, taken, prev, w, i);
      forall j: nat | j < n && done[j].Write? && done[j].p == done[i].p && Active(g, taken, prev, j)
        ensures !(StrongWrite(w) && w.p != done[i].p && PostDom(g, w.loc, done[j].loc, true))
      {
        if j != i {
          OthersStand(g, taken, prev, i, j);
          assert !Tangled(g, taken, done, i, j, n);
        }
      }
    }
  }

  /** Of the other writes of a pointee exactly the standing ones are active. */
  lemma OthersStand(g: Graph, taken: set<Pointee<AliasObject>>, done: seq<Access>, i: nat, j: nat)
    requires i < |done| && j < |done| && i != j && done[i].Write? && done[j].Write? && done[i].p == done[j].p
    requires Represents(taken, done, i)
    ensures i < j && (Active(g, taken, done, j) <==> Standing(g, done, j))
  {
    hide Standing;
  }

  lemma UntangledBefore(g: Graph, taken: set<Pointee<AliasObject>>, done: seq<Access>)
    requires done != [] && Untangled(g, taken, done)
    ensures Untangled(g, taken, done[..|done| - 1])
  {
    hide PostDom, Standing;
    var prev := done[..|done| - 1];
    forall i: nat, j: nat, w: nat ensures !Tangled(g, taken, prev, i, j, w) {
      if i < j < w < |prev| && prev[i].Write? {
        assert prev[..w] == done[..w] && prev[..w + 1] == done[..w + 1];
        RepresentsGrows(taken, prev, done[|done| - 1], i);
        assert done == prev + [done[|done| - 1]];
        assert !Tangled(g, taken, done, i, j, w);
      }
    }
  }

  /** With a tangle, the record of a write that stands is lost. */
  lemma TangleLoses(g: Graph, taken: set<Pointee<AliasObject>>, done: seq<Access>, i: nat, j: nat, w: nat)
    requires Tangled(g, taken, done, i, j, w)
    ensures Standing(g, done[..w + 1], i) && !Active(g, taken, done[..w + 1], i)
  {
    hide PostDom, Standing;
    var prev := done[..w];
    assert done[..w + 1] == prev + [done[w]];
    assert prev[i] == done[i] && prev[j] == done[j];
    assert Represents(taken, prev, i);
    OthersStand(g, taken, prev, i, j);
    ActiveGrows(g, taken, prev, done[w], i);
  }

  /** So no record of a standing write is ever lost exactly if there is no tangle. */
  lemma UntangledMeans(g: Graph, taken: set<Pointee<AliasObject>>, done: seq<Access>)
    ensures Untangled(g, taken, done) <==>
            forall n, i :: 0 <= i < n <= |done| && done[i].Write? && Standing(g, done[..n], i) ==>
              Active(g, taken, done[..n], i)
  {
    hide PostDom, Standing, Active, Tangled;
    if Untangled(g, taken, done) {
      forall n, i | 0 <= i < n <= |done| && done[i].Write? && Standing(g, done[..n], i)
        ensures Active(g, taken, done[..n], i)
      {
        UntangledUpTo(g, taken, done, n);
        StandingIsActive(g, taken, done[..n], i);
      }
    } else {
      var i: nat, j: nat, w: nat :| Tangled(g, taken, done, i, j, w);
      TangleLoses(g, taken, done, i, j, w);
      TangleBounds(g, taken, done, i, j, w);
    }
  }

  lemma TangleBounds(g: Graph, taken: set<Pointee<AliasObject>>, done: seq<Access>, i: nat, j: nat, w: nat)
    requires Tangled(g, taken, done, i, j, w)
    ensures i < j < w < |done| && done[i].Write?
  {
    hide PostDom, Standing;
  }

  lemma {:induction false} UntangledUpTo(g: Graph, taken: set<Pointee<AliasObject>>, done: seq<Access>, n: nat)
    requires Untangled(g, taken, done) && n <= |done|
    ensures Untangled(g, taken, done[..n])
    decreases |done|
  {
    hide Tangled;
    if n == |done| {
      assert done[..n] == done;
    } else {
      var prev := done[..|done| - 1];
      UntangledBefore(g, taken, done);
      UntangledUpTo(g, taken, prev, n);
      assert prev[..n] == done[..n];
    }
  }

  /** Writes with pointees of their own never tangle. */
  lemma OwnPointeesUntangle(g: Graph, taken: set<Pointee<AliasObject>>, done: seq<Access>)
    requires forall i, j :: 0 <= i < j < |done| && done[i].Write? && done[j].Write? ==> done[i].p != done[j].p
    ensures Untangled(g, taken, done)
  {
    hide PostDom, Standing;
  }

  /** An access that is not caught in a loop with what matters to it gets what it is owed, unless a tangle
      loses it. */
  lemma SettledIsKept(x: Setting, order: seq<Access>, k: nat)
    requires k < |order| && order[k].Read? && Settled(x.g, order, k) && Untangled(x.g, x.taken, order[..k])
    ensures Kept(x, order, k)
  {
    hide Settled, Standing, Active, Defines, FromOutside, EntryStands, Untangled;
    forall i | 0 <= i < |order| && order[i].Write? && Defines(x.g, order, i, k)
      ensures i < k && Active(x.g, x.taken, order[..k], i)
    {
      StandingDecides(x.g, order, i, k);
      StandingIsActive(x.g, x.taken, order[..k], i);
    }
    if FromOutside(x.g, order, k) {
      EntryStandsWhenReached(x.g, order, k);
    }
  }

  // ---- the store follows -------------------------------------------------------------------------

  ghost predicate RecordOf(r: Record, x: Setting, w: Access) {
    w.Write? && r.fid == x.fid && r.to == w.p && r.site == Some(At(x.entry, w.loc))
  }

  /** Each write is visited once. */
  ghost predicate Once(order: seq<Access>) {
    forall i, j :: 0 <= i < j < |order| && order[i].Write? && order[j].Write? ==> order[i].loc != order[j].loc
  }

  ghost predicate Stored(st: State, x: Setting, w: Access) {
    exists r :: r in st.recs && RecordOf(r, x, w)
  }

  ghost predicate Written(r: Record, x: Setting, done: seq<Access>) {
    exists i :: 0 <= i < |done| && RecordOf(r, x, done[i])
  }

  /** The flags of the record of write `i`, and whether its target keeps it. */
  ghost predicate FlagsAt(st: State, r: Record, x: Setting, done: seq<Access>, i: nat) {
    i < |done| && RecordOf(r, x, done[i]) ==>
      && (r in st.active <==> Active(x.g, x.taken, done, i))
      && (r in st.weak <==> done[i].weak)
      && (r in st.reps <==> Represents(x.taken, done, i))
  }

  /** The records of a field that were set up outside all functions. */
  function Presets(st: State, fid: int): set<Record> {
    set r | r in st.recs && r.fid == fid && !HasCtx(r.site)
  }

  /** The pointees of the records of other entries. */
  function Taken(st: State, fid: int, entry: Entry): set<Pointee<AliasObject>> {
    set r | r in st.recs && r.fid == fid && Foreign(r, entry) :: r.to
  }

  /** No other record shares the pointee of `r`, and no access stores it. */
  ghost predicate Alone(st: State, r: Record, order: seq<Access>) {
    && (forall m :: m in st.recs && Alike(m, r) ==> m == r)
    && (forall a :: a in order && a.Write? ==> a.p != r.to)
  }

  /** The flag of the preset record `r`; those in `base` were active when the entry was called. */
  ghost predicate PresetAt(st: State, r: Record, x: Setting, done: seq<Access>) {
    && Alone(st, r, done)
    && (r in st.active <==> r in x.base && (r.site.None? || EntryStands(x.g, done)))
  }

  /** The records of the field are those of the visited writes, with the flags they should have, besides
      preset ones and records of other entries. */
  ghost predicate Mirrors(st: State, x: Setting, done: seq<Access>) {
    && (forall r {:trigger Written(r, x, done)} ::
          r in st.recs && r.fid == x.fid && HasCtx(r.site) && !Foreign(r, x.entry) ==> Written(r, x, done))
    && (forall i {:trigger Stored(st, x, done[i])} :: 0 <= i < |done| && done[i].Write? ==> Stored(st, x, done[i]))
    && (forall r, i {:trigger FlagsAt(st, r, x, done, i)} :: r in st.recs && 0 <= i < |done| ==>
        FlagsAt(st, r, x, done, i))
    && x.base <= Presets(st, x.fid) && Taken(st, x.fid, x.entry) == x.taken
    && (forall r :: r in Presets(st, x.fid) ==> PresetAt(st, r, x, done))
  }

  lemma WrittenGrows(r: Record, x: Setting, done: seq<Access>, a: Access)
    requires Written(r, x, done)
    ensures Written(r, x, done + [a])
  {
    var j :| 0 <= j < |done| && RecordOf(r, x, done[j]);
    assert (done + [a])[j] == done[j];
  }

  lemma MirrorsRead(st: State, x: Setting, done: seq<Access>, a: Access)
    requires Mirrors(st, x, done) && a.Read?
    ensures Mirrors(st, x, done + [a])
  {
    hide Standing, EntryStands, Active, Represents;
    EntryStandsGrows(x.g, done, a);
    var all := done + [a];
    assert forall i :: 0 <= i < |done| ==> all[i] == done[i];
    forall i | 0 <= i < |all| && all[i].Write? ensures Stored(st, x, all[i]) {
      assert Stored(st, x, done[i]);
    }
    forall r | r in st.recs && r.fid == x.fid && HasCtx(r.site) && !Foreign(r, x.entry) ensures Written(r, x, all) {
      WrittenGrows(r, x, done, a);
    }
    forall r, i | r in st.recs && 0 <= i < |all| ensures FlagsAt(st, r, x, all, i) {
      if i < |done| && all[i].Write? {
        ActiveGrows(x.g, x.taken, done, a, i);
        RepresentsGrows(x.taken, done, a, i);
        assert FlagsAt(st, r, x, done, i);
      }
    }
  }

  lemma OneUnified(p: Pointee<AliasObject>, weak: bool)
    ensures Unified({Incoming(p, weak)}, -1) == {Incoming(p, weak)}
  {
    assert Merged({Incoming(p, weak)}, -1, p) == Incoming(p, weak);
  }

  /** The write `w` overrides a record whose flag goes with that of `r`. */
  ghost predicate Struck(prog: Program, a: State, x: Setting, w: Access, r: Record) {
    exists m :: m in a.active && m.fid == x.fid && (m == r || (r in a.reps && Alike(r, m)))
                && Overrides(prog, Some(At(x.entry, w.loc)), m.site)
  }

  /** What a write that has no record yet does to the flags of an older record of the field. */
  lemma FreshWrite(prog: Program, a: State, b: State, x: Setting, w: Access, added: set<Record>, dead: set<Record>,
                   r: Record)
    requires Exact(a) && w.Write? && r in a.recs && r.fid == x.fid
    requires Updated(prog, a, b, x.fid, {Incoming(w.p, w.weak)}, Some(At(x.entry, w.loc)), added, dead)
    requires forall e :: e in a.recs && e.fid == x.fid && e.to == w.p ==> e.site != Some(At(x.entry, w.loc))
    ensures r in b.active <==>
            (r in a.active && !(!w.weak && Struck(prog, a, x, w, r))) || (r in a.reps && r.to == w.p)
    ensures (r in b.reps <==> r in a.reps) && (r in b.weak <==> r in a.weak)
  {
    hide Overrides;
    var i, site := Incoming(w.p, w.weak), Some(At(x.entry, w.loc));
    var u := {i};
    assert i in u && !HasTwin(a, x.fid, w.p, site);
    assert Strong(u) <==> !w.weak;
    forall m | m in a.recs ensures m !in Woken(a, x.fid, Pointees(u), site) {
      assert !Wakes(a, m, site) || m.to != w.p || m.fid != x.fid;
    }
    var n :| n in added && n.to == w.p;
    assert Alike(n, r) <==> r.to == w.p;
    FallsIsStruck(prog, a, x, w, dead, r);
  }

  lemma FallsIsStruck(prog: Program, a: State, x: Setting, w: Access, dead: set<Record>, r: Record)
    requires r in a.recs && r.fid == x.fid && w.Write?
    requires forall m :: m in dead <==>
               m in a.active && m.fid == x.fid && !w.weak && Overrides(prog, Some(At(x.entry, w.loc)), m.site)
    ensures r in a.active ==> (Falls(a, r, dead) <==> !w.weak && Struck(prog, a, x, w, r))
  {
    hide Overrides;
  }

  /** What strikes the record of write `i`. */
  lemma StruckIs(prog: Program, a: State, x: Setting, done: seq<Access>, w: Access, r: Record, i: nat)
    requires x.g == prog(x.entry) && Mirrors(a, x, done) && a.active <= a.recs
    requires i < |done| && r in a.recs && RecordOf(r, x, done[i]) && r in a.active
    ensures Struck(prog, a, x, w, r) <==>
            exists j :: 0 <= j < |done| && done[j].Write? && (j == i || Represents(x.taken, done, i))
                        && done[j].p == done[i].p && Active(x.g, x.taken, done, j)
                        && PostDom(x.g, w.loc, done[j].loc, true)
  {
    hide PostDom, Active, Represents, EntryStands;
    assert FlagsAt(a, r, x, done, i);
    if m :| m in a.active && m.fid == x.fid && (m == r || (r in a.reps && Alike(r, m)))
            && Overrides(prog, Some(At(x.entry, w.loc)), m.site) {
      assert m in Presets(a, x.fid) ==> Alone(a, m, done) && Alike(r, m);
      assert Written(m, x, done);
      var j :| 0 <= j < |done| && RecordOf(m, x, done[j]);
      assert FlagsAt(a, m, x, done, j);
      if m == r {
        assert PostDom(x.g, w.loc, done[i].loc, true);
      }
    }
    if j :| 0 <= j < |done| && done[j].Write? && (j == i || Represents(x.taken, done, i)) && done[j].p == done[i].p
            && Active(x.g, x.taken, done, j) && PostDom(x.g, w.loc, done[j].loc, true) {
      assert Stored(a, x, done[j]);
      var m :| m in a.recs && RecordOf(m, x, done[j]);
      assert FlagsAt(a, m, x, done, j);
      var n := if j == i then r else m;
      assert n in a.active && Overrides(prog, Some(At(x.entry, w.loc)), n.site);
    }
  }

  lemma NoTwinYet(a: State, x: Setting, done: seq<Access>, w: Access)
    requires Mirrors(a, x, done) && Once(done + [w]) && w.Write?
    ensures forall e :: e in a.recs && e.fid == x.fid ==> e.site != Some(At(x.entry, w.loc))
  {
    hide Standing, Active, Represents, PresetAt, FlagsAt;
    var all := done + [w];
    assert all[|done|] == w && forall i :: 0 <= i < |done| ==> all[i] == done[i];
    assert forall e :: e in a.recs && e.fid == x.fid && e.site == Some(At(x.entry, w.loc)) ==> !Written(e, x, done);
  }

  /** An older record of the field after the write `w`. */
  lemma OlderRecord(prog: Program, a: State, b: State, x: Setting, done: seq<Access>, w: Access,
                    added: set<Record>, dead: set<Record>, r: Record, i: nat)
    requires x.g == prog(x.entry) && Exact(a) && Mirrors(a, x, done) && Once(done + [w]) && w.Write?
    requires Updated(prog, a, b, x.fid, {Incoming(w.p, w.weak)}, Some(At(x.entry, w.loc)), added, dead)
    requires i < |done| && r in a.recs && RecordOf(r, x, done[i])
    ensures FlagsAt(b, r, x, done + [w], i)
  {
    NoTwinYet(a, x, done, w);
    FreshWrite(prog, a, b, x, w, added, dead, r);
    assert FlagsAt(a, r, x, done, i);
    assert a.active <= a.recs;
    hide PostDom, Active, Represents, Once, Updated, Struck, Exact;
    if r in a.active {
      StruckIs(prog, a, x, done, w, r, i);
    }
    ActiveGrows(x.g, x.taken, done, w, i);
    RepresentsGrows(x.taken, done, w, i);
    assert (done + [w])[i] == done[i];
  }

  /** A preset record after the write `w`. */
  lemma OlderPreset(prog: Program, a: State, b: State, x: Setting, done: seq<Access>, w: Access,
                    added: set<Record>, dead: set<Record>, r: Record)
    requires x.g == prog(x.entry) && Exact(a) && PresetAt(a, r, x, done) && w.Write?
    requires Updated(prog, a, b, x.fid, {Incoming(w.p, w.weak)}, Some(At(x.entry, w.loc)), added, dead)
    requires r in Presets(a, x.fid) && w.p != r.to
    ensures PresetAt(b, r, x, done + [w])
  {
    hide PostDom, EntryStands;
    var u, site := {Incoming(w.p, w.weak)}, Some(At(x.entry, w.loc));
    OtherPointees(prog, a, b, x.fid, u, site, added, dead, r);
    EntryStandsGrows(x.g, done, w);
    assert Incoming(w.p, w.weak) in u;
    assert Strong(u) <==> !w.weak;
    assert forall n :: n in added ==> !Alike(n, r);
  }

  /** Whether the target keeps the new record. */
  lemma NewRep(prog: Program, a: State, b: State, x: Setting, w: Access, added: set<Record>, dead: set<Record>,
               n: Record)
    requires Exact(a) && Exact(b) && w.Write? && n in added
    requires Updated(prog, a, b, x.fid, {Incoming(w.p, w.weak)}, Some(At(x.entry, w.loc)), added, dead)
    ensures n in b.recs && n in b.active && (n in b.weak <==> w.weak) && n !in a.recs && RecordOf(n, x, w)
    ensures n in b.reps <==> w.p.target.Some? && forall r :: r in a.recs && r.fid == x.fid ==> r.to != w.p
  {
    hide Condemned, Woken, Overrides, Falls;
    if r :| r in a.recs && r.fid == x.fid && r.to == w.p && w.p.target.Some? {
      assert Indexed(a, r);
      var q :| q in a.reps && Alike(q, r);
      assert q in b.reps && Alike(q, n);
    } else if w.p.target.Some? {
      assert Indexed(b, n);
      var q :| q in b.reps && Alike(q, n);
      assert q in a.recs || q in added;
    }
  }

  /** The pointees the field knows are those of the visited writes and the taken ones. */
  lemma KnownPointees(a: State, x: Setting, done: seq<Access>, w: Access)
    requires Mirrors(a, x, done) && w.Write? && forall r :: r in Presets(a, x.fid) ==> w.p != r.to
    ensures (forall r :: r in a.recs && r.fid == x.fid ==> r.to != w.p) <==>
            w.p !in x.taken && forall j :: 0 <= j < |done| && done[j].Write? ==> done[j].p != w.p
  {
    hide PresetAt, FlagsAt;
    if r :| r in a.recs && r.fid == x.fid && r.to == w.p && !Foreign(r, x.entry) {
      assert Written(r, x, done);
    }
    if j :| 0 <= j < |done| && done[j].Write? && done[j].p == w.p {
      assert Stored(a, x, done[j]);
    }
  }

  /** The new record. */
  lemma NewRecord(prog: Program, a: State, b: State, x: Setting, done: seq<Access>, w: Access,
                  added: set<Record>, dead: set<Record>, n: Record)
    requires Exact(a) && Exact(b) && Mirrors(a, x, done) && w.Write? && n in added
    requires forall r :: r in Presets(a, x.fid) ==> w.p != r.to
    requires Updated(prog, a, b, x.fid, {Incoming(w.p, w.weak)}, Some(At(x.entry, w.loc)), added, dead)
    ensures FlagsAt(b, n, x, done + [w], |done|)
  {
    NewRep(prog, a, b, x, w, added, dead, n);
    KnownPointees(a, x, done, w);
    NewestIsActive(x.g, x.taken, done, w);
    var all := done + [w];
    hide Active, Updated, Mirrors, Exact;
    assert all[|done|] == w && forall i :: 0 <= i < |done| ==> all[i] == done[i];
  }

  /** The flags after the write `w`. */
  lemma FlagsFollow(prog: Program, a: State, b: State, x: Setting, done: seq<Access>, w: Access,
                    added: set<Record>, dead: set<Record>, r: Record, i: nat)
    requires x.g == prog(x.entry) && Exact(a) && Exact(b) && Mirrors(a, x, done) && Once(done + [w]) && w.Write?
    requires forall p :: p in Presets(a, x.fid) ==> w.p != p.to
    requires Updated(prog, a, b, x.fid, {Incoming(w.p, w.weak)}, Some(At(x.entry, w.loc)), added, dead)
    requires r in b.recs && i <= |done|
    ensures FlagsAt(b, r, x, done + [w], i)
  {
    hide Exact, Active, Represents, Presets, Once, Mirrors, Condemned, Woken, Overrides;
    var all := done + [w];
    assert all[|done|] == w && forall j :: 0 <= j < |done| ==> all[j] == done[j];
    if RecordOf(r, x, all[i]) {
      if r in added {
        NewRep(prog, a, b, x, w, added, dead, r);
        if i < |done| {
          assert Once(all) && all[i].loc == w.loc;
          OnceAt(all, i, |done|);
        }
        NewRecord(prog, a, b, x, done, w, added, dead, r);
      } else if i < |done| {
        OlderRecord(prog, a, b, x, done, w, added, dead, r, i);
      } else {
        NoTwinYet(a, x, done, w);
      }
    }
  }

  lemma OnceAt(order: seq<Access>, i: nat, j: nat)
    requires Once(order) && i < j < |order| && order[i].Write? && order[j].Write?
    ensures order[i].loc != order[j].loc
  {
  }

  lemma MirrorsWrite(prog: Program, a: State, b: State, x: Setting, done: seq<Access>, w: Access,
                     added: set<Record>, dead: set<Record>)
    requires x.g == prog(x.entry) && Exact(a) && Exact(b) && Mirrors(a, x, done) && Once(done + [w]) && w.Write?
    requires forall r :: r in Presets(a, x.fid) ==> w.p != r.to
    requires Updated(prog, a, b, x.fid, {Incoming(w.p, w.weak)}, Some(At(x.entry, w.loc)), added, dead)
    ensures Mirrors(b, x, done + [w]) && Presets(b, x.fid) == Presets(a, x.fid)
  {
    hide Active, Represents, Once, EntryStands, PresetAt, FlagsAt, Condemned, Woken, Overrides, Exact;
    var all, u, site := done + [w], {Incoming(w.p, w.weak)}, Some(At(x.entry, w.loc));
    assert all[|done|] == w && forall i :: 0 <= i < |done| ==> all[i] == done[i];
    assert Incoming(w.p, w.weak) in u;
    NoTwinYet(a, x, done, w);
    forall r, i | r in b.recs && 0 <= i < |all| ensures FlagsAt(b, r, x, all, i) {
      FlagsFollow(prog, a, b, x, done, w, added, dead, r, i);
    }
    forall r | r in b.recs && r.fid == x.fid && HasCtx(r.site) && !Foreign(r, x.entry) ensures Written(r, x, all) {
      if r in a.recs {
        assert Written(r, x, done);
        WrittenGrows(r, x, done, w);
      } else {
        assert RecordOf(r, x, all[|done|]);
      }
    }
    forall i | 0 <= i < |all| && all[i].Write? ensures Stored(b, x, all[i]) {
      if i < |done| {
        assert Stored(a, x, done[i]);
        var r :| r in a.recs && RecordOf(r, x, done[i]);
        assert r in b.recs;
      } else {
        var n :| n in added && n.to == w.p;
        assert n in b.recs;
      }
    }
    assert Presets(b, x.fid) == Presets(a, x.fid) && Taken(b, x.fid, x.entry) == Taken(a, x.fid, x.entry);
    forall r | r in Presets(b, x.fid) ensures PresetAt(b, r, x, all) {
      OlderPreset(prog, a, b, x, done, w, added, dead, r);
    }
  }

  /** The sites that block a read are those of the active strong writes. */
  lemma BlockersAre(st: State, field: set<Record>, blk: set<Site>, x: Setting, done: seq<Access>)
    requires Mirrors(st, x, done) && field == OfField(st.recs, x.fid)
    requires blk == set r | r in field && r in st.active && r.site.Some? && r !in st.weak :: r.site.value
    ensures BlockedLocs(blk, x.entry) == ActiveStrong(x, done)
  {
    hide Active, Represents;
    var locs := BlockedLocs(blk, x.entry);
    forall l | l in locs ensures l in ActiveStrong(x, done) {
      var s :| s in blk && s.At? && s.entry == x.entry && s.loc == l;
      var m :| m in field && m in st.active && m.site.Some? && m !in st.weak && m.site.value == s;
      assert Written(m, x, done);
      var j :| 0 <= j < |done| && RecordOf(m, x, done[j]);
      assert FlagsAt(st, m, x, done, j);
    }
    forall l | l in ActiveStrong(x, done) ensures l in locs {
      var j :| 0 <= j < |done| && StrongWrite(done[j]) && Active(x.g, x.taken, done, j) && done[j].loc == l;
      assert Stored(st, x, done[j]);
      var m :| m in st.recs && RecordOf(m, x, done[j]);
      assert FlagsAt(st, m, x, done, j);
      assert m.site.value in blk;
    }
  }

  // ---- what a read gets --------------------------------------------------------------------------

  /** What the read `k` gets of the records of its entry: those of the writes that were visited, are
      active, and reach it around the active strong ones. */
  ghost predicate Gets(got: set<Record>, x: Setting, order: seq<Access>, k: nat)
    requires k < |order|
  {
    && (forall r :: r in got && HasCtx(r.site) ==>
          exists i :: 0 <= i < k && RecordOf(r, x, order[i]) && Active(x.g, x.taken, order[..k], i)
                      && Reach(x.g, order[i].loc, order[k].loc, ActiveStrong(x, order[..k])))
    && (forall i :: 0 <= i < k && order[i].Write? && Active(x.g, x.taken, order[..k], i)
                    && Reach(x.g, order[i].loc, order[k].loc, ActiveStrong(x, order[..k])) ==>
          exists r :: r in got && RecordOf(r, x, order[i]))
  }

  /** What it gets of the preset records. */
  ghost predicate GetsPresets(got: set<Record>, x: Setting, order: seq<Access>, k: nat)
    requires k < |order|
  {
    && (forall r :: r in got && !HasCtx(r.site) ==> r in x.base)
    && (ReachFromEntry(x.g, order[k].loc, {}) ==>
          forall r :: r in x.base ==>
            (r in got <==> (r.site.None? || EntryStands(x.g, order[..k]))
                           && ReachFromEntry(x.g, order[k].loc, ActiveStrong(x, order[..k]))))
  }

  /** What the read `k` is owed: exactly the records of its reaching definitions, and exactly those of
      the records in `base` that reach it from outside, if control gets to it at all. */
  ghost predicate Owed(got: set<Record>, x: Setting, order: seq<Access>, k: nat)
    requires k < |order|
  {
    && (forall r :: r in got && HasCtx(r.site) ==>
          exists i :: 0 <= i < |order| && RecordOf(r, x, order[i]) && Defines(x.g, order, i, k))
    && (forall i :: 0 <= i < |order| && order[i].Write? && Defines(x.g, order, i, k) ==>
          exists r :: r in got && RecordOf(r, x, order[i]))
    && (forall r :: r in got && !HasCtx(r.site) ==> r in x.base)
    && (ReachFromEntry(x.g, order[k].loc, {}) ==> forall r :: r in x.base ==>
        (r in got <==> FromOutside(x.g, order, k)))
  }

  /** What a read at `l` gets of the preset records, if control gets there at all. */
  lemma LivePresets(prog: Program, st: State, field: set<Record>, blk: set<Site>, x: Setting, done: seq<Access>,
                    l: Loc, r: Record)
    requires x.g == prog(x.entry) && Mirrors(st, x, done) && field == OfField(st.recs, x.fid)
    requires blk == set r | r in field && r in st.active && r.site.Some? && r !in st.weak :: r.site.value
    requires r in Presets(st, x.fid) && ReachFromEntry(x.g, l, {})
    ensures r in st.active && Arrives(prog, At(x.entry, l), r.site, blk) <==>
            r in x.base && (r.site.None? || EntryStands(x.g, done)) && ReachFromEntry(x.g, l, ActiveStrong(x, done))
  {
    hide Reach, ActiveStrong, ReachFromEntry, EntryStands;
    BlockersAre(st, field, blk, x, done);
    assert PresetAt(st, r, x, done);
    assert blk == {} ==> BlockedLocs(blk, x.entry) == {};
  }

  /** What a read at `l` gets when the field mirrors the visited accesses. */
  lemma LiveIs(prog: Program, st: State, field: set<Record>, blk: set<Site>, x: Setting, done: seq<Access>,
               l: Loc, r: Record, i: nat)
    requires x.g == prog(x.entry) && Mirrors(st, x, done) && field == OfField(st.recs, x.fid)
    requires blk == set r | r in field && r in st.active && r.site.Some? && r !in st.weak :: r.site.value
    requires i < |done| && r in st.recs && RecordOf(r, x, done[i])
    ensures r in st.active && Arrives(prog, At(x.entry, l), r.site, blk) <==>
            Active(x.g, x.taken, done, i) && Reach(x.g, done[i].loc, l, ActiveStrong(x, done))
  {
    hide Reach, Active, ActiveStrong;
    BlockersAre(st, field, blk, x, done);
    assert FlagsAt(st, r, x, done, i);
  }

  lemma NothingForeign(prog: Program, entry: Entry, l: Loc, blk: set<Site>, r: Record)
    requires HasCtx(r.site) && Arrives(prog, At(entry, l), r.site, blk)
    ensures !Foreign(r, entry)
  {
  }

  lemma ReadGets(prog: Program, st: State, field: set<Record>, blk: set<Site>, x: Setting, order: seq<Access>, k: nat,
                 got: set<Record>)
    requires x.g == prog(x.entry) && k < |order| && order[k].Read?
    requires Mirrors(st, x, order[..k]) && field == OfField(st.recs, x.fid)
    requires blk == set r | r in field && r in st.active && r.site.Some? && r !in st.weak :: r.site.value
    requires got == set r | r in field && r in st.active && Arrives(prog, At(x.entry, order[k].loc), r.site, blk)
    ensures Gets(got, x, order, k) && GetsPresets(got, x, order, k)
  {
    hide Arrives, Active, Reach, ActiveStrong, ReachFromEntry, EntryStands, Alone, Represents;
    var done, l := order[..k], order[k].loc;
    forall r | r in got && HasCtx(r.site)
      ensures exists i :: 0 <= i < k && RecordOf(r, x, order[i]) && Active(x.g, x.taken, done, i)
                          && Reach(x.g, order[i].loc, l, ActiveStrong(x, done))
    {
      NothingForeign(prog, x.entry, l, blk, r);
      assert Written(r, x, done);
      var i :| 0 <= i < |done| && RecordOf(r, x, done[i]);
      assert order[i] == done[i];
      LiveIs(prog, st, field, blk, x, done, l, r, i);
    }
    forall i | 0 <= i < k && order[i].Write? && Active(x.g, x.taken, done, i)
               && Reach(x.g, order[i].loc, l, ActiveStrong(x, done))
      ensures exists r :: r in got && RecordOf(r, x, order[i])
    {
      assert done[i] == order[i] && Stored(st, x, done[i]);
      var r :| r in st.recs && RecordOf(r, x, done[i]);
      LiveIs(prog, st, field, blk, x, done, l, r, i);
      assert r in got;
    }
    forall r | r in got && !HasCtx(r.site) ensures r in x.base {
      assert PresetAt(st, r, x, done);
    }
    forall r | r in x.base && ReachFromEntry(x.g, l, {})
      ensures r in got <==> (r.site.None? || EntryStands(x.g, done)) && ReachFromEntry(x.g, l, ActiveStrong(x, done))
    {
      LivePresets(prog, st, field, blk, x, done, l, r);
    }
  }

  lemma ActiveStrongIsStrong(x: Setting, order: seq<Access>, k: nat)
    requires k < |order|
    ensures ActiveStrong(x, order[..k]) <= AllStrong(order)
    ensures forall j :: 0 <= j < k && StrongWrite(order[j]) && Active(x.g, x.taken, order[..k], j) ==>
              order[j].loc in ActiveStrong(x, order[..k])
  {
    hide Active;
    var done := order[..k];
    assert forall i :: 0 <= i < k ==> done[i] == order[i];
  }

  /** Among the writes each of which is visited once, a record belongs to one. */
  lemma OneWrite(x: Setting, order: seq<Access>, r: Record, i: nat, j: nat)
    requires Once(order) && i < |order| && j < |order| && RecordOf(r, x, order[i]) && RecordOf(r, x, order[j])
    ensures i == j
  {
    if i < j {
      OnceAt(order, i, j);
    } else if j < i {
      OnceAt(order, j, i);
    }
  }

  lemma GotIsActive(x: Setting, order: seq<Access>, k: nat, got: set<Record>, r: Record, i: nat)
    requires Once(order) && k < |order| && Gets(got, x, order, k) && i < |order| && order[i].Write?
    requires r in got && RecordOf(r, x, order[i])
    ensures i < k && Active(x.g, x.taken, order[..k], i)
  {
    hide Reach, Active, ActiveStrong, Once;
    var j :| 0 <= j < k && RecordOf(r, x, order[j]) && Active(x.g, x.taken, order[..k], j);
    OneWrite(x, order, r, i, j);
  }

  lemma OwedIsKept(x: Setting, order: seq<Access>, k: nat, got: set<Record>)
    requires Once(order) && k < |order| && Gets(got, x, order, k) && GetsPresets(got, x, order, k)
             && Owed(got, x, order, k)
    requires forall r :: r in x.base ==> !HasCtx(r.site)
    ensures Kept(x, order, k)
  {
    hide Reach, Active, ActiveStrong, EntryStands, Once, Defines, FromOutside, ReachFromEntry;
    forall i | 0 <= i < |order| && order[i].Write? && Defines(x.g, order, i, k)
      ensures i < k && Active(x.g, x.taken, order[..k], i)
    {
      var r :| r in got && RecordOf(r, x, order[i]);
      GotIsActive(x, order, k, got, r, i);
    }
    hide Gets;
    if r :| FromOutside(x.g, order, k) && r in x.base && r.site.Some? {
      OutsideIsIn(x.g, order, k);
      assert r in got;
    }
  }

  lemma EnteredAnyway(g: Graph, l: Loc, blk: set<Loc>)
    requires ReachFromEntry(g, l, blk)
    ensures ReachFromEntry(g, l, {})
  {
    hide ReachFromEntry, Reach;
    ReachFromEntryMeaning(g, l, blk);
    ReachFromEntryMeaning(g, l, {});
    var p :| WayIn(g, p, l, blk);
    assert WayIn(g, p, l, {});
  }

  lemma OutsideIsIn(g: Graph, order: seq<Access>, k: nat)
    requires k < |order| && FromOutside(g, order, k)
    ensures ReachFromEntry(g, order[k].loc, {})
  {
    hide ReachFromEntry;
    EnteredAnyway(g, order[k].loc, AllStrong(order));
  }

  lemma KeptBlockers(x: Setting, order: seq<Access>, k: nat)
    requires k < |order| && Kept(x, order, k)
    ensures ActiveStrong(x, order[..k]) <= AllStrong(order)
    ensures forall j :: 0 <= j < |order| && StrongWrite(order[j]) && Defines(x.g, order, j, k) ==>
              order[j].loc in ActiveStrong(x, order[..k])
  {
    hide Active, Defines, FromOutside, EntryStands, ActiveStrong;
    ActiveStrongIsStrong(x, order, k);
  }

  lemma KeptWrites(x: Setting, order: seq<Access>, k: nat, got: set<Record>)
    requires k < |order| && Gets(got, x, order, k) && Kept(x, order, k)
    ensures forall r :: r in got && HasCtx(r.site) ==>
              exists i :: 0 <= i < |order| && RecordOf(r, x, order[i]) && Defines(x.g, order, i, k)
    ensures forall i :: 0 <= i < |order| && order[i].Write? && Defines(x.g, order, i, k) ==>
              exists r :: r in got && RecordOf(r, x, order[i])
  {
    hide Reach, Active, ActiveStrong, EntryStands, Defines, FromOutside;
    var blk := ActiveStrong(x, order[..k]);
    KeptBlockers(x, order, k);
    forall r | r in got && HasCtx(r.site)
      ensures exists i :: 0 <= i < |order| && RecordOf(r, x, order[i]) && Defines(x.g, order, i, k)
    {
      var i :| 0 <= i < k && RecordOf(r, x, order[i]) && Active(x.g, x.taken, order[..k], i)
               && Reach(x.g, order[i].loc, order[k].loc, blk);
      BlockersDecide(x.g, order, i, k, blk);
    }
    forall i | 0 <= i < |order| && order[i].Write? && Defines(x.g, order, i, k)
      ensures exists r :: r in got && RecordOf(r, x, order[i])
    {
      BlockersDecide(x.g, order, i, k, blk);
    }
  }

  lemma KeptIsOwed(x: Setting, order: seq<Access>, k: nat, got: set<Record>)
    requires k < |order| && Gets(got, x, order, k) && GetsPresets(got, x, order, k) && Kept(x, order, k)
    ensures Owed(got, x, order, k)
  {
    hide Reach, Active, ActiveStrong, EntryStands, Defines, FromOutside, ReachFromEntry, Gets;
    KeptWrites(x, order, k, got);
    KeptBlockers(x, order, k);
    OutsideDecides(x.g, order, k, ActiveStrong(x, order[..k]));
  }

  /** A read gets what it is owed exactly if nothing of that has been lost. */
  lemma ReadIsOwed(x: Setting, order: seq<Access>, k: nat, got: set<Record>)
    requires Once(order) && k < |order| && Gets(got, x, order, k) && GetsPresets(got, x, order, k)
    requires forall r :: r in x.base ==> !HasCtx(r.site)
    ensures Owed(got, x, order, k) <==> Kept(x, order, k)
  {
    hide Gets, GetsPresets, Owed, Kept, Once;
    if Owed(got, x, order, k) {
      OwedIsKept(x, order, k, got);
    }
    if Kept(x, order, k) {
      KeptIsOwed(x, order, k, got);
    }
  }

  // ---- from one entry to the next ----------------------------------------------------------------

  /** The field before the first access under `entry`: nothing was written there under this entry,
      and the preset records have their pointees to themselves. */
  ghost predicate Unseen(st: State, fid: int, entry: Entry, order: seq<Access>) {
    && (forall r :: r in st.recs && r.fid == fid && HasCtx(r.site) ==> Foreign(r, entry))
    && (forall r :: r in Presets(st, fid) ==> Alone(st, r, order))
  }

  /** The preset records the accesses under `entry` start with: the active ones, and with a switch
      all global ones. */
  function Begun(st: State, last: map<int, Entry>, fid: int, entry: Entry): set<Record> {
    set r | r in Presets(st, fid) && (r in st.active || (Global(r) && fid in last && last[fid] != entry))
  }

  function SettingAt(prog: Program, st: State, last: map<int, Entry>, fid: int, entry: Entry): Setting {
    Setting(fid, entry, prog(entry), Taken(st, fid, entry), Begun(st, last, fid, entry))
  }

  lemma NothingVisited(prog: Program, a: State, b: State, last: map<int, Entry>, fid: int, entry: Entry, site: Site)
    requires Exact(a) && Unseen(a, fid, entry, []) && site.At? && site.entry == entry
    requires Switched(a, b, fid, last, Some(site))
    ensures Mirrors(b, SettingAt(prog, a, last, fid, entry), [])
  {
    var x := SettingAt(prog, a, last, fid, entry);
    assert Presets(b, fid) == Presets(a, fid) && Taken(b, fid, entry) == Taken(a, fid, entry);
    forall r | r in Presets(b, fid) ensures PresetAt(b, r, x, []) {
      assert Alone(a, r, []);
      if fid in last && last[fid] != entry {
        var seen := OfField(a.recs, fid);
        if r in a.reps {
          assert SettledRep(a, b, r, seen, entry);
          assert Alike(r, r) && r in seen;
        } else {
          assert SettledOne(a, b, r, seen, entry);
        }
      }
    }
  }

  /** The field is ready for the next access: the switch is still to come, or all is in order. */
  ghost predicate Ready(prog: Program, st: State, last: map<int, Entry>, x: Setting, done: seq<Access>) {
    if x.fid in last && last[x.fid] != x.entry then
      done == [] && Unseen(st, x.fid, x.entry, []) && x == SettingAt(prog, st, last, x.fid, x.entry)
    else
      Mirrors(st, x, done)
  }

  lemma ReadyAtFirst(prog: Program, st: State, last: map<int, Entry>, fid: int, entry: Entry)
    requires Exact(st) && Unseen(st, fid, entry, [])
    ensures Ready(prog, st, last, SettingAt(prog, st, last, fid, entry), [])
  {
    if !(fid in last && last[fid] != entry) {
      NothingVisited(prog, st, st, last, fid, entry, At(entry, 0));
    }
  }

  lemma ReadyToGo(prog: Program, a: State, b: State, last: map<int, Entry>, x: Setting, l: Loc, done: seq<Access>)
    requires Exact(a) && Ready(prog, a, last, x, done) && Switched(a, b, x.fid, last, Some(At(x.entry, l)))
    ensures Mirrors(b, x, done) && Presets(b, x.fid) == Presets(a, x.fid)
  {
    hide Mirrors;
    if x.fid in last && last[x.fid] != x.entry {
      NothingVisited(prog, a, b, last, x.fid, x.entry, At(x.entry, l));
    }
  }

  /** The accesses under `entry` added records of their own to the field, and no others. */
  ghost predicate Grown(a: State, b: State, fid: int, entry: Entry) {
    && a.recs <= b.recs
    && (forall r :: r in b.recs - a.recs ==>
          r.fid == fid && r.site.Some? && r.site.value.At? && r.site.value.entry == entry)
  }

  /** What all reads of a visit get, and when that is what they are owed. */
  ghost predicate Answers(live: seq<set<Record>>, x: Setting, order: seq<Access>) {
    |live| == |order|
    && forall k :: 0 <= k < |order| && order[k].Read? ==> Answer(live[k], x, order, k)
  }

  ghost predicate Answer(got: set<Record>, x: Setting, order: seq<Access>, k: nat)
    requires k < |order|
  {
    Gets(got, x, order, k) && GetsPresets(got, x, order, k) && (Owed(got, x, order, k) <==> Kept(x, order, k))
  }

  /** GlobalVisitor::analyze seen from one field: every access is visited once, in some order.  A read
      gets its reaching definitions, and the preset records that reach it, exactly if none of them has
      been lost on the way.  The field may hold records of other entries. */
  method Analyze(ghost world: set<AliasObject>, o: AliasObject, fid: int, entry: Entry, order: seq<Access>)
    returns (live: seq<set<Record>>)
    requires o.Valid(world) && Isolated(o.Snapshot(world), o.lastPtoReset)
    requires Unseen(o.Snapshot(world), fid, entry, order) && Once(order)
    requires forall a :: a in order && a.Write? && a.p.target.Some? ==> a.p.target.value in world
    modifies o, world`pointsFrom
    ensures o.Valid(world) && Isolated(o.Snapshot(world), o.lastPtoReset)
    ensures o.lastPtoReset == if order == [] then old(o.lastPtoReset) else old(o.lastPtoReset)[fid := entry]
    ensures Grown(old(o.Snapshot(world)), o.Snapshot(world), fid, entry)
    ensures order == [] ==> o.Snapshot(world) == old(o.Snapshot(world))
    ensures Ready(o.prog, o.Snapshot(world), o.lastPtoReset,
                  SettingAt(o.prog, old(o.Snapshot(world)), old(o.lastPtoReset), fid, entry), order)
    ensures Answers(live, SettingAt(o.prog, old(o.Snapshot(world)), old(o.lastPtoReset), fid, entry), order)
  {
    hide Exact, Isolated, Updated, Mirrors, Once, Settling, Arrives, Ready, Alone, Presets, Answer, Unseen;
    live := [];
    ghost var st, last := o.Snapshot(world), o.lastPtoReset;
    ghost var x := SettingAt(o.prog, st, last, fid, entry);
    NoneStored(st, fid, entry, order);
    BaseIsPreset(o.prog, st, last, fid, entry);
    ReadyAtFirst(o.prog, st, last, fid, entry);
    for k := 0 to |order|
      invariant o.Valid(world) && Isolated(o.Snapshot(world), o.lastPtoReset)
      invariant Ready(o.prog, o.Snapshot(world), o.lastPtoReset, x, order[..k])
      invariant Presets(o.Snapshot(world), fid) == Presets(st, fid) && Grown(st, o.Snapshot(world), fid, entry)
      invariant o.lastPtoReset == if k == 0 then last else last[fid := entry]
      invariant k == 0 ==> o.Snapshot(world) == st
      invariant |live| == k && forall n :: 0 <= n < k && order[n].Read? ==> Answer(live[n], x, order, n)
    {
      var a := order[k];
      assert a in order && order[..k + 1] == order[..k] + [a];
      var got := {};
      if a.Read? {
        got := Look(world, o, fid, entry, x, order, k);
      } else {
        Put(world, o, fid, entry, x, order, k);
      }
      live := live + [got];
    }
    assert order[..|order|] == order;
  }

  lemma NoneStored(st: State, fid: int, entry: Entry, order: seq<Access>)
    requires Unseen(st, fid, entry, order)
    ensures Unseen(st, fid, entry, [])
    ensures forall r, a :: r in Presets(st, fid) && a in order && a.Write? ==> a.p != r.to
  {
    forall r | r in Presets(st, fid) ensures Alone(st, r, []) && forall a :: a in order && a.Write? ==> a.p != r.to {
      assert Alone(st, r, order);
    }
  }

  lemma BaseIsPreset(prog: Program, st: State, last: map<int, Entry>, fid: int, entry: Entry)
    ensures forall r :: r in SettingAt(prog, st, last, fid, entry).base ==> !HasCtx(r.site)
  {
  }

  method Look(ghost world: set<AliasObject>, o: AliasObject, fid: int, entry: Entry, ghost x: Setting,
              order: seq<Access>, k: nat)
    returns (got: set<Record>)
    requires o.Valid(world) && Isolated(o.Snapshot(world), o.lastPtoReset)
    requires x.fid == fid && x.entry == entry && x.g == o.prog(entry)
    requires Once(order) && k < |order| && order[k].Read?
    requires forall r :: r in x.base ==> !HasCtx(r.site)
    requires Ready(o.prog, o.Snapshot(world), o.lastPtoReset, x, order[..k])
    modifies o`active, o`lastPtoReset
    ensures o.Valid(world) && Isolated(o.Snapshot(world), o.lastPtoReset)
    ensures o.Snapshot(world).recs == old(o.Snapshot(world)).recs && o.lastPtoReset == old(o.lastPtoReset)[fid := entry]
    ensures Presets(o.Snapshot(world), fid) == Presets(old(o.Snapshot(world)), fid)
    ensures Ready(o.prog, o.Snapshot(world), o.lastPtoReset, x, order[..k] + [order[k]])
    ensures Answer(got, x, order, k)
  {
    hide Exact, Isolated, Mirrors, Owed, Gets, GetsPresets, Kept, Settling, Arrives, Switched, Presets, Unseen, Once;
    ghost var a, last := o.Snapshot(world), o.lastPtoReset;
    got := o.FetchLive(world, fid, Some(At(entry, order[k].loc)));
    ghost var st := o.Snapshot(world);
    ReadyToGo(o.prog, a, st, last, x, order[k].loc, order[..k]);
    o.FieldIs(world, fid);
    ReadGets(o.prog, st, o.Field(fid), o.Blockers(fid), x, order, k, got);
    ReadIsOwed(x, order, k, got);
    MirrorsRead(st, x, order[..k], order[k]);
  }

  method Put(ghost world: set<AliasObject>, o: AliasObject, fid: int, entry: Entry, ghost x: Setting,
             order: seq<Access>, k: nat)
    requires o.Valid(world) && Isolated(o.Snapshot(world), o.lastPtoReset)
    requires x.fid == fid && x.entry == entry && x.g == o.prog(entry)
    requires Once(order) && k < |order| && order[k].Write?
    requires order[k].p.target.Some? ==> order[k].p.target.value in world
    requires Ready(o.prog, o.Snapshot(world), o.lastPtoReset, x, order[..k])
    requires forall r :: r in Presets(o.Snapshot(world), fid) ==> order[k].p != r.to
    modifies o, world`pointsFrom
    ensures o.Valid(world) && Isolated(o.Snapshot(world), o.lastPtoReset)
    ensures Presets(o.Snapshot(world), fid) == Presets(old(o.Snapshot(world)), fid)
    ensures Grown(old(o.Snapshot(world)), o.Snapshot(world), fid, entry)
    ensures o.lastPtoReset == old(o.lastPtoReset)[fid := entry]
    ensures Ready(o.prog, o.Snapshot(world), o.lastPtoReset, x, order[..k] + [order[k]])
  {
    hide Exact, Isolated, Mirrors, Updated, Settling, Unified, Switched, Presets, Unseen, Once;
    var w := order[k];
    ghost var a, last := o.Snapshot(world), o.lastPtoReset;
    OneUnified(w.p, w.weak);
    PrefixIsOnce(order, k);
    var fptos;
    ghost var mid, dead;
    fptos, mid, dead := o.UpdateFieldPointsTo(world, fid, {Incoming(w.p, w.weak)}, Some(At(entry, w.loc)), -1);
    SwitchKeepsExact(a, mid, fid, last, Some(At(entry, w.loc)));
    ReadyToGo(o.prog, a, mid, last, x, w.loc, order[..k]);
    WriteGrows(o.prog, mid, o.Snapshot(world), fid, entry, w, fptos, dead);
    assert Incoming(w.p, w.weak) in {Incoming(w.p, w.weak)};
    MirrorsWrite(o.prog, mid, o.Snapshot(world), x, order[..k], w, fptos, dead);
  }

  lemma WriteGrows(prog: Program, a: State, b: State, fid: int, entry: Entry, w: Access,
                   added: set<Record>, dead: set<Record>)
    requires w.Write? && Updated(prog, a, b, fid, {Incoming(w.p, w.weak)}, Some(At(entry, w.loc)), added, dead)
    ensures Grown(a, b, fid, entry)
  {
  }

  lemma SwitchKeepsExact(a: State, b: State, fid: int, last: map<int, Entry>, site: Option<Site>)
    requires Exact(a) && Switched(a, b, fid, last, site)
    ensures Exact(b) && b.recs == a.recs
  {
    hide SettledRep, SettledOne;
    assert forall r :: Indexed(a, r) <==> Indexed(b, r);
  }

  lemma PrefixIsOnce(order: seq<Access>, k: nat)
    requires Once(order) && k < |order|
    ensures Once(order[..k] + [order[k]])
  {
    assert order[..k] + [order[k]] == order[..k + 1];
  }

  // ---- all entries -------------------------------------------------------------------------------

  /** The accesses of the field under one entry, in the order of the visit. */
  datatype Visit = Visit(entry: Entry, order: seq<Access>)

  /** The field between two entries: what was written there was written under the `past` ones, for the
      pointees `known`, and the preset records are active unless a switch is to come that wakes them. */
  ghost predicate Between(st: State, last: map<int, Entry>, fid: int, past: set<Entry>,
                          known: set<Pointee<AliasObject>>) {
    && (forall r :: r in st.recs && r.fid == fid && HasCtx(r.site) ==> r.site.value.entry in past)
    && known == (set r | r in st.recs && r.fid == fid && HasCtx(r.site) :: r.to)
    && (fid in last ==> last[fid] in past)
    && (forall r :: r in Presets(st, fid) ==>
          Alone(st, r, []) && ((fid in last && Global(r)) || r in st.active))
  }

  lemma BeforeNext(prog: Program, st: State, last: map<int, Entry>, fid: int, past: set<Entry>,
                   known: set<Pointee<AliasObject>>, v: Visit)
    requires Between(st, last, fid, past, known) && v.entry !in past
    requires forall r, a :: r in Presets(st, fid) && a in v.order && a.Write? ==> a.p != r.to
    ensures Unseen(st, fid, v.entry, v.order)
    ensures SettingAt(prog, st, last, fid, v.entry) == Setting(fid, v.entry, prog(v.entry), known, Presets(st, fid))
  {
    forall r | r in Presets(st, fid) ensures Alone(st, r, v.order) {
      assert Alone(st, r, []);
    }
    assert Taken(st, fid, v.entry) == known;
  }

  /** The pointees of the writes of a visit. */
  function Stores(order: seq<Access>): set<Pointee<AliasObject>> {
    set a | a in order && a.Write? :: a.p
  }

  lemma AfterVisit(prog: Program, a: State, b: State, last: map<int, Entry>, past: set<Entry>,
                   known: set<Pointee<AliasObject>>, v: Visit, x: Setting)
    requires Between(a, last, x.fid, past, known) && v.entry !in past && Grown(a, b, x.fid, v.entry)
    requires x.entry == v.entry && x.taken == known && x.base == Presets(a, x.fid)
    requires v.order == [] ==> b == a
    requires v.order != [] ==> Ready(prog, b, last[x.fid := v.entry], x, v.order)
    ensures Between(b, if v.order == [] then last else last[x.fid := v.entry], x.fid, past + {v.entry},
                    known + Stores(v.order))
    ensures Presets(b, x.fid) == Presets(a, x.fid)
  {
    hide EntryStands, Active, Represents;
    assert Presets(b, x.fid) == Presets(a, x.fid);
    if v.order != [] {
      forall r | r in Presets(b, x.fid) ensures Alone(b, r, []) && (Global(r) || r in b.active) {
        assert PresetAt(b, r, x, v.order);
      }
      VisitStores(a, b, x, v.order, known);
    }
  }

  lemma VisitStores(a: State, b: State, x: Setting, order: seq<Access>, known: set<Pointee<AliasObject>>)
    requires Mirrors(b, x, order) && a.recs <= b.recs && x.taken == known
    requires known == set r | r in a.recs && r.fid == x.fid && HasCtx(r.site) :: r.to
    ensures (set r | r in b.recs && r.fid == x.fid && HasCtx(r.site) :: r.to) == known + Stores(order)
  {
    hide PresetAt, FlagsAt;
    forall r | r in b.recs && r.fid == x.fid && HasCtx(r.site) ensures r.to in known + Stores(order) {
      if !Foreign(r, x.entry) {
        assert Written(r, x, order);
      } else {
        assert r.to in Taken(b, x.fid, x.entry);
      }
    }
    forall p | p in Stores(order) ensures exists r :: r in b.recs && r.fid == x.fid && HasCtx(r.site) && r.to == p {
      var i :| 0 <= i < |order| && order[i].Write? && order[i].p == p;
      assert Stored(b, x, order[i]);
    }
  }

  /** The setting of each visit: the pointees stored before are taken, all preset records are there. */
  ghost function SettingOf(prog: Program, fid: int, known: set<Pointee<AliasObject>>, base: set<Record>,
                           visits: seq<Visit>, n: nat): Setting
    requires n < |visits|
  {
    Setting(fid, visits[n].entry, prog(visits[n].entry), known + StoredBefore(visits, n), base)
  }

  function StoredBefore(visits: seq<Visit>, n: nat): set<Pointee<AliasObject>>
    requires n <= |visits|
  {
    if n == 0 then {} else StoredBefore(visits, n - 1) + Stores(visits[n - 1].order)
  }

  /** What a visit stores lies in the world, and no preset record has it for a pointee. */
  ghost predicate Storable(world: set<AliasObject>, base: set<Record>, v: Visit) {
    forall a :: a in v.order && a.Write? ==>
      && (a.p.target.Some? ==> a.p.target.value in world)
      && forall r :: r in base ==> a.p != r.to
  }

  /** One more entry. */
  method AnalyzeNext(ghost world: set<AliasObject>, o: AliasObject, fid: int, ghost past: set<Entry>,
                     ghost known: set<Pointee<AliasObject>>, v: Visit)
    returns (live: seq<set<Record>>)
    requires o.Valid(world) && Isolated(o.Snapshot(world), o.lastPtoReset)
    requires Between(o.Snapshot(world), o.lastPtoReset, fid, past, known)
    requires v.entry !in past && Once(v.order) && Storable(world, Presets(o.Snapshot(world), fid), v)
    modifies o, world`pointsFrom
    ensures o.Valid(world) && Isolated(o.Snapshot(world), o.lastPtoReset)
    ensures Between(o.Snapshot(world), o.lastPtoReset, fid, past + {v.entry}, known + Stores(v.order))
    ensures Presets(o.Snapshot(world), fid) == Presets(old(o.Snapshot(world)), fid)
    ensures Answers(live, Setting(fid, v.entry, o.prog(v.entry), known, Presets(old(o.Snapshot(world)), fid)), v.order)
  {
    hide Exact, Isolated, Mirrors, Answers, Once, Ready, Between, Presets, Unseen, Grown, SettingAt, Stores;
    ghost var st, last := o.Snapshot(world), o.lastPtoReset;
    ghost var x := Setting(fid, v.entry, o.prog(v.entry), known, Presets(st, fid));
    BeforeNext(o.prog, st, last, fid, past, known, v);
    live := Analyze(world, o, fid, v.entry, v.order);
    AfterVisit(o.prog, st, o.Snapshot(world), last, past, known, v, x);
  }

  /** The answers to the visits so far. */
  ghost predicate AllAnswered(prog: Program, live: seq<seq<set<Record>>>, fid: int, known: set<Pointee<AliasObject>>,
                              base: set<Record>, visits: seq<Visit>) {
    && |live| <= |visits|
    && forall i :: 0 <= i < |live| ==> Answers(live[i], SettingOf(prog, fid, known, base, visits, i), visits[i].order)
  }

  lemma OneMoreAnswered(prog: Program, live: seq<seq<set<Record>>>, fid: int, known: set<Pointee<AliasObject>>,
                        base: set<Record>, visits: seq<Visit>, all: seq<set<Record>>)
    requires AllAnswered(prog, live, fid, known, base, visits) && |live| < |visits|
    requires Answers(all, SettingOf(prog, fid, known, base, visits, |live|), visits[|live|].order)
    ensures AllAnswered(prog, live + [all], fid, known, base, visits)
  {
    hide Answers, SettingOf;
    var more := live + [all];
    forall i | 0 <= i < |more| ensures Answers(more[i], SettingOf(prog, fid, known, base, visits, i), visits[i].order) {
      assert i < |live| ==> more[i] == live[i];
    }
  }

  lemma NextSetting(prog: Program, fid: int, known: set<Pointee<AliasObject>>, base: set<Record>, visits: seq<Visit>,
                    n: nat)
    requires n < |visits|
    ensures var v := visits[n];
            && SettingOf(prog, fid, known, base, visits, n)
               == Setting(fid, v.entry, prog(v.entry), known + StoredBefore(visits, n), base)
            && known + StoredBefore(visits, n) + Stores(v.order) == known + StoredBefore(visits, n + 1)
  {
    hide Stores;
  }

  lemma NoneAnsweredYet(prog: Program, fid: int, known: set<Pointee<AliasObject>>, base: set<Record>,
                        visits: seq<Visit>)
    ensures AllAnswered(prog, [], fid, known, base, visits) && known + StoredBefore(visits, 0) == known
  {
  }

  /** The entries of the visits are different ones, and not among the `past` ones. */
  ghost predicate NewEntries(visits: seq<Visit>, past: set<Entry>) {
    && (forall v :: v in visits ==> v.entry !in past)
    && forall i, j :: 0 <= i < j < |visits| ==> visits[i].entry != visits[j].entry
  }

  lemma NextIsNew(visits: seq<Visit>, n: nat, past: set<Entry>)
    requires n < |visits| && NewEntries(visits[n..], past)
    ensures visits[n].entry !in past && NewEntries(visits[n + 1..], past + {visits[n].entry})
  {
    var rest, more := visits[n..], visits[n + 1..];
    assert rest[0] == visits[n];
    assert rest[0] in rest;
    assert forall i :: 0 <= i < |more| ==> more[i] == rest[i + 1] && more[i] in rest;
    assert forall i :: 0 < i < |rest| ==> rest[0].entry != rest[i].entry;
  }

  /** The whole analysis, entry after entry: under every entry each read gets exactly the reaching
      definitions of that entry and the preset records that reach it, unless something of that has been
      lost, whatever the other entries stored, and although each of them may have switched the preset
      records off. */
  method AnalyzeAll(ghost world: set<AliasObject>, o: AliasObject, fid: int, ghost past: set<Entry>,
                    ghost known: set<Pointee<AliasObject>>, visits: seq<Visit>)
    returns (live: seq<seq<set<Record>>>)
    requires o.Valid(world) && Isolated(o.Snapshot(world), o.lastPtoReset)
    requires Between(o.Snapshot(world), o.lastPtoReset, fid, past, known) && NewEntries(visits, past)
    requires forall v :: v in visits ==> Once(v.order) && Storable(world, Presets(o.Snapshot(world), fid), v)
    modifies o, world`pointsFrom
    ensures o.Valid(world) && Isolated(o.Snapshot(world), o.lastPtoReset)
    ensures |live| == |visits|
    ensures AllAnswered(o.prog, live, fid, known, Presets(old(o.Snapshot(world)), fid), visits)
  {
    hide *;
    live := [];
    ghost var base, been := Presets(o.Snapshot(world), fid), past;
    NoneAnsweredYet(o.prog, fid, known, base, visits);
    assert visits[0..] == visits;
    for n := 0 to |visits|
      invariant o.Valid(world) && Isolated(o.Snapshot(world), o.lastPtoReset)
      invariant Between(o.Snapshot(world), o.lastPtoReset, fid, been, known + StoredBefore(visits, n))
      invariant Presets(o.Snapshot(world), fid) == base && NewEntries(visits[n..], been)
      invariant |live| == n && AllAnswered(o.prog, live, fid, known, base, visits)
    {
      var v := visits[n];
      assert v in visits;
      NextIsNew(visits, n, been);
      NextSetting(o.prog, fid, known, base, visits, n);
      var all := AnalyzeNext(world, o, fid, been, known + StoredBefore(visits, n), v);
      OneMoreAnswered(o.prog, live, fid, known, base, visits, all);
      been := been + {v.entry};
      live := live + [all];
    }
  }

  // ---- functions without loops -------------------------------------------------------------------

  /** In an acyclic function, visited in topological order and without tangles, every read gets what it
      is owed. */
  lemma AcyclicIsOwed(live: seq<set<Record>>, x: Setting, order: seq<Access>, k: nat)
    requires Answers(live, x, order) && Acyclic(x.g) && Topological(x.g, order) && Untangled(x.g, x.taken, order)
    requires k < |order| && order[k].Read?
    ensures Owed(live[k], x, order, k)
  {
    hide Acyclic, Topological, Untangled, Gets, GetsPresets, Owed, Kept;
    TopologicalIsSettled(x.g, order, k);
    UntangledUpTo(x.g, x.taken, order, k);
    SettledIsKept(x, order, k);
    assert Answer(live[k], x, order, k);
  }

  // ---- two programs that lose a definition -------------------------------------------------------

  /** Two branches meet in 4; the one through 2 goes on to 3 before. */
  function ForkGraph(): Graph {
    Graph(0, map[0 := {1, 2}, 1 := {4}, 2 := {3}, 3 := {4}])
  }

  /** Both branches store `p`, the second one stores `q` after it, and where they meet there is a read. */
  function ForkOrder(p: Pointee<AliasObject>, q: Pointee<AliasObject>): seq<Access> {
    [Write(1, p, false), Write(2, p, false), Write(3, q, false), Read(4)]
  }

  lemma {:induction false} PathsClimb(p: seq<Loc>, k: nat)
    requires IsPath(ForkGraph(), p, {}) && k < |p|
    ensures p[0] <= p[k]
  {
    if k == 0 {
    } else {
      PathsClimb(p, k - 1);
      assert p[k - 1 + 1] in ForkGraph().Succ(p[k - 1]);
    }
  }

  lemma ForkClimbs(a: Loc, b: Loc)
    requires b < a
    ensures !Reach(ForkGraph(), a, b, {})
  {
    hide ForkGraph, Reach;
    ReachIffPath(ForkGraph(), a, b, {});
    if p :| IsPath(ForkGraph(), p, {}) && Joins(p, a, b) {
      PathsClimb(p, |p| - 1);
    }
  }

  lemma ForkIsOrdered(p: Pointee<AliasObject>, q: Pointee<AliasObject>)
    ensures Acyclic(ForkGraph()) && Topological(ForkGraph(), ForkOrder(p, q)) && Once(ForkOrder(p, q))
  {
    hide Reach;
    forall x, y | y in ForkGraph().Succ(x) ensures !Reach(ForkGraph(), y, x, {}) {
      ForkClimbs(y, x);
    }
    forall i, j | 0 <= i < j < 4 ensures !Reach(ForkGraph(), ForkOrder(p, q)[j].loc, ForkOrder(p, q)[i].loc, {}) {
      ForkClimbs(ForkOrder(p, q)[j].loc, ForkOrder(p, q)[i].loc);
    }
  }

  lemma ForkOverrides()
    ensures PostDom(ForkGraph(), 3, 2, true) && !PostDom(ForkGraph(), 2, 1, true) && !PostDom(ForkGraph(), 3, 1, true)
  {
    hide PostDom;
    var g := ForkGraph();
    PostDomMeaning(g, 3, 2);
    PostDomMeaning(g, 2, 1);
    PostDomMeaning(g, 3, 1);
    forall p | LeavesThrough(g, p, 2) ensures 3 in p {
      assert g.Succ(2) == {3};
      assert |p| > 1 && p[1] == 3;
    }
    assert g.Succ(1) == {4} && g.Succ(4) == {};
    assert LeavesThrough(g, [1, 4], 1) && 2 !in [1, 4] && 3 !in [1, 4];
  }

  lemma ForkDefines(p: Pointee<AliasObject>, q: Pointee<AliasObject>)
    ensures Defines(ForkGraph(), ForkOrder(p, q), 0, 3)
  {
    hide Reach;
    var g, all := ForkGraph(), AllStrong(ForkOrder(p, q));
    assert 4 in g.Succ(1);
    assert IsPath(g, [1, 4], all) && Joins([1, 4], 1, 4);
    ReachIffPath(g, 1, 4, all);
  }

  lemma ForkIsTangled(p: Pointee<AliasObject>, q: Pointee<AliasObject>)
    requires p != q && p.target.Some?
    ensures Tangled(ForkGraph(), {}, ForkOrder(p, q), 0, 1, 2)
  {
    hide PostDom, ForkGraph;
    ForkOverrides();
  }

  /** The branch that stores `q` overrides only its own store of `p`.  The record that falls with it
      through the index is that of the other branch, and the read where they meet does not get it. */
  method SharedPointeeIsLost()
    returns (ghost x: Setting, ghost p: Pointee<AliasObject>, ghost q: Pointee<AliasObject>, live: seq<set<Record>>)
    ensures p != q && x.g == ForkGraph() && Answers(live, x, ForkOrder(p, q))
    ensures Acyclic(x.g) && Topological(x.g, ForkOrder(p, q)) && Defines(x.g, ForkOrder(p, q), 0, 3)
    ensures forall r :: r in live[3] ==> !RecordOf(r, x, ForkOrder(p, q)[0])
  {
    hide *;
    var prog: Program := e => ForkGraph();
    var t := new AliasObject(prog);
    var u := new AliasObject(prog);
    var o := new AliasObject(prog);
    var first, other: Pointee<AliasObject> := Pointee(Some(t), 0), Pointee(Some(u), 0);
    p, q := first, other;
    ForkIsOrdered(p, q);
    ForkDefines(p, q);
    ForkIsTangled(p, q);
    ghost var world := {o, t, u};
    NewIsUnseen(world, o, ForkOrder(p, q));
    ForkTargets(world, p, q);
    x := SettingAt(prog, o.Snapshot(world), o.lastPtoReset, 0, 0);
    live := Analyze(world, o, 0, 0, ForkOrder(first, other));
    TangleIsMissed(x, ForkOrder(p, q), live, 0, 1, 2, 3);
  }

  lemma ForkTargets(world: set<AliasObject>, p: Pointee<AliasObject>, q: Pointee<AliasObject>)
    requires p.target.Some? && q.target.Some? && p.target.value in world && q.target.value in world
    ensures |ForkOrder(p, q)| == 4 && ForkOrder(p, q)[3].Read?
    ensures forall a :: a in ForkOrder(p, q) && a.Write? && a.p.target.Some? ==> a.p.target.value in world
  {
  }

  lemma NewIsUnseen(world: set<AliasObject>, o: AliasObject, order: seq<Access>)
    requires o in world && o.pointsTo == map[] && o.lastPtoReset == map[] && o.active == {} && o.weak == {}
    requires forall t :: t in world ==> t.pointsFrom == map[]
    ensures o.Valid(world) && Isolated(o.Snapshot(world), o.lastPtoReset) && Unseen(o.Snapshot(world), 0, 0, order)
    ensures SettingAt(o.prog, o.Snapshot(world), o.lastPtoReset, 0, 0) == Setting(0, 0, o.prog(0), {}, {})
  {
    NewIsOpen(world, o);
    var st := o.Snapshot(world);
    assert Presets(st, 0) == {} && Taken(st, 0, 0) == {} && Begun(st, o.lastPtoReset, 0, 0) == {};
  }

  /** A read right after a tangle does not get the record that is lost in it. */
  lemma TangleIsMissed(x: Setting, order: seq<Access>, live: seq<set<Record>>, i: nat, j: nat, w: nat, k: nat)
    requires Answers(live, x, order) && Once(order) && Tangled(x.g, x.taken, order, i, j, w)
    requires k == w + 1 < |order| && order[k].Read?
    ensures forall r :: r in live[k] ==> !RecordOf(r, x, order[i])
  {
    hide Active, Once, Owed, Kept, GetsPresets, Reach, ActiveStrong, Tangled;
    TangleLoses(x.g, x.taken, order, i, j, w);
    TangleBounds(x.g, x.taken, order, i, j, w);
    assert Answer(live[k], x, order, k);
    forall r | r in live[k] ensures !RecordOf(r, x, order[i]) {
      if RecordOf(r, x, order[i]) {
        GotIsActive(x, order, k, live[k], r, i);
      }
    }
  }

  /** A while loop: control enters its header 2, goes through the body 1 and back, and leaves to 3. */
  function WhileGraph(): Graph {
    Graph(0, map[0 := {2}, 1 := {2}, 2 := {1, 3}])
  }

  /** The header reads what the body writes. */
  function WhileOrder(p: Pointee<AliasObject>): seq<Access> {
    [Read(2), Write(1, p, false)]
  }

  lemma BodyDefinesHeader(p: Pointee<AliasObject>)
    ensures Defines(WhileGraph(), WhileOrder(p), 1, 0) && Once(WhileOrder(p))
  {
    hide Reach;
    var g, all := WhileGraph(), AllStrong(WhileOrder(p));
    assert 2 in g.Succ(1);
    assert IsPath(g, [1, 2], all) && Joins([1, 2], 1, 2);
    ReachIffPath(g, 1, 2, all);
  }

  /** A loop is visited once, its header first: the read in the header does not see the store of the
      body. */
  method HeaderMissesTheBody() returns (ghost x: Setting, ghost p: Pointee<AliasObject>, live: seq<set<Record>>)
    ensures x.g == WhileGraph() && Answers(live, x, WhileOrder(p)) && Defines(x.g, WhileOrder(p), 1, 0)
    ensures live[0] == {}
  {
    hide *;
    var prog: Program := e => WhileGraph();
    var t := new AliasObject(prog);
    var o := new AliasObject(prog);
    var other: Pointee<AliasObject> := Pointee(Some(t), 0);
    p := other;
    BodyDefinesHeader(p);
    ghost var world := {o, t};
    NewIsUnseen(world, o, WhileOrder(p));
    WhileTargets(world, p);
    x := SettingAt(prog, o.Snapshot(world), o.lastPtoReset, 0, 0);
    live := Analyze(world, o, 0, 0, WhileOrder(other));
    FirstGetsNothing(x, WhileOrder(p), live);
  }

  lemma WhileTargets(world: set<AliasObject>, p: Pointee<AliasObject>)
    requires p.target.Some? && p.target.value in world
    ensures |WhileOrder(p)| == 2 && WhileOrder(p)[0].Read?
    ensures forall a :: a in WhileOrder(p) && a.Write? && a.p.target.Some? ==> a.p.target.value in world
  {
  }

  lemma FirstGetsNothing(x: Setting, order: seq<Access>, live: seq<set<Record>>)
    requires Answers(live, x, order) && order != [] && order[0].Read? && x.base == {}
    ensures live[0] == {}
  {
    hide Owed, Kept, Active, ActiveStrong, Reach, ReachFromEntry;
    assert Answer(live[0], x, order, 0);
    assert Gets(live[0], x, order, 0) && GetsPresets(live[0], x, order, 0);
  }
}
