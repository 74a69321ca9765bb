/** The vocabulary of the schedule builder: what it is told, what it records, and what that means. */
module BuildFacts {
  import opened Cfg
  import opened ThreadSpec
  import opened Threads
  import opened Constraints
  import opened SchedSpec
  import opened Traces
  import EqvPaths
  import EqvPairs

  /** A lock site with the unlock sites it is paired with. */
  datatype LockInfo = LockInfo(id: nat, loc: Loc, unlocks: seq<Loc>)

  /** Two nodes of one thread around a part of it: CREATE and JOIN, or a lock and an unlock. */
  type Span = (InstLocTr, InstLocTr)

  /** The regions recorded for each lock. */
  type LockMap = map<LockInfo, set<Span>>

  /** A condition check that guards a location, and the locations that would defeat it. */
  datatype Check = Check(cloc: Loc, klocs: seq<Loc>)

  /** What the rest of the analysis tells the schedule builder. */
  datatype GlobalState = GlobalState(
    locks: seq<LockInfo>,
    ctxPrefix: (Loc, Loc) -> bool,
    sameLockObjs: (LockInfo, LockInfo) -> bool,
    checks: Loc -> seq<Check>,
    localHeap: EqvPaths.Pto -> bool,
    ranges: seq<Loc> -> seq<(Loc, Loc)>)

  /** No call is filed both as a lock and as an unlock. */
  ghost predicate SitesApart(locks: seq<LockInfo>) {
    forall a, b :: a in locks && b in locks ==> a.loc !in b.unlocks
  }

  /** What addCondTrLocs does with one killer: take it back out, give up, or keep it. */
  datatype Verdict = Dropped | Deadly | Kept

  /** A CREATE/JOIN pair and what the child thread held when it was recorded. */
  datatype SyncFact = SyncFact(t: nat, held: seq<Ev<InstLocTr>>, c: InstLocTr, j: InstLocTr)

  /** A condition check that is in place, with the killers recorded to follow it. */
  datatype CheckFact = CheckFact(c: InstLocTr, kept: set<InstLocTr>)

  /** Why there is no schedule: `dead` defeats the check `c` in front of `n` and cannot come after it. */
  datatype Clash = Clash(n: InstLocTr, c: InstLocTr, dead: InstLocTr)

  /** One hop of an escape/fetch path: the object escapes, is fetched, and is then used. */
  datatype Link = Link(esc: Option<InstLocTr>, fetch: InstLocTr, use: InstLocTr)

  /** The paths taken to the freed and to the used object, with their links. */
  datatype Route = Route(path0: EqvPaths.Path, path1: EqvPaths.Path, links0: seq<Link>, links1: seq<Link>)

  /** Everything a build records: the links of both paths, the killers of the checks that are in place, the
      sync pairs, the lock clusters, the locations whose locks and checks have been dealt with, the
      moments at which that was, and the schedule before the first of them. */
  datatype Recorded = Recorded(
    links0: seq<Link>,
    links1: seq<Link>,
    kills: set<CheckFact>,
    sync: set<SyncFact>,
    cl: seq<set<LockInfo>>,
    done: set<InstLocTr>,
    hist: set<State<InstLocTr>>,
    start: State<InstLocTr>)

  /** How far a path has been walked back: see `CursorAt`. */
  datatype Cursor = Cursor(use: Loc, next: Option<Loc>)

  /** Where the building of a schedule ended. */
  datatype Stage = InitFailed | PathFailed | Infeasible | Complete

  /** Each recorded region runs from the site of its lock to an unlock site of that lock. */
  ghost predicate Filed(gs: GlobalState, locks: LockMap) {
    forall l, p {:trigger p in locks[l]} :: l in locks && p in locks[l] ==>
      l in gs.locks && p.0.loc == l.loc && p.1.loc in l.unlocks
  }

  lemma FiledMore(gs: GlobalState, locks: LockMap, l: LockInfo, p: Span)
    requires Filed(gs, locks) && l in gs.locks && p.0.loc == l.loc && p.1.loc in l.unlocks
    ensures Filed(gs, locks[l := (if l in locks then locks[l] else {}) + {p}])
  {
    var more := locks[l := (if l in locks then locks[l] else {}) + {p}];
    forall m: LockInfo, q: Span | m in more && q in more[m]
      ensures m in gs.locks && q.0.loc == m.loc && q.1.loc in m.unlocks
    {
      if m != l {
        assert m in locks && q in locks[m];
      } else if q != p {
        assert l in locks && q in locks[l];
      }
    }
  }

  // ---- single insertions and their undoing -------------------------------------------------

  function Anywhere(loc: Loc, ty: EvTy, dom: bool): Request {
    Request(loc, {ty}, true, dom, -1, -1)
  }

  // ---- thread creation and join ------------------------------------------------------------

  /** The constraints of a pair around a child thread. */
  ghost function BracketClauses(s: seq<Ev<InstLocTr>>, c: InstLocTr, j: InstLocTr): set<Clause<InstLocTr>> {
    if s == [] then {} else {[(c, s[0].node)], [(s[|s| - 1].node, j)]}
  }

  /** What became of a thread that was offered a pair: it has the pair exactly if it takes both events. */
  ghost predicate SyncOutcome(g: Graph, was: Trace, now: Trace, has: bool, stLoc: Loc, edLoc: Loc) {
    (has <==> SyncFits(g, was, stLoc, edLoc)) && now == SyncTrace(g, was, stLoc, edLoc)
  }

  lemma PairClausesGrow(was: map<Thread, Span>, pairs: map<Thread, Span>,
                               s: seq<Ev<InstLocTr>>, tr: Thread?)
    requires pairs == was || (tr != null && tr !in was && tr in pairs && pairs == was[tr := pairs[tr]])
    ensures PairClauses(was, s) <= PairClauses(pairs, s)
  {
    hide BracketClauses, PairClauses;
    if pairs != was {
      MorePairClauses(was, s, tr, pairs[tr]);
    }
  }

  ghost function PairClauses(pairs: map<Thread, Span>, s: seq<Ev<InstLocTr>>): set<Clause<InstLocTr>> {
    set t, d | t in pairs && d in BracketClauses(s, pairs[t].0, pairs[t].1) :: d
  }

  lemma MorePairClauses(pairs: map<Thread, Span>, s: seq<Ev<InstLocTr>>, t: Thread, p: Span)
    requires t !in pairs
    ensures PairClauses(pairs, s) + BracketClauses(s, p.0, p.1) <= PairClauses(pairs[t := p], s)
  {
    hide BracketClauses;
    var more := pairs[t := p];
    forall d | d in PairClauses(pairs, s) ensures d in PairClauses(more, s) {
      var u: Thread :| u in pairs && d in BracketClauses(s, pairs[u].0, pairs[u].1);
      assert u in more && more[u] == pairs[u];
    }
    forall d | d in BracketClauses(s, p.0, p.1) ensures d in PairClauses(more, s) {
      assert t in more && more[t] == p;
    }
  }

  // ---- locks -------------------------------------------------------------------------------

  /** The node a successful insertion has made, if it has made one. */
  ghost function NewOne(n: InstLocTr?, ec: int): set<InstLocTr> {
    if n != null && ec >= 0 then var x: InstLocTr := n; {x} else {}
  }

  ghost predicate LocksLe(a: LockMap, b: LockMap) {
    forall l :: l in a ==> l in b && a[l] <= b[l]
  }

  // ---- condition checks --------------------------------------------------------------------

  /** In schedule `s` a killer at `kloc` is not kept for the check at `cloc` in thread `k`. */
  ghost predicate DroppedAt(g: Graph, s: State<InstLocTr>, k: nat, cloc: Loc, kloc: Loc) {
    k < |s| && ThreadSpec.Has(s[k], cloc) && KillerDropped(g, TracesOf(s), k, IndexOf(s[k], cloc), kloc)
  }

  /** In schedule `s` a killer at `kloc` dooms the check at `cloc` in thread `k`. */
  ghost predicate FatalAt(g: Graph, s: State<InstLocTr>, k: nat, cloc: Loc, kloc: Loc) {
    k < |s| && ThreadSpec.Has(s[k], cloc) && KillerFatal(g, TracesOf(s), k, IndexOf(s[k], cloc), kloc)
  }

  lemma FatalIsKept(g: Graph, s: State<InstLocTr>, k: nat, cloc: Loc, kloc: Loc)
    requires FatalAt(g, s, k, cloc, kloc)
    ensures !DroppedAt(g, s, k, cloc, kloc)
  {
    FatalIsNotDropped(g, TracesOf(s), k, IndexOf(s[k], cloc), kloc);
  }

  /** In schedule `s` a killer at `kloc` gets between the node at `floc`, which is for nothing but a FREE, and
      the check at `cloc`: thread `k` is the first to take it, and takes it, new or merged, behind the one and
      not behind the other. */
  ghost predicate Trapped(g: Graph, s: State<InstLocTr>, k: nat, floc: Loc, cloc: Loc, kloc: Loc) {
    var q := Request(kloc, {GSet}, true, false, -1, -1);
    && k < |s| && (forall y :: 0 <= y < k ==> !Accepted(InsertCode(g, s[y], q))) && Accepted(InsertCode(g, s[k], q))
    && IsTrap(g, s[k], q, floc, cloc)
  }

  /** With the killer in, it is behind the FREE and not behind the check. */
  ghost predicate IsTrap(g: Graph, s: seq<Ev<InstLocTr>>, q: Request, floc: Loc, cloc: Loc)
    requires Fits(s, q)
  {
    var r := Inserted(g, Bare(s), q, q.loc);
    && ThreadSpec.Has(s, cloc) && ThreadSpec.Has(r, floc) && ThreadSpec.Has(r, q.loc) && ThreadSpec.Has(r, cloc)
    && IndexOf(r, floc) < IndexOf(r, q.loc) <= IndexOf(r, cloc) && r[IndexOf(r, floc)].ty == {Free}
  }

  /** Such a killer is never dropped: it dooms the check. */
  lemma TrappedIsFatal(g: Graph, s: State<InstLocTr>, k: nat, floc: Loc, cloc: Loc, kloc: Loc)
    requires Trapped(g, s, k, floc, cloc, kloc)
    ensures FatalAt(g, s, k, cloc, kloc) && !DroppedAt(g, s, k, cloc, kloc)
  {
    hide Reach, FreshCode, SameCode, Dom, InsertCode, Inserted, IsTrap;
    var q := Request(kloc, {GSet}, true, false, -1, -1);
    FirstTakerIs(g, s, q, k);
    TrapIsThere(g, s[k], q, floc, cloc);
    FatalIsKept(g, s, k, cloc, kloc);
  }

  lemma TrapIsThere(g: Graph, s: seq<Ev<InstLocTr>>, q: Request, floc: Loc, cloc: Loc)
    requires Fits(s, q) && q.start == -1 && q.stop == -1 && !q.dom && Accepted(InsertCode(g, s, q))
    requires IsTrap(g, s, q, floc, cloc)
    ensures ThreadSpec.Has(s, cloc) && IndexOf(s, cloc) < |Bare(s)|
    ensures var t := Bare(s); var ec, c := InsertCode(g, t, q), IndexOf(s, cloc);
            && Accepted(ec) && Landing(g, t, q) <= Shifted(ec, c) < |Inserted(g, t, q, q.loc)|
            && !Harmless(g, Inserted(g, t, q, q.loc), Shifted(ec, c), Landing(g, t, q))
  {
    hide Reach, FreshCode, SameCode, Dom;
    var t := Bare(s);
    BareInsert(g, s, q);
    BareIndex(s, cloc);
    LandedAt(g, t, q, q.loc);
    ShiftedAt(g, t, q, q.loc, cloc);
  }

  lemma LandedAt(g: Graph, t: Trace, q: Request, n: Loc)
    requires Fits(t, q) && Accepted(InsertCode(g, t, q))
    ensures var r, x := Inserted(g, t, q, n), Landing(g, t, q); ThreadSpec.Has(r, q.loc) && IndexOf(r, q.loc) == x < |r|
  {
    hide Reach, FreshCode, SameCode;
    var r, x := Inserted(g, t, q, n), Landing(g, t, q);
    assert r[x].loc == q.loc;
    assert forall y :: 0 <= y < x ==> r[y].loc == t[y].loc;
  }

  lemma ShiftedAt(g: Graph, t: Trace, q: Request, n: Loc, loc: Loc)
    requires Fits(t, q) && ThreadSpec.Has(t, loc)
    ensures var r, x := Inserted(g, t, q, n), Shifted(InsertCode(g, t, q), IndexOf(t, loc));
            ThreadSpec.Has(r, loc) && IndexOf(r, loc) == x < |r|
  {
    hide Reach, FreshCode, SameCode;
    var r, i, ec := Inserted(g, t, q, n), IndexOf(t, loc), InsertCode(g, t, q);
    var x := Shifted(ec, i);
    assert r[x].loc == loc;
    forall y | 0 <= y < x ensures r[y].loc != loc {
      if ec >= 0 {
        assert r[y] == if y < ec then t[y] else if y == ec then Ev(n, q.loc, q.ty) else t[y - 1];
      } else {
        assert r[y].loc == t[y].loc;
      }
    }
  }

  /** In schedule `s` a check in front of `loc` in thread `k` comes to nothing. */
  ghost predicate VainAt(g: Graph, s: State<InstLocTr>, k: nat, loc: Loc, check: Check) {
    k < |s| && ThreadSpec.Has(s[k], loc) && CheckVain(g, TracesOf(s), k, IndexOf(s[k], loc), check.cloc, check.klocs)
  }

  /** What recording the killers `kept` of the check `c` adds. */
  ghost function KillClauses(c: InstLocTr, kept: set<InstLocTr>): set<Clause<InstLocTr>> {
    set k | k in kept && k != c :: [(c, k)]
  }

  /** From `cs` to `ds` the killers in `facts` were recorded to follow their checks, and nothing else. */
  ghost predicate KillsExact(cs: seq<Clause<InstLocTr>>, ds: seq<Clause<InstLocTr>>, facts: set<CheckFact>) {
    && cs <= ds
    && (forall i :: |cs| <= i < |ds| ==> exists f :: f in facts && ds[i] in KillClauses(f.c, f.kept))
    && (forall f, k :: f in facts && k in f.kept ==> f.c == k || [(f.c, k)] in ds)
  }

  lemma NoKills(cs: seq<Clause<InstLocTr>>)
    ensures KillsExact(cs, cs, {})
  {
  }

  lemma KillsJoin(cs: seq<Clause<InstLocTr>>, ds: seq<Clause<InstLocTr>>, es: seq<Clause<InstLocTr>>,
                         a: set<CheckFact>, b: set<CheckFact>)
    requires KillsExact(cs, ds, a) && KillsExact(ds, es, b)
    ensures KillsExact(cs, es, a + b)
  {
    hide KillClauses;
    assert forall x :: x in ds ==> x in es;
    forall i | |cs| <= i < |es| ensures exists f :: f in a + b && es[i] in KillClauses(f.c, f.kept) {
      if i < |ds| {
        assert es[i] == ds[i];
        var f :| f in a && ds[i] in KillClauses(f.c, f.kept);
        assert f in a + b;
      } else {
        var f :| f in b && es[i] in KillClauses(f.c, f.kept);
        assert f in a + b;
      }
    }
  }

  /** In schedule `s` a killer of a check was tried, without dooming it: it is kept, or it was dropped. */
  ghost predicate TriedAt(g: Graph, s: State<InstLocTr>, kept: set<InstLocTr>, k: nat, cloc: Loc, kloc: Loc) {
    && k < |s| && ThreadSpec.Has(s[k], cloc) && !FatalAt(g, s, k, cloc, kloc)
    && ((exists x :: x in kept && x.loc == kloc) || DroppedAt(g, s, k, cloc, kloc))
  }

  /** One killer of a check has been dealt with: it was tried at some moment, and did not doom the check. */
  ghost predicate KillerSettled(g: Graph, kept: set<InstLocTr>, hist: set<State<InstLocTr>>, k: nat, cloc: Loc,
                                kloc: Loc) {
    exists s :: s in hist && TriedAt(g, s, kept, k, cloc, kloc)
  }

  lemma KillerStaysSettled(g: Graph, kept: set<InstLocTr>, hist: set<State<InstLocTr>>, k: nat, cloc: Loc, kloc: Loc,
                                  kept': set<InstLocTr>, hist': set<State<InstLocTr>>)
    requires KillerSettled(g, kept, hist, k, cloc, kloc) && kept <= kept' && hist <= hist'
    ensures KillerSettled(g, kept', hist', k, cloc, kloc)
  {
    hide DroppedAt, FatalAt;
    var s :| s in hist && TriedAt(g, s, kept, k, cloc, kloc);
    assert TriedAt(g, s, kept', k, cloc, kloc);
  }

  /** The first `i` killers of the check at `cloc` have been tried since the schedule was `st0`. */
  ghost predicate KillerPhase(g: Graph, st0: State<InstLocTr>, st: State<InstLocTr>, k: nat, cloc: Loc, klocs: seq<Loc>,
                              i: nat, kept: set<InstLocTr>, newLocs: set<InstLocTr>, hist: set<State<InstLocTr>>) {
    && i <= |klocs| && |st0| == |st|
    && (forall j :: 0 <= j < i ==> KillerSettled(g, kept, hist, k, cloc, klocs[j]))
    && (kept == {} ==> forall j :: 0 <= j < i ==> DroppedAt(g, st0, k, cloc, klocs[j]))
    && (kept != {} ==> exists j :: 0 <= j < i && !DroppedAt(g, st0, k, cloc, klocs[j]))
    && (kept == {} ==> st == st0)
    && (forall s :: s in hist ==> Grown(st0, s) && Grown(s, st) && |s| == |st|)
    && NodesOf(st) <= NodesOf(st0) + newLocs
  }

  lemma KillerPhaseStep(g: Graph, st0: State<InstLocTr>, st: State<InstLocTr>, st': State<InstLocTr>, k: nat, cloc: Loc,
                               klocs: seq<Loc>, i: nat, kept: set<InstLocTr>, newLocs: set<InstLocTr>,
                               hist: set<State<InstLocTr>>, x: Option<InstLocTr>, isNew: bool)
    requires KillerPhase(g, st0, st, k, cloc, klocs, i, kept, newLocs, hist) && i < |klocs|
    requires Grown(st0, st) && Grown(st, st') && |st'| == |st|
    requires x.None? <==> DroppedAt(g, st, k, cloc, klocs[i])
    requires k < |st| && ThreadSpec.Has(st[k], cloc) && !FatalAt(g, st, k, cloc, klocs[i])
    requires x.None? ==> st' == st
    requires x.Some? ==> x.value.loc == klocs[i] && NodesOf(st') <= NodesOf(st) + if isNew then {x.value} else {}
    ensures var kept' := if x.Some? then kept + {x.value} else kept;
            var newLocs' := if x.Some? && isNew then newLocs + {x.value} else newLocs;
            KillerPhase(g, st0, st', k, cloc, klocs, i + 1, kept', newLocs', hist + {st})
  {
    hide GrownSeq, DroppedAt, FatalAt, NodesOf;
    var kept' := if x.Some? then kept + {x.value} else kept;
    assert TriedAt(g, st, kept', k, cloc, klocs[i]);
    forall j | 0 <= j <= i ensures KillerSettled(g, kept', hist + {st}, k, cloc, klocs[j]) {
      if j < i {
        KillerStaysSettled(g, kept, hist, k, cloc, klocs[j], kept', hist + {st});
      }
    }
    forall s | s in hist ensures Grown(s, st') {
      GrownTrans(s, st, st');
    }
  }

  lemma KillerPhaseStarts(g: Graph, st: State<InstLocTr>, k: nat, cloc: Loc, klocs: seq<Loc>)
    ensures KillerPhase(g, st, st, k, cloc, klocs, 0, {}, {}, {})
  {
    hide DroppedAt, NodesOf, GrownSeq;
  }

  lemma PhaseUnchanged(g: Graph, st0: State<InstLocTr>, st: State<InstLocTr>, k: nat, cloc: Loc, klocs: seq<Loc>,
                       i: nat, kept: set<InstLocTr>, newLocs: set<InstLocTr>, hist: set<State<InstLocTr>>)
    requires KillerPhase(g, st0, st, k, cloc, klocs, i, kept, newLocs, hist)
    ensures kept == {} ==> st == st0
  {
    hide KillerSettled, DroppedAt, NodesOf, GrownSeq;
  }

  // ---- the worklist ------------------------------------------------------------------------

  /** Every region recorded now was there before or is one of `added`. */
  ghost predicate OnlyNew(was: LockMap, now: LockMap,
                                 added: set<Span>) {
    forall l, p :: l in now && p in now[l] ==> (l in was && p in was[l]) || p in added
  }

  lemma NothingNew(locks: LockMap)
    ensures OnlyNew(locks, locks, {})
  {
  }

  // ---- what has been tried ---------------------------------------------------------------------

  /** A region of `li` around `n` is on record. */
  ghost predicate RecordedAt(locks: LockMap, s: seq<Ev<InstLocTr>>, n: InstLocTr,
                                    li: LockInfo, u: Loc) {
    && li in locks
    && exists p :: p in locks[li] && p.0.loc == li.loc && p.1.loc == u && NotAfter(s, p.0, n) && Before(s, n, p.1)
  }

  ghost predicate RefusedAt(g: Graph, s: State<InstLocTr>, k: nat, loc: Loc, lock: Loc, unlock: Loc) {
    k < |s| && ThreadSpec.Has(s[k], loc) && !RegionFits(g, Bare(s[k]), IndexOf(s[k], loc), lock, unlock)
  }

  /** At some moment the region did not fit around `loc`. */
  ghost predicate RegionRefused(g: Graph, hist: set<State<InstLocTr>>, k: nat, loc: Loc, lock: Loc, unlock: Loc) {
    exists s :: s in hist && RefusedAt(g, s, k, loc, lock, unlock)
  }

  lemma SameLocks(locks: LockMap)
    ensures LocksLe(locks, locks)
  {
  }

  lemma OnlyNewTrans(was: LockMap, mid: LockMap,
                            now: LockMap, added: set<Span>,
                            more: set<Span>)
    requires OnlyNew(was, mid, added) && OnlyNew(mid, now, more)
    ensures OnlyNew(was, now, added + more)
  {
  }

  /** The check `f.c` is in front of `n`, and each killer of the check is recorded to follow it, or was
      dropped when it was tried. */
  ghost predicate CheckPlacedAt(g: Graph, st: State<InstLocTr>, cs: seq<Clause<InstLocTr>>, k: nat, n: InstLocTr,
                                check: Check, f: CheckFact, hist: set<State<InstLocTr>>) {
    && k < |st| && f.c.loc == check.cloc && NotAfter(st[k], f.c, n) && Marked(st[k], f.c, GCheck) && f.kept != {}
    && (forall x :: x in f.kept ==> x.loc in check.klocs && MarkedIn(st, x, GSet) && (f.c == x || [(f.c, x)] in cs))
    && (forall j :: 0 <= j < |check.klocs| ==> KillerSettled(g, f.kept, hist, k, f.c.loc, check.klocs[j]))
  }

  /** One check of `n` has been dealt with: it is in place, or it came to nothing when it was tried. */
  ghost predicate CheckDone(g: Graph, st: State<InstLocTr>, cs: seq<Clause<InstLocTr>>, k: nat, n: InstLocTr,
                            check: Check, facts: set<CheckFact>, hist: set<State<InstLocTr>>) {
    || check.klocs == []
    || (exists f :: f in facts && CheckPlacedAt(g, st, cs, k, n, check, f, hist))
    || (exists s :: s in hist && VainAt(g, s, k, n.loc, check))
  }

  lemma CheckStaysDone(g: Graph, st: State<InstLocTr>, cs: seq<Clause<InstLocTr>>, st': State<InstLocTr>,
                       cs': seq<Clause<InstLocTr>>, k: nat, n: InstLocTr, check: Check, facts: set<CheckFact>,
                       hist: set<State<InstLocTr>>, facts': set<CheckFact>, hist': set<State<InstLocTr>>)
    requires CheckDone(g, st, cs, k, n, check, facts, hist) && k < |st|
    requires Grown(st, st') && cs <= cs' && facts <= facts' && hist <= hist'
    ensures CheckDone(g, st', cs', k, n, check, facts', hist')
  {
    hide VainAt, GrownSeq, KillerSettled, NotAfter, Marked, MarkedIn;
    if f :| f in facts && CheckPlacedAt(g, st, cs, k, n, check, f, hist) {
      GrownSeqBefore(st[k], st'[k], f.c, n);
      assert forall x :: x in cs ==> x in cs';
      GrownMarked(st[k], st'[k], f.c, GCheck);
      forall x | x in f.kept ensures MarkedIn(st', x, GSet) {
        GrownMarkedIn(st, st', x, GSet);
      }
      forall j | 0 <= j < |check.klocs| ensures KillerSettled(g, f.kept, hist', k, f.c.loc, check.klocs[j]) {
        KillerStaysSettled(g, f.kept, hist, k, f.c.loc, check.klocs[j], f.kept, hist');
      }
      assert CheckPlacedAt(g, st', cs', k, n, check, f, hist');
    }
  }

  /** The first `i` checks of `n` have been tried since the schedule was `st0`. */
  ghost predicate CheckPhase(g: Graph, st0: State<InstLocTr>, st: State<InstLocTr>, cs: seq<Clause<InstLocTr>>, k: nat,
                             n: InstLocTr, checks: seq<Check>, i: nat, newLocs: set<InstLocTr>, facts: set<CheckFact>,
                             hist: set<State<InstLocTr>>) {
    && k < |st| && i <= |checks|
    && (forall j :: 0 <= j < i ==> CheckDone(g, st, cs, k, n, checks[j], facts, hist))
    && (forall s :: s in hist ==> Grown(st0, s) && Grown(s, st) && |s| == |st|)
    && NodesOf(st) <= NodesOf(st0) + newLocs
  }

  lemma CheckPhaseStarts(g: Graph, st: State<InstLocTr>, cs: seq<Clause<InstLocTr>>, k: nat, n: InstLocTr,
                         checks: seq<Check>)
    requires k < |st|
    ensures CheckPhase(g, st, st, cs, k, n, checks, 0, {}, {}, {})
  {
    hide NodesOf;
  }

  lemma CheckPhaseStep(g: Graph, st0: State<InstLocTr>, st: State<InstLocTr>, cs: seq<Clause<InstLocTr>>,
                              st': State<InstLocTr>, cs': seq<Clause<InstLocTr>>, k: nat, n: InstLocTr,
                              checks: seq<Check>, i: nat, newLocs: set<InstLocTr>, more: set<InstLocTr>,
                              facts: set<CheckFact>, facts': set<CheckFact>, hist: set<State<InstLocTr>>,
                              hist': set<State<InstLocTr>>)
    requires CheckPhase(g, st0, st, cs, k, n, checks, i, newLocs, facts, hist) && i < |checks|
    requires Grown(st0, st) && Grown(st, st') && |st| == |st'| && cs <= cs'
    requires CheckDone(g, st', cs', k, n, checks[i], facts', hist')
    requires forall s :: s in hist' ==> Grown(st, s) && Grown(s, st') && |s| == |st'|
    requires NodesOf(st') <= NodesOf(st) + more
    ensures CheckPhase(g, st0, st', cs', k, n, checks, i + 1, newLocs + more, facts + facts', hist + hist')
  {
    hide GrownSeq, CheckDone, NodesOf;
    forall j | 0 <= j <= i ensures CheckDone(g, st', cs', k, n, checks[j], facts + facts', hist + hist') {
      if j < i {
        CheckStaysDone(g, st, cs, st', cs', k, n, checks[j], facts, hist, facts + facts', hist + hist');
      } else {
        GrownRefl(st');
        CheckStaysDone(g, st', cs', st', cs', k, n, checks[i], facts', hist', facts + facts', hist + hist');
      }
    }
    forall s | s in hist ensures Grown(s, st') {
      GrownTrans(s, st, st');
    }
    forall s | s in hist' ensures Grown(st0, s) {
      GrownTrans(st0, st, s);
    }
  }

  lemma OneMoreDone(all: set<InstLocTr>, todo: set<InstLocTr>, n: InstLocTr)
    requires n in todo && todo <= all
    ensures all - (todo - {n}) == (all - todo) + {n}
  {
  }

  ghost function Union(rounds: seq<set<InstLocTr>>): set<InstLocTr> {
    set r, x | r in rounds && x in r :: x
  }

  ghost function Total(rounds: seq<set<InstLocTr>>): nat {
    if rounds == [] then 0 else Total(rounds[..|rounds| - 1]) + |rounds[|rounds| - 1]|
  }

  /** All but the last round. */
  ghost function TotalBefore(rounds: seq<set<InstLocTr>>): nat {
    if rounds == [] then 0 else Total(rounds[..|rounds| - 1])
  }

  lemma OneMoreRound(rounds: seq<set<InstLocTr>>, more: set<InstLocTr>)
    ensures TotalBefore(rounds + [more]) == Total(rounds)
    ensures Union(rounds + [more]) == Union(rounds) + more && Total(rounds + [more]) == Total(rounds) + |more|
  {
    assert (rounds + [more])[..|rounds|] == rounds;
    forall x | x in more ensures x in Union(rounds + [more]) {
      assert more in rounds + [more];
    }
    forall x | x in Union(rounds) ensures x in Union(rounds + [more]) {
      var r :| r in rounds && x in r;
      assert r in rounds + [more];
    }
  }

  // ---- mutual exclusion --------------------------------------------------------------------

  /** `cl` cuts `keys` into disjoint clusters. */
  ghost predicate Partition(cl: seq<set<LockInfo>>, keys: set<LockInfo>) {
    && (forall i, a :: 0 <= i < |cl| && a in cl[i] ==> a in keys)
    && (forall a :: a in keys ==> exists i :: 0 <= i < |cl| && a in cl[i])
    && (forall i, j :: 0 <= i < j < |cl| ==> cl[i] !! cl[j])
    && (forall i :: 0 <= i < |cl| ==> cl[i] != {})
  }

  lemma PartitionJoin(cl: seq<set<LockInfo>>, done: set<LockInfo>, i: nat, li: LockInfo)
    requires Partition(cl, done) && i < |cl| && li !in done
    ensures Partition(cl[i := cl[i] + {li}], done + {li})
  {
    var r := cl[i := cl[i] + {li}];
    forall a | a in done + {li} ensures exists j :: 0 <= j < |r| && a in r[j] {
      if a == li {
        assert a in r[i];
      } else {
        var j :| 0 <= j < |cl| && a in cl[j];
        assert a in r[j];
      }
    }
  }

  lemma PartitionNew(cl: seq<set<LockInfo>>, done: set<LockInfo>, li: LockInfo)
    requires Partition(cl, done) && li !in done
    ensures Partition(cl + [{li}], done + {li})
  {
    var r := cl + [{li}];
    forall a | a in done + {li} ensures exists j :: 0 <= j < |r| && a in r[j] {
      if a == li {
        assert a in r[|cl|];
      } else {
        var j :| 0 <= j < |cl| && a in cl[j];
        assert a in r[j];
      }
    }
  }

  /** The clauses that keep every two of `pairs` apart that the code tells apart. */
  ghost function ExclusionClauses(pairs: set<Span>): set<Clause<InstLocTr>> {
    set p, q | p in pairs && q in pairs && p.0 != q.0 && p.1 != q.1 :: ExclusionClause(p, q)
  }

  /** Every two regions whose locks are in the cluster are excluded. */
  ghost predicate ClusterExcluded(cluster: set<LockInfo>, locks: LockMap,
                                         cs: seq<Clause<InstLocTr>>) {
    forall l, m, p, q :: (l in cluster && m in cluster && l in locks && m in locks && p in locks[l] && q in locks[m])
                         ==> p.0 == q.0 || p.1 == q.1 || ExclusionClause(p, q) in cs
  }

  lemma StillClusterExcluded(cluster: set<LockInfo>, locks: LockMap,
                                    cs: seq<Clause<InstLocTr>>, ds: seq<Clause<InstLocTr>>)
    requires ClusterExcluded(cluster, locks, cs) && cs <= ds
    ensures ClusterExcluded(cluster, locks, ds)
  {
    hide ExclusionClause;
    assert forall x :: x in cs ==> x in ds;
  }

  ghost function Regions(cluster: set<LockInfo>, locks: LockMap): set<Span> {
    set l, p | l in cluster && l in locks && p in locks[l] :: p
  }

  /** What keeping the regions of each cluster apart adds. */
  ghost function ClusterClauses(cl: seq<set<LockInfo>>, locks: LockMap): set<Clause<InstLocTr>> {
    set i, d | 0 <= i < |cl| && d in ExclusionClauses(Regions(cl[i], locks)) :: d
  }

  lemma OneOfClusters(cl: seq<set<LockInfo>>, locks: LockMap, i: nat)
    requires i < |cl|
    ensures ExclusionClauses(Regions(cl[i], locks)) <= ClusterClauses(cl, locks)
  {
    hide ExclusionClauses, Regions;
  }

  // ---- the order inside each thread --------------------------------------------------------

  ghost predicate OrderedTo(s: seq<Ev<InstLocTr>>, cs: seq<Clause<InstLocTr>>, k: nat) {
    forall i :: 0 <= i < |s| - 1 && i < k && s[i].node != s[i + 1].node ==> [(s[i].node, s[i + 1].node)] in cs
  }

  lemma OrderedToEnds(s: seq<Ev<InstLocTr>>, cs: seq<Clause<InstLocTr>>)
    ensures OrderedTo(s, cs, 0)
    ensures OrderedTo(s, cs, if |s| == 0 then 0 else |s| - 1) ==> ThreadOrdered(s, cs)
  {
  }

  lemma OrderedToNext(s: seq<Ev<InstLocTr>>, cs: seq<Clause<InstLocTr>>, ds: seq<Clause<InstLocTr>>, k: nat)
    requires OrderedTo(s, cs, k) && k + 1 < |s|
    requires ds == cs + OrderClauses(Some(s[k].node), Some(s[k + 1].node))
    ensures OrderedTo(s, ds, k + 1) && Adds(cs, ds, ThreadClauses(s))
  {
    assert forall x :: x in cs ==> x in ds;
    assert NextClause(s, k) in ThreadClauses(s);
    assert s[k].node != s[k + 1].node ==> ds[|cs|] == NextClause(s, k);
  }

  ghost function NextClause(s: seq<Ev<InstLocTr>>, i: nat): Clause<InstLocTr>
    requires i < |s| - 1
  {
    [(s[i].node, s[i + 1].node)]
  }

  ghost function ThreadClauses(s: seq<Ev<InstLocTr>>): set<Clause<InstLocTr>> {
    set i | 0 <= i < |s| - 1 :: NextClause(s, i)
  }

  /** What ordering every thread adds. */
  ghost function SeqClauses(st: State<InstLocTr>): set<Clause<InstLocTr>> {
    set t, d | 0 <= t < |st| && d in ThreadClauses(st[t]) :: d
  }

  lemma OneOfThreads(st: State<InstLocTr>, t: nat)
    requires t < |st|
    ensures ThreadClauses(st[t]) <= SeqClauses(st)
  {
    hide ThreadClauses;
  }

  lemma ThreadOrderedStays(s: seq<Ev<InstLocTr>>, cs: seq<Clause<InstLocTr>>, ds: seq<Clause<InstLocTr>>)
    requires ThreadOrdered(s, cs) && cs <= ds
    ensures ThreadOrdered(s, ds)
  {
    assert forall x :: x in cs ==> x in ds;
  }

  // ---- the skeleton of the bug -------------------------------------------------------------

  ghost function Single(n: InstLocTr, loc: Loc, ty: EvTy): Ev<InstLocTr> {
    Ev(n, loc, {ty})
  }

  // ---- escape and fetch paths --------------------------------------------------------------

  ghost predicate HeldAt(ts: seq<Thread>, st: State<InstLocTr>, n: InstLocTr) {
    exists k :: 0 <= k < |ts| && k < |st| && ts[k] == n.tr && Holding(st[k], n)
  }

  /** The node is in its thread, and for this among other things. */
  ghost predicate MarkedAt(ts: seq<Thread>, st: State<InstLocTr>, n: InstLocTr, ty: EvTy) {
    exists k :: 0 <= k < |ts| && k < |st| && ts[k] == n.tr && Marked(st[k], n, ty)
  }

  lemma MarkedStays(ts: seq<Thread>, st: State<InstLocTr>, ts': seq<Thread>, st': State<InstLocTr>, n: InstLocTr,
                    ty: EvTy)
    requires ts <= ts' && |st| == |ts| && Grown(st, st') && MarkedAt(ts, st, n, ty)
    ensures MarkedAt(ts', st', n, ty)
  {
    hide GrownSeq, Marked;
    var k :| 0 <= k < |ts| && k < |st| && ts[k] == n.tr && Marked(st[k], n, ty);
    GrownMarked(st[k], st'[k], n, ty);
    assert ts'[k] == n.tr;
  }

  ghost predicate InThread(ts: seq<Thread>, st: State<InstLocTr>, a: InstLocTr, b: InstLocTr) {
    exists k :: 0 <= k < |ts| && k < |st| && ts[k] == a.tr && NotAfter(st[k], a, b)
  }

  /** A link of an escape/fetch path: the fetch is in the thread of its use, not behind it, and the
      escape, wherever it is, comes before the fetch. */
  ghost predicate LinkAt(ts: seq<Thread>, st: State<InstLocTr>, cs: seq<Clause<InstLocTr>>, l: Link) {
    && InThread(ts, st, l.fetch, l.use) && MarkedAt(ts, st, l.fetch, Fetch)
    && (l.esc.Some? ==> MarkedAt(ts, st, l.esc.value, Escape) && (l.esc.value == l.fetch
                                                                  || [(l.esc.value, l.fetch)] in cs))
  }

  /** What recording `links` adds. */
  ghost function LinkClauses(links: seq<Link>): set<Clause<InstLocTr>> {
    set l | l in links && l.esc.Some? && l.esc.value != l.fetch :: [(l.esc.value, l.fetch)]
  }

  lemma HeldStays(ts: seq<Thread>, st: State<InstLocTr>, ts': seq<Thread>, st': State<InstLocTr>, n: InstLocTr)
    requires ts <= ts' && |st| == |ts| && Grown(st, st') && HeldAt(ts, st, n)
    ensures HeldAt(ts', st', n)
  {
    var k :| 0 <= k < |ts| && k < |st| && ts[k] == n.tr && Holding(st[k], n);
    GrownSeqBefore(st[k], st'[k], n, n);
    assert ts'[k] == n.tr;
  }

  lemma LinkStays(ts: seq<Thread>, st: State<InstLocTr>, cs: seq<Clause<InstLocTr>>,
                         ts': seq<Thread>, st': State<InstLocTr>, cs': seq<Clause<InstLocTr>>, l: Link)
    requires LinkAt(ts, st, cs, l) && ts <= ts' && |st| == |ts| && Grown(st, st') && cs <= cs'
    ensures LinkAt(ts', st', cs', l)
  {
    hide MarkedAt;
    if l.esc.Some? {
      MarkedStays(ts, st, ts', st', l.esc.value, Escape);
    }
    MarkedStays(ts, st, ts', st', l.fetch, Fetch);
    var k :| 0 <= k < |ts| && k < |st| && ts[k] == l.fetch.tr && NotAfter(st[k], l.fetch, l.use);
    GrownSeqBefore(st[k], st'[k], l.fetch, l.use);
    assert ts'[k] == l.fetch.tr;
    assert forall x :: x in cs ==> x in cs';
  }

  // ---- what a path asks for --------------------------------------------------------------------

  /** The points-to record of the escape paired with the fetch node at `i`. */
  function EscapePto(path: EqvPaths.Path, i: nat): Option<EqvPaths.Pto> {
    if 0 <= EqvPaths.Mirror(path, i) < |path| then Some(path[EqvPaths.Mirror(path, i)].pto) else None
  }

  /** On a path of blocks that is the escape mirrored inside the block of the fetch, through the same field. */
  lemma EscapeIsMirrored(path: EqvPaths.Path, i: nat) returns (s: nat, n: nat)
    requires EqvPaths.Blocks(path) && i < |path| && path[i].kind == EqvPaths.FETCH
    ensures EqvPaths.BlockAt(path, s, n, i)
    ensures var j := 2 * s + 2 * n - 1 - i;
            && s <= j < s + n <= i && path[j].kind == EqvPaths.ESCAPE && path[j].pto.field == path[i].pto.field
            && EscapePto(path, i) == Some(path[j].pto)
  {
    hide EqvPaths.IsBlock, EqvPaths.Mirror;
    s, n := EqvPaths.FindBlock(path, i);
    EqvPaths.MirrorInBlock(path, s, n, i);
    EqvPaths.NodesOfBlock(path, s, n, i);
    EqvPaths.PairingIsAnInvolution(path, i);
  }

  function EscapeSite(path: EqvPaths.Path, i: nat): Option<Loc> {
    if EscapePto(path, i).Some? then EscapePto(path, i).value.site else None
  }

  /** Where a path stands, walked from its end down to index `i`: the location that uses what the next
      fetch fetches, and the escape that will be that location for the part before. */
  ghost function CursorAt(path: EqvPaths.Path, i: nat, end: Loc): Cursor
    requires i <= |path|
    decreases |path| - i
  {
    if i == |path| then Cursor(end, None)
    else
      var c := CursorAt(path, i + 1, end);
      if path[i].kind != EqvPaths.FETCH then
        if c.next.Some? then Cursor(c.next.value, None) else c
      else if path[i].pto.site.None? || c.next.Some? then c
      else Cursor(c.use, EscapeSite(path, i))
  }

  ghost predicate Located(path: EqvPaths.Path) {
    forall i :: 0 <= i < |path| ==> path[i].pto.site.Some?
  }

  /** Walking back over the fetches of a block leaves the use as it is; the escape of the last of them waits. */
  lemma {:induction false} OverFetches(path: EqvPaths.Path, s: nat, n: nat, i: nat, end: Loc)
    requires Located(path) && n > 0 && s + n <= i < s + 2 * n <= |path| && EqvPaths.BlockAt(path, s, n, s)
    requires CursorAt(path, s + 2 * n, end).next == None
    ensures CursorAt(path, i, end) == Cursor(CursorAt(path, s + 2 * n, end).use, path[s].pto.site)
    decreases s + 2 * n - i
  {
    hide EqvPaths.IsBlock, EqvPaths.Mirror;
    EqvPaths.NodesOfBlock(path, s, n, s);
    if i == s + 2 * n - 1 {
      EqvPaths.MirrorInBlock(path, s, n, i);
    } else {
      OverFetches(path, s, n, i + 1, end);
    }
  }

  /** Walking on over its escapes makes that escape the use. */
  lemma {:induction false} OverEscapes(path: EqvPaths.Path, s: nat, n: nat, i: nat, end: Loc)
    requires Located(path) && n > 0 && s <= i < s + n && s + 2 * n <= |path| && EqvPaths.BlockAt(path, s, n, s)
    requires CursorAt(path, s + 2 * n, end).next == None
    ensures CursorAt(path, i, end) == Cursor(path[s].pto.site.value, None)
    decreases s + n - i
  {
    hide EqvPaths.IsBlock, EqvPaths.Mirror;
    EqvPaths.NodesOfBlock(path, s, n, s);
    if i == s + n - 1 {
      OverFetches(path, s, n, s + n, end);
    } else {
      OverEscapes(path, s, n, i + 1, end);
    }
  }

  /** Between two blocks the use is the first escape of the block behind; behind the last block it is the end. */
  lemma {:induction false} CursorBetweenBlocks(path: EqvPaths.Path, b: nat, end: Loc)
    requires Located(path) && b <= |path| && EqvPaths.Blocks(path[b..])
    ensures CursorAt(path, b, end) == Cursor(if b == |path| then end else path[b].pto.site.value, None)
    decreases |path| - b
  {
    if b == |path| {
    } else {
      var p := path[b..];
      var n: nat :| 1 <= n && 2 * n <= |p| && EqvPaths.IsBlock(p[..2 * n], n) && EqvPaths.Blocks(p[2 * n..]);
      hide EqvPaths.IsBlock;
      assert p[2 * n..] == path[b + 2 * n..] && p[..2 * n] == path[b..b + 2 * n];
      CursorBetweenBlocks(path, b + 2 * n, end);
      OverEscapes(path, b, n, b, end);
    }
  }

  /** So what the fetches of a block get is used at the first escape of the next block, or at the end. */
  lemma UseOfBlock(path: EqvPaths.Path, s: nat, n: nat, i: nat, end: Loc)
    requires Located(path) && n > 0 && s + n <= i < s + 2 * n <= |path| && EqvPaths.BlockAt(path, s, n, s)
    requires EqvPaths.Blocks(path[s + 2 * n..])
    ensures CursorAt(path, i + 1, end).use == if s + 2 * n == |path| then end else path[s + 2 * n].pto.site.value
  {
    hide EqvPaths.IsBlock, EqvPaths.Blocks;
    CursorBetweenBlocks(path, s + 2 * n, end);
    if i + 1 < s + 2 * n {
      OverFetches(path, s, n, i + 1, end);
    }
  }

  /** `l` is what the fetch node at `i` of `path` asks for. */
  ghost predicate IsHop(path: EqvPaths.Path, i: nat, end: Loc, l: Link) {
    && i < |path| && path[i].kind == EqvPaths.FETCH && path[i].pto.site == Some(l.fetch.loc)
    && l.use.loc == CursorAt(path, i + 1, end).use
    && EscapeSite(path, i) == (if l.esc.None? then None else Some(l.esc.value.loc))
  }

  /** The fetch node at `i` of `path`, if it has a site, is linked. */
  ghost predicate HopDone(path: EqvPaths.Path, i: nat, end: Loc, links: seq<Link>) {
    i < |path| && path[i].kind == EqvPaths.FETCH && path[i].pto.site.Some? ==>
      exists l :: l in links && IsHop(path, i, end, l)
  }

  /** `n` is the end of the path or the escape of one of the first `k` links. */
  ghost predicate Reached(links: seq<Link>, k: nat, end: InstLocTr, n: InstLocTr) {
    n == end || exists j :: 0 <= j < k && j < |links| && links[j].esc == Some(n)
  }

  ghost predicate IsHopOf(path: EqvPaths.Path, end: Loc, l: Link) {
    exists i :: IsHop(path, i, end, l)
  }

  /** Every link leads to `end` over the links before it. */
  ghost predicate LeadsTo(links: seq<Link>, end: InstLocTr) {
    forall k :: 0 <= k < |links| ==> Reached(links, k, end, links[k].use)
  }

  /** Each link is asked for by the path, and leads to the end of the path over the links before it. */
  ghost predicate Chained(path: EqvPaths.Path, end: InstLocTr, links: seq<Link>) {
    && LeadsTo(links, end)
    && (forall k :: 0 <= k < |links| ==> IsHopOf(path, end.loc, links[k]))
  }

  /** The path from index `i` on has been dealt with. */
  ghost predicate PathPhase(path: EqvPaths.Path, i: nat, end: InstLocTr, currLoc: InstLocTr, nextLoc: InstLocTr?,
                            links: seq<Link>) {
    && i <= |path|
    && CursorAt(path, i, end.loc).use == currLoc.loc
    && CursorAt(path, i, end.loc).next == (if nextLoc == null then None else Some(nextLoc.loc))
    && Chained(path, end, links)
    && Reached(links, |links|, end, currLoc)
    && (nextLoc != null ==> Reached(links, |links|, end, nextLoc))
    && (forall j :: i <= j < |path| ==> HopDone(path, j, end.loc, links))
  }

  /** The whole path has been dealt with. */
  ghost predicate PathLinked(path: EqvPaths.Path, end: InstLocTr, links: seq<Link>) {
    Chained(path, end, links) && forall j :: 0 <= j < |path| ==> HopDone(path, j, end.loc, links)
  }

  lemma PathStarts(path: EqvPaths.Path, end: InstLocTr)
    ensures PathPhase(path, |path|, end, end, null, [])
  {
  }

  /** A node that is no fetch, or has no site, only moves the cursor. */
  lemma PathSkips(path: EqvPaths.Path, i: nat, end: InstLocTr, currLoc: InstLocTr, nextLoc: InstLocTr?,
                  links: seq<Link>)
    requires i < |path| && PathPhase(path, i + 1, end, currLoc, nextLoc, links)
    ensures path[i].kind == EqvPaths.FETCH && path[i].pto.site.None? ==>
            PathPhase(path, i, end, currLoc, nextLoc, links)
    ensures path[i].kind != EqvPaths.FETCH && nextLoc == null ==> PathPhase(path, i, end, currLoc, nextLoc, links)
    ensures path[i].kind != EqvPaths.FETCH && nextLoc != null ==> PathPhase(path, i, end, nextLoc, null, links)
  {
    hide Chained, Reached, EscapeSite, IsHop;
  }

  lemma ReachedMore(links: seq<Link>, k: nat, l: Link, end: InstLocTr, n: InstLocTr)
    requires k <= |links| && Reached(links, k, end, n)
    ensures Reached(links + [l], k, end, n) && Reached(links + [l], |links| + 1, end, n)
  {
    if n != end {
      var j :| 0 <= j < k && links[j].esc == Some(n);
      assert (links + [l])[j].esc == Some(n);
    }
  }

  lemma ChainedMore(path: EqvPaths.Path, end: InstLocTr, links: seq<Link>, l: Link, i: nat)
    requires Chained(path, end, links) && Reached(links, |links|, end, l.use) && IsHop(path, i, end.loc, l)
    ensures Chained(path, end, links + [l])
    ensures l.esc.Some? ==> Reached(links + [l], |links| + 1, end, l.esc.value)
  {
    hide IsHop, Reached;
    var more := links + [l];
    assert more[|links|] == l;
    EscReached(links, l, end);
    forall k | 0 <= k < |more| ensures Reached(more, k, end, more[k].use) {
      assert k < |links| ==> more[k] == links[k];
      ReachedMore(links, k, l, end, more[k].use);
    }
    assert IsHopOf(path, end.loc, l);
    hide IsHopOf;
    forall k | 0 <= k < |more| ensures IsHopOf(path, end.loc, more[k]) {
      assert k < |links| ==> more[k] == links[k];
    }
  }

  lemma EscReached(links: seq<Link>, l: Link, end: InstLocTr)
    ensures l.esc.Some? ==> Reached(links + [l], |links| + 1, end, l.esc.value)
  {
    assert (links + [l])[|links|] == l;
  }

  /** A fetch node with a site that has been linked. */
  lemma PathHops(path: EqvPaths.Path, i: nat, end: InstLocTr, currLoc: InstLocTr, nextLoc: InstLocTr?, links: seq<Link>,
                        l: Link, es: InstLocTr?)
    requires i < |path| && PathPhase(path, i + 1, end, currLoc, nextLoc, links)
    requires path[i].kind == EqvPaths.FETCH && path[i].pto.site == Some(l.fetch.loc) && l.use == currLoc
    requires es != null <==> EscapeSite(path, i).Some?
    requires es != null ==> EscapeSite(path, i) == Some(es.loc)
    requires l.esc == (if es == null then None else var e: InstLocTr := es; Some(e))
    ensures PathPhase(path, i, end, currLoc, if nextLoc == null then es else nextLoc, links + [l])
  {
    hide Chained, Reached, EscapeSite;
    ChainedMore(path, end, links, l, i);
    ReachedMore(links, |links|, l, end, currLoc);
    if nextLoc != null {
      ReachedMore(links, |links|, l, end, nextLoc);
    }
    forall j | i <= j < |path| ensures HopDone(path, j, end.loc, links + [l]) {
      if j == i {
        assert l in links + [l];
      } else {
        HopMore(path, j, end.loc, links, l);
      }
    }
  }

  lemma HopMore(path: EqvPaths.Path, j: nat, end: Loc, links: seq<Link>, l: Link)
    requires HopDone(path, j, end, links)
    ensures HopDone(path, j, end, links + [l])
  {
    hide IsHop;
  }

  lemma CursorOf(path: EqvPaths.Path, i: nat, end: InstLocTr, currLoc: InstLocTr, nextLoc: InstLocTr?, links: seq<Link>)
    requires PathPhase(path, i, end, currLoc, nextLoc, links)
    ensures i <= |path| && CursorAt(path, i, end.loc).use == currLoc.loc
  {
  }

  lemma LinkClausesMore(a: seq<Link>, b: seq<Link>)
    ensures LinkClauses(a) <= LinkClauses(a + b) && LinkClauses(b) <= LinkClauses(a + b)
  {
    assert forall l :: l in a || l in b ==> l in a + b;
  }

  /** `path` is a shortest path among `ps`, or empty if there is none. */
  ghost predicate Chosen(ps: seq<EqvPaths.Path>, path: EqvPaths.Path) {
    if ps == [] then path == [] else EqvPairs.IsShortest(path, ps)
  }

  lemma NothingWalked(end: InstLocTr)
    ensures PathLinked([], end, [])
  {
  }

  lemma PathIsChosen(ps: seq<EqvPaths.Path>, p: Option<EqvPaths.Path>)
    requires (p.None? <==> ps == []) && (p.Some? ==> EqvPairs.IsShortest(p.value, ps))
    ensures Chosen(ps, if p.Some? then p.value else [])
  {
    hide EqvPairs.IsShortest;
  }

  lemma PathEnds(path: EqvPaths.Path, end: InstLocTr, currLoc: InstLocTr, nextLoc: InstLocTr?, links: seq<Link>)
    requires PathPhase(path, 0, end, currLoc, nextLoc, links)
    ensures PathLinked(path, end, links)
  {
  }

  // ---- thread synchronisation, all threads -------------------------------------------------

  ghost predicate FactIn(f: SyncFact, st: State<InstLocTr>, cs: seq<Clause<InstLocTr>>) {
    && f.t < |st| && GrownSeq(f.held, st[f.t]) && Bracketed(cs, f.held, f.c, f.j)
    && PairIn(st, f.c, f.j, TrCreate, TrJoin)
  }

  ghost predicate FactsIn(fs: set<SyncFact>, st: State<InstLocTr>, cs: seq<Clause<InstLocTr>>) {
    forall f :: f in fs ==> FactIn(f, st, cs)
  }

  lemma FactsStay(fs: set<SyncFact>, st: State<InstLocTr>, cs: seq<Clause<InstLocTr>>,
                         st': State<InstLocTr>, cs': seq<Clause<InstLocTr>>)
    requires FactsIn(fs, st, cs) && Grown(st, st') && cs <= cs'
    ensures FactsIn(fs, st', cs')
  {
    hide GrownSeq, Bracketed, PairIn;
    forall f | f in fs ensures FactIn(f, st', cs') {
      assert FactIn(f, st, cs);
      GrownPairIn(st, st', f.c, f.j, TrCreate, TrJoin);
      GrownSeqTrans(f.held, st[f.t], st'[f.t]);
      BracketedExtends(cs, cs', f.held, f.c, f.j);
    }
  }

  function LocsOf(s: seq<Ev<InstLocTr>>): seq<Loc> {
    seq(|s|, i requires 0 <= i < |s| => s[i].loc)
  }

  ghost function SyncClauses(fs: set<SyncFact>): set<Clause<InstLocTr>> {
    set f, d | f in fs && d in BracketClauses(f.held, f.c, f.j) :: d
  }

  lemma PairsAreFacts(pairs: map<Thread, Span>, t: nat, s: seq<Ev<InstLocTr>>, fs: set<SyncFact>)
    requires fs == set u | u in pairs :: SyncFact(t, s, pairs[u].0, pairs[u].1)
    ensures PairClauses(pairs, s) <= SyncClauses(fs)
  {
    hide BracketClauses;
    forall d | d in PairClauses(pairs, s) ensures d in SyncClauses(fs) {
      var u: Thread :| u in pairs && d in BracketClauses(s, pairs[u].0, pairs[u].1);
      assert SyncFact(t, s, pairs[u].0, pairs[u].1) in fs;
    }
  }

  lemma SyncClausesJoin(a: set<SyncFact>, b: set<SyncFact>)
    ensures SyncClauses(a) <= SyncClauses(a + b) && SyncClauses(b) <= SyncClauses(a + b)
  {
    hide BracketClauses;
    forall d | d in SyncClauses(a) ensures d in SyncClauses(a + b) {
      var f :| f in a && d in BracketClauses(f.held, f.c, f.j);
      assert f in a + b;
    }
    forall d | d in SyncClauses(b) ensures d in SyncClauses(a + b) {
      var f :| f in b && d in BracketClauses(f.held, f.c, f.j);
      assert f in a + b;
    }
  }

  /** Moments between `st` and `now`. */
  ghost predicate Passed(st: State<InstLocTr>, now: State<InstLocTr>, hist: set<State<InstLocTr>>) {
    forall s :: s in hist ==> Grown(st, s) && Grown(s, now) && |s| == |now|
  }

  lemma PassedJoin(st: State<InstLocTr>, mid: State<InstLocTr>, now: State<InstLocTr>, a: set<State<InstLocTr>>,
                   b: set<State<InstLocTr>>)
    requires Passed(st, mid, a) && Passed(mid, now, b) && Grown(st, mid) && Grown(mid, now) && |mid| == |now|
    ensures Passed(st, now, a + b)
  {
    hide GrownSeq;
    forall s | s in a ensures Grown(s, now) {
      GrownTrans(s, mid, now);
    }
    forall s | s in b ensures Grown(st, s) {
      GrownTrans(st, mid, s);
    }
  }

  lemma PassedOne(st: State<InstLocTr>, now: State<InstLocTr>)
    requires Grown(st, now) && |st| == |now|
    ensures Passed(st, now, {st})
  {
    GrownRefl(st);
  }

  lemma PassedNone(st: State<InstLocTr>)
    ensures Passed(st, st, {})
  {
  }

  lemma NoFacts(st: State<InstLocTr>, cs: seq<Clause<InstLocTr>>)
    ensures FactsIn({}, st, cs)
  {
  }

  lemma FactsJoin(a: set<SyncFact>, b: set<SyncFact>, st: State<InstLocTr>, cs: seq<Clause<InstLocTr>>)
    requires FactsIn(a, st, cs) && FactsIn(b, st, cs)
    ensures FactsIn(a + b, st, cs)
  {
  }

  // ---- a whole build -----------------------------------------------------------------------

  /** The freed and the used object are the same. */
  predicate SameObject(ep0: EqvPairs.EqvObjPair?, ep1: EqvPairs.EqvObjPair) {
    (if ep0 != null then ep0.dst else ep1.src) == ep1.dst
  }

  /** The paths taken for the two pairs, and what was linked for them. */
  ghost predicate Taken(ep0: Option<seq<EqvPaths.Path>>, ep1: seq<EqvPaths.Path>, rt: Route, l0: InstLocTr,
                        l1: InstLocTr) {
    && Chosen(ep1, rt.path1) && PathLinked(rt.path1, l1, rt.links1)
    && if ep0.Some? then Chosen(ep0.value, rt.path0) && PathLinked(rt.path0, l0, rt.links0) else rt.links0 == []
  }

  ghost function PathsOf(ep: EqvPairs.EqvObjPair?): Option<seq<EqvPaths.Path>>
    reads if ep == null then {} else {ep}
  {
    if ep == null then None else Some(ep.paths)
  }

  lemma NoneLead(end: InstLocTr)
    ensures LeadsTo([], end)
  {
  }

  lemma LinkedLead(path: EqvPaths.Path, end: InstLocTr, links: seq<Link>)
    requires PathLinked(path, end, links)
    ensures LeadsTo(links, end)
  {
  }

  /** What every `f` in `facts` adds. */
  ghost function CheckClauses(facts: set<CheckFact>): set<Clause<InstLocTr>> {
    set f, d | f in facts && d in KillClauses(f.c, f.kept) :: d
  }

  ghost function SkeletonClauses(l0: InstLocTr, l1: InstLocTr, links: seq<Link>): set<Clause<InstLocTr>> {
    {[(l0, l1)]} + LinkClauses(links)
  }

  /** The locations of the bug itself. */
  ghost function Core(l0: InstLocTr, l1: InstLocTr, links: seq<Link>): set<InstLocTr> {
    {l0, l1} + (set l | l in links :: l.fetch) + (set l | l in links && l.esc.Some? :: l.esc.value)
  }

  // ---- what a finished schedule means ----------------------------------------------------------

  lemma AddsSolved(v: InstLocTr -> int, cs: seq<Clause<InstLocTr>>, all: set<Clause<InstLocTr>>)
    requires Adds([], cs, all) && forall d :: d in all ==> Holds(v, d)
    ensures Solves(v, cs)
  {
    hide Holds;
  }

  lemma PairHolds(v: InstLocTr -> int, a: InstLocTr, b: InstLocTr)
    requires v(a) < v(b)
    ensures Holds(v, [(a, b)])
  {
    assert v([(a, b)][0].0) < v([(a, b)][0].1);
  }

  ghost predicate Follows(v: InstLocTr -> int, l: Link, end: InstLocTr) {
    && v(l.fetch) <= v(l.use) <= v(end)
    && (l.esc.Some? ==> v(l.esc.value) <= v(l.fetch))
    && (l.esc.Some? && l.esc.value != l.fetch ==> v(l.esc.value) < v(l.fetch))
  }

  // ---- the two halves of a build ---------------------------------------------------------------

  lemma KillsAdd(cs: seq<Clause<InstLocTr>>, ds: seq<Clause<InstLocTr>>, facts: set<CheckFact>)
    requires KillsExact(cs, ds, facts)
    ensures Adds(cs, ds, CheckClauses(facts))
  {
    hide KillClauses;
  }
}
