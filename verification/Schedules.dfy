/** The schedule of threads that could trigger a bug, built up location by location. */
module Schedules {
  import opened Cfg
  import opened ThreadSpec
  import opened Threads
  import opened Constraints
  import opened SchedSpec
  import opened Traces
  import EqvPaths
  import EqvPairs
  import opened BuildFacts

  class ThreadSched {
    const gs: GlobalState
    const g: Graph
    const poc: POConstraint<InstLocTr>
    var trs: seq<Thread>
    var lockMap: LockMap

    constructor (gs: GlobalState, g: Graph)
      ensures this.gs == gs && this.g == g
      ensures trs == [] && lockMap == map[] && poc.evec == [] && fresh(poc)
      ensures Valid()
    {
      this.gs := gs;
      this.g := g;
      trs := [];
      lockMap := map[];
      poc := new POConstraint();
    }

    ghost function State(): (st: State<InstLocTr>)
      reads this, trs
      ensures |st| == |trs|
      ensures forall i :: 0 <= i < |st| ==> st[i] == trs[i].events
    {
      seq(|trs|, i requires 0 <= i < |trs| reads this, trs => trs[i].events)
    }

    /** The threads are different objects, each in good order. */
    ghost predicate Shape()
      reads this, trs
    {
      && (forall i, j :: 0 <= i < j < |trs| ==> trs[i] != trs[j])
      && (forall i :: 0 <= i < |trs| ==> trs[i].Valid() && trs[i].g == g)
    }

    ghost predicate Valid()
      reads this, trs, poc
    {
      Shape() && Sound(State(), poc.evec, lockMap) && Filed(gs, lockMap)
    }

    ghost predicate Owns(n: InstLocTr)
      reads this, trs
    {
      n.tr in trs && n.tr.Has(n)
    }

    /** The index of a thread. */
    ghost function Of(tr: Thread): (k: nat)
      reads `trs
      requires tr in trs
      ensures k < |trs| && trs[k] == tr
    {
      var k :| 0 <= k < |trs| && trs[k] == tr; k
    }

    lemma OwnedIsIn(n: InstLocTr)
      requires Owns(n)
      ensures In(State(), n)
    {
      assert Holding(State()[Of(n.tr)], n);
    }

    /** No node is shared, neither inside a thread nor between threads. */
    lemma NodesSeparate()
      requires Shape()
      ensures Separate(State())
    {
      hide Reach;
      forall t | 0 <= t < |trs| ensures Unique(State()[t]) {
        forall i, j | 0 <= i < j < |trs[t].events| ensures trs[t].events[i].node != trs[t].events[j].node {
          assert trs[t].events[i].loc != trs[t].events[j].loc;
        }
      }
    }

    // ---- single insertions and their undoing -------------------------------------------------

    method InsertRaw(tr: Thread, loc: Loc, ty: Mask, dom: bool, stop: InstLocTr?, start: InstLocTr?)
      returns (r: InstLocTr?, ec: int)
      requires Shape() && tr in trs
      requires stop != null ==> tr.Has(stop)
      requires start != null ==> tr.Has(start)
      modifies tr
      ensures Shape()
      ensures State() == old(State())[Of(tr) := tr.events]
      ensures ec == InsertCode(g, old(tr.events), old(tr.Asked(loc, ty, true, dom, stop, start)))
      ensures r != null <==> Accepted(ec)
      ensures r == null ==> tr.events == old(tr.events)
      ensures r != null ==>
                && r.tr == tr && r.loc == loc
                && tr.events == Inserted(g, old(tr.events), old(tr.Asked(loc, ty, true, dom, stop, start)), r)
                && r == tr.events[Landing(g, old(tr.events), old(tr.Asked(loc, ty, true, dom, stop, start)))].node
    {
      hide Reach, WellFormed;
      r, ec := tr.InsertLoc(loc, ty, true, dom, stop, start, false);
    }

    /** Put `loc` into thread `tr`: every other thread is untouched, `tr` only grows. */
    method InsertInto(tr: Thread, loc: Loc, ty: EvTy, dom: bool, stop: InstLocTr?, start: InstLocTr?)
      returns (r: InstLocTr?, ec: int)
      requires Shape() && Typed(State()) && tr in trs
      requires stop != null ==> tr.Has(stop)
      requires start != null ==> tr.Has(start)
      modifies tr
      ensures Shape() && Typed(State()) && Grown(old(State()), State())
      ensures State() == old(State())[Of(tr) := tr.events]
      ensures ec == InsertCode(g, old(tr.events), old(tr.Asked(loc, {ty}, true, dom, stop, start)))
      ensures r != null <==> Accepted(ec)
      ensures r == null ==> State() == old(State())
      ensures r != null ==>
                var q := old(tr.Asked(loc, {ty}, true, dom, stop, start));
                && Owns(r) && r.tr == tr && r.loc == loc
                && tr.events == Inserted(g, old(tr.events), q, r)
                && r == tr.events[Landing(g, old(tr.events), q)].node
                && Marked(tr.events, r, ty)
                && (stop != null ==> NotAfter(tr.events, r, stop))
                && (start != null ==> Before(tr.events, start, r))
    {
      hide Reach, WellFormed, Shape, GrownSeq;
      ghost var s, q, st, k := tr.events, tr.Asked(loc, {ty}, true, dom, stop, start), State(), Of(tr);
      r, ec := InsertRaw(tr, loc, {ty}, dom, stop, start);
      if r != null {
        InsertInState(g, st, k, q, r);
        InsertPlaces(g, s, q, r);
      } else {
        GrownRefl(st);
      }
    }

    method RemoveRaw(tr: Thread, n: InstLocTr, ty: Mask)
      requires Shape() && tr in trs && tr.Has(n)
      modifies tr
      ensures Shape()
      ensures State() == old(State())[Of(tr) := tr.events]
      ensures tr.events == Removed(old(tr.events), old(tr.At(n)), ty)
    {
      hide Reach, WellFormed;
      var _ := tr.RemoveNode(n, ty);
    }

    /** Take back an insertion that has just been made: the schedule is exactly what it was. */
    method Undo(tr: Thread, n: InstLocTr, ty: EvTy, ghost st: State<InstLocTr>, ghost q: Request)
      requires Shape() && tr in trs && |st| == |trs| && Typed(st)
      requires Fits(st[Of(tr)], q) && q.ty == {ty}
      requires Accepted(InsertCode(g, st[Of(tr)], q)) && InsertCode(g, st[Of(tr)], q) != PRESENT
      requires State() == st[Of(tr) := Inserted(g, st[Of(tr)], q, n)]
      requires Landing(g, st[Of(tr)], q) < |tr.events| && n == tr.events[Landing(g, st[Of(tr)], q)].node
      modifies tr
      ensures Shape() && State() == st
    {
      hide Reach, WellFormed;
      ghost var s, k := st[Of(tr)], Of(tr);
      RollbackIff(g, s, q, n);
      tr.NodesDiffer();
      assert TypedSeq(s);
      RemoveRaw(tr, n, {ty});
      assert tr.events == s;
    }

    method NewThread(loc: Loc, ty: EvTy) returns (r: InstLocTr, t: Thread)
      ensures fresh(r) && fresh(t) && r.tr == t && r.loc == loc
      ensures t.g == g && t.Valid() && t.events == [Ev(r, loc, {ty})]
    {
      hide Reach;
      t := new Thread(g);
      var n, ec := t.InsertLoc(loc, {ty}, true, false, null, null, false);
      r := n;
      assert t.events[0].node == r;
    }

    method PushThread(t: Thread)
      requires Shape() && t !in trs && t.Valid() && t.g == g
      modifies this`trs
      ensures trs == old(trs) + [t] && Shape() && State() == old(State()) + [t.events]
    {
      trs := trs + [t];
    }

    /** ThreadSched::initThread, recorded: a new thread that holds just `loc`. */
    method InitThread(loc: Loc, ty: EvTy) returns (r: InstLocTr, t: Thread)
      requires Shape() && Typed(State())
      modifies this`trs
      ensures fresh(r) && fresh(t) && r.tr == t && r.loc == loc && Owns(r)
      ensures trs == old(trs) + [t]
      ensures Shape() && Typed(State()) && Grown(old(State()), State())
      ensures State() == old(State()) + [[Ev(r, loc, {ty})]] && Marked(t.events, r, ty)
    {
      hide Reach, WellFormed;
      ghost var st := State();
      r, t := NewThread(loc, ty);
      assert t.events[0].node == r;
      PushThread(t);
      GrownRefl(st);
    }

    /** `r` and `ec` are what inserting `loc` into thread `k` of `st` gives; it changes nothing else. */
    ghost predicate Entered(st: State<InstLocTr>, k: nat, q: Request, r: InstLocTr, ec: int)
      reads this, trs
    {
      && k < |st| == |trs| && trs[k] == r.tr
      && Fits(st[k], q)
      && ec == InsertCode(g, st[k], q) && Accepted(ec)
      && State() == st[k := Inserted(g, st[k], q, r)]
      && Landing(g, st[k], q) < |r.tr.events|
      && r == r.tr.events[Landing(g, st[k], q)].node
    }

    /** ThreadSched::addLoc: the first thread outside `blocks` that takes the location gets it;
        if none does, a new thread holds it, when one may be created. */
    method AddLoc(loc: Loc, ty: EvTy, blocks: set<Thread>, dom: bool, create: bool)
      returns (r: InstLocTr?, ec: int)
      requires Shape() && Typed(State())
      modifies this`trs, trs
      ensures Shape() && Typed(State()) && Grown(old(State()), State())
      ensures create ==> r != null
      ensures r == null ==> trs == old(trs) && State() == old(State())
      ensures r == null ==> forall k :: 0 <= k < |trs| && trs[k] !in blocks ==>
                                        !Accepted(InsertCode(g, State()[k], Anywhere(loc, ty, dom)))
      ensures r != null ==> Owns(r) && r.loc == loc && r.tr !in blocks && Marked(r.tr.events, r, ty)
      ensures forall t :: t in trs ==> t in old(trs) || fresh(t)
      ensures r != null && trs == old(trs) ==> Entered(old(State()), Of(r.tr), Anywhere(loc, ty, dom), r, ec)
      ensures r != null && trs == old(trs) ==>
                forall k :: 0 <= k < Of(r.tr) && trs[k] !in blocks ==>
                  !Accepted(InsertCode(g, old(State())[k], Anywhere(loc, ty, dom)))
      ensures r != null && trs != old(trs) ==>
                && create && fresh(r.tr) && trs == old(trs) + [r.tr]
                && |r.tr.events| == 1 && r.tr.events[0].ty == {ty}
                && forall k :: 0 <= k < |old(trs)| && trs[k] !in blocks ==>
                   !Accepted(InsertCode(g, old(State())[k], Anywhere(loc, ty, dom)))
    {
      hide Reach, WellFormed, GrownSeq, InsertCode, Marked, Typed;
      ghost var st := State();
      ec := OTHER;
      var i := 0;
      while i < |trs|
        invariant 0 <= i <= |trs| && trs == old(trs)
        invariant Shape() && State() == st
        invariant forall k :: 0 <= k < i && trs[k] !in blocks ==>
                              !Accepted(InsertCode(g, st[k], Anywhere(loc, ty, dom)))
      {
        var tr := trs[i];
        if tr !in blocks {
          r, ec := InsertInto(tr, loc, ty, dom, null, null);
          if r != null {
            assert Of(tr) == i;
            return;
          }
        }
        i := i + 1;
      }
      GrownRefl(st);
      if create {
        var t;
        r, t := InitThread(loc, ty);
        assert t.events == State()[|st|];
      } else {
        r := null;
      }
    }

    /** The first event of a pair went into `a`'s thread of `st`; put the second one behind `start`
        in the same thread, or take the first one back. */
    method SecondOrUndo(a: InstLocTr, r0: int, ty0: EvTy, ghost q0: Request, ghost st: State<InstLocTr>,
                        loc: Loc, ty: EvTy, start: InstLocTr)
      returns (b: InstLocTr?, ec: int)
      requires Shape() && a.tr in trs && Typed(st) && Typed(State())
      requires Owns(a) && q0.ty == {ty0} && Entered(st, Of(a.tr), q0, a, r0)
      requires start.tr == a.tr && Owns(start)
      modifies a.tr
      ensures Shape() && Typed(State())
      ensures b == null ==> State() == st
      ensures ec == InsertCode(g, old(a.tr.events), old(a.tr.Asked(loc, {ty}, true, false, null, start)))
      ensures b != null <==> Accepted(ec)
      ensures b != null ==>
              a.tr.events == Inserted(g, old(a.tr.events), old(a.tr.Asked(loc, {ty}, true, false, null, start)), b)
      ensures b != null ==>
                && Owns(b) && b.tr == a.tr && b.loc == loc
                && Before(a.tr.events, start, b) && Marked(a.tr.events, b, ty)
                && Grown(old(State()), State()) && State() == old(State())[Of(a.tr) := a.tr.events]
    {
      hide Reach, WellFormed, GrownSeq, Shape;
      b, ec := InsertInto(a.tr, loc, ty, false, null, start);
      if b == null {
        if r0 != PRESENT {
          Undo(a.tr, a, ty0, st, q0);
        }
      }
    }

    // ---- constraints -------------------------------------------------------------------------

    /** POConstraint::addConstraint on two nodes that are in place. */
    method Order(a: InstLocTr, b: InstLocTr)
      requires Valid() && Owns(a) && Owns(b)
      modifies poc
      ensures Valid() && Shape() && State() == old(State())
      ensures poc.evec == old(poc.evec) + OrderClauses(Some(a), Some(b))
    {
      hide Sound, Filed, Shape;
      OwnedIsIn(a);
      OwnedIsIn(b);
      OrderIsSound(State(), poc.evec, lockMap, a, b);
      poc.AddConstraint(Some(a), Some(b));
    }

    /** Nothing recorded is forgotten: constraints are only appended. */
    ghost predicate Extends(cs: seq<Clause<InstLocTr>>)
      reads poc
    {
      cs <= poc.evec
    }

    // ---- thread creation and join ------------------------------------------------------------

    /** One CREATE/JOIN pair around the child thread, both in one other thread. */
    ghost predicate SyncIn(p: Span, ptTr: Thread, stLoc: Loc, edLoc: Loc)
      reads this, trs, poc, ptTr
    {
      && p.0.loc == stLoc && p.1.loc == edLoc
      && Owns(p.0) && Owns(p.1) && p.0.tr == p.1.tr != ptTr
      && Before(p.0.tr.events, p.0, p.1)
      && Marked(p.0.tr.events, p.0, TrCreate) && Marked(p.1.tr.events, p.1, TrJoin)
      && Bracketed(poc.evec, ptTr.events, p.0, p.1)
    }

    /** Record that the child runs after `c` and before `j`. */
    method Bracket(c: InstLocTr, j: InstLocTr, ptTr: Thread)
      requires Valid() && Shape() && ptTr in trs
      requires Owns(c) && Owns(j) && c.tr != ptTr && j.tr != ptTr
      modifies poc
      ensures Valid() && Shape() && State() == old(State()) && Extends(old(poc.evec))
      ensures Bracketed(poc.evec, ptTr.events, c, j)
      ensures Adds(old(poc.evec), poc.evec, BracketClauses(ptTr.events, c, j))
    {
      hide Sound, Filed, WellFormed;
      if |ptTr.events| == 0 {
        return;
      }
      var ps, pe := ptTr.events[0].node, ptTr.events[|ptTr.events| - 1].node;
      assert ps.tr == ptTr && pe.tr == ptTr;
      ghost var cs := poc.evec;
      Order(c, ps);
      Order(pe, j);
      assert poc.evec[|cs|] == [(c, ps)] && poc.evec[|cs| + 1] == [(pe, j)];
      assert poc.evec == cs + [[(c, ps)], [(pe, j)]];
    }

    /** The node an insertion hands back is where it landed. */
    lemma LandingIsAt(tr: Thread, s: seq<Ev<InstLocTr>>, q: Request, r: InstLocTr)
      requires tr.Valid() && Fits(s, q) && Accepted(InsertCode(g, s, q)) && tr.events == Inserted(g, s, q, r)
      requires Landing(g, s, q) < |tr.events| && r == tr.events[Landing(g, s, q)].node
      ensures tr.Has(r) && tr.At(r) == Landing(g, s, q)
    {
      hide Reach, WellFormed, FreshCode, SameCode;
      tr.NodesDiffer();
    }

    lemma SyncByNodes(s: seq<Ev<InstLocTr>>, q0: Request, c: InstLocTr, q1: Request)
      requires q0 == Request(q0.loc, {TrCreate}, true, false, -1, -1) && Accepted(InsertCode(g, s, q0))
      requires q1 == Request(q1.loc, {TrJoin}, true, false, -1, Landing(g, s, q0))
      ensures Fits(Inserted(g, s, q0, c), q1)
      ensures SyncFits(g, Bare(s), q0.loc, q1.loc) <==> Accepted(InsertCode(g, Inserted(g, s, q0, c), q1))
      ensures SyncFits(g, Bare(s), q0.loc, q1.loc) ==>
                SyncTrace(g, Bare(s), q0.loc, q1.loc) == Inserted(g, Bare(Inserted(g, s, q0, c)), q1, q1.loc)
      ensures !SyncFits(g, Bare(s), q0.loc, q1.loc) ==> SyncTrace(g, Bare(s), q0.loc, q1.loc) == Bare(s)
    {
      hide Reach, FreshCode, SameCode;
      BareInsert(g, s, q0);
      BareLanding(g, s, q0);
      BareInserted(g, s, q0, c);
      BareInsert(g, Inserted(g, s, q0, c), q1);
    }

    lemma NoneTakesPair(stLoc: Loc, edLoc: Loc, blocks: set<Thread>)
      requires forall k :: 0 <= k < |trs| && trs[k] !in blocks ==>
               !Accepted(InsertCode(g, State()[k], Anywhere(stLoc, TrCreate, false)))
      ensures forall t :: t in trs && t !in blocks ==>
              SyncOutcome(g, Bare(t.events), Bare(t.events), false, stLoc, edLoc)
    {
      hide Reach, FreshCode, SameCode;
      forall t | t in trs && t !in blocks ensures !SyncFits(g, Bare(t.events), stLoc, edLoc) {
        var k := Of(t);
        BareInsert(g, State()[k], Anywhere(stLoc, TrCreate, false));
      }
    }

    /** The CREATE event is in; the JOIN event follows it, or the CREATE event goes again. */
    method JoinOrUndo(c: InstLocTr, r0: int, ghost st: State<InstLocTr>, stLoc: Loc, edLoc: Loc) returns (j: InstLocTr?)
      requires Shape() && c.tr in trs && Typed(st) && Typed(State()) && Owns(c)
      requires Grown(st, State()) && Entered(st, Of(c.tr), Anywhere(stLoc, TrCreate, false), c, r0)
      requires Marked(c.tr.events, c, TrCreate)
      modifies c.tr
      ensures Shape() && Typed(State()) && Grown(st, State())
      ensures j == null ==> State() == st
      ensures j != null ==>
              Owns(c) && Owns(j) && j.tr == c.tr && j.loc == edLoc && State() == st[Of(c.tr) := c.tr.events]
              && Before(c.tr.events, c, j) && Marked(c.tr.events, c, TrCreate) && Marked(c.tr.events, j, TrJoin)
      ensures SyncOutcome(g, Bare(st[Of(c.tr)]), Bare(c.tr.events), j != null, stLoc, edLoc)
    {
      hide Reach, WellFormed, GrownSeq, Grown, Shape, Typed, SyncOutcome, InsertCode, Inserted, Landing, Bare, SyncFits;
      ghost var mid, k, q0 := State(), Of(c.tr), Anywhere(stLoc, TrCreate, false);
      ShapeOf(c);
      LandingIsAt(c.tr, st[k], q0, c);
      ghost var q1 := c.tr.Asked(edLoc, {TrJoin}, true, false, null, c);
      assert mid[k] == Inserted(g, st[k], q0, c);
      var r1;
      j, r1 := SecondOrUndo(c, r0, TrCreate, q0, st, edLoc, TrJoin, c);
      SyncSecond(st[k], q0, c, q1, j, State()[k]);
      if j == null {
        GrownRefl(st);
        return;
      }
      GrownTrans(st, mid, State());
      StillOwned(c, mid);
      StillMarked(k, c, TrCreate, mid);
    }

    /** What the second event of a pair comes to. */
    lemma SyncSecond(s: seq<Ev<InstLocTr>>, q0: Request, c: InstLocTr, q1: Request, j: InstLocTr?,
                     t: seq<Ev<InstLocTr>>)
      requires q0 == Request(q0.loc, {TrCreate}, true, false, -1, -1) && Accepted(InsertCode(g, s, q0))
      requires q1 == Request(q1.loc, {TrJoin}, true, false, -1, Landing(g, s, q0))
      requires Fits(Inserted(g, s, q0, c), q1)
      requires j != null <==> Accepted(InsertCode(g, Inserted(g, s, q0, c), q1))
      requires t == if j == null then s else var n: InstLocTr := j; Inserted(g, Inserted(g, s, q0, c), q1, n)
      ensures SyncOutcome(g, Bare(s), Bare(t), j != null, q0.loc, q1.loc)
    {
      hide Reach, InsertCode, Inserted, SyncFits, SyncTrace, Bare;
      SyncByNodes(s, q0, c, q1);
      if j != null {
        BareInserted(g, Inserted(g, s, q0, c), q1, j);
      }
    }

    /** One try of addSyncPair: the first thread outside `blocks` that takes the CREATE event gets
        the pair, unless it refuses the JOIN event; then nothing has changed. */
    method TrySync(stLoc: Loc, edLoc: Loc, ptTr: Thread, blocks: set<Thread>)
      returns (tr: Thread?, ghost p: Option<Span>)
      requires Valid() && Shape() && ptTr in trs && ptTr in blocks
      modifies this`trs, trs, poc
      ensures Valid() && Shape() && trs == old(trs)
      ensures Grown(old(State()), State()) && Extends(old(poc.evec))
      ensures tr != null ==> tr in trs && tr !in blocks
      ensures p.None? ==> State() == old(State()) && poc.evec == old(poc.evec)
      ensures p.Some? ==> tr != null && p.value.0.tr == tr && SyncIn(p.value, ptTr, stLoc, edLoc)
      ensures p.Some? ==> Adds(old(poc.evec), poc.evec, BracketClauses(ptTr.events, p.value.0, p.value.1))
      ensures forall t :: t in trs && (p.None? || t != tr) ==> t.events == old(t.events)
      ensures tr == null ==> forall t :: t in trs && t !in blocks ==>
              SyncOutcome(g, Bare(t.events), Bare(t.events), false, stLoc, edLoc)
      ensures tr != null ==> SyncOutcome(g, Bare(old(tr.events)), Bare(tr.events), p.Some?, stLoc, edLoc)
    {
      hide Reach, WellFormed, GrownSeq, Sound, Filed, Shape, SyncOutcome, Bare, InsertCode, Inserted, Adds;
      p := None;
      ghost var st := State();
      GrownRefl(st);
      SoundIsTyped(st, poc.evec, lockMap);
      var c, r0 := AddLoc(stLoc, TrCreate, blocks, false, false);
      if c == null {
        NoneTakesPair(stLoc, edLoc, blocks);
        return null, None;
      }
      tr := c.tr;
      var j := JoinOrUndo(c, r0, st, stLoc, edLoc);
      if j != null {
        GrownSound(st, State(), poc.evec, lockMap);
        Bracket(c, j, ptTr);
        p := Some((c, j));
      }
      forall t | t in trs && (p.None? || t != tr) ensures t.events == old(t.events) {
        assert State()[Of(t)] == st[Of(t)];
      }
    }

    /** ThreadSched::addSyncPair: put the pair into every other thread that takes both events. */
    method AddSyncPair(stLoc: Loc, edLoc: Loc, ptTr: Thread)
      returns (r: int, ghost pairs: map<Thread, Span>)
      requires Valid() && Shape()
      modifies this`trs, trs, poc
      ensures Valid() && Shape() && trs == old(trs)
      ensures Grown(old(State()), State()) && Extends(old(poc.evec))
      ensures r == if ptTr in trs then 1 else 0
      ensures ptTr in trs ==> ptTr.events == old(ptTr.events)
      ensures AllSynced(pairs, ptTr, stLoc, edLoc)
      ensures forall t :: t in trs && t !in pairs ==> t.events == old(t.events)
      ensures Adds(old(poc.evec), poc.evec, PairClauses(pairs, ptTr.events))
      // exactly the threads that take both events get them
      ensures ptTr in trs ==> forall t :: t in trs && t != ptTr ==>
                SyncOutcome(g, Bare(old(t.events)), Bare(t.events), t in pairs, stLoc, edLoc)
    {
      hide Reach, Sound, Filed, WellFormed, GrownSeq, Shape, Bracketed, SyncOutcome, Bare, SyncIn;
      if ptTr !in trs {
        GrownRefl(State());
        AddsNothing(poc.evec, {});
        return 0, map[];
      }
      pairs := SyncOthers(stLoc, edLoc, ptTr);
      r := 1;
    }

    /** Each of the pairs is in place around the child thread. */
    ghost predicate AllSynced(pairs: map<Thread, Span>, ptTr: Thread, stLoc: Loc, edLoc: Loc)
      reads this, trs, poc, ptTr
    {
      forall t :: t in pairs ==> t in trs && pairs[t].0.tr == t && SyncIn(pairs[t], ptTr, stLoc, edLoc)
    }

    /** One more try: what it gives joins the pairs there are. */
    method NextSync(stLoc: Loc, edLoc: Loc, ptTr: Thread, blocks: set<Thread>, ghost was: map<Thread, Span>)
      returns (tr: Thread?, ghost pairs: map<Thread, Span>)
      requires Valid() && Shape() && ptTr in trs && ptTr in blocks && was.Keys <= blocks
               && AllSynced(was, ptTr, stLoc, edLoc)
      modifies this`trs, trs, poc
      ensures Valid() && Shape() && trs == old(trs)
      ensures Grown(old(State()), State()) && Extends(old(poc.evec))
      ensures tr != null ==> tr in trs && tr !in blocks
      ensures AllSynced(pairs, ptTr, stLoc, edLoc)
      ensures pairs == was || (tr != null && tr in pairs && pairs == was[tr := pairs[tr]])
      ensures Adds(old(poc.evec), poc.evec, PairClauses(pairs, ptTr.events))
      ensures forall t :: t in trs && (t != tr || t !in pairs) ==> t.events == old(t.events)
      ensures tr == null ==> forall t :: t in trs && t !in blocks ==>
              SyncOutcome(g, Bare(t.events), Bare(t.events), false, stLoc, edLoc)
      ensures tr != null ==> SyncOutcome(g, Bare(old(tr.events)), Bare(tr.events), tr in pairs, stLoc, edLoc)
    {
      hide Reach, Sound, Filed, WellFormed, GrownSeq, Grown, Shape, Bracketed, SyncOutcome, Bare, Adds, PairClauses,
           BracketClauses;
      ghost var cs := poc.evec;
      ghost var p;
      tr, p := TrySync(stLoc, edLoc, ptTr, blocks);
      pairs := was;
      forall u | u in was ensures SyncIn(was[u], ptTr, stLoc, edLoc) {
        StillSynced(was[u], u, ptTr, stLoc, edLoc, cs);
      }
      if p.Some? {
        var t: Thread := tr;
        MorePairClauses(was, ptTr.events, t, p.value);
        AddsMore(cs, poc.evec, BracketClauses(ptTr.events, p.value.0, p.value.1),
                 PairClauses(was[t := p.value], ptTr.events));
        pairs := was[t := p.value];
      } else {
        AddsNothing(cs, PairClauses(was, ptTr.events));
      }
    }

    /** The loop of addSyncPair. */
    method SyncOthers(stLoc: Loc, edLoc: Loc, ptTr: Thread) returns (ghost pairs: map<Thread, Span>)
      requires Valid() && Shape() && ptTr in trs
      modifies this`trs, trs, poc
      ensures Valid() && Shape() && trs == old(trs)
      ensures Grown(old(State()), State()) && Extends(old(poc.evec))
      ensures ptTr.events == old(ptTr.events)
      ensures AllSynced(pairs, ptTr, stLoc, edLoc)
      ensures forall t :: t in trs && t !in pairs ==> t.events == old(t.events)
      ensures Adds(old(poc.evec), poc.evec, PairClauses(pairs, ptTr.events))
      ensures forall t :: t in trs && t != ptTr ==>
                SyncOutcome(g, Bare(old(t.events)), Bare(t.events), t in pairs, stLoc, edLoc)
    {
      hide Reach, Sound, Filed, WellFormed, GrownSeq, Grown, Shape, SyncOutcome, Bare, Adds, PairClauses, AllSynced;
      pairs := map[];
      NothingSynced(ptTr, stLoc, edLoc);
      GrownRefl(State());
      AddsNothing(poc.evec, PairClauses(pairs, ptTr.events));
      var blocks: set<Thread> := {ptTr};
      ghost var threads := set t | t in trs;
      while true
        invariant Valid() && Shape() && trs == old(trs)
        invariant Grown(old(State()), State()) && Extends(old(poc.evec))
        invariant ptTr in blocks && pairs.Keys <= blocks - {ptTr}
        invariant AllSynced(pairs, ptTr, stLoc, edLoc)
        invariant forall t :: t in trs && t !in pairs ==> t.events == old(t.events)
        invariant Adds(old(poc.evec), poc.evec, PairClauses(pairs, ptTr.events))
        invariant forall t :: t in trs && t in blocks && t != ptTr ==>
                    SyncOutcome(g, Bare(old(t.events)), Bare(t.events), t in pairs, stLoc, edLoc)
        decreases threads - blocks
      {
        ghost var st, cs, was := State(), poc.evec, pairs;
        var tr;
        tr, pairs := NextSync(stLoc, edLoc, ptTr, blocks, was);
        GrownTrans(old(State()), st, State());
        PairClausesGrow(was, pairs, ptTr.events, tr);
        AddsTrans(old(poc.evec), cs, poc.evec, PairClauses(was, ptTr.events), PairClauses(pairs, ptTr.events),
                  PairClauses(pairs, ptTr.events));
        if tr == null {
          break;
        }
        var t: Thread := tr;
        assert t in threads - blocks;
        blocks := blocks + {t};
      }
    }

    lemma NothingSynced(ptTr: Thread, stLoc: Loc, edLoc: Loc)
      ensures AllSynced(map[], ptTr, stLoc, edLoc)
    {
    }

    /** A pair keeps bracketing the child while its own thread is left alone and constraints are added. */
    lemma StillSynced(p: Span, u: Thread, ptTr: Thread, stLoc: Loc, edLoc: Loc, cs: seq<Clause<InstLocTr>>)
      requires u in trs && p.0.tr == p.1.tr == u && u != ptTr && u.Has(p.0) && u.Has(p.1)
      requires Before(u.events, p.0, p.1) && Marked(u.events, p.0, TrCreate) && Marked(u.events, p.1, TrJoin)
      requires Bracketed(cs, ptTr.events, p.0, p.1) && cs <= poc.evec
      requires p.0.loc == stLoc && p.1.loc == edLoc
      ensures SyncIn(p, ptTr, stLoc, edLoc)
    {
      BracketedExtends(cs, poc.evec, ptTr.events, p.0, p.1);
    }

    // ---- locks -------------------------------------------------------------------------------

    /** The unlocks of `li` that control flow can reach from `loc` without taking the lock again. */
    ghost predicate Guards(li: LockInfo, loc: Loc, unlock: Loc) {
      && gs.ctxPrefix(li.loc, loc)
      && Reach(g, li.loc, loc, {})
      && unlock in li.unlocks
      && Reach(g, loc, unlock, {li.loc})
    }

    /** GlobalState::getLock4Loc: the locks around `loc`, each with all the unlocks it is paired with there. */
    method GetLock4Loc(loc: Loc) returns (res: map<LockInfo, set<Loc>>)
      ensures forall li, u :: li in gs.locks && Guards(li, loc, u) <==> li in res && u in res[li]
      ensures forall li :: li in res ==> res[li] != {}
    {
      hide Reach;
      res := map[];
      for l := 0 to |gs.locks|
        invariant forall li, u :: li in gs.locks[..l] && Guards(li, loc, u) <==> li in res && u in res[li]
        invariant forall li :: li in res ==> res[li] != {}
      {
        var li := gs.locks[l];
        var us := {};
        if gs.ctxPrefix(li.loc, loc) && Reach(g, li.loc, loc, {}) {
          us := Unlocks(li, loc);
        }
        assert forall u :: u in us <==> Guards(li, loc, u);
        if us != {} {
          res := res[li := us];
        }
      }
    }

    /** The unlock sites paired with a lock that are reached from `loc` around the lock. */
    method Unlocks(li: LockInfo, loc: Loc) returns (us: set<Loc>)
      ensures forall u :: u in us <==> u in li.unlocks && Reach(g, loc, u, {li.loc})
    {
      us := {};
      for i := 0 to |li.unlocks|
        invariant forall u :: u in us <==> u in li.unlocks[..i] && Reach(g, loc, u, {li.loc})
      {
        if Reach(g, loc, li.unlocks[i], {li.loc}) {
          us := us + {li.unlocks[i]};
        }
      }
    }

    /** The locks in the order of the visit, each with the one unlock that is tried. */
    method PickUnlocks(res: map<LockInfo, set<Loc>>) returns (lks: seq<(LockInfo, Loc)>)
      requires forall li :: li in res ==> res[li] != {}
      ensures forall i :: 0 <= i < |lks| ==> lks[i].0 in res && lks[i].1 in res[lks[i].0]
      ensures forall li :: li in res ==> exists i :: 0 <= i < |lks| && lks[i].0 == li
      ensures forall i, j :: 0 <= i < j < |lks| ==> lks[i].0 != lks[j].0
    {
      lks := [];
      var todo := res.Keys;
      while todo != {}
        invariant todo <= res.Keys
        invariant forall i :: 0 <= i < |lks| ==> lks[i].0 in res && lks[i].0 !in todo && lks[i].1 in res[lks[i].0]
        invariant forall li :: li in res && li !in todo ==> exists i :: 0 <= i < |lks| && lks[i].0 == li
        invariant forall i, j :: 0 <= i < j < |lks| ==> lks[i].0 != lks[j].0
        decreases todo
      {
        var li :| li in todo;
        var u :| u in res[li];
        ghost var was := lks;
        lks, todo := lks + [(li, u)], todo - {li};
        assert lks[|was|].0 == li && forall i :: 0 <= i < |was| ==> lks[i] == was[i];
      }
    }

    method AddRegion(li: LockInfo, lk: InstLocTr, uk: InstLocTr)
      requires Valid() && Shape()
      requires lk.tr in trs && Before(lk.tr.events, lk, uk)
      requires Marked(lk.tr.events, lk, Lock) && Marked(lk.tr.events, uk, Unlock)
      requires li in gs.locks && lk.loc == li.loc && uk.loc in li.unlocks
      modifies this`lockMap
      ensures Valid() && Shape() && State() == old(State())
      ensures LocksLe(old(lockMap), lockMap)
      ensures li in lockMap && (lk, uk) in lockMap[li]
      ensures forall l, x :: l in lockMap && x in lockMap[l] ==>
              (l in old(lockMap) && x in old(lockMap)[l]) || x == (lk, uk)
    {
      hide Sound, Filed, WellFormed;
      ghost var st := State();
      RegionIsSound(st, poc.evec, lockMap, li, Of(lk.tr), (lk, uk));
      FiledMore(gs, lockMap, li, (lk, uk));
      lockMap := lockMap[li := (if li in lockMap then lockMap[li] else {}) + {(lk, uk)}];
      assert State() == st;
    }

    /** The lock is in, not behind `n`; the unlock follows `n`, or the lock goes again. */
    method UnlockOrUndo(n: InstLocTr, l: InstLocTr, r0: int, ghost st: State<InstLocTr>, ghost i: nat, lock: Loc,
                        unlock: Loc)
      returns (uk: InstLocTr?, r1: int)
      requires Shape() && n.tr in trs && |st| == |trs| && Typed(st) && Typed(State()) && Owns(l) && l.tr == n.tr
      requires i < |st[Of(n.tr)]| && st[Of(n.tr)][i].node == n
      requires Grown(st, State()) && Entered(st, Of(n.tr), Request(lock, {Lock}, true, false, i, -1), l, r0)
      modifies n.tr
      ensures Shape() && Typed(State()) && Grown(st, State()) && |State()| == |st|
      ensures uk == null ==> State() == st
      ensures uk != null <==> RegionFits(g, Bare(st[Of(n.tr)]), i, lock, unlock)
      ensures Bare(n.tr.events) == RegionTrace(g, Bare(st[Of(n.tr)]), i, lock, unlock)
      ensures uk != null ==>
                && NodeSet(n.tr.events) <= NodeSet(st[Of(n.tr)]) + NewOne(l, r0) + NewOne(uk, r1)
                && Owns(uk) && uk.tr == n.tr && uk.loc == unlock && Before(n.tr.events, n, uk)
                && Marked(n.tr.events, uk, Unlock)
                && GrownSeq(old(n.tr.events), n.tr.events) && State() == st[Of(n.tr) := n.tr.events]
    {
      hide Reach, WellFormed, GrownSeq, Shape, Before, Typed, RegionFits, RegionTrace, Bare, NodeSet;
      ghost var mid, k, q0 := State(), Of(n.tr), Request(lock, {Lock}, true, false, i, -1);
      ShapeOf(n);
      Moved(n.tr, st[k], q0, l, n, i);
      InsertedNodes(g, st[k], q0, l);
      ghost var q1 := n.tr.Asked(unlock, {Unlock}, true, false, null, n);
      RegionByNodes(st[k], q0, l, q1, i);
      uk, r1 := SecondOrUndo(l, r0, Lock, q0, st, unlock, Unlock, n);
      if uk == null {
        GrownRefl(st);
        assert State()[k] == st[k];
        return;
      }
      BareInserted(g, mid[k], q1, uk);
      InsertedNodes(g, mid[k], q1, uk);
      GrownTrans(st, mid, State());
    }

    /** Put a lock before `n` and an unlock behind it into the thread of `n`, or change nothing. */
    method InsertRegion(n: InstLocTr, lock: Loc, unlock: Loc)
      returns (lk: InstLocTr?, uk: InstLocTr?, r0: int, r1: int)
      requires Shape() && Typed(State()) && Owns(n)
      modifies n.tr
      ensures Shape() && Typed(State()) && Grown(old(State()), State())
      ensures State() == old(State())[Of(n.tr) := n.tr.events]
      ensures uk == null ==> State() == old(State())
      ensures uk != null <==> RegionFits(g, Bare(old(n.tr.events)), old(n.tr.At(n)), lock, unlock)
      ensures Bare(n.tr.events) == RegionTrace(g, Bare(old(n.tr.events)), old(n.tr.At(n)), lock, unlock)
      ensures uk != null ==> NodeSet(n.tr.events) <= NodeSet(old(n.tr.events)) + NewOne(lk, r0) + NewOne(uk, r1)
      ensures uk != null ==>
                && lk != null && Owns(lk) && Owns(uk) && lk.tr == uk.tr == n.tr
                && lk.loc == lock && uk.loc == unlock
                && NotAfter(n.tr.events, lk, n) && Before(n.tr.events, n, uk) && Before(n.tr.events, lk, uk)
                && Marked(n.tr.events, lk, Lock) && Marked(n.tr.events, uk, Unlock)
    {
      hide Reach, WellFormed, GrownSeq, Shape, Before, NotAfter, Typed, RegionTrace, Bare, NodeSet;
      ghost var st, k, i := State(), Of(n.tr), n.tr.At(n);
      GrownRefl(st);
      LockFirst(st[k], i, lock, unlock);
      uk, r1 := null, OTHER;
      lk, r0 := InsertInto(n.tr, lock, Lock, false, n, null);
      if lk == null {
        return;
      }
      hide RegionFits;
      var l: InstLocTr := lk;
      NotAfterHolds(n.tr.events, l, n);
      ghost var mid := State();
      uk, r1 := UnlockOrUndo(n, l, r0, st, i, lock, unlock);
      if uk == null {
        return;
      }
      GrownSeqBefore(mid[k], State()[k], l, n);
      GrownMarked(mid[k], State()[k], l, Lock);
      NodesSeparate();
      RegionAround(State()[k], l, n, uk);
    }

    /** Without a lock there is no region. */
    lemma LockFirst(s: seq<Ev<InstLocTr>>, i: nat, lock: Loc, unlock: Loc)
      requires i < |s|
      ensures var q0 := Request(lock, {Lock}, true, false, i, -1);
              !Accepted(InsertCode(g, s, q0)) ==>
                !RegionFits(g, Bare(s), i, lock, unlock) && RegionTrace(g, Bare(s), i, lock, unlock) == Bare(s)
    {
      hide Reach, FreshCode, SameCode;
      BareInsert(g, s, Request(lock, {Lock}, true, false, i, -1));
    }

    /** Where a node is once another one has gone in. */
    lemma Moved(tr: Thread, s: seq<Ev<InstLocTr>>, q: Request, r: InstLocTr, n: InstLocTr, i: nat)
      requires tr.Valid() && Fits(s, q) && tr.events == Inserted(g, s, q, r)
      requires i < |s| && s[i].node == n
      ensures tr.Has(n) && tr.At(n) == Shifted(InsertCode(g, s, q), i)
    {
      hide Reach, WellFormed, FreshCode, SameCode;
      assert tr.events[Shifted(InsertCode(g, s, q), i)].node == n;
      tr.NodesDiffer();
    }

    /** The second request of a region, asked of nodes and asked of the trace. */
    lemma RegionByNodes(s: seq<Ev<InstLocTr>>, q0: Request, l: InstLocTr, q1: Request, i: nat)
      requires i < |s| && q0 == Request(q0.loc, {Lock}, true, false, i, -1) && Accepted(InsertCode(g, s, q0))
      requires q1 == Request(q1.loc, {Unlock}, true, false, -1, Shifted(InsertCode(g, s, q0), i))
      ensures Fits(Inserted(g, s, q0, l), q1)
      ensures RegionFits(g, Bare(s), i, q0.loc, q1.loc) <==> Accepted(InsertCode(g, Inserted(g, s, q0, l), q1))
      ensures RegionFits(g, Bare(s), i, q0.loc, q1.loc) ==>
                RegionTrace(g, Bare(s), i, q0.loc, q1.loc) == Inserted(g, Bare(Inserted(g, s, q0, l)), q1, q1.loc)
      ensures !RegionFits(g, Bare(s), i, q0.loc, q1.loc) ==> RegionTrace(g, Bare(s), i, q0.loc, q1.loc) == Bare(s)
    {
      hide Reach, FreshCode, SameCode;
      BareInsert(g, s, q0);
      BareInserted(g, s, q0, l);
      BareInsert(g, Inserted(g, s, q0, l), q1);
    }

    /** One lock of addLockTrLocs: its region goes around `n`, or nothing changes. */
    method TryLock(n: InstLocTr, li: LockInfo, unlock: Loc)
      returns (p: Option<Span>, newLocs: set<InstLocTr>)
      requires Valid() && Shape() && Owns(n) && li in gs.locks && unlock in li.unlocks
      modifies this`lockMap, n.tr
      ensures Valid() && Shape() && Grown(old(State()), State()) && LocksLe(old(lockMap), lockMap)
      ensures State() == old(State())[Of(n.tr) := n.tr.events]
      ensures p.None? ==> State() == old(State()) && lockMap == old(lockMap)
      ensures p.Some? <==> RegionFits(g, Bare(old(n.tr.events)), old(n.tr.At(n)), li.loc, unlock)
      ensures Bare(n.tr.events) == RegionTrace(g, Bare(old(n.tr.events)), old(n.tr.At(n)), li.loc, unlock)
      ensures p.Some? ==>
                && li in lockMap && p.value in lockMap[li]
                && p.value.0.loc == li.loc && p.value.1.loc == unlock
                && NotAfter(n.tr.events, p.value.0, n) && Before(n.tr.events, n, p.value.1)
      ensures forall x :: x in newLocs ==> Owns(x)
      ensures NodesOf(State()) <= NodesOf(old(State())) + newLocs
      ensures forall l, x :: l in lockMap && x in lockMap[l] ==>
                             (l in old(lockMap) && x in old(lockMap)[l]) || (p.Some? && x == p.value)
    {
      hide Reach, WellFormed, GrownSeq, Shape, Sound, Filed, Typed, RegionFits, RegionTrace, Bare, NodesOf, NodeSet;
      p, newLocs := None, {};
      ghost var st := State();
      SoundIsTyped(st, poc.evec, lockMap);
      var a, b, r0, r1 := InsertRegion(n, li.loc, unlock);
      GrownSound(st, State(), poc.evec, lockMap);
      if b == null {
        return;
      }
      var lk: InstLocTr, uk: InstLocTr := a, b;
      AddRegion(li, lk, uk);
      p := Some((lk, uk));
      if r0 >= 0 {
        newLocs := newLocs + {lk};
      }
      if r1 >= 0 {
        newLocs := newLocs + {uk};
      }
      assert NewOne(lk, r0) + NewOne(uk, r1) == newLocs;
      NodesOfUpdated(st, Of(n.tr), n.tr.events, newLocs);
    }

    /** The schedule is in good order and has lost nothing since the given moment. */
    ghost predicate Since(st: State<InstLocTr>, cs: seq<Clause<InstLocTr>>, locks: LockMap)
      reads this, trs, poc
    {
      Valid() && Shape() && Grown(st, State()) && cs <= poc.evec && LocksLe(locks, lockMap)
    }

    lemma SinceTrans(st: State<InstLocTr>, cs: seq<Clause<InstLocTr>>, locks: LockMap,
                     st': State<InstLocTr>, cs': seq<Clause<InstLocTr>>, locks': LockMap)
      requires Grown(st, st') && cs <= cs' && LocksLe(locks, locks')
      requires Since(st', cs', locks')
      ensures Since(st, cs, locks)
    {
      hide Sound, Filed, Shape, GrownSeq;
      GrownTrans(st, st', State());
    }

    /** What owning a node means once the schedule has grown. */
    lemma StillOwned(n: InstLocTr, st: State<InstLocTr>)
      requires n.tr in trs && Of(n.tr) < |st| && Holding(st[Of(n.tr)], n)
      requires Grown(st, State())
      ensures Owns(n)
    {
      GrownSeqBefore(st[Of(n.tr)], State()[Of(n.tr)], n, n);
    }

    // ---- condition checks --------------------------------------------------------------------

    /** ThreadSched::_noKill on a check and a killer in one thread. */
    method NoKill(c: InstLocTr, k: InstLocTr) returns (b: bool)
      requires c.tr.g == g && c.tr.Has(c) && k.tr.Has(k)
      ensures b <==> c.tr == k.tr && Harmless(g, c.tr.events, c.tr.At(c), c.tr.At(k))
    {
      hide Reach;
      if c.tr != k.tr {
        return false;
      }
      var s := c.tr.events;
      var ic, ik := c.tr.At(c), c.tr.At(k);
      if ik > ic {
        return false;
      }
      if Dom(g, s[ik].loc, s[ic].loc, false) {
        return false;
      }
      for m := 0 to ik
        invariant forall x :: 0 <= x < m ==> s[x].ty != {Free}
      {
        if s[m].ty == {Free} {
          return false;
        }
      }
      return true;
    }

    /** ThreadSched::_mustKill: the killer is at or before the check in the same thread. */
    method MustKill(c: InstLocTr, k: InstLocTr) returns (b: bool)
      requires c.tr.Valid() && c.tr.Has(c) && k.tr.Has(k)
      ensures b <==> c.tr == k.tr && NotAfter(c.tr.events, k, c)
      ensures b <==> c.tr == k.tr && c.tr.At(k) <= c.tr.At(c)
    {
      hide Reach;
      c.tr.NodesDiffer();
      if c.tr != k.tr {
        return false;
      }
      b := c.tr.At(k) <= c.tr.At(c);
    }

    /** Put a killer into any thread, and take it out again if it is a harmless one. */
    method PlaceKiller(c: InstLocTr, kloc: Loc) returns (k: InstLocTr?, rk: int)
      requires Shape() && Typed(State()) && Owns(c)
      modifies this`trs, trs
      ensures Shape() && Grown(old(State()), State()) && Typed(State()) && trs == old(trs) && Owns(c)
      ensures k == null <==> DroppedAt(g, old(State()), Of(c.tr), c.loc, kloc)
      ensures k == null ==> State() == old(State())
      ensures k != null ==> Owns(k) && k.loc == kloc && Marked(k.tr.events, k, GSet)
      ensures k != null ==> NodesOf(State()) <= NodesOf(old(State())) + NewOne(k, rk)
      ensures k != null && c.tr == k.tr ==> !Harmless(g, c.tr.events, c.tr.At(c), c.tr.At(k))
      ensures FatalAt(g, old(State()), Of(c.tr), c.loc, kloc) <==>
              k != null && c.tr == k.tr && c.tr.At(k) <= c.tr.At(c)
    {
      hide Reach, WellFormed, GrownSeq, Shape, Typed, Harmless, Dom, KillerDropped, KillerFatal, TracesOf, NodesOf;
      ShapeOf(c);
      AtIsIndex(c);
      ghost var st, i, q := State(), c.tr.At(c), Anywhere(kloc, GSet, false);
      GrownRefl(st);
      k, rk := AddLoc(kloc, GSet, {}, false, false);
      if k == null {
        KillerByNodes(g, st, Of(c.tr), i, kloc, |st|, c);
        return;
      }
      var killer: InstLocTr := k;
      KillerByNodes(g, st, Of(c.tr), i, kloc, Of(k.tr), killer);
      KillerGoesIn(st, q, killer);
      StillOwned(c, st);
      ShapeOf(c);
      if c.tr == k.tr {
        Moved(c.tr, st[Of(c.tr)], q, killer, c, i);
        LandingIsAt(c.tr, st[Of(c.tr)], q, killer);
      }
      k := KeepOrDrop(c, killer, rk, st, q);
    }

    /** A killer has gone in; it is taken out again if it is a harmless one. */
    method KeepOrDrop(c: InstLocTr, killer: InstLocTr, rk: int, ghost st: State<InstLocTr>, ghost q: Request)
      returns (k: InstLocTr?)
      requires Shape() && Typed(State()) && Typed(st) && Owns(c) && Owns(killer)
      requires Grown(st, State()) && q.ty == {GSet} && Entered(st, Of(killer.tr), q, killer, rk)
      requires c.tr in trs && Of(c.tr) < |st| && Holding(st[Of(c.tr)], c)
      modifies killer.tr
      ensures Shape() && Typed(State()) && Grown(st, State()) && Owns(c)
      ensures k == null <==> old(c.tr == killer.tr && Harmless(g, c.tr.events, c.tr.At(c), c.tr.At(killer)))
      ensures if k == null then State() == st else k == killer && State() == old(State()) && Owns(k)
    {
      hide Reach, WellFormed, GrownSeq, Shape, Typed, Harmless, Dom;
      ShapeOf(c);
      k := killer;
      var noKill := NoKill(c, killer);
      if noKill {
        if rk != PRESENT {
          Undo(killer.tr, killer, GSet, st, q);
        }
        GrownRefl(st);
        StillOwned(c, st);
        k := null;
      }
    }

    lemma KillerGoesIn(st: State<InstLocTr>, q: Request, k: InstLocTr)
      requires k.tr in trs && Of(k.tr) < |st| && Fits(st[Of(k.tr)], q)
      requires State() == st[Of(k.tr) := Inserted(g, st[Of(k.tr)], q, k)]
      ensures NodesOf(State()) <= NodesOf(st) + NewOne(k, InsertCode(g, st[Of(k.tr)], q))
    {
      hide InsertCode, Inserted, NodesOf;
      InsertedNodes(g, st[Of(k.tr)], q, k);
      NodesOfUpdated(st, Of(k.tr), Inserted(g, st[Of(k.tr)], q, k), NewOne(k, InsertCode(g, st[Of(k.tr)], q)));
    }

    /** One killer of a check: `verdict` says what became of it. */
    method TryKiller(c: InstLocTr, kloc: Loc) returns (verdict: Verdict, k: InstLocTr?, isNew: bool)
      requires Valid() && Shape() && Owns(c)
      modifies this`trs, trs, poc
      ensures Since(old(State()), old(poc.evec), lockMap) && trs == old(trs) && Owns(c)
      ensures verdict == Dropped <==> DroppedAt(g, old(State()), Of(c.tr), c.loc, kloc)
      ensures verdict == Dropped ==> State() == old(State()) && poc.evec == old(poc.evec) && k == null
      ensures verdict != Dropped ==> k != null && Owns(k) && k.loc == kloc && Marked(k.tr.events, k, GSet)
      ensures verdict == Kept ==>
              NodesOf(State()) <= NodesOf(old(State())) + if isNew then var x: InstLocTr := k; {x} else {}
      ensures verdict == Deadly <==> FatalAt(g, old(State()), Of(c.tr), c.loc, kloc)
      ensures verdict == Deadly ==> c.tr == k.tr && NotAfter(c.tr.events, k, c)
                                    && !Harmless(g, c.tr.events, c.tr.At(c), c.tr.At(k))
      ensures verdict == Kept ==>
                && (c.tr == k.tr ==> !NotAfter(c.tr.events, k, c))
                && poc.evec == old(poc.evec) + OrderClauses(Some(c), Some(k))
    {
      hide Reach, WellFormed, GrownSeq, Grown, Shape, Sound, Filed, Typed, NotAfter, Harmless, DroppedAt, FatalAt,
           NodesOf, LocksLe;
      SameLocks(lockMap);
      ghost var st := State();
      SoundIsTyped(st, poc.evec, lockMap);
      var rk;
      k, rk := PlaceKiller(c, kloc);
      verdict, isNew := Dropped, false;
      GrownSound(st, State(), poc.evec, lockMap);
      if k == null {
        return;
      }
      ShapeOf(c);
      var mustKill := MustKill(c, k);
      if mustKill {
        verdict := Deadly;
        return;
      }
      verdict, isNew := Kept, rk >= 0;
      Order(c, k);
    }

    lemma ShapeOf(n: InstLocTr)
      requires Shape() && n.tr in trs
      ensures n.tr.Valid() && n.tr.g == g
    {
      hide WellFormed;
    }

    lemma StillNotAfter(tr: Thread, a: InstLocTr, b: InstLocTr, st: State<InstLocTr>)
      requires tr in trs && Of(tr) < |st| && NotAfter(st[Of(tr)], a, b)
      requires Grown(st, State())
      ensures NotAfter(tr.events, a, b)
    {
      GrownSeqBefore(st[Of(tr)], State()[Of(tr)], a, b);
    }

    /** `k` is recorded to come after the check `c`. */
    ghost predicate Precedes(c: InstLocTr, k: InstLocTr)
      reads poc
    {
      c == k || [(c, k)] in poc.evec
    }

    /** The check `c` is in place before `n`, and each killer in `kept` is recorded to follow it. */
    ghost predicate Settled(c: InstLocTr, n: InstLocTr, klocs: seq<Loc>, kept: set<InstLocTr>, newLocs: set<InstLocTr>)
      reads this, trs, poc, n.tr
    {
      && c.tr == n.tr && Owns(c) && Owns(n) && NotAfter(n.tr.events, c, n) && Marked(n.tr.events, c, GCheck)
      && (forall k :: k in kept ==> k.loc in klocs && Owns(k) && Marked(k.tr.events, k, GSet) && Precedes(c, k))
      && (forall x :: x in newLocs ==> Owns(x))
    }

    lemma StillSettled(c: InstLocTr, n: InstLocTr, klocs: seq<Loc>, kept: set<InstLocTr>, newLocs: set<InstLocTr>,
                       st: State<InstLocTr>, cs: seq<Clause<InstLocTr>>)
      requires Since(st, cs, lockMap) && |st| == |trs|
      requires n.tr in trs && c.tr == n.tr && NotAfter(st[Of(n.tr)], c, n) && Marked(st[Of(n.tr)], c, GCheck)
      requires forall k :: k in kept ==>
               k.loc in klocs && k.tr in trs && Marked(st[Of(k.tr)], k, GSet) && (c == k || [(c, k)] in cs)
      requires forall x :: x in newLocs ==> x.tr in trs && Holding(st[Of(x.tr)], x)
      ensures Settled(c, n, klocs, kept, newLocs)
    {
      hide Sound, Filed, Shape, GrownSeq;
      StillNotAfter(n.tr, c, n, st);
      NotAfterHolds(n.tr.events, c, n);
      GrownMarked(st[Of(n.tr)], State()[Of(n.tr)], c, GCheck);
      forall k | k in kept ensures Owns(k) && Marked(k.tr.events, k, GSet) && Precedes(c, k) {
        GrownMarked(st[Of(k.tr)], State()[Of(k.tr)], k, GSet);
        assert Holding(k.tr.events, k);
        assert forall x :: x in cs ==> x in poc.evec;
      }
      forall x | x in newLocs ensures Owns(x) {
        StillOwned(x, st);
      }
    }

    lemma SettledMore(c: InstLocTr, n: InstLocTr, klocs: seq<Loc>, kept: set<InstLocTr>, newLocs: set<InstLocTr>,
                      k: InstLocTr, isNew: bool, cs: seq<Clause<InstLocTr>>)
      requires Settled(c, n, klocs, kept, newLocs) && Owns(k) && k.loc in klocs && Marked(k.tr.events, k, GSet)
      requires poc.evec == cs + OrderClauses(Some(c), Some(k))
      ensures Settled(c, n, klocs, kept + {k}, newLocs + if isNew then {k} else {})
    {
      assert c != k ==> poc.evec[|cs|] == [(c, k)];
    }

    /** The killer `dead` sits at or before the check `c` in the thread of `c`, and is not harmless there. */
    ghost predicate Fatal(c: InstLocTr, dead: InstLocTr?, klocs: seq<Loc>)
      reads this, trs, c.tr
    {
      && dead != null && Owns(dead) && dead.loc in klocs && dead.tr == c.tr && NotAfter(c.tr.events, dead, c)
      && c.tr.Has(c) && !Harmless(g, c.tr.events, c.tr.At(c), c.tr.At(dead))
    }

    /** A check of a node of the schedule is in place, and one of its killers is not behind it, and not
        harmless. */
    ghost predicate Clashes(x: Option<Clash>)
      reads this, trs
    {
      && x.Some? && Owns(x.value.n) && Owns(x.value.c) && Owns(x.value.dead)
         && x.value.n.tr == x.value.c.tr == x.value.dead.tr
      && NotAfter(x.value.c.tr.events, x.value.c, x.value.n)
      && NotAfter(x.value.c.tr.events, x.value.dead, x.value.c)
      && !Harmless(g, x.value.c.tr.events, x.value.c.tr.At(x.value.c), x.value.c.tr.At(x.value.dead))
      && exists check ::
        check in gs.checks(x.value.n.loc) && check.cloc == x.value.c.loc && x.value.dead.loc in check.klocs
    }

    /** One more killer of a check that is in place. */
    method NextKiller(c: InstLocTr, n: InstLocTr, klocs: seq<Loc>, i: nat, kept: set<InstLocTr>,
                      newLocs: set<InstLocTr>, ghost st0: State<InstLocTr>, ghost hist: set<State<InstLocTr>>)
      returns (deadly: bool, all: set<InstLocTr>, made: set<InstLocTr>, ghost dead: InstLocTr?)
      requires Valid() && Shape() && Settled(c, n, klocs, kept, newLocs) && i < |klocs| && Grown(st0, State())
      requires KillerPhase(g, st0, State(), Of(c.tr), c.loc, klocs, i, kept, newLocs, hist)
      modifies this`trs, trs, poc
      ensures Since(old(State()), old(poc.evec), lockMap) && trs == old(trs)
      ensures Settled(c, n, klocs, all, made) && kept <= all
      ensures deadly ==> Fatal(c, dead, klocs)
      ensures deadly <==> FatalAt(g, old(State()), Of(c.tr), c.loc, klocs[i])
      ensures !deadly ==> KillerPhase(g, st0, State(), Of(c.tr), c.loc, klocs, i + 1, all, made, hist + {old(State())})
      ensures !deadly && all == {} ==> poc.evec == old(poc.evec) && made == newLocs
      ensures !deadly ==> Adds(old(poc.evec), poc.evec, KillClauses(c, all))
    {
      hide Reach, WellFormed, GrownSeq, Shape, Sound, Filed, NotAfter, Precedes, DroppedAt, FatalAt, NodesOf,
           KillerPhase, Harmless;
      all, made, dead := kept, newLocs, null;
      ghost var st, cs, k := State(), poc.evec, Of(c.tr);
      SettledAsState(c, n, klocs, kept, newLocs);
      CheckIsThere(c, n, klocs, kept, newLocs);
      ShapeOf(c);
      AtIsIndex(c);
      var verdict, x, isNew := TryKiller(c, klocs[i]);
      StillSettled(c, n, klocs, kept, newLocs, st, cs);
      deadly := verdict == Deadly;
      if deadly {
        dead := x;
        return;
      }
      ghost var placed := if x == null then None else var y: InstLocTr := x; Some(y);
      KillerPhaseStep(g, st0, st, State(), k, c.loc, klocs, i, kept, newLocs, hist, placed, isNew);
      if verdict == Kept {
        var killer: InstLocTr := x;
        SettledMore(c, n, klocs, kept, newLocs, killer, isNew, cs);
        all := all + {killer};
        assert c != killer ==> [(c, killer)] in KillClauses(c, all);
        AddsOne(cs, poc.evec, c, killer, KillClauses(c, all));
        made := made + if isNew then {killer} else {};
        assert isNew ==> made == newLocs + {killer};
        assert !isNew ==> made == newLocs;
      }
    }

    /** All killers of a check that is in place. */
    method TryKillers(c: InstLocTr, n: InstLocTr, klocs: seq<Loc>)
      returns (r: int, kept: set<InstLocTr>, newLocs: set<InstLocTr>, ghost dead: InstLocTr?,
               ghost hist: set<State<InstLocTr>>)
      requires Valid() && Shape() && Settled(c, n, klocs, {}, {})
      modifies this`trs, trs, poc
      ensures Since(old(State()), old(poc.evec), lockMap) && trs == old(trs)
      ensures Settled(c, n, klocs, kept, newLocs)
      ensures r == 0 || (r == -1 && Fatal(c, dead, klocs))
      ensures r == 0 && kept == {} ==> State() == old(State()) && poc.evec == old(poc.evec) && newLocs == {}
      ensures r == 0 ==> KillerPhase(g, old(State()), State(), Of(c.tr), c.loc, klocs, |klocs|, kept, newLocs, hist)
      ensures r == 0 ==> Adds(old(poc.evec), poc.evec, KillClauses(c, kept))
    {
      hide Reach, WellFormed, GrownSeq, Shape, Sound, Filed, NotAfter, Precedes, Settled, Owns, KillerPhase, Fatal,
           Adds;
      AddsNothing(poc.evec, KillClauses(c, {}));
      r, kept, newLocs, dead, hist := 0, {}, {}, null, {};
      CheckIsThere(c, n, klocs, {}, {});
      ghost var st0, k := State(), Of(c.tr);
      GrownRefl(st0);
      KillerPhaseStarts(g, st0, k, c.loc, klocs);
      for i := 0 to |klocs|
        invariant Since(old(State()), old(poc.evec), lockMap) && trs == old(trs)
        invariant Settled(c, n, klocs, kept, newLocs)
        invariant kept == {} ==> State() == old(State()) && poc.evec == old(poc.evec) && newLocs == {}
        invariant KillerPhase(g, st0, State(), k, c.loc, klocs, i, kept, newLocs, hist)
        invariant Adds(old(poc.evec), poc.evec, KillClauses(c, kept))
      {
        ghost var st, cs, was := State(), poc.evec, kept;
        CheckIsThere(c, n, klocs, kept, newLocs);
        var deadly;
        deadly, kept, newLocs, dead := NextKiller(c, n, klocs, i, kept, newLocs, st0, hist);
        SinceTrans(old(State()), old(poc.evec), lockMap, st, cs, lockMap);
        if deadly {
          return -1, kept, newLocs, dead, hist;
        }
        hist := hist + {st};
        AddsTrans(old(poc.evec), cs, poc.evec, KillClauses(c, was), KillClauses(c, kept), KillClauses(c, kept));
        PhaseUnchanged(g, st0, State(), k, c.loc, klocs, i + 1, kept, newLocs, hist);
      }
    }

    lemma CheckIsThere(c: InstLocTr, n: InstLocTr, klocs: seq<Loc>, kept: set<InstLocTr>, newLocs: set<InstLocTr>)
      requires Settled(c, n, klocs, kept, newLocs)
      ensures c.tr in trs && c.tr.Has(c) && c.tr == n.tr
    {
    }

    lemma SettledAsState(c: InstLocTr, n: InstLocTr, klocs: seq<Loc>, kept: set<InstLocTr>, newLocs: set<InstLocTr>)
      requires Settled(c, n, klocs, kept, newLocs)
      ensures n.tr in trs && c.tr == n.tr && NotAfter(State()[Of(n.tr)], c, n) && Marked(State()[Of(n.tr)], c, GCheck)
      ensures forall k :: k in kept ==>
                k.loc in klocs && k.tr in trs && Marked(State()[Of(k.tr)], k, GSet)
                && (c == k || [(c, k)] in poc.evec)
      ensures forall x :: x in newLocs ==> x.tr in trs && Holding(State()[Of(x.tr)], x)
    {
    }

    /** Put a check before `n` into the thread of `n`, if it fits there. */
    method PlaceCheck(n: InstLocTr, check: Check) returns (c: InstLocTr?, rc: int, ghost q: Request)
      requires Valid() && Shape() && Owns(n)
      modifies n.tr
      ensures Since(old(State()), poc.evec, lockMap) && Typed(State())
      ensures c == null ==> State() == old(State())
      ensures q == Request(check.cloc, {GCheck}, true, false, old(n.tr.At(n)), -1)
      ensures c != null <==> Fits(old(n.tr.events), q) && Accepted(InsertCode(g, old(n.tr.events), q))
      ensures c != null ==>
              c.loc == check.cloc && Settled(c, n, check.klocs, {}, {}) && Entered(old(State()), Of(n.tr), q, c, rc)
    {
      hide Reach, WellFormed, GrownSeq, Shape, Sound, Filed, NotAfter, Typed;
      ghost var st := State();
      SoundIsTyped(st, poc.evec, lockMap);
      q := Request(check.cloc, {GCheck}, true, false, n.tr.At(n), -1);
      c, rc := InsertInto(n.tr, check.cloc, GCheck, false, n, null);
      GrownSound(st, State(), poc.evec, lockMap);
      if c != null {
        NotAfterHolds(n.tr.events, c, n);
      }
    }

    /** A check that has been put in, asked of nodes and asked of traces. */
    lemma CheckByNodes(st: State<InstLocTr>, k: nat, loc: Loc, check: Check, n: InstLocTr)
      requires k < |st| && ThreadSpec.Has(st[k], loc)
      ensures var q := Request(check.cloc, {GCheck}, true, false, IndexOf(st[k], loc), -1);
              if !Accepted(InsertCode(g, st[k], q)) then VainAt(g, st, k, loc, check)
              else VainAt(g, st, k, loc, check) <==>
                   forall j :: 0 <= j < |check.klocs| ==>
                     DroppedAt(g, st[k := Inserted(g, st[k], q, n)], k, check.cloc, check.klocs[j])
    {
      hide Reach, FreshCode, SameCode, KillerDropped;
      var i := IndexOf(st[k], loc);
      var q := Request(check.cloc, {GCheck}, true, false, i, -1);
      BareInsert(g, st[k], q);
      if Accepted(InsertCode(g, st[k], q)) {
        BareLanding(g, st[k], q);
        BareInserted(g, st[k], q, n);
        var mid: State<InstLocTr> := st[k := Inserted(g, st[k], q, n)];
        assert TracesOf(mid) == TracesOf(st)[k := Inserted(g, TracesOf(st)[k], q, check.cloc)];
        LandingIsIndex(st[k], q, n);
      }
    }

    lemma LandingIsIndex(s: seq<Ev<InstLocTr>>, q: Request, n: InstLocTr)
      requires Fits(s, q) && Accepted(InsertCode(g, s, q))
      ensures var r := Inserted(g, s, q, n); ThreadSpec.Has(r, q.loc) && IndexOf(r, q.loc) == Landing(g, s, q)
    {
      hide Reach, FreshCode, SameCode;
      var r, x := Inserted(g, s, q, n), Landing(g, s, q);
      assert r[x].loc == q.loc;
      var y := IndexOf(r, q.loc);
      if y < x {
        assert r[y].loc == s[y].loc;
      }
    }

    /** The check `c` is in place; it stays with the killers that are kept, or goes again. */
    method FillCheck(n: InstLocTr, c: InstLocTr, rc: int, check: Check, ghost st: State<InstLocTr>, ghost q: Request)
      returns (r: int, kept: set<InstLocTr>, newLocs: set<InstLocTr>, ghost dead: InstLocTr?,
               ghost hist: set<State<InstLocTr>>)
      requires Valid() && Shape() && Settled(c, n, check.klocs, {}, {}) && Typed(st) && Typed(State())
      requires n.tr in trs && |st| == |trs| && Grown(st, State()) && Sound(st, poc.evec, lockMap)
      requires q.ty == {GCheck} && Entered(st, Of(n.tr), q, c, rc)
      modifies this`trs, trs, poc
      ensures Since(st, old(poc.evec), lockMap) && trs == old(trs)
      ensures r == 0 || (r == -1 && Fatal(c, dead, check.klocs) && Settled(c, n, check.klocs, kept, newLocs))
      ensures r == 0 && kept == {} ==> State() == st && poc.evec == old(poc.evec) && newLocs == {}
      ensures r == 0 && kept != {} ==> Settled(c, n, check.klocs, kept, newLocs)
      ensures r == 0 ==> (kept == {} <==> forall j :: 0 <= j < |check.klocs| ==>
                                            DroppedAt(g, old(State()), Of(n.tr), c.loc, check.klocs[j]))
      ensures r == 0 && kept != {} ==> Moments(st, hist)
      ensures r == 0 && kept != {} ==> forall j :: 0 <= j < |check.klocs| ==>
              KillerSettled(g, kept, hist, Of(n.tr), c.loc, check.klocs[j])
      ensures r == 0 ==> NodesOf(State()) <= NodesOf(st) + newLocs
      ensures r == 0 ==> Adds(old(poc.evec), poc.evec, KillClauses(c, kept))
    {
      hide Reach, WellFormed, GrownSeq, Shape, Sound, Filed, NotAfter, Precedes, Settled, Fatal, Typed, NodesOf, Owns,
           KillerPhase, KillerSettled, DroppedAt, Moments, Adds, KillClauses;
      ghost var mid, cs := State(), poc.evec;
      CheckIsThere(c, n, check.klocs, {}, {});
      CheckGoesIn(st, q, c, rc);
      r, kept, newLocs, dead, hist := TryKillers(c, n, check.klocs);
      SinceTrans(st, cs, lockMap, mid, cs, lockMap);
      if r < 0 {
        return;
      }
      PhaseMeans(st, mid, Of(n.tr), c.loc, check.klocs, kept, newLocs, hist);
      if kept == {} {
        if rc != PRESENT {
          Undo(n.tr, c, GCheck, st, q);
        }
        assert State() == st;
        BackToStart(st, cs);
        return;
      }
      if rc >= 0 {
        SettledNew(c, n, check.klocs, kept, newLocs);
        newLocs := newLocs + {c};
      }
    }

    /** The thread the check is in, before and after. */
    lemma CheckGoesIn(st: State<InstLocTr>, q: Request, c: InstLocTr, rc: int)
      requires c.tr in trs && Entered(st, Of(c.tr), q, c, rc)
      ensures NodesOf(State()) <= NodesOf(st) + if rc >= 0 then {c} else {}
    {
      hide Reach, NodesOf, InsertCode, FreshCode, SameCode;
      InsertedNodes(g, st[Of(c.tr)], q, c);
      NodesOfUpdated(st, Of(c.tr), Inserted(g, st[Of(c.tr)], q, c), if rc >= 0 then {c} else {});
    }

    lemma PhaseMeans(st: State<InstLocTr>, mid: State<InstLocTr>, k: nat, cloc: Loc, klocs: seq<Loc>,
                     kept: set<InstLocTr>, newLocs: set<InstLocTr>, hist: set<State<InstLocTr>>)
      requires KillerPhase(g, mid, State(), k, cloc, klocs, |klocs|, kept, newLocs, hist) && Grown(st, mid)
               && |st| <= |mid|
      ensures kept == {} <==> forall j :: 0 <= j < |klocs| ==> DroppedAt(g, mid, k, cloc, klocs[j])
      ensures forall j :: 0 <= j < |klocs| ==> KillerSettled(g, kept, hist, k, cloc, klocs[j])
      ensures Moments(st, hist) && NodesOf(State()) <= NodesOf(mid) + newLocs && (kept == {} ==> State() == mid)
    {
      hide GrownSeq, KillerSettled, DroppedAt, NodesOf;
      forall s | s in hist ensures Grown(st, s) {
        GrownTrans(st, mid, s);
      }
    }

    lemma BackToStart(st: State<InstLocTr>, cs: seq<Clause<InstLocTr>>)
      requires Shape() && State() == st && poc.evec == cs && Sound(st, cs, lockMap) && Filed(gs, lockMap)
      ensures Since(st, cs, lockMap)
    {
      hide Sound, Filed, Shape;
      GrownRefl(st);
      SameLocks(lockMap);
    }

    /** One condition check guarding `n`: it goes before `n` together with the killers that are not
        harmless; with no killer left, nothing has changed. */
    method TryCheck(n: InstLocTr, check: Check)
      returns (r: int, c: InstLocTr?, kept: set<InstLocTr>, newLocs: set<InstLocTr>, ghost dead: InstLocTr?,
               ghost hist: set<State<InstLocTr>>)
      requires Valid() && Shape() && Owns(n)
      modifies this`trs, trs, poc
      ensures Since(old(State()), old(poc.evec), lockMap) && trs == old(trs)
      ensures c == null ==>
              r == 0 && kept == {} && newLocs == {} && State() == old(State()) && poc.evec == old(poc.evec)
      ensures c != null ==> c.loc == check.cloc && Settled(c, n, check.klocs, kept, newLocs)
      ensures r == 0 || (r == -1 && c != null && Fatal(c, dead, check.klocs))
      ensures r == 0 ==> (c != null <==> kept != {})
      ensures r == 0 ==> (c == null <==> check.klocs == [] || VainAt(g, old(State()), Of(n.tr), n.loc, check))
      ensures r == 0 && c != null ==> forall j :: 0 <= j < |check.klocs| ==>
              KillerSettled(g, kept, hist, Of(n.tr), check.cloc, check.klocs[j])
      ensures r == 0 && c != null ==> Moments(old(State()), hist)
      ensures r == 0 ==> NodesOf(State()) <= NodesOf(old(State())) + newLocs
      ensures r == 0 && c != null ==> Adds(old(poc.evec), poc.evec, KillClauses(c, kept))
    {
      hide Reach, WellFormed, GrownSeq, Shape, Sound, Filed, NotAfter, Precedes, Settled, Fatal, Typed, NodesOf, Owns,
           KillerSettled, Moments, DroppedAt, VainAt, InsertCode, Inserted, Landing, Adds, KillClauses;
      r, c, kept, newLocs, dead, hist := 0, null, {}, {}, null, {};
      NodeIsPlaced(n);
      ShapeOf(n);
      AtIsIndex(n);
      ghost var st, cs, k := State(), poc.evec, Of(n.tr);
      GrownRefl(st);
      SoundIsTyped(st, cs, lockMap);
      if |check.klocs| == 0 {
        return;
      }
      CheckByNodes(st, k, n.loc, check, n);
      var rc;
      ghost var q;
      c, rc, q := PlaceCheck(n, check);
      if c == null {
        return;
      }
      var chk: InstLocTr := c;
      CheckByNodes(st, k, n.loc, check, chk);
      r, kept, newLocs, dead, hist := FillCheck(n, chk, rc, check, st, q);
      if r == 0 && kept == {} {
        c := null;
      }
    }

    lemma SettledNew(c: InstLocTr, n: InstLocTr, klocs: seq<Loc>, kept: set<InstLocTr>, newLocs: set<InstLocTr>)
      requires Settled(c, n, klocs, kept, newLocs)
      ensures Settled(c, n, klocs, kept, newLocs + {c})
    {
    }

    // ---- the worklist ------------------------------------------------------------------------

    ghost predicate OwnsAll(s: set<InstLocTr>)
      reads this, trs
    {
      forall x :: x in s ==> Owns(x)
    }

    lemma NodeIsPlaced(n: InstLocTr)
      requires Owns(n)
      ensures n.tr in trs && n.tr.Has(n) && OwnsAll({}) && OwnsAll({n})
    {
    }

    lemma OwnsAllMore(a: set<InstLocTr>, b: set<InstLocTr>)
      ensures OwnsAll(a) && OwnsAll(b) <==> OwnsAll(a + b)
      ensures forall x :: x in a && OwnsAll(a) ==> Owns(x)
      ensures forall x :: x in b && OwnsAll(b) ==> Owns(x)
    {
      hide Owns;
    }

    lemma StillOwnsAll(s: set<InstLocTr>, st: State<InstLocTr>)
      requires |st| <= |trs| && Grown(st, State())
      requires forall x :: x in s ==> x.tr in trs && Of(x.tr) < |st| && Holding(st[Of(x.tr)], x)
      ensures OwnsAll(s)
    {
      hide Grown;
      forall x | x in s ensures Owns(x) {
        StillOwned(x, st);
      }
    }

    lemma OwnsAllAsState(s: set<InstLocTr>)
      requires OwnsAll(s)
      ensures forall x :: x in s ==> x.tr in trs && Holding(State()[Of(x.tr)], x)
    {
    }

    /** The region goes around `n`: its lock is not behind `n`, its unlock is. */
    ghost predicate Around(n: InstLocTr, p: Span)
      reads n.tr
    {
      NotAfter(n.tr.events, p.0, n) && Before(n.tr.events, n, p.1)
    }

    // ---- what has been tried ---------------------------------------------------------------------

    /** Moments of the schedule since `st`: nothing was lost before or after any of them. */
    ghost predicate Moments(st: State<InstLocTr>, hist: set<State<InstLocTr>>)
      reads this, trs
    {
      forall s :: s in hist ==> Grown(st, s) && Grown(s, State()) && |s| == |trs|
    }

    /** One lock around `n` has been dealt with: its region is on record, or it did not fit when it
        was tried. */
    ghost predicate LockDone(locks: LockMap, s: seq<Ev<InstLocTr>>, k: nat, n: InstLocTr,
                             li: LockInfo, hist: set<State<InstLocTr>>) {
      exists x :: Guards(li, n.loc, x)
        && (RecordedAt(locks, s, n, li, x) || RegionRefused(g, hist, k, n.loc, li.loc, x))
    }

    /** Every lock around `n` has been dealt with. */
    ghost predicate LocksDone(locks: LockMap, s: seq<Ev<InstLocTr>>, k: nat, n: InstLocTr,
                              hist: set<State<InstLocTr>>) {
      forall li, u :: li in gs.locks && Guards(li, n.loc, u) ==> LockDone(locks, s, k, n, li, hist)
    }

    lemma LockStaysDone(locks: LockMap, s: seq<Ev<InstLocTr>>,
                        locks': LockMap, s': seq<Ev<InstLocTr>>, k: nat, n: InstLocTr,
                        li: LockInfo, hist: set<State<InstLocTr>>, hist': set<State<InstLocTr>>)
      requires LockDone(locks, s, k, n, li, hist) && LocksLe(locks, locks') && GrownSeq(s, s') && hist <= hist'
      ensures LockDone(locks', s', k, n, li, hist')
    {
      hide GrownSeq, Guards, RefusedAt, Before, NotAfter;
      var x :| Guards(li, n.loc, x) && (RecordedAt(locks, s, n, li, x) || RegionRefused(g, hist, k, n.loc, li.loc, x));
      if RecordedAt(locks, s, n, li, x) {
        var p :| p in locks[li] && p.0.loc == li.loc && p.1.loc == x && NotAfter(s, p.0, n) && Before(s, n, p.1);
        GrownSeqBefore(s, s', p.0, n);
        GrownSeqBefore(s, s', n, p.1);
        assert p in locks'[li];
      }
    }

    lemma LocksStayDone(locks: LockMap, s: seq<Ev<InstLocTr>>,
                        locks': LockMap, s': seq<Ev<InstLocTr>>, k: nat, n: InstLocTr,
                        hist: set<State<InstLocTr>>, hist': set<State<InstLocTr>>)
      requires LocksDone(locks, s, k, n, hist) && LocksLe(locks, locks') && GrownSeq(s, s') && hist <= hist'
      ensures LocksDone(locks', s', k, n, hist')
    {
      hide GrownSeq, Guards, LockDone, LocksLe;
      forall li, u | li in gs.locks && Guards(li, n.loc, u) ensures LockDone(locks', s', k, n, li, hist') {
        LockStaysDone(locks, s, locks', s', k, n, li, hist, hist');
      }
    }

    lemma AtIsIndex(n: InstLocTr)
      requires n.tr.Valid() && n.tr.Has(n)
      ensures ThreadSpec.Has(n.tr.events, n.loc) && IndexOf(n.tr.events, n.loc) == n.tr.At(n)
    {
      hide Reach;
      var i := n.tr.At(n);
      assert n.tr.events[i].loc == n.loc;
      assert n.tr.events[IndexOf(n.tr.events, n.loc)].loc == n.loc;
    }

    lemma GuardedUnlock(li: LockInfo, loc: Loc, unlock: Loc)
      requires Guards(li, loc, unlock)
      ensures unlock in li.unlocks
    {
      hide Reach;
    }

    /** One lock, with the record that it was tried. */
    method OfferLock(n: InstLocTr, li: LockInfo, unlock: Loc) returns (newLocs: set<InstLocTr>, ghost added: set<Span>)
      requires Valid() && Shape() && Owns(n) && li in gs.locks && Guards(li, n.loc, unlock)
      modifies this`lockMap, n.tr
      ensures Since(old(State()), poc.evec, old(lockMap)) && OwnsAll(newLocs)
      ensures LockDone(lockMap, State()[Of(n.tr)], Of(n.tr), n, li, {old(State())})
      ensures NodesOf(State()) <= NodesOf(old(State())) + newLocs
      ensures OnlyNew(old(lockMap), lockMap, added) && forall p :: p in added ==> Around(n, p)
    {
      hide Reach, WellFormed, GrownSeq, Shape, Sound, Filed, RegionFits, RegionTrace, Guards, NodesOf, Bare;
      GuardedUnlock(li, n.loc, unlock);
      ghost var st, k := State(), Of(n.tr);
      ShapeOf(n);
      AtIsIndex(n);
      var p;
      p, newLocs := TryLock(n, li, unlock);
      added := if p.Some? then {p.value} else {};
      if p.None? {
        assert RefusedAt(g, st, k, n.loc, li.loc, unlock);
      } else {
        assert RecordedAt(lockMap, State()[k], n, li, unlock);
      }
    }

    /** The first `i` locks around `n` have been offered since the schedule was `st0`, with `locks0`. */
    ghost predicate LockPhase(st0: State<InstLocTr>, locks0: LockMap,
                              st: State<InstLocTr>, locks: LockMap, k: nat, n: InstLocTr,
                              lks: seq<(LockInfo, Loc)>, i: nat, newLocs: set<InstLocTr>, added: set<Span>,
                              hist: set<State<InstLocTr>>) {
      && k < |st| && i <= |lks|
      && (forall j :: 0 <= j < i ==> LockDone(locks, st[k], k, n, lks[j].0, hist))
      && OnlyNew(locks0, locks, added)
      && (forall p :: p in added ==> NotAfter(st[k], p.0, n) && Before(st[k], n, p.1))
      && (forall s :: s in hist ==> Grown(st0, s) && Grown(s, st) && |s| == |st|)
      && NodesOf(st) <= NodesOf(st0) + newLocs
    }

    lemma LockPhaseStep(st0: State<InstLocTr>, locks0: LockMap,
                        st: State<InstLocTr>, locks: LockMap,
                        st': State<InstLocTr>, locks': LockMap, k: nat, n: InstLocTr,
                        lks: seq<(LockInfo, Loc)>, i: nat, newLocs: set<InstLocTr>, more: set<InstLocTr>,
                        added: set<Span>, p: set<Span>, hist: set<State<InstLocTr>>)
      requires LockPhase(st0, locks0, st, locks, k, n, lks, i, newLocs, added, hist) && i < |lks|
      requires Grown(st0, st) && Grown(st, st') && |st| == |st'| && LocksLe(locks, locks')
      requires LockDone(locks', st'[k], k, n, lks[i].0, {st})
      requires OnlyNew(locks, locks', p) && forall x :: x in p ==> NotAfter(st'[k], x.0, n) && Before(st'[k], n, x.1)
      requires NodesOf(st') <= NodesOf(st) + more
      ensures LockPhase(st0, locks0, st', locks', k, n, lks, i + 1, newLocs + more, added + p, hist + {st})
    {
      hide GrownSeq, LockDone, NotAfter, Before, NodesOf, LocksLe, OnlyNew;
      forall j | 0 <= j <= i ensures LockDone(locks', st'[k], k, n, lks[j].0, hist + {st}) {
        if j < i {
          LockStaysDone(locks, st[k], locks', st'[k], k, n, lks[j].0, hist, hist + {st});
        } else {
          GrownSeqRefl(st'[k]);
          SameLocks(locks');
          LockStaysDone(locks', st'[k], locks', st'[k], k, n, lks[i].0, {st}, hist + {st});
        }
      }
      OnlyNewTrans(locks0, locks, locks', added, p);
      forall x | x in added ensures NotAfter(st'[k], x.0, n) && Before(st'[k], n, x.1) {
        GrownSeqBefore(st[k], st'[k], x.0, n);
        GrownSeqBefore(st[k], st'[k], n, x.1);
      }
      forall s | s in hist ensures Grown(s, st') {
        GrownTrans(s, st, st');
      }
    }

    lemma LockPhaseEnds(st0: State<InstLocTr>, locks0: LockMap, k: nat, n: InstLocTr,
                        lks: seq<(LockInfo, Loc)>, newLocs: set<InstLocTr>, added: set<Span>,
                        hist: set<State<InstLocTr>>)
      requires LockPhase(st0, locks0, State(), lockMap, k, n, lks, |lks|, newLocs, added, hist)
      requires n.tr in trs && k == Of(n.tr)
      requires forall li, u :: li in gs.locks && Guards(li, n.loc, u) ==> exists i :: 0 <= i < |lks| && lks[i].0 == li
      ensures LocksDone(lockMap, State()[k], k, n, hist) && Moments(st0, hist)
      ensures (forall p :: p in added ==> Around(n, p)) && OnlyNew(locks0, lockMap, added)
              && NodesOf(State()) <= NodesOf(st0) + newLocs
    {
      hide GrownSeq, LockDone, NotAfter, Before, NodesOf, OnlyNew, Guards;
    }

    /** ThreadSched::addLockTrLocs: a region around `n` for each lock that fits its thread. */
    method AddLockTrLocs(n: InstLocTr)
      returns (newLocs: set<InstLocTr>, ghost added: set<Span>, ghost hist: set<State<InstLocTr>>)
      requires Valid() && Shape() && Owns(n)
      modifies this`lockMap, n.tr
      ensures Since(old(State()), old(poc.evec), old(lockMap))
      ensures Owns(n) && OwnsAll(newLocs)
      ensures forall p :: p in added ==> Around(n, p)
      ensures OnlyNew(old(lockMap), lockMap, added)
      ensures Moments(old(State()), hist)
      ensures LocksDone(lockMap, State()[Of(n.tr)], Of(n.tr), n, hist)
      ensures NodesOf(State()) <= NodesOf(old(State())) + newLocs
    {
      hide Reach, WellFormed, GrownSeq, Shape, Sound, Filed, NotAfter, Before, Owns, OwnsAll, OnlyNew, LockDone, Guards,
           NodesOf, LockPhase, LocksDone, Moments;
      NodeIsPlaced(n);
      ghost var k := Of(n.tr);
      newLocs, added, hist := {}, {}, {};
      GrownRefl(State());
      var found := GetLock4Loc(n.loc);
      var lks := PickUnlocks(found);
      LockPhaseStarts(State(), lockMap, k, n, lks);
      for i := 0 to |lks|
        invariant Since(old(State()), old(poc.evec), old(lockMap))
        invariant Owns(n) && OwnsAll(newLocs)
        invariant LockPhase(old(State()), old(lockMap), State(), lockMap, k, n, lks, i, newLocs, added, hist)
      {
        ghost var st, locks := State(), lockMap;
        OwnsAllMore(newLocs, {n});
        OwnsAllAsState(newLocs + {n});
        var more;
        ghost var p;
        more, p := OfferLock(n, lks[i].0, lks[i].1);
        SinceTrans(old(State()), old(poc.evec), old(lockMap), st, poc.evec, locks);
        StillOwnsAll(newLocs + {n}, st);
        OwnsAllMore(newLocs, {n});
        OwnsAllMore(newLocs, more);
        LockPhaseStep(old(State()), old(lockMap), st, locks, State(), lockMap, k, n, lks, i, newLocs, more, added, p,
                      hist);
        newLocs, added, hist := newLocs + more, added + p, hist + {st};
      }
      LockPhaseEnds(old(State()), old(lockMap), k, n, lks, newLocs, added, hist);
    }

    lemma LockPhaseStarts(st: State<InstLocTr>, locks: LockMap, k: nat, n: InstLocTr, lks: seq<(LockInfo, Loc)>)
      requires k < |st|
      ensures LockPhase(st, locks, st, locks, k, n, lks, 0, {}, {}, {})
    {
      hide NodesOf;
      NothingNew(locks);
    }

    /** One check, with the record that it was tried. */
    method OfferCheck(n: InstLocTr, check: Check)
      returns (r: int, newLocs: set<InstLocTr>, ghost clash: Option<Clash>, ghost facts: set<CheckFact>,
               ghost hist: set<State<InstLocTr>>)
      requires Valid() && Shape() && Owns(n) && check in gs.checks(n.loc)
      modifies this`trs, trs, poc
      ensures Since(old(State()), old(poc.evec), lockMap) && trs == old(trs)
      ensures r == 0 || (r == -1 && Clashes(clash))
      ensures r == 0 ==> KillsExact(old(poc.evec), poc.evec, facts)
      ensures r == 0 ==> OwnsAll(newLocs) && NodesOf(State()) <= NodesOf(old(State())) + newLocs
      ensures r == 0 ==> Moments(old(State()), hist) && CheckDone(g, State(), poc.evec, Of(n.tr), n, check, facts, hist)
    {
      hide Reach, WellFormed, GrownSeq, Shape, Sound, Filed, NotAfter, VainAt, NodesOf, KillerSettled, Precedes, Since,
           Adds, KillsExact;
      ghost var st, cs := State(), poc.evec;
      ShapeOf(n);
      AtIsIndex(n);
      GrownRefl(st);
      var chk, kept;
      ghost var dead;
      r, chk, kept, newLocs, dead, hist := TryCheck(n, check);
      clash, facts := None, {};
      if r < 0 {
        clash := Some(Clash(n, chk, dead));
        return;
      }
      if chk == null {
        hist := {st};
        GrownRefl(st);
        NoKills(cs);
      } else {
        facts := {CheckFact(chk, kept)};
        FactHolds(chk, n, check, kept, newLocs, hist);
        FactIsExact(chk, n, check.klocs, kept, newLocs, cs);
      }
    }

    lemma FactHolds(c: InstLocTr, n: InstLocTr, check: Check, kept: set<InstLocTr>, newLocs: set<InstLocTr>,
                    hist: set<State<InstLocTr>>)
      requires Settled(c, n, check.klocs, kept, newLocs) && c.loc == check.cloc && kept != {}
      requires forall j :: 0 <= j < |check.klocs| ==> KillerSettled(g, kept, hist, Of(n.tr), check.cloc, check.klocs[j])
      ensures CheckDone(g, State(), poc.evec, Of(n.tr), n, check, {CheckFact(c, kept)}, hist)
    {
      hide VainAt, KillerSettled, NotAfter;
      forall x | x in kept ensures MarkedIn(State(), x, GSet) {
        MarkedHere(x, GSet);
      }
      assert CheckPlacedAt(g, State(), poc.evec, Of(n.tr), n, check, CheckFact(c, kept), hist);
    }

    lemma FactIsExact(c: InstLocTr, n: InstLocTr, klocs: seq<Loc>, kept: set<InstLocTr>, newLocs: set<InstLocTr>,
                      cs: seq<Clause<InstLocTr>>)
      requires Settled(c, n, klocs, kept, newLocs) && Adds(cs, poc.evec, KillClauses(c, kept))
      ensures KillsExact(cs, poc.evec, {CheckFact(c, kept)})
    {
      hide NotAfter, Owns;
      var f := CheckFact(c, kept);
      forall i | |cs| <= i < |poc.evec|
        ensures exists f :: f in {CheckFact(c, kept)} && poc.evec[i] in KillClauses(f.c, f.kept)
      {
        assert f in {CheckFact(c, kept)};
      }
    }

    /** Every check of `n` has been dealt with. */
    ghost predicate ChecksDone(st: State<InstLocTr>, cs: seq<Clause<InstLocTr>>, k: nat, n: InstLocTr,
                               facts: set<CheckFact>, hist: set<State<InstLocTr>>) {
      forall j :: 0 <= j < |gs.checks(n.loc)| ==> CheckDone(g, st, cs, k, n, gs.checks(n.loc)[j], facts, hist)
    }

    /** ThreadSched::addCondTrLocs: -1 when a killer sits before its check in the same thread. */
    method AddCondTrLocs(n: InstLocTr)
      returns (r: int, newLocs: set<InstLocTr>, ghost clash: Option<Clash>, ghost facts: set<CheckFact>,
               ghost hist: set<State<InstLocTr>>)
      requires Valid() && Shape() && Owns(n)
      modifies this`trs, trs, poc
      ensures Since(old(State()), old(poc.evec), lockMap) && trs == old(trs)
      ensures OwnsAll(newLocs)
      ensures r == 0 || (r == -1 && Clashes(clash))
      ensures r == 0 ==> Moments(old(State()), hist) && ChecksDone(State(), poc.evec, Of(n.tr), n, facts, hist)
      ensures r == 0 ==> KillsExact(old(poc.evec), poc.evec, facts)
      ensures r == 0 ==> NodesOf(State()) <= NodesOf(old(State())) + newLocs
    {
      hide Reach, WellFormed, GrownSeq, Shape, Sound, Filed, NotAfter, Before, Owns, Clashes, OwnsAll, NodesOf,
           CheckDone, CheckPhase, Moments, ChecksDone, KillsExact;
      r, newLocs, clash, facts, hist := 0, {}, None, {}, {};
      NoKills(poc.evec);
      NodeIsPlaced(n);
      ghost var k := Of(n.tr);
      GrownRefl(State());
      var checks := gs.checks(n.loc);
      CheckPhaseStarts(g, State(), poc.evec, k, n, checks);
      for i := 0 to |checks|
        invariant Since(old(State()), old(poc.evec), lockMap) && trs == old(trs)
        invariant Owns(n) && OwnsAll(newLocs) && r == 0
        invariant CheckPhase(g, old(State()), State(), poc.evec, k, n, checks, i, newLocs, facts, hist)
        invariant KillsExact(old(poc.evec), poc.evec, facts)
      {
        ghost var st, cs := State(), poc.evec;
        OwnsAllMore(newLocs, {n});
        OwnsAllAsState(newLocs + {n});
        var more;
        ghost var fs, hs;
        r, more, clash, fs, hs := OfferCheck(n, checks[i]);
        SinceTrans(old(State()), old(poc.evec), lockMap, st, cs, lockMap);
        StillOwnsAll(newLocs + {n}, st);
        OwnsAllMore(newLocs, {n});
        if r < 0 {
          return;
        }
        OwnsAllMore(newLocs, more);
        MomentsMean(st, hs);
        KillsJoin(old(poc.evec), cs, poc.evec, facts, fs);
        CheckPhaseStep(g, old(State()), st, cs, State(), poc.evec, k, n, checks, i, newLocs, more, facts, fs, hist, hs);
        newLocs, facts, hist := newLocs + more, facts + fs, hist + hs;
      }
      CheckPhaseEnds(old(State()), k, n, newLocs, facts, hist);
    }

    lemma MomentsMean(st: State<InstLocTr>, hist: set<State<InstLocTr>>)
      requires Moments(st, hist)
      ensures forall s :: s in hist ==> Grown(st, s) && Grown(s, State()) && |s| == |State()|
    {
      hide GrownSeq;
    }

    lemma CheckPhaseEnds(st0: State<InstLocTr>, k: nat, n: InstLocTr, newLocs: set<InstLocTr>, facts: set<CheckFact>,
                         hist: set<State<InstLocTr>>)
      requires CheckPhase(g, st0, State(), poc.evec, k, n, gs.checks(n.loc), |gs.checks(n.loc)|, newLocs, facts, hist)
      ensures Moments(st0, hist) && ChecksDone(State(), poc.evec, k, n, facts, hist)
              && NodesOf(State()) <= NodesOf(st0) + newLocs
    {
      hide GrownSeq, CheckDone, NodesOf;
    }

    /** Everything a location asks for has been tried: the locks around it and its condition checks. */
    ghost predicate Supplied(st: State<InstLocTr>, cs: seq<Clause<InstLocTr>>, locks: LockMap, k: nat,
                             n: InstLocTr, facts: set<CheckFact>, hist: set<State<InstLocTr>>) {
      k < |st| && LocksDone(locks, st[k], k, n, hist) && ChecksDone(st, cs, k, n, facts, hist)
    }

    lemma StaysSupplied(st: State<InstLocTr>, cs: seq<Clause<InstLocTr>>, locks: LockMap,
                        st': State<InstLocTr>, cs': seq<Clause<InstLocTr>>, locks': LockMap, k: nat,
                        n: InstLocTr, facts: set<CheckFact>, hist: set<State<InstLocTr>>, facts': set<CheckFact>,
                        hist': set<State<InstLocTr>>)
      requires Supplied(st, cs, locks, k, n, facts, hist)
      requires Grown(st, st') && cs <= cs' && LocksLe(locks, locks') && facts <= facts' && hist <= hist'
      ensures Supplied(st', cs', locks', k, n, facts', hist')
    {
      hide GrownSeq, LocksDone, CheckDone, LocksLe;
      LocksStayDone(locks, st[k], locks', st'[k], k, n, hist, hist');
      forall j | 0 <= j < |gs.checks(n.loc)| ensures CheckDone(g, st', cs', k, n, gs.checks(n.loc)[j], facts', hist') {
        CheckStaysDone(g, st, cs, st', cs', k, n, gs.checks(n.loc)[j], facts, hist, facts', hist');
      }
    }

    /** One location of the worklist: its locks, then its condition checks. */
    method SuppOne(n: InstLocTr)
      returns (r: int, newLocs: set<InstLocTr>, ghost clash: Option<Clash>, ghost facts: set<CheckFact>,
               ghost hist: set<State<InstLocTr>>)
      requires Valid() && Shape() && Owns(n)
      modifies this`trs, this`lockMap, trs, poc
      ensures Since(old(State()), old(poc.evec), old(lockMap)) && trs == old(trs)
      ensures OwnsAll(newLocs)
      ensures r == 0 || (r == -1 && Clashes(clash))
      ensures r == 0 ==> Moments(old(State()), hist) && Supplied(State(), poc.evec, lockMap, Of(n.tr), n, facts, hist)
      ensures r == 0 ==> KillsExact(old(poc.evec), poc.evec, facts)
      ensures r == 0 ==> NodesOf(State()) <= NodesOf(old(State())) + newLocs
    {
      hide Reach, WellFormed, GrownSeq, Shape, Sound, Filed, NotAfter, Before, Clashes, LocksDone, ChecksDone, OwnsAll,
           NodesOf, LocksLe, KillsExact;
      ghost var st := State();
      var locks;
      ghost var added, lh;
      locks, added, lh := AddLockTrLocs(n);
      ghost var mid, cs, lm := State(), poc.evec, lockMap;
      OwnsAllAsState(locks);
      var more;
      r, more, clash, facts, hist := AddCondTrLocs(n);
      SinceTrans(st, old(poc.evec), old(lockMap), mid, cs, lm);
      StillOwnsAll(locks, mid);
      OwnsAllMore(locks, more);
      newLocs := locks + more;
      if r == 0 {
        JoinMoments(st, mid, lh, hist);
        SameLocks(lm);
        LocksStayDone(lm, mid[Of(n.tr)], lockMap, State()[Of(n.tr)], Of(n.tr), n, lh, lh + hist);
        GrownRefl(State());
        ChecksStay(State(), poc.evec, Of(n.tr), n, facts, hist, lh + hist);
        hist := lh + hist;
      }
    }

    lemma ChecksStay(st: State<InstLocTr>, cs: seq<Clause<InstLocTr>>, k: nat, n: InstLocTr, facts: set<CheckFact>,
                     hist: set<State<InstLocTr>>, hist': set<State<InstLocTr>>)
      requires ChecksDone(st, cs, k, n, facts, hist) && k < |st| && hist <= hist'
      ensures ChecksDone(st, cs, k, n, facts, hist')
    {
      hide CheckDone, GrownSeq;
      GrownRefl(st);
      forall j | 0 <= j < |gs.checks(n.loc)| ensures CheckDone(g, st, cs, k, n, gs.checks(n.loc)[j], facts, hist') {
        CheckStaysDone(g, st, cs, st, cs, k, n, gs.checks(n.loc)[j], facts, hist, facts, hist');
      }
    }

    lemma JoinMoments(st: State<InstLocTr>, mid: State<InstLocTr>, a: set<State<InstLocTr>>, b: set<State<InstLocTr>>)
      requires forall s :: s in a ==> Grown(st, s) && Grown(s, mid) && |s| == |trs|
      requires Moments(mid, b) && Grown(st, mid) && Grown(mid, State()) && |mid| == |trs|
      ensures Moments(st, a + b)
    {
      hide GrownSeq;
      forall s | s in a ensures Grown(s, State()) {
        GrownTrans(s, mid, State());
      }
      forall s | s in b ensures Grown(st, s) {
        GrownTrans(st, mid, s);
      }
    }

    /** Every one of `done` has been supplied since the schedule was `st0`. */
    ghost predicate SuppPhase(st0: State<InstLocTr>, st: State<InstLocTr>, cs: seq<Clause<InstLocTr>>,
                              locks: LockMap, done: set<InstLocTr>, newLocs: set<InstLocTr>,
                              facts: set<CheckFact>, hist: set<State<InstLocTr>>)
      reads `trs
    {
      && (forall n :: n in done ==> n.tr in trs && Supplied(st, cs, locks, Of(n.tr), n, facts, hist))
      && (forall s :: s in hist ==> Grown(st0, s) && Grown(s, st) && |s| == |st|)
      && NodesOf(st) <= NodesOf(st0) + newLocs
    }

    lemma SuppPhaseJoin(st0: State<InstLocTr>, st: State<InstLocTr>, cs: seq<Clause<InstLocTr>>, locks: LockMap,
                        st': State<InstLocTr>, cs': seq<Clause<InstLocTr>>, locks': LockMap,
                        a: set<InstLocTr>, b: set<InstLocTr>, newLocs: set<InstLocTr>, more: set<InstLocTr>,
                        fa: set<CheckFact>, fb: set<CheckFact>, ha: set<State<InstLocTr>>, hb: set<State<InstLocTr>>)
      requires SuppPhase(st0, st, cs, locks, a, newLocs, fa, ha) && SuppPhase(st, st', cs', locks', b, more, fb, hb)
      requires Grown(st0, st) && Grown(st, st') && |st| == |st'| && cs <= cs' && LocksLe(locks, locks')
      ensures SuppPhase(st0, st', cs', locks', a + b, newLocs + more, fa + fb, ha + hb)
    {
      hide GrownSeq, Supplied, LocksLe, NodesOf;
      forall n | n in a ensures Supplied(st', cs', locks', Of(n.tr), n, fa + fb, ha + hb) {
        StaysSupplied(st, cs, locks, st', cs', locks', Of(n.tr), n, fa, ha, fa + fb, ha + hb);
      }
      GrownRefl(st');
      SameLocks(locks');
      forall n | n in b ensures Supplied(st', cs', locks', Of(n.tr), n, fa + fb, ha + hb) {
        StaysSupplied(st', cs', locks', st', cs', locks', Of(n.tr), n, fb, hb, fa + fb, ha + hb);
      }
      forall s | s in ha ensures Grown(s, st') {
        GrownTrans(s, st, st');
      }
      forall s | s in hb ensures Grown(st0, s) {
        GrownTrans(st0, st, s);
      }
    }

    lemma NothingSupplied(st: State<InstLocTr>, cs: seq<Clause<InstLocTr>>, locks: LockMap)
      ensures SuppPhase(st, st, cs, locks, {}, {}, {}, {})
    {
      hide NodesOf;
    }

    lemma OneSupplied(st: State<InstLocTr>, n: InstLocTr, newLocs: set<InstLocTr>, facts: set<CheckFact>,
                      hist: set<State<InstLocTr>>)
      requires n.tr in trs && Supplied(State(), poc.evec, lockMap, Of(n.tr), n, facts, hist)
      requires Moments(st, hist) && NodesOf(State()) <= NodesOf(st) + newLocs
      ensures SuppPhase(st, State(), poc.evec, lockMap, {n}, newLocs, facts, hist)
    {
      hide Supplied, GrownSeq, NodesOf;
    }

    /** One round of the worklist. */
    method SuppRound(currLocs: set<InstLocTr>)
      returns (r: int, newLocs: set<InstLocTr>, ghost clash: Option<Clash>, ghost facts: set<CheckFact>,
               ghost hist: set<State<InstLocTr>>)
      requires Valid() && Shape() && OwnsAll(currLocs)
      modifies this`trs, this`lockMap, trs, poc
      ensures Since(old(State()), old(poc.evec), old(lockMap)) && trs == old(trs)
      ensures OwnsAll(newLocs)
      ensures r == 0 || (r == -1 && Clashes(clash))
      ensures r == 0 ==> SuppPhase(old(State()), State(), poc.evec, lockMap, currLocs, newLocs, facts, hist)
      ensures r == 0 ==> KillsExact(old(poc.evec), poc.evec, facts)
    {
      hide Reach, WellFormed, GrownSeq, Shape, Sound, Filed, NotAfter, Before, Owns, OwnsAll, Clashes, Supplied,
           SuppPhase, NodesOf, Moments, KillsExact;
      NoKills(poc.evec);
      GrownRefl(State());
      NothingSupplied(State(), poc.evec, lockMap);
      r, newLocs, clash, facts, hist := 0, {}, None, {}, {};
      NothingOwned();
      var todo := currLocs;
      assert currLocs - todo == {};
      while todo != {}
        invariant todo <= currLocs && Since(old(State()), old(poc.evec), old(lockMap)) && trs == old(trs)
        invariant OwnsAll(todo) && OwnsAll(newLocs) && r == 0
        invariant SuppPhase(old(State()), State(), poc.evec, lockMap, currLocs - todo, newLocs, facts, hist)
        invariant KillsExact(old(poc.evec), poc.evec, facts)
        decreases todo
      {
        var n :| n in todo;
        ghost var st, cs, lm, done := State(), poc.evec, lockMap, currLocs - todo;
        OwnsAllMore(todo, newLocs);
        OwnsAllAsState(todo + newLocs);
        var more;
        ghost var fs, hs;
        r, more, clash, fs, hs := SuppOne(n);
        SinceTrans(old(State()), old(poc.evec), old(lockMap), st, cs, lm);
        StillOwnsAll(todo + newLocs, st);
        OwnsAllMore(todo, newLocs);
        if r < 0 {
          return;
        }
        OneSupplied(st, n, more, fs, hs);
        KillsJoin(old(poc.evec), cs, poc.evec, facts, fs);
        SuppPhaseJoin(old(State()), st, cs, lm, State(), poc.evec, lockMap, done, {n}, newLocs, more, facts, fs, hist,
                      hs);
        OwnsAllMore(newLocs, more);
        OwnsAllLess(todo, n);
        OneMoreDone(currLocs, todo, n);
        todo := todo - {n};
        newLocs, facts, hist := newLocs + more, facts + fs, hist + hs;
      }
      assert currLocs - todo == currLocs;
    }

    lemma OwnsAllLess(a: set<InstLocTr>, n: InstLocTr)
      requires OwnsAll(a)
      ensures OwnsAll(a - {n}) && (n in a ==> Owns(n) && n.tr in trs)
    {
      hide WellFormed;
    }

    lemma NothingOwned()
      ensures OwnsAll({})
    {
    }

    /** Every node of every thread. */
    method AllNodes() returns (s: set<InstLocTr>)
      requires Shape()
      ensures OwnsAll(s)
      ensures forall t, i :: 0 <= t < |trs| && 0 <= i < |trs[t].events| ==> trs[t].events[i].node in s
    {
      hide Reach, WellFormed;
      s := {};
      for t := 0 to |trs|
        invariant OwnsAll(s)
        invariant forall u, i :: 0 <= u < t && 0 <= i < |trs[u].events| ==> trs[u].events[i].node in s
      {
        for i := 0 to |trs[t].events|
          invariant OwnsAll(s)
          invariant forall u, k :: 0 <= u < t && 0 <= k < |trs[u].events| ==> trs[u].events[k].node in s
          invariant forall k :: 0 <= k < i ==> trs[t].events[k].node in s
        {
          assert trs[t].events[i].node.tr == trs[t];
          s := s + {trs[t].events[i].node};
        }
      }
    }

    const MAX_SUPP_LOC_ADD_ITERATION := 3
    const MAX_SUPP_LOC_ADD_NUM := 32

    /** The worklist of addSuppTrLocs, cut off after three rounds or 32 locations.  All nodes there are
        at the start are supplied; all nodes there are at the end, unless a limit was hit. */
    method SuppWorklist()
      returns (r: int, ghost clash: Option<Clash>, ghost done: set<InstLocTr>, ghost made: set<InstLocTr>,
               ghost facts: set<CheckFact>, ghost hist: set<State<InstLocTr>>, ghost rounds: seq<set<InstLocTr>>)
      requires Valid() && Shape()
      modifies this`trs, this`lockMap, trs, poc
      ensures Since(old(State()), old(poc.evec), old(lockMap)) && trs == old(trs)
      ensures r == 0 || (r == -1 && Clashes(clash))
      ensures r == 0 ==> SuppPhase(old(State()), State(), poc.evec, lockMap, done, made, facts, hist)
      ensures r == 0 ==> KillsExact(old(poc.evec), poc.evec, facts)
      ensures r == 0 ==> NodesOf(old(State())) <= done && done == Union(rounds)
      ensures r == 0 ==>
              || NodesOf(State()) <= done
              || |rounds| == MAX_SUPP_LOC_ADD_ITERATION || Total(rounds) >= MAX_SUPP_LOC_ADD_NUM
      // no round begins once a limit is reached
      ensures r == 0 ==> |rounds| <= MAX_SUPP_LOC_ADD_ITERATION && TotalBefore(rounds) < MAX_SUPP_LOC_ADD_NUM
    {
      hide Reach, WellFormed, GrownSeq, Shape, Sound, Filed, NotAfter, Before, Owns, OwnsAll, Clashes, Supplied,
           SuppPhase, NodesOf, KillsExact;
      GrownRefl(State());
      NothingSupplied(State(), poc.evec, lockMap);
      NoKills(poc.evec);
      r, clash, done, made, facts, hist, rounds := 0, None, {}, {}, {}, {}, [];
      var currLocs := AllNodes();
      AllAreNodes(currLocs);
      var nIter, nLocs := 0, 0;
      while currLocs != {} && nIter < MAX_SUPP_LOC_ADD_ITERATION
        invariant 0 <= nIter <= MAX_SUPP_LOC_ADD_ITERATION
        invariant Since(old(State()), old(poc.evec), old(lockMap)) && trs == old(trs)
        invariant OwnsAll(currLocs) && r == 0
        invariant |rounds| == nIter && done == Union(rounds) && nLocs == Total(rounds)
        invariant nLocs < MAX_SUPP_LOC_ADD_NUM && TotalBefore(rounds) < MAX_SUPP_LOC_ADD_NUM
        invariant SuppPhase(old(State()), State(), poc.evec, lockMap, done, made, facts, hist)
        invariant KillsExact(old(poc.evec), poc.evec, facts)
        invariant NodesOf(old(State())) <= done + (if nIter == 0 then currLocs else {})
                  && NodesOf(State()) <= done + currLocs
        decreases MAX_SUPP_LOC_ADD_ITERATION - nIter
      {
        nLocs := nLocs + |currLocs|;
        ghost var st, cs, lm, was := State(), poc.evec, lockMap, currLocs;
        var newLocs;
        ghost var fs, hs;
        r, newLocs, clash, fs, hs := SuppRound(currLocs);
        SinceTrans(old(State()), old(poc.evec), old(lockMap), st, cs, lm);
        if r < 0 {
          return;
        }
        SuppPhaseJoin(old(State()), st, cs, lm, State(), poc.evec, lockMap, done, currLocs, made, newLocs, facts, fs,
                      hist, hs);
        KillsJoin(old(poc.evec), cs, poc.evec, facts, fs);
        RoundNodes(st, newLocs, done, currLocs, fs, hs);
        OneMoreRound(rounds, was);
        done, made, facts, hist, rounds := done + was, made + newLocs, facts + fs, hist + hs, rounds + [was];
        nIter := nIter + 1;
        if nLocs >= MAX_SUPP_LOC_ADD_NUM {
          return;
        }
        currLocs := newLocs;
      }
    }

    lemma RoundNodes(st: State<InstLocTr>, newLocs: set<InstLocTr>, done: set<InstLocTr>, currLocs: set<InstLocTr>,
                     facts: set<CheckFact>, hist: set<State<InstLocTr>>)
      requires SuppPhase(st, State(), poc.evec, lockMap, currLocs, newLocs, facts, hist)
               && NodesOf(st) <= done + currLocs
      ensures NodesOf(State()) <= done + currLocs + newLocs
    {
      hide NodesOf, Supplied, GrownSeq;
    }

    lemma AllAreNodes(s: set<InstLocTr>)
      requires forall t, i :: 0 <= t < |trs| && 0 <= i < |trs[t].events| ==> trs[t].events[i].node in s
      ensures NodesOf(State()) <= s
    {
    }

    // ---- mutual exclusion --------------------------------------------------------------------

    ghost predicate Equivalence(keys: set<LockInfo>) {
      && (forall a :: a in keys ==> gs.sameLockObjs(a, a))
      && (forall a, b :: a in keys && b in keys && gs.sameLockObjs(a, b) ==> gs.sameLockObjs(b, a))
      && (forall a, b, c :: (a in keys && b in keys && c in keys
                             && gs.sameLockObjs(a, b) && gs.sameLockObjs(b, c)) ==> gs.sameLockObjs(a, c))
    }

    /** Members of one cluster are the same lock, members of different clusters are not. */
    ghost predicate Exact(cl: seq<set<LockInfo>>) {
      && (forall i, a, b :: 0 <= i < |cl| && a in cl[i] && b in cl[i] ==> gs.sameLockObjs(a, b))
      && (forall i, j, a, b :: 0 <= i < |cl| && 0 <= j < |cl| && i != j && a in cl[i] && b in cl[j] ==>
          !gs.sameLockObjs(a, b))
    }

    /** The first cluster with a member that is the same lock as `li`, or one past the last. */
    method FindCluster(cl: seq<set<LockInfo>>, li: LockInfo) returns (i: nat)
      ensures i <= |cl|
      ensures i < |cl| ==> exists m :: m in cl[i] && gs.sameLockObjs(li, m)
      ensures forall j, m :: 0 <= j < i && m in cl[j] ==> !gs.sameLockObjs(li, m)
    {
      i := 0;
      while i < |cl|
        invariant 0 <= i <= |cl|
        invariant forall j, m :: 0 <= j < i && m in cl[j] ==> !gs.sameLockObjs(li, m)
      {
        var rest := cl[i];
        while rest != {}
          invariant rest <= cl[i]
          invariant forall m :: m in cl[i] - rest ==> !gs.sameLockObjs(li, m)
          decreases rest
        {
          var li2 :| li2 in rest;
          if gs.sameLockObjs(li, li2) {
            return i;
          }
          rest := rest - {li2};
        }
        i := i + 1;
      }
    }

    lemma ClusterJoin(cl: seq<set<LockInfo>>, done: set<LockInfo>, i: nat, li: LockInfo)
      requires Equivalence(done + {li}) && Partition(cl, done) && Exact(cl) && i < |cl|
      requires exists m :: m in cl[i] && gs.sameLockObjs(li, m)
      ensures Exact(cl[i := cl[i] + {li}])
    {
      var m :| m in cl[i] && gs.sameLockObjs(li, m);
      var r := cl[i := cl[i] + {li}];
      forall k, a, b | 0 <= k < |r| && a in r[k] && b in r[k] ensures gs.sameLockObjs(a, b) {
        if k == i {
          assert gs.sameLockObjs(a, m) && gs.sameLockObjs(m, b);
        }
      }
      forall k, j, a, b | 0 <= k < |r| && 0 <= j < |r| && k != j && a in r[k] && b in r[j]
        ensures !gs.sameLockObjs(a, b)
      {
        if k == i && a == li {
          assert gs.sameLockObjs(a, b) ==> gs.sameLockObjs(m, b);
        } else if j == i && b == li {
          assert gs.sameLockObjs(a, b) ==> gs.sameLockObjs(a, m);
        }
      }
    }

    lemma ClusterNew(cl: seq<set<LockInfo>>, done: set<LockInfo>, li: LockInfo)
      requires Equivalence(done + {li}) && Partition(cl, done) && Exact(cl)
      requires forall j, m :: 0 <= j < |cl| && m in cl[j] ==> !gs.sameLockObjs(li, m)
      ensures Exact(cl + [{li}])
    {
    }

    /** Conversely only an equivalence can have exact clusters. */
    lemma ExactMeansEquivalence(cl: seq<set<LockInfo>>, keys: set<LockInfo>)
      requires Partition(cl, keys) && Exact(cl)
      ensures Equivalence(keys)
    {
      forall a, b | a in keys && b in keys
        ensures gs.sameLockObjs(a, b) <==> exists i :: 0 <= i < |cl| && a in cl[i] && b in cl[i]
      {
        var i :| 0 <= i < |cl| && a in cl[i];
        var j :| 0 <= j < |cl| && b in cl[j];
      }
    }

    lemma EmptyClusters()
      ensures Partition([], {}) && Exact([])
    {
    }

    /** The clusters of addSuppTrLocs.  They are always a partition; they are exactly the classes of
        the same-lock relation if and only if that is an equivalence. */
    method ClusterLocks(keys: set<LockInfo>) returns (cl: seq<set<LockInfo>>)
      ensures Partition(cl, keys)
      ensures Equivalence(keys) <==> Exact(cl)
    {
      hide Partition, Exact;
      cl := [];
      EmptyClusters();
      var todo := keys;
      assert keys - todo == {};
      while todo != {}
        invariant todo <= keys
        invariant Partition(cl, keys - todo)
        invariant Equivalence(keys) ==> Exact(cl)
        decreases todo
      {
        var li :| li in todo;
        ghost var done := keys - todo;
        var i := FindCluster(cl, li);
        if i < |cl| {
          if Equivalence(keys) {
            ClusterJoin(cl, done, i, li);
          }
          PartitionJoin(cl, done, i, li);
          cl := cl[i := cl[i] + {li}];
        } else {
          if Equivalence(keys) {
            ClusterNew(cl, done, li);
          }
          PartitionNew(cl, done, li);
          cl := cl + [{li}];
        }
        todo := todo - {li};
        assert keys - todo == done + {li};
      }
      assert keys - todo == keys;
      if Exact(cl) {
        ExactMeansEquivalence(cl, keys);
      }
    }

    /** Two regions of one cluster, as far as the code tells them apart, are recorded as exclusive. */
    ghost predicate Excluded(p: Span, q: Span)
      reads poc
    {
      p.0 == q.0 || p.1 == q.1 || ExclusionClause(p, q) in poc.evec
    }

    ghost predicate RegionsIn(pairs: set<Span>)
      reads this, trs
    {
      forall p :: p in pairs ==> RegionIn(State(), p)
    }

    /** Record the exclusion of one pair of regions. */
    method Exclude(p: Span, q: Span)
      requires Valid() && Shape() && RegionIn(State(), p) && RegionIn(State(), q)
      modifies poc
      ensures Valid() && Shape() && State() == old(State())
      ensures poc.evec == old(poc.evec) + if p.0 != q.0 && p.1 != q.1 then [ExclusionClause(p, q)] else []
    {
      hide Sound, Filed, WellFormed;
      if p.0 != q.0 && p.1 != q.1 {
        ghost var cs := poc.evec;
        NodesSeparate();
        ExclusionIsNeverEmpty(State(), p, q);
        ExclusionIsSound(State(), cs, lockMap, p, q);
        var r := poc.AddConstraintOr([Some(p.1), Some(q.0), Some(q.1), Some(p.0)]);
        assert poc.evec[|cs|] == ExclusionClause(p, q);
      }
    }

    lemma StillExcluded(p: Span, q: Span, cs: seq<Clause<InstLocTr>>)
      requires cs <= poc.evec
      ensures ExclusionClause(p, q) in cs ==> ExclusionClause(p, q) in poc.evec
    {
      assert forall x :: x in cs ==> x in poc.evec;
    }

    /** The inner loop: `p` against every region of its cluster. */
    method ExcludeFrom(p: Span, pairs: set<Span>)
      requires Valid() && Shape() && RegionsIn(pairs) && p in pairs
      modifies poc
      ensures Valid() && Shape() && State() == old(State())
      ensures Adds(old(poc.evec), poc.evec, ExclusionClauses(pairs))
      ensures forall q :: q in pairs ==> Excluded(p, q)
    {
      hide Sound, Filed, Shape, ExclusionClause;
      var rest := pairs;
      while rest != {}
        invariant rest <= pairs && Valid() && Shape() && State() == old(State())
        invariant Adds(old(poc.evec), poc.evec, ExclusionClauses(pairs))
        invariant forall q :: q in pairs - rest ==> Excluded(p, q)
        decreases rest
      {
        var q :| q in rest;
        ghost var cs := poc.evec;
        Exclude(p, q);
        assert p.0 != q.0 && p.1 != q.1 ==> poc.evec[|cs|] == ExclusionClause(p, q);
        forall x | x in pairs - rest ensures Excluded(p, x) {
          StillExcluded(p, x, cs);
        }
        rest := rest - {q};
      }
    }

    /** The two nested loops over the regions of one cluster. */
    method ExcludeAll(pairs: set<Span>)
      requires Valid() && Shape() && RegionsIn(pairs)
      modifies poc
      ensures Valid() && Shape() && State() == old(State())
      ensures Adds(old(poc.evec), poc.evec, ExclusionClauses(pairs))
      ensures forall p, q :: p in pairs && q in pairs ==> Excluded(p, q)
    {
      hide Sound, Filed, Shape, ExclusionClause, ExclusionClauses;
      AddsNothing(poc.evec, ExclusionClauses(pairs));
      var todo := pairs;
      while todo != {}
        invariant todo <= pairs && Valid() && Shape() && State() == old(State())
        invariant Adds(old(poc.evec), poc.evec, ExclusionClauses(pairs))
        invariant forall p, q :: p in pairs - todo && q in pairs ==> Excluded(p, q)
        decreases todo
      {
        var p :| p in todo;
        ghost var cs := poc.evec;
        ExcludeFrom(p, pairs);
        AddsTrans(old(poc.evec), cs, poc.evec, ExclusionClauses(pairs), ExclusionClauses(pairs),
                  ExclusionClauses(pairs));
        forall x, q | x in pairs - todo && q in pairs ensures Excluded(x, q) {
          StillExcluded(x, q, cs);
        }
        todo := todo - {p};
      }
    }

    /** The regions of the locks in one cluster. */
    method RegionsOf(cluster: set<LockInfo>) returns (pairs: set<Span>)
      requires Valid() && Shape() && cluster <= lockMap.Keys
      ensures pairs == Regions(cluster, lockMap)
      ensures RegionsIn(pairs)
    {
      hide Shape, RegionIn;
      pairs := set l, p | l in cluster && p in lockMap[l] :: p;
    }

    /** One cluster. */
    method ExcludeCluster(cluster: set<LockInfo>)
      requires Valid() && Shape() && cluster <= lockMap.Keys
      modifies poc
      ensures Valid() && Shape() && State() == old(State())
      ensures Adds(old(poc.evec), poc.evec, ExclusionClauses(Regions(cluster, lockMap)))
      ensures ClusterExcluded(cluster, lockMap, poc.evec)
    {
      hide Sound, Filed, Shape, ExclusionClause, RegionsIn, ExclusionClauses, Adds;
      var pairs := RegionsOf(cluster);
      ExcludeAll(pairs);
      forall l, m, p, q | l in cluster && m in cluster && p in lockMap[l] && q in lockMap[m]
        ensures p.0 == q.0 || p.1 == q.1 || ExclusionClause(p, q) in poc.evec
      {
        assert p in pairs && q in pairs;
        assert Excluded(p, q);
      }
    }

    /** The second half of addSuppTrLocs: group the locks and keep the regions of a group apart. */
    method ExcludeClusters() returns (cl: seq<set<LockInfo>>)
      requires Valid() && Shape()
      modifies poc
      ensures Valid() && Shape() && State() == old(State())
      ensures Adds(old(poc.evec), poc.evec, ClusterClauses(cl, lockMap))
      ensures Partition(cl, lockMap.Keys)
      ensures Equivalence(lockMap.Keys) <==> Exact(cl)
      ensures forall i :: 0 <= i < |cl| ==> ClusterExcluded(cl[i], lockMap, poc.evec)
    {
      hide Sound, Filed, Shape, Exact, Equivalence, ClusterExcluded, ClusterClauses, ExclusionClauses, Regions;
      cl := ClusterLocks(lockMap.Keys);
      AddsNothing(poc.evec, ClusterClauses(cl, lockMap));
      for i := 0 to |cl|
        invariant Valid() && Shape() && State() == old(State())
        invariant Adds(old(poc.evec), poc.evec, ClusterClauses(cl, lockMap))
        invariant forall j :: 0 <= j < i ==> ClusterExcluded(cl[j], lockMap, poc.evec)
      {
        ghost var cs := poc.evec;
        ExcludeCluster(cl[i]);
        OneOfClusters(cl, lockMap, i);
        AddsTrans(old(poc.evec), cs, poc.evec, ClusterClauses(cl, lockMap), ExclusionClauses(Regions(cl[i], lockMap)),
                  ClusterClauses(cl, lockMap));
        forall j | 0 <= j < i ensures ClusterExcluded(cl[j], lockMap, poc.evec) {
          StillClusterExcluded(cl[j], lockMap, cs, poc.evec);
        }
      }
    }

    // ---- the order inside each thread --------------------------------------------------------

    /** The inner loop of addSeqConstraint. */
    method OrderThread(t: Thread)
      requires Valid() && Shape() && t in trs
      modifies poc
      ensures Valid() && Shape() && State() == old(State())
      ensures Adds(old(poc.evec), poc.evec, ThreadClauses(t.events))
      ensures ThreadOrdered(t.events, poc.evec)
    {
      hide Sound, Filed, Shape, WellFormed, OrderedTo, ThreadClauses, Adds, ThreadOrdered;
      AddsNothing(poc.evec, ThreadClauses(t.events));
      ShapeOfThread(t);
      OrderedToEnds(t.events, poc.evec);
      for i := 0 to if |t.events| == 0 then 0 else |t.events| - 1
        invariant Valid() && Shape() && State() == old(State())
        invariant Adds(old(poc.evec), poc.evec, ThreadClauses(t.events))
        invariant OrderedTo(t.events, poc.evec, i)
      {
        ghost var cs := poc.evec;
        assert t.Has(t.events[i].node) && t.Has(t.events[i + 1].node);
        Order(t.events[i].node, t.events[i + 1].node);
        OrderedToNext(t.events, cs, poc.evec, i);
        AddsTrans(old(poc.evec), cs, poc.evec, ThreadClauses(t.events), ThreadClauses(t.events),
                  ThreadClauses(t.events));
      }
      OrderedToEnds(t.events, poc.evec);
    }

    lemma ShapeOfThread(t: Thread)
      requires Shape() && t in trs
      ensures forall i :: 0 <= i < |t.events| ==> t.events[i].node.tr == t
    {
      hide WellFormed;
    }

    /** ThreadSched::addSeqConstraint: afterwards every solution follows every thread. */
    method AddSeqConstraint()
      requires Valid() && Shape()
      modifies poc
      ensures Valid() && Shape() && State() == old(State())
      ensures Adds(old(poc.evec), poc.evec, SeqClauses(State()))
      ensures SchedSpec.Ordered(State(), poc.evec)
    {
      hide Sound, Filed, Shape, ThreadOrdered, Unique, SeqClauses, ThreadClauses;
      AddsNothing(poc.evec, SeqClauses(State()));
      for t := 0 to |trs|
        invariant Valid() && Shape() && State() == old(State())
        invariant Adds(old(poc.evec), poc.evec, SeqClauses(State()))
        invariant forall u :: 0 <= u < t ==> ThreadOrdered(State()[u], poc.evec)
      {
        ghost var cs := poc.evec;
        OrderThread(trs[t]);
        OneOfThreads(State(), t);
        assert State()[t] == trs[t].events;
        AddsTrans(old(poc.evec), cs, poc.evec, SeqClauses(State()), ThreadClauses(State()[t]), SeqClauses(State()));
        forall u | 0 <= u < t ensures ThreadOrdered(State()[u], poc.evec) {
          ThreadOrderedStays(State()[u], cs, poc.evec);
        }
      }
      NodesSeparate();
    }

    // ---- the skeleton of the bug -------------------------------------------------------------

    /** The second location goes right behind the first one, or is refused. */
    method SecondInThread(t: Thread, l0: InstLocTr, loc1: Loc, ty1: EvTy) returns (l1: InstLocTr?, ec: int)
      requires t.Valid() && |t.events| == 1 && t.events[0].node == l0 && t.events[0].ty != {}
      requires Reach(t.g, l0.loc, loc1, {})
      modifies t
      ensures t.Valid()
      ensures ec == 1 <==> l0.loc != loc1 && !Reach(t.g, loc1, l0.loc, {})
      ensures ec == 1 ==>
                && l1 != null && fresh(l1) && l1.tr == t && l1.loc == loc1
                && t.events == [old(t.events[0]), Single(l1, loc1, ty1)]
    {
      hide Reach, WellFormed;
      ghost var s, q := t.events, t.Asked(loc1, {ty1}, true, false, null, null);
      assert s[0].loc == l0.loc;
      l1, ec := t.InsertLoc(loc1, {ty1}, true, false, null, null, false);
      if l0.loc == loc1 {
        assert ThreadSpec.Has(s, loc1);
      } else {
        assert !ThreadSpec.Has(s, loc1);
        assert Slot(t.g, s, loc1, 0, 1) == if Reach(t.g, loc1, s[0].loc, {}) then 0 else 1;
      }
    }

    /** Threads were appended and nothing else happened. */
    lemma Appended(st: State<InstLocTr>)
      requires Typed(st) && |st| <= |trs|
      requires forall i :: 0 <= i < |st| ==> State()[i] == st[i]
      requires forall i :: |st| <= i < |trs| ==> TypedSeq(State()[i])
      ensures Grown(st, State()) && Typed(State())
    {
      GrownRefl(st);
    }

    /** Both locations in one new thread, if the second one fits right behind the first. */
    method OneThread(loc0: Loc, ty0: EvTy, loc1: Loc, ty1: EvTy) returns (l0: InstLocTr, l1: InstLocTr?, ec: int)
      requires Shape() && Typed(State()) && Reach(g, loc0, loc1, {})
      modifies this`trs
      ensures forall t :: t in trs ==> t in old(trs) || fresh(t)
      ensures Shape() && Typed(State()) && Grown(old(State()), State())
      ensures ec == 1 <==> loc0 != loc1 && !Reach(g, loc1, loc0, {})
      ensures ec != 1 ==> trs == old(trs) && State() == old(State())
      ensures ec == 1 ==>
                && l1 != null && Owns(l0) && Owns(l1) && l0.loc == loc0 && l1.loc == loc1 && l0.tr == l1.tr && l0 != l1
                && State() == old(State()) + [[Single(l0, loc0, ty0), Single(l1, loc1, ty1)]]
    {
      hide Reach, WellFormed, GrownSeq;
      ghost var st := State();
      GrownRefl(st);
      var tr0;
      l0, tr0 := NewThread(loc0, ty0);
      l1, ec := SecondInThread(tr0, l0, loc1, ty1);
      if ec == 1 {
        PushThread(tr0);
        assert tr0.events[0].node == l0 && tr0.events[1].node == l1;
        assert State()[|st|] == tr0.events;
        Appended(st);
      }
    }

    /** Each location in a new thread of its own. */
    method TwoThreads(loc0: Loc, ty0: EvTy, loc1: Loc, ty1: EvTy) returns (l0: InstLocTr, l1: InstLocTr)
      requires Shape() && Typed(State())
      modifies this`trs
      ensures forall t :: t in trs ==> t in old(trs) || fresh(t)
      ensures Shape() && Typed(State()) && Grown(old(State()), State())
      ensures Owns(l0) && Owns(l1) && l0.loc == loc0 && l1.loc == loc1 && l0.tr != l1.tr && l0 != l1
      ensures State() == old(State()) + [[Single(l0, loc0, ty0)], [Single(l1, loc1, ty1)]]
    {
      hide Reach, WellFormed, GrownSeq;
      ghost var st := State();
      var tr0, tr1;
      l0, tr0 := InitThread(loc0, ty0);
      ghost var mid := State();
      l1, tr1 := InitThread(loc1, ty1);
      GrownTrans(st, mid, State());
      assert tr0.events == mid[|st|] == State()[|st|];
    }

    /** ThreadSched::initUAFThreads: one thread when the first location reaches the second, two
        otherwise; refused when the two are in a loop with each other. */
    method InitUAFThreads(loc0: Loc, ty0: EvTy, loc1: Loc, ty1: EvTy)
      returns (r: int, l0: InstLocTr, l1: InstLocTr?)
      requires Valid() && Shape()
      modifies this`trs, poc
      ensures forall t :: t in trs ==> t in old(trs) || fresh(t)
      ensures Since(old(State()), old(poc.evec), lockMap)
      ensures r == if Reach(g, loc0, loc1, {}) && (loc0 == loc1 || Reach(g, loc1, loc0, {})) then -1 else 0
      ensures r == -1 ==> trs == old(trs) && State() == old(State()) && poc.evec == old(poc.evec)
      ensures r == 0 ==>
                && l1 != null && Owns(l0) && Owns(l1) && l0.loc == loc0 && l1.loc == loc1
                && (l0.tr == l1.tr <==> Reach(g, loc0, loc1, {}))
                && l0 != l1 && poc.evec == old(poc.evec) + [[(l0, l1)]]
                && State() == old(State()) + if Reach(g, loc0, loc1, {})
                   then [[Single(l0, loc0, ty0), Single(l1, loc1, ty1)]]
                                             else [[Single(l0, loc0, ty0)], [Single(l1, loc1, ty1)]]
    {
      hide Reach, WellFormed, GrownSeq, Sound, Filed, Shape, Typed;
      ghost var st, cs := State(), poc.evec;
      SoundIsTyped(st, cs, lockMap);
      if Reach(g, loc0, loc1, {}) {
        var ec;
        l0, l1, ec := OneThread(loc0, ty0, loc1, ty1);
        if ec != 1 {
          GrownSound(st, State(), cs, lockMap);
          return -1, l0, l1;
        }
      } else {
        l0, l1 := TwoThreads(loc0, ty0, loc1, ty1);
      }
      GrownSound(st, State(), cs, lockMap);
      Order(l0, l1);
      r := 0;
    }

    // ---- escape and fetch paths --------------------------------------------------------------

    lemma StillNotAfterAt(k: nat, tr: Thread, a: InstLocTr, b: InstLocTr, st: State<InstLocTr>)
      requires k < |st| && k < |trs| && trs[k] == tr && NotAfter(st[k], a, b)
      requires Grown(st, State())
      ensures NotAfter(tr.events, a, b) && tr.Has(a) && tr.Has(b)
    {
      GrownSeqBefore(st[k], State()[k], a, b);
      NotAfterHolds(State()[k], a, b);
    }

    /** No thread of `st` before the one at `m`, leaving out the one at `but`, takes the location. */
    ghost predicate NoneTakes(st: State<InstLocTr>, m: nat, but: nat, loc: Loc, ty: EvTy) {
      forall k :: 0 <= k < m && k < |st| && k != but ==> !Accepted(InsertCode(g, st[k], Anywhere(loc, ty, false)))
    }

    /** The thread of `n` takes the location, not behind `n`. */
    ghost predicate Takes(n: InstLocTr, loc: Loc, ty: EvTy)
      requires n.tr.Has(n)
      reads n.tr
    {
      Accepted(InsertCode(g, n.tr.events, n.tr.Asked(loc, {ty}, true, false, n, null)))
    }

    /** Which is to say that the location has a place at or before `n`, */
    lemma TakesMeans(n: InstLocTr, loc: Loc, ty: EvTy)
      requires Shape() && Owns(n)
      ensures Takes(n, loc, ty) <==> exists j :: j <= n.tr.At(n) && PlaceAt(g, Bare(n.tr.events), loc, j)
    {
      hide Reach, InsertCode, Shape;
      ShapeOf(n);
      var q := Request(loc, {ty}, true, false, n.tr.At(n), -1);
      BareInsert(g, n.tr.events, q);
      TakenMeans(g, Bare(n.tr.events), q);
    }

    /** or, for the other threads, that it has none in any of them. */
    lemma NoneTakesMeans(st: State<InstLocTr>, m: nat, but: nat, loc: Loc, ty: EvTy)
      requires forall k :: 0 <= k < |st| ==> WellFormed(g, st[k])
      ensures NoneTakes(st, m, but, loc, ty) <==>
              forall k :: 0 <= k < m && k < |st| && k != but ==> !HasPlace(g, Bare(st[k]), loc)
    {
      hide Reach, InsertCode, PlaceAt;
      var q := Anywhere(loc, ty, false);
      forall k | 0 <= k < |st| ensures Accepted(InsertCode(g, st[k], q)) <==> HasPlace(g, Bare(st[k]), loc) {
        BareInsert(g, st[k], q);
        TakenMeans(g, Bare(st[k]), q);
        if j :| PlaceAt(g, Bare(st[k]), loc, j) {
          PlaceIsIndex(g, Bare(st[k]), loc, j);
          assert InWindow(q, j);
        }
      }
    }

    /** Put the escape `site` into the thread of `fe`, not behind `fe`, if it fits there; otherwise into
        the first other thread that takes it, a new one if there is none. */
    method PlaceEscape(fe: InstLocTr, site: Loc) returns (es: InstLocTr)
      requires Shape() && Typed(State()) && Owns(fe)
      modifies this`trs, trs
      ensures Shape() && Typed(State()) && Grown(old(State()), State()) && old(trs) <= trs
      ensures forall t :: t in trs ==> t in old(trs) || fresh(t)
      ensures Owns(es) && es.loc == site && Marked(es.tr.events, es, Escape)
      ensures es.tr == fe.tr ==> NotAfter(fe.tr.events, es, fe)
      ensures es.tr == fe.tr <==> old(Takes(fe, site, Escape))
      ensures es.tr != fe.tr ==>
              NoneTakes(old(State()), if trs == old(trs) then Of(es.tr) else |old(trs)|, Of(fe.tr), site, Escape)
    {
      hide Reach, WellFormed, GrownSeq, Shape, NotAfter, Typed, InsertCode;
      var e, ec := InsertInto(fe.tr, site, Escape, false, fe, null);
      if e == null {
        ghost var was, k := trs, Of(fe.tr);
        e, ec := AddLoc(site, Escape, {fe.tr}, false, true);
        assert was[k] == fe.tr && trs[k] == fe.tr;
        SamePlace(fe.tr, k);
        forall j | 0 <= j < |was| && j != k ensures trs[j] != fe.tr {
          SamePlace(trs[j], j);
        }
      }
      es := e;
    }

    lemma SamePlace(tr: Thread, k: nat)
      requires Shape() && k < |trs| && trs[k] == tr
      ensures Of(tr) == k
    {
      hide WellFormed;
    }

    /** The fetch goes into the thread of the location that uses what it fetches, not behind it. */
    method PlaceFetch(currLoc: InstLocTr, fsite: Loc) returns (fe: InstLocTr?)
      requires Valid() && Shape() && Owns(currLoc)
      modifies currLoc.tr
      ensures Since(old(State()), poc.evec, lockMap) && Typed(State())
      ensures fe != null <==> old(Takes(currLoc, fsite, Fetch))
      ensures fe == null ==> State() == old(State())
      ensures fe != null ==>
              Owns(fe) && fe.loc == fsite && fe.tr == currLoc.tr && NotAfter(currLoc.tr.events, fe, currLoc)
              && Marked(fe.tr.events, fe, Fetch)
    {
      hide Reach, WellFormed, GrownSeq, Shape, Sound, Filed, NotAfter, Typed, InsertCode;
      ghost var st := State();
      SoundIsTyped(st, poc.evec, lockMap);
      var ec;
      fe, ec := InsertInto(currLoc.tr, fsite, Fetch, false, currLoc, null);
      GrownSound(st, State(), poc.evec, lockMap);
    }

    /** The escape would need an invocation of its own, which escapes another instance of a local heap
        object. */
    ghost predicate Foreign(es: InstLocTr, epto: EqvPaths.Pto)
      reads es.tr
    {
      |es.tr.events| == 1 && es.tr.events[0].ty <= {Escape} && gs.localHeap(epto)
    }

    /** The escape goes in and is ordered before the fetch, unless it is a foreign one. */
    method LinkEscape(currLoc: InstLocTr, fe: InstLocTr, epto: EqvPaths.Pto)
      returns (r: int, es: InstLocTr)
      requires Valid() && Shape() && Typed(State()) && epto.site.Some?
      requires Owns(fe) && fe.tr == currLoc.tr && NotAfter(currLoc.tr.events, fe, currLoc)
      requires Marked(fe.tr.events, fe, Fetch)
      modifies this`trs, trs, poc
      ensures Since(old(State()), old(poc.evec), lockMap) && old(trs) <= trs
      ensures forall t :: t in trs ==> t in old(trs) || fresh(t)
      ensures r == if Foreign(es, epto) then -1 else 0
      ensures Owns(fe) && NotAfter(currLoc.tr.events, fe, currLoc) && Marked(fe.tr.events, fe, Fetch)
      ensures Owns(es) && es.loc == epto.site.value && Marked(es.tr.events, es, Escape)
      ensures poc.evec == old(poc.evec) + if r == 0 then OrderClauses(Some(es), Some(fe)) else []
    {
      hide Reach, WellFormed, GrownSeq, Shape, Sound, Filed, NotAfter, Typed, InsertCode, NoneTakes;
      ghost var st, cs, k := State(), poc.evec, Of(fe.tr);
      es := PlaceEscape(fe, epto.site.value);
      GrownSound(st, State(), cs, lockMap);
      StillNotAfterAt(k, fe.tr, fe, currLoc, st);
      StillMarked(k, fe, Fetch, st);
      var i := es.tr.At(es);
      if |es.tr.events| == 1 && es.tr.events[i].ty <= {Escape} && gs.localHeap(epto) {
        r := -1;
      } else {
        Order(es, fe);
        r := 0;
      }
    }

    lemma StillMarked(k: nat, n: InstLocTr, ty: EvTy, st: State<InstLocTr>)
      requires k < |st| <= |trs| && trs[k] == n.tr && Marked(st[k], n, ty) && Grown(st, State())
      ensures Marked(n.tr.events, n, ty)
    {
      hide GrownSeq, Marked;
      GrownMarked(st[k], State()[k], n, ty);
    }

    lemma MarkedHere(n: InstLocTr, ty: EvTy)
      requires n.tr in trs
      ensures MarkedAt(trs, State(), n, ty) <==> Marked(n.tr.events, n, ty)
      ensures Marked(n.tr.events, n, ty) ==> MarkedIn(State(), n, ty)
    {
      hide Marked;
      assert trs[Of(n.tr)] == n.tr && State()[Of(n.tr)] == n.tr.events;
    }

    lemma OwnsIsHeld(n: InstLocTr)
      ensures Owns(n) <==> HeldAt(trs, State(), n)
    {
      if Owns(n) {
        assert trs[Of(n.tr)] == n.tr && Holding(State()[Of(n.tr)], n);
      }
    }

    /** Why a hop fails: the fetch does not fit in front of `n`, which uses it, or `n` is a foreign escape. */
    ghost predicate Stuck(n: InstLocTr?, use: Loc, fsite: Loc, epto: Option<EqvPaths.Pto>)
      reads this, trs
    {
      && n != null && Owns(n)
      && (|| (n.loc == use && !Takes(n, fsite, Fetch))
          || (epto.Some? && epto.value.site == Some(n.loc) && Foreign(n, epto.value)))
    }

    /** One fetch node at `fsite` and its paired escape, if that has a site. */
    method AddHop(currLoc: InstLocTr, fsite: Loc, epto: Option<EqvPaths.Pto>)
      returns (r: int, es: InstLocTr?, ghost link: Option<Link>, ghost stuck: InstLocTr?)
      requires Valid() && Shape() && Owns(currLoc)
      modifies this`trs, trs, poc
      ensures Since(old(State()), old(poc.evec), lockMap) && old(trs) <= trs
      ensures forall t :: t in trs ==> t in old(trs) || fresh(t)
      ensures r == 0 || r == -1
      ensures r == 0 ==> old(Takes(currLoc, fsite, Fetch))
      ensures r == 0 ==> (es != null <==> epto.Some? && epto.value.site.Some?)
      ensures r == 0 && es != null ==> Owns(es) && epto.value.site == Some(es.loc) && !Foreign(es, epto.value)
      ensures r == 0 ==>
                && link.Some? && LinkAt(trs, State(), poc.evec, link.value) && link.value.fetch.loc == fsite
                   && link.value.use == currLoc
                && link.value.esc == (if es == null then None else var e: InstLocTr := es; Some(e))
      ensures r == 0 ==> Adds(old(poc.evec), poc.evec, LinkClauses([link.value]))
      ensures r == -1 ==> poc.evec == old(poc.evec) && Stuck(stuck, currLoc.loc, fsite, epto)
    {
      hide Reach, WellFormed, GrownSeq, Shape, Sound, Filed, NotAfter, Typed, InsertCode;
      r, es, link, stuck := 0, null, None, null;
      ghost var st, cs := State(), poc.evec;
      var f := PlaceFetch(currLoc, fsite);
      if f == null {
        return -1, null, None, currLoc;
      }
      var fe: InstLocTr := f;
      if epto.None? || epto.value.site.None? {
        link := Some(Link(None, fe, currLoc));
        MarkedHere(fe, Fetch);
        assert trs[Of(fe.tr)] == fe.tr && NotAfter(State()[Of(fe.tr)], fe, currLoc);
        AddsNothing(cs, LinkClauses([link.value]));
        return;
      }
      ghost var mid, ms := State(), poc.evec;
      var e;
      r, e := LinkEscape(currLoc, fe, epto.value);
      SinceTrans(st, cs, lockMap, mid, ms, lockMap);
      es, stuck := e, e;
      if r == 0 {
        link := Some(Link(Some(e), fe, currLoc));
        LinkMade(e, fe, currLoc, cs);
      }
    }

    lemma LinkMade(e: InstLocTr, fe: InstLocTr, use: InstLocTr, cs: seq<Clause<InstLocTr>>)
      requires Owns(e) && Owns(fe) && NotAfter(fe.tr.events, fe, use)
      requires Marked(e.tr.events, e, Escape) && Marked(fe.tr.events, fe, Fetch)
      requires poc.evec == cs + OrderClauses(Some(e), Some(fe))
      ensures LinkAt(trs, State(), poc.evec, Link(Some(e), fe, use))
              && Adds(cs, poc.evec, LinkClauses([Link(Some(e), fe, use)]))
    {
      hide NotAfter;
      var l := Link(Some(e), fe, use);
      MarkedHere(e, Escape);
      MarkedHere(fe, Fetch);
      assert trs[Of(fe.tr)] == fe.tr && NotAfter(State()[Of(fe.tr)], fe, use);
      assert l in [l];
      if e != fe {
        assert poc.evec[|cs|] == [(e, fe)];
      }
    }

    // ---- what a path asks for --------------------------------------------------------------------

    /** The fetch node of `path` that could not be placed. */
    ghost predicate PathStuck(path: EqvPaths.Path, end: Loc, n: InstLocTr?)
      reads this, trs
    {
      exists i :: 0 <= i < |path| && path[i].kind == EqvPaths.FETCH && path[i].pto.site.Some?
                  && Stuck(n, CursorAt(path, i + 1, end).use, path[i].pto.site.value, EscapePto(path, i))
    }

    /** Every link is in place. */
    ghost predicate Linked(links: seq<Link>)
      reads this, trs, poc
    {
      forall l :: l in links ==> LinkAt(trs, State(), poc.evec, l)
    }

    /** The part of addOneEFPath that handles the fetch node at `i`. */
    method FetchNode(path: EqvPaths.Path, i: nat, currLoc: InstLocTr, nextLoc: InstLocTr?, ghost end: InstLocTr,
                     ghost links: seq<Link>)
      returns (r: int, next: InstLocTr?, ghost all: seq<Link>, ghost stuck: InstLocTr?)
      requires Valid() && Shape() && Owns(currLoc) && (nextLoc != null ==> Owns(nextLoc))
      requires i < |path| && path[i].kind == EqvPaths.FETCH && path[i].pto.site.Some?
      requires Linked(links) && PathPhase(path, i + 1, end, currLoc, nextLoc, links)
      modifies this`trs, trs, poc
      ensures Since(old(State()), old(poc.evec), lockMap) && old(trs) <= trs
      ensures forall t :: t in trs ==> t in old(trs) || fresh(t)
      ensures r == 0 || r == -1
      ensures Owns(currLoc) && (r == 0 && next != null ==> Owns(next))
      ensures Linked(all)
      ensures r == 0 ==> PathPhase(path, i, end, currLoc, next, all)
      ensures r == 0 ==> links <= all && Adds(old(poc.evec), poc.evec, LinkClauses(all))
      ensures r == -1 ==> PathStuck(path, end.loc, stuck)
    {
      hide Reach, WellFormed, GrownSeq, Shape, Sound, Filed, NotAfter, LinkAt, HeldAt, Owns, InsertCode, PathPhase,
           LinkClauses, Stuck, Foreign, Adds;
      var eidx;
      ghost var outside;
      eidx, outside := EqvPaths.GetPairedIndex(path, i);
      var epto := if 0 <= eidx < |path| then Some(path[eidx].pto) else None;
      ghost var ts, st, cs := trs, State(), poc.evec;
      CursorOf(path, i + 1, end, currLoc, nextLoc, links);
      OwnsIsHeld(currLoc);
      if nextLoc != null {
        OwnsIsHeld(nextLoc);
      }
      var es;
      ghost var link;
      r, es, link, stuck := AddHop(currLoc, path[i].pto.site.value, epto);
      LinksStay(ts, st, cs, links, currLoc, nextLoc);
      all := links;
      if r == 0 {
        all := links + [link.value];
        PathHops(path, i, end, currLoc, nextLoc, links, link.value, es);
        LinkClausesMore(links, [link.value]);
        AddsMore(cs, poc.evec, LinkClauses([link.value]), LinkClauses(all));
      }
      next := if nextLoc == null then es else nextLoc;
    }

    /** One round of the loop of addOneEFPath, for the node at `i`. */
    method StepBack(path: EqvPaths.Path, i: nat, currLoc: InstLocTr, nextLoc: InstLocTr?, ghost end: InstLocTr,
                    ghost links: seq<Link>)
      returns (r: int, curr: InstLocTr, next: InstLocTr?, ghost all: seq<Link>, ghost stuck: InstLocTr?)
      requires Valid() && Shape() && Owns(currLoc) && (nextLoc != null ==> Owns(nextLoc))
      requires i < |path| && Linked(links) && PathPhase(path, i + 1, end, currLoc, nextLoc, links)
      modifies this`trs, trs, poc
      ensures Since(old(State()), old(poc.evec), lockMap) && old(trs) <= trs
      ensures forall t :: t in trs ==> t in old(trs) || fresh(t)
      ensures r == 0 || r == -1
      ensures Linked(all) && Owns(curr)
      ensures r == 0 ==> (next != null ==> Owns(next)) && PathPhase(path, i, end, curr, next, all)
      ensures r == 0 ==> links <= all && Adds(old(poc.evec), poc.evec, LinkClauses(all))
      ensures r == -1 ==> PathStuck(path, end.loc, stuck)
    {
      hide *;
      UntilNow();
      AddsNothing(poc.evec, LinkClauses(links));
      PathSkips(path, i, end, currLoc, nextLoc, links);
      r, curr, next, all, stuck := 0, currLoc, nextLoc, links, null;
      if path[i].kind != EqvPaths.FETCH {
        if nextLoc != null {
          curr := nextLoc;
          next := null;
        }
      } else if path[i].pto.site.Some? {
        r, next, all, stuck := FetchNode(path, i, currLoc, nextLoc, end, links);
      }
    }

    /** What the rounds so far have come to. */
    ghost predicate Walked(st: State<InstLocTr>, cs: seq<Clause<InstLocTr>>, ts: seq<Thread>, links: seq<Link>)
      reads this, trs, poc
    {
      Since(st, cs, lockMap) && ts <= trs && Linked(links) && Adds(cs, poc.evec, LinkClauses(links))
    }

    lemma WalkedMeans(st: State<InstLocTr>, cs: seq<Clause<InstLocTr>>, ts: seq<Thread>, links: seq<Link>)
      requires Walked(st, cs, ts, links)
      ensures Valid() && Shape() && Linked(links) && ts <= trs
      ensures Since(st, cs, lockMap) && Adds(cs, poc.evec, LinkClauses(links))
      ensures Grown(st, State()) && cs <= poc.evec && LocksLe(lockMap, lockMap)
    {
      hide Shape, Sound, Filed, GrownSeq, Linked;
    }

    lemma WalkedOn(st: State<InstLocTr>, cs: seq<Clause<InstLocTr>>, ts: seq<Thread>, links: seq<Link>,
                   mid: State<InstLocTr>, ds: seq<Clause<InstLocTr>>, us: seq<Thread>, all: seq<Link>)
      requires Grown(st, mid) && cs <= ds && ts <= us && Adds(cs, ds, LinkClauses(links))
      requires Since(mid, ds, lockMap) && us <= trs && links <= all && Linked(all)
               && Adds(ds, poc.evec, LinkClauses(all))
      ensures Walked(st, cs, ts, all)
    {
      hide Shape, Sound, Filed, GrownSeq, Linked, LinkClauses, Adds, Grown;
      SameLocks(lockMap);
      SinceTrans(st, cs, lockMap, mid, ds, lockMap);
      assert all == links + all[|links|..];
      LinkClausesMore(links, all[|links|..]);
      AddsTrans(cs, ds, poc.evec, LinkClauses(links), LinkClauses(all), LinkClauses(all));
    }

    lemma WalkStarts()
      requires Valid() && Shape()
      ensures Walked(State(), poc.evec, trs, [])
    {
      hide Shape, Sound, Filed, GrownSeq, Linked;
      UntilNow();
      NoLinks();
      AddsNothing(poc.evec, LinkClauses([]));
    }

    /** The loop of addOneEFPath: every fetch of the path with its paired escape, from the end. */
    method WalkPath(path: EqvPaths.Path, endLoc: InstLocTr)
      returns (r: int, ghost links: seq<Link>, ghost stuck: InstLocTr?)
      requires Valid() && Shape() && Owns(endLoc)
      modifies this`trs, trs, poc
      ensures Since(old(State()), old(poc.evec), lockMap) && old(trs) <= trs
      ensures forall t :: t in trs ==> t in old(trs) || fresh(t)
      ensures r == 0 || r == -1
      ensures Linked(links)
      ensures r == 0 ==> PathLinked(path, endLoc, links) && Adds(old(poc.evec), poc.evec, LinkClauses(links))
      ensures r == -1 ==> PathStuck(path, endLoc.loc, stuck)
    {
      hide *;
      r, links, stuck := 0, [], null;
      WalkStarts();
      WalkedMeans(State(), poc.evec, trs, links);
      PathStarts(path, endLoc);
      var currLoc: InstLocTr := endLoc;
      var nextLoc: InstLocTr? := null;
      var i := |path|;
      while i > 0
        invariant 0 <= i <= |path| && r == 0
        invariant forall t :: t in trs ==> t in old(trs) || fresh(t)
        invariant Owns(currLoc) && (nextLoc != null ==> Owns(nextLoc))
        invariant Walked(old(State()), old(poc.evec), old(trs), links)
                  && PathPhase(path, i, endLoc, currLoc, nextLoc, links)
      {
        i := i - 1;
        ghost var st, cs, ts, was := State(), poc.evec, trs, links;
        WalkedMeans(old(State()), old(poc.evec), old(trs), links);
        assert forall k :: 0 <= k < |trs| ==> trs[k] in trs;
        r, currLoc, nextLoc, links, stuck := StepBack(path, i, currLoc, nextLoc, endLoc, links);
        if r < 0 {
          SinceTrans(old(State()), old(poc.evec), lockMap, st, cs, lockMap);
          return;
        }
        WalkedOn(old(State()), old(poc.evec), old(trs), was, st, cs, ts, links);
      }
      WalkedMeans(old(State()), old(poc.evec), old(trs), links);
      PathEnds(path, endLoc, currLoc, nextLoc, links);
    }

    /** ThreadSched::addOneEFPath: the nodes of a shortest path of the pair. */
    method AddOneEFPath(ep: EqvPairs.EqvObjPair, endLoc: InstLocTr)
      returns (r: int, ghost path: EqvPaths.Path, ghost links: seq<Link>, ghost stuck: InstLocTr?)
      requires Valid() && Shape() && Owns(endLoc)
      modifies this`trs, trs, poc
      ensures Since(old(State()), old(poc.evec), lockMap) && old(trs) <= trs
      ensures forall t :: t in trs ==> t in old(trs) || fresh(t)
      ensures r == 0 || r == -1
      ensures Linked(links) && Chosen(old(ep.paths), path)
      ensures r == 0 ==> PathLinked(path, endLoc, links) && Adds(old(poc.evec), poc.evec, LinkClauses(links))
      ensures r == -1 ==> PathStuck(path, endLoc.loc, stuck)
    {
      hide *;
      NoLinks();
      UntilNow();
      NothingWalked(endLoc);
      AddsNothing(poc.evec, LinkClauses([]));
      r, path, links, stuck := 0, [], [], null;
      var epath := ep.GetShortestEqvPath();
      PathIsChosen(ep.paths, epath);
      if epath.Some? {
        path := epath.value;
        r, links, stuck := WalkPath(epath.value, endLoc);
      }
    }

    lemma UntilNow()
      requires Valid() && Shape()
      ensures Since(State(), poc.evec, lockMap)
    {
      hide Sound, Filed, Shape;
      GrownRefl(State());
      SameLocks(lockMap);
    }

    lemma LinksStay(ts: seq<Thread>, st: State<InstLocTr>, cs: seq<Clause<InstLocTr>>, links: seq<Link>, a: InstLocTr,
                    b: InstLocTr?)
      requires ts <= trs && |st| == |ts| && Grown(st, State()) && cs <= poc.evec
      requires forall l :: l in links ==> LinkAt(ts, st, cs, l)
      requires HeldAt(ts, st, a) && (b != null ==> HeldAt(ts, st, b))
      ensures Linked(links)
      ensures Owns(a) && (b != null ==> Owns(b))
    {
      hide LinkAt, HeldAt, GrownSeq;
      HeldStays(ts, st, trs, State(), a);
      OwnsIsHeld(a);
      if b != null {
        HeldStays(ts, st, trs, State(), b);
        OwnsIsHeld(b);
      }
      forall l | l in links ensures LinkAt(trs, State(), poc.evec, l) {
        LinkStays(ts, st, cs, trs, State(), poc.evec, l);
      }
    }

    // ---- thread synchronisation, all threads -------------------------------------------------

    /** Each other thread that took both events when the schedule was `st` has the pair. */
    ghost predicate PairGiven(st: State<InstLocTr>, t: nat, rg: (Loc, Loc), fs: set<SyncFact>)
      reads `trs
    {
      forall u :: 0 <= u < |st| && u < |trs| && u != t && SyncFits(g, Bare(st[u]), rg.0, rg.1) ==>
                    exists f :: f in fs && f.t == t && f.c.tr == trs[u] && f.c.loc == rg.0 && f.j.loc == rg.1
    }

    ghost predicate RangeDone(t: nat, rg: (Loc, Loc), fs: set<SyncFact>, hist: set<State<InstLocTr>>)
      reads `trs
    {
      exists s :: s in hist && PairGiven(s, t, rg, fs)
    }

    /** Every range of the child thread number `t` has been offered to the other threads. */
    ghost predicate RangesDone(t: nat, fs: set<SyncFact>, hist: set<State<InstLocTr>>)
      reads `trs
    {
      exists s :: s in hist && t < |s| && forall i :: 0 <= i < |gs.ranges(LocsOf(s[t]))| ==>
        RangeDone(t, gs.ranges(LocsOf(s[t]))[i], fs, hist)
    }

    lemma RangeStaysDone(t: nat, rg: (Loc, Loc), fs: set<SyncFact>, hist: set<State<InstLocTr>>, fs': set<SyncFact>,
                         hist': set<State<InstLocTr>>)
      requires RangeDone(t, rg, fs, hist) && fs <= fs' && hist <= hist'
      ensures RangeDone(t, rg, fs', hist')
    {
      hide SyncFits;
      var s :| s in hist && PairGiven(s, t, rg, fs);
      assert PairGiven(s, t, rg, fs');
    }

    lemma RangesStayDone(t: nat, fs: set<SyncFact>, hist: set<State<InstLocTr>>, fs': set<SyncFact>,
                         hist': set<State<InstLocTr>>)
      requires RangesDone(t, fs, hist) && fs <= fs' && hist <= hist'
      ensures RangesDone(t, fs', hist')
    {
      hide RangeDone;
      var s :| s in hist && t < |s| && forall i :: 0 <= i < |gs.ranges(LocsOf(s[t]))| ==>
        RangeDone(t, gs.ranges(LocsOf(s[t]))[i], fs, hist);
      forall i | 0 <= i < |gs.ranges(LocsOf(s[t]))| ensures RangeDone(t, gs.ranges(LocsOf(s[t]))[i], fs', hist') {
        RangeStaysDone(t, gs.ranges(LocsOf(s[t]))[i], fs, hist, fs', hist');
      }
    }

    /** One sync pair for the child thread number `t`, with the facts it establishes. */
    method SyncThread(stLoc: Loc, edLoc: Loc, t: nat) returns (ghost fs: set<SyncFact>)
      requires Valid() && Shape() && t < |trs|
      modifies this`trs, trs, poc
      ensures Since(old(State()), old(poc.evec), lockMap) && trs == old(trs)
      ensures FactsIn(fs, State(), poc.evec) && Adds(old(poc.evec), poc.evec, SyncClauses(fs))
      ensures PairGiven(old(State()), t, (stLoc, edLoc), fs)
    {
      hide GrownSeq, Bracketed, Shape, Sound, Filed, Adds, PairClauses, BracketClauses, SyncClauses, SyncOutcome,
           PairGiven, Grown, Bare, FactsIn, SyncIn;
      ghost var st := State();
      ThreadsDiffer();
      var ptTr := trs[t];
      var r;
      ghost var pairs;
      r, pairs := AddSyncPair(stLoc, edLoc, ptTr);
      fs := set u | u in pairs :: SyncFact(t, ptTr.events, pairs[u].0, pairs[u].1);
      PairsAreIn(t, pairs, stLoc, edLoc, fs);
      PairsAreFacts(pairs, t, ptTr.events, fs);
      forall k | 0 <= k < |st| && k != t
        ensures (trs[k] in pairs <==> SyncFits(g, Bare(st[k]), stLoc, edLoc))
                && (trs[k] in pairs ==> pairs[trs[k]].0.tr == trs[k])
      {
        OutcomeMeans(Bare(old(trs[k].events)), Bare(trs[k].events), trs[k] in pairs, stLoc, edLoc);
      }
      PairsAreGiven(st, t, pairs, ptTr.events, stLoc, edLoc, fs);
      AddsNothing(poc.evec, {});
      AddsTrans(old(poc.evec), poc.evec, poc.evec, PairClauses(pairs, ptTr.events), {}, SyncClauses(fs));
    }

    lemma PairsAreIn(t: nat, pairs: map<Thread, Span>, stLoc: Loc, edLoc: Loc, fs: set<SyncFact>)
      requires t < |trs| && AllSynced(pairs, trs[t], stLoc, edLoc)
      requires fs == set u | u in pairs :: SyncFact(t, trs[t].events, pairs[u].0, pairs[u].1)
      ensures FactsIn(fs, State(), poc.evec)
      ensures forall u :: u in pairs ==> pairs[u].0.loc == stLoc && pairs[u].1.loc == edLoc
    {
      hide Bracketed, GrownSeq, Marked, Before;
      GrownSeqRefl(trs[t].events);
      forall f | f in fs ensures FactIn(f, State(), poc.evec) {
        var u: Thread :| u in pairs && f == SyncFact(t, trs[t].events, pairs[u].0, pairs[u].1);
        assert SyncIn(pairs[u], trs[t], stLoc, edLoc);
        assert trs[Of(f.c.tr)] == f.c.tr && State()[Of(f.c.tr)] == f.c.tr.events;
      }
    }

    lemma OutcomeMeans(was: Trace, now: Trace, has: bool, stLoc: Loc, edLoc: Loc)
      requires SyncOutcome(g, was, now, has, stLoc, edLoc)
      ensures has <==> SyncFits(g, was, stLoc, edLoc)
    {
      hide SyncFits, SyncTrace;
    }

    lemma PairsAreGiven(st: State<InstLocTr>, t: nat, pairs: map<Thread, Span>, s: seq<Ev<InstLocTr>>,
                        stLoc: Loc, edLoc: Loc, fs: set<SyncFact>)
      requires |st| == |trs| && fs == set u | u in pairs :: SyncFact(t, s, pairs[u].0, pairs[u].1)
      requires forall u :: u in pairs ==> pairs[u].0.loc == stLoc && pairs[u].1.loc == edLoc
      requires forall k :: 0 <= k < |st| && k != t ==>
                 (trs[k] in pairs <==> SyncFits(g, Bare(st[k]), stLoc, edLoc))
                   && (trs[k] in pairs ==> pairs[trs[k]].0.tr == trs[k])
      ensures PairGiven(st, t, (stLoc, edLoc), fs)
    {
      hide SyncFits, Bare;
      forall k | 0 <= k < |st| && k != t && SyncFits(g, Bare(st[k]), stLoc, edLoc)
        ensures exists f :: f in fs && f.t == t && f.c.tr == trs[k] && f.c.loc == stLoc && f.j.loc == edLoc
      {
        assert SyncFact(t, s, pairs[trs[k]].0, pairs[trs[k]].1) in fs;
      }
    }

    lemma AllRangesDone(t: nat, fs: set<SyncFact>, hist: set<State<InstLocTr>>, more: set<SyncFact>,
                        hs: set<State<InstLocTr>>)
      requires forall u :: 0 <= u < t ==> RangesDone(u, fs, hist)
      requires RangesDone(t, more, hs)
      ensures forall u :: 0 <= u < t + 1 ==> RangesDone(u, fs + more, hist + hs)
    {
      hide RangesDone;
      forall u | 0 <= u < t + 1 ensures RangesDone(u, fs + more, hist + hs) {
        if u < t {
          RangesStayDone(u, fs, hist, fs + more, hist + hs);
        } else {
          RangesStayDone(t, more, hs, fs + more, hist + hs);
        }
      }
    }

    lemma ThreadsDiffer()
      requires Shape()
      ensures forall i, j :: 0 <= i < j < |trs| ==> trs[i] != trs[j]
    {
      hide WellFormed;
    }

    /** ThreadSched::addSyncTrLocs: every range of every thread is offered to all other threads. */
    method AddSyncTrLocs() returns (ghost fs: set<SyncFact>, ghost hist: set<State<InstLocTr>>)
      requires Valid() && Shape()
      modifies this`trs, trs, poc
      ensures Since(old(State()), old(poc.evec), lockMap) && trs == old(trs)
      ensures FactsIn(fs, State(), poc.evec) && Adds(old(poc.evec), poc.evec, SyncClauses(fs))
      ensures Passed(old(State()), State(), hist)
      ensures forall t :: 0 <= t < |trs| ==> RangesDone(t, fs, hist)
    {
      hide GrownSeq, Grown, Bracketed, Shape, Sound, Filed, FactsIn, Adds, SyncClauses, RangesDone, Passed;
      fs, hist := {}, {};
      NoFacts(State(), poc.evec);
      GrownRefl(State());
      PassedNone(State());
      AddsNothing(poc.evec, SyncClauses(fs));
      for t := 0 to |trs|
        invariant Since(old(State()), old(poc.evec), lockMap) && trs == old(trs)
        invariant FactsIn(fs, State(), poc.evec) && Adds(old(poc.evec), poc.evec, SyncClauses(fs))
        invariant Passed(old(State()), State(), hist)
        invariant forall u :: 0 <= u < t ==> RangesDone(u, fs, hist)
      {
        ghost var st, cs := State(), poc.evec;
        ghost var more, hs := SyncChild(t);
        SinceTrans(old(State()), old(poc.evec), lockMap, st, cs, lockMap);
        FactsStay(fs, st, cs, State(), poc.evec);
        FactsJoin(fs, more, State(), poc.evec);
        SyncClausesJoin(fs, more);
        AddsTrans(old(poc.evec), cs, poc.evec, SyncClauses(fs), SyncClauses(more), SyncClauses(fs + more));
        PassedJoin(old(State()), st, State(), hist, hs);
        AllRangesDone(t, fs, hist, more, hs);
        fs, hist := fs + more, hist + hs;
      }
    }

    /** The ranges of one child thread. */
    method SyncChild(t: nat) returns (ghost fs: set<SyncFact>, ghost hist: set<State<InstLocTr>>)
      requires Valid() && Shape() && t < |trs|
      modifies this`trs, trs, poc
      ensures Since(old(State()), old(poc.evec), lockMap) && trs == old(trs)
      ensures FactsIn(fs, State(), poc.evec) && Adds(old(poc.evec), poc.evec, SyncClauses(fs))
      ensures Passed(old(State()), State(), hist) && RangesDone(t, fs, hist)
    {
      hide GrownSeq, Grown, Bracketed, Shape, Sound, Filed, FactsIn, Adds, SyncClauses, RangeDone, Passed, PairGiven;
      GrownRefl(State());
      NoFacts(State(), poc.evec);
      AddsNothing(poc.evec, SyncClauses({}));
      PassedOne(State(), State());
      fs, hist := {}, {State()};
      var rgs := gs.ranges(LocsOf(trs[t].events));
      for i := 0 to |rgs|
        invariant Since(old(State()), old(poc.evec), lockMap) && trs == old(trs)
        invariant FactsIn(fs, State(), poc.evec) && Adds(old(poc.evec), poc.evec, SyncClauses(fs))
        invariant Passed(old(State()), State(), hist) && old(State()) in hist
        invariant forall j :: 0 <= j < i ==> RangeDone(t, rgs[j], fs, hist)
      {
        ghost var st, cs := State(), poc.evec;
        ghost var more := SyncThread(rgs[i].0, rgs[i].1, t);
        SinceTrans(old(State()), old(poc.evec), lockMap, st, cs, lockMap);
        FactsStay(fs, st, cs, State(), poc.evec);
        FactsJoin(fs, more, State(), poc.evec);
        SyncClausesJoin(fs, more);
        AddsTrans(old(poc.evec), cs, poc.evec, SyncClauses(fs), SyncClauses(more), SyncClauses(fs + more));
        PassedOne(st, State());
        PassedJoin(old(State()), st, State(), hist, {st});
        RangeNow(st, t, rgs[i], more);
        OneRangeMore(t, rgs, i, fs, hist, more, st);
        fs, hist := fs + more, hist + {st};
      }
    }

    lemma OneRangeMore(t: nat, rgs: seq<(Loc, Loc)>, i: nat, fs: set<SyncFact>, hist: set<State<InstLocTr>>,
                       more: set<SyncFact>, st: State<InstLocTr>)
      requires i < |rgs| && RangeDone(t, rgs[i], more, {st})
      requires forall j :: 0 <= j < i ==> RangeDone(t, rgs[j], fs, hist)
      ensures forall j :: 0 <= j < i + 1 ==> RangeDone(t, rgs[j], fs + more, hist + {st})
    {
      hide RangeDone;
      forall j | 0 <= j < i + 1 ensures RangeDone(t, rgs[j], fs + more, hist + {st}) {
        if j < i {
          RangeStaysDone(t, rgs[j], fs, hist, fs + more, hist + {st});
        } else {
          RangeStaysDone(t, rgs[i], more, {st}, fs + more, hist + {st});
        }
      }
    }

    lemma RangeNow(st: State<InstLocTr>, t: nat, rg: (Loc, Loc), fs: set<SyncFact>)
      requires PairGiven(st, t, rg, fs)
      ensures RangeDone(t, rg, fs, {st})
    {
    }

    // ---- a whole build -----------------------------------------------------------------------

    /** A path chosen for one of the pairs cannot be placed. */
    ghost predicate Misled(ep0: Option<seq<EqvPaths.Path>>, ep1: seq<EqvPaths.Path>, floc: Loc, uloc: Loc,
                           stuck: InstLocTr?)
      reads this, trs
    {
      || (exists path :: Chosen(ep1, path) && PathStuck(path, uloc, stuck))
      || (ep0.Some? && exists path :: Chosen(ep0.value, path) && PathStuck(path, floc, stuck))
    }

    /** ThreadSched::addEFPaths: the way to the freed object, if there is one, then to the used one. */
    method AddEFPaths(ep0: EqvPairs.EqvObjPair?, ep1: EqvPairs.EqvObjPair, flocTr: InstLocTr, ulocTr: InstLocTr)
      returns (r: int, ghost rt: Route, ghost stuck: InstLocTr?)
      requires Valid() && Shape() && Owns(flocTr) && Owns(ulocTr)
      modifies this`trs, trs, poc
      ensures Since(old(State()), old(poc.evec), lockMap)
      ensures forall t :: t in trs ==> t in old(trs) || fresh(t)
      ensures old(trs) <= trs
      ensures r == 0 || r == -1
      ensures r == 0 ==> Linked(rt.links0) && Linked(rt.links1)
      ensures r == 0 ==> Adds(old(poc.evec), poc.evec, LinkClauses(rt.links0 + rt.links1))
      ensures r == 0 ==> LeadsTo(rt.links0, flocTr) && LeadsTo(rt.links1, ulocTr)
      ensures r == 0 && SameObject(ep0, ep1) ==> rt.links0 == rt.links1 == [] && State() == old(State())
      ensures r == 0 && !SameObject(ep0, ep1) ==> Taken(old(PathsOf(ep0)), old(ep1.paths), rt, flocTr, ulocTr)
      ensures r == -1 ==>
              !SameObject(ep0, ep1) && Misled(old(PathsOf(ep0)), old(ep1.paths), flocTr.loc, ulocTr.loc, stuck)
    {
      hide Reach, WellFormed, GrownSeq, Shape, Sound, Filed, NotAfter, LinkAt, HeldAt, Owns, PathLinked, PathStuck,
           LinkClauses, Adds, Linked, LeadsTo, Chosen;
      GrownRefl(State());
      r, rt, stuck := 0, Route([], [], [], []), null;
      NoLinks();
      NoneLead(flocTr);
      NoneLead(ulocTr);
      AddsNothing(poc.evec, LinkClauses([] + []));
      if SameObject(ep0, ep1) {
        return;
      }
      ghost var cs0 := poc.evec;
      ghost var path0, links0, path1, links1 := [], [], [], [];
      AddsNothing(cs0, LinkClauses([]));
      if ep0 != null {
        OwnsIsHeld(ulocTr);
        ghost var ts, st := trs, State();
        r, path0, links0, stuck := AddOneEFPath(ep0, flocTr);
        if r < 0 {
          return;
        }
        LinkedLead(path0, flocTr, links0);
        LinksStay(ts, st, cs0, [], ulocTr, null);
      }
      ghost var ts, st, cs := trs, State(), poc.evec;
      OwnsIsHeld(ulocTr);
      LinkedMeans(links0);
      assert forall k :: 0 <= k < |trs| ==> trs[k] in trs;
      r, path1, links1, stuck := AddOneEFPath(ep1, ulocTr);
      SinceTrans(old(State()), old(poc.evec), lockMap, st, cs, lockMap);
      LinksStay(ts, st, cs, links0, ulocTr, null);
      rt := Route(path0, path1, links0, links1);
      if r == 0 {
        LinkedLead(path1, ulocTr, links1);
        LinkClausesMore(links0, links1);
        AddsTrans(cs0, cs, poc.evec, LinkClauses(links0), LinkClauses(links1), LinkClauses(links0 + links1));
      }
    }

    lemma NoLinks()
      ensures Linked([])
    {
    }

    lemma LinkedJoin(a: seq<Link>, b: seq<Link>)
      requires Linked(a) && Linked(b)
      ensures Linked(a + b)
    {
      hide LinkAt;
    }

    lemma LinkedMeans(links: seq<Link>)
      ensures Linked(links) <==> forall l :: l in links ==> LinkAt(trs, State(), poc.evec, l)
    {
    }

    /** All that a finished schedule asks of its solver. */
    ghost function Demands(l0: InstLocTr, l1: InstLocTr, rec: Recorded): set<Clause<InstLocTr>>
      reads this, trs
    {
      SkeletonClauses(l0, l1, rec.links0 + rec.links1) + CheckClauses(rec.kills) + ClusterClauses(rec.cl, lockMap)
      + SyncClauses(rec.sync) + SeqClauses(State())
    }

    /** Every demand of a finished schedule is on record. */
    ghost predicate OnRecord(l0: InstLocTr, l1: InstLocTr, rec: Recorded)
      reads this, trs, poc
    {
      && SchedSpec.Ordered(State(), poc.evec)
      && l0 != l1 && Precedes(l0, l1)
      && Linked(rec.links0) && Linked(rec.links1)
      && (forall f, k :: f in rec.kills && k in f.kept ==> f.c == k || [(f.c, k)] in poc.evec)
      && (forall i :: 0 <= i < |rec.cl| ==> ClusterExcluded(rec.cl[i], lockMap, poc.evec))
      && FactsIn(rec.sync, State(), poc.evec)
    }

    /** The locks and condition checks of every location in `rec.done`, and the ranges of every thread, have been dealt
        with, each at some moment of the build. */
    ghost predicate Supplies(rec: Recorded)
      reads this, trs, poc
    {
      && (forall n :: n in rec.done ==>
          n.tr in trs && Supplied(State(), poc.evec, lockMap, Of(n.tr), n, rec.kills, rec.hist))
      && (forall t :: 0 <= t < |trs| ==> RangesDone(t, rec.sync, rec.hist))
      && (forall s :: s in rec.hist ==> Grown(s, State()))
    }

    /** At the start of the supplements the first node of the bug is there to free and the second one to use, and
        nothing is lost from there to any of the moments. */
    ghost predicate Begins(l0: InstLocTr, l1: InstLocTr, rec: Recorded)
      reads this, trs
    {
      && |rec.start| == |trs| && Grown(rec.start, State())
      && MarkedAt(trs, rec.start, l0, Free) && MarkedAt(trs, rec.start, l1, Use)
      && (forall s :: s in rec.hist ==> Grown(rec.start, s) && |s| == |trs|)
    }

    /** A finished schedule: all demands are on record and nothing else is, the clusters cut up the locks, and what
        the locations of the bug need has been supplied. */
    ghost predicate Built(l0: InstLocTr, l1: InstLocTr, rec: Recorded)
      reads this, trs, poc
    {
      && Valid()
      && OnRecord(l0, l1, rec)
      && Adds([], poc.evec, Demands(l0, l1, rec))
      && LeadsTo(rec.links0, l0) && LeadsTo(rec.links1, l1)
      && Partition(rec.cl, lockMap.Keys)
      && (Equivalence(lockMap.Keys) <==> Exact(rec.cl))
      && Supplies(rec) && Begins(l0, l1, rec)
      && Core(l0, l1, rec.links0 + rec.links1) <= rec.done
    }

    // ---- regions never meet ----------------------------------------------------------------------

    /** When no call is filed both as a lock and as an unlock, no recorded region ends where another begins, so
        that the clause that keeps two regions apart has both its disjuncts, and asks for neither more nor less
        than that one ends before the other begins. */
    lemma RegionsNeverMeet(l: LockInfo, m: LockInfo, p: Span, q: Span, v: InstLocTr -> int)
      requires Valid() && SitesApart(gs.locks)
      requires l in lockMap && m in lockMap && p in lockMap[l] && q in lockMap[m]
      ensures p.1 != q.0 && q.1 != p.0 && ExclusionClause(p, q) == [(p.1, q.0), (q.1, p.0)]
      ensures Holds(v, ExclusionClause(p, q)) <==> v(p.1) < v(q.0) || v(q.1) < v(p.0)
    {
      hide Sound, Shape, ExclusionClause, Holds;
      ExclusionIs(p, q);
      ExclusionMeans(v, p, q);
    }

    // ---- killers in between ----------------------------------------------------------------------

    /** At moment `s` the check in front of `n` did not fit; or it was in, by then or from then on, and the
        killer did not get between the FREE and the check. */
    ghost predicate Untrapped(s: State<InstLocTr>, k: nat, n: InstLocTr, floc: Loc, check: Check, kloc: Loc) {
      k < |s|
      && (|| (ThreadSpec.Has(s[k], check.cloc) && !Trapped(g, s, k, floc, check.cloc, kloc))
          || (ThreadSpec.Has(s[k], n.loc) && RefusedOrFree(s, k, n, floc, check, kloc)))
    }

    ghost predicate RefusedOrFree(s: State<InstLocTr>, k: nat, n: InstLocTr, floc: Loc, check: Check, kloc: Loc)
      requires k < |s| && ThreadSpec.Has(s[k], n.loc)
    {
      var q := Request(check.cloc, {GCheck}, true, false, IndexOf(s[k], n.loc), -1);
      || !Accepted(InsertCode(g, s[k], q))
      || !Trapped(g, s[k := Inserted(g, s[k], q, n)], k, floc, check.cloc, kloc)
    }

    /** A killer that gets between the FREE and a check, while the node of the FREE is for nothing else, is
        never dropped, and dooms the build: in a complete build, each killer of each check of a location that
        was supplied was tried at a moment at which it did not get there. */
    lemma NoKillerInBetween(l0: InstLocTr, l1: InstLocTr, rec: Recorded, n: InstLocTr, c: nat, j: nat)
      requires Built(l0, l1, rec) && n in rec.done && c < |gs.checks(n.loc)| && j < |gs.checks(n.loc)[c].klocs|
      ensures n.tr in trs
      ensures exists s :: s in rec.hist && |s| == |trs| && Grown(rec.start, s)
                          && Untrapped(s, Of(n.tr), n, l0.loc, gs.checks(n.loc)[c], gs.checks(n.loc)[c].klocs[j])
    {
      hide OnRecord, Demands, Adds, LeadsTo, Partition, Exact, Equivalence, Core, GrownSeq, Sound, Filed, Shape,
           LocksDone, VainAt, Trapped, RangesDone, MarkedAt, Marked, MarkedIn, NotAfter, DroppedAt, FatalAt;
      var check, k := gs.checks(n.loc)[c], Of(n.tr);
      assert CheckDone(g, State(), poc.evec, k, n, check, rec.kills, rec.hist);
      if f :| f in rec.kills && CheckPlacedAt(g, State(), poc.evec, k, n, check, f, rec.hist) {
        assert KillerSettled(g, f.kept, rec.hist, k, f.c.loc, check.klocs[j]);
        var s :| s in rec.hist && TriedAt(g, s, f.kept, k, check.cloc, check.klocs[j]);
        NotFatalNotTrapped(s, k, l0.loc, check.cloc, check.klocs[j]);
        assert Untrapped(s, k, n, l0.loc, check, check.klocs[j]);
      } else {
        var s :| s in rec.hist && VainAt(g, s, k, n.loc, check);
        VainIsUntrapped(s, k, n, l0.loc, check, j);
      }
    }

    lemma NotFatalNotTrapped(s: State<InstLocTr>, k: nat, floc: Loc, cloc: Loc, kloc: Loc)
      requires !FatalAt(g, s, k, cloc, kloc) || DroppedAt(g, s, k, cloc, kloc)
      ensures !Trapped(g, s, k, floc, cloc, kloc)
    {
      hide Trapped, FatalAt, DroppedAt;
      if Trapped(g, s, k, floc, cloc, kloc) {
        TrappedIsFatal(g, s, k, floc, cloc, kloc);
      }
    }

    lemma VainIsUntrapped(s: State<InstLocTr>, k: nat, n: InstLocTr, floc: Loc, check: Check, j: nat)
      requires VainAt(g, s, k, n.loc, check) && j < |check.klocs|
      ensures Untrapped(s, k, n, floc, check, check.klocs[j])
    {
      hide Trapped, FatalAt, DroppedAt, CheckVain, InsertCode, Inserted;
      CheckByNodes(s, k, n.loc, check, n);
      var q := Request(check.cloc, {GCheck}, true, false, IndexOf(s[k], n.loc), -1);
      if Accepted(InsertCode(g, s[k], q)) {
        NotFatalNotTrapped(s[k := Inserted(g, s[k], q, n)], k, floc, check.cloc, check.klocs[j]);
      }
    }

    // ---- what a finished schedule means ----------------------------------------------------------

    /** The order a schedule asks for, in terms of its threads, its paths, its checks, its locks and its
        child threads. */
    ghost predicate Meets(v: InstLocTr -> int, l0: InstLocTr, l1: InstLocTr, rec: Recorded)
      reads this, trs
    {
      // each thread runs in its order
      && (forall t, i, j :: 0 <= t < |trs| && 0 <= i < j < |trs[t].events| ==>
          v(trs[t].events[i].node) < v(trs[t].events[j].node))
      // the free comes before the use
      && v(l0) < v(l1)
      // an object escapes before it is fetched
      && (forall l :: l in rec.links0 + rec.links1 && l.esc.Some? && l.esc.value != l.fetch ==>
          v(l.esc.value) < v(l.fetch))
      // a check comes before what would defeat it
      && (forall f, k :: f in rec.kills && k in f.kept && k != f.c ==> v(f.c) < v(k))
      // of two regions of one lock one ends before the other begins
      && (forall i, p, q :: (0 <= i < |rec.cl| && p in Regions(rec.cl[i], lockMap) && q in Regions(rec.cl[i], lockMap)
                             && p.0 != q.0 && p.1 != q.1) ==> v(p.1) < v(q.0) || v(q.1) < v(p.0))
      // a child thread runs between its creation and its join
      && (forall f :: f in rec.sync && |f.held| > 0 ==>
          v(f.c) < v(f.held[0].node) && v(f.held[|f.held| - 1].node) < v(f.j))
    }

    /** The constraint system of a finished schedule has exactly the intended solutions. */
    lemma SolutionsAreExact(v: InstLocTr -> int, l0: InstLocTr, l1: InstLocTr, rec: Recorded)
      requires Built(l0, l1, rec)
      ensures Solves(v, poc.evec) <==> Meets(v, l0, l1, rec)
    {
      hide Sound, Filed, Shape, OnRecord, Adds, Supplies, Partition, Exact, Equivalence, Meets, Core, Demands;
      if Solves(v, poc.evec) {
        SolutionMeets(v, l0, l1, rec);
      }
      if Meets(v, l0, l1, rec) {
        forall d | d in Demands(l0, l1, rec) ensures Holds(v, d) {
          DemandHolds(v, l0, l1, rec, d);
        }
        AddsSolved(v, poc.evec, Demands(l0, l1, rec));
      }
    }

    lemma DemandHolds(v: InstLocTr -> int, l0: InstLocTr, l1: InstLocTr, rec: Recorded, d: Clause<InstLocTr>)
      requires Meets(v, l0, l1, rec) && d in Demands(l0, l1, rec)
      ensures Holds(v, d)
    {
      hide Meets, SkeletonClauses, CheckClauses, SyncClauses, ClusterClauses, SeqClauses, Holds;
      if d in SkeletonClauses(l0, l1, rec.links0 + rec.links1) {
        SkeletonHolds(v, l0, l1, rec, d);
      } else if d in CheckClauses(rec.kills) {
        CheckHolds(v, l0, l1, rec, d);
      } else if d in SyncClauses(rec.sync) {
        SyncHolds(v, l0, l1, rec, d);
      } else if d in ClusterClauses(rec.cl, lockMap) {
        ClusterHolds(v, l0, l1, rec, d);
      } else {
        SeqHolds(v, l0, l1, rec, d);
      }
    }

    lemma SkeletonHolds(v: InstLocTr -> int, l0: InstLocTr, l1: InstLocTr, rec: Recorded, d: Clause<InstLocTr>)
      requires Meets(v, l0, l1, rec) && d in SkeletonClauses(l0, l1, rec.links0 + rec.links1)
      ensures Holds(v, d)
    {
      hide Holds;
      PairHolds(v, l0, l1);
      if d != [(l0, l1)] {
        var l :| l in rec.links0 + rec.links1 && l.esc.Some? && l.esc.value != l.fetch && d == [(l.esc.value, l.fetch)];
        PairHolds(v, l.esc.value, l.fetch);
      }
    }

    lemma CheckHolds(v: InstLocTr -> int, l0: InstLocTr, l1: InstLocTr, rec: Recorded, d: Clause<InstLocTr>)
      requires Meets(v, l0, l1, rec) && d in CheckClauses(rec.kills)
      ensures Holds(v, d)
    {
      hide Holds;
      var f :| f in rec.kills && d in KillClauses(f.c, f.kept);
      var k: InstLocTr :| k in f.kept && k != f.c && d == [(f.c, k)];
      PairHolds(v, f.c, k);
    }

    lemma SyncHolds(v: InstLocTr -> int, l0: InstLocTr, l1: InstLocTr, rec: Recorded, d: Clause<InstLocTr>)
      requires Meets(v, l0, l1, rec) && d in SyncClauses(rec.sync)
      ensures Holds(v, d)
    {
      hide Holds;
      var f :| f in rec.sync && d in BracketClauses(f.held, f.c, f.j);
      PairHolds(v, f.c, f.held[0].node);
      PairHolds(v, f.held[|f.held| - 1].node, f.j);
    }

    lemma ClusterHolds(v: InstLocTr -> int, l0: InstLocTr, l1: InstLocTr, rec: Recorded, d: Clause<InstLocTr>)
      requires Meets(v, l0, l1, rec) && d in ClusterClauses(rec.cl, lockMap)
      ensures Holds(v, d)
    {
      hide ExclusionClause, Regions, Holds;
      var i :| 0 <= i < |rec.cl| && d in ExclusionClauses(Regions(rec.cl[i], lockMap));
      var p, q :| p in Regions(rec.cl[i], lockMap) && q in Regions(rec.cl[i], lockMap) && p.0 != q.0 && p.1 != q.1
        && d == ExclusionClause(p, q);
      ExclusionMeans(v, p, q);
    }

    lemma SeqHolds(v: InstLocTr -> int, l0: InstLocTr, l1: InstLocTr, rec: Recorded, d: Clause<InstLocTr>)
      requires Meets(v, l0, l1, rec) && d in SeqClauses(State())
      ensures Holds(v, d)
    {
      hide Holds;
      var t :| 0 <= t < |trs| && d in ThreadClauses(State()[t]);
      var i :| 0 <= i < |trs[t].events| - 1 && d == NextClause(trs[t].events, i);
      PairHolds(v, trs[t].events[i].node, trs[t].events[i + 1].node);
    }

    lemma SolutionMeets(v: InstLocTr -> int, l0: InstLocTr, l1: InstLocTr, rec: Recorded)
      requires OnRecord(l0, l1, rec) && Solves(v, poc.evec)
      ensures Meets(v, l0, l1, rec)
    {
      hide ExclusionClause, Unique, ThreadOrdered, InThread, HeldAt, GrownSeq;
      var cs := poc.evec;
      forall t, i, j | 0 <= t < |trs| && 0 <= i < j < |trs[t].events|
        ensures v(trs[t].events[i].node) < v(trs[t].events[j].node)
      {
        SolutionFollowsThread(State()[t], cs, v, i, j);
      }
      Solved(v, l0, l1);
      forall l | l in rec.links0 + rec.links1 && l.esc.Some? && l.esc.value != l.fetch
        ensures v(l.esc.value) < v(l.fetch)
      {
        assert LinkAt(trs, State(), cs, l);
        Solved(v, l.esc.value, l.fetch);
      }
      forall f, k | f in rec.kills && k in f.kept && k != f.c ensures v(f.c) < v(k) {
        Solved(v, f.c, k);
      }
      forall i, p, q | 0 <= i < |rec.cl| && p in Regions(rec.cl[i], lockMap) && q in Regions(rec.cl[i], lockMap)
        && p.0 != q.0 && p.1 != q.1
        ensures v(p.1) < v(q.0) || v(q.1) < v(p.0)
      {
        assert ClusterExcluded(rec.cl[i], lockMap, cs);
        assert Holds(v, ExclusionClause(p, q));
        ExclusionMeans(v, p, q);
      }
      forall f | f in rec.sync && |f.held| > 0
        ensures v(f.c) < v(f.held[0].node) && v(f.held[|f.held| - 1].node) < v(f.j)
      {
        assert FactIn(f, State(), cs);
        Solved(v, f.c, f.held[0].node);
        Solved(v, f.held[|f.held| - 1].node, f.j);
      }
    }

    lemma Solved(v: InstLocTr -> int, a: InstLocTr, b: InstLocTr)
      requires Solves(v, poc.evec)
      ensures [(a, b)] in poc.evec ==> v(a) < v(b)
    {
      if [(a, b)] in poc.evec {
        assert Holds(v, [(a, b)]);
      }
    }

    /** What any solution of a finished schedule looks like. */
    ghost predicate Sensible(v: InstLocTr -> int, l0: InstLocTr, l1: InstLocTr, rec: Recorded)
      reads this, trs
    {
      // the free comes before the use
      && v(l0) < v(l1)
      // what a path links escapes before it is fetched and is fetched before it is used, all before the path's end
      && (forall l :: l in rec.links0 ==> Follows(v, l, l0))
      && (forall l :: l in rec.links1 ==> Follows(v, l, l1))
      // a condition check comes before what would defeat it
      && (forall f, k :: f in rec.kills && k in f.kept && k != f.c ==> v(f.c) < v(k))
      // regions of one lock never interleave
      && (forall i, p, q :: (0 <= i < |rec.cl| && p in Regions(rec.cl[i], lockMap) && q in Regions(rec.cl[i], lockMap)
                             && p.0 != q.0 && p.1 != q.1) ==> Apart(State(), v, p, q) || Apart(State(), v, q, p))
      // what a child thread held runs between its creation and its join
      && (forall f, i :: f in rec.sync && 0 <= i < |f.held| ==> v(f.c) < v(f.held[i].node) < v(f.j))
      && (forall f :: f in rec.sync ==> v(f.c) < v(f.j))
    }

    /** The schedule means what it was built for: every solution is sensible. */
    lemma SolutionsAreSensible(v: InstLocTr -> int, l0: InstLocTr, l1: InstLocTr, rec: Recorded)
      requires Built(l0, l1, rec) && Solves(v, poc.evec)
      ensures Sensible(v, l0, l1, rec)
    {
      hide Sound, Filed, Shape, SchedSpec.Ordered, Partition, Exact, Equivalence, Apart, ExclusionClause, Supplies,
           Demands, Adds, Linked, Core, LeadsTo, Follows;
      var st, cs := State(), poc.evec;
      Solved(v, l0, l1);
      PathFollows(v, l0, rec.links0);
      PathFollows(v, l1, rec.links1);
      forall f, k | f in rec.kills && k in f.kept && k != f.c ensures v(f.c) < v(k) {
        Solved(v, f.c, k);
      }
      forall i, p, q | 0 <= i < |rec.cl| && p in Regions(rec.cl[i], lockMap) && q in Regions(rec.cl[i], lockMap)
        && p.0 != q.0 && p.1 != q.1
        ensures Apart(st, v, p, q) || Apart(st, v, q, p)
      {
        assert ClusterExcluded(rec.cl[i], lockMap, cs);
        MutualExclusion(st, cs, v, p, q);
      }
      forall f, i | f in rec.sync && 0 <= i < |f.held| ensures v(f.c) < v(f.held[i].node) < v(f.j) {
        assert FactIn(f, st, cs);
        ChildRunsInside(f.held, st, f.t, cs, v, f.c, f.j, i);
      }
      forall f | f in rec.sync ensures v(f.c) < v(f.j) {
        assert FactIn(f, st, cs);
        PairInOrder(st, cs, v, f.c, f.j, TrCreate, TrJoin);
      }
    }

    lemma PathFollows(v: InstLocTr -> int, end: InstLocTr, links: seq<Link>)
      requires Linked(links) && LeadsTo(links, end) && SchedSpec.Ordered(State(), poc.evec) && Solves(v, poc.evec)
      ensures forall l :: l in links ==> Follows(v, l, end)
    {
      hide Linked, LeadsTo, SchedSpec.Ordered, Follows;
      forall l | l in links ensures Follows(v, l, end) {
        var k :| 0 <= k < |links| && links[k] == l;
        PathLeadsToEnd(v, end, links, k);
      }
    }

    /** In every solution each object of a path has escaped by the time it is fetched, has been fetched by the time it
        is used, and the whole path is done by the time its end is reached. */
    lemma {:induction false} PathLeadsToEnd(v: InstLocTr -> int, end: InstLocTr, links: seq<Link>, k: nat)
      requires Linked(links) && LeadsTo(links, end) && SchedSpec.Ordered(State(), poc.evec) && Solves(v, poc.evec)
      requires k < |links|
      ensures Follows(v, links[k], end)
      decreases k
    {
      hide SchedSpec.Ordered;
      LinkMeans(v, State(), poc.evec, links[k]);
      if links[k].use == end {
      } else {
        var j :| 0 <= j < k && links[j].esc == Some(links[k].use);
        PathLeadsToEnd(v, end, links, j);
      }
    }

    lemma LinkMeans(v: InstLocTr -> int, st: State<InstLocTr>, cs: seq<Clause<InstLocTr>>, l: Link)
      requires LinkAt(trs, st, cs, l) && SchedSpec.Ordered(st, cs) && Solves(v, cs)
      ensures v(l.fetch) <= v(l.use)
      ensures l.esc.Some? ==> v(l.esc.value) <= v(l.fetch) && (l.esc.value != l.fetch ==> v(l.esc.value) < v(l.fetch))
    {
      var k :| 0 <= k < |trs| && k < |st| && trs[k] == l.fetch.tr && NotAfter(st[k], l.fetch, l.use);
      SolutionBefore(st[k], cs, v, l.fetch, l.use);
      if l.esc.Some? && l.esc.value != l.fetch {
        assert Holds(v, [(l.esc.value, l.fetch)]);
      }
    }

    // ---- the two halves of a build ---------------------------------------------------------------

    /** The two nodes of the bug: the first one frees, the second one uses. */
    ghost predicate IsCore(floc: Loc, uloc: Loc, l0: InstLocTr, l1: InstLocTr)
      reads this, trs
    {
      && l0.loc == floc && l1.loc == uloc
      && MarkedAt(trs, State(), l0, Free) && MarkedAt(trs, State(), l1, Use)
    }

    lemma CoreStays(floc: Loc, uloc: Loc, l0: InstLocTr, l1: InstLocTr, ts: seq<Thread>, st: State<InstLocTr>)
      requires ts <= trs && |st| == |ts| && Grown(st, State())
      requires l0.loc == floc && l1.loc == uloc && MarkedAt(ts, st, l0, Free) && MarkedAt(ts, st, l1, Use)
      ensures IsCore(floc, uloc, l0, l1)
    {
      hide MarkedAt;
      MarkedStays(ts, st, trs, State(), l0, Free);
      MarkedStays(ts, st, trs, State(), l1, Use);
    }

    /** The first half of a build: the threads of the bug and the escape/fetch paths. */
    method Skeleton(floc: Loc, uloc: Loc, ep0: EqvPairs.EqvObjPair?, ep1: EqvPairs.EqvObjPair)
      returns (stage: Stage, l0: InstLocTr, l1: InstLocTr?, ghost rt: Route, ghost stuck: InstLocTr?)
      requires Valid() && Shape() && trs == [] && poc.evec == []
      modifies this`trs, poc
      ensures Valid() && Shape() && lockMap == old(lockMap)
      ensures forall k :: 0 <= k < |trs| ==> fresh(trs[k])
      ensures stage == InitFailed <==> Reach(g, floc, uloc, {}) && (floc == uloc || Reach(g, uloc, floc, {}))
      ensures stage in {InitFailed, PathFailed, Complete}
      ensures stage == PathFailed ==>
              !SameObject(ep0, ep1) && Misled(old(PathsOf(ep0)), old(ep1.paths), floc, uloc, stuck)
      ensures stage == Complete ==>
              l1 != null && l0.loc == floc && l1.loc == uloc && l0 != l1 && Owns(l0) && Owns(l1) && Precedes(l0, l1)
      ensures stage != InitFailed ==> l1 != null && IsCore(floc, uloc, l0, l1)
      ensures stage == Complete ==>
              Linked(rt.links0) && Linked(rt.links1)
                && Adds([], poc.evec, SkeletonClauses(l0, l1, rt.links0 + rt.links1))
      ensures stage == Complete ==> LeadsTo(rt.links0, l0) && LeadsTo(rt.links1, l1)
      ensures stage == Complete && SameObject(ep0, ep1) ==> rt.links0 == rt.links1 == []
      ensures stage == Complete && !SameObject(ep0, ep1) ==> Taken(old(PathsOf(ep0)), old(ep1.paths), rt, l0, l1)
    {
      hide Reach, WellFormed, GrownSeq, Shape, Sound, Filed, NotAfter, LinkAt, HeldAt, Owns, PathLinked, PathStuck,
           Linked, LinkClauses, Adds, SkeletonClauses, Grown, LeadsTo, Taken, Misled, SameObject, IsCore, MarkedAt;
      rt, stuck := Route([], [], [], []), null;
      var r;
      r, l0, l1 := InitUAFThreads(floc, Free, uloc, Use);
      assert forall k :: 0 <= k < |trs| ==> trs[k] in trs;
      if r < 0 {
        stage := InitFailed;
        return;
      }
      var u: InstLocTr := l1;
      ghost var ts, st, cs := trs, State(), poc.evec;
      OwnsIsHeld(l0);
      OwnsIsHeld(u);
      NewAreMarked(floc, uloc, l0, u);
      assert MarkedAt(ts, st, l0, Free) && MarkedAt(ts, st, l1, Use) && l0.loc == floc && l1.loc == uloc;
      r, rt, stuck := AddEFPaths(ep0, ep1, l0, u);
      CoreStays(floc, uloc, l0, u, ts, st);
      assert forall k :: 0 <= k < |trs| ==> trs[k] in trs;
      assert forall x :: x in cs ==> x in poc.evec;
      if r < 0 {
        stage := PathFailed;
        return;
      }
      LinksStay(ts, st, cs, [], l0, u);
      SkeletonAdds(l0, u, cs, rt.links0 + rt.links1);
      stage := Complete;
    }

    lemma NewAreMarked(floc: Loc, uloc: Loc, l0: InstLocTr, l1: InstLocTr)
      requires Shape() && l0.loc == floc && l1.loc == uloc && Owns(l0) && Owns(l1)
      requires || (|trs| == 1 && State() == [[Single(l0, floc, Free), Single(l1, uloc, Use)]])
               || (|trs| == 2 && State() == [[Single(l0, floc, Free)], [Single(l1, uloc, Use)]])
      ensures IsCore(floc, uloc, l0, l1)
      ensures MarkedAt(trs, State(), l0, Free) && MarkedAt(trs, State(), l1, Use)
    {
      hide WellFormed;
      var k, m := Of(l0.tr), Of(l1.tr);
      assert forall t, i :: 0 <= t < |trs| && 0 <= i < |trs[t].events| ==> trs[t].events[i].node.tr == trs[t];
      assert State()[0][0] == trs[0].events[0] && trs[0] == l0.tr;
      if |trs| == 1 {
        assert State()[0][1] == trs[0].events[1] && trs[0] == l1.tr;
      } else {
        assert State()[1][0] == trs[1].events[0] && trs[1] == l1.tr;
      }
    }

    lemma SkeletonAdds(l0: InstLocTr, l1: InstLocTr, cs: seq<Clause<InstLocTr>>, links: seq<Link>)
      requires cs == [[(l0, l1)]] && Adds(cs, poc.evec, LinkClauses(links))
      ensures Adds([], poc.evec, SkeletonClauses(l0, l1, links))
    {
      hide LinkClauses;
      AddsTrans([], cs, poc.evec, {[(l0, l1)]}, LinkClauses(links), SkeletonClauses(l0, l1, links));
    }

    /** The second half: locks and condition checks, thread creation and join, the order inside the
        threads. */
    method Completion(l0: InstLocTr, l1: InstLocTr, ghost links0: seq<Link>, ghost links1: seq<Link>)
      returns (stage: Stage, ghost rec: Recorded, ghost clash: Option<Clash>)
      requires Valid() && Shape() && l0 != l1 && Owns(l0) && Owns(l1) && Precedes(l0, l1)
      requires Linked(links0) && Linked(links1) && Adds([], poc.evec, SkeletonClauses(l0, l1, links0 + links1))
      requires LeadsTo(links0, l0) && LeadsTo(links1, l1) && IsCore(l0.loc, l1.loc, l0, l1)
      modifies this`trs, this`lockMap, trs, poc
      ensures Valid() && Shape()
      ensures stage == Infeasible || stage == Complete
      ensures IsCore(l0.loc, l1.loc, l0, l1)
      ensures stage == Infeasible ==> Clashes(clash)
      ensures stage == Complete ==> Built(l0, l1, rec) && rec.links0 == links0 && rec.links1 == links1
    {
      hide Reach, WellFormed, GrownSeq, Shape, Sound, Filed, NotAfter, LinkAt, HeldAt, Owns, Clashes, FactsIn,
           ClusterExcluded, Partition, Exact, Equivalence, SchedSpec.Ordered, SuppPhase, KillsExact, Adds, Linked,
           OnRecord, Supplies, NodesOf, LeadsTo, MarkedAt, Begins;
      ghost var ts, st1, cs1 := trs, State(), poc.evec;
      LinkedJoin(links0, links1);
      LinkedMeans(links0 + links1);
      CoreIsIn(l0, l1, links0 + links1);
      var r;
      ghost var done, made, kills, hist, rounds;
      r, clash, done, made, kills, hist, rounds := SuppWorklist();
      rec := Recorded(links0, links1, kills, {}, [], done, hist, st1);
      CoreStays(l0.loc, l1.loc, l0, l1, ts, st1);
      if r < 0 {
        stage := Infeasible;
        return;
      }
      ghost var st2, cs2 := State(), poc.evec;
      var cl := ExcludeClusters();
      ghost var cs3 := poc.evec;
      ghost var sync, more := AddSyncTrLocs();
      ghost var cs4 := poc.evec;
      GrownTrans(st1, st2, State());
      AddSeqConstraint();
      stage, rec := Complete, Recorded(links0, links1, kills, sync, cl, done, hist + more, st1);
      CoreStays(l0.loc, l1.loc, l0, l1, ts, st1);
      AddsPrefix(cs2, cs3, ClusterClauses(cl, lockMap));
      AddsPrefix(cs4, poc.evec, SeqClauses(State()));
      FinishRecord(l0, l1, rec, ts, st1, cs1, cs2, cs3, cs4);
      FinishExact(l0, l1, rec, cs1, cs2, cs3, cs4);
      FinishSupply(rec, st1, st2, cs2, made, hist, more);
      FinishStart(l0, l1, rec, ts, st1, st2, cs2, made, hist, more);
    }

    lemma FinishStart(l0: InstLocTr, l1: InstLocTr, rec: Recorded, ts: seq<Thread>, st1: State<InstLocTr>,
                      st2: State<InstLocTr>, cs2: seq<Clause<InstLocTr>>, made: set<InstLocTr>,
                      hist: set<State<InstLocTr>>, more: set<State<InstLocTr>>)
      requires ts == trs && |st1| == |ts| && MarkedAt(ts, st1, l0, Free) && MarkedAt(ts, st1, l1, Use)
      requires rec.start == st1 && rec.hist == hist + more && Grown(st1, st2) && Grown(st2, State()) && |st2| == |trs|
      requires SuppPhase(st1, st2, cs2, lockMap, rec.done, made, rec.kills, hist) && Passed(st2, State(), more)
      ensures Begins(l0, l1, rec)
    {
      hide GrownSeq, Supplied, NodesOf, MarkedAt;
      GrownTrans(st1, st2, State());
      forall s | s in rec.hist ensures Grown(st1, s) && |s| == |trs| {
        if s in more {
          GrownTrans(st1, st2, s);
        }
      }
    }

    /** The locations of the bug are nodes of the schedule. */
    lemma CoreIsIn(l0: InstLocTr, l1: InstLocTr, links: seq<Link>)
      requires Owns(l0) && Owns(l1) && Linked(links)
      ensures Core(l0, l1, links) <= NodesOf(State())
    {
      forall n | n in Core(l0, l1, links) ensures n in NodesOf(State()) {
        if n == l0 || n == l1 {
          OwnedIsIn(n);
        } else {
          var l :| l in links && (n == l.fetch || l.esc == Some(n));
          assert LinkAt(trs, State(), poc.evec, l);
        }
      }
    }

    /** Each thing recorded at some point of the build is still recorded at the end. */
    lemma FinishRecord(l0: InstLocTr, l1: InstLocTr, rec: Recorded, ts: seq<Thread>, st1: State<InstLocTr>,
                       cs1: seq<Clause<InstLocTr>>, cs2: seq<Clause<InstLocTr>>, cs3: seq<Clause<InstLocTr>>,
                       cs4: seq<Clause<InstLocTr>>)
      requires SchedSpec.Ordered(State(), poc.evec)
      requires l0 != l1 && [(l0, l1)] in cs1 && cs1 <= poc.evec && cs2 <= poc.evec && cs3 <= poc.evec && cs4 <= poc.evec
      requires ts == trs && |st1| == |ts| && Grown(st1, State())
      requires forall l :: l in rec.links0 + rec.links1 ==> LinkAt(ts, st1, cs1, l)
      requires KillsExact(cs1, cs2, rec.kills)
      requires forall i :: 0 <= i < |rec.cl| ==> ClusterExcluded(rec.cl[i], lockMap, cs3)
      requires FactsIn(rec.sync, State(), cs4)
      ensures OnRecord(l0, l1, rec)
    {
      hide SchedSpec.Ordered, FactsIn, LinkAt, ClusterExcluded;
      assert forall x :: x in cs1 ==> x in poc.evec;
      assert forall x :: x in cs2 ==> x in poc.evec;
      forall l | l in rec.links0 + rec.links1 ensures LinkAt(trs, State(), poc.evec, l) {
        LinkStays(ts, st1, cs1, trs, State(), poc.evec, l);
      }
      assert forall l :: l in rec.links0 || l in rec.links1 ==> l in rec.links0 + rec.links1;
      forall i | 0 <= i < |rec.cl| ensures ClusterExcluded(rec.cl[i], lockMap, poc.evec) {
        StillClusterExcluded(rec.cl[i], lockMap, cs3, poc.evec);
      }
      GrownRefl(State());
      FactsStay(rec.sync, State(), cs4, State(), poc.evec);
    }

    /** Nothing was recorded beside what was asked for. */
    lemma FinishExact(l0: InstLocTr, l1: InstLocTr, rec: Recorded, cs1: seq<Clause<InstLocTr>>,
                      cs2: seq<Clause<InstLocTr>>, cs3: seq<Clause<InstLocTr>>, cs4: seq<Clause<InstLocTr>>)
      requires Adds([], cs1, SkeletonClauses(l0, l1, rec.links0 + rec.links1)) && KillsExact(cs1, cs2, rec.kills)
      requires Adds(cs2, cs3, ClusterClauses(rec.cl, lockMap)) && Adds(cs3, cs4, SyncClauses(rec.sync))
      requires Adds(cs4, poc.evec, SeqClauses(State()))
      ensures Adds([], poc.evec, Demands(l0, l1, rec))
    {
      hide SkeletonClauses, ClusterClauses, SyncClauses, SeqClauses, KillClauses;
      var all := Demands(l0, l1, rec);
      assert Adds(cs1, cs2, CheckClauses(rec.kills)) by {
        hide Adds;
        KillsAdd(cs1, cs2, rec.kills);
      }
      hide Adds;
      AddsTrans([], cs1, cs2, SkeletonClauses(l0, l1, rec.links0 + rec.links1), CheckClauses(rec.kills), all);
      AddsTrans([], cs2, cs3, all, ClusterClauses(rec.cl, lockMap), all);
      AddsTrans([], cs3, cs4, all, SyncClauses(rec.sync), all);
      AddsTrans([], cs4, poc.evec, all, SeqClauses(State()), all);
    }

    /** What has been supplied stays so to the end. */
    lemma FinishSupply(rec: Recorded, st1: State<InstLocTr>, st2: State<InstLocTr>, cs2: seq<Clause<InstLocTr>>,
                       made: set<InstLocTr>, hist: set<State<InstLocTr>>, more: set<State<InstLocTr>>)
      requires SuppPhase(st1, st2, cs2, lockMap, rec.done, made, rec.kills, hist) && rec.hist == hist + more
      requires Grown(st2, State()) && |st2| == |trs| && cs2 <= poc.evec && Passed(st2, State(), more)
      requires forall t :: 0 <= t < |trs| ==> RangesDone(t, rec.sync, more)
      ensures Supplies(rec)
    {
      hide Supplied, GrownSeq, LocksLe, NodesOf, RangesDone;
      SameLocks(lockMap);
      forall n | n in rec.done ensures n.tr in trs
        && Supplied(State(), poc.evec, lockMap, Of(n.tr), n, rec.kills, rec.hist) {
        StaysSupplied(st2, cs2, lockMap, State(), poc.evec, lockMap, Of(n.tr), n, rec.kills, hist, rec.kills, rec.hist);
      }
      forall t | 0 <= t < |trs| ensures RangesDone(t, rec.sync, rec.hist) {
        RangesStayDone(t, rec.sync, more, rec.sync, rec.hist);
      }
      forall s | s in rec.hist ensures Grown(s, State()) {
        if s in hist {
          GrownTrans(s, st2, State());
        }
      }
    }

    /** GlobalState::validateUAF, up to the call of the solver. */
    method Build(floc: Loc, uloc: Loc, ep0: EqvPairs.EqvObjPair?, ep1: EqvPairs.EqvObjPair)
      returns (stage: Stage, l0: InstLocTr, l1: InstLocTr?, ghost rt: Route, ghost rec: Recorded,
               ghost clash: Option<Clash>, ghost stuck: InstLocTr?)
      requires Valid() && Shape() && trs == [] && poc.evec == []
      modifies this, poc
      ensures Valid()
      ensures stage == InitFailed <==> Reach(g, floc, uloc, {}) && (floc == uloc || Reach(g, uloc, floc, {}))
      ensures stage == PathFailed ==>
              !SameObject(ep0, ep1) && Misled(old(PathsOf(ep0)), old(ep1.paths), floc, uloc, stuck)
      ensures stage == Infeasible ==> Clashes(clash)
      ensures stage != InitFailed ==> l1 != null && IsCore(floc, uloc, l0, l1)
      ensures stage == Complete ==> Built(l0, l1, rec)
      ensures stage == Complete ==> rec.links0 == rt.links0 && rec.links1 == rt.links1
      ensures stage == Complete && SameObject(ep0, ep1) ==> rt.links0 == rt.links1 == []
      ensures stage == Complete && !SameObject(ep0, ep1) ==> Taken(old(PathsOf(ep0)), old(ep1.paths), rt, l0, l1)
    {
      hide Reach, WellFormed, Shape, Sound, Filed, Linked, Owns, PathLinked, PathStuck, Clashes, Built, Adds,
           SkeletonClauses, LeadsTo, Taken, Misled, SameObject;
      clash := None;
      stage, l0, l1, rt, stuck := Skeleton(floc, uloc, ep0, ep1);
      if stage != Complete {
        rec := Recorded(rt.links0, rt.links1, {}, {}, [], {}, {}, []);
        return;
      }
      var u: InstLocTr := l1;
      stage, rec, clash := Completion(l0, u, rt.links0, rt.links1);
    }
  }
}
