/** Can an object be reached from global memory in a way that fits a thread? */
module GlobalEscape {
  import opened Cfg
  import opened Constraints
  import opened ThreadSpec
  import opened Threads
  import opened Traces

  type Obj = nat

  /** Where something was stored: nowhere known, outside all functions, or at a location. */
  datatype Where = Nowhere | Preset(id: nat) | At(loc: Loc)

  /** The objects as the search reads them: the global pointers to an object, the objects that point
      to it with the sites of the stores, and where an object was allocated. */
  datatype Heap = Heap(
    objs: set<Obj>,
    globals: Obj -> set<Where>,
    from: Obj -> set<Obj>,
    sites: (Obj, Obj) -> set<Where>,
    isLocal: Obj -> bool,
    isHeap: Obj -> bool,
    alloc: Obj -> Option<Loc>)

  ghost predicate Closed(h: Heap) {
    forall o, s :: o in h.objs && s in h.from(o) ==> s in h.objs
  }

  /** `src` reaches `dst` around `a`. */
  predicate Avoids(g: Graph, a: Loc, src: Where, dst: Where) {
    match (src, dst)
    case (At(x), At(y)) => Reach(g, x, y, {a})
    case (At(_), _) => false
    case (_, At(y)) => y == g.entry || (a != g.entry && Reach(g, g.entry, y, {a}))
    case (_, _) => true
  }

  /** _canRefSameHeapObj: one of the two can follow the other without a new allocation in between. */
  predicate CanRefSameHeapObj(g: Graph, a: Loc, l0: Where, l1: Where, dir: int) {
    (dir >= 0 && Avoids(g, a, l0, l1)) || (dir <= 0 && Avoids(g, a, l1, l0))
  }

  /** The store at `w` can concern the instance that is used at `refloc`. */
  predicate SameInstance(h: Heap, g: Graph, o: Obj, refloc: Where, w: Where) {
    w.Nowhere? || refloc.Nowhere? || h.alloc(o).None? || CanRefSameHeapObj(g, h.alloc(o).value, refloc, w, 0)
  }

  /** Control flow gets from one place to the other without an allocation at `a` on its way; what lies
      outside of all functions comes before the entry, and nothing comes back there from inside. */
  ghost predicate WithoutAlloc(g: Graph, a: Loc, src: Where, dst: Where) {
    match (src, dst)
    case (At(x), At(y)) => exists p :: IsPath(g, p, {}) && Joins(p, x, y) && forall i :: 0 < i < |p| - 1 ==> p[i] != a
    case (At(_), _) => false
    case (_, At(y)) => exists p :: IsPath(g, p, {}) && Joins(p, g.entry, y) && forall i :: 0 <= i < |p| - 1 ==>
      p[i] != a
    case (_, _) => true
  }

  lemma AvoidsMeans(g: Graph, a: Loc, src: Where, dst: Where)
    ensures Avoids(g, a, src, dst) <==> WithoutAlloc(g, a, src, dst)
  {
    hide Reach;
    if src.At? && dst.At? {
      ReachIffPath(g, src.loc, dst.loc, {a});
      if p :| IsPath(g, p, {a}) && Joins(p, src.loc, dst.loc) {
        assert IsPath(g, p, {});
      }
      if p :| IsPath(g, p, {}) && Joins(p, src.loc, dst.loc) && forall i :: 0 < i < |p| - 1 ==> p[i] != a {
        assert IsPath(g, p, {a});
      }
    } else if dst.At? {
      ReachIffPath(g, g.entry, dst.loc, {a});
      if p :| IsPath(g, p, {a}) && Joins(p, g.entry, dst.loc) && a != g.entry {
        assert IsPath(g, p, {});
      }
      if dst.loc == g.entry {
        assert IsPath(g, [dst.loc], {}) && Joins([dst.loc], g.entry, dst.loc);
      }
      if p :| IsPath(g, p, {}) && Joins(p, g.entry, dst.loc) && forall i :: 0 <= i < |p| - 1 ==> p[i] != a {
        assert IsPath(g, p, {a});
        assert |p| > 1 ==> p[0] != a;
      }
    }
  }

  /** Forwards that is asked of the first place, backwards of the second, and else of either. */
  lemma DirectionMeans(g: Graph, a: Loc, x: Where, y: Where)
    ensures CanRefSameHeapObj(g, a, x, y, 1) <==> WithoutAlloc(g, a, x, y)
    ensures CanRefSameHeapObj(g, a, x, y, -1) <==> WithoutAlloc(g, a, y, x)
    ensures CanRefSameHeapObj(g, a, x, y, 0) <==> WithoutAlloc(g, a, x, y) || WithoutAlloc(g, a, y, x)
  {
    hide Avoids, WithoutAlloc;
    AvoidsMeans(g, a, x, y);
    AvoidsMeans(g, a, y, x);
  }

  /** Two known sites can touch one instance of an object with a known allocation exactly if control flow
      gets from one of them to the other without a new allocation on its way. */
  lemma SameInstanceMeans(h: Heap, g: Graph, o: Obj, x: Where, y: Where)
    ensures SameInstance(h, g, o, x, y) <==>
            || x.Nowhere? || y.Nowhere? || h.alloc(o).None?
            || WithoutAlloc(g, h.alloc(o).value, x, y) || WithoutAlloc(g, h.alloc(o).value, y, x)
  {
    hide Avoids, WithoutAlloc;
    if h.alloc(o).Some? {
      AvoidsMeans(g, h.alloc(o).value, x, y);
      AvoidsMeans(g, h.alloc(o).value, y, x);
    }
  }

  function ProbeOf(n: nat, loc: Loc, rpos: int): Request {
    Request(loc, {}, true, false, if rpos < 0 then n - 1 else -1, if rpos > 0 && n > 0 then 0 else -1)
  }

  /** The thread after a store at `w` has been asked for; none when it does not fit. */
  function After(g: Graph, t: Trace, w: Where, pos: int): Option<Trace> {
    if !w.At? then Some(t)
    else
      var ec := InsertCode(g, t, ProbeOf(|t|, w.loc, pos));
      if !Accepted(ec) then None
      else if ec >= 0 then Some(t[..ec] + [Ev(w.loc, w.loc, {})] + t[ec..])
      else Some(t)
  }

  /** A store fits a thread where an ordinary insertion would put it, before the end or behind the beginning
      if that is asked; a new location stays in, as a bare node. */
  lemma AfterMeans(g: Graph, t: Trace, loc: Loc, pos: int)
    requires WellFormed(g, t)
    ensures var q, r := ProbeOf(|t|, loc, pos), After(g, t, At(loc), pos);
            && q.ty == {} && (q.start >= 0 <==> pos > 0 && t != []) && (q.stop >= 0 <==> pos < 0 && t != [])
            && (q.start >= 0 ==> q.start == 0) && (q.stop >= 0 ==> q.stop == |t| - 1)
            && (!ThreadSpec.Has(t, loc) ==> (r.Some? <==> Admissible(g, t, q)))
            && (!ThreadSpec.Has(t, loc) && r.Some? ==>
                exists k :: 0 <= k <= |t| && r.value == t[..k] + [Ev(loc, loc, {})] + t[k..])
            && (ThreadSpec.Has(t, loc) && r.Some? ==> r.value == t)
            && (forall k :: 0 <= k < |t| && t[k].loc == loc && (q.start >= 0 ==> Reach(g, t[0].loc, loc, {})) ==>
                            (r.Some? <==> InWindow(q, k)))
  {
    hide Reach, Admissible, FreshCode, SameCode;
    var q := ProbeOf(|t|, loc, pos);
    if !ThreadSpec.Has(t, loc) {
      InsertSucceedsIff(g, t, q);
      NewMeans(g, t, q, loc);
    }
    forall k | 0 <= k < |t| && t[k].loc == loc && (q.start >= 0 ==> Reach(g, t[0].loc, loc, {}))
      ensures After(g, t, At(loc), pos).Some? <==> InWindow(q, k)
    {
      PresentMeans(g, t, q, k, loc);
    }
  }

  lemma OneLess(h: Heap, his: seq<Obj>, s: Obj)
    requires s in h.objs && s !in his
    ensures h.objs - (set x | x in his + [s]) < h.objs - (set x | x in his)
  {
    assert s in h.objs - (set x | x in his) && s !in h.objs - (set x | x in his + [s]);
  }

  /** A global pointer is set to the object itself, at a place that fits the thread. */
  ghost predicate GlobalAt(h: Heap, g: Graph, o: Obj, t: Option<Trace>, pos: int) {
    exists w :: w in h.globals(o) && (t.None? || After(g, t.value, w, pos).Some?)
  }

  /** There is a chain of stores from the last object of `his` to global memory, through heap objects
      that are not in `his`, all of whose sites fit the thread together. */
  ghost predicate Escapes(h: Heap, g: Graph, his: seq<Obj>, refloc: Where, t: Option<Trace>, pos: int)
    requires Closed(h) && forall o :: o in his ==> o in h.objs
    decreases h.objs - (set x | x in his)
  {
    his != [] &&
    var o := his[|his| - 1];
    || GlobalAt(h, g, o, t, pos)
    || (exists s :: s in h.from(o) && EscapesTo(h, g, his, refloc, t, pos, s))
  }

  /** ... and the chain starts with a store into `s`. */
  ghost predicate EscapesTo(h: Heap, g: Graph, his: seq<Obj>, refloc: Where, t: Option<Trace>, pos: int, s: Obj)
    requires Closed(h) && his != [] && s in h.objs && forall o :: o in his ==> o in h.objs
    decreases h.objs - (set x | x in his), 0
  {
    var o := his[|his| - 1];
    s != o && !h.isLocal(s) && s !in his &&
    (OneLess(h, his, s);
     if t.None? then !h.isHeap(s) || Escapes(h, g, his + [s], Nowhere, None, pos)
     else exists w :: w in h.sites(o, s) && SameInstance(h, g, o, refloc, w) && After(g, t.value, w, pos).Some?
                      && (!h.isHeap(s) || Escapes(h, g, his + [s], w, After(g, t.value, w, pos), pos)))
  }

  // ---- what the question means -------------------------------------------------------------------

  /** One link of a chain: the object stored into, the site of the store, and the thread after it. */
  datatype Store = Store(into: Obj, site: Where, trace: Trace)

  /** The object in front of link `i`. */
  function Before(o: Obj, ss: seq<Store>, i: nat): Obj
    requires i <= |ss|
  {
    if i == 0 then o else ss[i - 1].into
  }

  /** The use the instance in front of link `i` is known by. */
  function RefBefore(refloc: Where, ss: seq<Store>, i: nat): Where
    requires i <= |ss|
  {
    if i == 0 then refloc else ss[i - 1].site
  }

  /** The thread in front of link `i`. */
  function ThreadBefore(t: Trace, ss: seq<Store>, i: nat): Trace
    requires i <= |ss|
  {
    if i == 0 then t else ss[i - 1].trace
  }

  /** The links run through objects that are not local and not seen before; the sites are those of stores
      between neighbours that can concern one instance, and the threads follow each other. */
  ghost predicate Linked(h: Heap, g: Graph, his: seq<Obj>, refloc: Where, t: Option<Trace>, pos: int, ss: seq<Store>)
    requires his != []
  {
    var o := his[|his| - 1];
    forall i :: 0 <= i < |ss| ==>
      && ss[i].into in h.from(Before(o, ss, i)) && !h.isLocal(ss[i].into)
      && ss[i].into !in his && (forall j :: 0 <= j < i ==> ss[j].into != ss[i].into)
      && (t.Some? ==>
            && ss[i].site in h.sites(Before(o, ss, i), ss[i].into)
            && SameInstance(h, g, Before(o, ss, i), RefBefore(refloc, ss, i), ss[i].site)
            && After(g, ThreadBefore(t.value, ss, i), ss[i].site, pos) == Some(ss[i].trace))
  }

  /** The chain goes through heap objects and ends in global memory: in an object that is not on the heap, or
      in one that a global pointer is set to at a place that fits the thread. */
  ghost predicate EndsGlobal(h: Heap, g: Graph, o: Obj, t: Option<Trace>, pos: int, ss: seq<Store>) {
    && (forall i :: 0 <= i < |ss| - 1 ==> h.isHeap(ss[i].into))
    && if ss != [] && !h.isHeap(ss[|ss| - 1].into) then true
       else GlobalAt(h, g, Before(o, ss, |ss|), if t.None? then None else Some(ThreadBefore(t.value, ss, |ss|)), pos)
  }

  ghost predicate IsChain(h: Heap, g: Graph, his: seq<Obj>, refloc: Where, t: Option<Trace>, pos: int, ss: seq<Store>)
    requires his != []
  {
    Linked(h, g, his, refloc, t, pos, ss) && EndsGlobal(h, g, his[|his| - 1], t, pos, ss)
  }

  /** The first link of a chain is one that can be there. */
  ghost predicate LinkOk(h: Heap, g: Graph, his: seq<Obj>, refloc: Where, t: Option<Trace>, pos: int, s: Store)
    requires his != []
  {
    var o := his[|his| - 1];
    && s.into in h.from(o) && !h.isLocal(s.into) && s.into !in his
    && (t.Some? ==>
        && s.site in h.sites(o, s.into) && SameInstance(h, g, o, refloc, s.site)
        && After(g, t.value, s.site, pos) == Some(s.trace))
  }

  function RestRef(t: Option<Trace>, s: Store): Where {
    if t.None? then Nowhere else s.site
  }

  function RestTrace(t: Option<Trace>, s: Store): Option<Trace> {
    if t.None? then None else Some(s.trace)
  }

  lemma LinkedSplits(h: Heap, g: Graph, his: seq<Obj>, refloc: Where, t: Option<Trace>, pos: int, s: Store,
                     ss: seq<Store>)
    requires his != []
    ensures Linked(h, g, his, refloc, t, pos, [s] + ss) <==>
            LinkOk(h, g, his, refloc, t, pos, s)
              && Linked(h, g, his + [s.into], RestRef(t, s), RestTrace(t, s), pos, ss)
  {
    hide Linked, LinkOk, RestRef, RestTrace;
    if Linked(h, g, his, refloc, t, pos, [s] + ss) {
      LinkedParts(h, g, his, refloc, t, pos, s, ss);
    }
    if LinkOk(h, g, his, refloc, t, pos, s) && Linked(h, g, his + [s.into], RestRef(t, s), RestTrace(t, s), pos, ss) {
      LinkedJoins(h, g, his, refloc, t, pos, s, ss);
    }
  }

  lemma LinkedParts(h: Heap, g: Graph, his: seq<Obj>, refloc: Where, t: Option<Trace>, pos: int, s: Store,
                    ss: seq<Store>)
    requires his != [] && Linked(h, g, his, refloc, t, pos, [s] + ss)
    ensures LinkOk(h, g, his, refloc, t, pos, s)
    ensures Linked(h, g, his + [s.into], RestRef(t, s), RestTrace(t, s), pos, ss)
  {
    hide After, SameInstance, Before, RefBefore, ThreadBefore;
    var all := [s] + ss;
    var o := his[|his| - 1];
    BeforeFirst(o, refloc, t, all);
    assert all[0] == s;
    forall i | 0 <= i < |ss|
      ensures ss[i].into !in his + [s.into] && (forall j :: 0 <= j < i ==> ss[j].into != ss[i].into)
      ensures ss[i].into in h.from(Before(s.into, ss, i)) && !h.isLocal(ss[i].into)
      ensures t.Some? ==>
                && ss[i].site in h.sites(Before(s.into, ss, i), ss[i].into)
                && SameInstance(h, g, Before(s.into, ss, i), RefBefore(s.site, ss, i), ss[i].site)
                && After(g, ThreadBefore(s.trace, ss, i), ss[i].site, pos) == Some(ss[i].trace)
    {
      BeforeMoves(o, refloc, t, s, ss, i);
      StillNew(his, s, ss, i);
    }
  }

  lemma StillNew(his: seq<Obj>, s: Store, ss: seq<Store>, i: nat)
    requires i < |ss| && ([s] + ss)[i + 1].into !in his
    requires forall j :: 0 <= j < i + 1 ==> ([s] + ss)[j].into != ([s] + ss)[i + 1].into
    ensures ss[i].into !in his + [s.into] && forall j :: 0 <= j < i ==> ss[j].into != ss[i].into
  {
    var all := [s] + ss;
    assert all[0] == s && all[i + 1] == ss[i];
    forall j | 0 <= j < i ensures ss[j].into != ss[i].into {
      assert all[j + 1] == ss[j];
    }
  }

  lemma LinkedJoins(h: Heap, g: Graph, his: seq<Obj>, refloc: Where, t: Option<Trace>, pos: int, s: Store,
                    ss: seq<Store>)
    requires his != [] && LinkOk(h, g, his, refloc, t, pos, s)
    requires Linked(h, g, his + [s.into], RestRef(t, s), RestTrace(t, s), pos, ss)
    ensures Linked(h, g, his, refloc, t, pos, [s] + ss)
  {
    hide After, SameInstance, Before, RefBefore, ThreadBefore;
    var all := [s] + ss;
    var o := his[|his| - 1];
    forall i | 0 <= i < |all|
      ensures all[i].into in h.from(Before(o, all, i)) && !h.isLocal(all[i].into)
      ensures all[i].into !in his && (forall j :: 0 <= j < i ==> all[j].into != all[i].into)
      ensures t.Some? ==>
                && all[i].site in h.sites(Before(o, all, i), all[i].into)
                && SameInstance(h, g, Before(o, all, i), RefBefore(refloc, all, i), all[i].site)
                && After(g, ThreadBefore(t.value, all, i), all[i].site, pos) == Some(all[i].trace)
    {
      BeforeFirst(o, refloc, t, all);
      if i > 0 {
        BeforeMoves(o, refloc, t, s, ss, i - 1);
        IntoIsNew(his, s, ss, i - 1);
      }
    }
  }

  lemma BeforeFirst(o: Obj, refloc: Where, t: Option<Trace>, all: seq<Store>)
    ensures Before(o, all, 0) == o && RefBefore(refloc, all, 0) == refloc
    ensures t.Some? ==> ThreadBefore(t.value, all, 0) == t.value
  {
  }

  /** What is in front of a link stays so when the chain gets a first link. */
  lemma BeforeMoves(o: Obj, refloc: Where, t: Option<Trace>, s: Store, ss: seq<Store>, i: nat)
    requires i < |ss|
    ensures var all := [s] + ss;
            && all[i + 1] == ss[i] && Before(o, all, i + 1) == Before(s.into, ss, i)
            && RefBefore(refloc, all, i + 1) == RefBefore(s.site, ss, i)
            && (t.Some? ==> ThreadBefore(t.value, all, i + 1) == ThreadBefore(s.trace, ss, i))
  {
  }

  lemma IntoIsNew(his: seq<Obj>, s: Store, ss: seq<Store>, i: nat)
    requires i < |ss| && ss[i].into !in his + [s.into] && forall j :: 0 <= j < i ==> ss[j].into != ss[i].into
    ensures ss[i].into !in his && forall j :: 0 <= j < i + 1 ==> ([s] + ss)[j].into != ss[i].into
  {
    assert s.into in his + [s.into];
    forall j | 0 <= j < i + 1 ensures ([s] + ss)[j].into != ss[i].into {
      if j > 0 {
        assert ([s] + ss)[j] == ss[j - 1];
      }
    }
  }

  lemma EndSplits(h: Heap, g: Graph, o: Obj, t: Option<Trace>, pos: int, s: Store, ss: seq<Store>)
    ensures EndsGlobal(h, g, o, t, pos, [s] + ss) <==>
            (ss == [] && !h.isHeap(s.into)) || (h.isHeap(s.into) && EndsGlobal(h, g, s.into, RestTrace(t, s), pos, ss))
  {
    hide GlobalAt;
    var all := [s] + ss;
    assert forall i :: 0 < i < |all| ==> all[i] == ss[i - 1];
    assert all[0] == s;
    assert Before(o, all, |all|) == Before(s.into, ss, |ss|);
    if EndsGlobal(h, g, o, t, pos, all) && ss != [] {
      assert h.isHeap(all[0].into);
      forall i | 0 <= i < |ss| - 1 ensures h.isHeap(ss[i].into) {
        assert all[i + 1] == ss[i];
      }
    }
  }

  /** The search asks whether there is a chain to global memory. */
  lemma {:induction false} EscapesMeans(h: Heap, g: Graph, his: seq<Obj>, refloc: Where, t: Option<Trace>, pos: int)
    requires Closed(h) && his != [] && forall o :: o in his ==> o in h.objs
    ensures Escapes(h, g, his, refloc, t, pos) <==> exists ss :: IsChain(h, g, his, refloc, t, pos, ss)
    decreases h.objs - (set x | x in his)
  {
    if Escapes(h, g, his, refloc, t, pos) {
      var ss := ChainOf(h, g, his, refloc, t, pos);
    }
    if ss :| IsChain(h, g, his, refloc, t, pos, ss) {
      ChainEscapes(h, g, his, refloc, t, pos, ss);
    }
  }

  lemma {:induction false} ChainOf(h: Heap, g: Graph, his: seq<Obj>, refloc: Where, t: Option<Trace>, pos: int)
    returns (ss: seq<Store>)
    requires Closed(h) && his != [] && forall o :: o in his ==> o in h.objs
    requires Escapes(h, g, his, refloc, t, pos)
    ensures IsChain(h, g, his, refloc, t, pos, ss)
    decreases h.objs - (set x | x in his), 1
  {
    hide After, SameInstance, Linked, EndsGlobal;
    var o := his[|his| - 1];
    if GlobalAt(h, g, o, t, pos) {
      ss := [];
      NoLinks(h, g, his, refloc, t, pos);
    } else {
      var s :| s in h.from(o) && EscapesTo(h, g, his, refloc, t, pos, s);
      ss := ChainVia(h, g, his, refloc, t, pos, s);
    }
  }

  lemma {:induction false} ChainVia(h: Heap, g: Graph, his: seq<Obj>, refloc: Where, t: Option<Trace>, pos: int, s: Obj)
    returns (ss: seq<Store>)
    requires Closed(h) && his != [] && forall o :: o in his ==> o in h.objs
    requires s in h.from(his[|his| - 1]) && EscapesTo(h, g, his, refloc, t, pos, s)
    ensures IsChain(h, g, his, refloc, t, pos, ss)
    decreases h.objs - (set x | x in his), 0
  {
    hide After, SameInstance, Linked, EndsGlobal;
    var o := his[|his| - 1];
    var first := Store(s, Nowhere, []);
    if t.Some? {
      var w :| w in h.sites(o, s) && SameInstance(h, g, o, refloc, w) && After(g, t.value, w, pos).Some?
               && (OneLess(h, his, s); !h.isHeap(s) || Escapes(h, g, his + [s], w, After(g, t.value, w, pos), pos));
      first := Store(s, w, After(g, t.value, w, pos).value);
    }
    var rest: seq<Store> := [];
    if h.isHeap(s) {
      OneLess(h, his, s);
      rest := ChainOf(h, g, his + [s], RestRef(t, first), RestTrace(t, first), pos);
    } else {
      NothingLinked(h, g, his + [s], RestRef(t, first), RestTrace(t, first), pos);
    }
    ss := [first] + rest;
    LinkedSplits(h, g, his, refloc, t, pos, first, rest);
    EndSplits(h, g, o, t, pos, first, rest);
  }

  lemma NothingLinked(h: Heap, g: Graph, his: seq<Obj>, refloc: Where, t: Option<Trace>, pos: int)
    requires his != []
    ensures Linked(h, g, his, refloc, t, pos, [])
  {
  }

  lemma NoLinks(h: Heap, g: Graph, his: seq<Obj>, refloc: Where, t: Option<Trace>, pos: int)
    requires his != [] && GlobalAt(h, g, his[|his| - 1], t, pos)
    ensures IsChain(h, g, his, refloc, t, pos, [])
  {
    hide GlobalAt;
  }

  lemma {:induction false} ChainEscapes(h: Heap, g: Graph, his: seq<Obj>, refloc: Where, t: Option<Trace>, pos: int,
                                        ss: seq<Store>)
    requires Closed(h) && his != [] && forall o :: o in his ==> o in h.objs
    requires IsChain(h, g, his, refloc, t, pos, ss)
    ensures Escapes(h, g, his, refloc, t, pos)
    decreases |ss|
  {
    hide After, SameInstance;
    if ss == [] {
    } else {
      var o, s, rest := his[|his| - 1], ss[0], ss[1..];
      assert ss == [s] + rest;
      LinkedSplits(h, g, his, refloc, t, pos, s, rest);
      EndSplits(h, g, o, t, pos, s, rest);
      OneLess(h, his, s.into);
      if h.isHeap(s.into) {
        ChainEscapes(h, g, his + [s.into], RestRef(t, s), RestTrace(t, s), pos, rest);
      }
      assert EscapesTo(h, g, his, refloc, t, pos, s.into);
    }
  }

  /** Taking the new node out again gives back what was there. */
  lemma SplicedOut<N>(s: seq<Ev<N>>, t: seq<Ev<N>>, k: nat, loc: Loc)
    requires k <= |s| && k < |t| && t == s[..k] + [t[k]] + s[k..] && t[k].loc == loc && t[k].ty == {} && Distinct(t)
    ensures ThreadSpec.Has(t, loc) && Removed(t, IndexOf(t, loc), TY_ALL) == s
  {
    assert t[k].loc == loc;
    assert IndexOf(t, loc) == k;
    assert t[k].ty - TY_ALL == {};
    assert t[..k] == s[..k] && t[k + 1..] == s[k..];
  }

  ghost function TraceOf(t: Thread?): Option<Trace>
    reads t
  {
    if t == null then None else Some(Bare(t.events))
  }

  /** The part of Thread::testLocInSeq that the search relies on. */
  method Test(t: Thread, w: Where, pos: int) returns (ok: bool)
    requires t.Valid()
    modifies t
    ensures t.Valid()
    ensures ok <==> After(t.g, Bare(old(t.events)), w, pos).Some?
    ensures ok ==> After(t.g, Bare(old(t.events)), w, pos) == Some(Bare(t.events))
    ensures !ok ==> t.events == old(t.events)
    ensures ok && |t.events| > |old(t.events)| ==>
              && w.At?
              && exists k :: 0 <= k <= |old(t.events)| && k < |t.events| &&
                             t.events[k].loc == w.loc && t.events[k].ty == {} &&
                             t.events == old(t.events)[..k] + [t.events[k]] + old(t.events)[k..]
    ensures ok && |t.events| <= |old(t.events)| ==> t.events == old(t.events)
  {
    hide InsertCode, WellFormed;
    if !w.At? {
      return true;
    }
    ghost var s := t.events;
    BareInsert(t.g, s, Thread.Probe(s, w.loc, pos));
    ok := t.TestLocInSeq(w.loc, pos);
    assert Thread.Probe(s, w.loc, pos) == ProbeOf(|s|, w.loc, pos);
    InsertCodeFacts(t.g, s, Thread.Probe(s, w.loc, pos));
    if ok && !ThreadSpec.Has(s, w.loc) {
      var k := InsertCode(t.g, s, Thread.Probe(s, w.loc, pos));
      BareSplice(s, k, t.events);
    }
  }

  lemma InsertCodeFacts<N>(g: Graph, s: seq<Ev<N>>, q: Request)
    requires Fits(s, q)
    ensures InsertCode(g, s, q) >= 0 <==> Accepted(InsertCode(g, s, q)) && !ThreadSpec.Has(s, q.loc)
  {
    hide Reach, Slot;
  }

  class Search {
    const h: Heap
    const g: Graph
    /** The objects on the way, extended and shortened in place. */
    var his: seq<Obj>

    constructor (h: Heap, g: Graph, his: seq<Obj>)
      ensures this.h == h && this.g == g && this.his == his
    {
      this.h := h;
      this.g := g;
      this.his := his;
    }

    ghost predicate Ready(t: Thread?)
      reads this, t
    {
      Closed(h) && (forall o :: o in his ==> o in h.objs) && (t != null ==> t.Valid() && t.g == g)
    }

    /** The global pointers to the object itself. */
    method ViaPointers(o: Obj, reflocs: Thread?, pos: int) returns (b: bool)
      requires Ready(reflocs)
      modifies reflocs
      ensures Ready(reflocs)
      ensures b <==>
              exists w :: w in h.globals(o) && (reflocs == null || After(g, old(TraceOf(reflocs)).value, w, pos).Some?)
      ensures !b && reflocs != null ==> reflocs.events == old(reflocs.events)
    {
      hide After, WellFormed;
      var todo := h.globals(o);
      while todo != {}
        invariant todo <= h.globals(o) && Ready(reflocs)
        invariant reflocs != null ==> reflocs.events == old(reflocs.events)
        invariant forall w :: w in h.globals(o) - todo ==>
                  reflocs != null && After(g, old(TraceOf(reflocs)).value, w, pos).None?
        decreases todo
      {
        var w :| w in todo;
        todo := todo - {w};
        if reflocs != null {
          var ok := Test(reflocs, w, pos);
          if !ok {
            continue;
          }
        }
        return true;
      }
      assert h.globals(o) - todo == h.globals(o);
      return false;
    }

    /** One store into `s`, at `w`. */
    method ViaSite(s: Obj, w: Where, refloc: Where, t: Thread, pos: int) returns (b: bool)
      requires Ready(t) && his != [] && s in h.objs && s !in his
      modifies this, t
      ensures Ready(t)
      ensures b <==>
              var o := old(his)[|old(his)| - 1];
              SameInstance(h, g, o, refloc, w) && After(g, Bare(old(t.events)), w, pos).Some?
              && (!h.isHeap(s) || Escapes(h, g, old(his) + [s], w, After(g, Bare(old(t.events)), w, pos), pos))
      ensures !b ==> his == old(his) && t.events == old(t.events)
      decreases h.objs - (set x | x in his), 0
    {
      hide After, WellFormed, Escapes, SameInstance;
      var prev := |t.events|;
      if !SameInstance(h, g, his[|his| - 1], refloc, w) {
        return false;
      }
      ghost var before := t.events;
      var ok := Test(t, w, pos);
      if !ok {
        return false;
      }
      if !h.isHeap(s) {
        return true;
      }
      OneLess(h, his, s);
      his := his + [s];
      b := HasGlobalEscape(w, t, pos);
      if b {
        return;
      }
      his := his[..|his| - 1];
      if |t.events| > prev {
        TakeBack(t, w.loc, before);
      }
    }

    /** The way back: the thread gets rid of the node that a failed attempt has put in. */
    method TakeBack(t: Thread, loc: Loc, ghost before: seq<Ev<InstLocTr>>)
      requires t.Valid()
      requires exists k :: 0 <= k <= |before| && k < |t.events| && t.events[k].loc == loc && t.events[k].ty == {}
                           && t.events == before[..k] + [t.events[k]] + before[k..]
      modifies t
      ensures t.Valid() && t.events == before
    {
      hide Reach;
      ghost var k :| 0 <= k <= |before| && k < |t.events| && t.events[k].loc == loc && t.events[k].ty == {}
                     && t.events == before[..k] + [t.events[k]] + before[k..];
      SplicedOut(before, t.events, k, loc);
      var r := t.RemoveLoc(loc, TY_ALL);
    }

    /** All stores into `s`. */
    method ViaObject(s: Obj, refloc: Where, reflocs: Thread?, pos: int) returns (b: bool)
      requires Ready(reflocs) && his != [] && s in h.objs
      modifies this, reflocs
      ensures Ready(reflocs)
      ensures b <==> EscapesTo(h, g, old(his), refloc, old(TraceOf(reflocs)), pos, s)
      ensures !b ==> his == old(his) && (reflocs != null ==> reflocs.events == old(reflocs.events))
      decreases h.objs - (set x | x in his), 1
    {
      hide After, WellFormed, Escapes, SameInstance;
      var o := his[|his| - 1];
      if s == o || h.isLocal(s) || s in his {
        return false;
      }
      if reflocs == null {
        if !h.isHeap(s) {
          return true;
        }
        OneLess(h, his, s);
        his := his + [s];
        b := HasGlobalEscape(Nowhere, null, pos);
        if !b {
          his := his[..|his| - 1];
        }
        return;
      }
      var t: Thread := reflocs;
      var todo := h.sites(o, s);
      while todo != {}
        invariant todo <= h.sites(o, s) && Ready(t) && his == old(his) && t.events == old(t.events)
        invariant forall w :: w in h.sites(o, s) - todo ==>
                    !(SameInstance(h, g, o, refloc, w) && After(g, Bare(t.events), w, pos).Some?
                      && (!h.isHeap(s) || Escapes(h, g, his + [s], w, After(g, Bare(t.events), w, pos), pos)))
        decreases todo
      {
        var w :| w in todo;
        todo := todo - {w};
        b := ViaSite(s, w, refloc, t, pos);
        if b {
          return;
        }
      }
      return false;
    }

    /** _hasGlobalEscape: it says yes exactly when there is an escape, and when it says no the history
        and the thread are as they were. */
    method HasGlobalEscape(refloc: Where, reflocs: Thread?, pos: int) returns (b: bool)
      requires Ready(reflocs)
      modifies this, reflocs
      ensures Ready(reflocs)
      ensures b <==> Escapes(h, g, old(his), refloc, old(TraceOf(reflocs)), pos)
      ensures !b ==> his == old(his) && (reflocs != null ==> reflocs.events == old(reflocs.events))
      decreases h.objs - (set x | x in his), 2
    {
      hide After, WellFormed, EscapesTo;
      if his == [] {
        return false;
      }
      var o := his[|his| - 1];
      b := ViaPointers(o, reflocs, pos);
      if b {
        return;
      }
      assert o in h.objs;
      var todo := h.from(o);
      while todo != {}
        invariant todo <= h.from(o) && Ready(reflocs) && his == old(his)
        invariant reflocs != null ==> reflocs.events == old(reflocs.events)
        invariant forall s :: s in h.from(o) - todo ==> !EscapesTo(h, g, his, refloc, old(TraceOf(reflocs)), pos, s)
        decreases todo
      {
        var s :| s in todo;
        todo := todo - {s};
        b := ViaObject(s, refloc, reflocs, pos);
        if b {
          return;
        }
      }
      return false;
    }
  }
}
