/** The walk up the hierarchy of an object: everything that embeds it or points to it, and what
    embeds or points to that, with a callback for every chain. */
module Hierarchy {
  import opened Constraints

  type Obj = nat
  type Link = (int, Obj)
  type Chain = seq<Link>

  /** The objects as the walk reads them.  `from` holds the fields that point to an object, with the
      field of the object they point at. */
  datatype Heap = Heap(
    objs: set<Obj>,
    host: Obj -> Option<Link>,
    from: Obj -> set<(Link, int)>,
    isLocal: Obj -> bool,
    ty: Obj -> nat,
    recurTy: Obj -> set<nat>)

  function Embedders(h: Heap, o: Obj): set<Link> {
    if h.host(o).Some? then {h.host(o).value} else {}
  }

  function Pointers(h: Heap, o: Obj, f: int): set<Link> {
    set u | u in h.from(o) && (u.1 == 0 || u.1 == f) :: u.0
  }

  /** Who is one step above field `f` of object `o`. */
  function Ups(h: Heap, o: Obj, f: int): set<Link> {
    Embedders(h, o) + Pointers(h, o, f)
  }

  ghost predicate Closed(h: Heap) {
    forall o, f, u :: o in h.objs && u in Ups(h, o, f) ==> u.1 in h.objs
  }

  /** Two objects the walk does not tell apart: the same one, or two nodes of one recursive type. */
  predicate Repeats(h: Heap, o: Obj, seen: Obj) {
    seen == o || h.ty(seen) in h.recurTy(o)
  }

  /** The last index of the history that repeats `o`; -1 when none does. */
  function LastRepeat(h: Heap, hist: Chain, o: Obj): (i: int)
    ensures -1 <= i < |hist|
    ensures i >= 0 ==> Repeats(h, o, hist[i].1)
    ensures forall j :: i < j < |hist| ==> !Repeats(h, o, hist[j].1)
  {
    if hist == [] then -1
    else if Repeats(h, o, hist[|hist| - 1].1) then |hist| - 1
    else LastRepeat(h, hist[..|hist| - 1], o)
  }

  /** valid_history: short, or all of different types. */
  ghost predicate ValidHistory(h: Heap, hist: Chain) {
    |hist| < 4 || forall i, j :: 0 <= i < j < |hist| ==> h.ty(hist[i].1) != h.ty(hist[j].1)
  }

  function Objs(c: Chain): set<Obj> {
    set i | 0 <= i < |c| :: c[i].1
  }

  /** A call of the callback: the chain, and the index its end loops back to or -1. */
  type Report = (Chain, int)

  lemma OneLess(h: Heap, hist: Chain, o: Obj, f: int)
    requires o in h.objs && LastRepeat(h, hist, o) < 0
    ensures h.objs - Objs(hist + [(f, o)]) < h.objs - Objs(hist)
  {
    var c := hist + [(f, o)];
    assert c[|hist|].1 == o && o in Objs(c);
    assert o !in Objs(hist);
    forall x | x in Objs(hist) ensures x in Objs(c) {
      var k :| 0 <= k < |hist| && hist[k].1 == x;
      assert c[k] == hist[k];
    }
    assert o in h.objs - Objs(hist) && o !in h.objs - Objs(c);
  }

  /** The reports the walk owes for the chains that go through field `f` of `o` next. */
  ghost predicate Reported(h: Heap, hist: Chain, o: Obj, f: int, c: Report)
    requires Closed(h) && o in h.objs
    decreases h.objs - Objs(hist)
  {
    !h.isLocal(o) &&
    var i := LastRepeat(h, hist, o);
    if i >= 0 then c == (hist, i)
    else
      OneLess(h, hist, o, f);
      var up := hist + [(f, o)];
      if !ValidHistory(h, up) || (forall u :: u in Ups(h, o, f) ==> h.isLocal(u.1)) then c == (up, -1)
      else exists u :: u in Ups(h, o, f) && Reported(h, up, u.1, u.0, c)
  }

  class Walk {
    const h: Heap
    var history: Chain
    /** All calls of the callback so far. */
    var calls: seq<Report>

    constructor (h: Heap)
      ensures this.h == h && history == [] && calls == []
    {
      this.h := h;
      history := [];
      calls := [];
    }

    /** in_hierarchy_history, adding the object when it is new. */
    method InHistory(o: Obj, f: int) returns (i: int)
      modifies `history
      ensures i == LastRepeat(h, old(history), o)
      ensures history == if i >= 0 then old(history) else old(history) + [(f, o)]
    {
      i := |history| - 1;
      while i >= 0
        invariant -1 <= i < |history| && history == old(history)
        invariant LastRepeat(h, history, o) == LastRepeat(h, history[..i + 1], o)
      {
        assert history[..i + 1][..i] == history[..i];
        if Repeats(h, o, history[i].1) {
          return;
        }
        i := i - 1;
      }
      assert history[..|history|] == history;
      history := history + [(f, o)];
    }

    /** valid_history. */
    method IsValid() returns (b: bool)
      ensures b <==> ValidHistory(h, history)
    {
      if |history| < 4 {
        return true;
      }
      var tys: set<nat> := {};
      for i := 0 to |history|
        invariant forall t :: t in tys <==> exists j :: 0 <= j < i && h.ty(history[j].1) == t
        invariant forall j, k :: 0 <= j < k < i ==> h.ty(history[j].1) != h.ty(history[k].1)
      {
        if h.ty(history[i].1) in tys {
          return false;
        }
        tys := tys + {h.ty(history[i].1)};
      }
      return true;
    }

    /** traverseHierarchy: every chain is reported, and only those; the history is put back, and the
        result is the number of calls made. */
    method Traverse(o: Obj, f: int) returns (r: nat)
      requires Closed(h) && o in h.objs
      modifies this
      ensures history == old(history)
      ensures old(calls) <= calls && r == |calls| - |old(calls)|
      ensures r == 0 <==> h.isLocal(o)
      ensures forall c :: c in calls[|old(calls)|..] <==> Reported(h, old(history), o, f, c)
      decreases h.objs - Objs(history), 0
    {
      if h.isLocal(o) {
        return 0;
      }
      ghost var hist, before := history, calls;
      var dind := InHistory(o, f);
      if dind >= 0 {
        calls := calls + [(history, dind)];
        assert calls[|before|..] == [(history, dind)];
        return 1;
      }
      OneLess(h, hist, o, f);
      var ok := IsValid();
      if !ok {
        calls := calls + [(history, -1)];
        assert calls[|before|..] == [(history, -1)];
        history := history[..|history| - 1];
        return 1;
      }
      r := Above(o, f);
      history := history[..|history| - 1];
    }

    /** Everything above an object that has just been entered in the history. */
    method Above(o: Obj, f: int) returns (r: nat)
      requires Closed(h) && o in h.objs
      modifies this
      ensures history == old(history)
      ensures old(calls) <= calls && r == |calls| - |old(calls)| && r > 0
      ensures forall c :: c in calls[|old(calls)|..] <==>
                if forall u :: u in Ups(h, o, f) ==> h.isLocal(u.1) then c == (old(history), -1)
                else exists u :: u in Ups(h, o, f) && Reported(h, old(history), u.1, u.0, c)
      decreases h.objs - Objs(history), 2
    {
      hide Reported;
      ghost var before := calls;
      assert Embedders(h, o) <= Ups(h, o, f) && Pointers(h, o, f) <= Ups(h, o, f);
      var r0 := VisitAll(Embedders(h, o));
      ghost var mid := calls;
      var r1 := VisitAll(Pointers(h, o, f));
      assert calls[|before|..] == mid[|before|..] + calls[|mid|..];
      r := r0 + r1;
      if r == 0 {
        calls := calls + [(history, -1)];
        assert calls[|before|..] == [(history, -1)];
        r := 1;
      }
    }

    method VisitAll(ups: set<Link>) returns (r: nat)
      requires Closed(h) && forall u :: u in ups ==> u.1 in h.objs
      modifies this
      ensures history == old(history)
      ensures old(calls) <= calls && r == |calls| - |old(calls)|
      ensures r == 0 <==> forall u :: u in ups ==> h.isLocal(u.1)
      ensures forall c :: c in calls[|old(calls)|..] <==> exists u :: u in ups && Reported(h, old(history), u.1, u.0, c)
      decreases h.objs - Objs(history), 1
    {
      hide Reported;
      r := 0;
      var todo := ups;
      ghost var before := calls;
      while todo != {}
        invariant todo <= ups && history == old(history) && before <= calls && r == |calls| - |before|
        invariant r == 0 <==> forall u :: u in ups - todo ==> h.isLocal(u.1)
        invariant forall c :: c in calls[|before|..] <==>
                  exists u :: u in ups - todo && Reported(h, old(history), u.1, u.0, c)
        decreases todo
      {
        var u :| u in todo;
        ghost var mid := calls;
        var n := Traverse(u.1, u.0);
        assert calls[|before|..] == mid[|before|..] + calls[|mid|..];
        todo := todo - {u};
        r := r + n;
      }
    }
  }

  // ---- what the reports are ------------------------------------------------------------------------

  /** No object repeats an earlier one, and none is local to a function. */
  ghost predicate Fresh(h: Heap, c: Chain, from: nat) {
    forall i :: from <= i < |c| ==> LastRepeat(h, c[..i], c[i].1) < 0 && !h.isLocal(c[i].1)
  }

  /** Each proper extension of the history was still believable when it was extended. */
  ghost predicate Believable(h: Heap, c: Chain, from: nat) {
    forall i :: from < i < |c| ==> ValidHistory(h, c[..i])
  }

  /** Why a chain ends: it is no longer believable, nothing but locals is above it, or what is above
      it is there already. */
  ghost predicate Ends(h: Heap, c: Chain, d: int) {
    c != [] &&
    var o, f := c[|c| - 1].1, c[|c| - 1].0;
    if !ValidHistory(h, c) || (forall u :: u in Ups(h, o, f) ==> h.isLocal(u.1)) then d == -1
    else d >= 0 && exists u :: u in Ups(h, o, f) && !h.isLocal(u.1) && d == LastRepeat(h, c, u.1)
  }

  ghost predicate LinkedFrom(h: Heap, c: Chain, from: nat) {
    forall i :: from < i < |c| ==> c[i] in Ups(h, c[i - 1].1, c[i - 1].0)
  }

  /** A complete chain that continues `hist` with field `f` of `o`. */
  ghost predicate Complete(h: Heap, hist: Chain, o: Obj, f: int, c: Chain, d: int) {
    hist + [(f, o)] <= c && Fresh(h, c, |hist|) && Believable(h, c, |hist|) && LinkedFrom(h, c, |hist|) && Ends(h, c, d)
  }

  lemma ExtendDown(h: Heap, hist: Chain, o: Obj, f: int, u: Link, c: Chain, d: int)
    requires var up := hist + [(f, o)];
             && !h.isLocal(o) && LastRepeat(h, hist, o) < 0 && ValidHistory(h, up)
             && u in Ups(h, o, f) && Complete(h, up, u.1, u.0, c, d)
    ensures Complete(h, hist, o, f, c, d)
  {
    hide ValidHistory, Ups, Ends, LastRepeat;
    var up := hist + [(f, o)];
    assert c[..|up|] == up && c[..|hist|] == hist && c[|up|] == u && c[|hist|] == (f, o);
  }

  lemma ExtendUp(h: Heap, hist: Chain, o: Obj, f: int, c: Chain, d: int) returns (u: Link)
    requires Complete(h, hist, o, f, c, d) && ValidHistory(h, hist + [(f, o)])
    requires exists u :: u in Ups(h, o, f) && !h.isLocal(u.1)
    ensures u in Ups(h, o, f) && !h.isLocal(u.1)
    ensures var up := hist + [(f, o)];
            if LastRepeat(h, up, u.1) >= 0 then (c, d) == (up, LastRepeat(h, up, u.1))
              else Complete(h, up, u.1, u.0, c, d)
  {
    hide ValidHistory, Ups, LastRepeat;
    var up := hist + [(f, o)];
    assert c[..|up|] == up && c[|hist|] == (f, o);
    if |c| == |up| {
      assert c == up;
      u :| u in Ups(h, o, f) && !h.isLocal(u.1) && d == LastRepeat(h, c, u.1);
    } else {
      u := c[|up|];
      assert up + [(u.0, u.1)] == c[..|up| + 1];
    }
  }

  lemma StopsAtOnce(h: Heap, hist: Chain, o: Obj, f: int, c: Chain, d: int)
    requires var up := hist + [(f, o)];
             h.isLocal(o) || !ValidHistory(h, up) || forall u :: u in Ups(h, o, f) ==> h.isLocal(u.1)
    requires LastRepeat(h, hist, o) < 0
    ensures Complete(h, hist, o, f, c, d) <==> !h.isLocal(o) && c == hist + [(f, o)] && d == -1
  {
    hide ValidHistory, Ups, LastRepeat;
    var up := hist + [(f, o)];
    assert up[..|hist|] == hist && up[|hist|] == (f, o);
    if Complete(h, hist, o, f, c, d) {
      assert c[..|up|] == up && c[|hist|] == (f, o) && c[..|hist|] == hist;
      assert |c| == |up| ==> c == up;
    }
  }

  /** The reports for a new object are exactly the complete chains through it. */
  lemma {:induction false} ReportedIsComplete(h: Heap, hist: Chain, o: Obj, f: int, c: Chain, d: int)
    requires Closed(h) && o in h.objs && LastRepeat(h, hist, o) < 0
    ensures Reported(h, hist, o, f, (c, d)) <==> Complete(h, hist, o, f, c, d)
    decreases h.objs - Objs(hist)
  {
    hide ValidHistory, Ups;
    var up := hist + [(f, o)];
    OneLess(h, hist, o, f);
    assert up[..|hist|] == hist && up[|hist|] == (f, o);
    if !h.isLocal(o) && ValidHistory(h, up) && !(forall u :: u in Ups(h, o, f) ==> h.isLocal(u.1)) {
      forall u | u in Ups(h, o, f) && !h.isLocal(u.1)
        ensures Reported(h, up, u.1, u.0, (c, d)) <==>
                if LastRepeat(h, up, u.1) >= 0 then (c, d) == (up, LastRepeat(h, up, u.1))
                  else Complete(h, up, u.1, u.0, c, d)
      {
        if LastRepeat(h, up, u.1) < 0 {
          ReportedIsComplete(h, up, u.1, u.0, c, d);
        }
      }
      if Reported(h, hist, o, f, (c, d)) {
        var u :| u in Ups(h, o, f) && Reported(h, up, u.1, u.0, (c, d));
        if LastRepeat(h, up, u.1) < 0 {
          ExtendDown(h, hist, o, f, u, c, d);
        } else {
          LoopsBack(h, hist, o, f, u);
        }
      }
      if Complete(h, hist, o, f, c, d) {
        var u := ExtendUp(h, hist, o, f, c, d);
        assert Reported(h, up, u.1, u.0, (c, d));
      }
    } else {
      StopsAtOnce(h, hist, o, f, c, d);
    }
  }

  lemma LoopsBack(h: Heap, hist: Chain, o: Obj, f: int, u: Link)
    requires var up := hist + [(f, o)];
             && !h.isLocal(o) && LastRepeat(h, hist, o) < 0 && ValidHistory(h, up)
             && u in Ups(h, o, f) && !h.isLocal(u.1) && LastRepeat(h, up, u.1) >= 0
    ensures Complete(h, hist, o, f, hist + [(f, o)], LastRepeat(h, hist + [(f, o)], u.1))
  {
    hide ValidHistory, Ups, LastRepeat;
    var up := hist + [(f, o)];
    assert up[..|hist|] == hist && up[|hist|] == (f, o);
  }

  // ---- the same in terms of the objects alone ---------------------------------------------------------

  /** `u` embeds the object `c.1`, or points to the whole of it or to its field `c.0`. */
  ghost predicate IsAbove(h: Heap, c: Link, u: Link) {
    h.host(c.1) == Some(u) || (u, 0) in h.from(c.1) || (u, c.0) in h.from(c.1)
  }

  lemma UpsMeans(h: Heap, c: Link, u: Link)
    ensures u in Ups(h, c.1, c.0) <==> IsAbove(h, c, u)
  {
  }

  /** The first `n` objects are of different types. */
  ghost predicate TypesDiffer(h: Heap, c: Chain, n: nat)
    requires n <= |c|
  {
    forall i, j :: 0 <= i < j < n ==> h.ty(c[i].1) != h.ty(c[j].1)
  }

  lemma BelievableMeans(h: Heap, c: Chain, n: nat)
    requires n <= |c|
    ensures ValidHistory(h, c[..n]) <==> n <= 3 || TypesDiffer(h, c, n)
  {
    if TypesDiffer(h, c, n) {
    } else {
      var i, j :| 0 <= i < j < n && h.ty(c[i].1) == h.ty(c[j].1);
      assert c[..n][i] == c[i] && c[..n][j] == c[j];
    }
  }

  /** Index `d` is the last one below `n` whose object is `o` or of a recursive type of `o`. */
  ghost predicate LoopsTo(h: Heap, c: Chain, n: nat, o: Obj, d: int)
    requires n <= |c|
  {
    && 0 <= d < n && (c[d].1 == o || h.ty(c[d].1) in h.recurTy(o))
    && forall j :: d < j < n ==> c[j].1 != o && h.ty(c[j].1) !in h.recurTy(o)
  }

  lemma RepeatMeans(h: Heap, c: Chain, n: nat, o: Obj, d: int)
    requires n <= |c|
    ensures d >= 0 && LastRepeat(h, c[..n], o) == d <==> LoopsTo(h, c, n, o, d)
    ensures LastRepeat(h, c[..n], o) < 0 <==>
            forall j :: 0 <= j < n ==> c[j].1 != o && h.ty(c[j].1) !in h.recurTy(o)
  {
    var i := LastRepeat(h, c[..n], o);
    assert forall j :: 0 <= j < n ==> c[..n][j] == c[j];
    assert forall j :: i < j < n ==> !Repeats(h, o, c[..n][j].1);
    if LoopsTo(h, c, n, o, d) {
      assert Repeats(h, o, c[..n][d].1);
    }
  }

  lemma EndsMeans(h: Heap, c: Chain, d: int)
    requires c != []
    ensures Ends(h, c, d) <==>
            var end := c[|c| - 1];
            if (|c| > 3 && !TypesDiffer(h, c, |c|)) || (forall u :: IsAbove(h, end, u) ==> h.isLocal(u.1))
            then d == -1
            else exists u :: IsAbove(h, end, u) && !h.isLocal(u.1) && LoopsTo(h, c, |c|, u.1, d)
  {
    hide ValidHistory, Ups, LastRepeat, IsAbove, TypesDiffer, LoopsTo;
    assert c[..|c|] == c;
    BelievableMeans(h, c, |c|);
    var end := c[|c| - 1];
    forall u ensures u in Ups(h, end.1, end.0) <==> IsAbove(h, end, u) {
      UpsMeans(h, end, u);
    }
    forall x ensures d >= 0 && LastRepeat(h, c, x) == d <==> LoopsTo(h, c, |c|, x, d) {
      RepeatMeans(h, c, |c|, x, d);
    }
  }

  /** A complete chain continues the history with the field of the object; nothing that is new in it is local,
      occurs before it or is of a type that counts as that of something before it; each link embeds what is below it
      or points there; once there are four links their types differ, except perhaps with the last one; and the chain
      ends where they do not, where only locals are above, or where it meets itself. */
  lemma CompleteMeans(h: Heap, hist: Chain, o: Obj, f: int, c: Chain, d: int)
    ensures Complete(h, hist, o, f, c, d) <==>
            && |hist| < |c| && c[..|hist|] == hist && c[|hist|] == (f, o)
            && (forall i :: |hist| <= i < |c| ==> !h.isLocal(c[i].1))
            && (forall i, j :: |hist| <= i < |c| && 0 <= j < i ==>
                  c[j].1 != c[i].1 && h.ty(c[j].1) !in h.recurTy(c[i].1))
            && (forall i :: |hist| < i < |c| ==> IsAbove(h, c[i - 1], c[i]))
            && (forall n :: |hist| < n < |c| && 3 < n ==> TypesDiffer(h, c, n))
            && var end := c[|c| - 1];
               if (|c| > 3 && !TypesDiffer(h, c, |c|)) || (forall u :: IsAbove(h, end, u) ==> h.isLocal(u.1))
               then d == -1
               else exists u :: IsAbove(h, end, u) && !h.isLocal(u.1) && LoopsTo(h, c, |c|, u.1, d)
  {
    hide ValidHistory, Ups, LastRepeat, IsAbove, TypesDiffer, LoopsTo, Ends;
    var up := hist + [(f, o)];
    if up <= c {
      assert c[..|up|] == up && c[|hist|] == up[|hist|];
      assert c[..|hist|] == up[..|hist|] == hist;
    }
    if c != [] {
      EndsMeans(h, c, d);
    }
    forall x, u | 0 <= x < |c| ensures u in Ups(h, c[x].1, c[x].0) <==> IsAbove(h, c[x], u) {
      UpsMeans(h, c[x], u);
    }
    forall n | 0 <= n <= |c| ensures ValidHistory(h, c[..n]) <==> n <= 3 || TypesDiffer(h, c, n) {
      BelievableMeans(h, c, n);
    }
    forall i | 0 <= i < |c|
      ensures LastRepeat(h, c[..i], c[i].1) < 0 <==>
              forall j :: 0 <= j < i ==> c[j].1 != c[i].1 && h.ty(c[j].1) !in h.recurTy(c[i].1)
    {
      RepeatMeans(h, c, i, c[i].1, 0);
    }
  }
}
