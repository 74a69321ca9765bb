/** Does every way from a block to the return follow a killer sequence?

    A killer sequence is a path of basic blocks that gives a callee a return value no caller check
    accepts.  Blocks are the nodes of a control-flow graph here. */
module KillerPaths {
  import opened Cfg

  type Path = seq<Loc>

  /** `q` continues `p` along edges and never enters a block it has been to. */
  ghost predicate Continues(g: Graph, p: Path, q: Path) {
    && p <= q
    && (forall i :: 0 < |p| <= i < |q| ==> q[i] in g.Succ(q[i - 1]) && q[i] !in q[..i])
  }

  /** The two paths agree as far as both go. */
  predicate Compatible(p: Path, e: Path) {
    e <= p || p <= e
  }

  ghost predicate LeftAll(q: Path, ks: set<Path>) {
    forall e :: e in ks ==> !Compatible(q, e)
  }

  /** Some loop-free continuation of `p` has left every killer sequence. */
  ghost predicate Escapes(g: Graph, p: Path, ks: set<Path>) {
    exists q :: p < q && Continues(g, p, q) && LeftAll(q, ks)
  }

  lemma EscapesThrough(g: Graph, p: Path, ks: set<Path>)
    requires p != []
    ensures Escapes(g, p, ks) <==>
            exists s :: s in g.Succ(p[|p| - 1]) && s !in p && (LeftAll(p + [s], ks) || Escapes(g, p + [s], ks))
  {
    if Escapes(g, p, ks) {
      var q :| p < q && Continues(g, p, q) && LeftAll(q, ks);
      var s := q[|p|];
      assert q[..|p|] == p && p + [s] <= q;
      assert s in g.Succ(p[|p| - 1]) && s !in p;
      if q != p + [s] {
        assert Continues(g, p + [s], q);
      }
    }
    if s :| s in g.Succ(p[|p| - 1]) && s !in p && (LeftAll(p + [s], ks) || Escapes(g, p + [s], ks)) {
      var p' := p + [s];
      assert p'[..|p|] == p && Continues(g, p, p');
      if !LeftAll(p', ks) {
        var q :| p' < q && Continues(g, p', q) && LeftAll(q, ks);
        assert q[|p|] == s && q[..|p|] == p;
        assert Continues(g, p, q);
      }
    }
  }

  /** A path that contains a whole killer sequence has no escape. */
  lemma CaughtForGood(g: Graph, p: Path, ks: set<Path>, e: Path)
    requires e in ks && e <= p
    ensures !Escapes(g, p, ks)
  {
    forall q | p < q ensures !LeftAll(q, ks) {
      assert e <= q;
    }
  }

  class Search {
    const g: Graph
    /** The current path; it is extended and shortened in place. */
    var cp: Path

    constructor (g: Graph, cp: Path)
      ensures this.g == g && this.cp == cp
    {
      this.g := g;
      this.cp := cp;
    }

    /** The inner loop: the current path against all killer sequences, in any order.  It stops at the
        first one that agrees; only a contained one ends the exploration. */
    method Judge(kseqs: set<Path>) returns (esc: bool, more: bool)
      ensures esc <==> LeftAll(cp, kseqs)
      ensures !more ==> exists e :: e in kseqs && e <= cp
    {
      var todo := kseqs;
      while todo != {}
        invariant todo <= kseqs
        invariant forall e :: e in kseqs - todo ==> !Compatible(cp, e)
        decreases todo
      {
        var e :| e in todo;
        todo := todo - {e};
        if e <= cp {
          return false, false;
        }
        if cp <= e {
          return false, true;
        }
      }
      return true, true;
    }

    /** GlobalState::_escapeKseq.  On a negative answer the current path is as it was. */
    method EscapeKseq(kseqs: set<Path>) returns (b: bool)
      modifies this
      ensures b <==> old(cp) == [] || Escapes(g, old(cp), kseqs)
      ensures !b ==> cp == old(cp)
      decreases g.Nodes() - (set x | x in cp), 1
    {
      if cp == [] {
        return true;
      }
      hide Escapes, LeftAll;
      var currBB := cp[|cp| - 1];
      EscapesThrough(g, cp, kseqs);
      if g.Succ(currBB) == {} {
        return false;
      }
      var toDo;
      b, toDo := StepAll(kseqs);
      if b {
        return;
      }
      b := ExploreAll(toDo, kseqs);
    }

    /** The second loop: on from every successor that is left to explore. */
    method ExploreAll(succs: set<Loc>, kseqs: set<Path>) returns (b: bool)
      requires cp != [] && succs <= g.Succ(cp[|cp| - 1]) && forall s :: s in succs ==> s !in cp
      modifies this
      ensures b <==> exists s :: s in succs && Escapes(g, old(cp) + [s], kseqs)
      ensures !b ==> cp == old(cp)
      decreases g.Nodes() - (set x | x in cp), 0
    {
      hide Escapes;
      ghost var p := cp;
      var toDo := succs;
      while toDo != {}
        invariant cp == p && toDo <= succs
        invariant forall s :: s in succs - toDo ==> !Escapes(g, p + [s], kseqs)
        decreases toDo
      {
        var e :| e in toDo;
        cp := cp + [e];
        OneLessToVisit(g, p, e);
        b := EscapeKseq(kseqs);
        if b {
          return;
        }
        cp := cp[..|cp| - 1];
        toDo := toDo - {e};
      }
      assert succs - toDo == succs;
      return false;
    }

    /** The first loop: one step to every successor not on the path.  What has neither left all
        sequences nor contains one is to be explored. */
    method StepAll(kseqs: set<Path>) returns (b: bool, toDo: set<Loc>)
      requires cp != []
      modifies this
      ensures b <==> exists s :: s in g.Succ(old(cp)[|old(cp)| - 1]) && s !in old(cp) && LeftAll(old(cp) + [s], kseqs)
      ensures !b ==> cp == old(cp) && toDo <= g.Succ(cp[|cp| - 1]) && forall s :: s in toDo ==> s !in cp
      ensures !b ==> forall s :: s in g.Succ(cp[|cp| - 1]) && s !in cp && s !in toDo ==> !Escapes(g, cp + [s], kseqs)
    {
      hide Escapes, LeftAll;
      ghost var p := cp;
      var succs := g.Succ(cp[|cp| - 1]);
      var rest := succs;
      toDo := {};
      while rest != {}
        invariant rest <= succs && cp == p
        invariant toDo <= succs - rest && forall s :: s in toDo ==> s !in p
        invariant forall s :: s in succs - rest && s !in p ==> !LeftAll(p + [s], kseqs)
        invariant forall s :: s in succs - rest && s !in p && s !in toDo ==> !Escapes(g, p + [s], kseqs)
        decreases rest
      {
        var succBB :| succBB in rest;
        rest := rest - {succBB};
        if succBB in cp {
          continue;
        }
        cp := cp + [succBB];
        var esc, contExplore := Judge(kseqs);
        if esc {
          return true, toDo;
        }
        if contExplore {
          toDo := toDo + {succBB};
        } else {
          ghost var e :| e in kseqs && e <= cp;
          CaughtForGood(g, cp, kseqs, e);
        }
        cp := cp[..|cp| - 1];
      }
      return false, toDo;
    }
  }

  lemma OneLessToVisit(g: Graph, p: Path, e: Loc)
    requires p != [] && e in g.Succ(p[|p| - 1]) && e !in p
    ensures g.Nodes() - (set x | x in p + [e]) < g.Nodes() - (set x | x in p)
  {
    assert e in g.Nodes() - (set x | x in p) && e !in g.Nodes() - (set x | x in p + [e]);
  }

  // ---- what the answer means ----------------------------------------------------------------------

  /** A killer sequence follows the edges of the graph; wherever it ends, at a return or elsewhere. */
  ghost predicate IsWalk(g: Graph, e: Path) {
    e != [] && IsPath(g, e, {})
  }

  /** A loop-free way from `p` to the return. */
  ghost predicate Returns(g: Graph, p: Path, q: Path) {
    q != [] && Continues(g, p, q) && g.Succ(q[|q| - 1]) == {}
  }

  ghost predicate Killed(q: Path, ks: set<Path>) {
    exists e :: e in ks && e <= q
  }

  /** No escape: every loop-free way on to the return begins with a killer sequence. */
  lemma NoEscapeKills(g: Graph, p: Path, ks: set<Path>, q: Path)
    requires p != [] && !Escapes(g, p, ks) && (exists e :: e in ks && p <= e)
    requires forall e :: e in ks ==> IsWalk(g, e)
    requires Returns(g, p, q)
    ensures Killed(q, ks)
  {
    assert !LeftAll(q, ks) by {
      if p == q {
        var e :| e in ks && p <= e;
        assert Compatible(q, e);
      }
    }
    var e :| e in ks && Compatible(q, e);
    if q <= e {
      WalkEndsThere(g, e, q);
    }
  }

  lemma WalkEndsThere(g: Graph, e: Path, q: Path)
    requires IsWalk(g, e) && q <= e && q != [] && g.Succ(q[|q| - 1]) == {}
    ensures q == e
  {
    if |q| < |e| {
      InnerBlockGoesOn(g, e, |q| - 1);
    }
  }

  lemma InnerBlockGoesOn(g: Graph, e: Path, k: nat)
    requires IsPath(g, e, {}) && k + 1 < |e|
    ensures g.Succ(e[k]) != {}
  {
    assert e[k + 1] in g.Succ(e[k]);
  }

  lemma PrefixesAgree(e: Path, q: Path, r: Path)
    requires e <= r && q <= r
    ensures Compatible(q, e)
  {
    if |e| <= |q| {
      assert q[..|e|] == r[..|e|];
    } else {
      assert e[..|q|] == r[..|q|];
    }
  }

  /** An escape is final: no way that goes on from it begins with a killer sequence. */
  lemma EscapeIsFinal(g: Graph, p: Path, ks: set<Path>)
    requires Escapes(g, p, ks)
    ensures exists q :: p < q && Continues(g, p, q) && forall r :: q <= r ==> !Killed(r, ks)
  {
    var q :| p < q && Continues(g, p, q) && LeftAll(q, ks);
    forall r | q <= r ensures !Killed(r, ks) {
      forall e: Path | e <= r ensures Compatible(q, e) {
        PrefixesAgree(e, q, r);
      }
    }
  }

  /** The sequences of more than one block that start at `b`. */
  function StartingAt(kseqs: set<Path>, b: Loc): set<Path> {
    set e | e in kseqs && |e| > 1 && e[0] == b
  }

  /** What makes `b` a killer location. */
  ghost predicate Kills(g: Graph, kseqs: set<Path>, b: Loc) {
    [b] in kseqs || (StartingAt(kseqs, b) != {} && !Escapes(g, [b], StartingAt(kseqs, b)))
  }

  /** GlobalState::_getKlocsFromSeqs: the blocks from which the killer sequences are inevitable. */
  method GetKlocsFromSeqs(g: Graph, kseqs: set<Path>) returns (r: int, klocs: set<Loc>)
    ensures r == if kseqs == {} then -1 else 0
    ensures forall b :: b in klocs <==> Kills(g, kseqs, b)
  {
    hide Escapes;
    klocs := {};
    if kseqs == {} {
      return -1, {};
    }
    var starts: set<Loc> := {};
    var todo := kseqs;
    while todo != {}
      invariant todo <= kseqs
      invariant forall b :: b in klocs <==> [b] in kseqs - todo
      invariant forall b :: b in starts <==> StartingAt(kseqs - todo, b) != {}
      decreases todo
    {
      var e :| e in todo;
      ghost var done := kseqs - todo;
      todo := todo - {e};
      assert kseqs - todo == done + {e};
      OneMoreStart(done, e);
      if e == [] {
        continue;
      }
      if |e| <= 1 {
        assert e == [e[0]];
        klocs := klocs + {e[0]};
        continue;
      }
      starts := starts + {e[0]};
    }
    assert kseqs - todo == kseqs;
    ghost var all := starts;
    while starts != {}
      invariant starts <= all
      invariant forall b :: b in klocs <==>
                [b] in kseqs || (b in all - starts && !Escapes(g, [b], StartingAt(kseqs, b)))
      decreases starts
    {
      var sb :| sb in starts;
      starts := starts - {sb};
      var s := new Search(g, [sb]);
      var esc := s.EscapeKseq(StartingAt(kseqs, sb));
      if !esc {
        klocs := klocs + {sb};
      }
    }
    r := 0;
  }

  lemma OneMoreStart(done: set<Path>, e: Path)
    ensures forall b :: StartingAt(done + {e}, b) != {} <==> StartingAt(done, b) != {} || (|e| > 1 && e[0] == b)
  {
    forall b ensures StartingAt(done + {e}, b) == StartingAt(done, b) + (if |e| > 1 && e[0] == b then {e} else {}) {
    }
  }

  /** Whoever steps on a killer location is killed: every loop-free way from it to the return begins
      with one of the killer sequences. */
  lemma KillerLocationsAreInevitable(g: Graph, kseqs: set<Path>, b: Loc, q: Path)
    requires forall e :: e in kseqs ==> IsWalk(g, e)
    requires Kills(g, kseqs, b) && Returns(g, [b], q)
    ensures Killed(q, kseqs)
  {
    hide Escapes;
    if [b] in kseqs {
      assert [b] <= q;
    } else {
      var ks := StartingAt(kseqs, b);
      var e :| e in ks;
      assert [b] <= e;
      NoEscapeKills(g, [b], ks, q);
    }
  }
}
