/** Program locations and their control-flow graph.

    A location stands for an instruction together with its calling context.  `Reach` is the
    question every part of the analyser asks: can `src` reach `dst` along a path whose interior
    avoids a set of blockers?  Dominance and post-dominance are asked in the same terms. */
module Cfg {

  type Loc = nat

  datatype Graph = Graph(entry: Loc, succ: map<Loc, set<Loc>>) {
    function Succ(x: Loc): set<Loc> {
      if x in succ then succ[x] else {}
    }

    function Nodes(): set<Loc> {
      succ.Keys + (set x, y | x in succ && y in succ[x] :: y)
    }

    /** The locations control flow cannot leave: returns of the entry function. */
    function Exits(): set<Loc> {
      set x | x in Nodes() && Succ(x) == {}
    }
  }

  /** `p` follows the edges of `g` and its interior, the two ends excluded, avoids `blk`. */
  ghost predicate IsPath(g: Graph, p: seq<Loc>, blk: set<Loc>) {
    && |p| >= 1
    && (forall i :: 0 <= i < |p| - 1 ==> p[i + 1] in g.Succ(p[i]))
    && (forall i :: 0 < i < |p| - 1 ==> p[i] !in blk)
  }

  ghost predicate Joins(p: seq<Loc>, src: Loc, dst: Loc) {
    |p| >= 1 && p[0] == src && p[|p| - 1] == dst
  }

  function Expand(g: Graph, src: Loc, blk: set<Loc>, seen: set<Loc>): (r: set<Loc>)
    ensures seen <= r
    ensures seen <= g.Nodes() + {src} ==> r <= g.Nodes() + {src}
  {
    seen + (set x, y | x in seen && (x == src || x !in blk) && y in g.Succ(x) :: y)
  }

  /** The least set holding `seen` that is closed under leaving unblocked locations. */
  function Closure(g: Graph, src: Loc, blk: set<Loc>, seen: set<Loc>): (r: set<Loc>)
    requires seen <= g.Nodes() + {src}
    ensures seen <= r
    ensures Expand(g, src, blk, r) == r
    decreases g.Nodes() + {src} - seen
  {
    var next := Expand(g, src, blk, seen);
    if next == seen then seen else
      assert g.Nodes() + {src} - next < g.Nodes() + {src} - seen by {
        var y :| y in next && y !in seen;
        assert y in g.Nodes() + {src} - seen && y !in g.Nodes() + {src} - next;
      }
      Closure(g, src, blk, next)
  }

  /** InstLoc::reachable: `src` reaches `dst` around the blockers. */
  predicate Reach(g: Graph, src: Loc, dst: Loc, blk: set<Loc>) {
    dst in Closure(g, src, blk, {src})
  }

  /** InstLoc::dom on one entry: every path from the entry to `other` meets `l`. */
  predicate Dom(g: Graph, l: Loc, other: Loc, strict: bool) {
    if l == other then !strict else l == g.entry || !Reach(g, g.entry, other, {l})
  }

  /** InstLoc::postDom on one entry: every path from `other` to an exit meets `l`. */
  predicate PostDom(g: Graph, l: Loc, other: Loc, strict: bool) {
    if l == other then !strict
    else forall x | x in g.Exits() + {other} :: g.Succ(x) == {} ==> x == l || !Reach(g, other, x, {l})
  }

  lemma {:induction false} ClosureSound(g: Graph, src: Loc, blk: set<Loc>, seen: set<Loc>, dst: Loc)
    returns (p: seq<Loc>)
    requires seen <= g.Nodes() + {src}
    requires forall x :: x in seen ==> exists q :: IsPath(g, q, blk) && Joins(q, src, x)
    requires dst in Closure(g, src, blk, seen)
    ensures IsPath(g, p, blk) && Joins(p, src, dst)
    decreases g.Nodes() + {src} - seen
  {
    var next := Expand(g, src, blk, seen);
    if next == seen {
      p :| IsPath(g, p, blk) && Joins(p, src, dst);
    } else {
      forall y | y in next
        ensures exists q :: IsPath(g, q, blk) && Joins(q, src, y)
      {
        if y !in seen {
          var x :| x in seen && (x == src || x !in blk) && y in g.Succ(x);
          var q: seq<Loc> := [src];
          if x != src {
            q :| IsPath(g, q, blk) && Joins(q, src, x);
          }
          var q' := q + [y];
          assert IsPath(g, q', blk) && Joins(q', src, y);
        }
      }
      assert g.Nodes() + {src} - next < g.Nodes() + {src} - seen by {
        var y :| y in next && y !in seen;
        assert y in g.Nodes() + {src} - seen && y !in g.Nodes() + {src} - next;
      }
      p := ClosureSound(g, src, blk, next, dst);
    }
  }

  lemma {:induction false} ClosureComplete(g: Graph, src: Loc, blk: set<Loc>, p: seq<Loc>, k: nat)
    requires IsPath(g, p, blk) && p[0] == src && k < |p|
    ensures p[k] in Closure(g, src, blk, {src})
  {
    if k == 0 {
    } else {
      ClosureComplete(g, src, blk, p, k - 1);
      var r := Closure(g, src, blk, {src});
      assert p[k] in Expand(g, src, blk, r);
    }
  }

  /** The search answers exactly the path question. */
  lemma ReachIffPath(g: Graph, src: Loc, dst: Loc, blk: set<Loc>)
    ensures Reach(g, src, dst, blk) <==> exists p :: IsPath(g, p, blk) && Joins(p, src, dst)
  {
    if Reach(g, src, dst, blk) {
      assert IsPath(g, [src], blk) && Joins([src], src, src);
      var p := ClosureSound(g, src, blk, {src}, dst);
    }
    if exists p :: IsPath(g, p, blk) && Joins(p, src, dst) {
      var p :| IsPath(g, p, blk) && Joins(p, src, dst);
      ClosureComplete(g, src, blk, p, |p| - 1);
    }
  }

  lemma ReachTransitive(g: Graph, a: Loc, b: Loc, c: Loc)
    requires Reach(g, a, b, {}) && Reach(g, b, c, {})
    ensures Reach(g, a, c, {})
  {
    ReachIffPath(g, a, b, {});
    ReachIffPath(g, b, c, {});
    var p :| IsPath(g, p, {}) && Joins(p, a, b);
    var q :| IsPath(g, q, {}) && Joins(q, b, c);
    var r := p + q[1..];
    assert forall i :: 0 <= i < |r| - 1 ==> r[i + 1] in g.Succ(r[i]) by {
      forall i | 0 <= i < |r| - 1 ensures r[i + 1] in g.Succ(r[i]) {
        if i >= |p| - 1 {
          assert r[i] == q[i - (|p| - 1)] && r[i + 1] == q[i + 1 - (|p| - 1)];
        }
      }
    }
    assert IsPath(g, r, {}) && Joins(r, a, c);
    ReachIffPath(g, a, c, {});
  }

  /** Dominance is what its name says: no path from the entry gets around `l`. */
  lemma DomMeaning(g: Graph, l: Loc, other: Loc)
    requires l != other
    ensures Dom(g, l, other, true) <==> forall p :: IsPath(g, p, {}) && Joins(p, g.entry, other) ==> l in p
  {
    ReachIffPath(g, g.entry, other, {l});
    if !Dom(g, l, other, true) {
      var p :| IsPath(g, p, {l}) && Joins(p, g.entry, other);
      assert IsPath(g, p, {}) && l !in p;
    }
    forall p | IsPath(g, p, {}) && Joins(p, g.entry, other) && l !in p
      ensures !Dom(g, l, other, true)
    {
      assert IsPath(g, p, {l}) && p[0] in p;
    }
  }

  /** A location dominates itself unless the strict relation is meant. */
  lemma DomMeans(g: Graph, l: Loc, other: Loc, strict: bool)
    ensures Dom(g, l, other, strict) <==>
            (strict ==> l != other) && forall p :: IsPath(g, p, {}) && Joins(p, g.entry, other) ==> l in p
  {
    hide Reach;
    if l != other {
      DomMeaning(g, l, other);
    } else {
      assert forall p :: IsPath(g, p, {}) && Joins(p, g.entry, other) ==> p[|p| - 1] in p;
    }
  }

  ghost predicate LeavesThrough(g: Graph, p: seq<Loc>, from: Loc) {
    IsPath(g, p, {}) && p[0] == from && g.Succ(p[|p| - 1]) == {}
  }

  /** Post-dominance likewise: no path from `other` to an exit gets around `l`. */
  lemma PostDomMeaning(g: Graph, l: Loc, other: Loc)
    requires l != other
    ensures PostDom(g, l, other, true) <==> forall p :: LeavesThrough(g, p, other) ==> l in p
  {
    forall p | LeavesThrough(g, p, other) && l !in p
      ensures !PostDom(g, l, other, true)
    {
      var x := p[|p| - 1];
      ReachIffPath(g, other, x, {l});
      assert IsPath(g, p, {l}) && Joins(p, other, x) && x in p;
      if |p| > 1 {
        assert x in g.Succ(p[|p| - 2]);
      }
      assert x in g.Exits() + {other};
    }
    if !PostDom(g, l, other, true) {
      var x :| x in g.Exits() + {other} && g.Succ(x) == {} && x != l && Reach(g, other, x, {l});
      ReachIffPath(g, other, x, {l});
      var p :| IsPath(g, p, {l}) && Joins(p, other, x);
      assert LeavesThrough(g, p, other) && l !in p;
    }
  }

  lemma PostDomMeans(g: Graph, l: Loc, other: Loc, strict: bool)
    ensures PostDom(g, l, other, strict) <==>
            (strict ==> l != other) && forall p :: LeavesThrough(g, p, other) ==> l in p
  {
    hide Reach;
    if l != other {
      PostDomMeaning(g, l, other);
    } else {
      assert forall p :: LeavesThrough(g, p, other) ==> p[0] in p;
    }
  }
}
