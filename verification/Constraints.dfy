/** The partial-order constraint system of a schedule.

    A clause is a list of disjuncts `a < b` over one integer per node; a solution gives every node
    an integer under which each clause has a true disjunct. */
module Constraints {

  datatype Option<+T> = None | Some(value: T)

  type Clause<N> = seq<(N, N)>

  ghost predicate Holds<N>(v: N -> int, c: Clause<N>) {
    exists d :: 0 <= d < |c| && v(c[d].0) < v(c[d].1)
  }

  ghost predicate Solves<N>(v: N -> int, cs: seq<Clause<N>>) {
    forall i :: 0 <= i < |cs| ==> Holds(v, cs[i])
  }

  /** The clause for one ordered pair: none when an end is missing or both ends are one node. */
  function OrderClauses<N(==)>(a: Option<N>, b: Option<N>): (r: seq<Clause<N>>) {
    if a.None? || b.None? || a == b then [] else [[(a.value, b.value)]]
  }

  /** The disjuncts that survive: both ends present and different. */
  function Kept<N(==)>(locs: seq<Option<N>>): (r: Clause<N>)
    ensures forall d :: 0 <= d < |r| ==> r[d].0 != r[d].1
  {
    if |locs| < 2 then []
    else (if locs[0].None? || locs[1].None? || locs[0] == locs[1] then [] else [(locs[0].value, locs[1].value)])
         + Kept(locs[2..])
  }

  lemma {:induction false} KeptSplit<N>(locs: seq<Option<N>>, k: nat)
    requires 2 * k + 2 <= |locs|
    ensures Kept(locs[..2 * k + 2]) ==
            Kept(locs[..2 * k]) + (if locs[2 * k].None? || locs[2 * k + 1].None? || locs[2 * k] == locs[2 * k + 1]
                                   then [] else [(locs[2 * k].value, locs[2 * k + 1].value)])
  {
    if k == 0 {
    } else {
      KeptSplit(locs[2..], k - 1);
      assert locs[..2 * k + 2][2..] == locs[2..][..2 * k];
      assert locs[..2 * k][2..] == locs[2..][..2 * k - 2];
    }
  }

  class POConstraint<N(==)> {
    var evec: seq<Clause<N>>

    constructor ()
      ensures evec == []
    {
      evec := [];
    }

    /** `i0` happens before `i1`. */
    method AddConstraint(i0: Option<N>, i1: Option<N>)
      modifies this
      ensures evec == old(evec) + OrderClauses(i0, i1)
    {
      if i0.None? || i1.None? {
        return;
      }
      if i0 == i1 {
        return;
      }
      evec := evec + [[(i0.value, i1.value)]];
    }

    /** locs[0] < locs[1] or locs[2] < locs[3] or ...; -1 when nothing is left to record. */
    method AddConstraintOr(locs: seq<Option<N>>) returns (r: int)
      modifies this
      ensures r == if |locs| < 4 || |locs| % 2 != 0 || Kept(locs) == [] then -1 else 0
      ensures evec == if r == 0 then old(evec) + [Kept(locs)] else old(evec)
    {
      if |locs| < 4 || |locs| % 2 != 0 {
        return -1;
      }
      var flt: Clause<N> := [];
      var i := 0;
      while 2 * i + 1 < |locs|
        invariant 2 * i <= |locs|
        invariant flt == Kept(locs[..2 * i]) && evec == old(evec)
      {
        KeptSplit(locs, i);
        if locs[2 * i].Some? && locs[2 * i + 1].Some? && locs[2 * i] != locs[2 * i + 1] {
          flt := flt + [(locs[2 * i].value, locs[2 * i + 1].value)];
        }
        i := i + 1;
      }
      assert locs[..2 * i] == locs;
      if flt == [] {
        return -1;
      }
      evec := evec + [flt];
      r := 0;
    }
  }

  lemma SolvesAppend<N>(v: N -> int, a: seq<Clause<N>>, b: seq<Clause<N>>)
    ensures Solves(v, a + b) <==> Solves(v, a) && Solves(v, b)
  {
    if Solves(v, a + b) {
      forall i | 0 <= i < |a| ensures Holds(v, a[i]) { assert (a + b)[i] == a[i]; }
      forall i | 0 <= i < |b| ensures Holds(v, b[i]) { assert (a + b)[|a| + i] == b[i]; }
    }
  }

  /** `ds` is `cs` with clauses of `more` behind it, and no others. */
  ghost predicate Adds<N>(cs: seq<Clause<N>>, ds: seq<Clause<N>>, more: set<Clause<N>>) {
    cs <= ds && forall i :: |cs| <= i < |ds| ==> ds[i] in more
  }

  lemma AddsNothing<N>(cs: seq<Clause<N>>, more: set<Clause<N>>)
    ensures Adds(cs, cs, more)
  {
  }

  lemma AddsMore<N>(cs: seq<Clause<N>>, ds: seq<Clause<N>>, a: set<Clause<N>>, all: set<Clause<N>>)
    requires Adds(cs, ds, a) && a <= all
    ensures Adds(cs, ds, all)
  {
  }

  lemma AddsPrefix<N>(cs: seq<Clause<N>>, ds: seq<Clause<N>>, more: set<Clause<N>>)
    requires Adds(cs, ds, more)
    ensures cs <= ds
  {
  }

  lemma AddsTrans<N>(cs: seq<Clause<N>>, ds: seq<Clause<N>>, es: seq<Clause<N>>, a: set<Clause<N>>, b: set<Clause<N>>,
                     all: set<Clause<N>>)
    requires Adds(cs, ds, a) && Adds(ds, es, b) && a <= all && b <= all
    ensures Adds(cs, es, all)
  {
    forall i | |cs| <= i < |es| ensures es[i] in all {
      if i < |ds| {
        assert es[i] == ds[i];
      }
    }
  }

  lemma AddsOne<N>(cs: seq<Clause<N>>, ds: seq<Clause<N>>, a: N, b: N, all: set<Clause<N>>)
    requires ds == cs + OrderClauses(Some(a), Some(b)) && (a != b ==> [(a, b)] in all)
    ensures Adds(cs, ds, all)
  {
  }
}
