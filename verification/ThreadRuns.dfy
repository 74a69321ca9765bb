/** Any run of insertions and removals on one thread. */
module ThreadRuns {
  import opened Cfg
  import opened ThreadSpec
  import opened SchedSpec

  /** One call; nodes are numbered in the order they are created. */
  datatype Op = Insert(q: Request) | Remove(k: nat, ty: Mask)

  function Step(g: Graph, s: seq<Ev<nat>>, op: Op, next: nat): seq<Ev<nat>> {
    match op
    case Insert(q) => if Fits(s, q) then Inserted(g, s, q, next) else s
    case Remove(k, ty) => if k < |s| then Removed(s, k, ty) else s
  }

  function Run(g: Graph, s: seq<Ev<nat>>, ops: seq<Op>, next: nat): seq<Ev<nat>>
    decreases |ops|
  {
    if ops == [] then s else Run(g, Step(g, s, ops[0], next), ops[1..], next + 1)
  }

  ghost predicate Older(s: seq<Ev<nat>>, next: nat) {
    forall i :: 0 <= i < |s| ==> s[i].node < next
  }

  /** Nodes of `s` that are still in `r` are there in their old order. */
  ghost predicate KeepsOrder(s: seq<Ev<nat>>, r: seq<Ev<nat>>) {
    forall i, j :: 0 <= i < j < |s| && Holding(r, s[i].node) && Holding(r, s[j].node)
                   ==> Before(r, s[i].node, s[j].node)
  }

  /** What `r` holds beyond `s` was created at `next` or later. */
  ghost predicate OnlyNew(s: seq<Ev<nat>>, r: seq<Ev<nat>>, next: nat) {
    forall i :: 0 <= i < |r| && r[i].node < next ==> Holding(s, r[i].node)
  }

  lemma SameNodesKeep(s: seq<Ev<nat>>, r: seq<Ev<nat>>, next: nat)
    requires |r| == |s| && forall i :: 0 <= i < |s| ==> r[i].node == s[i].node
    requires Older(s, next) && Unique(s)
    ensures Older(r, next) && Unique(r) && KeepsOrder(s, r) && OnlyNew(s, r, next)
  {
    forall i, j | 0 <= i < j < |s| ensures Before(r, s[i].node, s[j].node) {
      assert r[i].node == s[i].node && r[j].node == s[j].node;
    }
  }

  lemma SpliceKeeps(s: seq<Ev<nat>>, k: nat, e: Ev<nat>)
    requires k <= |s| && Older(s, e.node) && Unique(s)
    ensures var r := s[..k] + [e] + s[k..];
            Older(r, e.node + 1) && Unique(r) && KeepsOrder(s, r) && OnlyNew(s, r, e.node)
  {
    var r := s[..k] + [e] + s[k..];
    SplicedGrows(s, k, e);
    assert forall i :: 0 <= i < |r| ==> r[i] == if i < k then s[i] else if i == k then e else s[i - 1];
  }

  lemma EraseKeeps(s: seq<Ev<nat>>, k: nat, next: nat)
    requires k < |s| && Older(s, next) && Unique(s)
    ensures var r := s[..k] + s[k + 1..];
            Older(r, next) && Unique(r) && KeepsOrder(s, r) && OnlyNew(s, r, next)
  {
    var r := s[..k] + s[k + 1..];
    assert forall i :: 0 <= i < |r| ==> r[i] == if i < k then s[i] else s[i + 1];
    forall i, j | 0 <= i < j < |s| && Holding(r, s[i].node) && Holding(r, s[j].node)
      ensures Before(r, s[i].node, s[j].node)
    {
      assert i != k && j != k;
      assert r[if i < k then i else i - 1] == s[i] && r[if j < k then j else j - 1] == s[j];
    }
  }

  lemma StepKeeps(g: Graph, s: seq<Ev<nat>>, op: Op, next: nat)
    requires WellFormed(g, s) && Older(s, next) && Unique(s)
    ensures var r := Step(g, s, op, next);
            WellFormed(g, r) && Older(r, next + 1) && Unique(r) && KeepsOrder(s, r) && OnlyNew(s, r, next)
  {
    hide Reach, WellFormed;
    match op
    case Insert(q) =>
      if Fits(s, q) {
        InsertKeepsWellFormed(g, s, q, next);
        var k := InsertCode(g, s, q);
        if k >= 0 {
          SpliceKeeps(s, k, Ev(next, q.loc, q.ty));
        } else {
          SameNodesKeep(s, Inserted(g, s, q, next), next);
        }
      } else {
        SameNodesKeep(s, s, next);
      }
    case Remove(k, ty) =>
      if k < |s| {
        RemoveKeepsWellFormed(g, s, k, ty);
        if s[k].ty - ty == {} {
          EraseKeeps(s, k, next);
        } else {
          SameNodesKeep(s, Removed(s, k, ty), next);
        }
      } else {
        SameNodesKeep(s, s, next);
      }
  }

  /** Whatever the calls, the thread stays free of duplicates, each location it holds can reach
      every later one, and what stays keeps its order. */
  lemma {:induction false} RunKeeps(g: Graph, s: seq<Ev<nat>>, ops: seq<Op>, next: nat)
    requires WellFormed(g, s) && Older(s, next) && Unique(s)
    ensures var r := Run(g, s, ops, next);
            WellFormed(g, r) && Unique(r) && KeepsOrder(s, r) && OnlyNew(s, r, next)
    decreases |ops|
  {
    hide Reach;
    if ops == [] {
    } else {
      var m := Step(g, s, ops[0], next);
      var r := Run(g, s, ops, next);
      StepKeeps(g, s, ops[0], next);
      RunKeeps(g, m, ops[1..], next + 1);
      forall i | 0 <= i < |r| && r[i].node < next ensures Holding(s, r[i].node) {
        var k :| 0 <= k < |m| && m[k].node == r[i].node;
        assert Holding(s, m[k].node);
      }
      forall i, j | 0 <= i < j < |s| && Holding(r, s[i].node) && Holding(r, s[j].node)
        ensures Before(r, s[i].node, s[j].node)
      {
        assert Holding(m, s[i].node) && Holding(m, s[j].node);
        assert Before(m, s[i].node, s[j].node);
        var a, b :| 0 <= a < b < |m| && m[a].node == s[i].node && m[b].node == s[j].node;
        assert Before(r, m[a].node, m[b].node);
      }
    }
  }
}
