/** Escape/fetch paths between equivalent objects, and sets of them. */
module EqvPaths {
  import opened Cfg
  import opened Constraints

  type Obj = nat

  /** One points-to record: field `field` of `src` points to field `dstField` of `target`. */
  datatype Pto = Pto(src: Obj, field: int, target: Obj, dstField: int, creation: bool, site: Option<Loc>)

  datatype Label = ESCAPE | FETCH

  datatype PathNode = PathNode(pto: Pto, kind: Label)

  type Path = seq<PathNode>

  // ---- the paired node -----------------------------------------------------------------------

  /** The first fetch node at `i` or later, |p| if there is none. */
  function NextFetch(p: Path, i: nat): (k: nat)
    requires i <= |p|
    ensures i <= k <= |p|
    ensures forall j :: i <= j < k ==> p[j].kind != FETCH
    ensures k < |p| ==> p[k].kind == FETCH
    decreases |p| - i
  {
    if i == |p| || p[i].kind == FETCH then i else NextFetch(p, i + 1)
  }

  /** The last escape node before `i`, -1 if there is none. */
  function LastEscape(p: Path, i: nat): (k: int)
    requires i <= |p|
    ensures -1 <= k < i
    ensures forall j :: k < j < i ==> p[j].kind != ESCAPE
    ensures k >= 0 ==> p[k].kind == ESCAPE
  {
    if i == 0 then -1 else if p[i - 1].kind == ESCAPE then i - 1 else LastEscape(p, i - 1)
  }

  /** The node as far behind the switch from escapes to fetches as `idx` is before it, or the other
      way round; -1 if that is not a node of the other kind. */
  function Mirror(p: Path, idx: nat): int {
    if idx >= |p| then -1
    else if p[idx].kind == ESCAPE then
      var f := NextFetch(p, idx + 1);
      if f < |p| && 2 * f - idx - 1 < |p| && p[2 * f - idx - 1].kind == FETCH then 2 * f - idx - 1 else -1
    else
      var e := LastEscape(p, idx);
      if e >= 0 && 2 * e - idx + 1 >= 0 && p[2 * e - idx + 1].kind == ESCAPE then 2 * e - idx + 1 else -1
  }

  /** A fetch without an escape at the mirrored place because the path begins too late for it: the
      index of the program, which is unsigned, does not stay within the path. */
  predicate Astray(p: Path, idx: nat) {
    && idx < |p| && p[idx].kind == FETCH
    && var e := LastEscape(p, idx);
       e < 0 || 2 * e - idx + 1 < 0
  }

  /** The first fetch after `i` is at `f`. */
  ghost predicate IsNextFetch(p: Path, i: nat, f: int) {
    i < f < |p| && p[f].kind == FETCH && forall j :: i < j < f ==> p[j].kind == ESCAPE
  }

  /** The last escape before `i` is at `e`. */
  ghost predicate IsLastEscape(p: Path, i: nat, e: int) {
    i <= |p| && 0 <= e < i && p[e].kind == ESCAPE && forall j :: e < j < i ==> p[j].kind == FETCH
  }

  /** On any path: an escape is paired with the fetch as far behind the first fetch after it as it is before that, */
  lemma FetchMeans(p: Path, idx: nat, r: nat)
    requires idx < |p| && r < |p| && p[idx].kind == ESCAPE
    ensures Mirror(p, idx) == r <==>
            p[r].kind == FETCH && exists f :: IsNextFetch(p, idx, f) && r - f == f - idx - 1
    ensures !Astray(p, idx)
  {
    var k := NextFetch(p, idx + 1);
    assert IsNextFetch(p, idx, k) <==> k < |p|;
    assert forall f :: IsNextFetch(p, idx, f) ==> f == k;
  }

  /** and a fetch with the escape as far before the last escape in front of it.  It goes astray exactly if there is
      no escape in front of it, or fewer nodes in front of that escape than between the two. */
  lemma EscapeMeans(p: Path, idx: nat, r: nat)
    requires idx < |p| && r < |p| && p[idx].kind == FETCH
    ensures Mirror(p, idx) == r <==>
            p[r].kind == ESCAPE && exists e :: IsLastEscape(p, idx, e) && e - r == idx - e - 1
    ensures Astray(p, idx) <==> forall e :: IsLastEscape(p, idx, e) ==> e < idx - e - 1
  {
    var k := LastEscape(p, idx);
    assert IsLastEscape(p, idx, k) <==> k >= 0;
    assert forall e :: IsLastEscape(p, idx, e) ==> e == k;
  }

  /** EqvPath::getPairedIndex; `outside` says when its index leaves the path at the front, where the
      answer here is -1. */
  method GetPairedIndex(p: Path, idx: nat) returns (r: int, ghost outside: bool)
    ensures r == Mirror(p, idx)
    ensures outside <==> Astray(p, idx)
  {
    r, outside := -1, false;
    if idx >= |p| {
      return;
    }
    if p[idx].kind == ESCAPE {
      var k, cnt := idx + 1, 0;
      while k < |p|
        invariant idx + 1 <= k <= |p| && cnt == k - idx - 1
        invariant NextFetch(p, idx + 1) == NextFetch(p, k) && r == -1 && !outside
      {
        if p[k].kind == FETCH {
          if k + cnt < |p| && p[k + cnt].kind == FETCH {
            r := k + cnt;
          }
          return;
        }
        k, cnt := k + 1, cnt + 1;
      }
    } else {
      var k, cnt := idx - 1, 0;
      while k >= 0
        invariant -1 <= k < idx && cnt == idx - 1 - k
        invariant LastEscape(p, idx) == LastEscape(p, k + 1) && r == -1 && !outside
        decreases k
      {
        if p[k].kind == ESCAPE {
          if k - cnt < 0 {
            outside := true;
          } else if p[k - cnt].kind == ESCAPE {
            r := k - cnt;
          }
          return;
        }
        k, cnt := k - 1, cnt + 1;
      }
      outside := true;
    }
  }

  // ---- the shape of the paths the search builds ----------------------------------------------

  /** `n` escapes followed by `n` fetches; mirrored nodes go through the same field. */
  ghost predicate IsBlock(p: Path, n: nat) {
    && |p| == 2 * n
    && (forall i :: 0 <= i < n ==> p[i].kind == ESCAPE)
    && (forall i :: n <= i < 2 * n ==> p[i].kind == FETCH)
    && (forall i :: 0 <= i < n ==> p[i].pto.field == p[2 * n - 1 - i].pto.field)
  }

  ghost predicate Blocks(p: Path)
    decreases |p|
  {
    p == [] || exists n: nat :: 1 <= n && 2 * n <= |p| && IsBlock(p[..2 * n], n) && Blocks(p[2 * n..])
  }

  lemma OneBlock(p: Path, n: nat)
    requires IsBlock(p, n)
    ensures Blocks(p)
  {
    if n > 0 {
      assert p[..2 * n] == p && p[2 * n..] == [];
    }
  }

  /** One more escape in front and the matching fetch behind give a bigger block. */
  lemma WrapBlock(e: PathNode, p: Path, f: PathNode, n: nat)
    requires IsBlock(p, n) && e.kind == ESCAPE && f.kind == FETCH && e.pto.field == f.pto.field
    ensures IsBlock([e] + p + [f], n + 1)
  {
    var r := [e] + p + [f];
    forall i | 0 <= i < n + 1 ensures r[i].pto.field == r[2 * n + 1 - i].pto.field {
      if i > 0 {
        assert r[i] == p[i - 1] && r[2 * n + 1 - i] == p[2 * n - 1 - (i - 1)];
      }
    }
  }

  lemma {:induction false} ConnectBlocks(p: Path, q: Path)
    requires Blocks(p) && Blocks(q)
    ensures Blocks(p + q)
    decreases |p|
  {
    if p == [] {
      assert p + q == q;
    } else {
      var n: nat :| 1 <= n && 2 * n <= |p| && IsBlock(p[..2 * n], n) && Blocks(p[2 * n..]);
      ConnectBlocks(p[2 * n..], q);
      assert (p + q)[..2 * n] == p[..2 * n] && (p + q)[2 * n..] == p[2 * n..] + q;
    }
  }

  /** The block around a node. */
  ghost predicate BlockAt(p: Path, s: nat, n: nat, idx: nat) {
    s <= idx < s + 2 * n <= |p| && IsBlock(p[s..s + 2 * n], n)
  }

  lemma {:induction false} FindBlock(p: Path, idx: nat) returns (s: nat, n: nat)
    requires Blocks(p) && idx < |p|
    ensures BlockAt(p, s, n, idx)
    decreases |p|
  {
    hide IsBlock;
    var m: nat :| 1 <= m && 2 * m <= |p| && IsBlock(p[..2 * m], m) && Blocks(p[2 * m..]);
    if idx < 2 * m {
      return 0, m;
    }
    var r;
    r, n := FindBlock(p[2 * m..], idx - 2 * m);
    s := r + 2 * m;
    BlockShifts(p, 2 * m, r, n, idx - 2 * m);
  }

  lemma BlockShifts(p: Path, skip: nat, s: nat, n: nat, idx: nat)
    requires skip <= |p| && BlockAt(p[skip..], s, n, idx)
    ensures BlockAt(p, s + skip, n, idx + skip)
  {
    hide IsBlock;
    assert p[skip..][s..s + 2 * n] == p[s + skip..s + skip + 2 * n];
  }

  lemma NodesOfBlock(p: Path, s: nat, n: nat, idx: nat)
    requires BlockAt(p, s, n, idx)
    ensures forall i :: s <= i < s + n ==> p[i].kind == ESCAPE
    ensures forall i :: s + n <= i < s + 2 * n ==> p[i].kind == FETCH
    ensures p[idx].pto.field == p[2 * s + 2 * n - 1 - idx].pto.field
  {
    var b := p[s..s + 2 * n];
    assert forall i :: s <= i < s + 2 * n ==> p[i] == b[i - s];
    assert p[2 * s + 2 * n - 1 - idx] == b[2 * n - 1 - (idx - s)];
  }

  /** Inside a block the paired node is the mirror image. */
  lemma MirrorInBlock(p: Path, s: nat, n: nat, idx: nat)
    requires BlockAt(p, s, n, idx)
    ensures Mirror(p, idx) == 2 * s + 2 * n - 1 - idx && !Astray(p, idx)
  {
    hide IsBlock;
    NodesOfBlock(p, s, n, idx);
    if idx < s + n {
      assert p[s + n].kind == FETCH;
    } else {
      assert p[s + n - 1].kind == ESCAPE;
    }
  }

  /** On the paths the search builds every index stays within the path, every node has a partner,
      pairing is an involution, partners are one escape and one fetch, mirrored inside their block, and
      go through the same field. */
  lemma PairingIsAnInvolution(p: Path, idx: nat)
    requires Blocks(p) && idx < |p|
    ensures !Astray(p, idx) && 0 <= Mirror(p, idx) < |p|
    ensures Mirror(p, Mirror(p, idx)) == idx
    ensures p[Mirror(p, idx)].kind != p[idx].kind
    ensures p[Mirror(p, idx)].pto.field == p[idx].pto.field
  {
    hide Mirror, IsBlock;
    var s, n := FindBlock(p, idx);
    MirrorInBlock(p, s, n, idx);
    MirrorInBlock(p, s, n, 2 * s + 2 * n - 1 - idx);
    NodesOfBlock(p, s, n, idx);
  }
}
