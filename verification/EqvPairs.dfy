/** A pair of equivalent objects with the paths that make them so. */
module EqvPairs {
  import opened Cfg
  import opened Constraints
  import opened EqvPaths

  type Ctx = nat

  /** The calling contexts of the first escape and of the last fetch. */
  type Sig = (Option<Ctx>, Option<Ctx>)

  const EF_PATH_TRIM_THRESHOLD := 128

  /** The context of the first located escape of `src` in the leading run of escapes. */
  function FirstEscape(p: Path, src: Obj, ctx: Loc -> Ctx): Option<Ctx> {
    if p == [] || p[0].kind != ESCAPE then None
    else if p[0].pto.site.Some? && p[0].pto.target == src then Some(ctx(p[0].pto.site.value))
    else FirstEscape(p[1..], src, ctx)
  }

  /** The context of the last located fetch of `dst` in the closing run of fetches. */
  function LastFetch(p: Path, dst: Obj, ctx: Loc -> Ctx): Option<Ctx> {
    if p == [] || p[|p| - 1].kind != FETCH then None
    else if p[|p| - 1].pto.site.Some? && p[|p| - 1].pto.target == dst then Some(ctx(p[|p| - 1].pto.site.value))
    else LastFetch(p[..|p| - 1], dst, ctx)
  }

  /** EqvPath::getSig. */
  function SigOf(p: Path, src: Obj, dst: Obj, ctx: Loc -> Ctx): Sig {
    (FirstEscape(p, src, ctx), LastFetch(p, dst, ctx))
  }

  /** The node is located, and its record points to `o`. */
  predicate TouchesAt(p: Path, i: nat, o: Obj)
    requires i < |p|
  {
    p[i].pto.site.Some? && p[i].pto.target == o
  }

  /** Node `i` is the first located escape of `src`, and nothing but escapes comes before it. */
  ghost predicate IsFirstEscape(p: Path, i: int, src: Obj) {
    && 0 <= i < |p| && TouchesAt(p, i, src)
    && (forall j :: 0 <= j <= i ==> p[j].kind == ESCAPE)
    && (forall j :: 0 <= j < i ==> !TouchesAt(p, j, src))
  }

  /** Node `i` is the last located fetch of `dst`, and nothing but fetches comes behind it. */
  ghost predicate IsLastFetch(p: Path, i: int, dst: Obj) {
    && 0 <= i < |p| && TouchesAt(p, i, dst)
    && (forall j :: i <= j < |p| ==> p[j].kind == FETCH)
    && (forall j :: i < j < |p| ==> !TouchesAt(p, j, dst))
  }

  /** The object first escapes in the context `c`. */
  ghost predicate EscapesFirstIn(p: Path, src: Obj, ctx: Loc -> Ctx, c: Ctx) {
    exists i :: IsFirstEscape(p, i, src) && ctx(p[i].pto.site.value) == c
  }

  /** The object is last fetched in the context `c`. */
  ghost predicate FetchedLastIn(p: Path, dst: Obj, ctx: Loc -> Ctx, c: Ctx) {
    exists i :: IsLastFetch(p, i, dst) && ctx(p[i].pto.site.value) == c
  }

  lemma LaterEscape(p: Path, src: Obj, i: int)
    requires p != [] && p[0].kind == ESCAPE && !TouchesAt(p, 0, src)
    ensures IsFirstEscape(p[1..], i, src) <==> IsFirstEscape(p, i + 1, src) && i >= 0
    ensures !IsFirstEscape(p, 0, src)
  {
    var r := p[1..];
    assert forall j :: 0 <= j < |r| ==> r[j] == p[j + 1] && (TouchesAt(r, j, src) <==> TouchesAt(p, j + 1, src));
    if IsFirstEscape(r, i, src) {
      assert forall j :: 0 < j <= i + 1 ==> p[j] == r[j - 1] && (TouchesAt(p, j, src) <==> TouchesAt(r, j - 1, src));
    }
  }

  lemma EarlierFetch(p: Path, dst: Obj, i: int)
    requires p != [] && p[|p| - 1].kind == FETCH && !TouchesAt(p, |p| - 1, dst)
    ensures IsLastFetch(p[..|p| - 1], i, dst) <==> IsLastFetch(p, i, dst)
  {
    var r := p[..|p| - 1];
    assert forall j :: 0 <= j < |r| ==> r[j] == p[j] && (TouchesAt(r, j, dst) <==> TouchesAt(p, j, dst));
  }

  lemma {:induction false} FirstEscapeMeans(p: Path, src: Obj, ctx: Loc -> Ctx, c: Ctx)
    ensures FirstEscape(p, src, ctx) == Some(c) <==> EscapesFirstIn(p, src, ctx, c)
  {
    if p == [] || p[0].kind != ESCAPE {
    } else if TouchesAt(p, 0, src) {
      assert IsFirstEscape(p, 0, src);
    } else {
      hide IsFirstEscape;
      var r := p[1..];
      FirstEscapeMeans(r, src, ctx, c);
      forall i ensures IsFirstEscape(r, i, src) <==> IsFirstEscape(p, i + 1, src) && i >= 0 {
        LaterEscape(p, src, i);
      }
      InRange(r, p, src);
      LaterEscape(p, src, 0);
      if i :| IsFirstEscape(r, i, src) && ctx(r[i].pto.site.value) == c {
        assert IsFirstEscape(p, i + 1, src) && p[i + 1] == r[i];
      }
      if i :| IsFirstEscape(p, i, src) && ctx(p[i].pto.site.value) == c {
        assert i != 0 && p[i] == r[i - 1];
        assert IsFirstEscape(p, (i - 1) + 1, src);
      }
    }
  }

  lemma InRange(r: Path, p: Path, src: Obj)
    ensures forall i :: IsFirstEscape(r, i, src) ==> 0 <= i < |r| && r[i].pto.site.Some?
    ensures forall i :: IsFirstEscape(p, i, src) ==> 0 <= i < |p| && p[i].pto.site.Some?
  {
  }

  lemma {:induction false} LastFetchMeans(p: Path, dst: Obj, ctx: Loc -> Ctx, c: Ctx)
    ensures LastFetch(p, dst, ctx) == Some(c) <==> FetchedLastIn(p, dst, ctx, c)
  {
    var n := |p| - 1;
    if p == [] || p[n].kind != FETCH {
      assert forall i :: IsLastFetch(p, i, dst) ==> p[n].kind == FETCH;
    } else if TouchesAt(p, n, dst) {
      assert IsLastFetch(p, n, dst);
    } else {
      var r := p[..n];
      LastFetchMeans(r, dst, ctx, c);
      forall i ensures IsLastFetch(r, i, dst) <==> IsLastFetch(p, i, dst) {
        EarlierFetch(p, dst, i);
      }
      assert forall i :: IsLastFetch(r, i, dst) ==> 0 <= i < n && r[i] == p[i];
    }
  }

  /** Both paths begin with an escape of `src` in one context and end with a fetch of `dst` in one, or
      neither does. */
  ghost predicate SameEnds(p: Path, q: Path, src: Obj, dst: Obj, ctx: Loc -> Ctx) {
    forall c: Ctx :: (EscapesFirstIn(p, src, ctx, c) <==> EscapesFirstIn(q, src, ctx, c))
                && (FetchedLastIn(p, dst, ctx, c) <==> FetchedLastIn(q, dst, ctx, c))
  }

  /** A signature holds exactly that. */
  lemma SigMeans(p: Path, q: Path, src: Obj, dst: Obj, ctx: Loc -> Ctx)
    ensures SigOf(p, src, dst, ctx) == SigOf(q, src, dst, ctx) <==> SameEnds(p, q, src, dst, ctx)
  {
    hide FirstEscape, LastFetch, EscapesFirstIn, FetchedLastIn;
    forall c: Ctx
      ensures FirstEscape(p, src, ctx) == Some(c) <==> EscapesFirstIn(p, src, ctx, c)
      ensures FirstEscape(q, src, ctx) == Some(c) <==> EscapesFirstIn(q, src, ctx, c)
      ensures LastFetch(p, dst, ctx) == Some(c) <==> FetchedLastIn(p, dst, ctx, c)
      ensures LastFetch(q, dst, ctx) == Some(c) <==> FetchedLastIn(q, dst, ctx, c)
    {
      FirstEscapeMeans(p, src, ctx, c);
      FirstEscapeMeans(q, src, ctx, c);
      LastFetchMeans(p, dst, ctx, c);
      LastFetchMeans(q, dst, ctx, c);
    }
    if SameEnds(p, q, src, dst, ctx) {
      SameOption(FirstEscape(p, src, ctx), FirstEscape(q, src, ctx));
      SameOption(LastFetch(p, dst, ctx), LastFetch(q, dst, ctx));
    }
  }

  lemma SameOption(a: Option<Ctx>, b: Option<Ctx>)
    requires forall c: Ctx :: a == Some(c) <==> b == Some(c)
    ensures a == b
  {
    assert a.Some? ==> b == Some(a.value);
    assert b.Some? ==> a == Some(b.value);
  }

  // ---- sets of paths -------------------------------------------------------------------------

  /** The paths a path list stands for; no path at all stands for the empty path. */
  ghost function Language(ps: seq<Path>): set<Path> {
    if ps == [] then {[]} else set p | p in ps
  }

  /** All concatenations of a path of `ps` with one of `qs`. */
  function Product(ps: seq<Path>, qs: seq<Path>): (r: seq<Path>)
    ensures forall p, q :: p in ps && q in qs ==> p + q in r
    ensures forall x :: x in r ==> exists p, q :: p in ps && q in qs && x == p + q
  {
    if ps == [] then [] else
      var row := seq(|qs|, i requires 0 <= i < |qs| => ps[0] + qs[i]);
      assert forall q :: q in qs ==> ps[0] + q in row by {
        forall q | q in qs ensures ps[0] + q in row {
          var i :| 0 <= i < |qs| && qs[i] == q;
          assert row[i] == ps[0] + q;
        }
      }
      row + Product(ps[1..], qs)
  }

  /** The paths of two pairs put end to end. */
  function Connected(ps: seq<Path>, qs: seq<Path>): seq<Path> {
    if ps != [] && qs != [] then Product(ps, qs) else if ps != [] then ps else qs
  }

  /** Connecting is concatenation of path languages, and the empty list is its unit. */
  lemma ConnectIsConcatenation(ps: seq<Path>, qs: seq<Path>)
    ensures Language(Connected(ps, qs)) == set p, q | p in Language(ps) && q in Language(qs) :: p + q
    ensures Connected(ps, []) == ps && Connected([], ps) == ps
  {
    var l := Language(Connected(ps, qs));
    var r := set p, q | p in Language(ps) && q in Language(qs) :: p + q;
    if ps != [] && qs != [] {
      assert ps[0] + qs[0] in Product(ps, qs);
    } else if ps != [] {
      forall x | x in ps ensures x in r {
        assert x == x + [];
      }
      assert forall p: Path :: p + [] == p;
    } else {
      forall x | x in l ensures x in r {
        assert x == [] + x;
      }
      assert forall p: Path :: [] + p == p;
    }
  }

  // ---- trimming ------------------------------------------------------------------------------

  /** The index of the path with this signature, |r| if there is none. */
  function WithSig(r: seq<Path>, s: Sig, src: Obj, dst: Obj, ctx: Loc -> Ctx): (k: nat)
    ensures k <= |r|
    ensures k < |r| ==> SigOf(r[k], src, dst, ctx) == s
    ensures forall i :: 0 <= i < k ==> SigOf(r[i], src, dst, ctx) != s
  {
    if r == [] || SigOf(r[0], src, dst, ctx) == s then 0 else
      assert forall i :: 1 <= i < |r| ==> r[1..][i - 1] == r[i];
      1 + WithSig(r[1..], s, src, dst, ctx)
  }

  /** Enter `p` as the shortest path of its signature, if it is one. */
  function Enter(r: seq<Path>, p: Path, src: Obj, dst: Obj, ctx: Loc -> Ctx): seq<Path> {
    var k := WithSig(r, SigOf(p, src, dst, ctx), src, dst, ctx);
    if k == |r| then r + [p] else if |p| < |r[k]| then r[k := p] else r
  }

  /** One shortest path for each signature, the earliest where there are several. */
  function Trimmed(ps: seq<Path>, src: Obj, dst: Obj, ctx: Loc -> Ctx): seq<Path> {
    if ps == [] then [] else Enter(Trimmed(ps[..|ps| - 1], src, dst, ctx), ps[|ps| - 1], src, dst, ctx)
  }

  /** `r` is a fair extract of `ps`: its paths come from there, no two begin and end alike, and each
      path of `ps` is represented by one that begins and ends as it does and is not longer. */
  ghost predicate Extract(r: seq<Path>, ps: seq<Path>, src: Obj, dst: Obj, ctx: Loc -> Ctx) {
    && (forall k :: 0 <= k < |r| ==> r[k] in ps)
    && (forall i, j :: 0 <= i < j < |r| ==> !SameEnds(r[i], r[j], src, dst, ctx))
    && (forall i :: 0 <= i < |ps| ==> Represented(r, ps[i], src, dst, ctx))
  }

  ghost predicate Represented(r: seq<Path>, p: Path, src: Obj, dst: Obj, ctx: Loc -> Ctx) {
    exists k :: 0 <= k < |r| && SameEnds(r[k], p, src, dst, ctx) && |r[k]| <= |p|
  }

  lemma EnterRepresents(r: seq<Path>, p: Path, x: Path, src: Obj, dst: Obj, ctx: Loc -> Ctx)
    ensures Represented(Enter(r, p, src, dst, ctx), p, src, dst, ctx)
    ensures Represented(r, x, src, dst, ctx) ==> Represented(Enter(r, p, src, dst, ctx), x, src, dst, ctx)
  {
    hide SigOf, SameEnds;
    var q := Enter(r, p, src, dst, ctx);
    var k := WithSig(r, SigOf(p, src, dst, ctx), src, dst, ctx);
    SigMeans(q[k], p, src, dst, ctx);
    assert SameEnds(q[k], p, src, dst, ctx) && |q[k]| <= |p|;
    if Represented(r, x, src, dst, ctx) {
      var m :| 0 <= m < |r| && SameEnds(r[m], x, src, dst, ctx) && |r[m]| <= |x|;
      SigMeans(r[m], x, src, dst, ctx);
      SigMeans(q[m], x, src, dst, ctx);
      assert SameEnds(q[m], x, src, dst, ctx) && |q[m]| <= |x|;
    }
  }

  lemma EnterExtract(r: seq<Path>, ps: seq<Path>, p: Path, src: Obj, dst: Obj, ctx: Loc -> Ctx)
    requires Extract(r, ps, src, dst, ctx)
    ensures Extract(Enter(r, p, src, dst, ctx), ps + [p], src, dst, ctx)
  {
    hide SigOf, Represented, SameEnds;
    var q := Enter(r, p, src, dst, ctx);
    forall i | 0 <= i < |ps| + 1 ensures Represented(q, (ps + [p])[i], src, dst, ctx) {
      EnterRepresents(r, p, (ps + [p])[i], src, dst, ctx);
    }
    forall k | 0 <= k < |q| ensures q[k] in ps + [p] {
      assert q[k] == p || q[k] == r[k];
    }
    forall i, j | 0 <= i < j < |q| ensures !SameEnds(q[i], q[j], src, dst, ctx) {
      SigMeans(q[i], q[j], src, dst, ctx);
      if j < |r| {
        SigMeans(r[i], r[j], src, dst, ctx);
      }
    }
  }

  lemma TrimmedBy(h: seq<Path>, l: Path, src: Obj, dst: Obj, ctx: Loc -> Ctx)
    ensures Trimmed(h + [l], src, dst, ctx) == Enter(Trimmed(h, src, dst, ctx), l, src, dst, ctx)
  {
    hide Enter;
    assert (h + [l])[..|h|] == h;
  }

  lemma NothingToTrim(src: Obj, dst: Obj, ctx: Loc -> Ctx)
    ensures Extract(Trimmed([], src, dst, ctx), [], src, dst, ctx)
  {
  }

  lemma {:induction false} TrimExtracts(ps: seq<Path>, src: Obj, dst: Obj, ctx: Loc -> Ctx)
    ensures Extract(Trimmed(ps, src, dst, ctx), ps, src, dst, ctx)
  {
    hide Extract, Trimmed, Enter;
    if ps == [] {
      NothingToTrim(src, dst, ctx);
    } else {
      var h, l := ps[..|ps| - 1], ps[|ps| - 1];
      assert h + [l] == ps;
      TrimExtracts(h, src, dst, ctx);
      TrimmedBy(h, l, src, dst, ctx);
      EnterExtract(Trimmed(h, src, dst, ctx), h, l, src, dst, ctx);
    }
  }

  lemma ExtractMeans(r: seq<Path>, ps: seq<Path>, src: Obj, dst: Obj, ctx: Loc -> Ctx)
    requires Extract(r, ps, src, dst, ctx)
    ensures (forall k :: 0 <= k < |r| ==> r[k] in ps) && (ps != [] ==> r != [])
  {
    hide SameEnds;
    if ps != [] {
      assert Represented(r, ps[0], src, dst, ctx);
    }
  }

  /** Two paths whose objects are last fetched in different contexts are both represented after a
      trimming, each by a path of its own. */
  lemma LastFetchesStay(r: seq<Path>, ps: seq<Path>, src: Obj, dst: Obj, ctx: Loc -> Ctx, p: Path, q: Path, c: Ctx,
                        d: Ctx)
    returns (i: nat, j: nat)
    requires Extract(r, ps, src, dst, ctx) && p in ps && q in ps && c != d
    requires FetchedLastIn(p, dst, ctx, c) && FetchedLastIn(q, dst, ctx, d)
    ensures i < |r| && j < |r| && i != j && FetchedLastIn(r[i], dst, ctx, c) && FetchedLastIn(r[j], dst, ctx, d)
  {
    hide EscapesFirstIn;
    var x :| 0 <= x < |ps| && ps[x] == p;
    var y :| 0 <= y < |ps| && ps[y] == q;
    assert Represented(r, ps[x], src, dst, ctx) && Represented(r, ps[y], src, dst, ctx);
    i :| 0 <= i < |r| && SameEnds(r[i], p, src, dst, ctx) && |r[i]| <= |p|;
    j :| 0 <= j < |r| && SameEnds(r[j], q, src, dst, ctx) && |r[j]| <= |q|;
    if i == j {
      OneLastFetch(r[i], dst, ctx, c, d);
    }
  }

  lemma OneLastFetch(p: Path, dst: Obj, ctx: Loc -> Ctx, c: Ctx, d: Ctx)
    requires FetchedLastIn(p, dst, ctx, c) && FetchedLastIn(p, dst, ctx, d)
    ensures c == d
  {
  }

  ghost predicate IsShortest(p: Path, ps: seq<Path>) {
    p in ps && forall i :: 0 <= i < |ps| ==> |p| <= |ps[i]|
  }

  /** Trimming does not change how short the shortest path is. */
  lemma ExtractKeepsShortest(r: seq<Path>, ps: seq<Path>, src: Obj, dst: Obj, ctx: Loc -> Ctx, p: Path, q: Path)
    requires Extract(r, ps, src, dst, ctx) && IsShortest(p, ps) && IsShortest(q, r)
    ensures |p| == |q|
  {
    hide SameEnds;
    var i :| 0 <= i < |ps| && ps[i] == p;
    assert Represented(r, ps[i], src, dst, ctx);
    var k :| 0 <= k < |r| && SameEnds(r[k], p, src, dst, ctx) && |r[k]| <= |p|;
    var m :| 0 <= m < |ps| && ps[m] == q;
  }

  // ---- the class -----------------------------------------------------------------------------

  /** `ps` with each path of `qs` that is not there yet. */
  function Merged(ps: seq<Path>, qs: seq<Path>): (r: seq<Path>)
    ensures ps <= r
    ensures forall x :: x in r <==> x in ps || x in qs
    decreases |qs|
  {
    if qs == [] then ps
    else
      assert qs == [qs[0]] + qs[1..];
      Merged(if qs[0] in ps then ps else ps + [qs[0]], qs[1..])
  }

  /** The paths a new or merged pair ends up with. */
  function Capped(ps: seq<Path>, trim: bool, trimmed: bool, src: Obj, dst: Obj, ctx: Loc -> Ctx): seq<Path> {
    if trim && |ps| >= EF_PATH_TRIM_THRESHOLD && !trimmed then Trimmed(ps, src, dst, ctx) else ps
  }

  /** A pair of equivalent objects, as a value. */
  datatype Pair = Pair(src: Obj, dst: Obj, paths: seq<Path>, trimmed: bool)

  /** Nothing is thrown away below the threshold, or where no trimming is asked for; and otherwise the
      paths are a fair extract. */
  lemma CappedMeans(ps: seq<Path>, trim: bool, trimmed: bool, src: Obj, dst: Obj, ctx: Loc -> Ctx)
    ensures |ps| < 128 || !trim || trimmed ==> Capped(ps, trim, trimmed, src, dst, ctx) == ps
    ensures |ps| >= 128 && trim && !trimmed ==> Extract(Capped(ps, trim, trimmed, src, dst, ctx), ps, src, dst, ctx)
  {
    hide Extract;
    TrimExtracts(ps, src, dst, ctx);
  }

  /** What merge makes of two pairs; nothing where their ends differ. */
  function MergePair(ctx: Loc -> Ctx, trim: bool, p: Pair, q: Pair): Pair {
    if p.src != q.src || p.dst != q.dst then p
    else
      var all := Merged(p.paths, q.paths);
      var was := p.trimmed && all == p.paths;
      Pair(p.src, p.dst, Capped(all, trim, was, p.src, p.dst, ctx), was || (trim && |all| >= EF_PATH_TRIM_THRESHOLD))
  }

  /** What connect makes of two pairs that meet. */
  function ConnectPair(ctx: Loc -> Ctx, trim: bool, p: Pair, q: Pair): Option<Pair> {
    if p.dst != q.src then None
    else
      var nps := Connected(p.paths, q.paths);
      Some(Pair(p.src, q.dst, Capped(nps, trim, false, p.src, q.dst, ctx), trim && |nps| >= EF_PATH_TRIM_THRESHOLD))
  }

  class EqvObjPair {
    const src: Obj
    const dst: Obj
    const ctx: Loc -> Ctx
    var paths: seq<Path>
    var trimmed: bool

    constructor (src: Obj, dst: Obj, ctx: Loc -> Ctx, paths: seq<Path>)
      ensures this.src == src && this.dst == dst && this.ctx == ctx
      ensures this.paths == paths && !trimmed
    {
      this.src := src;
      this.dst := dst;
      this.ctx := ctx;
      this.paths := paths;
      this.trimmed := false;
    }

    function Value(): Pair
      reads this
    {
      Pair(src, dst, paths, trimmed)
    }

    /** EqvObjPair::_trimPaths. */
    method TrimPaths()
      modifies this
      ensures paths == if old(trimmed) then old(paths) else Trimmed(old(paths), src, dst, ctx)
      ensures trimmed && (!old(trimmed) ==> Extract(paths, old(paths), src, dst, ctx))
    {
      hide Extract;
      TrimExtracts(paths, src, dst, ctx);
      if trimmed {
        return;
      }
      var shortest: seq<Path> := [];
      for i := 0 to |paths|
        invariant shortest == Trimmed(paths[..i], src, dst, ctx)
        invariant paths == old(paths)
      {
        var p := paths[i];
        var k := 0;
        while k < |shortest| && SigOf(shortest[k], src, dst, ctx) != SigOf(p, src, dst, ctx)
          invariant 0 <= k <= |shortest|
          invariant forall j :: 0 <= j < k ==> SigOf(shortest[j], src, dst, ctx) != SigOf(p, src, dst, ctx)
        {
          k := k + 1;
        }
        assert k == WithSig(shortest, SigOf(p, src, dst, ctx), src, dst, ctx);
        assert paths[..i + 1][..i] == paths[..i];
        if k == |shortest| {
          shortest := shortest + [p];
        } else if |p| < |shortest[k]| {
          shortest := shortest[k := p];
        }
      }
      assert paths[..|paths|] == paths;
      paths := shortest;
      trimmed := true;
    }

    /** EqvObjPair::connect: nothing, unless this pair ends where the other begins. */
    method Connect(other: EqvObjPair, trim: bool) returns (n: EqvObjPair?)
      ensures n == null <==> dst != other.src
      ensures n != null ==>
              fresh(n) && n.ctx == ctx && ConnectPair(ctx, trim, Value(), other.Value()) == Some(n.Value())
    {
      if dst != other.src {
        return null;
      }
      var nps := Connected(paths, other.paths);
      n := new EqvObjPair(src, other.dst, ctx, nps);
      if trim && |nps| >= EF_PATH_TRIM_THRESHOLD {
        n.TrimPaths();
      }
    }

    /** EqvObjPair::merge. */
    method Merge(other: EqvObjPair, trim: bool) returns (r: int)
      modifies this
      ensures r == if other.src != src || other.dst != dst then 0 else 1
      ensures Value() == MergePair(ctx, trim, old(Value()), old(other.Value()))
    {
      if other.src != src || other.dst != dst {
        return 0;
      }
      var qs := other.paths;
      var hasNew := AddAll(qs);
      if hasNew {
        trimmed := false;
      }
      if trim && |paths| >= EF_PATH_TRIM_THRESHOLD {
        TrimPaths();
      }
      r := 1;
    }

    /** The loop of merge: take in every path that is not there yet. */
    method AddAll(qs: seq<Path>) returns (hasNew: bool)
      modifies this`paths
      ensures paths == Merged(old(paths), qs)
      ensures hasNew <==> paths != old(paths)
    {
      ghost var was := paths;
      hasNew := false;
      for i := 0 to |qs|
        invariant Merged(paths, qs[i..]) == Merged(was, qs)
        invariant |was| <= |paths|
        invariant if hasNew then |was| < |paths| else was == paths
      {
        assert qs[i..][1..] == qs[i + 1..];
        if qs[i] !in paths {
          paths := paths + [qs[i]];
          hasNew := true;
        }
      }
    }

    /** EqvObjPair::addf: `n` goes in front of every path, or becomes the only path. */
    method AddF(n: PathNode)
      modifies this
      ensures paths == WithFront(old(paths), n) && trimmed == old(trimmed)
    {
      if |paths| == 0 {
        paths := [[]];
      }
      ghost var was := paths;
      for i := 0 to |paths|
        invariant |paths| == |was| && trimmed == old(trimmed)
        invariant forall j :: 0 <= j < |was| ==> paths[j] == if j < i then [n] + was[j] else was[j]
      {
        paths := paths[i := [n] + paths[i]];
      }
      assert [n] + [] == [n];
      assert paths == WithFront(old(paths), n);
    }

    /** EqvObjPair::adde: `n` goes behind every path, or becomes the only path. */
    method AddE(n: PathNode)
      modifies this
      ensures paths == WithEnd(old(paths), n) && trimmed == old(trimmed)
    {
      if |paths| == 0 {
        paths := [[]];
      }
      ghost var was := paths;
      for i := 0 to |paths|
        invariant |paths| == |was| && trimmed == old(trimmed)
        invariant forall j :: 0 <= j < |was| ==> paths[j] == if j < i then was[j] + [n] else was[j]
      {
        paths := paths[i := paths[i] + [n]];
      }
      assert [] + [n] == [n];
      assert paths == WithEnd(old(paths), n);
    }

    /** EqvObjPair::getShortestEqvPath. */
    method GetShortestEqvPath() returns (p: Option<Path>)
      ensures p.None? <==> paths == []
      ensures p.Some? ==> IsShortest(p.value, paths)
    {
      p := None;
      for i := 0 to |paths|
        invariant p.None? <==> i == 0
        invariant p.Some? ==> p.value in paths && forall j :: 0 <= j < i ==> |p.value| <= |paths[j]|
      {
        if p.None? || |paths[i]| < |p.value| {
          p := Some(paths[i]);
        }
      }
    }
  }

  function WithFront(ps: seq<Path>, n: PathNode): (r: seq<Path>) {
    if ps == [] then [[n]] else seq(|ps|, i requires 0 <= i < |ps| => [n] + ps[i])
  }

  function WithEnd(ps: seq<Path>, n: PathNode): (r: seq<Path>) {
    if ps == [] then [[n]] else seq(|ps|, i requires 0 <= i < |ps| => ps[i] + [n])
  }

  /** A node in front, or at the end, goes to every path, the empty one that an empty list stands for
      included. */
  lemma FrontMeans(ps: seq<Path>, n: PathNode)
    ensures Language(WithFront(ps, n)) == set p | p in Language(ps) :: [n] + p
  {
    assert [n] + [] == [n];
    var f := WithFront(ps, n);
    if ps != [] {
      forall x ensures x in f <==> exists p :: p in ps && x == [n] + p {
        if x in f {
          var i :| 0 <= i < |f| && f[i] == x;
          assert ps[i] in ps;
        }
        if p :| p in ps && x == [n] + p {
          var i :| 0 <= i < |ps| && ps[i] == p;
          assert f[i] == x;
        }
      }
    }
  }

  lemma EndMeans(ps: seq<Path>, n: PathNode)
    ensures Language(WithEnd(ps, n)) == set p | p in Language(ps) :: p + [n]
  {
    assert [] + [n] == [n];
    var f := WithEnd(ps, n);
    if ps != [] {
      forall x ensures x in f <==> exists p :: p in ps && x == p + [n] {
        if x in f {
          var i :| 0 <= i < |f| && f[i] == x;
          assert ps[i] in ps;
        }
        if p :| p in ps && x == p + [n] {
          var i :| 0 <= i < |ps| && ps[i] == p;
          assert f[i] == x;
        }
      }
    }
  }

  /** Merging two pairs with the same ends gives all the paths of both, or a fair extract of them once
      there are too many; a pair with other ends adds nothing. */
  lemma MergeMeans(ctx: Loc -> Ctx, trim: bool, p: Pair, q: Pair) returns (all: seq<Path>)
    ensures forall x :: x in all <==> x in p.paths || (x in q.paths && p.src == q.src && p.dst == q.dst)
    ensures var r := MergePair(ctx, trim, p, q);
            && r.src == p.src && r.dst == p.dst
            && (r.paths == all || (trim && |all| >= 128 && Extract(r.paths, all, p.src, p.dst, ctx)))
            && (trim && |all| >= 128 && p.src == q.src && p.dst == q.dst
                && (!p.trimmed || exists x :: x in all && x !in p.paths) ==>
                Extract(r.paths, all, p.src, p.dst, ctx))
  {
    hide Extract, Trimmed;
    all := if p.src == q.src && p.dst == q.dst then Merged(p.paths, q.paths) else p.paths;
    CappedMeans(all, trim, p.trimmed && all == p.paths, p.src, p.dst, ctx);
  }

  /** A pair that counts as trimmed has no two paths with the same ends. */
  ghost predicate Tidy(p: Pair, ctx: Loc -> Ctx) {
    p.trimmed ==> forall i, j :: 0 <= i < j < |p.paths| ==> !SameEnds(p.paths[i], p.paths[j], p.src, p.dst, ctx)
  }

  /** Merging keeps pairs tidy.  The result counts as trimmed when it was cut down now, or was before and nothing
      is new. */
  lemma MergeKeepsTidy(ctx: Loc -> Ctx, trim: bool, p: Pair, q: Pair)
    requires Tidy(p, ctx)
    ensures Tidy(MergePair(ctx, trim, p, q), ctx)
    ensures MergePair(ctx, trim, p, q).trimmed <==>
            || (p.trimmed && (p.src != q.src || p.dst != q.dst || forall x :: x in q.paths ==> x in p.paths))
            || (trim && p.src == q.src && p.dst == q.dst && |Merged(p.paths, q.paths)| >= 128)
  {
    hide Trimmed, SameEnds;
    if p.src == q.src && p.dst == q.dst {
      var all := Merged(p.paths, q.paths);
      NothingNew(p.paths, q.paths);
      CappedMeans(all, trim, p.trimmed && all == p.paths, p.src, p.dst, ctx);
    }
  }

  lemma {:induction false} NothingNew(ps: seq<Path>, qs: seq<Path>)
    ensures Merged(ps, qs) == ps <==> forall x :: x in qs ==> x in ps
    decreases |qs|
  {
    if qs != [] {
      assert qs == [qs[0]] + qs[1..];
      if qs[0] in ps {
        NothingNew(ps, qs[1..]);
      } else {
        assert qs[0] in Merged(ps, qs);
      }
    }
  }

  /** Pairs connect exactly where the end of one is the start of the other.  The result is tidy; it has all the
      connected paths, or from the threshold on an extract of them, and then counts as trimmed. */
  lemma ConnectMeans(ctx: Loc -> Ctx, trim: bool, p: Pair, q: Pair)
    ensures ConnectPair(ctx, trim, p, q).Some? <==> p.dst == q.src
    ensures p.dst == q.src ==>
              var r, nps := ConnectPair(ctx, trim, p, q).value, Connected(p.paths, q.paths);
              && r.src == p.src && r.dst == q.dst && Tidy(r, ctx)
              && (r.trimmed <==> trim && |nps| >= 128)
              && if r.trimmed then Extract(r.paths, nps, p.src, q.dst, ctx) else r.paths == nps
  {
    hide Trimmed, SameEnds;
    CappedMeans(Connected(p.paths, q.paths), trim, false, p.src, q.dst, ctx);
  }

  lemma ShortestOfUnion(ps: seq<Path>, qs: seq<Path>, u: seq<Path>, p: Path, q: Path)
    requires IsShortest(p, ps) && IsShortest(q, qs)
    requires forall x :: x in u <==> x in ps || x in qs
    ensures IsShortest(if |p| <= |q| then p else q, u)
  {
    forall i | 0 <= i < |u| ensures |p| <= |u[i]| || |q| <= |u[i]| {
      assert u[i] in u;
      if u[i] in ps {
        var k :| 0 <= k < |ps| && ps[k] == u[i];
      } else {
        var k :| 0 <= k < |qs| && qs[k] == u[i];
      }
    }
  }

  lemma ShortestAlike(ps: seq<Path>, p: Path, q: Path)
    requires IsShortest(p, ps) && IsShortest(q, ps)
    ensures |p| == |q|
  {
    var i :| 0 <= i < |ps| && ps[i] == p;
    var j :| 0 <= j < |ps| && ps[j] == q;
  }

  /** Merging: the shortest path of the result is as short as the shorter of the two it came from. */
  lemma MergeTakesTheMinimum(ps: seq<Path>, qs: seq<Path>, trim: bool, trimmed: bool, src: Obj, dst: Obj,
                             ctx: Loc -> Ctx, p: Path, q: Path, m: Path)
    requires IsShortest(p, ps) && IsShortest(q, qs)
    requires IsShortest(m, Capped(Merged(ps, qs), trim, trimmed, src, dst, ctx))
    ensures |m| == if |p| <= |q| then |p| else |q|
  {
    hide Trimmed, Merged, IsShortest;
    var u := Merged(ps, qs);
    var l := if |p| <= |q| then p else q;
    ShortestOfUnion(ps, qs, u, p, q);
    if trim && |u| >= EF_PATH_TRIM_THRESHOLD && !trimmed {
      TrimExtracts(u, src, dst, ctx);
      ExtractKeepsShortest(Trimmed(u, src, dst, ctx), u, src, dst, ctx, l, m);
    } else {
      ShortestAlike(u, l, m);
    }
  }
}
