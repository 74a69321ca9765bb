/** The search for equivalent objects over the points-to graph. */
module EqvSearch {
  import opened Cfg
  import opened Constraints
  import opened EqvPaths
  import opened EqvPairs

  /** The points-to graph the search walks; it does not change while a search runs. */
  datatype Heap = Heap(
    objs: set<Obj>,
    dummy: Obj -> bool,
    parent: Obj -> Option<(Obj, int)>,
    emb: (Obj, int) -> Option<Obj>,
    pointsFrom: Obj -> seq<(Obj, seq<Pto>)>,
    pointsTo: (Obj, int) -> seq<Pto>,
    sameTypes: (Obj, Obj) -> bool,
    recurMatch: (Obj, Obj) -> bool,
    ctx: Loc -> Ctx)
  {
    /** The graph is finite: every link the search can follow stays among `objs`. */
    ghost predicate Closed() {
      && (forall o :: o in objs ==>
            && (parent(o).Some? ==> parent(o).value.0 in objs)
            && (forall i :: 0 <= i < |pointsFrom(o)| ==> pointsFrom(o)[i].0 in objs))
      && (forall o, f :: emb(o, f).Some? ==> emb(o, f).value in objs)
      && (forall o, f, i :: 0 <= i < |pointsTo(o, f)| ==> pointsTo(o, f)[i].target in objs)
    }

    /** The records kept for a field are records of that field. */
    ghost predicate Filed() {
      forall o, f, i :: 0 <= i < |pointsTo(o, f)| ==> pointsTo(o, f)[i].field == f
    }
  }

  datatype Dir = Forward | Backward

  // ---- the inductive relation ----------------------------------------------------------------

  /** A derivation that two objects are equivalent through one layer of escapes and fetches. */
  datatype Why =
    | Self
    | Host(why: Why, other: Obj)
    | Link(why: Why, from: Obj, to: Obj, esc: Pto, fet: Pto)

  ghost predicate Points(h: Heap, o: Obj, target: Obj, e: Pto) {
    exists i, j :: 0 <= i < |h.pointsFrom(target)| && h.pointsFrom(target)[i].0 == o
                   && 0 <= j < |h.pointsFrom(target)[i].1| && h.pointsFrom(target)[i].1[j] == e
  }

  /** What `d` asks of the object it finds, seen from the object it starts at. */
  ghost predicate Suits(h: Heap, d: Dir, a: Obj, b: Obj) {
    && a != b
    && h.dummy(b)
    && (if d == Forward then h.sameTypes(a, b) else h.sameTypes(b, a))
  }

  /** `w` shows that `a` escapes and is fetched as `b` along `p`.  Embedded objects correspond when
      their hosts do; an object that escapes into a field of `o` may be what is fetched from the
      same field of an equivalent `o'`. */
  ghost predicate Proves(h: Heap, d: Dir, w: Why, a: Obj, b: Obj, p: Path)
    decreases w
  {
    match w
    case Self => a == b && p == []
    case Host(v, other) =>
      Suits(h, d, a, b) &&
      (if d == Forward then
         var up := h.parent(a);
         up.Some? && Proves(h, d, v, up.value.0, other, p) && h.emb(other, up.value.1) == Some(b)
       else
         var up := h.parent(b);
         up.Some? && Proves(h, d, v, other, up.value.0, p) && h.emb(other, up.value.1) == Some(a))
    case Link(v, o, o', esc, fet) =>
      && Linked(h, d, a, b, o, o', esc, fet)
      && |p| >= 2 && p[0] == PathNode(esc, ESCAPE) && p[|p| - 1] == PathNode(fet, FETCH)
      && Proves(h, d, v, o, o', p[1..|p| - 1])
  }

  /** `a` escapes into a field of `o` and `b` is what the same field of `o'` is fetched as. */
  ghost predicate Linked(h: Heap, d: Dir, a: Obj, b: Obj, o: Obj, o': Obj, esc: Pto, fet: Pto) {
    && Suits(h, d, a, b)
    && fet.creation
    && (if d == Forward then
          Points(h, o, a, esc) && esc.dstField == 0 && fet in h.pointsTo(o', esc.field) && fet.target == b
        else
          Points(h, o', b, fet) && fet.dstField == 0 && esc in h.pointsTo(o, fet.field) && esc.target == a)
  }

  ghost predicate Derivable(h: Heap, d: Dir, a: Obj, b: Obj, p: Path) {
    exists w :: Proves(h, d, w, a, b, p)
  }

  /** One layer gives one block: as many fetches as escapes, mirrored through the same fields. */
  lemma {:induction false} DerivedPathIsBlock(h: Heap, d: Dir, w: Why, a: Obj, b: Obj, p: Path) returns (n: nat)
    requires h.Filed() && Proves(h, d, w, a, b, p)
    ensures IsBlock(p, n)
    decreases w
  {
    match w
    case Self => n := 0;
    case Host(v, other) =>
      if d == Forward {
        n := DerivedPathIsBlock(h, d, v, h.parent(a).value.0, other, p);
      } else {
        n := DerivedPathIsBlock(h, d, v, other, h.parent(b).value.0, p);
      }
    case Link(v, o, o', esc, fet) =>
      n := DerivedPathIsBlock(h, d, v, o, o', p[1..|p| - 1]);
      WrapBlock(p[0], p[1..|p| - 1], p[|p| - 1], n);
      assert p == [p[0]] + p[1..|p| - 1] + [p[|p| - 1]];
      n := n + 1;
  }

  // ---- pairs and result maps -----------------------------------------------------------------

  /** Every path of the list derives the pair; the empty list stands for the empty path. */
  ghost predicate SoundPaths(h: Heap, d: Dir, a: Obj, b: Obj, ps: seq<Path>) {
    && (ps == [] ==> Derivable(h, d, a, b, []))
    && (forall i :: 0 <= i < |ps| ==> Derivable(h, d, a, b, ps[i]))
  }

  function From(d: Dir, me: Obj, other: Obj): Obj { if d == Forward then me else other }
  function To(d: Dir, me: Obj, other: Obj): Obj { if d == Forward then other else me }

  /** The results for `me`: each entry is a derivable pair of `me` and its key. */
  ghost predicate SoundMap(h: Heap, d: Dir, me: Obj, m: map<Obj, Pair>) {
    forall k :: k in m ==>
      && k in h.objs
      && m[k].src == From(d, me, k) && m[k].dst == To(d, me, k)
      && SoundPaths(h, d, From(d, me, k), To(d, me, k), m[k].paths)
  }

  /** AliasObject::add2EqvMap. */
  function Add2EqvMap(h: Heap, d: Dir, m: map<Obj, Pair>, eq: Pair): map<Obj, Pair> {
    var key := if d == Forward then eq.dst else eq.src;
    m[key := if key in m then MergePair(h.ctx, true, m[key], eq) else eq]
  }

  lemma CappedIsSound(h: Heap, d: Dir, a: Obj, b: Obj, ps: seq<Path>, trimmed: bool)
    requires forall i :: 0 <= i < |ps| ==> Derivable(h, d, a, b, ps[i])
    requires ps == [] ==> Derivable(h, d, a, b, [])
    ensures SoundPaths(h, d, a, b, Capped(ps, true, trimmed, a, b, h.ctx))
  {
    hide Derivable, Trimmed, Extract;
    if |ps| >= EF_PATH_TRIM_THRESHOLD && !trimmed {
      TrimExtracts(ps, a, b, h.ctx);
      var r := Trimmed(ps, a, b, h.ctx);
      ExtractMeans(r, ps, a, b, h.ctx);
      forall k | 0 <= k < |r| ensures Derivable(h, d, a, b, r[k]) {
        var i :| 0 <= i < |ps| && ps[i] == r[k];
      }
    }
  }

  lemma AddIsSound(h: Heap, d: Dir, me: Obj, m: map<Obj, Pair>, eq: Pair, k: Obj)
    requires SoundMap(h, d, me, m) && k in h.objs
    requires eq.src == From(d, me, k) && eq.dst == To(d, me, k)
    requires SoundPaths(h, d, From(d, me, k), To(d, me, k), eq.paths)
    ensures SoundMap(h, d, me, Add2EqvMap(h, d, m, eq))
  {
    hide Derivable, Capped, Merged;
    if k in m {
      var a, b := From(d, me, k), To(d, me, k);
      var all := Merged(m[k].paths, eq.paths);
      forall i | 0 <= i < |all| ensures Derivable(h, d, a, b, all[i]) {
        assert all[i] in all;
        if all[i] in m[k].paths {
          var j :| 0 <= j < |m[k].paths| && m[k].paths[j] == all[i];
        } else {
          var j :| 0 <= j < |eq.paths| && eq.paths[j] == all[i];
        }
      }
      CappedIsSound(h, d, a, b, all, m[k].trimmed && all == m[k].paths);
    }
  }

  lemma SelfIsSound(h: Heap, d: Dir, me: Obj)
    requires me in h.objs
    ensures SoundMap(h, d, me, map[me := Pair(me, me, [], false)])
  {
    assert Proves(h, d, Self, me, me, []);
  }

  lemma LinkPaths(h: Heap, d: Dir, a: Obj, b: Obj, o: Obj, o': Obj, esc: Pto, fet: Pto, ps: seq<Path>)
    requires Linked(h, d, a, b, o, o', esc, fet) && SoundPaths(h, d, o, o', ps)
    ensures SoundPaths(h, d, a, b, WithEnd(WithFront(ps, PathNode(esc, ESCAPE)), PathNode(fet, FETCH)))
  {
    hide Linked;
    var e, f := PathNode(esc, ESCAPE), PathNode(fet, FETCH);
    var qs := WithEnd(WithFront(ps, e), f);
    forall i | 0 <= i < |qs| ensures Derivable(h, d, a, b, qs[i]) {
      var p: Path := if ps == [] then [] else ps[i];
      assert qs[i] == [e] + p + [f];
      assert qs[i][1..|qs[i]| - 1] == p;
      assert Derivable(h, d, o, o', p);
      var w :| Proves(h, d, w, o, o', p);
      assert Proves(h, d, Link(w, o, o', esc, fet), a, b, qs[i]);
    }
  }

  lemma HostPaths(h: Heap, d: Dir, me: Obj, eo: Obj, other: Obj, ps: seq<Path>)
    requires Suits(h, d, From(d, me, eo), To(d, me, eo))
    requires h.parent(me).Some? && h.emb(other, h.parent(me).value.1) == Some(eo)
    requires SoundPaths(h, d, From(d, h.parent(me).value.0, other), To(d, h.parent(me).value.0, other), ps)
    ensures SoundPaths(h, d, From(d, me, eo), To(d, me, eo), ps)
  {
    var ho := h.parent(me).value.0;
    var a, b := From(d, me, eo), To(d, me, eo);
    var a', b' := From(d, ho, other), To(d, ho, other);
    forall p | Derivable(h, d, a', b', p) ensures Derivable(h, d, a, b, p) {
      var w :| Proves(h, d, w, a', b', p);
      assert Proves(h, d, Host(w, other), a, b, p);
    }
  }

  const ERR_ENUM := -9
  const ERR_LOOP := -1
  const ERR_RECUR := -2
  const ERR_DEEP := -3

  // ---- what one search gathers ---------------------------------------------------------------

  function KeyOf(d: Dir, eq: Pair): Obj { if d == Forward then eq.dst else eq.src }

  /** Each path of `ps` is represented in `qs`: there is one of its signature that is not longer. */
  ghost predicate AllRepresented(h: Heap, ps: seq<Path>, qs: seq<Path>, a: Obj, b: Obj) {
    forall p :: p in ps ==> Represented(qs, p, a, b, h.ctx)
  }

  ghost predicate Covers(h: Heap, d: Dir, m: map<Obj, Pair>, eq: Pair) {
    && KeyOf(d, eq) in m
    && m[KeyOf(d, eq)].src == eq.src && m[KeyOf(d, eq)].dst == eq.dst
    && AllRepresented(h, eq.paths, m[KeyOf(d, eq)].paths, eq.src, eq.dst)
  }

  /** `n` is `m` with the pairs in `wants` taken in: no other object came in, and no path was lost
      other than to one that stands for it. */
  ghost predicate Added(h: Heap, d: Dir, m: map<Obj, Pair>, n: map<Obj, Pair>, wants: set<Pair>) {
    && n.Keys == m.Keys + (set x | x in wants :: KeyOf(d, x))
    && (forall k :: k in m ==> KeyOf(d, m[k]) == k && Covers(h, d, n, m[k]))
    && (forall x :: x in wants ==> Covers(h, d, n, x))
  }

  lemma RepresentedBy(h: Heap, ps: seq<Path>, qs: seq<Path>, p: Path, a: Obj, b: Obj)
    requires AllRepresented(h, ps, qs, a, b) && Represented(ps, p, a, b, h.ctx)
    ensures Represented(qs, p, a, b, h.ctx)
  {
    hide EscapesFirstIn, FetchedLastIn;
    var k :| 0 <= k < |ps| && SameEnds(ps[k], p, a, b, h.ctx) && |ps[k]| <= |p|;
    assert Represented(qs, ps[k], a, b, h.ctx);
  }

  lemma CappedCovers(h: Heap, ps: seq<Path>, trimmed: bool, a: Obj, b: Obj)
    ensures AllRepresented(h, ps, Capped(ps, true, trimmed, a, b, h.ctx), a, b)
  {
    hide SigOf, Trimmed, SameEnds;
    TrimExtracts(ps, a, b, h.ctx);
    forall p | p in ps ensures Represented(Capped(ps, true, trimmed, a, b, h.ctx), p, a, b, h.ctx) {
      var i :| 0 <= i < |ps| && ps[i] == p;
      assert Represented(Trimmed(ps, a, b, h.ctx), ps[i], a, b, h.ctx);
      SigMeans(p, p, a, b, h.ctx);
      assert SameEnds(p, p, a, b, h.ctx);
    }
  }

  lemma MergeCovers(h: Heap, p: Pair, q: Pair)
    requires p.src == q.src && p.dst == q.dst
    ensures var r := MergePair(h.ctx, true, p, q);
            && r.src == p.src && r.dst == p.dst
            && AllRepresented(h, p.paths, r.paths, p.src, p.dst) && AllRepresented(h, q.paths, r.paths, p.src, p.dst)
  {
    hide Capped, Merged, Represented;
    var all := Merged(p.paths, q.paths);
    CappedCovers(h, all, p.trimmed && all == p.paths, p.src, p.dst);
  }

  lemma SamePaths(h: Heap, ps: seq<Path>, a: Obj, b: Obj)
    ensures AllRepresented(h, ps, ps, a, b)
  {
    hide SigOf;
    forall p | p in ps ensures Represented(ps, p, a, b, h.ctx) {
      var i :| 0 <= i < |ps| && ps[i] == p;
      assert SigOf(ps[i], a, b, h.ctx) == SigOf(p, a, b, h.ctx);
    }
  }

  lemma CoversTrans(h: Heap, d: Dir, m: map<Obj, Pair>, n: map<Obj, Pair>, x: Pair)
    requires Covers(h, d, m, x) && Covers(h, d, n, m[KeyOf(d, x)])
    ensures Covers(h, d, n, x)
  {
    hide Represented;
    var k := KeyOf(d, x);
    forall p | p in x.paths ensures Represented(n[k].paths, p, x.src, x.dst, h.ctx) {
      RepresentedBy(h, m[k].paths, n[k].paths, p, x.src, x.dst);
    }
  }

  lemma AddedNone(h: Heap, d: Dir, me: Obj, m: map<Obj, Pair>)
    requires SoundMap(h, d, me, m)
    ensures Added(h, d, m, m, {})
  {
    hide SoundPaths, AllRepresented;
    forall k | k in m ensures KeyOf(d, m[k]) == k && Covers(h, d, m, m[k]) {
      SamePaths(h, m[k].paths, m[k].src, m[k].dst);
    }
  }

  lemma AddedOne(h: Heap, d: Dir, me: Obj, m: map<Obj, Pair>, eq: Pair, k: Obj)
    requires SoundMap(h, d, me, m) && eq.src == From(d, me, k) && eq.dst == To(d, me, k)
    ensures Added(h, d, m, Add2EqvMap(h, d, m, eq), {eq})
  {
    hide SoundPaths, AllRepresented, MergePair;
    var n := Add2EqvMap(h, d, m, eq);
    SamePaths(h, eq.paths, eq.src, eq.dst);
    if k in m {
      MergeCovers(h, m[k], eq);
    }
    forall x | x in m ensures KeyOf(d, m[x]) == x && Covers(h, d, n, m[x]) {
      SamePaths(h, m[x].paths, m[x].src, m[x].dst);
    }
  }

  lemma AddedTrans(h: Heap, d: Dir, m: map<Obj, Pair>, n: map<Obj, Pair>, o: map<Obj, Pair>, a: set<Pair>, b: set<Pair>)
    requires Added(h, d, m, n, a) && Added(h, d, n, o, b)
    ensures Added(h, d, m, o, a + b)
  {
    hide Covers;
    forall x | x in a + b ensures Covers(h, d, o, x) {
      if x in a {
        CoveredOn(h, d, n, o, b, x);
      }
    }
    forall k | k in m ensures KeyOf(d, m[k]) == k && Covers(h, d, o, m[k]) {
      CoveredOn(h, d, n, o, b, m[k]);
    }
    assert (set x | x in a + b :: KeyOf(d, x)) == (set x | x in a :: KeyOf(d, x)) + (set x | x in b :: KeyOf(d, x));
  }

  lemma CoveredOn(h: Heap, d: Dir, n: map<Obj, Pair>, o: map<Obj, Pair>, b: set<Pair>, x: Pair)
    requires Added(h, d, n, o, b) && Covers(h, d, n, x)
    ensures Covers(h, d, o, x)
  {
    hide AllRepresented;
    assert Covers(h, d, o, n[KeyOf(d, x)]);
    CoversTrans(h, d, n, o, x);
  }

  /** What the host `h.parent(me)` passes on for its equivalent `other`. */
  function HostPair(h: Heap, d: Dir, me: Obj, hf: int, other: Obj, ps: seq<Path>): Option<Pair> {
    var eo := h.emb(other, hf);
    if eo.Some? && (d == Forward ==> h.dummy(eo.value)) && eo.value != me && h.sameTypes(me, eo.value)
    then Some(Pair(From(d, me, eo.value), To(d, me, eo.value), ps, false)) else None
  }

  /** One pair of records: `me` through `rec` and the far end through `far`. */
  function Joined(d: Dir, me: Obj, other: Obj, rec: Pto, far: Pto, ps: seq<Path>): Pair {
    var esc, fet := if d == Forward then rec else far, if d == Forward then far else rec;
    Pair(From(d, me, other), To(d, me, other), WithEnd(WithFront(ps, PathNode(esc, ESCAPE)), PathNode(fet, FETCH)),
         false)
  }

  /** The same, if the object at the far end may stand for `me`. */
  function FarPair(h: Heap, d: Dir, me: Obj, rec: Pto, far: Pto, ps: seq<Path>): Option<Pair> {
    if (d == Forward ==> far.creation && h.dummy(far.target)) && far.target != me && h.sameTypes(me, far.target)
    then Some(Joined(d, me, far.target, rec, far, ps)) else None
  }

  /** The records of an entry the search uses: those to the base of the object and, backward, only
      those that created it. */
  function EligibleOf(d: Dir, ptos: seq<Pto>): (r: seq<Pto>)
    ensures forall x :: x in r <==> x in ptos && (d == Backward ==> x.creation) && x.dstField == 0
    decreases |ptos|
  {
    if ptos == [] then []
    else
      var l := ptos[|ptos| - 1];
      EligibleOf(d, ptos[..|ptos| - 1]) + if (d == Backward ==> l.creation) && l.dstField == 0 then [l] else []
  }

  ghost function HostWants(h: Heap, d: Dir, me: Obj, hf: int, r: map<Obj, Pair>, ks: set<Obj>): set<Pair>
    requires ks <= r.Keys
  {
    set k | k in ks && HostPair(h, d, me, hf, k, r[k].paths).Some? :: HostPair(h, d, me, hf, k, r[k].paths).value
  }

  /** What the first `n` records of a field of `k` have to offer. */
  ghost function RecordWants(h: Heap, d: Dir, me: Obj, rec: Pto, k: Obj, ps: seq<Path>, n: nat): set<Pair>
    requires n <= |h.pointsTo(k, rec.field)|
  {
    set i | 0 <= i < n && FarPair(h, d, me, rec, h.pointsTo(k, rec.field)[i], ps).Some? ::
      FarPair(h, d, me, rec, h.pointsTo(k, rec.field)[i], ps).value
  }

  ghost function AllOfRecord(h: Heap, d: Dir, me: Obj, rec: Pto, k: Obj, ps: seq<Path>): set<Pair> {
    RecordWants(h, d, me, rec, k, ps, |h.pointsTo(k, rec.field)|)
  }

  /** The same for the first `n` records of an entry. */
  ghost function PtoWants(h: Heap, d: Dir, me: Obj, ptos: seq<Pto>, k: Obj, ps: seq<Path>, n: nat): set<Pair>
    requires n <= |ptos|
  {
    set j, x | 0 <= j < n && x in AllOfRecord(h, d, me, ptos[j], k, ps) :: x
  }

  ghost function EntryWants(h: Heap, d: Dir, me: Obj, ptos: seq<Pto>, r: map<Obj, Pair>, ks: set<Obj>): set<Pair>
    requires ks <= r.Keys
  {
    set k, x | k in ks && x in PtoWants(h, d, me, ptos, k, r[k].paths, |ptos|) :: x
  }

  /** How a result came about: the search was cut off at once, or went through the host and the
      points-from entries, each with a result of its own; cached results keep their history. */
  datatype Run = Cut(stack: seq<Obj>, limit: bool) | Gathered(host: Option<Sub>, entries: seq<Option<Sub>>)
  datatype Sub = Sub(run: Run, res: map<Obj, Pair>, err: int)

  /** What the host and the entries explored so far have to offer. */
  ghost function Wants(h: Heap, d: Dir, me: Obj, host: Option<Sub>, entries: seq<Option<Sub>>): set<Pair>
    requires |entries| <= |h.pointsFrom(me)| && (host.Some? ==> h.parent(me).Some?)
  {
    (if host.Some? then HostWants(h, d, me, h.parent(me).value.1, host.value.res, host.value.res.Keys) else {})
    + set i, x | 0 <= i < |entries| && x in Offer(h, d, me, i, entries[i]) :: x
  }

  function Alone(me: Obj): map<Obj, Pair> { map[me := Pair(me, me, [], false)] }

  /** The first object of `history` that `curr` repeats, itself or in type, decides; 0 if there is none. */
  function LoopCode(h: Heap, history: seq<Obj>, curr: Obj): int {
    if history == [] then 0
    else if history[0] == curr then ERR_LOOP
    else if h.recurMatch(curr, history[0]) then ERR_RECUR
    else LoopCode(h, history[1..], curr)
  }

  /** The first objection validateEqvStack has to `curr` on top of `history`; 0 if there is none. */
  function StackCode(h: Heap, history: seq<Obj>, curr: Obj): int {
    if LoopCode(h, history, curr) != 0 then LoopCode(h, history, curr)
    else if |history| > 1 && exists i :: 0 <= i < |history| && h.sameTypes(curr, history[i]) then ERR_DEEP
    else 0
  }

  /** `run` is how `res` came about as the result for `me`. */
  ghost predicate Ran(h: Heap, d: Dir, me: Obj, run: Run, res: map<Obj, Pair>)
    decreases run
  {
    match run
    case Cut(stack, limit) => res == map[] && (limit || StackCode(h, stack, me) != 0)
    case Gathered(host, entries) =>
      if d == Backward && !h.dummy(me) then host.None? && entries == [] && res == Alone(me)
      else
        && HostRan(h, d, me, host)
        && |entries| <= |h.pointsFrom(me)|
        && (forall i :: 0 <= i < |entries| ==> EntryRan(h, d, me, i, entries[i]))
        && (|entries| < |h.pointsFrom(me)| ==>
            entries != [] && entries[|entries| - 1].Some? && entries[|entries| - 1].value.err == ERR_ENUM)
        && Added(h, d, Alone(me), res, Wants(h, d, me, host, entries))
  }

  ghost predicate HostRan(h: Heap, d: Dir, me: Obj, host: Option<Sub>)
    decreases host
  {
    && (host.Some? <==> h.parent(me).Some?)
    && (host.Some? ==>
          Ran(h, d, h.parent(me).value.0, host.value.run, host.value.res)
          && (host.value.err != 0 ==> !Whole(host.value.run)))
  }

  ghost predicate EntryRan(h: Heap, d: Dir, me: Obj, i: nat, e: Option<Sub>)
    decreases e
  {
    && i < |h.pointsFrom(me)|
    && (e.Some? <==> EligibleOf(d, h.pointsFrom(me)[i].1) != [])
    && (e.Some? ==>
          && Ran(h, d, h.pointsFrom(me)[i].0, e.value.run, e.value.res)
          && (e.value.err != 0 ==> !Whole(e.value.run)))
  }

  /** Nothing was cut off anywhere. */
  ghost predicate Whole(run: Run)
    decreases run
  {
    && run.Gathered?
    && (run.host.Some? ==> Whole(run.host.value.run))
    && (forall i :: 0 <= i < |run.entries| && run.entries[i].Some? ==> Whole(run.entries[i].value.run))
  }

  /** One of the searches this one depends on was cut off, as far as its error code tells. */
  ghost predicate Aborted(run: Run) {
    && run.Gathered?
    && (|| (run.host.Some? && run.host.value.err < 0)
        || exists i :: 0 <= i < |run.entries| && run.entries[i].Some? && run.entries[i].value.err < 0)
  }

  /** The error code of a search that was not cut off at once: forward, that of the host; backward,
      that of the last search it depends on. */
  ghost function ErrOf(d: Dir, host: Option<Sub>, entries: seq<Option<Sub>>): int
    decreases |entries|
  {
    if d == Forward || entries == [] then (if host.Some? then host.value.err else 0)
    else if entries[|entries| - 1].Some? then entries[|entries| - 1].value.err
    else ErrOf(d, host, entries[..|entries| - 1])
  }

  /** A forward search hands on the error of its host.  A backward one hands on that of the last search of an
      eligible object, whatever the others said, and that of its host only if there was none. */
  lemma {:induction false} ErrMeans(d: Dir, host: Option<Sub>, entries: seq<Option<Sub>>)
    ensures (d == Forward || forall i :: 0 <= i < |entries| ==> entries[i].None?) ==>
              ErrOf(d, host, entries) == if host.Some? then host.value.err else 0
    ensures forall i :: (d == Backward && 0 <= i < |entries| && entries[i].Some?
                         && forall j :: i < j < |entries| ==> entries[j].None?) ==>
                          ErrOf(d, host, entries) == entries[i].value.err
    decreases |entries|
  {
    if d == Backward && entries != [] && entries[|entries| - 1].None? {
      var rest := entries[..|entries| - 1];
      ErrMeans(d, host, rest);
      assert forall j :: 0 <= j < |rest| ==> rest[j] == entries[j];
    }
  }

  lemma {:induction false} ErrIsNotWhole(h: Heap, d: Dir, me: Obj, host: Option<Sub>, entries: seq<Option<Sub>>,
                                         all: seq<Option<Sub>>)
    requires HostRan(h, d, me, host) && forall i :: 0 <= i < |all| ==> EntryRan(h, d, me, i, all[i])
    requires entries <= all && ErrOf(d, host, entries) != 0
    ensures !Whole(Gathered(host, all))
    decreases |entries|
  {
    hide Ran;
    if d == Forward || entries == [] {
    } else if entries[|entries| - 1].Some? {
      assert all[|entries| - 1] == entries[|entries| - 1];
      assert EntryRan(h, d, me, |entries| - 1, all[|entries| - 1]);
    } else {
      ErrIsNotWhole(h, d, me, host, entries[..|entries| - 1], all);
    }
  }

  /** The host and the entries explored so far, and what they gave. */
  ghost predicate SoFar(h: Heap, d: Dir, me: Obj, host: Option<Sub>, entries: seq<Option<Sub>>, res: map<Obj, Pair>) {
    && HostRan(h, d, me, host)
    && |entries| <= |h.pointsFrom(me)|
    && (forall i :: 0 <= i < |entries| ==> EntryRan(h, d, me, i, entries[i]))
    && Added(h, d, Alone(me), res, Wants(h, d, me, host, entries))
  }

  lemma HostSoFar(h: Heap, d: Dir, me: Obj, host: Option<Sub>, res: map<Obj, Pair>)
    requires HostRan(h, d, me, host)
    requires Added(h, d, Alone(me), res, if host.Some?
                   then HostWants(h, d, me, h.parent(me).value.1, host.value.res, host.value.res.Keys) else {})
    ensures SoFar(h, d, me, host, [], res)
  {
    hide Added, HostWants, Ran;
    assert Wants(h, d, me, host, []) ==
           if host.Some? then HostWants(h, d, me, h.parent(me).value.1, host.value.res, host.value.res.Keys) else {};
  }

  lemma OneMoreEntry(h: Heap, d: Dir, me: Obj, host: Option<Sub>, entries: seq<Option<Sub>>, res: map<Obj, Pair>,
                     e: Option<Sub>, out: map<Obj, Pair>)
    requires SoFar(h, d, me, host, entries, res) && EntryRan(h, d, me, |entries|, e)
    requires if e.Some? then Added(h, d, res, out,
                                   EntryWants(h, d, me, EligibleOf(d, h.pointsFrom(me)[|entries|].1), e.value.res,
                                              e.value.res.Keys))
             else out == res
    ensures SoFar(h, d, me, host, entries + [e], out)
  {
    hide Added, HostWants, EntryWants, Ran, Whole, Wants;
    var more := entries + [e];
    var i := |entries|;
    assert more[i] == e;
    var was := Wants(h, d, me, host, entries);
    if e.Some? {
      AddedTrans(h, d, Alone(me), res, out, was, Offer(h, d, me, i, e));
    } else {
      assert was + {} == was;
    }
    MoreWants(h, d, me, host, entries, e);
    forall j | 0 <= j < |more| ensures EntryRan(h, d, me, j, more[j]) {
      assert j < i ==> more[j] == entries[j];
    }
  }

  /** What one explored entry has to offer. */
  ghost function Offer(h: Heap, d: Dir, me: Obj, i: nat, e: Option<Sub>): set<Pair>
    requires i < |h.pointsFrom(me)|
  {
    if e.Some? then EntryWants(h, d, me, EligibleOf(d, h.pointsFrom(me)[i].1), e.value.res, e.value.res.Keys) else {}
  }

  lemma MoreWants(h: Heap, d: Dir, me: Obj, host: Option<Sub>, entries: seq<Option<Sub>>, e: Option<Sub>)
    requires |entries| < |h.pointsFrom(me)| && (host.Some? ==> h.parent(me).Some?)
    ensures Wants(h, d, me, host, entries + [e]) == Wants(h, d, me, host, entries) + Offer(h, d, me, |entries|, e)
  {
    hide HostWants, Offer;
    var more := entries + [e];
    assert more[|entries|] == e;
    assert forall j :: 0 <= j < |entries| ==> more[j] == entries[j];
    forall x | x in Wants(h, d, me, host, entries) ensures x in Wants(h, d, me, host, more) {
      if j :| 0 <= j < |entries| && x in Offer(h, d, me, j, entries[j]) {
        assert x in Offer(h, d, me, j, more[j]);
      }
    }
    forall x | x in Offer(h, d, me, |entries|, e) ensures x in Wants(h, d, me, host, more) {
      assert x in Offer(h, d, me, |entries|, more[|entries|]);
    }
  }

  lemma GatheredRan(h: Heap, d: Dir, me: Obj, host: Option<Sub>, entries: seq<Option<Sub>>, res: map<Obj, Pair>)
    requires SoFar(h, d, me, host, entries, res) && (d == Backward ==> h.dummy(me))
    requires |entries| < |h.pointsFrom(me)| ==>
             entries != [] && entries[|entries| - 1].Some? && entries[|entries| - 1].value.err == ERR_ENUM
    ensures Ran(h, d, me, Gathered(host, entries), res)
    ensures ErrOf(d, host, entries) != 0 ==> !Whole(Gathered(host, entries))
  {
    hide Added, Wants, HostRan, EntryRan;
    if ErrOf(d, host, entries) != 0 {
      ErrIsNotWhole(h, d, me, host, entries, entries);
    }
  }

  /** Nothing speaks against searching from `curr` while the searches from `history` are pending: it repeats
      no object and no recursive type of theirs, and if there are two or more of them no type at all. */
  ghost predicate Unobjectionable(h: Heap, history: seq<Obj>, curr: Obj) {
    && (forall o :: o in history ==> o != curr && !h.recurMatch(curr, o))
    && (|history| <= 1 || forall o :: o in history ==> !h.sameTypes(curr, o))
  }

  lemma StackCodeMeans(h: Heap, history: seq<Obj>, curr: Obj)
    ensures StackCode(h, history, curr) == 0 <==> Unobjectionable(h, history, curr)
    ensures StackCode(h, history, curr) == -3 <==>
            && (forall o :: o in history ==> o != curr && !h.recurMatch(curr, o))
            && |history| > 1 && exists o :: o in history && h.sameTypes(curr, o)
    ensures -3 <= StackCode(h, history, curr) <= 0
    ensures StackCode(h, history, curr) == 0 ==> curr !in history
    ensures history == [] ==> StackCode(h, history, curr) == 0
  {
    LoopCodeMeans(h, history, curr);
    if i :| 0 <= i < |history| && h.sameTypes(curr, history[i]) {
      assert history[i] in history;
    }
    if o :| o in history && h.sameTypes(curr, o) {
      var i :| 0 <= i < |history| && history[i] == o;
    }
  }

  /** Which of the two objections is raised is decided by the first object that gives rise to one. */
  lemma {:induction false} FirstObjection(h: Heap, history: seq<Obj>, curr: Obj, i: nat)
    requires i < |history| && (history[i] == curr || h.recurMatch(curr, history[i]))
    requires forall j :: 0 <= j < i ==> history[j] != curr && !h.recurMatch(curr, history[j])
    ensures StackCode(h, history, curr) == LoopCode(h, history, curr) == if history[i] == curr then -1 else -2
    decreases |history|
  {
    if i == 0 {
    } else {
      var rest := history[1..];
      assert forall j :: 0 <= j < |rest| ==> rest[j] == history[j + 1];
      FirstObjection(h, rest, curr, i - 1);
    }
  }

  lemma {:induction false} LoopCodeMeans(h: Heap, history: seq<Obj>, curr: Obj)
    ensures ERR_RECUR <= LoopCode(h, history, curr) <= 0
    ensures LoopCode(h, history, curr) == 0 <==> forall o :: o in history ==> o != curr && !h.recurMatch(curr, o)
  {
    if history != [] {
      var rest := history[1..];
      LoopCodeMeans(h, rest, curr);
      assert history == [history[0]] + rest;
      if LoopCode(h, history, curr) == 0 {
        forall o | o in history ensures o != curr && !h.recurMatch(curr, o) {
          assert o == history[0] || o in rest;
        }
      } else if history[0] != curr && !h.recurMatch(curr, history[0]) {
        var o :| o in rest && (o == curr || h.recurMatch(curr, o));
        assert o in history;
      } else {
        assert history[0] in history;
      }
    }
  }

  /** A result has a history. */
  ghost predicate Searched(h: Heap, d: Dir, me: Obj, res: map<Obj, Pair>) {
    exists run :: Ran(h, d, me, run, res)
  }

  /** A search that nothing was cut off from finds every object one layer away. */
  lemma {:induction false} WholeFindsAll(h: Heap, d: Dir, me: Obj, run: Run, res: map<Obj, Pair>, w: Why, b: Obj,
                                         p: Path)
    requires Ran(h, d, me, run, res) && Whole(run)
    requires Proves(h, d, w, From(d, me, b), To(d, me, b), p)
    ensures b in res
    decreases w, 0
  {
    hide Covers, HostPair, FarPair;
    match w
    case Self =>
    case Host(v, other) =>
      HostFound(h, d, me, run, res, v, other, b, p);
    case Link(v, o, o', esc, fet) =>
      LinkFound(h, d, me, run, res, v, o, o', esc, fet, b, p);
  }

  lemma {:induction false} HostFound(h: Heap, d: Dir, me: Obj, run: Run, res: map<Obj, Pair>, v: Why, other: Obj,
                                     b: Obj, p: Path)
    requires Ran(h, d, me, run, res) && Whole(run)
    requires Proves(h, d, Host(v, other), From(d, me, b), To(d, me, b), p)
    ensures b in res
    decreases v, 1
  {
    hide Covers;
    var up := h.parent(me).value;
    var host := run.host.value;
    assert Proves(h, d, v, From(d, up.0, other), To(d, up.0, other), p);
    WholeFindsAll(h, d, up.0, host.run, host.res, v, other, p);
    var x := HostPair(h, d, me, up.1, other, host.res[other].paths);
    assert x.Some? && x.value in HostWants(h, d, me, up.1, host.res, host.res.Keys);
    assert x.value in Wants(h, d, me, run.host, run.entries);
    assert KeyOf(d, x.value) == b;
  }

  lemma {:induction false} LinkFound(h: Heap, d: Dir, me: Obj, run: Run, res: map<Obj, Pair>, v: Why, o: Obj, o': Obj,
                                     esc: Pto, fet: Pto, b: Obj, p: Path)
    requires Ran(h, d, me, run, res) && Whole(run)
    requires Proves(h, d, Link(v, o, o', esc, fet), From(d, me, b), To(d, me, b), p)
    ensures b in res
    decreases v, 1
  {
    hide Covers;
    var near, far, rec, fr := if d == Forward then o else o', if d == Forward then o' else o, if d == Forward then esc
        else fet, if d == Forward then fet else esc;
    var i, x := PointsIndex(h, near, me, rec);
    var ptos := EligibleOf(d, h.pointsFrom(me)[i].1);
    assert rec in ptos;
    AllEntries(h, d, me, run, res);
    assert EntryRan(h, d, me, i, run.entries[i]);
    var e := run.entries[i].value;
    WholeFindsAll(h, d, near, e.run, e.res, v, far, p[1..|p| - 1]);
    EntryOffers(h, d, me, ptos, e.res, far, rec, fr);
    var y := FarPair(h, d, me, rec, fr, e.res[far].paths).value;
    assert y in Offer(h, d, me, i, run.entries[i]);
    assert y in Wants(h, d, me, run.host, run.entries);
    assert KeyOf(d, y) == b;
  }

  lemma PointsIndex(h: Heap, o: Obj, target: Obj, e: Pto) returns (i: nat, j: nat)
    requires Points(h, o, target, e)
    ensures i < |h.pointsFrom(target)| && h.pointsFrom(target)[i].0 == o && e in h.pointsFrom(target)[i].1
  {
    i, j :| 0 <= i < |h.pointsFrom(target)| && h.pointsFrom(target)[i].0 == o
            && 0 <= j < |h.pointsFrom(target)[i].1| && h.pointsFrom(target)[i].1[j] == e;
  }

  lemma AllEntries(h: Heap, d: Dir, me: Obj, run: Run, res: map<Obj, Pair>)
    requires Ran(h, d, me, run, res) && run.Gathered? && (d == Backward ==> h.dummy(me))
    ensures |run.entries| < |h.pointsFrom(me)| ==> !Whole(run)
  {
    hide Added;
    if |run.entries| < |h.pointsFrom(me)| {
      assert EntryRan(h, d, me, |run.entries| - 1, run.entries[|run.entries| - 1]);
    }
  }

  lemma EntryOffers(h: Heap, d: Dir, me: Obj, ptos: seq<Pto>, r: map<Obj, Pair>, k: Obj, rec: Pto, far: Pto)
    requires k in r && rec in ptos && far in h.pointsTo(k, rec.field) && FarPair(h, d, me, rec, far, r[k].paths).Some?
    ensures FarPair(h, d, me, rec, far, r[k].paths).value in EntryWants(h, d, me, ptos, r, r.Keys)
  {
    hide FarPair;
    var j :| 0 <= j < |ptos| && ptos[j] == rec;
    var i :| 0 <= i < |h.pointsTo(k, rec.field)| && h.pointsTo(k, rec.field)[i] == far;
    assert FarPair(h, d, me, rec, far, r[k].paths).value in AllOfRecord(h, d, me, ptos[j], k, r[k].paths);
    assert FarPair(h, d, me, rec, far, r[k].paths).value in PtoWants(h, d, me, ptos, k, r[k].paths, |ptos|);
  }

  /** Pruning apart, one search finds exactly the objects that are one layer away. */
  lemma WholeIsExact(h: Heap, d: Dir, me: Obj, run: Run, res: map<Obj, Pair>, b: Obj)
    requires SoundMap(h, d, me, res) && Ran(h, d, me, run, res) && Whole(run)
    ensures b in res <==> exists p :: Derivable(h, d, From(d, me, b), To(d, me, b), p)
  {
    hide Proves, Ran, Whole;
    if b in res {
      var ps := res[b].paths;
      assert SoundPaths(h, d, From(d, me, b), To(d, me, b), ps);
      var p: Path := if ps == [] then [] else ps[0];
      assert Derivable(h, d, From(d, me, b), To(d, me, b), p);
    }
    if p :| Derivable(h, d, From(d, me, b), To(d, me, b), p) {
      var w :| Proves(h, d, w, From(d, me, b), To(d, me, b), p);
      WholeFindsAll(h, d, me, run, res, w, b, p);
    }
  }

  type Cache = map<Obj, map<Obj, Pair>>

  ghost predicate SoundCache(h: Heap, d: Dir, c: Cache) {
    forall o :: o in c ==> SoundMap(h, d, o, c[o]) && Searched(h, d, o, c[o])
  }

  /** From `b` to `c` nothing cached changed, and no object whose search is pending came in. */
  ghost predicate Retained(history: seq<Obj>, b: Cache, c: Cache) {
    && (forall o :: o in b ==> o in c && c[o] == b[o])
    && (forall x :: x in history && x in c ==> x in b)
  }

  lemma RetainedTrans(history: seq<Obj>, a: Cache, b: Cache, c: Cache)
    requires Retained(history, a, b) && Retained(history, b, c)
    ensures Retained(history, a, c)
  {
  }

  lemma RetainedRefl(history: seq<Obj>, c: Cache)
    ensures Retained(history, c, c)
  {
  }

  /** The object at the top of the stack is done: its result may be cached. */
  lemma RetainedStore(h: Heap, d: Dir, history: seq<Obj>, me: Obj, b: Cache, c: Cache, res: map<Obj, Pair>)
    requires Retained(history + [me], b, c) && me !in b && me !in history
    requires SoundCache(h, d, c) && SoundMap(h, d, me, res) && Searched(h, d, me, res)
    ensures Retained(history, b, c) && Retained(history, b, c[me := res])
    ensures SoundCache(h, d, c[me := res])
  {
    hide SoundMap, Searched;
    assert forall x :: x in history + [me] <==> x in history || x == me;
  }

  // ---- several layers ------------------------------------------------------------------------

  /** `p` leads from `a` to `b` through `n` layers. */
  ghost predicate Star(h: Heap, d: Dir, a: Obj, b: Obj, p: Path, n: nat)
    decreases n
  {
    if n == 0 then a == b && p == []
    else exists m, q, r :: Star(h, d, a, m, q, n - 1) && Derivable(h, d, m, b, r) && p == q + r
  }

  ghost predicate Leads(h: Heap, d: Dir, a: Obj, b: Obj, p: Path) {
    exists n :: Star(h, d, a, b, p, n)
  }

  lemma DerivableLeads(h: Heap, d: Dir, a: Obj, b: Obj, p: Path)
    requires Derivable(h, d, a, b, p)
    ensures Leads(h, d, a, b, p)
  {
    hide Derivable;
    assert Star(h, d, a, a, [], 0) && p == [] + p;
    assert Star(h, d, a, b, p, 1);
  }

  lemma {:induction false} StarJoin(h: Heap, d: Dir, a: Obj, m: Obj, b: Obj, q: Path, r: Path, k: nat, n: nat)
    requires Star(h, d, a, m, q, k) && Star(h, d, m, b, r, n)
    ensures Star(h, d, a, b, q + r, k + n)
    decreases n
  {
    hide Derivable;
    if n == 0 {
      assert q + r == q;
    } else {
      var x, s, t :| Star(h, d, m, x, s, n - 1) && Derivable(h, d, x, b, t) && r == s + t;
      StarJoin(h, d, a, m, x, q, s, k, n - 1);
      assert q + r == (q + s) + t;
    }
  }

  lemma LeadsJoin(h: Heap, d: Dir, a: Obj, m: Obj, b: Obj, q: Path, r: Path)
    requires Leads(h, d, a, m, q) && Leads(h, d, m, b, r)
    ensures Leads(h, d, a, b, q + r)
  {
    var k :| Star(h, d, a, m, q, k);
    var n :| Star(h, d, m, b, r, n);
    StarJoin(h, d, a, m, b, q, r, k, n);
  }

  /** Every path the search can build is a run of blocks. */
  lemma {:induction false} StarPathIsBlocks(h: Heap, d: Dir, a: Obj, b: Obj, p: Path, n: nat)
    requires h.Filed() && Star(h, d, a, b, p, n)
    ensures Blocks(p)
    decreases n
  {
    if n == 0 {
    } else {
      var m, q, r :| Star(h, d, a, m, q, n - 1) && Derivable(h, d, m, b, r) && p == q + r;
      StarPathIsBlocks(h, d, a, m, q, n - 1);
      var w :| Proves(h, d, w, m, b, r);
      var k := DerivedPathIsBlock(h, d, w, m, b, r);
      OneBlock(r, k);
      ConnectBlocks(q, r);
    }
  }

  ghost predicate LeadPaths(h: Heap, d: Dir, a: Obj, b: Obj, ps: seq<Path>) {
    && (ps == [] ==> Leads(h, d, a, b, []))
    && (forall i :: 0 <= i < |ps| ==> Leads(h, d, a, b, ps[i]))
  }

  lemma SoundPathsLead(h: Heap, d: Dir, a: Obj, b: Obj, ps: seq<Path>)
    requires SoundPaths(h, d, a, b, ps)
    ensures LeadPaths(h, d, a, b, ps)
  {
    hide Derivable, Leads;
    if ps == [] {
      DerivableLeads(h, d, a, b, []);
    }
    forall i | 0 <= i < |ps| ensures Leads(h, d, a, b, ps[i]) {
      DerivableLeads(h, d, a, b, ps[i]);
    }
  }

  lemma CappedLeads(h: Heap, d: Dir, a: Obj, b: Obj, ps: seq<Path>)
    requires LeadPaths(h, d, a, b, ps)
    ensures LeadPaths(h, d, a, b, Capped(ps, true, false, a, b, h.ctx))
  {
    hide Leads, Trimmed, Extract;
    if |ps| >= EF_PATH_TRIM_THRESHOLD {
      TrimExtracts(ps, a, b, h.ctx);
      var r := Trimmed(ps, a, b, h.ctx);
      ExtractMeans(r, ps, a, b, h.ctx);
      forall k | 0 <= k < |r| ensures Leads(h, d, a, b, r[k]) {
        var i :| 0 <= i < |ps| && ps[i] == r[k];
      }
    }
  }

  lemma SplitConnected(ps: seq<Path>, qs: seq<Path>, x: Path) returns (s: Path, t: Path)
    requires x in Language(Connected(ps, qs))
    ensures s in Language(ps) && t in Language(qs) && x == s + t
  {
    ConnectIsConcatenation(ps, qs);
    s, t :| s in Language(ps) && t in Language(qs) && s + t == x;
  }

  lemma ConnectLeads(h: Heap, d: Dir, p: Pair, q: Pair)
    requires p.dst == q.src
    requires LeadPaths(h, d, p.src, p.dst, p.paths) && LeadPaths(h, d, q.src, q.dst, q.paths)
    ensures LeadPaths(h, d, p.src, q.dst, ConnectPair(h.ctx, true, p, q).value.paths)
  {
    hide Leads, Capped, Connected, LeadPaths;
    var nps := Connected(p.paths, q.paths);
    forall x | x in Language(nps) ensures Leads(h, d, p.src, q.dst, x) {
      var s, t := SplitConnected(p.paths, q.paths, x);
      LanguageLeads(h, d, p.src, p.dst, p.paths, s);
      LanguageLeads(h, d, q.src, q.dst, q.paths, t);
      LeadsJoin(h, d, p.src, p.dst, q.dst, s, t);
    }
    FromLanguage(h, d, p.src, q.dst, nps);
    CappedLeads(h, d, p.src, q.dst, nps);
  }

  lemma FromLanguage(h: Heap, d: Dir, a: Obj, b: Obj, ps: seq<Path>)
    requires forall x :: x in Language(ps) ==> Leads(h, d, a, b, x)
    ensures LeadPaths(h, d, a, b, ps)
  {
    hide Leads;
    forall i | 0 <= i < |ps| ensures Leads(h, d, a, b, ps[i]) {
      assert ps[i] in Language(ps);
    }
  }

  lemma LanguageLeads(h: Heap, d: Dir, a: Obj, b: Obj, ps: seq<Path>, x: Path)
    requires LeadPaths(h, d, a, b, ps) && x in Language(ps)
    ensures Leads(h, d, a, b, x)
  {
    hide Leads;
    if ps != [] {
      var i :| 0 <= i < |ps| && ps[i] == x;
    }
  }

  /** The results over several layers. */
  ghost predicate LeadMap(h: Heap, d: Dir, me: Obj, m: map<Obj, Pair>) {
    forall k :: k in m ==>
      && k in h.objs
      && m[k].src == From(d, me, k) && m[k].dst == To(d, me, k)
      && LeadPaths(h, d, From(d, me, k), To(d, me, k), m[k].paths)
  }

  /** Stitching the way to `o` and the layer beyond it; the two always meet. */
  lemma StitchLeads(h: Heap, d: Dir, me: Obj, res: map<Obj, Pair>, o: Obj, tmp: map<Obj, Pair>, no: Obj)
    requires LeadMap(h, d, me, res) && o in res && SoundMap(h, d, o, tmp) && no in tmp
    ensures var np := if d == Forward then ConnectPair(h.ctx, true, res[o], tmp[no])
            else ConnectPair(h.ctx, true, tmp[no], res[o]);
            np.Some? && LeadMap(h, d, me, res[no := np.value])
  {
    hide Leads, SoundPaths, LeadPaths, Connected, Capped;
    SoundPathsLead(h, d, From(d, o, no), To(d, o, no), tmp[no].paths);
    if d == Forward {
      ConnectLeads(h, d, res[o], tmp[no]);
    } else {
      ConnectLeads(h, d, tmp[no], res[o]);
    }
  }

  // ---- rounds --------------------------------------------------------------------------------

  /** What one layer of search, as cached in `c`, adds to the objects in `s`. */
  ghost function Next(c: Cache, s: set<Obj>): set<Obj> {
    set o, k | o in s && o in c && k in c[o] :: k
  }

  /** The objects within `n` one-layer steps of `me`. */
  ghost function Within(c: Cache, me: Obj, n: nat): set<Obj> {
    if n == 0 then {me} else Within(c, me, n - 1) + Next(c, Within(c, me, n - 1))
  }

  /** Objects the closure explores; backward, a concrete object only leads to itself. */
  predicate Explorable(h: Heap, d: Dir, me: Obj, o: Obj) {
    d == Forward || h.dummy(o) || o == me
  }

  ghost predicate Explored(h: Heap, d: Dir, me: Obj, c: Cache, s: set<Obj>) {
    forall o :: o in s && Explorable(h, d, me, o) ==> o in c
  }

  ghost predicate Extends(b: Cache, c: Cache) {
    forall o :: o in b ==> o in c && c[o] == b[o]
  }

  lemma ConcreteOnlyItself(h: Heap, d: Dir, me: Obj, c: Cache, o: Obj, k: Obj)
    requires SoundCache(h, d, c) && o in c && k in c[o] && !Explorable(h, d, me, o)
    ensures k == o
  {
    hide Searched;
    assert SoundMap(h, d, o, c[o]);
    var ps := c[o][k].paths;
    assert SoundPaths(h, d, k, o, ps);
    var p: Path := if ps == [] then [] else ps[0];
    assert Derivable(h, d, k, o, p);
    var w :| Proves(h, d, w, k, o, p);
  }

  /** Once a set is explored, what it leads to no longer depends on how the cache grows. */
  lemma NextIsStable(h: Heap, d: Dir, me: Obj, b: Cache, c: Cache, s: set<Obj>)
    requires Extends(b, c) && SoundCache(h, d, c) && Explored(h, d, me, b, s)
    ensures s + Next(b, s) == s + Next(c, s)
  {
    hide SoundCache;
    forall k | k in Next(c, s) ensures k in s + Next(b, s) {
      var o :| o in s && o in c && k in c[o];
      if Explorable(h, d, me, o) {
        assert o in b && b[o] == c[o];
      } else {
        ConcreteOnlyItself(h, d, me, c, o, k);
      }
    }
    forall k | k in Next(b, s) ensures k in Next(c, s) {
      var o :| o in s && o in b && k in b[o];
      assert o in c && c[o] == b[o];
    }
  }

  lemma {:induction false} WithinGrows(c: Cache, me: Obj, i: nat, n: nat)
    requires i <= n
    ensures Within(c, me, i) <= Within(c, me, n)
    decreases n
  {
    if i >= n {
    } else {
      WithinGrows(c, me, i, n - 1);
    }
  }

  lemma {:induction false} WithinIsStable(h: Heap, d: Dir, me: Obj, b: Cache, c: Cache, n: nat)
    requires Extends(b, c) && SoundCache(h, d, c)
    requires n > 0 ==> Explored(h, d, me, b, Within(b, me, n - 1))
    ensures Within(b, me, n) == Within(c, me, n)
    decreases n
  {
    hide SoundCache;
    if n == 0 {
    } else {
      if n > 1 {
        WithinGrows(b, me, n - 2, n - 1);
      }
      WithinIsStable(h, d, me, b, c, n - 1);
      NextIsStable(h, d, me, b, c, Within(b, me, n - 1));
    }
  }

  /** One round of the closure takes it from the objects within `n` steps to those within `n + 1`:
      only the newest objects have to be looked at. */
  lemma RoundGivesWithin(h: Heap, d: Dir, me: Obj, b: Cache, c: Cache, n: nat, newest: set<Obj>, keys: set<Obj>)
    requires Extends(b, c) && SoundCache(h, d, c)
    requires n > 0 ==> Explored(h, d, me, b, Within(b, me, n - 1))
    requires newest <= Within(b, me, n) && newest <= c.Keys
    requires forall o :: o in Within(b, me, n) && Explorable(h, d, me, o) ==>
             o in newest || (n > 0 && o in Within(b, me, n - 1))
    requires keys == Within(b, me, n) + Next(c, newest)
    ensures keys == Within(c, me, n + 1)
    ensures Explored(h, d, me, c, Within(c, me, n))
  {
    hide SoundCache, Explorable;
    var w := Within(b, me, n);
    WithinIsStable(h, d, me, b, c, n);
    forall k | k in Next(c, w) ensures k in keys {
      var o :| o in w && o in c && k in c[o];
      if !Explorable(h, d, me, o) {
        ConcreteOnlyItself(h, d, me, c, o, k);
      } else if o !in newest {
        assert o in b && c[o] == b[o];
        assert k in Next(b, Within(b, me, n - 1));
      }
    }
    assert Next(c, newest) <= Next(c, w);
  }

  // ---- what the rounds find when nothing is cut off --------------------------------------------------

  /** The way from `me` to `b`, in the direction of the search, through `n` layers. */
  ghost predicate Away(h: Heap, d: Dir, me: Obj, b: Obj, n: nat) {
    exists p :: Star(h, d, From(d, me, b), To(d, me, b), p, n)
  }

  /** What was found for the objects of `s` was found by searches nothing was cut off from. */
  ghost predicate AllWhole(h: Heap, d: Dir, c: Cache, s: set<Obj>) {
    forall o :: o in s && o in c ==> exists run :: Ran(h, d, o, run, c[o]) && Whole(run)
  }

  /** The first layer of a way, set apart. */
  lemma {:induction false} FirstLayer(h: Heap, d: Dir, a: Obj, b: Obj, p: Path, n: nat)
    returns (m: Obj, q: Path, r: Path)
    requires n > 0 && Star(h, d, a, b, p, n)
    ensures Derivable(h, d, a, m, q) && Star(h, d, m, b, r, n - 1) && p == q + r
    decreases n
  {
    hide Derivable;
    var x, s, t :| Star(h, d, a, x, s, n - 1) && Derivable(h, d, x, b, t) && p == s + t;
    if n == 1 {
      m, q, r := b, t, [];
      assert p == q + r;
    } else {
      var s';
      m, q, s' := FirstLayer(h, d, a, x, s, n - 1);
      r := s' + t;
      assert Star(h, d, m, b, r, n - 1);
      assert p == q + r;
    }
  }

  /** One layer more: the object that is one layer further away, seen from the one before it. */
  lemma AwayStep(h: Heap, d: Dir, me: Obj, o: Obj, b: Obj, n: nat, p: Path)
    requires Away(h, d, me, o, n) && Derivable(h, d, From(d, o, b), To(d, o, b), p)
    ensures Away(h, d, me, b, n + 1)
  {
    hide Derivable;
    var q :| Star(h, d, From(d, me, o), To(d, me, o), q, n);
    if d == Forward {
      assert Star(h, d, me, o, q, (n + 1) - 1);
      assert Star(h, d, From(d, me, b), To(d, me, b), q + p, n + 1);
    } else {
      assert Star(h, d, b, b, [], 0) && p == [] + p;
      assert Star(h, d, b, o, p, 1);
      StarJoin(h, d, b, o, me, p, q, 1, n);
      assert Star(h, d, From(d, me, b), To(d, me, b), p + q, n + 1);
    }
  }

  lemma LastStep(h: Heap, d: Dir, me: Obj, b: Obj, n: nat) returns (o: Obj, p: Path)
    requires n > 0 && Away(h, d, me, b, n)
    ensures Away(h, d, me, o, n - 1) && Derivable(h, d, From(d, o, b), To(d, o, b), p)
  {
    hide Derivable;
    var q :| Star(h, d, From(d, me, b), To(d, me, b), q, n);
    if d == Forward {
      var s;
      o, s, p :| Star(h, d, me, o, s, n - 1) && Derivable(h, d, o, b, p) && q == s + p;
      assert Star(h, d, From(d, me, o), To(d, me, o), s, n - 1);
    } else {
      var r;
      o, p, r := FirstLayer(h, d, b, me, q, n);
      assert Star(h, d, From(d, me, o), To(d, me, o), r, n - 1);
    }
  }

  /** When no search was cut off, the objects within `n` steps are exactly those at most `n` layers away. */
  lemma {:induction false} WithinIsExact(h: Heap, d: Dir, me: Obj, c: Cache, n: nat, b: Obj)
    requires SoundCache(h, d, c)
    requires n > 0 ==> Explored(h, d, me, c, Within(c, me, n - 1)) && AllWhole(h, d, c, Within(c, me, n - 1))
    ensures b in Within(c, me, n) <==> exists k :: 0 <= k <= n && Away(h, d, me, b, k)
    decreases n
  {
    hide SoundCache, AllWhole, Away, Next;
    if n == 0 {
      AwayNowhere(h, d, me, b);
    } else {
      if n > 1 {
        WithinGrows(c, me, n - 2, n - 1);
        FewerWhole(h, d, me, c, Within(c, me, n - 2), Within(c, me, n - 1));
      }
      if b in Within(c, me, n) {
        if b in Within(c, me, n - 1) {
          WithinIsExact(h, d, me, c, n - 1, b);
        } else {
          var o := NextFrom(c, Within(c, me, n - 1), b);
          WithinIsExact(h, d, me, c, n - 1, o);
          var k :| 0 <= k <= n - 1 && Away(h, d, me, o, k);
          var p := FoundIsDerivable(h, d, c, o, b);
          AwayStep(h, d, me, o, b, k, p);
        }
      }
      if k :| 0 <= k <= n && Away(h, d, me, b, k) {
        if k == 0 {
          AwayNowhere(h, d, me, b);
          WithinGrows(c, me, 0, n);
        } else {
          var o, p := LastStep(h, d, me, b, k);
          WithinIsExact(h, d, me, c, n - 1, o);
          DerivableIsFound(h, d, me, c, n, o, b, p);
        }
      }
    }
  }

  lemma AwayNowhere(h: Heap, d: Dir, me: Obj, b: Obj)
    ensures Away(h, d, me, b, 0) <==> b == me
  {
    if b == me {
      assert Star(h, d, From(d, me, b), To(d, me, b), [], 0);
    }
  }

  lemma FewerWhole(h: Heap, d: Dir, me: Obj, c: Cache, r: set<Obj>, s: set<Obj>)
    requires r <= s && Explored(h, d, me, c, s) && AllWhole(h, d, c, s)
    ensures Explored(h, d, me, c, r) && AllWhole(h, d, c, r)
  {
    hide Ran, Whole;
  }

  lemma NextFrom(c: Cache, s: set<Obj>, b: Obj) returns (o: Obj)
    requires b in Next(c, s)
    ensures o in s && o in c && b in c[o]
  {
    o :| o in s && o in c && b in c[o];
  }

  lemma FoundIsDerivable(h: Heap, d: Dir, c: Cache, o: Obj, b: Obj) returns (p: Path)
    requires SoundCache(h, d, c) && o in c && b in c[o]
    ensures Derivable(h, d, From(d, o, b), To(d, o, b), p)
  {
    hide Derivable, Searched;
    assert SoundMap(h, d, o, c[o]);
    var ps := c[o][b].paths;
    assert SoundPaths(h, d, From(d, o, b), To(d, o, b), ps);
    p := if ps == [] then [] else ps[0];
  }

  lemma DerivableIsFound(h: Heap, d: Dir, me: Obj, c: Cache, n: nat, o: Obj, b: Obj, p: Path)
    requires n > 0 && o in Within(c, me, n - 1) && Derivable(h, d, From(d, o, b), To(d, o, b), p)
    requires SoundCache(h, d, c) && Explored(h, d, me, c, Within(c, me, n - 1))
             && AllWhole(h, d, c, Within(c, me, n - 1))
    ensures b in Within(c, me, n)
  {
    hide Ran, Whole, SoundMap, Searched, Derivable, Within;
    WithinNext(c, me, n);
    if Explorable(h, d, me, o) {
      assert o in c;
      var run :| Ran(h, d, o, run, c[o]) && Whole(run);
      WholeIsExact(h, d, o, run, c[o], b);
      assert b in Next(c, Within(c, me, n - 1));
    } else {
      OnlyItself(h, d, o, b, p);
    }
  }

  lemma WithinNext(c: Cache, me: Obj, n: nat)
    requires n > 0
    ensures Within(c, me, n) == Within(c, me, n - 1) + Next(c, Within(c, me, n - 1))
  {
  }

  /** Backward, a concrete object is one layer away from itself only. */
  lemma OnlyItself(h: Heap, d: Dir, o: Obj, b: Obj, p: Path)
    requires d == Backward && !h.dummy(o) && Derivable(h, d, b, o, p)
    ensures b == o
  {
    var w :| Proves(h, d, w, b, o, p);
  }

  // ---- searches that nothing is cut off from -----------------------------------------------------

  /** The search from `a` goes on to `b`: to its host, or to an object with records of it that count. */
  ghost predicate LeadsOn(h: Heap, d: Dir, a: Obj, b: Obj) {
    && (d == Backward ==> h.dummy(a))
    && (|| (h.parent(a).Some? && h.parent(a).value.0 == b)
        || exists e :: Points(h, b, a, e) && e.dstField == 0 && (d == Backward ==> e.creation))
  }

  ghost predicate IsChain(h: Heap, d: Dir, me: Obj, c: seq<Obj>) {
    |c| > 0 && c[0] == me && forall i :: 0 <= i < |c| - 1 ==> LeadsOn(h, d, c[i], c[i + 1])
  }

  /** On no chain of hosts and points-from objects that begins at `me` does the last object repeat an earlier
      one, or one of `stack`, or a recursive type of theirs, or, from the third step on, any type of theirs. */
  ghost predicate Tame(h: Heap, d: Dir, stack: seq<Obj>, me: Obj) {
    forall c :: IsChain(h, d, me, c) ==> Unobjectionable(h, stack + c[..|c| - 1], c[|c| - 1])
  }

  /** The same for all that the search from `me` goes on to. */
  ghost predicate TameBelow(h: Heap, d: Dir, stack: seq<Obj>, me: Obj) {
    forall b :: LeadsOn(h, d, me, b) ==> Tame(h, d, stack, b)
  }

  lemma TameHere(h: Heap, d: Dir, stack: seq<Obj>, me: Obj)
    requires Tame(h, d, stack, me)
    ensures StackCode(h, stack, me) == 0 && TameBelow(h, d, stack + [me], me)
  {
    hide LeadsOn, Unobjectionable;
    assert IsChain(h, d, me, [me]);
    assert stack + [me][..0] == stack;
    StackCodeMeans(h, stack, me);
    forall b, c | LeadsOn(h, d, me, b) && IsChain(h, d, b, c)
      ensures Unobjectionable(h, stack + [me] + c[..|c| - 1], c[|c| - 1])
    {
      var l := [me] + c;
      assert forall i :: 0 < i < |l| ==> l[i] == c[i - 1];
      assert IsChain(h, d, me, l);
      assert l[..|l| - 1] == [me] + c[..|c| - 1];
      assert stack + l[..|l| - 1] == stack + [me] + c[..|c| - 1];
    }
  }

  /** Every cached result is that of a search nothing was cut off from. */
  ghost predicate WholeCache(h: Heap, d: Dir, c: Cache) {
    AllWhole(h, d, c, c.Keys)
  }

  ghost predicate SubsWhole(host: Option<Sub>, entries: seq<Option<Sub>>) {
    && (host.Some? ==> Whole(host.value.run))
    && (forall i :: 0 <= i < |entries| && entries[i].Some? ==> Whole(entries[i].value.run))
  }

  lemma SubsMakeWhole(host: Option<Sub>, entries: seq<Option<Sub>>)
    ensures Whole(Gathered(host, entries)) <==> SubsWhole(host, entries)
  {
  }

  lemma HostAlone(host: Option<Sub>)
    ensures SubsWhole(host, []) <==> (host.Some? ==> Whole(host.value.run))
  {
  }

  lemma OneMoreWhole(host: Option<Sub>, entries: seq<Option<Sub>>, e: Option<Sub>)
    ensures SubsWhole(host, entries + [e]) <==> SubsWhole(host, entries) && (e.Some? ==> Whole(e.value.run))
  {
    hide Whole;
    var more := entries + [e];
    assert more[|entries|] == e && forall i :: 0 <= i < |entries| ==> more[i] == entries[i];
  }

  lemma CacheStaysWhole(h: Heap, d: Dir, c: Cache, me: Obj, run: Run, res: map<Obj, Pair>)
    requires WholeCache(h, d, c) && Ran(h, d, me, run, res) && Whole(run)
    ensures WholeCache(h, d, c[me := res])
  {
    hide Ran, Whole;
  }

  lemma HostLeadsOn(h: Heap, d: Dir, stack: seq<Obj>, me: Obj)
    requires TameBelow(h, d, stack, me) && h.parent(me).Some? && (d == Backward ==> h.dummy(me))
    ensures Tame(h, d, stack, h.parent(me).value.0)
  {
    hide Tame;
    assert LeadsOn(h, d, me, h.parent(me).value.0);
  }

  lemma EntryLeadsOn(h: Heap, d: Dir, stack: seq<Obj>, me: Obj, i: nat)
    requires TameBelow(h, d, stack, me) && i < |h.pointsFrom(me)| && EligibleOf(d, h.pointsFrom(me)[i].1) != []
    requires d == Backward ==> h.dummy(me)
    ensures Tame(h, d, stack, h.pointsFrom(me)[i].0)
  {
    hide Tame;
    var ptos := EligibleOf(d, h.pointsFrom(me)[i].1);
    var e := ptos[0];
    assert e in ptos;
    var j :| 0 <= j < |h.pointsFrom(me)[i].1| && h.pointsFrom(me)[i].1[j] == e;
    assert Points(h, h.pointsFrom(me)[i].0, me, e);
    assert LeadsOn(h, d, me, h.pointsFrom(me)[i].0);
  }

  /** When no chain of the graph is objectionable, the objects found in `n` rounds are exactly those at most
      `n` layers away. */
  lemma TameWithinIsExact(h: Heap, d: Dir, me: Obj, c: Cache, n: nat, b: Obj)
    requires SoundCache(h, d, c) && WholeCache(h, d, c)
    requires n > 0 ==> Explored(h, d, me, c, Within(c, me, n - 1))
    ensures b in Within(c, me, n) <==> exists k :: 0 <= k <= n && Away(h, d, me, b, k)
  {
    hide SoundCache, Explored, Within, Ran, Whole;
    WithinIsExact(h, d, me, c, n, b);
  }

  // ---- the search ----------------------------------------------------------------------------

  class Search {
    const h: Heap
    const maxEnumCnt: nat
    var fEqvObjs: Cache
    var bEqvObjs: Cache
    var fEqvObjsAll: Cache
    var bEqvObjsAll: Cache
    var curEqvEnumObj: Option<Obj>
    var curEqvEnumCnt: nat

    constructor (h: Heap, maxEnumCnt: nat)
      ensures this.h == h && this.maxEnumCnt == maxEnumCnt
      ensures fEqvObjs == map[] && bEqvObjs == map[] && fEqvObjsAll == map[] && bEqvObjsAll == map[]
      ensures curEqvEnumObj == None && curEqvEnumCnt == 0
    {
      this.h := h;
      this.maxEnumCnt := maxEnumCnt;
      fEqvObjs, bEqvObjs := map[], map[];
      fEqvObjsAll, bEqvObjsAll := map[], map[];
      curEqvEnumObj, curEqvEnumCnt := None, 0;
    }

    /** Every cached result is a sound result. */
    ghost predicate CacheSound()
      reads this
    {
      SoundCache(h, Forward, fEqvObjs) && SoundCache(h, Backward, bEqvObjs)
    }

    /** The stack of objects whose search is pending: no object twice. */
    ghost predicate Stack(history: seq<Obj>) {
      && (forall i :: 0 <= i < |history| ==> history[i] in h.objs)
      && (forall i, j :: 0 <= i < j < |history| ==> history[i] != history[j])
    }

    static ghost function Members(history: seq<Obj>): set<Obj> {
      set o | o in history
    }

    /** AliasObject::validateEqvStack. */
    method ValidateEqvStack(history: seq<Obj>, curr: Obj) returns (err: int)
      modifies this`curEqvEnumObj, this`curEqvEnumCnt
      ensures curEqvEnumObj == Some(Head(curr, history))
      ensures curEqvEnumCnt == if old(curEqvEnumObj) == Some(Head(curr, history)) then old(curEqvEnumCnt) + 1 else 1
      ensures err == if maxEnumCnt > 0 && curEqvEnumCnt > maxEnumCnt then ERR_ENUM else StackCode(h, history, curr)
    {
      var cObj := if |history| == 0 then curr else history[0];
      if curEqvEnumObj == Some(cObj) {
        curEqvEnumCnt := curEqvEnumCnt + 1;
      } else {
        curEqvEnumObj := Some(cObj);
        curEqvEnumCnt := 1;
      }
      if maxEnumCnt > 0 {
        if curEqvEnumCnt > maxEnumCnt {
          return ERR_ENUM;
        }
      }
      for i := 0 to |history|
        invariant LoopCode(h, history, curr) == LoopCode(h, history[i..], curr)
      {
        if history[i] == curr {
          return ERR_LOOP;
        }
        if h.recurMatch(curr, history[i]) {
          return ERR_RECUR;
        }
        assert history[i..][1..] == history[i + 1..];
      }
      if |history| > 1 {
        for i := 0 to |history|
          invariant forall j :: 0 <= j < i ==> !h.sameTypes(curr, history[j])
        {
          if h.sameTypes(curr, history[i]) {
            return ERR_DEEP;
          }
        }
      }
      return 0;
    }

    /** Take over, for `me`, what the search found for its host. */
    method FromHost(d: Dir, me: Obj, ho: Obj, hf: int, r: map<Obj, Pair>, res: map<Obj, Pair>)
      returns (out: map<Obj, Pair>)
      requires h.Closed() && me in h.objs && h.parent(me) == Some((ho, hf))
      requires SoundMap(h, d, ho, r) && SoundMap(h, d, me, res)
      requires d == Backward ==> h.dummy(me)
      ensures SoundMap(h, d, me, out) && Added(h, d, res, out, HostWants(h, d, me, hf, r, r.Keys))
    {
      hide SoundPaths, Add2EqvMap, Added, HostWants, Proves;
      out := res;
      AddedNone(h, d, me, res);
      NoHostWants(d, me, hf, r);
      var todo := r.Keys;
      assert r.Keys - todo == {};
      while todo != {}
        invariant todo <= r.Keys && SoundMap(h, d, me, out)
                  && Added(h, d, res, out, HostWants(h, d, me, hf, r, r.Keys - todo))
        decreases todo
      {
        var other :| other in todo;
        ghost var done, was := r.Keys - todo, out;
        todo := todo - {other};
        assert r.Keys - todo == done + {other};
        MoreHostWants(d, me, hf, r, done, other);
        var eo := h.emb(other, hf);
        if eo.Some? && (d == Forward ==> h.dummy(eo.value)) && eo.value != me && h.sameTypes(me, eo.value) {
          var eq := Pair(From(d, me, eo.value), To(d, me, eo.value), r[other].paths, false);
          HostPaths(h, d, me, eo.value, other, r[other].paths);
          AddIsSound(h, d, me, out, eq, eo.value);
          AddedOne(h, d, me, out, eq, eo.value);
          out := Add2EqvMap(h, d, out, eq);
          AddedTrans(h, d, res, was, out, HostWants(h, d, me, hf, r, done), {eq});
        }
      }
      assert r.Keys - todo == r.Keys;
    }

    lemma NoHostWants(d: Dir, me: Obj, hf: int, r: map<Obj, Pair>)
      ensures HostWants(h, d, me, hf, r, {}) == {}
    {
    }

    lemma MoreHostWants(d: Dir, me: Obj, hf: int, r: map<Obj, Pair>, ks: set<Obj>, k: Obj)
      requires ks <= r.Keys && k in r
      ensures var x := HostPair(h, d, me, hf, k, r[k].paths);
              HostWants(h, d, me, hf, r, ks + {k}) ==
              if x.Some? then HostWants(h, d, me, hf, r, ks) + {x.value} else HostWants(h, d, me, hf, r, ks)
    {
      hide HostPair;
    }

    /** Take over, for `me`, what the search found for the object `o` that points to it: forward, an
        object fetched from the field `me` escapes into; backward, an object that escapes into the
        field `me` is fetched from. */
    method FromRecord(d: Dir, me: Obj, o: Obj, rec: Pto, k: Obj, ps: seq<Path>, res: map<Obj, Pair>)
      returns (out: map<Obj, Pair>)
      requires h.Closed() && me in h.objs
      requires Points(h, o, me, rec) && rec.dstField == 0
      requires d == Backward ==> h.dummy(me) && rec.creation
      requires SoundPaths(h, d, From(d, o, k), To(d, o, k), ps) && SoundMap(h, d, me, res)
      ensures SoundMap(h, d, me, out) && Added(h, d, res, out, AllOfRecord(h, d, me, rec, k, ps))
    {
      hide SoundPaths, Add2EqvMap, Points, Added, RecordWants, Proves, WithFront, WithEnd;
      out := res;
      AddedNone(h, d, me, res);
      NoRecordWants(d, me, rec, k, ps);
      var edges := h.pointsTo(k, rec.field);
      for i := 0 to |edges|
        invariant SoundMap(h, d, me, out) && Added(h, d, res, out, RecordWants(h, d, me, rec, k, ps, i))
      {
        ghost var was := out;
        MoreRecordWants(d, me, rec, k, ps, i);
        var far := edges[i];
        var fo := far.target;
        if (d == Forward ==> far.creation && h.dummy(fo)) && fo != me && h.sameTypes(me, fo) {
          var eq := Joined(d, me, fo, rec, far, ps);
          if d == Forward {
            LinkPaths(h, d, me, fo, o, k, rec, far, ps);
          } else {
            LinkPaths(h, d, fo, me, k, o, far, rec, ps);
          }
          AddIsSound(h, d, me, out, eq, fo);
          AddedOne(h, d, me, out, eq, fo);
          out := Add2EqvMap(h, d, out, eq);
          AddedTrans(h, d, res, was, out, RecordWants(h, d, me, rec, k, ps, i), {eq});
        }
      }
    }

    lemma NoRecordWants(d: Dir, me: Obj, rec: Pto, k: Obj, ps: seq<Path>)
      ensures RecordWants(h, d, me, rec, k, ps, 0) == {}
    {
    }

    lemma MoreRecordWants(d: Dir, me: Obj, rec: Pto, k: Obj, ps: seq<Path>, n: nat)
      requires n < |h.pointsTo(k, rec.field)|
      ensures var x := FarPair(h, d, me, rec, h.pointsTo(k, rec.field)[n], ps);
              RecordWants(h, d, me, rec, k, ps, n + 1) ==
              if x.Some? then RecordWants(h, d, me, rec, k, ps, n) + {x.value} else RecordWants(h, d, me, rec, k, ps, n)
    {
      hide FarPair;
    }

    /** All records of one entry of the points-from index against all results for its object. */
    method FromEntry(d: Dir, me: Obj, o: Obj, ptos: seq<Pto>, r: map<Obj, Pair>, res: map<Obj, Pair>)
      returns (out: map<Obj, Pair>)
      requires h.Closed() && me in h.objs
      requires forall i :: 0 <= i < |ptos| ==> Points(h, o, me, ptos[i]) && ptos[i].dstField == 0
      requires d == Backward ==> h.dummy(me) && forall i :: 0 <= i < |ptos| ==> ptos[i].creation
      requires SoundMap(h, d, o, r) && SoundMap(h, d, me, res)
      ensures SoundMap(h, d, me, out) && Added(h, d, res, out, EntryWants(h, d, me, ptos, r, r.Keys))
    {
      hide SoundPaths, Points, Added, EntryWants, PtoWants, AllOfRecord;
      out := res;
      AddedNone(h, d, me, res);
      NoEntryWants(d, me, ptos, r);
      var todo := r.Keys;
      assert r.Keys - todo == {};
      while todo != {}
        invariant todo <= r.Keys && SoundMap(h, d, me, out)
                  && Added(h, d, res, out, EntryWants(h, d, me, ptos, r, r.Keys - todo))
        decreases todo
      {
        var k :| k in todo;
        ghost var done, was := r.Keys - todo, out;
        todo := todo - {k};
        AddedNone(h, d, me, out);
        NoPtoWants(d, me, ptos, k, r[k].paths);
        for j := 0 to |ptos|
          invariant SoundMap(h, d, me, out) && Added(h, d, was, out, PtoWants(h, d, me, ptos, k, r[k].paths, j))
        {
          ghost var mid := out;
          out := FromRecord(d, me, o, ptos[j], k, r[k].paths, out);
          MorePtoWants(d, me, ptos, k, r[k].paths, j);
          AddedTrans(h, d, was, mid, out, PtoWants(h, d, me, ptos, k, r[k].paths, j),
                     AllOfRecord(h, d, me, ptos[j], k, r[k].paths));
        }
        assert r.Keys - todo == done + {k};
        MoreEntryWants(d, me, ptos, r, done, k);
        AddedTrans(h, d, res, was, out, EntryWants(h, d, me, ptos, r, done),
                   PtoWants(h, d, me, ptos, k, r[k].paths, |ptos|));
      }
      assert r.Keys - todo == r.Keys;
    }

    lemma NoEntryWants(d: Dir, me: Obj, ptos: seq<Pto>, r: map<Obj, Pair>)
      ensures EntryWants(h, d, me, ptos, r, {}) == {}
    {
    }

    lemma NoPtoWants(d: Dir, me: Obj, ptos: seq<Pto>, k: Obj, ps: seq<Path>)
      ensures PtoWants(h, d, me, ptos, k, ps, 0) == {}
    {
    }

    lemma MorePtoWants(d: Dir, me: Obj, ptos: seq<Pto>, k: Obj, ps: seq<Path>, n: nat)
      requires n < |ptos|
      ensures PtoWants(h, d, me, ptos, k, ps, n + 1) == PtoWants(h, d, me, ptos, k, ps, n)
              + AllOfRecord(h, d, me, ptos[n], k, ps)
    {
      hide AllOfRecord;
    }

    lemma MoreEntryWants(d: Dir, me: Obj, ptos: seq<Pto>, r: map<Obj, Pair>, ks: set<Obj>, k: Obj)
      requires ks <= r.Keys && k in r
      ensures EntryWants(h, d, me, ptos, r, ks + {k}) == EntryWants(h, d, me, ptos, r, ks)
              + PtoWants(h, d, me, ptos, k, r[k].paths, |ptos|)
    {
      hide PtoWants;
    }

    /** The loop that picks the records of an entry the search uses. */
    static method Eligible(d: Dir, all: seq<Pto>) returns (ptos: seq<Pto>)
      ensures ptos == EligibleOf(d, all)
    {
      ptos := [];
      for j := 0 to |all|
        invariant ptos == EligibleOf(d, all[..j])
      {
        assert all[..j + 1][..j] == all[..j];
        if (d == Backward ==> all[j].creation) && all[j].dstField == 0 {
          ptos := ptos + [all[j]];
        }
      }
      assert all[..|all|] == all;
    }

    lemma EligiblePoints(d: Dir, me: Obj, i: nat)
      requires i < |h.pointsFrom(me)|
      ensures var ptos := EligibleOf(d, h.pointsFrom(me)[i].1);
              && (forall j :: 0 <= j < |ptos| ==>
                  Points(h, h.pointsFrom(me)[i].0, me, ptos[j]) && ptos[j].dstField == 0)
              && (d == Backward ==> forall j :: 0 <= j < |ptos| ==> ptos[j].creation)
    {
      var ptos := EligibleOf(d, h.pointsFrom(me)[i].1);
      forall j | 0 <= j < |ptos| ensures Points(h, h.pointsFrom(me)[i].0, me, ptos[j]) && ptos[j].dstField == 0 {
        assert ptos[j] in ptos;
      }
      forall j | d == Backward && 0 <= j < |ptos| ensures ptos[j].creation {
        assert ptos[j] in ptos;
      }
    }

    lemma Room(history: seq<Obj>, me: Obj)
      requires Stack(history) && me in h.objs && me !in history
      ensures Stack(history + [me])
      ensures |h.objs - Members(history + [me])| < |h.objs - Members(history)|
    {
      var a, b := h.objs - Members(history + [me]), h.objs - Members(history);
      assert a < b by {
        assert forall o :: o in history + [me] <==> o in history || o == me;
        assert me in b && me !in a;
      }
      SubsetSize(a, b);
    }

    static lemma SubsetSize(a: set<Obj>, b: set<Obj>)
      requires a < b
      ensures |a| < |b|
    {
      var x :| x in b && x !in a;
      var c := b - {x};
      assert a <= c;
      Fewer(a, c);
    }

    static lemma {:induction false} Fewer(a: set<Obj>, c: set<Obj>)
      requires a <= c
      ensures |a| <= |c|
    {
      if a == {} {
      } else {
        var x :| x in a;
        Fewer(a - {x}, c - {x});
      }
    }

    static function Head(me: Obj, history: seq<Obj>): Obj {
      if |history| == 0 then me else history[0]
    }

    lemma HeadStays(me: Obj, history: seq<Obj>)
      ensures Head(me, history) == (history + [me])[0]
    {
    }

    /** How a search that is not answered from the cache ends: cut off exactly when the stack or the limit forbids it,
        cached exactly when the stack is empty or none of the searches it depends on reported a cut. */
    ghost predicate Outcome(d: Dir, me: Obj, history: seq<Obj>, err: int, run: Run, cached: bool) {
      match run
      case Cut(stack, limit) =>
        stack == history && !cached && (if limit then err == ERR_ENUM && maxEnumCnt > 0
                                        else err == StackCode(h, history, me) && err != 0)
      case Gathered(host, entries) =>
        && StackCode(h, history, me) == 0
        && err == ErrOf(d, host, entries)
        && (cached <==> history == [] || !Aborted(run))
    }

    lemma CutRan(d: Dir, me: Obj, history: seq<Obj>, err: int)
      requires err == ERR_ENUM || (err == StackCode(h, history, me) && err != 0)
      ensures Ran(h, d, me, Cut(history, err == ERR_ENUM), map[]) && !Whole(Cut(history, err == ERR_ENUM))
    {
      hide StackCode;
    }

    lemma AloneRan(me: Obj)
      requires !h.dummy(me)
      ensures var run := Gathered(None, []);
              Ran(h, Backward, me, run, Alone(me)) && !Aborted(run) && ErrOf(Backward, None, []) == 0
    {
    }

    lemma ErrStarts(d: Dir, host: Option<Sub>)
      ensures ErrOf(d, host, []) == if host.Some? then host.value.err else 0
      ensures Aborted(Gathered(host, [])) <==> host.Some? && host.value.err < 0
    {
    }

    lemma ErrAfter(d: Dir, host: Option<Sub>, entries: seq<Option<Sub>>, e: Option<Sub>)
      ensures ErrOf(d, host, entries + [e]) == if d == Backward && e.Some? then e.value.err else ErrOf(d, host, entries)
      ensures Aborted(Gathered(host, entries + [e])) <==>
              Aborted(Gathered(host, entries)) || (e.Some? && e.value.err < 0)
    {
      var more := entries + [e];
      assert more[..|more| - 1] == entries;
      assert more[|entries|] == e;
      assert forall i :: 0 <= i < |entries| ==> more[i] == entries[i];
      if d == Forward && entries == [] {
        assert ErrOf(d, host, more) == ErrOf(d, host, entries);
      }
    }

    lemma SelfStays(d: Dir, me: Obj, host: Option<Sub>, entries: seq<Option<Sub>>, res: map<Obj, Pair>)
      requires SoFar(h, d, me, host, entries, res)
      ensures me in res
    {
      hide Covers, Wants, HostRan, EntryRan;
    }

    /** AliasObject::getForwardEqvObjsOnce.  It comes back on every graph; whatever it returns or
        leaves in the cache is derivable, and a search with an empty stack is always cached. */
    method GetForwardEqvObjsOnce(me: Obj, history: seq<Obj>) returns (err: int, res: map<Obj, Pair>, ghost run: Run)
      requires h.Closed() && CacheSound() && Stack(history) && me in h.objs
      modifies this`fEqvObjs, this`curEqvEnumObj, this`curEqvEnumCnt
      ensures CacheSound() && SoundMap(h, Forward, me, res)
      ensures Ran(h, Forward, me, run, res) && (err != 0 ==> !Whole(run))
      ensures old(me in fEqvObjs) ==> err == 0 && res == old(fEqvObjs)[me] && fEqvObjs == old(fEqvObjs)
      ensures old(me !in fEqvObjs) ==>
              Outcome(Forward, me, history, err, run, me in fEqvObjs) && (me in fEqvObjs ==> fEqvObjs[me] == res)
      ensures Retained(history, old(fEqvObjs), fEqvObjs)
      ensures maxEnumCnt == 0 && Tame(h, Forward, history, me) && WholeCache(h, Forward, old(fEqvObjs)) ==>
                && Whole(run) && WholeCache(h, Forward, fEqvObjs)
                && forall b :: b in res <==>
                   exists p :: Derivable(h, Forward, From(Forward, me, b), To(Forward, me, b), p)
      ensures curEqvEnumObj == old(curEqvEnumObj) || curEqvEnumObj == Some(Head(me, history))
      ensures history == [] && (maxEnumCnt == 0 || old(curEqvEnumObj) != Some(me)) ==>
                (old(me !in fEqvObjs) ==> me in res) && me in fEqvObjs && fEqvObjs[me] == res
      decreases |h.objs - Members(history)|, 2
    {
      hide SoundMap, SoundCache, Members, Ran, Whole, ErrOf, StackCode, Added, SoFar, Aborted, EligibleOf, HostWants,
           EntryWants, Tame, TameBelow, WholeCache, Derivable, Unobjectionable, Points;
      ghost var cache := fEqvObjs;
      if me in fEqvObjs {
        CachedIsSound(Forward, me);
        assert Retained(history, cache, fEqvObjs);
        run := CachedRun(Forward, me);
        WholeIsAll(Forward, me, run, fEqvObjs[me]);
        return 0, fEqvObjs[me], run;
      }
      if Tame(h, Forward, history, me) {
        TameHere(h, Forward, history, me);
      }
      err := ValidateEqvStack(history, me);
      StackCodeMeans(h, history, me);
      if err < 0 {
        NothingIsSound(Forward, me);
        CutRan(Forward, me, history, err);
        assert Retained(history, cache, fEqvObjs);
        return err, map[], Cut(history, err == ERR_ENUM);
      }
      Room(history, me);
      HeadStays(me, history);
      var aborted;
      err, aborted, res, run := ExploreForward(me, history + [me]);
      WholeIsAll(Forward, me, run, res);
      if WholeCache(h, Forward, fEqvObjs) && Whole(run) {
        CacheStaysWhole(h, Forward, fEqvObjs, me, run, res);
      }
      RetainedStore(h, Forward, history, me, cache, fEqvObjs, res);
      if |history| == 0 || !aborted {
        fEqvObjs := fEqvObjs[me := res];
      }
    }

    /** The search through the host, if there is one. */
    method HostForward(me: Obj, stack: seq<Obj>)
      returns (err: int, aborted: bool, res: map<Obj, Pair>, ghost host: Option<Sub>)
      requires h.Closed() && CacheSound() && Stack(stack) && me in h.objs && |stack| > 0
      requires curEqvEnumObj == Some(stack[0])
      modifies this`fEqvObjs, this`curEqvEnumObj, this`curEqvEnumCnt
      ensures CacheSound() && SoundMap(h, Forward, me, res) && SoFar(h, Forward, me, host, [], res)
      ensures err == ErrOf(Forward, host, []) && (aborted <==> Aborted(Gathered(host, [])))
      ensures maxEnumCnt == 0 && TameBelow(h, Forward, stack, me) && WholeCache(h, Forward, old(fEqvObjs)) ==>
              SubsWhole(host, []) && WholeCache(h, Forward, fEqvObjs)
      ensures Retained(stack, old(fEqvObjs), fEqvObjs)
      ensures curEqvEnumObj == Some(stack[0])
      decreases |h.objs - Members(stack)|, 3
    {
      hide SoundMap, SoundCache, Members, Ran, Whole, ErrOf, StackCode, Added, SoFar, Aborted, EligibleOf, HostWants,
           EntryWants, Tame, TameBelow, WholeCache, SubsWhole, Derivable, Points, Retained, Stack;
      err, aborted, host := 0, false, None;
      res := map[me := Pair(me, me, [], false)];
      SelfIsSound(h, Forward, me);
      AddedNone(h, Forward, me, res);
      RetainedRefl(stack, fEqvObjs);
      var up := h.parent(me);
      if up.Some? {
        var r;
        ghost var sub;
        if TameBelow(h, Forward, stack, me) {
          HostLeadsOn(h, Forward, stack, me);
        }
        err, r, sub := GetForwardEqvObjsOnce(up.value.0, stack);
        if err < 0 {
          aborted := true;
        }
        host := Some(Sub(sub, r, err));
        res := FromHost(Forward, me, up.value.0, up.value.1, r, res);
      }
      HostSoFar(h, Forward, me, host, res);
      ErrStarts(Forward, host);
      HostAlone(host);
    }

    /** The body of the forward search: through the host, then through every points-from entry.
        `stack` ends in `me`. */
    method ExploreForward(me: Obj, stack: seq<Obj>)
      returns (err: int, aborted: bool, res: map<Obj, Pair>, ghost run: Run)
      requires h.Closed() && CacheSound() && Stack(stack) && me in h.objs && |stack| > 0
      requires curEqvEnumObj == Some(stack[0])
      modifies this`fEqvObjs, this`curEqvEnumObj, this`curEqvEnumCnt
      ensures CacheSound() && SoundMap(h, Forward, me, res) && me in res
      ensures Ran(h, Forward, me, run, res) && run.Gathered? && err == ErrOf(Forward, run.host, run.entries)
      ensures (err != 0 ==> !Whole(run)) && (aborted <==> Aborted(run))
      ensures Retained(stack, old(fEqvObjs), fEqvObjs)
      ensures maxEnumCnt == 0 && TameBelow(h, Forward, stack, me) && WholeCache(h, Forward, old(fEqvObjs)) ==>
              Whole(run) && WholeCache(h, Forward, fEqvObjs)
      ensures curEqvEnumObj == Some(stack[0])
      decreases |h.objs - Members(stack)|, 4
    {
      hide SoundMap, SoundCache, Members, Ran, Whole, ErrOf, StackCode, Added, SoFar, Aborted, EligibleOf, HostWants,
           EntryWants, Tame, TameBelow, WholeCache, SubsWhole, Derivable, Unobjectionable, Points, Retained, Stack;
      ghost var cache := fEqvObjs;
      ghost var tame := maxEnumCnt == 0 && TameBelow(h, Forward, stack, me) && WholeCache(h, Forward, cache);
      ghost var host: Option<Sub>, entries: seq<Option<Sub>> := None, [];
      err, aborted, res, host := HostForward(me, stack);
      var from := h.pointsFrom(me);
      var i := 0;
      while i < |from|
        invariant 0 <= i <= |from|
        invariant CacheSound() && SoundMap(h, Forward, me, res)
        invariant |entries| == i && SoFar(h, Forward, me, host, entries, res)
        invariant err == ErrOf(Forward, host, entries) && (aborted <==> Aborted(Gathered(host, entries)))
        invariant tame ==> SubsWhole(host, entries) && WholeCache(h, Forward, fEqvObjs)
        invariant Retained(stack, cache, fEqvObjs)
        invariant curEqvEnumObj == Some(stack[0])
      {
        ghost var mid, was := fEqvObjs, res;
        var used, e;
        ghost var sub;
        used, e, res, sub := EntryForward(me, stack, i, res);
        RetainedTrans(stack, cache, mid, fEqvObjs);
        OneMoreEntry(h, Forward, me, host, entries, was, sub, res);
        ErrAfter(Forward, host, entries, sub);
        OneMoreWhole(host, entries, sub);
        entries := entries + [sub];
        if used {
          if e < 0 {
            aborted := true;
          }
          if e == ERR_ENUM {
            break;
          }
        }
        i := i + 1;
      }
      GatheredRan(h, Forward, me, host, entries, res);
      SubsMakeWhole(host, entries);
      SelfStays(Forward, me, host, entries, res);
      run := Gathered(host, entries);
    }

    /** The history of a cached result, one without cuts if there is such. */
    lemma CachedRun(d: Dir, me: Obj) returns (run: Run)
      requires CacheSound() && me in CacheOf(d)
      ensures Ran(h, d, me, run, CacheOf(d)[me]) && (WholeCache(h, d, CacheOf(d)) ==> Whole(run))
    {
      hide SoundMap, Ran, Whole;
      if WholeCache(h, d, CacheOf(d)) {
        run :| Ran(h, d, me, run, CacheOf(d)[me]) && Whole(run);
      } else {
        run :| Ran(h, d, me, run, CacheOf(d)[me]);
      }
    }

    lemma WholeIsAll(d: Dir, me: Obj, run: Run, res: map<Obj, Pair>)
      requires SoundMap(h, d, me, res) && Ran(h, d, me, run, res)
      ensures Whole(run) ==> forall b :: b in res <==> exists p :: Derivable(h, d, From(d, me, b), To(d, me, b), p)
    {
      hide SoundMap, Ran, Whole, Derivable;
      if Whole(run) {
        forall b ensures b in res <==> exists p :: Derivable(h, d, From(d, me, b), To(d, me, b), p) {
          WholeIsExact(h, d, me, run, res, b);
        }
      }
    }

    lemma NothingIsSound(d: Dir, me: Obj)
      ensures SoundMap(h, d, me, map[])
    {
    }

    lemma CachedIsSound(d: Dir, me: Obj)
      requires CacheSound()
      ensures d == Forward && me in fEqvObjs ==>
              SoundMap(h, Forward, me, fEqvObjs[me]) && Searched(h, Forward, me, fEqvObjs[me])
      ensures d == Backward && me in bEqvObjs ==>
              SoundMap(h, Backward, me, bEqvObjs[me]) && Searched(h, Backward, me, bEqvObjs[me])
    {
      hide SoundMap, Searched;
    }

    /** One entry of the points-from index, if it has records the search uses. */
    method EntryForward(me: Obj, stack: seq<Obj>, i: nat, res: map<Obj, Pair>)
      returns (used: bool, e: int, out: map<Obj, Pair>, ghost sub: Option<Sub>)
      requires h.Closed() && CacheSound() && Stack(stack) && me in h.objs && |stack| > 0
      requires curEqvEnumObj == Some(stack[0]) && i < |h.pointsFrom(me)| && SoundMap(h, Forward, me, res)
      modifies this`fEqvObjs, this`curEqvEnumObj, this`curEqvEnumCnt
      ensures CacheSound() && SoundMap(h, Forward, me, out)
      ensures EntryRan(h, Forward, me, i, sub) && (used <==> sub.Some?) && (used ==> e == sub.value.err)
      ensures if used then Added(h, Forward, res, out, Offer(h, Forward, me, i, sub)) else out == res
      ensures maxEnumCnt == 0 && TameBelow(h, Forward, stack, me) && WholeCache(h, Forward, old(fEqvObjs)) ==>
              (sub.Some? ==> Whole(sub.value.run)) && WholeCache(h, Forward, fEqvObjs)
      ensures Retained(stack, old(fEqvObjs), fEqvObjs) && curEqvEnumObj == Some(stack[0])
      decreases |h.objs - Members(stack)|, 3
    {
      hide SoundMap, SoundCache, Members, Ran, Whole, Added, EligibleOf, EntryWants, Points, Retained, Stack, Tame,
           TameBelow, WholeCache, Derivable;
      used, e, out, sub := false, 0, res, None;
      RetainedRefl(stack, fEqvObjs);
      var ptos := Eligible(Forward, h.pointsFrom(me)[i].1);
      EligiblePoints(Forward, me, i);
      if |ptos| > 0 {
        var r;
        ghost var run;
        if TameBelow(h, Forward, stack, me) {
          EntryLeadsOn(h, Forward, stack, me, i);
        }
        e, r, run := GetForwardEqvObjsOnce(h.pointsFrom(me)[i].0, stack);
        out := FromEntry(Forward, me, h.pointsFrom(me)[i].0, ptos, r, res);
        used, sub := true, Some(Sub(run, r, e));
      }
    }

    /** AliasObject::getBackwardEqvObjsOnce; only a dummy object is anything but itself. */
    method GetBackwardEqvObjsOnce(me: Obj, history: seq<Obj>) returns (err: int, res: map<Obj, Pair>, ghost run: Run)
      requires h.Closed() && CacheSound() && Stack(history) && me in h.objs
      modifies this`bEqvObjs, this`curEqvEnumObj, this`curEqvEnumCnt
      ensures CacheSound() && SoundMap(h, Backward, me, res)
      ensures Ran(h, Backward, me, run, res) && (err != 0 ==> !Whole(run))
      ensures old(me in bEqvObjs) ==> err == 0 && res == old(bEqvObjs)[me] && bEqvObjs == old(bEqvObjs)
      ensures old(me !in bEqvObjs) ==>
              Outcome(Backward, me, history, err, run, me in bEqvObjs) && (me in bEqvObjs ==> bEqvObjs[me] == res)
      ensures Retained(history, old(bEqvObjs), bEqvObjs)
      ensures maxEnumCnt == 0 && Tame(h, Backward, history, me) && WholeCache(h, Backward, old(bEqvObjs)) ==>
                && Whole(run) && WholeCache(h, Backward, bEqvObjs)
                && forall b :: b in res <==>
                   exists p :: Derivable(h, Backward, From(Backward, me, b), To(Backward, me, b), p)
      ensures curEqvEnumObj == old(curEqvEnumObj) || curEqvEnumObj == Some(Head(me, history))
      ensures history == [] && (maxEnumCnt == 0 || old(curEqvEnumObj) != Some(me)) ==>
                (old(me !in bEqvObjs) ==> me in res) && me in bEqvObjs && bEqvObjs[me] == res
      decreases |h.objs - Members(history)|, 2
    {
      hide SoundMap, SoundCache, Members, Ran, Whole, ErrOf, StackCode, Added, SoFar, Aborted, EligibleOf, HostWants,
           EntryWants, Tame, TameBelow, WholeCache, Derivable, Unobjectionable, Points;
      ghost var cache := bEqvObjs;
      if me in bEqvObjs {
        CachedIsSound(Backward, me);
        assert Retained(history, cache, bEqvObjs);
        run := CachedRun(Backward, me);
        WholeIsAll(Backward, me, run, bEqvObjs[me]);
        return 0, bEqvObjs[me], run;
      }
      if Tame(h, Backward, history, me) {
        TameHere(h, Backward, history, me);
      }
      err := ValidateEqvStack(history, me);
      StackCodeMeans(h, history, me);
      if err < 0 {
        NothingIsSound(Backward, me);
        CutRan(Backward, me, history, err);
        assert Retained(history, cache, bEqvObjs);
        return err, map[], Cut(history, err == ERR_ENUM);
      }
      Room(history, me);
      HeadStays(me, history);
      if !h.dummy(me) {
        res := map[me := Pair(me, me, [], false)];
        SelfIsSound(h, Backward, me);
        AloneRan(me);
        assert Retained(history + [me], cache, cache);
        RetainedStore(h, Backward, history, me, cache, cache, res);
        run := Gathered(None, []);
        SubsMakeWhole(None, []);
        WholeIsAll(Backward, me, run, res);
        if WholeCache(h, Backward, bEqvObjs) {
          CacheStaysWhole(h, Backward, bEqvObjs, me, run, res);
        }
        bEqvObjs := bEqvObjs[me := res];
        return 0, res, run;
      }
      var aborted;
      err, aborted, res, run := ExploreBackward(me, history + [me]);
      WholeIsAll(Backward, me, run, res);
      if WholeCache(h, Backward, bEqvObjs) && Whole(run) {
        CacheStaysWhole(h, Backward, bEqvObjs, me, run, res);
      }
      RetainedStore(h, Backward, history, me, cache, bEqvObjs, res);
      if |history| == 0 || !aborted {
        bEqvObjs := bEqvObjs[me := res];
      }
    }

    /** The search through the host, if there is one. */
    method HostBackward(me: Obj, stack: seq<Obj>)
      returns (err: int, aborted: bool, res: map<Obj, Pair>, ghost host: Option<Sub>)
      requires h.Closed() && CacheSound() && Stack(stack) && me in h.objs && |stack| > 0 && h.dummy(me)
      requires curEqvEnumObj == Some(stack[0])
      modifies this`bEqvObjs, this`curEqvEnumObj, this`curEqvEnumCnt
      ensures CacheSound() && SoundMap(h, Backward, me, res) && SoFar(h, Backward, me, host, [], res)
      ensures err == ErrOf(Backward, host, []) && (aborted <==> Aborted(Gathered(host, [])))
      ensures maxEnumCnt == 0 && TameBelow(h, Backward, stack, me) && WholeCache(h, Backward, old(bEqvObjs)) ==>
              SubsWhole(host, []) && WholeCache(h, Backward, bEqvObjs)
      ensures Retained(stack, old(bEqvObjs), bEqvObjs)
      ensures curEqvEnumObj == Some(stack[0])
      decreases |h.objs - Members(stack)|, 3
    {
      hide SoundMap, SoundCache, Members, Ran, Whole, ErrOf, StackCode, Added, SoFar, Aborted, EligibleOf, HostWants,
           EntryWants, Tame, TameBelow, WholeCache, SubsWhole, Derivable, Points, Retained, Stack;
      err, aborted, host := 0, false, None;
      res := map[me := Pair(me, me, [], false)];
      SelfIsSound(h, Backward, me);
      AddedNone(h, Backward, me, res);
      RetainedRefl(stack, bEqvObjs);
      var up := h.parent(me);
      if up.Some? {
        var r;
        ghost var sub;
        if TameBelow(h, Backward, stack, me) {
          HostLeadsOn(h, Backward, stack, me);
        }
        err, r, sub := GetBackwardEqvObjsOnce(up.value.0, stack);
        if err < 0 {
          aborted := true;
        }
        host := Some(Sub(sub, r, err));
        res := FromHost(Backward, me, up.value.0, up.value.1, r, res);
      }
      HostSoFar(h, Backward, me, host, res);
      ErrStarts(Backward, host);
      HostAlone(host);
    }

    /** The body of the backward search for a dummy object. */
    method ExploreBackward(me: Obj, stack: seq<Obj>)
      returns (err: int, aborted: bool, res: map<Obj, Pair>, ghost run: Run)
      requires h.Closed() && CacheSound() && Stack(stack) && me in h.objs && |stack| > 0 && h.dummy(me)
      requires curEqvEnumObj == Some(stack[0])
      modifies this`bEqvObjs, this`curEqvEnumObj, this`curEqvEnumCnt
      ensures CacheSound() && SoundMap(h, Backward, me, res) && me in res
      ensures Ran(h, Backward, me, run, res) && run.Gathered? && err == ErrOf(Backward, run.host, run.entries)
      ensures (err != 0 ==> !Whole(run)) && (aborted <==> Aborted(run))
      ensures Retained(stack, old(bEqvObjs), bEqvObjs)
      ensures maxEnumCnt == 0 && TameBelow(h, Backward, stack, me) && WholeCache(h, Backward, old(bEqvObjs)) ==>
              Whole(run) && WholeCache(h, Backward, bEqvObjs)
      ensures curEqvEnumObj == Some(stack[0])
      decreases |h.objs - Members(stack)|, 4
    {
      hide SoundMap, SoundCache, Members, Ran, Whole, ErrOf, StackCode, Added, SoFar, Aborted, EligibleOf, HostWants,
           EntryWants, Tame, TameBelow, WholeCache, SubsWhole, Derivable, Unobjectionable, Points, Retained, Stack;
      ghost var cache := bEqvObjs;
      ghost var tame := maxEnumCnt == 0 && TameBelow(h, Backward, stack, me) && WholeCache(h, Backward, cache);
      ghost var host: Option<Sub>, entries: seq<Option<Sub>> := None, [];
      err, aborted, res, host := HostBackward(me, stack);
      var from := h.pointsFrom(me);
      var i := 0;
      while i < |from|
        invariant 0 <= i <= |from|
        invariant CacheSound() && SoundMap(h, Backward, me, res)
        invariant |entries| == i && SoFar(h, Backward, me, host, entries, res)
        invariant err == ErrOf(Backward, host, entries) && (aborted <==> Aborted(Gathered(host, entries)))
        invariant tame ==> SubsWhole(host, entries) && WholeCache(h, Backward, bEqvObjs)
        invariant Retained(stack, cache, bEqvObjs)
        invariant curEqvEnumObj == Some(stack[0])
      {
        ghost var mid, was := bEqvObjs, res;
        var used, e;
        ghost var sub;
        used, e, res, sub := EntryBackward(me, stack, i, res);
        RetainedTrans(stack, cache, mid, bEqvObjs);
        OneMoreEntry(h, Backward, me, host, entries, was, sub, res);
        ErrAfter(Backward, host, entries, sub);
        OneMoreWhole(host, entries, sub);
        entries := entries + [sub];
        if used {
          err := e;
          if e < 0 {
            aborted := true;
          }
          if e == ERR_ENUM {
            break;
          }
        }
        i := i + 1;
      }
      GatheredRan(h, Backward, me, host, entries, res);
      SubsMakeWhole(host, entries);
      SelfStays(Backward, me, host, entries, res);
      run := Gathered(host, entries);
    }

    // ---- the closure ---------------------------------------------------------------------------

    ghost function CacheOf(d: Dir): Cache
      reads this
    {
      if d == Forward then fEqvObjs else bEqvObjs
    }

    /** One entry of the points-from index, if it has records the search uses. */
    method EntryBackward(me: Obj, stack: seq<Obj>, i: nat, res: map<Obj, Pair>)
      returns (used: bool, e: int, out: map<Obj, Pair>, ghost sub: Option<Sub>)
      requires h.Closed() && CacheSound() && Stack(stack) && me in h.objs && |stack| > 0 && h.dummy(me)
      requires curEqvEnumObj == Some(stack[0]) && i < |h.pointsFrom(me)| && SoundMap(h, Backward, me, res)
      modifies this`bEqvObjs, this`curEqvEnumObj, this`curEqvEnumCnt
      ensures CacheSound() && SoundMap(h, Backward, me, out)
      ensures EntryRan(h, Backward, me, i, sub) && (used <==> sub.Some?) && (used ==> e == sub.value.err)
      ensures if used then Added(h, Backward, res, out, Offer(h, Backward, me, i, sub)) else out == res
      ensures maxEnumCnt == 0 && TameBelow(h, Backward, stack, me) && WholeCache(h, Backward, old(bEqvObjs)) ==>
              (sub.Some? ==> Whole(sub.value.run)) && WholeCache(h, Backward, bEqvObjs)
      ensures Retained(stack, old(bEqvObjs), bEqvObjs) && curEqvEnumObj == Some(stack[0])
      decreases |h.objs - Members(stack)|, 3
    {
      hide SoundMap, SoundCache, Members, Ran, Whole, Added, EligibleOf, EntryWants, Points, Retained, Stack, Tame,
           TameBelow, WholeCache, Derivable;
      used, e, out, sub := false, 0, res, None;
      RetainedRefl(stack, bEqvObjs);
      var ptos := Eligible(Backward, h.pointsFrom(me)[i].1);
      EligiblePoints(Backward, me, i);
      if |ptos| > 0 {
        var r;
        ghost var run;
        if TameBelow(h, Backward, stack, me) {
          EntryLeadsOn(h, Backward, stack, me, i);
        }
        e, r, run := GetBackwardEqvObjsOnce(h.pointsFrom(me)[i].0, stack);
        out := FromEntry(Backward, me, h.pointsFrom(me)[i].0, ptos, r, res);
        used, sub := true, Some(Sub(run, r, e));
      }
    }

    ghost function AllOf(d: Dir): Cache
      reads this
    {
      if d == Forward then fEqvObjsAll else bEqvObjsAll
    }

    ghost predicate AllSound()
      reads this
    {
      && (forall o :: o in fEqvObjsAll ==> LeadMap(h, Forward, o, fEqvObjsAll[o]))
      && (forall o :: o in bEqvObjsAll ==> LeadMap(h, Backward, o, bEqvObjsAll[o]))
    }

    /** There is no limit on enumeration, and no object has an objectionable chain. */
    ghost predicate Calm(d: Dir) {
      maxEnumCnt == 0 && forall o :: o in h.objs ==> Tame(h, d, [], o)
    }

    /** One layer from `o`, with nothing pending. */
    method Layer(d: Dir, o: Obj) returns (tmp: map<Obj, Pair>, ghost run: Run)
      requires h.Closed() && CacheSound() && o in h.objs
      requires curEqvEnumObj != Some(o)
      modifies this`fEqvObjs, this`bEqvObjs, this`curEqvEnumObj, this`curEqvEnumCnt
      ensures CacheSound() && SoundMap(h, d, o, tmp) && Ran(h, d, o, run, tmp)
      ensures o in CacheOf(d) && CacheOf(d)[o] == tmp && Extends(old(CacheOf(d)), CacheOf(d))
      ensures Calm(d) && WholeCache(h, d, old(CacheOf(d))) ==> WholeCache(h, d, CacheOf(d))
      ensures curEqvEnumObj == old(curEqvEnumObj) || curEqvEnumObj == Some(o)
    {
      hide SoundMap, SoundCache, WholeCache, Tame, Derivable, Whole;
      var err;
      if d == Forward {
        err, tmp, run := GetForwardEqvObjsOnce(o, []);
      } else {
        err, tmp, run := GetBackwardEqvObjsOnce(o, []);
      }
    }

    /** The way `q` goes, put behind the way `p` goes; right at the start, at `me`, there is no way `p` yet. */
    function Stitch(d: Dir, me: Obj, o: Obj, p: Pair, q: Pair): Option<Pair> {
      if me == o then Some(q)
      else if d == Forward then ConnectPair(h.ctx, true, p, q)
      else ConnectPair(h.ctx, true, q, p)
    }

    /** The objects among `ks` that are to be explored next. */
    function News(d: Dir, ks: set<Obj>, known: set<Obj>): set<Obj> {
      set k | k in ks && k !in known && (d == Forward || h.dummy(k))
    }

    /** Enter what one layer from `o` leads to and is not known yet. */
    method Enter(d: Dir, me: Obj, o: Obj, tmp: map<Obj, Pair>, res: map<Obj, Pair>)
      returns (out: map<Obj, Pair>, more: set<Obj>)
      requires LeadMap(h, d, me, res) && o in res && SoundMap(h, d, o, tmp)
      ensures LeadMap(h, d, me, out) && out.Keys == res.Keys + tmp.Keys
      ensures forall k :: k in res ==> out[k] == res[k]
      ensures forall k :: k in tmp && k !in res ==> Some(out[k]) == Stitch(d, me, o, res[o], tmp[k])
      ensures more == News(d, tmp.Keys, res.Keys)
    {
      hide SoundMap, LeadMap, Stitch, News;
      out, more := res, {};
      NewsStart(d, tmp.Keys, res.Keys);
      var todo := tmp.Keys;
      assert tmp.Keys - todo == {};
      while todo != {}
        invariant todo <= tmp.Keys && LeadMap(h, d, me, out)
        invariant out.Keys == res.Keys + (tmp.Keys - todo)
        invariant forall k :: k in res ==> out[k] == res[k]
        invariant forall k :: k in out && k !in res ==> k in tmp && Some(out[k]) == Stitch(d, me, o, res[o], tmp[k])
        invariant more == News(d, tmp.Keys - todo, res.Keys)
        decreases todo
      {
        var no :| no in todo;
        ghost var done := tmp.Keys - todo;
        todo := todo - {no};
        assert tmp.Keys - todo == done + {no};
        NewsStep(d, done, res.Keys, no);
        if no !in out {
          StitchFits(d, me, out, o, tmp, no);
          out := out[no := Stitch(d, me, o, out[o], tmp[no]).value];
          if d == Forward || h.dummy(no) {
            more := more + {no};
          }
        }
      }
      assert tmp.Keys - todo == tmp.Keys;
    }

    lemma NewsStart(d: Dir, ks: set<Obj>, known: set<Obj>)
      ensures News(d, {}, known) == {}
    {
    }

    lemma NewsStep(d: Dir, ks: set<Obj>, known: set<Obj>, k: Obj)
      ensures News(d, ks + {k}, known) == News(d, ks, known) + if k !in known && (d == Forward || h.dummy(k)) then {k}
              else {}
    {
    }

    lemma StitchFits(d: Dir, me: Obj, res: map<Obj, Pair>, o: Obj, tmp: map<Obj, Pair>, no: Obj)
      requires LeadMap(h, d, me, res) && o in res && SoundMap(h, d, o, tmp) && no in tmp
      ensures Stitch(d, me, o, res[o], tmp[no]).Some?
      ensures LeadMap(h, d, me, res[no := Stitch(d, me, o, res[o], tmp[no]).value])
    {
      hide SoundMap, LeadMap, ConnectPair;
      if me == o {
        FirstLeads(h, d, me, res, tmp, no);
      } else {
        StitchLeads(h, d, me, res, o, tmp, no);
      }
    }

    static lemma FirstLeads(h: Heap, d: Dir, me: Obj, res: map<Obj, Pair>, tmp: map<Obj, Pair>, no: Obj)
      requires LeadMap(h, d, me, res) && SoundMap(h, d, me, tmp) && no in tmp
      ensures LeadMap(h, d, me, res[no := tmp[no]])
    {
      hide SoundPaths, LeadPaths;
      SoundPathsLead(h, d, From(d, me, no), To(d, me, no), tmp[no].paths);
    }

    /** One round: a layer from each of the newest objects. */
    method Round(d: Dir, me: Obj, newest: set<Obj>, res: map<Obj, Pair>) returns (out: map<Obj, Pair>, more: set<Obj>)
      requires h.Closed() && CacheSound() && LeadMap(h, d, me, res) && newest <= res.Keys && newest <= h.objs
      requires curEqvEnumObj.Some? ==> curEqvEnumObj.value !in newest
      modifies this`fEqvObjs, this`bEqvObjs, this`curEqvEnumObj, this`curEqvEnumCnt
      ensures CacheSound() && LeadMap(h, d, me, out)
      ensures Extends(old(CacheOf(d)), CacheOf(d)) && newest <= CacheOf(d).Keys
      ensures out.Keys == res.Keys + Next(CacheOf(d), newest)
      ensures more == News(d, out.Keys, res.Keys)
      ensures Calm(d) && WholeCache(h, d, old(CacheOf(d))) ==> WholeCache(h, d, CacheOf(d))
      ensures curEqvEnumObj == old(curEqvEnumObj) || (curEqvEnumObj.Some? && curEqvEnumObj.value in newest)
    {
      hide SoundCache, LeadMap, SoundMap, Next, Ran, Stitch, News, Calm, WholeCache;
      out, more := res, {};
      ghost var c := CacheOf(d);
      var todo := newest;
      NextOfNone(c);
      NewsOfNone(d, res.Keys);
      assert newest - todo == {};
      while todo != {}
        invariant todo <= newest && CacheSound() && LeadMap(h, d, me, out)
        invariant Extends(c, CacheOf(d)) && newest - todo <= CacheOf(d).Keys
        invariant out.Keys == res.Keys + Next(CacheOf(d), newest - todo)
        invariant more == News(d, out.Keys, res.Keys)
        invariant Calm(d) && WholeCache(h, d, c) ==> WholeCache(h, d, CacheOf(d))
        invariant curEqvEnumObj == old(curEqvEnumObj) || (curEqvEnumObj.Some? && curEqvEnumObj.value in newest - todo)
        decreases todo
      {
        var o :| o in todo;
        ghost var done := newest - todo;
        out, more := RoundStep(d, me, o, out, more, res.Keys, done);
        todo := todo - {o};
        assert newest - todo == done + {o};
      }
      assert newest - todo == newest;
    }

    /** One object of a round. */
    method RoundStep(d: Dir, me: Obj, o: Obj, res: map<Obj, Pair>, news: set<Obj>, ghost known: set<Obj>,
                     ghost done: set<Obj>)
      returns (out: map<Obj, Pair>, more: set<Obj>)
      requires h.Closed() && CacheSound() && LeadMap(h, d, me, res) && o in h.objs && o in res
      requires curEqvEnumObj != Some(o) && done <= CacheOf(d).Keys
      requires known <= res.Keys && res.Keys == known + Next(CacheOf(d), done) && news == News(d, res.Keys, known)
      modifies this`fEqvObjs, this`bEqvObjs, this`curEqvEnumObj, this`curEqvEnumCnt
      ensures CacheSound() && LeadMap(h, d, me, out)
      ensures Extends(old(CacheOf(d)), CacheOf(d)) && o in CacheOf(d)
      ensures out.Keys == known + Next(CacheOf(d), done + {o}) && more == News(d, out.Keys, known)
      ensures Calm(d) && WholeCache(h, d, old(CacheOf(d))) ==> WholeCache(h, d, CacheOf(d))
      ensures curEqvEnumObj == old(curEqvEnumObj) || curEqvEnumObj == Some(o)
    {
      hide SoundCache, LeadMap, SoundMap, Next, Ran, Stitch, News, Calm, WholeCache;
      ghost var mid := CacheOf(d);
      var tmp;
      ghost var run;
      tmp, run := Layer(d, o);
      NewsJoin(d, known, res.Keys, tmp.Keys);
      out, more := Enter(d, me, o, tmp, res);
      more := news + more;
      NextAdds(mid, CacheOf(d), done, o);
    }

    lemma NewsOfNone(d: Dir, known: set<Obj>)
      ensures News(d, known, known) == {}
    {
    }

    lemma NewsJoin(d: Dir, known: set<Obj>, now: set<Obj>, ks: set<Obj>)
      requires known <= now
      ensures News(d, now + ks, known) == News(d, now, known) + News(d, ks, now)
    {
    }

    static lemma NextOfNone(c: Cache)
      ensures Next(c, {}) == {}
    {
    }

    static lemma NextAdds(b: Cache, c: Cache, s: set<Obj>, o: Obj)
      requires Extends(b, c) && s <= b.Keys && o in c
      ensures Next(c, s + {o}) == Next(b, s) + c[o].Keys
    {
    }

    const MAX_EQV_OBJ_ITER := 3
    const MAX_EQV_OBJ_NUM := 16

    /** Nothing the closure would still explore leads outside `s`. */
    static ghost predicate Saturated(c: Cache, s: set<Obj>) {
      Next(c, s) <= s
    }

    /** After none of the rounds between the first and the `n`th were there too many objects to go on. */
    ghost predicate FewBefore(c: Cache, me: Obj, n: nat) {
      forall k :: 0 < k < n ==> |Within(c, me, k)| < MAX_EQV_OBJ_NUM
    }

    lemma FewStay(b: Cache, c: Cache, me: Obj, n: nat)
      requires FewBefore(b, me, n + 1) && forall k :: 0 <= k <= n ==> Within(c, me, k) == Within(b, me, k)
      ensures FewBefore(c, me, n + 1)
    {
      hide Within;
    }

    lemma FewSoFar(c: Cache, me: Obj, n: nat)
      ensures n <= 1 ==> FewBefore(c, me, n)
      ensures FewBefore(c, me, n + 1) ==> FewBefore(c, me, n)
      ensures FewBefore(c, me, n) && |Within(c, me, n)| < MAX_EQV_OBJ_NUM ==> FewBefore(c, me, n + 1)
    {
      hide Within;
    }

    /** A cache that grows changes nothing in the rounds that were explored. */
    lemma RoundsStay(d: Dir, me: Obj, b: Cache, c: Cache, n: nat)
      requires n > 0 ==> Explored(h, d, me, b, Within(b, me, n - 1))
      requires Extends(b, c) && SoundCache(h, d, c)
      ensures forall k :: 0 <= k <= n ==> Within(b, me, k) == Within(c, me, k)
    {
      hide SoundCache, Next, Within;
      forall k | 0 <= k <= n ensures Within(b, me, k) == Within(c, me, k) {
        if k > 0 {
          WithinGrows(b, me, k - 1, n - 1);
        }
        WithinIsStable(h, d, me, b, c, k);
      }
    }

    /** One more round, and what it leaves to explore. */
    method NextRound(d: Dir, me: Obj, newest: set<Obj>, res: map<Obj, Pair>, ghost n: nat)
      returns (out: map<Obj, Pair>, more: set<Obj>)
      requires h.Closed() && CacheSound() && LeadMap(h, d, me, res) && newest <= h.objs
      requires res.Keys == Within(CacheOf(d), me, n) && Frontier(h, d, me, CacheOf(d), n, newest)
      requires curEqvEnumObj.Some? ==> curEqvEnumObj.value in res && curEqvEnumObj.value !in newest
      modifies this`fEqvObjs, this`bEqvObjs, this`curEqvEnumObj, this`curEqvEnumCnt
      ensures CacheSound() && LeadMap(h, d, me, out) && Extends(old(CacheOf(d)), CacheOf(d)) && more <= h.objs
      ensures out.Keys == Within(CacheOf(d), me, n + 1) && Frontier(h, d, me, CacheOf(d), n + 1, more)
      ensures Explored(h, d, me, CacheOf(d), Within(CacheOf(d), me, n))
      ensures forall k :: 0 <= k <= n ==> Within(CacheOf(d), me, k) == Within(old(CacheOf(d)), me, k)
      ensures Calm(d) && WholeCache(h, d, old(CacheOf(d))) ==> WholeCache(h, d, CacheOf(d))
      ensures curEqvEnumObj.Some? ==> curEqvEnumObj.value in out && curEqvEnumObj.value !in more
    {
      hide SoundCache, LeadMap, SoundMap, Next, Within, Explored, Frontier, Calm, WholeCache, Stitch;
      ghost var c := CacheOf(d);
      FrontierInside(d, me, c, n, newest);
      out, more := Round(d, me, newest, res);
      StepWithin(d, me, c, CacheOf(d), n, newest, out.Keys, more);
      FrontierExplored(d, me, CacheOf(d), n + 1, more);
      FrontierIsExplored(d, me, c, n, newest);
      RoundsStay(d, me, c, CacheOf(d), n);
      InObjs(d, me, out);
    }

    /** The loop of the closure. */
    method Rounds(d: Dir, me: Obj) returns (res: map<Obj, Pair>, ghost rounds: nat)
      requires h.Closed() && CacheSound() && me in h.objs && curEqvEnumObj.None?
      modifies this`fEqvObjs, this`bEqvObjs, this`curEqvEnumObj, this`curEqvEnumCnt
      ensures CacheSound() && LeadMap(h, d, me, res) && Extends(old(CacheOf(d)), CacheOf(d))
      ensures res.Keys == Within(CacheOf(d), me, rounds)
      ensures rounds > 0 && Explored(h, d, me, CacheOf(d), Within(CacheOf(d), me, rounds - 1))
      ensures rounds < MAX_EQV_OBJ_ITER && |res| < MAX_EQV_OBJ_NUM ==> Saturated(CacheOf(d), res.Keys)
      ensures rounds <= MAX_EQV_OBJ_ITER && FewBefore(CacheOf(d), me, rounds)
      ensures Calm(d) && WholeCache(h, d, old(CacheOf(d))) ==> WholeCache(h, d, CacheOf(d))
    {
      hide SoundCache, LeadMap, SoundMap, Next, Within, Explored, Frontier, Calm, WholeCache, Saturated, News, Stitch,
           FewBefore;
      res := map[me := Pair(me, me, [], false)];
      SelfLeads(d, me);
      rounds := 0;
      WithinNone(CacheOf(d), me);
      FewSoFar(CacheOf(d), me, 1);
      var newEqvs := {me};
      var nIter := 0;
      while newEqvs != {}
        invariant CacheSound() && LeadMap(h, d, me, res) && nIter == rounds < MAX_EQV_OBJ_ITER
        invariant Extends(old(CacheOf(d)), CacheOf(d))
        invariant res.Keys == Within(CacheOf(d), me, rounds) && FewBefore(CacheOf(d), me, rounds + 1)
        invariant Frontier(h, d, me, CacheOf(d), rounds, newEqvs)
        invariant newEqvs <= h.objs
        invariant Calm(d) && WholeCache(h, d, old(CacheOf(d))) ==> WholeCache(h, d, CacheOf(d))
        invariant curEqvEnumObj.Some? ==> curEqvEnumObj.value in res && curEqvEnumObj.value !in newEqvs
        invariant nIter > 0 || newEqvs != {}
        decreases MAX_EQV_OBJ_ITER - nIter
      {
        ghost var c := CacheOf(d);
        var more;
        res, more := NextRound(d, me, newEqvs, res, rounds);
        FewStay(c, CacheOf(d), me, rounds);
        nIter := nIter + 1;
        rounds := rounds + 1;
        if nIter >= MAX_EQV_OBJ_ITER || |res| >= MAX_EQV_OBJ_NUM {
          return;
        }
        FewSoFar(CacheOf(d), me, rounds);
        newEqvs := more;
      }
      FewSoFar(CacheOf(d), me, rounds);
      FrontierEmpty(d, me, CacheOf(d), rounds);
      FrontierExplored(d, me, CacheOf(d), rounds, {});
    }

    /** getForwardEqvObjs and getBackwardEqvObjs.  Computed afresh, the result holds exactly the
        objects within `rounds` one-layer steps, each reached along its paths, and unless a limit
        stopped the rounds it is the whole closure. */
    method GetEqvObjs(d: Dir, me: Obj) returns (res: map<Obj, Pair>, ghost rounds: nat)
      requires h.Closed() && CacheSound() && AllSound() && me in h.objs
      modifies this
      ensures CacheSound() && AllSound() && LeadMap(h, d, me, res)
      ensures Extends(old(CacheOf(d)), CacheOf(d)) && me in AllOf(d) && AllOf(d)[me] == res
      ensures me in old(AllOf(d)) ==>
              res == old(AllOf(d))[me] && CacheOf(d) == old(CacheOf(d)) && AllOf(d) == old(AllOf(d))
      ensures me !in old(AllOf(d)) ==>
                && res.Keys == Within(CacheOf(d), me, rounds)
                && rounds > 0 && Explored(h, d, me, CacheOf(d), Within(CacheOf(d), me, rounds - 1))
                && (rounds < MAX_EQV_OBJ_ITER && |res| < MAX_EQV_OBJ_NUM ==> Saturated(CacheOf(d), res.Keys))
                && rounds <= MAX_EQV_OBJ_ITER && FewBefore(CacheOf(d), me, rounds)
      ensures Calm(d) && WholeCache(h, d, old(CacheOf(d))) ==> WholeCache(h, d, CacheOf(d))
      ensures me !in old(AllOf(d)) && Calm(d) && WholeCache(h, d, old(CacheOf(d))) ==>
                forall b :: b in res <==> exists k :: 0 <= k <= rounds && Away(h, d, me, b, k)
    {
      hide SoundCache, LeadMap, Next, Within, Calm, WholeCache, Away, Explored;
      curEqvEnumObj := None;
      rounds := 0;
      if d == Forward && me in fEqvObjsAll {
        return fEqvObjsAll[me], 0;
      }
      if d == Backward && me in bEqvObjsAll {
        return bEqvObjsAll[me], 0;
      }
      res, rounds := Rounds(d, me);
      FoundIsAway(d, me, res.Keys, rounds);
      if d == Forward {
        fEqvObjsAll := fEqvObjsAll[me := res];
      } else {
        bEqvObjsAll := bEqvObjsAll[me := res];
      }
    }

    lemma FoundIsAway(d: Dir, me: Obj, found: set<Obj>, n: nat)
      requires CacheSound() && found == Within(CacheOf(d), me, n)
      requires n > 0 ==> Explored(h, d, me, CacheOf(d), Within(CacheOf(d), me, n - 1))
      ensures WholeCache(h, d, CacheOf(d)) ==> forall b :: b in found <==>
              exists k :: 0 <= k <= n && Away(h, d, me, b, k)
    {
      hide SoundCache, Within, WholeCache, Away, Explored;
      if WholeCache(h, d, CacheOf(d)) {
        forall b ensures b in found <==> exists k :: 0 <= k <= n && Away(h, d, me, b, k) {
          TameWithinIsExact(h, d, me, CacheOf(d), n, b);
        }
      }
    }

    /** What is left to explore after `n` rounds: exactly the explorable objects that came last. */
    static ghost predicate Frontier(h: Heap, d: Dir, me: Obj, c: Cache, n: nat, newest: set<Obj>) {
      && newest <= Within(c, me, n)
      && (n > 0 ==> Explored(h, d, me, c, Within(c, me, n - 1)))
      && (forall o :: o in Within(c, me, n) && Explorable(h, d, me, o) ==>
                      o in newest || (n > 0 && o in Within(c, me, n - 1)))
    }

    lemma FrontierInside(d: Dir, me: Obj, c: Cache, n: nat, newest: set<Obj>)
      requires Frontier(h, d, me, c, n, newest)
      ensures newest <= Within(c, me, n)
    {
    }

    lemma WithinNone(c: Cache, me: Obj)
      ensures Within(c, me, 0) == {me}
      ensures forall d :: Frontier(h, d, me, c, 0, {me})
    {
    }

    lemma SelfLeads(d: Dir, me: Obj)
      requires me in h.objs
      ensures LeadMap(h, d, me, map[me := Pair(me, me, [], false)])
    {
      assert Star(h, d, me, me, [], 0);
    }

    lemma InObjs(d: Dir, me: Obj, res: map<Obj, Pair>)
      requires LeadMap(h, d, me, res)
      ensures res.Keys <= h.objs
    {
    }

    lemma StepWithin(d: Dir, me: Obj, b: Cache, c: Cache, n: nat, newest: set<Obj>, keys: set<Obj>, more: set<Obj>)
      requires Extends(b, c) && SoundCache(h, d, c) && Frontier(h, d, me, b, n, newest) && newest <= c.Keys
      requires keys == Within(b, me, n) + Next(c, newest)
      requires more == set k | k in keys && k !in Within(b, me, n) && (d == Forward || h.dummy(k))
      ensures keys == Within(c, me, n + 1) && Frontier(h, d, me, c, n + 1, more)
    {
      hide SoundCache, Next;
      RoundGivesWithin(h, d, me, b, c, n, newest, keys);
      WithinIsStable(h, d, me, b, c, n);
      WithinGrows(c, me, 0, n);
    }

    lemma FrontierIsExplored(d: Dir, me: Obj, c: Cache, n: nat, newest: set<Obj>)
      requires Frontier(h, d, me, c, n, newest)
      ensures n > 0 ==> Explored(h, d, me, c, Within(c, me, n - 1))
    {
    }

    lemma FrontierExplored(d: Dir, me: Obj, c: Cache, n: nat, newest: set<Obj>)
      requires n > 0 && Frontier(h, d, me, c, n, newest)
      ensures Explored(h, d, me, c, Within(c, me, n - 1))
    {
    }

    lemma FrontierEmpty(d: Dir, me: Obj, c: Cache, n: nat)
      requires n > 0 && SoundCache(h, d, c) && Frontier(h, d, me, c, n, {})
      ensures Saturated(c, Within(c, me, n))
    {
      hide SoundCache;
      var w := Within(c, me, n);
      forall k | k in Next(c, w) ensures k in w {
        var o :| o in w && o in c && k in c[o];
        if Explorable(h, d, me, o) {
          assert k in Next(c, Within(c, me, n - 1));
        } else {
          ConcreteOnlyItself(h, d, me, c, o, k);
        }
      }
    }
  }
}
