/** Where a field was written, and what one update of its records does to them. */
module FieldSpec {
  import opened Cfg
  import opened Constraints

  /** The first instruction of a top-level entry function. */
  type Entry = nat

  /** A program site: a location under some entry, or a place outside all functions, such as the
      initialiser of a global. */
  datatype Site = Preset(id: nat) | At(entry: Entry, loc: Loc)

  type Program = Entry -> Graph

  predicate HasCtx(s: Option<Site>) {
    s.Some? && s.value.At?
  }

  /** Site `l` strictly post-dominates site `other`. */
  predicate Overrides(prog: Program, l: Option<Site>, other: Option<Site>) {
    && HasCtx(l) && other.Some?
    && var g := prog(l.value.entry);
       match other.value
       case Preset(_) => PostDom(g, l.value.loc, g.entry, false)
       case At(e, x) => e == l.value.entry && PostDom(g, l.value.loc, x, true)
  }

  function BlockedLocs(blk: set<Site>, e: Entry): set<Loc> {
    set s | s in blk && s.At? && s.entry == e :: s.loc
  }

  /** Site `other` reaches the site `l` around the blockers. */
  predicate Arrives(prog: Program, l: Site, other: Option<Site>, blk: set<Site>) {
    if !HasCtx(other) then
      blk == {} || l.Preset? || ReachFromEntry(prog(l.entry), l.loc, BlockedLocs(blk, l.entry))
    else
      l.At? && l.entry == other.value.entry && Reach(prog(l.entry), other.value.loc, l.loc, BlockedLocs(blk, l.entry))
  }

  /** Control enters at the top and gets to `l`; the entry location blocks like any other. */
  predicate ReachFromEntry(g: Graph, l: Loc, blk: set<Loc>) {
    l == g.entry || (g.entry !in blk && Reach(g, g.entry, l, blk))
  }

  /** A way in from the entry, around the blockers. */
  ghost predicate WayIn(g: Graph, p: seq<Loc>, l: Loc, blk: set<Loc>) {
    IsPath(g, p, {}) && Joins(p, g.entry, l) && forall x :: 0 <= x < |p| - 1 ==> p[x] !in blk
  }

  lemma ReachFromEntryMeaning(g: Graph, l: Loc, blk: set<Loc>)
    ensures ReachFromEntry(g, l, blk) <==> exists p :: WayIn(g, p, l, blk)
  {
    hide Reach;
    ReachIffPath(g, g.entry, l, blk);
    if l == g.entry {
      assert WayIn(g, [l], l, blk);
    } else if ReachFromEntry(g, l, blk) {
      var p :| IsPath(g, p, blk) && Joins(p, g.entry, l);
      assert WayIn(g, p, l, blk);
    }
    if p :| WayIn(g, p, l, blk) {
      assert IsPath(g, p, blk);
      assert |p| > 1 ==> p[0] !in blk;
    }
  }

  /** A store overrides exactly what was stored under its own entry at another place, if no way from there out of
      the function gets around it, and what comes from outside all functions, if no way through the function does. */
  lemma OverridesMeans(prog: Program, e: Entry, l: Loc, other: Option<Site>)
    ensures var g := prog(e);
            Overrides(prog, Some(At(e, l)), other) <==>
            match other
            case None => false
            case Some(Preset(_)) => forall p :: LeavesThrough(g, p, g.entry) ==> l in p
            case Some(At(f, x)) => f == e && x != l && forall p :: LeavesThrough(g, p, x) ==> l in p
  {
    hide PostDom, LeavesThrough;
    var g := prog(e);
    match other
    case None =>
    case Some(Preset(_)) => PostDomMeans(g, l, g.entry, false);
    case Some(At(f, x)) => PostDomMeans(g, l, x, true);
  }

  /** What was stored under the entry of a read arrives there along the paths whose interior no blocker of that
      entry is on; what comes from outside along such ways in from the entry, or anywhere without blockers. */
  lemma ArrivesMeans(prog: Program, e: Entry, l: Loc, other: Option<Site>, blk: set<Site>)
    ensures var g, b := prog(e), BlockedLocs(blk, e);
            Arrives(prog, At(e, l), other, blk) <==>
            if other.Some? && other.value.At? then
              other.value.entry == e && exists p :: IsPath(g, p, b) && Joins(p, other.value.loc, l)
            else blk == {} || exists p :: WayIn(g, p, l, b)
    ensures forall x :: x in BlockedLocs(blk, e) <==> At(e, x) in blk
  {
    hide Reach, ReachFromEntry;
    var g, b := prog(e), BlockedLocs(blk, e);
    ReachFromEntryMeaning(g, l, b);
    if HasCtx(other) && other.value.entry == e {
      ReachIffPath(g, other.value.loc, l, b);
    }
  }

  /** What a record points to: a field of an object, or nothing known. */
  datatype Pointee<+O> = Pointee(target: Option<O>, dfid: int)

  /** A record handed to an update. */
  datatype Incoming<+O> = Incoming(p: Pointee<O>, weak: bool)

  /** The one record kept for a pointee: strong as soon as one of the given records is strong,
      unless the caller decides. */
  function Merged<O(==)>(dst: set<Incoming<O>>, isWeak: int, p: Pointee<O>): Incoming<O> {
    Incoming(p, if isWeak >= 0 then isWeak != 0 else forall x | x in dst :: x.p == p ==> x.weak)
  }

  function Unified<O(==)>(dst: set<Incoming<O>>, isWeak: int): set<Incoming<O>> {
    set d | d in dst :: Merged(dst, isWeak, d.p)
  }

  ghost predicate Strong<O>(u: set<Incoming<O>>) {
    exists i :: i in u && !i.weak
  }

  ghost predicate About<O>(u: set<Incoming<O>>, p: Pointee<O>) {
    exists i :: i in u && i.p == p
  }

  /** An update keeps one record for each pointee it is given and for no other; unless the caller decides, it is
      weak if all the given ones are; and something is stored for certain exactly if that is asked of anything or
      some given record is strong. */
  lemma UnifiedMeans<O>(dst: set<Incoming<O>>, isWeak: int)
    ensures var u := Unified(dst, isWeak);
            && (forall p :: About(u, p) <==> About(dst, p))
            && (forall i, j :: i in u && j in u && i.p == j.p ==> i == j)
            && (forall i :: i in u ==>
                  (i.weak <==> if isWeak < 0 then forall d :: d in dst && d.p == i.p ==> d.weak else isWeak != 0))
            && (Strong(u) <==> if isWeak < 0 then exists d :: d in dst && !d.weak else isWeak == 0 && dst != {})
  {
    var u := Unified(dst, isWeak);
    forall d | d in dst ensures About(u, d.p) {
      assert Merged(dst, isWeak, d.p) in u;
    }
  }
}
