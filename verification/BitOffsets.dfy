/** Pointer arithmetic over embedded objects. */
module BitOffsets {
  import opened Constraints
  import opened Layout
  import opened Forest
  import opened Embedding

  /** A pointer record: the object and field it points to.  It is adjusted in place. */
  class PointerPointsTo {
    var targetObject: Obj
    var dstfieldId: int

    constructor (o: Obj, f: int)
      ensures targetObject == o && dstfieldId == f
    {
      targetObject := o;
      dstfieldId := f;
    }

    /** The absolute bit offset it stands for, counted from the outermost object. */
    ghost function Position(): int
      reads this, targetObject
    {
      targetObject.base + Skip(targetObject.ty, dstfieldId)
    }
  }

  // ---- one step inwards ------------------------------------------------------------------------------

  /** All of `world` is where it was. */
  twostate predicate Unmoved(world: set<Obj>)
    reads world
  {
    forall x :: x in world ==> x.root == old(x.root) && x.base == old(x.base)
  }

  /** One step inwards, in terms of places.  The step is `lost` when the field holds a misfit. */
  method StepInto(ghost world: set<Obj>, curr: Obj, f: int) returns (r: Obj?, ghost w: set<Obj>, ghost lost: bool)
    requires IsForest(ViewOf(world)) && curr in world
    modifies curr`embObjs, world`parent, world`parentField, world`root, world`base, world`depth
    ensures world <= w && fresh(w - world) && IsForest(ViewOf(w))
    ensures lost <==> Misfit(old(ViewOf(world)), curr, f)
    ensures r != null ==> r in w && r.ty == FieldTy(curr.ty, f) && r.ty.Some?
    ensures FieldTy(curr.ty, f).Some? && Makeable(FieldTy(curr.ty, f).value) ==> r != null
    ensures !lost ==> Unmoved(world)
    ensures r != null && !lost ==> r.root == old(curr.root) && r.base == old(curr.base) + Skip(curr.ty, f)
    ensures r != null && lost ==> r !in world && r.root == r
    ensures r != null && !lost && f in old(curr.embObjs) ==>
            r == old(curr.embObjs)[f] && ViewOf(w) == old(ViewOf(world))
    ensures r != null && (lost || f !in old(curr.embObjs)) ==> r.embObjs == map[]
    ensures Typed(old(ViewOf(world))) ==> !lost && Typed(ViewOf(w))
  {
    hide Laid, IsForest, Skip, Embedded, Cut, Added, ViewOf, Typed;
    ghost var v: View<Obj> := ViewOf(world);
    InPlace(world, curr);
    LaidOut(v, curr);
    lost := Misfit(v, curr, f);
    TypedHasNoMisfit(v, curr, f);
    r, w := curr.CreateEmbObj(world, f, None);
    StillInPlace(w);
    if r == null {
    } else if f in v[curr].embs && !lost {
      ReusedPlace(v, curr, f);
    } else if !lost {
      GrownPlaces(v, curr, f, r, r.ty);
      if Typed(v) {
        GrownIsTyped(v, curr, f, r);
      }
    } else {
      AddedPlace(if v[v[curr].embs[f]].parent == Some(curr) then Cut(v, v[curr].embs[f]) else v, r, r.ty);
    }
  }

  lemma AddedPlace(v: View<Obj>, o: Obj, t: Option<Ty>)
    ensures o in Added(v, o, t) && Added(v, o, t)[o].root == o
  {
  }

  // ---- the way inwards -------------------------------------------------------------------------------

  lemma WayStep(fid: seq<int>, hosts: seq<Ty>, i: nat)
    requires |fid| == |hosts| && i < |fid|
    requires forall k :: 0 <= k < |fid| ==> 0 <= fid[k] < hosts[k].Parts()
    ensures WayOff(fid[..i + 1], hosts[..i + 1]) == hosts[i].PartOff(fid[i]) + WayOff(fid[..i], hosts[..i])
  {
    assert fid[..i + 1][..i] == fid[..i] && hosts[..i + 1][..i] == hosts[..i];
  }

  /** Where everything is. */
  ghost function PlacesOf(world: set<Obj>): map<Obj, (Obj, int)>
    reads world
  {
    map x | x in world :: (x.root, x.base)
  }

  /** Where a descent started: the objects there were, and the place it is to lead to. */
  datatype Start = Start(world: set<Obj>, places: map<Obj, (Obj, int)>, typed: bool, root: Obj, goal: int)

  /** The world has only grown, and unless something is lost nothing has moved. */
  ghost predicate Intact(st: Start, w: set<Obj>, lost: bool)
    reads w, st.world
  {
    && st.world <= w && IsForest(ViewOf(w))
    && (!lost ==> PlacesOf(st.world) == st.places)
    && (st.typed ==> !lost && Typed(ViewOf(w)))
  }

  /** From `curr` there are `rest` bits to go; a descent that lost something is outside the old world. */
  ghost predicate OnTheWay(st: Start, w: set<Obj>, lost: bool, curr: Obj, rest: int)
    reads w, st.world, curr
  {
    && Intact(st, w, lost) && curr in w
    && (if lost then curr.root !in st.world else curr.root == st.root && curr.base + rest == st.goal)
  }

  lemma WayIsIntact(st: Start, w: set<Obj>, lost: bool, curr: Obj, rest: int)
    requires OnTheWay(st, w, lost, curr, rest)
    ensures Intact(st, w, lost) && curr in w && st.world <= w && IsForest(ViewOf(w))
  {
    hide IsForest, Typed;
  }

  lemma OffIs(ty: Ty, f: int)
    requires 0 <= f < ty.Parts()
    ensures Off(ty, f) == ty.PartOff(f)
  {
  }

  /** Which way a descent takes: `fid` from `o`, down to index `limit`, as things were at the start. */
  datatype Route = Route(v: View<Obj>, o: Obj, fid: seq<int>, limit: nat)

  ghost predicate Lost(rt: Route) {
    rt.o in rt.v && Stumbles(rt.v, rt.o, rt.fid, |rt.fid| - 1, rt.limit)
  }

  /** At index `i` the descent has reached `curr`: it has been lost, or what is ahead decides. */
  ghost predicate Tracks(rt: Route, v: View<Obj>, lost: bool, curr: Obj, i: int) {
    && curr in v
    && (if lost then Lost(rt) && v[curr].embs == map[] else Lost(rt) <==> Stumbles(v, curr, rt.fid, i, rt.limit))
  }

  lemma TracksOn(rt: Route, v: View<Obj>, lost: bool, curr: Obj, i: int, w: View<Obj>, r: Obj)
    requires Tracks(rt, v, lost, curr, i) && rt.limit < i < |rt.fid| && IsForest(v) && r in w
    requires var f := rt.fid[i];
             if f in v[curr].embs && !Misfit(v, curr, f) then r == v[curr].embs[f] && w == v else w[r].embs == map[]
    ensures Tracks(rt, w, lost || Misfit(v, curr, rt.fid[i]), r, i - 1)
  {
    LaidOut(v, curr);
    hide IsForest, Lost;
  }

  method StepOn(ghost st: Start, ghost rt: Route, ghost w: set<Obj>, ghost lost: bool, curr: Obj, host: Ty,
                ghost i: int, f: int, ghost rest: int)
    returns (r: Obj?, ghost w': set<Obj>, ghost lost': bool)
    requires curr.ty == Some(host) && 0 <= f < host.Parts() && OnTheWay(st, w, lost, curr, host.PartOff(f) + rest)
    requires rt.limit < i < |rt.fid| && rt.fid[i] == f && Tracks(rt, ViewOf(w), lost, curr, i)
    modifies curr`embObjs, w`parent, w`parentField, w`root, w`base, w`depth
    ensures w <= w' && fresh(w' - w) && Intact(st, w', lost')
    ensures r != null ==> OnTheWay(st, w', lost', r, rest)
    ensures r != null ==> r.ty == Some(host.PartTy(f)) && Tracks(rt, ViewOf(w'), lost', r, i - 1)
    ensures Makeable(host.PartTy(f)) ==> r != null
  {
    hide Laid, IsForest, Off, ViewOf, Typed, Misfit, Tracks;
    OffIs(host, f);
    StillInPlace(w);
    ghost var v: View<Obj> := ViewOf(w);
    assert TypeAt(host, f) == Some(host.PartTy(f));
    ghost var step;
    r, w', step := StepInto(w, curr, f);
    lost' := lost || step;
    StillInPlace(w');
    if r != null {
      TracksOn(rt, v, lost, curr, i, ViewOf(w'), r);
    }
  }

  /** How far a descent has come: `fd` has been followed down to index `i`, and `curr` is there. */
  ghost predicate Reached(st: Start, rt: Route, fd: FieldDesc, w: set<Obj>, lost: bool, curr: Obj, i: int)
    reads w, st.world, curr
  {
    && 0 <= i < |fd.fid| == |fd.hosts|
    && (forall k :: 0 <= k < |fd.fid| ==> 0 <= fd.fid[k] < fd.hosts[k].Parts())
    && OnTheWay(st, w, lost, curr, WayOff(fd.fid[..i + 1], fd.hosts[..i + 1]))
    && Tracks(rt, ViewOf(w), lost, curr, i)
  }

  /** The state of the loop of createEmbObjChain, as far as places are concerned. */
  lemma ReachedMeans(st: Start, rt: Route, fd: FieldDesc, w: set<Obj>, lost: bool, curr: Obj, i: int)
    requires Reached(st, rt, fd, w, lost, curr, i)
    ensures 0 <= i < |fd.fid| == |fd.hosts| && Intact(st, w, lost) && curr in w && st.world <= w && IsForest(ViewOf(w))
    ensures OnTheWay(st, w, lost, curr, WayOff(fd.fid[..i + 1], fd.hosts[..i + 1]))
            && Tracks(rt, ViewOf(w), lost, curr, i)
    ensures i > 0 ==>
            WayOff(fd.fid[..i + 1], fd.hosts[..i + 1]) ==
            fd.hosts[i].PartOff(fd.fid[i]) + WayOff(fd.fid[..i], fd.hosts[..i])
  {
    hide IsForest, Typed, Intact, Tracks;
    WayIsIntact(st, w, lost, curr, WayOff(fd.fid[..i + 1], fd.hosts[..i + 1]));
    WayStep(fd.fid, fd.hosts, i);
  }

  /** One round of createEmbObjChain. */
  method ChainStep(ghost st: Start, ghost rt: Route, fd: FieldDesc, ghost w: set<Obj>, ghost lost: bool, curr: Obj,
                   i: int)
    returns (r: Obj?, ghost w': set<Obj>, ghost lost': bool)
    requires fd.hosts != [] && IsWay(fd.hosts[|fd.hosts| - 1], fd.fid, fd.hosts)
    requires rt.fid == fd.fid && rt.limit < i < |fd.fid| && curr.ty == Some(fd.hosts[i])
             && Reached(st, rt, fd, w, lost, curr, i)
    modifies curr`embObjs, w`parent, w`parentField, w`root, w`base, w`depth
    ensures w <= w' && fresh(w' - w) && r != null && r.ty == Some(fd.hosts[i - 1])
    ensures Reached(st, rt, fd, w', lost', r, i - 1)
  {
    hide OnTheWay, Intact, Tracks, WayOff, IsForest;
    ReachedMeans(st, rt, fd, w, lost, curr, i);
    assert fd.hosts[i - 1] == fd.hosts[i].PartTy(fd.fid[i]) && Makeable(fd.hosts[i - 1]);
    r, w', lost' := StepOn(st, rt, w, lost, curr, fd.hosts[i], i, fd.fid[i], WayOff(fd.fid[..i], fd.hosts[..i]));
  }

  /** createEmbObjChain: from the host inwards along the way of `fd`, down to the step `limit`.  The
      result is that step, or a greater number when the types disagree at the start; on the way they
      cannot.  Where it ends, the pointer is at that step. */
  method CreateEmbObjChain(ghost st: Start, ghost rt: Route, fd: FieldDesc, pto: PointerPointsTo, limit: int)
    returns (i: int, ghost w: set<Obj>, ghost lost: bool)
    requires fd.hosts != [] && IsWay(fd.hosts[|fd.hosts| - 1], fd.fid, fd.hosts) && limit < |fd.fid|
    requires rt.fid == fd.fid && rt.limit == (if limit > 0 then limit else 0)
    requires Reached(st, rt, fd, st.world, false, pto.targetObject, |fd.fid| - 1)
    modifies st.world`embObjs, st.world`parent, st.world`parentField, st.world`root, st.world`base, st.world`depth, pto
    ensures fresh(w - st.world) && Intact(st, w, lost) && pto.targetObject in w
    ensures i == if old(pto.targetObject.ty) == Some(fd.hosts[|fd.hosts| - 1]) then rt.limit else |fd.fid|
    ensures i < |fd.fid| ==> pto.targetObject.ty == Some(fd.hosts[i]) && pto.dstfieldId == fd.fid[i]
    ensures i < |fd.fid| ==> Reached(st, rt, fd, w, lost, pto.targetObject, i)
    ensures i == |fd.fid| ==>
            pto.targetObject == old(pto.targetObject) && pto.dstfieldId == old(pto.dstfieldId) && w == st.world && !lost
    ensures i == |fd.fid| ==> ViewOf(w) == old(ViewOf(st.world))
  {
    hide Reached, Intact, OnTheWay, Tracks, WayOff, IsForest, ViewOf;
    w, lost := st.world, false;
    var currHostObj: Obj := pto.targetObject;
    i := |fd.fid| - 1;
    ReachedMeans(st, rt, fd, w, lost, currHostObj, i);
    while i > (if limit > 0 then limit else 0)
      invariant rt.limit <= i < |fd.fid|
      invariant currHostObj.ty == Some(fd.hosts[i]) <==> old(pto.targetObject.ty) == Some(fd.hosts[|fd.hosts| - 1])
      invariant if i == |fd.fid| - 1 then currHostObj == old(pto.targetObject) && w == st.world && !lost
                && ViewOf(w) == old(ViewOf(st.world))
                                          && pto.targetObject == old(pto.targetObject)
                                             && pto.dstfieldId == old(pto.dstfieldId)
                else currHostObj.ty == Some(fd.hosts[i])
      invariant fresh(w - st.world) && st.world <= w && pto.targetObject in w
      invariant Reached(st, rt, fd, w, lost, currHostObj, i)
    {
      ReachedMeans(st, rt, fd, w, lost, currHostObj, i);
      if currHostObj.ty != Some(fd.hosts[i]) {
        i := i + 1;
        return;
      }
      pto.targetObject := currHostObj;
      pto.dstfieldId := fd.fid[i];
      var newObj;
      newObj, w, lost := ChainStep(st, rt, fd, w, lost, currHostObj, i);
      if newObj == null {
        return;
      }
      currHostObj := newObj;
      i := i - 1;
    }
    ReachedMeans(st, rt, fd, w, lost, currHostObj, i);
    if currHostObj.ty == Some(fd.hosts[i]) {
      pto.targetObject := currHostObj;
      pto.dstfieldId := fd.fid[i];
      return;
    }
    i := i + 1;
  }

  // ---- what decides the outcome ----------------------------------------------------------------------

  /** How bit2Field ends: with an adjusted pointer, without success, or in one of the two cases that
      are not modelled, the variable index and the container whose type has to be guessed. */
  datatype Outcome = Done | Failed | Variable | NeedsContainer

  predicate HasField(d: seq<FieldDesc>, f: int) {
    exists k :: 0 <= k < |d| && Outer(d[k]) == f
  }

  predicate HasOffset(d: seq<FieldDesc>, off: int) {
    exists k :: 0 <= k < |d| && d[k].bitoff == off
  }

  /** The first place at an offset. */
  function FirstAt(d: seq<FieldDesc>, off: int): (i: nat)
    requires HasOffset(d, off)
    ensures i < |d| && d[i].bitoff == off && forall k :: 0 <= k < i ==> d[k].bitoff != off
  {
    if d[0].bitoff == off then 0
    else
      assert HasOffset(d[1..], off) by {
        var k :| 0 <= k < |d| && d[k].bitoff == off;
        assert d[1..][k - 1] == d[k];
      }
      assert forall k :: 0 < k < |d| ==> d[1..][k - 1] == d[k];
      1 + FirstAt(d[1..], off)
  }

  /** The innermost step of a way that does not stay at the front, or its length. */
  function Front(fid: seq<int>): (n: nat)
    ensures n <= |fid| && (forall k :: 0 <= k < n ==> fid[k] == 0) && (n < |fid| ==> fid[n] != 0)
  {
    if fid == [] || fid[0] != 0 then 0 else 1 + Front(fid[1..])
  }

  predicate Outside(ty: Ty, res: int) {
    res < 0 || res >= ty.StoreSize()
  }

  /** What can be said of field `f` of a `ty` before any offset is looked at. */
  function Sight(ty: Option<Ty>, f: int): Outcome {
    if ty.None? || !ty.value.Composite() || !IndexValid(ty.value, f) || Desc(ty.value).None? then Failed
    else if f == -1 then Variable
    else if HasField(Desc(ty.value).value, f) then Done
    else Failed
  }

  /** Where the climb towards the offset `goal` ends: at the first host that reaches that far, or that
      has no host itself, or whose field says nothing. */
  ghost function ClimbEnd(v: View<Obj>, o: Obj, f: int, goal: int): (e: (Obj, int))
    requires IsForest(v) && o in v
    ensures e.0 in v
    decreases v[o].depth
  {
    assert Seated(v, o);
    if Sight(v[o].ty, f) == Done && Outside(v[o].ty.value, goal - v[o].base) && v[o].parent.Some?
    then ClimbEnd(v, v[o].parent.value, v[o].field, goal)
    else (o, f)
  }

  /** How bit2Field ends when the climb has ended at field `f` of a `ty`, `rest` bits from its beginning. */
  function Ending(ty: Option<Ty>, f: int, rest: int): Outcome {
    if Sight(ty, f) != Done then Sight(ty, f)
    else if rest == 0 then Done
    else if Outside(ty.value, rest) then NeedsContainer
    else if HasOffset(Desc(ty.value).value, rest) then Done
    else Failed
  }

  /** The way inwards from `o` to the place `rest` bits from its beginning. */
  ghost function RouteTo(v: View<Obj>, o: Obj, d: seq<FieldDesc>, rest: int): Route
    requires HasOffset(d, rest)
  {
    var fid := d[FirstAt(d, rest)].fid;
    Route(v, o, fid, Front(fid))
  }

  /** On the way inwards there is a misfit. */
  ghost predicate Strays(v: View<Obj>, o: Obj, rest: int) {
    && o in v && v[o].ty.Some? && Desc(v[o].ty.value).Some? && HasOffset(Desc(v[o].ty.value).value, rest)
    && rest != 0 && Lost(RouteTo(v, o, Desc(v[o].ty.value).value, rest))
  }

  // ---- outwards ----------------------------------------------------------------------------------------

  /** The fields of a type, as the search sees them. */
  lemma SearchIsSound(ty: Ty)
    requires Laid(ty) && Desc(ty).Some?
    ensures FieldsAscending(Desc(ty).value, 0) && Ascending(Desc(ty).value)
    ensures forall fd :: fd in Desc(ty).value ==> Truthful(ty, fd)
  {
    DescFieldsAscend(ty, 0);
    DescIsAscending(ty);
    DescIsTruthful(ty);
  }

  lemma HostIsOutside(world: set<Obj>, o: Obj)
    requires IsForest(ViewOf(world)) && o in world && o.parent != null
    ensures o.parent in world && o.parent.ty.Some? && o.root == o.parent.root && o.parent.depth < o.depth
    ensures o.base == o.parent.base + Skip(o.parent.ty, o.parentField)
  {
    hide Laid, Skip, FitsIn;
    StillInPlace(world);
    assert Seated(ViewOf(world), o);
  }

  lemma DescStartsAtFirst(ty: Ty)
    requires Desc(ty).Some?
    ensures Desc(ty).value == DescFrom(ty, 0)
  {
  }

  /** One round of the climb: the offset of the pointer's field and the target offset in its object. */
  method Look(ghost world: set<Obj>, pto: PointerPointsTo, bits: int) returns (o: Outcome, d: seq<FieldDesc>, res: int)
    requires IsForest(ViewOf(world)) && pto.targetObject in world
    ensures o == Sight(pto.targetObject.ty, pto.dstfieldId)
    ensures o == Done ==>
              && pto.targetObject.ty.Some? && Laid(pto.targetObject.ty.value)
                 && Desc(pto.targetObject.ty.value) == Some(d)
              && 0 <= pto.dstfieldId < pto.targetObject.ty.value.Parts()
              && pto.targetObject.base + res == pto.Position() + bits
  {
    hide Laid, IsForest, ViewOf, Ascending, FieldsAscending, Desc, Outer;
    o, d, res := Failed, [], 0;
    StillInPlace(world);
    LaidOut(ViewOf(world), pto.targetObject);
    if pto.targetObject.ty.None? || !pto.targetObject.ty.value.Composite() {
      return;
    }
    var ty := pto.targetObject.ty.value;
    if !IndexValid(ty, pto.dstfieldId) || Desc(ty).None? {
      return;
    }
    d := Desc(ty).value;
    if pto.dstfieldId == -1 {
      o := Variable;
      return;
    }
    SearchIsSound(ty);
    var i := LocateField(d, pto.dstfieldId);
    if i < 0 {
      return;
    }
    DescStartsAtFirst(ty);
    FieldStartsThere(ty, 0, pto.dstfieldId, i);
    OffIs(ty, pto.dstfieldId);
    o, res := Done, d[i].bitoff + bits;
  }

  lemma ClimbStep(world: set<Obj>, o: Obj, f: int, goal: int)
    requires IsForest(ViewOf(world)) && o in world
    ensures var v: View<Obj> := ViewOf(world);
            && o in v
            && if Sight(o.ty, f) == Done && Outside(o.ty.value, goal - o.base) && o.parent != null
               then o.parent in v && ClimbEnd(v, o, f, goal) == ClimbEnd(v, o.parent, o.parentField, goal)
               else ClimbEnd(v, o, f, goal) == (o, f)
  {
    hide Laid, Sight, Outside, Skip, FitsIn;
    StillInPlace(world);
    HostOnFile(world, o);
  }

  /** The loop of bit2Field: outwards along the recorded hosts until the target offset is inside. */
  method Climb(ghost world: set<Obj>, ghost v: View<Obj>, ghost goal: int, pto: PointerPointsTo, bitWidth: nat,
               index: int)
    returns (o: Outcome, d: seq<FieldDesc>, res: int)
    requires IsForest(v) && v == ViewOf(world) && pto.targetObject in v && v.Keys == world
    requires goal == pto.Position() + bitWidth * index
    modifies pto
    ensures pto.targetObject in world && pto.targetObject.root == old(pto.targetObject.root)
    ensures (pto.targetObject, pto.dstfieldId) == ClimbEnd(v, old(pto.targetObject), old(pto.dstfieldId), goal)
    ensures o == Sight(pto.targetObject.ty, pto.dstfieldId)
    ensures o == Done ==>
              && pto.targetObject.ty.Some? && Laid(pto.targetObject.ty.value)
                 && Desc(pto.targetObject.ty.value) == Some(d)
              && 0 <= pto.dstfieldId < pto.targetObject.ty.value.Parts()
              && pto.targetObject.base + res == goal
  {
    hide Laid, IsForest, ViewOf, Skip, Desc, Sight, Outside, ClimbEnd;
    var bits := index * bitWidth;
    while true
      invariant pto.targetObject in v && pto.targetObject.root == old(pto.targetObject.root)
      invariant IsForest(v) && v == ViewOf(world)
      invariant pto.Position() + bits == goal
      invariant ClimbEnd(v, pto.targetObject, pto.dstfieldId, goal) ==
                ClimbEnd(v, old(pto.targetObject), old(pto.dstfieldId), goal)
      decreases pto.targetObject.depth
    {
      o, d, res := Look(world, pto, bits);
      ClimbStep(world, pto.targetObject, pto.dstfieldId, goal);
      if o != Done || !Outside(pto.targetObject.ty.value, res) || pto.targetObject.parent == null {
        return;
      }
      HostIsOutside(world, pto.targetObject);
      var obj := pto.targetObject;
      pto.targetObject := obj.parent;
      pto.dstfieldId := obj.parentField;
      bits := res;
    }
  }

  // ---- inwards -----------------------------------------------------------------------------------------

  /** At the front of a type the way costs nothing. */
  lemma {:induction false} FrontIsFree(ty: Ty, fid: seq<int>, hosts: seq<Ty>, m: nat)
    requires Laid(ty) && IsWay(ty, fid, hosts) && m <= |fid| && forall k :: 0 <= k < m ==> fid[k] == 0
    ensures WayOff(fid[..m], hosts[..m]) == 0
  {
    if m == 0 {
    } else {
      FrontIsFree(ty, fid, hosts, m - 1);
      WayStep(fid, hosts, m - 1);
      HostsAreLaid(ty, fid, hosts, m - 1);
      FirstPartIsFirst(hosts[m - 1]);
    }
  }

  lemma FirstPartIsFirst(ty: Ty)
    requires Laid(ty) && ty.Parts() > 0
    ensures ty.PartOff(0) == 0
  {
  }

  lemma {:induction false} HostsAreLaid(ty: Ty, fid: seq<int>, hosts: seq<Ty>, k: nat)
    requires Laid(ty) && IsWay(ty, fid, hosts) && k < |fid|
    ensures Laid(hosts[k])
    decreases |fid| - k
  {
    hide Ty.PartOff, Ty.StoreSize, PartDesc;
    if k + 1 == |fid| {
    } else {
      HostsAreLaid(ty, fid, hosts, k + 1);
      assert hosts[k] == hosts[k + 1].PartTy(fid[k + 1]);
    }
  }

  /** The outermost step that does not stay at the front. */
  method FirstStep(fid: seq<int>) returns (limit: nat)
    ensures limit == Front(fid)
  {
    limit := 0;
    while limit < |fid| && fid[limit] == 0
      invariant limit <= |fid| && Front(fid) == limit + Front(fid[limit..])
    {
      assert fid[limit..][1..] == fid[limit + 1..];
      limit := limit + 1;
    }
  }

  /** The place `fd` is `res` bits into its type, and its way leads away from the front. */
  lemma WayToPlace(ty: Ty, d: seq<FieldDesc>, fd: FieldDesc, res: int)
    requires Laid(ty) && Desc(ty) == Some(d) && fd in d && fd.bitoff == res != 0
    ensures IsWay(ty, fd.fid, fd.hosts) && WayOff(fd.fid, fd.hosts) == res
    ensures Front(fd.fid) < |fd.fid|
    ensures WayOff(fd.fid[..Front(fd.fid) + 1], fd.hosts[..Front(fd.fid) + 1])
            == fd.hosts[Front(fd.fid)].PartOff(fd.fid[Front(fd.fid)])
  {
    hide Desc, Laid, WayOff;
    SearchIsSound(ty);
    var m := Front(fd.fid);
    FrontIsFree(ty, fd.fid, fd.hosts, m);
    assert fd.fid[..|fd.fid|] == fd.fid && fd.hosts[..|fd.hosts|] == fd.hosts;
    if m < |fd.fid| {
      WayStep(fd.fid, fd.hosts, m);
    }
  }

  /** A descent begins. */
  lemma DescentStarts(st: Start, rt: Route, fd: FieldDesc, o: Obj, res: int, ty: Ty)
    requires IsWay(ty, fd.fid, fd.hosts) && WayOff(fd.fid, fd.hosts) == res
    requires OnTheWay(st, st.world, false, o, res)
    requires rt.v == ViewOf(st.world) && rt.o == o && rt.fid == fd.fid && o in rt.v
    ensures Reached(st, rt, fd, st.world, false, o, |fd.fid| - 1)
  {
    hide OnTheWay, Stumbles;
    assert fd.fid[..|fd.fid|] == fd.fid && fd.hosts[..|fd.hosts|] == fd.hosts;
  }

  lemma FoundAt(d: seq<FieldDesc>, res: int, i: int)
    requires -1 <= i < |d|
    requires i >= 0 ==> d[i].bitoff == res && forall k :: 0 <= k < i ==> d[k].bitoff != res
    requires i < 0 ==> forall k :: 0 <= k < |d| ==> d[k].bitoff != res
    ensures HasOffset(d, res) <==> i >= 0
    ensures i >= 0 ==> i == FirstAt(d, res)
  {
  }

  lemma LostAtEnd(rt: Route, v: View<Obj>, lost: bool, curr: Obj)
    requires Tracks(rt, v, lost, curr, rt.limit)
    ensures lost <==> Lost(rt)
  {
  }

  /** The way of a place can be followed from `o`, and at its last step that does not stay at the front
      the place is where the field begins. */
  ghost predicate Followable(ty: Ty, fd: FieldDesc, res: int) {
    && IsWay(ty, fd.fid, fd.hosts) && WayOff(fd.fid, fd.hosts) == res
    && Front(fd.fid) < |fd.fid|
    && WayOff(fd.fid[..Front(fd.fid) + 1], fd.hosts[..Front(fd.fid) + 1]) ==
       Off(fd.hosts[Front(fd.fid)], fd.fid[Front(fd.fid)])
  }

  lemma PlaceIsFollowable(ty: Ty, d: seq<FieldDesc>, fd: FieldDesc, res: int)
    requires Laid(ty) && Desc(ty) == Some(d) && fd in d && fd.bitoff == res != 0
    ensures Followable(ty, fd, res)
  {
    hide Desc, Laid, WayOff, Front;
    WayToPlace(ty, d, fd, res);
    OffIs(fd.hosts[Front(fd.fid)], fd.fid[Front(fd.fid)]);
  }

  lemma FollowableMeans(ty: Ty, fd: FieldDesc, res: int)
    requires Followable(ty, fd, res)
    ensures |fd.fid| == |fd.hosts| > 0 && fd.hosts[|fd.hosts| - 1] == ty && IsWay(ty, fd.fid, fd.hosts)
            && WayOff(fd.fid, fd.hosts) == res
    ensures Front(fd.fid) < |fd.fid|
  {
    hide WayOff, Front;
  }

  lemma FollowedTo(st: Start, rt: Route, ty: Ty, fd: FieldDesc, res: int, w: set<Obj>, lost: bool, curr: Obj)
    requires Followable(ty, fd, res) && Reached(st, rt, fd, w, lost, curr, Front(fd.fid)) && rt.limit == Front(fd.fid)
    requires curr.ty == Some(fd.hosts[Front(fd.fid)])
    ensures OnTheWay(st, w, lost, curr, Skip(curr.ty, fd.fid[Front(fd.fid)])) && Intact(st, w, lost)
            && (lost <==> Lost(rt))
  {
    hide OnTheWay, Tracks, WayOff, Front, Lost, Off, IsForest;
    ReachedMeans(st, rt, fd, w, lost, curr, Front(fd.fid));
    LostAtEnd(rt, ViewOf(w), lost, curr);
  }

  /** The way to the place `fd`, as far as it leads away from the front. */
  method Follow(ghost st: Start, ghost rt: Route, fd: FieldDesc, pto: PointerPointsTo, ghost ty: Ty, ghost res: int)
    returns (ok: bool, ghost w: set<Obj>, ghost lost: bool)
    requires pto.targetObject.ty == Some(ty) && Followable(ty, fd, res)
             && OnTheWay(st, st.world, false, pto.targetObject, res)
    requires rt.fid == fd.fid && rt.limit == Front(fd.fid)
             && Reached(st, rt, fd, st.world, false, pto.targetObject, |fd.fid| - 1)
    modifies st.world`embObjs, st.world`parent, st.world`parentField, st.world`root, st.world`base, st.world`depth, pto
    ensures ok && fresh(w - st.world) && Intact(st, w, lost) && pto.targetObject in w
    ensures OnTheWay(st, w, lost, pto.targetObject, Skip(pto.targetObject.ty, pto.dstfieldId)) && (lost <==> Lost(rt))
    ensures Front(fd.fid) < |fd.fid| == |fd.hosts|
    ensures pto.targetObject.ty == Some(fd.hosts[Front(fd.fid)]) && pto.dstfieldId == fd.fid[Front(fd.fid)]
  {
    hide *;
    FollowableMeans(ty, fd, res);
    var limit := FirstStep(fd.fid);
    var r;
    r, w, lost := CreateEmbObjChain(st, rt, fd, pto, limit);
    ok := r <= limit;
    FollowedTo(st, rt, ty, fd, res, w, lost, pto.targetObject);
  }

  /** The innermost step of the first way to the offset `off` that does not stay at the front. */
  ghost predicate StandsAt(d: seq<FieldDesc>, off: int, t: Option<Ty>, f: int) {
    HasOffset(d, off) &&
    var fd := d[FirstAt(d, off)];
    Front(fd.fid) < |fd.fid| == |fd.hosts| && t == Some(fd.hosts[Front(fd.fid)]) && f == fd.fid[Front(fd.fid)]
  }

  /** The second half of bit2Field: inwards to the place at `res`. */
  method Descend(ghost st: Start, pto: PointerPointsTo, d: seq<FieldDesc>, res: int)
    returns (o: Outcome, ghost w: set<Obj>, ghost lost: bool)
    requires pto.targetObject.ty.Some? && Laid(pto.targetObject.ty.value) && Desc(pto.targetObject.ty.value) == Some(d)
             && res != 0
    requires OnTheWay(st, st.world, false, pto.targetObject, res)
    modifies st.world`embObjs, st.world`parent, st.world`parentField, st.world`root, st.world`base, st.world`depth, pto
    ensures fresh(w - st.world) && Intact(st, w, lost) && pto.targetObject in w
    ensures o == if HasOffset(d, res) then Done else Failed
    ensures o == Failed ==> w == st.world && ViewOf(w) == old(ViewOf(st.world)) && !lost
                            && pto.targetObject == old(pto.targetObject) && pto.dstfieldId == old(pto.dstfieldId)
    ensures o == Done ==>
              && OnTheWay(st, w, lost, pto.targetObject, Skip(pto.targetObject.ty, pto.dstfieldId))
              && (lost <==> Lost(RouteTo(old(ViewOf(st.world)), old(pto.targetObject), d, res)))
              && StandsAt(d, res, pto.targetObject.ty, pto.dstfieldId)
  {
    hide *;
    ghost var ty := pto.targetObject.ty.value;
    o, w, lost := Failed, st.world, false;
    WayIsIntact(st, w, lost, pto.targetObject, res);
    SearchIsSound(ty);
    var i := LocateBitsoff(d, res);
    FoundAt(d, res, i);
    if i < 0 {
      return;
    }
    var fd := d[i];
    PlaceIsFollowable(ty, d, fd, res);
    RouteStarts(st, pto.targetObject, d, fd, res, ty);
    ghost var rt: Route := RouteTo(ViewOf(st.world), pto.targetObject, d, res);
    var ok;
    ok, w, lost := Follow(st, rt, fd, pto, ty, res);
    if !ok {
      return;
    }
    o := Done;
    assert StandsAt(d, res, pto.targetObject.ty, pto.dstfieldId) by {
      FoundIs(d, res, i, fd, pto.targetObject.ty, pto.dstfieldId);
    }
  }

  lemma FoundIs(d: seq<FieldDesc>, res: int, i: nat, fd: FieldDesc, t: Option<Ty>, f: int)
    requires HasOffset(d, res) && i == FirstAt(d, res) && fd == d[i] && Front(fd.fid) < |fd.fid| == |fd.hosts|
    requires t == Some(fd.hosts[Front(fd.fid)]) && f == fd.fid[Front(fd.fid)]
    ensures StandsAt(d, res, t, f)
  {
  }

  lemma RouteStarts(st: Start, o: Obj, d: seq<FieldDesc>, fd: FieldDesc, res: int, ty: Ty)
    requires HasOffset(d, res) && fd == d[FirstAt(d, res)] && Followable(ty, fd, res)
             && OnTheWay(st, st.world, false, o, res)
    ensures var rt := RouteTo(ViewOf(st.world), o, d, res);
            rt.fid == fd.fid && rt.limit == Front(fd.fid) && Reached(st, rt, fd, st.world, false, o, |fd.fid| - 1)
  {
    hide OnTheWay, WayOff, Front, Stumbles, FirstAt;
    WayIsIntact(st, st.world, false, o, res);
    FollowableMeans(ty, fd, res);
    DescentStarts(st, RouteTo(ViewOf(st.world), o, d, res), fd, o, res, ty);
  }

  // ---- the same in terms of ways -----------------------------------------------------------------------

  /** Something lies at the offset in a `ty`. */
  ghost predicate EndsAt(ty: Ty, off: int) {
    exists fid, hosts :: IsFullWay(ty, fid, hosts) && WayOff(fid, hosts) == off
  }

  /** Something lies in field `f` of a `ty`. */
  ghost predicate HasPlaceIn(ty: Ty, f: int) {
    exists fid, hosts :: IsFullWay(ty, fid, hosts) && fid[|fid| - 1] == f
  }

  lemma OffsetMeans(ty: Ty, off: int)
    ensures Desc(ty).Some? && HasOffset(Desc(ty).value, off) <==> EndsAt(ty, off)
  {
    hide WayOff, Desc;
    if Desc(ty).Some? && HasOffset(Desc(ty).value, off) {
      var d := Desc(ty).value;
      var k :| 0 <= k < |d| && d[k].bitoff == off;
      DescIsTruthful(ty);
      assert d[k] in d;
    }
    if fid, hosts :| IsFullWay(ty, fid, hosts) && WayOff(fid, hosts) == off {
      WayIsDescribed(ty, fid, hosts);
      var d := Desc(ty).value;
      var k :| 0 <= k < |d| && d[k] == FieldDesc(off, fid, hosts);
    }
  }

  lemma FieldMeans(ty: Ty, f: int)
    ensures Desc(ty).Some? && HasField(Desc(ty).value, f) && f >= 0 <==> HasPlaceIn(ty, f)
  {
    hide WayOff, Desc;
    if Desc(ty).Some? && HasField(Desc(ty).value, f) && f >= 0 {
      var d := Desc(ty).value;
      var k :| 0 <= k < |d| && Outer(d[k]) == f;
      DescIsTruthful(ty);
      assert d[k] in d;
    }
    if fid, hosts :| IsFullWay(ty, fid, hosts) && fid[|fid| - 1] == f {
      WayIsDescribed(ty, fid, hosts);
      var d := Desc(ty).value;
      var k :| 0 <= k < |d| && d[k] == FieldDesc(WayOff(fid, hosts), fid, hosts);
      assert Outer(d[k]) == f;
    }
  }

  /** The field a pointer stands at holds something, and so does the offset, inside the object. */
  ghost predicate Lands(ty: Option<Ty>, f: int, rest: int) {
    && ty.Some? && HasPlaceIn(ty.value, f)
    && (rest == 0 || (0 <= rest < ty.value.StoreSize() && EndsAt(ty.value, rest)))
  }

  /** How bit2Field ends, in terms of what is nested where. */
  lemma EndingMeans(ty: Option<Ty>, f: int, rest: int)
    ensures Ending(ty, f, rest) == Done <==> Lands(ty, f, rest)
    ensures Ending(ty, f, rest) == Variable <==> ty.Some? && ty.value.Array? && f == -1
    ensures Ending(ty, f, rest) == NeedsContainer <==>
            ty.Some? && HasPlaceIn(ty.value, f) && rest != 0 && !(0 <= rest < ty.value.StoreSize())
  {
    hide Desc, HasOffset, HasField, HasPlaceIn, EndsAt, Ty.StoreSize;
    if ty.Some? {
      FieldMeans(ty.value, f);
      OffsetMeans(ty.value, rest);
      DescIsThere(ty.value);
      if HasPlaceIn(ty.value, f) {
        PlaceInRange(ty.value, f);
      }
    }
  }

  lemma DescIsThere(ty: Ty)
    ensures Desc(ty).Some? <==> !ty.Atom? && !ty.Opaque?
  {
  }

  lemma PlaceInRange(ty: Ty, f: int)
    requires HasPlaceIn(ty, f)
    ensures 0 <= f < ty.Parts() && !ty.Atom? && !ty.Opaque? && IndexValid(ty, f)
  {
  }

  /** The host `e` of `o`, `n` steps out, and the field of it that leads back. */
  ghost predicate IsHostAt(v: View<Obj>, o: Obj, f: int, n: nat, e: Obj, g: int)
    decreases n
  {
    if n == 0 then o == e && f == g
    else o in v && v[o].parent.Some? && IsHostAt(v, v[o].parent.value, v[o].field, n - 1, e, g)
  }

  /** The place aimed at lies outside of `x`, which has a host to go on to. */
  ghost predicate ClimbsOn(v: View<Obj>, x: Obj, f: int, goal: int) {
    && x in v && v[x].ty.Some? && HasPlaceIn(v[x].ty.value, f) && v[x].parent.Some?
    && !(0 <= goal - v[x].base < v[x].ty.value.StoreSize())
  }

  /** The climb ends at the first of the hosts from which it does not go on. */
  lemma {:induction false} ClimbEndMeans(v: View<Obj>, o: Obj, f: int, goal: int) returns (n: nat)
    requires IsForest(v) && o in v
    ensures var e := ClimbEnd(v, o, f, goal);
            && IsHostAt(v, o, f, n, e.0, e.1) && !ClimbsOn(v, e.0, e.1, goal)
            && forall m, x, g :: 0 <= m < n && IsHostAt(v, o, f, m, x, g) ==> ClimbsOn(v, x, g, goal)
    decreases v[o].depth
  {
    assert Seated(v, o);
    hide Desc, Ty.StoreSize, HasPlaceIn, IsForest;
    assert Sight(v[o].ty, f) == Done && Outside(v[o].ty.value, goal - v[o].base) && v[o].parent.Some? <==>
           ClimbsOn(v, o, f, goal) by {
      if v[o].ty.Some? {
        FieldMeans(v[o].ty.value, f);
        DescIsThere(v[o].ty.value);
        if HasPlaceIn(v[o].ty.value, f) {
          PlaceInRange(v[o].ty.value, f);
        }
      }
    }
    if ClimbsOn(v, o, f, goal) {
      n := ClimbEndMeans(v, v[o].parent.value, v[o].field, goal);
      n := n + 1;
    } else {
      n := 0;
    }
  }

  /** The way is the first one to the offset, outer steps deciding. */
  ghost predicate FirstWay(ty: Ty, off: int, fid: seq<int>, hosts: seq<Ty>) {
    && IsFullWay(ty, fid, hosts) && WayOff(fid, hosts) == off
    && forall x, y :: IsFullWay(ty, x, y) && WayOff(x, y) == off ==> !Earlier(x, fid)
  }

  lemma {:induction false} NotBoth(a: seq<int>, b: seq<int>)
    requires Earlier(a, b)
    ensures !Earlier(b, a) && a != b
    decreases |a|
  {
    if a[|a| - 1] == b[|b| - 1] {
      NotBoth(a[..|a| - 1], b[..|b| - 1]);
    } else {
    }
  }

  lemma FirstIsFirstWay(ty: Ty, off: int)
    requires Desc(ty).Some? && HasOffset(Desc(ty).value, off)
    ensures var fd := Desc(ty).value[FirstAt(Desc(ty).value, off)]; FirstWay(ty, off, fd.fid, fd.hosts)
  {
    hide WayOff, Desc, Earlier, FirstAt;
    var d := Desc(ty).value;
    var i := FirstAt(d, off);
    DescIsTruthful(ty);
    DescIsOrdered(ty);
    assert d[i] in d;
    forall x, y | IsFullWay(ty, x, y) && WayOff(x, y) == off ensures !Earlier(x, d[i].fid) {
      WayIsDescribed(ty, x, y);
      var k :| 0 <= k < |d| && d[k] == FieldDesc(off, x, y);
      if i < k {
        assert Earlier(d[i].fid, d[k].fid);
        NotBoth(d[i].fid, d[k].fid);
      } else if Earlier(x, d[i].fid) {
        NotBoth(x, d[i].fid);
      }
    }
  }

  /** A pointer to field `f` of a `t` stands at the offset in a `ty`, as far inwards as the way leads away
      from the front. */
  ghost predicate AtPlace(ty: Ty, off: int, t: Option<Ty>, f: int) {
    exists fid, hosts, n :: FirstWay(ty, off, fid, hosts) && 0 <= n < |fid| && fid[n] != 0
                            && (forall k :: 0 <= k < n ==> fid[k] == 0) && t == Some(hosts[n]) && f == fid[n]
  }

  lemma StandingIsPlace(ty: Ty, off: int, t: Option<Ty>, f: int)
    requires Desc(ty).Some? && StandsAt(Desc(ty).value, off, t, f)
    ensures AtPlace(ty, off, t, f)
  {
    hide Desc, FirstAt, FirstWay;
    var fd := Desc(ty).value[FirstAt(Desc(ty).value, off)];
    FirstIsFirstWay(ty, off);
    assert FirstWay(ty, off, fd.fid, fd.hosts) && fd.fid[Front(fd.fid)] != 0;
  }

  /** On the first way to the offset, outside of the steps that stay at the front, lies a misfit. */
  lemma StrayMeans(v: View<Obj>, o: Obj, rest: int)
    requires o in v
    ensures Strays(v, o, rest) <==>
            rest != 0 && v[o].ty.Some? &&
            exists fid, hosts :: FirstWay(v[o].ty.value, rest, fid, hosts) && Lost(Route(v, o, fid, Front(fid)))
  {
    hide Lost, Desc, FirstAt, FirstWay;
    if v[o].ty.Some? {
      var ty := v[o].ty.value;
      OffsetMeans(ty, rest);
      if Desc(ty).Some? && HasOffset(Desc(ty).value, rest) {
        var fd := Desc(ty).value[FirstAt(Desc(ty).value, rest)];
        FirstIsFirstWay(ty, rest);
        forall x, y | FirstWay(ty, rest, x, y) ensures x == fd.fid {
          OneFirstWay(ty, rest, x, y, fd.fid, fd.hosts);
        }
      } else {
        forall x, y ensures !FirstWay(ty, rest, x, y) {
          NoFirstWay(ty, rest, x, y);
        }
      }
    }
  }

  lemma NoFirstWay(ty: Ty, off: int, x: seq<int>, y: seq<Ty>)
    requires !EndsAt(ty, off)
    ensures !FirstWay(ty, off, x, y)
  {
  }

  lemma OneFirstWay(ty: Ty, off: int, a: seq<int>, x: seq<Ty>, b: seq<int>, y: seq<Ty>)
    requires FirstWay(ty, off, a, x) && FirstWay(ty, off, b, y)
    ensures a == b
  {
    hide Earlier;
    assert !Earlier(a, b) && !Earlier(b, a);
    WaysCompare(ty, a, x, b, y);
  }

  lemma {:induction false} WaysCompare(ty: Ty, a: seq<int>, x: seq<Ty>, b: seq<int>, y: seq<Ty>)
    requires IsFullWay(ty, a, x) && IsFullWay(ty, b, y)
    ensures a == b || Earlier(a, b) || Earlier(b, a)
    decreases |a|
  {
    hide IsFullWay, Ty.Parts, Ty.PartTy;
    InnerWay(ty, a, x);
    InnerWay(ty, b, y);
    var m, n := |a| - 1, |b| - 1;
    if a[m] == b[n] {
      if m == 0 {
        assert a == b;
      } else {
        WaysCompare(ty.PartTy(a[m]), a[..m], x[..m], b[..n], y[..n]);
        assert a == a[..m] + [a[m]] && b == b[..n] + [b[n]];
      }
    }
  }

  /** The rest of a way leads into the part chosen first; it is a rest exactly if something is nested there. */
  lemma InnerWay(ty: Ty, a: seq<int>, x: seq<Ty>)
    requires IsFullWay(ty, a, x)
    ensures var m := |a| - 1;
            && |a| == |x| > 0 && 0 <= a[m] < ty.Parts()
            && if m == 0 then ty.PartTy(a[m]).Atom? || ty.PartTy(a[m]).Opaque?
               else !ty.PartTy(a[m]).Atom? && !ty.PartTy(a[m]).Opaque? && IsFullWay(ty.PartTy(a[m]), a[..m], x[..m])
  {
    var m := |a| - 1;
    if m > 0 {
      assert x[m - 1] == x[m].PartTy(a[m]) && a[m - 1] < x[m - 1].Parts();
    }
  }

  // ---- bit2Field ---------------------------------------------------------------------------------------

  /** What the outcome is decided by: where the climb ends, and how far from there the place is. */
  datatype Bearing = Bearing(o: Obj, f: int, rest: int)

  ghost function BearingOf(v: View<Obj>, o: Obj, f: int, goal: int): (b: Bearing)
    requires IsForest(v) && o in v
    ensures b.o in v && v[b.o].base + b.rest == goal
  {
    var e := ClimbEnd(v, o, f, goal);
    Bearing(e.0, e.1, goal - v[e.0].base)
  }

  /** The climb has ended at field `f` of an object: nothing has changed but the pointer. */
  lemma DescendsFrom(world: set<Obj>, v: View<Obj>, root: Obj, goal: int, o: Obj, res: int)
    requires IsForest(v) && v == ViewOf(world) && o in world && o.root == root && o.base + res == goal
    ensures OnTheWay(Start(world, PlacesOf(world), Typed(v), root, goal), world, false, o, res)
  {
    hide IsForest, Typed;
  }

  lemma StraysIf(v: View<Obj>, o: Obj, d: seq<FieldDesc>, res: int)
    requires o in v && v[o].ty.Some? && Desc(v[o].ty.value) == Some(d)
    ensures Strays(v, o, res) <==> res != 0 && HasOffset(d, res) && Lost(RouteTo(v, o, d, res))
  {
    hide Lost, RouteTo;
  }

  lemma AtFront(pto: PointerPointsTo)
    requires pto.targetObject.ty.Some? && Laid(pto.targetObject.ty.value) && pto.targetObject.ty.value.Parts() > 0
             && pto.dstfieldId == 0
    ensures pto.Position() == pto.targetObject.base
  {
    FirstPartIsFirst(pto.targetObject.ty.value);
  }

  lemma BearingIs(world: set<Obj>, o: Obj, f: int, goal: int, end: Obj, g: int)
    requires IsForest(ViewOf(world)) && o in ViewOf(world) && (end, g) == ClimbEnd(ViewOf(world), o, f, goal)
    ensures BearingOf(ViewOf(world), o, f, goal) == Bearing(end, g, goal - end.base)
    ensures end in ViewOf(world) && ViewOf(world)[end].ty == end.ty
    ensures forall rest :: Sight(end.ty, g) != Done ==> Ending(end.ty, g, rest) == Sight(end.ty, g)
  {
    hide IsForest, ClimbEnd, Sight;
  }

  /** The part of bit2Field behind the climb, the place being `res` bits into the pointer's object. */
  method Settle(ghost world: set<Obj>, ghost v: View<Obj>, ghost goal: int, pto: PointerPointsTo, d: seq<FieldDesc>,
                res: int)
    returns (o: Outcome, ghost w: set<Obj>, ghost lost: bool)
    requires IsForest(v) && v == ViewOf(world) && pto.targetObject in world && pto.targetObject.root in world
    requires pto.targetObject.ty.Some? && Laid(pto.targetObject.ty.value) && Desc(pto.targetObject.ty.value) == Some(d)
    requires 0 <= pto.dstfieldId < pto.targetObject.ty.value.Parts()
             && Sight(pto.targetObject.ty, pto.dstfieldId) == Done
    requires pto.targetObject.base + res == goal
    modifies world`embObjs, world`parent, world`parentField, world`root, world`base, world`depth, pto
    ensures world <= w && fresh(w - world) && IsForest(ViewOf(w)) && pto.targetObject in w
    ensures o == Ending(old(pto.targetObject.ty), old(pto.dstfieldId), res)
    ensures lost <==> o == Done && Strays(v, old(pto.targetObject), res)
    ensures o == Done && res == 0 ==> pto.targetObject == old(pto.targetObject) && pto.dstfieldId == 0
    ensures o == Done && res != 0 ==> StandsAt(d, res, pto.targetObject.ty, pto.dstfieldId)
    ensures o == Done ==> (pto.targetObject.root == old(pto.targetObject.root) && pto.Position() == goal <==> !lost)
    ensures lost ==> pto.targetObject.root !in world
    ensures !lost ==> PlacesOf(world) == old(PlacesOf(world))
    ensures Typed(v) ==> !lost && Typed(ViewOf(w))
    ensures o != Done ==>
            w == world && ViewOf(w) == v && pto.targetObject == old(pto.targetObject)
              && pto.dstfieldId == old(pto.dstfieldId)
  {
    hide Laid, IsForest, ViewOf, Skip, Desc, Typed, PlacesOf, Sight, Outside, HasOffset, OnTheWay, Lost, RouteTo,
         Strays, Intact, PointerPointsTo.Position;
    StillInPlace(world);
    o, w, lost := Done, world, false;
    StraysIf(v, pto.targetObject, d, res);
    if res == 0 {
      if pto.dstfieldId > 0 {
        pto.dstfieldId := 0;
      }
      AtFront(pto);
      return;
    }
    if Outside(pto.targetObject.ty.value, res) {
      o := NeedsContainer;
      return;
    }
    ghost var st := Start(world, PlacesOf(world), Typed(v), pto.targetObject.root, goal);
    DescendsFrom(world, v, pto.targetObject.root, goal, pto.targetObject, res);
    o, w, lost := Descend(st, pto, d, res);
    Arrived(st, w, lost, pto, o);
    IntactGrows(st, w, lost);
  }

  lemma IntactGrows(st: Start, w: set<Obj>, lost: bool)
    requires Intact(st, w, lost)
    ensures st.world <= w
  {
    hide IsForest, Typed, PlacesOf, ViewOf;
  }

  /** AliasAnalysisVisitor::bit2Field: the pointer is moved by `bitWidth * index` bits.  Where the climb
      ends decides how it ends.  When it succeeds it has moved by exactly that much inside the same
      outermost object, whatever it climbed and descended, if and only if there was no misfit on the way
      inwards; with one it has left the object altogether. */
  method Bit2Field(ghost world: set<Obj>, pto: PointerPointsTo, bitWidth: nat, index: int)
    returns (o: Outcome, ghost w: set<Obj>, ghost lost: bool, ghost b: Bearing)
    requires IsForest(ViewOf(world)) && pto.targetObject in world
    modifies world`embObjs, world`parent, world`parentField, world`root, world`base, world`depth, pto
    ensures world <= w && fresh(w - world) && IsForest(ViewOf(w)) && pto.targetObject in w
    ensures b == BearingOf(old(ViewOf(world)), old(pto.targetObject), old(pto.dstfieldId),
                           old(pto.Position()) + bitWidth * index)
    ensures o == if index == 0 then Done else Ending(old(ViewOf(world))[b.o].ty, b.f, b.rest)
    ensures lost <==> index != 0 && o == Done && Strays(old(ViewOf(world)), b.o, b.rest)
    ensures index != 0 ==> (o == Done <==> Lands(old(ViewOf(world))[b.o].ty, b.f, b.rest))
    ensures index != 0 && o == Done && b.rest == 0 ==> pto.targetObject == b.o && pto.dstfieldId == 0
    ensures index != 0 && o == Done && b.rest != 0 ==>
              AtPlace(old(ViewOf(world))[b.o].ty.value, b.rest, pto.targetObject.ty, pto.dstfieldId)
    ensures o == Done ==>
              (!lost <==> pto.targetObject.root == old(pto.targetObject.root)
                          && pto.Position() == old(pto.Position()) + bitWidth * index)
    ensures lost ==> pto.targetObject.root !in world
    ensures !lost ==> PlacesOf(world) == old(PlacesOf(world))
    ensures Typed(old(ViewOf(world))) ==> !lost && Typed(ViewOf(w))
    ensures index == 0 || o != Done ==> w == world && ViewOf(w) == old(ViewOf(world))
    ensures index == 0 ==> pto.targetObject == old(pto.targetObject) && pto.dstfieldId == old(pto.dstfieldId)
    ensures o != Done ==> pto.targetObject == b.o && pto.dstfieldId == b.f
  {
    hide *;
    ghost var v: View<Obj> := ViewOf(world);
    StillInPlace(world);
    InPlace(world, pto.targetObject);
    ghost var goal := pto.Position() + bitWidth * index;
    ghost var o0, f0 := pto.targetObject, pto.dstfieldId;
    o, w, lost, b := Done, world, false, BearingOf(v, o0, f0, goal);
    if index == 0 {
      return;
    }
    var d, res;
    o, d, res := Climb(world, v, goal, pto, bitWidth, index);
    BearingIs(world, o0, f0, goal, pto.targetObject, pto.dstfieldId);
    EndingMeans(v[b.o].ty, b.f, b.rest);
    if o != Done {
      return;
    }
    o, w, lost := Settle(world, v, goal, pto, d, res);
    if o == Done && b.rest != 0 {
      StandingIsPlace(v[b.o].ty.value, b.rest, pto.targetObject.ty, pto.dstfieldId);
    }
  }

  lemma Arrived(st: Start, w: set<Obj>, lost: bool, pto: PointerPointsTo, o: Outcome)
    requires Intact(st, w, lost) && st.root in st.world
    requires o == Done ==> OnTheWay(st, w, lost, pto.targetObject, Skip(pto.targetObject.ty, pto.dstfieldId))
    ensures IsForest(ViewOf(w)) && (!lost ==> PlacesOf(st.world) == st.places)
            && (st.typed ==> !lost && Typed(ViewOf(w)))
    ensures o == Done ==> (pto.targetObject.root == st.root && pto.Position() == st.goal <==> !lost)
    ensures o == Done && lost ==> pto.targetObject.root !in st.world
  {
    hide IsForest, Typed, PlacesOf, ViewOf;
  }

  // ---- a misfit ----------------------------------------------------------------------------------------

  /** An array of bytes. */
  function Bytes(n: nat): Ty {
    Array(Atom(8), n, 8)
  }

  /** Two arrays of two bytes behind each other; as a sequence it is an array of four. */
  const PAIR: Ty := Struct(1, [Part(0, Bytes(2)), Part(16, Bytes(2))], 32)

  /** An object that holds such a pair. */
  const HOLDER: Ty := Struct(2, [Part(0, PAIR)], 32)

  lemma BytesDesc()
    ensures Desc(Bytes(2)) == Some([FieldDesc(0, [0], [Bytes(2)]), FieldDesc(8, [1], [Bytes(2)])])
  {
    var t := Bytes(2);
    DescSplits(t, 0);
    DescSplits(t, 1);
    DescSplits(t, 2);
    assert t.Parts() == 2 && t.PartOff(0) == 0 && t.PartOff(1) == 8;
    assert PartDesc(t, 0) == [FieldDesc(0, [0], [t])];
    assert PartDesc(t, 1) == [FieldDesc(8, [1], [t])];
    assert DescFrom(t, 1) == [FieldDesc(8, [1], [t])];
    assert DescFrom(t, 0) == [FieldDesc(0, [0], [t]), FieldDesc(8, [1], [t])];
    assert Desc(t) == Some(DescFrom(t, 0));
  }

  /** The second place in the description of the holder is the second byte of the pair. */
  lemma HolderDesc()
    ensures Desc(HOLDER).Some?
    ensures var d := Desc(HOLDER).value;
            |d| > 1 && d[0].bitoff == 0 && d[1].bitoff == 8 && d[1].fid == [1, 0, 0] && Outer(d[0]) == 0
  {
    BytesDesc();
    var a := PartDesc(PAIR, 0);
    assert a == Layout.Shift(Desc(Bytes(2)).value, PAIR, 0, 0);
    var p := Desc(PAIR).value;
    assert p == a + DescFrom(PAIR, 1);
    assert p[0] == a[0] && p[1] == a[1];
    var b := PartDesc(HOLDER, 0);
    assert b == Layout.Shift(p, HOLDER, 0, 0);
    assert Desc(HOLDER).value == b + DescFrom(HOLDER, 1);
  }

  lemma BytesAreLaid(n: nat)
    ensures Laid(Bytes(n))
  {
    var t := Bytes(n);
    forall i | 0 <= i < n ensures (forall j :: 0 <= j < i ==> PartDesc(t, j) == []) ==> t.PartOff(i) == 0 {
      assert PartDesc(t, 0) == [FieldDesc(0, [0], [t])];
    }
  }

  lemma PairIsLaid()
    ensures Laid(PAIR)
  {
    BytesAreLaid(2);
    FirstBytes();
    hide PartDesc;
  }

  lemma FirstBytes()
    ensures PartDesc(PAIR, 0) != []
  {
    BytesDesc();
    assert PartDesc(PAIR, 0) == Layout.Shift(Desc(Bytes(2)).value, PAIR, 0, 0);
  }

  lemma HolderIsLaid()
    ensures Laid(HOLDER)
  {
    PairIsLaid();
  }

  lemma HolderBearing(v: View<Obj>, h: Obj)
    requires IsForest(v) && h in v && v[h].ty == Some(HOLDER) && v[h].base == 0
    ensures BearingOf(v, h, 0, 8) == Bearing(h, 0, 8) && Ending(Some(HOLDER), 0, 8) == Done
  {
    hide IsForest, Desc;
    HolderDesc();
    var d := Desc(HOLDER).value;
    assert Outer(d[0]) == 0 && d[1].bitoff == 8;
    assert HasField(d, 0) && HasOffset(d, 8);
  }

  lemma HolderStrays(v: View<Obj>, h: Obj, e: Obj)
    requires Holds(v, h, e, Bytes(4))
    ensures Strays(v, h, 8)
  {
    hide Desc;
    HolderDesc();
    var d := Desc(HOLDER).value;
    assert d[1].bitoff == 8;
    assert HasOffset(d, 8) && FirstAt(d, 8) == 1;
    assert Front([1, 0, 0]) == 0;
    assert Misfit(v, h, 0);
  }

  lemma OneIsForest(h: Obj)
    requires NewHolder(h)
    ensures IsForest(ViewOf({h}))
  {
    hide Laid, Skip;
    HolderIsLaid();
  }

  /** A new holder, as it stands alone. */
  ghost predicate NewHolder(h: Obj)
    reads h
  {
    h.Here() == Node(Some(HOLDER), None, 0, map[], h, 0, 0)
  }

  /** A holder with an object in its field. */
  ghost predicate Holds(v: View<Obj>, h: Obj, e: Obj, t: Ty) {
    && v.Keys == {h, e} && h != e
    && v[h].ty == Some(HOLDER) && v[h].embs == map[0 := e] && v[h].root == h && v[h].base == 0
    && v[e].ty == Some(t) && v[e].embs == map[] && v[e].parent == Some(h)
  }

  lemma PairGoesIn(v: View<Obj>, h: Obj, e: Obj)
    requires IsForest(v) && v.Keys == {h} && e != h && v[h] == Node(Some(HOLDER), None, 0, map[], h, 0, 0)
    ensures Holds(Renewed(v, h, 0, Some(e)), h, e, PAIR)
  {
    hide IsForest, Embedded, Skip;
    var a := Added(v, e, Some(PAIR));
    EmbeddedAt(a, h, 0, e, h);
    EmbeddedAt(a, h, 0, e, e);
  }

  method EmbedPair(h: Obj) returns (e: Obj, ghost w: set<Obj>)
    requires NewHolder(h) && IsForest(ViewOf({h}))
    modifies h
    ensures fresh(e) && fresh(w - {h}) && w == {h, e} && IsForest(ViewOf(w)) && Holds(ViewOf(w), h, e, PAIR)
  {
    hide IsForest, Laid, Holds, Renewed;
    ghost var v: View<Obj> := ViewOf({h});
    assert TypeAt(HOLDER, 0) == Some(PAIR);
    var r;
    r, w := h.CreateEmbObj({h}, 0, None);
    e := r;
    PairGoesIn(v, h, e);
  }

  /** The pair has become an array; it holds nothing that could move. */
  lemma PairIsReset(v: View<Obj>, h: Obj, e: Obj, t: Ty)
    requires IsForest(v) && Holds(v, h, e, PAIR)
    ensures Holds(Retyped(v, e, Some(t)), h, e, t)
  {
    assert Seated(v, h) && Seated(v, e);
    DriftIsBelow(v, h, e, Some(t));
    hide IsForest, Drift;
  }

  lemma HoldsMeans(v: View<Obj>, h: Obj, e: Obj, t: Ty)
    requires Holds(v, h, e, t)
    ensures h in v && e in v && v.Keys == {h, e} && v[h].ty == Some(HOLDER) && v[h].base == 0 && v[h].root == h
    ensures NoStray(v, e, Some(Bytes(4)))
  {
    hide FitsIn;
  }

  /** A pair is embedded in a holder (`v`), then the analyser turns it into the array of four bytes it may
      pass for (`u`).  From then on a pointer to the holder that is moved by one byte strays, and leaves
      the holder. */
  method ResetMakesAMisfit()
    returns (h: Obj, e: Obj, pto: PointerPointsTo, o: Outcome, ghost v: View<Obj>, ghost u: View<Obj>)
    ensures IsForest(v) && Holds(v, h, e, PAIR)
    ensures IsForest(u) && u == Retyped(v, e, Some(Bytes(4))) && Holds(u, h, e, Bytes(4))
    ensures BearingOf(u, h, 0, 8) == Bearing(h, 0, 8) && Strays(u, h, 8)
    ensures o == Done && pto.targetObject.root != h
  {
    hide *;
    h := NewOne();
    OneIsForest(h);
    ghost var w;
    e, w := EmbedPair(h);
    v := ViewOf(w);
    BytesAreLaid(4);
    HoldsMeans(v, h, e, PAIR);
    StillInPlace(w);
    e.Reset(w, Bytes(4));
    PairIsReset(v, h, e, Bytes(4));
    u := ViewOf(w);
    HoldsMeans(u, h, e, Bytes(4));
    pto := new PointerPointsTo(h, 0);
    HolderIsAt(w, h, pto);
    HolderBearing(u, h);
    HolderStrays(u, h, e);
    ghost var w', lost, b;
    o, w', lost, b := Bit2Field(w, pto, 8, 1);
  }

  method NewOne() returns (h: Obj)
    ensures fresh(h) && NewHolder(h)
  {
    h := new Obj(Some(HOLDER));
  }

  lemma HolderIsAt(w: set<Obj>, h: Obj, pto: PointerPointsTo)
    requires h in w && ViewOf(w)[h].ty == Some(HOLDER) && ViewOf(w)[h].base == 0 && pto.targetObject == h
             && pto.dstfieldId == 0
    ensures pto.Position() == 0
  {
    hide Laid;
    HolderIsLaid();
    AtFront(pto);
  }
}
