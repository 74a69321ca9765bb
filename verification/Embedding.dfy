/** Objects that are embedded in each other, and the operations that make, embed and retype them. */
module Embedding {
  import opened Constraints
  import opened Layout
  import opened Forest

  class Obj {
    var ty: Option<Ty>
    var parent: Obj?
    var parentField: int
    var embObjs: map<int, Obj>
    ghost var root: Obj
    ghost var base: int
    ghost var depth: nat

    constructor (ty: Option<Ty>)
      ensures this.ty == ty && parent == null && parentField == 0 && embObjs == map[]
      ensures root == this && base == 0 && depth == 0
    {
      this.ty := ty;
      parent := null;
      parentField := 0;
      embObjs := map[];
      root := this;
      base := 0;
      depth := 0;
    }

    function Host(): Option<Obj>
      reads `parent
    {
      if parent == null then None else var p: Obj := parent; Some(p)
    }

    ghost function Here(): Node<Obj>
      reads this
    {
      Node(ty, Host(), parentField, embObjs, root, base, depth)
    }

    /** The objects of a tree get a new root, offset and depth. */
    static ghost method Carry(world: set<Obj>, moved: set<Obj>, r: Obj, b: int, d: int)
      requires moved <= world
      modifies moved`root, moved`base, moved`depth
      ensures ViewOf(world) == Carried(old(ViewOf(world)), moved, r, b, d)
    {
      forall x | x in moved { x.root := r; }
      forall x | x in moved { x.base := x.base + b; }
      forall x | x in moved { x.depth := if x.depth + d >= 0 then x.depth + d else 0; }
    }

    /** This object gets a host, or loses it. */
    method SetParent(ghost world: set<Obj>, h: Option<Obj>, f: int)
      requires this in world
      modifies `parent, `parentField
      ensures ViewOf(world) == old(ViewOf(world))[this := old(Here()).(parent := h, field := f)]
    {
      parent := if h.Some? then h.value else null;
      parentField := f;
    }

    method SetField(ghost world: set<Obj>, f: int, dst: Obj)
      requires this in world
      modifies `embObjs
      ensures ViewOf(world) == old(ViewOf(world))[this := old(Here()).(embs := old(embObjs)[f := dst])]
    {
      embObjs := embObjs[f := dst];
    }

    /** Field and host are set; offsets are not looked at. */
    method SetBoth(ghost world: set<Obj>, f: int, dst: Obj)
      requires this in world && dst in world
      modifies `embObjs, dst`parent, dst`parentField
      ensures ViewOf(world) == Joined(old(ViewOf(world)), this, f, dst)
    {
      ghost var v: View<Obj> := ViewOf(world);
      SetField(world, f, dst);
      ghost var w: View<Obj> := ViewOf(world);
      assert dst.Here() == w[dst];
      dst.SetParent(world, Some(this), f);
    }

    static lemma TreeIsIn(world: set<Obj>, d: Obj)
      ensures ViewOf(world).Keys == world && TreeOf(ViewOf(world), d) <= world
    {
    }

    /** AliasObject::setEmbObj: an occupied field is left alone, and so is one of another type when types
        are to be checked.  The object itself is not looked at: if it is not free to go there, its old host
        keeps it on file as well. */
    method SetEmbObj(ghost world: set<Obj>, fieldId: int, dst: Obj, checkTy: bool) returns (ok: bool)
      requires IsForest(ViewOf(world)) && this in world && dst in world
      modifies `embObjs, dst`parent, dst`parentField, world`root, world`base, world`depth
      ensures ok <==>
              && fieldId !in old(embObjs)
              && (checkTy ==> FieldTy(ty, fieldId).Some? && dst.ty == FieldTy(ty, fieldId))
      ensures ok ==> embObjs == old(embObjs)[fieldId := dst] && dst.parent == this && dst.parentField == fieldId
      ensures var v := old(ViewOf(world));
              if !ok then ViewOf(world) == v
              else if Free(v, this, fieldId, dst) then ViewOf(world) == Embedded(v, this, fieldId, dst)
                && IsForest(ViewOf(world))
              else ViewOf(world) == Joined(v, this, fieldId, dst)
    {
      hide IsForest, Skip, Embedded, Joined, Free, ViewOf;
      ghost var v: View<Obj> := ViewOf(world);
      if fieldId in embObjs {
        return false;
      }
      if checkTy {
        if FieldTy(ty, fieldId).None? || dst.ty != FieldTy(ty, fieldId) {
          return false;
        }
      }
      SetLinks(world, fieldId, dst);
      ok := true;
    }

    /** The two assignments of setEmbObj, and what they do to offsets. */
    method SetLinks(ghost world: set<Obj>, fieldId: int, dst: Obj)
      requires IsForest(ViewOf(world)) && this in world && dst in world
      modifies `embObjs, dst`parent, dst`parentField, world`root, world`base, world`depth
      ensures embObjs == old(embObjs)[fieldId := dst] && dst.parent == this && dst.parentField == fieldId
      ensures var v := old(ViewOf(world));
              if Free(v, this, fieldId, dst) then ViewOf(world) == Embedded(v, this, fieldId, dst)
                && IsForest(ViewOf(world))
              else ViewOf(world) == Joined(v, this, fieldId, dst)
    {
      hide IsForest, Joined, Carried, TreeOf, ViewOf, Skip, Free, Hosts, Seated;
      ghost var v: View<Obj> := ViewOf(world);
      InPlace(world, this);
      SetBoth(world, fieldId, dst);
      JoinedAt(v, this, fieldId, dst);
      StillInPlace(world);
      if Free(v, this, fieldId, dst) {
        TreeIsIn(world, dst);
        EmbeddedIsForest(v, this, fieldId, dst);
        ghost var moved := TreeOf(v, dst);
        TreeInKeys(v, dst);
        Carry(world, moved, v[this].root, v[this].base + Skip(v[this].ty, fieldId), v[this].depth + 1);
      }
    }

    /** An object loses its host. */
    method Unlink(ghost world: set<Obj>)
      requires IsForest(ViewOf(world)) && this in world
      requires var v: View<Obj> := ViewOf(world);
               forall h, f :: h in v && f in v[h].embs && v[h].embs[f] == this ==> !FitsIn(v, h, f, this)
      modifies `parent, `parentField, world`root, world`base, world`depth
      ensures ViewOf(world) == Cut(old(ViewOf(world)), this) && IsForest(ViewOf(world))
    {
      hide Laid, IsForest, Skip, FitsIn, Branch, Carried, ViewOf;
      ghost var v: View<Obj> := ViewOf(world);
      InPlace(world, this);
      CutIsForest(v, this);
      ghost var moved := Branch(v, this);
      BranchIsIn(v, this);
      SetParent(world, None, 0);
      ghost var up: int := v[this].depth;
      Carry(world, moved, this, -v[this].base, -up);
    }

    /** createOutsideObj. */
    static method Make(ghost world: set<Obj>, t: Ty) returns (r: Obj, ghost w: set<Obj>)
      requires IsForest(ViewOf(world)) && Laid(t)
      ensures fresh(r) && r.ty == Some(t) && r.parent == null && r.embObjs == map[] && r.root == r
      ensures w == world + {r} && r !in world
      ensures ViewOf(w) == Added(ViewOf(world), r, Some(t)) && IsForest(ViewOf(w))
    {
      hide Laid, IsForest, Skip;
      r := new Obj(Some(t));
      w := world + {r};
      AddedIsForest(ViewOf(world), r, Some(t));
      assert forall o :: o in world ==> o.Here() == old(o.Here());
    }

    /** A new object in a free field. */
    method Grow(ghost world: set<Obj>, fid: int, t: Ty) returns (r: Obj, ghost w: set<Obj>)
      requires IsForest(ViewOf(world)) && this in world && ty.Some? && Laid(t) && fid !in embObjs
      modifies `embObjs, world`root, world`base, world`depth
      ensures fresh(r) && r !in world && w == world + {r} && r.ty == Some(t) && r.embObjs == map[]
      ensures ViewOf(w) == Embedded(Added(old(ViewOf(world)), r, Some(t)), this, fid, r) && IsForest(ViewOf(w))
    {
      hide Laid, IsForest, Skip, Embedded, Added, ViewOf, Free;
      ghost var v: View<Obj> := ViewOf(world);
      InPlace(world, this);
      r, w := Make(world, t);
      NewIsFree(v, this, fid, r, Some(t));
      StillInPlace(w);
      var ok := SetEmbObj(w, fid, r, false);
    }

    /** A misfit is let go; the new object cannot take its field. */
    method Replace(ghost world: set<Obj>, fid: int, t: Ty) returns (r: Obj?, ghost w: set<Obj>)
      requires IsForest(ViewOf(world)) && this in world && ty.Some? && Laid(t)
      requires fid in embObjs && TypeAt(ty.value, fid) == Some(t) && embObjs[fid].ty != Some(t)
      modifies world`parent, world`parentField, world`root, world`base, world`depth
      ensures w == world || (r != null && fresh(r) && w == world + {r})
      ensures (r != null <==> Makeable(t)) && IsForest(ViewOf(w))
      ensures r != null ==> r in w && r !in world && r.ty == Some(t) && r.embObjs == map[]
      ensures ViewOf(w) == Renewed(old(ViewOf(world)), this, fid, if r == null then None else var n: Obj := r; Some(n))
    {
      hide Laid, IsForest, Skip, Cut, Added, ViewOf;
      r, w := null, world;
      InPlace(world, this);
      var newObj := embObjs[fid];
      if newObj.parent == this {
        NowhereElse(ViewOf(world), this, fid);
        newObj.Unlink(world);
      }
      if Makeable(t) {
        r, w := Make(world, t);
      }
    }

    /** AliasObject::createEmbObj: the object embedded at `fid`, made if need be. */
    method CreateEmbObj(ghost world: set<Obj>, fid: int, expTy: Option<Ty>) returns (r: Obj?, ghost w: set<Obj>)
      requires IsForest(ViewOf(world)) && this in world
      modifies `embObjs, world`parent, world`parentField, world`root, world`base, world`depth
      ensures w == world || (r != null && fresh(r) && w == world + {r})
      ensures IsForest(ViewOf(w))
      ensures r != null ==> r in w && r.ty == Wanted(ty, fid, expTy)
      ensures r != null && r !in world ==> r.embObjs == map[]
      ensures var v, want := old(ViewOf(world)), Wanted(ty, fid, expTy);
              if want.None? then r == null && w == world && ViewOf(w) == v
              else if fid in old(embObjs) && old(embObjs)[fid].ty == want
              then r == old(embObjs)[fid] && w == world && ViewOf(w) == v
              else (r != null <==> Makeable(want.value)) && (r != null ==> r !in world)
                   && ViewOf(w) == Renewed(v, this, fid, if r == null then None else var n: Obj := r; Some(n))
    {
      hide Laid, IsForest, Skip, Embedded, Cut, Added, ViewOf;
      r, w := null, world;
      InPlace(world, this);
      LaidOut(ViewOf(world), this);
      var want := Wanted(ty, fid, expTy);
      if want.None? {
        return;
      }
      PartIsLaid(ty.value, fid);
      if fid in embObjs && embObjs[fid].ty == want {
        return embObjs[fid], world;
      }
      if fid in embObjs {
        r, w := Replace(world, fid, want.value);
      } else if Makeable(want.value) {
        r, w := Grow(world, fid, want.value);
      }
    }

    /** AliasObject::createHostObj: the host of this object, made if it has none; a host on file of
        another type or field is honoured. */
    method CreateHostObj(ghost world: set<Obj>, hostTy: Ty, field: int) returns (r: Obj?, ghost w: set<Obj>)
      requires IsForest(ViewOf(world)) && this in world && Laid(hostTy)
      modifies `parent, `parentField, world`root, world`base, world`depth
      ensures w == world || (r != null && fresh(r) && w == world + {r})
      ensures IsForest(ViewOf(w))
      ensures r != null ==> r in w && r.ty == Some(hostTy) && parent == r && parentField == field
      ensures var v := old(ViewOf(world));
              if !hostTy.Composite() || old(parent) != null then
                && w == world && ViewOf(w) == v
                && (r != null <==> hostTy.Composite() && old(parent).ty == Some(hostTy) && old(parentField) == field)
              else
                && (r != null <==>
                    IndexValid(hostTy, field) && ty.Some? && TypeAt(hostTy, field) == ty && Makeable(hostTy))
                && (if r == null then w == world && ViewOf(w) == v
                    else r !in world && ViewOf(w) == Embedded(Added(v, r, Some(hostTy)), r, field, this))
    {
      hide Laid, IsForest, Skip, Embedded, Added, ViewOf, Cut;
      r, w := null, world;
      InPlace(world, this);
      HostOnFile(world, this);
      if !hostTy.Composite() {
        return;
      }
      if parent != null {
        if parent.ty == Some(hostTy) && parentField == field {
          r := parent;
        }
        return;
      }
      if !IndexValid(hostTy, field) {
        return;
      }
      if ty.None? || TypeAt(hostTy, field) != ty || !Makeable(hostTy) {
        return;
      }
      r, w := Around(world, hostTy, field);
    }

    /** A new host for an object that has none. */
    method Around(ghost world: set<Obj>, hostTy: Ty, field: int) returns (r: Obj, ghost w: set<Obj>)
      requires IsForest(ViewOf(world)) && this in world && Laid(hostTy) && parent == null
      modifies `parent, `parentField, world`root, world`base, world`depth
      ensures fresh(r) && r !in world && w == world + {r} && r.ty == Some(hostTy)
      ensures parent == r && parentField == field
      ensures ViewOf(w) == Embedded(Added(old(ViewOf(world)), r, Some(hostTy)), r, field, this) && IsForest(ViewOf(w))
    {
      hide Laid, IsForest, Skip, Embedded, Added, ViewOf, Free;
      ghost var v: View<Obj> := ViewOf(world);
      InPlace(world, this);
      var hobj;
      hobj, w := Make(world, hostTy);
      InPlace(w, this);
      RootIsFree(v, this, field, hobj, Some(hostTy));
      var ok := hobj.SetEmbObj(w, field, this, false);
      r := hobj;
    }

    /** AliasObject::reset: the object becomes a `t`.  What it holds keeps its fields and so moves with
        them; the forest stays in order exactly if nothing comes to fit that is only on file. */
    method Reset(ghost world: set<Obj>, t: Ty)
      requires IsForest(ViewOf(world)) && this in world && Laid(t)
      modifies `ty, world`base
      ensures ViewOf(world) == Retyped(old(ViewOf(world)), this, Some(t))
      ensures IsForest(ViewOf(world)) <==> NoStray(old(ViewOf(world)), this, Some(t))
    {
      hide Laid, IsForest, Skip, NoStray, Drift;
      ghost var v: View<Obj> := ViewOf(world);
      RetypedIsForest(v, this, Some(t));
      ty := Some(t);
      forall x | x in world {
        x.base := x.base + Drift(v, x, this, Some(t));
      }
    }
  }

  ghost function ViewOf(world: set<Obj>): View<Obj>
    reads world
  {
    map o | o in world :: o.Here()
  }

  lemma StillInPlace(world: set<Obj>)
    ensures ViewOf(world).Keys == world && forall x :: x in world ==> ViewOf(world)[x] == x.Here()
  {
  }

  lemma InPlace(world: set<Obj>, o: Obj)
    requires IsForest(ViewOf(world)) && o in world
    ensures ViewOf(world).Keys == world && ViewOf(world)[o] == o.Here()
    ensures o.root in world && forall f :: f in o.embObjs ==> o.embObjs[f] in world
    ensures forall x :: x in world ==> ViewOf(world)[x] == x.Here()
  {
    hide Laid, Skip, FitsIn;
    assert Seated(ViewOf(world), o) && Hosts(ViewOf(world), o);
  }

  lemma HostOnFile(world: set<Obj>, o: Obj)
    requires IsForest(ViewOf(world)) && o in world
    ensures o.parent != null ==> o.parent in world
  {
    hide Laid, Skip, FitsIn;
    assert Seated(ViewOf(world), o) && ViewOf(world)[o] == o.Here();
  }

  lemma LaidOut(v: View<Obj>, o: Obj)
    requires IsForest(v) && o in v
    ensures v[o].ty.Some? ==> Laid(v[o].ty.value)
    ensures forall f :: f in v[o].embs ==> v[o].embs[f] in v
  {
    hide Laid, Skip, FitsIn;
    assert Hosts(v, o);
  }

  lemma TreeInKeys(v: View<Obj>, d: Obj)
    ensures TreeOf(v, d) <= v.Keys
  {
  }

  lemma JoinedAt(v: View<Obj>, h: Obj, f: int, d: Obj)
    requires h in v && d in v
    ensures var w := Joined(v, h, f, d);
            && w.Keys == v.Keys && w[h].embs == v[h].embs[f := d] && w[d].parent == Some(h) && w[d].field == f
            && w[h].ty == v[h].ty && w[h].root == v[h].root && w[h].base == v[h].base && w[h].depth == v[h].depth
  {
  }

  /** A new object is free to go anywhere. */
  lemma NewIsFree(v: View<Obj>, h: Obj, f: int, n: Obj, t: Option<Ty>)
    requires IsForest(v) && h in v && v[h].ty.Some? && f !in v[h].embs && n !in v
    ensures Free(Added(v, n, t), h, f, n)
  {
    hide Laid, Skip, FitsIn;
    assert Seated(v, h) && Hosts(v, h);
    assert forall g :: g in v[h].embs ==> v[h].embs[g] in v;
    assert forall x :: x in v[h].embs.Values ==> x in v;
  }

  /** An object without a host is free to go into a new one. */
  lemma RootIsFree(v: View<Obj>, d: Obj, f: int, n: Obj, t: Option<Ty>)
    requires IsForest(v) && d in v && v[d].parent.None? && n !in v && t.Some?
    ensures Free(Added(v, n, t), n, f, d)
  {
  }
}
