/** The forest of embedded objects as a value: which object lies in which field of which other one, and
    where that puts it, counted in bits from the outermost object around it. */
module Forest {
  import opened Constraints
  import opened Layout

  /** InstructionUtils::isIndexValid; -1 is the variable index of an array. */
  predicate IndexValid(ty: Ty, f: int) {
    match ty
    case Atom(_) => f == 0
    case Opaque(_) => false
    case Struct(_, fields, _) => 0 <= f < |fields|
    case Array(_, len, _) => -1 <= f < len
  }

  /** InstructionUtils::getTypeAtIndex. */
  function TypeAt(ty: Ty, f: int): Option<Ty> {
    if ty.Opaque? || (ty.Atom? && f != 0) || (ty.Composite() && !IndexValid(ty, f)) then None
    else if ty.Atom? then Some(ty)
    else if ty.Array? then Some(ty.elem)
    else Some(ty.PartTy(f))
  }

  /** A type has something at an index exactly if the index is valid: a simple type itself at 0, a struct its
      fields, an array its element type at each of its places and at -1. */
  lemma TypeAtMeans(ty: Ty, f: int, e: Ty)
    ensures TypeAt(ty, f).Some? <==> IndexValid(ty, f)
    ensures TypeAt(ty, f) == Some(e) <==>
            match ty
            case Atom(_) => f == 0 && e == ty
            case Opaque(_) => false
            case Struct(_, fields, _) => 0 <= f < |fields| && e == fields[f].ty
            case Array(elem, len, _) => (f == -1 || 0 <= f < len) && e == elem
  {
  }

  /** Where field `f` begins inside `ty`. */
  function Off(ty: Ty, f: int): int {
    if 0 <= f < ty.Parts() then ty.PartOff(f) else 0
  }

  /** Where field `f` begins in an object of type `ty`, if it has one. */
  function Skip(ty: Option<Ty>, f: int): int {
    if ty.Some? then Off(ty.value, f) else 0
  }

  /** The type field `f` of an object of type `ty` has. */
  function FieldTy(ty: Option<Ty>, f: int): Option<Ty> {
    if ty.Some? then TypeAt(ty.value, f) else None
  }

  /** validTyForOutsideObj: objects are made for composite types that have a first field. */
  predicate Makeable(ty: Ty) {
    ty.Composite() && ty.Parts() > 0
  }

  /** A field of a struct begins where the layout puts it, an element of an array after those before it, and
      anything else, such as the place of a variable index, where the object does. */
  lemma OffMeans(ty: Ty, f: int)
    ensures Off(ty, f) ==
            match ty
            case Struct(_, fields, _) => if 0 <= f < |fields| then fields[f].off else 0
            case Array(_, len, step) => if 0 <= f < len then step * f else 0
            case _ => 0
    ensures Skip(None, f) == 0 && Skip(Some(ty), f) == Off(ty, f)
  {
  }

  /** That is, for structs and arrays that are not empty. */
  lemma MakeableMeans(ty: Ty)
    ensures Makeable(ty) <==> (ty.Struct? && |ty.fields| >= 1) || (ty.Array? && ty.len >= 1)
  {
  }

  /** An object and where it is: its type, its host and the field there, what is embedded in it, and
      the outermost object around it, its bit offset in that, and the nesting depth. */
  datatype Node<O> = Node(ty: Option<Ty>, parent: Option<O>, field: int, embs: map<int, O>, root: O, base: int,
                          depth: nat)

  type View<O> = map<O, Node<O>>

  ghost predicate FitsIn<O>(v: View<O>, o: O, f: int, e: O)
    requires o in v && e in v
  {
    v[o].ty.Some? && v[e].ty.Some? && TypeAt(v[o].ty.value, f) == v[e].ty
  }

  /** `o` knows where it is. */
  ghost predicate Seated<O>(v: View<O>, o: O)
    requires o in v
  {
    var n := v[o];
    && n.root in v
    && (if n.parent.None? then n.root == o && n.base == 0 && n.depth == 0
        else var p := n.parent.value;
          && p in v && v[p].ty.Some? && n.root == v[p].root
          && n.base == v[p].base + Skip(v[p].ty, n.field) && n.depth == v[p].depth + 1)
  }

  /** What is embedded in `o` with the type of its field knows its host, and nothing thinks it is in
      another field of `o` than it is; the type is laid out well. */
  ghost predicate Hosts<O>(v: View<O>, o: O)
    requires o in v
  {
    && (v[o].ty.Some? ==> Laid(v[o].ty.value))
    && forall f :: f in v[o].embs ==>
      && v[o].embs[f] in v
      && (FitsIn(v, o, f, v[o].embs[f]) ==> v[v[o].embs[f]].parent == Some(o))
      && (v[v[o].embs[f]].parent == Some(o) ==> v[v[o].embs[f]].field == f)
  }

  ghost predicate IsForest<O>(v: View<O>) {
    forall o {:trigger Seated(v, o)} {:trigger Hosts(v, o)} :: o in v ==> Seated(v, o) && Hosts(v, o)
  }

  /** The objects of `moved` get a new root, and their offsets and depths are shifted. */
  ghost function Carried<O>(v: View<O>, moved: set<O>, r: O, b: int, d: int): View<O> {
    map x | x in v :: if x in moved
                      then v[x].(root := r, base := v[x].base + b, depth := if v[x].depth + d >= 0 then v[x].depth + d
                                 else 0)
                      else v[x]
  }

  ghost function TreeOf<O>(v: View<O>, d: O): set<O> {
    set x | x in v && v[x].root == d
  }

  ghost function Joined<O>(v: View<O>, h: O, f: int, d: O): View<O>
    requires h in v && d in v
  {
    var w: View<O> := v[h := v[h].(embs := v[h].embs[f := d])];
    w[d := w[d].(parent := Some(h), field := f)]
  }

  /** Object `d`, and all that is embedded in it, goes into field `f` of `h`. */
  ghost function Embedded<O>(v: View<O>, h: O, f: int, d: O): View<O>
    requires h in v && d in v
  {
    Carried(Joined(v, h, f, d), TreeOf(v, d), v[h].root, v[h].base + Skip(v[h].ty, f), v[h].depth + 1)
  }

  /** `d` is free to go into field `f` of `h`. */
  ghost predicate Free<O>(v: View<O>, h: O, f: int, d: O) {
    && h in v && d in v && v[h].ty.Some? && v[d].parent.None? && v[h].root != d
    && f !in v[h].embs && d !in v[h].embs.Values
  }

  /** What embedding does to one object. */
  lemma EmbeddedAt<O>(v: View<O>, h: O, f: int, d: O, x: O)
    requires h in v && d in v && x in v
    ensures var w := Embedded(v, h, f, d);
            && w.Keys == v.Keys && w[x].ty == v[x].ty
            && w[x].embs == (if x == h then v[x].embs[f := d] else v[x].embs)
            && w[x].parent == (if x == d then Some(h) else v[x].parent)
            && w[x].field == (if x == d then f else v[x].field)
            && w[x].root == (if v[x].root == d then v[h].root else v[x].root)
            && w[x].base == v[x].base + (if v[x].root == d then v[h].base + Skip(v[h].ty, f) else 0)
            && w[x].depth == v[x].depth + (if v[x].root == d then v[h].depth + 1 else 0)
  {
    hide Skip;
  }

  lemma EmbeddedSeats<O>(v: View<O>, h: O, f: int, d: O, o: O)
    requires IsForest(v) && Free(v, h, f, d) && o in v
    ensures Seated(Embedded(v, h, f, d), o)
  {
    assert Seated(v, d) && Seated(v, h) && Seated(v, o);
    hide IsForest, Laid, Skip, Embedded;
    EmbeddedAt(v, h, f, d, o);
    EmbeddedAt(v, h, f, d, h);
    EmbeddedAt(v, h, f, d, v[o].root);
    if v[o].parent.Some? {
      EmbeddedAt(v, h, f, d, v[o].parent.value);
    }
  }

  lemma EmbeddedHosts<O>(v: View<O>, h: O, f: int, d: O, o: O)
    requires IsForest(v) && Free(v, h, f, d) && o in v
    ensures Hosts(Embedded(v, h, f, d), o)
  {
    assert Hosts(v, o);
    hide IsForest, Laid, Skip, Embedded;
    var w := Embedded(v, h, f, d);
    EmbeddedAt(v, h, f, d, o);
    forall g | g in w[o].embs
      ensures w[o].embs[g] in w && (FitsIn(w, o, g, w[o].embs[g]) ==> w[w[o].embs[g]].parent == Some(o))
      ensures w[w[o].embs[g]].parent == Some(o) ==> w[w[o].embs[g]].field == g
    {
      EmbeddedAt(v, h, f, d, w[o].embs[g]);
      if !(o == h && g == f) {
        assert g in v[o].embs && v[o].embs[g] == w[o].embs[g];
      }
    }
  }

  lemma EmbeddedIsForest<O>(v: View<O>, h: O, f: int, d: O)
    requires IsForest(v) && Free(v, h, f, d)
    ensures IsForest(Embedded(v, h, f, d))
  {
    hide Embedded, Hosts, Seated, Laid;
    EmbeddedAt(v, h, f, d, h);
    forall o | o in v ensures Seated(Embedded(v, h, f, d), o) && Hosts(Embedded(v, h, f, d), o) {
      EmbeddedSeats(v, h, f, d, o);
      EmbeddedHosts(v, h, f, d, o);
    }
  }

  /** `x` is `c` or embedded in it, however deeply. */
  ghost predicate Under<O>(v: View<O>, x: O, c: O)
    requires IsForest(v) && x in v
    decreases v[x].depth
  {
    x == c || (v[x].parent.Some? && assert Seated(v, x); Under(v, v[x].parent.value, c))
  }

  ghost function Branch<O>(v: View<O>, c: O): set<O>
    requires IsForest(v)
  {
    set x | x in v && Under(v, x, c)
  }

  lemma BranchIsIn<O>(v: View<O>, c: O)
    requires IsForest(v)
    ensures Branch(v, c) <= v.Keys
  {
  }

  /** `c` is taken out of its host, with all that is embedded in it. */
  ghost function Cut<O>(v: View<O>, c: O): View<O>
    requires IsForest(v) && c in v
  {
    var up: int := v[c].depth;
    Carried(v[c := v[c].(parent := None, field := 0)], Branch(v, c), c, -v[c].base, -up)
  }

  lemma {:induction false} UnderIsDeeper<O>(v: View<O>, x: O, c: O)
    requires IsForest(v) && x in v && c in v && Under(v, x, c)
    ensures v[x].depth >= v[c].depth && v[x].root == v[c].root
    decreases v[x].depth
  {
    if x == c {
    } else {
      assert Seated(v, x);
      UnderIsDeeper(v, v[x].parent.value, c);
    }
  }

  /** What cutting does to one object. */
  lemma CutAt<O>(v: View<O>, c: O, x: O)
    requires IsForest(v) && c in v && x in v
    ensures var w := Cut(v, c);
            && w.Keys == v.Keys && w[x].ty == v[x].ty && w[x].embs == v[x].embs
            && w[x].parent == (if x == c then None else v[x].parent)
            && (x != c ==> w[x].field == v[x].field)
            && w[x].root == (if Under(v, x, c) then c else v[x].root)
            && w[x].base == v[x].base - (if Under(v, x, c) then v[c].base else 0)
            && w[x].depth == v[x].depth - (if Under(v, x, c) then v[c].depth else 0)
  {
    if Under(v, x, c) {
      UnderIsDeeper(v, x, c);
    }
    hide IsForest, Under;
  }

  lemma CutSeats<O>(v: View<O>, c: O, o: O)
    requires IsForest(v) && c in v && o in v
    ensures Seated(Cut(v, c), o)
  {
    assert Seated(v, o);
    CutAt(v, c, o);
    if v[o].parent.Some? {
      CutAt(v, c, v[o].parent.value);
      assert o != c ==> (Under(v, o, c) <==> Under(v, v[o].parent.value, c));
    } else {
      assert o != c ==> !Under(v, o, c);
    }
    hide Skip, Cut, IsForest, Under;
  }

  lemma CutHosts<O>(v: View<O>, c: O, o: O)
    requires IsForest(v) && c in v && o in v
    requires forall h, f :: h in v && f in v[h].embs && v[h].embs[f] == c ==> !FitsIn(v, h, f, c)
    ensures Hosts(Cut(v, c), o)
  {
    assert Hosts(v, o);
    CutAt(v, c, o);
    hide Cut, IsForest, Under, Laid;
    var w := Cut(v, c);
    forall g | g in w[o].embs
      ensures w[o].embs[g] in w && (FitsIn(w, o, g, w[o].embs[g]) ==> w[w[o].embs[g]].parent == Some(o))
      ensures w[w[o].embs[g]].parent == Some(o) ==> w[w[o].embs[g]].field == g
    {
      CutAt(v, c, w[o].embs[g]);
    }
  }

  lemma CutIsForest<O>(v: View<O>, c: O)
    requires IsForest(v) && c in v
    requires forall h, f :: h in v && f in v[h].embs && v[h].embs[f] == c ==> !FitsIn(v, h, f, c)
    ensures IsForest(Cut(v, c))
  {
    hide Cut, Seated, Hosts;
    CutAt(v, c, c);
    forall o | o in v ensures Seated(Cut(v, c), o) && Hosts(Cut(v, c), o) {
      CutSeats(v, c, o);
      CutHosts(v, c, o);
    }
  }

  lemma PartIsLaid(ty: Ty, f: int)
    requires Laid(ty) && TypeAt(ty, f).Some? && TypeAt(ty, f).value.Composite()
    ensures Laid(TypeAt(ty, f).value)
  {
    hide Ty.PartOff, Ty.StoreSize, PartDesc;
    if ty.Struct? {
      assert Laid(ty.PartTy(f));
    }
  }

  /** A new object, in nothing and with nothing in it. */
  ghost function Added<O>(v: View<O>, o: O, ty: Option<Ty>): View<O> {
    v[o := Node(ty, None, 0, map[], o, 0, 0)]
  }

  lemma AddedIsForest<O>(v: View<O>, o: O, ty: Option<Ty>)
    requires IsForest(v) && o !in v && (ty.Some? ==> Laid(ty.value))
    ensures IsForest(Added(v, o, ty))
  {
    hide Laid, Skip;
    var w := Added(v, o, ty);
    forall x | x in w ensures Seated(w, x) && Hosts(w, x) {
      if x != o {
        assert Seated(v, x) && Hosts(v, x);
      }
    }
  }

  /** Embedding moves trees as a whole: within a tree nothing changes place relative to anything. */
  lemma EmbeddingKeepsDistances<O>(v: View<O>, h: O, f: int, d: O, x: O, y: O)
    requires IsForest(v) && Free(v, h, f, d)
    requires x in v && y in v && v[x].root == v[y].root
    ensures var w := Embedded(v, h, f, d);
            w[x].root == w[y].root && w[x].base - w[y].base == v[x].base - v[y].base
  {
    hide IsForest, Embedded;
    EmbeddedAt(v, h, f, d, x);
    EmbeddedAt(v, h, f, d, y);
  }

  // ---- misfits ---------------------------------------------------------------------------------

  /** Objects embedded on file have the type of their field. */
  ghost predicate Typed<O>(v: View<O>) {
    forall o, f :: o in v && f in v[o].embs && v[o].embs[f] in v ==> FitsIn(v, o, f, v[o].embs[f])
  }

  /** The type an embedded object at `f` of an object of type `ty` must have, if one can be there. */
  function Wanted(ty: Option<Ty>, f: int, expTy: Option<Ty>): Option<Ty> {
    var e := FieldTy(ty, f);
    if e.None? || !e.value.Composite() || (expTy.Some? && expTy != e) then None else e
  }

  /** That is `e` exactly if it is the type of the field, not a simple one, and the one expected if any is. */
  lemma WantedMeans(ty: Option<Ty>, f: int, expTy: Option<Ty>, e: Ty)
    ensures Wanted(ty, f, expTy) == Some(e) <==>
            ty.Some? && TypeAt(ty.value, f) == Some(e) && !e.Atom? && (expTy == None || expTy == Some(e))
  {
  }

  /** The field holds an object of another type. */
  ghost predicate Misfit<O>(v: View<O>, o: O, f: int)
    requires o in v
  {
    f in v[o].embs && v[o].ty.Some? && v[o].embs[f] in v && v[v[o].embs[f]].ty != TypeAt(v[o].ty.value, f)
  }

  lemma TypedHasNoMisfit<O>(v: View<O>, o: O, f: int)
    requires o in v
    ensures Typed(v) ==> !Misfit(v, o, f)
  {
  }

  /** On the way `fid` inwards from `o`, taken from index `i` down to `limit`, an object on file misfits
      its field. */
  ghost predicate Stumbles<O>(v: View<O>, o: O, fid: seq<int>, i: int, limit: nat)
    requires o in v
    decreases i
  {
    && limit < i < |fid| && fid[i] in v[o].embs && v[o].embs[fid[i]] in v
    && (Misfit(v, o, fid[i]) || Stumbles(v, v[o].embs[fid[i]], fid, i - 1, limit))
  }

  lemma {:induction false} TypedNeverStumbles<O>(v: View<O>, o: O, fid: seq<int>, i: int, limit: nat)
    requires o in v && Typed(v)
    ensures !Stumbles(v, o, fid, i, limit)
    decreases i
  {
    if limit < i < |fid| && fid[i] in v[o].embs && v[o].embs[fid[i]] in v {
      TypedHasNoMisfit(v, o, fid[i]);
      TypedNeverStumbles(v, v[o].embs[fid[i]], fid, i - 1, limit);
    }
  }

  /** What createEmbObj does when it makes a new object: in a free field the object is embedded; a
      misfit is cut loose, but it keeps the field, and the new object stays outside. */
  ghost function Renewed<O>(v: View<O>, o: O, f: int, n: Option<O>): View<O>
    requires IsForest(v) && o in v && (n.Some? ==> n.value !in v)
  {
    var t := FieldTy(v[o].ty, f);
    if Misfit(v, o, f) then
      var e := v[o].embs[f];
      var c := if v[e].parent == Some(o) then Cut(v, e) else v;
      if n.Some? then Added(c, n.value, t) else c
    else if n.Some? then Embedded(Added(v, n.value, t), o, f, n.value)
    else v
  }

  /** Where a misfit is in the way it keeps the field, but no longer lies there: if it thought so, it becomes a
      root of its own.  All others are left alone, and the new object stands apart. */
  lemma RenewedMeans<O>(v: View<O>, o: O, f: int, n: Option<O>)
    requires IsForest(v) && o in v && (n.Some? ==> n.value !in v) && Misfit(v, o, f)
    ensures var e, w := v[o].embs[f], Renewed(v, o, f, n);
            && w.Keys == v.Keys + (if n.Some? then {n.value} else {})
            && (forall x :: x in v ==> w[x].embs == v[x].embs && w[x].ty == v[x].ty)
            && w[e].parent != Some(o)
            && (v[e].parent == Some(o) ==> w[e].parent == None && w[e].root == e && w[e].base == 0)
            && (v[e].parent != Some(o) ==> forall x :: x in v ==> w[x] == v[x])
            && (forall x :: x in v && !Under(v, x, e) ==> w[x] == v[x])
            && (n.Some? ==> w[n.value] == Node(FieldTy(v[o].ty, f), None, 0, map[], n.value, 0, 0))
  {
    hide Laid, Skip, FitsIn, IsForest, Under;
    var e := v[o].embs[f];
    assert Under(v, e, e) by { UnderItself(v, e); }
    forall x | x in v ensures Cut(v, e)[x].embs == v[x].embs && Cut(v, e)[x].ty == v[x].ty {
      CutAt(v, e, x);
    }
    forall x | x in v && !Under(v, x, e) ensures Cut(v, e)[x] == v[x] {
      CutAt(v, e, x);
    }
    CutAt(v, e, e);
  }

  lemma UnderItself<O>(v: View<O>, e: O)
    requires IsForest(v) && e in v
    ensures Under(v, e, e)
  {
  }

  /** What thinks it is in `o` fits no field of any object if it misfits its own. */
  lemma NowhereElse<O>(v: View<O>, o: O, f: int)
    requires IsForest(v) && o in v && f in v[o].embs
    requires v[o].embs[f] in v && v[v[o].embs[f]].parent == Some(o) && !FitsIn(v, o, f, v[o].embs[f])
    ensures forall h, g :: h in v && g in v[h].embs && v[h].embs[g] == v[o].embs[f] ==> !FitsIn(v, h, g, v[o].embs[f])
  {
    hide Laid, FitsIn, Skip;
    var e := v[o].embs[f];
    assert Hosts(v, o);
    forall h, g | h in v && g in v[h].embs && v[h].embs[g] == e ensures !FitsIn(v, h, g, e) {
      assert Hosts(v, h);
    }
  }

  /** Where things are after a new object has gone into a free field. */
  lemma GrownPlaces<O>(v: View<O>, o: O, f: int, n: O, t: Option<Ty>)
    requires IsForest(v) && o in v && n !in v
    ensures var w := Embedded(Added(v, n, t), o, f, n);
            && w.Keys == v.Keys + {n} && w[n].embs == map[] && w[n].ty == t
            && w[n].root == v[o].root && w[n].base == v[o].base + Skip(v[o].ty, f)
            && (forall x :: x in v ==> w[x].root == v[x].root && w[x].base == v[x].base)
  {
    hide Laid, Skip, FitsIn, Embedded;
    var a := Added(v, n, t);
    assert Seated(v, o);
    EmbeddedAt(a, o, f, n, n);
    var w := Embedded(a, o, f, n);
    forall x | x in v ensures w[x].root == v[x].root && w[x].base == v[x].base {
      assert Seated(v, x);
      EmbeddedAt(a, o, f, n, x);
    }
  }

  lemma GrownIsTyped<O>(v: View<O>, o: O, f: int, n: O)
    requires IsForest(v) && Typed(v) && o in v && n !in v && FieldTy(v[o].ty, f).Some?
    ensures Typed(Embedded(Added(v, n, FieldTy(v[o].ty, f)), o, f, n))
  {
    hide Laid, Skip, TypeAt, Embedded;
    var a := Added(v, n, FieldTy(v[o].ty, f));
    var w := Embedded(a, o, f, n);
    EmbeddedAt(a, o, f, n, n);
    forall x, g | x in w && g in w[x].embs && w[x].embs[g] in w ensures FitsIn(w, x, g, w[x].embs[g]) {
      EmbeddedAt(a, o, f, n, x);
      EmbeddedAt(a, o, f, n, w[x].embs[g]);
      if !(x == o && g == f) {
        assert x in v && g in v[x].embs && v[x].embs[g] == w[x].embs[g];
        assert Hosts(v, x);
      }
    }
  }

  lemma ReusedPlace<O>(v: View<O>, o: O, f: int)
    requires IsForest(v) && o in v && f in v[o].embs && !Misfit(v, o, f) && FieldTy(v[o].ty, f).Some?
    ensures var e := v[o].embs[f];
            e in v && v[e].root == v[o].root && v[e].base == v[o].base + Skip(v[o].ty, f)
  {
    hide Laid, Skip;
    assert Hosts(v, o) && Seated(v, v[o].embs[f]);
  }

  // ---- a change of type ----------------------------------------------------------------------------

  /** How far `x` moves when `o` becomes a `t`: what lies in field `f` of `o` moves as the field does. */
  ghost function Drift<O>(v: View<O>, x: O, o: O, t: Option<Ty>): int
    requires IsForest(v) && x in v && o in v
    decreases v[x].depth
  {
    assert Seated(v, x);
    if x == o || v[x].parent.None? then 0
    else if v[x].parent == Some(o) then Skip(t, v[x].field) - Skip(v[o].ty, v[x].field)
    else Drift(v, v[x].parent.value, o, t)
  }

  /** `o` becomes a `t`; everything stays in the field it is in. */
  ghost function Retyped<O>(v: View<O>, o: O, t: Option<Ty>): View<O>
    requires IsForest(v) && o in v
  {
    map x | x in v :: var n := v[x]; n.(ty := if x == o then t else n.ty, base := n.base + Drift(v, x, o, t))
  }

  /** Nothing that is on file without being there would fit all of a sudden. */
  ghost predicate NoStray<O>(v: View<O>, o: O, t: Option<Ty>)
    requires o in v
  {
    forall h, f :: (h in v && f in v[h].embs && v[h].embs[f] in v && (h == o || v[h].embs[f] == o)
                    && v[v[h].embs[f]].parent != Some(h))
                   ==> !FitsIn(v[o := v[o].(ty := t)], h, f, v[h].embs[f])
  }

  lemma RetypedSeats<O>(v: View<O>, o: O, t: Option<Ty>, x: O)
    requires IsForest(v) && o in v && x in v && t.Some?
    ensures Seated(Retyped(v, o, t), x)
  {
    assert Seated(v, x) && Seated(v, o);
    if x == o && v[x].parent.Some? {
      DriftIsBelow(v, v[x].parent.value, o, t);
    }
    hide Laid, Skip, IsForest;
  }

  lemma {:induction false} DriftIsBelow<O>(v: View<O>, x: O, o: O, t: Option<Ty>)
    requires IsForest(v) && x in v && o in v && v[x].depth <= v[o].depth
    ensures Drift(v, x, o, t) == 0
    decreases v[x].depth
  {
    hide Skip;
    assert Seated(v, x);
    if x == o || v[x].parent.None? {
    } else {
      DriftIsBelow(v, v[x].parent.value, o, t);
    }
  }

  lemma RetypedHosts<O>(v: View<O>, o: O, t: Option<Ty>, x: O)
    requires IsForest(v) && o in v && x in v && t.Some? && Laid(t.value)
    ensures NoStray(v, o, t) ==> Hosts(Retyped(v, o, t), x)
  {
    hide Laid, Drift;
    assert Hosts(v, x);
    hide IsForest;
  }

  /** A change of type keeps the forest in order exactly if nothing comes to fit that is only on file. */
  lemma RetypedIsForest<O>(v: View<O>, o: O, t: Option<Ty>)
    requires IsForest(v) && o in v && t.Some? && Laid(t.value)
    ensures IsForest(Retyped(v, o, t)) <==> NoStray(v, o, t)
  {
    hide Laid, Drift, Skip;
    var w := Retyped(v, o, t);
    if NoStray(v, o, t) {
      forall x | x in w ensures Seated(w, x) && Hosts(w, x) {
        RetypedSeats(v, o, t, x);
        RetypedHosts(v, o, t, x);
      }
    }
    if IsForest(w) {
      forall h, f | h in v && f in v[h].embs && v[h].embs[f] in v && (h == o || v[h].embs[f] == o)
        && v[v[h].embs[f]].parent != Some(h)
        ensures !FitsIn(v[o := v[o].(ty := t)], h, f, v[h].embs[f])
      {
        assert Hosts(w, h);
      }
    }
  }
}
