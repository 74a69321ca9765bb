/** Types as the analyser sees them: what is nested where, at which bit. */
module Layout {
  import opened Constraints

  datatype Part = Part(off: nat, ty: Ty)

  /** `size` is the store size in bits, `step` the distance of two elements of an array. */
  datatype Ty =
    | Atom(bits: nat)
    | Opaque(name: nat)
    | Struct(name: nat, fields: seq<Part>, size: nat)
    | Array(elem: Ty, len: nat, step: nat)
  {
    predicate Composite() {
      !Atom?
    }

    function Parts(): nat {
      match this
      case Atom(_) => 0
      case Opaque(_) => 0
      case Struct(_, fields, _) => |fields|
      case Array(_, len, _) => len
    }

    function PartTy(i: nat): Ty
      requires i < Parts()
    {
      match this
      case Struct(_, fields, _) => fields[i].ty
      case Array(elem, _, _) => elem
    }

    function PartOff(i: nat): nat
      requires i < Parts()
    {
      match this
      case Struct(_, fields, _) => fields[i].off
      case Array(_, _, step) => step * i
    }

    function StoreSize(): nat {
      match this
      case Atom(bits) => bits
      case Opaque(_) => 0
      case Struct(_, _, size) => size
      case Array(_, len, step) => step * len
    }
  }

  /** One place inside a composite type that is not nested any further: its bit offset and the way
      to it, the innermost field first. */
  datatype FieldDesc = FieldDesc(bitoff: int, fid: seq<int>, hosts: seq<Ty>)

  function Shift(d: seq<FieldDesc>, host: Ty, i: int, off: int): (r: seq<FieldDesc>)
    ensures |r| == |d|
    ensures forall k :: 0 <= k < |d| ==> r[k] == FieldDesc(d[k].bitoff + off, d[k].fid + [i], d[k].hosts + [host])
  {
    seq(|d|, k requires 0 <= k < |d| => FieldDesc(d[k].bitoff + off, d[k].fid + [i], d[k].hosts + [host]))
  }

  /** InstructionUtils::getCompTyDesc. */
  function Desc(ty: Ty): Option<seq<FieldDesc>>
    decreases ty, 1, 0
  {
    if ty.Atom? || ty.Opaque? then None else Some(DescFrom(ty, 0))
  }

  function DescFrom(ty: Ty, i: nat): seq<FieldDesc>
    requires i <= ty.Parts()
    decreases ty, 0, ty.Parts() - i
  {
    if i == ty.Parts() then [] else PartDesc(ty, i) + DescFrom(ty, i + 1)
  }

  function PartDesc(ty: Ty, i: nat): seq<FieldDesc>
    requires i < ty.Parts()
    decreases ty, 0, 0
  {
    var d := Desc(ty.PartTy(i));
    if d.None? then [FieldDesc(ty.PartOff(i), [i], [ty])] else Shift(d.value, ty, i, ty.PartOff(i))
  }

  /** What the data layout guarantees: the parts follow each other inside their host, and parts
      without any place of their own at the front do not move the next one. */
  ghost predicate Laid(ty: Ty)
    decreases ty
  {
    && (ty.Array? ==> Laid(ty.elem))
    && (forall i :: 0 <= i < ty.Parts() ==>
        Laid(ty.PartTy(i)) && ty.PartOff(i) + ty.PartTy(i).StoreSize() <= ty.StoreSize())
    && (forall i, j :: 0 <= i < j < ty.Parts() ==> ty.PartOff(i) + ty.PartTy(i).StoreSize() <= ty.PartOff(j))
    && (forall i :: 0 <= i < ty.Parts() && (forall j :: 0 <= j < i ==> PartDesc(ty, j) == []) ==> ty.PartOff(i) == 0)
  }

  /** The way leads from `ty` inwards, a host of each step being the part chosen by the previous one. */
  predicate IsWay(ty: Ty, fid: seq<int>, hosts: seq<Ty>) {
    && |fid| == |hosts| >= 1 && hosts[|hosts| - 1] == ty
    && (forall k :: 0 <= k < |fid| ==> 0 <= fid[k] < hosts[k].Parts())
    && (forall k :: 0 < k < |fid| ==> hosts[k - 1] == hosts[k].PartTy(fid[k]))
  }

  /** The bits skipped on the way, from the outermost step inwards. */
  function WayOff(fid: seq<int>, hosts: seq<Ty>): nat
    requires |fid| == |hosts|
    requires forall k :: 0 <= k < |fid| ==> 0 <= fid[k] < hosts[k].Parts()
    decreases |fid|
  {
    if fid == [] then 0
    else hosts[|fid| - 1].PartOff(fid[|fid| - 1]) + WayOff(fid[..|fid| - 1], hosts[..|fid| - 1])
  }

  /** The way leads to a part in which nothing is nested. */
  predicate IsFullWay(ty: Ty, fid: seq<int>, hosts: seq<Ty>) {
    IsWay(ty, fid, hosts) && var t := hosts[0].PartTy(fid[0]); t.Atom? || t.Opaque?
  }

  /** The description tells the truth: the way is one, it ends where nothing is nested any further,
      and the offset is the sum of its steps. */
  predicate Truthful(ty: Ty, fd: FieldDesc) {
    IsFullWay(ty, fd.fid, fd.hosts) && fd.bitoff == WayOff(fd.fid, fd.hosts)
  }

  lemma ShiftedIsTruthful(ty: Ty, i: nat, fd: FieldDesc)
    requires i < ty.Parts() && Truthful(ty.PartTy(i), fd)
    ensures Truthful(ty, FieldDesc(fd.bitoff + ty.PartOff(i), fd.fid + [i], fd.hosts + [ty]))
  {
    var fid, hosts := fd.fid + [i], fd.hosts + [ty];
    assert fid[..|fid| - 1] == fd.fid && hosts[..|hosts| - 1] == fd.hosts;
  }

  lemma {:induction false} DescIsTruthful(ty: Ty)
    requires Desc(ty).Some?
    ensures forall fd :: fd in Desc(ty).value ==> Truthful(ty, fd)
    decreases ty, 1, 0
  {
    DescFromIsTruthful(ty, 0);
  }

  lemma {:induction false} DescFromIsTruthful(ty: Ty, i: nat)
    requires i <= ty.Parts() && Desc(ty).Some?
    ensures forall fd :: fd in DescFrom(ty, i) ==> Truthful(ty, fd) && fd.fid[|fd.fid| - 1] >= i
    decreases ty, 0, ty.Parts() - i
  {
    if i >= ty.Parts() {
    } else {
      DescFromIsTruthful(ty, i + 1);
      PartDescIsTruthful(ty, i);
    }
  }

  lemma {:induction false} PartDescIsTruthful(ty: Ty, i: nat)
    requires i < ty.Parts()
    ensures forall fd :: fd in PartDesc(ty, i) ==> Truthful(ty, fd) && fd.fid[|fd.fid| - 1] == i
    decreases ty, 0, 0
  {
    hide Truthful, DescFrom, Ty.PartOff;
    var d := Desc(ty.PartTy(i));
    if d.None? {
      AtomIsTruthful(ty, i);
    } else {
      DescIsTruthful(ty.PartTy(i));
      forall k | 0 <= k < |d.value| ensures Truthful(ty, PartDesc(ty, i)[k]) {
        assert d.value[k] in d.value;
        ShiftedIsTruthful(ty, i, d.value[k]);
      }
    }
  }

  lemma AtomIsTruthful(ty: Ty, i: nat)
    requires i < ty.Parts() && Desc(ty.PartTy(i)).None?
    ensures Truthful(ty, FieldDesc(ty.PartOff(i), [i], [ty]))
  {
    hide Ty.PartOff;
    assert WayOff([i], [ty]) == ty.PartOff(i) + WayOff([], []);
  }

  // ---- nothing is missing ------------------------------------------------------------------------

  lemma {:induction false} PartIsIn(ty: Ty, from: nat, i: nat, fd: FieldDesc)
    requires from <= i < ty.Parts() && fd in PartDesc(ty, i)
    ensures fd in DescFrom(ty, from)
    decreases i - from
  {
    hide PartDesc, Ty.PartOff;
    if from == i {
    } else {
      PartIsIn(ty, from + 1, i, fd);
    }
  }

  /** Every full way is described. */
  lemma {:induction false} WayIsDescribed(ty: Ty, fid: seq<int>, hosts: seq<Ty>)
    requires IsFullWay(ty, fid, hosts)
    ensures Desc(ty).Some? && FieldDesc(WayOff(fid, hosts), fid, hosts) in Desc(ty).value
    decreases |fid|
  {
    hide Ty.PartOff;
    var n := |fid| - 1;
    var fd := FieldDesc(WayOff(fid, hosts), fid, hosts);
    if n == 0 {
      assert fid == [fid[0]] && hosts == [ty];
      assert WayOff(fid, hosts) == ty.PartOff(fid[0]) + WayOff([], []);
      assert fd in PartDesc(ty, fid[0]);
    } else {
      var part := ty.PartTy(fid[n]);
      WayIsDescribed(part, fid[..n], hosts[..n]);
      InnerIsShifted(ty, fid, hosts);
    }
    PartIsIn(ty, 0, fid[n], fd);
  }

  lemma InnerIsShifted(ty: Ty, fid: seq<int>, hosts: seq<Ty>)
    requires IsFullWay(ty, fid, hosts) && |fid| > 1
    requires var n := |fid| - 1; var d := Desc(ty.PartTy(fid[n]));
             d.Some? && FieldDesc(WayOff(fid[..n], hosts[..n]), fid[..n], hosts[..n]) in d.value
    ensures FieldDesc(WayOff(fid, hosts), fid, hosts) in PartDesc(ty, fid[|fid| - 1])
  {
    hide Ty.PartOff;
    var n := |fid| - 1;
    var d := Desc(ty.PartTy(fid[n])).value;
    var k :| 0 <= k < |d| && d[k] == FieldDesc(WayOff(fid[..n], hosts[..n]), fid[..n], hosts[..n]);
    assert fid == fid[..n] + [fid[n]] && hosts == hosts[..n] + [ty];
    assert PartDesc(ty, fid[n])[k] == FieldDesc(WayOff(fid, hosts), fid, hosts);
  }

  /** The description holds exactly the full ways, each with its offset. */
  lemma DescIsComplete(ty: Ty, fd: FieldDesc)
    requires Desc(ty).Some?
    ensures fd in Desc(ty).value <==> IsFullWay(ty, fd.fid, fd.hosts) && fd.bitoff == WayOff(fd.fid, fd.hosts)
  {
    hide WayOff, Desc;
    DescIsTruthful(ty);
    if IsFullWay(ty, fd.fid, fd.hosts) && fd.bitoff == WayOff(fd.fid, fd.hosts) {
      WayIsDescribed(ty, fd.fid, fd.hosts);
    }
  }

  /** A way that takes an earlier part than another one at the first step from outside at which they differ. */
  predicate Earlier(a: seq<int>, b: seq<int>)
    decreases |a|
  {
    |a| > 0 && |b| > 0 &&
    var x, y := a[|a| - 1], b[|b| - 1];
    x < y || (x == y && Earlier(a[..|a| - 1], b[..|b| - 1]))
  }

  ghost predicate InOrderOfWays(d: seq<FieldDesc>) {
    forall a, b :: 0 <= a < b < |d| ==> Earlier(d[a].fid, d[b].fid)
  }

  /** The ways come in their order, so that none comes twice. */
  lemma {:induction false} DescIsOrdered(ty: Ty)
    requires Desc(ty).Some?
    ensures InOrderOfWays(Desc(ty).value)
    decreases ty, 1, 0
  {
    DescFromIsOrdered(ty, 0);
  }

  lemma {:induction false} DescFromIsOrdered(ty: Ty, i: nat)
    requires i <= ty.Parts() && Desc(ty).Some?
    ensures InOrderOfWays(DescFrom(ty, i))
    decreases ty, 0, ty.Parts() - i
  {
    hide PartDesc, DescFrom, Truthful, Earlier;
    DescSplits(ty, i);
    if i >= ty.Parts() {
    } else {
      var a, b := PartDesc(ty, i), DescFrom(ty, i + 1);
      DescFromIsOrdered(ty, i + 1);
      PartDescIsOrdered(ty, i);
      PartDescIsTruthful(ty, i);
      DescFromIsTruthful(ty, i + 1);
      var r: seq<FieldDesc> := a + b;
      forall x, y | 0 <= x < y < |r| ensures Earlier(r[x].fid, r[y].fid) {
        assert r[x] == if x < |a| then a[x] else b[x - |a|];
        assert r[y] == if y < |a| then a[y] else b[y - |a|];
        if x < |a| <= y {
          assert a[x] in a && b[y - |a|] in b;
          OuterDecides(ty, i, a[x], b[y - |a|]);
        }
      }
    }
  }

  lemma OuterDecides(ty: Ty, i: int, a: FieldDesc, b: FieldDesc)
    requires Truthful(ty, a) && Truthful(ty, b) && a.fid[|a.fid| - 1] == i < b.fid[|b.fid| - 1]
    ensures Earlier(a.fid, b.fid)
  {
    hide WayOff;
  }

  lemma {:induction false} PartDescIsOrdered(ty: Ty, i: nat)
    requires i < ty.Parts()
    ensures InOrderOfWays(PartDesc(ty, i))
    decreases ty, 0, 0
  {
    hide Ty.PartOff;
    var d := Desc(ty.PartTy(i));
    if d.None? {
    } else {
      DescIsOrdered(ty.PartTy(i));
      forall x, y | 0 <= x < y < |d.value| ensures Earlier(d.value[x].fid + [i], d.value[y].fid + [i]) {
        var a, b := d.value[x].fid, d.value[y].fid;
        assert Earlier(a, b);
        assert (a + [i])[..|a|] == a && (b + [i])[..|b|] == b;
      }
    }
  }

  predicate Ascending(d: seq<FieldDesc>) {
    forall a, b :: 0 <= a < b < |d| ==> d[a].bitoff <= d[b].bitoff
  }

  predicate Between(d: seq<FieldDesc>, lo: int, hi: int) {
    forall a :: 0 <= a < |d| ==> lo <= d[a].bitoff <= hi
  }

  /** Descriptions come in the order of their offsets, all inside the type. */
  lemma {:induction false} DescIsAscending(ty: Ty)
    requires Desc(ty).Some? && Laid(ty)
    ensures Ascending(Desc(ty).value) && Between(Desc(ty).value, 0, ty.StoreSize())
    decreases ty, 1, 0
  {
    DescFromIsAscending(ty, 0);
  }

  lemma {:induction false} DescFromIsAscending(ty: Ty, i: nat)
    requires i <= ty.Parts() && Desc(ty).Some? && Laid(ty)
    ensures Ascending(DescFrom(ty, i))
    ensures Between(DescFrom(ty, i), if i < ty.Parts() then ty.PartOff(i) else 0, ty.StoreSize())
    decreases ty, 0, ty.Parts() - i
  {
    hide Laid, PartDesc, DescFrom, Ty.PartOff, Ty.StoreSize;
    DescSplits(ty, i);
    if i < ty.Parts() {
      DescFromIsAscending(ty, i + 1);
      PartDescIsAscending(ty, i);
      PartsInOrder(ty, i);
      InOrder(PartDesc(ty, i), DescFrom(ty, i + 1), ty.PartOff(i), ty.PartOff(i) + ty.PartTy(i).StoreSize(),
              if i + 1 < ty.Parts() then ty.PartOff(i + 1) else 0, ty.StoreSize());
    }
  }

  lemma DescSplits(ty: Ty, i: nat)
    requires i <= ty.Parts()
    ensures DescFrom(ty, i) == if i == ty.Parts() then [] else PartDesc(ty, i) + DescFrom(ty, i + 1)
  {
  }

  lemma PartsInOrder(ty: Ty, i: nat)
    requires i < ty.Parts() && Laid(ty)
    ensures ty.PartOff(i) + ty.PartTy(i).StoreSize() <= ty.StoreSize()
    ensures if i + 1 < ty.Parts() then ty.PartOff(i) + ty.PartTy(i).StoreSize() <= ty.PartOff(i + 1)
            else DescFrom(ty, i + 1) == []
  {
    hide Ty.PartOff, Ty.StoreSize, PartDesc;
  }

  lemma InOrder(a: seq<FieldDesc>, b: seq<FieldDesc>, lo: int, mid: int, from: int, hi: int)
    requires Ascending(a) && Ascending(b) && Between(a, lo, mid) && Between(b, from, hi) && lo <= mid <= hi
             && (b == [] || mid <= from)
    ensures Ascending(a + b) && Between(a + b, lo, hi)
  {
  }

  lemma {:induction false} PartDescIsAscending(ty: Ty, i: nat)
    requires i < ty.Parts() && Laid(ty)
    ensures Ascending(PartDesc(ty, i))
    ensures Between(PartDesc(ty, i), ty.PartOff(i), ty.PartOff(i) + ty.PartTy(i).StoreSize())
    decreases ty, 0, 0
  {
    if Desc(ty.PartTy(i)).None? {
    } else {
      DescIsAscending(ty.PartTy(i));
    }
  }

  /** The first place of a type is at its beginning. */
  lemma {:induction false} FirstIsAtZero(ty: Ty)
    requires Desc(ty).Some? && Laid(ty) && Desc(ty).value != []
    ensures Desc(ty).value[0].bitoff == 0
    decreases ty, 1, 0
  {
    FirstFrom(ty, 0);
  }

  lemma {:induction false} FirstFrom(ty: Ty, i: nat)
    requires i <= ty.Parts() && Desc(ty).Some? && Laid(ty) && DescFrom(ty, i) != []
    requires forall j :: 0 <= j < i ==> PartDesc(ty, j) == []
    ensures DescFrom(ty, i)[0].bitoff == 0
    decreases ty, 0, ty.Parts() - i
  {
    if PartDesc(ty, i) == [] {
      FirstFrom(ty, i + 1);
    } else {
      PartStartsThere(ty, i);
    }
  }

  lemma {:induction false} PartStartsThere(ty: Ty, i: nat)
    requires i < ty.Parts() && Laid(ty) && PartDesc(ty, i) != []
    ensures PartDesc(ty, i)[0].bitoff == ty.PartOff(i)
    decreases ty, 0, 0
  {
    if Desc(ty.PartTy(i)).None? {
    } else {
      FirstIsAtZero(ty.PartTy(i));
    }
  }

  /** The field of the described type that a place is in. */
  function Outer(fd: FieldDesc): int {
    if fd.fid == [] then -1 else fd.fid[|fd.fid| - 1]
  }

  ghost predicate FieldsAscending(d: seq<FieldDesc>, from: int) {
    && (forall a :: 0 <= a < |d| ==> Outer(d[a]) >= from)
    && (forall a, b :: 0 <= a < b < |d| ==> Outer(d[a]) <= Outer(d[b]))
  }

  lemma PartIsOneField(ty: Ty, i: nat)
    requires i < ty.Parts()
    ensures forall x :: 0 <= x < |PartDesc(ty, i)| ==> Outer(PartDesc(ty, i)[x]) == i
  {
    var a := PartDesc(ty, i);
    PartDescIsTruthful(ty, i);
    forall x | 0 <= x < |a| ensures Outer(a[x]) == i {
      assert a[x] in a;
    }
  }

  lemma {:induction false} DescFieldsAscend(ty: Ty, i: nat)
    requires i <= ty.Parts() && Desc(ty).Some?
    ensures FieldsAscending(DescFrom(ty, i), i)
    decreases ty.Parts() - i
  {
    if i >= ty.Parts() {
    } else {
      DescFieldsAscend(ty, i + 1);
      PartIsOneField(ty, i);
    }
  }

  /** InstructionUtils::locateFieldInTyDesc: the first place inside field `fid`, or -1 when the field
      has none. */
  method LocateField(d: seq<FieldDesc>, fid: int) returns (i: int)
    requires FieldsAscending(d, 0)
    ensures -1 <= i < |d|
    ensures i >= 0 ==> Outer(d[i]) == fid && forall k :: 0 <= k < i ==> Outer(d[k]) < fid
    ensures i < 0 ==> forall k :: 0 <= k < |d| ==> Outer(d[k]) != fid
  {
    i := 0;
    while i < |d|
      invariant 0 <= i <= |d|
      invariant forall k :: 0 <= k < i ==> Outer(d[k]) < fid
    {
      var cur := Outer(d[i]);
      if cur == fid {
        return;
      }
      if cur > fid {
        return -1;
      }
      i := i + 1;
    }
    return -1;
  }

  /** InstructionUtils::locateBitsoffInTyDesc on a sorted description: the first place at `boff`, or
      -1 when there is none. */
  method LocateBitsoff(d: seq<FieldDesc>, boff: int) returns (i: int)
    requires Ascending(d)
    ensures -1 <= i < |d|
    ensures i >= 0 ==> d[i].bitoff == boff && forall k :: 0 <= k < i ==> d[k].bitoff != boff
    ensures i < 0 ==> forall k :: 0 <= k < |d| ==> d[k].bitoff != boff
  {
    i := 0;
    while i < |d|
      invariant 0 <= i <= |d|
      invariant forall k :: 0 <= k < i ==> d[k].bitoff < boff
    {
      if d[i].bitoff == boff {
        return;
      }
      if d[i].bitoff > boff {
        return -1;
      }
      i := i + 1;
    }
    return -1;
  }

  lemma FirstInConcat(a: seq<FieldDesc>, b: seq<FieldDesc>, i: int, f: int, k: nat)
    requires k < |a + b| && Outer((a + b)[k]) == f && forall x :: 0 <= x < k ==> Outer((a + b)[x]) < f
    requires forall x :: 0 <= x < |a| ==> Outer(a[x]) == i
    ensures if k < |a| then k == 0 && f == i
            else b[k - |a|] == (a + b)[k] && forall x :: 0 <= x < k - |a| ==> Outer(b[x]) < f
  {
    hide Outer;
    assert |a| > 0 ==> (a + b)[0] == a[0];
    assert k < |a| ==> (a + b)[k] == a[k];
    assert forall x :: 0 <= x < |b| ==> (a + b)[x + |a|] == b[x];
  }

  /** The first place inside field `f` is where the field begins. */
  lemma {:induction false} FieldStartsThere(ty: Ty, i: nat, f: int, k: nat)
    requires Desc(ty).Some? && Laid(ty) && i <= ty.Parts() && k < |DescFrom(ty, i)|
    requires Outer(DescFrom(ty, i)[k]) == f && forall x :: 0 <= x < k ==> Outer(DescFrom(ty, i)[x]) < f
    ensures 0 <= f < ty.Parts() && DescFrom(ty, i)[k].bitoff == ty.PartOff(f)
    decreases ty.Parts() - i
  {
    hide Outer, Laid, PartDesc, DescFrom, Desc;
    DescSplits(ty, i);
    var a, b := PartDesc(ty, i), DescFrom(ty, i + 1);
    PartIsOneField(ty, i);
    FirstInConcat(a, b, i, f, k);
    if k < |a| {
      PartStartsThere(ty, i);
    } else {
      FieldStartsThere(ty, i + 1, f, k - |a|);
    }
  }
}
