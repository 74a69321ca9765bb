/** The field points-to records of an object, their activity, and the index of their targets. */
module FieldStore {
  import opened Cfg
  import opened Constraints
  import opened FieldSpec

  /** A field points-to record.  Its identity and structure never change; whether it is active and
      whether it is weak is kept with the object it starts from. */
  class Record {
    const src: AliasObject
    const fid: int
    const to: Pointee<AliasObject>
    const site: Option<Site>

    constructor (src: AliasObject, fid: int, to: Pointee<AliasObject>, site: Option<Site>)
      ensures this.src == src && this.fid == fid && this.to == to && this.site == site
    {
      this.src := src;
      this.fid := fid;
      this.to := to;
      this.site := site;
    }
  }

  /** The records of one object: all of them, the ones its targets keep in `pointsFrom`, the active
      and the weak ones. */
  datatype State = State(recs: set<Record>, reps: set<Record>, active: set<Record>, weak: set<Record>)

  predicate Alike(p: Record, r: Record) {
    p.fid == r.fid && p.to == r.to
  }

  predicate Same(p: Record, r: Record) {
    Alike(p, r) && p.site == r.site
  }

  function OfField(recs: set<Record>, fid: int): set<Record> {
    set r | r in recs && r.fid == fid
  }

  ghost predicate Indexed(st: State, r: Record) {
    exists p :: p in st.reps && Alike(p, r)
  }

  /** `reps` is the exact inverse index of `recs`: one record for every field, target and target
      field that some record has, and none for any other. */
  ghost predicate Exact(st: State) {
    && st.reps <= st.recs && st.active <= st.recs && st.weak <= st.recs
    && (forall p :: p in st.reps ==> p.to.target.Some?)
    && (forall p, q :: p in st.reps && q in st.reps && Alike(p, q) ==> p == q)
    && (forall r :: r in st.recs && r.to.target.Some? ==> Indexed(st, r))
    && (forall p, q :: p in st.recs && q in st.recs && Same(p, q) ==> p == q)
  }

  /** The records whose flag goes with that of `r`. */
  function Shared(st: State, r: Record): set<Record> {
    {r} + (set p | p in st.reps && Alike(p, r))
  }

  function Flip(st: State, r: Record, act: bool): State {
    st.(active := if act then st.active + Shared(st, r) else st.active - Shared(st, r))
  }

  lemma FlipKeepsExact(st: State, r: Record, act: bool)
    requires Exact(st) && r in st.recs
    ensures Exact(Flip(st, r, act))
  {
    forall x | x in st.recs && x.to.target.Some? ensures Indexed(Flip(st, r, act), x) {
      assert Indexed(st, x);
    }
  }

  /** The record was written under another entry. */
  predicate Foreign(r: Record, entry: Entry) {
    HasCtx(r.site) && r.site.value.entry != entry
  }

  /** The record was set up outside all functions. */
  predicate Global(r: Record) {
    r.site.Some? && r.site.value.Preset?
  }

  /** What the switch to `entry` does to one record. */
  function ResetOne(st: State, r: Record, entry: Entry): State {
    if r in st.active && Foreign(r, entry) then Flip(st, r, false)
    else if r !in st.active && Global(r) then Flip(st, r, true)
    else st
  }

  /** What the switch, having visited `seen`, has made of a record outside the index: foreign ones are
      inactive, global ones active, all others untouched. */
  ghost predicate SettledOne(a: State, b: State, r: Record, seen: set<Record>, entry: Entry) {
    r in b.active <==> if r !in seen then r in a.active else Global(r) || (!Foreign(r, entry) && r in a.active)
  }

  /** ... and of a representative, which the records it stands for flip along: a foreign one survives
      only through a global one. */
  ghost predicate SettledRep(a: State, b: State, r: Record, seen: set<Record>, entry: Entry) {
    && (r in seen && r in b.active && Foreign(r, entry) ==> exists m :: m in a.recs && Alike(m, r) && Global(m))
    && ((forall m :: m in a.recs && Alike(m, r) ==> !Foreign(m, entry)) ==>
          (r in b.active <==> r in a.active || exists m :: m in seen && Alike(m, r) && Global(m) && m !in a.active))
    && ((forall m :: m in a.recs && Alike(m, r) ==> !Global(m)) ==>
          (r in b.active <==> r in a.active && forall m :: m in seen && Alike(m, r) && Foreign(m, entry) ==>
           m !in a.active))
  }

  /** The switch to `entry` has visited `seen` among the records of field `fid`. */
  ghost predicate Settling(a: State, b: State, fid: int, seen: set<Record>, entry: Entry) {
    && b.recs == a.recs && b.reps == a.reps && b.weak == a.weak && b.active <= b.recs
    && (forall r :: r in a.recs && r.fid != fid ==> (r in b.active <==> r in a.active))
    && (forall r :: r in a.recs - a.reps && r.fid == fid ==> SettledOne(a, b, r, seen, entry))
    && (forall r :: r in a.reps && r.fid == fid ==> SettledRep(a, b, r, seen, entry))
  }

  /** The value of one flag after one step. */
  lemma ResetOneAt(b: State, r: Record, entry: Entry, x: Record)
    ensures x in ResetOne(b, r, entry).active <==>
              if x == r || (x in b.reps && Alike(x, r)) then
                if r in b.active && Foreign(r, entry) then false
                else if r !in b.active && Global(r) then true
                else x in b.active
              else x in b.active
  {
  }

  lemma RepSettles(a: State, b: State, fid: int, seen: set<Record>, r: Record, entry: Entry, x: Record)
    requires Exact(a) && Settling(a, b, fid, seen, entry)
    requires r in a.recs && r.fid == fid && r !in seen && seen <= a.recs
    requires x in a.reps && x.fid == fid
    ensures SettledRep(a, ResetOne(b, r, entry), x, seen + {r}, entry)
  {
    hide ResetOne;
    ResetOneAt(b, r, entry, x);
    assert SettledRep(a, b, x, seen, entry);
    if r !in a.reps {
      assert SettledOne(a, b, r, seen, entry);
    }
  }

  lemma ResetOneSettles(a: State, b: State, fid: int, seen: set<Record>, r: Record, entry: Entry)
    requires Exact(a) && Settling(a, b, fid, seen, entry)
    requires r in a.recs && r.fid == fid && r !in seen && seen <= a.recs
    ensures Settling(a, ResetOne(b, r, entry), fid, seen + {r}, entry)
  {
    hide SettledRep;
    forall x | x in a.reps && x.fid == fid ensures SettledRep(a, ResetOne(b, r, entry), x, seen + {r}, entry) {
      RepSettles(a, b, fid, seen, r, entry, x);
    }
    forall x | x in a.recs - a.reps && x.fid == fid ensures SettledOne(a, ResetOne(b, r, entry), x, seen + {r}, entry) {
      ResetOneAt(b, r, entry, x);
      assert SettledOne(a, b, x, seen, entry);
    }
  }

  /** Entry isolation: an active record of a field shares its pointee with a record written under the
      current entry, or with one set up without a context; before the first such write there is no
      record with a context at all. */
  ghost predicate Isolated(st: State, last: map<int, Entry>) {
    && (forall r :: r in st.active && r.fid in last ==>
        exists m :: m in st.recs && Alike(m, r) && !Foreign(m, last[r.fid]))
    && (forall r :: r in st.recs && r.fid !in last ==> !HasCtx(r.site))
  }

  lemma FirstEntry(st: State, last: map<int, Entry>, fid: int, entry: Entry)
    requires Isolated(st, last) && fid !in last && Exact(st)
    ensures Isolated(st, last[fid := entry])
  {
    forall r | r in st.active && r.fid == fid ensures Alike(r, r) && !Foreign(r, entry) {
    }
  }

  lemma NotSettledYet(st: State, fid: int, entry: Entry)
    requires Exact(st)
    ensures Settling(st, st, fid, {}, entry)
  {
  }

  lemma SettledIsIsolated(a: State, b: State, last: map<int, Entry>, fid: int, entry: Entry)
    requires Exact(a) && Isolated(a, last) && fid in last
    requires Settling(a, b, fid, OfField(a.recs, fid), entry)
    ensures Isolated(b, last[fid := entry])
  {
    forall r | r in a.recs - a.reps && r.fid == fid && Foreign(r, entry) ensures r !in b.active {
      assert SettledOne(a, b, r, OfField(a.recs, fid), entry);
    }
    forall r | r in b.active && r.fid == fid ensures exists m :: m in b.recs && Alike(m, r) && !Foreign(m, entry) {
      if !Foreign(r, entry) {
        assert Alike(r, r);
      } else if r in a.reps {
        assert SettledRep(a, b, r, OfField(a.recs, fid), entry);
      }
    }
  }

  // ---- one update --------------------------------------------------------------------------------

  ghost predicate HasTwin(st: State, fid: int, p: Pointee<AliasObject>, site: Option<Site>) {
    exists e :: e in st.recs && e.fid == fid && e.to == p && e.site == site
  }

  /** Storing the pointee of `r` at `site` once more reactivates `r`: the record of that very store is
      inactive, and it is `r` or has `r` in the index. */
  ghost predicate Wakes(st: State, r: Record, site: Option<Site>) {
    exists e :: e in st.recs && Alike(e, r) && e.site == site && e !in st.active && (r == e || r in st.reps)
  }

  function Pointees(u: set<Incoming<AliasObject>>): set<Pointee<AliasObject>> {
    set i | i in u :: i.p
  }

  ghost function Woken(st: State, fid: int, ps: set<Pointee<AliasObject>>, site: Option<Site>): set<Record> {
    set r | r in st.recs && r.fid == fid && r.to in ps && Wakes(st, r, site)
  }

  lemma WakeTwin(st: State, e: Record)
    requires Exact(st) && e in st.recs && e !in st.active
    ensures Woken(st, e.fid, {e.to}, e.site) == Shared(st, e)
  {
    forall r | r in Woken(st, e.fid, {e.to}, e.site) ensures r in Shared(st, e) {
      var x :| x in st.recs && Alike(x, r) && x.site == e.site && x !in st.active && (r == x || r in st.reps);
      assert Same(x, e);
    }
    forall r | r in Shared(st, e) ensures r in Woken(st, e.fid, {e.to}, e.site) {
      assert Alike(e, r) && Wakes(st, r, e.site);
    }
  }

  lemma NothingToWake(st: State, fid: int, p: Pointee<AliasObject>, site: Option<Site>)
    requires forall e :: e in st.recs && e.fid == fid && e.to == p && e.site == site ==> e in st.active
    ensures Woken(st, fid, {p}, site) == {}
  {
  }

  lemma WokenAdds(a: State, b: State, fid: int, ps: set<Pointee<AliasObject>>, p: Pointee<AliasObject>,
                  site: Option<Site>)
    requires b.recs == a.recs && b.reps == a.reps && b.active == a.active + Woken(a, fid, ps, site) && p !in ps
    ensures b.active + Woken(b, fid, {p}, site) == a.active + Woken(a, fid, ps + {p}, site)
  {
    forall r | r in a.recs && r.fid == fid && r.to == p ensures Wakes(a, r, site) <==> Wakes(b, r, site) {
      forall e | e in a.recs && Alike(e, r) ensures e in a.active <==> e in b.active {
      }
    }
  }

  /** The records an update with the pointees `u` at `site` decides to deactivate: all active ones it
      overrides, and besides them only overridden ones it has itself reactivated. */
  ghost predicate Condemned(prog: Program, a: State, fid: int, u: set<Incoming<AliasObject>>, site: Option<Site>,
                            dead: set<Record>) {
    && (forall r :: r in dead ==> r in a.recs && r.fid == fid && Strong(u) && Overrides(prog, site, r.site))
    && (forall r :: r in dead ==> r in a.active || r in Woken(a, fid, Pointees(u), site))
    && (forall r :: r in a.active && r.fid == fid && Strong(u) && Overrides(prog, site, r.site) ==> r in dead)
  }

  /** `r` is deactivated along with the records in `dead`. */
  ghost predicate Falls(a: State, r: Record, dead: set<Record>) {
    r in dead || (r in a.reps && exists x :: x in dead && Alike(r, x))
  }

  /** The records that are new: one for each pointee that has no record of this store yet. */
  ghost predicate Fresh(a: State, fid: int, u: set<Incoming<AliasObject>>, site: Option<Site>, added: set<Record>) {
    && added !! a.recs
    && (forall n :: n in added ==>
        n.fid == fid && n.site == site && !HasTwin(a, fid, n.to, site) && exists i :: i in u && i.p == n.to)
    && (forall i :: i in u && !HasTwin(a, fid, i.p, site) ==> exists n :: n in added && n.to == i.p)
    && (forall m, n :: m in added && n in added && m.to == n.to ==> m == n)
  }

  function Entered(st: State, n: Record, weak: bool): State {
    var reps := if n.to.target.None? || exists p :: p in st.reps && Alike(p, n) then st.reps else st.reps + {n};
    State(st.recs + {n}, reps, st.active + {n} + (set p | p in reps && Alike(p, n)), if weak then st.weak + {n}
          else st.weak)
  }

  lemma EnteredReps(st: State, n: Record, weak: bool)
    requires Exact(st) && n !in st.recs
    ensures var b := Entered(st, n, weak);
            && st.reps <= b.reps <= st.reps + {n}
            && (forall p :: p in b.reps ==> p.to.target.Some?)
            && (forall p, q :: p in b.reps && q in b.reps && Alike(p, q) ==> p == q)
            && (forall r :: r in b.recs && r.to.target.Some? ==> Indexed(b, r))
  {
    var b := Entered(st, n, weak);
    forall r | r in b.recs && r.to.target.Some? ensures Indexed(b, r) {
      if r != n {
        assert Indexed(st, r);
      } else if n !in b.reps {
        assert Indexed(b, n);
      }
    }
  }

  lemma EnteredKeepsExact(st: State, n: Record, weak: bool)
    requires Exact(st) && n !in st.recs && !HasTwin(st, n.fid, n.to, n.site)
    ensures Exact(Entered(st, n, weak)) && Entered(st, n, weak).active <= Entered(st, n, weak).recs
  {
    var b := Entered(st, n, weak);
    EnteredReps(st, n, weak);
    forall p, q | p in b.recs && q in b.recs && Same(p, q) ensures p == q {
      assert p != n || q != n ==> p in st.recs || q in st.recs;
    }
  }

  /** The whole effect of an update of field `fid` with the distinct pointees `u` at `site`. */
  ghost predicate Updated(prog: Program, a: State, b: State, fid: int, u: set<Incoming<AliasObject>>,
                          site: Option<Site>, added: set<Record>, dead: set<Record>) {
    && Condemned(prog, a, fid, u, site, dead) && Fresh(a, fid, u, site, added)
    && b.recs == a.recs + added
    && (forall r :: r in a.recs ==> (r in b.reps <==> r in a.reps))
    && added <= b.active
    && (forall r :: r in a.recs ==>
          (r in b.active <==>
           || ((r in a.active || r in Woken(a, fid, Pointees(u), site)) && !Falls(a, r, dead))
           || (r in a.reps && exists n :: n in added && Alike(n, r))))
    && (forall r :: r in a.recs ==>
          (r in b.weak <==>
           r in a.weak && !exists i :: i in u && !i.weak && r.fid == fid && r.to == i.p && r.site == site))
    && (forall n :: n in added ==> (n in b.weak <==> exists i :: i in u && i.p == n.to && i.weak))
  }

  /** A strong update overrides: among the records its site strictly post-dominates, only those of
      the pointees it stores are active afterwards. */
  lemma StrongUpdateOverrides(prog: Program, a: State, b: State, fid: int, u: set<Incoming<AliasObject>>,
                              site: Option<Site>, added: set<Record>, dead: set<Record>, r: Record)
    requires Exact(a) && Updated(prog, a, b, fid, u, site, added, dead) && Strong(u)
    requires r in b.active && r in b.recs && r.fid == fid && Overrides(prog, site, r.site)
    ensures exists i :: i in u && i.p == r.to
  {
    if r in added {
    } else if n :| n in added && Alike(n, r) {
    } else if r !in a.active {
      assert r in Woken(a, fid, Pointees(u), site);
    }
  }

  /** The fate of a record of a pointee that is not stored, decided by the state before the update. */
  lemma OtherPointees(prog: Program, a: State, b: State, fid: int, u: set<Incoming<AliasObject>>, site: Option<Site>,
                      added: set<Record>, dead: set<Record>, r: Record)
    requires Exact(a) && Updated(prog, a, b, fid, u, site, added, dead)
    requires r in a.recs && (r.fid != fid || forall i :: i in u ==> i.p != r.to)
    ensures r in b.active <==>
            r in a.active
            && !(r.fid == fid && Strong(u)
                 && exists m ::
                   m in a.active && (m == r || (r in a.reps && Alike(r, m))) && Overrides(prog, site, m.site))
  {
    assert forall n :: n in added ==> !Alike(n, r);
    assert r !in Woken(a, fid, Pointees(u), site);
    forall m | m in a.recs && Alike(r, m)
      ensures m in dead <==> m in a.active && m.fid == fid && Strong(u) && Overrides(prog, site, m.site)
    {
      assert m !in Woken(a, fid, Pointees(u), site);
    }
    if Falls(a, r, dead) && r !in dead {
      var x :| x in dead && Alike(r, x);
      assert x in a.active;
    }
  }

  /** What happens to the record of the store itself.  It is active afterwards unless the store had
      a record before, the target's index holds that very record, and the store overrides another
      active record of the same pointee: then deactivating the other one takes it down as well. */
  lemma StoredRecordIsActiveIff(prog: Program, a: State, b: State, fid: int, u: set<Incoming<AliasObject>>,
                                site: Option<Site>, added: set<Record>, dead: set<Record>, i: Incoming<AliasObject>)
    requires Exact(a) && Updated(prog, a, b, fid, u, site, added, dead) && i in u
    ensures (exists r :: r in b.active && r in b.recs && r.fid == fid && r.to == i.p && r.site == site) <==>
            !(Strong(u) && exists e, m :: e in a.reps && e.fid == fid && e.to == i.p && e.site == site
                                          && m in a.active && Alike(m, e) && Overrides(prog, site, m.site))
  {
    if HasTwin(a, fid, i.p, site) {
      var e :| e in a.recs && e.fid == fid && e.to == i.p && e.site == site;
      TwinIsActiveIff(prog, a, b, fid, u, site, added, dead, i, e);
      if r :| r in b.active && r in b.recs && r.fid == fid && r.to == i.p && r.site == site {
        assert r !in added && Same(r, e);
      }
      forall x | x in a.reps && x.fid == fid && x.to == i.p && x.site == site ensures x == e {
        assert Same(x, e);
      }
    } else {
      var n :| n in added && n.to == i.p;
      assert n in b.active;
      assert forall x :: x in a.reps ==> x in a.recs;
    }
  }

  lemma TwinIsActiveIff(prog: Program, a: State, b: State, fid: int, u: set<Incoming<AliasObject>>, site: Option<Site>,
                        added: set<Record>, dead: set<Record>, i: Incoming<AliasObject>, e: Record)
    requires Exact(a) && Updated(prog, a, b, fid, u, site, added, dead) && i in u
    requires e in a.recs && e.fid == fid && e.to == i.p && e.site == site
    ensures e in b.active <==>
            !(e in a.reps && Strong(u) && exists m :: m in a.active && Alike(m, e) && Overrides(prog, site, m.site))
  {
    assert HasTwin(a, fid, i.p, site);
    assert forall n :: n in added ==> !Alike(n, e);
    var ps := Pointees(u);
    assert e in a.active || e in Woken(a, fid, ps, site) by {
      assert i.p in ps && (e in a.active || Wakes(a, e, site));
    }
    assert !Overrides(prog, site, e.site) && e !in dead;
    if e in a.reps {
      forall m | m in Woken(a, fid, ps, site) && Alike(m, e) ensures m == e {
        OnlyItselfWoken(a, fid, ps, site, e, m);
      }
    }
  }

  lemma OnlyItselfWoken(a: State, fid: int, ps: set<Pointee<AliasObject>>, site: Option<Site>, e: Record, m: Record)
    requires Exact(a) && e in a.reps && e.site == site && m in Woken(a, fid, ps, site) && Alike(m, e)
    ensures m == e
  {
    var x :| x in a.recs && Alike(x, m) && x.site == site && x !in a.active && (m == x || m in a.reps);
    assert Same(x, e);
  }

  /** An update under the current entry, or without a context, keeps the entries apart. */
  lemma UpdateKeepsIsolation(prog: Program, a: State, b: State, fid: int, u: set<Incoming<AliasObject>>,
                             site: Option<Site>, added: set<Record>, dead: set<Record>, last: map<int, Entry>)
    requires Exact(a) && Updated(prog, a, b, fid, u, site, added, dead) && Isolated(a, last)
    requires HasCtx(site) ==> fid in last && last[fid] == site.value.entry
    requires Exact(b)
    ensures Isolated(b, last)
  {
    forall r | r in b.active && r.fid in last
      ensures exists m :: m in b.recs && Alike(m, r) && !Foreign(m, last[r.fid])
    {
      if r in added {
        assert Alike(r, r);
      } else if n :| n in added && Alike(n, r) {
      } else if r in a.active {
        var m :| m in a.recs && Alike(m, r) && !Foreign(m, last[r.fid]);
        assert m in b.recs;
      } else {
        var e :| e in a.recs && Alike(e, r) && e.site == site;
        assert e in b.recs;
      }
    }
  }

  /** How a scan for one pointee treats one existing record: condemn it, recognise it as the record
      of this very store, or pass it over. */
  ghost function ScanStep(prog: Program, b: State, dup: bool, del: set<Record>, e: Record, i: Incoming<AliasObject>,
                          site: Option<Site>): (State, bool, set<Record>) {
    if e in b.active && !i.weak && Overrides(prog, site, e.site) then (b, dup, del + {e})
    else if dup || e.to != i.p || e.site != site then (b, dup, del)
    else
      var c := if i.weak then b else b.(weak := b.weak - {e});
      (if e in b.active then c else Flip(c, e, true), true, del)
  }

  predicate Twin(e: Record, i: Incoming<AliasObject>, site: Option<Site>) {
    e.to == i.p && e.site == site
  }

  /** The scan for `i` has visited `seen` among the records of the field. */
  ghost predicate Scanned(prog: Program, a: State, b: State, fid: int, i: Incoming<AliasObject>, site: Option<Site>,
                          was: set<Record>, seen: set<Record>, dup: bool, del: set<Record>) {
    && b.recs == a.recs && b.reps == a.reps
    && (dup <==> exists e :: e in seen && Twin(e, i, site))
    && b.active == a.active + (if exists e :: e in seen && Twin(e, i, site) && e !in a.active
                               then Woken(a, fid, {i.p}, site) else {})
    && b.weak == a.weak - (if i.weak then {} else set r | r in seen && Twin(r, i, site))
    && was <= del
    && (forall r :: r in del ==> r in was || (r in seen && !i.weak && Overrides(prog, site, r.site) && r in b.active))
    && (forall r :: r in seen && r in a.active && !i.weak && Overrides(prog, site, r.site) ==> r in del)
  }

  lemma ScanStepScans(prog: Program, a: State, b: State, fid: int, i: Incoming<AliasObject>, site: Option<Site>,
                      was: set<Record>, seen: set<Record>, dup: bool, del: set<Record>, e: Record)
    requires Exact(a) && Scanned(prog, a, b, fid, i, site, was, seen, dup, del)
    requires e in a.recs && e !in seen && (forall r :: r in seen + {e} ==> r in a.recs && r.fid == fid)
    ensures var (c, d, x) := ScanStep(prog, b, dup, del, e, i, site);
            Scanned(prog, a, c, fid, i, site, was, seen + {e}, d, x)
  {
    hide Overrides, Woken;
    if Twin(e, i, site) {
      NeverOverridesItself(prog, site);
      forall x | x in seen ensures !Twin(x, i, site) {
        assert Same(x, e) ==> x == e;
      }
      if e !in a.active {
        WakeTwin(a, e);
      }
    }
  }

  lemma NeverOverridesItself(prog: Program, site: Option<Site>)
    ensures !Overrides(prog, site, site)
  {
  }

  lemma LessWeak(st: State, e: Record)
    requires Exact(st)
    ensures Exact(st.(weak := st.weak - {e}))
  {
    assert forall r :: r in st.recs && r.to.target.Some? ==> Indexed(st, r) && Indexed(st.(weak := st.weak - {e}), r);
  }

  lemma NotScannedYet(prog: Program, a: State, fid: int, i: Incoming<AliasObject>, site: Option<Site>, was: set<Record>)
    ensures Scanned(prog, a, a, fid, i, site, was, {}, false, was)
  {
  }

  /** The scans for the pointees `done` are over. */
  ghost predicate AllScanned(prog: Program, a: State, b: State, fid: int, done: set<Incoming<AliasObject>>,
                             site: Option<Site>, toAdd: set<Incoming<AliasObject>>, toDel: set<Record>) {
    && b.recs == a.recs && b.reps == a.reps
    && b.active == a.active + Woken(a, fid, Pointees(done), site)
    && b.weak == a.weak - (set r | r in a.recs && r.fid == fid && exists i :: i in done && !i.weak && Twin(r, i, site))
    && toAdd == (set i | i in done && !HasTwin(a, fid, i.p, site))
    && Condemned(prog, a, fid, done, site, toDel)
  }

  lemma NoneScannedYet(prog: Program, a: State, fid: int, site: Option<Site>)
    ensures AllScanned(prog, a, a, fid, {}, site, {}, {})
  {
  }

  lemma OneMoreActive(a: State, b: State, c: State, prog: Program, fid: int, ps: set<Pointee<AliasObject>>,
                      i: Incoming<AliasObject>, site: Option<Site>, was: set<Record>, dup: bool, del: set<Record>)
    requires Exact(a) && b.recs == a.recs && b.reps == a.reps && i.p !in ps
    requires b.active == a.active + Woken(a, fid, ps, site)
    requires Scanned(prog, b, c, fid, i, site, was, OfField(a.recs, fid), dup, del)
    ensures c.active == a.active + Woken(a, fid, ps + {i.p}, site)
    ensures dup <==> HasTwin(a, fid, i.p, site)
  {
    hide Overrides, Exact, Woken;
    WokenAdds(a, b, fid, ps, i.p, site);
    var f := OfField(a.recs, fid);
    if forall e :: e in f && Twin(e, i, site) ==> e in b.active {
      assert forall e :: e in b.recs && e.fid == fid ==> e in f;
      NothingToWake(b, fid, i.p, site);
    }
  }

  lemma OneMoreCondemned(prog: Program, a: State, b: State, c: State, fid: int, done: set<Incoming<AliasObject>>,
                         i: Incoming<AliasObject>, site: Option<Site>, was: set<Record>, dup: bool, del: set<Record>)
    requires Exact(a) && Condemned(prog, a, fid, done, site, was)
    requires b.recs == a.recs && a.active <= b.active
             && Scanned(prog, b, c, fid, i, site, was, OfField(a.recs, fid), dup, del)
    requires c.active == a.active + Woken(a, fid, Pointees(done + {i}), site)
    ensures Condemned(prog, a, fid, done + {i}, site, del)
  {
    assert a.active <= a.recs;
    hide Overrides, Exact, Wakes;
    assert i in done + {i};
    assert Strong(done) || !i.weak <==> Strong(done + {i});
    forall r | r in was ensures r in a.active || r in Woken(a, fid, Pointees(done + {i}), site) {
      if r !in a.active {
        assert r in Woken(a, fid, Pointees(done), site);
      }
    }
  }

  lemma OneMoreScanned(prog: Program, a: State, b: State, c: State, fid: int, done: set<Incoming<AliasObject>>,
                       i: Incoming<AliasObject>, site: Option<Site>, toAdd: set<Incoming<AliasObject>>,
                       was: set<Record>, dup: bool, del: set<Record>)
    requires Exact(a) && AllScanned(prog, a, b, fid, done, site, toAdd, was)
    requires Scanned(prog, b, c, fid, i, site, was, OfField(a.recs, fid), dup, del)
    requires forall j :: j in done ==> j.p != i.p
    ensures AllScanned(prog, a, c, fid, done + {i}, site, if dup then toAdd else toAdd + {i}, del)
  {
    hide Overrides, Woken, Condemned, HasTwin, Exact;
    var ps := Pointees(done);
    assert Pointees(done + {i}) == ps + {i.p};
    OneMoreActive(a, b, c, prog, fid, ps, i, site, was, dup, del);
    OneMoreCondemned(prog, a, b, c, fid, done, i, site, was, dup, del);
  }

  lemma UnifiedStep(done: set<Incoming<AliasObject>>, pto: Incoming<AliasObject>)
    ensures var u := Unified(done, -1);
            && (forall s, t :: s in u && t in u && s.p == t.p ==> s == t)
            && Unified(done + {pto}, -1) ==
               if t :| t in u && t.p == pto.p then (if t.weak != pto.weak then u - {t} + {Incoming(t.p, false)} else u)
               else u + {pto}
  {
  }

  lemma ForcedIs(dst: set<Incoming<AliasObject>>, isWeak: int)
    requires isWeak >= 0
    ensures Unified(dst, isWeak) == set i | i in Unified(dst, -1) :: Incoming(i.p, isWeak != 0)
  {
  }

  lemma ActivityKeepsExact(st: State, active: set<Record>)
    requires Exact(st) && active <= st.recs
    ensures Exact(st.(active := active))
  {
    assert forall r :: r in st.recs && r.to.target.Some? ==> Indexed(st, r) && Indexed(st.(active := active), r);
  }

  /** `a` with the records of `dead` deactivated, and those that go along. */
  ghost function Without(a: State, dead: set<Record>): State {
    a.(active := set r | r in a.active && !Falls(a, r, dead))
  }

  lemma NothingFalls(a: State)
    ensures Without(a, {}) == a
  {
  }

  lemma OneMoreFalls(a: State, done: set<Record>, x: Record)
    requires Exact(a) && x in a.recs
    ensures Flip(Without(a, done), x, false) == Without(a, done + {x})
  {
    forall r | r in a.recs ensures Falls(a, r, done + {x}) <==> Falls(a, r, done) || r in Shared(a, x) {
    }
  }

  /** The records for the pointees `done` are in. */
  ghost predicate Inserted(c: State, b: State, fid: int, done: set<Incoming<AliasObject>>, site: Option<Site>,
                           added: set<Record>) {
    && Fresh(c, fid, done, site, added)
    && b.recs == c.recs + added
    && (forall r :: r in c.recs ==> (r in b.reps <==> r in c.reps))
    && added <= b.active
    && (forall r :: r in c.recs ==>
        (r in b.active <==> r in c.active || (r in c.reps && exists n :: n in added && Alike(n, r))))
    && (forall r :: r in c.recs ==> (r in b.weak <==> r in c.weak))
    && (forall n :: n in added ==> (n in b.weak <==> exists i :: i in done && i.p == n.to && i.weak))
  }

  lemma NoneInsertedYet(c: State, fid: int, site: Option<Site>)
    ensures Inserted(c, c, fid, {}, site, {})
  {
  }

  lemma StillNoTwin(c: State, b: State, fid: int, done: set<Incoming<AliasObject>>, site: Option<Site>,
                    added: set<Record>, i: Incoming<AliasObject>)
    requires Inserted(c, b, fid, done, site, added) && !HasTwin(c, fid, i.p, site) && forall j :: j in done ==>
             j.p != i.p
    ensures !HasTwin(b, fid, i.p, site)
  {
  }

  lemma OneMoreFresh(c: State, fid: int, done: set<Incoming<AliasObject>>, site: Option<Site>, added: set<Record>,
                     i: Incoming<AliasObject>, n: Record)
    requires Fresh(c, fid, done, site, added) && !HasTwin(c, fid, i.p, site) && (forall j :: j in done ==> j.p != i.p)
    requires n !in c.recs && n.fid == fid && n.to == i.p && n.site == site
    ensures Fresh(c, fid, done + {i}, site, added + {n})
  {
    hide HasTwin;
    assert i in done + {i} && n in added + {n};
    forall j | j in done + {i} && !HasTwin(c, fid, j.p, site) ensures exists m :: m in added + {n} && m.to == j.p {
      if j != i {
        var m :| m in added && m.to == j.p;
        assert m in added + {n};
      }
    }
  }

  /** What the entry of `n` does to the older record `r`. */
  lemma EnteredAt(st: State, n: Record, weak: bool, r: Record)
    requires r != n
    ensures var b := Entered(st, n, weak);
            && (r in b.reps <==> r in st.reps)
            && (r in b.active <==> r in st.active || (r in st.reps && Alike(n, r)))
            && (r in b.weak <==> r in st.weak)
  {
  }

  lemma EnteredNew(c: State, b: State, n: Record, weak: bool)
    requires Exact(b) && Exact(c) && n !in b.recs
    ensures var d := Entered(b, n, weak);
            d.recs == b.recs + {n} && n in d.active && (n in d.weak <==> weak) && c.reps <= c.recs
  {
  }

  lemma OneMoreInserted(c: State, b: State, fid: int, done: set<Incoming<AliasObject>>, site: Option<Site>,
                        added: set<Record>, i: Incoming<AliasObject>, n: Record)
    requires Exact(b) && Exact(c) && Inserted(c, b, fid, done, site, added)
    requires !HasTwin(c, fid, i.p, site) && (forall j :: j in done ==> j.p != i.p)
    requires n !in b.recs && n.fid == fid && n.to == i.p && n.site == site
    ensures Inserted(c, Entered(b, n, i.weak), fid, done + {i}, site, added + {n})
  {
    hide HasTwin, Entered, Exact;
    OneMoreFresh(c, fid, done, site, added, i, n);
    EnteredNew(c, b, n, i.weak);
    var d := Entered(b, n, i.weak);
    assert forall m :: m in added ==> m.to != n.to;
    hide Fresh;
    forall m | m in added ensures m in d.active {
      EnteredAt(b, n, i.weak, m);
    }
    forall m | m in added + {n} ensures m in d.weak <==> exists j :: j in done + {i} && j.p == m.to && j.weak {
      if m == n {
        assert i in done + {i};
      } else {
        EnteredAt(b, n, i.weak, m);
        if j :| j in done && j.p == m.to && j.weak {
          assert j in done + {i};
        }
      }
    }
    forall r | r in c.recs
      ensures (r in d.reps <==> r in c.reps) && (r in d.weak <==> r in c.weak)
      ensures r in d.active <==> r in c.active || (r in c.reps && exists m :: m in added + {n} && Alike(m, r))
    {
      EnteredAt(b, n, i.weak, r);
      if r in c.reps && Alike(n, r) {
        assert n in added + {n};
      }
    }
  }

  lemma CondemnedAreRecords(prog: Program, a: State, b: State, fid: int, u: set<Incoming<AliasObject>>,
                            site: Option<Site>, toAdd: set<Incoming<AliasObject>>, dead: set<Record>)
    requires AllScanned(prog, a, b, fid, u, site, toAdd, dead)
    ensures dead <= b.recs && toAdd <= u
    ensures forall i :: i in toAdd ==> !HasTwin(Without(b, dead), fid, i.p, site)
  {
  }

  /** The phases of an update put together. */
  lemma UpdateIsWhole(prog: Program, a: State, b: State, c: State, d: State, fid: int, u: set<Incoming<AliasObject>>,
                      site: Option<Site>, toAdd: set<Incoming<AliasObject>>, dead: set<Record>, added: set<Record>)
    requires Exact(a) && AllScanned(prog, a, b, fid, u, site, toAdd, dead)
    requires c == Without(b, dead) && Inserted(c, d, fid, toAdd, site, added)
    ensures Updated(prog, a, d, fid, u, site, added, dead)
  {
    hide Condemned, Woken;
    assert Fresh(a, fid, u, site, added);
    forall n | n in added ensures n in d.weak <==> exists i :: i in u && i.p == n.to && i.weak {
      if i :| i in u && i.p == n.to && i.weak {
        assert i in toAdd;
      }
    }
  }

  /** The effect of the entry check that comes before an access of field `fid` at `site`. */
  ghost predicate Switched(a: State, b: State, fid: int, last: map<int, Entry>, site: Option<Site>) {
    if HasCtx(site) && fid in last && last[fid] != site.value.entry then
      Settling(a, b, fid, OfField(a.recs, fid), site.value.entry)
    else b == a
  }

  lemma EmptyUpdate(prog: Program, a: State, fid: int, isWeak: int, site: Option<Site>)
    ensures Updated(prog, a, a, fid, Unified({}, isWeak), site, {}, {})
  {
  }

  lemma EnteredIsFlipped(st: State, n: Record, weak: bool, active: set<Record>)
    requires st.active <= active <= Entered(st, n, weak).active
    ensures var b := Entered(st, n, weak); n in b.recs && Flip(b.(active := active), n, true) == b
  {
  }

  class AliasObject {
    const prog: Program
    var pointsTo: map<int, set<Record>>
    var pointsFrom: map<AliasObject, set<Record>>
    var lastPtoReset: map<int, Entry>
    var active: set<Record>
    var weak: set<Record>

    constructor (prog: Program)
      ensures this.prog == prog
      ensures pointsTo == map[] && pointsFrom == map[] && lastPtoReset == map[] && active == {} && weak == {}
    {
      this.prog := prog;
      pointsTo := map[];
      pointsFrom := map[];
      lastPtoReset := map[];
      active := {};
      weak := {};
    }

    ghost function Records(): set<Record>
      reads `pointsTo
    {
      set f, r | f in pointsTo && r in pointsTo[f] :: r
    }

    ghost function Reps(world: set<AliasObject>): set<Record>
      reads world`pointsFrom
    {
      set t, p | t in world && this in t.pointsFrom && p in t.pointsFrom[this] :: p
    }

    ghost function Snapshot(world: set<AliasObject>): State
      reads `pointsTo, `active, `weak, world`pointsFrom
    {
      State(Records(), Reps(world), active, weak)
    }

    /** Records are filed under their field and their target. */
    ghost predicate Filed(world: set<AliasObject>)
      reads `pointsTo, world`pointsFrom
    {
      && this in world
      && (forall f, r :: f in pointsTo && r in pointsTo[f] ==>
            r.fid == f && r.src == this && (r.to.target.Some? ==> r.to.target.value in world))
      && (forall t, p :: t in world && this in t.pointsFrom && p in t.pointsFrom[this] ==> p.to.target == Some(t))
    }

    ghost predicate Valid(world: set<AliasObject>)
      reads `pointsTo, `active, `weak, world`pointsFrom
    {
      Filed(world) && Exact(Snapshot(world))
    }

    /** The index of the other sources is as it was. */
    twostate predicate OthersKept(world: set<AliasObject>)
      reads world
    {
      forall t :: t in world ==> t.pointsFrom - {this} == old(t.pointsFrom - {this})
    }

    /** AliasObject::addPointsFrom, on the target. */
    method AddPointsFrom(srcObj: AliasObject, pto: Record) returns (ok: bool)
      modifies this`pointsFrom, srcObj`active
      ensures ok <==> pto.to.target == Some(this)
      ensures pointsFrom - {srcObj} == old(pointsFrom) - {srcObj}
      ensures !ok ==> pointsFrom == old(pointsFrom) && srcObj.active == old(srcObj.active)
      ensures ok ==>
                var had := if srcObj in old(pointsFrom) then old(pointsFrom[srcObj]) else {};
                && srcObj in pointsFrom
                && if exists p :: p in had && p.fid == pto.fid && p.to.dfid == pto.to.dfid then
                     && pointsFrom[srcObj] == had
                     && exists p :: p in had && p.fid == pto.fid && p.to.dfid == pto.to.dfid &&
                                    srcObj.active == old(srcObj.active) + {p}
                   else
                     pointsFrom[srcObj] == had + {pto} && srcObj.active == old(srcObj.active)
    {
      ok := pto.to.target == Some(this);
      if !ok {
        return;
      }
      if srcObj !in pointsFrom {
        pointsFrom := pointsFrom[srcObj := {pto}];
      } else if p :| p in pointsFrom[srcObj] && p.fid == pto.fid && p.to.dfid == pto.to.dfid {
        srcObj.active := srcObj.active + {p};
      } else {
        pointsFrom := pointsFrom[srcObj := pointsFrom[srcObj] + {pto}];
      }
    }

    /** The records the target keeps of `srcObj` for the field and target field of `pto`. */
    function Held(srcObj: AliasObject, pto: Record): set<Record>
      reads `pointsFrom
    {
      set p | srcObj in pointsFrom && p in pointsFrom[srcObj] && p.fid == pto.fid && p.to.dfid == pto.to.dfid
    }

    /** AliasObject::erasePointsFrom, on the target: a negative flag takes the records out, another one
        sets their activity. */
    method ErasePointsFrom(srcObj: AliasObject, pto: Record, act: int)
      modifies (if act < 0 then {this} else {})`pointsFrom, (if act < 0 then {} else {srcObj})`active
      ensures pointsFrom == if act < 0 && srcObj in old(pointsFrom)
                            then old(pointsFrom)[srcObj := old(pointsFrom[srcObj]) - old(Held(srcObj, pto))]
                            else old(pointsFrom)
      ensures srcObj.active == if act < 0 then old(srcObj.active)
                               else if act > 0 then old(srcObj.active) + old(Held(srcObj, pto))
                               else old(srcObj.active) - old(Held(srcObj, pto))
    {
      if srcObj !in pointsFrom {
        return;
      }
      var todo := pointsFrom[srcObj];
      ghost var hit, held := {}, Held(srcObj, pto);
      assert pointsFrom[srcObj] - {} == pointsFrom[srcObj];
      while todo != {}
        invariant srcObj in pointsFrom && todo <= old(pointsFrom[srcObj])
        invariant hit <= held && forall p :: p in held ==> (p in hit <==> p !in todo)
        invariant pointsFrom == old(pointsFrom)[srcObj := old(pointsFrom[srcObj]) - if act < 0 then hit else {}]
        invariant srcObj.active == if act < 0 then old(srcObj.active)
                                   else if act > 0 then old(srcObj.active) + hit else old(srcObj.active) - hit
        decreases todo
      {
        var p :| p in todo;
        if p.fid == pto.fid && p.to.dfid == pto.to.dfid {
          if act < 0 {
            assert old(pointsFrom[srcObj]) - hit - {p} == old(pointsFrom[srcObj]) - (hit + {p});
            pointsFrom := pointsFrom[srcObj := pointsFrom[srcObj] - {p}];
          } else {
            srcObj.active := if act > 0 then srcObj.active + {p} else srcObj.active - {p};
          }
          hit := hit + {p};
        }
        todo := todo - {p};
      }
      assert hit == held;
    }

    /** AliasObject::activateFieldPto: the flag is set through the index as well, so it reaches the
        one record the target keeps for the same field and pointee. */
    method ActivateFieldPto(ghost world: set<AliasObject>, pto: Record, activate: bool)
      requires Valid(world) && pto in Records()
      modifies `active
      ensures Snapshot(world) == Flip(old(Snapshot(world)), pto, activate)
      ensures Valid(world)
    {
      hide Filed, Exact, Records, Reps;
      ghost var st := Snapshot(world);
      SharedIsHeldByTarget(world, pto);
      FlipKeepsExact(st, pto, activate);
      active := if activate then active + {pto} else active - {pto};
      if pto.to.target.Some? {
        pto.to.target.value.ErasePointsFrom(this, pto, if activate then 1 else 0);
      }
      assert Snapshot(world) == Flip(st, pto, activate);
    }

    lemma SharedIsHeldByTarget(world: set<AliasObject>, pto: Record)
      requires Valid(world) && pto in Records()
      ensures (set p | p in Reps(world) && Alike(p, pto)) ==
              if pto.to.target.None? then {} else
              var t := pto.to.target.value;
              set p | p in (if this in t.pointsFrom then t.pointsFrom[this] else {}) && p.fid == pto.fid
                && p.to.dfid == pto.to.dfid
    {
    }

    ghost function LeftOver(reps: set<Record>, gone: set<Record>): set<Record> {
      set p | p in reps && forall r :: r in gone ==> !Alike(p, r)
    }

    lemma ErasedIs(world: set<AliasObject>, pto: Record, t: AliasObject)
      requires Filed(world) && t in world && pto.to.target == Some(t)
      ensures forall x, p :: x in world && this in x.pointsFrom && p in x.pointsFrom[this] ==>
                (Alike(p, pto) <==> x == t && p in t.Held(this, pto))
    {
    }

    /** All records like `pto` are taken out of the index. */
    method EraseOne(ghost world: set<AliasObject>, pto: Record)
      requires Filed(world) && pto in Records()
      modifies world`pointsFrom
      ensures Filed(world) && OthersKept(world) && Reps(world) == LeftOver(old(Reps(world)), {pto})
    {
      ghost var was := Reps(world);
      if pto.to.target.Some? {
        var t := pto.to.target.value;
        assert t in world;
        ErasedIs(world, pto, t);
        t.ErasePointsFrom(this, pto, -1);
        assert t.pointsFrom - {this} == old(t.pointsFrom) - {this};
        forall x, p | x in world
          ensures this in x.pointsFrom && p in x.pointsFrom[this] <==>
                  this in old(x.pointsFrom) && p in old(x.pointsFrom)[this] && !Alike(p, pto)
        {
        }
        forall p ensures p in Reps(world) <==> p in LeftOver(was, {pto}) {
          if p in LeftOver(was, {pto}) {
            var x :| x in world && this in old(x.pointsFrom) && p in old(x.pointsFrom)[this];
            assert this in x.pointsFrom && p in x.pointsFrom[this];
          }
          if p in Reps(world) {
            var x :| x in world && this in x.pointsFrom && p in x.pointsFrom[this];
            assert this in old(x.pointsFrom) && p in old(x.pointsFrom)[this];
          }
        }
      } else {
        assert LeftOver(was, {pto}) == was;
      }
    }

    lemma IsRecord(f: int, r: Record)
      requires f in pointsTo && r in pointsTo[f]
      ensures r in Records()
    {
    }

    lemma NothingLeft(st: State, gone: set<Record>)
      requires Exact(st) && st.recs == Records() && forall f, r :: f in pointsTo && r in pointsTo[f] ==> r in gone
      ensures LeftOver(st.reps, gone) == {}
    {
      forall p | p in st.reps ensures p in gone && Alike(p, p) {
        assert p in Records();
      }
    }

    static lemma HasMember(s: set<int>)
      ensures s == {} || exists x :: x in s
    {
      if forall x :: x !in s {
        assert s == {};
      }
    }

    /** The destructor: no target keeps a record of this object any longer, and the records of other
        objects stay. */
    method Dispose(ghost world: set<AliasObject>)
      requires Valid(world)
      modifies world`pointsFrom
      ensures Reps(world) == {} && OthersKept(world)
    {
      hide Exact, Filed, Reps, Records;
      ghost var was := Reps(world);
      ghost var gone: set<Record> := {};
      assert LeftOver(was, {}) == was;
      ghost var st := Snapshot(world);
      var fields := pointsTo.Keys;
      while fields != {}
        invariant fields <= pointsTo.Keys && Filed(world) && OthersKept(world) && Reps(world) == LeftOver(was, gone)
        invariant forall f, r :: f in pointsTo && f !in fields && r in pointsTo[f] ==> r in gone
        decreases fields
      {
        HasMember(fields);
        var f :| f in fields;
        var todo := pointsTo[f];
        while todo != {}
          invariant todo <= pointsTo[f] && Filed(world) && OthersKept(world) && Reps(world) == LeftOver(was, gone)
          invariant forall f', r :: f' in pointsTo && f' !in fields && r in pointsTo[f'] ==> r in gone
          invariant forall r :: r in pointsTo[f] && r !in todo ==> r in gone
          decreases todo
        {
          var r :| r in todo;
          IsRecord(f, r);
          EraseOne(world, r);
          assert LeftOver(LeftOver(was, gone), {r}) == LeftOver(was, gone + {r});
          gone, todo := gone + {r}, todo - {r};
        }
        fields := fields - {f};
      }
      NothingLeft(st, gone);
    }

    function Field(fid: int): set<Record>
      reads `pointsTo
    {
      if fid in pointsTo then pointsTo[fid] else {}
    }

    lemma FieldIs(world: set<AliasObject>, fid: int)
      requires Filed(world)
      ensures Field(fid) == OfField(Records(), fid)
    {
    }

    /** AliasObject::resetPtos: the analysis moves on to another top-level entry. */
    method ResetPtos(ghost world: set<AliasObject>, fid: int, entry: Entry)
      requires Valid(world) && Isolated(Snapshot(world), lastPtoReset)
      modifies `active, `lastPtoReset
      ensures Valid(world) && Isolated(Snapshot(world), lastPtoReset)
      ensures lastPtoReset == old(lastPtoReset)[fid := entry]
      ensures if fid !in old(lastPtoReset) || old(lastPtoReset)[fid] == entry then active == old(active)
              else Settling(old(Snapshot(world)), Snapshot(world), fid, Field(fid), entry)
    {
      hide Filed, Exact, Settling, Isolated;
      if fid !in lastPtoReset {
        lastPtoReset := lastPtoReset[fid := entry];
        FirstEntry(Snapshot(world), old(lastPtoReset), fid, entry);
      }
      if lastPtoReset[fid] == entry {
        return;
      }
      lastPtoReset := lastPtoReset[fid := entry];
      ghost var st := Snapshot(world);
      FieldIs(world, fid);
      NotSettledYet(st, fid, entry);
      if fid in pointsTo {
        SwitchField(world, fid, entry);
      }
      SettledIsIsolated(st, Snapshot(world), old(lastPtoReset), fid, entry);
    }

    /** The loop of resetPtos. */
    method SwitchField(ghost world: set<AliasObject>, fid: int, entry: Entry)
      requires Valid(world) && fid in pointsTo
      modifies `active
      ensures Valid(world) && Settling(old(Snapshot(world)), Snapshot(world), fid, Field(fid), entry)
    {
      hide Filed, Exact, Settling, Shared;
      FieldIs(world, fid);
      ghost var st := Snapshot(world);
      NotSettledYet(st, fid, entry);
      var todo := pointsTo[fid];
      assert pointsTo[fid] - todo == {};
      while todo != {}
        invariant todo <= pointsTo[fid] && Valid(world)
        invariant Settling(st, Snapshot(world), fid, pointsTo[fid] - todo, entry)
        decreases todo
      {
        var pto :| pto in todo;
        ghost var seen, b := pointsTo[fid] - todo, Snapshot(world);
        todo := todo - {pto};
        assert pointsTo[fid] - todo == seen + {pto};
        ResetOneSettles(st, b, fid, seen, pto, entry);
        if pto.site.Some? {
          if pto in active && HasCtx(pto.site) && pto.site.value.entry != entry {
            ActivateFieldPto(world, pto, false);
          } else if pto !in active && !HasCtx(pto.site) {
            ActivateFieldPto(world, pto, true);
          }
        }
        assert Snapshot(world) == ResetOne(b, pto, entry);
      }
      assert pointsTo[fid] - {} == pointsTo[fid];
    }

    /** The sites that stand in the way of older records. */
    function Blockers(fid: int): set<Site>
      reads `pointsTo, `active, `weak
    {
      set r | r in Field(fid) && r in active && r.site.Some? && r !in weak :: r.site.value
    }

    /** AliasObject::getLivePtos: the active records whose site arrives at `loc` around the sites of
        the strong active ones. */
    method GetLivePtos(fid: int, loc: Option<Site>) returns (ret: set<Record>)
      ensures ret == if loc.None? then {} else
              set r | r in Field(fid) && r in active && Arrives(prog, loc.value, r.site, Blockers(fid))
    {
      hide Arrives;
      ret := {};
      if fid !in pointsTo || loc.None? {
        return;
      }
      var blocklist := {};
      var todo := pointsTo[fid];
      while todo != {}
        invariant todo <= pointsTo[fid]
        invariant blocklist == set r | r in pointsTo[fid] - todo && r in active && r.site.Some?
                  && r !in weak :: r.site.value
        decreases todo
      {
        var pto :| pto in todo;
        if pto in active && pto.site.Some? && pto !in weak {
          blocklist := blocklist + {pto.site.value};
        }
        todo := todo - {pto};
      }
      assert pointsTo[fid] - {} == pointsTo[fid] && blocklist == Blockers(fid);
      todo := pointsTo[fid];
      while todo != {}
        invariant todo <= pointsTo[fid]
        invariant ret == set r | r in pointsTo[fid] - todo && r in active && Arrives(prog, loc.value, r.site, blocklist)
        decreases todo
      {
        var pto :| pto in todo;
        if pto in active && Arrives(prog, loc.value, pto.site, blocklist) {
          ret := ret + {pto};
        }
        todo := todo - {pto};
      }
    }

    /** One existing record, in the scan for one pointee. */
    method ScanRecord(ghost world: set<AliasObject>, e: Record, i: Incoming<AliasObject>, site: Option<Site>,
                      dup: bool, del: set<Record>)
      returns (d: bool, x: set<Record>)
      requires Valid(world) && e in Records()
      modifies `active, `weak
      ensures Valid(world)
      ensures (Snapshot(world), d, x) == ScanStep(prog, old(Snapshot(world)), dup, del, e, i, site)
    {
      hide Filed, Exact, Shared, Overrides;
      d, x := dup, del;
      if e in active && !i.weak {
        if Overrides(prog, site, e.site) {
          x := x + {e};
          return;
        }
      }
      if d || e.to != i.p || e.site != site {
        return;
      }
      d := true;
      if (e in weak) != i.weak {
        LessWeak(Snapshot(world), e);
        weak := weak - {e};
      }
      assert weak == if i.weak then old(weak) else old(weak) - {e};
      if e !in active {
        ActivateFieldPto(world, e, true);
      }
    }

    /** The first step of an update: one record per pointee. */
    method Unify(dst: set<Incoming<AliasObject>>, isWeak: int) returns (u: set<Incoming<AliasObject>>)
      ensures u == Unified(dst, isWeak)
    {
      u := {};
      var todo := dst;
      while todo != {}
        invariant todo <= dst && u == Unified(dst - todo, -1)
        decreases todo
      {
        var pto :| pto in todo;
        UnifiedStep(dst - todo, pto);
        assert dst - (todo - {pto}) == dst - todo + {pto};
        todo := todo - {pto};
        if t :| t in u && t.p == pto.p {
          if t.weak != pto.weak {
            u := u - {t} + {Incoming(t.p, false)};
          }
        } else {
          u := u + {pto};
        }
      }
      assert dst - {} == dst;
      if isWeak >= 0 {
        ForcedIs(dst, isWeak);
        u := set i | i in u :: Incoming(i.p, isWeak != 0);
      }
    }

    /** The inner loop of an update: the records of the field against one pointee. */
    method Scan(ghost world: set<AliasObject>, fid: int, i: Incoming<AliasObject>, site: Option<Site>, was: set<Record>)
      returns (dup: bool, del: set<Record>)
      requires Valid(world)
      modifies `active, `weak
      ensures Valid(world)
      ensures Scanned(prog, old(Snapshot(world)), Snapshot(world), fid, i, site, was, Field(fid), dup, del)
    {
      hide Filed, Exact, Scanned, ScanStep;
      FieldIs(world, fid);
      ghost var a := Snapshot(world);
      dup, del := false, was;
      NotScannedYet(prog, a, fid, i, site, was);
      var todo := if fid in pointsTo then pointsTo[fid] else {};
      assert Field(fid) - todo == {};
      while todo != {}
        invariant todo <= Field(fid) && Valid(world)
        invariant Scanned(prog, a, Snapshot(world), fid, i, site, was, Field(fid) - todo, dup, del)
        decreases todo
      {
        var e :| e in todo;
        ghost var seen := Field(fid) - todo;
        todo := todo - {e};
        assert Field(fid) - todo == seen + {e};
        ScanStepScans(prog, a, Snapshot(world), fid, i, site, was, seen, dup, del, e);
        dup, del := ScanRecord(world, e, i, site, dup, del);
      }
      assert Field(fid) - {} == Field(fid);
    }

    /** The outer loop: every pointee against the records of the field. */
    method ScanAll(ghost world: set<AliasObject>, fid: int, u: set<Incoming<AliasObject>>, site: Option<Site>)
      returns (toAdd: set<Incoming<AliasObject>>, toDel: set<Record>)
      requires Valid(world) && (forall i, j :: i in u && j in u && i.p == j.p ==> i == j)
      modifies `active, `weak
      ensures Valid(world)
      ensures AllScanned(prog, old(Snapshot(world)), Snapshot(world), fid, u, site, toAdd, toDel)
    {
      hide Filed, Exact, Scanned, AllScanned;
      FieldIs(world, fid);
      ghost var a := Snapshot(world);
      toAdd, toDel := {}, {};
      var todo := u;
      assert u - todo == {};
      NoneScannedYet(prog, a, fid, site);
      while todo != {}
        invariant todo <= u && Valid(world)
        invariant AllScanned(prog, a, Snapshot(world), fid, u - todo, site, toAdd, toDel)
        decreases todo
      {
        var i :| i in todo;
        ghost var done, b, was := u - todo, Snapshot(world), toDel;
        todo := todo - {i};
        assert u - todo == done + {i};
        var dup;
        dup, toDel := Scan(world, fid, i, site, toDel);
        OneMoreScanned(prog, a, b, Snapshot(world), fid, done, i, site, toAdd, was, dup, toDel);
        if !dup {
          toAdd := toAdd + {i};
        }
      }
      assert u - {} == u;
    }

    /** The index of every target names that target. */
    ghost predicate IndexFiled(world: set<AliasObject>)
      reads world`pointsFrom
    {
      forall t, p :: t in world && this in t.pointsFrom && p in t.pointsFrom[this] ==> p.to.target == Some(t)
    }

    /** What target `t` keeps for this source. */
    ghost function From(t: AliasObject): set<Record>
      reads t`pointsFrom
    {
      if this in t.pointsFrom then t.pointsFrom[this] else {}
    }

    /** The call of addPointsFrom on the target of a new record. */
    method EnlistAt(t: AliasObject, n: Record)
      requires n.to.target == Some(t) && forall p :: p in From(t) ==> p.to.target == Some(t)
      modifies `active, t`pointsFrom
      ensures t.pointsFrom - {this} == old(t.pointsFrom) - {this}
      ensures From(t) == if exists p :: p in old(From(t)) && Alike(p, n) then old(From(t)) else old(From(t)) + {n}
      ensures old(active) <= active <= old(active) + set p | p in From(t) && Alike(p, n)
    {
      var ok := t.AddPointsFrom(this, n);
    }

    /** What each target keeps for this source. */
    ghost function Index(world: set<AliasObject>): map<AliasObject, set<Record>>
      reads world`pointsFrom
    {
      map t | t in world :: From(t)
    }

    static ghost function Kept(ix: map<AliasObject, set<Record>>): set<Record> {
      set t, p | t in ix && p in ix[t] :: p
    }

    static ghost predicate Sorted(ix: map<AliasObject, set<Record>>) {
      forall t, p {:trigger p in ix[t]} :: t in ix && p in ix[t] ==> p.to.target == Some(t)
    }

    lemma IndexIs(world: set<AliasObject>)
      ensures Index(world).Keys == world && forall t :: t in world ==> Index(world)[t] == From(t)
      ensures Reps(world) == Kept(Index(world)) && (IndexFiled(world) <==> Sorted(Index(world)))
    {
      var ix := Index(world);
      assert forall t :: t in world ==> t in ix && ix[t] == From(t);
    }

    static lemma OneMoreKept(ix: map<AliasObject, set<Record>>, iy: map<AliasObject, set<Record>>, t: AliasObject,
                             n: Record)
      requires Sorted(ix) && t in ix && n.to.target == Some(t)
      requires iy == ix[t := if exists p :: p in ix[t] && Alike(p, n) then ix[t] else ix[t] + {n}]
      ensures Sorted(iy)
      ensures Kept(iy) == if exists p :: p in Kept(ix) && Alike(p, n) then Kept(ix) else Kept(ix) + {n}
      ensures forall p :: p in iy[t] && Alike(p, n) ==> p in Kept(iy)
    {
      assert forall x, p :: x in iy && p in iy[x] ==> (x in ix && p in ix[x]) || (x == t && p == n);
      assert forall x, p :: x in ix && p in ix[x] ==> p in iy[x];
    }

    /** A new record is entered in the index of its target. */
    method Enlist(ghost world: set<AliasObject>, n: Record)
      requires IndexFiled(world) && (n.to.target.Some? ==> n.to.target.value in world)
      modifies `active, world`pointsFrom
      ensures IndexFiled(world) && OthersKept(world)
      ensures Reps(world) == if n.to.target.None? || exists p :: p in old(Reps(world)) && Alike(p, n)
              then old(Reps(world))
                             else old(Reps(world)) + {n}
      ensures old(active) <= active <= old(active) + set p | p in Reps(world) && Alike(p, n)
    {
      if n.to.target.None? {
        return;
      }
      hide Reps, Kept, Sorted, Index, IndexFiled, Alike;
      var t := n.to.target.value;
      IndexIs(world);
      ghost var ix := Index(world);
      FiledAt(ix, t);
      EnlistAt(t, n);
      IndexIs(world);
      assert Index(world) == ix[t := From(t)];
      OneMoreKept(ix, Index(world), t, n);
    }

    static lemma FiledAt(ix: map<AliasObject, set<Record>>, t: AliasObject)
      requires Sorted(ix) && t in ix
      ensures forall p :: p in ix[t] ==> p.to.target == Some(t)
    {
    }

    /** The new record joins the records of its field. */
    method File(ghost world: set<AliasObject>, n: Record, isWeak: bool)
      requires Filed(world) && n.src == this && (n.to.target.Some? ==> n.to.target.value in world)
      modifies `pointsTo, `weak
      ensures Filed(world) && Records() == old(Records()) + {n} && weak == if isWeak then old(weak) + {n} else old(weak)
    {
      pointsTo := pointsTo[n.fid := (if n.fid in pointsTo then pointsTo[n.fid] else {}) + {n}];
      if isWeak {
        weak := weak + {n};
      }
      assert n.fid in pointsTo && n in pointsTo[n.fid];
      forall r | r in old(Records()) ensures r in Records() {
        var f :| f in old(pointsTo) && r in old(pointsTo)[f];
        assert f in pointsTo && r in pointsTo[f];
      }
    }

    lemma FiledSplit(world: set<AliasObject>)
      requires Filed(world)
      ensures IndexFiled(world)
    {
    }

    /** A new record is made, filed and indexed; its activity is not settled yet. */
    method Enter(ghost world: set<AliasObject>, fid: int, i: Incoming<AliasObject>, site: Option<Site>)
      returns (n: Record)
      requires Valid(world) && (i.p.target.Some? ==> i.p.target.value in world)
      requires !HasTwin(Snapshot(world), fid, i.p, site)
      modifies `pointsTo, `active, `weak, world`pointsFrom
      ensures fresh(n) && n.fid == fid && n.to == i.p && n.site == site
      ensures Filed(world) && OthersKept(world) && n !in old(Records())
      ensures Snapshot(world) == Entered(old(Snapshot(world)), n, i.weak).(active := active)
      ensures old(active) <= active <= Entered(old(Snapshot(world)), n, i.weak).active
    {
      hide Exact, HasTwin, Reps;
      assert forall r :: r in Records() ==> allocated(r);
      hide Records;
      ghost var st := Snapshot(world);
      n := new Record(this, fid, i.p, site);
      assert n !in st.recs;
      File(world, n, i.weak);
      FiledSplit(world);
      Enlist(world, n);
    }

    /** The last loop of an update, for one new record. */
    method Insert(ghost world: set<AliasObject>, fid: int, i: Incoming<AliasObject>, site: Option<Site>)
      returns (n: Record)
      requires Valid(world) && (i.p.target.Some? ==> i.p.target.value in world)
      requires !HasTwin(Snapshot(world), fid, i.p, site)
      modifies `pointsTo, `active, `weak, world`pointsFrom
      ensures fresh(n) && n.fid == fid && n.to == i.p && n.site == site
      ensures Valid(world) && OthersKept(world)
      ensures n !in old(Records()) && Snapshot(world) == Entered(old(Snapshot(world)), n, i.weak)
    {
      hide Exact, HasTwin, Records, Reps, Filed, Entered, Shared;
      ghost var st := Snapshot(world);
      n := Enter(world, fid, i, site);
      EnteredKeepsExact(st, n, i.weak);
      ActivityKeepsExact(Entered(st, n, i.weak), active);
      EnteredIsFlipped(st, n, i.weak, active);
      ActivateFieldPto(world, n, true);
    }

    /** The loop of an update that deactivates what is overridden. */
    method Deactivate(ghost world: set<AliasObject>, toDel: set<Record>)
      requires Valid(world) && toDel <= Records()
      modifies `active
      ensures Valid(world)
      ensures Snapshot(world) == Without(old(Snapshot(world)), toDel)
    {
      hide Exact, Filed, Falls, Shared;
      ghost var a := Snapshot(world);
      var todo := toDel;
      assert toDel - todo == {};
      NothingFalls(a);
      while todo != {}
        invariant todo <= toDel && Valid(world) && Snapshot(world) == Without(a, toDel - todo)
        decreases todo
      {
        var x :| x in todo;
        ghost var done := toDel - todo;
        todo := todo - {x};
        assert toDel - todo == done + {x};
        OneMoreFalls(a, done, x);
        ActivateFieldPto(world, x, false);
      }
      assert toDel - {} == toDel;
    }

    /** The loop of an update that inserts what is new. */
    method InsertAll(ghost world: set<AliasObject>, fid: int, toAdd: set<Incoming<AliasObject>>, site: Option<Site>)
      returns (added: set<Record>)
      requires Valid(world) && (forall i :: i in toAdd && i.p.target.Some? ==> i.p.target.value in world)
      requires forall i :: i in toAdd ==> !HasTwin(Snapshot(world), fid, i.p, site)
      requires forall i, j :: i in toAdd && j in toAdd && i.p == j.p ==> i == j
      modifies `pointsTo, `active, `weak, world`pointsFrom
      ensures fresh(added) && Valid(world) && OthersKept(world)
      ensures Inserted(old(Snapshot(world)), Snapshot(world), fid, toAdd, site, added)
    {
      hide Exact, Filed, HasTwin, Inserted, Reps, Records;
      ghost var c := Snapshot(world);
      var todo := toAdd;
      added := {};
      assert toAdd - todo == {};
      NoneInsertedYet(c, fid, site);
      while todo != {}
        invariant todo <= toAdd && Valid(world) && fresh(added) && OthersKept(world)
        invariant Inserted(c, Snapshot(world), fid, toAdd - todo, site, added)
        decreases todo
      {
        var i :| i in todo;
        ghost var done, b := toAdd - todo, Snapshot(world);
        todo := todo - {i};
        assert toAdd - todo == done + {i};
        StillNoTwin(c, b, fid, done, site, added, i);
        var n := Insert(world, fid, i, site);
        OneMoreInserted(c, b, fid, done, site, added, i, n);
        added := added + {n};
      }
      assert toAdd - {} == toAdd;
    }

    /** AliasObject::updateFieldPointsTo_do: field `fid` is written at `site`. */
    method UpdateFieldPointsToDo(ghost world: set<AliasObject>, fid: int, dst: set<Incoming<AliasObject>>,
                                 site: Option<Site>, isWeak: int)
      returns (fptos: set<Record>, ghost dead: set<Record>)
      requires Valid(world) && Isolated(Snapshot(world), lastPtoReset)
      requires forall d :: d in dst && d.p.target.Some? ==> d.p.target.value in world
      requires HasCtx(site) ==> fid in lastPtoReset && lastPtoReset[fid] == site.value.entry
      modifies `pointsTo, `active, `weak, world`pointsFrom
      ensures Valid(world) && Isolated(Snapshot(world), lastPtoReset) && OthersKept(world) && fresh(fptos)
      ensures Updated(prog, old(Snapshot(world)), Snapshot(world), fid, Unified(dst, isWeak), site, fptos, dead)
    {
      hide Exact, Filed, HasTwin, AllScanned, Updated, Inserted, Condemned, Reps, Records, Isolated;
      ghost var a := Snapshot(world);
      var u := Unify(dst, isWeak);
      var toAdd, toDel := ScanAll(world, fid, u, site);
      ghost var b := Snapshot(world);
      CondemnedAreRecords(prog, a, b, fid, u, site, toAdd, toDel);
      Deactivate(world, toDel);
      ghost var c := Snapshot(world);
      fptos := InsertAll(world, fid, toAdd, site);
      dead := toDel;
      UpdateIsWhole(prog, a, b, c, Snapshot(world), fid, u, site, toAdd, toDel, fptos);
      UpdateKeepsIsolation(prog, a, Snapshot(world), fid, u, site, fptos, dead, lastPtoReset);
    }

    /** AliasObject::updateFieldPointsTo on the object that holds the field. */
    method UpdateFieldPointsTo(ghost world: set<AliasObject>, fid: int, dst: set<Incoming<AliasObject>>,
                               site: Option<Site>, isWeak: int)
      returns (fptos: set<Record>, ghost mid: State, ghost dead: set<Record>)
      requires Valid(world) && Isolated(Snapshot(world), lastPtoReset)
      requires forall d :: d in dst && d.p.target.Some? ==> d.p.target.value in world
      modifies `pointsTo, `active, `weak, `lastPtoReset, world`pointsFrom
      ensures Valid(world) && Isolated(Snapshot(world), lastPtoReset) && OthersKept(world) && fresh(fptos)
      ensures lastPtoReset == if dst != {} && HasCtx(site) then old(lastPtoReset)[fid := site.value.entry]
              else old(lastPtoReset)
      ensures Switched(old(Snapshot(world)), mid, fid, old(lastPtoReset), if dst == {} then None else site)
      ensures Updated(prog, mid, Snapshot(world), fid, Unified(dst, isWeak), site, fptos, dead)
    {
      hide Exact, Filed, Updated, Reps, Records, Isolated, Settling;
      fptos, dead, mid := {}, {}, Snapshot(world);
      if dst == {} {
        EmptyUpdate(prog, mid, fid, isWeak, site);
        return;
      }
      if HasCtx(site) {
        ghost var a := Snapshot(world);
        ResetPtos(world, fid, site.value.entry);
        FieldIs(world, fid);
      }
      mid := Snapshot(world);
      fptos, dead := UpdateFieldPointsToDo(world, fid, dst, site, isWeak);
    }

    /** The part of AliasObject::fetchPointsToObjects that reads the records of a field. */
    method FetchLive(ghost world: set<AliasObject>, fid: int, loc: Option<Site>) returns (ret: set<Record>)
      requires Valid(world) && Isolated(Snapshot(world), lastPtoReset)
      modifies `active, `lastPtoReset
      ensures Valid(world) && Isolated(Snapshot(world), lastPtoReset)
      ensures lastPtoReset == if HasCtx(loc) then old(lastPtoReset)[fid := loc.value.entry] else old(lastPtoReset)
      ensures Switched(old(Snapshot(world)), Snapshot(world), fid, old(lastPtoReset), loc)
      ensures ret == if loc.None? then {} else
              set r | r in Field(fid) && r in active && Arrives(prog, loc.value, r.site, Blockers(fid))
      // nothing private to another entry is visible
      ensures HasCtx(loc) ==> forall r :: r in ret ==>
              exists m :: m in Field(fid) && Alike(m, r) && !Foreign(m, loc.value.entry)
    {
      hide Exact, Filed, Reps, Records, Settling, Arrives;
      if HasCtx(loc) {
        ResetPtos(world, fid, loc.value.entry);
      }
      FieldIs(world, fid);
      ret := GetLivePtos(fid, loc);
      if HasCtx(loc) {
        forall r | r in ret ensures exists m :: m in Field(fid) && Alike(m, r) && !Foreign(m, loc.value.entry) {
          var m :| m in Records() && Alike(m, r) && !Foreign(m, lastPtoReset[r.fid]);
          assert m in Field(fid);
        }
      }
    }
  }

  // ---- runs over several objects -----------------------------------------------------------------

  datatype Op =
    | Store(o: AliasObject, fid: int, dst: set<Incoming<AliasObject>>, site: Option<Site>, isWeak: int)
    | Load(o: AliasObject, fid: int, loc: Option<Site>)

  ghost predicate Sane(world: set<AliasObject>)
    reads world
  {
    forall o :: o in world ==> o.Valid(world) && Isolated(o.Snapshot(world), o.lastPtoReset)
  }

  /** The fields of an object as a value. */
  datatype Fields = Fields(pointsTo: map<int, set<Record>>, pointsFrom: map<AliasObject, set<Record>>,
                           lastPtoReset: map<int, Entry>, active: set<Record>, weak: set<Record>)

  type View = map<AliasObject, Fields>

  ghost function ViewOf(world: set<AliasObject>): View
    reads world
  {
    map o | o in world :: Fields(o.pointsTo, o.pointsFrom, o.lastPtoReset, o.active, o.weak)
  }

  ghost predicate Good(v: View, x: AliasObject)
    requires x in v
  {
    && (forall f, r :: f in v[x].pointsTo && r in v[x].pointsTo[f] ==>
          r.fid == f && r.src == x && (r.to.target.Some? ==> r.to.target.value in v))
    && (forall t, p :: t in v && x in v[t].pointsFrom && p in v[t].pointsFrom[x] ==> p.to.target == Some(t))
    && Exact(Seen(v, x)) && Isolated(Seen(v, x), v[x].lastPtoReset)
  }

  ghost function Seen(v: View, x: AliasObject): State
    requires x in v
  {
    State(set f, r | f in v[x].pointsTo && r in v[x].pointsTo[f] :: r,
          set t, p | t in v && x in v[t].pointsFrom && p in v[t].pointsFrom[x] :: p, v[x].active, v[x].weak)
  }

  lemma GoodIs(world: set<AliasObject>, x: AliasObject)
    requires x in world
    ensures Good(ViewOf(world), x) <==> x.Valid(world) && Isolated(x.Snapshot(world), x.lastPtoReset)
  {
    hide Exact, Isolated;
    var v := ViewOf(world);
    assert Seen(v, x).recs == x.Records();
    forall p ensures p in Seen(v, x).reps <==> p in x.Reps(world) {
      if p in x.Reps(world) {
        var t :| t in world && x in t.pointsFrom && p in t.pointsFrom[x];
        assert t in v && x in v[t].pointsFrom && p in v[t].pointsFrom[x];
      }
    }
    assert Seen(v, x) == x.Snapshot(world) && v[x].lastPtoReset == x.lastPtoReset;
    assert v.Keys == world;
    if x.Filed(world) {
      forall t, p | t in v && x in v[t].pointsFrom && p in v[t].pointsFrom[x] ensures p.to.target == Some(t) {
        assert x in t.pointsFrom && p in t.pointsFrom[x];
      }
    }
    if Good(v, x) {
      forall t, p | t in world && x in t.pointsFrom && p in t.pointsFrom[x] ensures p.to.target == Some(t) {
        assert x in v[t].pointsFrom && p in v[t].pointsFrom[x];
      }
    }
  }

  /** An object that is not the source of an operation stays good. */
  lemma StillGood(v: View, w: View, o: AliasObject, x: AliasObject)
    requires v.Keys == w.Keys && x in v && x != o && Good(v, x)
    requires w[x].(pointsFrom := v[x].pointsFrom) == v[x]
    requires forall t :: t in v ==> w[t].pointsFrom - {o} == v[t].pointsFrom - {o}
    ensures Good(w, x)
  {
    hide Exact, Isolated;
    forall t | t in v
      ensures (x in w[t].pointsFrom <==> x in v[t].pointsFrom) && (x in v[t].pointsFrom ==>
                                                                   w[t].pointsFrom[x] == v[t].pointsFrom[x])
    {
      assert x in w[t].pointsFrom <==> x in w[t].pointsFrom - {o};
      assert x in v[t].pointsFrom <==> x in v[t].pointsFrom - {o};
      if x in v[t].pointsFrom {
        assert w[t].pointsFrom[x] == (w[t].pointsFrom - {o})[x];
      }
    }
    assert Seen(w, x).reps == Seen(v, x).reps;
  }

  lemma SaneIs(world: set<AliasObject>)
    ensures Sane(world) <==> forall x :: x in world ==> Good(ViewOf(world), x)
  {
    hide Good, Exact, Isolated;
    forall x | x in world ensures Good(ViewOf(world), x) <==>
      x.Valid(world) && Isolated(x.Snapshot(world), x.lastPtoReset) {
      GoodIs(world, x);
    }
  }

  /** One operation of the analysis. */
  method Apply(ghost world: set<AliasObject>, op: Op)
    requires Sane(world) && op.o in world
    requires op.Store? ==> forall d :: d in op.dst && d.p.target.Some? ==> d.p.target.value in world
    modifies world
    ensures Sane(world)
  {
    hide Exact, Isolated, Settling, Updated, Switched, Good;
    ghost var v := ViewOf(world);
    SaneIs(world);
    var o := op.o;
    if op.Store? {
      var fptos;
      ghost var mid, dead;
      fptos, mid, dead := o.UpdateFieldPointsTo(world, op.fid, op.dst, op.site, op.isWeak);
    } else {
      var ret := o.FetchLive(world, op.fid, op.loc);
    }
    GoodIs(world, o);
    forall x | x in world && x != o ensures Good(ViewOf(world), x) {
      StillGood(v, ViewOf(world), o, x);
    }
    SaneIs(world);
  }

  /** Any run keeps every object in order: exact indexes, and entries isolated from each other. */
  method Run(ghost world: set<AliasObject>, ops: seq<Op>)
    requires Sane(world)
    requires forall op :: op in ops ==>
             op.o in world && (op.Store? ==> forall d :: d in op.dst && d.p.target.Some? ==> d.p.target.value in world)
    modifies world
    ensures Sane(world)
  {
    hide Sane;
    for i := 0 to |ops|
      invariant Sane(world)
    {
      assert ops[i] in ops;
      Apply(world, ops[i]);
    }
  }

  // ---- a store that loses its own record ---------------------------------------------------------

  /** A do-while loop: control enters at 1, goes on to 2, and from there back or out to 3. */
  function LoopGraph(): Graph {
    Graph(0, map[0 := {1}, 1 := {2}, 2 := {1, 3}])
  }

  lemma LoopGraphFacts(prog: Program)
    requires prog(0) == LoopGraph()
    ensures Overrides(prog, Some(At(0, 2)), Some(At(0, 1))) && !Overrides(prog, Some(At(0, 1)), Some(At(0, 2)))
  {
    var g := LoopGraph();
    PostDomMeaning(g, 2, 1);
    forall p | LeavesThrough(g, p, 1) ensures 2 in p {
      assert g.Succ(1) == {2};
      assert |p| > 1 && p[1] == 2;
    }
    PostDomMeaning(g, 1, 2);
    var p := [2, 3];
    assert g.Succ(2) == {1, 3} && g.Succ(3) == {};
    assert LeavesThrough(g, p, 2) && 1 !in p;
  }

  /** The flags of a field after some stores: `z` is the record of the first pointee, `d` and `q` are those
      of the other one, `d` the one its target keeps. */
  ghost predicate Holds(st: State, z: Record, d: Record, q: Record, was: Pointee<AliasObject>, p: Pointee<AliasObject>,
                        active: set<Record>) {
    && st.recs == {z, d, q} && st.reps == {z, d} && st.active == active
    && z.fid == 0 && z.to == was && z.site == Some(At(0, 1))
    && (d == z || (d.fid == 0 && d.to == p && d.site == Some(At(0, 2))))
    && (q == d || (q.fid == 0 && q.to == p && q.site == Some(At(0, 1))))
  }

  lemma FirstStore(prog: Program, a: State, b: State, was: Pointee<AliasObject>, p: Pointee<AliasObject>,
                   added: set<Record>, dead: set<Record>) returns (z: Record)
    requires a == State({}, {}, {}, {}) && Exact(b) && was.target.Some?
    requires Updated(prog, a, b, 0, {Incoming(was, false)}, Some(At(0, 1)), added, dead)
    ensures Holds(b, z, z, z, was, p, {z})
  {
    hide Overrides;
    var i := Incoming(was, false);
    assert i in {i} && !HasTwin(a, 0, was, Some(At(0, 1)));
    z :| z in added && z.to == was;
    assert added == {z};
    assert Indexed(b, z);
  }

  lemma SecondStore(prog: Program, a: State, b: State, was: Pointee<AliasObject>, p: Pointee<AliasObject>,
                    added: set<Record>, dead: set<Record>, z: Record) returns (d: Record)
    requires Holds(a, z, z, z, was, p, {z}) && Exact(a) && Exact(b) && was != p && p.target.Some?
    requires Overrides(prog, Some(At(0, 2)), Some(At(0, 1)))
    requires Updated(prog, a, b, 0, {Incoming(p, false)}, Some(At(0, 2)), added, dead)
    ensures Holds(b, z, d, d, was, p, {d}) && d != z
  {
    hide Overrides;
    var i := Incoming(p, false);
    assert i in {i} && Strong({i}) && !HasTwin(a, 0, p, Some(At(0, 2)));
    d :| d in added && d.to == p;
    assert added == {d};
    assert Indexed(b, d);
    assert z in dead && Falls(a, z, dead);
  }

  lemma ThirdStore(prog: Program, a: State, b: State, was: Pointee<AliasObject>, p: Pointee<AliasObject>,
                   added: set<Record>, dead: set<Record>, z: Record, d: Record) returns (q: Record)
    requires Holds(a, z, d, d, was, p, {d}) && Exact(a) && Exact(b) && was != p && d != z
    requires !Overrides(prog, Some(At(0, 1)), Some(At(0, 2)))
    requires Updated(prog, a, b, 0, {Incoming(p, false)}, Some(At(0, 1)), added, dead)
    ensures Holds(b, z, d, q, was, p, {d, q}) && q != d && q != z
  {
    hide Overrides;
    var i := Incoming(p, false);
    assert i in {i} && !HasTwin(a, 0, p, Some(At(0, 1)));
    q :| q in added && q.to == p;
    assert added == {q};
    assert b.recs == {z, d, q} && d in b.reps && Alike(d, q);
    assert !Falls(a, d, dead);
    assert z !in Woken(a, 0, Pointees({i}), Some(At(0, 1)));
  }

  lemma FourthStore(prog: Program, a: State, b: State, was: Pointee<AliasObject>, p: Pointee<AliasObject>,
                    added: set<Record>, dead: set<Record>, z: Record, d: Record, q: Record)
    requires Holds(a, z, d, q, was, p, {d, q}) && Exact(a) && Exact(b) && was != p && d != z && q != d && q != z
    requires Overrides(prog, Some(At(0, 2)), Some(At(0, 1)))
    requires Updated(prog, a, b, 0, {Incoming(p, false)}, Some(At(0, 2)), added, dead)
    ensures b.active == {} && d in b.recs && d.fid == 0 && d.to == p && d.site == Some(At(0, 2))
  {
    hide Overrides;
    var i := Incoming(p, false);
    assert i in {i} && Strong({i}) && HasTwin(a, 0, p, Some(At(0, 2)));
    assert added == {};
    assert q in dead && Falls(a, q, dead) && Falls(a, d, dead);
    assert z !in Woken(a, 0, Pointees({i}), Some(At(0, 2)));
  }

  /** The object is in order, and its field 0 has not been used under other entries than 0. */
  ghost predicate Open(world: set<AliasObject>, o: AliasObject)
    reads o, world
  {
    o.Valid(world) && Isolated(o.Snapshot(world), o.lastPtoReset) && (0 in o.lastPtoReset ==> o.lastPtoReset[0] == 0)
  }

  /** A strong store of one pointee under entry 0. */
  method StoreOne(ghost world: set<AliasObject>, o: AliasObject, p: Pointee<AliasObject>, loc: Loc)
    returns (fptos: set<Record>, ghost dead: set<Record>)
    requires Open(world, o) && (p.target.Some? ==> p.target.value in world)
    modifies o, world`pointsFrom
    ensures Open(world, o) && Exact(o.Snapshot(world))
    ensures Updated(o.prog, old(o.Snapshot(world)), o.Snapshot(world), 0, {Incoming(p, false)}, Some(At(0, loc)), fptos,
                    dead)
    ensures IsStep(o.prog, old(o.Snapshot(world)), o.Snapshot(world), (loc, p))
  {
    hide Unified, Exact, Updated, Isolated, Settling, IsStep;
    ghost var st, mid := o.Snapshot(world), o.Snapshot(world);
    UnifiedOne(p);
    fptos, mid, dead := o.UpdateFieldPointsTo(world, 0, {Incoming(p, false)}, Some(At(0, loc)), -1);
    assert mid == st;
    StepIs(o.prog, mid, o.Snapshot(world), (loc, p), fptos, dead);
  }

  /** The stores of a program under entry 0 to one field, and the states they lead through. */
  ghost predicate IsRun(prog: Program, run: seq<State>, stores: seq<(Loc, Pointee<AliasObject>)>) {
    && |run| == |stores| + 1 && run[0] == State({}, {}, {}, {})
    && forall i :: 0 <= i < |stores| ==> IsStep(prog, run[i], run[i + 1], stores[i])
  }

  ghost predicate IsStep(prog: Program, a: State, b: State, store: (Loc, Pointee<AliasObject>)) {
    exists added, dead :: added <= b.recs && dead <= a.recs
                          && Updated(prog, a, b, 0, {Incoming(store.1, false)}, Some(At(0, store.0)), added, dead)
  }

  lemma StepIs(prog: Program, a: State, b: State, store: (Loc, Pointee<AliasObject>), added: set<Record>,
               dead: set<Record>)
    requires Updated(prog, a, b, 0, {Incoming(store.1, false)}, Some(At(0, store.0)), added, dead)
    ensures IsStep(prog, a, b, store)
  {
    assert added <= b.recs && dead <= a.recs;
  }

  /** The stores of two rounds through the loop, which stores `p` at its end, and at its beginning what it
      had at the end of the round before. */
  function TwoRounds(was: Pointee<AliasObject>, p: Pointee<AliasObject>): seq<(Loc, Pointee<AliasObject>)> {
    [(1, was), (2, p), (1, p), (2, p)]
  }

  lemma FourSteps(prog: Program, run: seq<State>, was: Pointee<AliasObject>, p: Pointee<AliasObject>)
    requires |run| == 5 && run[0] == State({}, {}, {}, {})
    requires IsStep(prog, run[0], run[1], (1, was)) && IsStep(prog, run[1], run[2], (2, p))
    requires IsStep(prog, run[2], run[3], (1, p)) && IsStep(prog, run[3], run[4], (2, p))
    ensures IsRun(prog, run, TwoRounds(was, p))
  {
    hide IsStep;
  }

  /** The second round, in which both stores store `p`. */
  method SecondRound(ghost world: set<AliasObject>, o: AliasObject, ghost was: Pointee<AliasObject>,
                     p: Pointee<AliasObject>, ghost z: Record, ghost d: Record)
    returns (ghost s3: State)
    requires Open(world, o) && (p.target.Some? ==> p.target.value in world) && was != p && d != z
    requires Exact(o.Snapshot(world)) && Holds(o.Snapshot(world), z, d, d, was, p, {d})
    requires Overrides(o.prog, Some(At(0, 2)), Some(At(0, 1))) && !Overrides(o.prog, Some(At(0, 1)), Some(At(0, 2)))
    modifies o, world`pointsFrom
    ensures IsStep(o.prog, old(o.Snapshot(world)), s3, (1, p)) && IsStep(o.prog, s3, o.Snapshot(world), (2, p))
    ensures o.Snapshot(world).active == {}
    ensures d in o.Snapshot(world).recs && d.fid == 0 && d.to == p && d.site == Some(At(0, 2))
  {
    hide *;
    ghost var s2 := o.Snapshot(world);
    var f;
    ghost var x;
    f, x := StoreOne(world, o, p, 1);
    s3 := o.Snapshot(world);
    ghost var q := ThirdStore(o.prog, s2, s3, was, p, f, x, z, d);
    f, x := StoreOne(world, o, p, 2);
    FourthStore(o.prog, s3, o.Snapshot(world), was, p, f, x, z, d, q);
  }

  /** When a loop is visited in two rounds or more, the last store of the last round can leave the field
      without an active record: it overrides the record that the beginning of the round made for the same
      pointee, and through the index takes its own record, which the round before made, down too. */
  method RepeatedStoreLosesItsRecord()
    returns (o: AliasObject, ghost was: Pointee<AliasObject>, ghost p: Pointee<AliasObject>, ghost run: seq<State>)
    ensures o.prog(0) == LoopGraph() && was != p && IsRun(o.prog, run, TwoRounds(was, p))
    ensures run[4].active == {} && o.active == {}
    ensures exists d :: d in run[4].recs && d.fid == 0 && d.to == p && d.site == Some(At(0, 2))
  {
    hide *;
    var prog: Program := e => LoopGraph();
    var t := new AliasObject(prog);
    var u := new AliasObject(prog);
    o := new AliasObject(prog);
    var first, other: Pointee<AliasObject> := Pointee(Some(u), 0), Pointee(Some(t), 0);
    was, p := first, other;
    LoopGraphFacts(prog);
    ghost var world := {o, t, u};
    NewIsOpen(world, o);
    ghost var s0 := o.Snapshot(world);
    var f;
    ghost var x;
    f, x := StoreOne(world, o, first, 1);
    ghost var s1 := o.Snapshot(world);
    ghost var z := FirstStore(prog, s0, s1, was, p, f, x);
    f, x := StoreOne(world, o, other, 2);
    ghost var s2 := o.Snapshot(world);
    ghost var d := SecondStore(prog, s1, s2, was, p, f, x, z);
    ghost var s3 := SecondRound(world, o, was, other, z, d);
    run := [s0, s1, s2, s3, o.Snapshot(world)];
    FourSteps(prog, run, was, p);
    ActiveIs(world, o);
  }

  lemma ActiveIs(world: set<AliasObject>, o: AliasObject)
    ensures o.Snapshot(world).active == o.active
  {
  }

  lemma NewIsOpen(world: set<AliasObject>, o: AliasObject)
    requires o in world && o.pointsTo == map[] && o.lastPtoReset == map[] && o.active == {} && o.weak == {}
    requires forall t :: t in world ==> t.pointsFrom == map[]
    ensures Open(world, o) && o.Snapshot(world) == State({}, {}, {}, {})
  {
    NewIsSane(o.Snapshot(world));
  }

  lemma NewIsSane(st: State)
    requires st == State({}, {}, {}, {})
    ensures Exact(st) && Isolated(st, map[])
  {
  }

  lemma UnifiedOne(p: Pointee<AliasObject>)
    ensures Unified({Incoming(p, false)}, -1) == {Incoming(p, false)}
  {
    assert Merged({Incoming(p, false)}, -1, p) == Incoming(p, false);
  }
}
