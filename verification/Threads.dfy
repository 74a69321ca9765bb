/** The thread of a schedule: a vector of location nodes that is edited in place. */
module Threads {
  import opened Cfg
  import opened ThreadSpec

  /** A node.  Its identity is what constraints refer to; the bits of its type are kept next to it
      in the vector of its thread. */
  class InstLocTr {
    const tr: Thread
    const loc: Loc

    constructor (tr: Thread, loc: Loc)
      ensures this.tr == tr && this.loc == loc
    {
      this.tr := tr;
      this.loc := loc;
    }
  }

  class Thread {
    const g: Graph
    var events: seq<Ev<InstLocTr>>

    constructor (g: Graph)
      ensures this.g == g && events == [] && Valid()
    {
      this.g := g;
      events := [];
    }

    ghost predicate Valid()
      reads this
    {
      && (forall i :: 0 <= i < |events| ==> events[i].node.tr == this && events[i].node.loc == events[i].loc)
      && WellFormed(g, events)
    }

    /** The node is in the vector. */
    predicate Has(n: InstLocTr)
      reads this
    {
      exists i :: 0 <= i < |events| && events[i].node == n
    }

    /** The index of a node, as std::find gives it; -1 for the null pointer. */
    function At(n: InstLocTr?): (i: int)
      reads this
      requires n != null ==> Has(n)
      ensures n == null ==> i == -1
      ensures n != null ==> 0 <= i < |events| && events[i].node == n
    {
      if n == null then -1 else First(events, n)
    }

    static function First(s: seq<Ev<InstLocTr>>, n: InstLocTr): (k: nat)
      requires exists i :: 0 <= i < |s| && s[i].node == n
      ensures k < |s| && s[k].node == n
    {
      if s[0].node == n then 0 else
        assert forall i :: 1 <= i < |s| ==> s[1..][i - 1] == s[i];
        1 + First(s[1..], n)
    }

    /** No node occurs twice, so `At` finds the one index. */
    lemma NodesDiffer()
      requires Valid()
      ensures forall i :: 0 <= i < |events| ==> At(events[i].node) == i
    {
      forall i | 0 <= i < |events| ensures At(events[i].node) == i {
        var k := At(events[i].node);
        assert events[k].loc == events[i].loc;
      }
    }

    /** The node standing for `loc`, if the thread has one: its index, otherwise -1. */
    method Locate(loc: Loc) returns (i: int)
      ensures i == if ThreadSpec.Has(events, loc) then IndexOf(events, loc) else -1
    {
      i := 0;
      while i < |events|
        invariant 0 <= i <= |events|
        invariant forall j :: 0 <= j < i ==> events[j].loc != loc
      {
        if events[i].loc == loc {
          return i;
        }
        i := i + 1;
      }
      i := -1;
    }

    /** The scan of [lo, hi) for the place to put `loc` in front of. */
    method FindPlace(loc: Loc, dom: bool, lo: nat, hi: nat) returns (found: bool, ec: int)
      requires lo <= hi <= |events|
      ensures found <==> Slot(g, events, loc, lo, hi) < hi
      ensures found ==>
                var k := Slot(g, events, loc, lo, hi);
                ec == if !Reach(g, loc, events[k].loc, {}) then REJECTED
                      else if dom && !Inevitable(g, events, loc, k) then AVOIDABLE else k
    {
      hide Reach;
      var i := lo;
      while i < hi
        invariant lo <= i <= hi
        invariant Slot(g, events, loc, lo, hi) == Slot(g, events, loc, i, hi)
      {
        if !Reach(g, loc, events[i].loc, {}) {
          if Reach(g, events[i].loc, loc, {}) {
            i := i + 1;
            continue;
          }
          return true, REJECTED;
        }
        var insert := true;
        if dom {
          if i == 0 && !Dom(g, loc, events[0].loc, true) {
            insert := false;
          } else if i > 0 {
            if Reach(g, events[i - 1].loc, events[i].loc, {loc}) {
              insert := false;
            }
          }
        }
        return true, if insert then i else AVOIDABLE;
      }
      return false, 0;
    }

    /** Where a location that is not in the thread would go. */
    method Choose(q: Request) returns (ec: int)
      requires Fits(events, q)
      ensures ec == FreshCode(g, events, q)
    {
      hide Reach;
      var stopIdx := if q.stop >= 0 then q.stop + 1 else |events|;
      if q.start + 1 < stopIdx {
        var found, k := FindPlace(q.loc, q.dom, q.start + 1, stopIdx);
        if found {
          return k;
        }
      }
      if q.stop >= 0 {
        ec := PASSED;
      } else if |events| == 0 || !q.dom || PostDom(g, q.loc, events[|events| - 1].loc, true) {
        ec := |events|;
      } else {
        ec := AVOIDABLE;
      }
    }

    ghost function Asked(loc: Loc, ty: Mask, merge: bool, dom: bool, stop: InstLocTr?, start: InstLocTr?): (q: Request)
      reads this
      requires stop != null ==> Has(stop)
      requires start != null ==> Has(start)
      ensures Fits(events, q)
    {
      Request(loc, ty, merge, dom, At(stop), At(start))
    }

    /** The location is at index `i`: report it, merging the type into it where that is asked. */
    method InsertSame(q: Request, i: nat, dryRun: bool) returns (r: InstLocTr?, ec: int)
      requires Fits(events, q) && i < |events|
      modifies this
      ensures ec == SameCode(old(events), q, i)
      ensures r == if Accepted(ec) then old(events)[i].node else null
      ensures events == if ec == MERGED && !dryRun
                        then old(events)[i := old(events)[i].(ty := old(events)[i].ty + q.ty)] else old(events)
    {
      var stopIdx := if q.stop >= 0 then q.stop + 1 else |events|;
      if i >= stopIdx || i <= q.start {
        return null, PASSED;
      }
      r := events[i].node;
      if events[i].ty * q.ty != {} {
        ec := PRESENT;
      } else if q.merge {
        ec := MERGED;
        if !dryRun {
          events := events[i := events[i].(ty := events[i].ty + q.ty)];
        }
      } else {
        r, ec := null, OTHER;
      }
    }

    /** Thread::insertLoc. */
    method InsertLoc(loc: Loc, ty: Mask, merge: bool, dom: bool, stop: InstLocTr?, start: InstLocTr?, dryRun: bool)
      returns (r: InstLocTr?, ec: int)
      requires Valid()
      requires stop != null ==> Has(stop)
      requires start != null ==> Has(start)
      modifies this
      ensures Valid()
      ensures ec == InsertCode(g, old(events), old(Asked(loc, ty, merge, dom, stop, start)))
      ensures dryRun || !Accepted(ec) ==> events == old(events)
      ensures r == null <==> !Accepted(ec) || (dryRun && ec >= 0)
      ensures !dryRun && ec >= 0 ==> fresh(r)
      ensures ec < 0 && Accepted(ec) ==> r == old(events)[IndexOf(old(events), loc)].node
      ensures !dryRun && Accepted(ec) ==>
                var q := old(Asked(loc, ty, merge, dom, stop, start));
                && events == Inserted(g, old(events), q, r)
                && r == events[Landing(g, old(events), q)].node
    {
      hide Reach, FreshCode, Inevitable, WellFormed, Slot, SameCode, IndexOf;
      var q := Request(loc, ty, merge, dom, At(stop), At(start));
      ghost var s := events;
      if start != null && !Reach(g, events[q.start].loc, loc, {}) {
        return null, PASSED;
      }
      var i := Locate(loc);
      if i >= 0 {
        r, ec := InsertSame(q, i, dryRun);
      } else {
        r := null;
        ec := Choose(q);
        if ec >= 0 && !dryRun {
          r := new InstLocTr(this, loc);
          events := events[..ec] + [Ev(r, loc, ty)] + events[ec..];
        }
      }
      if r != null {
        InsertKeepsWellFormed(g, s, q, r);
      }
    }

    /** Thread::testInsertLoc: would the insertion succeed?  Nothing changes. */
    method TestInsertLoc(loc: Loc, ty: Mask, merge: bool, dom: bool, stop: InstLocTr?, start: InstLocTr?)
      returns (b: bool)
      requires Valid()
      requires stop != null ==> Has(stop)
      requires start != null ==> Has(start)
      modifies this
      ensures Valid() && events == old(events)
      ensures b <==> Accepted(InsertCode(g, old(events), old(Asked(loc, ty, merge, dom, stop, start))))
    {
      hide Reach;
      var r, ec := InsertLoc(loc, ty, merge, dom, stop, start, true);
      b := ec >= 0 || ec == -2 || ec == -3;
    }

    /** The request Thread::testLocInSeq makes: before the end, after the beginning, or anywhere. */
    static function Probe(s: seq<Ev<InstLocTr>>, loc: Loc, rpos: int): (q: Request)
      ensures Fits(s, q)
    {
      Request(loc, {}, true, false,
              if rpos < 0 then |s| - 1 else -1,
              if rpos > 0 && |s| > 0 then 0 else -1)
    }

    /** Thread::testLocInSeq.  In spite of its name it inserts the location, with an empty type. */
    method TestLocInSeq(loc: Loc, rpos: int) returns (b: bool)
      requires Valid()
      modifies this
      ensures Valid()
      ensures b <==> Accepted(InsertCode(g, old(events), Probe(old(events), loc, rpos)))
      ensures ThreadSpec.Has(old(events), loc) || !b ==> events == old(events)
      ensures b && !ThreadSpec.Has(old(events), loc) ==>
                var k := InsertCode(g, old(events), Probe(old(events), loc, rpos));
                && 0 <= k < |events| == |old(events)| + 1
                && events == old(events)[..k] + [Ev(events[k].node, loc, {})] + old(events)[k..]
    {
      hide Reach, FreshCode, SameCode, Slot, WellFormed;
      var st: InstLocTr?, ed: InstLocTr? := null, null;
      if rpos != 0 && |events| > 0 {
        if rpos > 0 {
          st := events[0].node;
        }
        if rpos < 0 {
          ed := events[|events| - 1].node;
        }
      }
      NodesDiffer();
      ghost var s := events;
      var r, ec := InsertLoc(loc, {}, true, false, ed, st, false);
      if ec == MERGED {
        assert s[IndexOf(s, loc)].ty + {} == s[IndexOf(s, loc)].ty;
        assert events == s;
      }
      b := r != null;
    }

    method EraseAt(i: nat, ty: Mask) returns (r: int)
      requires Valid() && i < |events|
      modifies this
      ensures Valid() && events == Removed(old(events), i, ty)
      ensures r == if old(events)[i].ty - ty == {} then -1 else i
    {
      RemoveKeepsWellFormed(g, events, i, ty);
      var left := events[i].ty - ty;
      if left == {} {
        events := events[..i] + events[i + 1..];
        return -1;
      }
      events := events[i := events[i].(ty := left)];
      return i;
    }

    /** Thread::removeLoc, given a node. */
    method RemoveNode(n: InstLocTr?, ty: Mask) returns (r: int)
      requires Valid()
      modifies this
      ensures Valid()
      ensures n == null ==> r == -3
      ensures n != null && !old(Has(n)) ==> r == -2
      ensures n == null || !old(Has(n)) ==> events == old(events)
      ensures n != null && old(Has(n)) ==>
                && events == Removed(old(events), old(At(n)), ty)
                && r == if old(events)[old(At(n))].ty - ty == {} then -1 else old(At(n))
    {
      if n == null {
        return -3;
      }
      if !Has(n) {
        return -2;
      }
      r := EraseAt(At(n), ty);
    }

    /** Thread::removeLoc, given a location. */
    method RemoveLoc(loc: Loc, ty: Mask) returns (r: int)
      requires Valid()
      modifies this
      ensures Valid()
      ensures r == if !ThreadSpec.Has(old(events), loc) then -2
                   else if old(events)[IndexOf(old(events), loc)].ty - ty == {} then -1 else IndexOf(old(events), loc)
      ensures events == if ThreadSpec.Has(old(events), loc)
                        then Removed(old(events), IndexOf(old(events), loc), ty) else old(events)
    {
      var i := Locate(loc);
      if i < 0 {
        return -2;
      }
      r := EraseAt(i, ty);
    }
  }
}
