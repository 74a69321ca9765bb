/** How lock and unlock calls are recorded and paired. */
module Locksets {
  import opened Cfg
  import opened BuildFacts

  /** Beginnings of the names of lock and unlock functions, leading underscores aside. */
  const LOCK_FUNCTIONS: seq<string> := [
    "mutex_lock", "mutex_unlock",
    "spin_lock", "spin_unlock",
    "raw_spin_lock", "raw_spin_unlock",
    "pthread_mutex_lock", "pthread_mutex_unlock",
    "down_read", "up_read",
    "down_write", "up_write",
    "console_lock", "console_unlock"
  ]

  /** A lock function and its unlock function. */
  const LOCK_FUNC_PAIR: seq<(string, string)> := [
    ("mutex_lock", "mutex_unlock"),
    ("mutex_lock_nested", "mutex_unlock"),
    ("_raw_spin_lock", "_raw_spin_unlock"),
    ("_raw_spin_lock_irq", "_raw_spin_unlock_irq"),
    ("_raw_spin_lock_irqsave", "_raw_spin_unlock_irqrestore"),
    ("pthread_mutex_lock", "pthread_mutex_unlock"),
    ("down_read", "up_read"),
    ("down_read_nested", "up_read"),
    ("down_write", "up_write"),
    ("down_write_nested", "up_write"),
    ("console_lock", "console_unlock")
  ]

  function Stripped(fn: string): string {
    if fn != "" && fn[0] == '_' then Stripped(fn[1..]) else fn
  }

  /** What is left of a name begins with something else than an underscore, and only underscores are gone. */
  lemma {:induction false} StrippedMeans(fn: string)
    ensures var s := Stripped(fn);
            && |s| <= |fn| && fn[|fn| - |s|..] == s && (forall i :: 0 <= i < |fn| - |s| ==> fn[i] == '_')
            && (s != "" ==> s[0] != '_')
  {
    if fn != "" && fn[0] == '_' {
      var t := fn[1..];
      StrippedMeans(t);
      assert forall i :: 0 < i < |fn| ==> fn[i] == t[i - 1];
    }
  }

  /** KernelFunctionChecker::is_lock_function, for a function without a body. */
  predicate IsLockFunction(fn: string) {
    Stripped(fn) != "" && exists i :: 0 <= i < |LOCK_FUNCTIONS| && LOCK_FUNCTIONS[i] <= Stripped(fn)
  }

  predicate Locks(fn: string) {
    exists i :: 0 <= i < |LOCK_FUNC_PAIR| && LOCK_FUNC_PAIR[i].0 == fn
  }

  predicate Unlocks(fn: string) {
    exists i :: 0 <= i < |LOCK_FUNC_PAIR| && LOCK_FUNC_PAIR[i].1 == fn
  }

  predicate ArePaired(fn: string, other: string) {
    (fn, other) in LOCK_FUNC_PAIR || (other, fn) in LOCK_FUNC_PAIR
  }

  /** The letter after `_`, or the first one, that tells the unlock functions from the lock functions. */
  predicate SaysUnlock(fn: string) {
    exists i :: i in [0, 6, 8, 10, 14] && i < |fn| && fn[i] == 'u'
  }

  lemma UnlocksSayUnlock(i: nat)
    requires i < |LOCK_FUNC_PAIR|
    ensures SaysUnlock(LOCK_FUNC_PAIR[i].1)
  {
    var u := LOCK_FUNC_PAIR[i].1;
    var at := if i < 2 then 6 else if i < 5 then 10 else if i == 5 then 14 else if i < 10 then 0 else 8;
    assert at in [0, 6, 8, 10, 14] && u[at] == 'u';
  }

  lemma LocksDoNot(i: nat)
    requires i < |LOCK_FUNC_PAIR|
    ensures !SaysUnlock(LOCK_FUNC_PAIR[i].0)
  {
  }

  /** No function is both. */
  lemma NamesApart(fn: string)
    ensures !(Locks(fn) && Unlocks(fn))
  {
    if Locks(fn) && Unlocks(fn) {
      var i :| 0 <= i < |LOCK_FUNC_PAIR| && LOCK_FUNC_PAIR[i].0 == fn;
      var j :| 0 <= j < |LOCK_FUNC_PAIR| && LOCK_FUNC_PAIR[j].1 == fn;
      hide *;
      LocksDoNot(i);
      UnlocksSayUnlock(j);
    }
  }

  /** Every function of the table counts as a lock function. */
  lemma TableIsCovered(fn: string)
    requires Locks(fn) || Unlocks(fn)
    ensures IsLockFunction(fn)
  {
    if Locks(fn) {
      var i :| 0 <= i < |LOCK_FUNC_PAIR| && LOCK_FUNC_PAIR[i].0 == fn;
      LockBegins(i);
    } else {
      var i :| 0 <= i < |LOCK_FUNC_PAIR| && LOCK_FUNC_PAIR[i].1 == fn;
      UnlockBegins(i);
    }
  }

  lemma LockBegins(i: nat)
    requires i < |LOCK_FUNC_PAIR|
    ensures IsLockFunction(LOCK_FUNC_PAIR[i].0)
  {
    var fn := LOCK_FUNC_PAIR[i].0;
    var at := if i < 2 then 0 else if i < 5 then 4 else if i == 5 then 6 else if i < 8 then 8 else if i < 10 then 10
        else 12;
    assert Stripped(fn) == if 2 <= i < 5 then fn[1..] else fn;
    assert LOCK_FUNCTIONS[at] <= Stripped(fn);
  }

  lemma UnlockBegins(i: nat)
    requires i < |LOCK_FUNC_PAIR|
    ensures IsLockFunction(LOCK_FUNC_PAIR[i].1)
  {
    var fn := LOCK_FUNC_PAIR[i].1;
    var at := if i < 2 then 1 else if i < 5 then 5 else if i == 5 then 7 else if i < 8 then 9 else if i < 10 then 11
        else 13;
    assert Stripped(fn) == if 2 <= i < 5 then fn[1..] else fn;
    assert LOCK_FUNCTIONS[at] <= Stripped(fn);
  }

  /** KernelFunctionChecker::get_paired_lock_funcs: the partners of a function, and which side it is on. */
  method GetPairedLockFuncs(fn: string) returns (fns: set<string>, isLock: bool)
    ensures forall s :: s in fns <==> ArePaired(fn, s)
    ensures fns == {} <==> !Locks(fn) && !Unlocks(fn)
    ensures fns != {} ==> (isLock <==> Locks(fn)) && (!isLock <==> Unlocks(fn))
  {
    fns, isLock := {}, false;
    NamesApart(fn);
    for i := 0 to |LOCK_FUNC_PAIR|
      invariant forall s :: s in fns <==> (fn, s) in LOCK_FUNC_PAIR[..i] || (s, fn) in LOCK_FUNC_PAIR[..i]
      invariant fns != {} ==> if isLock then Locks(fn) else Unlocks(fn)
      invariant forall m :: 0 <= m < i && (LOCK_FUNC_PAIR[m].0 == fn || LOCK_FUNC_PAIR[m].1 == fn) ==> fns != {}
    {
      ghost var was := fns;
      var (l, u) := LOCK_FUNC_PAIR[i];
      if fn == l {
        isLock := true;
        fns := fns + {u};
        assert u in fns;
      } else if fn == u {
        isLock := false;
        fns := fns + {l};
        assert l in fns;
      }
      PrefixMore(i);
    }
  }

  lemma PrefixMore(i: nat)
    requires i < |LOCK_FUNC_PAIR|
    ensures forall x :: x in LOCK_FUNC_PAIR[..i + 1] <==> x in LOCK_FUNC_PAIR[..i] || x == LOCK_FUNC_PAIR[i]
  {
    hide LOCK_FUNC_PAIR;
    assert LOCK_FUNC_PAIR[..i + 1] == LOCK_FUNC_PAIR[..i] + [LOCK_FUNC_PAIR[i]];
  }

  // ---- the record of all calls -------------------------------------------------------------------

  /** A lock or unlock call, with what it locks and with the indexes of its partners. */
  datatype Entry = Entry(id: nat, loc: Loc, fn: string, objs: set<nat>, pairs: set<nat>)

  datatype Sites = Sites(locks: seq<Entry>, unlocks: seq<Entry>)

  /** LockInfo::sameLockObjs: a common object, or none on either side. */
  predicate SameLockObjs(t: Entry, u: Entry) {
    (t.objs == {} && u.objs == {}) || t.objs * u.objs != {}
  }

  predicate Fits(ctxPrefix: (Loc, Loc) -> bool, t: Entry, u: Entry) {
    ArePaired(u.fn, t.fn) && ctxPrefix(t.loc, u.loc) && SameLockObjs(u, t)
  }

  /** The places of the unlocks with an index below `n` that the lock `t` is paired with. */
  function PartnersBelow(t: Entry, unlocks: seq<Entry>, n: nat): set<Loc> {
    set j | j in t.pairs && j < n && j < |unlocks| :: unlocks[j].loc
  }

  /** Control gets from the lock to the unlock without passing an unlock the lock was paired with before. */
  predicate Meets(g: Graph, ctxPrefix: (Loc, Loc) -> bool, t: Entry, unlocks: seq<Entry>, j: nat)
    requires j < |unlocks|
  {
    Fits(ctxPrefix, t, unlocks[j]) && Reach(g, t.loc, unlocks[j].loc, PartnersBelow(t, unlocks, j))
  }

  /** Pairing is mutual, and a lock is paired with exactly the later unlocks of its kind, its object and
      its context that control reaches from it around the unlocks it was paired with before. */
  ghost predicate PairAt(g: Graph, ctxPrefix: (Loc, Loc) -> bool, s: Sites, i: nat, j: nat)
    requires i < |s.locks| && j < |s.unlocks|
  {
    && (j in s.locks[i].pairs <==> i in s.unlocks[j].pairs)
    && (j in s.locks[i].pairs <==>
        s.locks[i].id < s.unlocks[j].id && Meets(g, ctxPrefix, s.locks[i], s.unlocks, j))
  }

  ghost predicate Ranged(s: Sites) {
    && (forall t, x :: t in s.locks && x in t.pairs ==> x < |s.unlocks|)
    && (forall u, x :: u in s.unlocks && x in u.pairs ==> x < |s.locks|)
  }

  ghost predicate WellPaired(g: Graph, ctxPrefix: (Loc, Loc) -> bool, s: Sites) {
    && Ranged(s)
    && (forall i, j :: 0 <= i < |s.locks| && 0 <= j < |s.unlocks| ==> PairAt(g, ctxPrefix, s, i, j))
  }

  /** A way from a lock to an unlock that does not pass the unlocks the lock was paired with before. */
  ghost predicate Frees(g: Graph, s: Sites, i: nat, j: nat, p: seq<Loc>)
    requires i < |s.locks| && j < |s.unlocks|
  {
    && IsPath(g, p, {}) && Joins(p, s.locks[i].loc, s.unlocks[j].loc)
    && forall k, x :: 0 <= k < j && k in s.locks[i].pairs && 0 < x < |p| - 1 ==> p[x] != s.unlocks[k].loc
  }

  /** A lock is paired with exactly the later unlocks that the table pairs its function with, in a context its own
      leads to, of an object they have in common or of none that is known, and to which there is such a way. */
  lemma PairedMeans(g: Graph, ctxPrefix: (Loc, Loc) -> bool, s: Sites, i: nat, j: nat)
    requires WellPaired(g, ctxPrefix, s) && i < |s.locks| && j < |s.unlocks|
    ensures var t, u := s.locks[i], s.unlocks[j];
            j in t.pairs <==>
            && t.id < u.id && ctxPrefix(t.loc, u.loc)
            && ((t.fn, u.fn) in LOCK_FUNC_PAIR || (u.fn, t.fn) in LOCK_FUNC_PAIR)
            && ((t.objs == {} && u.objs == {}) || exists x :: x in t.objs && x in u.objs)
            && exists p :: Frees(g, s, i, j, p)
    ensures i in s.unlocks[j].pairs <==> j in s.locks[i].pairs
  {
    hide Reach, LOCK_FUNC_PAIR;
    var t, u := s.locks[i], s.unlocks[j];
    var blk := PartnersBelow(t, s.unlocks, j);
    assert PairAt(g, ctxPrefix, s, i, j);
    ReachIffPath(g, t.loc, u.loc, blk);
    if x :| x in t.objs && x in u.objs {
      assert x in u.objs * t.objs;
    }
    if x :| x in u.objs * t.objs {
      assert x in t.objs && x in u.objs;
    }
    if p :| IsPath(g, p, blk) && Joins(p, t.loc, u.loc) {
      assert Frees(g, s, i, j, p);
    }
    if p :| Frees(g, s, i, j, p) {
      assert IsPath(g, p, blk);
    }
  }

  /** What is recorded was called: a lock by a lock function, an unlock by an unlock function. */
  ghost predicate Called(s: Sites, calls: set<(Loc, string)>) {
    && (forall e :: e in s.locks ==> Locks(e.fn) && IsLockFunction(e.fn) && (e.loc, e.fn) in calls)
    && (forall e :: e in s.unlocks ==> Unlocks(e.fn) && IsLockFunction(e.fn) && (e.loc, e.fn) in calls)
    && (forall e :: e in s.locks + s.unlocks ==> e.id < |s.locks| + |s.unlocks|)
  }

  /** The record with one more lock. */
  function WithLock(s: Sites, e: Entry): Sites {
    s.(locks := s.locks + [e])
  }

  /** The record with one more unlock, which is paired with the locks in `hits`. */
  function WithUnlock(s: Sites, e: Entry, hits: set<nat>): Sites {
    Sites(seq(|s.locks|, i requires 0 <= i < |s.locks| =>
                if i in hits then s.locks[i].(pairs := s.locks[i].pairs + {|s.unlocks|}) else s.locks[i]),
          s.unlocks + [e.(pairs := hits)])
  }

  lemma LockKeepsPairs(g: Graph, ctxPrefix: (Loc, Loc) -> bool, s: Sites, calls: set<(Loc, string)>, e: Entry)
    requires WellPaired(g, ctxPrefix, s) && Called(s, calls) && e.id == |s.locks| + |s.unlocks| && e.pairs == {}
    ensures WellPaired(g, ctxPrefix, WithLock(s, e))
  {
    hide Meets, IsLockFunction, Locks, Unlocks;
    var t := WithLock(s, e);
    forall i, j | 0 <= i < |t.locks| && 0 <= j < |t.unlocks| ensures PairAt(g, ctxPrefix, t, i, j) {
      assert t.unlocks[j] in s.locks + s.unlocks && t.unlocks[j] in s.unlocks;
      if i < |s.locks| {
        assert t.locks[i] == s.locks[i];
        assert PairAt(g, ctxPrefix, s, i, j);
      }
    }
  }

  /** The lock `t` with one more partner meets the older unlocks as before. */
  lemma MeetsAsBefore(g: Graph, ctxPrefix: (Loc, Loc) -> bool, t: Entry, unlocks: seq<Entry>, e: Entry, j: nat)
    requires j < |unlocks| && forall x :: x in t.pairs ==> x < |unlocks|
    ensures Meets(g, ctxPrefix, t.(pairs := t.pairs + {|unlocks|}), unlocks + [e], j) <==>
            Meets(g, ctxPrefix, t, unlocks, j)
    ensures Meets(g, ctxPrefix, t, unlocks + [e], j) <==> Meets(g, ctxPrefix, t, unlocks, j)
  {
    hide Reach;
    assert PartnersBelow(t.(pairs := t.pairs + {|unlocks|}), unlocks + [e], j) == PartnersBelow(t, unlocks, j);
    assert PartnersBelow(t, unlocks + [e], j) == PartnersBelow(t, unlocks, j);
  }

  /** Whether the lock `t` is paired with an unlock that comes now. */
  predicate MeetsNow(g: Graph, ctxPrefix: (Loc, Loc) -> bool, t: Entry, unlocks: seq<Entry>, e: Entry) {
    Fits(ctxPrefix, t, e) && Reach(g, t.loc, e.loc, PartnersBelow(t, unlocks, |unlocks|))
  }

  /** The locks that an unlock which comes now is paired with. */
  function Hits(g: Graph, ctxPrefix: (Loc, Loc) -> bool, s: Sites, e: Entry): set<nat> {
    set i | 0 <= i < |s.locks| && MeetsNow(g, ctxPrefix, s.locks[i], s.unlocks, e)
  }

  lemma MeetsTheNewest(g: Graph, ctxPrefix: (Loc, Loc) -> bool, t: Entry, unlocks: seq<Entry>, e: Entry, hits: set<nat>)
    requires forall x :: x in t.pairs ==> x < |unlocks|
    ensures var us := unlocks + [e.(pairs := hits)];
            && (Meets(g, ctxPrefix, t, us, |unlocks|) <==> MeetsNow(g, ctxPrefix, t, unlocks, e))
            && (Meets(g, ctxPrefix, t.(pairs := t.pairs + {|unlocks|}), us, |unlocks|) <==>
                MeetsNow(g, ctxPrefix, t, unlocks, e))
  {
    hide Reach;
    var us := unlocks + [e.(pairs := hits)];
    assert PartnersBelow(t, us, |unlocks|) == PartnersBelow(t, unlocks, |unlocks|);
    assert PartnersBelow(t.(pairs := t.pairs + {|unlocks|}), us, |unlocks|) == PartnersBelow(t, unlocks, |unlocks|);
  }

  /** An older pair after the unlock `e`. */
  lemma OlderPair(g: Graph, ctxPrefix: (Loc, Loc) -> bool, s: Sites, e: Entry, hits: set<nat>, i: nat, j: nat)
    requires WellPaired(g, ctxPrefix, s) && i < |s.locks| && j < |s.unlocks|
    ensures PairAt(g, ctxPrefix, WithUnlock(s, e, hits), i, j)
  {
    hide Meets;
    assert PairAt(g, ctxPrefix, s, i, j);
    MeetsAsBefore(g, ctxPrefix, s.locks[i], s.unlocks, e.(pairs := hits), j);
  }

  /** The pair of a lock and the unlock `e` itself. */
  lemma NewestPair(g: Graph, ctxPrefix: (Loc, Loc) -> bool, s: Sites, e: Entry, hits: set<nat>, i: nat)
    requires WellPaired(g, ctxPrefix, s) && i < |s.locks| && s.locks[i].id < e.id
    requires i in hits <==> MeetsNow(g, ctxPrefix, s.locks[i], s.unlocks, e)
    ensures PairAt(g, ctxPrefix, WithUnlock(s, e, hits), i, |s.unlocks|)
  {
    hide Meets, MeetsNow;
    assert |s.unlocks| !in s.locks[i].pairs;
    MeetsTheNewest(g, ctxPrefix, s.locks[i], s.unlocks, e, hits);
  }

  /** What is recorded is older than the entry that comes next. */
  lemma LocksAreOlder(s: Sites, calls: set<(Loc, string)>, e: Entry, i: nat)
    requires Called(s, calls) && e.id == |s.locks| + |s.unlocks| && i < |s.locks|
    ensures s.locks[i].id < e.id
  {
    hide IsLockFunction, Locks, Unlocks;
    assert s.locks[i] in s.locks + s.unlocks;
  }

  lemma UnlockKeepsPairs(g: Graph, ctxPrefix: (Loc, Loc) -> bool, s: Sites, calls: set<(Loc, string)>, e: Entry,
                         hits: set<nat>)
    requires WellPaired(g, ctxPrefix, s) && Called(s, calls) && e.id == |s.locks| + |s.unlocks|
    requires hits == Hits(g, ctxPrefix, s, e)
    ensures WellPaired(g, ctxPrefix, WithUnlock(s, e, hits))
  {
    var t := WithUnlock(s, e, hits);
    UnlockRanges(g, ctxPrefix, s, e, hits);
    UnlockSizes(s, e, hits);
    hide PairAt, WithUnlock, Ranged, Called;
    forall i, j | 0 <= i < |t.locks| && 0 <= j < |t.unlocks| ensures PairAt(g, ctxPrefix, t, i, j) {
      UnlockKeepsPair(g, ctxPrefix, s, calls, e, hits, i, j);
    }
  }

  lemma UnlockKeepsPair(g: Graph, ctxPrefix: (Loc, Loc) -> bool, s: Sites, calls: set<(Loc, string)>, e: Entry,
                        hits: set<nat>, i: nat, j: nat)
    requires WellPaired(g, ctxPrefix, s) && Called(s, calls) && e.id == |s.locks| + |s.unlocks|
    requires hits == Hits(g, ctxPrefix, s, e)
    requires i < |s.locks| && j <= |s.unlocks|
    ensures PairAt(g, ctxPrefix, WithUnlock(s, e, hits), i, j)
  {
    hide PairAt, WithUnlock, WellPaired, Called, MeetsNow;
    if j < |s.unlocks| {
      OlderPair(g, ctxPrefix, s, e, hits, i, j);
    } else {
      LocksAreOlder(s, calls, e, i);
      NewestPair(g, ctxPrefix, s, e, hits, i);
    }
  }

  lemma UnlockRanges(g: Graph, ctxPrefix: (Loc, Loc) -> bool, s: Sites, e: Entry, hits: set<nat>)
    requires Ranged(s) && hits == Hits(g, ctxPrefix, s, e)
    ensures Ranged(WithUnlock(s, e, hits))
  {
    hide MeetsNow;
    var t := WithUnlock(s, e, hits);
    forall l, x | l in t.locks && x in l.pairs ensures x < |t.unlocks| {
      var i :| 0 <= i < |t.locks| && t.locks[i] == l;
      assert s.locks[i] in s.locks;
    }
  }

  lemma UnlockSizes(s: Sites, e: Entry, hits: set<nat>)
    ensures |WithUnlock(s, e, hits).locks| == |s.locks| && |WithUnlock(s, e, hits).unlocks| == |s.unlocks| + 1
  {
  }

  // ---- what the schedule builder is told ---------------------------------------------------------

  /** The places of the unlocks below `n` among `pairs`. */
  function LocsOf(unlocks: seq<Entry>, pairs: set<nat>, n: nat): (r: seq<Loc>)
    requires n <= |unlocks|
    ensures forall l :: l in r <==> exists j :: 0 <= j < n && j in pairs && unlocks[j].loc == l
  {
    if n == 0 then []
    else
      var rest := LocsOf(unlocks, pairs, n - 1);
      if n - 1 in pairs then
        assert unlocks[n - 1].loc in rest + [unlocks[n - 1].loc];
        rest + [unlocks[n - 1].loc]
      else rest
  }

  function Infos(s: Sites): (r: seq<LockInfo>)
  {
    seq(|s.locks|, i requires 0 <= i < |s.locks| =>
      LockInfo(s.locks[i].id, s.locks[i].loc, LocsOf(s.unlocks, s.locks[i].pairs, |s.unlocks|)))
  }

  /** No call site was resolved both to a function that locks and to one that unlocks. */
  ghost predicate OneSided(calls: set<(Loc, string)>) {
    forall c, d :: c in calls && d in calls && c.0 == d.0 ==> !(Locks(c.1) && Unlocks(d.1))
  }

  /** A direct call has one callee. */
  lemma DirectIsOneSided(calls: set<(Loc, string)>)
    requires forall c, d :: c in calls && d in calls && c.0 == d.0 ==> c.1 == d.1
    ensures OneSided(calls)
  {
    hide Locks, Unlocks;
    forall c, d | c in calls && d in calls && c.0 == d.0 ensures !(Locks(c.1) && Unlocks(d.1)) {
      NamesApart(c.1);
    }
  }

  /** Then no site is filed both as a lock and as an unlock. */
  lemma SitesAreApart(s: Sites, calls: set<(Loc, string)>)
    requires Called(s, calls) && OneSided(calls)
    ensures SitesApart(Infos(s))
  {
    hide Locks, Unlocks, IsLockFunction;
    var r := Infos(s);
    forall a, b | a in r && b in r ensures a.loc !in b.unlocks {
      var i :| 0 <= i < |r| && r[i] == a;
      var k :| 0 <= k < |r| && r[k] == b;
      assert s.locks[i] in s.locks;
      forall j | 0 <= j < |s.unlocks| ensures s.unlocks[j].loc != a.loc {
        assert s.unlocks[j] in s.unlocks;
      }
    }
  }

  class LocksetState {
    const g: Graph
    const ctxPrefix: (Loc, Loc) -> bool
    var locks: seq<Entry>
    var unlocks: seq<Entry>
    ghost var calls: set<(Loc, string)>

    constructor (g: Graph, ctxPrefix: (Loc, Loc) -> bool)
      ensures this.g == g && this.ctxPrefix == ctxPrefix && Valid()
      ensures locks == [] && unlocks == [] && calls == {}
    {
      this.g := g;
      this.ctxPrefix := ctxPrefix;
      locks, unlocks, calls := [], [], {};
    }

    function Now(): Sites
      reads this
    {
      Sites(locks, unlocks)
    }

    ghost predicate Valid()
      reads this
    {
      WellPaired(g, ctxPrefix, Now()) && Called(Now(), calls)
    }

    /** LocksetAnalysisVisitor::visitCallInst, for a callee without a body. */
    method VisitCallInst(loc: Loc, fn: string, objs: set<nat>)
      requires Valid()
      modifies this
      ensures Valid() && calls == old(calls) + {(loc, fn)}
      ensures var e := Entry(|old(locks)| + |old(unlocks)|, loc, fn, objs, {});
              if IsLockFunction(fn) && Locks(fn) then
                Now() == WithLock(old(Now()), e)
              else if IsLockFunction(fn) && Unlocks(fn) then
                Now() == WithUnlock(old(Now()), e, Hits(g, ctxPrefix, old(Now()), e))
              else
                Now() == old(Now())
    {
      hide Locks, Unlocks, IsLockFunction, ArePaired, Reach, WellPaired, WithUnlock;
      calls := calls + {(loc, fn)};
      if !IsLockFunction(fn) {
        return;
      }
      var pairnames, isLock := GetPairedLockFuncs(fn);
      if pairnames == {} {
        return;
      }
      var li := Entry(|locks| + |unlocks|, loc, fn, objs, {});
      if isLock {
        LockKeepsPairs(g, ctxPrefix, Now(), calls, li);
        locks := locks + [li];
      } else {
        ghost var hits := PairUnlock(pairnames, li);
      }
    }

    /** The part of it that looks for the locks an unlock belongs to, the latest first. */
    method PairUnlock(pairnames: set<string>, e: Entry) returns (ghost hits: set<nat>)
      requires WellPaired(g, ctxPrefix, Now()) && Called(Now(), calls)
      requires forall s :: s in pairnames <==> ArePaired(e.fn, s)
      requires IsLockFunction(e.fn) && Unlocks(e.fn) && (e.loc, e.fn) in calls
      requires e.id == |locks| + |unlocks| && e.pairs == {}
      modifies this`locks, this`unlocks
      ensures Valid() && hits == Hits(g, ctxPrefix, old(Now()), e) && Now() == WithUnlock(old(Now()), e, hits)
    {
      hide Tried, WellPaired, Ranged, Called, ArePaired, Reach, PartnersBelow, SameLockObjs, Locks, Unlocks,
           IsLockFunction;
      hide MeetsNow, WithUnlock, Hits;
      ghost var was := Now();
      var n := |unlocks|;
      hits := {};
      unlocks := unlocks + [e];
      NoneTriedYet(g, ctxPrefix, was, e);
      for i := |locks| downto 0
        invariant |locks| == |was.locks| && |unlocks| == n + 1 == |was.unlocks| + 1
        invariant Tried(g, ctxPrefix, was, Now(), e, hits, i)
      {
        var t, li := locks[i], unlocks[n];
        RangedIs(g, ctxPrefix, was);
        OneMoreTried(g, ctxPrefix, was, Now(), e, hits, i, pairnames);
        if t.fn in pairnames && ctxPrefix(t.loc, li.loc) && SameLockObjs(li, t)
           && Reach(g, t.loc, li.loc, PartnersBelow(t, unlocks, |unlocks|)) {
          hits := hits + {i};
          unlocks := unlocks[n := li.(pairs := li.pairs + {i})];
          locks := locks[i := t.(pairs := t.pairs + {n})];
        }
      }
      AllTried(g, ctxPrefix, was, Now(), e, hits);
      UnlockKeepsPairs(g, ctxPrefix, was, calls, e, hits);
      UnlockIsCalled(was, calls, e, hits);
      assert Valid() by { ValidIs(); }
    }

    lemma ValidIs()
      ensures Valid() <==> WellPaired(g, ctxPrefix, Now()) && Called(Now(), calls)
    {
    }
  }

  /** The locks from index `i` on have been tried for the unlock `e`. */
  ghost predicate Tried(g: Graph, ctxPrefix: (Loc, Loc) -> bool, was: Sites, now: Sites, e: Entry, hits: set<nat>,
                        i: nat) {
    && |now.locks| == |was.locks|
    && now.unlocks == was.unlocks + [e.(pairs := hits)]
    && (forall k :: k in hits ==> i <= k < |was.locks|)
    && (forall k :: i <= k < |was.locks| ==> (k in hits <==> MeetsNow(g, ctxPrefix, was.locks[k], was.unlocks, e)))
    && (forall k :: 0 <= k < |was.locks| ==>
          now.locks[k] == if k in hits then was.locks[k].(pairs := was.locks[k].pairs + {|was.unlocks|})
          else was.locks[k])
  }

  lemma RangedIs(g: Graph, ctxPrefix: (Loc, Loc) -> bool, s: Sites)
    requires WellPaired(g, ctxPrefix, s)
    ensures Ranged(s)
  {
  }

  lemma NoneTriedYet(g: Graph, ctxPrefix: (Loc, Loc) -> bool, was: Sites, e: Entry)
    requires e.pairs == {}
    ensures Tried(g, ctxPrefix, was, Sites(was.locks, was.unlocks + [e]), e, {}, |was.locks|)
  {
    assert e.(pairs := {}) == e;
  }

  lemma OneMoreTried(g: Graph, ctxPrefix: (Loc, Loc) -> bool, was: Sites, now: Sites, e: Entry, hits: set<nat>, i: nat,
                     pairnames: set<string>)
    requires Ranged(was) && i < |was.locks| && Tried(g, ctxPrefix, was, now, e, hits, i + 1)
    requires forall s :: s in pairnames <==> ArePaired(e.fn, s)
    ensures var t, n, li := now.locks[i], |was.unlocks|, now.unlocks[|was.unlocks|];
            if t.fn in pairnames && ctxPrefix(t.loc, li.loc) && SameLockObjs(li, t)
               && Reach(g, t.loc, li.loc, PartnersBelow(t, now.unlocks, |now.unlocks|))
            then Tried(g, ctxPrefix, was, Sites(now.locks[i := t.(pairs := t.pairs + {n})],
                                                now.unlocks[n := li.(pairs := li.pairs + {i})]), e, hits + {i}, i)
            else Tried(g, ctxPrefix, was, now, e, hits, i)
  {
    hide Reach, PartnersBelow, ArePaired;
    var t, li := now.locks[i], now.unlocks[|was.unlocks|];
    assert t == was.locks[i] && t in was.locks;
    SameBlockers(was, t, li);
    assert now.unlocks == was.unlocks + [li];
    OneMorePartner(was, e, hits, i);
  }

  lemma OneMorePartner(was: Sites, e: Entry, hits: set<nat>, i: nat)
    ensures var us, n := was.unlocks + [e.(pairs := hits)], |was.unlocks|;
            us[n := us[n].(pairs := us[n].pairs + {i})] == was.unlocks + [e.(pairs := hits + {i})]
  {
  }

  lemma AllTried(g: Graph, ctxPrefix: (Loc, Loc) -> bool, was: Sites, now: Sites, e: Entry, hits: set<nat>)
    requires Tried(g, ctxPrefix, was, now, e, hits, 0)
    ensures now == WithUnlock(was, e, hits) && hits == Hits(g, ctxPrefix, was, e)
  {
    hide MeetsNow;
    assert now.locks == WithUnlock(was, e, hits).locks;
  }

  lemma SameBlockers(s: Sites, t: Entry, li: Entry)
    requires t in s.locks && forall x :: x in t.pairs ==> x < |s.unlocks|
    ensures PartnersBelow(t, s.unlocks + [li], |s.unlocks| + 1) == PartnersBelow(t, s.unlocks, |s.unlocks|)
  {
  }

  lemma UnlockIsCalled(s: Sites, calls: set<(Loc, string)>, e: Entry, hits: set<nat>)
    requires Called(s, calls) && Unlocks(e.fn) && IsLockFunction(e.fn) && (e.loc, e.fn) in calls
    requires e.id == |s.locks| + |s.unlocks|
    ensures Called(WithUnlock(s, e, hits), calls)
  {
    hide Locks, Unlocks, IsLockFunction;
    var t := WithUnlock(s, e, hits);
    forall x | x in t.locks ensures Locks(x.fn) && IsLockFunction(x.fn) && (x.loc, x.fn) in calls && x.id < e.id {
      var i :| 0 <= i < |t.locks| && t.locks[i] == x;
      assert s.locks[i] in s.locks && s.locks[i] in s.locks + s.unlocks;
    }
    forall x | x in t.unlocks ensures Unlocks(x.fn) && IsLockFunction(x.fn) && (x.loc, x.fn) in calls && x.id <= e.id {
      var i :| 0 <= i < |t.unlocks| && t.unlocks[i] == x;
      assert i < |s.unlocks| ==> s.unlocks[i] == x && x in s.unlocks && x in s.locks + s.unlocks;
    }
  }

  /** The record after a call through a pointer that may lock or unlock. */
  function BothSides(): Sites {
    Sites([Entry(0, 1, "mutex_lock", {0}, {0})], [Entry(1, 1, "mutex_unlock", {0}, {0})])
  }

  lemma MutexNames()
    ensures Locks("mutex_lock") && Unlocks("mutex_unlock") && ArePaired("mutex_unlock", "mutex_lock")
    ensures IsLockFunction("mutex_lock") && IsLockFunction("mutex_unlock")
    ensures !Locks("mutex_unlock")
  {
    assert LOCK_FUNC_PAIR[0] == ("mutex_lock", "mutex_unlock");
    assert LOCK_FUNCTIONS[0] <= Stripped("mutex_lock") && LOCK_FUNCTIONS[1] <= Stripped("mutex_unlock");
    hide *;
    UnlockIs();
    NamesApart("mutex_unlock");
  }

  lemma UnlockIs()
    ensures Unlocks("mutex_unlock")
  {
    assert LOCK_FUNC_PAIR[0] == ("mutex_lock", "mutex_unlock");
  }

  lemma BothMeet(g: Graph, ctxPrefix: (Loc, Loc) -> bool, s: Sites, hits: set<nat>)
    requires ctxPrefix(1, 1) && s == Sites([Entry(0, 1, "mutex_lock", {0}, {})], [])
    requires ArePaired("mutex_unlock", "mutex_lock")
    requires hits == Hits(g, ctxPrefix, s, Entry(1, 1, "mutex_unlock", {0}, {}))
    ensures WithUnlock(s, Entry(1, 1, "mutex_unlock", {0}, {}), hits) == BothSides()
  {
    hide ArePaired, Reach;
    assert IsPath(g, [1], {}) && Joins([1], 1, 1);
    ReachIffPath(g, 1, 1, {});
    var t, u := s.locks[0], Entry(1, 1, "mutex_unlock", {0}, {});
    assert PartnersBelow(t, [], 0) == {};
    assert 0 in t.objs * u.objs;
    assert MeetsNow(g, ctxPrefix, t, [], u);
    assert hits == {0} && t.pairs + {0} == {0};
  }

  lemma BothAreNotApart()
    ensures !SitesApart(Infos(BothSides()))
  {
    var s := BothSides();
    var r := Infos(s);
    assert r[0].loc == 1 && s.unlocks[0].loc == 1 && 0 in s.locks[0].pairs;
    assert 1 in LocsOf(s.unlocks, s.locks[0].pairs, 1);
    assert r[0] in r && r[0].loc in r[0].unlocks;
  }

  /** A call through a pointer that may lock or unlock is filed on both sides, and paired with itself. */
  method IndirectCallIsBoth() returns (st: LocksetState)
    ensures st.calls == {(1, "mutex_lock"), (1, "mutex_unlock")} && st.Now() == BothSides()
    ensures !SitesApart(Infos(st.Now()))
  {
    hide Locks, Unlocks, IsLockFunction, ArePaired, Reach, WellPaired, Called, WithUnlock, MeetsNow, Hits, Infos,
         SitesApart, BothSides;
    st := new LocksetState(Graph(0, map[]), (a, b) => true);
    MutexNames();
    st.VisitCallInst(1, "mutex_lock", {0});
    ghost var s := st.Now();
    st.VisitCallInst(1, "mutex_unlock", {0});
    ghost var e := Entry(1, 1, "mutex_unlock", {0}, {});
    BothMeet(st.g, st.ctxPrefix, s, Hits(st.g, st.ctxPrefix, s, e));
    BothAreNotApart();
  }
}
