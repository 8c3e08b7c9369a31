/** Dead-code elimination: compiler/internal/dce/selector.go and info.go.  A declaration is an
    identifier; its Info does not change while declarations are selected. */
module Dce {

  type Decl = nat
  type Name = string

  /** The dependencies in the order in which getDeps gives them. */
  datatype Info = Info(alive: bool, objectFilter: Name, methodFilter: Name, deps: seq<Name>)

  predicate Unnamed(d: Info) {
    d.objectFilter == "" && d.methodFilter == ""
  }

  predicate IsAlive(d: Info) {
    d.alive || Unnamed(d)
  }

  /** One call of Include. */
  datatype Inclusion = Inclusion(decl: Decl, implementsLink: bool)

  // ----- what the selection must be -----

  predicate IsRoot(dce: map<Decl, Info>, i: Inclusion) {
    i.decl in dce && (IsAlive(dce[i.decl]) || i.implementsLink)
  }

  /** A selected declaration depends on the name. */
  predicate Needed(dce: map<Decl, Info>, s: set<Decl>, name: Name) {
    exists d | d in s :: d in dce && name in dce[d].deps
  }

  predicate FiltersNeeded(dce: map<Decl, Info>, s: set<Decl>, d: Decl)
    requires d in dce
  {
    && (dce[d].objectFilter != "" ==> Needed(dce, s, dce[d].objectFilter))
    && (dce[d].methodFilter != "" ==> Needed(dce, s, dce[d].methodFilter))
  }

  /** s has the roots, and every declaration whose non-empty filters are all dependencies of s. */
  predicate Closed(dce: map<Decl, Info>, included: set<Inclusion>, s: set<Decl>) {
    forall i | i in included && i.decl in dce ::
      IsRoot(dce, i) || FiltersNeeded(dce, s, i.decl) ==> i.decl in s
  }

  /** The least such set. */
  ghost predicate Least(dce: map<Decl, Info>, included: set<Inclusion>, s: set<Decl>) {
    && Closed(dce, included, s)
    && forall t | Closed(dce, included, t) :: s <= t
  }

  lemma LeastUnique(dce: map<Decl, Info>, included: set<Inclusion>, s: set<Decl>, t: set<Decl>)
    requires Least(dce, included, s) && Least(dce, included, t)
    ensures s == t
  { }

  /** d is in every set that is closed. */
  ghost predicate Forced(dce: map<Decl, Info>, included: set<Inclusion>, d: Decl) {
    forall t | Closed(dce, included, t) :: d in t
  }

  /** A dependency of a forced declaration is a dependency of every closed set. */
  lemma ForcedFilters(dce: map<Decl, Info>, included: set<Inclusion>, s: set<Decl>, i: Inclusion)
    requires i in included && i.decl in dce && FiltersNeeded(dce, s, i.decl)
    requires forall d | d in s :: Forced(dce, included, d)
    ensures Forced(dce, included, i.decl)
  {
    forall t | Closed(dce, included, t) ensures i.decl in t {
      forall name | Needed(dce, s, name) ensures Needed(dce, t, name) {
        var d :| d in s && d in dce && name in dce[d].deps;
        assert Forced(dce, included, d);
      }
    }
  }

  // ----- the same, step by step -----

  /** The inclusion keeps its declaration, given the declarations kept so far: it is marked alive, has no name, is the
      target of a link, or each of its names is a dependency of one of them. */
  predicate Keeps(dce: map<Decl, Info>, i: Inclusion, kept: seq<Decl>)
    requires i.decl in dce
  {
    var d := dce[i.decl];
    || d.alive || i.implementsLink
    || ((d.objectFilter == "" || DependedOn(dce, kept, d.objectFilter))
        && (d.methodFilter == "" || DependedOn(dce, kept, d.methodFilter)))
  }

  predicate DependedOn(dce: map<Decl, Info>, kept: seq<Decl>, name: Name) {
    exists k | 0 <= k < |kept| :: kept[k] in dce && name in dce[kept[k]].deps
  }

  /** Some inclusion keeps d. */
  predicate KeptBy(dce: map<Decl, Info>, included: set<Inclusion>, d: Decl, kept: seq<Decl>) {
    exists i | i in included :: i.decl == d && d in dce && Keeps(dce, i, kept)
  }

  /** Each of these declarations is kept because of those before it. */
  predicate KeptInTurn(dce: map<Decl, Info>, included: set<Inclusion>, ds: seq<Decl>) {
    forall k | 0 <= k < |ds| :: KeptBy(dce, included, ds[k], ds[..k])
  }

  ghost predicate Kept(dce: map<Decl, Info>, included: set<Inclusion>, d: Decl) {
    exists ds :: d in ds && KeptInTurn(dce, included, ds)
  }

  lemma {:induction false} KeptAreForced(dce: map<Decl, Info>, included: set<Inclusion>, ds: seq<Decl>, s: set<Decl>)
    requires Closed(dce, included, s) && KeptInTurn(dce, included, ds)
    ensures forall d | d in ds :: d in s
    decreases |ds|
  {
    if ds != [] {
      var front, last := ds[..|ds| - 1], ds[|ds| - 1];
      forall k | 0 <= k < |front| ensures KeptBy(dce, included, front[k], front[..k]) {
        assert front[..k] == ds[..k];
        assert KeptBy(dce, included, ds[k], ds[..k]);
      }
      KeptAreForced(dce, included, front, s);
      assert KeptBy(dce, included, last, front);
      forall name | DependedOn(dce, front, name) ensures Needed(dce, s, name) {
        var k :| 0 <= k < |front| && front[k] in dce && name in dce[front[k]].deps;
        assert front[k] in s;
      }
    }
  }

  lemma DependedOnMore(dce: map<Decl, Info>, a: seq<Decl>, b: seq<Decl>)
    ensures forall name | DependedOn(dce, a, name) || DependedOn(dce, b, name) :: DependedOn(dce, a + b, name)
  {
    forall name | DependedOn(dce, a, name) || DependedOn(dce, b, name) ensures DependedOn(dce, a + b, name) {
      if k :| 0 <= k < |a| && a[k] in dce && name in dce[a[k]].deps {
        assert (a + b)[k] == a[k];
      } else {
        var k :| 0 <= k < |b| && b[k] in dce && name in dce[b[k]].deps;
        assert (a + b)[|a| + k] == b[k];
      }
    }
  }

  lemma KeptBoth(dce: map<Decl, Info>, included: set<Inclusion>, a: seq<Decl>, b: seq<Decl>)
    requires KeptInTurn(dce, included, a) && KeptInTurn(dce, included, b)
    ensures KeptInTurn(dce, included, a + b)
  {
    forall k | 0 <= k < |a + b| ensures KeptBy(dce, included, (a + b)[k], (a + b)[..k]) {
      hide DependedOn;
      if k < |a| {
        assert (a + b)[..k] == a[..k];
      } else {
        assert KeptBy(dce, included, b[k - |a|], b[..k - |a|]);
        assert (a + b)[..k] == a + b[..k - |a|];
        DependedOnMore(dce, a, b[..k - |a|]);
      }
    }
  }

  /** A declaration that depends on the name is kept. */
  lemma KeptDependency(dce: map<Decl, Info>, included: set<Inclusion>, s: set<Decl>, name: Name) returns (ds: seq<Decl>)
    requires forall d | d in s :: Kept(dce, included, d)
    ensures KeptInTurn(dce, included, ds) && (Needed(dce, s, name) ==> DependedOn(dce, ds, name))
  {
    ds := [];
    if Needed(dce, s, name) {
      hide KeptInTurn;
      var d :| d in s && d in dce && name in dce[d].deps;
      ds :| d in ds && KeptInTurn(dce, included, ds);
      var k :| 0 <= k < |ds| && ds[k] == d;
    }
  }

  lemma KeptNext(dce: map<Decl, Info>, included: set<Inclusion>, s: set<Decl>, i: Inclusion)
    requires i in included && i.decl in dce && forall d | d in s :: Kept(dce, included, d)
    requires IsRoot(dce, i) || FiltersNeeded(dce, s, i.decl)
    ensures Kept(dce, included, i.decl)
  {
    hide DependedOn, Needed;
    var a := KeptDependency(dce, included, s, dce[i.decl].objectFilter);
    var b := KeptDependency(dce, included, s, dce[i.decl].methodFilter);
    KeptBoth(dce, included, a, b);
    DependedOnMore(dce, a, b);
    KeptSnoc(dce, included, a + b, i);
  }

  lemma KeptSnoc(dce: map<Decl, Info>, included: set<Inclusion>, kept: seq<Decl>, i: Inclusion)
    requires KeptInTurn(dce, included, kept) && i in included && i.decl in dce && Keeps(dce, i, kept)
    ensures Kept(dce, included, i.decl)
  {
    hide Keeps;
    var ds := kept + [i.decl];
    forall k | 0 <= k < |ds| ensures KeptBy(dce, included, ds[k], ds[..k]) {
      assert ds[..k] == kept[..k];
      if k < |kept| { assert KeptBy(dce, included, kept[k], kept[..k]); } else { assert kept[..k] == kept; }
    }
    assert i.decl in ds;
    assert KeptInTurn(dce, included, ds);
  }

  /** The least set holds exactly the declarations that are kept in turn. */
  lemma LeastIsKept(dce: map<Decl, Info>, included: set<Inclusion>, s: set<Decl>)
    requires Least(dce, included, s)
    ensures forall d :: d in s <==> Kept(dce, included, d)
  {
    hide KeptInTurn, FiltersNeeded, IsRoot;
    forall d | Kept(dce, included, d) ensures d in s {
      var ds :| d in ds && KeptInTurn(dce, included, ds);
      KeptAreForced(dce, included, ds, s);
    }
    var kept := set d | d in s && Kept(dce, included, d);
    forall i | i in included && i.decl in dce && (IsRoot(dce, i) || FiltersNeeded(dce, kept, i.decl))
      ensures i.decl in kept
    {
      KeptNext(dce, included, kept, i);
      assert Kept(dce, included, i.decl);
    }
    assert Closed(dce, included, kept);
  }

  // ----- the selector -----

  /** A declaration that waits for its filters, in one or two buckets. */
  class DeclInfo {
    const decl: Decl
    ghost const inclusion: Inclusion
    var objectFilter: Name
    var methodFilter: Name

    constructor (decl: Decl, ghost inclusion: Inclusion, objectFilter: Name, methodFilter: Name)
      requires inclusion.decl == decl
      ensures this.decl == decl && this.inclusion == inclusion && this.objectFilter == objectFilter
              && this.methodFilter == methodFilter
    {
      this.decl, this.inclusion, this.objectFilter, this.methodFilter := decl, inclusion, objectFilter, methodFilter;
    }
  }

  /** What is left of a filter when the names in `seen` have turned up. */
  function Left(name: Name, seen: set<Name>): Name {
    if name in seen then "" else name
  }

  ghost predicate InBucket(dce: map<Decl, Info>, i: DeclInfo, name: Name) {
    i.decl in dce && (name == dce[i.decl].objectFilter || name == dce[i.decl].methodFilter)
  }

  ghost predicate BucketsHold(dce: map<Decl, Info>, byFilter: map<Name, seq<DeclInfo>>, infos: set<DeclInfo>,
                              seen: set<Name>) {
    && (forall i | i in infos :: i.decl in dce && i.inclusion.decl == i.decl)
    && (forall i, name | i in infos && name != "" && name !in seen && InBucket(dce, i, name) ::
          name in byFilter && i in byFilter[name])
    && (forall name | name in byFilter :: name != "" && name !in seen)
    && (forall name, i | name in byFilter && i in byFilter[name] :: i in infos && InBucket(dce, i, name))
  }

  /** One more declaration under its filters. */
  lemma OneMoreHolds(dce: map<Decl, Info>, was: map<Name, seq<DeclInfo>>, now: map<Name, seq<DeclInfo>>,
                     infos: set<DeclInfo>, info: DeclInfo)
    requires BucketsHold(dce, was, infos, {}) && info.decl in dce && info.inclusion.decl == info.decl
    requires forall n :: n in now <==> n in was || (n != "" && InBucket(dce, info, n))
    requires forall n, i | n in now ::
               i in now[n] <==> (n in was && i in was[n]) || (i == info && InBucket(dce, info, n))
    ensures BucketsHold(dce, now, infos + {info}, {})
  { }

  class Selector {
    const dce: map<Decl, Info>
    var byFilter: map<Name, seq<DeclInfo>>
    var pendingDecls: seq<Decl>
    ghost var included: set<Inclusion>
    ghost var infos: set<DeclInfo>
    ghost var seen: set<Name>

    constructor (dce: map<Decl, Info>)
      ensures Valid() && this.dce == dce && included == {} && infos == {} && seen == {} && fresh(infos)
    {
      this.dce, byFilter, pendingDecls, included, infos, seen := dce, map[], [], {}, {}, {};
    }

    /** The buckets hold exactly the waiting declarations, under each filter that has not turned up. */
    ghost predicate Buckets()
      reads this`byFilter, this`included, this`infos, this`seen
    {
      && (forall i | i in infos :: i.inclusion in included)
      && BucketsHold(dce, byFilter, infos, seen)
    }

    /** Each waiting declaration's filters are what is left of them. */
    ghost predicate Filters()
      reads this`infos, this`seen, infos
    {
      forall i | i in infos :: Turned(i, seen)
    }

    ghost predicate Turned(i: DeclInfo, names: set<Name>)
      reads i
    {
      i.decl in dce && i.objectFilter == Left(dce[i.decl].objectFilter, names)
      && i.methodFilter == Left(dce[i.decl].methodFilter, names)
    }

    /** What waits is what was included and is not alive; the roots are pending, and only they. */
    ghost predicate Valid()
      reads this, infos
    {
      && seen == {} && Buckets() && Filters() && AllWait()
      && (forall i | i in infos :: !IsAlive(dce[i.decl]))
      && (forall i | i in included && IsRoot(dce, i) :: i.decl in pendingDecls)
      && (forall d | d in pendingDecls :: exists i | i in included :: IsRoot(dce, i) && i.decl == d)
    }

    ghost predicate AllWait()
      reads this`included, this`infos
    {
      forall i | i in included && i.decl in dce && !IsAlive(dce[i.decl]) :: Waits(i)
    }

    ghost predicate Waits(i: Inclusion)
      reads this`infos
    {
      exists info | info in infos :: info.inclusion == i
    }

    /** Everything selected or pending must be selected. */
    ghost predicate Sound(selection: set<Decl>)
      reads this`pendingDecls, this`included
    {
      && (forall d | d in selection :: d in dce && Forced(dce, included, d))
      && (forall d | d in pendingDecls :: d in dce && Forced(dce, included, d))
    }

    /** A declaration with no filter left is selected or pending. */
    ghost predicate Woken(selection: set<Decl>)
      reads this`pendingDecls, this`infos, infos
    {
      forall i | i in infos && i.objectFilter == "" && i.methodFilter == "" ::
        i.decl in selection || i.decl in pendingDecls
    }

    method Include(decl: Decl, implementsLink: bool)
      requires Valid() && decl in dce
      modifies this
      ensures Valid() && included == old(included) + {Inclusion(decl, implementsLink)} && fresh(infos - old(infos))
    {
      hide BucketsHold, Filters;
      var d := dce[decl];
      ghost var inclusion := Inclusion(decl, implementsLink);
      included := included + {inclusion};
      if IsAlive(d) {
        pendingDecls := pendingDecls + [decl];
        return;
      }
      if implementsLink { pendingDecls := pendingDecls + [decl]; }
      Wait(decl, inclusion);
    }

    /** A declaration that is not known to be alive waits in the bucket of each of its filters. */
    method Wait(decl: Decl, ghost inclusion: Inclusion)
      requires decl in dce && inclusion in included && inclusion.decl == decl && seen == {} && Buckets() && Filters()
      modifies this`byFilter, this`infos
      ensures Buckets() && Filters() && fresh(infos - old(infos)) && old(infos) <= infos && Waits(inclusion)
      ensures forall i | i in infos - old(infos) :: i.decl == decl
    {
      var d := dce[decl];
      hide BucketsHold;
      var info := new DeclInfo(decl, inclusion, d.objectFilter, d.methodFilter);
      ghost var was := byFilter;
      if d.objectFilter != "" { AddTo(d.objectFilter, info); }
      if d.methodFilter != "" { AddTo(d.methodFilter, info); }
      OneMoreHolds(dce, was, byFilter, infos, info);
      infos := infos + {info};
      assert Turned(info, seen);
      forall i | i in old(infos) ensures Turned(i, seen) { assert old(Turned(i, seen)); }
    }

    method AddTo(name: Name, info: DeclInfo)
      modifies this`byFilter
      ensures byFilter.Keys == old(byFilter).Keys + {name}
      ensures forall n, i | n in byFilter ::
                i in byFilter[n] <==> (n in old(byFilter) && i in old(byFilter)[n]) || (n == name && i == info)
    {
      byFilter := byFilter[name := (if name in byFilter then byFilter[name] else []) + [info]];
    }

    method PopPending(ghost selection: set<Decl>) returns (d: Decl)
      requires pendingDecls != [] && Sound(selection) && Woken(selection)
      modifies this`pendingDecls
      ensures old(pendingDecls) == pendingDecls + [d] && d in dce
      ensures Sound(selection + {d}) && Woken(selection + {d})
    {
      var max := |pendingDecls| - 1;
      d := pendingDecls[max];
      assert d in pendingDecls;
      pendingDecls := pendingDecls[..max];
    }

    /** A name that a selected declaration depends on has turned up. */
    method Provide(dep: Name, ghost selection: set<Decl>)
      requires Buckets() && Filters() && Sound(selection) && Woken(selection) && Needed(dce, selection, dep)
      requires forall n | n in seen :: Needed(dce, selection, n)
      modifies this`byFilter, this`pendingDecls, this`seen, infos`objectFilter, infos`methodFilter
      ensures Buckets() && Filters() && Sound(selection) && Woken(selection) && seen == old(seen) + {dep}
      ensures forall d | d in old(pendingDecls) :: d in pendingDecls
      ensures |byFilter| <= old(|byFilter|) && (|byFilter| < old(|byFilter|) || pendingDecls == old(pendingDecls))
    {
      hide Buckets, Filters, Sound, Woken, Turned, InBucket, Needed;
      if dep !in byFilter {
        NoBucket(dep);
        return;
      }
      AllTurned();
      var bucket := byFilter[dep];
      MapShrinks(byFilter, dep);
      TakeBucket(dep);
      assert seen - {dep} == old(seen);
      assert forall i | i in infos :: Turned(i, seen - {dep});
      TurnBucket(dep, bucket, selection);
    }

    lemma AllTurned()
      requires Filters()
      ensures forall i | i in infos :: Turned(i, seen)
    { }

    /** Nothing waits for the name. */
    ghost method NoBucket(dep: Name)
      requires Buckets() && Filters() && dep !in byFilter
      modifies this`seen
      ensures Buckets() && Filters() && seen == old(seen) + {dep}
    {
      seen := seen + {dep};
      forall i | i in infos ensures Turned(i, seen) {
        assert Turned(i, old(seen));
      }
    }

    method TakeBucket(dep: Name)
      requires Buckets() && dep in byFilter
      modifies this`byFilter, this`seen
      ensures byFilter == old(byFilter) - {dep} && seen == old(seen) + {dep} && dep !in old(seen) && dep != ""
      ensures Buckets() && forall i | i in infos :: i in old(byFilter[dep]) <==> InBucket(dce, i, dep)
      ensures forall i | i in old(byFilter[dep]) :: i in infos
    {
      byFilter := byFilter - {dep};
      seen := seen + {dep};
    }

    /** The waiting declarations of a bucket lose the filter; those with none left become pending. */
    method TurnBucket(dep: Name, bucket: seq<DeclInfo>, ghost selection: set<Decl>)
      requires Buckets() && Sound(selection) && Woken(selection) && dep in seen && dep != ""
      requires forall n | n in seen :: Needed(dce, selection, n)
      requires forall i | i in infos :: Turned(i, seen - {dep}) && (i in bucket <==> InBucket(dce, i, dep))
      requires forall i | i in bucket :: i in infos
      modifies this`pendingDecls, infos`objectFilter, infos`methodFilter
      ensures Filters() && Sound(selection) && Woken(selection)
      ensures forall d | d in old(pendingDecls) :: d in pendingDecls
    {
      hide Sound, Needed, Buckets;
      ghost var before := seen - {dep};
      for k := 0 to |bucket|
        invariant forall i | i in infos :: Turned(i, if i in bucket[..k] then seen else before)
        invariant Woken(selection) && Sound(selection) && forall d | d in old(pendingDecls) :: d in pendingDecls
      {
        var info := bucket[k];
        assert info in infos && bucket[..k + 1] == bucket[..k] + [info];
        TurnOne(info, dep);
        if info.objectFilter == "" && info.methodFilter == "" { Push(info, selection); }
      }
      assert bucket[..|bucket|] == bucket;
    }

    /** All its filters are dependencies of selected declarations. */
    method Push(info: DeclInfo, ghost selection: set<Decl>)
      requires info in infos && Buckets() && Turned(info, seen) && info.objectFilter == "" && info.methodFilter == ""
      requires Sound(selection) && forall n | n in seen :: Needed(dce, selection, n)
      modifies this`pendingDecls
      ensures pendingDecls == old(pendingDecls) + [info.decl] && Sound(selection)
    {
      ForcedFilters(dce, included, selection, info.inclusion);
      pendingDecls := pendingDecls + [info.decl];
    }

    method TurnOne(info: DeclInfo, dep: Name)
      requires dep in seen && dep != "" && (Turned(info, seen - {dep}) || Turned(info, seen))
      modifies info`objectFilter, info`methodFilter
      ensures Turned(info, seen)
    {
      if info.objectFilter == dep { info.objectFilter := ""; }
      if info.methodFilter == dep { info.methodFilter := ""; }
    }

    /** When nothing is pending the selection is closed. */
    lemma SelectionClosed(selection: set<Decl>)
      requires Buckets() && Filters() && Sound(selection) && Woken(selection) && AllWait() && pendingDecls == []
      requires forall d | d in selection :: d in dce && Provided(dce[d].deps)
      requires forall i | i in included && IsRoot(dce, i) :: i.decl in selection
      ensures Least(dce, included, selection)
    {
      forall i | i in included && i.decl in dce && (IsRoot(dce, i) || FiltersNeeded(dce, selection, i.decl))
        ensures i.decl in selection
      {
        if !IsRoot(dce, i) {
          assert Waits(i);
          var info :| info in infos && info.inclusion == i;
          forall n | Needed(dce, selection, n) ensures n in seen { }
          assert info.objectFilter == "" && info.methodFilter == "";
        }
      }
      forall t | Closed(dce, included, t) ensures selection <= t {
        forall d | d in selection ensures d in t { assert Forced(dce, included, d); }
      }
    }

    /** AliveDecls: exactly the least set. */
    method AliveDecls() returns (dceSelection: set<Decl>)
      requires Valid()
      modifies this, infos`objectFilter, infos`methodFilter
      ensures Least(dce, old(included), dceSelection)
      ensures forall d :: d in dceSelection <==> Kept(dce, old(included), d)
    {
      dceSelection := {};
      RootsForced(dce, included, pendingDecls);
      assert Sound(dceSelection) && Woken(dceSelection);
      hide Buckets, Filters, Sound, Woken, AllWait, IsRoot, IsAlive, Needed, Least, Forced, Kept;
      while pendingDecls != []
        invariant Buckets() && Filters() && Sound(dceSelection) && Woken(dceSelection) && AllWait()
        invariant infos == old(infos) && included == old(included)
        invariant forall d | d in dceSelection :: d in dce && Provided(dce[d].deps)
        invariant forall n | n in seen :: Needed(dce, dceSelection, n)
        invariant forall i | i in included && IsRoot(dce, i) :: i.decl in dceSelection || i.decl in pendingDecls
        decreases |byFilter|, |pendingDecls|
      {
        var d := PopPending(dceSelection);
        ghost var others := dceSelection;
        dceSelection := dceSelection + {d};
        ProvideAll(d, dceSelection);
        forall x | x in dceSelection ensures x in dce && Provided(dce[x].deps) {
          if x in others { assert forall n | n in dce[x].deps :: n in seen; }
        }
      }
      SelectionClosed(dceSelection);
      LeastIsKept(dce, included, dceSelection);
    }

    ghost predicate Provided(deps: seq<Name>)
      reads this`seen
    {
      forall n | n in deps :: n in seen
    }

    /** The loop over the dependencies of a declaration that is now selected. */
    method ProvideAll(d: Decl, ghost selection: set<Decl>)
      requires d in selection && d in dce
      requires Buckets() && Filters() && Sound(selection) && Woken(selection)
      requires forall n | n in seen :: n in dce[d].deps || Needed(dce, selection, n)
      modifies this`byFilter, this`pendingDecls, this`seen, infos`objectFilter, infos`methodFilter
      ensures Buckets() && Filters() && Sound(selection) && Woken(selection)
      ensures Provided(dce[d].deps) && old(seen) <= seen && forall n | n in seen :: Needed(dce, selection, n)
      ensures forall x | x in old(pendingDecls) :: x in pendingDecls
      ensures |byFilter| <= old(|byFilter|) && (|byFilter| < old(|byFilter|) || pendingDecls == old(pendingDecls))
    {
      hide Buckets, Filters, Sound, Woken;
      var deps := dce[d].deps;
      for k := 0 to |deps|
        invariant Buckets() && Filters() && Sound(selection) && Woken(selection)
        invariant old(seen) <= seen && (forall j | 0 <= j < k :: deps[j] in seen)
                  && forall n | n in seen :: Needed(dce, selection, n)
        invariant forall x | x in old(pendingDecls) :: x in pendingDecls
        invariant |byFilter| <= old(|byFilter|) && (|byFilter| < old(|byFilter|) || pendingDecls == old(pendingDecls))
      {
        assert deps[k] in dce[d].deps;
        Provide(deps[k], selection);
      }
    }
  }

  lemma MapShrinks<T>(m: map<Name, T>, g: Name)
    requires g in m
    ensures |m - {g}| < |m| && (m - {g}).Keys <= m.Keys
  {
    assert (m - {g}).Keys == m.Keys - {g};
    assert |m - {g}| == |(m - {g}).Keys|;
  }

  lemma RootsForced(dce: map<Decl, Info>, included: set<Inclusion>, pending: seq<Decl>)
    requires forall d | d in pending :: exists i | i in included :: IsRoot(dce, i) && i.decl == d
    ensures forall d | d in pending :: d in dce && Forced(dce, included, d)
  { }
}
