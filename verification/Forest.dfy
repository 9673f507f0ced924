/** Dependencies and composite nodes together: a leaf waits for its dependencies, a
    composite node for its children. */
module Forest {
  import opened Common
  import opened Composite
  import L = Landing

  type Deps = map<Path, set<Path>>

  /** What has to be resolved before `x` can be. */
  function Needs(t: Tree, deps: Deps, x: Path): set<Path> {
    if ChildrenOf(t, x) != {} then ChildrenOf(t, x) else if x in deps then deps[x] else {}
  }

  /** An unresolved leaf that is not blocked. */
  predicate CanSignal(t: Tree, deps: Deps, p: Path) {
    && p in t && !IsResolved(t, p) && ChildrenOf(t, p) == {}
    && forall d | d in Needs(t, deps, p) :: d in t && IsResolved(t, d)
  }

  predicate Legal(t: Tree, deps: Deps, ps: seq<Path>) {
    ps == [] ||
    var init := ps[..|ps| - 1];
    Legal(t, deps, init) && CanSignal(SignalledAll(t, init), deps, ps[|ps| - 1])
  }

  predicate AllDone(t: Tree) {
    forall q | q in t :: IsResolved(t, q)
  }

  /** Some order of runs resolves every node. */
  ghost predicate CanFinish(t: Tree, deps: Deps) {
    exists ps :: Legal(t, deps, ps) && AllDone(SignalledAll(t, ps))
  }

  /** Every node of the path is unresolved and waits for the next one. */
  predicate IsChain(t: Tree, deps: Deps, path: seq<Path>) {
    && (forall i | 0 <= i < |path| :: path[i] in t && !IsResolved(t, path[i]))
    && (forall i | 0 <= i < |path| - 1 :: path[i + 1] in Needs(t, deps, path[i]))
  }

  predicate IsCycle(t: Tree, deps: Deps, path: seq<Path>) {
    |path| >= 2 && path[0] == path[|path| - 1] && IsChain(t, deps, path)
  }

  ghost predicate Acyclic(t: Tree, deps: Deps) {
    forall path :: !IsCycle(t, deps, path)
  }

  /** No unresolved node waits for one that does not exist. */
  predicate NothingMissing(t: Tree, deps: Deps) {
    forall x | x in t && !IsResolved(t, x) :: Needs(t, deps, x) <= t.Keys
  }

  // --------------------------------------------------------------- what never moves

  /** Nodes each of which waits for another of them, or for one that does not exist. */
  predicate Doomed(t: Tree, deps: Deps, xs: set<Path>) {
    forall x | x in xs :: x in t && !IsResolved(t, x) && exists y :: y in Needs(t, deps, x) && (y in xs || y !in t)
  }

  lemma DoomedCannotRun(t: Tree, deps: Deps, xs: set<Path>, q: Path)
    requires Doomed(t, deps, xs) && q in xs
    ensures !CanSignal(t, deps, q)
  {
    var y :| y in Needs(t, deps, q) && (y in xs || y !in t);
    assert y in t ==> !IsResolved(t, y);
  }

  lemma {:induction false} DoomedIsNotReached(t: Tree, deps: Deps, xs: set<Path>, p: Path, q: Path)
    requires TreeInv(t) && Doomed(t, deps, xs) && CanSignal(t, deps, p) && q in xs
    ensures !OnTheWay(p, Height(t, p), q)
    decreases |p| - |q|
  {
    var f := L.Flight(p, t, true);
    DoomedCannotRun(t, deps, xs, q);
    if L.Reaches(f, q) {
      L.ReachedThroughChild(f, q);
      var c :| c in ChildrenOf(t, q) && L.Reaches(f, c) && L.SawTheOthers(f, q, c);
      var y :| y in Needs(t, deps, q) && (y in xs || y !in t);
      assert y in ChildrenOf(t, q) && y == c;
      DoomedIsNotReached(t, deps, xs, p, c);
    }
  }

  lemma NeedsStay(t: Tree, t': Tree, deps: Deps, x: Path)
    requires t'.Keys == t.Keys
    ensures Needs(t', deps, x) == Needs(t, deps, x)
  {
    assert ChildrenOf(t', x) == ChildrenOf(t, x);
  }

  lemma DoomedStays(t: Tree, deps: Deps, xs: set<Path>, p: Path)
    requires TreeInv(t) && Doomed(t, deps, xs) && CanSignal(t, deps, p)
    ensures TreeInv(Signalled(t, p)) && Doomed(Signalled(t, p), deps, xs)
  {
    var t' := Signalled(t, p);
    RaisedKeeps(t, p, Height(t, p));
    forall x | x in xs
      ensures x in t' && !IsResolved(t', x) && exists y :: y in Needs(t', deps, x) && (y in xs || y !in t')
    {
      DoomedIsNotReached(t, deps, xs, p, x);
      NeedsStay(t, t', deps, x);
      var y :| y in Needs(t, deps, x) && (y in xs || y !in t);
      assert y in Needs(t', deps, x);
    }
  }

  lemma {:induction false} DoomedNeverResolves(t: Tree, deps: Deps, xs: set<Path>, ps: seq<Path>)
    requires TreeInv(t) && Doomed(t, deps, xs) && Legal(t, deps, ps)
    ensures TreeInv(SignalledAll(t, ps)) && Doomed(SignalledAll(t, ps), deps, xs)
  {
    if ps != [] {
      DoomedNeverResolves(t, deps, xs, ps[..|ps| - 1]);
      DoomedStays(SignalledAll(t, ps[..|ps| - 1]), deps, xs, ps[|ps| - 1]);
    }
  }

  lemma DoomedCannotFinish(t: Tree, deps: Deps, xs: set<Path>)
    requires TreeInv(t) && Doomed(t, deps, xs) && xs != {}
    ensures !CanFinish(t, deps)
  {
    forall ps | Legal(t, deps, ps)
      ensures !AllDone(SignalledAll(t, ps))
    {
      DoomedNeverResolves(t, deps, xs, ps);
      var x :| x in xs;
    }
  }

  lemma CycleIsDoomed(t: Tree, deps: Deps, path: seq<Path>)
    requires IsCycle(t, deps, path)
    ensures Doomed(t, deps, set x | x in path)
  {
    var xs := set x | x in path;
    forall x | x in xs
      ensures x in t && !IsResolved(t, x) && exists y :: y in Needs(t, deps, x) && (y in xs || y !in t)
    {
      var i :| 0 <= i < |path| && path[i] == x;
      var k := if i == |path| - 1 then 0 else i;
      assert path[k] == x && path[k + 1] in xs && path[k + 1] in Needs(t, deps, path[k]);
    }
  }

  // ------------------------------------------------------------- what always moves

  /** A node that cannot run waits for an unresolved one. */
  lemma WaitsForUnresolved(t: Tree, deps: Deps, x: Path) returns (y: Path)
    requires Closed(t) && NothingMissing(t, deps) && x in t && !IsResolved(t, x) && !CanSignal(t, deps, x)
    ensures y in Needs(t, deps, x) && y in t && !IsResolved(t, y)
  {
    if ChildrenOf(t, x) != {} {
      assert !AllResolved(t, x);
      y :| y in ChildrenOf(t, x) && !IsResolved(t, y);
    } else {
      y :| y in Needs(t, deps, x) && !(y in t && IsResolved(t, y));
      assert y in t;
    }
  }

  lemma ChainGrows(t: Tree, deps: Deps, path: seq<Path>, y: Path)
    requires path != [] && IsChain(t, deps, path)
    requires y in Needs(t, deps, path[|path| - 1]) && y in t && !IsResolved(t, y)
    ensures IsChain(t, deps, path + [y])
    ensures y in path ==> !Acyclic(t, deps)
  {
    var longer := path + [y];
    if y in path {
      var k :| 0 <= k < |path| && path[k] == y;
      var cycle := longer[k..];
      assert cycle[0] == y && cycle[|cycle| - 1] == y;
      forall i | 0 <= i < |cycle| - 1
        ensures cycle[i + 1] in Needs(t, deps, cycle[i])
      {
        assert longer[k + i + 1] in Needs(t, deps, longer[k + i]);
      }
      assert IsCycle(t, deps, cycle);
    }
  }

  /** Without a cycle, following what a node waits for ends at one that can run. */
  lemma {:induction false} FindRunnable(t: Tree, deps: Deps, path: seq<Path>, unseen: set<Path>) returns (p: Path)
    requires Closed(t) && NothingMissing(t, deps) && Acyclic(t, deps) && path != [] && IsChain(t, deps, path)
    requires forall x | x in t && x !in path :: x in unseen
    ensures CanSignal(t, deps, p)
    decreases unseen
  {
    var x := path[|path| - 1];
    if CanSignal(t, deps, x) {
      p := x;
    } else {
      var y := WaitsForUnresolved(t, deps, x);
      ChainGrows(t, deps, path, y);
      assert y in unseen;
      forall z | z in t && z !in path + [y]
        ensures z in unseen - {y}
      {
        assert (path + [y])[|path|] == y && z !in path;
      }
      p := FindRunnable(t, deps, path + [y], unseen - {y});
    }
  }

  function Unresolved(t: Tree): set<Path> {
    set q | q in t && !IsResolved(t, q)
  }

  ghost predicate OnlyResolves(t: Tree, t': Tree) {
    t'.Keys == t.Keys && forall q | q in t && IsResolved(t, q) :: IsResolved(t', q)
  }

  lemma NothingGoesMissing(t: Tree, t': Tree, deps: Deps)
    requires OnlyResolves(t, t') && NothingMissing(t, deps)
    ensures NothingMissing(t', deps)
  {
    forall x | x in t' && !IsResolved(t', x)
      ensures Needs(t', deps, x) <= t'.Keys
    {
      NeedsStay(t, t', deps, x);
    }
  }

  lemma WasChain(t: Tree, t': Tree, deps: Deps, path: seq<Path>)
    requires OnlyResolves(t, t') && IsChain(t', deps, path)
    ensures IsChain(t, deps, path)
  {
    forall i | 0 <= i < |path| - 1
      ensures path[i + 1] in Needs(t, deps, path[i])
    {
      NeedsStay(t, t', deps, path[i]);
    }
  }

  lemma StaysAcyclic(t: Tree, t': Tree, deps: Deps)
    requires OnlyResolves(t, t') && Acyclic(t, deps)
    ensures Acyclic(t', deps)
  {
    forall path
      ensures !IsCycle(t', deps, path)
    {
      if IsChain(t', deps, path) {
        WasChain(t, t', deps, path);
        assert !IsCycle(t, deps, path);
      }
    }
  }

  /** A signal keeps what the argument needs and leaves less to do. */
  lemma SignalKeepsMoving(t: Tree, deps: Deps, p: Path)
    requires TreeInv(t) && Closed(t) && NothingMissing(t, deps) && Acyclic(t, deps) && CanSignal(t, deps, p)
    ensures var t' := Signalled(t, p);
            && TreeInv(t') && Closed(t') && NothingMissing(t', deps) && Acyclic(t', deps)
            && Unresolved(t') < Unresolved(t)
  {
    var t' := Signalled(t, p);
    SignalKeepsClosed(t, p);
    RaisedKeeps(t, p, Height(t, p));
    NothingGoesMissing(t, t', deps);
    StaysAcyclic(t, t', deps);
    assert p in Unresolved(t) && p !in Unresolved(t');
  }

  lemma {:induction false} Finish(t: Tree, deps: Deps, done: seq<Path>) returns (ps: seq<Path>)
    requires Legal(t, deps, done)
    requires var now := SignalledAll(t, done);
             TreeInv(now) && Closed(now) && NothingMissing(now, deps) && Acyclic(now, deps)
    ensures Legal(t, deps, ps) && AllDone(SignalledAll(t, ps))
    decreases Unresolved(SignalledAll(t, done))
  {
    var now := SignalledAll(t, done);
    if Unresolved(now) == {} {
      assert forall q | q in now :: q !in Unresolved(now);
      ps := done;
    } else {
      var x :| x in Unresolved(now);
      var p := FindRunnable(now, deps, [x], now.Keys);
      SignalKeepsMoving(now, deps, p);
      assert (done + [p])[..|done|] == done;
      ps := Finish(t, deps, done + [p]);
    }
  }

  /** Every node can be resolved exactly when no unresolved node waits, through
      dependencies and children, for itself or for one that does not exist. */
  lemma CanFinishIff(t: Tree, deps: Deps)
    requires TreeInv(t) && Closed(t)
    ensures CanFinish(t, deps) <==> Acyclic(t, deps) && NothingMissing(t, deps)
  {
    if !Acyclic(t, deps) {
      var path :| IsCycle(t, deps, path);
      CycleIsDoomed(t, deps, path);
      assert path[0] in (set x | x in path);
      DoomedCannotFinish(t, deps, set x | x in path);
    } else if !NothingMissing(t, deps) {
      var x :| x in t && !IsResolved(t, x) && !(Needs(t, deps, x) <= t.Keys);
      var y :| y in Needs(t, deps, x) && y !in t;
      DoomedCannotFinish(t, deps, {x});
    } else {
      var ps := Finish(t, deps, []);
    }
  }

  /** A leaf that depends on a node above it is such a cycle. */
  lemma AncestorDepIsDoomed(t: Tree, deps: Deps, a: Path, c: Path)
    requires TreeInv(t) && a < c && a != [] && PathUnresolved(t, a, c)
    requires ChildrenOf(t, c) == {} && c in deps && a in deps[c]
    ensures !CanFinish(t, deps)
  {
    var n := |c| - |a|;
    var xs := set i | 0 <= i <= n :: Up(c, i);
    AncestorIs(c, a);
    assert Up(c, n) in xs && Up(c, 0) == c;
    forall x | x in xs
      ensures x in t && !IsResolved(t, x) && exists y :: y in Needs(t, deps, x) && (y in xs || y !in t)
    {
      var i :| 0 <= i <= n && x == Up(c, i);
      if i == 0 {
        assert a in Needs(t, deps, x) && a in xs;
      } else {
        assert Up(c, i - 1) in ChildrenOf(t, x) && Up(c, i - 1) in xs;
      }
    }
    DoomedCannotFinish(t, deps, xs);
  }
}
