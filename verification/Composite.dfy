/** Composite facts: a node is resolved by its children, as far up as that goes. */
module Composite {
  import opened Chain

  /** The path of a node below the tasks root, one segment per level. */
  type Path = seq<nat>

  type Tree = map<Path, Dir>

  function Parent(p: Path): Path
    requires p != []
  {
    p[..|p| - 1]
  }

  /** The ancestor `i` levels up. */
  function Up(p: Path, i: nat): (q: Path)
    requires i <= |p|
    ensures |q| == |p| - i && q <= p
  {
    p[..|p| - i]
  }

  predicate IsChild(c: Path, q: Path) {
    |c| == |q| + 1 && c[..|q|] == q
  }

  predicate IsResolved(t: Tree, p: Path)
    requires p in t
  {
    AcceptedState(t[p]).Resolved?
  }

  function ChildrenOf(t: Tree, q: Path): set<Path> {
    set c | c in t && IsChild(c, q)
  }

  predicate AllResolved(t: Tree, q: Path) {
    forall c | c in ChildrenOf(t, q) :: IsResolved(t, c)
  }

  /** A fact and a successful run under the next number, no audit. */
  function WithFact(d: Dir): Dir {
    d.(runs := d.runs[NextRun(d) := Success], facts := d.facts + {NextRun(d)})
  }

  ghost predicate TreeInv(t: Tree) {
    [] !in t && forall p | p in t :: Numbered(t[p])
  }

  /** A parent whose children are all resolved is resolved itself. */
  predicate Closed(t: Tree) {
    forall q | q in t && ChildrenOf(t, q) != {} && AllResolved(t, q) :: IsResolved(t, q)
  }

  /** The numbering makes the new fact the latest, so it resolves the node. */
  lemma WithFactResolves(d: Dir)
    requires Numbered(d)
    ensures Numbered(WithFact(d)) && AcceptedState(WithFact(d)).Resolved?
  {
    NewRunKeepsNumbers(d, Success);
    NewFactIsLatest(d, WithFact(d).facts);
  }

  // -------------------------------------------------- what one signal resolves

  /** `q` is unresolved and `c` was the last of its children to be. */
  predicate WouldRise(t: Tree, q: Path, c: Path) {
    && q in t && !IsResolved(t, q)
    && forall b | b in ChildrenOf(t, q) && b != c :: IsResolved(t, b)
  }

  /** How far up a resolved `c` resolves its ancestors, seen before the signal. */
  function Height(t: Tree, c: Path): nat
    decreases |c|
  {
    if |c| < 2 || !WouldRise(t, Parent(c), c) then 0 else 1 + Height(t, Parent(c))
  }

  /** `p` and its next `k` ancestors. */
  predicate OnTheWay(p: Path, k: nat, q: Path) {
    q <= p && |p| - |q| <= k
  }

  function Raised(t: Tree, p: Path, k: nat): Tree {
    map q | q in t :: if OnTheWay(p, k, q) then WithFact(t[q]) else t[q]
  }

  lemma RaisedKeeps(t: Tree, p: Path, k: nat)
    requires TreeInv(t)
    ensures TreeInv(Raised(t, p, k))
    ensures forall q | q in t :: IsResolved(Raised(t, p, k), q) <==> IsResolved(t, q) || OnTheWay(p, k, q)
  {
    forall q | q in t
      ensures Numbered(Raised(t, p, k)[q])
      ensures IsResolved(Raised(t, p, k), q) <==> IsResolved(t, q) || OnTheWay(p, k, q)
    {
      WithFactResolves(t[q]);
    }
  }

  /** Seen on the tree as raised so far, the next parent rises exactly when it
      would have risen on the tree before the signal. */
  lemma RiseOnRaised(t: Tree, p: Path, k: nat)
    requires TreeInv(t) && k + 2 <= |p| && Up(p, k) in t
    ensures var c, q := Up(p, k), Up(p, k + 1);
            && Parent(c) == q && c in ChildrenOf(t, q)
            && (WouldRise(t, q, c) <==> q in t && !IsResolved(Raised(t, p, k), q) && AllResolved(Raised(t, p, k), q))
            && ChildrenOf(Raised(t, p, k), q) == ChildrenOf(t, q)
  {
    var c, q := Up(p, k), Up(p, k + 1);
    var t' := Raised(t, p, k);
    RaisedKeeps(t, p, k);
    assert ChildrenOf(t', q) == ChildrenOf(t, q);
    assert !OnTheWay(p, k, q);
    assert forall b | b in ChildrenOf(t, q) :: OnTheWay(p, k, b) <==> b == c;
  }

  /** There is one ancestor on each level. */
  lemma AncestorIs(p: Path, q: Path)
    requires q <= p
    ensures q == Up(p, |p| - |q|)
  {
  }

  lemma OneFurtherUp(p: Path, k: nat, r: Path)
    requires k < |p|
    ensures OnTheWay(p, k + 1, r) <==> OnTheWay(p, k, r) || r == Up(p, k + 1)
  {
    if r <= p {
      AncestorIs(p, r);
    }
  }

  lemma RaisedByOne(t: Tree, p: Path, k: nat)
    requires k < |p| && Up(p, k + 1) in t
    ensures var q := Up(p, k + 1);
            Raised(t, p, k)[q := WithFact(Raised(t, p, k)[q])] == Raised(t, p, k + 1)
  {
    var q := Up(p, k + 1);
    forall r | r in t
      ensures OnTheWay(p, k + 1, r) <==> OnTheWay(p, k, r) || r == q
    {
      OneFurtherUp(p, k, r);
    }
    assert !OnTheWay(p, k, q);
  }

  lemma RaisedByNone(t: Tree, p: Path)
    requires p in t
    ensures t[p := WithFact(t[p])] == Raised(t, p, 0)
  {
    assert forall q | q in t :: OnTheWay(p, 0, q) <==> q == p;
  }

  /** The ancestor `i + 1` levels up rises once the one below it has. */
  predicate Rises(t: Tree, p: Path, i: nat)
    requires i < |p|
  {
    WouldRise(t, Up(p, i + 1), Up(p, i))
  }

  lemma RisesFromParent(t: Tree, p: Path, i: nat)
    requires 1 <= i < |p|
    ensures Rises(t, p, i) <==> Rises(t, Parent(p), i - 1)
  {
    assert Up(Parent(p), i - 1) == Up(p, i) && Up(Parent(p), i) == Up(p, i + 1);
  }

  /** The height is the one number of levels such that every level rises and the
      next one does not. */
  lemma {:induction false} HeightIsMaximal(t: Tree, p: Path, k: nat)
    requires k < |p|
    ensures k == Height(t, p) <==>
            (forall i | 0 <= i < k :: Rises(t, p, i)) && (k + 1 == |p| || !Rises(t, p, k))
    decreases k
  {
    assert Up(p, 0) == p && Up(p, 1) == Parent(p);
    if k > 0 {
      var up := Parent(p);
      HeightIsMaximal(t, up, k - 1);
      forall i | 1 <= i <= k
        ensures Rises(t, p, i) <==> Rises(t, up, i - 1)
      {
        RisesFromParent(t, p, i);
      }
      if forall i | 0 <= i < k :: Rises(t, p, i) {
        assert Rises(t, p, 0);
        forall j | 0 <= j < k - 1
          ensures Rises(t, up, j)
        {
          RisesFromParent(t, p, j + 1);
        }
      }
    } else if |p| > 1 {
      assert Rises(t, p, 0) <==> WouldRise(t, Parent(p), p);
    }
  }

  lemma {:induction false} HeightSplits(t: Tree, p: Path, i: nat)
    requires i <= Height(t, p)
    ensures i <= |p| && Height(t, p) == i + Height(t, Up(p, i))
    decreases i
  {
    if i == 0 {
      assert Up(p, 0) == p;
    } else {
      HeightSplits(t, Parent(p), i - 1);
      assert Up(Parent(p), i - 1) == Up(p, i);
    }
  }

  /** The tree after one signal on `p`. */
  function Signalled(t: Tree, p: Path): Tree {
    Raised(t, p, Height(t, p))
  }

  /** A parent is never left unresolved above resolved children. */
  lemma SignalKeepsClosed(t: Tree, p: Path)
    requires TreeInv(t) && Closed(t)
    ensures TreeInv(Signalled(t, p)) && Closed(Signalled(t, p))
  {
    var k := Height(t, p);
    var t' := Signalled(t, p);
    RaisedKeeps(t, p, k);
    forall q | q in t' && ChildrenOf(t', q) != {} && AllResolved(t', q)
      ensures IsResolved(t', q)
    {
      assert ChildrenOf(t', q) == ChildrenOf(t, q);
      if !AllResolved(t, q) {
        var c :| c in ChildrenOf(t, q) && !IsResolved(t, c);
        LastChildRaisesParent(t, p, q, c);
      }
    }
  }

  lemma LastChildRaisesParent(t: Tree, p: Path, q: Path, c: Path)
    requires TreeInv(t) && q in t && c in ChildrenOf(t, q) && !IsResolved(t, c)
    requires forall b | b in ChildrenOf(t, q) :: IsResolved(t, b) || OnTheWay(p, Height(t, p), b)
    ensures IsResolved(t, q) || OnTheWay(p, Height(t, p), q)
  {
    var k := Height(t, p);
    var i := |p| - |c|;
    assert c == Up(p, i) && Parent(c) == q;
    assert forall b | b in ChildrenOf(t, q) && b <= p :: b == c;
    HeightSplits(t, p, i);
    if i == k {
      assert !WouldRise(t, q, c);
    } else {
      assert q <= p;
    }
  }

  function SignalledAll(t: Tree, ps: seq<Path>): Tree {
    if ps == [] then t else Signalled(SignalledAll(t, ps[..|ps| - 1]), ps[|ps| - 1])
  }

  /** Over any sequence of signals the tree stays closed and nothing that was
      resolved is lost. */
  lemma {:induction false} SignalsKeepClosed(t: Tree, ps: seq<Path>)
    requires TreeInv(t) && Closed(t)
    ensures TreeInv(SignalledAll(t, ps)) && Closed(SignalledAll(t, ps))
    ensures SignalledAll(t, ps).Keys == t.Keys
    ensures forall q | q in t && IsResolved(t, q) :: IsResolved(SignalledAll(t, ps), q)
  {
    if ps != [] {
      var before := SignalledAll(t, ps[..|ps| - 1]);
      SignalsKeepClosed(t, ps[..|ps| - 1]);
      SignalKeepsClosed(before, ps[|ps| - 1]);
      RaisedKeeps(before, ps[|ps| - 1], Height(before, ps[|ps| - 1]));
    }
  }

  /** In a closed tree a node with children is resolved by signals on its leaves
      alone: a signal resolves a parent exactly when it was the last one missing. */
  lemma ParentResolvedIff(t: Tree, p: Path, q: Path)
    requires TreeInv(t) && Closed(t) && p in t && q in t && IsChild(p, q)
    ensures IsResolved(Signalled(t, p), q) <==>
            IsResolved(t, q) || forall b | b in ChildrenOf(t, q) && b != p :: IsResolved(t, b)
  {
    RaisedKeeps(t, p, Height(t, p));
    assert Parent(p) == q;
    if !IsResolved(t, q) && OnTheWay(p, Height(t, p), q) {
      assert Height(t, p) >= 1;
    }
  }

  // --------------------------------------------------- signals over open audits

  /** A synthetic fact keeps the version chain in order exactly when the node is
      neither resolved nor under audit, which is not looked at. */
  lemma FactKeepsChainIff(d: Dir)
    requires ChainInv(d)
    ensures ChainInv(WithFact(d)) <==> Gate(d)
  {
    var d' := WithFact(d);
    NewRunKeepsNumbers(d, Success);
    NewFactIsLatest(d, d'.facts);
    WithFactResolves(d);
    if Gate(d) {
      forall f | f in d'.facts && f < Latest(d'.facts)
        ensures f in d'.verdicts && !d'.verdicts[f]
      {
        AllRejectedAtGate(d, f);
      }
    } else {
      var f := Latest(d.facts);
      assert f in d.facts && f in d.runs;
      assert f in d'.facts && f < Latest(d'.facts);
    }
  }

  lemma OnTheWayIff(t: Tree, p: Path, q: Path)
    requires q != [] && q < p
    ensures OnTheWay(p, Height(t, p), q) <==> forall i | 0 <= i < |p| - |q| :: Rises(t, p, i)
  {
    var n, h := |p| - |q|, Height(t, p);
    HeightIsBelow(t, p);
    HeightIsMaximal(t, p, h);
    if n <= h {
      assert forall i | 0 <= i < n :: Rises(t, p, i);
    } else {
      assert h + 1 != |p| && !Rises(t, p, h);
    }
  }

  lemma {:induction false} HeightIsBelow(t: Tree, p: Path)
    requires p != []
    ensures Height(t, p) < |p|
    decreases |p|
  {
    if |p| >= 2 {
      HeightIsBelow(t, Parent(p));
    }
  }

  /** A signal resolves an ancestor over its open audit exactly when every level up
      to it rises: the audit is not asked for. The cycle stays open, and its verdict
      no longer decides anything. */
  lemma AuditIsBypassedIff(t: Tree, p: Path, q: Path, ok: bool)
    requires TreeInv(t) && p in t && q in t && q < p && ChainInv(t[q]) && AcceptedState(t[q]).PendingAudit?
    ensures var d := Signalled(t, p)[q];
            && (AcceptedState(d).Resolved? <==> forall i | 0 <= i < |p| - |q| :: Rises(t, p, i))
            && OpenAudit(d) == OpenAudit(t[q]) != 0
            && (AcceptedState(d).Resolved? ==> AcceptedState(After(d, Verdict(ok))).Resolved? && !ChainInv(d))
  {
    assert q != [];
    OnTheWayIff(t, p, q);
    OpenAuditIsPending(t[q]);
    if OnTheWay(p, Height(t, p), q) {
      FactKeepsChainIff(t[q]);
      VerdictAfterFact(t[q], ok);
    }
  }

  lemma OpenAuditIsPending(d: Dir)
    requires ChainInv(d) && AcceptedState(d).PendingAudit?
    ensures OpenAudit(d) == Latest(d.facts) != 0
  {
    var n := Latest(d.facts);
    assert n in d.pending;
    LatestIs(d.pending, n);
  }

  lemma VerdictAfterFact(d: Dir, ok: bool)
    requires Numbered(d)
    ensures AcceptedState(WithFact(d)).Resolved?
    ensures AcceptedState(After(WithFact(d), Verdict(ok))).Resolved?
  {
    WithFactResolves(d);
    NewFactIsLatest(d, WithFact(d).facts);
    NewRunKeepsNumbers(d, Success);
    assert NextRun(d) !in d.pending;
  }

  // --------------------------------------------------------- waiting for an ancestor

  /** The nodes from `a` down to `c` are there and unresolved. */
  predicate PathUnresolved(t: Tree, a: Path, c: Path) {
    forall i | 0 <= i <= |c| - |a| :: Up(c, i) in t && !IsResolved(t, Up(c, i))
  }

  /** Neither on the path from `a` down to `c` nor below `c`. */
  predicate Elsewhere(p: Path, a: Path, c: Path) {
    !(a <= p && p <= c) && !(c <= p)
  }

  lemma NoRiseAboveUnresolved(t: Tree, p: Path, a: Path, c: Path, i: nat)
    requires a != [] && a <= c && PathUnresolved(t, a, c) && Elsewhere(p, a, c) && p in t && p != []
    requires i <= |c| - |a|
    ensures !OnTheWay(p, Height(t, p), Up(c, i))
    decreases i
  {
    var q := Up(c, i);
    if q <= p {
      assert a <= q by {
        AncestorIs(c, a);
      }
      assert q != p && i > 0;
      OnTheWayIff(t, p, q);
      var n := |p| - |q| - 1;
      var below := Up(c, i - 1);
      if below <= p {
        NoRiseAboveUnresolved(t, p, a, c, i - 1);
      } else {
        AncestorIs(p, q);
        assert Up(p, n + 1) == q && IsChild(below, q) && below != Up(p, n);
        assert below in ChildrenOf(t, q);
        assert !Rises(t, p, n);
      }
    }
  }

  /** A node that waits for a proper ancestor waits for ever: no signals elsewhere
      resolve anything on the path between them, since that path only resolves from
      below. */
  lemma {:induction false} AncestorNeverResolvesFirst(t: Tree, ps: seq<Path>, a: Path, c: Path)
    requires TreeInv(t) && a != [] && a < c && PathUnresolved(t, a, c)
    requires forall p | p in ps :: p in t && Elsewhere(p, a, c)
    ensures PathUnresolved(SignalledAll(t, ps), a, c)
    ensures TreeInv(SignalledAll(t, ps)) && SignalledAll(t, ps).Keys == t.Keys
  {
    if ps != [] {
      var before, p := SignalledAll(t, ps[..|ps| - 1]), ps[|ps| - 1];
      AncestorNeverResolvesFirst(t, ps[..|ps| - 1], a, c);
      RaisedKeeps(before, p, Height(before, p));
      forall i | 0 <= i <= |c| - |a|
        ensures Up(c, i) in SignalledAll(t, ps) && !IsResolved(SignalledAll(t, ps), Up(c, i))
      {
        NoRiseAboveUnresolved(before, p, a, c, i);
      }
    }
  }

  // -------------------------------------------------------------- implementation

  /** What is checked before a synthetic fact is written. */
  predicate CanRise(t: Tree, q: Path) {
    q in t && !IsResolved(t, q) && ChildrenOf(t, q) != {} && AllResolved(t, q)
  }

  lemma NextLevel(t: Tree, p: Path, k: nat)
    requires TreeInv(t) && k + 2 <= |p| && Up(p, k) in t
    ensures CanRise(Raised(t, p, k), Up(p, k + 1)) <==> Height(t, Up(p, k)) > 0
    ensures Height(t, Up(p, k)) > 0 ==> Height(t, Up(p, k)) == 1 + Height(t, Up(p, k + 1))
  {
    RiseOnRaised(t, p, k);
  }

  class Graph {
    var tree: Tree

    constructor (tree: Tree)
      ensures this.tree == tree
    {
      this.tree := tree;
    }

    /** A run file, then the fact it refers to. */
    method WritePair(p: Path)
      requires p in tree
      modifies this
      ensures tree == old(tree)[p := WithFact(old(tree)[p])]
    {
      var n := NextRun(tree[p]);
      tree := tree[p := tree[p].(runs := tree[p].runs[n := Success])];
      tree := tree[p := tree[p].(facts := tree[p].facts + {n})];
    }

    /** The signal `done` on a node, and the synthetic facts above it. */
    method Done(p: Path) returns (propagated: seq<Path>)
      requires TreeInv(tree) && p in tree
      modifies this
      ensures TreeInv(tree) && tree == Signalled(old(tree), p)
      ensures |propagated| == Height(old(tree), p)
      ensures |propagated| < |p| && forall i | 0 <= i < |propagated| :: propagated[i] == Up(p, i + 1)
      ensures old(Closed(tree)) ==> Closed(tree)
    {
      ghost var t := tree;
      WritePair(p);
      RaisedByNone(t, p);
      propagated := Propagate(p, t);
      RaisedKeeps(t, p, Height(t, p));
      if Closed(t) {
        SignalKeepsClosed(t, p);
      }
    }

    /** One round of the loop: the parent of the ancestor `k` levels up. */
    method RaiseParent(current: Path, ghost p: Path, ghost k: nat, ghost t: Tree) returns (rose: bool)
      requires TreeInv(t) && k + 2 <= |p| && current == Up(p, k) && current in t && tree == Raised(t, p, k)
      modifies this
      ensures rose <==> Height(t, current) > 0
      ensures rose ==> Up(p, k + 1) in t && Height(t, current) == 1 + Height(t, Up(p, k + 1))
      ensures tree == Raised(t, p, if rose then k + 1 else k)
    {
      NextLevel(t, p, k);
      var parent := current[..|current| - 1];
      assert parent == Up(p, k + 1);
      rose := CanRise(tree, parent);
      if rose {
        RaisedByOne(t, p, k);
        WritePair(parent);
      }
    }

    method Propagate(p: Path, ghost t: Tree) returns (propagated: seq<Path>)
      requires TreeInv(t) && p in t && tree == Raised(t, p, 0)
      modifies this
      ensures tree == Raised(t, p, |propagated|) && |propagated| == Height(t, p)
      ensures |propagated| < |p| && forall i | 0 <= i < |propagated| :: propagated[i] == Up(p, i + 1)
    {
      propagated := [];
      var current := p;
      assert Up(p, 0) == p;
      while |current| >= 2
        invariant |propagated| < |p| && current == Up(p, |propagated|) && current in t
        invariant tree == Raised(t, p, |propagated|)
        invariant |propagated| + Height(t, current) == Height(t, p)
        invariant forall i | 0 <= i < |propagated| :: propagated[i] == Up(p, i + 1)
      {
        var rose := RaiseParent(current, p, |propagated|, t);
        if !rose {
          break;
        }
        current := current[..|current| - 1];
        assert current == Up(p, |propagated| + 1);
        propagated := propagated + [current];
      }
    }
  }
}
