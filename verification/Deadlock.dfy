/** The deadlock that the checks on a composite plan let through: a child that
    depends on a node above it. */
module Deadlock {
  import opened Common
  import opened States
  import C = Composite
  import S = Spawn

  /** The path of a node as text; `names` gives the segments. */
  function PathText(names: nat -> string, p: C.Path): string {
    if p == [] then ""
    else if |p| == 1 then names(p[0])
    else PathText(names, p[..|p| - 1]) + "/" + names(p[|p| - 1])
  }

  lemma DeepPathsHaveASlash(names: nat -> string, p: C.Path)
    requires |p| >= 2
    ensures '/' in PathText(names, p)
  {
    var init := PathText(names, p[..|p| - 1]);
    assert (init + "/" + names(p[|p| - 1]))[|init|] == '/';
  }

  /** The scan shows resolved what is resolved in the tree. */
  ghost predicate Shows(names: nat -> string, t: C.Tree, states: map<string, TaskState>) {
    forall p | p in t ::
      PathText(names, p) in states && (states[PathText(names, p)].Resolved? <==> C.IsResolved(t, p))
  }

  /** A dependency on the composite parent, or on a node above it, is accepted when
      that node exists and is written down as it is; as long as nobody signals the
      child, what is below it or the path up to that node by hand, the child stays
      blocked and the node unresolved, whatever else is signalled. */
  lemma AncestorDepDeadlocks(names: nat -> string, cs: seq<S.ChildSpec>, onDisk: set<S.Id>, c: S.ChildSpec,
                             t: C.Tree, parent: C.Path, a: C.Path, child: C.Path, ps: seq<C.Path>,
                             states: map<string, TaskState>)
    requires S.WellFormedList(cs, onDisk) && c in cs && S.Id(PathText(names, a)) in c.deps
    requires |a| >= 2 && a <= parent && C.IsChild(child, parent)
    requires C.TreeInv(t) && C.PathUnresolved(t, a, child)
    requires forall p | p in ps :: p in t && C.Elsewhere(p, a, child)
    requires Shows(names, C.SignalledAll(t, ps), states)
    ensures S.IsBlocked(states, S.WrittenDeps(PathText(names, parent), c))
    ensures C.PathUnresolved(C.SignalledAll(t, ps), a, child)
  {
    BelowParent(a, parent, child);
    C.AncestorNeverResolvesFirst(t, ps, a, child);
    TopOfPath(C.SignalledAll(t, ps), a, child);
    DeepPathsHaveASlash(names, a);
    WrittenAsItIs(PathText(names, parent), c, S.Id(PathText(names, a)), states);
  }

  lemma BelowParent(a: C.Path, parent: C.Path, child: C.Path)
    requires a <= parent && C.IsChild(child, parent)
    ensures a < child
  {
    assert child[..|a|] == parent[..|a|] == a;
  }

  lemma TopOfPath(t: C.Tree, a: C.Path, child: C.Path)
    requires a < child && C.PathUnresolved(t, a, child)
    ensures a in t && !C.IsResolved(t, a)
  {
    C.AncestorIs(child, a);
    assert C.Up(child, |child| - |a|) in t;
  }

  lemma WrittenAsItIs(parent: string, c: S.ChildSpec, d: S.Id, states: map<string, TaskState>)
    requires d in c.deps && '/' in d.text && !S.IsResolved(states, d.text)
    ensures S.IsBlocked(states, S.WrittenDeps(parent, c))
  {
    var i :| 0 <= i < |c.deps| && c.deps[i] == d;
    assert S.WrittenDeps(parent, c)[i] == d.text;
  }

  /** Nothing refuses such a plan: a single child that depends on its own parent. */
  lemma ParentIsAcceptedAsDep(parent: S.Id)
    requires '/' in parent.text
    ensures var cs := [S.ChildSpec(S.Id("a"), Some("agent"), [parent])];
            S.WellFormedList(cs, {parent}) && S.Acyclic(cs)
  {
    var child := S.ChildSpec(S.Id("a"), Some("agent"), [parent]);
    var cs := [child];
    assert S.ValidId(child.id) && parent != child.id;
    forall path
      ensures !S.IsCycle(cs, path)
    {
      if |path| >= 2 {
        assert S.Ids(cs) == {child.id};
        assert !S.Edge(cs, path[0], path[1]);
      }
    }
  }
}
