/** Materialising the children of a composite plan: what makes a `## Children`
    list acceptable, and why an accepted list cannot get stuck. */
module Spawn {
  import opened Common
  import opened States

  datatype Id = Id(text: string)

  datatype ChildSpec = ChildSpec(id: Id, mode: Option<string>, deps: seq<Id>)

  predicate NameChar(c: char) {
    'a' <= c <= 'z' || '0' <= c <= '9' || c == '-'
  }

  /** A valid node name that is a single path segment. */
  predicate ValidId(id: Id) {
    id.text != "" && forall i | 0 <= i < |id.text| :: NameChar(id.text[i])
  }

  /** Small letters, digits and dashes, and nothing next to them in the alphabet: no
      capital, no slash, no dot, no space. */
  lemma NameCharEdges()
    ensures NameChar('a') && NameChar('z') && NameChar('0') && NameChar('9') && NameChar('-')
    ensures !NameChar('/') && !NameChar(':') && !NameChar('`') && !NameChar('{') && !NameChar('.') && !NameChar(',')
    ensures !NameChar('A') && !NameChar('Z') && !NameChar('_') && !NameChar(' ')
    ensures forall c, d, e: char | c < d < e && NameChar(c) && NameChar(e) && !NameChar(d) ::
              c == '-' || (c <= '9' && 'a' <= e)
  {
  }

  predicate ValidMode(mode: Option<string>) {
    mode == Some("agent") || mode == Some("human")
  }

  lemma ModesAre(mode: Option<string>)
    ensures ValidMode(mode) <==> mode.Some? && (mode.value == "agent" || mode.value == "human")
  {
  }

  function Ids(cs: seq<ChildSpec>): set<Id> {
    set c | c in cs :: c.id
  }

  /** First child with this id. */
  function Find(cs: seq<ChildSpec>, id: Id): (r: Option<ChildSpec>)
    ensures r.Some? ==> r.value in cs && r.value.id == id
    ensures r.Some? <==> id in Ids(cs)
  {
    if cs == [] then None
    else if cs[0].id == id then Some(cs[0])
    else
      assert Ids(cs) == Ids(cs[1..]) + {cs[0].id};
      Find(cs[1..], id)
  }

  /** `a` waits for its sibling `b`. */
  predicate Edge(cs: seq<ChildSpec>, a: Id, b: Id) {
    Find(cs, a).Some? && b in Find(cs, a).value.deps && b in Ids(cs)
  }

  predicate Linked(cs: seq<ChildSpec>, path: seq<Id>) {
    forall i | 0 <= i < |path| - 1 :: Edge(cs, path[i], path[i + 1])
  }

  predicate IsCycle(cs: seq<ChildSpec>, path: seq<Id>) {
    |path| >= 2 && path[0] == path[|path| - 1] && Linked(cs, path)
  }

  ghost predicate Acyclic(cs: seq<ChildSpec>) {
    forall path :: !IsCycle(cs, path)
  }

  predicate UniqueIds(cs: seq<ChildSpec>) {
    forall i, j | 0 <= i < j < |cs| :: cs[i].id != cs[j].id
  }

  predicate GoodChild(cs: seq<ChildSpec>, onDisk: set<Id>, c: ChildSpec) {
    ValidId(c.id) && ValidMode(c.mode) && forall d | d in c.deps :: d in Ids(cs) || d in onDisk
  }

  predicate WellFormedList(cs: seq<ChildSpec>, onDisk: set<Id>) {
    cs != [] && UniqueIds(cs) && forall c | c in cs :: GoodChild(cs, onDisk, c)
  }

  // ------------------------------------------------------ depth-first search

  /** Finished ids in the order they were finished: everybody's sibling
      dependencies come before it. */
  ghost predicate Ordered(cs: seq<ChildSpec>, order: seq<Id>) {
    && (forall i | 0 <= i < |order| :: order[i] in Ids(cs))
    && (forall i, j | 0 <= i < j < |order| :: order[i] != order[j])
    && (forall i, d | 0 <= i < |order| && Edge(cs, order[i], d) :: d in order[..i])
  }

  class Search {
    var visiting: set<Id>
    var finished: set<Id>
    ghost var order: seq<Id>

    ghost predicate Valid(cs: seq<ChildSpec>)
      reads this
    {
      && finished == (set d | d in order)
      && Ordered(cs, order)
      && visiting !! finished
    }

    constructor ()
      ensures visiting == {} && finished == {} && order == []
    {
      visiting, finished, order := {}, {}, [];
    }

    /** True when everything below `id` is finished and nothing else changed;
        false only if the list has a cycle. `path` is how the search got here. */
    method Dfs(cs: seq<ChildSpec>, id: Id, ghost path: seq<Id>) returns (ok: bool)
      requires Valid(cs) && id in Ids(cs)
      requires visiting == (set d | d in path) && visiting <= Ids(cs)
      requires Linked(cs, path + [id])
      modifies this
      ensures ok ==> Valid(cs) && visiting == old(visiting) && old(finished) + {id} <= finished
      ensures !ok ==> !Acyclic(cs)
      decreases |Ids(cs) - visiting|, 0
    {
      if id in finished {
        return true;
      }
      if id in visiting {
        ReturningPathIsACycle(cs, path, id);
        return false;
      }
      ProperSubsetSize(Ids(cs) - (visiting + {id}), Ids(cs) - visiting);
      visiting := visiting + {id};
      ok := DfsBelow(cs, id, path + [id]);
      if ok {
        Finish(cs, id);
      }
    }

    method DfsBelow(cs: seq<ChildSpec>, id: Id, ghost path: seq<Id>) returns (ok: bool)
      requires Valid(cs) && id in Ids(cs)
      requires visiting == (set d | d in path) && visiting <= Ids(cs)
      requires Linked(cs, path) && path != [] && path[|path| - 1] == id
      modifies this
      ensures ok ==> Valid(cs) && visiting == old(visiting) && old(finished) <= finished
      ensures ok ==> forall d | Edge(cs, id, d) :: d in finished
      ensures !ok ==> !Acyclic(cs)
      decreases |Ids(cs) - visiting|, 1
    {
      var deps := Find(cs, id).value.deps;
      for i := 0 to |deps|
        invariant Valid(cs) && visiting == old(visiting) && old(finished) <= finished
        invariant forall j | 0 <= j < i && deps[j] in Ids(cs) :: deps[j] in finished
      {
        if deps[i] in Ids(cs) {
          LinkedAppends(cs, path, deps[i]);
          ok := Dfs(cs, deps[i], path);
          if !ok {
            return;
          }
        }
      }
      return true;
    }

    method Finish(cs: seq<ChildSpec>, id: Id)
      requires Valid(cs) && id in Ids(cs) && id in visiting
      requires forall d | Edge(cs, id, d) :: d in finished
      modifies this
      ensures Valid(cs) && visiting == old(visiting) - {id} && finished == old(finished) + {id}
    {
      FinishedNext(cs, order, id);
      visiting := visiting - {id};
      finished := finished + {id};
      order := order + [id];
    }
  }

  lemma LinkedAppends(cs: seq<ChildSpec>, path: seq<Id>, d: Id)
    requires path != [] && Linked(cs, path) && Edge(cs, path[|path| - 1], d)
    ensures Linked(cs, path + [d])
  {
  }

  lemma ReturningPathIsACycle(cs: seq<ChildSpec>, path: seq<Id>, id: Id)
    requires Linked(cs, path + [id]) && id in path
    ensures !Acyclic(cs)
  {
    var k :| 0 <= k < |path| && path[k] == id;
    var whole := path + [id];
    var cycle := whole[k..];
    forall i | 0 <= i < |cycle| - 1
      ensures Edge(cs, cycle[i], cycle[i + 1])
    {
      assert cycle[i] == whole[k + i] && cycle[i + 1] == whole[k + i + 1];
    }
    assert IsCycle(cs, cycle);
  }

  lemma FinishedNext(cs: seq<ChildSpec>, order: seq<Id>, id: Id)
    requires Ordered(cs, order) && id in Ids(cs) && id !in order
    requires forall d | Edge(cs, id, d) :: d in order
    ensures Ordered(cs, order + [id])
  {
    var longer := order + [id];
    forall i, d | 0 <= i < |longer| && Edge(cs, longer[i], d)
      ensures d in longer[..i]
    {
      assert longer[..i] == if i < |order| then order[..i] else order;
    }
  }

  /** Along an edge the place in the order goes down, so no walk comes back. */
  lemma {:induction false} OrderedGoesDown(cs: seq<ChildSpec>, order: seq<Id>, path: seq<Id>, at: nat)
    requires Ordered(cs, order) && Linked(cs, path) && |path| >= 2
    requires at < |order| && order[at] == path[0]
    ensures exists k :: 0 <= k < at && order[k] == path[|path| - 1]
    decreases |path|
  {
    assert Edge(cs, path[0], path[1]);
    assert path[1] in order[..at];
    var k :| 0 <= k < at && order[k] == path[1];
    if |path| > 2 {
      assert forall i | 0 <= i < |path[1..]| - 1 :: Edge(cs, path[1..][i], path[1..][i + 1]) by {
        forall i | 0 <= i < |path[1..]| - 1
          ensures Edge(cs, path[1..][i], path[1..][i + 1])
        {
          assert Edge(cs, path[i + 1], path[i + 2]);
        }
      }
      OrderedGoesDown(cs, order, path[1..], k);
    }
  }

  lemma OrderedIsAcyclic(cs: seq<ChildSpec>, order: seq<Id>)
    requires Ordered(cs, order) && forall id | id in Ids(cs) :: id in order
    ensures Acyclic(cs)
  {
    forall path
      ensures !IsCycle(cs, path)
    {
      if IsCycle(cs, path) {
        assert Edge(cs, path[0], path[1]);
        var at :| 0 <= at < |order| && order[at] == path[0];
        OrderedGoesDown(cs, order, path, at);
      }
    }
  }

  // ---------------------------------------------------------------- validation

  datatype Refusal =
    | NoChildren
    | DuplicateId
    | BadId(id: Id)
    | BadMode(id: Id)
    | UnknownDep(id: Id, dep: Id)
    | Cyclic

  lemma IdsGrow(cs: seq<ChildSpec>, c: ChildSpec)
    ensures Ids(cs + [c]) == Ids(cs) + {c.id}
  {
  }

  lemma UniqueGrow(cs: seq<ChildSpec>, c: ChildSpec)
    ensures UniqueIds(cs + [c]) <==> UniqueIds(cs) && c.id !in Ids(cs)
  {
    var all := cs + [c];
    if UniqueIds(all) {
      forall d | d in cs
        ensures d.id != c.id
      {
        var i :| 0 <= i < |cs| && cs[i] == d;
        assert all[i].id != all[|cs|].id;
      }
      assert c.id !in Ids(cs);
      forall i, j | 0 <= i < j < |cs|
        ensures cs[i].id != cs[j].id
      {
        assert all[i].id != all[j].id;
      }
    }
    if UniqueIds(cs) && c.id !in Ids(cs) {
      forall i, j | 0 <= i < j < |all|
        ensures all[i].id != all[j].id
      {
        assert cs[i] in cs && cs[i].id in Ids(cs);
        if j == |cs| {
          assert all[j] == c && all[i] == cs[i];
        }
      }
    }
  }

  lemma {:induction false} IdsCounted(cs: seq<ChildSpec>)
    ensures |Ids(cs)| <= |cs|
    ensures |Ids(cs)| == |cs| <==> UniqueIds(cs)
  {
    if cs != [] {
      var rest, last := cs[..|cs| - 1], cs[|cs| - 1];
      assert cs == rest + [last];
      IdsCounted(rest);
      IdsGrow(rest, last);
      UniqueGrow(rest, last);
    }
  }

  method CheckFields(cs: seq<ChildSpec>, onDisk: set<Id>) returns (r: Option<Refusal>)
    ensures r.None? <==> forall c | c in cs :: GoodChild(cs, onDisk, c)
    ensures r.Some? ==> r.value.BadId? || r.value.BadMode? || r.value.UnknownDep?
  {
    for i := 0 to |cs|
      invariant forall j | 0 <= j < i :: GoodChild(cs, onDisk, cs[j])
    {
      var c := cs[i];
      if !ValidId(c.id) {
        assert !GoodChild(cs, onDisk, c);
        return Some(BadId(c.id));
      }
      if !ValidMode(c.mode) {
        assert !GoodChild(cs, onDisk, c);
        return Some(BadMode(c.id));
      }
      for j := 0 to |c.deps|
        invariant forall k | 0 <= k < j :: c.deps[k] in Ids(cs) || c.deps[k] in onDisk
      {
        if c.deps[j] !in Ids(cs) && c.deps[j] !in onDisk {
          assert !GoodChild(cs, onDisk, c);
          return Some(UnknownDep(c.id, c.deps[j]));
        }
      }
    }
    return None;
  }

  method FindCycle(cs: seq<ChildSpec>) returns (cyclic: bool)
    ensures cyclic <==> !Acyclic(cs)
  {
    var search := new Search();
    for i := 0 to |cs|
      invariant search.Valid(cs) && search.visiting == {}
      invariant forall j | 0 <= j < i :: cs[j].id in search.finished
    {
      assert cs[i] in cs;
      var ok := search.Dfs(cs, cs[i].id, []);
      if !ok {
        return true;
      }
    }
    forall id | id in Ids(cs)
      ensures id in search.order
    {
      var c :| c in cs && c.id == id;
      var j :| 0 <= j < |cs| && cs[j] == c;
    }
    OrderedIsAcyclic(cs, search.order);
    return false;
  }

  /** Accepts exactly the well-formed lists without a cycle among siblings. */
  method ValidateChildren(cs: seq<ChildSpec>, onDisk: set<Id>) returns (r: Option<Refusal>)
    ensures r.None? <==> WellFormedList(cs, onDisk) && Acyclic(cs)
    ensures r == Some(Cyclic) ==> WellFormedList(cs, onDisk) && !Acyclic(cs)
  {
    if cs == [] {
      return Some(NoChildren);
    }
    IdsCounted(cs);
    if |Ids(cs)| != |cs| {
      return Some(DuplicateId);
    }
    r := CheckFields(cs, onDisk);
    if r.Some? {
      return;
    }
    var cyclic := FindCycle(cs);
    return if cyclic then Some(Cyclic) else None;
  }

  // ------------------------------------------------------------ moving forward

  /** `c` waits for no sibling outside `resolved`. */
  predicate Ready(cs: seq<ChildSpec>, resolved: set<Id>, c: ChildSpec) {
    c.id !in resolved && forall d | d in c.deps && d in Ids(cs) :: d in resolved
  }

  ghost predicate NeverStuck(cs: seq<ChildSpec>) {
    forall resolved | resolved < Ids(cs) :: exists c :: c in cs && Ready(cs, resolved, c)
  }

  predicate NobodyReady(cs: seq<ChildSpec>, resolved: set<Id>) {
    forall c | c in cs :: !Ready(cs, resolved, c)
  }

  lemma {:induction false} FindUnique(cs: seq<ChildSpec>, c: ChildSpec)
    requires UniqueIds(cs) && c in cs
    ensures Find(cs, c.id) == Some(c)
  {
    var r := Find(cs, c.id).value;
    var i :| 0 <= i < |cs| && cs[i] == c;
    var j :| 0 <= j < |cs| && cs[j] == r;
    assert i == j;
  }

  /** A child that is not ready waits for a sibling that is not resolved either. */
  lemma WaitsForUnresolved(cs: seq<ChildSpec>, resolved: set<Id>, id: Id) returns (d: Id)
    requires UniqueIds(cs) && NobodyReady(cs, resolved) && id in Ids(cs) && id !in resolved
    ensures Edge(cs, id, d) && d in Ids(cs) && d !in resolved
  {
    var c := Find(cs, id).value;
    assert !Ready(cs, resolved, c);
    d :| d in c.deps && d in Ids(cs) && d !in resolved;
  }

  /** Following dependencies among the unresolved must come back. */
  lemma {:induction false} StuckSetHasACycle(cs: seq<ChildSpec>, resolved: set<Id>, path: seq<Id>, unseen: set<Id>)
    requires UniqueIds(cs) && NobodyReady(cs, resolved)
    requires path != [] && Linked(cs, path) && path[|path| - 1] in Ids(cs) && path[|path| - 1] !in resolved
    requires forall id | id in Ids(cs) && id !in resolved && id !in path :: id in unseen
    ensures !Acyclic(cs)
    decreases unseen
  {
    var d := WaitsForUnresolved(cs, resolved, path[|path| - 1]);
    LinkedAppends(cs, path, d);
    if d in path {
      ReturningPathIsACycle(cs, path, d);
    } else {
      var longer := path + [d];
      assert d in unseen && longer[|longer| - 1] == d;
      forall id | id in Ids(cs) && id !in resolved && id !in longer
        ensures id in unseen - {d}
      {
        assert longer[|path|] == d && path <= longer;
      }
      StuckSetHasACycle(cs, resolved, longer, unseen - {d});
    }
  }

  lemma AcyclicMovesOn(cs: seq<ChildSpec>, resolved: set<Id>)
    requires UniqueIds(cs) && Acyclic(cs) && resolved < Ids(cs)
    ensures exists c :: c in cs && Ready(cs, resolved, c)
  {
    if NobodyReady(cs, resolved) {
      var first := Outside(resolved, Ids(cs));
      StuckSetHasACycle(cs, resolved, [first], Ids(cs));
    }
  }

  lemma OnCycleIsNotReady(cs: seq<ChildSpec>, path: seq<Id>, resolved: set<Id>, c: ChildSpec)
    requires UniqueIds(cs) && IsCycle(cs, path) && c in cs && c.id in path
    requires forall d | d in path :: d !in resolved
    ensures !Ready(cs, resolved, c)
  {
    var i :| 0 <= i < |path| && path[i] == c.id;
    var k := if i == |path| - 1 then 0 else i;
    assert path[k] == c.id && Edge(cs, path[k], path[k + 1]);
    FindUnique(cs, c);
    assert path[k + 1] in c.deps && path[k + 1] in path;
  }

  lemma CycleStaysStuck(cs: seq<ChildSpec>, path: seq<Id>)
    requires UniqueIds(cs) && IsCycle(cs, path)
    ensures !NeverStuck(cs)
  {
    var stuck := set d | d in path;
    var resolved := Ids(cs) - stuck;
    assert Edge(cs, path[0], path[1]);
    assert path[0] in Ids(cs) && path[0] !in resolved;
    assert resolved < Ids(cs);
    forall c | c in cs
      ensures !Ready(cs, resolved, c)
    {
      if c.id in path {
        OnCycleIsNotReady(cs, path, resolved, c);
      } else {
        assert c.id in Ids(cs) && c.id !in stuck;
      }
    }
  }

  /** The cycle check is exactly the right one: without a cycle some unresolved
      child is always free to run, and with one there is a state where none is. */
  lemma AcyclicIffNeverStuck(cs: seq<ChildSpec>)
    requires UniqueIds(cs)
    ensures Acyclic(cs) <==> NeverStuck(cs)
  {
    if Acyclic(cs) {
      forall resolved | resolved < Ids(cs)
        ensures exists c :: c in cs && Ready(cs, resolved, c)
      {
        AcyclicMovesOn(cs, resolved);
      }
    } else {
      var path :| IsCycle(cs, path);
      CycleStaysStuck(cs, path);
    }
  }

  // -------------------------------------------------- dependencies as written

  /** The path of the node a dependency means: a sibling if there is one. */
  function Target(parent: string, cs: seq<ChildSpec>, d: Id): string {
    if d in Ids(cs) then parent + "/" + d.text else d.text
  }

  /** The path that is written down for it. */
  function DepPath(parent: string, d: Id): string {
    if '/' in d.text then d.text else parent + "/" + d.text
  }

  /** A dependency is written down correctly exactly when it names a sibling or
      contains a slash: a top-level node cannot be depended upon. */
  lemma DepNamesItsTarget(parent: string, cs: seq<ChildSpec>, onDisk: set<Id>, d: Id)
    requires WellFormedList(cs, onDisk)
    ensures DepPath(parent, d) == Target(parent, cs, d) <==> d in Ids(cs) || '/' in d.text
  {
    if d in Ids(cs) {
      var c :| c in cs && c.id == d;
      assert GoodChild(cs, onDisk, c);
    } else {
      assert |parent + "/" + d.text| > |d.text|;
    }
  }

  function WrittenDeps(parent: string, c: ChildSpec): seq<string> {
    seq(|c.deps|, i requires 0 <= i < |c.deps| => DepPath(parent, c.deps[i]))
  }

  predicate IsResolved(states: map<string, TaskState>, path: string) {
    path in states && states[path] == Resolved
  }

  /** What turns a waiting node into a blocked one. */
  predicate IsBlocked(states: map<string, TaskState>, deps: seq<string>) {
    deps != [] && exists i | 0 <= i < |deps| :: !IsResolved(states, deps[i])
  }

  /** A node is blocked exactly when one of its dependencies is unknown to the scan or in
      any state but resolved. */
  lemma BlockedIff(states: map<string, TaskState>, deps: seq<string>)
    ensures IsBlocked(states, deps) <==> exists d :: d in deps && (d in states ==> !states[d].Resolved?)
  {
  }

  /** Children of an accepted list whose siblings are resolved. */
  function ResolvedIds(parent: string, cs: seq<ChildSpec>, states: map<string, TaskState>): set<Id> {
    set d | d in Ids(cs) && IsResolved(states, parent + "/" + d.text)
  }

  /** The outside dependencies of the list are met as they were written down. */
  predicate OutsideMet(parent: string, cs: seq<ChildSpec>, states: map<string, TaskState>) {
    forall c | c in cs :: forall d | d in c.deps && d !in Ids(cs) :: IsResolved(states, DepPath(parent, d))
  }

  lemma ReadyIsNotBlocked(parent: string, cs: seq<ChildSpec>, onDisk: set<Id>, states: map<string, TaskState>,
                          c: ChildSpec)
    requires WellFormedList(cs, onDisk) && OutsideMet(parent, cs, states) && c in cs
    requires Ready(cs, ResolvedIds(parent, cs, states), c)
    ensures !IsBlocked(states, WrittenDeps(parent, c))
  {
    forall i | 0 <= i < |c.deps|
      ensures IsResolved(states, WrittenDeps(parent, c)[i])
    {
      var d := c.deps[i];
      assert d in c.deps;
      DepNamesItsTarget(parent, cs, onDisk, d);
    }
  }

  /** An accepted plan cannot deadlock: as long as a child is unresolved, some
      unresolved child is not blocked once the outside dependencies are met. */
  lemma AcceptedPlanCannotDeadlock(parent: string, cs: seq<ChildSpec>, onDisk: set<Id>, states: map<string, TaskState>)
    requires WellFormedList(cs, onDisk) && Acyclic(cs) && OutsideMet(parent, cs, states)
    requires exists c :: c in cs && !IsResolved(states, parent + "/" + c.id.text)
    ensures exists c ::
              && c in cs && !IsResolved(states, parent + "/" + c.id.text)
              && !IsBlocked(states, WrittenDeps(parent, c))
  {
    var resolved := ResolvedIds(parent, cs, states);
    var b :| b in cs && !IsResolved(states, parent + "/" + b.id.text);
    assert b.id in Ids(cs) && b.id !in resolved;
    AcyclicMovesOn(cs, resolved);
    var c :| c in cs && Ready(cs, resolved, c);
    ReadyIsNotBlocked(parent, cs, onDisk, states, c);
    assert c.id in Ids(cs);
  }

  /** A dependency on a top-level node is accepted, written down as a sibling
      that does not exist, and keeps its child blocked whatever gets resolved. */
  lemma TopLevelDepBlocksForever(parent: string, cs: seq<ChildSpec>, onDisk: set<Id>, states: map<string, TaskState>,
                                 c: ChildSpec, d: Id)
    requires WellFormedList(cs, onDisk) && c in cs && d in c.deps
    requires d !in Ids(cs) && '/' !in d.text && parent + "/" + d.text !in states
    ensures d in onDisk && IsBlocked(states, WrittenDeps(parent, c))
  {
    assert GoodChild(cs, onDisk, c);
    var i :| 0 <= i < |c.deps| && c.deps[i] == d;
    assert WrittenDeps(parent, c)[i] == parent + "/" + d.text;
  }
}
