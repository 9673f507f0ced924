/** `.mt/mandates.yaml`: the delegation file, what a mandate covers, and the
    structural validation of the file. */
module Mandates {
  import opened Common

  /** A person's handle or a model's name; only ever compared for equality. */
  datatype Handle = Handle(name: string)

  datatype Kind = Person | Model
  datatype Level = Low | Medium | High

  datatype Scope = Scope(refs: seq<string>, decisionTypes: seq<string>)

  datatype Thresholds = Thresholds(
    budget: Option<real>, risk: Option<Level>, irreversible: Option<bool>, audacity: Option<Level>)

  datatype Mandate = Mandate(
    owner: Handle, kind: Kind, scope: Scope, thresholds: Thresholds, escalatesTo: Option<Handle>)

  datatype MandatesFile = MandatesFile(generation: nat, mandates: seq<Mandate>)

  datatype Facets = Facets(budget: Option<real>, risk: Option<Level>, irreversible: bool)

  /** Whether a compiled glob matches a ref; patterns that do not compile match
      nothing. The matcher itself is outside this model. */
  type Glob = (string, string) -> bool

  function Rank(l: Level): nat {
    match l
    case Low => 0
    case Medium => 1
    case High => 2
  }

  function IrreversibleOrDefault(t: Thresholds): bool {
    t.irreversible.Some? && t.irreversible.value
  }

  function AudacityOrDefault(t: Thresholds): Level {
    if t.audacity.Some? then t.audacity.value else Low
  }

  // ------------------------------------------------------- structure of a file

  predicate GoodShape(m: Mandate) {
    m.scope.refs != [] && m.scope.decisionTypes != [] && (m.kind == Person ==> m.thresholds.audacity.None?)
  }

  /** Index of the first mandate of an owner, or the length of the list. */
  function Find(ms: seq<Mandate>, owner: Handle): (i: nat)
    ensures i <= |ms|
    ensures i < |ms| ==> ms[i].owner == owner
    ensures forall j | 0 <= j < i :: ms[j].owner != owner
  {
    if ms == [] then 0 else if ms[0].owner == owner then 0 else 1 + Find(ms[1..], owner)
  }

  predicate Has(ms: seq<Mandate>, owner: Handle) {
    Find(ms, owner) < |ms|
  }

  function Get(ms: seq<Mandate>, owner: Handle): Mandate
    requires Has(ms, owner)
  {
    ms[Find(ms, owner)]
  }

  predicate UniqueOwners(ms: seq<Mandate>) {
    forall i, j | 0 <= i < j < |ms| :: ms[i].owner != ms[j].owner
  }

  predicate IsRoot(ms: seq<Mandate>, i: int) {
    0 <= i < |ms| && ms[i].escalatesTo.None?
  }

  ghost predicate OneRoot(ms: seq<Mandate>) {
    exists r :: IsRoot(ms, r) && forall i | IsRoot(ms, i) :: i == r
  }

  /** A path along `escalates_to`, ending in a mandate without a target. */
  ghost predicate IsChain(ms: seq<Mandate>, path: seq<Handle>) {
    && path != []
    && (forall i | 0 <= i < |path| :: Has(ms, path[i]))
    && (forall i | 0 <= i < |path| - 1 :: Get(ms, path[i]).escalatesTo == Some(path[i + 1]))
    && Get(ms, path[|path| - 1]).escalatesTo.None?
  }

  ghost predicate ReachesRoot(ms: seq<Mandate>, owner: Handle) {
    exists path :: IsChain(ms, path) && path[0] == owner
  }

  /** The contract of the file, said without any bound on the walks. */
  ghost predicate WellFormed(file: MandatesFile) {
    && file.generation >= 1
    && (forall m | m in file.mandates :: GoodShape(m))
    && UniqueOwners(file.mandates)
    && OneRoot(file.mandates)
    && (forall m | m in file.mandates :: ReachesRoot(file.mandates, m.owner))
  }

  lemma FindAt(ms: seq<Mandate>, i: nat)
    requires UniqueOwners(ms) && i < |ms|
    ensures Find(ms, ms[i].owner) == i && Has(ms, ms[i].owner) && Get(ms, ms[i].owner) == ms[i]
  {
    assert Find(ms, ms[i].owner) >= i;
  }

  // ------------------------------------------------------- walks and pigeonhole

  /** The owner `k` steps up, or None once the walk has nowhere to go. */
  function Walk(ms: seq<Mandate>, owner: Handle, k: nat): Option<Handle>
    decreases k
  {
    if k == 0 then Some(owner)
    else if !Has(ms, owner) || Get(ms, owner).escalatesTo.None? then None
    else Walk(ms, Get(ms, owner).escalatesTo.value, k - 1)
  }

  lemma {:induction false} WalkAdds(ms: seq<Mandate>, owner: Handle, j: nat, k: nat)
    requires Walk(ms, owner, j).Some?
    ensures Walk(ms, owner, j + k) == Walk(ms, Walk(ms, owner, j).value, k)
    decreases j
  {
    if j > 0 {
      WalkAdds(ms, Get(ms, owner).escalatesTo.value, j - 1, k);
    }
  }

  lemma {:induction false} ChainIsWalk(ms: seq<Mandate>, path: seq<Handle>, k: nat)
    requires IsChain(ms, path) && k < |path|
    decreases k
    ensures Walk(ms, path[0], k) == Some(path[k])
  {
    if k > 0 {
      ChainIsWalk(ms, path, k - 1);
      WalkAdds(ms, path[0], k - 1, 1);
      assert Walk(ms, path[k - 1], 1) == Some(path[k]);
    }
  }

  lemma RepeatShiftsToTheEnd(ms: seq<Mandate>, path: seq<Handle>, i: nat, j: nat)
    requires IsChain(ms, path) && i < j < |path| && path[i] == path[j]
    ensures path[i + |path| - 1 - j] == path[|path| - 1]
  {
    var rest := |path| - 1 - j;
    ChainIsWalk(ms, path, i);
    ChainIsWalk(ms, path, j);
    WalkAdds(ms, path[0], i, rest);
    WalkAdds(ms, path[0], j, rest);
    ChainIsWalk(ms, path, j + rest);
    ChainIsWalk(ms, path, i + rest);
  }

  lemma BeforeTheEnd(ms: seq<Mandate>, path: seq<Handle>, k: nat)
    requires IsChain(ms, path) && k < |path| - 1
    ensures Get(ms, path[k]).escalatesTo == Some(path[k + 1])
  {
  }

  /** A chain visits nobody twice: a repetition would make it go on for ever. */
  lemma ChainHasNoRepeats(ms: seq<Mandate>, path: seq<Handle>, i: nat, j: nat)
    requires IsChain(ms, path) && i < j < |path|
    ensures path[i] != path[j]
  {
    BeforeTheEnd(ms, path, i + |path| - 1 - j);
    if path[i] == path[j] {
      RepeatShiftsToTheEnd(ms, path, i, j);
    }
  }

  /** Pigeonhole: a chain is no longer than the file. */
  lemma ChainIsShort(ms: seq<Mandate>, path: seq<Handle>)
    requires IsChain(ms, path)
    ensures |path| <= |ms|
  {
    var indices := seq(|path|, i requires 0 <= i < |path| => Find(ms, path[i]));
    forall i, j | 0 <= i < j < |path|
      ensures indices[i] != indices[j]
    {
      ChainHasNoRepeats(ms, path, i, j);
    }
    DistinctBelow(indices, |ms|);
  }

  lemma {:induction false} DistinctBelow(s: seq<nat>, n: nat)
    requires forall i | 0 <= i < |s| :: s[i] < n
    requires forall i, j | 0 <= i < j < |s| :: s[i] != s[j]
    ensures |s| <= n
  {
    if s != [] {
      assert s[0] < n;
      if n - 1 in s {
        var k :| 0 <= k < |s| && s[k] == n - 1;
        DistinctBelow(s[..k] + s[k + 1..], n - 1);
      } else {
        DistinctBelow(s, n - 1);
      }
    }
  }

  lemma {:induction false} LostWalkStaysLost(ms: seq<Mandate>, owner: Handle, j: nat, k: nat)
    requires Walk(ms, owner, j).None?
    ensures Walk(ms, owner, j + k).None?
    decreases j
  {
    if Has(ms, owner) && Get(ms, owner).escalatesTo.Some? {
      LostWalkStaysLost(ms, Get(ms, owner).escalatesTo.value, j - 1, k);
    }
  }

  /** Whoever is still walking after as many steps as there are mandates will
      never reach the root. */
  lemma LongWalkNeverArrives(ms: seq<Mandate>, owner: Handle, k: nat)
    requires k >= |ms| && Walk(ms, owner, k).Some?
    ensures !ReachesRoot(ms, owner)
  {
    if ReachesRoot(ms, owner) {
      var path :| IsChain(ms, path) && path[0] == owner;
      ChainIsShort(ms, path);
      var last := |path| - 1;
      ChainIsWalk(ms, path, last);
      WalkAdds(ms, owner, last, 1);
      LostWalkStaysLost(ms, owner, last + 1, k - last - 1);
    }
  }

  lemma ChainExtends(ms: seq<Mandate>, owner: Handle, path: seq<Handle>)
    requires IsChain(ms, path) && Has(ms, owner) && Get(ms, owner).escalatesTo == Some(path[0])
    ensures IsChain(ms, [owner] + path)
  {
    var longer := [owner] + path;
    forall i | 0 <= i < |longer| - 1
      ensures Has(ms, longer[i]) && Get(ms, longer[i]).escalatesTo == Some(longer[i + 1])
    {
      if i > 0 {
        assert longer[i] == path[i - 1] && longer[i + 1] == path[i];
      }
    }
  }

  lemma {:induction false} ArrivedWalkIsChain(ms: seq<Mandate>, owner: Handle, k: nat)
    requires Walk(ms, owner, k).Some? && Has(ms, Walk(ms, owner, k).value)
    requires Get(ms, Walk(ms, owner, k).value).escalatesTo.None?
    ensures ReachesRoot(ms, owner)
    decreases k
  {
    if k == 0 {
      assert IsChain(ms, [owner]);
    } else {
      var next := Get(ms, owner).escalatesTo.value;
      ArrivedWalkIsChain(ms, next, k - 1);
      var path :| IsChain(ms, path) && path[0] == next;
      ChainExtends(ms, owner, path);
    }
  }

  lemma LeavingWalkNeverArrives(ms: seq<Mandate>, owner: Handle, k: nat)
    requires Walk(ms, owner, k).Some? && !Has(ms, Walk(ms, owner, k).value)
    ensures !ReachesRoot(ms, owner)
  {
    if ReachesRoot(ms, owner) {
      var path :| IsChain(ms, path) && path[0] == owner;
      var last := |path| - 1;
      if k <= last {
        ChainIsWalk(ms, path, k);
      } else {
        ChainIsWalk(ms, path, last);
        WalkAdds(ms, owner, last, 1);
        LostWalkStaysLost(ms, owner, last + 1, k - last - 1);
      }
    }
  }

  // ------------------------------------------------------------- validation

  datatype Invalid =
    | GenerationTooLow
    | NoMandates
    | BadShape(owner: Handle)
    | DuplicateOwner(owner: Handle)
    | NoRoot
    | ManyRoots
    | EscalationCycle(owner: Handle)
    | DanglingTarget(owner: Handle)

  datatype Validity = Valid | Bad(reason: Invalid)

  /** What each refusal tells about the file. */
  ghost predicate Explains(reason: Invalid, file: MandatesFile) {
    match reason
    case GenerationTooLow => file.generation < 1
    case NoMandates => file.mandates == []
    case BadShape(owner) => exists m | m in file.mandates :: m.owner == owner && !GoodShape(m)
    case DuplicateOwner(owner) => exists i, j | 0 <= i < j < |file.mandates| ::
        file.mandates[i].owner == owner && file.mandates[j].owner == owner
    case NoRoot => forall i :: !IsRoot(file.mandates, i)
    case ManyRoots => exists i, j | IsRoot(file.mandates, i) && IsRoot(file.mandates, j) :: i != j
    case EscalationCycle(owner) => WalksInCircles(file.mandates, owner)
    case DanglingTarget(owner) => WalksOut(file.mandates, owner)
  }

  ghost predicate WalksInCircles(ms: seq<Mandate>, owner: Handle) {
    exists i: nat, j: nat :: i < j && Walk(ms, owner, i).Some? && Walk(ms, owner, i) == Walk(ms, owner, j)
  }

  ghost predicate WalksOut(ms: seq<Mandate>, owner: Handle) {
    exists k: nat :: Walk(ms, owner, k).Some? && !Has(ms, Walk(ms, owner, k).value)
  }

  lemma {:induction false} WalkedOwnersExist(ms: seq<Mandate>, owner: Handle, j: nat, k: nat)
    requires j < k && Walk(ms, owner, k).Some?
    ensures Walk(ms, owner, j).Some? && Has(ms, Walk(ms, owner, j).value)
    decreases j
  {
    if j > 0 {
      WalkedOwnersExist(ms, Get(ms, owner).escalatesTo.value, j - 1, k - 1);
    }
  }

  /** The step bound is only ever exceeded on a cycle. */
  lemma LongWalkIsACycle(ms: seq<Mandate>, owner: Handle)
    requires Walk(ms, owner, |ms| + 1).Some?
    ensures WalksInCircles(ms, owner)
  {
    var n := |ms|;
    forall k | 0 <= k <= n
      ensures Walk(ms, owner, k).Some? && Has(ms, Walk(ms, owner, k).value)
    {
      WalkedOwnersExist(ms, owner, k, n + 1);
    }
    if !WalksInCircles(ms, owner) {
      var indices := seq(n + 1, k requires 0 <= k <= n => Find(ms, Walk(ms, owner, k).value));
      forall i, j | 0 <= i < j < |indices|
        ensures indices[i] != indices[j]
      {
        assert Walk(ms, owner, i) != Walk(ms, owner, j);
      }
      DistinctBelow(indices, n);
    }
  }

  /** The walk from one owner, with the step bound of the source. */
  method Climb(ms: seq<Mandate>, target: map<Handle, Option<Handle>>, root: Handle, owner: Handle)
    returns (v: Validity)
    requires UniqueOwners(ms)
    requires forall o :: o in target <==> Has(ms, o)
    requires forall o | o in target :: target[o] == Get(ms, o).escalatesTo
    requires forall o | o in target :: target[o].None? <==> o == root
    requires root in target
    ensures v == Valid <==> ReachesRoot(ms, owner)
    ensures v.Bad? ==>
              || (v.reason.EscalationCycle? && WalksInCircles(ms, v.reason.owner))
              || (v.reason.DanglingTarget? && WalksOut(ms, v.reason.owner))
  {
    var maxSteps := |ms| + 1;
    var current := owner;
    var steps := 0;
    while current != root
      invariant steps <= maxSteps
      invariant Walk(ms, owner, steps) == Some(current)
      decreases maxSteps - steps
    {
      if steps + 1 > maxSteps {
        LongWalkNeverArrives(ms, owner, steps);
        LongWalkIsACycle(ms, owner);
        return Bad(EscalationCycle(owner));
      }
      if current !in target {
        LeavingWalkNeverArrives(ms, owner, steps);
        return Bad(DanglingTarget(owner));
      }
      WalkAdds(ms, owner, steps, 1);
      assert Walk(ms, current, 1) == target[current];
      steps := steps + 1;
      current := target[current].value;
    }
    ArrivedWalkIsChain(ms, owner, steps);
    return Valid;
  }

  function OwnersOf(ms: seq<Mandate>): set<Handle> {
    set m | m in ms :: m.owner
  }

  predicate NewOwner(ms: seq<Mandate>, i: nat)
    requires i < |ms|
  {
    ms[i].owner !in OwnersOf(ms[..i])
  }

  lemma FoundIsOwned(ms: seq<Mandate>, owner: Handle)
    ensures Has(ms, owner) <==> owner in OwnersOf(ms)
  {
    if Has(ms, owner) {
      assert ms[Find(ms, owner)] in ms;
    }
    if owner in OwnersOf(ms) {
      var m :| m in ms && m.owner == owner;
      var j :| 0 <= j < |ms| && ms[j] == m;
      assert Find(ms, owner) <= j;
    }
  }

  lemma NewOwnersAreUnique(ms: seq<Mandate>)
    requires forall i | 0 <= i < |ms| :: NewOwner(ms, i)
    ensures UniqueOwners(ms)
  {
    forall i, j | 0 <= i < j < |ms|
      ensures ms[i].owner != ms[j].owner
    {
      assert NewOwner(ms, j) && ms[..j][i] == ms[i];
    }
  }

  lemma RepeatedOwner(ms: seq<Mandate>, i: nat)
    requires i < |ms| && !NewOwner(ms, i)
    ensures exists j :: 0 <= j < i && ms[j].owner == ms[i].owner
  {
    var m :| m in ms[..i] && m.owner == ms[i].owner;
    var j :| 0 <= j < i && ms[..i][j] == m;
    assert ms[j].owner == ms[i].owner;
  }

  function CountRoots(ms: seq<Mandate>): nat {
    if ms == [] then 0
    else CountRoots(ms[..|ms| - 1]) + (if ms[|ms| - 1].escalatesTo.None? then 1 else 0)
  }

  lemma {:induction false} NoRootCounted(ms: seq<Mandate>)
    ensures CountRoots(ms) == 0 <==> forall i :: !IsRoot(ms, i)
  {
    if ms != [] {
      var last := |ms| - 1;
      NoRootCounted(ms[..last]);
      assert forall i :: IsRoot(ms, i) <==> IsRoot(ms[..last], i) || (i == last && ms[last].escalatesTo.None?);
    }
  }

  lemma {:induction false} RootCounted(ms: seq<Mandate>, r: int)
    requires IsRoot(ms, r)
    ensures CountRoots(ms) == 1 <==> forall i | IsRoot(ms, i) :: i == r
  {
    var last := |ms| - 1;
    var rest := ms[..last];
    assert forall i :: IsRoot(ms, i) <==> IsRoot(rest, i) || (i == last && ms[last].escalatesTo.None?);
    if r == last {
      NoRootCounted(rest);
    } else {
      NoRootCounted(rest);
      RootCounted(rest, r);
      assert ms[last].escalatesTo.None? ==> IsRoot(ms, last);
    }
  }

  /** The map the first pass builds. */
  function TargetMap(ms: seq<Mandate>): (target: map<Handle, Option<Handle>>)
    ensures target.Keys == OwnersOf(ms)
  {
    if ms == [] then map[]
    else
      var last := |ms| - 1;
      assert ms == ms[..last] + [ms[last]];
      TargetMap(ms[..last])[ms[last].owner := ms[last].escalatesTo]
  }

  lemma {:induction false} TargetMapGives(ms: seq<Mandate>, j: nat)
    requires UniqueOwners(ms) && j < |ms|
    ensures ms[j].owner in TargetMap(ms) && TargetMap(ms)[ms[j].owner] == ms[j].escalatesTo
  {
    var last := |ms| - 1;
    if j < last {
      TargetMapGives(ms[..last], j);
    }
  }

  lemma PrefixGrows(ms: seq<Mandate>, i: nat)
    requires i < |ms|
    ensures OwnersOf(ms[..i + 1]) == OwnersOf(ms[..i]) + {ms[i].owner}
    ensures CountRoots(ms[..i + 1]) == CountRoots(ms[..i]) + (if ms[i].escalatesTo.None? then 1 else 0)
    ensures TargetMap(ms[..i + 1]) == TargetMap(ms[..i])[ms[i].owner := ms[i].escalatesTo]
    ensures ms[i] in ms
  {
    assert ms[..i + 1] == ms[..i] + [ms[i]];
    assert ms[..i + 1][..i] == ms[..i];
  }

  /** First pass: shapes, owners, targets and the number of roots. */
  method Survey(ms: seq<Mandate>)
    returns (bad: Option<Invalid>, target: map<Handle, Option<Handle>>, rootCount: nat, root: Handle, ghost rootAt: nat)
    ensures bad.None? ==>
              && (forall j | 0 <= j < |ms| :: GoodShape(ms[j]) && NewOwner(ms, j))
              && target == TargetMap(ms)
              && rootCount == CountRoots(ms)
              && (rootCount > 0 ==> IsRoot(ms, rootAt) && ms[rootAt].owner == root)
    ensures bad.Some? ==>
              || (bad.value.BadShape? && exists m | m in ms :: m.owner == bad.value.owner && !GoodShape(m))
              || (bad.value.DuplicateOwner? &&
                    exists i | 0 <= i < |ms| :: ms[i].owner == bad.value.owner && !NewOwner(ms, i))
  {
    bad, target, rootCount, root, rootAt := None, map[], 0, Handle(""), 0;
    for i := 0 to |ms|
      invariant forall j | 0 <= j < i :: GoodShape(ms[j])
      invariant forall j | 0 <= j < i :: NewOwner(ms, j)
      invariant target == TargetMap(ms[..i])
      invariant rootCount == CountRoots(ms[..i])
      invariant rootCount > 0 ==> IsRoot(ms, rootAt) && ms[rootAt].owner == root
    {
      var m := ms[i];
      PrefixGrows(ms, i);
      if !GoodShape(m) {
        bad := Some(BadShape(m.owner));
        return;
      }
      if m.owner in target {
        assert !NewOwner(ms, i);
        bad := Some(DuplicateOwner(m.owner));
        return;
      }
      target := target[m.owner := m.escalatesTo];
      if m.escalatesTo.None? {
        rootCount := rootCount + 1;
        root, rootAt := m.owner, i;
      }
    }
    assert ms[..|ms|] == ms;
  }

  /** Second pass: every owner climbs to the root. */
  method ClimbAll(ms: seq<Mandate>, target: map<Handle, Option<Handle>>, root: Handle) returns (v: Validity)
    requires UniqueOwners(ms)
    requires forall o :: o in target <==> Has(ms, o)
    requires forall o | o in target :: target[o] == Get(ms, o).escalatesTo
    requires forall o | o in target :: target[o].None? <==> o == root
    requires root in target
    ensures v == Valid <==> forall o | o in target :: ReachesRoot(ms, o)
    ensures v.Bad? ==>
              || (v.reason.EscalationCycle? && WalksInCircles(ms, v.reason.owner))
              || (v.reason.DanglingTarget? && WalksOut(ms, v.reason.owner))
  {
    var todo := target.Keys;
    while todo != {}
      invariant todo <= target.Keys
      invariant forall o | o in target.Keys - todo :: ReachesRoot(ms, o)
      decreases |todo|
    {
      var owner :| owner in todo;
      v := Climb(ms, target, root, owner);
      if v.Bad? {
        return;
      }
      todo := todo - {owner};
    }
    v := Valid;
  }

  /** Accepts exactly the files that keep the contract; a refusal names a reason
      that is true of the file. */
  method Validate(file: MandatesFile) returns (v: Validity)
    ensures v == Valid <==> WellFormed(file)
    ensures v.Bad? ==> Explains(v.reason, file)
  {
    var ms := file.mandates;
    if file.generation < 1 {
      return Bad(GenerationTooLow);
    }
    if ms == [] {
      return Bad(NoMandates);
    }
    var bad, target, rootCount, root;
    ghost var rootAt;
    bad, target, rootCount, root, rootAt := Survey(ms);
    if bad.Some? {
      if bad.value.DuplicateOwner? {
        ghost var i :| 0 <= i < |ms| && ms[i].owner == bad.value.owner && !NewOwner(ms, i);
        RepeatedOwner(ms, i);
      }
      return Bad(bad.value);
    }
    NewOwnersAreUnique(ms);
    if rootCount == 0 {
      NoRootCounted(ms);
      return Bad(NoRoot);
    }
    RootCounted(ms, rootAt);
    if rootCount > 1 {
      return Bad(ManyRoots);
    }
    SurveyedTargets(ms, target, root, rootAt);
    v := ClimbAll(ms, target, root);
    OnlyReachabilityLeft(file, target, rootAt);
  }

  /** Once the first pass is clean, the file is good when every owner arrives. */
  lemma OnlyReachabilityLeft(file: MandatesFile, target: map<Handle, Option<Handle>>, rootAt: nat)
    requires file.generation >= 1 && UniqueOwners(file.mandates)
    requires forall j | 0 <= j < |file.mandates| :: GoodShape(file.mandates[j])
    requires IsRoot(file.mandates, rootAt) && forall i | IsRoot(file.mandates, i) :: i == rootAt
    requires target.Keys == OwnersOf(file.mandates)
    ensures WellFormed(file) <==> forall o | o in target :: ReachesRoot(file.mandates, o)
  {
    assert OneRoot(file.mandates);
    forall m | m in file.mandates
      ensures GoodShape(m) && m.owner in target
    {
    }
  }

  lemma SurveyedTargets(ms: seq<Mandate>, target: map<Handle, Option<Handle>>, root: Handle, rootAt: nat)
    requires UniqueOwners(ms)
    requires target == TargetMap(ms)
    requires IsRoot(ms, rootAt) && ms[rootAt].owner == root && forall i | IsRoot(ms, i) :: i == rootAt
    ensures forall o :: o in target <==> Has(ms, o)
    ensures forall o | o in target :: target[o] == Get(ms, o).escalatesTo
    ensures forall o | o in target :: target[o].None? <==> o == root
    ensures root in target
    ensures forall m | m in ms :: m.owner in target
    ensures forall o | o in target :: exists m | m in ms :: m.owner == o
  {
    forall j | 0 <= j < |ms|
      ensures Has(ms, ms[j].owner) && Get(ms, ms[j].owner) == ms[j]
      ensures target[ms[j].owner] == ms[j].escalatesTo
    {
      FindAt(ms, j);
      TargetMapGives(ms, j);
    }
    forall o | o in target && target[o].None?
      ensures o == root
    {
      assert IsRoot(ms, Find(ms, o));
    }
  }
}
