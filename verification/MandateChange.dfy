/** Signed changes of the mandates file, and what a whole history of accepted
    changes can and cannot do to somebody's authority. */
module MandateChange {
  import opened Common
  import opened Mandates
  import opened MandateLookup

  type Key = nat
  type SignatureBytes = nat

  datatype Role = Human | ModelKey

  /** What is signed: both generations and the new content. The content hash is
      taken to be injective, so the content itself stands for it. */
  datatype Payload = Payload(priorGeneration: nat, nextGeneration: nat, content: MandatesFile)

  datatype Signature = Signature(handle: Handle, role: Role, key: Key, bytes: SignatureBytes)

  /** The signature scheme; nothing is assumed about it. */
  type Verifier = (Key, Payload, SignatureBytes) -> bool

  /** The handles whose signatures verify, and those of them with a human key. */
  datatype Signers = Signers(any: set<Handle>, human: set<Handle>)

  function VerifiedSigners(verify: Verifier, payload: Payload, signatures: seq<Signature>): Signers {
    Signers(set s | s in signatures && verify(s.key, payload, s.bytes) :: s.handle,
            set s | s in signatures && verify(s.key, payload, s.bytes) && s.role == Human :: s.handle)
  }

  /** Whose signature counts: whoever signed this very change with a key that verifies,
      as a human only where the key is one. */
  lemma SignersAre(verify: Verifier, payload: Payload, signatures: seq<Signature>, h: Handle)
    ensures var s := VerifiedSigners(verify, payload, signatures);
            && (h in s.any <==> exists g | g in signatures :: g.handle == h && verify(g.key, payload, g.bytes))
            && (h in s.human <==>
                  exists g | g in signatures :: g.handle == h && g.role.Human? && verify(g.key, payload, g.bytes))
            && s.human <= s.any
  {
  }

  // ------------------------------------------------------------ classification

  datatype ChangeKind = Added | Removed | KindChanged | EscalatesToChanged | Widened | Narrowed | Unchanged

  predicate SetWidened<T(==)>(prior: seq<T>, next: seq<T>) {
    exists v :: v in next && v !in prior
  }

  predicate TypesWidened(prior: seq<string>, next: seq<string>) {
    "*" !in prior && ("*" in next || SetWidened(prior, next))
  }

  predicate ScopeWidened(prior: Mandate, next: Mandate) {
    SetWidened(prior.scope.refs, next.scope.refs) || TypesWidened(prior.scope.decisionTypes, next.scope.decisionTypes)
  }

  predicate BudgetWidened(prior: Option<real>, next: Option<real>) {
    prior.Some? && (next.None? || next.value > prior.value)
  }

  predicate LevelWidened(prior: Option<Level>, next: Option<Level>) {
    prior.Some? && (next.None? || Rank(next.value) > Rank(prior.value))
  }

  /** `kind` is the kind of the prior mandate in both directions. */
  predicate ThresholdsWidened(kind: Kind, prior: Thresholds, next: Thresholds) {
    || BudgetWidened(prior.budget, next.budget)
    || LevelWidened(prior.risk, next.risk)
    || (!IrreversibleOrDefault(prior) && IrreversibleOrDefault(next))
    || (kind == Model && LevelWidened(Some(AudacityOrDefault(prior)), Some(AudacityOrDefault(next))))
  }

  function Classify(prior: Option<Mandate>, next: Option<Mandate>): ChangeKind {
    match (prior, next)
    case (None, Some(_)) => Added
    case (Some(_), None) => Removed
    case (None, None) => Unchanged
    case (Some(p), Some(n)) =>
      if p.kind != n.kind then KindChanged
      else if p.escalatesTo != n.escalatesTo then EscalatesToChanged
      else if ScopeWidened(p, n) || ThresholdsWidened(p.kind, p.thresholds, n.thresholds) then Widened
      else if ScopeWidened(n, p) || ThresholdsWidened(p.kind, n.thresholds, p.thresholds) then Narrowed
      else Unchanged
  }

  // -------------------------------------------------------------- the validator

  datatype Refusal =
    | GenerationJump
    | InvalidFile(reason: Invalid)
    | NeedsBothSignatures(owner: Handle)
    | ModelNeedsHuman(owner: Handle)
    | NobodyAbove(owner: Handle)
    | NeedsDelegator(owner: Handle)
    | NeedsOwner(owner: Handle)
    | NeedsHumanOwner(owner: Handle)

  datatype Verdict = Accepted | Refused(why: Refusal)

  function EntryOf(file: MandatesFile, owner: Handle): Option<Mandate> {
    if Has(file.mandates, owner) then Some(Get(file.mandates, owner)) else None
  }

  /** The signature an owner's change lacks, if any. */
  function Missing(owner: Handle, prior: Option<Mandate>, next: Option<Mandate>, s: Signers): (why: Option<Refusal>)
    ensures why.Some? ==> !why.value.GenerationJump? && !why.value.InvalidFile?
  {
    var kind := Classify(prior, next);
    if kind == Unchanged then None
    else if kind == EscalatesToChanged then
      var addressee := next.value.escalatesTo;
      var delegator := prior.value.escalatesTo;
      if (addressee.Some? && addressee.value !in s.any) || delegator.None? || delegator.value !in s.any
      then Some(NeedsBothSignatures(owner)) else None
    else if kind == Widened || kind == Added then
      var current := if prior.Some? then prior.value else next.value;
      if current.kind == Model && s.human == {} then Some(ModelNeedsHuman(owner))
      else if current.escalatesTo.None? then Some(NobodyAbove(owner))
      else if current.escalatesTo.value !in s.any then Some(NeedsDelegator(owner))
      else None
    else if kind == Narrowed || kind == Removed then
      if owner !in s.any then Some(NeedsOwner(owner)) else None
    else
      if owner !in s.human then Some(NeedsHumanOwner(owner)) else None
  }

  function LacksFor(prior: MandatesFile, next: MandatesFile, s: Signers, owner: Handle): Option<Refusal> {
    Missing(owner, EntryOf(prior, owner), EntryOf(next, owner), s)
  }

  ghost predicate Accepts(prior: MandatesFile, next: MandatesFile, s: Signers) {
    && next.generation == prior.generation + 1
    && WellFormed(next)
    && forall owner :: LacksFor(prior, next, s, owner).None?
  }

  /** The refusal says what is wrong with the change. */
  ghost predicate IsReason(prior: MandatesFile, next: MandatesFile, s: Signers, why: Refusal) {
    match why
    case GenerationJump => next.generation != prior.generation + 1
    case InvalidFile(_) => !WellFormed(next)
    case _ => exists owner :: LacksFor(prior, next, s, owner) == Some(why)
  }

  method ValidateMandateChange(verify: Verifier, prior: MandatesFile, next: MandatesFile, signatures: seq<Signature>)
    returns (v: Verdict)
    ensures var payload := Payload(prior.generation, next.generation, next);
            && (v == Accepted <==> Accepts(prior, next, VerifiedSigners(verify, payload, signatures)))
            && (v.Refused? ==> IsReason(prior, next, VerifiedSigners(verify, payload, signatures), v.why))
  {
    if next.generation != prior.generation + 1 {
      return Refused(GenerationJump);
    }
    var validity := Validate(next);
    if validity.Bad? {
      return Refused(InvalidFile(validity.reason));
    }
    var s := CollectSigners(verify, Payload(prior.generation, next.generation, next), signatures);
    v := CheckOwners(prior, next, s);
  }

  /** The signatures of all owners' changes, once generation and file are good. */
  method CheckOwners(prior: MandatesFile, next: MandatesFile, s: Signers) returns (v: Verdict)
    requires next.generation == prior.generation + 1 && WellFormed(next)
    ensures v == Accepted <==> Accepts(prior, next, s)
    ensures v.Refused? ==> IsReason(prior, next, s, v.why)
  {
    var why := FirstMissing(prior, next, s);
    if why.Some? {
      return Refused(why.value);
    }
    return Accepted;
  }

  method CollectSigners(verify: Verifier, payload: Payload, signatures: seq<Signature>) returns (s: Signers)
    ensures s == VerifiedSigners(verify, payload, signatures)
  {
    var any: set<Handle>, human: set<Handle> := {}, {};
    for i := 0 to |signatures|
      invariant Signers(any, human) == VerifiedSigners(verify, payload, signatures[..i])
    {
      var sig := signatures[i];
      assert signatures[..i + 1] == signatures[..i] + [sig];
      if verify(sig.key, payload, sig.bytes) {
        any := any + {sig.handle};
        if sig.role == Human {
          human := human + {sig.handle};
        }
      }
    }
    assert signatures[..|signatures|] == signatures;
    s := Signers(any, human);
  }

  lemma AbsentOwnersMissNothing(prior: MandatesFile, next: MandatesFile, s: Signers, owner: Handle)
    requires owner !in OwnersOf(prior.mandates) + OwnersOf(next.mandates)
    ensures Missing(owner, EntryOf(prior, owner), EntryOf(next, owner), s).None?
  {
    FoundIsOwned(prior.mandates, owner);
    FoundIsOwned(next.mandates, owner);
  }

  method FirstMissing(prior: MandatesFile, next: MandatesFile, s: Signers) returns (why: Option<Refusal>)
    ensures why.None? <==> forall owner :: LacksFor(prior, next, s, owner).None?
    ensures why.Some? ==> exists owner :: LacksFor(prior, next, s, owner) == why
  {
    var owners := OwnersOf(prior.mandates) + OwnersOf(next.mandates);
    var todo := owners;
    while todo != {}
      invariant todo <= owners
      invariant forall o | o in owners - todo :: LacksFor(prior, next, s, o).None?
      decreases |todo|
    {
      var owner :| owner in todo;
      why := LacksFor(prior, next, s, owner);
      if why.Some? {
        return;
      }
      todo := todo - {owner};
    }
    forall owner
      ensures LacksFor(prior, next, s, owner).None?
    {
      if owner !in owners {
        AbsentOwnersMissNothing(prior, next, s, owner);
      }
    }
    why := None;
  }

  // -------------------------------- the classifier against the router's "covers"

  ghost predicate AddsCoverage(glob: Glob, p: Mandate, n: Mandate, q: Query) {
    Covers(glob, n, q.nodeRef, q.decisionType, q.facets) && !Covers(glob, p, q.nodeRef, q.decisionType, q.facets)
  }

  lemma NoNewRefsNoNewMatch(glob: Glob, p: seq<string>, n: seq<string>, nodeRef: string)
    requires !SetWidened(p, n)
    ensures Specificity(glob, n, nodeRef).Some? ==>
              && Specificity(glob, p, nodeRef).Some?
              && Specificity(glob, n, nodeRef).value <= Specificity(glob, p, nodeRef).value
  {
  }

  /** Soundness of the classifier: with kind and target unchanged, any query that
      becomes covered makes the change Widened, whatever the matcher is. */
  lemma NewCoverageIsWidening(glob: Glob, p: Mandate, n: Mandate, q: Query)
    requires p.kind == n.kind && p.escalatesTo == n.escalatesTo && AddsCoverage(glob, p, n, q)
    ensures Classify(Some(p), Some(n)) == Widened
  {
    if !ScopeWidened(p, n) && !ThresholdsWidened(p.kind, p.thresholds, n.thresholds) {
      NoNewRefsNoNewMatch(glob, p.scope.refs, n.scope.refs, q.nodeRef);
      assert CoversType(p.scope, q.decisionType);
      assert Fits(q.facets, p.thresholds);
    }
  }

  /** An unchanged mandate scores the same for every query and every matcher. */
  lemma UnchangedScoresTheSame(glob: Glob, p: Mandate, n: Mandate, q: Query)
    requires Classify(Some(p), Some(n)) == Unchanged
    ensures Covers(glob, p, q.nodeRef, q.decisionType, q.facets) <==>
            Covers(glob, n, q.nodeRef, q.decisionType, q.facets)
    ensures Score(glob, p, q) == Score(glob, n, q)
  {
    NoNewRefsNoNewMatch(glob, p.scope.refs, n.scope.refs, q.nodeRef);
    NoNewRefsNoNewMatch(glob, n.scope.refs, p.scope.refs, q.nodeRef);
    if AddsCoverage(glob, p, n, q) {
      NewCoverageIsWidening(glob, p, n, q);
    }
    if AddsCoverage(glob, n, p, q) {
      NewCoverageIsWidening(glob, n, p, q);
    }
  }

  /** In an accepted change, new coverage was signed by the delegator, and for a
      model's mandate whose target stays also by some human; but when the kind
      changes with it, by nobody but the owner. */
  lemma AcceptedCoverageIsSigned(prior: MandatesFile, next: MandatesFile, s: Signers, owner: Handle,
                                 glob: Glob, q: Query)
    requires Accepts(prior, next, s) && Has(prior.mandates, owner) && Has(next.mandates, owner)
    requires AddsCoverage(glob, Get(prior.mandates, owner), Get(next.mandates, owner), q)
    ensures var p, n := Get(prior.mandates, owner), Get(next.mandates, owner);
            if p.kind == n.kind then
              && p.escalatesTo.Some? && p.escalatesTo.value in s.any
              && (p.kind == Model && p.escalatesTo == n.escalatesTo ==> s.human != {})
            else owner in s.human
  {
    AcceptedMissesNothing(prior, next, s, owner);
    SignedCoverage(owner, Get(prior.mandates, owner), Get(next.mandates, owner), s, glob, q);
  }

  lemma SignedCoverage(owner: Handle, p: Mandate, n: Mandate, s: Signers, glob: Glob, q: Query)
    requires Missing(owner, Some(p), Some(n), s).None? && AddsCoverage(glob, p, n, q)
    ensures if p.kind == n.kind then
              && p.escalatesTo.Some? && p.escalatesTo.value in s.any
              && (p.kind == Model && p.escalatesTo == n.escalatesTo ==> s.human != {})
            else owner in s.human
  {
    if p.kind == n.kind && p.escalatesTo == n.escalatesTo {
      NewCoverageIsWidening(glob, p, n, q);
    }
  }

  /** When new coverage of a mandate below somebody needs the signature of the
      delegator: exactly when its kind stays. A change of kind is looked for first
      and asks for the owner's own human key only. */
  lemma NewCoverageNeedsDelegatorIff(owner: Handle, p: Mandate, n: Mandate, glob: Glob, q: Query)
    requires p.escalatesTo.Some? && p.escalatesTo.value != owner && AddsCoverage(glob, p, n, q)
    ensures (forall s: Signers | s.human <= s.any && p.escalatesTo.value !in s.any ::
               Missing(owner, Some(p), Some(n), s).Some?)
            <==> p.kind == n.kind
  {
    if p.kind != n.kind {
      assert Missing(owner, Some(p), Some(n), Signers({owner}, {owner})).None?;
    } else if n.escalatesTo == p.escalatesTo {
      NewCoverageIsWidening(glob, p, n, q);
    }
  }

  /** When a change that gives a model's mandate new coverage needs a human key:
      always, except when it also moves `escalates_to` of a mandate that has one.
      There the two signatures of the move are enough, and both may be models'. */
  lemma ModelWideningNeedsHumanUnlessMoved(owner: Handle, p: Mandate, n: Mandate, glob: Glob, q: Query)
    requires p.kind == Model && AddsCoverage(glob, p, n, q)
    ensures (forall s: Signers | s.human == {} :: Missing(owner, Some(p), Some(n), s).Some?)
            <==> !(n.kind == Model && p.escalatesTo.Some? && n.escalatesTo != p.escalatesTo)
  {
    if n.kind == Model && p.escalatesTo.Some? && n.escalatesTo != p.escalatesTo {
      var any := {p.escalatesTo.value} + (if n.escalatesTo.Some? then {n.escalatesTo.value} else {});
      assert Missing(owner, Some(p), Some(n), Signers(any, {})).None?;
    } else if n.kind == Model && n.escalatesTo == p.escalatesTo {
      NewCoverageIsWidening(glob, p, n, q);
    }
  }

  // -------------------------------------------------- whole histories of changes

  datatype Change = Change(next: MandatesFile, signers: Signers)

  ghost predicate AcceptedHistory(start: MandatesFile, changes: seq<Change>)
    decreases |changes|
  {
    || changes == []
    || (Accepts(start, changes[0].next, changes[0].signers) && AcceptedHistory(changes[0].next, changes[1..]))
  }

  function LastFile(start: MandatesFile, changes: seq<Change>): MandatesFile
    decreases |changes|
  {
    if changes == [] then start else LastFile(changes[0].next, changes[1..])
  }

  predicate NeverSigned(changes: seq<Change>, handle: Handle) {
    forall c | c in changes :: handle !in c.signers.any
  }

  /** Human signers are signers. */
  predicate Honest(changes: seq<Change>) {
    forall c | c in changes :: c.signers.human <= c.signers.any
  }

  lemma {:induction false} GenerationCountsChanges(start: MandatesFile, changes: seq<Change>)
    requires WellFormed(start) && AcceptedHistory(start, changes)
    ensures LastFile(start, changes).generation == start.generation + |changes|
    ensures WellFormed(LastFile(start, changes))
    decreases |changes|
  {
    if changes != [] {
      GenerationCountsChanges(changes[0].next, changes[1..]);
    }
  }

  /** Same kind, same target, and exactly the same decisions covered, with the
      same specificity. */
  ghost predicate SameAuthority(p: Mandate, n: Mandate) {
    && p.owner == n.owner && p.kind == n.kind && p.escalatesTo == n.escalatesTo
    && forall glob: Glob, q: Query :: Score(glob, p, q) == Score(glob, n, q) && CoversAlike(glob, p, n, q)
  }

  predicate CoversAlike(glob: Glob, p: Mandate, n: Mandate, q: Query) {
    Covers(glob, p, q.nodeRef, q.decisionType, q.facets) <==> Covers(glob, n, q.nodeRef, q.decisionType, q.facets)
  }

  lemma UnsignedMeansUnchanged(owner: Handle, p: Mandate, next: Option<Mandate>, s: Signers)
    requires Missing(owner, Some(p), next, s).None? && owner !in s.any && s.human <= s.any
    requires p.escalatesTo.Some? ==> p.escalatesTo.value !in s.any
    ensures Classify(Some(p), next) == Unchanged
  {
  }

  lemma UnchangedKeepsAuthority(p: Mandate, n: Mandate)
    requires p.owner == n.owner && Classify(Some(p), Some(n)) == Unchanged
    ensures SameAuthority(p, n)
  {
    forall glob: Glob, q: Query
      ensures Score(glob, p, q) == Score(glob, n, q) && CoversAlike(glob, p, n, q)
    {
      UnchangedScoresTheSame(glob, p, n, q);
    }
  }

  lemma AcceptedMissesNothing(prior: MandatesFile, next: MandatesFile, s: Signers, owner: Handle)
    requires Accepts(prior, next, s)
    ensures Missing(owner, EntryOf(prior, owner), EntryOf(next, owner), s).None?
  {
    assert LacksFor(prior, next, s, owner).None?;
  }

  lemma UnsignedStepKeepsAuthority(prior: MandatesFile, next: MandatesFile, s: Signers, owner: Handle)
    requires Accepts(prior, next, s) && Has(prior.mandates, owner) && s.human <= s.any
    requires owner !in s.any
    requires var t := Get(prior.mandates, owner).escalatesTo; t.Some? ==> t.value !in s.any
    ensures Has(next.mandates, owner) && SameAuthority(Get(prior.mandates, owner), Get(next.mandates, owner))
  {
    AcceptedMissesNothing(prior, next, s, owner);
    var p := Get(prior.mandates, owner);
    UnsignedMeansUnchanged(owner, p, EntryOf(next, owner), s);
    UnchangedKeepsAuthority(p, Get(next.mandates, owner));
  }

  /** Authority is frozen without signatures: over any accepted history to which
      neither an owner nor its escalation target ever contributes a verified
      signature, that owner keeps its entry and exactly its authority. */
  lemma {:induction false} UnsignedAuthorityIsFrozen(start: MandatesFile, changes: seq<Change>, owner: Handle)
    requires AcceptedHistory(start, changes) && Honest(changes)
    requires Has(start.mandates, owner) && NeverSigned(changes, owner)
    requires var t := Get(start.mandates, owner).escalatesTo; t.Some? ==> NeverSigned(changes, t.value)
    ensures var last := LastFile(start, changes);
            Has(last.mandates, owner) && SameAuthority(Get(start.mandates, owner), Get(last.mandates, owner))
    decreases |changes|
  {
    if changes != [] {
      var next := changes[0].next;
      UnsignedStepKeepsAuthority(start, next, changes[0].signers, owner);
      UnsignedAuthorityIsFrozen(next, changes[1..], owner);
      SameAuthorityTransitive(Get(start.mandates, owner), Get(next.mandates, owner),
                              Get(LastFile(start, changes).mandates, owner));
    }
  }

  lemma SameAuthorityTransitive(a: Mandate, b: Mandate, c: Mandate)
    requires SameAuthority(a, b) && SameAuthority(b, c)
    ensures SameAuthority(a, c)
  {
    forall glob: Glob, q: Query
      ensures Score(glob, a, q) == Score(glob, c, q) && CoversAlike(glob, a, c, q)
    {
      assert Score(glob, a, q) == Score(glob, b, q) && CoversAlike(glob, a, b, q);
      assert Score(glob, b, q) == Score(glob, c, q) && CoversAlike(glob, b, c, q);
    }
  }

  ghost predicate RootIs(file: MandatesFile, owner: Handle) {
    Has(file.mandates, owner) && Get(file.mandates, owner).escalatesTo.None?
  }

  lemma OnlyOneRoot(file: MandatesFile, a: Handle, b: Handle)
    requires WellFormed(file) && RootIs(file, a) && RootIs(file, b)
    ensures a == b
  {
    assert IsRoot(file.mandates, Find(file.mandates, a));
    assert IsRoot(file.mandates, Find(file.mandates, b));
  }

  lemma GivingUpTheRootIsSigned(root: Handle, p: Mandate, next: Option<Mandate>, s: Signers)
    requires p.escalatesTo.None? && (next.Some? ==> next.value.escalatesTo.Some?)
    requires Missing(root, Some(p), next, s).None? && s.human <= s.any
    ensures root in s.any
  {
  }

  /** The root changes hands only in a change that the old root signed. */
  lemma RootHandoverIsSigned(prior: MandatesFile, next: MandatesFile, s: Signers, was: Handle, becomes: Handle)
    requires Accepts(prior, next, s) && s.human <= s.any
    requires RootIs(prior, was) && RootIs(next, becomes) && was != becomes
    ensures was in s.any
  {
    AcceptedMissesNothing(prior, next, s, was);
    if Has(next.mandates, was) && Get(next.mandates, was).escalatesTo.None? {
      OnlyOneRoot(next, was, becomes);
    } else {
      GivingUpTheRootIsSigned(was, Get(prior.mandates, was), EntryOf(next, was), s);
    }
  }

  /** Over a whole history: as long as the root signs nothing, it stays the root. */
  lemma {:induction false} SilentRootStaysRoot(start: MandatesFile, changes: seq<Change>, root: Handle)
    requires AcceptedHistory(start, changes) && Honest(changes)
    requires RootIs(start, root) && NeverSigned(changes, root)
    ensures RootIs(LastFile(start, changes), root)
  {
    UnsignedAuthorityIsFrozen(start, changes, root);
  }

  lemma NobodyCanWidenARoot(root: Handle, p: Mandate, n: Mandate, s: Signers, glob: Glob, q: Query)
    requires p.escalatesTo.None? && n.escalatesTo.None? && p.kind == n.kind
    requires Missing(root, Some(p), Some(n), s).None?
    ensures !AddsCoverage(glob, p, n, q)
  {
    if AddsCoverage(glob, p, n, q) {
      NewCoverageIsWidening(glob, p, n, q);
    }
  }

  /** The root's own authority never grows: no signature can widen it. */
  lemma RootIsNeverWidened(prior: MandatesFile, next: MandatesFile, s: Signers, root: Handle, glob: Glob, q: Query)
    requires Accepts(prior, next, s) && RootIs(prior, root) && RootIs(next, root)
    requires Get(prior.mandates, root).kind == Get(next.mandates, root).kind
    ensures !AddsCoverage(glob, Get(prior.mandates, root), Get(next.mandates, root), q)
  {
    AcceptedMissesNothing(prior, next, s, root);
    NobodyCanWidenARoot(root, Get(prior.mandates, root), Get(next.mandates, root), s, glob, q);
  }

  // ------------------------- concrete changes that widen with fewer signatures

  const ROOT := Mandate(Handle("root"), Person, Scope(["all"], ["*"]), Thresholds(None, None, None, None), None)
  const ONE := ROOT.(owner := Handle("one"), kind := Model, escalatesTo := Some(Handle("root")))
  const TWO := ONE.(owner := Handle("two"))
  const WORKER := ONE.(owner := Handle("worker"), scope := Scope(["a"], ["*"]), escalatesTo := Some(Handle("one")))
  const MOVED := WORKER.(scope := Scope(["a", "b"], ["*"]), escalatesTo := Some(Handle("two")))
  const TURNED := WORKER.(scope := Scope(["a", "b"], ["*"]), kind := Person)

  /** A file that is the same but for the mandate of the worker. */
  function FileWith(generation: nat, worker: Mandate): MandatesFile {
    MandatesFile(generation, [ROOT, ONE, TWO, worker])
  }

  lemma {:induction false} LastEntry(ms: seq<Mandate>, m: Mandate, owner: Handle)
    requires m.owner !in OwnersOf(ms)
    ensures EntryOf(MandatesFile(0, ms + [m]), owner) ==
              if owner == m.owner then Some(m) else EntryOf(MandatesFile(0, ms), owner)
  {
    if ms != [] {
      assert (ms + [m])[1..] == ms[1..] + [m];
      LastEntry(ms[1..], m, owner);
      assert ms[0] in ms;
    }
  }

  lemma RootReachesRoot(ms: seq<Mandate>, i: nat)
    requires UniqueOwners(ms) && IsRoot(ms, i)
    ensures ReachesRoot(ms, ms[i].owner)
  {
    FindAt(ms, i);
    ArrivedWalkIsChain(ms, ms[i].owner, 0);
  }

  lemma BelowReachesRoot(ms: seq<Mandate>, i: nat, j: nat)
    requires UniqueOwners(ms) && i < |ms| && j < |ms|
    requires ms[i].escalatesTo == Some(ms[j].owner) && ReachesRoot(ms, ms[j].owner)
    ensures ReachesRoot(ms, ms[i].owner)
  {
    FindAt(ms, i);
    var path :| IsChain(ms, path) && path[0] == ms[j].owner;
    ChainExtends(ms, ms[i].owner, path);
    assert ([ms[i].owner] + path)[0] == ms[i].owner;
  }

  predicate IsWorker(m: Mandate) {
    && m.owner == Handle("worker") && GoodShape(m)
    && (m.escalatesTo == Some(Handle("one")) || m.escalatesTo == Some(Handle("two")))
  }

  lemma FileIsShaped(worker: Mandate)
    requires IsWorker(worker)
    ensures var ms := FileWith(2, worker).mandates;
            && UniqueOwners(ms) && IsRoot(ms, 0) && OneRoot(ms) && |ms| == 4
            && forall i | 0 <= i < 4 :: GoodShape(ms[i])
  {
    var ms := FileWith(2, worker).mandates;
    assert IsRoot(ms, 0) && forall i | IsRoot(ms, i) :: i == 0;
  }

  lemma FileReachesRoot(worker: Mandate, i: nat)
    requires IsWorker(worker) && i < 4
    ensures var ms := FileWith(2, worker).mandates; ReachesRoot(ms, ms[i].owner)
  {
    var ms := FileWith(2, worker).mandates;
    FileIsShaped(worker);
    RootReachesRoot(ms, 0);
    if i == 3 {
      var j := if worker.escalatesTo == Some(Handle("one")) then 1 else 2;
      BelowReachesRoot(ms, j, 0);
      BelowReachesRoot(ms, 3, j);
    } else if i > 0 {
      BelowReachesRoot(ms, i, 0);
    }
  }

  lemma WellFormedByIndex(file: MandatesFile)
    requires file.generation >= 1 && UniqueOwners(file.mandates) && OneRoot(file.mandates)
    requires forall i | 0 <= i < |file.mandates| :: GoodShape(file.mandates[i])
    requires forall i | 0 <= i < |file.mandates| :: ReachesRoot(file.mandates, file.mandates[i].owner)
    ensures WellFormed(file)
  {
  }

  lemma FileIsWellFormed(worker: Mandate)
    requires IsWorker(worker)
    ensures WellFormed(FileWith(2, worker))
  {
    FileIsShaped(worker);
    forall i | 0 <= i < 4
      ensures ReachesRoot(FileWith(2, worker).mandates, FileWith(2, worker).mandates[i].owner)
    {
      FileReachesRoot(worker, i);
    }
    WellFormedByIndex(FileWith(2, worker));
  }

  lemma OnlyTheWorkerChanges(worker: Mandate, s: Signers, owner: Handle)
    requires IsWorker(worker) && Missing(Handle("worker"), Some(WORKER), Some(worker), s).None?
    ensures Missing(owner, EntryOf(FileWith(1, WORKER), owner), EntryOf(FileWith(2, worker), owner), s).None?
  {
    var others := [ROOT, ONE, TWO];
    assert FileWith(1, WORKER).mandates == others + [WORKER];
    assert FileWith(2, worker).mandates == others + [worker];
    LastEntry(others, WORKER, owner);
    LastEntry(others, worker, owner);
    if owner != Handle("worker") {
      SameEntryMissesNothing(owner, EntryOf(MandatesFile(0, others), owner), s);
    }
  }

  lemma SameEntryMissesNothing(owner: Handle, m: Option<Mandate>, s: Signers)
    ensures Missing(owner, m, m, s).None?
  {
  }

  lemma WorkerChangeIsAccepted(worker: Mandate, s: Signers)
    requires IsWorker(worker) && Missing(Handle("worker"), Some(WORKER), Some(worker), s).None?
    ensures Accepts(FileWith(1, WORKER), FileWith(2, worker), s)
  {
    FileIsWellFormed(worker);
    forall owner
      ensures LacksFor(FileWith(1, WORKER), FileWith(2, worker), s, owner).None?
    {
      OnlyTheWorkerChanges(worker, s, owner);
    }
  }

  lemma CoversMore(glob: Glob, worker: Mandate)
    requires glob("b", "b") && !glob("a", "b")
    requires worker.scope == Scope(["a", "b"], ["*"]) && worker.thresholds == WORKER.thresholds
    ensures AddsCoverage(glob, WORKER, worker, Query("b", "any", Facets(None, None, false)))
  {
    assert "b" in worker.scope.refs;
  }

  /** The exception is real: an accepted change, signed by two models' handles
      and no human, after which a model's mandate covers a new ref. */
  lemma MovedModelIsWidenedWithoutAHuman(glob: Glob)
    requires glob("b", "b") && !glob("a", "b")
    ensures Accepts(FileWith(1, WORKER), FileWith(2, MOVED), Signers({Handle("one"), Handle("two")}, {}))
    ensures AddsCoverage(glob, WORKER, MOVED, Query("b", "any", Facets(None, None, false)))
  {
    WorkerChangeIsAccepted(MOVED, Signers({Handle("one"), Handle("two")}, {}));
    CoversMore(glob, MOVED);
  }

  /** So is this one: signed by nobody but the worker itself, a mandate changes its
      kind and covers a new ref. */
  lemma TurnedMandateIsWidenedAlone(glob: Glob)
    requires glob("b", "b") && !glob("a", "b")
    ensures Accepts(FileWith(1, WORKER), FileWith(2, TURNED), Signers({Handle("worker")}, {Handle("worker")}))
    ensures AddsCoverage(glob, WORKER, TURNED, Query("b", "any", Facets(None, None, false)))
  {
    WorkerChangeIsAccepted(TURNED, Signers({Handle("worker")}, {Handle("worker")}));
    CoversMore(glob, TURNED);
  }
}
