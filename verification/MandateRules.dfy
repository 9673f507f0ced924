/** Who has to sign what: the rules of a change in terms of what a mandate covers
    before and after it, and how owners come into the file over a history. */
module MandateRules {
  import opened Common
  import opened Mandates
  import opened MandateLookup
  import opened MandateChange

  // ------------------------------------------------------- what a mandate looks like

  /** The same owners with the same targets, whatever else has changed. */
  predicate SameTree(ms: seq<Mandate>, ns: seq<Mandate>) {
    |ms| == |ns| && forall i | 0 <= i < |ms| :: ms[i].owner == ns[i].owner && ms[i].escalatesTo == ns[i].escalatesTo
  }

  lemma {:induction false} SameTreeFinds(ms: seq<Mandate>, ns: seq<Mandate>, owner: Handle)
    requires SameTree(ms, ns)
    ensures Find(ms, owner) == Find(ns, owner)
  {
    if ms != [] && ms[0].owner != owner {
      SameTreeFinds(ms[1..], ns[1..], owner);
    }
  }

  lemma SameTreeChains(ms: seq<Mandate>, ns: seq<Mandate>, path: seq<Handle>)
    requires SameTree(ms, ns) && IsChain(ms, path)
    ensures IsChain(ns, path)
  {
    forall i | 0 <= i < |path|
      ensures Has(ns, path[i]) && Get(ns, path[i]).escalatesTo == Get(ms, path[i]).escalatesTo
    {
      SameTreeFinds(ms, ns, path[i]);
    }
  }

  lemma SameTreeReaches(ms: seq<Mandate>, ns: seq<Mandate>, owner: Handle)
    requires SameTree(ms, ns) && ReachesRoot(ms, owner)
    ensures ReachesRoot(ns, owner)
  {
    var path :| IsChain(ms, path) && path[0] == owner;
    SameTreeChains(ms, ns, path);
  }

  lemma SameTreeRoot(ms: seq<Mandate>, ns: seq<Mandate>)
    requires SameTree(ms, ns) && OneRoot(ms)
    ensures OneRoot(ns)
  {
    var r :| IsRoot(ms, r) && forall i | IsRoot(ms, i) :: i == r;
    assert forall i :: IsRoot(ns, i) <==> IsRoot(ms, i);
  }

  lemma EverybodyReaches(ms: seq<Mandate>, ns: seq<Mandate>)
    requires SameTree(ms, ns) && forall m | m in ms :: ReachesRoot(ms, m.owner)
    ensures forall n | n in ns :: ReachesRoot(ns, n.owner)
  {
    forall n | n in ns
      ensures ReachesRoot(ns, n.owner)
    {
      var i :| 0 <= i < |ns| && ns[i] == n;
      assert ms[i] in ms && ms[i].owner == n.owner;
      SameTreeReaches(ms, ns, n.owner);
    }
  }

  /** Something to be responsible for, some type of decision, no audacity for a person. */
  predicate LooksGood(n: Mandate) {
    n.scope.refs != [] && n.scope.decisionTypes != [] && (n.thresholds.audacity.Some? ==> n.kind == Model)
  }

  lemma GoodLooksSuffice(file: MandatesFile, ns: seq<Mandate>)
    requires WellFormed(file) && SameTree(file.mandates, ns) && forall n | n in ns :: GoodShape(n)
    ensures WellFormed(MandatesFile(file.generation, ns))
  {
    SameTreeRoot(file.mandates, ns);
    EverybodyReaches(file.mandates, ns);
  }

  lemma BadLooksRefuse(file: MandatesFile, n: Mandate)
    requires n in file.mandates && !GoodShape(n)
    ensures !WellFormed(file)
  {
  }

  /** In a good file, changed without a change of owners and targets, only the looks of
      each mandate matter. */
  lemma LooksMatterOnly(file: MandatesFile, ns: seq<Mandate>)
    requires WellFormed(file) && SameTree(file.mandates, ns)
    ensures WellFormed(MandatesFile(file.generation, ns)) <==> forall n | n in ns :: LooksGood(n)
  {
    if n :| n in ns && !LooksGood(n) {
      BadLooksRefuse(MandatesFile(file.generation, ns), n);
    } else {
      GoodLooksSuffice(file, ns);
    }
  }

  // ------------------------------------------------- what counts as widening

  ghost predicate GainsCoverage(p: Mandate, n: Mandate) {
    exists glob: Glob, q: Query :: AddsCoverage(glob, p, n, q)
  }

  /** A ceiling that excluded nothing is dropped. */
  predicate DropsHighCeiling(p: Mandate, n: Mandate) {
    p.thresholds.risk == Some(High) && n.thresholds.risk.None?
  }

  /** A model may be bolder than before; an absent audacity is low. */
  predicate GetsBolder(p: Mandate, n: Mandate) {
    && p.kind == Model && n.thresholds.audacity.Some?
    && Exceeds(n.thresholds.audacity.value,
               if p.thresholds.audacity.Some? then p.thresholds.audacity.value else Low)
  }

  /** The longest of the strings and one character more: a string not among them. */
  function Longest(ts: seq<string>): (n: nat)
    ensures forall t | t in ts :: |t| <= n
  {
    if ts == [] then 0
    else
      var n := Longest(ts[1..]);
      if |ts[0]| > n then |ts[0]| else n
  }

  function OtherType(ts: seq<string>): (t: string)
    ensures t !in ts
  {
    seq(Longest(ts) + 1, _ => 'x')
  }

  const NOTHING := Facets(None, None, false)

  lemma NewRefIsCovered(p: Mandate, n: Mandate, v: string)
    requires v in n.scope.refs && v !in p.scope.refs && n.scope.decisionTypes != []
    ensures GainsCoverage(p, n)
  {
    var only: Glob := (pattern, _) => pattern == v;
    var t := n.scope.decisionTypes[0];
    var q := Query(v, t, NOTHING);
    assert only(v, v) && t in n.scope.decisionTypes;
    CoversIff(only, n, v, t, NOTHING);
    CoversIff(only, p, v, t, NOTHING);
    assert AddsCoverage(only, p, n, q);
  }

  lemma NewTypeIsCovered(p: Mandate, n: Mandate, t: string)
    requires n.scope.refs != [] && "*" !in p.scope.decisionTypes && t !in p.scope.decisionTypes
    requires "*" in n.scope.decisionTypes || t in n.scope.decisionTypes
    ensures GainsCoverage(p, n)
  {
    var all: Glob := (_, _) => true;
    var q := Query("", t, NOTHING);
    assert n.scope.refs[0] in n.scope.refs && all(n.scope.refs[0], "");
    CoversIff(all, n, "", t, NOTHING);
    CoversIff(all, p, "", t, NOTHING);
    assert AddsCoverage(all, p, n, q);
  }

  /** With the same scope, facets that only the new thresholds allow. */
  lemma NewFacetsAreCovered(p: Mandate, n: Mandate, f: Facets)
    requires n.scope.refs != [] && n.scope.decisionTypes != [] && Fits(f, n.thresholds) && !Fits(f, p.thresholds)
    ensures GainsCoverage(p, n)
  {
    var all: Glob := (_, _) => true;
    var t := n.scope.decisionTypes[0];
    assert n.scope.refs[0] in n.scope.refs && all(n.scope.refs[0], "") && t in n.scope.decisionTypes;
    assert AddsCoverage(all, p, n, Query("", t, f));
  }

  lemma HigherBudgetIsCovered(p: Mandate, n: Mandate)
    requires n.scope.refs != [] && n.scope.decisionTypes != []
    requires BudgetWidened(p.thresholds.budget, n.thresholds.budget)
    ensures GainsCoverage(p, n)
  {
    var b := if n.thresholds.budget.Some? then n.thresholds.budget.value else p.thresholds.budget.value + 1.0;
    NewFacetsAreCovered(p, n, NOTHING.(budget := Some(b)));
  }

  lemma HigherRiskIsCovered(p: Mandate, n: Mandate)
    requires n.scope.refs != [] && n.scope.decisionTypes != []
    requires LevelWidened(p.thresholds.risk, n.thresholds.risk) && !DropsHighCeiling(p, n)
    ensures GainsCoverage(p, n)
  {
    var l := if n.thresholds.risk.Some? then n.thresholds.risk.value else High;
    RankOrders(l, p.thresholds.risk.value);
    NewFacetsAreCovered(p, n, NOTHING.(risk := Some(l)));
  }

  lemma WiderScopeIsCovered(p: Mandate, n: Mandate)
    requires n.scope.refs != [] && n.scope.decisionTypes != [] && ScopeWidened(p, n)
    ensures GainsCoverage(p, n)
  {
    if SetWidened(p.scope.refs, n.scope.refs) {
      var v :| v in n.scope.refs && v !in p.scope.refs;
      NewRefIsCovered(p, n, v);
    } else if "*" in n.scope.decisionTypes {
      NewTypeIsCovered(p, n, OtherType(p.scope.decisionTypes));
    } else {
      var t :| t in n.scope.decisionTypes && t !in p.scope.decisionTypes;
      NewTypeIsCovered(p, n, t);
    }
  }

  lemma WiderThresholdsGain(p: Mandate, n: Mandate)
    requires GoodShape(n) && ThresholdsWidened(p.kind, p.thresholds, n.thresholds)
    ensures GainsCoverage(p, n) || GetsBolder(p, n) || DropsHighCeiling(p, n)
  {
    if BudgetWidened(p.thresholds.budget, n.thresholds.budget) {
      HigherBudgetIsCovered(p, n);
    } else if LevelWidened(p.thresholds.risk, n.thresholds.risk) {
      if !DropsHighCeiling(p, n) {
        HigherRiskIsCovered(p, n);
      }
    } else if !IrreversibleOrDefault(p.thresholds) && IrreversibleOrDefault(n.thresholds) {
      NewFacetsAreCovered(p, n, NOTHING.(irreversible := true));
    } else {
      RankOrders(AudacityOrDefault(n.thresholds), AudacityOrDefault(p.thresholds));
    }
  }

  lemma BolderIsWidened(p: Mandate, n: Mandate)
    requires GetsBolder(p, n)
    ensures ThresholdsWidened(p.kind, p.thresholds, n.thresholds)
  {
    RankOrders(AudacityOrDefault(n.thresholds), AudacityOrDefault(p.thresholds));
  }

  /** The classifier is exact: with kind and target unchanged a change is a widening
      exactly when under some matcher some decision is newly covered, a model gets
      bolder, or the ceiling `high` is dropped, which excluded nothing. */
  lemma WidenedIff(p: Mandate, n: Mandate)
    requires p.kind == n.kind && p.escalatesTo == n.escalatesTo && GoodShape(n)
    ensures Classify(Some(p), Some(n)) == Widened <==>
            GainsCoverage(p, n) || GetsBolder(p, n) || DropsHighCeiling(p, n)
  {
    if GainsCoverage(p, n) {
      var glob: Glob, q: Query :| AddsCoverage(glob, p, n, q);
      NewCoverageIsWidening(glob, p, n, q);
    } else if GetsBolder(p, n) {
      BolderIsWidened(p, n);
    } else if ScopeWidened(p, n) {
      WiderScopeIsCovered(p, n);
    } else if ThresholdsWidened(p.kind, p.thresholds, n.thresholds) {
      WiderThresholdsGain(p, n);
    }
  }

  /** What the new mandate has more than the old one. */
  ghost predicate Gains(p: Mandate, n: Mandate) {
    GainsCoverage(p, n) || GetsBolder(p, n) || DropsHighCeiling(p, n)
  }

  /** It is a narrowing exactly when nothing is gained and something is given up. */
  lemma NarrowedIff(p: Mandate, n: Mandate)
    requires p.kind == n.kind && p.escalatesTo == n.escalatesTo && GoodShape(p) && GoodShape(n)
    ensures Classify(Some(p), Some(n)) == Narrowed <==> !Gains(p, n) && Gains(n, p)
    ensures Classify(Some(p), Some(n)) == Unchanged <==> !Gains(p, n) && !Gains(n, p)
  {
    WidenedIff(p, n);
    WidenedIff(n, p);
    assert Classify(Some(n), Some(p)) == Widened <==>
           ScopeWidened(n, p) || ThresholdsWidened(p.kind, n.thresholds, p.thresholds);
  }

  /** The same mandate with another risk ceiling. */
  function WithRisk(m: Mandate, risk: Option<Level>): Mandate {
    m.(thresholds := m.thresholds.(risk := risk))
  }

  /** A ceiling that moves up from low over medium to high, or goes away, is a
      widening; one that moves down, or appears, is a narrowing. */
  lemma CeilingMoves(m: Mandate)
    ensures Classify(Some(WithRisk(m, Some(Low))), Some(WithRisk(m, Some(Medium)))) == Widened
    ensures Classify(Some(WithRisk(m, Some(Low))), Some(WithRisk(m, Some(High)))) == Widened
    ensures Classify(Some(WithRisk(m, Some(Medium))), Some(WithRisk(m, Some(High)))) == Widened
    ensures Classify(Some(WithRisk(m, Some(Medium))), Some(WithRisk(m, Some(Low)))) == Narrowed
    ensures Classify(Some(WithRisk(m, Some(High))), Some(WithRisk(m, Some(Low)))) == Narrowed
    ensures Classify(Some(WithRisk(m, Some(High))), Some(WithRisk(m, Some(Medium)))) == Narrowed
    ensures forall l :: Classify(Some(WithRisk(m, Some(l))), Some(WithRisk(m, None))) == Widened
    ensures forall l :: Classify(Some(WithRisk(m, None)), Some(WithRisk(m, Some(l)))) == Narrowed
  {
  }

  // --------------------------------------------------------- who has to sign

  predicate TargetSigned(m: Mandate, s: Signers) {
    m.escalatesTo.Some? && m.escalatesTo.value in s.any
  }

  /** A new mandate stands below somebody, who signed; a model's needs a human key too. */
  predicate EntrySigned(m: Mandate, s: Signers) {
    TargetSigned(m, s) && (m.kind == Model ==> s.human != {})
  }

  /** The signatures a change of one owner's mandate needs. */
  ghost predicate Signed(owner: Handle, prior: Option<Mandate>, next: Option<Mandate>, s: Signers) {
    match (prior, next)
    case (None, None) => true
    case (None, Some(n)) => EntrySigned(n, s)
    case (Some(_), None) => owner in s.any
    case (Some(p), Some(n)) =>
      if p.kind != n.kind then owner in s.human
      else if p.escalatesTo != n.escalatesTo then TargetSigned(p, s) && (n.escalatesTo.Some? ==> TargetSigned(n, s))
      else if Gains(p, n) then EntrySigned(p, s)
      else Gains(n, p) ==> owner in s.any
  }

  lemma SignedIff(owner: Handle, prior: Option<Mandate>, next: Option<Mandate>, s: Signers)
    requires (prior.Some? ==> GoodShape(prior.value)) && (next.Some? ==> GoodShape(next.value))
    ensures Missing(owner, prior, next, s).None? <==> Signed(owner, prior, next, s)
  {
    if prior.Some? && next.Some? && prior.value.kind == next.value.kind
       && prior.value.escalatesTo == next.value.escalatesTo {
      WidenedIff(prior.value, next.value);
      NarrowedIff(prior.value, next.value);
    }
  }

  predicate Shaped(ms: seq<Mandate>) {
    forall m | m in ms :: GoodShape(m)
  }

  lemma EntryIsShaped(file: MandatesFile, owner: Handle)
    requires Shaped(file.mandates)
    ensures EntryOf(file, owner).Some? ==> GoodShape(EntryOf(file, owner).value)
  {
    if Has(file.mandates, owner) {
      assert Get(file.mandates, owner) in file.mandates;
    }
  }

  ghost predicate AllSigned(prior: MandatesFile, next: MandatesFile, s: Signers) {
    forall owner :: Signed(owner, EntryOf(prior, owner), EntryOf(next, owner), s)
  }

  lemma NothingLacksIff(prior: MandatesFile, next: MandatesFile, s: Signers)
    requires Shaped(prior.mandates) && Shaped(next.mandates)
    ensures (forall owner :: LacksFor(prior, next, s, owner).None?) <==> AllSigned(prior, next, s)
  {
    forall owner
      ensures LacksFor(prior, next, s, owner).None? <==> Signed(owner, EntryOf(prior, owner), EntryOf(next, owner), s)
    {
      EntryIsShaped(prior, owner);
      EntryIsShaped(next, owner);
      SignedIff(owner, EntryOf(prior, owner), EntryOf(next, owner), s);
    }
  }

  /** A change is accepted exactly when the generation grows by one, the new file is
      valid, and every owner's entry, exit, gain and loss has its signatures. */
  lemma AcceptsIff(prior: MandatesFile, next: MandatesFile, s: Signers)
    requires Shaped(prior.mandates)
    ensures Accepts(prior, next, s) <==>
            next.generation == prior.generation + 1 && WellFormed(next) && AllSigned(prior, next, s)
  {
    if Shaped(next.mandates) {
      NothingLacksIff(prior, next, s);
    }
  }

  lemma EntryNeeds(owner: Handle, n: Mandate, s: Signers)
    ensures Missing(owner, None, Some(n), s).None? <==> EntrySigned(n, s)
  {
  }

  lemma ExitNeeds(owner: Handle, p: Mandate, s: Signers)
    ensures Missing(owner, Some(p), None, s).None? <==> owner in s.any
  {
  }

  /** Nobody enters unsigned. */
  lemma NewOwnerIsSigned(prior: MandatesFile, next: MandatesFile, s: Signers, owner: Handle)
    requires Accepts(prior, next, s) && !Has(prior.mandates, owner) && Has(next.mandates, owner)
    ensures EntrySigned(Get(next.mandates, owner), s)
  {
    AcceptedMissesNothing(prior, next, s, owner);
    EntryNeeds(owner, Get(next.mandates, owner), s);
  }

  /** Nobody is removed without their own signature. */
  lemma RemovalIsSigned(prior: MandatesFile, next: MandatesFile, s: Signers, owner: Handle)
    requires Accepts(prior, next, s) && Has(prior.mandates, owner) && !Has(next.mandates, owner)
    ensures owner in s.any
  {
    AcceptedMissesNothing(prior, next, s, owner);
    ExitNeeds(owner, Get(prior.mandates, owner), s);
  }

  /** What an accepted change takes away from an owner was signed by that owner, or by
      the delegator in the same change that moves the target or gives something else. */
  lemma LossIsSigned(prior: MandatesFile, next: MandatesFile, s: Signers, owner: Handle)
    requires Shaped(prior.mandates) && Accepts(prior, next, s) && s.human <= s.any
    requires Has(prior.mandates, owner) && Has(next.mandates, owner)
    requires Gains(Get(next.mandates, owner), Get(prior.mandates, owner))
    ensures var p, n := Get(prior.mandates, owner), Get(next.mandates, owner);
            owner in s.any || (TargetSigned(p, s) && (p.escalatesTo != n.escalatesTo || Gains(p, n)))
  {
    AcceptsIff(prior, next, s);
    assert Signed(owner, EntryOf(prior, owner), EntryOf(next, owner), s);
  }

  /** When taking something away needs the owner's signature: exactly unless the change
      also moves the target or gives something else, with a delegator to sign for it. */
  lemma LossNeedsOwnerIff(owner: Handle, p: Mandate, n: Mandate)
    requires GoodShape(p) && GoodShape(n) && Gains(n, p)
    ensures (forall s: Signers | s.human <= s.any && owner !in s.any :: Missing(owner, Some(p), Some(n), s).Some?)
            <==> p.kind != n.kind || !CanSignInstead(owner, p, n)
  {
    if p.kind == n.kind && CanSignInstead(owner, p, n) {
      var s := InsteadOf(owner, p, n);
      SignedIff(owner, Some(p), Some(n), s);
      assert Missing(owner, Some(p), Some(n), s).None? && owner !in s.any && s.human <= s.any;
    } else {
      forall s: Signers | s.human <= s.any && owner !in s.any
        ensures Missing(owner, Some(p), Some(n), s).Some?
      {
        SignedIff(owner, Some(p), Some(n), s);
      }
    }
  }

  /** The change moves the target or gives something else, and those who sign for that
      are not the owner. */
  ghost predicate CanSignInstead(owner: Handle, p: Mandate, n: Mandate) {
    && p.escalatesTo.Some? && p.escalatesTo != Some(owner) && n.escalatesTo != Some(owner)
    && (p.escalatesTo != n.escalatesTo || Gains(p, n))
  }

  function InsteadOf(owner: Handle, p: Mandate, n: Mandate): Signers
    requires p.escalatesTo.Some?
  {
    var above := {p.escalatesTo.value} + (if n.escalatesTo.Some? then {n.escalatesTo.value} else {});
    Signers(above, above)
  }

  // -------------------------------------------------- how owners come in and out

  function FileAfter(start: MandatesFile, changes: seq<Change>, i: nat): MandatesFile
    requires i <= |changes|
  {
    if i == 0 then start else changes[i - 1].next
  }

  /** The i-th change brings the owner in, with the signatures that needs. */
  predicate Enters(start: MandatesFile, changes: seq<Change>, i: nat, owner: Handle)
    requires i < |changes|
  {
    && !Has(FileAfter(start, changes, i).mandates, owner) && Has(changes[i].next.mandates, owner)
    && EntrySigned(Get(changes[i].next.mandates, owner), changes[i].signers)
  }

  /** Whoever is in the last file of a history was in the first one, or came in by a
      change that the one above signed, and a human where the mandate is a model's. */
  lemma {:induction false} EveryoneEnteredSigned(start: MandatesFile, changes: seq<Change>, owner: Handle)
    requires AcceptedHistory(start, changes) && Has(LastFile(start, changes).mandates, owner)
    ensures Has(start.mandates, owner) || exists i | 0 <= i < |changes| :: Enters(start, changes, i, owner)
    decreases |changes|
  {
    if changes != [] && !Has(start.mandates, owner) {
      var next, rest := changes[0].next, changes[1..];
      if Has(next.mandates, owner) {
        NewOwnerIsSigned(start, next, changes[0].signers, owner);
        assert Enters(start, changes, 0, owner);
      } else {
        EveryoneEnteredSigned(next, rest, owner);
        var i :| 0 <= i < |rest| && Enters(next, rest, i, owner);
        assert FileAfter(next, rest, i) == FileAfter(start, changes, i + 1) && rest[i] == changes[i + 1];
        assert Enters(start, changes, i + 1, owner);
      }
    }
  }

  predicate Leaves(start: MandatesFile, changes: seq<Change>, i: nat, owner: Handle)
    requires i < |changes|
  {
    && Has(FileAfter(start, changes, i).mandates, owner) && !Has(changes[i].next.mandates, owner)
    && owner in changes[i].signers.any
  }

  /** Whoever was in the first file is in the last one, or left by a change that they
      signed themselves. */
  lemma {:induction false} NobodyIsRemovedUnsigned(start: MandatesFile, changes: seq<Change>, owner: Handle)
    requires AcceptedHistory(start, changes) && Has(start.mandates, owner)
    ensures || Has(LastFile(start, changes).mandates, owner)
            || exists i | 0 <= i < |changes| :: Leaves(start, changes, i, owner)
    decreases |changes|
  {
    if changes != [] {
      var next, rest := changes[0].next, changes[1..];
      if Has(next.mandates, owner) {
        NobodyIsRemovedUnsigned(next, rest, owner);
        if !Has(LastFile(start, changes).mandates, owner) {
          var i :| 0 <= i < |rest| && Leaves(next, rest, i, owner);
          assert FileAfter(next, rest, i) == FileAfter(start, changes, i + 1) && rest[i] == changes[i + 1];
          assert Leaves(start, changes, i + 1, owner);
        }
      } else {
        RemovalIsSigned(start, next, changes[0].signers, owner);
        assert Leaves(start, changes, 0, owner);
      }
    }
  }
}
