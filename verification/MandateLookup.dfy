/** Step one of the escalation router: who owns a decision. */
module MandateLookup {
  import opened Common
  import opened Mandates

  predicate CoversType(s: Scope, decisionType: string) {
    "*" in s.decisionTypes || decisionType in s.decisionTypes
  }

  /** Length of the longest pattern that matches. */
  function Specificity(glob: Glob, refs: seq<string>, nodeRef: string): (r: Option<nat>)
    ensures r.Some? <==> exists p :: p in refs && glob(p, nodeRef)
    ensures r.Some? ==> exists p :: p in refs && glob(p, nodeRef) && |p| == r.value
    ensures forall p | p in refs && glob(p, nodeRef) :: r.Some? && |p| <= r.value
  {
    if refs == [] then None
    else
      var rest := Specificity(glob, refs[1..], nodeRef);
      if !glob(refs[0], nodeRef) then rest
      else if rest.Some? && rest.value >= |refs[0]| then rest
      else Some(|refs[0]|)
  }

  /** Thresholds are ceilings; an absent ceiling or an absent facet never excludes. */
  predicate Fits(f: Facets, t: Thresholds) {
    && (t.budget.Some? && f.budget.Some? ==> f.budget.value <= t.budget.value)
    && (t.risk.Some? && f.risk.Some? ==> Rank(f.risk.value) <= Rank(t.risk.value))
    && (f.irreversible ==> IrreversibleOrDefault(t))
  }

  predicate Covers(glob: Glob, m: Mandate, nodeRef: string, decisionType: string, f: Facets) {
    && CoversType(m.scope, decisionType)
    && Specificity(glob, m.scope.refs, nodeRef).Some?
    && Fits(f, m.thresholds)
  }

  datatype Query = Query(nodeRef: string, decisionType: string, facets: Facets)

  /** Specificity of a mandate for a query; zero when it does not cover it, and
      also when nothing but an empty pattern matched. */
  function Score(glob: Glob, m: Mandate, q: Query): nat {
    if Covers(glob, m, q.nodeRef, q.decisionType, q.facets) then Specificity(glob, m.scope.refs, q.nodeRef).value else 0
  }

  function BestScore(glob: Glob, ms: seq<Mandate>, q: Query): (best: nat)
    ensures forall m | m in ms :: Score(glob, m, q) <= best
    ensures best > 0 ==> exists m :: m in ms && Score(glob, m, q) == best
  {
    if ms == [] then 0
    else
      var last := |ms| - 1;
      var rest := BestScore(glob, ms[..last], q);
      assert ms == ms[..last] + [ms[last]];
      if Score(glob, ms[last], q) > rest then Score(glob, ms[last], q) else rest
  }

  /** Owners whose mandate has exactly this score, in file order. */
  function Tied(glob: Glob, ms: seq<Mandate>, q: Query, score: nat): seq<Handle> {
    if ms == [] then []
    else
      var last := |ms| - 1;
      Tied(glob, ms[..last], q, score) + (if Score(glob, ms[last], q) == score then [ms[last].owner] else [])
  }

  /** The chain of escalation targets, cut off after `fuel` steps. */
  function ChainFrom(ms: seq<Mandate>, owner: Handle, fuel: nat): seq<Handle>
    decreases fuel
  {
    [owner] +
    if fuel == 0 || !Has(ms, owner) || Get(ms, owner).escalatesTo.None? then []
    else ChainFrom(ms, Get(ms, owner).escalatesTo.value, fuel - 1)
  }

  predicate IsLast(ms: seq<Mandate>, owner: Handle) {
    !Has(ms, owner) || Get(ms, owner).escalatesTo.None?
  }

  lemma ChainStops(ms: seq<Mandate>, owner: Handle, fuel: nat)
    requires fuel == 0 || IsLast(ms, owner)
    ensures ChainFrom(ms, owner, fuel) == [owner]
  {
  }

  lemma ChainGoesOn(ms: seq<Mandate>, owner: Handle, next: Handle, fuel: nat, before: seq<Handle>)
    requires fuel > 0 && !IsLast(ms, owner) && Get(ms, owner).escalatesTo.value == next
    ensures before + ChainFrom(ms, owner, fuel) == before + [owner] + ChainFrom(ms, next, fuel - 1)
  {
  }

  lemma {:induction false} ChainFromFollows(ms: seq<Mandate>, path: seq<Handle>, fuel: nat)
    requires IsChain(ms, path) && |path| <= fuel + 1
    ensures ChainFrom(ms, path[0], fuel) == path
    decreases fuel
  {
    if |path| > 1 {
      assert Get(ms, path[0]).escalatesTo == Some(path[1]);
      RestIsChain(ms, path);
      ChainFromFollows(ms, path[1..], fuel - 1);
      ChainGoesOn(ms, path[0], path[1], fuel, []);
      assert path == [] + [path[0]] + path[1..];
    } else {
      ChainStops(ms, path[0], fuel);
    }
  }

  lemma RestIsChain(ms: seq<Mandate>, path: seq<Handle>)
    requires IsChain(ms, path) && |path| > 1
    ensures IsChain(ms, path[1..])
  {
    var rest := path[1..];
    forall i | 0 <= i < |rest| - 1
      ensures Get(ms, rest[i]).escalatesTo == Some(rest[i + 1])
    {
      assert Get(ms, path[i + 1]).escalatesTo == Some(path[i + 2]);
    }
  }

  lemma ChainFromReachesRoot(ms: seq<Mandate>, owner: Handle)
    requires ReachesRoot(ms, owner)
    ensures var chain := ChainFrom(ms, owner, |ms| + 1); chain[0] == owner && IsChain(ms, chain)
  {
    var path :| IsChain(ms, path) && path[0] == owner;
    ChainIsShort(ms, path);
    ChainFromFollows(ms, path, |ms| + 1);
  }

  /** On an accepted file the loop bound never cuts the chain: it goes from the
      owner to the root and meets nobody twice. */
  lemma EscalationChainIsComplete(file: MandatesFile, owner: Handle, i: nat, j: nat)
    requires WellFormed(file) && Has(file.mandates, owner)
    ensures var chain := ChainFrom(file.mandates, owner, |file.mandates| + 1);
            && chain[0] == owner && IsChain(file.mandates, chain)
            && (i < j < |chain| ==> chain[i] != chain[j])
  {
    var ms := file.mandates;
    assert ms[Find(ms, owner)] in ms;
    ChainFromReachesRoot(ms, owner);
    var chain := ChainFrom(ms, owner, |ms| + 1);
    if i < j < |chain| {
      ChainHasNoRepeats(ms, chain, i, j);
    }
  }

  /** Who comes next, if anybody. */
  method Next(ms: seq<Mandate>, owner: Handle) returns (next: Option<Handle>)
    ensures next.None? <==> IsLast(ms, owner)
    ensures next.Some? ==> Get(ms, owner).escalatesTo == next
  {
    if !Has(ms, owner) {
      return None;
    }
    return Get(ms, owner).escalatesTo;
  }

  method EscalationChain(ms: seq<Mandate>, owner: Handle) returns (chain: seq<Handle>)
    ensures chain == ChainFrom(ms, owner, |ms| + 1)
  {
    chain := [owner];
    var current := owner;
    var maxSteps := |ms| + 1;
    ghost var before: seq<Handle> := [];
    for i := 0 to maxSteps
      invariant chain == before + [current]
      invariant before + ChainFrom(ms, current, maxSteps - i) == ChainFrom(ms, owner, maxSteps)
    {
      var next := Next(ms, current);
      if next.None? {
        ChainStops(ms, current, maxSteps - i);
        return;
      }
      ChainGoesOn(ms, current, next.value, maxSteps - i, before);
      before := chain;
      chain := chain + [next.value];
      current := next.value;
    }
    ChainStops(ms, current, 0);
  }

  datatype Answer =
    | EffectiveOwner(owner: Handle, kind: Kind, escalationChain: seq<Handle>)
    | NoMatch
    | Ambiguous(owners: seq<Handle>)
    | InvalidRef

  function KindOf(ms: seq<Mandate>, owner: Handle): Kind {
    if Has(ms, owner) then Get(ms, owner).kind else Person
  }

  /** What the router answers, without the loop. */
  function Route(glob: Glob, ms: seq<Mandate>, q: Query): Answer {
    if q.nodeRef == "" then InvalidRef
    else
      var best := BestScore(glob, ms, q);
      var tied := Tied(glob, ms, q, best);
      if best == 0 then NoMatch
      else if |tied| == 1 then
        EffectiveOwner(tied[0], KindOf(ms, tied[0]), ChainFrom(ms, tied[0], |ms| + 1))
      else Ambiguous(tied)
  }

  /** The greatest specificity so far and the owners that share it. */
  datatype Leaders = Leaders(score: nat, owners: seq<Handle>)

  function Leading(glob: Glob, ms: seq<Mandate>, q: Query): Leaders {
    var best := BestScore(glob, ms, q);
    Leaders(best, if best == 0 then [] else Tied(glob, ms, q, best))
  }

  function Against(l: Leaders, owner: Handle, score: nat): Leaders {
    if score > l.score then Leaders(score, [owner])
    else if score == l.score && score > 0 then Leaders(score, l.owners + [owner])
    else l
  }

  /** One more mandate against the best so far. */
  method Compare(glob: Glob, m: Mandate, q: Query, l: Leaders) returns (r: Leaders)
    requires l.owners == [] <==> l.score == 0
    ensures r == Against(l, m.owner, Score(glob, m, q))
  {
    r := l;
    if CoversType(m.scope, q.decisionType) {
      var specificity := Specificity(glob, m.scope.refs, q.nodeRef);
      if specificity.Some? && Fits(q.facets, m.thresholds) {
        if specificity.value > l.score {
          r := Leaders(specificity.value, [m.owner]);
        } else if specificity.value == l.score && l.owners != [] {
          r := Leaders(l.score, l.owners + [m.owner]);
        }
      }
    }
  }

  method FindBest(glob: Glob, ms: seq<Mandate>, q: Query) returns (l: Leaders)
    ensures l == Leading(glob, ms, q)
  {
    l := Leaders(0, []);
    for i := 0 to |ms|
      invariant l == Leading(glob, ms[..i], q)
    {
      BestIsShared(glob, ms[..i], q);
      OneMoreLeads(glob, ms, i, q);
      l := Compare(glob, ms[i], q, l);
    }
    assert ms[..|ms|] == ms;
  }

  method FindEffectiveOwner(glob: Glob, file: MandatesFile, q: Query) returns (a: Answer)
    ensures a == Route(glob, file.mandates, q)
  {
    if q.nodeRef == "" {
      return InvalidRef;
    }
    var leaders := FindBest(glob, file.mandates, q);
    BestIsShared(glob, file.mandates, q);
    var best := leaders.owners;
    if |best| == 0 {
      return NoMatch;
    }
    if |best| == 1 {
      var chain := EscalationChain(file.mandates, best[0]);
      return EffectiveOwner(best[0], KindOf(file.mandates, best[0]), chain);
    }
    return Ambiguous(best);
  }

  lemma BestIsShared(glob: Glob, ms: seq<Mandate>, q: Query)
    ensures Leading(glob, ms, q).owners == [] <==> Leading(glob, ms, q).score == 0
  {
    SomebodyTied(glob, ms, q, BestScore(glob, ms, q));
  }

  lemma OneMoreLeads(glob: Glob, ms: seq<Mandate>, i: nat, q: Query)
    requires i < |ms|
    ensures Leading(glob, ms[..i + 1], q) == Against(Leading(glob, ms[..i], q), ms[i].owner, Score(glob, ms[i], q))
  {
    var score, best := Score(glob, ms[i], q), BestScore(glob, ms[..i], q);
    OneMore(glob, ms, i, q, if score > best then score else best);
    NobodyTiedAbove(glob, ms[..i], q, score);
  }

  lemma OneMore(glob: Glob, ms: seq<Mandate>, i: nat, q: Query, score: nat)
    requires i < |ms|
    ensures BestScore(glob, ms[..i + 1], q) ==
              if Score(glob, ms[i], q) > BestScore(glob, ms[..i], q) then Score(glob, ms[i], q)
              else BestScore(glob, ms[..i], q)
    ensures Tied(glob, ms[..i + 1], q, score) ==
              Tied(glob, ms[..i], q, score) + (if Score(glob, ms[i], q) == score then [ms[i].owner] else [])
  {
    assert ms[..i + 1][..i] == ms[..i];
  }

  lemma {:induction false} NobodyTiedAbove(glob: Glob, ms: seq<Mandate>, q: Query, score: nat)
    ensures score > BestScore(glob, ms, q) ==> Tied(glob, ms, q, score) == []
  {
    if ms != [] {
      NobodyTiedAbove(glob, ms[..|ms| - 1], q, score);
    }
  }

  lemma {:induction false} SomebodyTied(glob: Glob, ms: seq<Mandate>, q: Query, score: nat)
    ensures Tied(glob, ms, q, score) == [] <==> forall m | m in ms :: Score(glob, m, q) != score
  {
    if ms != [] {
      var last := |ms| - 1;
      assert ms == ms[..last] + [ms[last]];
      SomebodyTied(glob, ms[..last], q, score);
    }
  }

  // ------------------------------------------------ what the answers mean

  /** The owners tied at a score are exactly the owners of the mandates with it. */
  lemma {:induction false} TiedAre(glob: Glob, ms: seq<Mandate>, q: Query, score: nat, owner: Handle)
    ensures owner in Tied(glob, ms, q, score) <==> exists m :: m in ms && m.owner == owner && Score(glob, m, q) == score
  {
    if ms != [] {
      var last := |ms| - 1;
      assert ms == ms[..last] + [ms[last]];
      TiedAre(glob, ms[..last], q, score, owner);
    }
  }

  /** Only mandate `i` has this score. */
  predicate OnlyOne(glob: Glob, ms: seq<Mandate>, q: Query, score: nat, i: nat)
    requires i < |ms|
  {
    Score(glob, ms[i], q) == score && forall j | 0 <= j < |ms| && j != i :: Score(glob, ms[j], q) != score
  }

  lemma OnlyOneInPrefix(glob: Glob, ms: seq<Mandate>, q: Query, score: nat, i: nat)
    requires i < |ms| - 1 && OnlyOne(glob, ms, q, score, i)
    ensures OnlyOne(glob, ms[..|ms| - 1], q, score, i) && Score(glob, ms[|ms| - 1], q) != score
  {
    var rest := ms[..|ms| - 1];
    forall j | 0 <= j < |rest| && j != i
      ensures Score(glob, rest[j], q) != score
    {
      assert rest[j] == ms[j];
    }
  }

  lemma {:induction false} OneTied(glob: Glob, ms: seq<Mandate>, q: Query, score: nat, i: nat)
    requires i < |ms| && OnlyOne(glob, ms, q, score, i)
    ensures Tied(glob, ms, q, score) == [ms[i].owner]
  {
    var last := |ms| - 1;
    TiedUnfolds(glob, ms, q, score);
    if i == last {
      NoneTied(glob, ms[..last], q, score);
    } else {
      OnlyOneInPrefix(glob, ms, q, score, i);
      OneTied(glob, ms[..last], q, score, i);
    }
  }

  lemma TiedUnfolds(glob: Glob, ms: seq<Mandate>, q: Query, score: nat)
    requires ms != []
    ensures var last := ms[|ms| - 1];
            Tied(glob, ms, q, score) ==
            if Score(glob, last, q) == score then Tied(glob, ms[..|ms| - 1], q, score) + [last.owner]
            else Tied(glob, ms[..|ms| - 1], q, score)
  {
  }

  lemma {:induction false} NoneTied(glob: Glob, ms: seq<Mandate>, q: Query, score: nat)
    requires forall j | 0 <= j < |ms| :: Score(glob, ms[j], q) != score
    ensures Tied(glob, ms, q, score) == []
  {
    if ms != [] {
      NoneTied(glob, ms[..|ms| - 1], q, score);
    }
  }

  lemma {:induction false} IsTied(glob: Glob, ms: seq<Mandate>, q: Query, score: nat, i: nat)
    requires i < |ms| && Score(glob, ms[i], q) == score
    ensures |Tied(glob, ms, q, score)| >= 1
  {
    if i < |ms| - 1 {
      IsTied(glob, ms[..|ms| - 1], q, score, i);
    }
  }

  lemma {:induction false} TwoTied(glob: Glob, ms: seq<Mandate>, q: Query, score: nat, i: nat, j: nat)
    requires i < j < |ms| && Score(glob, ms[i], q) == score && Score(glob, ms[j], q) == score
    ensures |Tied(glob, ms, q, score)| >= 2
  {
    var rest := ms[..|ms| - 1];
    if j == |ms| - 1 {
      IsTied(glob, rest, q, score, i);
    } else {
      TwoTied(glob, rest, q, score, i, j);
    }
  }

  lemma DifferentTied(glob: Glob, ms: seq<Mandate>, q: Query, score: nat, m: Mandate, o: Mandate)
    requires m in ms && o in ms && m != o && Score(glob, m, q) == score && Score(glob, o, q) == score
    ensures |Tied(glob, ms, q, score)| >= 2
  {
    var i :| 0 <= i < |ms| && ms[i] == m;
    var j :| 0 <= j < |ms| && ms[j] == o;
    if i < j {
      TwoTied(glob, ms, q, score, i, j);
    } else {
      TwoTied(glob, ms, q, score, j, i);
    }
  }

  /** Covers the query and beats every other mandate of the file. */
  predicate Wins(glob: Glob, ms: seq<Mandate>, q: Query, m: Mandate) {
    m in ms && Score(glob, m, q) > 0 && forall o | o in ms && o != m :: Score(glob, o, q) < Score(glob, m, q)
  }

  lemma WinnerIsAlone(glob: Glob, ms: seq<Mandate>, q: Query, m: Mandate)
    requires UniqueOwners(ms) && Wins(glob, ms, q, m)
    ensures BestScore(glob, ms, q) == Score(glob, m, q)
    ensures Tied(glob, ms, q, Score(glob, m, q)) == [m.owner]
  {
    var i :| 0 <= i < |ms| && ms[i] == m;
    var best := BestScore(glob, ms, q);
    var top :| top in ms && Score(glob, top, q) == best;
    forall j | 0 <= j < |ms|
      ensures Score(glob, ms[j], q) == Score(glob, m, q) <==> j == i
    {
      assert ms[j] in ms;
      if j != i {
        assert ms[j].owner != ms[i].owner;
      }
    }
    OneTied(glob, ms, q, Score(glob, m, q), i);
  }

  lemma LonelyTieWins(glob: Glob, ms: seq<Mandate>, q: Query)
    requires UniqueOwners(ms) && BestScore(glob, ms, q) > 0
    requires |Tied(glob, ms, q, BestScore(glob, ms, q))| == 1
    ensures exists m :: Wins(glob, ms, q, m)
  {
    var best := BestScore(glob, ms, q);
    var m :| m in ms && Score(glob, m, q) == best;
    forall o | o in ms && o != m
      ensures Score(glob, o, q) < best
    {
      if Score(glob, o, q) == best {
        DifferentTied(glob, ms, q, best, m, o);
      }
    }
    assert Wins(glob, ms, q, m);
  }

  /** An owner is returned exactly when one mandate beats all others; the answer
      carries that mandate's owner and kind. */
  lemma OwnerIsTheWinner(glob: Glob, ms: seq<Mandate>, q: Query)
    requires UniqueOwners(ms) && q.nodeRef != ""
    ensures Route(glob, ms, q).EffectiveOwner? <==> exists m :: Wins(glob, ms, q, m)
    ensures forall m | Wins(glob, ms, q, m) ::
              Route(glob, ms, q) == EffectiveOwner(m.owner, m.kind, ChainFrom(ms, m.owner, |ms| + 1))
  {
    forall m | Wins(glob, ms, q, m)
      ensures Route(glob, ms, q) == EffectiveOwner(m.owner, m.kind, ChainFrom(ms, m.owner, |ms| + 1))
    {
      WinnerIsAlone(glob, ms, q, m);
      var i :| 0 <= i < |ms| && ms[i] == m;
      FindAt(ms, i);
    }
    if Route(glob, ms, q).EffectiveOwner? {
      LonelyTieWins(glob, ms, q);
    }
  }

  /** Only the empty ref is turned away unseen. */
  lemma InvalidRefIff(glob: Glob, ms: seq<Mandate>, q: Query)
    ensures Route(glob, ms, q) == InvalidRef <==> q.nodeRef == ""
  {
  }

  /** NoMatch means that at most an empty pattern matched anywhere; for a matcher
      under which the empty pattern matches no ref, that nothing covers. */
  lemma NoMatchMeansUncovered(glob: Glob, ms: seq<Mandate>, q: Query)
    requires q.nodeRef != ""
    ensures Route(glob, ms, q) == NoMatch <==>
              forall m | m in ms && Covers(glob, m, q.nodeRef, q.decisionType, q.facets) ::
                Specificity(glob, m.scope.refs, q.nodeRef) == Some(0)
    ensures !glob("", q.nodeRef) ==>
              (Route(glob, ms, q) == NoMatch <==>
               forall m | m in ms :: !Covers(glob, m, q.nodeRef, q.decisionType, q.facets))
  {
    assert BestScore(glob, ms, q) == 0 <==> forall m | m in ms :: Score(glob, m, q) == 0;
    forall m | m in ms && Covers(glob, m, q.nodeRef, q.decisionType, q.facets) && !glob("", q.nodeRef)
      ensures Score(glob, m, q) > 0
    {
      var p :| p in m.scope.refs && glob(p, q.nodeRef) && |p| == Specificity(glob, m.scope.refs, q.nodeRef).value;
      assert p != "";
    }
  }

  /** Ambiguous lists precisely the owners that share the best positive score. */
  lemma AmbiguousListsTheTied(glob: Glob, ms: seq<Mandate>, q: Query, owner: Handle)
    requires Route(glob, ms, q).Ambiguous?
    ensures owner in Route(glob, ms, q).owners <==>
              exists m :: m in ms && m.owner == owner && Score(glob, m, q) == BestScore(glob, ms, q)
    ensures BestScore(glob, ms, q) > 0 && |Route(glob, ms, q).owners| >= 2
  {
    var best := BestScore(glob, ms, q);
    TiedAre(glob, ms, q, best, owner);
    SomebodyTied(glob, ms, q, best);
  }

  ghost predicate SameMandates(a: seq<Mandate>, b: seq<Mandate>) {
    forall m :: m in a <==> m in b
  }

  lemma SameMandatesSameEntry(ms: seq<Mandate>, ns: seq<Mandate>, owner: Handle)
    requires UniqueOwners(ns) && SameMandates(ms, ns) && Has(ms, owner)
    ensures Has(ns, owner) && Get(ns, owner) == Get(ms, owner)
  {
    assert ms[Find(ms, owner)] in ms;
    var j :| 0 <= j < |ns| && ns[j] == Get(ms, owner);
    FindAt(ns, j);
  }

  lemma SameMandatesSameChain(ms: seq<Mandate>, ns: seq<Mandate>, owner: Handle)
    requires UniqueOwners(ns) && SameMandates(ms, ns) && ReachesRoot(ms, owner)
    ensures ChainFrom(ms, owner, |ms| + 1) == ChainFrom(ns, owner, |ns| + 1)
  {
    var path :| IsChain(ms, path) && path[0] == owner;
    forall i | 0 <= i < |path|
      ensures Has(ns, path[i]) && Get(ns, path[i]) == Get(ms, path[i])
    {
      SameMandatesSameEntry(ms, ns, path[i]);
    }
    assert IsChain(ns, path);
    ChainIsShort(ms, path);
    ChainFromFollows(ms, path, |ms| + 1);
    ChainIsShort(ns, path);
    ChainFromFollows(ns, path, |ns| + 1);
  }

  lemma SameMandatesSameScores(glob: Glob, ms: seq<Mandate>, ns: seq<Mandate>, q: Query)
    requires SameMandates(ms, ns)
    ensures BestScore(glob, ms, q) == BestScore(glob, ns, q)
    ensures forall m :: Wins(glob, ms, q, m) <==> Wins(glob, ns, q, m)
  {
  }

  /** One winner: both files name it. */
  lemma SameWinnerSameAnswer(glob: Glob, a: MandatesFile, b: MandatesFile, q: Query, m: Mandate)
    requires WellFormed(a) && WellFormed(b) && SameMandates(a.mandates, b.mandates) && q.nodeRef != ""
    requires Wins(glob, a.mandates, q, m)
    ensures Route(glob, a.mandates, q) == Route(glob, b.mandates, q)
  {
    SameMandatesSameScores(glob, a.mandates, b.mandates, q);
    OwnerIsTheWinner(glob, a.mandates, q);
    OwnerIsTheWinner(glob, b.mandates, q);
    SameMandatesSameChain(a.mandates, b.mandates, m.owner);
  }

  lemma NoWinnerIsAmbiguous(glob: Glob, ms: seq<Mandate>, q: Query)
    requires UniqueOwners(ms) && q.nodeRef != "" && BestScore(glob, ms, q) > 0
    requires forall m :: !Wins(glob, ms, q, m)
    ensures Route(glob, ms, q).Ambiguous?
  {
    OwnerIsTheWinner(glob, ms, q);
  }

  lemma SameTies(glob: Glob, ms: seq<Mandate>, ns: seq<Mandate>, q: Query, o: Handle)
    requires SameMandates(ms, ns) && Route(glob, ms, q).Ambiguous? && Route(glob, ns, q).Ambiguous?
    ensures o in Route(glob, ms, q).owners ==> o in Route(glob, ns, q).owners
  {
    var best := BestScore(glob, ms, q);
    SameMandatesSameScores(glob, ms, ns, q);
    TiedAre(glob, ms, q, best, o);
    TiedAre(glob, ns, q, best, o);
  }

  /** The answer does not depend on the order of the mandates in the file; only
      the order in which tied owners are listed does. */
  lemma OrderDoesNotMatter(glob: Glob, a: MandatesFile, b: MandatesFile, q: Query, o: Handle)
    requires WellFormed(a) && WellFormed(b) && SameMandates(a.mandates, b.mandates)
    ensures var x, y := Route(glob, a.mandates, q), Route(glob, b.mandates, q);
            || x == y
            || (x.Ambiguous? && y.Ambiguous? && (o in x.owners <==> o in y.owners))
  {
    var ms, ns := a.mandates, b.mandates;
    SameMandatesSameScores(glob, ms, ns, q);
    if q.nodeRef != "" && BestScore(glob, ms, q) > 0 {
      if m :| Wins(glob, ms, q, m) {
        SameWinnerSameAnswer(glob, a, b, q, m);
      } else {
        NoWinnerIsAmbiguous(glob, ms, q);
        NoWinnerIsAmbiguous(glob, ns, q);
        SameTies(glob, ms, ns, q, o);
        SameTies(glob, ns, ms, q, o);
      }
    }
  }

  /** Low, then medium, then high. */
  predicate Exceeds(l: Level, cap: Level) {
    (cap == Low && l != Low) || (cap == Medium && l == High)
  }

  lemma RankOrders(l: Level, cap: Level)
    ensures Exceeds(l, cap) <==> Rank(l) > Rank(cap)
  {
  }

  /** When a mandate covers a decision: one of its decision types is the asked one or
      the wildcard, one of its patterns matches, no ceiling is exceeded, and what cannot
      be undone is explicitly allowed. An absent ceiling or facet never excludes. */
  lemma CoversIff(glob: Glob, m: Mandate, nodeRef: string, decisionType: string, f: Facets)
    ensures Covers(glob, m, nodeRef, decisionType, f) <==>
            && (exists t :: t in m.scope.decisionTypes && (t == "*" || t == decisionType))
            && (exists p :: p in m.scope.refs && glob(p, nodeRef))
            && !(m.thresholds.budget.Some? && f.budget.Some? && f.budget.value > m.thresholds.budget.value)
            && !(m.thresholds.risk.Some? && f.risk.Some? && Exceeds(f.risk.value, m.thresholds.risk.value))
            && (f.irreversible ==> m.thresholds.irreversible == Some(true))
  {
    if m.thresholds.risk.Some? && f.risk.Some? {
      RankOrders(f.risk.value, m.thresholds.risk.value);
    }
  }

  /** `g` asks for at least as much as `f` on every axis. */
  predicate AsksMore(g: Facets, f: Facets) {
    && (f.budget.Some? ==> g.budget.Some? && g.budget.value >= f.budget.value)
    && (f.risk.Some? ==> g.risk.Some? && !Exceeds(f.risk.value, g.risk.value))
    && (f.irreversible ==> g.irreversible)
  }

  /** Raising budget, risk or irreversibility only removes candidates, so the
      score to beat never rises. */
  lemma AskingMoreNeverSpecialises(glob: Glob, ms: seq<Mandate>, nodeRef: string, decisionType: string,
                                   f: Facets, g: Facets)
    requires AsksMore(g, f)
    ensures forall m | m in ms && Covers(glob, m, nodeRef, decisionType, g) :: Covers(glob, m, nodeRef, decisionType, f)
    ensures BestScore(glob, ms, Query(nodeRef, decisionType, g)) <= BestScore(glob, ms, Query(nodeRef, decisionType, f))
  {
    var best := BestScore(glob, ms, Query(nodeRef, decisionType, g));
    if best > 0 {
      var m :| m in ms && Score(glob, m, Query(nodeRef, decisionType, g)) == best;
      assert Score(glob, m, Query(nodeRef, decisionType, f)) == best;
    }
  }
}
