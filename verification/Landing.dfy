/** Signals of runs that go on at the same time. A run signals on a checkout of its
    own, taken when it started; what the signal wrote is merged into `main` when the
    run is published, and nobody looks at the parents again. */
module Landing {
  import opened Chain
  import opened Composite

  /** A run of `node`: the checkout it took, and whether it has signalled on it. */
  datatype Flight = Flight(node: Path, copy: Tree, signalled: bool)

  /** The checkout as it is now. */
  function Work(f: Flight): Tree {
    if f.signalled then Signalled(f.copy, f.node) else f.copy
  }

  /** `landed` and `changed` only record what happened: the published runs, and the
      nodes that became resolved by a change of their own files. */
  datatype State = State(main: Tree, flights: map<nat, Flight>, landed: seq<Flight>, changed: set<Path>)

  datatype Step =
    | Take(id: nat, node: Path)
    | Signal(id: nat)
    | Land(id: nat)
    | Change(path: Path, files: Dir)

  // ------------------------------------------------------------------ the steps

  /** The run files that are new in a directory. */
  function Added(c: Dir, w: Dir): map<nat, RunResult> {
    w.runs - c.runs.Keys
  }

  /** A rebase fails where `main` has got a file of the same name meanwhile. */
  predicate CanMerge(main: Tree, f: Flight) {
    forall q | q in main && q in f.copy :: Added(f.copy[q], Work(f)[q]).Keys !! main[q].runs.Keys
  }

  function MergedDir(d: Dir, c: Dir, w: Dir): Dir {
    d.(runs := d.runs + Added(c, w), facts := d.facts + (w.facts - c.facts))
  }

  function Merged(main: Tree, f: Flight): Tree {
    map q | q in main :: if q in f.copy then MergedDir(main[q], f.copy[q], Work(f)[q]) else main[q]
  }

  /** Anything else that happens to a node: a failed run, an audit, its verdict. Runs
      are only added, and a resolved node stays resolved. */
  predicate Grows(d: Dir, d': Dir) {
    d.runs.Keys <= d'.runs.Keys && (AcceptedState(d).Resolved? ==> AcceptedState(d').Resolved?)
  }

  ghost predicate CanChange(s: State, p: Path, d: Dir) {
    p in s.main && Numbered(d) && Grows(s.main[p], d)
  }

  function Landed(s: State, id: nat): State
    requires id in s.flights
  {
    var f := s.flights[id];
    var rest := s.(flights := s.flights - {id});
    if CanMerge(s.main, f) && f.signalled then rest.(main := Merged(s.main, f), landed := s.landed + [f])
    else rest
  }

  ghost function After(s: State, step: Step): State {
    match step
    case Take(id, p) =>
      if p in s.main && id !in s.flights then s.(flights := s.flights[id := Flight(p, s.main, false)]) else s
    case Signal(id) =>
      if id in s.flights then s.(flights := s.flights[id := s.flights[id].(signalled := true)]) else s
    case Land(id) =>
      if id in s.flights then Landed(s, id) else s
    case Change(p, d) =>
      if CanChange(s, p, d) then
        s.(main := s.main[p := d],
           changed := if AcceptedState(d).Resolved? then s.changed + {p} else s.changed)
      else s
  }

  function Start(main: Tree): State {
    State(main, map[], [], {})
  }

  ghost function AfterAll(main: Tree, steps: seq<Step>): State {
    if steps == [] then Start(main) else After(AfterAll(main, steps[..|steps| - 1]), steps[|steps| - 1])
  }

  // ------------------------------------------------------------ what a run adds

  /** The nodes that get a fact from the signal: its own and those above that rise in
      the checkout. */
  predicate Reaches(f: Flight, q: Path) {
    OnTheWay(f.node, Height(f.copy, f.node), q)
  }

  /** `main` is what the checkout was, and maybe more. */
  ghost predicate Behind(copy: Tree, main: Tree) {
    && TreeInv(copy) && copy.Keys == main.Keys
    && forall q | q in copy :: Grows(copy[q], main[q])
  }

  lemma SizeOfNumbers(c: Dir, d: Dir)
    requires Numbered(c) && Numbered(d) && Grows(c, d)
    ensures |c.runs| <= |d.runs|
  {
    if |c.runs| > 0 {
      assert |c.runs| in c.runs;
    }
  }

  lemma FactAdds(c: Dir)
    requires Numbered(c)
    ensures Added(c, WithFact(c)) == map[NextRun(c) := Success]
    ensures WithFact(c).facts - c.facts == {NextRun(c)}
  {
    NewRunKeepsNumbers(c, Success);
    assert NextRun(c) !in c.facts;
  }

  /** A fact under a number that is free on `main` as well. */
  lemma FactMerges(d: Dir, c: Dir)
    requires Numbered(c) && Numbered(d) && Grows(c, d) && NextRun(c) !in d.runs
    ensures MergedDir(d, c, WithFact(c)) == WithFact(d)
  {
    SizeOfNumbers(c, d);
    assert NextRun(c) == NextRun(d);
    FactAdds(c);
    assert d.runs + map[NextRun(d) := Success] == d.runs[NextRun(d) := Success];
  }

  lemma NothingMerges(d: Dir, c: Dir)
    ensures MergedDir(d, c, c) == d
  {
    assert Added(c, c) == map[];
    assert d.runs + map[] == d.runs && d.facts + (c.facts - c.facts) == d.facts;
  }

  /** A published signal gives a fact to every node it reached. */
  lemma MergedIs(main: Tree, f: Flight, q: Path)
    requires TreeInv(main) && Behind(f.copy, main) && f.signalled && CanMerge(main, f) && q in main
    ensures Merged(main, f)[q] == if Reaches(f, q) then WithFact(main[q]) else main[q]
  {
    if Reaches(f, q) {
      FactAdds(f.copy[q]);
      assert NextRun(f.copy[q]) in Added(f.copy[q], Work(f)[q]);
      FactMerges(main[q], f.copy[q]);
    } else {
      NothingMerges(main[q], f.copy[q]);
    }
  }

  lemma MergedResolves(main: Tree, f: Flight)
    requires TreeInv(main) && Behind(f.copy, main) && f.signalled && CanMerge(main, f)
    ensures TreeInv(Merged(main, f)) && Merged(main, f).Keys == main.Keys
    ensures forall q | q in main :: Grows(main[q], Merged(main, f)[q])
    ensures forall q | q in main :: IsResolved(Merged(main, f), q) <==> IsResolved(main, q) || Reaches(f, q)
  {
    forall q | q in main
      ensures Numbered(Merged(main, f)[q]) && Grows(main[q], Merged(main, f)[q])
      ensures IsResolved(Merged(main, f), q) <==> IsResolved(main, q) || Reaches(f, q)
    {
      MergedIs(main, f, q);
      FactGrows(main[q]);
    }
  }

  lemma FactGrows(d: Dir)
    requires Numbered(d)
    ensures Numbered(WithFact(d)) && AcceptedState(WithFact(d)).Resolved? && Grows(d, WithFact(d))
  {
    WithFactResolves(d);
  }

  /** Without anybody in between, signalling on a checkout is signalling on `main`. */
  lemma LandAtOnce(main: Tree, p: Path)
    requires TreeInv(main) && p in main
    ensures var f := Flight(p, main, true);
            CanMerge(main, f) && Merged(main, f) == Signalled(main, p)
  {
    var f := Flight(p, main, true);
    assert Behind(main, main);
    forall q | q in main
      ensures Added(f.copy[q], Work(f)[q]).Keys !! main[q].runs.Keys
      ensures Merged(main, f)[q] == Signalled(main, p)[q]
    {
      MergedAtOnce(main, f, q);
    }
  }

  lemma MergedAtOnce(main: Tree, f: Flight, q: Path)
    requires TreeInv(main) && f.copy == main && f.signalled && q in main
    ensures MergedDir(main[q], f.copy[q], Work(f)[q]) == Signalled(main, f.node)[q]
  {
    if Reaches(f, q) {
      NewRunKeepsNumbers(main[q], Success);
      FactAdds(main[q]);
      FactMerges(main[q], main[q]);
    } else {
      NothingMerges(main[q], main[q]);
    }
  }

  // ------------------------------------------------------------------ invariant

  /** A node is resolved on `main` exactly when it was at first, by a change of its own
      files, or by a signal that reached it. */
  ghost predicate Explained(first: Tree, s: State) {
    forall q | q in s.main :: IsResolved(s.main, q) <==> HasReason(first, s, q)
  }

  ghost predicate HasReason(first: Tree, s: State, q: Path) {
    (q in first && IsResolved(first, q)) || q in s.changed || exists f :: f in s.landed && Reaches(f, q)
  }

  ghost predicate GoodFlight(f: Flight, main: Tree) {
    Behind(f.copy, main) && f.node in main
  }

  ghost predicate GoodFlights(s: State) {
    && (forall id | id in s.flights :: GoodFlight(s.flights[id], s.main))
    && (forall f | f in s.landed :: GoodFlight(f, s.main) && f.signalled)
  }

  ghost predicate StateInv(first: Tree, s: State) {
    TreeInv(s.main) && first.Keys == s.main.Keys && Explained(first, s) && GoodFlights(s)
  }

  ghost predicate TreeGrows(t: Tree, t': Tree) {
    t'.Keys == t.Keys && forall q | q in t :: Grows(t[q], t'[q])
  }

  lemma BehindTransitive(f: Flight, main: Tree, main': Tree)
    requires GoodFlight(f, main) && TreeGrows(main, main')
    ensures GoodFlight(f, main')
  {
    forall q | q in f.copy
      ensures Grows(f.copy[q], main'[q])
    {
      assert Grows(f.copy[q], main[q]) && Grows(main[q], main'[q]);
    }
  }

  lemma MainGrows(s: State, main': Tree)
    requires GoodFlights(s) && TreeGrows(s.main, main')
    ensures GoodFlights(s.(main := main'))
  {
    forall id | id in s.flights
      ensures GoodFlight(s.flights[id], main')
    {
      BehindTransitive(s.flights[id], s.main, main');
    }
    forall f | f in s.landed
      ensures GoodFlight(f, main')
    {
      BehindTransitive(f, s.main, main');
    }
  }

  lemma FlightsExplain(first: Tree, s: State, s': State)
    requires Explained(first, s) && s' == s.(flights := s'.flights)
    ensures Explained(first, s')
  {
    forall q | q in s'.main
      ensures IsResolved(s'.main, q) <==> HasReason(first, s', q)
    {
      assert HasReason(first, s, q) <==> HasReason(first, s', q);
    }
  }

  lemma FlightsKeep(first: Tree, s: State, s': State)
    requires StateInv(first, s) && s' == s.(flights := s'.flights) && GoodFlights(s')
    ensures StateInv(first, s')
  {
    FlightsExplain(first, s, s');
  }

  lemma OneMoreReason(first: Tree, s: State, s': State, f: Flight, q: Path)
    requires s'.landed == s.landed + [f] && s'.changed == s.changed
    ensures HasReason(first, s', q) <==> HasReason(first, s, q) || Reaches(f, q)
  {
    assert f in s'.landed;
    assert forall g | g in s.landed :: g in s'.landed;
  }

  lemma LandExplains(first: Tree, s: State, s': State, f: Flight)
    requires Explained(first, s) && s'.main.Keys == s.main.Keys
    requires s'.landed == s.landed + [f] && s'.changed == s.changed
    requires forall q | q in s.main :: IsResolved(s'.main, q) <==> IsResolved(s.main, q) || Reaches(f, q)
    ensures Explained(first, s')
  {
    forall q | q in s'.main
      ensures IsResolved(s'.main, q) <==> HasReason(first, s', q)
    {
      OneMoreReason(first, s, s', f, q);
    }
  }

  lemma OneMoreLanded(landed: seq<Flight>, f: Flight, main: Tree)
    requires (forall g | g in landed :: GoodFlight(g, main) && g.signalled) && GoodFlight(f, main) && f.signalled
    ensures forall g | g in landed + [f] :: GoodFlight(g, main) && g.signalled
  {
  }

  lemma LandKeepsFlights(s: State, s': State, id: nat, main': Tree)
    requires GoodFlights(s) && TreeGrows(s.main, main') && id in s.flights && s.flights[id].signalled
    requires s' == State(main', s.flights - {id}, s.landed + [s.flights[id]], s.changed)
    ensures GoodFlights(s')
  {
    MainGrows(s, main');
    BehindTransitive(s.flights[id], s.main, main');
    OneMoreLanded(s.landed, s.flights[id], main');
  }

  lemma FewerFlights(s: State, id: nat)
    requires GoodFlights(s)
    ensures GoodFlights(s.(flights := s.flights - {id}))
  {
  }

  lemma LandKeeps(first: Tree, s: State, id: nat)
    requires StateInv(first, s) && id in s.flights
    ensures StateInv(first, Landed(s, id))
  {
    var f, s' := s.flights[id], Landed(s, id);
    assert GoodFlight(f, s.main);
    if CanMerge(s.main, f) && f.signalled {
      MergedResolves(s.main, f);
      LandKeepsFlights(s, s', id, Merged(s.main, f));
      LandExplains(first, s, s', f);
    } else {
      FewerFlights(s, id);
      FlightsKeep(first, s, s');
    }
  }

  lemma ChangeExplains(first: Tree, s: State, p: Path, d: Dir)
    requires Explained(first, s) && CanChange(s, p, d)
    ensures Explained(first, After(s, Change(p, d)))
  {
    var s' := After(s, Change(p, d));
    forall q | q in s'.main
      ensures IsResolved(s'.main, q) <==> HasReason(first, s', q)
    {
      assert IsResolved(s.main, q) <==> HasReason(first, s, q);
      assert q != p ==> s'.main[q] == s.main[q];
    }
  }

  lemma ChangeGrows(main: Tree, p: Path, d: Dir)
    requires TreeInv(main) && p in main && Numbered(d) && Grows(main[p], d)
    ensures TreeInv(main[p := d]) && TreeGrows(main, main[p := d])
  {
  }

  lemma SameFlights(s: State, s': State)
    requires GoodFlights(s) && s' == s.(changed := s'.changed)
    ensures GoodFlights(s')
  {
  }

  lemma ChangeKeeps(first: Tree, s: State, p: Path, d: Dir)
    requires StateInv(first, s) && CanChange(s, p, d)
    ensures StateInv(first, After(s, Change(p, d)))
  {
    ChangeGrows(s.main, p, d);
    MainGrows(s, s.main[p := d]);
    SameFlights(s.(main := s.main[p := d]), After(s, Change(p, d)));
    ChangeExplains(first, s, p, d);
  }

  lemma SetFlight(s: State, id: nat, f: Flight)
    requires GoodFlights(s) && GoodFlight(f, s.main)
    ensures GoodFlights(s.(flights := s.flights[id := f]))
  {
  }

  lemma TakeKeeps(first: Tree, s: State, id: nat, p: Path)
    requires StateInv(first, s) && p in s.main && id !in s.flights
    ensures StateInv(first, After(s, Take(id, p)))
  {
    SetFlight(s, id, Flight(p, s.main, false));
    FlightsKeep(first, s, After(s, Take(id, p)));
  }

  lemma SignalKeeps(first: Tree, s: State, id: nat)
    requires StateInv(first, s) && id in s.flights
    ensures StateInv(first, After(s, Signal(id)))
  {
    SetFlight(s, id, s.flights[id].(signalled := true));
    FlightsKeep(first, s, After(s, Signal(id)));
  }

  lemma StepKeeps(first: Tree, s: State, step: Step)
    requires StateInv(first, s)
    ensures StateInv(first, After(s, step))
  {
    if After(s, step) != s {
      match step
      case Take(id, p) => TakeKeeps(first, s, id, p);
      case Signal(id) => SignalKeeps(first, s, id);
      case Land(id) => LandKeeps(first, s, id);
      case Change(p, d) => ChangeKeeps(first, s, p, d);
    }
  }

  lemma {:induction false} RunKeeps(main: Tree, steps: seq<Step>)
    requires TreeInv(main)
    ensures StateInv(main, AfterAll(main, steps))
  {
    if steps != [] {
      RunKeeps(main, steps[..|steps| - 1]);
      StepKeeps(main, AfterAll(main, steps[..|steps| - 1]), steps[|steps| - 1]);
    }
  }

  // ------------------------------------------------------ when a parent is left open

  /** Every child is resolved and the parent is not. */
  predicate LeftOpen(t: Tree, q: Path) {
    q in t && ChildrenOf(t, q) != {} && AllResolved(t, q) && !IsResolved(t, q)
  }

  /** In the checkout of the run, all children of `q` but `c` were resolved. */
  predicate SawTheOthers(f: Flight, q: Path, c: Path) {
    forall b | b in ChildrenOf(f.copy, q) && b != c :: IsResolved(f.copy, b)
  }

  /** The child of `q` on the way up from `p`. */
  function ChildTowards(q: Path, p: Path): Path
    requires q < p
  {
    p[..|q| + 1]
  }

  lemma ChildTowardsIs(q: Path, p: Path)
    requires q < p
    ensures var i, c := |p| - |q|, ChildTowards(q, p);
            i > 0 && Up(p, i) == q && Up(p, i - 1) == c && IsChild(c, q) && Parent(c) == q
    ensures forall b | IsChild(b, q) && b <= p :: b == ChildTowards(q, p)
  {
    forall b | IsChild(b, q) && b <= p
      ensures b == ChildTowards(q, p)
    {
      assert b == p[..|b|];
    }
  }

  /** A run rises to a node through a child that was the last one missing. */
  lemma ReachedThroughChild(f: Flight, q: Path)
    requires TreeInv(f.copy) && f.node in f.copy && q in f.copy && Reaches(f, q) && f.node != q
    ensures exists c :: c in ChildrenOf(f.copy, q) && Reaches(f, c) && SawTheOthers(f, q, c)
  {
    var p := f.node;
    var i, c := |p| - |q|, ChildTowards(q, p);
    ChildTowardsIs(q, p);
    OnTheWayIff(f.copy, p, q);
    assert Rises(f.copy, p, i - 1);
    ReachedIsThere(f, i - 1);
    assert c in ChildrenOf(f.copy, q) && Reaches(f, c) && SawTheOthers(f, q, c);
  }

  lemma LastChildReaches(f: Flight, q: Path, c: Path)
    requires TreeInv(f.copy) && f.node in f.copy && q in f.copy && !IsResolved(f.copy, q)
    requires c in ChildrenOf(f.copy, q) && Reaches(f, c) && SawTheOthers(f, q, c)
    ensures Reaches(f, q)
  {
    var p := f.node;
    ChildIsBelow(c, q, p);
    ChildTowardsIs(q, p);
    assert WouldRise(f.copy, q, c);
    HeightSplits(f.copy, p, |p| - |c|);
  }

  lemma ChildIsBelow(c: Path, q: Path, p: Path)
    requires IsChild(c, q)
    ensures c <= p ==> q <= p && q != p
  {
    assert c <= p ==> p[..|q|] == c[..|q|];
  }

  lemma {:induction false} ReachedIsThere(f: Flight, i: nat)
    requires f.node in f.copy && i <= Height(f.copy, f.node) && i < |f.node|
    ensures Up(f.node, i) in f.copy
  {
    if i > 0 {
      HeightIsBelow(f.copy, f.node);
      OnTheWayIff(f.copy, f.node, Up(f.node, i));
      assert Rises(f.copy, f.node, i - 1);
    } else {
      assert Up(f.node, 0) == f.node;
    }
  }

  // --------------------------------------------------------------- main results

  /** Whichever child of `q` the run resolved, another one was still unresolved in the
      checkout it had taken. */
  predicate ResolvedTooEarly(f: Flight, q: Path) {
    forall c | c in ChildrenOf(f.copy, q) && Reaches(f, c) :: !SawTheOthers(f, q, c)
  }

  lemma TooEarlyMisses(f: Flight, main: Tree, q: Path)
    requires GoodFlight(f, main) && q in main
    ensures f.node != q && ResolvedTooEarly(f, q) ==> !Reaches(f, q)
    ensures !IsResolved(main, q) && !Reaches(f, q) ==> f.node != q && ResolvedTooEarly(f, q)
  {
    if Reaches(f, q) && f.node != q {
      ReachedThroughChild(f, q);
    }
    if !IsResolved(main, q) && !Reaches(f, q) {
      assert !IsResolved(f.copy, q);
      assert f.node != q by {
        assert OnTheWay(f.node, Height(f.copy, f.node), f.node);
      }
      forall c | c in ChildrenOf(f.copy, q) && Reaches(f, c)
        ensures !SawTheOthers(f, q, c)
      {
        if SawTheOthers(f, q, c) {
          LastChildReaches(f, q, c);
        }
      }
    }
  }

  lemma ResolvedIff(first: Tree, s: State, q: Path)
    requires StateInv(first, s) && q in first
    ensures !IsResolved(s.main, q) <==>
            && !IsResolved(first, q) && q !in s.changed
            && (forall f | f in s.landed :: f.node != q && ResolvedTooEarly(f, q))
  {
    assert IsResolved(s.main, q) <==> HasReason(first, s, q);
    forall f | f in s.landed
      ensures f.node != q && ResolvedTooEarly(f, q) ==> !Reaches(f, q)
      ensures !IsResolved(s.main, q) ==> f.node != q && ResolvedTooEarly(f, q)
    {
      TooEarlyMisses(f, s.main, q);
    }
  }

  /** Over every interleaving: a node whose children are all resolved is left open
      exactly when it was not resolved at first, nothing resolved it by itself, and
      every published run that resolved one of its children had another child
      unresolved in the checkout it took. */
  lemma LeftOpenIff(first: Tree, steps: seq<Step>, q: Path)
    requires TreeInv(first) && q in first
    ensures var s := AfterAll(first, steps);
            LeftOpen(s.main, q) <==>
            && ChildrenOf(s.main, q) != {} && q in s.main && AllResolved(s.main, q)
            && !IsResolved(first, q) && q !in s.changed
            && (forall f | f in s.landed :: f.node != q && ResolvedTooEarly(f, q))
  {
    RunKeeps(first, steps);
    ResolvedIff(first, AfterAll(first, steps), q);
  }

  /** The publication brings the last of the children that `main` was missing. */
  predicate BringsLastChild(main: Tree, f: Flight, q: Path) {
    exists c :: c in ChildrenOf(main, q) && Reaches(f, c)
                && forall b | b in ChildrenOf(main, q) && b != c :: IsResolved(main, b)
  }

  lemma OneChildOnTheWay(p: Path, q: Path, c: Path)
    requires IsChild(c, q) && c <= p
    ensures forall b | IsChild(b, q) && b <= p :: b == c
  {
    ChildIsBelow(c, q, p);
    ChildTowardsIs(q, p);
  }

  lemma MissingChildIsBrought(main: Tree, main': Tree, f: Flight, q: Path)
    requires main'.Keys == main.Keys && q in main
    requires forall p | p in main :: IsResolved(main', p) <==> IsResolved(main, p) || Reaches(f, p)
    requires AllResolved(main', q) && !AllResolved(main, q)
    ensures BringsLastChild(main, f, q)
  {
    assert ChildrenOf(main', q) == ChildrenOf(main, q);
    var c :| c in ChildrenOf(main, q) && !IsResolved(main, c);
    OneChildOnTheWay(f.node, q, c);
  }

  lemma BroughtChildCompletes(main: Tree, main': Tree, f: Flight, q: Path)
    requires main'.Keys == main.Keys && q in main && BringsLastChild(main, f, q)
    requires forall p | p in main :: IsResolved(main', p) <==> IsResolved(main, p) || Reaches(f, p)
    ensures AllResolved(main', q) && ChildrenOf(main', q) != {}
  {
    assert ChildrenOf(main', q) == ChildrenOf(main, q);
  }

  lemma OpenAfterIff(main: Tree, main': Tree, f: Flight, q: Path)
    requires Closed(main) && GoodFlight(f, main) && q in main && main'.Keys == main.Keys
    requires forall p | p in main :: IsResolved(main', p) <==> IsResolved(main, p) || Reaches(f, p)
    ensures LeftOpen(main', q) <==>
            !IsResolved(main, q) && f.node != q && ResolvedTooEarly(f, q) && BringsLastChild(main, f, q)
  {
    TooEarlyMisses(f, main, q);
    assert ChildrenOf(main', q) == ChildrenOf(main, q);
    if LeftOpen(main', q) {
      MissingChildIsBrought(main, main', f, q);
    } else if BringsLastChild(main, f, q) {
      BroughtChildCompletes(main, main', f, q);
    }
  }

  /** One publication leaves a node open exactly when it brings the last child that was
      missing on `main` and the run had not seen the others resolved. */
  lemma LandingLeavesOpenIff(main: Tree, f: Flight, q: Path)
    requires TreeInv(main) && Closed(main) && GoodFlight(f, main) && q in main && f.signalled && CanMerge(main, f)
    ensures LeftOpen(Merged(main, f), q) <==>
            !IsResolved(main, q) && f.node != q && ResolvedTooEarly(f, q) && BringsLastChild(main, f, q)
  {
    MergedResolves(main, f);
    OpenAfterIff(main, Merged(main, f), f, q);
  }

  lemma OneMoreStep(main: Tree, steps: seq<Step>, step: Step)
    ensures AfterAll(main, steps + [step]) == After(AfterAll(main, steps), step)
  {
    assert (steps + [step])[..|steps|] == steps;
  }

  lemma StaysLow(t: Tree, q: Path, a: Path, b: Path)
    requires q in t && a in ChildrenOf(t, q) && b in ChildrenOf(t, q) && a != b && !IsResolved(t, b)
    ensures Height(t, a) == 0
    ensures forall p :: Reaches(Flight(a, t, true), p) <==> p == a
  {
    assert Parent(a) == q;
    forall p
      ensures OnTheWay(a, 0, p) <==> p == a
    {
      if OnTheWay(a, 0, p) {
        AncestorIs(a, p);
      }
    }
  }

  /** A signal that stays with its node can be published as long as nobody touches that
      node. */
  lemma LowSignalMerges(main: Tree, f: Flight)
    requires TreeInv(main) && TreeInv(f.copy) && f.copy.Keys == main.Keys && f.signalled && f.node in main
    requires (forall p :: Reaches(f, p) <==> p == f.node) && main[f.node] == f.copy[f.node]
    ensures CanMerge(main, f)
  {
    forall p | p in main
      ensures Added(f.copy[p], Work(f)[p]).Keys !! main[p].runs.Keys
    {
      if p == f.node {
        FactIsNew(f.copy[p]);
      } else {
        assert !Reaches(f, p);
        assert Work(f)[p] == f.copy[p];
        assert Added(f.copy[p], f.copy[p]) == map[];
      }
    }
  }

  lemma FactIsNew(d: Dir)
    requires Numbered(d)
    ensures Added(d, WithFact(d)).Keys !! d.runs.Keys
  {
    FactAdds(d);
    NewRunKeepsNumbers(d, Success);
  }

  /** Two runs that both start before either of them is published. */
  function BothAtOnce(a: Path, b: Path): seq<Step> {
    [] + [Take(0, a)] + [Take(1, b)] + [Signal(0)] + [Signal(1)] + [Land(0)] + [Land(1)]
  }

  lemma BothSignalled(t: Tree, a: Path, b: Path)
    requires a in t && b in t
    ensures After(After(After(After(Start(t), Take(0, a)), Take(1, b)), Signal(0)), Signal(1)) ==
            State(t, map[0 := Flight(a, t, true), 1 := Flight(b, t, true)], [], {})
  {
  }

  lemma SixSteps(t: Tree, a: Path, b: Path)
    ensures var s := After(After(After(After(Start(t), Take(0, a)), Take(1, b)), Signal(0)), Signal(1));
            AfterAll(t, BothAtOnce(a, b)) == After(After(s, Land(0)), Land(1))
  {
    var s: seq<Step> := [];
    OneMoreStep(t, s, Take(0, a));
    s := s + [Take(0, a)];
    OneMoreStep(t, s, Take(1, b));
    s := s + [Take(1, b)];
    OneMoreStep(t, s, Signal(0));
    s := s + [Signal(0)];
    OneMoreStep(t, s, Signal(1));
    s := s + [Signal(1)];
    OneMoreStep(t, s, Land(0));
    s := s + [Land(0)];
    OneMoreStep(t, s, Land(1));
  }

  lemma LandFirst(t: Tree, fa: Flight, fb: Flight)
    requires fa.signalled && CanMerge(t, fa)
    ensures After(State(t, map[0 := fa, 1 := fb], [], {}), Land(0)) == State(Merged(t, fa), map[1 := fb], [fa], {})
  {
    assert map[0 := fa, 1 := fb] - {0} == map[1 := fb];
  }

  lemma LandSecond(main: Tree, fa: Flight, fb: Flight)
    requires fb.signalled && CanMerge(main, fb)
    ensures After(State(main, map[1 := fb], [fa], {}), Land(1)) == State(Merged(main, fb), map[], [fa, fb], {})
  {
    assert map[1 := fb] - {1} == map[];
  }

  /** A signal that stays with its node does not get in the way of another one. */
  lemma StillMerges(t: Tree, fa: Flight, fb: Flight)
    requires TreeInv(t) && fa.copy == fb.copy == t && fa.signalled && fb.signalled
    requires fa.node in t && fb.node in t && fa.node != fb.node
    requires forall p :: Reaches(fa, p) <==> p == fa.node
    requires forall p :: Reaches(fb, p) <==> p == fb.node
    ensures CanMerge(t, fa) && CanMerge(Merged(t, fa), fb)
  {
    LowSignalMerges(t, fa);
    assert Behind(t, t);
    MergedIs(t, fa, fb.node);
    MergedResolves(t, fa);
    LowSignalMerges(Merged(t, fa), fb);
  }

  lemma BothLanded(t: Tree, q: Path, a: Path, b: Path) returns (main: Tree)
    requires TreeInv(t) && q in t && a in ChildrenOf(t, q) && b in ChildrenOf(t, q) && a != b
    requires !IsResolved(t, a) && !IsResolved(t, b)
    ensures AfterAll(t, BothAtOnce(a, b)) == State(main, map[], [Flight(a, t, true), Flight(b, t, true)], {})
  {
    var fa, fb := Flight(a, t, true), Flight(b, t, true);
    SixSteps(t, a, b);
    BothSignalled(t, a, b);
    StaysLow(t, q, a, b);
    StaysLow(t, q, b, a);
    StillMerges(t, fa, fb);
    LandFirst(t, fa, fb);
    LandSecond(Merged(t, fa), fa, fb);
    main := Merged(Merged(t, fa), fb);
  }

  lemma InTwo(f: Flight, fa: Flight, fb: Flight)
    ensures f in [fa, fb] <==> f == fa || f == fb
  {
    assert [fa, fb][0] == fa && [fa, fb][1] == fb;
  }

  lemma TwoReasons(first: Tree, s: State, fa: Flight, fb: Flight, p: Path)
    requires p in first && s.landed == [fa, fb] && s.changed == {}
    ensures HasReason(first, s, p) <==> IsResolved(first, p) || Reaches(fa, p) || Reaches(fb, p)
  {
    InTwo(fa, fa, fb);
    InTwo(fb, fa, fb);
    if HasReason(first, s, p) && !IsResolved(first, p) {
      var f :| f in s.landed && Reaches(f, p);
      InTwo(f, fa, fb);
    }
  }

  lemma OpenByHistory(t: Tree, s: State, q: Path, a: Path, b: Path)
    requires Explained(t, s) && s.main.Keys == t.Keys && q in t && ChildrenOf(t, q) == {a, b}
    requires q != a && q != b && a in t && b in t
    requires !IsResolved(t, q) && s.landed == [Flight(a, t, true), Flight(b, t, true)] && s.changed == {}
    requires forall p :: Reaches(Flight(a, t, true), p) <==> p == a
    requires forall p :: Reaches(Flight(b, t, true), p) <==> p == b
    ensures LeftOpen(s.main, q)
  {
    TwoReasons(t, s, Flight(a, t, true), Flight(b, t, true), a);
    TwoReasons(t, s, Flight(a, t, true), Flight(b, t, true), b);
    TwoReasons(t, s, Flight(a, t, true), Flight(b, t, true), q);
    assert ChildrenOf(s.main, q) == ChildrenOf(t, q);
  }

  /** Two runs of the last two children at the same time: both succeed, both are
      published, and the parent stays open. */
  lemma SiblingsInFlightLeaveParentOpen(t: Tree, q: Path, a: Path, b: Path)
    requires TreeInv(t) && q in t && ChildrenOf(t, q) == {a, b} && a != b
    requires !IsResolved(t, q) && !IsResolved(t, a) && !IsResolved(t, b)
    ensures LeftOpen(AfterAll(t, BothAtOnce(a, b)).main, q)
  {
    assert a in ChildrenOf(t, q) && b in ChildrenOf(t, q);
    var main := BothLanded(t, q, a, b);
    RunKeeps(t, BothAtOnce(a, b));
    StaysLow(t, q, a, b);
    StaysLow(t, q, b, a);
    OpenByHistory(t, AfterAll(t, BothAtOnce(a, b)), q, a, b);
  }

  lemma SignalKeepsOpen(t: Tree, p: Path, q: Path)
    requires TreeInv(t) && LeftOpen(t, q) && p in t && p != q && !IsResolved(t, p)
    ensures TreeInv(Signalled(t, p)) && LeftOpen(Signalled(t, p), q)
  {
    var f := Flight(p, t, true);
    RaisedKeeps(t, p, Height(t, p));
    assert ChildrenOf(Signalled(t, p), q) == ChildrenOf(t, q);
    if Reaches(f, q) {
      ReachedThroughChild(f, q);
      var c :| c in ChildrenOf(t, q) && Reaches(f, c) && SawTheOthers(f, q, c);
      assert c != p;
      ReachedWasUnresolved(f, c);
    }
  }

  lemma ReachedWasUnresolved(f: Flight, c: Path)
    requires f.node in f.copy && c in f.copy && c != [] && Reaches(f, c) && f.node != c
    ensures !IsResolved(f.copy, c)
  {
    ChildTowardsIs(c, f.node);
    OnTheWayIff(f.copy, f.node, c);
    assert Rises(f.copy, f.node, |f.node| - |c| - 1);
  }

  predicate OnlyUnresolved(t: Tree, ps: seq<Path>, q: Path) {
    ps == [] ||
    var init, p := ps[..|ps| - 1], ps[|ps| - 1];
    OnlyUnresolved(t, init, q) && p != q && p in SignalledAll(t, init) && !IsResolved(SignalledAll(t, init), p)
  }

  /** Such a node stays open whatever other unresolved node is signalled: it could only
      be resolved through a child, and its children are all resolved. */
  lemma {:induction false} OpenStaysOpen(t: Tree, ps: seq<Path>, q: Path)
    requires TreeInv(t) && LeftOpen(t, q) && OnlyUnresolved(t, ps, q)
    ensures TreeInv(SignalledAll(t, ps)) && LeftOpen(SignalledAll(t, ps), q)
  {
    if ps != [] {
      OpenStaysOpen(t, ps[..|ps| - 1], q);
      SignalKeepsOpen(SignalledAll(t, ps[..|ps| - 1]), ps[|ps| - 1], q);
    }
  }

  // ------------------------------------------------------------- the other cases

  /** Every run signals and is published before the next one starts. */
  function OneByOne(ps: seq<Path>): seq<Step> {
    if ps == [] then []
    else
      var p := ps[|ps| - 1];
      OneByOne(ps[..|ps| - 1]) + [Take(0, p)] + [Signal(0)] + [Land(0)]
  }

  lemma SignalAlone(s: State, p: Path)
    requires p in s.main && s.flights == map[]
    ensures After(After(s, Take(0, p)), Signal(0)) == s.(flights := map[0 := Flight(p, s.main, true)])
  {
  }

  lemma LandOnly(s: State, f: Flight)
    requires s.flights == map[0 := f] && f.signalled && CanMerge(s.main, f)
    ensures After(s, Land(0)).main == Merged(s.main, f) && After(s, Land(0)).flights == map[]
  {
    assert map[0 := f] - {0} == map[];
  }

  lemma LandAlone(s: State, p: Path)
    requires TreeInv(s.main) && p in s.main && s.flights == map[]
    ensures var s' := After(After(After(s, Take(0, p)), Signal(0)), Land(0));
            s'.main == Signalled(s.main, p) && s'.flights == map[]
  {
    var f := Flight(p, s.main, true);
    LandAtOnce(s.main, p);
    SignalAlone(s, p);
    LandOnly(s.(flights := map[0 := f]), f);
  }

  /** One after the other, runs do to `main` what signals on one tree do, and so never
      leave a node open. */
  lemma {:induction false} OneByOneIsSequential(t: Tree, ps: seq<Path>)
    requires TreeInv(t) && forall p | p in ps :: p in t
    ensures AfterAll(t, OneByOne(ps)).main == SignalledAll(t, ps) && AfterAll(t, OneByOne(ps)).flights == map[]
    ensures TreeInv(SignalledAll(t, ps)) && SignalledAll(t, ps).Keys == t.Keys
  {
    if ps != [] {
      var init, p := ps[..|ps| - 1], ps[|ps| - 1];
      OneByOneIsSequential(t, init);
      var steps := OneByOne(init);
      LandAlone(AfterAll(t, steps), p);
      OneMoreStep(t, steps, Take(0, p));
      OneMoreStep(t, steps + [Take(0, p)], Signal(0));
      OneMoreStep(t, steps + [Take(0, p)] + [Signal(0)], Land(0));
      RaisedKeeps(SignalledAll(t, init), p, Height(SignalledAll(t, init), p));
    }
  }

  /** A verdict resolves its node and nobody above it: it leaves the parent open
      exactly when it accepts the last child. */
  lemma VerdictLeavesOpenIff(t: Tree, q: Path, c: Path, ok: bool)
    requires TreeInv(t) && Closed(t) && q in t && c in ChildrenOf(t, q)
    requires ChainInv(t[c]) && AcceptedState(t[c]).PendingAudit?
    ensures LeftOpen(t[c := Chain.After(t[c], Verdict(ok))], q) <==>
            ok && !IsResolved(t, q) && forall b | b in ChildrenOf(t, q) && b != c :: IsResolved(t, b)
  {
    var t' := t[c := Chain.After(t[c], Verdict(ok))];
    OpenAuditIsPending(t[c]);
    assert ChildrenOf(t', q) == ChildrenOf(t, q);
    assert forall b | b in ChildrenOf(t, q) && b != c :: t'[b] == t[b];
    assert c in ChildrenOf(t', q) && IsResolved(t', c) == ok;
  }
}
