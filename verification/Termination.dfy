/** When a pass of the scheduler comes to an end. A run reads the decision of a plan
    more generously than the scan does and ignores a rejection, so a node can go on
    waiting however often it is attempted. */
module Termination {
  import opened Common
  import opened Plans
  import opened Chain
  import opened Orchestrate

  // -------------------------------------------------------- remaining attempts

  /** How many more failures a node can take before only a person can help. */
  function Potential(d: Dir, s: Setting): nat {
    if !Gate(d) || d.unresolvable || s.openDecision || !Hold(s).NotHeld? then 0
    else if FailedStreak(d) < s.agentRetryMax then s.agentRetryMax - FailedStreak(d)
    else 0
  }

  /** A waiting node that no attempt gets any further. */
  predicate IsStuck(d: Dir, s: Setting) {
    DetectState(d, s).Waiting? && RunsAsComposite(s.plan) && !s.otherTrigger
  }

  lemma FailureRaisesStreak(d: Dir, s: Setting, a: Attempt)
    requires ChainInv(d) && Gate(d) && IsFailure(Published(a, s))
    ensures Gate(Recorded(d, a, s)) ==> FailedStreak(Recorded(d, a, s)) == FailedStreak(d) + 1
  {
    RecordedFailures(d, a, s);
  }

  lemma SuccessClosesGate(d: Dir, s: Setting, a: Attempt)
    requires ChainInv(d) && Gate(d) && !a.conflict && Succeeds(a, s)
    ensures !Gate(Recorded(d, a, s))
  {
    var d' := Recorded(d, a, s);
    NewFactIsLatest(d, d'.facts);
    NewRunKeepsNumbers(d, Success);
    assert NextRun(d) !in d.verdicts;
  }

  lemma WaitingHasPotential(d: Dir, s: Setting)
    requires DetectState(d, s).Waiting?
    ensures Gate(d) && Potential(d, s) == s.agentRetryMax - FailedStreak(d) > 0
  {
  }

  /** A lifecycle run without a fact leaves the state as it was. */
  lemma LifecycleChangesNothing(d: Dir, s: Setting, a: Attempt)
    requires ChainInv(d) && DetectState(d, s).Waiting? && Published(a, s).Lifecycle? && !WroteFact(a, s)
    ensures var d' := Recorded(d, a, s);
            Gate(d') && FailedStreak(d') == FailedStreak(d) && d'.unresolvable == s.otherTrigger
  {
    var d' := Recorded(d, a, s);
    RecordedFailures(d, a, s);
    WaitingHasPotential(d, s);
    assert d'.facts == d.facts && d'.pending == d.pending && d'.verdicts == d.verdicts;
    assert FailuresAfter(d', 0) == FailuresAfter(d, 0);
    assert FailedStreak(Written(d, a, s)) == |FailuresAfter(Written(d, a, s), 0)|;
  }

  /** The attempts that lead nowhere: decomposed, without a fact, and with a plan the
      scan does not hold. */
  predicate LeadsNowhere(a: Attempt, s: Setting) {
    && !a.conflict && Decomposed(a, s) && !WroteFact(a, s)
    && Hold(SettingAfter(s, a)).NotHeld? && !s.otherTrigger
  }

  /** A recorded attempt of a waiting node leaves fewer attempts to come exactly
      unless it leads nowhere; then the node waits just as before and is stuck. */
  lemma AttemptUsesPotentialIff(d: Dir, s: Setting, a: Attempt)
    requires ChainInv(d) && DetectState(d, s).Waiting?
    ensures var d', s' := Recorded(d, a, s), SettingAfter(s, a);
            && ChainInv(d')
            && (Potential(d', s') < Potential(d, s) <==> !LeadsNowhere(a, s))
            && (LeadsNowhere(a, s) ==> Potential(d', s') == Potential(d, s) && IsStuck(d', s'))
  {
    TryKeeps(d, a, s);
    WaitingHasPotential(d, s);
    if IsFailure(Published(a, s)) {
      FailureRaisesStreak(d, s, a);
    } else if Published(a, s).Success? {
      SuccessClosesGate(d, s, a);
    } else if WroteFact(a, s) {
      AttemptResolvesIff(d, a, s);
    } else {
      LifecycleChangesNothing(d, s, a);
    }
  }

  /** With a plan it reads as composite a run leads nowhere whatever it is asked to do. */
  lemma StuckStaysStuck(d: Dir, s: Setting, a: Attempt)
    requires ChainInv(d) && IsStuck(d, s) && !a.conflict
    ensures IsStuck(Recorded(d, a, s), SettingAfter(s, a))
    ensures SettingAfter(s, a) == s
  {
    AttemptUsesPotentialIff(d, s, a);
  }

  // ---------------------------------------------------------- nodes of a world

  predicate StillWaiting(w: World, p: Path) {
    p in w.dirs && p in w.settings && DetectState(w.dirs[p], w.settings[p]).Waiting?
  }

  predicate StuckNode(w: World, p: Path) {
    p in w.dirs && p in w.settings && IsStuck(w.dirs[p], w.settings[p])
  }

  predicate Resolvable(w: World, p: Path) {
    StillWaiting(w, p) && CallsExecutor(w.settings[p])
  }

  /** Every dependency of `p` is resolved or among `before`. */
  predicate Opened(w: World, before: seq<Path>, p: Path) {
    p in w.deps && forall d | d in w.deps[p] :: IsResolved(w, d) || d in before
  }

  /** The nodes of `order` can be resolved one after the other. */
  predicate Queue(w: World, order: seq<Path>) {
    order == [] ||
    var init, last := order[..|order| - 1], order[|order| - 1];
    Queue(w, init) && (IsResolved(w, last) || (Resolvable(w, last) && Opened(w, init, last)))
  }

  /** Some stuck node is free to start, or will be once others are resolved. */
  ghost predicate CanStick(w: World) {
    exists order, p :: Queue(w, order) && Opened(w, order, p) && StuckNode(w, p)
  }

  /** The scan recognises the plan that was written and, with `landed`, sees what was
      reported as done. */
  predicate IsTidy(e: Ending, landed: bool) {
    && (e.attempt.plan.Some? && e.attempt.plan.value.runner ==> e.attempt.plan.value.scan)
    && (landed && !e.refused ==> e.landed)
  }

  predicate AllTidy(trace: Trace, landed: bool) {
    match trace
    case Nothing => true
    case Then(t, Start(_)) => AllTidy(t, landed)
    case Then(t, Finish(_, e)) => AllTidy(t, landed) && IsTidy(e, landed)
  }

  lemma OthersUntouched(w: World, p: Path, e: Ending, q: Path)
    requires q != p
    ensures StillWaiting(Ended(w, p, e), q) == StillWaiting(w, q)
    ensures IsResolved(Ended(w, p, e), q) == IsResolved(w, q)
    ensures q in w.dirs && q in w.settings ==>
              Ended(w, p, e).dirs[q] == w.dirs[q] && Ended(w, p, e).settings[q] == w.settings[q]
  {
  }

  /** What a landed run leaves of its node. */
  lemma ThisOneAfter(w: World, p: Path, e: Ending)
    requires StillWaiting(w, p) && e.landed
    ensures var w' := Ended(w, p, e);
            && p in w'.dirs && w'.dirs[p] == Recorded(w.dirs[p], e.attempt, w.settings[p])
            && p in w'.settings && w'.settings[p] == SettingAfter(w.settings[p], e.attempt)
  {
  }

  lemma EndedKeepsWorld(w: World, p: Path, e: Ending)
    requires WorldInv(w) && StillWaiting(w, p)
    ensures WorldInv(Ended(w, p, e)) && Ended(w, p, e).deps == w.deps
  {
    if e.landed {
      TryKeeps(w.dirs[p], e.attempt, w.settings[p]);
      assert Ended(w, p, e).dirs.Keys == w.dirs.Keys && Ended(w, p, e).settings.Keys == w.settings.Keys;
    }
  }

  // ------------------------------------------------- what stays as it was at first

  /** A node that still waits waited at first, with an executor or without. */
  ghost predicate StemsFrom(w0: World, w: World) {
    && w.deps == w0.deps
    && forall q | StillWaiting(w, q) ::
         && StillWaiting(w0, q)
         && CallsExecutor(w.settings[q]) == CallsExecutor(w0.settings[q])
         && w.settings[q].otherTrigger == w0.settings[q].otherTrigger
  }

  lemma TidyAttemptKeepsReading(d: Dir, s: Setting, e: Ending)
    requires ChainInv(d) && DetectState(d, s).Waiting? && IsTidy(e, true)
    requires DetectState(Recorded(d, e.attempt, s), SettingAfter(s, e.attempt)).Waiting?
    ensures CallsExecutor(SettingAfter(s, e.attempt)) == CallsExecutor(s)
    ensures SettingAfter(s, e.attempt).otherTrigger == s.otherTrigger
  {
  }

  lemma EndedStemsFrom(w0: World, w: World, p: Path, e: Ending)
    requires StemsFrom(w0, w) && WorldInv(w) && StillWaiting(w, p) && IsTidy(e, true)
    ensures StemsFrom(w0, Ended(w, p, e))
  {
    var w' := Ended(w, p, e);
    forall q | StillWaiting(w', q)
      ensures && StillWaiting(w0, q)
              && CallsExecutor(w'.settings[q]) == CallsExecutor(w0.settings[q])
              && w'.settings[q].otherTrigger == w0.settings[q].otherTrigger
    {
      if q != p {
        OthersUntouched(w, p, e, q);
      } else if e.landed {
        ThisOneAfter(w, p, e);
        TidyAttemptKeepsReading(w.dirs[p], w.settings[p], e);
      }
    }
  }

  /** Whatever is resolved was so at first or can be, in the given order. */
  ghost predicate Explains(w0: World, order: seq<Path>, w: World) {
    Queue(w0, order) && forall q | IsResolved(w, q) :: IsResolved(w0, q) || q in order
  }

  /** What the scheduler has started: free to start, and not stuck. */
  ghost predicate Fit(w0: World, w: World, p: Path) {
    StillWaiting(w, p) && DepsResolved(w, p) && !StuckNode(w0, p)
  }

  ghost predicate Sound(w0: World, order: seq<Path>, s: State) {
    && WorldInv(s.world) && StemsFrom(w0, s.world) && Explains(w0, order, s.world)
    && (forall p | p in s.inFlight :: Fit(w0, s.world, p))
  }

  lemma ExtendQueue(w: World, order: seq<Path>, p: Path)
    requires Queue(w, order) && Resolvable(w, p) && Opened(w, order, p)
    ensures Queue(w, order + [p])
  {
    assert (order + [p])[..|order + [p]| - 1] == order;
  }

  lemma FreeIsOpened(w0: World, order: seq<Path>, w: World, p: Path)
    requires StemsFrom(w0, w) && Explains(w0, order, w) && DepsResolved(w, p)
    ensures Opened(w0, order, p)
  {
  }

  lemma StartIsFit(w0: World, order: seq<Path>, s: State, p: Path)
    requires !CanStick(w0) && Sound(w0, order, s) && IsWaiting(s.world, p)
    ensures Fit(w0, s.world, p)
  {
    FreeIsOpened(w0, order, s.world, p);
  }

  lemma ResolvedStays(w: World, p: Path, e: Ending, q: Path)
    requires IsResolved(w, q) && StillWaiting(w, p)
    ensures IsResolved(Ended(w, p, e), q)
  {
    assert q != p;
    OthersUntouched(w, p, e, q);
  }

  lemma FitStays(w0: World, w: World, p: Path, e: Ending, q: Path)
    requires Fit(w0, w, p) && Fit(w0, w, q) && q != p && WorldInv(w)
    ensures Fit(w0, Ended(w, p, e), q)
  {
    EndedKeepsWorld(w, p, e);
    OthersUntouched(w, p, e, q);
    forall d | d in w.deps[q]
      ensures IsResolved(Ended(w, p, e), d)
    {
      ResolvedStays(w, p, e, d);
    }
  }

  /** A node that an ending resolves had its executor called. */
  lemma ResolvedWasResolvable(w0: World, w: World, p: Path, e: Ending)
    requires StemsFrom(w0, w) && WorldInv(w) && StillWaiting(w, p) && IsResolved(Ended(w, p, e), p)
    ensures Resolvable(w0, p)
  {
    if e.landed {
      ThisOneAfter(w, p, e);
      WaitingHasPotential(w.dirs[p], w.settings[p]);
      AttemptResolvesIff(w.dirs[p], e.attempt, w.settings[p]);
    }
  }

  lemma ExplainsEnd(w0: World, order: seq<Path>, w: World, p: Path, e: Ending) returns (order': seq<Path>)
    requires StemsFrom(w0, w) && Explains(w0, order, w) && WorldInv(w) && Fit(w0, w, p)
    ensures Explains(w0, order', Ended(w, p, e))
  {
    var w' := Ended(w, p, e);
    if IsResolved(w', p) {
      ResolvedWasResolvable(w0, w, p, e);
      FreeIsOpened(w0, order, w, p);
      ExtendQueue(w0, order, p);
      order' := order + [p];
    } else {
      order' := order;
    }
    forall q | IsResolved(w', q)
      ensures IsResolved(w0, q) || q in order'
    {
      if q != p {
        OthersUntouched(w, p, e, q);
      }
    }
  }

  lemma EndIsSound(w0: World, order: seq<Path>, s: State, p: Path, e: Ending, s': State) returns (order': seq<Path>)
    requires Sound(w0, order, s) && p in s.inFlight && IsTidy(e, true)
    requires s'.world == Ended(s.world, p, e) && s'.inFlight == s.inFlight - {p}
    ensures Sound(w0, order', s')
  {
    assert Fit(w0, s.world, p);
    EndedKeepsWorld(s.world, p, e);
    EndedStemsFrom(w0, s.world, p, e);
    order' := ExplainsEnd(w0, order, s.world, p, e);
    forall q | q in s'.inFlight
      ensures Fit(w0, s'.world, q)
    {
      FitStays(w0, s.world, p, e, q);
    }
  }

  /** As long as nothing can get stuck, no tidy trace starts a stuck node. */
  lemma {:induction false} TraceIsSound(w0: World, trace: Trace, limit: nat) returns (order: seq<Path>)
    requires WorldInv(w0) && !CanStick(w0) && Legal(w0, trace, limit) && AllTidy(trace, true)
    ensures Sound(w0, order, StateAfter(w0, trace))
  {
    match trace {
      case Nothing =>
        order := [];
      case Then(t, Start(p)) =>
        order := TraceIsSound(w0, t, limit);
        StartIsFit(w0, order, StateAfter(w0, t), p);
      case Then(t, Finish(p, e)) =>
        order := TraceIsSound(w0, t, limit);
        order := EndIsSound(w0, order, StateAfter(w0, t), p, e, StateAfter(w0, trace));
    }
  }

  // ---------------------------------------------------------- a pass that ends

  function PotentialOf(w: World, p: Path): nat {
    if p in w.dirs && p in w.settings then Potential(w.dirs[p], w.settings[p]) else 0
  }

  function TotalPotential(w: World, nodes: seq<Path>): nat {
    if nodes == [] then 0 else PotentialOf(w, nodes[0]) + TotalPotential(w, nodes[1..])
  }

  lemma {:induction false} TotalDrops(w: World, w': World, nodes: seq<Path>, p: Path)
    requires forall q | q in nodes :: PotentialOf(w', q) <= PotentialOf(w, q)
    ensures TotalPotential(w', nodes) <= TotalPotential(w, nodes)
    ensures p in nodes && PotentialOf(w', p) < PotentialOf(w, p) ==>
              TotalPotential(w', nodes) < TotalPotential(w, nodes)
  {
    if nodes != [] {
      assert nodes[0] in nodes;
      TotalDrops(w, w', nodes[1..], p);
    }
  }

  /** What is left to do: attempts that can still be made, nodes not given up on. */
  function Work(s: State, nodes: seq<Path>): nat {
    TotalPotential(s.world, nodes) + |(set p | p in nodes) - s.skip|
  }

  lemma GivingUpShrinks(nodes: seq<Path>, skip: set<Path>, p: Path)
    requires p in nodes && p !in skip
    ensures |(set q | q in nodes) - (skip + {p})| < |(set q | q in nodes) - skip|
  {
    var all := set q | q in nodes;
    assert p in all - skip && all - (skip + {p}) < all - skip;
    ProperSubsetSize(all - (skip + {p}), all - skip);
  }

  lemma LandingUsesPotential(w0: World, w: World, p: Path, e: Ending)
    requires WorldInv(w) && StemsFrom(w0, w) && StillWaiting(w, p) && !StuckNode(w0, p) && IsTidy(e, true) && e.landed
    ensures PotentialOf(Ended(w, p, e), p) < PotentialOf(w, p)
  {
    ThisOneAfter(w, p, e);
    EndedStemsFrom(w0, w, p, e);
    AttemptUsesPotentialIff(w.dirs[p], w.settings[p], e.attempt);
    assert StuckNode(Ended(w, p, e), p) ==> StillWaiting(Ended(w, p, e), p);
  }

  lemma OthersKeepPotential(w: World, p: Path, e: Ending, q: Path)
    requires q != p
    ensures PotentialOf(Ended(w, p, e), q) == PotentialOf(w, q)
  {
  }

  lemma EndingUsesWork(w0: World, nodes: seq<Path>, s: State, p: Path, e: Ending, s': State)
    requires WorldInv(s.world) && StemsFrom(w0, s.world) && StillWaiting(s.world, p) && !StuckNode(w0, p)
    requires IsTidy(e, true) && p in nodes && p !in s.skip
    requires s'.world == Ended(s.world, p, e) && s'.skip == if e.refused then s.skip + {p} else s.skip
    ensures Work(s', nodes) < Work(s, nodes)
  {
    if e.landed {
      LandingUsesPotential(w0, s.world, p, e);
    }
    forall q | q != p
      ensures PotentialOf(s'.world, q) == PotentialOf(s.world, q)
    {
      OthersKeepPotential(s.world, p, e, q);
    }
    TotalDrops(s.world, s'.world, nodes, p);
    if e.refused {
      GivingUpShrinks(nodes, s.skip, p);
    }
  }

  lemma StartedIsNode(w: World, nodes: seq<Path>, p: Path)
    requires IsScan(w, nodes) && p in w.dirs
    ensures p in nodes
  {
    assert p in (set q | q in nodes);
  }

  lemma SoundEndingUsesWork(w0: World, nodes: seq<Path>, s: State, order: seq<Path>, p: Path, e: Ending, s': State)
    requires Sound(w0, order, s) && IsScan(w0, nodes) && IsTidy(e, true) && p in s.inFlight && p !in s.skip
    requires s'.world == Ended(s.world, p, e) && s'.skip == if e.refused then s.skip + {p} else s.skip
    ensures Work(s', nodes) < Work(s, nodes)
  {
    assert Fit(w0, s.world, p);
    StartedIsNode(w0, nodes, p);
    EndingUsesWork(w0, nodes, s, p, e, s');
  }

  /** Every ending of a tidy trace uses up some of the work there was at first. */
  lemma {:induction false} EndingsAreBounded(w0: World, nodes: seq<Path>, trace: Trace, limit: nat)
    requires WorldInv(w0) && IsScan(w0, nodes) && !CanStick(w0) && Legal(w0, trace, limit) && AllTidy(trace, true)
    ensures |Endings(trace)| + Work(StateAfter(w0, trace), nodes) <= Work(State(w0, {}, {}), nodes)
  {
    match trace {
      case Nothing =>
      case Then(t, Start(p)) =>
        EndingsAreBounded(w0, nodes, t, limit);
      case Then(t, Finish(p, e)) =>
        EndingsAreBounded(w0, nodes, t, limit);
        var order := TraceIsSound(w0, t, limit);
        NothingIsForgotten(w0, t, limit);
        SoundEndingUsesWork(w0, nodes, StateAfter(w0, t), order, p, e, StateAfter(w0, trace));
    }
  }

  // ------------------------------------------------- a pass that does not end

  /** `p` can be made to go on waiting: by recorded runs where it is stuck, by runs
      that the scan does not see otherwise. */
  predicate Loops(w: World, p: Path, landed: bool) {
    StillWaiting(w, p) && (landed ==> StuckNode(w, p))
  }

  /** Nothing was given up on that is needed for `p` to start once more. */
  ghost predicate Ready(s: State, order: seq<Path>, p: Path, landed: bool) {
    && WorldInv(s.world) && Queue(s.world, order) && Opened(s.world, order, p) && Loops(s.world, p, landed)
    && p !in order && p !in s.skip && (forall q | q in order :: q !in s.skip)
    && (forall q | q in s.inFlight :: StillWaiting(s.world, q))
  }

  /** Nodes of the queue succeed, `p` does nothing, all others are refused. */
  function Choice(order: seq<Path>, p: Path, landed: bool, q: Path): Ending {
    if q == p then Ending(Attempt(None, false, false, false, false, false), landed, false)
    else if q in order then Ending(Attempt(None, false, true, true, false, false), true, false)
    else Ending(Attempt(None, false, false, false, false, false), false, true)
  }

  lemma {:induction false} QueueAt(w: World, order: seq<Path>, k: nat)
    requires Queue(w, order) && k < |order|
    ensures Queue(w, order[..k])
    ensures IsResolved(w, order[k]) || (Resolvable(w, order[k]) && Opened(w, order[..k], order[k]))
  {
    if k < |order| - 1 {
      QueueAt(w, order[..|order| - 1], k);
      assert order[..|order| - 1][..k] == order[..k];
    }
  }

  /** Some node of the queue is free to start, or `p` itself. */
  lemma {:induction false} FirstFree(w: World, order: seq<Path>, p: Path) returns (q: Path)
    requires Queue(w, order) && Opened(w, order, p) && StillWaiting(w, p)
    ensures IsWaiting(w, q) && (q == p || q in order)
    decreases |order|
  {
    if d :| d in w.deps[p] && !IsResolved(w, d) {
      var k :| 0 <= k < |order| && order[k] == d;
      QueueAt(w, order, k);
      q := FirstFree(w, order[..k], d);
    } else {
      q := p;
    }
  }

  lemma {:induction false} QueueStays(w: World, w': World, order: seq<Path>)
    requires Queue(w, order) && w'.deps == w.deps
    requires forall q | IsResolved(w, q) :: IsResolved(w', q)
    requires forall q | q in order && Resolvable(w, q) :: IsResolved(w', q) || Resolvable(w', q)
    ensures Queue(w', order)
  {
    if order != [] {
      var init, last := order[..|order| - 1], order[|order| - 1];
      assert order == init + [last];
      QueueStays(w, w', init);
    }
  }

  /** One of the nodes in `qs` comes before or with all the others. */
  lemma {:induction false} BestOf(w: World, qs: set<Path>) returns (p: Path)
    requires qs != {}
    ensures p in qs && forall q | q in qs :: NotAfter(w, p, q)
  {
    var x :| x in qs;
    ComparesConsistently(w, x, x, x);
    if qs == {x} {
      p := x;
    } else {
      var rest := qs - {x};
      assert qs == rest + {x};
      var y := BestOf(w, rest);
      ComparesConsistently(w, x, y, y);
      p := if NotAfter(w, x, y) then x else y;
      forall q | q in qs
        ensures NotAfter(w, p, q)
      {
        ComparesConsistently(w, x, y, q);
        ComparesConsistently(w, y, x, x);
      }
    }
  }

  lemma NextOffer(s: State, q: Path) returns (p: Path)
    requires Offers(s, q)
    ensures IsNext(s, p)
  {
    var offers := set x | x in s.world.dirs && Offers(s, x);
    assert q in offers;
    p := BestOf(s.world, offers);
  }

  // What an ending chosen in this way does.

  lemma QueueNodeResolves(w: World, order: seq<Path>, p: Path, landed: bool, q: Path)
    requires WorldInv(w) && Resolvable(w, q) && q != p && q in order
    ensures IsResolved(Ended(w, q, Choice(order, p, landed, q)), q)
  {
    var e := Choice(order, p, landed, q);
    ThisOneAfter(w, q, e);
    WaitingHasPotential(w.dirs[q], w.settings[q]);
    AttemptResolvesIff(w.dirs[q], e.attempt, w.settings[q]);
  }

  lemma LoopGoesOn(w: World, order: seq<Path>, p: Path, landed: bool)
    requires WorldInv(w) && Loops(w, p, landed)
    ensures Loops(Ended(w, p, Choice(order, p, landed, p)), p, landed)
  {
    var e := Choice(order, p, landed, p);
    if landed {
      ThisOneAfter(w, p, e);
      StuckStaysStuck(w.dirs[p], w.settings[p], e.attempt);
    }
  }

  lemma {:induction false} InQueue(w: World, order: seq<Path>, q: Path)
    requires Queue(w, order) && q in order
    ensures IsResolved(w, q) || Resolvable(w, q)
  {
    var k :| 0 <= k < |order| && order[k] == q;
    QueueAt(w, order, k);
  }

  lemma EndedKeepsQueue(w: World, order: seq<Path>, p: Path, landed: bool, q: Path)
    requires WorldInv(w) && Queue(w, order) && Opened(w, order, p) && Loops(w, p, landed) && p !in order
    requires StillWaiting(w, q)
    ensures var w' := Ended(w, q, Choice(order, p, landed, q));
            Queue(w', order) && Opened(w', order, p) && Loops(w', p, landed)
  {
    var e := Choice(order, p, landed, q);
    var w' := Ended(w, q, e);
    EndedKeepsWorld(w, q, e);
    forall x | IsResolved(w, x)
      ensures IsResolved(w', x)
    {
      ResolvedStays(w, q, e, x);
    }
    forall x | x in order && Resolvable(w, x)
      ensures IsResolved(w', x) || Resolvable(w', x)
    {
      if x == q {
        QueueNodeResolves(w, order, p, landed, q);
      } else {
        OthersUntouched(w, q, e, x);
      }
    }
    QueueStays(w, w', order);
    if q == p {
      LoopGoesOn(w, order, p, landed);
    } else {
      OthersUntouched(w, q, e, p);
    }
  }

  lemma EndedKeepsReady(s: State, order: seq<Path>, p: Path, landed: bool, q: Path, s': State)
    requires Ready(s, order, p, landed) && q in s.inFlight
    requires var e := Choice(order, p, landed, q);
             s' == State(Ended(s.world, q, e), if e.refused then s.skip + {q} else s.skip, s.inFlight - {q})
    ensures Ready(s', order, p, landed) && IsTidy(Choice(order, p, landed, q), landed)
  {
    var e := Choice(order, p, landed, q);
    EndedKeepsWorld(s.world, q, e);
    EndedKeepsQueue(s.world, order, p, landed, q);
    forall x | x in s'.inFlight
      ensures StillWaiting(s'.world, x)
    {
      OthersUntouched(s.world, q, e, x);
    }
  }

  /** The nodes that may still start for the first time or run now. */
  function Unsettled(s: State): set<Path> {
    set q | q in s.world.dirs && q !in s.skip && !IsResolved(s.world, q)
  }

  lemma InFlightIsUnsettled(s: State, order: seq<Path>, p: Path, landed: bool)
    requires Ready(s, order, p, landed) && s.inFlight !! s.skip
    ensures |s.inFlight| <= |Unsettled(s)|
  {
    SubsetSize(s.inFlight, Unsettled(s));
  }

  lemma EndedSettles(s: State, order: seq<Path>, p: Path, landed: bool, q: Path, s': State)
    requires Ready(s, order, p, landed) && q in s.inFlight && q != p && q !in s.skip
    requires var e := Choice(order, p, landed, q);
             s' == State(Ended(s.world, q, e), if e.refused then s.skip + {q} else s.skip, s.inFlight - {q})
    ensures |Unsettled(s')| < |Unsettled(s)|
  {
    var e := Choice(order, p, landed, q);
    if q in order {
      InQueue(s.world, order, q);
      QueueNodeResolves(s.world, order, p, landed, q);
    }
    forall x | x in Unsettled(s')
      ensures x in Unsettled(s) && x != q
    {
      if x != q {
        OthersUntouched(s.world, q, e, x);
      }
    }
    assert q in Unsettled(s);
    ProperSubsetSize(Unsettled(s'), Unsettled(s));
  }

  ghost predicate Reached(w0: World, t: Trace, limit: nat, order: seq<Path>, p: Path, landed: bool) {
    Legal(w0, t, limit) && AllTidy(t, landed) && Ready(StateAfter(w0, t), order, p, landed)
  }

  /** What is left to be done before `p` has its turn. */
  function Queued(s: State): int {
    2 * |Unsettled(s)| - |s.inFlight|
  }

  lemma QueuedIsNatural(w0: World, t: Trace, limit: nat, order: seq<Path>, p: Path, landed: bool)
    requires Reached(w0, t, limit, order, p, landed)
    ensures Queued(StateAfter(w0, t)) >= 0
  {
    NothingIsForgotten(w0, t, limit);
    InFlightIsUnsettled(StateAfter(w0, t), order, p, landed);
  }

  lemma StartedKeepsReady(s: State, order: seq<Path>, p: Path, landed: bool, q: Path, s': State)
    requires Ready(s, order, p, landed) && IsNext(s, q) && s' == s.(inFlight := s.inFlight + {q})
    ensures Ready(s', order, p, landed) && Queued(s') == Queued(s) - 1
  {
    assert Unsettled(s') == Unsettled(s);
  }

  lemma StartStep(w0: World, t: Trace, limit: nat, order: seq<Path>, p: Path, landed: bool, x: Path)
    returns (t': Trace, q: Path)
    requires Reached(w0, t, limit, order, p, landed)
    requires |StateAfter(w0, t).inFlight| < limit && Offers(StateAfter(w0, t), x)
    ensures Reached(w0, t', limit, order, p, landed)
    ensures Starts(t')[p] == Starts(t)[p] + (if q == p then 1 else 0)
    ensures StateAfter(w0, t').inFlight == StateAfter(w0, t).inFlight + {q}
    ensures Queued(StateAfter(w0, t')) == Queued(StateAfter(w0, t)) - 1
  {
    q := NextOffer(StateAfter(w0, t), x);
    t' := Then(t, Start(q));
    StartedKeepsReady(StateAfter(w0, t), order, p, landed, q, StateAfter(w0, t'));
  }

  lemma EndStep(w0: World, t: Trace, limit: nat, order: seq<Path>, p: Path, landed: bool, q: Path)
    returns (t': Trace)
    requires Reached(w0, t, limit, order, p, landed)
    requires IsFilled(StateAfter(w0, t), limit) && q in StateAfter(w0, t).inFlight
    ensures Reached(w0, t', limit, order, p, landed) && Starts(t')[p] == Starts(t)[p]
    ensures StateAfter(w0, t').inFlight == StateAfter(w0, t).inFlight - {q}
    ensures q != p ==> Queued(StateAfter(w0, t')) < Queued(StateAfter(w0, t))
  {
    var s := StateAfter(w0, t);
    NothingIsForgotten(w0, t, limit);
    t' := Then(t, Finish(q, Choice(order, p, landed, q)));
    EndedKeepsReady(s, order, p, landed, q, StateAfter(w0, t'));
    if q != p {
      EndedSettles(s, order, p, landed, q, StateAfter(w0, t'));
    }
  }

  /** From any point where it is ready, the scheduler may come to start `p` again. */
  lemma {:induction false} NextStart(w0: World, t: Trace, limit: nat, order: seq<Path>, p: Path, landed: bool)
    returns (t': Trace)
    requires limit >= 1 && Reached(w0, t, limit, order, p, landed)
    ensures Reached(w0, t', limit, order, p, landed) && Starts(t')[p] == Starts(t)[p] + 1
    decreases p in StateAfter(w0, t).inFlight, Queued(StateAfter(w0, t))
  {
    var s := StateAfter(w0, t);
    QueuedIsNatural(w0, t, limit, order, p, landed);
    var free := FirstFree(s.world, order, p);
    var q;
    if |s.inFlight| < limit && exists x :: x in s.world.dirs && Offers(s, x) {
      var x :| x in s.world.dirs && Offers(s, x);
      t', q := StartStep(w0, t, limit, order, p, landed, x);
      QueuedIsNatural(w0, t', limit, order, p, landed);
      if q != p {
        t' := NextStart(w0, t', limit, order, p, landed);
      }
    } else {
      assert s.inFlight == {} ==> Offers(s, free);
      q :| q in s.inFlight && (p in s.inFlight ==> q == p);
      t' := EndStep(w0, t, limit, order, p, landed, q);
      t' := NextStart(w0, t', limit, order, p, landed);
    }
  }

  lemma {:induction false} ManyStarts(w0: World, limit: nat, order: seq<Path>, p: Path, landed: bool, n: nat)
    returns (t: Trace)
    requires limit >= 1 && Ready(State(w0, {}, {}), order, p, landed)
    ensures Reached(w0, t, limit, order, p, landed) && Starts(t)[p] == n
  {
    if n == 0 {
      t := Nothing;
    } else {
      t := ManyStarts(w0, limit, order, p, landed, n - 1);
      t := NextStart(w0, t, limit, order, p, landed);
    }
  }

  // ------------------------------------------------------------ when it ends

  /** No pass takes more than `n` starts. `landed` says that the scan sees what was
      reported as done. */
  ghost predicate Within(w: World, limit: nat, landed: bool, n: nat) {
    forall trace | Legal(w, trace, limit) && AllTidy(trace, landed) :: |Starts(trace)| <= n
  }

  lemma {:induction false} CountWithin(m: multiset<Path>, p: Path)
    ensures m[p] <= |m|
    decreases m[p]
  {
    if m[p] > 0 {
      CountWithin(m - multiset{p}, p);
    }
  }

  lemma LoopIsNotWithin(w: World, limit: nat, order: seq<Path>, p: Path, landed: bool, n: nat)
    requires limit >= 1 && Ready(State(w, {}, {}), order, p, landed)
    ensures !Within(w, limit, landed, n)
  {
    var t := ManyStarts(w, limit, order, p, landed, n + 1);
    CountWithin(Starts(t), p);
  }

  lemma TidyIsWithin(w: World, nodes: seq<Path>, limit: nat)
    requires WorldInv(w) && IsScan(w, nodes) && !CanStick(w)
    ensures Within(w, limit, true, Work(State(w, {}, {}), nodes) + limit)
  {
    forall trace | Legal(w, trace, limit) && AllTidy(trace, true)
      ensures |Starts(trace)| <= Work(State(w, {}, {}), nodes) + limit
    {
      EndingsAreBounded(w, nodes, trace, limit);
      NothingIsForgotten(w, trace, limit);
      OneResultEach(trace);
    }
  }

  lemma StuckNotInQueue(w: World, order: seq<Path>, p: Path)
    requires Queue(w, order) && StuckNode(w, p)
    ensures p !in order
  {
    if p in order {
      InQueue(w, order, p);
      WaitingHasPotential(w.dirs[p], w.settings[p]);
    }
  }

  /** A pass ends, within a bound on the number of its runs, exactly unless a stuck
      node is free to start or can become so. */
  lemma PassEndsIff(w: World, nodes: seq<Path>, limit: nat)
    requires WorldInv(w) && IsScan(w, nodes) && limit >= 1
    ensures (exists n :: Within(w, limit, true, n)) <==> !CanStick(w)
  {
    if CanStick(w) {
      var order, p :| Queue(w, order) && Opened(w, order, p) && StuckNode(w, p);
      StuckNotInQueue(w, order, p);
      forall n: nat
        ensures !Within(w, limit, true, n)
      {
        LoopIsNotWithin(w, limit, order, p, true, n);
      }
    } else {
      TidyIsWithin(w, nodes, limit);
    }
  }

  /** A stuck node that can start does so any number of times in one pass. */
  lemma StuckStartsForever(w: World, limit: nat, p: Path, n: nat) returns (trace: Trace)
    requires WorldInv(w) && limit >= 1 && IsWaiting(w, p) && StuckNode(w, p)
    ensures Legal(w, trace, limit) && AllTidy(trace, true) && Starts(trace)[p] == n
  {
    trace := ManyStarts(w, limit, [], p, true, n);
  }

  /** When the scan need not see what was reported as done, a pass is only sure to end
      where nothing waits. */
  lemma UnseenPassEndsIff(w: World, limit: nat)
    requires WorldInv(w) && limit >= 1
    ensures (exists n :: Within(w, limit, false, n)) <==> forall p :: !IsWaiting(w, p)
  {
    if p :| IsWaiting(w, p) {
      forall n: nat
        ensures !Within(w, limit, false, n)
      {
        LoopIsNotWithin(w, limit, [], p, false, n);
      }
    } else {
      forall trace | Legal(w, trace, limit)
        ensures trace == Nothing
      {
        NothingToStart(w, trace, limit);
      }
      assert Within(w, limit, false, 0);
    }
  }

  lemma {:induction false} NothingToStart(w: World, trace: Trace, limit: nat)
    requires Legal(w, trace, limit) && forall p :: !IsWaiting(w, p)
    ensures trace == Nothing
  {
    if trace.Then? {
      NothingToStart(w, trace.before, limit);
    }
  }

  /** A tidy pass with runs still in flight has not used up its work: with as many
      endings as there is work `RunAuto` is done. */
  lemma UnfinishedHasWork(w: World, nodes: seq<Path>, trace: Trace, limit: nat)
    requires WorldInv(w) && IsScan(w, nodes) && !CanStick(w) && Legal(w, trace, limit) && AllTidy(trace, true)
    requires StateAfter(w, trace).inFlight != {}
    ensures |Endings(trace)| < Work(State(w, {}, {}), nodes)
  {
    EndingsAreBounded(w, nodes, trace, limit);
    var order := TraceIsSound(w, trace, limit);
    var s := StateAfter(w, trace);
    var p :| p in s.inFlight;
    NothingIsForgotten(w, trace, limit);
    assert Fit(w, s.world, p);
    StartedIsNode(w, nodes, p);
    GivingUpShrinks(nodes, s.skip, p);
  }

  lemma {:induction false} TidyEndings(trace: Trace, landed: bool)
    ensures AllTidy(trace, landed) <==>
            forall i | 0 <= i < |Endings(trace)| :: IsTidy(Endings(trace)[i], landed)
  {
    match trace {
      case Nothing =>
      case Then(t, Start(_)) =>
        TidyEndings(t, landed);
        assert Endings(trace) == Endings(t);
      case Then(t, Finish(_, e)) =>
        TidyEndings(t, landed);
        assert Endings(trace) == Endings(t) + [e];
        assert Endings(trace)[|Endings(t)|] == e;
        assert forall i | 0 <= i < |Endings(t)| :: Endings(trace)[i] == Endings(t)[i];
    }
  }

  /** In a tree where nothing can get stuck, a pass whose runs all end tidily is done
      after at most as many endings as there is work. */
  method RunTidyAuto(start: World, nodes: seq<Path>, concurrency: nat, endings: seq<Ending>)
    returns (results: seq<AutoResult>, ghost trace: Trace)
    requires WorldInv(start) && IsScan(start, nodes) && !CanStick(start)
    requires forall i | 0 <= i < |endings| :: IsTidy(endings[i], true)
    requires |endings| >= Work(State(start, {}, {}), nodes)
    ensures Legal(start, trace, Limit(concurrency)) && IsDone(StateAfter(start, trace))
    ensures results == Results(trace) && |results| <= Work(State(start, {}, {}), nodes)
    ensures ResultsOf(results, endings[..|results|]) && Starts(trace) == Finished(trace)
    ensures forall p | IsWaiting(StateAfter(start, trace).world, p) :: Refused(p) in results
  {
    var done;
    results, done, trace := RunAuto(start, nodes, concurrency, endings);
    TidyEndings(trace, true);
    assert forall i | 0 <= i < |Endings(trace)| :: Endings(trace)[i] == endings[i];
    OneResultEach(trace);
    EndingsAreBounded(start, nodes, trace, Limit(concurrency));
    if !done {
      UnfinishedHasWork(start, nodes, trace, Limit(concurrency));
      assert false;
    }
  }

  // ------------------------------------------------------------ how it happens

  /** An executor that spells the decision of its plan in a way only a run
      understands leaves its node stuck. */
  lemma UnrecognisedPlanSticks(d: Dir, s: Setting, a: Attempt)
    requires ChainInv(d) && DetectState(d, s).Waiting? && CallsExecutor(s) && !s.otherTrigger
    requires a.plan == Some(Decision(false, true)) && !a.wroteFact && !a.conflict
    ensures IsStuck(Recorded(d, a, s), SettingAfter(s, a))
  {
    AttemptUsesPotentialIff(d, s, a);
  }

  /** A single node without any run, whose composite plan was rejected. */
  const REJECTED := World(
    map[0 := EMPTY],
    map[0 := Setting(false, false, Some(Plan(Decision(true, true), false, true)), false, true, false, 3, 1, false)],
    map[0 := {}], map[0 := Attributes(None, None)])

  /** Rejecting a composite plan makes one pass attempt the node for ever. */
  lemma RejectedPlanIsRetriedForever(limit: nat, n: nat) returns (trace: Trace)
    requires limit >= 1
    ensures Legal(REJECTED, trace, limit) && AllTidy(trace, true) && Starts(trace)[0] == n
  {
    assert FailuresAfter(EMPTY, 0) == {};
    trace := StuckStartsForever(REJECTED, limit, 0, n);
  }
}
