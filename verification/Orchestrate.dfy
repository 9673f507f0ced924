/** The local scheduler: it keeps up to `concurrency` waiting agent nodes running,
    starts the next one as soon as one finishes, and stops when nothing is left. */
module Orchestrate {
  import opened Common
  import opened Chain
  import opened Plans

  /** A node by the rank of its path. */
  type Path = nat

  datatype Attributes = Attributes(deadline: Option<nat>, createdAt: Option<nat>)

  /** Everything a scan reads. */
  datatype World = World(
    dirs: map<Path, Dir>, settings: map<Path, Setting>, deps: map<Path, set<Path>>, attributes: map<Path, Attributes>)

  ghost predicate WorldInv(w: World) {
    && w.dirs.Keys == w.settings.Keys == w.deps.Keys == w.attributes.Keys
    && forall p | p in w.dirs :: ChainInv(w.dirs[p])
  }

  predicate IsResolved(w: World, p: Path) {
    p in w.dirs && AcceptedState(w.dirs[p]).Resolved?
  }

  predicate DepsResolved(w: World, p: Path) {
    p in w.deps && forall d | d in w.deps[p] :: IsResolved(w, d)
  }

  /** A waiting agent node, not blocked by its dependencies. */
  predicate IsWaiting(w: World, p: Path) {
    && p in w.dirs && p in w.settings && w.settings[p].agent
    && DetectState(w.dirs[p], w.settings[p]).Waiting? && DepsResolved(w, p)
  }

  // ------------------------------------------------------------------- sorting

  function Dependents(w: World, p: Path): nat {
    |set q | q in w.deps && p in w.deps[q]|
  }

  datatype Order = Less | Same | More

  function CompareNat(a: nat, b: nat): Order {
    if a < b then Less else if a > b then More else Same
  }

  /** Missing values come last. */
  function CompareOption(a: Option<nat>, b: Option<nat>): Order {
    match (a, b)
    case (Some(x), Some(y)) => CompareNat(x, y)
    case (Some(_), None) => Less
    case (None, Some(_)) => More
    case (None, None) => Same
  }

  function AttributesOf(w: World, p: Path): Attributes {
    if p in w.attributes then w.attributes[p] else Attributes(None, None)
  }

  /** More dependents first, then the nearer deadline, then the earlier creation;
      the path only decides between nodes without a creation time. */
  function Compare(w: World, a: Path, b: Path): Order {
    var x, y := AttributesOf(w, a), AttributesOf(w, b);
    var byDependents := CompareNat(Dependents(w, b), Dependents(w, a));
    var byDeadline := CompareOption(x.deadline, y.deadline);
    if !byDependents.Same? then byDependents
    else if !byDeadline.Same? then byDeadline
    else if x.createdAt.None? && y.createdAt.None? then CompareNat(a, b)
    else CompareOption(x.createdAt, y.createdAt)
  }

  /** The earlier of two times that may be missing; a missing one is never earlier. */
  predicate Sooner(a: Option<nat>, b: Option<nat>) {
    a.Some? && (b.None? || a.value < b.value)
  }

  /** What comes first: more nodes that wait for it, else the sooner deadline, else the
      sooner creation, else, where neither has a creation time, the smaller path. */
  lemma ComesFirstIff(w: World, a: Path, b: Path)
    requires a in w.attributes && b in w.attributes
    ensures var x, y := w.attributes[a], w.attributes[b];
            Compare(w, a, b).Less? <==>
            || Dependents(w, a) > Dependents(w, b)
            || (Dependents(w, a) == Dependents(w, b) &&
                (|| Sooner(x.deadline, y.deadline)
                 || (x.deadline == y.deadline &&
                     (|| Sooner(x.createdAt, y.createdAt)
                      || (x.createdAt.None? && y.createdAt.None? && a < b)))))
    ensures Compare(w, a, b).More? <==> Compare(w, b, a).Less?
  {
  }

  predicate NotAfter(w: World, a: Path, b: Path) {
    !Compare(w, a, b).More?
  }

  lemma NotAfterIff(w: World, a: Path, b: Path)
    ensures NotAfter(w, a, b) <==> !Compare(w, b, a).Less?
  {
  }

  /** The comparison is a total preorder, so sorting by it means something. */
  lemma ComparesConsistently(w: World, a: Path, b: Path, c: Path)
    ensures NotAfter(w, a, b) || NotAfter(w, b, a)
    ensures NotAfter(w, a, b) && NotAfter(w, b, c) ==> NotAfter(w, a, c)
  {
  }

  predicate InOrder(w: World, ps: seq<Path>) {
    forall i, j | 0 <= i < j < |ps| :: NotAfter(w, ps[i], ps[j])
  }

  /** One step of a stable sort. */
  function Place(w: World, ps: seq<Path>, p: Path): seq<Path> {
    if ps == [] || NotAfter(w, ps[|ps| - 1], p) then ps + [p]
    else Place(w, ps[..|ps| - 1], p) + [ps[|ps| - 1]]
  }

  function SortForAuto(w: World, ps: seq<Path>): seq<Path> {
    if ps == [] then [] else Place(w, SortForAuto(w, ps[..|ps| - 1]), ps[|ps| - 1])
  }

  lemma {:induction false} PlaceAdds(w: World, ps: seq<Path>, p: Path)
    ensures multiset(Place(w, ps, p)) == multiset(ps) + multiset{p}
  {
    if ps != [] && !NotAfter(w, ps[|ps| - 1], p) {
      PlaceAdds(w, ps[..|ps| - 1], p);
      assert ps == ps[..|ps| - 1] + [ps[|ps| - 1]];
    }
  }

  lemma {:induction false} PlaceKeepsOrder(w: World, ps: seq<Path>, p: Path)
    requires InOrder(w, ps)
    ensures InOrder(w, Place(w, ps, p))
    ensures forall i | 0 <= i < |Place(w, ps, p)| :: Place(w, ps, p)[i] == p || Place(w, ps, p)[i] in ps
  {
    if ps == [] {
    } else if NotAfter(w, ps[|ps| - 1], p) {
      forall i | 0 <= i < |ps|
        ensures NotAfter(w, ps[i], p)
      {
        ComparesConsistently(w, ps[i], ps[|ps| - 1], p);
      }
    } else {
      var init, last := ps[..|ps| - 1], ps[|ps| - 1];
      PlaceKeepsOrder(w, init, p);
      ComparesConsistently(w, p, last, last);
      forall i | 0 <= i < |Place(w, init, p)|
        ensures NotAfter(w, Place(w, init, p)[i], last)
      {
        if Place(w, init, p)[i] != p {
          var k :| 0 <= k < |init| && init[k] == Place(w, init, p)[i];
        }
      }
    }
  }

  lemma {:induction false} SortsForAuto(w: World, ps: seq<Path>)
    ensures InOrder(w, SortForAuto(w, ps)) && multiset(SortForAuto(w, ps)) == multiset(ps)
  {
    if ps != [] {
      var init, last := ps[..|ps| - 1], ps[|ps| - 1];
      SortsForAuto(w, init);
      PlaceKeepsOrder(w, SortForAuto(w, init), last);
      PlaceAdds(w, SortForAuto(w, init), last);
      assert ps == init + [last];
    }
  }

  predicate Precedes(ps: seq<Path>, a: Path, b: Path) {
    exists k, l :: 0 <= k < l < |ps| && ps[k] == a && ps[l] == b
  }

  /** Nodes that compare alike stay as the scan listed them. */
  predicate KeepsTies(w: World, ps: seq<Path>, out: seq<Path>) {
    forall i, j | 0 <= i < j < |out| && Compare(w, out[i], out[j]).Same? :: Precedes(ps, out[i], out[j])
  }

  lemma PrecedesStill(ps: seq<Path>, p: Path, a: Path, b: Path)
    requires Precedes(ps, a, b) || (a in ps && b == p)
    ensures Precedes(ps + [p], a, b)
  {
    var longer := ps + [p];
    if Precedes(ps, a, b) {
      var k, l :| 0 <= k < l < |ps| && ps[k] == a && ps[l] == b;
      assert longer[k] == a && longer[l] == b;
    } else {
      var k :| 0 <= k < |ps| && ps[k] == a;
      assert longer[k] == a && longer[|ps|] == b;
    }
  }

  lemma {:induction false} PlaceKeepsTies(w: World, ps: seq<Path>, out: seq<Path>, p: Path)
    requires InOrder(w, out) && KeepsTies(w, ps, out) && forall q | q in out :: q in ps
    ensures KeepsTies(w, ps + [p], Place(w, out, p))
    decreases |out|
  {
    var placed := Place(w, out, p);
    if out == [] {
    } else if NotAfter(w, out[|out| - 1], p) {
      forall i, j | 0 <= i < j < |placed| && Compare(w, placed[i], placed[j]).Same?
        ensures Precedes(ps + [p], placed[i], placed[j])
      {
        PrecedesStill(ps, p, placed[i], placed[j]);
      }
    } else {
      var init, last := out[..|out| - 1], out[|out| - 1];
      PlaceKeepsTies(w, ps, init, p);
      PlaceKeepsOrder(w, init, p);
      forall i | 0 <= i < |placed| - 1 && Compare(w, placed[i], last).Same?
        ensures Precedes(ps + [p], placed[i], last)
      {
        assert placed[i] == Place(w, init, p)[i] && placed[i] != p;
        var k :| 0 <= k < |init| && init[k] == placed[i];
        assert out[k] == placed[i];
        PrecedesStill(ps, p, placed[i], last);
      }
    }
  }

  lemma SortedAreThose(w: World, ps: seq<Path>)
    ensures forall q | q in SortForAuto(w, ps) :: q in ps
  {
    SortsForAuto(w, ps);
    forall q | q in SortForAuto(w, ps)
      ensures q in ps
    {
      assert q in multiset(SortForAuto(w, ps));
    }
  }

  lemma OneMoreKeepsTies(w: World, ps: seq<Path>, p: Path)
    requires KeepsTies(w, ps, SortForAuto(w, ps))
    ensures KeepsTies(w, ps + [p], Place(w, SortForAuto(w, ps), p))
  {
    SortsForAuto(w, ps);
    SortedAreThose(w, ps);
    PlaceKeepsTies(w, ps, SortForAuto(w, ps), p);
  }

  lemma {:induction false} SortKeepsTies(w: World, ps: seq<Path>)
    ensures KeepsTies(w, ps, SortForAuto(w, ps))
  {
    if ps != [] {
      var init, last := ps[..|ps| - 1], ps[|ps| - 1];
      SortKeepsTies(w, init);
      OneMoreKeepsTies(w, init, last);
      assert ps == init + [last];
    }
  }

  // ------------------------------------------------------------ what happened

  /** How a run ends for the scheduler. `landed`: what it published is in the tree
      that the next scan reads. `refused`: it reported an error. */
  datatype Ending = Ending(attempt: Attempt, landed: bool, refused: bool)

  datatype Event = Start(path: Path) | Finish(path: Path, ending: Ending)

  datatype Trace = Nothing | Then(before: Trace, event: Event)

  datatype State = State(world: World, skip: set<Path>, inFlight: set<Path>)

  /** A plan that was written is part of the setting from then on. */
  function SettingAfter(s: Setting, a: Attempt): Setting {
    if a.conflict then s else s.(plan := PlanAfter(a, s))
  }

  function Recording(w: World, p: Path, a: Attempt): World {
    if p in w.dirs && p in w.settings then
      w.(dirs := w.dirs[p := Recorded(w.dirs[p], a, w.settings[p])],
         settings := w.settings[p := SettingAfter(w.settings[p], a)])
    else w
  }

  function Ended(w: World, p: Path, e: Ending): World {
    if e.landed then Recording(w, p, e.attempt) else w
  }

  function StateAfter(start: World, trace: Trace): State {
    match trace
    case Nothing => State(start, {}, {})
    case Then(t, Start(p)) =>
      var s := StateAfter(start, t);
      s.(inFlight := s.inFlight + {p})
    case Then(t, Finish(p, e)) =>
      var s := StateAfter(start, t);
      State(Ended(s.world, p, e), if e.refused then s.skip + {p} else s.skip, s.inFlight - {p})
  }

  /** What a scan offers: waiting, not given up on, not running already. */
  predicate IsCandidate(w: World, skip: set<Path>, inFlight: set<Path>, p: Path) {
    IsWaiting(w, p) && p !in skip && p !in inFlight
  }

  predicate Offers(s: State, p: Path) {
    IsCandidate(s.world, s.skip, s.inFlight, p)
  }

  /** The best of the candidates. */
  predicate IsNext(s: State, p: Path) {
    Offers(s, p) && forall q | q in s.world.dirs && Offers(s, q) :: NotAfter(s.world, p, q)
  }

  /** No slot is free, or nothing is left to start. */
  predicate IsFilled(s: State, limit: nat) {
    |s.inFlight| >= limit || forall q | q in s.world.dirs :: !Offers(s, q)
  }

  /** The traces of the scheduler: it starts the best candidate as long as a slot is
      free, and only then waits for any of its runs to end, in any way. */
  predicate Legal(start: World, trace: Trace, limit: nat) {
    match trace
    case Nothing => true
    case Then(t, Start(p)) =>
      Legal(start, t, limit) && |StateAfter(start, t).inFlight| < limit && IsNext(StateAfter(start, t), p)
    case Then(t, Finish(p, _)) =>
      Legal(start, t, limit) && IsFilled(StateAfter(start, t), limit) && p in StateAfter(start, t).inFlight
  }

  function Starts(trace: Trace): multiset<Path> {
    match trace
    case Nothing => multiset{}
    case Then(t, Start(p)) => Starts(t) + multiset{p}
    case Then(t, Finish(_, _)) => Starts(t)
  }

  function Endings(trace: Trace): seq<Ending> {
    match trace
    case Nothing => []
    case Then(t, Start(_)) => Endings(t)
    case Then(t, Finish(_, e)) => Endings(t) + [e]
  }

  datatype AutoResult = Ran(path: Path) | Refused(path: Path)

  function ResultOfRun(p: Path, e: Ending): AutoResult {
    if e.refused then Refused(p) else Ran(p)
  }

  function Results(trace: Trace): seq<AutoResult> {
    match trace
    case Nothing => []
    case Then(t, Start(_)) => Results(t)
    case Then(t, Finish(p, e)) => Results(t) + [ResultOfRun(p, e)]
  }

  function Finished(trace: Trace): multiset<Path> {
    match trace
    case Nothing => multiset{}
    case Then(t, Start(_)) => Finished(t)
    case Then(t, Finish(p, _)) => Finished(t) + multiset{p}
  }

  lemma OneMoreInSet(s: set<Path>, p: Path)
    requires p !in s
    ensures multiset(s + {p}) == multiset(s) + multiset{p}
  {
  }

  /** In a legal trace whatever was started has ended or is in flight, no node twice
      at once, never more than `limit`, and none that was given up on. */
  lemma {:induction false} NothingIsForgotten(start: World, trace: Trace, limit: nat)
    requires Legal(start, trace, limit)
    ensures var s := StateAfter(start, trace);
            && Starts(trace) == Finished(trace) + multiset(s.inFlight)
            && |s.inFlight| <= limit && s.inFlight !! s.skip
  {
    match trace {
      case Nothing =>
      case Then(t, Start(p)) =>
        NothingIsForgotten(start, t, limit);
        OneMoreInSet(StateAfter(start, t).inFlight, p);
      case Then(t, Finish(p, _)) =>
        NothingIsForgotten(start, t, limit);
        var before := StateAfter(start, t).inFlight;
        OneMoreInSet(before - {p}, p);
        assert before - {p} + {p} == before;
    }
  }

  /** Given up on is exactly what ended with an error. */
  lemma {:induction false} SkippedWasRefused(start: World, trace: Trace, p: Path)
    ensures p in StateAfter(start, trace).skip <==> Refused(p) in Results(trace)
  {
    match trace {
      case Nothing =>
      case Then(t, Start(_)) =>
        SkippedWasRefused(start, t, p);
      case Then(t, Finish(_, _)) =>
        SkippedWasRefused(start, t, p);
    }
  }

  predicate ResultsOf(results: seq<AutoResult>, endings: seq<Ending>) {
    |results| == |endings| && forall i | 0 <= i < |results| :: results[i].Refused? <==> endings[i].refused
  }

  /** Every ending gives one result. */
  lemma {:induction false} OneResultEach(trace: Trace)
    ensures ResultsOf(Results(trace), Endings(trace)) && |Endings(trace)| == |Finished(trace)|
  {
    match trace {
      case Nothing =>
      case Then(t, _) =>
        OneResultEach(t);
    }
  }

  // ------------------------------------------------------------ implementation

  ghost predicate IsScan(w: World, nodes: seq<Path>) {
    (set p | p in nodes) == w.dirs.Keys && Distinct(nodes)
  }

  predicate Distinct(ps: seq<Path>) {
    forall i, j | 0 <= i < j < |ps| :: ps[i] != ps[j]
  }

  lemma {:induction false} PlaceKeepsDistinct(w: World, ps: seq<Path>, p: Path)
    requires Distinct(ps) && p !in ps
    ensures Distinct(Place(w, ps, p)) && forall q :: q in Place(w, ps, p) <==> q == p || q in ps
  {
    if ps != [] && !NotAfter(w, ps[|ps| - 1], p) {
      var init, last := ps[..|ps| - 1], ps[|ps| - 1];
      assert ps == init + [last];
      PlaceKeepsDistinct(w, init, p);
      forall i | 0 <= i < |Place(w, init, p)|
        ensures Place(w, init, p)[i] != last
      {
        assert Place(w, init, p)[i] in Place(w, init, p);
      }
    }
  }

  lemma {:induction false} SortKeepsDistinct(w: World, ps: seq<Path>)
    requires Distinct(ps)
    ensures Distinct(SortForAuto(w, ps)) && forall q :: q in SortForAuto(w, ps) <==> q in ps
  {
    if ps != [] {
      var init, last := ps[..|ps| - 1], ps[|ps| - 1];
      SortKeepsDistinct(w, init);
      PlaceKeepsDistinct(w, SortForAuto(w, init), last);
      assert ps == init + [last];
    }
  }

  /** The candidates of a scan in the order in which they are to be started. */
  method Candidates(w: World, nodes: seq<Path>, skip: set<Path>, inFlight: set<Path>) returns (ps: seq<Path>)
    requires IsScan(w, nodes)
    ensures Distinct(ps) && InOrder(w, ps)
    ensures forall p :: p in ps <==> IsCandidate(w, skip, inFlight, p)
  {
    var waiting: seq<Path> := [];
    for i := 0 to |nodes|
      invariant Distinct(waiting)
      invariant forall p :: p in waiting <==> p in nodes[..i] && IsCandidate(w, skip, inFlight, p)
    {
      assert nodes[..i + 1] == nodes[..i] + [nodes[i]];
      if IsCandidate(w, skip, inFlight, nodes[i]) {
        assert nodes[i] !in nodes[..i];
        waiting := waiting + [nodes[i]];
      }
    }
    assert nodes[..|nodes|] == nodes;
    SortsForAuto(w, waiting);
    SortKeepsDistinct(w, waiting);
    ps := SortForAuto(w, waiting);
  }

  /** A run is started in a thread of its own. */
  method StartOne(start: World, p: Path, inFlight: set<Path>, limit: nat, ghost trace: Trace)
    returns (inFlight': set<Path>, ghost trace': Trace)
    requires Legal(start, trace, limit) && StateAfter(start, trace).inFlight == inFlight && |inFlight| < limit
    requires IsNext(StateAfter(start, trace), p)
    ensures trace' == Then(trace, Start(p)) && Legal(start, trace', limit)
    ensures inFlight' == inFlight + {p} && |inFlight'| == |inFlight| + 1
  {
    inFlight', trace' := inFlight + {p}, Then(trace, Start(p));
  }

  /** `ps` lists what the scan offers, best first. */
  ghost predicate Lists(s: State, ps: seq<Path>) {
    Distinct(ps) && InOrder(s.world, ps) && forall p :: p in ps <==> Offers(s, p)
  }

  lemma FirstIsNext(s: State, ps: seq<Path>)
    requires Lists(s, ps) && ps != []
    ensures IsNext(s, ps[0]) && Lists(s.(inFlight := s.inFlight + {ps[0]}), ps[1..])
  {
    var s' := s.(inFlight := s.inFlight + {ps[0]});
    assert ps[0] in ps;
    forall q | Offers(s, q)
      ensures NotAfter(s.world, ps[0], q)
    {
      assert q in ps;
      ComparesConsistently(s.world, q, q, q);
    }
    forall p
      ensures p in ps[1..] <==> Offers(s', p)
    {
      assert ps == [ps[0]] + ps[1..];
      assert p in ps <==> p == ps[0] || p in ps[1..];
      assert ps[0] !in ps[1..];
    }
  }

  lemma OneFurther<T>(s: seq<T>, i: nat)
    requires i < |s|
    ensures s[..i + 1] == s[..i] + [s[i]] && s[i..] == [s[i]] + s[i + 1..] && s[i..][1..] == s[i + 1..]
  {
  }

  method StartAll(start: World, ps: seq<Path>, n: nat, s: State, limit: nat, ghost trace: Trace)
    returns (inFlight': set<Path>, ghost trace': Trace)
    requires Legal(start, trace, limit) && StateAfter(start, trace) == s
    requires Lists(s, ps) && n <= |ps| && |s.inFlight| + n <= limit
    ensures Legal(start, trace', limit) && Results(trace') == Results(trace) && Endings(trace') == Endings(trace)
    ensures StateAfter(start, trace') == s.(inFlight := inFlight')
    ensures |inFlight'| == |s.inFlight| + n && Lists(s.(inFlight := inFlight'), ps[n..])
    ensures forall p :: p in inFlight' <==> p in s.inFlight || p in ps[..n]
  {
    inFlight', trace' := s.inFlight, trace;
    for i := 0 to n
      invariant Legal(start, trace', limit) && Results(trace') == Results(trace) && Endings(trace') == Endings(trace)
      invariant StateAfter(start, trace') == s.(inFlight := inFlight')
      invariant |inFlight'| == |s.inFlight| + i && Lists(s.(inFlight := inFlight'), ps[i..])
      invariant forall p :: p in inFlight' <==> p in s.inFlight || p in ps[..i]
    {
      FirstIsNext(s.(inFlight := inFlight'), ps[i..]);
      OneFurther(ps, i);
      inFlight', trace' := StartOne(start, ps[i], inFlight', limit, trace');
    }
  }

  lemma FirstAreBest(w: World, ps: seq<Path>, n: nat, p: Path, q: Path)
    requires InOrder(w, ps) && n <= |ps| && p in ps[..n] && q in ps[n..]
    ensures NotAfter(w, p, q)
  {
    var i :| 0 <= i < n && ps[..n][i] == p;
    var j :| 0 <= j < |ps| - n && ps[n..][j] == q;
    assert ps[i] == p && ps[n + j] == q;
  }

  /** Fills the free slots, best candidates first. */
  method FillSlots(start: World, nodes: seq<Path>, s: State, limit: nat, ghost trace: Trace)
    returns (inFlight': set<Path>, ghost trace': Trace)
    requires Legal(start, trace, limit) && StateAfter(start, trace) == s && IsScan(s.world, nodes)
    ensures Legal(start, trace', limit) && Results(trace') == Results(trace) && Endings(trace') == Endings(trace)
    ensures StateAfter(start, trace') == s.(inFlight := inFlight') && IsFilled(s.(inFlight := inFlight'), limit)
    ensures s.inFlight <= inFlight' && |inFlight'| <= limit
    ensures forall p | p in inFlight' - s.inFlight :: IsWaiting(s.world, p) && p !in s.skip
    ensures |inFlight'| >= limit || forall p | IsWaiting(s.world, p) :: p in inFlight' || p in s.skip
    ensures forall p, q | p in inFlight' - s.inFlight && IsCandidate(s.world, s.skip, inFlight', q) ::
              NotAfter(s.world, p, q)
  {
    var ps := Candidates(s.world, nodes, s.skip, s.inFlight);
    NothingIsForgotten(start, trace, limit);
    var free := limit - |s.inFlight|;
    var n := if |ps| < free then |ps| else free;
    inFlight', trace' := StartAll(start, ps, n, s, limit, trace);
    FilledByBest(s, ps, n, limit, inFlight');
  }

  lemma FilledByBest(s: State, ps: seq<Path>, n: nat, limit: nat, inFlight': set<Path>)
    requires Lists(s, ps) && n <= |ps| && Lists(s.(inFlight := inFlight'), ps[n..])
    requires forall p :: p in inFlight' <==> p in s.inFlight || p in ps[..n]
    requires n == |ps| || |inFlight'| >= limit
    ensures IsFilled(s.(inFlight := inFlight'), limit)
    ensures forall p | p in inFlight' - s.inFlight :: IsWaiting(s.world, p) && p !in s.skip
    ensures |inFlight'| >= limit || forall p | IsWaiting(s.world, p) :: p in inFlight' || p in s.skip
    ensures forall p, q | p in inFlight' - s.inFlight && IsCandidate(s.world, s.skip, inFlight', q) ::
              NotAfter(s.world, p, q)
  {
    var s' := s.(inFlight := inFlight');
    forall p | p in inFlight' - s.inFlight
      ensures IsWaiting(s.world, p) && p !in s.skip
    {
      assert p in ps && Offers(s, p);
    }
    forall p, q | p in inFlight' - s.inFlight && IsCandidate(s.world, s.skip, inFlight', q)
      ensures NotAfter(s.world, p, q)
    {
      assert Offers(s', q);
      FirstAreBest(s.world, ps, n, p, q);
    }
    if n == |ps| {
      assert ps[n..] == [];
      forall p
        ensures !Offers(s', p) && (IsWaiting(s.world, p) ==> p in inFlight' || p in s.skip)
      {
        assert p !in ps[n..];
      }
    }
  }

  lemma EndedKeepsScan(w: World, nodes: seq<Path>, p: Path, e: Ending)
    requires IsScan(w, nodes)
    ensures IsScan(Ended(w, p, e), nodes)
  {
    assert Ended(w, p, e).dirs.Keys == w.dirs.Keys;
  }

  /** How many runs may be in flight. */
  function Limit(concurrency: nat): (n: nat)
    ensures 1 <= n
  {
    if concurrency == 0 then 1 else concurrency
  }

  /** A concurrency of none counts as one. */
  lemma LimitIs(concurrency: nat)
    ensures Limit(0) == Limit(1) == 1 && (concurrency > 0 ==> Limit(concurrency) == concurrency)
  {
  }

  /** Nothing is in flight and nothing is left to start. */
  ghost predicate IsDone(s: State) {
    s.inFlight == {} && forall p :: !Offers(s, p)
  }

  /** One pass of the scheduler. `endings` is how the runs end, one after the other;
      any of the runs in flight may be the one that ends next. */
  method RunAuto(start: World, nodes: seq<Path>, concurrency: nat, endings: seq<Ending>)
    returns (results: seq<AutoResult>, done: bool, ghost trace: Trace)
    requires IsScan(start, nodes)
    ensures Legal(start, trace, Limit(concurrency)) && results == Results(trace)
    ensures |results| <= |endings| && ResultsOf(results, endings[..|results|]) && (!done ==> |results| == |endings|)
    ensures Endings(trace) <= endings
    ensures if done then IsDone(StateAfter(start, trace))
            else Endings(trace) == endings && StateAfter(start, trace).inFlight != {}
    ensures done ==> Starts(trace) == Finished(trace)
    ensures done ==> forall p | IsWaiting(StateAfter(start, trace).world, p) :: Refused(p) in results
  {
    var limit := Limit(concurrency);
    var w, skip: set<Path>, inFlight: set<Path> := start, {}, {};
    results, trace := [], Nothing;
    var k := 0;
    while true
      invariant k <= |endings|
      invariant Legal(start, trace, limit) && StateAfter(start, trace) == State(w, skip, inFlight)
      invariant IsScan(w, nodes) && results == Results(trace) && Endings(trace) == endings[..k]
      decreases |endings| - k
    {
      inFlight, trace := FillSlots(start, nodes, State(w, skip, inFlight), limit, trace);
      OneResultEach(trace);
      if inFlight == {} {
        NothingLeft(start, trace, limit);
        return results, true, trace;
      }
      if k == |endings| {
        return results, false, trace;
      }
      var p: Path :| p in inFlight;
      var e := endings[k];
      OneFurther(endings, k);
      EndedKeepsScan(w, nodes, p, e);
      inFlight, trace := inFlight - {p}, Then(trace, Finish(p, e));
      w, results, k := Ended(w, p, e), results + [ResultOfRun(p, e)], k + 1;
      if e.refused {
        skip := skip + {p};
      }
    }
  }

  lemma NothingLeft(start: World, trace: Trace, limit: nat)
    requires Legal(start, trace, limit) && limit > 0
    requires StateAfter(start, trace).inFlight == {} && IsFilled(StateAfter(start, trace), limit)
    ensures IsDone(StateAfter(start, trace)) && Starts(trace) == Finished(trace)
    ensures forall p | IsWaiting(StateAfter(start, trace).world, p) :: Refused(p) in Results(trace)
  {
    var s := StateAfter(start, trace);
    NothingIsForgotten(start, trace, limit);
    forall p
      ensures !Offers(s, p) && (IsWaiting(s.world, p) ==> Refused(p) in Results(trace))
    {
      assert Offers(s, p) ==> p in s.world.dirs;
      SkippedWasRefused(start, trace, p);
    }
  }
}
