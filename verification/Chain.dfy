/** The version chain of one node: the numbered files of its attempts and audits,
    the state read off them, and the retry accounting. */
module Chain {
  import opened Common
  import opened Plans
  import opened States

  /** The `result` of a run file; one that cannot be read counts as a failure. */
  datatype RunResult = Success | ExecutionFailure | Lifecycle | Unreadable

  datatype Dir = Dir(
    runs: map<nat, RunResult>,
    facts: set<nat>,
    pending: set<nat>,
    verdicts: map<nat, bool>,
    questions: set<nat>,
    answers: set<nat>,
    unresolvable: bool)

  const EMPTY := Dir(map[], {}, {}, map[], {}, {}, false)

  predicate IsFailure(r: RunResult) {
    r.ExecutionFailure? || r.Unreadable?
  }

  predicate IsMax(s: set<nat>, m: nat) {
    m in s && forall n | n in s :: n <= m
  }

  lemma {:induction false} HasMax(s: set<nat>)
    requires s != {}
    ensures exists m: nat :: IsMax(s, m)
  {
    var n :| n in s;
    var rest := s - {n};
    assert forall x | x in s :: x == n || x in rest;
    if rest == {} {
      assert IsMax(s, n);
    } else {
      HasMax(rest);
      var m: nat :| IsMax(rest, m);
      assert IsMax(s, if n < m then m else n);
    }
  }

  /** The largest number of a kind of file, 0 when there is none. */
  function Latest(s: set<nat>): (m: nat)
    ensures s != {} ==> IsMax(s, m)
    ensures s == {} ==> m == 0
  {
    if s == {} then 0 else
      HasMax(s);
      var m: nat :| IsMax(s, m);
      m
  }

  lemma LatestIs(s: set<nat>, m: nat)
    requires IsMax(s, m)
    ensures Latest(s) == m
  {
  }

  /** Numbers come from counting the run files. */
  function NextRun(d: Dir): nat {
    |d.runs| + 1
  }

  // -------------------------------------------------------------- derived state

  datatype FactState = NoFact | PendingAudit | Resolved

  /** Only the latest fact decides. */
  function AcceptedState(d: Dir): FactState {
    var n := Latest(d.facts);
    if n == 0 then NoFact
    else if n !in d.pending then FactState.Resolved
    else if n !in d.verdicts then FactState.PendingAudit
    else if d.verdicts[n] then FactState.Resolved
    else NoFact
  }

  function AcceptedFact(d: Dir): nat {
    if AcceptedState(d).Resolved? then Latest(d.facts) else 0
  }

  function FailuresIn(runs: map<nat, RunResult>, since: nat): set<nat> {
    set n | n in runs && n > since && IsFailure(runs[n])
  }

  function FailuresAfter(d: Dir, since: nat): set<nat> {
    FailuresIn(d.runs, since)
  }

  function FailedStreak(d: Dir): nat {
    |FailuresAfter(d, AcceptedFact(d))|
  }

  /** The cycle without a verdict on the latest pending audit, 0 when there is none. */
  function OpenAudit(d: Dir): nat {
    if Latest(d.pending) in d.verdicts then 0 else Latest(d.pending)
  }

  /** Verdicts in a row that rejected, from the latest number down; numbers
      without a verdict are passed over. */
  function RejectedFrom(d: Dir, n: nat): nat {
    if n == 0 then 0
    else if n !in d.verdicts then RejectedFrom(d, n - 1)
    else if d.verdicts[n] then 0
    else 1 + RejectedFrom(d, n - 1)
  }

  function AuditFailedStreak(d: Dir): nat {
    RejectedFrom(d, Latest(d.verdicts.Keys))
  }

  /** What else the state of a node depends on. */
  datatype Setting = Setting(
    openDecision: bool, running: bool, plan: Option<Plan>, children: bool, agent: bool, human: bool,
    agentRetryMax: nat, engineerRetryMax: nat, otherTrigger: bool)

  function Hold(s: Setting): Stage {
    StageOf(s.plan, s.children)
  }

  function DetectState(d: Dir, s: Setting): TaskState {
    if AcceptedState(d).PendingAudit? then TaskState.PendingAudit
    else if AcceptedState(d).Resolved? then TaskState.Resolved
    else if s.openDecision then AwaitingDecision
    else if d.unresolvable then Unresolvable
    else if s.running then Running
    else if Hold(s).Review? then PlanReview
    else if Hold(s).Children? then Spawned
    else if s.agent then (if FailedStreak(d) >= s.agentRetryMax then Failed else Waiting)
    else if s.human then Pending
    else Unassigned
  }

  predicate IsUnresolvable(d: Dir, s: Setting) {
    FailedStreak(d) >= s.agentRetryMax + s.engineerRetryMax || s.otherTrigger
  }

  // ---------------------------------------------------------------------- steps

  /** How an attempt goes when its executor is called. `plan`: the decision of a new
      plan it wrote. `checkPasses`: the signal for its fact was accepted.
      `conflict`: its publication ended in a merge conflict,
      so that only a failed run file reaches the others. */
  datatype Attempt = Attempt(
    plan: Option<Decision>, killed: bool, wroteFact: bool, checkPasses: bool, auditRequired: bool, conflict: bool)

  /** Only a node that is neither resolved nor under audit is attempted. */
  predicate Gate(d: Dir) {
    AcceptedState(d).NoFact?
  }

  /** With a composite plan there from the start no executor is called. */
  predicate CallsExecutor(s: Setting) {
    !RunsAsComposite(s.plan)
  }

  function PlanAfter(a: Attempt, s: Setting): Option<Plan> {
    if CallsExecutor(s) && a.plan.Some? then Some(NewPlan(a.plan.value)) else s.plan
  }

  predicate Decomposed(a: Attempt, s: Setting) {
    RunsAsComposite(PlanAfter(a, s))
  }

  predicate WroteFact(a: Attempt, s: Setting) {
    CallsExecutor(s) && a.wroteFact
  }

  predicate Succeeds(a: Attempt, s: Setting) {
    !Decomposed(a, s) && !a.killed && WroteFact(a, s) && a.checkPasses
  }

  /** A fact whose check failed is taken back; no other fact is. */
  predicate KeepsFact(a: Attempt, s: Setting) {
    WroteFact(a, s) && (Decomposed(a, s) || a.killed || a.checkPasses)
  }

  function ResultOf(a: Attempt, s: Setting): RunResult {
    if Decomposed(a, s) then Lifecycle else if Succeeds(a, s) then Success else ExecutionFailure
  }

  function Marked(d: Dir, s: Setting): Dir {
    if IsUnresolvable(d, s) then d.(unresolvable := true) else d
  }

  function Written(d: Dir, a: Attempt, s: Setting): Dir {
    var n := NextRun(d);
    d.(runs := d.runs[n := ResultOf(a, s)],
       facts := if KeepsFact(a, s) then d.facts + {n} else d.facts,
       pending := if Succeeds(a, s) && a.auditRequired then d.pending + {n} else d.pending)
  }

  /** The files an attempt adds. */
  function Recorded(d: Dir, a: Attempt, s: Setting): Dir {
    if a.conflict then d.(runs := d.runs[NextRun(d) := ExecutionFailure]) else Marked(Written(d, a, s), s)
  }

  /** The result the others see. */
  function Published(a: Attempt, s: Setting): RunResult {
    if a.conflict then ExecutionFailure else ResultOf(a, s)
  }

  datatype Step =
    | Try(attempt: Attempt, setting: Setting)
    | Verdict(success: bool)
    | Ask
    | Answer
    | Invalidate

  function After(d: Dir, step: Step): Dir {
    match step
    case Try(a, s) => if Gate(d) then Recorded(d, a, s) else d
    case Verdict(ok) => if OpenAudit(d) == 0 then d else d.(verdicts := d.verdicts[OpenAudit(d) := ok])
    case Ask =>
      if OpenAudit(d) == 0 || OpenAudit(d) in d.questions then d
      else d.(questions := d.questions + {OpenAudit(d)})
    case Answer =>
      if OpenAudit(d) == 0 || OpenAudit(d) !in d.questions || OpenAudit(d) in d.answers then d
      else d.(answers := d.answers + {OpenAudit(d)})
    case Invalidate => EMPTY
  }

  function AfterAll(d: Dir, steps: seq<Step>): Dir {
    if steps == [] then d else After(AfterAll(d, steps[..|steps| - 1]), steps[|steps| - 1])
  }

  // ------------------------------------------------------------------ invariant

  ghost predicate OneTo(runs: map<nat, RunResult>) {
    forall n :: n in runs <==> 1 <= n <= |runs|
  }

  /** Run numbers are exactly 1..count; audits belong to facts, facts to runs. */
  ghost predicate Numbered(d: Dir) {
    && OneTo(d.runs)
    && d.facts <= d.runs.Keys && d.pending <= d.facts && d.verdicts.Keys <= d.pending
    && d.answers <= d.questions <= d.pending
  }

  /** Every fact but the latest was rejected. */
  predicate OnlyLatestOpen(d: Dir) {
    forall f | f in d.facts && f < Latest(d.facts) :: f in d.verdicts && !d.verdicts[f]
  }

  ghost predicate ChainInv(d: Dir) {
    Numbered(d) && OnlyLatestOpen(d)
  }

  lemma CountOneMore(runs: map<nat, RunResult>, n: nat, r: RunResult)
    requires n !in runs
    ensures |runs[n := r]| == |runs| + 1
  {
    assert runs[n := r].Keys == runs.Keys + {n};
  }

  lemma NewRunKeepsNumbers(d: Dir, r: RunResult)
    requires Numbered(d)
    ensures NextRun(d) !in d.runs
    ensures |d.runs[NextRun(d) := r]| == NextRun(d)
    ensures OneTo(d.runs[NextRun(d) := r])
  {
    CountOneMore(d.runs, NextRun(d), r);
  }

  lemma TryKeepsNumbers(d: Dir, a: Attempt, s: Setting)
    requires Numbered(d)
    ensures Numbered(Recorded(d, a, s))
  {
    var d' := Recorded(d, a, s);
    NewRunKeepsNumbers(d, Published(a, s));
    assert d'.runs == d.runs[NextRun(d) := Published(a, s)] && d'.facts <= d.facts + {NextRun(d)};
    assert d'.pending <= d'.facts;
  }

  lemma AllRejectedAtGate(d: Dir, f: nat)
    requires ChainInv(d) && Gate(d) && f in d.facts
    ensures f in d.verdicts && !d.verdicts[f] && f < NextRun(d)
  {
    assert f in d.runs;
  }

  lemma TryKeeps(d: Dir, a: Attempt, s: Setting)
    requires ChainInv(d) && Gate(d)
    ensures ChainInv(Recorded(d, a, s))
  {
    TryKeepsNumbers(d, a, s);
    var d' := Recorded(d, a, s);
    forall f | f in d'.facts && f < Latest(d'.facts)
      ensures f in d'.verdicts && !d'.verdicts[f]
    {
      if f in d.facts {
        AllRejectedAtGate(d, f);
      } else {
        NewFactIsLatest(d, d'.facts);
      }
    }
  }

  lemma NewFactIsLatest(d: Dir, facts: set<nat>)
    requires Numbered(d) && facts == d.facts + {NextRun(d)}
    ensures Latest(facts) == NextRun(d)
  {
    assert forall f | f in d.facts :: f in d.runs;
    LatestIs(facts, NextRun(d));
  }

  lemma OpenAuditIsLatestFact(d: Dir)
    requires ChainInv(d) && OpenAudit(d) != 0
    ensures OpenAudit(d) == Latest(d.facts) && OpenAudit(d) in d.pending
  {
  }

  lemma StepKeeps(d: Dir, step: Step)
    requires ChainInv(d)
    ensures ChainInv(After(d, step))
  {
    match step {
      case Try(a, s) =>
        if Gate(d) {
          TryKeeps(d, a, s);
        }
      case Invalidate =>
      case _ =>
        if OpenAudit(d) != 0 {
          OpenAuditIsLatestFact(d);
        }
    }
  }

  /** Over any run from an empty chain: numbers without gaps, audits on facts. */
  lemma {:induction false} RunKeeps(steps: seq<Step>)
    ensures ChainInv(AfterAll(EMPTY, steps))
  {
    if steps != [] {
      RunKeeps(steps[..|steps| - 1]);
      StepKeeps(AfterAll(EMPTY, steps[..|steps| - 1]), steps[|steps| - 1]);
    }
  }

  // ----------------------------------------------------------- retry accounting

  /** Failed attempts since the chain was last invalidated. */
  function FailuresSince(steps: seq<Step>): nat {
    if steps == [] then 0 else
      var init := steps[..|steps| - 1];
      var last := steps[|steps| - 1];
      if last.Invalidate? then 0
      else FailuresSince(init) + if CountsAsFailure(AfterAll(EMPTY, init), last) then 1 else 0
  }

  lemma RecordedFailures(d: Dir, a: Attempt, s: Setting)
    requires Numbered(d)
    ensures FailuresAfter(Recorded(d, a, s), 0) ==
            if IsFailure(Published(a, s)) then FailuresAfter(d, 0) + {NextRun(d)} else FailuresAfter(d, 0)
    ensures NextRun(d) !in FailuresAfter(d, 0)
  {
    NewRunKeepsNumbers(d, Published(a, s));
    var d' := Recorded(d, a, s);
    assert d'.runs == d.runs[NextRun(d) := Published(a, s)];
  }

  predicate CountsAsFailure(d: Dir, step: Step) {
    step.Try? && Gate(d) && IsFailure(Published(step.attempt, step.setting))
  }

  lemma FailuresAfterStep(d: Dir, step: Step)
    requires Numbered(d)
    ensures |FailuresAfter(After(d, step), 0)| ==
            if step.Invalidate? then 0 else |FailuresAfter(d, 0)| + if CountsAsFailure(d, step) then 1 else 0
  {
    match step {
      case Try(a, s) =>
        RecordedFailures(d, a, s);
      case Invalidate =>
        assert FailuresAfter(EMPTY, 0) == {};
      case _ =>
        assert FailuresAfter(After(d, step), 0) == FailuresAfter(d, 0);
    }
  }

  lemma {:induction false} AllFailuresCounted(steps: seq<Step>)
    ensures |FailuresAfter(AfterAll(EMPTY, steps), 0)| == FailuresSince(steps)
  {
    if steps == [] {
      assert FailuresAfter(EMPTY, 0) == {};
    } else {
      var init := steps[..|steps| - 1];
      AllFailuresCounted(init);
      RunKeeps(init);
      FailuresAfterStep(AfterAll(EMPTY, init), steps[|steps| - 1]);
    }
  }

  /** While a node is not resolved its streak is every failure of the chain:
      rejected facts and lifecycle results never restart the ladder. */
  lemma StreakCountsAllFailures(steps: seq<Step>)
    ensures var d := AfterAll(EMPTY, steps);
            !AcceptedState(d).Resolved? ==> FailedStreak(d) == FailuresSince(steps)
  {
    AllFailuresCounted(steps);
  }

  /** The streak only goes back when a fact is accepted or the chain archived. */
  lemma StreakNeverDrops(d: Dir, step: Step)
    requires ChainInv(d) && !AcceptedState(After(d, step)).Resolved? && !step.Invalidate?
    ensures FailedStreak(d) <= FailedStreak(After(d, step))
  {
    match step {
      case Try(a, s) =>
        RecordedFailures(d, a, s);
        SmallerSinceLater(d);
      case Invalidate =>
      case _ =>
        assert FailuresAfter(After(d, step), 0) == FailuresAfter(d, 0);
        SmallerSinceLater(d);
    }
  }

  lemma SmallerSinceLater(d: Dir)
    ensures FailedStreak(d) <= |FailuresAfter(d, 0)|
  {
    SubsetSize(FailuresAfter(d, AcceptedFact(d)), FailuresAfter(d, 0));
  }

  /** Every attempt starts while the node is waiting, as the scheduler sees it. */
  predicate OnlyWhileWaiting(steps: seq<Step>, retryMax: nat) {
    steps == [] ||
    var init, step := steps[..|steps| - 1], steps[|steps| - 1];
    && OnlyWhileWaiting(init, retryMax)
    && (step.Try? ==>
          && step.setting.agentRetryMax == retryMax
          && DetectState(AfterAll(EMPTY, init), step.setting).Waiting?)
  }

  /** Waiting nodes fail at most `agent_retry_max` times before a person steps in. */
  lemma {:induction false} RetriesAreBounded(steps: seq<Step>, retryMax: nat)
    requires OnlyWhileWaiting(steps, retryMax)
    ensures FailuresSince(steps) <= retryMax
  {
    if steps != [] {
      var init, step := steps[..|steps| - 1], steps[|steps| - 1];
      RetriesAreBounded(init, retryMax);
      StreakCountsAllFailures(init);
    }
  }

  /** No trigger but the ladder of executions, and at least one engineer's rung. */
  predicate OnlyTheLadder(steps: seq<Step>) {
    forall i | 0 <= i < |steps| && steps[i].Try? ::
      !steps[i].setting.otherTrigger && steps[i].setting.engineerRetryMax >= 1
  }

  /** Attempts of waiting nodes alone never make a node unresolvable: the last
      rungs of the ladder are left to an engineer. */
  lemma {:induction false} WaitingNeverGivesUp(steps: seq<Step>, retryMax: nat)
    requires OnlyWhileWaiting(steps, retryMax) && OnlyTheLadder(steps)
    ensures !AfterAll(EMPTY, steps).unresolvable
  {
    if steps != [] {
      var init, step := steps[..|steps| - 1], steps[|steps| - 1];
      assert OnlyTheLadder(init);
      WaitingNeverGivesUp(init, retryMax);
      RetriesAreBounded(steps, retryMax);
      AllFailuresCounted(steps);
      if step.Try? {
        assert steps[|steps| - 1].Try?;
        MarkMeansExhausted(AfterAll(EMPTY, init), step.attempt, step.setting);
      } else {
        OnlyAttemptsMark(AfterAll(EMPTY, init), step);
      }
    }
  }

  lemma OnlyAttemptsMark(d: Dir, step: Step)
    requires !step.Try? && !d.unresolvable
    ensures !After(d, step).unresolvable
  {
  }

  lemma MarkMeansExhausted(d: Dir, a: Attempt, s: Setting)
    requires !d.unresolvable && !s.otherTrigger
    ensures Recorded(d, a, s).unresolvable ==>
              |FailuresAfter(Recorded(d, a, s), 0)| >= s.agentRetryMax + s.engineerRetryMax
  {
    SmallerSinceLater(Recorded(d, a, s));
  }

  lemma {:induction false} RejectedCount(d: Dir, n: nat)
    requires forall k | k in d.verdicts && 1 <= k <= n :: !d.verdicts[k]
    ensures RejectedFrom(d, n) == |VerdictsUpTo(d, n)|
  {
    if n == 0 {
      assert VerdictsUpTo(d, n) == {};
    } else {
      RejectedCount(d, n - 1);
      var fewer := VerdictsUpTo(d, n - 1);
      assert VerdictsUpTo(d, n) == if n in d.verdicts then fewer + {n} else fewer;
    }
  }

  function VerdictsUpTo(d: Dir, n: nat): set<nat> {
    set k | k in d.verdicts && 1 <= k <= n
  }

  /** Consecutive rejections while unresolved are all the rejections there are. */
  lemma AuditStreakCountsAllRejections(d: Dir)
    requires ChainInv(d) && !AcceptedState(d).Resolved?
    ensures AuditFailedStreak(d) == |d.verdicts|
  {
    var top := Latest(d.verdicts.Keys);
    forall k | k in d.verdicts
      ensures 1 <= k <= top && !d.verdicts[k]
    {
      assert k in d.runs && k in d.facts;
    }
    RejectedCount(d, top);
    assert VerdictsUpTo(d, top) == d.verdicts.Keys;
  }

  // ------------------------------------------------------- when a node resolves

  /** An attempt resolves its node exactly when the fact it wrote stays without an
      audit: also when the run was killed or decomposed after writing it. */
  lemma AttemptResolvesIff(d: Dir, a: Attempt, s: Setting)
    requires ChainInv(d) && Gate(d)
    ensures AcceptedState(Recorded(d, a, s)).Resolved? <==>
            && !a.conflict && WroteFact(a, s)
            && (Decomposed(a, s) || a.killed || (a.checkPasses && !a.auditRequired))
  {
    var n := NextRun(d);
    NewRunKeepsNumbers(d, ResultOf(a, s));
    var d' := Recorded(d, a, s);
    if !a.conflict && KeepsFact(a, s) {
      NewFactIsLatest(d, d'.facts);
    } else {
      assert d'.facts == d.facts && d'.pending == d.pending && d'.verdicts == d.verdicts;
    }
  }

  /** A resolved node whose run did not succeed: exactly the killed and decomposed
      attempts that had written their fact. */
  lemma ResolvedWithoutSuccessIff(d: Dir, a: Attempt, s: Setting)
    requires ChainInv(d) && Gate(d)
    ensures var d' := Recorded(d, a, s);
            (AcceptedState(d').Resolved? && !d'.runs[NextRun(d)].Success?) <==>
            !a.conflict && WroteFact(a, s) && (Decomposed(a, s) || a.killed)
  {
    AttemptResolvesIff(d, a, s);
  }

  /** The files an audit signal adds. */
  function AuditSignalled(d: Dir): Dir {
    var n := NextRun(d);
    d.(runs := d.runs[n := Success], facts := d.facts + {n}, pending := d.pending + {n})
  }

  /** The gate matters: opening an audit on a node that is already resolved brings
      every failure before the accepted fact back into the streak. */
  lemma UngatedAuditRecounts(d: Dir)
    requires ChainInv(d) && AcceptedState(d).Resolved?
    ensures FailedStreak(AuditSignalled(d)) == |FailuresAfter(d, 0)|
  {
    var d' := AuditSignalled(d);
    NewRunKeepsNumbers(d, Success);
    NewFactIsLatest(d, d'.facts);
    assert FailuresAfter(d', 0) == FailuresAfter(d, 0);
  }

  // ------------------------------------------------------------- implementation

  datatype Outcome =
    | Ok | UnderAudit | AlreadyResolved | NoOpenAudit | AlreadyAsked | NothingAsked | AlreadyAnswered

  /** Counts the run files as the directory lists them, in any order. */
  method CountFailures(runs: map<nat, RunResult>, since: nat) returns (count: nat)
    ensures count == |FailuresIn(runs, since)|
  {
    var left := runs.Keys;
    count := 0;
    ghost var seen: set<nat> := {};
    while left != {}
      invariant left <= runs.Keys && seen !! left && count == |seen|
      invariant forall n | n in runs && n !in left :: n in seen <==> n > since && IsFailure(runs[n])
      invariant seen <= runs.Keys
      decreases |left|
    {
      var n :| n in left;
      left := left - {n};
      if n > since && IsFailure(runs[n]) {
        count := count + 1;
        seen := seen + {n};
      }
    }
    assert seen == FailuresIn(runs, since);
  }

  /** The directory of a node, one field per kind of file. */
  class NodeDir {
    var runs: map<nat, RunResult>
    var facts: set<nat>
    var pending: set<nat>
    var verdicts: map<nat, bool>
    var questions: set<nat>
    var answers: set<nat>
    var marker: bool

    function Files(): Dir
      reads this
    {
      Dir(runs, facts, pending, verdicts, questions, answers, marker)
    }

    constructor ()
      ensures Files() == EMPTY
    {
      runs, facts, pending, verdicts, questions, answers, marker := map[], {}, {}, map[], {}, {}, false;
    }

    method CountFailedStreak() returns (count: nat)
      ensures count == FailedStreak(Files())
    {
      count := CountFailures(runs, AcceptedFact(Files()));
    }

    /** Down from the latest verdict, until one accepted. */
    method CountAuditFailedStreak() returns (streak: nat)
      ensures streak == AuditFailedStreak(Files())
    {
      streak := 0;
      var n := Latest(verdicts.Keys);
      while n > 0
        invariant streak + RejectedFrom(Files(), n) == AuditFailedStreak(Files())
      {
        if n in verdicts {
          if verdicts[n] {
            return;
          }
          streak := streak + 1;
        }
        n := n - 1;
      }
    }

    method MarkIfExhausted(s: Setting)
      modifies this`marker
      ensures Files() == Marked(old(Files()), s)
    {
      var streak := CountFailedStreak();
      if streak >= s.agentRetryMax + s.engineerRetryMax || s.otherTrigger {
        marker := true;
      }
    }

    /** One gated attempt and the files it leaves behind. */
    method Run(a: Attempt, s: Setting) returns (r: Outcome)
      requires ChainInv(Files())
      modifies this
      ensures ChainInv(Files()) && Files() == After(old(Files()), Try(a, s))
      ensures r == match AcceptedState(old(Files()))
                   case NoFact => Ok
                   case PendingAudit => UnderAudit
                   case Resolved => AlreadyResolved
    {
      StepKeeps(Files(), Try(a, s));
      match AcceptedState(Files()) {
        case PendingAudit => return UnderAudit;
        case Resolved => return AlreadyResolved;
        case NoFact =>
      }
      Record(a, s);
      return Ok;
    }

    method Record(a: Attempt, s: Setting)
      requires Numbered(Files())
      modifies this
      ensures Files() == Recorded(old(Files()), a, s)
    {
      if a.conflict {
        runs := runs[|runs| + 1 := ExecutionFailure];
      } else {
        Write(a, s);
        MarkIfExhausted(s);
      }
    }

    method Write(a: Attempt, s: Setting)
      requires Numbered(Files())
      modifies this
      ensures Files() == Written(old(Files()), a, s)
    {
      var n := |runs| + 1;
      assert n !in facts by { NewRunKeepsNumbers(Files(), Success); }
      var plan := s.plan;
      var wroteFact, killed := false, false;
      if !RunsAsComposite(s.plan) {
        wroteFact, killed := a.wroteFact, a.killed;
        if a.plan.Some? {
          plan := Some(NewPlan(a.plan.value));
        }
      }
      if wroteFact {
        facts := facts + {n};
      }
      if RunsAsComposite(plan) {
        runs := runs[n := Lifecycle];
      } else if !killed && wroteFact {
        if a.checkPasses {
          runs := runs[n := Success];
          if a.auditRequired {
            pending := pending + {n};
          }
        } else {
          facts := facts - {n};
          runs := runs[n := ExecutionFailure];
        }
      } else {
        runs := runs[n := ExecutionFailure];
      }
    }

    method Judge(success: bool) returns (r: Outcome)
      requires ChainInv(Files())
      modifies this
      ensures ChainInv(Files()) && Files() == After(old(Files()), Verdict(success))
      ensures r == if OpenAudit(old(Files())) == 0 then NoOpenAudit else Ok
    {
      StepKeeps(Files(), Verdict(success));
      var n := OpenAudit(Files());
      if n == 0 {
        return NoOpenAudit;
      }
      verdicts := verdicts[n := success];
      return Ok;
    }

    method Clarify() returns (r: Outcome)
      requires ChainInv(Files())
      modifies this
      ensures ChainInv(Files()) && Files() == After(old(Files()), Ask)
      ensures r.Ok? <==> Files() != old(Files())
      ensures r == NoOpenAudit <==> OpenAudit(old(Files())) == 0
      ensures r.Ok? || r == NoOpenAudit || r == AlreadyAsked
    {
      StepKeeps(Files(), Ask);
      var n := OpenAudit(Files());
      if n == 0 {
        return NoOpenAudit;
      }
      if n in questions {
        return AlreadyAsked;
      }
      questions := questions + {n};
      return Ok;
    }

    method Amend() returns (r: Outcome)
      requires ChainInv(Files())
      modifies this
      ensures ChainInv(Files()) && Files() == After(old(Files()), Answer)
      ensures r.Ok? <==> Files() != old(Files())
      ensures r == NoOpenAudit <==> OpenAudit(old(Files())) == 0
      ensures r == NothingAsked <==> OpenAudit(old(Files())) != 0 && OpenAudit(old(Files())) !in old(questions)
      ensures r.Ok? || r == NoOpenAudit || r == NothingAsked || r == AlreadyAnswered
    {
      StepKeeps(Files(), Answer);
      var n := OpenAudit(Files());
      if n == 0 {
        return NoOpenAudit;
      }
      if n !in questions {
        return NothingAsked;
      }
      if n in answers {
        return AlreadyAnswered;
      }
      answers := answers + {n};
      return Ok;
    }
  }
}
