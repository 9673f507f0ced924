/** What one attempt, one verdict and one clarification make of a node. */
module ChainStates {
  import opened Common
  import opened Plans
  import opened States
  import opened Chain

  /** The state a scan derives: an audit and a resolution win over everything; then come
      an open decision, the terminal marker, a run in progress and a composite plan that
      holds the node back; only then does the retry ladder decide. */
  lemma StateIff(d: Dir, s: Setting)
    ensures var state := DetectState(d, s);
            var unsettled := AcceptedState(d).NoFact?;
            var free := unsettled && !s.openDecision && !d.unresolvable;
            var idle := free && !s.running && Hold(s).NotHeld?;
            && (state.PendingAudit? <==> AcceptedState(d).PendingAudit?)
            && (state.Resolved? <==> AcceptedState(d).Resolved?)
            && (state.AwaitingDecision? <==> unsettled && s.openDecision)
            && (state.Unresolvable? <==> unsettled && !s.openDecision && d.unresolvable)
            && (state.Running? <==> free && s.running)
            && (state.PlanReview? <==> free && !s.running && Hold(s).Review?)
            && (state.Spawned? <==> free && !s.running && Hold(s).Children?)
            && (state.Waiting? <==> idle && s.agent && FailedStreak(d) < s.agentRetryMax)
            && (state.Failed? <==> idle && s.agent && FailedStreak(d) >= s.agentRetryMax)
            && (state.Pending? <==> idle && !s.agent && s.human)
            && (state.Unassigned? <==> idle && !s.agent && !s.human)
            && !state.Blocked? && !state.Stalled?
  {
  }

  /** When a plan holds its node back: the scan reads it as composite, and either nobody
      has decided on it or it is approved and has children. */
  lemma HoldIff(s: Setting)
    ensures !Hold(s).NotHeld? <==>
            s.plan.Some? && s.plan.value.decision.scan &&
            ((!s.plan.value.approved && !s.plan.value.rejected) || (s.plan.value.approved && s.children))
    ensures Hold(s).Children? <==>
            s.plan.Some? && s.plan.value.decision.scan && s.plan.value.approved && s.children
  {
  }

  /** The executor is called unless a run reads the plan as composite from the start; its
      own plan replaces the old one and is not decided on. */
  lemma PlanBehindIff(a: Attempt, s: Setting)
    ensures Decomposed(a, s) <==>
            if s.plan.Some? && s.plan.value.decision.runner then true
            else a.plan.Some? && a.plan.value.runner
    ensures !(s.plan.Some? && s.plan.value.decision.runner) && a.plan.Some? ==>
              PlanAfter(a, s) == Some(Plan(a.plan.value, false, false))
  {
  }

  predicate Calls(s: Setting) {
    s.plan.Some? ==> !s.plan.value.decision.runner
  }

  /** The run file of an attempt; all others stay as they are. */
  lemma RunFileIff(d: Dir, a: Attempt, s: Setting)
    requires ChainInv(d) && Gate(d)
    ensures var d', n := After(d, Try(a, s)), NextRun(d);
            && n !in d.runs && n in d'.runs && d'.runs == d.runs[n := d'.runs[n]]
            && (d'.runs[n].Success? <==>
                  !a.conflict && Calls(s) && !Decomposed(a, s) && !a.killed && a.wroteFact && a.checkPasses)
            && (d'.runs[n].Lifecycle? <==> !a.conflict && Decomposed(a, s))
            && !d'.runs[n].Unreadable?
  {
    NewRunKeepsNumbers(d, Success);
    assert Recorded(d, a, s).runs == d.runs[NextRun(d) := Published(a, s)];
  }

  /** The fact of an attempt stays exactly unless its check failed or it never reaches
      the others; audits, questions and answers there were are left alone. */
  lemma FactFileIff(d: Dir, a: Attempt, s: Setting)
    ensures var d', n := Recorded(d, a, s), NextRun(d);
            var stays := !a.conflict && Calls(s) && a.wroteFact && (Decomposed(a, s) || a.killed || a.checkPasses);
            && d'.facts == (if stays then d.facts + {n} else d.facts)
            && d'.verdicts == d.verdicts && d'.questions == d.questions && d'.answers == d.answers
  {
  }

  /** An audit is opened for a success where one is required. */
  lemma AuditFileIff(d: Dir, a: Attempt, s: Setting)
    ensures var succeeds := !a.conflict && Calls(s) && !Decomposed(a, s) && !a.killed && a.wroteFact && a.checkPasses;
            Recorded(d, a, s).pending
            == (if succeeds && a.auditRequired then d.pending + {NextRun(d)} else d.pending)
  {
  }

  /** An attempt opens an audit exactly when it succeeds where one is required. */
  lemma AttemptOpensAuditIff(d: Dir, a: Attempt, s: Setting)
    requires ChainInv(d) && Gate(d)
    ensures var d' := After(d, Try(a, s));
            AcceptedState(d').PendingAudit? <==>
            NextRun(d) in d'.runs && d'.runs[NextRun(d)].Success? && a.auditRequired
  {
    RunFileIff(d, a, s);
    FactFileIff(d, a, s);
    AuditFileIff(d, a, s);
    NewRunKeepsNumbers(d, Success);
    OpensAuditIff(d, After(d, Try(a, s)), NextRun(d));
  }

  lemma OpensAuditIff(d: Dir, d': Dir, n: nat)
    requires ChainInv(d) && Gate(d) && n == NextRun(d) && d'.verdicts == d.verdicts
    requires d'.facts == d.facts || d'.facts == d.facts + {n}
    requires d'.pending == d.pending || (d'.pending == d.pending + {n} && n in d'.facts)
    ensures AcceptedState(d').PendingAudit? <==> n in d'.pending
  {
    NewRunKeepsNumbers(d, Success);
    assert n !in d.facts && n !in d.pending && n !in d.verdicts;
    if n in d'.facts {
      NewFactIsLatest(d, d'.facts);
    }
  }

  /** The marker: set once and for all by an attempt that reaches the others and leaves
      the whole ladder used up, or another reason to give up. */
  lemma MarkedIff(d: Dir, a: Attempt, s: Setting)
    requires ChainInv(d) && Gate(d)
    ensures var d' := After(d, Try(a, s));
            d'.unresolvable <==>
            || d.unresolvable
            || (!a.conflict && (s.otherTrigger || FailedStreak(d') >= s.agentRetryMax + s.engineerRetryMax))
  {
    if !a.conflict {
      SameStreak(Written(d, a, s), Recorded(d, a, s));
    }
  }

  lemma SameStreak(d: Dir, d': Dir)
    requires d'.runs == d.runs && d'.facts == d.facts && d'.pending == d.pending && d'.verdicts == d.verdicts
    ensures FailedStreak(d') == FailedStreak(d)
  {
    assert AcceptedFact(d') == AcceptedFact(d);
  }

  lemma NothingLater(d: Dir, r: RunResult)
    requires Numbered(d)
    ensures FailuresIn(d.runs[NextRun(d) := r], NextRun(d)) == {}
  {
  }

  /** An attempt that resolves its node ends the streak, and does not count itself even
      when its own run file says that it failed. */
  lemma ResolvingEndsStreak(d: Dir, a: Attempt, s: Setting)
    requires ChainInv(d) && Gate(d) && AcceptedState(After(d, Try(a, s))).Resolved?
    ensures FailedStreak(After(d, Try(a, s))) == 0
  {
    var n, d' := NextRun(d), After(d, Try(a, s));
    RunFileIff(d, a, s);
    FactFileIff(d, a, s);
    AttemptResolvesIff(d, a, s);
    NewFactIsLatest(d, d'.facts);
    NothingLater(d, d'.runs[n]);
    assert FailuresAfter(d', n) == {};
  }

  /** An accepting verdict ends the streak of rejections, a rejecting one adds to it. */
  lemma AuditStreakAfter(d: Dir, ok: bool)
    requires ChainInv(d) && AcceptedState(d).PendingAudit?
    ensures AuditFailedStreak(After(d, Verdict(ok))) == if ok then 0 else AuditFailedStreak(d) + 1
  {
    var n, d' := Latest(d.facts), After(d, Verdict(ok));
    VerdictDecides(d, ok);
    forall k | k in d.verdicts
      ensures 1 <= k < n
    {
      assert k in d.runs && k in d.facts && k != n;
    }
    assert d'.verdicts.Keys == d.verdicts.Keys + {n};
    LatestIs(d'.verdicts.Keys, n);
    SkippedNumbers(d, d', n, n - 1);
    LaterAreSkipped(d, n - 1);
  }

  /** Below the new verdict nothing has changed. */
  lemma {:induction false} SkippedNumbers(d: Dir, d': Dir, n: nat, k: nat)
    requires k < n && n in d'.verdicts && d'.verdicts == d.verdicts[n := d'.verdicts[n]]
    ensures RejectedFrom(d', k) == RejectedFrom(d, k)
  {
    if k > 0 {
      SkippedNumbers(d, d', n, k - 1);
    }
  }

  /** Numbers above the latest verdict are passed over. */
  lemma {:induction false} LaterAreSkipped(d: Dir, k: nat)
    requires forall v | v in d.verdicts :: 1 <= v <= k
    ensures RejectedFrom(d, k) == AuditFailedStreak(d)
  {
    var top := Latest(d.verdicts.Keys);
    if k > top {
      assert k !in d.verdicts;
      LaterAreSkipped(d, k - 1);
    }
  }

  /** A verdict decides the open audit and nothing else; without one it is void. */
  lemma VerdictDecides(d: Dir, ok: bool)
    requires ChainInv(d)
    ensures var d' := After(d, Verdict(ok));
            && (AcceptedState(d).PendingAudit? ==>
                  && (if ok then AcceptedState(d').Resolved? else AcceptedState(d').NoFact?)
                  && d'.verdicts == d.verdicts[Latest(d.facts) := ok])
            && (!AcceptedState(d).PendingAudit? ==> d' == d)
            && d' == d.(verdicts := d'.verdicts)
  {
    OpenAuditIff(d);
  }

  /** An audit is open exactly while the latest fact waits for its verdict. */
  lemma OpenAuditIff(d: Dir)
    requires ChainInv(d)
    ensures OpenAudit(d) != 0 <==> AcceptedState(d).PendingAudit?
    ensures OpenAudit(d) != 0 ==> OpenAudit(d) == Latest(d.facts) && OpenAudit(d) in d.pending
  {
    if OpenAudit(d) != 0 {
      OpenAuditIsLatestFact(d);
    }
    if AcceptedState(d).PendingAudit? {
      LatestIs(d.pending, Latest(d.facts));
    }
  }

  /** A question is asked once per audit and answered once, neither changes the state,
      and once the verdict is there both come too late. */
  lemma OneQuestionOneAnswer(d: Dir, ok: bool)
    requires ChainInv(d) && AcceptedState(d).PendingAudit?
    ensures var n, asked := Latest(d.facts), After(d, Ask);
            && asked == d.(questions := d.questions + {n}) && After(asked, Ask) == asked
            && (n !in d.questions ==> After(d, Answer) == d)
            && After(asked, Answer) == asked.(answers := asked.answers + {n})
            && After(After(asked, Answer), Answer) == After(asked, Answer)
            && AcceptedState(After(asked, Answer)).PendingAudit?
    ensures var judged := After(d, Verdict(ok));
            After(judged, Ask) == judged && After(judged, Answer) == judged
  {
    OpenAuditIff(d);
    var n, asked := Latest(d.facts), After(d, Ask);
    assert n in d.questions ==> d.questions + {n} == d.questions;
    assert n in asked.answers ==> asked.answers + {n} == asked.answers;
  }
}
