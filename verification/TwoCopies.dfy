/** A run takes its number from the tree it was started in and writes into a checkout
    of `main`. The two agree as long as the tree is synchronised. */
module TwoCopies {
  import opened Common
  import opened Plans
  import opened Chain

  /** The facts of the checkout once the executor is done. */
  function FactsBy(n: nat, d: Dir, a: Attempt, s: Setting): set<nat> {
    if WroteFact(a, s) then d.facts + {n} else d.facts
  }

  predicate WasKilled(a: Attempt, s: Setting) {
    CallsExecutor(s) && a.killed
  }

  /** The signal counts the runs of the checkout itself and wants a fact of that
      number. */
  predicate SignalAccepts(n: nat, d: Dir, a: Attempt, s: Setting) {
    a.checkPasses && NextRun(d) in FactsBy(n, d, a, s)
  }

  /** There is a fact under the number of the run, and the signal refuses it. */
  predicate TakesBack(n: nat, d: Dir, a: Attempt, s: Setting) {
    && !Decomposed(a, s) && !WasKilled(a, s)
    && n in FactsBy(n, d, a, s) && !SignalAccepts(n, d, a, s)
  }

  predicate SucceedsAs(n: nat, d: Dir, a: Attempt, s: Setting) {
    && !Decomposed(a, s) && !WasKilled(a, s)
    && n in FactsBy(n, d, a, s) && SignalAccepts(n, d, a, s)
  }

  /** The files in the checkout `d` of a run that was numbered in `live`. */
  function WrittenFrom(live: Dir, d: Dir, a: Attempt, s: Setting): Dir {
    var n := NextRun(live);
    var facts := FactsBy(n, d, a, s);
    if Decomposed(a, s) then d.(runs := d.runs[n := Lifecycle], facts := facts)
    else if SucceedsAs(n, d, a, s) then
      d.(runs := d.runs[NextRun(d) := Success], facts := facts,
         pending := if a.auditRequired then d.pending + {NextRun(d)} else d.pending)
    else
      d.(runs := d.runs[n := ExecutionFailure],
         facts := if TakesBack(n, d, a, s) then facts - {n} else facts)
  }

  lemma NextHasNoFact(d: Dir)
    requires Numbered(d)
    ensures NextRun(d) !in d.runs && NextRun(d) !in d.facts && NextRun(d) !in d.pending
  {
    NewRunKeepsNumbers(d, Success);
  }

  /** With as many runs in both copies a run writes what it would write into one. */
  lemma SameCountSameFiles(live: Dir, d: Dir, a: Attempt, s: Setting)
    requires Numbered(d) && |live.runs| == |d.runs|
    ensures WrittenFrom(live, d, a, s) == Written(d, a, s)
  {
    NextHasNoFact(d);
    assert d.facts + {NextRun(d)} - {NextRun(d)} == d.facts;
  }

  /** Otherwise no run can succeed: the signal looks for a fact of another number. */
  lemma OtherCountNeverSucceeds(live: Dir, d: Dir, a: Attempt, s: Setting)
    requires Numbered(d) && |live.runs| != |d.runs|
    ensures !SucceedsAs(NextRun(live), d, a, s)
  {
    NextHasNoFact(d);
  }

  /** The numbering survives a run exactly when the live tree is not ahead and no fact
      under audit is taken back. */
  lemma NumberingHoldsIff(live: Dir, d: Dir, a: Attempt, s: Setting)
    requires Numbered(d)
    ensures Numbered(WrittenFrom(live, d, a, s)) <==>
            NextRun(live) <= NextRun(d) && !(TakesBack(NextRun(live), d, a, s) && NextRun(live) in d.pending)
  {
    var n, d' := NextRun(live), WrittenFrom(live, d, a, s);
    NextHasNoFact(d);
    if n == NextRun(d) {
      SameCountSameFiles(live, d, a, s);
      WrittenKeepsNumbers(d, a, s);
    } else {
      OtherCountNeverSucceeds(live, d, a, s);
      if n < NextRun(d) {
        assert n in d.runs;
        SameKeys(d.runs, n, d'.runs[n]);
      } else {
        GapInNumbers(d.runs, n, d'.runs[n]);
      }
    }
  }

  lemma WrittenKeepsNumbers(d: Dir, a: Attempt, s: Setting)
    requires Numbered(d)
    ensures Numbered(Written(d, a, s))
  {
    NewRunKeepsNumbers(d, ResultOf(a, s));
  }

  lemma SameKeys(runs: map<nat, RunResult>, n: nat, r: RunResult)
    requires n in runs
    ensures runs[n := r].Keys == runs.Keys && |runs[n := r]| == |runs|
  {
    assert runs[n := r].Keys == runs.Keys;
  }

  lemma GapInNumbers(runs: map<nat, RunResult>, n: nat, r: RunResult)
    requires OneTo(runs) && n > |runs| + 1
    ensures !OneTo(runs[n := r])
  {
    CountOneMore(runs, n, r);
    assert n in runs[n := r];
  }

  predicate FailsFrom(live: Dir, d: Dir, a: Attempt, s: Setting) {
    !Decomposed(a, s) && !SucceedsAs(NextRun(live), d, a, s)
  }

  lemma FailedRunsAre(live: Dir, d: Dir, a: Attempt, s: Setting)
    requires FailsFrom(live, d, a, s)
    ensures WrittenFrom(live, d, a, s).runs == d.runs[NextRun(live) := ExecutionFailure]
  {
  }

  lemma OneMoreFailure(runs: map<nat, RunResult>, n: nat)
    requires n >= 1
    ensures |FailuresIn(runs[n := ExecutionFailure], 0)| ==
            |FailuresIn(runs, 0)| + if n in runs && IsFailure(runs[n]) then 0 else 1
  {
    var before, after := FailuresIn(runs, 0), FailuresIn(runs[n := ExecutionFailure], 0);
    assert after == before + {n};
    assert n in before <==> n in runs && IsFailure(runs[n]);
    if n in before {
      assert before + {n} == before;
    }
  }

  /** A failed run raises the number of failures exactly unless it replaces the file of
      another failure, which it does when the live tree has not seen that one. */
  lemma FailureCountsIff(live: Dir, d: Dir, a: Attempt, s: Setting)
    requires FailsFrom(live, d, a, s)
    ensures var n, d' := NextRun(live), WrittenFrom(live, d, a, s);
            |FailuresAfter(d', 0)| ==
            |FailuresAfter(d, 0)| + if n in d.runs && IsFailure(d.runs[n]) then 0 else 1
  {
    FailedRunsAre(live, d, a, s);
    OneMoreFailure(d.runs, NextRun(live));
  }

  /** A node that is resolved on `main` but not in the live tree can be run again. That
      run withdraws the accepted fact exactly when it happens to have its number and
      is neither killed nor decomposed. */
  lemma FactIsWithdrawnIff(live: Dir, d: Dir, a: Attempt, s: Setting)
    requires ChainInv(d) && AcceptedState(d).Resolved? && |live.runs| != |d.runs|
    ensures !AcceptedState(WrittenFrom(live, d, a, s)).Resolved? <==>
            NextRun(live) == Latest(d.facts) && !Decomposed(a, s) && !WasKilled(a, s)
  {
    var n, d' := NextRun(live), WrittenFrom(live, d, a, s);
    OtherCountNeverSucceeds(live, d, a, s);
    assert n !in d.pending || n in d.facts;
    if n == Latest(d.facts) && !Decomposed(a, s) && !WasKilled(a, s) {
      assert d'.facts == d.facts - {n};
      OlderFactsDoNotCount(d, d');
    } else {
      LatestStaysOrIsNew(d, d', n);
    }
  }

  lemma OlderFactsDoNotCount(d: Dir, d': Dir)
    requires ChainInv(d) && d.facts != {}
    requires d'.facts == d.facts - {Latest(d.facts)} && d'.pending == d.pending && d'.verdicts == d.verdicts
    ensures !AcceptedState(d').Resolved?
  {
    if d'.facts != {} {
      var f := Latest(d'.facts);
      assert f in d.facts && f < Latest(d.facts);
      assert f in d.verdicts && !d.verdicts[f] && f in d.pending;
    }
  }

  lemma LatestStaysOrIsNew(d: Dir, d': Dir, n: nat)
    requires ChainInv(d) && AcceptedState(d).Resolved? && n >= 1
    requires d'.pending == d.pending && d'.verdicts == d.verdicts
    requires d'.facts == d.facts || d'.facts == d.facts + {n} || (d'.facts == d.facts - {n} && n != Latest(d.facts))
    requires n > Latest(d.facts) && d'.facts == d.facts + {n} ==> n !in d.pending
    ensures AcceptedState(d').Resolved?
  {
    var m := Latest(d.facts);
    assert m in d.facts && m in d'.facts;
    if d'.facts == d.facts + {n} && n > m {
      LatestIs(d'.facts, n);
    } else {
      LatestIs(d'.facts, m);
    }
  }
}
