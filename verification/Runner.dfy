/** The two holders of claims: the autonomous runner, which acquires, publishes
    and falls back to a failure run; and the interactive session, which renews,
    publishes, releases or hands over. */
module Runner {
  import opened Common
  import opened Commits
  import opened ClaimProtocol
  import opened Publish

  datatype RunOutcome = Finished | MergeConflict
  datatype RunError = ClaimTaken | OwnershipLost | Transport(error: PublishError)

  /** A claim on top of a value of `main` that was read before. */
  method AcquireClaim(origin: Origin, base: Sha, fields: ClaimFields, ghost pid: Pid, ghost w0: World)
    returns (accepted: bool, sha: Sha)
    requires Since(w0, origin.w) && Plain(base)
    modifies origin
    ensures origin.w == Acquire(old(origin.w), base, fields)
    ensures Since(w0, origin.w) && Later(old(origin.w), origin.w)
    ensures Mine(origin.w.log, pid) == old(Mine(origin.w.log, pid))
    ensures sha == Claim(base, fields)
    ensures accepted == old(CanAcquire(origin.w, base, fields))
    ensures accepted ==> Holds(origin.w, fields.node, sha) && WasHeld(origin.w, fields.node, sha)
    ensures !accepted ==> origin.w.claims == old(origin.w.claims)
  {
    AcquireKeeps(origin.w, base, fields);
    SinceStep(w0, origin.w, Acquire(origin.w, base, fields));
    accepted := fields.node !in origin.w.claims && fields.token !in origin.w.used;
    sha := Claim(base, fields);
    if accepted {
      MineAppend(origin.w.log, Claimed(fields.node, sha), pid);
      assert Acquire(origin.w, base, fields).log[|origin.w.log|] == Claimed(fields.node, sha);
    }
    origin.w := Acquire(origin.w, base, fields);
  }

  method PushRunRef(origin: Origin, node: Node, token: Token, sha: Sha, ghost pid: Pid, ghost w0: World)
    requires Since(w0, origin.w)
    modifies origin
    ensures origin.w == PushRun(old(origin.w), node, token, sha)
    ensures Since(w0, origin.w) && Later(old(origin.w), origin.w)
    ensures Mine(origin.w.log, pid) == old(Mine(origin.w.log, pid))
  {
    assert Keeps(origin.w, OnPublishers);
    PhaseKeeps(origin.w, PushRun(origin.w, node, token, sha));
    SinceStep(w0, origin.w, PushRun(origin.w, node, token, sha));
    origin.w := PushRun(origin.w, node, token, sha);
  }

  /** Rebase conflicts and exhausted retries are recorded as a failed attempt;
      a lost claim is not the attempt's fault. */
  predicate IsTerminalConflict(r: Result<PublishOutcome, PublishError>) {
    match r
    case Err(error) => error == RebaseConflict
    case Ok(outcome) => !outcome.published && !outcome.fenced
  }

  /** The base is read, and others go on before the claim is pushed. */
  method FetchBase(origin: Origin, host: Host, ghost pid: Pid, meanwhile: nat -> seq<Step>, ghost w0: World)
    returns (base: Sha)
    requires Since(w0, origin.w) && forall i :: Foreign(meanwhile(i), pid)
    modifies origin
    ensures Since(w0, origin.w) && Plain(base) && Mine(origin.w.log, pid) == old(Mine(origin.w.log, pid))
    ensures Descends(base, old(origin.w).main)
    ensures Alone(meanwhile) ==> origin.w == FetchMain(old(origin.w), host) && base == origin.w.main
  {
    ghost var start := origin.w;
    origin.Interfere(meanwhile(0), pid, w0);
    FetchedTracks(start, origin.w, host);
    origin.FetchMainRef(host, pid, w0);
    base := origin.w.trackMain[host];
    TrackedIsPlain(origin.w, host);
    origin.Interfere(meanwhile(1), pid, w0);
  }

  ghost predicate Alone(meanwhile: nat -> seq<Step>) {
    forall i :: meanwhile(i) == []
  }

  /** The run ref, and whatever the others do while the node is worked on. */
  method StartWork(origin: Origin, ghost pid: Pid, node: Node, token: Token, base: Sha, meanwhile: nat -> seq<Step>,
                   ghost sha: Sha, ghost w0: World)
    requires Since(w0, origin.w) && WasHeld(origin.w, node, sha) && forall i :: Foreign(meanwhile(i), pid)
    modifies origin
    ensures Since(w0, origin.w) && Mine(origin.w.log, pid) == old(Mine(origin.w.log, pid))
    ensures WasHeld(origin.w, node, sha)
    ensures Alone(meanwhile) ==> origin.w == PushRun(old(origin.w), node, token, base)
  {
    ghost var w1 := origin.w;
    PushRunRef(origin, node, token, base, pid, w0);
    StillHeldOnce(w1, origin.w, node, sha);
    ghost var w2 := origin.w;
    origin.Interfere(meanwhile(2), pid, w0);
    StillHeldOnce(w2, origin.w, node, sha);
  }

  /** Nobody holds the node, and the token has not been used for a claim or a run. */
  predicate IsFree(w: World, fields: ClaimFields) {
    fields.node !in w.claims && fields.token !in w.used && (fields.node, fields.token) !in w.runs
  }

  function RequestOf(fields: ClaimFields, base: Sha): Request {
    Request(fields.node, fields.token, Claim(base, fields), base)
  }

  /** Since `w` nothing was added but the claim and the run ref of this request. */
  predicate OnlyStarted(w: World, w': World, req: Request) {
    && w'.main == w.main && Holds(w', req.node, req.claimSha) && RunRefIs(w', req)
    && w'.claims - {req.node} == w.claims && w'.runs - {(req.node, req.token)} == w.runs
    && w'.runs == w.runs[(req.node, req.token) := req.runShaBefore]
  }

  lemma StartAlone(w: World, host: Host, fields: ClaimFields)
    requires Inv(w) && IsFree(w, fields)
    ensures CanAcquire(FetchMain(w, host), w.main, fields)
    ensures var w1 := Acquire(FetchMain(w, host), w.main, fields);
            OnlyStarted(w, PushRun(w1, fields.node, fields.token, w.main), RequestOf(fields, w.main))
  {
    assert Keeps(w, OnMain);
  }

  /** Base, claim and run ref, and whatever the others do while the node is worked on.
      `at` is the remote when the claim was pushed. */
  method StartRun(origin: Origin, host: Host, ghost pid: Pid, fields: ClaimFields, meanwhile: nat -> seq<Step>,
                  ghost w0: World)
    returns (accepted: bool, sha: Sha, base: Sha, ghost at: World)
    requires Since(w0, origin.w) && forall i :: Foreign(meanwhile(i), pid)
    modifies origin
    ensures Since(w0, origin.w) && Mine(origin.w.log, pid) == old(Mine(origin.w.log, pid))
    ensures sha == Claim(base, fields) && Descends(base, old(origin.w).main)
    ensures Since(w0, at) && accepted == CanAcquire(at, base, fields) && Plain(base)
    ensures accepted ==> WasHeld(origin.w, fields.node, sha)
    ensures old(IsFree(origin.w, fields)) && Alone(meanwhile) ==>
              accepted && base == old(origin.w.main) && OnlyStarted(old(origin.w), origin.w, RequestOf(fields, base))
  {
    if IsFree(origin.w, fields) {
      StartAlone(origin.w, host, fields);
    }
    base := FetchBase(origin, host, pid, meanwhile, w0);
    at := origin.w;
    accepted, sha := AcquireClaim(origin, base, fields, pid, w0);
    if accepted {
      StartWork(origin, pid, fields.node, fields.token, base, meanwhile, sha, w0);
    }
  }

  /** One write of this publisher: the patches on top of the value it replaced. */
  ghost predicate WroteOnTop(w: World, w': World, pid: Pid, req: Request, patches: seq<Patch>) {
    exists before :: Mine(w'.log, pid) == Mine(w.log, pid) +
      [Published(By(pid), req.node, req.claimSha, before, Stack(before, patches))]
  }

  /** The claim is free and nobody interferes, the rebase fails, and then the claim
      cannot be fetched for the failure run. */
  ghost predicate ConflictGoesUnrecorded(w: World, fields: ClaimFields, meanwhile: nat -> seq<Step>,
                                         env: Environment, failureEnv: Environment) {
    && IsFree(w, fields) && Alone(meanwhile)
    && env.fault(0) == NoFault && env.rebase(0).None? && Undisturbed(env, 0)
    && failureEnv.fault(0) == ClaimFetchFails
  }

  /** The claim is free, nobody interferes and nothing fails. */
  ghost predicate RunsThrough(w: World, fields: ClaimFields, meanwhile: nat -> seq<Step>, env: Environment) {
    IsFree(w, fields) && Alone(meanwhile) && Quiet(env, 0)
  }

  /** The attempts of a publication that began in `w1`: each lost its race, and either
      there were no more or the next one met a failing rebase. */
  ghost predicate ConflictHasReason(w1: World, req: Request, retryMax: nat, env: Environment, tries: seq<Try>) {
    && (|tries| == Max(retryMax, 1) || env.rebase(|tries|).None?)
    && exists start :: LostRaces(Rebasing(req), w1, env, tries, start)
  }

  /** The claim is free and nobody interferes, the rebase fails, and the failure run is
      committed. */
  ghost predicate ConflictIsRecorded(w: World, fields: ClaimFields, meanwhile: nat -> seq<Step>,
                                     env: Environment, failureEnv: Environment) {
    && IsFree(w, fields) && Alone(meanwhile)
    && env.fault(0) == NoFault && env.rebase(0).None? && Undisturbed(env, 0) && CommitsNow(failureEnv)
  }

  /** Acquire, work, publish, and on a terminal conflict publish the failure run.
      The whole run writes `main` at most once. `Finished` is always backed by a
      publication; `MergeConflict` is backed by one exactly when the failure run
      went through, which the source does not look at. */
  method RunNode(origin: Origin, host: Host, pid: Pid, fields: ClaimFields, retryMax: nat,
                 meanwhile: nat -> seq<Step>, env: Environment, failureEnv: Environment)
    returns (r: Result<RunOutcome, RunError>, ghost base: Sha, ghost failure: Option<PublishOutcome>,
             ghost at: World, ghost tries: seq<Try>)
    requires Inv(origin.w) && ForeignEnvironment(env, pid) && ForeignEnvironment(failureEnv, pid)
    requires forall i :: Foreign(meanwhile(i), pid)
    modifies origin
    ensures Since(old(origin.w), origin.w) && Since(old(origin.w), at) && Descends(base, old(origin.w).main)
    ensures |Mine(origin.w.log, pid)| <= |old(Mine(origin.w.log, pid))| + 1
    ensures r == Err(ClaimTaken) <==> !CanAcquire(at, base, fields)
    ensures r == Ok(Finished) ==>
              && !Holds(origin.w, fields.node, Claim(base, fields)) && env.rebase(|tries|).Some?
              && WroteOnTop(old(origin.w), origin.w, pid, RequestOf(fields, base), env.rebase(|tries|).value)
    ensures r == Ok(MergeConflict) ==>
              && failure.Some?
              && (failure.value.published <==> |Mine(origin.w.log, pid)| == |old(Mine(origin.w.log, pid))| + 1)
    ensures r == Ok(MergeConflict) ==>
              exists w1 ::
                Since(old(origin.w), w1) && ConflictHasReason(w1, RequestOf(fields, base), retryMax, env, tries)
    ensures r == Err(OwnershipLost) ==>
              env.fault(|tries|) == ClaimFetchFails || !Holds(origin.w, fields.node, Claim(base, fields))
    ensures r.Err? && !r.error.Transport? ==> Mine(origin.w.log, pid) == old(Mine(origin.w.log, pid))
    ensures old(RunsThrough(origin.w, fields, meanwhile, env)) ==>
              && r == Ok(Finished) && origin.w.main == Stack(old(origin.w.main), env.rebase(0).value)
              && origin.w.claims == old(origin.w.claims) && origin.w.runs == old(origin.w.runs)
    ensures old(ConflictGoesUnrecorded(origin.w, fields, meanwhile, env, failureEnv)) ==>
              && r == Ok(MergeConflict) && failure.Some? && !failure.value.published
              && Mine(origin.w.log, pid) == old(Mine(origin.w.log, pid))
    ensures old(ConflictIsRecorded(origin.w, fields, meanwhile, env, failureEnv)) ==>
              && r == Ok(MergeConflict) && failure.Some? && failure.value.published
              && origin.w.main == Work(old(origin.w.main), failureEnv.commit(0).value)
              && origin.w.claims == old(origin.w.claims)
              && origin.w.runs == old(origin.w.runs)[(fields.node, fields.token) := old(origin.w.main)]
  {
    ghost var w0 := origin.w;
    LaterReflexive(w0);
    failure, tries := None, [];
    var accepted, sha, b;
    accepted, sha, b, at := StartRun(origin, host, pid, fields, meanwhile, w0);
    base := b;
    if !accepted {
      return Err(ClaimTaken), base, failure, at, tries;
    }
    var req := Request(fields.node, fields.token, sha, b);
    ghost var w1 := origin.w;
    r, failure, tries := PublishRun(origin, host, pid, req, retryMax, env, failureEnv, w0);
    assert req == RequestOf(fields, base) && Since(w0, w1);
  }

  /** The publication of a run, and of its failure run on a terminal conflict. */
  method PublishRun(origin: Origin, host: Host, pid: Pid, req: Request, retryMax: nat, env: Environment,
                    failureEnv: Environment, ghost w0: World)
    returns (r: Result<RunOutcome, RunError>, ghost failure: Option<PublishOutcome>, ghost tries: seq<Try>)
    requires Since(w0, origin.w) && WasHeld(origin.w, req.node, req.claimSha)
    requires ForeignEnvironment(env, pid) && ForeignEnvironment(failureEnv, pid)
    modifies origin
    ensures Since(w0, origin.w)
    ensures |Mine(origin.w.log, pid)| <= |old(Mine(origin.w.log, pid))| + 1
    ensures r == Ok(Finished) ==>
              && !Holds(origin.w, req.node, req.claimSha) && env.rebase(|tries|).Some?
              && WroteOnTop(old(origin.w), origin.w, pid, req, env.rebase(|tries|).value)
    ensures r == Ok(MergeConflict) ==>
              && failure.Some?
              && (failure.value.published <==> |Mine(origin.w.log, pid)| == |old(Mine(origin.w.log, pid))| + 1)
              && ConflictHasReason(old(origin.w), req, retryMax, env, tries)
    ensures r != Err(ClaimTaken)
    ensures r == Err(OwnershipLost) ==>
              env.fault(|tries|) == ClaimFetchFails || !Holds(origin.w, req.node, req.claimSha)
    ensures r.Err? && !r.error.Transport? ==> Mine(origin.w.log, pid) == old(Mine(origin.w.log, pid))
    ensures CanPublishNow(old(origin.w), req, env, 0) ==>
              r == Ok(Finished) && PublishesNow(old(origin.w), origin.w, req, env, 0)
    ensures ConflictsNow(old(origin.w), req, env, 0) && failureEnv.fault(0) == ClaimFetchFails ==>
              && r == Ok(MergeConflict) && failure.Some? && !failure.value.published
              && Mine(origin.w.log, pid) == old(Mine(origin.w.log, pid))
    ensures ConflictsNow(old(origin.w), req, env, 0) && CommitsNow(failureEnv) ==>
              && r == Ok(MergeConflict) && failure.Some? && failure.value.published
              && FailureWritten(old(origin.w), origin.w, req, failureEnv.commit(0).value)
  {
    failure := None;
    ghost var w1 := origin.w;
    ghost var made, sent, start;
    var published;
    published, made, sent, tries, start := FencedPublish(origin, host, pid, req, retryMax, env);
    SinceStep(w0, w1, origin.w);
    FirstIsDecisive(w1, req, env, tries, start);
    if IsTerminalConflict(published) {
      assert ConflictHasReason(w1, req, retryMax, env, tries);
      failure, r := RecordConflict(origin, host, pid, req, retryMax, failureEnv, w0, w1);
      return;
    }
    if published.Err? {
      return Err(Transport(published.error)), failure, tries;
    }
    if !published.value.published {
      return Err(OwnershipLost), failure, tries;
    }
    return Ok(Finished), failure, tries;
  }

  lemma FirstIsDecisive(w1: World, req: Request, env: Environment, tries: seq<Try>, start: World)
    requires LostRaces(Rebasing(req), w1, env, tries, start)
    ensures CanPublishNow(w1, req, env, 0) || ConflictsNow(w1, req, env, 0) ==> tries == [] && start == w1
  {
    if CanPublishNow(w1, req, env, 0) || ConflictsNow(w1, req, env, 0) {
      FirstDecides(Rebasing(req), w1, env, tries, start);
    }
  }

  ghost predicate CommitsNow(env: Environment) {
    env.fault(0) == NoFault && env.commit(0).Some? && Undisturbed(env, 0)
  }

  /** One commit on `main`; the claim is gone and the run ref is left for inspection. */
  predicate FailureWritten(w: World, w': World, req: Request, patch: Patch) {
    w'.main == Work(w.main, patch) && w'.claims == w.claims - {req.node} && w'.runs == w.runs
  }

  /** The failure run of a conflict. Whatever comes of it, a conflict is reported. */
  method RecordConflict(origin: Origin, host: Host, pid: Pid, req: Request, retryMax: nat, env: Environment,
                        ghost w0: World, ghost w1: World)
    returns (ghost failure: Option<PublishOutcome>, r: Result<RunOutcome, RunError>)
    requires Since(w0, origin.w) && Since(w1, origin.w) && WasHeld(w1, req.node, req.claimSha)
    requires ForeignEnvironment(env, pid)
    modifies origin
    ensures Since(w0, origin.w)
    ensures |Mine(origin.w.log, pid)| <= |old(Mine(origin.w.log, pid))| + 1
    ensures r == Ok(MergeConflict) || (r.Err? && r.error.Transport?)
    ensures r == Ok(MergeConflict) ==>
              && failure.Some?
              && (failure.value.published <==> |Mine(origin.w.log, pid)| == |old(Mine(origin.w.log, pid))| + 1)
    ensures env.fault(0) == ClaimFetchFails ==>
              && r == Ok(MergeConflict) && failure.Some? && !failure.value.published
              && Mine(origin.w.log, pid) == old(Mine(origin.w.log, pid))
    ensures CommitsNow(env) && old(Holds(origin.w, req.node, req.claimSha)) ==>
              && r == Ok(MergeConflict) && failure.Some? && failure.value.published
              && FailureWritten(old(origin.w), origin.w, req, env.commit(0).value)
  {
    failure := None;
    StillHeldOnce(w1, origin.w, req.node, req.claimSha);
    ghost var w2 := origin.w;
    ghost var made, sent, tries, start;
    var f;
    f, made, sent, tries, start := PublishFailureRun(origin, host, pid, req, retryMax, env);
    SinceStep(w0, w2, origin.w);
    if env.fault(0) == ClaimFetchFails || (CommitsNow(env) && Holds(w2, req.node, req.claimSha)) {
      FirstDecides(Committing(Some(req)), w2, env, tries, start);
    }
    if f.Err? {
      return failure, Err(Transport(f.error));
    }
    failure := Some(f.value);
    return failure, Ok(MergeConflict);
  }

  datatype HandoffTicket = HandoffTicket(runToken: Token, generation: nat)

  /** A live interactive run: it owns `claimSha`, or has lost it for good. */
  class InteractiveRun {
    const host: Host
    const pid: Pid
    const node: Node
    const token: Token
    const generation: nat
    var claimSha: Sha

    ghost predicate Valid(w: World)
      reads this
    {
      Inv(w) && WasHeld(w, node, claimSha)
    }

    constructor (origin: Origin, host: Host, pid: Pid, fields: ClaimFields, sha: Sha)
      requires Inv(origin.w) && Holds(origin.w, fields.node, sha)
      ensures Valid(origin.w) && claimSha == sha && this.host == host && this.pid == pid
      ensures node == fields.node && token == fields.token && generation == fields.generation
    {
      assert Keeps(origin.w, OnClaims);
      this.host := host;
      this.pid := pid;
      this.node := fields.node;
      this.token := fields.token;
      this.generation := fields.generation;
      this.claimSha := sha;
    }

    /** Renewal keeps token and generation and extends the chain of the claim.
        False means that the claim is lost, now and in every later world. */
    method Renew(origin: Origin, runner: nat, claimedAt: nat, leaseUntil: nat, meanwhile: seq<Step>)
      returns (accepted: bool)
      requires Valid(origin.w) && Foreign(meanwhile, pid)
      modifies this`claimSha, origin
      ensures Valid(origin.w) && Since(old(origin.w), origin.w)
      ensures Mine(origin.w.log, pid) == old(Mine(origin.w.log, pid))
      ensures accepted <==> old(Holds(Run(origin.w, meanwhile), node, claimSha))
      ensures accepted ==>
                && Holds(origin.w, node, claimSha)
                && claimSha == Claim(old(claimSha),
                                     ClaimFields(node, runner, token, generation, claimedAt, leaseUntil, true))
      ensures !accepted ==> claimSha == old(claimSha) && !Holds(origin.w, node, claimSha)
    {
      ghost var w0 := origin.w;
      LaterReflexive(w0);
      origin.Interfere(meanwhile, pid, w0);
      StillHeldOnce(w0, origin.w, node, claimSha);
      var fields := ClaimFields(node, runner, token, generation, claimedAt, leaseUntil, true);
      ghost var w1 := origin.w;
      accepted := origin.ReplaceClaim(claimSha, fields, pid, w0);
      StillHeldOnce(w1, origin.w, node, claimSha);
      if accepted {
        claimSha := Claim(claimSha, fields);
        assert WasHeld(origin.w, node, claimSha);
      }
    }

    /** Releasing deletes the claim ref only if it is still this run's. */
    method Release(origin: Origin, meanwhile: seq<Step>) returns (released: bool)
      requires Valid(origin.w) && Foreign(meanwhile, pid)
      modifies origin
      ensures Valid(origin.w) && Since(old(origin.w), origin.w) && !Holds(origin.w, node, claimSha)
      ensures var w1 := old(Run(origin.w, meanwhile));
              && released == Holds(w1, node, claimSha)
              && origin.w.claims == (if released then w1.claims - {node} else w1.claims)
              && origin.w.main == w1.main && origin.w.runs == w1.runs
      ensures Mine(origin.w.log, pid) == old(Mine(origin.w.log, pid))
    {
      ghost var w0 := origin.w;
      LaterReflexive(w0);
      origin.Interfere(meanwhile, pid, w0);
      StillHeldOnce(w0, origin.w, node, claimSha);
      ghost var w1 := origin.w;
      released := origin.DeleteClaim(node, claimSha, pid, w0);
      StillHeldOnce(w1, origin.w, node, claimSha);
    }

    /** The ticket is handed out whether or not the claim was still there to
        release: after a takeover the new owner's claim is left untouched. The run
        ref is moved to the head first, unless it has moved elsewhere. */
    method Handoff(origin: Origin, head: Sha, meanwhile: seq<Step>) returns (ticket: HandoffTicket)
      requires Valid(origin.w) && Foreign(meanwhile, pid)
      modifies origin
      ensures Valid(origin.w) && Since(old(origin.w), origin.w) && !Holds(origin.w, node, claimSha)
      ensures ticket == HandoffTicket(token, generation)
      ensures forall n, c |
                old(Holds(Run(PushRun(origin.w, node, token, head), meanwhile), n, c)) && (n, c) != (node, claimSha) ::
                Holds(origin.w, n, c)
      ensures meanwhile == [] && ((node, token) in old(origin.w).runs ==>
                                    Descends(head, old(origin.w).runs[(node, token)])) ==>
                && origin.w.main == old(origin.w.main)
                && origin.w.runs == old(origin.w.runs)[(node, token) := head]
    {
      ghost var w0 := origin.w;
      LaterReflexive(w0);
      PushRunRef(origin, node, token, head, pid, w0);
      StillHeldOnce(w0, origin.w, node, claimSha);
      ghost var w1 := origin.w;
      var _ := Release(origin, meanwhile);
      SinceStep(w0, w1, origin.w);
      return HandoffTicket(token, generation);
    }

    /** Publishing with the current claim; the run-ref lease is the head before
        the run's own artefacts were committed. */
    method Done(origin: Origin, head: Sha, retryMax: nat, env: Environment)
      returns (r: Result<PublishOutcome, PublishError>, ghost made: nat, ghost sent: Option<PushSent>,
               ghost tries: seq<Try>, ghost start: World)
      requires Valid(origin.w) && ForeignEnvironment(env, pid)
      modifies origin
      ensures Valid(origin.w) && Since(old(origin.w), origin.w) && 1 <= made <= Max(retryMax, 1)
      ensures LostRaces(Rebasing(Request(node, token, claimSha, head)), old(origin.w), env, tries, start)
      ensures |tries| == if IsExhausted(r) then Max(retryMax, 1) else made - 1
      ensures r.Ok? && r.value.published ==>
                && !Holds(origin.w, node, claimSha) && env.rebase(made - 1).Some?
                && WroteOnTop(old(origin.w), origin.w, pid, Request(node, token, claimSha, head),
                              env.rebase(made - 1).value)
      ensures r.Ok? && !r.value.published ==> Mine(origin.w.log, pid) == old(Mine(origin.w.log, pid))
      ensures r.Ok? && r.value.fenced && env.fault(made - 1) != ClaimFetchFails ==> !Holds(origin.w, node, claimSha)
      ensures r.Err? && r.error != PushFailed ==> Mine(origin.w.log, pid) == old(Mine(origin.w.log, pid))
      ensures r == Err(PushFailed) ==>
                && env.fault(made - 1).PushAnswerLost? && sent.Some?
                && Mine(origin.w.log, pid) == old(Mine(origin.w.log, pid)) +
                     LostPush(pid, sent.value, env.fault(made - 1) == PushAnswerLost(true))
      ensures Quiet(env, 0) && Holds(old(origin.w), node, claimSha)
              && (node, token) in old(origin.w).runs && old(origin.w).runs[(node, token)] == head ==>
                && r == Ok(PublishOutcome(true, false, Some(origin.w.main), 1))
                && origin.w.main == Stack(old(origin.w).main, env.rebase(0).value)
                && origin.w.claims == old(origin.w).claims - {node}
                && origin.w.runs == old(origin.w).runs - {(node, token)}
    {
      ghost var w0 := origin.w;
      var req := Request(node, token, claimSha, head);
      r, made, sent, tries, start := FencedPublish(origin, host, pid, req, retryMax, env);
      StillHeldOnce(w0, origin.w, node, claimSha);
      FirstIsDecisive(w0, req, env, tries, start);
    }
  }
}
