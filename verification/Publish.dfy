/** The three publishers. Each method runs the retry loop of the source against a
    remote on which everybody else keeps working: between any two operations an
    arbitrary list of foreign protocol steps may happen. */
module Publish {
  import opened Common
  import opened Commits
  import opened ClaimProtocol

  datatype Result<+T, +E> = Ok(value: T) | Err(error: E)

  datatype PublishError = FetchFailed | RebaseConflict | PushFailed | NothingToCommit

  datatype PublishOutcome = PublishOutcome(published: bool, fenced: bool, resultSha: Option<Sha>, attempts: nat)

  /** What the network does to one attempt. A push whose answer is lost may have
      reached the remote or not. */
  datatype Fault = NoFault | MainFetchFails | ClaimFetchFails | PushAnswerLost(reached: bool)

  /** Everything an attempt does not decide itself: the foreign steps before each
      of its operations, what a rebase leaves (None is a conflict), what a commit
      of the prepared files gives (None is no difference), and the network. */
  datatype Environment = Environment(
    others: (nat, nat) -> seq<Step>,
    rebase: nat -> Option<seq<Patch>>,
    commit: nat -> Option<Patch>,
    fault: nat -> Fault)

  /** Steps taken by publishers other than `pid`. */
  predicate Foreign(steps: seq<Step>, pid: Pid) {
    forall s | s in steps :: (s.DoPush? || s.DoPushCommit?) ==> s.pid != pid
  }

  ghost predicate ForeignEnvironment(env: Environment, pid: Pid) {
    forall a, p :: Foreign(env.others(a, p), pid)
  }

  /** The accepted writes of `main` that belong to publisher `pid`. */
  function Mine(log: seq<Entry>, pid: Pid): seq<Entry> {
    if log == [] then []
    else
      var e := log[|log| - 1];
      Mine(log[..|log| - 1], pid) + (if MovesMain(e) && e.who == By(pid) then [e] else [])
  }

  lemma MineAppend(log: seq<Entry>, e: Entry, pid: Pid)
    ensures Mine(log + [e], pid) == Mine(log, pid) + (if MovesMain(e) && e.who == By(pid) then [e] else [])
  {
    assert (log + [e])[..|log|] == log;
  }

  /** A step writes at most one entry, and signs it with the publisher's own id. */
  lemma StepWritesOneEntry(w: World, s: Step)
    ensures Apply(w, s).log == w.log || exists e :: Apply(w, s).log == w.log + [e] && Signed(e, s)
  {
    var log := Apply(w, s).log;
    if log != w.log {
      var e := log[|log| - 1];
      assert log == w.log + [e] && Signed(e, s);
    }
  }

  predicate Signed(e: Entry, s: Step) {
    MovesMain(e) && e.who.By? ==> (s.DoPush? || s.DoPushCommit?) && s.pid == e.who.pid
  }

  lemma ForeignStepIsNotMine(w: World, s: Step, pid: Pid)
    requires (s.DoPush? || s.DoPushCommit?) ==> s.pid != pid
    ensures Mine(Apply(w, s).log, pid) == Mine(w.log, pid)
  {
    StepWritesOneEntry(w, s);
    if Apply(w, s).log != w.log {
      var e :| Apply(w, s).log == w.log + [e] && Signed(e, s);
      MineAppend(w.log, e, pid);
    }
  }

  lemma {:induction false} ForeignRunIsNotMine(w: World, steps: seq<Step>, pid: Pid)
    requires Foreign(steps, pid)
    ensures Mine(Run(w, steps).log, pid) == Mine(w.log, pid)
    decreases |steps|
  {
    if steps != [] {
      ForeignStepIsNotMine(w, steps[0], pid);
      ForeignRunIsNotMine(Apply(w, steps[0]), steps[1..], pid);
    }
  }

  lemma LaterReflexive(w: World)
    ensures Later(w, w)
  {
  }

  /** What holds at any moment of a call that began in `w0`: the protocol
      invariant, and only forward movement since. */
  ghost predicate Since(w0: World, w: World) {
    Inv(w0) && Inv(w) && Later(w0, w)
  }

  lemma SinceStep(w0: World, w: World, w': World)
    requires Since(w0, w) && Inv(w') && Later(w, w')
    ensures Since(w0, w')
  {
    LaterTransitive(w0, w, w');
  }

  lemma ReleaseIsNotMine(w: World, node: Node, sha: Sha, pid: Pid)
    ensures Mine(Release(w, node, sha).log, pid) == Mine(w.log, pid) && !Holds(Release(w, node, sha), node, sha)
  {
    MineAppend(w.log, Released(node, sha), pid);
  }

  /** The shared remote together with the clones that track it. */
  class Origin {
    var w: World

    constructor (main: Sha)
      requires Plain(main)
      ensures Init(w) && w.main == main
      ensures Inv(w)
    {
      w := World(main, map[], map[], map[], map[], map[], {}, []);
    }

    method Interfere(steps: seq<Step>, ghost pid: Pid, ghost w0: World)
      requires Since(w0, w) && Foreign(steps, pid)
      modifies this
      ensures w == Run(old(w), steps)
      ensures Since(w0, w) && Later(old(w), w) && Mine(w.log, pid) == old(Mine(w.log, pid))
    {
      RunKeeps(w, steps);
      ForeignRunIsNotMine(w, steps, pid);
      SinceStep(w0, w, Run(w, steps));
      w := Run(w, steps);
    }

    method FetchMainRef(host: Host, ghost pid: Pid, ghost w0: World)
      requires Since(w0, w)
      modifies this
      ensures w == FetchMain(old(w), host)
      ensures Since(w0, w) && Later(old(w), w) && Mine(w.log, pid) == old(Mine(w.log, pid))
    {
      FetchMainKeeps(w, host);
      SinceStep(w0, w, FetchMain(w, host));
      w := FetchMain(w, host);
    }

    /** False when the remote does not have the ref. */
    method FetchClaimRef(host: Host, node: Node, ghost pid: Pid, ghost w0: World) returns (found: bool)
      requires Since(w0, w)
      modifies this
      ensures w == FetchClaim(old(w), host, node) && found == (node in w.claims)
      ensures Since(w0, w) && Later(old(w), w) && Mine(w.log, pid) == old(Mine(w.log, pid))
    {
      FetchClaimKeeps(w, host, node);
      SinceStep(w0, w, FetchClaim(w, host, node));
      found := node in w.claims;
      w := FetchClaim(w, host, node);
    }

    /** Deletes the claim ref if it still holds this commit. */
    method DeleteClaim(node: Node, sha: Sha, ghost pid: Pid, ghost w0: World) returns (deleted: bool)
      requires Since(w0, w)
      modifies this
      ensures w == Release(old(w), node, sha) && deleted == old(Holds(w, node, sha)) && !Holds(w, node, sha)
      ensures Since(w0, w) && Later(old(w), w) && Mine(w.log, pid) == old(Mine(w.log, pid))
    {
      ReleaseKeeps(w, node, sha);
      SinceStep(w0, w, Release(w, node, sha));
      ReleaseIsNotMine(w, node, sha, pid);
      deleted := Holds(w, node, sha);
      w := Release(w, node, sha);
    }

    /** Replaces the claim with its renewal if it still holds the prior commit. */
    method ReplaceClaim(prior: Sha, fields: ClaimFields, ghost pid: Pid, ghost w0: World) returns (replaced: bool)
      requires Since(w0, w)
      modifies this
      ensures w == Renew(old(w), prior, fields) && replaced == old(Holds(w, fields.node, prior))
      ensures Since(w0, w) && Later(old(w), w) && Mine(w.log, pid) == old(Mine(w.log, pid))
    {
      RenewKeeps(w, prior, fields);
      SinceStep(w0, w, Renew(w, prior, fields));
      replaced := Holds(w, fields.node, prior);
      if replaced {
        MineAppend(w.log, Claimed(fields.node, Claim(prior, fields)), pid);
      }
      w := Renew(w, prior, fields);
    }

    /** One atomic push; `reached` is false when the request never arrived. */
    method PushRefs(host: Host, pid: Pid, l: Leases, after: Sha, reached: bool, ghost w0: World)
      returns (accepted: bool)
      requires Since(w0, w)
      requires LeasesHold(w, l) ==> Plain(after) && Descends(after, w.main)
      modifies this
      ensures accepted == (reached && old(LeasesHold(w, l)))
      ensures w == if accepted then PushAtomic(old(w), host, By(pid), l, after) else old(w)
      ensures Since(w0, w)
      ensures Mine(w.log, pid) == old(Mine(w.log, pid)) + (if accepted then [AcceptedEntry(pid, l, after)] else [])
    {
      accepted := reached && LeasesHold(w, l);
      if accepted {
        PushAtomicKeeps(w, host, By(pid), l, after);
        SinceStep(w0, w, PushAtomic(w, host, By(pid), l, after));
        MineAppend(w.log, AcceptedEntry(pid, l, after), pid);
        w := PushAtomic(w, host, By(pid), l, after);
      }
    }
  }

  function AcceptedEntry(pid: Pid, l: Leases, after: Sha): Entry {
    if l.claim.Some? then Published(By(pid), l.claim.value.0, l.claim.value.1, l.main, after)
    else Moved(By(pid), l.main, after)
  }

  function Max(a: nat, b: nat): nat {
    if a < b then b else a
  }

  function FencedOut(attempt: nat): PublishOutcome {
    PublishOutcome(false, true, None, attempt + 1)
  }

  /** Main values seen by the loser of no race: the lease read and the later read
      by name agree whenever the lease still holds at the remote. */
  lemma ReadsAgree(main: Sha, mainBefore: Sha, onto: Sha, result: Sha)
    requires Descends(onto, mainBefore) && Descends(main, onto) && Descends(result, onto)
    requires main == mainBefore
    ensures onto == mainBefore && Descends(result, main)
  {
    DescendsAntisymmetric(onto, mainBefore);
  }

  /** Local copies stay usable: the tracking refs never disappear. */
  lemma TrackingStays(w: World, w': World, host: Host, node: Node)
    requires Later(w, w')
    ensures host in w.trackMain ==> host in w'.trackMain && Descends(w'.trackMain[host], w.trackMain[host])
    ensures (host, node) in w.trackClaims ==> (host, node) in w'.trackClaims
    ensures Descends(w'.main, w.main)
  {
    Aspects(w, w');
  }

  lemma TrackedIsPlain(w: World, host: Host)
    requires Inv(w) && host in w.trackMain
    ensures Plain(w.trackMain[host]) && Descends(w.main, w.trackMain[host])
  {
    assert Keeps(w, OnMain);
  }

  /** A local copy of the claim that differs from a commit once held tells that
      the commit is lost, provided the copy was refreshed from the remote. */
  lemma StaleCopyMeansLost(w: World, w': World, host: Host, node: Node, c: Sha)
    requires Later(w, w') && WasHeld(w, node, c)
    requires (host, node) in w.trackClaims && Holds(w, node, w.trackClaims[(host, node)])
    requires (host, node) in w'.trackClaims && w'.trackClaims[(host, node)] != c
    ensures !Holds(w', node, c)
  {
    Aspects(w, w');
    if w.trackClaims[(host, node)] != c {
      assert !Holds(w, node, c);
    }
  }

  /** A claim that was lost before a copy of the remote was made is not what the copy
      says later, whatever others have fetched since. */
  lemma LostIsNotCopied(w: World, w1: World, w2: World, host: Host, node: Node, c: Sha)
    requires Later(w, w1) && Later(w1, w2) && WasHeld(w, node, c) && !Holds(w, node, c)
    requires (host, node) in w1.trackClaims && Holds(w1, node, w1.trackClaims[(host, node)])
    requires (host, node) in w2.trackClaims
    ensures w2.trackClaims[(host, node)] != c
  {
    Aspects(w, w1);
    Aspects(w1, w2);
    if w2.trackClaims[(host, node)] == c {
      assert WasHeld(w1, node, c) && !Holds(w1, node, c);
      assert IsStale(w1, w2, (host, node));
    }
  }

  lemma StillHeldOnce(w0: World, w: World, node: Node, c: Sha)
    requires Later(w0, w) && WasHeld(w0, node, c)
    ensures WasHeld(w, node, c)
  {
    Aspects(w0, w);
  }

  ghost predicate Undisturbed(env: Environment, attempt: nat) {
    forall p :: env.others(attempt, p) == []
  }

  /** Nobody interferes with the attempt and nothing fails in it. */
  ghost predicate Quiet(env: Environment, attempt: nat) {
    env.fault(attempt) == NoFault && env.rebase(attempt).Some? && Undisturbed(env, attempt)
  }

  /** The same, but the answer to its push is lost on the way back. */
  ghost predicate QuietButUnanswered(env: Environment, attempt: nat) {
    env.fault(attempt) == PushAnswerLost(true) && env.rebase(attempt).Some? && Undisturbed(env, attempt)
  }

  predicate RunRefIs(w: World, req: Request) {
    (req.node, req.token) in w.runs && w.runs[(req.node, req.token)] == req.runShaBefore
  }

  /** The local copy of `main` is not older than `main` was in `w0`. */
  predicate Tracks(w: World, host: Host, w0: World) {
    host in w.trackMain && Descends(w.trackMain[host], w0.main)
  }

  /** A copy of `main` made after `w0` is not older. */
  lemma FetchedTracks(w0: World, w: World, host: Host)
    requires Later(w0, w)
    ensures Tracks(FetchMain(w, host), host, w0)
  {
    Aspects(w0, w);
  }

  lemma TracksLater(w: World, w': World, host: Host, w0: World)
    requires Tracks(w, host, w0) && Later(w, w')
    ensures Tracks(w', host, w0)
  {
    Aspects(w, w');
    DescendsTransitive(w'.trackMain[host], w.trackMain[host], w0.main);
  }

  datatype Fence = Unreadable | Lost | Held
  datatype Fetched = MainFailed | ClaimFailed | Absent | Present

  /** Step 1 of an attempt: fetch `main` and the claim. */
  method FetchBoth(origin: Origin, host: Host, pid: Pid, node: Node, env: Environment, attempt: nat, ghost w0: World)
    returns (f: Fetched)
    requires Since(w0, origin.w) && ForeignEnvironment(env, pid)
    modifies origin
    ensures Since(w0, origin.w) && Mine(origin.w.log, pid) == old(Mine(origin.w.log, pid))
    ensures f == MainFailed <==> env.fault(attempt) == MainFetchFails
    ensures f == ClaimFailed <==> env.fault(attempt) == ClaimFetchFails
    ensures f != MainFailed ==> Tracks(origin.w, host, old(origin.w))
    ensures f == Absent ==> node !in origin.w.claims
    ensures f == Present ==>
              (host, node) in origin.w.trackClaims && Holds(origin.w, node, origin.w.trackClaims[(host, node)])
    ensures Undisturbed(env, attempt) && f == ClaimFailed ==> origin.w == FetchMain(old(origin.w), host)
    ensures Undisturbed(env, attempt) && (f == Present || f == Absent) ==>
              origin.w == FetchClaim(FetchMain(old(origin.w), host), host, node)
  {
    ghost var start := origin.w;
    origin.Interfere(env.others(attempt, 0), pid, w0);
    FetchedTracks(start, origin.w, host);
    if env.fault(attempt) == MainFetchFails {
      return MainFailed;
    }
    origin.FetchMainRef(host, pid, w0);
    ghost var w1 := origin.w;

    origin.Interfere(env.others(attempt, 1), pid, w0);
    TrackingStays(w1, origin.w, host, node);
    TracksLater(w1, origin.w, host, old(origin.w));
    if env.fault(attempt) == ClaimFetchFails {
      return ClaimFailed;
    }
    ghost var w2 := origin.w;
    var found := origin.FetchClaimRef(host, node, pid, w0);
    TracksLater(w2, origin.w, host, old(origin.w));
    return if found then Present else Absent;
  }

  /** Steps 1 and 2 of an attempt: fetch both and compare the claim with the commit
      this caller owns. */
  method CheckFence(origin: Origin, host: Host, pid: Pid, req: Request, env: Environment, attempt: nat,
                    ghost w0: World)
    returns (fence: Fence)
    requires Since(w0, origin.w) && WasHeld(w0, req.node, req.claimSha) && ForeignEnvironment(env, pid)
    modifies origin
    ensures Since(w0, origin.w)
    ensures Mine(origin.w.log, pid) == old(Mine(origin.w.log, pid))
    ensures fence == Held ==> Tracks(origin.w, host, old(origin.w)) && Holds(w0, req.node, req.claimSha)
    ensures fence == Lost && env.fault(attempt) != ClaimFetchFails ==> !Holds(origin.w, req.node, req.claimSha)
    ensures fence == Unreadable <==> env.fault(attempt) == MainFetchFails
    ensures env.fault(attempt) == ClaimFetchFails ==> fence == Lost
    ensures env.fault(attempt) == ClaimFetchFails && Undisturbed(env, attempt) ==>
              origin.w == FetchMain(old(origin.w), host)
    ensures Undisturbed(env, attempt) && env.fault(attempt) !in {MainFetchFails, ClaimFetchFails} &&
            Holds(old(origin.w), req.node, req.claimSha) ==>
              fence == Held && origin.w == FetchClaim(FetchMain(old(origin.w), host), host, req.node)
  {
    var f := FetchBoth(origin, host, pid, req.node, env, attempt, w0);
    if f == MainFailed {
      return Unreadable;
    }
    if f != Present {
      return Lost;
    }
    ghost var w2 := origin.w;
    StillHeldOnce(w0, w2, req.node, req.claimSha);

    origin.Interfere(env.others(attempt, 2), pid, w0);
    TrackingStays(w2, origin.w, host, req.node);
    TracksLater(w2, origin.w, host, old(origin.w));
    if origin.w.trackClaims[(host, req.node)] == req.claimSha {
      if !Holds(w0, req.node, req.claimSha) {
        LostIsNotCopied(w0, w2, origin.w, host, req.node, req.claimSha);
      }
      return Held;
    }
    StaleCopyMeansLost(w2, origin.w, host, req.node, req.claimSha);
    return Lost;
  }

  datatype PushVerdict = Conflict | AnswerLost | Rejected | Accepted(before: Sha, result: Sha)

  /** A push: the remote at that moment, the leases, and the value it asks for. */
  datatype PushSent = PushSent(at: World, leases: Leases, after: Sha)

  /** What a push whose answer is lost leaves in the log: its entry exactly when it
      arrived and its leases held. */
  function LostPush(pid: Pid, p: PushSent, arrived: bool): seq<Entry> {
    if arrived && LeasesHold(p.at, p.leases) then [AcceptedEntry(pid, p.leases, p.after)] else []
  }

  /** The patches on top of a value of `main` not older than the lease. */
  ghost predicate Rebased(mainBefore: Sha, patches: Option<seq<Patch>>, result: Sha) {
    patches.Some? && exists onto :: Descends(onto, mainBefore) && result == Stack(onto, patches.value)
  }

  /** What a call publishes: the rebased head of a run, or one commit of its own,
      which may belong to a run. */
  datatype Call = Rebasing(req: Request) | Committing(owner: Option<Request>)

  function CommitLeases(req: Option<Request>, mainBefore: Sha): Leases {
    if req.Some? then FailureLeases(req.value, mainBefore) else Leases(mainBefore, None, None)
  }

  /** The push asks for what the attempt made and carries the leases of the call; its
      lease on `main` is not older than `main` was when the attempt began. */
  ghost predicate IsPushOf(c: Call, env: Environment, attempt: nat, start: World, p: PushSent) {
    && Later(start, p.at) && Descends(p.leases.main, start.main)
    && match c
       case Rebasing(req) =>
         p.leases == FullLeases(req, p.leases.main) && Rebased(p.leases.main, env.rebase(attempt), p.after)
       case Committing(owner) =>
         && p.leases == CommitLeases(owner, p.leases.main)
         && env.commit(attempt).Some? && p.after == Work(p.leases.main, env.commit(attempt).value)
  }

  /** Steps 3 and 4: read the lease, then rebase onto whatever the tracking ref
      holds by then. */
  method ReadAndRebase(origin: Origin, host: Host, pid: Pid, env: Environment, attempt: nat, ghost w0: World)
    returns (mainBefore: Sha, result: Option<Sha>)
    requires Since(w0, origin.w) && host in origin.w.trackMain && ForeignEnvironment(env, pid)
    modifies origin
    ensures Since(w0, origin.w) && Mine(origin.w.log, pid) == old(Mine(origin.w.log, pid))
    ensures Later(old(origin.w), origin.w) && Descends(mainBefore, old(origin.w).trackMain[host])
    ensures result.None? <==> env.rebase(attempt).None?
    ensures result.Some? ==> Rebased(mainBefore, env.rebase(attempt), result.value)
    ensures result.Some? && origin.w.main == mainBefore ==>
              Plain(result.value) && result.value == Stack(mainBefore, env.rebase(attempt).value)
    ensures Undisturbed(env, attempt) ==> origin.w == old(origin.w) && mainBefore == old(origin.w).trackMain[host]
    ensures Undisturbed(env, attempt) && result.Some? ==>
              result.value == Stack(old(origin.w).trackMain[host], env.rebase(attempt).value)
  {
    ghost var w1 := origin.w;
    origin.Interfere(env.others(attempt, 3), pid, w0);
    TrackingStays(w1, origin.w, host, "");
    mainBefore := origin.w.trackMain[host];
    ghost var w2 := origin.w;

    origin.Interfere(env.others(attempt, 4), pid, w0);
    TrackingStays(w2, origin.w, host, "");
    LaterTransitive(w1, w2, origin.w);
    ghost var w3 := origin.w;
    if env.rebase(attempt).None? {
      origin.Interfere(env.others(attempt, 5), pid, w0);
      LaterTransitive(w1, w3, origin.w);
      return mainBefore, None;
    }
    var onto := origin.w.trackMain[host];
    result := Some(Stack(onto, env.rebase(attempt).value));
    StackDescends(onto, env.rebase(attempt).value);
    TrackedIsPlain(w3, host);

    origin.Interfere(env.others(attempt, 5), pid, w0);
    LaterTransitive(w1, w3, origin.w);
    TrackingStays(w3, origin.w, host, "");
    DescendsTransitive(origin.w.main, w3.main, onto);
    if origin.w.main == mainBefore {
      ReadsAgree(origin.w.main, mainBefore, onto, result.value);
    }
  }

  /** Step 5: the atomic push of the rebased head. */
  method PushRebased(origin: Origin, host: Host, pid: Pid, req: Request, mainBefore: Sha, result: Sha, fault: Fault,
                     ghost w0: World)
    returns (v: PushVerdict, ghost sent: Option<PushSent>)
    requires Since(w0, origin.w)
    requires origin.w.main == mainBefore ==> Plain(result) && Descends(result, mainBefore)
    modifies origin
    ensures Since(w0, origin.w) && sent == Some(PushSent(old(origin.w), FullLeases(req, mainBefore), result))
    ensures v.AnswerLost? <==> fault.PushAnswerLost?
    ensures v.AnswerLost? ==>
              Mine(origin.w.log, pid) == old(Mine(origin.w.log, pid)) +
                LostPush(pid, sent.value, fault == PushAnswerLost(true))
    ensures v.Rejected? ==> origin.w == old(origin.w) && !LeasesHold(origin.w, FullLeases(req, mainBefore))
    ensures v.Accepted? ==>
              && v == Accepted(mainBefore, result) && LeasesHold(old(origin.w), FullLeases(req, mainBefore))
              && Mine(origin.w.log, pid) == old(Mine(origin.w.log, pid)) +
                   [Published(By(pid), req.node, req.claimSha, mainBefore, result)]
    ensures !v.Conflict?
    ensures fault != PushAnswerLost(false) ==>
              origin.w == PushAtomic(old(origin.w), host, By(pid), FullLeases(req, mainBefore), result)
  {
    var l := FullLeases(req, mainBefore);
    sent := Some(PushSent(origin.w, l, result));
    var accepted := origin.PushRefs(host, pid, l, result, fault != PushAnswerLost(false), w0);
    if fault.PushAnswerLost? {
      return AnswerLost, sent;
    }
    return (if accepted then Accepted(mainBefore, result) else Rejected), sent;
  }

  /** Steps 3 to 5: lease, rebase and push. An accepted result descends from the
      value it replaces. */
  method RebaseAndPush(origin: Origin, host: Host, pid: Pid, req: Request, env: Environment, attempt: nat,
                       ghost w0: World)
    returns (v: PushVerdict, ghost sent: Option<PushSent>)
    requires Since(w0, origin.w) && host in origin.w.trackMain && ForeignEnvironment(env, pid)
    modifies origin
    ensures Since(w0, origin.w)
    ensures v.Accepted? ==>
              && env.rebase(attempt).Some? && v.result == Stack(v.before, env.rebase(attempt).value)
              && Descends(v.before, old(origin.w).trackMain[host]) && !Holds(origin.w, req.node, req.claimSha)
              && Mine(origin.w.log, pid) == old(Mine(origin.w.log, pid)) +
                   [Published(By(pid), req.node, req.claimSha, v.before, v.result)]
    ensures v.Conflict? || v.Rejected? ==> Mine(origin.w.log, pid) == old(Mine(origin.w.log, pid))
    ensures v.Rejected? || v.AnswerLost? ==>
              && sent.Some? && Since(w0, sent.value.at)
              && sent.value.leases == FullLeases(req, sent.value.leases.main)
              && Descends(sent.value.leases.main, old(origin.w).trackMain[host])
              && Rebased(sent.value.leases.main, env.rebase(attempt), sent.value.after)
    ensures v.Rejected? ==> origin.w == sent.value.at && !LeasesHold(sent.value.at, sent.value.leases)
    ensures v.AnswerLost? <==> env.fault(attempt).PushAnswerLost? && env.rebase(attempt).Some?
    ensures v.AnswerLost? ==>
              Mine(origin.w.log, pid) == old(Mine(origin.w.log, pid)) +
                LostPush(pid, sent.value, env.fault(attempt) == PushAnswerLost(true))
    ensures Quiet(env, attempt) || QuietButUnanswered(env, attempt) ==>
              var w1 := old(origin.w);
              var result := Stack(w1.trackMain[host], env.rebase(attempt).value);
              var l := FullLeases(req, w1.trackMain[host]);
              LeasesHold(w1, l) ==>
                && origin.w == PushAtomic(w1, host, By(pid), l, result)
                && v == (if Quiet(env, attempt) then Accepted(w1.main, result) else AnswerLost)
    ensures v == Conflict <==> env.rebase(attempt).None?
    ensures v == Conflict && Undisturbed(env, attempt) ==> origin.w == old(origin.w)
  {
    sent := None;
    var mainBefore, result := ReadAndRebase(origin, host, pid, env, attempt, w0);
    if result.None? {
      return Conflict, sent;
    }
    if origin.w.main == mainBefore {
      StackDescends(mainBefore, env.rebase(attempt).value);
    }
    v, sent := PushRebased(origin, host, pid, req, mainBefore, result.value, env.fault(attempt), w0);
  }

  /** A whole attempt when nobody interferes: the push goes through. */
  ghost predicate PublishesNow(w: World, w': World, req: Request, env: Environment, attempt: nat)
    requires env.rebase(attempt).Some?
  {
    && w'.main == Stack(w.main, env.rebase(attempt).value)
    && w'.claims == w.claims - {req.node}
    && w'.runs == w.runs - {(req.node, req.token)}
  }

  ghost predicate CanPublishNow(w: World, req: Request, env: Environment, attempt: nat) {
    Quiet(env, attempt) && Holds(w, req.node, req.claimSha) && RunRefIs(w, req)
  }

  ghost predicate PublishesUnanswered(w: World, req: Request, env: Environment, attempt: nat) {
    QuietButUnanswered(env, attempt) && Holds(w, req.node, req.claimSha) && RunRefIs(w, req)
  }

  /** The claim is there, nobody interferes, and the rebase fails. */
  ghost predicate ConflictsNow(w: World, req: Request, env: Environment, attempt: nat) {
    && env.fault(attempt) == NoFault && env.rebase(attempt).None? && Undisturbed(env, attempt)
    && Holds(w, req.node, req.claimSha)
  }

  predicate SameRemote(w: World, w': World) {
    w'.main == w.main && w'.claims == w.claims && w'.runs == w.runs
  }

  datatype AttemptVerdict = FencedAway | Failed(error: PublishError) | Raced | Won(before: Sha, result: Sha)

  function VerdictOf(push: PushVerdict): AttemptVerdict {
    match push
    case Conflict => Failed(RebaseConflict)
    case AnswerLost => Failed(PushFailed)
    case Accepted(before, result) => Won(before, result)
    case Rejected => Raced
  }

  /** An attempt that was turned down: the remote when it began, and its push. */
  datatype Try = Try(start: World, sent: PushSent)

  /** The network lets the call through; a call without an owner fetches no claim. */
  predicate LetsThrough(c: Call, fault: Fault) {
    fault == NoFault || (c == Committing(None) && fault == ClaimFetchFails)
  }

  /** Nobody interferes and nothing fails, and the claim is there. */
  ghost predicate CanCommitNow(w: World, owner: Option<Request>, env: Environment, attempt: nat) {
    && Undisturbed(env, attempt) && LetsThrough(Committing(owner), env.fault(attempt)) && env.commit(attempt).Some?
    && (owner.Some? ==> Holds(w, owner.value.node, owner.value.claimSha))
  }

  ghost predicate CanWin(c: Call, w: World, env: Environment, attempt: nat) {
    match c
    case Rebasing(req) => CanPublishNow(w, req, env, attempt)
    case Committing(owner) => CanCommitNow(w, owner, env, attempt)
  }

  /** The claim of the call, if it has one, is held. */
  predicate HoldsFor(c: Call, w: World) {
    match c
    case Rebasing(req) => Holds(w, req.node, req.claimSha)
    case Committing(owner) => owner.Some? ==> Holds(w, owner.value.node, owner.value.claimSha)
  }

  /** The attempt began with the claim, did push what it had to, and some lease did not
      hold by then. */
  ghost predicate LostRace(c: Call, env: Environment, attempt: nat, t: Try) {
    && LetsThrough(c, env.fault(attempt)) && IsPushOf(c, env, attempt, t.start, t.sent) && HoldsFor(c, t.start)
    && !LeasesHold(t.sent.at, t.sent.leases) && !CanWin(c, t.start, env, attempt)
  }

  /** Every attempt so far lost its race; each began where the one before it ended. */
  ghost predicate LostRaces(c: Call, w0: World, env: Environment, tries: seq<Try>, w: World)
    decreases |tries|
  {
    if tries == [] then w == w0
    else
      var n := |tries| - 1;
      LostRaces(c, w0, env, tries[..n], tries[n].start) && LostRace(c, env, n, tries[n]) && w == tries[n].sent.at
  }

  lemma OneMoreLost(c: Call, w0: World, env: Environment, tries: seq<Try>, t: Try)
    requires LostRaces(c, w0, env, tries, t.start) && LostRace(c, env, |tries|, t)
    ensures LostRaces(c, w0, env, tries + [t], t.sent.at)
  {
    assert (tries + [t])[..|tries|] == tries;
  }

  /** A first attempt that something befalls, or that can win, has lost no race. */
  lemma {:induction false} FirstDecides(c: Call, w0: World, env: Environment, tries: seq<Try>, w: World)
    requires LostRaces(c, w0, env, tries, w)
    requires !LetsThrough(c, env.fault(0)) || CanWin(c, w0, env, 0)
             || !HoldsFor(c, w0) || if c.Rebasing? then env.rebase(0).None? else env.commit(0).None?
    ensures tries == [] && w == w0
    decreases |tries|
  {
    if tries != [] {
      FirstDecides(c, w0, env, tries[..|tries| - 1], tries[|tries| - 1].start);
    }
  }

  /** Right after an undisturbed fence all leases hold. */
  lemma FenceThenFullLeases(w: World, host: Host, pid: Pid, req: Request, result: Sha)
    requires Holds(w, req.node, req.claimSha) && RunRefIs(w, req)
    ensures var w1 := FetchClaim(FetchMain(w, host), host, req.node);
            var l := FullLeases(req, w1.trackMain[host]);
            var w2 := PushAtomic(w1, host, By(pid), l, result);
            && w1.trackMain[host] == w.main && w1.main == w.main && LeasesHold(w1, l)
            && w2.claims == w.claims - {req.node} && w2.runs == w.runs - {(req.node, req.token)} && w2.main == result
  {
  }

  /** One turn of the retry loop. */
  method Attempt(origin: Origin, host: Host, pid: Pid, req: Request, env: Environment, attempt: nat)
    returns (v: AttemptVerdict, ghost sent: Option<PushSent>)
    requires Inv(origin.w) && WasHeld(origin.w, req.node, req.claimSha) && ForeignEnvironment(env, pid)
    modifies origin
    ensures Since(old(origin.w), origin.w)
    ensures v.Won? ==>
              && env.rebase(attempt).Some? && v.result == Stack(v.before, env.rebase(attempt).value)
              && Descends(v.before, old(origin.w).main) && !Holds(origin.w, req.node, req.claimSha)
              && Mine(origin.w.log, pid) == old(Mine(origin.w.log, pid)) +
                   [Published(By(pid), req.node, req.claimSha, v.before, v.result)]
    ensures v.FencedAway? || v.Raced? ==> Mine(origin.w.log, pid) == old(Mine(origin.w.log, pid))
    ensures v.Raced? ==>
              && sent.Some? && origin.w == sent.value.at
              && LostRace(Rebasing(req), env, attempt, Try(old(origin.w), sent.value))
    ensures v.Failed? && v.error != PushFailed ==> Mine(origin.w.log, pid) == old(Mine(origin.w.log, pid))
    ensures v == Failed(PushFailed) ==>
              && sent.Some? && IsPushOf(Rebasing(req), env, attempt, old(origin.w), sent.value)
              && Mine(origin.w.log, pid) == old(Mine(origin.w.log, pid)) +
                   LostPush(pid, sent.value, env.fault(attempt) == PushAnswerLost(true))
    ensures v.Failed? ==> v.error in {FetchFailed, RebaseConflict, PushFailed}
    ensures v == Failed(FetchFailed) <==> env.fault(attempt) == MainFetchFails
    ensures v == Failed(PushFailed) ==> env.fault(attempt).PushAnswerLost?
    ensures v == Failed(RebaseConflict) ==> env.rebase(attempt).None?
    ensures !Holds(old(origin.w), req.node, req.claimSha) && env.fault(attempt) != MainFetchFails ==> v == FencedAway
    ensures v.FencedAway? && env.fault(attempt) != ClaimFetchFails ==> !Holds(origin.w, req.node, req.claimSha)
    ensures env.fault(attempt) == ClaimFetchFails ==> v == FencedAway
    ensures env.fault(attempt) == ClaimFetchFails && Undisturbed(env, attempt) ==>
              origin.w == FetchMain(old(origin.w), host)
    ensures CanPublishNow(old(origin.w), req, env, attempt) ==>
              && PublishesNow(old(origin.w), origin.w, req, env, attempt)
              && v == Won(old(origin.w.main), origin.w.main)
    ensures PublishesUnanswered(old(origin.w), req, env, attempt) ==>
              PublishesNow(old(origin.w), origin.w, req, env, attempt) && v == Failed(PushFailed)
    ensures ConflictsNow(old(origin.w), req, env, attempt) ==>
              v == Failed(RebaseConflict) && SameRemote(old(origin.w), origin.w)
  {
    sent := None;
    ghost var start := origin.w;
    LaterReflexive(start);
    var fence := CheckFence(origin, host, pid, req, env, attempt, start);
    if fence != Held {
      return (if fence == Unreadable then Failed(FetchFailed) else FencedAway), sent;
    }
    ghost var w1 := origin.w;
    if env.rebase(attempt).Some? && Holds(start, req.node, req.claimSha) && RunRefIs(start, req) {
      FenceThenFullLeases(start, host, pid, req, Stack(start.main, env.rebase(attempt).value));
    }
    var push;
    push, sent := RebaseAndPush(origin, host, pid, req, env, attempt, start);
    v := VerdictOf(push);
    if push.Accepted? {
      DescendsTransitive(push.before, w1.trackMain[host], start.main);
    } else if push.Rejected? || push.AnswerLost? {
      DescendsTransitive(sent.value.leases.main, w1.trackMain[host], start.main);
    }
  }

  predicate IsExhausted(r: Result<PublishOutcome, PublishError>) {
    r.Ok? && !r.value.published && !r.value.fenced
  }

  /** Fenced publish. The outcome is truthful: an accepted push of this call is in
      the log exactly when `published` is returned; otherwise the call wrote
      nothing, unless the answer to a push that arrived was lost. A `fenced`
      verdict that is not a failed fetch means the claim is gone for good. All
      attempts before the last lost a race, and so did the last when the retries
      run out: `tries` are their pushes, and `start` is the remote when the
      deciding attempt began. */
  method FencedPublish(origin: Origin, host: Host, pid: Pid, req: Request, retryMax: nat, env: Environment)
    returns (r: Result<PublishOutcome, PublishError>, ghost made: nat, ghost sent: Option<PushSent>,
             ghost tries: seq<Try>, ghost start: World)
    requires Inv(origin.w) && WasHeld(origin.w, req.node, req.claimSha) && ForeignEnvironment(env, pid)
    modifies origin
    ensures Since(old(origin.w), origin.w)
    ensures 1 <= made <= Max(retryMax, 1) && |tries| == if IsExhausted(r) then made else made - 1
    ensures LostRaces(Rebasing(req), old(origin.w), env, tries, start)
    ensures r.Ok? && r.value.published ==>
              && !r.value.fenced && !Holds(origin.w, req.node, req.claimSha) && env.rebase(made - 1).Some?
              && exists before ::
                   && Descends(before, start.main)
                   && r.value.resultSha == Some(Stack(before, env.rebase(made - 1).value))
                   && Mine(origin.w.log, pid) == old(Mine(origin.w.log, pid)) +
                        [Published(By(pid), req.node, req.claimSha, before, r.value.resultSha.value)]
    ensures r.Ok? && !r.value.published ==>
              r.value.resultSha.None? && Mine(origin.w.log, pid) == old(Mine(origin.w.log, pid))
    ensures r.Err? && r.error != PushFailed ==> Mine(origin.w.log, pid) == old(Mine(origin.w.log, pid))
    ensures r == Err(PushFailed) ==>
              && env.fault(made - 1).PushAnswerLost?
              && sent.Some? && IsPushOf(Rebasing(req), env, made - 1, start, sent.value)
              && Mine(origin.w.log, pid) == old(Mine(origin.w.log, pid)) +
                   LostPush(pid, sent.value, env.fault(made - 1) == PushAnswerLost(true))
    ensures r == Err(FetchFailed) <==> env.fault(made - 1) == MainFetchFails
    ensures r == Err(RebaseConflict) ==> env.rebase(made - 1).None?
    ensures r.Err? ==> r.error in {FetchFailed, RebaseConflict, PushFailed}
    ensures r.Ok? && r.value.fenced && env.fault(made - 1) != ClaimFetchFails ==>
              !Holds(origin.w, req.node, req.claimSha)
    ensures env.fault(made - 1) == ClaimFetchFails ==> r == Ok(FencedOut(made - 1))
    ensures env.fault(made - 1) == ClaimFetchFails && Undisturbed(env, made - 1) ==>
              origin.w == FetchMain(start, host)
    ensures !Holds(start, req.node, req.claimSha) && env.fault(made - 1) != MainFetchFails && !IsExhausted(r) ==>
              r == Ok(FencedOut(made - 1))
    ensures IsExhausted(r) ==> made == Max(retryMax, 1) && r.value.attempts == retryMax && origin.w == start
    ensures r.Ok? && !IsExhausted(r) ==> r.value.attempts == made
    ensures !IsExhausted(r) && CanPublishNow(start, req, env, made - 1) ==>
              && PublishesNow(start, origin.w, req, env, made - 1)
              && r == Ok(PublishOutcome(true, false, Some(origin.w.main), made))
    ensures PublishesUnanswered(start, req, env, made - 1) ==>
              PublishesNow(start, origin.w, req, env, made - 1) && r == Err(PushFailed)
    ensures ConflictsNow(start, req, env, made - 1) ==> r == Err(RebaseConflict) && SameRemote(start, origin.w)
  {
    made, sent, tries, start := 0, None, [], origin.w;
    ghost var w0 := origin.w;
    LaterReflexive(w0);
    var attempts := if retryMax == 0 then 1 else retryMax;
    for attempt := 0 to attempts
      invariant Since(w0, origin.w) && Mine(origin.w.log, pid) == Mine(w0.log, pid)
      invariant made == attempt == |tries| && LostRaces(Rebasing(req), w0, env, tries, origin.w)
      invariant attempt > 0 ==> env.fault(attempt - 1) == NoFault && env.rebase(attempt - 1).Some?
    {
      made, start := attempt + 1, origin.w;
      var v;
      StillHeldOnce(w0, start, req.node, req.claimSha);
      v, sent := Attempt(origin, host, pid, req, env, attempt);
      SinceStep(w0, start, origin.w);
      match v {
        case FencedAway => return Ok(FencedOut(attempt)), made, sent, tries, start;
        case Failed(error) => return Err(error), made, sent, tries, start;
        case Won(_, result) =>
          return Ok(PublishOutcome(true, false, Some(result), attempt + 1)), made, sent, tries, start;
        case Raced =>
          OneMoreLost(Rebasing(req), w0, env, tries, Try(start, sent.value));
          tries := tries + [Try(start, sent.value)];
      }
    }
    start := origin.w;
    r := Ok(PublishOutcome(false, false, None, retryMax));
  }

  datatype CommitVerdict = NoMain | NoClaim | Unchanged | Unanswered | TurnedDown | Landed(before: Sha, result: Sha)

  /** The lease is read; whatever others do until the push comes after. */
  method ReadOnce(origin: Origin, host: Host, pid: Pid, env: Environment, attempt: nat, ghost w0: World)
    returns (mainBefore: Sha)
    requires Since(w0, origin.w) && host in origin.w.trackMain && ForeignEnvironment(env, pid)
    modifies origin
    ensures Since(w0, origin.w) && Mine(origin.w.log, pid) == old(Mine(origin.w.log, pid)) && Plain(mainBefore)
    ensures Descends(mainBefore, old(origin.w).trackMain[host])
    ensures Undisturbed(env, attempt) ==> origin.w == old(origin.w) && mainBefore == old(origin.w).trackMain[host]
  {
    ghost var w1 := origin.w;
    origin.Interfere(env.others(attempt, 3), pid, w0);
    TrackingStays(w1, origin.w, host, "");
    mainBefore := origin.w.trackMain[host];
    TrackedIsPlain(origin.w, host);
    origin.Interfere(env.others(attempt, 4), pid, w0);
    origin.Interfere(env.others(attempt, 5), pid, w0);
  }

  /** The push of a commit right on top of the leased `main`. */
  method PushCommitted(origin: Origin, host: Host, pid: Pid, owner: Option<Request>, mainBefore: Sha, patch: Patch,
                       fault: Fault, ghost w0: World)
    returns (v: CommitVerdict, ghost sent: Option<PushSent>)
    requires Since(w0, origin.w) && Plain(mainBefore)
    modifies origin
    ensures Since(w0, origin.w)
    ensures sent == Some(PushSent(old(origin.w), CommitLeases(owner, mainBefore), Work(mainBefore, patch)))
    ensures v.Landed? || v.TurnedDown? || v.Unanswered?
    ensures v.Unanswered? <==> fault.PushAnswerLost?
    ensures v.Unanswered? ==>
              Mine(origin.w.log, pid) == old(Mine(origin.w.log, pid)) +
                LostPush(pid, sent.value, fault == PushAnswerLost(true))
    ensures v.TurnedDown? ==> origin.w == old(origin.w) && !LeasesHold(origin.w, CommitLeases(owner, mainBefore))
    ensures v.Landed? ==>
              && v == Landed(mainBefore, Work(mainBefore, patch))
              && LeasesHold(old(origin.w), CommitLeases(owner, mainBefore))
              && Mine(origin.w.log, pid) == old(Mine(origin.w.log, pid)) +
                   [AcceptedEntry(pid, CommitLeases(owner, mainBefore), v.result)]
    ensures fault != PushAnswerLost(false) ==>
              origin.w == PushAtomic(old(origin.w), host, By(pid), CommitLeases(owner, mainBefore),
                                     Work(mainBefore, patch))
  {
    var l, result := CommitLeases(owner, mainBefore), Work(mainBefore, patch);
    assert Descends(result, mainBefore);
    sent := Some(PushSent(origin.w, l, result));
    var accepted := origin.PushRefs(host, pid, l, result, fault != PushAnswerLost(false), w0);
    if fault.PushAnswerLost? {
      return Unanswered, sent;
    }
    return (if accepted then Landed(mainBefore, result) else TurnedDown), sent;
  }

  /** A commit in a throw-away worktree made from the very sha that is leased, so
      here there is no second read of the tracking ref. */
  method PushOneCommit(origin: Origin, host: Host, pid: Pid, owner: Option<Request>, env: Environment, attempt: nat,
                       ghost w0: World)
    returns (v: CommitVerdict, ghost sent: Option<PushSent>)
    requires Since(w0, origin.w) && host in origin.w.trackMain && ForeignEnvironment(env, pid)
    modifies origin
    ensures Since(w0, origin.w)
    ensures v.Landed? ==>
              && env.commit(attempt).Some? && v.result == Work(v.before, env.commit(attempt).value)
              && Descends(v.before, old(origin.w).trackMain[host])
              && (owner.Some? ==> !Holds(origin.w, owner.value.node, owner.value.claimSha))
              && Mine(origin.w.log, pid) == old(Mine(origin.w.log, pid)) +
                   [AcceptedEntry(pid, CommitLeases(owner, v.before), v.result)]
    ensures !v.Landed? && !v.Unanswered? ==> Mine(origin.w.log, pid) == old(Mine(origin.w.log, pid))
    ensures !v.NoMain? && !v.NoClaim?
    ensures v.Unchanged? <==> env.commit(attempt).None?
    ensures v.TurnedDown? || v.Unanswered? ==>
              && sent.Some? && Since(w0, sent.value.at)
              && sent.value.leases == CommitLeases(owner, sent.value.leases.main)
              && Descends(sent.value.leases.main, old(origin.w).trackMain[host])
              && sent.value.after == Work(sent.value.leases.main, env.commit(attempt).value)
    ensures v.TurnedDown? ==> origin.w == sent.value.at && !LeasesHold(sent.value.at, sent.value.leases)
    ensures v.Unanswered? <==> env.fault(attempt).PushAnswerLost? && env.commit(attempt).Some?
    ensures v.Unanswered? ==>
              Mine(origin.w.log, pid) == old(Mine(origin.w.log, pid)) +
                LostPush(pid, sent.value, env.fault(attempt) == PushAnswerLost(true))
    ensures Undisturbed(env, attempt) && env.fault(attempt) != PushAnswerLost(false) && env.commit(attempt).Some? ==>
              var w1 := old(origin.w);
              var l := CommitLeases(owner, w1.trackMain[host]);
              var result := Work(w1.trackMain[host], env.commit(attempt).value);
              LeasesHold(w1, l) ==>
                && origin.w == PushAtomic(w1, host, By(pid), l, result)
                && v == (if env.fault(attempt).PushAnswerLost? then Unanswered else Landed(w1.main, result))
  {
    sent := None;
    var mainBefore := ReadOnce(origin, host, pid, env, attempt, w0);
    if env.commit(attempt).None? {
      return Unchanged, sent;
    }
    v, sent := PushCommitted(origin, host, pid, owner, mainBefore, env.commit(attempt).value, env.fault(attempt), w0);
  }

  /** Right after an undisturbed fence the failure leases hold. */
  lemma FenceThenFailureLeases(w: World, host: Host, pid: Pid, req: Request, result: Sha)
    requires Holds(w, req.node, req.claimSha)
    ensures var w1 := FetchClaim(FetchMain(w, host), host, req.node);
            var l := CommitLeases(Some(req), w1.trackMain[host]);
            var w2 := PushAtomic(w1, host, By(pid), l, result);
            && w1.trackMain[host] == w.main && w1.main == w.main && LeasesHold(w1, l)
            && w2.claims == w.claims - {req.node} && w2.runs == w.runs && w2.main == result
  {
  }

  /** The claim is gone, unless it could not be fetched. */
  ghost predicate IsFencedOut(w: World, req: Request, env: Environment, attempt: nat) {
    env.fault(attempt) != ClaimFetchFails ==> !Holds(w, req.node, req.claimSha)
  }

  /** One turn of the failure loop: the fence of a publication, then one commit. */
  method FailureAttempt(origin: Origin, host: Host, pid: Pid, req: Request, env: Environment, attempt: nat)
    returns (v: CommitVerdict, ghost sent: Option<PushSent>)
    requires Inv(origin.w) && WasHeld(origin.w, req.node, req.claimSha) && ForeignEnvironment(env, pid)
    modifies origin
    ensures Since(old(origin.w), origin.w)
    ensures v.Landed? ==>
              && env.commit(attempt).Some? && v.result == Work(v.before, env.commit(attempt).value)
              && Descends(v.before, old(origin.w).main) && !Holds(origin.w, req.node, req.claimSha)
              && Mine(origin.w.log, pid) == old(Mine(origin.w.log, pid)) +
                   [Published(By(pid), req.node, req.claimSha, v.before, v.result)]
    ensures v.TurnedDown? ==>
              && sent.Some? && origin.w == sent.value.at
              && LostRace(Committing(Some(req)), env, attempt, Try(old(origin.w), sent.value))
    ensures v.Unanswered? ==>
              && env.fault(attempt).PushAnswerLost?
              && sent.Some? && IsPushOf(Committing(Some(req)), env, attempt, old(origin.w), sent.value)
              && Mine(origin.w.log, pid) == old(Mine(origin.w.log, pid)) +
                   LostPush(pid, sent.value, env.fault(attempt) == PushAnswerLost(true))
    ensures !v.Landed? && !v.Unanswered? ==> Mine(origin.w.log, pid) == old(Mine(origin.w.log, pid))
    ensures v.NoMain? <==> env.fault(attempt) == MainFetchFails
    ensures v.NoClaim? ==> IsFencedOut(origin.w, req, env, attempt)
    ensures env.fault(attempt) == ClaimFetchFails ==> v == NoClaim
    ensures !Holds(old(origin.w), req.node, req.claimSha) && env.fault(attempt) != MainFetchFails ==> v == NoClaim
    ensures v.Unchanged? ==> env.commit(attempt).None?
    ensures CanCommitNow(old(origin.w), Some(req), env, attempt) ==>
              && v == Landed(old(origin.w.main), Work(old(origin.w.main), env.commit(attempt).value))
              && origin.w.main == v.result
              && origin.w.claims == old(origin.w.claims) - {req.node} && origin.w.runs == old(origin.w.runs)
  {
    sent := None;
    ghost var start := origin.w;
    LaterReflexive(start);
    var fence := CheckFence(origin, host, pid, req, env, attempt, start);
    if fence == Unreadable {
      return NoMain, sent;
    } else if fence == Lost {
      return NoClaim, sent;
    }
    ghost var w1 := origin.w;
    if CanCommitNow(start, Some(req), env, attempt) {
      FenceThenFailureLeases(start, host, pid, req, Work(start.main, env.commit(attempt).value));
    }
    v, sent := PushOneCommit(origin, host, pid, Some(req), env, attempt, start);
    LeaseIsRecent(v, sent, w1, host, start);
  }

  lemma LeaseIsRecent(v: CommitVerdict, sent: Option<PushSent>, w1: World, host: Host, start: World)
    requires Tracks(w1, host, start)
    requires v.Landed? ==> Descends(v.before, w1.trackMain[host])
    requires v.TurnedDown? || v.Unanswered? ==> sent.Some? && Descends(sent.value.leases.main, w1.trackMain[host])
    ensures v.Landed? ==> Descends(v.before, start.main)
    ensures v.TurnedDown? || v.Unanswered? ==> Descends(sent.value.leases.main, start.main)
  {
    if v.Landed? {
      DescendsTransitive(v.before, w1.trackMain[host], start.main);
    } else if v.TurnedDown? || v.Unanswered? {
      DescendsTransitive(sent.value.leases.main, w1.trackMain[host], start.main);
    }
  }

  /** One turn of the lifecycle loop. */
  method LifecycleAttempt(origin: Origin, host: Host, pid: Pid, env: Environment, attempt: nat)
    returns (v: CommitVerdict, ghost sent: Option<PushSent>)
    requires Inv(origin.w) && ForeignEnvironment(env, pid)
    modifies origin
    ensures Since(old(origin.w), origin.w)
    ensures v.Landed? ==>
              && env.commit(attempt).Some? && v.result == Work(v.before, env.commit(attempt).value)
              && Descends(v.before, old(origin.w).main)
              && Mine(origin.w.log, pid) == old(Mine(origin.w.log, pid)) + [Moved(By(pid), v.before, v.result)]
    ensures v.TurnedDown? ==>
              && sent.Some? && origin.w == sent.value.at
              && LostRace(Committing(None), env, attempt, Try(old(origin.w), sent.value))
    ensures v.Unanswered? ==>
              && env.fault(attempt).PushAnswerLost?
              && sent.Some? && IsPushOf(Committing(None), env, attempt, old(origin.w), sent.value)
              && Mine(origin.w.log, pid) == old(Mine(origin.w.log, pid)) +
                   LostPush(pid, sent.value, env.fault(attempt) == PushAnswerLost(true))
    ensures !v.Landed? && !v.Unanswered? ==> Mine(origin.w.log, pid) == old(Mine(origin.w.log, pid))
    ensures v.NoMain? <==> env.fault(attempt) == MainFetchFails
    ensures v.Unchanged? ==> env.commit(attempt).None?
    ensures !v.NoClaim?
    ensures CanCommitNow(old(origin.w), None, env, attempt) ==>
              && v == Landed(old(origin.w.main), Work(old(origin.w.main), env.commit(attempt).value))
              && origin.w.main == v.result
              && origin.w.claims == old(origin.w.claims) && origin.w.runs == old(origin.w.runs)
  {
    sent := None;
    ghost var start := origin.w;
    LaterReflexive(start);
    origin.Interfere(env.others(attempt, 0), pid, start);
    FetchedTracks(start, origin.w, host);
    if env.fault(attempt) == MainFetchFails {
      return NoMain, sent;
    }
    origin.FetchMainRef(host, pid, start);
    ghost var w1 := origin.w;
    v, sent := PushOneCommit(origin, host, pid, None, env, attempt, start);
    LeaseIsRecent(v, sent, w1, host, start);
  }

  /** The failure family: one terminal run file straight on top of `main`, the
      claim released by the same push, the run ref left for inspection. */
  method PublishFailureRun(origin: Origin, host: Host, pid: Pid, req: Request, retryMax: nat, env: Environment)
    returns (r: Result<PublishOutcome, PublishError>, ghost made: nat, ghost sent: Option<PushSent>,
             ghost tries: seq<Try>, ghost start: World)
    requires Inv(origin.w) && WasHeld(origin.w, req.node, req.claimSha) && ForeignEnvironment(env, pid)
    modifies origin
    ensures Since(old(origin.w), origin.w)
    ensures 1 <= made <= Max(retryMax, 1) && |tries| == if IsExhausted(r) then made else made - 1
    ensures LostRaces(Committing(Some(req)), old(origin.w), env, tries, start)
    ensures r.Ok? && r.value.published ==>
              && !r.value.fenced && !Holds(origin.w, req.node, req.claimSha) && env.commit(made - 1).Some?
              && exists before ::
                   && Descends(before, start.main)
                   && r.value.resultSha == Some(Work(before, env.commit(made - 1).value))
                   && Mine(origin.w.log, pid) == old(Mine(origin.w.log, pid)) +
                        [Published(By(pid), req.node, req.claimSha, before, r.value.resultSha.value)]
    ensures r.Ok? && !r.value.published ==>
              r.value.resultSha.None? && Mine(origin.w.log, pid) == old(Mine(origin.w.log, pid))
    ensures r.Err? && r.error != PushFailed ==> Mine(origin.w.log, pid) == old(Mine(origin.w.log, pid))
    ensures r == Err(PushFailed) ==>
              && env.fault(made - 1).PushAnswerLost?
              && sent.Some? && IsPushOf(Committing(Some(req)), env, made - 1, start, sent.value)
              && Mine(origin.w.log, pid) == old(Mine(origin.w.log, pid)) +
                   LostPush(pid, sent.value, env.fault(made - 1) == PushAnswerLost(true))
    ensures r == Err(FetchFailed) <==> env.fault(made - 1) == MainFetchFails
    ensures r == Err(NothingToCommit) ==> env.commit(made - 1).None?
    ensures r.Err? ==> r.error in {FetchFailed, NothingToCommit, PushFailed}
    ensures r.Ok? && r.value.fenced ==> IsFencedOut(origin.w, req, env, made - 1)
    ensures !Holds(start, req.node, req.claimSha) && env.fault(made - 1) != MainFetchFails && !IsExhausted(r) ==>
              r == Ok(FencedOut(made - 1))
    ensures env.fault(made - 1) == ClaimFetchFails ==> r == Ok(FencedOut(made - 1))
    ensures IsExhausted(r) ==> made == Max(retryMax, 1) && r.value.attempts == retryMax && origin.w == start
    ensures r.Ok? && !IsExhausted(r) ==> r.value.attempts == made
    ensures !IsExhausted(r) && CanCommitNow(start, Some(req), env, made - 1) ==>
              && r == Ok(PublishOutcome(true, false, Some(Work(start.main, env.commit(made - 1).value)), made))
              && origin.w.main == r.value.resultSha.value
              && origin.w.claims == start.claims - {req.node} && origin.w.runs == start.runs
  {
    made, sent, tries, start := 0, None, [], origin.w;
    ghost var w0 := origin.w;
    LaterReflexive(w0);
    var attempts := if retryMax == 0 then 1 else retryMax;
    for attempt := 0 to attempts
      invariant Since(w0, origin.w) && Mine(origin.w.log, pid) == Mine(w0.log, pid)
      invariant made == attempt == |tries| && LostRaces(Committing(Some(req)), w0, env, tries, origin.w)
      invariant attempt > 0 ==>
                  LetsThrough(Committing(Some(req)), env.fault(attempt - 1)) && env.commit(attempt - 1).Some?
    {
      made, start := attempt + 1, origin.w;
      var v;
      StillHeldOnce(w0, start, req.node, req.claimSha);
      v, sent := FailureAttempt(origin, host, pid, req, env, attempt);
      SinceStep(w0, start, origin.w);
      match v {
        case NoMain => return Err(FetchFailed), made, sent, tries, start;
        case NoClaim => return Ok(FencedOut(attempt)), made, sent, tries, start;
        case Unchanged => return Err(NothingToCommit), made, sent, tries, start;
        case Unanswered => return Err(PushFailed), made, sent, tries, start;
        case Landed(_, result) =>
          return Ok(PublishOutcome(true, false, Some(result), attempt + 1)), made, sent, tries, start;
        case TurnedDown =>
          OneMoreLost(Committing(Some(req)), w0, env, tries, Try(start, sent.value));
          tries := tries + [Try(start, sent.value)];
      }
    }
    start := origin.w;
    r := Ok(PublishOutcome(false, false, None, retryMax));
  }

  /** Lifecycle changes are fenced by `main` alone. Published with a sha means one
      accepted push; published without one means there was nothing to write. */
  method PublishLifecycle(origin: Origin, host: Host, pid: Pid, changes: nat, retryMax: nat, env: Environment)
    returns (r: Result<PublishOutcome, PublishError>, ghost made: nat, ghost sent: Option<PushSent>,
             ghost tries: seq<Try>, ghost start: World)
    requires Inv(origin.w) && ForeignEnvironment(env, pid)
    modifies origin
    ensures Since(old(origin.w), origin.w)
    ensures changes == 0 ==> r == Ok(PublishOutcome(true, false, None, 0)) && origin.w == old(origin.w)
    ensures changes > 0 ==> 1 <= made <= Max(retryMax, 1) && |tries| == if IsExhausted(r) then made else made - 1
    ensures LostRaces(Committing(None), old(origin.w), env, tries, start)
    ensures r.Ok? && r.value.resultSha.Some? ==>
              && r.value.published && changes > 0 && env.commit(made - 1).Some?
              && exists before ::
                   && Descends(before, start.main)
                   && r.value.resultSha == Some(Work(before, env.commit(made - 1).value))
                   && Mine(origin.w.log, pid) == old(Mine(origin.w.log, pid)) +
                        [Moved(By(pid), before, r.value.resultSha.value)]
    ensures r.Ok? && r.value.resultSha.None? ==> Mine(origin.w.log, pid) == old(Mine(origin.w.log, pid))
    ensures r.Ok? && r.value.published && r.value.resultSha.None? && changes > 0 ==> env.commit(made - 1).None?
    ensures r.Ok? ==> !r.value.fenced
    ensures r.Err? && r.error != PushFailed ==> Mine(origin.w.log, pid) == old(Mine(origin.w.log, pid))
    ensures r == Err(PushFailed) ==>
              && changes > 0 && env.fault(made - 1).PushAnswerLost?
              && sent.Some? && IsPushOf(Committing(None), env, made - 1, start, sent.value)
              && Mine(origin.w.log, pid) == old(Mine(origin.w.log, pid)) +
                   LostPush(pid, sent.value, env.fault(made - 1) == PushAnswerLost(true))
    ensures changes > 0 ==> (r == Err(FetchFailed) <==> env.fault(made - 1) == MainFetchFails)
    ensures r.Err? ==> r.error in {FetchFailed, PushFailed}
    ensures IsExhausted(r) ==> made == Max(retryMax, 1) && r.value.attempts == retryMax && origin.w == start
    ensures r.Ok? && !IsExhausted(r) && changes > 0 ==> r.value.attempts == made
    ensures changes > 0 && !IsExhausted(r) && CanCommitNow(start, None, env, made - 1) ==>
              && r == Ok(PublishOutcome(true, false, Some(Work(start.main, env.commit(made - 1).value)), made))
              && origin.w.main == r.value.resultSha.value
              && origin.w.claims == start.claims && origin.w.runs == start.runs
  {
    made, sent, tries, start := 0, None, [], origin.w;
    ghost var w0 := origin.w;
    LaterReflexive(w0);
    if changes == 0 {
      return Ok(PublishOutcome(true, false, None, 0)), made, sent, tries, start;
    }
    var attempts := if retryMax == 0 then 1 else retryMax;
    for attempt := 0 to attempts
      invariant Since(w0, origin.w) && Mine(origin.w.log, pid) == Mine(w0.log, pid)
      invariant made == attempt == |tries| && LostRaces(Committing(None), w0, env, tries, origin.w)
      invariant attempt > 0 ==> LetsThrough(Committing(None), env.fault(attempt - 1)) && env.commit(attempt - 1).Some?
    {
      made, start := attempt + 1, origin.w;
      var v;
      v, sent := LifecycleAttempt(origin, host, pid, env, attempt);
      SinceStep(w0, start, origin.w);
      match v {
        case NoMain => return Err(FetchFailed), made, sent, tries, start;
        case Unchanged => return Ok(PublishOutcome(true, false, None, attempt + 1)), made, sent, tries, start;
        case Unanswered => return Err(PushFailed), made, sent, tries, start;
        case Landed(_, result) =>
          return Ok(PublishOutcome(true, false, Some(result), attempt + 1)), made, sent, tries, start;
        case NoClaim =>
          assert false;
        case TurnedDown =>
          OneMoreLost(Committing(None), w0, env, tries, Try(start, sent.value));
          tries := tries + [Try(start, sent.value)];
      }
    }
    start := origin.w;
    r := Ok(PublishOutcome(false, false, None, retryMax));
  }
}
