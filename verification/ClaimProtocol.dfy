/** The claim and publish protocol as a step relation. Any number of hosts take
    turns; each step is one git operation, atomic at the remote. The remote keeps
    `main`, one claim ref per node and one run ref per (node, token); each clone
    keeps its own tracking copies of `main` and of the claim refs. */
module ClaimProtocol {
  import opened Common
  import opened Commits

  type Host = nat
  type Pid = nat

  /** What one publication is allowed to touch: the exact claim it owns and the
      value it expects its run ref to have. */
  datatype Request = Request(node: Node, token: Token, claimSha: Sha, runShaBefore: Sha)

  datatype Job = Fenced(req: Request) | Lifecycle

  /** How far a publisher has got in the current attempt. `mainBefore` is the
      lease; `onto` is what the tracking ref held when the rebase read it again. */
  datatype Phase =
    | Idle
    | Leased(mainBefore: Sha)
    | Ready(mainBefore: Sha, onto: Sha, result: Sha)

  datatype Publisher = Publisher(host: Host, job: Job, phase: Phase)

  datatype Writer = By(pid: Pid) | Outsider

  /** One accepted change of a remote claim ref or of `main`. */
  datatype Entry =
    | Claimed(node: Node, sha: Sha)
    | Released(node: Node, sha: Sha)
    | Published(who: Writer, node: Node, claim: Sha, before: Sha, after: Sha)
    | Moved(who: Writer, before: Sha, after: Sha)

  datatype World = World(
    main: Sha,
    claims: map<Node, Sha>,
    runs: map<(Node, Token), Sha>,
    trackMain: map<Host, Sha>,
    trackClaims: map<(Host, Node), Sha>,
    publishers: map<Pid, Publisher>,
    used: set<Token>,
    log: seq<Entry>)

  predicate Init(w: World) {
    && Plain(w.main)
    && w.claims == map[] && w.trackMain == map[] && w.trackClaims == map[]
    && w.publishers == map[] && w.log == []
  }

  // ---------------------------------------------------------------- steps

  /** `--force-with-lease` values of one atomic push. */
  datatype Leases = Leases(main: Sha, claim: Option<(Node, Sha)>, run: Option<((Node, Token), Sha)>)

  predicate Holds(w: World, node: Node, sha: Sha) {
    node in w.claims && w.claims[node] == sha
  }

  predicate LeasesHold(w: World, l: Leases) {
    && w.main == l.main
    && (l.claim.Some? ==> Holds(w, l.claim.value.0, l.claim.value.1))
    && (l.run.Some? ==> l.run.value.0 in w.runs && w.runs[l.run.value.0] == l.run.value.1)
  }

  /** All or nothing: move `main`, delete the leased claim and run refs. */
  function PushAtomic(w: World, host: Host, who: Writer, l: Leases, after: Sha): World {
    if !LeasesHold(w, l) then w else
      w.(main := after,
         trackMain := w.trackMain[host := after],
         claims := if l.claim.Some? then w.claims - {l.claim.value.0} else w.claims,
         runs := if l.run.Some? then w.runs - {l.run.value.0} else w.runs,
         log := w.log + [
           if l.claim.Some? then Published(who, l.claim.value.0, l.claim.value.1, w.main, after)
           else Moved(who, w.main, after)])
  }

  function FetchMain(w: World, host: Host): World {
    w.(trackMain := w.trackMain[host := w.main])
  }

  /** Fetching a ref that the remote does not have leaves the local copy alone. */
  function FetchClaim(w: World, host: Host, node: Node): World {
    if node in w.claims then w.(trackClaims := w.trackClaims[(host, node) := w.claims[node]]) else w
  }

  /** Create-only CAS with a fresh token, on top of a value of `main` that was read
      some time before. */
  function Acquire(w: World, base: Sha, fields: ClaimFields): World {
    if !Plain(base) || fields.token in w.used then w else
      var w' := w.(used := w.used + {fields.token});
      if fields.node in w.claims then w' else
        var c := Claim(base, fields);
        w'.(claims := w.claims[fields.node := c], log := w.log + [Claimed(fields.node, c)])
  }

  /** Renewal and takeover are the same CAS; only the fields differ. */
  function Renew(w: World, prior: Sha, fields: ClaimFields): World {
    var w' := w.(used := w.used + {fields.token});
    if !Holds(w, fields.node, prior) then w' else
      var c := Claim(prior, fields);
      w'.(claims := w.claims[fields.node := c], log := w.log + [Claimed(fields.node, c)])
  }

  function Release(w: World, node: Node, sha: Sha): World {
    if !Holds(w, node, sha) then w else
      w.(claims := w.claims - {node}, log := w.log + [Released(node, sha)])
  }

  /** Plain push of a run ref: accepted when it is new or moves forward. */
  function PushRun(w: World, node: Node, token: Token, sha: Sha): World {
    if (node, token) in w.runs && !Descends(sha, w.runs[(node, token)]) then w else
      w.(runs := w.runs[(node, token) := sha])
  }

  /** Somebody outside the protocol fast-forwards `main`. */
  function FastForward(w: World, patches: seq<Patch>): World {
    var after := Stack(w.main, patches);
    w.(main := after, log := w.log + [Moved(Outsider, w.main, after)])
  }

  function Begin(w: World, pid: Pid, host: Host, job: Job): World {
    w.(publishers := w.publishers[pid := Publisher(host, job, Idle)])
  }

  function SetPhase(w: World, pid: Pid, phase: Phase): World
    requires pid in w.publishers
  {
    w.(publishers := w.publishers[pid := w.publishers[pid].(phase := phase)])
  }

  /** The fencing check against the local claim ref, then the lease on `main`. */
  function ReadLease(w: World, pid: Pid): World {
    if pid !in w.publishers then w else
      var p := w.publishers[pid];
      var fenced := p.job.Fenced? &&
        ((p.host, p.job.req.node) !in w.trackClaims || w.trackClaims[(p.host, p.job.req.node)] != p.job.req.claimSha);
      if fenced || p.host !in w.trackMain then w else
        SetPhase(w, pid, Leased(w.trackMain[p.host]))
  }

  /** The rebase reads the tracking ref by name, a second time. */
  function Rebase(w: World, pid: Pid, patches: seq<Patch>): World {
    if pid !in w.publishers || !w.publishers[pid].phase.Leased? || w.publishers[pid].host !in w.trackMain then w else
      var onto := w.trackMain[w.publishers[pid].host];
      SetPhase(w, pid, Ready(w.publishers[pid].phase.mainBefore, onto, Stack(onto, patches)))
  }

  function FullLeases(req: Request, mainBefore: Sha): Leases {
    Leases(mainBefore, Some((req.node, req.claimSha)), Some(((req.node, req.token), req.runShaBefore)))
  }

  /** A failure publication leaves the run ref in place. */
  function FailureLeases(req: Request, mainBefore: Sha): Leases {
    Leases(mainBefore, Some((req.node, req.claimSha)), None)
  }

  function Push(w: World, pid: Pid): World {
    if pid !in w.publishers || !w.publishers[pid].phase.Ready? || !w.publishers[pid].job.Fenced? then w else
      var p := w.publishers[pid];
      SetPhase(PushAtomic(w, p.host, By(pid), FullLeases(p.job.req, p.phase.mainBefore), p.phase.result), pid, Idle)
  }

  /** One commit straight on the leased `main`: a failure run, or a lifecycle change. */
  function PushCommit(w: World, pid: Pid, patch: Patch): World {
    if pid !in w.publishers || !w.publishers[pid].phase.Leased? then w else
      var p := w.publishers[pid];
      var l := if p.job.Fenced? then FailureLeases(p.job.req, p.phase.mainBefore)
               else Leases(p.phase.mainBefore, None, None);
      SetPhase(PushAtomic(w, p.host, By(pid), l, Work(p.phase.mainBefore, patch)), pid, Idle)
  }

  datatype Step =
    | DoFetchMain(host: Host)
    | DoFetchClaim(host: Host, node: Node)
    | DoAcquire(base: Sha, fields: ClaimFields)
    | DoRenew(prior: Sha, fields: ClaimFields)
    | DoRelease(node: Node, sha: Sha)
    | DoPushRun(node: Node, token: Token, sha: Sha)
    | DoFastForward(patches: seq<Patch>)
    | DoBegin(pid: Pid, host: Host, job: Job)
    | DoReadLease(pid: Pid)
    | DoRebase(pid: Pid, patches: seq<Patch>)
    | DoPush(pid: Pid)
    | DoPushCommit(pid: Pid, patch: Patch)

  function Apply(w: World, s: Step): World {
    match s
    case DoFetchMain(h) => FetchMain(w, h)
    case DoFetchClaim(h, n) => FetchClaim(w, h, n)
    case DoAcquire(base, f) => Acquire(w, base, f)
    case DoRenew(prior, f) => Renew(w, prior, f)
    case DoRelease(n, sha) => Release(w, n, sha)
    case DoPushRun(n, t, sha) => PushRun(w, n, t, sha)
    case DoFastForward(ps) => FastForward(w, ps)
    case DoBegin(pid, h, job) => Begin(w, pid, h, job)
    case DoReadLease(pid) => ReadLease(w, pid)
    case DoRebase(pid, ps) => Rebase(w, pid, ps)
    case DoPush(pid) => Push(w, pid)
    case DoPushCommit(pid, patch) => PushCommit(w, pid, patch)
  }

  /** Any interleaving is a list of steps. */
  function Run(w: World, steps: seq<Step>): World
    decreases |steps|
  {
    if steps == [] then w else Run(Apply(w, steps[0]), steps[1..])
  }

  /** What the leases of a publication stand for: `main`, the claim and the run ref are
      all as this run left them. A failure run does without the run ref, a lifecycle
      change without both. */
  lemma LeasesAre(w: World, req: Request, m: Sha)
    ensures LeasesHold(w, FullLeases(req, m)) <==>
            && w.main == m && Holds(w, req.node, req.claimSha)
            && (req.node, req.token) in w.runs && w.runs[(req.node, req.token)] == req.runShaBefore
    ensures LeasesHold(w, FailureLeases(req, m)) <==> w.main == m && Holds(w, req.node, req.claimSha)
    ensures LeasesHold(w, Leases(m, None, None)) <==> w.main == m
  {
  }

  /** Interleavings compose: what comes after a list of steps is applied to its end. */
  lemma {:induction false} RunAppends(w: World, steps: seq<Step>, s: Step)
    ensures Run(w, []) == w && Run(w, steps + [s]) == Apply(Run(w, steps), s)
    decreases |steps|
  {
    if steps == [] {
      assert steps + [s] == [s] && [s][1..] == [];
    } else {
      assert (steps + [s])[1..] == steps[1..] + [s];
      RunAppends(Apply(w, steps[0]), steps[1..], s);
    }
  }

  // ------------------------------------------------------------ invariant

  ghost predicate MainInv(w: World) {
    && Plain(w.main)
    && (forall h | h in w.trackMain :: Plain(w.trackMain[h]) && Descends(w.main, w.trackMain[h]))
    && (forall i | 0 <= i < |w.log| :: MovesMain(w.log[i]) ==>
          Descends(w.log[i].after, w.log[i].before) && Descends(w.main, w.log[i].after))
  }

  predicate MovesMain(e: Entry) {
    e.Published? || e.Moved?
  }

  /** The sha was the value of the node's claim ref at some time. */
  predicate WasHeld(w: World, node: Node, sha: Sha) {
    Claimed(node, sha) in w.log
  }

  ghost predicate ClaimInv(w: World) {
    && (forall n | n in w.claims :: WasHeld(w, n, w.claims[n]))
    && (forall n, c | WasHeld(w, n, c) :: GoodClaim(w.used, n, c))
    && (forall n, c | n in w.claims && WasHeld(w, n, c) :: Descends(c, w.claims[n]) ==> c == w.claims[n])
    && (forall k | k in w.trackClaims :: WasHeld(w, k.1, w.trackClaims[k]))
  }

  predicate GoodClaim(used: set<Token>, n: Node, c: Sha) {
    c.Claim? && Acquisition(c).Claim? && Acquisition(c).fields.node == n && Tokens(c) <= used
  }

  /** No claim ref ever held the same commit twice. */
  ghost predicate NeverRepeats(log: seq<Entry>) {
    forall i, j | 0 <= i < j < |log| && log[i].Claimed? :: log[j] != log[i]
  }

  /** At most one publication per acquired claim. */
  ghost predicate PublishedOnce(log: seq<Entry>) {
    forall i, j | 0 <= i < j < |log| && log[i].Published? && log[j].Published? ::
      Acquisition(log[i].claim) != Acquisition(log[j].claim)
  }

  /** A published claim was held, and nothing acquired with it is held any more. */
  ghost predicate PublishedGone(w: World) {
    forall i | 0 <= i < |w.log| && w.log[i].Published? ::
      && WasHeld(w, w.log[i].node, w.log[i].claim)
      && forall n | n in w.claims :: Acquisition(w.claims[n]) != Acquisition(w.log[i].claim)
  }

  ghost predicate PublisherInv(w: World) {
    forall pid | pid in w.publishers :: PhaseInv(w, w.publishers[pid])
  }

  ghost predicate PhaseInv(w: World, p: Publisher) {
    && (!p.phase.Idle? ==> p.host in w.trackMain && Plain(p.phase.mainBefore))
    && (p.phase.Leased? ==> Descends(w.trackMain[p.host], p.phase.mainBefore))
    && (p.phase.Ready? ==>
          && Descends(p.phase.onto, p.phase.mainBefore)
          && Descends(w.main, p.phase.onto)
          && Descends(p.phase.result, p.phase.onto)
          && Plain(p.phase.result))
  }

  datatype Part = OnMain | OnClaims | OnLog | OnPublished | OnPublishers

  ghost predicate Keeps(w: World, part: Part) {
    match part
    case OnMain => MainInv(w)
    case OnClaims => ClaimInv(w)
    case OnLog => NeverRepeats(w.log) && PublishedOnce(w.log)
    case OnPublished => PublishedGone(w)
    case OnPublishers => PublisherInv(w)
  }

  ghost predicate Inv(w: World) {
    forall part :: Keeps(w, part)
  }

  lemma Parts(w: World)
    ensures Inv(w) <==>
            && MainInv(w) && ClaimInv(w) && NeverRepeats(w.log) && PublishedOnce(w.log) && PublishedGone(w)
            && PublisherInv(w)
  {
    assert Inv(w) ==> Keeps(w, OnMain) && Keeps(w, OnClaims) && Keeps(w, OnLog) && Keeps(w, OnPublished)
                      && Keeps(w, OnPublishers);
  }

  /** The local copy of a claim is of a commit that was lost before. */
  predicate IsStale(w: World, w': World, k: (Host, Node)) {
    k in w'.trackClaims && WasHeld(w, k.1, w'.trackClaims[k]) && !Holds(w, k.1, w'.trackClaims[k])
  }

  /** What everybody else may have done meanwhile: `main` and the tracking copies
      only moved forward, the log only grew, lost claims stayed lost, and no copy of
      one was made anew. */
  ghost predicate Later(w: World, w': World) {
    forall aspect :: MovedOn(w, w', aspect)
  }

  datatype Aspect = InMain | InCopies | InLog | InClaims

  ghost predicate MovedOn(w: World, w': World, aspect: Aspect) {
    match aspect
    case InMain =>
      && Descends(w'.main, w.main)
      && forall h | h in w.trackMain :: h in w'.trackMain && Descends(w'.trackMain[h], w.trackMain[h])
    case InCopies =>
      && (forall k | k in w.trackClaims ::
            k in w'.trackClaims && (w'.trackClaims[k] != w.trackClaims[k] ==> !Holds(w', k.1, w.trackClaims[k])))
      && (forall k | IsStale(w, w', k) :: k in w.trackClaims && w.trackClaims[k] == w'.trackClaims[k])
    case InLog => w.log <= w'.log
    case InClaims => forall n, c | WasHeld(w, n, c) && !Holds(w, n, c) :: !Holds(w', n, c)
  }

  lemma Aspects(w: World, w': World)
    ensures Later(w, w') <==>
            MovedOn(w, w', InMain) && MovedOn(w, w', InCopies) && MovedOn(w, w', InLog) && MovedOn(w, w', InClaims)
  {
  }

  lemma LaterTransitive(a: World, b: World, c: World)
    requires Inv(a) && Later(a, b) && Later(b, c)
    ensures Later(a, c)
  {
    assert Keeps(a, OnClaims);
    Aspects(a, b);
    Aspects(b, c);
    DescendsTransitive(c.main, b.main, a.main);
    forall h | h in a.trackMain
      ensures h in c.trackMain && Descends(c.trackMain[h], a.trackMain[h])
    {
      DescendsTransitive(c.trackMain[h], b.trackMain[h], a.trackMain[h]);
    }
    forall n, s | WasHeld(a, n, s) && !Holds(b, n, s)
      ensures !Holds(c, n, s)
    {
      assert WasHeld(b, n, s);
    }
    forall k | IsStale(a, c, k)
      ensures k in a.trackClaims && a.trackClaims[k] == c.trackClaims[k]
    {
      assert WasHeld(b, k.1, c.trackClaims[k]) && IsStale(b, c, k) && IsStale(a, b, k);
    }
  }

  // --------------------------------------------------- preservation, by step

  lemma LogGrows(w: World, w': World, e: Entry)
    requires w'.log == w.log + [e]
    ensures w.log <= w'.log
    ensures forall n, c :: WasHeld(w', n, c) <==> WasHeld(w, n, c) || e == Claimed(n, c)
  {
    forall n, c
      ensures WasHeld(w', n, c) <==> WasHeld(w, n, c) || e == Claimed(n, c)
    {
      assert w'.log[|w.log|] == e;
      if WasHeld(w, n, c) {
        var i :| 0 <= i < |w.log| && w.log[i] == Claimed(n, c);
        assert w'.log[i] == Claimed(n, c);
      }
    }
  }

  predicate ClaimSet(w: World, w': World, node: Node, c: Sha) {
    && w' == w.(claims := w.claims[node := c], used := w'.used, log := w.log + [Claimed(node, c)])
    && w.used <= w'.used && GoodClaim(w'.used, node, c)
  }

  lemma FreshClaimKeepsClaims(w: World, w': World, node: Node, c: Sha)
    requires ClaimInv(w) && ClaimSet(w, w', node, c)
    requires forall h | WasHeld(w, node, h) :: !Descends(h, c)
    ensures ClaimInv(w')
  {
    LogGrows(w, w', Claimed(node, c));
    forall n, h | WasHeld(w', n, h)
      ensures GoodClaim(w'.used, n, h)
    {
      assert WasHeld(w, n, h) ==> GoodClaim(w.used, n, h);
    }
    forall n, h | n in w'.claims && WasHeld(w', n, h) && Descends(h, w'.claims[n])
      ensures h == w'.claims[n]
    {
      assert n != node ==> WasHeld(w, n, h);
    }
  }

  lemma FreshClaimKeepsLog(w: World, w': World, node: Node, c: Sha)
    requires NeverRepeats(w.log) && PublishedOnce(w.log) && PublishedGone(w) && ClaimSet(w, w', node, c)
    requires !WasHeld(w, node, c)
    requires forall i | 0 <= i < |w.log| && w.log[i].Published? :: Acquisition(w.log[i].claim) != Acquisition(c)
    ensures NeverRepeats(w'.log) && PublishedOnce(w'.log) && PublishedGone(w')
  {
    LogGrows(w, w', Claimed(node, c));
  }

  /** The one argument behind every accepted claim: the new value has no
      descendant among the old ones, so it is itself new and maximal. */
  lemma FreshClaimKeeps(w: World, w': World, node: Node, c: Sha)
    requires Inv(w) && ClaimSet(w, w', node, c)
    requires forall h | WasHeld(w, node, h) :: !Descends(h, c)
    requires forall i | 0 <= i < |w.log| && w.log[i].Published? :: Acquisition(w.log[i].claim) != Acquisition(c)
    ensures Inv(w') && Later(w, w')
  {
    Parts(w);
    assert !WasHeld(w, node, c);
    FreshClaimKeepsClaims(w, w', node, c);
    FreshClaimKeepsLog(w, w', node, c);
    assert PublisherInv(w');
    assert MainInv(w');
  }

  /** A commit with a fresh token on plain history is new to every claim ref. */
  lemma FreshTokenIsNew(w: World, n: Node, h: Sha, c: Sha)
    requires ClaimInv(w) && WasHeld(w, n, h)
    requires c.Claim? && c.fields.token !in w.used
    ensures !Descends(h, c) && Acquisition(h) != c
  {
    assert GoodClaim(w.used, n, h);
    AcquisitionIsAncestor(h);
    if Descends(h, c) {
      AncestorTokens(h, c);
    }
  }

  lemma FreshAcquireKeeps(w: World, w': World, fields: ClaimFields, parent: Sha)
    requires Inv(w) && Plain(parent) && fields.token !in w.used
    requires ClaimSet(w, w', fields.node, Claim(parent, fields))
    ensures Inv(w') && Later(w, w')
  {
    Parts(w);
    var c := Claim(parent, fields);
    PlainHasNoTokens(parent);
    forall n, h | WasHeld(w, n, h)
      ensures !Descends(h, c) && Acquisition(h) != c
    {
      FreshTokenIsNew(w, n, h, c);
    }
    FreshClaimKeeps(w, w', fields.node, c);
  }

  predicate CanAcquire(w: World, base: Sha, fields: ClaimFields) {
    Plain(base) && fields.token !in w.used && fields.node !in w.claims
  }

  lemma AcquireSetsClaim(w: World, base: Sha, fields: ClaimFields)
    requires CanAcquire(w, base, fields)
    ensures ClaimSet(w, Acquire(w, base, fields), fields.node, Claim(base, fields))
  {
    PlainHasNoTokens(base);
  }

  lemma AcquireKeeps(w: World, base: Sha, fields: ClaimFields)
    requires Inv(w)
    ensures Inv(Acquire(w, base, fields)) && Later(w, Acquire(w, base, fields))
  {
    Parts(w);
    if CanAcquire(w, base, fields) {
      AcquireSetsClaim(w, base, fields);
      FreshAcquireKeeps(w, Acquire(w, base, fields), fields, base);
    } else {
      UsedTokenKeeps(w, Acquire(w, base, fields));
    }
  }

  lemma UsedTokenKeeps(w: World, w': World)
    requires Inv(w) && w.used <= w'.used && w' == w.(used := w'.used)
    ensures Inv(w') && Later(w, w')
  {
    Parts(w);
    forall n, h | WasHeld(w', n, h)
      ensures GoodClaim(w'.used, n, h)
    {
      assert WasHeld(w, n, h);
    }
    assert ClaimInv(w');
    assert PublishedGone(w');
  }

  lemma RenewKeeps(w: World, prior: Sha, fields: ClaimFields)
    requires Inv(w)
    ensures Inv(Renew(w, prior, fields)) && Later(w, Renew(w, prior, fields))
  {
    Parts(w);
    var w' := Renew(w, prior, fields);
    if Holds(w, fields.node, prior) {
      var c := Claim(prior, fields);
      assert WasHeld(w, fields.node, prior) && Descends(c, prior);
      forall h | WasHeld(w, fields.node, h)
        ensures !Descends(h, c)
      {
        if Descends(h, c) {
          AncestorIsShallower(h, c);
          DescendsTransitive(h, c, prior);
        }
      }
      FreshClaimKeeps(w, w', fields.node, c);
    } else {
      UsedTokenKeeps(w, w');
    }
  }

  lemma ClaimGoneKeeps(w: World, w': World, node: Node, e: Entry)
    requires ClaimInv(w) && !e.Claimed?
    requires w'.claims == w.claims - {node} && w'.log == w.log + [e]
    requires w'.used == w.used && w'.trackClaims == w.trackClaims
    ensures ClaimInv(w')
  {
    LogGrows(w, w', e);
  }

  /** A deletion entry leaves the three log invariants alone. */
  lemma ReleasedKeepsLog(w: World, w': World, e: Entry)
    requires NeverRepeats(w.log) && PublishedOnce(w.log) && PublishedGone(w) && e.Released?
    requires w'.log == w.log + [e] && w'.claims.Keys <= w.claims.Keys
    requires forall n | n in w'.claims :: w'.claims[n] == w.claims[n]
    ensures NeverRepeats(w'.log) && PublishedOnce(w'.log) && PublishedGone(w')
  {
    LogGrows(w, w', e);
  }

  lemma ReleaseKeeps(w: World, node: Node, sha: Sha)
    requires Inv(w)
    ensures Inv(Release(w, node, sha)) && Later(w, Release(w, node, sha))
  {
    Parts(w);
    var w' := Release(w, node, sha);
    if Holds(w, node, sha) {
      var e := Released(node, sha);
      ClaimGoneKeeps(w, w', node, e);
      ReleasedKeepsLog(w, w', e);
      ReleasedKeepsMain(w, w', e);
    }
  }

  lemma ReleasedKeepsMain(w: World, w': World, e: Entry)
    requires MainInv(w) && PublisherInv(w) && e.Released?
    requires w' == w.(claims := w'.claims, log := w.log + [e]) && forall n, c | Holds(w', n, c) :: Holds(w, n, c)
    ensures MainInv(w') && PublisherInv(w') && Later(w, w')
  {
    assert forall i | 0 <= i < |w'.log| :: MovesMain(w'.log[i]) ==> w'.log[i] == w.log[i];
  }

  /** `main` moves to a descendant; at most one clone hears of it at once. */
  ghost predicate MainMoves(w: World, w': World, e: Entry) {
    && MovesMain(e) && e.before == w.main && e.after == w'.main
    && Descends(w'.main, w.main) && Plain(w'.main)
    && w'.log == w.log + [e] && w'.publishers == w.publishers
    && w.trackMain.Keys <= w'.trackMain.Keys
    && forall h | h in w'.trackMain ::
         w'.trackMain[h] == w'.main || (h in w.trackMain && w'.trackMain[h] == w.trackMain[h])
  }

  lemma MainMovesKeepsMain(w: World, w': World, e: Entry)
    requires MainInv(w) && MainMoves(w, w', e)
    ensures MainInv(w')
    ensures forall h | h in w.trackMain :: Descends(w'.trackMain[h], w.trackMain[h])
  {
    forall h | h in w.trackMain
      ensures Descends(w'.main, w.trackMain[h])
    {
      DescendsTransitive(w'.main, w.main, w.trackMain[h]);
    }
    forall i | 0 <= i < |w.log| && MovesMain(w.log[i])
      ensures Descends(w'.main, w.log[i].after)
    {
      DescendsTransitive(w'.main, w.main, w.log[i].after);
    }
  }

  lemma MainMovesKeepsPublishers(w: World, w': World, e: Entry)
    requires MainInv(w) && PublisherInv(w) && MainMoves(w, w', e)
    ensures PublisherInv(w')
  {
    MainMovesKeepsMain(w, w', e);
    forall pid | pid in w.publishers
      ensures PhaseInv(w', w.publishers[pid])
    {
      var p := w.publishers[pid];
      assert PhaseInv(w, p);
      if p.phase.Leased? {
        DescendsTransitive(w'.trackMain[p.host], w.trackMain[p.host], p.phase.mainBefore);
      } else if p.phase.Ready? {
        DescendsTransitive(w'.main, w.main, p.phase.onto);
      }
    }
  }

  lemma PublishedRepeatsNothing(log: seq<Entry>, e: Entry)
    requires NeverRepeats(log) && e.Published?
    ensures NeverRepeats(log + [e])
  {
  }

  lemma PublishedFirst(w: World, e: Entry)
    requires PublishedOnce(w.log) && PublishedGone(w) && e.Published? && Holds(w, e.node, e.claim)
    ensures PublishedOnce(w.log + [e])
  {
    forall i | 0 <= i < |w.log| && w.log[i].Published?
      ensures Acquisition(w.log[i].claim) != Acquisition(e.claim)
    {
      assert w.claims[e.node] == e.claim;
    }
  }

  lemma NobodyElseHolds(w: World, e: Entry, n: Node)
    requires ClaimInv(w) && e.Published? && Holds(w, e.node, e.claim) && n in w.claims && n != e.node
    ensures Acquisition(w.claims[n]) != Acquisition(e.claim)
  {
    assert WasHeld(w, e.node, e.claim) && WasHeld(w, n, w.claims[n]);
    assert GoodClaim(w.used, e.node, e.claim) && GoodClaim(w.used, n, w.claims[n]);
  }

  /** Publishing retires the acquisition: it was not published before, and no
      other node's ref can hold a claim acquired with it. */
  lemma PublishedKeepsLog(w: World, w': World, e: Entry)
    requires ClaimInv(w) && NeverRepeats(w.log) && PublishedOnce(w.log) && PublishedGone(w)
    requires e.Published? && Holds(w, e.node, e.claim)
    requires w'.log == w.log + [e] && w'.claims == w.claims - {e.node}
    ensures NeverRepeats(w'.log) && PublishedOnce(w'.log) && PublishedGone(w')
  {
    PublishedRepeatsNothing(w.log, e);
    PublishedFirst(w, e);
    PublishedIsGone(w, w', e);
  }

  lemma PublishedIsGone(w: World, w': World, e: Entry)
    requires ClaimInv(w) && PublishedGone(w) && e.Published? && Holds(w, e.node, e.claim)
    requires w'.log == w.log + [e] && w'.claims == w.claims - {e.node}
    ensures PublishedGone(w')
  {
    LogGrows(w, w', e);
    assert WasHeld(w, e.node, e.claim);
    forall n | n in w'.claims
      ensures Acquisition(w'.claims[n]) != Acquisition(e.claim)
    {
      NobodyElseHolds(w, e, n);
    }
  }

  lemma MovedKeepsLog(w: World, w': World, e: Entry)
    requires NeverRepeats(w.log) && PublishedOnce(w.log) && PublishedGone(w) && e.Moved?
    requires w'.log == w.log + [e] && w'.claims == w.claims
    ensures NeverRepeats(w'.log) && PublishedOnce(w'.log) && PublishedGone(w')
  {
    LogGrows(w, w', e);
  }

  /** What `Later` asks of a step that moves `main` and sets no claim. */
  lemma MainMovesIsLater(w: World, w': World, e: Entry)
    requires MainInv(w) && MainMoves(w, w', e)
    requires w'.trackClaims == w.trackClaims && forall n, c | Holds(w', n, c) :: Holds(w, n, c)
    ensures Later(w, w')
  {
    MainMovesKeepsMain(w, w', e);
  }

  /** What an accepted push does to `main` and to those who publish. */
  lemma PushMovesMain(w: World, w': World, e: Entry)
    requires Inv(w) && MainMoves(w, w', e)
    requires w'.trackClaims == w.trackClaims && forall n, c | Holds(w', n, c) :: Holds(w, n, c)
    ensures MainInv(w') && PublisherInv(w') && Later(w, w')
  {
    Parts(w);
    MainMovesKeepsMain(w, w', e);
    MainMovesKeepsPublishers(w, w', e);
    MainMovesIsLater(w, w', e);
  }

  lemma PushAtomicKeeps(w: World, host: Host, who: Writer, l: Leases, after: Sha)
    requires Inv(w)
    requires LeasesHold(w, l) ==> Plain(after) && Descends(after, w.main)
    ensures Inv(PushAtomic(w, host, who, l, after)) && Later(w, PushAtomic(w, host, who, l, after))
  {
    Parts(w);
    var w' := PushAtomic(w, host, who, l, after);
    if LeasesHold(w, l) {
      var e := if l.claim.Some? then Published(who, l.claim.value.0, l.claim.value.1, w.main, after)
               else Moved(who, w.main, after);
      PushMovesMain(w, w', e);
      if l.claim.Some? {
        ClaimGoneKeeps(w, w', l.claim.value.0, e);
        PublishedKeepsLog(w, w', e);
      } else {
        MovedKeepsClaims(w, w', e);
        MovedKeepsLog(w, w', e);
      }
    }
  }

  lemma MovedKeepsClaims(w: World, w': World, e: Entry)
    requires ClaimInv(w) && !e.Claimed? && w'.log == w.log + [e]
    requires w'.claims == w.claims && w'.used == w.used && w'.trackClaims == w.trackClaims
    ensures ClaimInv(w')
  {
    LogGrows(w, w', e);
  }

  lemma FastForwardKeeps(w: World, patches: seq<Patch>)
    requires Inv(w)
    ensures Inv(FastForward(w, patches)) && Later(w, FastForward(w, patches))
  {
    Parts(w);
    var w' := FastForward(w, patches);
    var e := Moved(Outsider, w.main, w'.main);
    StackDescends(w.main, patches);
    MainMovesKeepsMain(w, w', e);
    MainMovesKeepsPublishers(w, w', e);
    MainMovesIsLater(w, w', e);
    MovedKeepsClaims(w, w', e);
    MovedKeepsLog(w, w', e);
  }

  lemma FetchMainKeeps(w: World, host: Host)
    requires Inv(w)
    ensures Inv(FetchMain(w, host)) && Later(w, FetchMain(w, host))
  {
    Parts(w);
    var w' := FetchMain(w, host);
    forall pid | pid in w.publishers
      ensures PhaseInv(w', w.publishers[pid])
    {
      var p := w.publishers[pid];
      assert PhaseInv(w, p);
      if p.phase.Leased? {
        DescendsTransitive(w.main, w.trackMain[p.host], p.phase.mainBefore);
      }
    }
    assert ClaimInv(w') && PublishedGone(w');
  }

  lemma FetchClaimKeeps(w: World, host: Host, node: Node)
    requires Inv(w)
    ensures Inv(FetchClaim(w, host, node)) && Later(w, FetchClaim(w, host, node))
  {
    Parts(w);
    var w' := FetchClaim(w, host, node);
    if node in w.claims {
      TrackedClaimKeeps(w, w', host, node);
      SameLogKeeps(w, w');
      TrackedClaimIsLater(w, w', host, node);
    }
  }

  /** What the claim copies have no part in. */
  lemma SameLogKeeps(w: World, w': World)
    requires Inv(w) && w' == w.(trackClaims := w'.trackClaims)
    ensures MainInv(w') && NeverRepeats(w'.log) && PublishedOnce(w'.log) && PublishedGone(w') && PublisherInv(w')
  {
    Parts(w);
  }

  lemma TrackedClaimIsLater(w: World, w': World, host: Host, node: Node)
    requires node in w.claims && w' == w.(trackClaims := w.trackClaims[(host, node) := w.claims[node]])
    ensures Later(w, w')
  {
  }

  lemma TrackedClaimKeeps(w: World, w': World, host: Host, node: Node)
    requires ClaimInv(w) && node in w.claims
    requires w' == w.(trackClaims := w.trackClaims[(host, node) := w.claims[node]])
    ensures ClaimInv(w')
  {
  }

  /** Run refs and publisher records are not mentioned by the other invariants. */
  lemma PhaseKeeps(w: World, w': World)
    requires Inv(w) && w' == w.(publishers := w'.publishers, runs := w'.runs)
    requires forall pid | pid in w'.publishers :: PhaseInv(w, w'.publishers[pid])
    ensures Inv(w') && Later(w, w')
  {
    Parts(w);
    assert ClaimInv(w') && PublishedGone(w');
    forall pid | pid in w'.publishers
      ensures PhaseInv(w', w'.publishers[pid])
    {
      assert PhaseInv(w, w'.publishers[pid]);
    }
  }

  lemma ReadLeaseKeeps(w: World, pid: Pid)
    requires Inv(w)
    ensures Inv(ReadLease(w, pid)) && Later(w, ReadLease(w, pid))
  {
    Parts(w);
    PhaseKeeps(w, ReadLease(w, pid));
  }

  lemma RebaseKeeps(w: World, pid: Pid, patches: seq<Patch>)
    requires Inv(w)
    ensures Inv(Rebase(w, pid, patches)) && Later(w, Rebase(w, pid, patches))
  {
    Parts(w);
    if pid in w.publishers && w.publishers[pid].host in w.trackMain {
      StackDescends(w.trackMain[w.publishers[pid].host], patches);
    }
    PhaseKeeps(w, Rebase(w, pid, patches));
  }

  /** No lost update although the tracking ref is read twice: if the remote takes
      the push, both reads gave the value that is being replaced. */
  lemma AcceptedPushReadsAgree(w: World, pid: Pid)
    requires Inv(w) && pid in w.publishers && w.publishers[pid].phase.Ready?
    requires w.main == w.publishers[pid].phase.mainBefore
    ensures w.publishers[pid].phase.onto == w.publishers[pid].phase.mainBefore
    ensures Descends(w.publishers[pid].phase.result, w.main)
  {
    Parts(w);
    var p := w.publishers[pid];
    assert PhaseInv(w, p);
    DescendsAntisymmetric(p.phase.onto, p.phase.mainBefore);
  }

  /** An attempt that is over leaves its publisher idle. */
  lemma IdleKeeps(w: World, w': World, pid: Pid)
    requires Inv(w) && Inv(w') && Later(w, w') && pid in w'.publishers
    ensures Inv(SetPhase(w', pid, Idle)) && Later(w, SetPhase(w', pid, Idle))
  {
    Parts(w);
    Parts(w');
    PhaseKeeps(w', SetPhase(w', pid, Idle));
    LaterTransitive(w, w', SetPhase(w', pid, Idle));
  }

  lemma PushKeeps(w: World, pid: Pid)
    requires Inv(w)
    ensures Inv(Push(w, pid)) && Later(w, Push(w, pid))
  {
    Parts(w);
    if pid in w.publishers && w.publishers[pid].phase.Ready? && w.publishers[pid].job.Fenced? {
      var p := w.publishers[pid];
      var l := FullLeases(p.job.req, p.phase.mainBefore);
      if LeasesHold(w, l) {
        AcceptedPushReadsAgree(w, pid);
      }
      var w' := PushAtomic(w, p.host, By(pid), l, p.phase.result);
      assert PhaseInv(w, p);
      PushAtomicKeeps(w, p.host, By(pid), l, p.phase.result);
      IdleKeeps(w, w', pid);
    }
  }

  lemma PushCommitKeeps(w: World, pid: Pid, patch: Patch)
    requires Inv(w)
    ensures Inv(PushCommit(w, pid, patch)) && Later(w, PushCommit(w, pid, patch))
  {
    Parts(w);
    if pid in w.publishers && w.publishers[pid].phase.Leased? {
      var p := w.publishers[pid];
      var after := Work(p.phase.mainBefore, patch);
      var l := if p.job.Fenced? then FailureLeases(p.job.req, p.phase.mainBefore)
               else Leases(p.phase.mainBefore, None, None);
      assert PhaseInv(w, p);
      assert Descends(after, p.phase.mainBefore);
      var w' := PushAtomic(w, p.host, By(pid), l, after);
      PushAtomicKeeps(w, p.host, By(pid), l, after);
      IdleKeeps(w, w', pid);
    }
  }

  predicate IsPublisherStep(s: Step) {
    s.DoBegin? || s.DoReadLease? || s.DoRebase? || s.DoPush? || s.DoPushCommit?
  }

  lemma RefStepKeeps(w: World, s: Step)
    requires Inv(w) && !IsPublisherStep(s)
    ensures Inv(Apply(w, s)) && Later(w, Apply(w, s))
  {
    Parts(w);
    match s
    case DoFetchMain(h) => FetchMainKeeps(w, h);
    case DoFetchClaim(h, n) => FetchClaimKeeps(w, h, n);
    case DoAcquire(base, f) => AcquireKeeps(w, base, f);
    case DoRenew(prior, f) => RenewKeeps(w, prior, f);
    case DoRelease(n, sha) => ReleaseKeeps(w, n, sha);
    case DoPushRun(n, t, sha) => PhaseKeeps(w, PushRun(w, n, t, sha));
    case DoFastForward(ps) => FastForwardKeeps(w, ps);
  }

  lemma PublisherStepKeeps(w: World, s: Step)
    requires Inv(w) && IsPublisherStep(s)
    ensures Inv(Apply(w, s)) && Later(w, Apply(w, s))
  {
    Parts(w);
    match s
    case DoBegin(pid, h, job) => PhaseKeeps(w, Begin(w, pid, h, job));
    case DoReadLease(pid) => ReadLeaseKeeps(w, pid);
    case DoRebase(pid, ps) => RebaseKeeps(w, pid, ps);
    case DoPush(pid) => PushKeeps(w, pid);
    case DoPushCommit(pid, patch) => PushCommitKeeps(w, pid, patch);
  }

  lemma StepKeeps(w: World, s: Step)
    requires Inv(w)
    ensures Inv(Apply(w, s)) && Later(w, Apply(w, s))
  {
    Parts(w);
    if IsPublisherStep(s) {
      PublisherStepKeeps(w, s);
    } else {
      RefStepKeeps(w, s);
    }
  }

  // ------------------------------------------------- theorems over whole runs

  lemma {:induction false} RunKeeps(w: World, steps: seq<Step>)
    requires Inv(w)
    ensures Inv(Run(w, steps)) && Later(w, Run(w, steps))
    decreases |steps|
  {
    Parts(w);
    if steps != [] {
      StepKeeps(w, steps[0]);
      var w' := Apply(w, steps[0]);
      RunKeeps(w', steps[1..]);
      LaterTransitive(w, w', Run(w', steps[1..]));
    }
  }

  /** Over every interleaving: a claim ref never holds the same commit twice, and
      each acquired claim yields at most one accepted publication. */
  lemma ClaimsAreNeverReused(w: World, steps: seq<Step>)
    requires Init(w)
    ensures var log := Run(w, steps).log;
            && (forall i, j | 0 <= i < j < |log| && log[i].Claimed? :: log[j] != log[i])
            && (forall i, j | 0 <= i < j < |log| && log[i].Published? && log[j].Published? ::
                  Acquisition(log[i].claim) != Acquisition(log[j].claim))
  {
    RunKeeps(w, steps);
    Parts(Run(w, steps));
  }

  /** Once lost, a claim never comes back, so every later renewal, release or
      publication that relies on it is turned down and writes nothing. */
  lemma LostClaimIsRejectedForever(w: World, steps: seq<Step>, node: Node, c: Sha, fields: ClaimFields,
                                   host: Host, who: Writer, l: Leases, after: Sha)
    requires Inv(w) && WasHeld(w, node, c) && !Holds(w, node, c)
    requires fields.node == node && l.claim == Some((node, c))
    ensures var w' := Run(w, steps);
            && !Holds(w', node, c)
            && Renew(w', c, fields).claims == w'.claims && Renew(w', c, fields).log == w'.log
            && Release(w', node, c) == w'
            && PushAtomic(w', host, who, l, after) == w'
  {
    RunKeeps(w, steps);
    Aspects(w, Run(w, steps));
  }

  /** Every value of `main` that anybody wrote descends from the value it
      replaced, and all of them are still in the history of `main`. */
  lemma NoUpdateOfMainIsLost(w: World, steps: seq<Step>, i: nat)
    requires Init(w)
    requires i < |Run(w, steps).log| && MovesMain(Run(w, steps).log[i])
    ensures var w' := Run(w, steps);
            Descends(w'.log[i].after, w'.log[i].before) && Descends(w'.main, w'.log[i].after)
  {
    RunKeeps(w, steps);
    Parts(Run(w, steps));
  }

  // ------------------------------------------------------------ what happens alone

  /** Fetch, fence and lease, with nobody in between. */
  function Fetched(w: World, pid: Pid, host: Host, job: Job): World {
    var w1 := Apply(w, DoFetchMain(host));
    var w2 := if job.Fenced? then Apply(w1, DoFetchClaim(host, job.req.node)) else w1;
    Apply(Apply(w2, DoBegin(pid, host, job)), DoReadLease(pid))
  }

  lemma FetchedIsLeased(w: World, pid: Pid, host: Host, job: Job)
    requires job.Fenced? ==> Holds(w, job.req.node, job.req.claimSha)
    ensures var w' := Fetched(w, pid, host, job);
            && w'.main == w.main && w'.claims == w.claims && w'.runs == w.runs && w'.log == w.log
            && host in w'.trackMain && w'.trackMain[host] == w.main
            && pid in w'.publishers && w'.publishers[pid] == Publisher(host, job, Leased(w.main))
  {
  }

  /** The last two steps of such a run. */
  lemma LeasedPublishes(w: World, pid: Pid, host: Host, req: Request, patches: seq<Patch>)
    requires pid in w.publishers && w.publishers[pid] == Publisher(host, Fenced(req), Leased(w.main))
    requires host in w.trackMain && w.trackMain[host] == w.main && LeasesHold(w, FullLeases(req, w.main))
    ensures var w' := Push(Rebase(w, pid, patches), pid);
            && w'.main == Stack(w.main, patches)
            && w'.claims == w.claims - {req.node} && w'.runs == w.runs - {(req.node, req.token)}
            && w'.log == w.log + [Published(By(pid), req.node, req.claimSha, w.main, Stack(w.main, patches))]
  {
  }

  /** Left alone, a run that holds its claim publishes: `main` becomes the rebased head,
      and claim and run ref are gone. */
  lemma AloneItPublishes(w: World, pid: Pid, host: Host, req: Request, patches: seq<Patch>)
    requires Holds(w, req.node, req.claimSha)
    requires (req.node, req.token) in w.runs && w.runs[(req.node, req.token)] == req.runShaBefore
    ensures var w' := Apply(Apply(Fetched(w, pid, host, Fenced(req)), DoRebase(pid, patches)), DoPush(pid));
            && w'.main == Stack(w.main, patches)
            && w'.claims == w.claims - {req.node} && w'.runs == w.runs - {(req.node, req.token)}
            && w'.log == w.log + [Published(By(pid), req.node, req.claimSha, w.main, Stack(w.main, patches))]
  {
    FetchedIsLeased(w, pid, host, Fenced(req));
    LeasedPublishes(Fetched(w, pid, host, Fenced(req)), pid, host, req, patches);
  }

  /** So does a single commit, for a run that failed or for a lifecycle change; the run
      ref stays. */
  lemma AloneItCommits(w: World, pid: Pid, host: Host, job: Job, patch: Patch)
    requires job.Fenced? ==> Holds(w, job.req.node, job.req.claimSha)
    ensures var w' := Apply(Fetched(w, pid, host, job), DoPushCommit(pid, patch));
            && w'.main == Work(w.main, patch) && w'.runs == w.runs
            && w'.claims == (if job.Fenced? then w.claims - {job.req.node} else w.claims)
            && w'.log == w.log + [if job.Fenced?
                                  then Published(By(pid), job.req.node, job.req.claimSha, w.main, Work(w.main, patch))
                                  else Moved(By(pid), w.main, Work(w.main, patch))]
  {
    FetchedIsLeased(w, pid, host, job);
  }

  /** A run ref moves exactly when it is new or the pushed commit descends from it. */
  lemma RunRefMovesIff(w: World, node: Node, token: Token, sha: Sha)
    ensures var k, w' := (node, token), PushRun(w, node, token, sha);
            && (w'.runs == w.runs[k := sha] <==> k !in w.runs || Descends(sha, w.runs[k]))
            && (w'.runs != w.runs[k := sha] ==> w' == w)
  {
    var k := (node, token);
    if k in w.runs && !Descends(sha, w.runs[k]) {
      assert w.runs[k] != sha && w.runs[k := sha][k] == sha;
    }
  }
}
