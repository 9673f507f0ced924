# Verification model of the task-graph engine

This project models the engine that runs a graph of tasks through git refs, and proves what its parts promise each
other. `dafny verify dfyconfig.toml` checks all of it.

| file | what it models |
|---|---|
| `Common.dfy` | options, and sizes of subsets |
| `Commits.dfy`, `ClaimProtocol.dfy` | the commit graph, the remote refs, and the claim and publish protocol as a step relation in which any number of hosts take turns |
| `Publish.dfy`, `Runner.dfy` | the three publishers as retry loops against a remote on which everybody else keeps working, the autonomous runner and the interactive session |
| `Mandates.dfy`, `MandateLookup.dfy`, `MandateChange.dfy`, `MandateRules.dfy` | the delegation tree, its validator, the most-specific-match router, the validator of signed changes, and who has to sign what |
| `States.dfy`, `Plans.dfy`, `Chain.dfy`, `ChainStates.dfy`, `TwoCopies.dfy` | the states of a node, the two readers of a plan, the numbered files of a node and its retry accounting, what each attempt and verdict leaves, and when the numbers survive a live tree that is behind `main` |
| `Composite.dfy`, `Landing.dfy` | aggregation up the task tree, by signals one at a time and by runs that overlap |
| `Spawn.dfy`, `Deadlock.dfy`, `Forest.dfy` | validation of the children of a composite plan by depth-first search, why its siblings cannot deadlock, which accepted dependency does, and when a whole tree can be finished |
| `Orchestrate.dfy`, `Termination.dfy` | the local scheduler, and exactly when one pass of it ends |
| `Session.dfy`, `CatchUp.dfy` | the bounded session log, and the loop that serves slow clients |
| `Frontmatter.dfy`, `FrontmatterRoundTrip.dfy`, `FrontmatterEmpty.dfy`, `FrontmatterItems.dfy` | parser and printer of the YAML subset, the round trip, and lists of mappings as people write them |
| `Masker.dfy`, `Segments.dfy` | masking of secrets, and cutting a document for translation |

A commit id is modelled by the commit itself: equal ids mean equal parent and contents. Claim tokens are fresh. Git
operations have the contract their callers rely on: create-only and exact-sha compare-and-swap, all-or-nothing pushes
under leases, a fetch as one step. Signature verification and pattern matching are parameters about which nothing is
assumed. Budgets are reals.

## What the code does and its comments do not say

Each of these is stated exactly by the lemma or contract named with it.

- A claim fetch that fails for any reason is reported as `fenced`, although the claim may still be held (`Publish.CheckFence`, `Publish.FencedPublish`).
- When the answer to an accepted push is lost the caller gets an error and the publication stands; a push error has a write behind it exactly when the push arrived and its leases held (`Publish.FencedPublish`).
- With `retry_max` 0 one attempt is made and an exhausted outcome reports 0 attempts (`Publish.FencedPublish`).
- A run reports `merge-conflict` whether or not its failure publication went through; the contract has a case in which nothing was written (`Runner.RunNode`).
- A model's mandate can be widened without a human key in a change that also moves its escalation target (`MandateChange.ModelWideningNeedsHumanUnlessMoved`).
- The scope of the root can never be widened, by any signature (`MandateChange.RootIsNeverWidened`).
- A change of kind is looked for before anything else and needs the owner's own human key only, so it can carry a wider scope past the delegator (`MandateChange.NewCoverageNeedsDelegatorIff`, `MandateChange.TurnedMandateIsWidenedAlone`).
- A change may take something away from an owner without the owner's signature, when it also moves the target or gives something else (`MandateRules.LossNeedsOwnerIff`).
- A dependency on a top-level node is accepted, written down as a sibling and never resolved (`Spawn.TopLevelDepBlocksForever`).
- A dependency on the composite parent or on a node above it is accepted and blocks the child for good, unless somebody signals by hand (`Deadlock.AncestorDepDeadlocks`).
- A run reads the decision of a plan without case and quotes and ignores a rejection; the scan compares the bare word and lets a rejected plan go. A node in between is attempted for ever by one pass of `run_auto`, although its comments promise that it terminates (`Termination.PassEndsIff`, `Termination.RejectedPlanIsRetriedForever`).
- The same happens to any waiting node when what its runs publish does not reach the local tree, which is synchronised on a best-effort basis (`Termination.UnseenPassEndsIff`).
- Each run signals on a checkout of its own and nothing looks at the parents again after the merge. Two last children that are worked on at the same time leave their parent unresolved, and no signal of another unresolved node changes that (`Landing.SiblingsInFlightLeaveParentOpen`, `Landing.LeftOpenIff`, `Landing.OpenStaysOpen`).
- An accepted audit of the last child leaves the parent open in the same way (`Landing.VerdictLeavesOpenIff`).
- A run takes its number from the live tree and writes into a checkout of `main`. When the live tree is behind, a failure overwrites an earlier one and the streak does not grow, no run can succeed, and a run can withdraw an accepted fact (`TwoCopies.FailureCountsIff`, `TwoCopies.OtherCountNeverSucceeds`, `TwoCopies.FactIsWithdrawnIff`).
- A tree can be finished exactly when nobody waits for itself through dependencies and children; only cycles among siblings are ever looked for (`Forest.CanFinishIff`, `Forest.AncestorDepIsDoomed`).
- A synthetic fact resolves a parent over its open audit, whose verdict then decides nothing (`Composite.AuditIsBypassedIff`).
- Numbers of ephemeral events are given out again after a restart (`Session.NumbersRiseIff`).
- A notice with number 0, received before the first event, can make a slow client miss that event for good (`CatchUp.LaggingOffersZeroIff`, `CatchUp.NoticeHidesTheFirstEvent`).
- A secret that starts or ends with an asterisk or contains the mask can survive masking (`Masker.MaskableIff`).
- A single field behind a dash whose key has a space or a quote is one scalar, not a mapping (`FrontmatterItems.LoneFieldIff`).
- An empty list or object below the top is read back as null (`FrontmatterEmpty.TreeSurvivesIff`).
- Quotes are escaped on writing and not unescaped on reading (`FrontmatterRoundTrip.StringSurvivesIff`), and a later key that starts with three dashes ends the front matter (`FrontmatterRoundTrip.MarkdownSurvivesIff`).
- A run that is killed or decomposed after it wrote its fact resolves its node (`Chain.ResolvedWithoutSuccessIff`).
- Only the latest fact counts, so an audit signal on a resolved node revives its old failures (`Chain.UngatedAuditRecounts`); the gate before a run is what prevents that.
- Front matter that the parser accepts but that is not fenced by exact `---` lines, for example in a file with CRLF line ends, is translated, and its schema is not looked at (`Segments.FrontMatterIsProtectedIff`, `Segments.LooseFenceIsTranslated`).
- Segmentation loses carriage returns and adds a missing last line break (`Segments.LosslessIff`).

## Model

| member | source | states |
|---|---|---|
| `Commits.AncestorIsShallower` | crates/mt-core/src/claims.rs:195-200 | a claim commit is strictly deeper than the commit it is built on, so a chain of renewals cannot come back to an earlier commit |
| `Commits.AncestorTokens` | crates/mt-core/src/claims.rs:174-200 | the tokens in the history of a commit include those of every ancestor: a commit with a fresh token is nobody's ancestor |
| `Commits.RenewalKeepsAcquisition` | crates/mt-core/src/claims.rs:239-253 | however often a claim is renewed or taken over, it goes back to one and the same acquisition |
| `ClaimProtocol.AcquireKeeps` | crates/mt-core/src/claims.rs:223-236 | a create-only acquire with a fresh token, on top of any value of main the caller read before, keeps the whole protocol invariant and takes nothing back, whether it wins or loses the race |
| `ClaimProtocol.RenewKeeps` | crates/mt-core/src/claims.rs:239-253 | the exact-sha CAS that serves both renewal and takeover keeps the invariant: the new value descends from the one it replaces and is itself new |
| `ClaimProtocol.ReleaseKeeps` | crates/mt-core/src/claims.rs:256-260 | a CAS delete keeps the invariant and cannot bring a lost claim back |
| `ClaimProtocol.PushAtomicKeeps` | crates/mt-core/src/publish.rs:122-154 | an all-or-nothing push under leases keeps the invariant as long as the new main descends from the leased one |
| `ClaimProtocol.AcceptedPushReadsAgree` | crates/mt-core/src/publish.rs:109-143 | if the remote takes a push, the lease read and the later read by name in the rebase gave the same commit, although other local runs may have fetched in between |
| `ClaimProtocol.StepKeeps` | crates/mt-core/src/publish.rs:69-166 | every one of the twelve protocol steps, taken by anybody, keeps the invariant; tracking copies and main only move forward, lost claims stay lost and are never copied again |
| `ClaimProtocol.RunKeeps` | crates/mt-core/src/publish.rs:69-166 | the invariant over every interleaving of any number of hosts |
| `ClaimProtocol.ClaimsAreNeverReused` | crates/mt-core/src/claims.rs:195-253 | in every interleaving a claim ref never holds the same commit twice, and every acquired claim yields at most one accepted publication |
| `ClaimProtocol.LostClaimIsRejectedForever` | crates/agent-server/src/graph.rs:219-239 | after any further steps a lost claim is still lost, and every renewal, release or publication that relies on it is turned down and writes nothing |
| `ClaimProtocol.NoUpdateOfMainIsLost` | crates/mt-core/src/publish.rs:109-143 | every value of main anybody ever wrote descends from the value it replaced and is still in the history of main |
| `ClaimProtocol.LeasesAre` | crates/mt-core/src/publish.rs:122-127 | the leases of a publication hold exactly while main, the claim and the run ref are all as this run left them; a failure run does without the run ref, a lifecycle change without both |
| `ClaimProtocol.AloneItPublishes` | crates/mt-core/src/publish.rs:69-154 | left alone, the steps of a run that holds its claim end with main at the rebased head, claim and run ref gone and exactly one publication logged |
| `ClaimProtocol.AloneItCommits` | crates/mt-core/src/publish.rs:201-291 | left alone, a failure run or a lifecycle change ends with main one commit further and the run ref untouched |
| `Publish.ForeignRunIsNotMine` | crates/mt-core/src/publish.rs:69-166 | whatever other publishers do, the accepted writes signed by this one stay as they are |
| `Publish.StaleCopyMeansLost` | crates/mt-core/src/publish.rs:88-107 | a refreshed local copy of the claim that differs from a commit once held proves that the commit is lost |
| `Publish.LostIsNotCopied` | crates/mt-core/src/publish.rs:88-107 | a copy made after a claim was lost is never of that claim again, although others refresh the same copy |
| `Publish.Origin.PushRefs` | crates/mt-core/src/publish.rs:122-154 | accepted exactly when the push arrived and all leases held; then main, claim ref and run ref change together, otherwise nothing does |
| `Publish.FetchBoth` | crates/mt-core/src/publish.rs:69-86 | which fetches failed, and that a fetched claim copy equals the remote ref at that moment |
| `Publish.CheckFence` | crates/mt-core/src/publish.rs:70-107 | a claim lost before the attempt began never passes the fence, whatever others fetch meanwhile; a lost verdict that is not a failed claim fetch means that the claim is gone at the remote; a failed claim fetch is reported as lost too, with the claim untouched |
| `Publish.ReadAndRebase` | crates/mt-core/src/publish.rs:109-119 | if main is still the leased commit when the rebase is done, the rebased head descends from it |
| `Publish.PushRebased` | crates/mt-core/src/publish.rs:122-143 | the push of the rebased head: when its answer is lost the caller cannot tell, and a write of its own stands exactly when the push arrived and main, claim and run ref were as leased |
| `Publish.RebaseAndPush` | crates/mt-core/src/publish.rs:109-143 | at most one write of its own, the patches of this attempt on top of the value it replaced; a push that was turned down carried the leases of the request and the rebased head, and some lease did not hold; an error after the push left a write exactly when the push arrived and its leases held |
| `Publish.Attempt` | crates/mt-core/src/publish.rs:69-158 | one turn of the loop, whichever it is: undisturbed, with the claim held and the run ref as leased, it wins and main becomes the rebased head; it only loses a race by a push of the head rebased in this attempt under all leases, not older than its own fetch, one of which did not hold; fenced away means lost or unfetched, a conflict means that the rebase failed |
| `Publish.FencedPublish` | crates/mt-core/src/publish.rs:59-166 | outcomes are truthful under any interference and network fault: published exactly when one push of this call was accepted, with the patches of the last attempt on top of the value it replaced; exhausted means that each of the max(retry_max, 1) attempts pushed the head it rebased under all leases and that those did not hold; every attempt before the deciding one lost its race in the same way, and no attempt that could win ever lost; a push error has a write behind it exactly when the push whose answer was lost arrived and its leases held; fenced is final unless the claim fetch failed |
| `Publish.FailureAttempt` | crates/mt-core/src/publish.rs:201-291 | one turn: one commit straight on the leased main that releases the claim and keeps the run ref; undisturbed with the claim held it lands, whichever turn it is; turned down only by leases that did not hold; refused for a lost claim only when the claim is gone or could not be fetched |
| `Publish.LifecycleAttempt` | crates/mt-core/src/publish.rs:329-396 | one turn under a lease on main alone: undisturbed it lands, whichever turn it is; turned down only when main had moved since |
| `Publish.PublishFailureRun` | crates/mt-core/src/publish.rs:183-299 | published exactly with one own write, the commit of the deciding attempt on the value it replaced; exhausted means that the leases of every attempt had failed when it pushed; fenced means that the claim is gone unless its fetch failed; an error has a write behind it exactly when the lost answer belonged to a push whose leases held |
| `Publish.PublishLifecycle` | crates/mt-core/src/publish.rs:314-415 | a sha is reported exactly for one accepted push, of the commit of the deciding attempt; published without a sha means no changes or nothing to commit; exhausted means that main had moved under every attempt; never fenced |
| `Runner.AcquireClaim` | crates/mt-core/src/claims.rs:223-236 | on top of a base read earlier: accepted exactly when the remote has no claim for the node and the token is new, and then the claim is held with the commit that is returned |
| `Runner.RunNode` | crates/mt-core/src/runner.rs:1024-1440 | base, claim, run ref, publish, failure run, with others at work in between: at most one own write of main. With the node free, nobody interfering and no failure it finishes: main is the old main with the rebased patches on top, and neither claim nor run ref is left. Success is always backed by a publication of exactly this claim; a merge conflict comes only from a failed rebase or from attempts whose leases on main, the claim or the run ref at the base had failed; the failure run is committed and leaves the run ref, or nothing is written and `merge-conflict` is reported all the same; taken and lost mean that |
| `Runner.InteractiveRun.Renew` | crates/agent-server/src/graph.rs:219-239 | accepted exactly when the claim is still held at that moment; the new claim extends the old one with the same token and generation; refused means lost |
| `Runner.InteractiveRun.Release` | crates/agent-server/src/graph.rs:317-321 | deletes the claim ref exactly when it is still this run's, and never another owner's |
| `Runner.InteractiveRun.Handoff` | crates/agent-server/src/graph.rs:329-344 | the run ref is moved to the head, the ticket carries token and generation and is handed out whether or not there was a claim left to release; claims of others stay |
| `Runner.InteractiveRun.Done` | crates/agent-server/src/graph.rs:273-310 | undisturbed, with the claim held and the run ref at the head, it publishes: main is the rebased head, claim and run ref are gone; published exactly with one publication of the current claim; exhausted only when the leases of every attempt had failed; an error has a write behind it exactly when the lost answer belonged to a push whose leases held; fenced means lost unless the claim fetch failed |
| `Mandates.ChainHasNoRepeats` | crates/mt-mandates/src/parse.rs:124-153 | an escalation chain to the root meets nobody twice |
| `Mandates.ChainIsShort` | crates/mt-mandates/src/parse.rs:124-127 | a chain to the root has at most as many owners as there are mandates, so the bound n + 1 rejects no valid chain |
| `Mandates.LongWalkNeverArrives` | crates/mt-mandates/src/parse.rs:124-141 | a walk of more steps than mandates that has not arrived never will |
| `Mandates.LongWalkIsACycle` | crates/mt-mandates/src/parse.rs:135-141 | the walk that runs into the bound really goes in a circle |
| `Mandates.Climb` | crates/mt-mandates/src/parse.rs:127-153 | the bounded walk answers exactly whether the owner reaches the root, and why not otherwise |
| `Mandates.Survey` | crates/mt-mandates/src/parse.rs:85-122 | one pass over the mandates: shapes, unique owners, the number of roots |
| `Mandates.Validate` | crates/mt-mandates/src/parse.rs:73-156 | valid exactly for files with generation at least 1, non-empty scopes, no audacity on a person, unique owners, one root, and every owner reaching it by a chain of any length; each refusal names a reason that holds |
| `MandateRules.LooksMatterOnly` | crates/mt-mandates/src/parse.rs:73-156 | a good file, changed without a change of owners and targets, stays good exactly when every mandate keeps something to be responsible for and some type of decision, and no person is given an audacity |
| `MandateLookup.EscalationChainIsComplete` | crates/mt-mandates/src/lookup.rs:163-181 | on an accepted file the chain goes from the owner to the root, is never cut by the loop bound and repeats nobody |
| `MandateLookup.EscalationChain` | crates/mt-mandates/src/lookup.rs:163-181 | the bounded loop computes the chain of the specification |
| `MandateLookup.FindEffectiveOwner` | crates/mt-mandates/src/lookup.rs:61-125 | the loop over best so far computes the specification of the router |
| `MandateLookup.CoversIff` | crates/mt-mandates/src/lookup.rs:71-158 | a mandate covers a decision exactly when it lists its type or the wildcard, some pattern matches, the budget is not above the ceiling, the risk is not medium or high under low nor high under medium, and what is irreversible is explicitly allowed; absent ceilings and facets never exclude |
| `MandateLookup.OwnerIsTheWinner` | crates/mt-mandates/src/lookup.rs:71-125 | an owner is answered exactly when one mandate covers the decision with a positive specificity that every other covering mandate stays below, and it is that mandate's owner |
| `MandateLookup.InvalidRefIff` | crates/mt-mandates/src/lookup.rs:67-69 | only the empty ref is turned away unseen |
| `MandateLookup.NoMatchMeansUncovered` | crates/mt-mandates/src/lookup.rs:71-125 | under a matcher for which the empty pattern matches no ref, no match is answered exactly when nothing covers the decision; under any matcher, exactly when whatever covers it has specificity 0 |
| `MandateLookup.AmbiguousListsTheTied` | crates/mt-mandates/src/lookup.rs:92-125 | an ambiguous answer lists exactly the owners that share the greatest specificity |
| `MandateLookup.OrderDoesNotMatter` | crates/mt-mandates/src/lookup.rs:71-125 | files with the same mandates in any order give the same answer |
| `MandateLookup.AskingMoreNeverSpecialises` | crates/mt-mandates/src/lookup.rs:142-157 | raising budget, risk or irreversibility never raises the greatest specificity |
| `MandateChange.ValidateMandateChange` | crates/mt-mandates/src/change.rs:157-278 | accepted exactly when the generation grows by one, the new file is valid, and no owner's change lacks a signature it needs; a refusal names what is wrong |
| `MandateChange.CollectSigners` | crates/mt-mandates/src/change.rs:179-188 | the loop collects the handles whose signatures verify over this very change, and those of them with a human key |
| `MandateChange.SignersAre` | crates/mt-mandates/src/change.rs:179-188 | a handle counts as a signer exactly when one of its signatures verifies over this payload, and as human exactly when one with the human role does |
| `MandateChange.NewCoverageIsWidening` | crates/mt-mandates/src/change.rs:292-378 | with kind and target unchanged, a mandate that covers anything new, under any pattern matcher, is classified as widened |
| `MandateChange.UnchangedScoresTheSame` | crates/mt-mandates/src/change.rs:292-316 | a change classified as unchanged leaves coverage and specificity of every decision alone |
| `MandateChange.AcceptedCoverageIsSigned` | crates/mt-mandates/src/change.rs:205-262 | new coverage in an accepted change was signed by the delegator, and for a model's mandate whose target stays by some human as well; when the kind changes with it, by the owner's own human key |
| `MandateChange.NewCoverageNeedsDelegatorIff` | crates/mt-mandates/src/change.rs:205-262 | new coverage of a mandate that has a delegator needs the delegator's signature exactly when the kind of the mandate stays |
| `MandateChange.TurnedMandateIsWidenedAlone` | crates/mt-mandates/src/change.rs:256-270 | the other case is real: a concrete accepted change, signed by nobody but the owner, changes the kind and widens the scope |
| `MandateChange.ModelWideningNeedsHumanUnlessMoved` | crates/mt-mandates/src/change.rs:205-255 | new coverage for a model's mandate needs a human key exactly unless the same change moves the escalation target of a mandate that has one |
| `MandateChange.MovedModelIsWidenedWithoutAHuman` | crates/mt-mandates/src/change.rs:211-231 | that exception is real: a concrete accepted change, signed by two models, widens a model's mandate |
| `MandateChange.GenerationCountsChanges` | crates/mt-mandates/src/change.rs:162-171 | over any accepted history the generation counts the changes and every file stays valid |
| `MandateChange.UnsignedAuthorityIsFrozen` | crates/mt-mandates/src/change.rs:190-278 | if neither an owner nor its escalation target ever contributes a verified signature, the owner keeps entry, kind, target and exactly the decisions it covers, over the whole history |
| `MandateChange.RootHandoverIsSigned` | crates/mt-mandates/src/change.rs:211-262 | the root changes hands only in a change that the old root signed |
| `MandateChange.SilentRootStaysRoot` | crates/mt-mandates/src/change.rs:190-278 | over a whole history, a root that signs nothing stays the root |
| `MandateChange.RootIsNeverWidened` | crates/mt-mandates/src/change.rs:232-248 | no signature can widen the root itself: it has no delegator |
| `MandateRules.WidenedIff` | crates/mt-mandates/src/change.rs:292-378 | with kind and target unchanged a change is a widening exactly when some matcher and decision are newly covered, a model gets bolder, or the ceiling high, which excluded nothing, is dropped |
| `MandateRules.NarrowedIff` | crates/mt-mandates/src/change.rs:303-313 | a narrowing exactly when nothing is gained in that sense and something is given up, unchanged exactly when neither |
| `MandateRules.CeilingMoves` | crates/mt-mandates/src/change.rs:347-378 | a risk ceiling that goes up from low over medium to high or away is a widening, one that goes down or appears a narrowing |
| `MandateRules.AcceptsIff` | crates/mt-mandates/src/change.rs:157-278 | accepted exactly when generation and file are good and every entry is signed by its target, and by some human for a model, every exit by the owner, every change of kind by the owner's human key, every move by both targets, every gain by the delegator and every pure loss by the owner |
| `MandateRules.EveryoneEnteredSigned` | crates/mt-mandates/src/change.rs:232-255 | over a history, whoever is in the last file was in the first one or came in by a change that their target signed, and some human for a model |
| `MandateRules.NobodyIsRemovedUnsigned` | crates/mt-mandates/src/change.rs:256-262 | over a history, whoever was in the first file is in the last one or left by a change they signed |
| `MandateRules.LossNeedsOwnerIff` | crates/mt-mandates/src/change.rs:211-262 | taking something away needs the owner's signature exactly unless the kind stays and the same change moves the target or gives something else, with somebody else to sign for that |
| `Spawn.Search.Dfs` | crates/mt-core/src/spawn.rs:335-357 | the search finishes everything below an id or finds a cycle; finished ids come after their dependencies; it terminates because the open path only grows |
| `Spawn.ReturningPathIsACycle` | crates/mt-core/src/spawn.rs:344-346 | meeting an id that is still open closes a cycle of the sibling graph |
| `Spawn.OrderedIsAcyclic` | crates/mt-core/src/spawn.rs:354-361 | an order in which everybody comes after its dependencies leaves no cycle |
| `Spawn.CheckFields` | crates/mt-core/src/spawn.rs:316-333 | passes exactly when ids, modes and dependencies of all children are good |
| `Spawn.FindCycle` | crates/mt-core/src/spawn.rs:335-361 | true exactly when the sibling dependencies have a cycle |
| `Spawn.ValidateChildren` | crates/mt-core/src/spawn.rs:308-363 | accepts exactly the well-formed lists whose sibling dependencies are acyclic; the cycle error is given only for a cycle |
| `Spawn.AcyclicIffNeverStuck` | crates/mt-core/src/spawn.rs:334-361 | the cycle check is exactly the right one: no cycle if and only if in every proper subset of resolved siblings some unresolved child waits for none outside it |
| `Spawn.DepNamesItsTarget` | crates/mt-core/src/spawn.rs:397-407 | a dependency is written down as the node it means exactly when it names a sibling or contains a slash |
| `Spawn.BlockedIff` | crates/mt-core/src/lib.rs:701-717 | a node is blocked exactly when one of its dependencies is unknown to the scan or in any state but resolved |
| `Spawn.AcceptedPlanCannotDeadlock` | crates/mt-core/src/lib.rs:701-717 | while a child of an accepted list is unresolved and the outside dependencies are met, some unresolved child is not blocked |
| `Spawn.TopLevelDepBlocksForever` | crates/mt-core/src/spawn.rs:397-407 | an accepted dependency on a top-level node is written down as a path below the parent and blocks its child in every state of the tree in which there is no node of that path |
| `Deadlock.ParentIsAcceptedAsDep` | crates/mt-core/src/spawn.rs:326-332 | a list whose child depends on its own composite parent is well-formed and acyclic, so it is accepted |
| `Deadlock.AncestorDepDeadlocks` | crates/mt-core/src/spawn.rs:397-407 | such a child, or one that depends on any node above its parent, stays blocked and that node unresolved after any sequence of signals elsewhere in the tree |
| `Session.TailAnswersIff` | crates/agent-server/src/session.rs:120-133 | the buffer gives the answer of the whole journal exactly when everything it has let go of is older than the query |
| `Session.TailAnswersForAll` | crates/agent-server/src/session.rs:120-133 | with rising numbers a query not older than the first buffered entry gets from the buffer what the whole journal would answer |
| `Session.TailIsLast` | crates/agent-server/src/session.rs:96-104 | the buffer is the last 500 entries, or all there are |
| `Session.Session.constructor` | crates/agent-server/src/session.rs:49-74 | opening restores buffer, counter and run token from the file |
| `Session.Session.Append` | crates/agent-server/src/session.rs:78-113 | the session moves as an unbounded journal would; the file gets exactly the journalled envelope |
| `Session.Session.ReplayFrom` | crates/agent-server/src/session.rs:120-156 | whichever of buffer and file serves it, the answer is the complete journal filtered by number |
| `Session.JournalOnlyGrows` | crates/agent-server/src/session.rs:49-113 | over any run of appends, restarts and replays numbers strictly increase, entries are never changed or dropped, and the run token survives |
| `Session.NothingIsLostOrAdded` | crates/agent-server/src/session.rs:78-113 | over any run the journal holds exactly the events appended to be kept, in the order they came |
| `Session.Live` | crates/agent-server/src/session.rs:49-156 | the 500-entry session refines the unbounded journal over every run: same state and same replies |
| `Session.NumbersRiseIff` | crates/agent-server/src/session.rs:61-62 | the numbers handed out rise over a whole run exactly when no restart follows an ephemeral event with another event still to come |
| `Session.Room.SeedJournal` | crates/agent-server/src/session.rs:185-194 | an inherited journal replaces the file exactly when the session is not open |
| `Session.Room.Inherit` | crates/agent-server/src/session.rs:185-204 | a host that seeds any inherited journal carries on with its numbers and token; it replays all of it when the numbers rise, and otherwise exactly when the file is asked or nothing wanted has left the buffer |
| `CatchUp.LiveKeeps` | crates/agent-server/src/ws.rs:483-493 | a live receive keeps the promise even where the last number sent moves backwards |
| `CatchUp.CatchingUpKeeps` | crates/agent-server/src/ws.rs:500-515 | a catch-up from the number after the last one sent offers everything journalled that was still missing |
| `CatchUp.CaughtUp` | crates/agent-server/src/ws.rs:500-515 | catching up leaves nothing to catch up with: a second time would offer nothing |
| `CatchUp.LaggedIff` | crates/agent-server/src/ws.rs:494-500 | a receiver lags exactly when a message it has not seen is followed by 1024 others, and then goes on with the oldest of these |
| `CatchUp.NothingJournalledIsMissed` | crates/agent-server/src/ws.rs:427-534 | through any mix of live receives and catch-ups, everything journalled from the starting point that has left the channel or is not past the last number sent was offered; number 0 is only covered when no notice is broadcast |
| `CatchUp.LaggingOffersZeroIff` | crates/agent-server/src/ws.rs:500-515 | a client that lags before it was offered event 0 gets it exactly when nothing at all has been sent to it |
| `CatchUp.MissedZeroStaysMissed` | crates/agent-server/src/ws.rs:500-515 | once skipped, event 0 never comes back |
| `CatchUp.NoticeHidesTheFirstEvent` | crates/agent-server/src/session.rs:227-240 | a concrete run: a notice, then a burst larger than the channel, and the first journalled event is never offered |
| `CatchUp.Connection.CatchUpFrom` | crates/agent-server/src/ws.rs:502-515 | the loop over the missed entries offers all of them in order and leaves the number of the last |
| `CatchUp.Connection.Receive` | crates/agent-server/src/ws.rs:482-531 | one turn of the receiver as the state machine says |
| `CatchUp.Serve` | crates/agent-server/src/ws.rs:427-534 | the whole connection follows the state machine the theorem is about |
| `Masker.PassLeavesNone` | crates/mt-core/src/secrets.rs:290-298 | one replacement pass removes its own value and brings no maskable value back |
| `Masker.MaskedLeavesNone` | crates/mt-core/src/secrets.rs:290-298 | no maskable secret is left in the output, whatever the text and however the secrets overlap |
| `Masker.MaskableIff` | crates/mt-core/src/secrets.rs:290-298 | a secret is always removed exactly when it neither starts nor ends with an asterisk and has no mask inside |
| `Masker.MaskedRedacts` | crates/mt-core/src/secrets.rs:290-298 | the output is the input with some disjoint occurrences of secrets replaced and everything else kept in place |
| `Masker.MaskingTwiceIsMaskingOnce` | crates/mt-core/src/secrets.rs:290-298 | masking with maskable secrets is idempotent |
| `Masker.OnceIsEnoughIff` | crates/mt-core/src/secrets.rs:290-298 | masking one secret is idempotent on every text exactly when the secret is maskable or is the mask itself |
| `Masker.NewMaskerHolds` | crates/mt-core/src/secrets.rs:271-282 | the masker holds exactly the non-empty secrets, longest first, no two neighbours alike |
| `Masker.SortedKeepsTies` | crates/mt-core/src/secrets.rs:271-282 | secrets of the same length stay in the order they came in |
| `Masker.NoSecretIsCut` | crates/mt-core/src/secrets.rs:277-279 | when the turn of a secret comes, no longer secret that contains it is left, so none is cut into pieces |
| `Masker.Apply` | crates/mt-core/src/secrets.rs:290-298 | the loop over the values computes the specification and leaves no maskable value |
| `Masker.MaskOutput` | crates/mt-core/src/secrets.rs:271-298 | no maskable secret of the run survives; a text without secrets is unchanged; the output is the passes of all secrets in order |
| `Frontmatter.ReadItems` | crates/mt-core/src/frontmatter.rs:165-192 | the loop that collects list items computes the grouping of the specification |
| `Frontmatter.ParseYamlBlock` | crates/mt-core/src/frontmatter.rs:108-216 | the index loop over the lines computes the recursive specification of the parser |
| `Frontmatter.SerializeYaml` | crates/mt-core/src/frontmatter.rs:345-369 | the loop over the entries computes the specification of the serializer |
| `FrontmatterRoundTrip.ScalarReads` | crates/mt-core/src/frontmatter.rs:310-341 | every safe scalar is read back as itself |
| `FrontmatterRoundTrip.NeedsQuotesIff` | crates/mt-core/src/frontmatter.rs:372-380 | a string is quoted exactly when it holds one of the special characters or has white space at an end |
| `FrontmatterRoundTrip.BelowObject` | crates/mt-core/src/frontmatter.rs:193-212 | a nested object is its own lines two spaces further in, and dedenting gives them back |
| `FrontmatterRoundTrip.ListReads` | crates/mt-core/src/frontmatter.rs:162-192 | a written list of scalars is read back item by item |
| `FrontmatterItems.ListOfMappingsReads` | crates/mt-core/src/frontmatter.rs:162-192 | a list written by hand reads as exactly its items, any number of them: scalars, bare dashes, and mappings of distinct safe keys over several lines, at any indentation |
| `FrontmatterItems.LoneFieldIff` | crates/mt-core/src/frontmatter.rs:255-275 | a single field behind a dash reads as a mapping exactly when its key is not empty and has neither spaces nor quotes; otherwise as one scalar |
| `FrontmatterRoundTrip.ReadsBack` | crates/mt-core/src/frontmatter.rs:108-216 | the parser reads the lines of an object, at any depth, as that object |
| `FrontmatterRoundTrip.LaterKeyCounts` | crates/mt-core/src/frontmatter.rs:135-144 | of two lines with the same key the later value counts, in the place of the first |
| `FrontmatterRoundTrip.ParseSerialize` | crates/mt-core/src/frontmatter.rs:345-369 | parse of serialize is the identity on trees of distinct safe keys, safe leaves and nothing empty below the top |
| `FrontmatterEmpty.EmptyReadsAsNull` | crates/mt-core/src/frontmatter.rs:345-369 | on trees of distinct safe keys and safe leaves, parse of serialize puts null for every empty list and object below the top, at any depth, and changes nothing else |
| `FrontmatterEmpty.TreeSurvivesIff` | crates/mt-core/src/frontmatter.rs:345-369 | such a tree comes back as it was exactly when nothing below its top is empty |
| `FrontmatterRoundTrip.StringSurvivesIff` | crates/mt-core/src/frontmatter.rs:310-394 | a string comes back exactly when it is non-empty, on one line, and free of quotes where it gets quoted or not mistaken for something else where it does not |
| `FrontmatterRoundTrip.MarkdownReads` | crates/mt-core/src/frontmatter.rs:397-400 | writing a document and reading it back gives front matter and body |
| `FrontmatterRoundTrip.MarkdownSurvivesIff` | crates/mt-core/src/frontmatter.rs:57-83 | the front matter of a document survives exactly when no key but the first starts with three dashes |
| `Chain.StepKeeps` | crates/mt-core/src/signal.rs:57-72 | every gated attempt, verdict, question, answer and invalidation keeps numbers 1..count, audits on facts, and every fact but the latest rejected |
| `Chain.RunKeeps` | crates/mt-core/src/signal.rs:57-72 | that invariant over every history of a node |
| `Chain.StreakCountsAllFailures` | crates/mt-core/src/lib.rs:341-370 | in one directory, while a node is unresolved its streak is the number of failed attempts since the chain began: rejected facts and lifecycle results never restart the ladder |
| `Chain.StreakNeverDrops` | crates/mt-core/src/lib.rs:341-370 | the streak goes back only when a fact is accepted or the chain is archived |
| `Chain.RetriesAreBounded` | crates/mt-core/src/lib.rs:677-683 | attempts that start while the node is waiting fail at most agent_retry_max times |
| `Chain.WaitingNeverGivesUp` | crates/mt-core/src/lib.rs:423-440 | attempts that start while the node is waiting never make it unresolvable by the execution ladder while an engineer's rung is left |
| `Chain.AuditStreakCountsAllRejections` | crates/mt-core/src/audit.rs:285-302 | while unresolved the audit streak is every rejection of the chain |
| `Chain.AttemptResolvesIff` | crates/mt-core/src/runner.rs:1209-1344 | an attempt resolves its node exactly when its executor was called and the fact it wrote stays without an audit |
| `Chain.ResolvedWithoutSuccessIff` | crates/mt-core/src/runner.rs:1209-1344 | a node is resolved by a run that did not succeed exactly when the run was killed or decomposed after writing its fact |
| `Chain.UngatedAuditRecounts` | crates/mt-core/src/lib.rs:341-346 | without the gate, an audit opened on a resolved node brings every earlier failure back into the streak |
| `ChainStates.StateIff` | crates/mt-core/src/lib.rs:645-693 | the order in which audit, resolution, open decision, marker, running, plan and retry ladder decide the state of a node |
| `ChainStates.RunFileIff` | crates/mt-core/src/runner.rs:1209-1344 | the run file an attempt leaves: success exactly for an executor that was called, not decomposed, not killed, with a fact that passed; lifecycle exactly for a decomposition; all other run files stay |
| `ChainStates.FactFileIff` | crates/mt-core/src/runner.rs:1209-1344 | the fact stays exactly unless its check failed or it never reaches the others |
| `ChainStates.AttemptOpensAuditIff` | crates/mt-core/src/runner.rs:1286-1296 | an attempt leaves its node under audit exactly when it succeeds where an audit is required |
| `ChainStates.MarkedIff` | crates/mt-core/src/lib.rs:423-440 | an attempt sets the terminal marker exactly when it reaches the others and leaves the whole ladder used up, or another reason to give up |
| `ChainStates.ResolvingEndsStreak` | crates/mt-core/src/lib.rs:341-370 | an attempt that resolves its node leaves no streak, even when its own run file says that it failed |
| `ChainStates.VerdictDecides` | crates/mt-core/src/audit.rs:110-149 | a verdict decides exactly the open audit: resolved or back to work; without one it is void |
| `ChainStates.AuditStreakAfter` | crates/mt-core/src/audit.rs:285-302 | an accepting verdict ends the streak of rejections, a rejecting one adds one to it |
| `ChainStates.OneQuestionOneAnswer` | crates/mt-core/src/audit.rs:154-232 | one question per audit, one answer to it, neither changes the state, and both come too late after the verdict |
| `Chain.CountFailures` | crates/mt-core/src/lib.rs:349-370 | counting files in any order gives the size of the set of failures after the accepted fact |
| `TwoCopies.SameCountSameFiles` | crates/mt-core/src/runner.rs:1253-1344 | a run numbered in the live tree writes into its checkout what it would write into one directory, whenever both hold as many runs |
| `TwoCopies.OtherCountNeverSucceeds` | crates/mt-core/src/signal.rs:311-317 | with another count of runs no attempt can succeed: the signal looks for a fact of the number it counts itself |
| `TwoCopies.NumberingHoldsIff` | crates/mt-core/src/runner.rs:735-741 | a run keeps the numbers 1..count and audits on facts exactly when the live tree is not ahead and no fact under audit is taken back |
| `TwoCopies.FailureCountsIff` | crates/mt-core/src/runner.rs:1299-1344 | a failed run raises the number of failures exactly unless a failure of that number is already in the checkout, whose file it overwrites |
| `TwoCopies.FactIsWithdrawnIff` | crates/mt-core/src/runner.rs:1299-1308 | with stale numbers, a run on a node that is resolved on main withdraws the accepted fact exactly when it has its number and is neither killed nor decomposed |
| `Chain.NodeDir.CountAuditFailedStreak` | crates/mt-core/src/audit.rs:285-302 | the loop down from the latest verdict computes the streak |
| `Chain.NodeDir.Run` | crates/mt-core/src/runner.rs:685-691 | an attempt is refused under audit or when resolved, and otherwise leaves exactly the files of the specification |
| `Chain.NodeDir.Record` | crates/mt-core/src/runner.rs:1186-1376 | facts, runs, pending audits and the terminal marker an attempt leaves, branch by branch; with a composite plan there from the start no executor runs |
| `Chain.NodeDir.Judge` | crates/mt-core/src/audit.rs:110-149 | a verdict goes to the open cycle and is refused when there is none |
| `Chain.NodeDir.Clarify` | crates/mt-core/src/audit.rs:154-190 | one question per cycle |
| `Chain.NodeDir.Amend` | crates/mt-core/src/audit.rs:194-232 | one answer, and only to a question |
| `Composite.WithFactResolves` | crates/mt-core/src/signal.rs:493-507 | thanks to the numbering the synthetic fact is the latest one and resolves its node |
| `Composite.HeightIsMaximal` | crates/mt-core/src/signal.rs:444-513 | a signal rises exactly as long as every further parent is unresolved with all other children resolved |
| `Composite.SignalKeepsClosed` | crates/mt-core/src/signal.rs:444-513 | a signal that sees the tree it changes leaves no parent unresolved above resolved children |
| `Composite.SignalsKeepClosed` | crates/mt-core/src/signal.rs:444-513 | the same over any sequence of signals one after the other on one tree, and nothing resolved is lost |
| `Composite.ParentResolvedIff` | crates/mt-core/src/signal.rs:448-466 | in the tree it sees, a signal resolves the parent exactly when it came from the last child missing |
| `Composite.FactKeepsChainIff` | crates/mt-core/src/signal.rs:453-507 | a synthetic fact keeps the order of the version chain exactly when the node is neither resolved nor under audit, and only the first is looked at |
| `Composite.AuditIsBypassedIff` | crates/mt-core/src/signal.rs:453-466 | a signal resolves an ancestor over its open audit exactly when every level up to it rises; the cycle stays open and its verdict decides nothing any more |
| `Composite.AncestorNeverResolvesFirst` | crates/mt-core/src/signal.rs:444-466 | an unresolved path from a node down to a descendant stays unresolved under any sequence of signals that are neither on the path nor below it |
| `Landing.LeftOpenIff` | crates/mt-core/src/runner.rs:1286-1288 | over every interleaving of runs that take a checkout, signal on it and are merged into main, and of other changes of nodes: a node above resolved children is left unresolved exactly when it was unresolved at first, no change of its own files resolved it, and every published run that resolved one of its children had another child unresolved in its checkout |
| `Landing.LandingLeavesOpenIff` | crates/mt-core/src/publish.rs:109-117 | one publication leaves a node open exactly when it brings the last child missing on main and the run had not seen the others resolved |
| `Landing.SiblingsInFlightLeaveParentOpen` | crates/mt-core/src/signal.rs:444-466 | in every tree, two runs of the last two children that overlap both succeed and are both published, and leave the parent open |
| `Landing.OpenStaysOpen` | crates/mt-core/src/signal.rs:444-466 | a node left open stays open under any sequence of signals of other unresolved nodes |
| `Landing.OneByOneIsSequential` | crates/mt-core/src/signal.rs:444-513 | runs that are published before the next one takes its checkout do to main exactly what signals on one tree do |
| `Landing.RunKeeps` | crates/mt-core/src/signal.rs:444-513 | over every interleaving the trees keep their numbering, and a node is resolved on main exactly when it was at first, by a change of its own files, or by the signal of a published run that reached it in its checkout |
| `Landing.VerdictLeavesOpenIff` | crates/mt-core/src/audit.rs:110-149 | a verdict leaves the parent open exactly when it accepts the last child missing: it does not look upwards |
| `Forest.CanFinishIff` | crates/mt-core/src/lib.rs:701-717 | with edges from an unresolved leaf to its dependencies and from a composite node to its children: some order of runs resolves every node exactly when no unresolved node waits for itself or for a node that does not exist |
| `Forest.DoomedNeverResolves` | crates/mt-core/src/signal.rs:444-466 | nodes each of which waits for another of them or for a missing one stay unresolved under every legal order of runs |
| `Forest.AncestorDepIsDoomed` | crates/mt-core/src/spawn.rs:326-332 | a leaf that depends on a node above it keeps the tree from ever being finished |
| `Composite.Graph.Done` | crates/mt-core/src/signal.rs:294-350 | one signal changes exactly the node and the maximal run of ancestors above it, and reports those ancestors in order |
| `Composite.Graph.Propagate` | crates/mt-core/src/signal.rs:444-513 | the upward loop on the changing tree does what the tree before the signal determines |
| `Orchestrate.ComparesConsistently` | crates/mt-core/src/orchestrate.rs:55-75 | the comparison is a total preorder |
| `Orchestrate.ComesFirstIff` | crates/mt-core/src/orchestrate.rs:55-75 | a node comes first exactly when more nodes wait for it, else by the sooner deadline, else by the sooner creation, missing ones last, else, without creation times, by path |
| `Orchestrate.SortKeepsTies` | crates/mt-core/src/orchestrate.rs:48-77 | nodes that compare alike stay in the order of the scan |
| `Orchestrate.SortsForAuto` | crates/mt-core/src/orchestrate.rs:48-77 | the result is sorted and a permutation of the waiting nodes |
| `Orchestrate.NothingIsForgotten` | crates/mt-core/src/orchestrate.rs:123-155 | in a legal trace whatever was started has ended or is in flight, never more than the limit at once and never a node that was given up on |
| `Orchestrate.SkippedWasRefused` | crates/mt-core/src/orchestrate.rs:146-154 | a node is given up on exactly when one of its runs reported an error |
| `Orchestrate.FillSlots` | crates/mt-core/src/orchestrate.rs:104-128 | free slots are filled without exceeding the limit or starting a node twice; a slot stays free only when every waiting node runs or was given up; nothing started ranks after a candidate left out |
| `Orchestrate.RunAuto` | crates/mt-core/src/orchestrate.rs:89-158 | for any way in which the runs may end: the pass is a legal trace, that is at most max(concurrency, 1) in flight, the best candidate first, waiting only with no slot free or nothing to start; one result per ending; when it is done nothing is in flight, starts equal endings and every waiting node was refused before |
| `Plans.ScanImpliesRunner` | crates/mt-core/src/lib.rs:602-629 | of the text after the key: what the scan takes for a composite decision a run does too |
| `Plans.CaseMatters` | crates/mt-core/src/runner.rs:520-528 | any other case of the letters of `composite` is composite to a run and not to the scan |
| `Plans.CapitalMatters` | crates/mt-core/src/runner.rs:520-528 | for example `Composite` is composite to a run only |
| `Plans.QuotesMatter` | crates/mt-core/src/runner.rs:520-528 | so is the word in quotes |
| `Termination.AttemptUsesPotentialIff` | crates/mt-core/src/runner.rs:1209-1276 | a recorded attempt of a waiting node leaves fewer attempts to come exactly unless it is decomposed without a fact under a plan that the scan does not hold; then the node waits as before, with as many attempts to come |
| `Termination.StuckStaysStuck` | crates/mt-core/src/runner.rs:1209-1214 | on a waiting node with a plan that a run reads as composite every attempt leads nowhere, whatever the executor would have done |
| `Termination.EndingsAreBounded` | crates/mt-core/src/orchestrate.rs:104-158 | in a pass that cannot get stuck, whose written plans the scan recognises and whose reported successes it sees, every ending uses up some of a fixed amount of work |
| `Termination.PassEndsIff` | crates/mt-core/src/orchestrate.rs:83-158 | the number of runs of such passes is bounded exactly unless some waiting node has a plan that a run reads as composite and the scan does not hold, and has its dependencies resolved or resolvable by other waiting nodes |
| `Termination.StuckStartsForever` | crates/mt-core/src/orchestrate.rs:104-128 | such a node, free to start, is started any number of times within one pass, next to whatever else is running |
| `Termination.UnseenPassEndsIff` | crates/mt-core/src/publish.rs:422-424 | when published results may fail to reach the local tree, a pass is bounded only where nothing waits at all |
| `Termination.UnfinishedHasWork` | crates/mt-core/src/orchestrate.rs:130-137 | a pass with runs in flight has endings to come out of that fixed amount of work |
| `Termination.RunTidyAuto` | crates/mt-core/src/orchestrate.rs:89-158 | in a tree where nothing can get stuck, whose runs end with plans the scan recognises and results it sees, `RunAuto` is done after at most as many endings as there is work: one result each, nothing in flight, and every node still waiting was refused |
| `Termination.UnrecognisedPlanSticks` | crates/mt-core/src/lib.rs:622-640 | an executor that spells the decision of its plan so that only a run understands it leaves its node stuck |
| `Termination.RejectedPlanIsRetriedForever` | crates/mt-core/src/spawn.rs:534-560 | a concrete tree: one node whose composite plan was rejected is attempted any number of times in one pass |
| `Segments.LinesLosslessIff` | crates/mt-core/src/i18n.rs:294-331 | cutting into lines and joining again gives the text back exactly when it is empty or ends with a line break and has no carriage return before one |
| `Segments.SegmentsAreRuns` | crates/mt-core/src/i18n.rs:294-331 | the segments are the maximal runs of lines of one kind, so no translatable segment holds a fence, a fenced line, a heading or a line of a machine section |
| `Segments.LosslessIff` | crates/mt-core/src/i18n.rs:254-332 | concatenating the segments gives the document back exactly when its body is clean or the whole document is left untouched |
| `Segments.TranslatedIs` | crates/mt-core/src/i18n.rs:254-332 | a translator gets exactly the unprotected lines of the body, in order, and nothing of a document whose front matter is of an unknown schema |
| `Segments.KnownSchemaIff` | crates/mt-core/src/i18n.rs:258-268 | only schema version 1 is known; any other leaves the whole document alone |
| `Segments.MarkIs` | crates/mt-core/src/i18n.rs:294-331 | three backticks make a fence, a hash a heading, two hashes and a space a section, and five names a machine section |
| `Segments.FrontMatterIsProtectedIff` | crates/mt-core/src/i18n.rs:254-285 | what the parser takes for front matter is kept from translation exactly when it opens with `---` and a line feed and some later line is a bare `---` ended by a line feed; only then does an unknown schema protect the whole file; otherwise its first line is already translatable |
| `Segments.SplitsAgreeIff` | crates/mt-core/src/frontmatter.rs:57-77 | parser and segmenter end the front matter at the same line exactly when it opens with a line feed and nothing follows the closing dashes |
| `Segments.LooseFenceIsTranslated` | crates/mt-core/src/i18n.rs:276-285 | a concrete document with a space after the closing dashes: the parser sees front matter of no known schema, and all of the file is handed to the translator |
| `Segments.SegmentDocument` | crates/mt-core/src/i18n.rs:254-273 | the document is cut as the specification says, with its three branches |
| `Segments.SplitFront` | crates/mt-core/src/i18n.rs:276-285 | front matter and body together are the document |
| `Segments.SegmentBody` | crates/mt-core/src/i18n.rs:288-332 | one pass with two flags computes the definition of protected lines by counted fences and nearest section |

## Left out

- Ed25519, SHA-256 and the canonical payload bytes: a verify predicate over the change itself, and an injective hash.
- Git internals, fetching of objects, worktrees and commit signing: only the refs and the order of operations are kept; `sync_local_main` only appears as the question whether a published result is seen locally.
- Backoff, jitter, clocks and leases: a takeover is possible at any time, which is more than `lease_expired` allows.
- Errors of `create_run_worktree`, of local commits and of the local check: they end a run before anything is pushed.
- Wrap-around of the 64-bit `generation`, of sequence numbers and of file numbers: unbounded naturals.
- The order in which a hash set of owners is walked in `validate`: the walk follows the file; which of several broken owners is named first is not modelled.
- Errors of pattern compilation: a pattern that does not compile matches nothing, as the matcher parameter may do.
- attach_resume and `commit_turn`: an attach is an acquire with a given generation, a turn is a push of the run ref.
- Reading children from the plan text, `create_task` and the publication of a spawn: the list of children is the input.
- Failed writes of the journal file, device and account ids, timestamps: appends succeed.
- Several rooms on one host, the capability filter and a broken socket: one room, and offered means handed to the filter.
- Concurrent sessions of one journal: a restart replaces the session object.
- Reading inline `[...]` and `{...}` values and numbers other than plain decimal integers, and printing fractions and collections inside lists: parameters of the parser and the printer, of which only the kind of result is assumed.
- expire_clarification: it is a rejecting verdict, which a step of the chain may be at any time.
- Contents of run, fact and audit files beyond their result: kinds and numbers of files.
- Manual signals outside the gate, plan review and its rejections, budgets over time: a setting of the state, one more trigger, or the lemma about ungated audits.
- Composite propagation inside a scheduler pass, new nodes and other hosts during one: each recorded run changes its own node only.
- Composite.SignalsKeepClosed: signals one at a time on one tree; runs that overlap are the subject of `Landing`, where the conclusion is false in general and the exact condition is proved.
- Landing.LeftOpenIff: the set of nodes is fixed, invalidation and the withdrawal of a resolved node are not among the changes, and a merge fails exactly when a run file of the same name is on main already.
- Forest.CanFinishIff: runs that succeed one after the other; the tree, its plans and the dependencies stay as they are, and what the graph looks like while new children are spawned is not part of it.
- Chain.StreakCountsAllFailures: the number of a run and its files come from one directory; `TwoCopies` says when that holds.
- TwoCopies.WrittenFrom: one run into one checkout that no other run changes meanwhile.
- FrontmatterItems.ListOfMappingsReads: fields of an item hold safe scalars; a block inside an item, whose lines lose their indentation, is not part of it.
- MandateRules.WidenedIff: for files of good shape, with every matcher and every decision allowed; whether a given matcher shows the difference is not asked.
- Orchestrate.RunAuto: how the runs end is an input, paths are ranked by numbers instead of compared as strings, and what a run publishes reaches the scanned tree when its result is received or not at all; in the source it can be there a little earlier or later.
- Termination.PassEndsIff: the other reasons to give a node up, a number of rejected plans or a total budget, do not change during a pass; nobody approves, rejects or signals anything by hand meanwhile.
- Plans.ScanImpliesRunner: only the text after the key; the scan also takes an indented `decision:` line and front matter without a closing fence, which the parser used by a run does not.
- Plans.CaseMatters: the whole document around the decision is not part of it; where the two readers differ for another reason, the two flags of a decision may differ too.
- Composite.Graph.Done: check commands, contract immutability and audit policy decide whether the signal happens at all and are not part of the step; neither is the text of the synthetic fact.
- Chain.NodeDir.Run: a refused signal is a failed check, whatever the reason it was refused for.
- Masker.MaskedRedacts: only for lists of maskable secrets; other secrets can have parts of masks replaced.
- Masker.MaskingTwiceIsMaskingOnce: only for lists of maskable secrets; for one secret the exact condition is proved, in a longer list a later value can hide that an earlier one survived.
- Frontmatter.ParseYamlBlock: what an inline collection or a number that is not a plain integer reads as is a parameter.
- Deadlock.AncestorDepDeadlocks: nodes that are spawned or removed meanwhile are not part of it.
- FrontmatterRoundTrip.ParseSerialize: keys are assumed safe, that is trimmed, on one line, without a colon and not comment- or dash-shaped, and `null` inside a list, booleans, safe integers and safe strings are the leaves; empty lists and objects below the top are the subject of `FrontmatterEmpty.EmptyReadsAsNull`.
- glob_match_at, translation freshness and materialisation: one-branch facts or not needed by the segmentation.
- Prompts, command lines, rate limits, retro reports, ledgers, configuration merging, sandboxes, surfaces, discovery and the relay: no property that spans operations.
