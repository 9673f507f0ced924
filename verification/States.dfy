/** The states a node can be in. */
module States {
  /** As a scan of the tree derives them. */
  datatype TaskState =
    | Unassigned | Pending | Waiting | Blocked | PlanReview | Spawned | Running | Stalled
    | PendingAudit | AwaitingDecision | Resolved | Failed | Unresolvable
}
