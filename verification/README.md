# Verification of gotth-mail's outbound policy and approval protocols

This project models the parts of gotth-mail that decide whether mail may leave,
hold and release it in Postfix, and carry out approved or administrative
changes, and proves what those parts guarantee over all inputs and all runs.

**Outbound hold and release.** A queued message is registered once with an
immutable identity (`Registry`, `PostfixQueue`, `Admission`). Its record then
moves between eight hold states under three actors: requirements, which take
only the row lock, and reconciliations and releases, which hold an advisory lock
and work in stages around an external helper. `HoldProtocol` is the step machine
over the row, its audit log, the hold flag in Postfix, the policy tables and the
lock owner with its position; `Leave` is a return, an error or a crash at any
point. `HoldSafety` and `Confirmation` state what every run guarantees, and
`HoldService` shows that `RequireHold`, `Reconcile`, `Release` and the transport
stage of `Decide`, statement by statement and with other transactions in between,
are runs of that machine that start and end in reachable states and report what
they committed. `PolicyAdmin` has the scope changes themselves and what their
revision counter means for confirmations.

**Alias expansion and policy.** `Expansion` proves the bounded breadth-first load
and the recursive walk against reachability in the full alias relation (`Paths`);
`AliasChain` is the smallest relation on which the depth bound decides.
`Policy` and `DecisionService` prove the decision loops against the policy stated
over sets.

**Approvals.** `Approval` has one request, the process that prompts for it and any
number of executors with their own clocks; `ApprovalSafety` states what every
interleaving guarantees, `ApprovalSnapshot` what the request hash says about the
queue, and `ApprovalService` that the store and both services are runs of it. The
queue is part of the state and changes at any time. Mutual exclusion of executors is not claimed: there is no fencing.

**Extensions.** `Extensions` has the instance row, its secrets, previews and any
number of operators whose reads and commit are separate steps; `ExtensionService`
has the operations.

**Smaller refinements.** `Credentials` and `CredentialService` relate identity
state to the daemon's projection address by address, `Monitor` relates alert de-duplication to runs
of equal observations, and `AuditFilter` relates the SQL filter to the in-memory
one.

`Prelude`, `Framing`, `Names`, `Provenance` and `Paths` hold what several of these
share. `dafny verify dfyconfig.toml` checks everything.

## What is assumed

- Each SQL transaction is one atomic step; row locks, the advisory lock and the
  SHARE lock exclude what PostgreSQL says they exclude; losing the session that
  holds the advisory lock counts as a crash.
- The SHARE lock of a release is held by a second database session. Its loss between
  the lock and the helper call, which the code would not notice, does not happen.
- Nothing but a confirmed scope change writes a domain's scope or revision, domains
  are neither renamed nor deleted, and a restored backup starts a new history.
- Only the two Postfix helpers change a message's hold flag, each within its call;
  a call may take effect or not whatever it reports.
- SHA-256 (FIPS 180-4) is an arbitrary function; lemmas that need it ask for no
  collision between the transcripts they compare.
- `NormalizeDomain` (IDNA lookup, section 5 of RFC 5891) is an arbitrary partial
  function; where its laws matter (`LawfulResolver`) it is idempotent and its
  results are non-empty and hold neither `@` nor NUL. `<>` is the null reverse-path
  of section 4.5.5 of RFC 5321.
- SQL row order is Go byte order, and the alias tables do not change during one
  breadth-first load.

## Where the code does not do what one would expect

- The address length bound is checked on the received text, so a canonical address
  can be longer than the bound and is then refused when it comes back:
  `Names.RenormalizeCanFail`, with the exact condition in `Names.RenormalizeExactly`,
  `Registry.NormalizeTwice`, `Registry.CreatedExactly` and `PostfixQueue.MetadataExactly`.
- A chain of 64 aliases is within the alias limit but refused by the depth check:
  `AliasChain.ChainRefusedExactly`, with the exact bound in
  `Expansion.LoadExpansionAliases`.
- A reconciliation's start can audit a prior state that is no longer the stored one:
  `HoldSafety.StaleFromRegistration`, with the exact condition in
  `HoldSafety.AuditedStateExactly`.
- A release interrupted after its helper cleared the flag cannot be resumed without
  a new requirement: `HoldSafety.InterruptedReleaseStays`, reached from registration in
  `HoldSafety.InterruptedFromRegistration`.
- The service itself never leaves an app password without its mailbox
  (`Credentials.NoOrphansEver`), but it loads every stored app password whether or not
  its mailbox exists (internal/identity/identity.go:604-623). Such an orphan is all it
  takes for two failures. Creating its mailbox leaves the daemon without the password:
  `Credentials.ReplaceCanLoseSync`, with the exact condition in
  `Credentials.ReplaceSyncsExactly`. Renaming a full mailbox to its address exceeds the
  limit of eight: `Credentials.LimitCanBreak`, with the exact condition in
  `Credentials.LimitExactly`. A rename onto an existing mailbox is refused by the
  database's unique (domain_id, local_part).
- Enabling an enabled extension or disabling a disabled one succeeds without an audit
  event: the answer `Unchanged` of `ExtensionService.ExtensionStore.Operate`.

## Model

| member | source | states |
|---|---|---|
| `Framing.FrameRoundTrip` | internal/outboundpolicy/queue.go:518-545 | the 8-byte length framing decodes back to exactly the list it was written from, so it is injective on all string lists |
| `Framing.DigestInjective` | internal/outboundpolicy/queue.go:518-545 | hash collisions aside, equal digests mean equal value lists |
| `Framing.DigestStrings` | internal/outboundpolicy/queue.go:518-527 | the streamed digest is the hash of the framed list |
| `Names.RenormalizeExactly` | internal/outboundpolicy/queue.go:252-260 | normalizing a normalized address gives it back exactly when it still fits 254 bytes and refuses it otherwise, because the bound is checked before the domain is expanded |
| `Names.RenormalizeCanFail` | internal/outboundpolicy/queue.go:252-260 | an accepted address of 100 bytes, with 31 labels U+00FC that IDNA writes as `xn--tda`, whose normal form of 255 bytes is refused |
| `Names.NormalizedOrigin` | internal/outboundpolicy/queue.go:252-260 | every normalized text of a list comes from one of its raw elements |
| `Policy.Evaluate` | internal/outboundpolicy/policy.go:156-212 | the loop with its two maps and early returns computes the policy stated over the set of governing entries, unavailable inputs included |
| `Policy.TallyGoverning` | internal/outboundpolicy/policy.go:171-193 | the restricted map after the pass is exactly the same-domain-only domains with their revisions, or nothing when any entry is malformed or contradicted |
| `Policy.OrderAndRepetitionDoNotMatter` | internal/outboundpolicy/policy.go:156-212 | the decision depends on the governing list only as a set, within the 64-entry bound |
| `Policy.MoreGoverningNeverPermits` | internal/outboundpolicy/policy.go:156-212 | adding entries to a non-empty list never turns a non-OK decision into OK |
| `Policy.TransportHoldsWhatSubmissionRejects` | internal/outboundpolicy/policy.go:194-212 | with a valid queue ID transport holds exactly what submission rejects, with the same revisions |
| `Policy.PermittedExactly` | internal/outboundpolicy/policy.go:194-212 | OK exactly when every same-domain-only governing domain is the recipient's own |
| `Expansion.LoadExpansionAliases` | internal/outboundpolicy/admission.go:203-282 | the breadth-first load succeeds exactly when the reachable part of the alias relation is well formed and within its bounds (no alias at distance 63), and then agrees with it on every reachable address |
| `Expansion.LoadLayer` | internal/outboundpolicy/admission.go:224-279 | one layer reads every unseen address of the frontier and yields exactly the new targets, or fails on a broken or 65th alias |
| `Expansion.DistanceNeedsAliases` | internal/outboundpolicy/admission.go:203-224 | an address at distance n is preceded by n distinct aliases, which is what makes the depth bound meet the alias bound |
| `Expansion.ExpansionWalk.Walk` | internal/outboundpolicy/admission.go:344-375 | the recursive walk restores the active set, adds exactly the reachable leaves and sources on success, and fails only on a reachable cycle or an exceeded cap |
| `Expansion.ExpansionWalk.WalkTargets` | internal/outboundpolicy/admission.go:369-374 | the loop over one alias's targets collects exactly what they reach |
| `Expansion.TrailTooDeep` | internal/outboundpolicy/admission.go:353-361 | by pigeonhole the depth cap can only be reached on a cyclic graph |
| `Expansion.WalkBoundsHold` | internal/outboundpolicy/admission.go:344-375 | after a successful load the walk fails exactly when a cycle is reachable: neither the depth, the leaf nor the source cap fires otherwise |
| `Expansion.LoadedAnswers` | internal/outboundpolicy/admission.go:172-197 | leaves, sources and cycles of the loaded subgraph are those of the full alias relation |
| `Expansion.ExpandOriginal` | internal/outboundpolicy/admission.go:172-197 | succeeds exactly when the address normalizes, its aliases load and no cycle is reachable; the result is exactly the reachable leaves, sorted and never empty, and exactly the reachable alias sources |
| `Expansion.ResolveExpansionDeliveries` | internal/outboundpolicy/admission.go:136-166 | on canonical deliveries: accepted exactly when every one is derived from the loaded relation; returns exactly the sources they pass through |
| `Expansion.CheckDelivery` | internal/outboundpolicy/admission.go:141-159 | one delivery is accepted exactly when its recipient is a reachable leaf of its original, or the original itself |
| `AliasChain.ChainRefusedExactly` | internal/outboundpolicy/admission.go:203-224 | of the acyclic chains of up to 64 aliases, all within the alias limit, exactly the one of 64 cannot be expanded |
| `Admission.ResolveDeliveries` | internal/outboundpolicy/admission.go:121-166 | the same on raw deliveries, with the normalization of both addresses as a further condition |
| `Admission.ValidateQueueDeliveries` | internal/outboundpolicy/admission.go:87-106 | accepts exactly when the delivered and the inspected recipients are the same set |
| `Admission.Admit` | internal/outboundpolicy/admission.go:39-80 | registers with exactly the claimed authority and the sources of its deliveries when the deliveries are the recipients and all derived, and otherwise refuses and changes nothing |
| `DecisionService.ResolvePolicySources` | internal/outboundpolicy/decision.go:252-313 | all sources resolve to one current governing entry each, in order, or none do |
| `DecisionService.ResolvedIsCoherent` | internal/outboundpolicy/decision.go:252-313 | entries read from one state of the tables never contradict each other |
| `DecisionService.DecideRecipients` | internal/outboundpolicy/decision.go:128-148 | the accumulating loop permits with the restricted domains, refuses the first obstacle with the same ones when that is recorded, and is otherwise unavailable; the reason tells none, one or several restricted domains apart |
| `DecisionService.DecideSMTPRecipient` | internal/outboundpolicy/decision.go:106-149 | OK exactly when authority is established and every reachable leaf lies in every same-domain-only governing domain; rejected exactly when the least obstacle can be read and the rejection is recorded; both carry exactly the restricted domains with their revisions and the reason that fits their number; everything else is deferred |
| `DecisionService.ReadableExactly` | internal/outboundpolicy/decision.go:129-140 | a final recipient can be evaluated exactly when its canonical text fits the address bound |
| `DecisionService.SortedStringContains` | internal/outboundpolicy/decision.go:446-449 | binary search finds the target exactly when it is in the sorted list |
| `Registry.NormalizeRegistration` | internal/outboundpolicy/queue.go:174-231 | the set-collecting, sorting and digesting loops compute the canonical registration |
| `Registry.CollectSources` | internal/outboundpolicy/queue.go:204-220 | collecting by key and sorting yields the sources as an ordered set, or refuses an invalid one |
| `Registry.SourceOrder` | internal/outboundpolicy/queue.go:215-220 | ordering by collection key is ordering by kind and then object ID |
| `Registry.CanonicalListExactly` | internal/outboundpolicy/queue.go:188-200 | canonical recipient lists are equal exactly when the sets are |
| `Registry.SourceValuesInjective` | internal/outboundpolicy/queue.go:532-545 | kind and identifier in independent frames determine the source list |
| `Registry.SameIdentityExactly` | internal/outboundpolicy/queue.go:466-468 | hash collisions aside, the five compared columns agree exactly when arrival, sender, recipient set and source set do |
| `Registry.LoadQueueRecord` | internal/outboundpolicy/queue.go:359-460 | accepts exactly the rows whose texts renormalize to themselves and whose digests recompute |
| `Registry.LoadsExactly` | internal/outboundpolicy/queue.go:359-460 | a normalized registration can be read back exactly when its canonical texts fit the address bound |
| `Registry.NormalizeTwice` | internal/outboundpolicy/queue.go:174-231 | normalization is idempotent exactly on the registrations whose canonical texts fit the bound; any other normal form is refused |
| `Registry.QueueStore.Register` | internal/outboundpolicy/queue.go:97-144 | one transaction: insert unless present, read back, compare; a refusal leaves the table unchanged |
| `Registry.RegisterAllKeeps` | internal/outboundpolicy/queue.go:97-144 | any sequence of registrations keeps every row as it was and every row readable |
| `Registry.FirstRegistrationBinds` | internal/outboundpolicy/queue.go:97-144 | over any sequence the creating registration fixes the row for good; a later one for the same queue ID is a no-op exactly when it describes the same message, in any order or repetition, and is refused otherwise |
| `Registry.CreatedExactly` | internal/outboundpolicy/queue.go:113-139 | a new queue ID gets a row exactly from an acceptable registration with short canonical texts |
| `Registry.MatchesExactly` | internal/outboundpolicy/reconcile.go:318-327 | matchesQueueMetadata decides exactly the registered arrival, sender and recipient set |
| `Registry.MatchIgnoresOrder` | internal/outboundpolicy/reconcile.go:318-327 | reordering or repeating inspected recipients does not change the match |
| `PostfixQueue.CanonicalQueueRecipients` | internal/outboundpolicy/postfix.go:374-392 | set, then sort: the canonical list of the normalized recipients |
| `PostfixQueue.MetadataExactly` | internal/outboundpolicy/postfix.go:340-369 | exactly when an entry can be inspected, and that its fingerprint covers the canonical values although they are normalized twice |
| `PostfixQueue.ArrivalBinds` | internal/outboundpolicy/postfix.go:317-334 | equal fingerprints are the same instance, queue ID, time, size, sender and recipients |
| `PostfixQueue.RegisteredIsRecognised` | internal/outboundpolicy/reconcile.go:318-327 | a message registered from an inspection matches every later inspection that reports the same identity |
| `PostfixQueue.Inspect` | internal/outboundpolicy/postfix.go:226-275 | succeeds exactly when all lines parse, one is about the queue ID and all of those agree |
| `PostfixQueue.Scan` | internal/outboundpolicy/postfix.go:89-117 | the counters and entry lines after the scan are those of the selected entries |
| `PostfixQueue.Snapshot` | internal/outboundpolicy/postfix.go:68-128 | the snapshot is that of the selected entries, or an error exactly when a line is unreadable, the selector is invalid or nothing is selected |
| `PostfixQueue.SnapshotBinds` | internal/outboundpolicy/postfix.go:87-127 | hash collisions aside, digests are equal exactly when the multisets of entries are, whatever the listing order, and then so are all counts |
| `PostfixQueue.ItemsAreWholesome` | internal/outboundpolicy/postfix.go:102-116 | every digested entry is counted in exactly one state |
| `HoldProtocol.NextKeeps` | internal/outboundpolicy/reconcile.go:49-312 | every step of every actor keeps the invariant relating row, audit log, hold flag, policy tables and lock owner |
| `HoldProtocol.ReachableInv` | internal/outboundpolicy/release.go:111-348 | so it holds in every state that any run reaches, crashes included |
| `HoldProtocol.ReplayFacts` | internal/outboundpolicy/queue.go:493-498 | the row left by a legal log is well formed, with the last audited state and one attempt per start |
| `HoldSafety.HeldMeansOnHold` | internal/outboundpolicy/reconcile.go:128-312 | in every run a held record has its message on hold and a released one has it not on hold |
| `HoldSafety.RowFollowsLog` | internal/outboundpolicy/reconcile.go:224-312 | in every run the row is exactly what its audit log leaves: pending exactly without reason and revisions, an error code exactly in the error states, attempts equal to committed starts, state equal to the last audited one |
| `HoldSafety.OutcomesFollowStarts` | internal/outboundpolicy/reconcile.go:263-312 | in every run every outcome directly follows its attempt's own start; release starts and requirements audit the true prior state, starts the true attempt count |
| `HoldSafety.ReportIsTrue` | internal/outboundpolicy/reconcile.go:128-204 | whatever interferes, an attempt reports a change exactly when it committed that change's outcome, a failure exactly when it committed that failure, and commits no other outcome |
| `HoldSafety.ChangeHadConsent` | internal/outboundpolicy/release.go:170-183 | a run that gets past the release helper made the call while policy consented |
| `HoldSafety.ReleaseHelperIsConfirmed` | internal/outboundpolicy/release.go:138-183 | at every release call the start is committed, the message is on hold and the current tables still give the confirmed plan |
| `HoldSafety.LeavingHoldNeedsConsent` | internal/outboundpolicy/release.go:138-183 | over any run a message leaves hold only through a release call that policy consents to at that moment |
| `HoldSafety.RequirementStopsRelease` | internal/outboundpolicy/release.go:273-348 | a requirement committed during a release makes it commit nothing more until it gives up the lock; one that had not started never reaches the helper |
| `HoldSafety.RequirementStopsReconcile` | internal/outboundpolicy/reconcile.go:97-118 | a requirement committed after a reconciliation's start stops it from recording anything; before the start, held is recorded only after the attempt's own start |
| `HoldSafety.AuditedStateExactly` | internal/outboundpolicy/reconcile.go:224-257 | a reconciliation's start audits the true prior state exactly when no requirement was committed since its load, or it loaded hold_required; its attempt count is always true |
| `HoldSafety.AuditedStateCanBeStale` | internal/outboundpolicy/reconcile.go:241-253 | from every state in reconciliation_error a run in which the audited prior state is not the true one |
| `HoldSafety.StaleFromRegistration` | internal/outboundpolicy/reconcile.go:241-253 | such a run from every newly registered message |
| `HoldSafety.InterruptedReleaseStays` | internal/outboundpolicy/release.go:157-169 | after a release interrupted with the flag cleared, no run without a new requirement changes the row |
| `HoldSafety.ReleaseCanComplete` | internal/outboundpolicy/release.go:111-191 | while the flag is set a release can complete from every releasable state |
| `HoldSafety.ReleaseCanBeInterrupted` | internal/outboundpolicy/release.go:170-183 | from every releasable state with the flag set a run that strands a release |
| `HoldSafety.InterruptedFromRegistration` | internal/outboundpolicy/release.go:170-183 | such a run from every newly registered message that policy would release |
| `Confirmation.ReleasePolicySnapshot` | internal/outboundpolicy/release.go:223-256 | the snapshot lines and revisions are those of the set of governing entries, in order of domain, or an error exactly on an empty, invalid or contradictory list |
| `Confirmation.PreviewRecord` | internal/outboundpolicy/release.go:197-218 | a plan exactly when every recorded recipient is OK under the tables, with the hash of the queue identity and the policy snapshot |
| `Confirmation.ConfirmationBinds` | internal/outboundpolicy/release.go:211-256 | hash collisions aside, equal confirmations mean the same arrival and digests and the same set of (domain, scope, revision) |
| `Confirmation.ReleaseOnlyWhenPermitted` | internal/outboundpolicy/release.go:138-183 | every release call in every run happens while each recorded recipient evaluates to OK under the tables of that moment, after the committed start, under the confirmation for that policy |
| `PolicyAdmin.LoadChangePlan` | internal/outboundpolicy/admin.go:238-279 | a plan exactly for a valid request on an enabled domain with valid stored policy, and then that domain's current scope and revision |
| `PolicyAdmin.AdminService.Apply` | internal/outboundpolicy/admin.go:94-149 | succeeds exactly under the confirmation of the current plan; a change sets the scope, counts the revision up by one and is audited; nothing else changes anything |
| `PolicyAdmin.LaterRun` | internal/outboundpolicy/admin.go:117-128 | over any history of the tables a domain keeps its name, its revision only grows, and its scope stays as long as its revision does |
| `PolicyAdmin.ChangedIsNewer` | internal/outboundpolicy/admin.go:117-128 | over any history a domain's revision has grown exactly when its scope was set |
| `PolicyAdmin.StaleStaysStale` | internal/outboundpolicy/release.go:211-256 | a release confirmation that a scope change of a governing domain made stale never becomes valid again, even when the scope is changed back |
| `PolicyAdmin.NoReleaseOnStale` | internal/outboundpolicy/release.go:150-183 | no run of the hold protocol calls the release helper under such a confirmation |
| `PolicyAdmin.AppliesAsPreviewed` | internal/outboundpolicy/admin.go:94-115 | a confirmed scope change is the one that was previewed, with no change of that domain in between |
| `PolicyAdmin.ConfirmationIsSpent` | internal/outboundpolicy/admin.go:94-115 | a confirmation is refused for good after the change it confirmed |
| `HoldService.CanonicalPolicyRevisions` | internal/outboundpolicy/reconcile.go:333-353 | the canonical map whatever the visiting order, or an error exactly on an unusable or contradictory key |
| `HoldService.CanonicalUnique` | internal/outboundpolicy/reconcile.go:333-353 | the canonical form is unique |
| `HoldService.CanonicalIsFixed` | internal/outboundpolicy/reconcile.go:333-353 | canonical revisions are their own canonical form |
| `HoldService.Message.RequireHold` | internal/outboundpolicy/reconcile.go:49-119 | accepted exactly on a policy-hold decision with usable revisions; then the row is the protocol's next one and the requirement is in force |
| `HoldService.Message.StartQueueReconciliation` | internal/outboundpolicy/reconcile.go:224-257 | the protocol's start step, conditional on the stored state |
| `HoldService.Message.StartQueueRelease` | internal/outboundpolicy/release.go:273-301 | the protocol's start step, conditional on the stored state |
| `HoldService.Message.FinishAttempt` | internal/outboundpolicy/release.go:306-348 | the protocol's finish step, with the success or the error code as its report, conditional on the state the start wrote |
| `HoldService.Message.PrepareReconcile` | internal/outboundpolicy/reconcile.go:158-170 | load and shortcut are protocol steps |
| `HoldService.Message.InspectStarted` | internal/outboundpolicy/reconcile.go:174-181 | the first inspection decides as the protocol prescribes |
| `HoldService.Message.CallHolder` | internal/outboundpolicy/reconcile.go:181-184 | the hold helper is a protocol step whatever it does |
| `HoldService.Message.InspectHeld` | internal/outboundpolicy/reconcile.go:185-195 | the second inspection decides as the protocol prescribes |
| `HoldService.Message.Reconcile` | internal/outboundpolicy/reconcile.go:128-204 | every execution, with any interference, outcome and crash point, is a run of the protocol from a reachable state to a reachable state; unless broken off it goes all the way; its result is exactly the outcome that it committed, in both directions |
| `HoldService.Message.PrepareRelease` | internal/outboundpolicy/release.go:138-169 | load, SHARE lock, preview and inspection are protocol steps |
| `HoldService.Message.PreviewShared` | internal/outboundpolicy/release.go:150-156 | consent and confirmation are checked against the locked tables |
| `HoldService.Message.InspectPreviewed` | internal/outboundpolicy/release.go:157-169 | the inspection decides as the protocol prescribes |
| `HoldService.Message.CallReleaser` | internal/outboundpolicy/release.go:173-175 | the release helper is a protocol step whatever it does |
| `HoldService.Message.InspectReleased` | internal/outboundpolicy/release.go:176-182 | the second inspection decides as the protocol prescribes |
| `HoldService.Message.Release` | internal/outboundpolicy/release.go:111-191 | the same for releases; and a result that reports a change means a helper call of that run, made while every recorded recipient was permitted |
| `HoldService.Message.DecideTransport` | internal/outboundpolicy/decision.go:67-97 | with anything in between its three accesses: the answer is the verdict of the tables at the policy read; a hold is answered only with its requirement as the last step and its revisions in force in the row; any other answer touches nothing |
| `Approval.NextKeeps` | internal/notification/approval.go:165-441 | every step of the requester and of any number of executors keeps row and history together and legal |
| `Approval.ReachableInv` | internal/notification/approval.go:165-441 | so does every run |
| `ApprovalSafety.RowCounts` | internal/notification/approval.go:228-362 | in every run attempts equal committed claims, used_at is set exactly in approved, and a request completes at most once, exactly when approved |
| `ApprovalSafety.TerminalStays` | internal/notification/approval.go:387-441 | approved, rejected and expired are absorbing in every continuation |
| `ApprovalSafety.MutationIsAuthorized` | internal/notifyruntime/executor.go:55-121 | in every run a queue mutation follows creation, an accepted prompt, activation and a claim by the same executor, made by the bound party with the bound token in [created, expires) |
| `ApprovalSafety.OneMutationPerClaim` | internal/notifyruntime/executor.go:100-110 | in every run no executor calls the queue more often than it committed a claim |
| `ApprovalSafety.FirstClaimMatchedHash` | internal/notifyruntime/executor.go:87-103 | in every run the first claim is preceded, after the claimant's latest look, by its own check that the queue listing of that moment hashes to the stored hash, which the listing measured at the request hashes to as well |
| `ApprovalSnapshot.QueueApprovalRequestHash` | internal/notifyruntime/approval_service.go:108-130 | the request hash is the prefixed hash of action, resource and the snapshot of the selected entries, or an error exactly when there is no snapshot |
| `ApprovalSnapshot.SameHashSameQueue` | internal/notifyruntime/approval_service.go:108-130 | hash collisions aside, equal request hashes mean the same multiset of queue entries |
| `ApprovalSnapshot.FirstClaimSawTheQueue` | internal/notifyruntime/executor.go:74-103 | in every run, hash collisions aside, the first claimant checked in the attempt that then claimed, and the queue then held the same multiset of entries as when the request was measured |
| `ApprovalSafety.ClaimsAreSpaced` | internal/notification/approval.go:255-317 | consecutive claims are separated by a committed retry or by more than the second claimant's lease |
| `ApprovalService.ApprovalStore.Claim` | internal/notification/approval.go:255-317 | claims exactly when the row read passes every check and the stored row is claimable; expires exactly on a lapsed request; otherwise changes nothing |
| `ApprovalService.ApprovalStore.Complete` | internal/notification/approval.go:319-337 | approves exactly an unused executing row |
| `ApprovalService.ApprovalStore.Retry` | internal/notification/approval.go:339-362 | returns exactly an unused executing row to pending |
| `ApprovalService.ApprovalStore.Expire` | internal/notification/approval.go:422-441 | expires exactly a pending or executing row |
| `ApprovalService.ApprovalStore.ExecuteTelegramApproval` | internal/notifyruntime/executor.go:38-121 | every execution, with any interference and crash point, is a run of the protocol between reachable states in which the executor makes exactly a first part of its six steps and then a crash at most; it reports success exactly when it made all six with a successful mutation and hook; undisturbed it makes all six exactly when the request is live, authorized, unchanged, bound and claimable |
| `ApprovalService.ApprovalStore.Preflight` | internal/notifyruntime/executor.go:74-99 | authorization and the hash check against the queue as it is are protocol steps |
| `ApprovalService.StandsThere` | internal/notifyruntime/executor.go:38-121 | where an executor stands after each of its steps when nobody else moves |
| `ApprovalService.ApprovalStore.RequestTelegramApproval` | internal/notifyruntime/approval_service.go:75-106 | measurement, creation, prompt and then activation exactly on acceptance, else invalidation, as a run of the protocol; succeeds exactly on a readable queue, an unexpired request and an accepted prompt |
| `Extensions.RequiredSecretsConfigured` | internal/extensionsadmin/service.go:847-858 | true exactly when every required secret field names a granted slot with a stored value |
| `Extensions.NextKeeps` | internal/extensionsadmin/service.go:320-739 | every step of every operator keeps the invariant on row, secrets, previews and readings |
| `Extensions.EnabledIsSafe` | internal/extensionsadmin/service.go:574-634 | in every run an enabled extension is routed, tested at its current revision and has every required secret granted and stored |
| `Extensions.OneApplyPerRevision` | internal/extensionsadmin/service.go:320-344 | in every run at most one preview per base revision is applied |
| `Extensions.RollbackUndoesUpdate` | internal/extensionsadmin/service.go:689-739 | an update, then anything but another update or rollback, then a rollback restores the nine version fields |
| `Extensions.RollbackTwice` | internal/extensionsadmin/service.go:689-755 | two rollbacks with no rewrite in between are the identity on the version fields |
| `ExtensionService.ExtensionStore.ApplyConfigure` | internal/extensionsadmin/service.go:353-398 | the protocol's apply for a matching configure preview, else no change |
| `ExtensionService.ExtensionStore.ApplyUpdate` | internal/extensionsadmin/service.go:400-445 | the protocol's apply for an update preview, else no change |
| `ExtensionService.ExtensionStore.ApplyDeleteSecrets` | internal/extensionsadmin/service.go:447-477 | the protocol's apply for a delete-secrets preview, else no change |
| `ExtensionService.ExtensionStore.ApplyUninstall` | internal/extensionsadmin/service.go:479-510 | the protocol's apply for an uninstall preview, else no change |
| `ExtensionService.ExtensionStore.Rollback` | internal/extensionsadmin/service.go:689-739 | the protocol's rollback |
| `ExtensionService.ExtensionStore.Check` | internal/extensionsadmin/service.go:519-587 | the row and the secrets, read in two steps, are judged as the protocol prescribes |
| `ExtensionService.ExtensionStore.Operate` | internal/extensionsadmin/service.go:519-687 | every test, enable or disable is a run of the protocol between reachable states with exactly the steps its answer stands for; it answers unchanged exactly when the row read already is as asked, and done exactly when its transaction added the outcome; undisturbed the answer is determined by row, secrets and runtime |
| `Credentials.DaemonAgrees` | internal/daemon/daemon.go:491-529 | at every address the projection is right about, the daemon accepts a secret exactly when VerifyDovecot does, for supported protocols, non-OIDC secrets and working audit |
| `Credentials.LimitExactly` | internal/identity/identity.go:311-378 | only a rename can break the limit of eight, and exactly when the two addresses together hold more |
| `Credentials.LimitCanBreak` | internal/identity/identity.go:167-190 | it does for a full mailbox renamed to an address that an orphaned app password was loaded for |
| `Credentials.NoOrphansEver` | internal/identity/identity.go:167-190 | no run of mutations leaves an app password without its mailbox |
| `Credentials.PushClosesGaps` | internal/identity/identity.go:422-447 | a mutation makes the projection right about exactly what it pushes and wrong about nothing new |
| `Credentials.GapsNeverGrow` | internal/identity/identity.go:167-410 | over any run the projection is wrong about no address it was not wrong about at the start |
| `Credentials.AlwaysInSync` | internal/identity/identity.go:167-410 | a projection that is right about every address stays in sync over every run |
| `Credentials.BoundExactly` | internal/identity/identity.go:192-203 | bound to an empty daemon it is wrong exactly about the addresses with active app passwords and no mailbox |
| `Credentials.WrongOnlyAboutOrphans` | internal/identity/identity.go:167-410 | from a loaded state and an empty daemon, over any run, the daemon is right about every mailbox and wrong about app passwords at most for an address loaded with some and without its mailbox |
| `Credentials.ReplaceSyncsExactly` | internal/identity/identity.go:205-251 | CreateOrReplaceUser, which does not push app passwords, keeps a synchronized projection so exactly when it was not wrong about the app passwords waiting for that address |
| `Credentials.ReplaceCanLoseSync` | internal/identity/identity.go:205-251 | after an orphaned app password is loaded and its mailbox created the identity service accepts its secret and the daemon rejects it |
| `CredentialService.IdentityService.BindDaemon` | internal/identity/identity.go:192-203 | binding any daemon leaves it wrong exactly about addresses without a mailbox that it was wrong about before |
| `CredentialService.IdentityService.SyncAppPasswords` | internal/identity/identity.go:433-447 | the pushed verifiers list the mailbox's active app passwords, one each |
| `CredentialService.IdentityService.ActiveCount` | internal/identity/identity.go:412-420 | the number of active app passwords |
| `CredentialService.IdentityService.Verify` | internal/identity/identity.go:449-469 | decides VerifyDovecot's condition |
| `CredentialService.IdentityService.CreateOrReplaceUser` | internal/identity/identity.go:205-251 | replaces the mailbox, keeps an omitted verifier, and closes exactly the gap of that mailbox; sync survives exactly when its app passwords were not in a gap, that is, for an address the daemon holds no list for, when the mailbox existed or no active app password was waiting for it |
| `CredentialService.IdentityService.CreateAppPassword` | internal/identity/identity.go:311-378 | adds exactly below the limit for an existing mailbox, and then closes exactly the gap of its list |
| `CredentialService.IdentityService.RevokeAppPassword` | internal/identity/identity.go:379-410 | revokes exactly a password of that mailbox, and then closes exactly the gap of its list |
| `CredentialService.IdentityService.ApplySCIMMailbox` | internal/identity/identity.go:167-190 | an update in place or a rename that moves the app passwords, closing exactly the gaps of the addresses involved |
| `CredentialService.Daemon.DovecotPassdb` | internal/daemon/daemon.go:491-529 | answers as specified over the projection, error and limit cases included |
| `Monitor.AlertsNumberRuns` | internal/notifyruntime/monitor.go:20-72 | for every history an observation returns the alert numbered by its maximal run exactly when that run began alerting and was not acknowledged since |
| `Monitor.AlertRepeats` | internal/notifyruntime/monitor.go:20-83 | within a run an alert repeats until it is acknowledged and then stays away |
| `Monitor.AlertsNeverReappear` | internal/notifyruntime/monitor.go:20-72 | an alert ID never comes back after another run has started |
| `Monitor.EventState.ObserveState` | internal/notifyruntime/monitor.go:20-72 | the stored row moves as specified and the pending alert is returned |
| `Monitor.EventState.AcknowledgeAlert` | internal/notifyruntime/monitor.go:74-83 | clears exactly the pending alert |
| `AuditFilter.FilterAudit` | internal/ops/v3.go:30-66 | the loop keeps exactly the events that meet the filter, in order |
| `AuditFilter.AuditWhere` | internal/ops/v3.go:1343-1384 | for every filter and event the clause with its numbered placeholders and arguments, NULL error codes included, selects exactly what the filter keeps |

## Left out

- HTTP handlers, JSON decoding, user interface, process supervision, sockets, gRPC, SMTP and Telegram clients: plumbing and I/O.
- SQL text, drivers and PostgreSQL's own behaviour: each transaction is one guarded step.
- SHA-256, HMAC, AES-GCM, PBKDF2, IDNA, `net/mail` parsing and random identifiers: abstract functions, parameters or assumed fresh.
- Command execution, paths and output limits of the Postfix boundary: only the parsed listing is modelled; an unparsable line is a value.
- ActivationService.Apply and the counting of affected objects and queues (internal/outboundpolicy/admin.go): impact and state digest are parameters of a plan; the activation loop only calls operations that are modelled. In `HoldProtocol` a policy change is any replacement of the tables while no release holds its SHARE lock.
- The submission stage of `Decide` and `submissionSources`: the resolved authority is a parameter of the decision and of admission.
- Preview and Diagnose of the release service and the read-back of the stored record at the end of Reconcile and Release: they only report.
- Timestamps, actors and correlation identifiers of audit events, and audit failures other than as a transaction that does not commit.
- Cleaning of transport and actor tokens in approval requests and confirmations: both sides are compared as cleaned values.
- The read of the instance after a committed test, enable or disable, which can fail when it was uninstalled meanwhile: the answer is the transaction's.
- Runtime calls of the extension supervisor (start, probe, routing, stop): they can only make an operator give up before its commit; agreement of the running process with the database is not promised by the code.
- Validation of extension metadata and configurations, and the diffs shown in previews: abstract predicates.
- Installation and re-installation under the same instance ID: one installation is modelled from its first row to its uninstall.
- Address trimming and lower-casing in identity and daemon, and the daemon's fallback search for keys that are not normalized: addresses are taken as normalized.
- Tokens other than app passwords, domains known to the daemon, SCIM patching and listing in the identity service.
- The text of the audit query: clauses are comparisons with numbered arguments rather than strings.
- The rest of internal/ops, backup, authz, configuration and release tooling.
