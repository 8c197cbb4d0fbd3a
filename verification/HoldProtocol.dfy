/** The outbound hold protocol of one queued message, as steps of every actor
    that can touch it: hold requirements, reconciliation, release, policy
    changes, deliveries and crashes, in any order.

    Every SQL transaction is one step, and so is every call into Postfix. The
    advisory lock lets at most one reconciliation or release work on the
    message; a requirement takes only the row lock and can commit between any
    two of their steps. Nothing but the two helpers changes the hold flag. */
module HoldProtocol {
  import opened Prelude
  import opened Policy
  import opened Registry
  import opened DecisionService

  datatype HoldState =
    | Pending
    | HoldRequired
    | Reconciling
    | Held
    | ReconciliationError
    | ReleaseReconciling
    | ReleaseError
    | Released

  /** The mutable columns of an outbound_queue_messages row. */
  datatype Row = Row(
    state: HoldState,
    reason: Option<Reason>,
    revisions: map<string, nat>,
    attempts: nat,
    error: Option<string>)

  /** The audited transitions, with what each records. */
  datatype Event =
    | Required(before: HoldState, revisions: map<string, nat>)
    | ReconcileStarted(before: HoldState, attempts: nat)
    | HoldApplied
    | HoldFailed(code: string)
    | ReleaseStarted(before: HoldState, attempts: nat)
    | ReleaseDone
    | ReleaseFailed(code: string)

  const INITIAL := Row(Pending, None, map[], 0, None)

  /** The columns each audited transaction writes. */
  function Apply(row: Row, e: Event): Row {
    match e
    case Required(_, revisions) => Row(HoldRequired, Some(ReasonPolicyHold), revisions, row.attempts, None)
    case ReconcileStarted(_, _) => row.(state := Reconciling, attempts := row.attempts + 1, error := None)
    case HoldApplied => row.(state := Held, error := None)
    case HoldFailed(code) => row.(state := ReconciliationError, error := Some(code))
    case ReleaseStarted(_, _) => row.(state := ReleaseReconciling, attempts := row.attempts + 1, error := None)
    case ReleaseDone => row.(state := Released, error := None)
    case ReleaseFailed(code) => row.(state := ReleaseError, error := Some(code))
  }

  /** The state an event records as its outcome. */
  function AfterState(e: Event): HoldState {
    match e
    case Required(_, _) => HoldRequired
    case ReconcileStarted(_, _) => Reconciling
    case HoldApplied => Held
    case HoldFailed(_) => ReconciliationError
    case ReleaseStarted(_, _) => ReleaseReconciling
    case ReleaseDone => Released
    case ReleaseFailed(_) => ReleaseError
  }

  /** The row a log of transitions leaves behind. */
  function Replay(log: seq<Event>): Row {
    if log == [] then INITIAL else Apply(Replay(log[..|log| - 1]), log[|log| - 1])
  }

  predicate Reconcilable(state: HoldState) {
    state in {HoldRequired, ReconciliationError, Reconciling, Held}
  }

  predicate Releasable(state: HoldState) {
    state in {Held, ReleaseError, ReleaseReconciling}
  }

  /** The queue file in Postfix. */
  datatype File = Gone | Queued(held: bool)

  const ON_HOLD := Queued(true)

  datatype Job = ReconcileJob | ReleaseJob(confirmation: string)

  /** What an attempt that came to its end reports to its caller. */
  datatype Report = Unchanged | Changed | Failed(code: string) | Error

  /** Who holds the message's advisory lock, and how far it is. `rec` is the row
      as loaded, `seen` the number of transitions committed by then, `at` the
      position of the attempt's own start. */
  datatype Owner =
    | Free
    | Locked(job: Job)
    | Loaded(job: Job, rec: Row, seen: nat)
    | Shared(job: Job, rec: Row, seen: nat)
    | Previewed(job: Job, rec: Row, seen: nat)
    | Ready(job: Job, rec: Row, seen: nat)
    | Started(job: Job, rec: Row, at: nat)
    | Unheld(job: Job, rec: Row, at: nat)
    | HelperOk(job: Job, rec: Row, at: nat)
    | Verified(job: Job, rec: Row, at: nat)
    | Failing(job: Job, rec: Row, at: nat, code: string)
    | Done(job: Job, report: Report)

  datatype State = State(row: Row, log: seq<Event>, file: File, tables: Tables, owner: Owner)

  /** What stays fixed for one message: the confirmation hash its release needs
      under given policy tables, if policy permits one, and whether inspected
      metadata is the registered message's. */
  datatype Site = Site(plan: Tables -> Option<string>, matches: Metadata -> bool)

  datatype Step =
    | Require(revisions: map<string, nat>)
    | ChangePolicy(tables: Tables)
    | Depart
    | Lock(job: Job)
    | Load
    | ShareLock
    | Preview
    | Inspect(seen: Option<Metadata>)
    | Start
    | CallHold(effect: bool, ok: bool)
    | CallRelease(effect: bool, ok: bool)
    | Finish
    | Leave

  function Commit(s: State, e: Event): State {
    s.(row := Apply(s.row, e), log := s.log + [e])
  }

  /** validQueuePolicyState. */
  predicate ValidPolicyState(row: Row) {
    if row.state == Pending then row.reason.None? && row.revisions == map[]
    else row.reason.Some? && ValidQueueReason(row.reason.value) && row.revisions != map[]
  }

  predicate ValidQueueReason(reason: Reason) {
    reason == ReasonPolicyHold || reason == ReasonCrossDomainConflict || reason == ReasonUnavailable
  }

  /** The requirement is already in force. */
  predicate InForce(row: Row, revisions: map<string, nat>) {
    row.reason == Some(ReasonPolicyHold) && row.revisions == revisions && Reconcilable(row.state)
  }

  function RequireStep(s: State, revisions: map<string, nat>): State {
    if !ValidPolicyState(s.row) || InForce(s.row, revisions) then s else Commit(s, Required(s.row.state, revisions))
  }

  /** A release keeps the policy tables under a SHARE lock until it leaves. */
  predicate HoldsShare(owner: Owner) {
    !owner.Free? && owner.job.ReleaseJob? && !owner.Locked? && !owner.Loaded?
  }

  function LoadStep(s: State): Option<State> {
    match s.owner
    case Locked(job) =>
      Some(s.(owner :=
        if !ValidPolicyState(s.row) then Done(job, Error)
        else if job.ReleaseJob? || s.row.state == Held then Loaded(job, s.row, |s.log|)
        else if Reconcilable(s.row.state) then Ready(job, s.row, |s.log|)
        else Done(job, Error)))
    case _ => None
  }

  function PreviewStep(c: Site, s: State): Option<State> {
    match s.owner
    case Shared(job, rec, seen) =>
      Some(s.(owner :=
        if job.ReleaseJob? && (Releasable(rec.state) || rec.state == Released) && c.plan(s.tables) == Some(job.confirmation)
        then Previewed(job, rec, seen) else Done(job, Error)))
    case _ => None
  }

  /** An inspection reports the flag as it is; everything else is up to Postfix. */
  predicate Honest(file: File, seen: Option<Metadata>) {
    seen.Some? ==> file.Queued? && seen.value.held == file.held
  }

  /** Where an inspection takes the attempt. */
  function AfterInspection(c: Site, owner: Owner, seen: Option<Metadata>): Option<Owner> {
    var matched := seen.Some? && c.matches(seen.value);
    var held := seen.Some? && seen.value.held;
    match owner
    case Loaded(ReconcileJob, rec, n) => Some(if held && matched then Done(ReconcileJob, Unchanged) else Ready(ReconcileJob, rec, n))
    case Previewed(job, rec, n) =>
      Some(if Releasable(rec.state) && held && matched then Ready(job, rec, n)
           else Done(job, if rec.state == Released && matched && !held then Unchanged else Error))
    case Started(ReconcileJob, rec, at) =>
      Some(if seen.None? then Failing(ReconcileJob, rec, at, "queue_inspection_failed")
           else if !matched then Failing(ReconcileJob, rec, at, "queue_metadata_mismatch")
           else if held then Verified(ReconcileJob, rec, at)
           else Unheld(ReconcileJob, rec, at))
    case HelperOk(ReconcileJob, rec, at) =>
      Some(if seen.None? then Failing(ReconcileJob, rec, at, "queue_post_hold_inspection_failed")
           else if !matched then Failing(ReconcileJob, rec, at, "queue_post_hold_metadata_mismatch")
           else if !held then Failing(ReconcileJob, rec, at, "queue_hold_not_observed")
           else Verified(ReconcileJob, rec, at))
    case HelperOk(ReleaseJob(confirmation), rec, at) =>
      Some(if seen.None? then Failing(owner.job, rec, at, "queue_post_release_inspection_failed")
           else if held || !matched then Failing(owner.job, rec, at, "queue_release_not_verified")
           else Verified(owner.job, rec, at))
    case _ => None
  }

  function StartStep(s: State): Option<State> {
    match s.owner
    case Ready(ReconcileJob, rec, _) =>
      Some(if Reconcilable(s.row.state)
           then Commit(s, ReconcileStarted(rec.state, rec.attempts)).(owner := Started(ReconcileJob, rec, |s.log|))
           else s.(owner := Done(ReconcileJob, Error)))
    case Ready(ReleaseJob(_), rec, _) =>
      Some(if Releasable(s.row.state)
           then Commit(s, ReleaseStarted(rec.state, rec.attempts)).(owner := Started(s.owner.job, rec, |s.log|))
           else s.(owner := Done(s.owner.job, Error)))
    case _ => None
  }

  /** A helper call, which may take effect or not whatever it reports. */
  function Flip(file: File, held: bool, effect: bool): File {
    if file.Queued? && effect then Queued(held) else file
  }

  function HoldStep(s: State, effect: bool, ok: bool): Option<State> {
    match s.owner
    case Unheld(job, rec, at) =>
      Some(s.(file := Flip(s.file, true, effect),
              owner := if ok then HelperOk(job, rec, at) else Failing(job, rec, at, "queue_hold_failed")))
    case _ => None
  }

  function ReleaseStep(s: State, effect: bool, ok: bool): Option<State> {
    match s.owner
    case Started(ReleaseJob(_), rec, at) =>
      Some(s.(file := Flip(s.file, false, effect),
              owner := if ok then HelperOk(s.owner.job, rec, at) else Failing(s.owner.job, rec, at, "queue_release_failed")))
    case _ => None
  }

  function FinishStep(s: State): Option<State> {
    match s.owner
    case Verified(job, _, _) => Some(Conclude(s, job, Changed))
    case Failing(job, _, _, code) => Some(Conclude(s, job, Failed(code)))
    case _ => None
  }

  /** The events that a report stands for: one outcome, or none. */
  function Told(job: Job, report: Report): seq<Event> {
    match report
    case Changed => [if job.ReconcileJob? then HoldApplied else ReleaseDone]
    case Failed(code) => [if job.ReconcileJob? then HoldFailed(code) else ReleaseFailed(code)]
    case _ => []
  }

  /** The finish is conditional on the state the start wrote. */
  function Conclude(s: State, job: Job, report: Report): State
    requires report.Changed? || report.Failed?
  {
    if s.row.state == (if job.ReconcileJob? then Reconciling else ReleaseReconciling)
    then Commit(s, Told(job, report)[0]).(owner := Done(job, report))
    else s.(owner := Done(job, Error))
  }

  /** One step of any actor; None when it cannot happen. `Leave` is every way of
      giving up the lock: a return, an error at any point, or a crash. */
  function Next(c: Site, s: State, step: Step): Option<State> {
    match step
    case Require(revisions) => if revisions == map[] then None else Some(RequireStep(s, revisions))
    case ChangePolicy(tables) => if HoldsShare(s.owner) then None else Some(s.(tables := tables))
    case Depart => if s.file == Queued(false) then Some(s.(file := Gone)) else None
    case Lock(job) => if s.owner.Free? then Some(s.(owner := Locked(job))) else None
    case Load => LoadStep(s)
    case ShareLock =>
      if s.owner.Loaded? && s.owner.job.ReleaseJob? then Some(s.(owner := Shared(s.owner.job, s.owner.rec, s.owner.seen))) else None
    case Preview => PreviewStep(c, s)
    case Inspect(seen) =>
      if !Honest(s.file, seen) then None
      else match AfterInspection(c, s.owner, seen) { case None => None case Some(owner) => Some(s.(owner := owner)) }
    case Start => StartStep(s)
    case CallHold(effect, ok) => HoldStep(s, effect, ok)
    case CallRelease(effect, ok) => ReleaseStep(s, effect, ok)
    case Finish => FinishStep(s)
    case Leave => if s.owner.Free? then None else Some(s.(owner := Free))
  }

  function Run(c: Site, s: State, steps: seq<Step>): Option<State> {
    if steps == [] then Some(s)
    else match Run(c, s, steps[..|steps| - 1])
      case None => None
      case Some(t) => Next(c, t, steps[|steps| - 1])
  }

  /** Runs compose. */
  lemma {:induction false} RunAppend(c: Site, s: State, a: seq<Step>, b: seq<Step>)
    requires Run(c, s, a).Some?
    ensures Run(c, s, a + b) == Run(c, Run(c, s, a).value, b)
  {
    if b == [] {
      assert a + b == a;
    } else {
      assert (a + b)[..|a + b| - 1] == a + b[..|b| - 1];
      RunAppend(c, s, a, b[..|b| - 1]);
    }
  }

  /** A registered message nobody has acted on. */
  predicate Initial(s: State) {
    s.row == INITIAL && s.log == [] && s.owner == Free
  }

  // ----- the audit log --------------------------------------------------

  function StateOf(log: seq<Event>): HoldState {
    if log == [] then Pending else AfterState(log[|log| - 1])
  }

  predicate IsStart(e: Event) {
    e.ReconcileStarted? || e.ReleaseStarted?
  }

  function Starts(log: seq<Event>): nat {
    if log == [] then 0 else Starts(log[..|log| - 1]) + (if IsStart(log[|log| - 1]) then 1 else 0)
  }

  /** Which event may follow a log. */
  predicate Allowed(log: seq<Event>, e: Event) {
    match e
    case Required(before, revisions) => before == StateOf(log) && revisions != map[]
    case ReconcileStarted(before, attempts) =>
      && Reconcilable(StateOf(log)) && attempts == Starts(log)
      && (before == StateOf(log) || (log != [] && log[|log| - 1].Required? && Reconcilable(before)))
    case ReleaseStarted(before, attempts) => Releasable(StateOf(log)) && attempts == Starts(log) && before == StateOf(log)
    case HoldApplied => log != [] && log[|log| - 1].ReconcileStarted?
    case HoldFailed(_) => log != [] && log[|log| - 1].ReconcileStarted?
    case ReleaseDone => log != [] && log[|log| - 1].ReleaseStarted?
    case ReleaseFailed(_) => log != [] && log[|log| - 1].ReleaseStarted?
  }

  predicate Legal(log: seq<Event>) {
    log == [] || (Legal(log[..|log| - 1]) && Allowed(log[..|log| - 1], log[|log| - 1]))
  }

  predicate OnlyRequired(log: seq<Event>, from: nat) {
    forall i | from <= i < |log| :: log[i].Required?
  }

  /** Nothing but requirements was committed since the owner loaded the row. */
  predicate SinceLoad(log: seq<Event>, rec: Row, seen: nat) {
    seen <= |log| && rec == Replay(log[..seen]) && OnlyRequired(log, seen)
  }

  /** Nothing but requirements was committed since the owner's start. */
  predicate SinceStart(log: seq<Event>, job: Job, rec: Row, at: nat) {
    && at < |log| && OnlyRequired(log, at + 1)
    && log[at] == if job.ReconcileJob? then ReconcileStarted(rec.state, rec.attempts) else ReleaseStarted(rec.state, rec.attempts)
  }

  /** The release's preview still holds: nobody could change policy since. */
  predicate Confirmed(c: Site, tables: Tables, job: Job) {
    job.ReleaseJob? ==> c.plan(tables) == Some(job.confirmation)
  }

  predicate OwnerOk(c: Site, s: State) {
    match s.owner
    case Free => true
    case Locked(_) => true
    case Loaded(_, rec, seen) => SinceLoad(s.log, rec, seen) && (s.owner.job.ReconcileJob? ==> rec.state == Held)
    case Shared(job, rec, seen) => job.ReleaseJob? && SinceLoad(s.log, rec, seen)
    case Previewed(job, rec, seen) => job.ReleaseJob? && SinceLoad(s.log, rec, seen) && Confirmed(c, s.tables, job)
    case Ready(job, rec, seen) =>
      SinceLoad(s.log, rec, seen) && Confirmed(c, s.tables, job) &&
      (if job.ReleaseJob? then Releasable(rec.state) && s.file == ON_HOLD else Reconcilable(rec.state))
    case Started(job, rec, at) => SinceStart(s.log, job, rec, at) && Confirmed(c, s.tables, job) && (job.ReleaseJob? ==> s.file == ON_HOLD)
    case Unheld(job, rec, at) => SinceStart(s.log, job, rec, at) && job.ReconcileJob?
    case HelperOk(job, rec, at) => SinceStart(s.log, job, rec, at) && Confirmed(c, s.tables, job)
    case Verified(job, rec, at) =>
      SinceStart(s.log, job, rec, at) && Confirmed(c, s.tables, job) && (if job.ReleaseJob? then s.file != ON_HOLD else s.file == ON_HOLD)
    case Failing(job, rec, at, _) => SinceStart(s.log, job, rec, at) && Confirmed(c, s.tables, job)
    case Done(_, _) => true
  }

  /** A record in `held` has its message held; one in `released` has it not held. */
  predicate FlagOk(s: State) {
    (s.row.state == Held ==> s.file == ON_HOLD) && (s.row.state == Released ==> s.file != ON_HOLD)
  }

  predicate LogOk(s: State) {
    s.row == Replay(s.log) && Legal(s.log)
  }

  predicate Inv(c: Site, s: State) {
    LogOk(s) && FlagOk(s) && OwnerOk(c, s)
  }

  lemma Extend(log: seq<Event>, e: Event)
    ensures Replay(log + [e]) == Apply(Replay(log), e)
    ensures Legal(log + [e]) <==> Legal(log) && Allowed(log, e)
    ensures Starts(log + [e]) == Starts(log) + (if IsStart(e) then 1 else 0)
    ensures StateOf(log + [e]) == AfterState(e)
  {}

  /** The shape of the mutable columns: pending exactly when reason and revisions
      are absent, an error code exactly in the two error states. */
  predicate WellFormedRow(row: Row) {
    && ValidPolicyState(row)
    && (row.state == Pending <==> row.reason.None?) && (row.state == Pending <==> row.revisions == map[])
    && (row.reason.Some? ==> row.reason.value == ReasonPolicyHold)
    && (row.error.Some? <==> row.state == ReconciliationError || row.state == ReleaseError)
  }

  /** What a legal log says about the row it leaves. */
  lemma {:induction false} ReplayFacts(log: seq<Event>)
    requires Legal(log)
    ensures Replay(log).state == StateOf(log) && Replay(log).attempts == Starts(log)
    ensures WellFormedRow(Replay(log))
  {
    if log != [] {
      ReplayFacts(log[..|log| - 1]);
    }
  }

  /** Committing an allowed event keeps row and log together. */
  lemma CommitKeepsLog(s: State, e: Event)
    requires LogOk(s) && Allowed(s.log, e)
    ensures LogOk(Commit(s, e)) && Commit(s, e).row.state == AfterState(e)
  {}

  /** The row since the owner loaded it: unchanged, or hold_required. */
  lemma SinceLoadFacts(s: State, rec: Row, seen: nat)
    requires LogOk(s) && SinceLoad(s.log, rec, seen)
    ensures |s.log| == seen ==> s.row == rec
    ensures |s.log| > seen ==> s.log[|s.log| - 1].Required? && s.row.state == HoldRequired
    ensures s.row.attempts == rec.attempts
  {
    ReplayFacts(s.log);
    if |s.log| == seen {
      assert s.log[..seen] == s.log;
    }
    RequirementsCountNothing(s.log, seen);
  }

  lemma {:induction false} RequirementsCountNothing(log: seq<Event>, from: nat)
    requires from <= |log| && OnlyRequired(log, from)
    ensures Replay(log).attempts == Replay(log[..from]).attempts
  {
    if |log| == from {
      assert log[..from] == log;
    } else {
      var shorter := log[..|log| - 1];
      RequirementsCountNothing(shorter, from);
      assert shorter[..from] == log[..from];
    }
  }

  /** The state since the owner's start: its own, or hold_required. */
  lemma SinceStartFacts(s: State, job: Job, rec: Row, at: nat)
    requires LogOk(s) && SinceStart(s.log, job, rec, at)
    ensures s.row.state == if |s.log| > at + 1 then HoldRequired else if job.ReconcileJob? then Reconciling else ReleaseReconciling
  {}

  lemma RequireKeeps(c: Site, s: State, revisions: map<string, nat>)
    requires Inv(c, s) && revisions != map[]
    ensures Inv(c, RequireStep(s, revisions))
  {
    ReplayFacts(s.log);
    var t := RequireStep(s, revisions);
    if t != s {
      CommitKeepsLog(s, Required(s.row.state, revisions));
      if s.owner.Loaded? || s.owner.Shared? || s.owner.Previewed? || s.owner.Ready? {
        assert t.log[..s.owner.seen] == s.log[..s.owner.seen];
      }
    }
  }

  lemma StartKeeps(c: Site, s: State)
    requires Inv(c, s) && StartStep(s).Some?
    ensures Inv(c, StartStep(s).value)
  {
    ReplayFacts(s.log);
    SinceLoadFacts(s, s.owner.rec, s.owner.seen);
    var e := if s.owner.job.ReconcileJob? then ReconcileStarted(s.owner.rec.state, s.owner.rec.attempts)
             else ReleaseStarted(s.owner.rec.state, s.owner.rec.attempts);
    if StartStep(s).value.owner.Started? {
      assert Allowed(s.log, e);
      CommitKeepsLog(s, e);
    }
  }

  lemma FinishKeeps(c: Site, s: State)
    requires Inv(c, s) && FinishStep(s).Some?
    ensures Inv(c, FinishStep(s).value)
  {
    SinceStartFacts(s, s.owner.job, s.owner.rec, s.owner.at);
    var e := if s.owner.Verified? then (if s.owner.job.ReconcileJob? then HoldApplied else ReleaseDone)
             else if s.owner.job.ReconcileJob? then HoldFailed(s.owner.code) else ReleaseFailed(s.owner.code);
    if FinishStep(s).value.log != s.log {
      assert Allowed(s.log, e);
      CommitKeepsLog(s, e);
    }
  }

  lemma HelperKeeps(c: Site, s: State, effect: bool, ok: bool)
    requires Inv(c, s)
    ensures HoldStep(s, effect, ok).Some? ==> Inv(c, HoldStep(s, effect, ok).value)
    ensures ReleaseStep(s, effect, ok).Some? ==> Inv(c, ReleaseStep(s, effect, ok).value)
  {}

  /** Inspecting moves only the owner, so only its own claim is at stake. */
  lemma InspectOwner(c: Site, s: State, seen: Option<Metadata>)
    requires OwnerOk(c, s) && Honest(s.file, seen) && AfterInspection(c, s.owner, seen).Some?
    ensures OwnerOk(c, s.(owner := AfterInspection(c, s.owner, seen).value))
  {
    match s.owner {
      case Loaded(_, _, _) =>
      case Previewed(_, _, _) =>
      case Started(_, _, _) =>
      case HelperOk(_, _, _) =>
    }
  }

  lemma InspectKeeps(c: Site, s: State, seen: Option<Metadata>)
    requires Inv(c, s) && Honest(s.file, seen) && AfterInspection(c, s.owner, seen).Some?
    ensures Inv(c, s.(owner := AfterInspection(c, s.owner, seen).value))
  {
    InspectOwner(c, s, seen);
  }

  lemma LoadKeeps(c: Site, s: State)
    requires Inv(c, s) && LoadStep(s).Some?
    ensures Inv(c, LoadStep(s).value)
  {
    assert s.log[..|s.log|] == s.log;
  }

  /** Every step of every actor keeps the invariant. */
  lemma NextKeeps(c: Site, s: State, step: Step)
    requires Inv(c, s) && Next(c, s, step).Some?
    ensures Inv(c, Next(c, s, step).value)
  {
    match step {
      case Require(revisions) => RequireKeeps(c, s, revisions);
      case Load => LoadKeeps(c, s);
      case Inspect(seen) => InspectKeeps(c, s, seen);
      case Start => StartKeeps(c, s);
      case CallHold(effect, ok) => HelperKeeps(c, s, effect, ok);
      case CallRelease(effect, ok) => HelperKeeps(c, s, effect, ok);
      case Finish => FinishKeeps(c, s);
      case _ =>
    }
  }

  lemma {:induction false} RunKeeps(c: Site, s: State, steps: seq<Step>)
    requires Inv(c, s) && Run(c, s, steps).Some?
    ensures Inv(c, Run(c, s, steps).value)
  {
    if steps != [] {
      RunKeeps(c, s, steps[..|steps| - 1]);
      NextKeeps(c, Run(c, s, steps[..|steps| - 1]).value, steps[|steps| - 1]);
    }
  }

  /** Reachable by some run from a fresh registration. */
  ghost predicate Reachable(c: Site, s: State) {
    exists s0: State, steps: seq<Step> :: Initial(s0) && Run(c, s0, steps) == Some(s)
  }

  lemma ReachableInv(c: Site, s: State)
    requires Reachable(c, s)
    ensures Inv(c, s)
  {
    var s0: State, steps: seq<Step> :| Initial(s0) && Run(c, s0, steps) == Some(s);
    RunKeeps(c, s0, steps);
  }

  /** A message stays reachable through any run, so through any sequence of calls. */
  lemma ReachableExtends(c: Site, s: State, steps: seq<Step>)
    requires Reachable(c, s) && Run(c, s, steps).Some?
    ensures Reachable(c, Run(c, s, steps).value)
  {
    var s0: State, before: seq<Step> :| Initial(s0) && Run(c, s0, before) == Some(s);
    RunAppend(c, s0, before, steps);
    assert Run(c, s0, before + steps) == Some(Run(c, s, steps).value);
  }
}
