/** What every run of the hold protocol guarantees. */
module HoldSafety {
  import opened Prelude
  import opened Policy
  import opened Registry
  import opened HoldProtocol

  /** In every interleaving a record in `held` has its message on hold in Postfix
      and a record in `released` has it not on hold. */
  lemma HeldMeansOnHold(c: Site, s: State)
    requires Reachable(c, s)
    ensures s.row.state == Held ==> s.file == ON_HOLD
    ensures s.row.state == Released ==> s.file != ON_HOLD
  {
    ReachableInv(c, s);
  }

  /** In every run the audit log is a legal history, the row is exactly what that
      history leaves, and the row is well formed. */
  lemma RowFollowsLog(c: Site, s: State)
    requires Reachable(c, s)
    ensures Legal(s.log) && s.row == Replay(s.log) && WellFormedRow(s.row)
    ensures s.row.attempts == Starts(s.log)
    ensures s.row.state == StateOf(s.log)
  {
    ReachableInv(c, s);
    ReplayFacts(s.log);
  }

  lemma {:induction false} LegalAt(log: seq<Event>, i: nat)
    requires Legal(log) && i < |log|
    ensures Legal(log[..i]) && Allowed(log[..i], log[i])
  {
    var shorter := log[..|log| - 1];
    if i < |shorter| {
      LegalAt(shorter, i);
      assert shorter[..i] == log[..i];
    }
  }

  /** In every run each outcome directly follows the start of its own attempt, so a
      requirement committed in between leaves the attempt without an outcome;
      release starts and requirements audit the true prior state, and every start
      the true number of attempts. */
  lemma OutcomesFollowStarts(c: Site, s: State, i: nat)
    requires Reachable(c, s) && i < |s.log|
    ensures s.log[i].HoldApplied? || s.log[i].HoldFailed? ==> i > 0 && s.log[i - 1].ReconcileStarted?
    ensures s.log[i].ReleaseDone? || s.log[i].ReleaseFailed? ==> i > 0 && s.log[i - 1].ReleaseStarted?
    ensures s.log[i].ReleaseStarted? ==> i > 0 && s.log[i].before == AfterState(s.log[i - 1]) && Releasable(s.log[i].before)
    ensures s.log[i].ReconcileStarted? ==> i > 0 && Reconcilable(AfterState(s.log[i - 1]))
    ensures s.log[i].ReconcileStarted? ==> s.log[i].before == AfterState(s.log[i - 1]) || s.log[i - 1].Required?
    ensures s.log[i].Required? ==> s.log[i].before == StateOf(s.log[..i])
    ensures IsStart(s.log[i]) ==> s.log[i].attempts == Starts(s.log[..i])
  {
    ReachableInv(c, s);
    LegalAt(s.log, i);
  }

  // ----- reports --------------------------------------------------------------

  predicate IsOutcome(e: Event) {
    e.HoldApplied? || e.HoldFailed? || e.ReleaseDone? || e.ReleaseFailed?
  }

  /** The outcomes committed from position `n` on, in order. */
  function Outcomes(log: seq<Event>, n: nat): seq<Event> {
    if |log| <= n then []
    else Outcomes(log[..|log| - 1], n) + (if IsOutcome(log[|log| - 1]) then [log[|log| - 1]] else [])
  }

  lemma OutcomesExtend(log: seq<Event>, e: Event, n: nat)
    requires n <= |log|
    ensures Outcomes(log + [e], n) == Outcomes(log, n) + (if IsOutcome(e) then [e] else [])
  {
    assert (log + [e])[..|log|] == log;
  }

  /** What an attempt has committed so far is what it will report. */
  predicate ReportsTruly(s: State, n: nat) {
    n <= |s.log| && Outcomes(s.log, n) == if s.owner.Done? then Told(s.owner.job, s.owner.report) else []
  }

  lemma ReportFinish(s: State, n: nat)
    requires ReportsTruly(s, n) && FinishStep(s).Some?
    ensures ReportsTruly(FinishStep(s).value, n) && FinishStep(s).value.owner.Done?
  {
    var report := if s.owner.Verified? then Changed else Failed(s.owner.code);
    OutcomesExtend(s.log, Told(s.owner.job, report)[0], n);
  }

  /** The owner's own steps before its finish commit no outcome. */
  lemma ReportQuiet(c: Site, s: State, step: Step, n: nat)
    requires ReportsTruly(s, n) && !s.owner.Free? && Next(c, s, step).Some?
    requires step.Load? || step.ShareLock? || step.Preview? || step.Inspect? || step.CallHold? || step.CallRelease?
    ensures ReportsTruly(Next(c, s, step).value, n) && !Next(c, s, step).value.owner.Free?
  {
    var t := Next(c, s, step).value;
    assert t.log == s.log && !s.owner.Done?;
    assert t.owner.Done? ==> t.owner.report == Error || t.owner.report == Unchanged;
  }

  lemma ReportRequire(s: State, revisions: map<string, nat>, n: nat)
    requires ReportsTruly(s, n)
    ensures ReportsTruly(RequireStep(s, revisions), n) && RequireStep(s, revisions).owner == s.owner
  {
    OutcomesExtend(s.log, Required(s.row.state, revisions), n);
  }

  lemma ReportStart(s: State, n: nat)
    requires ReportsTruly(s, n) && StartStep(s).Some?
    ensures ReportsTruly(StartStep(s).value, n) && !StartStep(s).value.owner.Free?
  {
    var e := if s.owner.job.ReconcileJob? then ReconcileStarted(s.owner.rec.state, s.owner.rec.attempts)
             else ReleaseStarted(s.owner.rec.state, s.owner.rec.attempts);
    OutcomesExtend(s.log, e, n);
  }

  lemma ReportStep(c: Site, s: State, step: Step, n: nat)
    requires ReportsTruly(s, n) && !s.owner.Free? && step != Leave && Next(c, s, step).Some?
    ensures ReportsTruly(Next(c, s, step).value, n) && !Next(c, s, step).value.owner.Free?
  {
    match step {
      case Require(revisions) => ReportRequire(s, revisions, n);
      case Start => ReportStart(s, n);
      case Finish => ReportFinish(s, n);
      case ChangePolicy(_) =>
      case Depart =>
      case _ => ReportQuiet(c, s, step, n);
    }
  }

  /** From the grant of the lock on, whatever interferes, the report of an attempt
      names exactly the outcome it committed: one of its own, or none. */
  lemma {:induction false} ReportIsTrue(c: Site, s: State, job: Job, steps: seq<Step>)
    requires s.owner == Locked(job) && Leave !in steps && Run(c, s, steps).Some?
    ensures ReportsTruly(Run(c, s, steps).value, |s.log|) && !Run(c, s, steps).value.owner.Free?
  {
    if steps != [] {
      var last := |steps| - 1;
      ReportIsTrue(c, s, job, steps[..last]);
      assert steps[last] in steps;
      ReportStep(c, Run(c, s, steps[..last]).value, steps[last], |s.log|);
    }
  }

  // ----- release ----------------------------------------------------------

  /** At every call of the release helper: the attempt's move to
      release_reconciling is committed, only requirements have been committed
      since, the message is on hold, and the current policy tables still yield
      the confirmed plan. */
  lemma ReleaseHelperIsConfirmed(c: Site, s: State, effect: bool, ok: bool)
    requires Reachable(c, s) && Next(c, s, CallRelease(effect, ok)).Some?
    ensures s.owner.Started? && s.owner.job.ReleaseJob?
    ensures s.owner.at < |s.log| && s.log[s.owner.at].ReleaseStarted? && OnlyRequired(s.log, s.owner.at + 1)
    ensures c.plan(s.tables) == Some(s.owner.job.confirmation)
    ensures s.file == ON_HOLD
  {
    ReachableInv(c, s);
  }

  /** A step after which a held message is no longer held, with policy's consent. */
  predicate ConsentedRelease(c: Site, s: State, step: Step) {
    && step.CallRelease? && s.owner.Started? && s.owner.job.ReleaseJob?
    && c.plan(s.tables) == Some(s.owner.job.confirmation)
    && s.owner.at < |s.log| && s.log[s.owner.at].ReleaseStarted?
  }

  ghost predicate ConsentedWithin(c: Site, s: State, steps: seq<Step>) {
    exists k: nat :: k < |steps| && ConsentedAt(c, s, steps, k)
  }

  ghost predicate ConsentedAt(c: Site, s: State, steps: seq<Step>, k: nat)
    requires k < |steps|
  {
    Run(c, s, steps[..k]).Some? && ConsentedRelease(c, Run(c, s, steps[..k]).value, steps[k])
  }

  lemma LeavingStep(c: Site, s: State, step: Step)
    requires Inv(c, s) && s.file == ON_HOLD && Next(c, s, step).Some? && Next(c, s, step).value.file != ON_HOLD
    ensures ConsentedRelease(c, s, step)
  {}

  /** A message on hold never leaves it in any run except through a release call
      that policy consents to at that very moment. */
  lemma {:induction false} LeavingHoldNeedsConsent(c: Site, s: State, steps: seq<Step>)
    requires Inv(c, s) && s.file == ON_HOLD && Run(c, s, steps).Some? && Run(c, s, steps).value.file != ON_HOLD
    ensures ConsentedWithin(c, s, steps)
  {
    var n := |steps| - 1;
    var shorter := steps[..n];
    var t := Run(c, s, shorter).value;
    RunKeeps(c, s, shorter);
    if t.file == ON_HOLD {
      LeavingStep(c, t, steps[n]);
      assert ConsentedAt(c, s, steps, n);
    } else {
      LeavingHoldNeedsConsent(c, s, shorter);
      var k: nat :| k < |shorter| && ConsentedAt(c, s, shorter, k);
      assert shorter[..k] == steps[..k];
      assert ConsentedAt(c, s, steps, k);
    }
  }

  /** A release past its helper call. */
  predicate PastHelper(owner: Owner) {
    && !owner.Free? && owner.job.ReleaseJob?
    && (owner.HelperOk? || owner.Verified? || owner.Failing? || (owner.Done? && owner.report.Changed?))
  }

  lemma HelperConsents(c: Site, s: State, step: Step)
    requires Inv(c, s) && Next(c, s, step).Some? && PastHelper(Next(c, s, step).value.owner)
    ensures PastHelper(s.owner) || ConsentedRelease(c, s, step)
  {}

  /** A release that reports a change went through a release call that policy
      consented to at that moment. */
  lemma {:induction false} ChangeHadConsent(c: Site, s: State, steps: seq<Step>)
    requires Inv(c, s) && !PastHelper(s.owner) && Run(c, s, steps).Some? && PastHelper(Run(c, s, steps).value.owner)
    ensures ConsentedWithin(c, s, steps)
  {
    var n := |steps| - 1;
    var shorter := steps[..n];
    var t := Run(c, s, shorter).value;
    RunKeeps(c, s, shorter);
    HelperConsents(c, t, steps[n]);
    if PastHelper(t.owner) {
      ChangeHadConsent(c, s, shorter);
      var k: nat :| k < |shorter| && ConsentedAt(c, s, shorter, k);
      assert shorter[..k] == steps[..k];
      assert ConsentedAt(c, s, steps, k);
    } else {
      assert ConsentedAt(c, s, steps, n);
    }
  }

  // ----- a requirement during an attempt ----------------------------------

  predicate BeforeStart(owner: Owner) {
    owner.Locked? || owner.Loaded? || owner.Shared? || owner.Previewed? || owner.Ready? || owner.Done?
  }

  predicate AfterStart(owner: Owner) {
    owner.Started? || owner.Unheld? || owner.HelperOk? || owner.Verified? || owner.Failing? || owner.Done?
  }

  /** A release overtaken by a requirement committed at position `from`. */
  predicate Overtaken(s: State, from: nat, unstarted: bool) {
    && !s.owner.Free? && s.owner.job.ReleaseJob?
    && s.row.state == HoldRequired && from <= |s.log| && OnlyRequired(s.log, from)
    && (unstarted ==> BeforeStart(s.owner))
  }

  lemma {:induction false} OvertakenStays(c: Site, s: State, rest: seq<Step>, from: nat, unstarted: bool)
    requires Overtaken(s, from, unstarted) && Leave !in rest && Run(c, s, rest).Some?
    ensures Overtaken(Run(c, s, rest).value, from, unstarted)
    ensures unstarted ==> forall k | 0 <= k < |rest| :: !rest[k].CallRelease?
  {
    if rest != [] {
      var last := |rest| - 1;
      OvertakenStays(c, s, rest[..last], from, unstarted);
      var t := Run(c, s, rest[..last]).value;
      assert rest[last] in rest;
      OvertakenStep(c, t, rest[last], from, unstarted);
    }
  }

  lemma OvertakenStep(c: Site, s: State, step: Step, from: nat, unstarted: bool)
    requires Overtaken(s, from, unstarted) && step != Leave && Next(c, s, step).Some?
    ensures Overtaken(Next(c, s, step).value, from, unstarted)
    ensures unstarted ==> !step.CallRelease?
  {}

  /** A requirement that commits while a release is under way, at whatever point:
      until that release gives up the lock it commits nothing, so it never
      records `released`; and one that had not started never calls the helper. */
  lemma RequirementStopsRelease(c: Site, s: State, revisions: map<string, nat>, rest: seq<Step>)
    requires !s.owner.Free? && s.owner.job.ReleaseJob?
    requires RequireStep(s, revisions) != s
    requires Leave !in rest && Run(c, RequireStep(s, revisions), rest).Some?
    ensures var t := Run(c, RequireStep(s, revisions), rest).value;
            OnlyRequired(t.log, |s.log|) && t.row.state == HoldRequired
    ensures BeforeStart(s.owner) ==> forall k | 0 <= k < |rest| :: !rest[k].CallRelease?
  {
    var s1 := RequireStep(s, revisions);
    OvertakenStays(c, s1, rest, |s.log|, BeforeStart(s.owner));
  }

  /** A reconciliation overtaken after its start. */
  predicate OvertakenReconcile(s: State, from: nat) {
    && AfterStart(s.owner) && s.owner.job.ReconcileJob?
    && s.row.state == HoldRequired && from <= |s.log| && OnlyRequired(s.log, from)
  }

  lemma {:induction false} OvertakenReconcileStays(c: Site, s: State, rest: seq<Step>, from: nat)
    requires OvertakenReconcile(s, from) && Leave !in rest && Run(c, s, rest).Some?
    ensures OvertakenReconcile(Run(c, s, rest).value, from)
  {
    if rest != [] {
      var last := |rest| - 1;
      OvertakenReconcileStays(c, s, rest[..last], from);
      assert rest[last] in rest;
      OvertakenReconcileStep(c, Run(c, s, rest[..last]).value, rest[last], from);
    }
  }

  lemma OvertakenReconcileStep(c: Site, s: State, step: Step, from: nat)
    requires OvertakenReconcile(s, from) && step != Leave && Next(c, s, step).Some?
    ensures OvertakenReconcile(Next(c, s, step).value, from)
  {}

  /** `held` directly follows a start, so not the requirement that ends `prefix`. */
  lemma HeldAfterStart(prefix: seq<Event>, log: seq<Event>, i: nat)
    requires Legal(log) && prefix != [] && prefix <= log && prefix[|prefix| - 1].Required? && |prefix| <= i < |log| && log[i].HoldApplied?
    ensures log[i - 1].ReconcileStarted? && i > |prefix|
  {
    LegalAt(log, i);
    assert log[|prefix| - 1] == prefix[|prefix| - 1];
  }

  /** A requirement that commits after a reconciliation's start: until it gives
      up the lock that reconciliation commits nothing more. One that commits
      before the start lets it record `held`, but only after its own start. */
  lemma RequirementStopsReconcile(c: Site, s: State, revisions: map<string, nat>, rest: seq<Step>)
    requires Inv(c, s) && !s.owner.Free? && s.owner.job.ReconcileJob? && revisions != map[]
    requires RequireStep(s, revisions) != s
    requires Leave !in rest && Run(c, RequireStep(s, revisions), rest).Some?
    ensures var t := Run(c, RequireStep(s, revisions), rest).value;
            if BeforeStart(s.owner)
            then forall i | |s.log| < i < |t.log| && t.log[i].HoldApplied? :: t.log[i - 1].ReconcileStarted? && i - 1 > |s.log|
            else OnlyRequired(t.log, |s.log|) && t.row.state == HoldRequired
  {
    var s1 := RequireStep(s, revisions);
    var t := Run(c, s1, rest).value;
    if BeforeStart(s.owner) {
      RequireKeeps(c, s, revisions);
      RunKeeps(c, s1, rest);
      LogGrows(c, s1, rest);
      forall i | |s.log| < i < |t.log| && t.log[i].HoldApplied?
        ensures t.log[i - 1].ReconcileStarted? && i - 1 > |s.log|
      {
        HeldAfterStart(s1.log, t.log, i);
      }
    } else {
      OvertakenReconcileStays(c, s1, rest, |s.log|);
    }
  }

  /** Nothing committed is ever undone. */
  lemma {:induction false} LogGrows(c: Site, s: State, steps: seq<Step>)
    requires Run(c, s, steps).Some?
    ensures s.log <= Run(c, s, steps).value.log
  {
    if steps != [] {
      LogGrows(c, s, steps[..|steps| - 1]);
    }
  }

  // ----- the audited prior state of a reconciliation -----------------------

  /** A reconciliation's start audits the state it loaded, not the one it
      replaces: they agree exactly when no requirement was committed since the
      load, or the row was already loaded as hold_required. The attempt counter
      it audits is always exact. */
  lemma AuditedStateExactly(c: Site, s: State)
    requires Inv(c, s) && s.owner.Ready? && s.owner.job.ReconcileJob? && Reconcilable(s.row.state)
    ensures var e := Next(c, s, Start).value.log[|s.log|];
            && e.ReconcileStarted? && e.attempts == s.row.attempts
            && (e.before == s.row.state <==> |s.log| == s.owner.seen || s.owner.rec.state == HoldRequired)
  {
    SinceLoadFacts(s, s.owner.rec, s.owner.seen);
  }

  lemma AppendStep(c: Site, s: State, steps: seq<Step>, step: Step)
    requires Run(c, s, steps).Some?
    ensures Run(c, s, steps + [step]) == Next(c, Run(c, s, steps).value, step)
  {}

  /** The disagreement happens: a requirement with other revisions commits
      between the load and the start. */
  lemma AuditedStateCanBeStale(c: Site, s: State, revisions: map<string, nat>) returns (steps: seq<Step>)
    requires Inv(c, s) && s.owner.Free? && s.row.state == ReconciliationError
    requires revisions != map[] && revisions != s.row.revisions
    ensures StaleStart(c, s, steps)
  {
    ReplayFacts(s.log);
    var locked := s.(owner := Locked(ReconcileJob));
    Then(c, s, [], s, Lock(ReconcileJob), locked);
    steps := [] + [Lock(ReconcileJob)];
    var ready := s.(owner := Ready(ReconcileJob, s.row, |s.log|));
    Then(c, s, steps, locked, Load, ready);
    steps := steps + [Load];
    Then(c, s, steps, ready, Require(revisions), Commit(ready, Required(s.row.state, revisions)));
    steps := steps + [Require(revisions)];
  }

  /** Such a run from a fresh registration: a requirement, a reconciliation whose
      inspection fails, and a second one overtaken by other revisions. */
  lemma StaleFromRegistration(c: Site, s: State, first: map<string, nat>, second: map<string, nat>) returns (steps: seq<Step>)
    requires Initial(s) && first != map[] && second != map[] && first != second
    ensures StaleStart(c, s, steps)
  {
    var failing := CanFail(c, s, first);
    RunKeeps(c, s, failing);
    var t := Run(c, s, failing).value;
    var rest := AuditedStateCanBeStale(c, t, second);
    RunAppend(c, s, failing, rest);
    steps := failing + rest;
  }

  lemma Then(c: Site, s: State, steps: seq<Step>, t: State, step: Step, u: State)
    requires Run(c, s, steps) == Some(t) && Next(c, t, step) == Some(u)
    ensures Run(c, s, steps + [step]) == Some(u)
  {
    AppendStep(c, s, steps, step);
  }

  /** A required message with a reconciliation just started. */
  function JustStarted(s: State, revisions: map<string, nat>): State {
    var row := Row(HoldRequired, Some(ReasonPolicyHold), revisions, 0, None);
    State(row.(state := Reconciling, attempts := 1), [Required(Pending, revisions)] + [ReconcileStarted(HoldRequired, 0)],
          s.file, s.tables, Started(ReconcileJob, row, 1))
  }

  lemma Approach(c: Site, s: State, revisions: map<string, nat>) returns (steps: seq<Step>)
    requires Initial(s) && revisions != map[]
    ensures Run(c, s, steps) == Some(JustStarted(s, revisions))
  {
    var row := Row(HoldRequired, Some(ReasonPolicyHold), revisions, 0, None);
    var log := [Required(Pending, revisions)];
    assert s.log + log == log;
    var required := s.(row := row, log := log);
    Then(c, s, [], s, Require(revisions), required);
    steps := [] + [Require(revisions)];
    Then(c, s, steps, required, Lock(ReconcileJob), required.(owner := Locked(ReconcileJob)));
    steps := steps + [Lock(ReconcileJob)];
    Then(c, s, steps, required.(owner := Locked(ReconcileJob)), Load, required.(owner := Ready(ReconcileJob, row, 1)));
    steps := steps + [Load];
    Then(c, s, steps, required.(owner := Ready(ReconcileJob, row, 1)), Start, JustStarted(s, revisions));
    steps := steps + [Start];
  }

  /** A requirement, then a reconciliation whose inspection fails. */
  lemma CanFail(c: Site, s: State, revisions: map<string, nat>) returns (steps: seq<Step>)
    requires Initial(s) && revisions != map[]
    ensures Run(c, s, steps).Some?
    ensures var t := Run(c, s, steps).value;
            t.owner.Free? && t.row.state == ReconciliationError && t.row.revisions == revisions
  {
    steps := Approach(c, s, revisions);
    var started := JustStarted(s, revisions);
    var failing := started.(owner := Failing(ReconcileJob, started.owner.rec, 1, "queue_inspection_failed"));
    Then(c, s, steps, started, Inspect(None), failing);
    steps := CloseUp(c, s, steps + [Inspect(None)], failing);
  }

  /** Finishing an attempt and giving up the lock. */
  lemma CloseUp(c: Site, s: State, steps: seq<Step>, t: State) returns (closed: seq<Step>)
    requires Run(c, s, steps) == Some(t) && FinishStep(t).Some?
    ensures closed == steps + [Finish] + [Leave] && Run(c, s, closed) == Some(FinishStep(t).value.(owner := Free))
  {
    Then(c, s, steps, t, Finish, FinishStep(t).value);
    Then(c, s, steps + [Finish], FinishStep(t).value, Leave, FinishStep(t).value.(owner := Free));
    closed := steps + [Finish] + [Leave];
  }

  /** After `steps` a start would audit a state other than the current one. */
  predicate StaleStart(c: Site, s: State, steps: seq<Step>) {
    match Run(c, s, steps)
    case None => false
    case Some(t) =>
      match Next(c, t, Start)
      case None => false
      case Some(u) => |u.log| > |t.log| && u.log[|t.log|].ReconcileStarted? && u.log[|t.log|].before != t.row.state
  }

  // ----- an interrupted release -------------------------------------------

  /** A release that was interrupted with the hold flag already cleared. */
  predicate Interrupted(s: State) {
    && (s.row.state == ReleaseReconciling || s.row.state == ReleaseError) && s.file != ON_HOLD
    && (s.owner.Free? || s.owner.Locked? || s.owner.Done?
        || (s.owner.job.ReleaseJob? && (s.owner.Loaded? || s.owner.Shared? || s.owner.Previewed?)))
  }

  lemma InterruptedStep(c: Site, s: State, step: Step)
    requires Interrupted(s) && !step.Require? && Next(c, s, step).Some?
    ensures var t := Next(c, s, step).value; Interrupted(t) && t.row == s.row && t.log == s.log
  {}

  /** No later release or reconciliation moves it on: without a new requirement
      the row and its log stay as they are for good. */
  lemma {:induction false} InterruptedReleaseStays(c: Site, s: State, steps: seq<Step>)
    requires Interrupted(s) && Run(c, s, steps).Some?
    requires forall k | 0 <= k < |steps| :: !steps[k].Require?
    ensures var t := Run(c, s, steps).value; Interrupted(t) && t.row == s.row && t.log == s.log
  {
    if steps != [] {
      InterruptedReleaseStays(c, s, steps[..|steps| - 1]);
      InterruptedStep(c, Run(c, s, steps[..|steps| - 1]).value, steps[|steps| - 1]);
    }
  }

  /** Metadata of the registered message with the flag as it is. */
  predicate Matching(c: Site, m: Metadata) {
    c.matches(m.(held := true)) && c.matches(m.(held := false))
  }

  /** The steps of a release up to its helper call, if nothing interferes. */
  lemma ReachHelper(c: Site, s: State, m: Metadata, confirmation: string) returns (steps: seq<Step>)
    requires Inv(c, s) && s.owner.Free? && Releasable(s.row.state) && s.file == ON_HOLD
    requires c.plan(s.tables) == Some(confirmation) && Matching(c, m)
    ensures Run(c, s, steps) == Some(AtHelper(s, confirmation))
    ensures forall k | 0 <= k < |steps| :: !steps[k].Require?
  {
    ReplayFacts(s.log);
    var job := ReleaseJob(confirmation);
    steps := [];
    AppendStep(c, s, steps, Lock(job));
    steps := steps + [Lock(job)];
    AppendStep(c, s, steps, Load);
    steps := steps + [Load];
    assert Run(c, s, steps) == Some(s.(owner := Loaded(job, s.row, |s.log|)));
    AppendStep(c, s, steps, ShareLock);
    steps := steps + [ShareLock];
    AppendStep(c, s, steps, Preview);
    steps := steps + [Preview];
    assert Run(c, s, steps) == Some(s.(owner := Previewed(job, s.row, |s.log|)));
    AppendStep(c, s, steps, Inspect(Some(m.(held := true))));
    steps := steps + [Inspect(Some(m.(held := true)))];
    AppendStep(c, s, steps, Start);
    steps := steps + [Start];
  }

  function AtHelper(s: State, confirmation: string): State {
    Commit(s, ReleaseStarted(s.row.state, s.row.attempts)).(owner := Started(ReleaseJob(confirmation), s.row, |s.log|))
  }

  /** While the flag is still set a release can complete from every releasable
      state, so a cleared flag is exactly what strands an interrupted one. */
  lemma ReleaseCanComplete(c: Site, s: State, m: Metadata, confirmation: string) returns (steps: seq<Step>)
    requires Inv(c, s) && s.owner.Free? && Releasable(s.row.state) && s.file == ON_HOLD
    requires c.plan(s.tables) == Some(confirmation) && Matching(c, m)
    ensures Run(c, s, steps).Some? && Run(c, s, steps).value.row.state == Released
    ensures forall k | 0 <= k < |steps| :: !steps[k].Require?
  {
    steps := ReachHelper(c, s, m, confirmation);
    var at := AtHelper(s, confirmation);
    var called := at.(file := Queued(false), owner := HelperOk(at.owner.job, s.row, |s.log|));
    Then(c, s, steps, at, CallRelease(true, true), called);
    steps := steps + [CallRelease(true, true)];
    SeeReleased(c, called, m);
    var verified := called.(owner := Verified(at.owner.job, s.row, |s.log|));
    Then(c, s, steps, called, Inspect(Some(m.(held := false))), verified);
    steps := CloseUp(c, s, steps + [Inspect(Some(m.(held := false)))], verified);
  }

  lemma SeeReleased(c: Site, t: State, m: Metadata)
    requires Matching(c, m) && t.file == Queued(false) && t.owner.HelperOk? && t.owner.job.ReleaseJob?
    ensures Next(c, t, Inspect(Some(m.(held := false)))) == Some(t.(owner := Verified(t.owner.job, t.owner.rec, t.owner.at)))
  {
    assert c.matches(m.(held := false));
  }

  /** And a crash right after the helper call strands it. */
  lemma ReleaseCanBeInterrupted(c: Site, s: State, m: Metadata, confirmation: string) returns (steps: seq<Step>)
    requires Inv(c, s) && s.owner.Free? && Releasable(s.row.state) && s.file == ON_HOLD
    requires c.plan(s.tables) == Some(confirmation) && Matching(c, m)
    ensures Run(c, s, steps).Some? && Interrupted(Run(c, s, steps).value)
  {
    steps := ReachHelper(c, s, m, confirmation);
    AppendStep(c, s, steps, CallRelease(true, true));
    steps := steps + [CallRelease(true, true)];
    AppendStep(c, s, steps, Leave);
    steps := steps + [Leave];
  }

  /** A requirement, then a reconciliation that holds the message. */
  lemma CanBeHeld(c: Site, s: State, m: Metadata, revisions: map<string, nat>) returns (steps: seq<Step>)
    requires Initial(s) && s.file == Queued(false) && Matching(c, m) && revisions != map[]
    ensures Run(c, s, steps).Some?
    ensures var t := Run(c, s, steps).value;
            t.owner.Free? && t.row.state == Held && t.file == ON_HOLD && t.tables == s.tables
  {
    steps := Approach(c, s, revisions);
    var started := JustStarted(s, revisions);
    steps := HoldFromStart(c, s, steps, started, m);
    var verified := started.(file := ON_HOLD, owner := Verified(ReconcileJob, started.owner.rec, 1));
    steps := CloseUp(c, s, steps, verified);
  }

  /** Inspecting, holding and inspecting again. */
  lemma HoldFromStart(c: Site, s: State, before: seq<Step>, t: State, m: Metadata) returns (steps: seq<Step>)
    requires Run(c, s, before) == Some(t) && t.file == Queued(false) && Matching(c, m)
    requires t.owner.Started? && t.owner.job == ReconcileJob
    ensures Run(c, s, steps) == Some(t.(file := ON_HOLD, owner := Verified(ReconcileJob, t.owner.rec, t.owner.at)))
  {
    var rec, at := t.owner.rec, t.owner.at;
    var unheld, called := t.(owner := Unheld(ReconcileJob, rec, at)), t.(file := ON_HOLD, owner := HelperOk(ReconcileJob, rec, at));
    SeeFlag(c, t, m, false);
    Then(c, s, before, t, Inspect(Some(m.(held := false))), unheld);
    steps := before + [Inspect(Some(m.(held := false)))];
    Then(c, s, steps, unheld, CallHold(true, true), called);
    steps := steps + [CallHold(true, true)];
    SeeFlag(c, called, m, true);
    Then(c, s, steps, called, Inspect(Some(m.(held := true))), called.(owner := Verified(ReconcileJob, rec, at)));
    steps := steps + [Inspect(Some(m.(held := true)))];
  }

  /** What a matching inspection makes of a reconciliation that is waiting for one. */
  lemma SeeFlag(c: Site, t: State, m: Metadata, held: bool)
    requires Matching(c, m) && t.file == Queued(held)
    requires (t.owner.Started? && !held) || (t.owner.HelperOk? && held)
    requires t.owner.job == ReconcileJob
    ensures Next(c, t, Inspect(Some(m.(held := held)))) ==
            Some(t.(owner := if held then Verified(ReconcileJob, t.owner.rec, t.owner.at) else Unheld(ReconcileJob, t.owner.rec, t.owner.at)))
  {
    assert c.matches(m.(held := held));
  }

  /** The stranding run from a fresh registration. */
  lemma InterruptedFromRegistration(c: Site, s: State, m: Metadata, revisions: map<string, nat>, confirmation: string)
    returns (steps: seq<Step>)
    requires Initial(s) && s.file == Queued(false) && Matching(c, m) && revisions != map[]
    requires c.plan(s.tables) == Some(confirmation)
    ensures Run(c, s, steps).Some? && Interrupted(Run(c, s, steps).value)
  {
    var holding := CanBeHeld(c, s, m, revisions);
    RunKeeps(c, s, holding);
    var rest := ReleaseCanBeInterrupted(c, Run(c, s, holding).value, m, confirmation);
    RunAppend(c, s, holding, rest);
    steps := holding + rest;
  }
}
