/** RequireHold, Reconcile and Release as they run: statement by statement on
    the stored row and the queue file, with other actors' transactions in
    between. Each run is a run of the protocol. */
module HoldService {
  import opened Prelude
  import opened Names
  import opened Policy
  import opened Provenance
  import opened DecisionService
  import opened Registry
  import opened HoldProtocol
  import opened HoldSafety
  import opened Confirmation

  // ----- canonicalPolicyRevisions ------------------------------------------

  ghost predicate Usable(names: Resolver, revisions: map<string, nat>, raw: string) {
    raw in revisions && names.domain(raw).Some? && revisions[raw] > 0
  }

  ghost predicate Clash(names: Resolver, revisions: map<string, nat>, a: string, b: string) {
    a in revisions && b in revisions && names.domain(a) == names.domain(b) && revisions[a] != revisions[b]
  }

  /** Bounded, positive, nameable, and not contradicting each other. */
  ghost predicate RevisionsOk(names: Resolver, revisions: map<string, nat>) {
    && 1 <= |revisions| <= MAX_GOVERNING_DOMAINS
    && (forall raw | raw in revisions :: Usable(names, revisions, raw))
    && (forall a, b | a in revisions && b in revisions :: !Clash(names, revisions, a, b))
  }

  ghost function Named(names: Resolver, keys: set<string>): set<string> {
    set raw | raw in keys && names.domain(raw).Some? :: names.domain(raw).value
  }

  ghost predicate Says(names: Resolver, revisions: map<string, nat>, canonical: map<string, nat>, raw: string) {
    && Usable(names, revisions, raw)
    && names.domain(raw).value in canonical && canonical[names.domain(raw).value] == revisions[raw]
  }

  /** `canonical` says of each domain named by `keys` what the raw keys said. */
  ghost predicate Canonicalizes(names: Resolver, revisions: map<string, nat>, keys: set<string>, canonical: map<string, nat>) {
    canonical.Keys == Named(names, keys) && forall raw | raw in keys :: Says(names, revisions, canonical, raw)
  }

  /** canonicalPolicyRevisions, in whatever order the map is visited. */
  method CanonicalPolicyRevisions(names: Resolver, revisions: map<string, nat>) returns (r: Option<map<string, nat>>)
    ensures r.Some? <==> RevisionsOk(names, revisions)
    ensures r.Some? ==> r.value == CanonicalOf(names, revisions) && r.value != map[]
  {
    if |revisions| == 0 || |revisions| > MAX_GOVERNING_DOMAINS { return None; }
    var canonical: map<string, nat> := map[];
    var rest := revisions.Keys;
    while rest != {}
      invariant rest <= revisions.Keys
      invariant Canonicalizes(names, revisions, revisions.Keys - rest, canonical)
      decreases rest
    {
      var raw :| raw in rest;
      var domain := names.domain(raw);
      if domain.None? || revisions[raw] == 0 {
        assert !Usable(names, revisions, raw);
        return None;
      }
      if domain.value in canonical && canonical[domain.value] != revisions[raw] {
        ghost var other := Clashing(names, revisions, revisions.Keys - rest, canonical, raw);
        return None;
      }
      OneMoreKey(names, revisions, revisions.Keys - rest, canonical, raw);
      assert revisions.Keys - (rest - {raw}) == revisions.Keys - rest + {raw};
      canonical := canonical[domain.value := revisions[raw]];
      rest := rest - {raw};
    }
    assert revisions.Keys - rest == revisions.Keys;
    NoClash(names, revisions, canonical);
    CanonicalUnique(names, revisions, canonical);
    r := Some(canonical);
  }

  lemma Clashing(names: Resolver, revisions: map<string, nat>, done: set<string>, canonical: map<string, nat>, raw: string)
    returns (other: string)
    requires done <= revisions.Keys && raw in revisions && Canonicalizes(names, revisions, done, canonical)
    requires names.domain(raw).Some? && names.domain(raw).value in canonical && canonical[names.domain(raw).value] != revisions[raw]
    ensures other in revisions && Clash(names, revisions, other, raw)
  {
    other :| other in done && names.domain(other) == names.domain(raw);
    assert Says(names, revisions, canonical, other);
  }

  lemma OneMoreKey(names: Resolver, revisions: map<string, nat>, done: set<string>, canonical: map<string, nat>, raw: string)
    requires Usable(names, revisions, raw) && Canonicalizes(names, revisions, done, canonical)
    requires names.domain(raw).value in canonical ==> canonical[names.domain(raw).value] == revisions[raw]
    ensures Canonicalizes(names, revisions, done + {raw}, canonical[names.domain(raw).value := revisions[raw]])
  {}

  lemma NoClash(names: Resolver, revisions: map<string, nat>, canonical: map<string, nat>)
    requires 1 <= |revisions| <= MAX_GOVERNING_DOMAINS && Canonicalizes(names, revisions, revisions.Keys, canonical)
    ensures RevisionsOk(names, revisions) && canonical != map[]
  {}

  ghost function RevisionNamed(names: Resolver, revisions: map<string, nat>, d: string): nat
    requires d in Named(names, revisions.Keys)
  {
    var raw :| raw in revisions && names.domain(raw) == Some(d);
    revisions[raw]
  }

  /** The revision of every named domain. */
  ghost function CanonicalOf(names: Resolver, revisions: map<string, nat>): map<string, nat> {
    map d | d in Named(names, revisions.Keys) :: RevisionNamed(names, revisions, d)
  }

  /** The canonical form is unique, so the visiting order is immaterial. */
  lemma CanonicalUnique(names: Resolver, revisions: map<string, nat>, canonical: map<string, nat>)
    requires Canonicalizes(names, revisions, revisions.Keys, canonical)
    ensures canonical == CanonicalOf(names, revisions)
  {}

  /** Every key is its own canonical name. */
  ghost predicate SelfNamed(names: Resolver, revisions: map<string, nat>) {
    forall d | d in revisions :: names.domain(d) == Some(d)
  }

  lemma SelfNamedIsFixed(names: Resolver, revisions: map<string, nat>)
    requires RevisionsOk(names, revisions) && SelfNamed(names, revisions)
    ensures CanonicalOf(names, revisions) == revisions
  {}

  /** Canonical revisions are their own canonical form. */
  lemma CanonicalIsFixed(names: LawfulResolver, revisions: map<string, nat>, canonical: map<string, nat>)
    requires Canonicalizes(names, revisions, revisions.Keys, canonical)
    ensures Canonicalizes(names, canonical, canonical.Keys, canonical)
  {
    forall d | d in canonical ensures names.domain(d) == Some(d) && Says(names, canonical, canonical, d) {
      var raw :| raw in revisions && names.domain(raw) == Some(d);
      assert Says(names, revisions, canonical, raw);
      assert Canonical(names, d);
    }
  }

  lemma ResolvedRevision(names: Resolver, t: Tables, sources: seq<QueueSource>, d: string)
    requires AllResolve(names, t, sources) && d in Restricted(names, Elements(GoverningList(names, t, sources)))
    ensures var governing := Elements(GoverningList(names, t, sources));
            names.domain(d) == Some(d) && Restricted(names, governing)[d] > 0 && d in Domains(governing)
  {}

  /** The revisions a transport hold names are already canonical. */
  lemma HoldRevisionsCanonical(names: Resolver, r: Record, t: Tables, recipient: string)
    requires AllResolve(names, t, r.sources) && TransportVerdict(names, r, t, recipient).reason == ReasonPolicyHold
    ensures var revisions := TransportVerdict(names, r, t, recipient).revisions;
            RevisionsOk(names, revisions) && SelfNamed(names, revisions)
  {
    var governing := GoverningList(names, t, r.sources);
    var revisions := TransportVerdict(names, r, t, recipient).revisions;
    HoldNames(names, Request(Transport, r.queueId, recipient, governing));
    forall d | d in revisions
      ensures names.domain(d) == Some(d) && d in Domains(Elements(governing)) && Says(names, revisions, revisions, d)
    {
      ResolvedRevision(names, t, r.sources, d);
    }
    DomainCount(governing);
    SubsetCount(revisions.Keys, Domains(Elements(governing)));
    NoClash(names, revisions, revisions);
  }

  lemma HoldNames(names: Resolver, req: Request)
    requires Verdict(names, req).reason == ReasonPolicyHold
    ensures Verdict(names, req).revisions == Restricted(names, Elements(req.governing))
    ensures |Verdict(names, req).revisions| >= 1
  {}

  lemma {:induction false} DomainCount(governing: seq<GoverningDomain>)
    ensures |Domains(Elements(governing))| <= |governing|
  {
    if governing != [] {
      var rest := governing[1..];
      DomainCount(rest);
      assert governing == [governing[0]] + rest;
      ElementsAppend([governing[0]], rest);
      assert Domains(Elements(governing)) == Domains(Elements(rest)) + {governing[0].domain};
    }
  }

  // ----- the services --------------------------------------------------------

  /** What happens around one call: the steps of other actors before each of its
      actions, what each inspection would report beyond the flag, whether the
      helper takes effect and what it reports, and at which action the call
      breaks off with an error or a crash. */
  datatype World = World(
    others: nat -> seq<Step>,
    sees: nat -> Option<Metadata>,
    effect: bool,
    helperOk: bool,
    breaks: nat -> bool)

  /** No error and no crash. */
  ghost predicate Unbroken(w: World) {
    forall k: nat :: !w.breaks(k)
  }

  /** The requirement's step, after which it is in force. */
  ghost predicate Demanded(before: State, after: State, revisions: map<string, nat>) {
    after == RequireStep(before, revisions) && InForce(after.row, revisions)
  }

  predicate IsHold(decision: Decision) {
    decision.action == ActionDefer && decision.reason == ReasonPolicyHold
  }

  /** The stored row with its audit log, the queue file, the policy tables and
      the holder of the advisory lock. */
  class Message {
    const names: Resolver
    const hash: string -> string
    const record: Record
    var row: Row
    var log: seq<Event>
    var file: File
    var tables: Tables
    var owner: Owner

    /** A freshly registered message. */
    constructor (names: Resolver, hash: string -> string, record: Record, file: File, tables: Tables)
      ensures Initial(View()) && Reachable(Here(), View())
      ensures this.names == names && this.hash == hash && this.record == record && this.file == file && this.tables == tables
    {
      this.names, this.hash, this.record := names, hash, record;
      this.file, this.tables := file, tables;
      row, log, owner := INITIAL, [], Free;
      new;
      assert Run(Here(), View(), []) == Some(View());
    }

    ghost function View(): State
      reads this
    {
      State(row, log, file, tables, owner)
    }

    ghost function Here(): Site {
      SiteOf(names, hash, record)
    }

    /** What happened since `from` is the run `trace`, and the lock was not given up in it. */
    ghost predicate Traced(from: State, trace: seq<Step>)
      reads this
    {
      Run(Here(), from, trace) == Some(View()) && Leave !in trace
    }

    /** The run ends by giving up the lock; `result` is what the attempt had come to
        report by then, or an error if it was broken off. */
    ghost predicate Ends(from: State, trace: seq<Step>, result: Report, unbroken: bool)
    {
      && trace != [] && trace[|trace| - 1] == Leave
      && match Run(Here(), from, trace[..|trace| - 1])
         case None => false
         case Some(last) =>
           && (unbroken ==> last.owner.Done?)
           && result == if last.owner.Done? then last.owner.report else Error
    }

    /** What a call of Reconcile or Release amounts to: a run of the protocol from
        `from` that gives the lock back, with a result that is exactly what the
        attempt came to and exactly what it committed. */
    ghost predicate Concluded(job: Job, from: State, trace: seq<Step>, result: Report, unbroken: bool)
      reads this
    {
      && Run(Here(), from, trace) == Some(View()) && owner.Free? && Reachable(Here(), View())
      && Ends(from, trace, result, unbroken)
      && Outcomes(log, |from.log|) == Told(job, result)
    }

    lemma OneStep(from: State, trace: seq<Step>, before: State, step: Step)
      requires Run(Here(), from, trace) == Some(before) && Next(Here(), before, step) == Some(View())
      requires Leave !in trace && step != Leave
      ensures Traced(from, trace + [step])
    {}

    /** RequireHold accepts the decision as it stands. */
    ghost predicate Enforceable(decision: Decision)
      reads this
    {
      && decision.action == ActionDefer && decision.reason == ReasonPolicyHold
      && RevisionsOk(names, decision.revisions) && SelfNamed(names, decision.revisions)
      && ValidPolicyState(row) && ValidLongQueueID(record.queueId)
    }

    /** RequireHold: one row transaction, no advisory lock. */
    method RequireHold(decision: Decision) returns (ok: bool)
      modifies this
      ensures ok <==> && ValidLongQueueID(record.queueId) && decision.action == ActionDefer && decision.reason == ReasonPolicyHold
                      && RevisionsOk(names, decision.revisions) && old(ValidPolicyState(row))
      ensures if ok then Demanded(old(View()), View(), CanonicalOf(names, decision.revisions)) else View() == old(View())
      ensures old(Enforceable(decision)) ==> Demanded(old(View()), View(), decision.revisions)
      ensures old(Reachable(Here(), View())) ==> Reachable(Here(), View())
    {
      if !ValidLongQueueID(record.queueId) || decision.action != ActionDefer || decision.reason != ReasonPolicyHold { return false; }
      var canonical := CanonicalPolicyRevisions(names, decision.revisions);
      if canonical.None? { return false; }
      if SelfNamed(names, decision.revisions) { SelfNamedIsFixed(names, decision.revisions); }
      ghost var was := View();
      ok := RecordRequirement(canonical.value);
      StaysReachable(was, [Require(canonical.value)]);
    }

    lemma StaysReachable(was: State, steps: seq<Step>)
      requires Run(Here(), was, steps) == Some(View())
      ensures Reachable(Here(), was) ==> Reachable(Here(), View())
    {
      if Reachable(Here(), was) { ReachableExtends(Here(), was, steps); }
    }

    /** The transaction of RequireHold. */
    method RecordRequirement(revisions: map<string, nat>) returns (ok: bool)
      requires revisions != map[]
      modifies this
      ensures ok <==> old(ValidPolicyState(row))
      ensures View() == RequireStep(old(View()), revisions)
      ensures ok ==> Demanded(old(View()), View(), revisions)
      ensures !ok ==> View() == old(View())
      ensures owner == old(owner) && old(log) <= log
    {
      if !ValidPolicyState(row) { return false; }
      if row.reason == Some(ReasonPolicyHold) && row.revisions == revisions
         && (row.state == HoldRequired || row.state == Reconciling || row.state == Held || row.state == ReconciliationError)
      {
        return true;
      }
      log := log + [Required(row.state, revisions)];
      row := Row(HoldRequired, Some(ReasonPolicyHold), revisions, row.attempts, None);
      ok := true;
    }

    /** Other actors' transactions; a step that is not theirs or cannot happen now is skipped. */
    method Interfere(others: seq<Step>, ghost from: State, ghost before: seq<Step>) returns (ghost trace: seq<Step>)
      requires Traced(from, before)
      modifies this
      ensures Traced(from, trace) && owner == old(owner)
    {
      trace := before;
      for i := 0 to |others|
        invariant Traced(from, trace) && owner == old(owner)
      {
        ghost var was := View();
        match others[i] {
          case Require(revisions) =>
            if revisions != map[] {
              var _ := RecordRequirement(revisions);
              OneStep(from, trace, was, others[i]);
              trace := trace + [others[i]];
            }
          case ChangePolicy(next) =>
            if !HoldsShare(owner) {
              tables := next;
              OneStep(from, trace, was, others[i]);
              trace := trace + [others[i]];
            }
          case Depart =>
            if file == Queued(false) {
              file := Gone;
              OneStep(from, trace, was, others[i]);
              trace := trace + [others[i]];
            }
          case _ =>
        }
      }
    }

    /** Whether inspected metadata is this message's. */
    method Matches(m: Metadata) returns (b: bool)
      ensures b == Here().matches(m)
    {
      b := MatchesQueueMetadata(names, hash, record, m);
    }

    /** Postfix's report: nothing, or the file with its flag as it is. */
    method InspectFile(report: Option<Metadata>) returns (seen: Option<Metadata>, matched: bool)
      ensures Honest(file, seen)
      ensures matched == (seen.Some? && Here().matches(seen.value))
    {
      if report.None? || file.Gone? { return None, false; }
      seen := Some(report.value.(held := file.held));
      matched := Matches(seen.value);
    }

    /** startQueueReconciliation. */
    method StartQueueReconciliation() returns (ok: bool)
      requires owner.Ready? && owner.job.ReconcileJob?
      modifies this
      ensures Next(Here(), old(View()), Start) == Some(View())
      ensures !owner.Free? && owner.job == old(owner.job) && if ok then owner.Started? else owner.Done?
    {
      var rec := owner.rec;
      if row.state !in {HoldRequired, ReconciliationError, Reconciling, Held} {
        owner := Done(ReconcileJob, Error);
        return false;
      }
      owner := Started(ReconcileJob, rec, |log|);
      log := log + [ReconcileStarted(rec.state, rec.attempts)];
      row := row.(state := Reconciling, attempts := row.attempts + 1, error := None);
      ok := true;
    }

    /** startQueueRelease. */
    method StartQueueRelease() returns (ok: bool)
      requires owner.Ready? && owner.job.ReleaseJob?
      modifies this
      ensures Next(Here(), old(View()), Start) == Some(View())
      ensures !owner.Free? && owner.job == old(owner.job) && if ok then owner.Started? else owner.Done?
    {
      var job, rec := owner.job, owner.rec;
      if row.state !in {Held, ReleaseError, ReleaseReconciling} {
        owner := Done(job, Error);
        return false;
      }
      owner := Started(job, rec, |log|);
      log := log + [ReleaseStarted(rec.state, rec.attempts)];
      row := row.(state := ReleaseReconciling, attempts := row.attempts + 1, error := None);
      ok := true;
    }

    /** finishQueueReconciliation and finishQueueRelease, on success or with the error code. */
    method FinishAttempt()
      requires owner.Verified? || owner.Failing?
      modifies this
      ensures Next(Here(), old(View()), Finish) == Some(View())
    {
      var job := owner.job;
      var code := if owner.Failing? then Some(owner.code) else None;
      if row.state != (if job.ReconcileJob? then Reconciling else ReleaseReconciling) {
        owner := Done(job, Error);
        return;
      }
      if job.ReconcileJob? {
        row := row.(state := if code.None? then Held else ReconciliationError, error := code);
        log := log + [if code.None? then HoldApplied else HoldFailed(code.value)];
      } else {
        row := row.(state := if code.None? then Released else ReleaseError, error := code);
        log := log + [if code.None? then ReleaseDone else ReleaseFailed(code.value)];
      }
      owner := Done(job, if code.None? then Changed else Failed(code.value));
    }

    /** The start transaction after whatever others committed. */
    method Begin(w: World, k: nat, ghost from: State, ghost before: seq<Step>) returns (go: bool, ghost trace: seq<Step>)
      requires Traced(from, before) && owner.Ready?
      modifies this
      ensures Traced(from, trace) && !owner.Free? && owner.job == old(owner.job)
      ensures go ==> owner.Started?
      ensures Unbroken(w) ==> go || owner.Done?
    {
      trace := Interfere(w.others(k), from, before);
      if w.breaks(k) { return false, trace; }
      ghost var was := View();
      if owner.job.ReconcileJob? {
        go := StartQueueReconciliation();
      } else {
        go := StartQueueRelease();
      }
      OneStep(from, trace, was, Start);
      trace := trace + [Start];
    }

    /** The finish transaction after whatever others committed. */
    method Settle(w: World, k: nat, ghost from: State, ghost before: seq<Step>) returns (ghost trace: seq<Step>)
      requires Traced(from, before) && (owner.Verified? || owner.Failing?)
      modifies this
      ensures Traced(from, trace) && !owner.Free? && owner.job == old(owner.job)
      ensures Unbroken(w) ==> owner.Done?
    {
      trace := Interfere(w.others(k), from, before);
      if w.breaks(k) { return; }
      ghost var was := View();
      FinishAttempt();
      OneStep(from, trace, was, Finish);
      trace := trace + [Finish];
    }

    /** Reconcile up to its start: load, and the shortcut for a message that is
        recorded and observed as held. */
    method PrepareReconcile(w: World, ghost from: State, ghost before: seq<Step>) returns (ghost trace: seq<Step>)
      requires Traced(from, before) && owner == Locked(ReconcileJob)
      modifies this
      ensures Traced(from, trace) && !owner.Free? && owner.job == ReconcileJob
      ensures Unbroken(w) ==> owner.Ready? || owner.Done?
    {
      trace := Interfere(w.others(0), from, before);
      if w.breaks(0) { return; }
      ghost var was := View();
      if !ValidPolicyState(row) {
        owner := Done(ReconcileJob, Error);
      } else if row.state == Held {
        owner := Loaded(ReconcileJob, row, |log|);
      } else if row.state in {HoldRequired, ReconciliationError, Reconciling} {
        owner := Ready(ReconcileJob, row, |log|);
      } else {
        owner := Done(ReconcileJob, Error);
      }
      OneStep(from, trace, was, Load);
      trace := trace + [Load];
      if owner.Loaded? {
        trace := InspectLoaded(w, from, trace);
      }
    }

    /** The shortcut for a message recorded as held. */
    method InspectLoaded(w: World, ghost from: State, ghost before: seq<Step>) returns (ghost trace: seq<Step>)
      requires Traced(from, before) && owner.Loaded? && owner.job == ReconcileJob
      modifies this
      ensures Traced(from, trace) && !owner.Free? && owner.job == ReconcileJob
      ensures Unbroken(w) ==> owner.Ready? || owner.Done?
    {
      trace := Interfere(w.others(1), from, before);
      if w.breaks(1) { return; }
      var seen, matched := InspectFile(w.sees(0));
      ghost var was := View();
      if seen.Some? && seen.value.held && matched {
        owner := Done(ReconcileJob, Unchanged);
      } else {
        owner := Ready(ReconcileJob, owner.rec, owner.seen);
      }
      OneStep(from, trace, was, Inspect(seen));
      trace := trace + [Inspect(seen)];
    }

    /** The first inspection of a started reconciliation. */
    method InspectStarted(w: World, ghost from: State, ghost before: seq<Step>) returns (go: bool, ghost trace: seq<Step>)
      requires Traced(from, before) && owner.Started? && owner.job == ReconcileJob
      modifies this
      ensures Traced(from, trace) && !owner.Free? && owner.job == ReconcileJob
      ensures go ==> owner.Verified? || owner.Unheld? || owner.Failing?
      ensures Unbroken(w) ==> go
    {
      trace := Interfere(w.others(3), from, before);
      if w.breaks(3) { return false, trace; }
      var seen, matched := InspectFile(w.sees(1));
      ghost var was := View();
      var rec, at := owner.rec, owner.at;
      if seen.None? {
        owner := Failing(ReconcileJob, rec, at, "queue_inspection_failed");
      } else if !matched {
        owner := Failing(ReconcileJob, rec, at, "queue_metadata_mismatch");
      } else if !seen.value.held {
        owner := Unheld(ReconcileJob, rec, at);
      } else {
        owner := Verified(ReconcileJob, rec, at);
      }
      OneStep(from, trace, was, Inspect(seen));
      trace := trace + [Inspect(seen)];
      go := true;
    }

    /** The hold helper. */
    method CallHolder(w: World, ghost from: State, ghost before: seq<Step>) returns (go: bool, ghost trace: seq<Step>)
      requires Traced(from, before) && owner.Unheld? && owner.job == ReconcileJob
      modifies this
      ensures Traced(from, trace) && !owner.Free? && owner.job == ReconcileJob
      ensures go ==> owner.HelperOk? || owner.Failing?
      ensures Unbroken(w) ==> go
    {
      trace := Interfere(w.others(4), from, before);
      if w.breaks(4) { return false, trace; }
      ghost var was := View();
      var rec, at := owner.rec, owner.at;
      if file.Queued? && w.effect { file := Queued(true); }
      owner := if w.helperOk then HelperOk(ReconcileJob, rec, at) else Failing(ReconcileJob, rec, at, "queue_hold_failed");
      OneStep(from, trace, was, CallHold(w.effect, w.helperOk));
      trace := trace + [CallHold(w.effect, w.helperOk)];
      go := true;
    }

    method JudgeHeld(seen: Option<Metadata>, matched: bool)
      requires owner.HelperOk? && owner.job == ReconcileJob && matched == (seen.Some? && Here().matches(seen.value))
      modifies this`owner
      ensures AfterInspection(Here(), old(owner), seen) == Some(owner) && owner.job == ReconcileJob && (owner.Verified? || owner.Failing?)
    {
      var rec, at := owner.rec, owner.at;
      if seen.None? {
        owner := Failing(ReconcileJob, rec, at, "queue_post_hold_inspection_failed");
      } else if !matched {
        owner := Failing(ReconcileJob, rec, at, "queue_post_hold_metadata_mismatch");
      } else if !seen.value.held {
        owner := Failing(ReconcileJob, rec, at, "queue_hold_not_observed");
      } else {
        owner := Verified(ReconcileJob, rec, at);
      }
    }

    /** The inspection after the hold helper. */
    method InspectHeld(w: World, ghost from: State, ghost before: seq<Step>) returns (go: bool, ghost trace: seq<Step>)
      requires Traced(from, before) && owner.HelperOk? && owner.job == ReconcileJob
      modifies this
      ensures Traced(from, trace) && !owner.Free? && owner.job == ReconcileJob
      ensures go ==> owner.Verified? || owner.Failing?
      ensures Unbroken(w) ==> go
    {
      trace := Interfere(w.others(5), from, before);
      if w.breaks(5) { return false, trace; }
      var seen, matched := InspectFile(w.sees(2));
      ghost var was := View();
      JudgeHeld(seen, matched);
      OneStep(from, trace, was, Inspect(seen));
      trace := trace + [Inspect(seen)];
      go := true;
    }

    /** A prepared reconciliation: start, inspect, hold, inspect, finish. */
    method AttemptReconcile(w: World, ghost from: State, ghost before: seq<Step>) returns (ghost trace: seq<Step>)
      requires Traced(from, before) && owner.Ready? && owner.job == ReconcileJob
      modifies this
      ensures Traced(from, trace) && !owner.Free? && owner.job == ReconcileJob
      ensures Unbroken(w) ==> owner.Done?
    {
      var go;
      go, trace := Begin(w, 2, from, before);
      if !go { return; }
      go, trace := InspectStarted(w, from, trace);
      if go && owner.Unheld? {
        go, trace := CallHolder(w, from, trace);
      }
      if go && owner.HelperOk? {
        go, trace := InspectHeld(w, from, trace);
      }
      if !go { return; }
      trace := Settle(w, 6, from, trace);
    }

    /** Reconcile, from the moment the advisory lock is granted to its release:
        every execution is a run of the protocol, whatever the world does, and its
        result is exactly what it committed. */
    method Reconcile(w: World) returns (result: Report, ghost trace: seq<Step>)
      requires owner.Free? && Reachable(Here(), View())
      modifies this
      ensures Concluded(ReconcileJob, old(View()), trace, result, Unbroken(w))
    {
      ghost var from := View();
      owner := Locked(ReconcileJob);
      ghost var locked := View();
      trace := PrepareReconcile(w, locked, []);
      if owner.Ready? {
        trace := AttemptReconcile(w, locked, trace);
      }
      result, trace := GiveUp(ReconcileJob, from, locked, trace, Unbroken(w));
    }

    /** The deferred unlock, with what is returned to the caller. */
    method GiveUp(job: Job, ghost from: State, ghost locked: State, ghost before: seq<Step>, ghost unbroken: bool)
      returns (result: Report, ghost trace: seq<Step>)
      requires from.owner.Free? && Reachable(Here(), from) && locked == from.(owner := Locked(job))
      requires Traced(locked, before) && !owner.Free? && owner.job == job && (unbroken ==> owner.Done?)
      modifies this
      ensures Concluded(job, from, trace, result, unbroken)
      ensures job.ReleaseJob? && result == Changed ==> ReleasedWithPermission(from, trace)
    {
      ghost var last := View();
      result := if owner.Done? then owner.report else Error;
      owner := Free;
      ReportIsTrue(Here(), locked, job, before);
      trace := [Lock(job)] + before + [Leave];
      Enclosed(job, from, locked, before, last);
      StaysReachable(from, trace);
      if job.ReleaseJob? && result == Changed { ChangeWasPermitted(from, trace); }
    }

    lemma Enclosed(job: Job, from: State, locked: State, before: seq<Step>, last: State)
      requires from.owner.Free? && locked == from.(owner := Locked(job)) && Run(Here(), locked, before) == Some(last)
      requires !last.owner.Free? && View() == last.(owner := Free)
      ensures ([Lock(job)] + before + [Leave])[..|before| + 1] == [Lock(job)] + before
      ensures Run(Here(), from, [Lock(job)] + before) == Some(last)
      ensures Run(Here(), from, [Lock(job)] + before + [Leave]) == Some(View())
    {
      assert [Lock(job)][..0] == [];
      assert Run(Here(), from, [Lock(job)]) == Some(locked);
      RunAppend(Here(), from, [Lock(job)], before);
      AppendStep(Here(), from, [Lock(job)] + before, Leave);
    }

    /** Release up to its start: load, SHARE lock, preview, confirmation, inspection. */
    method PrepareRelease(w: World, ghost from: State, ghost before: seq<Step>) returns (ghost trace: seq<Step>)
      requires Traced(from, before) && owner.Locked? && owner.job.ReleaseJob?
      modifies this
      ensures Traced(from, trace) && !owner.Free? && owner.job == old(owner.job)
      ensures Unbroken(w) ==> owner.Ready? || owner.Done?
    {
      var go;
      go, trace := LoadForRelease(w, from, before);
      if go {
        go, trace := TakeShareLock(w, from, trace);
      }
      if go {
        go, trace := PreviewShared(w, from, trace);
      }
      if go {
        trace := InspectPreviewed(w, from, trace);
      }
    }

    method LoadForRelease(w: World, ghost from: State, ghost before: seq<Step>) returns (go: bool, ghost trace: seq<Step>)
      requires Traced(from, before) && owner.Locked? && owner.job.ReleaseJob?
      modifies this
      ensures Traced(from, trace) && !owner.Free? && owner.job == old(owner.job)
      ensures if go then owner.Loaded? else w.breaks(0) || owner.Done?
    {
      var job := owner.job;
      trace := Interfere(w.others(0), from, before);
      if w.breaks(0) { return false, trace; }
      ghost var was := View();
      owner := if ValidPolicyState(row) then Loaded(job, row, |log|) else Done(job, Error);
      OneStep(from, trace, was, Load);
      trace := trace + [Load];
      go := owner.Loaded?;
    }

    method TakeShareLock(w: World, ghost from: State, ghost before: seq<Step>) returns (go: bool, ghost trace: seq<Step>)
      requires Traced(from, before) && owner.Loaded? && owner.job.ReleaseJob?
      modifies this
      ensures Traced(from, trace) && !owner.Free? && owner.job == old(owner.job)
      ensures if go then owner.Shared? else w.breaks(1)
    {
      trace := Interfere(w.others(1), from, before);
      if w.breaks(1) { return false, trace; }
      ghost var was := View();
      owner := Shared(owner.job, owner.rec, owner.seen);
      OneStep(from, trace, was, ShareLock);
      trace := trace + [ShareLock];
      go := true;
    }

    /** Policy consent and the confirmation, under the SHARE lock. */
    method PreviewShared(w: World, ghost from: State, ghost before: seq<Step>) returns (go: bool, ghost trace: seq<Step>)
      requires Traced(from, before) && owner.Shared? && owner.job.ReleaseJob?
      modifies this
      ensures Traced(from, trace) && !owner.Free? && owner.job == old(owner.job)
      ensures if go then owner.Previewed? else !owner.Ready?
      ensures Unbroken(w) ==> go || owner.Done?
    {
      var job, rec, n := owner.job, owner.rec, owner.seen;
      trace := Interfere(w.others(2), from, before);
      if w.breaks(2) { return false, trace; }
      ghost var was := View();
      var plan := PreviewRecord(names, hash, record, rec.state, tables);
      owner := if plan == Some(job.confirmation) then Previewed(job, rec, n) else Done(job, Error);
      OneStep(from, trace, was, Preview);
      trace := trace + [Preview];
      go := owner.Previewed?;
    }

    /** The inspection of a previewed release. */
    method InspectPreviewed(w: World, ghost from: State, ghost before: seq<Step>) returns (ghost trace: seq<Step>)
      requires Traced(from, before) && owner.Previewed? && owner.job.ReleaseJob?
      modifies this
      ensures Traced(from, trace) && !owner.Free? && owner.job == old(owner.job)
      ensures Unbroken(w) ==> owner.Ready? || owner.Done?
    {
      var job, rec, n := owner.job, owner.rec, owner.seen;
      trace := Interfere(w.others(3), from, before);
      if w.breaks(3) { return; }
      var seen, matched := InspectFile(w.sees(0));
      ghost var was := View();
      if rec.state == Released {
        owner := Done(job, if seen.Some? && !seen.value.held && matched then Unchanged else Error);
      } else if rec.state !in {Held, ReleaseError, ReleaseReconciling} || seen.None? || !seen.value.held || !matched {
        owner := Done(job, Error);
      } else {
        owner := Ready(job, rec, n);
      }
      OneStep(from, trace, was, Inspect(seen));
      trace := trace + [Inspect(seen)];
    }

    /** The release helper. */
    method CallReleaser(w: World, ghost from: State, ghost before: seq<Step>) returns (go: bool, ghost trace: seq<Step>)
      requires Traced(from, before) && owner.Started? && owner.job.ReleaseJob?
      modifies this
      ensures Traced(from, trace) && !owner.Free? && owner.job == old(owner.job)
      ensures go ==> owner.HelperOk? || owner.Failing?
      ensures Unbroken(w) ==> go
    {
      trace := Interfere(w.others(5), from, before);
      if w.breaks(5) { return false, trace; }
      ghost var was := View();
      var job, rec, at := owner.job, owner.rec, owner.at;
      if file.Queued? && w.effect { file := Queued(false); }
      owner := if w.helperOk then HelperOk(job, rec, at) else Failing(job, rec, at, "queue_release_failed");
      OneStep(from, trace, was, CallRelease(w.effect, w.helperOk));
      trace := trace + [CallRelease(w.effect, w.helperOk)];
      go := true;
    }

    method JudgeReleased(seen: Option<Metadata>, matched: bool)
      requires owner.HelperOk? && owner.job.ReleaseJob? && matched == (seen.Some? && Here().matches(seen.value))
      modifies this`owner
      ensures AfterInspection(Here(), old(owner), seen) == Some(owner) && owner.job == old(owner.job) && (owner.Verified? || owner.Failing?)
    {
      var job, rec, at := owner.job, owner.rec, owner.at;
      if seen.None? {
        owner := Failing(job, rec, at, "queue_post_release_inspection_failed");
      } else if seen.value.held || !matched {
        owner := Failing(job, rec, at, "queue_release_not_verified");
      } else {
        owner := Verified(job, rec, at);
      }
    }

    /** The inspection after the release helper. */
    method InspectReleased(w: World, ghost from: State, ghost before: seq<Step>) returns (go: bool, ghost trace: seq<Step>)
      requires Traced(from, before) && owner.HelperOk? && owner.job.ReleaseJob?
      modifies this
      ensures Traced(from, trace) && !owner.Free? && owner.job == old(owner.job)
      ensures go ==> owner.Verified? || owner.Failing?
      ensures Unbroken(w) ==> go
    {
      trace := Interfere(w.others(6), from, before);
      if w.breaks(6) { return false, trace; }
      var seen, matched := InspectFile(w.sees(1));
      ghost var was := View();
      JudgeReleased(seen, matched);
      OneStep(from, trace, was, Inspect(seen));
      trace := trace + [Inspect(seen)];
      go := true;
    }

    /** A prepared release: start, helper, inspect, finish. */
    method AttemptRelease(w: World, ghost from: State, ghost before: seq<Step>) returns (ghost trace: seq<Step>)
      requires Traced(from, before) && owner.Ready? && owner.job.ReleaseJob?
      modifies this
      ensures Traced(from, trace) && !owner.Free? && owner.job == old(owner.job)
      ensures Unbroken(w) ==> owner.Done?
    {
      var go;
      go, trace := Begin(w, 4, from, before);
      if !go { return; }
      go, trace := CallReleaser(w, from, trace);
      if go && owner.HelperOk? {
        go, trace := InspectReleased(w, from, trace);
      }
      if !go { return; }
      trace := Settle(w, 7, from, trace);
    }

    /** Some release call in the run was made while every recorded recipient was
        permitted by the policy tables of that moment. */
    ghost predicate ReleasedWithPermission(from: State, trace: seq<Step>) {
      exists k: nat :: k < |trace| && PermittedCall(from, trace, k)
    }

    ghost predicate PermittedCall(from: State, trace: seq<Step>, k: nat)
      requires k < |trace|
    {
      && trace[k].CallRelease?
      && match Run(Here(), from, trace[..k]) { case None => false case Some(s) => Permitted(names, record, s.tables) }
    }

    /** Release, from the moment the advisory lock is granted to its release: every
        execution is a run of the protocol, whatever the world does, its result is
        exactly what it committed, and a change went through a release call that
        policy permitted at that moment. */
    method Release(w: World, confirmation: string) returns (result: Report, ghost trace: seq<Step>)
      requires owner.Free? && Reachable(Here(), View())
      modifies this
      ensures Concluded(ReleaseJob(confirmation), old(View()), trace, result, Unbroken(w))
      ensures result == Changed ==> ReleasedWithPermission(old(View()), trace)
    {
      ghost var from := View();
      owner := Locked(ReleaseJob(confirmation));
      ghost var locked := View();
      trace := PrepareRelease(w, locked, []);
      if owner.Ready? {
        trace := AttemptRelease(w, locked, trace);
      }
      result, trace := GiveUp(ReleaseJob(confirmation), from, locked, trace, Unbroken(w));
    }

    /** A release that reports a change had permission when it called the helper. */
    lemma ChangeWasPermitted(from: State, trace: seq<Step>)
      requires from.owner.Free? && Reachable(Here(), from) && trace != [] && Run(Here(), from, trace[..|trace| - 1]).Some?
      requires var last := Run(Here(), from, trace[..|trace| - 1]).value.owner;
               last.Done? && last.report == Changed && last.job.ReleaseJob?
      ensures ReleasedWithPermission(from, trace)
    {
      var own := trace[..|trace| - 1];
      ReachableInv(Here(), from);
      ChangeHadConsent(Here(), from, own);
      var k: nat :| k < |own| && ConsentedAt(Here(), from, own, k);
      assert own[..k] == trace[..k];
      assert PermittedCall(from, trace, k);
    }

    /** Any actor's step, if it can happen now: without the lock, everybody else's
        work can fall between two accesses. */
    method Perform(step: Step) returns (ok: bool)
      modifies this
      ensures ok <==> Next(Here(), old(View()), step).Some?
      ensures View() == if ok then Next(Here(), old(View()), step).value else old(View())
    {
      var s := State(row, log, file, tables, owner);
      var next: Option<State>;
      if step.Preview? {
        next := None;
        if owner.Shared? {
          var plan := PreviewRecord(names, hash, record, owner.rec.state, tables);
          var agreed := owner.job.ReleaseJob? && plan == Some(owner.job.confirmation);
          next := Some(s.(owner := if agreed then Previewed(owner.job, owner.rec, owner.seen) else Done(owner.job, Error)));
        }
      } else {
        var site := Site((t: Tables) => None, (m: Metadata) => MatchesQueueMetadata(names, hash, record, m));
        next := HoldProtocol.Next(site, s, step);
        PlanOnlyInPreview(Here(), site, s, step);
      }
      ok := next.Some?;
      if ok { row, log, file, tables, owner := next.value.row, next.value.log, next.value.file, next.value.tables, next.value.owner; }
    }

    /** Whatever other actors do; a step that cannot happen now is skipped. */
    method Overlap(others: seq<Step>, ghost from: State, ghost before: seq<Step>) returns (ghost trace: seq<Step>)
      requires Run(Here(), from, before) == Some(View())
      modifies this
      ensures Run(Here(), from, trace) == Some(View())
      ensures before <= trace && forall x | x in trace[|before|..] :: x in others
    {
      trace := before;
      for i := 0 to |others|
        invariant Run(Here(), from, trace) == Some(View())
        invariant before <= trace && forall x | x in trace[|before|..] :: x in others
      {
        var ok := Perform(others[i]);
        if ok {
          AppendStep(Here(), from, trace, others[i]);
          assert (trace + [others[i]])[|before|..] == trace[|before|..] + [others[i]];
          trace := trace + [others[i]];
        }
      }
    }

    /** What the transport stage answers for one recipient under given tables. */
    ghost function TransportAnswer(t: Tables, recipient: string): Decision {
      var a := NormalizeRecipient(names, recipient);
      if !Loads(names, hash, record) || a.None? || a.value.text !in record.recipients || !AllResolve(names, t, record.sources)
      then UNAVAILABLE
      else TransportVerdict(names, record, t, a.value.text)
    }

    /** A hold that RequireHold will take. */
    ghost predicate Demands(decision: Decision) {
      && decision.action == ActionDefer && decision.reason == ReasonPolicyHold
      && RevisionsOk(names, decision.revisions) && SelfNamed(names, decision.revisions) && ValidLongQueueID(record.queueId)
    }

    lemma DemandsAreEnforceable(decision: Decision)
      requires Demands(decision) && Reachable(Here(), View())
      ensures Enforceable(decision)
    {
      ReachableInv(Here(), View());
      ReplayFacts(log);
    }

    lemma HoldAnswered(t: Tables, recipient: string)
      ensures IsHold(TransportAnswer(t, recipient)) ==> Demands(TransportAnswer(t, recipient))
    {
      if IsHold(TransportAnswer(t, recipient)) {
        HoldRevisionsCanonical(names, record, t, NormalizeRecipient(names, recipient).value.text);
      }
    }

    /** The immutable record and the recipient, as the first access finds them. */
    method KnownRecipient(recipient: string) returns (r: Option<string>)
      requires Increasing(record.recipients)
      ensures r.Some? <==> Known(recipient)
      ensures r.Some? ==> r.value == NormalizeRecipient(names, recipient).value.text
    {
      var loaded := LoadQueueRecord(names, hash, record);
      if !loaded { return None; }
      var normalized := NormalizeRecipient(names, recipient);
      if normalized.None? { return None; }
      IncreasingIsDistinct(record.recipients);
      var known := SortedStringContains(record.recipients, normalized.value.text);
      if !known { return None; }
      r := Some(normalized.value.text);
    }

    ghost predicate Known(recipient: string) {
      Loads(names, hash, record) && NormalizeRecipient(names, recipient).Some?
      && NormalizeRecipient(names, recipient).value.text in record.recipients
    }

    /** The policy read: sources resolved and evaluated against the tables as they are. */
    method JudgeRecipient(recipient: string, text: string) returns (decision: Decision)
      requires Known(recipient) && text == NormalizeRecipient(names, recipient).value.text
      ensures decision == TransportAnswer(tables, recipient)
    {
      var governing := ResolvePolicySources(names, tables, record.sources);
      if governing.None? { return UNAVAILABLE; }
      decision := Evaluate(names, Request(Transport, record.queueId, text, governing.value));
    }

    /** The policy read happened after the first `n` steps of the run, and what was
        decided there is the answer. */
    ghost predicate AnsweredAt(from: State, trace: seq<Step>, n: nat, recipient: string, decision: Decision) {
      && n <= |trace|
      && match Run(Here(), from, trace[..n]) { case None => false case Some(read) => decision == TransportAnswer(read.tables, recipient) }
    }

    lemma AnsweredNow(from: State, trace: seq<Step>, recipient: string, decision: Decision)
      requires Run(Here(), from, trace) == Some(View()) && decision == TransportAnswer(tables, recipient)
      ensures AnsweredAt(from, trace, |trace|, recipient, decision)
    {
      assert trace[..|trace|] == trace;
    }

    static ghost predicate OnlyFrom(trace: seq<Step>, n: nat, others: seq<Step>) {
      n <= |trace| && forall x | x in trace[..n] :: x in others
    }

    /** The answer is the verdict of the tables at the policy read; a hold is answered
        only with its requirement as the last step and its revisions in force; any
        other answer touches nothing. */
    ghost predicate Decided(from: State, trace: seq<Step>, n: nat, recipient: string, decision: Decision)
      reads this
    {
      && Run(Here(), from, trace) == Some(View()) && Reachable(Here(), View())
      && AnsweredAt(from, trace, n, recipient, decision)
      && if IsHold(decision) then n < |trace| && trace[|trace| - 1] == Require(decision.revisions) && InForce(row, decision.revisions)
         else n == |trace|
    }

    lemma StillAnswered(from: State, before: seq<Step>, trace: seq<Step>, recipient: string, decision: Decision, others: seq<Step>)
      requires before <= trace && AnsweredAt(from, before, |before|, recipient, decision) && OnlyFrom(before, |before|, others)
      ensures AnsweredAt(from, trace, |before|, recipient, decision) && OnlyFrom(trace, |before|, others)
    {
      assert trace[..|before|] == before == before[..|before|];
    }

    lemma HoldDecided(from: State, before: seq<Step>, trace: seq<Step>, recipient: string, decision: Decision, others: seq<Step>)
      requires IsHold(decision) && AnsweredAt(from, before, |before|, recipient, decision) && OnlyFrom(before, |before|, others)
      requires Run(Here(), from, trace) == Some(View()) && Reachable(Here(), View())
      requires before < trace && trace[|trace| - 1] == Require(decision.revisions) && InForce(row, decision.revisions)
      ensures Decided(from, trace, |before|, recipient, decision) && OnlyFrom(trace, |before|, others)
    {
      StillAnswered(from, before, trace, recipient, decision, others);
    }

    /** Decide, transport stage, with anything happening between its three accesses. */
    method DecideTransport(recipient: string, others: nat -> seq<Step>) returns (decision: Decision, ghost trace: seq<Step>, ghost n: nat)
      requires Increasing(record.recipients) && Reachable(Here(), View())
      modifies this
      ensures Decided(old(View()), trace, n, recipient, decision) && OnlyFrom(trace, n, others(0))
    {
      ghost var from := View();
      decision, trace := ReadPolicy(recipient, others(0));
      n := |trace|;
      if IsHold(decision) {
        ghost var before := trace;
        trace := Enforce(decision, others(1), from, trace);
        HoldDecided(from, before, trace, recipient, decision, others(0));
      }
    }

    /** The first access and, after whatever others do, the policy read. */
    method ReadPolicy(recipient: string, others: seq<Step>) returns (decision: Decision, ghost trace: seq<Step>)
      requires Increasing(record.recipients) && Reachable(Here(), View())
      modifies this
      ensures Run(Here(), old(View()), trace) == Some(View()) && Reachable(Here(), View())
      ensures AnsweredAt(old(View()), trace, |trace|, recipient, decision) && (IsHold(decision) ==> Demands(decision))
      ensures OnlyFrom(trace, |trace|, others)
    {
      ghost var from := View();
      var known := KnownRecipient(recipient);
      trace := Overlap(others, from, []);
      StaysReachable(from, trace);
      assert trace[0..] == trace == trace[..|trace|];
      decision := UNAVAILABLE;
      if known.Some? { decision := JudgeRecipient(recipient, known.value); }
      AnsweredNow(from, trace, recipient, decision);
      HoldAnswered(tables, recipient);
    }

    /** RequireHold for an answered hold, after whatever others did since the read. */
    method Enforce(decision: Decision, others: seq<Step>, ghost from: State, ghost before: seq<Step>) returns (ghost trace: seq<Step>)
      requires Reachable(Here(), from) && Run(Here(), from, before) == Some(View())
      requires Demands(decision)
      modifies this
      ensures Run(Here(), from, trace) == Some(View()) && Reachable(Here(), View())
      ensures before < trace && trace[|trace| - 1] == Require(decision.revisions) && InForce(row, decision.revisions)
    {
      trace := Overlap(others, from, before);
      StaysReachable(from, trace);
      DemandsAreEnforceable(decision);
      ghost var was := View();
      var _ := RequireHold(decision);
      RequiredStep(was, decision.revisions);
      AppendStep(Here(), from, trace, Require(decision.revisions));
      trace := trace + [Require(decision.revisions)];
    }

    lemma RequiredStep(was: State, revisions: map<string, nat>)
      requires Demanded(was, View(), revisions) && RevisionsOk(names, revisions)
      ensures Next(Here(), was, Require(revisions)) == Some(View()) && InForce(row, revisions)
    {}
  }

  /** Only a preview consults the plan, and only an inspection the match. */
  lemma PlanOnlyInPreview(c: Site, d: Site, s: State, step: Step)
    requires !step.Preview? && (step.Inspect? && step.seen.Some? ==> c.matches(step.seen.value) == d.matches(step.seen.value))
    ensures Next(c, s, step) == Next(d, s, step)
  {}
}
