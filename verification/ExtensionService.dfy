/** The extension administration service as it runs: previews applied in one
    transaction each, and test, enable and disable with other operators' steps
    between their reads and their commit. Each run is a run of the protocol. */
module ExtensionService {
  import opened Prelude
  import opened Extensions

  /** The operator a step belongs to; none for previews, applies and rollbacks. */
  function Actor(step: Step): Option<nat> {
    match step
    case ReadRow(p, _) => Some(p)
    case ReadSecrets(p) => Some(p)
    case Commit(p) => Some(p)
    case Drop(p) => Some(p)
    case _ => None
  }

  /** Other operators' steps before each action, and whether the runtime calls
      (start, probe, routing, stop) succeed. */
  datatype World = World(others: nat -> seq<Step>, runtimeOk: bool)

  ghost predicate Quiet(w: World) {
    forall k: nat :: w.others(k) == []
  }

  /** One operator's steps in a run, in order. */
  function Own(trace: seq<Step>, p: nat): seq<Step> {
    if trace == [] then []
    else Own(trace[..|trace| - 1], p) + (if Actor(trace[|trace| - 1]) == Some(p) then [trace[|trace| - 1]] else [])
  }

  lemma OwnAppend(trace: seq<Step>, step: Step, p: nat)
    ensures Own(trace + [step], p) == Own(trace, p) + (if Actor(step) == Some(p) then [step] else [])
  {
    assert (trace + [step])[..|trace|] == trace;
  }

  /** What test, enable or disable answers: there is no such extension, it already
      is as asked, it is refused, the runtime failed, the row changed meanwhile, or
      it is done. */
  datatype Answer = Missing | Unchanged | Refused | Broken | Conflict | Done

  /** The operator's own steps under each answer. */
  function StepsOf(answer: Answer, p: nat, kind: Kind): seq<Step> {
    match answer
    case Missing => []
    case Unchanged => [ReadRow(p, kind), ReadSecrets(p)]
    case Refused => [ReadRow(p, kind), ReadSecrets(p)]
    case Broken => [ReadRow(p, kind), ReadSecrets(p), Drop(p)]
    case _ => [ReadRow(p, kind), ReadSecrets(p), Commit(p)]
  }

  /** The row is already as the operation would leave it. */
  predicate Already(kind: Kind, i: Instance) {
    match kind
    case Test => false
    case Enable => i.enabled && i.routed
    case Disable => Quiescent(i)
  }

  /** The answer when nobody else does anything meanwhile. */
  function Alone(kind: Kind, row: Option<Instance>, secrets: set<string>, runtimeOk: bool): Answer {
    if row.None? then Missing
    else if Already(kind, row.value) then Unchanged
    else if !Passes(kind, row.value, secrets) then Refused
    else if runtimeOk then Done else Broken
  }

  class ExtensionStore {
    const rules: Rules
    var row: Option<Instance>
    var secrets: set<string>
    var previews: map<string, PreviewRow>
    var log: seq<Event>
    var operators: map<nat, Operator>

    constructor (rules: Rules, version: Version)
      ensures Installed(View()) && Reachable(rules, View()) && row.value.version == version && this.rules == rules
    {
      this.rules := rules;
      row := Some(Instance(version, None, 1, None, Discovered, false, false));
      secrets, previews, log, operators := {}, map[], [], map[];
      new;
      assert Run(rules, View(), []) == Some(View());
    }

    function View(): State
      reads this
    {
      State(row, secrets, previews, log, operators)
    }

    /** Since `from` the run `trace` happened, in which `p` made exactly the steps `own`. */
    ghost predicate Traced(from: State, trace: seq<Step>, p: nat, own: seq<Step>)
      reads this
    {
      Run(rules, from, trace) == Some(View()) && Own(trace, p) == own
    }

    lemma OneStep(from: State, trace: seq<Step>, before: State, step: Step, p: nat, own: seq<Step>)
      requires Run(rules, from, trace) == Some(before) && Next(rules, before, step) == Some(View())
      requires Own(trace, p) == own
      ensures Traced(from, trace + [step], p, own + if Actor(step) == Some(p) then [step] else [])
    {
      OwnAppend(trace, step, p);
      assert (trace + [step])[..|trace|] == trace;
    }

    /** loadPreview and the guards every apply repeats. */
    method Guard(id: string, authentic: bool) returns (ok: bool)
      ensures ok <==> Applicable(View(), id, authentic)
    {
      if !authentic || id !in previews || previews[id].consumed || row.None? { return false; }
      ok := row.value.revision == previews[id].base && !row.value.enabled && !row.value.routed;
    }

    /** Marks the preview used and writes the audit event. */
    method ConsumeAndAudit(id: string)
      requires id in previews
      modifies this`previews, this`log
      ensures previews == old(previews)[id := old(previews)[id].(consumed := true)]
      ensures log == old(log) + [Applied(id, old(previews)[id].operation, old(previews)[id].base)]
    {
      log := log + [Applied(id, previews[id].operation, previews[id].base)];
      previews := previews[id := previews[id].(consumed := true)];
    }

    /** ApplyConfigure: the confirmed configuration and secrets, one upsert per secret. */
    method ApplyConfigure(id: string, authentic: bool, configuration: map<string, string>, given: set<string>) returns (ok: bool)
      modifies this
      ensures View() ==
              if id in old(previews) && old(previews)[id].operation == Configure(configuration, given)
              then ApplyStep(rules, old(View()), id, authentic) else old(View())
      ensures ok <==> View() != old(View())
      ensures Reachable(rules, old(View())) ==> Reachable(rules, View())
    {
      var applicable := Guard(id, authentic);
      if !applicable || previews[id].operation != Configure(configuration, given) { return false; }
      var i := row.value;
      if !rules.fits(i.version.fields, configuration, i.version.secretSlots) { return false; }
      if exists x :: x in given && x !in i.version.secretSlots { return false; }
      UpsertSecrets(given);
      row := Some(i.(version := i.version.(configuration := configuration), revision := i.revision + 1, tested := None, lifecycle := Stopped));
      ConsumeAndAudit(id);
      ok := true;
      if Reachable(rules, old(View())) { ReachableNext(rules, old(View()), Apply(id, authentic)); }
    }

    method UpsertSecrets(given: set<string>)
      modifies this`secrets
      ensures secrets == old(secrets) + given
    {
      var rest := given;
      while rest != {}
        invariant rest <= given && secrets == old(secrets) + (given - rest)
        decreases rest
      {
        var slot :| slot in rest;
        secrets := secrets + {slot};
        rest := rest - {slot};
      }
    }

    /** ApplyUpdate: the new version with the old configuration; the old version is kept for rollback. */
    method ApplyUpdate(id: string, authentic: bool) returns (ok: bool)
      modifies this
      ensures View() ==
              if id in old(previews) && old(previews)[id].operation.Update?
              then ApplyStep(rules, old(View()), id, authentic) else old(View())
      ensures ok <==> View() != old(View())
      ensures Reachable(rules, old(View())) ==> Reachable(rules, View())
    {
      var applicable := Guard(id, authentic);
      if !applicable || !previews[id].operation.Update? { return false; }
      var i, version := row.value, previews[id].operation.version;
      if !rules.wellFormed(version) { return false; }
      row := Some(i.(version := version.(configuration := i.version.configuration), previous := Some(i.version),
                     revision := i.revision + 1, tested := None, lifecycle := Stopped));
      ConsumeAndAudit(id);
      ok := true;
      if Reachable(rules, old(View())) { ReachableNext(rules, old(View()), Apply(id, authentic)); }
    }

    /** ApplyDeleteSecrets. */
    method ApplyDeleteSecrets(id: string, authentic: bool) returns (ok: bool)
      modifies this
      ensures View() ==
              if id in old(previews) && old(previews)[id].operation.DeleteSecrets?
              then ApplyStep(rules, old(View()), id, authentic) else old(View())
      ensures ok <==> View() != old(View())
      ensures Reachable(rules, old(View())) ==> Reachable(rules, View())
    {
      var applicable := Guard(id, authentic);
      if !applicable || !previews[id].operation.DeleteSecrets? { return false; }
      secrets := {};
      row := Some(row.value.(revision := row.value.revision + 1, tested := None));
      ConsumeAndAudit(id);
      ok := true;
      if Reachable(rules, old(View())) { ReachableNext(rules, old(View()), Apply(id, authentic)); }
    }

    /** ApplyUninstall: only without secrets; previews go with the row. */
    method ApplyUninstall(id: string, authentic: bool) returns (ok: bool)
      modifies this
      ensures View() ==
              if id in old(previews) && old(previews)[id].operation.Uninstall?
              then ApplyStep(rules, old(View()), id, authentic) else old(View())
      ensures ok <==> View() != old(View())
      ensures Reachable(rules, old(View())) ==> Reachable(rules, View())
    {
      var applicable := Guard(id, authentic);
      if !applicable || !previews[id].operation.Uninstall? || secrets != {} { return false; }
      log := log + [Applied(id, Uninstall, previews[id].base)];
      row := None;
      previews := map[];
      ok := true;
      if Reachable(rules, old(View())) { ReachableNext(rules, old(View()), Apply(id, authentic)); }
    }

    /** Rollback: swaps the version with the stored previous one. */
    method Rollback(confirmed: bool) returns (ok: bool)
      modifies this
      ensures View() == RollbackStep(rules, old(View()), confirmed)
      ensures ok <==> View() != old(View())
      ensures Reachable(rules, old(View())) ==> Reachable(rules, View())
    {
      if row.None? { return false; }
      var i := row.value;
      if i.enabled || i.routed || i.previous.None? || !confirmed { return false; }
      var previous := i.previous.value;
      if !rules.fits(previous.fields, previous.configuration, previous.secretSlots) { return false; }
      row := Some(i.(version := previous, previous := Some(i.version), revision := i.revision + 1, tested := None, lifecycle := Stopped));
      log := log + [RolledBack];
      ok := true;
      if Reachable(rules, old(View())) { ReachableNext(rules, old(View()), Step.Rollback(confirmed)); }
    }

    /** Steps of other operators; one that is this operator's own or cannot happen is skipped. */
    method Interfere(others: seq<Step>, p: nat, ghost from: State, ghost before: seq<Step>, ghost own: seq<Step>)
      returns (ghost trace: seq<Step>)
      requires Traced(from, before, p, own)
      modifies this
      ensures Traced(from, trace, p, own) && At(View(), p) == At(old(View()), p)
      ensures others == [] ==> View() == old(View())
    {
      trace := before;
      for i := 0 to |others|
        invariant Traced(from, trace, p, own) && At(View(), p) == At(old(View()), p)
        invariant i == 0 ==> View() == old(View())
      {
        var next := Next(rules, View(), others[i]);
        if Actor(others[i]) != Some(p) && next.Some? {
          ghost var was := View();
          OnlyOwn(was, others[i], p);
          row, secrets, previews, log, operators :=
            next.value.row, next.value.secrets, next.value.previews, next.value.log, next.value.operators;
          OneStep(from, trace, was, others[i], p, own);
          trace := trace + [others[i]];
        }
      }
    }

    lemma OnlyOwn(s: State, step: Step, p: nat)
      requires Next(rules, s, step).Some? && Actor(step) != Some(p)
      ensures At(Next(rules, s, step).value, p) == At(s, p)
    {}

    /** Get, first the row. */
    method ReadInstance(p: nat, kind: Kind, w: World, ghost from: State) returns (seen: Instance, ghost trace: seq<Step>)
      requires View() == from && At(View(), p) == Idle && row.Some?
      modifies this
      ensures seen == from.row.value && At(View(), p) == HasRow(kind, seen)
      ensures Traced(from, trace, p, [ReadRow(p, kind)])
      ensures Quiet(w) ==> row == from.row && secrets == from.secrets
    {
      seen := row.value;
      operators := operators[p := HasRow(kind, seen)];
      OneStep(from, [], from, ReadRow(p, kind), p, []);
      trace := Interfere(w.others(0), p, from, [] + [ReadRow(p, kind)], [] + [ReadRow(p, kind)]);
    }

    /** Then the secrets, and the checks on both. */
    method Check(p: nat, kind: Kind, seen: Instance, ghost from: State, ghost before: seq<Step>)
      returns (answer: Answer, ghost trace: seq<Step>)
      requires At(View(), p) == HasRow(kind, seen) && Traced(from, before, p, [ReadRow(p, kind)])
      modifies this
      ensures Traced(from, trace, p, StepsOf(Unchanged, p, kind)) && row == old(row) && secrets == old(secrets)
      ensures answer == if Already(kind, seen) then Unchanged else if Passes(kind, seen, secrets) then Done else Refused
      ensures At(View(), p) == if answer == Done then HasSecrets(kind, seen, secrets) else Idle
    {
      ghost var was := View();
      var stored := secrets;
      answer := Judge(kind, seen, stored);
      operators := operators[p := if answer == Done then HasSecrets(kind, seen, stored) else Idle];
      OneStep(from, before, was, ReadSecrets(p), p, [ReadRow(p, kind)]);
      trace := before + [ReadSecrets(p)];
    }

    /** The checks on what was read; `Done` is the go-ahead. */
    method Judge(kind: Kind, seen: Instance, stored: set<string>) returns (answer: Answer)
      ensures answer == if Already(kind, seen) then Unchanged else if Passes(kind, seen, stored) then Done else Refused
    {
      var ready := RequiredSecretsConfigured(seen.version, stored);
      match kind {
        case Test =>
          if seen.enabled || seen.routed || !ready { return Refused; }
        case Enable =>
          if seen.enabled && seen.routed { return Unchanged; }
          if seen.enabled || seen.routed || seen.tested != Some(seen.revision) || !ready { return Refused; }
        case Disable =>
          if !seen.enabled && !seen.routed { return Unchanged; }
      }
      answer := Done;
    }

    /** The committing transaction of test, enable or disable. */
    method CommitOperation(p: nat, w: World, ghost from: State, ghost before: seq<Step>, ghost own: seq<Step>)
      returns (answer: Answer, ghost trace: seq<Step>, ghost last: State)
      requires Traced(from, before, p, own) && At(View(), p).HasSecrets?
      modifies this
      ensures Traced(from, trace, p, own + [Commit(p)]) && At(View(), p) == Idle
      ensures Committed(old(At(View(), p)).kind, old(At(View(), p)).seen, last, answer) && JustBefore(from, trace, last)
      ensures Quiet(w) ==> last.row == old(row)
    {
      trace := Interfere(w.others(1), p, from, before, own);
      last := View();
      var kind, seen := At(View(), p).kind, At(View(), p).seen;
      operators := operators[p := Idle];
      answer := Conflict;
      if row.Some? {
        var next := CommitRow(kind, row.value, seen);
        if next.Some? {
          row := next;
          log := log + [Outcome(kind)];
          answer := Done;
        }
      }
      OneStep(from, trace, last, Commit(p), p, own);
      assert (trace + [Commit(p)])[..|trace|] == trace;
      trace := trace + [Commit(p)];
    }

    ghost predicate JustBefore(from: State, trace: seq<Step>, last: State) {
      trace != [] && Run(rules, from, trace[..|trace| - 1]) == Some(last)
    }

    /** The transaction found the row of `last`: it is done, and the outcome is the one
        event it added, exactly when that row still meets the UPDATE's condition. */
    ghost predicate Committed(kind: Kind, seen: Instance, last: State, answer: Answer)
      reads this
    {
      var done := last.row.Some? && CommitRow(kind, last.row.value, seen).Some?;
      answer == (if done then Done else Conflict) && log == if done then last.log + [Outcome(kind)] else last.log
    }

    /** Test, Enable and Disable: read, check, call the runtime, commit. Every
        execution is a run of the protocol, in which the operator makes exactly the
        steps its answer stands for. It answers that nothing had to be done exactly
        when the row it read was already as asked, and that it is done exactly when
        its transaction added the outcome. */
    method Operate(p: nat, kind: Kind, w: World) returns (answer: Answer, ghost trace: seq<Step>, ghost last: State)
      requires At(View(), p) == Idle && Reachable(rules, View())
      modifies this
      ensures Traced(old(View()), trace, p, StepsOf(answer, p, kind)) && At(View(), p) == Idle && Reachable(rules, View())
      ensures answer == Missing <==> old(row).None?
      ensures answer == Unchanged <==> old(row).Some? && Already(kind, old(row).value)
      ensures answer == Broken ==> !w.runtimeOk
      ensures answer == Done || answer == Conflict ==>
                w.runtimeOk && JustBefore(old(View()), trace, last) && Committed(kind, old(row).value, last, answer)
      ensures Quiet(w) ==> answer == Alone(kind, old(row), old(secrets), w.runtimeOk)
    {
      ghost var from := View();
      answer, trace, last := Missing, [], View();
      if row.Some? {
        var seen;
        seen, trace := ReadInstance(p, kind, w, from);
        answer, trace := Check(p, kind, seen, from, trace);
        if answer == Done {
          answer, trace, last := Finish(p, kind, w, from, trace);
        }
      }
      ReachableExtends(rules, from, trace);
    }

    /** The runtime calls and the transaction. */
    method Finish(p: nat, kind: Kind, w: World, ghost from: State, ghost before: seq<Step>)
      returns (answer: Answer, ghost trace: seq<Step>, ghost last: State)
      requires Traced(from, before, p, StepsOf(Unchanged, p, kind)) && from.row.Some?
      requires exists slots :: At(View(), p) == HasSecrets(kind, from.row.value, slots)
      modifies this
      ensures Traced(from, trace, p, StepsOf(answer, p, kind)) && At(View(), p) == Idle
      ensures answer == Broken <==> !w.runtimeOk
      ensures w.runtimeOk ==> Committed(old(At(View(), p)).kind, old(At(View(), p)).seen, last, answer) && JustBefore(from, trace, last)
      ensures Quiet(w) ==> last.row == old(row)
    {
      last := View();
      if w.runtimeOk {
        answer, trace, last := CommitOperation(p, w, from, before, StepsOf(Unchanged, p, kind));
      } else {
        answer := Broken;
        operators := operators[p := Idle];
        OneStep(from, before, last, Drop(p), p, StepsOf(Unchanged, p, kind));
        trace := before + [Drop(p)];
      }
    }
  }
}
