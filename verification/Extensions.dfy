/** One installed extension: its row, its stored secrets, the previews of
    operations on it, and any number of operators whose test, enable and disable
    read the row, read the secrets and commit in separate steps. */
module Extensions {
  import opened Prelude

  datatype Field = Field(name: string, secret: bool, required: bool)

  /** The nine fields of a version snapshot. */
  datatype Version = Version(
    artifactPin: string,
    manifestDigest: string,
    grantDigest: string,
    sessionDigest: string,
    capabilities: seq<string>,
    interfaces: seq<string>,
    secretSlots: seq<string>,
    fields: seq<Field>,
    configuration: map<string, string>)

  datatype Lifecycle = Discovered | Ready | Stopped

  datatype Instance = Instance(
    version: Version,
    previous: Option<Version>,
    revision: nat,
    tested: Option<nat>,
    lifecycle: Lifecycle,
    enabled: bool,
    routed: bool)

  datatype Operation =
    | Configure(configuration: map<string, string>, secrets: set<string>)
    | Update(version: Version)
    | DeleteSecrets
    | Uninstall

  datatype PreviewRow = PreviewRow(operation: Operation, base: nat, consumed: bool)

  /** The audited changes. */
  datatype Event =
    | Applied(id: string, operation: Operation, base: nat)
    | RolledBack
    | Tested
    | Enabled
    | Disabled

  datatype Kind = Test | Enable | Disable

  /** An operator between its steps: what it read of the row, then of the secrets. */
  datatype Operator = Idle | HasRow(kind: Kind, seen: Instance) | HasSecrets(kind: Kind, seen: Instance, slots: set<string>)

  datatype State = State(
    row: Option<Instance>,
    secrets: set<string>,
    previews: map<string, PreviewRow>,
    log: seq<Event>,
    operators: map<nat, Operator>)

  /** What stays abstract: whether a configuration fits its fields and slots, and
      whether an installation request is well formed. */
  datatype Rules = Rules(fits: (seq<Field>, map<string, string>, seq<string>) -> bool, wellFormed: Version -> bool)

  function At(s: State, p: nat): Operator {
    if p in s.operators then s.operators[p] else Idle
  }

  /** Every required secret field names a granted slot with a stored value. */
  predicate SecretsReady(v: Version, stored: set<string>) {
    forall f | f in v.fields && f.secret && f.required :: f.name in v.secretSlots && f.name in stored
  }

  /** loadSecretStatus and requiredSecretsConfigured. */
  method RequiredSecretsConfigured(v: Version, stored: set<string>) returns (ok: bool)
    ensures ok <==> SecretsReady(v, stored)
  {
    var configured: set<string> := {};
    for i := 0 to |v.secretSlots|
      invariant configured == Elements(v.secretSlots[..i]) * stored
    {
      ElementsPrefix(v.secretSlots, i);
      if v.secretSlots[i] in stored { configured := configured + {v.secretSlots[i]}; }
    }
    assert v.secretSlots[..|v.secretSlots|] == v.secretSlots;
    for i := 0 to |v.fields|
      invariant forall k | 0 <= k < i && v.fields[k].secret && v.fields[k].required :: v.fields[k].name in configured
    {
      if v.fields[i].secret && v.fields[i].required && v.fields[i].name !in configured {
        assert v.fields[i] in v.fields;
        return false;
      }
    }
    ok := true;
  }

  predicate Quiescent(i: Instance) {
    !i.enabled && !i.routed
  }

  /** The effect of an operation on a quiescent instance, if it is admissible. */
  function Perform(rules: Rules, i: Instance, secrets: set<string>, operation: Operation): Option<(Option<Instance>, set<string>)> {
    match operation
    case Configure(configuration, given) =>
      if rules.fits(i.version.fields, configuration, i.version.secretSlots) && (forall x | x in given :: x in i.version.secretSlots)
      then Some((Some(i.(version := i.version.(configuration := configuration), revision := i.revision + 1, tested := None, lifecycle := Stopped)),
                 secrets + given))
      else None
    case Update(version) =>
      if rules.wellFormed(version)
      then Some((Some(i.(version := version.(configuration := i.version.configuration), previous := Some(i.version),
                         revision := i.revision + 1, tested := None, lifecycle := Stopped)),
                 secrets))
      else None
    case DeleteSecrets => Some((Some(i.(revision := i.revision + 1, tested := None)), {}))
    case Uninstall => if secrets == {} then Some((None, {})) else None
  }

  /** The guards every apply shares: an unused authentic preview of the current
      revision of a quiescent instance. */
  predicate Applicable(s: State, id: string, authentic: bool) {
    && authentic && id in s.previews && !s.previews[id].consumed && s.row.Some?
    && s.row.value.revision == s.previews[id].base && Quiescent(s.row.value)
  }

  function ApplyStep(rules: Rules, s: State, id: string, authentic: bool): State {
    if !Applicable(s, id, authentic) then s
    else
      var p := s.previews[id];
      match Perform(rules, s.row.value, s.secrets, p.operation)
      case None => s
      case Some(effect) =>
        s.(row := effect.0, secrets := effect.1, log := s.log + [Applied(id, p.operation, p.base)],
           previews := if effect.0.None? then map[] else s.previews[id := p.(consumed := true)])
  }

  /** The four previews: read the row, then insert against the revision read. */
  function PreviewStep(s: State, id: string, operation: Operation, base: nat): Option<State> {
    if s.row.None? || id in s.previews || base > s.row.value.revision then None
    else Some(s.(previews := s.previews[id := PreviewRow(operation, base, false)]))
  }

  function RollbackStep(rules: Rules, s: State, confirmed: bool): State {
    match s.row
    case None => s
    case Some(i) =>
      if !confirmed || !Quiescent(i) || i.previous.None? then s
      else
        var v := i.previous.value;
        if !rules.fits(v.fields, v.configuration, v.secretSlots) then s
        else s.(row := Some(i.(version := v, previous := Some(i.version), revision := i.revision + 1, tested := None, lifecycle := Stopped)),
                log := s.log + [RolledBack])
  }

  function Move(s: State, p: nat, x: Operator): State {
    s.(operators := s.operators[p := x])
  }

  /** What the checks before the runtime calls admit. */
  predicate Passes(kind: Kind, i: Instance, slots: set<string>) {
    match kind
    case Test => Quiescent(i) && SecretsReady(i.version, slots)
    case Enable => Quiescent(i) && i.tested == Some(i.revision) && SecretsReady(i.version, slots)
    case Disable => i.enabled || i.routed
  }

  /** The committing UPDATE's WHERE clause and effect. */
  function CommitRow(kind: Kind, current: Instance, seen: Instance): Option<Instance> {
    match kind
    case Test =>
      if current.revision == seen.revision && Quiescent(current)
      then Some(current.(tested := Some(current.revision), lifecycle := Stopped)) else None
    case Enable =>
      if current.revision == seen.revision && current.tested == Some(seen.revision) && Quiescent(current)
      then Some(current.(enabled := true, routed := true, lifecycle := Ready)) else None
    case Disable =>
      if current.revision == seen.revision then Some(current.(enabled := false, routed := false, lifecycle := Stopped)) else None
  }

  function Outcome(kind: Kind): Event {
    match kind case Test => Tested case Enable => Enabled case Disable => Disabled
  }

  datatype Step =
    | Preview(id: string, operation: Operation, base: nat)
    | Apply(id: string, authentic: bool)
    | Rollback(confirmed: bool)
    | ReadRow(p: nat, kind: Kind)
    | ReadSecrets(p: nat)
    | Commit(p: nat)
    | Drop(p: nat)

  /** Reading the secrets is followed by the checks; an operator that fails them
      drops out. */
  function ReadSecretsStep(s: State, p: nat): Option<State> {
    match At(s, p)
    case HasRow(kind, seen) =>
      Some(Move(s, p, if Passes(kind, seen, s.secrets) then HasSecrets(kind, seen, s.secrets) else Idle))
    case _ => None
  }

  /** The transaction at the end of test, enable and disable; the runtime calls
      before it can only make the operator drop out. */
  function CommitStep(s: State, p: nat): Option<State> {
    match At(s, p)
    case HasSecrets(kind, seen, _) =>
      var t := Move(s, p, Idle);
      (match s.row
       case None => Some(t)
       case Some(i) =>
         match CommitRow(kind, i, seen)
         case None => Some(t)
         case Some(next) => Some(t.(row := Some(next), log := s.log + [Outcome(kind)])))
    case _ => None
  }

  function Next(rules: Rules, s: State, step: Step): Option<State> {
    match step
    case Preview(id, operation, base) => PreviewStep(s, id, operation, base)
    case Apply(id, authentic) => Some(ApplyStep(rules, s, id, authentic))
    case Rollback(confirmed) => Some(RollbackStep(rules, s, confirmed))
    case ReadRow(p, kind) => if At(s, p).Idle? && s.row.Some? then Some(Move(s, p, HasRow(kind, s.row.value))) else None
    case ReadSecrets(p) => ReadSecretsStep(s, p)
    case Commit(p) => CommitStep(s, p)
    case Drop(p) => Some(Move(s, p, Idle))
  }

  function Run(rules: Rules, s: State, steps: seq<Step>): Option<State> {
    if steps == [] then Some(s)
    else match Run(rules, s, steps[..|steps| - 1])
      case None => None
      case Some(t) => Next(rules, t, steps[|steps| - 1])
  }

  /** A fresh installation. */
  predicate Installed(s: State) {
    && s.row.Some? && s.row.value.revision == 1 && s.row.value.tested.None? && Quiescent(s.row.value)
    && s.row.value.previous.None? && s.row.value.lifecycle == Discovered
    && s.secrets == {} && s.previews == map[] && s.log == [] && s.operators == map[]
  }

  // ----- the invariant ----------------------------------------------------------

  /** An enabled extension is routed, tested at its revision and has its secrets. */
  ghost predicate EnabledOk(s: State) {
    s.row.Some? ==>
      var i := s.row.value;
      && (i.routed <==> i.enabled) && (i.enabled <==> i.lifecycle == Ready)
      && (i.enabled ==> i.tested == Some(i.revision) && SecretsReady(i.version, s.secrets))
      && (i.tested.Some? ==> i.tested.value <= i.revision)
  }

  /** What an operator read is still true as long as the revision is. */
  ghost predicate OperatorOk(s: State, p: nat) {
    var x := At(s, p);
    !x.Idle? && s.row.Some? ==>
      && x.seen.revision <= s.row.value.revision
      && (x.seen.revision == s.row.value.revision ==>
            && x.seen.version == s.row.value.version
            && (x.HasSecrets? ==> x.slots == s.secrets && Passes(x.kind, x.seen, x.slots)))
  }

  function BaseOf(e: Event): int {
    if e.Applied? then e.base else -1
  }

  /** Applied previews have increasing bases, all of earlier revisions. */
  ghost predicate BasesOk(s: State) {
    && (forall i, j | 0 <= i < j < |s.log| && s.log[i].Applied? && s.log[j].Applied? :: BaseOf(s.log[i]) < BaseOf(s.log[j]))
    && (s.row.Some? ==> forall i | 0 <= i < |s.log| && s.log[i].Applied? :: BaseOf(s.log[i]) < s.row.value.revision)
  }

  ghost predicate Inv(s: State) {
    EnabledOk(s) && BasesOk(s) && forall p: nat :: OperatorOk(s, p)
  }

  /** An operator's reading survives any change that keeps it or bumps the revision. */
  lemma OperatorsKeep(s: State, t: State)
    requires Inv(s) && t.operators == s.operators
    requires s.row.None? ==> t.row.None?
    requires s.row.Some? && t.row.Some? ==>
             || t.row.value.revision > s.row.value.revision
             || (t.row.value.revision == s.row.value.revision && t.row.value.version == s.row.value.version && t.secrets == s.secrets)
    ensures forall p: nat :: OperatorOk(t, p)
  {
    forall p: nat ensures OperatorOk(t, p) { assert OperatorOk(s, p); }
  }

  lemma ApplyKeeps(rules: Rules, s: State, id: string, authentic: bool)
    requires Inv(s)
    ensures Inv(ApplyStep(rules, s, id, authentic))
  {
    OperatorsKeep(s, ApplyStep(rules, s, id, authentic));
  }

  lemma RollbackKeeps(rules: Rules, s: State, confirmed: bool)
    requires Inv(s)
    ensures Inv(RollbackStep(rules, s, confirmed))
  {
    OperatorsKeep(s, RollbackStep(rules, s, confirmed));
  }

  lemma MoveKeeps(s: State, p: nat, x: Operator)
    requires Inv(s) && OperatorOk(Move(s, p, x), p)
    ensures Inv(Move(s, p, x))
  {
    var t := Move(s, p, x);
    forall q: nat ensures OperatorOk(t, q) { assert OperatorOk(s, q); }
  }

  lemma CommitKeeps(s: State, p: nat)
    requires Inv(s) && CommitStep(s, p).Some?
    ensures Inv(CommitStep(s, p).value)
  {
    assert OperatorOk(s, p);
    var t := Move(s, p, Idle);
    MoveKeeps(s, p, Idle);
    OperatorsKeep(t, CommitStep(s, p).value);
  }

  /** Every step of every operator keeps the invariant. */
  lemma NextKeeps(rules: Rules, s: State, step: Step)
    requires Inv(s) && Next(rules, s, step).Some?
    ensures Inv(Next(rules, s, step).value)
  {
    match step {
      case Preview(id, operation, base) => OperatorsKeep(s, Next(rules, s, step).value);
      case Apply(id, authentic) => ApplyKeeps(rules, s, id, authentic);
      case Rollback(confirmed) => RollbackKeeps(rules, s, confirmed);
      case ReadRow(p, kind) => MoveKeeps(s, p, HasRow(kind, s.row.value));
      case ReadSecrets(p) =>
        assert OperatorOk(s, p);
        MoveKeeps(s, p, At(Next(rules, s, step).value, p));
      case Commit(p) => CommitKeeps(s, p);
      case Drop(p) => MoveKeeps(s, p, Idle);
    }
  }

  lemma {:induction false} RunKeeps(rules: Rules, s: State, steps: seq<Step>)
    requires Inv(s) && Run(rules, s, steps).Some?
    ensures Inv(Run(rules, s, steps).value)
  {
    if steps != [] {
      RunKeeps(rules, s, steps[..|steps| - 1]);
      NextKeeps(rules, Run(rules, s, steps[..|steps| - 1]).value, steps[|steps| - 1]);
    }
  }

  ghost predicate Reachable(rules: Rules, s: State) {
    exists s0: State, steps: seq<Step> :: Installed(s0) && Run(rules, s0, steps) == Some(s)
  }

  lemma {:induction false} RunAppend(rules: Rules, s: State, first: seq<Step>, second: seq<Step>)
    requires Run(rules, s, first).Some?
    ensures Run(rules, s, first + second) == Run(rules, Run(rules, s, first).value, second)
  {
    if second == [] {
      assert first + second == first;
    } else {
      RunAppend(rules, s, first, second[..|second| - 1]);
      assert (first + second)[..|first + second| - 1] == first + second[..|second| - 1];
    }
  }

  /** What a run of the protocol leads to from a reachable state is reachable. */
  lemma ReachableExtends(rules: Rules, s: State, steps: seq<Step>)
    requires Reachable(rules, s) && Run(rules, s, steps).Some?
    ensures Reachable(rules, Run(rules, s, steps).value)
  {
    var s0: State, before: seq<Step> :| Installed(s0) && Run(rules, s0, before) == Some(s);
    RunAppend(rules, s0, before, steps);
  }

  lemma ReachableNext(rules: Rules, s: State, step: Step)
    requires Reachable(rules, s) && Next(rules, s, step).Some?
    ensures Reachable(rules, Next(rules, s, step).value)
  {
    assert [step][..0] == [];
    ReachableExtends(rules, s, [step]);
  }

  lemma ReachableInv(rules: Rules, s: State)
    requires Reachable(rules, s)
    ensures Inv(s)
  {
    var s0: State, steps: seq<Step> :| Installed(s0) && Run(rules, s0, steps) == Some(s);
    assert forall p: nat :: OperatorOk(s0, p);
    RunKeeps(rules, s0, steps);
  }

  // ----- what every run guarantees ---------------------------------------------

  /** In every run an enabled extension is routed, has been tested at exactly its
      current configuration revision, and has every required secret granted and
      stored, although enable checks the secrets long before it commits. */
  lemma EnabledIsSafe(rules: Rules, s: State)
    requires Reachable(rules, s) && s.row.Some? && s.row.value.enabled
    ensures s.row.value.routed && s.row.value.tested == Some(s.row.value.revision)
    ensures SecretsReady(s.row.value.version, s.secrets)
  {
    ReachableInv(rules, s);
  }

  /** In every run at most one preview of each base revision is applied. */
  lemma OneApplyPerRevision(rules: Rules, s: State, i: nat, j: nat)
    requires Reachable(rules, s) && i < |s.log| && j < |s.log| && s.log[i].Applied? && s.log[j].Applied?
    requires s.log[i].base == s.log[j].base
    ensures i == j
  {
    ReachableInv(rules, s);
    assert BaseOf(s.log[i]) == BaseOf(s.log[j]);
  }

  // ----- update and rollback -------------------------------------------------------

  /** The event replaces the stored previous version. */
  predicate Replaces(e: Event) {
    e.RolledBack? || (e.Applied? && (e.operation.Update? || e.operation.Uninstall?))
  }

  /** The event changes some version field. */
  predicate Rewrites(e: Event) {
    Replaces(e) || (e.Applied? && e.operation.Configure?)
  }

  lemma StepLog(rules: Rules, s: State, step: Step)
    requires Next(rules, s, step).Some?
    ensures s.log <= Next(rules, s, step).value.log
  {}

  lemma {:induction false} LogGrows(rules: Rules, s: State, steps: seq<Step>)
    requires Run(rules, s, steps).Some?
    ensures s.log <= Run(rules, s, steps).value.log
  {
    if steps != [] {
      LogGrows(rules, s, steps[..|steps| - 1]);
      StepLog(rules, Run(rules, s, steps[..|steps| - 1]).value, steps[|steps| - 1]);
    }
  }

  predicate Between(log: seq<Event>, from: nat, bad: Event -> bool) {
    forall i | from <= i < |log| :: !bad(log[i])
  }

  lemma PreviousStep(rules: Rules, s: State, step: Step)
    requires s.row.Some? && Next(rules, s, step).Some? && Between(Next(rules, s, step).value.log, |s.log|, Replaces)
    ensures var t := Next(rules, s, step).value; t.row.Some? && t.row.value.previous == s.row.value.previous
  {
    var t := Next(rules, s, step).value;
    assert |t.log| > |s.log| ==> !Replaces(t.log[|s.log|]);
  }

  lemma VersionStep(rules: Rules, s: State, step: Step)
    requires s.row.Some? && Next(rules, s, step).Some? && Between(Next(rules, s, step).value.log, |s.log|, Rewrites)
    ensures var t := Next(rules, s, step).value;
            t.row.Some? && t.row.value.version == s.row.value.version && t.row.value.previous == s.row.value.previous
  {
    var t := Next(rules, s, step).value;
    assert |t.log| > |s.log| ==> !Rewrites(t.log[|s.log|]);
  }

  lemma {:induction false} PreviousStays(rules: Rules, s: State, steps: seq<Step>)
    requires s.row.Some? && Run(rules, s, steps).Some? && Between(Run(rules, s, steps).value.log, |s.log|, Replaces)
    ensures var t := Run(rules, s, steps).value; t.row.Some? && t.row.value.previous == s.row.value.previous
  {
    if steps != [] {
      var shorter := steps[..|steps| - 1];
      var t := Run(rules, s, shorter).value;
      LogGrows(rules, s, shorter);
      StepLog(rules, t, steps[|steps| - 1]);
      PreviousStays(rules, s, shorter);
      PreviousStep(rules, t, steps[|steps| - 1]);
    }
  }

  lemma {:induction false} VersionStays(rules: Rules, s: State, steps: seq<Step>)
    requires s.row.Some? && Run(rules, s, steps).Some? && Between(Run(rules, s, steps).value.log, |s.log|, Rewrites)
    ensures var t := Run(rules, s, steps).value;
            t.row.Some? && t.row.value.version == s.row.value.version && t.row.value.previous == s.row.value.previous
  {
    if steps != [] {
      var shorter := steps[..|steps| - 1];
      var t := Run(rules, s, shorter).value;
      LogGrows(rules, s, shorter);
      StepLog(rules, t, steps[|steps| - 1]);
      VersionStays(rules, s, shorter);
      VersionStep(rules, t, steps[|steps| - 1]);
    }
  }

  /** An applied update, then anything but another update or rollback (configures,
      tests, enables, secret deletions, in any order and by anyone), then a
      successful rollback: all nine version fields are back. */
  lemma RollbackUndoesUpdate(rules: Rules, s: State, id: string, steps: seq<Step>)
    requires s.row.Some? && ApplyStep(rules, s, id, true) != s && s.previews[id].operation.Update?
    requires Run(rules, ApplyStep(rules, s, id, true), steps).Some?
    requires Between(Run(rules, ApplyStep(rules, s, id, true), steps).value.log, |s.log| + 1, Replaces)
    requires var t := Run(rules, ApplyStep(rules, s, id, true), steps).value; RollbackStep(rules, t, true) != t
    ensures var t := Run(rules, ApplyStep(rules, s, id, true), steps).value;
            RollbackStep(rules, t, true).row.value.version == s.row.value.version
  {
    PreviousStays(rules, ApplyStep(rules, s, id, true), steps);
  }

  /** Two successful rollbacks with no other rewrite in between are the identity on
      the version fields. */
  lemma RollbackTwice(rules: Rules, s: State, steps: seq<Step>)
    requires s.row.Some? && RollbackStep(rules, s, true) != s && Run(rules, RollbackStep(rules, s, true), steps).Some?
    requires Between(Run(rules, RollbackStep(rules, s, true), steps).value.log, |s.log| + 1, Rewrites)
    requires var t := Run(rules, RollbackStep(rules, s, true), steps).value; RollbackStep(rules, t, true) != t
    ensures var t := Run(rules, RollbackStep(rules, s, true), steps).value;
            var u := RollbackStep(rules, t, true).row.value;
            u.version == s.row.value.version && u.previous == s.row.value.previous
  {
    VersionStays(rules, RollbackStep(rules, s, true), steps);
  }
}
