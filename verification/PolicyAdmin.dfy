/** The administration of a domain's outbound scope, and what its revision counter
    does for confirmations: one that a scope change has made stale stays stale. */
module PolicyAdmin {
  import opened Prelude
  import opened Framing
  import opened Names
  import opened Policy
  import opened DecisionService
  import opened Registry
  import HoldProtocol
  import opened Confirmation

  datatype Impact = Impact(aliases: nat, externalTargets: nat, queuedRecipients: nat)

  /** What loadAliasImpact and loadQueuedRecipientImpact find. */
  datatype Survey = Survey(impact: Impact, stateDigest: string)

  /** The payload of a plan digest. */
  datatype Plan = Plan(domainId: string, domain: string, current: Scope, requested: Scope, revision: int, survey: Survey)

  function Nibble(c: char): Option<int> {
    if '0' <= c <= '9' then Some(c as int - '0' as int)
    else if 'a' <= c <= 'f' then Some(c as int - 'a' as int + 10)
    else if 'A' <= c <= 'F' then Some(c as int - 'A' as int + 10)
    else None
  }

  /** equalPlanDigest: 64 hex digits of either case, of equal value. */
  predicate EqualPlanDigest(expected: string, actual: string) {
    && |expected| == 64 && |actual| == 64
    && forall i | 0 <= i < 64 :: Nibble(expected[i]).Some? && Nibble(actual[i]) == Nibble(expected[i])
  }

  lemma DigestsAgree(a: string, b: string, confirmation: string)
    requires ValidLowerHexDigest(a) && ValidLowerHexDigest(b)
    requires EqualPlanDigest(a, confirmation) && EqualPlanDigest(b, confirmation)
    ensures a == b
  {
    forall i | 0 <= i < 64 ensures a[i] == b[i] {
      assert a[i] in a && b[i] in b;
      assert Nibble(a[i]) == Nibble(confirmation[i]) == Nibble(b[i]);
    }
  }

  /** The enabled domain a plan is about. */
  ghost predicate Concerns(names: Resolver, t: Tables, raw: string, id: string) {
    id in t.domains && t.domains[id].enabled && names.domain(raw) == Some(t.domains[id].name)
  }

  predicate Plannable(t: Tables, id: string, requested: Scope)
    requires id in t.domains
  {
    ValidScope(requested) && ValidScope(t.domains[id].scope) && t.domains[id].revision != 0
  }

  /** loadChangePlan: the plan for the one enabled domain of that name, if its stored
      state is valid and the impact can be computed. */
  method LoadChangePlan(names: Resolver, t: Tables, raw: string, requested: Scope, survey: Option<Survey>) returns (plan: Option<Plan>)
    ensures plan.Some? <==>
            survey.Some? && exists id :: Concerns(names, t, raw, id) && Plannable(t, id, requested)
    ensures plan.Some? ==>
            var p := plan.value;
            survey.Some? && Concerns(names, t, raw, p.domainId) && p == PlanOf(t, p.domainId, requested, survey.value)
  {
    assert forall i, j | Concerns(names, t, raw, i) && Concerns(names, t, raw, j) :: i == j;
    if !ValidScope(requested) || survey.None? { return None; }
    var domain := names.domain(raw);
    if domain.None? { return None; }
    if id :| id in t.domains && t.domains[id].name == domain.value && t.domains[id].enabled {
      var row := t.domains[id];
      assert Concerns(names, t, raw, id);
      if !ValidScope(row.scope) || row.revision == 0 { return None; }
      plan := Some(Plan(id, row.name, row.scope, requested, row.revision, survey.value));
    } else {
      plan := None;
    }
  }

  function PlanOf(t: Tables, id: string, requested: Scope, survey: Survey): Plan
    requires id in t.domains
  {
    Plan(id, t.domains[id].name, t.domains[id].scope, requested, t.domains[id].revision, survey)
  }

  /** The revision-guarded UPDATE. */
  function SetScope(t: Tables, id: string, scope: Scope): (r: Tables)
    requires id in t.domains
  {
    t.(domains := t.domains[id := t.domains[id].(scope := scope, revision := t.domains[id].revision + 1)])
  }

  datatype Change = Change(plan: Plan, digest: string)

  datatype Outcome = Error | Same(plan: Plan) | Changed(plan: Plan)

  class AdminService {
    const names: Resolver
    const digest: Plan -> string
    var tables: Tables
    var audit: seq<Change>

    constructor (names: Resolver, digest: Plan -> string, tables: Tables)
      ensures this.names == names && this.digest == digest && this.tables == tables && audit == []
    {
      this.names, this.digest, this.tables, this.audit := names, digest, tables, [];
    }

    /** Preview: the plan and the digest to confirm it with. */
    method Preview(raw: string, requested: Scope, survey: Option<Survey>) returns (plan: Option<Plan>)
      ensures plan.Some? ==> survey.Some? && Concerns(names, tables, raw, plan.value.domainId)
                             && plan.value == PlanOf(tables, plan.value.domainId, requested, survey.value)
    {
      plan := LoadChangePlan(names, tables, raw, requested, survey);
    }

    /** Apply: recomputes the plan in its transaction and changes the scope only under
        the confirmation for exactly that plan; the audit event goes with it. */
    method Apply(raw: string, requested: Scope, confirmation: string, survey: Option<Survey>, audited: bool) returns (r: Outcome)
      modifies this
      ensures !r.Error? <==>
              && survey.Some?
              && exists id :: Concerns(names, old(tables), raw, id) && Plannable(old(tables), id, requested)
                   && EqualPlanDigest(digest(PlanOf(old(tables), id, requested, survey.value)), confirmation)
                   && (old(tables).domains[id].scope == requested || audited)
      ensures !r.Error? ==>
              && survey.Some? && Concerns(names, old(tables), raw, r.plan.domainId)
              && r.plan == PlanOf(old(tables), r.plan.domainId, requested, survey.value)
              && EqualPlanDigest(digest(r.plan), confirmation) && (r.Changed? <==> r.plan.current != requested)
      ensures if r.Changed? then audited && tables == SetScope(old(tables), r.plan.domainId, requested)
                                 && audit == old(audit) + [Change(r.plan, digest(r.plan))]
              else tables == old(tables) && audit == old(audit)
      ensures Next(old(tables), if r.Changed? then Scoped(r.plan.domainId, requested) else Other(old(tables))) == Some(tables)
    {
      var plan := LoadChangePlan(names, tables, raw, requested, survey);
      assert forall i, j | Concerns(names, tables, raw, i) && Concerns(names, tables, raw, j) :: i == j;
      if plan.None? || !EqualPlanDigest(digest(plan.value), confirmation) { return Error; }
      var p := plan.value;
      if p.current == p.requested { return Same(p); }
      if p.domainId !in tables.domains || tables.domains[p.domainId].revision != p.revision || !audited { return Error; }
      tables := SetScope(tables, p.domainId, p.requested);
      audit := audit + [Change(p, digest(p))];
      r := Changed(p);
    }
  }

  // ----- histories of the policy tables -----------------------------------------

  /** A scope change, or anything else that is done to the tables: objects and
      domains come, move, and are enabled and disabled, but nothing else writes a
      domain's name, scope or revision, and no domain is deleted. */
  datatype Step = Scoped(id: string, scope: Scope) | Other(tables: Tables)

  ghost predicate KeepsDomains(t: Tables, u: Tables) {
    forall id | id in t.domains ::
      && id in u.domains && u.domains[id].name == t.domains[id].name
      && u.domains[id].scope == t.domains[id].scope && u.domains[id].revision == t.domains[id].revision
  }

  ghost function Next(t: Tables, step: Step): Option<Tables> {
    match step
    case Scoped(id, scope) => if id in t.domains then Some(SetScope(t, id, scope)) else None
    case Other(u) => if KeepsDomains(t, u) then Some(u) else None
  }

  ghost function Run(t: Tables, steps: seq<Step>): Option<Tables> {
    if steps == [] then Some(t)
    else match Run(t, steps[..|steps| - 1])
      case None => None
      case Some(u) => Next(u, steps[|steps| - 1])
  }

  /** Domains keep their names, revisions only grow, and a scope stays as long as its
      revision does. */
  ghost predicate Later(t: Tables, u: Tables) {
    forall id | id in t.domains ::
      && id in u.domains && u.domains[id].name == t.domains[id].name && t.domains[id].revision <= u.domains[id].revision
      && (u.domains[id].revision == t.domains[id].revision ==> u.domains[id].scope == t.domains[id].scope)
  }

  lemma LaterStep(t: Tables, u: Tables, step: Step)
    requires Later(t, u) && Next(u, step).Some?
    ensures Later(t, Next(u, step).value)
  {}

  lemma {:induction false} LaterRun(t: Tables, steps: seq<Step>)
    requires Run(t, steps).Some?
    ensures Later(t, Run(t, steps).value)
  {
    if steps != [] {
      LaterRun(t, steps[..|steps| - 1]);
      LaterStep(t, Run(t, steps[..|steps| - 1]).value, steps[|steps| - 1]);
    }
  }

  /** A domain's scope is changed somewhere in the run. */
  ghost predicate Changes(t: Tables, steps: seq<Step>, id: string) {
    exists k: nat :: k < |steps| && steps[k].Scoped? && steps[k].id == id
  }

  lemma {:induction false} ChangedIsNewer(t: Tables, steps: seq<Step>, id: string)
    requires Run(t, steps).Some? && id in t.domains
    ensures id in Run(t, steps).value.domains
    ensures Changes(t, steps, id) <==> t.domains[id].revision < Run(t, steps).value.domains[id].revision
  {
    LaterRun(t, steps);
    if steps != [] {
      var shorter := steps[..|steps| - 1];
      ChangedIsNewer(t, shorter, id);
      LaterRun(t, shorter);
      if Changes(t, steps, id) {
        var k: nat :| k < |steps| && steps[k].Scoped? && steps[k].id == id;
        assert k < |shorter| ==> shorter[k] == steps[k];
      }
      if Changes(t, shorter, id) {
        var k: nat :| k < |shorter| && shorter[k].Scoped? && shorter[k].id == id;
        assert steps[k] == shorter[k];
      }
      assert steps[|steps| - 1].Scoped? && steps[|steps| - 1].id == id ==> Changes(t, steps, id);
    }
  }

  // ----- confirmations --------------------------------------------------------------

  /** The domain governs the record under these tables. */
  ghost predicate Governs(names: Resolver, r: Record, t: Tables, id: string) {
    id in t.domains && t.domains[id].name in Domains(InForcePolicy(names, r, t))
  }

  /** The policy in force names each governing domain at its current revision. */
  lemma InForceIsCurrent(names: Resolver, r: Record, t: Tables, id: string, g: GoverningDomain)
    requires Permitted(names, r, t) && id in t.domains && g in InForcePolicy(names, r, t) && g.domain == t.domains[id].name
    ensures g.revision == t.domains[id].revision
  {
    var list := GoverningList(names, t, r.sources);
    var i :| 0 <= i < |list| && list[i] == g;
    assert r.sources[i] in r.sources;
    assert Resolves(names, t, r.sources[i]);
    var row := ObjectFor(t, r.sources[i]).value;
    assert t.domains[row.domainId].name == t.domains[id].name;
  }

  /** A release confirmation that a change of a governing domain's scope has made
      stale never becomes valid again, even when the scope is changed back:
      whatever else happens to the tables, later plans have other hashes. */
  lemma StaleStaysStale(names: LawfulResolver, hash: string -> string, r: Record, t: Tables, steps: seq<Step>, id: string)
    requires Permitted(names, r, t) && Governs(names, r, t, id) && Run(t, steps).Some? && Changes(t, steps, id)
    requires var u := Run(t, steps).value;
             var a, b := PlanValues(r, InForcePolicy(names, r, t)), PlanValues(r, InForcePolicy(names, r, u));
             Framable(a) && Framable(b) && CollisionFree(hash, {Frame(a), Frame(b)})
    ensures PlanHash(names, hash, r, Run(t, steps).value) != PlanHash(names, hash, r, t)
  {
    var u := Run(t, steps).value;
    LaterRun(t, steps);
    ChangedIsNewer(t, steps, id);
    if PlanHash(names, hash, r, u) == PlanHash(names, hash, r, t) {
      ConfirmationBinds(names, hash, r, t, r, u);
      var g :| g in InForcePolicy(names, r, t) && g.domain == t.domains[id].name;
      InForceIsCurrent(names, r, t, id, g);
      InForceIsCurrent(names, r, u, id, g);
      assert false;
    }
  }

  /** So no run of the hold protocol calls the release helper with it. */
  lemma NoReleaseOnStale(names: LawfulResolver, hash: string -> string, r: Record, t: Tables, steps: seq<Step>, id: string,
                         s: HoldProtocol.State, effect: bool, ok: bool)
    requires Permitted(names, r, t) && Governs(names, r, t, id) && Run(t, steps) == Some(s.tables) && Changes(t, steps, id)
    requires var a, b := PlanValues(r, InForcePolicy(names, r, t)), PlanValues(r, InForcePolicy(names, r, s.tables));
             Framable(a) && Framable(b) && CollisionFree(hash, {Frame(a), Frame(b)})
    requires HoldProtocol.Reachable(SiteOf(names, hash, r), s)
    requires HoldProtocol.Next(SiteOf(names, hash, r), s, HoldProtocol.CallRelease(effect, ok)).Some?
    ensures s.owner.Started? && s.owner.job.ReleaseJob? && Some(s.owner.job.confirmation) != PlanHash(names, hash, r, t)
  {
    ReleasePlan(names, hash, r, s, effect, ok);
    StaleStaysStale(names, hash, r, t, steps, id);
  }

  /** Two plans that the digest tells apart. */
  ghost predicate ToldApart(digest: Plan -> string, p: Plan, q: Plan) {
    && ValidLowerHexDigest(digest(p)) && ValidLowerHexDigest(digest(q))
    && (digest(p) == digest(q) ==> p == q)
  }

  /** A confirmed scope change is the one that was previewed: the same plan, and the
      domain's scope has not been changed in between. */
  lemma AppliesAsPreviewed(digest: Plan -> string, t: Tables, steps: seq<Step>, p: Plan, q: Plan, confirmation: string)
    requires Run(t, steps).Some? && p.domainId in t.domains && p == PlanOf(t, p.domainId, p.requested, p.survey)
    requires q.domainId in Run(t, steps).value.domains && q == PlanOf(Run(t, steps).value, q.domainId, q.requested, q.survey)
    requires EqualPlanDigest(digest(p), confirmation) && EqualPlanDigest(digest(q), confirmation) && ToldApart(digest, p, q)
    ensures p == q && !Changes(t, steps, p.domainId)
  {
    DigestsAgree(digest(p), digest(q), confirmation);
    ChangedIsNewer(t, steps, p.domainId);
  }

  /** A confirmation is spent by the change it confirmed. */
  lemma ConfirmationIsSpent(digest: Plan -> string, t: Tables, steps: seq<Step>, p: Plan, q: Plan, confirmation: string)
    requires p.domainId in t.domains && p == PlanOf(t, p.domainId, p.requested, p.survey)
    requires Run(t, [Scoped(p.domainId, p.requested)] + steps).Some?
    requires var u := Run(t, [Scoped(p.domainId, p.requested)] + steps).value;
             q.domainId in u.domains && q == PlanOf(u, q.domainId, q.requested, q.survey)
    requires EqualPlanDigest(digest(p), confirmation) && ToldApart(digest, p, q)
    ensures !EqualPlanDigest(digest(q), confirmation)
  {
    var all := [Scoped(p.domainId, p.requested)] + steps;
    assert all[0].Scoped? && all[0].id == p.domainId;
    if EqualPlanDigest(digest(q), confirmation) {
      AppliesAsPreviewed(digest, t, all, p, q, confirmation);
      assert false;
    }
  }
}
