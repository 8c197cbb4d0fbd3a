/** The release plan: policy consent under the current tables, and the
    confirmation hash that binds a release to one message and one policy state. */
module Confirmation {
  import opened Prelude
  import opened Framing
  import opened Names
  import opened Policy
  import opened Provenance
  import opened DecisionService
  import opened Registry
  import opened HoldProtocol

  const RELEASE_DOMAIN := "gotth-mail/queue-release/v1"

  function ScopeText(scope: Scope): string {
    match scope
    case Unrestricted => "unrestricted"
    case SameDomainOnly => "same_domain_only"
    case UnknownScope(text) => text
  }

  /** One governing entry as a line of the snapshot. */
  function Line(domain: string, state: PolicyState): string {
    NulJoin(domain, ScopeText(state.scope), Decimal(state.revision))
  }

  function PolicyOf(g: GoverningDomain): PolicyState {
    PolicyState(g.scope, g.revision)
  }

  ghost function Domains(governing: set<GoverningDomain>): set<string> {
    set g | g in governing :: g.domain
  }

  lemma SetListing(s: set<string>) returns (listing: seq<string>)
    ensures Elements(listing) == s
  {
    if s == {} {
      listing := [];
    } else {
      var x :| x in s;
      var rest := SetListing(s - {x});
      listing := [x] + rest;
      ElementsAppend([x], rest);
    }
  }

  /** The elements of a set in ascending order. */
  ghost function Ascending(s: set<string>): (r: seq<string>)
    ensures Enumerates(r, s)
  {
    assert exists r :: Enumerates(r, s) by {
      var listing := SetListing(s);
      CanonicalListCorrect(listing);
    }
    var r :| Enumerates(r, s);
    r
  }

  /** What a list of governing entries must be to have a snapshot: canonical
      domains, valid entries, no contradiction. */
  ghost predicate Snapshottable(names: Resolver, governing: seq<GoverningDomain>) {
    && governing != [] && Coherent(names, Elements(governing))
    && forall g | g in governing :: Key(names, g) == g.domain
  }

  ghost function StateAt(governing: set<GoverningDomain>, domain: string): PolicyState
    requires domain in Domains(governing)
  {
    var g :| g in governing && g.domain == domain;
    PolicyOf(g)
  }

  /** The snapshot lines, in order of domain. */
  ghost function Lines(governing: set<GoverningDomain>): seq<string> {
    var domains := Ascending(Domains(governing));
    seq(|domains|, i requires 0 <= i < |domains| =>
      assert domains[i] in Elements(domains);
      Line(domains[i], StateAt(governing, domains[i])))
  }

  /** One state for each domain of the entries in `done`. */
  ghost predicate Tabulated(names: Resolver, done: set<GoverningDomain>, states: map<string, PolicyState>) {
    && states.Keys == Domains(done)
    && (forall g | g in done :: ValidEntry(names, g) && Key(names, g) == g.domain)
    && (forall g | g in done && g.domain in states :: states[g.domain] == PolicyOf(g))
  }

  lemma TabulatedIsCoherent(names: Resolver, done: set<GoverningDomain>, states: map<string, PolicyState>)
    requires Tabulated(names, done, states)
    ensures Coherent(names, done)
    ensures forall d | d in states :: StateAt(done, d) == states[d]
  {}

  /** The first pass of releasePolicySnapshot. */
  method TabulateStates(names: Resolver, governing: seq<GoverningDomain>) returns (r: Option<map<string, PolicyState>>)
    ensures r.Some? <==> (governing == [] || Snapshottable(names, governing))
    ensures r.Some? ==> Tabulated(names, Elements(governing), r.value)
  {
    var states: map<string, PolicyState> := map[];
    for i := 0 to |governing|
      invariant Tabulated(names, Elements(governing[..i]), states)
    {
      var item := governing[i];
      ghost var done := Elements(governing[..i]);
      assert item in Elements(governing) && done <= Elements(governing);
      if !ValidEntry(names, item) || names.domain(item.domain) != Some(item.domain) {
        return None;
      }
      var candidate := PolicyOf(item);
      if item.domain in states && states[item.domain] != candidate {
        TabulateConflict(names, done, states, item);
        return None;
      }
      ElementsPrefix(governing, i);
      TabulateOne(names, done, states, item);
      states := states[item.domain := candidate];
    }
    assert governing[..|governing|] == governing;
    TabulatedIsCoherent(names, Elements(governing), states);
    r := Some(states);
  }

  lemma TabulateConflict(names: Resolver, done: set<GoverningDomain>, states: map<string, PolicyState>, item: GoverningDomain)
    requires Tabulated(names, done, states) && item.domain in states && states[item.domain] != PolicyOf(item)
    requires Key(names, item) == item.domain
    ensures exists g :: g in done && Key(names, g) == Key(names, item) && PolicyOf(g) != PolicyOf(item)
  {}

  lemma TabulateOne(names: Resolver, done: set<GoverningDomain>, states: map<string, PolicyState>, item: GoverningDomain)
    requires Tabulated(names, done, states)
    requires ValidEntry(names, item) && Key(names, item) == item.domain
    requires item.domain in states ==> states[item.domain] == PolicyOf(item)
    ensures Tabulated(names, done + {item}, states[item.domain := PolicyOf(item)])
  {}

  datatype Snapshot = Snapshot(revisions: map<string, nat>, lines: seq<string>)

  /** releasePolicySnapshot. */
  method ReleasePolicySnapshot(names: Resolver, governing: seq<GoverningDomain>) returns (r: Option<Snapshot>)
    ensures r.Some? <==> Snapshottable(names, governing)
    ensures r.Some? ==> r.value.lines == Lines(Elements(governing))
    ensures r.Some? ==> r.value.revisions.Keys == Domains(Elements(governing))
    ensures r.Some? ==> forall g | g in governing :: g.domain in r.value.revisions && r.value.revisions[g.domain] == g.revision
  {
    var tabulated := TabulateStates(names, governing);
    if tabulated.None? { return None; }
    var states := tabulated.value;
    if states == map[] {
      assert governing != [] ==> governing[0].domain in Domains(Elements(governing));
      return None;
    }
    assert governing == [] ==> Domains(Elements(governing)) == {};
    var revisions, lines := RenderStates(names, Elements(governing), states);
    r := Some(Snapshot(revisions, lines));
  }

  /** The second pass: revisions and lines in order of domain. */
  method RenderStates(names: Resolver, ghost governing: set<GoverningDomain>, states: map<string, PolicyState>)
    returns (revisions: map<string, nat>, lines: seq<string>)
    requires Tabulated(names, governing, states)
    ensures lines == Lines(governing) && revisions.Keys == states.Keys
    ensures forall d | d in states :: revisions[d] == states[d].revision
  {
    var domains := SortedKeys(states.Keys);
    revisions, lines := map[], [];
    for i := 0 to |domains|
      invariant Rendered(states, domains, i, revisions, lines)
    {
      RenderOne(states, domains, i, revisions, lines);
      var item := states[domains[i]];
      revisions := revisions[domains[i] := item.revision];
      lines := lines + [Line(domains[i], item)];
    }
    RenderedAll(names, governing, states, domains, revisions, lines);
  }

  /** The first `i` domains are rendered. */
  ghost predicate Rendered(states: map<string, PolicyState>, domains: seq<string>, i: nat, revisions: map<string, nat>, lines: seq<string>)
    requires i <= |domains|
  {
    && |lines| == i && revisions.Keys == Elements(domains[..i])
    && (forall k | 0 <= k < i :: domains[k] in states && lines[k] == Line(domains[k], states[domains[k]]))
    && (forall d | d in revisions :: d in states && revisions[d] == states[d].revision)
  }

  lemma RenderOne(states: map<string, PolicyState>, domains: seq<string>, i: nat, revisions: map<string, nat>, lines: seq<string>)
    requires i < |domains| && Enumerates(domains, states.Keys) && Rendered(states, domains, i, revisions, lines)
    ensures domains[i] in states
    ensures Rendered(states, domains, i + 1, revisions[domains[i] := states[domains[i]].revision], lines + [Line(domains[i], states[domains[i]])])
  {
    assert domains[i] in Elements(domains);
    ElementsPrefix(domains, i);
  }

  lemma RenderedAll(names: Resolver, governing: set<GoverningDomain>, states: map<string, PolicyState>, domains: seq<string>,
                    revisions: map<string, nat>, lines: seq<string>)
    requires Tabulated(names, governing, states) && Enumerates(domains, states.Keys)
    requires Rendered(states, domains, |domains|, revisions, lines)
    ensures lines == Lines(governing) && revisions.Keys == states.Keys
    ensures forall d | d in states :: revisions[d] == states[d].revision
  {
    assert domains[..|domains|] == domains;
    EnumerationUnique(domains, Ascending(Domains(governing)), states.Keys);
    TabulatedIsCoherent(names, governing, states);
  }

  // ----- the plan -----------------------------------------------------------

  ghost function TransportVerdict(names: Resolver, r: Record, t: Tables, recipient: string): Decision {
    Verdict(names, Request(Transport, r.queueId, recipient, GoverningList(names, t, r.sources)))
  }

  /** Every recorded recipient may be delivered under these tables. */
  ghost predicate Permitted(names: Resolver, r: Record, t: Tables) {
    AllResolve(names, t, r.sources) && forall x | x in r.recipients :: TransportVerdict(names, r, t, x).action == ActionOK
  }

  ghost function PlanValues(r: Record, governing: set<GoverningDomain>): seq<string> {
    [RELEASE_DOMAIN, r.queueId, r.fingerprint, r.recipientDigest, r.sourceDigest] + Lines(governing)
  }

  /** The policy in force for a record: its set of (domain, scope, revision). */
  ghost function InForcePolicy(names: Resolver, r: Record, t: Tables): set<GoverningDomain> {
    Elements(GoverningList(names, t, r.sources))
  }

  /** The confirmation hash a release needs, when policy permits one. */
  ghost function PlanHash(names: Resolver, hash: string -> string, r: Record, t: Tables): Option<string> {
    if Permitted(names, r, t) then Some(hash(Frame(PlanValues(r, InForcePolicy(names, r, t))))) else None
  }

  /** The loop of previewRecord over the recorded recipients. */
  method RecipientsPass(names: Resolver, queueId: string, recipients: seq<string>, governing: seq<GoverningDomain>) returns (ok: bool)
    ensures ok <==> forall x | x in recipients :: Verdict(names, Request(Transport, queueId, x, governing)).action == ActionOK
  {
    for i := 0 to |recipients|
      invariant forall k | 0 <= k < i :: Verdict(names, Request(Transport, queueId, recipients[k], governing)).action == ActionOK
    {
      var decision := Evaluate(names, Request(Transport, queueId, recipients[i], governing));
      if decision.action != ActionOK {
        assert recipients[i] in recipients;
        return false;
      }
    }
    ok := true;
  }

  /** previewRecord. */
  method PreviewRecord(names: Resolver, hash: string -> string, r: Record, state: HoldState, t: Tables) returns (plan: Option<string>)
    ensures plan == if Releasable(state) || state == Released then PlanHash(names, hash, r, t) else None
  {
    if !Releasable(state) && state != Released { return None; }
    var resolved := ResolvePolicySources(names, t, r.sources);
    if resolved.None? { return None; }
    var passed := RecipientsPass(names, r.queueId, r.recipients, resolved.value);
    if !passed { return None; }
    plan := ConfirmPlan(names, hash, r, t, resolved.value);
  }

  method ConfirmPlan(names: Resolver, hash: string -> string, r: Record, ghost t: Tables, governing: seq<GoverningDomain>) returns (plan: Option<string>)
    requires AllResolve(names, t, r.sources) && governing == GoverningList(names, t, r.sources)
    ensures plan == Some(hash(Frame(PlanValues(r, Elements(governing)))))
  {
    PermittedIsSnapshottable(names, r, t);
    var snapshot := ReleasePolicySnapshot(names, governing);
    if snapshot.None? { return None; }
    var values := [RELEASE_DOMAIN, r.queueId, r.fingerprint, r.recipientDigest, r.sourceDigest] + snapshot.value.lines;
    var digest := DigestStrings(hash, values);
    plan := Some(digest);
  }

  lemma ScopeTextsDiffer(a: Scope, b: Scope)
    requires ValidScope(a) && ValidScope(b)
    ensures ScopeText(a) == ScopeText(b) ==> a == b
    ensures NulFree(ScopeText(a))
  {}

  /** A line determines its entry. */
  lemma LineInjective(names: LawfulResolver, g: GoverningDomain, h: GoverningDomain)
    requires ValidEntry(names, g) && Key(names, g) == g.domain && ValidEntry(names, h) && Key(names, h) == h.domain
    requires Line(g.domain, PolicyOf(g)) == Line(h.domain, PolicyOf(h))
    ensures g == h
  {
    assert Canonical(names, g.domain) && Canonical(names, h.domain);
    ScopeTextsDiffer(g.scope, h.scope);
    ScopeTextsDiffer(h.scope, g.scope);
    NulJoinInjective(g.domain, ScopeText(g.scope), Decimal(g.revision), h.domain, ScopeText(h.scope), Decimal(h.revision));
    DecimalInjective(g.revision, h.revision);
  }

  lemma LineOf(names: Resolver, governing: set<GoverningDomain>, i: nat) returns (g: GoverningDomain)
    requires i < |Lines(governing)|
    ensures g in governing && g.domain == Ascending(Domains(governing))[i] && Lines(governing)[i] == Line(g.domain, PolicyOf(g))
  {
    var domains := Ascending(Domains(governing));
    assert domains[i] in Elements(domains);
    g :| g in governing && g.domain == domains[i] && PolicyOf(g) == StateAt(governing, domains[i]);
  }

  /** Equal snapshots come from equal sets of entries. */
  lemma LinesDetermine(names: LawfulResolver, a: seq<GoverningDomain>, b: seq<GoverningDomain>)
    requires Snapshottable(names, a) && Snapshottable(names, b) && Lines(Elements(a)) == Lines(Elements(b))
    ensures Elements(a) <= Elements(b)
  {
    forall g | g in Elements(a) ensures g in Elements(b) {
      var domains := Ascending(Domains(Elements(a)));
      assert g.domain in Elements(domains);
      var i :| 0 <= i < |domains| && domains[i] == g.domain;
      var twin := LineOf(names, Elements(a), i);
      assert Key(names, g) == Key(names, twin);
      var h := LineOf(names, Elements(b), i);
      LineInjective(names, g, h);
    }
  }

  /** Hash collisions aside, equal confirmations are for the same arrival with the
      same recipient and source digests under the same set of (domain, scope,
      revision); a confirmation cannot outlive any change of either. */
  lemma ConfirmationBinds(names: LawfulResolver, hash: string -> string, r: Record, t: Tables, r': Record, t': Tables)
    requires Permitted(names, r, t) && Permitted(names, r', t')
    requires PlanHash(names, hash, r, t) == PlanHash(names, hash, r', t')
    requires var a, b := PlanValues(r, InForcePolicy(names, r, t)), PlanValues(r', InForcePolicy(names, r', t'));
             Framable(a) && Framable(b) && CollisionFree(hash, {Frame(a), Frame(b)})
    ensures r.queueId == r'.queueId && r.fingerprint == r'.fingerprint
    ensures r.recipientDigest == r'.recipientDigest && r.sourceDigest == r'.sourceDigest
    ensures InForcePolicy(names, r, t) == InForcePolicy(names, r', t')
  {
    var a, b := PlanValues(r, InForcePolicy(names, r, t)), PlanValues(r', InForcePolicy(names, r', t'));
    DigestInjective(hash, a, b);
    assert a[1] == b[1] && a[2] == b[2] && a[3] == b[3] && a[4] == b[4];
    assert a[5..] == Lines(InForcePolicy(names, r, t)) && b[5..] == Lines(InForcePolicy(names, r', t'));
    PermittedIsSnapshottable(names, r, t);
    PermittedIsSnapshottable(names, r', t');
    LinesDetermine(names, GoverningList(names, t, r.sources), GoverningList(names, t', r'.sources));
    LinesDetermine(names, GoverningList(names, t', r'.sources), GoverningList(names, t, r.sources));
  }

  lemma PermittedIsSnapshottable(names: Resolver, r: Record, t: Tables)
    requires AllResolve(names, t, r.sources)
    ensures Snapshottable(names, GoverningList(names, t, r.sources))
  {
    ResolvedIsCoherent(names, t, r.sources);
  }

  /** The hold protocol of one registered message. */
  ghost function SiteOf(names: Resolver, hash: string -> string, r: Record): Site {
    Site((t: Tables) => PlanHash(names, hash, r, t), (m: Metadata) => MatchesQueueMetadata(names, hash, r, m))
  }

  lemma ReleasePlan(names: Resolver, hash: string -> string, r: Record, s: State, effect: bool, ok: bool)
    requires Reachable(SiteOf(names, hash, r), s) && Next(SiteOf(names, hash, r), s, CallRelease(effect, ok)).Some?
    ensures s.owner.Started? && s.owner.job.ReleaseJob? && s.owner.at < |s.log| && s.log[s.owner.at].ReleaseStarted?
    ensures PlanHash(names, hash, r, s.tables) == Some(s.owner.job.confirmation)
  {
    ReachableInv(SiteOf(names, hash, r), s);
  }

  /** Every `postsuper -H` in every run happens while each recorded recipient
      evaluates to OK under the policy tables of that moment, after the move to
      release_reconciling is committed, and under the confirmation for exactly
      that policy. */
  lemma ReleaseOnlyWhenPermitted(names: Resolver, hash: string -> string, r: Record, s: State, effect: bool, ok: bool)
    requires Reachable(SiteOf(names, hash, r), s) && Next(SiteOf(names, hash, r), s, CallRelease(effect, ok)).Some?
    ensures forall x | x in r.recipients :: TransportVerdict(names, r, s.tables, x).action == ActionOK
    ensures s.owner.Started? && s.owner.job.ReleaseJob? && s.owner.at < |s.log| && s.log[s.owner.at].ReleaseStarted?
    ensures s.owner.job.confirmation == hash(Frame(PlanValues(r, InForcePolicy(names, r, s.tables))))
  {
    ReleasePlan(names, hash, r, s, effect, ok);
  }
}
