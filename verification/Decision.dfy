/** Resolving sources to their current governing domains, and the decision for
    one SMTP recipient after alias expansion. */
module DecisionService {
  import opened Prelude
  import opened Names
  import opened Policy
  import opened Provenance
  import opened Paths
  import opened Expansion

  datatype ObjectRow = ObjectRow(enabled: bool, domainId: string)

  datatype DomainRow = DomainRow(name: string, enabled: bool, scope: Scope, revision: int)

  /** The tables that Release locks in SHARE mode. */
  datatype RawTables = RawTables(
    mailboxes: map<string, ObjectRow>,
    aliases: map<string, ObjectRow>,
    senders: map<string, ObjectRow>,
    domains: map<string, DomainRow>)

  /** Domain names are unique (migrations/0001_initial.sql). */
  ghost predicate UniqueNames(t: RawTables) {
    forall i, j | i in t.domains && j in t.domains && t.domains[i].name == t.domains[j].name :: i == j
  }

  type Tables = t: RawTables | UniqueNames(t) witness RawTables(map[], map[], map[], map[])

  /** The row a source refers to. */
  function ObjectFor(t: Tables, source: QueueSource): Option<ObjectRow> {
    var rows := match source.kind
      case AuthenticatedMailbox => t.mailboxes
      case EnvelopeSender => t.mailboxes
      case SystemSender => t.senders
      case UnknownKind(_) => map[]
      case _ => t.aliases;
    if source.objectId in rows then Some(rows[source.objectId]) else None
  }

  /** The current policy of one source; missing, disabled or malformed rows give
      none. */
  function GoverningOf(names: Resolver, t: Tables, source: QueueSource): Option<GoverningDomain> {
    var row := ObjectFor(t, source);
    if row.None? || !row.value.enabled || row.value.domainId !in t.domains then None
    else
      var d := t.domains[row.value.domainId];
      if d.enabled && d.revision > 0 && names.domain(d.name) == Some(d.name) && ValidScope(d.scope)
      then Some(GoverningDomain(d.name, d.scope, d.revision)) else None
  }

  predicate Resolves(names: Resolver, t: Tables, source: QueueSource) {
    ValidSource(names, source) && GoverningOf(names, t, source).Some?
  }

  /** All of a bounded list of sources, or nothing. */
  ghost predicate AllResolve(names: Resolver, t: Tables, sources: seq<QueueSource>) {
    1 <= |sources| <= MAX_QUEUE_SOURCES && forall s | s in sources :: Resolves(names, t, s)
  }

  ghost function CurrentPolicy(names: Resolver, t: Tables, source: QueueSource): GoverningDomain {
    match GoverningOf(names, t, source)
    case Some(g) => g
    case None => GoverningDomain("", Unrestricted, 0)
  }

  ghost function GoverningList(names: Resolver, t: Tables, sources: seq<QueueSource>): seq<GoverningDomain> {
    seq(|sources|, i requires 0 <= i < |sources| => CurrentPolicy(names, t, sources[i]))
  }

  /** resolvePolicySources: one governing entry per source, in order. */
  method ResolvePolicySources(names: Resolver, t: Tables, sources: seq<QueueSource>) returns (r: Option<seq<GoverningDomain>>)
    ensures r.Some? <==> AllResolve(names, t, sources)
    ensures r.Some? ==> r.value == GoverningList(names, t, sources)
  {
    if |sources| == 0 || |sources| > MAX_QUEUE_SOURCES {
      return None;
    }
    for i := 0 to |sources|
      invariant forall k | 0 <= k < i :: ValidSource(names, sources[k])
    {
      if !ValidSource(names, sources[i]) {
        assert sources[i] in sources;
        return None;
      }
    }
    var governing: seq<GoverningDomain> := [];
    for i := 0 to |sources|
      invariant |governing| == i
      invariant forall k | 0 <= k < i :: Resolves(names, t, sources[k]) && governing[k] == GoverningOf(names, t, sources[k]).value
    {
      var g := GoverningOf(names, t, sources[i]);
      if g.None? {
        assert sources[i] in sources;
        return None;
      }
      governing := governing + [g.value];
    }
    assert forall s | s in sources :: Resolves(names, t, s);
    r := Some(governing);
  }

  /** Entries read from one state of the tables never contradict each other. */
  lemma ResolvedIsCoherent(names: Resolver, t: Tables, sources: seq<QueueSource>)
    requires forall s | s in sources :: Resolves(names, t, s)
    ensures Coherent(names, Elements(GoverningList(names, t, sources)))
    ensures forall g | g in GoverningList(names, t, sources) :: Key(names, g) == g.domain
  {
    var list := GoverningList(names, t, sources);
    forall g | g in list ensures ValidEntry(names, g) && Key(names, g) == g.domain {
      var i :| 0 <= i < |list| && list[i] == g;
      assert sources[i] in sources;
    }
    forall g, h | g in list && h in list && g.domain == h.domain ensures g == h {
      var i :| 0 <= i < |list| && list[i] == g;
      var j :| 0 <= j < |list| && list[j] == h;
      assert Resolves(names, t, sources[i]) && Resolves(names, t, sources[j]);
    }
  }

  ghost function SubmissionVerdict(names: Resolver, recipient: string, governing: seq<GoverningDomain>): Decision {
    Verdict(names, Request(Submission, "", recipient, governing))
  }

  /** The first recipient whose verdict is not OK decides. */
  ghost function FirstObstacle(names: Resolver, recipients: seq<string>, governing: seq<GoverningDomain>): Option<string> {
    if recipients == [] then None
    else if SubmissionVerdict(names, recipients[0], governing).action != ActionOK then Some(recipients[0])
    else FirstObstacle(names, recipients[1..], governing)
  }

  /** The permit under these restrictions. */
  function Permit(revisions: map<string, nat>): Decision {
    Decision(ActionOK, if revisions == map[] then ReasonUnrestricted else ReasonSameDomain, revisions)
  }

  /** The refusal under these restrictions. */
  function Refusal(revisions: map<string, nat>): Decision {
    Decision(ActionReject, if |revisions| > 1 then ReasonCrossDomainConflict else ReasonRecipientForbidden, revisions)
  }

  lemma SubmissionAnswers(names: Resolver, recipient: string, governing: seq<GoverningDomain>)
    ensures var v, restricted := SubmissionVerdict(names, recipient, governing), Restricted(names, Elements(governing));
            && (v.action == ActionOK ==> v == Permit(restricted))
            && (v.action == ActionReject ==> v == Refusal(restricted))
            && (v.action == ActionDefer ==> v == UNAVAILABLE)
  {}

  /** The loop of DecideSMTPRecipient over the expanded recipients; `recorded`
      says whether the audit write of a rejection succeeds. */
  method DecideRecipients(names: Resolver, recipients: seq<string>, governing: seq<GoverningDomain>, recorded: bool) returns (d: Decision)
    ensures match FirstObstacle(names, recipients, governing)
            case None => d == Permit(if recipients == [] then map[] else Restricted(names, Elements(governing)))
            case Some(x) =>
              if SubmissionVerdict(names, x, governing).action == ActionReject && recorded
              then d == Refusal(Restricted(names, Elements(governing))) else d == UNAVAILABLE
  {
    var result := Decision(ActionOK, ReasonUnrestricted, map[]);
    for i := 0 to |recipients|
      invariant FirstObstacle(names, recipients, governing) == FirstObstacle(names, recipients[i..], governing)
      invariant result == Permit(if i == 0 then map[] else Restricted(names, Elements(governing)))
    {
      var decision := Evaluate(names, Request(Submission, "", recipients[i], governing));
      assert recipients[i..][0] == recipients[i] && recipients[i..][1..] == recipients[i + 1..];
      SubmissionAnswers(names, recipients[i], governing);
      MergeSame(decision.revisions);
      if decision.action == ActionReject {
        decision := decision.(revisions := result.revisions + decision.revisions);
        if recorded {
          return decision;
        }
        return UNAVAILABLE;
      }
      if decision.action != ActionOK {
        return UNAVAILABLE;
      }
      result := result.(revisions := result.revisions + decision.revisions);
      if decision.reason == ReasonSameDomain {
        result := result.(reason := ReasonSameDomain);
      }
    }
    d := result;
  }

  lemma {:induction false} ObstacleExactly(names: Resolver, recipients: seq<string>, governing: seq<GoverningDomain>)
    ensures FirstObstacle(names, recipients, governing).None? <==>
            forall x | x in recipients :: SubmissionVerdict(names, x, governing).action == ActionOK
    ensures FirstObstacle(names, recipients, governing).Some? ==>
            FirstObstacle(names, recipients, governing).value in recipients
            && SubmissionVerdict(names, FirstObstacle(names, recipients, governing).value, governing).action != ActionOK
  {
    if recipients != [] {
      ObstacleExactly(names, recipients[1..], governing);
      assert recipients == [recipients[0]] + recipients[1..];
    }
  }

  lemma {:induction false} ObstacleIsFirst(names: Resolver, recipients: seq<string>, governing: seq<GoverningDomain>)
    requires Sorted(recipients) && FirstObstacle(names, recipients, governing).Some?
    ensures forall y | y in recipients && SubmissionVerdict(names, y, governing).action != ActionOK ::
              !Less(y, FirstObstacle(names, recipients, governing).value)
  {
    assert recipients == [recipients[0]] + recipients[1..];
    if SubmissionVerdict(names, recipients[0], governing).action == ActionOK {
      ObstacleIsFirst(names, recipients[1..], governing);
    } else {
      forall y | y in recipients ensures !Less(y, recipients[0]) {
        LessIrreflexive(recipients[0]);
        var i :| 0 <= i < |recipients| && recipients[i] == y;
      }
    }
  }

  /** What is asked about one RCPT: the sender's resolved authority (None when it
      could not be established), the alias relation and the policy tables. */
  datatype Question = Question(names: Resolver, authority: Option<seq<QueueSource>>, dir: Directory, tables: Tables, raw: string)

  ghost predicate Normalized(q: Question) {
    NormalizeRecipient(q.names, q.raw).Some?
  }

  ghost function Original(q: Question): string
    requires Normalized(q)
  {
    NormalizeRecipient(q.names, q.raw).value.text
  }

  /** Every source that governs the request. */
  ghost predicate Governing(q: Question, source: QueueSource)
    requires Normalized(q) && q.authority.Some?
  {
    source in q.authority.value || ExpansionSource(BookOf(q.names, q.dir), Original(q), source)
  }

  ghost predicate SourceList(q: Question, sources: seq<QueueSource>)
    requires Normalized(q) && q.authority.Some?
  {
    exists expansion: seq<QueueSource> ::
      && sources == q.authority.value + expansion && Distinct(expansion)
      && forall s :: s in expansion <==> ExpansionSource(BookOf(q.names, q.dir), Original(q), s)
  }

  /** Authority, expansion and policy are all established. */
  ghost predicate Settled(q: Question) {
    && q.authority.Some? && Normalized(q)
    && Expandable(BookOf(q.names, q.dir), Original(q))
    && exists sources :: SourceList(q, sources) && AllResolve(q.names, q.tables, sources)
  }

  /** The final recipient lies in every same-domain-only governing domain. */
  ghost predicate Allowed(q: Question, recipient: string)
    requires Normalized(q) && q.authority.Some?
  {
    && RecipientDomain(q.names, recipient).Some?
    && forall s | Governing(q, s) && GoverningOf(q.names, q.tables, s).Some? ::
         var g := GoverningOf(q.names, q.tables, s).value;
         g.scope == SameDomainOnly ==> g.domain == RecipientDomain(q.names, recipient).value
  }

  /** Any two listings of the same sources resolve alike. */
  lemma ListingsResolveAlike(q: Question, a: seq<QueueSource>, b: seq<QueueSource>)
    requires Normalized(q) && q.authority.Some? && SourceList(q, a) && SourceList(q, b)
    ensures AllResolve(q.names, q.tables, a) <==> AllResolve(q.names, q.tables, b)
  {
    var x: seq<QueueSource> :| a == q.authority.value + x && Distinct(x)
      && forall s :: s in x <==> ExpansionSource(BookOf(q.names, q.dir), Original(q), s);
    var y: seq<QueueSource> :| b == q.authority.value + y && Distinct(y)
      && forall s :: s in y <==> ExpansionSource(BookOf(q.names, q.dir), Original(q), s);
    DistinctCount(x);
    DistinctCount(y);
    assert Elements(x) == Elements(y);
    assert forall s :: s in a <==> s in q.authority.value || s in x;
    assert forall s :: s in b <==> s in q.authority.value || s in y;
  }

  lemma ListedExactly(q: Question, sources: seq<QueueSource>, s: QueueSource)
    requires Normalized(q) && q.authority.Some? && SourceList(q, sources)
    ensures s in sources <==> Governing(q, s)
  {}

  /** Under resolved sources a recipient is permitted exactly when it is allowed,
      and otherwise rejected if its own domain can be read. */
  lemma RecipientVerdict(q: Question, sources: seq<QueueSource>, x: string)
    requires Normalized(q) && q.authority.Some? && SourceList(q, sources) && AllResolve(q.names, q.tables, sources)
    ensures var v := SubmissionVerdict(q.names, x, GoverningList(q.names, q.tables, sources));
            && (v.action == ActionOK <==> Allowed(q, x))
            && (v.action == ActionReject <==> RecipientDomain(q.names, x).Some? && !Allowed(q, x))
  {
    var list := GoverningList(q.names, q.tables, sources);
    ResolvedIsCoherent(q.names, q.tables, sources);
    var req := Request(Submission, "", x, list);
    if RecipientDomain(q.names, x).Some? {
      PermittedExactly(q.names, req);
      GoverningEntries(q, sources, RecipientDomain(q.names, x).value);
    }
  }

  lemma GoverningEntries(q: Question, sources: seq<QueueSource>, domain: string)
    requires Normalized(q) && q.authority.Some? && SourceList(q, sources) && AllResolve(q.names, q.tables, sources)
    ensures (forall g | g in GoverningList(q.names, q.tables, sources) && g.scope == SameDomainOnly :: Key(q.names, g) == domain)
            <==> (forall s | Governing(q, s) && GoverningOf(q.names, q.tables, s).Some? ::
                    GoverningOf(q.names, q.tables, s).value.scope == SameDomainOnly
                    ==> GoverningOf(q.names, q.tables, s).value.domain == domain)
  {
    var list := GoverningList(q.names, q.tables, sources);
    ResolvedIsCoherent(q.names, q.tables, sources);
    forall s | Governing(q, s) ensures GoverningOf(q.names, q.tables, s).Some? && GoverningOf(q.names, q.tables, s).value in list {
      ListedExactly(q, sources, s);
      var i :| 0 <= i < |sources| && sources[i] == s;
      assert Resolves(q.names, q.tables, s);
      assert list[i] == GoverningOf(q.names, q.tables, s).value;
    }
    forall g | g in list ensures exists s :: Governing(q, s) && GoverningOf(q.names, q.tables, s) == Some(g) {
      var i :| 0 <= i < |list| && list[i] == g;
      ListedExactly(q, sources, sources[i]);
      assert Resolves(q.names, q.tables, sources[i]);
    }
  }

  ghost predicate RestrictedBy(q: Question, domain: string, revision: nat)
    requires Normalized(q) && q.authority.Some?
  {
    exists s :: Governing(q, s) && GoverningOf(q.names, q.tables, s) == Some(GoverningDomain(domain, SameDomainOnly, revision))
  }

  /** The revisions of the same-domain-only governing domains, and no others. */
  ghost predicate CarriesRestrictions(q: Question, revisions: map<string, nat>)
    requires Normalized(q) && q.authority.Some?
  {
    && (forall d | d in revisions :: RestrictedBy(q, d, revisions[d]))
    && (forall s | Governing(q, s) && GoverningOf(q.names, q.tables, s).Some? ::
          var g := GoverningOf(q.names, q.tables, s).value;
          g.scope == SameDomainOnly ==> g.domain in revisions && revisions[g.domain] == g.revision)
  }

  lemma RestrictionsCarried(q: Question, sources: seq<QueueSource>)
    requires Normalized(q) && q.authority.Some? && SourceList(q, sources) && AllResolve(q.names, q.tables, sources)
    ensures CarriesRestrictions(q, Restricted(q.names, Elements(GoverningList(q.names, q.tables, sources))))
  {
    var list := GoverningList(q.names, q.tables, sources);
    var all := Elements(list);
    var r := Restricted(q.names, all);
    ResolvedIsCoherent(q.names, q.tables, sources);
    forall d | d in r ensures RestrictedBy(q, d, r[d]) {
      var g :| g in all && g.scope == SameDomainOnly && Key(q.names, g) == d;
      RestrictedAt(q.names, all, g);
      var i :| 0 <= i < |list| && list[i] == g;
      ListedExactly(q, sources, sources[i]);
      assert Resolves(q.names, q.tables, sources[i]);
      assert g == GoverningDomain(d, SameDomainOnly, r[d]);
    }
    forall s | Governing(q, s) && GoverningOf(q.names, q.tables, s).Some?
      ensures var g := GoverningOf(q.names, q.tables, s).value;
              g.scope == SameDomainOnly ==> g.domain in r && r[g.domain] == g.revision
    {
      ListedExactly(q, sources, s);
      var i :| 0 <= i < |sources| && sources[i] == s;
      var g := GoverningOf(q.names, q.tables, s).value;
      assert list[i] == g;
      if g.scope == SameDomainOnly { RestrictedAt(q.names, all, g); }
    }
  }

  /** Every final recipient of the request is allowed. */
  ghost predicate AllAllowed(q: Question)
    requires Normalized(q) && q.authority.Some?
  {
    forall x | FinalRecipient(BookOf(q.names, q.dir), Original(q), x) :: Allowed(q, x)
  }

  ghost predicate AllReadable(q: Question)
    requires Normalized(q)
  {
    forall x | FinalRecipient(BookOf(q.names, q.dir), Original(q), x) :: RecipientDomain(q.names, x).Some?
  }

  /** The first final recipient, in byte order, that is not allowed. */
  ghost predicate LeastObstacle(q: Question, x: string)
    requires Normalized(q) && q.authority.Some?
  {
    && FinalRecipient(BookOf(q.names, q.dir), Original(q), x) && !Allowed(q, x)
    && forall y | FinalRecipient(BookOf(q.names, q.dir), Original(q), y) && !Allowed(q, y) :: !Less(y, x)
  }

  /** The answer DecideSMTPRecipient owes. OK exactly when everything is
      established and every final recipient lies in every same-domain-only
      governing domain; rejected exactly when everything is established, the
      rejection is recorded, and the first recipient in byte order that does not has
      a readable domain, so that readable domains leave nothing in between; all else
      is unavailable. Both answers carry exactly those domains' revisions, and their
      reason tells how many there are. */
  ghost predicate CorrectAnswer(q: Question, recorded: bool, d: Decision) {
    && (d.action == ActionOK <==> Settled(q) && AllAllowed(q))
    && (d.action == ActionOK ==> CarriesRestrictions(q, d.revisions) && d == Permit(d.revisions))
    && (d.action == ActionReject <==> Settled(q) && recorded && Rejectable(q))
    && (d.action == ActionReject ==> CarriesRestrictions(q, d.revisions) && d == Refusal(d.revisions))
    && (Settled(q) && recorded && AllReadable(q) ==> d.action == if AllAllowed(q) then ActionOK else ActionReject)
    && (d.action == ActionDefer ==> d == UNAVAILABLE)
  }

  ghost predicate Rejectable(q: Question)
    requires Normalized(q) && q.authority.Some?
  {
    exists x :: LeastObstacle(q, x) && RecipientDomain(q.names, x).Some?
  }

  /** DecideSMTPRecipient. */
  method DecideSMTPRecipient(q: Question, recorded: bool) returns (d: Decision)
    ensures CorrectAnswer(q, recorded, d)
  {
    if q.authority.None? {
      return UNAVAILABLE;
    }
    var expanded := ExpandOriginal(q.names, q.dir, q.raw);
    if expanded.Err? {
      return UNAVAILABLE;
    }
    var sources := q.authority.value + expanded.value.sources;
    var recipients := expanded.value.recipients;
    assert SourceList(q, sources);
    var governing := ResolvePolicySources(q.names, q.tables, sources);
    if governing.None? {
      forall other | SourceList(q, other) ensures !AllResolve(q.names, q.tables, other) {
        ListingsResolveAlike(q, sources, other);
      }
      return UNAVAILABLE;
    }
    assert Settled(q);
    d := DecideRecipients(q.names, recipients, governing.value, recorded);
    Conclude(q, sources, recipients);
    RestrictionsCarried(q, sources);
    AnswerFollows(q, sources, recipients, recorded, d);
  }

  lemma AnswerFollows(q: Question, sources: seq<QueueSource>, recipients: seq<string>, recorded: bool, d: Decision)
    requires Settled(q)
    requires var o := FirstObstacle(q.names, recipients, GoverningList(q.names, q.tables, sources));
             && (o.None? <==> AllAllowed(q))
             && (o.Some? ==> LeastObstacle(q, o.value))
             && (match o
                 case None => d == Permit(d.revisions) && CarriesRestrictions(q, d.revisions)
                 case Some(x) =>
                   if RecipientDomain(q.names, x).Some? && recorded then d == Refusal(d.revisions) && CarriesRestrictions(q, d.revisions)
                   else d == UNAVAILABLE)
    ensures CorrectAnswer(q, recorded, d)
  {
    var o := FirstObstacle(q.names, recipients, GoverningList(q.names, q.tables, sources));
    if Rejectable(q) {
      var x :| LeastObstacle(q, x) && RecipientDomain(q.names, x).Some?;
      assert o.Some?;
      LeastObstacleUnique(q, x, o.value);
    }
    assert o.Some? && AllReadable(q) ==> RecipientDomain(q.names, o.value).Some?;
  }

  /** From the verdicts on the expanded list to the question's own terms. */
  lemma Conclude(q: Question, sources: seq<QueueSource>, recipients: seq<string>)
    requires Normalized(q) && q.authority.Some? && SourceList(q, sources) && AllResolve(q.names, q.tables, sources)
    requires forall x :: x in recipients <==> FinalRecipient(BookOf(q.names, q.dir), Original(q), x)
    requires Sorted(recipients)
    ensures var o := FirstObstacle(q.names, recipients, GoverningList(q.names, q.tables, sources));
            && (o.None? <==> AllAllowed(q))
            && (o.Some? ==> LeastObstacle(q, o.value))
            && (o.Some? ==> (RecipientDomain(q.names, o.value).Some? <==>
                  SubmissionVerdict(q.names, o.value, GoverningList(q.names, q.tables, sources)).action == ActionReject))
  {
    var list := GoverningList(q.names, q.tables, sources);
    ObstacleExactly(q.names, recipients, list);
    forall x ensures SubmissionVerdict(q.names, x, list).action == ActionOK <==> Allowed(q, x) {
      RecipientVerdict(q, sources, x);
    }
    var o := FirstObstacle(q.names, recipients, list);
    if o.Some? {
      RecipientVerdict(q, sources, o.value);
      ObstacleIsFirst(q.names, recipients, list);
    }
  }

  /** There is at most one least obstacle. */
  lemma LeastObstacleUnique(q: Question, x: string, y: string)
    requires Normalized(q) && q.authority.Some? && LeastObstacle(q, x) && LeastObstacle(q, y)
    ensures x == y
  {
    LessTrichotomy(x, y);
  }

  /** With lawful name resolution, the domain of a final recipient is readable
      exactly when its canonical text is within the envelope length bound. */
  lemma ReadableExactly(names: LawfulResolver, dir: Directory, raw: string, x: string)
    requires NormalizeRecipient(names, raw).Some?
    requires FinalRecipient(BookOf(names, dir), NormalizeRecipient(names, raw).value.text, x)
    ensures RecipientDomain(names, x).Some? <==> |x| <= MAX_RECIPIENT_BYTES
  {
    var original := NormalizeRecipient(names, raw).value.text;
    var g := BookGraph(BookOf(names, dir));
    if x == original {
      RenormalizeExactly(names, raw);
    } else {
      var b := LastStep(g, original, x);
      assert BookOf(names, dir).at(b) == Resolve(names, b, dir.rows(b));
      var row := dir.rows(b)[0];
      var i := NormalizedOrigin(names, row.targets.value, x);
      RenormalizeExactly(names, row.targets.value[i]);
    }
  }

  lemma LastStep(g: Graph, a: string, x: string) returns (b: string)
    requires Reaches(g, a, x) && a != x
    ensures x in g.next(b)
  {
    var p :| IsPath(g, p) && p[0] == a && p[|p| - 1] == x;
    b := p[|p| - 2];
    assert p[|p| - 2 + 1] in g.next(p[|p| - 2]);
  }

  /** sortedStringContains: binary search over canonical recipients. */
  method SortedStringContains(values: seq<string>, target: string) returns (found: bool)
    requires Sorted(values)
    ensures found <==> target in values
  {
    var low, high := 0, |values|;
    while low < high
      invariant 0 <= low <= high <= |values|
      invariant forall i | 0 <= i < low :: Less(values[i], target)
      invariant forall i | high <= i < |values| :: !Less(values[i], target)
    {
      var mid := (low + high) / 2;
      if Less(values[mid], target) {
        forall i | 0 <= i <= mid ensures Less(values[i], target) {
          if i < mid { SortedBelow(values[i], values[mid], target); }
        }
        low := mid + 1;
      } else {
        forall i | mid <= i < |values| ensures !Less(values[i], target) {
          if mid < i && Less(values[i], target) { SortedBelow(values[mid], values[i], target); }
        }
        high := mid;
      }
    }
    found := low < |values| && values[low] == target;
    forall i | 0 <= i < |values| && values[i] == target ensures i >= low && values[low] == target {
      LessIrreflexive(target);
      LessTrichotomy(values[low], target);
    }
  }

  lemma SortedBelow(a: string, b: string, c: string)
    requires !Less(b, a) && Less(b, c)
    ensures Less(a, c)
  {}
}
