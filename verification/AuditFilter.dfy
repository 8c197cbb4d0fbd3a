/** The audit query: the SQL WHERE clause that auditWhere builds selects the rows
    that FilterAudit keeps. */
module AuditFilter {
  import opened Prelude

  datatype Event = Event(
    time: int,
    actorType: string,
    actorId: string,
    action: string,
    resourceType: string,
    resourceId: string,
    result: string,
    correlationId: string,
    errorCode: string)

  /** An absent bound is Go's zero time. */
  datatype Filter = Filter(
    from: Option<int>,
    to: Option<int>,
    actorType: string,
    actorId: string,
    action: string,
    resourceType: string,
    resourceId: string,
    result: string,
    correlationId: string,
    errorCode: string)

  predicate Matches(want: string, have: string) {
    want == "" || want == have
  }

  /** The filter's meaning. */
  predicate Keeps(f: Filter, e: Event) {
    && (f.from.Some? ==> f.from.value <= e.time) && (f.to.Some? ==> e.time <= f.to.value)
    && Matches(f.actorType, e.actorType) && Matches(f.actorId, e.actorId) && Matches(f.action, e.action)
    && Matches(f.resourceType, e.resourceType) && Matches(f.resourceId, e.resourceId) && Matches(f.result, e.result)
    && Matches(f.correlationId, e.correlationId) && Matches(f.errorCode, e.errorCode)
  }

  function Kept(f: Filter, events: seq<Event>): seq<Event> {
    if events == [] then []
    else Kept(f, events[..|events| - 1]) + (if Keeps(f, events[|events| - 1]) then [events[|events| - 1]] else [])
  }

  /** FilterAudit: one pass with an early continue per unmet condition. */
  method FilterAudit(events: seq<Event>, f: Filter) returns (out: seq<Event>)
    ensures out == Kept(f, events)
  {
    out := [];
    for i := 0 to |events|
      invariant out == Kept(f, events[..i])
    {
      var e := events[i];
      assert events[..i + 1][..i] == events[..i];
      if f.from.Some? && e.time < f.from.value { continue; }
      if f.to.Some? && e.time > f.to.value { continue; }
      if f.actorType != "" && e.actorType != f.actorType { continue; }
      if f.actorId != "" && e.actorId != f.actorId { continue; }
      if f.action != "" && e.action != f.action { continue; }
      if f.resourceType != "" && e.resourceType != f.resourceType { continue; }
      if f.resourceId != "" && e.resourceId != f.resourceId { continue; }
      if f.result != "" && e.result != f.result { continue; }
      if f.correlationId != "" && e.correlationId != f.correlationId { continue; }
      if f.errorCode != "" && e.errorCode != f.errorCode { continue; }
      out := out + [e];
    }
    assert events[..|events|] == events;
  }

  // ----- the SQL side -----------------------------------------------------------------

  datatype Column = ActorType | ActorId | Action | ResourceType | ResourceId | ResultColumn | CorrelationId | ErrorCode

  datatype Expr = TimeFrom | TimeTo | Equals(column: Column)

  datatype Value = Time(at: int) | Text(text: string)

  /** `expr $n`: a comparison with the nth argument, counted from one. */
  datatype Clause = Clause(expr: Expr, placeholder: nat)

  datatype Query = Query(clauses: seq<Clause>, args: seq<Value>)

  datatype Truth = True | False | Unknown

  /** A text column as stored; an empty error code is stored as NULL. */
  function Stored(e: Event, c: Column): Option<string> {
    match c
    case ActorType => Some(e.actorType)
    case ActorId => Some(e.actorId)
    case Action => Some(e.action)
    case ResourceType => Some(e.resourceType)
    case ResourceId => Some(e.resourceId)
    case ResultColumn => Some(e.result)
    case CorrelationId => Some(e.correlationId)
    case ErrorCode => if e.errorCode == "" then None else Some(e.errorCode)
  }

  function Known(b: bool): Truth {
    if b then True else False
  }

  /** A comparison under SQL's three-valued logic; a missing argument or one of the
      wrong type would be an error, which never counts as true. */
  function Compare(x: Expr, v: Value, e: Event): Truth {
    match (x, v)
    case (TimeFrom, Time(at)) => Known(e.time >= at)
    case (TimeTo, Time(at)) => Known(e.time <= at)
    case (Equals(c), Text(text)) => (match Stored(e, c) case None => Unknown case Some(s) => Known(s == text))
    case _ => Unknown
  }

  function Eval(q: Query, k: Clause, e: Event): Truth {
    if 1 <= k.placeholder <= |q.args| then Compare(k.expr, q.args[k.placeholder - 1], e) else Unknown
  }

  /** The conjunction of the clauses; no clause at all selects everything. */
  function EvalAll(q: Query, clauses: seq<Clause>, e: Event): Truth {
    if clauses == [] then True
    else
      var rest, last := EvalAll(q, clauses[..|clauses| - 1], e), Eval(q, clauses[|clauses| - 1], e);
      if rest == False || last == False then False else if rest == True && last == True then True else Unknown
  }

  predicate Selects(q: Query, e: Event) {
    EvalAll(q, q.clauses, e) == True
  }

  /** Placeholders already issued stay within the arguments. */
  predicate Numbered(q: Query) {
    forall k | k in q.clauses :: 1 <= k.placeholder <= |q.args|
  }

  lemma {:induction false} MoreArguments(q: Query, r: Query, clauses: seq<Clause>, e: Event)
    requires |q.args| <= |r.args| && r.args[..|q.args|] == q.args
    requires forall k | k in clauses :: 1 <= k.placeholder <= |q.args|
    ensures EvalAll(r, clauses, e) == EvalAll(q, clauses, e)
  {
    if clauses != [] {
      var last := clauses[|clauses| - 1];
      assert last in clauses;
      assert r.args[last.placeholder - 1] == q.args[last.placeholder - 1];
      MoreArguments(q, r, clauses[..|clauses| - 1], e);
    }
  }

  lemma AddedClause(q: Query, x: Expr, v: Value, e: Event)
    requires Numbered(q)
    ensures var r := Query(q.clauses + [Clause(x, |q.args| + 1)], q.args + [v]);
            Selects(r, e) <==> Selects(q, e) && Compare(x, v, e) == True
  {
    var r := Query(q.clauses + [Clause(x, |q.args| + 1)], q.args + [v]);
    assert r.clauses[..|q.clauses|] == q.clauses;
    MoreArguments(q, r, q.clauses, e);
  }

  /** The `n`th condition of a filter, in the order both sides test them. */
  predicate Wanted(f: Filter, n: nat, e: Event) {
    match n
    case 0 => f.from.Some? ==> f.from.value <= e.time
    case 1 => f.to.Some? ==> e.time <= f.to.value
    case 2 => Matches(f.actorType, e.actorType)
    case 3 => Matches(f.actorId, e.actorId)
    case 4 => Matches(f.action, e.action)
    case 5 => Matches(f.resourceType, e.resourceType)
    case 6 => Matches(f.resourceId, e.resourceId)
    case 7 => Matches(f.result, e.result)
    case 8 => Matches(f.correlationId, e.correlationId)
    case 9 => Matches(f.errorCode, e.errorCode)
    case _ => true
  }

  predicate KeepsFirst(f: Filter, n: nat, e: Event) {
    forall k | 0 <= k < n :: Wanted(f, k, e)
  }

  lemma KeepsAll(f: Filter, e: Event)
    ensures KeepsFirst(f, 10, e) <==> Keeps(f, e)
  {
    if KeepsFirst(f, 10, e) {
      assert Wanted(f, 0, e) && Wanted(f, 1, e) && Wanted(f, 2, e) && Wanted(f, 3, e) && Wanted(f, 4, e);
      assert Wanted(f, 5, e) && Wanted(f, 6, e) && Wanted(f, 7, e) && Wanted(f, 8, e) && Wanted(f, 9, e);
    }
  }

  /** The query so far selects by the first `n` conditions. */
  ghost predicate Builds(q: Query, f: Filter, n: nat) {
    Numbered(q) && forall e :: Selects(q, e) <==> KeepsFirst(f, n, e)
  }

  /** The clause says what the condition says. */
  ghost predicate Expresses(f: Filter, n: nat, present: bool, x: Expr, v: Value) {
    forall e :: Wanted(f, n, e) <==> (present ==> Compare(x, v, e) == True)
  }

  /** The `add` closure under its guard: the argument first, then the clause
      numbered by it. */
  method Add(q: Query, ghost f: Filter, ghost n: nat, present: bool, x: Expr, v: Value) returns (r: Query)
    requires Builds(q, f, n) && Expresses(f, n, present, x, v)
    ensures Builds(r, f, n + 1)
  {
    r := if present then Query(q.clauses + [Clause(x, |q.args| + 1)], q.args + [v]) else q;
    forall e ensures Selects(r, e) <==> KeepsFirst(f, n + 1, e) {
      AddedClause(q, x, v, e);
      assert KeepsFirst(f, n + 1, e) <==> KeepsFirst(f, n, e) && Wanted(f, n, e);
    }
  }

  lemma TextExpresses(f: Filter, n: nat, c: Column, want: string)
    requires forall e :: Wanted(f, n, e) <==> want == "" || Stored(e, c) == Some(want)
    ensures Expresses(f, n, want != "", Equals(c), Text(want))
  {}

  /** auditWhere: for every filter and every event, the clause with its numbered
      placeholders and arguments selects the event exactly when the filter keeps it. */
  method AuditWhere(f: Filter) returns (q: Query)
    ensures Numbered(q)
    ensures forall e :: Selects(q, e) <==> Keeps(f, e)
  {
    q := Query([], []);
    q := Add(q, f, 0, f.from.Some?, TimeFrom, Time(if f.from.Some? then f.from.value else 0));
    q := Add(q, f, 1, f.to.Some?, TimeTo, Time(if f.to.Some? then f.to.value else 0));
    q := AddText(q, f, 2, ActorType, f.actorType);
    q := AddText(q, f, 3, ActorId, f.actorId);
    q := AddText(q, f, 4, Action, f.action);
    q := AddText(q, f, 5, ResourceType, f.resourceType);
    q := AddText(q, f, 6, ResourceId, f.resourceId);
    q := AddText(q, f, 7, ResultColumn, f.result);
    q := AddText(q, f, 8, CorrelationId, f.correlationId);
    q := AddText(q, f, 9, ErrorCode, f.errorCode);
    forall e ensures KeepsFirst(f, 10, e) <==> Keeps(f, e) { KeepsAll(f, e); }
  }

  method AddText(q: Query, ghost f: Filter, ghost n: nat, c: Column, want: string) returns (r: Query)
    requires Builds(q, f, n) && forall e :: Wanted(f, n, e) <==> want == "" || Stored(e, c) == Some(want)
    ensures Builds(r, f, n + 1)
  {
    TextExpresses(f, n, c, want);
    r := Add(q, f, n, want != "", Equals(c), Text(want));
  }
}
