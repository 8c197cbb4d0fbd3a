/** One approval request: its row, the process that prompts for it and any
    number of executors that confirm and carry it out, as steps in any order.
    Clocks are arbitrary: nothing assumes that two processes agree on the time. */
module Approval {
  import opened Prelude
  import opened PostfixQueue

  datatype Result = Absent | Creating | Pending | Executing | Approved | Rejected | Expired

  /** The columns of a notification_approvals row that are not fixed in advance. */
  datatype Row = Row(result: Result, usedAt: Option<int>, startedAt: Option<int>, attempts: nat, requestHash: string)

  /** A transport identity together with the actor it is mapped to. */
  datatype Party = Party(transport: string, externalId: string, actorType: string, actorId: string)

  datatype Resource = Resource(kind: string, id: string)

  /** The columns fixed when the request is made, the hash of a confirmation token,
      and the request hash that a queue listing gives for this action and resource. */
  datatype Request = Request(
    party: Party,
    action: string,
    resource: Resource,
    bindingHash: string,
    createdAt: int,
    expiresAt: int,
    tokenHash: string -> Option<string>,
    measure: Listing -> Option<string>)

  datatype Confirmation = Confirmation(party: Party, action: string, resource: Resource, requestHash: string, token: string)

  predicate Binds(c: Request, requestHash: string, k: Confirmation) {
    && k.party == c.party && k.action == c.action && k.resource == c.resource && k.requestHash == requestHash
    && c.tokenHash(k.token) == Some(c.bindingHash)
  }

  /** Everything that happens to the request, database or not. */
  datatype Event =
    | Measured(queue: Listing)
    | Created(requestHash: string)
    | PromptAccepted
    | PromptRefused
    | Activated
    | Invalidated
    | LookedAt(who: nat)
    | HashMatched(who: nat, queue: Listing)
    | Claimed(who: nat, confirmation: Confirmation, now: int, lease: int)
    | Mutated(who: nat)
    | Completed(who: nat, now: int)
    | Retried(who: nat)
    | ExpiredNow

  const NONE := Row(Absent, None, None, 0, "")

  /** The columns each transaction writes; the other events leave the row alone. */
  function Apply(row: Row, e: Event): Row {
    match e
    case Created(requestHash) => Row(Creating, None, None, 0, requestHash)
    case Activated => row.(result := Pending)
    case Invalidated => row.(result := Rejected)
    case Claimed(_, _, now, _) => row.(result := Executing, startedAt := Some(now), attempts := row.attempts + 1)
    case Completed(_, now) => row.(result := Approved, usedAt := Some(now))
    case Retried(_) => row.(result := Pending, startedAt := None)
    case ExpiredNow => row.(result := Expired)
    case _ => row
  }

  function Replay(h: seq<Event>): Row {
    if h == [] then NONE else Apply(Replay(h[..|h| - 1]), h[|h| - 1])
  }

  predicate Live(row: Row) {
    row.usedAt.None? && (row.result == Pending || row.result == Executing)
  }

  /** The WHERE clause of the claiming UPDATE. */
  predicate Claimable(row: Row, now: int, lease: int) {
    && row.usedAt.None?
    && (row.result == Pending || (row.result == Executing && row.startedAt.Some? && row.startedAt.value < now - lease))
  }

  datatype Requester = Idle | HasHash(requestHash: string) | HasCreated | HasPrompted(accepted: bool) | Gone

  /** One executor, from its look at the row to the end of its attempt. */
  datatype Executor =
    | Waiting
    | Looked(req: Row)
    | Cleared(req: Row)
    | Fetched(req: Row)
    | Holding
    | Acted(ok: bool)

  datatype State = State(row: Row, history: seq<Event>, queue: Listing, requester: Requester, executors: map<nat, Executor>)

  function At(s: State, p: nat): Executor {
    if p in s.executors then s.executors[p] else Waiting
  }

  datatype Step =
    | ChangeQueue(queue: Listing)
    | Measure(readable: bool)
    | Create
    | Prompt(accepted: bool)
    | Activate
    | Invalidate
    | Abandon
    | Look(p: nat)
    | Clear(p: nat, authorized: bool, readable: bool)
    | Fetch(p: nat)
    | Confirm(p: nat, confirmation: Confirmation, now: int, configuredLease: int)
    | Mutate(p: nat, ok: bool)
    | Finish(p: nat, now: int, hookOk: bool)
    | Crash(p: nat)

  const DEFAULT_LEASE: int := 120

  /** The lease of an executor: two minutes unless configured. */
  function Lease(configured: int): (lease: int)
    ensures lease > 0
  {
    if configured > 0 then configured else DEFAULT_LEASE
  }

  function Commit(s: State, e: Event): State {
    s.(row := Apply(s.row, e), history := s.history + [e])
  }

  function Move(s: State, p: nat, x: Executor): State {
    s.(executors := s.executors[p := x])
  }

  /** RequestTelegramApproval after its checks: hash the queue snapshot, create,
      prompt, activate or invalidate. */
  function MeasureStep(c: Request, s: State, readable: bool): Option<State> {
    if !s.requester.Idle? then None
    else match c.measure(s.queue)
      case Some(h) => Some(if readable then Commit(s, Measured(s.queue)).(requester := HasHash(h)) else s.(requester := Gone))
      case None => Some(s.(requester := Gone))
  }

  function CreateStep(c: Request, s: State): Option<State> {
    if s.requester.HasHash? && s.row.result == Absent && c.expiresAt > c.createdAt
    then Some(Commit(s, Created(s.requester.requestHash)).(requester := HasCreated)) else None
  }

  function PromptStep(s: State, accepted: bool): Option<State> {
    if s.requester.HasCreated?
    then Some(Commit(s, if accepted then PromptAccepted else PromptRefused).(requester := HasPrompted(accepted))) else None
  }

  function ActivateStep(s: State): Option<State> {
    if s.requester != HasPrompted(true) then None
    else if s.row.result == Creating && s.row.usedAt.None? then Some(Commit(s, Activated).(requester := Gone))
    else Some(s.(requester := Gone))
  }

  function InvalidateStep(s: State): Option<State> {
    if s.requester != HasPrompted(false) then None
    else if s.row.result == Creating || s.row.result == Pending then Some(Commit(s, Invalidated).(requester := Gone))
    else Some(s.(requester := Gone))
  }

  function LookStep(s: State, p: nat): Option<State> {
    if !At(s, p).Waiting? then None else if Live(s.row) then Some(Move(Commit(s, LookedAt(p)), p, Looked(s.row))) else Some(s)
  }

  /** Authorization, and for a pending request the hash of the queue as it is now
      against the stored one. */
  function ClearStep(c: Request, s: State, p: nat, authorized: bool, readable: bool): Option<State> {
    match At(s, p)
    case Looked(req) =>
      if !authorized then Some(Move(s, p, Waiting))
      else if req.result == Executing then Some(Move(s, p, Cleared(req)))
      else if readable && c.measure(s.queue) == Some(req.requestHash)
      then Some(Move(Commit(s, HashMatched(p, s.queue)), p, Cleared(req)))
      else Some(Move(s, p, Waiting))
    case _ => None
  }

  /** Claim's own read of the row. */
  function FetchStep(s: State, p: nat): Option<State> {
    match At(s, p)
    case Cleared(_) => Some(Move(s, p, Fetched(s.row)))
    case _ => None
  }

  datatype Verdict = Denied | Lapsed | Proceed

  /** Claim's checks on the row it read. */
  function Judge(c: Request, r: Row, k: Confirmation, now: int, lease: int): Verdict {
    if !Live(r) then Denied
    else if r.result == Executing && (r.startedAt.None? || now - r.startedAt.value < lease) then Denied
    else if now < c.createdAt then Denied
    else if now >= c.expiresAt then Lapsed
    else if !Binds(c, r.requestHash, k) then Denied
    else Proceed
  }

  /** The rest of Claim: deny, expire, or the guarded UPDATE. */
  function ConfirmStep(c: Request, s: State, p: nat, k: Confirmation, now: int, lease: int): Option<State> {
    match At(s, p)
    case Fetched(r) =>
      var t := Move(s, p, Waiting);
      (match Judge(c, r, k, now, lease)
       case Denied => Some(t)
       case Lapsed => Some(if s.row.result == Pending || s.row.result == Executing then Commit(t, ExpiredNow) else t)
       case Proceed => Some(if Claimable(s.row, now, lease) then Move(Commit(s, Claimed(p, k, now, lease)), p, Holding) else t))
    case _ => None
  }

  function MutateStep(s: State, p: nat, ok: bool): Option<State> {
    if At(s, p).Holding? then Some(Move(Commit(s, Mutated(p)), p, Acted(ok))) else None
  }

  /** Retry after a failed mutation; Complete after a successful one, unless the
      hook in between fails. */
  function FinishStep(s: State, p: nat, now: int, hookOk: bool): Option<State> {
    match At(s, p)
    case Acted(ok) =>
      var t := Move(s, p, Waiting);
      var executing := s.row.usedAt.None? && s.row.result == Executing;
      Some(if !executing || (ok && !hookOk) then t
           else if ok then Commit(t, Completed(p, now)) else Commit(t, Retried(p)))
    case _ => None
  }

  function Next(c: Request, s: State, step: Step): Option<State> {
    match step
    case ChangeQueue(queue) => Some(s.(queue := queue))
    case Measure(readable) => MeasureStep(c, s, readable)
    case Create => CreateStep(c, s)
    case Prompt(accepted) => PromptStep(s, accepted)
    case Activate => ActivateStep(s)
    case Invalidate => InvalidateStep(s)
    case Abandon => Some(s.(requester := Gone))
    case Look(p) => LookStep(s, p)
    case Clear(p, authorized, readable) => ClearStep(c, s, p, authorized, readable)
    case Fetch(p) => FetchStep(s, p)
    case Confirm(p, k, now, configured) => ConfirmStep(c, s, p, k, now, Lease(configured))
    case Mutate(p, ok) => MutateStep(s, p, ok)
    case Finish(p, now, hookOk) => FinishStep(s, p, now, hookOk)
    case Crash(p) => Some(Move(s, p, Waiting))
  }

  function Run(c: Request, s: State, steps: seq<Step>): Option<State> {
    if steps == [] then Some(s)
    else match Run(c, s, steps[..|steps| - 1])
      case None => None
      case Some(t) => Next(c, t, steps[|steps| - 1])
  }

  predicate Initial(s: State) {
    s.row == NONE && s.history == [] && s.requester == Idle && s.executors == map[]
  }

  // ----- histories ------------------------------------------------------------

  function Claims(h: seq<Event>): nat {
    if h == [] then 0 else Claims(h[..|h| - 1]) + (if h[|h| - 1].Claimed? then 1 else 0)
  }

  function Completions(h: seq<Event>): nat {
    if h == [] then 0 else Completions(h[..|h| - 1]) + (if h[|h| - 1].Completed? then 1 else 0)
  }

  /** Committed claims of `p` that `p` has not yet followed by a mutation call. */
  function Unspent(h: seq<Event>, p: nat): int {
    if h == [] then 0
    else
      var e := h[|h| - 1];
      Unspent(h[..|h| - 1], p) + (if e.Claimed? && e.who == p then 1 else if e.Mutated? && e.who == p then -1 else 0)
  }

  /** Executor `p` matched the hash after its latest look at the row. */
  ghost predicate MatchedSinceLook(h: seq<Event>, p: nat) {
    exists m: nat :: m < |h| && MatchAt(h, p, m)
  }

  ghost predicate MatchAt(h: seq<Event>, p: nat, m: nat)
    requires m < |h|
  {
    h[m].HashMatched? && h[m].who == p && forall x | m < x < |h| :: h[x] != LookedAt(p)
  }

  /** Which event may follow a history. */
  ghost predicate Allowed(c: Request, h: seq<Event>, e: Event) {
    var row := Replay(h);
    match e
    case Measured(queue) => h == [] && c.measure(queue).Some?
    case Created(requestHash) =>
      |h| == 1 && h[0].Measured? && c.measure(h[0].queue) == Some(requestHash) && c.createdAt < c.expiresAt
    case PromptAccepted => row.result != Absent
    case PromptRefused => row.result != Absent
    case Activated => row.result == Creating && PromptAccepted in h
    case Invalidated => row.result == Creating || row.result == Pending
    case LookedAt(_) => Live(row)
    case HashMatched(p, queue) => LookedAt(p) in h && c.measure(queue) == Some(row.requestHash)
    case Claimed(p, k, now, lease) =>
      && Claimable(row, now, lease) && c.createdAt <= now < c.expiresAt && Binds(c, row.requestHash, k) && lease > 0
      && (Claims(h) > 0 || MatchedSinceLook(h, p))
    case Mutated(p) => row.result != Absent && Unspent(h, p) > 0
    case Completed(_, _) => row.result == Executing && row.usedAt.None?
    case Retried(_) => row.result == Executing && row.usedAt.None?
    case ExpiredNow => row.result == Pending || row.result == Executing
  }

  ghost predicate Legal(c: Request, h: seq<Event>) {
    h == [] || (Legal(c, h[..|h| - 1]) && Allowed(c, h[..|h| - 1], h[|h| - 1]))
  }

  lemma Extend(c: Request, h: seq<Event>, e: Event)
    ensures Replay(h + [e]) == Apply(Replay(h), e)
    ensures Legal(c, h + [e]) <==> Legal(c, h) && Allowed(c, h, e)
    ensures Claims(h + [e]) == Claims(h) + (if e.Claimed? then 1 else 0)
    ensures forall p :: Unspent(h + [e], p) == Unspent(h, p) + (if e.Claimed? && e.who == p then 1 else if e.Mutated? && e.who == p then -1 else 0)
    ensures forall x :: x in h + [e] <==> x in h || x == e
  {}

  lemma MatchExtends(h: seq<Event>, e: Event, p: nat)
    requires MatchedSinceLook(h, p) && e != LookedAt(p)
    ensures MatchedSinceLook(h + [e], p)
  {
    var m: nat :| m < |h| && MatchAt(h, p, m);
    assert MatchAt(h + [e], p, m);
  }

  lemma MatchNow(h: seq<Event>, p: nat, queue: Listing)
    ensures MatchedSinceLook(h + [HashMatched(p, queue)], p)
  {
    assert MatchAt(h + [HashMatched(p, queue)], p, |h|);
  }

  /** The requester's position matches the history. */
  ghost predicate RequesterOk(c: Request, s: State) {
    match s.requester
    case Idle => s.history == []
    case HasHash(h) => |s.history| == 1 && s.history[0].Measured? && c.measure(s.history[0].queue) == Some(h)
    case HasCreated => s.row.result == Creating
    case HasPrompted(accepted) => s.row.result == Creating && (accepted ==> PromptAccepted in s.history)
    case Gone => true
  }

  predicate PastCreation(row: Row) {
    row.result != Absent && row.result != Creating
  }

  /** An executor that was cleared on a pending row matched the hash since its look;
      one that was cleared on an executing row came after a claim; a holder's claim
      is unspent. */
  ghost predicate ExecutorOk(s: State, p: nat) {
    && Unspent(s.history, p) >= 0
    && (!At(s, p).Waiting? ==> PastCreation(s.row))
    && match At(s, p)
       case Waiting => true
       case Looked(req) =>
         LookedAt(p) in s.history && req.requestHash == s.row.requestHash && (req.result == Executing ==> Claims(s.history) > 0)
       case Cleared(_) => Claims(s.history) > 0 || MatchedSinceLook(s.history, p)
       case Fetched(req) =>
         req.requestHash == s.row.requestHash && (Claims(s.history) > 0 || MatchedSinceLook(s.history, p))
       case Holding => Unspent(s.history, p) > 0
       case Acted(_) => true
  }

  ghost predicate RowOk(c: Request, s: State) {
    && s.row == Replay(s.history) && Legal(c, s.history)
    && (s.row.result == Absent ==> |s.history| <= 1)
    && (s.row.result == Executing ==> Claims(s.history) > 0)
  }

  ghost predicate Inv(c: Request, s: State) {
    RowOk(c, s) && RequesterOk(c, s) && forall p: nat :: ExecutorOk(s, p)
  }

  lemma MeasuredOnly(h: seq<Event>)
    requires |h| == 1 && h[0].Measured?
    ensures Replay(h) == NONE
  {
    assert h[..0] == [];
  }

  /** Past its creation a request never returns to it, and its hash stays. */
  lemma CreationIsPast(c: Request, h: seq<Event>, e: Event)
    requires PastCreation(Replay(h)) && Allowed(c, h, e)
    ensures PastCreation(Apply(Replay(h), e)) && Apply(Replay(h), e).requestHash == Replay(h).requestHash
  {
    if e.Created? { MeasuredOnly(h); }
  }

  lemma CommitKeeps(c: Request, s: State, e: Event)
    requires RowOk(c, s) && Allowed(c, s.history, e)
    ensures RowOk(c, Commit(s, e))
  {
    Extend(c, s.history, e);
  }

  /** Executors other than the one that acts are not affected by what is committed. */
  lemma OthersKeep(c: Request, s: State, t: State, e: Event, q: nat)
    requires ExecutorOk(s, q) && t.history == s.history + [e] && At(t, q) == At(s, q)
    requires !(e.Mutated? && e.who == q) && e != LookedAt(q)
    requires PastCreation(s.row) ==> PastCreation(t.row) && t.row.requestHash == s.row.requestHash
    ensures ExecutorOk(t, q)
  {
    Extend(c, s.history, e);
    if MatchedSinceLook(s.history, q) { MatchExtends(s.history, e, q); }
  }

  /** A committed event that moves executor `p` at most. */
  lemma CommitAll(c: Request, s: State, e: Event, t: State, p: nat)
    requires Inv(c, s) && Allowed(c, s.history, e)
    requires t.row == Apply(s.row, e) && t.history == s.history + [e]
    requires RequesterOk(c, t) && ExecutorOk(t, p)
    requires forall q | q != p :: At(t, q) == At(s, q) && !(e.Mutated? && e.who == q) && e != LookedAt(q)
    ensures Inv(c, t)
  {
    CommitKeeps(c, s, e);
    if PastCreation(s.row) { CreationIsPast(c, s.history, e); }
    forall q: nat ensures ExecutorOk(t, q) {
      if q != p { OthersKeep(c, s, t, e, q); }
    }
  }

  /** A committed event of the requester. */
  lemma RequesterCommits(c: Request, s: State, e: Event, t: State)
    requires Inv(c, s) && Allowed(c, s.history, e) && !e.Mutated? && !e.LookedAt?
    requires t.row == Apply(s.row, e) && t.history == s.history + [e] && t.executors == s.executors && RequesterOk(c, t)
    ensures Inv(c, t)
  {
    assert ExecutorOk(s, 0);
    if PastCreation(s.row) { CreationIsPast(c, s.history, e); }
    OthersKeep(c, s, t, e, 0);
    CommitAll(c, s, e, t, 0);
  }

  /** A step that commits nothing and moves no executor. */
  lemma NothingCommitted(c: Request, s: State, t: State)
    requires Inv(c, s) && t.row == s.row && t.history == s.history && t.executors == s.executors && RequesterOk(c, t)
    ensures Inv(c, t)
  {
    forall q: nat ensures ExecutorOk(t, q) { assert ExecutorOk(s, q); }
  }

  lemma MeasureKeeps(c: Request, s: State, readable: bool)
    requires Inv(c, s) && MeasureStep(c, s, readable).Some?
    ensures Inv(c, MeasureStep(c, s, readable).value)
  {
    var t := MeasureStep(c, s, readable).value;
    if t.history == s.history {
      NothingCommitted(c, s, t);
    } else {
      Extend(c, s.history, Measured(s.queue));
      RequesterCommits(c, s, Measured(s.queue), t);
    }
  }

  lemma CreateKeeps(c: Request, s: State)
    requires Inv(c, s) && CreateStep(c, s).Some?
    ensures Inv(c, CreateStep(c, s).value)
  {
    var e := Created(s.requester.requestHash);
    Extend(c, s.history, e);
    RequesterCommits(c, s, e, CreateStep(c, s).value);
  }

  lemma PromptKeeps(c: Request, s: State, accepted: bool)
    requires Inv(c, s) && PromptStep(s, accepted).Some?
    ensures Inv(c, PromptStep(s, accepted).value)
  {
    var e := if accepted then PromptAccepted else PromptRefused;
    Extend(c, s.history, e);
    RequesterCommits(c, s, e, PromptStep(s, accepted).value);
  }

  lemma ActivateKeeps(c: Request, s: State)
    requires Inv(c, s) && ActivateStep(s).Some?
    ensures Inv(c, ActivateStep(s).value)
  {
    var t := ActivateStep(s).value;
    if t.history == s.history {
      NothingCommitted(c, s, t);
    } else {
      RequesterCommits(c, s, Activated, t);
    }
  }

  lemma InvalidateKeeps(c: Request, s: State)
    requires Inv(c, s) && InvalidateStep(s).Some?
    ensures Inv(c, InvalidateStep(s).value)
  {
    var t := InvalidateStep(s).value;
    if t.history == s.history {
      NothingCommitted(c, s, t);
    } else {
      RequesterCommits(c, s, Invalidated, t);
    }
  }

  lemma LookKeeps(c: Request, s: State, p: nat)
    requires Inv(c, s) && LookStep(s, p).Some?
    ensures Inv(c, LookStep(s, p).value)
  {
    if Live(s.row) {
      assert ExecutorOk(s, p);
      Extend(c, s.history, LookedAt(p));
      CommitAll(c, s, LookedAt(p), LookStep(s, p).value, p);
    }
  }

  lemma MoveKeeps(c: Request, s: State, p: nat, x: Executor)
    requires Inv(c, s) && ExecutorOk(Move(s, p, x), p)
    ensures Inv(c, Move(s, p, x))
  {
    var t := Move(s, p, x);
    forall q: nat ensures ExecutorOk(t, q) { assert ExecutorOk(s, q); }
  }

  lemma ClearKeeps(c: Request, s: State, p: nat, authorized: bool, readable: bool)
    requires Inv(c, s) && ClearStep(c, s, p, authorized, readable).Some?
    ensures Inv(c, ClearStep(c, s, p, authorized, readable).value)
  {
    assert ExecutorOk(s, p);
    var t := ClearStep(c, s, p, authorized, readable).value;
    if t.history == s.history {
      MoveKeeps(c, s, p, At(t, p));
    } else {
      MatchKeeps(c, s, p);
    }
  }

  lemma MatchKeeps(c: Request, s: State, p: nat)
    requires Inv(c, s) && At(s, p).Looked? && c.measure(s.queue) == Some(At(s, p).req.requestHash)
    ensures Inv(c, Move(Commit(s, HashMatched(p, s.queue)), p, Cleared(At(s, p).req)))
  {
    assert ExecutorOk(s, p);
    Extend(c, s.history, HashMatched(p, s.queue));
    MatchNow(s.history, p, s.queue);
    CommitAll(c, s, HashMatched(p, s.queue), Move(Commit(s, HashMatched(p, s.queue)), p, Cleared(At(s, p).req)), p);
  }

  lemma ConfirmKeeps(c: Request, s: State, p: nat, k: Confirmation, now: int, lease: int)
    requires Inv(c, s) && lease > 0 && ConfirmStep(c, s, p, k, now, lease).Some?
    ensures Inv(c, ConfirmStep(c, s, p, k, now, lease).value)
  {
    assert ExecutorOk(s, p);
    MoveKeeps(c, s, p, Waiting);
    match Judge(c, At(s, p).req, k, now, lease) {
      case Denied =>
      case Lapsed => if s.row.result == Pending || s.row.result == Executing { ExpireKeeps(c, s, p); }
      case Proceed =>
        if Claimable(s.row, now, lease) {
          ClaimIsAllowed(c, s, p, k, now, lease);
          ClaimKeeps(c, s, p, k, now, lease);
        }
    }
  }

  lemma ExpireKeeps(c: Request, s: State, p: nat)
    requires Inv(c, s) && (s.row.result == Pending || s.row.result == Executing)
    ensures Inv(c, Commit(Move(s, p, Waiting), ExpiredNow))
  {
    assert ExecutorOk(s, p);
    Extend(c, s.history, ExpiredNow);
    CommitAll(c, s, ExpiredNow, Commit(Move(s, p, Waiting), ExpiredNow), p);
  }

  lemma ClaimKeeps(c: Request, s: State, p: nat, k: Confirmation, now: int, lease: int)
    requires Inv(c, s) && Allowed(c, s.history, Claimed(p, k, now, lease))
    ensures Inv(c, Move(Commit(s, Claimed(p, k, now, lease)), p, Holding))
  {
    assert ExecutorOk(s, p);
    Extend(c, s.history, Claimed(p, k, now, lease));
    CommitAll(c, s, Claimed(p, k, now, lease), Move(Commit(s, Claimed(p, k, now, lease)), p, Holding), p);
  }

  lemma ClaimIsAllowed(c: Request, s: State, p: nat, k: Confirmation, now: int, lease: int)
    requires RowOk(c, s) && lease > 0 && At(s, p).Fetched? && ExecutorOk(s, p)
    requires Judge(c, At(s, p).req, k, now, lease) == Proceed && Claimable(s.row, now, lease)
    ensures Allowed(c, s.history, Claimed(p, k, now, lease))
  {}

  lemma MutateKeeps(c: Request, s: State, p: nat, ok: bool)
    requires Inv(c, s) && MutateStep(s, p, ok).Some?
    ensures Inv(c, MutateStep(s, p, ok).value)
  {
    assert ExecutorOk(s, p);
    Extend(c, s.history, Mutated(p));
    CommitAll(c, s, Mutated(p), MutateStep(s, p, ok).value, p);
  }

  lemma FinishKeeps(c: Request, s: State, p: nat, now: int, hookOk: bool)
    requires Inv(c, s) && FinishStep(s, p, now, hookOk).Some?
    ensures Inv(c, FinishStep(s, p, now, hookOk).value)
  {
    assert ExecutorOk(s, p);
    var t := FinishStep(s, p, now, hookOk).value;
    if t.history == s.history {
      MoveKeeps(c, s, p, Waiting);
    } else {
      var e := if At(s, p).ok then Completed(p, now) else Retried(p);
      Extend(c, s.history, e);
      CommitAll(c, s, e, t, p);
    }
  }

  /** Every step of every process keeps the invariant. */
  lemma NextKeeps(c: Request, s: State, step: Step)
    requires Inv(c, s) && Next(c, s, step).Some?
    ensures Inv(c, Next(c, s, step).value)
  {
    match step {
      case ChangeQueue(_) => NothingCommitted(c, s, Next(c, s, step).value);
      case Measure(readable) => MeasureKeeps(c, s, readable);
      case Create => CreateKeeps(c, s);
      case Look(p) => LookKeeps(c, s, p);
      case Clear(p, authorized, readable) => ClearKeeps(c, s, p, authorized, readable);
      case Fetch(p) =>
        assert ExecutorOk(s, p);
        MoveKeeps(c, s, p, Fetched(s.row));
      case Confirm(p, k, now, configured) => ConfirmKeeps(c, s, p, k, now, Lease(configured));
      case Mutate(p, ok) => MutateKeeps(c, s, p, ok);
      case Finish(p, now, hookOk) => FinishKeeps(c, s, p, now, hookOk);
      case Crash(p) =>
        assert ExecutorOk(s, p);
        MoveKeeps(c, s, p, Waiting);
      case Prompt(accepted) => PromptKeeps(c, s, accepted);
      case Activate => ActivateKeeps(c, s);
      case Invalidate => InvalidateKeeps(c, s);
      case Abandon => NothingCommitted(c, s, Next(c, s, step).value);
    }
  }

  lemma {:induction false} RunKeeps(c: Request, s: State, steps: seq<Step>)
    requires Inv(c, s) && Run(c, s, steps).Some?
    ensures Inv(c, Run(c, s, steps).value)
  {
    if steps != [] {
      RunKeeps(c, s, steps[..|steps| - 1]);
      NextKeeps(c, Run(c, s, steps[..|steps| - 1]).value, steps[|steps| - 1]);
    }
  }

  /** Runs compose. */
  lemma {:induction false} RunAppend(c: Request, s: State, a: seq<Step>, b: seq<Step>)
    requires Run(c, s, a).Some?
    ensures Run(c, s, a + b) == Run(c, Run(c, s, a).value, b)
  {
    if b == [] {
      assert a + b == a;
    } else {
      assert (a + b)[..|a + b| - 1] == a + b[..|b| - 1];
      RunAppend(c, s, a, b[..|b| - 1]);
    }
  }

  ghost predicate Reachable(c: Request, s: State) {
    exists s0: State, steps: seq<Step> :: Initial(s0) && Run(c, s0, steps) == Some(s)
  }

  /** In every run the row is what its history leaves and the history is legal. */
  lemma ReachableInv(c: Request, s: State)
    requires Reachable(c, s)
    ensures Inv(c, s)
  {
    var s0: State, steps: seq<Step> :| Initial(s0) && Run(c, s0, steps) == Some(s);
    assert forall p: nat :: ExecutorOk(s0, p);
    RunKeeps(c, s0, steps);
  }

  lemma ReachableExtends(c: Request, s: State, steps: seq<Step>)
    requires Reachable(c, s) && Run(c, s, steps).Some?
    ensures Reachable(c, Run(c, s, steps).value)
  {
    var s0: State, before: seq<Step> :| Initial(s0) && Run(c, s0, before) == Some(s);
    RunAppend(c, s0, before, steps);
    assert Run(c, s0, before + steps) == Some(Run(c, s, steps).value);
  }
}
