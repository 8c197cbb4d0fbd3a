/** The approval store and the two services that use it, as they run, with the
    other processes' steps in between. Each run is a run of the protocol. */
module ApprovalService {
  import opened Prelude
  import opened PostfixQueue
  import opened Approval

  /** Whose step it is. */
  datatype Actor = Environment | Service | Executes(p: nat)

  function ActorOf(step: Step): Actor {
    match step
    case ChangeQueue(_) => Environment
    case Look(p) => Executes(p)
    case Clear(p, _, _) => Executes(p)
    case Fetch(p) => Executes(p)
    case Confirm(p, _, _, _) => Executes(p)
    case Mutate(p, _) => Executes(p)
    case Finish(p, _, _) => Executes(p)
    case Crash(p) => Executes(p)
    case _ => Service
  }

  /** The steps of one actor in a run, in order. */
  function Own(trace: seq<Step>, me: Actor): seq<Step> {
    if trace == [] then []
    else Own(trace[..|trace| - 1], me) + (if ActorOf(trace[|trace| - 1]) == me then [trace[|trace| - 1]] else [])
  }

  lemma OwnAppend(trace: seq<Step>, step: Step, me: Actor)
    ensures Own(trace + [step], me) == Own(trace, me) + (if ActorOf(step) == me then [step] else [])
  {
    assert (trace + [step])[..|trace|] == trace;
  }

  /** What happens around one execution: the steps of other processes before each
      of its actions, the answers it gets, its clock, and where it crashes. */
  datatype World = World(
    others: nat -> seq<Step>,
    authorized: bool,
    readable: bool,
    confirmation: Confirmation,
    claimAt: int,
    lease: int,
    mutationOk: bool,
    hookOk: bool,
    finishAt: int,
    breaks: nat -> bool)

  ghost predicate Unbroken(w: World) {
    forall k: nat :: !w.breaks(k)
  }

  /** No other process does anything meanwhile. */
  ghost predicate Quiet(w: World) {
    forall k: nat :: w.others(k) == []
  }

  /** The steps of an execution that goes all the way. */
  function Full(p: nat, w: World): seq<Step> {
    [Look(p), Clear(p, w.authorized, w.readable), Fetch(p), Confirm(p, w.confirmation, w.claimAt, w.lease),
     Mutate(p, w.mutationOk), Finish(p, w.finishAt, w.hookOk)]
  }

  predicate Passes(c: Request, row: Row, queue: Listing, w: World) {
    Live(row) && w.authorized && (row.result == Executing || (w.readable && c.measure(queue) == Some(row.requestHash)))
  }

  /** What it takes for an execution that nothing disturbs to reach the queue. */
  predicate Permitted(c: Request, row: Row, queue: Listing, w: World) {
    && Passes(c, row, queue, w)
    && Judge(c, row, w.confirmation, w.claimAt, Lease(w.lease)) == Proceed && Claimable(row, w.claimAt, Lease(w.lease))
  }

  /** Where an executor stands after `n` of its own steps and nobody else's. */
  predicate Stands(c: Request, s: State, p: nat, w: World, n: nat, t: State) {
    match n
    case 0 => t == s && At(t, p) == Waiting
    case 1 => t.row == s.row && t.queue == s.queue && At(t, p) == if Live(s.row) then Looked(s.row) else Waiting
    case 2 => Live(s.row) && t.row == s.row && At(t, p) == if Passes(c, s.row, s.queue, w) then Cleared(s.row) else Waiting
    case 3 => Passes(c, s.row, s.queue, w) && t.row == s.row && At(t, p) == Fetched(s.row)
    case 4 => Passes(c, s.row, s.queue, w) && At(t, p) == if Permitted(c, s.row, s.queue, w) then Holding else Waiting
    case 5 => Permitted(c, s.row, s.queue, w) && At(t, p) == Acted(w.mutationOk)
    case _ => Permitted(c, s.row, s.queue, w) && At(t, p) == Waiting
  }

  lemma StandsNext(c: Request, s: State, p: nat, w: World, n: nat, t: State)
    requires n < 6 && Stands(c, s, p, w, n, t) && Next(c, t, Full(p, w)[n]).Some?
    ensures Stands(c, s, p, w, n + 1, Next(c, t, Full(p, w)[n]).value)
  {}

  lemma {:induction false} StandsThere(c: Request, s: State, p: nat, w: World, n: nat)
    requires n <= 6 && At(s, p) == Waiting && Run(c, s, Full(p, w)[..n]).Some?
    ensures Stands(c, s, p, w, n, Run(c, s, Full(p, w)[..n]).value)
  {
    if n > 0 {
      assert Full(p, w)[..n][..n - 1] == Full(p, w)[..n - 1];
      StandsThere(c, s, p, w, n - 1);
      StandsNext(c, s, p, w, n - 1, Run(c, s, Full(p, w)[..n - 1]).value);
    }
  }

  /** Undisturbed, an executor that is done went all the way exactly when permitted. */
  lemma Undisturbed(c: Request, s: State, p: nat, w: World, n: nat, t: State)
    requires 0 < n <= 6 && At(s, p) == Waiting && Run(c, s, Full(p, w)[..n]) == Some(t) && At(t, p) == Waiting
    ensures n == 6 <==> Permitted(c, s.row, s.queue, w)
  {
    StandsThere(c, s, p, w, n);
  }

  /** The steps of a request for approval: only a readable queue is measured, only an
      unexpired request is created, and only an accepted prompt activates it. */
  function FullRequest(measured: bool, unexpired: bool, readable: bool, accepted: bool): seq<Step> {
    if !measured then [Measure(readable)]
    else if !unexpired then [Measure(readable), Abandon]
    else [Measure(readable), Create, Prompt(accepted), if accepted then Activate else Invalidate]
  }

  class ApprovalStore {
    const c: Request
    var row: Row
    var history: seq<Event>
    var queue: Listing
    var requester: Requester
    var executors: map<nat, Executor>

    constructor (c: Request, queue: Listing)
      ensures Initial(View()) && Reachable(c, View()) && this.c == c && this.queue == queue
    {
      this.c := c;
      this.queue := queue;
      row, history, requester, executors := NONE, [], Idle, map[];
      new;
      assert Run(c, View(), []) == Some(View());
    }

    function View(): State
      reads this
    {
      State(row, history, queue, requester, executors)
    }

    /** Since `from` the run `trace` happened, in which `me` made exactly the steps `own`. */
    ghost predicate Traced(from: State, trace: seq<Step>, me: Actor, own: seq<Step>)
      reads this
    {
      Run(c, from, trace) == Some(View()) && Own(trace, me) == own
    }

    lemma OneStep(from: State, trace: seq<Step>, before: State, step: Step, me: Actor, own: seq<Step>)
      requires Run(c, from, trace) == Some(before) && Next(c, before, step) == Some(View())
      requires Own(trace, me) == own && ActorOf(step) == me
      ensures Traced(from, trace + [step], me, own + [step])
    {
      OwnAppend(trace, step, me);
      assert (trace + [step])[..|trace|] == trace;
    }

    /** Complete: UPDATE guarded by an unused executing row. */
    method Complete(p: nat, now: int) returns (ok: bool)
      modifies this
      ensures ok <==> old(row).usedAt.None? && old(row).result == Executing
      ensures View() == if ok then Commit(old(View()), Completed(p, now)) else old(View())
    {
      if row.usedAt.Some? || row.result != Executing { return false; }
      row := row.(usedAt := Some(now), result := Approved);
      history := history + [Completed(p, now)];
      ok := true;
    }

    /** Retry: back to pending, under the same guard. */
    method Retry(p: nat) returns (ok: bool)
      modifies this
      ensures ok <==> old(row).usedAt.None? && old(row).result == Executing
      ensures View() == if ok then Commit(old(View()), Retried(p)) else old(View())
    {
      if row.usedAt.Some? || row.result != Executing { return false; }
      row := row.(result := Pending, startedAt := None);
      history := history + [Retried(p)];
      ok := true;
    }

    /** recordDenied for an expired request. */
    method Expire() returns (ok: bool)
      modifies this
      ensures ok <==> old(row).result == Pending || old(row).result == Executing
      ensures View() == if ok then Commit(old(View()), ExpiredNow) else old(View())
    {
      if row.result != Pending && row.result != Executing { return false; }
      row := row.(result := Expired);
      history := history + [ExpiredNow];
      ok := true;
    }

    /** Claim, on the row `r` its Get returned. */
    method Claim(p: nat, r: Row, k: Confirmation, now: int, lease: int) returns (claimed: bool)
      modifies this
      ensures claimed <==> Judge(c, r, k, now, lease) == Proceed && Claimable(old(row), now, lease)
      ensures View() ==
              if claimed then Commit(old(View()), Claimed(p, k, now, lease))
              else if Judge(c, r, k, now, lease) == Lapsed && (old(row).result == Pending || old(row).result == Executing)
              then Commit(old(View()), ExpiredNow) else old(View())
    {
      if r.usedAt.Some? || (r.result != Pending && r.result != Executing) { return false; }
      if r.result == Executing && (r.startedAt.None? || now - r.startedAt.value < lease) { return false; }
      if now < c.createdAt { return false; }
      if now >= c.expiresAt {
        var _ := Expire();
        return false;
      }
      if !Binds(c, r.requestHash, k) { return false; }
      var staleBefore := now - lease;
      if row.usedAt.Some?
         || !(row.result == Pending || (row.result == Executing && row.startedAt.Some? && row.startedAt.value < staleBefore))
      {
        return false;
      }
      row := row.(result := Executing, startedAt := Some(now), attempts := row.attempts + 1);
      history := history + [Claimed(p, k, now, lease)];
      claimed := true;
    }

    /** Steps of other processes and changes of the queue; one that is this process's
        own or cannot happen is skipped. */
    method Interfere(others: seq<Step>, me: Actor, ghost from: State, ghost before: seq<Step>, ghost own: seq<Step>)
      returns (ghost trace: seq<Step>)
      requires Traced(from, before, me, own) && !me.Environment?
      modifies this
      ensures Traced(from, trace, me, own)
      ensures me.Executes? ==> At(View(), me.p) == At(old(View()), me.p)
      ensures me.Service? ==> requester == old(requester)
      ensures others == [] ==> trace == before && View() == old(View())
    {
      trace := before;
      for i := 0 to |others|
        invariant Traced(from, trace, me, own)
        invariant me.Executes? ==> At(View(), me.p) == At(old(View()), me.p)
        invariant me.Service? ==> requester == old(requester)
        invariant i == 0 ==> trace == before && View() == old(View())
      {
        var next := Next(c, View(), others[i]);
        if ActorOf(others[i]) != me && next.Some? {
          ghost var was := View();
          OnlyOwn(was, others[i], me);
          row, history, queue, requester, executors :=
            next.value.row, next.value.history, next.value.queue, next.value.requester, next.value.executors;
          OwnAppend(trace, others[i], me);
          assert (trace + [others[i]])[..|trace|] == trace;
          trace := trace + [others[i]];
        }
      }
    }

    /** A step moves only the process it belongs to. */
    lemma OnlyOwn(s: State, step: Step, me: Actor)
      requires Next(c, s, step).Some? && ActorOf(step) != me
      ensures me.Executes? ==> At(Next(c, s, step).value, me.p) == At(s, me.p)
      ensures me.Service? ==> Next(c, s, step).value.requester == s.requester
    {}

    // ----- ExecuteTelegramApproval --------------------------------------------------

    /** The execution of `p` has made its first `n` steps. */
    ghost predicate Going(from: State, trace: seq<Step>, p: nat, w: World, n: nat)
      requires n <= 6
      reads this
    {
      Traced(from, trace, Executes(p), Full(p, w)[..n]) && (Quiet(w) ==> trace == Full(p, w)[..n])
    }

    lemma OneMore(from: State, trace: seq<Step>, before: State, p: nat, w: World, n: nat)
      requires n < 6 && Run(c, from, trace) == Some(before) && Own(trace, Executes(p)) == Full(p, w)[..n]
      requires Next(c, before, Full(p, w)[n]) == Some(View()) && (Quiet(w) ==> trace == Full(p, w)[..n])
      ensures Going(from, trace + [Full(p, w)[n]], p, w, n + 1)
    {
      OneStep(from, trace, before, Full(p, w)[n], Executes(p), Full(p, w)[..n]);
      assert Full(p, w)[..n + 1] == Full(p, w)[..n] + [Full(p, w)[n]];
    }

    /** ExecuteTelegramApproval: look, authorize and check, claim, mutate, complete
        or retry. Every execution is a run of the protocol in which the executor
        makes exactly the first `n` of its steps, one after the other, and a crash
        only where it breaks off; it ends idle, and it reports an execution exactly
        when it went all the way with a successful mutation and hook. Undisturbed, it
        goes all the way exactly when it is permitted to. */
    method ExecuteTelegramApproval(p: nat, w: World) returns (executed: bool, ghost trace: seq<Step>, ghost n: nat)
      requires At(View(), p) == Waiting && Reachable(c, View())
      modifies this
      ensures Run(c, old(View()), trace) == Some(View()) && At(View(), p) == Waiting && Reachable(c, View())
      ensures n <= 6 && (Own(trace, Executes(p)) == Full(p, w)[..n] || Own(trace, Executes(p)) == Full(p, w)[..n] + [Crash(p)])
      ensures Unbroken(w) ==> Own(trace, Executes(p)) == Full(p, w)[..n]
      ensures executed <==> n == 6 && w.mutationOk && w.hookOk
      ensures Unbroken(w) && Quiet(w) ==> (n == 6 <==> Permitted(c, old(row), old(queue), w))
    {
      ghost var from := View();
      executed, trace, n := Attempt(p, w, from);
      if At(View(), p) != Waiting {
        ghost var was := View();
        executors := executors[p := Waiting];
        OneStep(from, trace, was, Crash(p), Executes(p), Full(p, w)[..n]);
        trace := trace + [Crash(p)];
      } else if Quiet(w) {
        Undisturbed(c, from, p, w, n, View());
      }
      ReachableExtends(c, from, trace);
    }

    /** The attempt, up to where it is refused, breaks off or is done. */
    method Attempt(p: nat, w: World, ghost from: State) returns (executed: bool, ghost trace: seq<Step>, ghost n: nat)
      requires View() == from && At(View(), p) == Waiting
      modifies this
      ensures 0 < n <= 6 && Going(from, trace, p, w, n)
      ensures Unbroken(w) ==> At(View(), p) == Waiting
      ensures executed <==> n == 6 && w.mutationOk && w.hookOk
    {
      executed := false;
      var go;
      go, trace := LookAt(p, w, from);
      n := 1;
      if go {
        go, trace, n := Preflight(p, w, row, from, trace);
      }
      if go {
        go, trace, n := ClaimIt(p, w, from, trace);
      }
      if go {
        executed, trace, n := CarryOut(p, w, from, trace);
      }
    }

    /** The first read of the row. */
    method LookAt(p: nat, w: World, ghost from: State) returns (go: bool, ghost trace: seq<Step>)
      requires View() == from && At(View(), p) == Waiting
      modifies this
      ensures Going(from, trace, p, w, 1)
      ensures if go then At(View(), p) == Looked(row) else At(View(), p) == Waiting
    {
      go := Live(row);
      if go {
        history := history + [LookedAt(p)];
        executors := executors[p := Looked(row)];
      }
      OneMore(from, [], from, p, w, 0);
      trace := [] + [Look(p)];
    }

    /** Authorization, and the preflight of a pending request against the queue as it is now. */
    method Preflight(p: nat, w: World, req: Row, ghost from: State, ghost before: seq<Step>)
      returns (go: bool, ghost trace: seq<Step>, ghost n: nat)
      requires Going(from, before, p, w, 1) && At(View(), p) == Looked(req)
      modifies this
      ensures n <= 6 && Going(from, trace, p, w, n)
      ensures if go then n == 2 && At(View(), p).Cleared? else 0 < n < 6 && (At(View(), p) == Waiting || w.breaks(0))
    {
      n := 1;
      trace := Interfere(w.others(0), Executes(p), from, before, Full(p, w)[..1]);
      if w.breaks(0) { return false, trace, n; }
      ghost var was := View();
      go := Authorize(p, w, req);
      OneMore(from, trace, was, p, w, 1);
      trace, n := trace + [Full(p, w)[1]], 2;
    }

    method Authorize(p: nat, w: World, req: Row) returns (go: bool)
      requires At(View(), p) == Looked(req)
      modifies this
      ensures ClearStep(c, old(View()), p, w.authorized, w.readable) == Some(View())
      ensures At(View(), p) == if go then Cleared(req) else Waiting
    {
      var same := w.readable && c.measure(queue) == Some(req.requestHash);
      go := w.authorized && (req.result == Executing || same);
      if go && req.result != Executing { history := history + [HashMatched(p, queue)]; }
      executors := executors[p := if go then Cleared(req) else Waiting];
    }

    /** Claim: its read of the row, then the rest. */
    method ClaimIt(p: nat, w: World, ghost from: State, ghost before: seq<Step>) returns (go: bool, ghost trace: seq<Step>, ghost n: nat)
      requires Going(from, before, p, w, 2) && At(View(), p).Cleared?
      modifies this
      ensures n <= 6 && Going(from, trace, p, w, n)
      ensures if go then n == 4 && At(View(), p) == Holding
              else 0 < n < 6 && (At(View(), p) == Waiting || w.breaks(1) || w.breaks(2))
    {
      n := 2;
      var fetched;
      go, fetched, trace := FetchRow(p, w, from, before);
      if go {
        n := 3;
        go, trace, n := ClaimRow(p, w, fetched, from, trace);
      }
    }

    /** Claim's own read of the row. */
    method FetchRow(p: nat, w: World, ghost from: State, ghost before: seq<Step>) returns (go: bool, fetched: Row, ghost trace: seq<Step>)
      requires Going(from, before, p, w, 2) && At(View(), p).Cleared?
      modifies this
      ensures if go then Going(from, trace, p, w, 3) && At(View(), p) == Fetched(fetched) else Going(from, trace, p, w, 2) && w.breaks(1)
    {
      trace := Interfere(w.others(1), Executes(p), from, before, Full(p, w)[..2]);
      fetched := row;
      if w.breaks(1) { return false, fetched, trace; }
      ghost var was := View();
      executors := executors[p := Fetched(fetched)];
      OneMore(from, trace, was, p, w, 2);
      trace := trace + [Full(p, w)[2]];
      go := true;
    }

    /** The rest of Claim. */
    method ClaimRow(p: nat, w: World, fetched: Row, ghost from: State, ghost before: seq<Step>)
      returns (go: bool, ghost trace: seq<Step>, ghost n: nat)
      requires Going(from, before, p, w, 3) && At(View(), p) == Fetched(fetched)
      modifies this
      ensures n <= 6 && Going(from, trace, p, w, n)
      ensures if go then n == 4 && At(View(), p) == Holding else 0 < n < 6 && (At(View(), p) == Waiting || w.breaks(2))
    {
      n := 3;
      trace := Interfere(w.others(2), Executes(p), from, before, Full(p, w)[..3]);
      if w.breaks(2) { return false, trace, n; }
      ghost var was := View();
      go := Claim(p, fetched, w.confirmation, w.claimAt, Lease(w.lease));
      executors := executors[p := if go then Holding else Waiting];
      OneMore(from, trace, was, p, w, 3);
      trace, n := trace + [Full(p, w)[3]], 4;
    }

    /** The queue mutation and what is recorded of it. */
    method CarryOut(p: nat, w: World, ghost from: State, ghost before: seq<Step>)
      returns (executed: bool, ghost trace: seq<Step>, ghost n: nat)
      requires Going(from, before, p, w, 4) && At(View(), p) == Holding
      modifies this
      ensures n <= 6 && Going(from, trace, p, w, n)
      ensures n > 0 && (At(View(), p) == Waiting || w.breaks(3) || w.breaks(4))
      ensures executed <==> n == 6 && w.mutationOk && w.hookOk
    {
      executed := false;
      var acted;
      acted, trace := Act(p, w, from, before);
      n := if acted then 5 else 4;
      if acted {
        var recorded;
        recorded, trace := Conclude(p, w, from, trace);
        if recorded { n := 6; }
        executed := recorded && w.mutationOk && w.hookOk;
      }
    }

    /** The queue mutation. */
    method Act(p: nat, w: World, ghost from: State, ghost before: seq<Step>) returns (go: bool, ghost trace: seq<Step>)
      requires Going(from, before, p, w, 4) && At(View(), p) == Holding
      modifies this
      ensures if go then Going(from, trace, p, w, 5) && At(View(), p) == Acted(w.mutationOk) else Going(from, trace, p, w, 4) && w.breaks(3)
    {
      trace := Interfere(w.others(3), Executes(p), from, before, Full(p, w)[..4]);
      if w.breaks(3) { return false, trace; }
      ghost var was := View();
      history := history + [Mutated(p)];
      executors := executors[p := Acted(w.mutationOk)];
      OneMore(from, trace, was, p, w, 4);
      trace := trace + [Full(p, w)[4]];
      go := true;
    }

    /** Retry or Complete. */
    method Conclude(p: nat, w: World, ghost from: State, ghost before: seq<Step>) returns (go: bool, ghost trace: seq<Step>)
      requires Going(from, before, p, w, 5) && At(View(), p) == Acted(w.mutationOk)
      modifies this
      ensures if go then Going(from, trace, p, w, 6) && At(View(), p) == Waiting else Going(from, trace, p, w, 5) && w.breaks(4)
    {
      trace := Interfere(w.others(4), Executes(p), from, before, Full(p, w)[..5]);
      if w.breaks(4) { return false, trace; }
      ghost var was := View();
      Record(p, w);
      assert Full(p, w)[5] == Finish(p, w.finishAt, w.hookOk);
      OneMore(from, trace, was, p, w, 5);
      trace := trace + [Full(p, w)[5]];
      go := true;
    }

    method Record(p: nat, w: World)
      requires At(View(), p) == Acted(w.mutationOk)
      modifies this
      ensures FinishStep(old(View()), p, w.finishAt, w.hookOk) == Some(View()) && At(View(), p) == Waiting
    {
      if !w.mutationOk {
        var _ := Retry(p);
      } else if w.hookOk {
        var _ := Complete(p, w.finishAt);
      }
      executors := executors[p := Waiting];
    }

    // ----- RequestTelegramApproval --------------------------------------------------

    /** RequestTelegramApproval after its checks: the queue is measured, the request
        created with that hash, prompted for, and activated exactly when the prompt
        was accepted, else invalidated. */
    method RequestTelegramApproval(readable: bool, accepted: bool, others: nat -> seq<Step>) returns (ok: bool, ghost trace: seq<Step>)
      requires requester == Idle && Reachable(c, View())
      modifies this
      ensures Run(c, old(View()), trace) == Some(View()) && Reachable(c, View())
      ensures Own(trace, Service) ==
              FullRequest(readable && c.measure(old(queue)).Some?, c.createdAt < c.expiresAt, readable, accepted)
      ensures ok <==> readable && c.measure(old(queue)).Some? && c.createdAt < c.expiresAt && accepted
    {
      ghost var from := View();
      ok := false;
      var requestHash := c.measure(queue);
      if !readable || requestHash.None? {
        requester := Gone;
        OneStep(from, [], from, Measure(readable), Service, []);
        trace := [] + [Measure(readable)];
      } else {
        history := history + [Measured(queue)];
        requester := HasHash(requestHash.value);
        OneStep(from, [], from, Measure(readable), Service, []);
        trace := [] + [Measure(readable)];
        ReachableExtends(c, from, trace);
        ok, trace := CreateAndPrompt(accepted, others, from, trace);
      }
      ReachableExtends(c, from, trace);
    }

    method CreateAndPrompt(accepted: bool, others: nat -> seq<Step>, ghost from: State, ghost before: seq<Step>)
      returns (ok: bool, ghost trace: seq<Step>)
      requires Reachable(c, from) && requester.HasHash? && before != [] && before[0].Measure? && Traced(from, before, Service, [before[0]])
      modifies this
      ensures Run(c, from, trace) == Some(View())
      ensures Own(trace, Service) == FullRequest(true, c.createdAt < c.expiresAt, before[0].readable, accepted)
      ensures ok <==> c.createdAt < c.expiresAt && accepted
    {
      ghost var own := [before[0]];
      ok, trace := CreateRequest(others(0), from, before, own);
      if ok {
        trace := SendPrompt(accepted, others(1), from, trace, own + [Create]);
        trace := Settle(accepted, others(2), from, trace, own + [Create] + [Prompt(accepted)]);
        ok := accepted;
      }
    }

    /** Create: refused for a request that would have expired when it is made. */
    method CreateRequest(others: seq<Step>, ghost from: State, ghost before: seq<Step>, ghost own: seq<Step>)
      returns (ok: bool, ghost trace: seq<Step>)
      requires Reachable(c, from) && requester.HasHash? && Traced(from, before, Service, own)
      modifies this
      ensures ok <==> c.createdAt < c.expiresAt
      ensures Traced(from, trace, Service, own + [if ok then Create else Abandon])
      ensures ok ==> requester == HasCreated
    {
      trace := Interfere(others, Service, from, before, own);
      ghost var was := View();
      ok := c.createdAt < c.expiresAt;
      if ok {
        ReachableExtends(c, from, trace);
        ReachableInv(c, was);
        OnlyMeasured(was);
        row := Row(Creating, None, None, 0, requester.requestHash);
        history := history + [Created(requester.requestHash)];
        requester := HasCreated;
        OneStep(from, trace, was, Create, Service, own);
        trace := trace + [Create];
      } else {
        requester := Gone;
        OneStep(from, trace, was, Abandon, Service, own);
        trace := trace + [Abandon];
      }
    }

    lemma OnlyMeasured(s: State)
      requires Inv(c, s) && s.requester.HasHash?
      ensures s.row == NONE
    {
      MeasuredOnly(s.history);
    }

    method SendPrompt(accepted: bool, others: seq<Step>, ghost from: State, ghost before: seq<Step>, ghost own: seq<Step>)
      returns (ghost trace: seq<Step>)
      requires Traced(from, before, Service, own) && requester == HasCreated
      modifies this
      ensures Traced(from, trace, Service, own + [Prompt(accepted)]) && requester == HasPrompted(accepted)
    {
      trace := Interfere(others, Service, from, before, own);
      ghost var was := View();
      history := history + [if accepted then PromptAccepted else PromptRefused];
      requester := HasPrompted(accepted);
      OneStep(from, trace, was, Prompt(accepted), Service, own);
      trace := trace + [Prompt(accepted)];
    }

    /** Activate or Invalidate: while the requester is at work the row stays `creating`. */
    method Settle(accepted: bool, others: seq<Step>, ghost from: State, ghost before: seq<Step>, ghost own: seq<Step>)
      returns (ghost trace: seq<Step>)
      requires Reachable(c, from) && Traced(from, before, Service, own) && requester == HasPrompted(accepted)
      modifies this
      ensures Traced(from, trace, Service, own + [if accepted then Activate else Invalidate])
      ensures row.result == if accepted then Pending else Rejected
    {
      trace := Interfere(others, Service, from, before, own);
      ghost var was := View();
      ReachableExtends(c, from, trace);
      ReachableInv(c, was);
      CreatingIsUnused(was);
      requester := Gone;
      row := row.(result := if accepted then Pending else Rejected);
      history := history + [if accepted then Activated else Invalidated];
      OneStep(from, trace, was, if accepted then Activate else Invalidate, Service, own);
      trace := trace + [if accepted then Activate else Invalidate];
    }

    lemma CreatingIsUnused(s: State)
      requires Inv(c, s) && s.row.result == Creating
      ensures s.row.usedAt.None?
    {
      UsedIsApproved(c, s.history);
    }
  }

  lemma {:induction false} UsedIsApproved(c: Request, h: seq<Event>)
    requires Legal(c, h)
    ensures Replay(h).usedAt.Some? <==> Replay(h).result == Approved
  {
    if h != [] { UsedIsApproved(c, h[..|h| - 1]); }
  }
}
