/** What every run of the approval protocol guarantees. */
module ApprovalSafety {
  import opened Prelude
  import opened Approval

  predicate Terminal(row: Row) {
    row.result == Approved || row.result == Rejected || row.result == Expired
  }

  /** Attempts count the committed claims, used_at is set exactly in `approved`,
      and a request completes at most once, exactly when it is approved. */
  lemma {:induction false} HistoryFacts(c: Request, h: seq<Event>)
    requires Legal(c, h)
    ensures Replay(h).attempts == Claims(h)
    ensures Replay(h).usedAt.Some? <==> Replay(h).result == Approved
    ensures Completions(h) == if Replay(h).result == Approved then 1 else 0
    ensures Replay(h).result == Absent <==> |h| <= 1
  {
    if h != [] {
      HistoryFacts(c, h[..|h| - 1]);
    }
  }

  /** A request begins with the measurement of the queue and carries its hash for good. */
  lemma {:induction false} Begins(c: Request, h: seq<Event>)
    requires Legal(c, h) && |h| > 1
    ensures h[0].Measured? && h[1].Created? && c.measure(h[0].queue) == Some(Replay(h).requestHash)
    ensures h[1].requestHash == Replay(h).requestHash
  {
    HistoryFacts(c, h[..|h| - 1]);
    if |h| > 2 {
      Begins(c, h[..|h| - 1]);
    }
  }

  lemma RowCounts(c: Request, s: State)
    requires Reachable(c, s)
    ensures s.row.attempts == Claims(s.history)
    ensures s.row.usedAt.Some? <==> s.row.result == Approved
    ensures Completions(s.history) == if s.row.result == Approved then 1 else 0
  {
    ReachableInv(c, s);
    HistoryFacts(c, s.history);
  }

  lemma TerminalStep(c: Request, s: State, step: Step)
    requires Inv(c, s) && Terminal(s.row) && Next(c, s, step).Some?
    ensures Next(c, s, step).value.row == s.row
  {}

  /** Approved, rejected and expired are absorbing in every continuation. */
  lemma {:induction false} TerminalStays(c: Request, s: State, steps: seq<Step>)
    requires Inv(c, s) && Terminal(s.row) && Run(c, s, steps).Some?
    ensures Run(c, s, steps).value.row == s.row
  {
    if steps != [] {
      var shorter := steps[..|steps| - 1];
      TerminalStays(c, s, shorter);
      RunKeeps(c, s, shorter);
      TerminalStep(c, Run(c, s, shorter).value, steps[|steps| - 1]);
    }
  }

  lemma {:induction false} LegalAt(c: Request, h: seq<Event>, i: nat)
    requires Legal(c, h) && i < |h|
    ensures Legal(c, h[..i]) && Allowed(c, h[..i], h[i])
  {
    var shorter := h[..|h| - 1];
    if i < |shorter| {
      LegalAt(c, shorter, i);
      assert shorter[..i] == h[..i];
    }
  }

  // ----- a mutation's antecedents ------------------------------------------------

  /** In every run no executor calls the queue more often than it committed a claim. */
  lemma OneMutationPerClaim(c: Request, s: State, p: nat)
    requires Reachable(c, s)
    ensures Unspent(s.history, p) >= 0
  {
    ReachableInv(c, s);
    assert ExecutorOk(s, p);
  }

  lemma {:induction false} UnspentClaim(h: seq<Event>, p: nat) returns (k: nat)
    requires Unspent(h, p) > 0
    ensures k < |h| && h[k].Claimed? && h[k].who == p
  {
    var last := |h| - 1;
    if h[last].Claimed? && h[last].who == p {
      k := last;
    } else {
      k := UnspentClaim(h[..last], p);
    }
  }

  /** Whoever got past `creating` was activated, after an accepted prompt. */
  lemma {:induction false} ActivatedEarlier(c: Request, h: seq<Event>) returns (a: nat, b: nat)
    requires Legal(c, h) && Replay(h).result in {Pending, Executing, Approved, Expired}
    ensures 1 < b < a < |h| && h[a] == Activated && h[b] == PromptAccepted
  {
    var last := |h| - 1;
    var shorter := h[..last];
    if h[last] == Activated {
      a := last;
      b :| 0 <= b < |shorter| && shorter[b] == PromptAccepted;
      HistoryFacts(c, shorter);
      Begins(c, shorter);
    } else {
      a, b := ActivatedEarlier(c, shorter);
    }
  }

  /** A queue mutation at `i`, the claim behind it, the activation behind that and
      the accepted prompt behind that. */
  predicate Authorized(c: Request, h: seq<Event>, i: nat, k: nat, a: nat, b: nat)
    requires i < |h| && h[i].Mutated?
  {
    && 1 < b < a < k < i && h[1].Created? && h[b] == PromptAccepted && h[a] == Activated
    && h[k].Claimed? && h[k].who == h[i].who
    && Binds(c, h[1].requestHash, h[k].confirmation) && c.createdAt <= h[k].now < c.expiresAt
  }

  /** In every run a queue mutation follows the request's creation, an accepted
      prompt, its activation and a committed claim by the same executor, made by
      the bound party with the bound token while the request was current. */
  lemma MutationIsAuthorized(c: Request, s: State, i: nat) returns (k: nat, a: nat, b: nat)
    requires Reachable(c, s) && i < |s.history| && s.history[i].Mutated?
    ensures Authorized(c, s.history, i, k, a, b)
  {
    ReachableInv(c, s);
    var h := s.history;
    LegalAt(c, h, i);
    k := UnspentClaim(h[..i], h[i].who);
    LegalAt(c, h, k);
    a, b := ActivatedEarlier(c, h[..k]);
    Begins(c, h[..k]);
  }

  // ----- the snapshot behind the first claim --------------------------------------

  /** The attempt of executor `p` that claims at `k`: its look at `l`, its match of the
      request hash at `m`, and no other look in between. */
  ghost predicate Attempt(h: seq<Event>, p: nat, l: nat, m: nat, k: nat)
    requires k < |h|
  {
    && l < m < k && h[l] == LookedAt(p) && h[m].HashMatched? && h[m].who == p
    && forall x | l < x < k :: h[x] != LookedAt(p)
  }

  /** In every run the first claim comes from an attempt that, after its look at the
      row, found the queue to have the very request hash it was measured with when
      the request was made. */
  lemma FirstClaimMatchedHash(c: Request, s: State, k: nat) returns (l: nat, m: nat)
    requires Reachable(c, s) && k < |s.history| && s.history[k].Claimed? && Claims(s.history[..k]) == 0
    ensures Attempt(s.history, s.history[k].who, l, m, k) && s.history[0].Measured?
    ensures c.measure(s.history[m].queue).Some? && c.measure(s.history[m].queue) == c.measure(s.history[0].queue)
  {
    ReachableInv(c, s);
    LegalAt(c, s.history, k);
    l, m := FindAttempt(c, s.history, k);
    MatchAgrees(c, s.history, m);
  }

  lemma FindAttempt(c: Request, h: seq<Event>, k: nat) returns (l: nat, m: nat)
    requires Legal(c, h) && k < |h| && h[k].Claimed? && MatchedSinceLook(h[..k], h[k].who)
    ensures Attempt(h, h[k].who, l, m, k)
  {
    var p := h[k].who;
    var found: nat :| found < |h[..k]| && MatchAt(h[..k], p, found);
    m := found;
    LegalAt(c, h, m);
    l := LatestLook(h[..m], p);
    assert forall x | m < x < k :: h[..k][x] != LookedAt(p);
  }

  /** A match finds the hash that the queue had when it was measured. */
  lemma MatchAgrees(c: Request, h: seq<Event>, m: nat)
    requires Legal(c, h) && m < |h| && h[m].HashMatched?
    ensures h[0].Measured? && c.measure(h[m].queue).Some? && c.measure(h[m].queue) == c.measure(h[0].queue)
  {
    LegalAt(c, h, m);
    MatchNotFirst(c, h, m);
    Begins(c, h[..m]);
  }

  lemma {:induction false} LatestLook(h: seq<Event>, p: nat) returns (l: nat)
    requires LookedAt(p) in h
    ensures l < |h| && h[l] == LookedAt(p) && forall x | l < x < |h| :: h[x] != LookedAt(p)
  {
    var last := |h| - 1;
    if h[last] == LookedAt(p) {
      l := last;
    } else {
      l := LatestLook(h[..last], p);
    }
  }

  lemma MatchNotFirst(c: Request, h: seq<Event>, m: nat)
    requires Legal(c, h) && m < |h| && h[m].HashMatched?
    ensures m > 1
  {
    LegalAt(c, h, m);
    LegalAt(c, h, 0);
  }

  /** One step commits at most one event, and a measurement or match records the
      queue of the state it is made in. */
  lemma StepCommits(c: Request, s: State, step: Step)
    requires Next(c, s, step).Some?
    ensures var t := Next(c, s, step).value;
            || t.history == s.history
            || (|t.history| == |s.history| + 1 && s.history == t.history[..|s.history|] && Records(s, step, t.history[|s.history|]))
  {}

  predicate Records(s: State, step: Step, e: Event) {
    && (e.Measured? ==> step.Measure? && e.queue == s.queue)
    && (e.LookedAt? ==> step == Look(e.who))
    && (e.HashMatched? ==> step.Clear? && step.p == e.who && e.queue == s.queue)
    && (e.Claimed? ==> step.Confirm? && step.p == e.who)
  }

  /** Step `n` of the run is the one that committed event `m`. */
  ghost predicate CommittedBy(c: Request, s0: State, steps: seq<Step>, h: seq<Event>, m: nat, n: nat)
    requires m < |h| && n < |steps|
  {
    && Run(c, s0, steps[..n]).Some? && Run(c, s0, steps[..n + 1]).Some?
    && Run(c, s0, steps[..n]).value.history == h[..m] && Run(c, s0, steps[..n + 1]).value.history == h[..m + 1]
    && Records(Run(c, s0, steps[..n]).value, steps[n], h[m])
  }

  lemma {:induction false} CommittedAt(c: Request, s0: State, steps: seq<Step>, m: nat) returns (n: nat)
    requires Initial(s0) && Run(c, s0, steps).Some? && m < |Run(c, s0, steps).value.history|
    ensures n < |steps| && CommittedBy(c, s0, steps, Run(c, s0, steps).value.history, m, n)
  {
    var last := |steps| - 1;
    var s, t := Run(c, s0, steps[..last]).value, Run(c, s0, steps).value;
    StepCommits(c, s, steps[last]);
    if m < |s.history| {
      n := CommittedAt(c, s0, steps[..last], m);
      assert steps[..last][..n] == steps[..n] && steps[..last][..n + 1] == steps[..n + 1];
      assert s.history[..m] == t.history[..m] && s.history[..m + 1] == t.history[..m + 1];
    } else {
      n := last;
      assert steps[..last + 1] == steps && t.history[..m] == s.history && t.history[..m + 1] == t.history;
    }
  }

  /** Events are committed in order. */
  lemma CommittedInOrder(c: Request, s0: State, steps: seq<Step>, h: seq<Event>, m: nat, n: nat, m': nat, n': nat)
    requires m < m' < |h| && n < |steps| && n' < |steps|
    requires CommittedBy(c, s0, steps, h, m, n) && CommittedBy(c, s0, steps, h, m', n')
    ensures n < n'
  {
    if n' <= n {
      assert steps[..n][..n'] == steps[..n'];
      RunPrefix(c, s0, steps[..n], n');
    }
  }

  lemma {:induction false} RunPrefix(c: Request, s0: State, steps: seq<Step>, n: nat)
    requires n <= |steps| && Run(c, s0, steps).Some?
    ensures Run(c, s0, steps[..n]).Some?
    ensures |Run(c, s0, steps[..n]).value.history| <= |Run(c, s0, steps).value.history|
  {
    if n == |steps| {
      assert steps[..n] == steps;
    } else {
      var last := |steps| - 1;
      StepCommits(c, Run(c, s0, steps[..last]).value, steps[last]);
      RunPrefix(c, s0, steps[..last], n);
      assert steps[..last][..n] == steps[..n];
    }
  }

  /** A waiting executor stays so until it looks at a live row again. */
  lemma {:induction false} StaysWaiting(c: Request, s0: State, steps: seq<Step>, p: nat, from: nat, z: nat)
    requires from <= z <= |steps| && Run(c, s0, steps[..from]).Some? && Run(c, s0, steps[..z]).Some?
    requires At(Run(c, s0, steps[..from]).value, p).Waiting?
    requires var h := Run(c, s0, steps[..z]).value.history;
             forall i | |Run(c, s0, steps[..from]).value.history| <= i < |h| :: h[i] != LookedAt(p)
    ensures At(Run(c, s0, steps[..z]).value, p).Waiting?
    decreases z
  {
    if from < z {
      assert steps[..z][..z - 1] == steps[..z - 1];
      var s, t := Run(c, s0, steps[..z - 1]).value, Run(c, s0, steps[..z]).value;
      StepCommits(c, s, steps[z - 1]);
      assert steps[..z - 1][..from] == steps[..from];
      RunPrefix(c, s0, steps[..z - 1], from);
      assert forall i | 0 <= i < |s.history| :: s.history[i] == t.history[i];
      StaysWaiting(c, s0, steps, p, from, z - 1);
      WaitingStep(c, s, steps[z - 1], p);
    }
  }

  lemma WaitingStep(c: Request, s: State, step: Step, p: nat)
    requires At(s, p).Waiting? && Next(c, s, step).Some?
    ensures At(Next(c, s, step).value, p).Waiting? ||
            (|Next(c, s, step).value.history| > |s.history| && Next(c, s, step).value.history[|s.history|] == LookedAt(p))
  {}

  /** Between the look and the claim of one attempt its executor did not crash. */
  lemma AttemptIsWhole(c: Request, s0: State, steps: seq<Step>, h: seq<Event>, p: nat, l: nat, m: nat, k: nat, x: nat, n: nat, y: nat)
    requires k < |h| && Attempt(h, p, l, m, k) && h[k].Claimed? && h[k].who == p
    requires x < y < n < |steps| && CommittedBy(c, s0, steps, h, l, x) && CommittedBy(c, s0, steps, h, k, n)
    ensures steps[y] != Crash(p)
  {
    if steps[y] == Crash(p) {
      CrashedWaits(c, s0, steps, h, p, l, m, k, x, n, y);
      assert steps[..n + 1][..n] == steps[..n];
      ClaimNeedsFetch(c, Run(c, s0, steps[..n]).value, steps[n], p);
    }
  }

  lemma CrashedWaits(c: Request, s0: State, steps: seq<Step>, h: seq<Event>, p: nat, l: nat, m: nat, k: nat, x: nat, n: nat, y: nat)
    requires k < |h| && Attempt(h, p, l, m, k)
    requires x < y < n < |steps| && CommittedBy(c, s0, steps, h, l, x) && CommittedBy(c, s0, steps, h, k, n)
    requires steps[y] == Crash(p)
    ensures At(Run(c, s0, steps[..n]).value, p).Waiting?
  {
    LookedBy(c, s0, steps, h, l, x, y, n);
    assert steps[..y + 1][..y] == steps[..y];
    var crashed := Run(c, s0, steps[..y + 1]).value;
    assert At(crashed, p).Waiting?;
    var before := Run(c, s0, steps[..n]).value.history;
    forall i | |crashed.history| <= i < |before| ensures before[i] != LookedAt(p) {
      assert before[i] == h[i] && l < i < k;
    }
    StaysWaiting(c, s0, steps, p, y + 1, n);
  }

  lemma ClaimNeedsFetch(c: Request, s: State, step: Step, p: nat)
    requires Next(c, s, step).Some? && |Next(c, s, step).value.history| == |s.history| + 1
    requires Next(c, s, step).value.history[|s.history|].Claimed? && Next(c, s, step).value.history[|s.history|].who == p
    ensures At(s, p).Fetched?
  {}

  /** Once event `l` is committed it stays in the history. */
  lemma LookedBy(c: Request, s0: State, steps: seq<Step>, h: seq<Event>, l: nat, x: nat, y: nat, n: nat)
    requires l < |h| && x < y < n < |steps| && CommittedBy(c, s0, steps, h, l, x) && Run(c, s0, steps[..n]).Some?
    ensures Run(c, s0, steps[..y + 1]).Some? && |Run(c, s0, steps[..y + 1]).value.history| > l
  {
    assert steps[..n][..y + 1] == steps[..y + 1] && steps[..y + 1][..x + 1] == steps[..x + 1];
    RunPrefix(c, s0, steps[..n], y + 1);
    RunPrefix(c, s0, steps[..y + 1], x + 1);
  }

  // ----- consecutive claims --------------------------------------------------------

  predicate Quiet(h: seq<Event>, i: nat, m: nat)
    requires m <= |h|
  {
    forall x | i < x < m :: !h[x].Claimed? && !h[x].Retried?
  }

  lemma {:induction false} StartedSince(c: Request, h: seq<Event>, i: nat, m: nat)
    requires Legal(c, h) && i < m <= |h| && h[i].Claimed? && Quiet(h, i, m)
    ensures Replay(h[..m]).startedAt == Some(h[i].now)
    ensures Replay(h[..m]).result in {Executing, Approved, Expired}
    decreases m
  {
    LegalAt(c, h, m - 1);
    assert h[..m][..m - 1] == h[..m - 1];
    if m > i + 1 {
      StartedSince(c, h, i, m - 1);
    }
  }

  /** Two consecutive claims are separated by a committed retry, or by more than
      the second claimant's lease on the second claimant's clock. */
  lemma ClaimsAreSpaced(c: Request, s: State, i: nat, j: nat)
    requires Reachable(c, s) && i < j < |s.history| && s.history[i].Claimed? && s.history[j].Claimed?
    requires forall x | i < x < j :: !s.history[x].Claimed?
    ensures (exists x :: i < x < j && s.history[x].Retried?) || s.history[j].now - s.history[i].now > s.history[j].lease
  {
    ReachableInv(c, s);
    if Quiet(s.history, i, j) {
      StartedSince(c, s.history, i, j);
      LegalAt(c, s.history, j);
    }
  }
}
