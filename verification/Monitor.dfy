/** Alert de-duplication for one event key, against the grouping of its
    observations into maximal runs of equal state. */
module Monitor {
  import opened Prelude
  import opened Framing

  /** A notification_event_states row. */
  datatype Row = Row(stateHash: string, sequence: nat, pending: Option<string>)

  datatype Op = Observe(state: string, alerting: bool) | Acknowledge(alertId: string)

  /** The alert ID of the key's `n`th state; `prefix` stands for the key. */
  function AlertId(prefix: string, n: nat): string {
    "event-" + prefix + "-" + Decimal(n)
  }

  lemma AlertIdsDiffer(prefix: string, m: nat, n: nat)
    requires m != n
    ensures AlertId(prefix, m) != AlertId(prefix, n)
  {
    if AlertId(prefix, m) == AlertId(prefix, n) {
      SameAlertId(prefix, m, n);
    }
  }

  lemma SameAlertId(prefix: string, m: nat, n: nat)
    requires AlertId(prefix, m) == AlertId(prefix, n)
    ensures m == n
  {
    var head := "event-" + prefix + "-";
    assert AlertId(prefix, m)[|head|..] == Decimal(m) && AlertId(prefix, n)[|head|..] == Decimal(n);
    DecimalInjective(m, n);
  }

  /** The row after one operation on it. */
  function Step(hash: string -> string, prefix: string, row: Option<Row>, op: Op): Option<Row> {
    match op
    case Observe(state, alerting) =>
      var n := if row.None? then 1 else row.value.sequence + 1;
      if row.Some? && row.value.stateHash == hash(state) then row
      else Some(Row(hash(state), n, if alerting then Some(AlertId(prefix, n)) else None))
    case Acknowledge(id) =>
      if row.Some? && row.value.pending == Some(id) then Some(row.value.(pending := None)) else row
  }

  function After(hash: string -> string, prefix: string, h: seq<Op>): Option<Row> {
    if h == [] then None else Step(hash, prefix, After(hash, prefix, h[..|h| - 1]), h[|h| - 1])
  }

  function Pending(row: Option<Row>): Option<string> {
    if row.Some? then row.value.pending else None
  }

  /** The alert that the observation at `j` returns. */
  function Alert(hash: string -> string, prefix: string, h: seq<Op>, j: nat): Option<string>
    requires j < |h|
  {
    Pending(After(hash, prefix, h[..j + 1]))
  }

  class EventState {
    const hash: string -> string
    const prefix: string
    var row: Option<Row>

    constructor (hash: string -> string, prefix: string)
      ensures row == None && this.hash == hash && this.prefix == prefix
    {
      this.hash, this.prefix, row := hash, prefix, None;
    }

    /** Observe: first sight, same state, or a new state. */
    method ObserveState(state: string, alerting: bool) returns (alert: Option<string>)
      modifies this
      ensures row == Step(hash, prefix, old(row), Observe(state, alerting)) && alert == Pending(row)
    {
      var stateHash := hash(state);
      if row.None? {
        alert := if alerting then Some(AlertId(prefix, 1)) else None;
        row := Some(Row(stateHash, 1, alert));
        return;
      }
      if row.value.stateHash == stateHash {
        return row.value.pending;
      }
      var sequence := row.value.sequence + 1;
      alert := if alerting then Some(AlertId(prefix, sequence)) else None;
      row := Some(Row(stateHash, sequence, alert));
    }

    /** Acknowledge: clears the alert only while it is the pending one. */
    method AcknowledgeAlert(id: string) returns (ok: bool)
      modifies this
      ensures row == Step(hash, prefix, old(row), Acknowledge(id))
      ensures ok <==> old(Pending(row)) == Some(id)
    {
      ok := row.Some? && row.value.pending == Some(id);
      if ok { row := Some(row.value.(pending := None)); }
    }
  }

  // ----- runs of equal observations -----------------------------------------------

  /** The latest observation before position `i`, or -1. */
  function LatestBefore(h: seq<Op>, i: nat): (r: int)
    requires i <= |h|
    ensures -1 <= r < i && (r >= 0 ==> h[r].Observe?)
    ensures forall k | r < k < i :: !h[k].Observe?
  {
    if i == 0 then -1 else if h[i - 1].Observe? then i - 1 else LatestBefore(h, i - 1)
  }

  /** An observation that differs from the one before it, or is the first. */
  predicate StartsRun(h: seq<Op>, i: nat) {
    i < |h| && h[i].Observe? && (LatestBefore(h, i) < 0 || h[LatestBefore(h, i)].state != h[i].state)
  }

  /** How many runs start among the first `n` operations. */
  function Runs(h: seq<Op>, n: nat): nat
    requires n <= |h|
  {
    if n == 0 then 0 else Runs(h, n - 1) + (if StartsRun(h, n - 1) then 1 else 0)
  }

  /** Where the run in progress after `n` operations started, or -1. */
  function RunStart(h: seq<Op>, n: nat): (s: int)
    requires n <= |h|
    ensures -1 <= s < n && (s >= 0 ==> StartsRun(h, s))
    ensures forall k | s < k < n :: !StartsRun(h, k)
  {
    if n == 0 then -1 else if StartsRun(h, n - 1) then n - 1 else RunStart(h, n - 1)
  }

  /** The run in progress alerted when it started, and nobody has acknowledged it since. */
  predicate Unacknowledged(prefix: string, h: seq<Op>, n: nat)
    requires n <= |h|
  {
    var s := RunStart(h, n);
    s >= 0 && h[s].alerting && forall k | s < k < n :: h[k] != Acknowledge(AlertId(prefix, Runs(h, n)))
  }

  ghost predicate HashesApart(hash: string -> string, h: seq<Op>) {
    forall i, j | 0 <= i < |h| && 0 <= j < |h| && h[i].Observe? && h[j].Observe? && hash(h[i].state) == hash(h[j].state) ::
      h[i].state == h[j].state
  }

  /** What the row holds after `n` operations, said of the history alone. */
  ghost predicate Describes(hash: string -> string, prefix: string, h: seq<Op>, n: nat, row: Option<Row>)
    requires n <= |h|
  {
    var latest := LatestBefore(h, n);
    if latest < 0 then row == None
    else row == Some(Row(hash(h[latest].state), Runs(h, n),
                         if Unacknowledged(prefix, h, n) then Some(AlertId(prefix, Runs(h, n))) else None))
  }

  lemma ObservedOnce(h: seq<Op>, n: nat)
    requires n <= |h|
    ensures LatestBefore(h, n) >= 0 <==> RunStart(h, n) >= 0
  {}

  lemma NoRunsYet(h: seq<Op>, n: nat)
    requires n <= |h|
    ensures LatestBefore(h, n) < 0 ==> Runs(h, n) == 0
  {}

  lemma DescribesStep(hash: string -> string, prefix: string, h: seq<Op>, n: nat, row: Option<Row>)
    requires n < |h| && HashesApart(hash, h) && Describes(hash, prefix, h, n, row)
    ensures Describes(hash, prefix, h, n + 1, Step(hash, prefix, row, h[n]))
  {
    ObservedOnce(h, n);
    var latest := LatestBefore(h, n);
    if h[n].Observe? {
      assert LatestBefore(h, n + 1) == n;
      if StartsRun(h, n) {
        assert RunStart(h, n + 1) == n && Runs(h, n + 1) == Runs(h, n) + 1;
        assert Unacknowledged(prefix, h, n + 1) <==> h[n].alerting;
        NoRunsYet(h, n);
      } else {
        assert RunStart(h, n + 1) == RunStart(h, n) && Runs(h, n + 1) == Runs(h, n);
        assert Unacknowledged(prefix, h, n + 1) <==> Unacknowledged(prefix, h, n);
      }
    } else {
      assert LatestBefore(h, n + 1) == latest;
      assert RunStart(h, n + 1) == RunStart(h, n) && Runs(h, n + 1) == Runs(h, n);
    }
  }

  lemma {:induction false} AfterDescribes(hash: string -> string, prefix: string, h: seq<Op>, n: nat)
    requires n <= |h| && HashesApart(hash, h)
    ensures Describes(hash, prefix, h, n, After(hash, prefix, h[..n]))
  {
    if n > 0 {
      AfterDescribes(hash, prefix, h, n - 1);
      assert h[..n][..n - 1] == h[..n - 1];
      DescribesStep(hash, prefix, h, n - 1, After(hash, prefix, h[..n - 1]));
    }
  }

  /** For every history: an observation returns the alert numbered by its run
      exactly when that run's first observation alerted and the alert has not been
      acknowledged since; otherwise it returns none. */
  lemma AlertsNumberRuns(hash: string -> string, prefix: string, h: seq<Op>, j: nat)
    requires HashesApart(hash, h) && j < |h| && h[j].Observe?
    ensures Alert(hash, prefix, h, j) ==
            if Unacknowledged(prefix, h, j + 1) then Some(AlertId(prefix, Runs(h, j + 1))) else None
  {
    AfterDescribes(hash, prefix, h, j + 1);
  }

  lemma {:induction false} RunsGrow(h: seq<Op>, i: nat, j: nat)
    requires i <= j <= |h|
    ensures Runs(h, i) <= Runs(h, j)
    ensures (exists k :: i <= k < j && StartsRun(h, k)) <==> Runs(h, i) < Runs(h, j)
    ensures (forall k | i <= k < j :: !StartsRun(h, k)) ==> RunStart(h, i) == RunStart(h, j)
    decreases j
  {
    if i < j { RunsGrow(h, i, j - 1); }
  }

  lemma AlertNumber(hash: string -> string, prefix: string, h: seq<Op>, j: nat)
    requires HashesApart(hash, h) && j < |h| && h[j].Observe? && Alert(hash, prefix, h, j).Some?
    ensures Alert(hash, prefix, h, j).value == AlertId(prefix, Runs(h, j + 1))
  {
    AlertsNumberRuns(hash, prefix, h, j);
  }

  /** Within one run, what is unacknowledged stays so until it is acknowledged. */
  lemma OneRun(prefix: string, h: seq<Op>, i: nat, j: nat)
    requires i < j < |h| && h[i].Observe? && h[j].Observe? && forall k | i < k <= j :: !StartsRun(h, k)
    ensures Runs(h, i + 1) == Runs(h, j + 1)
    ensures Unacknowledged(prefix, h, j + 1) <==>
            Unacknowledged(prefix, h, i + 1) && forall k | i < k < j :: h[k] != Acknowledge(AlertId(prefix, Runs(h, i + 1)))
  {
    SameRun(h, i, j);
    SameRunAcknowledged(prefix, h, i, j);
  }

  lemma SameRun(h: seq<Op>, i: nat, j: nat)
    requires i < j < |h| && forall k | i < k <= j :: !StartsRun(h, k)
    ensures Runs(h, i + 1) == Runs(h, j + 1) && RunStart(h, i + 1) == RunStart(h, j + 1)
  {
    RunsGrow(h, i + 1, j + 1);
  }

  lemma SameRunAcknowledged(prefix: string, h: seq<Op>, i: nat, j: nat)
    requires i < j < |h| && h[j].Observe? && Runs(h, i + 1) == Runs(h, j + 1) && RunStart(h, i + 1) == RunStart(h, j + 1)
    ensures Unacknowledged(prefix, h, j + 1) <==>
            Unacknowledged(prefix, h, i + 1) && forall k | i < k < j :: h[k] != Acknowledge(AlertId(prefix, Runs(h, i + 1)))
  {}

  /** Within one run an alert repeats until it is acknowledged, and then stays away. */
  lemma AlertRepeats(hash: string -> string, prefix: string, h: seq<Op>, i: nat, j: nat)
    requires HashesApart(hash, h) && i < j < |h| && h[i].Observe? && h[j].Observe?
    requires forall k | i < k <= j :: !StartsRun(h, k)
    requires Alert(hash, prefix, h, i).Some?
    ensures Alert(hash, prefix, h, j) ==
            if exists k :: i < k < j && h[k] == Acknowledge(Alert(hash, prefix, h, i).value) then None else Alert(hash, prefix, h, i)
  {
    AlertsNumberRuns(hash, prefix, h, i);
    AlertsNumberRuns(hash, prefix, h, j);
    OneRun(prefix, h, i, j);
  }

  lemma NewRunCounts(h: seq<Op>, i: nat, k: nat, j: nat)
    requires i < k <= j < |h| && StartsRun(h, k)
    ensures Runs(h, i + 1) < Runs(h, j + 1)
  {
    RunsGrow(h, i + 1, j + 1);
  }

  /** An alert of one run never comes back once another run has started. */
  lemma AlertsNeverReappear(hash: string -> string, prefix: string, h: seq<Op>, i: nat, k: nat, j: nat)
    requires HashesApart(hash, h) && i < k <= j < |h| && h[i].Observe? && h[j].Observe? && StartsRun(h, k)
    requires Alert(hash, prefix, h, i).Some?
    ensures Alert(hash, prefix, h, j) != Alert(hash, prefix, h, i)
  {
    AlertNumber(hash, prefix, h, i);
    if Alert(hash, prefix, h, j).Some? { AlertNumber(hash, prefix, h, j); }
    NewRunCounts(h, i, k, j);
    AlertIdsDiffer(prefix, Runs(h, i + 1), Runs(h, j + 1));
  }
}
