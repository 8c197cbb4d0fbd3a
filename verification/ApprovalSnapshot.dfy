/** The request hash of an approval: it binds the approved action to the queue the
    requester saw, and the first claim to that same queue. */
module ApprovalSnapshot {
  import opened Prelude
  import opened Framing
  import opened Names
  import opened PostfixQueue
  import opened Approval
  import opened ApprovalSafety

  const HASH_PREFIX := "sha256:"

  datatype Payload = Payload(action: string, resource: Resource, snapshot: QueueSnapshot)

  /** The queue runtime: how it reads the listing, and how a payload is serialized. */
  datatype Runtime = Runtime(names: Resolver, hash: string -> string, instance: string, marshal: Payload -> string)

  /** Only a retry is bound to one message. */
  function Selector(action: string, resource: Resource): string {
    if action == "queue:retry" then resource.id else ""
  }

  function SnapshotFor(q: Runtime, action: string, resource: Resource, listing: Listing): Option<QueueSnapshot> {
    SnapshotAt(q.names, q.hash, q.instance, Selector(action, resource), listing)
  }

  /** queueApprovalRequestHash, as a function of the listing. */
  function RequestHash(q: Runtime, action: string, resource: Resource, listing: Listing): Option<string> {
    match SnapshotFor(q, action, resource, listing)
    case None => None
    case Some(snapshot) => Some(HASH_PREFIX + q.hash(q.marshal(Payload(action, resource, snapshot))))
  }

  /** queueApprovalRequestHash. */
  method QueueApprovalRequestHash(q: Runtime, action: string, resource: Resource, listing: Listing) returns (r: Option<string>)
    ensures r == RequestHash(q, action, resource, listing)
  {
    var selector := "";
    if action == "queue:retry" { selector := resource.id; }
    var snapshot := Snapshot(q.names, q.hash, q.instance, selector, listing);
    if snapshot.None? { return None; }
    r := Some(HASH_PREFIX + q.hash(q.marshal(Payload(action, resource, snapshot.value))));
  }

  /** The queue entries the request is about. */
  function Covered(q: Runtime, action: string, resource: Resource, listing: Listing): seq<Item> {
    Items(q.names, q.hash, q.instance, Selector(action, resource), listing)
  }

  /** Neither digest confuses these two listings: not the one over the serialized
      payloads, and not the one over the entries. */
  ghost predicate ToldApart(q: Runtime, action: string, resource: Resource, a: Listing, b: Listing) {
    var x, y := SnapshotFor(q, action, resource, a), SnapshotFor(q, action, resource, b);
    x.Some? && y.Some? ==>
      && (q.hash(q.marshal(Payload(action, resource, x.value))) == q.hash(q.marshal(Payload(action, resource, y.value))) ==> x == y)
      && EntriesToldApart(q.hash, Covered(q, action, resource, a), Covered(q, action, resource, b))
  }

  ghost predicate EntriesToldApart(hash: string -> string, a: seq<Item>, b: seq<Item>) {
    && Framable(SnapshotValues(a)) && Framable(SnapshotValues(b))
    && CollisionFree(hash, {Frame(SnapshotValues(a)), Frame(SnapshotValues(b))})
  }

  lemma SamePrefixed(x: string, y: string)
    requires HASH_PREFIX + x == HASH_PREFIX + y
    ensures x == y
  {
    assert (HASH_PREFIX + x)[|HASH_PREFIX|..] == x && (HASH_PREFIX + y)[|HASH_PREFIX|..] == y;
  }

  /** Collisions aside, equal request hashes mean the same multiset of queue entries. */
  lemma SameHashSameQueue(q: Runtime, action: string, resource: Resource, a: Listing, b: Listing)
    requires RequestHash(q, action, resource, a).Some? && RequestHash(q, action, resource, a) == RequestHash(q, action, resource, b)
    requires ToldApart(q, action, resource, a, b)
    ensures multiset(Covered(q, action, resource, a)) == multiset(Covered(q, action, resource, b))
  {
    var x, y := SnapshotFor(q, action, resource, a).value, SnapshotFor(q, action, resource, b).value;
    SamePrefixed(q.hash(q.marshal(Payload(action, resource, x))), q.hash(q.marshal(Payload(action, resource, y))));
    ItemsAreWholesome(q.names, q.hash, q.instance, Selector(action, resource), a);
    ItemsAreWholesome(q.names, q.hash, q.instance, Selector(action, resource), b);
    SnapshotBinds(q.hash, Covered(q, action, resource, a), Covered(q, action, resource, b));
  }

  /** The request is measured by this runtime. */
  ghost predicate MeasuredBy(c: Request, q: Runtime) {
    forall listing :: c.measure(listing) == RequestHash(q, c.action, c.resource, listing)
  }

  /** The listings a history measured. */
  ghost function Listings(h: seq<Event>): set<Listing> {
    set e | e in h && (e.Measured? || e.HashMatched?) :: e.queue
  }

  ghost function QueueAt(c: Request, s0: State, steps: seq<Step>, n: nat): Listing
    requires n <= |steps| && Run(c, s0, steps[..n]).Some?
  {
    Run(c, s0, steps[..n]).value.queue
  }

  /** The steps of a run behind its first claim: the measurement, then in one attempt
      of the claimant its look, its check and its claim. */
  ghost predicate FirstAttempt(c: Request, s0: State, steps: seq<Step>, h: seq<Event>, k: nat, i: nat, x: nat, j: nat, n: nat)
    requires k < |h| && h[k].Claimed?
  {
    && i < x < j < n < |steps| && steps[i].Measure? && steps[x] == Look(h[k].who)
    && steps[j].Clear? && steps[j].p == h[k].who && steps[n].Confirm? && steps[n].p == h[k].who
    && (forall y | x < y < n :: steps[y] != Crash(h[k].who))
    && Run(c, s0, steps[..i]).Some? && Run(c, s0, steps[..j]).Some?
  }

  /** In every run, collisions aside: when the first claimant made its check, in the
      same attempt that then claimed, the queue held the same multiset of entries as
      when the request was measured. */
  lemma FirstClaimSawTheQueue(c: Request, q: Runtime, s0: State, steps: seq<Step>, k: nat) returns (i: nat, x: nat, j: nat, n: nat)
    requires MeasuredBy(c, q) && Initial(s0) && Run(c, s0, steps).Some?
    requires var h := Run(c, s0, steps).value.history; k < |h| && h[k].Claimed? && Claims(h[..k]) == 0
    requires var seen := Listings(Run(c, s0, steps).value.history);
             forall a, b | a in seen && b in seen :: ToldApart(q, c.action, c.resource, a, b)
    ensures FirstAttempt(c, s0, steps, Run(c, s0, steps).value.history, k, i, x, j, n)
    ensures multiset(Covered(q, c.action, c.resource, QueueAt(c, s0, steps, j))) ==
            multiset(Covered(q, c.action, c.resource, QueueAt(c, s0, steps, i)))
  {
    var s := Run(c, s0, steps).value;
    var h := s.history;
    assert Reachable(c, s);
    var l, m := FirstClaimMatchedHash(c, s, k);
    i := CommittedAt(c, s0, steps, 0);
    x := CommittedAt(c, s0, steps, l);
    j := CommittedAt(c, s0, steps, m);
    n := CommittedAt(c, s0, steps, k);
    assert l > 0;
    CommittedInOrder(c, s0, steps, h, 0, i, l, x);
    CommittedInOrder(c, s0, steps, h, l, x, m, j);
    CommittedInOrder(c, s0, steps, h, m, j, k, n);
    forall y | x < y < n ensures steps[y] != Crash(h[k].who) {
      AttemptIsWhole(c, s0, steps, h, h[k].who, l, m, k, x, n, y);
    }
    assert h[m] in h && h[0] in h;
    assert h[m].queue in Listings(h) && h[0].queue in Listings(h);
    SameHashSameQueue(q, c.action, c.resource, h[m].queue, h[0].queue);
  }
}
