/** Reading Postfix's queue listing: the arrival fingerprint, the inspection of
    one queue file and the snapshot digest of the whole queue. */
module PostfixQueue {
  import opened Prelude
  import opened Framing
  import opened Names
  import opened Provenance
  import opened Registry

  const ARRIVAL_DOMAIN := "gotth-mail/postfix-arrival/v1"
  const SNAPSHOT_DOMAIN := "gotth-mail/postfix-snapshot/v1"
  const NULL_SENDER_DISPLAY := "MAILER-DAEMON"

  datatype Entry = Entry(queueName: string, queueId: string, arrivalTime: int, messageSize: int, sender: string, recipients: seq<string>)

  /** One non-empty line of `postqueue -j`, if it is JSON at all. */
  type Listing = seq<Option<Entry>>

  predicate SupportedName(name: string) {
    name == "active" || name == "incoming" || name == "deferred" || name == "hold"
  }

  // ----- the arrival fingerprint ----------------------------------------------

  /** canonicalQueueRecipients, as a function. */
  function CanonicalRecipients(names: Resolver, raw: seq<string>): Option<seq<string>> {
    if 1 <= |raw| <= MAX_QUEUE_RECIPIENTS && NormalizeAll(names, raw).Some?
    then Some(CanonicalList(NormalizeAll(names, raw).value)) else None
  }

  /** canonicalQueueRecipients. */
  method CanonicalQueueRecipients(names: Resolver, raw: seq<string>) returns (r: Option<seq<string>>)
    ensures r == CanonicalRecipients(names, raw)
  {
    if |raw| == 0 || |raw| > MAX_QUEUE_RECIPIENTS { return None; }
    var collected := CollectRecipients(names, raw);
    if collected.None? { return None; }
    var sorted := SortedKeys(collected.value);
    var texts := NormalizeAll(names, raw).value;
    CanonicalListCorrect(texts);
    EnumerationUnique(sorted, CanonicalList(texts), Elements(texts));
    r := Some(sorted);
  }

  /** normalizePostqueueSender. */
  function PostqueueSender(names: Resolver, sender: string): Option<string> {
    if sender == "" || sender == NULL_SENDER_DISPLAY then Some("<>") else NormalizeSender(names, sender)
  }

  function ArrivalValues(instance: string, e: Entry, sender: string, recipients: seq<string>): seq<string>
    requires e.arrivalTime >= 0 && e.messageSize >= 0
  {
    [ARRIVAL_DOMAIN, instance, e.queueId, Decimal(e.arrivalTime), Decimal(e.messageSize), sender] + recipients
  }

  predicate ValidIdentity(e: Entry) {
    ValidLongQueueID(e.queueId) && e.arrivalTime >= 0 && e.messageSize >= 0
  }

  /** QueueArrivalFingerprint, on a normalized instance. */
  function Fingerprint(names: Resolver, hash: string -> string, instance: string, e: Entry): Option<string> {
    if names.domain(instance).None? || !ValidIdentity(e) then None
    else
      var sender, recipients := PostqueueSender(names, e.sender), CanonicalRecipients(names, e.recipients);
      if sender.None? || recipients.None? then None
      else Some(hash(Frame(ArrivalValues(names.domain(instance).value, e, sender.value, recipients.value))))
  }

  /** queueMetadataFromEntry: the fingerprint is taken over the canonical sender
      and recipients, which are normalized a second time on the way. */
  function MetadataOf(names: Resolver, hash: string -> string, instance: string, e: Entry): Option<Metadata> {
    if !ValidIdentity(e) || !SupportedName(e.queueName) then None
    else
      var sender, recipients := PostqueueSender(names, e.sender), CanonicalRecipients(names, e.recipients);
      if sender.None? || recipients.None? then None
      else
        var fingerprint := Fingerprint(names, hash, instance, e.(sender := sender.value, recipients := recipients.value));
        if fingerprint.None? then None
        else Some(Metadata(e.queueId, fingerprint.value, sender.value, recipients.value, e.queueName == "hold"))
  }

  /** An entry whose canonical texts all fit the address bound. */
  ghost predicate ShortEntry(names: Resolver, e: Entry)
    requires PostqueueSender(names, e.sender).Some? && CanonicalRecipients(names, e.recipients).Some?
  {
    && |PostqueueSender(names, e.sender).value| <= MAX_RECIPIENT_BYTES
    && forall x | x in CanonicalRecipients(names, e.recipients).value :: |x| <= MAX_RECIPIENT_BYTES
  }

  lemma SenderAgain(names: LawfulResolver, sender: string)
    requires PostqueueSender(names, sender).Some?
    ensures var s := PostqueueSender(names, sender).value;
            PostqueueSender(names, s) == if |s| <= MAX_RECIPIENT_BYTES then Some(s) else None
  {
    if sender != "" && sender != NULL_SENDER_DISPLAY {
      SenderStability(names, sender);
      SenderHasAt(names, sender);
    }
  }

  lemma SenderHasAt(names: Resolver, sender: string)
    requires NormalizeSender(names, sender).Some?
    ensures NormalizeSender(names, sender).value == "<>" || '@' in NormalizeSender(names, sender).value
    ensures NormalizeSender(names, sender).value != "" && NormalizeSender(names, sender).value != NULL_SENDER_DISPLAY
  {}

  lemma RecipientsAgain(names: LawfulResolver, raw: seq<string>)
    requires CanonicalRecipients(names, raw).Some?
    ensures var list := CanonicalRecipients(names, raw).value;
            CanonicalRecipients(names, list) == if (forall x | x in list :: |x| <= MAX_RECIPIENT_BYTES) then Some(list) else None
  {
    var list := CanonicalRecipients(names, raw).value;
    forall x | x in list
      ensures NormalizeRecipient(names, x).Some? <==> |x| <= MAX_RECIPIENT_BYTES
      ensures Stable(names, x) <==> |x| <= MAX_RECIPIENT_BYTES
    {
      CanonicalRecipientStability(names, raw, x);
    }
    CanonicalListBound(NormalizeAll(names, raw).value);
    if forall x | x in list :: |x| <= MAX_RECIPIENT_BYTES {
      CanonicalListCorrect(NormalizeAll(names, raw).value);
      StableTextsUnchanged(names, list);
      CanonicalListFixed(list);
    }
  }

  /** Exactly when an entry can be inspected, and what its fingerprint covers:
      the instance, the arrival and the canonical sender and recipients. */
  lemma MetadataExactly(names: LawfulResolver, hash: string -> string, instance: string, e: Entry)
    ensures MetadataOf(names, hash, instance, e).Some? <==>
            && ValidIdentity(e) && SupportedName(e.queueName) && names.domain(instance).Some?
            && PostqueueSender(names, e.sender).Some? && CanonicalRecipients(names, e.recipients).Some? && ShortEntry(names, e)
    ensures MetadataOf(names, hash, instance, e).Some? ==>
            var m := MetadataOf(names, hash, instance, e).value;
            m.fingerprint == hash(Frame(ArrivalValues(names.domain(instance).value, e, m.sender, m.recipients)))
  {
    if PostqueueSender(names, e.sender).Some? && CanonicalRecipients(names, e.recipients).Some? {
      SenderAgain(names, e.sender);
      RecipientsAgain(names, e.recipients);
    }
  }

  /** Equal fingerprints, hash collisions aside, are the same arrival: instance,
      queue ID, time, size, sender and recipient list. */
  lemma ArrivalBinds(hash: string -> string, instance: string, e: Entry, sender: string, recipients: seq<string>,
                     instance': string, e': Entry, sender': string, recipients': seq<string>)
    requires ValidIdentity(e) && ValidIdentity(e')
    requires var a, b := ArrivalValues(instance, e, sender, recipients), ArrivalValues(instance', e', sender', recipients');
             Framable(a) && Framable(b) && CollisionFree(hash, {Frame(a), Frame(b)}) && hash(Frame(a)) == hash(Frame(b))
    ensures instance == instance' && e.queueId == e'.queueId && e.arrivalTime == e'.arrivalTime && e.messageSize == e'.messageSize
    ensures sender == sender' && recipients == recipients'
  {
    var a, b := ArrivalValues(instance, e, sender, recipients), ArrivalValues(instance', e', sender', recipients');
    DigestInjective(hash, a, b);
    assert a[1] == b[1] && a[2] == b[2] && a[3] == b[3] && a[4] == b[4] && a[5] == b[5];
    assert a[6..] == recipients && b[6..] == recipients';
    DecimalInjective(e.arrivalTime, e'.arrivalTime);
    DecimalInjective(e.messageSize, e'.messageSize);
  }

  /** A message registered from its own inspection is recognised at every later
      inspection that reports the same identity. */
  lemma RegisteredIsRecognised(names: Resolver, hash: string -> string, m: Metadata, sources: seq<QueueSource>, later: Metadata)
    requires var reg := Registration(m.queueId, m.fingerprint, m.sender, m.recipients, sources);
             Acceptable(names, reg)
    requires later == m.(held := later.held)
    ensures var reg := Registration(m.queueId, m.fingerprint, m.sender, m.recipients, sources);
            MatchesQueueMetadata(names, hash, Normalize(names, hash, reg).value, later)
  {
    var reg := Registration(m.queueId, m.fingerprint, m.sender, m.recipients, sources);
    var r := Normalize(names, hash, reg).value;
    CanonicalSizes(names, hash, reg);
    NormalizedSourcesValid(names, hash, reg);
    NormalizedIsWellFormed(names, hash, reg);
    ValidSourcesHaveKinds(names, r.sources);
    SourcesInOrderCorrect(r.sources);
    CanonicalSourcesUnique(r.sources, SourcesInOrder(r.sources));
  }

  // ----- inspection ---------------------------------------------------------------

  predicate AllParsed(listing: Listing) {
    forall line | line in listing :: line.Some?
  }

  predicate IsAbout(line: Option<Entry>, queueId: string) {
    line.Some? && line.value.queueId == queueId
  }

  /** Every line about the queue ID yields the same metadata, and there is one. */
  ghost predicate Inspected(names: Resolver, hash: string -> string, instance: string, listing: Listing, queueId: string, m: Metadata) {
    && AllParsed(listing)
    && (exists line :: line in listing && IsAbout(line, queueId))
    && (forall line | line in listing && IsAbout(line, queueId) :: MetadataOf(names, hash, instance, line.value) == Some(m))
  }

  /** Inspect: scans the whole listing. */
  method Inspect(names: Resolver, hash: string -> string, instance: string, listing: Listing, queueId: string) returns (r: Option<Metadata>)
    ensures r.Some? ==> Inspected(names, hash, instance, listing, queueId, r.value)
    ensures r.None? ==> forall m :: !Inspected(names, hash, instance, listing, queueId, m)
  {
    var found: Option<Metadata> := None;
    for i := 0 to |listing|
      invariant AllParsed(listing[..i])
      invariant found.None? ==> forall k | 0 <= k < i :: !IsAbout(listing[k], queueId)
      invariant found.Some? ==> Inspected(names, hash, instance, listing[..i], queueId, found.value)
    {
      assert listing[i] in listing;
      assert listing[..i + 1] == listing[..i] + [listing[i]];
      if listing[i].None? { return None; }
      if listing[i].value.queueId == queueId {
        var metadata := MetadataOf(names, hash, instance, listing[i].value);
        if metadata.None? { return None; }
        if found.Some? && found != metadata {
          ghost var line :| line in listing[..i] && IsAbout(line, queueId);
          return None;
        }
        found := metadata;
        assert IsAbout(listing[i], queueId);
      } else if found.Some? {
        ghost var line :| line in listing[..i] && IsAbout(line, queueId);
        assert line in listing[..i + 1];
      }
    }
    assert listing[..|listing|] == listing;
    r := found;
  }

  // ----- the snapshot -------------------------------------------------------------

  /** What a snapshot covers of one entry. */
  datatype Item = Item(queueName: string, queueId: string, fingerprint: string)

  function ItemLine(x: Item): string {
    NulJoin(x.queueName, x.queueId, x.fingerprint)
  }

  function ItemLines(items: seq<Item>): (r: seq<string>)
    ensures |r| == |items|
  {
    if items == [] then [] else ItemLines(items[..|items| - 1]) + [ItemLine(items[|items| - 1])]
  }

  function Tally(items: seq<Item>, names: set<string>): nat {
    if items == [] then 0
    else Tally(items[..|items| - 1], names) + (if items[|items| - 1].queueName in names then 1 else 0)
  }

  function ItemOf(e: Entry, m: Metadata): Item {
    Item(e.queueName, m.queueId, m.fingerprint)
  }

  /** Whether a line is in the selection; an empty selector takes everything. */
  predicate Selects(selector: string, e: Entry) {
    selector == "" || e.queueId == selector
  }

  /** A line the snapshot can digest: outside the selection only its queue ID matters. */
  predicate Readable(names: Resolver, hash: string -> string, instance: string, selector: string, line: Option<Entry>) {
    && line.Some? && ValidLongQueueID(line.value.queueId)
    && (Selects(selector, line.value) ==>
          SupportedName(line.value.queueName) && MetadataOf(names, hash, instance, line.value).Some?)
  }

  /** The selected entries of a readable listing, in listing order. */
  function Items(names: Resolver, hash: string -> string, instance: string, selector: string, listing: Listing): seq<Item> {
    if listing == [] then []
    else
      var before := Items(names, hash, instance, selector, listing[..|listing| - 1]);
      var line := listing[|listing| - 1];
      if Readable(names, hash, instance, selector, line) && Selects(selector, line.value)
      then before + [ItemOf(line.value, MetadataOf(names, hash, instance, line.value).value)] else before
  }

  datatype QueueSnapshot = QueueSnapshot(active: nat, deferred: nat, held: nat, total: nat, digest: string)

  /** The snapshot of a list of entries. */
  function SnapshotOf(hash: string -> string, items: seq<Item>): QueueSnapshot {
    QueueSnapshot(Tally(items, {"active", "incoming"}), Tally(items, {"deferred"}), Tally(items, {"hold"}), |items|,
                  hash(Frame(SnapshotValues(items))))
  }

  predicate AllReadable(names: Resolver, hash: string -> string, instance: string, selector: string, listing: Listing) {
    forall line | line in listing :: Readable(names, hash, instance, selector, line)
  }

  /** The scan of Snapshot: counters and canonical entries, up to the first unreadable line. */
  method Scan(names: Resolver, hash: string -> string, instance: string, selector: string, listing: Listing)
    returns (ok: bool, active: nat, deferred: nat, held: nat, entries: seq<string>)
    ensures ok <==> AllReadable(names, hash, instance, selector, listing)
    ensures ok ==> Scanned(Items(names, hash, instance, selector, listing), active, deferred, held, entries)
  {
    ok, active, deferred, held, entries := true, 0, 0, 0, [];
    for i := 0 to |listing|
      invariant forall k | 0 <= k < i :: Readable(names, hash, instance, selector, listing[k])
      invariant ok && Scanned(Items(names, hash, instance, selector, listing[..i]), active, deferred, held, entries)
    {
      assert listing[i] in listing && listing[..i + 1][..i] == listing[..i];
      if !Readable(names, hash, instance, selector, listing[i]) {
        ok := false;
        return;
      }
      var entry := listing[i].value;
      if Selects(selector, entry) {
        var metadata := MetadataOf(names, hash, instance, entry).value;
        ghost var items := Items(names, hash, instance, selector, listing[..i]);
        active, deferred, held, entries := CountEntry(items, ItemOf(entry, metadata), active, deferred, held, entries);
      }
    }
    assert listing[..|listing|] == listing;
  }

  /** The snapshot of a listing: an error on an invalid selector or instance, an
      unreadable line, or a selector that selects nothing. */
  function SnapshotAt(names: Resolver, hash: string -> string, instance: string, selector: string, listing: Listing): Option<QueueSnapshot> {
    var items := Items(names, hash, instance, selector, listing);
    if && (selector == "" || (ValidLongQueueID(selector) && items != [])) && names.domain(instance).Some?
       && AllReadable(names, hash, instance, selector, listing)
    then Some(SnapshotOf(hash, items)) else None
  }

  /** Snapshot: scan, sort, digest. */
  method Snapshot(names: Resolver, hash: string -> string, instance: string, selector: string, listing: Listing)
    returns (r: Option<QueueSnapshot>)
    ensures r == SnapshotAt(names, hash, instance, selector, listing)
  {
    if selector != "" && !ValidLongQueueID(selector) { return None; }
    if names.domain(instance).None? { return None; }
    var ok, active, deferred, held, entries := Scan(names, hash, instance, selector, listing);
    if !ok { return None; }
    if selector != "" && |entries| == 0 { return None; }
    var digest := DigestStrings(hash, [SNAPSHOT_DOMAIN] + SortStrings(entries));
    r := Some(QueueSnapshot(active, deferred, held, |entries|, digest));
  }

  ghost predicate Scanned(items: seq<Item>, active: nat, deferred: nat, held: nat, entries: seq<string>) {
    && active == Tally(items, {"active", "incoming"}) && deferred == Tally(items, {"deferred"}) && held == Tally(items, {"hold"})
    && entries == ItemLines(items)
  }

  /** The body of the scan for one selected entry. */
  method CountEntry(ghost items: seq<Item>, x: Item, active: nat, deferred: nat, held: nat, entries: seq<string>)
    returns (active': nat, deferred': nat, held': nat, entries': seq<string>)
    requires Scanned(items, active, deferred, held, entries) && SupportedName(x.queueName)
    ensures Scanned(items + [x], active', deferred', held', entries')
  {
    active', deferred', held' := active, deferred, held;
    match x.queueName {
      case "deferred" => deferred' := deferred + 1;
      case "hold" => held' := held + 1;
      case _ => active' := active + 1;
    }
    entries' := entries + [ItemLine(x)];
    assert (items + [x])[..|items|] == items;
  }

  ghost predicate Wholesome(items: seq<Item>) {
    forall x | x in items :: SupportedName(x.queueName) && ValidLongQueueID(x.queueId)
  }

  lemma ItemLineInjective(x: Item, y: Item)
    requires Wholesome([x, y]) && ItemLine(x) == ItemLine(y)
    ensures x == y
  {
    assert x in [x, y] && y in [x, y];
    IdentifiersAreNulFree(x.queueId);
    IdentifiersAreNulFree(y.queueId);
    NulJoinInjective(x.queueName, x.queueId, x.fingerprint, y.queueName, y.queueId, y.fingerprint);
  }

  /** An entry occurs as often as its line. */
  lemma {:induction false} LineCount(items: seq<Item>, x: Item)
    requires Wholesome(items + [x])
    ensures multiset(ItemLines(items))[ItemLine(x)] == multiset(items)[x]
  {
    if items != [] {
      var rest, last := items[..|items| - 1], items[|items| - 1];
      assert items == rest + [last];
      assert x in items + [x] && last in items + [x];
      LineCount(rest, x);
      if ItemLine(last) == ItemLine(x) { ItemLineInjective(last, x); }
    }
  }

  lemma SameLinesSameItems(a: seq<Item>, b: seq<Item>)
    requires Wholesome(a) && Wholesome(b) && multiset(ItemLines(a)) == multiset(ItemLines(b))
    ensures multiset(a) == multiset(b)
  {
    forall x | x in multiset(a) + multiset(b) ensures multiset(a)[x] == multiset(b)[x] {
      LineCount(a, x);
      LineCount(b, x);
    }
    assert forall x | x !in multiset(a) + multiset(b) :: multiset(a)[x] == 0 && multiset(b)[x] == 0;
  }

  lemma {:induction false} LinesAppend(a: seq<Item>, b: seq<Item>)
    ensures ItemLines(a + b) == ItemLines(a) + ItemLines(b)
  {
    if b == [] {
      assert a + b == a;
    } else {
      assert (a + b)[..|a + b| - 1] == a + b[..|b| - 1];
      LinesAppend(a, b[..|b| - 1]);
    }
  }

  lemma {:induction false} TallyAppend(a: seq<Item>, b: seq<Item>, names: set<string>)
    ensures Tally(a + b, names) == Tally(a, names) + Tally(b, names)
  {
    if b == [] {
      assert a + b == a;
    } else {
      assert (a + b)[..|a + b| - 1] == a + b[..|b| - 1];
      TallyAppend(a, b[..|b| - 1], names);
    }
  }

  /** An element of a list, with what precedes and follows it. */
  lemma PullOut(b: seq<Item>, x: Item) returns (left: seq<Item>, right: seq<Item>)
    requires x in multiset(b)
    ensures b == left + ([x] + right) && multiset(b) == multiset(left + right) + multiset{x}
  {
    var j :| 0 <= j < |b| && b[j] == x;
    left, right := b[..j], b[j + 1..];
    assert b == left + ([x] + right);
  }

  lemma Cancel(p: multiset<Item>, q: multiset<Item>, x: Item)
    requires p + multiset{x} == q + multiset{x}
    ensures p == q
  {
    assert p == p + multiset{x} - multiset{x} && q == q + multiset{x} - multiset{x};
  }

  /** The last element of one list, found in another with the same multiset. */
  lemma PullLast(a: seq<Item>, b: seq<Item>) returns (left: seq<Item>, right: seq<Item>)
    requires a != [] && multiset(a) == multiset(b)
    ensures b == left + ([a[|a| - 1]] + right) && multiset(a[..|a| - 1]) == multiset(left + right)
  {
    var rest, x := a[..|a| - 1], a[|a| - 1];
    assert a == rest + [x];
    left, right := PullOut(b, x);
    Cancel(multiset(rest), multiset(left + right), x);
  }

  lemma LinesAround(left: seq<Item>, x: Item, right: seq<Item>)
    ensures multiset(ItemLines(left + ([x] + right))) == multiset(ItemLines(left + right)) + multiset{ItemLine(x)}
  {
    LinesAppend(left, right);
    LinesAppend(left, [x] + right);
    LinesAppend([x], right);
    assert ItemLines([x]) == [ItemLine(x)];
  }

  lemma {:induction false} SameItemsSameLines(a: seq<Item>, b: seq<Item>)
    requires multiset(a) == multiset(b)
    ensures multiset(ItemLines(a)) == multiset(ItemLines(b))
  {
    if a == [] {
      assert |multiset(b)| == |b|;
    } else {
      var left, right := PullLast(a, b);
      SameItemsSameLines(a[..|a| - 1], left + right);
      LinesAround(left, a[|a| - 1], right);
    }
  }

  lemma {:induction false} SameItemsSameTally(a: seq<Item>, b: seq<Item>, names: set<string>)
    requires multiset(a) == multiset(b)
    ensures Tally(a, names) == Tally(b, names)
  {
    if a == [] {
      assert |multiset(b)| == |b|;
    } else {
      var left, right := PullLast(a, b);
      SameItemsSameTally(a[..|a| - 1], left + right, names);
      TallyAround(left, a[|a| - 1], right, names);
    }
  }

  lemma TallyAround(left: seq<Item>, x: Item, right: seq<Item>, names: set<string>)
    ensures Tally(left + ([x] + right), names) == Tally(left + right, names) + Tally([x], names)
  {
    TallyAppend(left, right, names);
    TallyAppend(left, [x] + right, names);
    TallyAppend([x], right, names);
  }

  lemma SameItemsSameSnapshot(hash: string -> string, a: seq<Item>, b: seq<Item>)
    requires multiset(a) == multiset(b)
    ensures SnapshotOf(hash, a) == SnapshotOf(hash, b)
  {
    SameItemsSameLines(a, b);
    SameItemsSameTally(a, b, {"active", "incoming"});
    SameItemsSameTally(a, b, {"deferred"});
    SameItemsSameTally(a, b, {"hold"});
    SortStringsSorts(ItemLines(a));
    SortStringsSorts(ItemLines(b));
    SortedUnique(SortStrings(ItemLines(a)), SortStrings(ItemLines(b)));
    assert |multiset(a)| == |a| && |multiset(b)| == |b|;
  }

  function SnapshotValues(items: seq<Item>): seq<string> {
    [SNAPSHOT_DOMAIN] + SortStrings(ItemLines(items))
  }

  lemma SameDigestSameItems(hash: string -> string, a: seq<Item>, b: seq<Item>)
    requires Wholesome(a) && Wholesome(b) && Framable(SnapshotValues(a)) && Framable(SnapshotValues(b))
    requires CollisionFree(hash, {Frame(SnapshotValues(a)), Frame(SnapshotValues(b))})
    requires hash(Frame(SnapshotValues(a))) == hash(Frame(SnapshotValues(b)))
    ensures multiset(a) == multiset(b)
  {
    DigestInjective(hash, SnapshotValues(a), SnapshotValues(b));
    assert SnapshotValues(a)[1..] == SortStrings(ItemLines(a)) && SnapshotValues(b)[1..] == SortStrings(ItemLines(b));
    SortStringsSorts(ItemLines(a));
    SortStringsSorts(ItemLines(b));
    SameLinesSameItems(a, b);
  }

  /** Hash collisions aside, two snapshots have the same digest exactly when they
      cover the same multiset of (queue, ID, fingerprint), whatever the order of
      the two listings, and then all their counts agree. */
  lemma SnapshotBinds(hash: string -> string, a: seq<Item>, b: seq<Item>)
    requires Wholesome(a) && Wholesome(b) && Framable(SnapshotValues(a)) && Framable(SnapshotValues(b))
    requires CollisionFree(hash, {Frame(SnapshotValues(a)), Frame(SnapshotValues(b))})
    ensures SnapshotOf(hash, a).digest == SnapshotOf(hash, b).digest <==> multiset(a) == multiset(b)
    ensures SnapshotOf(hash, a).digest == SnapshotOf(hash, b).digest <==> SnapshotOf(hash, a) == SnapshotOf(hash, b)
  {
    if SnapshotOf(hash, a).digest == SnapshotOf(hash, b).digest {
      SameDigestSameItems(hash, a, b);
    }
    if multiset(a) == multiset(b) {
      SameItemsSameSnapshot(hash, a, b);
    }
  }

  /** The entries of a readable listing meet what SnapshotBinds asks of them, and
      every one is counted in exactly one of the three states. */
  lemma {:induction false} ItemsAreWholesome(names: Resolver, hash: string -> string, instance: string, selector: string, listing: Listing)
    ensures var items := Items(names, hash, instance, selector, listing);
            && Wholesome(items)
            && Tally(items, {"active", "incoming"}) + Tally(items, {"deferred"}) + Tally(items, {"hold"}) == |items|
  {
    if listing != [] {
      ItemsAreWholesome(names, hash, instance, selector, listing[..|listing| - 1]);
      var before := Items(names, hash, instance, selector, listing[..|listing| - 1]);
      var items := Items(names, hash, instance, selector, listing);
      assert items != before ==> items[..|items| - 1] == before;
    }
  }
}
