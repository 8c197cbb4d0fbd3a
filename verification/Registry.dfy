/** Queue registration: the immutable identity of a queued message. */
module Registry {
  import opened Prelude
  import opened Framing
  import opened Names
  import opened Provenance

  datatype Registration = Registration(
    queueId: string,
    fingerprint: string,
    sender: string,
    recipients: seq<string>,
    sources: seq<QueueSource>)

  /** A normalized registration, as stored. */
  datatype Record = Record(
    queueId: string,
    fingerprint: string,
    sender: string,
    recipientDigest: string,
    sourceDigest: string,
    recipients: seq<string>,
    sources: seq<QueueSource>)

  /** Inserts into a strictly increasing list, dropping a repetition. */
  function InsertDistinct(x: string, s: seq<string>): seq<string> {
    if s == [] then [x]
    else if s[0] == x then s
    else if Less(x, s[0]) then [x] + s
    else [s[0]] + InsertDistinct(x, s[1..])
  }

  /** The sorted distinct form of a list. */
  function CanonicalList(xs: seq<string>): seq<string> {
    if xs == [] then [] else InsertDistinct(xs[0], CanonicalList(xs[1..]))
  }

  ghost predicate Increasing(s: seq<string>) {
    forall i, j | 0 <= i < j < |s| :: Less(s[i], s[j])
  }

  lemma {:induction false} InsertDistinctCorrect(x: string, s: seq<string>)
    requires Increasing(s)
    ensures Increasing(InsertDistinct(x, s)) && Elements(InsertDistinct(x, s)) == Elements(s) + {x}
  {
    if s != [] {
      LessTrichotomy(x, s[0]);
      assert s == [s[0]] + s[1..];
      ElementsAppend([s[0]], s[1..]);
      if Less(x, s[0]) {
        forall j | 0 <= j < |s| ensures Less(x, s[j]) {
          if j > 0 { LessTransitive(x, s[0], s[j]); }
        }
        IncreasingPrepend(x, s);
      } else if s[0] != x {
        InsertDistinctCorrect(x, s[1..]);
        var r := InsertDistinct(x, s[1..]);
        forall j | 0 <= j < |r| ensures Less(s[0], r[j]) {
          assert r[j] in Elements(r);
        }
        IncreasingPrepend(s[0], r);
      }
    }
  }

  lemma IncreasingPrepend(x: string, s: seq<string>)
    requires Increasing(s) && forall j | 0 <= j < |s| :: Less(x, s[j])
    ensures Increasing([x] + s) && Elements([x] + s) == Elements(s) + {x}
  {
    ElementsAppend([x], s);
  }

  lemma {:induction false} CanonicalListCorrect(xs: seq<string>)
    ensures Increasing(CanonicalList(xs)) && Elements(CanonicalList(xs)) == Elements(xs)
    ensures Enumerates(CanonicalList(xs), Elements(xs))
  {
    if xs != [] {
      CanonicalListCorrect(xs[1..]);
      InsertDistinctCorrect(xs[0], CanonicalList(xs[1..]));
      assert xs == [xs[0]] + xs[1..];
      ElementsAppend([xs[0]], xs[1..]);
    }
    IncreasingIsDistinct(CanonicalList(xs));
  }

  lemma IncreasingIsDistinct(s: seq<string>)
    requires Increasing(s)
    ensures Sorted(s) && Distinct(s)
  {
    forall i, j | 0 <= i < j < |s| ensures !Less(s[j], s[i]) && s[i] != s[j] {
      LessTrichotomy(s[i], s[j]);
    }
  }

  /** Equal canonical lists are equal sets. */
  lemma CanonicalListExactly(a: seq<string>, b: seq<string>)
    ensures CanonicalList(a) == CanonicalList(b) <==> Elements(a) == Elements(b)
  {
    CanonicalListCorrect(a);
    CanonicalListCorrect(b);
    if Elements(a) == Elements(b) {
      EnumerationUnique(CanonicalList(a), CanonicalList(b), Elements(a));
    }
  }

  /** normalizeQueueSender. */
  function NormalizeSender(names: Resolver, raw: string): Option<string> {
    if raw == "<>" then Some(raw)
    else if NormalizeRecipient(names, raw).Some? then Some(NormalizeRecipient(names, raw).value.text)
    else None
  }

  function SourceKeys(sources: seq<QueueSource>): (r: seq<string>)
    ensures |r| == |sources|
    ensures forall i | 0 <= i < |r| :: r[i] == SourceKey(sources[i])
  {
    if sources == [] then [] else [SourceKey(sources[0])] + SourceKeys(sources[1..])
  }

  /** What digestSources writes: kind and identifier in independent frames. */
  function SourceValues(sources: seq<QueueSource>): seq<string> {
    if sources == [] then [] else [KindText(sources[0].kind), sources[0].objectId] + SourceValues(sources[1..])
  }

  /** Sources in (kind, identifier) order without repetitions. */
  ghost predicate CanonicalSources(s: seq<QueueSource>) {
    Increasing(SourceKeys(s)) && ValidKinds(Elements(s))
  }

  ghost predicate ValidKinds(sources: set<QueueSource>) {
    forall x | x in sources :: ValidSourceKind(x.kind)
  }

  /** Ordering by the collection key is ordering by kind and then identifier. */
  lemma SourceOrder(a: QueueSource, b: QueueSource)
    requires ValidSourceKind(a.kind) && ValidSourceKind(b.kind)
    ensures Less(SourceKey(a), SourceKey(b)) <==>
            Less(KindText(a.kind), KindText(b.kind)) || (a.kind == b.kind && Less(a.objectId, b.objectId))
  {
    KindTextsDiffer(a.kind, a.kind);
    KindTextsDiffer(b.kind, b.kind);
    LessAcrossNul(KindText(a.kind), a.objectId, KindText(b.kind), b.objectId);
    if KindText(a.kind) == KindText(b.kind) {
      KindTextsDiffer(a.kind, b.kind);
    }
  }

  lemma {:induction false} LessAcrossNul(x: string, s: string, y: string, t: string)
    requires NulFree(x) && NulFree(y)
    ensures Less(x + "\0" + s, y + "\0" + t) <==> Less(x, y) || (x == y && Less(s, t))
  {
    var a, b := x + "\0" + s, y + "\0" + t;
    if x == "" || y == "" {
      if x == "" { assert a[1..] == s && a[0] == '\0'; } else { assert a[0] == x[0] && x[0] != '\0'; }
      if y == "" { assert b[1..] == t && b[0] == '\0'; } else { assert b[0] == y[0] && y[0] != '\0'; }
      LessIrreflexive("");
    } else {
      assert a[1..] == x[1..] + "\0" + s && b[1..] == y[1..] + "\0" + t;
      assert x == [x[0]] + x[1..] && y == [y[0]] + y[1..];
      LessAcrossNul(x[1..], s, y[1..], t);
    }
  }

  ghost function KeySet(sources: set<QueueSource>): set<string> {
    set x | x in sources :: SourceKey(x)
  }

  lemma KeysOfElements(s: seq<QueueSource>)
    ensures Elements(SourceKeys(s)) == KeySet(Elements(s))
  {}

  /** A canonical source list is determined by its elements. */
  lemma CanonicalSourcesUnique(a: seq<QueueSource>, b: seq<QueueSource>)
    requires CanonicalSources(a) && CanonicalSources(b)
    ensures a == b <==> Elements(a) == Elements(b)
  {
    if Elements(a) == Elements(b) {
      var ka, kb := SourceKeys(a), SourceKeys(b);
      KeysOfElements(a);
      KeysOfElements(b);
      IncreasingIsDistinct(ka);
      IncreasingIsDistinct(kb);
      EnumerationUnique(ka, kb, Elements(ka));
      forall i | 0 <= i < |a| ensures a[i] == b[i] {
        assert ka[i] == kb[i];
        SourceKeyInjective(a[i], b[i]);
      }
    }
  }

  lemma {:induction false} SourceValuesInjective(a: seq<QueueSource>, b: seq<QueueSource>)
    requires ValidKinds(Elements(a)) && ValidKinds(Elements(b))
    requires SourceValues(a) == SourceValues(b)
    ensures a == b
  {
    if a == [] || b == [] {
      assert |SourceValues(a)| == |SourceValues(b)|;
    } else {
      var va, vb := SourceValues(a), SourceValues(b);
      assert va[0] == vb[0] && va[1] == vb[1];
      assert va[2..] == SourceValues(a[1..]) && vb[2..] == SourceValues(b[1..]);
      assert a[0] in Elements(a) && b[0] in Elements(b);
      ElementsAppend([a[0]], a[1..]);
      ElementsAppend([b[0]], b[1..]);
      assert a == [a[0]] + a[1..] && b == [b[0]] + b[1..];
      KindTextsDiffer(a[0].kind, b[0].kind);
      SourceValuesInjective(a[1..], b[1..]);
    }
  }

  function InsertSource(x: QueueSource, s: seq<QueueSource>): seq<QueueSource> {
    if s == [] then [x]
    else if SourceKey(s[0]) == SourceKey(x) then s
    else if Less(SourceKey(x), SourceKey(s[0])) then [x] + s
    else [s[0]] + InsertSource(x, s[1..])
  }

  /** The canonical form of a source list. */
  function SourcesInOrder(sources: seq<QueueSource>): seq<QueueSource> {
    if sources == [] then [] else InsertSource(sources[0], SourcesInOrder(sources[1..]))
  }

  lemma {:induction false} InsertSourceKeys(x: QueueSource, s: seq<QueueSource>)
    ensures SourceKeys(InsertSource(x, s)) == InsertDistinct(SourceKey(x), SourceKeys(s))
  {
    if s != [] {
      assert SourceKeys(s)[1..] == SourceKeys(s[1..]);
      InsertSourceKeys(x, s[1..]);
      var r := InsertSource(x, s[1..]);
      assert ([s[0]] + r)[1..] == r && ([x] + s)[1..] == s;
    }
  }

  lemma {:induction false} InsertSourceElements(x: QueueSource, s: seq<QueueSource>)
    requires ValidKinds(Elements(s) + {x})
    ensures Elements(InsertSource(x, s)) == Elements(s) + {x}
  {
    if s != [] {
      assert s == [s[0]] + s[1..] && s[0] in Elements(s);
      ElementsAppend([s[0]], s[1..]);
      InsertSourceElements(x, s[1..]);
      ElementsAppend([s[0]], InsertSource(x, s[1..]));
      ElementsAppend([x], s);
      if SourceKey(s[0]) == SourceKey(x) {
        SourceKeyInjective(s[0], x);
      }
    }
  }

  lemma {:induction false} SourcesInOrderElements(sources: seq<QueueSource>)
    requires ValidKinds(Elements(sources))
    ensures Elements(SourcesInOrder(sources)) == Elements(sources)
  {
    if sources != [] {
      assert sources == [sources[0]] + sources[1..];
      ElementsAppend([sources[0]], sources[1..]);
      SourcesInOrderElements(sources[1..]);
      InsertSourceElements(sources[0], SourcesInOrder(sources[1..]));
    }
  }

  lemma {:induction false} SourcesInOrderKeys(sources: seq<QueueSource>)
    ensures SourceKeys(SourcesInOrder(sources)) == CanonicalList(SourceKeys(sources))
  {
    if sources != [] {
      SourcesInOrderKeys(sources[1..]);
      InsertSourceKeys(sources[0], SourcesInOrder(sources[1..]));
      assert SourceKeys(sources)[1..] == SourceKeys(sources[1..]);
    }
  }

  /** The canonical list is ordered, without repetitions and has the same members. */
  lemma SourcesInOrderCorrect(sources: seq<QueueSource>)
    requires ValidKinds(Elements(sources))
    ensures CanonicalSources(SourcesInOrder(sources)) && Elements(SourcesInOrder(sources)) == Elements(sources)
  {
    SourcesInOrderElements(sources);
    SourcesInOrderKeys(sources);
    CanonicalListCorrect(SourceKeys(sources));
  }

  /** What normalizeQueueRegistration accepts. */
  predicate Acceptable(names: Resolver, reg: Registration) {
    && ValidLongQueueID(reg.queueId) && ValidLowerHexDigest(reg.fingerprint)
    && NormalizeSender(names, reg.sender).Some?
    && 1 <= |reg.recipients| <= MAX_QUEUE_RECIPIENTS && NormalizeAll(names, reg.recipients).Some?
    && 1 <= |reg.sources| <= MAX_QUEUE_SOURCES && forall s | s in reg.sources :: ValidSource(names, s)
  }

  /** normalizeQueueRegistration, as a function. */
  function Normalize(names: Resolver, hash: string -> string, reg: Registration): Option<Record> {
    if !Acceptable(names, reg) then None
    else
      var recipients := CanonicalList(NormalizeAll(names, reg.recipients).value);
      var sources := SourcesInOrder(reg.sources);
      Some(Record(reg.queueId, reg.fingerprint, NormalizeSender(names, reg.sender).value,
                  hash(Frame(recipients)), hash(Frame(SourceValues(sources))), recipients, sources))
  }

  /** Folding a list into a Go map used as a set. */
  method CollectRecipients(names: Resolver, raw: seq<string>) returns (r: Option<set<string>>)
    ensures r.Some? <==> NormalizeAll(names, raw).Some?
    ensures r.Some? ==> r.value == Elements(NormalizeAll(names, raw).value)
  {
    var collected: set<string> := {};
    for i := 0 to |raw|
      invariant Collected(names, raw[..i], collected)
    {
      var recipient := NormalizeRecipient(names, raw[i]);
      if recipient.None? {
        assert raw[i] in raw;
        return None;
      }
      assert raw[..i + 1] == raw[..i] + [raw[i]];
      CollectOne(names, raw[..i], raw[i], collected);
      collected := collected + {recipient.value.text};
    }
    assert raw[..|raw|] == raw;
    r := Some(collected);
  }

  ghost predicate Collected(names: Resolver, raw: seq<string>, collected: set<string>) {
    NormalizeAll(names, raw).Some? && collected == Elements(NormalizeAll(names, raw).value)
  }

  lemma CollectOne(names: Resolver, raw: seq<string>, x: string, collected: set<string>)
    requires Collected(names, raw, collected) && NormalizeRecipient(names, x).Some?
    ensures Collected(names, raw + [x], collected + {NormalizeRecipient(names, x).value.text})
  {
    NormalizeAppend(names, raw, x);
    ElementsAppend(NormalizeAll(names, raw).value, [NormalizeRecipient(names, x).value.text]);
  }

  lemma {:induction false} NormalizeAppend(names: Resolver, raw: seq<string>, x: string)
    requires NormalizeAll(names, raw).Some? && NormalizeRecipient(names, x).Some?
    ensures NormalizeAll(names, raw + [x]).Some?
    ensures NormalizeAll(names, raw + [x]).value == NormalizeAll(names, raw).value + [NormalizeRecipient(names, x).value.text]
  {
    if raw == [] {
      assert raw + [x] == [x];
      assert [x][1..] == [];
    } else {
      NormalizeAppend(names, raw[1..], x);
      assert (raw + [x])[1..] == raw[1..] + [x];
    }
  }

  /** The keyed collection of sources and its values in key order. */
  method CollectSources(names: Resolver, sources: seq<QueueSource>) returns (r: Option<seq<QueueSource>>)
    ensures r.Some? <==> forall s | s in sources :: ValidSource(names, s)
    ensures r.Some? ==> r.value == SourcesInOrder(sources)
  {
    var collected: map<string, QueueSource> := map[];
    for i := 0 to |sources|
      invariant forall k | 0 <= k < i :: ValidSource(names, sources[k])
      invariant Keyed(collected, Elements(sources[..i]))
    {
      if !ValidSource(names, sources[i]) {
        assert sources[i] in sources;
        return None;
      }
      CollectSource(collected, sources, i);
      collected := collected[SourceKey(sources[i]) := sources[i]];
    }
    assert sources[..|sources|] == sources;
    var list := SourcesInKeyOrder(collected, sources);
    r := Some(list);
  }

  lemma CollectSource(collected: map<string, QueueSource>, sources: seq<QueueSource>, i: nat)
    requires i < |sources| && Keyed(collected, Elements(sources[..i])) && ValidSourceKind(sources[i].kind)
    ensures Keyed(collected[SourceKey(sources[i]) := sources[i]], Elements(sources[..i + 1]))
  {
    ElementsPrefix(sources, i);
    KeyedGrows(collected, Elements(sources[..i]), sources[i]);
  }

  /** The values of a keyed collection in ascending order of key. */
  method SourcesInKeyOrder(collected: map<string, QueueSource>, ghost sources: seq<QueueSource>)
    returns (list: seq<QueueSource>)
    requires Keyed(collected, Elements(sources))
    ensures list == SourcesInOrder(sources)
  {
    var keys := SortedKeys(collected.Keys);
    assert forall k | k in keys :: k in Elements(keys);
    list := ValuesOf(collected, keys);
    KeyedList(collected, sources, keys, list);
  }

  method ValuesOf(collected: map<string, QueueSource>, keys: seq<string>) returns (list: seq<QueueSource>)
    requires forall k | k in keys :: k in collected
    ensures |list| == |keys| && forall k | 0 <= k < |keys| :: keys[k] in collected && list[k] == collected[keys[k]]
  {
    list := [];
    for i := 0 to |keys|
      invariant |list| == i
      invariant forall k | 0 <= k < i :: keys[k] in collected && list[k] == collected[keys[k]]
    {
      list := list + [collected[keys[i]]];
    }
  }

  /** A map from keys to exactly the given sources. */
  ghost predicate Keyed(m: map<string, QueueSource>, sources: set<QueueSource>) {
    && ValidKinds(sources)
    && (forall k | k in m :: KeyFits(k, m[k]) && m[k] in sources)
    && m.Keys == KeySet(sources)
  }

  ghost predicate KeyFits(key: string, source: QueueSource) {
    SourceKey(source) == key
  }

  lemma KeyedGrows(m: map<string, QueueSource>, sources: set<QueueSource>, s: QueueSource)
    requires Keyed(m, sources) && ValidSourceKind(s.kind)
    ensures Keyed(m[SourceKey(s) := s], sources + {s})
  {}

  lemma KeyedList(m: map<string, QueueSource>, sources: seq<QueueSource>, keys: seq<string>, list: seq<QueueSource>)
    requires Keyed(m, Elements(sources))
    requires Enumerates(keys, m.Keys) && |list| == |keys|
    requires forall i | 0 <= i < |keys| :: keys[i] in m && list[i] == m[keys[i]]
    ensures list == SourcesInOrder(sources)
  {
    SourcesInOrderCorrect(sources);
    var canonical := SourcesInOrder(sources);
    var ordered := SourceKeys(canonical);
    KeysOfElements(canonical);
    IncreasingIsDistinct(ordered);
    EnumerationUnique(keys, ordered, m.Keys);
    forall i | 0 <= i < |keys| ensures list[i] == canonical[i] {
      assert KeyFits(keys[i], m[keys[i]]) && canonical[i] in Elements(canonical);
      assert ordered[i] == SourceKey(canonical[i]);
      SourceKeyInjective(list[i], canonical[i]);
    }
  }

  /** normalizeQueueRegistration: validates, collects both sets, sorts, digests. */
  method NormalizeRegistration(names: Resolver, hash: string -> string, reg: Registration) returns (r: Option<Record>)
    ensures r == Normalize(names, hash, reg)
  {
    if !ValidLongQueueID(reg.queueId) || !ValidLowerHexDigest(reg.fingerprint) { return None; }
    var sender := NormalizeSender(names, reg.sender);
    if sender.None? || |reg.recipients| == 0 || |reg.recipients| > MAX_QUEUE_RECIPIENTS { return None; }
    var collected := CollectRecipients(names, reg.recipients);
    if collected.None? { return None; }
    var recipients := SortedKeys(collected.value);
    if |reg.sources| == 0 || |reg.sources| > MAX_QUEUE_SOURCES { return None; }
    var sources := CollectSources(names, reg.sources);
    if sources.None? { return None; }
    var texts := NormalizeAll(names, reg.recipients).value;
    CanonicalListCorrect(texts);
    EnumerationUnique(recipients, CanonicalList(texts), Elements(texts));
    var recipientDigest := DigestStrings(hash, recipients);
    var sourceDigest := DigestStrings(hash, SourceValues(sources.value));
    r := Some(Record(reg.queueId, reg.fingerprint, sender.value, recipientDigest, sourceDigest, recipients, sources.value));
  }

  /** sameQueueIdentity: the five parent columns. */
  predicate SameIdentity(a: Record, b: Record) {
    && a.queueId == b.queueId && a.fingerprint == b.fingerprint && a.sender == b.sender
    && a.recipientDigest == b.recipientDigest && a.sourceDigest == b.sourceDigest
  }

  /** A row as the database gives it back: sets in order, digests that agree. */
  ghost predicate WellFormed(hash: string -> string, r: Record) {
    && Increasing(r.recipients) && CanonicalSources(r.sources)
    && r.recipientDigest == hash(Frame(r.recipients)) && r.sourceDigest == hash(Frame(SourceValues(r.sources)))
  }

  lemma NormalizedIsWellFormed(names: Resolver, hash: string -> string, reg: Registration)
    requires Acceptable(names, reg)
    ensures var r := Normalize(names, hash, reg).value;
            && WellFormed(hash, r) && Elements(r.sources) == Elements(reg.sources)
            && Elements(r.recipients) == Elements(NormalizeAll(names, reg.recipients).value)
  {
    CanonicalListCorrect(NormalizeAll(names, reg.recipients).value);
    ValidSourcesHaveKinds(names, reg.sources);
    SourcesInOrderCorrect(reg.sources);
  }

  lemma ValidSourcesHaveKinds(names: Resolver, sources: seq<QueueSource>)
    requires forall s | s in sources :: ValidSource(names, s)
    ensures ValidKinds(Elements(sources))
  {}

  /** No digest of one record collides with the matching digest of the other. */
  ghost predicate Distinguishes(hash: string -> string, a: Record, b: Record) {
    && Framable(a.recipients) && Framable(b.recipients)
    && Framable(SourceValues(a.sources)) && Framable(SourceValues(b.sources))
    && CollisionFree(hash, {Frame(a.recipients), Frame(b.recipients)})
    && CollisionFree(hash, {Frame(SourceValues(a.sources)), Frame(SourceValues(b.sources))})
  }

  /** The same arrival, sender, recipient set and source set. */
  ghost predicate SameMessage(a: Record, b: Record) {
    && a.queueId == b.queueId && a.fingerprint == b.fingerprint && a.sender == b.sender
    && Elements(a.recipients) == Elements(b.recipients) && Elements(a.sources) == Elements(b.sources)
  }

  /** The five columns agree exactly when the whole message does, child sets included. */
  lemma SameIdentityExactly(hash: string -> string, a: Record, b: Record)
    requires WellFormed(hash, a) && WellFormed(hash, b) && Distinguishes(hash, a, b)
    ensures SameIdentity(a, b) <==> SameMessage(a, b)
    ensures SameIdentity(a, b) <==> a == b
  {
    if SameIdentity(a, b) {
      DigestInjective(hash, a.recipients, b.recipients);
      DigestInjective(hash, SourceValues(a.sources), SourceValues(b.sources));
      SourceValuesInjective(a.sources, b.sources);
    }
    if SameMessage(a, b) {
      IncreasingIsDistinct(a.recipients);
      IncreasingIsDistinct(b.recipients);
      EnumerationUnique(a.recipients, b.recipients, Elements(a.recipients));
      CanonicalSourcesUnique(a.sources, b.sources);
    }
  }

  /** A stored row that loadQueueRecord accepts. */
  predicate Loads(names: Resolver, hash: string -> string, r: Record) {
    && ValidLongQueueID(r.queueId) && ValidLowerHexDigest(r.fingerprint)
    && NormalizeSender(names, r.sender) == Some(r.sender)
    && 1 <= |r.recipients| <= MAX_QUEUE_RECIPIENTS && (forall x | x in r.recipients :: Stable(names, x))
    && 1 <= |r.sources| <= MAX_QUEUE_SOURCES && (forall s | s in r.sources :: ValidSource(names, s))
    && r.recipientDigest == hash(Frame(r.recipients)) && r.sourceDigest == hash(Frame(SourceValues(r.sources)))
  }

  /** The loop over the stored recipients. */
  method StoredRecipients(names: Resolver, recipients: seq<string>) returns (ok: bool)
    ensures ok <==> |recipients| <= MAX_QUEUE_RECIPIENTS && forall x | x in recipients :: Stable(names, x)
  {
    for i := 0 to |recipients|
      invariant i <= MAX_QUEUE_RECIPIENTS && forall k | 0 <= k < i :: Stable(names, recipients[k])
    {
      if i >= MAX_QUEUE_RECIPIENTS || !Stable(names, recipients[i]) {
        assert recipients[i] in recipients;
        return false;
      }
    }
    ok := true;
  }

  /** The loop over the stored sources. */
  method StoredSources(names: Resolver, sources: seq<QueueSource>) returns (ok: bool)
    ensures ok <==> |sources| <= MAX_QUEUE_SOURCES && forall s | s in sources :: ValidSource(names, s)
  {
    for i := 0 to |sources|
      invariant i <= MAX_QUEUE_SOURCES && forall k | 0 <= k < i :: ValidSource(names, sources[k])
    {
      if i >= MAX_QUEUE_SOURCES || !ValidSource(names, sources[i]) {
        assert sources[i] in sources;
        return false;
      }
    }
    ok := true;
  }

  /** loadQueueRecord, the identity part: every child row is renormalized. */
  method LoadQueueRecord(names: Resolver, hash: string -> string, r: Record) returns (ok: bool)
    ensures ok <==> Loads(names, hash, r)
  {
    if !ValidLongQueueID(r.queueId) || !ValidLowerHexDigest(r.fingerprint) || NormalizeSender(names, r.sender) != Some(r.sender) {
      return false;
    }
    var recipients := StoredRecipients(names, r.recipients);
    var sources := StoredSources(names, r.sources);
    if !recipients || !sources { return false; }
    var recipientDigest := DigestStrings(hash, r.recipients);
    var sourceDigest := DigestStrings(hash, SourceValues(r.sources));
    ok := |r.recipients| > 0 && |r.sources| > 0 && recipientDigest == r.recipientDigest && sourceDigest == r.sourceDigest;
  }

  /** Every canonical text still fits the bound that was checked on the raw one. */
  ghost predicate Short(r: Record) {
    |r.sender| <= MAX_RECIPIENT_BYTES && forall x | x in r.recipients :: |x| <= MAX_RECIPIENT_BYTES
  }

  lemma CanonicalRecipientStability(names: LawfulResolver, raw: seq<string>, text: string)
    requires NormalizeAll(names, raw).Some? && text in CanonicalList(NormalizeAll(names, raw).value)
    ensures NormalizeRecipient(names, text).Some? <==> |text| <= MAX_RECIPIENT_BYTES
    ensures Stable(names, text) <==> |text| <= MAX_RECIPIENT_BYTES
  {
    var texts := NormalizeAll(names, raw).value;
    CanonicalListCorrect(texts);
    assert text in Elements(CanonicalList(texts));
    var origin := NormalizedOrigin(names, raw, text);
    RenormalizeExactly(names, raw[origin]);
  }

  lemma SenderStability(names: LawfulResolver, raw: string)
    requires NormalizeSender(names, raw).Some?
    ensures var sender := NormalizeSender(names, raw).value;
            NormalizeSender(names, sender) == if |sender| <= MAX_RECIPIENT_BYTES then Some(sender) else None
  {
    if raw != "<>" { RenormalizeExactly(names, raw); }
  }

  lemma {:induction false} InsertDistinctBound(x: string, s: seq<string>)
    ensures |s| <= |InsertDistinct(x, s)| <= |s| + 1 && InsertDistinct(x, s) != []
  {
    if s != [] { InsertDistinctBound(x, s[1..]); }
  }

  lemma {:induction false} CanonicalListBound(xs: seq<string>)
    ensures |CanonicalList(xs)| <= |xs|
    ensures xs != [] ==> CanonicalList(xs) != []
  {
    if xs != [] {
      CanonicalListBound(xs[1..]);
      InsertDistinctBound(xs[0], CanonicalList(xs[1..]));
    }
  }

  lemma CanonicalSizes(names: Resolver, hash: string -> string, reg: Registration)
    requires Acceptable(names, reg)
    ensures var r := Normalize(names, hash, reg).value;
            1 <= |r.recipients| <= MAX_QUEUE_RECIPIENTS && 1 <= |r.sources| <= MAX_QUEUE_SOURCES
  {
    CanonicalListBound(NormalizeAll(names, reg.recipients).value);
    SourcesInOrderKeys(reg.sources);
    CanonicalListBound(SourceKeys(reg.sources));
  }

  /** A normalized registration can be read back exactly when its texts are short. */
  lemma LoadsExactly(names: LawfulResolver, hash: string -> string, reg: Registration)
    requires Acceptable(names, reg)
    ensures var r := Normalize(names, hash, reg).value; Loads(names, hash, r) <==> Short(r)
  {
    var r := Normalize(names, hash, reg).value;
    CanonicalSizes(names, hash, reg);
    SenderStability(names, reg.sender);
    forall x | x in r.recipients ensures Stable(names, x) <==> |x| <= MAX_RECIPIENT_BYTES {
      CanonicalRecipientStability(names, reg.recipients, x);
    }
    NormalizedSourcesValid(names, hash, reg);
  }

  lemma NormalizedSourcesValid(names: Resolver, hash: string -> string, reg: Registration)
    requires Acceptable(names, reg)
    ensures forall s | s in Normalize(names, hash, reg).value.sources :: ValidSource(names, s)
  {
    var sources := Normalize(names, hash, reg).value.sources;
    NormalizedIsWellFormed(names, hash, reg);
    forall s | s in sources ensures ValidSource(names, s) {
      assert s in Elements(sources);
    }
  }

  function AsRegistration(r: Record): Registration {
    Registration(r.queueId, r.fingerprint, r.sender, r.recipients, r.sources)
  }

  /** Normalization is idempotent exactly on the records whose canonical texts
      fit the length bound; every other normal form is refused when it comes back. */
  lemma NormalizeTwice(names: LawfulResolver, hash: string -> string, reg: Registration)
    requires Acceptable(names, reg)
    ensures var r := Normalize(names, hash, reg).value;
            Normalize(names, hash, AsRegistration(r)) == if Short(r) then Some(r) else None
  {
    var r := Normalize(names, hash, reg).value;
    CanonicalSizes(names, hash, reg);
    SenderStability(names, reg.sender);
    NormalizedIsWellFormed(names, hash, reg);
    NormalizedSourcesValid(names, hash, reg);
    forall x | x in r.recipients
      ensures (NormalizeRecipient(names, x).Some? <==> |x| <= MAX_RECIPIENT_BYTES)
      ensures Stable(names, x) <==> |x| <= MAX_RECIPIENT_BYTES
    {
      CanonicalRecipientStability(names, reg.recipients, x);
    }
    if Short(r) {
      StableTextsUnchanged(names, r.recipients);
      CanonicalListFixed(r.recipients);
      ValidSourcesHaveKinds(names, r.sources);
      SourcesInOrderCorrect(r.sources);
      CanonicalSourcesUnique(r.sources, SourcesInOrder(r.sources));
    }
  }

  lemma {:induction false} StableTextsUnchanged(names: Resolver, texts: seq<string>)
    requires forall x | x in texts :: Stable(names, x)
    ensures NormalizeAll(names, texts) == Some(texts)
  {
    if texts != [] {
      assert texts[0] in texts && texts == [texts[0]] + texts[1..];
      StableTextsUnchanged(names, texts[1..]);
    }
  }

  lemma CanonicalListFixed(s: seq<string>)
    requires Increasing(s)
    ensures CanonicalList(s) == s
  {
    CanonicalListCorrect(s);
    IncreasingIsDistinct(s);
    EnumerationUnique(CanonicalList(s), s, Elements(s));
  }

  type Table = map<string, Record>

  datatype Outcome = Created(record: Record) | Existing(record: Record) | Refused

  datatype Registered = Registered(rows: Table, outcome: Outcome)

  /** One Register transaction as a function of the table before it. */
  function RegisterStep(names: Resolver, hash: string -> string, rows: Table, reg: Registration): Registered {
    match Normalize(names, hash, reg)
    case None => Registered(rows, Refused)
    case Some(record) =>
      var stored := if record.queueId in rows then rows[record.queueId] else record;
      if !Loads(names, hash, stored) || !SameIdentity(stored, record) then Registered(rows, Refused)
      else if record.queueId in rows then Registered(rows, Existing(stored))
      else Registered(rows[record.queueId := record], Created(record))
  }

  /** The queue tables, one row with its child rows for each queue ID. */
  class QueueStore {
    var rows: Table

    constructor ()
      ensures rows == map[]
    {
      rows := map[];
    }

    /** Register: insert unless present, read back, compare; rolled back on any refusal. */
    method Register(names: Resolver, hash: string -> string, reg: Registration) returns (outcome: Outcome)
      modifies this
      ensures Registered(rows, outcome) == RegisterStep(names, hash, old(rows), reg)
    {
      var normalized := NormalizeRegistration(names, hash, reg);
      if normalized.None? { return Refused; }
      var record := normalized.value;
      var before := rows;
      var created := record.queueId !in rows;
      if created {
        rows := rows[record.queueId := record];
      }
      var stored := rows[record.queueId];
      var ok := LoadQueueRecord(names, hash, stored);
      if !ok || !SameIdentity(stored, record) {
        rows := before;
        return Refused;
      }
      outcome := if created then Created(stored) else Existing(stored);
    }
  }

  /** The table after registrations in order. */
  function RegisterAll(names: Resolver, hash: string -> string, rows: Table, regs: seq<Registration>): Table {
    if regs == [] then rows
    else RegisterStep(names, hash, RegisterAll(names, hash, rows, regs[..|regs| - 1]), regs[|regs| - 1]).rows
  }

  /** Rows are filed under their own queue ID, well formed and readable. */
  ghost predicate TableOk(names: Resolver, hash: string -> string, rows: Table) {
    forall id | id in rows :: RowOk(names, hash, id, rows[id])
  }

  ghost predicate RowOk(names: Resolver, hash: string -> string, id: string, r: Record) {
    r.queueId == id && WellFormed(hash, r) && Loads(names, hash, r)
  }

  /** A refused registration changes nothing; an accepted one adds at most its own row. */
  lemma RegisterShape(names: Resolver, hash: string -> string, rows: Table, reg: Registration)
    requires TableOk(names, hash, rows)
    ensures var after := RegisterStep(names, hash, rows, reg);
            if after.outcome.Created? then
              && reg.queueId !in rows && after.rows == rows[reg.queueId := after.outcome.record]
              && Acceptable(names, reg) && after.outcome.record == Normalize(names, hash, reg).value
              && RowOk(names, hash, reg.queueId, after.outcome.record)
            else after.rows == rows
  {
    if Acceptable(names, reg) { NormalizedIsWellFormed(names, hash, reg); }
  }

  /** Every row of `before` is still there, unchanged. */
  ghost predicate Preserves(before: Table, after: Table) {
    forall id | id in before :: id in after && after[id] == before[id]
  }

  lemma InsertKeeps(names: Resolver, hash: string -> string, rows: Table, id: string, r: Record)
    requires TableOk(names, hash, rows) && id !in rows && RowOk(names, hash, id, r)
    ensures TableOk(names, hash, rows[id := r]) && Preserves(rows, rows[id := r])
  {}

  lemma RegisterKeeps(names: Resolver, hash: string -> string, rows: Table, reg: Registration)
    requires TableOk(names, hash, rows)
    ensures var after := RegisterStep(names, hash, rows, reg).rows;
            TableOk(names, hash, after) && Preserves(rows, after)
  {
    RegisterShape(names, hash, rows, reg);
    var step := RegisterStep(names, hash, rows, reg);
    if step.outcome.Created? {
      InsertKeeps(names, hash, rows, reg.queueId, step.outcome.record);
    }
  }

  lemma {:induction false} RegisterAllKeeps(names: Resolver, hash: string -> string, rows: Table, regs: seq<Registration>)
    requires TableOk(names, hash, rows)
    ensures var after := RegisterAll(names, hash, rows, regs);
            TableOk(names, hash, after) && Preserves(rows, after)
  {
    if regs != [] {
      var shorter := regs[..|regs| - 1];
      RegisterAllKeeps(names, hash, rows, shorter);
      RegisterKeeps(names, hash, RegisterAll(names, hash, rows, shorter), regs[|regs| - 1]);
    }
  }

  /** The outcome of the `i`th of a sequence of registrations on empty tables. */
  function OutcomeAt(names: Resolver, hash: string -> string, regs: seq<Registration>, i: nat): Outcome
    requires i < |regs|
  {
    RegisterStep(names, hash, RegisterAll(names, hash, map[], regs[..i]), regs[i]).outcome
  }

  /** `reg` describes the stored message: same arrival and sender, and the same
      recipients and sources as sets, whatever their order or repetition. */
  ghost predicate Describes(names: Resolver, reg: Registration, r: Record) {
    && Acceptable(names, reg)
    && reg.queueId == r.queueId && reg.fingerprint == r.fingerprint && NormalizeSender(names, reg.sender).value == r.sender
    && Elements(NormalizeAll(names, reg.recipients).value) == Elements(r.recipients) && Elements(reg.sources) == Elements(r.sources)
  }

  lemma DescribesExactly(names: Resolver, hash: string -> string, reg: Registration, r: Record)
    requires WellFormed(hash, r)
    requires Acceptable(names, reg) ==> Distinguishes(hash, r, Normalize(names, hash, reg).value)
    ensures Describes(names, reg, r) <==> Acceptable(names, reg) && SameIdentity(r, Normalize(names, hash, reg).value)
  {
    if Acceptable(names, reg) {
      NormalizedIsWellFormed(names, hash, reg);
      SameIdentityExactly(hash, r, Normalize(names, hash, reg).value);
    }
  }

  /** A registration for a queue ID that has a row. */
  lemma RepeatOutcome(names: Resolver, hash: string -> string, rows: Table, reg: Registration)
    requires reg.queueId in rows && RowOk(names, hash, reg.queueId, rows[reg.queueId])
    requires Acceptable(names, reg) ==> Distinguishes(hash, rows[reg.queueId], Normalize(names, hash, reg).value)
    ensures RegisterStep(names, hash, rows, reg).outcome ==
            if Describes(names, reg, rows[reg.queueId]) then Existing(rows[reg.queueId]) else Refused
  {
    DescribesExactly(names, hash, reg, rows[reg.queueId]);
  }

  lemma CreatedDescribes(names: Resolver, hash: string -> string, rows: Table, reg: Registration)
    requires TableOk(names, hash, rows) && RegisterStep(names, hash, rows, reg).outcome.Created?
    ensures Describes(names, reg, RegisterStep(names, hash, rows, reg).outcome.record)
  {
    RegisterShape(names, hash, rows, reg);
    NormalizedIsWellFormed(names, hash, reg);
  }

  /** Whatever is registered before, between and after: the registration that
      creates a queue ID's row is the first acceptable readable one, it fixes the
      row for good, and every other registration for that ID is a no-op exactly
      when it describes the same message and is refused otherwise. */
  lemma FirstRegistrationBinds(names: Resolver, hash: string -> string, regs: seq<Registration>, i: nat, j: nat)
    requires i < j < |regs| && regs[j].queueId == regs[i].queueId
    requires OutcomeAt(names, hash, regs, i).Created?
    requires var r := OutcomeAt(names, hash, regs, i).record;
             Acceptable(names, regs[j]) ==> Distinguishes(hash, r, Normalize(names, hash, regs[j]).value)
    ensures var r := OutcomeAt(names, hash, regs, i).record;
            && Describes(names, regs[i], r)
            && r.queueId !in RegisterAll(names, hash, map[], regs[..i])
            && r.queueId in RegisterAll(names, hash, map[], regs)
            && RegisterAll(names, hash, map[], regs)[r.queueId] == r
            && OutcomeAt(names, hash, regs, j) == if Describes(names, regs[j], r) then Existing(r) else Refused
  {
    var r := OutcomeAt(names, hash, regs, i).record;
    var before := RegisterAll(names, hash, map[], regs[..i]);
    RegisterAllKeeps(names, hash, map[], regs[..i]);
    RegisterShape(names, hash, before, regs[i]);
    RegisterKeeps(names, hash, before, regs[i]);
    CreatedDescribes(names, hash, before, regs[i]);
    assert regs[..i + 1][..i] == regs[..i];
    RowStays(names, hash, regs, i, j, before[r.queueId := r]);
    RowStays(names, hash, regs, i, |regs|, before[r.queueId := r]);
    assert regs[..|regs|] == regs;
    RepeatOutcome(names, hash, RegisterAll(names, hash, map[], regs[..j]), regs[j]);
  }

  lemma {:induction false} RegisterAllAppend(names: Resolver, hash: string -> string, rows: Table, a: seq<Registration>, b: seq<Registration>)
    ensures RegisterAll(names, hash, rows, a + b) == RegisterAll(names, hash, RegisterAll(names, hash, rows, a), b)
  {
    if b == [] {
      assert a + b == a;
    } else {
      var c, last := b[..|b| - 1], b[|b| - 1];
      RegisterAllAppend(names, hash, rows, a, c);
      RegisterLast(names, hash, rows, a + c, last);
      RegisterLast(names, hash, RegisterAll(names, hash, rows, a), c, last);
      assert a + b == a + c + [last] && b == c + [last];
    }
  }

  lemma RegisterLast(names: Resolver, hash: string -> string, rows: Table, regs: seq<Registration>, last: Registration)
    ensures RegisterAll(names, hash, rows, regs + [last]) == RegisterStep(names, hash, RegisterAll(names, hash, rows, regs), last).rows
  {
    assert (regs + [last])[..|regs|] == regs;
  }

  lemma RowStays(names: Resolver, hash: string -> string, regs: seq<Registration>, i: nat, k: nat, created: Table)
    requires i < k <= |regs| && created == RegisterAll(names, hash, map[], regs[..i + 1]) && TableOk(names, hash, created)
    ensures var after := RegisterAll(names, hash, map[], regs[..k]);
            TableOk(names, hash, after) && Preserves(created, after)
  {
    assert regs[..k] == regs[..i + 1] + regs[i + 1..k];
    RegisterAllAppend(names, hash, map[], regs[..i + 1], regs[i + 1..k]);
    RegisterAllKeeps(names, hash, created, regs[i + 1..k]);
  }

  /** A queue ID without a row gets one exactly from an acceptable registration
      whose canonical texts are short enough to be read back. */
  lemma CreatedExactly(names: LawfulResolver, hash: string -> string, rows: Table, reg: Registration)
    requires TableOk(names, hash, rows) && reg.queueId !in rows
    ensures RegisterStep(names, hash, rows, reg).outcome.Created? <==>
            Acceptable(names, reg) && Short(Normalize(names, hash, reg).value)
  {
    if Acceptable(names, reg) { LoadsExactly(names, hash, reg); }
  }

  /** What Postfix reports about one queue file. */
  datatype Metadata = Metadata(queueId: string, fingerprint: string, sender: string, recipients: seq<string>, held: bool)

  /** matchesQueueMetadata. */
  predicate MatchesQueueMetadata(names: Resolver, hash: string -> string, r: Record, m: Metadata) {
    var candidate := Normalize(names, hash, Registration(m.queueId, m.fingerprint, m.sender, m.recipients, r.sources));
    candidate.Some? && SameIdentity(r, candidate.value)
  }

  /** The inspected file is the registered message: its arrival, its sender and
      its recipients as a set. */
  ghost predicate SameArrival(names: Resolver, r: Record, m: Metadata) {
    && m.queueId == r.queueId && m.fingerprint == r.fingerprint && NormalizeSender(names, m.sender) == Some(r.sender)
    && 1 <= |m.recipients| <= MAX_QUEUE_RECIPIENTS && NormalizeAll(names, m.recipients).Some?
    && Elements(NormalizeAll(names, m.recipients).value) == Elements(r.recipients)
  }

  /** On a row that loads, the comparison decides exactly that identity. */
  lemma MatchesExactly(names: Resolver, hash: string -> string, r: Record, m: Metadata)
    requires RowOk(names, hash, r.queueId, r)
    requires var reg := Registration(m.queueId, m.fingerprint, m.sender, m.recipients, r.sources);
             Acceptable(names, reg) ==> Distinguishes(hash, r, Normalize(names, hash, reg).value)
    ensures MatchesQueueMetadata(names, hash, r, m) <==> SameArrival(names, r, m)
  {
    DescribesExactly(names, hash, Registration(m.queueId, m.fingerprint, m.sender, m.recipients, r.sources), r);
  }

  /** Reordering or repeating what Postfix lists changes nothing. */
  lemma MatchIgnoresOrder(names: Resolver, hash: string -> string, r: Record, m: Metadata, n: Metadata)
    requires n == m.(recipients := n.recipients) && Elements(n.recipients) == Elements(m.recipients)
    requires 1 <= |m.recipients| <= MAX_QUEUE_RECIPIENTS && 1 <= |n.recipients| <= MAX_QUEUE_RECIPIENTS
    ensures MatchesQueueMetadata(names, hash, r, m) <==> MatchesQueueMetadata(names, hash, r, n)
  {
    assert forall x :: x in m.recipients <==> x in Elements(m.recipients);
    assert forall x :: x in n.recipients <==> x in Elements(n.recipients);
    if NormalizeAll(names, m.recipients).Some? {
      NormalizedSet(names, m.recipients);
      NormalizedSet(names, n.recipients);
      CanonicalListExactly(NormalizeAll(names, m.recipients).value, NormalizeAll(names, n.recipients).value);
    }
  }

  ghost function TextSet(names: Resolver, raw: set<string>): set<string> {
    set x | x in raw && NormalizeRecipient(names, x).Some? :: NormalizeRecipient(names, x).value.text
  }

  lemma {:induction false} NormalizedSet(names: Resolver, raw: seq<string>)
    requires NormalizeAll(names, raw).Some?
    ensures Elements(NormalizeAll(names, raw).value) == TextSet(names, Elements(raw))
  {
    if raw != [] {
      var first := NormalizeRecipient(names, raw[0]).value.text;
      NormalizedSet(names, raw[1..]);
      assert raw == [raw[0]] + raw[1..];
      ElementsAppend([raw[0]], raw[1..]);
      ElementsAppend([first], NormalizeAll(names, raw[1..]).value);
      TextSetGrows(names, raw[0], Elements(raw[1..]));
    }
  }

  lemma TextSetGrows(names: Resolver, x: string, rest: set<string>)
    requires NormalizeRecipient(names, x).Some?
    ensures TextSet(names, {x} + rest) == {NormalizeRecipient(names, x).value.text} + TextSet(names, rest)
  {}
}
