/** Admitting a queued message: its deliveries must be exactly the recipients that
    Postfix reports, each derived from the alias relation, and what is registered
    carries every source they derive from. */
module Admission {
  import opened Prelude
  import opened Names
  import opened Provenance
  import opened Expansion
  import opened Registry
  import opened PostfixQueue

  function CanonicalDelivery(names: Resolver, d: Delivery): Option<Delivery> {
    var original, final := NormalizeRecipient(names, d.original), NormalizeRecipient(names, d.recipient);
    if original.None? || final.None? then None else Some(Delivery(original.value.text, final.value.text))
  }

  ghost predicate Normalizable(names: Resolver, raw: seq<Delivery>) {
    forall d | d in raw :: CanonicalDelivery(names, d).Some?
  }

  ghost function CanonicalOr(names: Resolver, d: Delivery): Delivery {
    match CanonicalDelivery(names, d) case Some(c) => c case None => d
  }

  /** The deliveries with both addresses normalized. */
  ghost function Canonicals(names: Resolver, raw: seq<Delivery>): seq<Delivery> {
    seq(|raw|, i requires 0 <= i < |raw| => CanonicalOr(names, raw[i]))
  }

  /** The first loop of resolveExpansionDeliveries. */
  method NormalizeDeliveries(names: Resolver, raw: seq<Delivery>) returns (r: Option<seq<Delivery>>, originals: seq<string>)
    ensures r.Some? <==> Normalizable(names, raw)
    ensures r.Some? ==> r.value == Canonicals(names, raw) && originals == Originals(r.value)
  {
    var canonical: seq<Delivery> := [];
    originals := [];
    for i := 0 to |raw|
      invariant Normalizable(names, raw[..i])
      invariant canonical == Canonicals(names, raw[..i]) && originals == Originals(canonical)
    {
      var d := CanonicalDelivery(names, raw[i]);
      if d.None? {
        assert raw[i] in raw;
        return None, [];
      }
      OneMoreDelivery(names, raw, i, canonical, d.value);
      canonical := canonical + [d.value];
      originals := originals + [d.value.original];
    }
    assert raw[..|raw|] == raw;
    r := Some(canonical);
  }

  lemma OneMoreDelivery(names: Resolver, raw: seq<Delivery>, i: nat, canonical: seq<Delivery>, d: Delivery)
    requires i < |raw| && canonical == Canonicals(names, raw[..i]) && CanonicalDelivery(names, raw[i]) == Some(d)
    ensures Normalizable(names, raw[..i]) ==> Normalizable(names, raw[..i + 1])
    ensures canonical + [d] == Canonicals(names, raw[..i + 1])
    ensures Originals(canonical + [d]) == Originals(canonical) + [d.original]
  {
    assert raw[..i + 1] == raw[..i] + [raw[i]];
  }

  /** resolveExpansionDeliveries: the raw deliveries are accepted exactly when they
      normalize, their aliases load and each is derived; the result is exactly the
      sources they pass through. */
  method ResolveDeliveries(names: Resolver, dir: Directory, raw: seq<Delivery>) returns (r: Result<seq<QueueSource>, ExpansionError>)
    ensures r.Ok? <==> Normalizable(names, raw) && Derivable(names, dir, Canonicals(names, raw))
    ensures r.Ok? ==> forall s :: s in r.value <==> DeliverySource(BookOf(names, dir), Canonicals(names, raw), s)
  {
    var normalized, originals := NormalizeDeliveries(names, raw);
    if normalized.None? { return Err(InvalidOriginal); }
    BookDescribes(names, dir);
    r := ResolveExpansionDeliveries(names, dir, normalized.value, originals, BookOf(names, dir));
  }

  /** The alias relation loads from these deliveries and derives each of them. */
  ghost predicate Derivable(names: Resolver, dir: Directory, canonical: seq<Delivery>) {
    Loadable(BookOf(names, dir), Originals(canonical)) && forall d | d in canonical :: Derived(BookOf(names, dir), d)
  }

  function Finals(deliveries: seq<Delivery>): seq<string> {
    seq(|deliveries|, i requires 0 <= i < |deliveries| => deliveries[i].recipient)
  }

  /** Both lists normalize within their bounds to the same set of recipients. */
  ghost predicate SameRecipients(names: Resolver, a: seq<string>, b: seq<string>) {
    && 1 <= |a| <= MAX_QUEUE_RECIPIENTS && 1 <= |b| <= MAX_QUEUE_RECIPIENTS
    && NormalizeAll(names, a).Some? && NormalizeAll(names, b).Some?
    && Elements(NormalizeAll(names, a).value) == Elements(NormalizeAll(names, b).value)
  }

  /** validateQueueDeliveries: element-wise comparison of two canonical lists, which
      is equality of the two recipient sets. */
  method ValidateQueueDeliveries(names: Resolver, recipients: seq<string>, deliveries: seq<Delivery>) returns (ok: bool)
    ensures ok <==> SameRecipients(names, recipients, Finals(deliveries))
  {
    var want := CanonicalQueueRecipients(names, recipients);
    if want.None? { return false; }
    var got := CanonicalQueueRecipients(names, Finals(deliveries));
    if got.None? { return false; }
    CanonicalListExactly(NormalizeAll(names, recipients).value, NormalizeAll(names, Finals(deliveries)).value);
    ok := SameList(got.value, want.value);
  }

  method SameList(got: seq<string>, want: seq<string>) returns (ok: bool)
    ensures ok <==> got == want
  {
    if |got| != |want| { return false; }
    for i := 0 to |want|
      invariant got[..i] == want[..i]
    {
      if got[i] != want[i] { return false; }
    }
    assert got[..|got|] == got && want[..|want|] == want;
    ok := true;
  }

  /** What Admit accepts: the deliveries are the inspected recipients, every one is
      derived, and a claimed authority is established. */
  ghost predicate Admissible(names: Resolver, dir: Directory, m: Metadata, deliveries: seq<Delivery>, claimed: bool,
                             authority: Option<seq<QueueSource>>)
  {
    && !m.held && 1 <= |deliveries| <= MAX_QUEUE_RECIPIENTS && SameRecipients(names, m.recipients, Finals(deliveries))
    && (claimed ==> authority.Some?) && Normalizable(names, deliveries) && Derivable(names, dir, Canonicals(names, deliveries))
  }

  /** Exactly the claimed authority and the sources the deliveries pass through. */
  ghost predicate SourcesComplete(names: Resolver, dir: Directory, deliveries: seq<Delivery>, claimed: bool,
                                  authority: Option<seq<QueueSource>>, sources: seq<QueueSource>)
    requires claimed ==> authority.Some?
  {
    forall s :: s in sources <==>
      (claimed && s in authority.value) || DeliverySource(BookOf(names, dir), Canonicals(names, deliveries), s)
  }

  /** Admit. `authority` is what submissionSources yields for a claimed mailbox or
      system sender, None when it cannot be established. A message is registered
      with all its sources exactly when its deliveries are its recipients, each of
      them derived, and it has a source at all; otherwise nothing changes. */
  method Admit(names: Resolver, hash: string -> string, dir: Directory, store: QueueStore, m: Metadata, deliveries: seq<Delivery>,
               claimed: bool, authority: Option<seq<QueueSource>>)
    returns (outcome: Outcome, ghost sources: seq<QueueSource>)
    modifies store
    ensures Admissible(names, dir, m, deliveries, claimed, authority) ==>
              SourcesComplete(names, dir, deliveries, claimed, authority, sources)
    ensures if Admissible(names, dir, m, deliveries, claimed, authority) && sources != []
            then Registered(store.rows, outcome) ==
                 RegisterStep(names, hash, old(store.rows), Registration(m.queueId, m.fingerprint, m.sender, m.recipients, sources))
            else outcome.Refused? && store.rows == old(store.rows)
  {
    sources := [];
    if m.held || |deliveries| == 0 || |deliveries| > MAX_QUEUE_RECIPIENTS { return Outcome.Refused, sources; }
    var valid := ValidateQueueDeliveries(names, m.recipients, deliveries);
    if !valid || (claimed && authority.None?) { return Outcome.Refused, sources; }
    var expansion := ResolveDeliveries(names, dir, deliveries);
    if expansion.Err? { return Outcome.Refused, sources; }
    var all := (if claimed then authority.value else []) + expansion.value;
    sources := all;
    if |all| == 0 { return Outcome.Refused, sources; }
    outcome := store.Register(names, hash, Registration(m.queueId, m.fingerprint, m.sender, m.recipients, all));
  }
}
