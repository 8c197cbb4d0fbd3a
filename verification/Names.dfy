/** Envelope addresses and queue identifiers. `NormalizeDomain` (IDNA lookup),
    `mail.ParseAddress`, `strings.TrimSpace`, `strings.ToLower` and the object
    identifier check stay abstract: a `Resolver` is any choice of them, a
    `LawfulResolver` one that obeys the laws below. */
module Names {
  import opened Prelude
  import opened Framing

  const MAX_RECIPIENT_BYTES: nat := 254

  datatype Resolver = Resolver(
    trim: string -> string,              // strings.TrimSpace
    domain: string -> Option<string>,    // NormalizeDomain
    mailbox: string -> bool,             // mail.ParseAddress accepts it unchanged, with no display name
    lower: string -> string,             // strings.ToLower
    objectId: string -> bool)            // validQueueObjectID

  /** What the code relies on: normalization is idempotent, its results are
      non-empty and hold neither '@' nor NUL, and replacing what follows an '@'
      of a trimmed address by such a result leaves it trimmed. */
  ghost predicate Lawful(r: Resolver) {
    && (forall raw :: r.trim(r.trim(raw)) == r.trim(raw))
    && (forall raw :: r.domain(raw).Some? ==> Canonical(r, r.domain(raw).value))
    && (forall text, d {:trigger Rebase(text, d)} :: r.trim(text) == text && LastAt(text) >= 0 && Canonical(r, d)
          ==> r.trim(Rebase(text, d)) == Rebase(text, d))
  }

  ghost predicate Canonical(r: Resolver, d: string) {
    d != "" && '@' !in d && NulFree(d) && r.domain(d) == Some(d)
  }

  type LawfulResolver = r: Resolver | Lawful(r)
    ghost witness Resolver(s => s, s => None, s => false, s => s, s => false)

  /** Index of the last '@' among the first `n` bytes, or -1. */
  function LastAtBefore(s: string, n: nat): (at: int)
    requires n <= |s|
    ensures -1 <= at < n
    ensures at >= 0 ==> s[at] == '@'
    ensures forall i | at < i < n :: s[i] != '@'
  {
    if n == 0 then -1 else if s[n - 1] == '@' then n - 1 else LastAtBefore(s, n - 1)
  }

  /** `strings.LastIndexByte(s, '@')`. */
  function LastAt(s: string): (at: int)
    ensures -1 <= at < |s|
    ensures at >= 0 ==> s[at] == '@'
    ensures forall i | at < i < |s| :: s[i] != '@'
  {
    LastAtBefore(s, |s|)
  }

  lemma LastAtUnique(prefix: string, domain: string)
    requires prefix != "" && prefix[|prefix| - 1] == '@' && '@' !in domain
    ensures LastAt(prefix + domain) == |prefix| - 1
  {
    var s := prefix + domain;
    assert s[|prefix| - 1] == '@';
    assert forall i | |prefix| <= i < |s| :: s[i] == domain[i - |prefix|];
  }

  /** The text up to and including its last '@', followed by another domain. */
  function Rebase(text: string, domain: string): string {
    text[..LastAt(text) + 1] + domain
  }

  datatype Address = Address(text: string, domain: string)

  /** normalizeQueueRecipient: keeps the local part, canonicalizes the domain.
      The length bound is on the text as received. */
  function NormalizeRecipient(r: Resolver, raw: string): (a: Option<Address>) {
    var trimmed := r.trim(raw);
    var at := LastAt(trimmed);
    if |trimmed| == 0 || |trimmed| > MAX_RECIPIENT_BYTES || at <= 0 || at == |trimmed| - 1 then None
    else match r.domain(trimmed[at + 1..])
      case None => None
      case Some(domain) =>
        var canonical := Rebase(trimmed, domain);
        if r.mailbox(canonical) then Some(Address(canonical, domain)) else None
  }

  /** A list normalized element by element; one invalid element refuses it all. */
  function NormalizeAll(r: Resolver, raw: seq<string>): (texts: Option<seq<string>>)
    ensures texts.Some? ==> |texts.value| == |raw|
    ensures texts.Some? <==> forall x | x in raw :: NormalizeRecipient(r, x).Some?
  {
    if raw == [] then Some([])
    else
      var first, rest := NormalizeRecipient(r, raw[0]), NormalizeAll(r, raw[1..]);
      assert raw == [raw[0]] + raw[1..];
      if first.None? || rest.None? then None else Some([first.value.text] + rest.value)
  }

  lemma {:induction false} NormalizedOrigin(r: Resolver, raw: seq<string>, text: string) returns (i: nat)
    requires NormalizeAll(r, raw).Some? && text in NormalizeAll(r, raw).value
    ensures i < |raw| && NormalizeRecipient(r, raw[i]).Some? && NormalizeRecipient(r, raw[i]).value.text == text
  {
    if NormalizeRecipient(r, raw[0]).value.text == text {
      i := 0;
    } else {
      i := NormalizedOrigin(r, raw[1..], text);
      i := i + 1;
    }
  }

  /** recipientDomain. */
  function RecipientDomain(r: Resolver, raw: string): (d: Option<string>) {
    match NormalizeRecipient(r, raw)
    case None => None
    case Some(a) => Some(a.domain)
  }

  /** Normalizing twice is normalizing once exactly when the canonical text still
      fits the length bound that was checked on the raw text; the A-label form
      of a domain can be longer than what was received. */
  lemma RenormalizeExactly(r: LawfulResolver, raw: string)
    requires NormalizeRecipient(r, raw).Some?
    ensures var a := NormalizeRecipient(r, raw).value;
            NormalizeRecipient(r, a.text) == (if |a.text| <= MAX_RECIPIENT_BYTES then Some(a) else None)
  {
    var trimmed := r.trim(raw);
    var at := LastAt(trimmed);
    var prefix := trimmed[..at + 1];
    var domain := r.domain(trimmed[at + 1..]).value;
    var canonical := Rebase(trimmed, domain);
    assert Canonical(r, domain);
    assert r.trim(canonical) == canonical;
    LastAtUnique(prefix, domain);
    assert canonical[at + 1..] == domain;
    assert Rebase(canonical, domain) == canonical;
  }

  /** Texts that survive being read back from the database. */
  predicate Stable(r: Resolver, text: string) {
    NormalizeRecipient(r, text).Some? && NormalizeRecipient(r, text).value.text == text
  }

  /** `n` equal labels, joined by dots. */
  function Labels(text: string, n: nat): string {
    if n == 0 then "" else if n == 1 then text else text + "." + Labels(text, n - 1)
  }

  lemma {:induction false} LabelsFacts(text: string, n: nat)
    requires n > 0 && '@' !in text && NulFree(text)
    ensures |Labels(text, n)| == n * |text| + n - 1 && '@' !in Labels(text, n) && NulFree(Labels(text, n))
  {
    if n > 1 { LabelsFacts(text, n - 1); }
  }

  /** U+00FC in UTF-8, a byte per character, and its A-label. */
  const UMLAUT := "\U{C3}\U{BC}"
  const A_LABEL := "xn--tda"

  /** IDNA on domains made of `n` such labels. */
  function Umlauts(n: nat): Resolver {
    Resolver(s => s, s => if s == Labels(UMLAUT, n) || s == Labels(A_LABEL, n) then Some(Labels(A_LABEL, n)) else None,
             s => true, s => s, s => false)
  }

  lemma UmlautsAreLawful(n: nat)
    requires n > 0
    ensures Lawful(Umlauts(n))
  {
    LabelsFacts(A_LABEL, n);
    assert Canonical(Umlauts(n), Labels(A_LABEL, n));
  }

  /** The A-labels of a Unicode domain are longer than what was received. An address
      of 100 bytes with 31 labels is accepted; its canonical form has 255 bytes and
      is refused. */
  lemma RenormalizeCanFail(n: nat)
    requires n == 31
    ensures var r, raw := Umlauts(n), "abcdefg@" + Labels(UMLAUT, n);
            && Lawful(r) && |raw| == 100 && NormalizeRecipient(r, raw).Some?
            && |NormalizeRecipient(r, raw).value.text| == 255 && NormalizeRecipient(r, NormalizeRecipient(r, raw).value.text).None?
  {
    LabelsFacts(UMLAUT, n);
    LabelsFacts(A_LABEL, n);
    UmlautsAreLawful(n);
    UmlautAccepted(n);
    RenormalizeExactly(Umlauts(n), "abcdefg@" + Labels(UMLAUT, n));
  }

  lemma UmlautAccepted(n: nat)
    requires n > 0 && |Labels(UMLAUT, n)| <= 246
    ensures NormalizeRecipient(Umlauts(n), "abcdefg@" + Labels(UMLAUT, n)) ==
            Some(Address("abcdefg@" + Labels(A_LABEL, n), Labels(A_LABEL, n)))
  {
    var prefix, domain := "abcdefg@", Labels(UMLAUT, n);
    LabelsFacts(UMLAUT, n);
    LastAtUnique(prefix, domain);
    assert (prefix + domain)[8..] == domain;
    assert Rebase(prefix + domain, Labels(A_LABEL, n)) == prefix + Labels(A_LABEL, n);
  }

  /** The Postfix long queue ID alphabet: digits and consonants. */
  predicate QueueIdByte(c: char) {
    ('0' <= c <= '9' || 'B' <= c <= 'Z' || 'b' <= c <= 'z') && c !in {'E', 'I', 'O', 'U', 'e', 'i', 'o', 'u'}
  }

  /** validLongQueueID: the Postfix long queue ID alphabet and shape. */
  predicate ValidLongQueueID(id: string) {
    && 12 <= |id| <= 100
    && (forall c | c in id :: QueueIdByte(c))
    && (exists i :: 10 <= i < |id| - 1 && id[i] == 'z')
  }

  /** validLowerHexDigest: the text form of a SHA-256 digest. */
  predicate ValidLowerHexDigest(s: string) {
    |s| == 64 && forall c | c in s :: '0' <= c <= '9' || 'a' <= c <= 'f'
  }

  lemma IdentifiersAreNulFree(id: string)
    requires ValidLongQueueID(id) || ValidLowerHexDigest(id)
    ensures NulFree(id)
  {}
}
