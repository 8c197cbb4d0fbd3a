/** The database objects that a queued message derives its authority from. */
module Provenance {
  import opened Prelude
  import opened Framing
  import opened Names

  const MAX_QUEUE_RECIPIENTS: nat := 10000
  const MAX_QUEUE_SOURCES: nat := 64

  datatype SourceKind =
    | AuthenticatedMailbox
    | EnvelopeSender
    | SystemSender
    | SourceAlias
    | SourceForward
    | SourceList
    | SourceCatchAll
    | UnknownKind(text: string)

  datatype QueueSource = QueueSource(kind: SourceKind, objectId: string)

  /** validSourceKind: unknown texts are representable but refused. */
  predicate ValidSourceKind(kind: SourceKind) {
    !kind.UnknownKind?
  }

  predicate ValidSource(names: Resolver, source: QueueSource) {
    ValidSourceKind(source.kind) && names.objectId(source.objectId)
  }

  function KindText(kind: SourceKind): string {
    match kind
    case AuthenticatedMailbox => "authenticated_mailbox"
    case EnvelopeSender => "envelope_sender"
    case SystemSender => "system_sender"
    case SourceAlias => "alias"
    case SourceForward => "forward"
    case SourceList => "list"
    case SourceCatchAll => "catch_all"
    case UnknownKind(text) => text
  }

  /** The key under which a source is collected in Go maps. */
  function SourceKey(source: QueueSource): string {
    KindText(source.kind) + "\0" + source.objectId
  }

  lemma KindTextsDiffer(a: SourceKind, b: SourceKind)
    requires ValidSourceKind(a) && ValidSourceKind(b) && KindText(a) == KindText(b)
    ensures a == b && NulFree(KindText(a))
  {}

  /** Collecting sources by key is collecting them as a set. */
  lemma SourceKeyInjective(a: QueueSource, b: QueueSource)
    requires ValidSourceKind(a.kind) && ValidSourceKind(b.kind)
    requires SourceKey(a) == SourceKey(b)
    ensures a == b
  {
    KindTextsDiffer(a.kind, a.kind);
    KindTextsDiffer(b.kind, b.kind);
    NulSplit(KindText(a.kind), KindText(b.kind), a.objectId, b.objectId);
    KindTextsDiffer(a.kind, b.kind);
  }
}
