/** Identity state and the daemon's projection of it. Addresses are taken as
    normalized (trimmed and lower-cased), which is how both sides key them. */
module Credentials {
  import opened Prelude

  const MAX_ACTIVE_APP_PASSWORDS: nat := 8

  datatype Mailbox = Mailbox(active: bool, verifier: string)

  datatype AppPassword = AppPassword(mailbox: string, verifier: string, revoked: bool)

  datatype Identity = Identity(mailboxes: map<string, Mailbox>, passwords: map<string, AppPassword>)

  /** What the daemon answers from. */
  datatype Projection = Projection(mailboxes: map<string, Mailbox>, verifiers: map<string, seq<string>>)

  // ----- identity mutations ------------------------------------------------------

  /** The active app passwords of a mailbox. */
  function Active(passwords: map<string, AppPassword>, key: string): set<string> {
    set id | id in passwords && passwords[id].mailbox == key && !passwords[id].revoked
  }

  datatype Mutation =
    | Replace(key: string, mailbox: Mailbox)
    | Scim(previous: string, key: string, mailbox: Mailbox)
    | NewPassword(id: string, key: string, verifier: string)
    | Revoke(key: string, id: string)

  /** An empty verifier keeps the stored one. */
  function Merge(mailboxes: map<string, Mailbox>, from: string, m: Mailbox): Mailbox {
    if m.verifier == "" && from in mailboxes then m.(verifier := mailboxes[from].verifier) else m
  }

  function Renamed(p: AppPassword, previous: string, key: string): AppPassword {
    if p.mailbox == previous then p.(mailbox := key) else p
  }

  function Rename(passwords: map<string, AppPassword>, previous: string, key: string): map<string, AppPassword> {
    map id | id in passwords :: Renamed(passwords[id], previous, key)
  }

  /** One mutation of the identity state; a refused one changes nothing. */
  function Mutate(i: Identity, m: Mutation): Identity {
    match m
    case Replace(key, mailbox) => i.(mailboxes := i.mailboxes[key := Merge(i.mailboxes, key, mailbox)])
    case Scim(previous, key, mailbox) =>
      var merged := Merge(i.mailboxes, previous, mailbox);
      if previous == "" || previous == key then i.(mailboxes := i.mailboxes[key := merged])
      else Identity((i.mailboxes - {previous})[key := merged], Rename(i.passwords, previous, key))
    case NewPassword(id, key, verifier) =>
      if key in i.mailboxes && |Active(i.passwords, key)| < MAX_ACTIVE_APP_PASSWORDS && id !in i.passwords
      then i.(passwords := i.passwords[id := AppPassword(key, verifier, false)]) else i
    case Revoke(key, id) =>
      if id in i.passwords && i.passwords[id].mailbox == key
      then i.(passwords := i.passwords[id := i.passwords[id].(revoked := true)]) else i
  }

  function MutateAll(i: Identity, ms: seq<Mutation>): Identity {
    if ms == [] then i else Mutate(MutateAll(i, ms[..|ms| - 1]), ms[|ms| - 1])
  }

  /** Every app password belongs to a mailbox that exists. */
  ghost predicate NoOrphans(i: Identity) {
    forall id | id in i.passwords :: i.passwords[id].mailbox in i.mailboxes
  }

  lemma NoOrphansStep(i: Identity, m: Mutation)
    requires NoOrphans(i)
    ensures NoOrphans(Mutate(i, m))
  {}

  lemma {:induction false} NoOrphansEver(i: Identity, ms: seq<Mutation>)
    requires NoOrphans(i)
    ensures NoOrphans(MutateAll(i, ms))
  {
    if ms != [] {
      NoOrphansEver(i, ms[..|ms| - 1]);
      NoOrphansStep(MutateAll(i, ms[..|ms| - 1]), ms[|ms| - 1]);
    }
  }

  // ----- the limit of eight ---------------------------------------------------------

  ghost predicate WithinLimit(i: Identity) {
    forall key :: |Active(i.passwords, key)| <= MAX_ACTIVE_APP_PASSWORDS
  }

  lemma RenameCount(passwords: map<string, AppPassword>, previous: string, key: string, other: string)
    requires previous != key
    ensures |Active(Rename(passwords, previous, key), other)| ==
            if other == key then |Active(passwords, previous)| + |Active(passwords, key)|
            else if other == previous then 0 else |Active(passwords, other)|
  {
    var after := Active(Rename(passwords, previous, key), other);
    if other == key {
      assert after == Active(passwords, previous) + Active(passwords, key);
      assert Active(passwords, previous) !! Active(passwords, key);
    } else if other == previous {
      assert after == {};
    } else {
      assert after == Active(passwords, other);
    }
  }

  /** A rename that pools more than eight active app passwords. */
  ghost predicate Overflows(i: Identity, m: Mutation) {
    && m.Scim? && m.previous != "" && m.previous != m.key
    && |Active(i.passwords, m.previous)| + |Active(i.passwords, m.key)| > MAX_ACTIVE_APP_PASSWORDS
  }

  lemma RenameLimit(i: Identity, m: Mutation)
    requires WithinLimit(i) && m.Scim? && m.previous != "" && m.previous != m.key
    ensures WithinLimit(Mutate(i, m)) <==> !Overflows(i, m)
  {
    var after := Mutate(i, m);
    forall other ensures |Active(after.passwords, other)| ==
                         if other == m.key then |Active(i.passwords, m.previous)| + |Active(i.passwords, m.key)|
                         else if other == m.previous then 0 else |Active(i.passwords, other)|
    {
      RenameCount(i.passwords, m.previous, m.key, other);
    }
  }

  lemma PasswordLimit(i: Identity, m: Mutation)
    requires WithinLimit(i) && (m.NewPassword? || m.Revoke?)
    ensures WithinLimit(Mutate(i, m))
  {
    forall other ensures |Active(Mutate(i, m).passwords, other)| <= MAX_ACTIVE_APP_PASSWORDS {
      if m.NewPassword? { NewPasswordCount(i, m, other); } else { RevokeCount(i, m, other); }
    }
  }

  lemma NewPasswordCount(i: Identity, m: Mutation, other: string)
    requires m.NewPassword?
    ensures var after := Mutate(i, m).passwords;
            |Active(after, other)| == |Active(i.passwords, other)| + if after != i.passwords && other == m.key then 1 else 0
  {
    var after := Mutate(i, m).passwords;
    if after != i.passwords { AddedCount(i.passwords, m.id, AppPassword(m.key, m.verifier, false), other); }
  }

  lemma AddedCount(passwords: map<string, AppPassword>, id: string, p: AppPassword, other: string)
    requires id !in passwords && !p.revoked
    ensures |Active(passwords[id := p], other)| == |Active(passwords, other)| + if p.mailbox == other then 1 else 0
  {
    assert id !in Active(passwords, other);
    if p.mailbox == other {
      assert Active(passwords[id := p], other) == Active(passwords, other) + {id};
    } else {
      assert Active(passwords[id := p], other) == Active(passwords, other);
    }
  }

  lemma RevokeCount(i: Identity, m: Mutation, other: string)
    requires m.Revoke?
    ensures |Active(Mutate(i, m).passwords, other)| <= |Active(i.passwords, other)|
  {
    SubsetCount(Active(Mutate(i, m).passwords, other), Active(i.passwords, other));
  }

  /** Only a rename can break the limit, and it does exactly when the two
      addresses together hold more than eight active app passwords. */
  lemma LimitExactly(i: Identity, m: Mutation)
    requires WithinLimit(i)
    ensures WithinLimit(Mutate(i, m)) <==> !Overflows(i, m)
  {
    if m.NewPassword? || m.Revoke? {
      PasswordLimit(i, m);
    } else if m.Scim? && m.previous != "" && m.previous != m.key {
      RenameLimit(i, m);
    } else {
      assert Mutate(i, m).passwords == i.passwords;
    }
  }

  function Named(n: nat): string {
    if n == 0 then "" else "p" + Named(n - 1)
  }

  lemma {:induction false} NamedLength(n: nat)
    ensures |Named(n)| == n && "q" != Named(n)
  {
    if n > 0 {
      NamedLength(n - 1);
      assert Named(n)[0] == 'p';
    }
  }

  /** `n` active app passwords of one mailbox. */
  function Pool(n: nat, key: string): map<string, AppPassword> {
    if n == 0 then map[] else Pool(n - 1, key)[Named(n) := AppPassword(key, "v", false)]
  }

  lemma {:induction false} PoolCount(n: nat, key: string, other: string)
    ensures |Active(Pool(n, key), other)| == if other == key then n else 0
    ensures forall id | id in Pool(n, key) :: |id| <= n && id != "q"
  {
    if n > 0 {
      PoolCount(n - 1, key, other);
      NamedLength(n);
      AddedCount(Pool(n - 1, key), Named(n), AppPassword(key, "v", false), other);
    } else {
      assert Active(Pool(0, key), other) == {};
    }
  }

  /** A mailbox with `n` app passwords, and one that was loaded for an address
      without a mailbox. */
  function PoolAndOrphan(n: nat): Identity {
    Identity(map["a" := Mailbox(true, "v")], Pool(n, "a")["q" := AppPassword("b", "v", false)])
  }

  lemma PoolAndOrphanCount(n: nat, other: string)
    ensures |Active(PoolAndOrphan(n).passwords, other)| == if other == "a" then n else if other == "b" then 1 else 0
  {
    PoolCount(n, "a", other);
    AddedCount(Pool(n, "a"), "q", AppPassword("b", "v", false), other);
  }

  /** The limit can break: renaming a full mailbox to the orphan's address. */
  lemma LimitCanBreak(full: nat)
    requires full == MAX_ACTIVE_APP_PASSWORDS
    ensures var i := PoolAndOrphan(full);
            WithinLimit(i) && !WithinLimit(Mutate(i, Scim("a", "b", Mailbox(true, ""))))
  {
    forall other ensures |Active(PoolAndOrphan(full).passwords, other)| <= MAX_ACTIVE_APP_PASSWORDS {
      PoolAndOrphanCount(full, other);
    }
    PoolAndOrphanCount(full, "a");
    PoolAndOrphanCount(full, "b");
    LimitExactly(PoolAndOrphan(full), Scim("a", "b", Mailbox(true, "")));
  }

  // ----- the projection ------------------------------------------------------------

  /** `verifiers` lists the active app passwords of `key`, one each, in the order of `ids`. */
  ghost predicate Lists(ids: seq<string>, verifiers: seq<string>, passwords: map<string, AppPassword>, key: string) {
    && Distinct(ids) && Elements(ids) == Active(passwords, key) && |ids| == |verifiers|
    && forall i | 0 <= i < |ids| :: ids[i] in passwords && verifiers[i] == passwords[ids[i]].verifier
  }

  ghost predicate Listed(verifiers: seq<string>, passwords: map<string, AppPassword>, key: string) {
    exists ids :: Lists(ids, verifiers, passwords, key)
  }

  function VerifiersOf(d: Projection, key: string): seq<string> {
    if key in d.verifiers then d.verifiers[key] else []
  }

  /** The projection's mailboxes are the identity's, and each one's verifiers list
      exactly its active app passwords. */
  ghost predicate InSync(i: Identity, d: Projection) {
    d.mailboxes == i.mailboxes && forall key | key in i.mailboxes :: Listed(VerifiersOf(d, key), i.passwords, key)
  }

  function MailboxOf(mailboxes: map<string, Mailbox>, key: string): Option<Mailbox> {
    if key in mailboxes then Some(mailboxes[key]) else None
  }

  /** The addresses where the projection is wrong: about the mailbox, and about the
      app passwords. */
  datatype Gaps = Gaps(boxes: iset<string>, lists: iset<string>)

  ghost function GapsOf(i: Identity, d: Projection): Gaps {
    Gaps(iset key | MailboxOf(d.mailboxes, key) != MailboxOf(i.mailboxes, key),
         iset key | !Listed(VerifiersOf(d, key), i.passwords, key))
  }

  lemma InSyncGaps(i: Identity, d: Projection)
    ensures InSync(i, d) <==> GapsOf(i, d).boxes == iset{} && forall key | key in i.mailboxes :: key !in GapsOf(i, d).lists
  {
    if GapsOf(i, d).boxes == iset{} {
      forall key ensures MailboxOf(d.mailboxes, key) == MailboxOf(i.mailboxes, key) {
        assert key !in GapsOf(i, d).boxes;
      }
      assert forall key :: key in d.mailboxes <==> MailboxOf(d.mailboxes, key).Some?;
      assert forall key :: key in i.mailboxes <==> MailboxOf(i.mailboxes, key).Some?;
      assert forall key | key in i.mailboxes :: Some(d.mailboxes[key]) == MailboxOf(d.mailboxes, key) == Some(i.mailboxes[key]);
      SameMap(d.mailboxes, i.mailboxes);
    }
  }

  // ----- authentication --------------------------------------------------------------

  type Check = (string, string) -> bool

  /** VerifyDovecot on identity state. */
  ghost predicate VerifyDovecot(check: Check, i: Identity, key: string, secret: string) {
    && key in i.mailboxes && i.mailboxes[key].active
    && (check(i.mailboxes[key].verifier, secret)
        || (|Active(i.passwords, key)| <= MAX_ACTIVE_APP_PASSWORDS
            && exists id :: id in Active(i.passwords, key) && check(i.passwords[id].verifier, secret)))
  }

  datatype Response = Accepted | Deferred | Rejected | NotFound | Failed

  datatype PassdbRequest = PassdbRequest(protocol: string, key: string, secret: string, oidc: bool)

  ghost function Passdb(check: Check, d: Projection, available: bool, audited: bool, req: PassdbRequest): Response {
    if !available then Deferred
    else if req.protocol != "imap" && req.protocol != "submission" then Failed
    else if req.key !in d.mailboxes then NotFound
    else if !d.mailboxes[req.key].active || req.oidc then Rejected
    else if check(d.mailboxes[req.key].verifier, req.secret) then (if audited then Accepted else Deferred)
    else if |VerifiersOf(d, req.key)| > MAX_ACTIVE_APP_PASSWORDS then Failed
    else if exists v :: v in VerifiersOf(d, req.key) && check(v, req.secret) then (if audited then Accepted else Deferred)
    else Rejected
  }

  lemma ListedFacts(verifiers: seq<string>, passwords: map<string, AppPassword>, key: string, check: Check, secret: string)
    requires Listed(verifiers, passwords, key)
    ensures |verifiers| == |Active(passwords, key)|
    ensures (exists v :: v in verifiers && check(v, secret)) <==>
            exists id :: id in Active(passwords, key) && check(passwords[id].verifier, secret)
  {
    var ids :| Lists(ids, verifiers, passwords, key);
    DistinctCount(ids);
    if id :| id in Active(passwords, key) && check(passwords[id].verifier, secret) {
      assert id in Elements(ids);
      var n :| 0 <= n < |ids| && ids[n] == id;
      assert verifiers[n] in verifiers;
    }
    if v :| v in verifiers && check(v, secret) {
      var n :| 0 <= n < |verifiers| && verifiers[n] == v;
      assert ids[n] in Elements(ids);
    }
  }

  /** Where the projection is right about an address, the daemon accepts a secret
      for it exactly when the identity service does, for the supported protocols,
      secrets that do not look like OIDC tokens, and a working database and audit. */
  lemma DaemonAgrees(check: Check, i: Identity, d: Projection, req: PassdbRequest)
    requires req.key !in GapsOf(i, d).boxes && (req.key in i.mailboxes ==> req.key !in GapsOf(i, d).lists)
    requires (req.protocol == "imap" || req.protocol == "submission") && !req.oidc
    ensures Passdb(check, d, true, true, req) == Accepted <==> VerifyDovecot(check, i, req.key, req.secret)
  {
    if req.key in i.mailboxes {
      ListedFacts(VerifiersOf(d, req.key), i.passwords, req.key, check, req.secret);
    }
  }

  // ----- how far one push of the projection reaches ----------------------------------

  lemma SameActive(verifiers: seq<string>, before: map<string, AppPassword>, after: map<string, AppPassword>, key: string)
    requires Listed(verifiers, before, key) && Active(after, key) == Active(before, key)
    requires forall id | id in Active(before, key) :: after[id].verifier == before[id].verifier
    ensures Listed(verifiers, after, key)
  {
    var ids :| Lists(ids, verifiers, before, key);
    forall n | 0 <= n < |ids| ensures ids[n] in after && verifiers[n] == after[ids[n]].verifier {
      assert ids[n] in Elements(ids);
    }
    assert Lists(ids, verifiers, after, key);
  }

  /** The mailboxes, and the lists of app passwords, that the service pushes. */
  ghost function PushedBoxes(m: Mutation): iset<string> {
    match m
    case Replace(key, _) => iset{key}
    case Scim(previous, key, _) => if previous == "" then iset{key} else iset{previous, key}
    case _ => iset{}
  }

  ghost function PushedLists(i: Identity, m: Mutation): iset<string> {
    match m
    case Replace(_, _) => iset{}
    case Scim(previous, key, _) => if previous == "" then iset{key} else iset{previous, key}
    case NewPassword(_, key, _) => if Mutate(i, m) == i then iset{} else iset{key}
    case Revoke(key, _) => if Mutate(i, m) == i then iset{} else iset{key}
  }

  lemma UntouchedList(i: Identity, m: Mutation, key: string, verifiers: seq<string>)
    requires key !in PushedLists(i, m)
    ensures Listed(verifiers, i.passwords, key) <==> Listed(verifiers, Mutate(i, m).passwords, key)
  {
    if Listed(verifiers, i.passwords, key) { SameActive(verifiers, i.passwords, Mutate(i, m).passwords, key); }
    if Listed(verifiers, Mutate(i, m).passwords, key) { SameActive(verifiers, Mutate(i, m).passwords, i.passwords, key); }
  }

  /** After a mutation the projection is right about what was pushed, and holds what
      it held about everything else. */
  ghost predicate Pushed(i: Identity, d: Projection, m: Mutation, e: Projection) {
    var after := Mutate(i, m);
    && (forall key :: MailboxOf(e.mailboxes, key) == MailboxOf(if key in PushedBoxes(m) then after.mailboxes else d.mailboxes, key))
    && (forall key | key in PushedLists(i, m) :: Listed(VerifiersOf(e, key), after.passwords, key))
    && (forall key | key !in PushedLists(i, m) :: VerifiersOf(e, key) == VerifiersOf(d, key))
  }

  ghost function GapsAfter(i: Identity, g: Gaps, m: Mutation): Gaps {
    Gaps(g.boxes - PushedBoxes(m), g.lists - PushedLists(i, m))
  }

  /** A mutation closes the gaps it pushes over, and opens none. */
  lemma PushClosesGaps(i: Identity, d: Projection, m: Mutation, e: Projection)
    requires Pushed(i, d, m, e)
    ensures GapsOf(Mutate(i, m), e) == GapsAfter(i, GapsOf(i, d), m)
  {
    var after, g := GapsOf(Mutate(i, m), e), GapsAfter(i, GapsOf(i, d), m);
    forall key ensures key in after.boxes <==> key in g.boxes {
      assert MailboxOf(e.mailboxes, key) == MailboxOf(if key in PushedBoxes(m) then Mutate(i, m).mailboxes else d.mailboxes, key);
    }
    forall key ensures key in after.lists <==> key in g.lists {
      if key !in PushedLists(i, m) { UntouchedList(i, m, key, VerifiersOf(d, key)); }
    }
    assert after.boxes == g.boxes && after.lists == g.lists;
  }

  // ----- runs of the service ---------------------------------------------------------

  datatype Pair = Pair(identity: Identity, projection: Projection)

  ghost function GapsAt(x: Pair): Gaps {
    GapsOf(x.identity, x.projection)
  }

  /** One operation of the service: the mutation, and exactly its gaps closed. */
  ghost predicate Follows(x: Pair, m: Mutation, y: Pair) {
    y.identity == Mutate(x.identity, m) && GapsAt(y) == GapsAfter(x.identity, GapsAt(x), m)
  }

  ghost predicate Served(h: seq<Pair>, ms: seq<Mutation>) {
    |h| == |ms| + 1 && forall k | 0 <= k < |ms| :: Follows(h[k], ms[k], h[k + 1])
  }

  /** Whatever the service does, the projection is wrong about no address it was
      not wrong about before. */
  lemma {:induction false} GapsNeverGrow(h: seq<Pair>, ms: seq<Mutation>, k: nat)
    requires Served(h, ms) && k < |h|
    ensures GapsAt(h[k]).boxes <= GapsAt(h[0]).boxes && GapsAt(h[k]).lists <= GapsAt(h[0]).lists
  {
    if k > 0 {
      GapsNeverGrow(h, ms, k - 1);
      assert Follows(h[k - 1], ms[k - 1], h[k]);
    }
  }

  /** Once it is right about every address it is right about every address for good. */
  lemma AlwaysInSync(h: seq<Pair>, ms: seq<Mutation>, k: nat)
    requires Served(h, ms) && k < |h| && GapsAt(h[0]) == Gaps(iset{}, iset{})
    ensures InSync(h[k].identity, h[k].projection)
  {
    GapsNeverGrow(h, ms, k);
    InSyncGaps(h[k].identity, h[k].projection);
  }

  lemma NothingListed(passwords: map<string, AppPassword>, key: string)
    ensures Listed([], passwords, key) <==> Active(passwords, key) == {}
  {
    if Active(passwords, key) == {} {
      assert Lists([], [], passwords, key);
    }
    if Listed([], passwords, key) {
      var ids :| Lists(ids, [], passwords, key);
      assert ids == [];
    }
  }

  /** What binding leaves of the gaps: those at addresses without a mailbox. */
  ghost function GapsBound(i: Identity, g: Gaps): Gaps {
    Gaps(iset key | key in g.boxes && key !in i.mailboxes, iset key | key in g.lists && key !in i.mailboxes)
  }

  /** Bound to an empty daemon, the projection is wrong about an address exactly when
      active app passwords were loaded for it and no mailbox was: never, if there
      are no orphans. */
  lemma BoundExactly(i: Identity)
    ensures var g := GapsBound(i, GapsOf(i, Projection(map[], map[])));
            g.boxes == iset{} && g.lists == iset key | key !in i.mailboxes && Active(i.passwords, key) != {}
    ensures NoOrphans(i) ==> GapsBound(i, GapsOf(i, Projection(map[], map[]))) == Gaps(iset{}, iset{})
  {
    var g := GapsBound(i, GapsOf(i, Projection(map[], map[])));
    forall key ensures key in g.lists <==> key !in i.mailboxes && Active(i.passwords, key) != {} {
      NothingListed(i.passwords, key);
    }
    if NoOrphans(i) {
      forall key ensures key !in g.lists {
        if id :| id in Active(i.passwords, key) { assert i.passwords[id].mailbox in i.mailboxes; }
      }
    }
  }

  /** From a loaded state and an empty daemon, over any run: the daemon is right about
      every mailbox, and wrong about app passwords at most for an address that was
      loaded with some and without its mailbox. */
  lemma WrongOnlyAboutOrphans(loaded: Identity, h: seq<Pair>, ms: seq<Mutation>, k: nat, key: string)
    requires Served(h, ms) && k < |h| && GapsAt(h[0]) == GapsBound(loaded, GapsOf(loaded, Projection(map[], map[])))
    ensures key !in GapsAt(h[k]).boxes
    ensures key in GapsAt(h[k]).lists ==> key !in loaded.mailboxes && Active(loaded.passwords, key) != {}
  {
    GapsNeverGrow(h, ms, k);
    BoundExactly(loaded);
  }

  /** CreateOrReplaceUser pushes the mailbox but not its app passwords: a projection
      that was in sync stays so exactly when it was not wrong about the app passwords
      waiting for that address. */
  lemma ReplaceSyncsExactly(x: Pair, key: string, mailbox: Mailbox, y: Pair)
    requires InSync(x.identity, x.projection) && Follows(x, Replace(key, mailbox), y)
    ensures InSync(y.identity, y.projection) <==> key !in GapsAt(x).lists
    ensures key in x.identity.mailboxes ==> key !in GapsAt(x).lists
    ensures key !in x.projection.verifiers ==> (key in GapsAt(x).lists <==> Active(x.identity.passwords, key) != {})
  {
    InSyncGaps(x.identity, x.projection);
    InSyncGaps(y.identity, y.projection);
    NothingListed(x.identity.passwords, key);
    assert forall other :: other in y.identity.mailboxes <==> other in x.identity.mailboxes || other == key;
  }

  /** An app password loaded for an address without a mailbox. */
  function Orphan(): Identity {
    Identity(map[], map["q" := AppPassword("b", "s", false)])
  }

  /** What CreateOrReplaceUser pushes. */
  function ReplacePush(i: Identity, d: Projection, key: string, mailbox: Mailbox): Projection {
    d.(mailboxes := d.mailboxes[key := Merge(i.mailboxes, key, mailbox)])
  }

  lemma ReplacePushes(i: Identity, d: Projection, key: string, mailbox: Mailbox)
    ensures Follows(Pair(i, d), Replace(key, mailbox), Pair(Mutate(i, Replace(key, mailbox)), ReplacePush(i, d, key, mailbox)))
  {
    assert Pushed(i, d, Replace(key, mailbox), ReplacePush(i, d, key, mailbox));
    PushClosesGaps(i, d, Replace(key, mailbox), ReplacePush(i, d, key, mailbox));
  }

  /** Sync can be lost: creating the mailbox that the orphan was waiting for. The
      identity service then accepts its secret and the daemon rejects it. */
  lemma ReplaceCanLoseSync()
    ensures var d, box := Projection(map[], map[]), Mailbox(true, "v");
            var i, e := Mutate(Orphan(), Replace("b", box)), ReplacePush(Orphan(), d, "b", box);
            var check := (verifier: string, secret: string) => verifier == secret;
            && InSync(Orphan(), d) && !InSync(i, e)
            && VerifyDovecot(check, i, "b", "s") && Passdb(check, e, true, true, PassdbRequest("imap", "b", "s", false)) == Rejected
  {
    var d, box := Projection(map[], map[]), Mailbox(true, "v");
    OrphanIsActive();
    ReplacePushes(Orphan(), d, "b", box);
    ReplaceSyncsExactly(Pair(Orphan(), d), "b", box, Pair(Mutate(Orphan(), Replace("b", box)), ReplacePush(Orphan(), d, "b", box)));
  }

  lemma OrphanIsActive()
    ensures "q" in Active(Orphan().passwords, "b") && |Active(Orphan().passwords, "b")| == 1
  {
    assert Active(Orphan().passwords, "b") == {"q"};
  }
}
