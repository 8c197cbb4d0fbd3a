/** The identity service pushing its state into the daemon after each mutation. */
module CredentialService {
  import opened Prelude
  import opened Credentials

  class Daemon {
    var mailboxes: map<string, Mailbox>
    var verifiers: map<string, seq<string>>

    constructor ()
      ensures View() == Projection(map[], map[])
    {
      mailboxes, verifiers := map[], map[];
    }

    function View(): Projection
      reads this
    {
      Projection(mailboxes, verifiers)
    }

    method UpsertIdentityMailbox(key: string, m: Mailbox)
      modifies this
      ensures View() == old(View()).(mailboxes := old(mailboxes)[key := m])
    {
      mailboxes := mailboxes[key := m];
    }

    method DeleteIdentityMailbox(key: string)
      modifies this
      ensures View() == Projection(old(mailboxes) - {key}, old(verifiers) - {key})
    {
      mailboxes := mailboxes - {key};
      verifiers := verifiers - {key};
    }

    method SetAppPasswordVerifiers(key: string, list: seq<string>)
      modifies this
      ensures View() == old(View()).(verifiers := old(verifiers)[key := list])
    {
      verifiers := verifiers[key := list];
    }

    /** DovecotPassdb: the mailbox password first, then each app password. */
    method DovecotPassdb(check: Check, available: bool, audited: bool, req: PassdbRequest) returns (r: Response)
      ensures r == Passdb(check, View(), available, audited, req)
    {
      if !available { return Deferred; }
      if req.protocol != "imap" && req.protocol != "submission" { return Failed; }
      if req.key !in mailboxes { return NotFound; }
      if !mailboxes[req.key].active || req.oidc { return Rejected; }
      if check(mailboxes[req.key].verifier, req.secret) { return if audited then Accepted else Deferred; }
      var list := VerifiersOf(View(), req.key);
      if |list| > MAX_ACTIVE_APP_PASSWORDS { return Failed; }
      for n := 0 to |list|
        invariant forall k | 0 <= k < n :: !check(list[k], req.secret)
      {
        if check(list[n], req.secret) { return if audited then Accepted else Deferred; }
      }
      r := Rejected;
    }
  }

  class IdentityService {
    const daemon: Daemon
    var mailboxes: map<string, Mailbox>
    var passwords: map<string, AppPassword>

    /** Loaded identity state and the daemon it will be bound to, which may already
        hold mailboxes of its own. */
    constructor (loaded: Identity, daemon: Daemon)
      ensures this.daemon == daemon && View() == loaded
    {
      this.daemon := daemon;
      mailboxes, passwords := loaded.mailboxes, loaded.passwords;
    }

    /** BindDaemon: pushes every mailbox, then every mailbox's app passwords. */
    method BindDaemon()
      modifies daemon
      ensures GapsAt(Both()) == GapsBound(View(), GapsAt(old(Both())))
    {
      PushMailboxes();
      PushPasswords();
      assert GapsAt(Both()).boxes == GapsBound(View(), GapsAt(old(Both()))).boxes;
      assert GapsAt(Both()).lists == GapsBound(View(), GapsAt(old(Both()))).lists;
    }

    method PushMailboxes()
      modifies daemon
      ensures daemon.verifiers == old(daemon.verifiers)
      ensures forall k :: MailboxOf(daemon.mailboxes, k) == MailboxOf(if k in mailboxes then mailboxes else old(daemon.mailboxes), k)
    {
      var rest := mailboxes.Keys;
      while rest != {}
        invariant rest <= mailboxes.Keys && daemon.verifiers == old(daemon.verifiers)
        invariant forall k :: MailboxOf(daemon.mailboxes, k) ==
                              MailboxOf(if k in mailboxes && k !in rest then mailboxes else old(daemon.mailboxes), k)
        decreases rest
      {
        var key :| key in rest;
        daemon.UpsertIdentityMailbox(key, mailboxes[key]);
        rest := rest - {key};
      }
    }

    method PushPasswords()
      modifies daemon
      ensures daemon.mailboxes == old(daemon.mailboxes)
      ensures forall k :: if k in mailboxes then Listed(VerifiersOf(daemon.View(), k), passwords, k)
                          else VerifiersOf(daemon.View(), k) == VerifiersOf(old(daemon.View()), k)
    {
      var rest := mailboxes.Keys;
      while rest != {}
        invariant rest <= mailboxes.Keys && daemon.mailboxes == old(daemon.mailboxes)
        invariant forall k :: if k in mailboxes && k !in rest then Listed(VerifiersOf(daemon.View(), k), passwords, k)
                              else VerifiersOf(daemon.View(), k) == VerifiersOf(old(daemon.View()), k)
        decreases rest
      {
        var key :| key in rest;
        ghost var shown := daemon.View();
        SyncAppPasswords(key);
        assert forall k | k != key :: VerifiersOf(daemon.View(), k) == VerifiersOf(shown, k);
        rest := rest - {key};
      }
    }

    function View(): Identity
      reads this
    {
      Identity(mailboxes, passwords)
    }

    function Both(): Pair
      reads this, daemon
    {
      Pair(View(), daemon.View())
    }

    /** syncDaemonAppPasswordsLocked: in whatever order the map is visited. */
    method SyncAppPasswords(key: string)
      modifies daemon
      ensures Listed(VerifiersOf(daemon.View(), key), passwords, key)
      ensures key in daemon.verifiers
      ensures daemon.View() == old(daemon.View()).(verifiers := old(daemon.verifiers)[key := daemon.verifiers[key]])
    {
      var list: seq<string> := [];
      ghost var ids: seq<string> := [];
      var rest := passwords.Keys;
      while rest != {}
        invariant rest <= passwords.Keys
        invariant Distinct(ids) && Elements(ids) == Active(passwords, key) - rest && |ids| == |list|
        invariant forall n | 0 <= n < |ids| :: ids[n] in passwords && list[n] == passwords[ids[n]].verifier
        invariant daemon.View() == old(daemon.View())
        decreases rest
      {
        var id :| id in rest;
        if passwords[id].mailbox == key && !passwords[id].revoked {
          assert id !in ids by { assert id in ids ==> id in Elements(ids); }
          ElementsAppend(ids, [id]);
          ids := ids + [id];
          list := list + [passwords[id].verifier];
        }
        rest := rest - {id};
      }
      assert Lists(ids, list, passwords, key);
      daemon.SetAppPasswordVerifiers(key, list);
    }

    /** activeAppPasswordCountLocked. */
    method ActiveCount(key: string) returns (count: nat)
      ensures count == |Active(passwords, key)|
    {
      count := 0;
      var rest := passwords.Keys;
      ghost var counted: set<string> := {};
      while rest != {}
        invariant rest <= passwords.Keys && counted == Active(passwords, key) - rest && count == |counted|
        decreases rest
      {
        var id :| id in rest;
        if passwords[id].mailbox == key && !passwords[id].revoked {
          count := count + 1;
          counted := counted + {id};
        }
        rest := rest - {id};
      }
      assert counted == Active(passwords, key);
    }

    /** VerifyDovecot. */
    method Verify(check: Check, key: string, secret: string) returns (ok: bool)
      ensures ok <==> VerifyDovecot(check, View(), key, secret)
    {
      if key !in mailboxes || !mailboxes[key].active { return false; }
      if check(mailboxes[key].verifier, secret) { return true; }
      var count := ActiveCount(key);
      if count > MAX_ACTIVE_APP_PASSWORDS { return false; }
      var rest := passwords.Keys;
      while rest != {}
        invariant rest <= passwords.Keys
        invariant forall id | id in Active(passwords, key) - rest :: !check(passwords[id].verifier, secret)
        decreases rest
      {
        var id :| id in rest;
        if passwords[id].mailbox == key && !passwords[id].revoked && check(passwords[id].verifier, secret) {
          assert id in Active(passwords, key);
          return true;
        }
        rest := rest - {id};
      }
      ok := false;
    }

    /** CreateOrReplaceUser after its checks. */
    method CreateOrReplaceUser(key: string, m: Mailbox)
      modifies this, daemon
      ensures Follows(old(Both()), Replace(key, m), Both())
      ensures InSync(old(View()), old(daemon.View())) ==>
                (InSync(View(), daemon.View()) <==> key !in GapsAt(old(Both())).lists)
      ensures InSync(old(View()), old(daemon.View())) && key !in old(daemon.verifiers) ==>
                (InSync(View(), daemon.View()) <==> key in old(mailboxes) || Active(old(passwords), key) == {})
    {
      ghost var was := Both();
      ReplacePushes(was.identity, was.projection, key, m);
      var stored := Merge(mailboxes, key, m);
      mailboxes := mailboxes[key := stored];
      daemon.UpsertIdentityMailbox(key, stored);
      if InSync(was.identity, was.projection) { ReplaceSyncsExactly(was, key, m, Both()); }
    }

    /** CreateAppPassword after its checks. */
    method CreateAppPassword(id: string, key: string, verifier: string) returns (ok: bool)
      requires id !in passwords
      modifies this, daemon
      ensures Follows(old(Both()), NewPassword(id, key, verifier), Both())
      ensures ok <==> key in old(mailboxes) && |Active(old(passwords), key)| < MAX_ACTIVE_APP_PASSWORDS
    {
      ghost var was := Both();
      if key !in mailboxes { return false; }
      var count := ActiveCount(key);
      if count >= MAX_ACTIVE_APP_PASSWORDS { return false; }
      passwords := passwords[id := AppPassword(key, verifier, false)];
      SyncAppPasswords(key);
      Resynced(was, NewPassword(id, key, verifier), key);
      ok := true;
    }

    /** RevokeAppPassword after its checks. */
    method RevokeAppPassword(key: string, id: string) returns (ok: bool)
      modifies this, daemon
      ensures Follows(old(Both()), Revoke(key, id), Both())
      ensures ok <==> id in old(passwords) && old(passwords)[id].mailbox == key
    {
      ghost var was := Both();
      if id !in passwords || passwords[id].mailbox != key { return false; }
      ok := true;
      if passwords[id].revoked {
        assert passwords[id := passwords[id].(revoked := true)] == passwords;
        return;
      }
      passwords := passwords[id := passwords[id].(revoked := true)];
      SyncAppPasswords(key);
      Resynced(was, Revoke(key, id), key);
    }

    /** After a push of the one list a change of app passwords touches. */
    lemma Resynced(was: Pair, m: Mutation, key: string)
      requires (m.NewPassword? || m.Revoke?) && m.key == key
      requires View() == Mutate(was.identity, m) != was.identity && mailboxes == was.identity.mailboxes
      requires Listed(VerifiersOf(daemon.View(), key), passwords, key)
      requires key in daemon.verifiers
      requires daemon.View() == was.projection.(verifiers := was.projection.verifiers[key := daemon.verifiers[key]])
      ensures Follows(was, m, Both())
    {
      assert Pushed(was.identity, was.projection, m, daemon.View());
      PushClosesGaps(was.identity, was.projection, m, daemon.View());
    }

    /** The in-place renaming of app passwords. */
    method RenamePasswords(previous: string, key: string)
      modifies this`passwords
      ensures passwords == Rename(old(passwords), previous, key)
    {
      ghost var was := passwords;
      var rest := passwords.Keys;
      while rest != {}
        invariant rest <= was.Keys && passwords.Keys == was.Keys
        invariant forall id | id in was :: passwords[id] == if id in rest then was[id] else Renamed(was[id], previous, key)
        decreases rest
      {
        var id :| id in rest;
        if passwords[id].mailbox == previous {
          passwords := passwords[id := passwords[id].(mailbox := key)];
        }
        rest := rest - {id};
      }
      SameMap(passwords, Rename(was, previous, key));
    }

    /** ApplySCIMMailbox: an update in place or a rename that moves the app passwords. */
    method ApplySCIMMailbox(previous: string, key: string, m: Mailbox)
      modifies this, daemon
      ensures Follows(old(Both()), Scim(previous, key, m), Both())
    {
      ghost var was := Both();
      var stored := Merge(mailboxes, previous, m);
      if previous != "" && previous != key {
        mailboxes := mailboxes - {previous};
        daemon.DeleteIdentityMailbox(previous);
        RenamePasswords(previous, key);
      }
      mailboxes := mailboxes[key := stored];
      daemon.UpsertIdentityMailbox(key, stored);
      SyncAppPasswords(key);
      ScimPushes(was, previous, key, m);
    }

    static lemma ScimMailboxes(i: Identity, d: Projection, previous: string, key: string, m: Mailbox, other: string)
      ensures var gone := if previous != "" && previous != key then {previous} else {};
              MailboxOf((d.mailboxes - gone)[key := Merge(i.mailboxes, previous, m)], other) ==
              MailboxOf(if other in PushedBoxes(Scim(previous, key, m)) then Mutate(i, Scim(previous, key, m)).mailboxes
                        else d.mailboxes, other)
    {}

    lemma ScimPushes(was: Pair, previous: string, key: string, m: Mailbox)
      requires View() == Mutate(was.identity, Scim(previous, key, m))
      requires Listed(VerifiersOf(daemon.View(), key), passwords, key)
      requires var gone := if previous != "" && previous != key then {previous} else {};
               && daemon.mailboxes == (was.projection.mailboxes - gone)[key := Merge(was.identity.mailboxes, previous, m)]
               && key in daemon.verifiers
               && daemon.verifiers == (was.projection.verifiers - gone)[key := daemon.verifiers[key]]
      ensures Follows(was, Scim(previous, key, m), Both())
    {
      if previous != "" && previous != key {
        assert Active(passwords, previous) == {};
        NothingListed(passwords, previous);
      }
      forall other { ScimMailboxes(was.identity, was.projection, previous, key, m, other); }
      assert Pushed(was.identity, was.projection, Scim(previous, key, m), daemon.View());
      PushClosesGaps(was.identity, was.projection, Scim(previous, key, m), daemon.View());
    }
  }
}
