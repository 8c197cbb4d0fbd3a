/** The outbound policy decision for one resolved recipient. */
module Policy {
  import opened Prelude
  import opened Names

  const MAX_GOVERNING_DOMAINS: nat := 64

  datatype Scope = Unrestricted | SameDomainOnly | UnknownScope(text: string)

  datatype Stage = Submission | Transport | UnknownStage(text: string)

  datatype Action = ActionOK | ActionReject | ActionDefer

  datatype Reason =
    | ReasonUnrestricted
    | ReasonSameDomain
    | ReasonRecipientForbidden
    | ReasonCrossDomainConflict
    | ReasonPolicyHold
    | ReasonUnavailable

  datatype GoverningDomain = GoverningDomain(domain: string, scope: Scope, revision: nat)

  datatype Request = Request(stage: Stage, queueId: string, recipient: string, governing: seq<GoverningDomain>)

  datatype Decision = Decision(action: Action, reason: Reason, revisions: map<string, nat>)

  const UNAVAILABLE := Decision(ActionDefer, ReasonUnavailable, map[])

  /** validScope. */
  predicate ValidScope(scope: Scope) {
    !scope.UnknownScope?
  }

  predicate ValidEntry(names: Resolver, g: GoverningDomain) {
    names.domain(g.domain).Some? && g.revision > 0 && ValidScope(g.scope)
  }

  /** The domain an entry speaks for. */
  function Key(names: Resolver, g: GoverningDomain): string {
    if names.domain(g.domain).Some? then names.domain(g.domain).value else ""
  }

  /** Every entry is well formed and no two of them disagree about a domain. */
  ghost predicate Coherent(names: Resolver, governing: set<GoverningDomain>) {
    && (forall g | g in governing :: ValidEntry(names, g))
    && (forall g, h | g in governing && h in governing && Key(names, g) == Key(names, h) ::
          g.scope == h.scope && g.revision == h.revision)
  }

  ghost function RestrictedDomains(names: Resolver, governing: set<GoverningDomain>): set<string> {
    set g | g in governing && g.scope == SameDomainOnly :: Key(names, g)
  }

  ghost function RevisionOf(names: Resolver, governing: set<GoverningDomain>, domain: string): nat
    requires domain in RestrictedDomains(names, governing)
  {
    var g :| g in governing && g.scope == SameDomainOnly && Key(names, g) == domain;
    g.revision
  }

  /** The same-domain-only domains with their revisions. */
  ghost function Restricted(names: Resolver, governing: set<GoverningDomain>): map<string, nat> {
    map d | d in RestrictedDomains(names, governing) :: RevisionOf(names, governing, d)
  }

  lemma RestrictedAt(names: Resolver, governing: set<GoverningDomain>, g: GoverningDomain)
    requires Coherent(names, governing) && g in governing && g.scope == SameDomainOnly
    ensures Key(names, g) in Restricted(names, governing)
    ensures Restricted(names, governing)[Key(names, g)] == g.revision
  {}

  /** A request that carries usable authority. */
  ghost predicate Admissible(names: Resolver, req: Request) {
    && (req.stage == Submission || (req.stage == Transport && ValidLongQueueID(req.queueId)))
    && 1 <= |req.governing| <= MAX_GOVERNING_DOMAINS
    && RecipientDomain(names, req.recipient).Some?
    && Coherent(names, Elements(req.governing))
  }

  /** The policy, stated over the set of governing entries: mail passes when
      nothing restricts it or when the recipient's domain is the only
      restricting one. */
  ghost function Verdict(names: Resolver, req: Request): Decision {
    if !Admissible(names, req) then UNAVAILABLE
    else
      var restricted := Restricted(names, Elements(req.governing));
      if restricted == map[] then Decision(ActionOK, ReasonUnrestricted, map[])
      else if restricted.Keys == {RecipientDomain(names, req.recipient).value} then
        Decision(ActionOK, ReasonSameDomain, restricted)
      else if req.stage == Transport then Decision(ActionDefer, ReasonPolicyHold, restricted)
      else Decision(ActionReject, if |restricted| > 1 then ReasonCrossDomainConflict else ReasonRecipientForbidden, restricted)
  }

  datatype PolicyState = PolicyState(scope: Scope, revision: nat)

  /** What Evaluate's two maps hold after the entries in `done`. */
  ghost predicate Tallied(names: Resolver, done: set<GoverningDomain>,
                          authoritative: map<string, PolicyState>, restricted: map<string, nat>)
  {
    && Coherent(names, done)
    && (forall g | g in done :: Key(names, g) in authoritative && authoritative[Key(names, g)] == PolicyState(g.scope, g.revision))
    && (forall d | d in authoritative :: exists g :: g in done && Key(names, g) == d)
    && restricted == Restricted(names, done)
  }

  lemma CoherentShrinks(names: Resolver, part: set<GoverningDomain>, whole: set<GoverningDomain>)
    requires part <= whole && Coherent(names, whole)
    ensures Coherent(names, part)
    ensures Restricted(names, part).Keys <= Restricted(names, whole).Keys
  {}

  lemma RestrictedGrows(names: Resolver, done: set<GoverningDomain>, g: GoverningDomain)
    requires Coherent(names, done + {g})
    ensures Restricted(names, done + {g}) ==
            if g.scope == SameDomainOnly then Restricted(names, done)[Key(names, g) := g.revision] else Restricted(names, done)
  {}

  lemma CoherentGrows(names: Resolver, done: set<GoverningDomain>, twin: GoverningDomain, g: GoverningDomain)
    requires Coherent(names, done) && twin in done && ValidEntry(names, g) && Key(names, twin) == Key(names, g)
    ensures Coherent(names, done + {g}) <==> twin.scope == g.scope && twin.revision == g.revision
  {}

  /** An entry for a domain already seen: it agrees and adds nothing, or it
      makes the whole list incoherent. */
  lemma TallyRepeated(names: Resolver, done: set<GoverningDomain>, g: GoverningDomain,
                      authoritative: map<string, PolicyState>, restricted: map<string, nat>)
    requires Tallied(names, done, authoritative, restricted)
    requires ValidEntry(names, g) && Key(names, g) in authoritative
    ensures if authoritative[Key(names, g)] == PolicyState(g.scope, g.revision)
            then Tallied(names, done + {g}, authoritative, restricted)
            else !Coherent(names, done + {g})
  {
    var twin :| twin in done && Key(names, twin) == Key(names, g);
    CoherentGrows(names, done, twin, g);
    if authoritative[Key(names, g)] == PolicyState(g.scope, g.revision) {
      RestrictedGrows(names, done, g);
      if g.scope == SameDomainOnly {
        RestrictedAt(names, done, twin);
      }
    }
  }

  /** The first entry for a domain. */
  lemma TallyNew(names: Resolver, done: set<GoverningDomain>, g: GoverningDomain,
                 authoritative: map<string, PolicyState>, restricted: map<string, nat>)
    requires Tallied(names, done, authoritative, restricted)
    requires ValidEntry(names, g) && Key(names, g) !in authoritative
    ensures Tallied(names, done + {g}, authoritative[Key(names, g) := PolicyState(g.scope, g.revision)],
                    if g.scope == SameDomainOnly then restricted[Key(names, g) := g.revision] else restricted)
  {
    RestrictedGrows(names, done, g);
    assert g in done + {g} && forall h | h in done :: h in done + {g};
  }

  /** Evaluate's pass over the governing list: stops at the first entry that is
      malformed or contradicts an earlier one. */
  method TallyGoverning(names: Resolver, governing: seq<GoverningDomain>) returns (r: Option<map<string, nat>>)
    ensures r == if Coherent(names, Elements(governing)) then Some(Restricted(names, Elements(governing))) else None
  {
    ghost var whole := Elements(governing);
    var authoritative: map<string, PolicyState> := map[];
    var restricted: map<string, nat> := map[];
    for i := 0 to |governing|
      invariant Tallied(names, Elements(governing[..i]), authoritative, restricted)
    {
      var g := governing[i];
      ghost var done := Elements(governing[..i]);
      ElementsPrefix(governing, i);
      if !ValidEntry(names, g) {
        assert g in whole;
        return None;
      }
      var domain := Key(names, g);
      var state := PolicyState(g.scope, g.revision);
      if domain in authoritative {
        TallyRepeated(names, done, g, authoritative, restricted);
        if authoritative[domain] != state {
          if Coherent(names, whole) { CoherentShrinks(names, done + {g}, whole); }
          return None;
        }
        continue;
      }
      TallyNew(names, done, g, authoritative, restricted);
      authoritative := authoritative[domain := state];
      if g.scope == SameDomainOnly {
        restricted := restricted[domain := g.revision];
      }
    }
    assert governing[..|governing|] == governing;
    r := Some(restricted);
  }

  /** Evaluate. */
  method Evaluate(names: Resolver, req: Request) returns (decision: Decision)
    ensures decision == Verdict(names, req)
  {
    if req.stage != Submission && req.stage != Transport {
      return UNAVAILABLE;
    }
    if req.stage == Transport && !ValidLongQueueID(req.queueId) {
      return UNAVAILABLE;
    }
    if |req.governing| == 0 || |req.governing| > MAX_GOVERNING_DOMAINS {
      return UNAVAILABLE;
    }
    var recipient := RecipientDomain(names, req.recipient);
    if recipient.None? {
      return UNAVAILABLE;
    }
    var tally := TallyGoverning(names, req.governing);
    if tally.None? {
      return UNAVAILABLE;
    }
    var restricted := tally.value;
    if |restricted| == 0 {
      return Decision(ActionOK, ReasonUnrestricted, map[]);
    }
    if |restricted| > 1 {
      assert |{recipient.value}| == 1 && |restricted.Keys| > 1;
      if req.stage == Transport {
        return Decision(ActionDefer, ReasonPolicyHold, restricted);
      }
      return Decision(ActionReject, ReasonCrossDomainConflict, restricted);
    }
    SingletonKey(restricted, recipient.value);
    if recipient.value in restricted {
      return Decision(ActionOK, ReasonSameDomain, restricted);
    }
    if req.stage == Transport {
      return Decision(ActionDefer, ReasonPolicyHold, restricted);
    }
    return Decision(ActionReject, ReasonRecipientForbidden, restricted);
  }

  lemma SingletonKey(m: map<string, nat>, key: string)
    requires |m| == 1
    ensures key in m <==> m.Keys == {key}
  {
    if key in m {
      var rest := m.Keys - {key};
      assert m.Keys == rest + {key};
      assert |rest| == 0;
    }
  }

  /** The verdict depends on the governing entries as a set: reordering them
      changes nothing, and neither does repeating some while the list stays
      within its bound. */
  lemma OrderAndRepetitionDoNotMatter(names: Resolver, req: Request, other: seq<GoverningDomain>)
    requires Elements(req.governing) == Elements(other)
    requires |req.governing| <= MAX_GOVERNING_DOMAINS && |other| <= MAX_GOVERNING_DOMAINS
    ensures Verdict(names, req) == Verdict(names, req.(governing := other))
  {
    assert req.governing != [] ==> req.governing[0] in Elements(other);
    assert other != [] ==> other[0] in Elements(req.governing);
  }

  /** More authority never opens a door: whatever is not permitted under a
      non-empty list stays so under any list that contains it. */
  lemma MoreGoverningNeverPermits(names: Resolver, req: Request, more: seq<GoverningDomain>)
    requires req.governing != []
    requires Elements(req.governing) <= Elements(more) && |req.governing| <= |more|
    requires Verdict(names, req).action != ActionOK
    ensures Verdict(names, req.(governing := more)).action != ActionOK
  {
    var wider := req.(governing := more);
    if Admissible(names, wider) {
      CoherentShrinks(names, Elements(req.governing), Elements(more));
      assert Admissible(names, req);
      PermittedExactly(names, req);
      PermittedExactly(names, wider);
      assert forall g | g in req.governing :: g in Elements(req.governing);
    }
  }

  /** The transport stage holds exactly the mail the submission stage rejects,
      naming the same revisions; the two agree on what passes, and on what is
      unavailable. */
  lemma TransportHoldsWhatSubmissionRejects(names: Resolver, req: Request)
    requires ValidLongQueueID(req.queueId)
    ensures var early := Verdict(names, req.(stage := Submission));
            var late := Verdict(names, req.(stage := Transport));
            && early.revisions == late.revisions
            && ((late.action == ActionDefer && late.reason == ReasonPolicyHold) <==> early.action == ActionReject)
            && (late.action == ActionOK <==> early.action == ActionOK)
            && (late == UNAVAILABLE <==> early == UNAVAILABLE)
  {
    var early, late := req.(stage := Submission), req.(stage := Transport);
    assert Admissible(names, early) <==> Admissible(names, late);
  }

  /** What an OK means: every same-domain-only governing domain is the
      recipient's own. */
  lemma PermittedExactly(names: Resolver, req: Request)
    requires Admissible(names, req)
    ensures Verdict(names, req).action == ActionOK <==>
            forall g | g in req.governing && g.scope == SameDomainOnly ::
              Key(names, g) == RecipientDomain(names, req.recipient).value
  {
    var all := Elements(req.governing);
    var restricted := Restricted(names, all);
    var recipient := RecipientDomain(names, req.recipient).value;
    if forall g | g in req.governing && g.scope == SameDomainOnly :: Key(names, g) == recipient {
      assert forall d | d in restricted :: d == recipient;
      assert restricted.Keys <= {recipient};
      assert restricted.Keys == {} ==> restricted == map[];
    } else {
      var g :| g in req.governing && g.scope == SameDomainOnly && Key(names, g) != recipient;
      assert g in all;
      RestrictedAt(names, all, g);
    }
  }
}
