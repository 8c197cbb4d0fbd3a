/** A chain of aliases, each with the next one as its only target: the smallest
    relation on which the depth bound of the load decides. */
module AliasChain {
  import opened Prelude
  import opened Names
  import opened Provenance
  import opened Paths
  import opened Expansion

  function Letters(n: nat): string {
    if n == 0 then "" else "a" + Letters(n - 1)
  }

  lemma {:induction false} LettersLength(n: nat)
    ensures |Letters(n)| == n
  {
    if n > 0 { LettersLength(n - 1); }
  }

  /** The address of the alias number `k`. */
  function Link(k: nat): (s: string)
    ensures |s| == k + 3
  {
    LettersLength(k + 1);
    Letters(k + 1) + "@x"
  }

  predicate IsLink(a: string, n: nat) {
    3 <= |a| < n + 3 && a == Link(|a| - 3)
  }

  /** One domain, and everything else as it is. */
  const NAMES := Resolver(s => s, s => if s == "x" then Some("x") else None, s => true, s => s, s => true)

  lemma NamesAreLawful()
    ensures Lawful(NAMES)
  {
    assert Canonical(NAMES, "x");
  }

  /** The alias rows of a chain of `n`. */
  function Chain(n: nat): Directory {
    Directory(a => if IsLink(a, n) then [LinkRow(|a| - 3)] else [])
  }

  function LinkRow(k: nat): AliasRow {
    AliasRow(Link(k), Letters(k + 1), "x", Some([Link(k + 1)]))
  }

  lemma LinkIsCanonical(k: nat)
    requires k <= MAX_QUEUE_SOURCES
    ensures NormalizeRecipient(NAMES, Link(k)) == Some(Address(Link(k), "x"))
  {
    var prefix := Letters(k + 1) + "@";
    LettersLength(k + 1);
    assert Link(k) == prefix + "x";
    LastAtUnique(prefix, "x");
    assert Link(k)[k + 2..] == "x";
    assert Rebase(Link(k), "x") == Link(k);
  }

  lemma LinkScans(k: nat)
    requires k < MAX_QUEUE_SOURCES
    ensures ScanAlias(NAMES, Link(k), LinkRow(k)).Some? && ScanAlias(NAMES, Link(k), LinkRow(k)).value.targets == [Link(k + 1)]
  {
    LinkIsCanonical(k);
    LinkIsCanonical(k + 1);
    LettersLength(k + 1);
    assert Letters(k + 1) + "@" + "x" == Link(k);
    assert Letters(k + 1)[0] == 'a';
    OneTarget(Link(k + 1));
  }

  lemma OneTarget(a: string)
    requires NormalizeRecipient(NAMES, a).Some? && NormalizeRecipient(NAMES, a).value.text == a
    ensures NormalizeAll(NAMES, [a]) == Some([a])
  {
    assert [a][1..] == [];
    assert [a] + [] == [a];
  }

  lemma OneRow(a: string, row: AliasRow)
    requires ScanAlias(NAMES, a, row).Some?
    ensures Resolve(NAMES, a, [row]) == Entry(ScanAlias(NAMES, a, row).value)
  {}

  lemma LinkEntry(n: nat, k: nat)
    requires k < n <= MAX_QUEUE_SOURCES
    ensures var entry := BookOf(NAMES, Chain(n)).at(Link(k)); entry.Entry? && entry.alias.targets == [Link(k + 1)]
  {
    LinkScans(k);
    OneRow(Link(k), LinkRow(k));
    assert Chain(n).rows(Link(k)) == [LinkRow(k)];
    assert BookOf(NAMES, Chain(n)).at(Link(k)) == Resolve(NAMES, Link(k), Chain(n).rows(Link(k)));
  }

  lemma NoEntry(n: nat, a: string)
    requires !IsLink(a, n)
    ensures BookOf(NAMES, Chain(n)).at(a) == Leaf
  {
    assert BookOf(NAMES, Chain(n)).at(a) == Resolve(NAMES, a, Chain(n).rows(a));
  }

  /** What the relation of a chain says about an address. */
  lemma ChainAt(n: nat, a: string)
    requires n <= MAX_QUEUE_SOURCES
    ensures var book := BookOf(NAMES, Chain(n));
            if IsLink(a, n) then book.at(a).Entry? && book.at(a).alias.targets == [Link(|a| - 2)] else book.at(a) == Leaf
  {
    if IsLink(a, n) { LinkEntry(n, |a| - 3); } else { NoEntry(n, a); }
  }

  lemma ChainNext(n: nat, k: nat)
    requires n <= MAX_QUEUE_SOURCES && k <= n
    ensures BookGraph(BookOf(NAMES, Chain(n))).next(Link(k)) == if k < n then [Link(k + 1)] else []
  {
    ChainAt(n, Link(k));
  }

  /** The only walks from the first alias go along the chain. */
  lemma {:induction false} WalkFollowsChain(n: nat, p: seq<string>, i: nat)
    requires n <= MAX_QUEUE_SOURCES && IsPath(BookGraph(BookOf(NAMES, Chain(n))), p) && p[0] == Link(0) && i < |p|
    ensures i <= n && p[i] == Link(i)
  {
    if i > 0 {
      WalkFollowsChain(n, p, i - 1);
      ChainNext(n, i - 1);
      assert p[i - 1 + 1] in BookGraph(BookOf(NAMES, Chain(n))).next(p[i - 1]);
    }
  }

  lemma ReachedIsLink(n: nat, a: string)
    requires n <= MAX_QUEUE_SOURCES && ReachedFrom(BookGraph(BookOf(NAMES, Chain(n))), [Link(0)], a)
    ensures IsLink(a, n + 1)
  {
    var g := BookGraph(BookOf(NAMES, Chain(n)));
    var p :| IsPath(g, p) && p[0] == Link(0) && p[|p| - 1] == a;
    WalkFollowsChain(n, p, |p| - 1);
  }

  lemma {:induction false} LinkNear(n: nat, k: nat)
    requires n <= MAX_QUEUE_SOURCES && k <= n
    ensures Near(BookGraph(BookOf(NAMES, Chain(n))), [Link(0)], k, Link(k))
  {
    var g := BookGraph(BookOf(NAMES, Chain(n)));
    if k == 0 {
      NearStart(g, [Link(0)], Link(0));
    } else {
      LinkNear(n, k - 1);
      ChainNext(n, k - 1);
      NearStep(g, [Link(0)], k - 1, Link(k - 1), Link(k));
    }
  }

  lemma NoNearer(n: nat, m: int, a: string)
    requires n <= MAX_QUEUE_SOURCES && Near(BookGraph(BookOf(NAMES, Chain(n))), [Link(0)], m, a)
    ensures |a| - 3 <= m
  {
    var g := BookGraph(BookOf(NAMES, Chain(n)));
    var p :| IsPath(g, p) && p[0] in [Link(0)] && p[|p| - 1] == a && |p| <= m + 1;
    WalkFollowsChain(n, p, |p| - 1);
  }

  function Links(n: nat): set<string> {
    if n == 0 then {} else Links(n - 1) + {Link(n - 1)}
  }

  lemma {:induction false} LinksCount(n: nat)
    ensures |Links(n)| == n && forall a | a in Links(n) :: |a| < n + 3
  {
    if n > 0 {
      LinksCount(n - 1);
      assert Link(n - 1) !in Links(n - 1);
    }
  }

  lemma {:induction false} LinkIn(n: nat, k: nat)
    requires k < n
    ensures Link(k) in Links(n)
  {
    if k < n - 1 { LinkIn(n - 1, k); }
  }

  lemma EntryIsLink(n: nat, a: string)
    requires n <= MAX_QUEUE_SOURCES && BookOf(NAMES, Chain(n)).at(a).Entry?
    ensures a in Links(n)
  {
    ChainAt(n, a);
    LinkIn(n, |a| - 3);
  }

  lemma FewAliases(n: nat, s: set<string>)
    requires n <= MAX_QUEUE_SOURCES && AliasesReached(BookOf(NAMES, Chain(n)), [Link(0)], s)
    ensures |s| <= n
  {
    forall a | a in s ensures a in Links(n) {
      EntryIsLink(n, a);
    }
    LinksCount(n);
    SubsetCount(s, Links(n));
  }

  lemma FewAddresses(n: nat, s: set<string>)
    requires n <= MAX_QUEUE_SOURCES && AddressesReached(BookOf(NAMES, Chain(n)), [Link(0)], s)
    ensures |s| <= n + 1
  {
    forall a | a in s ensures a in Links(n + 1) {
      ReachedIsLink(n, a);
      LinkIn(n + 1, |a| - 3);
    }
    LinksCount(n + 1);
    SubsetCount(s, Links(n + 1));
  }

  /** A chain of at most 64 breaks none of the bounds on what is reached. */
  lemma ChainIsSmall(n: nat)
    requires n <= MAX_QUEUE_SOURCES
    ensures var book := BookOf(NAMES, Chain(n));
            && (forall a | ReachedFrom(BookGraph(book), [Link(0)], a) :: !book.at(a).Broken?)
            && (forall s: set<string> | AliasesReached(book, [Link(0)], s) :: |s| <= n)
            && (forall s: set<string> | AddressesReached(book, [Link(0)], s) :: |s| <= n + 1)
  {
    var book := BookOf(NAMES, Chain(n));
    forall a | ReachedFrom(BookGraph(book), [Link(0)], a) ensures !book.at(a).Broken? {
      ChainAt(n, a);
    }
    forall s: set<string> | AliasesReached(book, [Link(0)], s) ensures |s| <= n {
      FewAliases(n, s);
    }
    forall s: set<string> | AddressesReached(book, [Link(0)], s) ensures |s| <= n + 1 {
      FewAddresses(n, s);
    }
  }

  lemma ChainIsAcyclic(n: nat)
    requires n <= MAX_QUEUE_SOURCES
    ensures !Cyclic(BookGraph(BookOf(NAMES, Chain(n))), Link(0))
  {
    var g := BookGraph(BookOf(NAMES, Chain(n)));
    forall p | IsPath(g, p) && p[0] == Link(0) ensures Distinct(p) {
      forall i, j | 0 <= i < j < |p| ensures p[i] != p[j] {
        WalkFollowsChain(n, p, i);
        WalkFollowsChain(n, p, j);
      }
    }
  }

  lemma FarAlias(n: nat, far: nat)
    requires n == MAX_QUEUE_SOURCES == far + 1
    ensures AliasAtDistance(BookOf(NAMES, Chain(n)), [Link(0)], far)
  {
    var book := BookOf(NAMES, Chain(n));
    ChainAt(n, Link(far));
    LinkNear(n, far);
    if Near(BookGraph(book), [Link(0)], far - 1, Link(far)) { NoNearer(n, far - 1, Link(far)); }
  }

  lemma EntryIsNear(n: nat, far: nat, a: string)
    requires n < MAX_QUEUE_SOURCES == far + 1 && BookOf(NAMES, Chain(n)).at(a).Entry?
    ensures Near(BookGraph(BookOf(NAMES, Chain(n))), [Link(0)], far - 1, a)
  {
    ChainAt(n, a);
    var k: nat := |a| - 3;
    LinkNear(n, k);
    NearWidens(BookGraph(BookOf(NAMES, Chain(n))), [Link(0)], k, far - 1, Link(k));
  }

  lemma NoAliasSoFar(n: nat, far: nat)
    requires n < MAX_QUEUE_SOURCES == far + 1
    ensures !AliasAtDistance(BookOf(NAMES, Chain(n)), [Link(0)], far)
  {
    var book := BookOf(NAMES, Chain(n));
    forall a | book.at(a).Entry? ensures Near(BookGraph(book), [Link(0)], far - 1, a) {
      EntryIsNear(n, far, a);
    }
  }

  /** The depth bound refuses one chain that the other bounds allow: of the acyclic
      chains of up to 64 aliases, exactly the one of 64 cannot be expanded. */
  lemma ChainRefusedExactly(n: nat)
    requires n <= MAX_QUEUE_SOURCES
    ensures Lawful(NAMES)
    ensures var book := BookOf(NAMES, Chain(n));
            && !Cyclic(BookGraph(book), Link(0))
            && (forall s: set<string> | AliasesReached(book, [Link(0)], s) :: |s| <= MAX_QUEUE_SOURCES)
            && (Expandable(book, Link(0)) <==> n < MAX_QUEUE_SOURCES)
  {
    NamesAreLawful();
    ChainIsSmall(n);
    ChainIsAcyclic(n);
    if n == MAX_QUEUE_SOURCES {
      FarAlias(n, MAX_QUEUE_SOURCES - 1);
    } else {
      NoAliasSoFar(n, MAX_QUEUE_SOURCES - 1);
    }
  }
}
