/** Alias expansion: the breadth-first load of the reachable alias subgraph and
    the recursive walk that collects its leaves and sources. */
module Expansion {
  import opened Prelude
  import opened Framing
  import opened Names
  import opened Provenance
  import opened Paths

  /** One alias row as the layer query returns it; `targets` is None when its
      stored JSON does not decode. */
  datatype AliasRow = AliasRow(id: string, local: string, domain: string, targets: Option<seq<string>>)

  /** The enabled rows the query yields for an address, in id order. */
  datatype Directory = Directory(rows: string -> seq<AliasRow>)

  datatype Alias = Alias(id: string, address: string, targets: seq<string>, kind: SourceKind)

  datatype ExpansionError =
    | InvalidOriginal
    | DepthExceeded
    | FanOutExceeded
    | GraphLimitExceeded
    | InvalidAlias
    | AmbiguousAlias
    | AliasCycle
    | SourceLimitExceeded

  /** classifyExpansionSource. */
  function ClassifySource(names: Resolver, local: string, domain: string, targets: seq<string>): SourceKind {
    if local == "*" then SourceCatchAll
    else if |targets| > 1 then SourceList
    else if |targets| == 1 && NormalizeRecipient(names, targets[0]).Some?
            && NormalizeRecipient(names, targets[0]).value.domain != domain then SourceForward
    else SourceAlias
  }

  /** scanExpansionAlias: validates one row for the address it was joined on. */
  function ScanAlias(names: Resolver, address: string, row: AliasRow): (r: Option<Alias>)
    ensures r.Some? ==> r.value.address == address && r.value.targets != [] && ValidSourceKind(r.value.kind)
  {
    var canonical := NormalizeRecipient(names, address);
    if canonical.None? || canonical.value.text != address || !names.objectId(row.id)
       || (row.local != "*" && address != names.lower(row.local) + "@" + row.domain)
    then None
    else if row.targets.None? || |row.targets.value| == 0 || |row.targets.value| > MAX_QUEUE_RECIPIENTS then None
    else
      var targets := NormalizeAll(names, row.targets.value);
      if targets.None? then None
      else Some(Alias(row.id, address, targets.value, ClassifySource(names, row.local, row.domain, targets.value)))
  }

  datatype Lookup = Leaf | Entry(alias: Alias) | Broken

  /** What the rows say about one address: no alias, one valid alias, or
      something the load must refuse. */
  function Resolve(names: Resolver, address: string, rows: seq<AliasRow>): (r: Lookup)
    ensures r.Entry? ==> r.alias.address == address && r.alias.targets != [] && ValidSourceKind(r.alias.kind)
  {
    if rows == [] then Leaf
    else if |rows| == 1 && ScanAlias(names, address, rows[0]).Some? then Entry(ScanAlias(names, address, rows[0]).value)
    else Broken
  }

  /** The full alias relation: what the directory says about every address. */
  datatype Book = Book(at: string -> Lookup)

  ghost function BookOf(names: Resolver, dir: Directory): Book {
    Book(a => Resolve(names, a, dir.rows(a)))
  }

  predicate Asked(address: string) {
    true
  }

  /** `book` is the relation of `dir`, to be unfolded where it is asked for. */
  ghost predicate Describes(book: Book, names: Resolver, dir: Directory) {
    forall a {:trigger Asked(a)} :: Asked(a) ==> book.at(a) == Resolve(names, a, dir.rows(a))
  }

  lemma BookDescribes(names: Resolver, dir: Directory)
    ensures Describes(BookOf(names, dir), names, dir) && Proper(BookOf(names, dir))
  {
    var book := BookOf(names, dir);
    forall a | book.at(a).Entry?
      ensures book.at(a).alias.address == a && book.at(a).alias.targets != [] && ValidSourceKind(book.at(a).alias.kind)
    {
      assert book.at(a) == Resolve(names, a, dir.rows(a));
    }
  }

  /** Entries carry their own address and at least one target. */
  ghost predicate Proper(book: Book) {
    forall a | book.at(a).Entry? ::
      book.at(a).alias.address == a && book.at(a).alias.targets != [] && ValidSourceKind(book.at(a).alias.kind)
  }

  ghost function BookGraph(book: Book): Graph {
    Graph(a => if book.at(a).Entry? then book.at(a).alias.targets else [])
  }

  ghost predicate AliasesReached(book: Book, starts: seq<string>, s: set<string>) {
    forall a | a in s :: ReachedFrom(BookGraph(book), starts, a) && book.at(a).Entry?
  }

  ghost predicate AddressesReached(book: Book, starts: seq<string>, s: set<string>) {
    forall a | a in s :: ReachedFrom(BookGraph(book), starts, a)
  }

  /** An alias at exactly that distance from the starts. */
  ghost predicate AliasAtDistance(book: Book, starts: seq<string>, n: int) {
    exists a :: book.at(a).Entry? && Near(BookGraph(book), starts, n, a) && !Near(BookGraph(book), starts, n - 1, a)
  }

  /** Exactly when the breadth-first load accepts: nothing reachable is broken,
      at most 64 aliases and 10000 addresses are reachable, and no alias lies at
      distance 63 from the originals. */
  ghost predicate Loadable(book: Book, starts: seq<string>) {
    && (forall a | ReachedFrom(BookGraph(book), starts, a) :: !book.at(a).Broken?)
    && (forall s: set<string> | AliasesReached(book, starts, s) :: |s| <= MAX_QUEUE_SOURCES)
    && (forall s: set<string> | AddressesReached(book, starts, s) :: |s| <= MAX_QUEUE_RECIPIENTS)
    && !AliasAtDistance(book, starts, MAX_QUEUE_SOURCES - 1)
  }

  /** The part of the relation that a load returned: exactly the aliases of
      `reached`, none of which is broken. */
  ghost predicate Mirrors(book: Book, reached: set<string>, aliases: map<string, Alias>) {
    && (forall a | a in reached :: !book.at(a).Broken?)
    && (forall a | a in aliases :: a in reached && book.at(a) == Entry(aliases[a]))
    && (forall a | a in reached && book.at(a).Entry? :: a in aliases)
  }

  /** Everything the aliases of `batch` point to. */
  ghost function Targets(book: Book, batch: set<string>): set<string> {
    set a, t | a in batch && t in BookGraph(book).next(a) :: t
  }

  /** The rows of one address. Fails when the address is broken, or when it
      would bring the 65th alias. */
  method LoadAddress(names: Resolver, dir: Directory, address: string, before: map<string, Alias>, ghost book: Book)
    returns (r: Result<map<string, Alias>, ExpansionError>, targets: seq<string>)
    requires Describes(book, names, dir)
    requires address !in before && |before| <= MAX_QUEUE_SOURCES
    ensures r.Err? <==> book.at(address).Broken? || (book.at(address).Entry? && |before| == MAX_QUEUE_SOURCES)
    ensures r.Ok? ==> targets == BookGraph(book).next(address)
    ensures r.Ok? ==> r.value == match book.at(address)
                                 case Entry(alias) => before[address := alias]
                                 case _ => before
  {
    var aliases := before;
    targets := [];
    assert Asked(address);
    var rows := dir.rows(address);
    var j := 0;
    while j < |rows|
      invariant j <= 1 && j <= |rows|
      invariant j == 0 ==> aliases == before && targets == []
      invariant j == 1 ==> ScanAlias(names, address, rows[0]).Some? && |before| < MAX_QUEUE_SOURCES
      invariant j == 1 ==> aliases == before[address := ScanAlias(names, address, rows[0]).value]
      invariant j == 1 ==> targets == ScanAlias(names, address, rows[0]).value.targets
    {
      if |aliases| >= MAX_QUEUE_SOURCES {
        return Err(GraphLimitExceeded), targets;
      }
      var scanned := ScanAlias(names, address, rows[j]);
      if scanned.None? {
        return Err(InvalidAlias), targets;
      }
      if scanned.value.address in aliases {
        return Err(AmbiguousAlias), targets;
      }
      aliases := aliases[scanned.value.address := scanned.value];
      targets := targets + scanned.value.targets;
      j := j + 1;
    }
    r := Ok(aliases);
  }

  ghost predicate AllEntries(book: Book, s: set<string>) {
    forall a | a in s :: book.at(a).Entry?
  }

  ghost predicate TooManyAliases(book: Book, among: set<string>) {
    exists s: set<string> :: AllEntries(book, s) && s <= among && |s| > MAX_QUEUE_SOURCES
  }

  lemma SixtyFifthAlias(book: Book, reached: set<string>, aliases: map<string, Alias>, address: string, among: set<string>)
    requires Mirrors(book, reached, aliases) && |aliases| == MAX_QUEUE_SOURCES
    requires address !in reached && book.at(address).Entry? && reached + {address} <= among
    ensures TooManyAliases(book, among)
  {
    var s := aliases.Keys + {address};
    assert AllEntries(book, s) && s <= among;
    assert |s| == |aliases.Keys| + 1;
  }

  lemma MirrorsGrow(book: Book, reached: set<string>, before: map<string, Alias>, address: string, after: map<string, Alias>)
    requires Mirrors(book, reached, before) && !book.at(address).Broken?
    requires after == if book.at(address).Entry? then before[address := book.at(address).alias] else before
    ensures Mirrors(book, reached + {address}, after)
  {}

  /** A layer after its first `i` addresses. */
  ghost predicate LayerAt(book: Book, seen: set<string>, batch: seq<string>, i: nat, aliases: map<string, Alias>, next: seq<string>)
    requires i <= |batch|
  {
    && Mirrors(book, seen + Elements(batch[..i]), aliases)
    && |aliases| <= MAX_QUEUE_SOURCES
    && Elements(next) == Targets(book, Elements(batch[..i]))
  }

  lemma LayerStep(book: Book, seen: set<string>, batch: seq<string>, i: nat, aliases: map<string, Alias>, next: seq<string>,
                  after: map<string, Alias>, targets: seq<string>)
    requires i < |batch| && LayerAt(book, seen, batch, i, aliases, next)
    requires !book.at(batch[i]).Broken? && |after| <= MAX_QUEUE_SOURCES
    requires after == if book.at(batch[i]).Entry? then aliases[batch[i] := book.at(batch[i]).alias] else aliases
    requires targets == BookGraph(book).next(batch[i])
    ensures LayerAt(book, seen, batch, i + 1, after, next + targets)
  {
    var done, address := Elements(batch[..i]), batch[i];
    ElementsPrefix(batch, i);
    assert seen + done + {address} == seen + (done + {address});
    MirrorsGrow(book, seen + done, aliases, address, after);
    TargetsGrow(book, done, address);
    ElementsAppend(next, targets);
  }

  lemma TargetsGrow(book: Book, done: set<string>, address: string)
    ensures Targets(book, done + {address}) == Targets(book, done) + Elements(BookGraph(book).next(address))
  {}

  ghost predicate LayerRefused(book: Book, seen: set<string>, batch: seq<string>) {
    || (exists a :: a in batch && book.at(a).Broken?)
    || TooManyAliases(book, seen + Elements(batch))
  }

  lemma LayerFails(book: Book, seen: set<string>, batch: seq<string>, i: nat, aliases: map<string, Alias>, next: seq<string>)
    requires i < |batch| && LayerAt(book, seen, batch, i, aliases, next)
    requires Distinct(batch) && Elements(batch) !! seen
    requires book.at(batch[i]).Broken? || (book.at(batch[i]).Entry? && |aliases| == MAX_QUEUE_SOURCES)
    ensures LayerRefused(book, seen, batch)
  {
    if !book.at(batch[i]).Broken? {
      ElementsPrefix(batch, i);
      assert batch[i] in Elements(batch) && batch[i] !in batch[..i];
      SixtyFifthAlias(book, seen + Elements(batch[..i]), aliases, batch[i], seen + Elements(batch));
    }
  }

  /** One breadth layer, in address order. */
  method LoadLayer(names: Resolver, dir: Directory, batch: seq<string>, before: map<string, Alias>,
                   ghost book: Book, ghost seen: set<string>)
    returns (r: Result<map<string, Alias>, ExpansionError>, next: seq<string>)
    requires Describes(book, names, dir)
    requires Distinct(batch) && Elements(batch) !! seen
    requires Mirrors(book, seen, before) && |before| <= MAX_QUEUE_SOURCES
    ensures r.Ok? ==> LayerAt(book, seen, batch, |batch|, r.value, next)
    ensures r.Err? ==> LayerRefused(book, seen, batch)
  {
    var aliases := before;
    next := [];
    assert seen + Elements(batch[..0]) == seen;
    for i := 0 to |batch|
      invariant LayerAt(book, seen, batch, i, aliases, next)
    {
      assert batch[i] in Elements(batch) && batch[i] !in Elements(batch[..i]);
      var layer, targets := LoadAddress(names, dir, batch[i], aliases, book);
      if layer.Err? {
        LayerFails(book, seen, batch, i, aliases, next);
        return Err(layer.error), next;
      }
      LayerStep(book, seen, batch, i, aliases, next, layer.value, targets);
      aliases := layer.value;
      next := next + targets;
    }
    r := Ok(aliases);
  }

  /** The load at the start of layer `depth`. */
  ghost predicate LoadAt(book: Book, starts: seq<string>, depth: nat, seen: set<string>, frontier: seq<string>, aliases: map<string, Alias>) {
    && IsBall(BookGraph(book), starts, depth - 1, seen)
    && IsBall(BookGraph(book), starts, depth, seen + Elements(frontier))
    && Mirrors(book, seen, aliases) && |aliases| <= MAX_QUEUE_SOURCES && |seen| <= MAX_QUEUE_RECIPIENTS
    && (depth > 0 ==> (frontier != [] <==> AliasAtDistance(book, starts, depth - 1)))
  }

  lemma LoadStarts(book: Book, starts: seq<string>)
    ensures LoadAt(book, starts, 0, {}, starts, map[])
  {
    BallStarts(BookGraph(book), starts);
    assert {} + Elements(starts) == Elements(starts);
  }

  lemma LoadStep(book: Book, starts: seq<string>, depth: nat, seen: set<string>, frontier: seq<string>, aliases: map<string, Alias>,
                 unseen: set<string>, after: map<string, Alias>, next: seq<string>)
    requires Proper(book) && LoadAt(book, starts, depth, seen, frontier, aliases)
    requires unseen == Elements(frontier) - seen && |seen + unseen| <= MAX_QUEUE_RECIPIENTS
    requires Mirrors(book, seen + unseen, after) && |after| <= MAX_QUEUE_SOURCES
    requires Elements(next) == Targets(book, unseen)
    ensures LoadAt(book, starts, depth + 1, seen + unseen, next, after)
  {
    var outer := seen + unseen;
    assert outer == seen + Elements(frontier);
    var bigger := outer + Elements(next);
    forall t ensures t in bigger <==> t in outer || exists a :: a in outer && a !in seen && t in BookGraph(book).next(a) {
      if t in Targets(book, unseen) {
        var a :| a in unseen && t in BookGraph(book).next(a);
        assert a in outer && a !in seen;
      }
    }
    BallGrows(BookGraph(book), starts, depth, seen, outer, bigger);
    LoadStepDistance(book, starts, depth, seen, unseen, next);
  }

  lemma LoadStepDistance(book: Book, starts: seq<string>, depth: nat, seen: set<string>, unseen: set<string>, next: seq<string>)
    requires Proper(book) && Elements(next) == Targets(book, unseen) && unseen !! seen
    requires IsBall(BookGraph(book), starts, depth - 1, seen)
    requires IsBall(BookGraph(book), starts, depth, seen + unseen)
    ensures next != [] <==> AliasAtDistance(book, starts, depth)
  {
    var g := BookGraph(book);
    if next != [] {
      assert next[0] in Elements(next);
      var a :| a in unseen && next[0] in g.next(a);
      assert book.at(a).Entry?;
      InBall(g, starts, depth - 1, seen, a);
      InBall(g, starts, depth, seen + unseen, a);
    }
    if AliasAtDistance(book, starts, depth) {
      var a :| book.at(a).Entry? && Near(g, starts, depth, a) && !Near(g, starts, depth - 1, a);
      InBall(g, starts, depth - 1, seen, a);
      InBall(g, starts, depth, seen + unseen, a);
      assert book.at(a).alias.targets[0] in g.next(a);
      assert book.at(a).alias.targets[0] in Targets(book, unseen);
    }
  }

  /** A layer that adds nothing new ends the search with everything reached. */
  lemma LoadEnds(book: Book, starts: seq<string>, depth: nat, seen: set<string>, frontier: seq<string>, aliases: map<string, Alias>)
    requires LoadAt(book, starts, depth, seen, frontier, aliases) && depth <= MAX_QUEUE_SOURCES
    requires Elements(frontier) <= seen && (frontier != [] ==> depth < MAX_QUEUE_SOURCES)
    ensures forall a :: a in seen <==> ReachedFrom(BookGraph(book), starts, a)
    ensures Loadable(book, starts)
  {
    assert seen + Elements(frontier) == seen;
    BallIsReach(BookGraph(book), starts, depth, seen);
    WithinBounds(book, starts, seen, aliases);
    if depth < MAX_QUEUE_SOURCES {
      NoFarAlias(book, starts, depth, seen, MAX_QUEUE_SOURCES - 1);
    }
  }

  lemma WithinBounds(book: Book, starts: seq<string>, seen: set<string>, aliases: map<string, Alias>)
    requires Mirrors(book, seen, aliases) && |aliases| <= MAX_QUEUE_SOURCES && |seen| <= MAX_QUEUE_RECIPIENTS
    requires forall a :: a in seen <==> ReachedFrom(BookGraph(book), starts, a)
    ensures forall s: set<string> | AliasesReached(book, starts, s) :: |s| <= MAX_QUEUE_SOURCES
    ensures forall s: set<string> | AddressesReached(book, starts, s) :: |s| <= MAX_QUEUE_RECIPIENTS
    ensures forall a | ReachedFrom(BookGraph(book), starts, a) :: !book.at(a).Broken?
  {
    forall s: set<string> | AliasesReached(book, starts, s) ensures |s| <= MAX_QUEUE_SOURCES {
      assert s <= aliases.Keys;
      SubsetCount(s, aliases.Keys);
    }
    forall s: set<string> | AddressesReached(book, starts, s) ensures |s| <= MAX_QUEUE_RECIPIENTS {
      assert s <= seen;
      SubsetCount(s, seen);
    }
  }

  lemma NoFarAlias(book: Book, starts: seq<string>, depth: nat, seen: set<string>, n: nat)
    requires depth <= n && IsBall(BookGraph(book), starts, depth - 1, seen)
    requires forall a :: a in seen <==> ReachedFrom(BookGraph(book), starts, a)
    ensures !AliasAtDistance(book, starts, n)
  {
    forall a | Near(BookGraph(book), starts, n, a) ensures Near(BookGraph(book), starts, n - 1, a) {
      NearIsReached(BookGraph(book), starts, n, a);
      InBall(BookGraph(book), starts, depth - 1, seen, a);
      NearWidens(BookGraph(book), starts, depth - 1, n - 1, a);
    }
  }

  /** The reachable part breaks one of the bounds: the load is refused. */
  lemma RefusedLayer(book: Book, starts: seq<string>, depth: nat, ball: set<string>, seen: set<string>, batch: seq<string>)
    requires IsBall(BookGraph(book), starts, depth, ball) && ball == seen + Elements(batch)
    requires LayerRefused(book, seen, batch)
    ensures !Loadable(book, starts)
  {
    if exists a :: a in batch && book.at(a).Broken? {
      var a :| a in batch && book.at(a).Broken?;
      assert a in Elements(batch);
      BallReached(BookGraph(book), starts, depth, ball, a);
    } else {
      var s: set<string> :| AllEntries(book, s) && s <= ball && |s| > MAX_QUEUE_SOURCES;
      forall a | a in s ensures ReachedFrom(BookGraph(book), starts, a) {
        BallReached(BookGraph(book), starts, depth, ball, a);
      }
      assert AliasesReached(book, starts, s);
    }
  }

  lemma RefusedFanOut(book: Book, starts: seq<string>, depth: nat, ball: set<string>)
    requires IsBall(BookGraph(book), starts, depth, ball) && |ball| > MAX_QUEUE_RECIPIENTS
    ensures !Loadable(book, starts)
  {
    forall a | a in ball ensures ReachedFrom(BookGraph(book), starts, a) {
      BallReached(BookGraph(book), starts, depth, ball, a);
    }
    assert AddressesReached(book, starts, ball);
  }

  lemma RefusedDepth(book: Book, starts: seq<string>, depth: nat, seen: set<string>, frontier: seq<string>, aliases: map<string, Alias>)
    requires LoadAt(book, starts, depth, seen, frontier, aliases) && depth == MAX_QUEUE_SOURCES && frontier != []
    ensures !Loadable(book, starts)
  {}

  /** What a finished load returned. */
  ghost predicate Loaded(book: Book, starts: seq<string>, reached: set<string>, aliases: map<string, Alias>) {
    && Mirrors(book, reached, aliases)
    && |aliases| <= MAX_QUEUE_SOURCES && |reached| <= MAX_QUEUE_RECIPIENTS
    && forall a :: a in reached <==> ReachedFrom(BookGraph(book), starts, a)
  }

  datatype LayerOutcome =
    | Refused(error: ExpansionError)
    | Exhausted
    | Continue(seen: set<string>, frontier: seq<string>, aliases: map<string, Alias>)

  /** One round of the load's loop. */
  method ReadLayer(names: Resolver, dir: Directory, ghost originals: seq<string>, depth: nat,
                   seen: set<string>, frontier: seq<string>, aliases: map<string, Alias>, ghost book: Book)
    returns (r: LayerOutcome)
    requires Describes(book, names, dir) && Proper(book)
    requires LoadAt(book, originals, depth, seen, frontier, aliases) && depth <= MAX_QUEUE_SOURCES && frontier != []
    ensures r.Refused? ==> !Loadable(book, originals)
    ensures r.Exhausted? ==> depth < MAX_QUEUE_SOURCES && Elements(frontier) <= seen
    ensures r.Continue? ==> depth < MAX_QUEUE_SOURCES && LoadAt(book, originals, depth + 1, r.seen, r.frontier, r.aliases)
  {
    if depth >= MAX_QUEUE_SOURCES {
      RefusedDepth(book, originals, depth, seen, frontier, aliases);
      return Refused(DepthExceeded);
    }
    var batchSet := Unseen(frontier, seen);
    if |batchSet| == 0 {
      NothingLeft(Elements(frontier), seen);
      return Exhausted;
    }
    var ball := seen + batchSet;
    assert ball == seen + Elements(frontier);
    if |ball| > MAX_QUEUE_RECIPIENTS {
      RefusedFanOut(book, originals, depth, ball);
      return Refused(FanOutExceeded);
    }
    var batch := SortedKeys(batchSet);
    var layer, next := LoadLayer(names, dir, batch, aliases, book, seen);
    if layer.Err? {
      RefusedLayer(book, originals, depth, ball, seen, batch);
      return Refused(layer.error);
    }
    assert batch[..|batch|] == batch;
    LoadStep(book, originals, depth, seen, frontier, aliases, batchSet, layer.value, next);
    r := Continue(ball, next, layer.value);
  }

  /** loadExpansionAliases: succeeds exactly on the loadable relations, and then
      returns the aliases of everything reached from the originals. */
  method LoadExpansionAliases(names: Resolver, dir: Directory, originals: seq<string>, ghost book: Book)
    returns (r: Result<map<string, Alias>, ExpansionError>, ghost reached: set<string>)
    requires Describes(book, names, dir) && Proper(book)
    ensures r.Ok? <==> Loadable(book, originals)
    ensures r.Ok? ==> Loaded(book, originals, reached, r.value)
  {
    var aliases: map<string, Alias> := map[];
    var seen: set<string> := {};
    var frontier := originals;
    var depth := 0;
    LoadStarts(book, originals);
    while |frontier| > 0
      invariant depth <= MAX_QUEUE_SOURCES && LoadAt(book, originals, depth, seen, frontier, aliases)
      decreases MAX_QUEUE_SOURCES - depth
    {
      var layer := ReadLayer(names, dir, originals, depth, seen, frontier, aliases, book);
      match layer {
        case Refused(error) => return Err(error), {};
        case Exhausted => break;
        case Continue(s, f, a) => seen, frontier, aliases, depth := s, f, a, depth + 1;
      }
    }
    LoadEnds(book, originals, depth, seen, frontier, aliases);
    reached := seen;
    r := Ok(aliases);
  }

  /** The addresses of the frontier that no earlier layer has read. */
  method Unseen(frontier: seq<string>, seen: set<string>) returns (batch: set<string>)
    ensures batch == Elements(frontier) - seen
  {
    batch := {};
    for i := 0 to |frontier|
      invariant batch == Elements(frontier[..i]) - seen
    {
      ElementsPrefix(frontier, i);
      if frontier[i] !in seen {
        batch := batch + {frontier[i]};
      }
    }
    assert frontier[..|frontier|] == frontier;
  }

  /** The depth bound refuses nothing smaller than the alias bound does: an alias
      at distance n has n others before it. */
  lemma {:induction false} DistanceNeedsAliases(book: Book, starts: seq<string>, n: nat, a: string) returns (s: set<string>)
    requires book.at(a).Entry? && Near(BookGraph(book), starts, n, a) && !Near(BookGraph(book), starts, n - 1, a)
    ensures |s| == n + 1 && AliasesReached(book, starts, s)
    ensures forall b | b in s :: Near(BookGraph(book), starts, n, b)
  {
    var g := BookGraph(book);
    NearIsReached(g, starts, n, a);
    if n == 0 {
      s := {a};
    } else {
      if a in starts {
        NearStart(g, starts, a);
        NearWidens(g, starts, 0, n - 1, a);
      }
      var b := NearSplit(g, starts, n, a);
      if Near(g, starts, n - 2, b) {
        NearStep(g, starts, n - 2, b, a);
      }
      var before := DistanceNeedsAliases(book, starts, n - 1, b);
      s := before + {a};
      forall c | c in before ensures Near(g, starts, n, c) && c != a {
        NearWidens(g, starts, n - 1, n, c);
      }
      assert |s| == |before| + 1;
    }
  }

  /** The edges of a loaded alias map. */
  ghost function AliasGraph(aliases: map<string, Alias>): Graph {
    Graph(a => if a in aliases then aliases[a].targets else [])
  }

  function SourceOf(alias: Alias): QueueSource {
    QueueSource(alias.kind, alias.id)
  }

  /** An address without an alias, reached from `a`. */
  ghost predicate LeafOf(aliases: map<string, Alias>, a: string, leaf: string) {
    leaf !in aliases && Reaches(AliasGraph(aliases), a, leaf)
  }

  /** The source of an alias reached from `a`. */
  ghost predicate SourceFrom(aliases: map<string, Alias>, a: string, source: QueueSource) {
    exists b :: b in aliases && SourceOf(aliases[b]) == source && Reaches(AliasGraph(aliases), a, b)
  }

  /** What the walk has added to its two collections for the addresses `from`. */
  ghost predicate Collected(aliases: map<string, Alias>, from: seq<string>,
                            leaves: set<string>, sources: set<QueueSource>,
                            leaves': set<string>, sources': set<QueueSource>)
  {
    && (forall x :: x in leaves' <==> x in leaves || LeafOfAny(aliases, from, x))
    && (forall x :: x in sources' <==> x in sources || SourceFromAny(aliases, from, x))
  }

  ghost predicate LeafOfAny(aliases: map<string, Alias>, from: seq<string>, leaf: string) {
    exists a :: a in from && LeafOf(aliases, a, leaf)
  }

  ghost predicate SourceFromAny(aliases: map<string, Alias>, from: seq<string>, source: QueueSource) {
    exists a :: a in from && SourceFrom(aliases, a, source)
  }

  /** The addresses the walk is inside of, outermost first: distinct aliases that
      lead to `current`. */
  ghost predicate Trail(aliases: map<string, Alias>, trail: seq<string>, current: string) {
    && Distinct(trail) && (forall a | a in trail :: a in aliases)
    && IsPath(AliasGraph(aliases), trail + [current])
  }

  /** Where the walk started. */
  ghost function Root(trail: seq<string>, current: string): string {
    (trail + [current])[0]
  }

  lemma TrailCycle(aliases: map<string, Alias>, trail: seq<string>, current: string)
    requires Trail(aliases, trail, current) && current in trail
    ensures Cyclic(AliasGraph(aliases), Root(trail, current))
  {
    var p := trail + [current];
    var i :| 0 <= i < |trail| && trail[i] == current;
    assert p[i] == p[|trail|];
  }

  /** The pigeonhole: a trail of 64 aliases that meets yet another one runs in a
      circle unless there are more than 64 aliases. */
  lemma TrailTooDeep(aliases: map<string, Alias>, trail: seq<string>, current: string)
    requires Trail(aliases, trail, current) && current in aliases && |trail| >= MAX_QUEUE_SOURCES
    ensures Cyclic(AliasGraph(aliases), Root(trail, current)) || |aliases| > MAX_QUEUE_SOURCES
  {
    if current in trail {
      TrailCycle(aliases, trail, current);
    } else {
      var p := trail + [current];
      DistinctCount(p);
      assert Elements(p) <= aliases.Keys;
      SubsetCount(Elements(p), aliases.Keys);
    }
  }

  lemma TrailExtends(aliases: map<string, Alias>, trail: seq<string>, current: string, target: string)
    requires Trail(aliases, trail, current) && current in aliases && current !in trail
    requires target in aliases[current].targets
    ensures Trail(aliases, trail + [current], target)
    ensures Root(trail + [current], target) == Root(trail, current)
  {}

  lemma FromOne(aliases: map<string, Alias>, a: string)
    ensures forall x :: LeafOfAny(aliases, [a], x) <==> LeafOf(aliases, a, x)
    ensures forall x :: SourceFromAny(aliases, [a], x) <==> SourceFrom(aliases, a, x)
  {}

  /** An address without an alias contributes itself. */
  lemma LeafStep(aliases: map<string, Alias>, current: string, l: set<string>, s: set<QueueSource>)
    requires current !in aliases
    ensures Collected(aliases, [current], l, s, l + {current}, s)
    ensures !Cyclic(AliasGraph(aliases), current)
  {
    var g := AliasGraph(aliases);
    ReachesSelf(g, current);
    forall x | Reaches(g, current, x) ensures x == current {
      if x != current { var t := ReachesSplit(g, current, x); }
    }
    FromOne(aliases, current);
    if Cyclic(g, current) { var t := CyclicSplit(g, current); }
  }

  /** What an alias contributes is its own source and what its targets do. */
  lemma AliasStep(aliases: map<string, Alias>, current: string)
    requires current in aliases
    ensures forall x :: LeafOf(aliases, current, x) <==> LeafOfAny(aliases, aliases[current].targets, x)
    ensures forall x :: SourceFrom(aliases, current, x) <==>
              x == SourceOf(aliases[current]) || SourceFromAny(aliases, aliases[current].targets, x)
  {
    var g := AliasGraph(aliases);
    forall x ensures LeafOf(aliases, current, x) <==> LeafOfAny(aliases, aliases[current].targets, x) {
      if LeafOf(aliases, current, x) {
        var t := ReachesSplit(g, current, x);
        assert LeafOf(aliases, t, x);
      } else if t :| t in aliases[current].targets && LeafOf(aliases, t, x) {
        ReachesStep(g, current, t, x);
      }
    }
    forall x ensures SourceFrom(aliases, current, x) <==>
        x == SourceOf(aliases[current]) || SourceFromAny(aliases, aliases[current].targets, x)
    {
      AliasStepSource(aliases, current, x);
    }
  }

  lemma AliasStepSource(aliases: map<string, Alias>, current: string, x: QueueSource)
    requires current in aliases
    ensures SourceFrom(aliases, current, x) <==>
              x == SourceOf(aliases[current]) || SourceFromAny(aliases, aliases[current].targets, x)
  {
    var g := AliasGraph(aliases);
    ReachesSelf(g, current);
    if SourceFrom(aliases, current, x) {
      var b :| b in aliases && SourceOf(aliases[b]) == x && Reaches(g, current, b);
      if b != current {
        var t := ReachesSplit(g, current, b);
        assert SourceFrom(aliases, t, x);
      }
    } else if t :| t in aliases[current].targets && SourceFrom(aliases, t, x) {
      var b :| b in aliases && SourceOf(aliases[b]) == x && Reaches(g, t, b);
      ReachesStep(g, current, t, b);
    }
  }

  /** Nothing but what is reached from the addresses `from` has been added. */
  ghost predicate OnlyFrom(aliases: map<string, Alias>, from: seq<string>,
                           leaves: set<string>, sources: set<QueueSource>,
                           leaves': set<string>, sources': set<QueueSource>)
  {
    && (forall x | x in leaves' :: x in leaves || LeafOfAny(aliases, from, x))
    && (forall x | x in sources' :: x in sources || SourceFromAny(aliases, from, x))
  }

  lemma CollectedThen(aliases: map<string, Alias>, from: seq<string>, t: string,
                      l0: set<string>, s0: set<QueueSource>, l1: set<string>, s1: set<QueueSource>, l2: set<string>, s2: set<QueueSource>)
    requires Collected(aliases, from, l0, s0, l1, s1)
    ensures Collected(aliases, [t], l1, s1, l2, s2) ==> Collected(aliases, from + [t], l0, s0, l2, s2)
    ensures OnlyFrom(aliases, [t], l1, s1, l2, s2) ==> OnlyFrom(aliases, from + [t], l0, s0, l2, s2)
  {}

  /** A walk that went through all targets of an alias has covered the alias. */
  lemma TargetsCoverAlias(aliases: map<string, Alias>, current: string,
                          l0: set<string>, s0: set<QueueSource>, l1: set<string>, s1: set<QueueSource>)
    requires current in aliases
    requires Collected(aliases, aliases[current].targets, l0, s0 + {SourceOf(aliases[current])}, l1, s1)
    ensures Collected(aliases, [current], l0, s0, l1, s1)
  {
    AliasStep(aliases, current);
    FromOne(aliases, current);
  }

  lemma TargetsStayInAlias(aliases: map<string, Alias>, current: string, done: seq<string>,
                           l0: set<string>, s0: set<QueueSource>, l1: set<string>, s1: set<QueueSource>)
    requires current in aliases && done <= aliases[current].targets
    requires OnlyFrom(aliases, done, l0, s0 + {SourceOf(aliases[current])}, l1, s1)
    ensures OnlyFrom(aliases, [current], l0, s0, l1, s1)
  {
    AliasStep(aliases, current);
    FromOne(aliases, current);
    assert forall a | a in done :: a in aliases[current].targets;
    forall x | LeafOfAny(aliases, done, x) ensures LeafOfAny(aliases, aliases[current].targets, x) {}
    forall x | SourceFromAny(aliases, done, x) ensures SourceFromAny(aliases, aliases[current].targets, x) {}
  }

  lemma AliasAcyclic(aliases: map<string, Alias>, current: string)
    requires current in aliases && forall t | t in aliases[current].targets :: !Cyclic(AliasGraph(aliases), t)
    ensures !Cyclic(AliasGraph(aliases), current)
  {
    if Cyclic(AliasGraph(aliases), current) { var t := CyclicSplit(AliasGraph(aliases), current); }
  }

  /** Why a walk may stop: a cycle in reach of its root, or a bound that its
      aliases, leaves or sources exceed. */
  ghost predicate WalkRefused(aliases: map<string, Alias>, trail: seq<string>, current: string, leaves: set<string>, sources: set<QueueSource>) {
    || Cyclic(AliasGraph(aliases), Root(trail, current))
    || |aliases| > MAX_QUEUE_SOURCES
    || |leaves| > MAX_QUEUE_RECIPIENTS
    || |sources| > MAX_QUEUE_SOURCES
  }

  /** Every alias has a target. */
  ghost predicate Populated(aliases: map<string, Alias>) {
    forall a | a in aliases :: aliases[a].targets != []
  }

  /** The three collections that walkExpansionGraph updates in place. */
  class ExpansionWalk {
    var active: set<string>
    var leaves: set<string>
    var sources: set<QueueSource>

    constructor ()
      ensures active == {} && leaves == {} && sources == {}
    {
      active, leaves, sources := {}, {}, {};
    }

    /** walkExpansionGraph. `active` is what it was on every return; a success has
        collected exactly the leaves and sources in reach and met no cycle. */
    method Walk(aliases: map<string, Alias>, current: string, depth: nat, ghost trail: seq<string>)
      returns (failure: Option<ExpansionError>)
      requires Trail(aliases, trail, current) && active == Elements(trail) && depth == |trail|
      modifies this
      ensures active == old(active)
      ensures failure.None? ==>
                Collected(aliases, [current], old(leaves), old(sources), leaves, sources) && !Cyclic(AliasGraph(aliases), current)
      ensures failure.None? && Populated(aliases) ==> leaves != {}
      ensures failure.Some? ==>
                OnlyFrom(aliases, [current], old(leaves), old(sources), leaves, sources) && WalkRefused(aliases, trail, current, leaves, sources)
      decreases if depth <= MAX_QUEUE_SOURCES then MAX_QUEUE_SOURCES - depth else 0
    {
      if current !in aliases {
        LeafStep(aliases, current, leaves, sources);
        leaves := leaves + {current};
        if |leaves| > MAX_QUEUE_RECIPIENTS {
          return Some(FanOutExceeded);
        }
        return None;
      }
      if depth >= MAX_QUEUE_SOURCES {
        TrailTooDeep(aliases, trail, current);
        return Some(DepthExceeded);
      }
      if current in active {
        TrailCycle(aliases, trail, current);
        return Some(AliasCycle);
      }
      active := active + {current};
      sources := sources + {SourceOf(aliases[current])};
      if |sources| > MAX_QUEUE_SOURCES {
        TargetsStayInAlias(aliases, current, [], old(leaves), old(sources), leaves, sources);
        active := active - {current};
        return Some(SourceLimitExceeded);
      }
      failure := WalkTargets(aliases, current, depth, trail, old(leaves), old(sources));
      active := active - {current};
    }

    /** The walk's loop over the targets of one alias. */
    method WalkTargets(aliases: map<string, Alias>, current: string, depth: nat, ghost trail: seq<string>,
                       ghost l0: set<string>, ghost s0: set<QueueSource>)
      returns (failure: Option<ExpansionError>)
      requires Trail(aliases, trail, current) && current in aliases && current !in trail
      requires active == Elements(trail) + {current} && depth == |trail| < MAX_QUEUE_SOURCES
      requires leaves == l0 && sources == s0 + {SourceOf(aliases[current])}
      modifies this
      ensures active == old(active)
      ensures failure.None? ==>
                Collected(aliases, [current], l0, s0, leaves, sources) && !Cyclic(AliasGraph(aliases), current)
      ensures failure.None? && Populated(aliases) ==> leaves != {}
      ensures failure.Some? ==>
                OnlyFrom(aliases, [current], l0, s0, leaves, sources) && WalkRefused(aliases, trail, current, leaves, sources)
      decreases MAX_QUEUE_SOURCES - depth, 0
    {
      var targets := aliases[current].targets;
      ghost var s1 := sources;
      ElementsAppend(trail, [current]);
      for i := 0 to |targets|
        invariant active == old(active)
        invariant Collected(aliases, targets[..i], l0, s1, leaves, sources)
        invariant forall k | 0 <= k < i :: !Cyclic(AliasGraph(aliases), targets[k])
        invariant i > 0 && Populated(aliases) ==> leaves != {}
      {
        ghost var l, s := leaves, sources;
        TrailExtends(aliases, trail, current, targets[i]);
        failure := Walk(aliases, targets[i], depth + 1, trail + [current]);
        CollectedThen(aliases, targets[..i], targets[i], l0, s1, l, s, leaves, sources);
        assert targets[..i + 1] == targets[..i] + [targets[i]];
        if failure.Some? {
          TargetsStayInAlias(aliases, current, targets[..i + 1], l0, s0, leaves, sources);
          return;
        }
      }
      assert targets[..|targets|] == targets;
      TargetsCoverAlias(aliases, current, l0, s0, leaves, sources);
      AliasAcyclic(aliases, current);
      failure := None;
    }
  }

  /** The final recipients and the alias sources of one original recipient. */
  datatype Expanded = Expanded(recipients: seq<string>, sources: seq<QueueSource>)

  /** A reachable address that the directory has no alias for. */
  ghost predicate FinalRecipient(book: Book, original: string, x: string) {
    book.at(x).Leaf? && Reaches(BookGraph(book), original, x)
  }

  /** The source of a reachable alias. */
  ghost predicate ExpansionSource(book: Book, original: string, source: QueueSource) {
    exists b :: book.at(b).Entry? && SourceOf(book.at(b).alias) == source && Reaches(BookGraph(book), original, b)
  }

  /** Exactly when an original recipient can be expanded. */
  ghost predicate Expandable(book: Book, original: string) {
    Loadable(book, [original]) && !Cyclic(BookGraph(book), original)
  }

  /** The loaded map has the directory's edges out of everything reached. */
  lemma LoadedAgrees(book: Book, starts: seq<string>, original: string, reached: set<string>, aliases: map<string, Alias>)
    requires Loaded(book, starts, reached, aliases) && original in starts
    ensures AgreeFrom(BookGraph(book), AliasGraph(aliases), original)
  {
    forall b | Reaches(BookGraph(book), original, b) ensures BookGraph(book).next(b) == AliasGraph(aliases).next(b) {
      assert b in reached;
    }
  }

  /** Leaves, sources and cycles seen through the loaded map are those of the
      directory. */
  lemma LoadedAnswers(book: Book, starts: seq<string>, original: string, reached: set<string>, aliases: map<string, Alias>)
    requires Loaded(book, starts, reached, aliases) && original in starts
    ensures forall x :: LeafOf(aliases, original, x) <==> FinalRecipient(book, original, x)
    ensures forall x :: SourceFrom(aliases, original, x) <==> ExpansionSource(book, original, x)
    ensures Cyclic(AliasGraph(aliases), original) <==> Cyclic(BookGraph(book), original)
  {
    LoadedAgrees(book, starts, original, reached, aliases);
    AgreementTransfers(BookGraph(book), AliasGraph(aliases), original, original);
    forall x ensures Reaches(AliasGraph(aliases), original, x) <==> Reaches(BookGraph(book), original, x) {
      AgreementTransfers(BookGraph(book), AliasGraph(aliases), original, x);
    }
    forall x | Reaches(BookGraph(book), original, x)
      ensures (x in aliases <==> book.at(x).Entry?) && (x !in aliases <==> book.at(x).Leaf?)
    {
      assert x in reached;
    }
    forall x ensures SourceFrom(aliases, original, x) <==> ExpansionSource(book, original, x) {
      if SourceFrom(aliases, original, x) {
        var b :| b in aliases && SourceOf(aliases[b]) == x && Reaches(AliasGraph(aliases), original, b);
        assert book.at(b) == Entry(aliases[b]);
      }
      if ExpansionSource(book, original, x) {
        var b :| book.at(b).Entry? && SourceOf(book.at(b).alias) == x && Reaches(BookGraph(book), original, b);
        assert book.at(b) == Entry(aliases[b]);
      }
    }
  }

  /** After a load the walk's own bounds never bind: its leaves are among the
      addresses read and it has at most one source per alias. */
  lemma WalkBoundsHold(book: Book, starts: seq<string>, original: string, reached: set<string>, aliases: map<string, Alias>,
                       leaves: set<string>, sources: set<QueueSource>)
    requires Loaded(book, starts, reached, aliases) && original in starts
    requires OnlyFrom(aliases, [original], {}, {}, leaves, sources)
    ensures |leaves| <= MAX_QUEUE_RECIPIENTS && |sources| <= MAX_QUEUE_SOURCES
  {
    LoadedAnswers(book, starts, original, reached, aliases);
    FromOne(aliases, original);
    assert leaves <= reached;
    SubsetCount(leaves, reached);
    SourceCount(aliases, sources);
  }

  lemma {:induction false} SourceCount(aliases: map<string, Alias>, sources: set<QueueSource>)
    requires forall s | s in sources :: exists a :: a in aliases && SourceOf(aliases[a]) == s
    ensures |sources| <= |aliases|
    decreases sources
  {
    if sources != {} {
      var s :| s in sources;
      var a :| a in aliases && SourceOf(aliases[a]) == s;
      var fewer := map b | b in aliases && b != a :: aliases[b];
      assert fewer.Keys == aliases.Keys - {a};
      forall t | t in sources - {s} ensures exists b :: b in fewer && SourceOf(fewer[b]) == t {
        var b :| b in aliases && SourceOf(aliases[b]) == t;
        assert b in fewer;
      }
      SourceCount(fewer, sources - {s});
    }
  }

  /** Sources ordered by object ID. */
  method SortedSources(set_: set<QueueSource>) returns (r: seq<QueueSource>)
    ensures Distinct(r) && Elements(r) == set_
    ensures forall i, j | 0 <= i < j < |r| :: !Less(r[j].objectId, r[i].objectId)
  {
    r := [];
    var rest := set_;
    while rest != {}
      invariant rest <= set_ && Distinct(r) && Elements(r) == set_ - rest
      invariant forall i, j | 0 <= i < j < |r| :: !Less(r[j].objectId, r[i].objectId)
      invariant forall s, t | s in r && t in rest :: !Less(t.objectId, s.objectId)
      decreases rest
    {
      var least := LeastSource(rest);
      assert least !in Elements(r);
      ElementsAppend(r, [least]);
      r := r + [least];
      rest := rest - {least};
    }
  }

  method LeastSource(from: set<QueueSource>) returns (least: QueueSource)
    requires from != {}
    ensures least in from && forall s | s in from :: !Less(s.objectId, least.objectId)
  {
    least :| least in from;
    var rest := from - {least};
    LessIrreflexive(least.objectId);
    while rest != {}
      invariant rest <= from && least in from
      invariant forall s | s in from - rest :: !Less(s.objectId, least.objectId)
      decreases rest
    {
      var s :| s in rest;
      if Less(s.objectId, least.objectId) {
        forall x | x in from - rest ensures !Less(x.objectId, s.objectId) {
          if Less(x.objectId, s.objectId) { LessTransitive(x.objectId, s.objectId, least.objectId); }
        }
        LessIrreflexive(s.objectId);
        least := s;
      }
      rest := rest - {s};
    }
  }

  /** expandOriginal: one SMTP recipient becomes every leaf and every alias source
      in its reach, or is refused. */
  method ExpandOriginal(names: Resolver, dir: Directory, raw: string) returns (r: Result<Expanded, ExpansionError>)
    ensures r.Ok? <==> NormalizeRecipient(names, raw).Some? && Expandable(BookOf(names, dir), NormalizeRecipient(names, raw).value.text)
    ensures r.Ok? ==>
      var original := NormalizeRecipient(names, raw).value.text;
      && Sorted(r.value.recipients) && Distinct(r.value.recipients) && r.value.recipients != []
      && (forall x :: x in r.value.recipients <==> FinalRecipient(BookOf(names, dir), original, x))
      && (forall s :: s in r.value.sources <==> ExpansionSource(BookOf(names, dir), original, s))
      && Distinct(r.value.sources) && |r.value.sources| <= MAX_QUEUE_SOURCES
  {
    var normalized := NormalizeRecipient(names, raw);
    if normalized.None? {
      return Err(InvalidOriginal);
    }
    BookDescribes(names, dir);
    r := ExpandCanonical(names, dir, normalized.value.text, BookOf(names, dir));
  }

  method ExpandCanonical(names: Resolver, dir: Directory, original: string, ghost book: Book) returns (r: Result<Expanded, ExpansionError>)
    requires Describes(book, names, dir) && Proper(book)
    ensures r.Ok? <==> Expandable(book, original)
    ensures r.Ok? ==>
      && Sorted(r.value.recipients) && Distinct(r.value.recipients) && r.value.recipients != []
      && (forall x :: x in r.value.recipients <==> FinalRecipient(book, original, x))
      && (forall s :: s in r.value.sources <==> ExpansionSource(book, original, s))
      && Distinct(r.value.sources) && |r.value.sources| <= MAX_QUEUE_SOURCES
  {
    ghost var reached: set<string>;
    var loaded: Result<map<string, Alias>, ExpansionError>;
    loaded, reached := LoadExpansionAliases(names, dir, [original], book);
    if loaded.Err? {
      return Err(loaded.error);
    }
    var aliases := loaded.value;
    var walk := new ExpansionWalk();
    assert IsPath(AliasGraph(aliases), [] + [original]);
    var failure := walk.Walk(aliases, original, 0, []);
    LoadedAnswers(book, [original], original, reached, aliases);
    FromOne(aliases, original);
    if failure.Some? {
      WalkBoundsHold(book, [original], original, reached, aliases, walk.leaves, walk.sources);
      return Err(failure.value);
    }
    assert Populated(aliases);
    var recipients := SortedKeys(walk.leaves);
    var sources := SortedSources(walk.sources);
    SourcesFit(aliases, original, sources, walk.sources);
    assert forall x :: x in recipients <==> x in Elements(recipients);
    assert forall s :: s in sources <==> s in Elements(sources);
    r := Ok(Expanded(recipients, sources));
  }

  lemma SourcesFit(aliases: map<string, Alias>, original: string, list: seq<QueueSource>, sources: set<QueueSource>)
    requires |aliases| <= MAX_QUEUE_SOURCES && Distinct(list) && Elements(list) == sources
    requires forall s | s in sources :: SourceFrom(aliases, original, s)
    ensures |list| <= MAX_QUEUE_SOURCES
  {
    SourceCount(aliases, sources);
    DistinctCount(list);
  }

  /** An original recipient and the final recipient it was delivered to. */
  datatype Delivery = Delivery(original: string, recipient: string)

  /** A delivery that the alias relation accounts for. */
  ghost predicate Derived(book: Book, d: Delivery) {
    d.original == d.recipient
    || (!Cyclic(BookGraph(book), d.original) && FinalRecipient(book, d.original, d.recipient))
  }

  ghost predicate DeliverySource(book: Book, deliveries: seq<Delivery>, source: QueueSource) {
    exists d :: d in deliveries && d.original != d.recipient && ExpansionSource(book, d.original, source)
  }

  ghost function Originals(deliveries: seq<Delivery>): seq<string> {
    seq(|deliveries|, i requires 0 <= i < |deliveries| => deliveries[i].original)
  }

  /** One delivery of a request whose aliases are loaded. */
  method CheckDelivery(aliases: map<string, Alias>, d: Delivery, ghost book: Book, ghost starts: seq<string>, ghost reached: set<string>)
    returns (r: Result<set<QueueSource>, ExpansionError>)
    requires Loaded(book, starts, reached, aliases) && d.original in starts
    ensures r.Ok? <==> Derived(book, d)
    ensures r.Ok? ==> forall s :: s in r.value <==> d.original != d.recipient && ExpansionSource(book, d.original, s)
    ensures r.Ok? ==> forall s | s in r.value :: exists a :: a in aliases && SourceOf(aliases[a]) == s
  {
    if d.original == d.recipient {
      return Ok({});
    }
    var walk := new ExpansionWalk();
    assert IsPath(AliasGraph(aliases), [] + [d.original]);
    var failure := walk.Walk(aliases, d.original, 0, []);
    LoadedAnswers(book, starts, d.original, reached, aliases);
    FromOne(aliases, d.original);
    if failure.Some? {
      WalkBoundsHold(book, starts, d.original, reached, aliases, walk.leaves, walk.sources);
      return Err(failure.value);
    }
    if d.recipient !in walk.leaves {
      return Err(InvalidAlias);
    }
    r := Ok(walk.sources);
  }

  /** resolveExpansionDeliveries, on canonical addresses: accepts exactly the
      deliveries that the complete reachable alias relation derives, and returns
      exactly the sources they pass through. The bound on collected sources
      never binds after a load. */
  method ResolveExpansionDeliveries(names: Resolver, dir: Directory, deliveries: seq<Delivery>, originals: seq<string>, ghost book: Book)
    returns (r: Result<seq<QueueSource>, ExpansionError>)
    requires Describes(book, names, dir) && Proper(book)
    requires originals == Originals(deliveries)
    ensures r.Ok? <==> Loadable(book, originals) && forall d | d in deliveries :: Derived(book, d)
    ensures r.Ok? ==> Distinct(r.value) && forall s :: s in r.value <==> DeliverySource(book, deliveries, s)
  {
    ghost var reached: set<string>;
    var loaded: Result<map<string, Alias>, ExpansionError>;
    loaded, reached := LoadExpansionAliases(names, dir, originals, book);
    if loaded.Err? {
      return Err(loaded.error);
    }
    var aliases := loaded.value;
    var sources: set<QueueSource> := {};
    for i := 0 to |deliveries|
      invariant CheckedUpTo(book, aliases, deliveries, i, sources)
    {
      var d := deliveries[i];
      assert originals[i] == d.original;
      var checked := CheckDelivery(aliases, d, book, originals, reached);
      if checked.Err? {
        assert d in deliveries;
        return Err(checked.error);
      }
      CheckedOneMore(book, aliases, deliveries, i, sources, checked.value);
      sources := sources + checked.value;
      if |sources| > MAX_QUEUE_SOURCES {
        // The source limit error: it cannot occur after a successful load.
        SourceCount(aliases, sources);
        assert false;
      }
    }
    var list := SortedSources(sources);
    CheckedAll(book, aliases, deliveries, sources, list);
    r := Ok(list);
  }

  /** The first `i` deliveries are derived, through exactly these sources. */
  ghost predicate CheckedUpTo(book: Book, aliases: map<string, Alias>, deliveries: seq<Delivery>, i: nat, sources: set<QueueSource>)
    requires i <= |deliveries|
  {
    && (forall k | 0 <= k < i :: Derived(book, deliveries[k]))
    && (forall s :: s in sources <==> DeliverySource(book, deliveries[..i], s))
    && (forall s | s in sources :: exists a :: a in aliases && SourceOf(aliases[a]) == s)
  }

  lemma CheckedOneMore(book: Book, aliases: map<string, Alias>, deliveries: seq<Delivery>, i: nat, before: set<QueueSource>, added: set<QueueSource>)
    requires i < |deliveries| && CheckedUpTo(book, aliases, deliveries, i, before) && Derived(book, deliveries[i])
    requires forall s :: s in added <==>
               deliveries[i].original != deliveries[i].recipient && ExpansionSource(book, deliveries[i].original, s)
    requires forall s | s in added :: exists a :: a in aliases && SourceOf(aliases[a]) == s
    ensures CheckedUpTo(book, aliases, deliveries, i + 1, before + added)
  {}

  lemma CheckedAll(book: Book, aliases: map<string, Alias>, deliveries: seq<Delivery>, sources: set<QueueSource>, list: seq<QueueSource>)
    requires CheckedUpTo(book, aliases, deliveries, |deliveries|, sources) && Elements(list) == sources
    ensures forall d | d in deliveries :: Derived(book, d)
    ensures forall s :: s in list <==> DeliverySource(book, deliveries, s)
  {
    assert deliveries[..|deliveries|] == deliveries;
    assert forall s :: s in list <==> s in Elements(list);
  }
}
