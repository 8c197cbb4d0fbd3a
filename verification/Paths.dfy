/** Paths, reachability and cycles in a directed graph of addresses. */
module Paths {
  import opened Prelude

  datatype Graph = Graph(next: string -> seq<string>)

  /** A non-empty walk along edges. */
  ghost predicate IsPath(g: Graph, p: seq<string>) {
    p != [] && forall i {:trigger g.next(p[i])} | 0 <= i < |p| - 1 :: p[i + 1] in g.next(p[i])
  }

  ghost predicate Reaches(g: Graph, a: string, b: string) {
    exists p :: IsPath(g, p) && p[0] == a && p[|p| - 1] == b
  }

  /** Some walk from `a` visits an address twice. */
  ghost predicate Cyclic(g: Graph, a: string) {
    exists p :: IsPath(g, p) && p[0] == a && !Distinct(p)
  }

  /** Reached from one of `starts` in at most `n` steps. */
  ghost predicate Near(g: Graph, starts: seq<string>, n: int, a: string) {
    exists p :: IsPath(g, p) && p[0] in starts && p[|p| - 1] == a && |p| <= n + 1
  }

  ghost predicate ReachedFrom(g: Graph, starts: seq<string>, a: string) {
    exists s :: s in starts && Reaches(g, s, a)
  }

  lemma PathExtend(g: Graph, p: seq<string>, t: string)
    requires IsPath(g, p) && t in g.next(p[|p| - 1])
    ensures IsPath(g, p + [t])
  {}

  lemma PathPrepend(g: Graph, a: string, p: seq<string>)
    requires IsPath(g, p) && p[0] in g.next(a)
    ensures IsPath(g, [a] + p)
  {}

  lemma PathSlice(g: Graph, p: seq<string>, i: nat, j: nat)
    requires IsPath(g, p) && i < j <= |p|
    ensures IsPath(g, p[i..j])
  {}

  lemma ReachesSelf(g: Graph, a: string)
    ensures Reaches(g, a, a)
  {
    assert IsPath(g, [a]);
  }

  lemma ReachesStep(g: Graph, a: string, t: string, b: string)
    requires t in g.next(a) && Reaches(g, t, b)
    ensures Reaches(g, a, b)
  {
    var p :| IsPath(g, p) && p[0] == t && p[|p| - 1] == b;
    PathPrepend(g, a, p);
    assert ([a] + p)[|p|] == b;
  }

  lemma ReachesSplit(g: Graph, a: string, b: string) returns (t: string)
    requires Reaches(g, a, b) && a != b
    ensures t in g.next(a) && Reaches(g, t, b)
  {
    var p :| IsPath(g, p) && p[0] == a && p[|p| - 1] == b;
    t := p[1];
    assert p[0 + 1] in g.next(p[0]);
    PathSlice(g, p, 1, |p|);
    assert IsPath(g, p[1..|p|]) && p[1..|p|][|p| - 2] == b;
  }

  /** A cycle seen from `a` is also seen from one of its successors. */
  lemma CyclicSplit(g: Graph, a: string) returns (t: string)
    requires Cyclic(g, a)
    ensures t in g.next(a) && Cyclic(g, t)
  {
    var p :| IsPath(g, p) && p[0] == a && !Distinct(p);
    var i, j :| 0 <= i < j < |p| && p[i] == p[j];
    t := p[1];
    assert p[0 + 1] in g.next(p[0]);
    if i > 0 {
      PathSlice(g, p, 1, |p|);
      var q := p[1..|p|];
      assert q[i - 1] == q[j - 1];
      assert IsPath(g, q) && q[0] == t && !Distinct(q);
    } else {
      PathSlice(g, p, 1, j + 1);
      var q := p[1..j + 1];
      assert q[|q| - 1] == a;
      PathExtend(g, q, t);
      var w := q + [t];
      assert w[0] == w[|w| - 1];
      assert IsPath(g, w) && w[0] == t && !Distinct(w);
    }
  }

  lemma NearStart(g: Graph, starts: seq<string>, a: string)
    requires a in starts
    ensures Near(g, starts, 0, a)
  {
    assert IsPath(g, [a]);
  }

  lemma NearWidens(g: Graph, starts: seq<string>, m: int, n: int, a: string)
    requires m <= n && Near(g, starts, m, a)
    ensures Near(g, starts, n, a)
  {}

  lemma NearStep(g: Graph, starts: seq<string>, n: int, a: string, t: string)
    requires Near(g, starts, n, a) && t in g.next(a)
    ensures Near(g, starts, n + 1, t)
  {
    var p :| IsPath(g, p) && p[0] in starts && p[|p| - 1] == a && |p| <= n + 1;
    PathExtend(g, p, t);
    assert (p + [t])[|p|] == t;
  }

  lemma NearSplit(g: Graph, starts: seq<string>, n: int, a: string) returns (b: string)
    requires Near(g, starts, n, a) && a !in starts
    ensures Near(g, starts, n - 1, b) && a in g.next(b)
  {
    var p :| IsPath(g, p) && p[0] in starts && p[|p| - 1] == a && |p| <= n + 1;
    b := p[|p| - 2];
    assert p[|p| - 2 + 1] in g.next(b);
    PathSlice(g, p, 0, |p| - 1);
    assert IsPath(g, p[0..|p| - 1]) && p[0..|p| - 1][|p| - 2] == b;
  }

  lemma NearIsReached(g: Graph, starts: seq<string>, n: int, a: string)
    requires Near(g, starts, n, a)
    ensures ReachedFrom(g, starts, a)
  {}

  /** A set that holds the starts and is closed under edges holds everything
      reached from them. */
  lemma ClosedHoldsReached(g: Graph, starts: seq<string>, closed: set<string>, a: string)
    requires forall s | s in starts :: s in closed
    requires forall b, t | b in closed && t in g.next(b) :: t in closed
    requires ReachedFrom(g, starts, a)
    ensures a in closed
  {
    var s :| s in starts && Reaches(g, s, a);
    var p :| IsPath(g, p) && p[0] == s && p[|p| - 1] == a;
    ClosedHoldsPath(g, closed, p, |p| - 1);
  }

  lemma {:induction false} ClosedHoldsPath(g: Graph, closed: set<string>, p: seq<string>, i: nat)
    requires forall b, t | b in closed && t in g.next(b) :: t in closed
    requires IsPath(g, p) && p[0] in closed && i < |p|
    ensures p[i] in closed
  {
    if i > 0 {
      ClosedHoldsPath(g, closed, p, i - 1);
      assert p[i - 1 + 1] in g.next(p[i - 1]);
    }
  }

  /** Two graphs with the same edges out of everything reached from `a`. */
  ghost predicate AgreeFrom(g: Graph, h: Graph, a: string) {
    forall b | Reaches(g, a, b) :: g.next(b) == h.next(b)
  }

  lemma {:induction false} PathTransfers(g: Graph, h: Graph, a: string, p: seq<string>)
    requires AgreeFrom(g, h, a) && IsPath(h, p) && p[0] == a
    ensures IsPath(g, p)
  {
    if |p| > 1 {
      var q := p[0..|p| - 1];
      PathSlice(h, p, 0, |p| - 1);
      PathTransfers(g, h, a, q);
      assert Reaches(g, a, q[|q| - 1]);
      assert p[|p| - 2 + 1] in h.next(p[|p| - 2]);
      PathExtend(g, q, p[|p| - 1]);
      assert p == q + [p[|p| - 1]];
    }
  }

  lemma PathTransfersBack(g: Graph, h: Graph, a: string, p: seq<string>)
    requires AgreeFrom(g, h, a) && IsPath(g, p) && p[0] == a
    ensures IsPath(h, p)
  {
    forall i | 0 <= i < |p| - 1 ensures p[i + 1] in h.next(p[i]) {
      PathSlice(g, p, 0, i + 1);
      assert p[0..i + 1][i] == p[i];
      assert Reaches(g, a, p[i]);
    }
  }

  /** Reachability and cyclicity from `a` only depend on what is reached. */
  lemma AgreementTransfers(g: Graph, h: Graph, a: string, b: string)
    requires AgreeFrom(g, h, a)
    ensures Reaches(g, a, b) <==> Reaches(h, a, b)
    ensures Cyclic(g, a) <==> Cyclic(h, a)
  {
    if Reaches(g, a, b) {
      var p :| IsPath(g, p) && p[0] == a && p[|p| - 1] == b;
      PathTransfersBack(g, h, a, p);
    }
    if Reaches(h, a, b) {
      var p :| IsPath(h, p) && p[0] == a && p[|p| - 1] == b;
      PathTransfers(g, h, a, p);
    }
    if Cyclic(g, a) {
      var p :| IsPath(g, p) && p[0] == a && !Distinct(p);
      PathTransfersBack(g, h, a, p);
    }
    if Cyclic(h, a) {
      var p :| IsPath(h, p) && p[0] == a && !Distinct(p);
      PathTransfers(g, h, a, p);
    }
  }

  /** Everything within `n` steps of the starts, as a set: `IsBall` keeps the
      statement folded. */
  ghost function Ball(g: Graph, starts: seq<string>, n: int): iset<string> {
    iset a | Near(g, starts, n, a)
  }

  ghost function Members(s: set<string>): iset<string> {
    iset a | a in s
  }

  ghost predicate IsBall(g: Graph, starts: seq<string>, n: int, s: set<string>) {
    Members(s) == Ball(g, starts, n)
  }

  lemma InBall(g: Graph, starts: seq<string>, n: int, s: set<string>, a: string)
    requires IsBall(g, starts, n, s)
    ensures a in s <==> Near(g, starts, n, a)
  {
    assert a in s <==> a in Members(s);
    assert Near(g, starts, n, a) <==> a in Ball(g, starts, n);
  }

  lemma BallStarts(g: Graph, starts: seq<string>)
    ensures IsBall(g, starts, -1, {}) && IsBall(g, starts, 0, Elements(starts))
  {
    forall a ensures a in Elements(starts) <==> Near(g, starts, 0, a) {
      if a in starts { NearStart(g, starts, a); }
    }
  }

  /** A ball grows by the successors of its newest layer. */
  lemma BallGrows(g: Graph, starts: seq<string>, n: int, inner: set<string>, outer: set<string>, bigger: set<string>)
    requires n >= 0 && IsBall(g, starts, n - 1, inner) && IsBall(g, starts, n, outer)
    requires forall t :: t in bigger <==> t in outer || exists a :: a in outer && a !in inner && t in g.next(a)
    ensures IsBall(g, starts, n + 1, bigger)
  {
    forall t ensures t in bigger <==> Near(g, starts, n + 1, t) {
      BallGrowsAt(g, starts, n, inner, outer, t);
    }
    assert Members(bigger) == Ball(g, starts, n + 1);
  }

  lemma BallGrowsAt(g: Graph, starts: seq<string>, n: int, inner: set<string>, outer: set<string>, t: string)
    requires n >= 0 && IsBall(g, starts, n - 1, inner) && IsBall(g, starts, n, outer)
    ensures Near(g, starts, n + 1, t) <==> t in outer || exists a :: a in outer && a !in inner && t in g.next(a)
  {
    InBall(g, starts, n, outer, t);
    if t in outer {
      NearWidens(g, starts, n, n + 1, t);
    } else if exists a :: a in outer && a !in inner && t in g.next(a) {
      var a :| a in outer && a !in inner && t in g.next(a);
      InBall(g, starts, n, outer, a);
      NearStep(g, starts, n, a, t);
    } else if Near(g, starts, n + 1, t) {
      if t in starts {
        NearStart(g, starts, t);
        NearWidens(g, starts, 0, n, t);
      } else {
        var a := NearSplit(g, starts, n + 1, t);
        InBall(g, starts, n, outer, a);
        InBall(g, starts, n - 1, inner, a);
        if a in inner {
          NearStep(g, starts, n - 1, a, t);
        }
      }
    }
  }

  /** A ball that no longer grows is everything reached. */
  lemma BallIsReach(g: Graph, starts: seq<string>, n: nat, s: set<string>)
    requires IsBall(g, starts, n - 1, s) && IsBall(g, starts, n, s)
    ensures forall a :: a in s <==> ReachedFrom(g, starts, a)
  {
    forall x | x in starts ensures x in s {
      NearStart(g, starts, x);
      NearWidens(g, starts, 0, n, x);
      InBall(g, starts, n, s, x);
    }
    forall b, t | b in s && t in g.next(b) ensures t in s {
      InBall(g, starts, n - 1, s, b);
      NearStep(g, starts, n - 1, b, t);
      InBall(g, starts, n, s, t);
    }
    forall a ensures a in s <==> ReachedFrom(g, starts, a) {
      if a in s {
        InBall(g, starts, n, s, a);
        NearIsReached(g, starts, n, a);
      }
      if ReachedFrom(g, starts, a) {
        ClosedHoldsReached(g, starts, s, a);
      }
    }
  }

  lemma BallReached(g: Graph, starts: seq<string>, n: int, s: set<string>, a: string)
    requires IsBall(g, starts, n, s) && a in s
    ensures ReachedFrom(g, starts, a)
  {
    InBall(g, starts, n, s, a);
    NearIsReached(g, starts, n, a);
  }
}
