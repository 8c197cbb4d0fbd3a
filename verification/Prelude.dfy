/** Results, Go byte strings, and the sorted forms that every digest in the
    system is computed over. A Go string is modelled as a `string` whose
    characters stand for its bytes. */
module Prelude {

  datatype Option<+T> = None | Some(value: T)

  datatype Result<+T, +E> = Ok(value: T) | Err(error: E)

  /** The elements of a list, as a set. */
  ghost function Elements<T>(s: seq<T>): set<T> {
    set x | x in s
  }

  lemma ElementsAppend<T>(a: seq<T>, b: seq<T>)
    ensures Elements(a + b) == Elements(a) + Elements(b)
  {}

  lemma ElementsPrefix<T>(s: seq<T>, i: nat)
    requires i < |s|
    ensures Elements(s[..i + 1]) == Elements(s[..i]) + {s[i]} <= Elements(s)
  {}

  ghost predicate Distinct<T>(s: seq<T>) {
    forall i, j | 0 <= i < j < |s| :: s[i] != s[j]
  }

  lemma {:induction false} DistinctCount<T>(s: seq<T>)
    requires Distinct(s)
    ensures |Elements(s)| == |s|
  {
    if s != [] {
      var rest := s[..|s| - 1];
      DistinctCount(rest);
      assert s == rest + [s[|s| - 1]];
      assert Elements(s) == Elements(rest) + {s[|s| - 1]};
    }
  }

  lemma SubsetCount<T>(a: set<T>, b: set<T>)
    requires a <= b
    ensures |a| <= |b|
  {
    assert b == a + (b - a);
  }

  lemma NothingLeft<T>(a: set<T>, b: set<T>)
    requires |a - b| == 0
    ensures a <= b
  {
    assert a - b == {};
    assert forall x | x in a :: x in b || x in a - b;
  }

  lemma MergeSame<K, V>(m: map<K, V>)
    ensures m + m == m && map[] + m == m
  {}

  lemma SameMap<K, V>(a: map<K, V>, b: map<K, V>)
    requires a.Keys == b.Keys && forall k | k in a :: a[k] == b[k]
    ensures a == b
  {}

  /** Byte-wise lexicographic order, the order of Go's `<` on strings. */
  predicate Less(a: string, b: string) {
    b != "" && (a == "" || a[0] < b[0] || (a[0] == b[0] && Less(a[1..], b[1..])))
  }

  lemma {:induction false} LessIrreflexive(a: string)
    ensures !Less(a, a)
  {
    if a != "" {
      LessIrreflexive(a[1..]);
    }
  }

  lemma {:induction false} LessTrichotomy(a: string, b: string)
    ensures Less(a, b) || a == b || Less(b, a)
    ensures !(Less(a, b) && Less(b, a))
    ensures !Less(a, a)
    decreases |a| + |b|
  {
    LessIrreflexive(a);
    if a != "" {
      if b != "" && a[0] == b[0] {
        LessTrichotomy(a[1..], b[1..]);
        assert a == [a[0]] + a[1..] && b == [b[0]] + b[1..];
      }
    }
  }

  lemma {:induction false} LessTransitive(a: string, b: string, c: string)
    requires Less(a, b) && Less(b, c)
    ensures Less(a, c)
  {
    if a != "" && a[0] == b[0] && b[0] == c[0] {
      LessTransitive(a[1..], b[1..], c[1..]);
    }
  }

  /** No element is larger than a later one: what `sort.Strings` leaves. */
  ghost predicate Sorted(s: seq<string>) {
    forall i, j | 0 <= i < j < |s| :: !Less(s[j], s[i])
  }

  function InsertSorted(x: string, s: seq<string>): (r: seq<string>) {
    if s == [] || !Less(s[0], x) then [x] + s else [s[0]] + InsertSorted(x, s[1..])
  }

  /** `sort.Strings`, as a function. */
  function SortStrings(s: seq<string>): (r: seq<string>) {
    if s == [] then [] else InsertSorted(s[0], SortStrings(s[1..]))
  }

  lemma SortedPrepend(x: string, s: seq<string>)
    requires Sorted(s) && forall j | 0 <= j < |s| :: !Less(s[j], x)
    ensures Sorted([x] + s)
  {}

  /** What does not come before the head of a sorted list comes before none of it. */
  lemma NoneBelow(x: string, s: seq<string>)
    requires Sorted(s) && s != [] && !Less(s[0], x)
    ensures forall j | 0 <= j < |s| :: !Less(s[j], x)
  {
    LessTrichotomy(s[0], x);
    forall j | 0 <= j < |s| ensures !Less(s[j], x) {
      if j > 0 && Less(s[j], x) && Less(x, s[0]) { LessTransitive(s[j], x, s[0]); }
    }
  }

  lemma {:induction false} InsertSortedSorts(x: string, s: seq<string>)
    requires Sorted(s)
    ensures Sorted(InsertSorted(x, s))
    ensures multiset(InsertSorted(x, s)) == multiset([x]) + multiset(s)
  {
    if s != [] {
      assert s == [s[0]] + s[1..];
      if Less(s[0], x) {
        InsertSortedSorts(x, s[1..]);
        var r := InsertSorted(x, s[1..]);
        LessTrichotomy(s[0], x);
        forall j | 0 <= j < |r| ensures !Less(r[j], s[0]) {
          assert r[j] in multiset(r);
        }
        SortedPrepend(s[0], r);
      } else {
        NoneBelow(x, s);
        SortedPrepend(x, s);
      }
    }
  }

  /** Lists with the same multiset have the same length and elements. */
  lemma SameMultiset(a: seq<string>, b: seq<string>)
    requires multiset(a) == multiset(b)
    ensures |a| == |b| && Elements(a) == Elements(b)
  {
    assert |multiset(a)| == |a| && |multiset(b)| == |b|;
    forall x ensures x in a <==> x in b {
      assert x in a <==> x in multiset(a);
      assert x in b <==> x in multiset(b);
    }
  }

  lemma {:induction false} SortedPermutation(s: seq<string>)
    ensures Sorted(SortStrings(s)) && multiset(SortStrings(s)) == multiset(s)
  {
    if s != [] {
      SortedPermutation(s[1..]);
      InsertSortedSorts(s[0], SortStrings(s[1..]));
      assert s == [s[0]] + s[1..];
    }
  }

  lemma SortStringsSorts(s: seq<string>)
    ensures Sorted(SortStrings(s))
    ensures multiset(SortStrings(s)) == multiset(s)
    ensures |SortStrings(s)| == |s|
    ensures Elements(SortStrings(s)) == Elements(s)
  {
    SortedPermutation(s);
    SameMultiset(SortStrings(s), s);
  }

  lemma SameHead(a: seq<string>, b: seq<string>)
    requires Sorted(a) && Sorted(b) && multiset(a) == multiset(b) && a != [] && b != []
    ensures a[0] == b[0]
  {
    assert a[0] in multiset(b) && b[0] in multiset(a);
    LessTrichotomy(a[0], b[0]);
  }

  lemma TailMultiset(a: seq<string>)
    requires a != []
    ensures multiset(a[1..]) == multiset(a) - multiset{a[0]}
  {
    assert a == [a[0]] + a[1..];
  }

  /** A sorted list is determined by its elements with their multiplicities. */
  lemma {:induction false} SortedUnique(a: seq<string>, b: seq<string>)
    requires Sorted(a) && Sorted(b)
    requires multiset(a) == multiset(b)
    ensures a == b
  {
    assert |multiset(a)| == |a| && |multiset(b)| == |b|;
    if a != [] {
      SameHead(a, b);
      TailMultiset(a);
      TailMultiset(b);
      SortedUnique(a[1..], b[1..]);
      assert a == [a[0]] + a[1..] && b == [b[0]] + b[1..];
    }
  }

  /** A strictly increasing enumeration of a set: the canonical form in which
      recipient and leaf sets are stored, hashed and visited. */
  ghost predicate Enumerates(s: seq<string>, elements: set<string>) {
    Sorted(s) && Distinct(s) && Elements(s) == elements
  }

  lemma EnumerationUnique(a: seq<string>, b: seq<string>, elements: set<string>)
    requires Enumerates(a, elements) && Enumerates(b, elements)
    ensures a == b
  {
    DistinctMultiset(a);
    DistinctMultiset(b);
    SortedUnique(a, b);
  }

  lemma {:induction false} DistinctMultiset<T>(s: seq<T>)
    requires Distinct(s)
    ensures multiset(s) == multiset(Elements(s))
  {
    if s != [] {
      var rest := s[..|s| - 1];
      DistinctMultiset(rest);
      assert s == rest + [s[|s| - 1]];
      assert Elements(s) == Elements(rest) + {s[|s| - 1]};
    }
  }

  /** Collecting a Go map's keys in any order and sorting them. */
  method SortedKeys(keys: set<string>) returns (r: seq<string>)
    ensures Enumerates(r, keys)
  {
    r := [];
    var rest := keys;
    while rest != {}
      invariant rest <= keys
      invariant Distinct(r) && Elements(r) == keys - rest
      decreases rest
    {
      var key :| key in rest;
      ghost var before := r;
      r := r + [key];
      assert key !in before by { assert key in before <==> key in Elements(before); }
      ElementsAppend(before, [key]);
      rest := rest - {key};
    }
    ghost var collected := r;
    r := SortStrings(r);
    SortStringsSorts(collected);
    DistinctMultiset(collected);
    MultisetDistinct(r, keys);
  }

  lemma MultisetDistinct(s: seq<string>, elements: set<string>)
    requires multiset(s) == multiset(elements)
    ensures Distinct(s)
  {
    forall i, j | 0 <= i < j < |s| ensures s[i] != s[j] {
      assert s == s[..j] + [s[j]] + s[j + 1..];
      assert s[i] in multiset(s[..j]);
      assert multiset(elements)[s[j]] <= 1;
    }
  }
}
