/** The length-framed transcripts under every SHA-256 digest of the outbound
    policy code: an 8-byte big-endian length in front of each value. */
module Framing {
  import opened Prelude

  const TWO_64: nat := 0x1_0000_0000_0000_0000

  /** The low `width` bytes of `n`, most significant first
      (`binary.BigEndian.PutUint64` for width 8). */
  function BigEndian(n: nat, width: nat): (r: string)
    ensures |r| == width
  {
    if width == 0 then "" else BigEndian(n / 256, width - 1) + [(n % 256) as char]
  }

  function FromBigEndian(s: string): nat {
    if s == "" then 0 else 256 * FromBigEndian(s[..|s| - 1]) + s[|s| - 1] as nat
  }

  function Pow256(width: nat): (p: nat)
    ensures p > 0
  {
    if width == 0 then 1 else 256 * Pow256(width - 1)
  }

  lemma {:induction false} BigEndianRoundTrip(n: nat, width: nat)
    requires n < Pow256(width)
    ensures FromBigEndian(BigEndian(n, width)) == n
  {
    if width > 0 {
      var r := BigEndian(n, width);
      assert r[..|r| - 1] == BigEndian(n / 256, width - 1);
      BigEndianRoundTrip(n / 256, width - 1);
    }
  }

  lemma Pow256Of8()
    ensures Pow256(8) == TWO_64
  {}

  function FrameOne(value: string): string {
    BigEndian(|value|, 8) + value
  }

  /** The bytes written to the hash for an ordered list of values. */
  function Frame(values: seq<string>): string {
    if values == [] then "" else FrameOne(values[0]) + Frame(values[1..])
  }

  /** Reads a transcript back; fails on a truncated one. */
  function Unframe(s: string): Option<seq<string>>
    decreases |s|
  {
    if s == "" then Some([])
    else if |s| < 8 then None
    else
      var size := FromBigEndian(s[..8]);
      if |s| < 8 + size then None
      else match Unframe(s[8 + size..])
        case None => None
        case Some(rest) => Some([s[8..8 + size]] + rest)
  }

  /** Go string lengths always fit the 8-byte length field. */
  ghost predicate Framable(values: seq<string>) {
    forall v | v in values :: |v| < TWO_64
  }

  /** The framing loses nothing: a transcript decodes to exactly the list it was
      written from. */
  lemma {:induction false} FrameRoundTrip(values: seq<string>)
    requires Framable(values)
    ensures Unframe(Frame(values)) == Some(values)
  {
    if values != [] {
      var v := values[0];
      Pow256Of8();
      BigEndianRoundTrip(|v|, 8);
      FrameRoundTrip(values[1..]);
      var s := Frame(values);
      assert s == BigEndian(|v|, 8) + v + Frame(values[1..]);
      assert s[..8] == BigEndian(|v|, 8);
      assert s[8..8 + |v|] == v;
      assert s[8 + |v|..] == Frame(values[1..]);
      assert [v] + values[1..] == values;
    }
  }

  /** A hash without a collision among the given transcripts. */
  ghost predicate CollisionFree(hash: string -> string, transcripts: set<string>) {
    forall a, b | a in transcripts && b in transcripts && hash(a) == hash(b) :: a == b
  }

  /** Equal digests mean equal value lists. */
  lemma DigestInjective(hash: string -> string, a: seq<string>, b: seq<string>)
    requires Framable(a) && Framable(b)
    requires CollisionFree(hash, {Frame(a), Frame(b)})
    requires hash(Frame(a)) == hash(Frame(b))
    ensures a == b
  {
    FrameRoundTrip(a);
    FrameRoundTrip(b);
  }

  lemma {:induction false} FrameAppend(a: seq<string>, b: seq<string>)
    ensures Frame(a + b) == Frame(a) + Frame(b)
  {
    if a == [] {
      assert a + b == b;
    } else {
      assert (a + b)[1..] == a[1..] + b;
      FrameAppend(a[1..], b);
    }
  }

  /** digestStrings: streams each value's length and bytes into the hash. */
  method DigestStrings(hash: string -> string, values: seq<string>) returns (digest: string)
    ensures digest == hash(Frame(values))
  {
    var written := "";
    for i := 0 to |values|
      invariant written == Frame(values[..i])
    {
      written := written + FrameOne(values[i]);
      assert values[..i + 1] == values[..i] + [values[i]];
      FrameAppend(values[..i], [values[i]]);
    }
    assert values[..|values|] == values;
    digest := hash(written);
  }

  /** Three fields joined by NUL bytes. */
  function NulJoin(a: string, b: string, c: string): string {
    a + "\0" + b + "\0" + c
  }

  ghost predicate NulFree(s: string) {
    '\0' !in s
  }

  lemma NulSplit(a: string, b: string, x: string, y: string)
    requires NulFree(a) && NulFree(b)
    requires a + "\0" + x == b + "\0" + y
    ensures a == b && x == y
  {
    var s := a + "\0" + x;
    var t := b + "\0" + y;
    assert s[|a|] == '\0' && t[|b|] == '\0';
    assert forall i | 0 <= i < |a| :: s[i] != '\0';
    assert forall i | 0 <= i < |b| :: t[i] != '\0';
    assert a == s[..|a|] && b == t[..|b|];
    assert x == s[|a| + 1..] && y == t[|b| + 1..];
  }

  lemma NulJoinInjective(a: string, b: string, c: string, a': string, b': string, c': string)
    requires NulFree(a) && NulFree(b) && NulFree(a') && NulFree(b')
    requires NulJoin(a, b, c) == NulJoin(a', b', c')
    ensures a == a' && b == b' && c == c'
  {
    assert NulJoin(a, b, c) == a + "\0" + (b + "\0" + c);
    assert NulJoin(a', b', c') == a' + "\0" + (b' + "\0" + c');
    NulSplit(a, a', b + "\0" + c, b' + "\0" + c');
    NulSplit(b, b', c, c');
  }

  /** `strconv.FormatUint(n, 10)`. */
  function Decimal(n: nat): (r: string) {
    if n < 10 then [(48 + n) as char] else Decimal(n / 10) + [(48 + n % 10) as char]
  }

  lemma {:induction false} DecimalInjective(m: nat, n: nat)
    requires Decimal(m) == Decimal(n)
    ensures m == n
    decreases m + n
  {
    var a, b := Decimal(m), Decimal(n);
    DecimalNonEmpty(m / 10);
    DecimalNonEmpty(n / 10);
    assert a[|a| - 1] == b[|b| - 1];
    if m >= 10 && n >= 10 {
      assert a[..|a| - 1] == Decimal(m / 10) && b[..|b| - 1] == Decimal(n / 10);
      DecimalInjective(m / 10, n / 10);
    }
  }

  lemma DecimalNonEmpty(n: nat)
    ensures |Decimal(n)| >= 1
  {}
}
