/** Codes that two parties compute from the same two byte strings in either order. */
module AuthCode {
  import opened Integers
  import Buffers

  type Byte = b: int | 0 <= b < 256

  type Digest = seq<Byte> -> seq<Byte>

  // ---- Comparing ----

  /** memcmp over the first n bytes: the sign of the first difference. */
  function Memcmp(a: seq<Byte>, b: seq<Byte>, n: nat): int
    requires n <= |a| && n <= |b|
  {
    if n == 0 then 0
    else
      var earlier := Memcmp(a, b, n - 1);
      if earlier != 0 then earlier else if a[n - 1] < b[n - 1] then -1 else if a[n - 1] > b[n - 1] then 1 else 0
  }

  method CompareBytes(a: seq<Byte>, b: seq<Byte>, n: nat) returns (cmp: int)
    requires n <= |a| && n <= |b|
    ensures cmp == Memcmp(a, b, n)
  {
    cmp := 0;
    var i := 0;
    while i < n
      invariant 0 <= i <= n && cmp == 0 == Memcmp(a, b, i)
    {
      if a[i] != b[i] {
        cmp := if a[i] < b[i] then -1 else 1;
        FirstDifferenceDecides(a, b, i + 1, n);
        return;
      }
      i := i + 1;
    }
  }

  lemma {:induction false} FirstDifferenceDecides(a: seq<Byte>, b: seq<Byte>, i: nat, n: nat)
    requires i <= n <= |a| && n <= |b| && Memcmp(a, b, i) != 0
    ensures Memcmp(a, b, n) == Memcmp(a, b, i)
    decreases n
  {
    if i < n {
      FirstDifferenceDecides(a, b, i, n - 1);
    }
  }

  /** The difference of two 64-bit lengths, cut to a C++ int. */
  function LengthDifference(m: nat, n: nat): int {
    var d := (m - n) % TWO_32;
    if d < TWO_31 then d else d - TWO_32
  }

  function Min(m: nat, n: nat): nat {
    if m < n then m else n
  }

  function Compare(a: seq<Byte>, b: seq<Byte>): int {
    var cmp := Memcmp(a, b, Min(|a|, |b|));
    if cmp == 0 then LengthDifference(|a|, |b|) else cmp
  }

  /** The buffer that is hashed: the two strings, the lesser first. */
  function Ordered(a: seq<Byte>, b: seq<Byte>): seq<Byte> {
    if Compare(a, b) <= 0 then a + b else b + a
  }

  method Concatenated(first: seq<Byte>, second: seq<Byte>) returns (buffer: array<Byte>)
    ensures fresh(buffer) && buffer[..] == first + second
  {
    buffer := new Byte[|first| + |second|];
    Buffers.Copy(buffer, 0, first);
    Buffers.Copy(buffer, |first|, second);
  }

  method ConcatOrdered(a: seq<Byte>, b: seq<Byte>, sha256: Digest) returns (code: seq<Byte>)
    ensures code == sha256(Ordered(a, b))
    ensures Precedes(a, b) ==> code == sha256(a + b)
    ensures Precedes(b, a) ==> code == sha256(b + a)
  {
    LesserFirst(a, b);
    LesserFirst(b, a);
    var cmp := CompareBytes(a, b, Min(|a|, |b|));
    if cmp == 0 {
      cmp := LengthDifference(|a|, |b|);
    }
    var first := if cmp <= 0 then a else b;
    var second := if cmp <= 0 then b else a;
    var concatenated := Concatenated(first, second);
    code := sha256(concatenated[..]);
  }

  // ---- The lesser first ----

  /** At the first byte where the two differ, a has the lesser one; or a begins b, which is less than 2 GB longer. */
  ghost predicate Precedes(a: seq<Byte>, b: seq<Byte>) {
    || (exists k | 0 <= k < |a| && k < |b| :: a[..k] == b[..k] && a[k] < b[k])
    || (a <= b && |b| - |a| < 0x8000_0000)
  }

  /** Then both argument orders hash a followed by b. */
  lemma LesserFirst(a: seq<Byte>, b: seq<Byte>)
    ensures Precedes(a, b) ==> Ordered(a, b) == Ordered(b, a) == a + b
  {
    if k :| 0 <= k < |a| && k < |b| && a[..k] == b[..k] && a[k] < b[k] {
      FirstByteDecides(a, b, k);
    } else if a <= b {
      PrefixOrder(a, b);
      assert |a| == |b| ==> a == b;
    }
  }

  lemma FirstByteDecides(a: seq<Byte>, b: seq<Byte>, k: nat)
    requires k < |a| && k < |b| && a[..k] == b[..k] && a[k] < b[k]
    ensures Ordered(a, b) == Ordered(b, a) == a + b
  {
    var n := Min(|a|, |b|);
    MemcmpFlips(a, b, k);
    assert Memcmp(a, b, k + 1) == -1;
    FirstDifferenceDecides(a, b, k + 1, n);
    MemcmpFlips(a, b, n);
  }

  /** Where one begins the other, what remains of the difference of the lengths in an int decides. */
  lemma PrefixOrder(a: seq<Byte>, b: seq<Byte>)
    requires a <= b
    ensures var r := (|b| - |a|) % 0x1_0000_0000;
      && Ordered(a, b) == (if r <= 0x8000_0000 then a + b else b + a)
      && Ordered(b, a) == (if r == 0 || 0x8000_0000 <= r then b + a else a + b)
  {
    MemcmpFlips(a, b, |a|);
    assert a[..|a|] == b[..|a|];
    LengthSign(|a|, |b|);
    hide LengthDifference, Memcmp;
  }

  lemma LengthSign(m: nat, n: nat)
    requires m <= n
    ensures var r := (n - m) % 0x1_0000_0000;
      && (LengthDifference(m, n) <= 0 <==> r <= 0x8000_0000)
      && (LengthDifference(n, m) <= 0 <==> r == 0 || 0x8000_0000 <= r)
  {
    NegatedRemainder(n - m);
    assert m - n == -(n - m);
  }

  // ---- The order of the arguments ----

  lemma {:induction false} MemcmpFlips(a: seq<Byte>, b: seq<Byte>, n: nat)
    requires n <= |a| && n <= |b|
    ensures Memcmp(b, a, n) == -Memcmp(a, b, n)
    ensures Memcmp(a, b, n) == 0 <==> a[..n] == b[..n]
  {
    if n > 0 {
      MemcmpFlips(a, b, n - 1);
      assert a[..n] == a[..n - 1] + [a[n - 1]] && b[..n] == b[..n - 1] + [b[n - 1]];
      assert a[..n] == b[..n] ==> a[..n][..n - 1] == b[..n][..n - 1] && a[..n][n - 1] == b[..n][n - 1];
    }
  }

  /** One string begins the other, and the difference of their lengths is lost, or loses its sign, in an int. */
  predicate Truncates(a: seq<Byte>, b: seq<Byte>) {
    (a < b || b < a) && (|a| - |b|) % TWO_31 == 0
  }

  lemma LengthDifferenceFlips(m: nat, n: nat)
    ensures (LengthDifference(m, n) <= 0 <==> LengthDifference(n, m) <= 0) <==> (m - n) % TWO_31 == 0
  {
    NegatedRemainder(m - n);
    HalvedRemainder(m - n);
    assert n - m == -(m - n);
  }

  lemma NegatedRemainder(d: int)
    ensures -d % TWO_32 == if d % TWO_32 == 0 then 0 else TWO_32 - d % TWO_32
  {
    var q, r := d / 0x1_0000_0000, d % 0x1_0000_0000;
    if r == 0 {
      Remainder(-d, -q, 0);
    } else {
      Remainder(-d, -q - 1, 0x1_0000_0000 - r);
    }
  }

  lemma Remainder(d: int, q: int, r: int)
    requires d == 0x1_0000_0000 * q + r && 0 <= r < 0x1_0000_0000
    ensures d % 0x1_0000_0000 == r
  {
  }

  lemma HalvedRemainder(d: int)
    ensures d % TWO_31 == if d % TWO_32 < TWO_31 then d % TWO_32 else d % TWO_32 - TWO_31
  {
    assert d == TWO_32 * (d / TWO_32) + d % TWO_32;
  }

  /** Both parties hash the same buffer exactly when no truncation interferes, or the strings commute anyway. */
  lemma SameBufferExactly(a: seq<Byte>, b: seq<Byte>)
    ensures Ordered(a, b) == Ordered(b, a) <==> !Truncates(a, b) || a + b == b + a
  {
    var n := Min(|a|, |b|);
    MemcmpFlips(a, b, n);
    LengthDifferenceFlips(|a|, |b|);
    if Memcmp(a, b, n) == 0 {
      assert |a| <= |b| ==> a == b[..|a|];
      assert |b| <= |a| ==> b == a[..|b|];
      if |a| == |b| {
        assert a == b;
      }
    }
  }

  /** In particular for all strings shorter than 2 GB. */
  lemma ShortStringsSameBuffer(a: seq<Byte>, b: seq<Byte>)
    requires |a| < TWO_31 && |b| < TWO_31
    ensures Ordered(a, b) == Ordered(b, a)
  {
    SameBufferExactly(a, b);
  }

  /** Two strings for which the parties hash different buffers. */
  lemma OrderMatters()
    ensures exists a: seq<Byte>, b: seq<Byte> :: Ordered(a, b) != Ordered(b, a)
  {
    var a: seq<Byte> := [1];
    var b: seq<Byte> := [1] + seq(TWO_31, _ => 0);
    assert (a + b)[1] == 1 && (b + a)[1] == 0;
    assert a < b;
    SameBufferExactly(a, b);
  }

  // ---- What the buffer determines ----

  /** For strings of one length, the buffer determines the unordered pair. */
  lemma BufferDeterminesPair(a: seq<Byte>, b: seq<Byte>, c: seq<Byte>, d: seq<Byte>)
    requires |a| == |b| == |c| == |d|
    ensures Ordered(a, b) == Ordered(c, d) <==> multiset{a, b} == multiset{c, d}
  {
    var n := |a|;
    MemcmpFlips(a, b, n);
    MemcmpFlips(c, d, n);
    EqualLengthSame(a, b);
    if Ordered(a, b) == Ordered(c, d) {
      SplitEvenly(a, b, c, d);
    }
    if multiset{a, b} == multiset{c, d} {
      SamePair(a, b, c, d);
    }
  }

  lemma SamePair<T>(a: T, b: T, c: T, d: T)
    requires multiset{a, b} == multiset{c, d}
    ensures (a == c && b == d) || (a == d && b == c)
  {
    assert multiset{a, b}[a] == multiset{c, d}[a] && multiset{a, b}[b] == multiset{c, d}[b];
  }

  lemma EqualLengthSame(a: seq<Byte>, b: seq<Byte>)
    requires |a| == |b|
    ensures Ordered(a, b) == Ordered(b, a)
  {
    SameBufferExactly(a, b);
  }

  lemma SplitEvenly(a: seq<Byte>, b: seq<Byte>, c: seq<Byte>, d: seq<Byte>)
    requires |a| == |b| == |c| == |d| && Ordered(a, b) == Ordered(c, d)
    ensures multiset{a, b} == multiset{c, d}
  {
    var x, y := if Compare(a, b) <= 0 then a else b, if Compare(a, b) <= 0 then b else a;
    var z, w := if Compare(c, d) <= 0 then c else d, if Compare(c, d) <= 0 then d else c;
    assert x == (x + y)[..|a|] == (z + w)[..|a|] == z;
    assert y == (x + y)[|a|..] == (z + w)[|a|..] == w;
    assert multiset{a, b} == multiset{x, y} && multiset{c, d} == multiset{z, w};
  }

  /** For strings of different lengths it does not. */
  lemma LengthsMatter()
    ensures exists a: seq<Byte>, b: seq<Byte>, c: seq<Byte>, d: seq<Byte> ::
      Ordered(a, b) == Ordered(c, d) && multiset{a, b} != multiset{c, d}
  {
    var a: seq<Byte>, b: seq<Byte>, c: seq<Byte>, d: seq<Byte> := [1], [2, 3], [1, 2], [3];
    assert Memcmp(a, b, 1) == -1 && Memcmp(c, d, 1) == -1;
    assert a + b == c + d;
    assert a in multiset{a, b} && a !in multiset{c, d};
    assert Ordered(a, b) == Ordered(c, d) && multiset{a, b} != multiset{c, d};
  }

  // ---- The identifier of a pair of names ----

  function UniqueIdPair(one: seq<Byte>, two: seq<Byte>, sha256: Digest): seq<Byte> {
    sha256(Ordered(sha256(one), sha256(two)))
  }

  method GenerateUniqueIdPair(one: seq<Byte>, two: seq<Byte>, sha256: Digest) returns (id: seq<Byte>)
    requires forall s :: |sha256(s)| == 32
    ensures id == UniqueIdPair(one, two, sha256)
    ensures forall k | 0 <= k < 32 && sha256(one)[..k] == sha256(two)[..k] && sha256(one)[k] < sha256(two)[k] ::
      id == sha256(sha256(one) + sha256(two))
    ensures forall k | 0 <= k < 32 && sha256(one)[..k] == sha256(two)[..k] && sha256(one)[k] > sha256(two)[k] ::
      id == sha256(sha256(two) + sha256(one))
  {
    forall k | 0 <= k < 32 && sha256(one)[..k] == sha256(two)[..k] && sha256(one)[k] != sha256(two)[k]
      ensures Ordered(sha256(one), sha256(two))
           == if sha256(one)[k] < sha256(two)[k] then sha256(one) + sha256(two) else sha256(two) + sha256(one)
    {
      if sha256(one)[k] < sha256(two)[k] {
        FirstByteDecides(sha256(one), sha256(two), k);
      } else {
        FirstByteDecides(sha256(two), sha256(one), k);
      }
    }
    var hashedOne, hashedTwo := sha256(one), sha256(two);
    var cmp := CompareBytes(hashedOne, hashedTwo, 32);
    var concatenated: array<Byte>;
    if cmp <= 0 {
      concatenated := Concatenated(hashedOne, hashedTwo);
    } else {
      concatenated := Concatenated(hashedTwo, hashedOne);
    }
    id := sha256(concatenated[..]);
  }

  /** The identifier does not depend on the order of the names, and two pairs of names share what is hashed last exactly
      when their digests are the same pair. */
  lemma UniqueIdIsOfThePair(one: seq<Byte>, two: seq<Byte>, three: seq<Byte>, four: seq<Byte>, sha256: Digest)
    requires forall s :: |sha256(s)| == 32
    ensures UniqueIdPair(one, two, sha256) == UniqueIdPair(two, one, sha256)
    ensures Ordered(sha256(one), sha256(two)) == Ordered(sha256(three), sha256(four)) <==>
      multiset{sha256(one), sha256(two)} == multiset{sha256(three), sha256(four)}
  {
    EqualLengthSame(sha256(one), sha256(two));
    BufferDeterminesPair(sha256(one), sha256(two), sha256(three), sha256(four));
  }
}
