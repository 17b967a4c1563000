/** Byte strings, identifiers and instants, shared by every component. */
module Basics {

  datatype Option<+T> = None | Some(value: T)

  type Byte = b: int | 0 <= b < 256
  type Bytes = seq<Byte>

  type Bytes16 = b: Bytes | |b| == 16 witness [0, 0, 0, 0, 0, 0, 0, 0, 0, 0, 0, 0, 0, 0, 0, 0]

  /** A 16-byte identifier (google/uuid). */
  datatype Uuid = Uuid(bytes: Bytes16)

  /** uuid.Nil */
  const NIL := Uuid([0, 0, 0, 0, 0, 0, 0, 0, 0, 0, 0, 0, 0, 0, 0, 0])

  /** Nanoseconds since the Unix epoch. */
  type Instant = int

  const HOUR := 3_600_000_000_000
  const DAY := 24 * HOUR

  /** The zero time.Time, the first instant of year 1. It stands for "unknown". */
  const ZERO_TIME: Instant := -62_135_596_800_000_000_000

  const MAX_INT64 := 0x7FFF_FFFF_FFFF_FFFF
  const MIN_INT64 := -0x8000_0000_0000_0000

  /** Time.Sub: the difference, saturated to the range of a 64-bit Duration. */
  function Sub(a: Instant, b: Instant): int {
    if a - b > MAX_INT64 then MAX_INT64
    else if a - b < MIN_INT64 then MIN_INT64
    else a - b
  }

  /** The order of strings.Compare and bytes.Compare. */
  predicate LexLess(a: Bytes, b: Bytes) {
    b != [] && (a == [] || a[0] < b[0] || (a[0] == b[0] && LexLess(a[1..], b[1..])))
  }

  lemma {:induction false} LexTotal(a: Bytes, b: Bytes)
    ensures LexLess(a, b) || a == b || LexLess(b, a)
    ensures !(LexLess(a, b) && LexLess(b, a))
    ensures a == b ==> !LexLess(a, b)
  {
    if a != [] && b != [] && a[0] == b[0] {
      LexTotal(a[1..], b[1..]);
      assert a == [a[0]] + a[1..] && b == [b[0]] + b[1..];
    }
  }

  lemma {:induction false} LexTransitive(a: Bytes, b: Bytes, c: Bytes)
    requires LexLess(a, b) && LexLess(b, c)
    ensures LexLess(a, c)
  {
    if a != [] && a[0] == b[0] == c[0] {
      LexTransitive(a[1..], b[1..], c[1..]);
    }
  }

  /** The closed form: at the first position where they differ, a has ended or has the smaller byte. */
  lemma {:induction false} LexLessAtDifference(a: Bytes, b: Bytes)
    ensures LexLess(a, b)
       <==> exists i :: 0 <= i < |b| && i <= |a| && a[..i] == b[..i] && (i == |a| || a[i] < b[i])
  {
    if a != [] && b != [] && a[0] == b[0] {
      LexLessAtDifference(a[1..], b[1..]);
      if i :| 0 <= i < |b[1..]| && i <= |a[1..]| && a[1..][..i] == b[1..][..i] && (i == |a[1..]| || a[1..][i] < b[1..][i]) {
        assert a[..i + 1] == [a[0]] + a[1..][..i] == b[..i + 1];
        assert i + 1 == |a| || a[i + 1] < b[i + 1];
      }
      if i :| 0 <= i < |b| && i <= |a| && a[..i] == b[..i] && (i == |a| || a[i] < b[i]) {
        assert i > 0;
        assert a[1..][..i - 1] == a[..i][1..] == b[..i][1..] == b[1..][..i - 1];
        assert i - 1 == |a[1..]| || a[1..][i - 1] < b[1..][i - 1];
      }
    } else if LexLess(a, b) {
      assert a[..0] == b[..0];
    }
  }

  /** A string comes before everything it begins. */
  lemma LexLessExtension(a: Bytes, x: Bytes)
    ensures LexLess(a, a + x) <==> x != []
  {
    LexTotal(a, a);
    LexConcat(a, a, [], x);
    assert a + [] == a;
  }

  /** Strings whose heads have equal length compare by head, then by tail. */
  lemma {:induction false} LexConcat(a: Bytes, b: Bytes, x: Bytes, y: Bytes)
    requires |a| == |b|
    ensures LexLess(a + x, b + y) <==> LexLess(a, b) || (a == b && LexLess(x, y))
  {
    if a == [] {
      assert a + x == x && b + y == y;
    } else {
      LexConcat(a[1..], b[1..], x, y);
      assert (a + x)[1..] == a[1..] + x && (b + y)[1..] == b[1..] + y;
      assert a == [a[0]] + a[1..] && b == [b[0]] + b[1..];
    }
  }

  // ----- sequences -----

  lemma AppendNext<X>(a: seq<X>, b: seq<X>, j: nat)
    requires j < |b|
    ensures a + b[..j] + [b[j]] == a + b[..j + 1]
  {
  }

  lemma TakeNext<X>(s: seq<X>, n: nat)
    requires n < |s|
    ensures s[..n + 1] == s[..n] + [s[n]]
  {
  }

  lemma SplitAt<X>(s: seq<X>, p: nat)
    requires p < |s|
    ensures s == s[..p + 1] + s[p + 1..]
    ensures s[..p + 1][..p] == s[..p] && s[..p + 1][p] == s[p]
  {
  }

  lemma SliceOfAppend<X>(s: seq<X>, x: X, i: nat, k: nat)
    requires i <= k <= |s|
    ensures (s + [x])[i..k] == s[i..k]
    ensures (s + [x])[i..] == s[i..] + [x]
  {
  }
}
