/** Byte strings and their order, as the database sorts its keys. */
module Bytes {
  type byte = x: int | 0 <= x < 256
  type Key = seq<byte>
  /** A 64-bit number as the eight bytes it has in memory. */
  type Word = w: Key | |w| == 8 witness [0, 0, 0, 0, 0, 0, 0, 0]

  /** Bytewise lexicographic: what is a prefix comes first. */
  predicate Less(a: Key, b: Key) {
    b != [] && (a == [] || a[0] < b[0] || (a[0] == b[0] && Less(a[1..], b[1..])))
  }

  lemma {:induction false} LessOnce(a: Key, b: Key)
    ensures !(Less(a, b) && Less(b, a)) && (Less(a, b) || Less(b, a) || a == b) && !Less(a, a)
  {
    if a != [] && b != [] {
      LessOnce(a[1..], b[1..]);
      assert a == [a[0]] + a[1..] && b == [b[0]] + b[1..];
    }
    if a != [] {
      NotLessSelf(a);
    }
  }

  lemma {:induction false} NotLessSelf(a: Key)
    ensures !Less(a, a)
  {
    if a != [] {
      NotLessSelf(a[1..]);
    }
  }

  lemma {:induction false} LessTransitive(a: Key, b: Key, c: Key)
    requires Less(a, b) && Less(b, c)
    ensures Less(a, c)
  {
    if a != [] && a[0] == b[0] == c[0] {
      LessTransitive(a[1..], b[1..], c[1..]);
    }
  }

  lemma {:induction false} LessAfterPrefix(p: Key, a: Key, b: Key)
    ensures Less(p + a, p + b) <==> Less(a, b)
  {
    if p == [] {
      assert p + a == a && p + b == b;
    } else {
      assert (p + a)[1..] == p[1..] + a && (p + b)[1..] == p[1..] + b;
      LessAfterPrefix(p[1..], a, b);
    }
  }

  /** Pieces of equal length that differ decide, whatever follows them. */
  lemma {:induction false} LessByFirst(a: Key, x: Key, b: Key, y: Key)
    requires |a| == |b| && a != b
    ensures Less(a + x, b + y) <==> Less(a, b)
  {
    if a[0] == b[0] {
      assert (a + x)[1..] == a[1..] + x && (b + y)[1..] == b[1..] + y;
      assert a == [a[0]] + a[1..] && b == [b[0]] + b[1..];
      LessByFirst(a[1..], x, b[1..], y);
    }
  }

  /** What lies between two strings with a common prefix has that prefix. */
  lemma {:induction false} Between(p: Key, a: Key, k: Key, b: Key)
    requires Less(p + a, k) && Less(k, p + b)
    ensures p <= k
  {
    if p != [] {
      AfterFirst(p, a);
      AfterFirst(p, b);
      Between(p[1..], a, k[1..], b);
      PrefixByFirst(p, k);
    }
  }

  lemma AfterFirst(p: Key, a: Key)
    requires p != []
    ensures p + a != [] && (p + a)[0] == p[0] && (p + a)[1..] == p[1..] + a
  {}

  lemma PrefixByFirst(p: Key, k: Key)
    requires p != [] && k != [] && p[0] == k[0] && p[1..] <= k[1..]
    ensures p <= k
  {
    assert k == [k[0]] + k[1..] && p == [p[0]] + p[1..];
  }

  lemma {:induction false} ZerosLeast(n: nat, k: Key)
    requires |k| == n
    ensures !Less(k, seq(n, i => 0))
  {
    if n > 0 {
      assert seq(n, i => 0 as byte)[1..] == seq(n - 1, i => 0 as byte);
      ZerosLeast(n - 1, k[1..]);
    }
  }

  lemma {:induction false} OnesGreatest(n: nat, k: Key)
    requires |k| == n
    ensures !Less(seq(n, i => 255), k)
  {
    if n > 0 {
      assert seq(n, i => 255 as byte)[1..] == seq(n - 1, i => 255 as byte);
      OnesGreatest(n - 1, k[1..]);
    }
  }
}
