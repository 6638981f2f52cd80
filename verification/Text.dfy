/** Strings as Redis and .NET order them.  A Dafny `char` is a Unicode scalar value, so a
    `string` is a well-formed string; Redis sees its UTF-8 bytes, and .NET's ordinal
    comparison sees its UTF-16 code units. */
module Text {
  import opened Bits

  type Bytes = seq<Byte>

  // ---- lexicographic order --------------------------------------------------------------

  /** Element-wise order with a proper prefix first: `memcmp`, then length. */
  predicate LexLeq(a: seq<int>, b: seq<int>) {
    a == [] || (b != [] && (a[0] < b[0] || (a[0] == b[0] && LexLeq(a[1..], b[1..]))))
  }

  /** `a` has the smaller element where the two first differ. */
  ghost predicate SmallerAt(a: seq<int>, b: seq<int>, i: nat) { i < |a| && i < |b| && a[..i] == b[..i] && a[i] < b[i] }

  lemma {:induction false} LexMeaning(a: seq<int>, b: seq<int>)
    ensures LexLeq(a, b) <==> a <= b || exists i: nat :: SmallerAt(a, b, i)
  {
    if a != [] && b != [] {
      LexMeaning(a[1..], b[1..]);
      assert a == [a[0]] + a[1..] && b == [b[0]] + b[1..];
      if a[0] < b[0] {
        assert SmallerAt(a, b, 0);
      }
      if a[0] == b[0] && exists i: nat :: SmallerAt(a[1..], b[1..], i) {
        var i: nat :| SmallerAt(a[1..], b[1..], i);
        assert a[..i + 1] == [a[0]] + a[1..][..i] && b[..i + 1] == [b[0]] + b[1..][..i];
        assert SmallerAt(a, b, i + 1);
      }
      if i: nat :| SmallerAt(a, b, i) {
        if i > 0 {
          assert a[..i][0] == b[..i][0];
          assert a[1..][..i - 1] == a[..i][1..] && b[1..][..i - 1] == b[..i][1..];
          assert SmallerAt(a[1..], b[1..], i - 1);
        }
      }
    }
  }

  lemma {:induction false} LexTotal(a: seq<int>, b: seq<int>)
    ensures LexLeq(a, b) || LexLeq(b, a)
  {
    if a != [] && b != [] {
      LexTotal(a[1..], b[1..]);
    }
  }

  lemma {:induction false} LexAntisymmetric(a: seq<int>, b: seq<int>)
    requires LexLeq(a, b) && LexLeq(b, a)
    ensures a == b
  {
    if a != [] {
      LexAntisymmetric(a[1..], b[1..]);
      assert a == [a[0]] + a[1..] && b == [b[0]] + b[1..];
    }
  }

  lemma {:induction false} LexTransitive(a: seq<int>, b: seq<int>, c: seq<int>)
    requires LexLeq(a, b) && LexLeq(b, c)
    ensures LexLeq(a, c)
  {
    if a != [] && a[0] == b[0] == c[0] {
      LexTransitive(a[1..], b[1..], c[1..]);
    }
  }

  /** Between a prefix and that prefix followed by 0xFF lie exactly its extensions, among
      strings that contain no 0xFF. */
  lemma {:induction false} PrefixRange(prefix: Bytes, s: Bytes)
    requires 0xFF !in s
    ensures LexLeq(prefix, s) && LexLeq(s, prefix + [0xFF]) <==> prefix <= s
  {
    if prefix == [] {
      assert s == [] || s[0] in s;
    } else if s != [] {
      assert forall x :: x in s[1..] ==> x in s;
      PrefixRange(prefix[1..], s[1..]);
      assert (prefix + [0xFF])[1..] == prefix[1..] + [0xFF];
      assert prefix <= s <==> prefix[0] == s[0] && prefix[1..] <= s[1..] by {
        assert prefix == [prefix[0]] + prefix[1..];
        assert s == [s[0]] + s[1..];
      }
    }
  }

  // ---- UTF-8 (section 3 of RFC 3629) ----------------------------------------------------

  function Utf8Char(c: char): (r: Bytes)
    ensures |r| == if c as int < 0x80 then 1 else if c as int < 0x800 then 2 else if c as int < 0x1_0000 then 3 else 4
    ensures |r| == 1 ==> r[0] < 0x80
    ensures |r| == 2 ==> 0xC0 <= r[0] < 0xE0
    ensures |r| == 3 ==> 0xE0 <= r[0] < 0xF0
    ensures |r| == 4 ==> 0xF0 <= r[0] < 0xF8
    ensures forall i :: 1 <= i < |r| ==> 0x80 <= r[i] < 0xC0
  {
    var n := c as int;
    if n < 0x80 then [n]
    else if n < 0x800 then [0xC0 + n / 64, 0x80 + n % 64]
    else if n < 0x1_0000 then [0xE0 + n / 4096, 0x80 + n / 64 % 64, 0x80 + n % 64]
    else [0xF0 + n / 262144, 0x80 + n / 4096 % 64, 0x80 + n / 64 % 64, 0x80 + n % 64]
  }

  function Utf8(s: string): Bytes {
    if s == "" then [] else Utf8Char(s[0]) + Utf8(s[1..])
  }

  predicate IsContinuation(b: Byte) { 0x80 <= b < 0xC0 }

  lemma {:induction false} NoFF(s: string)
    ensures 0xFF !in Utf8(s)
  {
    if s != "" {
      NoFF(s[1..]);
    }
  }

  /** The scalar a well-formed group of bytes stands for. */
  function ScalarOf(b: seq<int>): int {
    if |b| == 1 then b[0]
    else if |b| == 2 then (b[0] - 0xC0) * 64 + (b[1] - 0x80)
    else if |b| == 3 then (b[0] - 0xE0) * 4096 + (b[1] - 0x80) * 64 + (b[2] - 0x80)
    else if |b| == 4 then
      (b[0] - 0xF0) * 262144 + (b[1] - 0x80) * 4096 + (b[2] - 0x80) * 64 + (b[3] - 0x80)
    else 0
  }

  lemma SixBitDigits(n: nat)
    ensures n == n / 4096 * 4096 + n / 64 % 64 * 64 + n % 64
    ensures n / 4096 == n / 262144 * 64 + n / 4096 % 64
  {
    var h := n / 64;
    assert n == h * 64 + n % 64;
    assert h == h / 64 * 64 + h % 64;
    assert h / 64 == n / 4096;
  }

  lemma DecodeChar(c: char)
    ensures ScalarOf(Utf8Char(c)) == c as int
  {
    SixBitDigits(c as int);
  }

  lemma Utf8CharInjective(c: char, d: char)
    requires Utf8Char(c) == Utf8Char(d)
    ensures c == d
  {
    DecodeChar(c);
    DecodeChar(d);
  }

  /** No encoded scalar is the beginning of a different one. */
  lemma Utf8CharPrefixFree(c: char, x: Bytes, d: char, y: Bytes)
    requires Utf8Char(c) + x <= Utf8Char(d) + y
    ensures c == d && x <= y
  {
    var a, b := Utf8Char(c), Utf8Char(d);
    assert (a + x)[0] == (b + y)[0];
    assert |a| == |b|;
    assert a == (a + x)[..|a|] == (b + y)[..|b|] == b;
    Utf8CharInjective(c, d);
    assert x == (a + x)[|a|..] && y == (b + y)[|b|..];
  }

  lemma {:induction false} Utf8Concat(s: string, t: string)
    ensures Utf8(s + t) == Utf8(s) + Utf8(t)
  {
    if s == "" {
      assert s + t == t;
    } else {
      assert (s + t)[1..] == s[1..] + t;
      Utf8Concat(s[1..], t);
    }
  }

  /** A byte-level prefix of well-formed text is a text-level prefix. */
  lemma {:induction false} Utf8Prefix(q: string, s: string)
    ensures Utf8(q) <= Utf8(s) <==> q <= s
  {
    if q <= s {
      assert s == q + s[|q|..];
      Utf8Concat(q, s[|q|..]);
    }
    if Utf8(q) <= Utf8(s) && q != "" {
      assert s != "";
      Utf8CharPrefixFree(q[0], Utf8(q[1..]), s[0], Utf8(s[1..]));
      Utf8Prefix(q[1..], s[1..]);
      assert q == [q[0]] + q[1..] && s == [s[0]] + s[1..];
    }
  }

  lemma Utf8Injective(s: string, t: string)
    requires Utf8(s) == Utf8(t)
    ensures s == t
  {
    Utf8Prefix(s, t);
    Utf8Prefix(t, s);
  }

  /** A byte that is no continuation byte starts a scalar. */
  lemma {:induction false} Boundary(s: string, k: nat) returns (j: nat)
    requires k < |Utf8(s)| && !IsContinuation(Utf8(s)[k])
    ensures j < |s| && Utf8(s)[k..] == Utf8(s[j..])
    decreases |s|
  {
    var c := Utf8Char(s[0]);
    if k == 0 {
      j := 0;
      assert s[0..] == s;
    } else {
      assert forall i :: 1 <= i < |c| ==> Utf8(s)[i] == c[i];
      var i := Boundary(s[1..], k - |c|);
      j := i + 1;
      assert s[1..][i..] == s[j..];
      assert Utf8(s)[k..] == Utf8(s[1..])[k - |c|..];
    }
  }

  predicate OccursAt<T(==)>(q: seq<T>, s: seq<T>, k: nat) {
    k <= |s| && q <= s[k..]
  }

  ghost predicate Contains<T>(s: seq<T>, q: seq<T>) {
    exists k: nat :: OccursAt(q, s, k)
  }

  /** Byte-level and text-level containment agree. */
  lemma Utf8Contains(s: string, q: string)
    ensures Contains(Utf8(s), Utf8(q)) <==> Contains(s, q)
  {
    if Contains(s, q) {
      var k: nat :| OccursAt(q, s, k);
      assert s == s[..k] + s[k..];
      Utf8Concat(s[..k], s[k..]);
      Utf8Prefix(q, s[k..]);
      assert OccursAt(Utf8(q), Utf8(s), |Utf8(s[..k])|);
    }
    if Contains(Utf8(s), Utf8(q)) {
      var k: nat :| OccursAt(Utf8(q), Utf8(s), k);
      if q == "" {
        assert OccursAt(q, s, 0);
      } else {
        assert Utf8(s)[k] == Utf8(q)[0];
        var j := Boundary(s, k);
        Utf8Prefix(q, s[j..]);
        assert OccursAt(q, s, j);
      }
    }
  }

  // ---- UTF-16 ---------------------------------------------------------------------------

  function Utf16Char(c: char): (r: seq<int>)
    ensures 1 <= |r| <= 2
    ensures |r| == 2 <==> 0xD800 <= r[0] < 0xDC00
  {
    var n := c as int;
    if n < 0x1_0000 then [n]
    else [0xD800 + (n - 0x1_0000) / 1024, 0xDC00 + (n - 0x1_0000) % 1024]
  }

  function Utf16(s: string): seq<int> {
    if s == "" then [] else Utf16Char(s[0]) + Utf16(s[1..])
  }

  /** A surrogate pair stands for its scalar. */
  lemma DecodeUtf16(c: char)
    ensures var r := Utf16Char(c);
      && c as int == (if |r| == 1 then r[0] else 0x1_0000 + (r[0] - 0xD800) * 1024 + (r[1] - 0xDC00))
      && (|r| == 2 ==> 0xDC00 <= r[1] < 0xE000)
  {}

  lemma {:induction false} Utf16Concat(s: string, t: string)
    ensures Utf16(s + t) == Utf16(s) + Utf16(t)
  {
    if s == "" {
      assert s + t == t;
    } else {
      assert (s + t)[1..] == s[1..] + t;
      Utf16Concat(s[1..], t);
    }
  }

  lemma Utf16CharInjective(c: char, d: char)
    requires Utf16Char(c) == Utf16Char(d)
    ensures c == d
  {
    assert Utf16Char(c)[0] == Utf16Char(d)[0];
    if |Utf16Char(c)| == 2 { assert Utf16Char(c)[1] == Utf16Char(d)[1]; }
    assert (c as int) == (d as int);
  }

  lemma {:induction false} Utf16Injective(s: string, t: string)
    requires Utf16(s) == Utf16(t)
    ensures s == t
  {
    if s != "" {
      assert t != "";
      var a, b := Utf16Char(s[0]), Utf16Char(t[0]);
      assert (a + Utf16(s[1..]))[0] == (b + Utf16(t[1..]))[0];
      assert a == Utf16(s)[..|a|] == Utf16(t)[..|b|] == b;
      Utf16CharInjective(s[0], t[0]);
      assert Utf16(s[1..]) == Utf16(s)[|a|..] && Utf16(t[1..]) == Utf16(t)[|b|..];
      Utf16Injective(s[1..], t[1..]);
      assert s == [s[0]] + s[1..] && t == [t[0]] + t[1..];
    }
  }
}
