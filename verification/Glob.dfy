/** Redis' glob patterns, as SCAN and ZSCAN apply them to the bytes of a name. */
module Glob {
  import opened Text
  import opened Bits

  const STAR: Byte := 42
  const DASH: Byte := 45
  const QUESTION: Byte := 63
  const OPEN: Byte := 91
  const BACKSLASH: Byte := 92
  const CLOSE: Byte := 93
  const CARET: Byte := 94

  /** Reads the members of a bracket class from index `i`.  Yields whether `b` is one of them
      and the index just after the class. */
  function ClassFrom(p: Bytes, i: nat, b: Byte, found: bool): (r: (bool, nat))
    requires i <= |p|
    ensures i <= r.1 <= |p|
    decreases |p| - i
  {
    if i == |p| then (found, i)
    else if p[i] == BACKSLASH && i + 2 <= |p| then ClassFrom(p, i + 2, b, found || p[i + 1] == b)
    else if p[i] == CLOSE then (found, i + 1)
    else if i + 3 <= |p| && p[i + 1] == DASH then
      ClassFrom(p, i + 3, b, found || p[i] <= b <= p[i + 2] || p[i + 2] <= b <= p[i])
    else ClassFrom(p, i + 1, b, found || p[i] == b)
  }

  predicate Match(p: Bytes, s: Bytes)
    decreases |p| + |s|
  {
    if p == [] then s == []
    else if p[0] == STAR then Match(p[1..], s) || (s != [] && Match(p, s[1..]))
    else if s == [] then false
    else if p[0] == QUESTION then Match(p[1..], s[1..])
    else if p[0] == OPEN then
      var negated := 1 < |p| && p[1] == CARET;
      var (found, next) := ClassFrom(p, if negated then 2 else 1, s[0], false);
      found != negated && Match(p[next..], s[1..])
    else if p[0] == BACKSLASH && 2 <= |p| then p[1] == s[0] && Match(p[2..], s[1..])
    else p[0] == s[0] && Match(p[1..], s[1..])
  }

  ghost predicate MatchesFrom(p: Bytes, s: Bytes, k: nat) { k <= |s| && Match(p, s[k..]) }

  lemma MatchesFromNext(p: Bytes, s: Bytes, k: nat)
    requires s != []
    ensures MatchesFrom(p, s, k + 1) <==> MatchesFrom(p, s[1..], k)
  {
    if k <= |s[1..]| {
      assert s[1..][k..] == s[k + 1..];
    }
  }

  lemma StarStep(p: Bytes, s: Bytes)
    ensures Match([STAR] + p, s) <==> Match(p, s) || (s != [] && Match([STAR] + p, s[1..]))
  {
    assert ([STAR] + p)[1..] == p;
  }

  /** A pattern that begins with `*` matches when its remainder matches some suffix. */
  lemma {:induction false} StarMatchesSuffix(p: Bytes, s: Bytes)
    ensures Match([STAR] + p, s) <==> exists k: nat :: MatchesFrom(p, s, k)
    decreases |s|
  {
    StarStep(p, s);
    assert s[0..] == s && (MatchesFrom(p, s, 0) <==> Match(p, s));
    if s != [] {
      StarMatchesSuffix(p, s[1..]);
      if k: nat :| MatchesFrom(p, s[1..], k) {
        MatchesFromNext(p, s, k);
      }
      if k: nat :| MatchesFrom(p, s, k) {
        if k > 0 {
          MatchesFromNext(p, s, k - 1);
        }
      }
    }
  }

  lemma StarMatchesAll(s: Bytes)
    ensures Match([STAR], s)
  {
    StarMatchesSuffix([], s);
    assert [STAR] + [] == [STAR] && MatchesFrom([], s, |s|);
  }

  predicate IsMeta(b: int) {
    b == STAR || b == QUESTION || b == OPEN || b == CLOSE || b == BACKSLASH
  }

  /** Every metacharacter preceded by a backslash. */
  function Quoted(s: Bytes): Bytes {
    if s == [] then [] else (if IsMeta(s[0]) then [BACKSLASH, s[0]] else [s[0]]) + Quoted(s[1..])
  }

  /** A quoted run matches itself and nothing else. */
  lemma {:induction false} QuotedMatchesItself(q: Bytes, rest: Bytes, s: Bytes)
    ensures Match(Quoted(q) + rest, s) <==> q <= s && Match(rest, s[|q|..])
    decreases |q|
  {
    var p := Quoted(q) + rest;
    if q == [] {
      assert p == rest && s[0..] == s;
    } else {
      var tail := Quoted(q[1..]) + rest;
      if IsMeta(q[0]) {
        assert p[0] == BACKSLASH && p[1] == q[0] && p[2..] == tail;
      } else {
        assert p[0] == q[0] && p[1..] == tail;
      }
      if s != [] {
        QuotedMatchesItself(q[1..], rest, s[1..]);
        assert Match(p, s) <==> q[0] == s[0] && Match(tail, s[1..]);
        assert q == [q[0]] + q[1..] && s == [s[0]] + s[1..];
        if q <= s {
          assert s[1..][|q[1..]|..] == s[|q|..];
        }
      }
    }
  }

  /** Between two stars, a quoted run means "contains". */
  lemma QuotedBetweenStars(q: Bytes, s: Bytes)
    ensures Match([STAR] + Quoted(q) + [STAR], s) <==> Contains(s, q)
  {
    var p := Quoted(q) + [STAR];
    assert [STAR] + Quoted(q) + [STAR] == [STAR] + p;
    StarMatchesSuffix(p, s);
    forall k: nat | k <= |s|
      ensures MatchesFrom(p, s, k) <==> OccursAt(q, s, k)
    {
      QuotedMatchesItself(q, [STAR], s[k..]);
      if q <= s[k..] {
        StarMatchesAll(s[k..][|q|..]);
      }
    }
    if Contains(s, q) {
      var k: nat :| OccursAt(q, s, k);
      assert MatchesFrom(p, s, k);
    }
  }

  lemma QuotedMatchesOnlyItself(q: Bytes, s: Bytes)
    ensures Match(Quoted(q), s) <==> s == q
  {
    QuotedMatchesItself(q, [], s);
    assert Quoted(q) + [] == Quoted(q);
  }

  lemma StarThenQuoted(q: Bytes, s: Bytes)
    ensures Match([STAR] + Quoted(q), s) <==> |q| <= |s| && s[|s| - |q|..] == q
  {
    StarMatchesSuffix(Quoted(q), s);
    forall k: nat | k <= |s|
      ensures MatchesFrom(Quoted(q), s, k) <==> s[k..] == q
    {
      QuotedMatchesOnlyItself(q, s[k..]);
    }
    if |q| <= |s| && s[|s| - |q|..] == q {
      assert MatchesFrom(Quoted(q), s, |s| - |q|);
    }
  }

  lemma SuffixOfSuffix(a: nat, b: Bytes, s: Bytes)
    requires a <= |s|
    ensures |b| <= |s[a..]| && s[a..][|s[a..]| - |b|..] == b <==> a + |b| <= |s| && s[|s| - |b|..] == b
  {
    if a + |b| <= |s| {
      assert s[a..][|s| - a - |b|..] == s[|s| - |b|..];
    }
  }

  /** `s` is `a`, anything, `b`. */
  predicate Surrounds(a: Bytes, b: Bytes, s: Bytes) {
    |a| + |b| <= |s| && a <= s && s[|s| - |b|..] == b
  }

  /** Literal text, a star, literal text: a prefix and a suffix that do not overlap. */
  lemma QuotedAroundStar(a: Bytes, b: Bytes, s: Bytes)
    ensures Match(Quoted(a) + ([STAR] + Quoted(b)), s) == Surrounds(a, b, s)
  {
    QuotedMatchesItself(a, [STAR] + Quoted(b), s);
    if a <= s {
      StarThenQuoted(b, s[|a|..]);
      SuffixOfSuffix(|a|, b, s);
    }
  }
}
