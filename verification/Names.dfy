/** Sets of names listed in order: Redis lists index members by their UTF-8 bytes, .NET's
    ordinal sort by their UTF-16 code units. */
module Names {
  import opened Text

  datatype Order = Bytewise | Ordinal {
    function Key(name: string): seq<int> {
      match this
      case Bytewise => Utf8(name)
      case Ordinal => Utf16(name)
    }

    predicate Leq(a: string, b: string) { LexLeq(Key(a), Key(b)) }

    lemma Antisymmetric(a: string, b: string)
      requires Leq(a, b) && Leq(b, a)
      ensures a == b
    {
      LexAntisymmetric(Key(a), Key(b));
      if this == Bytewise {
        Utf8Injective(a, b);
      } else {
        Utf16Injective(a, b);
      }
    }

    lemma Transitive(a: string, b: string, c: string)
      requires Leq(a, b) && Leq(b, c)
      ensures Leq(a, c)
    {
      LexTransitive(Key(a), Key(b), Key(c));
    }
  }

  lemma LeqTotal(o: Order, a: string, b: string)
    ensures o.Leq(a, b) || o.Leq(b, a)
  {
    LexTotal(o.Key(a), o.Key(b));
  }

  lemma LeqReflexive(o: Order, a: string)
    ensures o.Leq(a, a)
  {
    LexTotal(o.Key(a), o.Key(a));
  }

  /** Names come in the order of their bytes or code units where they first differ, the shorter first. */
  lemma OrderMeaning(o: Order, a: string, b: string)
    ensures o.Leq(a, b) <==> o.Key(a) <= o.Key(b) || exists i: nat :: SmallerAt(o.Key(a), o.Key(b), i)
    ensures a <= b ==> o.Leq(a, b)
  {
    LexMeaning(o.Key(a), o.Key(b));
    if a <= b {
      assert b == a + b[|a|..];
      Utf8Concat(a, b[|a|..]);
      Utf16Concat(a, b[|a|..]);
    }
  }

  ghost function Elements<T>(xs: seq<T>): set<T> { set x | x in xs }

  /** Increasing, without repeats. */
  ghost predicate Increasing(o: Order, xs: seq<string>) {
    forall i, j :: 0 <= i < j < |xs| ==> o.Leq(xs[i], xs[j]) && xs[i] != xs[j]
  }

  /** `xs` lists exactly the members of `names`, in order. */
  ghost predicate Lists(o: Order, names: set<string>, xs: seq<string>) {
    Increasing(o, xs) && Elements(xs) == names
  }

  lemma EmptyElements(xs: seq<string>)
    ensures Elements(xs) == {} <==> xs == []
  {
    if xs != [] {
      assert xs[0] in Elements(xs);
    }
  }

  lemma ConsElements(x: string, xs: seq<string>)
    ensures Elements([x] + xs) == {x} + Elements(xs)
  {}

  lemma ConsIncreasing(o: Order, x: string, xs: seq<string>)
    requires Increasing(o, xs)
    requires forall j :: 0 <= j < |xs| ==> o.Leq(x, xs[j]) && x != xs[j]
    ensures Increasing(o, [x] + xs)
  {}

  lemma AppendElements(xs: seq<string>, x: string)
    ensures Elements(xs + [x]) == Elements(xs) + {x}
  {}

  lemma TailElements(xs: seq<string>)
    requires xs != [] && xs[0] !in xs[1..]
    ensures Elements(xs[1..]) == Elements(xs) - {xs[0]}
  {
    assert xs == [xs[0]] + xs[1..];
  }

  /** A set has one listing per order. */
  lemma {:induction false} ListingIsUnique(o: Order, names: set<string>, xs: seq<string>, ys: seq<string>)
    requires Lists(o, names, xs) && Lists(o, names, ys)
    ensures xs == ys
    decreases |xs|
  {
    if xs == [] {
      EmptyElements(ys);
    } else {
      assert xs[0] in Elements(xs);
      assert ys != [];
      assert ys[0] in Elements(ys);
      var i :| 0 <= i < |ys| && ys[i] == xs[0];
      var j :| 0 <= j < |xs| && xs[j] == ys[0];
      if i > 0 && j > 0 {
        o.Antisymmetric(xs[0], ys[0]);
      }
      assert xs[0] == ys[0];
      TailElements(xs);
      TailElements(ys);
      ListingIsUnique(o, names - {xs[0]}, xs[1..], ys[1..]);
      assert xs == [xs[0]] + xs[1..] && ys == [ys[0]] + ys[1..];
    }
  }

  function Insert(o: Order, x: string, xs: seq<string>): seq<string> {
    if xs == [] || o.Leq(x, xs[0]) then [x] + xs else [xs[0]] + Insert(o, x, xs[1..])
  }

  lemma {:induction false} InsertElements(o: Order, x: string, xs: seq<string>)
    ensures Elements(Insert(o, x, xs)) == Elements(xs) + {x}
  {
    ConsElements(x, xs);
    if xs != [] && !o.Leq(x, xs[0]) {
      InsertElements(o, x, xs[1..]);
      ConsElements(xs[0], Insert(o, x, xs[1..]));
      ConsElements(xs[0], xs[1..]);
      assert xs == [xs[0]] + xs[1..];
    }
  }

  lemma {:induction false} InsertIncreasing(o: Order, x: string, xs: seq<string>)
    requires Increasing(o, xs) && x !in xs
    ensures Increasing(o, Insert(o, x, xs))
  {
    if xs == [] {
    } else if o.Leq(x, xs[0]) {
      forall j | 0 <= j < |xs|
        ensures o.Leq(x, xs[j]) && x != xs[j]
      {
        if j > 0 {
          o.Transitive(x, xs[0], xs[j]);
        }
      }
      ConsIncreasing(o, x, xs);
    } else {
      InsertIncreasing(o, x, xs[1..]);
      InsertElements(o, x, xs[1..]);
      LeqTotal(o, x, xs[0]);
      var rest := Insert(o, x, xs[1..]);
      forall j | 0 <= j < |rest|
        ensures o.Leq(xs[0], rest[j]) && xs[0] != rest[j]
      {
        assert rest[j] in Elements(rest);
      }
      ConsIncreasing(o, xs[0], rest);
    }
  }

  lemma {:induction false} ListingExists(o: Order, names: set<string>)
    ensures exists xs: seq<string> :: Lists(o, names, xs)
  {
    if names == {} {
      assert Lists(o, names, []);
    } else {
      var x :| x in names;
      ListingExists(o, names - {x});
      var rest: seq<string> :| Lists(o, names - {x}, rest);
      InsertElements(o, x, rest);
      assert x !in Elements(rest);
      InsertIncreasing(o, x, rest);
      assert Lists(o, names, Insert(o, x, rest));
    }
  }

  /** The listing of a set. */
  ghost function Listing(o: Order, names: set<string>): seq<string> {
    ListingExists(o, names);
    var xs: seq<string> :| Lists(o, names, xs);
    xs
  }

  lemma ListingLists(o: Order, names: set<string>)
    ensures Lists(o, names, Listing(o, names))
  {}

  lemma {:induction false} ListingLength(xs: seq<string>)
    requires forall i, j :: 0 <= i < j < |xs| ==> xs[i] != xs[j]
    ensures |Elements(xs)| == |xs|
  {
    if xs != [] {
      TailElements(xs);
      ListingLength(xs[1..]);
    }
  }

  /** Sorts distinct names; stands for `List.Sort` and for a server-side ordered range. */
  method Sort(o: Order, names: seq<string>) returns (sorted: seq<string>)
    requires forall i, j :: 0 <= i < j < |names| ==> names[i] != names[j]
    ensures sorted == Listing(o, Elements(names))
    ensures |sorted| == |names|
  {
    sorted := [];
    for i := 0 to |names|
      invariant Lists(o, Elements(names[..i]), sorted)
    {
      assert names[..i + 1] == names[..i] + [names[i]];
      assert names[i] !in sorted by {
        assert names[i] !in Elements(names[..i]);
      }
      InsertElements(o, names[i], sorted);
      InsertIncreasing(o, names[i], sorted);
      sorted := Insert(o, names[i], sorted);
    }
    assert names[..|names|] == names;
    ListingLists(o, Elements(names));
    ListingIsUnique(o, Elements(names), sorted, Listing(o, Elements(names)));
    ListingLength(names);
    ListingLength(sorted);
  }
}
