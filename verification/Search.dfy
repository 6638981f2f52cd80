/** The two-pass name search of `SearchIndexAsync` in EliteEvents.Eddn/Storage/DockingReader.cs. */
module Search {
  import opened Bits
  import opened Text
  import opened Names
  import opened RedisKeys
  import opened Sets
  import Glob

  const SUBSTRING_SCAN_CEILING := 5000

  // ---- what a search means --------------------------------------------------------------

  ghost function PrefixHits(index: set<string>, query: string): set<string> {
    set name | name in index && query <= name
  }

  ghost function OtherHits(index: set<string>, query: string): set<string> {
    set name | name in index && Contains(name, query) && !(query <= name)
  }

  function Take<T>(xs: seq<T>, n: nat): seq<T> { if n <= |xs| then xs[..n] else xs }

  /** Every hit, names that start with the query first. */
  ghost function AllHits(index: set<string>, query: string): seq<string> {
    Listing(Bytewise, PrefixHits(index, query)) + Listing(Ordinal, OtherHits(index, query))
  }

  // ---- the server's side ----------------------------------------------------------------

  /** ZRANGEBYLEX with a limit, over an index whose scores are all zero. */
  method RangeByLex(index: set<string>, lo: Bytes, hi: Bytes, take: nat) returns (r: seq<string>)
    ensures r == Take(Listing(Bytewise, set name | name in index && InLexRange(name, lo, hi)), take)
  {
    var todo, found := index, [];
    while todo != {}
      invariant todo <= index
      invariant Elements(found) == set name | name in index && name !in todo && InLexRange(name, lo, hi)
      invariant forall i, j :: 0 <= i < j < |found| ==> found[i] != found[j]
      decreases todo
    {
      var name :| name in todo;
      assert name !in Elements(found);
      todo := todo - {name};
      if InLexRange(name, lo, hi) {
        assert Elements(found + [name]) == Elements(found) + {name};
        found := found + [name];
      }
    }
    assert Elements(found) == set name | name in index && InLexRange(name, lo, hi);
    var sorted := Sort(Bytewise, found);
    r := Take(sorted, take);
  }

  // ---- what every answer satisfies --------------------------------------------------------

  predicate Distinct<T(==)>(xs: seq<T>) {
    forall i, j :: 0 <= i < j < |xs| ==> xs[i] != xs[j]
  }

  /** What every answer satisfies, however many names match. */
  ghost predicate Sound(index: set<string>, query: string, limit: nat, results: seq<string>) {
    var first := Take(Listing(Bytewise, PrefixHits(index, query)), limit);
    && |results| == Min(limit, |PrefixHits(index, query)| + Min(|OtherHits(index, query)|, SUBSTRING_SCAN_CEILING))
    && Distinct(results)
    && (forall i :: 0 <= i < |results| ==> results[i] in index && Contains(results[i], query))
    && first <= results
    && (forall i :: |first| <= i < |results| ==> results[i] in OtherHits(index, query))
    && Increasing(Ordinal, results[|first|..])
  }

  lemma PrefixIsContained(query: string, name: string)
    requires query <= name
    ensures Contains(name, query)
  {
    assert name[0..] == name;
    assert OccursAt(query, name, 0);
  }

  lemma {:induction false} UpperKeepsBlank(s: string)
    requires IsBlank(s)
    ensures IsBlank(NormalizeSystem(s))
  {
    if s != "" {
      UpperKeepsBlank(s[1..]);
    }
  }

  lemma {:induction false} TrimBlank(s: string)
    requires IsBlank(s)
    ensures TrimStart(s) == ""
  {
    if s != "" {
      TrimBlank(s[1..]);
    }
  }

  lemma BlankNormalizes(s: string)
    requires IsBlank(s)
    ensures NormalizeQuery(s) == ""
  {
    UpperKeepsBlank(s);
    TrimBlank(NormalizeSystem(s));
  }

  lemma AppendDistinct(xs: seq<string>, x: string)
    requires Distinct(xs) && x !in Elements(xs)
    ensures Distinct(xs + [x]) && Elements(xs + [x]) == Elements(xs) + {x}
  {
    assert forall i :: 0 <= i < |xs| ==> xs[i] in Elements(xs);
  }

  /** What the ZSCAN pass keeps, as a function of the order in which names come: every matching
      name not seen yet, up to the ceiling. */
  ghost function ScanPass(scan: seq<string>, query: string, prefixHits: set<string>, found: seq<string>): seq<string>
    decreases |scan|
  {
    if scan == [] then found
    else
      var kept := Keep(scan[0], query, prefixHits, found);
      if |kept| >= SUBSTRING_SCAN_CEILING then kept else ScanPass(scan[1..], query, prefixHits, kept)
  }

  ghost function Keep(name: string, query: string, prefixHits: set<string>, found: seq<string>): seq<string> {
    if Contains(name, query) && name !in prefixHits && name !in Elements(found) then found + [name] else found
  }

  /** The names kept are distinct other hits. */
  ghost predicate Kept(index: set<string>, query: string, found: seq<string>) {
    Distinct(found) && Elements(found) <= OtherHits(index, query)
  }

  lemma KeepKeeps(index: set<string>, query: string, name: string, found: seq<string>)
    requires Kept(index, query, found) && name in index
    ensures Kept(index, query, Keep(name, query, PrefixHits(index, query), found))
    ensures name in OtherHits(index, query) ==> name in Elements(Keep(name, query, PrefixHits(index, query), found))
    ensures Elements(found) <= Elements(Keep(name, query, PrefixHits(index, query), found))
  {
    if Contains(name, query) && name !in PrefixHits(index, query) && name !in Elements(found) {
      AppendDistinct(found, name);
    }
  }

  lemma {:induction false} ScanPassKeeps(index: set<string>, query: string, scan: seq<string>, found: seq<string>)
    requires Kept(index, query, found) && Elements(scan) <= index && |found| < SUBSTRING_SCAN_CEILING
    ensures var r := ScanPass(scan, query, PrefixHits(index, query), found);
      && Kept(index, query, r) && Elements(found) <= Elements(r) && |r| <= SUBSTRING_SCAN_CEILING
      && (|r| < SUBSTRING_SCAN_CEILING ==> Elements(scan) * OtherHits(index, query) <= Elements(r))
    decreases |scan|
  {
    if scan != [] {
      assert scan[0] in Elements(scan) && Elements(scan[1..]) <= Elements(scan);
      assert Elements(scan) == {scan[0]} + Elements(scan[1..]);
      KeepKeeps(index, query, scan[0], found);
      var kept := Keep(scan[0], query, PrefixHits(index, query), found);
      if |kept| < SUBSTRING_SCAN_CEILING {
        ScanPassKeeps(index, query, scan[1..], kept);
      }
    }
  }

  function Min(a: int, b: int): int { if a <= b then a else b }

  /** The pass keeps every other hit, or as many as the ceiling allows. */
  lemma ScanPassSize(index: set<string>, query: string, scan: seq<string>)
    requires Elements(scan) == index
    ensures var r := ScanPass(scan, query, PrefixHits(index, query), []);
      && Kept(index, query, r) && |r| == Min(|OtherHits(index, query)|, SUBSTRING_SCAN_CEILING)
      && (|OtherHits(index, query)| <= SUBSTRING_SCAN_CEILING ==> Elements(r) == OtherHits(index, query))
  {
    ScanPassKeeps(index, query, scan, []);
    var r := ScanPass(scan, query, PrefixHits(index, query), []);
    ListingLength(r);
    SubsetSize(Elements(r), OtherHits(index, query));
    assert |r| < SUBSTRING_SCAN_CEILING ==> Elements(r) == OtherHits(index, query);
  }

  /** The ZSCAN loop. */
  method SubstringPass(index: set<string>, scan: seq<string>, query: string, prefixHits: set<string>)
    returns (found: seq<string>)
    requires Elements(scan) == index && prefixHits == PrefixHits(index, query)
    ensures found == ScanPass(scan, query, prefixHits, [])
  {
    found := [];
    var seen := prefixHits;
    var pattern := Utf8(IndexMatchPattern(query));
    for i := 0 to |scan|
      invariant seen == prefixHits + Elements(found) && |found| < SUBSTRING_SCAN_CEILING
      invariant ScanPass(scan[i..], query, prefixHits, found) == ScanPass(scan, query, prefixHits, [])
    {
      var name := scan[i];
      assert scan[i..][0] == name && scan[i..][1..] == scan[i + 1..];
      PatternMeansContains(query, name);
      if Glob.Match(pattern, Utf8(name)) {
        if name !in seen {
          assert Elements(found + [name]) == Elements(found) + {name};
          seen := seen + {name};
          found := found + [name];
        }
        if |found| >= SUBSTRING_SCAN_CEILING {
          return;
        }
      }
    }
  }

  lemma TakeIncreasing(o: Order, xs: seq<string>, n: nat)
    requires Increasing(o, xs)
    ensures Increasing(o, Take(xs, n)) && Take(xs, n) <= xs
  {}

  lemma ListingSize(o: Order, names: set<string>)
    ensures |Listing(o, names)| == |names|
  {
    ListingLists(o, names);
    ListingLength(Listing(o, names));
  }

  lemma PrefixPage(index: set<string>, query: string, limit: nat, page: seq<string>)
    requires |PrefixHits(index, query)| >= limit && page == Take(Listing(Bytewise, PrefixHits(index, query)), limit)
    ensures Sound(index, query, limit, page) && page == Take(AllHits(index, query), limit)
  {
    var prefix := Listing(Bytewise, PrefixHits(index, query));
    ListingSize(Bytewise, PrefixHits(index, query));
    ListingLists(Bytewise, PrefixHits(index, query));
    forall i | 0 <= i < |page|
      ensures page[i] in index && Contains(page[i], query)
    {
      assert page[i] in Elements(prefix);
      PrefixIsContained(query, page[i]);
    }
  }

  lemma JoinDistinct(xs: seq<string>, ys: seq<string>)
    requires Distinct(xs) && Distinct(ys) && Elements(xs) !! Elements(ys)
    ensures Distinct(xs + ys)
  {
    assert forall i :: 0 <= i < |xs| ==> xs[i] in Elements(xs);
    assert forall i :: 0 <= i < |ys| ==> ys[i] in Elements(ys);
  }

  lemma PageMembers(index: set<string>, query: string, prefix: seq<string>, tail: seq<string>)
    requires Elements(prefix) == PrefixHits(index, query) && Elements(tail) <= OtherHits(index, query)
    ensures forall i :: 0 <= i < |prefix + tail| ==>
              (prefix + tail)[i] in index && Contains((prefix + tail)[i], query)
    ensures forall i :: |prefix| <= i < |prefix + tail| ==> (prefix + tail)[i] in OtherHits(index, query)
  {
    var page := prefix + tail;
    forall i | 0 <= i < |page|
      ensures page[i] in index && Contains(page[i], query)
      ensures i >= |prefix| ==> page[i] in OtherHits(index, query)
    {
      if i < |prefix| {
        assert page[i] in Elements(prefix);
        PrefixIsContained(query, page[i]);
      } else {
        assert page[i] == tail[i - |prefix|];
        assert page[i] in Elements(tail);
      }
    }
  }

  lemma TwoPartPage(index: set<string>, query: string, limit: nat, prefix: seq<string>, tail: seq<string>, page: seq<string>)
    requires prefix == Listing(Bytewise, PrefixHits(index, query)) && |prefix| <= limit && page == prefix + tail
    requires |tail| == Min(limit - |prefix|, Min(|OtherHits(index, query)|, SUBSTRING_SCAN_CEILING))
    requires Increasing(Ordinal, tail) && Elements(tail) <= OtherHits(index, query)
    ensures Sound(index, query, limit, page)
  {
    ListingSize(Bytewise, PrefixHits(index, query));
    ListingLists(Bytewise, PrefixHits(index, query));
    JoinDistinct(prefix, tail);
    PageMembers(index, query, prefix, tail);
    assert (prefix + tail)[|prefix|..] == tail;
    assert Take(prefix, limit) == prefix;
  }

  // ---- the answer as a function of the scan order ---------------------------------------

  /** The second half of the page: the substring hits kept, sorted and cut to the room left. */
  ghost function Tail(index: set<string>, scan: seq<string>, query: string, room: nat): seq<string> {
    Take(Listing(Ordinal, Elements(ScanPass(scan, query, PrefixHits(index, query), []))), room)
  }

  ghost function Page(index: set<string>, scan: seq<string>, query: string, limit: nat): seq<string> {
    var prefix := Listing(Bytewise, PrefixHits(index, query));
    if |prefix| >= limit then Take(prefix, limit) else prefix + Tail(index, scan, query, limit - |prefix|)
  }

  lemma TailIsSound(index: set<string>, scan: seq<string>, query: string, room: nat)
    requires Elements(scan) == index
    ensures var tail := Tail(index, scan, query, room);
      && |tail| == Min(room, Min(|OtherHits(index, query)|, SUBSTRING_SCAN_CEILING))
      && Increasing(Ordinal, tail) && Elements(tail) <= OtherHits(index, query)
      && (|OtherHits(index, query)| <= SUBSTRING_SCAN_CEILING ==> tail == Take(Listing(Ordinal, OtherHits(index, query)), room))
  {
    ScanPassSize(index, query, scan);
    var kept := ScanPass(scan, query, PrefixHits(index, query), []);
    ListingLength(kept);
    ListingSize(Ordinal, Elements(kept));
    ListingLists(Ordinal, Elements(kept));
    TakeIncreasing(Ordinal, Listing(Ordinal, Elements(kept)), room);
    assert Elements(Tail(index, scan, query, room)) <= Elements(Listing(Ordinal, Elements(kept)));
  }

  /** Whatever the scan order: as many names as fit, without repeats, prefix hits first, every one
      containing the query. */
  lemma PageIsSound(index: set<string>, scan: seq<string>, query: string, limit: nat)
    requires Elements(scan) == index
    ensures Sound(index, query, limit, Page(index, scan, query, limit))
  {
    var prefix, page := Listing(Bytewise, PrefixHits(index, query)), Page(index, scan, query, limit);
    ListingSize(Bytewise, PrefixHits(index, query));
    if |prefix| >= limit {
      PrefixPage(index, query, limit, page);
    } else {
      var tail := Tail(index, scan, query, limit - |prefix|);
      TailIsSound(index, scan, query, limit - |prefix|);
      TwoPartPage(index, query, limit, prefix, tail, page);
    }
  }

  /** The page cannot miss a hit that belongs on it. */
  predicate Fits(prefixHits: nat, otherHits: nat, limit: nat) {
    otherHits <= SUBSTRING_SCAN_CEILING || prefixHits >= limit
  }

  lemma TakeJoin(prefix: seq<string>, others: seq<string>, limit: nat)
    requires |prefix| <= limit
    ensures prefix + Take(others, limit - |prefix|) == Take(prefix + others, limit)
  {}

  lemma ShortPage(index: set<string>, scan: seq<string>, query: string, limit: nat, room: nat)
    requires |Listing(Bytewise, PrefixHits(index, query))| + room == limit && room > 0
    requires Tail(index, scan, query, room) == Take(Listing(Ordinal, OtherHits(index, query)), room)
    ensures Page(index, scan, query, limit) == Take(AllHits(index, query), limit)
  {
    TakeJoin(Listing(Bytewise, PrefixHits(index, query)), Listing(Ordinal, OtherHits(index, query)), limit);
  }

  lemma FittingPage(index: set<string>, scan: seq<string>, query: string, limit: nat)
    requires Elements(scan) == index && Fits(|PrefixHits(index, query)|, |OtherHits(index, query)|, limit)
    ensures Page(index, scan, query, limit) == Take(AllHits(index, query), limit)
  {
    ListingSize(Bytewise, PrefixHits(index, query));
    if |PrefixHits(index, query)| >= limit {
      PrefixPage(index, query, limit, Page(index, scan, query, limit));
    } else {
      var room := limit - |PrefixHits(index, query)|;
      TailIsSound(index, scan, query, room);
      ShortPage(index, scan, query, limit, room);
    }
  }

  lemma {:induction false} PassStopsEarly(front: seq<string>, rest: seq<string>, query: string, prefixHits: set<string>, found: seq<string>)
    requires |found| < SUBSTRING_SCAN_CEILING <= |ScanPass(front, query, prefixHits, found)|
    ensures ScanPass(front + rest, query, prefixHits, found) == ScanPass(front, query, prefixHits, found)
    decreases |front|
  {
    assert (front + rest)[0] == front[0] && (front + rest)[1..] == front[1..] + rest;
    var kept := Keep(front[0], query, prefixHits, found);
    if |kept| < SUBSTRING_SCAN_CEILING {
      PassStopsEarly(front[1..], rest, query, prefixHits, kept);
    }
  }

  /** A scan that returns one other hit last never gets to it when there are too many. */
  lemma LastIsMissed(index: set<string>, query: string, last: string) returns (scan: seq<string>)
    requires last in OtherHits(index, query) && |OtherHits(index, query)| > SUBSTRING_SCAN_CEILING
    ensures Elements(scan) == index && last !in Elements(ScanPass(scan, query, PrefixHits(index, query), []))
  {
    var others := index - {last};
    var front := Listing(Bytewise, others);
    ListingLists(Bytewise, others);
    scan := front + [last];
    assert Elements(scan) == Elements(front) + {last};
    assert PrefixHits(others, query) == PrefixHits(index, query);
    assert OtherHits(others, query) == OtherHits(index, query) - {last};
    ScanPassSize(others, query, front);
    PassStopsEarly(front, [last], query, PrefixHits(index, query), []);
  }

  lemma TailStartsElsewhere(index: set<string>, scan: seq<string>, query: string, room: nat, missed: string)
    requires Elements(scan) == index && room > 0 && OtherHits(index, query) != {}
    requires missed !in Elements(ScanPass(scan, query, PrefixHits(index, query), []))
    ensures Tail(index, scan, query, room) != [] && Tail(index, scan, query, room)[0] != missed
  {
    TailIsSound(index, scan, query, room);
    var kept := Elements(ScanPass(scan, query, PrefixHits(index, query), []));
    ListingLists(Ordinal, kept);
    assert Tail(index, scan, query, room)[0] in Elements(Listing(Ordinal, kept));
  }

  lemma DiffersThere(prefix: seq<string>, tail: seq<string>, others: seq<string>, limit: nat)
    requires |prefix| < limit && tail != [] && others != [] && tail[0] != others[0]
    ensures prefix + tail != Take(prefix + others, limit)
  {
    assert (prefix + tail)[|prefix|] == tail[0];
    assert Take(prefix + others, limit)[|prefix|] == others[0];
  }

  lemma SmallestExists(names: set<string>)
    requires names != {}
    ensures Listing(Ordinal, names) != [] && Listing(Ordinal, names)[0] in names
  {
    ListingSize(Ordinal, names);
    ListingLists(Ordinal, names);
    assert Listing(Ordinal, names)[0] in Elements(Listing(Ordinal, names));
  }

  lemma PageDiffers(index: set<string>, scan: seq<string>, query: string, limit: nat, room: nat)
    requires |Listing(Bytewise, PrefixHits(index, query))| + room == limit && room > 0
    requires Listing(Ordinal, OtherHits(index, query)) != [] && Tail(index, scan, query, room) != []
    requires Tail(index, scan, query, room)[0] != Listing(Ordinal, OtherHits(index, query))[0]
    ensures Page(index, scan, query, limit) != Take(AllHits(index, query), limit)
  {
    DiffersThere(Listing(Bytewise, PrefixHits(index, query)), Tail(index, scan, query, room),
                 Listing(Ordinal, OtherHits(index, query)), limit);
  }

  /** Otherwise some scan order makes it miss one: the smallest other hit, returned last. */
  lemma MissingPage(index: set<string>, query: string, limit: nat) returns (scan: seq<string>)
    requires !Fits(|PrefixHits(index, query)|, |OtherHits(index, query)|, limit)
    ensures Elements(scan) == index && Page(index, scan, query, limit) != Take(AllHits(index, query), limit)
  {
    ListingSize(Bytewise, PrefixHits(index, query));
    SmallestExists(OtherHits(index, query));
    var smallest, room := Listing(Ordinal, OtherHits(index, query))[0], limit - |PrefixHits(index, query)|;
    scan := LastIsMissed(index, query, smallest);
    TailStartsElsewhere(index, scan, query, room, smallest);
    PageDiffers(index, scan, query, limit, room);
  }

  ghost predicate AlwaysExact(index: set<string>, query: string, limit: nat) {
    forall scan: seq<string> :: Elements(scan) == index ==> Page(index, scan, query, limit) == Take(AllHits(index, query), limit)
  }

  /** The answer is the beginning of the sorted list of all hits for every scan order exactly when the
      prefix hits fill the page or the other hits stay within the ceiling. */
  lemma ExactlyWhenItFits(index: set<string>, query: string, limit: nat)
    ensures AlwaysExact(index, query, limit) <==> |OtherHits(index, query)| <= 5000 || |PrefixHits(index, query)| >= limit
  {
    if Fits(|PrefixHits(index, query)|, |OtherHits(index, query)|, limit) {
      forall scan: seq<string> | Elements(scan) == index
        ensures Page(index, scan, query, limit) == Take(AllHits(index, query), limit)
      {
        FittingPage(index, scan, query, limit);
      }
    } else {
      var scan := MissingPage(index, query, limit);
    }
  }

  /** `XA`, `XXA`, `XXXA` and so on. */
  function Rung(i: nat): string { seq(i + 1, _ => 'X') + "A" }

  ghost function Ladder(n: nat): set<string> { if n == 0 then {} else Ladder(n - 1) + {Rung(n - 1)} }

  lemma RungHits(i: nat)
    ensures Contains(Rung(i), "A") && !("A" <= Rung(i)) && |Rung(i)| == i + 2
  {
    assert Rung(i)[0] == 'X' && Rung(i)[i + 1..] == "A";
    assert OccursAt("A", Rung(i), i + 1);
  }

  lemma {:induction false} LadderMember(n: nat, name: string)
    requires name in Ladder(n)
    ensures Contains(name, "A") && !("A" <= name) && |name| <= n + 1
  {
    RungHits(n - 1);
    if name != Rung(n - 1) {
      LadderMember(n - 1, name);
    }
  }

  lemma {:induction false} LadderSize(n: nat)
    ensures |Ladder(n)| == n
  {
    if n > 0 {
      LadderSize(n - 1);
      RungHits(n - 1);
      forall name | name in Ladder(n - 1)
        ensures |name| <= n
      {
        LadderMember(n - 1, name);
      }
    }
  }

  lemma LadderHits(n: nat)
    ensures |Ladder(n)| == n && PrefixHits(Ladder(n), "A") == {} && OtherHits(Ladder(n), "A") == Ladder(n)
  {
    LadderSize(n);
    forall name | name in Ladder(n)
      ensures Contains(name, "A") && !("A" <= name)
    {
      LadderMember(n, name);
    }
  }

  /** Where the ceiling bites: 5001 names that contain the query, none of which starts with it. */
  lemma OneTooMany() returns (scan: seq<string>)
    ensures Elements(scan) == Ladder(SUBSTRING_SCAN_CEILING + 1)
    ensures Page(Ladder(SUBSTRING_SCAN_CEILING + 1), scan, "A", 1) != Take(AllHits(Ladder(SUBSTRING_SCAN_CEILING + 1), "A"), 1)
  {
    LadderHits(SUBSTRING_SCAN_CEILING + 1);
    scan := MissingPage(Ladder(SUBSTRING_SCAN_CEILING + 1), "A", 1);
  }

  // ---- the search -----------------------------------------------------------------------

  /** `scan` is the order in which ZSCAN happens to return the members, repeats included. */
  method SearchIndex(index: set<string>, scan: seq<string>, searchQuery: string, limit: int)
    returns (results: seq<string>)
    requires Elements(scan) == index
    ensures limit <= 0 || NormalizeQuery(searchQuery) == "" ==> results == []
    ensures limit > 0 && NormalizeQuery(searchQuery) != "" ==>
      var query := NormalizeQuery(searchQuery);
      && results == Page(index, scan, query, limit)
      && Sound(index, query, limit, results)
      && (|OtherHits(index, query)| <= 5000 || |PrefixHits(index, query)| >= limit ==> results == Take(AllHits(index, query), limit))
  {
    if limit <= 0 {
      return [];
    }
    if IsBlank(searchQuery) {
      BlankNormalizes(searchQuery);
      return [];
    }
    var query := NormalizeQuery(searchQuery);
    if |query| == 0 {
      return [];
    }
    results := FillPage(index, scan, query, limit);
    PageIsSound(index, scan, query, limit);
    if Fits(|PrefixHits(index, query)|, |OtherHits(index, query)|, limit) {
      FittingPage(index, scan, query, limit);
    }
  }

  /** Both passes, for a query that is not empty. */
  method FillPage(index: set<string>, scan: seq<string>, query: string, limit: nat) returns (results: seq<string>)
    requires Elements(scan) == index && limit > 0
    ensures results == Page(index, scan, query, limit)
  {
    var seen;
    results, seen := PrefixPass(index, query, limit);
    if |results| >= limit {
      return;
    }
    ListingLists(Bytewise, PrefixHits(index, query));
    var substringMatches := SubstringPass(index, scan, query, seen);
    ScanPassSize(index, query, scan);
    var sorted := Sort(Ordinal, substringMatches);
    results := results + Take(sorted, limit - |results|);
  }

  lemma RangeIsPrefixHits(index: set<string>, query: string, upper: Bytes)
    requires upper == UpperBound(query)
    ensures (set name | name in index && InLexRange(name, LexPrefixMin(query), upper)) == PrefixHits(index, query)
  {
    forall name | name in index
      ensures InLexRange(name, LexPrefixMin(query), upper) <==> query <= name
    {
      PrefixRangeIsExact(query, name);
    }
  }

  /** The first loop: each name once, in the order it was returned. */
  method Collect(names: seq<string>) returns (results: seq<string>, seen: set<string>)
    requires Distinct(names)
    ensures results == names && seen == Elements(names)
  {
    results, seen := [], {};
    for i := 0 to |names|
      invariant results == names[..i] && seen == Elements(results)
    {
      var name := names[i];
      assert name !in names[..i];
      if name !in seen {
        assert Elements(results + [name]) == Elements(results) + {name};
        seen := seen + {name};
        results := results + [name];
      }
    }
  }

  /** The ZRANGEBYLEX pass, with the set of names it has put on the page. */
  method PrefixPass(index: set<string>, query: string, limit: nat)
    returns (results: seq<string>, seen: set<string>)
    ensures results == Take(Listing(Bytewise, PrefixHits(index, query)), limit)
    ensures seen == Elements(results)
  {
    var upper := LexPrefixMax(query);
    var prefixMatches := RangeByLex(index, LexPrefixMin(query), upper[..], limit);
    RangeIsPrefixHits(index, query, upper[..]);
    ListingLists(Bytewise, PrefixHits(index, query));
    TakeIncreasing(Bytewise, Listing(Bytewise, PrefixHits(index, query)), limit);
    results, seen := Collect(prefixMatches);
  }
}
