/** What `hashConfigData` of operator/internal/controller/resources.go feeds to SHA-256: the
    sorted entries of the ConfigMap, each key and value ended by a NUL.  The digest itself is
    not part of this model. */
module ConfigDigest {
  import opened Names

  const NUL := "\0"

  predicate NulFree(s: string) { '\0' !in s }

  ghost predicate Plain(data: map<string, string>) {
    forall key :: key in data ==> NulFree(key) && NulFree(data[key])
  }

  ghost predicate Covers(data: map<string, string>, keys: seq<string>) {
    forall i :: 0 <= i < |keys| ==> keys[i] in data
  }

  function Field(data: map<string, string>, key: string): string
    requires key in data
  {
    key + NUL + (data[key] + NUL)
  }

  ghost function Feed(data: map<string, string>, keys: seq<string>): string
    requires Covers(data, keys)
  {
    if keys == [] then "" else Field(data, keys[0]) + Feed(data, keys[1..])
  }

  lemma ListingCovers(data: map<string, string>)
    ensures Covers(data, Listing(Bytewise, data.Keys))
  {
    ListingLists(Bytewise, data.Keys);
    var keys := Listing(Bytewise, data.Keys);
    assert forall i :: 0 <= i < |keys| ==> keys[i] in Elements(keys);
  }

  /** The digest's input, a function of the contents alone. */
  ghost function DigestInput(data: map<string, string>): string {
    ListingCovers(data);
    Feed(data, Listing(Bytewise, data.Keys))
  }

  lemma {:induction false} FeedAppend(data: map<string, string>, keys: seq<string>, key: string)
    requires Covers(data, keys) && key in data
    ensures Covers(data, keys + [key]) && Feed(data, keys + [key]) == Feed(data, keys) + Field(data, key)
    decreases |keys|
  {
    if keys == [] {
      assert [key][1..] == [];
      assert Feed(data, [key]) == Field(data, key) + "";
    } else {
      assert (keys + [key])[1..] == keys[1..] + [key];
      FeedAppend(data, keys[1..], key);
    }
  }

  /** The keys, collected in whatever order the map yields them. */
  method CollectKeys(data: map<string, string>) returns (keys: seq<string>)
    ensures Elements(keys) == data.Keys
    ensures forall i, j :: 0 <= i < j < |keys| ==> keys[i] != keys[j]
  {
    var todo := data.Keys;
    keys := [];
    while todo != {}
      invariant todo <= data.Keys && Elements(keys) == data.Keys - todo
      invariant forall i, j :: 0 <= i < j < |keys| ==> keys[i] != keys[j]
      decreases todo
    {
      var key :| key in todo;
      assert key !in Elements(keys);
      assert Elements(keys + [key]) == Elements(keys) + {key};
      keys, todo := keys + [key], todo - {key};
    }
  }

  method WriteEntries(data: map<string, string>, keys: seq<string>) returns (fed: string)
    requires Covers(data, keys)
    ensures fed == Feed(data, keys)
  {
    fed := "";
    for i := 0 to |keys|
      invariant Covers(data, keys[..i]) && fed == Feed(data, keys[..i])
    {
      assert keys[..i + 1] == keys[..i] + [keys[i]];
      FeedAppend(data, keys[..i], keys[i]);
      fed := fed + Field(data, keys[i]);
    }
    assert keys[..|keys|] == keys;
  }

  /** `hashConfigData` up to the digest: whatever order the map is iterated in, the same input. */
  method HashConfigData(data: map<string, string>) returns (fed: string)
    ensures fed == DigestInput(data)
  {
    var keys := CollectKeys(data);
    keys := Sort(Bytewise, keys);
    ListingCovers(data);
    fed := WriteEntries(data, keys);
  }

  // ---- the input tells configurations apart ---------------------------------------------

  lemma FirstField(p: string, q: string, r: string, s: string)
    requires NulFree(p) && NulFree(q) && p + NUL + r == q + NUL + s
    ensures p == q && r == s
  {
    var a, b := p + NUL + r, q + NUL + s;
    assert a[|p|] == '\0' && b[|q|] == '\0';
    assert forall i :: 0 <= i < |p| ==> a[i] == p[i];
    assert forall i :: 0 <= i < |q| ==> b[i] == q[i];
    assert |p| == |q|;
    assert p == a[..|p|] && q == b[..|q|];
    assert r == a[|p| + 1..] && s == b[|q| + 1..];
  }

  lemma FirstEntry(k: string, v: string, rest: string, k': string, v': string, rest': string)
    requires NulFree(k) && NulFree(v) && NulFree(k') && NulFree(v')
    requires k + NUL + (v + NUL) + rest == k' + NUL + (v' + NUL) + rest'
    ensures k == k' && v == v' && rest == rest'
  {
    assert k + NUL + (v + NUL) + rest == k + NUL + (v + NUL + rest);
    assert k' + NUL + (v' + NUL) + rest' == k' + NUL + (v' + NUL + rest');
    FirstField(k, k', v + NUL + rest, v' + NUL + rest');
    FirstField(v, v', rest, rest');
  }

  lemma {:induction false} FeedInjective(a: map<string, string>, xs: seq<string>, b: map<string, string>, ys: seq<string>)
    requires Plain(a) && Plain(b) && Covers(a, xs) && Covers(b, ys)
    requires Feed(a, xs) == Feed(b, ys)
    ensures xs == ys && forall i :: 0 <= i < |xs| ==> a[xs[i]] == b[xs[i]]
    decreases |xs|
  {
    assert xs != [] ==> Field(a, xs[0]) != "" && Feed(a, xs) != "";
    assert ys != [] ==> Field(b, ys[0]) != "" && Feed(b, ys) != "";
    if xs != [] {
      FirstEntry(xs[0], a[xs[0]], Feed(a, xs[1..]), ys[0], b[ys[0]], Feed(b, ys[1..]));
      FeedInjective(a, xs[1..], b, ys[1..]);
      assert xs == [xs[0]] + xs[1..] && ys == [ys[0]] + ys[1..];
    }
  }

  /** A changed configuration always changes the digest's input, and an unchanged one never
      does: the consumers roll when, and only when, there is something to roll out. */
  lemma InputTellsApart(a: map<string, string>, b: map<string, string>)
    requires Plain(a) && Plain(b)
    ensures DigestInput(a) == DigestInput(b) <==> a == b
  {
    if DigestInput(a) == DigestInput(b) {
      var xs, ys := Listing(Bytewise, a.Keys), Listing(Bytewise, b.Keys);
      ListingCovers(a);
      ListingCovers(b);
      FeedInjective(a, xs, b, ys);
      ListingLists(Bytewise, a.Keys);
      ListingLists(Bytewise, b.Keys);
      assert a.Keys == b.Keys;
      forall key | key in a
        ensures a[key] == b[key]
      {
        assert key in Elements(xs);
      }
    }
  }
}
