/** The index rebuild of EliteEvents.Eddn/Storage/SearchIndexMaintainer.cs, run against a
    server on which writers and expiries act between any two of its commands. */
module SearchIndexMaintainer {
  import opened Text
  import opened RedisKeys
  import opened Wrappers
  import Glob

  const WRITE_CHUNK_SIZE := 500

  // ---- which names are live -------------------------------------------------------------

  /** The two indexes and the data keys they are rebuilt from. */
  datatype IndexKind = Systems | Carriers {
    function Space(): string { if Systems? then "system:" else "carrier:" }

    function Suffix(): string { if Systems? then ":stations" else ":days" }

    function DataKey(name: string): string { if Systems? then SystemStations(name) else CarrierDays(name) }

    /** The key of one station, or of one day. */
    function DetailKey(name: string, detail: string): string {
      if Systems? then Station(name, detail) else CarrierDaily(name, detail)
    }

    /** `system:*:stations` or `carrier:*:days`. */
    function LivePattern(): string { Space() + "*" + Suffix() }

    predicate Selects(key: string) { Glob.Match(Utf8(LivePattern()), Utf8(key)) }
  }

  /** The names a scan of `keys` yields. */
  ghost function NamesIn(kind: IndexKind, keys: set<string>): set<string> {
    set key | key in keys && kind.Selects(key) && ExtractName(key).Some? :: ExtractName(key).value
  }

  predicate NoMeta(s: string) { forall i :: 0 <= i < |s| ==> !IsMetaChar(s[i]) }

  lemma {:induction false} NoMetaEscapes(s: string)
    requires NoMeta(s)
    ensures Escaped(s) == s
  {
    if s != "" {
      NoMetaEscapes(s[1..]);
    }
  }

  lemma PlainIsQuoted(s: string)
    requires NoMeta(s)
    ensures Utf8(s) == Glob.Quoted(Utf8(s))
  {
    NoMetaEscapes(s);
    EscapedBytes(s);
  }

  lemma StarBytes(a: string, b: string)
    ensures Utf8(a + "*" + b) == Utf8(a) + ([Glob.STAR] + Utf8(b))
  {
    assert a + "*" + b == a + ("*" + b);
    Utf8Concat(a, "*" + b);
    Utf8Concat("*", b);
    assert Utf8("*") == [Glob.STAR];
  }

  lemma PlainAroundStar(a: string, b: string, key: string)
    requires NoMeta(a) && NoMeta(b)
    ensures Glob.Match(Utf8(a + "*" + b), Utf8(key)) == Glob.Surrounds(Utf8(a), Utf8(b), Utf8(key))
  {
    PlainIsQuoted(a);
    PlainIsQuoted(b);
    StarBytes(a, b);
    Glob.QuotedAroundStar(Utf8(a), Utf8(b), Utf8(key));
  }

  lemma SelectsBytes(kind: IndexKind, key: string)
    ensures kind.Selects(key) == Glob.Surrounds(Utf8(kind.Space()), Utf8(kind.Suffix()), Utf8(key))
  {
    PlainAroundStar(kind.Space(), kind.Suffix(), key);
  }

  /** A data key is selected by the scan. */
  lemma DataKeyIsSelected(kind: IndexKind, name: string)
    ensures kind.Selects(kind.DataKey(name))
  {
    SelectsBytes(kind, kind.DataKey(name));
    var a, b := kind.Space(), kind.Suffix();
    assert kind.DataKey(name) == a + (name + b);
    Utf8Concat(a, name + b);
    Utf8Concat(name, b);
    var bytes := Utf8(kind.DataKey(name));
    assert bytes == Utf8(a) + Utf8(name) + Utf8(b);
    assert bytes[|bytes| - |Utf8(b)|..] == Utf8(b);
  }

  lemma SelectedKeyIsInSpace(kind: IndexKind, key: string)
    requires kind.Selects(key)
    ensures kind.Space() <= key
  {
    SelectsBytes(kind, key);
    Utf8Prefix(kind.Space(), key);
  }

  /** A colon-free name is read back from its data key. */
  lemma DataKeyYieldsName(kind: IndexKind, name: string, keys: set<string>)
    requires ':' !in name && kind.DataKey(name) in keys
    ensures name in NamesIn(kind, keys)
  {
    DataKeyIsSelected(kind, name);
    ExtractNameRoundTrip(name);
  }

  /** A live name is among the names of a scan exactly when it has no colon: a pass drops every
      other name from the index, however live its keys are. */
  lemma LiveNameIsFoundExactly(kind: IndexKind, name: string, keys: set<string>)
    requires kind.DataKey(name) in keys
    ensures name in NamesIn(kind, keys) <==> ':' !in name
  {
    if ':' !in name {
      DataKeyYieldsName(kind, name, keys);
    }
  }

  lemma NamesInOne(kind: IndexKind, key: string, name: string)
    requires kind.Selects(key) && ExtractName(key) == Some(name)
    ensures NamesIn(kind, {key}) == {name}
  {}

  lemma Regroup(space: string, a: string, b: string, tail: string)
    ensures Compose(space, a + ":" + b, tail) == Compose(space, a, b + ":" + tail)
  {
    assert a + ":" + b + ":" + tail == a + ":" + (b + ":" + tail);
  }

  lemma ExtractBeforeColon(kind: IndexKind, a: string, b: string)
    requires ':' !in a
    ensures ExtractName(kind.DataKey(a + ":" + b)) == Some(a)
  {
    KeysCompose(a + ":" + b, "");
    if kind.Systems? {
      Regroup("system:", a, b, "stations");
      assert "system" + ":" == "system:";
      ExtractFromComposed("system", a, b + ":" + "stations");
    } else {
      Regroup("carrier:", a, b, "days");
      assert "carrier" + ":" == "carrier:";
      ExtractFromComposed("carrier", a, b + ":" + "days");
    }
  }

  /** Of a name with a colon a pass keeps only what comes before it: the live system `A:B` is dropped,
      and a system `A` that nobody docked at is indexed. */
  lemma ColonNameIsMistaken(kind: IndexKind, a: string, b: string)
    requires ':' !in a
    ensures NamesIn(kind, {kind.DataKey(a + ":" + b)}) == {a}
  {
    DataKeyIsSelected(kind, a + ":" + b);
    ExtractBeforeColon(kind, a, b);
    NamesInOne(kind, kind.DataKey(a + ":" + b), a);
  }

  lemma ColonExample()
    ensures NamesIn(Systems, {Systems.DataKey("A:B")}) == {"A"}
  {
    assert "A" + ":" + "B" == "A:B";
    ColonNameIsMistaken(Systems, "A", "B");
  }

  /** A key that a writer makes for this name. */
  ghost predicate BelongsTo(kind: IndexKind, key: string, name: string) {
    key == kind.DataKey(name) || exists detail: string :: key == kind.DetailKey(name, detail)
  }

  ghost predicate HasOwner(kind: IndexKind, keys: set<string>, key: string) {
    exists name: string :: ':' !in name && kind.DataKey(name) in keys && BelongsTo(kind, key, name)
  }

  /** A keyspace the writers made from colon-free names, in which no detail outlives its set. */
  ghost predicate Owned(kind: IndexKind, keys: set<string>) {
    forall key :: key in keys && kind.Space() <= key ==> HasOwner(kind, keys, key)
  }

  lemma ExtractsOwner(kind: IndexKind, key: string, name: string)
    requires ':' !in name && BelongsTo(kind, key, name)
    ensures ExtractName(key) == Some(name)
  {
    ExtractNameRoundTrip(name);
    if key != kind.DataKey(name) {
      var detail: string :| key == kind.DetailKey(name, detail);
      ExtractNameOfDetail(name, detail);
    }
  }

  lemma NameIsLive(kind: IndexKind, keys: set<string>, name: string)
    requires Owned(kind, keys)
    ensures name in NamesIn(kind, keys) <==> ':' !in name && kind.DataKey(name) in keys
  {
    if ':' !in name && kind.DataKey(name) in keys {
      DataKeyYieldsName(kind, name, keys);
    }
    if name in NamesIn(kind, keys) {
      var key :| key in keys && kind.Selects(key) && ExtractName(key) == Some(name);
      SelectedKeyIsInSpace(kind, key);
      assert HasOwner(kind, keys, key);
      var owner: string :| ':' !in owner && kind.DataKey(owner) in keys && BelongsTo(kind, key, owner);
      ExtractsOwner(kind, key, owner);
    }
  }

  /** In such a keyspace the scan yields exactly the names whose data key exists. */
  lemma NamesAreLive(kind: IndexKind, keys: set<string>)
    requires Owned(kind, keys)
    ensures forall name: string :: name in NamesIn(kind, keys) <==> ':' !in name && kind.DataKey(name) in keys
  {
    forall name: string
      ensures name in NamesIn(kind, keys) <==> ':' !in name && kind.DataKey(name) in keys
    {
      NameIsLive(kind, keys, name);
    }
  }

  // ---- what else happens on the server --------------------------------------------------

  /** A write batch creates data keys and indexes a name, and data keys expire.  Nothing but a
      rebuild takes a name out of an index. */
  datatype Activity = KeyCreated(key: string) | KeyExpired(key: string) | NameIndexed(name: string)

  function Indexed(activity: seq<Activity>): set<string> {
    set i | 0 <= i < |activity| && activity[i].NameIndexed? :: activity[i].name
  }

  function Created(activity: seq<Activity>): set<string> {
    set i | 0 <= i < |activity| && activity[i].KeyCreated? :: activity[i].key
  }

  function KeysAfterOne(keys: set<string>, a: Activity): set<string> {
    match a
    case KeyCreated(key) => keys + {key}
    case KeyExpired(key) => keys - {key}
    case NameIndexed(_) => keys
  }

  function KeysAfter(keys: set<string>, activity: seq<Activity>): set<string> {
    if activity == [] then keys else KeysAfterOne(KeysAfter(keys, activity[..|activity| - 1]), activity[|activity| - 1])
  }

  /** The keys that are there from beginning to end. */
  function Throughout(keys: set<string>, activity: seq<Activity>): set<string> {
    set key | key in keys && KeyExpired(key) !in activity
  }

  /** Those are the keys that exist at every moment. */
  lemma {:induction false} ThroughoutMeaning(keys: set<string>, activity: seq<Activity>, key: string)
    ensures key in Throughout(keys, activity) <==> forall i :: 0 <= i <= |activity| ==> key in KeysAfter(keys, activity[..i])
  {
    assert activity[..|activity|] == activity;
    if activity == [] {
      assert key in keys <==> key in KeysAfter(keys, activity[..0]);
    } else {
      var front := activity[..|activity| - 1];
      ThroughoutMeaning(keys, front, key);
      assert activity == front + [activity[|activity| - 1]];
      assert forall i :: 0 <= i <= |front| ==> activity[..i] == front[..i];
      KeysBounds(keys, activity);
    }
  }

  lemma IndexedConcat(a: seq<Activity>, b: seq<Activity>)
    ensures Indexed(a + b) == Indexed(a) + Indexed(b) && Created(a + b) == Created(a) + Created(b)
  {
    forall name | name in Indexed(a) + Indexed(b)
      ensures name in Indexed(a + b)
    {
      var c: seq<Activity> :| (c == a || c == b) && name in Indexed(c);
      var i :| 0 <= i < |c| && c[i].NameIndexed? && c[i].name == name;
      assert (a + b)[if c == a then i else |a| + i] == c[i];
    }
    forall key | key in Created(a) + Created(b)
      ensures key in Created(a + b)
    {
      var c: seq<Activity> :| (c == a || c == b) && key in Created(c);
      var i :| 0 <= i < |c| && c[i].KeyCreated? && c[i].key == key;
      assert (a + b)[if c == a then i else |a| + i] == c[i];
    }
  }

  lemma {:induction false} KeysConcat(keys: set<string>, a: seq<Activity>, b: seq<Activity>)
    ensures KeysAfter(keys, a + b) == KeysAfter(KeysAfter(keys, a), b)
    decreases |b|
  {
    if b == [] {
      assert a + b == a;
    } else {
      assert (a + b)[..|a + b| - 1] == a + b[..|b| - 1];
      KeysConcat(keys, a, b[..|b| - 1]);
    }
  }

  lemma {:induction false} KeysBounds(keys: set<string>, activity: seq<Activity>)
    ensures Throughout(keys, activity) <= KeysAfter(keys, activity) <= keys + Created(activity)
  {
    if activity != [] {
      var front, last := activity[..|activity| - 1], activity[|activity| - 1];
      KeysBounds(keys, front);
      assert activity == front + [last];
      IndexedConcat(front, [last]);
      assert last.KeyCreated? ==> [last][0].key in Created([last]);
    }
  }

  datatype RebuildResult = RebuildResult(added: nat, removed: nat, total: nat)

  class Server {
    var keys: set<string>
    var index: set<string>

    constructor (keys: set<string>, index: set<string>)
      ensures this.keys == keys && this.index == index
    {
      this.keys, this.index := keys, index;
    }

    method Happens(a: Activity)
      modifies this
      ensures keys == KeysAfterOne(old(keys), a) && index == old(index) + Indexed([a])
    {
      keys := KeysAfterOne(keys, a);
      if a.NameIndexed? {
        assert [a][0].name in Indexed([a]);
        index := index + {a.name};
      }
    }

    /** Time passes, and the activity with it. */
    method Pass(activity: seq<Activity>)
      modifies this
      ensures keys == KeysAfter(old(keys), activity) && index == old(index) + Indexed(activity)
    {
      for i := 0 to |activity|
        invariant keys == KeysAfter(old(keys), activity[..i]) && index == old(index) + Indexed(activity[..i])
      {
        assert activity[..i + 1] == activity[..i] + [activity[i]] && activity[..i + 1][..i] == activity[..i];
        IndexedConcat(activity[..i], [activity[i]]);
        Happens(activity[i]);
      }
      assert activity[..|activity|] == activity;
    }

    /** ZSCAN: members present throughout are returned, members present at no time are not. */
    method ScanIndex(activity: seq<Activity>) returns (names: set<string>)
      modifies this
      ensures keys == KeysAfter(old(keys), activity) && index == old(index) + Indexed(activity)
      ensures old(index) <= names <= index
    {
      var present := index;
      Pass(activity);
      names :| present <= names <= index;
    }

    /** SCAN, page by page: keys present throughout are returned, and only keys that were
        present when their page was read. */
    method ScanKeys(activity: seq<Activity>) returns (found: set<string>)
      modifies this
      ensures keys == KeysAfter(old(keys), activity) && index == old(index) + Indexed(activity)
      ensures Throughout(old(keys), activity) <= found <= old(keys) + Created(activity)
    {
      var page: set<string> :| page <= keys;
      var throughout := keys;
      found := page;
      for i := 0 to |activity|
        invariant keys == KeysAfter(old(keys), activity[..i]) && index == old(index) + Indexed(activity[..i])
        invariant found <= old(keys) + Created(activity[..i])
        invariant Throughout(old(keys), activity[..i]) <= throughout <= old(keys)
      {
        assert activity[..i + 1] == activity[..i] + [activity[i]] && activity[..i + 1][..i] == activity[..i];
        IndexedConcat(activity[..i], [activity[i]]);
        KeysBounds(old(keys), activity[..i + 1]);
        Happens(activity[i]);
        page :| page <= keys;
        found, throughout := found + page, throughout * keys;
      }
      assert activity[..|activity|] == activity;
      found := found + throughout;
    }

    method Add(names: set<string>)
      modifies this`index
      ensures index == old(index) + names
    {
      index := index + names;
    }

    method Remove(names: set<string>)
      modifies this`index
      ensures index == old(index) - names
    {
      index := index - names;
    }
  }

  /** Up to a chunk's worth of names. */
  method NextChunk(names: set<string>) returns (chunk: set<string>)
    ensures chunk <= names && |chunk| <= WRITE_CHUNK_SIZE
    ensures names != {} ==> chunk != {}
  {
    chunk := {};
    var rest := names;
    while rest != {} && |chunk| < WRITE_CHUNK_SIZE
      invariant chunk + rest == names && chunk !! rest
      invariant |chunk| <= WRITE_CHUNK_SIZE
      invariant names != {} && chunk == {} ==> rest != {}
      decreases rest
    {
      var name :| name in rest;
      chunk, rest := chunk + {name}, rest - {name};
    }
  }

  /** The name a scanned key stands for, if the pattern matches it. */
  function NameOf(kind: IndexKind, key: string): Option<string> {
    if kind.Selects(key) then ExtractName(key) else None
  }

  function SetOf(name: Option<string>): set<string> { if name.Some? then {name.value} else {} }

  /** The names of the scanned keys. */
  method LiveNames(kind: IndexKind, found: set<string>) returns (live: set<string>)
    ensures live == NamesIn(kind, found)
  {
    live := {};
    var todo := found;
    ghost var done: set<string> := {};
    while todo != {}
      invariant done + todo == found && live == NamesIn(kind, done)
      decreases todo
    {
      var key :| key in todo;
      NamesInInsert(kind, done, key);
      done, todo := done + {key}, todo - {key};
      live := live + SetOf(NameOf(kind, key));
    }
    assert done == found;
  }

  lemma NamesInInsert(kind: IndexKind, keys: set<string>, key: string)
    ensures NamesIn(kind, keys + {key}) == NamesIn(kind, keys) + SetOf(NameOf(kind, key))
  {}

  lemma NamesInGrows(kind: IndexKind, keys: set<string>, more: set<string>)
    requires keys <= more
    ensures NamesIn(kind, keys) <= NamesIn(kind, more)
  {}

  /** The ZADD loop, with the activity coming in before, between and after its chunks. */
  method AddInChunks(server: Server, names: set<string>, activity: seq<Activity>)
    modifies server
    ensures server.keys == KeysAfter(old(server.keys), activity)
    ensures server.index == old(server.index) + names + Indexed(activity)
  {
    var pending := names;
    var i := 0;
    assert activity[..0] == [];
    while pending != {}
      invariant pending <= names && 0 <= i <= |activity|
      invariant server.keys == KeysAfter(old(server.keys), activity[..i])
      invariant server.index == old(server.index) + (names - pending) + Indexed(activity[..i])
      decreases pending
    {
      i := PassSome(server, activity, i, old(server.keys));
      var chunk := NextChunk(pending);
      server.Add(chunk);
      pending := pending - chunk;
    }
    PassRest(server, activity, i, old(server.keys));
  }

  /** Some of the activity. */
  method PassSome(server: Server, activity: seq<Activity>, i: nat, ghost start: set<string>) returns (n: nat)
    requires i <= |activity| && server.keys == KeysAfter(start, activity[..i])
    modifies server
    ensures i <= n <= |activity| && server.keys == KeysAfter(start, activity[..n])
    ensures server.index == old(server.index) + Indexed(activity[i..n]) && Indexed(activity[..n]) == Indexed(activity[..i]) + Indexed(activity[i..n])
  {
    n :| i <= n <= |activity|;
    assert activity[..n] == activity[..i] + activity[i..n];
    KeysConcat(start, activity[..i], activity[i..n]);
    IndexedConcat(activity[..i], activity[i..n]);
    server.Pass(activity[i..n]);
  }

  method PassRest(server: Server, activity: seq<Activity>, i: nat, ghost start: set<string>)
    requires i <= |activity| && server.keys == KeysAfter(start, activity[..i])
    modifies server
    ensures server.keys == KeysAfter(start, activity)
    ensures server.index == old(server.index) + Indexed(activity[i..]) && Indexed(activity) == Indexed(activity[..i]) + Indexed(activity[i..])
  {
    assert activity == activity[..i] + activity[i..];
    KeysConcat(start, activity[..i], activity[i..]);
    IndexedConcat(activity[..i], activity[i..]);
    server.Pass(activity[i..]);
  }

  /** The ZREM loop.  A removed name can be back at the end only if it was indexed meanwhile. */
  method RemoveInChunks(server: Server, names: set<string>, activity: seq<Activity>)
    modifies server
    ensures server.keys == KeysAfter(old(server.keys), activity)
    ensures old(server.index) + Indexed(activity) - names <= server.index <= old(server.index) + Indexed(activity)
    ensures server.index * names <= Indexed(activity)
  {
    var pending := names;
    var i := 0;
    assert activity[..0] == [];
    while pending != {}
      invariant pending <= names && 0 <= i <= |activity|
      invariant server.keys == KeysAfter(old(server.keys), activity[..i])
      invariant old(server.index) + Indexed(activity[..i]) - names <= server.index <= old(server.index) + Indexed(activity[..i])
      invariant server.index * (names - pending) <= Indexed(activity[..i])
      decreases pending
    {
      i := PassSome(server, activity, i, old(server.keys));
      var chunk := NextChunk(pending);
      server.Remove(chunk);
      pending := pending - chunk;
    }
    PassRest(server, activity, i, old(server.keys));
  }

  /** The write half of a pass: the difference of snapshot and live names, in chunks. */
  method WriteDifference(server: Server, indexed: set<string>, live: set<string>, activity: seq<Activity>)
    returns (result: RebuildResult)
    requires indexed <= server.index
    modifies server
    ensures server.keys == KeysAfter(old(server.keys), activity)
    // Live names are there, and so is everything else that was not a stale name of the snapshot.
    ensures live <= server.index && old(server.index) + Indexed(activity) - (indexed - live) <= server.index
    // Nothing else is, and a stale name only if a writer put it back.
    ensures server.index <= old(server.index) + live + Indexed(activity)
    ensures server.index * (indexed - live) <= Indexed(activity)
    ensures result == RebuildResult(|live - indexed|, |indexed - live|, |live|)
  {
    var toAdd, toRemove := live - indexed, indexed - live;
    var n: nat :| n <= |activity|;
    assert activity == activity[..n] + activity[n..];
    KeysConcat(server.keys, activity[..n], activity[n..]);
    IndexedConcat(activity[..n], activity[n..]);
    AddInChunks(server, toAdd, activity[..n]);
    RemoveInChunks(server, toRemove, activity[n..]);
    result := RebuildResult(|toAdd|, |toRemove|, |live|);
  }

  /** What a pass leaves in the index, with `before`, `during` and `after` going on while it takes its
      snapshot, scans the keys, and writes. */
  ghost predicate Rebuilt(kind: IndexKind, keys: set<string>, index: set<string>, before: seq<Activity>, during: seq<Activity>,
                          after: seq<Activity>, index': set<string>)
  {
    var everKeys := keys + Created(before) + Created(during);
    // A colon-free name whose data key was there from beginning to end is indexed.
    && (forall name: string :: ':' !in name && kind.DataKey(name) in Throughout(keys, before + during + after) ==> name in index')
    // A name first indexed once the keys are being scanned stays indexed.
    && Indexed(during) + Indexed(after) - (index + Indexed(before)) <= index'
    // A name that was indexed and has no live key at any time goes, unless a writer puts it back.
    && (index - NamesIn(kind, everKeys)) * index' <= Indexed(after)
    // And no name comes from nowhere.
    && index' <= index + Indexed(before) + Indexed(during) + Indexed(after) + NamesIn(kind, everKeys)
  }

  /** One pass: snapshot, scan, difference, chunked writes. */
  method Rebuild(server: Server, kind: IndexKind, before: seq<Activity>, during: seq<Activity>, after: seq<Activity>)
    returns (result: RebuildResult)
    modifies server
    ensures server.keys == KeysAfter(old(server.keys), before + during + after)
    ensures Rebuilt(kind, old(server.keys), old(server.index), before, during, after, server.index)
    // Left alone, the pass makes the index equal to the live names and counts its changes.
    ensures before + during + after == [] ==>
      && server.index == NamesIn(kind, server.keys)
      && result == RebuildResult(|server.index - old(server.index)|, |old(server.index) - server.index|, |server.index|)
  {
    var indexed := server.ScanIndex(before);
    var found := server.ScanKeys(during);
    var live := LiveNames(kind, found);
    result := WriteDifference(server, indexed, live, after);
    KeysConcat(old(server.keys), before, during);
    KeysConcat(old(server.keys), before + during, after);
    PassIsRebuilt(kind, old(server.keys), old(server.index), before, during, after, indexed, found, server.index);
  }

  lemma PassIsRebuilt(kind: IndexKind, keys: set<string>, index: set<string>, before: seq<Activity>, during: seq<Activity>,
                      after: seq<Activity>, indexed: set<string>, found: set<string>, index': set<string>)
    requires index <= indexed <= index + Indexed(before)
    requires Throughout(KeysAfter(keys, before), during) <= found <= KeysAfter(keys, before) + Created(during)
    requires NamesIn(kind, found) <= index'
    requires index + Indexed(before) + Indexed(during) + Indexed(after) - (indexed - NamesIn(kind, found)) <= index'
    requires index' <= index + Indexed(before) + Indexed(during) + NamesIn(kind, found) + Indexed(after)
    requires index' * (indexed - NamesIn(kind, found)) <= Indexed(after)
    ensures Rebuilt(kind, keys, index, before, during, after, index')
    ensures before + during + after == [] ==> index' == NamesIn(kind, keys) && indexed == index && found == keys
  {
    SteadyKeysFound(keys, before, during, after, found);
    KeysBounds(keys, before);
    NamesInGrows(kind, found, keys + Created(before) + Created(during));
    SteadyNamesIndexed(kind, keys, before + during + after, found, index');
  }

  lemma SteadyKeysFound(keys: set<string>, before: seq<Activity>, during: seq<Activity>, after: seq<Activity>, found: set<string>)
    requires Throughout(KeysAfter(keys, before), during) <= found
    ensures Throughout(keys, before + during + after) <= found
  {
    KeysBounds(keys, before);
  }

  lemma SteadyNamesIndexed(kind: IndexKind, keys: set<string>, activity: seq<Activity>, found: set<string>, index: set<string>)
    requires Throughout(keys, activity) <= found && NamesIn(kind, found) <= index
    ensures forall name: string :: ':' !in name && kind.DataKey(name) in Throughout(keys, activity) ==> name in index
  {
    forall name: string | ':' !in name && kind.DataKey(name) in Throughout(keys, activity)
      ensures name in index
    {
      DataKeyYieldsName(kind, name, found);
    }
  }

  /** With nothing else running, a second pass finds nothing to do. */
  method RebuildTwice(server: Server, kind: IndexKind) returns (second: RebuildResult)
    modifies server
    ensures server.keys == old(server.keys) && server.index == NamesIn(kind, server.keys)
    ensures second.added == 0 && second.removed == 0 && second.total == |server.index|
  {
    second := Rebuild(server, kind, [], [], []);
    assert server.index - server.index == {};
    second := Rebuild(server, kind, [], [], []);
  }
}
