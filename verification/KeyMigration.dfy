/** The key migration script, redis_key_fixer.py: every system key is renamed to the form with
    an upper-cased system name, unless something already lives there. */
module KeyMigration {
  import opened Text
  import opened RedisKeys
  import opened Wrappers

  // ---- parsing --------------------------------------------------------------------------

  datatype Parsed = Parsed(system: string, suffix: string)

  const SEPARATOR := ":station:"

  /** A `$` in a Python pattern also matches before one final newline. */
  function Chomp(s: string): string {
    if s != "" && s[|s| - 1] == '\n' then s[..|s| - 1] else s
  }

  /** The separator stands at `p` with text after it. */
  predicate SplitsAt(body: string, p: nat) { p + |SEPARATOR| < |body| && OccursAt(SEPARATOR, body, p) }

  /** The first place at or after `from` where the separator stands with text after it: where
      the lazy group of the first pattern ends. */
  function FindSeparator(body: string, from: nat): (r: Option<nat>)
    ensures r.Some? ==> from <= r.value && SplitsAt(body, r.value)
    decreases |body| - from
  {
    if from >= |body| then None
    else if SplitsAt(body, from) then Some(from)
    else FindSeparator(body, from + 1)
  }

  /** The two patterns on what follows "system:", the station one first. */
  function ParseBody(body: string): Option<Parsed> {
    var p := FindSeparator(body, 1);
    if p.Some? then Some(Parsed(body[..p.value], body[p.value + 1..]))
    else if |body| > 9 && body[|body| - 9..] == ":stations" then Some(Parsed(body[..|body| - 9], "stations"))
    else None
  }

  /** `parse_key`.  A dot matches no newline. */
  function ParseKey(key: string): Option<Parsed> {
    if !("system:" <= key) then None
    else
      var body := Chomp(key[7..]);
      if '\n' in body then None else ParseBody(body)
  }

  function NormalizedKey(parsed: Parsed): string {
    "system:" + NormalizeSystem(parsed.system) + ":" + parsed.suffix
  }

  /** The key a key is moved to, if it parses. */
  function Target(key: string): Option<string> {
    var parsed := ParseKey(key);
    if parsed.None? then None else Some(NormalizedKey(parsed.value))
  }

  // ---- normalizing twice is normalizing once --------------------------------------------

  lemma {:induction false} UpperKeepsNewlineFree(s: string)
    requires '\n' !in s
    ensures '\n' !in NormalizeSystem(s)
  {
    if s != "" {
      UpperKeepsNewlineFree(s[1..]);
    }
  }

  lemma NoSplitAtEnd(body: string, p: nat)
    requires p >= |body|
    ensures !SplitsAt(body, p)
  {}

  /** The search finds the first place, or there is none. */
  lemma {:induction false} FindsFirst(body: string, from: nat)
    ensures var r := FindSeparator(body, from);
      forall p: nat :: from <= p && (r.Some? ==> p < r.value) ==> !SplitsAt(body, p)
    decreases |body| - from
  {
    if from < |body| && !SplitsAt(body, from) {
      FindsFirst(body, from + 1);
    }
    forall p: nat | from >= |body| && from <= p
      ensures !SplitsAt(body, p)
    {
      NoSplitAtEnd(body, p);
    }
  }

  /** An upper-cased name holds no part of the separator but its leading colon. */
  lemma NoSeparatorInName(name: string, rest: string, p: nat)
    requires NoLower(name) && p < |name|
    ensures !OccursAt(SEPARATOR, name + ":" + rest, p)
  {
    var body := name + ":" + rest;
    assert !IsLower(body[p + 1]) && SEPARATOR[1] == 's';
    assert p <= |body| && body[p..][1] == body[p + 1];
  }

  lemma ParsedShape(key: string, parsed: Parsed)
    requires ParseKey(key) == Some(parsed)
    ensures parsed.system != "" && '\n' !in parsed.system && '\n' !in parsed.suffix
    ensures parsed.suffix == "stations" || (|parsed.suffix| > 8 && parsed.suffix[..8] == "station:")
  {
    var body := Chomp(key[7..]);
    var p := FindSeparator(body, 1);
    if p.Some? {
      SuffixOfSplit(body, p.value);
    }
  }

  lemma SuffixOfSplit(body: string, p: nat)
    requires SplitsAt(body, p)
    ensures |body[p + 1..]| > 8 && body[p + 1..][..8] == "station:"
  {
    var tail := body[p..];
    assert tail[..9] == SEPARATOR;
    assert body[p + 1..][..8] == tail[..9][1..];
  }

  /** The key of a station set is recognized unless its name looks like a station's key. */
  lemma ParseStationsBody(name: string)
    requires name != "" && forall p: nat :: 1 <= p < |name| ==> !SplitsAt(name + ":" + "stations", p)
    ensures ParseBody(name + ":" + "stations") == Some(Parsed(name, "stations"))
  {
    var body := name + ":" + "stations";
    FindsFirst(body, 1);
    assert FindSeparator(body, 1).None?;
    assert body[|body| - 9..] == ":stations" && body[..|body| - 9] == name;
  }

  /** The key of a station is split where the separator first stands. */
  lemma ParseStationBody(name: string, rest: string)
    requires name != "" && rest != "" && forall p: nat :: 1 <= p < |name| ==> !SplitsAt(name + ":" + ("station:" + rest), p)
    ensures ParseBody(name + ":" + ("station:" + rest)) == Some(Parsed(name, "station:" + rest))
  {
    var body := name + ":" + ("station:" + rest);
    SplitsAfterName(name, rest);
    ParseAtFirst(body, |name|);
    StationBodyParts(name, "station:" + rest);
  }

  lemma ParseAtFirst(body: string, n: nat)
    requires n >= 1 && SplitsAt(body, n) && forall p: nat :: 1 <= p < n ==> !SplitsAt(body, p)
    ensures ParseBody(body) == Some(Parsed(body[..n], body[n + 1..]))
  {
    FindsFirst(body, 1);
  }

  lemma StationBodyParts(name: string, tail: string)
    ensures (name + ":" + tail)[..|name|] == name && (name + ":" + tail)[|name| + 1..] == tail
  {}

  lemma SplitsAfterName(name: string, rest: string)
    requires rest != ""
    ensures SplitsAt(name + ":" + ("station:" + rest), |name|)
  {
    var body := name + ":" + ("station:" + rest);
    assert body[|name|..] == SEPARATOR + rest;
  }

  lemma KeyOfBody(name: string, suffix: string)
    requires '\n' !in name && '\n' !in suffix && suffix != ""
    ensures ParseKey("system:" + name + ":" + suffix) == ParseBody(name + ":" + suffix)
  {
    var body := name + ":" + suffix;
    var key := "system:" + name + ":" + suffix;
    assert key == "system:" + body && key[7..] == body;
    assert body[|body| - 1] == suffix[|suffix| - 1];
    assert Chomp(body) == body && '\n' !in body;
  }

  /** A normalized key parses into the same suffix and an already upper-cased name. */
  lemma NormalizedParses(parsed: Parsed)
    requires parsed.system != "" && '\n' !in parsed.system && '\n' !in parsed.suffix
    requires parsed.suffix == "stations" || (|parsed.suffix| > 8 && parsed.suffix[..8] == "station:")
    ensures ParseKey(NormalizedKey(parsed)) == Some(Parsed(NormalizeSystem(parsed.system), parsed.suffix))
  {
    UpperKeepsNewlineFree(parsed.system);
    BodyParses(NormalizeSystem(parsed.system), parsed.suffix);
    KeyOfBody(NormalizeSystem(parsed.system), parsed.suffix);
  }

  lemma BodyParses(name: string, suffix: string)
    requires NoLower(name) && name != ""
    requires suffix == "stations" || (|suffix| > 8 && suffix[..8] == "station:")
    ensures ParseBody(name + ":" + suffix) == Some(Parsed(name, suffix))
  {
    forall p: nat | 1 <= p < |name|
      ensures !SplitsAt(name + ":" + suffix, p)
    {
      NoSeparatorInName(name, suffix, p);
    }
    if suffix == "stations" {
      ParseStationsBody(name);
    } else {
      assert suffix == "station:" + suffix[8..];
      ParseStationBody(name, suffix[8..]);
    }
  }

  lemma TargetIsFixed(key: string)
    requires Target(key).Some?
    ensures Target(Target(key).value) == Target(key)
  {
    var parsed := ParseKey(key).value;
    ParsedShape(key, parsed);
    NormalizedParses(parsed);
  }

  // ---- which keys move, and where -------------------------------------------------------

  lemma SetIsSystemKey(name: string)
    ensures SystemStations(name) == "system:" + name + ":" + "stations"
    ensures SystemStations(name) == "system:" + (name + ":stations") && name + ":stations" == name + ":" + "stations"
  {
    assert ":" + "stations" == ":stations";
  }

  /** The key of a system's station set moves to the one under the upper-cased name, unless the name has
      ":station:" in it. */
  lemma StationsMove(name: string)
    requires name != "" && '\n' !in name
    requires forall p: nat :: 1 <= p < |name| ==> !SplitsAt(name + ":" + "stations", p)
    ensures Target(SystemStations(name)) == Some(SystemStations(NormalizeSystem(name)))
  {
    SetIsSystemKey(name);
    KeyOfBody(name, "stations");
    ParseStationsBody(name);
    SetIsSystemKey(NormalizeSystem(name));
  }

  /** The key of a station moves to the one under the upper-cased name of its system, the station's own
      name as it is, when ":station:" first stands after the system's name. */
  lemma StationMoves(name: string, rest: string)
    requires name != "" && '\n' !in name && rest != "" && '\n' !in rest
    requires forall p: nat :: 1 <= p < |name| ==> !SplitsAt(name + ":" + ("station:" + rest), p)
    ensures Target(Station(name, rest)) == Some(Station(NormalizeSystem(name), rest))
  {
    StationIsSystemKey(name, rest);
    KeyOfBody(name, "station:" + rest);
    ParseStationBody(name, rest);
    StationIsSystemKey(NormalizeSystem(name), rest);
  }

  lemma StationIsSystemKey(name: string, rest: string)
    ensures Station(name, rest) == "system:" + name + ":" + ("station:" + rest)
  {}

  /** A key of one of the two forms, with a name, and with a station for the second. */
  ghost predicate IsKeyOf(key: string, name: string, rest: string) {
    name != "" && (key == SystemStations(name) || (rest != "" && key == Station(name, rest)))
  }

  ghost predicate IsSystemKey(key: string) { exists name: string, rest: string :: IsKeyOf(key, name, rest) }

  lemma BodySplits(body: string, p: nat)
    requires SplitsAt(body, p)
    ensures "system:" + body == Station(body[..p], body[p + 9..]) && body[p + 9..] != ""
  {
    assert body[p..][..9] == SEPARATOR;
    assert body == body[..p] + body[p..] && body[p..] == SEPARATOR + body[p + 9..];
  }

  lemma BodyEnds(body: string)
    requires |body| > 9 && body[|body| - 9..] == ":stations"
    ensures "system:" + body == SystemStations(body[..|body| - 9])
  {
    assert body == body[..|body| - 9] + ":stations";
    SetIsSystemKey(body[..|body| - 9]);
  }

  lemma ParsesWhatItIs(body: string)
    requires ParseBody(body).Some?
    ensures IsSystemKey("system:" + body)
  {
    FindsFirst(body, 1);
    var p := FindSeparator(body, 1);
    if p.Some? {
      BodySplits(body, p.value);
      assert IsKeyOf("system:" + body, body[..p.value], body[p.value + 9..]);
    } else {
      BodyEnds(body);
      assert IsKeyOf("system:" + body, body[..|body| - 9], "");
    }
  }

  lemma SplitParses(name: string, rest: string)
    requires name != "" && rest != ""
    ensures ParseBody(name + (SEPARATOR + rest)).Some?
  {
    var body := name + (SEPARATOR + rest);
    FindsFirst(body, 1);
    assert body[|name|..] == SEPARATOR + rest;
    assert SplitsAt(body, |name|);
  }

  lemma EndParses(name: string)
    requires name != ""
    ensures ParseBody(name + ":stations").Some?
  {
    var body := name + ":stations";
    assert body[|body| - 9..] == ":stations";
  }

  lemma StationBody(name: string, rest: string)
    ensures Station(name, rest)[7..] == name + (SEPARATOR + rest)
  {}

  lemma ParsesSystemKeys(key: string)
    requires IsSystemKey(key)
    ensures "system:" <= key && ParseBody(key[7..]).Some?
  {
    var name: string, rest: string :| IsKeyOf(key, name, rest);
    if key == SystemStations(name) {
      SetIsSystemKey(name);
      EndParses(name);
      assert key[7..] == name + ":stations";
    } else {
      StationIsSystemKey(name, rest);
      SplitParses(name, rest);
      StationBody(name, rest);
    }
  }

  /** A key without a newline is moved, or found in place, exactly when it is a system's; any other is an
      error. */
  lemma ParsesExactly(key: string)
    requires '\n' !in key
    ensures Target(key).Some? <==> IsSystemKey(key)
  {
    if "system:" <= key {
      var body := key[7..];
      assert key == "system:" + body && Chomp(body) == body;
      if ParseBody(body).Some? {
        ParsesWhatItIs(body);
      }
    }
    if IsSystemKey(key) {
      ParsesSystemKeys(key);
    }
  }

  /** One newline at the end of a key is lost on the way; a newline anywhere else is an error. */
  lemma NewlinesInKeys(key: string)
    ensures '\n' !in key ==> Target(key + "\n") == Target(key)
    ensures key != "" && '\n' in key[..|key| - 1] ==> Target(key).None?
  {
    if '\n' !in key && "system:" <= key {
      assert (key + "\n")[7..] == key[7..] + "\n" && Chomp(key[7..] + "\n") == key[7..] && Chomp(key[7..]) == key[7..];
    }
    if key != "" && '\n' in key[..|key| - 1] && "system:" <= key {
      var i :| 0 <= i < |key| - 1 && key[i] == '\n';
      assert i >= 7 && key[7..][i - 7] == '\n' && Chomp(key[7..])[i - 7] == '\n';
    }
  }

  // ---- the migration --------------------------------------------------------------------

  /** Where each initial value lives now: under its own key or its normalized one, each under
      a key of its own, and nothing else is in the database. */
  ghost predicate Conserves<V>(initial: map<string, V>, db: map<string, V>, home: map<string, string>) {
    && home.Keys == initial.Keys
    && (forall key :: key in home ==>
          && (home[key] == key || Target(key) == Some(home[key]))
          && home[key] in db && db[home[key]] == initial[key])
    && (forall a, b :: a in home && b in home && home[a] == home[b] ==> a == b)
    && (forall key :: key in db ==> HasOrigin(home, key))
  }

  ghost predicate HasOrigin(home: map<string, string>, key: string) {
    exists origin :: origin in home && home[origin] == key
  }

  lemma ConservesInitially<V>(initial: map<string, V>)
    ensures Conserves(initial, initial, map key | key in initial :: key)
  {
    var home := map key | key in initial :: key;
    assert forall key :: key in initial ==> key in home && home[key] == key;
  }

  /** RENAME onto a free key. */
  function Renamed<V>(db: map<string, V>, key: string, target: string): map<string, V>
    requires key in db
  {
    (db - {key})[target := db[key]]
  }

  lemma RenameConserves<V>(initial: map<string, V>, db: map<string, V>, home: map<string, string>, key: string, target: string)
    returns (home': map<string, string>)
    requires Conserves(initial, db, home)
    requires key in db && target !in db && Target(key) == Some(target)
    ensures Conserves(initial, Renamed(db, key, target), home')
  {
    var origin :| origin in home && home[origin] == key;
    OriginIsItself(home, origin, key, target);
    home' := home[key := target];
    OriginsAfterRename(home, key, target);
  }

  /** A key that still moves has not moved before. */
  lemma OriginIsItself(home: map<string, string>, origin: string, key: string, target: string)
    requires origin in home && home[origin] == key && (key == origin || Target(origin) == Some(key))
    requires Target(key) == Some(target) && key != target
    ensures origin == key
  {
    if Target(origin) == Some(key) {
      TargetIsFixed(origin);
    }
  }

  lemma OriginsAfterRename(home: map<string, string>, key: string, target: string)
    requires key in home && home[key] == key
    ensures HasOrigin(home[key := target], target)
    ensures forall k :: k != key && HasOrigin(home, k) ==> HasOrigin(home[key := target], k)
  {
    var home' := home[key := target];
    assert home'[key] == target;
    forall k | k != key && HasOrigin(home, k)
      ensures HasOrigin(home', k)
    {
      var o :| o in home && home[o] == k;
      assert home'[o] == k;
    }
  }

  // ---- a live run gets everything done --------------------------------------------------

  /** What a step makes of the database when no call fails. */
  function Stepped<V>(db: map<string, V>, key: string, target: Option<string>): map<string, V> {
    if key in db && target.Some? && target.value !in db then Renamed(db, key, target.value) else db
  }

  type Renaming = string -> Option<string>

  ghost predicate Idempotent(f: Renaming) {
    forall key :: f(key).Some? ==> f(f(key).value) == f(key)
  }

  /** A key that has been scanned is still there only if its target is there too, and every key is
      one of the first or needs no move. */
  ghost predicate Settled<V>(f: Renaming, db: map<string, V>, scanned: seq<string>, first: set<string>) {
    && (forall key :: key in db && key in scanned && f(key).Some? ==> f(key).value in db)
    && (forall key :: key in db ==> key in first || f(key) == Some(key))
  }

  lemma SteppedSettles<V>(f: Renaming, db: map<string, V>, scanned: seq<string>, first: set<string>, key: string)
    requires Idempotent(f) && Settled(f, db, scanned, first)
    ensures Settled(f, Stepped(db, key, f(key)), scanned + [key], first)
  {
    var after := Stepped(db, key, f(key));
    assert f(key).Some? ==> f(f(key).value) == f(key);
    forall other | other in after && other in scanned + [key] && f(other).Some?
      ensures f(other).value in after
    {
      assert f(f(other).value) == f(other);
    }
  }

  /** Every key that parses is under its target, or its target is taken. */
  ghost predicate AllMoved<V>(f: Renaming, db: map<string, V>) {
    forall key :: key in db && f(key).Some? ==> f(key).value in db
  }

  lemma SettledIsAllMoved<V>(f: Renaming, db: map<string, V>, scanned: seq<string>, first: set<string>)
    requires Settled(f, db, scanned, first) && forall key :: key in first ==> key in scanned
    ensures AllMoved(f, db)
  {}

  lemma TargetIsIdempotent()
    ensures Idempotent(Target)
  {
    forall key | Target(key).Some?
      ensures Target(Target(key).value) == Target(key)
    {
      TargetIsFixed(key);
    }
  }

  /** Once everything is moved, a value whose normalized key was free and wanted by no other is there. */
  lemma UncontestedHasMoved<V>(initial: map<string, V>, db: map<string, V>, home: map<string, string>, key: string, target: string)
    requires Conserves(initial, db, home) && AllMoved(Target, db)
    requires key in initial && Target(key) == Some(target) && target !in initial
    requires forall other :: other in initial && Target(other) == Some(target) ==> other == key
    ensures target in db && db[target] == initial[key] && key !in db
  {
    if key in db {
      assert HasOrigin(home, key) && HasOrigin(home, target);
      var o :| o in home && home[o] == target;
      assert o == key;
      var p :| p in home && home[p] == key;
      TargetIsFixed(p);
    }
  }

  lemma OnlyKeyMoves<V>(key: string, target: string, v: V, db: map<string, V>, home: map<string, string>)
    requires Conserves(map[key := v], db, home) && AllMoved(Target, db) && Target(key) == Some(target) && key != target
    ensures db == map[target := v]
  {
    UncontestedHasMoved(map[key := v], db, home, key, target);
    forall other | other in db
      ensures other == target
    {
      assert HasOrigin(home, other);
    }
  }

  lemma NoSplitInSol(p: nat)
    requires 1 <= p < 3
    ensures !SplitsAt("Sol" + ":" + "stations", p)
  {
    var body := "Sol" + ":" + "stations";
    assert body[p..][0] == "Sol"[p] && SEPARATOR[0] == ':';
  }

  lemma SolIsUpper()
    ensures NormalizeSystem("Sol") == "SOL" && SystemStations("Sol") != SystemStations("SOL")
  {
    assert SystemStations("Sol")[8] == 'o' && SystemStations("SOL")[8] == 'O';
  }

  /** So a database that holds only the stations of "Sol" ends with them under "SOL". */
  lemma SolMoves<V>(v: V, db: map<string, V>, home: map<string, string>)
    requires Conserves(map[SystemStations("Sol") := v], db, home) && AllMoved(Target, db)
    ensures db == map[SystemStations("SOL") := v]
  {
    forall p: nat | 1 <= p < |"Sol"|
      ensures !SplitsAt("Sol" + ":" + "stations", p)
    {
      NoSplitInSol(p);
    }
    StationsMove("Sol");
    SolIsUpper();
    OnlyKeyMoves(SystemStations("Sol"), SystemStations("SOL"), v, db, home);
  }

  /** The keys of the pages, in order. */
  function Flat(pages: seq<seq<string>>): seq<string> {
    if pages == [] then [] else Flat(pages[..|pages| - 1]) + pages[|pages| - 1]
  }

  class Migration<V(==)> {
    const dryRun: bool
    /** No call fails. */
    const reliable: bool
    var db: map<string, V>
    var processed: nat
    var migrated: nat
    var skipped: nat
    var errors: nat
    ghost const initial: map<string, V>
    ghost var home: map<string, string>

    /** Holds after every key. */
    ghost predicate Valid()
      reads this
    {
      && processed == migrated + skipped + errors
      && Conserves(initial, db, home)
      && (dryRun ==> db == initial)
    }

    constructor (dryRun: bool, reliable: bool, db: map<string, V>)
      ensures Valid() && this.dryRun == dryRun && this.reliable == reliable && this.db == db == initial && processed == 0
    {
      this.dryRun, this.reliable, this.db, this.initial := dryRun, reliable, db, db;
      processed, migrated, skipped, errors := 0, 0, 0, 0;
      home := map key | key in db :: key;
      new;
      ConservesInitially(db);
    }

    /** The database is `before` with `key` renamed to a target that was free. */
    ghost predicate MovedBy(before: map<string, V>, key: string, target: Option<string>)
      reads this
    {
      target.Some? && key in before && target.value !in before && db == Renamed(before, key, target.value)
    }

    /** The key to move a scanned key to; none when it does not parse. */
    method FindTarget(key: string) returns (target: Option<string>)
      ensures target == Target(key)
    {
      var parsed := ParseKey(key);
      if parsed.None? {
        return None;
      }
      ParsedShape(key, parsed.value);
      if parsed.value.system == "" || parsed.value.suffix == "" {
        return None;
      }
      return Some(NormalizedKey(parsed.value));
    }

    method Fails() returns (fails: bool)
      ensures reliable ==> !fails
    {
      fails := *;
      if reliable {
        fails := false;
      }
    }

    /** EXISTS, then RENAME.  Either call may fail, a RENAME before or after it takes effect. */
    method Move(key: string, target: string) returns (ok: bool)
      requires Conserves(initial, db, home) && Target(key) == Some(target)
      modifies this`db, this`home
      ensures Conserves(initial, db, home)
      ensures ok ==> MovedBy(old(db), key, Some(target))
      ensures db == old(db) || MovedBy(old(db), key, Some(target))
      ensures reliable ==> db == Stepped(old(db), key, Some(target))
    {
      var fails := Fails();
      if fails || target in db {
        return false;
      }
      fails := Fails();
      var lost: bool := *;
      if key !in db || (fails && lost) {
        return false;
      }
      home := RenameConserves(initial, db, home, key, target);
      db := Renamed(db, key, target);
      ok := !fails;
    }

    /** What is done with a key once its target is known. */
    method ProcessTarget(key: string, target: Option<string>)
      requires Conserves(initial, db, home) && target == Target(key)
      modifies this`db, this`home, this`migrated, this`skipped, this`errors
      ensures Conserves(initial, db, home)
      ensures migrated + skipped + errors == old(migrated + skipped + errors) + 1
      ensures migrated >= old(migrated) && skipped >= old(skipped) && errors >= old(errors)
      ensures db == old(db) || (!dryRun && MovedBy(old(db), key, target))
      ensures target.None? ==> errors == old(errors) + 1
      ensures target == Some(key) ==> skipped == old(skipped) + 1
      ensures migrated > old(migrated) ==> target.Some? && target != Some(key) && (dryRun || MovedBy(old(db), key, target))
      ensures dryRun && target.Some? && target != Some(key) ==> migrated == old(migrated) + 1
      ensures reliable && !dryRun ==> db == Stepped(old(db), key, target)
    {
      if target.None? {
        errors := errors + 1;
      } else if key == target.value {
        skipped := skipped + 1;
      } else if dryRun {
        migrated := migrated + 1;
      } else {
        var ok := Move(key, target.value);
        if ok {
          migrated := migrated + 1;
        } else {
          errors := errors + 1;
        }
      }
    }

    /** One scanned key: exactly one of the three counters goes up with `processed`. */
    method ProcessKey(key: string)
      requires Valid()
      modifies this
      ensures Valid() && processed == old(processed) + 1
      ensures db == old(db) || (!dryRun && MovedBy(old(db), key, Target(key)))
      ensures Target(key).None? ==> errors == old(errors) + 1
      ensures Target(key) == Some(key) ==> skipped == old(skipped) + 1
      ensures migrated > old(migrated) ==>
        Target(key).Some? && Target(key) != Some(key) && (dryRun || MovedBy(old(db), key, Target(key)))
      ensures dryRun && Target(key).Some? && Target(key) != Some(key) ==> migrated == old(migrated) + 1
      ensures reliable && !dryRun ==> db == Stepped(old(db), key, Target(key))
    {
      processed := processed + 1;
      var target := FindTarget(key);
      ProcessTarget(key, target);
    }

    /** One scanned key, after those already scanned. */
    method MigrateKey(key: string, ghost scanned: seq<string>, ghost first: set<string>)
      requires Valid() && (reliable && !dryRun ==> Settled(Target, db, scanned, first))
      modifies this
      ensures Valid() && processed == old(processed) + 1
      ensures reliable && !dryRun ==> Settled(Target, db, scanned + [key], first)
    {
      TargetIsIdempotent();
      if reliable && !dryRun {
        SteppedSettles(Target, db, scanned, first, key);
      }
      ProcessKey(key);
    }

    /** One page of the scan. */
    method MigratePage(page: seq<string>, ghost scanned: seq<string>, ghost first: set<string>)
      requires Valid() && (reliable && !dryRun ==> Settled(Target, db, scanned, first))
      modifies this
      ensures Valid() && processed == old(processed) + |page|
      ensures reliable && !dryRun ==> Settled(Target, db, scanned + page, first)
    {
      ghost var seen := scanned;
      for k := 0 to |page|
        invariant Valid() && processed == old(processed) + k && seen == scanned + page[..k]
        invariant reliable && !dryRun ==> Settled(Target, db, seen, first)
      {
        MigrateKey(page[k], seen, first);
        seen := seen + [page[k]];
      }
      assert seen == scanned + page;
    }

    /** The SCAN loop: pages of keys in any order, repeats included. */
    method MigrateKeys(pages: seq<seq<string>>)
      requires Valid()
      modifies this
      ensures Valid() && processed == old(processed) + |Flat(pages)|
      ensures dryRun ==> db == old(db)
      // A live run over every key, with no failing call, leaves no key whose target is free.
      ensures reliable && !dryRun && (forall key :: key in old(db) ==> key in Flat(pages)) ==> AllMoved(Target, db)
    {
      assert pages[..0] == [];
      for p := 0 to |pages|
        invariant Valid() && processed == old(processed) + |Flat(pages[..p])|
        invariant reliable && !dryRun ==> Settled(Target, db, Flat(pages[..p]), old(db.Keys))
      {
        assert pages[..p + 1][..p] == pages[..p];
        MigratePage(pages[p], Flat(pages[..p]), old(db.Keys));
      }
      assert pages[..|pages|] == pages;
      if reliable && !dryRun && forall key :: key in old(db) ==> key in Flat(pages) {
        SettledIsAllMoved(Target, db, Flat(pages), old(db.Keys));
      }
    }
  }
}
