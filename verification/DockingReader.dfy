/** Station dockings written by DockingWriter.cs and read back by `GetSystemDockingAsync` in
    EliteEvents.Eddn/Storage/DockingReader.cs, against the log of what was recorded. */
module DockingReader {
  import opened Redis
  import opened RedisKeys
  import opened DockingWriter
  import opened Wrappers
  import Names

  /** One recorded docking.  `system` is normalized; `timestamp` is the gateway's, in seconds;
      `at` is the server's clock, in milliseconds. */
  datatype Docking = Docking(system: string, station: string, kind: string, timestamp: int, at: int)

  type Log = seq<Docking>

  // ---- the log --------------------------------------------------------------------------

  ghost predicate WellFormed(log: Log) {
    && (forall i :: 0 <= i < |log| ==> NoLower(log[i].system))
    && (forall i, j :: 0 <= i < j < |log| ==> log[i].at <= log[j].at)
  }

  function OfSystem(log: Log, system: string): Log {
    if log == [] then [] else
      var rest := OfSystem(log[..|log| - 1], system);
      var d := log[|log| - 1];
      if d.system == system then rest + [d] else rest
  }

  function OfStation(log: Log, system: string, station: string): Log {
    if log == [] then [] else
      var rest := OfStation(log[..|log| - 1], system, station);
      var d := log[|log| - 1];
      if d.system == system && d.station == station then rest + [d] else rest
  }

  function Last(log: Log): Docking
    requires log != []
  {
    log[|log| - 1]
  }

  /** How many of the latest dockings follow one another within thirty days. */
  function RecentRun(log: Log): nat {
    if log == [] then 0
    else if |log| >= 2 && Last(log).at - log[|log| - 2].at <= DATA_EXPIRATION
    then RecentRun(log[..|log| - 1]) + 1
    else 1
  }

  /** The run ends at the last docking, has no gap over thirty days, and is the longest such. */
  lemma {:induction false} RecentRunMeaning(log: Log)
    ensures RecentRun(log) <= |log| && (log != [] ==> RecentRun(log) >= 1)
    ensures forall i :: |log| - RecentRun(log) < i < |log| ==> log[i].at - log[i - 1].at <= DATA_EXPIRATION
    ensures 0 < RecentRun(log) < |log| ==>
      var i := |log| - RecentRun(log); log[i].at - log[i - 1].at > DATA_EXPIRATION
  {
    if |log| >= 2 {
      RecentRunMeaning(log[..|log| - 1]);
    }
  }

  lemma OfSystemAppend(log: Log, d: Docking, system: string)
    ensures OfSystem(log + [d], system) == OfSystem(log, system) + (if d.system == system then [d] else [])
  {
    assert (log + [d])[..|log|] == log;
  }

  lemma OfStationAppend(log: Log, d: Docking, system: string, station: string)
    ensures OfStation(log + [d], system, station) ==
            OfStation(log, system, station) + (if d.system == system && d.station == station then [d] else [])
  {
    assert (log + [d])[..|log|] == log;
  }

  lemma {:induction false} OfStationMembers(log: Log, system: string, station: string)
    ensures forall d :: d in OfStation(log, system, station) <==> d in log && d.system == system && d.station == station
  {
    if log != [] {
      OfStationMembers(log[..|log| - 1], system, station);
      assert log == log[..|log| - 1] + [Last(log)];
    }
  }

  // ---- what the store should hold -------------------------------------------------------

  /** The hash of a docked station. */
  function StationEntry(dockings: Log): Entry
    requires dockings != []
  {
    var last := Last(dockings);
    Entry(Hash(map["count" := Number(RecentRun(dockings)), "type" := Label(last.kind),
                   "last_seen" := Number(last.timestamp)]),
          Some(last.at + DATA_EXPIRATION))
  }

  ghost predicate StationAgrees(store: Store, log: Log, system: string, station: string) {
    var dockings := OfStation(log, system, station);
    var key := Station(system, station);
    && (key in store <==> dockings != [])
    && (key in store ==> store[key] == StationEntry(dockings))
  }

  /** `score` is the timestamp of the station's last docking. */
  ghost predicate IsLastTimestamp(log: Log, system: string, station: string, score: int) {
    var own := OfStation(log, system, station);
    own != [] && score == Last(own).timestamp
  }

  /** The station was docked at no more than thirty days before `time`. */
  ghost predicate DockedWithin(log: Log, system: string, station: string, time: int) {
    var own := OfStation(log, system, station);
    own != [] && time <= Last(own).at + DATA_EXPIRATION
  }

  ghost predicate ScoresAgree(scores: map<string, int>, log: Log, system: string, time: int) {
    && (forall station :: station in scores ==> IsLastTimestamp(log, system, station, scores[station]))
    && (forall station :: DockedWithin(log, system, station, time) ==> station in scores)
  }

  /** The station set of a system: every station it names was docked at and carries its last
      timestamp, and it names every station docked at within thirty days of the last write. */
  ghost predicate SystemAgrees(store: Store, log: Log, system: string) {
    var dockings := OfSystem(log, system);
    var key := SystemStations(system);
    && (key in store <==> dockings != [])
    && (key in store ==>
        && store[key].value.ZSet?
        && store[key].deadline == Some(Last(dockings).at + DATA_EXPIRATION)
        && ScoresAgree(store[key].value.scores, log, system, Last(dockings).at))
  }

  ghost predicate Agrees(store: Store, log: Log) {
    && WellFormed(log)
    && (forall system, station :: NoLower(system) ==> StationAgrees(store, log, system, station))
    && (forall system :: NoLower(system) ==> SystemAgrees(store, log, system))
  }

  // ---- one batch ------------------------------------------------------------------------

  lemma {:induction false} ApplyAllFrom(store: Store, now: int, batch: seq<Command>, i: nat)
    requires i < |batch|
    ensures ApplyAll(store, now, batch[i..]) == ApplyAll(Apply(store, now, batch[i]), now, batch[i + 1..])
  {
    assert batch[i..][1..] == batch[i + 1..];
  }

  function VisibleFields(store: Store, now: int, key: string): map<string, Field> {
    var entry := Look(store, now, key);
    if entry.Some? && entry.value.value.Hash? then entry.value.value.fields else map[]
  }

  function VisibleScores(store: Store, now: int, key: string): map<string, int> {
    var entry := Look(store, now, key);
    if entry.Some? && entry.value.value.ZSet? then entry.value.value.scores else map[]
  }

  function DockedHash(fields: map<string, Field>, kind: string, timestamp: int, now: int): Entry {
    Entry(Hash(fields["count" := Number(NumberAt(fields, "count") + 1)]
               + map["type" := Label(kind), "last_seen" := Number(timestamp)]),
          Some(now + DATA_EXPIRATION))
  }

  function DockedSet(scores: map<string, int>, station: string, timestamp: int, now: int): Entry {
    Entry(ZSet(scores[station := timestamp]), Some(now + DATA_EXPIRATION))
  }

  /** The station part of the batch, with the keys kept abstract. */
  lemma HashAfterBatch(store: Store, now: int, k: string, kind: string, timestamp: int)
    requires k in store ==> store[k].value.Hash?
    ensures var s := Apply(Apply(Apply(store, now, HIncr(k, "count")), now,
                       HSet(k, map["type" := Label(kind), "last_seen" := Number(timestamp)])), now,
                       Expire(k, DATA_EXPIRATION));
            k in s && s[k] == DockedHash(VisibleFields(store, now, k), kind, timestamp, now)
  {
    var s1 := Apply(store, now, HIncr(k, "count"));
    var added := map["type" := Label(kind), "last_seen" := Number(timestamp)];
    assert k in s1 && s1[k].value.Hash? && !s1[k].Expired(now);
    var s2 := Apply(s1, now, HSet(k, added));
    assert s2[k] == s1[k].(value := Hash(s1[k].value.fields + added));
    var fields := VisibleFields(store, now, k);
    assert s1[k].value.fields == fields["count" := Number(NumberAt(fields, "count") + 1)];
  }

  lemma SetAfterBatch(store: Store, now: int, z: string, station: string, timestamp: int)
    requires z in store ==> store[z].value.ZSet?
    ensures var s := Apply(Apply(store, now, ZAdd(z, station, timestamp)), now, Expire(z, DATA_EXPIRATION));
            z in s && s[z] == DockedSet(VisibleScores(store, now, z), station, timestamp, now)
  {
    var s1 := Apply(store, now, ZAdd(z, station, timestamp));
    assert z in s1 && s1[z].value == ZSet(VisibleScores(store, now, z)[station := timestamp]) && !s1[z].Expired(now);
  }

  ghost predicate SameElsewhere(store: Store, after: Store, keys: set<string>) {
    forall key :: key !in keys ==>
      (key in after <==> key in store) && (key in store ==> after[key] == store[key])
  }

  function HashPart(k: string, kind: string, timestamp: int): seq<Command> {
    [ HIncr(k, "count"), HSet(k, map["type" := Label(kind), "last_seen" := Number(timestamp)]), Expire(k, DATA_EXPIRATION) ]
  }

  function SetPart(z: string, x: string, member: string, station: string, timestamp: int): seq<Command> {
    [ ZAdd(z, station, timestamp), Expire(z, DATA_EXPIRATION), ZAdd(x, member, 0) ]
  }

  lemma ThreeCommands(store: Store, now: int, b: seq<Command>)
    requires |b| == 3
    ensures ApplyAll(store, now, b) == Apply(Apply(Apply(store, now, b[0]), now, b[1]), now, b[2])
  {
    var s1 := Apply(store, now, b[0]);
    var s2 := Apply(s1, now, b[1]);
    assert b[0..] == b && b[3..] == [];
    ApplyAllFrom(store, now, b, 0);
    ApplyAllFrom(s1, now, b, 1);
    ApplyAllFrom(s2, now, b, 2);
  }

  lemma {:induction false} ApplyBoth(store: Store, now: int, a: seq<Command>, b: seq<Command>)
    ensures ApplyAll(store, now, a + b) == ApplyAll(ApplyAll(store, now, a), now, b)
    decreases |a|
  {
    if a == [] {
      assert a + b == b;
    } else {
      assert (a + b)[0] == a[0] && (a + b)[1..] == a[1..] + b;
      ApplyBoth(Apply(store, now, a[0]), now, a[1..], b);
    }
  }

  lemma HashPartOutcome(store: Store, now: int, k: string, kind: string, timestamp: int)
    requires k in store ==> store[k].value.Hash?
    ensures var s := ApplyAll(store, now, HashPart(k, kind, timestamp));
      k in s && s[k] == DockedHash(VisibleFields(store, now, k), kind, timestamp, now) && SameElsewhere(store, s, {k})
  {
    ThreeCommands(store, now, HashPart(k, kind, timestamp));
    HashAfterBatch(store, now, k, kind, timestamp);
  }

  lemma SetPartOutcome(store: Store, now: int, z: string, x: string, member: string, station: string, timestamp: int)
    requires z != x && (z in store ==> store[z].value.ZSet?)
    ensures var s := ApplyAll(store, now, SetPart(z, x, member, station, timestamp));
      z in s && s[z] == DockedSet(VisibleScores(store, now, z), station, timestamp, now) && SameElsewhere(store, s, {z, x})
  {
    ThreeCommands(store, now, SetPart(z, x, member, station, timestamp));
    SetAfterBatch(store, now, z, station, timestamp);
  }

  /** What the whole batch leaves under its first two keys. */
  lemma BatchOutcome(store: Store, now: int, k: string, z: string, x: string, member: string,
                     station: string, kind: string, timestamp: int)
    requires k != z && k != x && z != x
    requires k in store ==> store[k].value.Hash?
    requires z in store ==> store[z].value.ZSet?
    ensures var after := ApplyAll(store, now, HashPart(k, kind, timestamp) + SetPart(z, x, member, station, timestamp));
      && k in after && after[k] == DockedHash(VisibleFields(store, now, k), kind, timestamp, now)
      && z in after && after[z] == DockedSet(VisibleScores(store, now, z), station, timestamp, now)
      && SameElsewhere(store, after, {k, z, x})
  {
    ApplyBoth(store, now, HashPart(k, kind, timestamp), SetPart(z, x, member, station, timestamp));
    HashPartOutcome(store, now, k, kind, timestamp);
    SetPartOutcome(ApplyAll(store, now, HashPart(k, kind, timestamp)), now, z, x, member, station, timestamp);
  }

  function VisibleCount(store: Store, now: int, key: string): int {
    var entry := Look(store, now, key);
    if entry.Some? && entry.value.value.Counter? then entry.value.value.n else 0
  }

  function VisibleScore(store: Store, now: int, key: string, member: string): int {
    var scores := VisibleScores(store, now, key);
    if member in scores then scores[member] else 0
  }

  function CounterPart(k: string): seq<Command> { [Incr(k), Expire(k, DATA_EXPIRATION)] }

  lemma CounterAfterBatch(store: Store, now: int, k: string)
    requires k in store ==> store[k].value.Counter?
    ensures var s := ApplyAll(store, now, CounterPart(k));
      && k in s && s[k] == Entry(Counter(VisibleCount(store, now, k) + 1), Some(now + DATA_EXPIRATION))
      && SameElsewhere(store, s, {k})
  {
    var b := CounterPart(k);
    var s1 := Apply(store, now, b[0]);
    assert b[0..] == b && b[2..] == [];
    ApplyAllFrom(store, now, b, 0);
    ApplyAllFrom(s1, now, b, 1);
    assert k in s1 && s1[k].value == Counter(VisibleCount(store, now, k) + 1) && !s1[k].Expired(now);
  }

  /** The carrier batch, with the keys kept abstract. */
  lemma CounterAndSet(store: Store, now: int, k: string, z: string, x: string, member: string, date: string, timestamp: int)
    requires k != z && k != x && z != x
    requires (k in store ==> store[k].value.Counter?) && (z in store ==> store[z].value.ZSet?)
    ensures var after := ApplyAll(store, now, CounterPart(k) + SetPart(z, x, member, date, timestamp));
      && k in after && after[k] == Entry(Counter(VisibleCount(store, now, k) + 1), Some(now + DATA_EXPIRATION))
      && z in after && after[z] == DockedSet(VisibleScores(store, now, z), date, timestamp, now)
      && SameElsewhere(store, after, {k, z, x})
  {
    ApplyBoth(store, now, CounterPart(k), SetPart(z, x, member, date, timestamp));
    CounterAfterBatch(store, now, k);
    SetPartOutcome(ApplyAll(store, now, CounterPart(k)), now, z, x, member, date, timestamp);
  }

  /** A carrier's docking counts one more for the day, or starts its count again, puts the day on the
      carrier's set at its time, and keeps both for thirty days; nothing else changes but the index. */
  lemma CarrierBatchOutcome(store: Store, now: int, carrierId: string, date: string, timestamp: int)
    requires var k := CarrierDaily(NormalizeCarrier(carrierId), date); k in store ==> store[k].value.Counter?
    requires var z := CarrierDays(NormalizeCarrier(carrierId)); z in store ==> store[z].value.ZSet?
    ensures var after := ApplyAll(store, now, FleetCarrierBatch(carrierId, date, timestamp));
      var k, z := CarrierDaily(NormalizeCarrier(carrierId), date), CarrierDays(NormalizeCarrier(carrierId));
      && k in after && after[k] == Entry(Counter(VisibleCount(store, now, k) + 1), Some(now + 2_592_000_000))
      && z in after && after[z] == Entry(ZSet(VisibleScores(store, now, z)[date := timestamp]), Some(now + 2_592_000_000))
      && SameElsewhere(store, after, {k, z, CARRIER_INDEX})
  {
    var carrier := NormalizeCarrier(carrierId);
    var k, z := CarrierDaily(carrier, date), CarrierDays(carrier);
    CarrierDailyIsNotCarrierDays(carrier, date, carrier);
    assert CARRIER_INDEX[0] == 'i' && k[0] == 'c' && z[0] == 'c';
    assert FleetCarrierBatch(carrierId, date, timestamp) ==
      CounterPart(k) + SetPart(z, CARRIER_INDEX, carrier, date, timestamp);
    CounterAndSet(store, now, k, z, CARRIER_INDEX, carrier, date, timestamp);
  }

  /** A jump counts one more visit of the system until the end of the week. */
  lemma VisitBatchOutcome(store: Store, now: int, systemName: string, weekEnd: int)
    requires SYSTEM_VISITS in store ==> store[SYSTEM_VISITS].value.ZSet?
    ensures var after := ApplyAll(store, now, SystemVisitBatch(systemName, weekEnd));
      var system := NormalizeSystem(systemName);
      && SYSTEM_VISITS in after && SameElsewhere(store, after, {SYSTEM_VISITS})
      && after[SYSTEM_VISITS].deadline == Some(weekEnd)
      && after[SYSTEM_VISITS].value ==
           ZSet(VisibleScores(store, now, SYSTEM_VISITS)[system := VisibleScore(store, now, SYSTEM_VISITS, system) + 1])
  {
    var b := SystemVisitBatch(systemName, weekEnd);
    var s1 := Apply(store, now, b[0]);
    assert b[0..] == b && b[2..] == [];
    ApplyAllFrom(store, now, b, 0);
    ApplyAllFrom(s1, now, b, 1);
    assert SYSTEM_VISITS in s1 && !s1[SYSTEM_VISITS].Expired(now) && s1[SYSTEM_VISITS].value ==
      ZSet(VisibleScores(store, now, SYSTEM_VISITS)[NormalizeSystem(systemName) := VisibleScore(store, now, SYSTEM_VISITS, NormalizeSystem(systemName)) + 1]);
  }

  // ---- agreement is kept ----------------------------------------------------------------

  lemma {:induction false} LastInOrder(log: Log, system: string, station: string)
    requires WellFormed(log) && OfStation(log, system, station) != []
    ensures OfSystem(log, system) != []
    ensures Last(OfStation(log, system, station)).at <= Last(OfSystem(log, system)).at <= Last(log).at
  {
    var front := log[..|log| - 1];
    if Last(log).system == system {
      OfStationMembers(log, system, station);
      assert Last(OfStation(log, system, station)) in OfStation(log, system, station);
    } else {
      LastInOrder(front, system, station);
    }
  }

  /** The batch of a docking, on a store that agrees with the log so far. */
  ghost predicate Recorded(store: Store, log: Log, d: Docking, after: Store) {
    && Agrees(store, log) && WellFormed(log + [d])
    && after == ApplyAll(store, d.at, StationBatch(d.system, d.station, d.kind, d.timestamp))
  }

  lemma RecordedOutcome(store: Store, log: Log, d: Docking, after: Store)
    requires Recorded(store, log, d, after)
    ensures var k, z := Station(d.system, d.station), SystemStations(d.system);
      && k in after && after[k] == DockedHash(VisibleFields(store, d.at, k), d.kind, d.timestamp, d.at)
      && z in after && after[z] == DockedSet(VisibleScores(store, d.at, z), d.station, d.timestamp, d.at)
      && SameElsewhere(store, after, {k, z, SYSTEM_INDEX})
  {
    assert (log + [d])[|log|] == d;
    assert NormalizeSystem(d.system) == d.system;
    StationIsNotSystemStations(d.system, d.station, d.system);
    assert SYSTEM_INDEX[0] == 'i' && Station(d.system, d.station)[0] == 's' && SystemStations(d.system)[0] == 's';
    assert StationAgrees(store, log, d.system, d.station) && SystemAgrees(store, log, d.system);
    BatchOutcome(store, d.at, Station(d.system, d.station), SystemStations(d.system), SYSTEM_INDEX,
                 d.system, d.station, d.kind, d.timestamp);
    assert StationBatch(d.system, d.station, d.kind, d.timestamp)
        == HashPart(Station(d.system, d.station), d.kind, d.timestamp)
         + SetPart(SystemStations(d.system), SYSTEM_INDEX, d.system, d.station, d.timestamp);
  }

  /** A docking continues the recent run exactly when the hash is still visible. */
  lemma HashContinuesRun(entry: Option<Entry>, own: Log, d: Docking)
    requires entry.Some? <==> own != []
    requires entry.Some? ==> entry.value == StationEntry(own)
    ensures var fields := if entry.Some? && !entry.value.Expired(d.at) then entry.value.value.fields else map[];
            DockedHash(fields, d.kind, d.timestamp, d.at) == StationEntry(own + [d])
  {
    assert (own + [d])[..|own|] == own;
    var fields := if entry.Some? && !entry.value.Expired(d.at) then entry.value.value.fields else map[];
    assert NumberAt(fields, "count") + 1 == RecentRun(own + [d]);
    assert fields["count" := Number(NumberAt(fields, "count") + 1)]
           + map["type" := Label(d.kind), "last_seen" := Number(d.timestamp)]
        == map["count" := Number(RecentRun(own + [d])), "type" := Label(d.kind), "last_seen" := Number(d.timestamp)];
  }

  lemma StationStaysAgreed(store: Store, log: Log, d: Docking, after: Store, system: string, station: string)
    requires Recorded(store, log, d, after) && NoLower(system)
    ensures StationAgrees(after, log + [d], system, station)
  {
    assert (log + [d])[|log|] == d;
    OfStationAppend(log, d, system, station);
    RecordedOutcome(store, log, d, after);
    assert StationAgrees(store, log, system, station);
    var key := Station(system, station);
    var own := OfStation(log, system, station);
    if system == d.system && station == d.station {
      HashContinuesRun(if key in store then Some(store[key]) else None, own, d);
    } else {
      if key == Station(d.system, d.station) {
        StationInjective(system, station, d.system, d.station);
      }
      StationIsNotSystemStations(system, station, d.system);
      assert key[0] == 's' && SYSTEM_INDEX[0] == 'i';
    }
  }

  /** A docking at another station changes nothing about this one. */
  lemma OtherStationUnchanged(log: Log, d: Docking, system: string, station: string, time: int, score: int)
    requires d.system != system || d.station != station
    ensures DockedWithin(log + [d], system, station, time) <==> DockedWithin(log, system, station, time)
    ensures IsLastTimestamp(log + [d], system, station, score) <==> IsLastTimestamp(log, system, station, score)
  {
    OfStationAppend(log, d, system, station);
  }

  /** What is visible of a system's set at a later time agrees with the log at that time. */
  lemma VisibleScoresAgree(store: Store, log: Log, system: string, time: int)
    requires Agrees(store, log) && NoLower(system)
    requires log != [] ==> Last(log).at <= time
    ensures ScoresAgree(VisibleScores(store, time, SystemStations(system)), log, system, time)
  {
    assert SystemAgrees(store, log, system);
    forall station | DockedWithin(log, system, station, time)
      ensures station in VisibleScores(store, time, SystemStations(system))
    {
      LastInOrder(log, system, station);
      assert DockedWithin(log, system, station, Last(OfSystem(log, system)).at);
    }
  }

  lemma ScoresAfterDocking(scores: map<string, int>, log: Log, d: Docking)
    requires ScoresAgree(scores, log, d.system, d.at)
    ensures ScoresAgree(scores[d.station := d.timestamp], log + [d], d.system, d.at)
  {
    var scores' := scores[d.station := d.timestamp];
    OfStationAppend(log, d, d.system, d.station);
    forall station | station in scores'
      ensures IsLastTimestamp(log + [d], d.system, station, scores'[station])
    {
      if station != d.station {
        OtherStationUnchanged(log, d, d.system, station, d.at, scores[station]);
      }
    }
    forall station | DockedWithin(log + [d], d.system, station, d.at)
      ensures station in scores'
    {
      if station != d.station {
        OtherStationUnchanged(log, d, d.system, station, d.at, 0);
      }
    }
  }

  lemma DockedSetAgrees(after: Store, log: Log, d: Docking, scores: map<string, int>)
    requires SystemStations(d.system) in after
    requires after[SystemStations(d.system)] == DockedSet(scores, d.station, d.timestamp, d.at)
    requires ScoresAgree(scores, log, d.system, d.at)
    ensures SystemAgrees(after, log + [d], d.system)
  {
    OfSystemAppend(log, d, d.system);
    ScoresAfterDocking(scores, log, d);
  }

  lemma SameSystemAgrees(store: Store, log: Log, d: Docking, after: Store)
    requires Recorded(store, log, d, after)
    ensures SystemAgrees(after, log + [d], d.system)
  {
    assert (log + [d])[|log|] == d && (log != [] ==> (log + [d])[|log| - 1] == Last(log));
    RecordedOutcome(store, log, d, after);
    VisibleScoresAgree(store, log, d.system, d.at);
    DockedSetAgrees(after, log, d, VisibleScores(store, d.at, SystemStations(d.system)));
  }

  lemma OtherSystemAgrees(store: Store, log: Log, d: Docking, after: Store, system: string)
    requires Recorded(store, log, d, after) && NoLower(system) && system != d.system
    ensures SystemAgrees(after, log + [d], system)
  {
    assert (log + [d])[|log|] == d;
    OfSystemAppend(log, d, system);
    var key := SystemStations(system);
    assert SystemAgrees(store, log, system);
    assert key in after <==> key in store by {
      OtherSystemUntouched(store, log, d, after, system);
    }
    if key in store {
      OtherSystemUntouched(store, log, d, after, system);
      var scores, time := store[key].value.scores, Last(OfSystem(log, system)).at;
      forall station | station in scores
        ensures IsLastTimestamp(log + [d], system, station, scores[station])
      {
        OtherStationUnchanged(log, d, system, station, time, scores[station]);
      }
      forall station | DockedWithin(log + [d], system, station, time)
        ensures station in scores
      {
        OtherStationUnchanged(log, d, system, station, time, 0);
      }
    }
  }

  lemma OtherSystemUntouched(store: Store, log: Log, d: Docking, after: Store, system: string)
    requires Recorded(store, log, d, after) && NoLower(system) && system != d.system
    ensures SystemStations(system) in after <==> SystemStations(system) in store
    ensures SystemStations(system) in store ==> after[SystemStations(system)] == store[SystemStations(system)]
  {
    assert (log + [d])[|log|] == d;
    RecordedOutcome(store, log, d, after);
    if SystemStations(system) == SystemStations(d.system) {
      SystemStationsInjective(system, d.system);
    }
    StationIsNotSystemStations(d.system, d.station, system);
    assert SystemStations(system)[0] == 's' && SYSTEM_INDEX[0] == 'i';
  }

  lemma SystemStaysAgreed(store: Store, log: Log, d: Docking, after: Store, system: string)
    requires Recorded(store, log, d, after) && NoLower(system)
    ensures SystemAgrees(after, log + [d], system)
  {
    if system == d.system {
      SameSystemAgrees(store, log, d, after);
    } else {
      OtherSystemAgrees(store, log, d, after, system);
    }
  }

  /** Recording a docking keeps the store in agreement with the log. */
  lemma RecordKeepsAgreement(store: Store, log: Log, d: Docking)
    requires Agrees(store, log) && WellFormed(log + [d])
    ensures Agrees(ApplyAll(store, d.at, StationBatch(d.system, d.station, d.kind, d.timestamp)), log + [d])
  {
    var after := ApplyAll(store, d.at, StationBatch(d.system, d.station, d.kind, d.timestamp));
    forall system: string, station: string | NoLower(system)
      ensures StationAgrees(after, log + [d], system, station)
    {
      StationStaysAgreed(store, log, d, after, system, station);
    }
    forall system: string | NoLower(system)
      ensures SystemAgrees(after, log + [d], system)
    {
      SystemStaysAgreed(store, log, d, after, system);
    }
  }

  /** Batches on other keys leave the agreement alone. */
  lemma OtherKeysKeepAgreement(store: Store, log: Log, now: int, batch: seq<Command>)
    requires Agrees(store, log)
    requires forall i :: 0 <= i < |batch| ==> !("system:" <= batch[i].key)
    ensures Agrees(ApplyAll(store, now, batch), log)
  {
    var after := ApplyAll(store, now, batch);
    forall system: string, station: string | NoLower(system)
      ensures StationAgrees(after, log, system, station)
    {
      assert "system:" <= Station(system, station);
      BatchElsewhere(store, now, batch, Station(system, station));
      assert StationAgrees(store, log, system, station);
    }
    forall system: string | NoLower(system)
      ensures SystemAgrees(after, log, system)
    {
      assert "system:" <= SystemStations(system);
      BatchElsewhere(store, now, batch, SystemStations(system));
      assert SystemAgrees(store, log, system);
    }
  }

  lemma WriterKeys(carrier: string, date: string, system: string, weekEnd: int, timestamp: int)
    ensures forall i :: 0 <= i < |FleetCarrierBatch(carrier, date, timestamp)| ==>
              !("system:" <= FleetCarrierBatch(carrier, date, timestamp)[i].key)
    ensures forall i :: 0 <= i < |SystemVisitBatch(system, weekEnd)| ==>
              !("system:" <= SystemVisitBatch(system, weekEnd)[i].key)
  {
    var c := NormalizeCarrier(carrier);
    assert CarrierDaily(c, date)[0] == 'c' && CarrierDays(c)[0] == 'c' && CARRIER_INDEX[0] == 'i';
    assert SYSTEM_VISITS[6] == 's' && "system:"[6] == ':' && "system:"[0] == 's';
  }

  // ---- no other keys --------------------------------------------------------------------

  ghost predicate FromLog(log: Log, key: string) {
    exists i :: 0 <= i < |log| && (key == SystemStations(log[i].system) || key == Station(log[i].system, log[i].station))
  }

  /** Every key of the `system:` space belongs to a recorded docking. */
  ghost predicate OnlyDockings(store: Store, log: Log) {
    forall key :: key in store && "system:" <= key ==> FromLog(log, key)
  }

  lemma OtherBatchAddsNoSystem(store: Store, log: Log, now: int, batch: seq<Command>)
    requires OnlyDockings(store, log)
    requires forall i :: 0 <= i < |batch| ==> !("system:" <= batch[i].key)
    ensures OnlyDockings(ApplyAll(store, now, batch), log)
  {
    forall key | key in ApplyAll(store, now, batch) && "system:" <= key
      ensures FromLog(log, key)
    {
      BatchElsewhere(store, now, batch, key);
    }
  }

  lemma StationBatchKeys(d: Docking, systemName: string, key: string)
    requires d.system == NormalizeSystem(systemName)
    requires key != Station(d.system, d.station) && key != SystemStations(d.system) && key != SYSTEM_INDEX
    ensures var batch := StationBatch(systemName, d.station, d.kind, d.timestamp);
      forall i :: 0 <= i < |batch| ==> batch[i].key != key
  {}

  lemma DockingAddsItsSystem(store: Store, log: Log, d: Docking, systemName: string)
    requires OnlyDockings(store, log) && d.system == NormalizeSystem(systemName)
    ensures OnlyDockings(ApplyAll(store, d.at, StationBatch(systemName, d.station, d.kind, d.timestamp)), log + [d])
  {
    var batch := StationBatch(systemName, d.station, d.kind, d.timestamp);
    assert (log + [d])[|log|] == d && SYSTEM_INDEX[0] == 'i' && "system:"[0] == 's';
    forall key | key in ApplyAll(store, d.at, batch) && "system:" <= key
      ensures FromLog(log + [d], key)
    {
      if key != Station(d.system, d.station) && key != SystemStations(d.system) {
        StationBatchKeys(d, systemName, key);
        BatchElsewhere(store, d.at, batch, key);
        var i :| 0 <= i < |log| && (key == SystemStations(log[i].system) || key == Station(log[i].system, log[i].station));
        assert (log + [d])[i] == log[i];
      }
    }
  }

  // ---- the reader -----------------------------------------------------------------------

  datatype StationInfo = StationInfo(system: string, station: string, kind: string, count: int, lastSeen: int)

  /** Descending by score; members with one score in reverse byte order. */
  predicate Precedes(scores: map<string, int>, a: string, b: string)
    requires a in scores && b in scores
  {
    scores[a] > scores[b] || (scores[a] == scores[b] && Names.Order.Bytewise.Leq(b, a))
  }

  lemma PrecedesTransitive(scores: map<string, int>, a: string, b: string, c: string)
    requires a in scores && b in scores && c in scores && Precedes(scores, a, b) && Precedes(scores, b, c)
    ensures Precedes(scores, a, c)
  {
    if scores[a] == scores[c] {
      Names.Order.Bytewise.Transitive(c, b, a);
    }
  }

  lemma PrecedesTotal(scores: map<string, int>, a: string, b: string)
    requires a in scores && b in scores
    ensures Precedes(scores, a, b) || Precedes(scores, b, a)
    ensures Precedes(scores, a, a)
  {
    Names.LeqTotal(Names.Order.Bytewise, a, b);
    Names.LeqReflexive(Names.Order.Bytewise, a);
  }

  predicate IsFirst(scores: map<string, int>, names: set<string>, m: string)
    requires names <= scores.Keys
  {
    m in names && forall x :: x in names ==> Precedes(scores, m, x)
  }

  lemma {:induction false} FirstExists(scores: map<string, int>, names: set<string>) returns (m: string)
    requires names != {} && names <= scores.Keys
    ensures IsFirst(scores, names, m)
    decreases names
  {
    var a :| a in names;
    PrecedesTotal(scores, a, a);
    if names == {a} {
      m := a;
    } else {
      m := FirstExists(scores, names - {a});
      PrecedesTotal(scores, a, m);
      if Precedes(scores, a, m) {
        forall x | x in names
          ensures Precedes(scores, a, x)
        {
          if x != a {
            PrecedesTransitive(scores, a, m, x);
          }
        }
        m := a;
      }
    }
  }

  /** `names` is ranked, and every name still to come ranks after it. */
  ghost predicate Ranked(scores: map<string, int>, names: seq<string>, todo: set<string>) {
    && todo <= scores.Keys
    && (forall i :: 0 <= i < |names| ==> names[i] in scores && names[i] !in todo)
    && (forall i, j :: 0 <= i < j < |names| ==> names[i] != names[j] && Precedes(scores, names[i], names[j]))
    && (forall i, x :: 0 <= i < |names| && x in todo ==> Precedes(scores, names[i], x))
  }

  lemma RankedAppend(scores: map<string, int>, names: seq<string>, todo: set<string>, m: string)
    requires Ranked(scores, names, todo) && IsFirst(scores, todo, m)
    ensures Ranked(scores, names + [m], todo - {m})
  {
    var names' := names + [m];
    forall i, j | 0 <= i < j < |names'|
      ensures names'[i] != names'[j] && Precedes(scores, names'[i], names'[j])
    {
      assert names'[i] == names[i];
    }
    forall i, x | 0 <= i < |names'| && x in todo - {m}
      ensures Precedes(scores, names'[i], x)
    {
      assert i < |names| ==> names'[i] == names[i];
    }
  }

  /** ZREVRANGEBYSCORE over the whole range. */
  method RangeByScoreDescending(scores: map<string, int>) returns (names: seq<string>)
    ensures Names.Elements(names) == scores.Keys && Ranked(scores, names, {})
  {
    names := [];
    var todo := scores.Keys;
    while todo != {}
      invariant Names.Elements(names) == scores.Keys - todo
      invariant Ranked(scores, names, todo)
      decreases todo
    {
      ghost var first := FirstExists(scores, todo);
      var m :| m in todo && IsFirst(scores, todo, m);
      RankedAppend(scores, names, todo, m);
      Names.AppendElements(names, m);
      names := names + [m];
      todo := todo - {m};
    }
  }

  /** What the log says about a station. */
  ghost function InfoOf(log: Log, system: string, station: string): StationInfo
    requires OfStation(log, system, station) != []
  {
    var own := OfStation(log, system, station);
    StationInfo(system, station, Last(own).kind, RecentRun(own), Last(own).timestamp)
  }

  ghost predicate InfoAgrees(log: Log, system: string, now: int, info: StationInfo) {
    DockedWithin(log, system, info.station, now) && info == InfoOf(log, system, info.station)
  }

  ghost predicate Reports(result: seq<StationInfo>, station: string) {
    exists i :: 0 <= i < |result| && result[i].station == station
  }

  /** Exactly the stations docked at within thirty days, once each, latest first. */
  ghost predicate Answers(log: Log, system: string, now: int, result: seq<StationInfo>) {
    && (forall i :: 0 <= i < |result| ==> InfoAgrees(log, system, now, result[i]))
    && (forall station :: DockedWithin(log, system, station, now) ==> Reports(result, station))
    && (forall i, j :: 0 <= i < j < |result| ==>
          result[i].station != result[j].station && result[i].lastSeen >= result[j].lastSeen)
  }

  /** Some docking there is at most thirty days old, in milliseconds. */
  ghost predicate SomeRecent(log: Log, system: string, station: string, time: int) {
    exists i :: 0 <= i < |log| && log[i].system == system && log[i].station == station && time - log[i].at <= 2_592_000_000
  }

  lemma {:induction false} DockedWithinMeaning(log: Log, system: string, station: string, time: int)
    requires WellFormed(log)
    ensures DockedWithin(log, system, station, time) <==> SomeRecent(log, system, station, time)
  {
    if log != [] {
      var front, last := log[..|log| - 1], log[|log| - 1];
      DockedWithinMeaning(front, system, station, time);
      if SomeRecent(front, system, station, time) {
        var i :| 0 <= i < |front| && front[i].system == system && front[i].station == station && time - front[i].at <= DATA_EXPIRATION;
        assert log[i] == front[i];
      }
      if SomeRecent(log, system, station, time) {
        var i :| 0 <= i < |log| && log[i].system == system && log[i].station == station && time - log[i].at <= DATA_EXPIRATION;
        assert i < |front| ==> front[i] == log[i];
      }
    }
  }

  ghost predicate ReportsDocking(result: seq<StationInfo>, d: Docking) {
    exists i :: 0 <= i < |result| && result[i].station == d.station && result[i].kind == d.kind && result[i].lastSeen == d.timestamp
  }

  /** A docking recorded under one name is reported to a reader who asks for another exactly when the
      two agree up to case. */
  lemma ReportedUnderItsName(log: Log, d: Docking, recordedAs: string, askedAs: string, now: int, result: seq<StationInfo>)
    requires d.system == NormalizeSystem(recordedAs) && now - d.at <= DATA_EXPIRATION
    requires Answers(log + [d], NormalizeSystem(askedAs), now, result)
    ensures Reports(result, d.station) <==>
      SameName(recordedAs, askedAs) || DockedWithin(log, NormalizeSystem(askedAs), d.station, now)
    ensures SameName(recordedAs, askedAs) ==> ReportsDocking(result, d)
  {
    var system := NormalizeSystem(askedAs);
    SameNormalExactly(recordedAs, askedAs);
    OfStationAppend(log, d, system, d.station);
    if Reports(result, d.station) {
      var i :| 0 <= i < |result| && result[i].station == d.station;
      assert InfoAgrees(log + [d], system, now, result[i]);
    }
    if SameName(recordedAs, askedAs) {
      assert DockedWithin(log + [d], system, d.station, now);
      var i :| 0 <= i < |result| && result[i].station == d.station;
      assert InfoAgrees(log + [d], system, now, result[i]);
    }
  }

  /** The hash a reader sees, exactly when the station was docked at recently. */
  lemma VisibleHash(store: Store, log: Log, system: string, station: string, now: int)
    requires Agrees(store, log) && NoLower(system)
    ensures var entry := Look(store, now, Station(system, station));
      && (entry.Some? <==> DockedWithin(log, system, station, now))
      && (entry.Some? ==> entry.value == StationEntry(OfStation(log, system, station)))
  {
    assert StationAgrees(store, log, system, station);
  }

  /** `result` answers for the first `i` names. */
  ghost predicate AnswersFor(log: Log, system: string, now: int, scores: map<string, int>,
                             names: seq<string>, i: nat, result: seq<StationInfo>)
    requires i <= |names|
  {
    && (forall k :: 0 <= k < |result| ==> InfoAgrees(log, system, now, result[k]))
    && (forall j :: 0 <= j < i && DockedWithin(log, system, names[j], now) ==> Reports(result, names[j]))
    && (forall k, l :: 0 <= k < l < |result| ==>
          result[k].station != result[l].station && result[k].lastSeen >= result[l].lastSeen)
    && (forall k, j :: 0 <= k < |result| && i <= j < |names| ==>
          result[k].station != names[j] && names[j] in scores && result[k].lastSeen >= scores[names[j]])
  }

  lemma AnswersForNone(log: Log, system: string, now: int, scores: map<string, int>,
                       names: seq<string>, i: nat, result: seq<StationInfo>)
    requires i < |names| && AnswersFor(log, system, now, scores, names, i, result) && !DockedWithin(log, system, names[i], now)
    ensures AnswersFor(log, system, now, scores, names, i + 1, result)
  {
    forall k, j | 0 <= k < |result| && i + 1 <= j < |names|
      ensures result[k].station != names[j] && names[j] in scores && result[k].lastSeen >= scores[names[j]]
    {
    }
  }

  lemma AnswersForNext(log: Log, system: string, now: int, scores: map<string, int>,
                       names: seq<string>, i: nat, result: seq<StationInfo>, info: StationInfo)
    requires Ranked(scores, names, {}) && i < |names|
    requires AnswersFor(log, system, now, scores, names, i, result)
    requires InfoAgrees(log, system, now, info) && info.station == names[i] && info.lastSeen == scores[names[i]]
    ensures AnswersFor(log, system, now, scores, names, i + 1, result + [info])
  {
    var result' := result + [info];
    assert result'[|result|] == info;
    forall station | Reports(result, station)
      ensures Reports(result', station)
    {
      var k :| 0 <= k < |result| && result[k].station == station;
      assert result'[k].station == station;
    }
    forall k | 0 <= k < |result'|
      ensures InfoAgrees(log, system, now, result'[k])
    {
      assert k < |result| ==> result'[k] == result[k];
    }
    forall j | 0 <= j < i + 1 && DockedWithin(log, system, names[j], now)
      ensures Reports(result', names[j])
    {
      assert j < i ==> Reports(result, names[j]);
    }
    forall k, l | 0 <= k < l < |result'|
      ensures result'[k].station != result'[l].station && result'[k].lastSeen >= result'[l].lastSeen
    {
      assert result'[k] == result[k] && (l < |result| ==> result'[l] == result[l]);
    }
    forall k, j | 0 <= k < |result'| && i + 1 <= j < |names|
      ensures result'[k].station != names[j] && names[j] in scores && result'[k].lastSeen >= scores[names[j]]
    {
      if k == |result| {
        assert Precedes(scores, names[i], names[j]);
      } else {
        assert result'[k] == result[k];
      }
    }
  }

  function TextAt(fields: map<string, Field>, field: string): string {
    if field in fields && fields[field].Label? then fields[field].text else ""
  }

  /** What the fields of a station's hash are read as. */
  lemma HashFields(dockings: Log)
    requires dockings != []
    ensures var fields := StationEntry(dockings).value.fields;
      && fields != map[]
      && TextAt(fields, "type") == Last(dockings).kind
      && NumberAt(fields, "count") == RecentRun(dockings)
      && NumberAt(fields, "last_seen") == Last(dockings).timestamp
  {
    var fields := StationEntry(dockings).value.fields;
    assert "count"[0] == 'c' && "type"[0] == 't' && "last_seen"[0] == 'l';
    assert "count" in fields;
  }

  lemma CallKeepsAgreement(store: Store, log: Log, systemName: string, d: Docking)
    requires Agrees(store, log) && (log != [] ==> Last(log).at <= d.at) && d.system == NormalizeSystem(systemName)
    ensures Agrees(ApplyAll(store, d.at, StationBatch(systemName, d.station, d.kind, d.timestamp)), log + [d])
  {
    StaysWellFormed(log, d);
    SameBatch(systemName, d);
    RecordKeepsAgreement(store, log, d);
  }

  lemma StaysWellFormed(log: Log, d: Docking)
    requires WellFormed(log) && (log != [] ==> Last(log).at <= d.at) && NoLower(d.system)
    ensures WellFormed(log + [d])
  {}

  lemma SameBatch(systemName: string, d: Docking)
    requires d.system == NormalizeSystem(systemName)
    ensures StationBatch(systemName, d.station, d.kind, d.timestamp) == StationBatch(d.system, d.station, d.kind, d.timestamp)
  {
    assert NormalizeSystem(d.system) == d.system;
  }

  /** The Redis database, its clock, and the log of the dockings recorded in it. */
  class Database {
    var store: Store
    var now: int
    ghost var log: Log

    ghost predicate Valid()
      reads this
    {
      Agrees(store, log) && OnlyDockings(store, log) && (log != [] ==> Last(log).at <= now)
    }

    constructor ()
      ensures Valid() && log == []
    {
      store, now, log := map[], 0, [];
    }

    method Wait(milliseconds: nat)
      requires Valid()
      modifies this`now
      ensures Valid() && now == old(now) + milliseconds
    {
      now := now + milliseconds;
    }

    method RecordStationDocking(systemName: string, stationName: string, stationType: string, timestamp: int)
      requires Valid()
      modifies this`store, this`log
      ensures Valid()
      ensures store == ApplyAll(old(store), now, StationBatch(systemName, stationName, stationType, timestamp))
      ensures log == old(log) + [Docking(NormalizeSystem(systemName), stationName, stationType, timestamp, now)]
    {
      ghost var d := Docking(NormalizeSystem(systemName), stationName, stationType, timestamp, now);
      CallKeepsAgreement(store, log, systemName, d);
      DockingAddsItsSystem(store, log, d, systemName);
      store, log := ApplyAll(store, now, StationBatch(systemName, stationName, stationType, timestamp)), log + [d];
    }

    method RecordFleetCarrierDocking(carrierId: string, date: string, timestamp: int)
      requires Valid()
      modifies this`store
      ensures Valid()
      ensures store == ApplyAll(old(store), now, FleetCarrierBatch(carrierId, date, timestamp))
    {
      WriterKeys(carrierId, date, "", 0, timestamp);
      OtherKeysKeepAgreement(store, log, now, FleetCarrierBatch(carrierId, date, timestamp));
      OtherBatchAddsNoSystem(store, log, now, FleetCarrierBatch(carrierId, date, timestamp));
      store := ApplyAll(store, now, FleetCarrierBatch(carrierId, date, timestamp));
    }

    method RecordSystemVisit(systemName: string, weekEnd: int)
      requires Valid()
      modifies this`store
      ensures Valid()
      ensures store == ApplyAll(old(store), now, SystemVisitBatch(systemName, weekEnd))
    {
      WriterKeys("", "", systemName, weekEnd, 0);
      OtherKeysKeepAgreement(store, log, now, SystemVisitBatch(systemName, weekEnd));
      OtherBatchAddsNoSystem(store, log, now, SystemVisitBatch(systemName, weekEnd));
      store := ApplyAll(store, now, SystemVisitBatch(systemName, weekEnd));
    }

    /** HGETALL of one station, read the way the source reads its fields. */
    method ReadStation(system: string, station: string) returns (info: Option<StationInfo>)
      requires Valid() && NoLower(system)
      ensures info.Some? <==> DockedWithin(log, system, station, now)
      ensures info.Some? ==> info.value == InfoOf(log, system, station)
    {
      VisibleHash(store, log, system, station, now);
      var entry := Look(store, now, Station(system, station));
      if entry.Some? {
        HashFields(OfStation(log, system, station));
      }
      if entry.None? || !entry.value.value.Hash? || entry.value.value.fields == map[] {
        return None;
      }
      var fields := entry.value.value.fields;
      return Some(StationInfo(system, station, TextAt(fields, "type"),
                              NumberAt(fields, "count"), NumberAt(fields, "last_seen")));
    }

    method GetSystemDocking(systemName: string) returns (result: seq<StationInfo>)
      requires Valid()
      ensures Answers(log, NormalizeSystem(systemName), now, result)
    {
      var system := NormalizeSystem(systemName);
      var scores := VisibleScores(store, now, SystemStations(system));
      VisibleScoresAgree(store, log, system, now);
      var names := RangeByScoreDescending(scores);
      result := ReadAll(system, scores, names);
      forall station | DockedWithin(log, system, station, now)
        ensures Reports(result, station)
      {
        assert station in Names.Elements(names);
      }
    }

    method ReadAll(system: string, scores: map<string, int>, names: seq<string>) returns (result: seq<StationInfo>)
      requires Valid() && NoLower(system) && Ranked(scores, names, {})
      requires forall station :: station in scores ==> IsLastTimestamp(log, system, station, scores[station])
      ensures AnswersFor(log, system, now, scores, names, |names|, result)
    {
      result := [];
      for i := 0 to |names|
        invariant AnswersFor(log, system, now, scores, names, i, result)
      {
        var info := ReadStation(system, names[i]);
        if info.Some? {
          assert IsLastTimestamp(log, system, names[i], scores[names[i]]);
          AnswersForNext(log, system, now, scores, names, i, result, info.value);
          result := result + [info.value];
        } else {
          AnswersForNone(log, system, now, scores, names, i, result);
        }
      }
    }
  }
}
