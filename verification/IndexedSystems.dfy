/** What the rebuild of SearchIndexMaintainer.cs finds in a database that DockingWriter.cs filled:
    exactly the systems docked at within thirty days, when none of them has a colon in its name. */
module IndexedSystems {
  import opened DockingReader
  import opened DockingWriter
  import opened Redis
  import opened RedisKeys
  import opened SearchIndexMaintainer

  /** The keys a scan can see. */
  ghost function LiveKeys(store: Store, now: int): set<string> {
    set key | key in store && !store[key].Expired(now)
  }

  ghost predicate SystemDockedWithin(log: Log, system: string, now: int) {
    var dockings := OfSystem(log, system);
    dockings != [] && now <= Last(dockings).at + DATA_EXPIRATION
  }

  /** Some docking in the system is at most thirty days old. */
  ghost predicate SomeRecentIn(log: Log, system: string, now: int) {
    exists i :: 0 <= i < |log| && log[i].system == system && now - log[i].at <= 2_592_000_000
  }

  lemma {:induction false} SystemDockedMeaning(log: Log, system: string, now: int)
    requires WellFormed(log)
    ensures SystemDockedWithin(log, system, now) <==> SomeRecentIn(log, system, now)
  {
    if log != [] {
      var front := log[..|log| - 1];
      SystemDockedMeaning(front, system, now);
      if SomeRecentIn(front, system, now) {
        var i :| 0 <= i < |front| && front[i].system == system && now - front[i].at <= DATA_EXPIRATION;
        assert log[i] == front[i];
      }
      if SomeRecentIn(log, system, now) {
        var i :| 0 <= i < |log| && log[i].system == system && now - log[i].at <= DATA_EXPIRATION;
        assert i < |front| ==> front[i] == log[i];
      }
    }
  }

  /** No system docked at recently has a colon in its name. */
  ghost predicate ColonFree(log: Log, now: int) {
    forall system: string :: SystemDockedWithin(log, system, now) ==> ':' !in system
  }

  lemma {:induction false} NotInLog(log: Log, system: string)
    requires forall i :: 0 <= i < |log| ==> log[i].system != system
    ensures OfSystem(log, system) == []
  {
    if log != [] {
      NotInLog(log[..|log| - 1], system);
    }
  }

  lemma SetIsLive(store: Store, log: Log, now: int, system: string)
    requires Agrees(store, log) && NoLower(system)
    ensures SystemStations(system) in LiveKeys(store, now) <==> SystemDockedWithin(log, system, now)
  {
    assert SystemAgrees(store, log, system);
  }

  /** No station's hash outlives its system's set. */
  lemma SetOutlivesStation(store: Store, log: Log, now: int, system: string, station: string)
    requires Agrees(store, log) && NoLower(system) && Station(system, station) in LiveKeys(store, now)
    ensures SystemStations(system) in LiveKeys(store, now)
  {
    assert StationAgrees(store, log, system, station);
    LastInOrder(log, system, station);
    SetIsLive(store, log, now, system);
  }

  /** Every live key of a system is one of a system docked at recently. */
  lemma LiveKeyHasSystem(store: Store, log: Log, now: int, key: string) returns (d: Docking)
    requires Agrees(store, log) && OnlyDockings(store, log) && key in LiveKeys(store, now) && "system:" <= key
    ensures key == SystemStations(d.system) || key == Station(d.system, d.station)
    ensures d in log && SystemDockedWithin(log, d.system, now) && SystemStations(d.system) in LiveKeys(store, now)
  {
    assert FromLog(log, key);
    var i :| 0 <= i < |log| && (key == SystemStations(log[i].system) || key == Station(log[i].system, log[i].station));
    d := log[i];
    if key == Station(d.system, d.station) {
      SetOutlivesStation(store, log, now, d.system, d.station);
    }
    SetIsLive(store, log, now, d.system);
  }

  lemma LiveKeysAreOwned(store: Store, log: Log, now: int)
    requires Agrees(store, log) && OnlyDockings(store, log) && ColonFree(log, now)
    ensures Owned(Systems, LiveKeys(store, now))
  {
    forall key | key in LiveKeys(store, now) && Systems.Space() <= key
      ensures HasOwner(Systems, LiveKeys(store, now), key)
    {
      var d := LiveKeyHasSystem(store, log, now, key);
      if key == Station(d.system, d.station) {
        assert key == Systems.DetailKey(d.system, d.station);
      }
      assert BelongsTo(Systems, key, d.system);
    }
  }

  lemma SameStationSet(a: string, b: string)
    requires SystemStations(a) == SystemStations(b)
    ensures a == b
  {
    assert |a| == |b|;
    assert SystemStations(a)[7..7 + |a|] == a && SystemStations(b)[7..7 + |b|] == b;
  }

  /** A colon-free name whose set is live was docked at. */
  lemma LiveSetIsDocked(store: Store, log: Log, now: int, name: string)
    requires Agrees(store, log) && OnlyDockings(store, log) && ColonFree(log, now)
    requires ':' !in name && SystemStations(name) in LiveKeys(store, now)
    ensures SystemDockedWithin(log, name, now)
  {
    assert "system:" <= SystemStations(name);
    var d := LiveKeyHasSystem(store, log, now, SystemStations(name));
    if SystemStations(name) == SystemStations(d.system) {
      SameStationSet(name, d.system);
    } else {
      ExtractNameRoundTrip(name);
      ExtractNameOfDetail(d.system, d.station);
    }
  }

  lemma DockedIsUpper(log: Log, system: string, now: int)
    requires WellFormed(log) && SystemDockedWithin(log, system, now)
    ensures NoLower(system)
  {
    if !NoLower(system) {
      NotInLog(log, system);
    }
  }

  lemma DockedIsLive(store: Store, log: Log, now: int, name: string)
    requires Agrees(store, log) && SystemDockedWithin(log, name, now)
    ensures SystemStations(name) in LiveKeys(store, now)
  {
    DockedIsUpper(log, name, now);
    SetIsLive(store, log, now, name);
  }

  lemma IndexedIsDocked(store: Store, log: Log, now: int, name: string)
    requires Agrees(store, log) && OnlyDockings(store, log) && ColonFree(log, now)
    ensures name in NamesIn(Systems, LiveKeys(store, now)) <==> SystemDockedWithin(log, name, now)
  {
    LiveKeysAreOwned(store, log, now);
    NameIsLive(Systems, LiveKeys(store, now), name);
    if SystemDockedWithin(log, name, now) {
      DockedIsLive(store, log, now, name);
    } else if name in NamesIn(Systems, LiveKeys(store, now)) {
      LiveSetIsDocked(store, log, now, name);
    }
  }

  /** A rebuild left alone indexes the systems docked at within thirty days, all of them and no other. */
  ghost predicate IndexesTheDocked(store: Store, log: Log, now: int) {
    forall name: string :: name in NamesIn(Systems, LiveKeys(store, now)) <==> SystemDockedWithin(log, name, now)
  }

  /** It does so exactly when none of them has a colon in its name. */
  lemma IndexIsTheLog(store: Store, log: Log, now: int)
    requires Agrees(store, log) && OnlyDockings(store, log)
    ensures IndexesTheDocked(store, log, now) <==> ColonFree(log, now)
  {
    if ColonFree(log, now) {
      forall name: string
        ensures name in NamesIn(Systems, LiveKeys(store, now)) <==> SystemDockedWithin(log, name, now)
      {
        IndexedIsDocked(store, log, now, name);
      }
    } else {
      var name: string :| SystemDockedWithin(log, name, now) && ':' in name;
      DockedIsLive(store, log, now, name);
      LiveNameIsFoundExactly(Systems, name, LiveKeys(store, now));
    }
  }
}
