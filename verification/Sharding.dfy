/** Sharded ingestion refines a single consumer: whatever the shard count and however the
    shards' pipelined commands interleave, the counters and the set memberships in Redis
    come out the same. */
module Sharding {
  import opened Redis
  import opened RedisKeys
  import opened DockingWriter
  import opened MessageShardFilter

  datatype Frame = Frame(raw: Message, event: Event)

  // ---- one consumer ---------------------------------------------------------------------

  /** What ingestion takes from a message: its stable hash, and the commands that parsing and
      dispatching it leads to. */
  datatype Pipeline = Pipeline(hash: Message -> Word, handle: Event -> seq<Command>)

  const PIPELINE := Pipeline(MessageShardFilter.Hash, EventCommands)

  predicate Owned(frame: Frame, shard: int, count: int, p: Pipeline)
    requires 0 <= shard < count
  {
    p.hash(frame.raw) % count == shard
  }

  /** The commands shard `shard` of `count` issues for one frame. */
  function FrameCommands(frame: Frame, shard: int, count: int, p: Pipeline): seq<Command>
    requires 0 <= shard < count
  {
    if Owned(frame, shard, count, p) then p.handle(frame.event) else []
  }

  function ShardCommands(frames: seq<Frame>, shard: int, count: int, p: Pipeline): seq<Command>
    requires 0 <= shard < count
  {
    if frames == [] then [] else
      FrameCommands(frames[0], shard, count, p) + ShardCommands(frames[1..], shard, count, p)
  }

  function OwnedCount(frames: seq<Frame>, shard: int, count: int, p: Pipeline): nat
    requires 0 <= shard < count
  {
    if frames == [] then 0 else
      (if Owned(frames[0], shard, count, p) then 1 else 0) + OwnedCount(frames[1..], shard, count, p)
  }

  lemma {:induction false} ShardCommandsAppend(frames: seq<Frame>, frame: Frame, shard: int, count: int, p: Pipeline)
    requires 0 <= shard < count
    ensures ShardCommands(frames + [frame], shard, count, p) ==
            ShardCommands(frames, shard, count, p) + FrameCommands(frame, shard, count, p)
  {
    if frames == [] {
      assert [] + [frame] == [frame];
    } else {
      assert (frames + [frame])[1..] == frames[1..] + [frame];
      ShardCommandsAppend(frames[1..], frame, shard, count, p);
    }
  }

  lemma {:induction false} OwnedCountAppend(frames: seq<Frame>, frame: Frame, shard: int, count: int, p: Pipeline)
    requires 0 <= shard < count
    ensures OwnedCount(frames + [frame], shard, count, p) ==
            OwnedCount(frames, shard, count, p) + (if Owned(frame, shard, count, p) then 1 else 0)
  {
    if frames == [] {
      assert [] + [frame] == [frame];
    } else {
      assert (frames + [frame])[1..] == frames[1..] + [frame];
      OwnedCountAppend(frames[1..], frame, shard, count, p);
    }
  }

  /** `Owned`, for the real pipeline, is the shard filter's `Owns`. */
  lemma OwnedIsOwns(frame: Frame, shard: int, count: int)
    requires 0 <= shard < count
    ensures Owned(frame, shard, count, PIPELINE) <==> ShardFilter(shard, count).Owns(frame.raw)
  {}

  /** The receive loop: every frame is counted, only owned ones are handled. */
  class Consumer {
    const filter: ShardFilter
    const pipeline: Pipeline
    var received: nat
    var handled: nat
    var issued: seq<Command>

    constructor (filter: ShardFilter, pipeline: Pipeline)
      requires filter.Valid()
      ensures this.filter == filter && this.pipeline == pipeline
      ensures received == 0 && handled == 0 && issued == []
    {
      this.filter, this.pipeline := filter, pipeline;
      received, handled, issued := 0, 0, [];
    }

    method Receive(frames: seq<Frame>)
      requires filter.Valid()
      modifies this
      ensures received == old(received) + |frames|
      ensures handled == old(handled) + OwnedCount(frames, filter.index, filter.count, pipeline)
      ensures issued == old(issued) + ShardCommands(frames, filter.index, filter.count, pipeline)
    {
      for i := 0 to |frames|
        invariant received == old(received) + i
        invariant handled == old(handled) + OwnedCount(frames[..i], filter.index, filter.count, pipeline)
        invariant issued == old(issued) + ShardCommands(frames[..i], filter.index, filter.count, pipeline)
      {
        assert frames[..i + 1] == frames[..i] + [frames[i]];
        ShardCommandsAppend(frames[..i], frames[i], filter.index, filter.count, pipeline);
        OwnedCountAppend(frames[..i], frames[i], filter.index, filter.count, pipeline);
        received := received + 1;
        if Owned(frames[i], filter.index, filter.count, pipeline) {
          handled := handled + 1;
          issued := issued + pipeline.handle(frames[i].event);
        }
      }
      assert frames[..|frames|] == frames;
    }
  }

  // ---- many consumers -------------------------------------------------------------------

  /** One command reaching the server. */
  datatype Arrival = Arrival(shard: nat, at: int, cmd: Command)

  function From(run: seq<Arrival>, shard: nat): seq<Command> {
    if run == [] then [] else
      (if run[0].shard == shard then [run[0].cmd] else []) + From(run[1..], shard)
  }

  /** Any interleaving of what `count` shards issue; each shard's own order is kept. */
  ghost predicate Interleaves(frames: seq<Frame>, count: int, p: Pipeline, run: seq<Arrival>) {
    && count >= 1
    && (forall i :: 0 <= i < |run| ==> run[i].shard < count)
    && (forall shard :: 0 <= shard < count ==> From(run, shard) == ShardCommands(frames, shard, count, p))
  }

  function Run(store: Store, run: seq<Arrival>): Store
    decreases |run|
  {
    if run == [] then store else Run(Apply(store, run[0].at, run[0].cmd), run[1..])
  }

  /** No command finds its key expired. */
  predicate NothingExpires(store: Store, run: seq<Arrival>)
    decreases |run|
  {
    run == [] ||
    (&& (run[0].cmd.key in store ==> !store[run[0].cmd.key].Expired(run[0].at))
     && NothingExpires(Apply(store, run[0].at, run[0].cmd), run[1..]))
  }

  // ---- what is compared -----------------------------------------------------------------

  /** A counter, or a set membership. */
  datatype Probe =
    | StringCounter(key: string)
    | StationCount(key: string)
    | VisitScore(member: string)
    | Membership(key: string, member: string)

  /** A counter's value, or 1 for a member and 0 for a non-member. */
  function Reading(store: Store, probe: Probe): int {
    match probe
    case StringCounter(key) => if key in store && store[key].value.Counter? then store[key].value.n else 0
    case StationCount(key) =>
      if key in store && store[key].value.Hash? then NumberAt(store[key].value.fields, "count") else 0
    case VisitScore(member) =>
      if SYSTEM_VISITS in store && store[SYSTEM_VISITS].value.ZSet? && member in store[SYSTEM_VISITS].value.scores
      then store[SYSTEM_VISITS].value.scores[member] else 0
    case Membership(key, member) =>
      if key in store && store[key].value.ZSet? && member in store[key].value.scores then 1 else 0
  }

  /** Whether a command bears on a probe. */
  predicate Touches(cmd: Command, probe: Probe) {
    match probe
    case StringCounter(key) => cmd == Incr(key)
    case StationCount(key) => cmd == HIncr(key, "count")
    case VisitScore(member) => cmd == ZIncr(SYSTEM_VISITS, member)
    case Membership(key, member) => (cmd.ZAdd? || cmd.ZIncr?) && cmd.key == key && cmd.member == member
  }

  function Tally(cmds: seq<Command>, probe: Probe): nat {
    if cmds == [] then 0 else (if Touches(cmds[0], probe) then 1 else 0) + Tally(cmds[1..], probe)
  }

  /** The reading `n` touches turn `before` into. */
  function Advanced(before: int, n: nat, probe: Probe): int {
    if !probe.Membership? then before + n
    else if before == 1 || n > 0 then 1 else 0
  }

  // ---- every key keeps one type ---------------------------------------------------------

  /** Keys the writers do not manage, such as the heartbeat, may hold anything. */
  datatype Kind = StringKind | HashKind | ZSetKind | Unmanaged

  ghost predicate IsDaily(key: string) {
    exists carrier: string, date: string :: NoLower(carrier) && key == CarrierDaily(carrier, date)
  }

  ghost predicate IsStation(key: string) {
    exists system: string, station: string :: NoLower(system) && key == Station(system, station)
  }

  ghost predicate IsNamedSet(key: string) {
    exists name: string :: NoLower(name) && (key == SystemStations(name) || key == CarrierDays(name))
  }

  ghost function KindOf(key: string): Kind {
    if IsDaily(key) then StringKind
    else if IsStation(key) then HashKind
    else if IsNamedSet(key) || key == SYSTEM_INDEX || key == CARRIER_INDEX || key == SYSTEM_VISITS then ZSetKind
    else Unmanaged
  }

  ghost predicate HasKind(value: Value, kind: Kind) {
    match kind
    case StringKind => value.Counter?
    case HashKind => value.Hash?
    case ZSetKind => value.ZSet?
    case Unmanaged => true
  }

  ghost predicate WellTyped(store: Store) {
    forall key :: key in store ==> HasKind(store[key].value, KindOf(key))
  }

  /** A command the writers issue: it fits its key's type, and only increments touch what
      the probes count. */
  ghost predicate Proper(cmd: Command) {
    match cmd
    case Incr(key) => KindOf(key) == StringKind
    case HIncr(key, _) => KindOf(key) == HashKind
    case HSet(key, fields) => KindOf(key) == HashKind && "count" !in fields
    case ZAdd(key, _, _) => KindOf(key) == ZSetKind && key != SYSTEM_VISITS
    case ZIncr(key, _) => KindOf(key) == ZSetKind
    case Expire(_, _) => true
    case ExpireAt(_, _) => true
  }

  ghost predicate AllProper(cmds: seq<Command>) {
    forall i :: 0 <= i < |cmds| ==> Proper(cmds[i])
  }

  lemma StationKind(system: string, station: string)
    requires NoLower(system)
    ensures KindOf(Station(system, station)) == HashKind
    ensures KindOf(SystemStations(system)) == ZSetKind
  {
    assert IsStation(Station(system, station)) && IsNamedSet(SystemStations(system));
    assert Station(system, station)[0] == 's' && SystemStations(system)[0] == 's';
    assert forall c: string, d: string :: CarrierDaily(c, d)[0] == 'c';
    forall s: string, n: string | NoLower(s)
      ensures SystemStations(system) != Station(s, n)
    {
      StationIsNotSystemStations(s, n, system);
    }
  }

  lemma CarrierKind(carrier: string, date: string)
    requires NoLower(carrier)
    ensures KindOf(CarrierDaily(carrier, date)) == StringKind
    ensures KindOf(CarrierDays(carrier)) == ZSetKind
  {
    assert IsDaily(CarrierDaily(carrier, date)) && IsNamedSet(CarrierDays(carrier));
    assert CarrierDays(carrier)[0] == 'c';
    assert forall s: string, n: string :: Station(s, n)[0] == 's';
    forall c: string, d: string | NoLower(c)
      ensures CarrierDays(carrier) != CarrierDaily(c, d)
    {
      CarrierDailyIsNotCarrierDays(c, d, carrier);
    }
  }

  lemma FixedKinds()
    ensures KindOf(SYSTEM_INDEX) == ZSetKind && KindOf(CARRIER_INDEX) == ZSetKind && KindOf(SYSTEM_VISITS) == ZSetKind
  {
    assert forall c: string, d: string :: CarrierDaily(c, d)[0] == 'c';
    assert forall s: string, n: string :: Station(s, n)[0] == 's' && Station(s, n)[6] == ':';
    assert SYSTEM_VISITS[0] == 's' && SYSTEM_VISITS[6] == 's';
    assert SYSTEM_INDEX[0] == 'i' && CARRIER_INDEX[0] == 'i';
  }

  /** The heartbeat that the receiver writes, whatever it holds, disturbs nothing. */
  lemma HeartbeatIsUnmanaged(store: Store, entry: Entry)
    requires WellTyped(store)
    ensures KindOf(HEARTBEAT) == Unmanaged && WellTyped(store[HEARTBEAT := entry])
  {
    assert HEARTBEAT[0] == 'h';
    assert forall c: string, d: string :: CarrierDaily(c, d)[0] == 'c';
    assert forall c: string :: CarrierDays(c)[0] == 'c';
    assert forall s: string, n: string :: Station(s, n)[0] == 's';
    assert forall s: string :: SystemStations(s)[0] == 's';
    assert SYSTEM_INDEX[0] == 'i' && CARRIER_INDEX[0] == 'i' && SYSTEM_VISITS[0] == 's';
  }

  lemma StationBatchProper(system: string, station: string, stationType: string, timestamp: int)
    ensures AllProper(StationBatch(system, station, stationType, timestamp))
  {
    StationKind(NormalizeSystem(system), station);
    FixedKinds();
    assert SYSTEM_INDEX[0] == 'i' && SYSTEM_VISITS[0] == 's';
    assert SystemStations(NormalizeSystem(system))[6] == ':' && SYSTEM_VISITS[6] == 's';
  }

  lemma CarrierBatchProper(carrier: string, date: string, timestamp: int)
    ensures AllProper(FleetCarrierBatch(carrier, date, timestamp))
  {
    CarrierKind(NormalizeCarrier(carrier), date);
    FixedKinds();
    assert CARRIER_INDEX[0] == 'i' && SYSTEM_VISITS[0] == 's';
    assert CarrierDays(NormalizeCarrier(carrier))[0] == 'c';
  }

  /** Everything the journal handler issues is proper. */
  lemma HandlerIsProper(event: Event)
    ensures AllProper(EventCommands(event))
  {
    match event
    case Docked(system, stationName, stationType, timestamp, date) =>
      var name := if stationName.Text? then stationName.text else "Unknown";
      var kind := if stationType.Text? then stationType.text else "Unknown";
      StationBatchProper(system, name, kind, timestamp);
      CarrierBatchProper(name, date, timestamp);
    case FsdJump(_, _) => FixedKinds();
    case Other =>
  }

  // ---- readings depend on the tally alone -----------------------------------------------

  lemma StepKeepsTypes(store: Store, at: int, cmd: Command)
    requires WellTyped(store) && Proper(cmd)
    ensures WellTyped(Apply(store, at, cmd))
  {}

  lemma StepReading(store: Store, at: int, cmd: Command, probe: Probe)
    requires WellTyped(store) && Proper(cmd)
    requires cmd.key in store ==> !store[cmd.key].Expired(at)
    ensures Reading(Apply(store, at, cmd), probe) ==
            Advanced(Reading(store, probe), if Touches(cmd, probe) then 1 else 0, probe)
  {
    if probe.VisitScore? {
      FixedKinds();
    }
  }

  function Commands(run: seq<Arrival>): seq<Command> {
    if run == [] then [] else [run[0].cmd] + Commands(run[1..])
  }

  ghost predicate RunProper(run: seq<Arrival>) {
    forall i :: 0 <= i < |run| ==> Proper(run[i].cmd)
  }

  lemma {:induction false} RunReading(store: Store, run: seq<Arrival>, probe: Probe)
    requires WellTyped(store) && RunProper(run) && NothingExpires(store, run)
    ensures Reading(Run(store, run), probe) == Advanced(Reading(store, probe), Tally(Commands(run), probe), probe)
    decreases |run|
  {
    if run != [] {
      var next := Apply(store, run[0].at, run[0].cmd);
      assert Proper(run[0].cmd);
      StepKeepsTypes(store, run[0].at, run[0].cmd);
      StepReading(store, run[0].at, run[0].cmd, probe);
      RunReading(next, run[1..], probe);
      assert Commands(run)[1..] == Commands(run[1..]);
    }
  }

  // ---- the tally does not depend on the shard count -------------------------------------

  lemma {:induction false} TallyConcat(a: seq<Command>, b: seq<Command>, probe: Probe)
    ensures Tally(a + b, probe) == Tally(a, probe) + Tally(b, probe)
  {
    if a == [] {
      assert a + b == b;
    } else {
      assert (a + b)[1..] == a[1..] + b;
      TallyConcat(a[1..], b, probe);
    }
  }

  /** The tallies of shards 0..n-1 of a run, summed. */
  function RunSum(run: seq<Arrival>, n: nat, probe: Probe): nat {
    if n == 0 then 0 else RunSum(run, n - 1, probe) + Tally(From(run, n - 1), probe)
  }

  lemma {:induction false} RunSumCons(run: seq<Arrival>, n: nat, probe: Probe)
    requires run != []
    ensures RunSum(run, n, probe) ==
            RunSum(run[1..], n, probe) + (if run[0].shard < n && Touches(run[0].cmd, probe) then 1 else 0)
    decreases n
  {
    if n > 0 {
      RunSumCons(run, n - 1, probe);
      TallyConcat([run[0].cmd], From(run[1..], n - 1), probe);
      assert [] + From(run[1..], n - 1) == From(run[1..], n - 1);
    }
  }

  lemma {:induction false} RunSumEmpty(n: nat, probe: Probe)
    ensures RunSum([], n, probe) == 0
  {
    if n > 0 {
      RunSumEmpty(n - 1, probe);
    }
  }

  lemma {:induction false} RunTally(run: seq<Arrival>, count: nat, probe: Probe)
    requires forall i :: 0 <= i < |run| ==> run[i].shard < count
    ensures Tally(Commands(run), probe) == RunSum(run, count, probe)
    decreases |run|
  {
    if run == [] {
      RunSumEmpty(count, probe);
    } else {
      RunTally(run[1..], count, probe);
      RunSumCons(run, count, probe);
      assert Commands(run)[1..] == Commands(run[1..]);
    }
  }

  /** Everything the frames lead to, as one unsharded list. */
  function Everything(frames: seq<Frame>, p: Pipeline): seq<Command> {
    if frames == [] then [] else p.handle(frames[0].event) + Everything(frames[1..], p)
  }

  function FrameSum(frame: Frame, n: nat, count: int, p: Pipeline, probe: Probe): nat
    requires n <= count
  {
    if n == 0 then 0
    else FrameSum(frame, n - 1, count, p, probe) + Tally(FrameCommands(frame, n - 1, count, p), probe)
  }

  /** One frame's commands are tallied once over all shards. */
  lemma {:induction false} FrameTally(frame: Frame, n: nat, count: int, p: Pipeline, probe: Probe)
    requires 1 <= count && n <= count
    ensures FrameSum(frame, n, count, p, probe) ==
            if p.hash(frame.raw) % count < n then Tally(p.handle(frame.event), probe) else 0
    decreases n
  {
    if n > 0 {
      FrameTally(frame, n - 1, count, p, probe);
    }
  }

  function ShardSum(frames: seq<Frame>, n: nat, count: int, p: Pipeline, probe: Probe): nat
    requires n <= count
  {
    if n == 0 then 0
    else ShardSum(frames, n - 1, count, p, probe) + Tally(ShardCommands(frames, n - 1, count, p), probe)
  }

  lemma {:induction false} ShardSumCons(frames: seq<Frame>, n: nat, count: int, p: Pipeline, probe: Probe)
    requires frames != [] && n <= count
    ensures ShardSum(frames, n, count, p, probe) ==
            FrameSum(frames[0], n, count, p, probe) + ShardSum(frames[1..], n, count, p, probe)
    decreases n
  {
    if n > 0 {
      ShardSumCons(frames, n - 1, count, p, probe);
      TallyConcat(FrameCommands(frames[0], n - 1, count, p),
                  ShardCommands(frames[1..], n - 1, count, p), probe);
    }
  }

  lemma {:induction false} ShardSumEmpty(n: nat, count: int, p: Pipeline, probe: Probe)
    requires n <= count
    ensures ShardSum([], n, count, p, probe) == 0
    decreases n
  {
    if n > 0 {
      ShardSumEmpty(n - 1, count, p, probe);
    }
  }

  /** The partition loses no command and issues none twice. */
  lemma {:induction false} PartitionTally(frames: seq<Frame>, count: int, p: Pipeline, probe: Probe)
    requires 1 <= count
    ensures ShardSum(frames, count, count, p, probe) == Tally(Everything(frames, p), probe)
    decreases |frames|
  {
    if frames == [] {
      ShardSumEmpty(count, count, p, probe);
    } else {
      PartitionTally(frames[1..], count, p, probe);
      ShardSumCons(frames, count, count, p, probe);
      FrameTally(frames[0], count, count, p, probe);
      TallyConcat(p.handle(frames[0].event), Everything(frames[1..], p), probe);
    }
  }

  lemma {:induction false} SumsAgree(frames: seq<Frame>, n: nat, count: int, p: Pipeline, run: seq<Arrival>, probe: Probe)
    requires n <= count
    requires forall i :: 0 <= i < n ==> From(run, i) == ShardCommands(frames, i, count, p)
    ensures RunSum(run, n, probe) == ShardSum(frames, n, count, p, probe)
    decreases n
  {
    if n > 0 {
      SumsAgree(frames, n - 1, count, p, run, probe);
    }
  }

  // ---- the commands of a run come from the handler --------------------------------------

  lemma {:induction false} ArrivalIsIssued(run: seq<Arrival>, i: nat)
    requires i < |run|
    ensures run[i].cmd in From(run, run[i].shard)
    decreases i
  {
    if i > 0 {
      ArrivalIsIssued(run[1..], i - 1);
    }
  }

  lemma {:induction false} ShardCommandsProper(frames: seq<Frame>, shard: int, count: int, p: Pipeline)
    requires 0 <= shard < count
    requires forall event :: AllProper(p.handle(event))
    ensures AllProper(ShardCommands(frames, shard, count, p))
    decreases |frames|
  {
    if frames != [] {
      ShardCommandsProper(frames[1..], shard, count, p);
      assert AllProper(p.handle(frames[0].event));
    }
  }

  lemma InterleavingIsProper(frames: seq<Frame>, count: int, p: Pipeline, run: seq<Arrival>)
    requires Interleaves(frames, count, p, run)
    requires forall event :: AllProper(p.handle(event))
    ensures RunProper(run)
  {
    forall i | 0 <= i < |run|
      ensures Proper(run[i].cmd)
    {
      ArrivalIsIssued(run, i);
      ShardCommandsProper(frames, run[i].shard, count, p);
    }
  }

  // ---- the result -----------------------------------------------------------------------

  /** What any number of shards leaves behind is what the unsharded list leaves behind. */
  lemma ShardedReading(frames: seq<Frame>, count: int, p: Pipeline, run: seq<Arrival>, store: Store, probe: Probe)
    requires Interleaves(frames, count, p, run)
    requires forall event :: AllProper(p.handle(event))
    requires WellTyped(store) && NothingExpires(store, run)
    ensures Reading(Run(store, run), probe) ==
            Advanced(Reading(store, probe), Tally(Everything(frames, p), probe), probe)
  {
    InterleavingIsProper(frames, count, p, run);
    RunReading(store, run, probe);
    RunTally(run, count, probe);
    SumsAgree(frames, count, count, p, run, probe);
    PartitionTally(frames, count, p, probe);
  }

  /** Sharding refines one consumer: every counter and every set membership ends the same,
      for every shard count, frame sequence and command-level interleaving. */
  lemma ShardingRefinesOneConsumer(frames: seq<Frame>, count: int, sharded: seq<Arrival>, single: seq<Arrival>, store: Store, probe: Probe)
    requires Interleaves(frames, count, PIPELINE, sharded)
    requires Interleaves(frames, 1, PIPELINE, single)
    requires WellTyped(store) && NothingExpires(store, sharded) && NothingExpires(store, single)
    ensures Reading(Run(store, sharded), probe) == Reading(Run(store, single), probe)
  {
    forall event: Event
      ensures AllProper(EventCommands(event))
    {
      HandlerIsProper(event);
    }
    ShardedReading(frames, count, PIPELINE, sharded, store, probe);
    ShardedReading(frames, 1, PIPELINE, single, store, probe);
  }

  // ---- and the tally counts the feed ----------------------------------------------------

  /** A docking at a fleet carrier, at a station, or neither. */
  datatype Landing = AtCarrier(carrier: string, date: string) | AtStation(system: string, station: string) | Nowhere

  function LandingOf(event: Event): Landing {
    if !event.Docked? || event.stationType.Null? then Nowhere
    else
      var name := if event.stationName.Text? then event.stationName.text else "Unknown";
      if event.stationType == Text("FleetCarrier") then AtCarrier(NormalizeCarrier(name), event.date)
      else AtStation(NormalizeSystem(event.system), name)
  }

  predicate LandingBears(landing: Landing, probe: Probe) {
    match landing
    case AtCarrier(carrier, date) =>
      || probe == StringCounter(CarrierDaily(carrier, date))
      || probe == Membership(CarrierDays(carrier), date)
      || probe == Membership(CARRIER_INDEX, carrier)
    case AtStation(system, station) =>
      || probe == StationCount(Station(system, station))
      || probe == Membership(SystemStations(system), station)
      || probe == Membership(SYSTEM_INDEX, system)
    case Nowhere => false
  }

  predicate VisitBears(system: string, probe: Probe) {
    probe == VisitScore(system) || probe == Membership(SYSTEM_VISITS, system)
  }

  /** The events a counter counts, and those that make a member. */
  predicate Bears(event: Event, probe: Probe) {
    LandingBears(LandingOf(event), probe) || (event.FsdJump? && VisitBears(NormalizeSystem(event.system), probe))
  }

  function Bearing(frames: seq<Frame>, probe: Probe): nat {
    if frames == [] then 0 else (if Bears(frames[0].event, probe) then 1 else 0) + Bearing(frames[1..], probe)
  }

  /** What a docking names: the station, or "Unknown" without a name. */
  function NameOf(event: Event): string
    requires event.Docked?
  {
    match event.stationName
    case Text(name) => name
    case _ => "Unknown"
  }

  /** The counter a reader looks up for a station counts the dockings at that station in systems of that
      name, in whatever case. */
  lemma StationCounterFollowsName(event: Event, asked: string, station: string)
    ensures Bears(event, StationCount(Station(NormalizeSystem(asked), station))) <==>
      && event.Docked? && event.stationType != Null && event.stationType != Text("FleetCarrier")
      && NameOf(event) == station && SameName(event.system, asked)
  {
    if LandingOf(event).AtStation? {
      SameNormalExactly(event.system, asked);
      if Station(LandingOf(event).system, NameOf(event)) == Station(NormalizeSystem(asked), station) {
        StationInjective(LandingOf(event).system, NameOf(event), NormalizeSystem(asked), station);
      }
    }
  }

  /** The daily counter of a carrier counts its dockings of that day. */
  lemma CarrierCounterFollowsName(event: Event, asked: string, date: string)
    ensures Bears(event, StringCounter(CarrierDaily(NormalizeCarrier(asked), date))) <==>
      event.Docked? && event.stationType == Text("FleetCarrier") && event.date == date && SameName(NameOf(event), asked)
  {
    if LandingOf(event).AtCarrier? {
      SameNormalExactly(NameOf(event), asked);
      if CarrierDaily(LandingOf(event).carrier, event.date) == CarrierDaily(NormalizeCarrier(asked), date) {
        CarrierDailyInjective(LandingOf(event).carrier, event.date, NormalizeCarrier(asked), date);
      }
    }
  }

  /** The visits of a system are the jumps to it. */
  lemma VisitsFollowName(event: Event, asked: string)
    ensures Bears(event, VisitScore(NormalizeSystem(asked))) <==> event.FsdJump? && SameName(event.system, asked)
  {
    if event.FsdJump? {
      SameNormalExactly(event.system, asked);
    }
  }

  lemma TallyOfThree(a: Command, b: Command, c: Command, probe: Probe)
    ensures Tally([a, b, c], probe) ==
      (if Touches(a, probe) then 1 else 0) + (if Touches(b, probe) then 1 else 0) + (if Touches(c, probe) then 1 else 0)
  {
    assert [a, b, c] == [a] + ([b] + [c]);
    TallyConcat([a], [b] + [c], probe);
    TallyConcat([b], [c], probe);
  }

  lemma StationBatchTally(system: string, name: string, kind: string, timestamp: int, probe: Probe)
    ensures Tally(StationBatch(system, name, kind, timestamp), probe) ==
      if LandingBears(AtStation(NormalizeSystem(system), name), probe) then 1 else 0
  {
    var b := StationBatch(system, name, kind, timestamp);
    assert b == [b[0], b[1], b[2]] + [b[3], b[4], b[5]];
    TallyConcat([b[0], b[1], b[2]], [b[3], b[4], b[5]], probe);
    TallyOfThree(b[0], b[1], b[2], probe);
    TallyOfThree(b[3], b[4], b[5], probe);
    assert SYSTEM_INDEX[0] == 'i' && SystemStations(NormalizeSystem(system))[0] == 's';
  }

  lemma CarrierBatchTally(name: string, date: string, timestamp: int, probe: Probe)
    ensures Tally(FleetCarrierBatch(name, date, timestamp), probe) ==
      if LandingBears(AtCarrier(NormalizeCarrier(name), date), probe) then 1 else 0
  {
    var b := FleetCarrierBatch(name, date, timestamp);
    assert b == [b[0], b[1]] + [b[2], b[3], b[4]];
    TallyConcat([b[0], b[1]], [b[2], b[3], b[4]], probe);
    assert [b[0], b[1]][1..] == [b[1]] && [b[1]][1..] == [];
    TallyOfThree(b[2], b[3], b[4], probe);
    assert CARRIER_INDEX[0] == 'i' && CarrierDays(NormalizeCarrier(name))[0] == 'c';
  }

  lemma VisitBatchTally(system: string, weekEnd: int, probe: Probe)
    ensures Tally(SystemVisitBatch(system, weekEnd), probe) ==
      if VisitBears(NormalizeSystem(system), probe) then 1 else 0
  {
    var b := SystemVisitBatch(system, weekEnd);
    assert b == [b[0]] + [b[1]];
    TallyConcat([b[0]], [b[1]], probe);
  }

  /** An event bears once on what it concerns and not at all on anything else. */
  lemma EventTally(event: Event, probe: Probe)
    ensures Tally(EventCommands(event), probe) == if Bears(event, probe) then 1 else 0
  {
    match event
    case Docked(system, stationName, stationType, timestamp, date) =>
      var name := if stationName.Text? then stationName.text else "Unknown";
      var kind := if stationType.Text? then stationType.text else "Unknown";
      if kind == "FleetCarrier" {
        CarrierBatchTally(name, date, timestamp, probe);
      } else {
        StationBatchTally(system, name, kind, timestamp, probe);
      }
    case FsdJump(system, weekEnd) => VisitBatchTally(system, weekEnd, probe);
    case Other =>
  }

  lemma {:induction false} FeedTally(frames: seq<Frame>, probe: Probe)
    ensures Tally(Everything(frames, PIPELINE), probe) == Bearing(frames, probe)
  {
    if frames != [] {
      FeedTally(frames[1..], probe);
      TallyConcat(EventCommands(frames[0].event), Everything(frames[1..], PIPELINE), probe);
      EventTally(frames[0].event, probe);
    }
  }

  /** What Redis says is true of the feed: a counter has grown by the number of frames it
      counts, and a name is a member exactly if it was one or some frame makes it one. */
  lemma ShardsCountTheFeed(frames: seq<Frame>, count: int, run: seq<Arrival>, store: Store, probe: Probe)
    requires Interleaves(frames, count, PIPELINE, run)
    requires WellTyped(store) && NothingExpires(store, run)
    ensures Reading(Run(store, run), probe) == Advanced(Reading(store, probe), Bearing(frames, probe), probe)
  {
    forall event: Event
      ensures AllProper(EventCommands(event))
    {
      HandlerIsProper(event);
    }
    ShardedReading(frames, count, PIPELINE, run, store, probe);
    FeedTally(frames, probe);
  }
}
