/** Redis as a typed map with a deadline per key.  A key past its deadline is invisible;
    whether it is still stored cannot be observed, so it simply stays in the map. */
module Redis {
  import opened Wrappers

  datatype Field = Number(n: int) | Label(text: string)

  datatype Value =
    | Counter(n: int)
    | Hash(fields: map<string, Field>)
    | ZSet(scores: map<string, int>)

  datatype Entry = Entry(value: Value, deadline: Option<int>) {
    predicate Expired(now: int) { deadline.Some? && deadline.value < now }
  }

  type Store = map<string, Entry>

  /** What a client sees under a key. */
  function Look(store: Store, now: int, key: string): Option<Entry> {
    if key in store && !store[key].Expired(now) then Some(store[key]) else None
  }

  datatype Command =
    | Incr(key: string)
    | HIncr(key: string, field: string)
    | HSet(key: string, fields: map<string, Field>)
    | ZAdd(key: string, member: string, score: int)
    | ZIncr(key: string, member: string)
    | Expire(key: string, ttl: int)
    | ExpireAt(key: string, deadline: int)

  function NumberAt(fields: map<string, Field>, field: string): int {
    if field in fields && fields[field].Number? then fields[field].n else 0
  }

  /** The entry a command leaves under its key; `None` when it leaves nothing.  A command on a
      key of another type is answered with an error and changes nothing. */
  function Outcome(entry: Option<Entry>, now: int, cmd: Command): Option<Entry> {
    match cmd
    case Incr(_) =>
      if entry.None? then Some(Entry(Counter(1), None))
      else if entry.value.value.Counter? then Some(entry.value.(value := Counter(entry.value.value.n + 1)))
      else entry
    case HIncr(_, field) =>
      if entry.None? then Some(Entry(Hash(map[field := Number(1)]), None))
      else if entry.value.value.Hash? then
        var fields := entry.value.value.fields;
        Some(entry.value.(value := Hash(fields[field := Number(NumberAt(fields, field) + 1)])))
      else entry
    case HSet(_, added) =>
      if entry.None? then Some(Entry(Hash(added), None))
      else if entry.value.value.Hash? then Some(entry.value.(value := Hash(entry.value.value.fields + added)))
      else entry
    case ZAdd(_, member, score) =>
      if entry.None? then Some(Entry(ZSet(map[member := score]), None))
      else if entry.value.value.ZSet? then
        Some(entry.value.(value := ZSet(entry.value.value.scores[member := score])))
      else entry
    case ZIncr(_, member) =>
      if entry.None? then Some(Entry(ZSet(map[member := 1]), None))
      else if entry.value.value.ZSet? then
        var scores := entry.value.value.scores;
        Some(entry.value.(value := ZSet(scores[member := (if member in scores then scores[member] else 0) + 1])))
      else entry
    case Expire(_, ttl) =>
      if entry.None? then None else Some(entry.value.(deadline := Some(now + ttl)))
    case ExpireAt(_, deadline) =>
      if entry.None? then None else Some(entry.value.(deadline := Some(deadline)))
  }

  function Apply(store: Store, now: int, cmd: Command): Store {
    var after := Outcome(Look(store, now, cmd.key), now, cmd);
    if after.Some? then store[cmd.key := after.value] else store
  }

  /** A batch whose commands no other client interleaves with. */
  function ApplyAll(store: Store, now: int, batch: seq<Command>): Store
    decreases |batch|
  {
    if batch == [] then store else ApplyAll(Apply(store, now, batch[0]), now, batch[1..])
  }

  /** A command touches its own key alone. */
  lemma ApplyElsewhere(store: Store, now: int, cmd: Command, key: string)
    requires key != cmd.key
    ensures key in Apply(store, now, cmd) <==> key in store
    ensures key in store ==> Apply(store, now, cmd)[key] == store[key]
  {}

  lemma {:induction false} BatchElsewhere(store: Store, now: int, batch: seq<Command>, key: string)
    requires forall i :: 0 <= i < |batch| ==> batch[i].key != key
    ensures key in ApplyAll(store, now, batch) <==> key in store
    ensures key in store ==> ApplyAll(store, now, batch)[key] == store[key]
    decreases |batch|
  {
    if batch != [] {
      assert batch[0].key != key;
      ApplyElsewhere(store, now, batch[0], key);
      BatchElsewhere(Apply(store, now, batch[0]), now, batch[1..], key);
    }
  }
}
