/** The three write batches of EliteEvents.Eddn/Storage/DockingWriter.cs and the event
    dispatch of EliteEvents.Ingestion/Handlers/JournalMessageHandler.cs. */
module DockingWriter {
  import opened Redis
  import opened RedisKeys

  /** Thirty days, in milliseconds. */
  const DATA_EXPIRATION := 2_592_000_000

  // ---- batches --------------------------------------------------------------------------

  function FleetCarrierBatch(carrierId: string, date: string, timestamp: int): seq<Command> {
    var carrier := NormalizeCarrier(carrierId);
    [ Incr(CarrierDaily(carrier, date)),
      Expire(CarrierDaily(carrier, date), DATA_EXPIRATION),
      ZAdd(CarrierDays(carrier), date, timestamp),
      Expire(CarrierDays(carrier), DATA_EXPIRATION),
      ZAdd(CARRIER_INDEX, carrier, 0) ]
  }

  function StationBatch(systemName: string, station: string, stationType: string, timestamp: int): seq<Command> {
    var system := NormalizeSystem(systemName);
    [ HIncr(Station(system, station), "count"),
      HSet(Station(system, station), map["type" := Label(stationType), "last_seen" := Number(timestamp)]),
      Expire(Station(system, station), DATA_EXPIRATION),
      ZAdd(SystemStations(system), station, timestamp),
      Expire(SystemStations(system), DATA_EXPIRATION),
      ZAdd(SYSTEM_INDEX, system, 0) ]
  }

  /** `weekEnd` is the next weekly expiration, computed outside the model. */
  function SystemVisitBatch(systemName: string, weekEnd: int): seq<Command> {
    [ ZIncr(SYSTEM_VISITS, NormalizeSystem(systemName)),
      ExpireAt(SYSTEM_VISITS, weekEnd) ]
  }

  // ---- dispatch -------------------------------------------------------------------------

  /** A JSON property: missing, null, or text. */
  datatype Property = Missing | Null | Text(text: string)

  datatype Event =
    | Docked(system: string, stationName: Property, stationType: Property, timestamp: int, date: string)
    | FsdJump(system: string, weekEnd: int)
    | Other

  /** The commands one event leads to.  A null station type makes the handler throw before
      any write, and the receiver drops the message. */
  function EventCommands(event: Event): seq<Command> {
    match event
    case Docked(system, stationName, stationType, timestamp, date) =>
      var name := if stationName.Text? then stationName.text else "Unknown";
      if stationType.Null? then []
      else
        var kind := if stationType.Text? then stationType.text else "Unknown";
        if kind == "FleetCarrier" then FleetCarrierBatch(name, date, timestamp)
        else StationBatch(system, name, kind, timestamp)
    case FsdJump(system, weekEnd) => SystemVisitBatch(system, weekEnd)
    case Other => []
  }
}
