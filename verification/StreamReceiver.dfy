/** Silence handling: the receive loop of EliteEvents.Ingestion/Services/EddnStreamReceiver.cs,
    the clock of StreamHealthTracker.cs, the throttled heartbeat of StreamHeartbeat.cs and the
    judgement of EddnStreamHealthCheck.cs.  Times are .NET ticks of 100 ns; the wall clock
    never runs backwards. */
module StreamReceiver {
  import opened Wrappers

  const TICKS_PER_MILLISECOND := 10_000
  const HEARTBEAT_WRITE_INTERVAL := 50_000_000
  const HEARTBEAT_EXPIRATION := 36_000_000_000
  /** What a stored heartbeat may be behind the last message. */
  const LAG := HEARTBEAT_WRITE_INTERVAL + TICKS_PER_MILLISECOND
  const UNIX_EPOCH_MILLISECONDS := 62_135_596_800_000

  // ---- timestamps -----------------------------------------------------------------------

  type Ticks = nat

  function ToUnixMilliseconds(t: Ticks): int { t / TICKS_PER_MILLISECOND - UNIX_EPOCH_MILLISECONDS }

  function FromUnixMilliseconds(ms: int): int { (ms + UNIX_EPOCH_MILLISECONDS) * TICKS_PER_MILLISECOND }

  /** A stored time is the original, less a fraction of a millisecond. */
  lemma TruncationLosesUnderAMillisecond(t: Ticks)
    ensures 0 <= t - FromUnixMilliseconds(ToUnixMilliseconds(t)) < TICKS_PER_MILLISECOND
  {}

  // ---- the health check -----------------------------------------------------------------

  /** The heartbeat key: unix milliseconds, and the moment it expires. */
  datatype Heartbeat = Heartbeat(milliseconds: int, expiresAt: Ticks)

  function LastMessageStored(key: Option<Heartbeat>, now: Ticks): Option<int> {
    if key.None? || key.value.expiresAt < now then None
    else Some(FromUnixMilliseconds(key.value.milliseconds))
  }

  predicate Healthy(key: Option<Heartbeat>, now: Ticks, threshold: int) {
    var last := LastMessageStored(key, now);
    last.Some? && now - last.value <= threshold
  }

  // ---- the receiver ---------------------------------------------------------------------

  /** A moment of the loop, and the heartbeat key as it was then. */
  datatype Moment = Moment(at: Ticks, key: Option<Heartbeat>)

  /** Successive moments are more than `gap` apart. */
  ghost predicate Spaced(moments: seq<Moment>, gap: int) {
    forall i :: 0 <= i < |moments| - 1 ==> moments[i + 1].at - moments[i].at > gap
  }

  /** The health check would have failed at each moment but the first. */
  ghost predicate UnhealthyAtEach(moments: seq<Moment>, threshold: int) {
    forall i :: 1 <= i < |moments| ==> !Healthy(moments[i].key, moments[i].at, threshold)
  }

  /** How many turns of the loop received a frame. */
  function Arrivals(frames: seq<bool>): nat {
    if frames == [] then 0 else Arrivals(frames[..|frames| - 1]) + (if frames[|frames| - 1] then 1 else 0)
  }

  class Receiver {
    const threshold: int
    var clock: Ticks
    var lastMessage: Ticks
    var received: nat
    var lastWritten: Ticks
    var key: Option<Heartbeat>

    /** The start of the loop, and then every decision to reconnect. */
    ghost var decisions: seq<Moment>
    /** Some heartbeat write failed. */
    ghost var writeFailed: bool
    /** Turns of the loop that received nothing and asked whether to reconnect. */
    ghost var idleTurns: nat

    /** What holds at every head of the receive loop. */
    ghost predicate AtLoopHead(lastReconnect: Ticks)
      reads this
    {
      && lastMessage <= clock && lastReconnect <= clock
      && HeartbeatNotLater()
      && (!writeFailed ==> HeartbeatRecent())
      && decisions != [] && decisions[|decisions| - 1].at <= lastReconnect
      && Spaced(decisions, threshold)
      && UnhealthyAtEach(decisions, threshold)
    }

    ghost predicate HeartbeatNotLater()
      reads this
    {
      key.Some? ==> FromUnixMilliseconds(key.value.milliseconds) <= lastMessage
    }

    /** The key holds the last written time, under an interval and a millisecond behind. */
    ghost predicate HeartbeatRecent()
      reads this
    {
      && key.Some? && key.value.milliseconds == ToUnixMilliseconds(lastWritten)
      && 0 <= lastMessage - lastWritten < HEARTBEAT_WRITE_INTERVAL
      && lastMessage - FromUnixMilliseconds(key.value.milliseconds) < HEARTBEAT_WRITE_INTERVAL + TICKS_PER_MILLISECOND
      && lastWritten + HEARTBEAT_EXPIRATION <= key.value.expiresAt
    }

    constructor (threshold: int, start: Ticks)
      ensures this.threshold == threshold && clock == lastMessage == start && key == None && received == 0
      ensures lastWritten == 0 && decisions == [] && !writeFailed
    {
      this.threshold := threshold;
      clock, lastMessage, received, lastWritten, key := start, start, 0, 0, None;
      decisions, writeFailed, idleTurns := [], false, 0;
    }

    /** `DateTimeOffset.UtcNow`, after any amount of time has passed. */
    method UtcNow() returns (now: Ticks)
      modifies this`clock
      ensures now == clock >= old(clock)
    {
      var elapsed: int :| elapsed >= 0;
      clock := clock + elapsed;
      now := clock;
    }

    method RecordMessage()
      modifies this`clock, this`lastMessage, this`received
      ensures clock >= old(clock) && lastMessage == clock && received == old(received) + 1
    {
      var now := UtcNow();
      lastMessage := now;
      received := received + 1;
    }

    /** The throttled heartbeat write; a failed write still advances the throttle. */
    method RecordHeartbeat(force: bool)
      modifies this`clock, this`lastWritten, this`key, this`writeFailed
      ensures clock >= old(clock) && (old(writeFailed) ==> writeFailed)
      ensures !force && lastMessage - old(lastWritten) < HEARTBEAT_WRITE_INTERVAL ==>
        lastWritten == old(lastWritten) && key == old(key) && writeFailed == old(writeFailed)
      ensures force || lastMessage - old(lastWritten) >= HEARTBEAT_WRITE_INTERVAL ==>
        && lastWritten == lastMessage
        && (key == old(key) || key == Some(Heartbeat(ToUnixMilliseconds(lastMessage), clock + HEARTBEAT_EXPIRATION)))
        && (!writeFailed ==> key == Some(Heartbeat(ToUnixMilliseconds(lastMessage), clock + HEARTBEAT_EXPIRATION)))
    {
      if !force && lastMessage - lastWritten < HEARTBEAT_WRITE_INTERVAL {
        return;
      }
      lastWritten := lastMessage;
      var now := UtcNow();
      var ok: bool := *;
      if ok {
        key := Some(Heartbeat(ToUnixMilliseconds(lastMessage), now + HEARTBEAT_EXPIRATION));
      } else {
        writeFailed := true;
      }
    }

    /** Silent past the threshold, and not reconnected within it. */
    method ShouldReconnect(lastReconnect: Ticks) returns (reconnect: bool, now: Ticks)
      modifies this`clock
      ensures now == clock >= old(clock)
      ensures reconnect <==> now - lastMessage > threshold && now - lastReconnect > threshold
    {
      now := UtcNow();
      reconnect := now - lastMessage > threshold && now - lastReconnect > threshold;
    }

    /** When the loop reconnects, the health check would fail at that very moment. */
    lemma SilentMeansUnhealthy(now: Ticks)
      requires HeartbeatNotLater() && now - lastMessage > threshold
      ensures !Healthy(key, now, threshold)
    {}

    /** While no write has failed the check follows the stream: it is healthy only if a message came within
        the threshold and the key has not expired, and it is healthy if one came within the threshold less
        what a heartbeat may lag, and the threshold does not outlast the key. */
    lemma HealthFollowsTheStream(lastReconnect: Ticks, now: Ticks)
      requires AtLoopHead(lastReconnect) && !writeFailed
      ensures Healthy(key, now, threshold) ==> now - lastMessage <= threshold && now <= key.value.expiresAt
      ensures now - lastMessage <= threshold - LAG && (now <= key.value.expiresAt || threshold <= HEARTBEAT_EXPIRATION) ==>
        Healthy(key, now, threshold)
    {
      if Healthy(key, now, threshold) && now - lastMessage > threshold {
        SilentMeansUnhealthy(now);
      }
    }

    /** A frame arrived, whichever shard owns it. */
    method OnFrame(ghost lastReconnect: Ticks)
      requires AtLoopHead(lastReconnect)
      modifies this`clock, this`lastMessage, this`received, this`lastWritten, this`key, this`writeFailed
      ensures AtLoopHead(lastReconnect) && received == old(received) + 1 && lastMessage >= old(clock)
    {
      RecordMessage();
      RecordHeartbeat(false);
      TruncationLosesUnderAMillisecond(lastMessage);
      TruncationLosesUnderAMillisecond(lastWritten);
    }

    /** No frame arrived: reconnect at this instant exactly when the stream has been silent, and
        not reconnected, for longer than the threshold. */
    method OnIdle(lastReconnect: Ticks) returns (reconnectedAt: Ticks, ghost asked: Ticks)
      requires AtLoopHead(lastReconnect)
      modifies this`clock, this`decisions, this`idleTurns
      ensures AtLoopHead(reconnectedAt) && idleTurns == old(idleTurns) + 1 && old(clock) <= asked <= clock
      ensures if asked - lastMessage > threshold && asked - lastReconnect > threshold
              then decisions == old(decisions) + [Moment(asked, key)] && !Healthy(key, asked, threshold) && reconnectedAt >= asked
              else decisions == old(decisions) && reconnectedAt == lastReconnect
    {
      idleTurns := idleTurns + 1;
      reconnectedAt := lastReconnect;
      var reconnect, now := ShouldReconnect(lastReconnect);
      asked := now;
      if reconnect {
        SilentMeansUnhealthy(now);
        decisions := decisions + [Moment(now, key)];
        reconnectedAt := UtcNow();
      }
    }

    /** The receive loop; each entry of `frames` says whether a frame arrived. */
    method Execute(frames: seq<bool>) returns (lastReconnect: Ticks)
      requires key == None && decisions == [] && !writeFailed && lastMessage <= clock
      modifies this
      ensures AtLoopHead(lastReconnect)
      // While writes succeed the stored time is less than five seconds and a millisecond old, and is kept an hour.
      ensures !writeFailed ==>
        && key.Some? && 0 <= lastMessage - FromUnixMilliseconds(key.value.milliseconds) < 50_010_000
        && lastWritten + 36_000_000_000 <= key.value.expiresAt
      ensures received == old(received) + Arrivals(frames)
      ensures idleTurns == old(idleTurns) + |frames| - Arrivals(frames)
    {
      RecordHeartbeat(true);
      TruncationLosesUnderAMillisecond(lastMessage);
      lastReconnect := UtcNow();
      decisions := [Moment(lastReconnect, key)];
      for i := 0 to |frames|
        invariant AtLoopHead(lastReconnect)
        invariant received == old(received) + Arrivals(frames[..i])
        invariant idleTurns == old(idleTurns) + i - Arrivals(frames[..i])
      {
        assert frames[..i + 1][..i] == frames[..i];
        if frames[i] {
          OnFrame(lastReconnect);
        } else {
          ghost var asked;
          lastReconnect, asked := OnIdle(lastReconnect);
        }
      }
      assert frames[..|frames|] == frames;
    }
  }
}
