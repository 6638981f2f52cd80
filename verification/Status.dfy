/** How operator/internal/controller/status.go derives a FeedListener's status from its
    consumer pods. */
module Status {
  import opened Sets
  import opened Wrappers

  // ---- observations ---------------------------------------------------------------------

  datatype ConditionStatus = True | False | Unknown

  datatype PodCondition = PodCondition(kind: string, status: ConditionStatus)

  /** What a pod's stream endpoint answered; a message time may be missing. */
  datatype Probe = Failed | Answered(lastMessage: Option<int>)

  /** A consumer pod, the shard it runs, and its probe with the time it was judged at. */
  datatype Pod = Pod(phase: string, conditions: seq<PodCondition>, ip: string, shard: int,
                     probe: Probe, probedAt: int)

  function ReadyCondition(conditions: seq<PodCondition>): bool {
    if conditions == [] then false
    else if conditions[0].kind == "Ready" then conditions[0].status == True
    else ReadyCondition(conditions[1..])
  }

  method IsPodReady(pod: Pod) returns (ready: bool)
    ensures ready <==> pod.phase == "Running" && ReadyCondition(pod.conditions)
  {
    if pod.phase != "Running" {
      return false;
    }
    for i := 0 to |pod.conditions|
      invariant ReadyCondition(pod.conditions) == ReadyCondition(pod.conditions[i..])
    {
      assert pod.conditions[i..][1..] == pod.conditions[i + 1..];
      if pod.conditions[i].kind == "Ready" {
        return pod.conditions[i].status == True;
      }
    }
    return false;
  }

  /** Ready and addressable: counted as a ready consumer, and probed. */
  predicate Counts(pod: Pod) { pod.phase == "Running" && ReadyCondition(pod.conditions) && pod.ip != "" }

  /** Heard a message within the threshold of being probed. */
  predicate Hears(pod: Pod, threshold: int) {
    && Counts(pod) && pod.probe.Answered? && pod.probe.lastMessage.Some?
    && pod.probedAt - pod.probe.lastMessage.value <= threshold
  }

  function HearsWithin(threshold: int): Pod -> bool { pod => Hears(pod, threshold) }

  function OneIf(b: bool): nat { if b then 1 else 0 }

  function CountIf(pods: seq<Pod>, p: Pod -> bool): nat {
    if pods == [] then 0 else CountIf(pods[..|pods| - 1], p) + OneIf(p(pods[|pods| - 1]))
  }

  function CountReady(pods: seq<Pod>): nat { CountIf(pods, Counts) }

  function CountHearing(pods: seq<Pod>, threshold: int): nat { CountIf(pods, HearsWithin(threshold)) }

  /** `last` is the latest message time any probed pod reported. */
  ghost predicate IsLatest(pods: seq<Pod>, last: Option<int>) {
    && (forall i :: 0 <= i < |pods| && Reports(pods[i]) ==> last.Some? && pods[i].probe.lastMessage.value <= last.value)
    && (last.Some? ==> exists i :: 0 <= i < |pods| && Reports(pods[i]) && pods[i].probe.lastMessage == last)
  }

  predicate Reports(pod: Pod) { Counts(pod) && pod.probe.Answered? && pod.probe.lastMessage.Some? }

  // ---- pigeonhole -----------------------------------------------------------------------

  /** The ready pods are distinct shards of the partition. */
  ghost predicate Partitioned(pods: seq<Pod>, consumers: int) {
    && (forall i :: 0 <= i < |pods| && Counts(pods[i]) ==> 0 <= pods[i].shard < consumers)
    && (forall i, j :: 0 <= i < j < |pods| && Counts(pods[i]) && Counts(pods[j]) ==> pods[i].shard != pods[j].shard)
  }

  ghost predicate ShardHeard(pods: seq<Pod>, threshold: int, shard: int) {
    exists i :: 0 <= i < |pods| && Hears(pods[i], threshold) && pods[i].shard == shard
  }

  ghost predicate EveryShardHeard(pods: seq<Pod>, threshold: int, consumers: int) {
    forall shard :: 0 <= shard < consumers ==> ShardHeard(pods, threshold, shard)
  }

  /** The shards 0..consumers-1. */
  ghost function Partition(consumers: nat): (shards: set<int>)
    ensures forall shard :: shard in shards <==> 0 <= shard < consumers
    ensures |shards| == consumers
  {
    if consumers == 0 then {} else Partition(consumers - 1) + {consumers - 1}
  }

  /** The shards of the chosen pods. */
  ghost function ShardsOf(pods: seq<Pod>, p: Pod -> bool): set<int> {
    if pods == [] then {}
    else
      var last := pods[|pods| - 1];
      ShardsOf(pods[..|pods| - 1], p) + (if p(last) then {last.shard} else {})
  }

  ghost predicate IsAt(pods: seq<Pod>, p: Pod -> bool, shard: int, i: int) {
    0 <= i < |pods| && p(pods[i]) && pods[i].shard == shard
  }

  lemma {:induction false} ShardsOfMembers(pods: seq<Pod>, p: Pod -> bool, shard: int)
    ensures shard in ShardsOf(pods, p) <==> exists i :: IsAt(pods, p, shard, i)
  {
    if pods != [] {
      var front := pods[..|pods| - 1];
      ShardsOfMembers(front, p, shard);
      if i :| IsAt(front, p, shard, i) {
        assert IsAt(pods, p, shard, i);
      }
      if i :| IsAt(pods, p, shard, i) {
        assert i < |front| ==> IsAt(front, p, shard, i);
      }
      assert p(pods[|front|]) ==> IsAt(pods, p, pods[|front|].shard, |front|);
    }
  }

  /** The chosen pods run distinct shards. */
  ghost predicate Separate(pods: seq<Pod>, p: Pod -> bool) {
    forall i, j :: 0 <= i < j < |pods| && p(pods[i]) && p(pods[j]) ==> pods[i].shard != pods[j].shard
  }

  lemma {:induction false} CountIsSize(pods: seq<Pod>, p: Pod -> bool)
    requires Separate(pods, p)
    ensures |ShardsOf(pods, p)| == CountIf(pods, p)
  {
    if pods != [] {
      var front, last := pods[..|pods| - 1], pods[|pods| - 1];
      CountIsSize(front, p);
      ShardsOfMembers(front, p, last.shard);
    }
  }

  lemma PartitionedIsSeparate(pods: seq<Pod>, threshold: int, consumers: nat)
    requires Partitioned(pods, consumers)
    ensures Separate(pods, Counts) && Separate(pods, HearsWithin(threshold))
  {}

  lemma HearingIsReady(pods: seq<Pod>, threshold: int, consumers: nat)
    requires Partitioned(pods, consumers)
    ensures ShardsOf(pods, HearsWithin(threshold)) <= ShardsOf(pods, Counts) <= Partition(consumers)
  {
    forall shard | shard in ShardsOf(pods, HearsWithin(threshold))
      ensures shard in ShardsOf(pods, Counts)
    {
      ShardsOfMembers(pods, HearsWithin(threshold), shard);
      var i :| IsAt(pods, HearsWithin(threshold), shard, i);
      assert IsAt(pods, Counts, shard, i);
      ShardsOfMembers(pods, Counts, shard);
    }
    forall shard | shard in ShardsOf(pods, Counts)
      ensures shard in Partition(consumers)
    {
      ShardsOfMembers(pods, Counts, shard);
    }
  }

  lemma HeardIsHearing(pods: seq<Pod>, threshold: int, shard: int)
    ensures shard in ShardsOf(pods, HearsWithin(threshold)) <==> ShardHeard(pods, threshold, shard)
  {
    ShardsOfMembers(pods, HearsWithin(threshold), shard);
    if ShardHeard(pods, threshold, shard) {
      var i :| 0 <= i < |pods| && Hears(pods[i], threshold) && pods[i].shard == shard;
      assert IsAt(pods, HearsWithin(threshold), shard, i);
    }
  }

  lemma HeardEverywhere(pods: seq<Pod>, threshold: int, consumers: nat)
    requires ShardsOf(pods, HearsWithin(threshold)) <= Partition(consumers)
    ensures ShardsOf(pods, HearsWithin(threshold)) == Partition(consumers) <==> EveryShardHeard(pods, threshold, consumers)
  {
    var heard := ShardsOf(pods, HearsWithin(threshold));
    forall shard
      ensures shard in heard <==> ShardHeard(pods, threshold, shard)
    {
      HeardIsHearing(pods, threshold, shard);
    }
    if EveryShardHeard(pods, threshold, consumers) {
      assert Partition(consumers) <= heard;
    }
  }

  /** As many hearing pods as shards means every shard is heard, and only then. */
  lemma AllHeardByCount(pods: seq<Pod>, threshold: int, consumers: nat)
    requires Partitioned(pods, consumers)
    ensures CountHearing(pods, threshold) <= CountReady(pods) <= consumers
    ensures CountHearing(pods, threshold) == consumers <==> EveryShardHeard(pods, threshold, consumers)
  {
    var ready, heard, whole := ShardsOf(pods, Counts), ShardsOf(pods, HearsWithin(threshold)), Partition(consumers);
    PartitionedIsSeparate(pods, threshold, consumers);
    CountIsSize(pods, Counts);
    CountIsSize(pods, HearsWithin(threshold));
    HearingIsReady(pods, threshold, consumers);
    SubsetSize(ready, whole);
    SubsetSize(heard, ready);
    SubsetSize(heard, whole);
    HeardEverywhere(pods, threshold, consumers);
  }

  // ---- the resource ---------------------------------------------------------------------

  datatype Phase = Unset | Pending | Progressing | Streaming | Silent | Degraded | Terminating

  datatype ConditionKind = IsAvailable | IsProgressing | IsStreaming | IsDegraded

  datatype Condition = Condition(status: bool, reason: string, observedGeneration: int)

  /** What a reconcile returns: an error, or when to come back. */
  datatype Outcome = Error | RequeueAfter(seconds: int) | Done

  const STATUS_POLL_INTERVAL := 30

  class FeedListenerStatus {
    const consumers: nat
    const threshold: int
    const generation: int

    var observedGeneration: int
    var desiredConsumers: int
    var readyConsumers: int
    var lastMessageTime: Option<int>
    var phase: Phase
    var conditions: map<ConditionKind, Condition>

    constructor (consumers: nat, threshold: int, generation: int)
      ensures this.consumers == consumers && this.threshold == threshold && this.generation == generation
    {
      this.consumers, this.threshold, this.generation := consumers, threshold, generation;
      observedGeneration, desiredConsumers, readyConsumers := 0, 0, 0;
      lastMessageTime, phase, conditions := None, Unset, map[];
    }

    predicate Holds(kind: ConditionKind)
      reads this
    {
      kind in conditions && conditions[kind].status
    }

    method SetAvailability(ready: int)
      modifies this`conditions
      ensures conditions.Keys == old(conditions.Keys) + {IsAvailable, IsProgressing}
      ensures Holds(IsAvailable) <==> ready > 0
      ensures Holds(IsProgressing) <==> ready < consumers
      ensures forall kind :: kind in old(conditions) && kind != IsAvailable && kind != IsProgressing ==>
                conditions[kind] == old(conditions)[kind]
    {
      var reason := if ready > 0 then "ConsumersReady" else "NoConsumersReady";
      conditions := conditions[IsAvailable := Condition(ready > 0, reason, generation)];
      reason := if ready < consumers then "ConsumersStarting" else "PartitionComplete";
      conditions := conditions[IsProgressing := Condition(ready < consumers, reason, generation)];
    }

    method SetStreaming(streamingShards: int) returns (streaming: bool)
      modifies this`conditions
      ensures streaming <==> streamingShards == consumers && consumers > 0
      ensures conditions.Keys == old(conditions.Keys) + {IsStreaming}
      ensures Holds(IsStreaming) <==> streaming
      ensures forall kind :: kind in old(conditions) && kind != IsStreaming ==> conditions[kind] == old(conditions)[kind]
    {
      streaming := streamingShards == consumers && consumers > 0;
      conditions := conditions[IsStreaming := Condition(streaming, if streaming then "FeedActive" else "FeedSilent", generation)];
    }

    /** Sets every condition of a status that was observed, and clears the one of a failure. */
    method SetConditions(ready: int, streamingShards: int) returns (streaming: bool)
      modifies this`conditions
      ensures streaming <==> streamingShards == consumers > 0
      ensures Holds(IsAvailable) <==> ready > 0
      ensures Holds(IsProgressing) <==> ready < consumers
      ensures Holds(IsStreaming) <==> streaming
      ensures IsDegraded !in conditions
    {
      SetAvailability(ready);
      streaming := SetStreaming(streamingShards);
      conditions := conditions - {IsDegraded};
    }

    function DerivePhase(ready: int, streaming: bool): Phase {
      if ready == 0 then Pending
      else if ready < consumers then Progressing
      else if streaming then Streaming
      else Silent
    }

    /** Counts ready and hearing pods and finds the latest message. */
    method Observe(pods: seq<Pod>) returns (ready: nat, lastMessage: Option<int>, streamingShards: nat)
      ensures ready == CountReady(pods) && streamingShards == CountHearing(pods, threshold)
      ensures IsLatest(pods, lastMessage)
    {
      ready, lastMessage, streamingShards := 0, None, 0;
      for i := 0 to |pods|
        invariant ready == CountReady(pods[..i]) && streamingShards == CountHearing(pods[..i], threshold)
        invariant IsLatest(pods[..i], lastMessage)
      {
        var pod := pods[i];
        assert pods[..i + 1] == pods[..i] + [pod];
        ghost var before := lastMessage;
        var isReady := IsPodReady(pod);
        if isReady && pod.ip != "" {
          ready := ready + 1;
          if pod.probe.Answered? && pod.probe.lastMessage.Some? {
            if lastMessage.None? || pod.probe.lastMessage.value > lastMessage.value {
              lastMessage := pod.probe.lastMessage;
            }
            if pod.probedAt - pod.probe.lastMessage.value <= threshold {
              streamingShards := streamingShards + 1;
            }
          }
        }
        LatestStep(pods[..i], pod, before, lastMessage);
      }
      assert pods[..|pods|] == pods;
    }

    /** Derives the status; `updateFails` is the status write being refused. */
    method ReconcileStatus(pods: seq<Pod>, updateFails: bool) returns (outcome: Outcome)
      modifies this
      ensures outcome == if updateFails then Error else RequeueAfter(30)
      ensures observedGeneration == generation && desiredConsumers == consumers && readyConsumers == CountReady(pods)
      ensures IsLatest(pods, lastMessageTime) || (IsLatest(pods, None) && lastMessageTime == old(lastMessageTime))
      ensures phase == DerivePhase(CountReady(pods), Holds(IsStreaming))
      ensures Holds(IsAvailable) <==> CountReady(pods) > 0
      ensures Holds(IsProgressing) <==> CountReady(pods) < consumers
      ensures Holds(IsStreaming) <==> CountHearing(pods, threshold) == consumers > 0
      ensures IsDegraded !in conditions
      // When the ready pods are distinct shards, the phase tells whether the whole feed is heard.
      ensures Partitioned(pods, consumers) && consumers > 0 ==>
        (phase == Streaming <==> EveryShardHeard(pods, threshold, consumers))
      // The phase sums up the conditions.
      ensures phase == Pending <==> !Holds(IsAvailable)
      ensures phase == Progressing <==> Holds(IsAvailable) && Holds(IsProgressing)
      ensures phase == Streaming <==> Holds(IsAvailable) && !Holds(IsProgressing) && Holds(IsStreaming)
      ensures phase == Silent <==> Holds(IsAvailable) && !Holds(IsProgressing) && !Holds(IsStreaming)
      ensures Partitioned(pods, consumers) && phase == Streaming ==>
        Holds(IsAvailable) && !Holds(IsProgressing) && Holds(IsStreaming) && IsDegraded !in conditions
    {
      var ready, lastMessage, streamingShards := Observe(pods);
      observedGeneration, desiredConsumers, readyConsumers := generation, consumers, ready;
      if lastMessage.Some? {
        lastMessageTime := lastMessage;
      }
      var streaming := SetConditions(ready, streamingShards);
      phase := DerivePhase(ready, streaming);
      outcome := if updateFails then Error else RequeueAfter(STATUS_POLL_INTERVAL);
      if Partitioned(pods, consumers) {
        StreamingMeansAllHeard(pods);
      }
    }

    /** The phase is Streaming exactly when every shard of the partition is heard. */
    lemma StreamingMeansAllHeard(pods: seq<Pod>)
      requires Partitioned(pods, consumers)
      ensures consumers > 0 ==>
        (DerivePhase(CountReady(pods), CountHearing(pods, threshold) == consumers) == Streaming
         <==> EveryShardHeard(pods, threshold, consumers))
      ensures DerivePhase(CountReady(pods), CountHearing(pods, threshold) == consumers > 0) == Streaming ==>
        CountReady(pods) == consumers > 0
    {
      AllHeardByCount(pods, threshold, consumers);
    }

    /** A failed reconcile: the failure shows, beside everything last known. */
    method MarkDegraded(reason: string)
      modifies this`conditions, this`phase, this`observedGeneration
      ensures Holds(IsDegraded) && conditions[IsDegraded].reason == reason
      ensures forall kind :: kind != IsDegraded ==>
        (kind in conditions <==> kind in old(conditions)) && (kind in conditions ==> conditions[kind] == old(conditions)[kind])
      ensures forall ready, streaming :: phase != DerivePhase(ready, streaming)
      ensures observedGeneration == generation
    {
      conditions := conditions[IsDegraded := Condition(true, reason, generation)];
      phase, observedGeneration := Degraded, generation;
    }
  }

  lemma LatestStep(pods: seq<Pod>, pod: Pod, before: Option<int>, after: Option<int>)
    requires IsLatest(pods, before)
    requires after == if Reports(pod) && (before.None? || pod.probe.lastMessage.value > before.value)
                      then pod.probe.lastMessage else before
    ensures IsLatest(pods + [pod], after)
  {
    var all := pods + [pod];
    assert all[|pods|] == pod;
    if after.Some? && after == before {
      var i :| 0 <= i < |pods| && Reports(pods[i]) && pods[i].probe.lastMessage == before;
      assert all[i] == pods[i];
    }
  }
}
