/** The FeedListener controller of operator/internal/controller/feedlistener_controller.go and
    finalizer.go, as a run of API calls with anything at all happening in the cluster between
    any two of them.  One controller is active and its reads are fresh. */
module Controller {
  import opened Cluster
  import opened Labels
  import opened Resources
  import opened Wrappers
  import Status

  const DRAIN_POLL_INTERVAL := 5

  // ---- runs -----------------------------------------------------------------------------

  ghost predicate AllHold(history: seq<World>) {
    forall i :: 0 <= i < |history| ==> Inv(history[i])
  }

  ghost predicate AllSafe(history: seq<World>) {
    forall i :: 0 <= i < |history| ==> Safe(history[i]) && Guarded(history[i])
  }

  ghost predicate DrainedSince(history: seq<World>, at: nat) {
    at < |history| && forall i :: at <= i < |history| ==> history[i].redis == {}
  }

  /** What a stretch of a run that starts no drain and releases nothing preserves. */
  ghost predicate Ran(calm: bool, w: World, h: seq<World>, w': World, h': seq<World>) {
    Later(w, w') && h <= h' && (calm ==> w'.listener == w.listener && OnCourse(w, w'))
  }

  lemma PrefixTransitive(a: seq<World>, b: seq<World>, c: seq<World>)
    requires a <= b <= c
    ensures a <= c
  {}

  lemma RanTransitive(calm: bool, w: World, h: seq<World>, w': World, h': seq<World>, w'': World, h'': seq<World>)
    requires Ran(calm, w, h, w', h') && Ran(calm, w', h', w'', h'')
    ensures Ran(calm, w, h, w'', h'')
  {
    LaterTransitive(w, w', w'');
    if calm {
      OnCourseTransitive(w, w', w'');
    }
    PrefixTransitive(h, h', h'');
  }

  lemma CreatingTheDrainKeepsInv(w: World)
    requires Inv(w) && Quiet(w) && Leaving(w) && w.drainJob.None?
    ensures Inv(w.(drainJob := Some(DrainJob(0, 0, false))))
  {
    var w' := w.(drainJob := Some(DrainJob(0, 0, false)));
    if Purged(w') {
      assert Purged(w);
    }
  }

  lemma ReleasingKeepsInv(w: World)
    requires Inv(w)
    ensures Inv(w.(listener := None))
    ensures Quiet(w) ==> Quiet(w.(listener := None))
  {
    var w' := w.(listener := None);
    assert DrainStarted(w') ==> DrainStarted(w);
    assert Purged(w') ==> Purged(w);
  }

  /** Only the children a reconcile manages differ. */
  predicate ChildrenDiffer(w: World, w': World) {
    w' == w.(config := w'.config, deployments := w'.deployments, cronJob := w'.cronJob)
  }

  lemma WritingChildrenKeepsInv(w: World, w': World)
    requires Inv(w) && !DrainStarted(w) && Registered(w) && ChildrenDiffer(w, w') && Made(w') && RebuildsHonest(w')
    ensures Inv(w') && !DrainStarted(w')
  {
    MadeIsHonest(w');
  }

  // ---- the managed children -------------------------------------------------------------

  ghost predicate ChildrenAre(w0: World, w: World, config: Option<Config>, deployments: map<string, Deployment>, cronJob: Option<CronJob>) {
    && w.name == w0.name && w.listener == w0.listener && NothingDeleting(w)
    && w.config == config && w.deployments == deployments && w.cronJob == cronJob
  }

  lemma DeletedIsGone(w: World, d: string)
    ensures d !in Act(w, UserDeletesDeployment(d, false)).deployments
  {}

  lemma DeletingADeployment(w: World, before: World, d: string)
    requires before.name == w.name && SameChildren(w, before) && NothingDeleting(before)
    ensures ChildrenAre(w, Act(before, UserDeletesDeployment(d, false)), w.config, w.deployments - {d}, w.cronJob)
  {
    assert d !in w.deployments ==> w.deployments - {d} == w.deployments;
  }

  lemma CronJobGoes(w: World)
    ensures Act(w, UserDeletesCronJob(false)).cronJob.None?
  {}

  lemma DeletingTheCronJob(w: World, before: World)
    requires before.name == w.name && SameChildren(w, before) && NothingDeleting(before)
    ensures ChildrenAre(w, Act(before, UserDeletesCronJob(false)), w.config, w.deployments, None)
  {}

  lemma ConfigIsNoDeployment(w: World, config: Config)
    requires Made(w)
    ensures Made(w.(config := Some(config)))
    ensures RebuildsHonest(w) ==> RebuildsHonest(w.(config := Some(config)))
  {
    forall key | key in w.deployments
      ensures IsMade(w.name, key, w.deployments[key])
    {
    }
  }

  function FoundShard(w: World, shard: nat): Option<Deployment> {
    var key := ShardDeploymentName(w.name, shard);
    if key in w.deployments then Some(w.deployments[key]) else None
  }

  /** The desired Deployment, over the fields of the one found that an update leaves alone. */
  function UpdatedShard(name: string, shard: nat, config: Config, found: Option<Deployment>): Deployment {
    var desired := BuildShardDeployment(name, shard, config);
    if found.None? then desired else desired.(selector := found.value.selector, deleting := found.value.deleting)
  }

  ghost predicate IsCurrent(w: World, shard: nat, config: Config) {
    FoundShard(w, shard) == Some(BuildShardDeployment(w.name, shard, config))
  }

  /** The shard is as desired and no other child has changed. */
  ghost predicate ShardWritten(w: World, w': World, shard: nat, config: Config) {
    ChildrenAre(w, w', w.config,
                w.deployments[ShardDeploymentName(w.name, shard) := BuildShardDeployment(w.name, shard, config)], w.cronJob)
  }

  lemma UpdatedIsDesired(w: World, shard: nat, config: Config)
    requires Made(w) && shard < SHARD_LIMIT
    ensures var updated := UpdatedShard(w.name, shard, config, FoundShard(w, shard));
      && MadeFor(w.name, ShardDeploymentName(w.name, shard), updated, shard)
      && (NothingDeleting(w) ==> updated == BuildShardDeployment(w.name, shard, config))
  {
    if FoundShard(w, shard).Some? {
      MadeUnderItsName(w, shard);
    }
  }

  lemma WritingAShard(w: World, before: World, shard: nat, desired: Deployment)
    requires before.name == w.name && SameChildren(w, before) && NothingDeleting(before) && !desired.deleting
    ensures var key := ShardDeploymentName(w.name, shard);
      ChildrenAre(w, before.(deployments := before.deployments[key := desired]), w.config, w.deployments[key := desired], w.cronJob)
  {}

  lemma WrittenIsMade(w: World, shard: nat, d: Deployment)
    requires Made(w) && MadeFor(w.name, ShardDeploymentName(w.name, shard), d, shard)
    ensures Made(w.(deployments := w.deployments[ShardDeploymentName(w.name, shard) := d]))
  {
    var w' := w.(deployments := w.deployments[ShardDeploymentName(w.name, shard) := d]);
    forall key | key in w'.deployments
      ensures IsMade(w'.name, key, w'.deployments[key])
    {
      assert key != ShardDeploymentName(w.name, shard) ==> IsMade(w.name, key, w.deployments[key]);
    }
  }

  /** A Deployment recognized as a shard outside the partition. */
  predicate IsStale(name: string, d: Deployment, consumers: int) {
    var shard := OwnedShard(name, d.labels);
    shard.Some? && shard.value >= consumers
  }

  ghost predicate NoneStale(w: World, consumers: int) {
    forall key :: key in w.deployments ==> !IsStale(w.name, w.deployments[key], consumers)
  }

  /** Stale Deployments are gone, except those still to be looked at, and nothing else changed. */
  ghost predicate Pruned(w: World, w': World, consumers: int, todo: set<string>) {
    && ChildrenAre(w, w', w.config, w'.deployments, w.cronJob)
    && (forall key :: key in w'.deployments ==> key in w.deployments && w'.deployments[key] == w.deployments[key])
    && (forall key :: key in w.deployments && !IsStale(w.name, w.deployments[key], consumers) ==> key in w'.deployments)
    && (forall key :: key in w'.deployments && IsStale(w.name, w.deployments[key], consumers) ==> key in todo)
  }

  lemma PrunedOne(w: World, before: World, after: World, consumers: int, todo: set<string>, d: string)
    requires Pruned(w, before, consumers, todo) && d in w.deployments && IsStale(w.name, w.deployments[d], consumers)
    requires ChildrenAre(before, after, before.config, before.deployments - {d}, before.cronJob)
    ensures Pruned(w, after, consumers, todo - {d})
  {}

  ghost predicate OnlyShardsDiffer(w: World, w': World) {
    ChildrenAre(w, w', w.config, w'.deployments, w.cronJob)
  }

  ghost predicate PartitionSettled(w: World, spec: Spec) {
    ShardsSettled(w, spec, spec.consumers) && NoStaleShard(w, spec)
  }

  lemma OneMoreSettled(w: World, w': World, spec: Spec, shard: nat)
    requires ShardsSettled(w, spec, shard) && ShardWritten(w, w', shard, BuildConfig(spec))
    ensures ShardsSettled(w', spec, shard + 1)
  {
    forall s: nat | s < shard + 1
      ensures ShardSettled(w', spec, s)
    {
      if s < shard {
        assert ShardSettled(w, spec, s);
        if ShardDeploymentName(w.name, s) == ShardDeploymentName(w.name, shard) {
          DeploymentNameInjective(w.name, s, w.name, shard);
          assert false;
        }
      }
    }
  }

  lemma PrunedIsSettled(w: World, w': World, spec: Spec)
    requires spec.Valid() && Made(w) && ShardsSettled(w, spec, spec.consumers) && Pruned(w, w', spec.consumers, {})
    ensures PartitionSettled(w', spec)
  {
    forall shard: nat | shard < spec.consumers
      ensures ShardSettled(w', spec, shard)
    {
      assert ShardSettled(w, spec, shard);
      OwnedShardRoundTrip(w.name, shard);
    }
    forall key | key in w'.deployments
      ensures exists shard: nat :: InPartition(w'.name, spec, key, shard)
    {
      assert IsMade(w.name, key, w.deployments[key]);
      var shard: nat :| MadeFor(w.name, key, w.deployments[key], shard);
      OwnedShardRoundTrip(w.name, shard);
      assert InPartition(w'.name, spec, key, shard);
    }
  }

  lemma SettledIsNotStale(w: World, spec: Spec)
    requires spec.Valid() && PartitionSettled(w, spec)
    ensures NoneStale(w, spec.consumers)
  {
    forall key | key in w.deployments
      ensures !IsStale(w.name, w.deployments[key], spec.consumers)
    {
      var shard: nat :| InPartition(w.name, spec, key, shard);
      assert ShardSettled(w, spec, shard);
      OwnedShardRoundTrip(w.name, shard);
    }
  }

  function UpdatedCronJob(name: string, schedule: string, found: Option<CronJob>): CronJob {
    var desired := BuildCronJob(name, schedule);
    if found.None? then desired else desired.(deleting := found.value.deleting)
  }

  lemma CronJobIsNoDeployment(w: World, cronJob: CronJob)
    requires Made(w) && RebuildsHonest(w) && cronJob.labels == MaintenanceLabels(w.name)
    ensures Made(w.(cronJob := Some(cronJob))) && RebuildsHonest(w.(cronJob := Some(cronJob)))
  {
    forall key | key in w.deployments
      ensures IsMade(w.name, key, w.deployments[key])
    {
    }
  }

  lemma SameShardsSameSettled(w: World, w': World, spec: Spec)
    requires w.name == w'.name && w.deployments == w'.deployments
    ensures PartitionSettled(w, spec) <==> PartitionSettled(w', spec)
  {
    assert forall shard: nat :: ShardSettled(w, spec, shard) <==> ShardSettled(w', spec, shard);
  }

  predicate SameManaged(w: World, w': World) {
    w.name == w'.name && w.config == w'.config && w.deployments == w'.deployments && w.cronJob == w'.cronJob
  }

  lemma SameChildrenSameSettled(w: World, w': World, spec: Spec)
    requires SameManaged(w, w') && Converged(w, spec)
    ensures Converged(w', spec)
  {
    SameShardsSameSettled(w, w', spec);
  }

  predicate Live(w: World) { w.listener.Some? && !w.listener.value.deleting }

  lemma RegisteringKeepsInv(w: World, fl: Listener)
    requires Inv(w) && !DrainStarted(w) && fl.finalizer
    ensures Inv(w.(listener := Some(fl))) && !DrainStarted(w.(listener := Some(fl)))
    ensures Made(w) ==> Made(w.(listener := Some(fl)))
  {
    forall key | key in w.deployments && Made(w)
      ensures IsMade(w.name, key, w.deployments[key])
    {
    }
  }

  /** A pod the drain Job has, or could start. */
  predicate DrainCandidate(w: World, p: Id) { p in w.pods ==> w.pods[p].role.Drain? }

  lemma SomeDrainCandidate(w: World)
    ensures exists p: Id :: DrainCandidate(w, p)
  {
    var bound := FreshId(w.pods.Keys);
    assert DrainCandidate(w, bound);
  }

  lemma RankLater(w: World, w': World)
    requires Later(w, w') && OnCourse(w, w') && Held(w) && Halted(w)
    ensures Held(w') && Halted(w') && Rank(w') <= Rank(w)
    ensures Waiting(w) && !Waiting(w') ==> Rank(w') < Rank(w)
  {
    StoppedLater(w, w');
    RankNeverGrows(w, w');
  }

  // ---- teardown, step by step -----------------------------------------------------------

  ghost predicate ShardsStoppedBut(w: World, todo: set<string>) {
    forall d :: d in w.deployments ==> w.deployments[d].deleting || d in todo
  }

  ghost predicate JobsStoppedBut(w: World, todo: set<Id>) {
    forall j :: j in w.jobs ==> w.jobs[j].deleting || j in todo
  }

  /** The controller is done only with a listener that is gone or that it does not hold;
      otherwise it comes back, on an error or a timer. */
  predicate Settled(w: World, outcome: Status.Outcome) {
    w.listener.Some? && w.listener.value.finalizer ==>
      outcome.Error? || (outcome.RequeueAfter? && outcome.seconds > 0)
  }

  /** All writers are gone and the drain Job has succeeded, or failed for good: four attempts, or
      the word of the cluster. */
  ghost predicate DrainOver(w: World, drained: bool) {
    && Quiet(w) && w.drainJob.Some?
    && if drained then w.drainJob.value.succeeded > 0 else w.drainJob.value.failed >= 4 || w.drainJob.value.failedCondition
  }

  /** With calls succeeding and nobody interfering, a pass over a deleted listener lets go of it, or
      comes back for something that will end and is no farther from letting go; a drain that is over
      is let go of at once. */
  ghost predicate Advances(w: World, w': World, outcome: Status.Outcome) {
    w'.listener.None? ||
    (&& Held(w') && Halted(w') && Waiting(w') && outcome == Status.RequeueAfter(5)
     && (Halted(w) ==> Rank(w') <= Rank(w))
     && !DrainOver(w, true) && !DrainOver(w, false))
  }

  lemma QuietWaitsForNobody(w: World)
    requires PodsHonest(w) && Quiet(w)
    ensures WaitedFor(w) == {}
  {
    PopulationsAreDisjoint(w.name, w.name, 0);
    forall p | p in w.pods
      ensures p !in WaitedFor(w)
    {
      assert PodHonest(w.name, w.pods[p]) && w.pods[p].role.Drain?;
    }
  }

  lemma DrainStaysOver(w: World, w': World)
    requires Later(w, w') && OnCourse(w, w') && Held(w) && (DrainOver(w, true) || DrainOver(w, false))
    ensures DrainOver(w', true) || DrainOver(w', false)
  {
    StoppedLater(w, w');
  }

  lemma AdvancesFrom(w: World, w1: World, w': World, outcome: Status.Outcome)
    requires Later(w, w1) && OnCourse(w, w1) && Held(w) && Advances(w1, w', outcome)
    ensures Advances(w, w', outcome)
  {
    if Halted(w) {
      RankLater(w, w1);
    }
    if DrainOver(w, true) || DrainOver(w, false) {
      DrainStaysOver(w, w1);
    }
  }

  lemma AdvancesByWaiting(w: World, w': World)
    requires Later(w, w') && OnCourse(w, w') && Held(w) && PodsHonest(w') && Halted(w') && WaitedFor(w') != {}
    ensures Advances(w, w', Status.RequeueAfter(5))
  {
    if Halted(w) {
      RankLater(w, w');
    }
    if DrainOver(w, true) || DrainOver(w, false) {
      DrainStaysOver(w, w');
      QuietWaitsForNobody(w');
    }
  }

  /** Since then, teardown came to its end. */
  ghost predicate DrainEnded(history: seq<World>, since: nat, drained: bool) {
    exists i :: since <= i + 1 && 0 <= i < |history| && DrainOver(history[i], drained)
  }

  predicate Stopped(w: World, d: string) { d in w.deployments ==> w.deployments[d].deleting }

  predicate JobStopped(w: World, j: Id) { j in w.jobs ==> w.jobs[j].deleting }

  lemma OneShardLess(listed: World, w: World, w': World, todo: set<string>, d: string)
    requires ShardsStoppedBut(w, todo) && FewerDeployments(listed, w) && FewerDeployments(w, w') && Stopped(w', d)
    ensures ShardsStoppedBut(w', todo - {d}) && FewerDeployments(listed, w')
  {}

  lemma OneJobLess(listed: World, w: World, w': World, todo: set<Id>, j: Id)
    requires JobsStoppedBut(w, todo) && FewerJobs(listed, w) && FewerJobs(w, w') && JobStopped(w', j)
    ensures JobsStoppedBut(w', todo - {j}) && FewerJobs(listed, w')
  {}

  function Selected(w: World, selector: LabelSet): set<Id> {
    set p | p in w.pods && Matches(selector, w.pods[p].labels)
  }

  lemma NobodySelected(w: World)
    requires PodsHonest(w)
    ensures Selected(w, SelectorLabels(w.name)) == {} ==> NoPod(w, Consumer)
    ensures Selected(w, MaintenanceLabels(w.name)) == {} ==> NoPod(w, Rebuild)
  {
    forall p | p in w.pods
      ensures w.pods[p].role == Consumer ==> p in Selected(w, SelectorLabels(w.name))
      ensures w.pods[p].role == Rebuild ==> p in Selected(w, MaintenanceLabels(w.name))
    {
      assert PodHonest(w.name, w.pods[p]);
    }
  }

  lemma DrainCreatedLowersRank(w: World)
    requires w.drainJob.None?
    ensures Rank(w.(drainJob := Some(DrainJob(0, 0, false)))) < Rank(w)
    ensures Quiet(w) ==> Quiet(w.(drainJob := Some(DrainJob(0, 0, false))))
  {
    assert WaitedFor(w.(drainJob := Some(DrainJob(0, 0, false)))) == WaitedFor(w);
  }

  // ---- the reconciler -------------------------------------------------------------------

  class FeedListenerReconciler {
    /** Nobody but the cluster itself acts during the run. */
    const calm: bool
    /** No API call fails, other than by a conflict or a missing object. */
    const reliable: bool

    var w: World
    /** Every state of the run so far. */
    ghost var history: seq<World>
    /** When the finalizer was released after a successful drain. */
    ghost var drainedAt: Option<nat>
    /** How many children the controller has created, updated or deleted. */
    ghost var writes: nat

    ghost predicate Valid()
      reads this
    {
      && history != [] && history[|history| - 1] == w
      && AllHold(history)
      && Made(w)
      && (w.listener.Some? ==> w.listener.value.spec.Valid())
      && (drainedAt.Some? ==> w.listener.None? && Quiet(w) && DrainedSince(history, drainedAt.value))
    }

    /** Any cluster in which no drain has begun. */
    constructor (calm: bool, reliable: bool, start: World)
      requires Made(start) && RebuildsHonest(start) && PodsHonest(start) && Guarded(start) && !DrainStarted(start)
      requires start.listener.Some? ==> start.listener.value.spec.Valid()
      ensures Valid() && w == start && history == [start] && drainedAt.None?
      ensures this.calm == calm && this.reliable == reliable
    {
      this.calm, this.reliable := calm, reliable;
      w, history, drainedAt, writes := start, [start], None, 0;
      MadeIsHonest(start);
    }

    method Become(next: World)
      requires Valid() && Inv(next) && Made(next) && (next.listener.Some? ==> next.listener.value.spec.Valid())
      requires drainedAt.Some? ==> next.listener.None? && Quiet(next) && next.redis == {}
      modifies this`w, this`history
      ensures Valid() && w == next && history == old(history) + [next]
    {
      w := next;
      history := history + [next];
    }

    method Perform(a: Action)
      requires Valid()
      modifies this`w, this`history
      ensures Valid() && w == Act(old(w), a) && Later(old(w), w) && old(history) <= history
      ensures !a.UserDeletesDrainJob? ==> OnCourse(old(w), w)
    {
      ActKeepsInv(w, a);
      ActIsLater(w, a);
      ActKeepsMade(w, a);
      if drainedAt.Some? {
        QuietStays(w, a);
      }
      Become(Act(w, a));
    }

    /** Anything that can happen between two API calls, any number of times. */
    method Environment()
      requires Valid()
      modifies this`w, this`history
      ensures Valid() && Ran(calm, old(w), old(history), w, history)
      ensures calm && NothingDeleting(old(w)) ==> SameChildren(old(w), w) && NothingDeleting(w)
    {
      LaterReflexive(w);
      var n: nat := *;
      while n > 0
        invariant Valid() && Ran(calm, old(w), old(history), w, history)
        invariant calm && NothingDeleting(old(w)) ==> SameChildren(old(w), w) && NothingDeleting(w)
      {
        var a: Action := *;
        if !calm || !IsUserAction(a) {
          ghost var before, h := w, history;
          if NothingDeleting(w) && calm {
            ClusterKeepsChildren(w, a);
          }
          Perform(a);
          RanTransitive(calm, old(w), old(history), before, h, w, history);
        }
        n := n - 1;
      }
    }

    method Fails() returns (fails: bool)
      ensures reliable ==> !fails
    {
      fails := *;
      if reliable {
        fails := false;
      }
    }

    // ---- deleting children --------------------------------------------------------------

    /** One DELETE: it may fail, before or after taking effect. */
    method Delete(a: Action) returns (err: bool, ghost before: World)
      requires Valid()
      requires a.UserDeletesCronJob? || a.UserDeletesDeployment? || a.JobDeleted?
      modifies this`w, this`history
      ensures Valid() && Ran(calm, old(w), old(history), w, history)
      ensures Later(old(w), before) && (!err ==> w == Act(before, a))
      ensures calm && NothingDeleting(old(w)) ==> SameChildren(old(w), before) && NothingDeleting(before)
      ensures reliable ==> !err
    {
      Environment();
      before := w;
      ghost var h := history;
      err := Fails();
      var lost: bool := *;
      if err && lost {
        return;
      }
      Perform(a);
      RanTransitive(calm, old(w), old(history), before, h, w, history);
    }

    method DeleteCronJob() returns (err: bool)
      requires Valid()
      modifies this`w, this`history, this`writes
      ensures Valid() && Ran(calm, old(w), old(history), w, history)
      ensures !err ==> w.cronJob.None?
      ensures reliable ==> !err
      ensures !err && calm && NothingDeleting(old(w)) ==>
        ChildrenAre(old(w), w, old(w.config), old(w.deployments), None) && (old(w.cronJob).None? ==> writes == old(writes))
    {
      ghost var before;
      err, before := Delete(UserDeletesCronJob(false));
      CronJobGoes(before);
      if before.cronJob.Some? {
        writes := writes + 1;
      }
      if calm && NothingDeleting(old(w)) {
        DeletingTheCronJob(old(w), before);
      }
    }

    method DeleteDeployment(d: string) returns (err: bool)
      requires Valid()
      modifies this`w, this`history, this`writes
      ensures Valid() && Ran(calm, old(w), old(history), w, history)
      ensures !err ==> d !in w.deployments
      ensures reliable ==> !err
      ensures !err && calm && NothingDeleting(old(w)) ==>
        ChildrenAre(old(w), w, old(w.config), old(w.deployments) - {d}, old(w.cronJob))
    {
      ghost var before;
      err, before := Delete(UserDeletesDeployment(d, false));
      writes := writes + 1;
      DeletedIsGone(before, d);
      if calm && NothingDeleting(old(w)) {
        DeletingADeployment(old(w), before, d);
      }
    }

    method DeleteJob(j: Id) returns (err: bool)
      requires Valid()
      modifies this`w, this`history
      ensures Valid() && Ran(calm, old(w), old(history), w, history)
      ensures !err ==> j in w.jobs ==> w.jobs[j].deleting
      ensures reliable ==> !err
    {
      ghost var before;
      err, before := Delete(JobDeleted(j));
    }

    // ---- teardown -----------------------------------------------------------------------

    /** The Deployments the consumers' selector finds: all of them. */
    method ListShards() returns (err: bool, items: map<string, Deployment>)
      requires Valid()
      modifies this`w, this`history
      ensures Valid() && Ran(calm, old(w), old(history), w, history)
      ensures calm && NothingDeleting(old(w)) ==> SameChildren(old(w), w) && NothingDeleting(w)
      ensures !err ==> items == w.deployments
      ensures reliable ==> !err
    {
      Environment();
      err := Fails();
      items := map[];
      if !err {
        items := map d | d in w.deployments && Matches(SelectorLabels(w.name), w.deployments[d].labels) :: w.deployments[d];
        assert DeploymentsHonest(w);
      }
    }

    /** Deletes a listed Deployment unless it was already going. */
    method StopShard(d: string, item: Deployment) returns (err: bool)
      requires Valid() && (item.deleting ==> Stopped(w, d))
      modifies this`w, this`history, this`writes
      ensures Valid() && Ran(calm, old(w), old(history), w, history)
      ensures !err ==> Stopped(w, d)
      ensures reliable ==> !err
    {
      err := false;
      LaterReflexive(w);
      if !item.deleting {
        err := DeleteDeployment(d);
      }
    }

    /** Lists the consumers' Deployments and deletes those not already going. */
    method StopShards() returns (err: bool)
      requires Valid()
      modifies this`w, this`history, this`writes
      ensures Valid() && Ran(calm, old(w), old(history), w, history)
      ensures !err ==> ShardsStopped(w)
      ensures reliable ==> !err
    {
      var items;
      err, items := ListShards();
      if err {
        return;
      }
      var todo := items.Keys;
      ghost var listed := w;
      while todo != {}
        invariant Valid() && Ran(calm, old(w), old(history), w, history)
        invariant todo <= items.Keys && ShardsStoppedBut(w, todo) && FewerDeployments(listed, w)
        decreases todo
      {
        var d :| d in todo;
        ghost var before, h := w, history;
        err := StopShard(d, items[d]);
        RanTransitive(calm, old(w), old(history), before, h, w, history);
        if err {
          return;
        }
        OneShardLess(listed, before, w, todo, d);
        todo := todo - {d};
      }
    }

    /** Deletes a listed rebuild Job, with its pods, unless it was already going. */
    method StopRebuild(j: Id, item: Job) returns (err: bool)
      requires Valid() && (item.deleting ==> JobStopped(w, j))
      modifies this`w, this`history
      ensures Valid() && Ran(calm, old(w), old(history), w, history)
      ensures !err ==> JobStopped(w, j)
      ensures reliable ==> !err
    {
      err := false;
      LaterReflexive(w);
      if !item.deleting {
        err := DeleteJob(j);
      }
    }

    /** Lists the rebuild Jobs and deletes those not already going. */
    method StopRebuilds() returns (err: bool)
      requires Valid() && CronStopped(w)
      modifies this`w, this`history
      ensures Valid() && Ran(calm, old(w), old(history), w, history)
      ensures !err ==> RebuildsStopped(w)
      ensures reliable ==> !err
    {
      Environment();
      err := Fails();
      if err {
        return;
      }
      var items := map j | j in w.jobs && Matches(MaintenanceLabels(w.name), w.jobs[j].labels) :: w.jobs[j];
      var todo := items.Keys;
      ghost var listed := w;
      assert JobsStoppedBut(w, todo);
      while todo != {}
        invariant Valid() && Ran(calm, old(w), old(history), w, history)
        invariant todo <= items.Keys && JobsStoppedBut(w, todo) && FewerJobs(listed, w)
        decreases todo
      {
        var j :| j in todo;
        ghost var before, h := w, history;
        err := StopRebuild(j, items[j]);
        RanTransitive(calm, old(w), old(history), before, h, w, history);
        if err {
          return;
        }
        OneJobLess(listed, before, w, todo, j);
        todo := todo - {j};
      }
    }

    method ListPods(selector: LabelSet) returns (err: bool, found: set<Id>)
      requires Valid()
      modifies this`w, this`history
      ensures Valid() && Ran(calm, old(w), old(history), w, history)
      ensures !err ==> found == Selected(w, selector)
      ensures reliable ==> !err
    {
      Environment();
      err := Fails();
      found := if err then {} else Selected(w, selector);
    }

    /** Waits for no pod: reports whether any writer is still there. */
    method WritersGone() returns (err: bool, gone: bool)
      requires Valid() && Halted(w)
      modifies this`w, this`history
      ensures Valid() && Ran(calm, old(w), old(history), w, history) && Halted(w)
      ensures !err && gone ==> Quiet(w)
      ensures !err && !gone ==> WaitedFor(w) != {}
      ensures reliable ==> !err
    {
      var found;
      err, found := ListPods(SelectorLabels(w.name));
      StoppedLater(old(w), w);
      gone := false;
      if err {
        return;
      }
      assert found <= WaitedFor(w);
      if found != {} {
        return;
      }
      NobodySelected(w);
      ghost var before, h := w, history;
      err, found := ListPods(MaintenanceLabels(w.name));
      StoppedLater(before, w);
      RanTransitive(calm, old(w), old(history), before, h, w, history);
      if err {
        return;
      }
      assert found <= WaitedFor(w);
      if found != {} {
        return;
      }
      NobodySelected(w);
      gone := true;
    }

    /** `stopWriters`: the CronJob first, then the consumers, then the rebuilds in flight, and
        only then the wait for their pods. */
    method StopWriters() returns (err: bool, stopped: bool)
      requires Valid()
      modifies this`w, this`history, this`writes
      ensures Valid() && Ran(calm, old(w), old(history), w, history)
      ensures !err ==> Halted(w)
      ensures !err && stopped ==> Quiet(w)
      ensures !err && !stopped ==> WaitedFor(w) != {}
      ensures reliable ==> !err
    {
      stopped := false;
      err := DeleteCronJob();
      if err {
        return;
      }
      ghost var w1, h1 := w, history;
      err := StopShards();
      RanTransitive(calm, old(w), old(history), w1, h1, w, history);
      if err {
        return;
      }
      ghost var w2, h2 := w, history;
      err := StopRebuilds();
      RanTransitive(calm, old(w), old(history), w2, h2, w, history);
      if err {
        return;
      }
      StoppedLater(w2, w);
      ghost var w3, h3 := w, history;
      err, stopped := WritersGone();
      RanTransitive(calm, old(w), old(history), w3, h3, w, history);
    }

    /** `ensureDrainJob`: reads the drain Job, or creates it. */
    method EnsureDrainJob() returns (err: bool, job: DrainJob)
      requires Valid() && Quiet(w) && Held(w) && drainedAt.None?
      modifies this`w, this`history
      ensures Valid() && old(history) <= history
      ensures Quiet(w) && Held(w) && (calm ==> Rank(w) <= Rank(old(w)) && w.listener == old(w.listener))
      ensures !err ==> w.drainJob == Some(job)
      ensures !err && old(w.drainJob).None? ==> job == DrainJob(0, 0, false)
      ensures !err && calm && (DrainOver(old(w), true) || DrainOver(old(w), false)) ==> job.Finished()
      ensures reliable ==> !err
    {
      job := DrainJob(0, 0, false);
      Environment();
      if calm {
        RankLater(old(w), w);
      }
      StoppedLater(old(w), w);
      err := Fails();
      if err || w.drainJob.Some? {
        if !err {
          job := w.drainJob.value;
        }
        return;
      }
      ghost var before, h := w, history;
      Environment();
      if calm {
        RankLater(before, w);
      }
      StoppedLater(before, w);
      RanTransitive(calm, old(w), old(history), before, h, w, history);
      err := Fails();
      var lost: bool := *;
      if err && lost {
        return;
      }
      CreatingTheDrainKeepsInv(w);
      DrainCreatedLowersRank(w);
      Become(w.(drainJob := Some(job)));
    }

    /** `releaseFinalizer`: an update of the object as it was read, refused if it has changed.
        A deleted object without its finalizer is gone. */
    method ReleaseFinalizer(fl: Listener, ghost drained: bool) returns (outcome: Status.Outcome)
      requires Valid() && drainedAt.None? && Held(w)
      requires drained ==> Quiet(w) && w.redis == {}
      modifies this`w, this`history, this`drainedAt
      ensures Valid() && old(history) <= history
      ensures outcome.Error? || (outcome.Done? && w.listener.None?)
      ensures w.listener.None? || (Held(w) && drainedAt.None?)
      ensures w.listener.None? ==> (drained <==> drainedAt.Some?) && (Quiet(old(w)) ==> Quiet(w))
      ensures old(w.drainJob).None? ==> w.drainJob.None?
      ensures reliable && calm && old(w.listener) == Some(fl) ==> w.listener.None?
    {
      Environment();
      StoppedLater(old(w), w);
      var fails := Fails();
      var lost: bool := *;
      if w.listener != Some(fl) || (fails && lost) {
        return Status.Error;
      }
      ReleasingKeepsInv(w);
      Become(w.(listener := None));
      if drained {
        drainedAt := Some(|history| - 1);
      }
      outcome := if fails then Status.Error else Status.Done;
    }

    /** The second half of `finalize`: purge, then let go, whether or not the purge worked. */
    method Drain(fl: Listener) returns (outcome: Status.Outcome)
      requires Valid() && Quiet(w) && Held(w) && drainedAt.None?
      modifies this`w, this`history, this`drainedAt
      ensures Valid() && old(history) <= history
      ensures Settled(w, outcome)
      ensures w.listener.None? ==> DrainEnded(history, |old(history)|, drainedAt.Some?)
      ensures reliable && calm && old(w.listener) == Some(fl) ==> Advances(old(w), w, outcome)
    {
      var err, job := EnsureDrainJob();
      if err {
        return Status.Error;
      }
      ghost var h := history;
      assert h[|h| - 1] == w;
      if job.succeeded > 0 {
        outcome := ReleaseFinalizer(fl, true);
      } else if job.Failed() {
        outcome := ReleaseFinalizer(fl, false);
      } else {
        outcome := Status.RequeueAfter(DRAIN_POLL_INTERVAL);
      }
      PrefixTransitive(old(history), h, history);
    }

    /** Both steps of a teardown: stop everything that writes, and then drain. */
    method StopAndDrain(fl: Listener) returns (outcome: Status.Outcome)
      requires Valid() && Held(w) && drainedAt.None?
      modifies this
      ensures Valid() && old(history) <= history
      ensures Settled(w, outcome)
      ensures w.listener.None? ==> DrainEnded(history, |old(history)|, drainedAt.Some?)
      ensures reliable && calm && old(w.listener) == Some(fl) ==> Advances(old(w), w, outcome)
    {
      var err, stopped := StopWriters();
      if err {
        return Status.Error;
      }
      if !stopped {
        if calm {
          AdvancesByWaiting(old(w), w);
        }
        return Status.RequeueAfter(DRAIN_POLL_INTERVAL);
      }
      ghost var w1, h := w, history;
      outcome := Drain(fl);
      PrefixTransitive(old(history), h, history);
      if reliable && calm && old(w.listener) == Some(fl) {
        AdvancesFrom(old(w), w1, w, outcome);
      }
    }

    /** `finalize`, on the deleted object as it was just read. */
    method Finalize(fl: Listener) returns (outcome: Status.Outcome)
      requires Valid() && w.listener == Some(fl) && fl.deleting && drainedAt.None?
      modifies this
      ensures Valid() && old(history) <= history
      ensures Settled(w, outcome)
      ensures fl.finalizer && !fl.spec.retainIndexesOnDelete && w.listener.None? ==>
        DrainEnded(history, |old(history)|, drainedAt.Some?)
      ensures fl.spec.retainIndexesOnDelete ==> writes == old(writes) && (old(w.drainJob).None? ==> w.drainJob.None?)
      ensures reliable && calm && fl.finalizer ==> Advances(old(w), w, outcome)
    {
      if !fl.finalizer {
        return Status.Done;
      }
      // The Terminating phase is recorded here; a failure to do so is only logged.
      Environment();
      ghost var w1, h1 := w, history;
      if fl.spec.retainIndexesOnDelete {
        outcome := ReleaseFinalizer(fl, false);
        PrefixTransitive(old(history), h1, history);
        return;
      }
      outcome := StopAndDrain(fl);
      PrefixTransitive(old(history), h1, history);
      if reliable && calm {
        AdvancesFrom(old(w), w1, w, outcome);
      }
    }

    // ---- the children -------------------------------------------------------------------

    /** A pass over a live listener never meets a drain. */
    ghost predicate Serving()
      reads this
    {
      Valid() && drainedAt.None? && !DrainStarted(w)
    }

    /** The finalizer is on: children may be made. */
    ghost predicate Making()
      reads this
    {
      Serving() && Registered(w)
    }

    /** One create or update of a child: it may fail, before or after taking effect. */
    method WriteChild(next: World) returns (err: bool)
      requires Making() && ChildrenDiffer(w, next) && Made(next) && RebuildsHonest(next)
      modifies this`w, this`history, this`writes
      ensures Making() && old(history) <= history
      ensures w == next || (err && w == old(w))
    {
      err := Fails();
      var lost: bool := *;
      if err && lost {
        return;
      }
      WritingChildrenKeepsInv(w, next);
      Become(next);
      writes := writes + 1;
    }

    /** `reconcileConfigMap`: create the ConfigMap, or update it if it differs. */
    method ReconcileConfig(spec: Spec) returns (err: bool)
      requires Making()
      modifies this`w, this`history, this`writes
      ensures Making() && old(history) <= history
      ensures !err && calm && NothingDeleting(old(w)) ==>
        && ChildrenAre(old(w), w, Some(BuildConfig(spec)), old(w.deployments), old(w.cronJob))
        && (old(w.config) == Some(BuildConfig(spec)) ==> writes == old(writes))
    {
      Environment();
      err := Fails();
      if err || w.config == Some(BuildConfig(spec)) {
        return;
      }
      ghost var w1, h1 := w, history;
      Environment();
      RanTransitive(calm, old(w), old(history), w1, h1, w, history);
      ghost var h := history;
      ConfigIsNoDeployment(w, BuildConfig(spec));
      err := WriteChild(w.(config := Some(BuildConfig(spec))));
      PrefixTransitive(old(history), h, history);
    }

    /** The write of one turn of `reconcileShards`, refused if the Deployment is not as it was found. */
    method WriteShard(shard: nat, desired: Deployment, found: Option<Deployment>) returns (err: bool)
      requires Making() && MadeFor(w.name, ShardDeploymentName(w.name, shard), desired, shard)
      modifies this`w, this`history, this`writes
      ensures Making() && old(history) <= history && w.name == old(w.name)
      ensures !err && calm && NothingDeleting(old(w)) && !desired.deleting ==>
        ChildrenAre(old(w), w, old(w.config), old(w.deployments)[ShardDeploymentName(old(w.name), shard) := desired], old(w.cronJob))
    {
      Environment();
      if found != FoundShard(w, shard) {
        return true;
      }
      ghost var h, before := history, w;
      WrittenIsMade(w, shard, desired);
      err := WriteChild(w.(deployments := w.deployments[ShardDeploymentName(w.name, shard) := desired]));
      if calm && NothingDeleting(old(w)) && !desired.deleting {
        WritingAShard(old(w), before, shard, desired);
      }
      PrefixTransitive(old(history), h, history);
    }

    /** One turn of `reconcileShards`: create the shard's Deployment, or update everything but
        its immutable selector. */
    method ReconcileShard(shard: nat, config: Config) returns (err: bool)
      requires Making() && shard < SHARD_LIMIT
      modifies this`w, this`history, this`writes
      ensures Making() && old(history) <= history && w.name == old(w.name)
      ensures !err && calm && NothingDeleting(old(w)) ==> ShardWritten(old(w), w, shard, config)
      ensures calm && NothingDeleting(old(w)) && IsCurrent(old(w), shard, config) ==> writes == old(writes)
    {
      Environment();
      err := Fails();
      if err {
        return;
      }
      var found := FoundShard(w, shard);
      var desired := UpdatedShard(w.name, shard, config, found);
      UpdatedIsDesired(w, shard, config);
      if found == Some(desired) {
        assert NothingDeleting(w) ==> w.deployments[ShardDeploymentName(w.name, shard) := desired] == w.deployments;
        return;
      }
      ghost var h := history;
      err := WriteShard(shard, desired, found);
      PrefixTransitive(old(history), h, history);
    }

    /** Deletes a listed Deployment if it is outside the partition. */
    method PruneShard(consumers: int, d: string, item: Deployment, ghost start: World, ghost todo: set<string>)
      returns (err: bool)
      requires Making() && start.name == w.name
      modifies this`w, this`history, this`writes
      ensures Making() && old(history) <= history && w.name == old(w.name)
      ensures !err && calm && Pruned(start, old(w), consumers, todo) && d in start.deployments && start.deployments[d] == item ==>
        Pruned(start, w, consumers, todo - {d})
      ensures !IsStale(w.name, item, consumers) ==> writes == old(writes)
    {
      err := false;
      ghost var before := w;
      if IsStale(w.name, item, consumers) {
        err := DeleteDeployment(d);
        if !err && calm && Pruned(start, before, consumers, todo) && d in start.deployments && start.deployments[d] == item {
          PrunedOne(start, before, w, consumers, todo, d);
        }
      }
    }

    /** `pruneStaleShards`: deletes the listed shards outside the partition. */
    method PruneStaleShards(consumers: int) returns (err: bool)
      requires Making()
      modifies this`w, this`history, this`writes
      ensures Making() && old(history) <= history && w.name == old(w.name)
      ensures !err && calm && NothingDeleting(old(w)) ==> Pruned(old(w), w, consumers, {})
      ensures calm && NothingDeleting(old(w)) && NoneStale(old(w), consumers) ==> writes == old(writes)
    {
      var items;
      err, items := ListShards();
      if err {
        return;
      }
      var todo := items.Keys;
      while todo != {}
        invariant Making() && old(history) <= history && w.name == old(w.name) && todo <= items.Keys
        invariant calm && NothingDeleting(old(w)) ==> items == old(w.deployments) && Pruned(old(w), w, consumers, todo)
        invariant calm && NothingDeleting(old(w)) && NoneStale(old(w), consumers) ==> writes == old(writes)
        decreases todo
      {
        var d :| d in todo;
        ghost var h := history;
        err := PruneShard(consumers, d, items[d], old(w), todo);
        PrefixTransitive(old(history), h, history);
        if err {
          return;
        }
        todo := todo - {d};
      }
    }

    /** `reconcileShards`: every shard of the partition, and then none outside it. */
    method ReconcileShards(spec: Spec) returns (err: bool)
      requires Making() && spec.Valid()
      modifies this`w, this`history, this`writes
      ensures Making() && old(history) <= history && w.name == old(w.name)
      ensures !err && calm && NothingDeleting(old(w)) ==> OnlyShardsDiffer(old(w), w) && PartitionSettled(w, spec)
      ensures calm && NothingDeleting(old(w)) && PartitionSettled(old(w), spec) ==> writes == old(writes)
    {
      err := false;
      for shard := 0 to spec.consumers
        invariant Making() && old(history) <= history && w.name == old(w.name)
        invariant calm && NothingDeleting(old(w)) ==> OnlyShardsDiffer(old(w), w) && ShardsSettled(w, spec, shard)
        invariant calm && NothingDeleting(old(w)) && PartitionSettled(old(w), spec) ==>
          writes == old(writes) && w.deployments == old(w.deployments)
      {
        ghost var before, h := w, history;
        err := ReconcileShard(shard, BuildConfig(spec));
        PrefixTransitive(old(history), h, history);
        if calm && NothingDeleting(old(w)) && PartitionSettled(old(w), spec) {
          assert ShardSettled(old(w), spec, shard);
          assert IsCurrent(before, shard, BuildConfig(spec));
        }
        if err {
          return;
        }
        if calm && NothingDeleting(old(w)) {
          OneMoreSettled(before, w, spec, shard);
        }
      }
      ghost var before, h := w, history;
      err := PruneStaleShards(spec.consumers);
      PrefixTransitive(old(history), h, history);
      if calm && NothingDeleting(old(w)) {
        if PartitionSettled(old(w), spec) {
          assert PartitionSettled(before, spec);
          SettledIsNotStale(before, spec);
        }
        if !err {
          PrunedIsSettled(before, w, spec);
        }
      }
    }

    /** `reconcileMaintenance`: the CronJob follows the schedule, and goes with it. */
    method ReconcileMaintenance(spec: Spec) returns (err: bool)
      requires Making()
      modifies this`w, this`history, this`writes
      ensures Making() && old(history) <= history && w.name == old(w.name)
      ensures !err && calm && NothingDeleting(old(w)) ==>
        ChildrenAre(old(w), w, old(w.config), old(w.deployments), w.cronJob) && MaintenanceSettled(w, spec)
      ensures !err && calm && NothingDeleting(old(w)) && MaintenanceSettled(old(w), spec) ==> writes == old(writes)
    {
      if MaintenanceSchedule(spec).None? {
        err := DeleteCronJob();
        return;
      }
      Environment();
      err := Fails();
      if err {
        return;
      }
      var found := w.cronJob;
      var desired := UpdatedCronJob(w.name, MaintenanceSchedule(spec).value, found);
      if found == Some(desired) {
        return;
      }
      ghost var w1, h1 := w, history;
      Environment();
      RanTransitive(calm, old(w), old(history), w1, h1, w, history);
      if w.cronJob != found {
        return true;
      }
      ghost var h := history;
      CronJobIsNoDeployment(w, desired);
      err := WriteChild(w.(cronJob := Some(desired)));
      PrefixTransitive(old(history), h, history);
    }

    /** ConfigMap, shards and CronJob, in this order, stopping at the first error. */
    method ReconcileChildren(spec: Spec) returns (err: bool)
      requires Making() && spec.Valid()
      modifies this`w, this`history, this`writes
      ensures Making() && old(history) <= history
      ensures !err && calm && NothingDeleting(old(w)) ==>
        ChildrenAre(old(w), w, w.config, w.deployments, w.cronJob) && Converged(w, spec)
      ensures !err && calm && NothingDeleting(old(w)) && Converged(old(w), spec) ==> writes == old(writes)
    {
      err := ReconcileConfig(spec);
      if err {
        return;
      }
      ghost var w1, h1 := w, history;
      err := ReconcileShards(spec);
      PrefixTransitive(old(history), h1, history);
      if err {
        return;
      }
      ghost var w2, h2 := w, history;
      err := ReconcileMaintenance(spec);
      PrefixTransitive(old(history), h2, history);
      if !err && calm && NothingDeleting(old(w)) {
        SameShardsSameSettled(old(w), w1, spec);
        SameShardsSameSettled(w2, w, spec);
      }
    }

    /** The finalizer goes on before any child is made; an update of the object as it was read. */
    method RegisterFinalizer(fl: Listener) returns (err: bool)
      requires Serving() && w.listener == Some(fl) && !fl.deleting
      modifies this`w, this`history
      ensures Serving() && old(history) <= history
      ensures !err ==> w.listener == Some(fl.(finalizer := true))
      ensures !err && calm && NothingDeleting(old(w)) ==>
        ChildrenAre(old(w).(listener := w.listener), w, old(w.config), old(w.deployments), old(w.cronJob))
    {
      if fl.finalizer {
        return false;
      }
      Environment();
      err := Fails();
      var lost: bool := *;
      if w.listener != Some(fl) || (err && lost) {
        return true;
      }
      RegisteringKeepsInv(w, fl.(finalizer := true));
      Become(w.(listener := Some(fl.(finalizer := true))));
    }

    /** The API calls of `reconcileStatus`: list the pods, then write the status. */
    method ReportStatus() returns (outcome: Status.Outcome)
      requires Serving()
      modifies this`w, this`history
      ensures Serving() && Ran(calm, old(w), old(history), w, history)
      ensures outcome.Error? || outcome == Status.RequeueAfter(30)
      ensures calm && NothingDeleting(old(w)) ==> SameChildren(old(w), w) && NothingDeleting(w)
    {
      Environment();
      var fails := Fails();
      if fails {
        return Status.Error;
      }
      ghost var w1, h1 := w, history;
      Environment();
      RanTransitive(calm, old(w), old(history), w1, h1, w, history);
      fails := Fails();
      outcome := if fails then Status.Error else Status.RequeueAfter(Status.STATUS_POLL_INTERVAL);
    }

    /** A pass over a listener that is not being deleted. */
    method ReconcileLive(fl: Listener) returns (outcome: Status.Outcome)
      requires Serving() && w.listener == Some(fl) && !fl.deleting
      modifies this`w, this`history, this`writes
      ensures Serving() && old(history) <= history
      ensures outcome.Error? || outcome == Status.RequeueAfter(30)
      ensures calm && NothingDeleting(old(w)) && !outcome.Error? ==>
        w.name == old(w.name) && w.listener == Some(fl.(finalizer := true)) && Converged(w, fl.spec)
      ensures calm && NothingDeleting(old(w)) && !outcome.Error? && Converged(old(w), fl.spec) ==> writes == old(writes)
    {
      var err := RegisterFinalizer(fl);
      ghost var w1, h1 := w, history;
      if err {
        return Status.Error;
      }
      if calm && NothingDeleting(old(w)) && Converged(old(w), fl.spec) {
        SameChildrenSameSettled(old(w), w, fl.spec);
      }
      err := ReconcileChildren(fl.spec);
      PrefixTransitive(old(history), h1, history);
      ghost var w2, h2 := w, history;
      if err {
        // The error is recorded on the resource; a failure to do so is only logged.
        Environment();
        PrefixTransitive(old(history), h2, history);
        return Status.Error;
      }
      outcome := ReportStatus();
      PrefixTransitive(old(history), h2, history);
      if calm && NothingDeleting(old(w)) {
        SameChildrenSameSettled(w2, w, fl.spec);
      }
    }

    /** The listener as it was read: torn down if it is being deleted, served otherwise. */
    method ReconcileFound(fl: Listener) returns (outcome: Status.Outcome)
      requires Valid() && w.listener == Some(fl)
      modifies this
      ensures Valid() && old(history) <= history
      ensures Settled(w, outcome)
      ensures fl.deleting && fl.finalizer && !fl.spec.retainIndexesOnDelete && w.listener.None? ==>
        DrainEnded(history, |old(history)|, drainedAt.Some?)
      ensures fl.deleting && fl.spec.retainIndexesOnDelete ==> writes == old(writes) && (old(w.drainJob).None? ==> w.drainJob.None?)
      ensures reliable && calm && fl.deleting && fl.finalizer ==> Advances(old(w), w, outcome)
      ensures calm && !fl.deleting && NothingDeleting(old(w)) && !outcome.Error? ==>
        w.name == old(w.name) && w.listener == Some(fl.(finalizer := true)) && Converged(w, fl.spec)
      ensures calm && !fl.deleting && Converged(old(w), fl.spec) && !outcome.Error? ==> writes == old(writes) && SameManaged(old(w), w)
    {
      if fl.deleting {
        outcome := Finalize(fl);
        return;
      }
      outcome := ReconcileLive(fl);
      if calm && Converged(old(w), fl.spec) {
        ConvergedDeletesNothing(old(w), fl.spec);
        if !outcome.Error? {
          ConvergedIsUnique(old(w), w, fl.spec);
        }
      }
    }

    /** `Reconcile`: one pass, from reading the listener to the requeue.  It keeps the invariant
        of the run in every state; it never leaves a held listener without coming back; on a
        deleted listener it releases or waits for something that will end; on a live one a
        successful pass settles the children, and finds nothing to write if they already are. */
    method Reconcile() returns (outcome: Status.Outcome)
      requires Valid()
      modifies this
      ensures Valid() && old(history) <= history
      ensures old(drainedAt).Some? ==> drainedAt == old(drainedAt)
      ensures Settled(w, outcome)
      ensures calm && Held(old(w)) && !old(w.listener).value.spec.retainIndexesOnDelete && w.listener.None? ==>
        DrainEnded(history, |old(history)|, drainedAt.Some?)
      ensures calm && Held(old(w)) && old(w.listener).value.spec.retainIndexesOnDelete ==>
        writes == old(writes) && (old(w.drainJob).None? ==> w.drainJob.None?)
      ensures reliable && calm && Held(old(w)) ==> Advances(old(w), w, outcome)
      ensures calm && Live(old(w)) && NothingDeleting(old(w)) && !outcome.Error? ==>
        && w.name == old(w.name) && w.listener == Some(old(w.listener).value.(finalizer := true))
        && Converged(w, old(w.listener).value.spec)
      ensures calm && Live(old(w)) && Converged(old(w), old(w.listener).value.spec) && !outcome.Error? ==>
        writes == old(writes) && SameManaged(old(w), w)
    {
      Environment();
      ghost var w1, h1 := w, history;
      var fails := Fails();
      if fails {
        return Status.Error;
      }
      if w.listener.None? {
        return Status.Done;
      }
      if calm && Live(old(w)) && Converged(old(w), w.listener.value.spec) {
        ConvergedDeletesNothing(old(w), w.listener.value.spec);
        SameChildrenSameSettled(old(w), w, w.listener.value.spec);
      }
      outcome := ReconcileFound(w.listener.value);
      PrefixTransitive(old(history), h1, history);
      if reliable && calm && Held(old(w)) {
        AdvancesFrom(old(w), w1, w, outcome);
      }
    }

    // ---- whole runs ---------------------------------------------------------------------

    /** Safety of every run: whatever happens, in whatever order, no consumer or rebuild pod
        exists in any state with the drain Job, no child exists under a listener whose deletion
        would skip teardown, and what was drained stays drained. */
    method AnyRun(passes: nat)
      requires Valid()
      modifies this
      ensures Valid() && old(history) <= history && AllSafe(history)
      ensures old(drainedAt).Some? ==> drainedAt == old(drainedAt)
      ensures drainedAt.Some? ==> DrainedSince(history, drainedAt.value)
    {
      for i := 0 to passes
        invariant Valid() && old(history) <= history
        invariant old(drainedAt).Some? ==> drainedAt == old(drainedAt)
      {
        ghost var h := history;
        Environment();
        PrefixTransitive(old(history), h, history);
        h := history;
        var outcome := Reconcile();
        PrefixTransitive(old(history), h, history);
      }
    }

    /** The drain Job has a pod, new or already there, that may or may not have purged. */
    method DrainRuns() returns (p: Id)
      requires Valid() && Held(w) && Halted(w) && w.drainJob.Some? && !w.drainJob.value.Finished()
      modifies this`w, this`history
      ensures Valid() && old(history) <= history && w.listener == old(w.listener) && Later(old(w), w) && OnCourse(old(w), w)
      ensures w.drainJob == old(w.drainJob) && p in w.pods && w.pods[p].role.Drain?
    {
      SomeDrainCandidate(w);
      p :| DrainCandidate(w, p);
      LaterReflexive(w);
      if p !in w.pods {
        Perform(DrainStartsPod(p));
      }
      ghost var w1, h1 := w, history;
      var purges: bool := *;
      if purges {
        Perform(DrainPurges(p));
        LaterTransitive(old(w), w1, w);
        OnCourseTransitive(old(w), w1, w);
        PrefixTransitive(old(history), h1, history);
      }
    }

    /** One drain attempt, successful only if it purged. */
    method DrainAttempt()
      requires Valid() && Held(w) && Halted(w) && w.drainJob.Some? && !w.drainJob.value.Finished()
      modifies this`w, this`history
      ensures Valid() && old(history) <= history && w.listener == old(w.listener)
      ensures Held(w) && Halted(w) && Rank(w) < Rank(old(w))
    {
      var p := DrainRuns();
      RankLater(old(w), w);
      ghost var w1, h1 := w, history;
      var ok: bool := *;
      ok := ok && w.pods[p].role.purged;
      DrainAttemptLowersRank(w, p, ok);
      Perform(DrainExits(p, ok));
      StoppedLater(w1, w);
      PrefixTransitive(old(history), h1, history);
    }

    /** What teardown counts on: a pod it waits for ends, or a drain attempt does. */
    method Progress()
      requires Valid() && Held(w) && Halted(w) && Waiting(w)
      modifies this`w, this`history
      ensures Valid() && old(history) <= history && w.listener == old(w.listener)
      ensures Held(w) && Halted(w) && Rank(w) < Rank(old(w))
    {
      if WaitedFor(w) == {} {
        DrainAttempt();
        return;
      }
      var p :| p in WaitedFor(w);
      EndingAPodLowersRank(w, p);
      Perform(PodEnds(p));
      StoppedLater(old(w), w);
    }

    /** Between two passes anything may happen, but what is waited for does not last forever. */
    method Pause()
      requires Valid() && calm && Held(w) && Halted(w) && Waiting(w)
      modifies this`w, this`history
      ensures Valid() && old(history) <= history
      ensures Held(w) && Halted(w) && Rank(w) < Rank(old(w))
    {
      Environment();
      RankLater(old(w), w);
      ghost var w1, h1 := w, history;
      var waiting := WaitedFor(w) != {} || (w.drainJob.Some? && !w.drainJob.value.Finished());
      if waiting {
        Progress();
        PrefixTransitive(old(history), h1, history);
      }
      ghost var w2, h2 := w, history;
      Environment();
      RankLater(w2, w);
      PrefixTransitive(old(history), h2, history);
    }

    /** Teardown terminates: pass after pass, the finalizer is released. */
    method Teardown() returns (passes: nat)
      requires Valid() && reliable && calm && Held(w)
      modifies this
      ensures Valid() && old(history) <= history && AllSafe(history)
      ensures w.listener.None?
    {
      passes := 1;
      var outcome := Reconcile();
      while Held(w)
        invariant Valid() && old(history) <= history
        invariant w.listener.None? || (Held(w) && Halted(w) && Waiting(w))
        decreases if Held(w) then Rank(w) + 1 else 0
      {
        ghost var h := history;
        Pause();
        PrefixTransitive(old(history), h, history);
        h := history;
        outcome := Reconcile();
        PrefixTransitive(old(history), h, history);
        passes := passes + 1;
      }
    }
  }
}
