/** The children operator/internal/controller/resources.go builds for a FeedListener, and the
    state one successful reconcile leaves them in. */
module Resources {
  import opened Cluster
  import opened ConfigDigest
  import opened Labels
  import opened MessageShardFilter
  import opened Wrappers

  const SHARD_LIMIT := 0x8000_0000

  // ---- builders -------------------------------------------------------------------------

  /** `maintenanceSchedule`: an empty schedule is no schedule. */
  function MaintenanceSchedule(spec: Spec): Option<string> {
    if spec.schedule.None? || spec.schedule.value == "" then None else spec.schedule
  }

  function BuildConfig(spec: Spec): Config { Config(spec.consumers, MaintenanceSchedule(spec).None?) }

  const SHARD_COUNT_KEY := "Eddn__ShardCount"
  const PERIODIC_KEY := "IndexMaintenance__Periodic"

  function FormatBool(b: bool): string { if b then "true" else "false" }

  /** `buildConfigData`, with the entries that no branch of the controller depends on. */
  function BuildConfigData(config: Config, others: map<string, string>): map<string, string>
    requires config.shardCount >= 0
  {
    others[SHARD_COUNT_KEY := Itoa(config.shardCount)][PERIODIC_KEY := FormatBool(config.periodic)]
  }

  lemma ItoaIsPlain(n: nat)
    ensures NulFree(Itoa(n))
  {}

  lemma ConfigDataIsPlain(config: Config, others: map<string, string>)
    requires config.shardCount >= 0 && Plain(others)
    ensures Plain(BuildConfigData(config, others))
  {
    var data := BuildConfigData(config, others);
    ItoaIsPlain(config.shardCount);
    forall key | key in data
      ensures NulFree(key) && NulFree(data[key])
    {
      if key != SHARD_COUNT_KEY && key != PERIODIC_KEY {
        assert key in others;
      }
    }
  }

  lemma ConfigDataInjective(c: Config, d: Config, others: map<string, string>)
    requires c.shardCount >= 0 && d.shardCount >= 0
    requires BuildConfigData(c, others) == BuildConfigData(d, others)
    ensures c == d
  {
    assert SHARD_COUNT_KEY[0] == 'E' && PERIODIC_KEY[0] == 'I';
    assert BuildConfigData(c, others)[SHARD_COUNT_KEY] == Itoa(c.shardCount);
    assert BuildConfigData(d, others)[SHARD_COUNT_KEY] == Itoa(d.shardCount);
    AtoiItoa(c.shardCount);
    AtoiItoa(d.shardCount);
    assert BuildConfigData(c, others)[PERIODIC_KEY] == FormatBool(c.periodic);
    assert BuildConfigData(d, others)[PERIODIC_KEY] == FormatBool(d.periodic);
    assert |FormatBool(true)| != |FormatBool(false)|;
  }

  /** The digest annotation changes exactly with the configuration, so the configuration can
      stand for it in a pod template. */
  lemma DigestStandsForConfig(c: Config, d: Config, others: map<string, string>)
    requires c.shardCount >= 0 && d.shardCount >= 0 && Plain(others)
    ensures DigestInput(BuildConfigData(c, others)) == DigestInput(BuildConfigData(d, others)) <==> c == d
  {
    ConfigDataIsPlain(c, others);
    ConfigDataIsPlain(d, others);
    InputTellsApart(BuildConfigData(c, others), BuildConfigData(d, others));
    if BuildConfigData(c, others) == BuildConfigData(d, others) {
      ConfigDataInjective(c, d, others);
    }
  }

  function BuildShardDeployment(name: string, shard: nat, config: Config): Deployment {
    Deployment(ShardLabels(name, shard), 1, true, ShardSelector(name, shard),
               Template(ShardLabels(name, shard), config, shard), false)
  }

  function BuildCronJob(name: string, schedule: string): CronJob { CronJob(schedule, MaintenanceLabels(name), false) }

  // ---- Deployments this controller made -------------------------------------------------

  /** What later passes, with other counts and configurations, leave alone. */
  predicate MadeFor(name: string, key: string, d: Deployment, shard: nat) {
    && shard < SHARD_LIMIT
    && key == ShardDeploymentName(name, shard)
    && d.labels == ShardLabels(name, shard)
    && d.selector == ShardSelector(name, shard)
    && d.template.labels == ShardLabels(name, shard)
  }

  ghost predicate IsMade(name: string, key: string, d: Deployment) { exists shard: nat :: MadeFor(name, key, d, shard) }

  ghost predicate Made(w: World) {
    forall key :: key in w.deployments ==> IsMade(w.name, key, w.deployments[key])
  }

  lemma MadeIsHonest(w: World)
    requires Made(w)
    ensures DeploymentsHonest(w)
  {
    forall key | key in w.deployments
      ensures DeploymentHonest(w.name, w.deployments[key])
    {
      assert IsMade(w.name, key, w.deployments[key]);
      var shard: nat :| MadeFor(w.name, key, w.deployments[key], shard);
      OwnPodsAreFound(w.name, w.name, shard);
    }
  }

  lemma ActKeepsMade(w: World, a: Action)
    requires Made(w)
    ensures Made(Act(w, a))
  {
    DeploymentsLater(w, a);
    var w' := Act(w, a);
    forall key | key in w'.deployments
      ensures IsMade(w'.name, key, w'.deployments[key])
    {
      assert IsMade(w.name, key, w.deployments[key]);
      var shard: nat :| MadeFor(w.name, key, w.deployments[key], shard);
      assert MadeFor(w'.name, key, w'.deployments[key], shard);
    }
  }

  /** A Deployment found under a shard's name was made for that shard. */
  lemma MadeUnderItsName(w: World, shard: nat)
    requires Made(w) && ShardDeploymentName(w.name, shard) in w.deployments
    ensures w.deployments[ShardDeploymentName(w.name, shard)].selector == ShardSelector(w.name, shard)
  {
    var key := ShardDeploymentName(w.name, shard);
    assert IsMade(w.name, key, w.deployments[key]);
    var s: nat :| MadeFor(w.name, key, w.deployments[key], s);
    DeploymentNameInjective(w.name, shard, w.name, s);
  }

  // ---- the settled state ----------------------------------------------------------------

  ghost predicate ShardSettled(w: World, spec: Spec, shard: nat) {
    var key := ShardDeploymentName(w.name, shard);
    key in w.deployments && w.deployments[key] == BuildShardDeployment(w.name, shard, BuildConfig(spec))
  }

  ghost predicate ShardsSettled(w: World, spec: Spec, below: int) {
    forall shard: nat :: shard < below ==> ShardSettled(w, spec, shard)
  }

  predicate InPartition(name: string, spec: Spec, key: string, shard: nat) {
    shard < spec.consumers && key == ShardDeploymentName(name, shard)
  }

  ghost predicate NoStaleShard(w: World, spec: Spec) {
    forall key :: key in w.deployments ==> exists shard: nat :: InPartition(w.name, spec, key, shard)
  }

  /** The spec asks for rebuilds by a CronJob; an empty schedule does not. */
  predicate Scheduled(spec: Spec) { spec.schedule.Some? && spec.schedule.value != "" }

  predicate MaintenanceSettled(w: World, spec: Spec) {
    if Scheduled(spec) then w.cronJob == Some(BuildCronJob(w.name, spec.schedule.value)) else w.cronJob.None?
  }

  /** Exactly the shards 0..consumers-1, all on the current configuration, and the CronJob
      exactly when there is a schedule. */
  ghost predicate Converged(w: World, spec: Spec) {
    && w.config == Some(BuildConfig(spec))
    && ShardsSettled(w, spec, spec.consumers)
    && NoStaleShard(w, spec)
    && MaintenanceSettled(w, spec)
  }

  lemma ConvergedHasShard(w: World, spec: Spec, key: string) returns (shard: nat)
    requires Converged(w, spec) && key in w.deployments
    ensures InPartition(w.name, spec, key, shard)
    ensures w.deployments[key] == BuildShardDeployment(w.name, shard, BuildConfig(spec))
  {
    shard :| InPartition(w.name, spec, key, shard);
    assert ShardSettled(w, spec, shard);
  }

  /** The settled children are determined by the listener's name and spec. */
  lemma ConvergedIsUnique(w: World, w': World, spec: Spec)
    requires Converged(w, spec) && Converged(w', spec) && w.name == w'.name
    ensures w.config == w'.config && w.deployments == w'.deployments && w.cronJob == w'.cronJob
  {
    forall key | key in w.deployments
      ensures key in w'.deployments && w'.deployments[key] == w.deployments[key]
    {
      var shard := ConvergedHasShard(w, spec, key);
      assert ShardSettled(w', spec, shard);
    }
    forall key | key in w'.deployments
      ensures key in w.deployments
    {
      var shard := ConvergedHasShard(w', spec, key);
      assert ShardSettled(w, spec, shard);
    }
  }

  lemma ConvergedDeletesNothing(w: World, spec: Spec)
    requires Converged(w, spec) && w.listener.Some?
    ensures NothingDeleting(w)
  {
    forall key | key in w.deployments
      ensures !w.deployments[key].deleting
    {
      var shard := ConvergedHasShard(w, spec, key);
    }
  }

  /** The settled state in the spec's own terms: the CronJob is there exactly when the schedule is not
      empty and runs on it, and then the consumers' timers are off; each shard has one pod at a time,
      told its own index and the number of consumers. */
  lemma ConvergedMeans(w: World, spec: Spec)
    requires Converged(w, spec)
    ensures w.cronJob.Some? <==> spec.schedule.Some? && spec.schedule.value != ""
    ensures w.cronJob.Some? ==> w.cronJob.value.schedule == spec.schedule.value && !w.cronJob.value.deleting
    ensures w.config.Some? && w.config.value.shardCount == spec.consumers && w.config.value.periodic == w.cronJob.None?
    ensures forall key :: key in w.deployments ==> w.deployments[key].template.config == w.config.value
    ensures forall key :: key in w.deployments ==>
      w.deployments[key].replicas == 1 && w.deployments[key].recreate && !w.deployments[key].deleting
    ensures forall shard: nat :: shard < spec.consumers ==> RunsShard(w, shard)
  {
    forall key | key in w.deployments
      ensures w.deployments[key].template.config == w.config.value
      ensures w.deployments[key].replicas == 1 && w.deployments[key].recreate && !w.deployments[key].deleting
    {
      var shard := ConvergedHasShard(w, spec, key);
    }
    forall shard: nat | shard < spec.consumers
      ensures RunsShard(w, shard)
    {
      assert ShardSettled(w, spec, shard);
    }
  }

  /** The Deployment of the shard is there, and its pod is told the shard's index. */
  predicate RunsShard(w: World, shard: nat) {
    var key := ShardDeploymentName(w.name, shard);
    key in w.deployments && w.deployments[key].template.shardIndex == shard
  }

  // ---- what a settled cluster does ------------------------------------------------------

  /** The Deployments whose pod handles the message. */
  ghost function Handlers(w: World, message: Message): set<string> {
    set key | key in w.deployments && Handles(w.deployments[key], message)
  }

  ghost predicate Handles(d: Deployment, message: Message) {
    var filter := ShardFilter(d.template.shardIndex, d.template.config.shardCount);
    d.replicas == 1 && filter.Valid() && filter.Owns(message)
  }

  /** In a settled cluster every message has exactly one owner. */
  lemma EveryMessageHasOneHandler(w: World, spec: Spec, message: Message)
    requires Converged(w, spec) && spec.Valid()
    ensures Handlers(w, message) == {ShardDeploymentName(w.name, Owner(message, spec.consumers))}
  {
    var owner := Owner(message, spec.consumers);
    assert ShardSettled(w, spec, owner);
    forall key | key in Handlers(w, message)
      ensures key == ShardDeploymentName(w.name, owner)
    {
      var shard := ConvergedHasShard(w, spec, key);
      assert ShardFilter(shard, spec.consumers).Owns(message);
    }
  }

  datatype PeriodicRebuilder = ByCronJob | ByShard(key: string)

  /** Who rebuilds the indexes on a schedule: the CronJob, and any shard-0 consumer whose
      configuration leaves its timer on. */
  ghost function PeriodicRebuilders(w: World): set<PeriodicRebuilder> {
    (if w.cronJob.Some? then {ByCronJob} else {}) +
    set key | key in w.deployments && RunsTimer(w.deployments[key]) :: ByShard(key)
  }

  predicate RunsTimer(d: Deployment) { d.template.shardIndex == 0 && d.template.config.periodic }

  /** The schedule is handed over, never shared and never dropped. */
  lemma OnePeriodicRebuilder(w: World, spec: Spec)
    requires Converged(w, spec) && spec.Valid()
    ensures PeriodicRebuilders(w) ==
            if spec.schedule.Some? && spec.schedule.value != "" then {ByCronJob} else {ByShard(ShardDeploymentName(w.name, 0))}
  {
    assert ShardSettled(w, spec, 0);
    forall key | key in w.deployments && RunsTimer(w.deployments[key])
      ensures !Scheduled(spec) && key == ShardDeploymentName(w.name, 0)
    {
      var shard := ConvergedHasShard(w, spec, key);
    }
  }
}
