/** The cluster around one FeedListener: Kubernetes objects, pods, and the Redis keys that
    outlive them, with everything that happens outside the controller.

    Assumed of Kubernetes: a deleted or deleting Deployment, CronJob or Job starts no pod and no
    Job; deletion stamps are never withdrawn; and nobody but the controller creates these
    objects. */
module Cluster {
  import opened Labels
  import opened Sets
  import opened Wrappers

  type Id = nat

  const DRAIN_BACKOFF_LIMIT := 3

  // ---- objects --------------------------------------------------------------------------

  /** The fields of the spec that the controller branches on. */
  datatype Spec = Spec(consumers: int, schedule: Option<string>, retainIndexesOnDelete: bool) {
    predicate Valid() { 1 <= consumers < 0x8000_0000 }
  }

  datatype Listener = Listener(spec: Spec, deleting: bool, finalizer: bool)

  /** The ConfigMap's shard count and its periodic-rebuild switch. */
  datatype Config = Config(shardCount: int, periodic: bool)

  /** A consumer pod's template.  The configuration stands for its digest annotation. */
  datatype Template = Template(labels: LabelSet, config: Config, shardIndex: int)

  datatype Deployment = Deployment(labels: LabelSet, replicas: int, recreate: bool, selector: LabelSet,
                                   template: Template, deleting: bool)

  datatype CronJob = CronJob(schedule: string, labels: LabelSet, deleting: bool)

  datatype Job = Job(labels: LabelSet, finished: bool, deleting: bool)

  datatype DrainJob = DrainJob(succeeded: nat, failed: nat, failedCondition: bool) {
    /** `jobFailed`. */
    predicate Failed() { failed > DRAIN_BACKOFF_LIMIT || failedCondition }

    predicate Finished() { succeeded > 0 || Failed() }
  }

  /** What a pod does.  A drain pod remembers whether its purge went through. */
  datatype Role = Consumer | Rebuild | Drain(purged: bool)

  datatype Pod = Pod(labels: LabelSet, role: Role)

  datatype RedisKey = SystemIndex | CarrierIndex | HeartbeatKey

  datatype World = World(name: string, listener: Option<Listener>, config: Option<Config>,
                         deployments: map<string, Deployment>, cronJob: Option<CronJob>,
                         jobs: map<Id, Job>, drainJob: Option<DrainJob>,
                         pods: map<Id, Pod>, redis: set<RedisKey>)

  // ---- everything but the controller ----------------------------------------------------

  datatype Child = TheConfig | TheDeployment(deployment: string) | TheCronJob | TheJob(job: Id) | TheDrainJob

  datatype Action =
    | DeploymentStartsPod(deployment: string, pod: Id)
    | CronTick(job: Id)
    | JobStartsPod(job: Id, pod: Id)
    | JobFinishes(job: Id)
    | JobDeleted(job: Id)
    | JobRemoved(job: Id)
    | PodEnds(pod: Id)
    | ConsumerWrites(pod: Id, key: RedisKey)
    | RebuildWrites(pod: Id, key: RedisKey)
    | KeyVanishes(key: RedisKey)
    | DrainStartsPod(pod: Id)
    | DrainPurges(pod: Id)
    | DrainExits(pod: Id, ok: bool)
    | DrainJobFails
    | UserEditsSpec(spec: Spec)
    | UserDeletesListener
    | UserDeletesDeployment(deployment: string, foreground: bool)
    | UserDeletesCronJob(foreground: bool)
    | UserDeletesConfig
    | UserDeletesDrainJob
    | DeploymentRemoved(deployment: string)
    | CronJobRemoved
    | OwnerCollected(child: Child)

  /** Actions of a person rather than of the cluster. */
  predicate IsUserAction(a: Action) {
    a.UserEditsSpec? || a.UserDeletesListener? || a.JobDeleted? || a.UserDeletesDeployment? || a.UserDeletesCronJob?
    || a.UserDeletesConfig? || a.UserDeletesDrainJob?
  }

  // What each action does to each kind of object; an action that is not enabled changes nothing.

  function ListenerAfter(w: World, a: Action): Option<Listener> {
    match a
    case UserEditsSpec(spec) =>
      if w.listener.Some? && spec.Valid() then Some(w.listener.value.(spec := spec)) else w.listener
    case UserDeletesListener =>
      if w.listener.Some? && w.listener.value.finalizer then Some(w.listener.value.(deleting := true)) else None
    case _ => w.listener
  }

  /** With the listener gone its children are collected, in any order. */
  predicate Collects(w: World, a: Action, child: Child) { a == OwnerCollected(child) && w.listener.None? }

  function DeploymentsAfter(w: World, a: Action): map<string, Deployment> {
    match a
    case UserDeletesDeployment(d, foreground) =>
      if d !in w.deployments then w.deployments
      else if foreground then w.deployments[d := w.deployments[d].(deleting := true)]
      else w.deployments - {d}
    case DeploymentRemoved(d) =>
      if d in w.deployments && w.deployments[d].deleting then w.deployments - {d} else w.deployments
    case OwnerCollected(TheDeployment(d)) => if w.listener.None? then w.deployments - {d} else w.deployments
    case _ => w.deployments
  }

  function CronJobAfter(w: World, a: Action): Option<CronJob> {
    if w.cronJob.None? || Collects(w, a, TheCronJob) then None else
    match a
    case UserDeletesCronJob(foreground) =>
      if foreground then Some(w.cronJob.value.(deleting := true)) else None
    case CronJobRemoved => if w.cronJob.value.deleting then None else w.cronJob
    case _ => w.cronJob
  }

  function JobsAfter(w: World, a: Action): map<Id, Job> {
    match a
    case CronTick(j) =>
      if w.cronJob.Some? && !w.cronJob.value.deleting && j !in w.jobs
      then w.jobs[j := Job(w.cronJob.value.labels, false, false)] else w.jobs
    case JobFinishes(j) => if j in w.jobs then w.jobs[j := w.jobs[j].(finished := true)] else w.jobs
    case JobDeleted(j) => if j in w.jobs then w.jobs[j := w.jobs[j].(deleting := true)] else w.jobs
    case JobRemoved(j) =>
      if j in w.jobs && (w.jobs[j].deleting || w.jobs[j].finished) then w.jobs - {j} else w.jobs
    case OwnerCollected(TheJob(j)) => if w.listener.None? then w.jobs - {j} else w.jobs
    case _ => w.jobs
  }

  /** The purge command exits with 0 only after its purge went through. */
  predicate Exits(w: World, pod: Id, ok: bool) {
    pod in w.pods && w.pods[pod].role.Drain? && w.drainJob.Some? && (ok ==> w.pods[pod].role.purged)
  }

  function DrainJobAfter(w: World, a: Action): Option<DrainJob> {
    if w.drainJob.None? || Collects(w, a, TheDrainJob) then None else
    var job := w.drainJob.value;
    match a
    case DrainExits(p, ok) =>
      if !Exits(w, p, ok) then w.drainJob
      else if ok then Some(job.(succeeded := job.succeeded + 1))
      else Some(job.(failed := job.failed + 1))
    case DrainJobFails =>
      if job.failed > DRAIN_BACKOFF_LIMIT then Some(job.(failedCondition := true)) else w.drainJob
    case UserDeletesDrainJob => None
    case _ => w.drainJob
  }

  function PodsAfter(w: World, a: Action): map<Id, Pod> {
    match a
    case DeploymentStartsPod(d, p) =>
      if d in w.deployments && !w.deployments[d].deleting && p !in w.pods
      then w.pods[p := Pod(w.deployments[d].template.labels, Consumer)] else w.pods
    case JobStartsPod(j, p) =>
      if j in w.jobs && !w.jobs[j].deleting && !w.jobs[j].finished && p !in w.pods
      then w.pods[p := Pod(w.jobs[j].labels, Rebuild)] else w.pods
    case DrainStartsPod(p) =>
      if w.drainJob.Some? && !w.drainJob.value.Finished() && p !in w.pods
      then w.pods[p := Pod(DrainLabels(w.name), Drain(false))] else w.pods
    case DrainPurges(p) =>
      if p in w.pods && w.pods[p].role.Drain?
      then w.pods[p := w.pods[p].(role := Drain(true))] else w.pods
    case DrainExits(p, ok) => if Exits(w, p, ok) then w.pods - {p} else w.pods
    case PodEnds(p) => w.pods - {p}
    case _ => w.pods
  }

  function RedisAfter(w: World, a: Action): set<RedisKey> {
    match a
    case ConsumerWrites(p, key) =>
      if p in w.pods && w.pods[p].role.Consumer? then w.redis + {key} else w.redis
    case RebuildWrites(p, key) =>
      if p in w.pods && w.pods[p].role.Rebuild? && key != HeartbeatKey then w.redis + {key} else w.redis
    case KeyVanishes(key) => w.redis - {key}
    case DrainPurges(p) => if p in w.pods && w.pods[p].role.Drain? then {} else w.redis
    case _ => w.redis
  }

  /** The state after an action. */
  function Act(w: World, a: Action): World {
    World(w.name, ListenerAfter(w, a), if Collects(w, a, TheConfig) || a.UserDeletesConfig? then None else w.config, DeploymentsAfter(w, a),
          CronJobAfter(w, a), JobsAfter(w, a), DrainJobAfter(w, a), PodsAfter(w, a), RedisAfter(w, a))
  }

  // ---- labels tell the truth ------------------------------------------------------------

  predicate PodHonest(name: string, pod: Pod) {
    match pod.role
    case Consumer => Matches(SelectorLabels(name), pod.labels)
    case Rebuild => Matches(MaintenanceLabels(name), pod.labels)
    case Drain(_) => pod.labels == DrainLabels(name)
  }

  predicate DeploymentHonest(name: string, d: Deployment) {
    Matches(SelectorLabels(name), d.labels) && Matches(SelectorLabels(name), d.template.labels)
  }

  ghost predicate DeploymentsHonest(w: World) {
    forall d :: d in w.deployments ==> DeploymentHonest(w.name, w.deployments[d])
  }

  ghost predicate RebuildsHonest(w: World) {
    && (w.cronJob.Some? ==> Matches(MaintenanceLabels(w.name), w.cronJob.value.labels))
    && (forall j :: j in w.jobs ==> Matches(MaintenanceLabels(w.name), w.jobs[j].labels))
  }

  ghost predicate PodsHonest(w: World) {
    forall p :: p in w.pods ==> PodHonest(w.name, w.pods[p])
  }

  ghost predicate Honest(w: World) { DeploymentsHonest(w) && RebuildsHonest(w) && PodsHonest(w) }

  lemma ActKeepsDeploymentsHonest(w: World, a: Action)
    requires DeploymentsHonest(w)
    ensures DeploymentsHonest(Act(w, a))
  {}

  lemma ActKeepsRebuildsHonest(w: World, a: Action)
    requires RebuildsHonest(w)
    ensures RebuildsHonest(Act(w, a))
  {}

  lemma ActKeepsHonest(w: World, a: Action)
    requires Honest(w)
    ensures Honest(Act(w, a))
  {
    ActKeepsDeploymentsHonest(w, a);
    ActKeepsRebuildsHonest(w, a);
  }

  // ---- writers stopping -----------------------------------------------------------------

  predicate CronStopped(w: World) { w.cronJob.None? || w.cronJob.value.deleting }

  ghost predicate ShardsStopped(w: World) {
    forall d :: d in w.deployments ==> w.deployments[d].deleting
  }

  ghost predicate RebuildsStopped(w: World) {
    CronStopped(w) && forall j :: j in w.jobs ==> w.jobs[j].deleting
  }

  /** Nothing can start a writer any more. */
  ghost predicate Halted(w: World) { ShardsStopped(w) && RebuildsStopped(w) }

  ghost predicate NoPod(w: World, role: Role) { forall p :: p in w.pods ==> w.pods[p].role != role }

  /** Nothing can start a writer, and none is running. */
  ghost predicate Quiet(w: World) { Halted(w) && NoPod(w, Consumer) && NoPod(w, Rebuild) }

  lemma ShardsStayStopped(w: World, a: Action)
    requires ShardsStopped(w)
    ensures ShardsStopped(Act(w, a))
    ensures NoPod(w, Consumer) ==> NoPod(Act(w, a), Consumer)
  {}

  lemma RebuildsStayStopped(w: World, a: Action)
    requires RebuildsStopped(w)
    ensures RebuildsStopped(Act(w, a))
    ensures NoPod(w, Rebuild) ==> NoPod(Act(w, a), Rebuild)
  {}

  /** A quiet cluster stays quiet and its Redis keys can only disappear. */
  lemma QuietStays(w: World, a: Action)
    requires Quiet(w)
    ensures Quiet(Act(w, a)) && Act(w, a).redis <= w.redis
  {
    ShardsStayStopped(w, a);
    RebuildsStayStopped(w, a);
  }

  // ---- the drain ------------------------------------------------------------------------

  predicate Leaving(w: World) { w.listener.None? || w.listener.value.deleting }

  ghost predicate DrainStarted(w: World) {
    w.drainJob.Some? || exists p :: p in w.pods && w.pods[p].role.Drain?
  }

  ghost predicate Purged(w: World) {
    (w.drainJob.Some? && w.drainJob.value.succeeded > 0) || exists p :: p in w.pods && w.pods[p].role == Drain(true)
  }

  /** Deleting the listener will not skip teardown. */
  predicate Registered(w: World) { w.listener.Some? && w.listener.value.finalizer }

  /** No child exists under a listener whose deletion would skip teardown. */
  predicate Guarded(w: World) {
    w.listener.Some? && !w.listener.value.finalizer ==> w.config.None? && w.deployments == map[] && w.cronJob.None?
  }

  /** The invariant of every state: the drain starts only in a quiet cluster whose listener is
      on its way out, once a purge has gone through the keys are gone, and children exist only
      under a registered finalizer. */
  ghost predicate Inv(w: World) {
    && Honest(w)
    && Guarded(w)
    && (DrainStarted(w) ==> Quiet(w) && Leaving(w))
    && (Purged(w) ==> w.redis == {})
  }

  /** No consumer or rebuild pod exists while the drain Job does. */
  ghost predicate Safe(w: World) { w.drainJob.Some? ==> NoPod(w, Consumer) && NoPod(w, Rebuild) }

  lemma DrainStartsNowhereElse(w: World, a: Action)
    requires !DrainStarted(w)
    ensures !DrainStarted(Act(w, a))
  {}

  lemma LeavingStays(w: World, a: Action)
    requires Leaving(w)
    ensures Leaving(Act(w, a))
  {}

  lemma PurgedMeansEmpty(w: World, a: Action)
    requires Quiet(w) && (Purged(w) ==> w.redis == {})
    ensures Purged(Act(w, a)) ==> Act(w, a).redis == {}
  {
    QuietStays(w, a);
    var w' := Act(w, a);
    if Purged(w') && !a.DrainPurges? {
      assert Purged(w);
    }
  }

  lemma GuardedStays(w: World, a: Action)
    requires Guarded(w)
    ensures Guarded(Act(w, a))
  {}

  /** Nothing outside the controller breaks the invariant. */
  lemma ActKeepsInv(w: World, a: Action)
    requires Inv(w)
    ensures Inv(Act(w, a))
  {
    ActKeepsHonest(w, a);
    GuardedStays(w, a);
    if DrainStarted(w) {
      QuietStays(w, a);
      LeavingStays(w, a);
      PurgedMeansEmpty(w, a);
    } else {
      DrainStartsNowhereElse(w, a);
    }
  }

  // ---- progress of a teardown -----------------------------------------------------------

  /** The listener is being deleted and the controller has not let go of it. */
  predicate Held(w: World) { w.listener.Some? && w.listener.value.deleting && w.listener.value.finalizer }

  /** The pods teardown waits for, found by their labels. */
  function WaitedFor(w: World): set<Id> {
    set p | p in w.pods && (Matches(SelectorLabels(w.name), w.pods[p].labels) || Matches(MaintenanceLabels(w.name), w.pods[p].labels))
  }

  function DrainRank(job: Option<DrainJob>): nat {
    if job.None? then DRAIN_BACKOFF_LIMIT + 3
    else if job.value.Finished() then 1
    else DRAIN_BACKOFF_LIMIT + 2 - job.value.failed
  }

  /** Falls with every pod that ends and every drain attempt that finishes. */
  ghost function Rank(w: World): nat { |WaitedFor(w)| + DrainRank(w.drainJob) }

  /** A pod has to end, or the drain Job has to finish, before the controller can go on. */
  ghost predicate Waiting(w: World) {
    WaitedFor(w) != {} || (w.drainJob.Some? && !w.drainJob.value.Finished())
  }

  lemma OldOrDrainPod(w: World, a: Action, p: Id)
    requires Halted(w) && p in Act(w, a).pods
    ensures (p in w.pods && w.pods[p].labels == Act(w, a).pods[p].labels) || Act(w, a).pods[p].labels == DrainLabels(w.name)
  {}

  /** In a halted cluster no action adds a pod that teardown waits for; in particular the
      drain's own pods are not among them. */
  lemma WaitedForShrinks(w: World, a: Action)
    requires Honest(w) && Halted(w)
    ensures WaitedFor(Act(w, a)) <= WaitedFor(w)
  {
    PopulationsAreDisjoint(w.name, w.name, 0);
    forall p | p in WaitedFor(Act(w, a))
      ensures p in WaitedFor(w)
    {
      OldOrDrainPod(w, a, p);
    }
  }

  /** The drain Job stays, and so does what it has come to. */
  predicate DrainGoesOn(job: Option<DrainJob>, job': Option<DrainJob>) {
    job.Some? ==>
      job'.Some? && (job.value.Failed() ==> job'.value.Failed()) && (job.value.succeeded > 0 ==> job'.value.succeeded > 0)
  }

  lemma HeldStays(w: World, a: Action)
    requires Held(w)
    ensures Held(Act(w, a))
    ensures !a.UserDeletesDrainJob? ==>
      DrainRank(Act(w, a).drainJob) <= DrainRank(w.drainJob) && DrainGoesOn(w.drainJob, Act(w, a).drainJob)
  {}

  /** No new pod to wait for, and no fewer drain attempts made. */
  predicate NoFartherFromRelease(w: World, w': World) {
    WaitedFor(w') <= WaitedFor(w) && DrainRank(w'.drainJob) <= DrainRank(w.drainJob)
  }

  lemma RankNeverGrows(w: World, w': World)
    requires NoFartherFromRelease(w, w')
    ensures Rank(w') <= Rank(w)
    ensures Waiting(w) && !Waiting(w') && (w.drainJob.Some? ==> w'.drainJob.Some?) ==> Rank(w') < Rank(w)
  {
    SubsetSize(WaitedFor(w'), WaitedFor(w));
  }

  lemma EndingAPodLowersRank(w: World, p: Id)
    requires Honest(w) && Halted(w) && Held(w) && p in WaitedFor(w)
    ensures Rank(Act(w, PodEnds(p))) < Rank(w)
  {
    WaitedForShrinks(w, PodEnds(p));
    SubsetSize(WaitedFor(Act(w, PodEnds(p))), WaitedFor(w));
    assert p !in WaitedFor(Act(w, PodEnds(p)));
  }

  lemma DrainAttemptLowersRank(w: World, p: Id, ok: bool)
    requires Honest(w) && Halted(w) && Held(w)
    requires w.drainJob.Some? && !w.drainJob.value.Finished()
    requires p in w.pods && w.pods[p].role.Drain? && (ok ==> w.pods[p].role.purged)
    ensures Rank(Act(w, DrainExits(p, ok))) < Rank(w)
  {
    WaitedForShrinks(w, DrainExits(p, ok));
    SubsetSize(WaitedFor(Act(w, DrainExits(p, ok))), WaitedFor(w));
  }

  // ---- what the passage of time preserves -----------------------------------------------

  /** Deployments only go away, and only ever gain a deletion stamp. */
  ghost predicate FewerDeployments(w: World, w': World) {
    forall d :: d in w'.deployments ==> d in w.deployments && (w.deployments[d].deleting ==> w'.deployments[d].deleting)
  }

  lemma DeploymentsLater(w: World, a: Action)
    ensures FewerDeployments(w, Act(w, a))
    ensures forall d :: d in Act(w, a).deployments ==> Act(w, a).deployments[d].(deleting := w.deployments[d].deleting) == w.deployments[d]
  {}

  ghost predicate FewerJobs(w: World, w': World) {
    forall j :: j in w'.jobs ==> j in w.jobs && (w.jobs[j].deleting ==> w'.jobs[j].deleting)
  }

  /** The children a reconcile manages are as they were. */
  predicate SameChildren(w: World, w': World) {
    w'.listener == w.listener && w'.config == w.config && w'.deployments == w.deployments && w'.cronJob == w.cronJob
  }

  ghost predicate NothingDeleting(w: World) {
    && w.listener.Some?
    && (forall d :: d in w.deployments ==> !w.deployments[d].deleting)
    && (w.cronJob.Some? ==> !w.cronJob.value.deleting)
  }

  /** What holds later, whatever happened in between. */
  ghost predicate Later(w: World, w': World) {
    && w'.name == w.name
    && FewerDeployments(w, w')
    && (CronStopped(w) ==> CronStopped(w') && FewerJobs(w, w'))
    && (ShardsStopped(w) && NoPod(w, Consumer) ==> NoPod(w', Consumer))
    && (RebuildsStopped(w) && NoPod(w, Rebuild) ==> NoPod(w', Rebuild))
    && (Quiet(w) ==> w'.redis <= w.redis)
    && (!DrainStarted(w) ==> !DrainStarted(w'))
    && (w.drainJob.None? ==> w'.drainJob.None?)
    && (w'.listener.Some? ==> w.listener.Some? && w'.listener.value.finalizer == w.listener.value.finalizer)
    && (Registered(w) ==> Registered(w'))
    && (Leaving(w) ==> Leaving(w'))
    && (Held(w) ==> Held(w'))
  }

  lemma StoppedLater(w: World, w': World)
    requires Later(w, w')
    ensures ShardsStopped(w) ==> ShardsStopped(w')
    ensures RebuildsStopped(w) ==> RebuildsStopped(w')
    ensures Quiet(w) ==> Quiet(w')
  {}

  lemma LaterReflexive(w: World)
    ensures Later(w, w)
  {}

  lemma LaterTransitive(a: World, b: World, c: World)
    requires Later(a, b) && Later(b, c)
    ensures Later(a, c)
  {
    StoppedLater(a, b);
  }

  /** As long as nobody deletes the drain Job, a teardown loses no ground. */
  ghost predicate OnCourse(w: World, w': World) {
    Held(w) ==> DrainGoesOn(w.drainJob, w'.drainJob) && (Halted(w) ==> NoFartherFromRelease(w, w'))
  }

  lemma OnCourseTransitive(a: World, b: World, c: World)
    requires Later(a, b) && OnCourse(a, b) && OnCourse(b, c)
    ensures OnCourse(a, c)
  {
    StoppedLater(a, b);
  }

  lemma ActIsLater(w: World, a: Action)
    requires Honest(w)
    ensures Later(w, Act(w, a)) && (!a.UserDeletesDrainJob? ==> OnCourse(w, Act(w, a)))
  {
    DeploymentsLater(w, a);
    FinalizerLater(w, a);
    if CronStopped(w) { JobsLater(w, a); }
    if ShardsStopped(w) { ShardsStayStopped(w, a); }
    if RebuildsStopped(w) { RebuildsStayStopped(w, a); }
    if Quiet(w) { QuietStays(w, a); }
    if !DrainStarted(w) { DrainStartsNowhereElse(w, a); }
    if Leaving(w) { LeavingStays(w, a); }
    if Held(w) {
      HeldStays(w, a);
      if Halted(w) { WaitedForShrinks(w, a); }
    }
  }

  lemma JobsLater(w: World, a: Action)
    requires CronStopped(w)
    ensures CronStopped(Act(w, a)) && FewerJobs(w, Act(w, a))
  {}

  lemma FinalizerLater(w: World, a: Action)
    ensures Act(w, a).listener.Some? ==>
      w.listener.Some? && Act(w, a).listener.value.finalizer == w.listener.value.finalizer
    ensures Registered(w) ==> Registered(Act(w, a))
  {}

  /** Without a person interfering, the cluster leaves the managed children alone. */
  lemma ClusterKeepsChildren(w: World, a: Action)
    requires NothingDeleting(w) && !IsUserAction(a)
    ensures SameChildren(w, Act(w, a)) && NothingDeleting(Act(w, a))
  {}

  // ---- whole stretches of outside activity ----------------------------------------------

  function Play(w: World, actions: seq<Action>): World
    decreases |actions|
  {
    if actions == [] then w else Play(Act(w, actions[0]), actions[1..])
  }

  /** How many drain attempts fail on the way. */
  function FailedAttempts(w: World, actions: seq<Action>): nat
    decreases |actions|
  {
    if actions == [] then 0
    else OneIfFails(w, actions[0]) + FailedAttempts(Act(w, actions[0]), actions[1..])
  }

  function OneIfFails(w: World, a: Action): nat {
    if a.DrainExits? && !a.ok && Exits(w, a.pod, false) then 1 else 0
  }

  lemma {:induction false} AttemptsAreCounted(w: World, actions: seq<Action>)
    requires Held(w) && w.drainJob.Some? && UserDeletesDrainJob !in actions
    requires w.drainJob.value.failedCondition ==> w.drainJob.value.failed >= 4
    ensures var job := Play(w, actions).drainJob;
      && job.Some? && job.value.failed == w.drainJob.value.failed + FailedAttempts(w, actions)
      && (job.value.failedCondition ==> job.value.failed >= 4)
    decreases |actions|
  {
    if actions != [] {
      assert actions[0] in actions;
      HeldStays(w, actions[0]);
      AttemptsAreCounted(Act(w, actions[0]), actions[1..]);
    }
  }

  /** Whatever else happens, a new drain Job counts as failed after its fourth failed attempt and not
      before. */
  lemma DrainFailsAtTheFourthAttempt(w: World, actions: seq<Action>)
    requires Held(w) && w.drainJob == Some(DrainJob(0, 0, false)) && UserDeletesDrainJob !in actions
    ensures var job := Play(w, actions).drainJob;
      job.Some? && (job.value.Failed() <==> FailedAttempts(w, actions) >= 4)
  {
    AttemptsAreCounted(w, actions);
  }

  // ---- when purged keys can come back ---------------------------------------------------

  /** No writer runs, and nothing is left that could start one. */
  ghost predicate Dormant(w: World) {
    && ShardsStopped(w) && CronStopped(w)
    && (forall j :: j in w.jobs ==> w.jobs[j].deleting || w.jobs[j].finished)
    && NoPod(w, Consumer) && NoPod(w, Rebuild)
  }

  lemma DormantStays(w: World, a: Action)
    requires Dormant(w)
    ensures Dormant(Act(w, a)) && Act(w, a).redis <= w.redis
  {
    ShardsStayStopped(w, a);
  }

  lemma {:induction false} DormantForever(w: World, actions: seq<Action>)
    requires Dormant(w)
    ensures Dormant(Play(w, actions)) && Play(w, actions).redis <= w.redis
    decreases |actions|
  {
    if actions != [] {
      DormantStays(w, actions[0]);
      DormantForever(Act(w, actions[0]), actions[1..]);
    }
  }

  lemma {:induction false} PlayOn(w: World, a: Action, actions: seq<Action>)
    ensures Play(w, [a] + actions) == Play(Act(w, a), actions)
  {
    assert ([a] + actions)[1..] == actions;
  }

  lemma {:induction false} FreshId(ids: set<Id>) returns (bound: Id)
    ensures forall id :: id in ids ==> id < bound
  {
    bound := 0;
    if ids != {} {
      var id :| id in ids;
      var rest := FreshId(ids - {id});
      bound := if id < rest then rest else id + 1;
      forall other | other in ids
        ensures other < bound
      {
        assert other != id ==> other in ids - {id};
      }
    }
  }

  lemma WriterWrites(w: World, p: Id) returns (actions: seq<Action>)
    requires p in w.pods && (w.pods[p].role == Consumer || w.pods[p].role == Rebuild)
    ensures SystemIndex in Play(w, actions).redis
  {
    var a := if w.pods[p].role == Consumer then ConsumerWrites(p, SystemIndex) else RebuildWrites(p, SystemIndex);
    actions := [a] + [];
    PlayOn(w, a, []);
  }

  lemma DeploymentWrites(w: World, d: string) returns (actions: seq<Action>)
    requires d in w.deployments && !w.deployments[d].deleting
    ensures SystemIndex in Play(w, actions).redis
  {
    var p := FreshId(w.pods.Keys);
    var rest := WriterWrites(Act(w, DeploymentStartsPod(d, p)), p);
    PlayOn(w, DeploymentStartsPod(d, p), rest);
    actions := [DeploymentStartsPod(d, p)] + rest;
  }

  lemma JobWrites(w: World, j: Id) returns (actions: seq<Action>)
    requires j in w.jobs && !w.jobs[j].deleting && !w.jobs[j].finished
    ensures SystemIndex in Play(w, actions).redis
  {
    var p := FreshId(w.pods.Keys);
    var rest := WriterWrites(Act(w, JobStartsPod(j, p)), p);
    PlayOn(w, JobStartsPod(j, p), rest);
    actions := [JobStartsPod(j, p)] + rest;
  }

  lemma CronJobWrites(w: World) returns (actions: seq<Action>)
    requires !CronStopped(w)
    ensures SystemIndex in Play(w, actions).redis
  {
    var j := FreshId(w.jobs.Keys);
    var rest := JobWrites(Act(w, CronTick(j)), j);
    PlayOn(w, CronTick(j), rest);
    actions := [CronTick(j)] + rest;
  }

  lemma WritersComeBack(w: World) returns (actions: seq<Action>)
    requires !Dormant(w)
    ensures SystemIndex in Play(w, actions).redis
  {
    if !ShardsStopped(w) {
      var d :| d in w.deployments && !w.deployments[d].deleting;
      actions := DeploymentWrites(w, d);
    } else if !CronStopped(w) {
      actions := CronJobWrites(w);
    } else if j :| j in w.jobs && !w.jobs[j].deleting && !w.jobs[j].finished {
      actions := JobWrites(w, j);
    } else {
      var p :| p in w.pods && (w.pods[p].role == Consumer || w.pods[p].role == Rebuild);
      actions := WriterWrites(w, p);
    }
  }

  /** Purged keys stay gone, whatever happens, exactly when no writer runs and none can be started:
      this is what teardown has to bring about before it purges. */
  lemma KeysStayGoneExactly(w: World)
    requires w.redis == {}
    ensures (forall actions: seq<Action> :: Play(w, actions).redis == {}) <==> Dormant(w)
    ensures Quiet(w) ==> Dormant(w)
  {
    if Dormant(w) {
      forall actions: seq<Action>
        ensures Play(w, actions).redis == {}
      {
        DormantForever(w, actions);
      }
    } else {
      var actions := WritersComeBack(w);
      assert Play(w, actions).redis != {};
    }
  }
}
