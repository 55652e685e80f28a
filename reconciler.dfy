/** One reconciliation pass for one node: read the settings and the node, decide activation,
    make sure the node's AccessPoint exists, compare fingerprints, then delete a stale Job or
    create the Job and commit the new fingerprint. */
module Reconciler {
  import opened Types
  import opened Hashing
  import opened Policy
  import opened JobSpec
  import opened ObjectStore

  /** What a successful pass asks of the work queue. */
  datatype Outcome = Done | RequeueAfter(seconds: nat)

  /** The operator's namespace and the library code the pass relies on. */
  datatype Env = Env(namespace: string, parseSelector: string -> Result<Selector>, codec: Codec)

  /** What the first reads of a pass establish. */
  datatype Facts = Facts(config: StringMap, secret: SecretData, node: Node, activate: bool)

  datatype Gathered = Gathered(facts: Result<Facts>, trace: seq<Op>)

  /** The effect of a pass: its result, the store afterwards and the calls it issued. */
  datatype Pass = Pass(result: Result<Outcome>, world: World, trace: seq<Op>)

  const Reads: seq<Op> := [GetConfigMapOp, GetSecretOp, GetNodeOp]

  function SettingsKey(ns: string): ObjectKey
  {
    ObjectKey(ns, SettingsName)
  }

  function JobKey(ns: string, nodeName: string): ObjectKey
  {
    ObjectKey(ns, JobName(nodeName))
  }

  /** The values fingerprinted, in this order: boot ID, activation, ConfigMap data, Secret data. */
  function HashInputs(f: Facts): seq<Value>
  {
    [Text(f.node.bootID), Flag(f.activate), Strings(f.config), Bytes(f.secret)]
  }

  /** The digested data is the serialised boot ID, then the serialised activation decision,
      ConfigMap data and Secret data, appended in that order. */
  lemma HashInputsOrder(marshal: Value -> seq<byte>, f: Facts)
    ensures Serialise(marshal, HashInputs(f)) ==
      marshal(Text(f.node.bootID)) + marshal(Flag(f.activate)) + marshal(Strings(f.config)) + marshal(Bytes(f.secret))
  {
    var s1 := [Text(f.node.bootID)];
    var s2 := s1 + [Flag(f.activate)];
    var s3 := s2 + [Strings(f.config)];
    var s4 := s3 + [Bytes(f.secret)];
    assert s1[..0] == [];
    assert Serialise(marshal, s1) == marshal(Text(f.node.bootID));
    assert s2[..1] == s1;
    assert Serialise(marshal, s2) == Serialise(marshal, s1) + marshal(Flag(f.activate));
    assert s3[..2] == s2;
    assert Serialise(marshal, s3) == Serialise(marshal, s2) + marshal(Strings(f.config));
    assert s4[..3] == s3;
    assert Serialise(marshal, s4) == Serialise(marshal, s3) + marshal(Bytes(f.secret));
    assert s4 == HashInputs(f);
  }

  /** Two passes fingerprint the same values exactly when they read the same boot ID,
      decided the same activation and read the same ConfigMap and Secret data; the node's
      name and labels matter only through the activation decision. */
  lemma HashInputsInjective(f: Facts, g: Facts)
    ensures HashInputs(f) == HashInputs(g) <==>
      f.node.bootID == g.node.bootID && f.activate == g.activate && f.config == g.config && f.secret == g.secret
  {
    if HashInputs(f) == HashInputs(g) {
      assert HashInputs(f)[0] == HashInputs(g)[0] && HashInputs(f)[1] == HashInputs(g)[1];
      assert HashInputs(f)[2] == HashInputs(g)[2] && HashInputs(f)[3] == HashInputs(g)[3];
    }
  }

  function Then(prefix: seq<Op>, p: Pass): Pass
  {
    p.(trace := prefix + p.trace)
  }

  /** Reading the ConfigMap, the Secret and the node, and deciding activation. The first
      failure ends the reads and is returned as it is. */
  function Gather(w: World, faults: Faults, env: Env, nodeName: string): (g: Gathered)
    ensures 1 <= |g.trace| <= 3 && g.trace == Reads[..|g.trace|]
    ensures g.facts.Ok? <==>
      GetConfigMapOp !in faults && GetSecretOp !in faults && GetNodeOp !in faults &&
      SettingsKey(env.namespace) in w.configMaps && SettingsKey(env.namespace) in w.secrets &&
      nodeName in w.nodes &&
      Activation(w.configMaps[SettingsKey(env.namespace)], w.nodes[nodeName].labels, env.parseSelector).Ok?
    ensures g.facts.Ok? ==> g.trace == Reads && g.facts.value == Facts(
      w.configMaps[SettingsKey(env.namespace)], w.secrets[SettingsKey(env.namespace)], w.nodes[nodeName],
      Activation(w.configMaps[SettingsKey(env.namespace)], w.nodes[nodeName].labels, env.parseSelector).value)
    ensures GetConfigMapOp in faults ==> g == Gathered(Err(faults[GetConfigMapOp]), [GetConfigMapOp])
  {
    var settings := SettingsKey(env.namespace);
    var config := Fetch(faults, GetConfigMapOp, w.configMaps, settings);
    if config.Err? then Gathered(Err(config.error), [GetConfigMapOp])
    else
      var secret := Fetch(faults, GetSecretOp, w.secrets, settings);
      if secret.Err? then Gathered(Err(secret.error), [GetConfigMapOp, GetSecretOp])
      else
        var node := Fetch(faults, GetNodeOp, w.nodes, nodeName);
        if node.Err? then Gathered(Err(node.error), Reads)
        else
          var activate := Activation(config.value, node.value.labels, env.parseSelector);
          if activate.Err? then Gathered(Err(activate.error), Reads)
          else Gathered(Ok(Facts(config.value, secret.value, node.value, activate.value)), Reads)
  }

  /** Creating the node's Job and then writing `hash` to its AccessPoint. */
  function CreateAndCommit(w: World, faults: Faults, ns: string, name: string, activate: bool, hash: string): (p: Pass)
    requires name in w.accessPoints
    ensures p.trace == (if p.world.jobs == w.jobs then [GetJobOp, CreateJobOp] else [GetJobOp, CreateJobOp, UpdateStatusOp])
    // The Job is created only where none of its name exists, and with the decided script.
    ensures p.world.jobs == w.jobs ||
      (JobKey(ns, name) !in w.jobs && p.world.jobs == w.jobs[JobKey(ns, name) := BuildJob(ns, name, activate)])
    // The hash is written only once the Job was created; a failed create leaves it unchanged.
    ensures p.world.accessPoints == w.accessPoints ||
      (p.world.jobs != w.jobs && p.world.accessPoints == w.accessPoints[name := hash])
    ensures p.result.Ok? <==> JobKey(ns, name) !in w.jobs && CreateJobOp !in faults && UpdateStatusOp !in faults
    ensures p.result.Ok? ==> p.result == Ok(Done) && p.world.accessPoints == w.accessPoints[name := hash]
    ensures ReadOnlyKept(w, p.world)
    ensures JobKey(ns, name) !in w.jobs && CreateJobOp !in faults ==> p.world.jobs != w.jobs
    // A failed call's own error is returned unchanged.
    ensures p.result.Err? ==>
      p.result.error == (if CreateJobOp in faults then faults[CreateJobOp]
                         else if JobKey(ns, name) in w.jobs then AlreadyExists
                         else faults[UpdateStatusOp])
  {
    var created := CreateJobIn(w, faults, BuildJob(ns, name, activate));
    if created.err.Some? then Pass(Err(created.err.value), w, [GetJobOp, CreateJobOp])
    else
      var updated := UpdateStatusIn(created.world, faults, name, hash);
      if updated.err.Some? then Pass(Err(updated.err.value), created.world, [GetJobOp, CreateJobOp, UpdateStatusOp])
      else Pass(Ok(Done), updated.world, [GetJobOp, CreateJobOp, UpdateStatusOp])
  }

  /** The ConfigMaps, Secrets and Nodes of `b` are those of `a`. */
  predicate ReadOnlyKept(a: World, b: World)
  {
    b.configMaps == a.configMaps && b.secrets == a.secrets && b.nodes == a.nodes
  }

  /** A Job was found under the node's Job name: delete it and ask to be requeued, so
      that the next pass creates it afresh. */
  function DeleteStale(w: World, faults: Faults, key: ObjectKey): (p: Pass)
    requires key in w.jobs
    ensures p.trace == [GetJobOp, DeleteJobOp]
    ensures p.world == w.(jobs := p.world.jobs)
    ensures p.result == (if DeleteJobOp in faults then Err(faults[DeleteJobOp]) else Ok(RequeueAfter(1)))
    ensures p.world.jobs == (if DeleteJobOp in faults then w.jobs else w.jobs - {key})
  {
    var deleted := DeleteJobIn(w, faults, key);
    if deleted.err.Some? then Pass(Err(deleted.err.value), w, [GetJobOp, DeleteJobOp])
    else Pass(Ok(RequeueAfter(1)), deleted.world, [GetJobOp, DeleteJobOp])
  }

  /** The Job step for an AccessPoint `name` whose hash is not `hash`: delete a Job found
      under the node's Job name and ask to be requeued, or create the Job and only then
      write `hash` to the AccessPoint. */
  function Refresh(w: World, faults: Faults, ns: string, name: string, activate: bool, hash: string): (p: Pass)
    requires name in w.accessPoints && w.accessPoints[name] != hash
    // Only this node's AccessPoint hash and Job can change.
    ensures ReadOnlyKept(w, p.world)
    ensures p.world.jobs - {JobKey(ns, name)} == w.jobs - {JobKey(ns, name)}
    // A Job found by the lookup is deleted, the hash is kept and the pass asks to be requeued.
    ensures JobKey(ns, name) in w.jobs && GetJobOp !in faults ==>
      p == DeleteStale(w, faults, JobKey(ns, name))
    // Any lookup failure, not only NotFound, goes on to create the Job.
    ensures JobKey(ns, name) !in w.jobs || GetJobOp in faults ==>
      p == CreateAndCommit(w, faults, ns, name, activate, hash)
  {
    var key := JobKey(ns, name);
    var found := Fetch(faults, GetJobOp, w.jobs, key);
    if found.Ok? then DeleteStale(w, faults, key)
    else CreateAndCommit(w, faults, ns, name, activate, hash)
  }

  /** The Job step, once the AccessPoint `name` exists: nothing if its hash is `hash`,
      otherwise Refresh. */
  function SyncJob(w: World, faults: Faults, ns: string, name: string, activate: bool, hash: string): (p: Pass)
    requires name in w.accessPoints
    // Up to date: no Job lookup and no write.
    ensures w.accessPoints[name] == hash ==> p == Pass(Ok(Done), w, [])
    // Only this node's AccessPoint hash and Job can change.
    ensures ReadOnlyKept(w, p.world)
    ensures p.world.accessPoints == w.accessPoints || p.world.accessPoints == w.accessPoints[name := hash]
    ensures p.world.jobs - {JobKey(ns, name)} == w.jobs - {JobKey(ns, name)}
    // The hash changes only after the Job was created.
    ensures p.world.accessPoints != w.accessPoints ==>
      p.result == Ok(Done) && JobKey(ns, name) !in w.jobs &&
      p.world.jobs == w.jobs[JobKey(ns, name) := BuildJob(ns, name, activate)] &&
      p.trace == [GetJobOp, CreateJobOp, UpdateStatusOp]
    // A failed pass leaves every hash as it was.
    ensures p.result.Err? ==> p.world.accessPoints == w.accessPoints
    ensures p.result == Ok(Done) ==> p.world.accessPoints[name] == hash
    // A stale Job found by the lookup is deleted, the hash is kept and the pass asks to be requeued.
    ensures w.accessPoints[name] != hash && JobKey(ns, name) in w.jobs && GetJobOp !in faults ==>
      p.trace == [GetJobOp, DeleteJobOp] && p.world.accessPoints == w.accessPoints &&
      p.result == (if DeleteJobOp in faults then Err(faults[DeleteJobOp]) else Ok(RequeueAfter(1))) &&
      p.world.jobs == (if DeleteJobOp in faults then w.jobs else w.jobs - {JobKey(ns, name)})
    // Any lookup failure, not only NotFound, goes on to create the Job.
    ensures w.accessPoints[name] != hash && (JobKey(ns, name) !in w.jobs || GetJobOp in faults) ==>
      |p.trace| >= 2 && p.trace[..2] == [GetJobOp, CreateJobOp]
    // An existing Job is deleted or left alone, never replaced.
    ensures JobKey(ns, name) in w.jobs ==> p.world.jobs == w.jobs || p.world.jobs == w.jobs - {JobKey(ns, name)}
    ensures p.result == Ok(RequeueAfter(1)) ==>
      w.accessPoints[name] != hash && JobKey(ns, name) in w.jobs && p.world == w.(jobs := w.jobs - {JobKey(ns, name)})
  {
    if w.accessPoints[name] == hash then Pass(Ok(Done), w, [])
    else Refresh(w, faults, ns, name, activate, hash)
  }

  /** The AccessPoint step: its stored hash, the store afterwards and the calls issued. */
  datatype AccessPointStep = AccessPointStep(stored: Result<string>, world: World, trace: seq<Op>)

  /** Look the AccessPoint `name` up; on NotFound create it with the empty hash. Any other
      lookup error, or a failed create, is returned as it is. */
  function EnsureAccessPoint(w: World, faults: Faults, name: string): (a: AccessPointStep)
    // An existing AccessPoint is read, never recreated.
    ensures name in w.accessPoints && GetAccessPointOp !in faults ==>
      a == AccessPointStep(Ok(w.accessPoints[name]), w, [GetAccessPointOp])
    // A lookup error other than NotFound aborts without writing.
    ensures GetAccessPointOp in faults && faults[GetAccessPointOp] != NotFound ==>
      a == AccessPointStep(Err(faults[GetAccessPointOp]), w, [GetAccessPointOp])
    // A missing AccessPoint is created under the node's name with the empty hash.
    ensures name !in w.accessPoints && GetAccessPointOp !in faults ==>
      a.trace == [GetAccessPointOp, CreateAccessPointOp] &&
      (CreateAccessPointOp !in faults <==> a.stored.Ok?)
    // A failed create returns the create's own error.
    ensures GetAccessPointOp !in faults && name !in w.accessPoints && CreateAccessPointOp in faults ==>
      a.stored == Err(faults[CreateAccessPointOp])
    // A NotFound that is wrong about an existing AccessPoint still leads to the create, which
    // then fails with AlreadyExists.
    ensures GetAccessPointOp in faults && faults[GetAccessPointOp] == NotFound ==>
      a.trace == [GetAccessPointOp, CreateAccessPointOp] &&
      a.stored == (if CreateAccessPointOp in faults then Err(faults[CreateAccessPointOp])
                   else if name in w.accessPoints then Err(AlreadyExists)
                   else Ok(EmptyHash))
    ensures a.stored.Ok? ==> name in a.world.accessPoints && a.stored.value == a.world.accessPoints[name]
    ensures a.world == w || (name !in w.accessPoints && a.stored == Ok(EmptyHash) &&
      a.world == w.(accessPoints := w.accessPoints[name := EmptyHash]))
  {
    var got := Fetch(faults, GetAccessPointOp, w.accessPoints, name);
    if got.Ok? then AccessPointStep(got, w, [GetAccessPointOp])
    else if got.error != NotFound then AccessPointStep(got, w, [GetAccessPointOp])
    else
      var created := CreateAccessPointIn(w, faults, name);
      if created.err.Some? then AccessPointStep(Err(created.err.value), w, [GetAccessPointOp, CreateAccessPointOp])
      else AccessPointStep(Ok(EmptyHash), created.world, [GetAccessPointOp, CreateAccessPointOp])
  }

  /** Everything after the reads: make sure the AccessPoint exists, fingerprint the facts
      and go on to the Job step. */
  function Actuate(w: World, faults: Faults, env: Env, f: Facts): (p: Pass)
    // A lookup error other than NotFound aborts without writing.
    ensures GetAccessPointOp in faults && faults[GetAccessPointOp] != NotFound ==>
      p == Pass(Err(faults[GetAccessPointOp]), w, [GetAccessPointOp])
    // An existing AccessPoint is never recreated, and its hash is never reset.
    ensures f.node.name in w.accessPoints && GetAccessPointOp !in faults ==> CreateAccessPointOp !in p.trace
    ensures f.node.name in w.accessPoints ==>
      f.node.name in p.world.accessPoints &&
      (p.world.accessPoints[f.node.name] == w.accessPoints[f.node.name] ||
       p.world.accessPoints[f.node.name] == Fingerprint(env.codec, HashInputs(f)))
    // A missing AccessPoint is created under the node's name.
    ensures f.node.name !in w.accessPoints && GetAccessPointOp !in faults ==>
      |p.trace| >= 2 && p.trace[..2] == [GetAccessPointOp, CreateAccessPointOp] &&
      (CreateAccessPointOp !in faults <==> f.node.name in p.world.accessPoints)
    // Nothing but this node's AccessPoint and Job changes.
    ensures w.accessPoints.Keys <= p.world.accessPoints.Keys <= w.accessPoints.Keys + {f.node.name}
    ensures forall n :: n in w.accessPoints && n != f.node.name ==> p.world.accessPoints[n] == w.accessPoints[n]
    ensures ReadOnlyKept(w, p.world)
    ensures p.world.jobs - {JobKey(env.namespace, f.node.name)} == w.jobs - {JobKey(env.namespace, f.node.name)}
    ensures p.result.Err? ==> forall n :: n in w.accessPoints ==> p.world.accessPoints[n] == w.accessPoints[n]
    // Success leaves the fingerprint committed; a requeue follows the deletion of a stale Job.
    ensures p.result == Ok(Done) ==>
      f.node.name in p.world.accessPoints && p.world.accessPoints[f.node.name] == Fingerprint(env.codec, HashInputs(f))
    ensures p.result == Ok(RequeueAfter(1)) ==>
      JobKey(env.namespace, f.node.name) in w.jobs && p.world.jobs == w.jobs - {JobKey(env.namespace, f.node.name)} &&
      (if f.node.name in w.accessPoints
       then p.world.accessPoints == w.accessPoints &&
            w.accessPoints[f.node.name] != Fingerprint(env.codec, HashInputs(f))
       else p.world.accessPoints == w.accessPoints[f.node.name := EmptyHash])
  {
    var a := EnsureAccessPoint(w, faults, f.node.name);
    if a.stored.Err? then Pass(Err(a.stored.error), a.world, a.trace)
    else Then(a.trace, SyncJob(a.world, faults, env.namespace, f.node.name, f.activate, Fingerprint(env.codec, HashInputs(f))))
  }

  /** One reconciliation pass for the node `nodeName`, against the store `w`. */
  function ReconcileSpec(w: World, faults: Faults, env: Env, nodeName: string): (p: Pass)
    requires NodesNamed(w)
    // The ConfigMap, the Secret and the nodes are never written.
    ensures p.world.configMaps == w.configMaps && p.world.secrets == w.secrets && p.world.nodes == w.nodes
    // A failed read or an unusable selector returns that error before any write.
    ensures var g := Gather(w, faults, env, nodeName);
      g.facts.Err? ==> p == Pass(Err(g.facts.error), w, g.trace) && NoWrites(p.trace)
    // Only this node's AccessPoint and Job can change.
    ensures w.accessPoints.Keys <= p.world.accessPoints.Keys <= w.accessPoints.Keys + {nodeName}
    ensures forall n :: n in w.accessPoints && n != nodeName ==> p.world.accessPoints[n] == w.accessPoints[n]
    ensures p.world.jobs - {JobKey(env.namespace, nodeName)} == w.jobs - {JobKey(env.namespace, nodeName)}
    // A failed pass leaves every existing hash as it was.
    ensures p.result.Err? ==> forall n :: n in w.accessPoints ==> p.world.accessPoints[n] == w.accessPoints[n]
  {
    var g := Gather(w, faults, env, nodeName);
    if g.facts.Err? then Pass(Err(g.facts.error), w, g.trace)
    else Then(g.trace, Actuate(w, faults, env, g.facts.value))
  }

  /** A failed read of the ConfigMap, the Secret or the node ends the pass with that error,
      before any further call and with the store untouched. */
  lemma ReadFailureAbortsBeforeWrites(w: World, faults: Faults, env: Env, nodeName: string)
    requires NodesNamed(w)
    ensures var p := ReconcileSpec(w, faults, env, nodeName);
      var config := Fetch(faults, GetConfigMapOp, w.configMaps, SettingsKey(env.namespace));
      var secret := Fetch(faults, GetSecretOp, w.secrets, SettingsKey(env.namespace));
      var node := Fetch(faults, GetNodeOp, w.nodes, nodeName);
      (config.Err? ==> p == Pass(Err(config.error), w, [GetConfigMapOp])) &&
      (config.Ok? && secret.Err? ==> p == Pass(Err(secret.error), w, [GetConfigMapOp, GetSecretOp])) &&
      (config.Ok? && secret.Ok? && node.Err? ==> p == Pass(Err(node.error), w, Reads))
  {
  }

  /** A selector that cannot be parsed ends the pass with the parse error after the three
      reads, before the AccessPoint lookup and with the store untouched. */
  lemma BadSelectorAbortsBeforeWrites(w: World, faults: Faults, env: Env, nodeName: string)
    requires NodesNamed(w)
    requires GetConfigMapOp !in faults && GetSecretOp !in faults && GetNodeOp !in faults
    requires SettingsKey(env.namespace) in w.configMaps && SettingsKey(env.namespace) in w.secrets
    requires nodeName in w.nodes
    requires NodeSelectorKey in w.configMaps[SettingsKey(env.namespace)]
    requires env.parseSelector(w.configMaps[SettingsKey(env.namespace)][NodeSelectorKey]).Err?
    ensures ReconcileSpec(w, faults, env, nodeName) ==
      Pass(Err(env.parseSelector(w.configMaps[SettingsKey(env.namespace)][NodeSelectorKey]).error), w, Reads)
  {
  }

  /** An up-to-date AccessPoint ends the pass: no Job lookup and no write. */
  lemma UpToDatePassWritesNothing(w: World, faults: Faults, env: Env, nodeName: string)
    requires NodesNamed(w)
    requires Gather(w, faults, env, nodeName).facts.Ok?
    requires GetAccessPointOp !in faults && nodeName in w.accessPoints
    requires w.accessPoints[nodeName] == Fingerprint(env.codec, HashInputs(Gather(w, faults, env, nodeName).facts.value))
    ensures ReconcileSpec(w, faults, env, nodeName) == Pass(Ok(Done), w, Reads + [GetAccessPointOp])
  {
  }

  /** A pass that returns Done leaves the AccessPoint holding the fingerprint of what it read. */
  lemma SuccessCommitsFingerprint(w: World, faults: Faults, env: Env, nodeName: string)
    requires NodesNamed(w)
    requires ReconcileSpec(w, faults, env, nodeName).result == Ok(Done)
    ensures var g := Gather(w, faults, env, nodeName);
      var w' := ReconcileSpec(w, faults, env, nodeName).world;
      g.facts.Ok? && nodeName in w'.accessPoints &&
      w'.accessPoints[nodeName] == Fingerprint(env.codec, HashInputs(g.facts.value))
  {
  }

  /** A pass asks to be requeued only after deleting the node's stale Job; it creates no Job
      and keeps the stored hash (an AccessPoint created by this pass holds the empty hash). */
  lemma RequeueOnlyAfterStaleJobDeleted(w: World, faults: Faults, env: Env, nodeName: string)
    requires NodesNamed(w)
    requires ReconcileSpec(w, faults, env, nodeName).result == Ok(RequeueAfter(1))
    ensures var g := Gather(w, faults, env, nodeName);
      var w' := ReconcileSpec(w, faults, env, nodeName).world;
      g.facts.Ok? && JobKey(env.namespace, nodeName) in w.jobs &&
      w'.jobs == w.jobs - {JobKey(env.namespace, nodeName)} &&
      if nodeName in w.accessPoints
      then w'.accessPoints == w.accessPoints &&
           w.accessPoints[nodeName] != Fingerprint(env.codec, HashInputs(g.facts.value))
      else w'.accessPoints == w.accessPoints[nodeName := EmptyHash]
  {
  }

  /** A new hash is committed only after this pass created the node's Job, with the script
      the activation decision selects, and the status update is the pass's last call. */
  lemma HashCommittedOnlyAfterJobCreated(w: World, faults: Faults, env: Env, nodeName: string)
    requires NodesNamed(w)
    requires var w' := ReconcileSpec(w, faults, env, nodeName).world;
      nodeName in w'.accessPoints && w'.accessPoints[nodeName] != EmptyHash &&
      (nodeName !in w.accessPoints || w'.accessPoints[nodeName] != w.accessPoints[nodeName])
    ensures var g := Gather(w, faults, env, nodeName);
      var p := ReconcileSpec(w, faults, env, nodeName);
      g.facts.Ok? && p.result == Ok(Done) && JobKey(env.namespace, nodeName) !in w.jobs &&
      p.world.jobs == w.jobs[JobKey(env.namespace, nodeName) := BuildJob(env.namespace, nodeName, g.facts.value.activate)] &&
      |p.trace| >= 2 && p.trace[|p.trace| - 2..] == [CreateJobOp, UpdateStatusOp]
  {
  }

  /** Reconcile: the pass as it runs against the store, one call at a time. */
  method Reconcile(store: Store, env: Env, nodeName: string) returns (r: Result<Outcome>)
    requires NodesNamed(store.View())
    modifies store
    ensures var p := ReconcileSpec(old(store.View()), store.faults, env, nodeName);
      r == p.result && store.View() == p.world && store.trace == old(store.trace) + p.trace
  {
    ghost var w0, t0 := store.View(), store.trace;
    ghost var g := Gather(w0, store.faults, env, nodeName);
    var facts := GatherOnStore(store, env, nodeName);
    if facts.Err? {
      return Err(facts.error);
    }
    ghost var p := Actuate(w0, store.faults, env, facts.value);
    r := ActuateOnStore(store, env, facts.value);
    AppendAssoc(t0, g.trace, p.trace);
  }

  /** The reads of Reconcile: the settings ConfigMap, the settings Secret and the node,
      then the activation decision. */
  method GatherOnStore(store: Store, env: Env, nodeName: string) returns (facts: Result<Facts>)
    modifies store`trace
    ensures var g := Gather(old(store.View()), store.faults, env, nodeName);
      facts == g.facts && store.trace == old(store.trace) + g.trace
  {
    var settings := SettingsKey(env.namespace);
    var config := store.GetConfigMap(settings);
    if config.Err? {
      return Err(config.error);
    }
    var secret := store.GetSecret(settings);
    if secret.Err? {
      return Err(secret.error);
    }
    var node := store.GetNode(nodeName);
    if node.Err? {
      return Err(node.error);
    }
    var activate := Activation(config.value, node.value.labels, env.parseSelector);
    if activate.Err? {
      return Err(activate.error);
    }
    return Ok(Facts(config.value, secret.value, node.value, activate.value));
  }

  /** Reconcile after the reads: the AccessPoint step, the fingerprint and the Job step. */
  method ActuateOnStore(store: Store, env: Env, f: Facts) returns (r: Result<Outcome>)
    modifies store
    ensures var p := Actuate(old(store.View()), store.faults, env, f);
      r == p.result && store.View() == p.world && store.trace == old(store.trace) + p.trace
  {
    ghost var w0, t0 := store.View(), store.trace;
    var stored := EnsureAccessPointOnStore(store, f.node.name);
    if stored.Err? {
      return Err(stored.error);
    }
    var hash := HashValues(env.codec, HashInputs(f));
    ghost var a := EnsureAccessPoint(w0, store.faults, f.node.name);
    assert Actuate(w0, store.faults, env, f) == Then(a.trace, SyncJob(a.world, store.faults, env.namespace, f.node.name, f.activate, hash));
    if stored.value == hash {
      return Ok(Done);
    }
    r := SyncJobOnStore(store, env.namespace, f.node.name, f.activate, hash);
    AppendAssoc(t0, a.trace, SyncJob(a.world, store.faults, env.namespace, f.node.name, f.activate, hash).trace);
  }

  lemma AppendAssoc<T>(a: seq<T>, b: seq<T>, c: seq<T>)
    ensures a + b + c == a + (b + c)
  {
  }

  /** The AccessPoint step of Reconcile. */
  method EnsureAccessPointOnStore(store: Store, name: string) returns (stored: Result<string>)
    modifies store
    ensures var a := EnsureAccessPoint(old(store.View()), store.faults, name);
      stored == a.stored && store.View() == a.world && store.trace == old(store.trace) + a.trace
  {
    var ap := store.GetAccessPoint(name);
    if ap.Ok? {
      return ap;
    } else if ap.error != NotFound {
      return ap;
    }
    var err := store.CreateAccessPoint(name);
    if err.Some? {
      return Err(err.value);
    }
    return Ok(EmptyHash);
  }

  /** The Job step of Reconcile, from the Job lookup on. */
  method SyncJobOnStore(store: Store, ns: string, name: string, activate: bool, hash: string) returns (r: Result<Outcome>)
    requires name in store.accessPoints && store.accessPoints[name] != hash
    modifies store
    ensures var p := SyncJob(old(store.View()), store.faults, ns, name, activate, hash);
      r == p.result && store.View() == p.world && store.trace == old(store.trace) + p.trace
  {
    var key := JobKey(ns, name);
    var job := store.GetJob(key);
    if job.Ok? {
      var err := store.DeleteJob(key);
      if err.Some? {
        return Err(err.value);
      }
      return Ok(RequeueAfter(1));
    }

    var err := store.CreateJob(BuildJob(ns, name, activate));
    if err.Some? {
      return Err(err.value);
    }
    err := store.UpdateStatus(name, hash);
    if err.Some? {
      return Err(err.value);
    }
    return Ok(Done);
  }

  /** Idempotence: after a successful pass, a second pass with the same inputs changes
      nothing, writes nothing (unless a NotFound is injected into its AccessPoint lookup,
      which makes it try, and fail, to create the AccessPoint again), and succeeds when no
      call of it fails. */
  lemma {:induction false} SecondPassIsQuiet(w: World, faults1: Faults, faults2: Faults, env: Env, nodeName: string)
    requires NodesNamed(w)
    requires ReconcileSpec(w, faults1, env, nodeName).result == Ok(Done)
    ensures NodesNamed(ReconcileSpec(w, faults1, env, nodeName).world)
    ensures var w1 := ReconcileSpec(w, faults1, env, nodeName).world;
      var p2 := ReconcileSpec(w1, faults2, env, nodeName);
      p2.world == w1 && p2.result != Ok(RequeueAfter(1)) &&
      (GetAccessPointOp !in faults2 || faults2[GetAccessPointOp] != NotFound ==> NoWrites(p2.trace)) &&
      (faults2 == map[] ==> p2 == Pass(Ok(Done), w1, Reads + [GetAccessPointOp]))
  {
    var w1 := ReconcileSpec(w, faults1, env, nodeName).world;
    SuccessCommitsFingerprint(w, faults1, env, nodeName);
    var f := Gather(w, faults1, env, nodeName).facts.value;
    assert ReadOnlyKept(w, w1);
    assert NodesNamed(w1) by { assert w1.nodes == w.nodes; }
    GatherAgain(w, w1, faults1, env, nodeName);
    QuietPass(w1, faults2, env, nodeName, f);
  }

  /** A pass over an AccessPoint that already holds the fingerprint of the facts it reads. */
  lemma QuietPass(w: World, faults: Faults, env: Env, nodeName: string, f: Facts)
    requires NodesNamed(w)
    requires f.node.name == nodeName && nodeName in w.accessPoints
    requires w.accessPoints[nodeName] == Fingerprint(env.codec, HashInputs(f))
    requires Gather(w, map[], env, nodeName).facts == Ok(f)
    ensures var p := ReconcileSpec(w, faults, env, nodeName);
      p.world == w && p.result != Ok(RequeueAfter(1)) &&
      (GetAccessPointOp !in faults || faults[GetAccessPointOp] != NotFound ==> NoWrites(p.trace)) &&
      (faults == map[] ==> p == Pass(Ok(Done), w, Reads + [GetAccessPointOp]))
  {
    if Gather(w, faults, env, nodeName).facts.Ok? {
      var p := Actuate(w, faults, env, f);
      ActuateWhenUpToDate(w, faults, env, f);
      PassAfterGather(w, faults, env, nodeName);
      if GetAccessPointOp !in faults || faults[GetAccessPointOp] != NotFound {
        NoWritesAppend(Reads, p.trace);
      }
    } else {
      PassAfterFailedGather(w, faults, env, nodeName);
    }
  }

  /** A pass whose reads fail ends with the store untouched and nothing written. */
  lemma PassAfterFailedGather(w: World, faults: Faults, env: Env, nodeName: string)
    requires NodesNamed(w)
    requires Gather(w, faults, env, nodeName).facts.Err?
    ensures var g := Gather(w, faults, env, nodeName);
      ReconcileSpec(w, faults, env, nodeName) == Pass(Err(g.facts.error), w, g.trace) &&
      NoWrites(g.trace)
  {
  }

  /** A pass whose reads succeed is the three reads followed by Actuate. */
  lemma PassAfterGather(w: World, faults: Faults, env: Env, nodeName: string)
    requires NodesNamed(w)
    requires Gather(w, faults, env, nodeName).facts.Ok?
    ensures ReconcileSpec(w, faults, env, nodeName) ==
      Then(Reads, Actuate(w, faults, env, Gather(w, faults, env, nodeName).facts.value))
  {
  }

  /** Once the reads have succeeded, reading the same settings and node again with no
      failing call gives the same facts, and the node read is the node asked for. */
  lemma GatherAgain(w: World, w1: World, faults1: Faults, env: Env, nodeName: string)
    requires NodesNamed(w) && ReadOnlyKept(w, w1)
    requires Gather(w, faults1, env, nodeName).facts.Ok?
    ensures Gather(w1, map[], env, nodeName).facts == Gather(w, faults1, env, nodeName).facts
    ensures Gather(w, faults1, env, nodeName).facts.value.node.name == nodeName
  {
  }

  /** Actuate on an AccessPoint that already holds the fingerprint of the facts. */
  lemma ActuateWhenUpToDate(w: World, faults: Faults, env: Env, f: Facts)
    requires f.node.name in w.accessPoints && w.accessPoints[f.node.name] == Fingerprint(env.codec, HashInputs(f))
    ensures var p := Actuate(w, faults, env, f);
      p.world == w && p.result != Ok(RequeueAfter(1)) &&
      (GetAccessPointOp !in faults || faults[GetAccessPointOp] != NotFound ==> NoWrites(p.trace)) &&
      (faults == map[] ==> p == Pass(Ok(Done), w, [GetAccessPointOp]))
  {
    if GetAccessPointOp in faults && faults[GetAccessPointOp] == NotFound {
      assert Actuate(w, faults, env, f).world == w;
    }
  }

  /** Stale-Job replacement: a pass that deleted a stale Job is followed, when no call
      fails, by a pass that creates the Job with the decided script and commits the
      fingerprint. */
  lemma {:induction false} StaleJobReplacedNextPass(w: World, faults1: Faults, env: Env, nodeName: string)
    requires NodesNamed(w)
    requires ReconcileSpec(w, faults1, env, nodeName).result == Ok(RequeueAfter(1))
    ensures NodesNamed(ReconcileSpec(w, faults1, env, nodeName).world)
    ensures var w1 := ReconcileSpec(w, faults1, env, nodeName).world;
      var f := Gather(w, faults1, env, nodeName).facts;
      var p2 := ReconcileSpec(w1, map[], env, nodeName);
      f.Ok? && p2.result == Ok(Done) &&
      p2.world.jobs == w1.jobs[JobKey(env.namespace, nodeName) := BuildJob(env.namespace, nodeName, f.value.activate)] &&
      p2.world.accessPoints == w1.accessPoints[nodeName := Fingerprint(env.codec, HashInputs(f.value))]
  {
    var w1 := ReconcileSpec(w, faults1, env, nodeName).world;
    var g1 := Gather(w, faults1, env, nodeName);
    var g2 := Gather(w1, map[], env, nodeName);
    assert g2.facts == g1.facts;
    var f := g2.facts.value;
    assert f.node.name == nodeName;
    assert nodeName in w1.accessPoints && w1.accessPoints[nodeName] != Fingerprint(env.codec, HashInputs(f));
  }

  /** Convergence: when the settings and the node can be read and the selector parses, at
      most two passes in which no call fails bring the node to a committed fingerprint with
      its Job in place, whatever Jobs and hashes the store held before. */
  lemma {:induction false} ConvergesWithinTwoPasses(w: World, env: Env, nodeName: string)
    requires NodesNamed(w)
    requires Gather(w, map[], env, nodeName).facts.Ok?
    ensures var p1 := ReconcileSpec(w, map[], env, nodeName);
      NodesNamed(p1.world) &&
      var final := if p1.result == Ok(Done) then p1 else ReconcileSpec(p1.world, map[], env, nodeName);
      final.result == Ok(Done) && nodeName in final.world.accessPoints &&
      final.world.accessPoints[nodeName] == Fingerprint(env.codec, HashInputs(Gather(w, map[], env, nodeName).facts.value))
  {
    var p1 := ReconcileSpec(w, map[], env, nodeName);
    var f := Gather(w, map[], env, nodeName).facts.value;
    assert f.node.name == nodeName;
    if p1.result != Ok(Done) {
      assert p1.result == Ok(RequeueAfter(1));
      StaleJobReplacedNextPass(w, map[], env, nodeName);
    }
  }
}
