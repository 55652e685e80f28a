/** An in-memory object store standing in for the cluster API, with injectable failures. */
module ObjectStore {
  import opened Types
  import opened JobSpec

  /** Everything the store holds. AccessPoints are cluster-scoped and keyed by node name;
      the value is their status hash. */
  datatype World = World(
    configMaps: map<ObjectKey, StringMap>,
    secrets: map<ObjectKey, SecretData>,
    nodes: map<string, Node>,
    accessPoints: map<string, string>,
    jobs: map<ObjectKey, Job>)

  /** The store calls a reconciliation pass can issue. */
  datatype Op =
    | GetConfigMapOp | GetSecretOp | GetNodeOp
    | GetAccessPointOp | CreateAccessPointOp
    | GetJobOp | DeleteJobOp | CreateJobOp
    | UpdateStatusOp

  predicate IsWrite(op: Op)
  {
    op.CreateAccessPointOp? || op.DeleteJobOp? || op.CreateJobOp? || op.UpdateStatusOp?
  }

  predicate NoWrites(trace: seq<Op>)
  {
    forall i :: 0 <= i < |trace| ==> !IsWrite(trace[i])
  }

  lemma NoWritesAppend(a: seq<Op>, b: seq<Op>)
    requires NoWrites(a) && NoWrites(b)
    ensures NoWrites(a + b)
  {
    forall i | 0 <= i < |a + b|
      ensures !IsWrite((a + b)[i])
    {
      if i >= |a| {
        assert (a + b)[i] == b[i - |a|];
      }
    }
  }

  /** Injected failures: a call whose kind is a key fails with the mapped error and changes nothing. */
  type Faults = map<Op, Error>

  /** Objects are stored under their own name. */
  predicate NodesNamed(w: World)
  {
    forall n :: n in w.nodes ==> w.nodes[n].name == n
  }

  /** What a write returns, and the store afterwards. */
  datatype Effect = Effect(err: Option<Error>, world: World)

  function Fetch<K, V>(faults: Faults, op: Op, m: map<K, V>, k: K): Result<V>
  {
    if op in faults then Err(faults[op])
    else if k in m then Ok(m[k])
    else Err(NotFound)
  }

  function CreateAccessPointIn(w: World, faults: Faults, name: string): Effect
  {
    if CreateAccessPointOp in faults then Effect(Some(faults[CreateAccessPointOp]), w)
    else if name in w.accessPoints then Effect(Some(AlreadyExists), w)
    else Effect(None, w.(accessPoints := w.accessPoints[name := EmptyHash]))
  }

  function DeleteJobIn(w: World, faults: Faults, key: ObjectKey): Effect
  {
    if DeleteJobOp in faults then Effect(Some(faults[DeleteJobOp]), w)
    else if key !in w.jobs then Effect(Some(NotFound), w)
    else Effect(None, w.(jobs := w.jobs - {key}))
  }

  function CreateJobIn(w: World, faults: Faults, job: Job): Effect
  {
    if CreateJobOp in faults then Effect(Some(faults[CreateJobOp]), w)
    else if KeyOf(job) in w.jobs then Effect(Some(AlreadyExists), w)
    else Effect(None, w.(jobs := w.jobs[KeyOf(job) := job]))
  }

  function UpdateStatusIn(w: World, faults: Faults, name: string, hash: string): Effect
  {
    if UpdateStatusOp in faults then Effect(Some(faults[UpdateStatusOp]), w)
    else if name !in w.accessPoints then Effect(Some(NotFound), w)
    else Effect(None, w.(accessPoints := w.accessPoints[name := hash]))
  }

  /** The store. Its ghost trace records every call issued to it, in order. */
  class Store {
    var configMaps: map<ObjectKey, StringMap>
    var secrets: map<ObjectKey, SecretData>
    var nodes: map<string, Node>
    var accessPoints: map<string, string>
    var jobs: map<ObjectKey, Job>
    const faults: Faults
    ghost var trace: seq<Op>

    function View(): World
      reads this
    {
      World(configMaps, secrets, nodes, accessPoints, jobs)
    }

    constructor (initial: World, faults: Faults)
      ensures View() == initial && this.faults == faults && trace == []
    {
      configMaps, secrets, nodes := initial.configMaps, initial.secrets, initial.nodes;
      accessPoints, jobs := initial.accessPoints, initial.jobs;
      this.faults := faults;
      trace := [];
    }

    method GetConfigMap(key: ObjectKey) returns (r: Result<StringMap>)
      modifies this`trace
      ensures r == Fetch(faults, GetConfigMapOp, configMaps, key)
      ensures trace == old(trace) + [GetConfigMapOp]
    {
      r := Fetch(faults, GetConfigMapOp, configMaps, key);
      trace := trace + [GetConfigMapOp];
    }

    method GetSecret(key: ObjectKey) returns (r: Result<SecretData>)
      modifies this`trace
      ensures r == Fetch(faults, GetSecretOp, secrets, key)
      ensures trace == old(trace) + [GetSecretOp]
    {
      r := Fetch(faults, GetSecretOp, secrets, key);
      trace := trace + [GetSecretOp];
    }

    method GetNode(name: string) returns (r: Result<Node>)
      modifies this`trace
      ensures r == Fetch(faults, GetNodeOp, nodes, name)
      ensures trace == old(trace) + [GetNodeOp]
    {
      r := Fetch(faults, GetNodeOp, nodes, name);
      trace := trace + [GetNodeOp];
    }

    /** Returns the AccessPoint's status hash. */
    method GetAccessPoint(name: string) returns (r: Result<string>)
      modifies this`trace
      ensures r == Fetch(faults, GetAccessPointOp, accessPoints, name)
      ensures trace == old(trace) + [GetAccessPointOp]
    {
      r := Fetch(faults, GetAccessPointOp, accessPoints, name);
      trace := trace + [GetAccessPointOp];
    }

    /** Creates an AccessPoint with an empty hash; fails if one of that name exists. */
    method CreateAccessPoint(name: string) returns (err: Option<Error>)
      modifies this`accessPoints, this`trace
      ensures Effect(err, View()) == CreateAccessPointIn(old(View()), faults, name)
      ensures trace == old(trace) + [CreateAccessPointOp]
    {
      var e := CreateAccessPointIn(View(), faults, name);
      err, accessPoints := e.err, e.world.accessPoints;
      trace := trace + [CreateAccessPointOp];
    }

    method GetJob(key: ObjectKey) returns (r: Result<Job>)
      modifies this`trace
      ensures r == Fetch(faults, GetJobOp, jobs, key)
      ensures trace == old(trace) + [GetJobOp]
    {
      r := Fetch(faults, GetJobOp, jobs, key);
      trace := trace + [GetJobOp];
    }

    method DeleteJob(key: ObjectKey) returns (err: Option<Error>)
      modifies this`jobs, this`trace
      ensures Effect(err, View()) == DeleteJobIn(old(View()), faults, key)
      ensures trace == old(trace) + [DeleteJobOp]
    {
      var e := DeleteJobIn(View(), faults, key);
      err, jobs := e.err, e.world.jobs;
      trace := trace + [DeleteJobOp];
    }

    /** Creates a Job; fails if a Job of the same name exists in that namespace. */
    method CreateJob(job: Job) returns (err: Option<Error>)
      modifies this`jobs, this`trace
      ensures Effect(err, View()) == CreateJobIn(old(View()), faults, job)
      ensures trace == old(trace) + [CreateJobOp]
    {
      var e := CreateJobIn(View(), faults, job);
      err, jobs := e.err, e.world.jobs;
      trace := trace + [CreateJobOp];
    }

    /** Writes the status hash of an existing AccessPoint. */
    method UpdateStatus(name: string, hash: string) returns (err: Option<Error>)
      modifies this`accessPoints, this`trace
      ensures Effect(err, View()) == UpdateStatusIn(old(View()), faults, name, hash)
      ensures trace == old(trace) + [UpdateStatusOp]
    {
      var e := UpdateStatusIn(View(), faults, name, hash);
      err, accessPoints := e.err, e.world.accessPoints;
      trace := trace + [UpdateStatusOp];
    }
  }
}
