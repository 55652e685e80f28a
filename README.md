# wapop node reconciler, modelled in Dafny

wapop is a Kubernetes operator that turns selected nodes into Wi-Fi access points. For every
node, its `NodeReconciler` does the following in one pass:

- reads the `wifi-settings` ConfigMap and Secret of the operator's namespace, and the node;
- decides whether the node is activated (the ConfigMap's `nodeSelector`, or every node when
  that key is absent);
- makes sure a cluster-scoped `AccessPoint` named after the node exists;
- fingerprints the node's boot ID, the activation decision and the settings data.

When the fingerprint equals the hash in the AccessPoint's status, the pass stops. Otherwise it
deletes a stale `wifi-job-<node>` Job and asks to be requeued after one second, or it creates
that Job and then writes the new fingerprint to the AccessPoint. The Job runs
`/app/enable-ap.sh` or `/app/disable-ap.sh` and is kept for 86400 seconds. A watch on the
settings objects asks for a pass over every node when they change.

The model has these modules:

- `Types`: shared values (results, errors, bytes, nodes, object keys).
- `Hashing`: `hashValues`. Each value is serialised and the results are concatenated in order,
  then digested and hex-encoded in lower case. A hex decoder is the encoder's inverse.
- `Policy`: the activation decision. The selector's requirements are In, NotIn, Exists and
  DoesNotExist, and a node must satisfy all of them.
- `JobSpec`: the Job name, the script choice and the Job's decision-carrying fields.
- `ObjectStore`: the API server as a `Store` class holding maps. A `faults` map makes any call
  kind fail with a chosen error. A ghost `trace` records the calls in the order they were made.
  `World` is a value snapshot of the store.
- `Reconciler`: the pass in two forms.
  - `ReconcileSpec` is a function on `World`, split along the source's steps: `Gather`,
    `EnsureAccessPoint`, `SyncJob`, `Refresh`, `DeleteStale` and `CreateAndCommit`.
  - `Reconcile` is the imperative method over a `Store`. It calls the store one operation at a
    time and is proved to return, leave and issue exactly what `ReconcileSpec` says.
  - Lemmas state the per-branch guarantees, idempotence and convergence.
- `SettingsMapper`: the watch's map function `lookupSettings`.

## Model

| member | source | states |
|---|---|---|
| Hashing.SerialiseConcat | internal/controller/node_controller.go:319-331 | serialising a concatenation of values is the concatenation of the parts' serialisations, so values are serialised independently and in argument order |
| Hashing.HexDigit | internal/controller/node_controller.go:337 | a value below 16 becomes a digit `0`-`9` or a lower-case `a`-`f` |
| Hashing.DigitValue | internal/controller/node_controller.go:337 | a character with a digit value has a value below 16 and is the hex digit of that value |
| Hashing.HexEncode | internal/controller/node_controller.go:337 | `%x` of a byte string has two characters per byte |
| Hashing.HexEncodeDigits | internal/controller/node_controller.go:337 | every character of `%x` output is a lower-case hex digit |
| Hashing.HexDecode | internal/controller/node_controller.go:337 | a decoded string had two characters per decoded byte |
| Hashing.HexRoundTrip | internal/controller/node_controller.go:337 | decoding the hex encoding of any byte string gives back those bytes |
| Hashing.HexEncodeInjective | internal/controller/node_controller.go:337 | two byte strings have the same hex encoding if and only if they are equal |
| Hashing.Fingerprint | internal/controller/node_controller.go:317-338 | the fingerprint has 64 characters (a 32-byte digest, hex-encoded), so it never equals the empty hash of a new AccessPoint |
| Hashing.FingerprintsAgree | internal/controller/node_controller.go:317-338 | two value sequences have the same fingerprint if and only if the digests of their serialisations are equal |
| Hashing.HashValues | internal/controller/node_controller.go:317-338 | the loop that serialises and appends each value returns the fingerprint of the whole sequence, 64 characters long |
| Policy.Matches | internal/controller/node_controller.go:92 | a node matches a selector if and only if it satisfies each of its requirements; a selector with no requirement selects every node |
| Policy.EqualitySelector | internal/controller/node_controller.go:92 | an equality selector `key: value` selects exactly the nodes whose label `key` has that value |
| Policy.MatchesConjunction | internal/controller/node_controller.go:92 | requirements are ANDed: a node matches two requirement lists together exactly when it matches each |
| Policy.Activation | internal/controller/node_controller.go:74-93 | no `nodeSelector` key activates the node whatever its labels; a selector that fails to parse gives that error; otherwise activation is whether the labels match the selector |
| JobSpec.JobName | internal/controller/node_controller.go:130 | the Job name is `wifi-job-` followed by the node name, and nothing else |
| JobSpec.JobNameInjective | internal/controller/node_controller.go:130 | two nodes have the same Job name if and only if they have the same name |
| JobSpec.Script | internal/controller/node_controller.go:144-147 | the command is one of the two scripts, and it is `/app/enable-ap.sh` exactly when the node is activated |
| JobSpec.BuildJob | internal/controller/node_controller.go:149-168 | the Job lives in the operator namespace under the node's Job name, is owned by the node's AccessPoint, and is kept 86400 seconds after it finishes; its command is `/bin/sh -c` followed by the script, which is `/app/enable-ap.sh` for an activated node and `/app/disable-ap.sh` otherwise |
| Reconciler.HashInputsOrder | internal/controller/node_controller.go:123 | the data digested for a pass is the serialised boot ID, then the serialised activation decision, ConfigMap data and Secret data, appended in that order |
| Reconciler.HashInputsInjective | internal/controller/node_controller.go:123 | two passes fingerprint the same values exactly when they read the same boot ID, decided the same activation and read the same ConfigMap and Secret data |
| Reconciler.Gather | internal/controller/node_controller.go:46-93 | the reads are the ConfigMap, then the Secret, then the node, stopping at the first failure; the facts exist exactly when the three reads succeed and the activation decision is defined, and they are what was read plus that decision |
| Reconciler.EnsureAccessPoint | internal/controller/node_controller.go:95-121 | an existing AccessPoint is only read; an error other than NotFound aborts with no write; NotFound creates the AccessPoint with the empty hash, and a failed create returns the create's own error; a NotFound reported for an AccessPoint that does exist still leads to the create, which fails with AlreadyExists; a stored hash is the store's |
| Reconciler.DeleteStale | internal/controller/node_controller.go:136-141 | a Job that was found is deleted and the pass asks to be requeued after 1 second; a failed delete returns its error and leaves the Jobs as they were |
| Reconciler.CreateAndCommit | internal/controller/node_controller.go:144-256 | the Job is created, then the hash is written; the pass succeeds exactly when no Job of that name exists and neither call fails; the hash changes only if the create succeeded; a failure returns the failing call's own error (the injected create error, AlreadyExists for a taken Job name, or the status update's error); nothing else changes |
| Reconciler.Refresh | internal/controller/node_controller.go:130-256 | with a stale hash, a Job that was found is deleted and the pass requeues; any lookup failure, NotFound or not, goes on to create the Job |
| Reconciler.SyncJob | internal/controller/node_controller.go:123-256 | an up-to-date hash ends the pass with no call and no write; only this node's hash and Job change; the hash changes only after the Job was created; a failed pass keeps every hash; an existing Job is deleted or left, never replaced; a requeue follows deletion of a stale Job |
| Reconciler.Actuate | internal/controller/node_controller.go:95-256 | an existing AccessPoint is never recreated, and its hash is kept or set to the fingerprint; only this node's AccessPoint and Job change; a failed pass keeps every hash; Done leaves the fingerprint committed; a requeue follows deletion of the node's Job and keeps the hash |
| Reconciler.ReconcileSpec | internal/controller/node_controller.go:43-257 | the ConfigMaps, Secrets and nodes are never written; a read or selector failure returns that error with no write; only this node's AccessPoint is added or changed, and only its Job; a failed pass keeps every existing hash |
| Reconciler.ReadFailureAbortsBeforeWrites | internal/controller/node_controller.go:47-72 | a failed ConfigMap, Secret or node read returns that error, issues no further call and leaves the store untouched |
| Reconciler.BadSelectorAbortsBeforeWrites | internal/controller/node_controller.go:81-91 | a selector that cannot be parsed returns the parse error after the three reads, before any AccessPoint or Job call, with the store untouched |
| Reconciler.UpToDatePassWritesNothing | internal/controller/node_controller.go:123-128 | when the stored hash equals the fingerprint, the pass makes the three reads and the AccessPoint lookup, then returns success with no Job call and no write |
| Reconciler.SuccessCommitsFingerprint | internal/controller/node_controller.go:249-256 | a pass that returns Done leaves the AccessPoint holding the fingerprint of what it read |
| Reconciler.RequeueOnlyAfterStaleJobDeleted | internal/controller/node_controller.go:130-142 | a requeue happens only after the node's Job was found and deleted; no Job is created and the stored hash is kept (a new AccessPoint keeps its empty hash) |
| Reconciler.HashCommittedOnlyAfterJobCreated | internal/controller/node_controller.go:244-254 | a new non-empty hash in the store means the pass created the node's Job with the chosen script, where no Job was, and ended with the create and the status update, in that order |
| Reconciler.Reconcile | internal/controller/node_controller.go:43-257 | the imperative pass against the store returns the result of `ReconcileSpec`, leaves the store in its state and issues exactly its calls, in order |
| Reconciler.GatherOnStore | internal/controller/node_controller.go:46-93 | the reads against the store give `Gather`'s facts and issue its calls |
| Reconciler.ActuateOnStore | internal/controller/node_controller.go:95-256 | the steps after the reads give `Actuate`'s result, store state and calls |
| Reconciler.EnsureAccessPointOnStore | internal/controller/node_controller.go:95-121 | the AccessPoint step against the store gives `EnsureAccessPoint`'s stored hash, store state and calls |
| Reconciler.SyncJobOnStore | internal/controller/node_controller.go:130-256 | the Job step against the store gives `SyncJob`'s result, store state and calls |
| Reconciler.SecondPassIsQuiet | internal/controller/node_controller.go:123-128 | after a pass that returns Done, a second pass with the same inputs changes nothing and never requeues; it makes no write unless its AccessPoint lookup reports NotFound; with no failure it returns Done after the three reads and the lookup |
| Reconciler.QuietPass | internal/controller/node_controller.go:43-128 | when the fault-free reads yield facts whose fingerprint the AccessPoint already holds, a pass changes nothing and never requeues; it makes no write unless its lookup reports NotFound; with no failure it returns Done after the reads and the lookup |
| Reconciler.PassAfterFailedGather | internal/controller/node_controller.go:46-93 | a pass whose reads or selector parse fail returns that error with the store unchanged and only read calls made |
| Reconciler.PassAfterGather | internal/controller/node_controller.go:46-93 | a pass whose reads succeed is exactly the three reads followed by the steps on the AccessPoint and the Job |
| Reconciler.GatherAgain | internal/controller/node_controller.go:46-93 | once the reads have succeeded, reading again over a store whose settings and nodes are unchanged gives the same facts, for the node asked for |
| Reconciler.ActuateWhenUpToDate | internal/controller/node_controller.go:123-128 | on an AccessPoint already holding the fingerprint, the steps after the reads change nothing and never requeue, and without failures they return Done after the lookup alone |
| Reconciler.StaleJobReplacedNextPass | internal/controller/node_controller.go:130-256 | after a pass that deleted a stale Job, a pass with no failure creates the Job with the chosen script and commits the fingerprint |
| Reconciler.ConvergesWithinTwoPasses | internal/controller/node_controller.go:43-257 | when the settings and the node can be read and the selector parses, at most two passes with no failure commit the fingerprint, whatever Jobs and hashes the store held before |
| ObjectStore.Store.GetConfigMap | internal/controller/node_controller.go:48-51 | a ConfigMap lookup returns its data, NotFound, or the injected error, and is recorded in the trace |
| ObjectStore.Store.GetSecret | internal/controller/node_controller.go:57-60 | a Secret lookup returns its data, NotFound, or the injected error, and is recorded in the trace |
| ObjectStore.Store.GetNode | internal/controller/node_controller.go:69 | a node lookup returns the node, NotFound, or the injected error, and is recorded in the trace |
| ObjectStore.Store.GetJob | internal/controller/node_controller.go:133-136 | a Job lookup returns the Job, NotFound, or the injected error, and is recorded in the trace |
| ObjectStore.Store.GetAccessPoint | internal/controller/node_controller.go:100 | a lookup returns the stored hash, NotFound, or the injected error, and is recorded in the trace |
| ObjectStore.Store.CreateAccessPoint | internal/controller/node_controller.go:103-115 | creating an AccessPoint fails with AlreadyExists when one of that name exists, and otherwise adds it with the empty hash |
| ObjectStore.Store.DeleteJob | internal/controller/node_controller.go:137 | deleting a Job removes it, or fails with NotFound or the injected error and changes nothing |
| ObjectStore.Store.CreateJob | internal/controller/node_controller.go:245 | creating a Job fails with AlreadyExists when its key is taken, and otherwise adds it under its namespace and name |
| ObjectStore.Store.UpdateStatus | internal/controller/node_controller.go:250-251 | writing the status hash of an existing AccessPoint replaces that hash only; a missing AccessPoint gives NotFound |
| SettingsMapper.LookupSettings | internal/controller/node_controller.go:275-297 | a failed node listing gives no request; any object other than `wifi-settings` in the operator namespace gives no request; that object gives one request per listed node, in listing order, named after the node and without a namespace |
| SettingsMapper.SettingsChangeCoversEveryNode | internal/controller/node_controller.go:285-293 | such a request list asks for every listed node and for nothing but listed nodes |

## Left out

- Reading the operator namespace from the service-account file (`getNamespace`,
  internal/controller/node_controller.go:299-313) is I/O. The namespace is a parameter.
- JSON serialisation and SHA-256 are library code. They are function-typed parameters (`Codec`).
  A map is passed as a mathematical map, so the serialiser cannot depend on insertion order.
  The Go library's sorted-key output is what guarantees this in the source.
- Hashing.HashValues: the serialiser is modelled as total. The panic on a serialisation error
  cannot happen for a string, a boolean, a string map or a byte-slice map. A nil map and an
  empty map, which JSON encodes differently, are not distinguished.
- Policy.Activation: unmarshalling the selector YAML and converting it with
  `LabelSelectorAsSelector` are one parse parameter, whose failure is the pass's error. Matching
  a parsed selector is modelled as a conjunction of In, NotIn, Exists and DoesNotExist
  requirements.
- ObjectStore.Store.DeleteJob completes a deletion at once: the Job is gone as soon as the call
  returns. On a real API server a Job can remain visible while it is being deleted, and the
  source's requeue after a delete exists to give that deletion time. Pending deletions are
  not modelled.
- StaleJobReplacedNextPass: the promise that the pass after a deletion creates the Job holds
  for the modelled store, where a deletion completes at once. With a pending deletion the next
  pass can find the Job again, delete it again and requeue again.
- ConvergesWithinTwoPasses: the two-pass bound holds for the modelled store, where a deletion
  completes at once. With a pending deletion, every pass that still finds the Job adds one more
  delete-and-requeue before the Job is created.
- The API server is modelled as the `Store` class.
  - Optimistic-concurrency conflicts on the status update are not modelled.
  - The cascade deletion that owner references trigger is not modelled.
  - Changes made by other actors between calls are not modelled.
  - Failures are modelled by error injection per call kind.
  - The ghost trace records which calls were made, not their arguments.
- The controller reference set on the AccessPoint (owner: the node) is not modelled. The Job's
  owner is kept as a field.
- The Job's container image, volumes, environment, security context, host networking and
  restart policy are constants with no decision in them. They are not modelled.
- `ReconcileSpec`, `Reconcile` and the lemmas about whole passes require `NodesNamed`: the
  store holds each node under its own name. The API server guarantees this.
- Watch wiring (`SetupWithManager`), logging, RBAC markers, requeue timing and the scheduling of
  concurrent passes belong to the controller runtime and are not modelled.
