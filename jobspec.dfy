/** The one-shot actuation Job derived from a node and its activation decision. */
module JobSpec {
  import opened Types

  const JobPrefix: string := "wifi-job-"
  const EnableScript: string := "/app/enable-ap.sh"
  const DisableScript: string := "/app/disable-ap.sh"

  /** Seconds a finished Job is kept before the platform removes it. */
  const TtlAfterFinished: nat := 86400

  /** The fields of the Job that carry a decision; image, volumes, environment and security
      context are fixed and are not modelled. `owner` is the AccessPoint that controls it. */
  datatype Job = Job(name: string, namespace: string, owner: string, command: seq<string>, ttlSecondsAfterFinished: nat)

  /** The Job of a node is the fixed prefix followed by the node name. */
  function JobName(nodeName: string): (r: string)
    ensures |r| == |JobPrefix| + |nodeName|
    ensures r[..|JobPrefix|] == JobPrefix && r[|JobPrefix|..] == nodeName
  {
    JobPrefix + nodeName
  }

  /** Distinct nodes never share a Job name. */
  lemma JobNameInjective(a: string, b: string)
    ensures JobName(a) == JobName(b) <==> a == b
  {
    if JobName(a) == JobName(b) {
      assert a == JobName(a)[|JobPrefix|..] == JobName(b)[|JobPrefix|..] == b;
    }
  }

  /** The script the Job runs: enable when the node is activated, disable otherwise. */
  function Script(activate: bool): (c: string)
    ensures c == EnableScript || c == DisableScript
    ensures c == EnableScript <==> activate
  {
    if activate then EnableScript else DisableScript
  }

  function KeyOf(job: Job): ObjectKey
  {
    ObjectKey(job.namespace, job.name)
  }

  /** The Job for `nodeName` in the operator namespace `ns`, owned by the node's AccessPoint. */
  function BuildJob(ns: string, nodeName: string, activate: bool): (j: Job)
    ensures KeyOf(j) == ObjectKey(ns, JobName(nodeName)) && j.owner == nodeName
    ensures j.command == ["/bin/sh", "-c", Script(activate)]
    ensures j.ttlSecondsAfterFinished == TtlAfterFinished
  {
    Job(JobName(nodeName), ns, nodeName, ["/bin/sh", "-c", Script(activate)], TtlAfterFinished)
  }
}
