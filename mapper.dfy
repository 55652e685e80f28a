/** The watch on the settings ConfigMap and Secret: a change to an object named
    "wifi-settings" in the operator's namespace asks for a reconciliation of every node. */
module SettingsMapper {
  import opened Types

  /** A reconcile request; node requests leave the namespace empty, nodes being cluster-scoped. */
  datatype Request = Request(namespace: string, name: string)

  /** The requests enqueued when the object `changed` is created, updated or deleted.
      `listed` is the outcome of listing the nodes; a listing error yields no request. */
  method LookupSettings(listed: Result<seq<Node>>, changed: ObjectKey, operatorNamespace: string)
    returns (requests: seq<Request>)
    // A failed listing enqueues nothing, whatever object changed.
    ensures listed.Err? ==> requests == []
    // Any other object than the operator's settings enqueues nothing.
    ensures changed != ObjectKey(operatorNamespace, SettingsName) ==> requests == []
    // The settings object enqueues one request per listed node, in listing order.
    ensures listed.Ok? && changed == ObjectKey(operatorNamespace, SettingsName) ==>
      |requests| == |listed.value| &&
      forall i :: 0 <= i < |requests| ==> requests[i] == Request("", listed.value[i].name)
  {
    requests := [];
    if listed.Err? {
      return;
    }
    var nodes := listed.value;
    if changed.name == SettingsName && changed.namespace == operatorNamespace {
      var i := 0;
      while i < |nodes|
        invariant 0 <= i <= |nodes|
        invariant |requests| == i
        invariant forall k :: 0 <= k < i ==> requests[k] == Request("", nodes[k].name)
      {
        requests := requests + [Request("", nodes[i].name)];
        i := i + 1;
      }
    }
  }

  /** Every listed node is asked for when the settings change, and nothing but listed nodes. */
  lemma {:induction false} SettingsChangeCoversEveryNode(listed: seq<Node>, requests: seq<Request>)
    requires |requests| == |listed|
    requires forall i :: 0 <= i < |requests| ==> requests[i] == Request("", listed[i].name)
    ensures forall n :: n in listed ==> Request("", n.name) in requests
    ensures forall r :: r in requests ==> r.namespace == "" && exists n :: n in listed && n.name == r.name
  {
    forall n | n in listed
      ensures Request("", n.name) in requests
    {
      var i :| 0 <= i < |listed| && listed[i] == n;
      assert requests[i] == Request("", n.name);
    }
    forall r | r in requests
      ensures r.namespace == "" && exists n :: n in listed && n.name == r.name
    {
      var i :| 0 <= i < |requests| && requests[i] == r;
      assert listed[i] in listed;
    }
  }
}
