/** The activation decision: whether a node's access-point role should be enabled. */
module Policy {
  import opened Types

  /** The ConfigMap key holding the serialised label selector. */
  const NodeSelectorKey: string := "nodeSelector"

  datatype Operator = In | NotIn | Exists | DoesNotExist

  /** One match requirement on a label. An equality match `key: value` is `In` with one value. */
  datatype Requirement = Requirement(key: string, operator: Operator, values: set<string>)

  /** A parsed selector: a conjunction of requirements. */
  datatype Selector = Selector(requirements: seq<Requirement>)

  predicate Satisfies(r: Requirement, labels: StringMap)
  {
    match r.operator
    case In => r.key in labels && labels[r.key] in r.values
    case NotIn => r.key !in labels || labels[r.key] !in r.values
    case Exists => r.key in labels
    case DoesNotExist => r.key !in labels
  }

  /** A node matches a selector when it satisfies every requirement. */
  predicate Matches(s: Selector, labels: StringMap): (r: bool)
    // A selector with no requirement selects every node.
    ensures s.requirements == [] ==> r
    // A node matches exactly when it satisfies each requirement of the selector.
    ensures r <==> forall req :: req in s.requirements ==> Satisfies(req, labels)
  {
    forall i :: 0 <= i < |s.requirements| ==> Satisfies(s.requirements[i], labels)
  }

  /** Requirements are ANDed: a node matches a concatenation of requirement lists exactly
      when it matches each list. */
  lemma {:induction false} MatchesConjunction(a: seq<Requirement>, b: seq<Requirement>, labels: StringMap)
    ensures Matches(Selector(a + b), labels) <==> Matches(Selector(a), labels) && Matches(Selector(b), labels)
  {
    if Matches(Selector(a), labels) && Matches(Selector(b), labels) {
      forall i | 0 <= i < |a + b|
        ensures Satisfies((a + b)[i], labels)
      {
        if i < |a| {
          assert (a + b)[i] == a[i];
        } else {
          assert (a + b)[i] == b[i - |a|];
        }
      }
    }
    if Matches(Selector(a + b), labels) {
      forall i | 0 <= i < |a|
        ensures Satisfies(a[i], labels)
      {
        assert (a + b)[i] == a[i];
      }
      forall i | 0 <= i < |b|
        ensures Satisfies(b[i], labels)
      {
        assert (a + b)[|a| + i] == b[i];
      }
    }
  }

  /** An equality selector `key: value` selects exactly the nodes carrying that label value. */
  lemma EqualitySelector(key: string, value: string, labels: StringMap)
    ensures Matches(Selector([Requirement(key, In, {value})]), labels) <==> key in labels && labels[key] == value
  {
    var req := Requirement(key, In, {value});
    assert [req][0] == req;
    assert Satisfies(req, labels) <==> key in labels && labels[key] == value;
  }

  /** The activation decision for a node with `labels`, given the settings ConfigMap data.
      `parse` stands for unmarshalling the selector text and converting it to a selector;
      either failure is its Err. */
  function Activation(data: StringMap, labels: StringMap, parse: string -> Result<Selector>): (r: Result<bool>)
    ensures NodeSelectorKey !in data ==> r == Ok(true)
    ensures NodeSelectorKey in data && parse(data[NodeSelectorKey]).Err? ==>
      r == Err(parse(data[NodeSelectorKey]).error)
    ensures NodeSelectorKey in data && parse(data[NodeSelectorKey]).Ok? ==>
      r == Ok(Matches(parse(data[NodeSelectorKey]).value, labels))
  {
    if NodeSelectorKey !in data then Ok(true)
    else
      match parse(data[NodeSelectorKey])
      case Err(e) => Err(e)
      case Ok(selector) => Ok(Matches(selector, labels))
  }
}
