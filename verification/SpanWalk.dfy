/**
`_latency`: the latency of a completed message is found by walking from its last span to the
span of the agent that sent it, over at most 64 parents in the span cache.
 */
module SpanWalk {
  import opened Options

  datatype Node = Node(trace: string, id: string, parent: Option<string>, sends: bool, started: int)

  /** The span cache, by trace and span identity. */
  type Spans = map<(string, string), Node>

  const HOPS: nat := 64

  /** Five minutes in nanoseconds. */
  const LONGEST := 300_000_000_000

  predicate Keyed(spans: Spans) {
    forall k :: k in spans ==> (spans[k].trace, spans[k].id) == k
  }

  function Parent(spans: Spans, node: Node): Option<Node> {
    if node.parent.None? || (node.trace, node.parent.value) !in spans then None
    else Some(spans[(node.trace, node.parent.value)])
  }

  /** The node `k` parents above, if the cache reaches that far. */
  function Ancestor(spans: Spans, node: Node, k: nat): Option<Node> {
    if k == 0 then Some(node)
    else match Ancestor(spans, node, k - 1)
      case None => None
      case Some(below) => Parent(spans, below)
  }

  predicate SenderAt(spans: Spans, node: Node, k: nat) {
    Ancestor(spans, node, k).Some? && Ancestor(spans, node, k).value.sends
  }

  /** The sender is found `k` parents above and no nearer. */
  ghost predicate FoundAt(spans: Spans, node: Node, k: nat) {
    SenderAt(spans, node, k) && forall i: nat :: i < k ==> !SenderAt(spans, node, i)
  }

  /** The time from one span's start to the other's, if it is not negative and within the limit. */
  function Between(sender: Node, endpoint: Node): (r: Option<int>)
    ensures r.Some? <==> sender.started <= endpoint.started <= sender.started + 300_000_000_000
    ensures r.Some? ==> sender.started + r.value == endpoint.started
  {
    var latency := endpoint.started - sender.started;
    if 0 <= latency <= LONGEST then Some(latency) else None
  }

  /** Once a walk comes back to a node it has passed, it repeats itself for ever. */
  lemma {:induction false} WalkRepeats(spans: Spans, node: Node, j: nat, i: nat, k: nat)
    requires j < i && Ancestor(spans, node, i) == Ancestor(spans, node, j)
    ensures Ancestor(spans, node, i + k) == Ancestor(spans, node, j + k)
  {
    if k > 0 {
      WalkRepeats(spans, node, j, i, k - 1);
      assert i + k - 1 == i + (k - 1) && j + k - 1 == j + (k - 1);
    }
  }

  /** So a cycle without a sender has none anywhere above it. */
  lemma {:induction false} CycleHasNoSender(spans: Spans, node: Node, j: nat, i: nat, k: nat)
    requires j < i && Ancestor(spans, node, i) == Ancestor(spans, node, j)
    requires forall l: nat :: l < i ==> !SenderAt(spans, node, l)
    ensures !SenderAt(spans, node, k)
    decreases k
  {
    if k >= i {
      WalkRepeats(spans, node, j, i, k - i);
      CycleHasNoSender(spans, node, j, i, j + (k - i));
    }
  }

  /** Nor is there any above a node without a known parent. */
  lemma {:induction false} EndHasNoSender(spans: Spans, node: Node, i: nat, k: nat)
    requires Ancestor(spans, node, i).None? && i <= k
    ensures !SenderAt(spans, node, k) && Ancestor(spans, node, k).None?
  {
    if i < k { EndHasNoSender(spans, node, i, k - 1); }
  }

  /** Nodes of one walk with the same identity are the same cached span. */
  lemma SameIdentity(spans: Spans, node: Node, j: nat, i: nat)
    requires Keyed(spans) && ((node.trace, node.id) in spans ==> spans[(node.trace, node.id)] == node)
    requires j < i && Ancestor(spans, node, i).Some? && Ancestor(spans, node, j).Some?
    requires Ancestor(spans, node, i).value.id == Ancestor(spans, node, j).value.id
    ensures Ancestor(spans, node, i) == Ancestor(spans, node, j)
  {
    OneTrace(spans, node, i);
    OneTrace(spans, node, j);
  }

  lemma {:induction false} OneTrace(spans: Spans, node: Node, k: nat)
    requires Keyed(spans) && Ancestor(spans, node, k).Some?
    ensures var above := Ancestor(spans, node, k).value;
      && above.trace == node.trace
      && (k > 0 ==> (above.trace, above.id) in spans && spans[(above.trace, above.id)] == above)
  {
    if k > 0 { OneTrace(spans, node, k - 1); }
  }

  /**
  The walk finds the nearest sender within its hops, and a latency exactly if that lies within
  five minutes.  Stopping at a span already visited never hides a sender, near or far.
   */
  method Latency(spans: Spans, endpoint: Node) returns (latency: Option<int>)
    requires Keyed(spans)
    requires (endpoint.trace, endpoint.id) in spans ==> spans[(endpoint.trace, endpoint.id)] == endpoint
    ensures latency.Some? ==> exists k: nat ::
      k < HOPS && FoundAt(spans, endpoint, k) && latency == Between(Ancestor(spans, endpoint, k).value, endpoint)
    ensures latency.None? ==> forall k: nat :: k < HOPS && FoundAt(spans, endpoint, k) ==>
      Between(Ancestor(spans, endpoint, k).value, endpoint).None?
  {
    var ancestor, visited: set<string> := endpoint, {};
    for i := 0 to HOPS
      invariant Ancestor(spans, endpoint, i) == Some(ancestor)
      invariant forall k: nat :: k < i ==> !SenderAt(spans, endpoint, k) && Ancestor(spans, endpoint, k).Some?
      invariant forall id :: id in visited ==> exists j: nat :: j < i && VisitedAt(spans, endpoint, j, id)
    {
      if ancestor.id in visited {
        ghost var j: nat :| j < i && VisitedAt(spans, endpoint, j, ancestor.id);
        SameIdentity(spans, endpoint, j, i);
        forall k: nat ensures !SenderAt(spans, endpoint, k) { CycleHasNoSender(spans, endpoint, j, i, k); }
        return None;
      }
      visited := visited + {ancestor.id};
      assert VisitedAt(spans, endpoint, i, ancestor.id);
      if ancestor.sends {
        assert FoundAt(spans, endpoint, i);
        return Between(ancestor, endpoint);
      }
      var parent := Parent(spans, ancestor);
      if parent.None? {
        assert Ancestor(spans, endpoint, i + 1).None?;
        forall k: nat | k > i ensures !SenderAt(spans, endpoint, k) { EndHasNoSender(spans, endpoint, i + 1, k); }
        return None;
      }
      ancestor := parent.value;
    }
    latency := None;
  }

  ghost predicate VisitedAt(spans: Spans, node: Node, j: nat, id: string) {
    Ancestor(spans, node, j).Some? && Ancestor(spans, node, j).value.id == id
  }
}
