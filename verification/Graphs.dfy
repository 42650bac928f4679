/** Directed graphs as the canvas stores them: a sequence of edges between node ids,
    and the paths and cycles such a sequence describes. */
module Graphs {

  type NodeId = string

  /** The `sourceHandle` of an edge; `Plain` stands for every other value, and for none. */
  datatype Handle = Yes | No | Plain

  datatype Edge = Edge(id: string, source: NodeId, target: NodeId, handle: Handle)

  type Path = seq<Edge>

  /** The edges leaving n, in the order they are stored. */
  function Outgoing(edges: seq<Edge>, n: NodeId): (out: seq<Edge>)
    ensures forall e :: e in out <==> e in edges && e.source == n
  {
    if edges == [] then []
    else
      var rest := Outgoing(edges[..|edges| - 1], n);
      var last := edges[|edges| - 1];
      assert edges == edges[..|edges| - 1] + [last];
      if last.source == n then rest + [last] else rest
  }

  /** Map from a source id to its outgoing edges; ids without outgoing edges are absent. */
  type Adjacency = map<NodeId, seq<Edge>>

  function Successors(adjacency: Adjacency, n: NodeId): seq<Edge> {
    if n in adjacency then adjacency[n] else []
  }

  ghost predicate Represents(adjacency: Adjacency, edges: seq<Edge>) {
    forall n :: Successors(adjacency, n) == Outgoing(edges, n)
  }

  lemma Represented(adjacency: Adjacency, edges: seq<Edge>, n: NodeId)
    requires Represents(adjacency, edges)
    ensures Successors(adjacency, n) == Outgoing(edges, n)
  {
  }

  method BuildAdjacency(edges: seq<Edge>) returns (adjacency: Adjacency)
    ensures Represents(adjacency, edges)
  {
    adjacency := map[];
    for i := 0 to |edges|
      invariant Represents(adjacency, edges[..i])
    {
      var edge := edges[i];
      ghost var before := adjacency;
      if edge.source !in adjacency {
        adjacency := adjacency[edge.source := []];
      }
      adjacency := adjacency[edge.source := adjacency[edge.source] + [edge]];
      assert edges[..i + 1][..i] == edges[..i];
      forall n ensures Successors(adjacency, n) == Outgoing(edges[..i + 1], n) {
        assert Successors(before, n) == Outgoing(edges[..i], n);
      }
    }
    assert edges[..|edges|] == edges;
  }

  /** Every edge joins two ids of the set. */
  ghost predicate Within(edges: seq<Edge>, ids: set<NodeId>) {
    forall e :: e in edges ==> e.source in ids && e.target in ids
  }

  lemma Inside(edges: seq<Edge>, ids: set<NodeId>, e: Edge)
    requires Within(edges, ids) && e in edges
    ensures e.source in ids && e.target in ids
  {
  }

  ghost predicate IsPath(edges: seq<Edge>, a: NodeId, p: Path, b: NodeId) {
    if p == [] then a == b
    else
      var last := p[|p| - 1];
      last in edges && last.target == b && IsPath(edges, a, p[..|p| - 1], last.source)
  }

  ghost predicate Reaches(edges: seq<Edge>, a: NodeId, b: NodeId) {
    exists p :: IsPath(edges, a, p, b)
  }

  ghost predicate HasCycle(edges: seq<Edge>) {
    exists n, p :: p != [] && IsPath(edges, n, p, n)
  }

  ghost predicate HasEdge(edges: seq<Edge>, a: NodeId, b: NodeId) {
    exists e :: e in edges && e.source == a && e.target == b
  }

  /** The edge from a to b lies on a cycle: it exists, and b leads back to a. */
  ghost predicate OnCycle(edges: seq<Edge>, a: NodeId, b: NodeId) {
    HasEdge(edges, a, b) && Reaches(edges, b, a)
  }

  /** The i-th node of a path that starts at a. */
  function NodeAt(a: NodeId, p: Path, i: nat): NodeId
    requires i <= |p|
  {
    if i == 0 then a else p[i - 1].target
  }

  lemma {:induction false} Concatenate(edges: seq<Edge>, a: NodeId, p: Path, b: NodeId, q: Path, c: NodeId)
    requires IsPath(edges, a, p, b) && IsPath(edges, b, q, c)
    ensures IsPath(edges, a, p + q, c)
    decreases |q|
  {
    if q == [] {
      assert p + q == p;
    } else {
      Concatenate(edges, a, p, b, q[..|q| - 1], q[|q| - 1].source);
      assert (p + q)[..|p + q| - 1] == p + q[..|q| - 1];
    }
  }

  lemma DropThenTake<T>(s: seq<T>, i: nat)
    requires i < |s|
    ensures s[i..][..|s| - i - 1] == s[..|s| - 1][i..]
  {
  }

  /** A path can be cut at any of its nodes. */
  lemma {:induction false} Split(edges: seq<Edge>, a: NodeId, p: Path, b: NodeId, i: nat)
    requires IsPath(edges, a, p, b) && i <= |p|
    ensures IsPath(edges, a, p[..i], NodeAt(a, p, i)) && IsPath(edges, NodeAt(a, p, i), p[i..], b)
    decreases |p|
  {
    if i == |p| {
      assert p[..i] == p;
    } else {
      var front := p[..|p| - 1];
      Split(edges, a, front, p[|p| - 1].source, i);
      assert front[..i] == p[..i];
      var back := p[i..];
      DropThenTake(p, i);
      assert back[|back| - 1] == p[|p| - 1];
    }
  }

  lemma StepTo(edges: seq<Edge>, a: NodeId, p: Path, e: Edge)
    requires IsPath(edges, a, p, e.source) && e in edges
    ensures IsPath(edges, a, p + [e], e.target)
  {
    assert (p + [e])[..|p|] == p;
  }

  /** A set that holds the start and every successor of its members holds all that is reachable. */
  lemma {:induction false} ClosedSetHoldsPaths(edges: seq<Edge>, s: set<NodeId>, a: NodeId, p: Path, b: NodeId)
    requires a in s && IsPath(edges, a, p, b)
    requires forall e :: e in edges && e.source in s ==> e.target in s
    ensures b in s
    decreases |p|
  {
    if p != [] {
      ClosedSetHoldsPaths(edges, s, a, p[..|p| - 1], p[|p| - 1].source);
    }
  }

  lemma CycleFromEdge(edges: seq<Edge>, a: NodeId, b: NodeId)
    requires OnCycle(edges, a, b)
    ensures HasCycle(edges)
  {
    var e :| e in edges && e.source == a && e.target == b;
    var p :| IsPath(edges, b, p, a);
    assert IsPath(edges, b, p, e.source);
    StepTo(edges, b, p, e);
    assert p + [e] != [];
  }

  function Targets(out: seq<Edge>): (ids: seq<NodeId>)
    ensures |ids| == |out| && forall i :: 0 <= i < |out| ==> ids[i] == out[i].target
  {
    seq(|out|, i requires 0 <= i < |out| => out[i].target)
  }

  /** What a search has found so far: `seen` and `pending` hold only reachable ids, the start is
      among them, and every successor of a seen id is among them. */
  ghost predicate Searching(edges: seq<Edge>, start: NodeId, seen: set<NodeId>, pending: seq<NodeId>) {
    && (start in seen || start in pending)
    && (forall n :: n in seen ==> Reaches(edges, start, n))
    && (forall n :: n in pending ==> Reaches(edges, start, n))
    && (forall e :: e in edges && e.source in seen ==> e.target in seen || e.target in pending)
  }

  lemma ExpandSearch(edges: seq<Edge>, start: NodeId, seen: set<NodeId>, pending: seq<NodeId>, id: NodeId)
    requires Searching(edges, start, seen, pending + [id])
    ensures Searching(edges, start, seen + {id}, pending + Targets(Outgoing(edges, id)))
  {
    var out := Outgoing(edges, id);
    var next := pending + Targets(out);
    assert id in pending + [id];
    forall n | n in next ensures Reaches(edges, start, n) {
      if n in pending {
        assert n in pending + [id];
      } else {
        var k :| 0 <= k < |out| && out[k].target == n;
        assert out[k] in out;
        var p :| IsPath(edges, start, p, id);
        StepTo(edges, start, p, out[k]);
      }
    }
    forall e | e in edges && e.source in seen + {id} ensures e.target in seen + {id} || e.target in next {
      if e.source == id {
        assert e in out;
        var k :| 0 <= k < |out| && out[k] == e;
        assert Targets(out)[k] == e.target && e.target in Targets(out);
      } else {
        assert e.target in seen || e.target in pending + [id];
      }
    }
  }

  lemma FinishedSearch(edges: seq<Edge>, start: NodeId, seen: set<NodeId>)
    requires Searching(edges, start, seen, [])
    ensures forall n :: n in seen <==> Reaches(edges, start, n)
  {
    forall n | Reaches(edges, start, n) ensures n in seen {
      var p :| IsPath(edges, start, p, n);
      ClosedSetHoldsPaths(edges, seen, start, p, n);
    }
  }

  /** Every id a search can meet. */
  ghost function Universe(edges: seq<Edge>, start: NodeId): set<NodeId> {
    {start} + set e | e in edges :: e.target
  }

  lemma StartSearch(edges: seq<Edge>, start: NodeId)
    ensures Searching(edges, start, {}, [start])
  {
    assert IsPath(edges, start, [], start);
  }

  lemma PendingInUniverse(edges: seq<Edge>, start: NodeId, seen: set<NodeId>, pending: seq<NodeId>, id: NodeId)
    requires Searching(edges, start, seen, pending) && id in pending
    ensures id in Universe(edges, start)
  {
    var p :| IsPath(edges, start, p, id);
  }

  lemma SkipSeen(edges: seq<Edge>, start: NodeId, seen: set<NodeId>, pending: seq<NodeId>, id: NodeId)
    requires Searching(edges, start, seen, pending + [id]) && id in seen
    ensures Searching(edges, start, seen, pending)
  {
    assert forall n :: n in pending + [id] <==> n in pending || n == id;
  }

  /** Nodes reachable from a start id, by a stack search that may meet a node several times. */
  method GetReachableNodeIds(start: NodeId, adjacency: Adjacency, ghost edges: seq<Edge>)
    returns (visited: set<NodeId>)
    requires Represents(adjacency, edges)
    ensures forall n :: n in visited <==> Reaches(edges, start, n)
  {
    hide Searching, Universe, Reaches, Represents, Outgoing;
    visited := {};
    var stack := [start];
    StartSearch(edges, start);
    while |stack| > 0
      invariant Searching(edges, start, visited, stack)
      decreases Universe(edges, start) - visited, |stack|
    {
      var id := stack[|stack| - 1];
      assert stack == stack[..|stack| - 1] + [id];
      PendingInUniverse(edges, start, visited, stack, id);
      stack := stack[..|stack| - 1];
      if id in visited {
        SkipSeen(edges, start, visited, stack, id);
        continue;
      }
      ExpandSearch(edges, start, visited, stack, id);
      visited := visited + {id};
      var out := Successors(adjacency, id);
      Represented(adjacency, edges, id);
      ghost var rest := stack;
      for i := 0 to |out|
        invariant stack == rest + Targets(out[..i])
      {
        stack := stack + [out[i].target];
        assert Targets(out[..i + 1]) == Targets(out[..i]) + [out[i].target];
      }
      assert out[..|out|] == out;
    }
    FinishedSearch(edges, start, visited);
  }
}
