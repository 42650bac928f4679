/** White/grey/black depth-first cycle detection, whose early return leaves nodes grey. */
module CycleDetection {
  import opened Graphs

  datatype Color = White | Grey | Black

  datatype CycleError = CycleError(from: NodeId, to: NodeId)

  /** Members of a chain are distinct, and consecutive ones are joined by edges. */
  ghost predicate Linked(edges: seq<Edge>, chain: seq<NodeId>) {
    chain == []
    || var front, last := chain[..|chain| - 1], chain[|chain| - 1];
       Linked(edges, front) && last !in front && Follows(edges, front, last)
  }

  ghost predicate Follows(edges: seq<Edge>, chain: seq<NodeId>, n: NodeId) {
    chain == [] || HasEdge(edges, chain[|chain| - 1], n)
  }

  /** Members are distinct, and every edge out of a member leads to an earlier member. */
  ghost predicate Postorder(edges: seq<Edge>, order: seq<NodeId>) {
    order == []
    || var front, last := order[..|order| - 1], order[|order| - 1];
       Postorder(edges, front) && last !in front && LeadsInto(edges, last, front)
  }

  ghost predicate LeadsInto(edges: seq<Edge>, n: NodeId, targets: seq<NodeId>) {
    forall e :: e in edges && e.source == n ==> e.target in targets
  }

  lemma {:induction false} ChainIsPath(edges: seq<Edge>, chain: seq<NodeId>, i: nat)
    requires Linked(edges, chain) && i < |chain|
    ensures Reaches(edges, chain[i], chain[|chain| - 1])
    decreases |chain|
  {
    if i == |chain| - 1 {
      assert IsPath(edges, chain[i], [], chain[i]);
    } else {
      ChainIsPath(edges, chain[..|chain| - 1], i);
      var p :| IsPath(edges, chain[i], p, chain[|chain| - 2]);
      var e :| e in edges && e.source == chain[|chain| - 2] && e.target == chain[|chain| - 1];
      StepTo(edges, chain[i], p, e);
    }
  }

  lemma {:induction false} PostorderIsClosed(edges: seq<Edge>, order: seq<NodeId>, e: Edge)
    requires Postorder(edges, order) && e in edges && e.source in order
    ensures e.target in order
  {
    var front := order[..|order| - 1];
    assert order == front + [order[|order| - 1]];
    if e.source in front {
      PostorderIsClosed(edges, front, e);
    }
  }

  /** No path leads from a member of a postorder back to it. */
  lemma {:induction false} NoCycleThrough(edges: seq<Edge>, order: seq<NodeId>, n: NodeId, p: Path)
    requires Postorder(edges, order) && n in order && p != []
    ensures !IsPath(edges, n, p, n)
  {
    var front := order[..|order| - 1];
    assert order == front + [order[|order| - 1]];
    if n in front {
      NoCycleThrough(edges, front, n, p);
    } else if IsPath(edges, n, p, n) {
      Split(edges, n, p, n, 1);
      assert p[..1][..0] == [];
      assert p[0] in edges && p[0].source == n;
      var closed := set m | m in front;
      forall e | e in edges && e.source in closed ensures e.target in closed {
        PostorderIsClosed(edges, front, e);
      }
      ClosedSetHoldsPaths(edges, closed, p[0].target, p[1..], n);
    }
  }

  type Coloring = map<NodeId, Color>

  ghost function Colored(color: Coloring, c: Color): set<NodeId> {
    set n | n in color && color[n] == c
  }

  /** Until the first error, grey means "being explored" (the calls that have not returned) and black
      means "explored in full". */
  ghost predicate Explores(edges: seq<Edge>, color: Coloring, chain: seq<NodeId>) {
    && Linked(edges, chain)
    && (forall n :: n in Colored(color, Grey) <==> n in chain)
    && exists order :: FinishedIn(edges, color, order)
  }

  ghost predicate FinishedIn(edges: seq<Edge>, color: Coloring, order: seq<NodeId>) {
    Postorder(edges, order) && forall n :: n in Colored(color, Black) <==> n in order
  }

  /** From one colouring to a later one: white nodes only disappear, black nodes stay black. */
  ghost predicate Advances(from: Coloring, to: Coloring) {
    Colored(to, White) <= Colored(from, White) && Colored(from, Black) <= Colored(to, Black)
  }

  lemma Enter(edges: seq<Edge>, color: Coloring, chain: seq<NodeId>, n: NodeId)
    requires n in color && color[n] == White
    ensures Advances(color, color[n := Grey])
    ensures Colored(color[n := Grey], White) < Colored(color, White)
    ensures Explores(edges, color, chain) && Follows(edges, chain, n) ==>
              Explores(edges, color[n := Grey], chain + [n])
  {
    var next := color[n := Grey];
    assert n in Colored(color, White) && n !in Colored(next, White);
    if Explores(edges, color, chain) && Follows(edges, chain, n) {
      assert n !in Colored(color, Grey);
      assert (chain + [n])[..|chain|] == chain;
      var order :| FinishedIn(edges, color, order);
      assert FinishedIn(edges, next, order);
    }
  }

  /** Node n turns black when every successor is black. */
  lemma Leave(edges: seq<Edge>, color: Coloring, chain: seq<NodeId>, n: NodeId)
    requires n in color
    ensures Advances(color, color[n := Black]) && n in Colored(color[n := Black], Black)
    ensures Explores(edges, color, chain + [n]) && SuccessorsBlack(color, Outgoing(edges, n)) ==>
              Explores(edges, color[n := Black], chain)
  {
    var next := color[n := Black];
    if Explores(edges, color, chain + [n]) && SuccessorsBlack(color, Outgoing(edges, n)) {
      var grey := chain + [n];
      assert grey[|chain|] == n && grey[..|chain|] == chain;
      assert forall m :: m in chain ==> m in grey && m != n;
      assert forall m :: m in grey ==> m in chain || m == n;
      var order :| FinishedIn(edges, color, order);
      var longer := order + [n];
      assert longer[..|order|] == order && longer[|order|] == n;
      assert n in grey && n in Colored(color, Grey) && n !in Colored(color, Black) && n !in order;
      assert forall m :: m in longer <==> m in order || m == n;
      assert Colored(next, Black) == Colored(color, Black) + {n};
      forall e | e in edges && e.source == n ensures e.target in order {
        assert e in Outgoing(edges, n);
      }
      assert FinishedIn(edges, next, longer);
    }
  }

  ghost predicate SuccessorsBlack(color: Coloring, out: seq<Edge>) {
    forall e :: e in out ==> e.target in Colored(color, Black)
  }

  lemma MoreSuccessorsBlack(before: Coloring, color: Coloring, out: seq<Edge>, i: nat)
    requires i < |out| && SuccessorsBlack(before, out[..i]) && Advances(before, color)
    requires out[i].target in Colored(color, Black)
    ensures SuccessorsBlack(color, out[..i + 1])
  {
    assert out[..i + 1] == out[..i] + [out[i]];
  }

  lemma MeetsGrey(edges: seq<Edge>, color: Coloring, chain: seq<NodeId>, e: Edge)
    requires Explores(edges, color, chain) && chain != []
    requires e in edges && e.source == chain[|chain| - 1] && e.target in color && color[e.target] == Grey
    ensures OnCycle(edges, e.source, e.target)
  {
    assert e.target in Colored(color, Grey);
    var k :| 0 <= k < |chain| && chain[k] == e.target;
    ChainIsPath(edges, chain, k);
  }

  lemma AlreadyBlack(color: Coloring, n: NodeId)
    requires n in color && color[n] == Black
    ensures n in Colored(color, Black) && Advances(color, color)
  {
  }

  lemma FollowsEdge(edges: seq<Edge>, chain: seq<NodeId>, e: Edge)
    requires e in edges && chain != [] && chain[|chain| - 1] == e.source
    ensures Follows(edges, chain, e.target)
  {
  }

  /** Until the first error the colours say what has been explored; the first error is genuine. */
  ghost predicate Sound(edges: seq<Edge>, color: Coloring, chain: seq<NodeId>, errors: seq<CycleError>) {
    if errors == [] then Explores(edges, color, chain)
    else OnCycle(edges, errors[0].from, errors[0].to)
  }

  class CycleDetector {
    const edges: seq<Edge>
    const adjacency: Adjacency
    const ids: set<NodeId>
    var color: Coloring
    var errors: seq<CycleError>
    ghost var chain: seq<NodeId>  // the calls of Dfs that have not returned, outermost first

    ghost predicate Valid()
      reads this
    {
      && Represents(adjacency, edges)
      && Within(edges, ids)
      && color.Keys == ids
      && Sound(edges, color, chain, errors)
    }

    constructor (nodes: seq<NodeId>, edges: seq<Edge>, adjacency: Adjacency)
      requires Represents(adjacency, edges) && Within(edges, set n | n in nodes)
      ensures Valid() && errors == [] && chain == [] && this.edges == edges && ids == set n | n in nodes
    {
      this.edges := edges;
      this.adjacency := adjacency;
      ids := set n | n in nodes;
      color := map n | n in nodes :: White;
      errors, chain := [], [];
      new;
      assert FinishedIn(edges, color, []);
    }

    method Dfs(n: NodeId)
      requires Valid() && n in color && color[n] == White && Follows(edges, chain, n)
      modifies this
      ensures Valid() && chain == old(chain)
      ensures Advances(old(color), color) && Colored(color, White) < Colored(old(color), White)
      ensures old(errors) != [] ==> errors != []
      ensures errors == [] ==> n in Colored(color, Black)
      decreases Colored(color, White)
    {
      hide Explores, Represents, OnCycle, Within, Colored, Follows;
      ghost var outer := chain;
      Enter(edges, color, chain, n);
      color, chain := color[n := Grey], chain + [n];
      var out := Successors(adjacency, n);
      Represented(adjacency, edges, n);
      var i := 0;
      while i < |out|
        invariant 0 <= i <= |out|
        invariant Valid() && chain == outer + [n]
        invariant Advances(old(color), color) && Colored(color, White) < Colored(old(color), White)
        invariant old(errors) != [] ==> errors != []
        invariant errors == [] ==> SuccessorsBlack(color, out[..i])
      {
        var target := out[i].target;
        Inside(edges, ids, out[i]);
        ghost var before := color;
        if color[target] == Grey {
          if errors == [] {
            MeetsGrey(edges, color, chain, out[i]);
          }
          errors, chain := errors + [CycleError(n, target)], outer;
          return;
        }
        if color[target] == White {
          FollowsEdge(edges, chain, out[i]);
          Dfs(target);
        } else {
          AlreadyBlack(color, target);
        }
        if errors == [] {
          MoreSuccessorsBlack(before, color, out, i);
        }
        i := i + 1;
      }
      assert out[..|out|] == out;
      Leave(edges, color, outer, n);
      color, chain := color[n := Black], outer;
    }
  }

  lemma AllBlackIsAcyclic(edges: seq<Edge>, color: Coloring, ids: seq<NodeId>)
    requires Explores(edges, color, []) && Within(edges, set n | n in ids)
    requires forall n :: n in ids ==> n in Colored(color, Black)
    ensures !HasCycle(edges)
  {
    if HasCycle(edges) {
      var n, p: Path :| p != [] && IsPath(edges, n, p, n);
      assert p[|p| - 1].target == n;
      var order :| FinishedIn(edges, color, order);
      NoCycleThrough(edges, order, n, p);
    }
  }

  /** Reports an error exactly when the graph has a cycle; the first error names an edge on one. */
  method DetectCycles(ids: seq<NodeId>, edges: seq<Edge>) returns (errors: seq<CycleError>)
    requires Within(edges, set n | n in ids)
    ensures errors != [] <==> HasCycle(edges)
    ensures errors != [] ==> OnCycle(edges, errors[0].from, errors[0].to)
  {
    var adjacency := BuildAdjacency(edges);
    var detector := new CycleDetector(ids, edges, adjacency);
    for i := 0 to |ids|
      invariant detector.Valid() && detector.chain == []
      invariant detector.errors == [] ==> forall k :: 0 <= k < i ==> ids[k] in Colored(detector.color, Black)
    {
      if detector.color[ids[i]] == White {
        detector.Dfs(ids[i]);
      } else if detector.errors == [] {
        assert ids[i] !in Colored(detector.color, Grey);
      }
    }
    errors := detector.errors;
    if errors == [] {
      AllBlackIsAcyclic(edges, detector.color, ids);
    } else {
      CycleFromEdge(edges, errors[0].from, errors[0].to);
    }
  }
}
