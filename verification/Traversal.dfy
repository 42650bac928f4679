/** What the breadth-first traversal computes: every reachable node once, by a shortest path. */
module Traversal {
  import opened Graphs
  import opened Workflows
  import opened Compiler
  import opened Utils

  /** The context a walk along p from the trigger accumulates. */
  function ContextOf(kinds: Kinds, p: Path): Context {
    if p == [] then START
    else
      var last := p[|p| - 1];
      Advance(KindOf(kinds, last.source), last.handle, ContextOf(kinds, p[..|p| - 1]))
  }

  /** Every id in use is a node of a known type. */
  ghost predicate WellKinded(kinds: Kinds, edges: seq<Edge>, start: NodeId) {
    && Within(edges, kinds.Keys)
    && start in kinds
    && forall n :: n in kinds ==> !kinds[n].UnknownNode?
  }

  ghost predicate IsShortest(edges: seq<Edge>, start: NodeId, p: Path, n: NodeId) {
    IsPath(edges, start, p, n) && forall q :: IsPath(edges, start, q, n) ==> |p| <= |q|
  }

  /** `found` gives the path by which each visited node was reached, `paths` that of each queue entry. */
  ghost predicate Tracks(kinds: Kinds, edges: seq<Edge>, start: NodeId, queue: seq<QueueEntry>, paths: seq<Path>) {
    && |paths| == |queue|
    && forall i :: 0 <= i < |paths| ==> Tracked(kinds, edges, start, queue[i], paths[i])
  }

  ghost predicate Tracked(kinds: Kinds, edges: seq<Edge>, start: NodeId, entry: QueueEntry, p: Path) {
    IsPath(edges, start, p, entry.node) && ContextOf(kinds, p) == entry.context
  }

  /** Queue entries are ordered by path length and span at most two lengths. */
  ghost predicate Layered(paths: seq<Path>) {
    && (forall i, j :: 0 <= i < j < |paths| ==> |paths[i]| <= |paths[j]|)
    && (forall i :: 0 <= i < |paths| ==> |paths[i]| <= |paths[0]| + 1)
  }

  type Found = map<NodeId, Path>

  ghost predicate FoundShortest(edges: seq<Edge>, start: NodeId, found: Found, paths: seq<Path>) {
    forall n :: n in found ==> IsShortest(edges, start, found[n], n) && (paths != [] ==> |found[n]| <= |paths[0]|)
  }

  /** Node n is visited, or queued, by a path of at most k edges. */
  ghost predicate Covered(found: Found, queue: seq<QueueEntry>, paths: seq<Path>, n: NodeId, k: int)
    requires |paths| == |queue|
  {
    (n in found && |found[n]| <= k) || exists i :: 0 <= i < |queue| && queue[i].node == n && |paths[i]| <= k
  }

  ghost predicate Frontier(edges: seq<Edge>, start: NodeId, found: Found, queue: seq<QueueEntry>, paths: seq<Path>)
    requires |paths| == |queue|
  {
    && Covered(found, queue, paths, start, 0)
    && forall e :: e in edges && e.source in found ==> Covered(found, queue, paths, e.target, |found[e.source]| + 1)
  }

  ghost predicate Bfs(kinds: Kinds, edges: seq<Edge>, start: NodeId, found: Found, queue: seq<QueueEntry>,
                      paths: seq<Path>)
  {
    && Tracks(kinds, edges, start, queue, paths)
    && Layered(paths)
    && FoundShortest(edges, start, found, paths)
    && Frontier(edges, start, found, queue, paths)
  }

  /** Every path leads to a node covered within its length. */
  lemma {:induction false} PathsCovered(edges: seq<Edge>, start: NodeId, found: Found, queue: seq<QueueEntry>,
                                        paths: seq<Path>, p: Path, n: NodeId)
    requires |paths| == |queue| && Frontier(edges, start, found, queue, paths) && IsPath(edges, start, p, n)
    ensures Covered(found, queue, paths, n, |p|) || exists i :: 0 <= i < |queue| && |paths[i]| <= |p|
    decreases |p|
  {
    if p != [] {
      var last := p[|p| - 1];
      PathsCovered(edges, start, found, queue, paths, p[..|p| - 1], last.source);
      if last.source in found && |found[last.source]| <= |p| - 1 {
        assert Covered(found, queue, paths, last.target, |found[last.source]| + 1);
      }
    }
  }

  /** The front entry of an unvisited node carries a shortest path to it. */
  lemma FrontIsShortest(kinds: Kinds, edges: seq<Edge>, start: NodeId, found: Found, queue: seq<QueueEntry>,
                        paths: seq<Path>)
    requires Bfs(kinds, edges, start, found, queue, paths) && queue != [] && queue[0].node !in found
    ensures IsShortest(edges, start, paths[0], queue[0].node)
  {
    assert Tracked(kinds, edges, start, queue[0], paths[0]);
    forall q | IsPath(edges, start, q, queue[0].node) ensures |paths[0]| <= |q| {
      PathsCovered(edges, start, found, queue, paths, q, queue[0].node);
      var i :| 0 <= i < |queue| && |paths[i]| <= |q|;
      assert i == 0 || |paths[0]| <= |paths[i]|;
    }
  }

  lemma CoveredAfterSkip(found: Found, queue: seq<QueueEntry>, paths: seq<Path>, n: NodeId, k: int)
    requires |paths| == |queue| && queue != [] && queue[0].node in found && |found[queue[0].node]| <= |paths[0]|
    requires Covered(found, queue, paths, n, k)
    ensures Covered(found, queue[1..], paths[1..], n, k)
  {
    if !(n in found && |found[n]| <= k) {
      var i :| 0 <= i < |queue| && queue[i].node == n && |paths[i]| <= k;
      assert i > 0 ==> queue[1..][i - 1] == queue[i] && paths[1..][i - 1] == paths[i];
    }
  }

  lemma Skip(kinds: Kinds, edges: seq<Edge>, start: NodeId, found: Found, queue: seq<QueueEntry>, paths: seq<Path>)
    requires Bfs(kinds, edges, start, found, queue, paths) && queue != [] && queue[0].node in found
    ensures Bfs(kinds, edges, start, found, queue[1..], paths[1..])
  {
    CoveredAfterSkip(found, queue, paths, start, 0);
    forall e | e in edges && e.source in found
      ensures Covered(found, queue[1..], paths[1..], e.target, |found[e.source]| + 1)
    {
      CoveredAfterSkip(found, queue, paths, e.target, |found[e.source]| + 1);
    }
    assert |paths| > 1 ==> |paths[0]| <= |paths[1]|;
  }

  ghost function Extend(p: Path, out: seq<Edge>): (extended: seq<Path>)
    ensures |extended| == |out| && forall i :: 0 <= i < |out| ==> extended[i] == p + [out[i]]
  {
    seq(|out|, i requires 0 <= i < |out| => p + [out[i]])
  }

  lemma ChildTracked(kinds: Kinds, edges: seq<Edge>, start: NodeId, entry: QueueEntry, p: Path, e: Edge)
    requires Tracked(kinds, edges, start, entry, p) && e in edges && e.source == entry.node && e.source in kinds
    ensures Tracked(kinds, edges, start,
                    QueueEntry(e.target, Advance(kinds[e.source], e.handle, entry.context)), p + [e])
  {
    StepTo(edges, start, p, e);
    assert (p + [e])[..|p|] == p;
  }

  lemma CoveredAfterVisit(found: Found, queue: seq<QueueEntry>, paths: seq<Path>, more: seq<QueueEntry>,
                          morePaths: seq<Path>, n: NodeId, k: int)
    requires |paths| == |queue| && |more| == |morePaths| && queue != [] && queue[0].node !in found
    requires Covered(found, queue, paths, n, k)
    ensures Covered(found[queue[0].node := paths[0]], queue[1..] + more, paths[1..] + morePaths, n, k)
  {
    if !(n in found && |found[n]| <= k) {
      var i :| 0 <= i < |queue| && queue[i].node == n && |paths[i]| <= k;
      assert i > 0 ==> (queue[1..] + more)[i - 1] == queue[i] && (paths[1..] + morePaths)[i - 1] == paths[i];
    }
  }

  lemma CoveredByQueue(found: Found, queue: seq<QueueEntry>, paths: seq<Path>, i: nat, k: int)
    requires |paths| == |queue| && i < |queue| && |paths[i]| <= k
    ensures Covered(found, queue, paths, queue[i].node, k)
  {
  }

  ghost predicate Leads(entries: seq<QueueEntry>, out: seq<Edge>) {
    |entries| == |out| && forall i :: 0 <= i < |out| ==> entries[i].node == out[i].target
  }

  lemma NewEdgeCovered(found: Found, rest: seq<QueueEntry>, restPaths: seq<Path>, more: seq<QueueEntry>, p: Path,
                       out: seq<Edge>, e: Edge)
    requires |restPaths| == |rest| && Leads(more, out) && e in out
    ensures Covered(found, rest + more, restPaths + Extend(p, out), e.target, |p| + 1)
  {
    var i :| 0 <= i < |out| && out[i] == e;
    assert (rest + more)[|rest| + i] == more[i];
    assert (restPaths + Extend(p, out))[|rest| + i] == Extend(p, out)[i];
    CoveredByQueue(found, rest + more, restPaths + Extend(p, out), |rest| + i, |p| + 1);
  }

  lemma VisitFrontier(edges: seq<Edge>, start: NodeId, found: Found, queue: seq<QueueEntry>, paths: seq<Path>,
                      more: seq<QueueEntry>)
    requires |paths| == |queue| && queue != [] && queue[0].node !in found
    requires Frontier(edges, start, found, queue, paths) && Leads(more, Outgoing(edges, queue[0].node))
    ensures var out := Outgoing(edges, queue[0].node);
            Frontier(edges, start, found[queue[0].node := paths[0]], queue[1..] + more,
                     paths[1..] + Extend(paths[0], out))
  {
    hide Covered, Leads;
    var n, p := queue[0].node, paths[0];
    var out := Outgoing(edges, n);
    assert |more| == |out| by { LeadsLength(more, out); }
    var found', queue', paths' := found[n := p], queue[1..] + more, paths[1..] + Extend(p, out);
    CoveredAfterVisit(found, queue, paths, more, Extend(p, out), start, 0);
    forall e | e in edges && e.source in found'
      ensures Covered(found', queue', paths', e.target, |found'[e.source]| + 1)
    {
      if e.source == n {
        NewEdgeCovered(found', queue[1..], paths[1..], more, p, out, e);
      } else {
        CoveredAfterVisit(found, queue, paths, more, Extend(p, out), e.target, |found[e.source]| + 1);
      }
    }
  }

  lemma LeadsLength(entries: seq<QueueEntry>, out: seq<Edge>)
    requires Leads(entries, out)
    ensures |entries| == |out|
  {
  }

  lemma VisitLayered(paths: seq<Path>, out: seq<Edge>)
    requires Layered(paths) && paths != []
    ensures Layered(paths[1..] + Extend(paths[0], out))
  {
    var rest, more := paths[1..], Extend(paths[0], out);
    var paths' := rest + more;
    forall i | 0 <= i < |paths'|
      ensures |paths[0]| <= |paths'[i]| <= |paths[0]| + 1
      ensures i >= |rest| ==> |paths'[i]| == |paths[0]| + 1
      ensures i < |rest| ==> paths'[i] == paths[i + 1]
    {
      if i < |rest| {
        assert paths'[i] == paths[i + 1];
      } else {
        assert paths'[i] == more[i - |rest|];
      }
    }
    forall i, j | 0 <= i < j < |paths'| ensures |paths'[i]| <= |paths'[j]| {
      if j < |rest| {
        assert paths'[i] == paths[i + 1] && paths'[j] == paths[j + 1];
      }
    }
  }

  lemma VisitTracks(kinds: Kinds, edges: seq<Edge>, start: NodeId, queue: seq<QueueEntry>, paths: seq<Path>)
    requires Tracks(kinds, edges, start, queue, paths) && queue != []
    requires queue[0].node in kinds && !kinds[queue[0].node].UnknownNode?
    ensures var out := Outgoing(edges, queue[0].node);
            Tracks(kinds, edges, start, queue[1..] + Children(kinds[queue[0].node], out, queue[0].context),
                   paths[1..] + Extend(paths[0], out))
  {
    var n, c := queue[0].node, queue[0].context;
    var out := Outgoing(edges, n);
    var queue', paths' := queue[1..] + Children(kinds[n], out, c), paths[1..] + Extend(paths[0], out);
    forall i | 0 <= i < |paths'| ensures Tracked(kinds, edges, start, queue'[i], paths'[i]) {
      if i < |paths| - 1 {
        assert queue'[i] == queue[i + 1] && paths'[i] == paths[i + 1];
      } else {
        var e := out[i - |paths| + 1];
        assert e in out;
        assert Tracked(kinds, edges, start, queue[0], paths[0]);
        ChildTracked(kinds, edges, start, queue[0], paths[0], e);
      }
    }
  }

  lemma VisitShortest(edges: seq<Edge>, start: NodeId, found: Found, paths: seq<Path>, n: NodeId, out: seq<Edge>)
    requires FoundShortest(edges, start, found, paths) && Layered(paths)
    requires paths != [] && IsShortest(edges, start, paths[0], n)
    ensures FoundShortest(edges, start, found[n := paths[0]], paths[1..] + Extend(paths[0], out))
  {
    hide IsShortest;
    var paths' := paths[1..] + Extend(paths[0], out);
    if paths' != [] {
      if |paths| > 1 {
        assert paths'[0] == paths[1];
      } else {
        assert paths'[0] == Extend(paths[0], out)[0];
      }
    }
  }

  lemma Visit(kinds: Kinds, edges: seq<Edge>, start: NodeId, found: Found, queue: seq<QueueEntry>, paths: seq<Path>)
    requires Bfs(kinds, edges, start, found, queue, paths) && queue != [] && queue[0].node !in found
    requires queue[0].node in kinds && !kinds[queue[0].node].UnknownNode?
    ensures var out := Outgoing(edges, queue[0].node);
            Bfs(kinds, edges, start, found[queue[0].node := paths[0]],
                queue[1..] + Children(kinds[queue[0].node], out, queue[0].context),
                paths[1..] + Extend(paths[0], out))
  {
    hide Frontier, IsShortest, FoundShortest, Layered, Extend, Tracked, Outgoing;
    var n := queue[0].node;
    var out := Outgoing(edges, n);
    FrontIsShortest(kinds, edges, start, found, queue, paths);
    VisitTracks(kinds, edges, start, queue, paths);
    VisitLayered(paths, out);
    VisitFrontier(edges, start, found, queue, paths, Children(kinds[n], out, queue[0].context));
    VisitShortest(edges, start, found, paths, n, out);
  }

  /** The actions emitted between two stages of a traversal: exactly the action nodes found in
      between, each once, numbered from `order`, each with the context of the path it was found by. */
  ghost predicate Emits(kinds: Kinds, before: Found, after: Found, actions: seq<CompiledAction>, order: nat) {
    && (forall i :: 0 <= i < |actions| ==> actions[i].order == order + i && Emitted(kinds, before, after, actions[i]))
    && (forall i, j :: 0 <= i < j < |actions| ==> actions[i].nodeId != actions[j].nodeId)
    && (forall n :: n in after && n !in before && KindOf(kinds, n).ActionNode? ==> Listed(actions, n))
  }

  ghost predicate Emitted(kinds: Kinds, before: Found, after: Found, a: CompiledAction) {
    && a.nodeId in after && a.nodeId !in before
    && KindOf(kinds, a.nodeId).ActionNode?
    && a == ActionFor(KindOf(kinds, a.nodeId), a.nodeId, ContextOf(kinds, after[a.nodeId]), a.order)
  }

  ghost predicate Listed(actions: seq<CompiledAction>, n: NodeId) {
    exists i :: 0 <= i < |actions| && actions[i].nodeId == n
  }

  ghost predicate Extends(before: Found, after: Found) {
    forall n :: n in before ==> n in after && after[n] == before[n]
  }

  lemma EmitsAfterVisit(kinds: Kinds, before: Found, n: NodeId, p: Path, after: Found, c: Context,
                        actions: seq<CompiledAction>, order: nat)
    requires n !in before && n in kinds && ContextOf(kinds, p) == c
    requires Extends(before[n := p], after)
    requires var emits := kinds[n].ActionNode?;
             Emits(kinds, before[n := p], after, actions, if emits then order + 1 else order)
    ensures Extends(before, after)
    ensures var head := if kinds[n].ActionNode?
                        then [ActionFor(kinds[n], n, c, order)] else [];
            Emits(kinds, before, after, head + actions, order)
  {
    hide ContextOf;
    var head := if kinds[n].ActionNode?
      then [ActionFor(kinds[n], n, c, order)] else [];
    var all := head + actions;
    var found := before[n := p];
    assert n in found && after[n] == p;
    assert Extends(before, after) by {
      forall m | m in before ensures m in after && after[m] == before[m] {
        assert m in found;
      }
    }
    forall i | 0 <= i < |all|
      ensures all[i].order == order + i && Emitted(kinds, before, after, all[i])
      ensures i >= |head| ==> all[i] == actions[i - |head|] && all[i].nodeId != n
    {
      if i >= |head| {
        assert all[i] == actions[i - |head|];
        assert Emitted(kinds, found, after, actions[i - |head|]);
      }
    }
    forall m | m in after && m !in before && KindOf(kinds, m).ActionNode? ensures Listed(all, m) {
      if m == n {
        assert all[0].nodeId == n;
      } else {
        assert Listed(actions, m);
        var i :| 0 <= i < |actions| && actions[i].nodeId == m;
        assert all[i + |head|] == actions[i];
      }
    }
  }

  lemma EmitsNothing(kinds: Kinds, found: Found, order: nat)
    ensures Emits(kinds, found, found, [], order)
  {
  }

  /** From any stage, the traversal ends with every reachable node found by a shortest path. */
  lemma {:induction false} RunTraversal(kinds: Kinds, edges: seq<Edge>, start: NodeId, found: Found,
                                        queue: seq<QueueEntry>, paths: seq<Path>, order: nat) returns (final: Found)
    requires WellKinded(kinds, edges, start) && Bfs(kinds, edges, start, found, queue, paths)
    ensures Extends(found, final)
    ensures forall n :: n in final <==> Reaches(edges, start, n)
    ensures forall n :: n in final ==> IsShortest(edges, start, final[n], n)
    ensures Emits(kinds, found, final, Traverse(kinds, edges, queue, found.Keys, order), order)
    ensures final.Keys == VisitedFrom(kinds, edges, queue, found.Keys)
    decreases kinds.Keys - found.Keys, |queue|
  {
    hide IsShortest, Layered, Frontier, IsPath, ActionFor, ActionConfig, KindOf, Emits;
    if queue == [] {
      final := found;
      EmitsNothing(kinds, found, order);
      Finished(kinds, edges, start, found, paths);
    } else {
      var n, c := queue[0].node, queue[0].context;
      if n in found {
        Skip(kinds, edges, start, found, queue, paths);
        final := RunTraversal(kinds, edges, start, found, queue[1..], paths[1..], order);
      } else {
        FrontKnown(kinds, edges, start, queue, paths);
        Visit(kinds, edges, start, found, queue, paths);
        var out := Outgoing(edges, n);
        var found' := found[n := paths[0]];
        assert found'.Keys == found.Keys + {n};
        assert n in kinds.Keys - found.Keys;
        final := RunTraversal(kinds, edges, start, found', queue[1..] + Children(kinds[n], out, c),
                              paths[1..] + Extend(paths[0], out), if kinds[n].ActionNode? then order + 1 else order);
        var tail := Traverse(kinds, edges, queue[1..] + Children(kinds[n], out, c), found'.Keys,
                             if kinds[n].ActionNode? then order + 1 else order);
        EmitsAfterVisit(kinds, found, n, paths[0], final, c, tail, order);
        assert [] + tail == tail;
      }
    }
  }

  lemma FrontKnown(kinds: Kinds, edges: seq<Edge>, start: NodeId, queue: seq<QueueEntry>, paths: seq<Path>)
    requires WellKinded(kinds, edges, start) && Tracks(kinds, edges, start, queue, paths) && queue != []
    ensures queue[0].node in kinds && !kinds[queue[0].node].UnknownNode?
    ensures ContextOf(kinds, paths[0]) == queue[0].context
  {
    assert Tracked(kinds, edges, start, queue[0], paths[0]);
  }

  lemma Finished(kinds: Kinds, edges: seq<Edge>, start: NodeId, found: Found, paths: seq<Path>)
    requires Bfs(kinds, edges, start, found, [], paths)
    ensures forall n :: n in found <==> Reaches(edges, start, n)
    ensures forall n :: n in found ==> IsShortest(edges, start, found[n], n)
  {
    forall n ensures n in found <==> Reaches(edges, start, n) {
      if n in found {
        assert IsPath(edges, start, found[n], n);
      }
      if Reaches(edges, start, n) {
        var p :| IsPath(edges, start, p, n);
        PathsCovered(edges, start, found, [], paths, p, n);
        assert Covered(found, [], paths, n, |p|);
      }
    }
  }

  /** The traversal from the trigger: exactly the reachable action nodes, each once, numbered 0..n-1,
      each with the delay and conditions of one path, which has the fewest edges of all. */
  lemma TraversalIsExact(kinds: Kinds, edges: seq<Edge>, start: NodeId) returns (found: Found)
    requires WellKinded(kinds, edges, start)
    ensures forall n :: n in found <==> Reaches(edges, start, n)
    ensures forall n :: n in found ==> IsShortest(edges, start, found[n], n)
    ensures Emits(kinds, map[], found, Traverse(kinds, edges, [QueueEntry(start, START)], {}, 0), 0)
    ensures found.Keys == VisitedFrom(kinds, edges, [QueueEntry(start, START)], {})
  {
    hide IsShortest, Bfs, Emits, Reaches;
    Initially(kinds, edges, start);
    var none: Found := map[];
    assert none.Keys == {};
    found := RunTraversal(kinds, edges, start, none, [QueueEntry(start, START)], [[]], 0);
  }

  lemma Initially(kinds: Kinds, edges: seq<Edge>, start: NodeId)
    ensures Bfs(kinds, edges, start, map[], [QueueEntry(start, START)], [[]])
  {
    var queue, paths: seq<Path> := [QueueEntry(start, START)], [[]];
    assert Tracked(kinds, edges, start, queue[0], paths[0]);
    CoveredByQueue(map[], queue, paths, 0, 0);
  }
}
