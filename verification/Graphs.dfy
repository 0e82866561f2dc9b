/** Kahn's topological sort and depth-first cycle search, as the dependency resolver runs them. */
module Graphs {
  import opened Types
  import opened Sums

  // ---------------------------------------------------------------- graphs

  /** Adjacency lists; an edge runs from a dependency to the workload that needs it, and may be repeated. */
  type Graph<T> = map<T, seq<T>>

  ghost predicate TargetsAreKeys<T(!new)>(g: Graph<T>) {
    forall u, i :: u in g && 0 <= i < |g[u]| ==> g[u][i] in g
  }

  predicate Edge<T(==)>(g: Graph<T>, u: T, v: T) {
    u in g && v in g[u]
  }

  ghost predicate IsPath<T(!new)>(g: Graph<T>, p: seq<T>) {
    forall i, j :: 0 <= i < j < |p| && j == i + 1 ==> Edge(g, p[i], p[j])
  }

  ghost predicate IsCycle<T(!new)>(g: Graph<T>, c: seq<T>) {
    |c| >= 2 && c[0] == c[|c| - 1] && IsPath(g, c)
  }

  /** A cycle that visits no node twice before closing. */
  ghost predicate IsSimpleCycle<T(!new)>(g: Graph<T>, c: seq<T>) {
    IsCycle(g, c) && Distinct(c[..|c| - 1])
  }

  ghost predicate Cyclic<T(!new)>(g: Graph<T>) {
    exists c :: IsCycle(g, c)
  }

  /** Every key once, and every edge pointing forward. */
  ghost predicate IsTopologicalOrder<T(!new)>(g: Graph<T>, order: seq<T>) {
    Distinct(order) && Elems(order) == g.Keys && SourcesFirst(g, order)
  }

  ghost predicate SourcesFirst<T(!new)>(g: Graph<T>, order: seq<T>) {
    forall j, u :: 0 <= j < |order| && Edge(g, u, order[j]) ==> u in order[..j]
  }

  /** Every edge out of `done[j]` leads to an earlier entry: the order in which a depth-first search finishes nodes. */
  ghost predicate TargetsFirst<T(!new)>(g: Graph<T>, done: seq<T>) {
    forall j, v :: 0 <= j < |done| && Edge(g, done[j], v) ==> v in done[..j]
  }

  // ---------------------------------------------------------------- acyclicity by ranking

  /** A rank that rises along every edge rises along every path by at least the path's length. */
  lemma {:induction false} RankRises<T(!new)>(g: Graph<T>, rank: T -> int, p: seq<T>)
    requires |p| > 0 && IsPath(g, p)
    requires forall u, v :: Edge(g, u, v) ==> rank(u) < rank(v)
    ensures rank(p[0]) + |p| - 1 <= rank(p[|p| - 1])
  {
    if |p| > 1 {
      var q := p[..|p| - 1];
      assert forall i :: 0 <= i < |q| - 1 ==> Edge(g, q[i], q[i + 1]) by {
        forall i | 0 <= i < |q| - 1
          ensures Edge(g, q[i], q[i + 1])
        {
          assert Edge(g, p[i], p[i + 1]);
        }
      }
      RankRises(g, rank, q);
      assert Edge(g, p[|p| - 2], p[|p| - 2 + 1]);
    }
  }

  lemma RankedIsAcyclic<T(!new)>(g: Graph<T>, rank: T -> int)
    requires forall u, v :: Edge(g, u, v) ==> rank(u) < rank(v)
    ensures !Cyclic(g)
  {
    forall c | IsCycle(g, c)
      ensures false
    {
      RankRises(g, rank, c);
    }
  }

  ghost function Position<T(!new)>(order: seq<T>, x: T): (i: int)
    ensures x in order ==> 0 <= i < |order| && order[i] == x
  {
    if x in order then var i :| 0 <= i < |order| && order[i] == x; i else -1
  }

  lemma OrderIsAcyclic<T(!new)>(g: Graph<T>, order: seq<T>)
    requires TargetsAreKeys(g) && IsTopologicalOrder(g, order)
    ensures !Cyclic(g)
  {
    var rank := (x: T) => Position(order, x);
    forall u, v | Edge(g, u, v)
      ensures rank(u) < rank(v)
    {
      assert v in Elems(order);
      assert u in order[..Position(order, v)];
      assert u in order;
    }
    RankedIsAcyclic(g, rank);
  }

  lemma FinishOrderIsAcyclic<T(!new)>(g: Graph<T>, done: seq<T>)
    requires Distinct(done) && Elems(done) == g.Keys && TargetsFirst(g, done)
    ensures !Cyclic(g)
  {
    var rank := (x: T) => -Position(done, x);
    forall u, v | Edge(g, u, v)
      ensures rank(u) < rank(v)
    {
      assert u in Elems(done);
      assert v in done[..Position(done, u)];
      assert v in done;
    }
    RankedIsAcyclic(g, rank);
  }

  // ---------------------------------------------------------------- stuck means cyclic

  ghost predicate HasSourceIn<T(!new)>(g: Graph<T>, nodes: set<T>, v: T) {
    exists u :: u in nodes && Edge(g, u, v)
  }

  ghost predicate EachHasSourceIn<T(!new)>(g: Graph<T>, nodes: set<T>) {
    forall v {:trigger HasSourceIn(g, nodes, v)} :: v in nodes ==> HasSourceIn(g, nodes, v)
  }

  lemma {:induction false} WalkBackward<T(!new)>(g: Graph<T>, nodes: set<T>, n: nat) returns (p: seq<T>)
    requires nodes != {} && EachHasSourceIn(g, nodes)
    ensures |p| == n + 1 && Elems(p) <= nodes && IsPath(g, p)
  {
    if n == 0 {
      var v :| v in nodes;
      p := [v];
    } else {
      var q := WalkBackward(g, nodes, n - 1);
      assert q[0] in Elems(q);
      assert HasSourceIn(g, nodes, q[0]);
      var u :| u in nodes && Edge(g, u, q[0]);
      p := [u] + q;
      forall i | 0 <= i < |p| - 1
        ensures Edge(g, p[i], p[i + 1])
      {
        if i > 0 {
          assert Edge(g, q[i - 1], q[i - 1 + 1]);
        }
      }
    }
  }

  lemma StuckIsCyclic<T(!new)>(g: Graph<T>, nodes: set<T>)
    requires nodes != {} && EachHasSourceIn(g, nodes)
    ensures Cyclic(g)
  {
    var p := WalkBackward(g, nodes, |nodes|);
    var i, j := Repetition(p, nodes);
    var c := p[i..j + 1];
    forall k | 0 <= k < |c| - 1
      ensures Edge(g, c[k], c[k + 1])
    {
      assert Edge(g, p[i + k], p[i + k + 1]);
    }
    assert IsCycle(g, c);
  }

  // ---------------------------------------------------------------- in-degrees

  ghost function EdgesInto<T(!new)>(g: Graph<T>, v: T): T -> int {
    u => if u in g then Count(g[u], v) else 0
  }

  /** How many edges run into `v` from the given nodes, repeated edges counted. */
  ghost function InEdges<T(!new)>(g: Graph<T>, nodes: set<T>, v: T): int {
    Sum(nodes, EdgesInto(g, v))
  }

  /** The table holds, for every node, the number of edges into it from `nodes`. */
  ghost predicate CountsEdgesFrom<T(!new)>(g: Graph<T>, nodes: set<T>, inDegree: map<T, int>) {
    inDegree.Keys == g.Keys && forall v {:trigger inDegree[v]} :: v in g ==> inDegree[v] == InEdges(g, nodes, v)
  }

  lemma InEdgesRemove<T(!new)>(g: Graph<T>, nodes: set<T>, u: T, v: T)
    requires u in nodes && u in g
    ensures InEdges(g, nodes, v) == Count(g[u], v) + InEdges(g, nodes - {u}, v)
  {
    SumSplit(nodes, u, EdgesInto(g, v));
  }

  lemma InEdgesZero<T(!new)>(g: Graph<T>, nodes: set<T>, v: T)
    ensures 0 <= InEdges(g, nodes, v)
    ensures InEdges(g, nodes, v) == 0 <==> forall u :: u in nodes ==> !Edge(g, u, v)
  {
    var f := EdgesInto(g, v);
    SumMonotone({}, nodes, f);
    forall u | u in nodes && u in g
      ensures f(u) > 0 <==> Edge(g, u, v)
    {
      CountPositive(g[u], v);
    }
    if u :| u in nodes && Edge(g, u, v) {
      SumMonotone({}, nodes - {u}, f);
      SumSplit(nodes, u, f);
    } else {
      SumZero(nodes, f);
    }
  }

  method CountEdges<T(==, !new)>(edges: seq<T>, inDegree: map<T, int>) returns (inDegree': map<T, int>)
    requires forall i :: 0 <= i < |edges| ==> edges[i] in inDegree
    ensures inDegree'.Keys == inDegree.Keys
    ensures forall v {:trigger inDegree'[v]} :: v in inDegree ==> inDegree'[v] == inDegree[v] + Count(edges, v)
  {
    inDegree' := inDegree;
    for i := 0 to |edges|
      invariant inDegree'.Keys == inDegree.Keys
      invariant forall v :: v in inDegree ==> inDegree'[v] == inDegree[v] + Count(edges[..i], v)
    {
      forall v
        ensures Count(edges[..i + 1], v) == Count(edges[..i], v) + if edges[i] == v then 1 else 0
      {
        assert edges[..i + 1] == edges[..i] + [edges[i]];
        CountAppend(edges[..i], [edges[i]], v);
      }
      inDegree' := inDegree'[edges[i] := inDegree'[edges[i]] + 1];
    }
    assert edges[..|edges|] == edges;
  }

  lemma CountsNothing<T(!new)>(g: Graph<T>, inDegree: map<T, int>)
    requires inDegree == map n | n in g :: 0
    ensures CountsEdgesFrom(g, {}, inDegree)
  {
  }

  lemma CountsExtend<T(!new)>(g: Graph<T>, nodes: set<T>, u: T, before: map<T, int>, after: map<T, int>)
    requires CountsEdgesFrom(g, nodes, before) && u in g && u !in nodes && after.Keys == g.Keys
    requires forall v {:trigger after[v]} :: v in g ==> after[v] == before[v] + Count(g[u], v)
    ensures CountsEdgesFrom(g, nodes + {u}, after)
  {
    forall v | v in g
      ensures after[v] == InEdges(g, nodes + {u}, v)
    {
      assert before[v] == InEdges(g, nodes, v);
      InEdgesRemove(g, nodes + {u}, u, v);
      assert nodes + {u} - {u} == nodes;
    }
  }

  method ComputeInDegrees<T(==, !new)>(g: Graph<T>) returns (inDegree: map<T, int>)
    requires TargetsAreKeys(g)
    ensures CountsEdgesFrom(g, g.Keys, inDegree)
  {
    hide CountsEdgesFrom;
    inDegree := map n | n in g :: 0;
    var todo := g.Keys;
    ghost var seen: set<T> := {};
    CountsNothing(g, inDegree);
    while todo != {}
      invariant todo !! seen && todo + seen == g.Keys
      invariant inDegree.Keys == g.Keys && CountsEdgesFrom(g, seen, inDegree)
    {
      var u :| u in todo;
      var inDegree' := CountEdges(g[u], inDegree);
      CountsExtend(g, seen, u, inDegree, inDegree');
      inDegree, todo, seen := inDegree', todo - {u}, seen + {u};
    }
  }

  /** The nodes of in-degree zero, in an arbitrary order. */
  method ReadyNodes<T(==, !new)>(inDegree: map<T, int>) returns (queue: seq<T>)
    ensures Distinct(queue)
    ensures forall v :: v in queue <==> v in inDegree && inDegree[v] == 0
  {
    queue := [];
    var todo := inDegree.Keys;
    while todo != {}
      invariant todo <= inDegree.Keys && Distinct(queue)
      invariant forall v :: v in queue <==> v in inDegree && v !in todo && inDegree[v] == 0
    {
      var v :| v in todo;
      todo := todo - {v};
      if inDegree[v] == 0 {
        queue := queue + [v];
      }
    }
  }

  // ---------------------------------------------------------------- Kahn's algorithm

  /** Between two pops: in-degrees count the edges from nodes not yet popped, and the queue holds the rest at zero. */
  ghost predicate KahnState<T(!new)>(g: Graph<T>, inDegree: map<T, int>, queue: seq<T>, result: seq<T>) {
    && ReleaseState(g, inDegree, queue, result, [])
    && SourcesFirst(g, result)
  }

  /** While the last popped node's edges are being released, `left` are the edges still to release. */
  ghost predicate ReleaseState<T(!new)>(g: Graph<T>, inDegree: map<T, int>, queue: seq<T>, result: seq<T>,
                               left: seq<T>) {
    && inDegree.Keys == g.Keys
    && Distinct(result + queue)
    && (forall v :: v in g ==> inDegree[v] == InEdges(g, g.Keys - Elems(result), v) + Count(left, v))
    && (forall v :: v in g && inDegree[v] == 0 <==> v in result + queue)
  }

  lemma PopNode<T(!new)>(g: Graph<T>, inDegree: map<T, int>, queue: seq<T>, result: seq<T>)
    requires KahnState(g, inDegree, queue, result) && queue != []
    ensures queue[0] in g && |result| < |g|
    ensures ReleaseState(g, inDegree, queue[1..], result + [queue[0]], g[queue[0]])
    ensures SourcesFirst(g, result + [queue[0]])
  {
    hide InEdges, SourcesFirst;
    var node, rest, result', nodes := queue[0], queue[1..], result + [queue[0]], g.Keys - Elems(result);
    var all := result + queue;
    assert all[|result|] == node && all == result' + rest;
    assert all[..|result|] == result;
    assert node in all && node !in result && Distinct(result);
    assert forall v :: v in result ==> v in all;
    assert Elems(result) <= g.Keys - {node};
    DistinctBound(result, g.Keys - {node});
    assert nodes - {node} == g.Keys - Elems(result');
    forall v | v in g
      ensures inDegree[v] == InEdges(g, g.Keys - Elems(result'), v) + Count(g[node], v)
    {
      InEdgesRemove(g, nodes, node, v);
    }
    InEdgesZero(g, nodes, node);
    ExtendOrder(g, result, node);
  }

  lemma ExtendOrder<T(!new)>(g: Graph<T>, result: seq<T>, node: T)
    requires SourcesFirst(g, result)
    requires forall u :: u in g.Keys - Elems(result) ==> !Edge(g, u, node)
    ensures SourcesFirst(g, result + [node])
  {
    var result' := result + [node];
    forall j, u | 0 <= j < |result'| && Edge(g, u, result'[j])
      ensures u in result'[..j]
    {
      if j < |result| {
        assert u in result[..j];
        assert result'[..j] == result[..j];
      } else {
        assert u in Elems(result);
        assert result'[..j] == result;
      }
    }
  }

  /** Releases the edges of a popped node, queueing each target whose in-degree reaches zero. */
  method ReleaseEdges<T(==, !new)>(g: Graph<T>, node: T, inDegree: map<T, int>, queue: seq<T>, ghost result: seq<T>)
    returns (inDegree': map<T, int>, queue': seq<T>)
    requires TargetsAreKeys(g) && node in g
    requires ReleaseState(g, inDegree, queue, result, g[node]) && SourcesFirst(g, result)
    ensures KahnState(g, inDegree', queue', result)
  {
    hide InEdges, SourcesFirst;
    var edges := g[node];
    inDegree', queue' := inDegree, queue;
    assert edges[0..] == edges;
    for i := 0 to |edges|
      invariant ReleaseState(g, inDegree', queue', result, edges[i..])
    {
      var neighbor := edges[i];
      assert edges[i..] == [neighbor] + edges[i + 1..];
      InEdgesZero(g, g.Keys - Elems(result), neighbor);
      assert inDegree'[neighbor] > 0;
      assert neighbor !in result + queue';
      inDegree' := inDegree'[neighbor := inDegree'[neighbor] - 1];
      if inDegree'[neighbor] == 0 {
        assert result + (queue' + [neighbor]) == (result + queue') + [neighbor];
        queue' := queue' + [neighbor];
      }
    }
  }

  lemma KahnStart<T(!new)>(g: Graph<T>, inDegree: map<T, int>, queue: seq<T>)
    requires CountsEdgesFrom(g, g.Keys, inDegree) && Distinct(queue)
    requires forall v :: v in queue <==> v in inDegree && inDegree[v] == 0
    ensures KahnState(g, inDegree, queue, [])
  {
    assert [] + queue == queue;
    assert g.Keys - Elems<T>([]) == g.Keys;
  }

  /** Once the queue is empty: all nodes were popped in a topological order, or the rest feed a cycle. */
  lemma Drained<T(!new)>(g: Graph<T>, inDegree: map<T, int>, result: seq<T>)
    requires TargetsAreKeys(g) && KahnState(g, inDegree, [], result)
    ensures |result| == |g| ==> IsTopologicalOrder(g, result)
    ensures |result| == |g| <==> !Cyclic(g)
  {
    hide InEdges, SourcesFirst, Cyclic;
    assert result + [] == result;
    assert Elems(result) <= g.Keys;
    DistinctBound(result, g.Keys);
    if |result| == |g| {
      OrderIsAcyclic(g, result);
    } else {
      var nodes := g.Keys - Elems(result);
      assert nodes != {} by {
        if nodes == {} {
          forall x | x in g.Keys
            ensures x in Elems(result)
          {
            assert x !in nodes;
          }
        }
      }
      forall v | v in nodes
        ensures HasSourceIn(g, nodes, v)
      {
        assert inDegree[v] != 0;
        InEdgesZero(g, nodes, v);
      }
      StuckIsCyclic(g, nodes);
    }
  }

  method TopologicalSort<T(==, !new)>(g: Graph<T>) returns (r: Result<seq<T>>)
    requires TargetsAreKeys(g)
    ensures r.Ok? ==> IsTopologicalOrder(g, r.value)
    ensures r.Ok? <==> !Cyclic(g)
  {
    hide CountsEdgesFrom, KahnState, ReleaseState, SourcesFirst, Cyclic;
    var inDegree := ComputeInDegrees(g);
    var queue := ReadyNodes(inDegree);
    var result: seq<T> := [];
    KahnStart(g, inDegree, queue);
    while queue != []
      invariant KahnState(g, inDegree, queue, result)
      decreases |g| - |result|
    {
      PopNode(g, inDegree, queue, result);
      var node := queue[0];
      queue := queue[1..];
      result := result + [node];
      inDegree, queue := ReleaseEdges(g, node, inDegree, queue, result);
    }
    Drained(g, inDegree, result);
    if |result| != |g| {
      return Err("circular dependency detected");
    }
    return Ok(result);
  }

  // ---------------------------------------------------------------- depth-first cycle search

  method FirstIndex<T(==, !new)>(s: seq<T>, x: T) returns (i: int)
    ensures i == -1 <==> x !in s
    ensures i != -1 ==> 0 <= i < |s| && s[i] == x
  {
    for k := 0 to |s|
      invariant x !in s[..k]
    {
      if s[k] == x {
        return k;
      }
    }
    return -1;
  }

  /** What a depth-first search maintains: the path is a simple path of visited, unfinished nodes, and every edge out
      of a finished node leads to a node that finished earlier. */
  ghost predicate SearchState<T(!new)>(g: Graph<T>, visited: set<T>, stack: set<T>, path: seq<T>, finished: seq<T>) {
    && stack <= visited <= g.Keys
    && Distinct(path) && IsPath(g, path) && Elems(path) == stack
    && Distinct(finished) && TargetsFirst(g, finished) && Elems(finished) == visited - stack
  }

  ghost predicate Extends<T(!new)>(g: Graph<T>, path: seq<T>, node: T) {
    path != [] ==> Edge(g, path[|path| - 1], node)
  }

  lemma EnterNode<T(!new)>(g: Graph<T>, visited: set<T>, stack: set<T>, path: seq<T>, finished: seq<T>, node: T)
    requires SearchState(g, visited, stack, path, finished)
    requires node in g && node !in visited && Extends(g, path, node)
    ensures SearchState(g, visited + {node}, stack + {node}, path + [node], finished)
  {
    assert node !in path by {
      assert node !in Elems(path);
    }
    assert Elems(path + [node]) == Elems(path) + {node};
    assert visited + {node} - (stack + {node}) == visited - stack;
  }

  lemma LeaveNode<T(!new)>(g: Graph<T>, visited: set<T>, stack: set<T>, path: seq<T>, finished: seq<T>, node: T)
    requires SearchState(g, visited, stack, path + [node], finished)
    requires node in g && forall k :: 0 <= k < |g[node]| ==> g[node][k] in visited - stack
    ensures SearchState(g, visited, stack - {node}, path, finished + [node])
  {
    var p := path + [node];
    assert p[..|path|] == path && p[|path|] == node;
    assert node !in path;
    assert Elems(p) == Elems(path) + {node};
    assert node !in finished by {
      assert node !in Elems(finished);
    }
    assert forall k :: 0 <= k < |g[node]| ==> g[node][k] in Elems(finished);
    ExtendFinished(g, finished, node);
    assert IsPath(g, path) by {
      forall i, j | 0 <= i < j < |path| && j == i + 1
        ensures Edge(g, path[i], path[j])
      {
        assert Edge(g, p[i], p[j]);
      }
    }
    assert visited - (stack - {node}) == visited - stack + {node};
  }

  lemma ExtendFinished<T(!new)>(g: Graph<T>, finished: seq<T>, node: T)
    requires TargetsFirst(g, finished) && Distinct(finished) && node !in finished && node in g
    requires forall k :: 0 <= k < |g[node]| ==> g[node][k] in finished
    ensures TargetsFirst(g, finished + [node]) && Distinct(finished + [node])
    ensures Elems(finished + [node]) == Elems(finished) + {node}
  {
    var done := finished + [node];
    forall j, v | 0 <= j < |done| && Edge(g, done[j], v)
      ensures v in done[..j]
    {
      if j < |finished| {
        assert v in finished[..j];
        assert done[..j] == finished[..j];
      } else {
        assert done[..j] == finished;
      }
    }
  }

  /** An edge from the end of the path back to a node on the stack closes a simple cycle. */
  lemma BackEdge<T(!new)>(g: Graph<T>, visited: set<T>, stack: set<T>, path: seq<T>, finished: seq<T>, v: T)
    requires SearchState(g, visited, stack, path, finished) && v in stack
    requires path != [] && Edge(g, path[|path| - 1], v)
    ensures v in path
    ensures forall start :: 0 <= start < |path| && path[start] == v ==> IsSimpleCycle(g, path[start..] + [v])
  {
    assert v in Elems(path);
    forall start | 0 <= start < |path| && path[start] == v
      ensures IsSimpleCycle(g, path[start..] + [v])
    {
      var c := path[start..] + [v];
      forall i, j | 0 <= i < j < |c| && j == i + 1
        ensures Edge(g, c[i], c[j])
      {
        if start + j < |path| {
          assert Edge(g, path[start + i], path[start + j]);
        }
      }
      assert c[..|c| - 1] == path[start..];
    }
  }

  /** The shared visited set, recursion stack and path of one search. */
  class CycleSearch<T(==, !new)> {
    const g: Graph<T>
    var visited: set<T>
    var recursionStack: set<T>
    var path: seq<T>
    ghost var finished: seq<T>

    ghost predicate Valid()
      reads this
    {
      TargetsAreKeys(g) && SearchState(g, visited, recursionStack, path, finished)
    }

    constructor (g: Graph<T>)
      requires TargetsAreKeys(g)
      ensures Valid() && this.g == g && path == [] && visited == {}
    {
      this.g := g;
      visited, recursionStack, path, finished := {}, {}, [], [];
    }

    /** Explores from an unvisited node. Without a cycle the node and all it reaches are finished and the path is
        restored; a returned cycle is a simple cycle of the graph. */
    method Visit(node: T) returns (cycle: Option<seq<T>>)
      requires Valid() && node in g && node !in visited && Extends(g, path, node)
      modifies this
      ensures cycle.Some? ==> IsSimpleCycle(g, cycle.value)
      ensures cycle.None? ==> Valid() && path == old(path) && recursionStack == old(recursionStack)
      ensures cycle.None? ==> old(visited) + {node} <= visited
      decreases |g.Keys - visited|
    {
      hide SearchState, IsSimpleCycle;
      ghost var unvisited := g.Keys - visited;
      Bounds(g, visited, recursionStack, path, finished);
      EnterNode(g, visited, recursionStack, path, finished, node);
      visited := visited + {node};
      recursionStack := recursionStack + {node};
      path := path + [node];
      var edges := g[node];
      for i := 0 to |edges|
        invariant Valid() && path == old(path) + [node] && recursionStack == old(recursionStack) + {node}
        invariant old(visited) + {node} <= visited
        invariant forall k :: 0 <= k < i ==> edges[k] in visited - recursionStack
      {
        var neighbor := edges[i];
        Bounds(g, visited, recursionStack, path, finished);
        if neighbor !in visited {
          SubsetSize(g.Keys - visited, unvisited);
          cycle := Visit(neighbor);
          if cycle.Some? {
            return;
          }
        } else if neighbor in recursionStack {
          BackEdge(g, visited, recursionStack, path, finished, neighbor);
          var cycleStart := FirstIndex(path, neighbor);
          if cycleStart != -1 {
            return Some(path[cycleStart..] + [neighbor]);
          }
        }
      }
      LeaveNode(g, visited, recursionStack, old(path), finished, node);
      recursionStack := recursionStack - {node};
      finished := finished + [node];
      path := path[..|path| - 1];
      return None;
    }
  }

  lemma Bounds<T(!new)>(g: Graph<T>, visited: set<T>, stack: set<T>, path: seq<T>, finished: seq<T>)
    requires SearchState(g, visited, stack, path, finished)
    ensures stack <= visited <= g.Keys
  {
  }

  /** Tries every node as a root, in an arbitrary order. */
  method FindCycle<T(==, !new)>(g: Graph<T>) returns (cycle: Option<seq<T>>)
    requires TargetsAreKeys(g)
    ensures cycle.Some? ==> IsSimpleCycle(g, cycle.value)
    ensures cycle.Some? <==> Cyclic(g)
  {
    var search := new CycleSearch(g);
    var todo := g.Keys;
    while todo != {}
      invariant search.Valid() && search.g == g && search.path == []
      invariant todo <= g.Keys && g.Keys - todo <= search.visited
    {
      var node :| node in todo;
      todo := todo - {node};
      if node !in search.visited {
        cycle := search.Visit(node);
        if cycle.Some? {
          return;
        }
      }
    }
    assert Elems(search.finished) == g.Keys;
    FinishOrderIsAcyclic(g, search.finished);
    return None;
  }
}
