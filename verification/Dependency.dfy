/** Deployment order and cycle detection over workload dependencies. */
module Dependency {
  import opened Types
  import opened Sums
  import opened Graphs

  ghost predicate IsId(ws: seq<Workload>, x: string) {
    exists i :: 0 <= i < |ws| && ws[i].id == x
  }

  /** Workload `v` lists `u` among its dependencies. */
  ghost predicate DependsOn(ws: seq<Workload>, v: string, u: string) {
    exists i :: 0 <= i < |ws| && ws[i].id == v && u in ws[i].spec.dependencies
  }

  ghost predicate IsDependencyCycle(ws: seq<Workload>, c: seq<string>) {
    && |c| >= 2 && c[0] == c[|c| - 1]
    && forall i, j :: 0 <= i < j < |c| && j == i + 1 ==> DependsOn(ws, c[j], c[i])
  }

  /** Some workload depends on itself through a chain of dependencies. */
  ghost predicate CircularDependency(ws: seq<Workload>) {
    exists c :: IsDependencyCycle(ws, c)
  }

  /** How often workloads with ID `v` list `u`: the multiplicity of the edge from `u` to `v`. */
  ghost function Multiplicity(ws: seq<Workload>, u: string, v: string): nat {
    if ws == [] then 0 else
      var w := ws[|ws| - 1];
      Multiplicity(ws[..|ws| - 1], u, v) + if w.id == v then Count(w.spec.dependencies, u) else 0
  }

  lemma {:induction false} MultiplicityPositive(ws: seq<Workload>, u: string, v: string)
    ensures Multiplicity(ws, u, v) > 0 <==> DependsOn(ws, v, u)
  {
    if ws != [] {
      var rest, w := ws[..|ws| - 1], ws[|ws| - 1];
      MultiplicityPositive(rest, u, v);
      CountPositive(w.spec.dependencies, u);
      assert ws == rest + [w];
      if i :| 0 <= i < |rest| && rest[i].id == v && u in rest[i].spec.dependencies {
        assert ws[i].id == v;
      }
    }
  }

  /** The dependency multigraph: known and depended-upon IDs as keys, edges counted with multiplicity. */
  ghost predicate IsDependencyGraph(ws: seq<Workload>, g: Graph<string>) {
    && (forall x :: x in g <==> IsId(ws, x) || exists v :: DependsOn(ws, v, x))
    && (forall u, v :: u in g ==> Count(g[u], v) == Multiplicity(ws, u, v))
  }

  lemma EdgesAreDependencies(ws: seq<Workload>, g: Graph<string>)
    requires IsDependencyGraph(ws, g)
    ensures forall u, v :: Edge(g, u, v) <==> DependsOn(ws, v, u)
  {
    forall u, v
      ensures Edge(g, u, v) <==> DependsOn(ws, v, u)
    {
      MultiplicityPositive(ws, u, v);
      if u in g {
        CountPositive(g[u], v);
      }
    }
  }

  lemma CyclesAreDependencyCycles(ws: seq<Workload>, g: Graph<string>)
    requires IsDependencyGraph(ws, g)
    ensures TargetsAreKeys(g)
    ensures forall c :: IsCycle(g, c) <==> IsDependencyCycle(ws, c)
    ensures Cyclic(g) <==> CircularDependency(ws)
  {
    EdgesAreDependencies(ws, g);
    forall u, i | u in g && 0 <= i < |g[u]|
      ensures g[u][i] in g
    {
      assert Edge(g, u, g[u][i]);
    }
  }

  // ---------------------------------------------------------------- building the graph

  ghost predicate IsDependency(ws: seq<Workload>, x: string) {
    exists i :: 0 <= i < |ws| && x in ws[i].spec.dependencies
  }

  function EdgesFrom(g: Graph<string>, u: string): seq<string> {
    if u in g then g[u] else []
  }

  method AddDependencies(g: Graph<string>, w: Workload) returns (g': Graph<string>)
    ensures forall x :: x in g' <==> x in g || x in w.spec.dependencies
    ensures forall u, v :: Count(EdgesFrom(g', u), v)
                           == Count(EdgesFrom(g, u), v) + if w.id == v then Count(w.spec.dependencies, u) else 0
  {
    g' := g;
    var deps := w.spec.dependencies;
    assert forall u :: Count(deps[..0], u) == 0;
    for k := 0 to |deps|
      invariant forall x :: x in g' <==> x in g || x in deps[..k]
      invariant forall u, v :: Count(EdgesFrom(g', u), v)
                               == Count(EdgesFrom(g, u), v) + if w.id == v then Count(deps[..k], u) else 0
    {
      var before := EdgesFrom(g', deps[k]);
      assert deps[..k + 1] == deps[..k] + [deps[k]];
      forall u
        ensures Count(deps[..k + 1], u) == Count(deps[..k], u) + if deps[k] == u then 1 else 0
      {
        CountAppend(deps[..k], [deps[k]], u);
      }
      forall v
        ensures Count(before + [w.id], v) == Count(before, v) + if w.id == v then 1 else 0
      {
        CountAppend(before, [w.id], v);
      }
      g' := g'[deps[k] := before + [w.id]];
    }
    assert deps[..|deps|] == deps;
  }

  method InitializeGraph(ws: seq<Workload>) returns (g: Graph<string>)
    ensures forall x :: x in g <==> IsId(ws, x)
    ensures forall x :: x in g ==> g[x] == []
  {
    g := map[];
    for i := 0 to |ws|
      invariant forall x :: x in g <==> IsId(ws[..i], x)
      invariant forall x :: x in g ==> g[x] == []
    {
      assert ws[..i + 1] == ws[..i] + [ws[i]];
      IsIdSnoc(ws[..i], ws[i]);
      g := g[ws[i].id := []];
    }
    assert ws[..|ws|] == ws;
  }

  method BuildDependencyGraph(ws: seq<Workload>) returns (g: Graph<string>)
    ensures IsDependencyGraph(ws, g)
  {
    hide IsId;
    g := InitializeGraph(ws);
    assert ws[..0] == [];
    for i := 0 to |ws|
      invariant forall x :: x in g <==> IsId(ws, x) || IsDependency(ws[..i], x)
      invariant forall u, v :: Count(EdgesFrom(g, u), v) == Multiplicity(ws[..i], u, v)
    {
      assert ws[..i + 1] == ws[..i] + [ws[i]];
      assert ws[..i + 1][..i] == ws[..i];
      IsDependencySnoc(ws[..i], ws[i]);
      g := AddDependencies(g, ws[i]);
    }
    assert ws[..|ws|] == ws;
    DependedUpon(ws);
  }

  lemma IsIdSnoc(ws: seq<Workload>, w: Workload)
    ensures forall x :: IsId(ws + [w], x) <==> IsId(ws, x) || w.id == x
  {
    forall x
      ensures IsId(ws + [w], x) <==> IsId(ws, x) || w.id == x
    {
      if i :| 0 <= i < |ws| && ws[i].id == x {
        assert (ws + [w])[i].id == x;
      }
      assert (ws + [w])[|ws|] == w;
    }
  }

  lemma IsDependencySnoc(ws: seq<Workload>, w: Workload)
    ensures forall x :: IsDependency(ws + [w], x) <==> IsDependency(ws, x) || x in w.spec.dependencies
  {
    forall x
      ensures IsDependency(ws + [w], x) <==> IsDependency(ws, x) || x in w.spec.dependencies
    {
      if i :| 0 <= i < |ws| && x in ws[i].spec.dependencies {
        assert x in (ws + [w])[i].spec.dependencies;
      }
      assert (ws + [w])[|ws|] == w;
    }
  }

  lemma DependedUpon(ws: seq<Workload>)
    ensures forall x :: IsDependency(ws, x) <==> exists v :: DependsOn(ws, v, x)
  {
    forall x | IsDependency(ws, x)
      ensures exists v :: DependsOn(ws, v, x)
    {
      var i :| 0 <= i < |ws| && x in ws[i].spec.dependencies;
      assert DependsOn(ws, ws[i].id, x);
    }
  }

  // ---------------------------------------------------------------- the resolver

  /** `w` is the last workload listed under its ID. */
  ghost predicate IsLatest(ws: seq<Workload>, w: Workload) {
    exists k :: 0 <= k < |ws| && ws[k] == w && forall l :: k < l < |ws| ==> ws[l].id != w.id
  }

  /** Each listed ID once, as its latest workload, after every listed workload it depends on. */
  ghost predicate IsDeploymentOrder(ws: seq<Workload>, out: seq<Workload>) {
    && (forall i, j :: 0 <= i < j < |out| ==> out[i].id != out[j].id)
    && (forall x :: IsId(out, x) <==> IsId(ws, x))
    && (forall i :: 0 <= i < |out| ==> IsLatest(ws, out[i]))
    && (forall i, j :: 0 <= i < |out| && 0 <= j < |out| && DependsOn(ws, out[j].id, out[i].id) ==> i < j)
  }

  method LatestById(ws: seq<Workload>) returns (m: map<string, Workload>)
    ensures forall x :: x in m <==> IsId(ws, x)
    ensures forall x :: x in m ==> m[x].id == x && IsLatest(ws, m[x])
  {
    m := map[];
    for i := 0 to |ws|
      invariant forall x :: x in m <==> IsId(ws[..i], x)
      invariant forall x :: x in m ==> m[x].id == x && IsLatest(ws[..i], m[x])
    {
      assert ws[..i + 1] == ws[..i] + [ws[i]];
      IsIdSnoc(ws[..i], ws[i]);
      IsLatestSnoc(ws[..i], ws[i]);
      m := m[ws[i].id := ws[i]];
    }
    assert ws[..|ws|] == ws;
  }

  lemma IsLatestSnoc(ws: seq<Workload>, w: Workload)
    ensures IsLatest(ws + [w], w)
    ensures forall v :: IsLatest(ws, v) && v.id != w.id ==> IsLatest(ws + [w], v)
  {
    assert (ws + [w])[|ws|] == w;
    forall v | IsLatest(ws, v) && v.id != w.id
      ensures IsLatest(ws + [w], v)
    {
      var k :| 0 <= k < |ws| && ws[k] == v && forall l :: k < l < |ws| ==> ws[l].id != v.id;
      assert (ws + [w])[k] == v;
    }
  }

  /** `out` lists the workloads of `m` at the positions `at` of `order`, skipping IDs without a workload. */
  ghost predicate IsSelection(m: map<string, Workload>, order: seq<string>, out: seq<Workload>, at: seq<int>) {
    && |at| == |out|
    && (forall i :: 0 <= i < |out| ==> 0 <= at[i] < |order| && order[at[i]] in m && out[i] == m[order[at[i]]])
    && (forall i, j :: 0 <= i < j < |at| ==> at[i] < at[j])
    && (forall p :: 0 <= p < |order| && order[p] in m ==> p in at)
  }

  method SelectWorkloads(order: seq<string>, m: map<string, Workload>) returns (out: seq<Workload>, ghost at: seq<int>)
    ensures IsSelection(m, order, out, at)
  {
    out, at := [], [];
    for p := 0 to |order|
      invariant IsSelection(m, order[..p], out, at)
    {
      if order[p] in m {
        out := out + [m[order[p]]];
        at := at + [p];
      }
    }
    assert order[..|order|] == order;
  }

  lemma SelectionIsDeploymentOrder(ws: seq<Workload>, g: Graph<string>, order: seq<string>, m: map<string, Workload>,
                                   out: seq<Workload>, at: seq<int>)
    requires IsDependencyGraph(ws, g) && IsTopologicalOrder(g, order) && IsSelection(m, order, out, at)
    requires forall x :: x in m <==> IsId(ws, x)
    requires forall x :: x in m ==> m[x].id == x && IsLatest(ws, m[x])
    ensures IsDeploymentOrder(ws, out)
  {
    hide IsDependencyGraph, IsLatest, DependsOn, SourcesFirst;
    assert forall i :: 0 <= i < |out| ==> out[i].id == order[at[i]] && IsLatest(ws, out[i]);
    forall x | IsId(ws, x)
      ensures IsId(out, x)
    {
      KeysCoverIds(ws, g, x);
      assert x in Elems(order);
      var p :| 0 <= p < |order| && order[p] == x;
      var i :| 0 <= i < |at| && at[i] == p;
      assert out[i].id == x;
    }
    forall i, j | 0 <= i < |out| && 0 <= j < |out| && DependsOn(ws, out[j].id, out[i].id)
      ensures i < j
    {
      DependenciesComeFirst(ws, g, order, at[i], at[j]);
    }
  }

  lemma DependenciesComeFirst(ws: seq<Workload>, g: Graph<string>, order: seq<string>, p: nat, q: nat)
    requires IsDependencyGraph(ws, g) && IsTopologicalOrder(g, order)
    requires p < |order| && q < |order| && DependsOn(ws, order[q], order[p])
    ensures p < q
  {
    hide IsDependencyGraph, DependsOn;
    EdgesAreDependencies(ws, g);
    assert Edge(g, order[p], order[q]);
    assert order[p] in order[..q];
  }

  lemma KeysCoverIds(ws: seq<Workload>, g: Graph<string>, x: string)
    requires IsDependencyGraph(ws, g) && IsId(ws, x)
    ensures x in g
  {
  }

  method ResolveDeploymentOrder(ws: seq<Workload>) returns (r: Result<seq<Workload>>)
    ensures r.Err? <==> CircularDependency(ws)
    ensures r.Ok? ==> IsDeploymentOrder(ws, r.value)
  {
    hide IsDependencyGraph, CircularDependency, Cyclic, IsTopologicalOrder, IsDeploymentOrder;
    var graph := BuildDependencyGraph(ws);
    CyclesAreDependencyCycles(ws, graph);
    var ordered := TopologicalSort(graph);
    if ordered.Err? {
      return Err("failed to resolve deployment order: " + ordered.message);
    }
    var workloadMap := LatestById(ws);
    var result, at := SelectWorkloads(ordered.value, workloadMap);
    SelectionIsDeploymentOrder(ws, graph, ordered.value, workloadMap, result, at);
    return Ok(result);
  }

  method DetectCycles(ws: seq<Workload>) returns (cycle: Option<seq<string>>)
    ensures cycle.Some? <==> CircularDependency(ws)
    ensures cycle.Some? ==> IsDependencyCycle(ws, cycle.value) && Distinct(cycle.value[..|cycle.value| - 1])
  {
    hide IsDependencyGraph, CircularDependency, Cyclic, IsTopologicalOrder;
    var graph := BuildDependencyGraph(ws);
    CyclesAreDependencyCycles(ws, graph);
    var ordered := TopologicalSort(graph);
    if ordered.Err? {
      cycle := FindCycle(graph);
    } else {
      cycle := None;
    }
  }
}
