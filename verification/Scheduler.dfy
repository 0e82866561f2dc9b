/** Cost-aware node selection. */
module Scheduler {
  import opened Types

  const HOSTNAME := "kubernetes.io/hostname"
  const ARCH := "kubernetes.io/arch"

  /** A missing label map is the empty map. */
  datatype Node = Node(
    id: string, region: string, zone: string, labels: map<string, string>, architecture: string, draining: bool)

  /** `maxCost` is `None` when no cap is set or the cap cannot be parsed; missing selectors are the empty map. */
  datatype Scheduling = Scheduling(
    preferredRegions: seq<string>,
    preferredZones: seq<string>,
    nodeSelectors: map<string, string>,
    avoidDraining: bool,
    architecture: string,
    maxCost: Option<real>)

  /** The price of a node, or none when the lookup fails. */
  type Costs = string -> Option<real>

  // ---------------------------------------------------------------- preferences

  function NormalizeArch(arch: string): string {
    if arch == "x86_64" || arch == "x64" then "amd64" else if arch == "aarch64" then "arm64" else arch
  }

  predicate MatchesNodeSelectors(n: Node, selectors: map<string, string>) {
    forall k :: k in selectors ==> k in n.labels && n.labels[k] == selectors[k]
  }

  predicate ArchAllowed(n: Node, arch: string) {
    arch == "" ||
    (&& (n.architecture == "" || n.architecture == NormalizeArch(arch))
     && (ARCH !in n.labels || n.labels[ARCH] == "" || n.labels[ARCH] == NormalizeArch(arch)))
  }

  predicate Prefers(s: Scheduling, n: Node) {
    && (s.preferredRegions == [] || n.region in s.preferredRegions)
    && (s.preferredZones == [] || n.zone in s.preferredZones)
    && MatchesNodeSelectors(n, s.nodeSelectors)
    && !(s.avoidDraining && n.draining)
    && ArchAllowed(n, s.architecture)
  }

  function Filtered(nodes: seq<Node>, s: Scheduling): seq<Node> {
    if nodes == [] then [] else
      var rest, n := Filtered(nodes[..|nodes| - 1], s), nodes[|nodes| - 1];
      if Prefers(s, n) then rest + [n] else rest
  }

  method FilterNodes(nodes: seq<Node>, s: Scheduling) returns (filtered: seq<Node>)
    ensures filtered == Filtered(nodes, s)
  {
    filtered := [];
    for i := 0 to |nodes|
      invariant filtered == Filtered(nodes[..i], s)
    {
      var node := nodes[i];
      assert nodes[..i + 1][..i] == nodes[..i];
      if |s.preferredRegions| > 0 && node.region !in s.preferredRegions {
        continue;
      }
      if |s.preferredZones| > 0 && node.zone !in s.preferredZones {
        continue;
      }
      if |s.nodeSelectors| > 0 && !MatchesNodeSelectors(node, s.nodeSelectors) {
        continue;
      }
      if s.avoidDraining && node.draining {
        continue;
      }
      if s.architecture != "" {
        if node.architecture != "" && node.architecture != NormalizeArch(s.architecture) {
          continue;
        }
        var arch := if ARCH in node.labels then node.labels[ARCH] else "";
        if arch != "" && arch != NormalizeArch(s.architecture) {
          continue;
        }
      }
      filtered := filtered + [node];
    }
    assert nodes[..|nodes|] == nodes;
  }

  lemma {:induction false} FilteredMembers(nodes: seq<Node>, s: Scheduling, n: Node)
    ensures n in Filtered(nodes, s) <==> n in nodes && Prefers(s, n)
  {
    hide Prefers;
    if nodes != [] {
      var init, last := nodes[..|nodes| - 1], nodes[|nodes| - 1];
      FilteredMembers(init, s, n);
      assert nodes == init + [last];
    }
  }

  // ---------------------------------------------------------------- the cheapest candidate

  predicate Affordable(s: Scheduling, costs: Costs, n: Node) {
    costs(n.id).Some? && (s.maxCost.Some? ==> costs(n.id).value <= s.maxCost.value)
  }

  /** The scan's state: the position of the best node so far, -1 for none, and its price, a negative one being taken for
      "none yet". */
  datatype Best = Best(at: int, minCost: real)

  function Scan(nodes: seq<Node>, s: Scheduling, costs: Costs): (best: Best)
    ensures -1 <= best.at < |nodes|
    ensures best.at >= 0 ==> Affordable(s, costs, nodes[best.at]) && best.minCost == costs(nodes[best.at].id).value
    ensures best.at < 0 ==> best.minCost == -1.0 && forall i :: 0 <= i < |nodes| ==> !Affordable(s, costs, nodes[i])
  {
    if nodes == [] then Best(-1, -1.0) else
      var best, n := Scan(nodes[..|nodes| - 1], s, costs), nodes[|nodes| - 1];
      if Affordable(s, costs, n) && (best.minCost < 0.0 || costs(n.id).value < best.minCost)
      then Best(|nodes| - 1, costs(n.id).value) else best
  }

  method SelectCheapestNode(nodes: seq<Node>, s: Scheduling, costs: Costs) returns (r: Result<Node>)
    ensures r.Ok? <==> Scan(nodes, s, costs).at >= 0
    ensures r.Ok? ==> r.value == nodes[Scan(nodes, s, costs).at]
  {
    if |nodes| == 0 {
      return Err("no nodes available");
    }
    var cheapest: Option<Node> := None;
    var minCost := -1.0;
    for i := 0 to |nodes|
      invariant minCost == Scan(nodes[..i], s, costs).minCost
      invariant cheapest.Some? <==> Scan(nodes[..i], s, costs).at >= 0
      invariant cheapest.Some? ==> cheapest.value == nodes[Scan(nodes[..i], s, costs).at]
    {
      assert nodes[..i + 1][..i] == nodes[..i];
      var cost := costs(nodes[i].id);
      if cost.None? {
        continue;
      }
      if s.maxCost.Some? && cost.value > s.maxCost.value {
        continue;
      }
      if minCost < 0.0 || cost.value < minCost {
        minCost := cost.value;
        cheapest := Some(nodes[i]);
      }
    }
    assert nodes[..|nodes|] == nodes;
    if cheapest.None? {
      return Err("no suitable node found within cost constraints");
    }
    return Ok(cheapest.value);
  }

  /** The node at `i` is affordable, no affordable node is cheaper, and no earlier one is as cheap. */
  ghost predicate IsFirstCheapest(nodes: seq<Node>, s: Scheduling, costs: Costs, i: int) {
    && 0 <= i < |nodes| && Affordable(s, costs, nodes[i])
    && (forall j :: 0 <= j < |nodes| && Affordable(s, costs, nodes[j]) ==>
                      costs(nodes[i].id).value <= costs(nodes[j].id).value)
    && (forall j :: 0 <= j < i && Affordable(s, costs, nodes[j]) ==>
                      costs(nodes[i].id).value < costs(nodes[j].id).value)
  }

  ghost predicate NoNegativePrice(nodes: seq<Node>, s: Scheduling, costs: Costs) {
    forall j :: 0 <= j < |nodes| && Affordable(s, costs, nodes[j]) ==> costs(nodes[j].id).value >= 0.0
  }

  /** The last affordable node, at `i`, is strictly cheaper than every earlier affordable one. */
  ghost predicate LastIsCheapest(nodes: seq<Node>, s: Scheduling, costs: Costs, i: int) {
    && 0 <= i < |nodes| && Affordable(s, costs, nodes[i])
    && (forall j :: i < j < |nodes| ==> !Affordable(s, costs, nodes[j]))
    && (forall j :: 0 <= j < i && Affordable(s, costs, nodes[j]) ==>
                      costs(nodes[i].id).value < costs(nodes[j].id).value)
  }

  lemma {:induction false} ScanWithoutNegatives(nodes: seq<Node>, s: Scheduling, costs: Costs)
    requires NoNegativePrice(nodes, s, costs) && Scan(nodes, s, costs).at >= 0
    ensures IsFirstCheapest(nodes, s, costs, Scan(nodes, s, costs).at)
  {
    if nodes != [] {
      var init, last := nodes[..|nodes| - 1], nodes[|nodes| - 1];
      assert forall j :: 0 <= j < |init| ==> init[j] == nodes[j];
      assert NoNegativePrice(init, s, costs);
      if Scan(init, s, costs).at >= 0 {
        ScanWithoutNegatives(init, s, costs);
      }
    }
  }

  /** With a negative price about, the scan ends on the last affordable node or past the first cheapest one. */
  lemma {:induction false} ScanPastNegative(nodes: seq<Node>, s: Scheduling, costs: Costs, p: int)
    requires IsFirstCheapest(nodes, s, costs, p) && costs(nodes[p].id).value < 0.0
    ensures Scan(nodes, s, costs).at >= p
    ensures Scan(nodes, s, costs).at == p <==> forall j :: p < j < |nodes| ==> !Affordable(s, costs, nodes[j])
  {
    var n := |nodes| - 1;
    var init, last := nodes[..n], nodes[n];
    assert forall j :: 0 <= j < n ==> init[j] == nodes[j];
    var before := Scan(init, s, costs);
    if p < n {
      ScanPastNegative(init, s, costs, p);
    } else if before.at >= 0 {
      assert Affordable(s, costs, nodes[before.at]);
    }
  }

  lemma {:induction false} FirstCheapestExists(nodes: seq<Node>, s: Scheduling, costs: Costs) returns (p: int)
    requires exists i :: 0 <= i < |nodes| && Affordable(s, costs, nodes[i])
    ensures IsFirstCheapest(nodes, s, costs, p)
  {
    var n := |nodes| - 1;
    var init := nodes[..n];
    assert forall j :: 0 <= j < n ==> init[j] == nodes[j];
    if i :| 0 <= i < |init| && Affordable(s, costs, init[i]) {
      p := FirstCheapestExists(init, s, costs);
      if Affordable(s, costs, nodes[n]) && costs(nodes[n].id).value < costs(nodes[p].id).value {
        p := n;
      }
    } else {
      p := n;
    }
  }

  /** The scan picks the first cheapest affordable node exactly when no affordable node has a negative price, or the
      last affordable one is strictly cheaper than all affordable nodes before it. */
  lemma ScanIsFirstCheapestExactly(nodes: seq<Node>, s: Scheduling, costs: Costs)
    requires Scan(nodes, s, costs).at >= 0
    ensures IsFirstCheapest(nodes, s, costs, Scan(nodes, s, costs).at) <==>
            NoNegativePrice(nodes, s, costs) || exists i :: LastIsCheapest(nodes, s, costs, i)
  {
    hide Scan;
    var best := Scan(nodes, s, costs).at;
    var p := FirstCheapestExists(nodes, s, costs);
    if NoNegativePrice(nodes, s, costs) {
      ScanWithoutNegatives(nodes, s, costs);
    } else {
      assert costs(nodes[p].id).value < 0.0;
      ScanPastNegative(nodes, s, costs, p);
      if i :| LastIsCheapest(nodes, s, costs, i) {
        assert i == p;
      }
      if best == p {
        assert LastIsCheapest(nodes, s, costs, p);
      }
    }
  }

  /** Both outcomes occur: with these prices the negative node is passed over when it comes first and chosen when it
      comes last. */
  lemma NegativePriceWitness(a: Node, b: Node, s: Scheduling, costs: Costs)
    requires s.maxCost.None? && costs(a.id) == Some(-2.0) && costs(b.id) == Some(5.0)
    ensures Scan([a, b], s, costs).at == 1 && !IsFirstCheapest([a, b], s, costs, 1)
    ensures Scan([b, a], s, costs).at == 1 && IsFirstCheapest([b, a], s, costs, 1)
  {
    assert [a, b][..1] == [a] && [b, a][..1] == [b];
    assert Affordable(s, costs, [a, b][0]);
    assert Scan([a], s, costs) == Best(0, -2.0) && Scan([b], s, costs) == Best(0, 5.0);
  }

  // ---------------------------------------------------------------- placement

  function Candidates(nodes: seq<Node>, s: Scheduling): seq<Node> {
    if Filtered(nodes, s) == [] then nodes else Filtered(nodes, s)
  }

  function Placed(nodes: seq<Node>, s: Scheduling, costs: Costs): Option<Node> {
    var candidates := Candidates(nodes, s);
    var best := Scan(candidates, s, costs);
    if best.at < 0 then None else Some(candidates[best.at])
  }

  function Pinned(s: Scheduling, n: Node): Scheduling {
    s.(nodeSelectors := s.nodeSelectors[HOSTNAME := n.id])
  }

  /** A workload's scheduling section, which placement writes the hostname selector into. */
  class Placement {
    var scheduling: Scheduling

    constructor (s: Scheduling)
      ensures scheduling == s
    {
      scheduling := s;
    }

    method ApplyCostAwareScheduling(nodes: seq<Node>, costs: Costs) returns (r: Result<Node>)
      modifies this
      ensures r.Ok? <==> Placed(nodes, old(scheduling), costs).Some?
      ensures r.Ok? ==> Placed(nodes, old(scheduling), costs) == Some(r.value)
                        && scheduling == Pinned(old(scheduling), r.value)
      ensures r.Err? ==> scheduling == old(scheduling)
    {
      var candidateNodes := FilterNodes(nodes, scheduling);
      if |candidateNodes| == 0 {
        candidateNodes := nodes;
      }
      r := SelectCheapestNode(candidateNodes, scheduling, costs);
      if r.Err? {
        return;
      }
      scheduling := scheduling.(nodeSelectors := scheduling.nodeSelectors[HOSTNAME := r.value.id]);
    }
  }

  ghost predicate NonNegative(costs: Costs) {
    forall id :: costs(id).Some? ==> costs(id).value >= 0.0
  }

  /** Node `n` is the first cheapest affordable node among `candidates`. */
  ghost predicate IsBestOf(candidates: seq<Node>, s: Scheduling, costs: Costs, n: Node) {
    exists i :: IsFirstCheapest(candidates, s, costs, i) && candidates[i] == n
  }

  /** No node meets the preferences. */
  ghost predicate NonePreferred(nodes: seq<Node>, s: Scheduling) {
    forall m :: m in nodes ==> !Prefers(s, m)
  }

  /** The candidates are the nodes meeting every preference, or all nodes when none does. */
  lemma CandidateMembers(nodes: seq<Node>, s: Scheduling)
    ensures Filtered(nodes, s) == [] <==> NonePreferred(nodes, s)
    ensures forall n :: n in Candidates(nodes, s) <==> n in nodes && (Prefers(s, n) || NonePreferred(nodes, s))
  {
    hide Prefers;
    forall n
      ensures n in Filtered(nodes, s) <==> n in nodes && Prefers(s, n)
    {
      FilteredMembers(nodes, s, n);
    }
    if Filtered(nodes, s) != [] {
      assert Filtered(nodes, s)[0] in nodes && Prefers(s, Filtered(nodes, s)[0]);
    }
  }

  /** Placement is optimal: the first cheapest node among those meeting every preference, or among all nodes when none
      does; it fails exactly when no candidate is affordable. */
  lemma PlacementIsOptimal(nodes: seq<Node>, s: Scheduling, costs: Costs)
    requires NonNegative(costs)
    ensures var candidates := Candidates(nodes, s);
            && (forall n :: n in candidates <==> n in nodes && (Prefers(s, n) || NonePreferred(nodes, s)))
            && (Placed(nodes, s, costs).Some? <==> exists n :: n in candidates && Affordable(s, costs, n))
            && (Placed(nodes, s, costs).Some? ==> IsBestOf(candidates, s, costs, Placed(nodes, s, costs).value))
  {
    hide Prefers, NonePreferred;
    CandidateMembers(nodes, s);
    var candidates := Candidates(nodes, s);
    if Placed(nodes, s, costs).Some? {
      ScanWithoutNegatives(candidates, s, costs);
    }
  }

  /** IDs are unique, and a node that carries a hostname label carries its own ID there. */
  ghost predicate HostnamesAreIds(nodes: seq<Node>) {
    && (forall a, b :: a in nodes && b in nodes && a.id == b.id ==> a == b)
    && (forall n :: n in nodes && HOSTNAME in n.labels ==> n.labels[HOSTNAME] == n.id)
  }

  lemma PinnedPreference(nodes: seq<Node>, s: Scheduling, n: Node, m: Node)
    requires HostnamesAreIds(nodes) && n in nodes && m in nodes
    ensures Prefers(Pinned(s, n), m) ==> m == n && HOSTNAME in n.labels
    ensures Prefers(s, n) && HOSTNAME in n.labels ==> Prefers(Pinned(s, n), n)
  {
    var k := HOSTNAME;
    assert k in Pinned(s, n).nodeSelectors;
  }

  lemma {:induction false} ScanIgnoresSelectors(nodes: seq<Node>, s: Scheduling, n: Node, costs: Costs)
    ensures Scan(nodes, Pinned(s, n), costs) == Scan(nodes, s, costs)
  {
    if nodes != [] {
      ScanIgnoresSelectors(nodes[..|nodes| - 1], s, n, costs);
    }
  }

  /** Placing again on the pinned selectors picks the same node exactly when that node carries its hostname label, or no
      node met the preferences, or it would have been chosen among all nodes anyway. */
  lemma PlacementIsFixedPointExactly(nodes: seq<Node>, s: Scheduling, costs: Costs)
    requires NonNegative(costs) && HostnamesAreIds(nodes) && Placed(nodes, s, costs).Some?
    ensures var n := Placed(nodes, s, costs).value;
            Placed(nodes, Pinned(s, n), costs) == Some(n) <==>
            HOSTNAME in n.labels || NonePreferred(nodes, s) || IsBestOf(nodes, s, costs, n)
  {
    hide Prefers, Scan, IsFirstCheapest, HostnamesAreIds, NonePreferred, Placed;
    var n := Placed(nodes, s, costs).value;
    var s' := Pinned(s, n);
    PlacementIsOptimal(nodes, s, costs);
    BestIsMember(Candidates(nodes, s), s, costs, n);
    CandidateMembers(nodes, s);
    CandidateMembers(nodes, s');
    PinnedPreference(nodes, s, n, n);
    if NonePreferred(nodes, s') {
      PinnedFallsBack(nodes, s, costs, n);
      PreferredIsNotNone(nodes, s', n);
    } else {
      PinnedHolds(nodes, s, costs, n);
    }
  }

  lemma PreferredIsNotNone(nodes: seq<Node>, s: Scheduling, n: Node)
    requires n in nodes
    ensures Prefers(s, n) ==> !NonePreferred(nodes, s)
  {
  }

  /** Some node meets the pinned preferences: it is the pinned one. */
  lemma PinnedHolds(nodes: seq<Node>, s: Scheduling, costs: Costs, n: Node)
    requires NonNegative(costs) && HostnamesAreIds(nodes) && n in nodes && Affordable(s, costs, n)
    requires !NonePreferred(nodes, Pinned(s, n))
    ensures HOSTNAME in n.labels && Placed(nodes, Pinned(s, n), costs) == Some(n)
  {
    hide Prefers, Scan, HostnamesAreIds, IsFirstCheapest;
    var s' := Pinned(s, n);
    var m :| m in nodes && Prefers(s', m);
    PinnedPreference(nodes, s, n, m);
    PlacementIsOptimal(nodes, s', costs);
    assert n in Candidates(nodes, s') && Affordable(s', costs, n);
    var k := Placed(nodes, s', costs).value;
    BestIsMember(Candidates(nodes, s'), s', costs, k);
    PinnedPreference(nodes, s, n, k);
  }

  /** No node meets the pinned preferences: the choice falls back to all nodes. */
  lemma PinnedFallsBack(nodes: seq<Node>, s: Scheduling, costs: Costs, n: Node)
    requires NonNegative(costs) && HostnamesAreIds(nodes) && Placed(nodes, s, costs) == Some(n) && n in nodes
    requires NonePreferred(nodes, Pinned(s, n))
    ensures Placed(nodes, Pinned(s, n), costs) == Some(n) <==> NonePreferred(nodes, s) || IsBestOf(nodes, s, costs, n)
    ensures NonePreferred(nodes, s) ==> Placed(nodes, Pinned(s, n), costs) == Some(n)
  {
    hide Prefers, NonePreferred, HostnamesAreIds;
    var s' := Pinned(s, n);
    CandidateMembers(nodes, s);
    CandidateMembers(nodes, s');
    ScanIgnoresSelectors(nodes, s, n, costs);
    PlacedIsAffordable(nodes, s, costs, n);
    var best := Scan(nodes, s, costs);
    assert best.at >= 0;
    ScanWithoutNegatives(nodes, s, costs);
    if i :| IsFirstCheapest(nodes, s, costs, i) && nodes[i] == n {
      assert i == best.at;
    }
  }

  lemma PlacedIsAffordable(nodes: seq<Node>, s: Scheduling, costs: Costs, n: Node)
    requires Placed(nodes, s, costs) == Some(n)
    ensures Affordable(s, costs, n)
  {
  }

  /** Without hostname labels, as in the built-in registry, a second placement can forget the preferences that the first
      one honoured. */
  lemma UnlabelledNodesLosePreferences(a: Node, b: Node, s: Scheduling, costs: Costs)
    requires a.labels == b.labels == map[] && a.region == "east" && b.region == "west" && a.id != b.id
    requires s == Scheduling(["east"], [], map[], false, "", None) && NonNegative(costs)
    requires costs(a.id) == Some(5.0) && costs(b.id) == Some(1.0)
    ensures Placed([a, b], s, costs) == Some(a) && Placed([a, b], Pinned(s, a), costs) != Some(a)
  {
    assert [a, b][..1] == [a] && [a][..0] == [];
    assert Filtered([a], s) == [a];
    assert Filtered([a, b], s) == [a];
    assert Scan([a], s, costs) == Best(0, 5.0);
    assert Affordable(s, costs, [a, b][1]);
    assert a in [a, b] && Prefers(s, a);
    PlacementIsFixedPointExactly([a, b], s, costs);
  }

  lemma BestIsMember(candidates: seq<Node>, s: Scheduling, costs: Costs, n: Node)
    requires IsBestOf(candidates, s, costs, n)
    ensures n in candidates && Affordable(s, costs, n)
  {
  }

  // ---------------------------------------------------------------- what is placed where, field by field

  /** The architecture that a request means, under any of its names. */
  predicate MeansArch(asked: string, arch: string) {
    if asked in ["x86_64", "x64"] then arch == "amd64"
    else if asked == "aarch64" then arch == "arm64"
    else arch == asked
  }

  /** Nothing that the node says of its architecture contradicts the request. */
  predicate RunsOn(n: Node, asked: string) {
    && (n.architecture != "" ==> MeansArch(asked, n.architecture))
    && ("kubernetes.io/arch" in n.labels && n.labels["kubernetes.io/arch"] != "" ==>
          MeansArch(asked, n.labels["kubernetes.io/arch"]))
  }

  /** The node meets each of the requests that are made. */
  predicate Meets(s: Scheduling, n: Node) {
    && (|s.preferredRegions| > 0 ==> exists r :: r in s.preferredRegions && r == n.region)
    && (|s.preferredZones| > 0 ==> exists z :: z in s.preferredZones && z == n.zone)
    && (forall k :: k in s.nodeSelectors ==> k in n.labels && n.labels[k] == s.nodeSelectors[k])
    && (s.avoidDraining ==> !n.draining)
    && (s.architecture != "" ==> RunsOn(n, s.architecture))
  }

  lemma PreferenceIsMeeting(s: Scheduling, n: Node)
    ensures Prefers(s, n) <==> Meets(s, n)
  {
  }

  /** The node has a known price, within the maximum if there is one. */
  predicate Payable(s: Scheduling, costs: Costs, n: Node) {
    match costs(n.id)
    case None => false
    case Some(price) => s.maxCost.None? || price <= s.maxCost.value
  }

  /** The node counts: it meets the requests, or no node does. */
  ghost predicate Eligible(nodes: seq<Node>, s: Scheduling, n: Node) {
    n in nodes && (Meets(s, n) || forall m :: m in nodes ==> !Meets(s, m))
  }

  /** Placement picks an eligible, payable node such that no other such node costs less, and fails exactly when there is
      none. */
  lemma PlacesCheapestEligible(nodes: seq<Node>, s: Scheduling, costs: Costs)
    requires NonNegative(costs)
    ensures match Placed(nodes, s, costs)
            case None => forall m :: m in nodes && Eligible(nodes, s, m) ==> !Payable(s, costs, m)
            case Some(n) =>
              && Eligible(nodes, s, n) && Payable(s, costs, n)
              && forall m :: m in nodes && Eligible(nodes, s, m) && Payable(s, costs, m) ==>
                   costs(n.id).value <= costs(m.id).value
  {
    hide Prefers, Meets, Candidates, Placed;
    PlacementIsOptimal(nodes, s, costs);
    var candidates := Candidates(nodes, s);
    forall m
      ensures Prefers(s, m) <==> Meets(s, m)
    {
      PreferenceIsMeeting(s, m);
    }
    assert forall m :: m in candidates <==> Eligible(nodes, s, m);
    assert forall m :: Affordable(s, costs, m) <==> Payable(s, costs, m);
    if Placed(nodes, s, costs).Some? {
      var n := Placed(nodes, s, costs).value;
      BestIsMember(candidates, s, costs, n);
      var i :| IsFirstCheapest(candidates, s, costs, i) && candidates[i] == n;
      forall m | m in candidates && Affordable(s, costs, m)
        ensures costs(n.id).value <= costs(m.id).value
      {
        var j :| 0 <= j < |candidates| && candidates[j] == m;
      }
    }
  }

  /** The placement asks for the chosen node by its hostname from then on, and for everything else as before. */
  lemma PinsHostname(s: Scheduling, n: Node)
    ensures Pinned(s, n) == s.(nodeSelectors := Pinned(s, n).nodeSelectors)
    ensures forall k :: k in Pinned(s, n).nodeSelectors <==> k == "kubernetes.io/hostname" || k in s.nodeSelectors
    ensures forall k :: k in Pinned(s, n).nodeSelectors ==>
              Pinned(s, n).nodeSelectors[k] == if k == "kubernetes.io/hostname" then n.id else s.nodeSelectors[k]
  {
  }
}
