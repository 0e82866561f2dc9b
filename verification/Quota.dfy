/** Hard aggregate quotas per namespace and per team: selection, aggregation, admission and the usage report. */
module Quota {
  import opened Types
  import opened Sums
  import opened Strings

  // ---------------------------------------------------------------- limits and keys

  /** A configured cap after parsing: blank, unparsable, or an amount. */
  datatype Cap = NoCap | BadCap | Cap(n: int)

  /** `maxWorkloads` and `maxReplicasTotal` bind only when positive. */
  datatype Limit = Limit(
    namespace: string, teamID: string, maxCPU: Cap, maxMemory: Cap, maxWorkloads: int32, maxReplicasTotal: int32)

  datatype Table = Table(namespace: map<string, Limit>, team: map<string, Limit>)

  datatype Key = NamespaceKey(name: string) | TeamKey(name: string)

  /** Every limit is filed under its own normalised key, team limits having no namespace. */
  ghost predicate ValidTable(t: Table) {
    && (forall k :: k in t.namespace ==> k != "" && TrimLower(t.namespace[k].namespace) == k)
    && (forall k :: k in t.team ==> k != "" && TrimLower(t.team[k].namespace) == "" && TrimLower(t.team[k].teamID) == k)
  }

  function KeyOf(lim: Limit): Option<Key> {
    if TrimLower(lim.namespace) != "" then Some(NamespaceKey(TrimLower(lim.namespace)))
    else if TrimLower(lim.teamID) != "" then Some(TeamKey(TrimLower(lim.teamID)))
    else None
  }

  predicate HasLimit(t: Table, k: Key) {
    match k
    case NamespaceKey(n) => n in t.namespace
    case TeamKey(n) => n in t.team
  }

  function LimitAt(t: Table, k: Key): Limit
    requires HasLimit(t, k)
  {
    match k
    case NamespaceKey(n) => t.namespace[n]
    case TeamKey(n) => t.team[n]
  }

  const TEAM_LABEL := "kranix.io/team"

  function TeamLabel(w: Workload): string {
    if w.tags.Some? && Trim(w.tags.value.team) != "" then Trim(w.tags.value.team)
    else if w.labels.Some? && TEAM_LABEL in w.labels.value then Trim(w.labels.value[TEAM_LABEL])
    else ""
  }

  /** Which limit governs a workload: its namespace's, else its team label's, else its tenant's. A team label without
      a limit does not fall through to the tenant. */
  function Select(t: Table, w: Workload): (k: Option<Key>)
    ensures k.Some? ==> HasLimit(t, k.value)
  {
    if TrimLower(w.namespace) in t.namespace && w.namespace != "" then Some(NamespaceKey(TrimLower(w.namespace)))
    else if TeamLabel(w) != "" then
      if TrimLower(TeamLabel(w)) in t.team then Some(TeamKey(TrimLower(TeamLabel(w)))) else None
    else if w.tenant.Some? && w.tenant.value != "" then
      if TrimLower(w.tenant.value) in t.team then Some(TeamKey(TrimLower(w.tenant.value))) else None
    else None
  }

  predicate MatchesQuotaKey(ref: Workload, candidate: Workload, lim: Limit) {
    if TrimLower(lim.namespace) != "" then TrimLower(candidate.namespace) == TrimLower(lim.namespace)
    else if TrimLower(lim.teamID) != "" then
      || TrimLower(TeamLabel(candidate)) == TrimLower(lim.teamID)
      || (candidate.tenant.Some? && TrimLower(candidate.tenant.value) == TrimLower(lim.teamID))
    else TrimLower(candidate.namespace) == TrimLower(ref.namespace)
  }

  // ---------------------------------------------------------------- the store as the engine sees it

  /** The stored workloads; an upsert replaces the workload with the same ID. */
  type Store = set<Workload>

  ghost predicate UniqueIds(s: Store) {
    forall a, b :: a in s && b in s && a.id == b.id ==> a == b
  }

  function Without(s: Store, id: string): Store {
    set w | w in s && w.id != id
  }

  function Put(s: Store, w: Workload): Store {
    Without(s, w.id) + {w}
  }

  function InNamespace(s: Store, ns: string): Store {
    set w | w in s && (ns == "" || w.namespace == ns)
  }

  /** Lists the matching workloads in an arbitrary order. */
  method List(s: Store, ns: string) returns (ws: seq<Workload>)
    ensures Distinct(ws) && Elems(ws) == InNamespace(s, ns)
  {
    ws := [];
    var todo := s;
    while todo != {}
      invariant todo <= s && Distinct(ws)
      invariant forall x :: x in ws <==> x in s && x !in todo && (ns == "" || x.namespace == ns)
    {
      var w :| w in todo;
      todo := todo - {w};
      if ns == "" || w.namespace == ns {
        ws := ws + [w];
      }
    }
  }

  // ---------------------------------------------------------------- aggregation

  function AmountOf(q: Quantity): int {
    if q.Amount? then q.n else 0
  }

  ghost const Cpu: Workload -> int := (w: Workload) => AmountOf(w.spec.cpuRequest)
  ghost const Memory: Workload -> int := (w: Workload) => AmountOf(w.spec.memoryRequest)
  ghost const Replicas: Workload -> int := (w: Workload) => w.spec.replicas

  predicate Parses(w: Workload) {
    w.spec.cpuRequest.Amount? && w.spec.memoryRequest.Amount?
  }

  datatype Totals = Totals(count: nat, replicas: int32, cpu: int, memory: int)

  /** What a set of workloads requests together; replicas are a 32-bit sum. */
  ghost function Usage(s: Store): Totals {
    Totals(|s|, Wrap32(Sum(s, Replicas)), Sum(s, Cpu), Sum(s, Memory))
  }

  function Add(u: Totals, w: Workload): Totals {
    Totals(u.count + 1, Wrap32(u.replicas + w.spec.replicas), u.cpu + AmountOf(w.spec.cpuRequest),
           u.memory + AmountOf(w.spec.memoryRequest))
  }

  lemma UsageOfPut(s: Store, w: Workload)
    requires w !in s
    ensures Usage(s + {w}) == Add(Usage(s), w)
  {
    hide Wrap32, Sum;
    assert s + {w} - {w} == s;
    SumSplit(s + {w}, w, Replicas);
    SumSplit(s + {w}, w, Cpu);
    SumSplit(s + {w}, w, Memory);
    Wrap32Absorbs(Sum(s, Replicas), w.spec.replicas);
  }

  predicate Counted(w: Workload, skipID: string) {
    skipID == "" || w.id != skipID
  }

  function Kept(ws: seq<Workload>, skipID: string): seq<Workload> {
    if ws == [] then [] else
      var rest, w := Kept(ws[..|ws| - 1], skipID), ws[|ws| - 1];
      if Counted(w, skipID) then rest + [w] else rest
  }

  /** What a list of workloads requests together, a repeated workload counting each time. */
  ghost function ListUsage(ws: seq<Workload>): Totals {
    Totals(|ws|, Wrap32(SeqSum(ws, Replicas)), SeqSum(ws, Cpu), SeqSum(ws, Memory))
  }

  lemma ListUsageSnoc(ws: seq<Workload>, w: Workload)
    ensures ListUsage(ws + [w]) == Add(ListUsage(ws), w)
  {
    hide Wrap32;
    assert (ws + [w])[..|ws|] == ws;
    Wrap32Absorbs(SeqSum(ws, Replicas), w.spec.replicas);
  }

  /** Adds up the requests of the listed workloads except the skipped one; fails on the first unparsable request. */
  method SumRequests(ws: seq<Workload>, skipID: string) returns (r: Result<Totals>)
    ensures r.Ok? <==> forall w :: w in ws && Counted(w, skipID) ==> Parses(w)
    ensures r.Ok? ==> r.value == ListUsage(Kept(ws, skipID))
  {
    hide Add, ListUsage;
    var u := Totals(0, 0, 0, 0);
    EmptyUsage();
    assert ws[..0] == [];
    for i := 0 to |ws|
      invariant u == ListUsage(Kept(ws[..i], skipID))
      invariant forall w :: w in ws[..i] && Counted(w, skipID) ==> Parses(w)
    {
      var w := ws[i];
      assert ws[..i + 1] == ws[..i] + [w] && ws[..i + 1][..i] == ws[..i];
      if !Counted(w, skipID) {
        continue;
      }
      if !Parses(w) {
        assert w in ws;
        return Err("quantity could not be parsed");
      }
      ListUsageSnoc(Kept(ws[..i], skipID), w);
      u := Add(u, w);
    }
    assert ws[..|ws|] == ws;
    return Ok(u);
  }

  lemma {:induction false} KeptMembers(ws: seq<Workload>, skipID: string)
    ensures forall w :: w in Kept(ws, skipID) <==> w in ws && Counted(w, skipID)
    ensures Distinct(ws) ==> Distinct(Kept(ws, skipID))
  {
    if ws != [] {
      var init, last := ws[..|ws| - 1], ws[|ws| - 1];
      KeptMembers(init, skipID);
      assert ws == init + [last];
      if Distinct(ws) {
        assert last !in init;
      }
    }
  }

  /** On a list without repetitions the sum does not depend on the order. */
  lemma ListUsageIsUsage(ws: seq<Workload>, skipID: string, s: Store)
    requires Distinct(ws) && forall w :: w in s <==> w in ws && Counted(w, skipID)
    ensures ListUsage(Kept(ws, skipID)) == Usage(s)
  {
    hide Wrap32, Sum, SeqSum, Distinct;
    var kept := Kept(ws, skipID);
    KeptMembers(ws, skipID);
    assert Elems(kept) == s;
    DistinctBound(kept, s);
    SeqSumIsSum(kept, Replicas);
    SeqSumIsSum(kept, Cpu);
    SeqSumIsSum(kept, Memory);
  }

  lemma EmptyUsage()
    ensures ListUsage([]) == Totals(0, 0, 0, 0)
  {
  }

  // ---------------------------------------------------------------- admission

  predicate InCap(cap: Cap, x: int) {
    match cap
    case NoCap => true
    case BadCap => false
    case Cap(n) => x <= n
  }

  predicate WithinCaps(lim: Limit, count: int, replicas: int, cpu: int, memory: int) {
    && (lim.maxWorkloads > 0 ==> count <= lim.maxWorkloads)
    && (lim.maxReplicasTotal > 0 ==> replicas <= lim.maxReplicasTotal)
    && InCap(lim.maxCPU, cpu)
    && InCap(lim.maxMemory, memory)
  }

  function NamespaceFilter(w: Workload, lim: Limit): string {
    if TrimLower(lim.teamID) != "" then "" else w.namespace
  }

  /** The stored workloads that share the limit with `w`, other than the stored version of `w`. */
  ghost function Peers(s: Store, w: Workload, lim: Limit): Store {
    set x | x in InNamespace(s, NamespaceFilter(w, lim)) && MatchesQuotaKey(w, x, lim) && Counted(x, w.id)
  }

  /** Admission under one limit, free of any listing order. */
  ghost predicate AdmitsUnder(s: Store, w: Workload, lim: Limit) {
    var peers := Peers(s, w, lim);
    var after := Add(Usage(peers), w);
    && (forall x :: x in peers ==> Parses(x))
    && Parses(w)
    && WithinCaps(lim, Wrap32(after.count), after.replicas, after.cpu, after.memory)
  }

  /** The gate: a workload that no limit governs is always admitted. */
  ghost predicate Admits(t: Table, s: Store, w: Workload) {
    Select(t, w).Some? ==> AdmitsUnder(s, w, LimitAt(t, Select(t, w).value))
  }

  /** Keeps the matching entries, each as often as it was listed. */
  method SelectPeers(all: seq<Workload>, w: Workload, lim: Limit) returns (peers: seq<Workload>)
    ensures forall x :: multiset(peers)[x] == if MatchesQuotaKey(w, x, lim) then multiset(all)[x] else 0
  {
    hide MatchesQuotaKey;
    peers := [];
    for i := 0 to |all|
      invariant forall x :: multiset(peers)[x] == if MatchesQuotaKey(w, x, lim) then multiset(all[..i])[x] else 0
    {
      assert all[..i + 1] == all[..i] + [all[i]];
      if MatchesQuotaKey(w, all[i], lim) {
        peers := peers + [all[i]];
      }
    }
    assert all[..|all|] == all;
  }

  lemma {:induction false} DistinctMultiset(ws: seq<Workload>)
    ensures Distinct(ws) <==> forall x :: multiset(ws)[x] <= 1
  {
    if ws != [] {
      var init, last := ws[..|ws| - 1], ws[|ws| - 1];
      assert ws == init + [last];
      assert multiset(ws) == multiset(init) + multiset{last};
      DistinctMultiset(init);
      if Distinct(ws) {
        assert last !in init;
      } else if forall x :: multiset(ws)[x] <= 1 {
        assert multiset(ws)[last] <= 1;
        assert last !in init;
        assert forall x :: multiset(init)[x] <= multiset(ws)[x];
      }
    }
  }

  /** Selecting from a list without repetitions gives one too, of exactly the matching workloads. */
  lemma SelectedPeers(all: seq<Workload>, peers: seq<Workload>, w: Workload, lim: Limit)
    requires Distinct(all)
    requires forall x :: multiset(peers)[x] == if MatchesQuotaKey(w, x, lim) then multiset(all)[x] else 0
    ensures Distinct(peers) && forall x :: x in peers <==> x in all && MatchesQuotaKey(w, x, lim)
  {
    hide MatchesQuotaKey;
    DistinctMultiset(all);
    DistinctMultiset(peers);
    forall x
      ensures x in peers <==> x in all && MatchesQuotaKey(w, x, lim)
    {
      assert x in peers <==> multiset(peers)[x] > 0;
      assert x in all <==> multiset(all)[x] > 0;
    }
  }

  method CheckLimit(s: Store, w: Workload, lim: Limit) returns (r: Result<()>)
    ensures r.Ok? <==> AdmitsUnder(s, w, lim)
  {
    hide MatchesQuotaKey, Usage, ListUsage, Wrap32, Add, NamespaceFilter, Distinct, Kept;
    var all := List(s, NamespaceFilter(w, lim));
    var peers := SelectPeers(all, w, lim);
    SelectedPeers(all, peers, w, lim);
    assert forall x :: x in all <==> x in Elems(all);
    assert forall x :: x in Peers(s, w, lim) <==> x in peers && Counted(x, w.id);
    ListUsageIsUsage(peers, w.id, Peers(s, w, lim));
    var sum := SumRequests(peers, w.id);
    if sum.Err? {
      return Err("quota aggregation: " + sum.message);
    }
    if !Parses(w) {
      return Err("quantity could not be parsed");
    }
    var after := Add(sum.value, w);
    if lim.maxWorkloads > 0 && Wrap32(after.count) > lim.maxWorkloads {
      return Err("namespace/team quota: max workloads exceeded");
    }
    if lim.maxReplicasTotal > 0 && after.replicas > lim.maxReplicasTotal {
      return Err("namespace/team quota: max replicas exceeded");
    }
    if lim.maxCPU.BadCap? || (lim.maxCPU.Cap? && after.cpu > lim.maxCPU.n) {
      return Err("namespace/team quota: CPU requests");
    }
    if lim.maxMemory.BadCap? || (lim.maxMemory.Cap? && after.memory > lim.maxMemory.n) {
      return Err("namespace/team quota: memory requests");
    }
    return Ok(());
  }

  // ---------------------------------------------------------------- the engine

  function TableWith(t: Table, lim: Limit): Table {
    match KeyOf(lim)
    case None => t
    case Some(NamespaceKey(n)) => t.(namespace := t.namespace[n := lim])
    case Some(TeamKey(n)) => t.(team := t.team[n := lim])
  }

  function TableOf(limits: seq<Limit>): Table {
    if limits == [] then Table(map[], map[]) else TableWith(TableOf(limits[..|limits| - 1]), limits[|limits| - 1])
  }

  lemma {:induction false} TableOfIsValid(limits: seq<Limit>)
    ensures ValidTable(TableOf(limits))
  {
    hide TrimLower;
    if limits != [] {
      TableOfIsValid(limits[..|limits| - 1]);
    }
  }

  ghost predicate IsLastFor(limits: seq<Limit>, k: Key, i: int) {
    0 <= i < |limits| && KeyOf(limits[i]) == Some(k) && forall j :: i < j < |limits| ==> KeyOf(limits[j]) != Some(k)
  }

  /** A key holds the last limit configured for it, and no key is invented. */
  lemma {:induction false} LastLimitWins(limits: seq<Limit>, k: Key)
    ensures forall i :: IsLastFor(limits, k, i) ==>
                          HasLimit(TableOf(limits), k) && LimitAt(TableOf(limits), k) == limits[i]
    ensures HasLimit(TableOf(limits), k) ==> exists i :: IsLastFor(limits, k, i)
  {
    hide KeyOf;
    if limits != [] {
      var n := |limits| - 1;
      var rest := limits[..n];
      LastLimitWins(rest, k);
      assert forall j :: 0 <= j < n ==> rest[j] == limits[j];
      if KeyOf(limits[n]) == Some(k) {
        assert IsLastFor(limits, k, n);
      } else {
        assert forall i :: IsLastFor(limits, k, i) <==> IsLastFor(rest, k, i);
      }
    }
  }

  class Engine {
    var namespace: map<string, Limit>
    var team: map<string, Limit>

    ghost function View(): Table
      reads this
    {
      Table(namespace, team)
    }

    constructor (limits: seq<Limit>)
      ensures View() == TableOf(limits) && ValidTable(View())
    {
      namespace, team := map[], map[];
      new;
      for i := 0 to |limits|
        invariant View() == TableOf(limits[..i])
      {
        assert limits[..i + 1][..i] == limits[..i];
        var ns, tm := TrimLower(limits[i].namespace), TrimLower(limits[i].teamID);
        if ns != "" {
          namespace := namespace[ns := limits[i]];
        } else if tm != "" {
          team := team[tm := limits[i]];
        }
      }
      assert limits[..|limits|] == limits;
      TableOfIsValid(limits);
    }

    /** Accepts exactly when the gate admits, whatever order the store lists its workloads in. */
    method Enforce(s: Store, w: Workload) returns (r: Result<()>)
      ensures r.Ok? <==> Admits(View(), s, w)
    {
      hide AdmitsUnder, TeamLabel, TrimLower;
      var lim: Limit;
      if TrimLower(w.namespace) in namespace && w.namespace != "" {
        lim := namespace[TrimLower(w.namespace)];
      } else if TeamLabel(w) != "" {
        if TrimLower(TeamLabel(w)) !in team {
          return Ok(());
        }
        lim := team[TrimLower(TeamLabel(w))];
      } else if w.tenant.Some? && w.tenant.value != "" {
        if TrimLower(w.tenant.value) !in team {
          return Ok(());
        }
        lim := team[TrimLower(w.tenant.value)];
      } else {
        return Ok(());
      }
      r := CheckLimit(s, w, lim);
    }

    method SetNamespaceQuota(lim: Limit) returns (r: Result<()>)
      requires ValidTable(View())
      modifies this`namespace
      ensures ValidTable(View())
      ensures r.Ok? <==> TrimLower(lim.namespace) != ""
      ensures namespace == if r.Ok?
                           then old(namespace)[TrimLower(lim.namespace) := lim.(namespace := TrimLower(lim.namespace))]
                           else old(namespace)
    {
      var ns := TrimLower(lim.namespace);
      if ns == "" {
        return Err("namespace is required");
      }
      TrimLowerIdempotent(lim.namespace);
      namespace := namespace[ns := lim.(namespace := ns)];
      return Ok(());
    }

    method DeleteNamespaceQuota(ns: string) returns (found: bool)
      requires ValidTable(View())
      modifies this`namespace
      ensures ValidTable(View())
      ensures found == (TrimLower(ns) in old(namespace))
      ensures namespace == old(namespace) - {TrimLower(ns)}
    {
      if TrimLower(ns) !in namespace {
        return false;
      }
      namespace := namespace - {TrimLower(ns)};
      return true;
    }

    /** Reports the limits and the aggregate of everything listed under the trimmed namespace. */
    method NamespaceUsage(s: Store, ns: string) returns (r: Result<(Limit, Totals)>)
      ensures r.Ok? <==> Trim(ns) != "" && forall w :: w in InNamespace(s, Trim(ns)) ==> Parses(w)
      ensures r.Ok? ==> r.value.1 == Usage(InNamespace(s, Trim(ns)))
      ensures r.Ok? ==> r.value.0 == if TrimLower(Trim(ns)) in namespace then namespace[TrimLower(Trim(ns))]
                                     else Limit(Trim(ns), "", NoCap, NoCap, 0, 0)
    {
      hide Usage, ListUsage, TrimLower, Kept;
      var key := Trim(ns);
      if key == "" {
        return Err("namespace is required");
      }
      var lim := Limit(key, "", NoCap, NoCap, 0, 0);
      if TrimLower(key) in namespace {
        lim := namespace[TrimLower(key)];
      }
      var all := List(s, key);
      var sum := SumRequests(all, "");
      assert forall x :: x in InNamespace(s, key) <==> x in Elems(all);
      ListUsageIsUsage(all, "", InNamespace(s, key));
      if sum.Err? {
        return Err(sum.message);
      }
      return Ok((lim, sum.value));
    }
  }

  // ---------------------------------------------------------------- who counts whom

  ghost predicate NamedIds(s: Store) {
    forall w :: w in s ==> w.id != ""
  }

  /** Under a namespace limit, one governed workload counts another exactly when the limit also names a team, so that
      all namespaces are listed, or both spell the namespace alike. */
  lemma CountsExactlyWhenSpelledAlike(t: Table, s: Store, w: Workload, x: Workload, ns: string)
    requires ValidTable(t) && w.id != "" && x in s && x.id != w.id
    requires Select(t, w) == Select(t, x) == Some(NamespaceKey(ns))
    ensures x in Peers(s, w, t.namespace[ns]) <==>
            TrimLower(t.namespace[ns].teamID) != "" || x.namespace == w.namespace
  {
    hide Trim, Lower, TeamLabel;
  }

  /** Workloads governed by a namespace limit without a team all spell the namespace alike. */
  ghost predicate OneSpelling(t: Table, s: Store) {
    forall a, b :: a in s && b in s && Select(t, a) == Select(t, b) && SpellingMatters(t, Select(t, a))
                   ==> a.namespace == b.namespace
  }

  predicate SpellingMatters(t: Table, k: Option<Key>) {
    k.Some? && k.value.NamespaceKey? && k.value.name in t.namespace && TrimLower(t.namespace[k.value.name].teamID) == ""
  }

  // ---------------------------------------------------------------- gate and report agree

  /** The report on a namespace, whose name it trims, succeeds and shows every total within its cap. */
  ghost predicate ReportWithinCaps(lim: Limit, s: Store, ns: string) {
    var members := InNamespace(s, Trim(ns));
    var u := Usage(members);
    (forall w :: w in members ==> Parses(w)) && WithinCaps(lim, u.count, u.replicas, u.cpu, u.memory)
  }

  /** The report on `w`'s namespace sees every workload that the gate counts for `w`: always under a limit without a
      team, else when nobody spells the namespace differently. */
  ghost predicate ReportSeesAll(lim: Limit, s: Store, w: Workload) {
    TrimLower(lim.teamID) == "" ||
    forall x :: x in s && TrimLower(x.namespace) == TrimLower(w.namespace) ==> x.namespace == w.namespace
  }

  ghost predicate HasNamespaceLimit(t: Table, w: Workload) {
    TrimLower(w.namespace) in t.namespace
  }

  /** The gate counts the other workloads of the exact namespace, no more and no fewer, exactly when the report sees
      them all. */
  lemma NamespacePeers(t: Table, s: Store, w: Workload)
    requires ValidTable(t) && UniqueIds(s) && w in s && w.id != "" && HasNamespaceLimit(t, w)
    ensures var lim := t.namespace[TrimLower(w.namespace)];
            && Select(t, w) == Some(NamespaceKey(TrimLower(w.namespace)))
            && (Peers(s, w, lim) == InNamespace(s, w.namespace) - {w} <==> ReportSeesAll(lim, s, w))
  {
    hide Trim, Lower, TeamLabel;
    FoldsToEmpty();
    var lim := t.namespace[TrimLower(w.namespace)];
    if !ReportSeesAll(lim, s, w) {
      var x :| x in s && TrimLower(x.namespace) == TrimLower(w.namespace) && x.namespace != w.namespace;
      assert x in Peers(s, w, lim) && x !in InNamespace(s, w.namespace);
    }
  }

  lemma FoldsToEmpty()
    ensures TrimLower("") == ""
  {
    TrimEnds("");
  }

  /** For a stored workload the gate's verdict is the report's: skipping itself and adding itself is the whole sum. */
  lemma GateAgreesWithReport(t: Table, s: Store, w: Workload)
    requires ValidTable(t) && UniqueIds(s) && w in s && w.id != "" && |s| <= MAX_INT32 && HasNamespaceLimit(t, w)
    requires Trim(w.namespace) == w.namespace && ReportSeesAll(t.namespace[TrimLower(w.namespace)], s, w)
    ensures Admits(t, s, w) <==> ReportWithinCaps(t.namespace[TrimLower(w.namespace)], s, w.namespace)
  {
    hide Usage, Add, Peers, Wrap32, WithinCaps, Select, ValidTable, UniqueIds, ReportSeesAll, TrimLower;
    NamespacePeers(t, s, w);
    var members := InNamespace(s, w.namespace);
    assert w in members by {
      assert w.namespace == w.namespace;
    }
    assert members - {w} + {w} == members;
    UsageOfPut(members - {w}, w);
    SubsetSize(members, s);
    UsageCount(members);
  }

  lemma UsageCount(s: Store)
    ensures Usage(s).count == |s|
  {
  }

  /** So all workloads of a namespace get the same verdict. */
  lemma VerdictIsPerNamespace(t: Table, s: Store, w: Workload, v: Workload)
    requires ValidTable(t) && UniqueIds(s) && NamedIds(s) && |s| <= MAX_INT32
    requires w in s && v in s && w.namespace == v.namespace == Trim(w.namespace) && HasNamespaceLimit(t, w)
    requires ReportSeesAll(t.namespace[TrimLower(w.namespace)], s, w)
    ensures Admits(t, s, w) <==> Admits(t, s, v)
  {
    hide Admits, ReportWithinCaps, TrimLower;
    GateAgreesWithReport(t, s, w);
    GateAgreesWithReport(t, s, v);
  }

  // ---------------------------------------------------------------- safety over runs

  /** The workloads governed by a limit. */
  ghost function Governed(t: Table, s: Store, k: Key): Store {
    set w | w in s && Select(t, w) == Some(k)
  }

  /** The exact, unbounded totals of the governed workloads are within every cap of their limit. */
  ghost predicate KeyWithinCaps(t: Table, s: Store, k: Key)
    requires HasLimit(t, k)
  {
    var g := Governed(t, s, k);
    g != {} ==> WithinCaps(LimitAt(t, k), |g|, Sum(g, Replicas), Sum(g, Cpu), Sum(g, Memory))
  }

  ghost predicate Safe(t: Table, s: Store) {
    forall k :: HasLimit(t, k) ==> KeyWithinCaps(t, s, k)
  }

  /** Unique non-empty IDs, non-negative requests, totals that fit 32 bits. */
  ghost predicate Sane(s: Store) {
    && UniqueIds(s) && NamedIds(s)
    && (forall w :: w in s ==> Cpu(w) >= 0 && Memory(w) >= 0 && Replicas(w) >= 0)
    && |s| <= MAX_INT32 && Sum(s, Replicas) <= MAX_INT32
  }

  lemma FewerStayWithin(lim: Limit, g: Store, g': Store, s: Store)
    requires g <= g' <= s && g != {} && Sane(s)
    requires WithinCaps(lim, |g'|, Sum(g', Replicas), Sum(g', Cpu), Sum(g', Memory))
    ensures WithinCaps(lim, |g|, Sum(g, Replicas), Sum(g, Cpu), Sum(g, Memory))
  {
    hide UniqueIds, NamedIds;
    SubsetSize(g, g');
    SumMonotone(g, g', Replicas);
    SumMonotone(g, g', Cpu);
    SumMonotone(g, g', Memory);
  }

  /** Removing workloads keeps every limit. */
  lemma ShrinkKeepsSafe(t: Table, s: Store, s': Store, k: Key)
    requires HasLimit(t, k) && KeyWithinCaps(t, s, k) && Sane(s)
    requires Governed(t, s', k) <= Governed(t, s, k)
    ensures KeyWithinCaps(t, s', k)
  {
    hide Select, WithinCaps, Sane;
    if Governed(t, s', k) != {} {
      FewerStayWithin(LimitAt(t, k), Governed(t, s', k), Governed(t, s, k), s);
    }
  }

  /** Peers are matched by a wider predicate than limits are selected by. */
  lemma GovernedArePeers(t: Table, s: Store, w: Workload, x: Workload)
    requires ValidTable(t) && OneSpelling(t, s) && w.id != "" && w in s && x in s && x.id != w.id
    requires Select(t, w).Some? && Select(t, x) == Select(t, w)
    ensures x in Peers(s, w, LimitAt(t, Select(t, w).value))
  {
    hide Trim, Lower, TeamLabel;
  }

  lemma PeersAreOthers(t: Table, s: Store, w: Workload)
    requires ValidTable(t) && w.id != "" && Select(t, w).Some?
    ensures Peers(Put(s, w), w, LimitAt(t, Select(t, w).value)) == Peers(s, w, LimitAt(t, Select(t, w).value))
  {
    hide Trim, Lower, TeamLabel, MatchesQuotaKey;
  }

  lemma PeersAreStored(s: Store, w: Workload, lim: Limit)
    requires w.id != ""
    ensures w !in Peers(s, w, lim) && Peers(s, w, lim) + {w} <= Put(s, w)
  {
    hide MatchesQuotaKey, NamespaceFilter;
  }

  /** Where totals fit 32 bits the gate's arithmetic is exact. */
  lemma ExactTotals(peers: Store, w: Workload, s: Store)
    requires w !in peers && peers + {w} <= s && Sane(s)
    ensures var all, after := peers + {w}, Add(Usage(peers), w);
            && Wrap32(after.count) == |all| && after.replicas == Sum(all, Replicas)
            && after.cpu == Sum(all, Cpu) && after.memory == Sum(all, Memory)
  {
    hide UniqueIds, NamedIds, Wrap32, Sum, Add;
    var all := peers + {w};
    UsageOfPut(peers, w);
    SubsetSize(all, s);
    SumMonotone(all, s, Replicas);
  }

  lemma AdmittedTotals(t: Table, s: Store, w: Workload)
    requires ValidTable(t) && w.id != "" && Sane(Put(s, w)) && Admits(t, s, w) && Select(t, w).Some?
    ensures var lim := LimitAt(t, Select(t, w).value);
            var all := Peers(s, w, lim) + {w};
            all <= Put(s, w) && WithinCaps(lim, |all|, Sum(all, Replicas), Sum(all, Cpu), Sum(all, Memory))
  {
    hide Select, WithinCaps, Wrap32, Sum, Add, ValidTable, Peers, Put, Sane, Usage;
    var lim := LimitAt(t, Select(t, w).value);
    PeersAreStored(s, w, lim);
    ExactTotals(Peers(s, w, lim), w, Put(s, w));
  }

  lemma UpsertKeepsSafe(t: Table, s: Store, w: Workload, k: Key)
    requires ValidTable(t) && Sane(s) && Sane(Put(s, w)) && OneSpelling(t, Put(s, w)) && Safe(t, s) && Admits(t, s, w)
    requires HasLimit(t, k)
    ensures KeyWithinCaps(t, Put(s, w), k)
  {
    hide Select, Admits, WithinCaps, Sum, Peers, Sane, OneSpelling;
    var s' := Put(s, w);
    assert KeyWithinCaps(t, s, k);
    if Select(t, w) == Some(k) {
      var lim := LimitAt(t, k);
      var g, all := Governed(t, s', k), Peers(s, w, lim) + {w};
      SaneIds(s');
      AdmittedTotals(t, s, w);
      assert g <= all by {
        PeersAreOthers(t, s, w);
        forall x | x in g && x != w
          ensures x in Peers(s, w, lim)
        {
          GovernedArePeers(t, s', w, x);
        }
      }
      FewerStayWithin(lim, g, all, s');
    } else {
      ShrinkKeepsSafe(t, s, s', k);
    }
  }

  lemma SaneIds(s: Store)
    requires Sane(s)
    ensures NamedIds(s) && UniqueIds(s)
  {
  }

  datatype Op = Upsert(w: Workload) | Delete(id: string)

  /** A guarded store: an upsert goes through only when the gate admits it against the current contents. */
  ghost function Exec(t: Table, s: Store, op: Op): Store {
    match op
    case Upsert(w) => if Admits(t, s, w) then Put(s, w) else s
    case Delete(id) => Without(s, id)
  }

  ghost function Run(t: Table, s: Store, ops: seq<Op>): Store {
    if ops == [] then s else Exec(t, Run(t, s, ops[..|ops| - 1]), ops[|ops| - 1])
  }

  lemma ExecKeepsSafe(t: Table, s: Store, op: Op)
    requires ValidTable(t) && Sane(s) && Sane(Exec(t, s, op)) && OneSpelling(t, Exec(t, s, op)) && Safe(t, s)
    ensures Safe(t, Exec(t, s, op))
  {
    hide Admits, Sane, KeyWithinCaps, ValidTable, Select, OneSpelling;
    forall k | HasLimit(t, k)
      ensures KeyWithinCaps(t, Exec(t, s, op), k)
    {
      assert KeyWithinCaps(t, s, k);
      if op.Upsert? && Admits(t, s, op.w) {
        UpsertKeepsSafe(t, s, op.w, k);
      } else {
        ShrinkKeepsSafe(t, s, Exec(t, s, op), k);
      }
    }
  }

  /** Runs may start from the empty store. */
  lemma EmptyStoreIsSafe(t: Table)
    ensures Safe(t, {}) && Sane({})
  {
    hide Select, TrimLower;
    forall k | HasLimit(t, k)
      ensures KeyWithinCaps(t, {}, k)
    {
      assert Governed(t, {}, k) == {};
    }
  }

  /** Every state reachable through the gate is within every limit, as long as the workloads of each team-less namespace
      limit spell their namespace alike. */
  lemma {:induction false} QuotaSafety(t: Table, s: Store, ops: seq<Op>)
    requires ValidTable(t) && Safe(t, s)
    requires forall n :: 0 <= n <= |ops| ==> Sane(Run(t, s, ops[..n])) && OneSpelling(t, Run(t, s, ops[..n]))
    ensures Safe(t, Run(t, s, ops))
  {
    hide Exec, Safe, Sane, ValidTable, OneSpelling;
    if ops != [] {
      var n := |ops| - 1;
      assert forall i :: 0 <= i <= n ==> ops[..n][..i] == ops[..i];
      assert ops[..|ops|] == ops && ops[..n][..n] == ops[..n];
      QuotaSafety(t, s, ops[..n]);
      ExecKeepsSafe(t, Run(t, s, ops[..n]), ops[n]);
    }
  }

  // ---------------------------------------------------------------- whom limits bind, field by field

  /** The workload names a team: by its tag or, for want of one, by its label. */
  predicate NamesTeam(w: Workload, team: string) {
    var tag := if w.tags.Some? then Trim(w.tags.value.team) else "";
    && team != ""
    && (tag == team || (tag == "" && w.labels.Some? && "kranix.io/team" in w.labels.value
                        && Trim(w.labels.value["kranix.io/team"]) == team))
  }

  /** The workload belongs to the team: it names it, or names none and has it as its tenant; in either case folded. */
  ghost predicate BelongsTo(w: Workload, k: string) {
    || (exists team :: NamesTeam(w, team) && TrimLower(team) == k)
    || (&& (forall team :: !NamesTeam(w, team))
        && w.tenant.Some? && w.tenant.value != "" && TrimLower(w.tenant.value) == k)
  }

  /** The team limit binds the workload: its namespace has no limit of its own and it belongs to the team. */
  ghost predicate BoundByTeam(t: Table, w: Workload, k: string) {
    k in t.team && TrimLower(w.namespace) !in t.namespace && BelongsTo(w, k)
  }

  ghost predicate BoundBy(t: Table, w: Workload, k: Key) {
    match k
    case NamespaceKey(ns) => ns in t.namespace && TrimLower(w.namespace) == ns
    case TeamKey(team) => BoundByTeam(t, w, team)
  }

  lemma TeamIsNamed(w: Workload)
    ensures forall team :: NamesTeam(w, team) <==> team == TeamLabel(w) != ""
  {
    hide Trim;
  }

  /** Each workload is checked against exactly the limit that binds it. */
  lemma CheckedByWhatBinds(t: Table, w: Workload, k: Key)
    requires ValidTable(t)
    ensures Select(t, w) == Some(k) <==> BoundBy(t, w, k)
  {
    hide TrimLower, TeamLabel, NamesTeam;
    TeamIsNamed(w);
    assert TrimLower("") == "" by {
      FoldsToEmpty();
    }
    assert NamesTeam(w, TeamLabel(w)) <==> TeamLabel(w) != "";
  }

  /** The caps of a limit hold of the workloads, each cap that is set. */
  ghost predicate CapsHold(lim: Limit, g: Store) {
    && (lim.maxWorkloads > 0 ==> |g| <= lim.maxWorkloads)
    && (lim.maxReplicasTotal > 0 ==> Sum(g, (w: Workload) => w.spec.replicas) <= lim.maxReplicasTotal)
    && !lim.maxCPU.BadCap? && !lim.maxMemory.BadCap?
    && (lim.maxCPU.Cap? ==>
          Sum(g, (w: Workload) => if w.spec.cpuRequest.Amount? then w.spec.cpuRequest.n else 0) <= lim.maxCPU.n)
    && (lim.maxMemory.Cap? ==>
          Sum(g, (w: Workload) => if w.spec.memoryRequest.Amount? then w.spec.memoryRequest.n else 0)
          <= lim.maxMemory.n)
  }

  lemma CapsAreCaps(lim: Limit, g: Store)
    ensures WithinCaps(lim, |g|, Sum(g, Replicas), Sum(g, Cpu), Sum(g, Memory)) <==> CapsHold(lim, g)
  {
    SumCong(g, Replicas, (w: Workload) => w.spec.replicas);
    SumCong(g, Cpu, (w: Workload) => if w.spec.cpuRequest.Amount? then w.spec.cpuRequest.n else 0);
    SumCong(g, Memory, (w: Workload) => if w.spec.memoryRequest.Amount? then w.spec.memoryRequest.n else 0);
  }

  /** In every state reached through the gate, the workloads that a limit binds are within each of its caps. */
  lemma BoundStayWithinCaps(t: Table, s: Store, ops: seq<Op>, k: Key)
    requires ValidTable(t) && HasLimit(t, k) && Safe(t, s)
    requires forall n :: 0 <= n <= |ops| ==> Sane(Run(t, s, ops[..n])) && OneSpelling(t, Run(t, s, ops[..n]))
    ensures var g := set w | w in Run(t, s, ops) && BoundBy(t, w, k);
            g != {} ==> CapsHold(LimitAt(t, k), g)
  {
    hide Run, Sane, OneSpelling, Select, BoundBy, CapsHold, WithinCaps, ValidTable;
    QuotaSafety(t, s, ops);
    var g := set w | w in Run(t, s, ops) && BoundBy(t, w, k);
    assert g == Governed(t, Run(t, s, ops), k) by {
      forall w
        ensures Select(t, w) == Some(k) <==> BoundBy(t, w, k)
      {
        CheckedByWhatBinds(t, w, k);
      }
    }
    CapsAreCaps(LimitAt(t, k), g);
  }

  /** The workload carries the team's name, by tag or label or as its tenant. */
  ghost predicate Carries(w: Workload, k: string) {
    || (exists team :: NamesTeam(w, team) && TrimLower(team) == k)
    || (w.tenant.Some? && TrimLower(w.tenant.value) == k)
  }

  /** A team limit counts exactly the other stored workloads that carry the team's name, in whatever namespace. */
  lemma TeamPeersExactly(t: Table, s: Store, w: Workload, x: Workload, k: string)
    requires ValidTable(t) && k in t.team && w.id != ""
    ensures x in Peers(s, w, t.team[k]) <==> x in s && x.id != w.id && Carries(x, k)
  {
    hide TrimLower, TeamLabel, NamesTeam;
    TeamIsNamed(x);
    assert TrimLower("") == "" by {
      FoldsToEmpty();
    }
    assert NamesTeam(x, TeamLabel(x)) <==> TeamLabel(x) != "";
  }

  /** A workload bound by a team limit is refused when as many others as the cap allows carry the team's name. */
  lemma RefusedAtTeamCap(t: Table, s: Store, w: Workload, k: string, others: Store)
    requires ValidTable(t) && BoundByTeam(t, w, k) && w.id != "" && |s| < MAX_INT32
    requires others <= s && forall x :: x in others ==> x.id != w.id && Carries(x, k)
    requires 0 < t.team[k].maxWorkloads <= |others|
    ensures !Admits(t, s, w)
  {
    hide Select, ValidTable, BoundBy, Carries, Peers, Usage, Parses;
    assert BoundBy(t, w, TeamKey(k)) by {
      BoundByKey(t, w, k);
    }
    CheckedByWhatBinds(t, w, TeamKey(k));
    var peers := Peers(s, w, t.team[k]);
    forall x
      ensures x in peers <==> x in s && x.id != w.id && Carries(x, k)
    {
      TeamPeersExactly(t, s, w, x, k);
    }
    SubsetSize(others, peers);
    SubsetSize(peers, s);
    UsageCount(peers);
  }

  lemma BoundByKey(t: Table, w: Workload, k: string)
    ensures BoundBy(t, w, TeamKey(k)) <==> BoundByTeam(t, w, k)
  {
  }

  /** A workload bound by a team limit that nobody else counts for is admitted exactly when its own requests can be read
      and are within each cap; strangers do not matter. */
  lemma AdmittedAlone(t: Table, s: Store, w: Workload, k: string)
    requires ValidTable(t) && BoundByTeam(t, w, k) && w.id != ""
    requires forall x :: x in s && x.id != w.id ==> !Carries(x, k)
    ensures var lim := t.team[k];
            Admits(t, s, w) <==>
            && w.spec.cpuRequest.Amount? && w.spec.memoryRequest.Amount?
            && !lim.maxCPU.BadCap? && (lim.maxCPU.Cap? ==> w.spec.cpuRequest.n <= lim.maxCPU.n)
            && !lim.maxMemory.BadCap? && (lim.maxMemory.Cap? ==> w.spec.memoryRequest.n <= lim.maxMemory.n)
            && (lim.maxReplicasTotal > 0 ==> w.spec.replicas <= lim.maxReplicasTotal)
  {
    hide Select, ValidTable, BoundBy, Carries, Peers;
    assert BoundBy(t, w, TeamKey(k)) by {
      BoundByKey(t, w, k);
    }
    CheckedByWhatBinds(t, w, TeamKey(k));
    var peers := Peers(s, w, t.team[k]);
    forall x
      ensures x !in peers
    {
      TeamPeersExactly(t, s, w, x, k);
    }
    assert peers == {};
    NoUsage();
  }

  lemma NoUsage()
    ensures Usage({}) == Totals(0, 0, 0, 0)
  {
  }

  /** Usage adds up field by field. */
  lemma UsageAddsUp(s: Store, w: Workload)
    requires w !in s && w.spec.cpuRequest.Amount? && w.spec.memoryRequest.Amount?
    ensures var u, u' := Usage(s), Usage(s + {w});
            && u'.count == u.count + 1 && u'.cpu == u.cpu + w.spec.cpuRequest.n
            && u'.memory == u.memory + w.spec.memoryRequest.n
            && u'.replicas == Wrap32(u.replicas + w.spec.replicas)
  {
    hide Wrap32, Usage;
    UsageOfPut(s, w);
  }

  // ---------------------------------------------------------------- why spelling matters

  /** A namespace limit of one workload and no other cap. */
  predicate IsLimitOfOne(lim: Limit) {
    lim.maxWorkloads == 1 && lim.maxReplicasTotal <= 0 && lim.maxCPU.NoCap? && lim.maxMemory.NoCap?
  }

  /** Under a namespace limit of one workload, a second one gets in exactly when the limit names no team and the two
      spell the namespace differently; the limit is then exceeded. */
  lemma SecondSpellingEscapes(t: Table, a: Workload, b: Workload, ns: string)
    requires ValidTable(t) && Select(t, a) == Select(t, b) == Some(NamespaceKey(ns))
    requires a.id != "" && b.id != "" && a.id != b.id && Parses(a) && Parses(b) && IsLimitOfOne(t.namespace[ns])
    ensures Admits(t, {}, a)
    ensures Admits(t, {a}, b) <==> TrimLower(t.namespace[ns].teamID) == "" && a.namespace != b.namespace
    ensures !KeyWithinCaps(t, {a, b}, NamespaceKey(ns))
  {
    hide TrimLower, Select, Sum, Wrap32, MatchesQuotaKey, NamespaceFilter, ValidTable;
    var lim := t.namespace[ns];
    assert Peers({}, a, lim) == {};
    CountsExactlyWhenSpelledAlike(t, {a}, b, a, ns);
    assert Peers({a}, b, lim) == if a in Peers({a}, b, lim) then {a} else {};
    assert Governed(t, {a, b}, NamespaceKey(ns)) == {a, b};
  }

  /** Two such workloads exist: "Prod" and "prod" fold to one key. */
  lemma MixedCaseNamespacesEscape(a: Workload, b: Workload, lim: Limit)
    requires a.namespace == "Prod" && b.namespace == "prod" && a.id != "" && b.id != "" && a.id != b.id
    requires Parses(a) && Parses(b) && lim == Limit("prod", "", NoCap, NoCap, 1, 0)
    ensures var t := Table(map["prod" := lim], map[]);
            ValidTable(t) && Admits(t, {}, a) && Admits(t, {a}, b) && !Safe(t, {a, b})
  {
    hide TrimLower, TeamLabel, Admits, KeyWithinCaps;
    FoldsToProd();
    var t := Table(map["prod" := lim], map[]);
    SecondSpellingEscapes(t, a, b, "prod");
    assert HasLimit(t, NamespaceKey("prod"));
  }

  lemma FoldsToProd()
    ensures TrimLower("Prod") == "prod" && TrimLower("prod") == "prod" && TrimLower("") == ""
  {
    TrimEnds("Prod");
    TrimEnds("prod");
    assert Lower("Prod") == "prod";
    assert Lower("prod") == "prod";
  }
}
