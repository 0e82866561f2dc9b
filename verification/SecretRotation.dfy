/** Secret versions, the workloads that reference them, and pending restarts. */
module SecretRotation {
  import opened Types
  import opened Strings

  datatype SecretKey = SecretKey(namespace: string, name: string)

  function KeyOf(namespace: string, name: string): SecretKey {
    SecretKey(if Trim(namespace) == "" then "default" else Trim(namespace), Trim(name))
  }

  /** Normalising a normalised key changes nothing. */
  lemma KeyIsNormalized(namespace: string, name: string)
    ensures var k := KeyOf(namespace, name); KeyOf(k.namespace, k.name) == k
  {
    hide Trim, Trimmed;
    TrimEnds(namespace);
    TrimEnds(name);
    TrimEnds(Trim(namespace));
    TrimEnds(Trim(name));
    assert Trim("default") == "default" by {
      DefaultIsTrimmed();
    }
  }

  lemma DefaultIsTrimmed()
    ensures Trim("default") == "default"
  {
    TrimEnds("default");
  }

  type Index = map<SecretKey, set<string>>
  type Versions = map<SecretKey, string>
  type Workloads = map<string, Workload>

  function IdsFor(index: Index, k: SecretKey): set<string> {
    if k in index then index[k] else {}
  }

  /** The empty string stands for a version never observed. */
  function VersionOf(versions: Versions, k: SecretKey): string {
    if k in versions then versions[k] else ""
  }

  predicate EnabledFor(enabled: bool, w: Workload) {
    (w.spec.secretRotation.Some? && w.spec.secretRotation.value.enabled) || enabled
  }

  /** The names a workload registers: its non-empty references, taken in its own namespace. */
  function RefNames(w: Workload): seq<string> {
    if w.spec.secretRotation.Some? then w.spec.secretRotation.value.secretRefs else []
  }

  predicate References(w: Workload, k: SecretKey) {
    exists i :: 0 <= i < |RefNames(w)| && RefNames(w)[i] != "" && KeyOf(w.namespace, RefNames(w)[i]) == k
  }

  // ---------------------------------------------------------------- the registry

  class Registry {
    var versions: Versions
    var workloads: Index

    constructor ()
      ensures versions == map[] && workloads == map[]
    {
      versions, workloads := map[], map[];
    }

    method RegisterWorkload(id: string, namespace: string, refs: seq<string>)
      modifies this`workloads
      ensures forall k :: IdsFor(workloads, k) ==
                          IdsFor(old(workloads), k) +
                          if exists i :: 0 <= i < |refs| && refs[i] != "" && KeyOf(namespace, refs[i]) == k
                          then {id} else {}
    {
      hide KeyOf;
      for i := 0 to |refs|
        invariant forall k :: IdsFor(workloads, k) ==
                              IdsFor(old(workloads), k) +
                              if exists j :: 0 <= j < i && refs[j] != "" && KeyOf(namespace, refs[j]) == k
                              then {id} else {}
      {
        if refs[i] == "" {
          continue;
        }
        var k := KeyOf(namespace, refs[i]);
        workloads := workloads[k := IdsFor(workloads, k) + {id}];
      }
    }

    method ObserveVersion(k: SecretKey, version: string) returns (changed: bool, prev: string)
      modifies this`versions
      ensures prev == VersionOf(old(versions), k)
      ensures changed == (prev != "" && prev != version)
      ensures versions == if prev == version then old(versions) else old(versions)[k := version]
    {
      prev := VersionOf(versions, k);
      if prev == version {
        return false, prev;
      }
      versions := versions[k := version];
      return prev != "", prev;
    }
  }

  // ---------------------------------------------------------------- notifications and restarts

  datatype Notification = Notification(namespace: string, name: string, version: string, resourceVersion: string)

  /** The version a notification announces: its version, or failing that its resource version. */
  function Announced(n: Notification): string {
    if Trim(n.version) != "" then Trim(n.version) else Trim(n.resourceVersion)
  }

  predicate IsValid(n: Notification) {
    Trim(n.name) != "" && Announced(n) != ""
  }

  predicate Pending(w: Workload) {
    w.status.secretRotation.Some? && w.status.secretRotation.value.pendingRestart
  }

  function OldStatus(w: Workload): SecretRotationStatus {
    if w.status.secretRotation.Some? then w.status.secretRotation.value else SecretRotationStatus(false, "", "", 0, "")
  }

  function Marked(w: Workload, name: string, version: string): Workload {
    w.(status := w.status.(secretRotation := Some(OldStatus(w).(
      pendingRestart := true, secretName := name, secretVersion := version,
      message := "secret rotated; rolling restart pending"))))
  }

  function Restarted(w: Workload): Workload {
    var st := OldStatus(w);
    w.(status := w.status.(
      restartGeneration := Wrap32(w.status.restartGeneration + 1),
      secretRotation := Some(st.(
        pendingRestart := false, restartCount := Wrap32(st.restartCount + 1),
        message := "rolling restart completed after secret rotation"))))
  }

  /** Marks the stored, enabled workloads among `ids`. */
  function MarkAll(enabled: bool, s: Workloads, ids: set<string>, name: string, version: string): Workloads {
    map id | id in s :: if id in ids && EnabledFor(enabled, s[id]) then Marked(s[id], name, version) else s[id]
  }

  function MarkedIds(enabled: bool, s: Workloads, ids: set<string>): set<string> {
    set id | id in ids && id in s && EnabledFor(enabled, s[id])
  }

  /** Exactly the reported workloads are marked: those are pending, all others are as they were. */
  lemma ReportsExactlyMarked(enabled: bool, s: Workloads, ids: set<string>, name: string, version: string, id: string)
    requires id in s
    ensures id in MarkedIds(enabled, s, ids) ==>
              id in ids && Pending(MarkAll(enabled, s, ids, name, version)[id])
    ensures id !in MarkedIds(enabled, s, ids) ==> MarkAll(enabled, s, ids, name, version)[id] == s[id]
  {
  }

  class Engine {
    const enabled: bool
    const registry: Registry
    var store: Workloads

    constructor (enabled: bool, registry: Registry, store: Workloads)
      ensures this.enabled == enabled && this.registry == registry && this.store == store
    {
      this.enabled, this.registry, this.store := enabled, registry, store;
    }

    method IndexWorkload(w: Workload)
      modifies registry`workloads
      ensures forall k :: IdsFor(registry.workloads, k) == IdsFor(old(registry.workloads), k) +
                          if EnabledFor(enabled, w) && References(w, k) then {w.id} else {}
    {
      hide KeyOf;
      if !EnabledFor(enabled, w) {
        return;
      }
      registry.RegisterWorkload(w.id, w.namespace, RefNames(w));
    }

    method HandleRotation(n: Notification) returns (r: Result<set<string>>)
      modifies this`store, registry`versions
      ensures r.Ok? <==> IsValid(n)
      ensures r.Err? ==> store == old(store) && registry.versions == old(registry.versions)
      ensures r.Ok? ==>
        var k, v := KeyOf(n.namespace, n.name), Announced(n);
        var prev := VersionOf(old(registry.versions), k);
        var affected := if prev != "" && prev != v then IdsFor(registry.workloads, k) else {};
        && store == MarkAll(enabled, old(store), affected, n.name, v)
        && (forall q :: VersionOf(registry.versions, q) == if q == k then v else VersionOf(old(registry.versions), q))
        && r.value == MarkedIds(enabled, old(store), affected)
    {
      hide KeyOf, Trim, EnabledFor, Marked;
      if Trim(n.name) == "" {
        return Err("secret name required");
      }
      var version := Announced(n);
      if version == "" {
        return Err("version or resource_version required");
      }
      var k := KeyOf(n.namespace, n.name);
      var changed, _ := registry.ObserveVersion(k, version);
      if !changed {
        assert MarkAll(enabled, store, {}, n.name, version) == store;
        assert MarkedIds(enabled, store, {}) == {};
        return Ok({});
      }
      var affected := IdsFor(registry.workloads, k);
      var marked, restarted := MarkAffected(enabled, store, affected, n.name, version);
      store := marked;
      return Ok(restarted);
    }
  }

  /** Visits the affected workloads in an arbitrary order, skipping those not stored or not enabled. */
  method MarkAffected(enabled: bool, s: Workloads, affected: set<string>, name: string, version: string)
    returns (s': Workloads, restarted: set<string>)
    ensures s' == MarkAll(enabled, s, affected, name, version)
    ensures restarted == MarkedIds(enabled, s, affected)
  {
    hide Marked, EnabledFor;
    s', restarted := s, {};
    var todo := affected;
    while todo != {}
      invariant todo <= affected && s'.Keys == s.Keys
      invariant forall id :: id in s ==>
                  s'[id] == if id in affected && id !in todo && EnabledFor(enabled, s[id])
                            then Marked(s[id], name, version) else s[id]
      invariant forall id :: id in restarted <==> id in affected && id !in todo && id in s && EnabledFor(enabled, s[id])
    {
      var id :| id in todo;
      todo := todo - {id};
      if id in s' && EnabledFor(enabled, s'[id]) {
        s' := s'[id := Marked(s'[id], name, version)];
        restarted := restarted + {id};
      }
    }
  }

  // ---------------------------------------------------------------- runs

  datatype State = State(store: Workloads, versions: Versions, index: Index)

  /** A write of everything but the rotation status, a rotation notice, the secret part of a reconcile pass, whose
      restart, if it comes to one, succeeds or fails, and the three requests to the server: a deployment, which stores a
      workload with a fresh status, a restart, and a deletion. */
  datatype Event =
    Put(w: Workload) | Rotate(n: Notification) | Reconcile(id: string, restartSucceeds: bool)
  | Deploy(w: Workload) | RestartNow(id: string, restartSucceeds: bool) | Delete(id: string)

  function Indexed(enabled: bool, index: Index, w: Workload): Index {
    if !EnabledFor(enabled, w) then index else
      IndexedNames(index, w.id, w.namespace, RefNames(w))
  }

  function IndexedNames(index: Index, id: string, namespace: string, refs: seq<string>): Index {
    if refs == [] then index else
      var rest, name := IndexedNames(index, id, namespace, refs[..|refs| - 1]), refs[|refs| - 1];
      if name == "" then rest else
        rest[KeyOf(namespace, name) := IdsFor(rest, KeyOf(namespace, name)) + {id}]
  }

  predicate Restarts(s: State, id: string) {
    id in s.store && Pending(s.store[id]) && s.store[id].status.phase.Running?
  }

  function WithRotation(w: Workload, st: Option<SecretRotationStatus>): Workload {
    w.(status := w.status.(secretRotation := st))
  }

  /** A requested restart clears the flag without counting. */
  function Cleared(w: Workload): Workload {
    if w.status.secretRotation.None? then w else
      WithRotation(w, Some(OldStatus(w).(pendingRestart := false, message := "rolling restart completed")))
  }

  function Exec(enabled: bool, s: State, e: Event): State {
    match e
    case Put(w) =>
      var kept := if w.id in s.store then s.store[w.id].status.secretRotation else None;
      s.(store := s.store[w.id := WithRotation(w, kept)])
    case Rotate(n) =>
      if !IsValid(n) then s else
        var k, v := KeyOf(n.namespace, n.name), Announced(n);
        var prev := VersionOf(s.versions, k);
        var affected := if prev != "" && prev != v then IdsFor(s.index, k) else {};
        s.(store := MarkAll(enabled, s.store, affected, n.name, v), versions := s.versions[k := v])
    case Reconcile(id, succeeds) =>
      if id !in s.store then s else
        var indexed := s.(index := Indexed(enabled, s.index, s.store[id]));
        if succeeds && Restarts(s, id) then indexed.(store := s.store[id := Restarted(s.store[id])]) else indexed
    case Deploy(w) =>
      s.(store := s.store[w.id := WithRotation(w, None)],
         index := if w.id in s.store then s.index else Indexed(enabled, s.index, w))
    case RestartNow(id, succeeds) =>
      if id in s.store && succeeds then s.(store := s.store[id := Cleared(s.store[id])]) else s
    case Delete(id) => s.(store := s.store - {id})
  }

  function Run(enabled: bool, h: seq<Event>): State {
    if h == [] then State(map[], map[], map[]) else Exec(enabled, Run(enabled, h[..|h| - 1]), h[|h| - 1])
  }

  // ---------------------------------------------------------------- what the state means

  /** The event registers workload `id` under key `k`: a pass over it, or its first deployment. */
  predicate Registers(enabled: bool, s: State, e: Event, id: string, k: SecretKey) {
    || (e.Reconcile? && e.id in s.store && s.store[e.id].id == id && EnabledFor(enabled, s.store[e.id])
        && References(s.store[e.id], k))
    || (e.Deploy? && e.w.id !in s.store && e.w.id == id && EnabledFor(enabled, e.w) && References(e.w, k))
  }

  /** Event `i` registered workload `id` under key `k`. */
  ghost predicate RegistersAt(enabled: bool, h: seq<Event>, i: int, id: string, k: SecretKey) {
    0 <= i < |h| && Registers(enabled, Run(enabled, h[..i]), h[i], id, k)
  }

  ghost predicate EverRegistered(enabled: bool, h: seq<Event>, id: string, k: SecretKey) {
    exists i :: RegistersAt(enabled, h, i, id, k)
  }

  /** The version announced by the last valid notice about `k`, or the empty string. */
  function LastVersion(h: seq<Event>, k: SecretKey): string {
    if h == [] then "" else
      var e := h[|h| - 1];
      if e.Rotate? && IsValid(e.n) && KeyOf(e.n.namespace, e.n.name) == k then Announced(e.n)
      else LastVersion(h[..|h| - 1], k)
  }

  /** Event `i` is a change, other than the first version, of a secret that the stored, enabled workload had indexed. */
  ghost predicate HitsAt(enabled: bool, h: seq<Event>, i: int, id: string) {
    && 0 <= i < |h| && h[i].Rotate? && IsValid(h[i].n)
    && var k := KeyOf(h[i].n.namespace, h[i].n.name);
       && LastVersion(h[..i], k) != "" && LastVersion(h[..i], k) != Announced(h[i].n)
       && EverRegistered(enabled, h[..i], id, k)
       && id in Run(enabled, h[..i]).store && EnabledFor(enabled, Run(enabled, h[..i]).store[id])
  }

  /** The event settles what is pending for the workload: a restart that succeeds, in a pass or on request, or a
      deployment or deletion, which forgets it. */
  predicate Settles(s: State, e: Event, id: string) {
    || (e == Reconcile(id, true) && Restarts(s, id)) || e == RestartNow(id, true)
    || (e.Deploy? && e.w.id == id) || e == Delete(id)
  }

  ghost predicate SettlesAt(enabled: bool, h: seq<Event>, i: int, id: string) {
    0 <= i < |h| && Settles(Run(enabled, h[..i]), h[i], id)
  }

  /** A hit that no later event has settled. */
  ghost predicate Unanswered(enabled: bool, h: seq<Event>, i: int, id: string) {
    HitsAt(enabled, h, i, id) && forall j :: i < j < |h| ==> !SettlesAt(enabled, h, j, id)
  }

  lemma {:induction false} IndexedNamesMembers(index: Index, id: string, namespace: string, refs: seq<string>,
                                               k: SecretKey)
    ensures IdsFor(IndexedNames(index, id, namespace, refs), k) ==
            IdsFor(index, k) +
            if exists i :: 0 <= i < |refs| && refs[i] != "" && KeyOf(namespace, refs[i]) == k then {id} else {}
  {
    hide KeyOf;
    if refs != [] {
      var init := refs[..|refs| - 1];
      IndexedNamesMembers(index, id, namespace, init, k);
      assert forall i :: 0 <= i < |init| ==> init[i] == refs[i];
    }
  }

  lemma RegistersInPrefix(enabled: bool, h: seq<Event>, n: nat, i: int, id: string, k: SecretKey)
    requires n <= |h| && i < n
    ensures RegistersAt(enabled, h[..n], i, id, k) <==> RegistersAt(enabled, h, i, id, k)
  {
    if 0 <= i {
      assert h[..n][..i] == h[..i];
    }
  }

  /** The index holds, for every normalised key, exactly the workloads ever registered under it. */
  lemma {:induction false} IndexIsExact(enabled: bool, h: seq<Event>, id: string, k: SecretKey)
    ensures id in IdsFor(Run(enabled, h).index, k) <==> EverRegistered(enabled, h, id, k)
  {
    hide KeyOf, References, RegistersAt;
    if h != [] {
      var n := |h| - 1;
      var before := Run(enabled, h[..n]);
      IndexIsExact(enabled, h[..n], id, k);
      forall i | i < n
        ensures RegistersAt(enabled, h[..n], i, id, k) <==> RegistersAt(enabled, h, i, id, k)
      {
        RegistersInPrefix(enabled, h, n, i, id, k);
      }
      LastRegisters(enabled, h, id, k);
      assert EverRegistered(enabled, h, id, k) <==>
             EverRegistered(enabled, h[..n], id, k) || RegistersAt(enabled, h, n, id, k) by {
        RegistersInRange(enabled, h, id, k);
        RegistersInRange(enabled, h[..n], id, k);
      }
    } else {
      RegistersInRange(enabled, h, id, k);
    }
  }

  lemma RegistersInRange(enabled: bool, h: seq<Event>, id: string, k: SecretKey)
    ensures forall i :: RegistersAt(enabled, h, i, id, k) ==> 0 <= i < |h|
  {
  }

  lemma IndexAfter(enabled: bool, s: State, e: Event, id: string, k: SecretKey)
    ensures id in IdsFor(Exec(enabled, s, e).index, k) <==>
            id in IdsFor(s.index, k) || Registers(enabled, s, e, id, k)
  {
    hide KeyOf, IndexedNames, EnabledFor, MarkAll, Restarted, Restarts;
    if e.Reconcile? && e.id in s.store {
      var w := s.store[e.id];
      IndexedNamesMembers(s.index, w.id, w.namespace, RefNames(w), k);
    } else if e.Deploy? {
      IndexedNamesMembers(s.index, e.w.id, e.w.namespace, RefNames(e.w), k);
    }
  }

  lemma LastRegisters(enabled: bool, h: seq<Event>, id: string, k: SecretKey)
    requires h != []
    ensures var n := |h| - 1;
            id in IdsFor(Run(enabled, h).index, k) <==>
            id in IdsFor(Run(enabled, h[..n]).index, k) || RegistersAt(enabled, h, n, id, k)
  {
    hide Exec, IdsFor, Registers;
    var n := |h| - 1;
    IndexAfter(enabled, Run(enabled, h[..n]), h[n], id, k);
  }

  lemma {:induction false} VersionIsLast(enabled: bool, h: seq<Event>, k: SecretKey)
    ensures VersionOf(Run(enabled, h).versions, k) == LastVersion(h, k)
  {
    hide KeyOf, IsValid, Announced, Indexed, MarkAll;
    if h != [] {
      VersionIsLast(enabled, h[..|h| - 1], k);
    }
  }

  /** The state's own view of a change that concerns the workload. */
  predicate Hits(enabled: bool, s: State, e: Event, id: string)
    requires id in s.store
  {
    && e.Rotate? && IsValid(e.n)
    && var k := KeyOf(e.n.namespace, e.n.name);
       && VersionOf(s.versions, k) != "" && VersionOf(s.versions, k) != Announced(e.n)
       && id in IdsFor(s.index, k) && EnabledFor(enabled, s.store[id])
  }

  /** How one event changes the pending flag. */
  lemma PendingAfter(enabled: bool, s: State, e: Event, id: string)
    requires id in s.store
    ensures id in Exec(enabled, s, e).store <==> e != Delete(id)
    ensures e != Delete(id) ==>
              (Pending(Exec(enabled, s, e).store[id]) <==>
               Hits(enabled, s, e, id) || (Pending(s.store[id]) && !Settles(s, e, id)))
    ensures Hits(enabled, s, e, id) ==>
              var st := OldStatus(Exec(enabled, s, e).store[id]);
              st.secretName == e.n.name && st.secretVersion == Announced(e.n)
  {
    hide Exec, Hits, Settles, Pending, Announced;
    if e.Rotate? {
      PendingAfterRotation(enabled, s, e, id);
    } else {
      PendingAfterOther(enabled, s, e, id);
    }
  }

  lemma PendingAfterRotation(enabled: bool, s: State, e: Event, id: string)
    requires id in s.store && e.Rotate?
    ensures id in Exec(enabled, s, e).store && !Settles(s, e, id)
    ensures Pending(Exec(enabled, s, e).store[id]) <==> Hits(enabled, s, e, id) || Pending(s.store[id])
    ensures Hits(enabled, s, e, id) ==>
              var st := OldStatus(Exec(enabled, s, e).store[id]);
              st.secretName == e.n.name && st.secretVersion == Announced(e.n)
  {
    hide KeyOf, IsValid, Announced, EnabledFor, VersionOf, IdsFor;
  }

  lemma PendingAfterOther(enabled: bool, s: State, e: Event, id: string)
    requires id in s.store && !e.Rotate?
    ensures !Hits(enabled, s, e, id) && (id in Exec(enabled, s, e).store <==> e != Delete(id))
    ensures e != Delete(id) ==>
              (Pending(Exec(enabled, s, e).store[id]) <==> Pending(s.store[id]) && !Settles(s, e, id))
  {
    hide Indexed, MarkAll, Restarted, Cleared;
    Answered(s.store[id]);
  }

  lemma Answered(w: Workload)
    ensures !Pending(Restarted(w)) && !Pending(Cleared(w))
  {
    hide Wrap32;
  }

  lemma PendingStep(enabled: bool, h: seq<Event>, id: string)
    requires h != [] && id in Run(enabled, h[..|h| - 1]).store && id in Run(enabled, h).store
    ensures var n := |h| - 1;
            Pending(Run(enabled, h).store[id]) <==>
            HitsAt(enabled, h, n, id) || (Pending(Run(enabled, h[..n]).store[id]) && !SettlesAt(enabled, h, n, id))
  {
    hide Exec, Pending, Settles, KeyOf, IsValid, Announced, EverRegistered, EnabledFor, VersionOf, IdsFor, LastVersion;
    var n := |h| - 1;
    PendingAfter(enabled, Run(enabled, h[..n]), h[n], id);
    if h[n].Rotate? && IsValid(h[n].n) {
      var k := KeyOf(h[n].n.namespace, h[n].n.name);
      VersionIsLast(enabled, h[..n], k);
      IndexIsExact(enabled, h[..n], id, k);
    }
  }

  lemma FirstStored(enabled: bool, h: seq<Event>, id: string)
    requires h != [] && id in Run(enabled, h).store && id !in Run(enabled, h[..|h| - 1]).store
    ensures !Pending(Run(enabled, h).store[id])
  {
    hide Exec;
    StoredFresh(enabled, Run(enabled, h[..|h| - 1]), h[|h| - 1], id);
  }

  lemma StoredFresh(enabled: bool, s: State, e: Event, id: string)
    requires id !in s.store && id in Exec(enabled, s, e).store
    ensures !Pending(Exec(enabled, s, e).store[id])
  {
    hide KeyOf, IsValid, Announced, Indexed, Restarted, Cleared;
  }

  /** A workload that was stored and is not any more has been deleted in between. */
  lemma {:induction false} DeletedBetween(enabled: bool, h: seq<Event>, i: nat, id: string) returns (j: nat)
    requires i <= |h| && id in Run(enabled, h[..i]).store && id !in Run(enabled, h).store
    ensures i <= j < |h| && h[j] == Delete(id)
    decreases |h|
  {
    hide KeyOf, IsValid, Announced, Indexed, MarkAll;
    assert i < |h| by {
      assert h[..|h|] == h;
    }
    var n := |h| - 1;
    if id in Run(enabled, h[..n]).store {
      StaysUnlessDeleted(enabled, Run(enabled, h[..n]), h[n], id);
      j := n;
    } else {
      assert h[..n][..i] == h[..i];
      j := DeletedBetween(enabled, h[..n], i, id);
    }
  }

  lemma StaysUnlessDeleted(enabled: bool, s: State, e: Event, id: string)
    requires id in s.store && id !in Exec(enabled, s, e).store
    ensures e == Delete(id)
  {
    hide KeyOf, IsValid, Announced, Indexed;
  }

  lemma EventsInPrefix(enabled: bool, h: seq<Event>, n: nat, i: int, id: string)
    requires n <= |h| && i < n
    ensures HitsAt(enabled, h[..n], i, id) <==> HitsAt(enabled, h, i, id)
    ensures SettlesAt(enabled, h[..n], i, id) <==> SettlesAt(enabled, h, i, id)
  {
    if 0 <= i {
      assert h[..n][..i] == h[..i];
    }
  }

  /** An unanswered hit among the first events stays unanswered unless the last event answers it. */
  lemma UnansweredStep(enabled: bool, h: seq<Event>, i: int, id: string)
    requires h != [] && i < |h| - 1
    ensures Unanswered(enabled, h, i, id) <==>
            Unanswered(enabled, h[..|h| - 1], i, id) && !SettlesAt(enabled, h, |h| - 1, id)
  {
    hide HitsAt, SettlesAt;
    var n := |h| - 1;
    forall j | j < n
      ensures HitsAt(enabled, h[..n], j, id) <==> HitsAt(enabled, h, j, id)
      ensures SettlesAt(enabled, h[..n], j, id) <==> SettlesAt(enabled, h, j, id)
    {
      EventsInPrefix(enabled, h, n, j, id);
    }
  }

  /** No rotation is lost and no restart is spurious: a stored workload is pending exactly when some change of one of
      its indexed secrets has occurred since it was last restarted, deployed or deleted. */
  lemma {:induction false} PendingIsExact(enabled: bool, h: seq<Event>, id: string)
    requires id in Run(enabled, h).store
    ensures Pending(Run(enabled, h).store[id]) <==> exists i :: Unanswered(enabled, h, i, id)
  {
    hide HitsAt, SettlesAt, Exec, Pending, Unanswered;
    if h == [] {
      assert false;
    }
    var n := |h| - 1;
    forall i | i < n
      ensures Unanswered(enabled, h, i, id) <==> Unanswered(enabled, h[..n], i, id) && !SettlesAt(enabled, h, n, id)
    {
      UnansweredStep(enabled, h, i, id);
    }
    UnansweredInRange(enabled, h, id);
    UnansweredInRange(enabled, h[..n], id);
    LastUnanswered(enabled, h, id);
    if id in Run(enabled, h[..n]).store {
      PendingStep(enabled, h, id);
      PendingIsExact(enabled, h[..n], id);
      if HitsAt(enabled, h, n, id) {
        assert Unanswered(enabled, h, n, id);
      }
    } else {
      FirstStored(enabled, h, id);
      NoHitBeforeStored(enabled, h, id);
    }
  }

  lemma UnansweredInRange(enabled: bool, h: seq<Event>, id: string)
    ensures forall i :: Unanswered(enabled, h, i, id) ==> 0 <= i < |h|
  {
  }

  lemma LastUnanswered(enabled: bool, h: seq<Event>, id: string)
    requires h != []
    ensures Unanswered(enabled, h, |h| - 1, id) <==> HitsAt(enabled, h, |h| - 1, id)
  {
    hide HitsAt, SettlesAt;
  }

  lemma NoHitBeforeStored(enabled: bool, h: seq<Event>, id: string)
    requires h != [] && id !in Run(enabled, h[..|h| - 1]).store
    ensures forall i :: !Unanswered(enabled, h, i, id)
  {
    hide Exec, EverRegistered, LastVersion, KeyOf, IsValid, Announced, EnabledFor, Restarts;
    var n := |h| - 1;
    forall i | 0 <= i < |h| && HitsAt(enabled, h, i, id)
      ensures !Unanswered(enabled, h, i, id)
    {
      assert i < n && h[..n][..i] == h[..i];
      var j := DeletedBetween(enabled, h[..n], i, id);
      assert SettlesAt(enabled, h, j, id);
    }
  }

  // ---------------------------------------------------------------- which secret, which workload, field by field

  /** Two spellings of one namespace, a blank one being the default namespace. */
  predicate SameNamespace(a: string, b: string) {
    Trim(a) == Trim(b) || (Trim(a) in ["", "default"] && Trim(b) in ["", "default"])
  }

  /** Keys are equal exactly when they mean one secret: names agree up to white space, and namespaces agree. */
  lemma KeysAgreeExactly(ns1: string, name1: string, ns2: string, name2: string)
    ensures KeyOf(ns1, name1) == KeyOf(ns2, name2) <==> Trim(name1) == Trim(name2) && SameNamespace(ns1, ns2)
  {
    hide Trim;
    assert "default" != "";
  }

  /** The version that a notice is about: the version field or, if blank, the resource version. */
  predicate Announces(n: Notification, version: string) {
    version != "" && (Trim(n.version) == version || (Trim(n.version) == "" && Trim(n.resourceVersion) == version))
  }

  predicate RefersTo(w: Workload, n: Notification) {
    && w.spec.secretRotation.Some? && SameNamespace(w.namespace, n.namespace)
    && exists ref :: ref in w.spec.secretRotation.value.secretRefs && ref != "" && Trim(ref) == Trim(n.name)
  }

  /** A stored workload that a pass has indexed is pending after two notices exactly when rotation is on for it, the
      notices are about one secret that it refers to, and announce two different versions. */
  lemma SecondNoticeMarksExactly(enabled: bool, w: Workload, n1: Notification, n2: Notification)
    requires !Pending(w)
    ensures var s := Exec(enabled, State(map[w.id := w], map[], map[]), Reconcile(w.id, false));
            var s' := Exec(enabled, Exec(enabled, s, Rotate(n1)), Rotate(n2));
            && w.id in s'.store
            && (Pending(s'.store[w.id]) <==>
                && (enabled || (w.spec.secretRotation.Some? && w.spec.secretRotation.value.enabled))
                && RefersTo(w, n2) && Trim(n1.name) == Trim(n2.name) != "" && SameNamespace(n1.namespace, n2.namespace)
                && exists v1, v2 :: Announces(n1, v1) && Announces(n2, v2) && v1 != v2)
            && (Pending(s'.store[w.id]) ==> OldStatus(s'.store[w.id]).secretName == n2.name
                                            && Announces(n2, OldStatus(s'.store[w.id]).secretVersion))
  {
    hide Exec, KeyOf, Announced, Announces, Trim, RefersTo, SameNamespace, EnabledFor, References;
    var s0 := State(map[w.id := w], map[], map[]);
    var s := Exec(enabled, s0, Reconcile(w.id, false));
    var s1 := Exec(enabled, s, Rotate(n1));
    var k1, k2 := KeyOf(n1.namespace, n1.name), KeyOf(n2.namespace, n2.name);
    PassIndexes(enabled, s0, w, k2);
    PassIndexes(enabled, s0, w, k1);
    FirstNotice(enabled, s, n1, k2);
    AnnouncesAnnounced(n1);
    AnnouncesAnnounced(n2);
    PendingAfter(enabled, s0, Reconcile(w.id, false), w.id);
    PendingAfter(enabled, s, Rotate(n1), w.id);
    PendingAfter(enabled, s1, Rotate(n2), w.id);
    KeysAgreeExactly(n1.namespace, n1.name, n2.namespace, n2.name);
    ReferencesAreFields(w, n2);
    SwitchIsField(enabled, w);
    KeepsSpec(enabled, s0, w, n1);
    assert Announced(n1) != "" ==> Announces(n1, Announced(n1));
    assert Announced(n2) != "" ==> Announces(n2, Announced(n2));
  }

  lemma AnnouncesAnnounced(n: Notification)
    ensures forall v :: Announces(n, v) <==> v == Announced(n) && v != ""
  {
    hide Trim;
  }

  lemma PassIndexes(enabled: bool, s: State, w: Workload, k: SecretKey)
    requires w.id in s.store && s.store[w.id] == w && s.index == map[] && s.versions == map[]
    ensures var s' := Exec(enabled, s, Reconcile(w.id, false));
            && s'.store == s.store && s'.versions == map[]
            && (w.id in IdsFor(s'.index, k) <==> EnabledFor(enabled, w) && References(w, k))
  {
    hide Indexed, EnabledFor, References;
    IndexAfter(enabled, s, Reconcile(w.id, false), w.id, k);
  }

  lemma FirstNotice(enabled: bool, s: State, n: Notification, k: SecretKey)
    requires s.versions == map[]
    ensures var s' := Exec(enabled, s, Rotate(n));
            && s'.store == s.store && s'.index == s.index
            && VersionOf(s'.versions, k) == if IsValid(n) && KeyOf(n.namespace, n.name) == k then Announced(n) else ""
  {
    hide KeyOf, IsValid, Announced, EnabledFor;
    assert MarkAll(enabled, s.store, {}, n.name, Announced(n)) == s.store;
  }

  lemma ReferencesAreFields(w: Workload, n: Notification)
    ensures References(w, KeyOf(n.namespace, n.name)) <==> RefersTo(w, n)
  {
    hide Trim, KeyOf, SameNamespace;
    forall ref: string
      ensures KeyOf(w.namespace, ref) == KeyOf(n.namespace, n.name) <==>
              Trim(ref) == Trim(n.name) && SameNamespace(w.namespace, n.namespace)
    {
      KeysAgreeExactly(w.namespace, ref, n.namespace, n.name);
    }
    if RefersTo(w, n) {
      var ref :| ref in RefNames(w) && ref != "" && Trim(ref) == Trim(n.name);
      var i :| 0 <= i < |RefNames(w)| && RefNames(w)[i] == ref;
      assert References(w, KeyOf(n.namespace, n.name));
    }
  }

  lemma SwitchIsField(enabled: bool, w: Workload)
    ensures EnabledFor(enabled, w) <==>
            enabled || (w.spec.secretRotation.Some? && w.spec.secretRotation.value.enabled)
  {
  }

  lemma KeepsSpec(enabled: bool, s: State, w: Workload, n: Notification)
    requires w.id in s.store && s.store[w.id] == w && s.versions == map[] && s.index == map[]
    ensures Exec(enabled, Exec(enabled, s, Reconcile(w.id, false)), Rotate(n)).store == s.store
  {
    hide Exec;
    PassIndexes(enabled, s, w, KeyOf(n.namespace, n.name));
    FirstNotice(enabled, Exec(enabled, s, Reconcile(w.id, false)), n, KeyOf(n.namespace, n.name));
  }

  /** A restart in a pass counts itself and keeps what it was for; a restart on request only clears the flag. */
  lemma RestartsAreCounted(enabled: bool, s: State, id: string)
    requires Restarts(s, id)
    ensures var st := s.store[id].status.secretRotation.value;
            var passed := Exec(enabled, s, Reconcile(id, true)).store[id];
            var asked := Exec(enabled, s, RestartNow(id, true)).store[id];
            && passed.status.secretRotation.Some? && asked.status.secretRotation.Some?
            && !passed.status.secretRotation.value.pendingRestart
            && passed.status.secretRotation.value.restartCount == Wrap32(st.restartCount + 1)
            && passed.status.secretRotation.value.secretName == st.secretName
            && passed.status.secretRotation.value.secretVersion == st.secretVersion
            && passed.status.restartGeneration == Wrap32(s.store[id].status.restartGeneration + 1)
            && !asked.status.secretRotation.value.pendingRestart
            && asked.status.secretRotation.value.restartCount == st.restartCount
  {
    hide Indexed, Wrap32;
  }
}
