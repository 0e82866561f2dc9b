/** The in-memory workload store and the event log that shadows it. */
module StateStore {
  import opened Types
  import opened EventLog

  // ---------------------------------------------------------------- replaying a log

  datatype Lifecycle = Absent | Present(spec: WorkloadSpec) | Stuck

  function Replayed(l: Lifecycle, kind: Kind): Lifecycle {
    match kind
    case WorkloadCreated(spec) => if l.Absent? then Present(spec) else Stuck
    case WorkloadUpdated(spec) => if l.Present? then Present(spec) else Stuck
    case WorkloadDeleted => if l.Present? then Absent else Stuck
    case OtherEvent(_) => l
  }

  /** Folds an aggregate's events; `Stuck` marks an impossible lifecycle. */
  function Replay(es: seq<Event>): Lifecycle {
    if es == [] then Absent else Replayed(Replay(es[..|es| - 1]), es[|es| - 1].kind)
  }

  function LifecycleKinds(es: seq<Event>): seq<Kind> {
    if es == [] then [] else
      LifecycleKinds(es[..|es| - 1]) + if es[|es| - 1].kind.OtherEvent? then [] else [es[|es| - 1].kind]
  }

  /** A prefix of (Created Updated* Deleted)*: creations come first or after a deletion, and nothing else does. */
  ghost predicate IsLifecycle(ks: seq<Kind>) {
    && (ks != [] ==> ks[0].WorkloadCreated?)
    && forall i, j :: 0 <= i < j < |ks| && j == i + 1 ==> (ks[j].WorkloadCreated? <==> ks[i].WorkloadDeleted?)
  }

  /** The fold gets stuck exactly on the logs that are not lifecycles, and ends present exactly when the last lifecycle
      event is not a deletion. */
  lemma {:induction false} ReplayRecognizesLifecycles(es: seq<Event>)
    ensures !Replay(es).Stuck? <==> IsLifecycle(LifecycleKinds(es))
    ensures !Replay(es).Stuck? ==>
              var ks := LifecycleKinds(es);
              (Replay(es).Present? <==> ks != [] && !ks[|ks| - 1].WorkloadDeleted?)
  {
    if es != [] {
      var init, k := es[..|es| - 1], es[|es| - 1].kind;
      ReplayRecognizesLifecycles(init);
      var ks := LifecycleKinds(init);
      assert ks + [] == ks;
      if !k.OtherEvent? {
        LifecycleSnoc(ks, k);
      }
    }
  }

  lemma LifecycleSnoc(ks: seq<Kind>, k: Kind)
    ensures IsLifecycle(ks + [k]) <==>
            IsLifecycle(ks) && (k.WorkloadCreated? <==> ks == [] || ks[|ks| - 1].WorkloadDeleted?)
  {
    var ks' := ks + [k];
    assert forall i :: 0 <= i < |ks| ==> ks'[i] == ks[i];
    assert ks'[|ks|] == k;
    if IsLifecycle(ks') {
      assert forall i, j :: 0 <= i < j < |ks| && j == i + 1 ==> (ks'[j].WorkloadCreated? <==> ks'[i].WorkloadDeleted?);
    }
  }

  // ---------------------------------------------------------------- the store and its shadow

  /** Stored workloads, the specs they had at their last accepted write, and the log. */
  datatype State = State(live: map<string, Workload>, written: map<string, WorkloadSpec>, log: Log)

  /** Store calls, other recorders, and a caller changing a stored workload through the pointer it was handed. */
  datatype StoreOp = Create(w: Workload) | Update(w: Workload) | Delete(id: string)
    | Record(aggregate: string, name: string) | Mutate(id: string, w: Workload)

  /** What the environment supplies for the event of one call. */
  datatype Env = Env(freshID: string, now: int)

  function NewEvent(aggregate: string, kind: Kind): Event {
    Event("", aggregate, kind, 0, 0)
  }

  function Accepts(s: State, op: StoreOp): bool {
    match op
    case Create(w) => w.id !in s.live
    case Update(w) => w.id in s.live
    case Delete(id) => id in s.live
    case Record(_, _) => true
    case Mutate(id, _) => id in s.live
  }

  function WriteWorkload(s: State, w: Workload, kind: Kind, env: Env): State {
    State(s.live[w.id := w], s.written[w.id := w.spec], Appended(s.log, NewEvent(w.id, kind), env.freshID, env.now))
  }

  /** A refused call changes nothing. A deletion is logged under the ID that the stored workload carries by then. */
  function ExecStore(s: State, op: StoreOp, env: Env): State {
    if !Accepts(s, op) then s else
      match op
      case Create(w) => WriteWorkload(s, w, WorkloadCreated(w.spec), env)
      case Update(w) => WriteWorkload(s, w, WorkloadUpdated(w.spec), env)
      case Delete(id) =>
        State(s.live - {id}, s.written - {id},
              Appended(s.log, NewEvent(s.live[id].id, WorkloadDeleted), env.freshID, env.now))
      case Record(a, name) =>
        s.(log := Appended(s.log, NewEvent(a, OtherEvent(name)), env.freshID, env.now))
      case Mutate(id, w) => s.(live := s.live[id := w])
  }

  function RunStore(ops: seq<(StoreOp, Env)>): State {
    if ops == [] then State(map[], map[], map[]) else
      ExecStore(RunStore(ops[..|ops| - 1]), ops[|ops| - 1].0, ops[|ops| - 1].1)
  }

  /** Replaying the log yields exactly the stored IDs, with the specs of the last accepted writes. */
  ghost predicate Mirrors(s: State) {
    && s.written.Keys == s.live.Keys
    && (forall id {:trigger EventsOf(s.log, id)} ::
          Replay(EventsOf(s.log, id)) == if id in s.written then Present(s.written[id]) else Absent)
  }

  /** The call deletes a workload whose ID a caller has changed through its pointer. */
  predicate DeletesRenamed(s: State, op: StoreOp) {
    op.Delete? && op.id in s.live && s.live[op.id].id != op.id
  }

  lemma ReplayAppended(log: Log, ev: Event, env: Env, id: string)
    ensures Replay(EventsOf(Appended(log, ev, env.freshID, env.now), id))
            == if id == ev.aggregate then Replayed(Replay(EventsOf(log, id)), ev.kind) else Replay(EventsOf(log, id))
  {
    var es := EventsOf(log, id);
    if id == ev.aggregate {
      var e := Stamped(es, ev, env.freshID, env.now);
      assert (es + [e])[..|es|] == es;
    }
  }

  /** Every call keeps the log in step with the store, except exactly the deletion of a renamed workload. */
  lemma ExecKeepsMirror(s: State, op: StoreOp, env: Env)
    requires Mirrors(s)
    ensures Mirrors(ExecStore(s, op, env)) <==> !DeletesRenamed(s, op)
  {
    hide Replay, Appended;
    var s' := ExecStore(s, op, env);
    if DeletesRenamed(s, op) {
      assert Replay(EventsOf(s.log, op.id)).Present?;
      ReplayAppended(s.log, NewEvent(s.live[op.id].id, WorkloadDeleted), env, op.id);
      assert Replay(EventsOf(s'.log, op.id)).Present? && op.id !in s'.written;
    } else {
      forall id
        ensures Replay(EventsOf(s'.log, id)) == if id in s'.written then Present(s'.written[id]) else Absent
      {
        MirrorsAt(s, op, env, id);
      }
    }
  }

  lemma MirrorsAt(s: State, op: StoreOp, env: Env, id: string)
    requires Mirrors(s) && !DeletesRenamed(s, op)
    ensures var s' := ExecStore(s, op, env);
            Replay(EventsOf(s'.log, id)) == if id in s'.written then Present(s'.written[id]) else Absent
  {
    hide Replay, Appended;
    assert Replay(EventsOf(s.log, id)) == if id in s.written then Present(s.written[id]) else Absent;
    if Accepts(s, op) {
      match op
      case Create(w) => ReplayAppended(s.log, NewEvent(w.id, WorkloadCreated(w.spec)), env, id);
      case Update(w) => ReplayAppended(s.log, NewEvent(w.id, WorkloadUpdated(w.spec)), env, id);
      case Delete(d) => ReplayAppended(s.log, NewEvent(d, WorkloadDeleted), env, id);
      case Record(a, name) => ReplayAppended(s.log, NewEvent(a, OtherEvent(name)), env, id);
      case Mutate(_, _) =>
    }
  }

  /** No call of the run deletes a renamed workload. */
  ghost predicate NoRenamedDeletion(ops: seq<(StoreOp, Env)>) {
    forall n {:trigger ops[n]} :: 0 <= n < |ops| ==> !DeletesRenamed(RunStore(ops[..n]), ops[n].0)
  }

  ghost predicate MirrorsThroughout(ops: seq<(StoreOp, Env)>) {
    forall n {:trigger ops[..n]} :: 0 <= n <= |ops| ==> Mirrors(RunStore(ops[..n]))
  }

  /** The log mirrors the store after every call of a run exactly when no call deletes a renamed workload. */
  lemma {:induction false} MirrorsExactlyWithoutRenaming(ops: seq<(StoreOp, Env)>)
    ensures MirrorsThroughout(ops) <==> NoRenamedDeletion(ops)
  {
    hide ExecStore, DeletesRenamed, Mirrors, NoRenamedDeletion;
    if ops == [] {
      assert ops[..0] == [];
      EmptyMirrors();
      RenamedSnoc(ops);
    } else {
      hide MirrorsThroughout;
      var n := |ops| - 1;
      var before := ops[..n];
      MirrorsExactlyWithoutRenaming(before);
      MirrorsSnoc(ops);
      MirrorsAtEnd(before);
      RenamedSnoc(ops);
      if Mirrors(RunStore(before)) {
        ExecKeepsMirror(RunStore(before), ops[n].0, ops[n].1);
      }
    }
  }

  lemma RenamedSnoc(ops: seq<(StoreOp, Env)>)
    ensures NoRenamedDeletion(ops) <==>
            ops == [] || var n := |ops| - 1;
                         NoRenamedDeletion(ops[..n]) && !DeletesRenamed(RunStore(ops[..n]), ops[n].0)
  {
    hide RunStore, DeletesRenamed;
    if ops != [] {
      var n := |ops| - 1;
      assert forall i :: 0 <= i < n ==> ops[..n][..i] == ops[..i] && ops[..n][i] == ops[i];
      if NoRenamedDeletion(ops) {
        assert !DeletesRenamed(RunStore(ops[..n]), ops[n].0);
        forall i | 0 <= i < n
          ensures !DeletesRenamed(RunStore(ops[..n][..i]), ops[..n][i].0)
        {
          assert !DeletesRenamed(RunStore(ops[..i]), ops[i].0);
        }
      }
      if NoRenamedDeletion(ops[..n]) && !DeletesRenamed(RunStore(ops[..n]), ops[n].0) {
        forall i | 0 <= i < |ops|
          ensures !DeletesRenamed(RunStore(ops[..i]), ops[i].0)
        {
          assert i < n ==> !DeletesRenamed(RunStore(ops[..n][..i]), ops[..n][i].0);
        }
      }
    }
  }

  lemma MirrorsSnoc(ops: seq<(StoreOp, Env)>)
    requires ops != []
    ensures MirrorsThroughout(ops) <==> MirrorsThroughout(ops[..|ops| - 1]) && Mirrors(RunStore(ops))
  {
    hide RunStore, Mirrors;
    var n := |ops| - 1;
    assert ops[..|ops|] == ops && forall i :: 0 <= i <= n ==> ops[..n][..i] == ops[..i];
    if MirrorsThroughout(ops) {
      assert Mirrors(RunStore(ops[..|ops|]));
      forall i | 0 <= i <= n
        ensures Mirrors(RunStore(ops[..n][..i]))
      {
        assert Mirrors(RunStore(ops[..i]));
      }
    }
    if MirrorsThroughout(ops[..n]) && Mirrors(RunStore(ops)) {
      forall i | 0 <= i <= |ops|
        ensures Mirrors(RunStore(ops[..i]))
      {
        assert i <= n ==> Mirrors(RunStore(ops[..n][..i]));
      }
    }
  }

  lemma MirrorsAtEnd(ops: seq<(StoreOp, Env)>)
    ensures MirrorsThroughout(ops) ==> Mirrors(RunStore(ops))
  {
    assert ops[..|ops|] == ops;
  }

  lemma EmptyMirrors()
    ensures Mirrors(RunStore([]))
  {
  }

  /** For every run of store calls, refused ones, other recorders and changes through pointers included, the lifecycle
      events of each aggregate are a lifecycle, and replaying them yields exactly the stored IDs with the spec of the
      last accepted write. */
  lemma LogRefinesStore(ops: seq<(StoreOp, Env)>, id: string)
    requires NoRenamedDeletion(ops)
    ensures var s := RunStore(ops);
            && IsLifecycle(LifecycleKinds(EventsOf(s.log, id)))
            && (Replay(EventsOf(s.log, id)).Present? <==> id in s.live)
            && (id in s.live ==> id in s.written && Replay(EventsOf(s.log, id)) == Present(s.written[id]))
  {
    hide ExecStore;
    MirrorsExactlyWithoutRenaming(ops);
    assert ops[..|ops|] == ops;
    assert Mirrors(RunStore(ops));
    ReplayRecognizesLifecycles(EventsOf(RunStore(ops).log, id));
  }

  /** Operation `op` is a change of workload `id` behind the store's back. */
  predicate ChangesBehind(op: StoreOp, id: string) {
    op.Mutate? && op.id == id
  }

  /** Without changes behind the store's back the last written spec is the stored spec. */
  lemma WrittenIsLive(ops: seq<(StoreOp, Env)>, id: string)
    requires NoRenamedDeletion(ops) && forall i :: 0 <= i < |ops| ==> !ChangesBehind(ops[i].0, id)
    requires id in RunStore(ops).live
    ensures Replay(EventsOf(RunStore(ops).log, id)) == Present(RunStore(ops).live[id].spec)
  {
    LogRefinesStore(ops, id);
    LiveSpecIsWritten(ops, id);
  }

  lemma {:induction false} LiveSpecIsWritten(ops: seq<(StoreOp, Env)>, id: string)
    requires forall i :: 0 <= i < |ops| ==> !ChangesBehind(ops[i].0, id)
    requires id in RunStore(ops).live
    ensures id in RunStore(ops).written && RunStore(ops).live[id].spec == RunStore(ops).written[id]
  {
    hide Appended;
    if ops != [] {
      var n := |ops| - 1;
      if id in RunStore(ops[..n]).live {
        LiveSpecIsWritten(ops[..n], id);
      }
    }
  }

  /** After one more call the store holds what an accepted write or a pointer change gave it, lacks what an accepted
      deletion named, and is otherwise what it was. */
  lemma StoredAsGiven(ops: seq<(StoreOp, Env)>, op: StoreOp, env: Env, id: string)
    ensures var before, after := RunStore(ops).live, RunStore(ops + [(op, env)]).live;
            && (op == Delete(id) ==> id !in after)
            && (op.Create? && op.w.id == id && id !in before ==> id in after && after[id] == op.w)
            && (op.Update? && op.w.id == id && id in before ==> id in after && after[id] == op.w)
            && (op.Mutate? && op.id == id && id in before ==> id in after && after[id] == op.w)
            && (op.Create? && op.w.id == id && id in before ==> after == before)
            && (op.Update? && op.w.id == id && id !in before ==> after == before)
            && (|| op.Record? || ((op.Create? || op.Update?) && op.w.id != id)
                || ((op.Delete? || op.Mutate?) && op.id != id) ==>
                  (id in after <==> id in before) && (id in before ==> after[id] == before[id]))
  {
    hide Appended;
    var all := ops + [(op, env)];
    assert all[..|ops|] == ops && all[|ops|] == (op, env);
    assert RunStore(all) == ExecStore(RunStore(ops), op, env);
  }

  /** An accepted write or deletion ends the log of its aggregate with an event that says so, under the ID and time that
      the environment supplied. */
  lemma LoggedAsGiven(ops: seq<(StoreOp, Env)>, op: StoreOp, env: Env)
    requires Accepts(RunStore(ops), op) && !op.Mutate?
    ensures var s := RunStore(ops);
            var aggregate := if op.Delete? then s.live[op.id].id else if op.Record? then op.aggregate else op.w.id;
            var es := EventsOf(RunStore(ops + [(op, env)]).log, aggregate);
            && es != [] && es[..|es| - 1] == EventsOf(s.log, aggregate)
            && es[|es| - 1].id == env.freshID && es[|es| - 1].timestamp == env.now
            && es[|es| - 1].kind == match op
                                    case Create(w) => WorkloadCreated(w.spec)
                                    case Update(w) => WorkloadUpdated(w.spec)
                                    case Record(_, name) => OtherEvent(name)
                                    case _ => WorkloadDeleted
  {
    var all := ops + [(op, env)];
    assert all[..|ops|] == ops && all[|ops|] == (op, env);
    assert RunStore(all) == ExecStore(RunStore(ops), op, env);
  }

  // ---------------------------------------------------------------- the store in memory

  /** Maps IDs to the very cells its callers hold; every accepted write is followed by an event. */
  class MemoryStore {
    const workloads: CellStore
    const eventStore: Store
    ghost var written: map<string, WorkloadSpec>

    ghost function View(): State
      reads this, eventStore, workloads, workloads.cells.Values
    {
      State(workloads.View(), written, eventStore.events)
    }

    /** With event sourcing disabled the log stays as it was. */
    ghost function Shadowed(s: State, log: Log): State {
      if eventStore.enabled then s else s.(log := log)
    }

    constructor (eventStore: Store)
      requires eventStore.events == map[]
      ensures this.eventStore == eventStore && fresh(workloads) && View() == RunStore([])
    {
      this.eventStore := eventStore;
      workloads := new CellStore();
      written := map[];
    }

    method Get(id: string) returns (w: Option<WorkloadRef>)
      ensures w.Some? <==> id in workloads.cells
      ensures w.Some? ==> w.value == workloads.cells[id]
    {
      w := workloads.Get(id);
    }

    method Create(w: WorkloadRef, env: Env) returns (ok: bool)
      modifies this, workloads, eventStore
      ensures ok == Accepts(old(View()), StoreOp.Create(w.value))
      ensures View() == Shadowed(ExecStore(old(View()), StoreOp.Create(w.value), env), old(View()).log)
    {
      if w.value.id in workloads.cells {
        return false;
      }
      workloads.Put(w);
      written := written[w.value.id := w.value.spec];
      eventStore.Append(NewEvent(w.value.id, WorkloadCreated(w.value.spec)), env.freshID, env.now);
      return true;
    }

    method Update(w: WorkloadRef, env: Env) returns (ok: bool)
      modifies this, workloads, eventStore
      ensures ok == Accepts(old(View()), StoreOp.Update(w.value))
      ensures View() == Shadowed(ExecStore(old(View()), StoreOp.Update(w.value), env), old(View()).log)
    {
      if w.value.id !in workloads.cells {
        return false;
      }
      workloads.Put(w);
      written := written[w.value.id := w.value.spec];
      eventStore.Append(NewEvent(w.value.id, WorkloadUpdated(w.value.spec)), env.freshID, env.now);
      return true;
    }

    method Delete(id: string, env: Env) returns (ok: bool)
      modifies this, workloads, eventStore
      ensures ok == Accepts(old(View()), StoreOp.Delete(id))
      ensures View() == Shadowed(ExecStore(old(View()), StoreOp.Delete(id), env), old(View()).log)
    {
      hide Appended;
      var workload := workloads.Get(id);
      if workload == None {
        return false;
      }
      workloads.Remove(id);
      written := written - {id};
      eventStore.Append(NewEvent(workload.value.value.id, WorkloadDeleted), env.freshID, env.now);
      return true;
    }
  }
}
