/** One reconcile pass over the stored workloads. */
module Reconciler {
  import opened Types
  import opened Strings
  import opened Sums
  import WorkloadTags
  import Quota
  import CB = CircuitBreaker
  import WS = WarmStandby
  import SR = SecretRotation

  type Workloads = map<string, Workload>

  datatype StandbyConfig = StandbyConfig(enabled: bool, autoPromote: bool)

  /** The optional collaborators; `secrets` is the default of the rotation switch, `rollouts` says that there is a
      rollout manager. */
  datatype Deps = Deps(
    quota: Option<Quota.Table>,
    circuit: Option<CB.Config>,
    standby: Option<StandbyConfig>,
    secrets: Option<bool>,
    rollouts: bool)

  /** What becomes of a restart: there is no driver, the driver restarts, it redeploys instead, or fails at both. */
  datatype RestartOutcome = NoDriver | Restarted | Redeployed | RedeployFailed
  {
    predicate Completes() {
      Restarted? || Redeployed?
    }

    predicate FallsBack() {
      Redeployed? || RedeployFailed?
    }
  }

  datatype CronOutcome = CronError | NotDue | Due

  /** What the rest of the system answers during a pass; `healthy` is the health gate of rollouts, `accepted` the number
      of calls to the scheduler that a rollout gets through before one fails. */
  datatype Inputs = Inputs(
    controllersPass: bool,
    policyPasses: bool,
    now: int,
    restart: RestartOutcome,
    cron: CronOutcome,
    healthy: bool,
    accepted: nat)

  /** What a pass does to workloads: a failover, which hands the promoted workload to the scheduler, the provisioning of
      a standby, the restart call to a driver, the deployment that replaces a failed restart, and the deployments of the
      rollout at the end of the pass. */
  datatype Effect =
    PromoteStandby(id: string) | ProvisionStandby(id: string) | Restart(id: string) | Redeploy(id: string)
  | Deploy(id: string)

  datatype Outcome = Outcome(s: Workloads, effects: seq<Effect>)

  // ---------------------------------------------------------------- the stages that reach other workloads

  ghost predicate Gated(d: Deps, s: Workloads, id: string, i: Inputs)
    requires id in s
  {
    || !i.controllersPass || !i.policyPasses
    || (d.quota.Some? && !Quota.Admits(d.quota.value, s.Values, s[id]))
  }

  predicate ShouldAutoPromote(d: Deps, w: Workload) {
    && d.circuit.Some? && d.standby.Some?
    && WS.EnabledFor(d.standby.value.enabled, w)
    && (d.standby.value.autoPromote || (w.spec.warmStandby.Some? && w.spec.warmStandby.value.autoPromote))
    && if CB.EnabledFor(w, d.circuit.value)
       then w.status.circuitBreaker.Some? && w.status.circuitBreaker.value.state.Open?
       else w.status.phase.Degraded? || w.status.phase.Failed?
  }

  function Synced(d: Deps, w: Workload, now: int): Workload {
    if d.circuit.None? then w else CB.SyncWorkload(d.circuit.value, w, now)
  }

  /** The workload, once synchronised, is failed over. */
  predicate Promotes(d: Deps, s: Workloads, id: string, now: int)
    requires id in s
  {
    ShouldAutoPromote(d, Synced(d, s[id], now)) && WS.PromotionID(s[id]) in s
  }

  function CircuitStage(d: Deps, s: Workloads, id: string, now: int): (o: Outcome)
    requires id in s
    ensures s.Keys <= o.s.Keys
  {
    var s1 := s[id := Synced(d, s[id], now)];
    if Promotes(d, s, id, now)
    then Outcome(WS.AfterPromote(d.standby.value.enabled, s1, id), [PromoteStandby(WS.PromotionID(s[id]))])
    else Outcome(s1, [])
  }

  predicate Provisions(d: Deps, w: Workload) {
    d.standby.Some? && WS.EnabledFor(d.standby.value.enabled, w) && w.status.phase.Running?
  }

  function StandbyStage(d: Deps, o: Outcome, id: string): (o': Outcome)
    requires id in o.s
    ensures o.s.Keys <= o'.s.Keys
  {
    if !Provisions(d, o.s[id]) then o else
      Outcome(WS.AfterEnsure(d.standby.value.enabled, o.s, id),
              o.effects + [ProvisionStandby(WS.ProvisionID(o.s[id]))])
  }

  // ---------------------------------------------------------------- the stages that stay on the workload

  datatype Local = Local(w: Workload, effects: seq<Effect>)

  function FailedRestart(w: Workload): Workload {
    w.(status := w.status.(restartGeneration := Wrap32(w.status.restartGeneration + 1)))
  }

  predicate RestartDue(d: Deps, w: Workload) {
    d.secrets.Some? && SR.Pending(w) && w.status.phase.Running?
  }

  function SecretStage(d: Deps, w: Workload, i: Inputs): Local {
    if !RestartDue(d, w) || i.restart.NoDriver? then Local(w, []) else
      Local(if i.restart.Completes() then SR.Restarted(w) else FailedRestart(w),
            [Restart(w.id)] + if i.restart.FallsBack() then [Redeploy(w.id)] else [])
  }

  predicate CronStops(w: Workload, i: Inputs) {
    w.spec.cronSchedule.Some? && !i.cron.Due?
  }

  /** The IDs that a rollout hands to the scheduler, in order. */
  function Plan(d: Deps, w: Workload): seq<string> {
    if !d.rollouts then [w.id] else
      match w.spec.rollout
      case Direct => [w.id]
      case Canary(auto) => [w.id + "-canary"] + if auto then [w.id] else []
      case ABTest(_, _, auto) => [w.id + "-variant-a", w.id + "-variant-b"] + if auto then [w.id] else []
      case Unusable => []
  }

  predicate Starts(d: Deps, w: Workload, i: Inputs) {
    d.rollouts ==> i.healthy && !w.spec.rollout.Unusable?
  }

  /** The IDs that are handed over before a call fails or the plan is done. */
  function Handed(d: Deps, w: Workload, i: Inputs): seq<string> {
    var plan := Plan(d, w);
    if !Starts(d, w, i) then [] else if i.accepted < |plan| then plan[..i.accepted + 1] else plan
  }

  predicate Finishes(d: Deps, w: Workload, i: Inputs) {
    Starts(d, w, i) && i.accepted >= |Plan(d, w)|
  }

  /** The rollout of an A/B test that comes to selecting the winner. */
  predicate PicksWinner(d: Deps, w: Workload, i: Inputs) {
    d.rollouts && i.healthy && w.spec.rollout.ABTest? && w.spec.rollout.autoSelect && i.accepted >= 2
  }

  function Picked(d: Deps, w: Workload, i: Inputs): Workload {
    if PicksWinner(d, w, i) then w.(spec := w.spec.(image := w.spec.rollout.variantA)) else w
  }

  function Deployments(ids: seq<string>): seq<Effect> {
    seq(|ids|, k requires 0 <= k < |ids| => Deploy(ids[k]))
  }

  function DeployStage(d: Deps, w: Workload, i: Inputs): Local {
    if !w.status.phase.Pending? then Local(w, []) else
      var w' := Picked(d, w, i);
      Local(if Finishes(d, w, i) then w'.(status := w'.status.(phase := Running)) else w', Deployments(Handed(d, w, i)))
  }

  function RouteStage(d: Deps, w: Workload, i: Inputs): Local {
    if d.circuit.None? then DeployStage(d, w, i)
    else if !CB.AllowRouteResult(d.circuit.value, w, i.now) then Local(Synced(d, w, i.now), [])
    else DeployStage(d, CB.RecordAttempt(Synced(d, w, i.now)), i)
  }

  function LocalStages(d: Deps, w: Workload, i: Inputs): Local {
    var secret := SecretStage(d, w, i);
    if CronStops(w, i) then secret else
      var route := RouteStage(d, secret.w, i);
      Local(route.w, secret.effects + route.effects)
  }

  function SharedStages(d: Deps, s: Workloads, id: string, i: Inputs): (o: Outcome)
    requires id in s
    ensures s.Keys <= o.s.Keys
  {
    StandbyStage(d, CircuitStage(d, s, id, i.now), id)
  }

  /** The store and the effects after a pass over the workload stored under `id`. */
  ghost function Pass(d: Deps, s: Workloads, id: string, i: Inputs): (o: Outcome)
    requires id in s
    ensures s.Keys <= o.s.Keys
  {
    if Gated(d, s, id, i) then Outcome(s, []) else
      var o := SharedStages(d, s, id, i);
      var l := LocalStages(d, o.s[id], i);
      Outcome(o.s[id := l.w], o.effects + l.effects)
  }

  /** The pass as it runs: every collaborator works on the cells that the store shares. */
  class Engine {
    const store: CellStore
    const quota: Quota.Engine?
    const circuit: CB.Engine?
    const standby: WS.Manager?
    const autoPromote: bool
    const secrets: Option<bool>
    const rollouts: bool

    ghost predicate Valid()
      reads store, store.cells.Values
    {
      store.Valid() && (standby != null ==> standby.store == store)
    }

    ghost function Dependencies(): Deps
      reads quota
    {
      Deps(if quota == null then None else Some(quota.View()),
           if circuit == null then None else Some(circuit.cfg),
           if standby == null then None else Some(StandbyConfig(standby.enabled, autoPromote)),
           secrets, rollouts)
    }

    constructor (store: CellStore, quota: Quota.Engine?, circuit: CB.Engine?, standby: WS.Manager?, autoPromote: bool,
                 secrets: Option<bool>, rollouts: bool)
      requires store.Valid() && (standby != null ==> standby.store == store)
      ensures Valid() && this.store == store && this.quota == quota && this.circuit == circuit
      ensures this.standby == standby && this.autoPromote == autoPromote && this.secrets == secrets
      ensures this.rollouts == rollouts
    {
      this.store, this.quota, this.circuit, this.standby := store, quota, circuit, standby;
      this.autoPromote, this.secrets, this.rollouts := autoPromote, secrets, rollouts;
    }

    method ReconcileOne(w: WorkloadRef, i: Inputs) returns (effects: seq<Effect>)
      requires Valid() && store.Holds(w)
      modifies store, store.cells.Values
      ensures Valid() && store.Holds(w) && w.value.id == old(w.value.id)
      ensures Outcome(store.View(), effects) == Pass(Dependencies(), old(store.View()), w.value.id, i)
    {
      hide CircuitStage, StandbyStage, LocalStages, Quota.Admits;
      effects := [];
      if !i.controllersPass || !i.policyPasses {
        return;
      }
      if quota != null {
        var all := store.All();
        var verdict := quota.Enforce(all, w.value);
        if verdict.Err? {
          return;
        }
      }
      effects := SyncAndPromote(w, i.now);
      var provisioned := Provision(w);
      var local := RunLocal(w, i);
      effects := effects + provisioned + local;
    }

    /** The synchronisation as the store sees it. */
    method Sync(w: WorkloadRef, now: int)
      requires Valid() && store.Holds(w)
      modifies w
      ensures Valid() && store.Holds(w) && w.value == Synced(Dependencies(), old(w.value), now)
      ensures w.value.id == old(w.value.id) && store.View() == old(store.View())[w.value.id := w.value]
    {
      hide CB.SyncWorkload;
      SyncFrame(Dependencies(), w.value, now);
      if circuit != null {
        var _, _ := circuit.SyncFromWorkload(w, now);
      }
    }

    method SyncAndPromote(w: WorkloadRef, now: int) returns (effects: seq<Effect>)
      requires Valid() && store.Holds(w)
      modifies store.cells.Values
      ensures Valid() && store.Holds(w) && w.value.id == old(w.value.id)
      ensures Outcome(store.View(), effects) == CircuitStage(Dependencies(), old(store.View()), w.value.id, now)
    {
      hide Synced, CB.EnabledFor, WS.EnabledFor, WS.PromotedFrom, WS.WithPromotion, WS.PromotionID;
      effects := [];
      SyncKeepsPromotionID(Dependencies(), w.value, now);
      Sync(w, now);
      if circuit != null && standby != null && WS.EnabledFor(standby.enabled, w.value) {
        var auto := autoPromote;
        if w.value.spec.warmStandby.Some? && w.value.spec.warmStandby.value.autoPromote {
          auto := true;
        }
        var down := w.value.status.phase.Degraded? || w.value.status.phase.Failed?;
        if CB.EnabledFor(w.value, circuit.cfg) {
          var st := w.value.status.circuitBreaker;
          down := st.Some? && st.value.state == Open;
        }
        if auto && down {
          var sw := standby.Promote(w);
          if sw.Some? {
            effects := [PromoteStandby(sw.value.value.id)];
          }
        }
      }
    }

    method Provision(w: WorkloadRef) returns (effects: seq<Effect>)
      requires Valid() && store.Holds(w)
      modifies store, store.cells.Values
      ensures Valid() && store.Holds(w) && w.value.id == old(w.value.id)
      ensures forall before :: Outcome(store.View(), before + effects)
                               == StandbyStage(Dependencies(), Outcome(old(store.View()), before), w.value.id)
    {
      hide WS.EnabledFor, WS.ProvisionID, WS.AfterEnsure;
      effects := [];
      if standby != null && WS.EnabledFor(standby.enabled, w.value) && w.value.status.phase == Running {
        effects := [ProvisionStandby(WS.ProvisionID(w.value))];
        standby.EnsureColdStandby(w);
      }
    }

    method RunLocal(w: WorkloadRef, i: Inputs) returns (effects: seq<Effect>)
      requires Valid() && store.Holds(w)
      modifies w
      ensures Valid() && store.Holds(w) && w.value.id == old(w.value.id)
      ensures Local(w.value, effects) == LocalStages(Dependencies(), old(w.value), i)
      ensures store.View() == old(store.View())[w.value.id := w.value]
    {
      hide RouteStage, SecretStage;
      effects := RestartPending(w, i);
      if w.value.spec.cronSchedule.Some? && i.cron != Due {
        return;
      }
      var routed := Route(w, i);
      effects := effects + routed;
    }

    method RestartPending(w: WorkloadRef, i: Inputs) returns (effects: seq<Effect>)
      modifies w
      ensures w.value.id == old(w.value.id) && w.value.spec == old(w.value).spec
      ensures Local(w.value, effects) == SecretStage(Dependencies(), old(w.value), i)
    {
      hide SR.Pending;
      effects := [];
      if secrets.Some? && SR.Pending(w.value) && w.value.status.phase == Running {
        if i.restart != NoDriver {
          effects := [Restart(w.value.id)];
          if i.restart == Redeployed || i.restart == RedeployFailed {
            effects := effects + [Redeploy(w.value.id)];
          }
          w.value := if i.restart == RedeployFailed then FailedRestart(w.value) else SR.Restarted(w.value);
        }
      }
    }

    method Route(w: WorkloadRef, i: Inputs) returns (effects: seq<Effect>)
      modifies w
      ensures w.value.id == old(w.value.id)
      ensures Local(w.value, effects) == RouteStage(Dependencies(), old(w.value), i)
    {
      hide CB.SyncWorkload, CB.AllowRouteResult;
      effects := [];
      SyncFrame(Dependencies(), w.value, i.now);
      if circuit != null {
        var allowed := circuit.AllowRoute(w, i.now);
        if !allowed {
          return;
        }
        circuit.RecordRouteAttempt(w);
      }
      if w.value.status.phase == Pending {
        var ok;
        ok, effects := RollOut(w, i);
        if ok {
          w.value := w.value.(status := w.value.status.(phase := Running));
        }
      }
    }

    /** The rollout strategies, or without a rollout manager the scheduler alone. */
    method RollOut(w: WorkloadRef, i: Inputs) returns (ok: bool, effects: seq<Effect>)
      modifies w
      ensures ok == Finishes(Dependencies(), old(w.value), i)
      ensures effects == Deployments(Handed(Dependencies(), old(w.value), i))
      ensures w.value == Picked(Dependencies(), old(w.value), i)
    {
      var id := w.value.id;
      if rollouts {
        if !i.healthy {
          return false, [];
        }
        match w.value.spec.rollout
        case Direct =>
        case Unusable =>
          return false, [];
        case Canary(auto) =>
          effects := [Deploy(id + "-canary")];
          if i.accepted < 1 || !auto {
            return i.accepted >= 1, effects;
          }
          effects := effects + [Deploy(id)];
          return i.accepted >= 2, effects;
        case ABTest(variantA, _, auto) =>
          effects := [Deploy(id + "-variant-a")];
          if i.accepted < 1 {
            return false, effects;
          }
          effects := effects + [Deploy(id + "-variant-b")];
          if i.accepted < 2 || !auto {
            return i.accepted >= 2, effects;
          }
          w.value := w.value.(spec := w.value.spec.(image := variantA));
          effects := effects + [Deploy(id)];
          return i.accepted >= 3, effects;
      }
      return i.accepted >= 1, [Deploy(id)];
    }
  }

  // ---------------------------------------------------------------- what the stages leave alone

  lemma SyncFrame(d: Deps, w: Workload, now: int)
    ensures var w' := Synced(d, w, now);
            w' == w.(status := w.status.(circuitBreaker := w'.status.circuitBreaker))
  {
    hide CB.Step;
  }

  lemma SyncKeepsPromotionID(d: Deps, w: Workload, now: int)
    ensures WS.PromotionID(Synced(d, w, now)) == WS.PromotionID(w)
    ensures WS.ProvisionID(Synced(d, w, now)) == WS.ProvisionID(w)
  {
    hide Synced;
    SyncFrame(d, w, now);
  }

  /** The pass over `id` fails it over to the workload `x`, which it thereby hands to the scheduler. */
  ghost predicate FailsOverTo(d: Deps, s: Workloads, id: string, x: string, i: Inputs)
    requires id in s
  {
    !Gated(d, s, id, i) && Promotes(d, s, id, i.now) && WS.PromotionID(s[id]) == x
  }

  ghost predicate PromotesItself(d: Deps, s: Workloads, id: string, i: Inputs)
    requires id in s
  {
    FailsOverTo(d, s, id, id, i)
  }

  /** The pass asks a driver to restart its workload: a restart is due, a driver exists, and no failover of the workload
      to itself has taken it out of the running phase. */
  ghost predicate RestartsIn(d: Deps, s: Workloads, id: string, i: Inputs)
    requires id in s
  {
    !Gated(d, s, id, i) && RestartDue(d, s[id]) && !i.restart.NoDriver? && !PromotesItself(d, s, id, i)
  }

  ghost predicate RedeploysIn(d: Deps, s: Workloads, id: string, i: Inputs)
    requires id in s
  {
    RestartsIn(d, s, id, i) && i.restart.FallsBack()
  }

  /** The pass over `id` provisions the workload `x` as its cold standby. */
  ghost predicate ProvisionsFor(d: Deps, s: Workloads, id: string, x: string, i: Inputs)
    requires id in s
  {
    && !Gated(d, s, id, i) && !PromotesItself(d, s, id, i)
    && Provisions(d, s[id]) && WS.ProvisionID(s[id]) == x
  }

  ghost predicate ProvisionsItself(d: Deps, s: Workloads, id: string, i: Inputs)
    requires id in s
  {
    ProvisionsFor(d, s, id, id, i)
  }

  /** The part of the status that no standby operation writes. */
  predicate SameRest(a: Workload, b: Workload) {
    && a.id == b.id && a.status.readyReplicas == b.status.readyReplicas
    && a.status.circuitBreaker == b.status.circuitBreaker && a.status.secretRotation == b.status.secretRotation
    && a.status.restartGeneration == b.status.restartGeneration
  }

  /** A workload and what is left of it when only its standby status and breaker status may have been written. */
  lemma Alike(d: Deps, a: Workload, b: Workload)
    requires a == b.(status := a.status) && a.status.phase == b.status.phase
    ensures Provisions(d, a) == Provisions(d, b) && WS.ProvisionID(a) == WS.ProvisionID(b)
    ensures WS.PromotedSpec(a) == WS.PromotedSpec(b) && WS.CloneSpec(a, 0) == WS.CloneSpec(b, 0)
  {
  }

  /** Failover writes the workload's spec and phase only when it is its own standby. */
  lemma CircuitAt(d: Deps, s: Workloads, id: string, now: int)
    requires id in s && s[id].id == id
    ensures var o, w, w1 := CircuitStage(d, s, id, now), s[id], Synced(d, s[id], now);
            && SameRest(o.s[id], w1)
            && if Promotes(d, s, id, now) && WS.PromotionID(w) == id
               then o.s[id].spec == WS.PromotedSpec(w) && o.s[id].status.phase == Pending
               else o.s[id] == w1.(status := w1.status.(warmStandby := o.s[id].status.warmStandby))
  {
    hide Synced, WS.EnabledFor, CB.EnabledFor, WS.PromotedSpec, WS.PromotionID, WS.PromotedFrom;
    var w1 := Synced(d, s[id], now);
    SyncFrame(d, s[id], now);
    SyncKeepsPromotionID(d, s[id], now);
    Alike(d, w1, s[id]);
    PromotedFrame(w1, w1);
  }

  lemma PromotedFrame(standby: Workload, primary: Workload)
    ensures var p := WS.PromotedFrom(standby, primary);
            && p.spec == WS.PromotedSpec(primary) && p.status == standby.status.(phase := Pending)
            && p.id == standby.id && p.namespace == standby.namespace
  {
    hide WS.PromotedSpec;
  }

  /** Provisioning writes the workload's spec only when it is its own standby. */
  lemma StandbyAt(d: Deps, o: Outcome, id: string)
    requires id in o.s && o.s[id].id == id
    ensures var w, w' := o.s[id], StandbyStage(d, o, id).s[id];
            && SameRest(w', w) && w'.status.phase == w.status.phase
            && w'.spec == (if Provisions(d, w) && WS.ProvisionID(w) == id then WS.CloneSpec(w, 0) else w.spec)
            && (WS.ProvisionID(w) != id ==> w' == w.(status := w.status.(warmStandby := w'.status.warmStandby)))
  {
    hide WS.CloneSpec, WS.EnabledFor, WS.ProvisionID, WS.Provisioned;
    if WS.ProvisionID(o.s[id]) == id {
      ProvisionedFrame(o.s, id);
    }
  }

  lemma ProvisionedFrame(s: Workloads, id: string)
    requires id in s
    ensures var p := WS.Provisioned(s, s[id], id);
            p.spec == WS.CloneSpec(s[id], 0) && p.status == s[id].status && p.id == s[id].id
  {
    hide WS.CloneSpec;
  }

  /** What the workload looks like when the stages that reach other workloads are over. */
  lemma SharedAt(d: Deps, s: Workloads, id: string, i: Inputs)
    requires id in s && s[id].id == id
    ensures var w, w', w1 := s[id], SharedStages(d, s, id, i).s[id], Synced(d, s[id], i.now);
            && SameRest(w', w1)
            && if Promotes(d, s, id, i.now) && WS.PromotionID(w) == id
               then w'.spec == WS.PromotedSpec(w) && w'.status.phase == Pending
               else
                 && w'.status.phase == w.status.phase
                 && w'.spec == (if Provisions(d, w) && WS.ProvisionID(w) == id then WS.CloneSpec(w, 0) else w.spec)
                 && (WS.ProvisionID(w) != id ==>
                       w' == w1.(status := w1.status.(warmStandby := w'.status.warmStandby)))
  {
    hide CircuitStage, StandbyStage, Synced, Promotes, Provisions, WS.PromotionID, WS.ProvisionID, WS.PromotedSpec,
         WS.CloneSpec;
    SyncFrame(d, s[id], i.now);
    CircuitAt(d, s, id, i.now);
    var o := CircuitStage(d, s, id, i.now);
    StandbyAt(d, o, id);
    if Promotes(d, s, id, i.now) && WS.PromotionID(s[id]) == id {
      PendingProvisionsNothing(d, o.s[id]);
    } else {
      Alike(d, o.s[id], s[id]);
    }
  }

  lemma PendingProvisionsNothing(d: Deps, w: Workload)
    requires w.status.phase == Pending
    ensures !Provisions(d, w)
  {
  }

  /** The later stages come to a rollout: the workload is pending, its schedule is due and its breaker allows it. */
  predicate RollsOutNow(d: Deps, w: Workload, i: Inputs) {
    && w.status.phase.Pending? && !CronStops(w, i)
    && (d.circuit.Some? ==> CB.AllowRouteResult(d.circuit.value, w, i.now))
  }

  lemma LocalFrame(d: Deps, w: Workload, i: Inputs)
    ensures var l := LocalStages(d, w, i);
            && l.w == w.(status := l.w.status, spec := w.spec.(image := l.w.spec.image))
            && l.w.status.warmStandby == w.status.warmStandby
            && l.w.spec.image == if RollsOutNow(d, w, i) && PicksWinner(d, w, i) then w.spec.rollout.variantA
                                 else w.spec.image
  {
    hide RouteStage, CB.AllowRouteResult, SR.Pending, PicksWinner;
    RouteFrame(d, SecretStage(d, w, i).w, i);
    SecretWaits(d, w, i);
  }

  lemma RouteFrame(d: Deps, w: Workload, i: Inputs)
    ensures var w' := RouteStage(d, w, i).w;
            && w' == w.(status := w'.status, spec := w.spec.(image := w'.spec.image))
            && w'.status.warmStandby == w.status.warmStandby && w'.status.secretRotation == w.status.secretRotation
            && w'.spec.image ==
               (if w.status.phase.Pending? && (d.circuit.Some? ==> CB.AllowRouteResult(d.circuit.value, w, i.now))
                   && PicksWinner(d, w, i)
                then w.spec.rollout.variantA else w.spec.image)
  {
    hide Synced, CB.AllowRouteResult, DeployStage, PicksWinner;
    SyncFrame(d, w, i.now);
    var routed := CB.RecordAttempt(Synced(d, w, i.now));
    DeployFrame(d, w, i);
    DeployFrame(d, routed, i);
    RolloutsAlike(d, routed, w, i);
  }

  lemma DeployFrame(d: Deps, w: Workload, i: Inputs)
    ensures var w' := DeployStage(d, w, i).w;
            && w' == w.(status := w.status.(phase := w'.status.phase), spec := w.spec.(image := w'.spec.image))
            && w'.spec.image ==
               if w.status.phase.Pending? && PicksWinner(d, w, i) then w.spec.rollout.variantA else w.spec.image
  {
    hide Finishes, Handed;
  }

  /** What a rollout does is a matter of the ID and the strategy alone. */
  lemma RolloutsAlike(d: Deps, a: Workload, b: Workload, i: Inputs)
    requires a.id == b.id && a.spec.rollout == b.spec.rollout
    ensures Handed(d, a, i) == Handed(d, b, i) && PicksWinner(d, a, i) == PicksWinner(d, b, i)
  {
  }

  lemma SharedKeepsRollout(d: Deps, s: Workloads, id: string, i: Inputs)
    requires id in s && s[id].id == id
    ensures var w := SharedStages(d, s, id, i).s[id];
            w.id == id && w.spec.rollout == s[id].spec.rollout && w.spec.image == s[id].spec.image
  {
    hide SharedStages, Synced, Promotes, Provisions, WS.PromotionID, WS.ProvisionID;
    SharedAt(d, s, id, i);
    SyncFrame(d, s[id], i.now);
  }

  /** The pass rolls its workload out. */
  ghost predicate RollsOut(d: Deps, s: Workloads, id: string, i: Inputs)
    requires id in s
  {
    !Gated(d, s, id, i) && RollsOutNow(d, SharedStages(d, s, id, i).s[id], i)
  }

  /** A pass leaves the spec of its workload alone exactly when it neither provisions the workload as its own standby
      nor fails it over to itself, unless there is nothing in the spec that a standby may not have, nor picks another
      image in an A/B test. */
  lemma PassKeepsSpecExactly(d: Deps, s: Workloads, id: string, i: Inputs)
    requires id in s && s[id].id == id
    ensures Pass(d, s, id, i).s[id].spec == s[id].spec
            <==> && !ProvisionsItself(d, s, id, i) && (PromotesItself(d, s, id, i) ==> WS.StandbyShaped(s[id].spec))
                 && (RollsOut(d, s, id, i) && PicksWinner(d, s[id], i) ==>
                       s[id].spec.rollout.variantA == s[id].spec.image)
  {
    hide SharedStages, LocalStages, Gated, Promotes, WS.PromotionID, WS.ProvisionID, WS.EnabledFor, CB.AllowRouteResult;
    if !Gated(d, s, id, i) {
      SharedAt(d, s, id, i);
      LocalFrame(d, SharedStages(d, s, id, i).s[id], i);
      OwnProvisionIsConfigured(s[id]);
    }
  }

  lemma OwnProvisionIsConfigured(w: Workload)
    ensures WS.ProvisionID(w) == w.id ==> w.spec.warmStandby.Some?
  {
    assert |w.id + "-standby"| > |w.id|;
  }

  /** What a pass leaves of another stored workload: its identity, its status but for the phase of a promoted one, and
      its spec unless it is promoted or provisioned; anything else it leaves as it is. */
  lemma PassAtOther(d: Deps, s: Workloads, id: string, x: string, i: Inputs)
    requires id in s && s[id].id == id && x in s && x != id
    ensures var w, w' := s[x], Pass(d, s, id, i).s[x];
            var promoted, provisioned := FailsOverTo(d, s, id, x, i), ProvisionsFor(d, s, id, x, i);
            && w'.id == w.id && w'.status == (if promoted then w.status.(phase := Pending) else w.status)
            && w'.spec == (if provisioned then WS.CloneSpec(s[id], 0)
                           else if promoted then WS.PromotedSpec(s[id]) else w.spec)
            && (!provisioned ==> w'.namespace == w.namespace)
            && (!promoted && !provisioned ==> w' == w)
  {
    hide LocalStages, Gated, Promotes, Provisions, Synced, WS.PromotionID, WS.ProvisionID, WS.CloneSpec,
         WS.PromotedSpec, CircuitStage, StandbyStage;
    if !Gated(d, s, id, i) {
      var o := CircuitStage(d, s, id, i.now);
      SyncFrame(d, s[id], i.now);
      CircuitAt(d, s, id, i.now);
      CircuitAtOther(d, s, id, x, i.now);
      StandbyAtOther(d, o, id, x);
      if PromotesItself(d, s, id, i) {
        PendingProvisionsNothing(d, o.s[id]);
      } else {
        Alike(d, o.s[id], s[id]);
      }
    }
  }

  lemma CircuitAtOther(d: Deps, s: Workloads, id: string, x: string, now: int)
    requires id in s && x in s && x != id
    ensures var w, w' := s[x], CircuitStage(d, s, id, now).s[x];
            if Promotes(d, s, id, now) && WS.PromotionID(s[id]) == x
            then
              && w'.id == w.id && w'.spec == WS.PromotedSpec(s[id]) && w'.status == w.status.(phase := Pending)
              && w'.namespace == w.namespace
            else w' == w
  {
    hide Synced, CB.EnabledFor, WS.EnabledFor, WS.PromotedSpec, WS.PromotionID, WS.PromotedFrom;
    var w1 := Synced(d, s[id], now);
    SyncFrame(d, s[id], now);
    SyncKeepsPromotionID(d, s[id], now);
    Alike(d, w1, s[id]);
    PromotedFrame(s[x], w1);
  }

  lemma StandbyAtOther(d: Deps, o: Outcome, id: string, x: string)
    requires id in o.s && x in o.s && x != id
    ensures var w, w' := o.s[x], StandbyStage(d, o, id).s[x];
            if Provisions(d, o.s[id]) && WS.ProvisionID(o.s[id]) == x
            then w'.id == w.id && w'.spec == WS.CloneSpec(o.s[id], 0) && w'.status == w.status
            else w' == w
  {
    hide WS.CloneSpec, WS.EnabledFor, WS.ProvisionID, WorkloadTags.Apply;
    WS.ApplyFrame(o.s[x].(spec := WS.CloneSpec(o.s[id], 0), namespace := o.s[id].namespace,
                          name := o.s[id].name + "-standby"));
  }

  // ---------------------------------------------------------------- one pass inside a cooldown

  /** The effects deploy the workload: routed, in place of a restart, or as a promoted standby. */
  predicate Deploys(effects: seq<Effect>, x: string) {
    Deploy(x) in effects || Redeploy(x) in effects || PromoteStandby(x) in effects
  }

  /** The effects reach the workload's runtime at all. */
  predicate Reaches(effects: seq<Effect>, x: string) {
    Deploys(effects, x) || Restart(x) in effects
  }

  lemma SharedEffects(d: Deps, s: Workloads, id: string, i: Inputs)
    requires id in s
    ensures var effects := SharedStages(d, s, id, i).effects;
            forall x ::
              && Deploy(x) !in effects && Restart(x) !in effects && Redeploy(x) !in effects
              && (PromoteStandby(x) in effects <==> Promotes(d, s, id, i.now) && x == WS.PromotionID(s[id]))
  {
    hide Promotes, Provisions, WS.PromotionID, WS.ProvisionID, WS.AfterPromote, WS.AfterEnsure;
  }

  lemma LocalEffects(d: Deps, w: Workload, i: Inputs)
    ensures var effects := LocalStages(d, w, i).effects;
            forall x ::
              && PromoteStandby(x) !in effects
              && (Deploy(x) in effects <==> RollsOutNow(d, w, i) && x in Handed(d, w, i))
              && (Restart(x) in effects <==> x == w.id && RestartDue(d, w) && !i.restart.NoDriver?)
              && (Redeploy(x) in effects <==> x == w.id && RestartDue(d, w) && i.restart.FallsBack())
  {
    hide RouteStage, SecretStage, RestartDue, Deployments, Handed, CB.AllowRouteResult;
    SecretEffects(d, w, i);
    RouteEffects(d, SecretStage(d, w, i).w, i);
    SecretWaits(d, w, i);
    DeploymentsMembers(Handed(d, w, i));
  }

  lemma DeploymentsMembers(ids: seq<string>)
    ensures forall x ::
              && PromoteStandby(x) !in Deployments(ids) && Restart(x) !in Deployments(ids)
              && Redeploy(x) !in Deployments(ids) && (Deploy(x) in Deployments(ids) <==> x in ids)
  {
    forall x | x in ids
      ensures Deploy(x) in Deployments(ids)
    {
      var k :| 0 <= k < |ids| && ids[k] == x;
      assert Deployments(ids)[k] == Deploy(x);
    }
  }

  lemma SecretWaits(d: Deps, w: Workload, i: Inputs)
    ensures !w.status.phase.Running? ==> SecretStage(d, w, i) == Local(w, [])
    ensures SecretStage(d, w, i).w.status.phase == w.status.phase
  {
  }

  lemma SecretEffects(d: Deps, w: Workload, i: Inputs)
    ensures SecretStage(d, w, i).w.id == w.id
    ensures var effects := SecretStage(d, w, i).effects;
            forall x ::
              && PromoteStandby(x) !in effects && Deploy(x) !in effects
              && (Restart(x) in effects <==> x == w.id && RestartDue(d, w) && !i.restart.NoDriver?)
              && (Redeploy(x) in effects <==> x == w.id && RestartDue(d, w) && i.restart.FallsBack())
  {
    hide RestartDue;
  }

  lemma RouteEffects(d: Deps, w: Workload, i: Inputs)
    ensures RouteStage(d, w, i).effects
            == if w.status.phase.Pending? && (d.circuit.Some? ==> CB.AllowRouteResult(d.circuit.value, w, i.now))
               then Deployments(Handed(d, w, i)) else []
  {
    hide Synced, CB.AllowRouteResult;
    SyncFrame(d, w, i.now);
  }

  /** Which failovers, restarts, replaced restarts and rollouts a pass comes to. */
  lemma PassEffects(d: Deps, s: Workloads, id: string, x: string, i: Inputs)
    requires id in s && s[id].id == id
    ensures var effects := Pass(d, s, id, i).effects;
            && (PromoteStandby(x) in effects <==> FailsOverTo(d, s, id, x, i))
            && (Restart(x) in effects <==> x == id && RestartsIn(d, s, id, i))
            && (Redeploy(x) in effects <==> x == id && RedeploysIn(d, s, id, i))
            && (Deploy(x) in effects <==> RollsOut(d, s, id, i) && x in Handed(d, s[id], i))
  {
    hide SharedStages, LocalStages, Gated, Promotes, Synced, WS.PromotionID, WS.ProvisionID, WS.CloneSpec,
         RollsOutNow;
    if !Gated(d, s, id, i) {
      SyncFrame(d, s[id], i.now);
      SharedAt(d, s, id, i);
      SharedEffects(d, s, id, i);
      LocalEffects(d, SharedStages(d, s, id, i).s[id], i);
      SharedKeepsRollout(d, s, id, i);
      RolloutsAlike(d, SharedStages(d, s, id, i).s[id], s[id], i);
    }
  }

  /** The breaker is open and its deadline is ahead. */
  predicate Waiting(st: Option<CircuitBreakerStatus>, now: int) {
    st.Some? && st.value.state.Open? && st.value.openUntil.Some? && now < st.value.openUntil.value
  }

  lemma WaitingHolds(d: Deps, w: Workload, now: int)
    requires d.circuit.Some? && Waiting(w.status.circuitBreaker, now)
    ensures Synced(d, w, now) == w
    ensures CB.EnabledFor(w, d.circuit.value) ==> !CB.AllowRouteResult(d.circuit.value, w, now)
  {
    hide CB.Step, CB.EffectiveSpecOf, CB.EnabledFor;
    CB.OpenHolds(CB.EffectiveSpecOf(w, d.circuit.value), w.status.circuitBreaker.value,
                 CB.Event(w.status.phase, w.status.readyReplicas, now, false));
  }

  /** Inside a cooldown the later stages keep the breaker status, and roll out only if the breaker was switched off. */
  lemma LocalWaits(d: Deps, w: Workload, i: Inputs)
    requires d.circuit.Some? && Waiting(w.status.circuitBreaker, i.now)
    ensures LocalStages(d, w, i).w.status.circuitBreaker == w.status.circuitBreaker
    ensures RollsOutNow(d, w, i) <==>
            !CB.EnabledFor(w, d.circuit.value) && w.status.phase.Pending? && !CronStops(w, i)
  {
    hide Synced, CB.EnabledFor, SR.Pending;
    var w' := SecretStage(d, w, i).w;
    SameSpec(w', w, d.circuit.value);
    WaitingHolds(d, w', i.now);
    DisabledAllows(w', d.circuit.value, i.now);
  }

  lemma SameSpec(a: Workload, b: Workload, cfg: CB.Config)
    requires a.spec.circuitBreaker == b.spec.circuitBreaker
    ensures CB.EffectiveSpecOf(a, cfg) == CB.EffectiveSpecOf(b, cfg) && CB.EnabledFor(a, cfg) == CB.EnabledFor(b, cfg)
  {
  }

  lemma DisabledAllows(w: Workload, cfg: CB.Config, now: int)
    ensures w.status.phase.Pending? && !CB.EnabledFor(w, cfg) ==> CB.AllowRouteResult(cfg, w, now)
  {
  }

  /** Inside a cooldown a pass leaves the breaker status as it is and does not route. It reaches the runtime of its
      workload exactly when it fails the workload over to itself or asks a driver for a due restart, and it deploys
      exactly when it fails over or a failed restart falls back to a deployment. */
  lemma CooldownPass(d: Deps, s: Workloads, id: string, i: Inputs)
    requires id in s && s[id].id == id
    requires d.circuit.Some? && CB.EnabledFor(s[id], d.circuit.value) && Waiting(s[id].status.circuitBreaker, i.now)
    ensures Pass(d, s, id, i).s[id].status.circuitBreaker == s[id].status.circuitBreaker
    ensures Reaches(Pass(d, s, id, i).effects, id) <==> PromotesItself(d, s, id, i) || RestartsIn(d, s, id, i)
    ensures Deploys(Pass(d, s, id, i).effects, id) <==> PromotesItself(d, s, id, i) || RedeploysIn(d, s, id, i)
  {
    hide SharedStages, LocalStages, Gated, Promotes, Synced, WS.PromotionID, WS.ProvisionID, WS.CloneSpec,
         WS.PromotedSpec, WS.EnabledFor, CB.EnabledFor, RestartDue;
    PassEffects(d, s, id, id, i);
    if !Gated(d, s, id, i) {
      SharedAt(d, s, id, i);
      SharedEffects(d, s, id, i);
      WaitingHolds(d, s[id], i.now);
      var w := SharedStages(d, s, id, i).s[id];
      LocalWaits(d, w, i);
      LocalEffects(d, w, i);
      if !PromotesItself(d, s, id, i) && !ProvisionsItself(d, s, id, i) {
        SameSpec(w, s[id], d.circuit.value);
      }
    }
  }

  /** The pass over another workload rolls it out under the ID `x`, as its canary or variant. */
  ghost predicate RollsOutAs(d: Deps, s: Workloads, id: string, x: string, i: Inputs)
    requires id in s
  {
    id != x && RollsOut(d, s, id, i) && x in Handed(d, s[id], i)
  }

  /** The pass reaches the runtime of `x` without asking its breaker: as the target of a failover, as the variant of
      another workload, or by a due restart. */
  ghost predicate ReachesAnyway(d: Deps, s: Workloads, id: string, x: string, i: Inputs)
    requires id in s
  {
    FailsOverTo(d, s, id, x, i) || RollsOutAs(d, s, id, x, i) || (id == x && RestartsIn(d, s, id, i))
  }

  /** The pass deploys `x` without asking its breaker: as the target of a failover, as the variant of another workload,
      or in place of a failed restart. */
  ghost predicate DeploysAnyway(d: Deps, s: Workloads, id: string, x: string, i: Inputs)
    requires id in s
  {
    FailsOverTo(d, s, id, x, i) || RollsOutAs(d, s, id, x, i) || (id == x && RedeploysIn(d, s, id, i))
  }

  /** No pass, over this or another workload, changes a breaker status inside its cooldown; and such a pass reaches the
      runtime of the workload, or deploys it, exactly when it does so without asking the breaker. */
  lemma AnyPassInCooldown(d: Deps, s: Workloads, id: string, x: string, i: Inputs)
    requires id in s && s[id].id == id && x in s && d.circuit.Some?
    requires id == x ==> CB.EnabledFor(s[x], d.circuit.value) && Waiting(s[x].status.circuitBreaker, i.now)
    ensures Pass(d, s, id, i).s[x].status.circuitBreaker == s[x].status.circuitBreaker
    ensures Reaches(Pass(d, s, id, i).effects, x) <==> ReachesAnyway(d, s, id, x, i)
    ensures Deploys(Pass(d, s, id, i).effects, x) <==> DeploysAnyway(d, s, id, x, i)
  {
    hide Pass, FailsOverTo, RestartsIn, RedeploysIn, RollsOut, CB.EnabledFor, Waiting, Handed, ProvisionsFor;
    PassEffects(d, s, id, x, i);
    if id == x {
      CooldownPass(d, s, id, i);
    } else {
      PassAtOther(d, s, id, x, i);
    }
  }

  // ---------------------------------------------------------------- the pass that trips

  lemma ObservationIsEvent(cfg: CB.Config, w: Workload, now: int)
    requires CB.EnabledFor(w, cfg)
    ensures CB.SyncWorkload(cfg, w, now).status.circuitBreaker ==
            Some(CB.After(CB.EffectiveSpecOf(w, cfg), w.status.circuitBreaker,
                          CB.Event(w.status.phase, w.status.readyReplicas, now, false)))
  {
    hide CB.Step, CB.EffectiveSpecOf;
  }

  /** The pass opens the breaker, as opposed to finding it open inside a cooldown. */
  ghost predicate TripsIn(d: Deps, s: Workloads, id: string, i: Inputs)
    requires id in s
  {
    var before, after := s[id].status.circuitBreaker, Pass(d, s, id, i).s[id].status.circuitBreaker;
    && !Gated(d, s, id, i)
    && after.Some? && after.value.state.Open? && !(before.Some? && CB.StaysOpen(before.value, i.now))
  }

  /** The later stages open the breaker only on an unhealthy phase, and set the deadline of the spec they find. */
  lemma LocalOpens(d: Deps, w: Workload, i: Inputs)
    requires d.circuit.Some? && w.status.circuitBreaker.Some? && !w.status.circuitBreaker.value.state.Open?
    requires var st := LocalStages(d, w, i).w.status.circuitBreaker; st.Some? && st.value.state.Open?
    ensures !w.status.phase.Running?
    ensures LocalStages(d, w, i).w.status.circuitBreaker.value.openUntil
            == Some(i.now + CB.EffectiveSpecOf(w, d.circuit.value).Cooldown())
  {
    hide CB.SyncWorkload, CB.EnabledFor, SR.Pending, CB.EffectiveSpecOf, CB.AllowRouteResult, CB.After;
    var w' := SecretStage(d, w, i).w;
    SameSpec(w', w, d.circuit.value);
    SyncFrame(d, w', i.now);
    DisabledSyncs(d.circuit.value, w', i.now);
    assert CB.EnabledFor(w', d.circuit.value);
    ObservationIsEvent(d.circuit.value, w', i.now);
    CB.TripSetsDeadline(CB.EffectiveSpecOf(w, d.circuit.value), w.status.circuitBreaker,
                        CB.Event(w.status.phase, w.status.readyReplicas, i.now, false));
  }

  lemma DisabledSyncs(cfg: CB.Config, w: Workload, now: int)
    ensures !CB.EnabledFor(w, cfg) ==> CB.SyncWorkload(cfg, w, now) == w
  {
  }

  lemma OnlyOpenPromotes(d: Deps, w: Workload)
    requires d.circuit.Some? && CB.EnabledFor(w, d.circuit.value)
    ensures ShouldAutoPromote(d, w) ==> w.status.circuitBreaker.Some? && w.status.circuitBreaker.value.state.Open?
  {
  }

  lemma CooldownPositive(w: Workload, cfg: CB.Config)
    requires cfg.Normalized()
    ensures CB.EffectiveSpecOf(w, cfg).Cooldown() > 0
  {
  }

  /** A pass that opens the breaker sets the deadline by the spec that it started with, whoever is whose standby. */
  lemma TripDeadline(d: Deps, s: Workloads, id: string, i: Inputs)
    requires id in s && s[id].id == id
    requires d.circuit.Some? && d.circuit.value.Normalized() && CB.EnabledFor(s[id], d.circuit.value)
    requires TripsIn(d, s, id, i)
    ensures Pass(d, s, id, i).s[id].status.circuitBreaker.value.openUntil
            == Some(i.now + CB.EffectiveSpecOf(s[id], d.circuit.value).Cooldown())
  {
    hide SharedStages, LocalStages, Gated, CB.SyncWorkload, WS.PromotionID, WS.ProvisionID, WS.CloneSpec, CB.After,
         WS.PromotedSpec, WS.EnabledFor, CB.EnabledFor, CB.EffectiveSpecOf, ShouldAutoPromote;
    var w, cfg := s[id], d.circuit.value;
    var e := CB.EffectiveSpecOf(w, cfg);
    SharedAt(d, s, id, i);
    ObservationIsEvent(cfg, w, i.now);
    CooldownPositive(w, cfg);
    SyncFrame(d, w, i.now);
    SameSpec(Synced(d, w, i.now), w, cfg);
    var mid := SharedStages(d, s, id, i).s[id];
    if mid.status.circuitBreaker.value.state.Open? {
      CB.TripSetsDeadline(e, w.status.circuitBreaker, CB.Event(w.status.phase, w.status.readyReplicas, i.now, false));
      LocalWaits(d, mid, i);
    } else {
      OnlyOpenPromotes(d, Synced(d, w, i.now));
      LocalOpens(d, mid, i);
      SameSpec(mid, w, cfg);
    }
  }

  /** A workload that is its own standby and whose breaker is enabled by its own spec alone: the pass that trips the
      breaker promotes the workload, which switches the breaker off, and deploys it inside the cooldown. */
  lemma OwnStandbyDeploysInCooldown(d: Deps, s: Workloads, id: string, i: Inputs)
    requires id in s && s[id].id == id && !Gated(d, s, id, i)
    requires d.circuit.Some? && d.circuit.value.Normalized() && !d.circuit.value.enabled
    requires d.standby.Some? && WS.EnabledFor(d.standby.value.enabled, s[id]) && d.standby.value.autoPromote
    requires CB.EnabledFor(s[id], d.circuit.value) && WS.PromotionID(s[id]) == id
    requires CB.Trips(CB.EffectiveSpecOf(s[id], d.circuit.value), s[id].status.circuitBreaker,
                      CB.Event(s[id].status.phase, s[id].status.readyReplicas, i.now, false))
    ensures var o := Pass(d, s, id, i);
            && PromotesItself(d, s, id, i) && PromoteStandby(id) in o.effects && RollsOut(d, s, id, i)
            && (Deploy(id) in o.effects <==> id in Handed(d, s[id], i))
            && o.s[id].spec == WS.PromotedSpec(s[id]).(image := o.s[id].spec.image)
            && !CB.EnabledFor(o.s[id], d.circuit.value)
            && Waiting(o.s[id].status.circuitBreaker, i.now)
  {
    hide SharedStages, LocalStages, Gated, CB.SyncWorkload, WS.PromotionID, WS.ProvisionID, CB.After,
         CB.EffectiveSpecOf;
    var w, cfg := s[id], d.circuit.value;
    ObservationIsEvent(cfg, w, i.now);
    CooldownPositive(w, cfg);
    SyncFrame(d, w, i.now);
    CB.TripSetsDeadline(CB.EffectiveSpecOf(w, cfg), w.status.circuitBreaker,
                        CB.Event(w.status.phase, w.status.readyReplicas, i.now, false));
    SharedAt(d, s, id, i);
    PassEffects(d, s, id, id, i);
    var mid := SharedStages(d, s, id, i).s[id];
    LocalWaits(d, mid, i);
    LocalFrame(d, mid, i);
  }

  // ---------------------------------------------------------------- passes are breaker histories

  /** The workload is not its own standby, for failover or for provisioning. */
  predicate HasOtherStandby(w: Workload) {
    WS.PromotionID(w) != w.id && WS.ProvisionID(w) != w.id
  }

  /** The observations that a pass makes under the spec it finds: one when it synchronises, another when it routes. */
  ghost function ObservedIn(d: Deps, s: Workloads, id: string, i: Inputs): seq<CB.Observed>
    requires id in s && d.circuit.Some?
  {
    var e, phase, ready := CB.EffectiveSpecOf(s[id], d.circuit.value), s[id].status.phase, s[id].status.readyReplicas;
    var synced, routed := CB.Observed(e, CB.Event(phase, ready, i.now, false)),
                          CB.Observed(e, CB.Event(phase, ready, i.now, true));
    if Gated(d, s, id, i) then [] else if s[id].spec.cronSchedule.None? || i.cron == Due then [synced, routed]
    else [synced]
  }

  /** The breaker allowed the last of the observations to route. */
  predicate AllowsLast(st: Option<CircuitBreakerStatus>, os: seq<CB.Observed>) {
    && |os| == 2
    && CB.Allows(os[1].spec, CB.Synced(os[1].spec, CB.RunAll(st, os[..1]), os[1].event), os[1].event.phase)
  }

  /** Routing synchronises, records a probe exactly when the event does, and decides as the breaker does. */
  lemma RouteIsEvent(d: Deps, w: Workload, i: Inputs)
    requires d.circuit.Some? && CB.EnabledFor(w, d.circuit.value)
    ensures var e := CB.EffectiveSpecOf(w, d.circuit.value);
            var ev := CB.Event(w.status.phase, w.status.readyReplicas, i.now, true);
            && RouteStage(d, w, i).w.status.circuitBreaker == Some(CB.After(e, w.status.circuitBreaker, ev))
            && (CB.AllowRouteResult(d.circuit.value, w, i.now)
                <==> CB.Allows(e, CB.Synced(e, w.status.circuitBreaker, ev), ev.phase))
  {
    hide CB.Step, CB.EffectiveSpecOf, CB.EnabledFor;
    SyncFrame(d, w, i.now);
    SameSpec(Synced(d, w, i.now), w, d.circuit.value);
  }

  lemma LocalIsHistory(d: Deps, w: Workload, i: Inputs)
    requires d.circuit.Some? && CB.EnabledFor(w, d.circuit.value)
    ensures var e := CB.EffectiveSpecOf(w, d.circuit.value);
            var ev, l := CB.Event(w.status.phase, w.status.readyReplicas, i.now, true), LocalStages(d, w, i);
            && l.w.status.circuitBreaker ==
               (if CronStops(w, i) then w.status.circuitBreaker else Some(CB.After(e, w.status.circuitBreaker, ev)))
            && (RollsOutNow(d, w, i)
                <==> && !CronStops(w, i) && w.status.phase.Pending?
                     && CB.Allows(e, CB.Synced(e, w.status.circuitBreaker, ev), ev.phase))
  {
    hide CB.EffectiveSpecOf, CB.EnabledFor, RouteStage, CB.After, CB.Allows, CB.Synced, SR.Pending, CB.AllowRouteResult;
    var w' := SecretStage(d, w, i).w;
    SameSpec(w', w, d.circuit.value);
    RouteIsEvent(d, w', i);
    RouteIsEvent(d, w, i);
  }

  lemma RunAllFew(st: Option<CircuitBreakerStatus>, a: CB.Observed, b: CB.Observed)
    ensures CB.RunAll(st, []) == st && CB.RunAll(st, [a]) == Some(CB.After(a.spec, st, a.event))
    ensures CB.RunAll(st, [a, b]) == Some(CB.After(b.spec, CB.RunAll(st, [a]), b.event)) && [a, b][..1] == [a]
  {
    hide CB.After;
    assert [a, b][..1] == [a] && [a][..0] == [];
  }

  /** Unless the workload is its own standby, a pass acts on the breaker exactly as its observations do, and rolls the
      workload out exactly when it is pending and routing is allowed. */
  lemma PassIsHistory(d: Deps, s: Workloads, id: string, i: Inputs)
    requires id in s && s[id].id == id && HasOtherStandby(s[id])
    requires d.circuit.Some? && CB.EnabledFor(s[id], d.circuit.value)
    ensures var o, st, os := Pass(d, s, id, i), s[id].status.circuitBreaker, ObservedIn(d, s, id, i);
            && o.s[id].status.circuitBreaker == CB.RunAll(st, os)
            && (RollsOut(d, s, id, i) <==> s[id].status.phase.Pending? && AllowsLast(st, os))
  {
    hide SharedStages, LocalStages, Gated, CB.SyncWorkload, RollsOutNow, WS.PromotionID, WS.ProvisionID, CB.After,
         CB.EffectiveSpecOf, CB.EnabledFor, Promotes, Provisions, CB.Allows, CB.Synced, CB.RunAll;
    var w, e := s[id], CB.EffectiveSpecOf(s[id], d.circuit.value);
    var phase, ready := w.status.phase, w.status.readyReplicas;
    RunAllFew(w.status.circuitBreaker, CB.Observed(e, CB.Event(phase, ready, i.now, false)),
              CB.Observed(e, CB.Event(phase, ready, i.now, true)));
    if !Gated(d, s, id, i) {
      SharedAt(d, s, id, i);
      var mid := SharedStages(d, s, id, i).s[id];
      SyncFrame(d, w, i.now);
      SameSpec(mid, w, d.circuit.value);
      ObservationIsEvent(d.circuit.value, w, i.now);
      LocalIsHistory(d, mid, i);
    }
  }

  /** A workload that is replaced by a pending one without breaker status is rolled out by the next pass over it that is
      not gated or stopped by its schedule, whatever cooldown it was in. */
  lemma ReplacedIsRolledOut(d: Deps, s: Workloads, id: string, i: Inputs)
    requires id in s && s[id].id == id && s[id].status.phase.Pending? && s[id].status.circuitBreaker.None?
    requires !Gated(d, s, id, i) && !CronStops(s[id], i)
    ensures RollsOut(d, s, id, i)
  {
    hide Gated, SharedStages, WS.PromotionID, WS.ProvisionID, WS.EnabledFor, SR.Pending;
    SyncFrame(d, s[id], i.now);
    FreshIsClosed(d, s[id], i.now);
    PendingProvisionsNothing(d, s[id]);
    SharedAt(d, s, id, i);
    FreshIsAllowed(d, SharedStages(d, s, id, i).s[id], i.now);
  }

  lemma FreshIsClosed(d: Deps, w: Workload, now: int)
    requires w.status.phase.Pending? && w.status.circuitBreaker.None?
    ensures !ShouldAutoPromote(d, Synced(d, w, now))
    ensures var st := Synced(d, w, now).status.circuitBreaker; st.None? || st.value.state.Closed?
  {
  }

  lemma FreshIsAllowed(d: Deps, w: Workload, now: int)
    requires w.status.phase.Pending?
    requires w.status.circuitBreaker.None? || w.status.circuitBreaker.value.state.Closed?
    ensures d.circuit.Some? ==> CB.AllowRouteResult(d.circuit.value, w, now)
  {
  }

  /** A pass that does not find `x` to be its own standby either deploys it in its rollout or deploys it anyway, never
      both. */
  lemma EitherWay(d: Deps, s: Workloads, id: string, x: string, i: Inputs)
    requires id in s && s[id].id == id && d.circuit.Some?
    requires id == x ==> HasOtherStandby(s[x]) && CB.EnabledFor(s[x], d.circuit.value)
    ensures var effects := Pass(d, s, id, i).effects;
            && (Deploys(effects, x) <==> (id == x && Deploy(x) in effects) || DeploysAnyway(d, s, id, x, i))
            && !(id == x && Deploy(x) in effects && DeploysAnyway(d, s, id, x, i))
  {
    hide Pass, Gated, Promotes, WS.PromotionID, WS.ProvisionID, CB.EnabledFor, ObservedIn, AllowsLast, SR.Pending,
         RollsOut, Handed;
    PassEffects(d, s, id, x, i);
    if id == x {
      PassIsHistory(d, s, id, i);
    }
  }

  /** Having another standby is kept by every pass. */
  lemma PassKeepsOtherStandby(d: Deps, s: Workloads, id: string, i: Inputs)
    requires id in s && s[id].id == id && HasOtherStandby(s[id])
    ensures var w := Pass(d, s, id, i).s[id];
            w.id == id && w.spec == s[id].spec.(image := w.spec.image) && HasOtherStandby(w)
  {
    hide SharedStages, LocalStages, Gated, Synced, Promotes, Provisions, CircuitStage, StandbyStage, WS.ProvisionID,
         WS.PromotionID;
    if !Gated(d, s, id, i) {
      var o := CircuitStage(d, s, id, i.now);
      SyncFrame(d, s[id], i.now);
      CircuitAt(d, s, id, i.now);
      CircuitKeepsID(d, s, id, i.now);
      Alike(d, o.s[id], s[id]);
      StandbyAt(d, o, id);
      StandbyKeepsID(d, o, id);
      SharedAt(d, s, id, i);
      var mid := SharedStages(d, s, id, i).s[id];
      assert mid == StandbyStage(d, o, id).s[id] by {
        SharedIsStages(d, s, id, i);
      }
      LocalFrame(d, mid, i);
      IDsOf(LocalStages(d, mid, i).w, mid);
      Alike(d, mid, o.s[id]);
    }
  }

  /** A pass over a workload whose failover and provisioning agree on the standby leaves them agreeing on it. */
  lemma PassKeepsStandbyID(d: Deps, s: Workloads, id: string, i: Inputs)
    requires id in s && s[id].id == id && HasOtherStandby(s[id]) && WS.PromotionID(s[id]) == WS.ProvisionID(s[id])
    ensures var w := Pass(d, s, id, i).s[id];
            && WS.PromotionID(w) == WS.ProvisionID(w) == WS.ProvisionID(s[id])
            && w == s[id].(status := w.status, spec := s[id].spec.(image := w.spec.image))
  {
    hide SharedStages, LocalStages, Gated, Synced, Promotes, Provisions, CircuitStage, StandbyStage, WS.ProvisionID,
         WS.PromotionID;
    if !Gated(d, s, id, i) {
      var o := CircuitStage(d, s, id, i.now);
      SyncFrame(d, s[id], i.now);
      CircuitAt(d, s, id, i.now);
      CircuitKeepsID(d, s, id, i.now);
      Alike(d, o.s[id], s[id]);
      StandbyAt(d, o, id);
      StandbyKeepsID(d, o, id);
      SharedIsStages(d, s, id, i);
      var mid := SharedStages(d, s, id, i).s[id];
      LocalFrame(d, mid, i);
      IDsOf(LocalStages(d, mid, i).w, mid);
      Alike(d, mid, o.s[id]);
    }
  }

  lemma SharedIsStages(d: Deps, s: Workloads, id: string, i: Inputs)
    requires id in s
    ensures SharedStages(d, s, id, i) == StandbyStage(d, CircuitStage(d, s, id, i.now), id)
  {
    hide CircuitStage, StandbyStage;
  }

  lemma IDsOf(a: Workload, b: Workload)
    requires a.id == b.id && a.spec.warmStandby == b.spec.warmStandby && a.status.warmStandby == b.status.warmStandby
    ensures WS.PromotionID(a) == WS.PromotionID(b) && WS.ProvisionID(a) == WS.ProvisionID(b)
  {
  }

  lemma CircuitKeepsID(d: Deps, s: Workloads, id: string, now: int)
    requires id in s && s[id].id == id && WS.PromotionID(s[id]) != id
    ensures WS.PromotionID(CircuitStage(d, s, id, now).s[id]) == WS.PromotionID(s[id])
  {
    hide Synced, ShouldAutoPromote, WS.EnabledFor, WS.PromotedFrom;
    SyncFrame(d, s[id], now);
    SyncKeepsPromotionID(d, s[id], now);
  }

  lemma StandbyKeepsID(d: Deps, o: Outcome, id: string)
    requires id in o.s && o.s[id].id == id && WS.ProvisionID(o.s[id]) != id
    ensures var w' := StandbyStage(d, o, id).s[id];
            WS.PromotionID(w') == if Provisions(d, o.s[id]) then WS.ProvisionID(o.s[id]) else WS.PromotionID(o.s[id])
  {
    hide WS.EnabledFor, WS.ProvisionID, WS.Provisioned;
    WS.ProvisionIDNonEmpty(o.s[id]);
  }

  // ---------------------------------------------------------------- a pass, field by field

  /** Every call of the workload's strategy to the scheduler was accepted: one, two where a canary is promoted, three
      where an A/B test selects its winner. */
  predicate AllAccepted(d: Deps, w: Workload, i: Inputs) {
    if !d.rollouts then i.accepted >= 1 else
      i.healthy &&
      match w.spec.rollout
      case Direct => i.accepted >= 1
      case Canary(promoted) => i.accepted >= if promoted then 2 else 1
      case ABTest(_, _, selects) => i.accepted >= if selects then 3 else 2
      case Unusable => false
  }

  /** The rollout comes to handing over the ID: the workload itself, its canary, or one of its variants. */
  predicate HandsOver(d: Deps, w: Workload, i: Inputs, x: string) {
    if !d.rollouts then x == w.id else
      i.healthy &&
      match w.spec.rollout
      case Direct => x == w.id
      case Canary(promoted) => x == w.id + "-canary" || (x == w.id && promoted && i.accepted >= 1)
      case ABTest(_, _, selects) =>
        || x == w.id + "-variant-a" || (x == w.id + "-variant-b" && i.accepted >= 1)
        || (x == w.id && selects && i.accepted >= 2)
      case Unusable => false
  }

  lemma RolloutByFields(d: Deps, w: Workload, i: Inputs, x: string)
    ensures x in Handed(d, w, i) <==> HandsOver(d, w, i, x)
    ensures Finishes(d, w, i) <==> AllAccepted(d, w, i)
    ensures PicksWinner(d, w, i) <==> d.rollouts && w.spec.rollout.ABTest? && HandsOver(d, w, i, w.id)
  {
    var id := w.id;
    assert [id][..1] == [id] && [id + "-canary"][..1] == [id + "-canary"];
    if d.rollouts && w.spec.rollout.Canary? {
      var plan := [id + "-canary", id];
      assert plan[..1] == [id + "-canary"] && plan[..2] == plan;
      assert w.spec.rollout.autoPromote ==> Plan(d, w) == plan;
    } else if d.rollouts && w.spec.rollout.ABTest? {
      var plan := [id + "-variant-a", id + "-variant-b", id];
      assert plan[..1] == [id + "-variant-a"] && plan[..2] == [id + "-variant-a", id + "-variant-b"];
      assert plan[..3] == plan;
      assert w.spec.rollout.autoSelect ==> Plan(d, w) == plan;
      assert !w.spec.rollout.autoSelect ==> Plan(d, w) == plan[..2] && plan[..2][..1] == plan[..1];
    }
  }

  /** The phase that a pass leaves: running after a rollout whose calls were all accepted, else pending after a failover
      to itself, else what it was. */
  lemma PassPhase(d: Deps, s: Workloads, id: string, i: Inputs)
    requires id in s && s[id].id == id
    ensures Pass(d, s, id, i).s[id].status.phase ==
            if RollsOut(d, s, id, i) && AllAccepted(d, s[id], i) then Running
            else if PromotesItself(d, s, id, i) then Pending
            else s[id].status.phase
  {
    hide SharedStages, LocalStages, Gated, Promotes, Provisions, WS.PromotionID, WS.ProvisionID, RollsOutNow,
         AllAccepted, WS.CloneSpec, WS.PromotedSpec;
    if !Gated(d, s, id, i) {
      SharedAt(d, s, id, i);
      SharedKeepsRollout(d, s, id, i);
      var mid := SharedStages(d, s, id, i).s[id];
      SameRolloutFields(d, mid, s[id], i);
      LocalPhase(d, mid, i);
    }
  }

  lemma SameRolloutFields(d: Deps, a: Workload, b: Workload, i: Inputs)
    requires a.id == b.id && a.spec.rollout == b.spec.rollout
    ensures AllAccepted(d, a, i) == AllAccepted(d, b, i)
  {
  }

  lemma LocalPhase(d: Deps, w: Workload, i: Inputs)
    ensures LocalStages(d, w, i).w.status.phase ==
            if RollsOutNow(d, w, i) && AllAccepted(d, w, i) then Running else w.status.phase
  {
    hide Synced, CB.AllowRouteResult, SR.Pending, AllAccepted, Finishes, Picked, Handed, Deployments;
    var w' := SecretStage(d, w, i).w;
    SecretWaits(d, w, i);
    SyncFrame(d, w', i.now);
    PickedFrame(d, CB.RecordAttempt(Synced(d, w', i.now)), i);
    PickedFrame(d, w', i);
    RolloutByFields(d, w, i, w.id);
    FinishesAlike(d, CB.RecordAttempt(Synced(d, w', i.now)), w, i);
    FinishesAlike(d, w', w, i);
  }

  lemma PickedFrame(d: Deps, w: Workload, i: Inputs)
    ensures Picked(d, w, i).status == w.status
  {
  }

  lemma FinishesAlike(d: Deps, a: Workload, b: Workload, i: Inputs)
    requires a.id == b.id && a.spec.rollout == b.spec.rollout
    ensures Finishes(d, a, i) == Finishes(d, b, i)
  {
  }

  /** A rollout finds its workload pending, or has a failover to itself make it so. */
  lemma RollsOutOnlyPending(d: Deps, s: Workloads, id: string, i: Inputs)
    requires id in s && s[id].id == id && RollsOut(d, s, id, i)
    ensures s[id].status.phase.Pending? || PromotesItself(d, s, id, i)
  {
    hide SharedStages, Gated, Promotes, WS.PromotionID, WS.ProvisionID, CB.AllowRouteResult;
    SharedAt(d, s, id, i);
  }

  /** The breaker is open after the observation that a pass begins with, or without a breaker the workload is unwell. */
  predicate IsDown(cfg: CB.Config, w: Workload, now: int) {
    if cfg.enabled || (w.spec.circuitBreaker.Some? && w.spec.circuitBreaker.value.enabled) then
      CB.After(CB.EffectiveSpecOf(w, cfg), w.status.circuitBreaker,
               CB.Event(w.status.phase, w.status.readyReplicas, now, false)).state == Open
    else w.status.phase == Degraded || w.status.phase == Failed
  }

  /** The pass fails over to `x`, field by field: both collaborators exist, the workload has a standby and promotes it
      by itself, it is down, and `x` is the stored standby. */
  lemma FailsOverByFields(d: Deps, s: Workloads, id: string, x: string, i: Inputs)
    requires id in s && s[id].id == id
    ensures FailsOverTo(d, s, id, x, i) <==>
            && i.controllersPass && i.policyPasses && (d.quota.Some? ==> Quota.Admits(d.quota.value, s.Values, s[id]))
            && d.circuit.Some? && d.standby.Some? && WS.Wants(d.standby.value.enabled, s[id])
            && (d.standby.value.autoPromote
                || (s[id].spec.warmStandby.Some? && s[id].spec.warmStandby.value.autoPromote))
            && IsDown(d.circuit.value, s[id], i.now) && x in s && x == WS.PromotionID(s[id])
  {
    hide CB.After, CB.EffectiveSpecOf, WS.PromotionID, Quota.Admits, CB.SyncWorkload;
    SyncFrame(d, s[id], i.now);
    if d.circuit.Some? {
      SameSpec(Synced(d, s[id], i.now), s[id], d.circuit.value);
      if CB.EnabledFor(s[id], d.circuit.value) {
        ObservationIsEvent(d.circuit.value, s[id], i.now);
      }
    }
  }

  /** What a pass does, field by field: its restart, its standby and its rollout. */
  lemma PassActsByFields(d: Deps, s: Workloads, id: string, x: string, i: Inputs)
    requires id in s && s[id].id == id
    ensures var o, w := Pass(d, s, id, i), s[id];
            var gone := Gated(d, s, id, i) || PromotesItself(d, s, id, i);
            var due := d.secrets.Some? && w.status.secretRotation.Some? && w.status.secretRotation.value.pendingRestart
                       && w.status.phase == Running && !gone;
            && (Restart(x) in o.effects <==> x == id && due && i.restart != NoDriver)
            && (Redeploy(x) in o.effects <==> x == id && due && i.restart in [Redeployed, RedeployFailed])
            && (ProvisionStandby(x) in o.effects <==>
                && d.standby.Some? && WS.Wants(d.standby.value.enabled, w) && w.status.phase == Running && !gone
                && x == WS.ProvisionID(w))
            && (Deploy(x) in o.effects <==> RollsOut(d, s, id, i) && HandsOver(d, w, i, x))
            && o.s[id].status.restartGeneration ==
               Wrap32(w.status.restartGeneration + if due && i.restart != NoDriver then 1 else 0)
  {
    hide SharedStages, LocalStages, Gated, Promotes, Synced, WS.PromotionID, WS.ProvisionID, WS.CloneSpec, Handed,
         WS.PromotedSpec, HandsOver, RollsOut, Wrap32;
    PassEffects(d, s, id, x, i);
    RolloutByFields(d, s[id], i, x);
    if !Gated(d, s, id, i) {
      SyncFrame(d, s[id], i.now);
      SharedAt(d, s, id, i);
      var mid := SharedStages(d, s, id, i).s[id];
      SharedProvisions(d, s, id, x, i);
      LocalGeneration(d, mid, i);
      NoWrap(s[id].status.restartGeneration);
    }
  }

  lemma NoWrap(x: int32)
    ensures Wrap32(x) == x
  {
  }

  lemma SharedProvisions(d: Deps, s: Workloads, id: string, x: string, i: Inputs)
    requires id in s && s[id].id == id
    ensures ProvisionStandby(x) in SharedStages(d, s, id, i).effects <==>
            && Provisions(d, s[id]) && x == WS.ProvisionID(s[id])
            && !(Promotes(d, s, id, i.now) && WS.PromotionID(s[id]) == id)
  {
    hide Promotes, Provisions, Synced, WS.PromotionID, WS.ProvisionID, WS.AfterPromote, WS.AfterEnsure;
    SyncFrame(d, s[id], i.now);
    CircuitAt(d, s, id, i.now);
    var w := CircuitStage(d, s, id, i.now).s[id];
    if Promotes(d, s, id, i.now) && WS.PromotionID(s[id]) == id {
      PendingProvisionsNothing(d, w);
    } else {
      Alike(d, w, s[id]);
    }
  }

  lemma LocalGeneration(d: Deps, w: Workload, i: Inputs)
    ensures LocalStages(d, w, i).w.status.restartGeneration ==
            Wrap32(w.status.restartGeneration + if RestartDue(d, w) && i.restart != NoDriver then 1 else 0)
    ensures forall x :: ProvisionStandby(x) !in LocalStages(d, w, i).effects
  {
    hide RouteStage, RestartDue, Wrap32, Handed, Deployments;
    NoWrap(w.status.restartGeneration);
    var w' := SecretStage(d, w, i).w;
    RouteGeneration(d, w', i);
    RouteEffects(d, w', i);
    NoProvisions(Handed(d, w', i));
  }

  lemma NoProvisions(ids: seq<string>)
    ensures forall x :: ProvisionStandby(x) !in Deployments(ids)
  {
  }

  lemma RouteGeneration(d: Deps, w: Workload, i: Inputs)
    ensures RouteStage(d, w, i).w.status.restartGeneration == w.status.restartGeneration
  {
    hide Synced, CB.AllowRouteResult, Finishes, Handed;
    SyncFrame(d, w, i.now);
  }

  // ---------------------------------------------------------------- failover and provisioning in one pass

  /** What a pass that fails over to another workload leaves of the promotion: it survives exactly when the primary is
      not running, or provisions under another ID; otherwise the same pass scales the standby back to zero. */
  lemma PromotionSurvivesExactly(d: Deps, s: Workloads, id: string, i: Inputs)
    requires id in s && s[id].id == id && !Gated(d, s, id, i) && Promotes(d, s, id, i.now)
    requires WS.PromotionID(s[id]) != id
    ensures var w, sid, s' := s[id], WS.PromotionID(s[id]), Pass(d, s, id, i).s;
            var undone := w.status.phase.Running? && WS.ProvisionID(w) == sid;
            && sid in s' && s'[sid].spec == (if undone then WS.CloneSpec(w, 0) else WS.PromotedSpec(w))
            && (s'[sid].spec.replicas >= 1 <==> !undone)
  {
    hide Pass, Gated, WS.PromotionID, WS.ProvisionID, Synced, CB.EnabledFor;
    SyncFrame(d, s[id], i.now);
    PassAtOther(d, s, id, WS.PromotionID(s[id]), i);
  }

  // ---------------------------------------------------------------- quotas at the gate

  /** Every workload under its own, non-empty ID. */
  ghost predicate Filed(s: Workloads) {
    forall id :: id in s ==> s[id].id == id && id != ""
  }

  /** Workloads of one namespace that has a limit, spelled so that the usage report speaks about all that count. */
  ghost predicate Limited(t: Quota.Table, s: Workloads, w: Workload) {
    && Quota.ValidTable(t) && Filed(s) && |s.Values| <= MAX_INT32
    && Quota.HasNamespaceLimit(t, w) && Trim(w.namespace) == w.namespace
    && Quota.ReportSeesAll(t.namespace[TrimLower(w.namespace)], s.Values, w)
  }

  /** The usage report on the workload's namespace succeeds and shows every total within its cap. */
  ghost predicate NamespaceWithinCaps(t: Quota.Table, s: Workloads, w: Workload)
    requires Quota.HasNamespaceLimit(t, w)
  {
    Quota.ReportWithinCaps(t.namespace[TrimLower(w.namespace)], s.Values, w.namespace)
  }

  /** A stored workload of a limited namespace gets past the quota gate exactly when the report on its namespace is
      within the caps. */
  lemma ReconciledExactlyWithinCaps(d: Deps, s: Workloads, id: string, i: Inputs)
    requires d.quota.Some? && id in s && Limited(d.quota.value, s, s[id])
    ensures Gated(d, s, id, i)
            <==> !i.controllersPass || !i.policyPasses || !NamespaceWithinCaps(d.quota.value, s, s[id])
  {
    hide Quota.Admits, Quota.ReportWithinCaps, Quota.ReportSeesAll, Quota.ValidTable, TrimLower, Trim;
    assert s[id] in s.Values;
    Quota.GateAgreesWithReport(d.quota.value, s.Values, s[id]);
  }

  /** So a namespace over its caps stalls: no pass over any of its workloads changes or starts anything. */
  lemma OverCapStallsNamespace(d: Deps, s: Workloads, w: Workload, id: string, i: Inputs)
    requires d.quota.Some? && Limited(d.quota.value, s, w) && !NamespaceWithinCaps(d.quota.value, s, w)
    requires id in s && s[id].namespace == w.namespace
    ensures Pass(d, s, id, i) == Outcome(s, [])
  {
    hide Gated, Quota.ReportWithinCaps, Quota.ValidTable, TrimLower, Trim, SharedStages, LocalStages;
    ReconciledExactlyWithinCaps(d, s, id, i);
  }

  /** Stores accept creates without asking for the quota: one workload more than the cap allows and the whole namespace,
      the new workload and those that were there before, is reconciled no more. */
  lemma CreateAtCapStalls(d: Deps, s: Workloads, x: Workload, id: string, i: Inputs)
    requires d.quota.Some? && Filed(s) && x.id !in s && Limited(d.quota.value, s[x.id := x], x)
    requires var cap := d.quota.value.namespace[TrimLower(x.namespace)].maxWorkloads;
             0 < cap <= |Quota.InNamespace(s.Values, x.namespace)|
    requires id == x.id || (id in s && s[id].namespace == x.namespace)
    ensures Pass(d, s[x.id := x], id, i) == Outcome(s[x.id := x], [])
  {
    hide Limited, NamespaceWithinCaps, Pass, Quota.InNamespace, Filed, TrimLower;
    OneTooMany(d.quota.value, s, x);
    OverCapStallsNamespace(d, s[x.id := x], x, id, i);
  }

  lemma OneTooMany(t: Quota.Table, s: Workloads, x: Workload)
    requires Filed(s) && x.id !in s && Limited(t, s[x.id := x], x)
    requires 0 < t.namespace[TrimLower(x.namespace)].maxWorkloads <= |Quota.InNamespace(s.Values, x.namespace)|
    ensures !NamespaceWithinCaps(t, s[x.id := x], x)
  {
    hide Quota.Usage, Quota.ReportSeesAll, Quota.ValidTable, TrimLower, Trim, Filed;
    ValuesOfPut(s, x);
    var before, after := Quota.InNamespace(s.Values, x.namespace), Quota.InNamespace(s[x.id := x].Values, x.namespace);
    assert after == before + {x};
    Quota.UsageCount(after);
  }

  lemma ValuesOfPut(s: Workloads, x: Workload)
    requires Filed(s) && x.id !in s
    ensures x !in s.Values && s[x.id := x].Values == s.Values + {x}
  {
    var s' := s[x.id := x];
    forall v | v in s.Values + {x}
      ensures v in s'.Values
    {
      assert v in s.Values ==> exists k :: k in s && s[k] == v && s'[k] == v;
      assert s'[x.id] == x;
    }
  }

  ghost function IdsIn(s: Workloads, ns: string): set<string> {
    set id | id in s && (ns == "" || s[id].namespace == ns)
  }

  ghost function Under(s: Workloads, ids: set<string>): set<Workload>
    requires ids <= s.Keys
  {
    set id | id in ids :: s[id]
  }

  lemma {:induction false} AsManyUnder(s: Workloads, ids: set<string>)
    requires Filed(s) && ids <= s.Keys
    ensures |Under(s, ids)| == |ids|
    decreases |ids|
  {
    if ids != {} {
      var id := Pick(ids);
      var rest := ids - {id};
      AsManyUnder(s, rest);
      assert Under(s, ids) == Under(s, rest) + {s[id]};
      assert s[id] !in Under(s, rest);
    }
  }

  lemma MembersAreIds(s: Workloads, ns: string)
    requires Filed(s)
    ensures |Quota.InNamespace(s.Values, ns)| == |IdsIn(s, ns)|
  {
    var members, ids := Quota.InNamespace(s.Values, ns), IdsIn(s, ns);
    AsManyUnder(s, ids);
    assert members == Under(s, ids) by {
      forall w | w in members
        ensures w in Under(s, ids)
      {
        assert w.id in ids && s[w.id] == w;
      }
    }
  }

  /** A pass that provisions a first standby adds it to the namespace of its workload and moves nothing out of it. */
  lemma FirstStandbyJoins(d: Deps, s: Workloads, p: string, sid: string, i: Inputs)
    requires p in s && s[p].id == p && sid !in s && ProvisionsFor(d, s, p, sid, i)
    ensures IdsIn(s, s[p].namespace) + {sid} <= IdsIn(Pass(d, s, p, i).s, s[p].namespace)
  {
    hide Gated, Promotes, Synced, WS.ProvisionID, WS.PromotionID, Pass, Provisions;
    var s' := Pass(d, s, p, i).s;
    assert sid in s' && s'[sid].namespace == s[p].namespace && s'[p].namespace == s[p].namespace by {
      FirstStandbyAt(d, s, p, sid, i);
    }
    forall x | x in IdsIn(s, s[p].namespace)
      ensures x in IdsIn(s', s[p].namespace)
    {
      if x != p {
        PassAtOther(d, s, p, x, i);
      }
    }
  }

  lemma FirstStandbyAt(d: Deps, s: Workloads, p: string, sid: string, i: Inputs)
    requires p in s && s[p].id == p && sid !in s && ProvisionsFor(d, s, p, sid, i)
    ensures var s' := Pass(d, s, p, i).s;
            sid in s' && s'[sid].namespace == s[p].namespace && s'[p].namespace == s[p].namespace
  {
    hide Gated, Promotes, Synced, WS.ProvisionID, WS.PromotionID, Provisions, CircuitStage, StandbyStage, LocalStages;
    var o := CircuitStage(d, s, p, i.now);
    SyncFrame(d, s[p], i.now);
    CircuitAt(d, s, p, i.now);
    Alike(d, o.s[p], s[p]);
    CircuitKeys(d, s, p, i.now);
    StandbyCreates(d, o, p);
    StandbyAt(d, o, p);
    LocalFrame(d, SharedStages(d, s, p, i).s[p], i);
  }

  /** The workload of a pass keeps its ID, and what the pass creates has the ID it is stored under. */
  lemma PassFiles(d: Deps, s: Workloads, id: string, x: string, i: Inputs)
    requires id in s && s[id].id == id && x in Pass(d, s, id, i).s && (x == id || x !in s)
    ensures Pass(d, s, id, i).s[x].id == x
  {
    hide Gated, Promotes, Synced, WS.ProvisionID, WS.PromotionID, Provisions, CircuitStage, StandbyStage, LocalStages;
    if !Gated(d, s, id, i) {
      var o := CircuitStage(d, s, id, i.now);
      SyncFrame(d, s[id], i.now);
      CircuitAt(d, s, id, i.now);
      CircuitKeys(d, s, id, i.now);
      StandbyAt(d, o, id);
      LocalFrame(d, SharedStages(d, s, id, i).s[id], i);
      if x != id {
        StandbyKeys(d, o, id);
        StandbyCreates(d, o, id);
      }
    }
  }

  lemma StandbyKeys(d: Deps, o: Outcome, id: string)
    requires id in o.s
    ensures forall x :: x in StandbyStage(d, o, id).s && x !in o.s ==>
              Provisions(d, o.s[id]) && x == WS.ProvisionID(o.s[id])
  {
    hide WS.ProvisionID, WS.Provisioned;
  }

  lemma CircuitKeys(d: Deps, s: Workloads, id: string, now: int)
    requires id in s
    ensures CircuitStage(d, s, id, now).s.Keys == s.Keys
  {
    hide Synced, ShouldAutoPromote, WS.EnabledFor, WS.PromotedFrom, WS.WithPromotion;
    SyncFrame(d, s[id], now);
    SyncKeepsPromotionID(d, s[id], now);
  }

  lemma StandbyCreates(d: Deps, o: Outcome, id: string)
    requires id in o.s && Provisions(d, o.s[id]) && WS.ProvisionID(o.s[id]) !in o.s
    ensures var sid, s' := WS.ProvisionID(o.s[id]), StandbyStage(d, o, id).s;
            sid in s' && s'[sid].namespace == o.s[id].namespace && s'[sid].id == sid
  {
    hide WS.ProvisionID, WorkloadTags.Apply;
    WS.ApplyFrame(WS.NewStandby(o.s[id], WS.ProvisionID(o.s[id])));
  }

  /** Standbys count too: in a namespace at its workload cap the pass that provisions a first standby stalls the whole
      namespace, failover to that standby included. */
  lemma FirstStandbyStalls(d: Deps, s: Workloads, p: string, sid: string, i: Inputs, id: string, j: Inputs)
    requires d.quota.Some? && p in s && sid !in s && Filed(s) && ProvisionsFor(d, s, p, sid, i)
    requires Limited(d.quota.value, Pass(d, s, p, i).s, s[p])
    requires var cap := d.quota.value.namespace[TrimLower(s[p].namespace)].maxWorkloads;
             0 < cap <= |Quota.InNamespace(s.Values, s[p].namespace)|
    requires id in Pass(d, s, p, i).s && Pass(d, s, p, i).s[id].namespace == s[p].namespace
    ensures Pass(d, Pass(d, s, p, i).s, id, j) == Outcome(Pass(d, s, p, i).s, [])
  {
    hide Pass, ProvisionsFor, TrimLower, Trim, Quota.ReportSeesAll, Quota.ValidTable, Quota.Usage, Quota.InNamespace;
    var s', ns := Pass(d, s, p, i).s, s[p].namespace;
    FirstStandbyJoins(d, s, p, sid, i);
    MembersAreIds(s, ns);
    MembersAreIds(s', ns);
    SubsetSize(IdsIn(s, ns) + {sid}, IdsIn(s', ns));
    assert sid !in IdsIn(s, ns);
    Quota.UsageCount(Quota.InNamespace(s'.Values, ns));
    OverCapStallsNamespace(d, s', s[p], id, j);
  }

  // ---------------------------------------------------------------- secrets

  lemma LocalSecrets(d: Deps, w: Workload, i: Inputs)
    requires d.secrets.Some?
    ensures var l := LocalStages(d, w, i);
            var restarts := SR.Pending(w) && w.status.phase.Running? && i.restart.Completes();
            && l.w.status.secretRotation ==
               (if restarts then SR.Restarted(w).status.secretRotation else w.status.secretRotation)
  {
    hide Synced, CB.AllowRouteResult, SR.Pending;
    SyncFrame(d, SecretStage(d, w, i).w, i.now);
  }

  lemma StepSecrets(enabled: bool, s: SR.State, id: string, succeeds: bool)
    requires id in s.store
    ensures var w, s' := s.store[id], SR.Exec(enabled, s, SR.Reconcile(id, succeeds)).store;
            && id in s'
            && s'[id].status.secretRotation ==
               (if succeeds && SR.Restarts(s, id) then SR.Restarted(w).status.secretRotation
                else w.status.secretRotation)
            && (SR.Pending(w) ==> SR.Restarted(w).status.secretRotation != w.status.secretRotation)
  {
    hide SR.Indexed;
  }

  lemma RestartedRotation(a: Workload, b: Workload)
    requires a.status.secretRotation == b.status.secretRotation
    ensures SR.Restarted(a).status.secretRotation == SR.Restarted(b).status.secretRotation
  {
  }

  /** A pass that is not gated treats the rotation status exactly as the rotation engine's reconcile step does, unless a
      failover to itself takes the workload out of the running phase before its due restart. */
  lemma PassIsSecretStep(d: Deps, s: SR.State, id: string, i: Inputs)
    requires d.secrets.Some? && id in s.store && s.store[id].id == id && !Gated(d, s.store, id, i)
    ensures var o := Pass(d, s.store, id, i);
            var step := SR.Exec(d.secrets.value, s, SR.Reconcile(id, i.restart in [Restarted, Redeployed]));
            var due := i.restart in [Restarted, Redeployed] && SR.Restarts(s, id);
            var itself := PromotesItself(d, s.store, id, i);
            && (o.s[id].status.secretRotation == step.store[id].status.secretRotation <==> !(due && itself))
            && (Restart(id) in o.effects <==> !i.restart.NoDriver? && SR.Restarts(s, id) && !itself)
  {
    hide SharedStages, LocalStages, Gated, Promotes, Provisions, Synced, SR.Exec, SR.Restarted, WS.PromotionID,
         WS.ProvisionID;
    PassEffects(d, s.store, id, id, i);
    var w := s.store[id];
    StepSecrets(d.secrets.value, s, id, i.restart.Completes());
    SyncFrame(d, w, i.now);
    SharedAt(d, s.store, id, i);
    SharedEffects(d, s.store, id, i);
    var mid := SharedStages(d, s.store, id, i).s[id];
    LocalSecrets(d, mid, i);
    RestartedRotation(mid, w);
  }
}
