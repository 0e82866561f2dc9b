/** Cold standby workloads: provisioning and promotion. */
module WarmStandby {
  import opened Types
  import opened Strings
  import opened WorkloadTags
  import opened Sums

  const LABEL_STANDBY_FOR := "kranix.io/standby-for"
  const LABEL_ROLE := "kranix.io/role"
  const ROLE_STANDBY := "standby"

  type Workloads = map<string, Workload>

  predicate IsStandby(w: Workload) {
    w.labels.Some? && LABEL_ROLE in w.labels.value && w.labels.value[LABEL_ROLE] == ROLE_STANDBY
  }

  predicate EnabledFor(enabled: bool, w: Workload) {
    !IsStandby(w) && ((w.spec.warmStandby.Some? && w.spec.warmStandby.value.enabled) || enabled)
  }

  /** The ID under which provisioning looks for a standby. */
  function ProvisionID(primary: Workload): string {
    if primary.spec.warmStandby.Some? && Trim(primary.spec.warmStandby.value.standbyWorkloadID) != ""
    then Trim(primary.spec.warmStandby.value.standbyWorkloadID)
    else primary.id + "-standby"
  }

  /** The ID under which promotion looks for a standby: the recorded one, else the configured one untrimmed. */
  function PromotionID(primary: Workload): string {
    if primary.status.warmStandby.Some? && primary.status.warmStandby.value.standbyWorkloadID != ""
    then primary.status.warmStandby.value.standbyWorkloadID
    else if primary.spec.warmStandby.Some? && primary.spec.warmStandby.value.standbyWorkloadID != ""
    then primary.spec.warmStandby.value.standbyWorkloadID
    else primary.id + "-standby"
  }

  function StandbyReplicas(primary: Workload): int32 {
    if primary.spec.warmStandby.Some? && primary.spec.warmStandby.value.replicas > 0
    then primary.spec.warmStandby.value.replicas else 1
  }

  function CloneSpec(primary: Workload, replicas: int32): WorkloadSpec {
    primary.spec.(replicas := replicas, cronSchedule := None, warmStandby := None, circuitBreaker := None)
  }

  /** The primary's own labels override the standby marks. */
  function NewStandby(primary: Workload, id: string): Workload {
    var marks := map[LABEL_STANDBY_FOR := primary.id, LABEL_ROLE := ROLE_STANDBY];
    Workload(id, primary.name + "-standby", primary.namespace,
             Some(marks + if primary.labels.Some? then primary.labels.value else map[]),
             primary.tags, CloneSpec(primary, 0),
             WorkloadStatus(Pending, 0, None, None, None, None, 0), [], None)
  }

  function WithStandbyStatus(w: Workload, id: string, phase: WarmStandbyPhase, ready: int32, msg: string): Workload {
    w.(status := w.status.(warmStandby := Some(WarmStandbyStatus(id, phase, ready, msg))))
  }

  /** What provisioning writes under the standby ID. */
  function Provisioned(s: Workloads, primary: Workload, standbyID: string): Workload {
    Apply(if standbyID in s
          then s[standbyID].(spec := CloneSpec(primary, 0), namespace := primary.namespace,
                             name := primary.name + "-standby")
          else NewStandby(primary, standbyID))
  }

  /** The store after provisioning for the workload stored under `id`. The standby is written first and the primary's
      status afterwards, so a primary that is its own standby ends up as both writes leave it. */
  function AfterEnsure(enabled: bool, s: Workloads, id: string): Workloads
    requires id in s
  {
    if !EnabledFor(enabled, s[id]) then s else
      var standbyID := ProvisionID(s[id]);
      var written := s[standbyID := Provisioned(s, s[id], standbyID)];
      written[id := WithStandbyStatus(written[id], standbyID, Cold, 0, "cold standby ready")]
  }

  function Max(a: int32, b: int32): int32 {
    if a < b then b else a
  }

  predicate CanPromote(enabled: bool, s: Workloads, id: string)
    requires id in s
  {
    EnabledFor(enabled, s[id]) && PromotionID(s[id]) in s
  }

  function PromotedSpec(primary: Workload): WorkloadSpec {
    CloneSpec(primary, Max(primary.spec.replicas, StandbyReplicas(primary)))
  }

  /** What promotion makes of the workload under the standby ID. */
  function PromotedFrom(standby: Workload, primary: Workload): Workload {
    Apply(standby.(spec := PromotedSpec(primary), status := standby.status.(phase := Pending)))
  }

  function WithPromotion(w: Workload): Workload {
    var was := if w.status.warmStandby.Some? then w.status.warmStandby.value
               else WarmStandbyStatus("", NoStandby, 0, "");
    WithStandbyStatus(w, was.standbyWorkloadID, WarmStandbyPhase.Promoted, was.readyReplicas,
                      "failover promoted to standby")
  }

  /** The store after promoting the standby of the workload stored under `id`, if that is possible. */
  function AfterPromote(enabled: bool, s: Workloads, id: string): Workloads
    requires id in s
  {
    if !CanPromote(enabled, s, id) then s else
      var standbyID := PromotionID(s[id]);
      var written := s[standbyID := PromotedFrom(s[standbyID], s[id])];
      written[id := WithPromotion(written[id])]
  }

  /** The manager working on the cells of the store: the standby it finds may be the primary itself. */
  class Manager {
    const enabled: bool
    const store: CellStore

    constructor (enabled: bool, store: CellStore)
      ensures this.enabled == enabled && this.store == store
    {
      this.enabled, this.store := enabled, store;
    }

    method EnsureColdStandby(primary: WorkloadRef)
      requires store.Valid() && store.Holds(primary)
      modifies store, store.cells.Values
      ensures store.Valid() && store.Holds(primary) && primary.value.id == old(primary.value.id)
      ensures store.View() == AfterEnsure(enabled, old(store.View()), primary.value.id)
      ensures fresh(store.cells.Values - old(store.cells.Values))
    {
      hide Provisioned, Trim, EnabledFor;
      if !EnabledFor(enabled, primary.value) {
        return;
      }
      var standbyID := "";
      if primary.value.spec.warmStandby.Some? {
        standbyID := Trim(primary.value.spec.warmStandby.value.standbyWorkloadID);
      }
      if standbyID == "" {
        standbyID := primary.value.id + "-standby";
      }
      ProvisionStandby(primary, standbyID);
      store.Write(primary, WithStandbyStatus(primary.value, standbyID, Cold, 0, "cold standby ready"));
    }

    method ProvisionStandby(primary: WorkloadRef, standbyID: string)
      requires store.Valid() && store.Holds(primary)
      modifies store, store.cells.Values
      ensures store.Valid() && store.Holds(primary) && primary.value.id == old(primary.value.id)
      ensures store.View() ==
              old(store.View())[standbyID := Provisioned(old(store.View()), old(primary.value), standbyID)]
      ensures fresh(store.cells.Values - old(store.cells.Values))
    {
      hide Apply, NewStandby, CloneSpec;
      var found := store.Get(standbyID);
      if found == None {
        ApplyFrame(NewStandby(primary.value, standbyID));
        NewStandbyID(primary.value, standbyID);
        var standby := new WorkloadRef(NewStandby(primary.value, standbyID));
        standby.value := Apply(standby.value);
        store.Put(standby);
      } else {
        var standby := found.value;
        var next := standby.value.(spec := CloneSpec(primary.value, 0));
        next := next.(namespace := primary.value.namespace);
        next := next.(name := primary.value.name + "-standby");
        ApplyFrame(next);
        store.Write(standby, Apply(next));
      }
    }

    method Promote(primary: WorkloadRef) returns (promoted: Option<WorkloadRef>)
      requires store.Valid() && store.Holds(primary)
      modifies store.cells.Values
      ensures store.Valid() && store.Holds(primary) && primary.value.id == old(primary.value.id)
      ensures store.View() == AfterPromote(enabled, old(store.View()), primary.value.id)
      ensures promoted.Some? <==> CanPromote(enabled, old(store.View()), primary.value.id)
      ensures promoted.Some? ==>
                store.Holds(promoted.value) && promoted.value.value.id == old(PromotionID(primary.value))
    {
      hide EnabledFor, PromotedFrom, PromotionID;
      if !EnabledFor(enabled, primary.value) {
        return None;
      }
      var standbyID := PromotionID(primary.value);
      promoted := store.Get(standbyID);
      if promoted == None {
        return None;
      }
      ScaleUp(primary, promoted.value);
      store.Write(primary, WithPromotion(primary.value));
    }

    method ScaleUp(primary: WorkloadRef, standby: WorkloadRef)
      requires store.Valid() && store.Holds(primary) && store.Holds(standby)
      modifies standby
      ensures store.Valid() && store.Holds(primary) && store.Holds(standby)
      ensures primary.value.id == old(primary.value.id) && standby.value.id == old(standby.value.id)
      ensures store.View() ==
              old(store.View())[standby.value.id := PromotedFrom(old(standby.value), old(primary.value))]
    {
      hide Apply, CloneSpec, StandbyReplicas;
      var replicas := primary.value.spec.replicas;
      var r := StandbyReplicas(primary.value);
      if r > 0 {
        if replicas < r {
          replicas := r;
        }
      }
      StandbyReplicasPositive(primary.value);
      var next := standby.value.(spec := CloneSpec(primary.value, replicas));
      next := next.(status := next.status.(phase := Pending));
      ApplyFrame(next);
      store.Write(standby, Apply(next));
    }
  }

  lemma StandbyReplicasPositive(w: Workload)
    ensures StandbyReplicas(w) > 0
  {
  }

  /** Mirroring tags touches nothing but tags and labels. */
  lemma ApplyFrame(w: Workload)
    ensures Apply(w) == w.(tags := Apply(w).tags, labels := Apply(w).labels)
  {
  }

  lemma NewStandbyID(primary: Workload, id: string)
    ensures NewStandby(primary, id).id == id && NewStandby(primary, id).spec == CloneSpec(primary, 0)
    ensures NewStandby(primary, id).namespace == primary.namespace
    ensures NewStandby(primary, id).name == primary.name + "-standby"
  {
  }

  // ---------------------------------------------------------------- a workload that is its own standby

  /** A spec that promotion would not change. */
  predicate StandbyShaped(spec: WorkloadSpec) {
    spec.replicas >= 1 && spec.cronSchedule.None? && spec.warmStandby.None? && spec.circuitBreaker.None?
  }

  /** Provisioning leaves the primary's spec alone exactly when the primary is not its own standby. */
  lemma EnsureKeepsSpecExactly(enabled: bool, s: Workloads, id: string)
    requires id in s && s[id].id == id
    ensures AfterEnsure(enabled, s, id)[id].spec == s[id].spec
            <==> !(EnabledFor(enabled, s[id]) && ProvisionID(s[id]) == id)
  {
    hide Apply, Trim, EnabledFor;
    assert |id + "-standby"| > |id|;
    ApplyFrame(s[id].(spec := CloneSpec(s[id], 0), namespace := s[id].namespace, name := s[id].name + "-standby"));
  }

  /** Promotion leaves the primary's spec alone exactly when it does not promote the primary itself, or there is nothing
      in the spec that a standby may not have. */
  lemma PromoteKeepsSpecExactly(enabled: bool, s: Workloads, id: string)
    requires id in s && s[id].id == id
    ensures AfterPromote(enabled, s, id)[id].spec == s[id].spec
            <==> !(EnabledFor(enabled, s[id]) && PromotionID(s[id]) == id) || StandbyShaped(s[id].spec)
  {
    hide Apply, EnabledFor, PromotionID;
    ApplyFrame(s[id].(spec := PromotedSpec(s[id]), status := s[id].status.(phase := Pending)));
  }

  /** Any other workload keeps its spec exactly when it is not stored under the standby ID, or has that spec already. */
  lemma EnsureOverwritesExactly(enabled: bool, s: Workloads, id: string, x: string)
    requires id in s && x in s && x != id
    ensures AfterEnsure(enabled, s, id)[x].spec == s[x].spec
            <==> !(EnabledFor(enabled, s[id]) && ProvisionID(s[id]) == x) || s[x].spec == CloneSpec(s[id], 0)
  {
    hide Apply, ProvisionID, EnabledFor, CloneSpec;
    ApplyFrame(s[x].(spec := CloneSpec(s[id], 0), namespace := s[id].namespace, name := s[id].name + "-standby"));
  }

  lemma PromoteOverwritesExactly(enabled: bool, s: Workloads, id: string, x: string)
    requires id in s && x in s && x != id
    ensures AfterPromote(enabled, s, id)[x].spec == s[x].spec
            <==> !(EnabledFor(enabled, s[id]) && PromotionID(s[id]) == x) || s[x].spec == PromotedSpec(s[id])
  {
    hide Apply, PromotionID, EnabledFor, PromotedSpec;
    ApplyFrame(s[x].(spec := PromotedSpec(s[id]), status := s[x].status.(phase := Pending)));
  }

  // ---------------------------------------------------------------- which standbys are recognised

  /** The role that the custom tags force on the label. */
  function RoleTag(w: Workload): Option<string> {
    if w.tags.Some? then CustomValue(w.tags.value.custom, LABEL_ROLE) else None
  }

  /** A workload whose standby will carry the role mark: its custom tags say standby, or neither its tags nor its labels
      name a role. */
  predicate Recognisable(w: Workload) {
    match RoleTag(w)
    case Some(role) => role == ROLE_STANDBY
    case None => w.labels.Some? ==> LABEL_ROLE !in w.labels.value
  }

  lemma RoleKeyIsOwn(t: Tags)
    ensures LABEL_ROLE != "" && LABEL_ROLE != LABEL_STANDBY_FOR && Trim(TagFor(t, LABEL_ROLE)) == ""
  {
    hide Trim;
    EmptyTrims();
    assert LABEL_ROLE[10] == 'r' && LABEL_STANDBY_FOR[10] == 's' && LABEL_TEAM[10] == 't';
    assert LABEL_ENVIRONMENT[10] == 'e' && LABEL_COST_CENTER[10] == 'c';
  }

  /** Mirroring tags leaves the role that the custom tags name, or else the role that was there. */
  lemma RoleAfterApply(w: Workload)
    ensures RoleTag(Apply(w)) == RoleTag(w)
    ensures IsStandby(Apply(w)) <==> if RoleTag(w).Some? then RoleTag(w).value == ROLE_STANDBY else IsStandby(w)
  {
    hide Trim, LabelsFrom;
    if w.tags.Some? {
      RoleKeyIsOwn(w.tags.value);
      LabelsFromAt(if w.labels.Some? then w.labels.value else map[], w.tags.value, LABEL_ROLE);
    }
  }

  /** The standby of a workload is recognised as one exactly when the workload is recognisable. */
  lemma RecognisedExactly(primary: Workload, id: string)
    requires !IsStandby(primary)
    ensures IsStandby(Apply(NewStandby(primary, id))) <==> Recognisable(primary)
    ensures RoleTag(Apply(NewStandby(primary, id))) == RoleTag(primary)
  {
    hide Trim, Apply, CustomValue;
    RoleKeyIsOwn(Tags("", "", "", []));
    RoleAfterApply(NewStandby(primary, id));
  }

  // ---------------------------------------------------------------- no standby of a standby

  ghost function StandbyIDs(primaries: Workloads): set<string> {
    set p | p in primaries :: ProvisionID(primaries[p])
  }

  /** Primaries under their own IDs. Those that get standbys find them under IDs that no primary has and, when
      everything gets a standby by default, are recognisable. */
  ghost predicate ValidPrimaries(enabled: bool, primaries: Workloads) {
    forall p :: p in primaries ==>
      && primaries[p].id == p
      && (EnabledFor(enabled, primaries[p]) ==>
            && (enabled ==> Recognisable(primaries[p]))
            && ProvisionID(primaries[p]) !in primaries && PromotionID(primaries[p]) !in primaries)
  }

  /** The same workload up to its status. */
  predicate SameButStatus(a: Workload, b: Workload) {
    a == b.(status := a.status)
  }

  /** A workload that gets no standby, now or after its tags have been mirrored. */
  predicate Inert(enabled: bool, w: Workload) {
    && w.spec.warmStandby.None?
    && (enabled ==> IsStandby(w) && (RoleTag(w).Some? ==> RoleTag(w).value == ROLE_STANDBY))
  }

  /** Every stored workload is one of the primaries, unchanged but for its status, or an inert standby. */
  ghost predicate Standbys(enabled: bool, primaries: Workloads, s: Workloads) {
    && primaries.Keys <= s.Keys <= primaries.Keys + StandbyIDs(primaries)
    && (forall p :: p in primaries ==>
          && SameButStatus(s[p], primaries[p])
          && (EnabledFor(enabled, primaries[p]) ==> PromotionID(s[p]) !in primaries))
    && (forall x :: x in s && x !in primaries ==> Inert(enabled, s[x]))
  }

  /** Mirroring tags keeps a standby inert, and inert workloads get no standby. */
  lemma ApplyKeepsInert(enabled: bool, w: Workload)
    requires Inert(enabled, w)
    ensures Inert(enabled, Apply(w)) && !EnabledFor(enabled, w)
  {
    hide Apply, CustomValue;
    RoleAfterApply(w);
    ApplyFrame(w);
  }

  lemma WriteKeepsStandbys(enabled: bool, primaries: Workloads, s: Workloads, id: string, primary: Workload,
                           standbyID: string, standby: Workload)
    requires Standbys(enabled, primaries, s) && id in primaries
    requires SameButStatus(primary, primaries[id]) && PromotionID(primary) !in primaries
    requires standbyID !in primaries && (standbyID in s || standbyID in StandbyIDs(primaries))
    requires Inert(enabled, standby)
    ensures Standbys(enabled, primaries, s[standbyID := standby][id := primary])
  {
    hide SameButStatus, PromotionID, StandbyIDs, Inert, EnabledFor;
  }

  /** Only primaries are ever acted upon. */
  lemma ActsOnPrimary(enabled: bool, primaries: Workloads, s: Workloads, id: string)
    requires ValidPrimaries(enabled, primaries) && Standbys(enabled, primaries, s) && id in s
    requires EnabledFor(enabled, s[id])
    ensures id in primaries && SameButStatus(s[id], primaries[id]) && (enabled ==> Recognisable(s[id]))
    ensures ProvisionID(s[id]) == ProvisionID(primaries[id])
    ensures ProvisionID(s[id]) !in primaries && ProvisionID(s[id]) in StandbyIDs(primaries)
    ensures PromotionID(s[id]) !in primaries
  {
    hide Trim, CustomValue;
    assert id in primaries;
    assert SameButStatus(s[id], primaries[id]);
  }

  lemma ProvisionedIsInert(enabled: bool, s: Workloads, primary: Workload, standbyID: string)
    requires EnabledFor(enabled, primary) && (enabled ==> Recognisable(primary))
    requires standbyID in s ==> Inert(enabled, s[standbyID])
    ensures Inert(enabled, Provisioned(s, primary, standbyID))
    ensures Provisioned(s, primary, standbyID).spec == CloneSpec(primary, 0)
    ensures Provisioned(s, primary, standbyID).namespace == primary.namespace
    ensures Provisioned(s, primary, standbyID).name == primary.name + "-standby"
  {
    hide Apply, CustomValue, NewStandby;
    if standbyID in s {
      var next := s[standbyID].(spec := CloneSpec(primary, 0), namespace := primary.namespace,
                                name := primary.name + "-standby");
      ApplyKeepsInert(enabled, next);
      ApplyFrame(next);
    } else {
      RecognisedExactly(primary, standbyID);
      ApplyFrame(NewStandby(primary, standbyID));
      NewStandbyID(primary, standbyID);
    }
  }

  lemma PromotedIsInert(enabled: bool, standby: Workload, primary: Workload)
    requires Inert(enabled, standby)
    ensures Inert(enabled, PromotedFrom(standby, primary))
    ensures PromotedFrom(standby, primary).spec == PromotedSpec(primary)
    ensures PromotedFrom(standby, primary).status == standby.status.(phase := Pending)
  {
    hide Apply, CustomValue;
    var next := standby.(spec := PromotedSpec(primary), status := standby.status.(phase := Pending));
    ApplyKeepsInert(enabled, next);
    ApplyFrame(next);
  }

  lemma EnsureKeepsStandbys(enabled: bool, primaries: Workloads, s: Workloads, id: string)
    requires ValidPrimaries(enabled, primaries) && Standbys(enabled, primaries, s) && id in s
    ensures Standbys(enabled, primaries, AfterEnsure(enabled, s, id))
  {
    hide Provisioned, ValidPrimaries, Inert, ProvisionID, StandbyIDs, Recognisable, EnabledFor;
    if EnabledFor(enabled, s[id]) {
      ActsOnPrimary(enabled, primaries, s, id);
      var standbyID := ProvisionID(s[id]);
      ProvisionedIsInert(enabled, s, s[id], standbyID);
      var primary := WithStandbyStatus(s[id], standbyID, Cold, 0, "cold standby ready");
      assert PromotionID(primary) == standbyID by {
        ProvisionIDNonEmpty(s[id]);
      }
      WriteKeepsStandbys(enabled, primaries, s, id, primary, standbyID, Provisioned(s, s[id], standbyID));
    }
  }

  lemma ProvisionIDNonEmpty(w: Workload)
    ensures ProvisionID(w) != ""
  {
    assert |w.id + "-standby"| > 0;
  }

  lemma PromoteKeepsStandbys(enabled: bool, primaries: Workloads, s: Workloads, id: string)
    requires ValidPrimaries(enabled, primaries) && Standbys(enabled, primaries, s) && id in s
    ensures Standbys(enabled, primaries, AfterPromote(enabled, s, id))
  {
    hide PromotedFrom, ValidPrimaries, Inert, ProvisionID, StandbyIDs, Recognisable, EnabledFor;
    if CanPromote(enabled, s, id) {
      ActsOnPrimary(enabled, primaries, s, id);
      var standbyID := PromotionID(s[id]);
      PromotedIsInert(enabled, s[standbyID], s[id]);
      assert PromotionID(WithPromotion(s[id])) == standbyID;
      WriteKeepsStandbys(enabled, primaries, s, id, WithPromotion(s[id]), standbyID, PromotedFrom(s[standbyID], s[id]));
    }
  }

  datatype Step = Ensure(id: string) | Promote(id: string)

  /** Steps on IDs that are not stored do nothing; the reconciler only passes stored workloads. */
  function Exec(enabled: bool, s: Workloads, step: Step): Workloads {
    if step.id !in s then s
    else if step.Ensure? then AfterEnsure(enabled, s, step.id)
    else AfterPromote(enabled, s, step.id)
  }

  function Run(enabled: bool, s: Workloads, steps: seq<Step>): Workloads {
    if steps == [] then s else Exec(enabled, Run(enabled, s, steps[..|steps| - 1]), steps[|steps| - 1])
  }

  lemma {:induction false} ImageIsNoLarger(primaries: Workloads, ids: set<string>)
    requires ids <= primaries.Keys
    ensures |set p | p in ids :: ProvisionID(primaries[p])| <= |ids|
    decreases |ids|
  {
    hide ProvisionID;
    if ids != {} {
      var x := Pick(ids);
      ImageIsNoLarger(primaries, ids - {x});
      var image := set p | p in ids :: ProvisionID(primaries[p]);
      var rest := set p | p in ids - {x} :: ProvisionID(primaries[p]);
      assert image <= rest + {ProvisionID(primaries[x])};
      SubsetSize(image, rest + {ProvisionID(primaries[x])});
    }
  }

  /** Over any number of provisioning and promotion steps, for primaries and standbys alike, no created workload is
      given a standby of its own, primaries keep their specs, and the workloads never exceed twice the primaries. */
  lemma {:induction false} NoStandbyOfStandby(enabled: bool, primaries: Workloads, steps: seq<Step>)
    requires ValidPrimaries(enabled, primaries)
    ensures var s := Run(enabled, primaries, steps);
            && Standbys(enabled, primaries, s) && |s| <= 2 * |primaries|
            && forall x :: x in s && x !in primaries ==> !EnabledFor(enabled, s[x])
  {
    hide Exec, Inert, EnabledFor, ProvisionID, PromotionID;
    if steps == [] {
      StandbysOfPrimaries(enabled, primaries);
    } else {
      var n := |steps| - 1;
      NoStandbyOfStandby(enabled, primaries, steps[..n]);
      ExecKeepsStandbys(enabled, primaries, Run(enabled, primaries, steps[..n]), steps[n]);
    }
    var s := Run(enabled, primaries, steps);
    SizeBound(enabled, primaries, s);
    forall x | x in s && x !in primaries
      ensures !EnabledFor(enabled, s[x])
    {
      ApplyKeepsInert(enabled, s[x]);
    }
  }

  lemma StandbysOfPrimaries(enabled: bool, primaries: Workloads)
    requires ValidPrimaries(enabled, primaries)
    ensures Standbys(enabled, primaries, primaries)
  {
  }

  lemma ExecKeepsStandbys(enabled: bool, primaries: Workloads, s: Workloads, step: Step)
    requires ValidPrimaries(enabled, primaries) && Standbys(enabled, primaries, s)
    ensures Standbys(enabled, primaries, Exec(enabled, s, step))
  {
    hide ValidPrimaries, Standbys, AfterEnsure, AfterPromote;
    if step.id in s {
      EnsureKeepsStandbys(enabled, primaries, s, step.id);
      PromoteKeepsStandbys(enabled, primaries, s, step.id);
    }
  }

  lemma SizeBound(enabled: bool, primaries: Workloads, s: Workloads)
    requires Standbys(enabled, primaries, s)
    ensures |s| <= 2 * |primaries|
  {
    hide ProvisionID, SameButStatus, PromotionID, Inert, EnabledFor;
    ImageIsNoLarger(primaries, primaries.Keys);
    assert StandbyIDs(primaries) == set p | p in primaries.Keys :: ProvisionID(primaries[p]);
    SubsetSize(s.Keys, primaries.Keys + StandbyIDs(primaries));
  }

  /** The same spec but for the replicas and for the features a standby must not have: no schedule, no standby of its
      own and no breaker of its own. */
  predicate IsStrippedOf(a: WorkloadSpec, b: WorkloadSpec) {
    && a.cronSchedule.None? && a.warmStandby.None? && a.circuitBreaker.None?
    && a == b.(replicas := a.replicas, cronSchedule := None, warmStandby := None, circuitBreaker := None)
  }

  predicate IsLarger(r: int32, a: int32, b: int32) {
    a <= r && b <= r && (r == a || r == b)
  }

  /** The replicas that a standby is to have when promoted, one unless the workload says more. */
  function ReplicasAskedFor(w: Workload): int32 {
    match w.spec.warmStandby
    case None => 1
    case Some(ws) => if ws.replicas >= 1 then ws.replicas else 1
  }

  /** The status says that the workload has been failed over, and still which standby it has. */
  predicate RecordsFailover(after: Workload, before: Workload) {
    && after.status.warmStandby.Some? && after.status.warmStandby.value.phase == WarmStandbyPhase.Promoted
    && after.status.warmStandby.value.standbyWorkloadID
       == (if before.status.warmStandby.Some? then before.status.warmStandby.value.standbyWorkloadID else "")
    && after.status.warmStandby.value.readyReplicas
       == (if before.status.warmStandby.Some? then before.status.warmStandby.value.readyReplicas else 0)
  }

  /** Who has a standby: a workload that is not marked as one, if switched on for it or for all. */
  predicate Wants(enabled: bool, w: Workload) {
    && !(w.labels.Some? && "kranix.io/role" in w.labels.value && w.labels.value["kranix.io/role"] == "standby")
    && (enabled || (w.spec.warmStandby.Some? && w.spec.warmStandby.value.enabled))
  }

  /** Provisioning and promotion act for exactly those, the one always, the other if it finds the standby. */
  lemma ActsExactlyForWanting(enabled: bool, s: Workloads, id: string)
    requires id in s
    ensures if Wants(enabled, s[id]) then
              AfterEnsure(enabled, s, id)[id].status.warmStandby
              == Some(WarmStandbyStatus(ProvisionID(s[id]), Cold, 0, "cold standby ready"))
            else AfterEnsure(enabled, s, id) == s
    ensures CanPromote(enabled, s, id) <==> Wants(enabled, s[id]) && PromotionID(s[id]) in s
    ensures !CanPromote(enabled, s, id) ==> AfterPromote(enabled, s, id) == s
  {
    hide Provisioned, ProvisionID, PromotionID;
  }

  /** Which standby a workload has: the configured one, blank or not, or one named after the workload. Promotion goes by
      the recorded one first, and takes the configured one as it is written. */
  lemma WhichStandby(w: Workload)
    ensures var configured := if w.spec.warmStandby.Some? then w.spec.warmStandby.value.standbyWorkloadID else "";
            var recorded := if w.status.warmStandby.Some? then w.status.warmStandby.value.standbyWorkloadID else "";
            && (Trim(configured) == "" ==> ProvisionID(w) == w.id + "-standby")
            && (Trim(configured) != "" ==> ProvisionID(w) == Trim(configured))
            && (recorded != "" ==> PromotionID(w) == recorded)
            && (recorded == "" && configured != "" ==> PromotionID(w) == configured)
            && (recorded == "" && configured == "" ==> PromotionID(w) == w.id + "-standby")
  {
    hide Trim;
    EmptyTrims();
  }

  /** What a new standby looks like: pending and without history, labelled like its primary, and where the primary has
      no such label, as a standby for it. */
  lemma NewStandbyLooks(primary: Workload, id: string, key: string)
    requires key != "" && (primary.tags.Some? ==> CustomValue(primary.tags.value.custom, key).None?
                                                   && Trim(TagFor(primary.tags.value, key)) == "")
    ensures var w := Apply(NewStandby(primary, id));
            && w.id == id && w.status == WorkloadStatus(Pending, 0, None, None, None, None, 0) && w.revisions == []
            && w.tenant.None?
            && w.labels.Some?
            && Lookup(w.labels.value, key) ==
               if primary.labels.Some? && key in primary.labels.value then Some(primary.labels.value[key])
               else if key == "kranix.io/standby-for" then Some(primary.id)
               else if key == "kranix.io/role" then Some("standby")
               else None
  {
    hide Trim, CustomValue, LabelsFrom;
    RoleKeyIsOwn(Tags("", "", "", []));
    if primary.tags.Some? {
      LabelsFromAt(NewStandby(primary, id).labels.value, primary.tags.value, key);
    }
  }

  /** A promotion leaves the standby with the larger of the primary's and the configured replicas, at least one, and
      with the primary's spec but for the features a standby must not have. */
  lemma PromotedReplicas(enabled: bool, primaries: Workloads, steps: seq<Step>, id: string)
    requires ValidPrimaries(enabled, primaries)
    requires id in Run(enabled, primaries, steps) && CanPromote(enabled, Run(enabled, primaries, steps), id)
    ensures var s := Run(enabled, primaries, steps);
            var standby := AfterPromote(enabled, s, id)[PromotionID(s[id])];
            && id in primaries
            && IsStrippedOf(standby.spec, primaries[id].spec)
            && IsLarger(standby.spec.replicas, primaries[id].spec.replicas, ReplicasAskedFor(primaries[id]))
            && standby.spec.replicas >= 1 && standby.status.phase == Pending && Inert(enabled, standby)
            && RecordsFailover(AfterPromote(enabled, s, id)[id], s[id])
  {
    hide PromotedFrom, Run, Inert, ValidPrimaries, ProvisionID, StandbyIDs, Recognisable, EnabledFor;
    var s := Run(enabled, primaries, steps);
    NoStandbyOfStandby(enabled, primaries, steps);
    ActsOnPrimary(enabled, primaries, s, id);
    PromotedIsInert(enabled, s[PromotionID(s[id])], s[id]);
  }

  /** Provisioning leaves the standby cold, with the primary's spec but for the features a standby must not have. */
  lemma ProvisionedIsCold(enabled: bool, primaries: Workloads, steps: seq<Step>, id: string)
    requires ValidPrimaries(enabled, primaries)
    requires id in Run(enabled, primaries, steps) && EnabledFor(enabled, Run(enabled, primaries, steps)[id])
    ensures var s := AfterEnsure(enabled, Run(enabled, primaries, steps), id);
            && id in primaries && ProvisionID(primaries[id]) in s
            && IsStrippedOf(s[ProvisionID(primaries[id])].spec, primaries[id].spec)
            && s[ProvisionID(primaries[id])].spec.replicas == 0
            && s[ProvisionID(primaries[id])].namespace == primaries[id].namespace
            && s[ProvisionID(primaries[id])].name == primaries[id].name + "-standby"
            && Inert(enabled, s[ProvisionID(primaries[id])])
            && PromotionID(s[id]) == ProvisionID(primaries[id])
  {
    hide Provisioned, Run, Inert, ValidPrimaries, ProvisionID, StandbyIDs, Recognisable, EnabledFor;
    var s := Run(enabled, primaries, steps);
    NoStandbyOfStandby(enabled, primaries, steps);
    ActsOnPrimary(enabled, primaries, s, id);
    ProvisionIDNonEmpty(s[id]);
    ProvisionedIsInert(enabled, s, s[id], ProvisionID(s[id]));
  }

  // ---------------------------------------------------------------- exactly when a standby gets a standby

  lemma RunTwo(enabled: bool, s: Workloads, a: Step, b: Step)
    ensures Run(enabled, s, [a, b]) == Exec(enabled, Exec(enabled, s, a), b)
  {
    hide Exec;
    assert [a, b][..1] == [a] && [a][..0] == [];
    assert Run(enabled, s, [a]) == Exec(enabled, s, a);
  }

  /** The first standby of a workload that is not its own standby gets a standby itself exactly when standbys are
      provisioned by default and the workload is not recognisable. */
  lemma StandbyOfStandbyExactly(enabled: bool, primary: Workload)
    requires EnabledFor(enabled, primary) && ProvisionID(primary) != primary.id
    ensures var id, sid := primary.id, ProvisionID(primary);
            && (EnabledFor(enabled, AfterEnsure(enabled, map[id := primary], id)[sid])
                <==> enabled && !Recognisable(primary))
            && Run(enabled, map[id := primary], [Ensure(id), Ensure(sid)]).Keys
               == {id, sid} + if enabled && !Recognisable(primary) then {sid + "-standby"} else {}
  {
    hide Run, Apply, CustomValue, Recognisable, Provisioned, RoleTag;
    var id, sid := primary.id, ProvisionID(primary);
    var s := map[id := primary];
    RunTwo(enabled, s, Ensure(id), Ensure(sid));
    FirstStandby(enabled, primary, sid);
    var s1 := AfterEnsure(enabled, s, id);
    assert s1.Keys == {id, sid} && s1[sid] == Provisioned(s, primary, sid);
  }

  lemma FirstStandby(enabled: bool, primary: Workload, sid: string)
    requires EnabledFor(enabled, primary) && sid != primary.id
    ensures var standby := Provisioned(map[primary.id := primary], primary, sid);
            && (EnabledFor(enabled, standby) <==> enabled && !Recognisable(primary))
            && ProvisionID(standby) == sid + "-standby"
  {
    hide Apply, CustomValue, Recognisable;
    RecognisedExactly(primary, sid);
    ApplyFrame(NewStandby(primary, sid));
  }

  /** Witnesses: another role as a label, or as a custom tag, passes to the standby. */
  lemma InheritedRoleEscapes(primary: Workload, role: string)
    requires Trim(role) != ROLE_STANDBY
    requires || (primary.tags.None? && primary.labels == Some(map[LABEL_ROLE := role]))
             || (primary.tags == Some(Tags("", "", "", [(LABEL_ROLE, role)])) && primary.labels.None?)
    ensures !Recognisable(primary)
  {
    hide Trim;
    RoleKeyTrims();
    var custom := [(LABEL_ROLE, role)];
    assert custom[|custom| - 1] == (LABEL_ROLE, role);
    assert CustomValue(custom, LABEL_ROLE) == Some(Trim(role));
  }

  lemma RoleKeyTrims()
    ensures Trim(LABEL_ROLE) == LABEL_ROLE
  {
    TrimEnds(LABEL_ROLE);
  }
}
