/** Bounded revision history, the versioned store and revert. */
module RolloutHistory {
  import opened Types
  import opened Strings
  import opened WorkloadTags

  const DEFAULT_MAX_VERSIONS := 10

  // ---------------------------------------------------------------- recording

  predicate SpecsEqual(a: WorkloadSpec, b: WorkloadSpec) {
    a.image == b.image && a.replicas == b.replicas && a.backend == b.backend
  }

  /** Compares tags that have already been synchronised from labels. */
  predicate TagsEqual(a: Option<Tags>, b: Option<Tags>) {
    match (a, b)
    case (None, None) => true
    case (Some(x), Some(y)) => x.team == y.team && x.environment == y.environment && x.costCenter == y.costCenter
    case _ => false
  }

  /** Whether replacing `previous` by `next` is worth a revision: image, replicas, backend or the three tags differ. */
  predicate Changes(previous: Workload, next: Workload) {
    !SpecsEqual(previous.spec, next.spec) || !TagsEqual(SyncFromLabels(previous).tags, SyncFromLabels(next).tags)
  }

  function CopyLabels(labels: Option<Labels>): Option<Labels> {
    if labels.Some? && labels.value == map[] then None else labels
  }

  function SnapshotOf(w: Workload, reason: string, id: string): Revision {
    Revision(id, w.spec, SyncFromLabels(w).tags, CopyLabels(w.labels), reason)
  }

  function Prepend(existing: seq<Revision>, rev: Revision, maxN: int): seq<Revision>
    requires maxN > 0
  {
    var out := [rev] + existing;
    if |out| > maxN then out[..maxN] else out
  }

  function RefreshStatus(w: Workload, maxN: int, activeID: string): Workload {
    w.(status := w.status.(rollback := Some(RollbackStatus(maxN, |w.revisions|, activeID))))
  }

  function WithRevision(w: Workload, rev: Revision, maxN: int): Workload
    requires maxN > 0
  {
    RefreshStatus(w.(revisions := Prepend(w.revisions, rev, maxN)), maxN, rev.id)
  }

  /** `next` after its predecessor has been recorded, the two being different cells. Comparing tags fills them in. */
  function Recorded(next: Workload, previous: Workload, maxN: int, id: string): Workload {
    if maxN <= 0 then next else
      var n := if SpecsEqual(previous.spec, next.spec) then SyncFromLabels(next) else next;
      if Changes(previous, next) then WithRevision(n, SnapshotOf(previous, "update", id), maxN) else n
  }

  function RecordedInitially(w: Workload, maxN: int, id: string): Workload {
    if maxN <= 0 || |w.revisions| > 0 then w else
      var s := SyncFromLabels(w);
      RefreshStatus(s.(revisions := [SnapshotOf(w, "create", id)]), maxN, id)
  }

  /** In place; with `next` and `previous` one cell nothing differs and nothing is recorded. */
  method RecordBeforeUpdate(next: WorkloadRef, previous: WorkloadRef, maxN: int, freshID: string)
    modifies next, previous
    ensures next != previous ==> next.value == Recorded(old(next.value), old(previous.value), maxN, freshID)
    ensures next == previous ==> next.value == if maxN <= 0 then old(next.value) else SyncFromLabels(old(next.value))
  {
    hide SyncFromLabels;
    SyncFacts(next.value);
    SyncFacts(previous.value);
    if maxN <= 0 {
      return;
    }
    if SpecsEqual(previous.value.spec, next.value.spec) {
      previous.value := SyncFromLabels(previous.value);
      next.value := SyncFromLabels(next.value);
      if TagsEqual(previous.value.tags, next.value.tags) {
        return;
      }
    }
    previous.value := SyncFromLabels(previous.value);
    var rev := Revision(freshID, previous.value.spec, previous.value.tags, CopyLabels(previous.value.labels), "update");
    next.value := next.value.(revisions := Prepend(next.value.revisions, rev, maxN));
    next.value := RefreshStatus(next.value, maxN, rev.id);
  }

  /** Synchronising touches only the tags, and once is enough. */
  lemma SyncFacts(w: Workload)
    ensures SyncFromLabels(w) == w.(tags := SyncFromLabels(w).tags)
    ensures SyncFromLabels(SyncFromLabels(w)) == SyncFromLabels(w)
  {
  }

  /** The workloads are read to have the same three tags, or are both without tags and labels. */
  predicate TaggedAlike(a: Workload, b: Workload) {
    && (Untagged(a) <==> Untagged(b))
    && ReadTag(a, "kranix.io/team") == ReadTag(b, "kranix.io/team")
    && ReadTag(a, "kranix.io/environment") == ReadTag(b, "kranix.io/environment")
    && ReadTag(a, "kranix.io/cost-center") == ReadTag(b, "kranix.io/cost-center")
  }

  /** The image, the replicas, the backend or one of the three tags differs. */
  predicate Differ(a: Workload, b: Workload) {
    || a.spec.image != b.spec.image || a.spec.replicas != b.spec.replicas || a.spec.backend != b.spec.backend
    || !TaggedAlike(a, b)
  }

  lemma ChangesAreDifferences(previous: Workload, next: Workload)
    ensures Changes(previous, next) <==> Differ(previous, next)
  {
    hide SyncFromLabels, ReadTag;
    SyncReads(previous);
    SyncReads(next);
    if Untagged(previous) {
      UntaggedReads(previous);
    }
    if Untagged(next) {
      UntaggedReads(next);
    }
  }

  /** Recording puts the predecessor in front of the history, within the bound, exactly when a compared field differs;
      otherwise the history stays as it is. */
  lemma RecordsExactlyOnChange(next: Workload, previous: Workload, maxN: int, id: string)
    requires maxN > 0
    ensures var r := Recorded(next, previous, maxN, id);
            r.spec == next.spec &&
            if Differ(previous, next) then
              && r.revisions != [] && r.revisions[0].id == id && r.revisions[0].reason == "update"
              && r.revisions[0].spec == previous.spec && r.revisions[0].tags == SyncFromLabels(previous).tags
              && r.revisions[0].labels == (if previous.labels == Some(map[]) then None else previous.labels)
              && r.revisions[1..] == next.revisions[..|r.revisions| - 1]
              && (|r.revisions| == maxN || |r.revisions| == |next.revisions| + 1) && |r.revisions| <= maxN
            else r.revisions == next.revisions
  {
    hide SyncFromLabels, Changes, Differ, Recorded;
    ChangesAreDifferences(previous, next);
    RecordedFacts(next, previous, maxN, id);
  }

  lemma UntaggedReads(w: Workload)
    requires Untagged(w)
    ensures forall key :: ReadTag(w, key) == ""
  {
  }

  /** A new workload without a history gets one revision, of itself; one that brings a history keeps it. */
  lemma CreateRecordsExactly(w: Workload, maxN: int, id: string)
    requires maxN > 0
    ensures var r := RecordedInitially(w, maxN, id);
            if w.revisions != [] then r == w else
              && |r.revisions| == 1 && r.revisions[0].id == id && r.revisions[0].reason == "create"
              && r.revisions[0].spec == w.spec == r.spec && r.revisions[0].tags == SyncFromLabels(w).tags == r.tags
              && r.status.rollback == Some(RollbackStatus(maxN, 1, id))
  {
    hide SyncFromLabels;
    SyncFacts(w);
  }

  // ---------------------------------------------------------------- the versioned store

  /** The stored value after an update. `shared` says that the caller passed the stored cell itself, so the store
      compares it with itself. */
  function Updated(stored: Workload, w: Workload, shared: bool, maxN: int, id: string): Workload {
    var next := Apply(w);
    if shared then (if maxN <= 0 then next else SyncFromLabels(next)) else Recorded(next, stored, maxN, id)
  }

  lemma ApplyKeepsId(w: Workload)
    ensures Apply(w) == w.(tags := Apply(w).tags, labels := Apply(w).labels)
  {
  }

  lemma RecordedKeepsId(next: Workload, previous: Workload, maxN: int, id: string)
    ensures Recorded(next, previous, maxN, id).id == next.id
  {
  }

  /** Updating the stored cell itself records nothing; it writes down the tags that the mirrored workload is read to
      have. */
  lemma SharedUpdateFillsTags(stored: Workload, w: Workload, maxN: int, id: string)
    requires maxN > 0
    ensures var r, mirrored := Updated(stored, w, true, maxN, id), Apply(w);
            && r == mirrored.(tags := r.tags) && r.revisions == w.revisions && r.spec == w.spec
            && (r.tags.Some? ==>
                  && r.tags.value.team == ReadTag(mirrored, "kranix.io/team")
                  && r.tags.value.environment == ReadTag(mirrored, "kranix.io/environment")
                  && r.tags.value.costCenter == ReadTag(mirrored, "kranix.io/cost-center"))
  {
    hide SyncFromLabels, Apply, ReadTag;
    ApplyKeepsId(w);
    SyncReads(Apply(w));
  }

  // ---------------------------------------------------------------- bounded history refines unbounded history

  /** The newest `n` entries. */
  function Newest(full: seq<Revision>, n: nat): seq<Revision> {
    if |full| > n then full[..n] else full
  }

  /** A caller's update: everything but the history, which is carried forward from the store. */
  datatype Change = Change(w: Workload, shared: bool, id: string)

  function Carried(stored: Workload, c: Change): Workload {
    c.w.(revisions := stored.revisions, status := c.w.status.(rollback := stored.status.rollback))
  }

  /** The stored workload and, beside it, every snapshot ever taken, newest first. */
  datatype Versioned = Versioned(w: Workload, full: seq<Revision>)

  function Created(w: Workload, maxN: int, id: string): Versioned {
    var first := Apply(w.(revisions := []));
    Versioned(RecordedInitially(first, maxN, id), [SnapshotOf(first, "create", id)])
  }

  function Stepped(v: Versioned, c: Change, maxN: int): Versioned {
    var next := Carried(v.w, c);
    Versioned(
      Updated(v.w, next, c.shared, maxN, c.id),
      if !c.shared && Changes(v.w, Apply(next)) then [SnapshotOf(v.w, "update", c.id)] + v.full else v.full)
  }

  function RunVersioned(w: Workload, id: string, changes: seq<Change>, maxN: int): Versioned {
    if changes == [] then Created(w, maxN, id) else
      Stepped(RunVersioned(w, id, changes[..|changes| - 1], maxN), changes[|changes| - 1], maxN)
  }

  ghost predicate KeepsNewest(v: Versioned, maxN: int)
    requires maxN > 0
  {
    && v.w.revisions == Newest(v.full, maxN)
    && |v.w.revisions| <= maxN
    && v.w.status.rollback.Some?
    && v.w.status.rollback.value.maxVersions == maxN
    && v.w.status.rollback.value.count == |v.w.revisions|
    && v.full != [] && v.w.status.rollback.value.activeID == v.full[0].id
  }

  lemma StepKeepsNewest(v: Versioned, c: Change, maxN: int)
    requires maxN > 0 && KeepsNewest(v, maxN)
    ensures KeepsNewest(Stepped(v, c, maxN), maxN)
  {
    hide Apply, SyncFromLabels, SnapshotOf, TagsEqual, SpecsEqual;
    var next := Carried(v.w, c);
    ApplyKeepsId(next);
    SyncFacts(Apply(next));
  }

  /** Over any run of creates and updates, by callers that share cells or hold copies, the bounded history is the newest
      part of the unbounded one, and the recorded count and bound are right. */
  lemma {:induction false} HistoryKeepsNewest(w: Workload, id: string, changes: seq<Change>, maxN: int)
    requires maxN > 0
    ensures KeepsNewest(RunVersioned(w, id, changes, maxN), maxN)
  {
    hide KeepsNewest, Stepped;
    if changes == [] {
      CreateKeepsNewest(w, maxN, id);
    } else {
      var n := |changes| - 1;
      HistoryKeepsNewest(w, id, changes[..n], maxN);
      StepKeepsNewest(RunVersioned(w, id, changes[..n], maxN), changes[n], maxN);
    }
  }

  lemma CreateKeepsNewest(w: Workload, maxN: int, id: string)
    requires maxN > 0
    ensures KeepsNewest(Created(w, maxN, id), maxN)
  {
    hide Apply, SyncFromLabels;
    ApplyKeepsId(w.(revisions := []));
    SyncFacts(Apply(w.(revisions := [])));
  }

  /** After any run, an update by a caller that holds a copy and changes image, replicas or backend leaves the new spec
      in the store and the spec it replaced as the newest revision. */
  lemma ReplacedSpecIsNewest(w: Workload, id: string, changes: seq<Change>, c: Change, maxN: int)
    requires maxN > 0 && !c.shared
    ensures var before := RunVersioned(w, id, changes, maxN).w;
            var after := RunVersioned(w, id, changes + [c], maxN).w;
            && after.spec == c.w.spec
            && (before.spec.image != c.w.spec.image || before.spec.replicas != c.w.spec.replicas
                || before.spec.backend != c.w.spec.backend ==>
                  after.revisions != [] && after.revisions[0].spec == before.spec && after.revisions[0].id == c.id)
  {
    hide Recorded, Apply;
    assert (changes + [c])[..|changes|] == changes;
    var before := RunVersioned(w, id, changes, maxN).w;
    ApplyKeepsId(Carried(before, c));
    RecordsExactlyOnChange(Apply(Carried(before, c)), before, maxN, c.id);
  }

  // ---------------------------------------------------------------- revert

  function FindRevision(revs: seq<Revision>, id: string): (r: Option<Revision>)
    ensures r.Some? <==> exists i :: 0 <= i < |revs| && revs[i].id == id
    ensures r.Some? ==> r.value.id == id && FoundFirst(revs, id, r.value)
  {
    if revs == [] then None
    else if revs[0].id == id then Some(revs[0])
    else
      assert forall i :: 0 < i < |revs| ==> revs[i] == revs[1..][i - 1];
      var r := FindRevision(revs[1..], id);
      assert r.Some? ==> FoundFirst(revs, id, r.value) by {
        if r.Some? {
          var i :| 0 <= i < |revs| - 1 && revs[1..][i] == r.value && forall j :: 0 <= j < i ==> revs[1..][j].id != id;
          FirstOfRest(revs, id, i);
        }
      }
      r
  }

  /** The revision stands in the history and no newer one has the ID. */
  ghost predicate FoundFirst(revs: seq<Revision>, id: string, rev: Revision) {
    exists i :: 0 <= i < |revs| && revs[i] == rev && forall j :: 0 <= j < i ==> revs[j].id != id
  }

  lemma FirstOfRest(revs: seq<Revision>, id: string, i: nat)
    requires 0 <= i < |revs| - 1 && revs[0].id != id
    requires forall j :: 0 <= j < i ==> revs[1..][j].id != id
    ensures FoundFirst(revs, id, revs[1..][i])
  {
    forall j | 0 <= j < i + 1
      ensures revs[j].id != id
    {
      assert j > 0 ==> revs[j] == revs[1..][j - 1];
    }
    assert revs[i + 1] == revs[1..][i];
  }

  /** The store that a revert writes to: unversioned, or versioned over cells or copies. */
  datatype Backing = Plain | SharedCells(maxVersions: int) | Copies(maxVersions: int)
  {
    predicate Valid() {
      Plain? || maxVersions > 0
    }
  }

  function Stored(b: Backing, stored: Workload, w: Workload, id: string): Workload {
    match b
    case Plain => w
    case SharedCells(n) => Updated(stored, w, true, n, id)
    case Copies(n) => Updated(stored, w, false, n, id)
  }

  predicate HasLabels(rev: Revision) {
    rev.labels.Some? && rev.labels.value != map[]
  }

  function Overwritten(w: Workload, rev: Revision): Workload {
    w.(spec := rev.spec, tags := rev.tags, labels := if HasLabels(rev) then rev.labels else w.labels)
  }

  /** The workload with the revision's spec, tags and, if it had any, labels. */
  function Restored(w: Workload, rev: Revision): Workload {
    Apply(Overwritten(w, rev))
  }

  /** The captured predecessor as the recorder sees it: a label map that the revision does not replace is still the
      workload's own, so the restored tags are already mirrored into it. */
  function CurrentSeen(w: Workload, rev: Revision): Workload {
    if !HasLabels(rev) && w.labels.Some? then w.(labels := Restored(w, rev).labels) else w
  }

  function RevertedLocally(w: Workload, rev: Revision, maxN: int, id: string): Workload {
    RefreshStatus(Recorded(Restored(w, rev), CurrentSeen(w, rev), maxN, id), maxN, rev.id)
  }

  function Bound(maxN: int): (n: int)
    ensures n > 0
  {
    if maxN <= 0 then DEFAULT_MAX_VERSIONS else maxN
  }

  /** The workload stored after a revert. */
  function Reverted(b: Backing, w: Workload, revisionID: string, maxN: int, id1: string, id2: string): Result<Workload>
  {
    match FindRevision(w.revisions, revisionID)
    case None => Err("revision not found")
    case Some(rev) => Ok(Stored(b, w, RevertedLocally(w, rev, Bound(maxN), id1), id2))
  }

  /** Wraps a store that hands out either its own cells or copies of them. */
  class VersionedStore {
    const maxVersions: int
    const copies: bool
    const inner: CellStore

    constructor (maxVersions: int, copies: bool)
      ensures this.maxVersions == (if maxVersions <= 0 then 10 else maxVersions) && this.copies == copies
      ensures this.maxVersions > 0 && fresh(inner) && inner.cells == map[]
    {
      this.maxVersions, this.copies := if maxVersions <= 0 then 10 else maxVersions, copies;
      inner := new CellStore();
    }

    method Get(id: string) returns (w: Option<WorkloadRef>)
      ensures w.Some? <==> id in inner.cells
      ensures w.Some? ==> w.value.value == inner.cells[id].value
      ensures w.Some? && !copies ==> w.value == inner.cells[id]
      ensures w.Some? && copies ==> fresh(w.value)
    {
      if id !in inner.cells {
        return None;
      }
      if copies {
        var c := new WorkloadRef(inner.cells[id].value);
        return Some(c);
      }
      return Some(inner.cells[id]);
    }

    method Create(w: WorkloadRef, freshID: string) returns (ok: bool)
      requires copies ==> w !in inner.cells.Values
      modifies inner, w
      ensures ok == (old(w.value.id) !in old(inner.cells))
      ensures w.value == RecordedInitially(Apply(old(w.value)), maxVersions, freshID)
      ensures ok ==> w.value.id in inner.cells && inner.cells[w.value.id].value == w.value
                     && inner.cells == old(inner.cells)[w.value.id := inner.cells[w.value.id]]
      ensures !ok ==> inner.cells == old(inner.cells)
    {
      hide SyncFromLabels, LabelsFrom;
      SyncFacts(w.value);
      SyncFacts(Apply(w.value));
      w.value := Apply(w.value);
      if maxVersions > 0 && |w.value.revisions| == 0 {
        var rev := SnapshotOf(w.value, "create", freshID);
        w.value := SyncFromLabels(w.value);
        w.value := w.value.(revisions := [rev]);
        w.value := RefreshStatus(w.value, maxVersions, rev.id);
      }
      if w.value.id in inner.cells {
        return false;
      }
      if copies {
        var c := new WorkloadRef(w.value);
        inner.Put(c);
      } else {
        inner.Put(w);
      }
      return true;
    }

    method Update(w: WorkloadRef, freshID: string) returns (ok: bool)
      requires copies ==> w !in inner.cells.Values
      requires maxVersions > 0
      modifies inner, w, inner.cells.Values
      ensures ok == (old(w.value.id) in old(inner.cells))
      ensures ok ==> w.value == Updated(old(inner.cells[w.value.id].value), old(w.value),
                                        old(inner.cells[w.value.id] == w), maxVersions, freshID)
      ensures ok ==> w.value.id == old(w.value.id) && w.value.id in inner.cells
                     && inner.cells[w.value.id].value == w.value
      ensures inner.cells.Keys == old(inner.cells).Keys
      ensures forall id :: id in inner.cells && id != old(w.value.id) ==> inner.cells[id] == old(inner.cells[id])
    {
      hide SyncFromLabels, LabelsFrom, Recorded;
      ApplyKeepsId(w.value);
      SyncFacts(Apply(w.value));
      var previous := Get(w.value.id);
      w.value := Apply(w.value);
      if previous == None {
        return false;
      }
      RecordBeforeUpdate(w, previous.value, maxVersions, freshID);
      RecordedKeepsId(old(Apply(w.value)), old(inner.cells[w.value.id].value), maxVersions, freshID);
      if copies {
        var c := new WorkloadRef(w.value);
        inner.Put(c);
      } else {
        inner.Put(w);
      }
      return true;
    }

    /** Restores a revision in place, records what it replaced and writes the result back. */
    method Revert(id: string, revisionID: string, maxN: int, id1: string, id2: string) returns (ok: bool)
      requires maxVersions > 0
      requires id in inner.cells ==> inner.cells[id].value.id == id
      modifies inner, inner.cells.Values
      ensures ok == (id in old(inner.cells)
                     && Reverted(Backing(), old(inner.cells[id].value), revisionID, maxN, id1, id2).Ok?)
      ensures ok ==>
                && id in inner.cells
                && inner.cells[id].value
                   == Reverted(Backing(), old(inner.cells[id].value), revisionID, maxN, id1, id2).value
      ensures !ok ==> inner.View() == old(inner.View())
    {
      hide Apply, Recorded;
      var got := Get(id);
      if got == None {
        return false;
      }
      var w := got.value;
      var rev := FindRevision(w.value.revisions, revisionID);
      if rev == None {
        return false;
      }
      var current := new WorkloadRef(w.value);
      w.value := w.value.(spec := rev.value.spec);
      w.value := w.value.(tags := rev.value.tags);
      var sharesLabels := w.value.labels.Some?;
      if HasLabels(rev.value) {
        w.value := w.value.(labels := rev.value.labels);
        sharesLabels := false;
      }
      ApplyKeepsId(w.value);
      w.value := Apply(w.value);
      if sharesLabels {
        current.value := current.value.(labels := w.value.labels);
      }
      RecordedKeepsId(w.value, current.value, Bound(maxN), id1);
      RecordBeforeUpdate(w, current, Bound(maxN), id1);
      w.value := RefreshStatus(w.value, Bound(maxN), revisionID);
      ok := Update(w, id2);
    }

    ghost function Backing(): Backing
    {
      if copies then Copies(maxVersions) else SharedCells(maxVersions)
    }
  }

  lemma RecordedFacts(next: Workload, previous: Workload, maxN: int, id: string)
    ensures Recorded(next, previous, maxN, id).spec == next.spec
    ensures maxN > 0 && !SpecsEqual(previous.spec, next.spec) ==>
              var revs := Recorded(next, previous, maxN, id).revisions; revs != [] && revs[0].spec == previous.spec
    ensures maxN > 0 ==> Recorded(next, previous, maxN, id).revisions
                         == if Changes(previous, next)
                            then Prepend(next.revisions, SnapshotOf(previous, "update", id), maxN) else next.revisions
  {
    hide SyncFromLabels, TagsEqual;
    SyncFacts(next);
  }

  lemma StoredFacts(b: Backing, stored: Workload, w: Workload, id: string)
    requires b.Valid()
    requires !SpecsEqual(stored.spec, w.spec) && w.revisions != [] && w.revisions[0].spec == stored.spec
    ensures var r := Stored(b, stored, w, id);
            r.spec == w.spec && r.revisions != [] && r.revisions[0].spec == stored.spec
  {
    hide Apply, SyncFromLabels, Recorded;
    ApplyKeepsId(w);
    SyncFacts(Apply(w));
    if b.Copies? {
      RecordedFacts(Apply(w), stored, b.maxVersions, id);
    }
  }

  /** The operation left the given spec in place and, in front of the history, the spec that it replaced. */
  ghost predicate SwapsIn(before: Workload, after: Result<Workload>, spec: WorkloadSpec) {
    && after.Ok? && after.value.spec == spec
    && after.value.revisions != [] && after.value.revisions[0].spec == before.spec
  }

  /** Reverting to a revision whose image, replicas or backend differ leaves exactly that revision's spec and puts
      exactly the spec it replaced in front of the history; reverting to that newest revision brings it back. Holds for
      every kind of store, every bound and any revision IDs. */
  lemma RevertUndoesRevert(b: Backing, w: Workload, revisionID: string, maxN: int,
                           ids: (string, string, string, string))
    requires b.Valid() && FindRevision(w.revisions, revisionID).Some?
    requires !SpecsEqual(w.spec, FindRevision(w.revisions, revisionID).value.spec)
    ensures var first := Reverted(b, w, revisionID, maxN, ids.0, ids.1);
            && SwapsIn(w, first, FindRevision(w.revisions, revisionID).value.spec)
            && var second := Reverted(b, first.value, first.value.revisions[0].id, maxN, ids.2, ids.3);
               SwapsIn(first.value, second, w.spec)
  {
    hide Stored, RevertedLocally;
    var rev := FindRevision(w.revisions, revisionID).value;
    RevertStep(b, w, rev, maxN, ids.0, ids.1);
    var w' := Reverted(b, w, revisionID, maxN, ids.0, ids.1).value;
    RevertStep(b, w', w'.revisions[0], maxN, ids.2, ids.3);
  }

  lemma RevertStep(b: Backing, w: Workload, rev: Revision, maxN: int, id1: string, id2: string)
    requires b.Valid() && !SpecsEqual(w.spec, rev.spec)
    ensures var r := Stored(b, w, RevertedLocally(w, rev, Bound(maxN), id1), id2);
            r.spec == rev.spec && r.revisions != [] && r.revisions[0].spec == w.spec
  {
    hide Stored, Apply, Recorded;
    ApplyKeepsId(Overwritten(w, rev));
    RecordedFacts(Restored(w, rev), CurrentSeen(w, rev), Bound(maxN), id1);
    StoredFacts(b, w, RevertedLocally(w, rev, Bound(maxN), id1), id2);
  }

  /** Reverting to the newest revision brings back what it was taken of: the spec, the tags and, if there were any, the
      labels, with the tags mirrored into them. */
  lemma RevertBringsBack(next: Workload, previous: Workload, maxN: int, ids: (string, string))
    requires maxN > 0 && Differ(previous, next)
    ensures Recorded(next, previous, maxN, ids.0).revisions != []
    ensures var w := Recorded(next, previous, maxN, ids.0);
            var back := Reverted(Plain, w, w.revisions[0].id, maxN, ids.1, "");
            && back.Ok? && back.value.spec == previous.spec
            && (previous.tags.Some? ==>
                  && back.value.tags.Some? && back.value.tags.value.custom == previous.tags.value.custom
                  && KeepsTags(previous, back.value))
            && (previous.labels.Some? && previous.labels.value != map[] ==>
                  back.value.labels == Apply(SyncFromLabels(previous)).labels)
  {
    hide Apply, SyncFromLabels, ReadTag, Recorded, Changes, Differ;
    ChangesAreDifferences(previous, next);
    RecordedFacts(next, previous, maxN, ids.0);
    var w := Recorded(next, previous, maxN, ids.0);
    var rev := w.revisions[0];
    assert FindRevision(w.revisions, rev.id).value == rev;
    SyncReads(previous);
    SyncFacts(previous);
    var base := Overwritten(w, rev);
    ApplyKeepsId(base);
    if !Untagged(previous) {
      AppliesLike(base, SyncFromLabels(previous));
    }
    RecordedKeeps(Restored(w, rev), CurrentSeen(w, rev), maxN, ids.1);
    SyncReads(Restored(w, rev));
    if previous.tags.Some? {
      TagsReadBack(previous, Restored(w, rev));
    }
  }

  /** Every tag of the first that is not empty is a tag of the second. */
  ghost predicate KeepsTags(a: Workload, b: Workload)
    requires a.tags.Some? && b.tags.Some?
  {
    forall key :: TagFor(a.tags.value, key) != "" ==> TagFor(b.tags.value, key) == TagFor(a.tags.value, key)
  }

  lemma RecordedKeeps(next: Workload, previous: Workload, maxN: int, id: string)
    ensures var r := Recorded(next, previous, maxN, id);
            r.spec == next.spec && r.labels == next.labels
            && (r.tags == next.tags || r.tags == SyncFromLabels(next).tags)
  {
    hide SyncFromLabels, Changes;
    SyncFacts(next);
  }

  lemma AppliesLike(a: Workload, b: Workload)
    requires a.tags == b.tags && a.tags.Some?
    ensures Apply(a).tags == a.tags
    ensures a.labels == b.labels ==> Apply(a).labels == Apply(b).labels
  {
  }

  lemma TagsReadBack(previous: Workload, restored: Workload)
    requires previous.tags.Some? && restored.tags == SyncFromLabels(previous).tags
    ensures restored.tags.Some? && KeepsTags(previous, restored)
    ensures SyncFromLabels(restored).tags.Some? && KeepsTags(previous, SyncFromLabels(restored))
    ensures restored.tags.value.custom == SyncFromLabels(restored).tags.value.custom == previous.tags.value.custom
  {
    hide LabelOf;
    KeysDiffer();
  }

  /** A revert succeeds exactly when the history holds the revision, in every kind of store. */
  lemma RevertSucceedsExactly(b: Backing, w: Workload, revisionID: string, maxN: int, id1: string, id2: string)
    ensures Reverted(b, w, revisionID, maxN, id1, id2).Ok? <==>
            exists i :: 0 <= i < |w.revisions| && w.revisions[i].id == revisionID
  {
    hide Stored, RevertedLocally;
  }

  /** Under a label that no restored tag claims, a revert leaves what the revision had or, if it had no labels at all,
      what the workload has. */
  lemma LabelsAfterRevert(w: Workload, rev: Revision, key: string)
    requires key != "" && rev.tags.Some? && CustomValue(rev.tags.value.custom, key).None?
    requires Trim(TagFor(rev.tags.value, key)) == ""
    ensures var labels := Restored(w, rev).labels;
            && labels.Some?
            && (rev.labels.None? || rev.labels == Some(map[]) ==>
                  Lookup(labels.value, key) == if w.labels.Some? then Lookup(w.labels.value, key) else None)
            && (rev.labels.Some? && rev.labels.value != map[] ==>
                  Lookup(labels.value, key) == Lookup(rev.labels.value, key))
  {
    hide Trim, LabelsFrom, CustomValue;
    var base := Overwritten(w, rev);
    LabelsFromAt(if base.labels.Some? then base.labels.value else map[], rev.tags.value, key);
  }

  /** A revert reports the bound it used, ten where none is given, the length of the history and its revision. */
  lemma RevertReports(w: Workload, revisionID: string, maxN: int, id: string)
    requires FindRevision(w.revisions, revisionID).Some?
    ensures var r := Reverted(Plain, w, revisionID, maxN, id, "");
            && r.Ok? && r.value.status.rollback
                        == Some(RollbackStatus(if maxN > 0 then maxN else 10, |r.value.revisions|, revisionID))
            && |r.value.revisions| <= |w.revisions| + 1
  {
    hide Apply, SyncFromLabels, Recorded;
    var rev := FindRevision(w.revisions, revisionID).value;
    LocalHistory(w, rev, Bound(maxN), id);
  }

  /** A revision without labels leaves the captured workload its label map, into which the restored tags are mirrored
      before the two are compared: a workload tagged by labels alone is then read to have the restored tag, and the
      revert of a tag goes unrecorded. A store over copies still has the old labels to compare with. */
  lemma SharedLabelsHideTag(w: Workload, rev: Revision, team: string, maxN: int, id: string)
    requires maxN > 0 && Trim(team) == team && team != "" && w.tags.None? && w.labels.Some? && rev.labels.None?
    requires rev.tags == Some(Tags(team, "", "", [])) && SpecsEqual(w.spec, rev.spec)
    ensures RevertedLocally(w, rev, maxN, id).revisions == w.revisions
    ensures ReadTag(w, "kranix.io/team") != team ==> NoticesRevert(Copies(maxN), w, rev)
  {
    hide Trim, Recorded, Changes, RevertedLocally, Apply, LabelsFrom;
    var restored, current := Restored(w, rev), CurrentSeen(w, rev);
    LocalHistory(w, rev, maxN, id);
    ApplyKeepsId(Overwritten(w, rev));
    MirrorsTeam(Overwritten(w, rev), team);
    KeysDiffer();
    ChangesAreDifferences(current, restored);
    ChangesAreDifferences(w, restored);
  }

  lemma MirrorsTeam(w: Workload, team: string)
    requires w.labels.Some? && w.tags == Some(Tags(team, "", "", [])) && Trim(team) == team != ""
    ensures Apply(w) == w.(labels := Some(w.labels.value["kranix.io/team" := team]))
  {
    hide Trim;
    EmptyTrims();
  }

  /** A spec can be found again after a revert. */
  ghost predicate Recoverable(w: Workload, spec: WorkloadSpec) {
    exists i :: 0 <= i < |w.revisions| && w.revisions[i].spec == spec
  }

  /** The comparison notices the revert: the one that the revert makes itself or, when the store holds copies, the one
      that the store makes with what it held before. */
  predicate NoticesRevert(b: Backing, w: Workload, rev: Revision) {
    Changes(CurrentSeen(w, rev), Restored(w, rev)) || (b.Copies? && Changes(w, Restored(w, rev)))
  }

  /** In every kind of store the replaced spec can be recovered exactly when the revert changes one of the compared
      fields, or the history already held that spec: a revert of any other field is lost. */
  lemma RecoverableExactlyWhenCompared(b: Backing, w: Workload, revisionID: string, maxN: int, id1: string, id2: string)
    requires b.Valid() && FindRevision(w.revisions, revisionID).Some?
    ensures Recoverable(Reverted(b, w, revisionID, maxN, id1, id2).value, w.spec)
            <==> NoticesRevert(b, w, FindRevision(w.revisions, revisionID).value) || Recoverable(w, w.spec)
  {
    hide Apply, SyncFromLabels, Changes, Recorded, Updated;
    var rev := FindRevision(w.revisions, revisionID).value;
    var w' := RevertedLocally(w, rev, Bound(maxN), id1);
    LocalHistory(w, rev, Bound(maxN), id1);
    UpdatedHistory(w, w', b.SharedCells?, if b.Plain? then 1 else b.maxVersions, id2);
    if !Changes(CurrentSeen(w, rev), Restored(w, rev)) {
      StoreComparesAlike(w, rev, Bound(maxN), id1);
    }
    var r := Stored(b, w, w', id2);
    if NoticesRevert(b, w, rev) {
      assert r.revisions[0].spec == w.spec;
    } else {
      assert r.revisions == w.revisions;
    }
  }

  lemma LocalHistory(w: Workload, rev: Revision, maxN: int, id: string)
    requires maxN > 0
    ensures RevertedLocally(w, rev, maxN, id).revisions
            == if Changes(CurrentSeen(w, rev), Restored(w, rev))
               then Prepend(w.revisions, SnapshotOf(CurrentSeen(w, rev), "update", id), maxN) else w.revisions
    ensures CurrentSeen(w, rev).spec == w.spec
  {
    hide Apply, Changes, Recorded;
    ApplyKeepsId(Overwritten(w, rev));
    RecordedFacts(Restored(w, rev), CurrentSeen(w, rev), maxN, id);
  }

  lemma UpdatedHistory(stored: Workload, w: Workload, shared: bool, maxN: int, id: string)
    requires maxN > 0
    ensures Updated(stored, w, shared, maxN, id).revisions
            == if !shared && Changes(stored, Apply(w))
               then Prepend(w.revisions, SnapshotOf(stored, "update", id), maxN) else w.revisions
  {
    hide Apply, SyncFromLabels, Changes, Recorded;
    ApplyKeepsId(w);
    SyncFacts(Apply(w));
    RecordedFacts(Apply(w), stored, maxN, id);
  }

  /** Tags that the revert's own comparison has filled in are the tags that the store compares. */
  lemma StoreComparesAlike(w: Workload, rev: Revision, maxN: int, id: string)
    requires maxN > 0 && !Changes(CurrentSeen(w, rev), Restored(w, rev))
    ensures Changes(w, Apply(RevertedLocally(w, rev, maxN, id))) <==> Changes(w, Restored(w, rev))
  {
    hide Apply, SyncFromLabels, TagsEqual;
    var synced := SyncFromLabels(Restored(w, rev));
    var local := RevertedLocally(w, rev, maxN, id);
    assert local == RefreshStatus(synced, maxN, rev.id);
    ApplyKeepsId(local);
    SyncFacts(Restored(w, rev));
    StatusIsNotRead(synced, local);
    TagsSettle(Overwritten(w, rev));
  }

  lemma StatusIsNotRead(a: Workload, b: Workload)
    requires b == a.(status := b.status)
    ensures SyncFromLabels(Apply(b)).tags == SyncFromLabels(Apply(a)).tags
  {
    hide LabelsFrom, OrLabel;
  }

  function Bare(id: string, spec: WorkloadSpec, revisions: seq<Revision>): Workload {
    Workload(id, id, "default", None, None, spec,
             WorkloadStatus(Running, 1, None, None, None, None, 0), revisions, None)
  }

  function PlainSpec(other: string): WorkloadSpec {
    WorkloadSpec("app:1", "docker", 1, Amount(0), Amount(0), [], None, None, None, None, Direct, other)
  }

  /** Witness: reverting an untagged workload to a revision that differs in an uncompared field loses the replaced
      spec, in every kind of store. */
  lemma UncomparedFieldIsLost(b: Backing, maxN: int, id1: string, id2: string, was: string, now: string)
    requires b.Valid() && was != now
    ensures var w := Bare("web", PlainSpec(now), [Revision("r1", PlainSpec(was), None, None, "create")]);
            var after := Reverted(b, w, "r1", maxN, id1, id2);
            after.Ok? && after.value.spec == PlainSpec(was) && !Recoverable(after.value, PlainSpec(now))
  {
    var w := Bare("web", PlainSpec(now), [Revision("r1", PlainSpec(was), None, None, "create")]);
    assert w.revisions[0].id == "r1";
    RecoverableExactlyWhenCompared(b, w, "r1", maxN, id1, id2);
  }
}
