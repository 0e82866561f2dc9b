/** The platform's data model: the parts of a workload that the modelled components read or write. */
module Types {

  const MAX_INT32: int := 0x7fff_ffff

  type int32 = x: int | -0x8000_0000 <= x < 0x8000_0000

  /** Two's-complement truncation to 32 bits: what `int32(x)` and 32-bit `+=` do. */
  function Wrap32(x: int): (r: int32)
    ensures -0x8000_0000 <= x < 0x8000_0000 ==> r == x
  {
    (x + 0x8000_0000) % 0x1_0000_0000 - 0x8000_0000
  }

  /** Truncating at every addition is truncating once at the end. */
  lemma Wrap32Absorbs(a: int, b: int)
    ensures Wrap32(Wrap32(a) + b) == Wrap32(a + b)
  {
  }

  datatype Option<+T> = None | Some(value: T)

  datatype Result<+T> = Ok(value: T) | Err(message: string)

  /** A resource quantity after parsing; the empty string parses to `Amount(0)`. */
  datatype Quantity = Amount(n: int) | Malformed

  datatype Phase = Pending | Running | Degraded | Failed | Succeeded | OtherPhase(name: string)

  datatype CircuitState = Closed | Open | HalfOpen

  datatype CircuitBreakerSpec = CircuitBreakerSpec(
    enabled: bool,
    failureThreshold: int32,
    successThreshold: int32,
    openDurationSeconds: int32,
    halfOpenMaxRequests: int32,
    tripOnDegraded: Option<bool>)

  datatype CircuitBreakerStatus = CircuitBreakerStatus(
    state: CircuitState,
    consecutiveFails: int32,
    consecutiveOK: int32,
    halfOpenAttempts: int32,
    lastTransition: int,
    openUntil: Option<int>,
    message: string)

  datatype WarmStandbySpec = WarmStandbySpec(
    enabled: bool, replicas: int32, autoPromote: bool, standbyWorkloadID: string)

  datatype WarmStandbyPhase = NoStandby | Cold | Promoted

  datatype WarmStandbyStatus = WarmStandbyStatus(
    standbyWorkloadID: string, phase: WarmStandbyPhase, readyReplicas: int32, message: string)

  datatype SecretRotationSpec = SecretRotationSpec(enabled: bool, secretRefs: seq<string>)

  datatype SecretRotationStatus = SecretRotationStatus(
    pendingRestart: bool, secretName: string, secretVersion: string, restartCount: int32, message: string)

  /** How a rollout proceeds: by handing over the workload (rolling, recreate, blue-green), a canary or two variants
      first, or not at all (an unknown type or a missing section). */
  datatype RolloutStrategy =
    Direct | Canary(autoPromote: bool) | ABTest(variantA: string, variantB: string, autoSelect: bool) | Unusable

  datatype RollbackStatus = RollbackStatus(maxVersions: int, count: int, activeID: string)

  /** `cronSchedule` is a schedule that is not suspended; `other` stands for every field that no modelled component
      inspects (environment, affinity, ...). */
  datatype WorkloadSpec = WorkloadSpec(
    image: string,
    backend: string,
    replicas: int32,
    cpuRequest: Quantity,
    memoryRequest: Quantity,
    dependencies: seq<string>,
    cronSchedule: Option<string>,
    circuitBreaker: Option<CircuitBreakerSpec>,
    warmStandby: Option<WarmStandbySpec>,
    secretRotation: Option<SecretRotationSpec>,
    rollout: RolloutStrategy,
    other: string)

  datatype WorkloadStatus = WorkloadStatus(
    phase: Phase,
    readyReplicas: int32,
    circuitBreaker: Option<CircuitBreakerStatus>,
    rollback: Option<RollbackStatus>,
    warmStandby: Option<WarmStandbyStatus>,
    secretRotation: Option<SecretRotationStatus>,
    restartGeneration: int32)

  /** `custom` lists the custom tags in the order in which they are copied to labels. */
  datatype Tags = Tags(team: string, environment: string, costCenter: string, custom: seq<(string, string)>)

  datatype Revision = Revision(
    id: string,
    spec: WorkloadSpec,
    tags: Option<Tags>,
    labels: Option<map<string, string>>,
    reason: string)

  /** A workload struct value; `None` in `labels` and `tags` is the nil map and the nil pointer. */
  datatype Workload = Workload(
    id: string,
    name: string,
    namespace: string,
    labels: Option<map<string, string>>,
    tags: Option<Tags>,
    spec: WorkloadSpec,
    status: WorkloadStatus,
    revisions: seq<Revision>,
    tenant: Option<string>)

  /** The memory cell behind a workload pointer: two references to one cell share every update. */
  class WorkloadRef {
    var value: Workload

    constructor (w: Workload)
      ensures value == w
    {
      value := w;
    }
  }

  /** A map of workload cells that hands out the cells themselves. It is valid while each cell is filed under the ID of
      its workload, which holders of a cell can break. */
  class CellStore {
    var cells: map<string, WorkloadRef>

    ghost predicate Valid()
      reads this, cells.Values
    {
      forall id :: id in cells ==> cells[id].value.id == id
    }

    ghost predicate Holds(c: WorkloadRef)
      reads this, c
    {
      c.value.id in cells && cells[c.value.id] == c
    }

    ghost function View(): map<string, Workload>
      reads this, cells.Values
    {
      map id | id in cells :: cells[id].value
    }

    constructor ()
      ensures Valid() && cells == map[]
    {
      cells := map[];
    }

    method Get(id: string) returns (c: Option<WorkloadRef>)
      ensures c.Some? <==> id in cells
      ensures c.Some? ==> c.value == cells[id] && c.value in cells.Values && c.value.value == View()[id]
      ensures c.Some? && Valid() ==> c.value.value.id == id && Holds(c.value)
    {
      return if id in cells then Some(cells[id]) else None;
    }

    /** Every stored workload. */
    method All() returns (all: set<Workload>)
      ensures all == View().Values
    {
      all := set id | id in cells :: cells[id].value;
      assert forall id :: id in cells ==> View()[id] == cells[id].value;
    }

    /** Files a cell under the ID of its workload. */
    method Put(c: WorkloadRef)
      modifies this
      ensures cells == old(cells)[c.value.id := c] && (old(Valid()) ==> Valid())
      ensures View() == old(View())[c.value.id := c.value]
    {
      cells := cells[c.value.id := c];
    }

    method Remove(id: string)
      modifies this
      ensures cells == old(cells) - {id} && (old(Valid()) ==> Valid())
      ensures View() == old(View()) - {id}
    {
      cells := cells - {id};
    }

    /** Assigns to the workload behind a stored cell. */
    method Write(c: WorkloadRef, w: Workload)
      requires Valid() && Holds(c) && w.id == c.value.id
      modifies c
      ensures Valid() && Holds(c) && c.value == w
      ensures View() == old(View())[w.id := w]
    {
      c.value := w;
    }
  }
}
