/** The per-workload circuit breaker and what its counters mean over whole observation histories. */
module CircuitBreaker {
  import opened Types

  const SECOND: int := 1_000_000_000

  // ---------------------------------------------------------------- configuration

  datatype Config = Config(
    enabled: bool,
    failureThreshold: int32,
    successThreshold: int32,
    openDurationSeconds: int32,
    halfOpenMaxRequests: int32)
  {
    predicate Normalized() {
      failureThreshold > 0 && successThreshold > 0 && openDurationSeconds > 0 && halfOpenMaxRequests > 0
    }
  }

  function OrDefault(x: int32, default: int32): int32 {
    if x > 0 then x else default
  }

  function NewConfig(cfg: Config): (r: Config)
    ensures r.Normalized() && r.enabled == cfg.enabled
    ensures cfg.Normalized() ==> r == cfg
  {
    Config(cfg.enabled, OrDefault(cfg.failureThreshold, 3), OrDefault(cfg.successThreshold, 2),
           OrDefault(cfg.openDurationSeconds, 60), OrDefault(cfg.halfOpenMaxRequests, 1))
  }

  datatype EffectiveSpec = EffectiveSpec(
    failureThreshold: int32,
    successThreshold: int32,
    openDurationSeconds: int32,
    halfOpenMaxRequests: int32,
    tripOnDegraded: bool)
  {
    predicate Positive() {
      failureThreshold > 0 && successThreshold > 0 && openDurationSeconds > 0 && halfOpenMaxRequests > 0
    }

    function Cooldown(): int {
      openDurationSeconds * SECOND
    }
  }

  /** Per-workload values override the defaults where positive; a missing trip-on-degraded flag means true. */
  function EffectiveSpecOf(w: Workload, cfg: Config): (e: EffectiveSpec)
    ensures cfg.Normalized() ==> e.Positive()
  {
    match w.spec.circuitBreaker
    case None =>
      EffectiveSpec(cfg.failureThreshold, cfg.successThreshold, cfg.openDurationSeconds, cfg.halfOpenMaxRequests, true)
    case Some(s) =>
      EffectiveSpec(
        OrDefault(s.failureThreshold, cfg.failureThreshold),
        OrDefault(s.successThreshold, cfg.successThreshold),
        OrDefault(s.openDurationSeconds, cfg.openDurationSeconds),
        OrDefault(s.halfOpenMaxRequests, cfg.halfOpenMaxRequests),
        s.tripOnDegraded == None || s.tripOnDegraded.value)
  }

  predicate EnabledFor(w: Workload, cfg: Config) {
    (w.spec.circuitBreaker.Some? && w.spec.circuitBreaker.value.enabled) || cfg.enabled
  }

  // ---------------------------------------------------------------- one observation

  predicate Unhealthy(e: EffectiveSpec, phase: Phase) {
    phase.Failed? || (e.tripOnDegraded && phase.Degraded?)
  }

  function Fresh(now: int): CircuitBreakerStatus {
    CircuitBreakerStatus(Closed, 0, 0, 0, now, None, "")
  }

  function Transition(st: CircuitBreakerStatus, state: CircuitState, now: int, msg: string): CircuitBreakerStatus {
    st.(state := state, lastTransition := now, message := msg)
  }

  function Step(e: EffectiveSpec, st0: CircuitBreakerStatus, phase: Phase, ready: int32, now: int)
    : CircuitBreakerStatus
  {
    var st := if st0.state.Open? && st0.openUntil.Some? && now >= st0.openUntil.value
              then Transition(st0, HalfOpen, now, "cooldown elapsed, probing") else st0;
    match st.state
    case Closed =>
      if Unhealthy(e, phase) then
        var failed := st.(consecutiveFails := Wrap32(st.consecutiveFails + 1), consecutiveOK := 0);
        if failed.consecutiveFails >= e.failureThreshold
        then Transition(failed.(openUntil := Some(now + e.Cooldown())), Open, now, "failure threshold exceeded")
        else failed
      else if phase.Running? then st.(consecutiveFails := 0)
      else st
    case Open => st
    case HalfOpen =>
      if Unhealthy(e, phase) then
        var failed := st.(consecutiveFails := Wrap32(st.consecutiveFails + 1), consecutiveOK := 0);
        Transition(failed.(openUntil := Some(now + e.Cooldown())), Open, now, "probe failed")
      else if phase.Running? && ready > 0 then
        var better := st.(consecutiveOK := Wrap32(st.consecutiveOK + 1));
        if better.consecutiveOK >= e.successThreshold
        then Transition(better.(consecutiveFails := 0, halfOpenAttempts := 0, openUntil := None),
                        Closed, now, "recovered")
        else better
      else st
  }

  function StatusOr(st: Option<CircuitBreakerStatus>, now: int): CircuitBreakerStatus {
    if st.Some? then st.value else Fresh(now)
  }

  /** The routing decision on a status that has just been synchronised. */
  predicate Allows(e: EffectiveSpec, st: CircuitBreakerStatus, phase: Phase) {
    match st.state
    case Open => false
    case HalfOpen => st.halfOpenAttempts < e.halfOpenMaxRequests
    case Closed => !phase.Failed? && !(phase.Degraded? && e.tripOnDegraded)
  }

  // ---------------------------------------------------------------- on workloads

  function SyncWorkload(cfg: Config, w: Workload, now: int): Workload {
    if !EnabledFor(w, cfg) then w else
      var st := Step(EffectiveSpecOf(w, cfg), StatusOr(w.status.circuitBreaker, now), w.status.phase,
                     w.status.readyReplicas, now);
      w.(status := w.status.(circuitBreaker := Some(st)))
  }

  function AllowRouteResult(cfg: Config, w: Workload, now: int): bool {
    if !EnabledFor(w, cfg) then !w.status.phase.Failed? else
      Allows(EffectiveSpecOf(w, cfg), SyncWorkload(cfg, w, now).status.circuitBreaker.value, w.status.phase)
  }

  function RecordAttempt(w: Workload): Workload {
    match w.status.circuitBreaker
    case Some(st) =>
      if st.state.HalfOpen?
      then w.(status := w.status.(circuitBreaker := Some(st.(halfOpenAttempts := Wrap32(st.halfOpenAttempts + 1)))))
      else w
    case None => w
  }

  class Engine {
    const cfg: Config

    constructor (cfg: Config)
      ensures this.cfg == NewConfig(cfg)
    {
      this.cfg := NewConfig(cfg);
    }

    method SyncFromWorkload(w: WorkloadRef, now: int) returns (prev: Option<CircuitState>, cur: Option<CircuitState>)
      modifies w
      ensures w.value == SyncWorkload(cfg, old(w.value), now)
      ensures prev.Some? == cur.Some? == EnabledFor(old(w.value), cfg)
      ensures prev.Some? ==> prev.value == StatusOr(old(w.value).status.circuitBreaker, now).state
      ensures cur.Some? ==> cur.value == w.value.status.circuitBreaker.value.state
    {
      hide Wrap32, EnabledFor, EffectiveSpecOf;
      if !EnabledFor(w.value, cfg) {
        return None, None;
      }
      var spec := EffectiveSpecOf(w.value, cfg);
      var st := StatusOr(w.value.status.circuitBreaker, now);
      prev := Some(st.state);
      var phase := w.value.status.phase;
      if st.state == Open && st.openUntil != None && now >= st.openUntil.value {
        st := Transition(st, HalfOpen, now, "cooldown elapsed, probing");
      }
      var unhealthy := Unhealthy(spec, phase);
      if st.state == Closed {
        if unhealthy {
          st := st.(consecutiveFails := Wrap32(st.consecutiveFails + 1));
          st := st.(consecutiveOK := 0);
          if st.consecutiveFails >= spec.failureThreshold {
            st := st.(openUntil := Some(now + spec.Cooldown()));
            st := Transition(st, Open, now, "failure threshold exceeded");
          }
        } else if phase == Running {
          st := st.(consecutiveFails := 0);
        }
      } else if st.state == HalfOpen {
        if unhealthy {
          st := st.(consecutiveFails := Wrap32(st.consecutiveFails + 1));
          st := st.(consecutiveOK := 0);
          st := st.(openUntil := Some(now + spec.Cooldown()));
          st := Transition(st, Open, now, "probe failed");
        } else if phase == Running && w.value.status.readyReplicas > 0 {
          st := st.(consecutiveOK := Wrap32(st.consecutiveOK + 1));
          if st.consecutiveOK >= spec.successThreshold {
            st := st.(consecutiveFails := 0);
            st := st.(halfOpenAttempts := 0);
            st := st.(openUntil := None);
            st := Transition(st, Closed, now, "recovered");
          }
        }
      }
      w.value := w.value.(status := w.value.status.(circuitBreaker := Some(st)));
      cur := Some(st.state);
    }

    method AllowRoute(w: WorkloadRef, now: int) returns (ok: bool)
      modifies w
      ensures ok == AllowRouteResult(cfg, old(w.value), now)
      ensures w.value == SyncWorkload(cfg, old(w.value), now)
    {
      if !EnabledFor(w.value, cfg) {
        return w.value.status.phase != Failed;
      }
      var _, _ := SyncFromWorkload(w, now);
      var st := w.value.status.circuitBreaker.value;
      var spec := EffectiveSpecOf(w.value, cfg);
      if st.state == Open {
        return false;
      } else if st.state == HalfOpen {
        return st.halfOpenAttempts < spec.halfOpenMaxRequests;
      }
      if w.value.status.phase == Failed {
        return false;
      }
      if w.value.status.phase == Degraded {
        return !spec.tripOnDegraded;
      }
      return true;
    }

    method RecordRouteAttempt(w: WorkloadRef)
      modifies w
      ensures w.value == RecordAttempt(old(w.value))
    {
      var cb := w.value.status.circuitBreaker;
      if cb == None {
        return;
      }
      if cb.value.state == HalfOpen {
        var st := cb.value.(halfOpenAttempts := Wrap32(cb.value.halfOpenAttempts + 1));
        w.value := w.value.(status := w.value.status.(circuitBreaker := Some(st)));
      }
    }
  }

  // ---------------------------------------------------------------- histories

  /** An observation of the workload; a routed one goes on to record an attempt if routing is allowed. */
  datatype Event = Event(phase: Phase, ready: int32, now: int, routed: bool)

  function Synced(e: EffectiveSpec, st: Option<CircuitBreakerStatus>, ev: Event): CircuitBreakerStatus {
    Step(e, StatusOr(st, ev.now), ev.phase, ev.ready, ev.now)
  }

  /** Whether the event, on a synchronised status, records a half-open probe. */
  predicate Probes(e: EffectiveSpec, st: CircuitBreakerStatus, ev: Event) {
    ev.routed && st.state.HalfOpen? && Allows(e, st, ev.phase)
  }

  function After(e: EffectiveSpec, st: Option<CircuitBreakerStatus>, ev: Event): CircuitBreakerStatus {
    var synced := Synced(e, st, ev);
    if Probes(e, synced, ev) then synced.(halfOpenAttempts := Wrap32(synced.halfOpenAttempts + 1)) else synced
  }

  function Run(e: EffectiveSpec, h: seq<Event>): Option<CircuitBreakerStatus> {
    if h == [] then None else Some(After(e, Run(e, h[..|h| - 1]), h[|h| - 1]))
  }

  // ---------------------------------------------------------------- the counter-free reference breaker

  /** Unhealthy observations since the last Running one. */
  function FailStreak(e: EffectiveSpec, h: seq<Event>): nat {
    if h == [] then 0 else
      var last := h[|h| - 1];
      if last.phase.Running? then 0
      else FailStreak(e, h[..|h| - 1]) + if Unhealthy(e, last.phase) then 1 else 0
  }

  predicate Ready(ev: Event) {
    ev.phase.Running? && ev.ready > 0
  }

  function ReadyCount(h: seq<Event>): nat {
    if h == [] then 0 else ReadyCount(h[..|h| - 1]) + if Ready(h[|h| - 1]) then 1 else 0
  }

  /** A breaker that keeps no counters, only where in the history its present state began. */
  datatype Mode = ClosedSince(start: nat) | OpenSince(start: nat) | HalfOpenSince(start: nat)

  predicate StartsIn(m: Mode, h: seq<Event>) {
    m.start <= |h| && (!m.ClosedSince? ==> m.start < |h|)
  }

  /** The mode after the last event of `h`, given the mode before it. */
  function NextMode(e: EffectiveSpec, h: seq<Event>, before: Mode): (m: Mode)
    requires h != [] && StartsIn(before, h[..|h| - 1])
    ensures StartsIn(m, h)
  {
    var n := |h| - 1;
    var m := if before.OpenSince? && h[n].now >= h[before.start].now + e.Cooldown() then HalfOpenSince(n) else before;
    match m
    case ClosedSince(k) =>
      if Unhealthy(e, h[n].phase) && FailStreak(e, h[k..]) >= e.failureThreshold then OpenSince(n) else m
    case OpenSince(k) => m
    case HalfOpenSince(k) =>
      if Unhealthy(e, h[n].phase) then OpenSince(n)
      else if Ready(h[n]) && ReadyCount(h[k..]) >= e.successThreshold then ClosedSince(n + 1)
      else m
  }

  function ModeOf(e: EffectiveSpec, h: seq<Event>): (m: Mode)
    ensures StartsIn(m, h)
  {
    if h == [] then ClosedSince(0) else NextMode(e, h, ModeOf(e, h[..|h| - 1]))
  }

  /** When the present state began: at the first observation, the recovery, the trip or the first probe. */
  function BeganAt(h: seq<Event>, m: Mode): int
    requires h != [] && StartsIn(m, h)
  {
    if m.ClosedSince? && m.start > 0 then h[m.start - 1].now else h[m.start].now
  }

  /** The status is the summary of the history that the mode describes. */
  ghost predicate Summarizes(e: EffectiveSpec, h: seq<Event>, m: Mode, st: CircuitBreakerStatus)
    requires StartsIn(m, h)
  {
    (h != [] ==> st.lastTransition == BeganAt(h, m)) &&
    match m
    case ClosedSince(k) =>
      && st.state.Closed?
      && st.consecutiveFails == FailStreak(e, h[k..]) < e.failureThreshold
      && (k > 0 ==> h[k - 1].phase.Running?)
    case OpenSince(k) =>
      && st.state.Open?
      && st.openUntil == Some(h[k].now + e.Cooldown())
      && Unhealthy(e, h[k].phase)
      && st.consecutiveOK == 0
    case HalfOpenSince(k) =>
      && st.state.HalfOpen?
      && st.consecutiveOK == ReadyCount(h[k..]) < e.successThreshold
  }

  lemma CountsSnoc(e: EffectiveSpec, h: seq<Event>, k: nat)
    requires k < |h|
    ensures var n := |h| - 1;
            && ReadyCount(h[k..]) == ReadyCount(h[..n][k..]) + (if Ready(h[n]) then 1 else 0)
            && FailStreak(e, h[k..]) == (if h[n].phase.Running? then 0
                                         else FailStreak(e, h[..n][k..]) + if Unhealthy(e, h[n].phase) then 1 else 0)
  {
    var n := |h| - 1;
    assert h[k..][..n - k] == h[..n][k..];
  }

  lemma StepSummarizes(e: EffectiveSpec, h: seq<Event>, m: Mode, st: CircuitBreakerStatus)
    requires e.Positive() && h != [] && StartsIn(m, h[..|h| - 1])
    requires Summarizes(e, h[..|h| - 1], m, st)
    requires |h| == 1 ==> m == ClosedSince(0) && st.lastTransition == h[0].now
    ensures Summarizes(e, h, NextMode(e, h, m), After(e, Some(st), h[|h| - 1]))
  {
    hide FailStreak, ReadyCount, Wrap32;
    var n := |h| - 1;
    CountsSnoc(e, h, m.start);
    CountsSnoc(e, h, n);
    NoEvents(e, h[..n][n..]);
    NoEvents(e, h[n + 1..]);
  }

  lemma NoEvents(e: EffectiveSpec, h: seq<Event>)
    requires |h| == 0
    ensures ReadyCount(h) == 0 && FailStreak(e, h) == 0
  {
  }

  /** The breaker with counters refines the counter-free one over every history. */
  lemma {:induction false} CountersSummarizeHistory(e: EffectiveSpec, h: seq<Event>)
    requires e.Positive()
    ensures h != [] ==> Summarizes(e, h, ModeOf(e, h), Run(e, h).value)
  {
    if h != [] {
      var g := h[..|h| - 1];
      CountersSummarizeHistory(e, g);
      StepSummarizes(e, h, ModeOf(e, g), StatusOr(Run(e, g), h[|h| - 1].now));
    }
  }

  /** While closed, the failure count ignores everything before the last Running observation: the streak of the
      current closed period is the streak of the whole history. */
  lemma {:induction false} StreakForgetsBeforeRunning(e: EffectiveSpec, h: seq<Event>, k: nat)
    requires k <= |h| && (k > 0 ==> h[k - 1].phase.Running?)
    ensures FailStreak(e, h[k..]) == FailStreak(e, h)
  {
    if k == |h| {
      assert h[k..] == [];
    } else if k == 0 {
      assert h[k..] == h;
    } else {
      var n := |h| - 1;
      StreakForgetsBeforeRunning(e, h[..n], k);
      assert h[k..][..n - k] == h[..n][k..];
    }
  }

  /** The exact meaning of the two counters in every reachable state. */
  lemma CounterMeaning(e: EffectiveSpec, h: seq<Event>)
    requires e.Positive() && h != []
    ensures var st := Run(e, h).value;
            && st.lastTransition == BeganAt(h, ModeOf(e, h))
            && (st.state.Closed? ==> st.consecutiveFails == FailStreak(e, h) < e.failureThreshold)
            && (st.state.HalfOpen? ==> ModeOf(e, h).HalfOpenSince?
                                       && st.consecutiveOK == ReadyCount(h[ModeOf(e, h).start..]) < e.successThreshold)
  {
    CountersSummarizeHistory(e, h);
    if Run(e, h).value.state.Closed? {
      StreakForgetsBeforeRunning(e, h, ModeOf(e, h).start);
    }
  }

  lemma ModeStep(e: EffectiveSpec, h: seq<Event>, ev: Event)
    ensures (h + [ev])[..|h|] == h
    ensures ModeOf(e, h + [ev]) == NextMode(e, h + [ev], ModeOf(e, h))
  {
    hide NextMode;
    assert (h + [ev])[..|h|] == h;
  }

  lemma RunIsSome(e: EffectiveSpec, h: seq<Event>)
    ensures Run(e, h).Some? <==> h != []
  {
    hide After;
  }

  /** Each transition fires exactly when the history reaches a threshold, a failed probe or the end of the cooldown. */
  lemma TransitionsAreExact(e: EffectiveSpec, h: seq<Event>, ev: Event)
    requires e.Positive() && h != []
    ensures var before, after, m, g := Run(e, h).value, Run(e, h + [ev]).value, ModeOf(e, h), h + [ev];
            && (before.state.Closed? ==>
                  (after.state.Open? <==> Unhealthy(e, ev.phase) && FailStreak(e, g) == e.failureThreshold))
            && (before.state.HalfOpen? ==>
                  && (after.state.Open? <==> Unhealthy(e, ev.phase))
                  && (after.state.Closed? <==> Ready(ev) && ReadyCount(g[m.start..]) == e.successThreshold))
            && (before.state.Open? <==> m.OpenSince?)
            && (m.OpenSince? ==>
                  (ModeOf(e, g) == m <==> ev.now < h[m.start].now + e.Cooldown()))
  {
    hide Run, ModeOf, FailStreak, ReadyCount;
    var g := h + [ev];
    assert g[..|h|] == h && g[|h|] == ev;
    var m := ModeOf(e, h);
    ModeStep(e, h, ev);
    RunIsSome(e, h);
    RunIsSome(e, g);
    CountersSummarizeHistory(e, h);
    CountersSummarizeHistory(e, g);
    CountsSnoc(e, g, m.start);
    if m.ClosedSince? {
      StreakForgetsBeforeRunning(e, g, m.start);
    }
  }

  // ---------------------------------------------------------------- blackout

  /** An event together with the effective spec in force when it happened: specs may be edited between events. */
  datatype Observed = Observed(spec: EffectiveSpec, event: Event)

  function RunAll(st: Option<CircuitBreakerStatus>, os: seq<Observed>): Option<CircuitBreakerStatus> {
    if os == [] then st else
      var last := os[|os| - 1];
      Some(After(last.spec, RunAll(st, os[..|os| - 1]), last.event))
  }

  predicate StaysOpen(st: CircuitBreakerStatus, now: int) {
    st.state.Open? && !(st.openUntil.Some? && now >= st.openUntil.value)
  }

  /** The event opens the breaker: a trip from closed or a failed probe, not a wait inside a cooldown. */
  predicate Trips(e: EffectiveSpec, st: Option<CircuitBreakerStatus>, ev: Event) {
    After(e, st, ev).state.Open? && !(st.Some? && StaysOpen(st.value, ev.now))
  }

  lemma TripSetsDeadline(e: EffectiveSpec, st: Option<CircuitBreakerStatus>, ev: Event)
    requires Trips(e, st, ev)
    ensures After(e, st, ev).openUntil == Some(ev.now + e.Cooldown()) && Unhealthy(e, ev.phase)
  {
    hide Wrap32;
  }

  /** What a change of state leaves behind: the reason, the time, and the counters that start anew. */
  lemma TransitionLooks(e: EffectiveSpec, st: Option<CircuitBreakerStatus>, ev: Event)
    requires !ev.routed
    ensures var before, after := StatusOr(st, ev.now), After(e, st, ev);
            && (Trips(e, st, ev) ==>
                  && after.lastTransition == ev.now && after.consecutiveOK == 0
                  && after.consecutiveFails == Wrap32(before.consecutiveFails + 1)
                  && after.halfOpenAttempts == before.halfOpenAttempts
                  && after.message == if before.state.Closed? then "failure threshold exceeded" else "probe failed")
            && (before.state.Open? && after.state.HalfOpen? ==>
                  after.lastTransition == ev.now && after.message == "cooldown elapsed, probing")
            && (!before.state.Closed? && after.state.Closed? ==>
                  && after.lastTransition == ev.now && after.message == "recovered" && after.openUntil.None?
                  && after.consecutiveFails == 0 && after.halfOpenAttempts == 0)
  {
    hide Wrap32;
  }

  /** Inside the cooldown the status does not change and routing is refused, under any spec. */
  lemma OpenHolds(e: EffectiveSpec, st: CircuitBreakerStatus, ev: Event)
    requires st.state.Open? && st.openUntil.Some? && ev.now < st.openUntil.value
    ensures After(e, Some(st), ev) == st && !Allows(e, Synced(e, Some(st), ev), ev.phase)
  {
    hide Wrap32;
  }

  /** After a trip at time t, every event before t plus the cooldown of the tripping spec finds the status frozen and
      routing refused, whatever is observed and however the spec is edited meanwhile. */
  lemma {:induction false} Blackout(st: Option<CircuitBreakerStatus>, os: seq<Observed>, i: nat, j: nat)
    requires i < j < |os| && Trips(os[i].spec, RunAll(st, os[..i]), os[i].event)
    requires forall k :: i < k <= j ==> os[k].event.now < os[i].event.now + os[i].spec.Cooldown()
    ensures RunAll(st, os[..j + 1]) == RunAll(st, os[..i + 1])
    ensures RunAll(st, os[..j + 1]).value.state.Open?
    ensures !Allows(os[j].spec, Synced(os[j].spec, RunAll(st, os[..j]), os[j].event), os[j].event.phase)
  {
    hide After, Synced, Allows;
    if i + 1 < j {
      Blackout(st, os, i, j - 1);
    }
    assert os[..i + 1][..i] == os[..i] && os[..j + 1][..j] == os[..j];
    TripSetsDeadline(os[i].spec, RunAll(st, os[..i]), os[i].event);
    OpenHolds(os[j].spec, RunAll(st, os[..j]).value, os[j].event);
  }

  /** Under one spec, tripping is what the counter-free breaker calls opening at that event. */
  lemma TripsAreOpenings(e: EffectiveSpec, h: seq<Event>, ev: Event)
    requires e.Positive()
    ensures Trips(e, Run(e, h), ev) <==> ModeOf(e, h + [ev]) == OpenSince(|h|)
  {
    hide Run, ModeOf, FailStreak, ReadyCount, After, BeganAt;
    var g := h + [ev];
    ModeStep(e, h, ev);
    RunStep(e, h, ev);
    RunIsSome(e, h);
    CountersSummarizeHistory(e, h);
    CountersSummarizeHistory(e, g);
    assert g[|h|] == ev && forall k :: 0 <= k < |h| ==> g[k] == h[k];
    if h == [] {
      EmptyMode(e);
    }
  }

  lemma EmptyMode(e: EffectiveSpec)
    ensures ModeOf(e, []) == ClosedSince(0) && Run(e, []) == None
  {
  }

  /** A run whose spec never changes is a history under that spec. */
  lemma {:induction false} UniformRun(e: EffectiveSpec, os: seq<Observed>)
    requires forall i :: 0 <= i < |os| ==> os[i].spec == e
    ensures RunAll(None, os) == Run(e, EventsOf(os))
  {
    hide After;
    if os != [] {
      var n := |os| - 1;
      UniformRun(e, os[..n]);
      assert EventsOf(os)[..n] == EventsOf(os[..n]);
    }
  }

  function EventsOf(os: seq<Observed>): (h: seq<Event>)
    ensures |h| == |os| && forall i :: 0 <= i < |os| ==> h[i] == os[i].event
  {
    seq(|os|, i requires 0 <= i < |os| => os[i].event)
  }

  // ---------------------------------------------------------------- probe budget

  function Attempts(st: Option<CircuitBreakerStatus>): int {
    if st.Some? then st.value.halfOpenAttempts else 0
  }

  lemma AttemptsStayBounded(e: EffectiveSpec, st: Option<CircuitBreakerStatus>, ev: Event)
    requires 0 <= Attempts(st) <= e.halfOpenMaxRequests
    requires st.Some? && st.value.state.Closed? ==> Attempts(st) == 0
    ensures 0 <= After(e, st, ev).halfOpenAttempts <= e.halfOpenMaxRequests
    ensures After(e, st, ev).state.Closed? ==> After(e, st, ev).halfOpenAttempts == 0
  {
    hide Wrap32;
  }

  lemma {:induction false} AttemptsBounded(e: EffectiveSpec, h: seq<Event>)
    requires e.Positive()
    ensures 0 <= Attempts(Run(e, h)) <= e.halfOpenMaxRequests
    ensures h != [] && Run(e, h).value.state.Closed? ==> Attempts(Run(e, h)) == 0
  {
    hide After;
    if h != [] {
      var g := h[..|h| - 1];
      AttemptsBounded(e, g);
      AttemptsStayBounded(e, Run(e, g), h[|h| - 1]);
    }
  }

  /** Half-open probes recorded by the events from position `i` on. */
  function ProbeCount(e: EffectiveSpec, h: seq<Event>, i: nat): nat {
    if |h| <= i then 0 else
      var g := h[..|h| - 1];
      ProbeCount(e, g, i) + if Probes(e, Synced(e, Run(e, g), h[|h| - 1]), h[|h| - 1]) then 1 else 0
  }

  ghost predicate NeverClosedFrom(e: EffectiveSpec, h: seq<Event>, i: nat) {
    forall k :: i < k <= |h| ==> !Run(e, h[..k]).value.state.Closed?
  }

  lemma AttemptsStep(e: EffectiveSpec, st: Option<CircuitBreakerStatus>, ev: Event)
    requires 0 <= Attempts(st) <= e.halfOpenMaxRequests
    requires !After(e, st, ev).state.Closed?
    ensures After(e, st, ev).halfOpenAttempts == Attempts(st) + if Probes(e, Synced(e, st, ev), ev) then 1 else 0
  {
    hide Wrap32;
  }

  /** Over any number of open and half-open rounds without a recovery, the probes stay within one budget. */
  lemma {:induction false} ProbeBudget(e: EffectiveSpec, h: seq<Event>, i: nat)
    requires e.Positive() && i <= |h| && NeverClosedFrom(e, h, i)
    ensures ProbeCount(e, h, i) == Attempts(Run(e, h)) - Attempts(Run(e, h[..i]))
    ensures ProbeCount(e, h, i) <= e.halfOpenMaxRequests
  {
    hide After, Synced, Probes;
    AttemptsBounded(e, h);
    AttemptsBounded(e, h[..i]);
    if i == |h| {
      assert h[..i] == h;
    } else {
      var g := h[..|h| - 1];
      assert h[..|h|] == h;
      assert forall k :: 0 <= k <= |g| ==> g[..k] == h[..k];
      ProbeBudget(e, g, i);
      AttemptsBounded(e, g);
      AttemptsStep(e, Run(e, g), h[|h| - 1]);
    }
  }

  /** Position `i` of the history is the start of the current outage: the breaker was fresh or closed there and has not
      been closed since. */
  ghost predicate OutageStart(e: EffectiveSpec, h: seq<Event>, i: nat) {
    i <= |h| && NeverClosedFrom(e, h, i) && (i > 0 ==> Run(e, h[..i]).value.state.Closed?)
  }

  /** When routing is allowed, in terms of the history alone: closed and not unhealthy, or half-open with fewer probes
      since the outage began than the budget. */
  lemma RoutingIsExact(e: EffectiveSpec, h: seq<Event>, ev: Event, i: nat)
    requires e.Positive() && OutageStart(e, h, i)
    ensures Allows(e, Synced(e, Run(e, h), ev), ev.phase) <==>
            match ModeOf(e, h + [ev])
            case ClosedSince(_) => !Unhealthy(e, ev.phase)
            case OpenSince(_) => false
            case HalfOpenSince(_) => ProbeCount(e, h, i) < e.halfOpenMaxRequests
  {
    hide ProbeCount, ModeOf, Step, Run;
    var g := h + [ev];
    assert g[..|h|] == h && g[|h|] == ev;
    RunStep(e, h, ev);
    CountersSummarizeHistory(e, g);
    ProbeBudget(e, h, i);
    AttemptsBounded(e, h[..i]);
    NoAttemptsAtStart(e, h, i);
    SyncKeepsAttempts(e, Run(e, h), ev);
  }

  lemma RunStep(e: EffectiveSpec, h: seq<Event>, ev: Event)
    ensures Run(e, h + [ev]) == Some(After(e, Run(e, h), ev))
  {
    hide After;
    assert (h + [ev])[..|h|] == h;
  }

  lemma NoAttemptsAtStart(e: EffectiveSpec, h: seq<Event>, i: nat)
    requires e.Positive() && OutageStart(e, h, i)
    ensures Attempts(Run(e, h[..i])) == 0
  {
    hide After;
    AttemptsBounded(e, h[..i]);
  }

  lemma SyncKeepsAttempts(e: EffectiveSpec, st: Option<CircuitBreakerStatus>, ev: Event)
    ensures Synced(e, st, ev).state.HalfOpen? ==> Synced(e, st, ev).halfOpenAttempts == Attempts(st)
  {
    hide Wrap32;
  }

  // ---------------------------------------------------------------- the configured fields decide

  /** An observed phase and readiness at a time. */
  datatype Sighting = Sighting(phase: Phase, ready: int32, now: int)

  function Sighted(w: Workload, o: Sighting): Workload {
    w.(status := w.status.(phase := o.phase, readyReplicas := o.ready))
  }

  /** The workload after it has been synchronised at every sighting. */
  function SyncAll(cfg: Config, w: Workload, os: seq<Sighting>): Workload {
    if os == [] then w else
      var o := os[|os| - 1];
      SyncWorkload(cfg, Sighted(SyncAll(cfg, w, os[..|os| - 1]), o), o.now)
  }

  /** The workload's own setting where positive, else the configured one, else the built-in one. */
  function Setting(own: Option<int32>, configured: int32, builtIn: int32): (r: int32)
    requires builtIn > 0
    ensures r > 0
  {
    if own.Some? && own.value > 0 then own.value else if configured > 0 then configured else builtIn
  }

  function Own(w: Workload, field: CircuitBreakerSpec -> int32): Option<int32> {
    if w.spec.circuitBreaker.None? then None else Some(field(w.spec.circuitBreaker.value))
  }

  function FailuresToOpen(w: Workload, cfg: Config): (n: int32)
    ensures n > 0
  {
    Setting(Own(w, (c: CircuitBreakerSpec) => c.failureThreshold), cfg.failureThreshold, 3)
  }

  function SuccessesToClose(w: Workload, cfg: Config): (n: int32)
    ensures n > 0
  {
    Setting(Own(w, (c: CircuitBreakerSpec) => c.successThreshold), cfg.successThreshold, 2)
  }

  function SecondsOpen(w: Workload, cfg: Config): (n: int32)
    ensures n > 0
  {
    Setting(Own(w, (c: CircuitBreakerSpec) => c.openDurationSeconds), cfg.openDurationSeconds, 60)
  }

  function ProbesAllowed(w: Workload, cfg: Config): (n: int32)
    ensures n > 0
  {
    Setting(Own(w, (c: CircuitBreakerSpec) => c.halfOpenMaxRequests), cfg.halfOpenMaxRequests, 1)
  }

  /** The breaker applies: switched on for the workload or for all. */
  predicate SwitchedOn(w: Workload, cfg: Config) {
    cfg.enabled || (w.spec.circuitBreaker.Some? && w.spec.circuitBreaker.value.enabled)
  }

  /** A phase that counts as a failure: failed, or degraded unless the workload says otherwise. */
  predicate CountsAsFailure(w: Workload, phase: Phase) {
    || phase == Failed
    || (phase == Degraded && (w.spec.circuitBreaker.None? || w.spec.circuitBreaker.value.tripOnDegraded != Some(false)))
  }

  /** What the engine made of the configuration, field by field. */
  lemma SettingsApply(w: Workload, cfg: Config)
    ensures var e := EffectiveSpecOf(w, NewConfig(cfg));
            && e.failureThreshold == FailuresToOpen(w, cfg) && e.successThreshold == SuccessesToClose(w, cfg)
            && e.Cooldown() == SecondsOpen(w, cfg) * 1_000_000_000 && e.halfOpenMaxRequests == ProbesAllowed(w, cfg)
            && EnabledFor(w, NewConfig(cfg)) == SwitchedOn(w, cfg)
            && forall phase :: Unhealthy(e, phase) <==> CountsAsFailure(w, phase)
  {
  }

  lemma {:induction false} SyncAllFrame(cfg: Config, w: Workload, os: seq<Sighting>)
    ensures SyncAll(cfg, w, os).spec == w.spec
  {
    hide Step;
    if os != [] {
      SyncAllFrame(cfg, w, os[..|os| - 1]);
    }
  }

  lemma SyncStep(cfg: Config, w: Workload, os: seq<Sighting>)
    requires os != [] && EnabledFor(w, cfg)
    ensures var o, before := os[|os| - 1], SyncAll(cfg, w, os[..|os| - 1]).status.circuitBreaker;
            SyncAll(cfg, w, os).status.circuitBreaker
            == Some(Step(EffectiveSpecOf(w, cfg), StatusOr(before, o.now), o.phase, o.ready, o.now))
  {
    hide Step, EffectiveSpecOf;
    SyncAllFrame(cfg, w, os[..|os| - 1]);
    SpecDecides(Sighted(SyncAll(cfg, w, os[..|os| - 1]), os[|os| - 1]), w, cfg);
  }

  lemma SpecDecides(a: Workload, b: Workload, cfg: Config)
    requires a.spec == b.spec
    ensures EffectiveSpecOf(a, cfg) == EffectiveSpecOf(b, cfg) && EnabledFor(a, cfg) == EnabledFor(b, cfg)
  {
  }

  /** From a fresh status, under failures only, the breaker is open exactly from as many failures on as the settings
      demand, whatever the clock; it then opens for the seconds that the settings demand. */
  lemma {:induction false} OpensExactlyAtThreshold(cfg: Config, w: Workload, os: seq<Sighting>)
    requires SwitchedOn(w, cfg) && w.status.circuitBreaker.None? && os != []
    requires forall i :: 0 <= i < |os| ==> CountsAsFailure(w, os[i].phase)
    ensures var st := SyncAll(NewConfig(cfg), w, os).status.circuitBreaker;
            && st.Some? && (st.value.state.Open? <==> |os| >= FailuresToOpen(w, cfg))
            && (|os| < FailuresToOpen(w, cfg) ==> st.value.state.Closed? && st.value.consecutiveFails == |os|)
            && (|os| == FailuresToOpen(w, cfg) ==>
                  st.value.openUntil == Some(os[|os| - 1].now + SecondsOpen(w, cfg) * 1_000_000_000))
            && (|os| >= FailuresToOpen(w, cfg) ==> st.value.consecutiveOK == 0 && st.value.openUntil.Some?)
            && st.value.halfOpenAttempts == 0
  {
    hide EffectiveSpecOf, FailuresToOpen, SecondsOpen, NewConfig, SyncAll, Wrap32, EnabledFor, CountsAsFailure;
    SettingsApply(w, cfg);
    SyncStep(NewConfig(cfg), w, os);
    if |os| == 1 {
      assert SyncAll(NewConfig(cfg), w, os[..0]) == w by {
        NoSightings(NewConfig(cfg), w, os[..0]);
      }
    } else {
      OpensExactlyAtThreshold(cfg, w, os[..|os| - 1]);
    }
  }

  lemma NoSightings(cfg: Config, w: Workload, os: seq<Sighting>)
    requires os == []
    ensures SyncAll(cfg, w, os) == w
  {
  }

  /** Phases that do not count as failures never open a breaker that is fresh. */
  lemma {:induction false} OthersNeverOpen(cfg: Config, w: Workload, os: seq<Sighting>)
    requires w.status.circuitBreaker.None?
    requires forall i :: 0 <= i < |os| ==> !CountsAsFailure(w, os[i].phase)
    ensures var st := SyncAll(NewConfig(cfg), w, os).status.circuitBreaker;
            st.Some? ==> SwitchedOn(w, cfg) && st.value.state.Closed? && st.value.consecutiveFails == 0
  {
    hide EffectiveSpecOf, NewConfig, Wrap32, CountsAsFailure;
    if os != [] {
      var n := |os| - 1;
      OthersNeverOpen(cfg, w, os[..n]);
      SyncAllFrame(NewConfig(cfg), w, os[..n]);
      SettingsApply(w, cfg);
      SpecDecides(Sighted(SyncAll(NewConfig(cfg), w, os[..n]), os[n]), w, NewConfig(cfg));
    }
  }

  /** After the cooldown, under ready sightings only, the breaker is closed exactly from as many of them on as the
      settings demand, and half-open before. */
  lemma {:induction false} ClosesExactlyAtThreshold(cfg: Config, w: Workload, os: seq<Sighting>)
    requires SwitchedOn(w, cfg) && w.status.circuitBreaker.Some? && os != []
    requires var st := w.status.circuitBreaker.value;
             && st.state.Open? && st.consecutiveOK == 0 && st.openUntil.Some?
             && forall i :: 0 <= i < |os| ==>
                  os[i].phase == Running && os[i].ready > 0 && os[i].now >= st.openUntil.value
    ensures var st := SyncAll(NewConfig(cfg), w, os).status.circuitBreaker;
            && st.Some? && (st.value.state.Closed? <==> |os| >= SuccessesToClose(w, cfg))
            && (|os| < SuccessesToClose(w, cfg) ==> st.value.state.HalfOpen? && st.value.consecutiveOK == |os|)
  {
    hide EffectiveSpecOf, SuccessesToClose, NewConfig, SyncAll, Wrap32, EnabledFor;
    SettingsApply(w, cfg);
    SyncStep(NewConfig(cfg), w, os);
    if |os| == 1 {
      assert SyncAll(NewConfig(cfg), w, os[..0]) == w by {
        NoSightings(NewConfig(cfg), w, os[..0]);
      }
    } else {
      ClosesExactlyAtThreshold(cfg, w, os[..|os| - 1]);
    }
  }

  /** Asking for a route at every sighting, recording an attempt where it is allowed, and counting those. */
  function RouteAll(cfg: Config, w: Workload, os: seq<Sighting>): (Workload, nat) {
    if os == [] then (w, 0) else
      var o, (before, n) := os[|os| - 1], RouteAll(cfg, w, os[..|os| - 1]);
      var seen := Sighted(before, o);
      var synced := SyncWorkload(cfg, seen, o.now);
      if AllowRouteResult(cfg, seen, o.now) then (RecordAttempt(synced), n + 1) else (synced, n)
  }

  /** After the cooldown, while the workload is neither failing nor ready, exactly as many routes are allowed as the
      settings grant probes. */
  lemma {:induction false} ProbesAreGrantedExactly(cfg: Config, w: Workload, os: seq<Sighting>)
    requires SwitchedOn(w, cfg) && w.status.circuitBreaker.Some?
    requires var st := w.status.circuitBreaker.value;
             && st.state.Open? && st.openUntil.Some? && st.halfOpenAttempts == 0
             && forall i :: 0 <= i < |os| ==> os[i].phase == Pending && os[i].now >= st.openUntil.value
    ensures var (w', n) := RouteAll(NewConfig(cfg), w, os);
            && n == (if |os| < ProbesAllowed(w, cfg) then |os| else ProbesAllowed(w, cfg))
            && w'.spec == w.spec && w'.status.circuitBreaker.Some?
            && var st := w'.status.circuitBreaker.value;
               && st.halfOpenAttempts == n
               && (if os == [] then st == w.status.circuitBreaker.value else st.state.HalfOpen?)
  {
    hide EffectiveSpecOf, ProbesAllowed, NewConfig, Wrap32;
    if os != [] {
      var k := |os| - 1;
      ProbesAreGrantedExactly(cfg, w, os[..k]);
      SettingsApply(w, cfg);
      SpecDecides(Sighted(RouteAll(NewConfig(cfg), w, os[..k]).0, os[k]), w, NewConfig(cfg));
    }
  }

  /** A workload without a breaker is routed unless it has failed, and its status is left alone. */
  lemma SwitchedOffRoutes(cfg: Config, w: Workload, now: int)
    requires !SwitchedOn(w, cfg)
    ensures AllowRouteResult(NewConfig(cfg), w, now) <==> w.status.phase != Failed
    ensures SyncWorkload(NewConfig(cfg), w, now) == w
  {
    SettingsApply(w, cfg);
  }
}
