/** Whole runs of reconcile passes over any of the stored workloads. */
module ReconcileRuns {
  import opened Types
  import opened Reconciler
  import CB = CircuitBreaker
  import WS = WarmStandby
  import SR = SecretRotation

  // ---------------------------------------------------------------- runs of passes

  /** What a pass over the workload `target` finds. Between passes the stored workloads may change in any way; the
      breaker status of the workload that a run is about changes only when the workload is replaced as a whole. */
  datatype Round = Round(store: Workloads, target: string, inputs: Inputs, replaced: bool)

  ghost predicate RoundFor(d: Deps, x: string, r: Round) {
    && x in r.store && r.store[x].id == x && r.target in r.store && r.store[r.target].id == r.target
    && d.circuit.Some? && (r.target == x ==> CB.EnabledFor(r.store[x], d.circuit.value))
  }

  /** Passes over any workloads, with the breaker of `x` enabled in those over `x`. */
  ghost predicate RoundsFor(d: Deps, x: string, rs: seq<Round>) {
    forall k :: 0 <= k < |rs| ==> RoundFor(d, x, rs[k])
  }

  function StatusSeen(st: Option<CircuitBreakerStatus>, r: Round, x: string): Option<CircuitBreakerStatus>
    requires x in r.store
  {
    if r.replaced then r.store[x].status.circuitBreaker else st
  }

  function Seen(st: Option<CircuitBreakerStatus>, r: Round, x: string): Workloads
    requires x in r.store
  {
    r.store[x := r.store[x].(status := r.store[x].status.(circuitBreaker := StatusSeen(st, r, x)))]
  }

  /** The breaker status of `x` after a run of passes that starts with `st`. */
  ghost function RunRounds(d: Deps, x: string, st: Option<CircuitBreakerStatus>, rs: seq<Round>)
    : Option<CircuitBreakerStatus>
    requires RoundsFor(d, x, rs)
  {
    if rs == [] then st else
      var n := |rs| - 1;
      assert RoundFor(d, x, rs[n]);
      Pass(d, Seen(RunRounds(d, x, st, rs[..n]), rs[n], x), rs[n].target, rs[n].inputs).s[x].status.circuitBreaker
  }

  /** The store that pass `k` of the run finds. */
  ghost function FoundAt(d: Deps, x: string, st: Option<CircuitBreakerStatus>, rs: seq<Round>, k: nat)
    : (s: Workloads)
    requires RoundsFor(d, x, rs) && k < |rs|
    ensures x in s && s[x] == rs[k].store[x].(status := s[x].status) && s[x].id == x
    ensures s[x].status == rs[k].store[x].status.(circuitBreaker := s[x].status.circuitBreaker)
    ensures s[x].status.circuitBreaker == StatusSeen(RunRounds(d, x, st, rs[..k]), rs[k], x)
    ensures rs[k].target in s && s[rs[k].target].id == rs[k].target
    ensures rs[k].target != x ==> s[rs[k].target] == rs[k].store[rs[k].target]
    ensures d.circuit.Some? && (rs[k].target == x ==> CB.EnabledFor(s[x], d.circuit.value))
    ensures CB.EffectiveSpecOf(s[x], d.circuit.value) == CB.EffectiveSpecOf(rs[k].store[x], d.circuit.value)
  {
    assert RoundFor(d, x, rs[k]);
    Seen(RunRounds(d, x, st, rs[..k]), rs[k], x)
  }

  /** Pass `k` of the run. */
  ghost function PassAt(d: Deps, x: string, st: Option<CircuitBreakerStatus>, rs: seq<Round>, k: nat): (o: Outcome)
    requires RoundsFor(d, x, rs) && k < |rs|
    ensures x in o.s
  {
    Pass(d, FoundAt(d, x, st, rs, k), rs[k].target, rs[k].inputs)
  }

  lemma RunRoundsStep(d: Deps, x: string, st: Option<CircuitBreakerStatus>, rs: seq<Round>, k: nat)
    requires RoundsFor(d, x, rs) && k < |rs|
    ensures RunRounds(d, x, st, rs[..k + 1]) == PassAt(d, x, st, rs, k).s[x].status.circuitBreaker
  {
    hide Pass;
    assert rs[..k + 1][..k] == rs[..k];
  }

  /** The pass is not over `x`, or comes before the deadline; and `x` was not replaced before it. */
  ghost predicate BeforeDeadline(r: Round, x: string, deadline: int) {
    !r.replaced && (r.target == x ==> r.inputs.now < deadline)
  }

  /** After a pass that opens the breaker of `x`, until its deadline, no pass over any workload changes the breaker
      status, and one reaches the runtime of `x`, or deploys it, exactly when it does so without asking the breaker:
      whatever runtimes report, however specs are edited and whatever other workloads do meanwhile. */
  lemma {:induction false} BlackoutCoversPasses(d: Deps, x: string, st: Option<CircuitBreakerStatus>, rs: seq<Round>,
                                                m: nat, k: nat, deadline: int)
    requires RoundsFor(d, x, rs) && m < k < |rs| && d.circuit.Some? && d.circuit.value.Normalized()
    requires rs[m].target == x && TripsIn(d, FoundAt(d, x, st, rs, m), x, rs[m].inputs)
    requires deadline == rs[m].inputs.now + CB.EffectiveSpecOf(rs[m].store[x], d.circuit.value).Cooldown()
    requires forall j :: m < j <= k ==> BeforeDeadline(rs[j], x, deadline)
    ensures RunRounds(d, x, st, rs[..k + 1]) == RunRounds(d, x, st, rs[..m + 1])
    ensures var s, o := FoundAt(d, x, st, rs, k), PassAt(d, x, st, rs, k);
            && (Reaches(o.effects, x) <==> ReachesAnyway(d, s, rs[k].target, x, rs[k].inputs))
            && (Deploys(o.effects, x) <==> DeploysAnyway(d, s, rs[k].target, x, rs[k].inputs))
  {
    hide Pass, ReachesAnyway, DeploysAnyway, CB.EffectiveSpecOf, CB.EnabledFor, RoundsFor, RunRounds, FoundAt, Gated,
         Reaches, Deploys;
    if m + 1 < k {
      BlackoutCoversPasses(d, x, st, rs, m, k - 1, deadline);
    }
    RunRoundsStep(d, x, st, rs, m);
    TripDeadline(d, FoundAt(d, x, st, rs, m), x, rs[m].inputs);
    RunRoundsStep(d, x, st, rs, k);
    AnyPassInCooldown(d, FoundAt(d, x, st, rs, k), rs[k].target, x, rs[k].inputs);
  }

  // ---------------------------------------------------------------- runs are breaker histories

  ghost predicate OtherFor(r: Round, x: string) {
    x in r.store && (r.target == x ==> HasOtherStandby(r.store[x]))
  }

  /** Passes over any workloads, none of which finds `x` to be its own standby. */
  ghost predicate OthersFor(d: Deps, x: string, rs: seq<Round>) {
    RoundsFor(d, x, rs) && forall k :: 0 <= k < |rs| ==> OtherFor(rs[k], x)
  }

  /** What pass `k` observes of `x`: nothing, unless it is a pass over `x`. */
  ghost function ObservedAt(d: Deps, x: string, st: Option<CircuitBreakerStatus>, rs: seq<Round>, k: nat)
    : seq<CB.Observed>
    requires RoundsFor(d, x, rs) && k < |rs|
  {
    if rs[k].target == x then ObservedIn(d, FoundAt(d, x, st, rs, k), x, rs[k].inputs) else []
  }

  /** A breaker status and the observations made since. */
  datatype Past = Past(start: Option<CircuitBreakerStatus>, history: seq<CB.Observed>)

  /** What a run leaves to be remembered: replacing the workload forgets everything that came before. */
  ghost function PastOf(d: Deps, x: string, st: Option<CircuitBreakerStatus>, rs: seq<Round>): Past
    requires RoundsFor(d, x, rs)
  {
    if rs == [] then Past(st, []) else
      var n := |rs| - 1;
      assert RoundFor(d, x, rs[n]);
      var p := if rs[n].replaced then Past(rs[n].store[x].status.circuitBreaker, []) else PastOf(d, x, st, rs[..n]);
      Past(p.start, p.history + ObservedAt(d, x, st, rs, n))
  }

  lemma {:induction false} RunAllConcat(st: Option<CircuitBreakerStatus>, a: seq<CB.Observed>, b: seq<CB.Observed>)
    ensures CB.RunAll(st, a + b) == CB.RunAll(CB.RunAll(st, a), b)
    decreases |b|
  {
    hide CB.After;
    if b == [] {
      assert a + b == a;
    } else {
      var n := |b| - 1;
      RunAllConcat(st, a, b[..n]);
      assert (a + b)[..|a + b| - 1] == a + b[..n];
    }
  }

  lemma FoundHasOther(d: Deps, x: string, st: Option<CircuitBreakerStatus>, rs: seq<Round>, k: nat)
    requires OthersFor(d, x, rs) && k < |rs| && rs[k].target == x
    ensures HasOtherStandby(FoundAt(d, x, st, rs, k)[x])
  {
    hide RunRounds, RoundFor;
    assert OtherFor(rs[k], x);
    IDsOf(FoundAt(d, x, st, rs, k)[x], rs[k].store[x]);
  }

  /** A pass acts on the breaker of `x` as what it observes of `x` does. */
  lemma PassAtIsHistory(d: Deps, x: string, st: Option<CircuitBreakerStatus>, rs: seq<Round>, k: nat)
    requires OthersFor(d, x, rs) && k < |rs|
    ensures PassAt(d, x, st, rs, k).s[x].status.circuitBreaker
            == CB.RunAll(FoundAt(d, x, st, rs, k)[x].status.circuitBreaker, ObservedAt(d, x, st, rs, k))
  {
    hide Pass, FoundAt, CB.EnabledFor, CB.EffectiveSpecOf, HasOtherStandby, ObservedIn, CB.After;
    var s := FoundAt(d, x, st, rs, k);
    if rs[k].target == x {
      FoundHasOther(d, x, st, rs, k);
      PassIsHistory(d, s, x, rs[k].inputs);
    } else {
      PassAtOther(d, s, rs[k].target, x, rs[k].inputs);
    }
  }

  /** Over any run of passes on workloads that are not their own standby, the breaker is where the history since the
      last replacement puts it, so every law of breaker histories is a law of reconcile runs. */
  lemma {:induction false} RoundsAreHistory(d: Deps, x: string, st: Option<CircuitBreakerStatus>, rs: seq<Round>)
    requires OthersFor(d, x, rs)
    ensures RunRounds(d, x, st, rs) == CB.RunAll(PastOf(d, x, st, rs).start, PastOf(d, x, st, rs).history)
  {
    hide Pass, CB.After, RoundFor, HasOtherStandby, ObservedAt, FoundAt, PassAt;
    if rs != [] {
      var n := |rs| - 1;
      RoundsAreHistory(d, x, st, rs[..n]);
      assert rs[..n + 1] == rs;
      RunRoundsStep(d, x, st, rs, n);
      PassAtIsHistory(d, x, st, rs, n);
      var p := PastOf(d, x, st, rs[..n]);
      RunAllConcat(p.start, p.history, ObservedAt(d, x, st, rs, n));
      assert rs[n].replaced ==> [] + ObservedAt(d, x, st, rs, n) == ObservedAt(d, x, st, rs, n);
    }
  }

  // ---------------------------------------------------------------- the probe budget covers passes

  ghost predicate UniformRound(d: Deps, x: string, e: CB.EffectiveSpec, r: Round) {
    && x in r.store && d.circuit.Some? && !r.replaced
    && (r.target == x ==> CB.EffectiveSpecOf(r.store[x], d.circuit.value) == e)
  }

  /** Passes over any workloads; in those over `x` it is not its own standby and has always the same effective spec. */
  ghost predicate UniformFor(d: Deps, x: string, e: CB.EffectiveSpec, rs: seq<Round>) {
    OthersFor(d, x, rs) && forall k :: 0 <= k < |rs| ==> UniformRound(d, x, e, rs[k])
  }

  /** The events of a run that starts without breaker status. */
  ghost function EventsOf(d: Deps, x: string, rs: seq<Round>): seq<CB.Event>
    requires RoundsFor(d, x, rs)
  {
    CB.EventsOf(PastOf(d, x, None, rs).history)
  }

  /** The events of the last pass. */
  ghost function LastEvents(d: Deps, x: string, rs: seq<Round>): seq<CB.Event>
    requires RoundsFor(d, x, rs) && rs != []
  {
    CB.EventsOf(ObservedAt(d, x, None, rs, |rs| - 1))
  }

  lemma EventsSnoc(d: Deps, x: string, rs: seq<Round>)
    requires RoundsFor(d, x, rs) && rs != [] && !rs[|rs| - 1].replaced
    ensures EventsOf(d, x, rs) == EventsOf(d, x, rs[..|rs| - 1]) + LastEvents(d, x, rs)
    ensures |LastEvents(d, x, rs)| <= 2
  {
    hide FoundAt, Gated, CB.EffectiveSpecOf, RoundFor;
  }

  lemma {:induction false} PastIsUniform(d: Deps, x: string, e: CB.EffectiveSpec, rs: seq<Round>)
    requires UniformFor(d, x, e, rs)
    ensures var p := PastOf(d, x, None, rs);
            p.start.None? && forall j :: 0 <= j < |p.history| ==> p.history[j].spec == e
  {
    hide FoundAt, Gated, CB.EffectiveSpecOf, HasOtherStandby, CB.EnabledFor, RunRounds;
    if rs != [] {
      var n := |rs| - 1;
      PastIsUniform(d, x, e, rs[..n]);
      assert UniformRound(d, x, e, rs[n]);
    }
  }

  lemma UniformRounds(d: Deps, x: string, e: CB.EffectiveSpec, rs: seq<Round>)
    requires UniformFor(d, x, e, rs)
    ensures RunRounds(d, x, None, rs) == CB.Run(e, EventsOf(d, x, rs))
  {
    hide RunRounds, PastOf, CB.RunAll, CB.Run, RoundsFor, OtherFor, UniformRound;
    RoundsAreHistory(d, x, None, rs);
    PastIsUniform(d, x, e, rs);
    CB.UniformRun(e, PastOf(d, x, None, rs).history);
  }

  /** A pass over `x` that deploys it in its rollout ends with a routed event that the breaker allows. */
  lemma RouteIsAllowed(d: Deps, x: string, e: CB.EffectiveSpec, rs: seq<Round>)
    requires UniformFor(d, x, e, rs) && rs != [] && RoutesAt(d, x, None, rs, |rs| - 1)
    ensures var g, events := EventsOf(d, x, rs[..|rs| - 1]), LastEvents(d, x, rs);
            && |events| == 2 && events[1].routed
            && CB.Allows(e, CB.Synced(e, CB.Run(e, g + [events[0]]), events[1]), events[1].phase)
  {
    hide FoundAt, Pass, CB.EffectiveSpecOf, HasOtherStandby, CB.EnabledFor, RunRounds, CB.Run, CB.After, CB.Synced,
         CB.Allows, EventsOf, Gated;
    var n := |rs| - 1;
    var s := FoundAt(d, x, None, rs, n);
    PassEffects(d, s, rs[n].target, x, rs[n].inputs);
    assert UniformRound(d, x, e, rs[n]);
    FoundHasOther(d, x, None, rs, n);
    PassIsHistory(d, s, x, rs[n].inputs);
    UniformRounds(d, x, e, rs[..n]);
    var os := ObservedIn(d, s, x, rs[n].inputs);
    RunAllFew(s[x].status.circuitBreaker, os[0], os[1]);
    assert os == [os[0], os[1]];
    CB.RunStep(e, EventsOf(d, x, rs[..n]), os[0].event);
  }

  /** Pass `k` is over `x` and deploys it in its rollout. */
  ghost predicate RoutesAt(d: Deps, x: string, st: Option<CircuitBreakerStatus>, rs: seq<Round>, k: nat)
    requires RoundsFor(d, x, rs) && k < |rs|
  {
    rs[k].target == x && Deploy(x) in PassAt(d, x, st, rs, k).effects
  }

  /** Passes of a run that deploy `x`, those that do so in its rollout, and those that do so without asking its
      breaker. */
  datatype Tally = Tally(deploys: nat, routed: nat, anyway: nat)

  function AsCount(b: bool): nat {
    if b then 1 else 0
  }

  /** The tally of the passes from round `a` on. */
  ghost function TallyOf(d: Deps, x: string, st: Option<CircuitBreakerStatus>, rs: seq<Round>, a: nat): Tally
    requires RoundsFor(d, x, rs)
  {
    if |rs| <= a then Tally(0, 0, 0) else
      var n, t := |rs| - 1, TallyOf(d, x, st, rs[..|rs| - 1], a);
      var effects := PassAt(d, x, st, rs, n).effects;
      Tally(t.deploys + AsCount(Deploys(effects, x)), t.routed + AsCount(RoutesAt(d, x, st, rs, n)),
            t.anyway + AsCount(DeploysAnyway(d, FoundAt(d, x, st, rs, n), rs[n].target, x, rs[n].inputs)))
  }

  lemma ProbeCountSnoc(e: CB.EffectiveSpec, h: seq<CB.Event>, ev: CB.Event, i: nat)
    requires i <= |h|
    ensures CB.ProbeCount(e, h + [ev], i) ==
            CB.ProbeCount(e, h, i) + if CB.Probes(e, CB.Synced(e, CB.Run(e, h), ev), ev) then 1 else 0
  {
    hide CB.Probes, CB.Synced, CB.Run;
    assert (h + [ev])[..|h|] == h;
  }

  /** Away from closed, a routed event that is allowed is a half-open probe. */
  lemma AllowedIsProbe(e: CB.EffectiveSpec, st: Option<CircuitBreakerStatus>, ev: CB.Event)
    requires ev.routed && CB.Allows(e, CB.Synced(e, st, ev), ev.phase) && !CB.After(e, st, ev).state.Closed?
    ensures CB.Probes(e, CB.Synced(e, st, ev), ev)
  {
    hide CB.Step;
  }

  lemma NeverClosedInPrefix(e: CB.EffectiveSpec, h: seq<CB.Event>, n: nat, i: nat)
    requires n <= |h| && CB.NeverClosedFrom(e, h, i)
    ensures CB.NeverClosedFrom(e, h[..n], i)
  {
    hide CB.After;
    assert forall k :: 0 <= k <= n ==> h[..n][..k] == h[..k];
  }

  lemma LastNotClosed(e: CB.EffectiveSpec, h: seq<CB.Event>, ev: CB.Event, i: nat)
    requires CB.NeverClosedFrom(e, h + [ev], i) && i <= |h|
    ensures !CB.After(e, CB.Run(e, h), ev).state.Closed?
  {
    hide CB.After, CB.Run;
    var g := h + [ev];
    assert g[..|g|] == g;
    CB.RunStep(e, h, ev);
  }

  /** At most two more events; if they end with an allowed routed one, they hold a probe. */
  lemma EventsProbe(e: CB.EffectiveSpec, g: seq<CB.Event>, events: seq<CB.Event>, i: nat, routes: bool)
    requires |events| <= 2 && i <= |g| && CB.NeverClosedFrom(e, g + events, i)
    requires routes ==>
               && |events| == 2 && events[1].routed
               && CB.Allows(e, CB.Synced(e, CB.Run(e, g + [events[0]]), events[1]), events[1].phase)
    ensures CB.ProbeCount(e, g, i) + AsCount(routes) <= CB.ProbeCount(e, g + events, i)
  {
    hide CB.After, CB.Synced, CB.Allows, CB.Run, CB.ProbeCount, CB.Probes, CB.NeverClosedFrom;
    if |events| == 0 {
      assert g + events == g;
    } else {
      ProbeCountSnoc(e, g, events[0], i);
      var g1 := g + [events[0]];
      if |events| == 1 {
        assert g + events == g1;
      } else {
        assert g + events == g1 + [events[1]];
        ProbeCountSnoc(e, g1, events[1], i);
        if routes {
          LastNotClosed(e, g1, events[1], i);
          AllowedIsProbe(e, CB.Run(e, g1), events[1]);
        }
      }
    }
  }

  lemma {:induction false} EventsGrow(d: Deps, x: string, rs: seq<Round>, a: nat)
    requires RoundsFor(d, x, rs) && a <= |rs| && forall k :: 0 <= k < |rs| ==> !rs[k].replaced
    ensures EventsOf(d, x, rs[..a]) <= EventsOf(d, x, rs)
  {
    hide EventsOf, LastEvents, RoundFor;
    if a == |rs| {
      assert rs[..a] == rs;
    } else {
      assert rs[..|rs| - 1][..a] == rs[..a];
      EventsGrow(d, x, rs[..|rs| - 1], a);
      EventsSnoc(d, x, rs);
    }
  }

  lemma UniformNotReplaced(d: Deps, x: string, e: CB.EffectiveSpec, rs: seq<Round>)
    requires UniformFor(d, x, e, rs)
    ensures forall k :: 0 <= k < |rs| ==> !rs[k].replaced
  {
    hide CB.EffectiveSpecOf, OtherFor, RoundFor;
    assert forall k :: 0 <= k < |rs| ==> UniformRound(d, x, e, rs[k]);
  }

  /** During an outage, from a trip to the next recovery and over any number of half-open rounds and any passes over
      other workloads, the passes that deploy `x` are those that do so without asking its breaker, and beside them no
      more than the probe budget. */
  lemma {:induction false} DeploysWithinBudget(d: Deps, x: string, e: CB.EffectiveSpec, rs: seq<Round>, a: nat)
    requires UniformFor(d, x, e, rs) && e.Positive() && a <= |rs|
    requires CB.NeverClosedFrom(e, EventsOf(d, x, rs), |EventsOf(d, x, rs[..a])|)
    ensures var t := TallyOf(d, x, None, rs, a);
            && t.deploys == t.routed + t.anyway
            && t.routed <= CB.ProbeCount(e, EventsOf(d, x, rs), |EventsOf(d, x, rs[..a])|) <= e.halfOpenMaxRequests
  {
    hide CB.NeverClosedFrom, CB.ProbeCount, EventsOf, LastEvents, OtherFor, UniformRound, RoundFor, CB.Allows,
         CB.Synced, CB.Run, PassAt, FoundAt, Deploys, DeploysAnyway, RoutesAt;
    var h, i := EventsOf(d, x, rs), |EventsOf(d, x, rs[..a])|;
    UniformNotReplaced(d, x, e, rs);
    EventsGrow(d, x, rs, a);
    CB.ProbeBudget(e, h, i);
    if a < |rs| {
      var n := |rs| - 1;
      assert rs[..n][..a] == rs[..a];
      EventsGrow(d, x, rs[..n], a);
      EventsSnoc(d, x, rs);
      var g := EventsOf(d, x, rs[..n]);
      assert h[..|g|] == g;
      NeverClosedInPrefix(e, h, |g|, i);
      DeploysWithinBudget(d, x, e, rs[..n], a);
      var routes := RoutesAt(d, x, None, rs, n);
      if routes {
        RouteIsAllowed(d, x, e, rs);
      }
      EventsProbe(e, g, LastEvents(d, x, rs), i, routes);
      EitherWayAt(d, x, rs, n);
    }
  }

  lemma EitherWayAt(d: Deps, x: string, rs: seq<Round>, n: nat)
    requires OthersFor(d, x, rs) && n < |rs|
    ensures var effects := PassAt(d, x, None, rs, n).effects;
            var anyway := DeploysAnyway(d, FoundAt(d, x, None, rs, n), rs[n].target, x, rs[n].inputs);
            AsCount(Deploys(effects, x)) == AsCount(RoutesAt(d, x, None, rs, n)) + AsCount(anyway)
  {
    hide FoundAt, HasOtherStandby, CB.EnabledFor, Deploys, DeploysAnyway, CB.EffectiveSpecOf;
    if rs[n].target == x {
      FoundHasOther(d, x, None, rs, n);
    }
    EitherWay(d, FoundAt(d, x, None, rs, n), rs[n].target, x, rs[n].inputs);
  }

  // ---------------------------------------------------------------- nothing bounds what is deployed anyway

  /** A primary and its standby, both inside their cooldowns, with automatic failover. */
  ghost predicate BothWaiting(d: Deps, s: Workloads, p: string, x: string, now: int) {
    && d.circuit.Some? && d.standby.Some? && d.standby.value.autoPromote && d.quota.None?
    && p in s && s[p].id == p && x in s && s[x].id == x && p != x
    && WS.PromotionID(s[p]) == x && WS.ProvisionID(s[p]) == x
    && WS.EnabledFor(d.standby.value.enabled, s[p]) && CB.EnabledFor(s[p], d.circuit.value)
    && Waiting(s[p].status.circuitBreaker, now) && Waiting(s[x].status.circuitBreaker, now)
  }

  /** The pass over a waiting primary deploys its waiting standby, and leaves everything so that the next pass before
      the deadlines does it again. */
  lemma FailoverRepeats(d: Deps, s: Workloads, p: string, x: string, i: Inputs)
    requires BothWaiting(d, s, p, x, i.now) && i.controllersPass && i.policyPasses
    ensures FailsOverTo(d, s, p, x, i) && PromoteStandby(x) in Pass(d, s, p, i).effects
    ensures BothWaiting(d, Pass(d, s, p, i).s, p, x, i.now)
  {
    hide SharedStages, LocalStages, WS.PromotionID, WS.ProvisionID, CB.EnabledFor, CB.EffectiveSpecOf, RestartDue,
         WS.CloneSpec, WS.PromotedSpec, Synced, Provisions, Deploys, Reaches;
    WaitingHolds(d, s[p], i.now);
    PassEffects(d, s, p, x, i);
    CooldownPass(d, s, p, i);
    PassAtOther(d, s, p, x, i);
    PassKeepsOtherStandby(d, s, p, i);
    SharedAt(d, s, p, i);
    var mid := SharedStages(d, s, p, i).s[p];
    LocalFrame(d, mid, i);
    SameSpec(Pass(d, s, p, i).s[p], s[p], d.circuit.value);
    PassKeepsStandbyID(d, s, p, i);
  }

  /** A running workload inside its cooldown, with a pending restart. */
  ghost predicate WaitingForRestart(d: Deps, s: Workloads, x: string, now: int) {
    && d.circuit.Some? && d.quota.None? && x in s && s[x].id == x && HasOtherStandby(s[x])
    && CB.EnabledFor(s[x], d.circuit.value) && Waiting(s[x].status.circuitBreaker, now) && RestartDue(d, s[x])
  }

  /** A restart whose two driver calls fail deploys the workload inside its cooldown and leaves the restart pending, so
      that the next pass before the deadline does it again. */
  lemma RedeploymentRepeats(d: Deps, s: Workloads, x: string, i: Inputs)
    requires WaitingForRestart(d, s, x, i.now) && i.controllersPass && i.policyPasses && i.restart.RedeployFailed?
    ensures RedeploysIn(d, s, x, i) && Redeploy(x) in Pass(d, s, x, i).effects
    ensures WaitingForRestart(d, Pass(d, s, x, i).s, x, i.now)
  {
    hide SharedStages, WS.PromotionID, WS.ProvisionID, CB.EnabledFor, CB.EffectiveSpecOf, WS.CloneSpec,
         WS.PromotedSpec, Provisions, Deploys, Reaches, CB.SyncWorkload, Promotes, LocalStages;
    WaitingHolds(d, s[x], i.now);
    PassEffects(d, s, x, x, i);
    CooldownPass(d, s, x, i);
    PassKeepsOtherStandby(d, s, x, i);
    SharedAt(d, s, x, i);
    LocalRunning(d, SharedStages(d, s, x, i).s[x], i);
    SameSpec(Pass(d, s, x, i).s[x], s[x], d.circuit.value);
  }

  lemma LocalRunning(d: Deps, w: Workload, i: Inputs)
    requires w.status.phase.Running? && i.restart.RedeployFailed?
    ensures var w' := LocalStages(d, w, i).w;
            w'.status.phase == w.status.phase && w'.status.secretRotation == w.status.secretRotation
  {
    hide Synced, CB.AllowRouteResult, SR.Pending;
    SyncFrame(d, w, i.now);
    SyncFrame(d, SecretStage(d, w, i).w, i.now);
  }

  /** So no number bounds the deployments of a waiting workload: in a run whose passes find one of the two situations,
      every pass deploys it, and it is waiting all along. */
  lemma {:induction false} AnywayIsUnbounded(d: Deps, x: string, st: Option<CircuitBreakerStatus>, rs: seq<Round>)
    requires RoundsFor(d, x, rs)
    requires forall k :: 0 <= k < |rs| ==> DeploysWaiting(d, x, st, rs[k])
    ensures RunRounds(d, x, st, rs) == st && TallyOf(d, x, st, rs, 0) == Tally(|rs|, 0, |rs|)
  {
    hide Pass, DeploysAnyway, Deploys, RoundFor, FoundAt, PassAt, DeploysWaiting, RoutesAt;
    if rs != [] {
      var n := |rs| - 1;
      AnywayIsUnbounded(d, x, st, rs[..n]);
      assert rs[..n + 1] == rs;
      RunRoundsStep(d, x, st, rs, n);
      WaitingIsDeployed(d, x, st, rs, n);
    }
  }

  /** The pass finds `x` waiting with the given breaker status, and is one over a primary that waits too or over `x`
      with a restart at which the driver fails. */
  ghost predicate DeploysWaiting(d: Deps, x: string, st: Option<CircuitBreakerStatus>, r: Round) {
    && x in r.store && r.store[x].status.circuitBreaker == st && !r.replaced
    && r.inputs.controllersPass && r.inputs.policyPasses
    && (|| BothWaiting(d, r.store, r.target, x, r.inputs.now)
        || (WaitingForRestart(d, r.store, x, r.inputs.now) && r.target == x && r.inputs.restart.RedeployFailed?))
  }

  lemma WaitingIsDeployed(d: Deps, x: string, st: Option<CircuitBreakerStatus>, rs: seq<Round>, n: nat)
    requires RoundsFor(d, x, rs) && n < |rs| && DeploysWaiting(d, x, st, rs[n]) && RunRounds(d, x, st, rs[..n]) == st
    ensures var s, o := FoundAt(d, x, st, rs, n), PassAt(d, x, st, rs, n);
            && o.s[x].status.circuitBreaker == st && Deploys(o.effects, x) && !RoutesAt(d, x, st, rs, n)
            && DeploysAnyway(d, s, rs[n].target, x, rs[n].inputs)
  {
    hide Pass, RunRounds, BothWaiting, WaitingForRestart, RedeploysIn, FailsOverTo, CB.EnabledFor, CB.EffectiveSpecOf,
         RollsOut, Handed;
    var r := rs[n];
    assert FoundAt(d, x, st, rs, n) == r.store;
    PassEffects(d, r.store, r.target, x, r.inputs);
    if BothWaiting(d, r.store, r.target, x, r.inputs.now) {
      FailoverRepeats(d, r.store, r.target, x, r.inputs);
      BothWaitingFacts(d, r.store, r.target, x, r.inputs.now);
      PassAtOther(d, r.store, r.target, x, r.inputs);
    } else {
      RedeploymentRepeats(d, r.store, x, r.inputs);
      WaitingDoesNotRoute(d, r.store, x, r.inputs);
    }
  }

  lemma BothWaitingFacts(d: Deps, s: Workloads, p: string, x: string, now: int)
    requires BothWaiting(d, s, p, x, now)
    ensures p != x
  {
  }

  lemma WaitingDoesNotRoute(d: Deps, s: Workloads, x: string, i: Inputs)
    requires WaitingForRestart(d, s, x, i.now)
    ensures Pass(d, s, x, i).s[x].status.circuitBreaker == s[x].status.circuitBreaker
    ensures !RollsOut(d, s, x, i)
  {
    hide Pass, CB.EnabledFor, SR.Pending, ObservedIn, AllowsLast, WS.PromotionID, WS.ProvisionID, Deploys, Reaches,
         RollsOut;
    CooldownPass(d, s, x, i);
    PassIsHistory(d, s, x, i);
  }

  // ---------------------------------------------------------------- a finished rollout is not repeated

  /** A pass over a workload. */
  datatype Turn = Turn(target: string, inputs: Inputs)

  ghost predicate OwnIds(s: Workloads) {
    forall id :: id in s ==> s[id].id == id
  }

  /** The store after passes with nothing in between. */
  ghost function StoreAfter(d: Deps, s: Workloads, ts: seq<Turn>): (s': Workloads)
    ensures s.Keys <= s'.Keys
  {
    if ts == [] then s else
      var before, t := StoreAfter(d, s, ts[..|ts| - 1]), ts[|ts| - 1];
      if t.target in before then Pass(d, before, t.target, t.inputs).s else before
  }

  /** Turn `k` fails over to `x`. */
  ghost predicate FailsOverAt(d: Deps, s: Workloads, ts: seq<Turn>, k: int, x: string) {
    && 0 <= k < |ts| && ts[k].target in StoreAfter(d, s, ts[..k])
    && FailsOverTo(d, StoreAfter(d, s, ts[..k]), ts[k].target, x, ts[k].inputs)
  }

  /** Turn `k` rolls `x` out. */
  ghost predicate RollsOutAt(d: Deps, s: Workloads, ts: seq<Turn>, k: int, x: string) {
    && 0 <= k < |ts| && ts[k].target == x && x in StoreAfter(d, s, ts[..k])
    && RollsOut(d, StoreAfter(d, s, ts[..k]), x, ts[k].inputs)
  }

  /** A pass files what it creates under its own ID. */
  lemma PassKeepsOwnIds(d: Deps, s: Workloads, id: string, i: Inputs)
    requires OwnIds(s) && id in s
    ensures OwnIds(Pass(d, s, id, i).s)
  {
    hide Pass, FailsOverTo, ProvisionsFor;
    forall x | x in Pass(d, s, id, i).s
      ensures Pass(d, s, id, i).s[x].id == x
    {
      if x in s && x != id {
        PassAtOther(d, s, id, x, i);
      } else {
        PassFiles(d, s, id, x, i);
      }
    }
  }

  /** A pass that finds a workload running leaves it running unless it fails over to it. */
  lemma StaysRunning(d: Deps, s: Workloads, id: string, x: string, i: Inputs)
    requires OwnIds(s) && id in s && x in s && s[x].status.phase.Running?
    ensures !FailsOverTo(d, s, id, x, i) ==> Pass(d, s, id, i).s[x].status.phase.Running?
    ensures id == x && RollsOut(d, s, id, i) ==> FailsOverTo(d, s, id, x, i)
  {
    hide Pass, FailsOverTo, ProvisionsFor, AllAccepted, RollsOut;
    if id == x {
      PassPhase(d, s, id, i);
      if RollsOut(d, s, id, i) {
        RollsOutOnlyPending(d, s, id, i);
      }
    } else {
      PassAtOther(d, s, id, x, i);
    }
  }

  /** Once a workload runs, say after a rollout whose calls were all accepted, it keeps running and is not rolled out
      again until a pass fails over to it, as long as nobody else writes to it. */
  lemma {:induction false} RolloutIsNotRepeated(d: Deps, s: Workloads, ts: seq<Turn>, x: string)
    requires OwnIds(s) && x in s && s[x].status.phase.Running?
    requires forall k :: !FailsOverAt(d, s, ts, k, x)
    ensures OwnIds(StoreAfter(d, s, ts)) && StoreAfter(d, s, ts)[x].status.phase.Running?
    ensures forall k :: !RollsOutAt(d, s, ts, k, x)
  {
    hide Pass, OwnIds, FailsOverTo, RollsOut;
    if ts != [] {
      var n := |ts| - 1;
      forall k
        ensures !FailsOverAt(d, s, ts[..n], k, x)
      {
        if 0 <= k < n {
          assert ts[..n][..k] == ts[..k];
          assert !FailsOverAt(d, s, ts, k, x);
        }
      }
      RolloutIsNotRepeated(d, s, ts[..n], x);
      var before := StoreAfter(d, s, ts[..n]);
      assert !FailsOverAt(d, s, ts, n, x);
      if ts[n].target in before {
        PassKeepsOwnIds(d, before, ts[n].target, ts[n].inputs);
        StaysRunning(d, before, ts[n].target, x, ts[n].inputs);
      }
      forall k
        ensures !RollsOutAt(d, s, ts, k, x)
      {
        if 0 <= k < n {
          assert ts[..n][..k] == ts[..k];
          assert !RollsOutAt(d, s, ts[..n], k, x);
        }
      }
    }
  }
}
