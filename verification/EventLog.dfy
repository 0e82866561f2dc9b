/** The versioned, per-aggregate event log: append, limited reads and age-based cleanup. */
module EventLog {
  import opened Types

  /** Lifecycle events carry the spec they were written with; every other event type only its name. */
  datatype Kind = WorkloadCreated(spec: WorkloadSpec) | WorkloadUpdated(spec: WorkloadSpec) | WorkloadDeleted
    | OtherEvent(name: string)

  /** The empty ID and timestamp 0 mean "not provided". */
  datatype Event = Event(id: string, aggregate: string, kind: Kind, version: int, timestamp: int)

  type Log = map<string, seq<Event>>

  function EventsOf(log: Log, aggregate: string): seq<Event> {
    if aggregate in log then log[aggregate] else []
  }

  function NextVersion(es: seq<Event>): int {
    if es == [] then 1 else es[|es| - 1].version + 1
  }

  /** The event as stored: ID and time filled in where missing, and the next version of its aggregate. */
  function Stamped(es: seq<Event>, ev: Event, freshID: string, now: int): Event {
    ev.(id := if ev.id == "" then freshID else ev.id,
        timestamp := if ev.timestamp == 0 then now else ev.timestamp,
        version := NextVersion(es))
  }

  function Appended(log: Log, ev: Event, freshID: string, now: int): Log {
    var es := EventsOf(log, ev.aggregate);
    log[ev.aggregate := es + [Stamped(es, ev, freshID, now)]]
  }

  function AtLeast(es: seq<Event>, fromVersion: int): seq<Event> {
    if es == [] then [] else
      var rest, last := AtLeast(es[..|es| - 1], fromVersion), es[|es| - 1];
      if last.version >= fromVersion then rest + [last] else rest
  }

  /** A non-positive limit means no limit. */
  function Limited<T>(s: seq<T>, limit: int): seq<T> {
    if 0 < limit < |s| then s[..limit] else s
  }

  function Retained(es: seq<Event>, cutoff: int): seq<Event> {
    if es == [] then [] else
      var rest, last := Retained(es[..|es| - 1], cutoff), es[|es| - 1];
      if last.timestamp > cutoff then rest + [last] else rest
  }

  function Cleaned(log: Log, cutoff: int): Log {
    map a | a in log :: Retained(log[a], cutoff)
  }

  class Store {
    const enabled: bool
    const maxEventAge: int
    var events: Log

    constructor (enabled: bool, maxEventAge: int)
      ensures this.enabled == enabled && this.maxEventAge == maxEventAge && events == map[]
    {
      this.enabled, this.maxEventAge, events := enabled, maxEventAge, map[];
    }

    method Append(ev: Event, freshID: string, now: int)
      modifies this
      ensures events == if enabled then Appended(old(events), ev, freshID, now) else old(events)
    {
      if !enabled {
        return;
      }
      var event := ev;
      if event.id == "" {
        event := event.(id := freshID);
      }
      if event.timestamp == 0 {
        event := event.(timestamp := now);
      }
      var aggregateEvents := EventsOf(events, event.aggregate);
      if |aggregateEvents| > 0 {
        event := event.(version := aggregateEvents[|aggregateEvents| - 1].version + 1);
      } else {
        event := event.(version := 1);
      }
      events := events[event.aggregate := aggregateEvents + [event]];
    }

    method GetEvents(aggregate: string, fromVersion: int, limit: int) returns (result: seq<Event>)
      ensures result == Limited(AtLeast(EventsOf(events, aggregate), fromVersion), limit)
    {
      if aggregate !in events {
        return [];
      }
      var es := events[aggregate];
      result := [];
      for i := 0 to |es|
        invariant result == AtLeast(es[..i], fromVersion)
        invariant limit > 0 ==> |result| < limit
      {
        assert es[..i + 1][..i] == es[..i];
        if es[i].version >= fromVersion {
          result := result + [es[i]];
          if limit > 0 && |result| >= limit {
            AtLeastPrefix(es, i + 1, fromVersion);
            return;
          }
        }
      }
      assert es[..|es|] == es;
    }

    method CleanupOldEvents(now: int)
      modifies this
      ensures events == if maxEventAge > 0 then Cleaned(old(events), now - maxEventAge) else old(events)
    {
      if maxEventAge <= 0 {
        return;
      }
      var cutoff := now - maxEventAge;
      hide Retained;
      ghost var before := events;
      var todo := events.Keys;
      while todo != {}
        invariant todo <= events.Keys == before.Keys
        invariant forall a :: a in todo ==> events[a] == before[a]
        invariant forall a :: a in before && a !in todo ==> events[a] == Retained(before[a], cutoff)
      {
        var a :| a in todo;
        todo := todo - {a};
        var filtered := FilterByAge(events[a], cutoff);
        events := events[a := filtered];
      }
      assert events == Cleaned(before, cutoff);
    }
  }

  method FilterByAge(es: seq<Event>, cutoff: int) returns (filtered: seq<Event>)
    ensures filtered == Retained(es, cutoff)
  {
    filtered := [];
    for i := 0 to |es|
      invariant filtered == Retained(es[..i], cutoff)
    {
      assert es[..i + 1][..i] == es[..i];
      if es[i].timestamp > cutoff {
        filtered := filtered + [es[i]];
      }
    }
    assert es[..|es|] == es;
  }

  lemma {:induction false} AtLeastPrefix(es: seq<Event>, n: nat, fromVersion: int)
    requires n <= |es|
    ensures AtLeast(es[..n], fromVersion) <= AtLeast(es, fromVersion)
    decreases |es|
  {
    if n == |es| {
      assert es[..n] == es;
    } else {
      AtLeastPrefix(es[..|es| - 1], n, fromVersion);
      assert es[..|es| - 1][..n] == es[..n];
    }
  }

  // ---------------------------------------------------------------- versions under append and cleanup

  ghost predicate Increasing(es: seq<Event>) {
    forall i, j :: 0 <= i < j < |es| ==> es[i].version < es[j].version
  }

  ghost predicate Contiguous(es: seq<Event>) {
    forall i, j :: 0 <= i <= j < |es| ==> es[j].version - es[i].version == j - i
  }

  ghost predicate Chronological(es: seq<Event>) {
    forall i, j :: 0 <= i < j < |es| ==> es[i].timestamp <= es[j].timestamp
  }

  datatype Op = Append(ev: Event, freshID: string, now: int) | Cleanup(cutoff: int)

  function Exec(log: Log, op: Op): Log {
    match op
    case Append(ev, freshID, now) => Appended(log, ev, freshID, now)
    case Cleanup(cutoff) => Cleaned(log, cutoff)
  }

  function Run(ops: seq<Op>): Log {
    if ops == [] then map[] else Exec(Run(ops[..|ops| - 1]), ops[|ops| - 1])
  }

  /** Cleanup drops entries without reordering: what is kept was there, and versions still increase. */
  lemma {:induction false} RetainedIncreases(es: seq<Event>, cutoff: int)
    requires Increasing(es)
    ensures Increasing(Retained(es, cutoff))
    ensures forall e :: e in Retained(es, cutoff) ==> e in es
  {
    if es != [] {
      var init, last := es[..|es| - 1], es[|es| - 1];
      RetainedIncreases(init, cutoff);
      assert es == init + [last];
      assert forall e :: e in init ==> e.version < last.version;
    }
  }

  /** Whatever appends and cleanups happen, in any order, versions strictly increase in every aggregate. */
  lemma {:induction false} VersionsIncrease(ops: seq<Op>, aggregate: string)
    ensures Increasing(EventsOf(Run(ops), aggregate))
  {
    if ops != [] {
      VersionsIncrease(ops[..|ops| - 1], aggregate);
      var es := EventsOf(Run(ops[..|ops| - 1]), aggregate);
      if ops[|ops| - 1].Cleanup? {
        RetainedIncreases(es, ops[|ops| - 1].cutoff);
      }
    }
  }

  /** Every event ever appended to an aggregate, as stored. */
  function Issued(ops: seq<Op>, aggregate: string): seq<Event> {
    if ops == [] then [] else
      var before, op := ops[..|ops| - 1], ops[|ops| - 1];
      if op.Append? && op.ev.aggregate == aggregate
      then Issued(before, aggregate) + [Stamped(EventsOf(Run(before), aggregate), op.ev, op.freshID, op.now)]
      else Issued(before, aggregate)
  }

  /** With non-decreasing timestamps, cleanup removes exactly a prefix. */
  lemma {:induction false} RetainedIsSuffix(es: seq<Event>, cutoff: int) returns (k: nat)
    requires Chronological(es)
    ensures k <= |es| && Retained(es, cutoff) == es[k..]
  {
    if es == [] {
      k := 0;
    } else {
      var init, last := es[..|es| - 1], es[|es| - 1];
      assert Chronological(init);
      k := RetainedIsSuffix(init, cutoff);
      if last.timestamp > cutoff {
        assert es[k..] == init[k..] + [last];
      } else {
        AllOld(init, cutoff);
        k := |es|;
      }
    }
  }

  lemma {:induction false} AllOld(es: seq<Event>, cutoff: int)
    requires forall i :: 0 <= i < |es| ==> es[i].timestamp <= cutoff
    ensures Retained(es, cutoff) == []
  {
    if es != [] {
      AllOld(es[..|es| - 1], cutoff);
    }
  }

  ghost predicate IsTail(es: seq<Event>, issued: seq<Event>, k: int) {
    0 <= k <= |issued| && es == issued[k..] && Contiguous(es)
  }

  lemma CleanupKeepsTail(es: seq<Event>, issued: seq<Event>, k: nat, cutoff: int) returns (k': nat)
    requires IsTail(es, issued, k) && Chronological(issued)
    ensures IsTail(Retained(es, cutoff), issued, k')
  {
    assert Chronological(es);
    var m := RetainedIsSuffix(es, cutoff);
    k' := k + m;
  }

  lemma AppendKeepsTail(es: seq<Event>, issued: seq<Event>, k: nat, e: Event)
    requires IsTail(es, issued, k) && e.version == NextVersion(es)
    ensures IsTail(es + [e], issued + [e], k)
  {
    var es' := es + [e];
    assert es' == (issued + [e])[k..];
    forall i, j | 0 <= i <= j < |es'|
      ensures es'[j].version - es'[i].version == j - i
    {
      if j == |es| && i < j {
        assert es[|es| - 1].version - es[i].version == |es| - 1 - i;
      }
    }
  }

  /** In a chronological run the log is a contiguous suffix of everything issued. */
  lemma {:induction false} LogIsSuffixOfIssued(ops: seq<Op>, aggregate: string) returns (k: nat)
    requires Chronological(Issued(ops, aggregate))
    ensures IsTail(EventsOf(Run(ops), aggregate), Issued(ops, aggregate), k)
  {
    if ops == [] {
      k := 0;
    } else {
      hide IsTail, Stamped, Retained;
      var before, op := ops[..|ops| - 1], ops[|ops| - 1];
      var issued := Issued(before, aggregate);
      assert Chronological(issued) by {
        assert forall i :: 0 <= i < |issued| ==> issued[i] == Issued(ops, aggregate)[i];
      }
      k := LogIsSuffixOfIssued(before, aggregate);
      var es := EventsOf(Run(before), aggregate);
      if op.Cleanup? {
        k := CleanupKeepsTail(es, issued, k, op.cutoff);
        EmptyStaysEmpty(op.cutoff);
      } else if op.ev.aggregate == aggregate {
        StampedVersion(es, op.ev, op.freshID, op.now);
        AppendKeepsTail(es, issued, k, Stamped(es, op.ev, op.freshID, op.now));
      }
    }
  }

  lemma EmptyStaysEmpty(cutoff: int)
    ensures Retained([], cutoff) == []
  {
  }

  lemma StampedVersion(es: seq<Event>, ev: Event, freshID: string, now: int)
    ensures Stamped(es, ev, freshID, now).version == NextVersion(es)
  {
  }

  ghost predicate Reissues(ops: seq<Op>, aggregate: string) {
    exists i, j :: 0 <= i < j < |Issued(ops, aggregate)|
                   && Issued(ops, aggregate)[i].version == Issued(ops, aggregate)[j].version
  }

  /** The event issued last is no longer the last one retained. */
  ghost predicate NewestIsLost(es: seq<Event>, issued: seq<Event>) {
    issued != [] && (es == [] || es[|es| - 1] != issued[|issued| - 1])
  }

  /** Operation `n` appends to an aggregate whose newest event has been cleaned up. */
  ghost predicate AppendsPastLoss(ops: seq<Op>, aggregate: string, n: int) {
    && 0 <= n < |ops| && ops[n].Append? && ops[n].ev.aggregate == aggregate
    && NewestIsLost(EventsOf(Run(ops[..n]), aggregate), Issued(ops[..n], aggregate))
  }

  /** Operation `n` appends to an aggregate that once held events and has been emptied by cleanup. */
  ghost predicate AppendsToEmptied(ops: seq<Op>, aggregate: string, n: int) {
    && 0 <= n < |ops| && ops[n].Append? && ops[n].ev.aggregate == aggregate
    && EventsOf(Run(ops[..n]), aggregate) == [] && Issued(ops[..n], aggregate) != []
  }

  lemma {:induction false} IssuedPrefix(ops: seq<Op>, aggregate: string, n: nat)
    requires n <= |ops|
    ensures Issued(ops[..n], aggregate) <= Issued(ops, aggregate)
    decreases |ops|
  {
    if n == |ops| {
      assert ops[..n] == ops;
    } else {
      IssuedPrefix(ops[..|ops| - 1], aggregate, n);
      assert ops[..|ops| - 1][..n] == ops[..n];
    }
  }

  lemma LossInPrefix(ops: seq<Op>, aggregate: string, n: nat, m: int)
    requires n <= |ops| && m < n
    ensures AppendsPastLoss(ops[..n], aggregate, m) <==> AppendsPastLoss(ops, aggregate, m)
  {
    if 0 <= m {
      assert ops[..n][..m] == ops[..m];
    }
  }

  /** Whatever is retained was issued. */
  lemma {:induction false} LogIsIssued(ops: seq<Op>, aggregate: string)
    ensures forall e :: e in EventsOf(Run(ops), aggregate) ==> e in Issued(ops, aggregate)
  {
    if ops != [] {
      hide Stamped, Retained;
      var before, op := ops[..|ops| - 1], ops[|ops| - 1];
      LogIsIssued(before, aggregate);
      VersionsIncrease(before, aggregate);
      var es := EventsOf(Run(before), aggregate);
      if op.Cleanup? {
        RetainedIncreases(es, op.cutoff);
      }
    }
  }

  ghost predicate CountsUp(es: seq<Event>) {
    forall i :: 0 <= i < |es| ==> es[i].version == i + 1
  }

  /** While no append comes after the newest event was cleaned up, the versions issued are 1, 2, 3, ... */
  lemma {:induction false} VersionsCountUp(ops: seq<Op>, aggregate: string)
    requires forall n :: !AppendsPastLoss(ops, aggregate, n)
    ensures CountsUp(Issued(ops, aggregate))
  {
    if ops != [] {
      hide Stamped, Run;
      var n := |ops| - 1;
      var before := ops[..n];
      forall m
        ensures !AppendsPastLoss(before, aggregate, m)
      {
        if m < n {
          LossInPrefix(ops, aggregate, n, m);
        }
      }
      VersionsCountUp(before, aggregate);
      assert !AppendsPastLoss(ops, aggregate, n);
      if ops[n].Append? && ops[n].ev.aggregate == aggregate {
        var es := EventsOf(Run(before), aggregate);
        LogIsIssued(before, aggregate);
        StampedVersion(es, ops[n].ev, ops[n].freshID, ops[n].now);
        assert es != [] ==> es[|es| - 1] in Issued(before, aggregate);
      }
    } else {
      assert Issued(ops, aggregate) == [];
    }
  }

  lemma {:induction false} FirstLoss(ops: seq<Op>, aggregate: string, n: nat) returns (m: nat)
    requires AppendsPastLoss(ops, aggregate, n)
    ensures AppendsPastLoss(ops, aggregate, m) && forall k :: k < m ==> !AppendsPastLoss(ops, aggregate, k)
  {
    hide AppendsPastLoss;
    if k :| 0 <= k < n && AppendsPastLoss(ops, aggregate, k) {
      m := FirstLoss(ops, aggregate, k);
    } else {
      m := n;
      LossIsIndexed(ops, aggregate);
    }
  }

  lemma LossIsIndexed(ops: seq<Op>, aggregate: string)
    ensures forall k :: AppendsPastLoss(ops, aggregate, k) ==> 0 <= k < |ops|
  {
  }

  /** The first append after a loss issues a version that was issued before. */
  lemma LossReissues(ops: seq<Op>, aggregate: string, n: nat)
    requires AppendsPastLoss(ops, aggregate, n) && CountsUp(Issued(ops[..n], aggregate))
    ensures Reissues(ops, aggregate)
  {
    hide Stamped, Run;
    var before, upTo := Issued(ops[..n], aggregate), ops[..n + 1];
    var es := EventsOf(Run(ops[..n]), aggregate);
    assert upTo[..n] == ops[..n];
    IssuedPrefix(ops, aggregate, n + 1);
    StampedVersion(es, ops[n].ev, ops[n].freshID, ops[n].now);
    LogIsIssued(ops[..n], aggregate);
    var j := |before|;
    assert Issued(ops, aggregate)[j] == Issued(upTo, aggregate)[j];
    assert Issued(upTo, aggregate)[j].version == NextVersion(es);
    var i := 0;
    if es != [] {
      assert es[|es| - 1] in before;
      var k :| 0 <= k < |before| && before[k] == es[|es| - 1];
      i := k + 1;
    }
    assert Issued(ops, aggregate)[i] == Issued(upTo, aggregate)[i] == before[i];
  }

  /** A version is issued twice if and only if some append finds that the event issued last is no longer the last one
      retained; clocks may run in any way. */
  lemma ReissuedExactlyAfterLoss(ops: seq<Op>, aggregate: string)
    ensures Reissues(ops, aggregate) <==> exists n :: AppendsPastLoss(ops, aggregate, n)
  {
    hide AppendsPastLoss, Issued;
    if n :| AppendsPastLoss(ops, aggregate, n) {
      LossIsIndexed(ops, aggregate);
      var m := FirstLoss(ops, aggregate, n);
      LossIsIndexed(ops[..m], aggregate);
      forall k
        ensures !AppendsPastLoss(ops[..m], aggregate, k)
      {
        if k < m {
          LossInPrefix(ops, aggregate, m, k);
        }
      }
      VersionsCountUp(ops[..m], aggregate);
      LossReissues(ops, aggregate, m);
    } else {
      VersionsCountUp(ops, aggregate);
    }
  }

  /** In a chronological run the newest event is lost only together with all others, so a version is issued twice if and
      only if cleanup emptied the aggregate before a later append. */
  lemma ReissuedExactlyAfterEmptying(ops: seq<Op>, aggregate: string)
    requires Chronological(Issued(ops, aggregate))
    ensures Reissues(ops, aggregate) <==> exists n :: AppendsToEmptied(ops, aggregate, n)
  {
    hide AppendsPastLoss, AppendsToEmptied, Reissues, Chronological;
    ReissuedExactlyAfterLoss(ops, aggregate);
    forall n
      ensures AppendsPastLoss(ops, aggregate, n) <==> AppendsToEmptied(ops, aggregate, n)
    {
      LossIsEmptying(ops, aggregate, n);
    }
  }

  lemma LossIsEmptying(ops: seq<Op>, aggregate: string, n: int)
    requires Chronological(Issued(ops, aggregate))
    ensures AppendsPastLoss(ops, aggregate, n) <==> AppendsToEmptied(ops, aggregate, n)
  {
    hide Issued, Run;
    if 0 <= n < |ops| {
      IssuedPrefix(ops, aggregate, n);
      var issued := Issued(ops[..n], aggregate);
      assert forall i :: 0 <= i < |issued| ==> issued[i] == Issued(ops, aggregate)[i];
      var k := LogIsSuffixOfIssued(ops[..n], aggregate);
    }
  }

  // ---------------------------------------------------------------- retention

  /** A call to a store with a maximum age: an event to record, or a cleanup at a time. */
  datatype Call = Record(ev: Event, freshID: string, now: int) | CleanUp(now: int)

  function OpOf(c: Call, maxEventAge: int): Op {
    match c
    case Record(ev, freshID, now) => Append(ev, freshID, now)
    case CleanUp(now) => Cleanup(now - maxEventAge)
  }

  function OpsOf(calls: seq<Call>, maxEventAge: int): (ops: seq<Op>)
    ensures |ops| == |calls| && forall i :: 0 <= i < |calls| ==> ops[i] == OpOf(calls[i], maxEventAge)
  {
    seq(|calls|, i requires 0 <= i < |calls| => OpOf(calls[i], maxEventAge))
  }

  /** The ID that a recorded event ends up with. */
  function RecordedID(c: Call): string
    requires c.Record?
  {
    if |c.ev.id| > 0 then c.ev.id else c.freshID
  }

  /** The time that a recorded event goes by. */
  function RecordedTime(c: Call): int
    requires c.Record?
  {
    if c.ev.timestamp != 0 then c.ev.timestamp else c.now
  }

  lemma {:induction false} RetainedMembers(es: seq<Event>, cutoff: int, e: Event)
    ensures e in Retained(es, cutoff) <==> e in es && cutoff < e.timestamp
  {
    if es != [] {
      var init, last := es[..|es| - 1], es[|es| - 1];
      RetainedMembers(init, cutoff, e);
      assert es == init + [last];
    }
  }

  /** An event in the log stays there exactly as long as every cleanup runs before its time plus the maximum age. */
  lemma {:induction false} StaysUntilOld(ops: seq<Op>, calls: seq<Call>, maxEventAge: int, e: Event)
    requires e in EventsOf(Run(ops), e.aggregate)
    requires forall i :: 0 <= i < |calls| && calls[i].Record? ==> RecordedID(calls[i]) != e.id
    ensures e in EventsOf(Run(ops + OpsOf(calls, maxEventAge)), e.aggregate) <==>
            forall i :: 0 <= i < |calls| && calls[i].CleanUp? ==> calls[i].now < e.timestamp + maxEventAge
  {
    hide Run, Exec, EventsOf, RecordedID;
    var all := ops + OpsOf(calls, maxEventAge);
    if calls == [] {
      assert all == ops;
    } else {
      var n := |calls| - 1;
      var init, c := calls[..n], calls[n];
      var before := ops + OpsOf(init, maxEventAge);
      StaysUntilOld(ops, init, maxEventAge, e);
      assert all == before + [OpOf(c, maxEventAge)];
      RunSnoc(before, OpOf(c, maxEventAge));
      StepKeepsUntilOld(Run(before), c, maxEventAge, e);
      assert forall i :: 0 <= i < n ==> init[i] == calls[i];
    }
  }

  lemma RunSnoc(ops: seq<Op>, op: Op)
    ensures Run(ops + [op]) == Exec(Run(ops), op)
  {
    hide Exec;
    assert (ops + [op])[..|ops|] == ops;
  }

  lemma StepKeepsUntilOld(log: Log, c: Call, maxEventAge: int, e: Event)
    requires c.Record? ==> RecordedID(c) != e.id
    ensures e in EventsOf(Exec(log, OpOf(c, maxEventAge)), e.aggregate) <==>
            e in EventsOf(log, e.aggregate) && (c.CleanUp? ==> c.now < e.timestamp + maxEventAge)
  {
    hide Retained;
    if c.CleanUp? {
      RetainedMembers(EventsOf(log, e.aggregate), c.now - maxEventAge, e);
      EmptyStaysEmpty(c.now - maxEventAge);
    }
  }

  /** A recorded event keeps what it was given and gets a missing ID and time; it is in its aggregate after any further
      calls exactly when every cleanup among them ran before its time plus the maximum age. */
  lemma RecordedIsKeptExactly(before: seq<Call>, c: Call, after: seq<Call>, maxEventAge: int)
    requires c.Record?
    requires forall i :: 0 <= i < |after| && after[i].Record? ==> RecordedID(after[i]) != RecordedID(c)
    ensures var ops := OpsOf(before + [c], maxEventAge);
            var es := EventsOf(Run(ops), c.ev.aggregate);
            && es != [] && var e := es[|es| - 1];
            && e.id == RecordedID(c) && e.timestamp == RecordedTime(c)
            && e.aggregate == c.ev.aggregate && e.kind == c.ev.kind
            && (e in EventsOf(Run(ops + OpsOf(after, maxEventAge)), c.ev.aggregate) <==>
                forall i :: 0 <= i < |after| && after[i].CleanUp? ==> after[i].now < RecordedTime(c) + maxEventAge)
  {
    var ops := OpsOf(before + [c], maxEventAge);
    assert Run(ops) == Exec(Run(ops[..|before|]), OpOf(c, maxEventAge));
    var es := EventsOf(Run(ops), c.ev.aggregate);
    StaysUntilOld(ops, after, maxEventAge, es[|es| - 1]);
  }

  // ---------------------------------------------------------------- cursor reads

  /** A consumer that reads in batches and restarts from the version after the last one it saw. */
  datatype Reader = Reader(start: int, cursor: int, delivered: seq<Event>)

  datatype ReaderStep = Produce(ev: Event, freshID: string, now: int) | Read(limit: int)

  function ReadBatch(es: seq<Event>, r: Reader, limit: int): Reader {
    var batch := Limited(AtLeast(es, r.cursor), limit);
    if batch == [] then r else
      r.(cursor := batch[|batch| - 1].version + 1, delivered := r.delivered + batch)
  }

  function RunReader(es: seq<Event>, r: Reader, steps: seq<ReaderStep>): (seq<Event>, Reader)
    decreases |steps|
  {
    if steps == [] then (es, r) else
      match steps[0]
      case Produce(ev, freshID, now) => RunReader(es + [Stamped(es, ev, freshID, now)], r, steps[1..])
      case Read(limit) => RunReader(es, ReadBatch(es, r, limit), steps[1..])
  }

  /** How many events precede version `v`. */
  function Below(es: seq<Event>, v: int): (n: nat)
    ensures n <= |es|
  {
    if es == [] then 0 else Below(es[..|es| - 1], v) + if es[|es| - 1].version < v then 1 else 0
  }

  /** In an increasing log the events from version `v` on are the suffix after those below `v`. */
  lemma {:induction false} AtLeastIsSuffix(es: seq<Event>, v: int)
    requires Increasing(es)
    ensures AtLeast(es, v) == es[Below(es, v)..]
    ensures forall i :: 0 <= i < |es| ==> (es[i].version < v <==> i < Below(es, v))
  {
    if es != [] {
      var init, last := es[..|es| - 1], es[|es| - 1];
      assert es == init + [last];
      assert Increasing(init);
      AtLeastIsSuffix(init, v);
      if last.version < v {
        assert forall i :: 0 <= i < |init| ==> init[i].version < v;
        assert Below(init, v) == |init|;
      }
    }
  }

  /** What has been delivered is exactly the events from the start version up to the cursor, in order. */
  ghost predicate Lossless(es: seq<Event>, r: Reader) {
    && Increasing(es)
    && r.start <= r.cursor
    && (r.cursor > r.start ==> es != [] && r.cursor <= es[|es| - 1].version + 1)
    && Below(es, r.start) <= Below(es, r.cursor)
    && r.delivered == es[Below(es, r.start)..Below(es, r.cursor)]
  }

  lemma ProduceKeepsLossless(es: seq<Event>, r: Reader, e: Event)
    requires Lossless(es, r) && e.version == NextVersion(es)
    ensures Lossless(es + [e], r)
  {
    var es' := es + [e];
    assert es'[..|es|] == es;
    var p, q := Below(es, r.start), Below(es, r.cursor);
    if r.cursor > r.start {
      assert Below(es', r.start) == p by {
        AtLeastIsSuffix(es, r.start);
      }
      assert es'[p..q] == es[p..q];
    }
  }

  /** The events before the version after an event are those up to it. */
  lemma BelowAfter(es: seq<Event>, k: nat)
    requires Increasing(es) && 0 < k <= |es|
    ensures Below(es, es[k - 1].version + 1) == k
  {
    hide AtLeast, Below;
    var next := es[k - 1].version + 1;
    AtLeastIsSuffix(es, next);
    assert k - 1 < Below(es, next);
    assert k < |es| ==> es[k - 1].version < es[k].version;
  }

  lemma ReadKeepsLossless(es: seq<Event>, r: Reader, limit: int)
    requires Lossless(es, r)
    ensures Lossless(es, ReadBatch(es, r, limit))
    ensures var r' := ReadBatch(es, r, limit);
            if limit > 0 then |r'.delivered| == Min(|AtLeast(es, r.start)|, |r.delivered| + limit)
            else r'.delivered == AtLeast(es, r.start)
  {
    hide AtLeast, Below;
    var p, q := Below(es, r.start), Below(es, r.cursor);
    AtLeastIsSuffix(es, r.start);
    AtLeastIsSuffix(es, r.cursor);
    var batch := Limited(es[q..], limit);
    if batch == [] {
      assert es[p..q] == es[p..];
    } else {
      var q' := q + |batch|;
      assert batch == es[q..q'];
      BelowAfter(es, q');
      assert es[p..q] + es[q..q'] == es[p..q'];
      assert q' == |es| ==> es[p..q'] == es[p..];
    }
  }

  function ReadTimes(es: seq<Event>, r: Reader, limit: int, n: nat): Reader {
    if n == 0 then r else ReadBatch(es, ReadTimes(es, r, limit, n - 1), limit)
  }

  function Min(a: int, b: int): int {
    if a < b then a else b
  }

  /** Reads of a positive limit deliver that many further events each, until all are delivered. */
  lemma {:induction false} ReadsMakeProgress(es: seq<Event>, r: Reader, limit: int, n: nat)
    requires Lossless(es, r) && limit > 0
    ensures var r' := ReadTimes(es, r, limit, n);
            && Lossless(es, r') && r'.start == r.start && r'.delivered <= AtLeast(es, r.start)
            && |r'.delivered| == Min(|AtLeast(es, r.start)|, |r.delivered| + n * limit)
  {
    hide Lossless, ReadBatch, AtLeast;
    DeliveredIsPrefix(es, r);
    if n > 0 {
      var before := ReadTimes(es, r, limit, n - 1);
      ReadsMakeProgress(es, r, limit, n - 1);
      ReadKeepsLossless(es, before, limit);
      StartIsFixed(es, before, limit);
      DeliveredIsPrefix(es, ReadBatch(es, before, limit));
      assert (n - 1) * limit + limit == n * limit;
    }
  }

  /** Batched reads with interleaved appends deliver every event at or above the start version exactly once and in
      order, and `n` more reads of a positive limit deliver that many times the limit or, if that is enough, everything
      the unlimited read returns. */
  lemma {:induction false} CursorReadsAreLossless(es: seq<Event>, r: Reader, steps: seq<ReaderStep>, limit: int, n: nat)
    requires Lossless(es, r) && limit > 0
    ensures var (es', r') := RunReader(es, r, steps);
            var r'', all := ReadTimes(es', r', limit, n), AtLeast(es', r.start);
            && r'.start == r.start && r'.delivered <= all
            && r''.delivered == all[..Min(|all|, |r'.delivered| + n * limit)]
            && (n * limit >= |all| - |r'.delivered| ==> r''.delivered == all)
    decreases |steps|
  {
    hide Lossless, ReadBatch, AtLeast;
    if steps == [] {
      DeliveredIsPrefix(es, r);
      ReadsMakeProgress(es, r, limit, n);
    } else {
      match steps[0]
      case Produce(ev, freshID, now) =>
        var e := Stamped(es, ev, freshID, now);
        ProduceKeepsLossless(es, r, e);
        CursorReadsAreLossless(es + [e], r, steps[1..], limit, n);
      case Read(size) =>
        ReadKeepsLossless(es, r, size);
        StartIsFixed(es, r, size);
        CursorReadsAreLossless(es, ReadBatch(es, r, size), steps[1..], limit, n);
    }
  }

  lemma DeliveredIsPrefix(es: seq<Event>, r: Reader)
    requires Lossless(es, r)
    ensures r.delivered <= AtLeast(es, r.start)
  {
    AtLeastIsSuffix(es, r.start);
  }

  lemma StartIsFixed(es: seq<Event>, r: Reader, limit: int)
    ensures ReadBatch(es, r, limit).start == r.start
  {
  }

  /** A new reader has missed nothing. */
  lemma NewReaderIsLossless(es: seq<Event>, start: int)
    requires Increasing(es)
    ensures Lossless(es, Reader(start, start, []))
  {
  }
}
