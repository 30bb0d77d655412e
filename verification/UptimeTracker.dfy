/**
 The state of one service's uptime tracker, the two steps that change it, and what holds
 after every history of steps. Times are integers; time zero is the unset time.
 */
module UptimeTracker {

  const ZERO_TIME := 0

  datatype Status = Unknown | Healthy | Unhealthy

  datatype Incident = Incident(start: int, end: int, duration: int, resolved: bool)

  datatype Tracker = Tracker(
    name: string,
    firstSeen: int,
    lastSeen: int,
    lastStatus: Status,
    totalUptime: int,
    totalDowntime: int,
    incidents: seq<Incident>)

  function NewTracker(name: string, first: int, seen: int): Tracker {
    Tracker(name, first, seen, Unknown, 0, 0, [])
  }

  // ----- Steps -----

  function Resolved(i: Incident, now: int): Incident {
    Incident(i.start, now, now - i.start, true)
  }

  // The incident log and the downtime booked when the status changes.
  function ChangeStatus(s: Tracker, now: int, healthy: bool): Tracker {
    var n := |s.incidents|;
    if !healthy && s.lastStatus == Healthy then
      s.(incidents := s.incidents + [Incident(now, ZERO_TIME, 0, false)], lastStatus := Unhealthy)
    else if healthy && s.lastStatus == Unhealthy && n > 0 && !s.incidents[n - 1].resolved then
      var i := Resolved(s.incidents[n - 1], now);
      s.(incidents := s.incidents[n - 1 := i], totalDowntime := s.totalDowntime + i.duration, lastStatus := Healthy)
    else
      s.(lastStatus := if healthy then Healthy else Unhealthy)
  }

  function Accumulate(s: Tracker, now: int, healthy: bool): Tracker {
    var gap := if s.lastSeen == ZERO_TIME then 0 else now - s.lastSeen;
    if healthy then s.(totalUptime := s.totalUptime + gap, lastSeen := now)
    else s.(totalDowntime := s.totalDowntime + gap)
  }

  /** The periodic tick, on what the last published check said of the service. */
  function Tick(s: Tracker, now: int, healthy: bool): Tracker {
    Accumulate(ChangeStatus(s, now, healthy), now, healthy)
  }

  /** What a health check does to the tracker of a service it has probed. */
  function Probe(s: Tracker, now: int, healthy: bool): Tracker {
    if healthy && s.lastStatus != Healthy then s.(lastSeen := now) else s
  }

  // ----- Histories -----

  datatype Event = TickEvent(now: int, healthy: bool) | ProbeEvent(now: int, healthy: bool)

  function Step(s: Tracker, e: Event): Tracker {
    match e
    case TickEvent(now, healthy) => Tick(s, now, healthy)
    case ProbeEvent(now, healthy) => Probe(s, now, healthy)
  }

  function Run(s: Tracker, es: seq<Event>): Tracker {
    if es == [] then s else Step(Run(s, es[..|es| - 1]), es[|es| - 1])
  }

  // The time of the last tick, or of creation.
  function LastTick(seen: int, es: seq<Event>): int {
    if es == [] then seen
    else if es[|es| - 1].TickEvent? then es[|es| - 1].now else LastTick(seen, es[..|es| - 1])
  }

  // The latest time of all.
  function Latest(seen: int, es: seq<Event>): int {
    if es == [] then seen
    else
      var before := Latest(seen, es[..|es| - 1]);
      if es[|es| - 1].now > before then es[|es| - 1].now else before
  }

  /**
   The clock as the code reads it: a probe reads it after everything before it, but a
   tick reads it once for all trackers, so a probe may overtake the tick.
   */
  ghost predicate Clocked(first: int, seen: int, es: seq<Event>) {
    if es == [] then ZERO_TIME < first <= seen
    else
      var front, last := es[..|es| - 1], es[|es| - 1];
      Clocked(first, seen, front) && last.now >= if last.TickEvent? then LastTick(seen, front) else Latest(seen, front)
  }

  /** A history in which no probe overtakes a tick. */
  ghost predicate InOrder(first: int, seen: int, es: seq<Event>) {
    if es == [] then ZERO_TIME < first <= seen
    else InOrder(first, seen, es[..|es| - 1]) && es[|es| - 1].now >= Latest(seen, es[..|es| - 1])
  }

  lemma {:induction false} LastTickIsNotLater(seen: int, es: seq<Event>)
    ensures LastTick(seen, es) <= Latest(seen, es)
  {
    if es != [] {
      LastTickIsNotLater(seen, es[..|es| - 1]);
    }
  }

  lemma {:induction false} InOrderIsClocked(first: int, seen: int, es: seq<Event>)
    requires InOrder(first, seen, es)
    ensures Clocked(first, seen, es)
  {
    if es != [] {
      InOrderIsClocked(first, seen, es[..|es| - 1]);
      LastTickIsNotLater(seen, es[..|es| - 1]);
    }
  }

  // ----- Where the last sighting stands -----

  /** The last sighting is a past time, and that of a healthy tracker is its last tick. */
  lemma {:induction false} LastSeenIs(name: string, first: int, seen: int, es: seq<Event>)
    requires Clocked(first, seen, es)
    ensures var s := Run(NewTracker(name, first, seen), es);
            && s.firstSeen == first && s.name == name
            && ZERO_TIME < first <= seen <= s.lastSeen <= Latest(seen, es) && seen <= LastTick(seen, es)
            && (s.lastStatus == Healthy ==> s.lastSeen == LastTick(seen, es))
  {
    if es != [] {
      LastSeenIs(name, first, seen, es[..|es| - 1]);
      LastTickIsNotLater(seen, es[..|es| - 1]);
    }
  }

  // ----- The uptime ledger -----

  /** The time that healthy probes skip: each moves the last sighting of a tracker that is not healthy. */
  function Skipped(s: Tracker, es: seq<Event>): int {
    if es == [] then 0
    else
      var before, last := Run(s, es[..|es| - 1]), es[|es| - 1];
      Skipped(s, es[..|es| - 1])
      + (if last.ProbeEvent? then Probe(before, last.now, last.healthy).lastSeen - before.lastSeen else 0)
  }

  /** Exactly: uptime and skipped time together are the time from creation to the last sighting. */
  lemma {:induction false} UptimeLedger(name: string, first: int, seen: int, es: seq<Event>)
    requires Clocked(first, seen, es)
    ensures var s0 := NewTracker(name, first, seen);
            Run(s0, es).totalUptime + Skipped(s0, es) == Run(s0, es).lastSeen - seen
            && Skipped(s0, es) >= 0
  {
    if es != [] {
      UptimeLedger(name, first, seen, es[..|es| - 1]);
      LastSeenIs(name, first, seen, es[..|es| - 1]);
    }
  }

  /** Uptime fits between the first and the last sighting, and is negative exactly when more was skipped. */
  lemma UptimeIsBounded(name: string, first: int, seen: int, es: seq<Event>)
    requires Clocked(first, seen, es)
    ensures var s0 := NewTracker(name, first, seen);
            var s := Run(s0, es);
            && s.totalUptime <= s.lastSeen - s.firstSeen
            && (s.totalUptime < 0 <==> Skipped(s0, es) > s.lastSeen - seen)
  {
    UptimeLedger(name, first, seen, es);
    LastSeenIs(name, first, seen, es);
  }

  // ----- The report -----

  const SECOND := 1_000_000_000

  function CurrentUptime(s: Tracker, now: int): int {
    if s.lastStatus == Healthy && s.lastSeen != ZERO_TIME then s.totalUptime + (now - s.lastSeen) else s.totalUptime
  }

  function UptimePercentage(s: Tracker, now: int): real {
    var total := if now == s.firstSeen then SECOND else now - s.firstSeen;
    CurrentUptime(s, now) as real / total as real * 100.0
  }

  lemma ShareIsPercentage(part: int, total: int)
    requires part <= total && 0 < total
    ensures var p := part as real / total as real * 100.0;
            p <= 100.0 && (0 <= part <==> 0.0 <= p)
  {
    var q := part as real / total as real;
    assert q * total as real == part as real;
    assert q <= 1.0;
    assert 0 <= part <==> 0.0 <= q;
  }

  /** The time up to which uptime is reported: the present for a healthy tracker, else its last sighting. */
  function ReportedUpTo(s: Tracker, now: int): int {
    if s.lastStatus == Healthy then now else s.lastSeen
  }

  lemma {:induction false} UptimeByLastTick(name: string, first: int, seen: int, es: seq<Event>)
    requires Clocked(first, seen, es)
    ensures Run(NewTracker(name, first, seen), es).totalUptime <= LastTick(seen, es) - seen
  {
    if es != [] {
      UptimeByLastTick(name, first, seen, es[..|es| - 1]);
      UptimeLedger(name, first, seen, es);
      LastSeenIs(name, first, seen, es);
    }
  }

  /**
   The reported percentage is at most 100, and below 0 exactly when healthy probes have
   skipped too much. The report reads its clock once, so a probe may be later than that;
   a tick may not, since the lock that a report takes keeps rounds out.
   */
  lemma PercentageIsInRange(name: string, first: int, seen: int, es: seq<Event>, now: int)
    requires Clocked(first, seen, es) && now >= LastTick(seen, es)
    ensures var s0 := NewTracker(name, first, seen);
            var s := Run(s0, es);
            && UptimePercentage(s, now) <= 100.0
            && (UptimePercentage(s, now) < 0.0 <==> Skipped(s0, es) > ReportedUpTo(s, now) - seen)
  {
    var s := Run(NewTracker(name, first, seen), es);
    LastSeenIs(name, first, seen, es);
    UptimeByLastTick(name, first, seen, es);
    UptimeLedger(name, first, seen, es);
    var total := if now == s.firstSeen then SECOND else now - s.firstSeen;
    ShareIsPercentage(CurrentUptime(s, now), total);
  }

  lemma PercentageTimesTotal(part: int, total: int)
    requires total > 0
    ensures part as real / total as real * 100.0 * total as real == 100.0 * part as real
  {
    var q := part as real / total as real;
    assert q * total as real == part as real;
    assert q * 100.0 * total as real == 100.0 * (q * total as real);
  }

  // The percentage p of a total is the part: p / 100 = part / total.
  ghost predicate IsShare(p: real, part: int, total: int) {
    p * total as real == 100.0 * part as real
  }

  /** The time a percentage is out of: one second if none has passed. */
  function TotalTime(first: int, now: int): int {
    if now == first then 1_000_000_000 else now - first
  }

  lemma PercentageOfTotal(s: Tracker, now: int, first: int, up: int)
    requires s.firstSeen == first <= now && up == CurrentUptime(s, now)
    ensures IsShare(UptimePercentage(s, now), up, TotalTime(first, now))
  {
    PercentageTimesTotal(up, TotalTime(first, now));
  }

  lemma CurrentUptimeIs(name: string, first: int, seen: int, es: seq<Event>, now: int)
    requires Clocked(first, seen, es) && now >= LastTick(seen, es)
    ensures var s0 := NewTracker(name, first, seen);
            var s := Run(s0, es);
            && CurrentUptime(s, now) == ReportedUpTo(s, now) - seen - Skipped(s0, es)
            && s.firstSeen == first <= now
  {
    LastSeenIs(name, first, seen, es);
    UptimeLedger(name, first, seen, es);
  }

  /**
   The reported percentage, exactly: the time reported on since creation, less what healthy
   probes skipped, out of the time since first sight, or of one second if there is none.
   */
  lemma PercentageIs(name: string, first: int, seen: int, es: seq<Event>, now: int, s: Tracker, up: int)
    requires Clocked(first, seen, es) && now >= LastTick(seen, es)
    requires var s0 := NewTracker(name, first, seen);
             s == Run(s0, es) && up == ReportedUpTo(s, now) - seen - Skipped(s0, es)
    ensures IsShare(UptimePercentage(s, now), up, TotalTime(first, now))
  {
    assert up == CurrentUptime(s, now) && s.firstSeen == first <= now by {
      CurrentUptimeIs(name, first, seen, es, now);
    }
    PercentageOfTotal(s, now, first, up);
  }

  // Healthy ticks and any probes only, at least one tick, and no healthy probe before it.
  ghost predicate IsHealthyThroughout(es: seq<Event>) {
    && (exists i :: 0 <= i < |es| && es[i].TickEvent?)
    && (forall i :: 0 <= i < |es| && es[i].TickEvent? ==> es[i].healthy)
    && forall i :: 0 <= i < |es| && es[i].ProbeEvent? && es[i].healthy ==> exists j :: 0 <= j < i && es[j].TickEvent?
  }

  lemma {:induction false} HealthyThroughout(name: string, first: int, seen: int, es: seq<Event>)
    requires Clocked(first, seen, es)
    requires forall i :: 0 <= i < |es| && es[i].TickEvent? ==> es[i].healthy
    requires forall i :: 0 <= i < |es| && es[i].ProbeEvent? && es[i].healthy ==>
               exists j :: 0 <= j < i && es[j].TickEvent?
    ensures Skipped(NewTracker(name, first, seen), es) == 0
    ensures (exists i :: 0 <= i < |es| && es[i].TickEvent?) ==>
              Run(NewTracker(name, first, seen), es).lastStatus == Healthy
  {
    if es != [] {
      var front, last := es[..|es| - 1], es[|es| - 1];
      assert forall i :: 0 <= i < |front| ==> front[i] == es[i];
      HealthyThroughout(name, first, seen, front);
    }
  }

  /** A service that was healthy throughout is reported with exactly 100 percent. */
  lemma AlwaysHealthyIsFull(name: string, first: int, es: seq<Event>, now: int)
    requires Clocked(first, first, es) && now >= LastTick(first, es) && now > first && IsHealthyThroughout(es)
    ensures UptimePercentage(Run(NewTracker(name, first, first), es), now) == 100.0
  {
    var s := Run(NewTracker(name, first, first), es);
    HealthyThroughout(name, first, first, es);
    CurrentUptimeIs(name, first, first, es, now);
    FullShare(s, now);
  }

  lemma FullShare(s: Tracker, now: int)
    requires CurrentUptime(s, now) == now - s.firstSeen > 0
    ensures UptimePercentage(s, now) == 100.0
  {
    var total := now - s.firstSeen;
    WholeIsFull(total);
    assert UptimePercentage(s, now) == total as real / total as real * 100.0;
  }

  lemma WholeIsFull(total: int)
    requires total > 0
    ensures total as real / total as real == 1.0
  {}

  // ----- The downtime ledger -----

  function ResolvedTime(log: seq<Incident>): int {
    if log == [] then 0
    else ResolvedTime(log[..|log| - 1]) + (if log[|log| - 1].resolved then log[|log| - 1].duration else 0)
  }

  /** What the unhealthy ticks book: each the whole time since the last sighting. */
  function Charged(s: Tracker, es: seq<Event>): int {
    if es == [] then 0
    else
      var last := es[|es| - 1];
      Charged(s, es[..|es| - 1])
      + (if last.TickEvent? && !last.healthy then last.now - Run(s, es[..|es| - 1]).lastSeen else 0)
  }

  /** Exactly: downtime is the time of resolved incidents plus what the unhealthy ticks booked. */
  lemma {:induction false} DowntimeLedger(name: string, first: int, seen: int, es: seq<Event>)
    requires Clocked(first, seen, es)
    ensures var s0 := NewTracker(name, first, seen);
            Run(s0, es).totalDowntime == ResolvedTime(Run(s0, es).incidents) + Charged(s0, es)
  {
    if es != [] {
      var s := Run(NewTracker(name, first, seen), es[..|es| - 1]);
      var last := es[|es| - 1];
      DowntimeLedger(name, first, seen, es[..|es| - 1]);
      LastSeenIs(name, first, seen, es[..|es| - 1]);
      if last.TickEvent? {
        BookedOnChange(s, last.now, last.healthy);
      }
    }
  }

  lemma BookedOnChange(s: Tracker, now: int, healthy: bool)
    ensures var t := ChangeStatus(s, now, healthy);
            t.totalDowntime - s.totalDowntime == ResolvedTime(t.incidents) - ResolvedTime(s.incidents)
            && t.lastSeen == s.lastSeen && t.totalUptime == s.totalUptime
  {
    var t := ChangeStatus(s, now, healthy);
    var n := |s.incidents|;
    if |t.incidents| == n + 1 {
      assert t.incidents[..n] == s.incidents;
    } else if t.incidents != s.incidents {
      assert t.incidents[..n - 1] == s.incidents[..n - 1];
    }
  }

  /** Downtime is negative exactly when the unhealthy ticks have booked less than nothing, beyond what was resolved. */
  lemma {:induction false} DowntimeIsNegativeIff(name: string, first: int, seen: int, es: seq<Event>)
    requires Clocked(first, seen, es)
    ensures var s0 := NewTracker(name, first, seen);
            var s := Run(s0, es);
            && ResolvedTime(s.incidents) >= 0
            && (s.totalDowntime < 0 <==> Charged(s0, es) < -ResolvedTime(s.incidents))
  {
    DowntimeLedger(name, first, seen, es);
    IncidentsAreWellFormed(name, first, seen, es);
    LastSeenIs(name, first, seen, es);
    ResolvedTimeIsNotNegative(Run(NewTracker(name, first, seen), es).incidents);
  }

  lemma {:induction false} ResolvedTimeIsNotNegative(log: seq<Incident>)
    requires forall i :: 0 <= i < |log| && log[i].resolved ==> log[i].duration >= 0
    ensures ResolvedTime(log) >= 0
  {
    if log != [] {
      ResolvedTimeIsNotNegative(log[..|log| - 1]);
    }
  }

  // ----- When do the totals drop? -----

  // An event that the clock allows next.
  ghost predicate IsNext(seen: int, es: seq<Event>, e: Event) {
    e.now >= if e.TickEvent? then LastTick(seen, es) else Latest(seen, es)
  }

  /**
   One more event: uptime drops exactly at a healthy tick that a healthy probe has
   overtaken, downtime at an unhealthy one. No incident is removed, and settled incidents
   never change.
   */
  lemma {:induction false} StepLowersIff(name: string, first: int, seen: int, es: seq<Event>, e: Event)
    requires Clocked(first, seen, es) && IsNext(seen, es, e)
    ensures var s := Run(NewTracker(name, first, seen), es);
            var t := Step(s, e);
            && (t.totalUptime < s.totalUptime <==> e.TickEvent? && e.healthy && e.now < s.lastSeen)
            && (t.totalDowntime < s.totalDowntime <==> e.TickEvent? && !e.healthy && e.now < s.lastSeen)
            && |s.incidents| <= |t.incidents|
            && forall i :: 0 <= i < |s.incidents| && s.incidents[i].resolved ==> t.incidents[i] == s.incidents[i]
  {
    LastSeenIs(name, first, seen, es);
    IncidentsAreWellFormed(name, first, seen, es);
  }

  // No tick is earlier than the last sighting at its time.
  ghost predicate NoTickIsOvertaken(s: Tracker, es: seq<Event>) {
    es != [] ==>
      var front, last := es[..|es| - 1], es[|es| - 1];
      NoTickIsOvertaken(s, front) && (last.TickEvent? ==> Run(s, front).lastSeen <= last.now)
  }

  // Both totals at most grow from each event to the next.
  ghost predicate TotalsNeverDrop(s: Tracker, es: seq<Event>) {
    forall i :: 0 <= i < |es| ==>
      var before, after := Run(s, es[..i]), Run(s, es[..i + 1]);
      before.totalUptime <= after.totalUptime && before.totalDowntime <= after.totalDowntime
  }

  lemma TotalsOfFront(s: Tracker, es: seq<Event>)
    requires es != []
    ensures var front := es[..|es| - 1];
            TotalsNeverDrop(s, es) <==>
            && TotalsNeverDrop(s, front)
            && Run(s, front).totalUptime <= Run(s, es).totalUptime
            && Run(s, front).totalDowntime <= Run(s, es).totalDowntime
  {
    var front := es[..|es| - 1];
    assert es[..|es|] == es;
    assert forall i :: 0 <= i <= |front| ==> front[..i] == es[..i];
  }

  /** Over a whole history, the totals never drop exactly when no tick is overtaken. */
  lemma {:induction false} TotalsNeverDropIff(name: string, first: int, seen: int, es: seq<Event>)
    requires Clocked(first, seen, es)
    ensures var s0 := NewTracker(name, first, seen);
            TotalsNeverDrop(s0, es) <==> NoTickIsOvertaken(s0, es)
  {
    if es != [] {
      var front, last := es[..|es| - 1], es[|es| - 1];
      TotalsNeverDropIff(name, first, seen, front);
      TotalsOfFront(NewTracker(name, first, seen), es);
      StepLowersIff(name, first, seen, front, last);
    }
  }

  /** In order, no tick is overtaken: the totals never drop, are not negative and report at least 0 percent. */
  lemma {:induction false} InOrderIsFair(name: string, first: int, seen: int, es: seq<Event>)
    requires InOrder(first, seen, es)
    ensures var s := Run(NewTracker(name, first, seen), es);
            && NoTickIsOvertaken(NewTracker(name, first, seen), es)
            && 0 <= s.totalUptime && 0 <= s.totalDowntime
            && forall now :: now >= LastTick(seen, es) ==> 0.0 <= UptimePercentage(s, now)
  {
    InOrderIsClocked(first, seen, es);
    LastSeenIs(name, first, seen, es);
    if es != [] {
      var front, last := es[..|es| - 1], es[|es| - 1];
      InOrderIsFair(name, first, seen, front);
      InOrderIsClocked(first, seen, front);
      LastSeenIs(name, first, seen, front);
      LastTickIsNotLater(seen, front);
      StepLowersIff(name, first, seen, front, last);
    }
    var s := Run(NewTracker(name, first, seen), es);
    forall now | now >= LastTick(seen, es) ensures 0.0 <= UptimePercentage(s, now) {
      UptimeLedger(name, first, seen, es);
      PercentageIsInRange(name, first, seen, es, now);
    }
  }

  // ----- Incidents -----

  // The end of the last resolved incident, or f.
  function LastEnd(f: int, log: seq<Incident>): int {
    if log == [] then f
    else if log[|log| - 1].resolved then log[|log| - 1].end else LastEnd(f, log[..|log| - 1])
  }

  /**
   Only the last incident may be open, resolved ones last from start to end, and they
   follow each other without overlap between the times from and to.
   */
  ghost predicate WellFormed(log: seq<Incident>, from: int, to: int) {
    && (forall i :: 0 <= i < |log| ==> from <= log[i].start <= to)
    && (forall i :: 0 <= i < |log| - 1 ==> log[i].resolved)
    && (forall i :: 0 <= i < |log| && log[i].resolved ==>
          log[i].start <= log[i].end <= to && log[i].duration == log[i].end - log[i].start)
    && (forall i, j :: 0 <= i < j < |log| ==> log[i].end <= log[j].start)
    && ResolvedTime(log) <= LastEnd(from, log) - from
  }

  lemma OpenIncident(log: seq<Incident>, from: int, to: int, now: int)
    requires WellFormed(log, from, to) && to <= now && from <= to
    requires log != [] ==> log[|log| - 1].resolved
    ensures WellFormed(log + [Incident(now, ZERO_TIME, 0, false)], from, now)
  {
    var r := log + [Incident(now, ZERO_TIME, 0, false)];
    assert r[..|log|] == log;
  }

  lemma CloseIncident(log: seq<Incident>, from: int, to: int, now: int)
    requires WellFormed(log, from, to) && to <= now && from <= to
    requires log != [] && !log[|log| - 1].resolved
    ensures WellFormed(log[|log| - 1 := Resolved(log[|log| - 1], now)], from, now)
  {
    var n := |log|;
    var r := log[n - 1 := Resolved(log[n - 1], now)];
    assert r[..n - 1] == log[..n - 1];
    assert n > 1 ==> log[..n - 1][|log[..n - 1]| - 1] == log[n - 2];
    assert LastEnd(from, log) == LastEnd(from, log[..n - 1]) <= log[n - 1].start;
    assert ResolvedTime(r) == ResolvedTime(log) + (now - log[n - 1].start);
    assert LastEnd(from, r) == now;
  }

  ghost predicate LogIsWellFormed(s: Tracker, to: int) {
    && WellFormed(s.incidents, s.firstSeen, to)
    && (s.lastStatus == Unknown ==> s.incidents == [])
    && (s.incidents != [] ==> (!s.incidents[|s.incidents| - 1].resolved <==> s.lastStatus == Unhealthy))
  }

  lemma TickKeepsLog(s: Tracker, to: int, now: int, healthy: bool)
    requires LogIsWellFormed(s, to) && s.firstSeen <= to <= now
    ensures LogIsWellFormed(Tick(s, now, healthy), now)
  {
    if !healthy && s.lastStatus == Healthy {
      OpenIncident(s.incidents, s.firstSeen, to, now);
    } else if healthy && s.lastStatus == Unhealthy && s.incidents != [] {
      CloseIncident(s.incidents, s.firstSeen, to, now);
    }
  }

  /** After every history the log is well formed up to the last tick, with an open incident only while unhealthy. */
  lemma {:induction false} IncidentsAreWellFormed(name: string, first: int, seen: int, es: seq<Event>)
    requires Clocked(first, seen, es)
    ensures LogIsWellFormed(Run(NewTracker(name, first, seen), es), LastTick(seen, es))
  {
    if es != [] {
      var front, last := es[..|es| - 1], es[|es| - 1];
      IncidentsAreWellFormed(name, first, seen, front);
      LastSeenIs(name, first, seen, front);
      if last.TickEvent? {
        TickKeepsLog(Run(NewTracker(name, first, seen), front), LastTick(seen, front), last.now, last.healthy);
      }
    }
  }

  /** Resolved incidents end by the last sighting, and together fit between the first and the last. */
  lemma {:induction false} ResolvedTimeFits(name: string, first: int, seen: int, es: seq<Event>)
    requires Clocked(first, seen, es)
    ensures var s := Run(NewTracker(name, first, seen), es);
            && LastEnd(first, s.incidents) <= s.lastSeen
            && ResolvedTime(s.incidents) <= s.lastSeen - s.firstSeen
  {
    IncidentsAreWellFormed(name, first, seen, es);
    LastSeenIs(name, first, seen, es);
    if es != [] {
      var front, last := es[..|es| - 1], es[|es| - 1];
      var s := Run(NewTracker(name, first, seen), front);
      ResolvedTimeFits(name, first, seen, front);
      LastSeenIs(name, first, seen, front);
      IncidentsAreWellFormed(name, first, seen, front);
      LastEndIsPast(s.incidents, first, LastTick(seen, front));
      var t := ChangeStatus(s, last.now, last.healthy);
      if last.TickEvent? && |t.incidents| == |s.incidents| + 1 {
        assert t.incidents[..|s.incidents|] == s.incidents;
      }
    }
  }

  lemma {:induction false} LastEndIsPast(log: seq<Incident>, from: int, to: int)
    requires WellFormed(log, from, to) && from <= to
    ensures LastEnd(from, log) <= to
  {
    if log != [] && !log[|log| - 1].resolved && |log| > 1 {
      assert log[..|log| - 1][|log| - 2] == log[|log| - 2];
    }
  }
}
