/**
 The health service as a state machine over its interleaved steps. A tick round holds the
 lock that creation needs, but probes and publications may fall between its visits.
 */
module UptimeRuns {
  import opened Sorting
  import opened UptimeTracker
  import opened UptimeHistory
  import opened UptimeMonitor

  /** A tick round in progress: the time it read, and the trackers it has still to visit. */
  datatype Round = Idle | Ticking(now: int, pending: set<string>)

  datatype System = System(
    trackers: map<string, Tracker>,
    published: map<string, bool>,
    round: Round,
    clock: int)

  datatype Action =
    | CreateTracker(name: string, first: int, seen: int)
    | ProbeService(name: string, healthy: bool, now: int)
    | PublishCheck(name: string, healthy: bool)
    | BeginRound(now: int)
    | VisitTracker(name: string)
    | EndRound

  /** When a step can happen; every reading of the clock is no earlier than the one before. */
  predicate Enabled(s: System, a: Action) {
    match a
    case CreateTracker(name, first, seen) => s.round.Idle? && s.clock <= first <= seen
    case ProbeService(name, healthy, now) => name in s.trackers && s.clock <= now
    case PublishCheck(name, healthy) => true
    case BeginRound(now) => s.round.Idle? && s.clock <= now
    case VisitTracker(name) => s.round.Ticking? && name in s.round.pending && name in s.trackers
    case EndRound => s.round.Ticking? && s.round.pending == {}
  }

  function Apply(s: System, a: Action): System
    requires Enabled(s, a)
  {
    match a
    case CreateTracker(name, first, seen) => s.(trackers := Ensure(s.trackers, name, first, seen), clock := seen)
    case ProbeService(name, healthy, now) =>
      s.(trackers := s.trackers[name := Probe(s.trackers[name], now, healthy)], clock := now)
    case PublishCheck(name, healthy) => s.(published := s.published[name := healthy])
    case BeginRound(now) => s.(round := Ticking(now, s.trackers.Keys), clock := now)
    case VisitTracker(name) =>
      s.(trackers := s.trackers[name := Tick(s.trackers[name], s.round.now, Observed(s.published, name))],
         round := Ticking(s.round.now, s.round.pending - {name}))
    case EndRound => s.(round := Idle)
  }

  function Start(clock: int): System {
    System(map[], map[], Idle, clock)
  }

  ghost predicate Allowed(s: System, run: seq<Action>)
    decreases |run|, 0
  {
    run != [] ==> Allowed(s, run[..|run| - 1]) && Enabled(After(s, run[..|run| - 1]), run[|run| - 1])
  }

  ghost function After(s: System, run: seq<Action>): System
    requires Allowed(s, run)
    decreases |run|, 1
  {
    if run == [] then s else Apply(After(s, run[..|run| - 1]), run[|run| - 1])
  }

  // ----- The history of each tracker -----

  /** When a tracker was created, and what has happened to it since. */
  datatype History = History(first: int, seen: int, events: seq<Event>)

  function Extend(h: History, e: Event): History {
    h.(events := h.events + [e])
  }

  // The histories after one more step.
  function Log(hs: map<string, History>, s: System, a: Action): map<string, History>
    requires Enabled(s, a) && hs.Keys == s.trackers.Keys
  {
    match a
    case CreateTracker(name, first, seen) => if name in hs then hs else hs[name := History(first, seen, [])]
    case ProbeService(name, healthy, now) => hs[name := Extend(hs[name], ProbeEvent(now, healthy))]
    case VisitTracker(name) => hs[name := Extend(hs[name], TickEvent(s.round.now, Observed(s.published, name)))]
    case _ => hs
  }

  // A tracker is what its history makes of it, and no clock reading of the history lies ahead.
  ghost predicate Explains(h: History, t: Tracker, name: string, clock: int) {
    && t == Run(NewTracker(name, h.first, h.seen), h.events)
    && Clocked(h.first, h.seen, h.events)
    && Latest(h.seen, h.events) <= clock
  }

  // A pending visit will tick no earlier than the last tick of its tracker.
  ghost predicate RoundIsLater(round: Round, name: string, h: History) {
    round.Ticking? ==> (name in round.pending ==> LastTick(h.seen, h.events) <= round.now)
  }

  ghost predicate Invariant(s: System, hs: map<string, History>) {
    && ZERO_TIME < s.clock
    && hs.Keys == s.trackers.Keys
    && (s.round.Ticking? ==> s.round.now <= s.clock && s.round.pending <= s.trackers.Keys)
    && forall n :: n in hs ==>
         Explains(hs[n], s.trackers[n], n, s.clock) && RoundIsLater(s.round, n, hs[n])
  }

  lemma OneMoreEvent(h: History, t: Tracker, name: string, clock: int, e: Event)
    requires Explains(h, t, name, clock)
    requires e.now >= if e.TickEvent? then LastTick(h.seen, h.events) else Latest(h.seen, h.events)
    ensures Explains(Extend(h, e), Step(t, e), name, if e.now > clock then e.now else clock)
    ensures e.TickEvent? ==> LastTick(h.seen, Extend(h, e).events) == e.now
    ensures e.ProbeEvent? ==> LastTick(h.seen, Extend(h, e).events) == LastTick(h.seen, h.events)
  {
    assert Extend(h, e).events[..|h.events|] == h.events;
  }

  lemma CreateKeepsInvariant(s: System, hs: map<string, History>, name: string, first: int, seen: int)
    requires Invariant(s, hs) && Enabled(s, CreateTracker(name, first, seen))
    ensures Invariant(Apply(s, CreateTracker(name, first, seen)), Log(hs, s, CreateTracker(name, first, seen)))
  {
  }

  lemma ProbeKeepsInvariant(s: System, hs: map<string, History>, name: string, healthy: bool, now: int)
    requires Invariant(s, hs) && Enabled(s, ProbeService(name, healthy, now))
    ensures Invariant(Apply(s, ProbeService(name, healthy, now)), Log(hs, s, ProbeService(name, healthy, now)))
  {
    OneMoreEvent(hs[name], s.trackers[name], name, s.clock, ProbeEvent(now, healthy));
  }

  lemma BeginKeepsInvariant(s: System, hs: map<string, History>, now: int)
    requires Invariant(s, hs) && Enabled(s, BeginRound(now))
    ensures Invariant(Apply(s, BeginRound(now)), hs)
  {
    forall n | n in hs ensures RoundIsLater(Apply(s, BeginRound(now)).round, n, hs[n]) {
      LastTickIsNotLater(hs[n].seen, hs[n].events);
    }
  }

  lemma VisitKeepsInvariant(s: System, hs: map<string, History>, name: string)
    requires Invariant(s, hs) && Enabled(s, VisitTracker(name))
    ensures Invariant(Apply(s, VisitTracker(name)), Log(hs, s, VisitTracker(name)))
  {
    OneMoreEvent(hs[name], s.trackers[name], name, s.clock, TickEvent(s.round.now, Observed(s.published, name)));
  }

  lemma StepKeepsInvariant(s: System, hs: map<string, History>, a: Action)
    requires Invariant(s, hs) && Enabled(s, a)
    ensures Invariant(Apply(s, a), Log(hs, s, a))
  {
    match a
    case CreateTracker(name, first, seen) => CreateKeepsInvariant(s, hs, name, first, seen);
    case ProbeService(name, healthy, now) => ProbeKeepsInvariant(s, hs, name, healthy, now);
    case PublishCheck(name, healthy) =>
    case BeginRound(now) => BeginKeepsInvariant(s, hs, now);
    case VisitTracker(name) => VisitKeepsInvariant(s, hs, name);
    case EndRound =>
  }

  /** Every reachable state is explained by a history of each of its trackers. */
  lemma {:induction false} ReachableIsExplained(clock: int, run: seq<Action>) returns (hs: map<string, History>)
    requires ZERO_TIME < clock && Allowed(Start(clock), run)
    ensures Invariant(After(Start(clock), run), hs)
  {
    if run == [] {
      hs := map[];
    } else {
      var front, last := run[..|run| - 1], run[|run| - 1];
      var before := ReachableIsExplained(clock, front);
      StepKeepsInvariant(After(Start(clock), front), before, last);
      hs := Log(before, After(Start(clock), front), last);
    }
  }

  // ----- Reports -----

  /**
   A report that reads the clock after the first n steps of a run and a tracker at its end:
   meanwhile it holds a lock that creation and tick rounds need.
   */
  ghost predicate ReadsAfter(s: System, run: seq<Action>, n: nat, now: int)
    requires Allowed(s, run)
  {
    n <= |run| &&
    if n == |run| then After(s, run).clock <= now
    else
      var last := run[|run| - 1];
      !last.VisitTracker? && !last.CreateTracker? && ReadsAfter(s, run[..|run| - 1], n, now)
  }

  lemma {:induction false} NoTickIsLater(clock: int, run: seq<Action>, n: nat, now: int)
    returns (hs: map<string, History>)
    requires ZERO_TIME < clock && Allowed(Start(clock), run) && ReadsAfter(Start(clock), run, n, now)
    ensures Invariant(After(Start(clock), run), hs)
    ensures forall m :: m in hs ==> LastTick(hs[m].seen, hs[m].events) <= now
  {
    if n == |run| {
      hs := ReachableIsExplained(clock, run);
      forall m | m in hs ensures LastTick(hs[m].seen, hs[m].events) <= now {
        LastTickIsNotLater(hs[m].seen, hs[m].events);
      }
    } else {
      var front, last := run[..|run| - 1], run[|run| - 1];
      var before := NoTickIsLater(clock, front, n, now);
      StepKeepsInvariant(After(Start(clock), front), before, last);
      hs := Log(before, After(Start(clock), front), last);
      LogKeepsLastTicks(before, After(Start(clock), front), last);
    }
  }

  lemma LogKeepsLastTicks(hs: map<string, History>, s: System, a: Action)
    requires Enabled(s, a) && hs.Keys == s.trackers.Keys && !a.VisitTracker? && !a.CreateTracker?
    ensures var r := Log(hs, s, a);
            r.Keys == hs.Keys && forall m :: m in hs ==>
              LastTick(r[m].seen, r[m].events) == LastTick(hs[m].seen, hs[m].events)
  {
    if a.ProbeService? {
      var h := hs[a.name];
      assert Extend(h, ProbeEvent(a.now, a.healthy)).events[..|h.events|] == h.events;
    }
  }

  /**
   Safety over whole runs: in every reachable state, for every tracker, uptime fits
   between its first and last sighting, the log is well formed with an incident open only
   while unhealthy, and resolved outages fit too.
   */
  lemma {:induction false} ReachableTrackersAreSound(clock: int, run: seq<Action>, name: string)
    requires ZERO_TIME < clock && Allowed(Start(clock), run)
    requires name in After(Start(clock), run).trackers
    ensures var s := After(Start(clock), run);
            var t := s.trackers[name];
            && t.name == name && ZERO_TIME < t.firstSeen <= t.lastSeen <= s.clock
            && t.totalUptime <= t.lastSeen - t.firstSeen
            && LogIsWellFormed(t, s.clock)
            && ResolvedTime(t.incidents) <= t.lastSeen - t.firstSeen
  {
    var s := After(Start(clock), run);
    var hs := ReachableIsExplained(clock, run);
    var h := hs[name];
    LastSeenIs(name, h.first, h.seen, h.events);
    UptimeIsBounded(name, h.first, h.seen, h.events);
    IncidentsAreWellFormed(name, h.first, h.seen, h.events);
    ResolvedTimeFits(name, h.first, h.seen, h.events);
    LastTickIsNotLater(h.seen, h.events);
  }

  /**
   Every reachable tracker has a history whose tick records give its whole incident log
   at once, and whose ledgers give its uptime and its downtime exactly.
   */
  lemma {:induction false} ReachableTrackersAreAccounted(clock: int, run: seq<Action>, name: string)
    returns (h: History)
    requires ZERO_TIME < clock && Allowed(Start(clock), run)
    requires name in After(Start(clock), run).trackers
    ensures var t := After(Start(clock), run).trackers[name];
            var t0 := NewTracker(name, h.first, h.seen);
            && t.incidents == BatchIncidents(Ticks(h.events))
            && t.totalUptime == t.lastSeen - h.seen - Skipped(t0, h.events)
            && t.totalDowntime == ResolvedTime(t.incidents) + Charged(t0, h.events)
            && t == Run(t0, h.events) && Clocked(h.first, h.seen, h.events)
  {
    var hs := ReachableIsExplained(clock, run);
    h := hs[name];
    IncidentsAreBatch(name, h.first, h.seen, h.events);
    UptimeLedger(name, h.first, h.seen, h.events);
    DowntimeLedger(name, h.first, h.seen, h.events);
  }

  // ----- Runs in which no probe overtakes a tick -----

  /** A probe waits while its tracker still has to be visited. */
  predicate Polite(s: System, a: Action) {
    a.ProbeService? && s.round.Ticking? ==> a.name !in s.round.pending
  }

  ghost predicate PoliteRun(s: System, run: seq<Action>)
    requires Allowed(s, run)
  {
    run != [] ==> PoliteRun(s, run[..|run| - 1]) && Polite(After(s, run[..|run| - 1]), run[|run| - 1])
  }

  ghost predicate InOrderSoFar(s: System, hs: map<string, History>) {
    forall n :: n in hs ==>
      && InOrder(hs[n].first, hs[n].seen, hs[n].events)
      && (s.round.Ticking? && n in s.round.pending ==> Latest(hs[n].seen, hs[n].events) <= s.round.now)
  }

  lemma OneMoreInOrder(h: History, e: Event)
    requires InOrder(h.first, h.seen, h.events) && e.now >= Latest(h.seen, h.events)
    ensures InOrder(h.first, h.seen, Extend(h, e).events)
  {
    assert Extend(h, e).events[..|h.events|] == h.events;
  }

  lemma PoliteStepKeepsOrder(s: System, hs: map<string, History>, a: Action)
    requires Invariant(s, hs) && Enabled(s, a) && InOrderSoFar(s, hs) && Polite(s, a)
    ensures InOrderSoFar(Apply(s, a), Log(hs, s, a))
  {
    match a
    case ProbeService(name, healthy, now) => OneMoreInOrder(hs[name], ProbeEvent(now, healthy));
    case VisitTracker(name) => OneMoreInOrder(hs[name], TickEvent(s.round.now, Observed(s.published, name)));
    case _ =>
  }

  lemma {:induction false} PoliteIsInOrder(clock: int, run: seq<Action>) returns (hs: map<string, History>)
    requires ZERO_TIME < clock && Allowed(Start(clock), run) && PoliteRun(Start(clock), run)
    ensures Invariant(After(Start(clock), run), hs) && InOrderSoFar(After(Start(clock), run), hs)
  {
    if run == [] {
      hs := map[];
    } else {
      var front, last := run[..|run| - 1], run[|run| - 1];
      var before := PoliteIsInOrder(clock, front);
      StepKeepsInvariant(After(Start(clock), front), before, last);
      PoliteStepKeepsOrder(After(Start(clock), front), before, last);
      hs := Log(before, After(Start(clock), front), last);
    }
  }

  /** With polite probes, uptime is never negative and the reported share stays between 0 and 100 percent. */
  lemma PoliteRunsReportInRange(clock: int, run: seq<Action>, n: nat, name: string, now: int)
    requires ZERO_TIME < clock && Allowed(Start(clock), run) && PoliteRun(Start(clock), run)
    requires ReadsAfter(Start(clock), run, n, now) && name in After(Start(clock), run).trackers
    ensures var s := After(Start(clock), run);
            0 <= s.trackers[name].totalUptime && 0.0 <= UptimePercentage(s.trackers[name], now) <= 100.0
  {
    var polite := PoliteIsInOrder(clock, run);
    InOrderIsFair(name, polite[name].first, polite[name].seen, polite[name].events);
    var hs := NoTickIsLater(clock, run, n, now);
    var h := hs[name];
    PercentageIsInRange(name, h.first, h.seen, h.events, now);
    UptimeLedger(name, h.first, h.seen, h.events);
    LastSeenIs(name, h.first, h.seen, h.events);
  }

  // ----- When do totals drop, and when does the report leave its range? -----

  // A visit whose round read the clock before the last sighting of the tracker it visits.
  predicate IsOvertaken(s: System, a: Action)
    requires Enabled(s, a)
  {
    a.VisitTracker? && s.round.now < s.trackers[a.name].lastSeen
  }

  predicate Lowers(before: Tracker, after: Tracker) {
    after.totalUptime < before.totalUptime || after.totalDowntime < before.totalDowntime
  }

  /** A step lowers a total of a tracker exactly when it is an overtaken visit of that tracker. */
  lemma StepLowersTotalIff(s: System, hs: map<string, History>, a: Action, name: string)
    requires Invariant(s, hs) && Enabled(s, a) && name in s.trackers
    ensures name in Apply(s, a).trackers
    ensures Lowers(s.trackers[name], Apply(s, a).trackers[name]) <==> IsOvertaken(s, a) && a.name == name
  {
    if a.VisitTracker? && a.name == name {
      var e := TickEvent(s.round.now, Observed(s.published, name));
      StepLowersIff(name, hs[name].first, hs[name].seen, hs[name].events, e);
    }
  }

  // No step of the run lowers a total of any tracker.
  ghost predicate NeverLowers(s: System, run: seq<Action>)
    requires Allowed(s, run)
  {
    run != [] ==>
      var before := After(s, run[..|run| - 1]);
      && NeverLowers(s, run[..|run| - 1])
      && forall n :: n in before.trackers && n in After(s, run).trackers ==>
           !Lowers(before.trackers[n], After(s, run).trackers[n])
  }

  ghost predicate NoVisitIsOvertaken(s: System, run: seq<Action>)
    requires Allowed(s, run)
  {
    run != [] ==>
      && NoVisitIsOvertaken(s, run[..|run| - 1])
      && !IsOvertaken(After(s, run[..|run| - 1]), run[|run| - 1])
  }

  /** Over a whole run, no total ever drops exactly when no visit is overtaken. */
  lemma {:induction false} RunNeverLowersIff(clock: int, run: seq<Action>)
    requires ZERO_TIME < clock && Allowed(Start(clock), run)
    ensures NeverLowers(Start(clock), run) <==> NoVisitIsOvertaken(Start(clock), run)
  {
    if run != [] {
      var front, last := run[..|run| - 1], run[|run| - 1];
      RunNeverLowersIff(clock, front);
      var hs := ReachableIsExplained(clock, front);
      var s := After(Start(clock), front);
      forall n | n in s.trackers
        ensures n in Apply(s, last).trackers
        ensures Lowers(s.trackers[n], Apply(s, last).trackers[n]) <==> IsOvertaken(s, last) && last.name == n
      {
        StepLowersTotalIff(s, hs, last, n);
      }
    }
  }

  /**
   Whatever falls between its clock reading and its visit, a report never exceeds 100
   percent, and is below 0 exactly when healthy probes have skipped too much.
   */
  lemma ReportsBelowZeroIff(clock: int, run: seq<Action>, n: nat, name: string, now: int) returns (h: History)
    requires ZERO_TIME < clock && Allowed(Start(clock), run) && ReadsAfter(Start(clock), run, n, now)
    requires name in After(Start(clock), run).trackers
    ensures var t := After(Start(clock), run).trackers[name];
            var t0 := NewTracker(name, h.first, h.seen);
            && t == Run(t0, h.events) && Clocked(h.first, h.seen, h.events)
            && UptimePercentage(t, now) <= 100.0
            && (UptimePercentage(t, now) < 0.0 <==> Skipped(t0, h.events) > ReportedUpTo(t, now) - h.seen)
  {
    var hs := NoTickIsLater(clock, run, n, now);
    h := hs[name];
    PercentageIsInRange(name, h.first, h.seen, h.events, now);
  }

  /** The reported share, exactly: the time reported on since creation, less what healthy probes have skipped. */
  lemma ReportsAre(clock: int, run: seq<Action>, n: nat, name: string, now: int)
    returns (t: Tracker, h: History, up: int)
    requires ZERO_TIME < clock && Allowed(Start(clock), run) && ReadsAfter(Start(clock), run, n, now)
    requires name in After(Start(clock), run).trackers
    ensures t == After(Start(clock), run).trackers[name] && IsReportedUptime(name, now, h, t, up)
    ensures IsShare(UptimePercentage(t, now), up, TotalTime(h.first, now))
  {
    t := After(Start(clock), run).trackers[name];
    h, up := ReportedHistory(clock, run, n, name, now, t);
    ReportedShare(name, now, h, t, up);
  }

  lemma ReportedShare(name: string, now: int, h: History, t: Tracker, up: int)
    requires IsReportedUptime(name, now, h, t, up) && now >= LastTick(h.seen, h.events)
    ensures IsShare(UptimePercentage(t, now), up, TotalTime(h.first, now))
  {
    PercentageIs(name, h.first, h.seen, h.events, now, t, up);
  }

  // The tracker has that history, and was up for that long by the time reported on.
  ghost predicate IsReportedUptime(name: string, now: int, h: History, t: Tracker, up: int) {
    var t0 := NewTracker(name, h.first, h.seen);
    && Clocked(h.first, h.seen, h.events) && t == Run(t0, h.events)
    && up == ReportedUpTo(t, now) - h.seen - Skipped(t0, h.events)
  }

  lemma ReportedHistory(clock: int, run: seq<Action>, n: nat, name: string, now: int, t: Tracker)
    returns (h: History, up: int)
    requires ZERO_TIME < clock && Allowed(Start(clock), run) && ReadsAfter(Start(clock), run, n, now)
    requires name in After(Start(clock), run).trackers && t == After(Start(clock), run).trackers[name]
    ensures IsReportedUptime(name, now, h, t, up) && now >= LastTick(h.seen, h.events)
  {
    var hs := NoTickIsLater(clock, run, n, now);
    h := hs[name];
    up := ReportedUpTo(t, now) - h.seen - Skipped(NewTracker(name, h.first, h.seen), h.events);
  }

  /** The totals of a reachable tracker are negative exactly when its ledgers say so. */
  lemma TotalsBelowZeroIff(clock: int, run: seq<Action>, name: string) returns (h: History)
    requires ZERO_TIME < clock && Allowed(Start(clock), run)
    requires name in After(Start(clock), run).trackers
    ensures var t := After(Start(clock), run).trackers[name];
            var t0 := NewTracker(name, h.first, h.seen);
            && t == Run(t0, h.events) && Clocked(h.first, h.seen, h.events)
            && (t.totalUptime < 0 <==> Skipped(t0, h.events) > t.lastSeen - h.seen)
            && (t.totalDowntime < 0 <==> Charged(t0, h.events) < -ResolvedTime(t.incidents))
  {
    var hs := ReachableIsExplained(clock, run);
    h := hs[name];
    UptimeIsBounded(name, h.first, h.seen, h.events);
    DowntimeIsNegativeIff(name, h.first, h.seen, h.events);
  }

  lemma OneMore(s: System, run: seq<Action>, a: Action)
    requires Allowed(s, run) && Enabled(After(s, run), a)
    ensures Allowed(s, run + [a]) && After(s, run + [a]) == Apply(After(s, run), a)
  {
    assert (run + [a])[..|run|] == run;
  }

  /**
   Both are reachable: a round starts at 20 and a healthy probe at 25 overtakes its visit.
   If the round finds the service healthy, its uptime drops below zero, and once it is
   unhealthy so does the share reported.
   */
  lemma NegativeUptimeIsReachable(n: string) returns (run: seq<Action>)
    ensures Allowed(Start(10), run) && n in After(Start(10), run).trackers
    ensures var s := After(Start(10), run);
            s.clock == 40 && s.trackers[n].totalUptime == -5 && UptimePercentage(s.trackers[n], 40) < 0.0
  {
    var s := Start(10);
    run := OvertakenVisit(n, true);
    OneMore(s, run, EndRound);
    run := run + [EndRound];
    OneMore(s, run, PublishCheck(n, false));
    run := run + [PublishCheck(n, false)];
    OneMore(s, run, BeginRound(40));
    run := run + [BeginRound(40)];
    OneMore(s, run, VisitTracker(n));
    run := run + [VisitTracker(n)];
  }

  /** If the round finds it unhealthy, its downtime drops below zero. */
  lemma NegativeDowntimeIsReachable(n: string) returns (run: seq<Action>)
    ensures Allowed(Start(10), run) && n in After(Start(10), run).trackers
    ensures After(Start(10), run).trackers[n].totalDowntime == -5
  {
    run := OvertakenVisit(n, false);
  }

  lemma OvertakenVisit(n: string, healthy: bool) returns (run: seq<Action>)
    ensures Allowed(Start(10), run)
    ensures var t := NewTracker(n, 10, 10).(lastSeen := 25);
            After(Start(10), run) ==
            System(map[n := Tick(t, 20, healthy)], map[n := healthy], Ticking(20, {}), 25)
  {
    var s := Start(10);
    var t := NewTracker(n, 10, 10);
    run := [];
    OneMore(s, run, CreateTracker(n, 10, 10));
    run := run + [CreateTracker(n, 10, 10)];
    assert After(s, run) == System(map[n := t], map[], Idle, 10);
    assert map[n := t].Keys == {n};
    OneMore(s, run, BeginRound(20));
    run := run + [BeginRound(20)];
    assert After(s, run) == System(map[n := t], map[], Ticking(20, {n}), 20);
    OneMore(s, run, ProbeService(n, true, 25));
    run := run + [ProbeService(n, true, 25)];
    assert After(s, run) == System(map[n := t.(lastSeen := 25)], map[], Ticking(20, {n}), 25);
    OneMore(s, run, PublishCheck(n, healthy));
    run := run + [PublishCheck(n, healthy)];
    OneMore(s, run, VisitTracker(n));
    run := run + [VisitTracker(n)];
    assert {n} - {n} == {};
  }

  // ----- A health check as a run of steps -----

  // The clock readings of a check, one after the other from the given time.
  predicate Ascend(from: int, clock: seq<Reading>) {
    clock != [] ==>
      var front, last := clock[..|clock| - 1], clock[|clock| - 1];
      Ascend(from, front) && LastReading(from, front) <= last.first <= last.seen <= last.probe
  }

  function LastReading(from: int, clock: seq<Reading>): int {
    if clock == [] then from else clock[|clock| - 1].probe
  }

  function RecordSteps(checks: seq<Check>, clock: seq<Reading>): seq<Action>
    requires |clock| == |checks|
  {
    var n := |checks|;
    if n == 0 then []
    else
      RecordSteps(checks[..n - 1], clock[..n - 1])
      + [CreateTracker(checks[n - 1].service, clock[n - 1].first, clock[n - 1].seen)]
      + [ProbeService(checks[n - 1].service, checks[n - 1].healthy, clock[n - 1].probe)]
  }

  /**
   Recording a check without interruption is what the steps of creating and probing do,
   service by service. It lies between rounds, since looking up a tracker waits for the
   lock that a round holds; a recording that is interrupted is those steps among others.
   */
  lemma {:induction false} RecordingIsARun(s: System, checks: seq<Check>, clock: seq<Reading>)
    requires s.round.Idle? && |clock| == |checks| && Ascend(s.clock, clock)
    ensures Allowed(s, RecordSteps(checks, clock))
    ensures After(s, RecordSteps(checks, clock)) ==
            s.(trackers := RecordAll(s.trackers, checks, clock), clock := LastReading(s.clock, clock))
  {
    var n := |checks|;
    if n > 0 {
      var c, r := checks[n - 1], clock[n - 1];
      var front := RecordSteps(checks[..n - 1], clock[..n - 1]);
      RecordingIsARun(s, checks[..n - 1], clock[..n - 1]);
      OneMore(s, front, CreateTracker(c.service, r.first, r.seen));
      OneMore(s, front + [CreateTracker(c.service, r.first, r.seen)], ProbeService(c.service, c.healthy, r.probe));
    }
  }

  function PublishSteps(checks: seq<Check>): seq<Action> {
    seq(|checks|, i requires 0 <= i < |checks| => PublishCheck(checks[i].service, checks[i].healthy))
  }

  /** Publishing a check is publishing its results one by one. */
  lemma {:induction false} PublishingIsARun(s: System, checks: seq<Check>)
    ensures Allowed(s, PublishSteps(checks))
    ensures After(s, PublishSteps(checks)) == s.(published := PublishAll(s.published, checks))
  {
    if checks != [] {
      var front, last := checks[..|checks| - 1], checks[|checks| - 1];
      PublishingIsARun(s, front);
      OneMore(s, PublishSteps(front), PublishCheck(last.service, last.healthy));
      assert PublishSteps(checks) == PublishSteps(front) + [PublishCheck(last.service, last.healthy)];
    }
  }

  // ----- A whole round without interruption -----

  function VisitsOf(order: seq<string>): seq<Action> {
    seq(|order|, i requires 0 <= i < |order| => VisitTracker(order[i]))
  }

  /** The atomic round of the monitor is what its steps do when nothing falls between them. */
  lemma {:induction false} VisitsDoTheRound(s: System, order: seq<string>, k: nat)
    requires s.round.Ticking? && s.round.pending <= s.trackers.Keys && k <= |order|
    requires Distinct(order) && forall n :: n in order <==> n in s.round.pending
    ensures Allowed(s, VisitsOf(order)[..k])
    ensures var r := After(s, VisitsOf(order)[..k]);
            && r.published == s.published && r.clock == s.clock
            && r.round == Ticking(s.round.now, s.round.pending - set n | n in order[..k])
            && r.trackers.Keys == s.trackers.Keys
            && forall n :: n in s.trackers ==>
                 r.trackers[n] == if n in order[..k] then Tick(s.trackers[n], s.round.now, Observed(s.published, n))
                                  else s.trackers[n]
  {
    var visits := VisitsOf(order);
    if k > 0 {
      VisitsDoTheRound(s, order, k - 1);
      assert visits[..k][..k - 1] == visits[..k - 1];
      assert order[..k] == order[..k - 1] + [order[k - 1]];
      assert order[k - 1] in order && order[k - 1] !in order[..k - 1];
    }
  }

  /** Whatever the order of the visits, a round without interruption ticks every tracker once, on its own. */
  lemma FullRound(s: System, order: seq<string>)
    requires s.round.Ticking? && s.round.pending == s.trackers.Keys
    requires Distinct(order) && forall n :: n in order <==> n in s.trackers
    ensures Allowed(s, VisitsOf(order)) && Enabled(After(s, VisitsOf(order)), EndRound)
    ensures After(s, VisitsOf(order)).trackers == TickAll(s.trackers, s.published, s.round.now)
  {
    assert VisitsOf(order)[..|order|] == VisitsOf(order) && order[..|order|] == order;
    VisitsDoTheRound(s, order, |order|);
    AllVisited(s, After(s, VisitsOf(order)).trackers, order);
  }

  lemma AllVisited(s: System, ts: map<string, Tracker>, order: seq<string>)
    requires s.round.Ticking? && ts.Keys == s.trackers.Keys && forall n :: n in order <==> n in s.trackers
    requires forall n :: n in s.trackers ==>
               ts[n] == if n in order then Tick(s.trackers[n], s.round.now, Observed(s.published, n)) else s.trackers[n]
    ensures ts == TickAll(s.trackers, s.published, s.round.now)
    ensures s.trackers.Keys - (set n | n in order) == {}
  {
  }
}
