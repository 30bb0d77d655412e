/** What a tracker's history says of its incidents and outages, read all at once. */
module UptimeHistory {
  import opened UptimeTracker

  // ----- The incident log as a function of the tick history -----

  datatype TickRecord = TickRecord(now: int, healthy: bool)

  function Ticks(es: seq<Event>): seq<TickRecord> {
    if es == [] then []
    else
      var last := es[|es| - 1];
      if last.TickEvent? then Ticks(es[..|es| - 1]) + [TickRecord(last.now, last.healthy)] else Ticks(es[..|es| - 1])
  }

  /** A tick at which a healthy service is first found unhealthy. */
  predicate IsEdge(ts: seq<TickRecord>, i: nat) {
    0 < i < |ts| && ts[i - 1].healthy && !ts[i].healthy
  }

  // The first healthy tick at or after i, or |ts|.
  function NextHealthy(ts: seq<TickRecord>, i: nat): (n: nat)
    requires i <= |ts|
    ensures i <= n <= |ts|
    ensures n < |ts| ==> ts[n].healthy
    ensures forall j :: i <= j < n ==> !ts[j].healthy
    decreases |ts| - i
  {
    if i == |ts| || ts[i].healthy then i else NextHealthy(ts, i + 1)
  }

  /** The incident of an edge: from its tick to the next healthy one, if there is one. */
  function IncidentAt(ts: seq<TickRecord>, i: nat): Incident
    requires i < |ts|
  {
    var n := NextHealthy(ts, i);
    if n == |ts| then Incident(ts[i].now, ZERO_TIME, 0, false)
    else Incident(ts[i].now, ts[n].now, ts[n].now - ts[i].now, true)
  }

  /** One incident for each edge among the first n ticks, in order. */
  function IncidentsUpTo(ts: seq<TickRecord>, n: nat): seq<Incident>
    requires n <= |ts|
  {
    if n == 0 then []
    else IncidentsUpTo(ts, n - 1) + (if IsEdge(ts, n - 1) then [IncidentAt(ts, n - 1)] else [])
  }

  function BatchIncidents(ts: seq<TickRecord>): seq<Incident> {
    IncidentsUpTo(ts, |ts|)
  }

  lemma NextHealthyOfMore(ts: seq<TickRecord>, t: TickRecord, i: nat)
    requires i <= |ts|
    ensures NextHealthy(ts + [t], i) ==
            if NextHealthy(ts, i) < |ts| then NextHealthy(ts, i) else if t.healthy then |ts| else |ts| + 1
  {
    var u := ts + [t];
    var n := NextHealthy(u, i);
    assert forall j :: 0 <= j < |ts| ==> u[j] == ts[j];
    assert u[|ts|] == t;
  }

  // Every edge among the first n ticks is followed by a healthy tick.
  ghost predicate AllSettled(ts: seq<TickRecord>, n: nat) {
    forall i :: 0 <= i < n && IsEdge(ts, i) ==> NextHealthy(ts, i) < |ts|
  }

  lemma SettledBeforeHealthy(ts: seq<TickRecord>, m: nat)
    requires m < |ts| && ts[m].healthy
    ensures AllSettled(ts, m + 1)
  {
    forall i | 0 <= i < m + 1 && IsEdge(ts, i) ensures NextHealthy(ts, i) < |ts| {
      assert NextHealthy(ts, i) <= m;
    }
  }

  lemma {:induction false} SettledAreResolved(ts: seq<TickRecord>, n: nat)
    requires n <= |ts| && AllSettled(ts, n)
    ensures forall k :: 0 <= k < |IncidentsUpTo(ts, n)| ==> IncidentsUpTo(ts, n)[k].resolved
  {
    if n > 0 {
      SettledAreResolved(ts, n - 1);
    }
  }

  // A further tick leaves settled incidents alone, and an unhealthy one leaves all alone.
  lemma {:induction false} SettledIncidentsStay(ts: seq<TickRecord>, t: TickRecord, n: nat)
    requires n <= |ts| && (!t.healthy || AllSettled(ts, n))
    ensures IncidentsUpTo(ts + [t], n) == IncidentsUpTo(ts, n)
  {
    if n > 0 {
      SettledIncidentsStay(ts, t, n - 1);
      NextHealthyOfMore(ts, t, n - 1);
      SameEdges(ts, t, n - 1);
    }
  }

  lemma SameEdges(ts: seq<TickRecord>, t: TickRecord, i: nat)
    requires i < |ts|
    ensures IsEdge(ts + [t], i) <==> IsEdge(ts, i)
    ensures (ts + [t])[i] == ts[i]
  {
    assert i > 0 ==> (ts + [t])[i - 1] == ts[i - 1];
  }

  function ResolveLast(log: seq<Incident>, now: int): seq<Incident> {
    var m := |log|;
    if m > 0 && !log[m - 1].resolved then log[m - 1 := Resolved(log[m - 1], now)] else log
  }

  // A healthy tick after unhealthy ones resolves the last incident and no other.
  lemma {:induction false} RecoveryResolvesLast(ts: seq<TickRecord>, t: TickRecord, n: nat)
    requires n <= |ts| && t.healthy && NextHealthy(ts, n) == |ts|
    ensures IncidentsUpTo(ts + [t], n) == ResolveLast(IncidentsUpTo(ts, n), t.now)
  {
    if n > 0 {
      SameEdges(ts, t, n - 1);
      NextHealthyOfMore(ts, t, n - 1);
      if IsEdge(ts, n - 1) {
        SettledBeforeHealthy(ts, n - 2);
        SettledIncidentsStay(ts, t, n - 1);
      } else if ts[n - 1].healthy {
        SettledBeforeHealthy(ts, n - 1);
        SettledIncidentsStay(ts, t, n);
        SettledAreResolved(ts, n);
      } else {
        RecoveryResolvesLast(ts, t, n - 1);
      }
    }
  }

  function StatusAfter(ts: seq<TickRecord>): Status {
    if ts == [] then Unknown else if ts[|ts| - 1].healthy then Healthy else Unhealthy
  }

  lemma BatchOfMore(ts: seq<TickRecord>, t: TickRecord)
    ensures BatchIncidents(ts + [t]) ==
            if t.healthy then ResolveLast(BatchIncidents(ts), t.now)
            else if StatusAfter(ts) == Healthy then BatchIncidents(ts) + [Incident(t.now, ZERO_TIME, 0, false)]
            else BatchIncidents(ts)
  {
    var u := ts + [t];
    assert u[|ts|] == t && (ts != [] ==> u[|ts| - 1] == ts[|ts| - 1]);
    assert u[..|ts|] == ts;
    if t.healthy {
      RecoveryResolvesLast(ts, t, |ts|);
    } else {
      SettledIncidentsStay(ts, t, |ts|);
      NextHealthyOfMore(ts, t, |ts|);
    }
  }

  lemma HealthyMeansResolved(ts: seq<TickRecord>)
    requires StatusAfter(ts) != Unhealthy
    ensures forall now :: ResolveLast(BatchIncidents(ts), now) == BatchIncidents(ts)
  {
    if ts != [] {
      SettledBeforeHealthy(ts, |ts| - 1);
      SettledAreResolved(ts, |ts|);
    }
  }

  /**
   After any history, the incident log is the batch of the tick history: one incident
   for each edge, none for a service that was never healthy before.
   */
  lemma {:induction false} IncidentsAreBatch(name: string, first: int, seen: int, es: seq<Event>)
    ensures var s := Run(NewTracker(name, first, seen), es);
            s.incidents == BatchIncidents(Ticks(es)) && s.lastStatus == StatusAfter(Ticks(es))
  {
    if es != [] {
      var front, last := es[..|es| - 1], es[|es| - 1];
      IncidentsAreBatch(name, first, seen, front);
      if last.TickEvent? {
        TickExtendsBatch(Run(NewTracker(name, first, seen), front), Ticks(front), TickRecord(last.now, last.healthy));
      }
    }
  }

  lemma TickExtendsBatch(s: Tracker, ts: seq<TickRecord>, t: TickRecord)
    requires s.incidents == BatchIncidents(ts) && s.lastStatus == StatusAfter(ts)
    ensures var r := Tick(s, t.now, t.healthy);
            r.incidents == BatchIncidents(ts + [t]) && r.lastStatus == StatusAfter(ts + [t])
  {
    BatchOfMore(ts, t);
    LogAfterTick(s, t.now, t.healthy);
    if StatusAfter(ts) != Unhealthy {
      HealthyMeansResolved(ts);
      assert ResolveLast(BatchIncidents(ts), t.now) == BatchIncidents(ts);
    }
  }

  lemma LogAfterTick(s: Tracker, now: int, healthy: bool)
    ensures Tick(s, now, healthy).incidents ==
            if healthy then (if s.lastStatus == Unhealthy then ResolveLast(s.incidents, now) else s.incidents)
            else if s.lastStatus == Healthy then s.incidents + [Incident(now, ZERO_TIME, 0, false)]
            else s.incidents
    ensures Tick(s, now, healthy).lastStatus == if healthy then Healthy else Unhealthy
  {
  }

  // ----- Outages -----

  // Unhealthy ticks and probes of any result.
  ghost predicate IsOutage(es: seq<Event>) {
    forall e :: e in es && e.TickEvent? ==> !e.healthy
  }

  function HasTick(es: seq<Event>): bool {
    es != [] && (es[|es| - 1].TickEvent? || HasTick(es[..|es| - 1]))
  }

  function FirstTick(es: seq<Event>): int
    requires HasTick(es)
  {
    if HasTick(es[..|es| - 1]) then FirstTick(es[..|es| - 1]) else es[|es| - 1].now
  }

  /** The last healthy probe after the outage was noticed, or the given time. */
  function LastContact(t0: int, es: seq<Event>): int {
    if es == [] then t0
    else
      var front, last := es[..|es| - 1], es[|es| - 1];
      if last.ProbeEvent? && last.healthy && HasTick(front) then last.now else LastContact(t0, front)
  }

  /** What the ticks after the first one book: each the time since the last contact. */
  function ChargedAfterFirst(t0: int, es: seq<Event>): int {
    if es == [] then 0
    else
      var front, last := es[..|es| - 1], es[|es| - 1];
      ChargedAfterFirst(t0, front)
      + (if last.TickEvent? && HasTick(front) then last.now - LastContact(t0, front) else 0)
  }

  // The clock since a tick at time t0 that found the service healthy.
  ghost predicate Since(t0: int, es: seq<Event>) {
    Clocked(t0, t0, es)
  }

  lemma {:induction false} TimesSince(t0: int, es: seq<Event>)
    requires Since(t0, es)
    ensures ZERO_TIME < t0 <= LastContact(t0, es) <= Latest(t0, es) && t0 <= LastTick(t0, es)
    ensures HasTick(es) ==> t0 <= FirstTick(es) <= LastTick(t0, es)
    ensures !HasTick(es) ==> LastTick(t0, es) == LastContact(t0, es) == t0 && ChargedAfterFirst(t0, es) == 0
  {
    if es != [] {
      TimesSince(t0, es[..|es| - 1]);
      LastTickIsNotLater(t0, es[..|es| - 1]);
    }
  }

  /** The whole state of a tracker during an outage. */
  lemma {:induction false} DuringOutage(s: Tracker, es: seq<Event>)
    requires s.lastStatus == Healthy && IsOutage(es) && Since(s.lastSeen, es)
    ensures var t0 := s.lastSeen;
            Run(s, es) ==
            if !HasTick(es) then s
            else
              s.(lastStatus := Unhealthy,
                 lastSeen := LastContact(t0, es),
                 totalDowntime := s.totalDowntime + (FirstTick(es) - t0) + ChargedAfterFirst(t0, es),
                 incidents := s.incidents + [Incident(FirstTick(es), ZERO_TIME, 0, false)])
  {
    if es != [] {
      var front, last := es[..|es| - 1], es[|es| - 1];
      assert last in es && forall e :: e in front ==> e in es;
      DuringOutage(s, front);
      TimesSince(s.lastSeen, front);
    }
  }

  /** What an outage and the tick that ends it add to a tracker. */
  lemma OutageThenRecovery(s: Tracker, es: seq<Event>, end: int)
    requires s.lastStatus == Healthy && IsOutage(es) && Since(s.lastSeen, es)
    ensures var r := Run(s, es + [TickEvent(end, true)]);
            var t0 := s.lastSeen;
            && r.lastStatus == Healthy && r.lastSeen == end
            && r.totalUptime == s.totalUptime + (end - LastContact(t0, es))
            && r.totalDowntime == s.totalDowntime
               + (if HasTick(es) then (end - t0) + ChargedAfterFirst(t0, es) else 0)
  {
    assert (es + [TickEvent(end, true)])[..|es|] == es;
    DuringOutage(s, es);
    TimesSince(s.lastSeen, es);
  }

  /**
   The tick that ends an outage counts everything since the last contact as uptime;
   without a contact, the whole outage is uptime, back to the last healthy tick.
   */
  lemma {:induction false} OutageCountsAsUptime(s: Tracker, es: seq<Event>, end: int)
    requires s.lastStatus == Healthy && IsOutage(es) && Since(s.lastSeen, es)
    ensures Run(s, es + [TickEvent(end, true)]).totalUptime - s.totalUptime == end - LastContact(s.lastSeen, es)
    ensures (forall i :: 0 <= i < |es| && es[i].ProbeEvent? && es[i].healthy ==> !HasTick(es[..i])) ==>
              Run(s, es + [TickEvent(end, true)]).totalUptime - s.totalUptime == end - s.lastSeen
  {
    OutageThenRecovery(s, es, end);
    if forall i :: 0 <= i < |es| && es[i].ProbeEvent? && es[i].healthy ==> !HasTick(es[..i]) {
      NoContact(s.lastSeen, es);
    }
  }

  lemma {:induction false} NoContact(t0: int, es: seq<Event>)
    requires forall i :: 0 <= i < |es| && es[i].ProbeEvent? && es[i].healthy ==> !HasTick(es[..i])
    ensures LastContact(t0, es) == t0
  {
    if es != [] {
      var front := es[..|es| - 1];
      assert forall i :: 0 <= i < |front| ==> front[..i] == es[..i] && front[i] == es[i];
      NoContact(t0, front);
    }
  }

  // ----- Before the first healthy tick -----

  /** The last healthy probe, or the given time. */
  function LastProbe(t0: int, es: seq<Event>): int {
    if es == [] then t0
    else
      var front, last := es[..|es| - 1], es[|es| - 1];
      if last.ProbeEvent? && last.healthy then last.now else LastProbe(t0, front)
  }

  /** What unhealthy ticks book before the first healthy one: each the time since the last healthy probe. */
  function ChargedAtFirst(t0: int, es: seq<Event>): int {
    if es == [] then 0
    else
      var front, last := es[..|es| - 1], es[|es| - 1];
      ChargedAtFirst(t0, front) + (if last.TickEvent? then last.now - LastProbe(t0, front) else 0)
  }

  lemma {:induction false} ProbeTimes(first: int, seen: int, es: seq<Event>)
    requires Clocked(first, seen, es)
    ensures ZERO_TIME < seen <= LastProbe(seen, es) <= Latest(seen, es)
  {
    if es != [] {
      ProbeTimes(first, seen, es[..|es| - 1]);
    }
  }

  /** A new service that no tick has found healthy: downtime is booked, but no incident is opened. */
  lemma {:induction false} BeforeFirstHealthyTick(name: string, first: int, seen: int, es: seq<Event>)
    requires Clocked(first, seen, es) && IsOutage(es)
    ensures Run(NewTracker(name, first, seen), es) ==
            NewTracker(name, first, seen).(
              lastStatus := if HasTick(es) then Unhealthy else Unknown,
              lastSeen := LastProbe(seen, es),
              totalDowntime := ChargedAtFirst(seen, es))
  {
    if es != [] {
      var front, last := es[..|es| - 1], es[|es| - 1];
      assert last in es && forall e :: e in front ==> e in es;
      BeforeFirstHealthyTick(name, first, seen, front);
      ProbeTimes(first, seen, front);
    }
  }

  /** The first healthy tick counts everything since the last healthy probe as uptime, and books no downtime. */
  lemma FirstHealthyTick(name: string, first: int, seen: int, es: seq<Event>, end: int)
    requires Clocked(first, seen, es) && IsOutage(es)
    ensures Run(NewTracker(name, first, seen), es + [TickEvent(end, true)]) ==
            NewTracker(name, first, seen).(
              lastStatus := Healthy,
              lastSeen := end,
              totalUptime := end - LastProbe(seen, es),
              totalDowntime := ChargedAtFirst(seen, es))
  {
    assert (es + [TickEvent(end, true)])[..|es|] == es;
    BeforeFirstHealthyTick(name, first, seen, es);
    ProbeTimes(first, seen, es);
  }

  // ----- Do the totals fit in the time elapsed? -----

  /** In clock order, no tick after the first books less than nothing. */
  lemma {:induction false} ChargesAreNotNegative(t0: int, es: seq<Event>)
    requires InOrder(t0, t0, es)
    ensures ChargedAfterFirst(t0, es) >= 0
  {
    if es != [] {
      ChargesAreNotNegative(t0, es[..|es| - 1]);
      InOrderIsClocked(t0, t0, es[..|es| - 1]);
      TimesSince(t0, es[..|es| - 1]);
    }
  }

  // What uptime and downtime gain together from a healthy tick to the next one.
  function Gained(s: Tracker, es: seq<Event>, end: int): int {
    var r := Run(s, es + [TickEvent(end, true)]);
    (r.totalUptime - s.totalUptime) + (r.totalDowntime - s.totalDowntime)
  }

  /**
   From one healthy tick to the next, the totals gain the time elapsed; and, if there was
   an outage, also the time since the last contact and what the ticks after the first
   book. So they fit in the time elapsed exactly when those two do not add up to more than
   nothing, and in clock order exactly when the outage ends at its last contact and none
   of its ticks after the first books anything.
   */
  lemma TotalsFitIff(s: Tracker, es: seq<Event>, end: int)
    requires s.lastStatus == Healthy && IsOutage(es) && Since(s.lastSeen, es)
    ensures var t0 := s.lastSeen;
            var excess := (end - LastContact(t0, es)) + ChargedAfterFirst(t0, es);
            && Gained(s, es, end) == (end - t0) + (if HasTick(es) then excess else 0)
            && (Gained(s, es, end) <= end - t0 <==> (HasTick(es) ==> excess <= 0))
            && (InOrder(t0, t0, es) && end >= Latest(t0, es) ==>
                  && Gained(s, es, end) >= (end - t0) + (if HasTick(es) then end - LastContact(t0, es) else 0)
                  && (Gained(s, es, end) <= end - t0 <==>
                        (HasTick(es) ==> end == LastContact(t0, es) && ChargedAfterFirst(t0, es) == 0)))
  {
    OutageThenRecovery(s, es, end);
    TimesSince(s.lastSeen, es);
    if InOrder(s.lastSeen, s.lastSeen, es) {
      ChargesAreNotNegative(s.lastSeen, es);
    }
  }

  // ----- Outages seen by periodic ticks -----

  /** The ticks of a history come at a fixed period after time t0. */
  ghost predicate IsPeriodic(t0: int, period: int, es: seq<Event>) {
    var ts := Ticks(es);
    forall i :: 0 <= i < |ts| ==> ts[i].now == t0 + (i + 1) * period
  }

  // No healthy probe falls between two ticks.
  predicate NoProbeBetweenTicks(es: seq<Event>) {
    forall i, j, k :: 0 <= i < j < k < |es| && es[i].TickEvent? && es[k].TickEvent? ==>
      !(es[j].ProbeEvent? && es[j].healthy)
  }

  lemma {:induction false} TickCount(es: seq<Event>)
    ensures HasTick(es) <==> Ticks(es) != []
    ensures HasTick(es) ==> FirstTick(es) == Ticks(es)[0].now && exists i :: 0 <= i < |es| && es[i].TickEvent?
  {
    if es != [] {
      TickCount(es[..|es| - 1]);
      if HasTick(es[..|es| - 1]) {
        var i :| 0 <= i < |es| - 1 && es[..|es| - 1][i].TickEvent?;
        assert es[i].TickEvent?;
      }
    }
  }

  // At a tick that no healthy probe separates from an earlier one, there has been no contact.
  lemma {:induction false} NoContactBeforeTick(t0: int, es: seq<Event>, m: nat)
    requires m < |es| && es[m].TickEvent? && NoProbeBetweenTicks(es)
    ensures LastContact(t0, es[..m]) == t0
  {
    var front := es[..m];
    forall j | 0 <= j < |front| && front[j].ProbeEvent? && front[j].healthy ensures !HasTick(front[..j]) {
      TickCount(front[..j]);
      assert es[j] == front[j] && forall i :: 0 <= i < j ==> front[..j][i] == es[i];
    }
    NoContact(t0, front);
  }

  // Periodic ticks without contact book the multiples of the period, the first one apart.
  lemma {:induction false} PeriodicCharges(t0: int, period: int, es: seq<Event>)
    requires IsPeriodic(t0, period, es) && NoProbeBetweenTicks(es)
    ensures var k := |Ticks(es)|;
            HasTick(es) ==> 2 * ChargedAfterFirst(t0, es) == period * (k * (k + 1)) - 2 * period
  {
    if es != [] {
      var front, last := es[..|es| - 1], es[|es| - 1];
      var ts, k := Ticks(es), |Ticks(es)|;
      assert forall i :: 0 <= i < |Ticks(front)| ==> Ticks(front)[i] == ts[i];
      PeriodicCharges(t0, period, front);
      TickCount(front);
      if last.TickEvent? && HasTick(front) {
        NoContactBeforeTick(t0, es, |es| - 1);
        assert last.now == ts[k - 1].now == t0 + k * period;
        NextTriangle(period, k);
      } else if last.TickEvent? {
        TimesWithoutTick(t0, front);
        assert k == 1;
      }
    }
  }

  lemma {:induction false} TimesWithoutTick(t0: int, es: seq<Event>)
    requires !HasTick(es)
    ensures ChargedAfterFirst(t0, es) == 0
  {
    if es != [] {
      TimesWithoutTick(t0, es[..|es| - 1]);
    }
  }

  lemma NextTriangle(period: int, k: int)
    ensures period * ((k - 1) * k) + 2 * (k * period) == period * (k * (k + 1))
  {
    assert k * (k + 1) == (k - 1) * k + 2 * k;
  }

  /**
   The downtime booked by an outage of k periodic ticks, between two healthy ticks: period
   * k * (k + 3) / 2, against (k + 1) * period of time elapsed. Probes change nothing in
   this, unless a healthy one falls between two ticks.
   */
  lemma PeriodicOutageDowntime(s: Tracker, period: int, es: seq<Event>)
    requires s.lastStatus == Healthy && IsOutage(es) && Since(s.lastSeen, es)
    requires IsPeriodic(s.lastSeen, period, es) && NoProbeBetweenTicks(es)
    ensures var k := |Ticks(es)|;
            var end := s.lastSeen + (k + 1) * period;
            var r := Run(s, es + [TickEvent(end, true)]);
            2 * (r.totalDowntime - s.totalDowntime) == period * (k * (k + 3))
  {
    var k := |Ticks(es)|;
    var end := s.lastSeen + (k + 1) * period;
    OutageThenRecovery(s, es, end);
    TickCount(es);
    PeriodicCharges(s.lastSeen, period, es);
    PeriodTotal(period, k, ChargedAfterFirst(s.lastSeen, es));
  }

  lemma PeriodTotal(period: int, k: nat, charged: int)
    ensures 2 * charged == period * (k * (k + 1)) - 2 * period ==>
              2 * ((k + 1) * period + charged) == period * (k * (k + 3))
  {
    assert k * (k + 3) == k * (k + 1) + 2 * k;
    assert period * (k * (k + 3)) == period * (k * (k + 1)) + 2 * (k * period);
    assert (k + 1) * period == k * period + period;
  }
}
