/** The health service's shared state: one tracker object per service, and the last published checks. */
module UptimeMonitor {
  import opened Wrappers
  import opened UptimeTracker

  class ServiceUptime {
    const serviceName: string
    var firstSeen: int
    var lastSeen: int
    var lastStatus: Status
    var totalUptime: int
    var totalDowntime: int
    var downtimeIncidents: seq<Incident>

    function State(): Tracker
      reads this
    {
      Tracker(serviceName, firstSeen, lastSeen, lastStatus, totalUptime, totalDowntime, downtimeIncidents)
    }

    constructor (name: string, first: int, seen: int)
      ensures State() == NewTracker(name, first, seen) && serviceName == name
    {
      serviceName := name;
      firstSeen, lastSeen, lastStatus := first, seen, Unknown;
      totalUptime, totalDowntime, downtimeIncidents := 0, 0, [];
    }

    method ApplyTick(now: int, healthy: bool)
      modifies this
      ensures State() == Tick(old(State()), now, healthy)
    {
      var currentStatus := if healthy then Healthy else Unhealthy;
      if lastStatus != currentStatus {
        if currentStatus == Unhealthy && lastStatus == Healthy {
          downtimeIncidents := downtimeIncidents + [Incident(now, ZERO_TIME, 0, false)];
        } else if currentStatus == Healthy && lastStatus == Unhealthy {
          if |downtimeIncidents| > 0 {
            var last := |downtimeIncidents| - 1;
            var lastIncident := downtimeIncidents[last];
            if !lastIncident.resolved {
              lastIncident := lastIncident.(end := now, duration := now - lastIncident.start, resolved := true);
              downtimeIncidents := downtimeIncidents[last := lastIncident];
              totalDowntime := totalDowntime + lastIncident.duration;
            }
          }
        }
        lastStatus := currentStatus;
      }
      if currentStatus == Healthy {
        if lastSeen != ZERO_TIME {
          totalUptime := totalUptime + (now - lastSeen);
        }
        lastSeen := now;
      } else {
        if lastSeen != ZERO_TIME {
          totalDowntime := totalDowntime + (now - lastSeen);
        }
      }
    }

    method ApplyProbe(now: int, healthy: bool)
      modifies this
      ensures State() == Probe(old(State()), now, healthy)
    {
      if healthy {
        if lastStatus != Healthy {
          lastSeen := now;
        }
      }
    }
  }

  /** The result of probing one service. */
  datatype Check = Check(service: string, healthy: bool)

  /** The clock as read while one check is recorded: twice at creation, once at the probe. */
  datatype Reading = Reading(first: int, seen: int, probe: int)

  function Observed(published: map<string, bool>, name: string): bool {
    name in published && published[name]
  }

  /** One tick round: every tracker ticks on its own service's last published check. */
  function TickAll(ts: map<string, Tracker>, published: map<string, bool>, now: int): map<string, Tracker> {
    map n | n in ts :: Tick(ts[n], now, Observed(published, n))
  }

  function Ensure(ts: map<string, Tracker>, name: string, first: int, seen: int): map<string, Tracker> {
    if name in ts then ts else ts[name := NewTracker(name, first, seen)]
  }

  function RecordCheck(ts: map<string, Tracker>, c: Check, r: Reading): map<string, Tracker> {
    var known := Ensure(ts, c.service, r.first, r.seen);
    known[c.service := Probe(known[c.service], r.probe, c.healthy)]
  }

  function RecordAll(ts: map<string, Tracker>, checks: seq<Check>, clock: seq<Reading>): map<string, Tracker>
    requires |clock| == |checks|
  {
    var n := |checks|;
    if n == 0 then ts else RecordCheck(RecordAll(ts, checks[..n - 1], clock[..n - 1]), checks[n - 1], clock[n - 1])
  }

  function PublishAll(published: map<string, bool>, checks: seq<Check>): map<string, bool> {
    var n := |checks|;
    if n == 0 then published else PublishAll(published, checks[..n - 1])[checks[n - 1].service := checks[n - 1].healthy]
  }

  /** What is visible of a checked service is its last check. */
  lemma {:induction false} LastCheckIsPublished(published: map<string, bool>, checks: seq<Check>, i: nat)
    requires i < |checks| && forall j :: i < j < |checks| ==> checks[j].service != checks[i].service
    ensures checks[i].service in PublishAll(published, checks)
    ensures PublishAll(published, checks)[checks[i].service] == checks[i].healthy
  {
    if i < |checks| - 1 {
      LastCheckIsPublished(published, checks[..|checks| - 1], i);
    }
  }

  /** Services that were not checked stay as they were. */
  lemma {:induction false} UncheckedStay(published: map<string, bool>, checks: seq<Check>)
    ensures forall n :: (forall c :: c in checks ==> c.service != n) ==>
              (n in PublishAll(published, checks) <==> n in published)
              && (n in published ==> PublishAll(published, checks)[n] == published[n])
  {
    if checks != [] {
      var front, last := checks[..|checks| - 1], checks[|checks| - 1];
      assert last in checks && forall c :: c in front ==> c in checks;
      UncheckedStay(published, front);
    }
  }

  datatype Availability = Availability(
    uptimePercentage: real,
    totalUptime: int,
    totalDowntime: int,
    downtimeIncidents: nat,
    currentStatus: Status,
    lastIncident: Option<Incident>)

  function AvailabilityOf(s: Tracker, now: int): Availability {
    var n := |s.incidents|;
    Availability(UptimePercentage(s, now), s.totalUptime, s.totalDowntime, n, s.lastStatus,
                 if n > 0 then Some(s.incidents[n - 1]) else None)
  }

  /** What the report of a service says: its share, its totals, the number of incidents, its status, the last one. */
  lemma AvailabilityIs(s: Tracker, now: int)
    ensures var a := AvailabilityOf(s, now);
            && a.uptimePercentage == UptimePercentage(s, now)
            && a.totalUptime == s.totalUptime && a.totalDowntime == s.totalDowntime
            && a.downtimeIncidents == |s.incidents| && a.currentStatus == s.lastStatus
            && (s.incidents == [] ==> a.lastIncident == None)
            && (forall log, i :: s.incidents == log + [i] ==> a.lastIncident == Some(i))
  {
  }

  /** Services are seen as they were last published, and as unhealthy before. */
  lemma {:induction false} ObservedIs(checks: seq<Check>, n: string)
    ensures Observed(PublishAll(map[], checks), n) <==>
            exists i :: 0 <= i < |checks| && checks[i].service == n && checks[i].healthy
                        && forall j :: i < j < |checks| ==> checks[j].service != n
  {
    if i :| 0 <= i < |checks| && checks[i].service == n && forall j :: i < j < |checks| ==> checks[j].service != n {
      LastCheckIsPublished(map[], checks, i);
    } else {
      NoLastCheck(checks, n);
      UncheckedStay(map[], checks);
    }
  }

  lemma {:induction false} NoLastCheck(checks: seq<Check>, n: string)
    requires !exists i :: 0 <= i < |checks| && checks[i].service == n
                          && forall j :: i < j < |checks| ==> checks[j].service != n
    ensures forall c :: c in checks ==> c.service != n
  {
    if checks != [] {
      var front, last := checks[..|checks| - 1], checks[|checks| - 1];
      assert last.service != n;
      forall i | 0 <= i < |front| && front[i].service == n
        ensures exists j :: i < j < |front| && front[j].service == n
      {
        assert checks[i].service == n;
        var j :| i < j < |checks| && checks[j].service == n;
        assert front[j].service == n;
      }
      NoLastCheck(front, n);
    }
  }

  class Monitor {
    var lastHealthCheck: map<string, bool>
    var serviceUptimes: map<string, ServiceUptime>

    // Every tracker is filed under its own service name, so no two names share an object.
    ghost predicate Valid()
      reads this
    {
      forall n :: n in serviceUptimes ==> serviceUptimes[n].serviceName == n
    }

    ghost function Trackers(): (ts: map<string, Tracker>)
      reads this, serviceUptimes.Values
    {
      map n | n in serviceUptimes :: serviceUptimes[n].State()
    }

    constructor ()
      ensures Valid() && Trackers() == map[] && lastHealthCheck == map[]
    {
      lastHealthCheck, serviceUptimes := map[], map[];
    }

    /** One round of the background loop; the trackers are visited in no particular order. */
    method TrackRound(now: int)
      requires Valid()
      modifies serviceUptimes.Values
      ensures Valid() && Trackers() == TickAll(old(Trackers()), lastHealthCheck, now)
    {
      var rest := serviceUptimes.Keys;
      while rest != {}
        invariant rest <= serviceUptimes.Keys
        invariant forall n :: n in serviceUptimes ==>
            serviceUptimes[n].State() ==
            if n in rest then old(serviceUptimes[n].State())
            else Tick(old(serviceUptimes[n].State()), now, Observed(lastHealthCheck, n))
      {
        var name :| name in rest;
        serviceUptimes[name].ApplyTick(now, Observed(lastHealthCheck, name));
        rest := rest - {name};
      }
    }

    method GetOrCreate(name: string, first: int, seen: int) returns (u: ServiceUptime)
      requires Valid()
      modifies this`serviceUptimes
      ensures Valid() && name in serviceUptimes && u == serviceUptimes[name]
      ensures Trackers() == Ensure(old(Trackers()), name, first, seen)
      ensures forall n :: n in serviceUptimes ==>
                if n in old(serviceUptimes) then serviceUptimes[n] == old(serviceUptimes[n])
                else fresh(serviceUptimes[n])
    {
      if name in serviceUptimes {
        return serviceUptimes[name];
      }
      u := new ServiceUptime(name, first, seen);
      serviceUptimes := serviceUptimes[name := u];
    }

    // Only the tracker filed under the name changes.
    method ProbeOne(u: ServiceUptime, name: string, now: int, healthy: bool)
      requires Valid() && name in serviceUptimes && u == serviceUptimes[name]
      modifies u
      ensures Valid() && Trackers() == old(Trackers())[name := Probe(old(u.State()), now, healthy)]
    {
      u.ApplyProbe(now, healthy);
    }

    method Record(c: Check, r: Reading)
      requires Valid()
      modifies this`serviceUptimes, serviceUptimes.Values
      ensures Valid() && Trackers() == RecordCheck(old(Trackers()), c, r)
      ensures forall n :: n in serviceUptimes ==>
                if n in old(serviceUptimes) then serviceUptimes[n] == old(serviceUptimes[n])
                else fresh(serviceUptimes[n])
    {
      var u := GetOrCreate(c.service, r.first, r.seen);
      ProbeOne(u, c.service, r.probe, c.healthy);
    }

    /** The tracker updates of a health check, service by service. */
    method RecordChecks(checks: seq<Check>, clock: seq<Reading>)
      requires Valid() && |clock| == |checks|
      modifies this`serviceUptimes, serviceUptimes.Values
      ensures Valid() && Trackers() == RecordAll(old(Trackers()), checks, clock)
    {
      for i := 0 to |checks|
        invariant Valid()
        invariant forall n :: n in serviceUptimes ==>
            (n in old(serviceUptimes) && serviceUptimes[n] == old(serviceUptimes[n])) || fresh(serviceUptimes[n])
        invariant Trackers() == RecordAll(old(Trackers()), checks[..i], clock[..i])
      {
        assert checks[..i + 1][..i] == checks[..i] && clock[..i + 1][..i] == clock[..i];
        Record(checks[i], clock[i]);
      }
      assert checks[..|checks|] == checks && clock[..|checks|] == clock;
    }

    /** The results of a check become visible to the tick rounds. */
    method Publish(checks: seq<Check>)
      modifies this`lastHealthCheck
      ensures lastHealthCheck == PublishAll(old(lastHealthCheck), checks)
    {
      for i := 0 to |checks|
        invariant lastHealthCheck == PublishAll(old(lastHealthCheck), checks[..i])
      {
        assert checks[..i + 1][..i] == checks[..i];
        lastHealthCheck := lastHealthCheck[checks[i].service := checks[i].healthy];
      }
      assert checks[..|checks|] == checks;
    }

    method GetServiceAvailability(now: int) returns (availability: map<string, Availability>)
      requires Valid()
      ensures availability == map n | n in Trackers() :: AvailabilityOf(Trackers()[n], now)
    {
      availability := map[];
      var rest := serviceUptimes.Keys;
      while rest != {}
        invariant rest <= serviceUptimes.Keys
        invariant availability ==
                  map n | n in serviceUptimes && n !in rest :: AvailabilityOf(serviceUptimes[n].State(), now)
      {
        var name :| name in rest;
        availability := availability[name := AvailabilityOf(serviceUptimes[name].State(), now)];
        rest := rest - {name};
      }
    }
  }
}
