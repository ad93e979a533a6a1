/** Endpoint health with failure and recovery thresholds, and the lock-free mirror of
    "the internet endpoint is confirmed down". */
module Connectivity {
  import opened Results

  /** Counters are 32-bit and wrap. */
  const WRAP: nat := 0x1_0000_0000

  const INTERNET: string := "internet"

  /** The reason given for a failure that came without one. */
  const UNKNOWN_ERROR: string := "Unknown error"

  datatype Health =
    | Healthy(latency: nat, lastCheck: int)
    | Degraded(latency: nat, reason: string, lastCheck: int)
    | Unhealthy(reason: string, lastCheck: int, lastSuccess: Option<int>, consecutiveFailures: nat)
    | Unknown

  datatype Criticality = Critical | Important | Optional

  datatype Fallback = UseCache(maxAge: nat) | UseAlternative(name: string) | Skip | Refuse

  /** One health check and the thresholds in force when it was recorded. */
  datatype Check = Check(
    healthy: bool, latency: nat, error: Option<string>, failureThreshold: nat, recoveryThreshold: nat, now: int)

  datatype Event =
    | Register(name: string, criticality: Criticality, fallback: Option<Fallback>)
    | Ensure(name: string, criticality: Criticality, fallback: Option<Fallback>)
    | Update(name: string, check: Check)

  datatype Net = Net(
    health: map<string, Health>, criticality: map<string, Criticality>, fallback: map<string, Option<Fallback>>,
    failures: map<string, nat>, successes: map<string, nat>, offline: bool)

  const INITIAL: Net := Net(map[], map[], map[], map[], map[], false)

  function Count(m: map<string, nat>, name: string): nat {
    if name in m then m[name] else 0
  }

  predicate ConfirmedUnhealthy(health: map<string, Health>, name: string) {
    name in health && health[name].Unhealthy?
  }

  function LastSuccess(health: map<string, Health>, name: string): Option<int> {
    if name !in health then None
    else match health[name]
      case Healthy(_, t) => Some(t)
      case Degraded(_, _, t) => Some(t)
      case Unhealthy(_, _, t, _) => t
      case Unknown => None
  }

  /** A healthy check: one more success, and at the threshold the endpoint recovers. */
  function Succeed(n: Net, name: string, c: Check): Net {
    var successes := (Count(n.successes, name) + 1) % WRAP;
    var counted := n.(successes := n.successes[name := successes]);
    if successes >= c.recoveryThreshold then
      counted.(failures := n.failures[name := 0],
               health := n.health[name := if c.error.Some? then Degraded(c.latency, c.error.value, c.now)
                                          else Healthy(c.latency, c.now)])
    else counted
  }

  /** A failed check: one more failure, no successes, and at the threshold the endpoint is down. */
  function Fail(n: Net, name: string, c: Check): Net {
    var failures := (Count(n.failures, name) + 1) % WRAP;
    var counted := n.(failures := n.failures[name := failures], successes := n.successes[name := 0]);
    if failures >= c.failureThreshold then
      counted.(health := n.health[name :=
        Unhealthy(if c.error.Some? then c.error.value else UNKNOWN_ERROR, c.now, LastSuccess(n.health, name), failures)])
    else counted
  }

  function Next(n: Net, e: Event): Net {
    match e
    case Register(name, criticality, fallback) =>
      n.(health := n.health[name := Unknown], failures := n.failures[name := 0], successes := n.successes[name := 0],
         criticality := n.criticality[name := criticality], fallback := n.fallback[name := fallback])
    case Ensure(name, criticality, fallback) =>
      n.(health := if name in n.health then n.health else n.health[name := Unknown],
         criticality := n.criticality[name := criticality], fallback := n.fallback[name := fallback],
         failures := n.failures[name := Count(n.failures, name)],
         successes := n.successes[name := Count(n.successes, name)])
    case Update(name, c) =>
      var m := if c.healthy then Succeed(n, name, c) else Fail(n, name, c);
      if name == INTERNET then m.(offline := ConfirmedUnhealthy(m.health, INTERNET)) else m
  }

  function Run(n: Net, events: seq<Event>): Net {
    if events == [] then n else Next(Run(n, events[..|events| - 1]), events[|events| - 1])
  }

  // ----- the history of one endpoint -----

  /** The checks of `name` since it was last registered. */
  function History(events: seq<Event>, name: string): seq<Check> {
    if events == [] then []
    else
      var before := History(events[..|events| - 1], name);
      match events[|events| - 1]
      case Register(n, _, _) => if n == name then [] else before
      case Ensure(_, _, _) => before
      case Update(n, c) => if n == name then before + [c] else before
  }

  /** How many checks in a row, up to the last, were healthy. */
  function Streak(h: seq<Check>): nat {
    if h == [] || !h[|h| - 1].healthy then 0 else Streak(h[..|h| - 1]) + 1
  }

  lemma {:induction false} StreakIsMaximal(h: seq<Check>)
    ensures Streak(h) <= |h|
    ensures forall i :: |h| - Streak(h) <= i < |h| ==> h[i].healthy
    ensures Streak(h) < |h| ==> !h[|h| - Streak(h) - 1].healthy
  {
    if h != [] && h[|h| - 1].healthy { StreakIsMaximal(h[..|h| - 1]); }
  }

  /** Does the last check of `h` complete a recovery? */
  predicate Recovers(h: seq<Check>) {
    h != [] && h[|h| - 1].healthy && Streak(h) % WRAP >= h[|h| - 1].recoveryThreshold
  }

  /** Where the last recovery of `h` ended; 0 if it never recovered. */
  function LastRecovery(h: seq<Check>): (n: nat)
    ensures n <= |h|
  {
    if h == [] then 0 else if Recovers(h) then |h| else LastRecovery(h[..|h| - 1])
  }

  lemma {:induction false} LastRecoveryIsLast(h: seq<Check>)
    ensures LastRecovery(h) > 0 ==> Recovers(h[..LastRecovery(h)])
    ensures forall m :: LastRecovery(h) < m <= |h| ==> !Recovers(h[..m])
  {
    hide Recovers;
    if h != [] {
      var before := h[..|h| - 1];
      assert h[..|h|] == h;
      if !Recovers(h) {
        LastRecoveryIsLast(before);
        assert forall m :: 0 <= m <= |h| - 1 ==> before[..m] == h[..m];
      }
    }
  }

  function FailedChecks(h: seq<Check>): nat {
    if h == [] then 0 else FailedChecks(h[..|h| - 1]) + (if h[|h| - 1].healthy then 0 else 1)
  }

  /** The failed checks since the last recovery; healthy ones in between do not reset them. */
  function FailuresSince(h: seq<Check>): nat {
    FailedChecks(h[LastRecovery(h)..])
  }

  /** Does the last check of `h` take the endpoint down? */
  predicate Trips(h: seq<Check>) {
    h != [] && !h[|h| - 1].healthy && FailuresSince(h) % WRAP >= h[|h| - 1].failureThreshold
  }

  /** Down: some check tripped it and it has not recovered since. */
  predicate Down(h: seq<Check>) {
    exists n :: LastRecovery(h) < n <= |h| && Trips(h[..n])
  }

  /** What one more check does to the three readings of a history. */
  lemma FailuresStep(h: seq<Check>, c: Check)
    ensures var h' := h + [c];
      && Streak(h') == (if c.healthy then Streak(h) + 1 else 0)
      && (Recovers(h') <==> c.healthy && Streak(h') % WRAP >= c.recoveryThreshold)
      && (Trips(h') <==> !c.healthy && FailuresSince(h') % WRAP >= c.failureThreshold)
      && FailuresSince(h') == (if Recovers(h') then 0 else if c.healthy then FailuresSince(h) else FailuresSince(h) + 1)
  {
    var h' := h + [c];
    assert h'[..|h|] == h;
    if Recovers(h') {
      assert h'[|h'|..] == [];
    } else {
      var since := h[LastRecovery(h)..];
      assert h'[LastRecovery(h)..] == since + [c];
      assert (since + [c])[..|since|] == since;
    }
  }

  lemma DownStep(h: seq<Check>, c: Check)
    ensures var h' := h + [c];
      Down(h') <==> if Recovers(h') then false else if Trips(h') then true else Down(h)
  {
    hide Trips, Recovers;
    var h' := h + [c];
    assert h'[..|h|] == h && h'[..|h'|] == h';
    if !Recovers(h') {
      assert LastRecovery(h') == LastRecovery(h);
      assert forall n :: 0 <= n <= |h| ==> h'[..n] == h[..n];
      if Down(h) {
        var n :| LastRecovery(h) < n <= |h| && Trips(h[..n]);
        assert Trips(h'[..n]);
      }
      if Trips(h') { assert Trips(h'[..|h'|]); }
    }
  }

  /** Where the last check of `h` that recovered or tripped stands; 0 if none did. */
  function LastMark(h: seq<Check>): (n: nat)
    ensures n <= |h|
  {
    if h == [] then 0 else if Recovers(h) || Trips(h) then |h| else LastMark(h[..|h| - 1])
  }

  lemma {:induction false} LastMarkIsLast(h: seq<Check>)
    ensures LastMark(h) > 0 ==> Recovers(h[..LastMark(h)]) || Trips(h[..LastMark(h)])
    ensures forall m :: LastMark(h) < m <= |h| ==> !Recovers(h[..m]) && !Trips(h[..m])
  {
    hide Recovers, Trips;
    if h != [] {
      var before := h[..|h| - 1];
      assert h[..|h|] == h;
      if !Recovers(h) && !Trips(h) {
        LastMarkIsLast(before);
        assert forall m :: 0 <= m <= |h| - 1 ==> before[..m] == h[..m];
      }
    }
  }

  /** The instant of the last check that completed a recovery. */
  function LastRecovered(h: seq<Check>): Option<int> {
    if LastRecovery(h) == 0 then None else Some(h[LastRecovery(h) - 1].now)
  }

  /** The health a history amounts to, read off the last check that changed it. */
  function Reading(h: seq<Check>): Health {
    var n := LastMark(h);
    if n == 0 then Unknown
    else
      var c := h[n - 1];
      if !c.healthy then
        Unhealthy(if c.error.Some? then c.error.value else UNKNOWN_ERROR, c.now,
                  LastRecovered(h[..n]), FailuresSince(h[..n]) % WRAP)
      else if c.error.Some? then Degraded(c.latency, c.error.value, c.now)
      else Healthy(c.latency, c.now)
  }

  /** What one more check does to those two readings. */
  lemma ReadingStep(h: seq<Check>, c: Check)
    ensures var h' := h + [c];
      && LastRecovered(h') == (if Recovers(h') then Some(c.now) else LastRecovered(h))
      && Reading(h') ==
           if Recovers(h') then (if c.error.Some? then Degraded(c.latency, c.error.value, c.now) else Healthy(c.latency, c.now))
           else if Trips(h') then
             Unhealthy(if c.error.Some? then c.error.value else UNKNOWN_ERROR, c.now, LastRecovered(h), FailuresSince(h') % WRAP)
           else Reading(h)
  {
    var h' := h + [c];
    assert h'[..|h'|] == h' && h'[|h|] == c;
    FailuresStep(h, c);
    MarkStep(h, c);
    hide Recovers, Trips, FailuresSince, LastMark, LastRecovery, LastRecovered, UNKNOWN_ERROR;
    if !Recovers(h') && !Trips(h') {
      var n := LastMark(h);
      assert h'[..n] == h[..n];
    }
  }

  lemma MarkStep(h: seq<Check>, c: Check)
    ensures var h' := h + [c];
      && LastMark(h') == (if Recovers(h') || Trips(h') then |h'| else LastMark(h))
      && LastRecovered(h') == (if Recovers(h') then Some(c.now) else LastRecovered(h))
  {
    hide Recovers, Trips;
    var h' := h + [c];
    assert h'[..|h|] == h && h'[|h|] == c;
  }

  /** The state says about an endpoint what its history says; one that no check has marked
      and nothing has registered has no health at all. */
  predicate Summarises(n: Net, h: seq<Check>, name: string) {
    Count(n.failures, name) == FailuresSince(h) % WRAP &&
    Count(n.successes, name) == Streak(h) % WRAP &&
    (if name in n.health then n.health[name] else Unknown) == Reading(h) &&
    LastSuccess(n.health, name) == LastRecovered(h) &&
    (ConfirmedUnhealthy(n.health, name) <==> Down(h))
  }

  lemma NextModulo(a: nat)
    ensures (a % WRAP + 1) % WRAP == (a + 1) % WRAP
  {
  }

  /** A check is recorded by one of the two, and then only the mirror can still change. */
  function Checked(n: Net, name: string, c: Check): Net {
    if c.healthy then Succeed(n, name, c) else Fail(n, name, c)
  }

  lemma NextIsChecked(n: Net, name: string, c: Check)
    ensures Next(n, Update(name, c)).(offline := n.offline) == Checked(n, name, c).(offline := n.offline)
  {
    hide Succeed, Fail, ConfirmedUnhealthy;
  }

  /** The health a check leads to. */
  function HealthAfter(n: Net, name: string, c: Check): Health {
    if c.healthy && (Count(n.successes, name) + 1) % WRAP >= c.recoveryThreshold then
      (if c.error.Some? then Degraded(c.latency, c.error.value, c.now) else Healthy(c.latency, c.now))
    else if !c.healthy && (Count(n.failures, name) + 1) % WRAP >= c.failureThreshold then
      Unhealthy(if c.error.Some? then c.error.value else UNKNOWN_ERROR, c.now, LastSuccess(n.health, name),
                (Count(n.failures, name) + 1) % WRAP)
    else if name in n.health then n.health[name] else Unknown
  }

  /** What a check does to its own endpoint. */
  lemma CheckedEndpoint(n: Net, name: string, c: Check)
    ensures var m := Checked(n, name, c);
      var successes := (Count(n.successes, name) + 1) % WRAP;
      && Count(m.successes, name) == (if c.healthy then successes else 0)
      && Count(m.failures, name) ==
           (if !c.healthy then (Count(n.failures, name) + 1) % WRAP
            else if successes >= c.recoveryThreshold then 0 else Count(n.failures, name))
      && (if name in m.health then m.health[name] else Unknown) == HealthAfter(n, name, c)
  {
    hide LastSuccess, UNKNOWN_ERROR;
  }

  /** The last success and being down can be read off the health alone. */
  lemma HealthTells(health: map<string, Health>, name: string)
    ensures var h := if name in health then health[name] else Unknown;
      && (ConfirmedUnhealthy(health, name) <==> h.Unhealthy?)
      && LastSuccess(health, name) == match h
           case Healthy(_, t) => Some(t)
           case Degraded(_, _, t) => Some(t)
           case Unhealthy(_, _, t, _) => t
           case Unknown => None
  {
  }

  lemma CheckRefines(n: Net, h: seq<Check>, name: string, c: Check)
    requires Summarises(n, h, name)
    ensures Summarises(Next(n, Update(name, c)), h + [c], name)
  {
    hide Next, LastSuccess, ConfirmedUnhealthy, UNKNOWN_ERROR, Down, Trips, Recovers, FailuresSince, Streak, Reading, LastRecovered;
    NextIsChecked(n, name, c);
    CheckedEndpoint(n, name, c);
    hide Checked;
    HealthTells(n.health, name);
    HealthTells(Next(n, Update(name, c)).health, name);
    FailuresStep(h, c);
    DownStep(h, c);
    ReadingStep(h, c);
    NextModulo(Streak(h));
    NextModulo(FailuresSince(h));
  }

  /** In every run, every endpoint's counters, health and last success are those of its own
      history of checks since it was last registered, whatever happens to other endpoints. */
  lemma {:induction false} HealthRefinesHistory(events: seq<Event>, name: string)
    ensures Summarises(Run(INITIAL, events), History(events, name), name)
  {
    hide Summarises, Succeed, Fail;
    if events == [] {
      NothingYet(INITIAL, name);
    } else {
      var before := events[..|events| - 1];
      HealthRefinesHistory(before, name);
      OneEvent(Run(INITIAL, before), History(before, name), name, events[|events| - 1]);
    }
  }

  lemma NothingYet(n: Net, name: string)
    requires Count(n.failures, name) == 0 && Count(n.successes, name) == 0
    requires name in n.health ==> n.health[name] == Unknown
    ensures Summarises(n, [], name)
  {
    assert FailuresSince([]) == 0 && !Down([]);
  }

  lemma OneEvent(n: Net, h: seq<Check>, name: string, e: Event)
    requires Summarises(n, h, name)
    ensures match e
      case Register(m, _, _) => Summarises(Next(n, e), if m == name then [] else h, name)
      case Ensure(_, _, _) => Summarises(Next(n, e), h, name)
      case Update(m, c) => Summarises(Next(n, e), if m == name then h + [c] else h, name)
  {
    match e
    case Register(m, _, _) => if m == name { NothingYet(Next(n, e), name); } else { OtherEndpoint(n, h, name, e); }
    case Ensure(m, _, _) => OtherEndpoint(n, h, name, e);
    case Update(m, c) => if m == name { CheckRefines(n, h, name, c); } else { OtherEndpoint(n, h, name, e); }
  }

  /** An event about another endpoint, or one that only fills in metadata. */
  lemma OtherEndpoint(n: Net, h: seq<Check>, name: string, e: Event)
    requires Summarises(n, h, name) && (e.Ensure? || e.name != name)
    ensures Summarises(Next(n, e), h, name)
  {
    hide FailuresSince, Streak, Down, Reading, LastRecovered;
    if e.Update? { OtherCheck(n, e.name, name, e.check); }
  }

  lemma OtherCheck(n: Net, m: string, name: string, c: Check)
    requires m != name
    ensures SameFor(n, Next(n, Update(m, c)), name)
  {
    NextIsChecked(n, m, c);
    SucceedOther(n, m, name, c);
    FailOther(n, m, name, c);
    hide Next, Succeed, Fail;
  }

  /** Nothing about `name` differs. */
  predicate SameFor(n: Net, n': Net, name: string) {
    Count(n'.failures, name) == Count(n.failures, name) && Count(n'.successes, name) == Count(n.successes, name) &&
    (name in n'.health <==> name in n.health) && (name in n.health ==> n'.health[name] == n.health[name])
  }

  lemma SucceedOther(n: Net, m: string, name: string, c: Check)
    requires m != name
    ensures SameFor(n, Succeed(n, m, c), name)
  {
  }

  lemma FailOther(n: Net, m: string, name: string, c: Check)
    requires m != name
    ensures SameFor(n, Fail(n, m, c), name)
  {
    hide LastSuccess, UNKNOWN_ERROR;
  }

  /** What was last said about an endpoint when it was registered or ensured. */
  function LastDescribed(events: seq<Event>, name: string): Option<(Criticality, Option<Fallback>)> {
    if events == [] then None
    else
      var last := events[|events| - 1];
      if !last.Update? && last.name == name then Some((last.criticality, last.fallback))
      else LastDescribed(events[..|events| - 1], name)
  }

  /** In every run the metadata of an endpoint is what was last said about it, and checks leave
      it alone. */
  lemma {:induction false} MetadataIsLatest(events: seq<Event>, name: string)
    ensures var n := Run(INITIAL, events);
      match LastDescribed(events, name)
      case None => name !in n.criticality && name !in n.fallback
      case Some((criticality, fallback)) =>
        name in n.criticality && n.criticality[name] == criticality && name in n.fallback && n.fallback[name] == fallback
  {
    hide Succeed, Fail;
    if events != [] {
      var before := events[..|events| - 1];
      MetadataIsLatest(before, name);
      if events[|events| - 1].Update? { CheckKeepsMetadata(Run(INITIAL, before), events[|events| - 1]); }
    }
  }

  lemma CheckKeepsMetadata(n: Net, e: Event)
    requires e.Update?
    ensures Next(n, e).criticality == n.criticality && Next(n, e).fallback == n.fallback
  {
    NextIsChecked(n, e.name, e.check);
    hide Next, LastSuccess, UNKNOWN_ERROR;
  }

  // ----- hysteresis -----

  /** An endpoint that is down comes up only by `recoveryThreshold` healthy checks in a row. */
  lemma LeavesDownByStreak(h: seq<Check>, c: Check)
    requires Down(h) && !Down(h + [c])
    ensures c.healthy && c.recoveryThreshold <= Streak(h + [c])
    ensures var h' := h + [c];
      c.recoveryThreshold <= |h'| && forall i :: |h'| - c.recoveryThreshold <= i < |h'| ==> h'[i].healthy
  {
    hide Down;
    DownStep(h, c);
    FailuresStep(h, c);
    StreakIsMaximal(h + [c]);
  }

  /** It goes down only after `failureThreshold` failed checks with no recovery in between,
      which need not be consecutive. */
  lemma EntersDownByFailures(h: seq<Check>, c: Check)
    requires !Down(h) && Down(h + [c])
    ensures !c.healthy
    ensures var h' := h + [c];
      var since := LastRecovery(h');
      FailedChecks(h'[since..]) >= c.failureThreshold && forall m :: since < m <= |h'| ==> !Recovers(h'[..m])
  {
    hide Down;
    DownStep(h, c);
    FailuresStep(h, c);
    LastRecoveryIsLast(h + [c]);
  }

  /** Failures separated by successes short of a recovery still add up. */
  lemma ShortStreaksKeepTheCount(h: seq<Check>, c: Check)
    requires c.healthy && (Streak(h) + 1) % WRAP < c.recoveryThreshold
    ensures FailuresSince(h + [c]) == FailuresSince(h) && (Down(h + [c]) <==> Down(h))
  {
    hide Down;
    FailuresStep(h, c);
    DownStep(h, c);
  }

  // ----- the mirror -----

  predicate InSync(n: Net) {
    n.offline == ConfirmedUnhealthy(n.health, INTERNET)
  }

  /** A step taken in sync ends in sync, except exactly when it re-registers `internet` while
      that endpoint is down. */
  lemma MirrorStep(n: Net, e: Event)
    requires InSync(n)
    ensures InSync(Next(n, e)) <==> !(e.Register? && e.name == INTERNET && ConfirmedUnhealthy(n.health, INTERNET))
  {
  }

  /** The next check of `internet` always brings the mirror back in sync. */
  lemma CheckResyncs(n: Net, c: Check)
    ensures InSync(Next(n, Update(INTERNET, c)))
  {
  }

  predicate NeverReregisteredDown(events: seq<Event>) {
    forall k :: 0 <= k < |events| && events[k].Register? && events[k].name == INTERNET ==>
      !ConfirmedUnhealthy(Run(INITIAL, events[..k]).health, INTERNET)
  }

  lemma {:induction false} MirrorTracksInternet(events: seq<Event>)
    requires NeverReregisteredDown(events)
    ensures InSync(Run(INITIAL, events))
    ensures Run(INITIAL, events).offline <==> Down(History(events, INTERNET))
  {
    HealthRefinesHistory(events, INTERNET);
    if events != [] {
      var k := |events| - 1;
      var before := events[..k];
      forall i | 0 <= i < |before| && before[i].Register? && before[i].name == INTERNET
        ensures !ConfirmedUnhealthy(Run(INITIAL, before[..i]).health, INTERNET)
      {
        assert before[..i] == events[..i] && events[i] == before[i];
      }
      MirrorTracksInternet(before);
      MirrorStep(Run(INITIAL, before), events[k]);
    }
  }

  // ----- the state as it is held under the lock -----

  /** Writing a value that is already there changes nothing. */
  lemma KeepsEntry<T>(m: map<string, T>, name: string, value: T)
    ensures name in m && m[name] == value ==> m[name := value] == m
  {
  }

  class ConnectivityState {
    var health: map<string, Health>
    var criticality: map<string, Criticality>
    var fallback: map<string, Option<Fallback>>
    var failures: map<string, nat>
    var successes: map<string, nat>
    var internetOffline: bool

    function View(): Net reads this { Net(health, criticality, fallback, failures, successes, internetOffline) }

    constructor ()
      ensures View() == INITIAL
    {
      health, criticality, fallback, failures, successes := map[], map[], map[], map[], map[];
      internetOffline := false;
    }

    method RegisterEndpoint(name: string, level: Criticality, plan: Option<Fallback>)
      modifies this
      ensures View() == Next(old(View()), Register(name, level, plan))
    {
      health := health[name := Unknown];
      criticality := criticality[name := level];
      fallback := fallback[name := plan];
      failures := failures[name := 0];
      successes := successes[name := 0];
    }

    method EnsureEndpointMetadata(name: string, level: Criticality, plan: Option<Fallback>)
      modifies this
      ensures View() == Next(old(View()), Ensure(name, level, plan))
    {
      EnsureCounters(name);
      Describe(name, level, plan);
    }

    method EnsureCounters(name: string)
      modifies this`health, this`failures, this`successes
      ensures health == if name in old(health) then old(health) else old(health)[name := Unknown]
      ensures failures == old(failures)[name := Count(old(failures), name)]
      ensures successes == old(successes)[name := Count(old(successes), name)]
    {
      if name !in health { health := health[name := Unknown]; }
      KeepsEntry(failures, name, Count(failures, name));
      if name !in failures { failures := failures[name := 0]; }
      KeepsEntry(successes, name, Count(successes, name));
      if name !in successes { successes := successes[name := 0]; }
    }

    method Describe(name: string, level: Criticality, plan: Option<Fallback>)
      modifies this`criticality, this`fallback
      ensures criticality == old(criticality)[name := level] && fallback == old(fallback)[name := plan]
    {
      KeepsEntry(criticality, name, level);
      if name !in criticality || criticality[name] != level { criticality := criticality[name := level]; }
      KeepsEntry(fallback, name, plan);
      if name !in fallback || fallback[name] != plan { fallback := fallback[name := plan]; }
    }

    method UpdateHealth(name: string, healthy: bool, latency: nat, error: Option<string>,
                        failureThreshold: nat, recoveryThreshold: nat, now: int)
      modifies this
      ensures View() == Next(old(View()), Update(name, Check(healthy, latency, error, failureThreshold, recoveryThreshold, now)))
    {
      hide UNKNOWN_ERROR, INTERNET, LastSuccess, ConfirmedUnhealthy;
      if healthy {
        successes := successes[name := (Count(successes, name) + 1) % WRAP];
        if successes[name] >= recoveryThreshold {
          failures := failures[name := 0];
          match error {
            case Some(reason) => health := health[name := Degraded(latency, reason, now)];
            case None => health := health[name := Healthy(latency, now)];
          }
        }
      } else {
        failures := failures[name := (Count(failures, name) + 1) % WRAP];
        successes := successes[name := 0];
        if failures[name] >= failureThreshold {
          var reason := if error.Some? then error.value else UNKNOWN_ERROR;
          health := health[name := Unhealthy(reason, now, LastSuccess(health, name), failures[name])];
        }
      }
      if name == INTERNET {
        internetOffline := ConfirmedUnhealthy(health, INTERNET);
      }
    }
  }
}
