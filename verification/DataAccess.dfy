/** Where the install stands with the data service: a snapshot updated by every call, and
    the history it summarises. */
module DataAccess {
  import opened Results

  datatype Access =
    | Ready | Disabled | Offline | SignedOut | ReauthorizationRequired
    | VersionUnsupported(minimum: string) | Unreachable | Unknown

  /** The refusals that cannot change without signing in or upgrading. */
  predicate Refusal(a: Access) { a.ReauthorizationRequired? || a.VersionUnsupported? }

  const U32_MAX: nat := 0xFFFF_FFFF
  const UNREACHABLE_AFTER_FAILURES: nat := 3
  const UNREACHABLE_AFTER_FAILING_FOR: int := 10

  datatype Snapshot = Snapshot(access: Access, checkedAt: Option<int>, failures: nat, failingSince: Option<int>)

  const INITIAL: Snapshot := Snapshot(Unknown, None, 0, None)

  function SaturatingIncrement(n: nat): nat {
    if n >= U32_MAX then U32_MAX else n + 1
  }

  // ----- the cell -----

  class AccessState {
    var state: Snapshot
    ghost var history: seq<Event>

    /** The snapshot says about the history exactly what the history's own reading says. */
    ghost predicate Valid() reads this { Summarises(state, history) }

    constructor ()
      ensures Valid() && state == INITIAL && history == []
    {
      state, history := INITIAL, [];
    }

    /** Record the outcome of a call. */
    method Record(access: Access, clock: int, wall: int)
      requires Valid()
      modifies this
      ensures Valid() && history == old(history) + [if access == Unreachable then Failure(clock, true) else Answered(access)]
      ensures state.checkedAt == Some(wall)
    {
      ghost var event := if access == Unreachable then Failure(clock, true) else Answered(access);
      Store(access, clock, wall);
      RecordRefines(old(state), history, access, clock, wall);
      history := history + [event];
    }

    /** The store behind both kinds of record: a failure extends the run, an answer ends it. */
    method Store(access: Access, clock: int, wall: int)
      modifies this`state
      ensures state == Recorded(old(state), access, clock, wall)
    {
      var failures, failingSince := 0, None;
      if access == Unreachable {
        failures := SaturatingIncrement(state.failures);
        failingSince := Some(if state.failingSince.Some? then state.failingSince.value else clock);
      }
      state := Snapshot(access, Some(wall), failures, failingSince);
    }

    /** Record a request that never got an answer. */
    method RecordTransportFailure(now: int, clock: int, wall: int)
      requires Valid()
      modifies this
      ensures Valid() && history == old(history) + [Failure(now, false)]
    {
      var failures := SaturatingIncrement(state.failures);
      var failingSince := if state.failingSince.Some? then state.failingSince.value else now;
      var outage := failures >= UNREACHABLE_AFTER_FAILURES && now - failingSince >= UNREACHABLE_AFTER_FAILING_FOR;
      FailureRefines(state, history, now, clock, wall);
      if state.access == Unreachable || outage {
        Store(Unreachable, clock, wall);
      } else {
        state := Snapshot(state.access, state.checkedAt, failures, Some(failingSince));
      }
      history := history + [Failure(now, false)];
    }

    /** Forget a refusal that a session change may have answered; nothing else is reset. */
    method ForgetRefusals()
      requires Valid()
      modifies this
      ensures Valid() && history == old(history) + [Forget]
      ensures !Refusal(state.access)
      ensures !Refusal(old(state).access) ==> state == old(state)
    {
      ForgetRefines(state, history);
      if Refusal(state.access) {
        state := Snapshot(Unknown, state.checkedAt, 0, None);
      }
      history := history + [Forget];
    }
  }

  function Recorded(s: Snapshot, access: Access, clock: int, wall: int): Snapshot {
    if access == Unreachable then
      Snapshot(access, Some(wall), SaturatingIncrement(s.failures),
               Some(if s.failingSince.Some? then s.failingSince.value else clock))
    else Snapshot(access, Some(wall), 0, None)
  }

  // ----- the history, read on its own terms -----

  /** `decisive` marks a failure reported as an outage outright. */
  datatype Event = Answered(access: Access) | Failure(now: int, decisive: bool) | Forget

  function Last(h: seq<Event>): Event
    requires h != []
  {
    h[|h| - 1]
  }

  function Before(h: seq<Event>): seq<Event>
    requires h != []
  {
    h[..|h| - 1]
  }

  /** Does the last event end the run of failures: an answer, or forgetting a standing refusal? */
  predicate Resets(h: seq<Event>)
    requires h != []
    decreases |h|, 0
  {
    Last(h).Answered? || (Last(h).Forget? && Refusal(Standing(Before(h))))
  }

  /** The failures since the last reset, oldest first. */
  function FailureRun(h: seq<Event>): seq<Event>
    decreases |h|, 1
  {
    if h == [] || Resets(h) then []
    else if Last(h).Failure? then FailureRun(Before(h)) + [Last(h)]
    else FailureRun(Before(h))
  }

  /** The last recorded answer: nothing yet, or nothing since a refusal was forgotten. */
  function LastAnswer(h: seq<Event>): Access
    decreases |h|, 1
  {
    if h == [] then Unknown
    else if Last(h).Answered? then Last(h).access
    else if Resets(h) then Unknown
    else LastAnswer(Before(h))
  }

  /** Failure `k` of a run proves an outage: it is at least the third, and at least ten
      seconds after the first. */
  predicate Decisive(run: seq<Event>, k: nat) {
    k < |run| && run[k].Failure? && run[0].Failure? &&
    (run[k].decisive ||
     (k + 1 >= UNREACHABLE_AFTER_FAILURES && run[k].now - run[0].now >= UNREACHABLE_AFTER_FAILING_FOR))
  }

  predicate Outage(run: seq<Event>) {
    exists k :: 0 <= k < |run| && Decisive(run, k)
  }

  function Standing(h: seq<Event>): Access
    decreases |h|, 2
  {
    if Outage(FailureRun(h)) then Unreachable else LastAnswer(h)
  }

  lemma {:induction false} RunIsFailures(h: seq<Event>)
    ensures forall k :: 0 <= k < |FailureRun(h)| ==> FailureRun(h)[k].Failure?
  {
    if h != [] && !Resets(h) { RunIsFailures(Before(h)); }
  }

  /** The snapshot's access is what the history says stands, its counter is the length of the
      failure run, saturating, and its instant is that of the run's first failure. */
  predicate Summarises(s: Snapshot, h: seq<Event>) {
    var run := FailureRun(h);
    s.access == Standing(h) &&
    s.failures == (if |run| <= U32_MAX then |run| else U32_MAX) &&
    s.failingSince == (if run == [] then None else if run[0].Failure? then Some(run[0].now) else None) &&
    NoUnreachableAnswers(h)
  }

  predicate NoUnreachableAnswers(h: seq<Event>) {
    forall e :: e in h && e.Answered? ==> e.access != Unreachable
  }

  lemma {:induction false} AnswersAreReachable(h: seq<Event>)
    requires NoUnreachableAnswers(h)
    ensures LastAnswer(h) != Unreachable
  {
    if h != [] {
      assert forall e :: e in Before(h) ==> e in h;
      assert Last(h) in h;
      AnswersAreReachable(Before(h));
    }
  }

  lemma OutageExtends(run: seq<Event>, e: Event)
    requires e.Failure? && forall k :: 0 <= k < |run| ==> run[k].Failure?
    ensures Outage(run + [e]) <==> Outage(run) || Decisive(run + [e], |run|)
  {
    if Outage(run) {
      var k :| 0 <= k < |run| && Decisive(run, k);
      assert Decisive(run + [e], k);
    }
    if Outage(run + [e]) {
      var k :| 0 <= k < |run + [e]| && Decisive(run + [e], k);
      if k < |run| { assert Decisive(run, k); }
    }
  }

  lemma Appended(h: seq<Event>, e: Event)
    ensures Last(h + [e]) == e && Before(h + [e]) == h
    ensures NoUnreachableAnswers(h) && (e.Answered? ==> e.access != Unreachable) ==> NoUnreachableAnswers(h + [e])
  {
  }

  lemma RecordRefines(s: Snapshot, h: seq<Event>, access: Access, clock: int, wall: int)
    requires Summarises(s, h)
    ensures Summarises(Recorded(s, access, clock, wall),
                       h + [if access == Unreachable then Failure(clock, true) else Answered(access)])
  {
    var e := if access == Unreachable then Failure(clock, true) else Answered(access);
    Appended(h, e);
    if access == Unreachable {
      RunIsFailures(h);
      OutageExtends(FailureRun(h), e);
      assert Decisive(FailureRun(h) + [e], |FailureRun(h)|);
      assert FailureRun(h + [e]) == FailureRun(h) + [e];
    } else {
      AnswerRestores(h, access);
    }
  }

  lemma FailureRefines(s: Snapshot, h: seq<Event>, now: int, clock: int, wall: int)
    requires Summarises(s, h)
    ensures var failures := SaturatingIncrement(s.failures);
      var since := if s.failingSince.Some? then s.failingSince.value else now;
      var outage := failures >= UNREACHABLE_AFTER_FAILURES && now - since >= UNREACHABLE_AFTER_FAILING_FOR;
      Summarises(if s.access == Unreachable || outage then Recorded(s, Unreachable, clock, wall)
                 else Snapshot(s.access, s.checkedAt, failures, Some(since)),
                 h + [Failure(now, false)])
  {
    var e := Failure(now, false);
    var run := FailureRun(h);
    Appended(h, e);
    RunIsFailures(h);
    OutageExtends(run, e);
    AnswersAreReachable(h);
    assert FailureRun(h + [e]) == run + [e];
  }

  lemma ForgetRefines(s: Snapshot, h: seq<Event>)
    requires Summarises(s, h)
    ensures Summarises(if Refusal(s.access) then Snapshot(Unknown, s.checkedAt, 0, None) else s, h + [Forget])
  {
    Appended(h, Forget);
  }

  // ----- what the history reading means -----

  /** Failures that all come within ten seconds never take down a service that answered,
      however many there are. */
  lemma {:induction false} BurstIsNotAnOutage(h: seq<Event>, burst: seq<Event>, start: int)
    requires !Outage(FailureRun(h)) && FailureRun(h) == []
    requires forall e :: e in burst ==> e.Failure? && !e.decisive && start <= e.now < start + UNREACHABLE_AFTER_FAILING_FOR
    ensures Standing(h + burst) == LastAnswer(h) && FailureRun(h + burst) == burst
  {
    BurstRun(h, burst);
    assert forall k :: 0 <= k < |burst| ==> burst[k] in burst;
  }

  lemma {:induction false} BurstRun(h: seq<Event>, burst: seq<Event>)
    requires FailureRun(h) == [] && forall e :: e in burst ==> e.Failure?
    ensures FailureRun(h + burst) == burst && LastAnswer(h + burst) == LastAnswer(h)
    decreases |burst|
  {
    if burst == [] {
      assert h + burst == h;
    } else {
      var front := burst[..|burst| - 1];
      assert forall e :: e in front ==> e in burst;
      BurstRun(h, front);
      assert h + burst == (h + front) + [burst[|burst| - 1]];
      Appended(h + front, burst[|burst| - 1]);
      assert burst[|burst| - 1] in burst && burst == front + [burst[|burst| - 1]];
    }
  }

  /** One answer ends any outage. */
  lemma AnswerRestores(h: seq<Event>, access: Access)
    ensures Standing(h + [Answered(access)]) == access && FailureRun(h + [Answered(access)]) == []
  {
    Appended(h, Answered(access));
  }

  // ----- one call, and whether to make it -----

  datatype Response =
    | TransportError
    | RefusedBy(status: nat, code: string, minimum: Option<string>)
    | Success(readable: bool)

  function AccessForRefusal(status: nat, code: string, minimum: Option<string>): Access {
    var version := VersionUnsupported(if minimum.Some? then minimum.value else "a newer release");
    if code in {"signin_required", "token_invalid", "token_expired", "token_wrong_audience"} then SignedOut
    else if code in {"reauthorization_required", "scope_missing"} then ReauthorizationRequired
    else if code == "version_unsupported" then version
    else if status == 401 then SignedOut
    else if status == 403 then ReauthorizationRequired
    else if status == 426 then version
    else Unreachable
  }

  /** What a call records: a local obstacle, a transport failure, a refusal, or an answer. */
  function CallEvent(enabled: bool, offline: bool, hasToken: bool, r: Response, now: int): Event {
    if !enabled then Answered(Disabled)
    else if offline then Answered(Offline)
    else if !hasToken then Answered(SignedOut)
    else match r
      case TransportError => Failure(now, false)
      case RefusedBy(status, code, minimum) =>
        var a := AccessForRefusal(status, code, minimum);
        if a == Unreachable then Failure(now, false) else Answered(a)
      case Success(_) => Answered(Ready)
  }

  predicate IsUsable(enabled: bool, offline: bool, signedIn: bool, access: Access) {
    enabled && !offline && signedIn && !Refusal(access)
  }

  /** Calls only ever record answers that the history reading expects, a call that was
      refused never reads as working, and a working call ends any run of failures. */
  lemma CallsRecordSoundly(h: seq<Event>, enabled: bool, offline: bool, hasToken: bool, r: Response, now: int)
    ensures var e := CallEvent(enabled, offline, hasToken, r, now);
      && (e.Answered? ==> e.access != Unreachable && e.access != Unknown)
      && (e == Answered(Ready) <==> enabled && !offline && hasToken && r.Success?)
      && (e.Failure? ==> !e.decisive)
      && (r.Success? && enabled && !offline && hasToken ==> Standing(h + [e]) == Ready)
  {
    var e := CallEvent(enabled, offline, hasToken, r, now);
    if e.Answered? { AnswerRestores(h, e.access); }
  }

  /** After a sign-in has forgotten refusals, whether to call depends on live facts alone;
      and a recorded refusal is the only record that ever stops a call. */
  lemma UsableAfterForget(h: seq<Event>, enabled: bool, offline: bool, signedIn: bool)
    ensures IsUsable(enabled, offline, signedIn, Standing(h + [Forget])) <==> enabled && !offline && signedIn
    ensures IsUsable(enabled, offline, signedIn, Standing(h)) <==>
      enabled && !offline && signedIn && (Outage(FailureRun(h)) || !Refusal(LastAnswer(h)))
  {
    Appended(h, Forget);
    if Refusal(Standing(h)) {
      assert FailureRun(h + [Forget]) == [];
    } else {
      assert !Resets(h + [Forget]);
      assert FailureRun(h + [Forget]) == FailureRun(h);
      assert LastAnswer(h + [Forget]) == LastAnswer(h);
    }
  }
}
