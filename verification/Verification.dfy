/** The handover between actions that wait for on-chain verification and the verifier that
    settles signatures: two maps under one lock, so either side may come first. */
module Verification {
  import opened Results

  const VERDICT_TTL: int := 15 * 60
  const MAX_UNCLAIMED: nat := 512

  datatype Verdict = Verified | Refuted(reason: string)
  datatype Waiter = Waiter(action: string, step: nat)
  datatype Entry = Entry(settledAt: int, verdict: Verdict)
  datatype Finish = Finish(signature: string, waiter: Waiter, verdict: Verdict)

  datatype Registry = Registry(awaiting: map<string, Waiter>, unclaimed: map<string, Entry>)

  // ----- the two operations -----

  function Fresh(m: map<string, Entry>, now: int): map<string, Entry> {
    map k | k in m && now - m[k].settledAt < VERDICT_TTL :: m[k]
  }

  predicate Oldest(m: map<string, Entry>, k: string) {
    k in m && forall j :: j in m ==> m[k].settledAt <= m[j].settledAt
  }

  /** One registration or one verdict. When a verdict needs room, `victim` is whichever of
      the oldest entries the map's iteration reached first. */
  datatype Event =
    | Await(signature: string, waiter: Waiter)
    | Settle(signature: string, verdict: Verdict, now: int, victim: string)

  function MakeRoom(m: map<string, Entry>, now: int, victim: string): map<string, Entry> {
    var live := Fresh(m, now);
    if |live| >= MAX_UNCLAIMED then live - {victim} else live
  }

  function Next(r: Registry, e: Event): Registry {
    match e
    case Await(s, waiter) =>
      if s in r.unclaimed then r.(unclaimed := r.unclaimed - {s})
      else r.(awaiting := r.awaiting[s := waiter])
    case Settle(s, verdict, now, victim) =>
      if s in r.awaiting then r.(awaiting := r.awaiting - {s})
      else r.(unclaimed := MakeRoom(r.unclaimed, now, victim)[s := Entry(now, verdict)])
  }

  /** The finishes an event causes. */
  function Finishes(r: Registry, e: Event): seq<Finish> {
    match e
    case Await(s, waiter) => if s in r.unclaimed then [Finish(s, waiter, r.unclaimed[s].verdict)] else []
    case Settle(s, verdict, _, _) => if s in r.awaiting then [Finish(s, r.awaiting[s], verdict)] else []
  }

  /** Does the event find the victim it names when it has to evict? */
  predicate Legal(r: Registry, e: Event) {
    e.Settle? && e.signature !in r.awaiting && |Fresh(r.unclaimed, e.now)| >= MAX_UNCLAIMED ==>
      Oldest(Fresh(r.unclaimed, e.now), e.victim)
  }

  predicate LegalRun(r: Registry, events: seq<Event>)
    decreases |events|
  {
    events == [] || (Legal(r, events[0]) && LegalRun(Next(r, events[0]), events[1..]))
  }

  function After(r: Registry, events: seq<Event>): Registry
    decreases |events|
  {
    if events == [] then r else After(Next(r, events[0]), events[1..])
  }

  function AllFinishes(r: Registry, events: seq<Event>): seq<Finish>
    decreases |events|
  {
    if events == [] then [] else Finishes(r, events[0]) + AllFinishes(Next(r, events[0]), events[1..])
  }

  /** The finishes of one signature. */
  function Of(finishes: seq<Finish>, s: string): seq<Finish> {
    if finishes == [] then []
    else (if finishes[0].signature == s then [finishes[0]] else []) + Of(finishes[1..], s)
  }

  predicate Untouched(events: seq<Event>, s: string) {
    forall e :: e in events ==> e.signature != s
  }

  // ----- bounds -----

  predicate Inv(r: Registry) {
    r.awaiting.Keys !! r.unclaimed.Keys && |r.unclaimed| <= MAX_UNCLAIMED
  }

  lemma {:induction false} SubsetSize<T>(a: set<T>, b: set<T>)
    requires a <= b
    ensures |a| <= |b|
  {
    if a != {} {
      var x :| x in a;
      SubsetSize(a - {x}, b - {x});
    }
  }

  lemma RoomSize(m: map<string, Entry>, now: int, victim: string)
    requires |m| <= MAX_UNCLAIMED
    requires |Fresh(m, now)| >= MAX_UNCLAIMED ==> Oldest(Fresh(m, now), victim)
    ensures |MakeRoom(m, now, victim)| < MAX_UNCLAIMED
    ensures |Fresh(m, now)| <= MAX_UNCLAIMED
  {
    var live := Fresh(m, now);
    SubsetSize(live.Keys, m.Keys);
    assert |live.Keys| == |live| && |m.Keys| == |m|;
    if |live| >= MAX_UNCLAIMED {
      assert (live - {victim}).Keys == live.Keys - {victim};
    }
  }

  /** No signature is on both sides, and the unclaimed verdicts never exceed the cap. */
  lemma StepKeepsInv(r: Registry, e: Event)
    requires Inv(r) && Legal(r, e)
    ensures Inv(Next(r, e))
  {
    match e
    case Await(s, _) =>
      if s in r.unclaimed {
        SubsetSize((r.unclaimed - {s}).Keys, r.unclaimed.Keys);
        assert |(r.unclaimed - {s}).Keys| == |r.unclaimed - {s}|;
      }
    case Settle(s, verdict, now, victim) =>
      if s !in r.awaiting {
        RoomSize(r.unclaimed, now, victim);
        var room := MakeRoom(r.unclaimed, now, victim);
        var added := room[s := Entry(now, verdict)];
        assert added.Keys == room.Keys + {s};
        assert |added| == |added.Keys| && |room| == |room.Keys|;
      }
  }

  lemma {:induction false} RunKeepsInv(r: Registry, events: seq<Event>)
    requires Inv(r) && LegalRun(r, events)
    ensures Inv(After(r, events))
    decreases |events|
  {
    if events != [] {
      StepKeepsInv(r, events[0]);
      RunKeepsInv(Next(r, events[0]), events[1..]);
    }
  }

  // ----- runs in sequence -----

  lemma {:induction false} RunConcat(r: Registry, a: seq<Event>, b: seq<Event>)
    ensures After(r, a + b) == After(After(r, a), b)
    ensures AllFinishes(r, a + b) == AllFinishes(r, a) + AllFinishes(After(r, a), b)
    ensures LegalRun(r, a + b) <==> LegalRun(r, a) && LegalRun(After(r, a), b)
    decreases |a|
  {
    hide Next, Finishes, Legal;
    if a == [] {
      assert a + b == b;
    } else {
      assert (a + b)[0] == a[0] && (a + b)[1..] == a[1..] + b;
      RunConcat(Next(r, a[0]), a[1..], b);
    }
  }

  lemma {:induction false} OfConcat(a: seq<Finish>, b: seq<Finish>, s: string)
    ensures Of(a + b, s) == Of(a, s) + Of(b, s)
  {
    var c := a + b;
    if a == [] {
      assert c == b && Of(a, s) == [];
    } else {
      hide Of;
      OfConcat(a[1..], b, s);
      assert c == [a[0]] + (a[1..] + b) && a == [a[0]] + a[1..];
      OfHead(a[0], a[1..] + b, s);
      OfHead(a[0], a[1..], s);
      Associative(if a[0].signature == s then [a[0]] else [], Of(a[1..], s), Of(b, s));
    }
  }

  lemma Associative(a: seq<Finish>, b: seq<Finish>, c: seq<Finish>)
    ensures a + (b + c) == (a + b) + c
  {
  }

  lemma OfHead(f: Finish, rest: seq<Finish>, s: string)
    ensures Of([f] + rest, s) == (if f.signature == s then [f] else []) + Of(rest, s)
  {
    assert ([f] + rest)[1..] == rest;
  }

  /** Traffic on other signatures finishes nothing of `s` and leaves a waiter in place. */
  lemma {:induction false} OthersLeaveWaiter(r: Registry, events: seq<Event>, s: string)
    requires Untouched(events, s)
    ensures Of(AllFinishes(r, events), s) == []
    ensures s in After(r, events).awaiting <==> s in r.awaiting
    ensures s in r.awaiting ==> After(r, events).awaiting[s] == r.awaiting[s]
    ensures s !in r.unclaimed ==> s !in After(r, events).unclaimed
    decreases |events|
  {
    if events != [] {
      assert events[0] in events && forall e :: e in events[1..] ==> e in events;
      OthersLeaveWaiter(Next(r, events[0]), events[1..], s);
      OfConcat(Finishes(r, events[0]), AllFinishes(Next(r, events[0]), events[1..]), s);
    }
  }

  // ----- a verdict waiting to be claimed -----

  /** Would this event drop another signature's verdict settled at `settledAt`: is it an
      unmatched verdict that finds that one expired, or evicts it from a full map? */
  predicate Drops(r: Registry, e: Event, s: string, settledAt: int) {
    e.Settle? && e.signature !in r.awaiting &&
    (e.now - settledAt >= VERDICT_TTL || (|Fresh(r.unclaimed, e.now)| >= MAX_UNCLAIMED && e.victim == s))
  }

  /** No event of the stretch drops it. */
  predicate Survives(r: Registry, events: seq<Event>, s: string, settledAt: int)
    decreases |events|
  {
    events == [] || (!Drops(r, events[0], s, settledAt) && Survives(Next(r, events[0]), events[1..], s, settledAt))
  }

  lemma DropsExact(r: Registry, e: Event, s: string)
    requires s in r.unclaimed && e.signature != s
    ensures s in Next(r, e).unclaimed <==> !Drops(r, e, s, r.unclaimed[s].settledAt)
    ensures s in Next(r, e).unclaimed ==> Next(r, e).unclaimed[s] == r.unclaimed[s]
  {
  }

  lemma {:induction false} SurvivesExact(r: Registry, events: seq<Event>, s: string)
    requires s in r.unclaimed && Untouched(events, s)
    ensures s in After(r, events).unclaimed <==> Survives(r, events, s, r.unclaimed[s].settledAt)
    ensures s in After(r, events).unclaimed ==> After(r, events).unclaimed[s] == r.unclaimed[s]
    decreases |events|
  {
    if events != [] {
      var e := events[0];
      assert e in events && forall f :: f in events[1..] ==> f in events;
      DropsExact(r, e, s);
      if s in Next(r, e).unclaimed {
        SurvivesExact(Next(r, e), events[1..], s);
      } else {
        OthersLeaveWaiter(Next(r, e), events[1..], s);
      }
    }
  }

  /** An entry that is evicted rather than expired is the oldest of a full map: at least
      511 other signatures hold verdicts settled no earlier. */
  lemma EvictedWhenFull(r: Registry, e: Event, s: string)
    requires Inv(r) && Legal(r, e) && s in r.unclaimed && Drops(r, e, s, r.unclaimed[s].settledAt)
    requires e.now - r.unclaimed[s].settledAt < VERDICT_TTL
    ensures var others := Fresh(r.unclaimed, e.now).Keys - {s};
      |others| >= MAX_UNCLAIMED - 1 &&
      forall o :: o in others ==> o in r.unclaimed && r.unclaimed[o].settledAt >= r.unclaimed[s].settledAt
  {
    var live := Fresh(r.unclaimed, e.now);
    assert |live| == |live.Keys|;
  }

  /** Under a clock that never repeats, no two verdicts share an instant. */
  ghost predicate DistinctTimes(r: Registry, last: int) {
    (forall k :: k in r.unclaimed ==> r.unclaimed[k].settledAt <= last) &&
    (forall j, k :: j in r.unclaimed && k in r.unclaimed && j != k ==>
      r.unclaimed[j].settledAt != r.unclaimed[k].settledAt)
  }

  lemma TimesStayDistinct(r: Registry, e: Event, last: int)
    requires DistinctTimes(r, last) && (e.Settle? ==> last < e.now)
    ensures DistinctTimes(Next(r, e), if e.Settle? then e.now else last)
  {
  }

  lemma EvictedByLater(r: Registry, e: Event, s: string, last: int)
    requires Inv(r) && Legal(r, e) && DistinctTimes(r, last) && s in r.unclaimed && Drops(r, e, s, r.unclaimed[s].settledAt)
    requires e.now - r.unclaimed[s].settledAt < VERDICT_TTL
    ensures exists others: set<string> ::
      |others| >= MAX_UNCLAIMED - 1 && s !in others && others <= r.unclaimed.Keys &&
      forall o :: o in others ==> r.unclaimed[o].settledAt > r.unclaimed[s].settledAt
  {
    EvictedWhenFull(r, e, s);
    var others := Fresh(r.unclaimed, e.now).Keys - {s};
    assert others <= r.unclaimed.Keys;
  }

  const EMPTY: Registry := Registry(map[], map[])

  /** Each verdict is settled strictly later than `last` and than every verdict before it. */
  predicate RisingClock(events: seq<Event>, last: int)
    decreases |events|
  {
    events == [] ||
    ((events[0].Settle? ==> last < events[0].now) &&
     RisingClock(events[1..], if events[0].Settle? then events[0].now else last))
  }

  /** The instant of the last verdict of a run, or `last` if there is none. */
  function LastSettled(events: seq<Event>, last: int): int
    decreases |events|
  {
    if events == [] then last else LastSettled(events[1..], if events[0].Settle? then events[0].now else last)
  }

  lemma {:induction false} RunsKeepTimesDistinct(r: Registry, events: seq<Event>, last: int)
    requires DistinctTimes(r, last) && RisingClock(events, last)
    ensures DistinctTimes(After(r, events), LastSettled(events, last))
    decreases |events|
  {
    hide Next, DistinctTimes;
    if events != [] {
      var e := events[0];
      TimesStayDistinct(r, e, last);
      RunsKeepTimesDistinct(Next(r, e), events[1..], if e.Settle? then e.now else last);
    }
  }

  /** In every run from an empty registry under a clock that never repeats, an unexpired verdict
      is evicted only when at least 511 other signatures hold verdicts settled strictly later. */
  lemma EvictedOnlyByLater(events: seq<Event>, e: Event, s: string, last: int)
    requires LegalRun(EMPTY, events) && RisingClock(events, last)
    requires var r := After(EMPTY, events);
      Legal(r, e) && s in r.unclaimed && Drops(r, e, s, r.unclaimed[s].settledAt) &&
      e.now - r.unclaimed[s].settledAt < VERDICT_TTL
    ensures var r := After(EMPTY, events);
      exists others: set<string> ::
        |others| >= MAX_UNCLAIMED - 1 && s !in others && others <= r.unclaimed.Keys &&
        forall o :: o in others ==> r.unclaimed[o].settledAt > r.unclaimed[s].settledAt
  {
    hide After, LegalRun, RisingClock, LastSettled;
    RunsKeepTimesDistinct(EMPTY, events, last);
    RunKeepsInv(EMPTY, events);
    EvictedByLater(After(EMPTY, events), e, s, LastSettled(events, last));
  }

  // ----- no verdict is lost -----

  /** Registering first: whatever happens to other signatures in between, the verdict
      finishes the waiter, exactly once. */
  lemma AwaitThenSettle(r: Registry, waiter: Waiter, mid: seq<Event>, settle: Event, rest: seq<Event>)
    requires settle.Settle? && settle.signature !in r.awaiting && settle.signature !in r.unclaimed
    requires Untouched(mid, settle.signature) && Untouched(rest, settle.signature)
    ensures var s := settle.signature;
      var run := [Await(s, waiter)] + (mid + ([settle] + rest));
      Of(AllFinishes(r, run), s) == [Finish(s, waiter, settle.verdict)]
  {
    var s := settle.signature;
    var r1 := Next(r, Await(s, waiter));
    var r2 := After(r1, mid);
    var r3 := Next(r2, settle);
    OthersLeaveWaiter(r1, mid, s);
    OthersLeaveWaiter(r3, rest, s);
    Compose(r, Await(s, waiter), mid, settle, rest, s);
  }

  /** Settling first: the verdict is handed over on registration, exactly once, if its entry
      was neither expired nor evicted meanwhile; otherwise nothing finishes and the
      registration is left waiting. */
  lemma SettleThenAwait(r: Registry, settle: Event, mid: seq<Event>, waiter: Waiter, rest: seq<Event>)
    requires settle.Settle? && settle.signature !in r.awaiting && settle.signature !in r.unclaimed
    requires Untouched(mid, settle.signature) && Untouched(rest, settle.signature)
    ensures var s := settle.signature;
      var run := [settle] + (mid + ([Await(s, waiter)] + rest));
      if Survives(Next(r, settle), mid, s, settle.now)
      then Of(AllFinishes(r, run), s) == [Finish(s, waiter, settle.verdict)]
      else Of(AllFinishes(r, run), s) == [] && s in After(r, run).awaiting && After(r, run).awaiting[s] == waiter
  {
    var s := settle.signature;
    var r1 := Next(r, settle);
    var r2 := After(r1, mid);
    var r3 := Next(r2, Await(s, waiter));
    SurvivesExact(r1, mid, s);
    OthersLeaveWaiter(r1, mid, s);
    OthersLeaveWaiter(r3, rest, s);
    Compose(r, settle, mid, Await(s, waiter), rest, s);
  }

  lemma Compose(r: Registry, first: Event, mid: seq<Event>, second: Event, rest: seq<Event>, s: string)
    ensures var r1 := Next(r, first); var r2 := After(r1, mid); var r3 := Next(r2, second);
      var run := [first] + (mid + ([second] + rest));
      && After(r, run) == After(r3, rest)
      && Of(AllFinishes(r, run), s) ==
           Of(Finishes(r, first), s) + (Of(AllFinishes(r1, mid), s) +
           (Of(Finishes(r2, second), s) + Of(AllFinishes(r3, rest), s)))
  {
    var r1 := Next(r, first);
    var r2 := After(r1, mid);
    var r3 := Next(r2, second);
    var tail := [second] + rest;
    var body := mid + tail;
    assert ([first] + body)[1..] == body && tail[1..] == rest;
    RunConcat(r1, mid, tail);
    OfConcat(Finishes(r, first), AllFinishes(r1, body), s);
    OfConcat(AllFinishes(r1, mid), AllFinishes(r2, tail), s);
    OfConcat(Finishes(r2, second), AllFinishes(r3, rest), s);
  }

  // ----- the registry as it is held under the lock -----

  class Handover {
    var awaiting: map<string, Waiter>
    var unclaimed: map<string, Entry>

    function View(): Registry reads this { Registry(awaiting, unclaimed) }

    constructor ()
      ensures View() == Registry(map[], map[]) && Inv(View())
    {
      awaiting, unclaimed := map[], map[];
    }

    /** Register interest in a signature; a verdict already there is handed over at once. */
    method AwaitVerification(signature: string, waiter: Waiter) returns (finish: Option<Finish>)
      requires Inv(View())
      modifies this
      ensures Inv(View()) && View() == Next(old(View()), Await(signature, waiter))
      ensures (if finish.Some? then [finish.value] else []) == Finishes(old(View()), Await(signature, waiter))
    {
      StepKeepsInv(View(), Await(signature, waiter));
      if signature in unclaimed {
        finish := Some(Finish(signature, waiter, unclaimed[signature].verdict));
        unclaimed := unclaimed - {signature};
      } else {
        finish := None;
        awaiting := awaiting[signature := waiter];
      }
    }

    /** Record a verdict: finish the waiter, or keep the verdict after purging what has
        expired and, when full, one oldest entry. */
    method SettleVerification(signature: string, verdict: Verdict, now: int)
      returns (finish: Option<Finish>, ghost victim: string)
      requires Inv(View())
      modifies this
      ensures Inv(View()) && Legal(old(View()), Settle(signature, verdict, now, victim))
      ensures View() == Next(old(View()), Settle(signature, verdict, now, victim))
      ensures (if finish.Some? then [finish.value] else [])
           == Finishes(old(View()), Settle(signature, verdict, now, victim))
    {
      victim := "";
      if signature in awaiting {
        StepKeepsInv(View(), Settle(signature, verdict, now, victim));
        finish := Some(Finish(signature, awaiting[signature], verdict));
        awaiting := awaiting - {signature};
        return;
      }
      finish := None;
      var live := Fresh(unclaimed, now);
      if |live| >= MAX_UNCLAIMED {
        var oldest := FindOldest(live);
        victim := oldest;
        StepKeepsInv(View(), Settle(signature, verdict, now, victim));
        live := live - {oldest};
      } else {
        StepKeepsInv(View(), Settle(signature, verdict, now, victim));
      }
      unclaimed := live[signature := Entry(now, verdict)];
    }
  }

  method FindOldest(m: map<string, Entry>) returns (k: string)
    requires |m| > 0
    ensures Oldest(m, k)
  {
    assert m.Keys != {} by { assert |m.Keys| == |m|; }
    k :| k in m;
    var left := m.Keys - {k};
    while left != {}
      invariant k in m && left <= m.Keys
      invariant forall j :: j in m && j !in left ==> m[k].settledAt <= m[j].settledAt
      decreases left
    {
      var j :| j in left;
      if m[j].settledAt < m[k].settledAt {
        k := j;
      }
      left := left - {j};
    }
  }
}
