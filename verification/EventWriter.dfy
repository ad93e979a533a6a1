/** The background event writer: a bounded queue drained into batches, each batch handed to
    the database, to the cache of recent events and to the subscribers. */
module EventWriter {
  const CHANNEL_CAPACITY: nat := 10000
  const BATCH_SIZE: nat := 100
  const CACHE_CAPACITY: nat := 5000

  /** `cache` is newest first; `handed` is what was given to the database, in order, and
      `delivered` what was sent to subscribers. `accepted` is every event a sender got rid of. */
  datatype Writer<E> = Writer(
    open: bool, stopped: bool, queue: seq<E>, batch: seq<E>, cache: seq<E>,
    accepted: seq<E>, handed: seq<E>, delivered: seq<E>)

  /** A sender's attempt, a turn of the writer's loop by either branch, or the last sender going away. */
  datatype Step<E> = Send(event: E) | Receive | Tick | Close

  /** The newest events of a history, newest first, as many as the cache holds. */
  function Newest<E>(history: seq<E>): (r: seq<E>)
    ensures |r| == if |history| <= CACHE_CAPACITY then |history| else CACHE_CAPACITY
    ensures forall k :: 0 <= k < |r| ==> r[k] == history[|history| - 1 - k]
  {
    var n := if |history| <= CACHE_CAPACITY then |history| else CACHE_CAPACITY;
    seq(n, k requires 0 <= k < n => history[|history| - 1 - k])
  }

  /** Push to the front, then pop from the back while over capacity. */
  function Pushed<E>(cache: seq<E>, events: seq<E>): seq<E>
    decreases |events|
  {
    if events == [] then cache
    else
      var longer := [events[0]] + cache;
      Pushed(if |longer| > CACHE_CAPACITY then longer[..CACHE_CAPACITY] else longer, events[1..])
  }

  function WriteBatch<E>(w: Writer<E>): Writer<E> {
    if w.batch == [] then w
    else w.(batch := [], cache := Pushed(w.cache, w.batch), handed := w.handed + w.batch, delivered := w.delivered + w.batch)
  }

  function DoReceive<E>(w: Writer<E>): Writer<E> {
    if w.stopped then w
    else if w.queue != [] then
      var taken := w.(queue := w.queue[1..], batch := w.batch + [w.queue[0]]);
      if |taken.batch| >= BATCH_SIZE then WriteBatch(taken) else taken
    else if w.open then w
    else WriteBatch(w).(stopped := true)
  }

  function Next<E>(w: Writer<E>, step: Step<E>): Writer<E> {
    match step
    case Send(e) =>
      if w.open && |w.queue| < CHANNEL_CAPACITY
      then w.(queue := w.queue + [e], accepted := w.accepted + [e]) else w
    case Receive => DoReceive(w)
    case Tick => if w.stopped then w else WriteBatch(w)
    case Close => w.(open := false)
  }

  function Run<E>(w: Writer<E>, steps: seq<Step<E>>): Writer<E>
    decreases |steps|
  {
    if steps == [] then w else Run(Next(w, steps[0]), steps[1..])
  }

  function Fresh<E>(): Writer<E> {
    Writer(true, false, [], [], [], [], [], [])
  }

  ghost predicate Inv<E>(w: Writer<E>) {
    w.handed + w.batch + w.queue == w.accepted &&
    |w.batch| < BATCH_SIZE && |w.queue| <= CHANNEL_CAPACITY &&
    w.delivered == w.handed && w.cache == Newest(w.handed) &&
    (w.stopped ==> !w.open && w.batch == [] && w.queue == [])
  }

  lemma {:induction false} PushedIsNewest<E>(history: seq<E>, events: seq<E>)
    ensures Pushed(Newest(history), events) == Newest(history + events)
    decreases |events|
  {
    if events == [] {
      assert history + events == history;
    } else {
      var longer := [events[0]] + Newest(history);
      var kept := if |longer| > CACHE_CAPACITY then longer[..CACHE_CAPACITY] else longer;
      assert kept == Newest(history + [events[0]]);
      PushedIsNewest(history + [events[0]], events[1..]);
      assert history + [events[0]] + events[1..] == history + events;
    }
  }

  /** Writing a batch moves it, whole and in order, from the batch to everything downstream. */
  lemma WriteKeeps<E>(w: Writer<E>)
    requires w.delivered == w.handed && w.cache == Newest(w.handed)
    ensures var w' := WriteBatch(w);
      && w'.batch == [] && w'.handed == w.handed + w.batch
      && w'.delivered == w'.handed && w'.cache == Newest(w'.handed)
      && w' == w.(batch := w'.batch, cache := w'.cache, handed := w'.handed, delivered := w'.delivered)
  {
    PushedIsNewest(w.handed, w.batch);
  }

  lemma StepKeeps<E>(w: Writer<E>, step: Step<E>)
    requires Inv(w)
    ensures Inv(Next(w, step))
  {
    WriteKeeps(w);
    if step.Receive? && w.queue != [] {
      var taken := w.(queue := w.queue[1..], batch := w.batch + [w.queue[0]]);
      WriteKeeps(taken);
      assert taken.handed + taken.batch + taken.queue == w.handed + w.batch + w.queue;
    }
  }

  lemma {:induction false} RunKeeps<E>(w: Writer<E>, steps: seq<Step<E>>)
    requires Inv(w)
    ensures Inv(Run(w, steps))
    decreases |steps|
  {
    if steps != [] {
      StepKeeps(w, steps[0]);
      RunKeeps(Next(w, steps[0]), steps[1..]);
    }
  }

  /** After every run each accepted event is in exactly one place, in the order of acceptance;
      subscribers saw what the database was given; the cache holds the newest of it. */
  lemma EventsKeepTheirOrder<E>(steps: seq<Step<E>>)
    ensures var w := Run(Fresh<E>(), steps);
      && w.handed + w.batch + w.queue == w.accepted
      && |w.batch| < BATCH_SIZE && |w.queue| <= CHANNEL_CAPACITY
      && w.delivered == w.handed
      && w.cache == Newest(w.handed)
      && (w.stopped ==> w.handed == w.accepted)
  {
    RunKeeps(Fresh<E>(), steps);
  }

  function Receives<E>(n: nat): seq<Step<E>> {
    if n == 0 then [] else [Receive] + Receives(n - 1)
  }

  /** Once the last sender is gone, as many turns as there are queued events and one more
      hand over everything and stop the writer. */
  lemma {:induction false} CloseDrains<E>(w: Writer<E>)
    requires Inv(w) && !w.open && !w.stopped
    ensures var w' := Run(w, Receives(|w.queue| + 1)); w'.stopped && w'.handed == w.accepted && w'.delivered == w.accepted
    decreases |w.queue|
  {
    var steps: seq<Step<E>> := Receives(|w.queue| + 1);
    var w1 := Next(w, Receive);
    StepKeeps(w, Receive);
    assert steps[0] == Receive && steps[1..] == Receives(|w.queue|);
    assert w1.accepted == w.accepted;
    if w.queue == [] {
      assert Run(w1, []) == w1;
    } else {
      CloseDrains(w1);
    }
  }

  /** The writer task's variables and the loop that works through a batch. */
  class WriterTask<E(==)> {
    var queue: seq<E>
    var open: bool
    var stopped: bool
    var batch: seq<E>
    var cache: seq<E>
    ghost var accepted: seq<E>
    ghost var handed: seq<E>
    ghost var delivered: seq<E>

    ghost function State(): Writer<E> reads this {
      Writer(open, stopped, queue, batch, cache, accepted, handed, delivered)
    }

    constructor ()
      ensures State() == Fresh<E>()
    {
      queue, batch, cache, open, stopped := [], [], [], true, false;
      accepted, handed, delivered := [], [], [];
    }

    method PushToCacheAndBroadcast(events: seq<E>)
      modifies this`cache, this`delivered
      ensures cache == Pushed(old(cache), events)
      ensures delivered == old(delivered) + events
    {
      var i := 0;
      while i < |events|
        invariant i <= |events| && Pushed(cache, events[i..]) == Pushed(old(cache), events)
        invariant delivered == old(delivered)
      {
        ghost var before := cache;
        cache := [events[i]] + cache;
        while |cache| > CACHE_CAPACITY
          invariant CACHE_CAPACITY <= |cache| || cache == [events[i]] + before
          invariant cache == ([events[i]] + before)[..|cache|] && delivered == old(delivered)
        {
          cache := cache[..|cache| - 1];
        }
        assert events[i..][1..] == events[i + 1..];
        i := i + 1;
      }
      assert events[i..] == [];
      i := 0;
      while i < |events|
        invariant i <= |events| && delivered == old(delivered) + events[..i] && cache == Pushed(old(cache), events)
      {
        delivered := delivered + [events[i]];
        i := i + 1;
      }
      assert events[..i] == events;
    }

    method Write()
      modifies this`batch, this`cache, this`handed, this`delivered
      ensures State() == WriteBatch(old(State()))
    {
      if batch == [] { return; }
      handed := handed + batch;
      PushToCacheAndBroadcast(batch);
      batch := [];
    }

    /** The receiving branch of the writer's loop. */
    method OnReceive()
      requires !stopped && (queue != [] || !open)
      modifies this
      ensures State() == Next(old(State()), Receive)
    {
      if queue != [] {
        batch := batch + [queue[0]];
        queue := queue[1..];
        if |batch| >= BATCH_SIZE { Write(); }
      } else {
        if batch != [] { Write(); }
        stopped := true;
      }
    }

    /** The timer branch. */
    method OnTick()
      requires !stopped
      modifies this
      ensures State() == Next(old(State()), Tick)
    {
      if batch != [] { Write(); }
    }
  }
}
