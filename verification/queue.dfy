/** The admission bookkeeping of `Queue` (queue.js) as a discrete-event
    state machine. `add` increments the active count and either lets the
    task start or parks it at the tail of a FIFO of waiters; when a task
    settles, the `finally` block decrements the count and wakes the waiter
    at the head. Time and the interleaving of promises are not modelled:
    the world is the sequence of events below, and a woken waiter counts
    as running from the moment it is shifted off the FIFO. */
module TaskQueue {
  import opened Wrappers
  import Config

  /** How a task's function settles: it returns a value or throws. Values
      and errors are opaque tokens. */
  datatype Outcome = Value(value: int) | Error(error: int)

  /** A task that holds a slot: running its function, or sleeping off the
      rate limit after it returned `value`. */
  datatype Phase = Running | Sleeping(value: int)

  /** The promise of an `add` call settling with the task's outcome. */
  datatype Settlement = Settlement(id: nat, outcome: Outcome)

  /** A queue: its two settings, the active count, the FIFO of parked
      tasks, the tasks holding a slot, the identity of the next `add` call,
      and the `add` promises settled so far, in order. */
  datatype Queue = Queue(
    maxSimultaneously: int,
    rateLimit: int,
    active: int,
    waiters: seq<nat>,
    inflight: map<nat, Phase>,
    nextId: nat,
    settled: seq<Settlement>)

  /** What happens to a queue: a call of `add`; the function of task `id`
      settling; the rate-limit sleep of task `id` ending. */
  datatype Event = Add | Finish(id: nat, outcome: Outcome) | SleepEnds(id: nat)

  /** The number of slots: a limit below one lets no task run. */
  function Cap(q: Queue): nat
  {
    if q.maxSimultaneously > 0 then q.maxSimultaneously else 0
  }

  /** The bookkeeping a queue keeps between events. Every issued id is
      parked, holds a slot, or has settled, and the active count is the
      number not yet settled. Exactly the tasks beyond the slots are
      parked, in the order of their `add` calls. Each `add` settles at most
      once. */
  predicate Valid(q: Queue)
  {
    Counted(q) && Parked(q) && SettledOnce(q)
  }

  /** The counts: active tasks hold a slot or are parked, the parked ones
      are those beyond the slots, and every issued id not settled is
      active. */
  predicate Counted(q: Queue)
  {
    q.active == |q.inflight.Keys| + |q.waiters| &&
    |q.waiters| == (if q.active > Cap(q) then q.active - Cap(q) else 0) &&
    q.nextId == q.active + |q.settled|
  }

  /** The parked tasks, in the order of their `add` calls, apart from the
      tasks holding a slot; all of them issued. */
  predicate Parked(q: Queue)
  {
    (forall i, j :: 0 <= i < j < |q.waiters| ==> q.waiters[i] < q.waiters[j]) &&
    (forall i :: 0 <= i < |q.waiters| ==> q.waiters[i] < q.nextId && q.waiters[i] !in q.inflight) &&
    (forall id :: id in q.inflight ==> id < q.nextId)
  }

  /** Each issued `add` call settles at most once, and a settled one is
      neither parked nor holding a slot. */
  predicate SettledOnce(q: Queue)
  {
    (forall i, j :: 0 <= i < j < |q.settled| ==> q.settled[i].id != q.settled[j].id) &&
    (forall i :: 0 <= i < |q.settled| ==>
       q.settled[i].id < q.nextId && q.settled[i].id !in q.inflight && q.settled[i].id !in q.waiters)
  }

  /** The constructor: nothing active and nothing parked; the limit
      defaults to one task at a time and the rate limit to none. */
  function NewQueue(maxSimultaneously: Option<int>, rateLimit: Option<int>): (q: Queue)
    ensures Valid(q)
    ensures q.active == 0 && q.waiters == [] && q.inflight == map[] && q.settled == []
    ensures maxSimultaneously.None? ==> q.maxSimultaneously == 1
    ensures maxSimultaneously.Some? ==> q.maxSimultaneously == maxSimultaneously.value
    ensures rateLimit.None? ==> q.rateLimit == 0
    ensures rateLimit.Some? ==> q.rateLimit == rateLimit.value
  {
    Queue(if maxSimultaneously.Some? then maxSimultaneously.value else 1,
          if rateLimit.Some? then rateLimit.value else 0,
          0, [], map[], 0, [])
  }

  /** The queue of the crawler, built from its configuration. */
  function CrawlerQueue(cfg: Config.Settings): Queue
  {
    NewQueue(Some(cfg.concurrency), Some(cfg.rateLimit))
  }

  /** `add`: the caller is parked exactly when the incremented count
      exceeds the limit; a parked caller joins the tail of the FIFO, any
      other starts its function at once. */
  function Admit(q: Queue): (r: Queue)
    ensures r.active == q.active + 1 && r.nextId == q.nextId + 1 && r.settled == q.settled
    ensures q.active + 1 > q.maxSimultaneously ==> r.waiters == q.waiters + [q.nextId] && r.inflight == q.inflight
    ensures q.active + 1 <= q.maxSimultaneously ==> r.waiters == q.waiters && r.inflight == q.inflight[q.nextId := Running]
  {
    var id := q.nextId;
    var q' := q.(active := q.active + 1, nextId := q.nextId + 1);
    if q.active + 1 > q.maxSimultaneously then
      q'.(waiters := q.waiters + [id])
    else
      q'.(inflight := q.inflight[id := Running])
  }

  /** The `finally` block of task `id`, which settles the `add` call with
      `outcome`: the count drops by one and at most one parked task, the
      head of the FIFO, starts. */
  function Release(q: Queue, id: nat, outcome: Outcome): (r: Queue)
    requires id in q.inflight
    ensures r.active == q.active - 1 && r.nextId == q.nextId
    ensures r.settled == q.settled + [Settlement(id, outcome)]
    ensures Valid(q) ==> id !in r.inflight
    ensures q.waiters == [] ==> r.waiters == [] && r.inflight.Keys == q.inflight.Keys - {id}
    ensures q.waiters != [] ==>
      (r.waiters == q.waiters[1..] &&
       r.inflight.Keys == q.inflight.Keys - {id} + {q.waiters[0]} && r.inflight[q.waiters[0]] == Running)
    ensures Valid(q) ==> forall k :: k in r.inflight && k != id && k in q.inflight ==> r.inflight[k] == q.inflight[k]
  {
    var rest := q.inflight - {id};
    var q' := q.(active := q.active - 1, inflight := rest, settled := q.settled + [Settlement(id, outcome)]);
    if q.waiters == [] then q'
    else q'.(waiters := q.waiters[1..], inflight := rest[q.waiters[0] := Running])
  }

  /** The queue after an event, or `None` when the event cannot happen
      (the task does not hold a slot, or is not in that phase). A task that
      returns is put to sleep when the rate limit is positive and keeps
      its slot; a task that throws, or returns with no rate limit, is
      released at once. */
  function Step(q: Queue, e: Event): (r: Option<Queue>)
    ensures e.Add? ==> r.Some?
    ensures r.Some? ==> r.value.maxSimultaneously == q.maxSimultaneously && r.value.rateLimit == q.rateLimit
    ensures r.Some? ==> q.settled <= r.value.settled && |r.value.settled| <= |q.settled| + 1
    ensures r.Some? && |r.value.settled| == |q.settled| + 1 ==>
      !e.Add? && r.value.settled[|q.settled|].id == e.id && e.id in q.inflight && (Valid(q) ==> e.id !in r.value.inflight)
  {
    match e
    case Add => Some(Admit(q))
    case Finish(id, outcome) =>
      if id !in q.inflight || q.inflight[id] != Running then None
      else if outcome.Value? && q.rateLimit > 0 then Some(q.(inflight := q.inflight[id := Sleeping(outcome.value)]))
      else Some(Release(q, id, outcome))
    case SleepEnds(id) =>
      if id !in q.inflight || !q.inflight[id].Sleeping? then None
      else Some(Release(q, id, Value(q.inflight[id].value)))
  }

  /** The queue after a sequence of events, or `None` when one of them
      cannot happen. */
  function Run(q: Queue, events: seq<Event>): Option<Queue>
    decreases |events|
  {
    if events == [] then Some(q)
    else
      match Step(q, events[0])
      case None => None
      case Some(q') => Run(q', events[1..])
  }

  /** A call of `add` is parked exactly when the incremented count exceeds
      the limit; otherwise its function starts at once. Either way it is a
      new task, and the FIFO keeps its earlier order. */
  lemma AddSuspends(q: Queue)
    requires Valid(q)
    ensures var r := Admit(q);
      (q.nextId in r.waiters <==> q.active + 1 > q.maxSimultaneously) &&
      (q.nextId in r.inflight <==> q.active + 1 <= q.maxSimultaneously) &&
      (q.nextId in r.inflight ==> r.inflight[q.nextId] == Running) &&
      q.nextId !in q.inflight && q.nextId !in q.waiters &&
      |r.waiters| >= |q.waiters| && r.waiters[..|q.waiters|] == q.waiters &&
      (|r.waiters| > |q.waiters| ==> r.waiters[|q.waiters|] == q.nextId)
  {
    var r := Admit(q);
    if q.active + 1 > q.maxSimultaneously {
      assert r.waiters[..|q.waiters|] == q.waiters;
    }
  }

  lemma AdmitValid(q: Queue)
    requires Valid(q)
    ensures Valid(Admit(q))
  {
    var r := Admit(q);
    var id := q.nextId;
    if q.active + 1 > q.maxSimultaneously {
      assert r.waiters == q.waiters + [id];
      assert r.inflight == q.inflight;
    } else {
      assert r.inflight.Keys == q.inflight.Keys + {id};
      assert id !in q.inflight.Keys;
      assert r.waiters == q.waiters;
    }
  }

  lemma ReleaseCounted(q: Queue, id: nat, outcome: Outcome)
    requires Valid(q) && id in q.inflight
    ensures Counted(Release(q, id, outcome))
  {
    var rest := q.inflight.Keys - {id};
    assert q.inflight.Keys == rest + {id};
    assert |rest| == |q.inflight.Keys| - 1;
    if q.waiters != [] {
      var w := q.waiters[0];
      assert w !in rest;
      assert |rest + {w}| == |rest| + 1;
    }
  }

  lemma ReleaseParked(q: Queue, id: nat, outcome: Outcome)
    requires Valid(q) && id in q.inflight
    ensures Parked(Release(q, id, outcome))
  {
    var r := Release(q, id, outcome);
    if q.waiters != [] {
      forall i | 0 <= i < |r.waiters|
        ensures r.waiters[i] !in r.inflight
      {
        assert r.waiters[i] == q.waiters[i + 1];
        assert q.waiters[0] < q.waiters[i + 1];
      }
    }
  }

  lemma ReleaseSettledOnce(q: Queue, id: nat, outcome: Outcome)
    requires Valid(q) && id in q.inflight
    ensures SettledOnce(Release(q, id, outcome))
  {
    var r := Release(q, id, outcome);
    forall i | 0 <= i < |r.settled|
      ensures r.settled[i].id !in r.inflight && r.settled[i].id !in r.waiters
    {
      if i < |q.settled| {
        assert q.waiters != [] ==> q.settled[i].id != q.waiters[0];
        assert r.settled[i].id !in q.waiters;
      } else {
        assert r.settled[i].id == id;
        assert id !in q.waiters;
      }
    }
    forall i, j | 0 <= i < j < |r.settled|
      ensures r.settled[i].id != r.settled[j].id
    {
      if j == |q.settled| {
        assert r.settled[i].id == q.settled[i].id;
        assert q.settled[i].id !in q.inflight;
      }
    }
  }

  lemma ReleaseValid(q: Queue, id: nat, outcome: Outcome)
    requires Valid(q) && id in q.inflight
    ensures Valid(Release(q, id, outcome))
  {
    ReleaseCounted(q, id, outcome);
    ReleaseParked(q, id, outcome);
    ReleaseSettledOnce(q, id, outcome);
  }

  /** Every event that can happen keeps the bookkeeping. */
  lemma StepValid(q: Queue, e: Event)
    requires Valid(q) && Step(q, e).Some?
    ensures Valid(Step(q, e).value)
  {
    match e
    case Add => AdmitValid(q);
    case Finish(id, outcome) =>
      if !(outcome.Value? && q.rateLimit > 0) {
        ReleaseValid(q, id, outcome);
      } else {
        var r := Step(q, e).value;
        assert r.inflight.Keys == q.inflight.Keys;
      }
    case SleepEnds(id) =>
      ReleaseValid(q, id, Value(q.inflight[id].value));
  }

  /** So does every sequence of events. */
  lemma {:induction false} RunValid(q: Queue, events: seq<Event>)
    requires Valid(q) && Run(q, events).Some?
    ensures Valid(Run(q, events).value)
    ensures Run(q, events).value.maxSimultaneously == q.maxSimultaneously
    ensures Run(q, events).value.rateLimit == q.rateLimit
    decreases |events|
  {
    if events != [] {
      StepValid(q, events[0]);
      RunValid(Step(q, events[0]).value, events[1..]);
    }
  }

  /** Whatever happens after construction, parked tasks are exactly those
      beyond the limit, and no more tasks than the limit hold a slot. */
  lemma Admission(maxSimultaneously: Option<int>, rateLimit: Option<int>, events: seq<Event>)
    requires Run(NewQueue(maxSimultaneously, rateLimit), events).Some?
    ensures var q := Run(NewQueue(maxSimultaneously, rateLimit), events).value;
      |q.waiters| == (if q.active > Cap(q) then q.active - Cap(q) else 0) &&
      |q.inflight.Keys| <= Cap(q) &&
      q.maxSimultaneously == NewQueue(maxSimultaneously, rateLimit).maxSimultaneously &&
      (q.maxSimultaneously >= 0 ==> q.active - |q.waiters| <= q.maxSimultaneously)
  {
    RunValid(NewQueue(maxSimultaneously, rateLimit), events);
  }

  /** A queue built with a limit of one runs one task at a time. */
  lemma OneAtATime(cfg: Config.Settings, events: seq<Event>)
    requires cfg.concurrency == 1
    requires Run(CrawlerQueue(cfg), events).Some?
    ensures |Run(CrawlerQueue(cfg), events).value.inflight.Keys| <= 1
  {
    Admission(Some(cfg.concurrency), Some(cfg.rateLimit), events);
  }

  /** The crawler as configured runs one task at a time. */
  lemma CrawlerRunsOneAtATime(events: seq<Event>)
    requires Run(CrawlerQueue(Config.Source), events).Some?
    ensures |Run(CrawlerQueue(Config.Source), events).value.inflight.Keys| <= 1
  {
    OneAtATime(Config.Source, events);
  }

  /** The parked task that a release starts is the earliest `add` call
      still parked. */
  lemma WakesEarliest(q: Queue, id: nat, outcome: Outcome)
    requires Valid(q) && id in q.inflight && q.waiters != []
    ensures var r := Release(q, id, outcome);
      forall k :: k in r.inflight && k !in q.inflight ==> k == q.waiters[0] && forall j :: j in r.waiters ==> k < j
  {
    var r := Release(q, id, outcome);
    forall k | k in r.inflight && k !in q.inflight
      ensures k == q.waiters[0] && forall j :: j in r.waiters ==> k < j
    {
      forall j | j in r.waiters
        ensures k < j
      {
        var i :| 0 <= i < |r.waiters| && r.waiters[i] == j;
        assert j == q.waiters[i + 1];
      }
    }
  }

  /** Whether a task returns or throws, its settlement drops the count by
      exactly one, settles its own `add` call once, and starts at most one
      parked task. */
  lemma SettleOnce(q: Queue, id: nat, outcome: Outcome, r: Queue)
    requires Valid(q)
    requires Step(q, Finish(id, outcome)) == Some(r)
    requires outcome.Error? || q.rateLimit <= 0
    ensures r.active == q.active - 1
    ensures r.settled == q.settled + [Settlement(id, outcome)]
    ensures forall i :: 0 <= i < |q.settled| ==> q.settled[i].id != id
    ensures |r.inflight.Keys| <= |q.inflight.Keys|
    ensures |r.waiters| == |q.waiters| - 1 || (r.waiters == q.waiters == [])
  {
    ReleaseValid(q, id, outcome);
  }

  /** The end of a rate-limit sleep settles the sleeping task with the value
      it returned: the count drops by exactly one, its own `add` call settles
      once, and at most one parked task starts. */
  lemma SleepEndsSettles(q: Queue, id: nat, r: Queue)
    requires Valid(q)
    requires Step(q, SleepEnds(id)) == Some(r)
    ensures id in q.inflight && q.inflight[id].Sleeping?
    ensures r.active == q.active - 1
    ensures r.settled == q.settled + [Settlement(id, Value(q.inflight[id].value))]
    ensures forall i :: 0 <= i < |q.settled| ==> q.settled[i].id != id
    ensures |r.waiters| == |q.waiters| - 1 || (r.waiters == q.waiters == [])
  {
    ReleaseValid(q, id, Value(q.inflight[id].value));
  }

  /** The rate-limit sleep follows only a normal return with a positive
      limit; the task keeps its slot while sleeping, and nothing settles
      or starts. */
  lemma SleepHoldsSlot(q: Queue, id: nat, outcome: Outcome)
    requires Valid(q) && id in q.inflight && q.inflight[id] == Running
    ensures Step(q, Finish(id, outcome)).Some?
    ensures var r := Step(q, Finish(id, outcome)).value;
      (id in r.inflight <==> outcome.Value? && q.rateLimit > 0) &&
      (id in r.inflight ==> r.inflight[id] == Sleeping(outcome.value) && r.active == q.active && r.waiters == q.waiters && r.settled == q.settled &&
                            r.inflight.Keys == q.inflight.Keys)
  {
  }

  /** What the caller of `add` receives is exactly what the task's function
      produced: a returned value survives the sleep, and an error is
      rethrown without a sleep. */
  lemma PassThrough(q: Queue, id: nat, outcome: Outcome)
    requires Valid(q) && id in q.inflight && q.inflight[id] == Running
    ensures var r := Step(q, Finish(id, outcome)).value;
      if id in r.inflight then
        Step(r, SleepEnds(id)).Some? &&
        Step(r, SleepEnds(id)).value.settled == q.settled + [Settlement(id, outcome)]
      else r.settled == q.settled + [Settlement(id, outcome)]
  {
  }
}
