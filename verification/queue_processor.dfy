/** The background batch processor of `backend/services/queueProcessor.js`.
    The `setInterval` timer is modelled by its effect: while the processor is
    running, each tick is one `ProcessBatch` call.

    The only statement of `processEvent` that can throw is its closing log
    line: the template literal converts the campaign id to a string, which
    can throw for an object id. By then the store has been updated. So a
    throwing apply still changes the store, and the `catch` only keeps the
    event out of `processedCount`. Which applies throw is an oracle:
    `failures` holds the positions, within the batch, whose conversion
    throws, and it takes effect only where the campaign id is an object. */
module QueueProcessor {
  import opened JsValues
  import opened EventService

  /** Milliseconds between two timer ticks; the model has no clock, see `Tick`. */
  const PROCESS_INTERVAL: nat := 3000
  /** Largest number of events one batch dequeues. */
  const BATCH_SIZE: nat := 10

  function Min(a: nat, b: nat): nat {
    if a <= b then a else b
  }

  /** Whether `processEvent` on event `e`, the one at position `i` of the
      batch, throws from its log line. */
  predicate ApplyThrows(e: Event, i: nat, failures: set<nat>) {
    i in failures && ToStringMayThrow(CampaignOf(e))
  }

  /** The events of a batch that `processedCount` counts, in dequeue order:
      every event except those whose apply throws. */
  function Counted(batch: seq<Event>, failures: set<nat>): seq<Event>
    decreases |batch|
  {
    if |batch| == 0 then []
    else
      Counted(batch[..|batch| - 1], failures)
      + (if ApplyThrows(batch[|batch| - 1], |batch| - 1, failures) then [] else [batch[|batch| - 1]])
  }

  /** The effect one batch has on the service state: the first `n` events
      leave the queue, where `n` is the batch size capped by the queue size,
      and the store is the old store with each of them applied in dequeue
      order, whether or not its apply threw afterwards. */
  ghost predicate IsBatchOf(s: State, r: State) {
    var n := Min(BATCH_SIZE, |s.queue|);
    && r.queue == s.queue[n..]
    && r.stats == FoldEvents(s.stats, s.queue[..n])
  }

  /** `processBatch`: dequeues `min(BATCH_SIZE, queueSize)` events one by one
      and applies each. An apply that throws is caught, after the store was
      updated; that event is not counted and the loop goes on with the next
      one. Returns the new state and `processedCount`. */
  method ProcessBatch(s: State, failures: set<nat>) returns (r: State, processedCount: nat)
    ensures IsBatchOf(s, r)
    ensures |r.queue| == |s.queue| - Min(BATCH_SIZE, |s.queue|)
    ensures processedCount == |Counted(s.queue[..Min(BATCH_SIZE, |s.queue|)], failures)|
    ensures processedCount <= Min(BATCH_SIZE, |s.queue|)
    ensures |s.queue| == 0 ==> r == s && processedCount == 0
  {
    QueueSizeIsLength(s);
    var queueSize := GetQueueSize(s);
    if queueSize == 0 {
      assert s.queue[..0] == [];
      return s, 0;
    }
    processedCount := 0;
    var maxEvents := Min(BATCH_SIZE, queueSize);
    r := s;
    var i := 0;
    ghost var taken: seq<Event> := [];
    ghost var counted: seq<Event> := [];
    while i < maxEvents
      invariant 0 <= i <= maxEvents
      invariant r.queue == s.queue[i..]
      invariant taken == s.queue[..i]
      invariant r.stats == FoldEvents(s.stats, taken)
      invariant counted == Counted(taken, failures)
      invariant processedCount == |counted| <= i
    {
      SliceStep(s.queue, i);
      CountedStep(s.queue, i, failures);
      BatchNeverDequeuesNull(s.queue, i, r);
      var (next, rest) := GetNextEvent(r);
      r := rest;
      if next.Some? {
        FoldStep(s.stats, taken, next.value);
        r := r.(stats := ProcessEvent(r.stats, next.value));
        taken := taken + [next.value];
        if !ApplyThrows(next.value, i, failures) {
          counted := counted + [next.value];
          processedCount := processedCount + 1;
        }
      }
      i := i + 1;
    }
  }

  lemma CountedStep(q: seq<Event>, i: nat, failures: set<nat>)
    requires i < |q|
    ensures Counted(q[..i + 1], failures)
      == Counted(q[..i], failures) + (if ApplyThrows(q[i], i, failures) then [] else [q[i]])
  {
    assert q[..i + 1][..i] == q[..i];
  }

  /** Taking the head off `q[i..]` moves index `i` from the rest to the prefix. */
  lemma SliceStep(q: seq<Event>, i: nat)
    requires i < |q|
    ensures q[i..][1..] == q[i + 1..]
    ensures q[..i + 1] == q[..i] + [q[i]]
  {
  }

  lemma FoldStep(st: CampaignStats, events: seq<Event>, e: Event)
    ensures FoldEvents(st, events + [e]) == ProcessEvent(FoldEvents(st, events), e)
  {
    assert (events + [e])[..|events|] == events;
  }

  /** Within a batch every `getNextEvent` call finds an event: the `i`-th call
      sees the queue minus the `i` events already taken, and `i` stays below
      the capped batch size, hence below the queue length. */
  lemma BatchNeverDequeuesNull(q: seq<Event>, i: nat, r: State)
    requires i < |q| && r.queue == q[i..]
    ensures GetNextEvent(r) == (Some(q[i]), r.(queue := q[i + 1..]))
  {
    assert q[i..][1..] == q[i + 1..];
  }

  /** When no apply throws, `processedCount` counts the whole batch. In
      particular a batch whose campaign ids are all primitives (strings,
      numbers, booleans) is counted in full, whatever the oracle says. */
  lemma {:induction false} CountedWithoutThrows(batch: seq<Event>, failures: set<nat>)
    requires forall i :: 0 <= i < |batch| ==> !ApplyThrows(batch[i], i, failures)
    ensures Counted(batch, failures) == batch
    decreases |batch|
  {
    if |batch| > 0 {
      CountedWithoutThrows(batch[..|batch| - 1], failures);
      assert batch == batch[..|batch| - 1] + [batch[|batch| - 1]];
    }
  }

  /** The positions of a batch whose apply throws. */
  function ThrowingPositions(batch: seq<Event>, failures: set<nat>): set<nat> {
    set i | 0 <= i < |batch| && ApplyThrows(batch[i], i, failures)
  }

  /** Failure isolation: every event whose apply does not throw is counted,
      and the count is the batch length minus exactly the throwing applies,
      so one throw never costs more than its own event. */
  lemma FailureIsolation(batch: seq<Event>, failures: set<nat>)
    ensures forall i :: 0 <= i < |batch| && !ApplyThrows(batch[i], i, failures) ==> batch[i] in Counted(batch, failures)
    ensures |Counted(batch, failures)| + |ThrowingPositions(batch, failures)| == |batch|
  {
    CountedKeepsNonThrowing(batch, failures);
    CountedLength(batch, failures);
  }

  lemma {:induction false} CountedKeepsNonThrowing(batch: seq<Event>, failures: set<nat>)
    ensures forall i :: 0 <= i < |batch| && !ApplyThrows(batch[i], i, failures) ==> batch[i] in Counted(batch, failures)
    decreases |batch|
  {
    if |batch| > 0 {
      var init := batch[..|batch| - 1];
      var k := |batch| - 1;
      CountedKeepsNonThrowing(init, failures);
      forall i | 0 <= i < |batch| && !ApplyThrows(batch[i], i, failures)
        ensures batch[i] in Counted(batch, failures)
      {
        if i < k {
          assert batch[i] == init[i];
        }
      }
    }
  }

  lemma {:induction false} CountedLength(batch: seq<Event>, failures: set<nat>)
    ensures |Counted(batch, failures)| + |ThrowingPositions(batch, failures)| == |batch|
    decreases |batch|
  {
    if |batch| > 0 {
      var init := batch[..|batch| - 1];
      var k := |batch| - 1;
      CountedLength(init, failures);
      var fInit := ThrowingPositions(init, failures);
      var fAll := ThrowingPositions(batch, failures);
      assert forall i :: 0 <= i < |init| ==> init[i] == batch[i];
      if ApplyThrows(batch[k], k, failures) {
        assert fAll == fInit + {k};
      } else {
        assert fAll == fInit;
      }
    }
  }

  /** Five events where the third apply throws: events 1, 2, 4 and 5 are
      counted, in order. */
  lemma ThirdOfFiveFails(batch: seq<Event>)
    requires |batch| == 5
    requires ToStringMayThrow(CampaignOf(batch[2]))
    ensures Counted(batch, {2}) == [batch[0], batch[1], batch[3], batch[4]]
  {
    CountedStep(batch, 0, {2});
    CountedStep(batch, 1, {2});
    CountedStep(batch, 2, {2});
    CountedStep(batch, 3, {2});
    CountedStep(batch, 4, {2});
    assert batch[..0] == [] && batch[..5] == batch;
  }

  /** An event whose apply throws is not counted, yet the store has recorded
      its play: the throw comes after the update. */
  lemma ThrowingApplyIsStillRecorded(st: CampaignStats, e: Event)
    requires ToStringMayThrow(CampaignOf(e))
    ensures Counted([e], {0}) == []
    ensures PlaysOf(FoldEvents(st, [e]), CampaignOf(e)) == PlaysOf(st, CampaignOf(e)) + 1
  {
    assert [e][..0] == [];
  }

  /** One batch over 25 pending events takes 10 and leaves 15. */
  lemma BatchOfTwentyFive(s: State, r: State)
    requires |s.queue| == 25
    requires IsBatchOf(s, r)
    ensures |r.queue| == 15
    ensures r.queue == s.queue[10..]
  {
  }

  /** End to end: two plays of one campaign (say `c1` on `s1` at `T1`, then
      on `s2` at `T2`) are posted to an idle service; after one batch the
      queue is empty and the campaign has two plays, both screens, and the
      second event's timestamp as `last_played`. */
  lemma TwoPlaysEndToEnd(e1: Object, e2: Object, stamps: seq<string>, r: State)
    requires |stamps| == 2
    requires CampaignOf(e1) == CampaignOf(e2)
    requires IsBatchOf(EnqueueAll(State([], EmptyStats), [e1, e2], stamps), r)
    ensures r.queue == []
    ensures r.stats.order == [CampaignOf(e1)]
    ensures PlaysOf(r.stats, CampaignOf(e1)) == 2
    ensures ScreensOf(r.stats, CampaignOf(e1)) == {ScreenOf(e1), ScreenOf(e2)}
    ensures r.stats.records[CampaignOf(e1)].last_played == TimestampOf(e2)
  {
    var q := Stamped([e1, e2], stamps);
    BatchOfTwo(e1, e2, stamps, r);
    StampKeepsFields(e1, stamps[0]);
    StampKeepsFields(e2, stamps[1]);
    FoldTwo(q);
  }

  lemma BatchOfTwo(e1: Object, e2: Object, stamps: seq<string>, r: State)
    requires |stamps| == 2
    requires IsBatchOf(EnqueueAll(State([], EmptyStats), [e1, e2], stamps), r)
    ensures r.queue == []
    ensures r.stats == FoldEvents(EmptyStats, Stamped([e1, e2], stamps))
  {
    var s := EnqueueAll(State([], EmptyStats), [e1, e2], stamps);
    EnqueueAllAppends(State([], EmptyStats), [e1, e2], stamps);
    SmallBacklogDrainsInOneBatch(s, r);
  }

  /** A backlog of at most `BATCH_SIZE` events is emptied by one batch, which
      applies every pending event in queue order. */
  lemma SmallBacklogDrainsInOneBatch(s: State, r: State)
    requires |s.queue| <= BATCH_SIZE
    requires IsBatchOf(s, r)
    ensures r.queue == []
    ensures r.stats == FoldEvents(s.stats, s.queue)
  {
    assert s.queue[..|s.queue|] == s.queue;
  }

  /** The `queued_at` stamp leaves the three caller fields alone. */
  lemma StampKeepsFields(e: Object, now: string)
    ensures CampaignOf(e["queued_at" := Str(now)]) == CampaignOf(e)
    ensures ScreenOf(e["queued_at" := Str(now)]) == ScreenOf(e)
    ensures TimestampOf(e["queued_at" := Str(now)]) == TimestampOf(e)
  {
  }

  lemma FoldTwo(q: seq<Event>)
    requires |q| == 2 && CampaignOf(q[0]) == CampaignOf(q[1])
    ensures var st := FoldEvents(EmptyStats, q);
      && st.order == [CampaignOf(q[0])]
      && PlaysOf(st, CampaignOf(q[0])) == 2
      && ScreensOf(st, CampaignOf(q[0])) == {ScreenOf(q[0]), ScreenOf(q[1])}
      && st.records[CampaignOf(q[0])].last_played == TimestampOf(q[1])
  {
    var a, b := q[0], q[1];
    var st1 := ProcessEvent(EmptyStats, a);
    assert q[..1] == [a];
    assert [a][..0] == [];
    assert FoldEvents(EmptyStats, q[..1]) == st1;
    assert ScreensOf(st1, CampaignOf(a)) == {} + {ScreenOf(a)};
  }

  // ---------------------------------------------------------------------
  // Start / stop

  /** `processorInterval`: `null` (stopped) or a live timer (running). */
  datatype Processor = Stopped | Running

  /** The service state together with the processor's run state. */
  datatype Pipeline = Pipeline(service: State, processor: Processor)

  /** `startQueueProcessor`: a no-op when already running; otherwise runs one
      batch at once and then arms the timer. */
  method Start(p: Pipeline, failures: set<nat>) returns (r: Pipeline)
    ensures r.processor == Running
    ensures p.processor == Running ==> r == p
    ensures p.processor == Stopped ==> IsBatchOf(p.service, r.service)
  {
    if p.processor == Running {
      return p;
    }
    var s, _ := ProcessBatch(p.service, failures);
    r := Pipeline(s, Running);
  }

  /** One firing of the interval timer: a batch while running. A stopped
      processor has no timer, so nothing happens. */
  method Tick(p: Pipeline, failures: set<nat>) returns (r: Pipeline)
    ensures r.processor == p.processor
    ensures p.processor == Stopped ==> r == p
    ensures p.processor == Running ==> IsBatchOf(p.service, r.service)
  {
    if p.processor == Stopped {
      return p;
    }
    var s, _ := ProcessBatch(p.service, failures);
    r := Pipeline(s, Running);
  }

  /** `stopQueueProcessor`: clears the timer if there is one; the queue and
      the store are kept, so a later start is a fresh start on them. */
  function Stop(p: Pipeline): (r: Pipeline)
    ensures r.processor == Stopped
    ensures r.service == p.service
  {
    Pipeline(p.service, Stopped)
  }
}
