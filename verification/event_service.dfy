/** The in-memory event queue and campaign stats store of
    `backend/services/eventService.js`. The two module-level globals of the
    source (`eventQueue`, `campaignStats`) become the fields of `State`, and
    every operation takes the state and returns the new one. */
module EventService {
  import opened JsValues
  import opened OrderedSet

  /** A queued play event: the caller's fields plus `queued_at`. */
  type Event = Object

  function CampaignOf(e: Event): Value { Get(e, "campaign_id") }
  function ScreenOf(e: Event): Value { Get(e, "screen_id") }
  function TimestampOf(e: Event): Value { Get(e, "timestamp") }

  /** One entry of `campaignStats`: `{play_count, screens: Set, last_played}`. */
  datatype CampaignRecord = CampaignRecord(play_count: nat, screens: seq<Value>, last_played: Value)

  /** `campaignStats`, a JS `Map` keyed by campaign id: `order` is its key
      insertion order, `records` its contents. */
  datatype CampaignStats = CampaignStats(order: seq<Value>, records: map<Value, CampaignRecord>)

  /** What every reachable stats store satisfies: the key order lists each key
      once, every screen set is duplicate-free, and since a record is created
      and incremented in the same call, it has at least one play and no more
      screens than plays. */
  predicate Valid(st: CampaignStats) {
    && NoDups(st.order)
    && Elems(st.order) == st.records.Keys
    && forall c :: c in st.records ==>
         && NoDups(st.records[c].screens)
         && 1 <= |st.records[c].screens| <= st.records[c].play_count
  }

  /** The two globals of the service module. */
  datatype State = State(queue: seq<Event>, stats: CampaignStats)

  const EmptyStats: CampaignStats := CampaignStats([], map[])

  /** Plays recorded for campaign `c` (0 when it has no record). */
  function PlaysOf(st: CampaignStats, c: Value): nat {
    if c in st.records then st.records[c].play_count else 0
  }

  /** Screens recorded for campaign `c` (empty when it has no record). */
  function ScreensOf(st: CampaignStats, c: Value): set<Value> {
    if c in st.records then Elems(st.records[c].screens) else {}
  }

  // ---------------------------------------------------------------------
  // Queue

  /** `addEventToQueue`: appends a copy of the event, stamped with the
      ingestion time `now`, at the tail of the queue. */
  function AddEventToQueue(s: State, event: Object, now: string): (r: State)
    ensures |r.queue| == |s.queue| + 1
    ensures r.queue[..|s.queue|] == s.queue
    ensures r.queue[|s.queue|].Keys == event.Keys + {"queued_at"}
    ensures Get(r.queue[|s.queue|], "queued_at") == Str(now)
    ensures forall k :: k != "queued_at" ==> Get(r.queue[|s.queue|], k) == Get(event, k)
    ensures r.stats == s.stats
  {
    State(s.queue + [event["queued_at" := Str(now)]], s.stats)
  }

  /** `getNextEvent`: removes and returns the head of the queue, or `null`
      when the queue is empty. Queued events are objects and so truthy,
      hence `shift() || null` yields the head itself. */
  function GetNextEvent(s: State): (r: (Option<Event>, State))
    ensures |s.queue| == 0 ==> r.0 == None && r.1 == s
    ensures |s.queue| > 0 ==> r.0 == Some(s.queue[0]) && r.1.queue == s.queue[1..]
    ensures |s.queue| > 0 ==> s.queue == [r.0.value] + r.1.queue
    ensures r.1.stats == s.stats
  {
    if |s.queue| == 0 then (None, s)
    else (Some(s.queue[0]), s.(queue := s.queue[1..]))
  }

  /** `getQueueSize`: the number of pending events, read without change. It
      is zero exactly when a dequeue would return `null`, and exactly that
      many dequeues each return an event and together empty the queue. */
  function GetQueueSize(s: State): (r: nat)
    ensures r == 0 <==> GetNextEvent(s).0.None?
    ensures |Drain(s, r).0| == r && Drain(s, r).1.queue == []
  {
    DrainIsFifo(s, |s.queue|);
    assert s.queue[..|s.queue|] == s.queue;
    |s.queue|
  }

  /** The size read is the length of the pending queue. */
  lemma QueueSizeIsLength(s: State)
    ensures GetQueueSize(s) == |s.queue|
  {
    var r := GetQueueSize(s);
    DrainIsFifo(s, r);
  }

  /** `n` successive calls of `getNextEvent`, keeping the events they return. */
  function Drain(s: State, n: nat): (seq<Event>, State)
    decreases n
  {
    if n == 0 then ([], s)
    else
      var (e, s1) := GetNextEvent(s);
      var (rest, s2) := Drain(s1, n - 1);
      ((if e.Some? then [e.value] else []) + rest, s2)
  }

  /** `addEventToQueue` called once per event, with the matching time stamp. */
  function EnqueueAll(s: State, events: seq<Object>, stamps: seq<string>): State
    requires |stamps| == |events|
    decreases |events|
  {
    if |events| == 0 then s
    else EnqueueAll(AddEventToQueue(s, events[0], stamps[0]), events[1..], stamps[1..])
  }

  /** The stamped copy of each event that `addEventToQueue` stores. */
  function Stamped(events: seq<Object>, stamps: seq<string>): (r: seq<Event>)
    requires |stamps| == |events|
    ensures |r| == |events|
  {
    seq(|events|, i requires 0 <= i < |events| => events[i]["queued_at" := Str(stamps[i])])
  }

  /** Queue size bookkeeping: enqueue adds one, dequeue removes one unless the
      queue is empty, and the size read itself changes nothing. */
  lemma QueueSizeCountsPending(s: State, event: Object, now: string)
    ensures GetQueueSize(AddEventToQueue(s, event, now)) == GetQueueSize(s) + 1
    ensures GetQueueSize(GetNextEvent(s).1) == if GetQueueSize(s) == 0 then 0 else GetQueueSize(s) - 1
    ensures GetNextEvent(s).0.None? <==> GetQueueSize(s) == 0
  {
  }

  /** Dequeuing `n` times returns the first `n` queued events in queue order
      and leaves the rest; beyond the end each call yields `null`. */
  lemma {:induction false} DrainIsFifo(s: State, n: nat)
    ensures n <= |s.queue| ==> Drain(s, n) == (s.queue[..n], s.(queue := s.queue[n..]))
    ensures n > |s.queue| ==> Drain(s, n) == (s.queue, s.(queue := []))
    decreases n
  {
    if n > 0 {
      var (e, s1) := GetNextEvent(s);
      DrainIsFifo(s1, n - 1);
      if |s.queue| == 0 {
        assert s1 == s == s.(queue := []);
        var d := Drain(s, n - 1);
        assert d.0 == [] && d.1 == s;
        assert Drain(s, n).0 == [] + d.0 == [];
      } else {
        var q := s.queue;
        assert s1 == s.(queue := q[1..]);
        if n <= |q| {
          assert q[1..][..n - 1] == q[1..n];
          assert q[1..][n - 1..] == q[n..];
          assert [q[0]] + q[1..n] == q[..n];
        } else {
          assert [q[0]] + q[1..] == q;
        }
      }
    }
  }

  /** Enqueuing appends the stamped events behind the pending ones, in call order. */
  lemma {:induction false} EnqueueAllAppends(s: State, events: seq<Object>, stamps: seq<string>)
    requires |stamps| == |events|
    ensures EnqueueAll(s, events, stamps).queue == s.queue + Stamped(events, stamps)
    ensures EnqueueAll(s, events, stamps).stats == s.stats
    decreases |events|
  {
    if |events| > 0 {
      var s1 := AddEventToQueue(s, events[0], stamps[0]);
      EnqueueAllAppends(s1, events[1..], stamps[1..]);
      assert Stamped(events, stamps) == [events[0]["queued_at" := Str(stamps[0])]] + Stamped(events[1..], stamps[1..]);
    }
  }

  /** FIFO: after enqueuing E1..En on an empty queue, n dequeues return the
      stamped E1..En in exactly that order and empty the queue. */
  lemma Fifo(s: State, events: seq<Object>, stamps: seq<string>)
    requires |stamps| == |events|
    requires s.queue == []
    ensures Drain(EnqueueAll(s, events, stamps), |events|).0 == Stamped(events, stamps)
    ensures Drain(EnqueueAll(s, events, stamps), |events|).1.queue == []
  {
    var q := EnqueueAll(s, events, stamps);
    EnqueueAllAppends(s, events, stamps);
    assert q.queue == Stamped(events, stamps);
    DrainIsFifo(q, |events|);
    assert q.queue[..|events|] == q.queue;
  }

  // ---------------------------------------------------------------------
  // Stats store

  /** `processEvent`: folds one event into the store. An unseen campaign is
      first created with no plays; then its play count goes up by one, the
      screen joins its screen set, and `last_played` is overwritten with the
      event's timestamp, whatever its value. */
  function ProcessEvent(st: CampaignStats, e: Event): (r: CampaignStats)
    ensures CampaignOf(e) in r.records
    ensures r.records.Keys == st.records.Keys + {CampaignOf(e)}
    ensures PlaysOf(r, CampaignOf(e)) == PlaysOf(st, CampaignOf(e)) + 1
    ensures ScreensOf(r, CampaignOf(e)) == ScreensOf(st, CampaignOf(e)) + {ScreenOf(e)}
    ensures r.records[CampaignOf(e)].last_played == TimestampOf(e)
    ensures forall c :: c in st.records && c != CampaignOf(e) ==> r.records[c] == st.records[c]
    ensures CampaignOf(e) in st.records ==> r.order == st.order
    ensures CampaignOf(e) !in st.records ==> r.order == st.order + [CampaignOf(e)]
  {
    var c := CampaignOf(e);
    var before := if c in st.records then st.records[c] else CampaignRecord(0, [], Null);
    var after := CampaignRecord(before.play_count + 1, Add(before.screens, ScreenOf(e)), TimestampOf(e));
    var order := if c in st.records then st.order else st.order + [c];
    CampaignStats(order, st.records[c := after])
  }

  /** The screen list of the processed campaign is its old list with the
      screen added as `Set.prototype.add` adds it: at the end, when new. */
  lemma ProcessEventScreenOrder(st: CampaignStats, e: Event)
    ensures ProcessEvent(st, e).records[CampaignOf(e)].screens
      == Add(if CampaignOf(e) in st.records then st.records[CampaignOf(e)].screens else [], ScreenOf(e))
  {
  }

  /** `processEvent` keeps the store invariant. */
  lemma ProcessEventKeepsValid(st: CampaignStats, e: Event)
    requires Valid(st)
    ensures Valid(ProcessEvent(st, e))
  {
  }

  /** `processEvent` applied to each event in turn. */
  function FoldEvents(st: CampaignStats, events: seq<Event>): CampaignStats
    decreases |events|
  {
    if |events| == 0 then st
    else ProcessEvent(FoldEvents(st, events[..|events| - 1]), events[|events| - 1])
  }

  /** How many of the events belong to campaign `c`. */
  function CountFor(events: seq<Event>, c: Value): nat
    decreases |events|
  {
    if |events| == 0 then 0
    else CountFor(events[..|events| - 1], c) + (if CampaignOf(events[|events| - 1]) == c then 1 else 0)
  }

  /** The screens that played campaign `c` among the events. */
  function ScreensFor(events: seq<Event>, c: Value): set<Value> {
    set i | 0 <= i < |events| && CampaignOf(events[i]) == c :: ScreenOf(events[i])
  }

  /** The timestamp of the last event of campaign `c`, if there is one. */
  function LastFor(events: seq<Event>, c: Value): Option<Value>
    decreases |events|
  {
    if |events| == 0 then None
    else if CampaignOf(events[|events| - 1]) == c then Some(TimestampOf(events[|events| - 1]))
    else LastFor(events[..|events| - 1], c)
  }

  lemma ScreensForSnoc(events: seq<Event>, e: Event, c: Value)
    ensures ScreensFor(events + [e], c) == ScreensFor(events, c) + (if CampaignOf(e) == c then {ScreenOf(e)} else {})
  {
    var all := events + [e];
    forall x | x in ScreensFor(all, c)
      ensures x in ScreensFor(events, c) + (if CampaignOf(e) == c then {ScreenOf(e)} else {})
    {
      var i :| 0 <= i < |all| && CampaignOf(all[i]) == c && ScreenOf(all[i]) == x;
      if i < |events| {
        assert all[i] == events[i];
      }
    }
    forall x | x in ScreensFor(events, c)
      ensures x in ScreensFor(all, c)
    {
      var i :| 0 <= i < |events| && CampaignOf(events[i]) == c && ScreenOf(events[i]) == x;
      assert all[i] == events[i];
    }
    if CampaignOf(e) == c {
      assert all[|events|] == e;
    }
  }

  lemma {:induction false} FoldCounts(st: CampaignStats, events: seq<Event>, c: Value)
    ensures PlaysOf(FoldEvents(st, events), c) == PlaysOf(st, c) + CountFor(events, c)
    ensures LastFor(events, c).Some? <==> CountFor(events, c) > 0
    ensures c in FoldEvents(st, events).records <==> c in st.records || CountFor(events, c) > 0
    decreases |events|
  {
    if |events| > 0 {
      var init := events[..|events| - 1];
      FoldCounts(st, init, c);
    }
  }

  lemma {:induction false} FoldScreens(st: CampaignStats, events: seq<Event>, c: Value)
    ensures ScreensOf(FoldEvents(st, events), c) == ScreensOf(st, c) + ScreensFor(events, c)
    decreases |events|
  {
    if |events| > 0 {
      var init := events[..|events| - 1];
      var e := events[|events| - 1];
      FoldScreens(st, init, c);
      ScreensForSnoc(init, e, c);
      assert events == init + [e];
    }
  }

  lemma {:induction false} FoldLastPlayed(st: CampaignStats, events: seq<Event>, c: Value)
    ensures LastFor(events, c).Some? ==>
      c in FoldEvents(st, events).records && FoldEvents(st, events).records[c].last_played == LastFor(events, c).value
    ensures LastFor(events, c).None? && c in st.records ==>
      c in FoldEvents(st, events).records && FoldEvents(st, events).records[c] == st.records[c]
    decreases |events|
  {
    if |events| > 0 {
      FoldLastPlayed(st, events[..|events| - 1], c);
    }
  }

  /** The store as an aggregate of the processed events, campaign by campaign:
      play count is the prior count plus the number of the campaign's events
      (no deduplication), the screen set is the prior set plus every screen
      that played it, a record exists exactly when it existed before or some
      event names the campaign, and `last_played` is the timestamp of the last
      such event in processing order (not the largest timestamp). */
  lemma FoldAggregates(st: CampaignStats, events: seq<Event>, c: Value)
    ensures PlaysOf(FoldEvents(st, events), c) == PlaysOf(st, c) + CountFor(events, c)
    ensures ScreensOf(FoldEvents(st, events), c) == ScreensOf(st, c) + ScreensFor(events, c)
    ensures c in FoldEvents(st, events).records <==> c in st.records || CountFor(events, c) > 0
    ensures LastFor(events, c).Some? ==>
      c in FoldEvents(st, events).records && FoldEvents(st, events).records[c].last_played == LastFor(events, c).value
    ensures LastFor(events, c).None? && c in st.records ==> FoldEvents(st, events).records[c] == st.records[c]
  {
    FoldCounts(st, events, c);
    FoldScreens(st, events, c);
    FoldLastPlayed(st, events, c);
  }

  /** Every reachable store is valid: folding keeps `Valid`. */
  lemma {:induction false} FoldKeepsValid(st: CampaignStats, events: seq<Event>)
    requires Valid(st)
    ensures Valid(FoldEvents(st, events))
    decreases |events|
  {
    if |events| > 0 {
      FoldKeepsValid(st, events[..|events| - 1]);
      ProcessEventKeepsValid(FoldEvents(st, events[..|events| - 1]), events[|events| - 1]);
    }
  }

  /** No deduplication: processing the same event twice adds two plays, while
      the screen set is the same as after processing it once. */
  lemma ProcessTwiceCountsTwice(st: CampaignStats, e: Event)
    ensures PlaysOf(ProcessEvent(ProcessEvent(st, e), e), CampaignOf(e)) == PlaysOf(st, CampaignOf(e)) + 2
    ensures ScreensOf(ProcessEvent(ProcessEvent(st, e), e), CampaignOf(e)) == ScreensOf(ProcessEvent(st, e), CampaignOf(e))
  {
  }

  /** `getCampaignById`: the record of the campaign, or `null` when it has
      none (a record is an object, so `get(id) || null` never turns a present
      record into `null`). A present record shows at least one play. */
  function GetCampaignById(s: State, campaignId: Value): (r: Option<CampaignRecord>)
    requires Valid(s.stats)
    ensures r.None? <==> campaignId !in s.stats.records
    ensures r.Some? ==> r.value == s.stats.records[campaignId]
    ensures r.Some? ==> r.value.play_count == PlaysOf(s.stats, campaignId) >= 1
    ensures r.Some? ==> Elems(r.value.screens) == ScreensOf(s.stats, campaignId) != {}
  {
    if campaignId in s.stats.records then
      var rec := s.stats.records[campaignId];
      assert rec.screens[0] in Elems(rec.screens);
      Some(rec)
    else None
  }

  /** `resetStats`: clears both the stats map and the queue. */
  function ResetStats(s: State): (r: State)
    ensures GetQueueSize(r) == 0
    ensures r.stats.records == map[] && r.stats.order == []
    ensures Valid(r.stats)
    ensures forall e :: GetNextEvent(r).0 != Some(e)
  {
    State([], EmptyStats)
  }
}
