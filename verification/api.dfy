/** The pure logic of the two HTTP handlers of `backend/index.js`: the
    required-field check of `POST /events` with its enqueue decision, and the
    projection and ordering of the stats store returned by `GET /campaigns`. */
module Api {
  import opened JsValues
  import opened OrderedSet
  import opened EventService

  // ---------------------------------------------------------------------
  // POST /events

  /** The handler's answer: 400 (rejected), 202 (accepted and queued) or 500
      (an exception after the event was queued). */
  datatype Submission = Rejected | Accepted | ServerError

  /** The required fields are present and truthy. */
  predicate HasRequiredFields(body: Object) {
    Truthy(Get(body, "screen_id")) && Truthy(Get(body, "campaign_id")) && Truthy(Get(body, "timestamp"))
  }

  /** The `POST /events` handler on request body `body`, received at time
      `now`: rejects the event when any of `screen_id`, `campaign_id` and
      `timestamp` is missing or falsy, and otherwise queues it once. After
      the push, `addEventToQueue` logs the campaign and screen ids through a
      template literal; `logThrows` is the oracle saying whether converting
      them to strings throws, which only an object id can do. The handler
      then answers 500, with the event already on the queue. */
  function PostEvent(s: State, body: Object, now: string, logThrows: bool): (r: (Submission, State))
    ensures r.0 == Rejected <==> !HasRequiredFields(body)
    ensures r.0 == Rejected ==> r.1 == s
    ensures r.0 != Rejected ==> r.1 == AddEventToQueue(s, body, now)
    ensures r.0 != Rejected ==> |r.1.queue| == |s.queue| + 1 && r.1.queue[..|s.queue|] == s.queue
    ensures r.0 == ServerError <==>
      HasRequiredFields(body) && logThrows
      && (ToStringMayThrow(CampaignOf(body)) || ToStringMayThrow(ScreenOf(body)))
    ensures r.1.stats == s.stats
  {
    if !Truthy(Get(body, "screen_id")) || !Truthy(Get(body, "campaign_id")) || !Truthy(Get(body, "timestamp")) then
      (Rejected, s)
    else
      var queued := AddEventToQueue(s, body, now);
      if logThrows && (ToStringMayThrow(Get(body, "campaign_id")) || ToStringMayThrow(Get(body, "screen_id"))) then
        (ServerError, queued)
      else
        (Accepted, queued)
  }

  /** Only events with the required fields ever enter the queue through
      `POST /events`:
      the handler keeps that invariant, and so does dequeuing. Missing
      properties and empty strings are examples of rejected inputs. */
  lemma PostEventKeepsQueueWellFormed(s: State, body: Object, now: string, logThrows: bool)
    requires forall i :: 0 <= i < |s.queue| ==> HasRequiredFields(s.queue[i])
    ensures var q := PostEvent(s, body, now, logThrows).1.queue;
      forall i :: 0 <= i < |q| ==> HasRequiredFields(q[i])
    ensures var q := GetNextEvent(s).1.queue;
      forall i :: 0 <= i < |q| ==> HasRequiredFields(q[i])
    ensures "campaign_id" !in body ==> PostEvent(s, body, now, logThrows).0 == Rejected
    ensures Get(body, "screen_id") == Str("") ==> PostEvent(s, body, now, logThrows).0 == Rejected
  {
  }

  /** Folding only events with the required fields never creates a record under a falsy
      campaign id (such as `undefined` or `""`). */
  lemma {:induction false} StatsKeysAreTruthy(st: CampaignStats, events: seq<Event>)
    requires forall c :: c in st.records ==> Truthy(c)
    requires forall i :: 0 <= i < |events| ==> HasRequiredFields(events[i])
    ensures forall c :: c in FoldEvents(st, events).records ==> Truthy(c)
    decreases |events|
  {
    if |events| > 0 {
      StatsKeysAreTruthy(st, events[..|events| - 1]);
      assert HasRequiredFields(events[|events| - 1]);
    }
  }

  // ---------------------------------------------------------------------
  // GET /campaigns

  /** One element of the `campaigns` array in the response. */
  datatype CampaignSummary = CampaignSummary(
    campaign_id: Value,
    play_count: nat,
    screens: nat,
    last_played: Value,
    screen_ids: seq<Value>)

  /** The response body `{total_campaigns, campaigns}`. */
  datatype CampaignsResponse = CampaignsResponse(total_campaigns: nat, campaigns: seq<CampaignSummary>)

  /** The summary of one stats entry: `screens` is the size of its screen set
      and `screen_ids` the set as an array, in insertion order. */
  function Summary(c: Value, rec: CampaignRecord): CampaignSummary {
    CampaignSummary(c, rec.play_count, |rec.screens|, rec.last_played, rec.screens)
  }

  /** `Array.from(stats.entries()).map(...)`: one summary per key, in key
      insertion order. */
  function Summarize(st: CampaignStats): (r: seq<CampaignSummary>)
    requires Valid(st)
    ensures |r| == |st.order| == |st.records|
    ensures forall i :: 0 <= i < |r| ==>
      && r[i].campaign_id == st.order[i]
      && r[i].play_count == PlaysOf(st, st.order[i])
      && r[i].last_played == st.records[st.order[i]].last_played
      && Elems(r[i].screen_ids) == ScreensOf(st, st.order[i])
      && NoDups(r[i].screen_ids)
      && r[i].screens == |r[i].screen_ids| == |ScreensOf(st, st.order[i])|
  {
    NoDupsCardinality(st.order);
    var r := seq(|st.order|, i requires 0 <= i < |st.order| => Summary(st.order[i], st.records[st.order[i]]));
    assert forall i :: 0 <= i < |r| ==> r[i].screens == |ScreensOf(st, st.order[i])| by {
      forall i | 0 <= i < |r|
        ensures r[i].screens == |ScreensOf(st, st.order[i])|
      {
        assert st.order[i] in Elems(st.order);
        NoDupsCardinality(st.records[st.order[i]].screens);
      }
    }
    r
  }

  /** Non-increasing play counts. */
  predicate SortedByPlays(s: seq<CampaignSummary>) {
    forall i, j :: 0 <= i < j < |s| ==> s[i].play_count >= s[j].play_count
  }

  /** The entries with play count `k`, in their order. */
  function WithPlays(s: seq<CampaignSummary>, k: nat): seq<CampaignSummary>
    decreases |s|
  {
    if |s| == 0 then []
    else (if s[0].play_count == k then [s[0]] else []) + WithPlays(s[1..], k)
  }

  /** Places `x` before the first entry whose play count does not exceed its
      own, so `x` stays ahead of entries it ties with. */
  function Insert(x: CampaignSummary, s: seq<CampaignSummary>): (r: seq<CampaignSummary>)
    ensures multiset(r) == multiset(s) + multiset{x}
    ensures forall y :: y in r ==> y == x || y in s
    decreases |s|
  {
    if |s| == 0 || s[0].play_count <= x.play_count then [x] + s
    else
      assert s == [s[0]] + s[1..];
      [s[0]] + Insert(x, s[1..])
  }

  /** Inserting into a sorted list keeps it sorted. */
  lemma {:induction false} InsertKeepsSorted(x: CampaignSummary, s: seq<CampaignSummary>)
    requires SortedByPlays(s)
    ensures SortedByPlays(Insert(x, s))
    decreases |s|
  {
    if |s| == 0 || s[0].play_count <= x.play_count {
      var r := [x] + s;
      forall i, j | 0 <= i < j < |r|
        ensures r[i].play_count >= r[j].play_count
      {
        assert r[j] == s[j - 1];
        if i > 0 {
          assert r[i] == s[i - 1];
        } else if j > 1 {
          assert s[0].play_count >= s[j - 1].play_count;
        }
      }
    } else {
      var rest := Insert(x, s[1..]);
      InsertKeepsSorted(x, s[1..]);
      HeadBoundsRest(x, s);
      var r := [s[0]] + rest;
      forall i, j | 0 <= i < j < |r|
        ensures r[i].play_count >= r[j].play_count
      {
        assert r[j] == rest[j - 1];
        if i > 0 {
          assert r[i] == rest[i - 1];
        }
      }
    }
  }

  /** When `x` goes behind the head of a sorted list, the head is at least
      every entry of what follows it. */
  lemma HeadBoundsRest(x: CampaignSummary, s: seq<CampaignSummary>)
    requires SortedByPlays(s)
    requires |s| > 0 && s[0].play_count > x.play_count
    ensures forall j :: 0 <= j < |Insert(x, s[1..])| ==> Insert(x, s[1..])[j].play_count <= s[0].play_count
  {
    var rest := Insert(x, s[1..]);
    forall j | 0 <= j < |rest|
      ensures rest[j].play_count <= s[0].play_count
    {
      assert rest[j] in rest;
      if rest[j] != x {
        var k :| 0 <= k < |s[1..]| && s[1..][k] == rest[j];
        assert s[k + 1] == rest[j];
      }
    }
  }

  /** `campaigns.sort((a, b) => b.play_count - a.play_count)`: a stable sort
      by descending play count. */
  function SortByPlays(s: seq<CampaignSummary>): (r: seq<CampaignSummary>)
    ensures multiset(r) == multiset(s)
    ensures SortedByPlays(r)
    decreases |s|
  {
    if |s| == 0 then []
    else
      assert s == [s[0]] + s[1..];
      InsertKeepsSorted(s[0], SortByPlays(s[1..]));
      Insert(s[0], SortByPlays(s[1..]))
  }

  lemma {:induction false} InsertKeepsTies(x: CampaignSummary, s: seq<CampaignSummary>, k: nat)
    ensures WithPlays(Insert(x, s), k) == WithPlays([x] + s, k)
    decreases |s|
  {
    if |s| == 0 || s[0].play_count <= x.play_count {
    } else {
      InsertKeepsTies(x, s[1..], k);
      assert ([s[0]] + Insert(x, s[1..]))[1..] == Insert(x, s[1..]);
      assert ([x] + s[1..])[1..] == s[1..];
      assert ([x] + s)[1..] == s;
      assert ([s[0]] + ([x] + s[1..]))[1..] == [x] + s[1..];
      assert WithPlays([x] + s, k) == (if x.play_count == k then [x] else []) + WithPlays(s, k);
      assert WithPlays(s, k) == (if s[0].play_count == k then [s[0]] else []) + WithPlays(s[1..], k);
    }
  }

  /** Stability: entries that tie on play count keep their relative order
      (JavaScript's `Array.prototype.sort` is stable), so ties are listed in
      campaign insertion order. Together with `SortedByPlays` this pins the
      result down completely. */
  lemma {:induction false} SortIsStable(s: seq<CampaignSummary>, k: nat)
    ensures WithPlays(SortByPlays(s), k) == WithPlays(s, k)
    decreases |s|
  {
    if |s| > 0 {
      SortIsStable(s[1..], k);
      InsertKeepsTies(s[0], SortByPlays(s[1..]), k);
      assert ([s[0]] + SortByPlays(s[1..]))[1..] == SortByPlays(s[1..]);
      assert WithPlays([s[0]] + SortByPlays(s[1..]), k)
          == (if s[0].play_count == k then [s[0]] else []) + WithPlays(SortByPlays(s[1..]), k);
    }
  }

  /** Campaigns with 3, 7 and 1 plays are listed as 7, 3, 1. */
  lemma ListsMostPlayedFirst(a: CampaignSummary, b: CampaignSummary, c: CampaignSummary)
    requires a.play_count == 3 && b.play_count == 7 && c.play_count == 1
    ensures SortByPlays([a, b, c]) == [b, a, c]
  {
    assert [a, b, c][1..] == [b, c];
    assert [b, c][1..] == [c];
    assert [c][1..] == [];
    assert SortByPlays([c]) == Insert(c, []) == [c];
    assert SortByPlays([b, c]) == Insert(b, [c]) == [b, c];
    assert Insert(a, [c]) == [a, c];
    assert Insert(a, [b, c]) == [b] + Insert(a, [c]);
  }

  /** The `GET /campaigns` handler: one summary per campaign of the store,
      ordered by non-increasing play count, with `total_campaigns` its length.
      Each summary carries its campaign's record: `screens` is the number of
      distinct screens and `screen_ids` lists exactly those screens. */
  function ListCampaigns(st: CampaignStats): (r: CampaignsResponse)
    requires Valid(st)
    ensures r.total_campaigns == |r.campaigns| == |st.records|
    ensures SortedByPlays(r.campaigns)
    ensures multiset(r.campaigns) == multiset(Summarize(st))
    ensures forall i :: 0 <= i < |r.campaigns| ==>
      && r.campaigns[i].campaign_id in st.records
      && r.campaigns[i].play_count == st.records[r.campaigns[i].campaign_id].play_count
      && r.campaigns[i].last_played == st.records[r.campaigns[i].campaign_id].last_played
      && Elems(r.campaigns[i].screen_ids) == Elems(st.records[r.campaigns[i].campaign_id].screens)
      && NoDups(r.campaigns[i].screen_ids)
      && r.campaigns[i].screens == |r.campaigns[i].screen_ids| == |Elems(r.campaigns[i].screen_ids)|
    ensures forall c :: c in st.records ==> exists i :: 0 <= i < |r.campaigns| && r.campaigns[i].campaign_id == c
  {
    var summaries := Summarize(st);
    var campaigns := SortByPlays(summaries);
    SummariesDescribeStore(st, campaigns);
    CampaignsResponse(|campaigns|, campaigns)
  }

  lemma SummariesDescribeStore(st: CampaignStats, campaigns: seq<CampaignSummary>)
    requires Valid(st)
    requires multiset(campaigns) == multiset(Summarize(st))
    ensures |campaigns| == |st.records|
    ensures forall i :: 0 <= i < |campaigns| ==>
      && campaigns[i].campaign_id in st.records
      && campaigns[i] == Summary(campaigns[i].campaign_id, st.records[campaigns[i].campaign_id])
      && NoDups(campaigns[i].screen_ids)
      && campaigns[i].screens == |Elems(campaigns[i].screen_ids)|
    ensures forall c :: c in st.records ==> exists i :: 0 <= i < |campaigns| && campaigns[i].campaign_id == c
  {
    var summaries := Summarize(st);
    NoDupsCardinality(st.order);
    assert |campaigns| == |multiset(campaigns)| == |multiset(summaries)| == |summaries|;
    forall i | 0 <= i < |campaigns|
      ensures && campaigns[i].campaign_id in st.records
              && campaigns[i] == Summary(campaigns[i].campaign_id, st.records[campaigns[i].campaign_id])
              && NoDups(campaigns[i].screen_ids)
              && campaigns[i].screens == |Elems(campaigns[i].screen_ids)|
    {
      assert campaigns[i] in multiset(summaries);
      var j :| 0 <= j < |summaries| && summaries[j] == campaigns[i];
      assert st.order[j] in Elems(st.order);
      NoDupsCardinality(st.records[st.order[j]].screens);
    }
    forall c | c in st.records
      ensures exists i :: 0 <= i < |campaigns| && campaigns[i].campaign_id == c
    {
      assert c in Elems(st.order);
      var j :| 0 <= j < |st.order| && st.order[j] == c;
      assert summaries[j] in multiset(campaigns);
      var i :| 0 <= i < |campaigns| && campaigns[i] == summaries[j];
    }
  }
}
