/** The tool bodies of tools.py: the weather status branch, the flattening of
    the search service's `RelatedTopics` into at most five lines, and the
    shaping of calendar events into `(summary, time)` pairs. The HTTP and
    calendar requests themselves are not modelled: their replies are
    parameters. */
module Tools {
  import opened Base
  import opened Text

  /** What an HTTP GET gives back: a response with its status code and its
      (decoded) body, or a fault raised by `requests` (timeout, connection). */
  datatype HttpReply<T> = Response(status: int, body: T) | TransportFault(reason: string)

  // ----- get_weather -----

  function WeatherUnavailable(city: string): string {
    "Could not fetch weather for " + city + "."
  }

  function WeatherError(city: string): string {
    "An error occurred while fetching weather for " + city + "."
  }

  /** `get_weather(city)` given the reply of the weather service. */
  function Weather(city: string, reply: HttpReply<string>): string {
    match reply
    case TransportFault(_) => WeatherError(city)
    case Response(status, text) =>
      if status == 200 then Strip(text) else WeatherUnavailable(city)
  }

  /** Status 200 gives the body without surrounding whitespace; any other
      status and a fault give two different failure sentences, so the caller
      can tell a refused request from one that never completed. */
  lemma WeatherReplies(city: string, reply: HttpReply<string>)
    ensures reply.Response? && reply.status == 200 ==>
      Weather(city, reply) == Strip(reply.body) && Trimmed(Weather(city, reply))
    ensures reply.Response? && reply.status != 200 ==> Weather(city, reply) == WeatherUnavailable(city)
    ensures reply.TransportFault? ==> Weather(city, reply) == WeatherError(city)
    ensures WeatherUnavailable(city) != WeatherError(city)
  {
    if reply.Response? {
      StripSlice(reply.body);
    }
    assert |WeatherUnavailable(city)| < |WeatherError(city)|;
  }

  // ----- web_search -----

  /** An element of `RelatedTopics` (or of a group's `Topics`): the keys
      `Text`, `FirstURL` and `Topics`, each possibly absent. */
  datatype Topic = Topic(text: Option<string>, firstUrl: Option<string>, subtopics: Option<seq<Topic>>)

  /** The decoded JSON body: its `RelatedTopics`, possibly absent. */
  datatype SearchData = SearchData(relatedTopics: Option<seq<Topic>>)

  predicate HasLink(t: Topic) {
    t.text.Some? && t.firstUrl.Some?
  }

  /** `f"{Text} ({FirstURL})"`. */
  function LinkLine(t: Topic): string
    requires HasLink(t)
  {
    t.text.value + " (" + t.firstUrl.value + ")"
  }

  /** The lines contributed by the subtopics of a group: one per subtopic
      with both fields. Subtopics of subtopics are not looked at. */
  function SubtopicLines(subs: seq<Topic>): seq<string> {
    if subs == [] then []
    else (if HasLink(subs[0]) then [LinkLine(subs[0])] else []) + SubtopicLines(subs[1..])
  }

  /** The lines contributed by one top-level topic: its own line when it has
      both fields (its `Topics`, if any, are then ignored), else the lines of
      its subtopics when it has `Topics`, else none. */
  function OwnLines(t: Topic): seq<string> {
    if HasLink(t) then [LinkLine(t)]
    else if t.subtopics.Some? then SubtopicLines(t.subtopics.value)
    else []
  }

  /** `results` after the loops over the top-level topics. */
  function TopicLines(topics: seq<Topic>): seq<string> {
    if topics == [] then [] else OwnLines(topics[0]) + TopicLines(topics[1..])
  }

  /** Lines keep encounter order: those of earlier topics come first. */
  lemma {:induction false} TopicLinesAppend(a: seq<Topic>, b: seq<Topic>)
    ensures TopicLines(a + b) == TopicLines(a) + TopicLines(b)
  {
    if a == [] {
      assert a + b == b;
    } else {
      assert (a + b)[1..] == a[1..] + b;
      TopicLinesAppend(a[1..], b);
      assert OwnLines(a[0]) + (TopicLines(a[1..]) + TopicLines(b))
          == (OwnLines(a[0]) + TopicLines(a[1..])) + TopicLines(b);
    }
  }

  /** Subtopic lines keep subtopic order, and each subtopic adds its line
      exactly when it has both fields. */
  lemma {:induction false} SubtopicLinesAppend(a: seq<Topic>, b: seq<Topic>)
    ensures SubtopicLines(a + b) == SubtopicLines(a) + SubtopicLines(b)
    ensures forall s :: SubtopicLines([s]) == (if HasLink(s) then [LinkLine(s)] else [])
  {
    forall s ensures SubtopicLines([s]) == (if HasLink(s) then [LinkLine(s)] else []) {
      assert [s][1..] == [];
      assert (if HasLink(s) then [LinkLine(s)] else []) + [] == (if HasLink(s) then [LinkLine(s)] else []);
    }
    if a == [] {
      assert a + b == b;
    } else {
      assert (a + b)[1..] == a[1..] + b;
      SubtopicLinesAppend(a[1..], b);
      var h := if HasLink(a[0]) then [LinkLine(a[0])] else [];
      assert h + (SubtopicLines(a[1..]) + SubtopicLines(b)) == (h + SubtopicLines(a[1..])) + SubtopicLines(b);
    }
  }

  lemma TopicLinesSingle(t: Topic)
    ensures TopicLines([t]) == OwnLines(t)
  {
    assert [t][1..] == [];
    assert OwnLines(t) + [] == OwnLines(t);
  }

  /** A topic with both `Text` and `FirstURL` gives exactly one line, whatever
      its `Topics` hold. */
  lemma LinkedTopicOneLine(t: Topic, subs: seq<Topic>)
    requires HasLink(t)
    ensures TopicLines([t]) == [LinkLine(t)]
    ensures TopicLines([t.(subtopics := Some(subs))]) == [LinkLine(t)]
  {
    TopicLinesSingle(t);
    TopicLinesSingle(t.(subtopics := Some(subs)));
  }

  /** The inner loop of `web_search`: append the line of every subtopic that
      has both fields, in subtopic order. */
  method AppendSubtopicLines(results: seq<string>, subs: seq<Topic>) returns (extended: seq<string>)
    ensures extended == results + SubtopicLines(subs)
  {
    extended := results;
    var j := 0;
    while j < |subs|
      invariant 0 <= j <= |subs|
      invariant extended == results + SubtopicLines(subs[..j])
    {
      var sub := subs[j];
      SubtopicLinesAppend(subs[..j], [sub]);
      assert subs[..j + 1] == subs[..j] + [sub];
      if HasLink(sub) {
        extended := extended + [LinkLine(sub)];
      }
      j := j + 1;
    }
    assert subs[..j] == subs;
  }

  /** The loops of `web_search` over the topics and the groups' subtopics. */
  method CollectLines(topics: seq<Topic>) returns (results: seq<string>)
    ensures results == TopicLines(topics)
  {
    results := [];
    var i := 0;
    while i < |topics|
      invariant 0 <= i <= |topics|
      invariant results == TopicLines(topics[..i])
    {
      var topic := topics[i];
      ghost var prev := results;
      if HasLink(topic) {
        results := results + [LinkLine(topic)];
      } else if topic.subtopics.Some? {
        results := AppendSubtopicLines(results, topic.subtopics.value);
      }
      assert results == prev + OwnLines(topic);
      TopicLinesAppend(topics[..i], [topic]);
      TopicLinesSingle(topic);
      assert topics[..i + 1] == topics[..i] + [topic];
      i := i + 1;
    }
    assert topics[..i] == topics;
  }

  /** How many lines the answer keeps. */
  const MaxResults := 5

  function NoResults(query: string): string {
    "No results found for '" + query + "'."
  }

  function SearchError(query: string): string {
    "An error occurred while searching the web for '" + query + "'."
  }

  /** The answer built from the collected lines. */
  function SearchAnswer(query: string, lines: seq<string>): string {
    if lines == [] then NoResults(query)
    else JoinLines(lines[..if |lines| < MaxResults then |lines| else MaxResults])
  }

  /** A non-empty answer holds exactly the first `min(5, n)` lines, one per
      line of text (as long as no line holds a newline itself). */
  lemma SearchAnswerTopLines(query: string, lines: seq<string>)
    requires lines != [] && NoNewline(lines)
    ensures var shown := SplitLines(SearchAnswer(query, lines));
      |shown| <= MaxResults && |shown| == (if |lines| < MaxResults then |lines| else MaxResults) &&
      shown == lines[..|shown|]
  {
    var n := if |lines| < MaxResults then |lines| else MaxResults;
    SplitJoin(lines[..n]);
  }

  /** `raise_for_status()` raises for client and server errors. */
  predicate IsHttpError(status: int) {
    400 <= status < 600
  }

  /** Whether the reply ends in the `except` clause: a transport fault, an
      error status, or a body that is not JSON (`None`). */
  predicate SearchFaulted(reply: HttpReply<Option<SearchData>>) {
    reply.TransportFault? || IsHttpError(reply.status) || reply.body.None?
  }

  /** `web_search(query)` given the reply of the search service. */
  method WebSearch(query: string, reply: HttpReply<Option<SearchData>>) returns (answer: string)
    ensures SearchFaulted(reply) ==> answer == SearchError(query)
    ensures !SearchFaulted(reply) ==>
      answer == SearchAnswer(query, TopicLines(reply.body.value.relatedTopics.GetOr([])))
  {
    if reply.TransportFault? || IsHttpError(reply.status) || reply.body.None? {
      return SearchError(query);
    }
    var data := reply.body.value;
    var results := CollectLines(data.relatedTopics.GetOr([]));
    if results == [] {
      return NoResults(query);
    }
    answer := JoinLines(results[..if |results| < MaxResults then |results| else MaxResults]);
  }

  // ----- get_calendar_events -----

  /** The `start` object of an event: `dateTime` and `date`, each possibly absent. */
  datatype EventStart = EventStart(dateTime: Option<string>, date: Option<string>)

  /** An event of the `items` list: its `start` and `summary`, each possibly absent. */
  datatype Event = Event(start: Option<EventStart>, summary: Option<string>)

  const AllDay := "All Day"
  const NoTitle := "No Title"

  /** `event["start"].get("dateTime", event["start"].get("date"))`; `None`
      when the event has no `start`, which raises `KeyError`. */
  function StartValue(e: Event): Option<Option<string>> {
    if e.start.None? then None
    else Some(if e.start.value.dateTime.Some? then e.start.value.dateTime else e.start.value.date)
  }

  /** The `(summary, formatted_time)` pair for one event, or `None` when
      building it raises. `localTime` stands for the ISO parse, the conversion
      to Asia/Kolkata and `strftime`; it gives `None` when the parse raises. */
  function EventRow(e: Event, localTime: string -> Option<string>): Option<(string, string)> {
    match StartValue(e)
    case None => None
    case Some(start) =>
      if start.None? then None   // `"T" in None` raises TypeError
      else if 'T' in start.value then
        match localTime(start.value)
        case None => None
        case Some(t) => Some((e.summary.GetOr(NoTitle), t))
      else Some((e.summary.GetOr(NoTitle), AllDay))
  }

  /** The list built by the loop, or `None` when the loop raised. */
  function EventRows(events: seq<Event>, localTime: string -> Option<string>): Option<seq<(string, string)>> {
    if events == [] then Some([])
    else
      match EventRow(events[0], localTime)
      case None => None
      case Some(row) =>
        match EventRows(events[1..], localTime)
        case None => None
        case Some(rows) => Some([row] + rows)
  }

  lemma {:induction false} EventRowsSnoc(events: seq<Event>, e: Event, localTime: string -> Option<string>)
    ensures EventRows(events + [e], localTime) ==
      (if EventRows(events, localTime).Some? && EventRow(e, localTime).Some?
       then Some(EventRows(events, localTime).value + [EventRow(e, localTime).value]) else None)
  {
    if events == [] {
      assert events + [e] == [e];
      assert [e][1..] == [];
      if EventRow(e, localTime).Some? {
        assert [EventRow(e, localTime).value] + [] == [] + [EventRow(e, localTime).value];
      }
    } else {
      assert (events + [e])[1..] == events[1..] + [e];
      EventRowsSnoc(events[1..], e, localTime);
      var x, y, z := EventRow(events[0], localTime), EventRows(events[1..], localTime), EventRow(e, localTime);
      if x.Some? && y.Some? && z.Some? {
        assert [x.value] + (y.value + [z.value]) == ([x.value] + y.value) + [z.value];
      }
    }
  }

  /** A completed loop gives one pair per event, in event order: the summary
      or "No Title", and "All Day" for a start without a `T` or the local time
      otherwise. It completes exactly when every event can be shaped. */
  lemma {:induction false} EventRowsShape(events: seq<Event>, localTime: string -> Option<string>)
    ensures EventRows(events, localTime).Some? <==>
      forall i :: 0 <= i < |events| ==> EventRow(events[i], localTime).Some?
    ensures EventRows(events, localTime).Some? ==>
      var rows := EventRows(events, localTime).value;
      |rows| == |events| &&
      forall i :: 0 <= i < |events| ==>
        StartValue(events[i]).Some? && StartValue(events[i]).value.Some? &&
        rows[i].0 == events[i].summary.GetOr(NoTitle) &&
        rows[i].1 == (if 'T' in StartValue(events[i]).value.value
                      then localTime(StartValue(events[i]).value.value).value else AllDay)
  {
    if events != [] {
      EventRowsShape(events[1..], localTime);
      assert forall i :: 1 <= i < |events| ==> events[i] == events[1..][i - 1];
    }
  }

  /** `get_calendar_events(service)` given the `items` the calendar service
      returned (or the fault raised fetching them). Any fault, including one
      part-way through the loop, gives an empty list. */
  method CalendarEvents(fetched: Result<seq<Event>>, localTime: string -> Option<string>)
    returns (eventList: seq<(string, string)>)
    ensures fetched.Fault? ==> eventList == []
    ensures fetched.Ok? ==> eventList == EventRows(fetched.value, localTime).GetOr([])
  {
    if fetched.Fault? || fetched.value == [] {
      return [];
    }
    var events := fetched.value;
    eventList := [];
    var i := 0;
    while i < |events|
      invariant 0 <= i <= |events|
      invariant EventRows(events[..i], localTime) == Some(eventList)
    {
      var event := events[i];
      EventRowsSnoc(events[..i], event, localTime);
      assert events[..i + 1] == events[..i] + [event];
      var row := EventRow(event, localTime);
      if row.None? {
        EventRowsFaultSticks(events[..i + 1], events[i + 1..], localTime);
        assert events[..i + 1] + events[i + 1..] == events;
        return [];
      }
      eventList := eventList + [row.value];
      i := i + 1;
    }
    assert events[..i] == events;
  }

  lemma {:induction false} EventRowsFaultSticks(a: seq<Event>, b: seq<Event>, localTime: string -> Option<string>)
    requires EventRows(a, localTime).None?
    ensures EventRows(a + b, localTime).None?
  {
    assert a != [];
    assert (a + b)[1..] == a[1..] + b;
    if EventRow(a[0], localTime).Some? {
      EventRowsFaultSticks(a[1..], b, localTime);
    }
  }
}
