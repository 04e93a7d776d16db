/** The server-sent-event stream of monitoring updates: the writer of
    backend/app/api/routes/monitoring.py and the incremental reader of frontend/src/api.ts. */
module Sse {
  import opened Wrappers
  import opened Text

  // ---------------------------------------------------------------- the reader

  /** An event as the subscriber sees it; its data is the JSON text, not yet decoded. */
  datatype Event = Event(id: Option<string>, data: string)

  predicate StartsWith(s: string, prefix: string) {
    prefix <= s
  }

  /** The characters JavaScript's trim removes. */
  predicate IsSpace(c: char) {
    || c in {'\t', '\n', '\U{000B}', '\U{000C}', '\r', ' ', '\U{00A0}', '\U{1680}'}
    || c in {'\U{2028}', '\U{2029}', '\U{202F}', '\U{205F}', '\U{3000}', '\U{FEFF}'}
    || '\U{2000}' <= c <= '\U{200A}'
  }

  function TrimStart(s: string): string {
    if s != [] && IsSpace(s[0]) then TrimStart(s[1..]) else s
  }

  function TrimEnd(s: string): string {
    if s != [] && IsSpace(s[|s| - 1]) then TrimEnd(s[..|s| - 1]) else s
  }

  function Trim(s: string): string {
    TrimEnd(TrimStart(s))
  }

  /** Where the first blank line starts, or -1 when the text holds no complete frame. */
  function Boundary(s: string): (i: int)
    ensures i == -1 || 0 <= i <= |s| - 2
  {
    if |s| < 2 then -1
    else if s[0] == '\n' && s[1] == '\n' then 0
    else
      var rest := Boundary(s[1..]);
      if rest < 0 then -1 else rest + 1
  }

  /** The boundary is the first place where two newlines meet. */
  lemma {:induction false} BoundaryIsFirst(s: string, k: nat)
    requires k + 2 <= |s|
    ensures Boundary(s) == k ==> s[k] == '\n' && s[k + 1] == '\n'
    ensures s[k] == '\n' && s[k + 1] == '\n' ==> 0 <= Boundary(s) <= k
  {
    if !(s[0] == '\n' && s[1] == '\n') && k > 0 {
      BoundaryIsFirst(s[1..], k - 1);
    }
  }

  /** The complete frames of a text, and what is left after the last of them. */
  function Frames(s: string): seq<string>
    decreases |s|
  {
    var b := Boundary(s);
    if b < 0 then [] else [s[..b]] + Frames(s[b + 2..])
  }

  function Rest(s: string): (rest: string)
    ensures Boundary(rest) == -1
    decreases |s|
  {
    var b := Boundary(s);
    if b < 0 then s else Rest(s[b + 2..])
  }

  /** The last id line, if any. */
  function LastId(lines: seq<string>): Option<string> {
    if lines == [] then None
    else
      var line := lines[|lines| - 1];
      if StartsWith(line, "id:") then Some(Trim(line[3..])) else LastId(lines[..|lines| - 1])
  }

  function DataLines(lines: seq<string>): seq<string> {
    if lines == [] then []
    else
      var line := lines[|lines| - 1];
      DataLines(lines[..|lines| - 1]) + if StartsWith(line, "data:") then [Trim(line[5..])] else []
  }

  /** Comments and frames without data deliver nothing. */
  function EventOf(frame: string): Option<Event> {
    var lines := Split(frame, '\n');
    if StartsWith(frame, ":") || DataLines(lines) == [] then None
    else Some(Event(LastId(lines), Join(DataLines(lines), '\n')))
  }

  function Listed(event: Option<Event>): seq<Event> {
    match event case Some(e) => [e] case None => []
  }

  function EventsOf(frames: seq<string>): seq<Event> {
    if frames == [] then [] else Listed(EventOf(frames[0])) + EventsOf(frames[1..])
  }

  /** Everything a subscriber is told by a text, however it arrived. */
  function Delivered(s: string): seq<Event> {
    EventsOf(Frames(s))
  }

  method ParseFrame(frame: string) returns (event: Option<Event>)
    ensures event == EventOf(frame)
  {
    event := None;
    if !StartsWith(frame, ":") {
      var id: Option<string> := None;
      var data: seq<string> := [];
      var lines := Split(frame, '\n');
      var i := 0;
      while i < |lines|
        invariant 0 <= i <= |lines|
        invariant id == LastId(lines[..i]) && data == DataLines(lines[..i])
      {
        var line := lines[i];
        assert lines[..i + 1][..i] == lines[..i];
        if StartsWith(line, "id:") {
          id := Some(Trim(line[3..]));
        }
        if StartsWith(line, "data:") {
          data := data + [Trim(line[5..])];
        }
        i := i + 1;
      }
      assert lines[..i] == lines;
      if data != [] {
        event := Some(Event(id, Join(data, '\n')));
      }
    }
  }

  ghost function Concat(chunks: seq<string>): string {
    if chunks == [] then "" else Concat(chunks[..|chunks| - 1]) + chunks[|chunks| - 1]
  }

  lemma {:induction false} BoundaryOfExtension(a: string, b: string)
    requires Boundary(a) >= 0
    ensures Boundary(a + b) == Boundary(a)
  {
    if !(a[0] == '\n' && a[1] == '\n') {
      BoundaryOfExtension(a[1..], b);
      assert (a + b)[1..] == a[1..] + b;
    }
  }

  /** Cutting the text anywhere and carrying the unfinished rest over gives the same frames. */
  lemma {:induction false} CutAnywhere(a: string, b: string)
    ensures Frames(a + b) == Frames(a) + Frames(Rest(a) + b)
    ensures Rest(a + b) == Rest(Rest(a) + b)
    decreases |a|
  {
    var cut := Boundary(a);
    if cut >= 0 {
      BoundaryOfExtension(a, b);
      assert (a + b)[..cut] == a[..cut];
      assert (a + b)[cut + 2..] == a[cut + 2..] + b;
      CutAnywhere(a[cut + 2..], b);
    }
  }

  lemma Associative<T>(a: seq<T>, b: seq<T>, c: seq<T>)
    ensures a + (b + c) == (a + b) + c
  {
  }

  lemma {:induction false} EventsOfConcat(a: seq<string>, b: seq<string>)
    ensures EventsOf(a + b) == EventsOf(a) + EventsOf(b)
  {
    if a == [] {
      assert a + b == b;
    } else {
      EventsOfConcat(a[1..], b);
      assert (a + b)[0] == a[0] && (a + b)[1..] == a[1..] + b;
      Associative(Listed(EventOf(a[0])), EventsOf(a[1..]), EventsOf(b));
    }
  }

  lemma DeliveredCut(a: string, b: string)
    ensures Delivered(a + b) == Delivered(a) + Delivered(Rest(a) + b)
  {
    CutAnywhere(a, b);
    EventsOfConcat(Frames(a), Frames(Rest(a) + b));
  }

  /** Taking the first frame off a buffer delivers its event, then what the remainder delivers. */
  lemma DeliveredFirst(buffer: string)
    requires Boundary(buffer) >= 0
    ensures
      var b := Boundary(buffer);
      Delivered(buffer) == Listed(EventOf(buffer[..b])) + Delivered(buffer[b + 2..])
          && Rest(buffer) == Rest(buffer[b + 2..])
  {
    var b := Boundary(buffer);
    assert Frames(buffer)[0] == buffer[..b] && Frames(buffer)[1..] == Frames(buffer[b + 2..]);
  }

  lemma DrainStep(events: seq<Event>, buffer: string, arrived: string)
    requires Boundary(buffer) >= 0
    requires events + Delivered(buffer) == Delivered(arrived) && Rest(buffer) == Rest(arrived)
    ensures
      var b := Boundary(buffer);
      && events + Listed(EventOf(buffer[..b])) + Delivered(buffer[b + 2..]) == Delivered(arrived)
      && Rest(buffer[b + 2..]) == Rest(arrived)
  {
    var b := Boundary(buffer);
    DeliveredFirst(buffer);
    Associative(events, Listed(EventOf(buffer[..b])), Delivered(buffer[b + 2..]));
  }

  /** The inner loop: it ends because the buffer shrinks, with no complete frame left. */
  method Drain(arrived: string) returns (events: seq<Event>, buffer: string)
    ensures events == Delivered(arrived)
    ensures buffer == Rest(arrived) && Boundary(buffer) == -1
  {
    events, buffer := [], arrived;
    var boundary := Boundary(buffer);
    while boundary >= 0
      invariant boundary == Boundary(buffer)
      invariant events + Delivered(buffer) == Delivered(arrived)
      invariant Rest(buffer) == Rest(arrived)
      decreases |buffer|
    {
      DrainStep(events, buffer, arrived);
      var frame := buffer[..boundary];
      buffer := buffer[boundary + 2..];
      var event := ParseFrame(frame);
      assert events + Listed(event) == if event.Some? then events + [event.value] else events;
      if event.Some? {
        events := events + [event.value];
      }
      boundary := Boundary(buffer);
    }
  }

  /** subscribeMonitoringEvents over the decoded chunks it read: what is delivered depends on the
      joined text alone, and what stays in the buffer holds no complete frame. */
  method Subscribe(chunks: seq<string>) returns (events: seq<Event>, buffer: string)
    ensures events == Delivered(Concat(chunks))
    ensures buffer == Rest(Concat(chunks)) && Boundary(buffer) == -1
  {
    events, buffer := [], "";
    var k := 0;
    while k < |chunks|
      invariant 0 <= k <= |chunks|
      invariant events == Delivered(Concat(chunks[..k])) && buffer == Rest(Concat(chunks[..k]))
    {
      assert chunks[..k + 1][..k] == chunks[..k];
      DeliveredCut(Concat(chunks[..k]), chunks[k]);
      CutAnywhere(Concat(chunks[..k]), chunks[k]);
      var arrived := buffer + chunks[k];
      var delivered;
      delivered, buffer := Drain(arrived);
      events := events + delivered;
      k := k + 1;
    }
    assert chunks[..k] == chunks;
  }

  // ---------------------------------------------------------------- the writer

  /** One turn of the stream loop: the dashboard's collection time, the encoded payload, the clock
      (in microseconds) when it was compared and when it was read again, and a heartbeat's text. */
  datatype Poll = Poll(collectedAt: Option<string>, payload: string, checkedAt: int, sentAt: int, stamp: string)

  datatype Message = Update(id: string, payload: string) | Heartbeat(stamp: string)

  datatype Writer = Writer(previousId: Option<string>, heartbeatAt: int, sent: seq<Message>)

  const HEARTBEAT_MICROSECONDS := 15_000_000

  predicate HasId(poll: Poll) {
    poll.collectedAt.Some? && poll.collectedAt.value != ""
  }

  function Turn(w: Writer, poll: Poll): Writer {
    if HasId(poll) && poll.collectedAt != w.previousId then
      Writer(poll.collectedAt, poll.sentAt, w.sent + [Update(poll.collectedAt.value, poll.payload)])
    else if poll.checkedAt - w.heartbeatAt >= HEARTBEAT_MICROSECONDS then
      Writer(w.previousId, poll.sentAt, w.sent + [Heartbeat(poll.stamp)])
    else w
  }

  ghost function Turns(w: Writer, polls: seq<Poll>): Writer {
    if polls == [] then w else Turn(Turns(w, polls[..|polls| - 1]), polls[|polls| - 1])
  }

  function Frame(m: Message): string {
    match m
    case Update(id, payload) => "id: " + id + "\n" + ("event: dashboard" + "\n" + ("data: " + payload))
    case Heartbeat(stamp) => ": heartbeat " + stamp
  }

  function Written(m: Message): string {
    Frame(m) + "\n\n"
  }

  ghost function Render(messages: seq<Message>): string {
    if messages == [] then "" else Written(messages[0]) + Render(messages[1..])
  }

  lemma RenderFirst(m: Message, later: seq<Message>)
    ensures Render([m] + later) == Written(m) + Render(later)
  {
    assert ([m] + later)[1..] == later;
  }

  lemma {:induction false} RenderNext(sent: seq<Message>, m: Message)
    ensures Render(sent + [m]) == Render(sent) + Written(m)
  {
    if sent == [] {
      RenderFirst(m, []);
      assert sent + [m] == [m] + [];
    } else {
      var rest := sent[1..];
      RenderNext(rest, m);
      RenderFirst(sent[0], rest);
      RenderFirst(sent[0], rest + [m]);
      assert sent == [sent[0]] + rest && sent + [m] == [sent[0]] + (rest + [m]);
      Associative(Written(sent[0]), Render(rest), Written(m));
    }
  }

  /** The module of the route: the number of open streams is shared. */
  class Events {
    var sseClients: nat

    /** `stream`, until the client disconnects after the given polls. */
    method Stream(lastEventId: Option<string>, now: int, polls: seq<Poll>) returns (text: string)
      modifies this
      ensures text == Render(Turns(Writer(lastEventId, now, []), polls).sent)
      ensures sseClients == old(sseClients)
    {
      sseClients := sseClients + 1;
      var previousId, heartbeatAt := lastEventId, now;
      text := "";
      ghost var sent: seq<Message> := [];
      var i := 0;
      while i < |polls|
        invariant 0 <= i <= |polls|
        invariant Turns(Writer(lastEventId, now, []), polls[..i]) == Writer(previousId, heartbeatAt, sent)
        invariant text == Render(sent)
        invariant sseClients == old(sseClients) + 1
      {
        var poll := polls[i];
        assert polls[..i + 1][..i] == polls[..i];
        if HasId(poll) && poll.collectedAt != previousId {
          var eventId := poll.collectedAt.value;
          RenderNext(sent, Update(eventId, poll.payload));
          text := text + Written(Update(eventId, poll.payload));
          sent := sent + [Update(eventId, poll.payload)];
          previousId, heartbeatAt := poll.collectedAt, poll.sentAt;
        } else if poll.checkedAt - heartbeatAt >= HEARTBEAT_MICROSECONDS {
          RenderNext(sent, Heartbeat(poll.stamp));
          text := text + Written(Heartbeat(poll.stamp));
          sent := sent + [Heartbeat(poll.stamp)];
          heartbeatAt := poll.sentAt;
        }
        i := i + 1;
      }
      assert polls[..i] == polls;
      sseClients := Max(0, sseClients - 1);
    }
  }

  // ---------------------------------------------------------------- heartbeats

  /** When the last message went out, or when the stream was opened. */
  ghost function LastMessageAt(w: Writer, polls: seq<Poll>): int {
    if polls == [] then w.heartbeatAt
    else
      var earlier, poll := polls[..|polls| - 1], polls[|polls| - 1];
      if |Turns(w, polls).sent| > |Turns(w, earlier).sent| then poll.sentAt else LastMessageAt(w, earlier)
  }

  /** A poll that sends nothing finds less than fifteen seconds of silence, and one that sends a
      heartbeat finds at least as much. */
  ghost predicate Punctual(w: Writer, polls: seq<Poll>) {
    if polls == [] then true
    else
      var earlier, poll := polls[..|polls| - 1], polls[|polls| - 1];
      var before, after := Turns(w, earlier).sent, Turns(w, polls).sent;
      var silence := poll.checkedAt - LastMessageAt(w, earlier);
      && Punctual(w, earlier)
      && before <= after && |after| <= |before| + 1
      && (after == before ==> silence < 15 * 1_000_000)
      && (|after| > |before| && after[|before|].Heartbeat? ==> silence >= 15 * 1_000_000)
  }

  /** The stream is never silent for fifteen seconds at a poll without a heartbeat, and heartbeats come
      no sooner, counted from the last message of either kind. */
  lemma {:induction false} HeartbeatsKeepTime(w: Writer, polls: seq<Poll>)
    ensures Turns(w, polls).heartbeatAt == LastMessageAt(w, polls) && Punctual(w, polls)
  {
    if polls != [] {
      HeartbeatsKeepTime(w, polls[..|polls| - 1]);
    }
  }

  // ---------------------------------------------------------------- reading back what was written

  ghost predicate Clean(s: string) {
    '\n' !in s && Trim(s) == s
  }

  ghost predicate CleanMessage(m: Message) {
    match m
    case Update(id, payload) => Clean(id) && Clean(payload)
    case Heartbeat(stamp) => '\n' !in stamp
  }

  ghost predicate AllClean(messages: seq<Message>) {
    forall m :: m in messages ==> CleanMessage(m)
  }

  ghost function Updates(messages: seq<Message>): seq<Event> {
    if messages == [] then []
    else
      (match messages[0] case Update(id, payload) => [Event(Some(id), payload)] case Heartbeat(_) => [])
      + Updates(messages[1..])
  }

  /** A nonempty line is never the start of a boundary. */
  lemma {:induction false} BoundaryAfterLine(line: string, rest: string)
    requires line != "" && '\n' !in line
    ensures rest == "" || rest[0] != '\n' ==>
      Boundary(line + "\n" + rest) == if Boundary(rest) < 0 then -1 else |line| + 1 + Boundary(rest)
    ensures Boundary(line + "\n\n" + rest) == |line|
  {
    var s, t := line + "\n" + rest, line + "\n\n" + rest;
    assert s[0] == line[0] && t[0] == line[0];
    if |line| == 1 {
      assert s[1..] == "\n" + rest && t[1..] == "\n\n" + rest;
      assert ("\n" + rest)[1..] == rest;
    } else {
      BoundaryAfterLine(line[1..], rest);
      assert s[1..] == line[1..] + "\n" + rest && t[1..] == line[1..] + "\n\n" + rest;
    }
  }

  lemma ThreeLines(a: string, b: string, c: string, rest: string)
    ensures a + "\n" + (b + "\n" + c) + "\n\n" + rest == a + "\n" + (b + "\n" + (c + "\n\n" + rest))
  {
  }

  lemma FrameBoundary(m: Message, rest: string)
    requires CleanMessage(m)
    ensures Boundary(Written(m) + rest) == |Frame(m)|
  {
    match m {
      case Heartbeat(stamp) =>
        BoundaryAfterLine(": heartbeat " + stamp, rest);
      case Update(id, payload) =>
        var line1, line2, line3 := "id: " + id, "event: dashboard", "data: " + payload;
        BoundaryAfterLine(line3, rest);
        BoundaryAfterLine(line2, line3 + "\n\n" + rest);
        BoundaryAfterLine(line1, line2 + "\n" + (line3 + "\n\n" + rest));
        ThreeLines(line1, line2, line3, rest);
    }
  }

  lemma TrimSkipsSpace(s: string)
    ensures Trim(" " + s) == Trim(s)
  {
    assert (" " + s)[1..] == s;
  }

  lemma UpdateLines(id: string, payload: string)
    requires '\n' !in id && '\n' !in payload
    ensures Split(Frame(Update(id, payload)), '\n') == ["id: " + id, "event: dashboard", "data: " + payload]
  {
    var line1, line2, line3 := "id: " + id, "event: dashboard", "data: " + payload;
    SplitFirst(line1, '\n', line2 + "\n" + line3);
    SplitFirst(line2, '\n', line3);
    SplitWhole(line3, '\n');
  }

  lemma LineAdded(lines: seq<string>, line: string)
    ensures LastId(lines + [line]) == if StartsWith(line, "id:") then Some(Trim(line[3..])) else LastId(lines)
    ensures DataLines(lines + [line]) == DataLines(lines) + if StartsWith(line, "data:") then [Trim(line[5..])] else []
  {
    assert (lines + [line])[..|lines|] == lines;
  }

  lemma UpdateFieldsRead(id: string, payload: string)
    requires Clean(id) && Clean(payload)
    ensures LastId(["id: " + id, "event: dashboard", "data: " + payload]) == Some(id)
    ensures DataLines(["id: " + id, "event: dashboard", "data: " + payload]) == [payload]
  {
    var line1, line2, line3 := "id: " + id, "event: dashboard", "data: " + payload;
    assert line1[..3] == "id:" && line1[3..] == " " + id;
    assert line3[..5] == "data:" && line3[5..] == " " + payload;
    assert line1[0] == 'i' && line2[0] == 'e' && line3[0] == 'd';
    assert [line1, line2, line3] == [] + [line1] + [line2] + [line3];
    LineAdded([], line1);
    LineAdded([] + [line1], line2);
    LineAdded([] + [line1] + [line2], line3);
    TrimSkipsSpace(id);
    TrimSkipsSpace(payload);
  }

  /** Each update is read as the event that was written, and a heartbeat as nothing. */
  lemma FrameReadsBack(m: Message)
    requires CleanMessage(m)
    ensures EventOf(Frame(m)) == match m { case Update(id, payload) => Some(Event(Some(id), payload))
                                          case Heartbeat(_) => None }
  {
    match m {
      case Heartbeat(stamp) =>
        assert Frame(m)[..1] == ":";
      case Update(id, payload) =>
        UpdateLines(id, payload);
        UpdateFieldsRead(id, payload);
        assert Frame(m)[0] == 'i';
        assert Join([payload], '\n') == payload;
    }
  }

  /** Reading what the stream writes gives back exactly its updates; heartbeats vanish. */
  lemma {:induction false} StreamReadsBack(messages: seq<Message>)
    requires AllClean(messages)
    ensures Delivered(Render(messages)) == Updates(messages)
    ensures Rest(Render(messages)) == ""
  {
    if messages != [] {
      var m, later := messages[0], Render(messages[1..]);
      assert m in messages;
      FrameBoundary(m, later);
      FrameReadsBack(m);
      StreamReadsBack(messages[1..]);
      var s := Written(m) + later;
      assert s[..|Frame(m)|] == Frame(m) && s[|Frame(m)| + 2..] == later;
      DeliveredFirst(s);
    }
  }

  // ---------------------------------------------------------------- duplicates and reconnection

  ghost predicate CleanPolls(polls: seq<Poll>) {
    forall p :: p in polls ==> (HasId(p) ==> Clean(p.collectedAt.value) && Clean(p.payload)) && '\n' !in p.stamp
  }

  lemma {:induction false} CleanPollsCleanMessages(w: Writer, polls: seq<Poll>)
    requires CleanPolls(polls) && AllClean(w.sent)
    ensures AllClean(Turns(w, polls).sent)
  {
    if polls != [] {
      assert polls[|polls| - 1] in polls;
      CleanPollsCleanMessages(w, polls[..|polls| - 1]);
    }
  }

  /** What a subscriber receives over one connection. */
  ghost function Received(lastEventId: Option<string>, now: int, polls: seq<Poll>): seq<Event> {
    Delivered(Render(Turns(Writer(lastEventId, now, []), polls).sent))
  }

  /** The updates a run of polls calls for, whatever the clock does: one for each poll whose id is
      not the one announced last. */
  ghost function Announced(previousId: Option<string>, polls: seq<Poll>): seq<Event> {
    if polls == [] then []
    else
      var earlier := polls[..|polls| - 1];
      Announced(previousId, earlier) + News(LatestId(previousId, earlier), polls[|polls| - 1])
  }

  /** The poll has an id, and it is not this one. */
  ghost predicate IsNew(latestId: Option<string>, poll: Poll) {
    poll.collectedAt != None && poll.collectedAt != Some("") && poll.collectedAt != latestId
  }

  ghost function News(latestId: Option<string>, poll: Poll): seq<Event> {
    if IsNew(latestId, poll) then [Event(poll.collectedAt, poll.payload)] else []
  }

  /** The last id seen by the polls. */
  ghost function LatestId(previousId: Option<string>, polls: seq<Poll>): Option<string> {
    if polls == [] then previousId
    else
      var id := polls[|polls| - 1].collectedAt;
      if id == None || id == Some("") then LatestId(previousId, polls[..|polls| - 1]) else id
  }

  lemma {:induction false} UpdatesConcat(a: seq<Message>, b: seq<Message>)
    ensures Updates(a + b) == Updates(a) + Updates(b)
  {
    if a == [] {
      assert a + b == b;
    } else {
      UpdatesConcat(a[1..], b);
      assert (a + b)[1..] == a[1..] + b;
    }
  }

  lemma {:induction false} TurnsAnnounce(w: Writer, polls: seq<Poll>)
    ensures Turns(w, polls).previousId == LatestId(w.previousId, polls)
    ensures Updates(Turns(w, polls).sent) == Updates(w.sent) + Announced(w.previousId, polls)
  {
    if polls != [] {
      var earlier, poll := polls[..|polls| - 1], polls[|polls| - 1];
      TurnsAnnounce(w, earlier);
      var before := Turns(w, earlier);
      if HasId(poll) && poll.collectedAt != before.previousId {
        UpdatesConcat(before.sent, [Update(poll.collectedAt.value, poll.payload)]);
        assert Updates([Update(poll.collectedAt.value, poll.payload)]) == [Event(poll.collectedAt, poll.payload)];
      } else if poll.checkedAt - before.heartbeatAt >= HEARTBEAT_MICROSECONDS {
        UpdatesConcat(before.sent, [Heartbeat(poll.stamp)]);
        assert Updates([Heartbeat(poll.stamp)]) == [];
      }
    }
  }

  /** End to end: the subscriber receives exactly the announced updates. */
  lemma ReceivedIsAnnounced(lastEventId: Option<string>, now: int, polls: seq<Poll>)
    requires CleanPolls(polls)
    ensures Received(lastEventId, now, polls) == Announced(lastEventId, polls)
  {
    var w := Writer(lastEventId, now, []);
    var announced := Announced(lastEventId, polls);
    CleanPollsCleanMessages(w, polls);
    StreamReadsBack(Turns(w, polls).sent);
    TurnsAnnounce(w, polls);
    assert Updates([]) + announced == announced;
  }

  /** Each event's id differs from the one before it, and the first from `previous`. */
  ghost predicate NoRepeats(previous: Option<string>, events: seq<Event>) {
    if events == [] then true
    else
      && events[|events| - 1].id != LastReceived(previous, events[..|events| - 1])
      && NoRepeats(previous, events[..|events| - 1])
  }

  /** The id a subscriber would send when it reconnects. */
  ghost function LastReceived(previous: Option<string>, events: seq<Event>): Option<string> {
    if events == [] then previous else events[|events| - 1].id
  }

  lemma {:induction false} AnnouncedNeverRepeats(previous: Option<string>, polls: seq<Poll>)
    ensures NoRepeats(previous, Announced(previous, polls))
    ensures LastReceived(previous, Announced(previous, polls)) == LatestId(previous, polls)
  {
    if polls != [] {
      var earlier, poll := polls[..|polls| - 1], polls[|polls| - 1];
      AnnouncedNeverRepeats(previous, earlier);
      var events := Announced(previous, polls);
      if IsNew(LatestId(previous, earlier), poll) {
        assert events[..|events| - 1] == Announced(previous, earlier);
      } else {
        assert events == Announced(previous, earlier);
      }
    }
  }

  lemma {:induction false} LatestIdConcat(previous: Option<string>, a: seq<Poll>, b: seq<Poll>)
    ensures LatestId(previous, a + b) == LatestId(LatestId(previous, a), b)
  {
    if b == [] {
      assert a + b == a;
    } else {
      LatestIdConcat(previous, a, b[..|b| - 1]);
      assert (a + b)[..|a + b| - 1] == a + b[..|b| - 1];
    }
  }

  lemma AnnouncedNext(previous: Option<string>, polls: seq<Poll>, poll: Poll)
    ensures Announced(previous, polls + [poll]) == Announced(previous, polls) + News(LatestId(previous, polls), poll)
  {
    assert (polls + [poll])[..|polls|] == polls;
  }

  lemma AnnouncedConcatNext(previous: Option<string>, a: seq<Poll>, b: seq<Poll>, poll: Poll)
    requires Announced(previous, a + b) == Announced(previous, a) + Announced(LatestId(previous, a), b)
    ensures Announced(previous, a + b + [poll])
         == Announced(previous, a) + Announced(LatestId(previous, a), b + [poll])
  {
    var middle := LatestId(previous, a);
    LatestIdConcat(previous, a, b);
    AnnouncedNext(previous, a + b, poll);
    AnnouncedNext(middle, b, poll);
    Associative(Announced(previous, a), Announced(middle, b), News(LatestId(middle, b), poll));
  }

  lemma {:induction false} AnnouncedConcat(previous: Option<string>, a: seq<Poll>, b: seq<Poll>)
    ensures Announced(previous, a + b) == Announced(previous, a) + Announced(LatestId(previous, a), b)
  {
    if b == [] {
      AnnouncedConcatNone(previous, a);
    } else {
      var front, poll := b[..|b| - 1], b[|b| - 1];
      AnnouncedConcat(previous, a, front);
      AnnouncedConcatNext(previous, a, front, poll);
      PollsJoin(a, front, poll, b);
    }
  }

  lemma AnnouncedConcatNone(previous: Option<string>, a: seq<Poll>)
    ensures Announced(previous, a + []) == Announced(previous, a) + Announced(LatestId(previous, a), [])
  {
    assert a + [] == a;
  }

  lemma PollsJoin(a: seq<Poll>, front: seq<Poll>, poll: Poll, b: seq<Poll>)
    requires b == front + [poll]
    ensures a + front + [poll] == a + b
  {
  }

  /** Neither a repeated id nor one equal to Last-Event-ID is ever received, and the subscriber
      always ends at the latest collection. */
  lemma ReceivedNeverRepeats(lastEventId: Option<string>, now: int, polls: seq<Poll>)
    requires CleanPolls(polls)
    ensures NoRepeats(lastEventId, Received(lastEventId, now, polls))
    ensures LastReceived(lastEventId, Received(lastEventId, now, polls)) == LatestId(lastEventId, polls)
  {
    ReceivedIsAnnounced(lastEventId, now, polls);
    AnnouncedNeverRepeats(lastEventId, polls);
  }

  /** A client that reconnects with the last id it received gets what one unbroken connection would
      have given it: nothing is lost and nothing is repeated. */
  lemma ReconnectionIsSeamless(lastEventId: Option<string>, now: int, later: int, a: seq<Poll>, b: seq<Poll>)
    requires CleanPolls(a) && CleanPolls(b)
    ensures
      var first := Received(lastEventId, now, a);
      first + Received(LastReceived(lastEventId, first), later, b) == Received(lastEventId, now, a + b)
  {
    var first := Received(lastEventId, now, a);
    ReceivedNeverRepeats(lastEventId, now, a);
    ReceivedIsAnnounced(lastEventId, now, a);
    ReceivedIsAnnounced(LastReceived(lastEventId, first), later, b);
    ReceivedIsAnnounced(lastEventId, now, a + b);
    AnnouncedConcat(lastEventId, a, b);
    LatestIdConcat(lastEventId, a, b);
  }

  lemma {:induction false} LatestIdIsSeen(one: Option<string>, other: Option<string>, polls: seq<Poll>)
    requires exists p :: p in polls && HasId(p)
    ensures LatestId(one, polls) == LatestId(other, polls)
  {
    var earlier, poll := polls[..|polls| - 1], polls[|polls| - 1];
    if !HasId(poll) {
      assert exists p :: p in earlier && HasId(p) by {
        var p :| p in polls && HasId(p);
        assert p in earlier;
      }
      LatestIdIsSeen(one, other, earlier);
    }
  }

  /** A connection broken anywhere, even inside a frame, has delivered the beginning of what was
      announced; and once a reconnected client has been polled for with some collection, it holds
      the id that an unbroken connection would have ended with. */
  lemma BrokenConnectionCatchesUp(lastEventId: Option<string>, now: int, later: int, a: seq<Poll>, b: seq<Poll>,
                                  arrived: string, lost: string)
    requires CleanPolls(a) && CleanPolls(b)
    requires arrived + lost == Render(Turns(Writer(lastEventId, now, []), a).sent)
    requires exists p :: p in b && HasId(p)
    ensures Delivered(arrived) <= Announced(lastEventId, a)
    ensures
      var last := LastReceived(lastEventId, Delivered(arrived));
      LastReceived(last, Received(last, later, b)) == LatestId(lastEventId, a + b)
  {
    ReceivedIsAnnounced(lastEventId, now, a);
    DeliveredCut(arrived, lost);
    var last := LastReceived(lastEventId, Delivered(arrived));
    ReceivedNeverRepeats(last, later, b);
    LatestIdConcat(lastEventId, a, b);
    LatestIdIsSeen(last, LatestId(lastEventId, a), b);
  }
}
