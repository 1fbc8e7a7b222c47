/**
 * The reshaping in `lib/google.ts`: Gmail messages and Calendar events, as the API returns
 * them, mapped to the flat records the page shows. The API calls themselves are not part of
 * this model: their responses are the inputs here.
 */
module Google {
  import opened Wrappers
  import opened Js

  /** A UTF-16 code unit: a JavaScript string is a sequence of them, and `substring` counts them. */
  newtype CodeUnit = x: int | 0 <= x < 0x1_0000

  /** The longest body kept, in code units. */
  const MaxBodyLength := 500

  /** A message header (`name` and `value` may be `null`). */
  datatype Header = Header(name: Option<string>, value: Option<string>)

  /** A MIME part of a message; `bodyData` is `part.body?.data`, the base64 content. */
  datatype MessagePart = MessagePart(mimeType: Option<string>, bodyData: Option<string>)

  /** `payload`: its headers, its parts, and `payload.body?.data`. */
  datatype Payload = Payload(headers: Option<seq<Header>>, parts: Option<seq<MessagePart>>, bodyData: Option<string>)

  /** The response of `gmail.users.messages.get` with `format: "full"`. */
  datatype MessageDetails = MessageDetails(payload: Option<Payload>, snippet: Option<string>)

  /** An entry of `gmail.users.messages.list`. */
  datatype MessageRef = MessageRef(id: Option<string>)

  /** What `getGmailMessages` returns per message. */
  datatype MessageSummary = MessageSummary(
    id: Option<string>, subject: string, from: string, date: string,
    snippet: Option<string>, body: seq<CodeUnit>)

  // ---- headers ----

  /** Header `i` is the first one whose name is exactly `name` (case-sensitive). */
  predicate FirstNamed(headers: seq<Header>, name: string, i: int) {
    0 <= i < |headers| && headers[i].name == Some(name) &&
    forall j :: 0 <= j < i ==> headers[j].name != Some(name)
  }

  /** `headers.find((h) => h.name === name)`, as an index. */
  function FindHeader(headers: seq<Header>, name: string): (r: Option<nat>)
    ensures r.None? <==> forall i :: 0 <= i < |headers| ==> headers[i].name != Some(name)
    ensures r.Some? ==> FirstNamed(headers, name, r.value)
    decreases |headers|
  {
    if |headers| == 0 then None
    else if headers[0].name == Some(name) then Some(0)
    else
      match FindHeader(headers[1..], name)
      case None => None
      case Some(i) =>
        assert headers[i + 1] == headers[1..][i];
        Some(i + 1)
  }

  /**
   * `headers.find((h) => h.name === name)?.value || default`: the value of the first header with
   * that exact name when it is non-empty, else the default. A later header of the same name is
   * never consulted.
   */
  function HeaderOr(headers: seq<Header>, name: string, default: string): (r: string)
    ensures (exists i :: FirstNamed(headers, name, i) && Truthy(headers[i].value) && r == headers[i].value.value) ||
            (r == default && forall i :: FirstNamed(headers, name, i) ==> !Truthy(headers[i].value))
  {
    match FindHeader(headers, name)
    case None => default
    case Some(i) =>
      if Truthy(headers[i].value) then headers[i].value.value
      else
        assert forall k :: FirstNamed(headers, name, k) ==> k == i;
        default
  }

  /** Names are compared exactly: `subject` is not `Subject`. */
  lemma HeaderNamesCaseSensitive(v: string)
    ensures HeaderOr([Header(Some("subject"), Some(v))], "Subject", "No Subject") == "No Subject"
  {
    assert "subject" != "Subject" by {
      assert "subject"[0] != "Subject"[0];
    }
  }

  // ---- body ----

  /** Part `i` is the first one whose MIME type is exactly `text/plain`. */
  predicate FirstTextPlain(parts: seq<MessagePart>, i: int) {
    0 <= i < |parts| && parts[i].mimeType == Some("text/plain") &&
    forall j :: 0 <= j < i ==> parts[j].mimeType != Some("text/plain")
  }

  /** `parts.find((part) => part.mimeType === "text/plain")`, as an index. */
  function FindTextPlain(parts: seq<MessagePart>): (r: Option<nat>)
    ensures r.None? <==> forall i :: 0 <= i < |parts| ==> parts[i].mimeType != Some("text/plain")
    ensures r.Some? ==> FirstTextPlain(parts, r.value)
    decreases |parts|
  {
    if |parts| == 0 then None
    else if parts[0].mimeType == Some("text/plain") then Some(0)
    else
      match FindTextPlain(parts[1..])
      case None => None
      case Some(i) =>
        assert parts[i + 1] == parts[1..][i];
        Some(i + 1)
  }

  /** Content that is present and non-empty is decoded; anything else is the empty string. */
  function DecodeIfPresent(data: Option<string>, decode: string -> seq<CodeUnit>): (r: seq<CodeUnit>)
    ensures Truthy(data) ==> r == decode(data.value)
    ensures !Truthy(data) ==> r == []
  {
    if Truthy(data) then decode(data.value) else []
  }

  /**
   * The body before truncation. When the payload has a `parts` array (even an empty one), only
   * the first `text/plain` part counts and `payload.body.data` is ignored; only without `parts`
   * is `payload.body.data` used. `decode` stands for base64 decoding followed by UTF-8 decoding.
   */
  function SelectBody(payload: Option<Payload>, decode: string -> seq<CodeUnit>): (r: seq<CodeUnit>)
    ensures payload.None? ==> r == []
    ensures payload.Some? && payload.value.parts.Some? ==>
      var parts := payload.value.parts.value;
      ((forall i :: 0 <= i < |parts| ==> parts[i].mimeType != Some("text/plain")) ==> r == []) &&
      (forall i :: FirstTextPlain(parts, i) ==> r == DecodeIfPresent(parts[i].bodyData, decode))
    ensures payload.Some? && payload.value.parts.None? ==> r == DecodeIfPresent(payload.value.bodyData, decode)
  {
    match payload
    case None => []
    case Some(p) =>
      if p.parts.Some? then
        match FindTextPlain(p.parts.value)
        case None => []
        case Some(i) =>
          assert forall k :: FirstTextPlain(p.parts.value, k) ==> k == i;
          DecodeIfPresent(p.parts.value[i].bodyData, decode)
      else
        DecodeIfPresent(p.bodyData, decode)
  }

  /** When `parts` is present, the top-level `payload.body.data` has no influence on the body. */
  lemma PartsShadowBodyData(p: Payload, other: Option<string>, decode: string -> seq<CodeUnit>)
    requires p.parts.Some?
    ensures SelectBody(Some(p), decode) == SelectBody(Some(p.(bodyData := other)), decode)
  {
  }

  /** `body.substring(0, 500)`: a prefix of at most 500 code units, the whole body when shorter. */
  function Truncate(body: seq<CodeUnit>): (r: seq<CodeUnit>)
    ensures |r| <= MaxBodyLength
    ensures r <= body
    ensures |body| <= MaxBodyLength ==> r == body
    ensures |body| > MaxBodyLength ==> |r| == MaxBodyLength
  {
    if |body| <= MaxBodyLength then body else body[..MaxBodyLength]
  }

  // ---- messages ----

  /** `payload?.headers || []`: the headers as sent, none when the payload or its list is missing. */
  function Headers(payload: Option<Payload>): (r: seq<Header>)
    ensures payload.None? || payload.value.headers.None? ==> r == []
    ensures payload.Some? && payload.value.headers.Some? ==> r == payload.value.headers.value
  {
    if payload.Some? && payload.value.headers.Some? then payload.value.headers.value else []
  }

  /**
   * One message as `getGmailMessages` reshapes it: the id and snippet pass through; subject,
   * sender and date come from the first header of each name, with their defaults; the body is
   * the first 500 code units of the selected body.
   */
  function SummarizeMessage(ref: MessageRef, details: MessageDetails, decode: string -> seq<CodeUnit>)
    : (r: MessageSummary)
    ensures r.id == ref.id && r.snippet == details.snippet
    ensures r.subject == HeaderOr(Headers(details.payload), "Subject", "No Subject")
    ensures r.from == HeaderOr(Headers(details.payload), "From", "Unknown")
    ensures r.date == HeaderOr(Headers(details.payload), "Date", "")
    ensures r.subject != "" && r.from != ""
    ensures r.body == Truncate(SelectBody(details.payload, decode))
    ensures |r.body| <= MaxBodyLength && r.body <= SelectBody(details.payload, decode)
  {
    var headers := Headers(details.payload);
    MessageSummary(
      ref.id,
      HeaderOr(headers, "Subject", "No Subject"),
      HeaderOr(headers, "From", "Unknown"),
      HeaderOr(headers, "Date", ""),
      details.snippet,
      Truncate(SelectBody(details.payload, decode)))
  }

  /**
   * `response.data.messages || []`, each entry fetched with `get` and reshaped, in list order
   * (`Promise.all` keeps the order of its input).
   */
  function Messages(listed: Option<seq<MessageRef>>, get: Option<string> -> MessageDetails,
                    decode: string -> seq<CodeUnit>): (r: seq<MessageSummary>)
    ensures listed.None? ==> r == []
    ensures listed.Some? ==> (|r| == |listed.value| &&
      forall i :: 0 <= i < |r| ==>
        r[i] == SummarizeMessage(listed.value[i], get(listed.value[i].id), decode))
  {
    if listed.None? then [] else SummarizeAll(listed.value, get, decode)
  }

  function SummarizeAll(refs: seq<MessageRef>, get: Option<string> -> MessageDetails,
                        decode: string -> seq<CodeUnit>): (r: seq<MessageSummary>)
    ensures |r| == |refs|
    ensures forall i :: 0 <= i < |r| ==> r[i] == SummarizeMessage(refs[i], get(refs[i].id), decode)
    decreases |refs|
  {
    if |refs| == 0 then []
    else [SummarizeMessage(refs[0], get(refs[0].id), decode)] + SummarizeAll(refs[1..], get, decode)
  }

  // ---- calendar events ----

  /** `start` or `end` of an event: a date-time for timed events, a date for all-day ones. */
  datatype EventDateTime = EventDateTime(dateTime: Option<string>, date: Option<string>)

  datatype Attendee = Attendee(email: Option<string>)

  /** An entry of `calendar.events.list`. */
  datatype Event = Event(
    id: Option<string>, summary: Option<string>, description: Option<string>,
    start: Option<EventDateTime>, end: Option<EventDateTime>,
    location: Option<string>, attendees: Option<seq<Attendee>>)

  /** What `getCalendarEvents` returns per event. */
  datatype EventSummary = EventSummary(
    id: Option<string>, summary: string, description: string,
    start: Option<string>, end: Option<string>,
    location: Option<string>, attendees: seq<Option<string>>)

  /**
   * `t?.dateTime || t?.date`: the date-time when it is non-empty, otherwise the date as it is
   * (possibly missing or empty).
   */
  function When(t: Option<EventDateTime>): (r: Option<string>)
    ensures t.None? ==> r.None?
    ensures t.Some? && Truthy(t.value.dateTime) ==> r == t.value.dateTime
    ensures t.Some? && !Truthy(t.value.dateTime) ==> r == t.value.date
  {
    if t.None? then None else OrElse(t.value.dateTime, t.value.date)
  }

  /** `attendees.map((a) => a.email)`. */
  function Emails(attendees: seq<Attendee>): (r: seq<Option<string>>)
    ensures |r| == |attendees|
    ensures forall i :: 0 <= i < |r| ==> r[i] == attendees[i].email
    decreases |attendees|
  {
    if |attendees| == 0 then [] else [attendees[0].email] + Emails(attendees[1..])
  }

  /**
   * One event as `getCalendarEvents` reshapes it: a non-empty title (`No Title` by default), the
   * description or `""`, the start and end with their fall-back, id and location unchanged, and
   * the attendees' emails in order (none when the list is missing).
   */
  function SummarizeEvent(e: Event): (r: EventSummary)
    ensures r.id == e.id && r.location == e.location
    ensures r.summary != ""
    ensures Truthy(e.summary) ==> r.summary == e.summary.value
    ensures !Truthy(e.summary) ==> r.summary == "No Title"
    ensures Truthy(e.description) ==> r.description == e.description.value
    ensures !Truthy(e.description) ==> r.description == ""
    ensures r.start == When(e.start) && r.end == When(e.end)
    ensures e.attendees.None? ==> r.attendees == []
    ensures e.attendees.Some? ==> (|r.attendees| == |e.attendees.value| &&
      forall i :: 0 <= i < |r.attendees| ==> r.attendees[i] == e.attendees.value[i].email)
  {
    EventSummary(
      e.id,
      Or(e.summary, "No Title"),
      Or(e.description, ""),
      When(e.start),
      When(e.end),
      e.location,
      if e.attendees.Some? then Emails(e.attendees.value) else [])
  }

  /** `(response.data.items || []).map(...)`: one summary per event, in order. */
  function Events(items: Option<seq<Event>>): (r: seq<EventSummary>)
    ensures items.None? ==> r == []
    ensures items.Some? ==> (|r| == |items.value| &&
      forall i :: 0 <= i < |r| ==> r[i] == SummarizeEvent(items.value[i]))
  {
    if items.None? then [] else SummarizeEvents(items.value)
  }

  function SummarizeEvents(events: seq<Event>): (r: seq<EventSummary>)
    ensures |r| == |events|
    ensures forall i :: 0 <= i < |r| ==> r[i] == SummarizeEvent(events[i])
    decreases |events|
  {
    if |events| == 0 then [] else [SummarizeEvent(events[0])] + SummarizeEvents(events[1..])
  }
}
