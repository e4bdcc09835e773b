/**
 * The global workspace store of the live-document UI
 * (frontend/src/store/useWorkspaceStore.ts): four fields replaced through a
 * per-event-type transition `updateState`, fed by the messages of a
 * server-sent event stream.
 *
 * Event payloads are JSON values (`Json`); JavaScript's `String(payload)` is
 * `JsString`. The JSON parser of the `onmessage` callback is a parameter.
 */
module WorkspaceStore {
  import opened Wrappers
  import opened Text

  /** A value produced by `JSON.parse` (numbers restricted to integers). */
  datatype Json =
    | JNull
    | JBool(b: bool)
    | JNum(n: int)
    | JStr(s: string)
    | JArr(items: seq<Json>)
    | JObj(fields: seq<(string, Json)>)

  /** `SseEvent`: the event type, its payload and its timestamp. */
  datatype SseEvent = SseEvent(kind: string, payload: Json, timestamp: string)

  /** JavaScript's `String(v)` on a parsed JSON value. */
  function JsString(v: Json): string
    decreases v, 1
  {
    match v
    case JNull => "null"
    case JBool(b) => if b then "true" else "false"
    case JNum(n) => IntToString(n)
    case JStr(s) => s
    case JArr(items) => JoinElements(items)
    case JObj(_) => "[object Object]"
  }

  /** `Array.prototype.join(",")`, which writes `null` elements as "". */
  function JoinElements(items: seq<Json>): string
    decreases items, 0
  {
    if items == [] then ""
    else
      var first := if items[0] == JNull then "" else JsString(items[0]);
      if |items| == 1 then first else first + "," + JoinElements(items[1..])
  }

  /** The values of the four store fields. */
  datatype Snapshot = Snapshot(document: Json, logs: seq<SseEvent>, sources: seq<Json>, exportStatus: string)

  /** The store as `create` initialises it. */
  function Initial(): Snapshot
  {
    Snapshot(JNull, [], [], "idle")
  }

  /** `updateState(event)` on the field values. */
  function Step(s: Snapshot, e: SseEvent): Snapshot
  {
    if e.kind == "document" then s.(document := e.payload)
    else if e.kind == "log" then s.(logs := s.logs + [e])
    else if e.kind == "source" then s.(sources := if e.payload.JArr? then e.payload.items else [])
    else if e.kind == "export" then s.(exportStatus := JsString(e.payload))
    else s
  }

  /** The store after a sequence of events, in arrival order. */
  function Replay(s: Snapshot, events: seq<SseEvent>): Snapshot
    decreases |events|
  {
    if events == [] then s else Step(Replay(s, events[..|events| - 1]), events[|events| - 1])
  }

  /** The events of type `log`, in order. */
  function LogEvents(events: seq<SseEvent>): seq<SseEvent>
  {
    if events == [] then []
    else (if events[0].kind == "log" then [events[0]] else []) + LogEvents(events[1..])
  }

  predicate Known(kind: string)
  {
    kind == "document" || kind == "log" || kind == "source" || kind == "export"
  }

  /** A `document` event replaces the document and touches nothing else. */
  lemma {:induction false} DocumentReplaces(s: Snapshot, e: SseEvent)
    requires e.kind == "document"
    ensures Step(s, e).document == e.payload
    ensures Step(s, e).logs == s.logs && Step(s, e).sources == s.sources
    ensures Step(s, e).exportStatus == s.exportStatus
  {
  }

  /** A `log` event appends the whole event and keeps the earlier ones. */
  lemma {:induction false} LogAppends(s: Snapshot, e: SseEvent)
    requires e.kind == "log"
    ensures |Step(s, e).logs| == |s.logs| + 1
    ensures Step(s, e).logs[..|s.logs|] == s.logs && Step(s, e).logs[|s.logs|] == e
    ensures Step(s, e).document == s.document && Step(s, e).sources == s.sources
    ensures Step(s, e).exportStatus == s.exportStatus
  {
  }

  /** A `source` event replaces the list with the payload when it is an array
      and with the empty list otherwise; the old list never survives. */
  lemma {:induction false} SourceReplaces(s: Snapshot, e: SseEvent)
    requires e.kind == "source"
    ensures e.payload.JArr? ==> Step(s, e).sources == e.payload.items
    ensures !e.payload.JArr? ==> Step(s, e).sources == []
    ensures Step(s, e).document == s.document && Step(s, e).logs == s.logs
    ensures Step(s, e).exportStatus == s.exportStatus
  {
  }

  /** An `export` event stores the payload converted to a string. */
  lemma {:induction false} ExportStringifies(s: Snapshot, e: SseEvent)
    requires e.kind == "export"
    ensures Step(s, e).exportStatus == JsString(e.payload)
    ensures e.payload.JStr? ==> Step(s, e).exportStatus == e.payload.s
    ensures e.payload == JNull ==> Step(s, e).exportStatus == "null"
    ensures Step(s, e).document == s.document && Step(s, e).logs == s.logs
    ensures Step(s, e).sources == s.sources
  {
  }

  /** Any other type, `status` among them, leaves the store as it was. */
  lemma {:induction false} UnknownIgnored(s: Snapshot, e: SseEvent)
    requires !Known(e.kind)
    ensures Step(s, e) == s
  {
  }

  lemma {:induction false} LogEventsAppend(events: seq<SseEvent>, e: SseEvent)
    ensures LogEvents(events + [e]) == LogEvents(events) + (if e.kind == "log" then [e] else [])
    decreases |events|
  {
    if events == [] {
      assert events + [e] == [e];
    } else {
      var xs := events + [e];
      assert xs[0] == events[0] && xs[1..] == events[1..] + [e];
      LogEventsAppend(events[1..], e);
      var h := if events[0].kind == "log" then [events[0]] else [];
      var t := if e.kind == "log" then [e] else [];
      assert LogEvents(xs) == h + LogEvents(events[1..] + [e]);
      assert h + (LogEvents(events[1..]) + t) == (h + LogEvents(events[1..])) + t;
    }
  }

  /** After any sequence of events from the initial store, the log holds
      exactly the `log` events in arrival order. */
  lemma {:induction false} LogsAreLogEvents(events: seq<SseEvent>)
    ensures Replay(Initial(), events).logs == LogEvents(events)
    decreases |events|
  {
    if events != [] {
      var front, last := events[..|events| - 1], events[|events| - 1];
      LogsAreLogEvents(front);
      assert events == front + [last];
      LogEventsAppend(front, last);
    }
  }

  /** The mutable store: the four fields and its two actions. */
  class Store {
    var document: Json
    var logs: seq<SseEvent>
    var sources: seq<Json>
    var exportStatus: string

    function Value(): Snapshot
      reads this
    {
      Snapshot(document, logs, sources, exportStatus)
    }

    /** The initial store: no document, no logs, no sources, status 'idle'. */
    constructor ()
      ensures document == JNull && logs == [] && sources == [] && exportStatus == "idle"
      ensures Value() == Initial()
    {
      document := JNull;
      logs := [];
      sources := [];
      exportStatus := "idle";
    }

    /** `updateState(event)`. */
    method UpdateState(event: SseEvent)
      modifies this
      ensures Value() == Step(old(Value()), event)
      ensures event.kind == "log" ==> logs == old(logs) + [event]
      ensures event.kind != "log" ==> logs == old(logs)
      ensures !Known(event.kind) ==> Value() == old(Value())
    {
      match event.kind {
        case "document" =>
          document := event.payload;
        case "log" =>
          logs := logs + [event];
        case "source" =>
          sources := if event.payload.JArr? then event.payload.items else [];
        case "export" =>
          exportStatus := JsString(event.payload);
        case _ =>
      }
    }

    /** The `onmessage` callback of `connect`: a message whose data does not
        parse is dropped, any other is handed to `updateState`. */
    method OnMessage(data: string, parse: string -> Option<SseEvent>)
      modifies this
      ensures parse(data).None? ==> Value() == old(Value())
      ensures parse(data).Some? ==> Value() == Step(old(Value()), parse(data).value)
    {
      var parsed := parse(data);
      if parsed.Some? {
        UpdateState(parsed.value);
      }
    }
  }
}
