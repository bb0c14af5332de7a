/** Events, their validation (`_.validateEvent`, `_.validateEvents`), the
    payload projection (`_.payloads`) and the timestamp enrichment
    (`_.addTimestamp`). */
module Events {
  import opened Wrappers
  import opened JsValues

  /** The `duplication` descriptor of an event: its throttle key and window. */
  datatype Duplication = Duplication(key: string, repeatSeconds: int)

  /** An event: a payload (undefined when missing) and an optional
      duplication descriptor. */
  datatype Event = Event(payload: Value, duplication: Option<Duplication>)

  /** The three errors `_.validateEvent` throws. */
  datatype ValidationError = MissingPayload | MissingEventType | InvalidEventType

  const EventTypeKey := "event-type"
  const EventTypes: seq<Value> := [Str("client"), Str("internal"), Str("request")]
  const TimestampKey := "x-vf-trace-timestamp"

  /** What a well-formed event is: its payload is an object whose
      'event-type' is one of the strings client, internal and request. */
  predicate IsValidEvent(e: Event) {
    && e.payload.Obj?
    && EventTypeKey in e.payload.props
    && e.payload.props[EventTypeKey] in {Str("client"), Str("internal"), Str("request")}
  }

  /** `_.validateEvent(event)`, with the thrown error as a failure. */
  function ValidateEvent(e: Event): (r: Outcome<ValidationError>)
    ensures r.Pass? <==> IsValidEvent(e)
    ensures r == Fail(MissingPayload) <==> !e.payload.Obj? && !e.payload.Arr?
    ensures r == Fail(MissingEventType) <==>
      e.payload.Arr? || (e.payload.Obj? && IsUndefined(Get(e.payload.props, EventTypeKey)))
    ensures r == Fail(InvalidEventType) <==>
      && e.payload.Obj?
      && !IsUndefined(Get(e.payload.props, EventTypeKey))
      && Get(e.payload.props, EventTypeKey) !in {Str("client"), Str("internal"), Str("request")}
  {
    if !Truthy(e.payload) || TypeOf(e.payload) != "object" then Fail(MissingPayload)
    else if IsUndefined(Property(e.payload, EventTypeKey)) then Fail(MissingEventType)
    else if !Contains(EventTypes, Property(e.payload, EventTypeKey)) then Fail(InvalidEventType)
    else Pass
  }

  /** `_.validateEvents(events)`: the first event that fails decides the
      error; the events pass only if every one does. */
  function ValidateEvents(events: seq<Event>): (r: Outcome<ValidationError>)
    ensures r.Pass? <==> forall i :: 0 <= i < |events| ==> ValidateEvent(events[i]).Pass?
    ensures r.Pass? ==> forall i :: 0 <= i < |events| ==> events[i].payload.Obj?
    ensures r.Fail? ==>
      exists i :: 0 <= i < |events| && ValidateEvent(events[i]) == r &&
        forall j :: 0 <= j < i ==> ValidateEvent(events[j]).Pass?
  {
    if events == [] then Pass
    else if ValidateEvent(events[0]).Fail? then ValidateEvent(events[0])
    else
      var r := ValidateEvents(events[1..]);
      assert forall i :: 1 <= i < |events| ==> events[1..][i - 1] == events[i];
      r
  }

  /** `_.payloads(events)`: the payload of each event, in order. */
  function Payloads(events: seq<Event>): (r: seq<Value>)
    ensures |r| == |events|
    ensures forall i :: 0 <= i < |events| ==> r[i] == events[i].payload
  {
    if events == [] then [] else [events[0].payload] + Payloads(events[1..])
  }

  /** The enrichment `_.addTimestamp` merges into each payload. */
  function TraceStamp(stamp: string): Props {
    map[TimestampKey := Str(stamp)]
  }

  /** One event after `_.addTimestamp`: the payload gains the trace
      timestamp unless it already has one. */
  function Stamp(e: Event, stamp: string): (r: Event)
    requires e.payload.Obj?
    ensures r.duplication == e.duplication && r.payload.Obj?
    ensures r.payload.props.Keys == e.payload.props.Keys + {TimestampKey}
    ensures r.payload.props[TimestampKey] ==
      if IsUndefined(Get(e.payload.props, TimestampKey)) then Str(stamp)
      else e.payload.props[TimestampKey]
    ensures forall k :: k in e.payload.props && k != TimestampKey ==>
      r.payload.props[k] == e.payload.props[k]
  {
    e.(payload := Obj(Merged(e.payload.props, TraceStamp(stamp))))
  }

  /** Every event of a batch stamped with the one capture instant `stamp`. */
  function StampAll(events: seq<Event>, stamp: string): (r: seq<Event>)
    requires forall i :: 0 <= i < |events| ==> events[i].payload.Obj?
    ensures |r| == |events|
    ensures forall i :: 0 <= i < |events| ==> r[i] == Stamp(events[i], stamp)
  {
    if events == [] then [] else [Stamp(events[0], stamp)] + StampAll(events[1..], stamp)
  }

  /** `_.addTimestamp(events)`: for each payload in turn, merge the trace
      timestamp. The clock reading is the argument `stamp`. */
  method AddTimestamp(events: seq<Event>, stamp: string) returns (stamped: seq<Event>)
    requires forall i :: 0 <= i < |events| ==> events[i].payload.Obj?
    ensures stamped == StampAll(events, stamp)
  {
    stamped := [];
    var i := 0;
    while i < |events|
      invariant 0 <= i <= |events|
      invariant |stamped| == i
      invariant forall j :: 0 <= j < i ==> stamped[j] == Stamp(events[j], stamp)
    {
      stamped := stamped + [Stamp(events[i], stamp)];
      i := i + 1;
    }
  }
}
