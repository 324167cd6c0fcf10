/** The events as the two services hold them, and their text forms. */
module Events {
  import opened Collections

  datatype Status = Unspecified | Success | Error

  datatype Payload = Payload(rawLine: string, parsedIp: Option<string>, filterDecision: string, rejectReason: Option<string>)

  datatype Event = Event(sourceService: string, timestampUtc: string, status: Status, payload: Payload)

  datatype EventFilter = EventFilter(
    sourceService: Option<string>,
    status: Option<Status>,
    limit: Option<nat>,
    from: Option<string>,
    to: Option<string>,
    offset: Option<nat>)

  const NO_FILTER := EventFilter(None, None, None, None, None, None)

  function StatusToStr(status: Status): string {
    match status
    case Unspecified => "unspecified"
    case Success => "success"
    case Error => "error"
  }

  /** None is the exception thrown on any other text. */
  function StrToStatus(text: string): Option<Status> {
    if text == "unspecified" then Some(Unspecified)
    else if text == "success" then Some(Success)
    else if text == "error" then Some(Error)
    else None
  }

  /** The two directions are inverse: a text is accepted exactly when it is the text of the status it gives. */
  lemma StatusTextInverse(status: Status, text: string)
    ensures StrToStatus(text) == Some(status) <==> text == StatusToStr(status)
    ensures StatusToStr(status)
         == if status == Success then "success" else if status == Error then "error" else "unspecified"
  {
    assert "unspecified"[0] == 'u' && "success"[0] == 's' && "error"[0] == 'e';
  }
}

/** The messages on the wire, the conversions in both directions, and the server's validation. */
module Wire {
  import opened Collections
  import opened Events

  // proto3 enums are open: a field of enum type can hold any number, declared or not.
  const STATUS_UNSPECIFIED := 0
  const STATUS_SUCCESS := 1
  const STATUS_ERROR := 2
  const DECISION_UNSPECIFIED := 0
  const DECISION_ACCEPTED := 1
  const DECISION_REJECTED := 2

  datatype ProtoPayload = ProtoPayload(rawLine: string, parsedIp: Option<string>, filterDecision: int, rejectReason: Option<string>)

  /** An absent payload message reads as the default instance. */
  datatype ProtoEvent = ProtoEvent(sourceService: string, timestampUtc: string, status: int, payload: Option<ProtoPayload>) {
    function PayloadOrDefault(): ProtoPayload {
      if payload.Some? then payload.value else ProtoPayload("", None, DECISION_UNSPECIFIED, None)
    }
  }

  function ToProtoStatus(status: Status): int {
    match status
    case Unspecified => STATUS_UNSPECIFIED
    case Success => STATUS_SUCCESS
    case Error => STATUS_ERROR
  }

  function FromProtoStatus(status: int): Status {
    if status == STATUS_SUCCESS then Success else if status == STATUS_ERROR then Error else Unspecified
  }

  function ToProtoDecision(decision: string): int {
    if decision == "accepted" then DECISION_ACCEPTED
    else if decision == "rejected" then DECISION_REJECTED
    else DECISION_UNSPECIFIED
  }

  function FromProtoDecision(decision: int): string {
    if decision == DECISION_ACCEPTED then "accepted" else if decision == DECISION_REJECTED then "rejected" else ""
  }

  function ToProto(e: Event): ProtoEvent {
    ProtoEvent(e.sourceService, e.timestampUtc, ToProtoStatus(e.status),
               Some(ProtoPayload(e.payload.rawLine, e.payload.parsedIp, ToProtoDecision(e.payload.filterDecision), e.payload.rejectReason)))
  }

  function ToDto(p: ProtoEvent): Event {
    var payload := p.PayloadOrDefault();
    Event(p.sourceService, p.timestampUtc, FromProtoStatus(p.status),
          Payload(payload.rawLine, payload.parsedIp, FromProtoDecision(payload.filterDecision), payload.rejectReason))
  }

  lemma DecisionTextsDiffer()
    ensures "accepted" != "rejected" && "" != "accepted" && "" != "rejected"
  {
    assert "accepted"[0] != "rejected"[0];
  }

  /** An event survives the wire exactly when its decision is one the wire can carry. */
  lemma EventSurvivesWire(e: Event)
    ensures ToDto(ToProto(e)) == e <==> e.payload.filterDecision in {"accepted", "rejected", ""}
  {
    DecisionTextsDiffer();
  }

  // ---------------------------------------------------------------- validation

  datatype Verdict = Valid | UnknownService | NoTimestamp | BadStatus | NoRawLine | BadDecision | NoEvent

  function ValidateEvent(e: ProtoEvent): Verdict {
    if e.sourceService != "ipv4_filter" then UnknownService
    else if e.timestampUtc == "" then NoTimestamp
    else if e.status == STATUS_UNSPECIFIED then BadStatus
    else if e.PayloadOrDefault().rawLine == "" then NoRawLine
    else if e.PayloadOrDefault().filterDecision == DECISION_UNSPECIFIED then BadDecision
    else Valid
  }

  /** What a valid event is, field by field. */
  lemma ValidIff(e: ProtoEvent)
    ensures ValidateEvent(e) == Valid <==>
              && e.sourceService == "ipv4_filter" && e.timestampUtc != "" && e.status != 0
              && e.payload.Some? && e.payload.value.rawLine != "" && e.payload.value.filterDecision != 0
  {
  }

  /** The numbers the enums have on the wire. */
  lemma WireNumbers(status: Status, decision: string)
    ensures ToProtoStatus(Unspecified) == 0 && ToProtoStatus(Success) == 1 && ToProtoStatus(Error) == 2
    ensures ToProtoDecision(decision) == if decision == "accepted" then 1 else if decision == "rejected" then 2 else 0
    ensures forall n :: FromProtoStatus(n) == if n == 1 then Success else if n == 2 then Error else Unspecified
    ensures forall n :: FromProtoDecision(n) == if n == 1 then "accepted" else if n == 2 then "rejected" else ""
  {
  }

  /** The verdict on a unary request: the first event that fails decides, and an empty request is refused. */
  method ValidateAll(events: seq<ProtoEvent>) returns (verdict: Verdict)
    ensures events == [] ==> verdict == NoEvent
    ensures events != [] ==> (verdict == Valid <==> forall e :: e in events ==> ValidateEvent(e) == Valid)
    ensures events != [] && verdict != Valid ==>
              exists i :: 0 <= i < |events| && ValidateEvent(events[i]) == verdict
                       && forall j :: 0 <= j < i ==> ValidateEvent(events[j]) == Valid
  {
    if events == [] {
      return NoEvent;
    }
    for i := 0 to |events|
      invariant forall j :: 0 <= j < i ==> ValidateEvent(events[j]) == Valid
    {
      verdict := ValidateEvent(events[i]);
      if verdict != Valid {
        return;
      }
    }
    return Valid;
  }

  /** A stream message whose event field is absent is refused. */
  function ValidateMessage(message: Option<ProtoEvent>): Verdict {
    if message.None? then NoEvent else ValidateEvent(message.value)
  }

  predicate DeclaredEnums(e: ProtoEvent) {
    && e.status in {STATUS_UNSPECIFIED, STATUS_SUCCESS, STATUS_ERROR}
    && e.PayloadOrDefault().filterDecision in {DECISION_UNSPECIFIED, DECISION_ACCEPTED, DECISION_REJECTED}
  }

  // ---------------------------------------------------------------- filters on the wire

  const UINT32_MODULUS := 0x1_0000_0000

  /** How protobuf reads and prints timestamps. */
  datatype TimeText = TimeText(parse: string -> Option<int>, show: int -> string)

  datatype ProtoFilter = ProtoFilter(
    sourceService: Option<string>,
    status: Option<int>,
    limit: Option<nat>,
    from: Option<int>,
    to: Option<int>,
    offset: Option<nat>)

  /** A request without a filter message reads as one with no field set. */
  const DEFAULT_FILTER := ProtoFilter(None, None, None, None, None, None)

  /** Limit and offset are 32 bits wide on the wire. */
  function Truncated(n: Option<nat>): Option<nat> {
    if n.Some? then Some(n.value % UINT32_MODULUS) else None
  }

  /** An absent bound, or one that protobuf can read. */
  predicate Sendable(times: TimeText, text: Option<string>) {
    text.Some? ==> times.parse(text.value).Some?
  }

  function Sent(times: TimeText, text: Option<string>): Option<int> {
    if text.Some? then times.parse(text.value) else None
  }

  function Shown(times: TimeText, instant: Option<int>): Option<string> {
    if instant.Some? then Some(times.show(instant.value)) else None
  }

  /** None is the exception thrown for a bound that does not parse. */
  function ToProtoFilter(times: TimeText, f: EventFilter): Option<ProtoFilter> {
    if !Sendable(times, f.from) || !Sendable(times, f.to) then None
    else
      Some(ProtoFilter(f.sourceService, if f.status.Some? then Some(ToProtoStatus(f.status.value)) else None,
                       Truncated(f.limit), Sent(times, f.from), Sent(times, f.to), Truncated(f.offset)))
  }

  function FromProtoFilter(times: TimeText, p: ProtoFilter): EventFilter {
    EventFilter(p.sourceService, if p.status.Some? then Some(FromProtoStatus(p.status.value)) else None,
                p.limit, Shown(times, p.from), Shown(times, p.to), p.offset)
  }

  /** A filter as the server receives it. */
  function Received(times: TimeText, f: EventFilter): EventFilter {
    f.(limit := Truncated(f.limit), offset := Truncated(f.offset),
       from := Shown(times, Sent(times, f.from)), to := Shown(times, Sent(times, f.to)))
  }

  /** A bound that is printed as it was written. */
  predicate Settled(times: TimeText, text: Option<string>) {
    text.Some? ==> times.parse(text.value).Some? && times.show(times.parse(text.value).value) == text.value
  }

  /** A filter is sent exactly when protobuf can read its bounds; then only limit, offset and the text of the bounds
      can change, and nothing does exactly when the numbers fit 32 bits and the bounds are in normal form. */
  lemma FilterSurvivesWire(times: TimeText, f: EventFilter)
    ensures ToProtoFilter(times, f).Some? <==> Sendable(times, f.from) && Sendable(times, f.to)
    ensures ToProtoFilter(times, f).Some? ==> FromProtoFilter(times, ToProtoFilter(times, f).value) == Received(times, f)
    ensures ToProtoFilter(times, f).Some? && FromProtoFilter(times, ToProtoFilter(times, f).value) == f <==>
              && (f.limit.Some? ==> f.limit.value < 4294967296) && (f.offset.Some? ==> f.offset.value < 4294967296)
              && Settled(times, f.from) && Settled(times, f.to)
  {
    if f.status.Some? {
      assert FromProtoStatus(ToProtoStatus(f.status.value)) == f.status.value;
    }
  }
}
