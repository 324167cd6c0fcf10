/** The filtering client: events built from log entries, the choice of route, and the whole way to the store. */
module IngestClient {
  import opened Collections
  import opened Paging
  import opened Permutations
  import opened Events
  import opened Wire
  import opened Schema
  import opened Queries
  import opened EventStores
  import opened HistoryService
  import opened DottedQuad

  datatype RejectReason = NoReason | InvalidFormat | InvalidIPAddress | FilterRejected

  datatype LogEntry = LogEntry(rawLine: string, parsedIp: Option<Address>, reason: RejectReason)

  /** A log entry together with the clock text at the moment its event is built. */
  datatype Reading = Reading(entry: LogEntry, now: string)

  function ReasonText(reason: RejectReason): Option<string> {
    match reason
    case InvalidFormat => Some("Invalid Format")
    case InvalidIPAddress => Some("InvalidIPAddress")
    case FilterRejected => Some("FilterRejected")
    case NoReason => None
  }

  function DecisionText(reason: RejectReason): string {
    if reason.NoReason? then "accepted" else "rejected"
  }

  /** No event is built from an empty line. */
  function Build(service: string, r: Reading): Option<Event> {
    var entry := r.entry;
    if entry.rawLine == "" then None
    else
      Some(Event(service, r.now, if entry.parsedIp.Some? then Success else Error,
                 Payload(entry.rawLine,
                         if entry.parsedIp.Some? then Some(IPv4AddressToString(entry.parsedIp.value)) else None,
                         DecisionText(entry.reason), ReasonText(entry.reason))))
  }

  /** The events built from the non-empty lines, in order. */
  function Built(service: string, readings: seq<Reading>): seq<Event> {
    if readings == [] then []
    else
      (match Build(service, readings[0]) case Some(e) => [e] case None => []) + Built(service, readings[1..])
  }

  lemma {:induction false} BuiltConcat(service: string, a: seq<Reading>, b: seq<Reading>)
    ensures Built(service, a + b) == Built(service, a) + Built(service, b)
  {
    if a == [] {
      assert a + b == b;
    } else {
      assert (a + b)[0] == a[0] && (a + b)[1..] == a[1..] + b;
      BuiltConcat(service, a[1..], b);
    }
  }

  /** Exactly the positions of the non-empty lines, in order. */
  ghost predicate NonEmptyAt(readings: seq<Reading>, at: seq<nat>) {
    && (forall j, k :: 0 <= j < k < |at| ==> at[j] < at[k])
    && (forall i: nat :: i in at <==> i < |readings| && readings[i].entry.rawLine != "")
  }

  lemma AppendPosition(readings: seq<Reading>, at: seq<nat>)
    requires readings != [] && NonEmptyAt(readings[..|readings| - 1], at)
    ensures NonEmptyAt(readings, if readings[|readings| - 1].entry.rawLine == "" then at else at + [|readings| - 1])
  {
    var n := |readings| - 1;
    var before := readings[..n];
    forall i: nat ensures i in at <==> i < n && readings[i].entry.rawLine != "" {
      assert i < n ==> before[i] == readings[i];
    }
    forall k | 0 <= k < |at| ensures at[k] < n {
      assert at[k] in at;
    }
  }

  /** The k-th event is built from the k-th of these lines. */
  ghost predicate BuiltFrom(service: string, readings: seq<Reading>, at: seq<nat>, events: seq<Event>) {
    && NonEmptyAt(readings, at) && |events| == |at|
    && forall k :: 0 <= k < |at| ==> at[k] < |readings| && Build(service, readings[at[k]]) == Some(events[k])
  }

  lemma BuiltOneMore(service: string, readings: seq<Reading>, at: seq<nat>, events: seq<Event>)
    requires readings != [] && BuiltFrom(service, readings[..|readings| - 1], at, events)
    ensures var last := readings[|readings| - 1];
      if last.entry.rawLine == "" then BuiltFrom(service, readings, at, events)
      else BuiltFrom(service, readings, at + [|readings| - 1], events + [Build(service, last).value])
  {
    AppendPosition(readings, at);
  }

  lemma BuiltAppend(service: string, readings: seq<Reading>)
    requires readings != []
    ensures var last := readings[|readings| - 1];
      Built(service, readings) == Built(service, readings[..|readings| - 1])
                                  + if last.entry.rawLine == "" then [] else [Build(service, last).value]
  {
    var n := |readings| - 1;
    assert readings == readings[..n] + [readings[n]];
    BuiltConcat(service, readings[..n], [readings[n]]);
    assert [readings[n]][1..] == [];
  }

  /** The events built are those of the non-empty lines, one each and in order. */
  lemma {:induction false} BuiltPositions(service: string, readings: seq<Reading>) returns (at: seq<nat>)
    ensures BuiltFrom(service, readings, at, Built(service, readings))
  {
    if readings == [] {
      at := [];
    } else {
      var n := |readings| - 1;
      at := BuiltPositions(service, readings[..n]);
      BuiltOneMore(service, readings, at, Built(service, readings[..n]));
      BuiltAppend(service, readings);
      if readings[n].entry.rawLine != "" {
        at := at + [n];
      }
    }
  }

  /** The log entry an event was built from. */
  function EntryOf(e: Event): LogEntry {
    LogEntry(e.payload.rawLine,
             match e.payload.parsedIp
             case Some(text) => (match ParseQuad(text) case Some(a) => if 0 <= a < 0x1_0000_0000 then Some(a) else None case None => None)
             case None => None,
             match e.payload.rejectReason
             case None => NoReason
             case Some(text) =>
               if text == "Invalid Format" then InvalidFormat
               else if text == "InvalidIPAddress" then InvalidIPAddress
               else FilterRejected)
  }

  /** A built event says everything its log entry said, and its status and decision say whether there was an
      address and whether there was no reason to reject. */
  lemma BuildKeepsEntry(service: string, r: Reading)
    requires Build(service, r).Some?
    ensures var e := Build(service, r).value;
      && EntryOf(e) == r.entry && e.timestampUtc == r.now && e.sourceService == service
      && (e.status.Success? <==> r.entry.parsedIp.Some?)
      && e.payload.filterDecision == (if r.entry.reason == NoReason then "accepted" else "rejected")
      && e.payload.rejectReason == (if r.entry.reason == InvalidFormat then Some("Invalid Format")
                                    else if r.entry.reason == InvalidIPAddress then Some("InvalidIPAddress")
                                    else if r.entry.reason == FilterRejected then Some("FilterRejected")
                                    else None)
      && e.payload.parsedIp == (if r.entry.parsedIp.Some? then Some(IPv4AddressToString(r.entry.parsedIp.value)) else None)
  {
    if r.entry.parsedIp.Some? {
      QuadRoundTrip(r.entry.parsedIp.value);
    }
    DecisionTextsDiffer();
    assert "Invalid Format"[0] == 'I' && "InvalidIPAddress"[7] == 'I' && "Invalid Format"[7] == ' ' && "FilterRejected"[0] == 'F';
  }

  // ---------------------------------------------------------------- what a built event is good for

  /** A built event passes the server's validation exactly when the configured service name is the one the
      server knows and the clock printed something. */
  lemma BuiltIsValidIff(service: string, r: Reading)
    requires Build(service, r).Some?
    ensures ValidateEvent(ToProto(Build(service, r).value)) == Valid <==> service == "ipv4_filter" && r.now != ""
  {
    DecisionTextsDiffer();
  }

  /** It comes out of the wire as it went in. */
  lemma BuiltSurvivesWire(service: string, r: Reading)
    requires Build(service, r).Some?
    ensures ToDto(ToProto(Build(service, r).value)) == Build(service, r).value
  {
    EventSurvivesWire(Build(service, r).value);
  }

  /** The database reads every clock text and every dotted quad. */
  ghost predicate Legible(d: Dialect, readings: seq<Reading>) {
    && (forall i :: 0 <= i < |readings| ==> readings[i].now != "" && d.parseTime(readings[i].now).Some?)
    && (forall a: Address {:trigger IPv4AddressToString(a)} :: d.parseInet(IPv4AddressToString(a)).Some?)
  }

  predicate Deliverable(e: Event) {
    ValidateEvent(ToProto(e)) == Valid && ToDto(ToProto(e)) == e
  }

  predicate AllDeliverable(events: seq<Event>) {
    forall i :: 0 <= i < |events| ==> Deliverable(events[i])
  }

  lemma BuiltIsInsertable(d: Dialect, r: Reading)
    requires Build("ipv4_filter", r).Some? && Legible(d, [r])
    ensures Insertable(d, Build("ipv4_filter", r).value)
  {
    assert [r][0].now != "" && d.parseTime([r][0].now).Some?;
    if r.entry.parsedIp.Some? {
      assert d.parseInet(IPv4AddressToString(r.entry.parsedIp.value)).Some?;
    }
  }

  lemma {:induction false} BuiltAreGood(d: Dialect, readings: seq<Reading>)
    requires Legible(d, readings)
    ensures AllDeliverable(Built("ipv4_filter", readings)) && AllInsertable(d, Built("ipv4_filter", readings))
  {
    if readings != [] {
      assert Legible(d, [readings[0]]);
      BuiltAreGood(d, readings[1..]);
      if Build("ipv4_filter", readings[0]).Some? {
        BuiltIsValidIff("ipv4_filter", readings[0]);
        BuiltSurvivesWire("ipv4_filter", readings[0]);
        BuiltIsInsertable(d, readings[0]);
      }
    }
  }

  /** Whatever the clock and the service name, the wire brings built events back unchanged. */
  lemma {:induction false} BuiltDelivered(service: string, readings: seq<Reading>)
    ensures Dtos(Wrapped(Protos(Built(service, readings)))) == Built(service, readings)
  {
    var events := Built(service, readings);
    forall i | 0 <= i < |events| ensures ToDto(ToProto(events[i])) == events[i] {
      BuiltDecision(service, readings, i);
      EventSurvivesWire(events[i]);
    }
    forall i | 0 <= i < |events| ensures Dtos(Wrapped(Protos(events)))[i] == events[i] {
      assert ToDto(ToProto(events[i])) == events[i];
    }
  }

  lemma {:induction false} BuiltValidity(service: string, readings: seq<Reading>, i: nat)
    requires i < |Built(service, readings)|
    ensures service != "ipv4_filter" ==> ValidateEvent(ToProto(Built(service, readings)[i])) != Valid
  {
    var first := Build(service, readings[0]);
    if first.Some? {
      BuiltIsValidIff(service, readings[0]);
    }
    if first.None? || i > 0 {
      BuiltValidity(service, readings[1..], if first.None? then i else i - 1);
    }
  }

  lemma {:induction false} BuiltDecision(service: string, readings: seq<Reading>, i: nat)
    requires i < |Built(service, readings)|
    ensures Built(service, readings)[i].payload.filterDecision in {"accepted", "rejected"}
  {
    var first := Build(service, readings[0]);
    if first.Some? && i > 0 {
      BuiltDecision(service, readings[1..], i - 1);
    } else if first.None? {
      BuiltDecision(service, readings[1..], i);
    }
  }

  lemma BuiltEmptyIff(service: string, readings: seq<Reading>)
    ensures Built(service, readings) == [] <==> forall i :: 0 <= i < |readings| ==> readings[i].entry.rawLine == ""
  {
    var at := BuiltPositions(service, readings);
    if at != [] {
      assert at[0] in at;
    }
  }

  /** All that matters about built events on their way to the store. */
  lemma BuiltSummary(service: string, d: Dialect, readings: seq<Reading>)
    ensures var events := Built(service, readings);
      && Dtos(Wrapped(Protos(events)))[..|events|] == events
      && (service == "ipv4_filter" && Legible(d, readings) ==> AllDeliverable(events) && AllInsertable(d, events))
      && (service != "ipv4_filter" && events != [] ==> ValidateEvent(ToProto(events[0])) != Valid)
  {
    BuiltDelivered(service, readings);
    if service == "ipv4_filter" && Legible(d, readings) {
      BuiltAreGood(d, readings);
    }
    if Built(service, readings) != [] {
      BuiltValidity(service, readings, 0);
    }
  }

  // ---------------------------------------------------------------- sending

  const STREAM_THRESHOLD: nat := 10_000

  function Protos(events: seq<Event>): (r: seq<ProtoEvent>)
    ensures |r| == |events| && forall i :: 0 <= i < |events| ==> r[i] == ToProto(events[i])
  {
    Map(events, ToProto)
  }

  /** What the server makes of sent events is what the client had. */
  lemma DeliveredAsBuilt(events: seq<Event>)
    requires AllDeliverable(events)
    ensures Dtos(Wrapped(Protos(events))) == events
    ensures forall i :: 0 <= i < |events| ==> ValidateEvent(Protos(events)[i]) == Valid
  {
    forall i | 0 <= i < |events| ensures Dtos(Wrapped(Protos(events)))[i] == events[i] {
      assert Deliverable(events[i]);
    }
    assert forall i :: 0 <= i < |events| ==> Deliverable(events[i]);
  }

  /** Everything outside the two programs during one save: what goes wrong in the unary save and in the k-th
      save of a stream, when the server sees the stream cancelled, how many stream writes succeed, how many of the
      written messages the server can read before the call ends, and whether its answer arrives in time. */
  datatype Conditions = Conditions(fault: Fault, faults: nat -> Fault, cancelled: set<nat>, writes: nat, delivered: nat, answered: bool)

  /** How many of `n` events the server can read from the stream. */
  function Readable(c: Conditions, n: nat): (r: nat)
    ensures r <= n && r <= c.writes && r <= c.delivered && (r == n || r == c.writes || r == c.delivered)
  {
    var written := if c.writes < n then c.writes else n;
    if c.delivered < written then c.delivered else written
  }

  /** The call itself goes through. */
  predicate Carried(c: Conditions, n: nat) {
    c.answered && (n >= STREAM_THRESHOLD ==> Readable(c, n) == n)
  }

  /** Nothing goes wrong on the server's side while `n` events are saved. */
  ghost predicate Smooth(c: Conditions, w: World, n: nat) {
    c.fault.NoFault? && c.cancelled == {} && w.faults == c.faults && Reliable(w, n)
  }

  /** How the server's stream ends, given what it can read. */
  function ServerEnd(w: World, events: seq<Event>, c: Conditions): StreamEnd {
    RunAll(w, Wrapped(Protos(events[..Readable(c, |events|)])), c.cancelled)
  }

  /** What the two hypotheses above ask for, written out. */
  lemma NothingWrong(d: Dialect, readings: seq<Reading>, c: Conditions, w: World, n: nat)
    ensures Legible(d, readings) <==>
              && (forall r :: r in readings ==> r.now != "" && d.parseTime(r.now).Some?)
              && (forall a: Address {:trigger IPv4AddressToString(a)} :: d.parseInet(IPv4AddressToString(a)).Some?)
    ensures w.faults == c.faults ==>
              (Smooth(c, w, n) <==>
                 && c.fault == NoFault && c.cancelled == {} && (forall k :: c.faults(k) == NoFault)
                 && w.nextId + n <= 2147483648)
    ensures Carried(c, n) <==> c.answered && (n < 10_000 || (c.writes >= n && c.delivered >= n))
  {
    assert forall i :: 0 <= i < |readings| ==> readings[i] in readings;
    if Smooth(c, w, n) {
      assert forall k :: w.faults(k).NoFault? ==> c.faults(k) == NoFault;
    }
    if forall k :: c.faults(k) == NoFault {
      assert w.faults == c.faults ==> forall k :: w.faults(k) == NoFault;
    }
  }

  method FillRequest(events: seq<Event>) returns (request: seq<ProtoEvent>)
    ensures request == Protos(events)
  {
    request := [];
    for i := 0 to |events|
      invariant request == Protos(events)[..i]
    {
      request := request + [ToProto(events[i])];
    }
  }

  /** Writes the events to the stream until done or until a write fails. */
  method WriteAll(events: seq<Event>, writes: nat) returns (stream: seq<Option<ProtoEvent>>, written: bool)
    ensures |stream| == (if writes < |events| then writes else |events|) && stream == Wrapped(Protos(events))[..|stream|]
    ensures written <==> writes >= |events|
  {
    stream := [];
    for i := 0 to |events|
      invariant |stream| == i <= writes && stream == Wrapped(Protos(events))[..i]
    {
      if i >= writes {
        return stream, false;
      }
      stream := stream + [Some(ToProto(events[i]))];
    }
    return stream, true;
  }

  /** The callback's loop over every batch the log reader delivers. */
  method BuildAll(service: string, batches: seq<seq<Reading>>) returns (events: seq<Event>)
    ensures events == Built(service, Flatten(batches))
    ensures exists at :: BuiltFrom(service, Flatten(batches), at, events)
  {
    events := [];
    for i := 0 to |batches|
      invariant events == Built(service, Flatten(batches[..i]))
    {
      assert batches[..i + 1][..i] == batches[..i];
      var batch := batches[i];
      assert Flatten(batches[..i]) + batch[..0] == Flatten(batches[..i]);
      for j := 0 to |batch|
        invariant events == Built(service, Flatten(batches[..i]) + batch[..j])
      {
        var event := Build(service, batch[j]);
        if event.Some? {
          events := events + [event.value];
        }
        BuiltConcat(service, Flatten(batches[..i]) + batch[..j], [batch[j]]);
        assert Flatten(batches[..i]) + batch[..j] + [batch[j]] == Flatten(batches[..i]) + batch[..j + 1];
        assert [batch[j]][1..] == [];
      }
      assert batch[..|batch|] == batch;
    }
    assert batches[..|batches|] == batches;
    ghost var at := BuiltPositions(service, Flatten(batches));
  }

  /** Events, nullopt, or the exception for a bound that cannot be read. */
  datatype Fetched = Got(events: seq<Event>) | Nothing | Unsendable

  /** The row a log entry ends up as. */
  predicate StoredFrom(d: Dialect, r: Reading, row: Saved) {
    && row.event.source == "ipv4_filter" && Some(row.event.time) == d.parseTime(r.now)
    && row.event.status == (if r.entry.parsedIp.Some? then "success" else "error")
    && row.payload.rawLine == r.entry.rawLine
    && row.payload.ip == (if r.entry.parsedIp.Some? then d.parseInet(IPv4AddressToString(r.entry.parsedIp.value)) else None)
    && row.payload.decision == (if r.entry.reason == NoReason then "accepted" else "rejected")
    && row.payload.reason == ReasonText(r.entry.reason)
  }

  lemma BuiltIsStoredFrom(d: Dialect, r: Reading)
    requires Build("ipv4_filter", r).Some? && Insertable(d, Build("ipv4_filter", r).value)
    ensures StoredFrom(d, r, SavedOf(d, Build("ipv4_filter", r).value))
  {
    BuildKeepsEntry("ipv4_filter", r);
    StatusTextInverse(Success, "success");
    StatusTextInverse(Error, "error");
  }

  /** The log grew by one row per non-empty line, in the order of the lines. */
  ghost predicate StoredLines(d: Dialect, readings: seq<Reading>, at: seq<nat>, before: seq<Saved>, after: seq<Saved>) {
    && NonEmptyAt(readings, at)
    && |after| == |before| + |at| && after[..|before|] == before
    && forall k :: 0 <= k < |at| ==> at[k] < |readings| && StoredFrom(d, readings[at[k]], after[|before| + k])
  }

  lemma GainedRows(service: string, d: Dialect, readings: seq<Reading>, before: seq<Saved>, after: seq<Saved>)
    requires service == "ipv4_filter" && AllInsertable(d, Built(service, readings))
    requires after == before + SavedAll(d, Built(service, readings))
    ensures exists at :: StoredLines(d, readings, at, before, after)
  {
    var events := Built(service, readings);
    var at := BuiltPositions(service, readings);
    SavedAllAt(d, events);
    forall k | 0 <= k < |at| ensures at[k] < |readings| && StoredFrom(d, readings[at[k]], after[|before| + k]) {
      assert Build(service, readings[at[k]]) == Some(events[k]) && Insertable(d, events[k]);
      BuiltIsStoredFrom(d, readings[at[k]]);
      assert after[|before| + k] == SavedAll(d, events)[k];
    }
    assert StoredLines(d, readings, at, before, after);
  }

  class IngestClient {
    const server: HistoryServer
    const service: string

    constructor (server: HistoryServer, service: string)
      ensures this.server == server && this.service == service
    {
      this.server, this.service := server, service;
    }

    /** The store gained the first `n` of the events as the server decodes them. */
    ghost predicate GainedFront(before: seq<Saved>, events: seq<Event>, n: nat)
      reads server.store
    {
      n <= |events| && server.Gained(before, Dtos(Wrapped(Protos(events)))[..n])
    }

    /** Querying: the filter cannot be sent exactly when a bound cannot be read; otherwise the server answers the
        filter it receives, and the events arrive as the database shows them. */
    method GetEvents(filter: EventFilter, plan: seq<int>, fails: bool, answered: bool) returns (result: Fetched)
      requires server.store.Valid()
      requires var bound := Bound(server.store.dialect, Received(server.times, filter));
        bound.Some? ==> SortedPlan(server.store.tables, bound.value.criteria, plan)
      ensures result.Unsendable? <==> ToProtoFilter(server.times, filter).None?
      ensures result.Unsendable? <==> !(Sendable(server.times, filter.from) && Sendable(server.times, filter.to))
      ensures !result.Unsendable? ==>
                (result.Got? <==>
                  && answered && !fails
                  && (filter.from.Some? ==>
                        server.store.dialect.parseTime(server.times.show(server.times.parse(filter.from.value).value)).Some?)
                  && (filter.to.Some? ==>
                        server.store.dialect.parseTime(server.times.show(server.times.parse(filter.to.value).value)).Some?))
      ensures result.Got? ==>
                && Delivers(server.store.dialect, server.store.Log(), Received(server.times, filter), result.events)
                && (filter.status.Some? ==> forall e :: e in result.events ==> e.status == filter.status.value)
                && (filter.sourceService.Some? ==> forall e :: e in result.events ==> e.sourceService == filter.sourceService.value)
                && (filter.limit.Some? ==> |result.events| <= filter.limit.value)
                && (filter == NO_FILTER && |server.store.Log()| <= 1_000_000_000 ==> |result.events| == |server.store.Log()|)
    {
      FilterSurvivesWire(server.times, filter);
      var request := ToProtoFilter(server.times, filter);
      if request.None? {
        return Unsendable;
      }
      var success, protos := server.GetEvents(request, plan, fails);
      if !answered || !success {
        return Nothing;
      }
      ReportsDeliver(server.store.dialect, server.store.Log(), FilterOf(server.times, request), protos);
      var events := DecodeAll(protos);
      DeliveredAsAsked(server.store.dialect, server.store.Log(), server.times, filter, events);
      return Got(events);
    }

    /** The use case: build an event from every non-empty line of every batch, then save them all in one go.
        If it reports success, the store gained exactly those events, in order; and when nothing goes wrong on the
        server's side and the service name is the one the server knows, it reports success exactly when there
        were any and the call went through. */
    method Execute(batches: seq<seq<Reading>>, c: Conditions) returns (ok: bool)
      requires server.store.Valid()
      modifies server.store
      ensures server.store.Valid()
      ensures ok ==>
                Built(service, Flatten(batches)) != [] && server.Gained(old(server.store.Log()), Built(service, Flatten(batches)))
      ensures Built(service, Flatten(batches)) == [] ==> !ok && server.store.Log() == old(server.store.Log())
      ensures ok ==>
                exists at :: StoredLines(server.store.dialect, Flatten(batches), at, old(server.store.Log()), server.store.Log())
      ensures service == "ipv4_filter" && Legible(server.store.dialect, Flatten(batches))
                && Smooth(c, World(server.store.dialect, old(server.store.nextId), c.faults), |Built(service, Flatten(batches))|)
              ==> (ok <==>
                     && (exists i :: 0 <= i < |Flatten(batches)| && Flatten(batches)[i].entry.rawLine != "")
                     && Carried(c, |Built(service, Flatten(batches))|))
      ensures service != "ipv4_filter" ==> !ok && server.store.Log() == old(server.store.Log())
    {
      var events := BuildAll(service, batches);
      ok := SaveBuilt(events, Flatten(batches), c);
    }

    /** The last step of the use case: the events built go to the server. */
    method SaveBuilt(events: seq<Event>, ghost readings: seq<Reading>, c: Conditions) returns (ok: bool)
      requires server.store.Valid() && events == Built(service, readings)
      modifies server.store
      ensures server.store.Valid()
      ensures ok ==> events != [] && server.Gained(old(server.store.Log()), events)
      ensures events == [] ==> !ok && server.store.Log() == old(server.store.Log())
      ensures ok ==> exists at :: StoredLines(server.store.dialect, readings, at, old(server.store.Log()), server.store.Log())
      ensures service == "ipv4_filter" && Legible(server.store.dialect, readings)
                && Smooth(c, World(server.store.dialect, old(server.store.nextId), c.faults), |events|)
              ==> (ok <==> events != [] && Carried(c, |events|))
      ensures service != "ipv4_filter" ==> !ok && server.store.Log() == old(server.store.Log())
      ensures events == [] <==> forall i :: 0 <= i < |readings| ==> readings[i].entry.rawLine == ""
    {
      BuiltSummary(service, server.store.dialect, readings);
      BuiltEmptyIff(service, readings);
      ghost var before := server.store.Log();
      ok := SaveBatch(events, c);
      if ok {
        GainedRows(service, server.store.dialect, readings, before, server.store.Log());
      }
    }

    /** On either route: success means all events were gained.  A failed unary save gained nothing unless only its
        answer was lost; a failed stream gained a front of the events, and that is whole batches exactly when the
        server did not take the stream for finished, or what it read makes up whole batches. */
    method SaveBatch(events: seq<Event>, c: Conditions) returns (ok: bool)
      requires server.store.Valid()
      modifies server.store
      ensures server.store.Valid()
      ensures events != [] && ValidateEvent(ToProto(events[0])) != Valid ==> !ok && server.store.Log() == old(server.store.Log())
      ensures ok ==> events != [] && c.answered && GainedFront(old(server.store.Log()), events, |events|)
      ensures !ok && |events| < 10_000 ==>
                || server.store.Log() == old(server.store.Log())
                || (!c.answered && GainedFront(old(server.store.Log()), events, |events|))
      ensures |events| >= 10_000 ==>
                var end := ServerEnd(World(server.store.dialect, old(server.store.nextId), c.faults), events, c);
                var n := |end.stored|;
                && GainedFront(old(server.store.Log()), events, n)
                && (ok <==> Carried(c, |events|) && end.exit.Done?)
                && (n % 1000 == 0 <==> !end.exit.Done? || Readable(c, |events|) % 1000 == 0)
      ensures Smooth(c, World(server.store.dialect, old(server.store.nextId), c.faults), |events|)
                && AllDeliverable(events) && AllInsertable(server.store.dialect, events)
              ==> (ok <==> events != [] && Carried(c, |events|))
                  && GainedFront(old(server.store.Log()), events,
                                 if |events| < STREAM_THRESHOLD then |events| else Readable(c, |events|))
    {
      if |events| < STREAM_THRESHOLD {
        ok := SaveBatchUnary(events, c.fault, c.answered);
        return;
      }
      ok := SaveBatchStream(events, c);
    }

    /** The unary request: all or nothing. */
    method SaveBatchUnary(events: seq<Event>, fault: Fault, answered: bool) returns (ok: bool)
      requires server.store.Valid()
      modifies server.store
      ensures server.store.Valid()
      ensures ok ==> events != [] && answered && GainedFront(old(server.store.Log()), events, |events|)
      ensures !ok ==>
                || server.store.Log() == old(server.store.Log())
                || (!answered && GainedFront(old(server.store.Log()), events, |events|))
      ensures events == [] ==> GainedFront(old(server.store.Log()), events, 0)
      ensures events != [] && ValidateEvent(ToProto(events[0])) != Valid ==> !ok && server.store.Log() == old(server.store.Log())
      ensures events != [] && AllDeliverable(events) ==>
                var stored := Outcome(server.store.dialect, old(server.store.nextId), events, fault).Stored?;
                (ok <==> stored && answered) && (stored ==> GainedFront(old(server.store.Log()), events, |events|))
    {
      ghost var before := server.store.Log();
      ghost var sent := Dtos(Wrapped(Protos(events)));
      var request := FillRequest(events);
      if AllDeliverable(events) {
        DeliveredAsBuilt(events);
      }
      var status, success := server.SaveEvent(request, fault);
      assert sent[..|events|] == sent && sent[..0] == [] && before + [] == before;
      assert events != [] ==> request[0] == ToProto(events[0]);
      return answered && status.OK? && success;
    }

    /** The stream: a write that succeeds only hands its message over; the server reads what is delivered before the
        call ends, and takes the end for the end of the stream. */
    method SaveBatchStream(events: seq<Event>, c: Conditions) returns (ok: bool)
      requires server.store.Valid() && |events| >= STREAM_THRESHOLD
      modifies server.store
      ensures server.store.Valid()
      ensures ValidateEvent(ToProto(events[0])) != Valid ==> !ok && server.store.Log() == old(server.store.Log())
      ensures ok ==> GainedFront(old(server.store.Log()), events, |events|)
      ensures var end := ServerEnd(World(server.store.dialect, old(server.store.nextId), c.faults), events, c);
        var n := |end.stored|;
        && GainedFront(old(server.store.Log()), events, n)
        && (ok <==> Carried(c, |events|) && end.exit.Done?)
        && (n % BATCH_SIZE == 0 <==> !end.exit.Done? || Readable(c, |events|) % BATCH_SIZE == 0)
      ensures Smooth(c, World(server.store.dialect, old(server.store.nextId), c.faults), |events|)
                && AllDeliverable(events) && AllInsertable(server.store.dialect, events)
              ==> (ok <==> Carried(c, |events|)) && GainedFront(old(server.store.Log()), events, Readable(c, |events|))
    {
      ghost var w := World(server.store.dialect, server.store.nextId, c.faults);
      var stream, written := WriteAll(events, c.writes);
      var read := if c.delivered < |stream| then stream[..c.delivered] else stream;
      assert read == Wrapped(Protos(events))[..Readable(c, |events|)];
      FrontSent(events, Readable(c, |events|));
      StreamRouteStores(w, events, c);
      if Smooth(c, w, |events|) && AllDeliverable(events) && AllInsertable(w.dialect, events) {
        StreamRouteSucceeds(w, events, c);
      }
      var status, success, exit, total, saved := server.SaveEventsStream(read, c.cancelled, c.faults);
      assert saved == |ServerEnd(w, events, c).stored|;
      return written && c.delivered >= |events| && c.answered && status.OK? && success;
    }
  }

  /** Events read from the store come back over the wire unchanged. */
  lemma ReadSurvivesWire(d: Dialect, rows: seq<Saved>, found: seq<Event>)
    requires ReadBack(d, rows, found)
    ensures Map(Map(found, ToProto), ToDto) == found
  {
    forall i | 0 <= i < |found| ensures ToDto(ToProto(found[i])) == found[i] {
      EventSurvivesWire(found[i]);
    }
  }

  /** `events` is what the database may answer to `filter`, read back. */
  ghost predicate Delivers(d: Dialect, log: seq<Saved>, filter: EventFilter, events: seq<Event>) {
    Bound(d, filter).Some? &&
    exists rows ::
      Answer(log, Bound(d, filter).value, rows) && Fulfils(d, log, filter, rows) && ReadBack(d, rows, events)
  }

  lemma DeliveredRows(d: Dialect, log: seq<Saved>, times: TimeText, filter: EventFilter, rows: seq<Saved>, events: seq<Event>)
    requires Fulfils(d, log, Received(times, filter), rows) && ReadBack(d, rows, events)
    ensures forall e :: e in events ==>
              && (filter.status.Some? ==> e.status == filter.status.value)
              && (filter.sourceService.Some? ==> e.sourceService == filter.sourceService.value)
    ensures filter.limit.Some? ==> |events| <= filter.limit.value
  {
    ReturnedAsAsked(d, log, Received(times, filter), rows, events);
  }

  lemma DeliveredAsAsked(d: Dialect, log: seq<Saved>, times: TimeText, filter: EventFilter, events: seq<Event>)
    requires Delivers(d, log, Received(times, filter), events)
    ensures forall e :: e in events ==>
              && (filter.status.Some? ==> e.status == filter.status.value)
              && (filter.sourceService.Some? ==> e.sourceService == filter.sourceService.value)
    ensures filter.limit.Some? ==> |events| <= filter.limit.value
    ensures filter == NO_FILTER && |log| <= 1_000_000_000 ==> |events| == |log|
  {
    if filter == NO_FILTER && |log| <= 1_000_000_000 {
      DeliveredAll(d, log, events);
    }
    var received := Received(times, filter);
    var rows :| Answer(log, Bound(d, received).value, rows) && Fulfils(d, log, received, rows) && ReadBack(d, rows, events);
    DeliveredRows(d, log, times, filter, rows, events);
  }

  lemma DeliveredAll(d: Dialect, log: seq<Saved>, events: seq<Event>)
    requires Delivers(d, log, NO_FILTER, events) && |log| <= 1_000_000_000
    ensures |events| == |log|
  {
    var rows :| Answer(log, Bound(d, NO_FILTER).value, rows) && Fulfils(d, log, NO_FILTER, rows) && ReadBack(d, rows, events);
    AskedForAll(d, log);
  }

  lemma ReportsDeliver(d: Dialect, log: seq<Saved>, filter: EventFilter, protos: seq<ProtoEvent>)
    requires Reports(d, log, filter, protos)
    ensures Delivers(d, log, filter, Map(protos, ToDto))
  {
    var rows, found :|
      && Answer(log, Bound(d, filter).value, rows) && Fulfils(d, log, filter, rows)
      && ReadBack(d, rows, found) && protos == Map(found, ToProto);
    ReadSurvivesWire(d, rows, found);
  }

  method DecodeAll(protos: seq<ProtoEvent>) returns (events: seq<Event>)
    ensures events == Map(protos, ToDto)
  {
    events := [];
    for i := 0 to |protos|
      invariant events == Map(protos, ToDto)[..i]
    {
      events := events + [ToDto(protos[i])];
    }
  }

  lemma FrontSent(events: seq<Event>, n: nat)
    requires n <= |events|
    ensures Wrapped(Protos(events))[..n] == Wrapped(Protos(events[..n]))
  {
  }

  lemma FrontOfEvents(events: seq<Event>, n: nat, k: nat)
    requires k <= n <= |events|
    ensures Dtos(Wrapped(Protos(events[..n])))[..k] == Dtos(Wrapped(Protos(events)))[..k]
  {
  }

  /** The streaming route on the messages the server reads: what it stores. */
  lemma StreamRouteStores(w: World, events: seq<Event>, c: Conditions)
    ensures var end, read := ServerEnd(w, events, c), Readable(c, |events|);
      && |end.stored| <= read && end.stored == Dtos(Wrapped(Protos(events)))[..|end.stored|]
      && (end.exit.Done? ==> |end.stored| == read)
      && (|end.stored| % BATCH_SIZE == 0 <==> !end.exit.Done? || read % BATCH_SIZE == 0)
      && (read > 0 && ValidateEvent(ToProto(events[0])) != Valid ==> end.exit.BadEvent? && end.stored == [])
  {
    var read := Readable(c, |events|);
    var incoming := Wrapped(Protos(events[..read]));
    StreamStoresPrefix(w, incoming, c.cancelled);
    DoneReadsAll(w, incoming, c.cancelled, 0, [], []);
    FrontOfEvents(events, read, |ServerEnd(w, events, c).stored|);
  }

  /** And when it is sure to succeed: then everything the server reads is stored. */
  lemma StreamRouteSucceeds(w: World, events: seq<Event>, c: Conditions)
    requires Smooth(c, w, |events|) && AllDeliverable(events) && AllInsertable(w.dialect, events)
    ensures ServerEnd(w, events, c).exit.Done?
  {
    var read := events[..Readable(c, |events|)];
    DeliveredAsBuilt(read);
    assert AllValid(Wrapped(Protos(read)));
    assert AllInsertable(w.dialect, read);
    ReliableStreamSucceedsIff(w, Wrapped(Protos(read)), c.cancelled);
  }
}
