/** The two tables, what their constraints accept, and how the tables represent a sequence of saved events. */
module Schema {
  import opened Collections
  import opened Permutations
  import opened Events
  import opened Wire

  /** How the database reads and prints timestamps and addresses: partial, with a normal form. */
  datatype Dialect = Dialect(parseTime: string -> Option<int>, showTime: int -> string, parseInet: string -> Option<string>)

  datatype EventRow = EventRow(source: string, time: int, status: string)
  datatype PayloadRow = PayloadRow(rawLine: string, ip: Option<string>, decision: string, reason: Option<string>)
  datatype Saved = Saved(event: EventRow, payload: PayloadRow)

  /** The payloads table has `event_id` as its primary key, so at most one row per event. */
  datatype Tables = Tables(events: map<int, EventRow>, payloads: map<int, PayloadRow>)

  // ---------------------------------------------------------------- CHECK constraints and input syntax

  predicate EventChecks(e: Event) {
    && e.sourceService in {"calculator", "ipv4_filter"} && |e.sourceService| <= 20
    && StatusToStr(e.status) in {"success", "error"} && |StatusToStr(e.status)| <= 10
  }

  predicate PayloadChecks(p: Payload) {
    p.filterDecision in {"accepted", "rejected"} && |p.filterDecision| <= 10
  }

  predicate EventInserts(d: Dialect, e: Event) {
    EventChecks(e) && d.parseTime(e.timestampUtc).Some?
  }

  predicate PayloadInserts(d: Dialect, p: Payload) {
    PayloadChecks(p) && (p.parsedIp.Some? ==> d.parseInet(p.parsedIp.value).Some?)
  }

  predicate Insertable(d: Dialect, e: Event) {
    EventInserts(d, e) && PayloadInserts(d, e.payload)
  }

  predicate AllInsertable(d: Dialect, events: seq<Event>) {
    forall i :: 0 <= i < |events| ==> Insertable(d, events[i])
  }

  /** What the two tables accept, written out. */
  lemma InsertableIff(d: Dialect, e: Event)
    ensures Insertable(d, e) <==>
              && (e.sourceService == "calculator" || e.sourceService == "ipv4_filter")
              && (e.status == Success || e.status == Error)
              && (e.payload.filterDecision == "accepted" || e.payload.filterDecision == "rejected")
              && d.parseTime(e.timestampUtc).Some?
              && (e.payload.parsedIp.Some? ==> d.parseInet(e.payload.parsedIp.value).Some?)
  {
    StatusTextInverse(Unspecified, "success");
    StatusTextInverse(Unspecified, "error");
    StatusTextInverse(e.status, StatusToStr(e.status));
  }

  /** Undeclared enum numbers pass the server's validation and fail the schema; declared ones never do. */
  lemma ValidatedMeetsChecks(p: ProtoEvent)
    requires ValidateEvent(p) == Valid
    ensures EventChecks(ToDto(p)) && PayloadChecks(ToDto(p).payload) <==> DeclaredEnums(p)
  {
    StatusTextInverse(Unspecified, "success");
    StatusTextInverse(Unspecified, "error");
    DecisionTextsDiffer();
  }

  /** So a validated event with declared enums is refused only for the text of its timestamp or its address. */
  lemma ValidatedRefusedOnlyForText(d: Dialect, p: ProtoEvent)
    requires ValidateEvent(p) == Valid
    ensures Insertable(d, ToDto(p)) <==>
              && DeclaredEnums(p)
              && d.parseTime(p.timestampUtc).Some?
              && (p.PayloadOrDefault().parsedIp.Some? ==> d.parseInet(p.PayloadOrDefault().parsedIp.value).Some?)
  {
    ValidatedMeetsChecks(p);
  }

  // ---------------------------------------------------------------- rows

  function EventRowOf(d: Dialect, e: Event): EventRow
    requires EventInserts(d, e)
  {
    EventRow(e.sourceService, d.parseTime(e.timestampUtc).value, StatusToStr(e.status))
  }

  function PayloadRowOf(d: Dialect, p: Payload): PayloadRow
    requires PayloadInserts(d, p)
  {
    PayloadRow(p.rawLine, if p.parsedIp.Some? then d.parseInet(p.parsedIp.value) else None, p.filterDecision, p.rejectReason)
  }

  function SavedOf(d: Dialect, e: Event): Saved
    requires Insertable(d, e)
  {
    Saved(EventRowOf(d, e), PayloadRowOf(d, e.payload))
  }

  /** The saved form of a sequence of events: normalised timestamps and addresses, everything else as given. */
  function SavedAll(d: Dialect, events: seq<Event>): seq<Saved>
    requires AllInsertable(d, events)
  {
    if events == [] then [] else [SavedOf(d, events[0])] + SavedAll(d, events[1..])
  }

  lemma InsertableConcat(d: Dialect, a: seq<Event>, b: seq<Event>)
    ensures AllInsertable(d, a + b) <==> AllInsertable(d, a) && AllInsertable(d, b)
  {
    if AllInsertable(d, a + b) {
      forall i | 0 <= i < |a| ensures Insertable(d, a[i]) {
        assert (a + b)[i] == a[i];
      }
      forall i | 0 <= i < |b| ensures Insertable(d, b[i]) {
        assert (a + b)[|a| + i] == b[i];
      }
    }
  }

  lemma {:induction false} SavedAllConcat(d: Dialect, a: seq<Event>, b: seq<Event>)
    requires AllInsertable(d, a) && AllInsertable(d, b)
    ensures AllInsertable(d, a + b) && SavedAll(d, a + b) == SavedAll(d, a) + SavedAll(d, b)
  {
    InsertableConcat(d, a, b);
    if a == [] {
      assert a + b == b;
    } else {
      assert (a + b)[1..] == a[1..] + b;
      SavedAllConcat(d, a[1..], b);
    }
  }

  lemma {:induction false} SavedAllAt(d: Dialect, events: seq<Event>)
    requires AllInsertable(d, events)
    ensures |SavedAll(d, events)| == |events|
    ensures forall k :: 0 <= k < |events| ==> SavedAll(d, events)[k] == SavedOf(d, events[k])
  {
    if events != [] {
      SavedAllAt(d, events[1..]);
    }
  }

  lemma SavedAllMore(d: Dialect, before: seq<Saved>, a: seq<Event>, b: seq<Event>)
    requires AllInsertable(d, a) && AllInsertable(d, b)
    ensures AllInsertable(d, a + b)
    ensures before + SavedAll(d, a) + SavedAll(d, b) == before + SavedAll(d, a + b)
  {
    SavedAllConcat(d, a, b);
  }

  lemma SavedAllStep(d: Dialect, before: seq<Saved>, batch: seq<Event>, i: nat)
    requires i < |batch| && AllInsertable(d, batch[..i]) && Insertable(d, batch[i])
    ensures AllInsertable(d, batch[..i + 1])
    ensures before + SavedAll(d, batch[..i]) + [SavedOf(d, batch[i])] == before + SavedAll(d, batch[..i + 1])
  {
    assert batch[..i + 1] == batch[..i] + [batch[i]];
    SavedAllConcat(d, batch[..i], [batch[i]]);
    assert SavedAll(d, [batch[i]]) == [SavedOf(d, batch[i])];
  }

  /** An event read back: the row's text forms, None when the status text is none of the three known ones. */
  function Decoded(d: Dialect, event: EventRow, payload: PayloadRow): Option<Event> {
    var status := StrToStatus(event.status);
    if status.None? then None
    else Some(Event(event.source, d.showTime(event.time), status.value,
                    Payload(payload.rawLine, payload.ip, payload.decision, payload.reason)))
  }

  /** The event as the database will show it. */
  function Normalised(d: Dialect, e: Event): Event
    requires Insertable(d, e)
  {
    var ip := if e.payload.parsedIp.Some? then d.parseInet(e.payload.parsedIp.value) else None;
    e.(timestampUtc := d.showTime(d.parseTime(e.timestampUtc).value), payload := e.payload.(parsedIp := ip))
  }

  /** Saving and reading back changes nothing but the text of the timestamp and of the address, and not even
      those when they already are in the database's normal form. */
  lemma SaveThenRead(d: Dialect, e: Event)
    requires Insertable(d, e)
    ensures Decoded(d, EventRowOf(d, e), PayloadRowOf(d, e.payload)) == Some(Normalised(d, e))
    ensures Normalised(d, e) == e <==>
              && d.showTime(d.parseTime(e.timestampUtc).value) == e.timestampUtc
              && (e.payload.parsedIp.Some? ==> d.parseInet(e.payload.parsedIp.value) == e.payload.parsedIp)
  {
    StatusTextInverse(e.status, StatusToStr(e.status));
  }

  // ---------------------------------------------------------------- the tables as a sequence

  function SavedAt(t: Tables, id: int): Saved {
    if id in t.events && id in t.payloads then Saved(t.events[id], t.payloads[id])
    else Saved(EventRow("", 0, ""), PayloadRow("", None, "", None))
  }

  function SavedIn(t: Tables): int -> Saved {
    (id: int) => SavedAt(t, id)
  }

  /** The saved events with the given ids. */
  function Listing(t: Tables, ids: seq<int>): (r: seq<Saved>)
    ensures |r| == |ids| && forall i :: 0 <= i < |ids| ==> r[i] == SavedAt(t, ids[i])
  {
    Map(ids, SavedIn(t))
  }

  ghost predicate Increasing(ids: seq<int>) {
    forall i, j :: 0 <= i < j < |ids| ==> ids[i] < ids[j]
  }

  /** `ids` lists the events in the order they were saved: the two tables hold exactly one row each per id. */
  ghost predicate Represents(t: Tables, ids: seq<int>, nextId: int) {
    && Increasing(ids)
    && (forall id :: id in ids ==> 1 <= id < nextId)
    && (forall id :: id in t.events <==> id in ids)
    && (forall id :: id in t.payloads <==> id in ids)
    && (forall id :: id in t.events ==> t.events[id].status in {"success", "error"})
    && (forall id :: id in t.payloads ==> t.payloads[id].decision in {"accepted", "rejected"})
  }

  lemma ListingKept(t: Tables, t': Tables, ids: seq<int>)
    requires forall id :: id in ids ==> SavedAt(t, id) == SavedAt(t', id)
    ensures Listing(t, ids) == Listing(t', ids)
  {
  }

  lemma InsertRepresents(t: Tables, ids: seq<int>, id: int, e: EventRow, p: PayloadRow)
    requires Represents(t, ids, id) && id >= 1
    requires e.status in {"success", "error"} && p.decision in {"accepted", "rejected"}
    ensures Represents(Tables(t.events[id := e], t.payloads[id := p]), ids + [id], id + 1)
  {
    var t', ids' := Tables(t.events[id := e], t.payloads[id := p]), ids + [id];
    assert forall x :: x in ids' <==> x in ids || x == id;
    forall i, j | 0 <= i < j < |ids'| ensures ids'[i] < ids'[j] {
      assert ids'[i] in ids;
    }
  }

  /** Inserting one event under a new id appends it to the sequence and touches nothing else. */
  lemma InsertAppends(t: Tables, ids: seq<int>, id: int, e: EventRow, p: PayloadRow)
    requires Represents(t, ids, id) && id >= 1
    requires e.status in {"success", "error"} && p.decision in {"accepted", "rejected"}
    ensures var t' := Tables(t.events[id := e], t.payloads[id := p]);
      && Represents(t', ids + [id], id + 1)
      && Listing(t', ids + [id]) == Listing(t, ids) + [Saved(e, p)]
  {
    var t' := Tables(t.events[id := e], t.payloads[id := p]);
    InsertRepresents(t, ids, id, e, p);
    assert id !in ids;
    ListingKept(t, t', ids);
  }
}
