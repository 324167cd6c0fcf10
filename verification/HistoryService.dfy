/** The server's save procedures over the store: one unary request, or a stream saved in batches. */
module HistoryService {
  import opened Collections
  import opened Paging
  import opened Permutations
  import opened Events
  import opened Wire
  import opened Schema
  import opened Queries
  import opened EventStores

  const BATCH_SIZE: nat := 1000

  /** How a stream ends. */
  datatype Exit = Done | BadEvent | BatchFailed | CancelSeen | FinalFailed | Fatal

  /** The exit, the events read and accepted by then, and the events handed to successful saves. */
  datatype StreamEnd = StreamEnd(exit: Exit, total: nat, stored: seq<Event>)

  function DtoOf(message: Option<ProtoEvent>): Event {
    if message.Some? then ToDto(message.value) else Event("", "", Unspecified, Payload("", None, "", None))
  }

  /** The events a sequence of messages carries, in domain form. */
  function Dtos(messages: seq<Option<ProtoEvent>>): (r: seq<Event>)
    ensures |r| == |messages| && forall i :: 0 <= i < |messages| ==> r[i] == DtoOf(messages[i])
  {
    Map(messages, DtoOf)
  }

  /** What decides the k-th save of a stream: the next id, and what goes wrong in that save. */
  datatype World = World(dialect: Dialect, nextId: int, faults: nat -> Fault)

  function SaveOf(w: World, batch: seq<Event>, stored: seq<Event>): SaveOutcome {
    Outcome(w.dialect, w.nextId + |stored|, batch, w.faults(|stored| / BATCH_SIZE))
  }

  /** What one message leads to: the call ends, or it goes on with this batch collected and these events stored. */
  datatype Next = Leave(end: StreamEnd) | Go(batch: seq<Event>, stored: seq<Event>)

  function OneMessage(w: World, incoming: seq<Option<ProtoEvent>>, cancelled: set<nat>, i: nat, batch: seq<Event>, stored: seq<Event>): Next
    requires i < |incoming|
  {
    if ValidateMessage(incoming[i]) != Valid then Leave(StreamEnd(BadEvent, i, stored))
    else
      var batch1 := batch + [DtoOf(incoming[i])];
      if |batch1| < BATCH_SIZE then
        if i + 1 in cancelled then Leave(StreamEnd(CancelSeen, i + 1, stored)) else Go(batch1, stored)
      else
        match SaveOf(w, batch1, stored)
        case Stored => if i + 1 in cancelled then Leave(StreamEnd(CancelSeen, i + 1, stored + batch1)) else Go([], stored + batch1)
        case Refused => Leave(StreamEnd(BatchFailed, i + 1, stored))
        case Threw => Leave(StreamEnd(Fatal, i + 1, stored))
  }

  /** After the last message: save what is left, if anything. */
  function Finish(w: World, total: nat, batch: seq<Event>, stored: seq<Event>): StreamEnd {
    if batch == [] then StreamEnd(Done, total, stored)
    else
      match SaveOf(w, batch, stored)
      case Stored => StreamEnd(Done, total, stored + batch)
      case Refused => StreamEnd(FinalFailed, total, stored)
      case Threw => StreamEnd(Fatal, total, stored)
  }

  /** The stream from its i-th message on, with `batch` collected and `stored` saved so far.  `incoming` is what
      Read delivers before it reports the end, whoever ended the stream; `cancelled` holds the event counts
      after which the cancellation check finds the call cancelled. */
  function Run(w: World, incoming: seq<Option<ProtoEvent>>, cancelled: set<nat>, i: nat, batch: seq<Event>, stored: seq<Event>): StreamEnd
    requires i <= |incoming|
    decreases |incoming| - i
  {
    if i == |incoming| then Finish(w, i, batch, stored)
    else
      match OneMessage(w, incoming, cancelled, i, batch, stored)
      case Leave(end) => end
      case Go(batch1, stored1) => Run(w, incoming, cancelled, i + 1, batch1, stored1)
  }

  function RunAll(w: World, incoming: seq<Option<ProtoEvent>>, cancelled: set<nat>): StreamEnd {
    Run(w, incoming, cancelled, 0, [], [])
  }

  // ---------------------------------------------------------------- what each exit leaves stored

  /** The events in full batches among the first `n`. */
  function WholeBatches(n: nat): (r: nat)
    ensures r <= n < r + BATCH_SIZE
  {
    n - n % BATCH_SIZE
  }

  /** How much of the stream each exit leaves in the store. */
  predicate StoredCount(exit: Exit, total: nat, count: nat) {
    match exit
    case Done => count == total
    case BadEvent => count == WholeBatches(total)
    case CancelSeen => count == WholeBatches(total)
    case FinalFailed => count == WholeBatches(total) < total
    case BatchFailed => total > 0 && total % BATCH_SIZE == 0 && count == total - BATCH_SIZE
    case Fatal => total > 0 && count == WholeBatches(total - 1)
  }

  /** After `i` messages the whole batches are stored and the rest is collected. */
  ghost predicate Collected(incoming: seq<Option<ProtoEvent>>, i: nat, batch: seq<Event>, stored: seq<Event>)
    requires i <= |incoming|
  {
    stored == Dtos(incoming)[..WholeBatches(i)] && batch == Dtos(incoming)[WholeBatches(i)..i]
  }

  lemma Slices<T>(s: seq<T>, k: nat, i: nat)
    requires k <= i < |s|
    ensures s[k..i] + [s[i]] == s[k..i + 1]
    ensures s[..k] + s[k..i + 1] == s[..i + 1]
  {
  }

  lemma CollectOne(incoming: seq<Option<ProtoEvent>>, i: nat, batch: seq<Event>, stored: seq<Event>)
    requires i < |incoming| && Collected(incoming, i, batch, stored)
    ensures var batch1 := batch + [DtoOf(incoming[i])];
      && |batch1| <= BATCH_SIZE
      && (|batch1| < BATCH_SIZE ==> (i + 1) % BATCH_SIZE != 0 && Collected(incoming, i + 1, batch1, stored))
      && (|batch1| == BATCH_SIZE ==>
            && (i + 1) % BATCH_SIZE == 0 && |stored| + BATCH_SIZE == i + 1
            && Collected(incoming, i + 1, [], stored + batch1))
  {
    Slices(Dtos(incoming), WholeBatches(i), i);
  }

  /** The exit fits the amount stored, and what is stored is a prefix. */
  ghost predicate LeavesPrefix(incoming: seq<Option<ProtoEvent>>, end: StreamEnd) {
    && StoredCount(end.exit, end.total, |end.stored|)
    && |end.stored| <= |incoming| && end.stored == Dtos(incoming)[..|end.stored|]
  }

  lemma EndStoresPrefix(w: World, incoming: seq<Option<ProtoEvent>>, cancelled: set<nat>, batch: seq<Event>, stored: seq<Event>)
    requires Collected(incoming, |incoming|, batch, stored)
    ensures LeavesPrefix(incoming, Run(w, incoming, cancelled, |incoming|, batch, stored))
  {
    var s, k := Dtos(incoming), WholeBatches(|incoming|);
    assert s[..k] + s[k..|incoming|] == s;
  }

  /** One message keeps the bookkeeping, or ends the call with a prefix stored. */
  lemma MessageKeepsPrefix(w: World, incoming: seq<Option<ProtoEvent>>, cancelled: set<nat>, i: nat, batch: seq<Event>, stored: seq<Event>)
    requires i < |incoming| && Collected(incoming, i, batch, stored)
    ensures match OneMessage(w, incoming, cancelled, i, batch, stored)
            case Leave(end) => LeavesPrefix(incoming, end)
            case Go(batch1, stored1) => Collected(incoming, i + 1, batch1, stored1)
  {
    CollectOne(incoming, i, batch, stored);
  }

  lemma {:induction false} RunStoresPrefix(w: World, incoming: seq<Option<ProtoEvent>>, cancelled: set<nat>, i: nat, batch: seq<Event>, stored: seq<Event>)
    requires i <= |incoming| && Collected(incoming, i, batch, stored)
    ensures LeavesPrefix(incoming, Run(w, incoming, cancelled, i, batch, stored))
    decreases |incoming| - i
  {
    if i == |incoming| {
      EndStoresPrefix(w, incoming, cancelled, batch, stored);
    } else {
      MessageKeepsPrefix(w, incoming, cancelled, i, batch, stored);
      match OneMessage(w, incoming, cancelled, i, batch, stored)
      case Leave(_) =>
      case Go(batch1, stored1) => RunStoresPrefix(w, incoming, cancelled, i + 1, batch1, stored1);
    }
  }

  /** Every exit but success leaves whole batches. */
  lemma StoredWhole(exit: Exit, total: nat, count: nat)
    requires StoredCount(exit, total, count) && !exit.Done?
    ensures count % BATCH_SIZE == 0
  {
  }

  lemma {:induction false} DoneReadsAll(w: World, incoming: seq<Option<ProtoEvent>>, cancelled: set<nat>, i: nat, batch: seq<Event>, stored: seq<Event>)
    requires i <= |incoming|
    ensures Run(w, incoming, cancelled, i, batch, stored).exit.Done? ==> Run(w, incoming, cancelled, i, batch, stored).total == |incoming|
    decreases |incoming| - i
  {
    if i < |incoming| {
      match OneMessage(w, incoming, cancelled, i, batch, stored)
      case Leave(_) =>
      case Go(batch1, stored1) => DoneReadsAll(w, incoming, cancelled, i + 1, batch1, stored1);
    }
  }

  /** For every input stream and every pattern of cancellations and failed saves, the store gains exactly a
      prefix of the stream: all of it on success, whole accepted batches on every other exit. */
  lemma StreamStoresPrefix(w: World, incoming: seq<Option<ProtoEvent>>, cancelled: set<nat>)
    ensures var end := RunAll(w, incoming, cancelled);
      && LeavesPrefix(incoming, end)
      && (|end.stored| % 1000 == 0 <==> !end.exit.Done? || |incoming| % 1000 == 0)
      && (end.exit.Done? ==> |end.stored| == |incoming|)
      && (end.exit.BadEvent? || end.exit.CancelSeen? ==> end.total - 1000 < |end.stored| <= end.total)
      && (end.exit.BatchFailed? ==> |end.stored| == end.total - 1000)
      && (end.exit.FinalFailed? ==> end.total - 1000 < |end.stored| < end.total)
  {
    RunStoresPrefix(w, incoming, cancelled, 0, [], []);
    DoneReadsAll(w, incoming, cancelled, 0, [], []);
    var end := RunAll(w, incoming, cancelled);
    if !end.exit.Done? {
      StoredWhole(end.exit, end.total, |end.stored|);
    }
  }

  // ---------------------------------------------------------------- where a stream ends, and why there

  /** How the save of the batch that starts at event `k` goes when everything before it was saved. */
  function SaveAt(w: World, incoming: seq<Option<ProtoEvent>>, k: nat): SaveOutcome
    requires k <= |incoming|
  {
    SaveOf(w, Page(Dtos(incoming), k, BATCH_SIZE), Dtos(incoming)[..k])
  }

  /** The j-th message is valid, and so is the save of the batch it completes, if any. */
  predicate Taken(w: World, incoming: seq<Option<ProtoEvent>>, j: nat)
    requires j < |incoming|
  {
    && ValidateMessage(incoming[j]) == Valid
    && ((j + 1) % BATCH_SIZE == 0 ==> SaveAt(w, incoming, j + 1 - BATCH_SIZE).Stored?)
  }

  /** And no cancellation is seen after it. */
  predicate Passes(w: World, incoming: seq<Option<ProtoEvent>>, cancelled: set<nat>, j: nat)
    requires j < |incoming|
  {
    Taken(w, incoming, j) && j + 1 !in cancelled
  }

  predicate AllPass(w: World, incoming: seq<Option<ProtoEvent>>, cancelled: set<nat>, n: nat)
    requires n <= |incoming|
  {
    forall j :: 0 <= j < n ==> Passes(w, incoming, cancelled, j)
  }

  /** Everything before it passed, and the full batch that event number `total` completes is not stored. */
  predicate FullBatchFails(w: World, incoming: seq<Option<ProtoEvent>>, cancelled: set<nat>, total: nat, outcome: SaveOutcome)
    requires total <= |incoming|
  {
    && total > 0 && total % BATCH_SIZE == 0 && AllPass(w, incoming, cancelled, total - 1)
    && ValidateMessage(incoming[total - 1]) == Valid && SaveAt(w, incoming, total - BATCH_SIZE) == outcome
  }

  /** Every message passed, and the save of what is left over after the last full batch has this outcome. */
  predicate RestSaved(w: World, incoming: seq<Option<ProtoEvent>>, cancelled: set<nat>, outcome: SaveOutcome) {
    && AllPass(w, incoming, cancelled, |incoming|) && |incoming| % BATCH_SIZE != 0
    && SaveAt(w, incoming, WholeBatches(|incoming|)) == outcome
  }

  /** The first thing that ends the call is this one, after `total` events. */
  predicate Ends(w: World, incoming: seq<Option<ProtoEvent>>, cancelled: set<nat>, exit: Exit, total: nat) {
    total <= |incoming| &&
    match exit
    case BadEvent => total < |incoming| && AllPass(w, incoming, cancelled, total) && ValidateMessage(incoming[total]) != Valid
    case BatchFailed => FullBatchFails(w, incoming, cancelled, total, Refused)
    case CancelSeen =>
      total > 0 && AllPass(w, incoming, cancelled, total - 1) && Taken(w, incoming, total - 1) && total in cancelled
    case FinalFailed => total == |incoming| && RestSaved(w, incoming, cancelled, Refused)
    case Fatal =>
      || FullBatchFails(w, incoming, cancelled, total, Threw)
      || (total == |incoming| && RestSaved(w, incoming, cancelled, Threw))
    case Done =>
      && total == |incoming|
      && (RestSaved(w, incoming, cancelled, Stored)
          || (AllPass(w, incoming, cancelled, total) && total % BATCH_SIZE == 0))
  }

  lemma SavedHere(w: World, incoming: seq<Option<ProtoEvent>>, i: nat, batch: seq<Event>, stored: seq<Event>)
    requires i < |incoming| && Collected(incoming, i, batch, stored) && (i + 1) % BATCH_SIZE == 0
    ensures SaveOf(w, batch + [DtoOf(incoming[i])], stored) == SaveAt(w, incoming, i + 1 - BATCH_SIZE)
  {
    assert WholeBatches(i) == i + 1 - BATCH_SIZE;
    Slices(Dtos(incoming), WholeBatches(i), i);
    assert Page(Dtos(incoming), WholeBatches(i), BATCH_SIZE) == Dtos(incoming)[WholeBatches(i)..i + 1];
  }

  lemma MessageEnds(w: World, incoming: seq<Option<ProtoEvent>>, cancelled: set<nat>, i: nat, batch: seq<Event>, stored: seq<Event>)
    requires i < |incoming| && Collected(incoming, i, batch, stored) && AllPass(w, incoming, cancelled, i)
    ensures match OneMessage(w, incoming, cancelled, i, batch, stored)
            case Leave(end) => Ends(w, incoming, cancelled, end.exit, end.total)
            case Go(_, _) => Passes(w, incoming, cancelled, i)
  {
    BatchFills(incoming, i, batch, stored);
    if (i + 1) % BATCH_SIZE == 0 {
      SavedHere(w, incoming, i, batch, stored);
      assert FullBatchFails(w, incoming, cancelled, i + 1, SaveAt(w, incoming, i + 1 - BATCH_SIZE))
          <==> ValidateMessage(incoming[i]) == Valid;
    }
  }

  lemma BatchFills(incoming: seq<Option<ProtoEvent>>, i: nat, batch: seq<Event>, stored: seq<Event>)
    requires i < |incoming| && Collected(incoming, i, batch, stored)
    ensures |batch| + 1 <= BATCH_SIZE && (|batch| + 1 == BATCH_SIZE <==> (i + 1) % BATCH_SIZE == 0)
  {
  }

  lemma FinishEnds(w: World, incoming: seq<Option<ProtoEvent>>, cancelled: set<nat>, batch: seq<Event>, stored: seq<Event>)
    requires Collected(incoming, |incoming|, batch, stored) && AllPass(w, incoming, cancelled, |incoming|)
    ensures var end := Finish(w, |incoming|, batch, stored); Ends(w, incoming, cancelled, end.exit, end.total)
  {
    assert Page(Dtos(incoming), WholeBatches(|incoming|), BATCH_SIZE) == batch;
  }

  lemma {:induction false} RunEnds(w: World, incoming: seq<Option<ProtoEvent>>, cancelled: set<nat>, i: nat, batch: seq<Event>, stored: seq<Event>)
    requires i <= |incoming| && Collected(incoming, i, batch, stored) && AllPass(w, incoming, cancelled, i)
    ensures var end := Run(w, incoming, cancelled, i, batch, stored); Ends(w, incoming, cancelled, end.exit, end.total)
    decreases |incoming| - i
  {
    if i == |incoming| {
      FinishEnds(w, incoming, cancelled, batch, stored);
    } else {
      MessageEnds(w, incoming, cancelled, i, batch, stored);
      MessageKeepsPrefix(w, incoming, cancelled, i, batch, stored);
      match OneMessage(w, incoming, cancelled, i, batch, stored)
      case Leave(_) =>
      case Go(batch1, stored1) => RunEnds(w, incoming, cancelled, i + 1, batch1, stored1);
    }
  }

  /** What any end says about the messages up to it. */
  lemma EndShape(w: World, incoming: seq<Option<ProtoEvent>>, cancelled: set<nat>, exit: Exit, total: nat)
    requires Ends(w, incoming, cancelled, exit, total)
    ensures total <= |incoming|
    ensures total > 0 ==> AllPass(w, incoming, cancelled, total - 1) && ValidateMessage(incoming[total - 1]) == Valid
    ensures AllPass(w, incoming, cancelled, total) ==> total == |incoming| || ValidateMessage(incoming[total]) != Valid
    ensures exit.BatchFailed? || exit.CancelSeen? ==> !Passes(w, incoming, cancelled, total - 1)
    ensures exit.Fatal? ==> !Passes(w, incoming, cancelled, total - 1) || RestSaved(w, incoming, cancelled, Threw)
  {
    if AllPass(w, incoming, cancelled, total) && total > 0 {
      assert Passes(w, incoming, cancelled, total - 1);
    }
  }

  lemma EndsNotBefore(w: World, incoming: seq<Option<ProtoEvent>>, cancelled: set<nat>, exit: Exit, total: nat, exit': Exit, total': nat)
    requires Ends(w, incoming, cancelled, exit, total) && Ends(w, incoming, cancelled, exit', total')
    ensures total >= total'
  {
    EndShape(w, incoming, cancelled, exit, total);
    EndShape(w, incoming, cancelled, exit', total');
    assert total < total' - 1 ==> Passes(w, incoming, cancelled, total);
  }

  /** Only one thing can be the first. */
  lemma OneEnd(w: World, incoming: seq<Option<ProtoEvent>>, cancelled: set<nat>, exit: Exit, total: nat, exit': Exit, total': nat)
    requires Ends(w, incoming, cancelled, exit, total) && Ends(w, incoming, cancelled, exit', total')
    ensures exit == exit' && total == total'
  {
    EndsNotBefore(w, incoming, cancelled, exit, total, exit', total');
    EndsNotBefore(w, incoming, cancelled, exit', total', exit, total);
    EndShape(w, incoming, cancelled, exit, total);
    EndShape(w, incoming, cancelled, exit', total);
    if AllPass(w, incoming, cancelled, total) && total > 0 {
      assert Passes(w, incoming, cancelled, total - 1);
    }
  }

  /** The call ends with the first thing that ends it: an invalid event, a full batch that is not stored, a
      cancellation, or the end of the stream and the save of the rest. */
  lemma StreamEndsFirst(w: World, incoming: seq<Option<ProtoEvent>>, cancelled: set<nat>, exit: Exit, total: nat)
    ensures var end := RunAll(w, incoming, cancelled);
      Ends(w, incoming, cancelled, exit, total) <==> exit == end.exit && total == end.total
  {
    RunEnds(w, incoming, cancelled, 0, [], []);
    var end := RunAll(w, incoming, cancelled);
    if Ends(w, incoming, cancelled, exit, total) {
      OneEnd(w, incoming, cancelled, exit, total, end.exit, end.total);
    }
  }

  // ---------------------------------------------------------------- when a stream succeeds

  predicate AllValid(incoming: seq<Option<ProtoEvent>>) {
    forall i :: 0 <= i < |incoming| ==> ValidateMessage(incoming[i]) == Valid
  }

  predicate Uncancelled(cancelled: set<nat>, n: nat) {
    forall j :: 0 < j <= n ==> j !in cancelled
  }

  /** Every batch of the stream is stored. */
  predicate AllStored(w: World, incoming: seq<Option<ProtoEvent>>) {
    forall k :: 0 <= k < |incoming| && k % BATCH_SIZE == 0 ==> SaveAt(w, incoming, k).Stored?
  }

  lemma StoredBatch(w: World, incoming: seq<Option<ProtoEvent>>, k: nat)
    requires AllStored(w, incoming) && k < |incoming| && k % BATCH_SIZE == 0
    ensures SaveAt(w, incoming, k).Stored?
  {
  }

  lemma GoodMessagePasses(w: World, incoming: seq<Option<ProtoEvent>>, cancelled: set<nat>, j: nat)
    requires j < |incoming| && ValidateMessage(incoming[j]) == Valid && j + 1 !in cancelled && AllStored(w, incoming)
    ensures Passes(w, incoming, cancelled, j)
  {
    if (j + 1) % BATCH_SIZE == 0 {
      StoredBatch(w, incoming, j + 1 - BATCH_SIZE);
    }
  }

  lemma GoodStreamPasses(w: World, incoming: seq<Option<ProtoEvent>>, cancelled: set<nat>)
    requires AllValid(incoming) && Uncancelled(cancelled, |incoming|) && AllStored(w, incoming)
    ensures AllPass(w, incoming, cancelled, |incoming|)
  {
    forall j | 0 <= j < |incoming| ensures Passes(w, incoming, cancelled, j) {
      GoodMessagePasses(w, incoming, cancelled, j);
    }
  }

  lemma GoodStreamEnds(w: World, incoming: seq<Option<ProtoEvent>>, cancelled: set<nat>)
    requires AllValid(incoming) && Uncancelled(cancelled, |incoming|) && AllStored(w, incoming)
    ensures Ends(w, incoming, cancelled, Done, |incoming|)
  {
    GoodStreamPasses(w, incoming, cancelled);
    if |incoming| % BATCH_SIZE != 0 {
      StoredBatch(w, incoming, WholeBatches(|incoming|));
    }
  }

  lemma AllPassMeans(w: World, incoming: seq<Option<ProtoEvent>>, cancelled: set<nat>)
    requires AllPass(w, incoming, cancelled, |incoming|)
    ensures AllValid(incoming) && Uncancelled(cancelled, |incoming|)
    ensures forall k :: 0 <= k && k + BATCH_SIZE <= |incoming| && k % BATCH_SIZE == 0 ==> SaveAt(w, incoming, k).Stored?
  {
    forall j | 0 < j <= |incoming| ensures j !in cancelled {
      assert Passes(w, incoming, cancelled, j - 1);
    }
    forall i | 0 <= i < |incoming| ensures ValidateMessage(incoming[i]) == Valid {
      assert Passes(w, incoming, cancelled, i);
    }
    forall k | 0 <= k && k + BATCH_SIZE <= |incoming| && k % BATCH_SIZE == 0 ensures SaveAt(w, incoming, k).Stored? {
      assert Passes(w, incoming, cancelled, k + BATCH_SIZE - 1);
    }
  }

  lemma LastBatch(n: nat, k: nat)
    requires k < n < k + BATCH_SIZE && k % BATCH_SIZE == 0
    ensures k == WholeBatches(n) && n % BATCH_SIZE != 0
  {
  }

  lemma EndedStreamIsGood(w: World, incoming: seq<Option<ProtoEvent>>, cancelled: set<nat>)
    requires Ends(w, incoming, cancelled, Done, |incoming|)
    ensures AllValid(incoming) && Uncancelled(cancelled, |incoming|) && AllStored(w, incoming)
  {
    AllPassMeans(w, incoming, cancelled);
    forall k | 0 <= k < |incoming| && k % BATCH_SIZE == 0 ensures SaveAt(w, incoming, k).Stored? {
      if k + BATCH_SIZE > |incoming| {
        LastBatch(|incoming|, k);
      }
    }
  }

  /** A stream succeeds exactly when every event is valid, no cancellation is seen and every batch is stored. */
  lemma StreamSucceedsIff(w: World, incoming: seq<Option<ProtoEvent>>, cancelled: set<nat>)
    ensures RunAll(w, incoming, cancelled).exit.Done? <==>
              AllValid(incoming) && Uncancelled(cancelled, |incoming|) && AllStored(w, incoming)
  {
    if AllValid(incoming) && Uncancelled(cancelled, |incoming|) && AllStored(w, incoming) {
      GoodStreamEnds(w, incoming, cancelled);
    }
    DoneReadsAll(w, incoming, cancelled, 0, [], []);
    StreamEndsFirst(w, incoming, cancelled, Done, |incoming|);
    if RunAll(w, incoming, cancelled).exit.Done? {
      EndedStreamIsGood(w, incoming, cancelled);
    }
  }

  /** No save fails for a reason outside the events themselves. */
  ghost predicate Reliable(w: World, n: nat) {
    (forall k :: w.faults(k).NoFault?) && w.nextId + n - 1 <= MAX_ID
  }

  lemma BatchStoredIff(w: World, incoming: seq<Option<ProtoEvent>>, k: nat)
    requires Reliable(w, |incoming|) && k < |incoming|
    ensures SaveAt(w, incoming, k).Stored? <==> AllInsertable(w.dialect, Page(Dtos(incoming), k, BATCH_SIZE))
  {
    assert w.faults(k / BATCH_SIZE).NoFault?;
  }

  lemma StoredAreInsertable(w: World, incoming: seq<Option<ProtoEvent>>, i: nat)
    requires Reliable(w, |incoming|) && i < |incoming| && AllStored(w, incoming)
    ensures Insertable(w.dialect, Dtos(incoming)[i])
  {
    var k := WholeBatches(i);
    StoredBatch(w, incoming, k);
    BatchStoredIff(w, incoming, k);
    assert Page(Dtos(incoming), k, BATCH_SIZE)[i - k] == Dtos(incoming)[i];
  }

  lemma InsertableAreStored(w: World, incoming: seq<Option<ProtoEvent>>, k: nat)
    requires Reliable(w, |incoming|) && k < |incoming| && AllInsertable(w.dialect, Dtos(incoming))
    ensures SaveAt(w, incoming, k).Stored?
  {
    BatchStoredIff(w, incoming, k);
    var batch := Page(Dtos(incoming), k, BATCH_SIZE);
    assert forall j :: 0 <= j < |batch| ==> batch[j] == Dtos(incoming)[k + j];
  }

  /** Then every batch is stored exactly when the schema accepts every event. */
  lemma ReliableStores(w: World, incoming: seq<Option<ProtoEvent>>)
    requires Reliable(w, |incoming|)
    ensures AllStored(w, incoming) <==> AllInsertable(w.dialect, Dtos(incoming))
  {
    if AllInsertable(w.dialect, Dtos(incoming)) {
      forall k | 0 <= k < |incoming| && k % BATCH_SIZE == 0 ensures SaveAt(w, incoming, k).Stored? {
        InsertableAreStored(w, incoming, k);
      }
    }
    if AllStored(w, incoming) {
      forall i | 0 <= i < |incoming| ensures Insertable(w.dialect, Dtos(incoming)[i]) {
        StoredAreInsertable(w, incoming, i);
      }
    }
  }

  /** With nothing failing outside, the stream succeeds exactly when every event is valid, no cancellation is
      seen, and the schema accepts every event. */
  lemma ReliableStreamSucceedsIff(w: World, incoming: seq<Option<ProtoEvent>>, cancelled: set<nat>)
    requires (forall k :: w.faults(k) == NoFault) && w.nextId + |incoming| <= 2147483648
    ensures RunAll(w, incoming, cancelled).exit.Done? <==>
              && (forall i :: 0 <= i < |incoming| ==> ValidateMessage(incoming[i]) == Valid)
              && (forall j :: 0 < j <= |incoming| ==> j !in cancelled)
              && AllInsertable(w.dialect, Dtos(incoming))
  {
    StreamSucceedsIff(w, incoming, cancelled);
    ReliableStores(w, incoming);
  }

  lemma GoodBatchStored(w: World, incoming: seq<Option<ProtoEvent>>, at: nat)
    requires at < |incoming| && w.faults(at / BATCH_SIZE) == NoFault && w.nextId + |incoming| <= 2147483648
    requires AllInsertable(w.dialect, Dtos(incoming))
    ensures SaveAt(w, incoming, at).Stored?
  {
    var batch := Page(Dtos(incoming), at, BATCH_SIZE);
    assert forall j :: 0 <= j < |batch| ==> batch[j] == Dtos(incoming)[at + j];
  }

  /** The batch that the j-th message completes is one of the first k. */
  lemma EarlierBatch(j: nat, k: nat)
    requires (j + 1) % BATCH_SIZE == 0 && j + 1 < k * BATCH_SIZE + BATCH_SIZE
    ensures 0 <= j + 1 - BATCH_SIZE && (j + 1 - BATCH_SIZE) / BATCH_SIZE < k
  {
  }

  lemma PassesBefore(w: World, incoming: seq<Option<ProtoEvent>>, k: nat, j: nat)
    requires AllValid(incoming) && AllInsertable(w.dialect, Dtos(incoming)) && w.nextId + |incoming| <= 2147483648
    requires (forall b :: 0 <= b < k ==> w.faults(b) == NoFault)
    requires j < |incoming| && j + 1 < k * BATCH_SIZE + BATCH_SIZE
    ensures Passes(w, incoming, {}, j)
  {
    if (j + 1) % BATCH_SIZE == 0 {
      EarlierBatch(j, k);
      GoodBatchStored(w, incoming, j + 1 - BATCH_SIZE);
    }
  }

  lemma PassesUpTo(w: World, incoming: seq<Option<ProtoEvent>>, k: nat)
    requires AllValid(incoming) && AllInsertable(w.dialect, Dtos(incoming)) && w.nextId + |incoming| <= 2147483648
    requires (forall b :: 0 <= b < k ==> w.faults(b) == NoFault) && k * BATCH_SIZE + BATCH_SIZE <= |incoming|
    ensures AllPass(w, incoming, {}, k * BATCH_SIZE + BATCH_SIZE - 1)
  {
    forall j | 0 <= j < k * BATCH_SIZE + BATCH_SIZE - 1 ensures Passes(w, incoming, {}, j) {
      PassesBefore(w, incoming, k, j);
    }
  }

  /** Each save of a stream can fail by itself: when only the k-th does, the first k batches stay stored and the
      stream ends with that one, as a failed batch or, when no connection could be had, as a fatal error. */
  lemma KthSaveFails(w: World, incoming: seq<Option<ProtoEvent>>, k: nat)
    requires (forall i :: 0 <= i < |incoming| ==> ValidateMessage(incoming[i]) == Valid)
    requires AllInsertable(w.dialect, Dtos(incoming)) && w.nextId + |incoming| <= 2147483648
    requires (k + 1) * 1000 <= |incoming| && forall j :: 0 <= j < k ==> w.faults(j) == NoFault
    requires w.faults(k) == AtAcquire || w.faults(k) == AtStatement(0)
    ensures var end := RunAll(w, incoming, {});
      && end.exit == (if w.faults(k) == AtAcquire then Fatal else BatchFailed)
      && end.total == (k + 1) * 1000 && end.stored == Dtos(incoming)[..k * 1000]
  {
    var total := k * BATCH_SIZE + BATCH_SIZE;
    var exit := if w.faults(k) == AtAcquire then Fatal else BatchFailed;
    PassesUpTo(w, incoming, k);
    assert Ends(w, incoming, {}, exit, total);
    StreamEndsFirst(w, incoming, {}, exit, total);
    StreamStoresPrefix(w, incoming, {});
  }

  // ---------------------------------------------------------------- the two routes compared

  function Wrapped(events: seq<ProtoEvent>): seq<Option<ProtoEvent>> {
    seq(|events|, i requires 0 <= i < |events| => Some(events[i]))
  }

  /** For valid events, with no save failing for an outside reason, the route does not matter: both succeed or
      both fail, and on success both store the whole list.  On failure unary stores nothing and streaming a
      prefix of whole batches. */
  lemma RoutesAgree(w: World, events: seq<ProtoEvent>)
    requires events != [] && (forall k :: w.faults(k) == NoFault) && w.nextId + |events| <= 2147483648
    requires forall i :: 0 <= i < |events| ==> ValidateEvent(events[i]) == Valid
    ensures var sent := Dtos(Wrapped(events));
      var unary, stream := Outcome(w.dialect, w.nextId, sent, w.faults(0)), RunAll(w, Wrapped(events), {});
      && (unary.Stored? <==> stream.exit.Done?)
      && (stream.exit.Done? ==> stream.stored == sent)
      && (!stream.exit.Done? ==> |stream.stored| % 1000 == 0 && |stream.stored| <= |sent| && stream.stored == sent[..|stream.stored|])
  {
    ReliableStreamSucceedsIff(w, Wrapped(events), {});
    StreamStoresPrefix(w, Wrapped(events), {});
    var end := RunAll(w, Wrapped(events), {});
    DoneReadsAll(w, Wrapped(events), {}, 0, [], []);
    if end.exit.Done? {
      assert Dtos(Wrapped(events))[..|end.stored|] == Dtos(Wrapped(events));
    }
  }

  // ---------------------------------------------------------------- the procedures themselves

  datatype GrpcStatus = OK | INVALID_ARGUMENT | CANCELLED | UNKNOWN

  class HistoryServer {
    const store: EventStore
    const times: TimeText

    constructor (store: EventStore, times: TimeText)
      ensures this.store == store && this.times == times
    {
      this.store, this.times := store, times;
    }

    /** The unary save.  An exception out of the repository leaves the handler, and the call fails as UNKNOWN. */
    method SaveEvent(request: seq<ProtoEvent>, fault: Fault) returns (status: GrpcStatus, success: bool)
      requires store.Valid()
      modifies store
      ensures store.Valid()
      ensures status.INVALID_ARGUMENT? <==> request == [] || exists i :: 0 <= i < |request| && ValidateEvent(request[i]) != Valid
      ensures success <==>
                (!status.INVALID_ARGUMENT? && Outcome(store.dialect, old(store.nextId), Dtos(Wrapped(request)), fault).Stored?)
      ensures success ==>
                && status.OK? && AllInsertable(store.dialect, Dtos(Wrapped(request)))
                && store.Log() == old(store.Log()) + SavedAll(store.dialect, Dtos(Wrapped(request)))
      ensures !status.INVALID_ARGUMENT? ==> status == if fault == AtAcquire then UNKNOWN else OK
      ensures !success ==> store.tables == old(store.tables) && store.Log() == old(store.Log())
    {
      var verdict := ValidateAll(request);
      if verdict != Valid {
        return INVALID_ARGUMENT, false;
      }
      var events := [];
      for i := 0 to |request|
        invariant events == Dtos(Wrapped(request))[..i]
      {
        events := events + [ToDto(request[i])];
      }
      assert events == Dtos(Wrapped(request));
      assert request[0] in request;
      var outcome := store.SaveEvents(events, fault);
      return if outcome.Threw? then UNKNOWN else OK, outcome.Stored?;
    }

    /** The store holds what it held before the stream, and then the events `stored` by it. */
    ghost predicate Gained(before: seq<Saved>, stored: seq<Event>)
      reads store
    {
      && store.Valid() && AllInsertable(store.dialect, stored)
      && store.Log() == before + SavedAll(store.dialect, stored)
    }

    /** One save of a collected batch. */
    method SaveBatch(batch: seq<Event>, fault: Fault, ghost before: seq<Saved>, ghost stored: seq<Event>) returns (outcome: SaveOutcome)
      requires Gained(before, stored)
      modifies store
      ensures outcome == Outcome(store.dialect, old(store.nextId), batch, fault)
      ensures outcome.Stored? ==> Gained(before, stored + batch) && store.nextId == old(store.nextId) + |batch|
      ensures !outcome.Stored? ==> Gained(before, stored)
    {
      outcome := store.SaveEvents(batch, fault);
      if outcome.Stored? {
        SavedAllMore(store.dialect, before, stored, batch);
      }
    }

    /** After the last message: save what is left, if anything. */
    method SaveRest(ghost w: World, ghost total: nat, batch: seq<Event>, fault: Fault, savedSoFar: nat,
                    ghost before: seq<Saved>, ghost stored: seq<Event>)
      returns (exit: Exit, saved: nat)
      requires Gained(before, stored) && savedSoFar == |stored|
      requires w.dialect == store.dialect && store.nextId == w.nextId + |stored| && fault == w.faults(|stored| / BATCH_SIZE)
      modifies store
      ensures var end := Finish(w, total, batch, stored);
        exit == end.exit && saved == |end.stored| && Gained(before, end.stored)
    {
      if batch == [] {
        return Done, savedSoFar;
      }
      var outcome := SaveBatch(batch, fault, before, stored);
      match outcome
      case Stored => return Done, savedSoFar + |batch|;
      case Refused => return FinalFailed, savedSoFar;
      case Threw => return Fatal, savedSoFar;
    }

    /** The loop's body: one message, a save when the batch is full, then the cancellation check.  `exit` is set
        when the call returns from inside the loop. */
    method HandleMessage(ghost w: World, incoming: seq<Option<ProtoEvent>>, cancelled: set<nat>, i: nat, batch: seq<Event>,
                         fault: Fault, savedSoFar: nat, ghost before: seq<Saved>, ghost stored: seq<Event>)
      returns (exit: Option<Exit>, total: nat, batch': seq<Event>, saved: nat, ghost stored': seq<Event>)
      requires i < |incoming| && |batch| < BATCH_SIZE
      requires Gained(before, stored) && savedSoFar == |stored|
      requires w.dialect == store.dialect && store.nextId == w.nextId + |stored| && fault == w.faults(|stored| / BATCH_SIZE)
      modifies store
      ensures Gained(before, stored') && saved == |stored'|
      ensures OneMessage(w, incoming, cancelled, i, batch, stored)
           == if exit.None? then Go(batch', stored') else Leave(StreamEnd(exit.value, total, stored'))
      ensures exit.None? ==> total == i + 1 && |batch'| < BATCH_SIZE && store.nextId == w.nextId + saved
      ensures exit.Some? ==> !exit.value.Done?
    {
      total, batch', saved, stored' := i, batch, savedSoFar, stored;
      if ValidateMessage(incoming[i]) != Valid {
        exit := Some(BadEvent);
        return;
      }
      batch' := batch' + [ToDto(incoming[i].value)];
      total := total + 1;
      if |batch'| >= BATCH_SIZE {
        var outcome := SaveBatch(batch', fault, before, stored);
        if !outcome.Stored? {
          exit := Some(if outcome.Threw? then Fatal else BatchFailed);
          return;
        }
        saved, stored', batch' := saved + |batch'|, stored + batch', [];
      }
      exit := if total in cancelled then Some(CancelSeen) else None;
    }

    /** The loop itself: messages until one ends the call or there are no more. */
    method ReadMessages(ghost w: World, incoming: seq<Option<ProtoEvent>>, cancelled: set<nat>, faults: nat -> Fault, ghost before: seq<Saved>)
      returns (exit: Option<Exit>, total: nat, batch: seq<Event>, saved: nat, ghost stored: seq<Event>)
      requires Gained(before, []) && w == World(store.dialect, store.nextId, faults)
      modifies store
      ensures Gained(before, stored) && saved == |stored|
      ensures exit.None? ==>
                && store.nextId == w.nextId + saved
                && RunAll(w, incoming, cancelled) == Run(w, incoming, cancelled, |incoming|, batch, stored)
      ensures exit.Some? ==> !exit.value.Done? && RunAll(w, incoming, cancelled) == StreamEnd(exit.value, total, stored)
      ensures exit.None? ==> total == |incoming|
    {
      exit, total, batch, saved, stored := None, 0, [], 0, [];
      while total < |incoming|
        invariant total <= |incoming| && |batch| < BATCH_SIZE && exit.None?
        invariant Gained(before, stored) && saved == |stored| && store.nextId == w.nextId + saved
        invariant RunAll(w, incoming, cancelled) == Run(w, incoming, cancelled, total, batch, stored)
      {
        exit, total, batch, saved, stored :=
          HandleMessage(w, incoming, cancelled, total, batch, faults(saved / BATCH_SIZE), saved, before, stored);
        if exit.Some? {
          return;
        }
      }
    }

    /** The streaming save, with the exit it took and the number of events it accepted and saved. */
    method SaveEventsStream(incoming: seq<Option<ProtoEvent>>, cancelled: set<nat>, faults: nat -> Fault)
      returns (status: GrpcStatus, success: bool, exit: Exit, total: nat, saved: nat)
      requires store.Valid()
      modifies store
      ensures var end := RunAll(World(store.dialect, old(store.nextId), faults), incoming, cancelled);
        exit == end.exit && total == end.total && saved == |end.stored| && Gained(old(store.Log()), end.stored)
      ensures success <==> exit.Done?
      ensures status == if exit.CancelSeen? then CANCELLED else OK
    {
      ghost var w := World(store.dialect, store.nextId, faults);
      ghost var before := store.Log();
      assert before + [] == before;
      var left, batch;
      ghost var stored;
      left, total, batch, saved, stored := ReadMessages(w, incoming, cancelled, faults, before);
      if left.Some? {
        return if left.value.CancelSeen? then CANCELLED else OK, false, left.value, total, saved;
      }
      exit, saved := SaveRest(w, total, batch, faults(saved / BATCH_SIZE), saved, before, stored);
      return OK, exit.Done?, exit, total, saved;
    }

    /** The query: a failed query reports failure, an empty result success with no events. */
    method GetEvents(request: Option<ProtoFilter>, plan: seq<int>, fails: bool) returns (success: bool, events: seq<ProtoEvent>)
      requires store.Valid()
      requires var bound := Bound(store.dialect, FilterOf(times, request));
        bound.Some? ==> SortedPlan(store.tables, bound.value.criteria, plan)
      ensures success <==>
                && !fails
                && (request.Some? && request.value.from.Some? ==>
                      store.dialect.parseTime(times.show(request.value.from.value)).Some?)
                && (request.Some? && request.value.to.Some? ==>
                      store.dialect.parseTime(times.show(request.value.to.value)).Some?)
      ensures success ==> Reports(store.dialect, store.Log(), FilterOf(times, request), events)
      ensures success && request.Some? ==>
                && (request.value.status.Some? && request.value.status.value in {0, 1, 2} ==>
                      forall e :: e in events ==> e.status == request.value.status.value)
                && (request.value.sourceService.Some? ==>
                      forall e :: e in events ==> e.sourceService == request.value.sourceService.value)
                && (request.value.limit.Some? ==> |events| <= request.value.limit.value)
      ensures success && request.None? && |store.Log()| <= 1_000_000_000 ==> |events| == |store.Log()|
    {
      var result := store.GetEvents(FilterOf(times, request), plan, fails);
      if result.None? {
        return false, [];
      }
      events := EncodeAll(result.value);
      AskedOnTheWire(times, request, result.value);
      if request.None? {
        AskedForAll(store.dialect, store.Log());
      }
      return true, events;
    }
  }

  /** Without a filter every saved event is wanted. */
  lemma AskedForAll(d: Dialect, log: seq<Saved>)
    ensures Filter(log, Wanted(d, NO_FILTER)) == log
  {
    SameFilter(log, Wanted(d, NO_FILTER), Keeps(EVERYTHING));
    EverythingKept(log);
  }

  /** What the events have in common that the filter asked for, on the wire. */
  lemma AskedOnTheWire(times: TimeText, request: Option<ProtoFilter>, found: seq<Event>)
    requires var filter := FilterOf(times, request);
      forall e :: e in found ==>
        && (filter.status.Some? ==> e.status == filter.status.value)
        && (filter.sourceService.Some? ==> e.sourceService == filter.sourceService.value)
    ensures request.Some? ==>
              && (request.value.status.Some? && request.value.status.value in {0, 1, 2} ==>
                    forall e :: e in Map(found, ToProto) ==> e.status == request.value.status.value)
              && (request.value.sourceService.Some? ==>
                    forall e :: e in Map(found, ToProto) ==> e.sourceService == request.value.sourceService.value)
  {
    assert forall i :: 0 <= i < |found| ==> found[i] in found;
  }

  method EncodeAll(found: seq<Event>) returns (events: seq<ProtoEvent>)
    ensures events == Map(found, ToProto)
  {
    events := [];
    for i := 0 to |found|
      invariant events == Map(found, ToProto)[..i]
    {
      events := events + [ToProto(found[i])];
    }
  }

  /** `events` is the wire form of what the database may answer to `filter`. */
  ghost predicate Reports(d: Dialect, log: seq<Saved>, filter: EventFilter, events: seq<ProtoEvent>) {
    Bound(d, filter).Some? &&
    exists rows, found ::
      && Answer(log, Bound(d, filter).value, rows) && Fulfils(d, log, filter, rows)
      && ReadBack(d, rows, found) && events == Map(found, ToProto)
  }

  function FilterOf(times: TimeText, request: Option<ProtoFilter>): EventFilter {
    FromProtoFilter(times, if request.Some? then request.value else DEFAULT_FILTER)
  }
}
