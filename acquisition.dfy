/**
 * The acquisition session of `create_dpm_request` (dpmData.py, lines 54-95):
 * every device is registered with the DPM service under its index, the
 * request is started, and the replies are consumed one event at a time. Data
 * is appended to the store under the device's name; an empty batch marks the
 * device's entry of `data_done` True, a status reply marks it False, and the
 * loop stops after the first event at which no entry is still None.
 *
 * The event stream is a finite sequence: the model says what happens to the
 * events that arrive, and how many of them the loop takes.
 */
module Acquisition {

  /** One sample: the timestamp in microseconds and the value. */
  datatype Sample<V> = Sample(micros: int, value: V)

  /** What an event carries: a batch of samples (the `data` attribute) or a status code. */
  datatype Payload<V> = Data(batch: seq<Sample<V>>) | Status(status: int)

  /** One reply of the DPM service, tagged with the index of its device. */
  datatype Event<V> = Event(tag: int, payload: Payload<V>)

  /** An entry of `data_done`: None (no reply yet), True (an empty batch came),
      False (a status came). */
  datatype Reply = NoReply | EndOfData | StatusReply

  /** What the session asks of the DPM service, in order. */
  datatype Command = AddEntry(tag: nat, device: string) | StartAcquisition(request: string)

  /** The HDF store: the samples appended under each key. */
  type Store<V> = map<string, seq<Sample<V>>>

  /** Every event names a registered device. */
  predicate TagsValid<V>(events: seq<Event<V>>, n: nat)
  {
    forall i :: 0 <= i < |events| ==> 0 <= events[i].tag < n
  }

  /** An event that takes its device's entry out of None: an empty batch or a status. */
  predicate IsReply<V>(e: Event<V>)
  {
    e.payload.Status? || e.payload.batch == []
  }

  /** `data_done.count(None) == 0`. */
  predicate AllReplied(replies: seq<Reply>)
  {
    forall i :: 0 <= i < |replies| ==> replies[i] != NoReply
  }

  /** `data_done.count(None)`. */
  function CountNoReply(replies: seq<Reply>): nat
  {
    if replies == [] then 0
    else CountNoReply(replies[..|replies| - 1]) + (if replies[|replies| - 1] == NoReply then 1 else 0)
  }

  /** `[None] * n`. */
  function NoReplies(n: nat): (r: seq<Reply>)
    ensures |r| == n && forall i :: 0 <= i < n ==> r[i] == NoReply
  {
    seq(n, i => NoReply)
  }

  /** The commands of lines 59-60: every device, in order, under its index. */
  function Registrations(devices: seq<string>): (cs: seq<Command>)
    ensures |cs| == |devices|
    ensures forall i :: 0 <= i < |devices| ==> cs[i] == AddEntry(i, devices[i])
  {
    seq(|devices|, i requires 0 <= i < |devices| => AddEntry(i, devices[i]))
  }

  /** The samples stored under a key (none when the key is absent). */
  function Stored<V>(store: Store<V>, key: string): seq<Sample<V>>
  {
    if key in store then store[key] else []
  }

  /** `hdf.append(key, df)`: the batch goes after what the key holds; an empty
      frame writes nothing, so it does not create the key either. */
  function Append<V>(store: Store<V>, key: string, batch: seq<Sample<V>>): (r: Store<V>)
    ensures Stored(r, key) == Stored(store, key) + batch
    ensures key in r <==> key in store || batch != []
    ensures forall k :: k != key ==> (k in r <==> k in store) && Stored(r, k) == Stored(store, k)
  {
    if batch == [] then store else store[key := Stored(store, key) + batch]
  }

  /** The effect of one event on `data_done` (lines 78-79 and 84). */
  function Mark<V>(replies: seq<Reply>, e: Event<V>): (r: seq<Reply>)
    requires 0 <= e.tag < |replies|
    ensures |r| == |replies|
  {
    match e.payload
    case Data(batch) => if batch == [] then replies[e.tag := EndOfData] else replies
    case Status(_) => replies[e.tag := StatusReply]
  }

  /** The effect of one event on the store (line 76): data is appended under the
      device's name, a status leaves the store alone. */
  function Record<V>(store: Store<V>, devices: seq<string>, e: Event<V>): Store<V>
    requires 0 <= e.tag < |devices|
  {
    match e.payload
    case Data(batch) => Append(store, devices[e.tag], batch)
    case Status(_) => store
  }

  /** `data_done` after a sequence of events. */
  function MarkAll<V>(replies: seq<Reply>, events: seq<Event<V>>): (r: seq<Reply>)
    requires TagsValid(events, |replies|)
    ensures |r| == |replies|
  {
    if events == [] then replies
    else Mark(MarkAll(replies, events[..|events| - 1]), events[|events| - 1])
  }

  /** The store after a sequence of events. */
  function RecordAll<V>(store: Store<V>, devices: seq<string>, events: seq<Event<V>>): Store<V>
    requires TagsValid(events, |devices|)
  {
    if events == [] then store
    else Record(RecordAll(store, devices, events[..|events| - 1]), devices, events[|events| - 1])
  }

  /** The batches the events deliver for the devices called `key`, in order. */
  function BatchesFor<V>(devices: seq<string>, events: seq<Event<V>>, key: string): seq<Sample<V>>
    requires TagsValid(events, |devices|)
  {
    if events == [] then []
    else
      var e := events[|events| - 1];
      BatchesFor(devices, events[..|events| - 1], key) +
        (if e.payload.Data? && devices[e.tag] == key then e.payload.batch else [])
  }

  /** `MarkAll` over the first `k` events, one event at a time. */
  lemma MarkAllPrefix<V>(replies: seq<Reply>, events: seq<Event<V>>, k: nat)
    requires TagsValid(events, |replies|) && 0 < k <= |events|
    ensures MarkAll(replies, events[..k]) == Mark(MarkAll(replies, events[..k - 1]), events[k - 1])
  {
    assert events[..k][..k - 1] == events[..k - 1];
  }

  /** `BatchesFor` over the first `k` events, one event at a time. */
  lemma BatchesForPrefix<V>(devices: seq<string>, events: seq<Event<V>>, k: nat, key: string)
    requires TagsValid(events, |devices|) && 0 < k <= |events|
    ensures BatchesFor(devices, events[..k], key) ==
      BatchesFor(devices, events[..k - 1], key) +
        (if events[k - 1].payload.Data? && devices[events[k - 1].tag] == key then events[k - 1].payload.batch else [])
  {
    assert events[..k][..k - 1] == events[..k - 1];
  }

  /** How many events the loop takes, looking from event `k` on: it stops after the
      first event that leaves no entry None, or at the end of the stream. */
  function StopFrom<V>(replies: seq<Reply>, events: seq<Event<V>>, k: nat): (n: nat)
    requires TagsValid(events, |replies|) && k <= |events|
    ensures k <= n <= |events|
    decreases |events| - k
  {
    if k == |events| then k
    else if AllReplied(MarkAll(replies, events[..k + 1])) then k + 1
    else StopFrom(replies, events, k + 1)
  }

  /** The number of events the loop of lines 69-95 consumes. */
  function Consumed<V>(replies: seq<Reply>, events: seq<Event<V>>): (n: nat)
    requires TagsValid(events, |replies|)
    ensures n <= |events|
  {
    StopFrom(replies, events, 0)
  }

  // ---------------------------------------------------------------------------
  // Properties of the loop

  /** The exit test of line 92 is "every entry has a reply". */
  lemma {:induction false} CountNoReplyZero(replies: seq<Reply>)
    ensures CountNoReply(replies) == 0 <==> AllReplied(replies)
  {
    if replies != [] {
      var front := replies[..|replies| - 1];
      CountNoReplyZero(front);
      assert forall i :: 0 <= i < |front| ==> front[i] == replies[i];
    }
  }

  /** The loop consumes events up to and including the first one after which no
      entry is None, and none after it; when there is no such event it consumes
      the whole stream. */
  lemma {:induction false} StopFromIsFirstCompletion<V>(replies: seq<Reply>, events: seq<Event<V>>, k: nat)
    requires TagsValid(events, |replies|) && k <= |events|
    ensures var n := StopFrom(replies, events, k);
      k <= n <= |events| &&
      (k < |events| ==> k < n) &&
      (forall j :: k < j < n ==> !AllReplied(MarkAll(replies, events[..j]))) &&
      (n == |events| || AllReplied(MarkAll(replies, events[..n])))
    decreases |events| - k
  {
    if k < |events| && !AllReplied(MarkAll(replies, events[..k + 1])) {
      StopFromIsFirstCompletion(replies, events, k + 1);
    }
  }

  /** The same, for the whole stream. */
  lemma ConsumedIsFirstCompletion<V>(replies: seq<Reply>, events: seq<Event<V>>)
    requires TagsValid(events, |replies|)
    ensures var n := Consumed(replies, events);
      n <= |events| &&
      (events != [] ==> n >= 1) &&
      (forall j :: 0 < j < n ==> !AllReplied(MarkAll(replies, events[..j]))) &&
      (n == |events| || AllReplied(MarkAll(replies, events[..n])))
  {
    StopFromIsFirstCompletion(replies, events, 0);
  }

  /** An entry with a reply keeps one: no event sets an entry back to None. */
  lemma {:induction false} RepliedStaysReplied<V>(replies: seq<Reply>, events: seq<Event<V>>, i: int)
    requires TagsValid(events, |replies|) && 0 <= i < |replies|
    requires replies[i] != NoReply
    ensures MarkAll(replies, events)[i] != NoReply
  {
    if events != [] {
      RepliedStaysReplied(replies, events[..|events| - 1], i);
    }
  }

  /** A reply event for a device leaves that device's entry out of None for good. */
  lemma {:induction false} ReplyEventMarks<V>(replies: seq<Reply>, events: seq<Event<V>>, j: int)
    requires TagsValid(events, |replies|) && 0 <= j < |events| && IsReply(events[j])
    ensures MarkAll(replies, events)[events[j].tag] != NoReply
  {
    var front := events[..|events| - 1];
    if j < |events| - 1 {
      assert front[j] == events[j];
      ReplyEventMarks(replies, front, j);
    }
  }

  /** An entry that no event names keeps its initial value. */
  lemma {:induction false} UntouchedEntry<V>(replies: seq<Reply>, events: seq<Event<V>>, i: int)
    requires TagsValid(events, |replies|) && 0 <= i < |replies|
    requires forall j :: 0 <= j < |events| ==> events[j].tag != i
    ensures MarkAll(replies, events)[i] == replies[i]
  {
    if events != [] {
      UntouchedEntry(replies, events[..|events| - 1], i);
    }
  }

  /** An entry that starts as None stays None while no empty batch and no status
      names its device; data batches do not change it. */
  lemma {:induction false} UntouchedByReplies<V>(replies: seq<Reply>, events: seq<Event<V>>, i: int)
    requires TagsValid(events, |replies|) && 0 <= i < |replies| && replies[i] == NoReply
    requires forall j :: 0 <= j < |events| ==> !(events[j].tag == i && IsReply(events[j]))
    ensures MarkAll(replies, events)[i] == NoReply
  {
    if events != [] {
      var front := events[..|events| - 1];
      assert forall j :: 0 <= j < |front| ==> front[j] == events[j];
      UntouchedByReplies(replies, front, i);
    }
  }

  /** If a device has no reply and never gets an empty batch or a status (it may
      get data, or nothing), the loop never stops early: it consumes the whole
      stream and the device is still without a reply. */
  lemma NeverRepliedConsumesAll<V>(replies: seq<Reply>, events: seq<Event<V>>, i: int)
    requires TagsValid(events, |replies|) && 0 <= i < |replies| && replies[i] == NoReply
    requires forall j :: 0 <= j < |events| ==> !(events[j].tag == i && IsReply(events[j]))
    ensures Consumed(replies, events) == |events|
    ensures MarkAll(replies, events)[i] == NoReply
  {
    var n := Consumed(replies, events);
    ConsumedIsFirstCompletion(replies, events);
    if n < |events| {
      UntouchedByReplies(replies, events[..n], i);
    }
    UntouchedByReplies(replies, events, i);
  }

  /** If every device gets a reply event (an empty batch or a status), the loop
      stops with every entry out of None. A stream of status replies alone is
      enough. */
  lemma EveryDeviceRepliedStops<V>(replies: seq<Reply>, events: seq<Event<V>>)
    requires TagsValid(events, |replies|)
    requires forall i :: 0 <= i < |replies| ==>
      replies[i] != NoReply || exists j :: 0 <= j < |events| && events[j].tag == i && IsReply(events[j])
    ensures AllReplied(MarkAll(replies, events[..Consumed(replies, events)]))
  {
    var n := Consumed(replies, events);
    ConsumedIsFirstCompletion(replies, events);
    if n == |events| {
      assert events[..n] == events;
      forall i | 0 <= i < |replies|
        ensures MarkAll(replies, events)[i] != NoReply
      {
        if replies[i] != NoReply {
          RepliedStaysReplied(replies, events, i);
        } else {
          var j :| 0 <= j < |events| && events[j].tag == i && IsReply(events[j]);
          ReplyEventMarks(replies, events, j);
        }
      }
    }
  }

  /** The loop ends with every entry out of None exactly when every device
      without a reply gets an empty batch or a status somewhere in the stream. */
  lemma LoopCompletesIff<V>(replies: seq<Reply>, events: seq<Event<V>>)
    requires TagsValid(events, |replies|)
    ensures AllReplied(MarkAll(replies, events[..Consumed(replies, events)])) <==>
      forall i :: 0 <= i < |replies| ==>
        replies[i] != NoReply || exists j :: 0 <= j < |events| && events[j].tag == i && IsReply(events[j])
  {
    var n := Consumed(replies, events);
    if forall i :: 0 <= i < |replies| ==>
        replies[i] != NoReply || exists j :: 0 <= j < |events| && events[j].tag == i && IsReply(events[j]) {
      EveryDeviceRepliedStops(replies, events);
    } else {
      var i :| 0 <= i < |replies| && replies[i] == NoReply &&
        forall j :: 0 <= j < |events| ==> !(events[j].tag == i && IsReply(events[j]));
      var prefix := events[..n];
      assert forall j :: 0 <= j < |prefix| ==> prefix[j] == events[j];
      UntouchedByReplies(replies, prefix, i);
    }
  }

  /** One event changes only the key of its device: a data event appends its
      batch there, a status event changes nothing. */
  lemma RecordPerKey<V>(store: Store<V>, devices: seq<string>, e: Event<V>, key: string)
    requires 0 <= e.tag < |devices|
    ensures var added := if e.payload.Data? && devices[e.tag] == key then e.payload.batch else [];
      Stored(Record(store, devices, e), key) == Stored(store, key) + added &&
      (key in Record(store, devices, e) <==> key in store || added != [])
  {
    if e.payload.Status? {
      assert Stored(store, key) + [] == Stored(store, key);
    } else if devices[e.tag] != key {
      assert Stored(store, key) + [] == Stored(store, key);
    }
  }

  /** Each key holds what it held before, then the batches delivered for it, in
      delivery order; it is present exactly when it was or some batch was not empty. */
  lemma {:induction false} RecordAllPerKey<V>(store: Store<V>, devices: seq<string>, events: seq<Event<V>>, key: string)
    requires TagsValid(events, |devices|)
    ensures Stored(RecordAll(store, devices, events), key) == Stored(store, key) + BatchesFor(devices, events, key)
    ensures key in RecordAll(store, devices, events) <==> key in store || BatchesFor(devices, events, key) != []
  {
    if events == [] {
      assert Stored(store, key) + [] == Stored(store, key);
    } else {
      RecordAllPerKey(store, devices, events[..|events| - 1], key);
      RecordAllPerKeyStep(store, devices, events, key);
    }
  }

  /** One step of `RecordAllPerKey`: from all events but the last to all events. */
  lemma RecordAllPerKeyStep<V>(store: Store<V>, devices: seq<string>, events: seq<Event<V>>, key: string)
    requires TagsValid(events, |devices|) && events != []
    requires var front := events[..|events| - 1];
      Stored(RecordAll(store, devices, front), key) == Stored(store, key) + BatchesFor(devices, front, key) &&
      (key in RecordAll(store, devices, front) <==> key in store || BatchesFor(devices, front, key) != [])
    ensures Stored(RecordAll(store, devices, events), key) == Stored(store, key) + BatchesFor(devices, events, key)
    ensures key in RecordAll(store, devices, events) <==> key in store || BatchesFor(devices, events, key) != []
  {
    var front, e := events[..|events| - 1], events[|events| - 1];
    var mid := RecordAll(store, devices, front);
    var b := BatchesFor(devices, front, key);
    var added := if e.payload.Data? && devices[e.tag] == key then e.payload.batch else [];
    RecordPerKey(mid, devices, e, key);
    LastEventUnfold(store, devices, events, key);
    StoredStep(store, mid, RecordAll(store, devices, events), key, b, added);
  }

  /** How `Stored` and key presence compose over two stages of appending. */
  lemma StoredStep<V>(store: Store<V>, mid: Store<V>, last: Store<V>, key: string, b: seq<Sample<V>>, added: seq<Sample<V>>)
    requires Stored(mid, key) == Stored(store, key) + b && (key in mid <==> key in store || b != [])
    requires Stored(last, key) == Stored(mid, key) + added && (key in last <==> key in mid || added != [])
    ensures Stored(last, key) == Stored(store, key) + (b + added)
    ensures key in last <==> key in store || b + added != []
  {
    assert Stored(store, key) + b + added == Stored(store, key) + (b + added);
  }

  /** `RecordAll` and `BatchesFor` over non-empty events, as equations on the last event. */
  lemma LastEventUnfold<V>(store: Store<V>, devices: seq<string>, events: seq<Event<V>>, key: string)
    requires TagsValid(events, |devices|) && events != []
    ensures var front, e := events[..|events| - 1], events[|events| - 1];
      RecordAll(store, devices, events) == Record(RecordAll(store, devices, front), devices, e) &&
      BatchesFor(devices, events, key) ==
        BatchesFor(devices, front, key) + (if e.payload.Data? && devices[e.tag] == key then e.payload.batch else [])
  {
  }

  // ---------------------------------------------------------------------------
  // The session object

  /** The state `dpm_request` keeps: the commands sent to the service, the
      `data_done` list and the HDF store it appends to. */
  class Session<V> {
    const devices: seq<string>
    const request: string
    var sent: seq<Command>
    var dataDone: array<Reply>
    var store: Store<V>

    ghost predicate Valid()
      reads this
    {
      dataDone.Length == |devices|
    }

    /** A new session: nothing sent yet, `data_done` all None (line 66) and an
        empty store (the output file was deleted before the store was opened). */
    constructor (devices: seq<string>, request: string)
      ensures Valid() && fresh(dataDone)
      ensures this.devices == devices && this.request == request
      ensures sent == [] && store == map[]
      ensures dataDone[..] == NoReplies(|devices|)
    {
      this.devices := devices;
      this.request := request;
      sent := [];
      dataDone := new Reply[|devices|](i => NoReply);
      store := map[];
    }

    /** Lines 59-60: `add_entry(index, device)` for every device in order. */
    method Register()
      modifies this`sent
      ensures sent == old(sent) + Registrations(devices)
    {
      var i := 0;
      while i < |devices|
        invariant 0 <= i <= |devices|
        invariant sent == old(sent) + Registrations(devices)[..i]
      {
        sent := sent + [AddEntry(i, devices[i])];
        i := i + 1;
      }
    }

    /** Line 63: `start(request_type)`. */
    method Start()
      modifies this`sent
      ensures sent == old(sent) + [StartAcquisition(request)]
    {
      sent := sent + [StartAcquisition(request)];
    }

    /** `data_done.count(None)`. */
    method PendingCount() returns (n: nat)
      requires Valid()
      ensures n == CountNoReply(dataDone[..])
      ensures n == 0 <==> AllReplied(dataDone[..])
    {
      n := 0;
      var i := 0;
      while i < dataDone.Length
        invariant 0 <= i <= dataDone.Length
        invariant n == CountNoReply(dataDone[..i])
      {
        assert dataDone[..i + 1][..i] == dataDone[..i];
        if dataDone[i] == NoReply {
          n := n + 1;
        }
        i := i + 1;
      }
      assert dataDone[..i] == dataDone[..];
      CountNoReplyZero(dataDone[..]);
    }

    /** Lines 71-84: one event. Data goes to the store under the device's name; an
        empty batch marks the device True, a status marks it False. */
    method Handle(e: Event<V>)
      requires Valid() && 0 <= e.tag < |devices|
      modifies this`store, dataDone
      ensures Valid()
      ensures store == Record(old(store), devices, e)
      ensures dataDone[..] == Mark(old(dataDone[..]), e)
    {
      match e.payload {
        case Data(batch) =>
          store := Append(store, devices[e.tag], batch);
          if |batch| == 0 {
            dataDone[e.tag] := EndOfData;
          }
        case Status(_) =>
          dataDone[e.tag] := StatusReply;
      }
    }

    /** Lines 69-95: handle events until none of `data_done` is None. Returns how
        many events were taken. */
    method Consume(events: seq<Event<V>>) returns (consumed: nat)
      requires Valid() && TagsValid(events, |devices|)
      modifies this`store, dataDone
      ensures Valid() && consumed <= |events|
      ensures consumed == Consumed(old(dataDone[..]), events)
      ensures dataDone[..] == MarkAll(old(dataDone[..]), events[..consumed])
      ensures store == RecordAll(old(store), devices, events[..consumed])
    {
      ghost var replies0 := dataDone[..];
      ghost var store0 := store;
      consumed := 0;
      while consumed < |events|
        invariant Valid()
        invariant 0 <= consumed <= |events|
        invariant dataDone[..] == MarkAll(replies0, events[..consumed])
        invariant store == RecordAll(store0, devices, events[..consumed])
        invariant Consumed(replies0, events) == StopFrom(replies0, events, consumed)
      {
        var e := events[consumed];
        assert events[..consumed + 1][..consumed] == events[..consumed];
        Handle(e);
        consumed := consumed + 1;
        var pending := PendingCount();
        if pending == 0 {
          return;
        }
      }
    }
  }

  /** `dpm_request` as a whole: a fresh session registers every device, starts the
      request and consumes the stream. Returns the number of events taken, the
      store and the commands sent. */
  method Acquire<V>(devices: seq<string>, request: string, events: seq<Event<V>>)
    returns (consumed: nat, store: Store<V>, sent: seq<Command>)
    requires TagsValid(events, |devices|)
    ensures sent == Registrations(devices) + [StartAcquisition(request)]
    ensures consumed <= |events|
    ensures consumed == Consumed(NoReplies(|devices|), events)
    ensures store == RecordAll(map[], devices, events[..consumed])
  {
    var session := new Session<V>(devices, request);
    session.Register();
    session.Start();
    consumed := session.Consume(events);
    store := session.store;
    sent := session.sent;
  }
}
