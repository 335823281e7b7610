/**
 * `hdf_code` in sequence (dpmData.py, lines 100-161): build the request string,
 * stop with the exit status when that fails, otherwise resolve the device list,
 * start from an empty store and run the acquisition session.
 */
module Driver {
  import opened Wrappers
  import opened Request
  import opened Devices
  import opened Acquisition

  /** How a run ends: an exit status before any device is read or any store is
      opened, or a finished session with what it sent, took and stored. */
  datatype Outcome<V> =
    | Exit(status: int)
    | Finished(request: string, devices: seq<string>, sent: seq<Command>, consumed: nat, store: Store<V>)

  /** `sys.exit(2)` for the two option conflicts; an uncaught `ValueError` ends
      Python with status 1. */
  function ExitStatus(e: Error): (code: int)
    ensures code == 2 <==> e.ConflictingTimeSpec? || e.MissingStartTime?
    ensures code == 1 <==> e.InvalidDuration?
  {
    match e
    case ConflictingTimeSpec => 2
    case MissingStartTime => 2
    case InvalidDuration(_) => 1
  }

  /** One run of the program. `fileText` is what reading the device file gives,
      `catalog` what the device catalog returns, `events` the service's replies. */
  method HdfCode<T, V>(a: Args<T>, now: T, toUtcMs: T -> int, deviceFile: Option<string>, fileText: string,
                       catalog: seq<string>, limit: int, events: seq<Event<V>>)
    returns (o: Outcome<V>)
    requires BuildRequestString(a, now, toUtcMs).Success? ==>
      TagsValid(events, |ResolveDevices(deviceFile, fileText, catalog, limit)|)
    ensures BuildRequestString(a, now, toUtcMs).Failure? ==>
      o == Exit(ExitStatus(BuildRequestString(a, now, toUtcMs).error))
    ensures BuildRequestString(a, now, toUtcMs).Success? ==>
      o.Finished? &&
      o.request == BuildRequestString(a, now, toUtcMs).value &&
      o.devices == ResolveDevices(deviceFile, fileText, catalog, limit) &&
      o.sent == Registrations(o.devices) + [StartAcquisition(o.request)] &&
      o.consumed == Consumed(NoReplies(|o.devices|), events) &&
      o.store == RecordAll(map[], o.devices, events[..o.consumed])
  {
    var built := BuildRequestString(a, now, toUtcMs);
    if built.Failure? {
      return Exit(ExitStatus(built.error));
    }
    var devices := ResolveDevices(deviceFile, fileText, catalog, limit);
    var consumed, store, sent := Acquire(devices, built.value, events);
    o := Finished(built.value, devices, sent, consumed, store);
  }

  /** A sample taken at `micros` whose value is the same number. */
  function SampleAt(micros: int): Sample<int>
  {
    Sample(micros, micros)
  }

  /** Three devices of a session. */
  function ThreeDevices(): seq<string>
  {
    ["A", "B", "C"]
  }

  /** The replies of the session, in the order they arrive: A gets two batches of
      two samples then an empty one, B one batch of five then an empty one, C an
      empty one at once; a status reply for B follows. */
  predicate ThreeDeviceStream(events: seq<Event<int>>)
  {
    |events| == 7 &&
    events[0] == Event(0, Data([SampleAt(1), SampleAt(2)])) &&
    events[1] == Event(1, Data([SampleAt(1), SampleAt(2), SampleAt(3), SampleAt(4), SampleAt(5)])) &&
    events[2] == Event(0, Data([SampleAt(3), SampleAt(4)])) &&
    events[3] == Event(2, Data([])) &&
    events[4] == Event(0, Data([])) &&
    events[5] == Event(1, Data([])) &&
    events[6] == Event(1, Status(7))
  }

  /** Every event of the stream names one of the three devices. */
  lemma ThreeDeviceStreamTags(events: seq<Event<int>>)
    requires ThreeDeviceStream(events)
    ensures TagsValid(events, 3)
  {
    forall i | 0 <= i < |events|
      ensures 0 <= events[i].tag < 3
    {
      if i == 0 {} else if i == 1 {} else if i == 2 {} else if i == 3 {}
      else if i == 4 {} else if i == 5 {} else {}
    }
  }

  /** The loop stops after the sixth event, the last empty batch, and leaves the
      status reply after it unread. */
  lemma ThreeDeviceSessionStops(events: seq<Event<int>>)
    requires ThreeDeviceStream(events)
    ensures Consumed(NoReplies(3), events) == 6
  {
    ThreeDeviceStreamTags(events);
    var r0 := NoReplies(3);
    assert events[..0] == [];
    assert MarkAll(r0, events[..1]) == r0 by { MarkAllPrefix(r0, events, 1); }
    assert MarkAll(r0, events[..2]) == r0 by { MarkAllPrefix(r0, events, 2); }
    assert MarkAll(r0, events[..3]) == r0 by { MarkAllPrefix(r0, events, 3); }
    assert MarkAll(r0, events[..4]) == [NoReply, NoReply, EndOfData] by { MarkAllPrefix(r0, events, 4); }
    assert MarkAll(r0, events[..5]) == [EndOfData, NoReply, EndOfData] by { MarkAllPrefix(r0, events, 5); }
    assert MarkAll(r0, events[..6]) == [EndOfData, EndOfData, EndOfData] by { MarkAllPrefix(r0, events, 6); }
    forall j | 1 <= j <= 5
      ensures !AllReplied(MarkAll(r0, events[..j]))
    {
      if j == 1 {} else if j == 2 {} else if j == 3 {} else if j == 4 {} else {}
      assert MarkAll(r0, events[..j])[1] == NoReply;
    }
    ConsumedIsFirstCompletion(r0, events);
  }

  lemma ThreeDeviceBatchesA(devices: seq<string>, events: seq<Event<int>>)
    requires devices == ThreeDevices() && ThreeDeviceStream(events)
    ensures BatchesFor(devices, events[..6], "A") == [SampleAt(1), SampleAt(2), SampleAt(3), SampleAt(4)]
  {
    ThreeDeviceStreamTags(events);
    assert devices[1] != "A" && devices[2] != "A" by {
      assert devices[1][0] == 'B' && devices[2][0] == 'C';
    }
    assert events[..0] == [];
    assert BatchesFor(devices, events[..1], "A") == [SampleAt(1), SampleAt(2)] by { BatchesForPrefix(devices, events, 1, "A"); }
    assert BatchesFor(devices, events[..2], "A") == [SampleAt(1), SampleAt(2)] by { BatchesForPrefix(devices, events, 2, "A"); }
    assert BatchesFor(devices, events[..3], "A") == [SampleAt(1), SampleAt(2), SampleAt(3), SampleAt(4)] by { BatchesForPrefix(devices, events, 3, "A"); }
    assert BatchesFor(devices, events[..4], "A") == [SampleAt(1), SampleAt(2), SampleAt(3), SampleAt(4)] by { BatchesForPrefix(devices, events, 4, "A"); }
    assert BatchesFor(devices, events[..5], "A") == [SampleAt(1), SampleAt(2), SampleAt(3), SampleAt(4)] by { BatchesForPrefix(devices, events, 5, "A"); }
    assert BatchesFor(devices, events[..6], "A") == [SampleAt(1), SampleAt(2), SampleAt(3), SampleAt(4)] by { BatchesForPrefix(devices, events, 6, "A"); }
  }

  lemma ThreeDeviceBatchesB(devices: seq<string>, events: seq<Event<int>>)
    requires devices == ThreeDevices() && ThreeDeviceStream(events)
    ensures BatchesFor(devices, events[..6], "B") == [SampleAt(1), SampleAt(2), SampleAt(3), SampleAt(4), SampleAt(5)]
  {
    ThreeDeviceStreamTags(events);
    assert devices[0] != "B" && devices[2] != "B" by {
      assert devices[0][0] == 'A' && devices[2][0] == 'C';
    }
    assert events[..0] == [];
    assert BatchesFor(devices, events[..1], "B") == [] by { BatchesForPrefix(devices, events, 1, "B"); }
    assert BatchesFor(devices, events[..2], "B") == [SampleAt(1), SampleAt(2), SampleAt(3), SampleAt(4), SampleAt(5)] by { BatchesForPrefix(devices, events, 2, "B"); }
    assert BatchesFor(devices, events[..3], "B") == [SampleAt(1), SampleAt(2), SampleAt(3), SampleAt(4), SampleAt(5)] by { BatchesForPrefix(devices, events, 3, "B"); }
    assert BatchesFor(devices, events[..4], "B") == [SampleAt(1), SampleAt(2), SampleAt(3), SampleAt(4), SampleAt(5)] by { BatchesForPrefix(devices, events, 4, "B"); }
    assert BatchesFor(devices, events[..5], "B") == [SampleAt(1), SampleAt(2), SampleAt(3), SampleAt(4), SampleAt(5)] by { BatchesForPrefix(devices, events, 5, "B"); }
    assert BatchesFor(devices, events[..6], "B") == [SampleAt(1), SampleAt(2), SampleAt(3), SampleAt(4), SampleAt(5)] by { BatchesForPrefix(devices, events, 6, "B"); }
  }

  lemma ThreeDeviceBatchesC(devices: seq<string>, events: seq<Event<int>>)
    requires devices == ThreeDevices() && ThreeDeviceStream(events)
    ensures BatchesFor(devices, events[..6], "C") == []
  {
    ThreeDeviceStreamTags(events);
    assert devices[0] != "C" && devices[1] != "C" by {
      assert devices[0][0] == 'A' && devices[1][0] == 'B';
    }
    assert events[..0] == [];
    assert BatchesFor(devices, events[..1], "C") == [] by { BatchesForPrefix(devices, events, 1, "C"); }
    assert BatchesFor(devices, events[..2], "C") == [] by { BatchesForPrefix(devices, events, 2, "C"); }
    assert BatchesFor(devices, events[..3], "C") == [] by { BatchesForPrefix(devices, events, 3, "C"); }
    assert BatchesFor(devices, events[..4], "C") == [] by { BatchesForPrefix(devices, events, 4, "C"); }
    assert BatchesFor(devices, events[..5], "C") == [] by { BatchesForPrefix(devices, events, 5, "C"); }
    assert BatchesFor(devices, events[..6], "C") == [] by { BatchesForPrefix(devices, events, 6, "C"); }
  }

  /** After those six events A holds its four samples in order, B its five, and
      C, which only sent an empty batch, has no key. */
  lemma ThreeDeviceSessionStore(events: seq<Event<int>>)
    requires ThreeDeviceStream(events)
    ensures TagsValid(events, 3)
    ensures var store := RecordAll(map[], ThreeDevices(), events[..6]);
      Stored(store, "A") == [SampleAt(1), SampleAt(2), SampleAt(3), SampleAt(4)] &&
      Stored(store, "B") == [SampleAt(1), SampleAt(2), SampleAt(3), SampleAt(4), SampleAt(5)] &&
      "C" !in store
  {
    var devices := ThreeDevices();
    ThreeDeviceStreamTags(events);
    var prefix := events[..6];
    ThreeDeviceBatchesA(devices, events);
    ThreeDeviceBatchesB(devices, events);
    ThreeDeviceBatchesC(devices, events);
    RecordAllPerKey(map[], devices, prefix, "A");
    RecordAllPerKey(map[], devices, prefix, "B");
    RecordAllPerKey(map[], devices, prefix, "C");
  }
}
