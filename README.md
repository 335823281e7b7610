# dpmData.py acquisition core, modelled in Dafny

`dpmData.py` fetches logged data for a list of devices from the DPM (data pool
manager) service and appends it to an HDF5 file. This project models its three
pieces of logic and proves what they promise:

- **The request string** (`hdf_code`, lines 113-139), module `Request` in
  `request.dfy`. Start and end dates give `LOGGER:<startMs>:<endMs>`. A start date
  alone uses the current time as the end. A duration in seconds gives
  `LOGGERDURATION:<ms>`. A non-empty node adds `:<node>`. A duration given with
  either date, or an end date without a start date, stops the program with
  status 2. The string is modelled as `Render(Decide(...))`. `Parse` reads it back,
  and the round trip `Parse(Render(r)) == Some(r)` is proved, so the string pins
  down the request.
- **The device list** (lines 142-152), module `Devices` in `devices.dfy`. A device
  file gives one name per line, right-stripped, in order, blank lines included.
  Without a file the catalog's list is used. A positive limit keeps a prefix.
- **The acquisition session** (`create_dpm_request`/`dpm_request`, lines 54-95),
  module `Acquisition` in `acquisition.dfy`. A `Session` class holds the commands
  sent to the service, the `data_done` array over the three-valued `Reply`
  (None, True, False) and the store. `Consume` is the `async for` loop with its
  early `break`, proved against the specification functions `MarkAll`,
  `RecordAll` and `Consumed`. Lemmas about those functions state when the loop
  stops and what each store key holds.
- **The driver** (`hdf_code`, lines 100-161), module `Driver` in `driver.dfy`.
  `Text` (`text.dfy`) holds Python's `str(int)`, `int(str)` and `str.rstrip()`.
  The two strips use different whitespace sets. `rstrip()` uses CPython's `str.isspace`
  set: Unicode White_Space plus the separators U+001C..U+001F. `int()` skips only the C locale's ASCII whitespace (tab, newline,
  vertical tab, form feed, carriage return, space) plus non-ASCII Unicode whitespace.
  So the separators U+001C..U+001F are whitespace to `rstrip()` but not to `int()`.
  `Wrappers` (`wrappers.dfy`) holds `Option` and `Result`.

A status reply completes a device as far as the loop is concerned. It would be
easy to assume that only an empty batch does, so that a device receiving only
status replies would stall the session. That is not what the code does. A status
reply sets the entry to False (line 84, whose comment says a separate status value
was intended). The exit test counts only None entries (line 92), so False counts
as a reply. The model follows the code. `EveryDeviceRepliedStops` proves that the
loop stops once every device has had an empty batch or a status reply.

## Model

| member | source | states |
|---|---|---|
| `Text.RStrip` | dpmData.py:146 | `line.rstrip()` (with `StrIsSpace`, Python's `isspace` set) is the longest prefix of the line that does not end in whitespace; everything removed is whitespace |
| `Text.NatToString` | dpmData.py:121-122 | `str` of a natural number is non-empty, all decimal digits, with no leading zero |
| `Text.ParseIntAccepts` | dpmData.py:135 | `int()` accepts any run of decimal digits with an optional `+` or `-` and the padding `int()` skips (`IntPadding`) on either side, and gives the signed value of the digits |
| `Text.ParseIntRejectsSeparator` | dpmData.py:135 | a separator U+001C..U+001F is whitespace to `str.isspace`, yet `int()` rejects digits led by one |
| `Text.ParseIntShape` | dpmData.py:135 | conversely, whenever `int()` accepts a text, that text is `IntPadding` whitespace, then an optional sign and at least one digit, then `IntPadding` whitespace, and the value is that of the digits with the sign |
| `Text.ParseIntOfIntToString` | dpmData.py:135-136 | `int(str(i)) == i` for every integer, negative ones included |
| `Text.IntToStringInjective` | dpmData.py:120-122 | distinct millisecond values give distinct decimal strings |
| `Request.BuildRequestString` | dpmData.py:113-139 | duration with a start or end date fails with ConflictingTimeSpec; end date alone fails with MissingStartTime; start and end give exactly `"LOGGER:" + str(ms(start)) + ":" + str(ms(end))`; start alone puts `now` at the end; a duration alone gives `"LOGGERDURATION:" + str(int(d)*1000)` or InvalidDuration when `int` rejects it; no time option gives `""`; each is followed by `":" + node` exactly when the node is non-empty |
| `Request.RenderRoundTrip` | dpmData.py:119-139 | reading a request string back gives the window and node that produced it |
| `Request.RenderInjective` | dpmData.py:119-139 | two different requests never share a request string |
| `Request.BuildRequestStringDecodes` | dpmData.py:113-139 | a built string decodes to the request the if/elif chain chose, whose node is the given node when non-empty and absent otherwise |
| `Devices.TranslateRemovesCr` | dpmData.py:145 | reading the file in text mode leaves no carriage return |
| `Devices.TranslateKeepsPlainText` | dpmData.py:145 | text without a carriage return reads unchanged |
| `Devices.TranslateSplit` | dpmData.py:145 | text cut anywhere except inside a `\r\n` translates piece by piece |
| `Devices.TranslateCrLf` | dpmData.py:145 | each `\r\n` reads as one `\n`, with the text on either side translated on its own |
| `Devices.TranslateLoneCr` | dpmData.py:145 | each `\r` not followed by `\n` reads as one `\n`, with the text on either side translated on its own |
| `Devices.Lines` | dpmData.py:145-146 | the lines of the file, concatenated, are the text; each is non-empty and holds a newline only as its last character; every line but the last ends in one |
| `Devices.LineCount` | dpmData.py:145-146 | there are as many lines as newlines, plus one for text after the last newline |
| `Devices.NamesFromFileLines` | dpmData.py:146 | the `if line` filter drops no line of a file: one name per line, the i-th name is the i-th line right-stripped |
| `Devices.NamesFromFileAreLines` | dpmData.py:144-146 | the names read from a file are its lines in order, each right-stripped, so a blank line gives `""` |
| `Devices.KeepBelowIsPrefix` | dpmData.py:151-152 | the comprehension over `enumerate` with `index < limit` keeps exactly the names before position `limit`, in order |
| `Devices.LimitIsPrefix` | dpmData.py:150-152 | a limit N > 0 keeps the first min(N, len) names in their order; N <= 0 leaves the list unchanged |
| `Devices.ResolveDevices` | dpmData.py:144-152 | the file's names when a non-empty path is given, otherwise the catalog's list, cut to a prefix of length min(limit, len) when the limit is positive |
| `Acquisition.NoReplies` | dpmData.py:66 | `data_done` starts with one None per device |
| `Acquisition.Registrations` | dpmData.py:59-60 | every device is registered, in order, under its own index |
| `Acquisition.Append` | dpmData.py:72-76 | appending puts the batch after what the key holds; an empty batch changes nothing and does not create the key; other keys are untouched |
| `Acquisition.CountNoReplyZero` | dpmData.py:92 | `data_done.count(None) == 0` holds exactly when every entry has a reply |
| `Acquisition.StopFrom` | dpmData.py:69-95 | scanning from event k, the loop stops at some n with k <= n <= len(events) |
| `Acquisition.StopFromIsFirstCompletion` | dpmData.py:91-95 | from event k, the loop takes at least one event if any is left, stops after the first event that leaves no entry None, and otherwise takes the whole stream |
| `Acquisition.ConsumedIsFirstCompletion` | dpmData.py:69-95 | the loop takes events up to and including the first after which no entry is None, and no later event; with no such event it takes the whole stream |
| `Acquisition.RepliedStaysReplied` | dpmData.py:78-84 | no event sets an entry back to None |
| `Acquisition.ReplyEventMarks` | dpmData.py:78-84 | after an empty batch or a status for a device, that device's entry is not None |
| `Acquisition.UntouchedEntry` | dpmData.py:66-84 | an entry that no event names keeps its initial value |
| `Acquisition.UntouchedByReplies` | dpmData.py:71-84 | an entry that starts as None stays None while no empty batch and no status names its device; non-empty data batches do not change it |
| `Acquisition.NeverRepliedConsumesAll` | dpmData.py:91-95 | if a device without a reply never gets an empty batch or a status (it may get data, or nothing), the loop never stops early: it takes the whole stream and that entry stays None |
| `Acquisition.LoopCompletesIff` | dpmData.py:69-95 | the loop ends with no entry None exactly when every device that started without a reply gets an empty batch or a status somewhere in the stream |
| `Acquisition.EveryDeviceRepliedStops` | dpmData.py:78-95 | if every device gets an empty batch or a status, the loop stops with no entry None; status replies alone are enough |
| `Acquisition.RecordPerKey` | dpmData.py:71-84 | one data event appends its batch to its device's key only; a status event leaves the store unchanged |
| `Acquisition.RecordAllPerKey` | dpmData.py:69-84 | each key holds its earlier samples followed by the batches delivered for it, in delivery order; a key is present exactly when it was before or one of its batches was non-empty |
| `Acquisition.Session.constructor` | dpmData.py:66 | a new session has sent nothing, has `data_done` all None with one entry per device, and an empty store |
| `Acquisition.Session.Register` | dpmData.py:59-60 | `add_entry(index, device)` is sent for every device in order |
| `Acquisition.Session.Start` | dpmData.py:63 | the request is started after what was sent before |
| `Acquisition.Session.PendingCount` | dpmData.py:92 | returns `data_done.count(None)`, which is 0 exactly when every entry has a reply |
| `Acquisition.Session.Handle` | dpmData.py:71-84 | one event: data is appended under `devices[tag]`; an empty batch sets the entry to True; a status sets it to False and leaves the store alone |
| `Acquisition.Session.Consume` | dpmData.py:69-95 | takes exactly `Consumed` events; `data_done` and the store are then the effect of those events and of no later one |
| `Acquisition.Acquire` | dpmData.py:54-95 | registers every device, then starts the request, then consumes: the number of events taken and the store are those of the loop from all-None and an empty store |
| `Driver.ExitStatus` | dpmData.py:115-135 | the two option conflicts end the program with status 2 (lines 117 and 132); a duration that `int()` rejects raises an uncaught `ValueError`, which ends it with status 1 |
| `Driver.HdfCode` | dpmData.py:100-161 | an invalid time specification ends with its exit status before any device list or store exists; otherwise the run sends the built request for the resolved devices and stores what the loop takes |
| `Driver.ThreeDeviceSessionStops` | dpmData.py:69-95 | with devices A, B, C and a stream of seven replies (data for A and B, an empty batch for C, then for A, then for B, then a status for B), the loop stops after the last empty batch, the sixth event, and leaves the status reply unread |
| `Driver.ThreeDeviceSessionStore` | dpmData.py:71-79 | after those six events A holds its four samples in order, B its five, and C, which only sent an empty batch, has no key |

## Left out

- Command-line parsing and `sys.exit` (lines 17-45, 116-117, 131-132): the options arrive as `Request.Args`, and an exit is an `Error` value with its status in `Driver.ExitStatus`. The printed messages are not modelled.
- `local_to_utc_ms` (lines 48-51): time-zone conversion and float multiplication. The model takes it as the function parameter `toUtcMs` and fixes nothing about it.
- `datetime.datetime.now()` (line 125): the clock is the parameter `now`.
- Request.BuildRequestString: for a duration written with underscore separators (`1_000`) or with non-ASCII decimal digits, the model reports `InvalidDuration` where Python's `int()` accepts the text. Surrounding whitespace, with the narrower set `int()` skips, and a sign are modelled. The limit on integer string conversion is not modelled either. Since CPython 3.11 (and the security releases 3.7.14, 3.8.14, 3.9.14 and 3.10.7), `int()` at line 135 rejects a duration of more than `sys.get_int_max_str_digits()` digits (4300 by default, configurable, absent in older versions). `str()` at line 136 likewise rejects a product of more than that many digits. Python then exits with status 1, where the model builds the request.
- Text.ParseIntAccepts: holds for digit runs of any length. Python versions with the integer string conversion limit reject runs longer than `sys.get_int_max_str_digits()` (4300 by default). The limit depends on the version and the configuration, so it is not modelled. `Text.NatToString`, `Text.IntToString` and `Text.ParseIntOfIntToString` likewise ignore it.
- A start or end date counts as given whenever it is present, because a Python `datetime` is always true.
- The DPM transport (lines 57, 60, 63, 69, 161): connecting, `add_entry`, `start` and the asynchronous iteration belong to an external client library. The model records the commands as `Command` values and takes the replies as a finite sequence of events. Transport faults are not modelled. The real stream does not end, so where the model "takes the whole stream", the program keeps waiting for more events.
- Acquisition.Session.Consume: it requires every event's tag to be a registered index. The service only tags replies with registered indices. A tag out of range would make Python raise `IndexError`, and a negative one would index from the end of the list. Neither case is modelled.
- pandas and the HDF5 file (lines 72-76, 154-157, 163-167): the store is a map from device name to samples. It starts empty because the output file is deleted before it is opened. HDF key normalisation is not modelled, and neither is the check that the timestamp and value columns have equal lengths.
- Reading the device file (line 145): the file's text arrives as the parameter `fileText`. Character decoding is not modelled. A device file that cannot be opened raises `OSError` at line 145, and the program ends with status 1 before any session starts. The model has no such case: `Driver.HdfCode` always finishes once the request string is built.
- `helper_methods.get_latest_device_list()` (line 148): this is an external catalog call and is not part of this model. Its result is the parameter `catalog`.
- Debug output and warning suppression (lines 87-89, 93-94, 110-111, 163-167): these only produce output.
