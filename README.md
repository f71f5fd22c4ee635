# OpenPLC–Simulink interface: a Dafny model of its core

The interface is a bridge process. It reads `interface.cfg` to learn how
many OpenPLC stations there are, the Simulink host, and each station's
address and UDP ports. It keeps one `PlcData` record per station: eight
analog inputs, eight analog outputs, sixteen digital inputs and sixteen
digital outputs. Worker threads then move values between that table,
Simulink and the stations.

This project models the core of `OpenPLC_Simulink_Interface.py`:

- **`PyStr`**: the Python built-ins the configuration reader relies on, on
  `string`. These are `str.find`, `split(c)[0]` and `[1]`, the `re.split`
  used by `getFunction`, `strip`, `startswith`, `int(str)` and list
  indexing with negative positions.
- **`Codec`**: a station record as a value, and the 64-byte frame of
  `PlcData.pack`/`unpack`. The struct format is `8H8H16?16?`: sixteen
  16-bit words and then thirty-two one-byte booleans. It also models the
  single-slot write of `receiveSimulinkData`.
- **`Config`**: `getData`, `getStationNumber`, `getFunction`, `addPlcPort`
  and the per-line `if`/`elif` chain of `parseConfigFile`. They work on a
  value `Globals` that holds the four module globals. Reading the file is
  a fold over its lines that stops at the first line that raises.
- **`PlcLink`**: one round of `exchangeDataWithPLC`. A round packs the
  station's record and sends it. It then makes at most eleven receive
  attempts, and a decoded frame replaces the record. The module has the
  round as written and the round as evidently intended (see Findings).
- **`Bridge`**: the objects themselves, with fields the methods update in
  place.
  - `PlcData` and `StationInfo` are classes.
  - `Interface` holds the module globals. Its methods parse the file,
    write one sample and run a PLC round.
  - Each method is proved against the value-level definitions above, read
    back through `Snapshot()`.

Python exceptions that end a thread or the program are modelled as error
results:

- a `ValueError` from `int()`;
- an `IndexError` from `line[0]`, `split('.')[1]` or list indexing;
- the `struct.error` of `pack` and `unpack`.

A line that raises changes nothing, because each branch of
`parseConfigFile` raises before it assigns.

Three behaviours of the code are easy to misread, and the model follows
the code in each:

- **Number of attempts.** The receive loop makes up to eleven attempts,
  not ten, because the `counter > 10` check comes after the increment.
- **Exhausted round.** A round in which nothing is received installs a
  fresh all-zero record. It does not keep the previous one (see Findings).
- **Byte order.** The struct format has no byte-order prefix, so words use
  the host's native order. The model fixes it to little-endian, the order
  of x86 hosts and of ARM hosts in their usual configuration. `'@'`
  alignment adds no padding to this format.

## Model

| member | source | states |
|---|---|---|
| PyStr.Find | OpenPLC_Simulink_Interface.py:79-80 | `find` returns the index of the first occurrence, with no occurrence before it, or -1 exactly when the character is absent |
| PyStr.FirstField | OpenPLC_Simulink_Interface.py:89 | `split(c)[0]` is the prefix before the first `c`, or the whole text |
| PyStr.SecondField | OpenPLC_Simulink_Interface.py:95 | `split(c)[1]` fails (IndexError) exactly when `c` is absent; otherwise it is the text right after the first `c`, up to the second `c` or the end of the text |
| PyStr.SecondFieldAt | OpenPLC_Simulink_Interface.py:95 | once the text before the first `c` is known, `split(c)[1]` is the first field of what follows it |
| PyStr.UntilAny | OpenPLC_Simulink_Interface.py:96 | `re.split` on `=` or `(`, element 0, is the longest prefix containing neither `=` nor `(` |
| PyStr.StartsWithPrefix | OpenPLC_Simulink_Interface.py:128-137 | `startswith(p)` holds exactly when `p` is a prefix of the line |
| PyStr.Strip | OpenPLC_Simulink_Interface.py:96 | `strip()` yields characters of its input and neither starts nor ends with whitespace |
| PyStr.StripLeftDropsSpace | OpenPLC_Simulink_Interface.py:96 | what `lstrip` removes is all whitespace |
| PyStr.StripRightDropsSpace | OpenPLC_Simulink_Interface.py:96 | what `rstrip` removes is all whitespace |
| PyStr.StripPadded | OpenPLC_Simulink_Interface.py:96 | stripping removes exactly the whitespace padding around a text |
| PyStr.ParseIntRender | OpenPLC_Simulink_Interface.py:89 | `int(str(n)) == n` for every integer, also with whitespace other than U+001C..U+001F around the digits |
| PyStr.ParseIntRejectsSeparator | OpenPLC_Simulink_Interface.py:104 | `int()` raises ValueError on any text that contains one of U+001C..U+001F, which `strip` treats as whitespace but `int()` does not skip |
| PyStr.SeparatorIsNotPadding | OpenPLC_Simulink_Interface.py:129 | `"\x1c5".strip()` is `"5"` and `int("5")` is 5, yet `int("\x1c5")` raises |
| PyStr.ParseIntRejects | OpenPLC_Simulink_Interface.py:104 | `int()` raises ValueError on any text with a character other than padding, digits and one leading sign |
| PyStr.PyIndex | OpenPLC_Simulink_Interface.py:141-143 | `stationsInfo[k]` exists exactly when `-n <= k < n`, and a negative `k` counts from the end |
| Codec.Zero | OpenPLC_Simulink_Interface.py:37-41 | `PlcData()` holds zeros and `False` everywhere and can be packed |
| Codec.Encode | OpenPLC_Simulink_Interface.py:43-46 | `pack()` always fills the 64-byte frame |
| Codec.Decode | OpenPLC_Simulink_Interface.py:48-53 | `unpack` accepts exactly the 64-byte inputs (struct.error otherwise), and what it yields can be packed again |
| Codec.UnpackPackWords | OpenPLC_Simulink_Interface.py:45-49 | code `H` unpacks to the words that were packed |
| Codec.PackUnpackFlags | OpenPLC_Simulink_Interface.py:45-49 | code `?` repacks unpacked bytes unchanged exactly when each byte was 0 or 1 |
| Codec.DecodeEncode | OpenPLC_Simulink_Interface.py:43-53 | `unpack(pack(d))` restores all four buffers of every packable record |
| Codec.EncodeInjective | OpenPLC_Simulink_Interface.py:43-46 | two distinct packable records never share a frame |
| Codec.UnpackWordsAt | OpenPLC_Simulink_Interface.py:49 | unpacked word `i` is bytes `2i` and `2i+1`, low byte first |
| Codec.UnpackFlagsAt | OpenPLC_Simulink_Interface.py:49 | unpacked flag `i` is `True` exactly when byte `i` is not zero |
| Codec.DecodeLayout | OpenPLC_Simulink_Interface.py:48-53 | any 64-byte frame decodes to analogIn from the little-endian words at bytes 0-15, analogOut from bytes 16-31, and digitalIn and digitalOut from bytes 32-47 and 48-63, each flag `True` exactly when its byte is not zero |
| Codec.EncodeDecode | OpenPLC_Simulink_Interface.py:48-53 | a 64-byte frame survives unpack-then-pack exactly when its 32 flag bytes are 0 or 1 |
| Codec.EncodeLayout | OpenPLC_Simulink_Interface.py:45 | the frame holds analogIn at bytes 0-15 and analogOut at 16-31 as little-endian words, then digitalIn at 32-47 and digitalOut at 48-63 as one byte each |
| Codec.StoreSample | OpenPLC_Simulink_Interface.py:261-264 | a sample writes `digitalIn[j]` for a digital input and `analogIn[j]` otherwise, and every other slot of every buffer is unchanged |
| Config.FreshRecords | OpenPLC_Simulink_Interface.py:130 | `num_stations = n` gives `max(n, 0)` all-zero records |
| Config.FreshRoster | OpenPLC_Simulink_Interface.py:131 | `num_stations = n` gives `max(n, 0)` empty station entries |
| Config.GetData | OpenPLC_Simulink_Interface.py:78-83 | `getData` returns empty text without `s1`, and its result never contains `s2` |
| Config.GetDataBetween | OpenPLC_Simulink_Interface.py:78-83 | with a first `s1` and a later `s2`, `getData` returns exactly the text between them |
| Config.GetDataUnclosed | OpenPLC_Simulink_Interface.py:78-83 | with no `s2` after the first `s1`, `getData` returns empty text |
| Config.StationNumberOf | OpenPLC_Simulink_Interface.py:88-89 | `getStationNumber` reads back the number written between `station` and the first dot, negative numbers included |
| Config.GetFunction | OpenPLC_Simulink_Interface.py:94-96 | `getFunction` raises IndexError exactly when the line has no dot; its result has no `.`, `=` or `(` and no surrounding whitespace |
| Config.FunctionOf | OpenPLC_Simulink_Interface.py:94-96 | the name written after the first dot, before `=` or `(` and any whitespace, is the one `getFunction` returns |
| Config.WithPort | OpenPLC_Simulink_Interface.py:106-113 | appending a port extends the one list of its type and leaves the address and the other lists as they were |
| Config.AddPort | OpenPLC_Simulink_Interface.py:101-114 | `addPlcPort` raises ValueError exactly when the port is not a number, and then changes nothing; otherwise it appends to the list the type names, and an unknown type changes nothing |
| Config.ReadPortSpecOf | OpenPLC_Simulink_Interface.py:103-104 | a line `... (type) ... "port" ...` yields that type and that port |
| Config.ClassifyInert | OpenPLC_Simulink_Interface.py:126-133 | an empty line raises IndexError; comments, one-character lines and unknown keys do nothing; a `comm_delay` line at most raises ValueError |
| Config.ClassifyNumStations | OpenPLC_Simulink_Interface.py:128-131 | a line resizes the tables exactly when it is a `num_stations` line whose quoted value is an integer, and the new count is that integer |
| Config.ClassifySimulink | OpenPLC_Simulink_Interface.py:134-135 | a line sets the Simulink address exactly when it starts with `simulink` |
| Config.ClassifyStationKey | OpenPLC_Simulink_Interface.py:137-143 | only `station` lines address a station entry, and the entry is the one their number names |
| Config.ClassifyStation | OpenPLC_Simulink_Interface.py:137-143 | `station<k>.ip = ...` sets entry `k`'s address to the quoted text, and `station<k>.add(...)` adds a port to entry `k` |
| Config.Execute | OpenPLC_Simulink_Interface.py:128-143 | a branch fails only on a raise, a missing station index or a non-numeric port, and then changes nothing. `num_stations` replaces both tables with `n` fresh records; every other branch changes at most the Simulink address or the one station entry it names |
| Config.ParseLinesStep | OpenPLC_Simulink_Interface.py:126-143 | reading the file takes the lines in order and stops at the first line that raises |
| Config.ParseLinesConsistent | OpenPLC_Simulink_Interface.py:129-131 | reading a file keeps both tables at one entry per station |
| Config.ParseLinesAppend | OpenPLC_Simulink_Interface.py:126 | reading two parts of a file one after the other is the same as reading the whole file |
| Config.SkippedLineInert | OpenPLC_Simulink_Interface.py:127 | a comment or one-character line can be inserted anywhere without effect |
| PlcLink.Attempt | OpenPLC_Simulink_Interface.py:356-362 | one try yields a record exactly when a 64-byte datagram arrived, and the record can be packed |
| PlcLink.ReceiveFrom | OpenPLC_Simulink_Interface.py:355-367 | the loop makes between 1 and 11 attempts, all failed but the last; it ends at its first frame, or with no frame only after eleven attempts of which the eleventh failed too |
| PlcLink.FirstFrameWins | OpenPLC_Simulink_Interface.py:355-367 | the first attempt that yields a frame ends the loop, and its frame is the one kept |
| PlcLink.NoFrameExhausts | OpenPLC_Simulink_Interface.py:361-367 | eleven failed attempts end the loop with nothing received |
| PlcLink.ReceiveIgnoresLater | OpenPLC_Simulink_Interface.py:364-367 | outcomes after the eleventh attempt never matter |
| PlcLink.Round | OpenPLC_Simulink_Interface.py:341-390 | a failing `pack`, a `send` that raises or a short send keeps the record; otherwise the round reports its attempt count (1 to 11); a packable record stays packable |
| PlcLink.RoundInstallsFirstFrame | OpenPLC_Simulink_Interface.py:352-390 | a round replaces the whole record with the first frame received |
| PlcLink.ExhaustedRoundZeroes | OpenPLC_Simulink_Interface.py:364-389 | as written, a round in which nothing is received installs the all-zero record |
| PlcLink.SilentStationLosesItsRecord | OpenPLC_Simulink_Interface.py:364-389 | as written, a station that never answers has an analog input of 7 reset to 0 |
| PlcLink.IntendedRound | OpenPLC_Simulink_Interface.py:366-370 | corrected round: it reports no reply exactly when a sent frame got no answer, and in that case it keeps the record |
| PlcLink.ExhaustedIntendedRoundKeeps | OpenPLC_Simulink_Interface.py:366-370 | in the corrected round, eleven failed attempts leave the record unchanged |
| PlcLink.IntendedAgreesOnReply | OpenPLC_Simulink_Interface.py:341-390 | the corrected round differs from the round as written only when nothing is received |
| Bridge.PlcData.constructor | OpenPLC_Simulink_Interface.py:37-41 | a new `PlcData` is the all-zero record |
| Bridge.PlcData.Pack | OpenPLC_Simulink_Interface.py:43-46 | `pack()` succeeds exactly when every analog value is in 0..65535, and then yields 64 bytes that `unpack` reads back as this record |
| Bridge.PlcData.Unpack | OpenPLC_Simulink_Interface.py:48-53 | `unpack` replaces all four buffers with the decoded frame when it has 64 bytes; otherwise it changes nothing |
| Bridge.StationInfo.constructor | OpenPLC_Simulink_Interface.py:63-68 | a new `StationInfo` has an empty address and empty port lists |
| Bridge.StationInfo.AddPlcPort | OpenPLC_Simulink_Interface.py:101-114 | the object ends as `AddPort` of the type and port read off the line, or unchanged after the ValueError |
| Bridge.StationInfo.Append | OpenPLC_Simulink_Interface.py:104-113 | the four `if`s append the port as `AddPort` says |
| Bridge.NewRecords | OpenPLC_Simulink_Interface.py:130 | the comprehension creates `max(n, 0)` distinct fresh all-zero records |
| Bridge.NewEntries | OpenPLC_Simulink_Interface.py:131 | the comprehension creates `max(n, 0)` distinct fresh empty entries |
| Bridge.ReceiveReply | OpenPLC_Simulink_Interface.py:352-367 | the loop into a fresh `PlcData()` ends as `Receive` says; `rcvDataLen` is never negative, and when it is 0 the record is all zero |
| Bridge.Interface.constructor | OpenPLC_Simulink_Interface.py:70-72 | at import time there are no stations and the Simulink address is empty |
| Bridge.Interface.ParseLine | OpenPLC_Simulink_Interface.py:127-143 | one line changes the globals as `ApplyLine` says, and a line that raises changes nothing |
| Bridge.Interface.Perform | OpenPLC_Simulink_Interface.py:128-143 | each branch changes the globals as `Execute` says |
| Bridge.Interface.SetNumStations | OpenPLC_Simulink_Interface.py:129-131 | the count is set and both tables are replaced with fresh objects |
| Bridge.Interface.SetStationIp | OpenPLC_Simulink_Interface.py:141 | only entry `k`'s address changes, or IndexError leaves everything as it was |
| Bridge.Interface.AddStationPort | OpenPLC_Simulink_Interface.py:143 | the station index is checked before the port, and only entry `k` changes |
| Bridge.Interface.ParseConfigFile | OpenPLC_Simulink_Interface.py:119-143 | the loop ends in the state and with the error that `ParseLines` gives |
| Bridge.Interface.ReceiveSample | OpenPLC_Simulink_Interface.py:261-264 | the write fails exactly for an index past the buffer; otherwise exactly that one slot of station `k` changes, as `StoreSample` says |
| Bridge.Interface.Install | OpenPLC_Simulink_Interface.py:388-390 | the received object becomes station `k`'s record and nothing else changes |
| Bridge.Interface.ExchangeRound | OpenPLC_Simulink_Interface.py:341-390 | one round changes station `k`'s record, and reports how it ended, exactly as `Round` says |
| Bridge.Interface.IntendedExchangeRound | OpenPLC_Simulink_Interface.py:366-390 | the corrected round changes the record and ends exactly as `IntendedRound` says |

## Left out

- Sockets, threads, `sleep` and the buffer lock are not modelled. A
  receive is an outcome given as a parameter (`RecvOutcome`). What `send`
  does is a parameter too (`SendOutcome`): it either raises OSError, which
  ends the PLC worker (`SendRaised`), or returns a byte count. Each locked
  section is one method call.
- The program can deadlock when `pack` raises: the PLC worker dies while
  it holds the lock. The same happens when a slot write raises
  IndexError in a Simulink worker. The model reports both (`PackRaised`,
  `ok == false`) but models no concurrency, so the deadlock itself is not
  represented.
- `struct.unpack('d', ...)` of a Simulink sample, and `bool()` and `int()`
  of the resulting float, are left out because floating point is not
  modelled. `ReceiveSample` takes both converted values as parameters.
- `Bridge.Interface.ReceiveSample` does not model the port lookup of lines
  236-238. That lookup runs before the socket is created and touches no
  record.
- The file `interface.cfg` itself is not opened. Its lines are given as a
  sequence and keep their line terminators.
- The `comm_delay` value: its `int()` can raise, which is modelled, but
  the value itself is discarded, as the source discards it.
- `PyStr.ParseInt`: does not accept the underscores or non-ASCII digits
  that Python's `int()` accepts.
- `PyStr.IsSpace` covers the characters Python's `str.strip()` treats as
  whitespace, code point by code point. Unicode data beyond that list is
  not modelled.
- `Codec.Encode`: the native byte order of the format is fixed to
  little-endian.
- `sendSimulinkData`, `exchangeDataWithSimulink`, `connectToPLCStations`,
  `createUDPServer`, `displayInfo`, `PlcData.print`, `Type.toString` and
  the status loop of the main program are not part of this model. They do
  I/O, start threads or print.
- The socket setup of `exchangeDataWithPLC` (lines 316-338) is not
  modelled. That covers address resolution, `connect` and the receive
  timeout. A round starts from an already connected socket.
- `Bridge.Interface.Perform` receives an `add` directive with the port
  already read from the line (`Config.ReadPortSpec`). `StationInfo.AddPlcPort`
  models the same call on the object when it is given the whole line.

## Findings

| source | as written | input that shows it | evidently intended | confidence | as-written member | corrected member |
|---|---|---|---|---|---|---|
| OpenPLC_Simulink_Interface.py:366 | `dataLen = -1` assigns an unused name. `rcvDataLen` stays 0, the `rcvDataLen < 0` test at line 369 never holds, and line 389 installs the untouched fresh `PlcData()` | a station whose analogIn[0] is 7 and whose eleven `recv` calls all time out ends with analogIn[0] = 0 | an exhausted loop is reported as a receive error and the station keeps its record; a frame received at any attempt is installed | not executed | PlcLink.ExhaustedRoundZeroes, PlcLink.SilentStationLosesItsRecord, Bridge.Interface.ExchangeRound | PlcLink.ExhaustedIntendedRoundKeeps, PlcLink.IntendedRound, Bridge.Interface.IntendedExchangeRound |

Replacing only the name (`rcvDataLen = -1`) would also discard a frame
received at the eleventh attempt, because the `break` runs after every
eleventh attempt. The corrected round keeps such a frame.
