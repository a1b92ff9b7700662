# can-tracer core in Dafny

A verified model of the core of can-tracer, a viewer for CAN bus logs. The model covers four parts of the program:

- **The data model and the signal decoder** (`src/canmsg.h`, `src/canmsg.cpp`).
  - The 29-bit identifier mask, `GetNbit`, the direction marker and hex identifier formatting.
  - Signal definitions with value tables, message definitions, and the message database `CanDb`.
  - `parseSignal`, which cuts a signal's bit range out of an 8-byte payload, joins the chunks in big- or little-endian order, applies the program's sign rule, then scale and offset.
  - `getSignalGraph`, which turns a log into the points of a signal's plot.
- **The DBC reader** (`src/dbcparser.cpp`). An IDLE/MESSAGE state machine over the lines of a message database file. `BO_` lines open a message, `SG_` lines add signals, and the first other line stores the message. `VAL_` lines fill value tables. `parse` reads a list of files into one database.
- **The BLF reader** (`src/blfparser.cpp`). It checks the file signature and header, frames top-level objects, and unpacks log containers (stored or zlib-compressed). It carries unfinished inner objects from one container to the next, and decodes CAN message objects into frames numbered by the reader's `counter`.
- **The chart cursor search** (`src/customqchartview.cpp`). `startSearchIndex` is a binary search over the x-coordinates of a plotted series, with an adjustment after the loop.

## Layout

| file | module | models |
|---|---|---|
| `Common.dfy` | `Common` | `Option`, bytes, powers of two, 32/64-bit moduli, first-index search |
| `CanMsg.dfy` | `CanMsg` | `src/canmsg.h` |
| `SignalDecode.dfy` | `SignalDecode` | `parseSignal` and `getSignalGraph` from `src/canmsg.cpp` |
| `DbcParser.dfy` | `DbcParser` | `src/dbcparser.cpp` |
| `Blf.dfy` | `Blf` | `src/blfparser.cpp`: specification functions and the class `BlfParser` |
| `BlfProperties.dfy` | `BlfProperties` | frame numbering, header and container properties of the BLF reader |
| `BlfContainers.dfy` | `BlfContainers` | what the reassembly loop computes across container boundaries |
| `ChartSearch.dfy` | `ChartSearch` | `startSearchIndex` |

### How the model is built

- Each loop of the source is a method with the same loop. Its postcondition ties its result, or its new state, to a specification function. Lemmas then prove the source's promises about that function.
- `CanDb` and `BlfParser` update their fields in place, so each is a class:
  - `CanDb` has a `db` field.
  - `BlfParser` has a `counter` field.
- `CanLogMsg`, `CanSignal` and `CanMessage` are plain value structs that the program copies into `QVector`s, so they are datatypes. Their mutators (`addValuePair`, `addCanSignal`, `setDir`) return the updated value. A value-table update through a pointer into the database (`signal->addValuePair`) is an update of `CanDb.db` at that message and signal.
- The BLF reader's `remain` and `messages` references are passed in and out of its methods. The reader state `Acc` collects them together with the counter.

### Behaviour of the source that the model keeps

- **`setDir`:** `QString::compare` is zero on equality, so `setDir` returns true for every string. "Rx" marks the frame as transmitted; every other string marks it as received.
- **The sign test in `parseSignal`:** it checks `raw >> (len - 1)`, not bit `len - 1`. A raw value wider than the signal therefore counts as negative. `SignTestIsShiftNotBit` shows a 4-bit signed signal whose raw value 16 decodes to 0.
- **Big-endian assembly:** it always shifts by 8, even for a partial chunk.
- **Little-endian assembly:** it shifts an `int`, so a fourth chunk of 0x80 or more is sign-extended into the 64-bit accumulator.
- **A failed conversion inside an `SG_` line:** it leaves MESSAGE without storing or clearing the message. Its signals carry over into the next `BO_` message.
- **The line that ends a message block:** it is dropped, even when it is a `BO_` line.
- **`parseObject`:** it checks the buffer length before the "LOBJ" search. Its -1 return leaves `remain` untouched. The fallback `nextPos + nextPos % 4` is not a round-up to a multiple of 4.
- **The frame counter:** it is 32 bits wide and is never reset by `parse`, so a second file continues the numbering.
- **`startSearchIndex`:** the adjustment after the loop compares `first` with `count`, which is 0 by then. It therefore turns a result of 0 into -1. A cursor beyond every point gives the series length, one past the last index.

## Model

| member | source | states |
|---|---|---|
| CanMsg.RemoveExtMask | src/canmsg.h:20-23 | the result is below 2^29, differs from the identifier by a multiple of 2^29, and is the identifier itself when that is below 2^29 |
| CanMsg.RemoveExtMaskIdempotent | src/canmsg.h:20-23 | masking twice is masking once |
| CanMsg.GetNbit | src/canmsg.h:25-28 | the result is the low `n` bits: at most the input, below 2^n, `input mod 2^n` for n ≤ 8, the input for n ≥ 8 and 0 for n = 0 |
| CanMsg.CanLogMsg.SetDir | src/canmsg.h:36-47 | always returns true; "Rx" gives Tx and every other string Rx; no other field changes |
| CanMsg.CanSignal.AddValuePair | src/canmsg.h:86-89 | the pair is appended as the last table entry; the earlier entries and all other fields are unchanged |
| CanMsg.CanSignal.Display | src/canmsg.h:93-101 | a label exactly when some entry equals the value, and then the label of the first such entry; otherwise the number itself (NaN is never a label) |
| CanMsg.CanSignal.DisplayScan | src/canmsg.h:93-101 | the scan of the table returns what `Display` specifies |
| CanMsg.CanMessage.AddCanSignal | src/canmsg.h:111-112 | the signal is appended last, the signal count grows by exactly one, and nothing else changes |
| CanMsg.CanMessage.FindSignal | src/canmsg.h:122-130 | the index of the first signal with exactly that name; none exactly when no signal has it |
| CanMsg.CanMessage.FindSignalScan | src/canmsg.h:122-130 | the scan returns what `FindSignal` specifies |
| CanMsg.HexRoundTrip | src/canmsg.h:114-120 | reading the hex digits of a number back gives the number |
| CanMsg.FormatIdSpec | src/canmsg.h:114-120 | the text has exactly 3 digits for identifiers up to 0x7FF and exactly 8 above, every digit is an upper-case hex digit, and reading it back as hex gives the identifier |
| CanMsg.FindMessage | src/canmsg.h:150-168 | the index of the first message, in insertion order, with the identifier; none exactly when no message has it |
| CanMsg.CanDb.Find | src/canmsg.h:160-168 | the scan of the database returns what `FindMessage` specifies |
| CanMsg.CanDb.constructor | src/canmsg.h:145 | a new database is empty |
| CanMsg.CanDb.AddMessage | src/canmsg.h:146-147 | the message is appended without looking for duplicates; the count grows by exactly one |
| CanMsg.CanDb.SetColor | src/canmsg.h:170-177 | the new database is `WithColor` of the old one |
| CanMsg.WithColorChangesOnlyFirstMatch | src/canmsg.h:170-177 | only the colour of the first message with the identifier changes, to the new colour; every other message and field is unchanged; an absent identifier changes nothing |
| CanMsg.WithColorIdempotent | src/canmsg.h:170-177 | recolouring twice equals recolouring once, and every identifier lookup gives the same answer afterwards |
| SignalDecode.ChunkWidth | src/canmsg.cpp:14-36 | each chunk is 1 to 8 bits wide, no wider than what is left, and either takes all that is left or ends on a byte boundary |
| SignalDecode.ChunkValue | src/canmsg.cpp:14-36 | a chunk's value is below 2^width |
| SignalDecode.ChunksShape | src/canmsg.cpp:13-37 | there is one chunk per byte the range touches; the widths sum to the signal length; each chunk is 1 to 8 bits wide and below 2^width |
| SignalDecode.ExtractChunks | src/canmsg.cpp:12-37 | the `while (len)` loop produces exactly the chunk sequence `Chunks` |
| SignalDecode.TakeChunk | src/canmsg.cpp:14-36 | one pass of the loop takes the next chunk, consumes its width, and moves the start bit by that width |
| SignalDecode.AssembleBigEndian | src/canmsg.cpp:39-44 | the loop computes `raw := raw * 256 + chunk` modulo 2^64 over the chunks in order |
| SignalDecode.BigEndianNoWrap | src/canmsg.cpp:39-44 | for at most 8 chunks nothing wraps: the result is the base-256 number of the chunks |
| SignalDecode.BigEndianFirstMostSignificant | src/canmsg.cpp:40-44 | the first chunk is the most significant digit, weighted 256^(n-1) |
| SignalDecode.TwoBytesBigEndian | src/canmsg.cpp:40-44 | two chunks a, b assemble to a·256 + b |
| SignalDecode.AssembleLittleEndian | src/canmsg.cpp:45-51 | the loop adds chunk i shifted by 8·i as a sign-extended `int`, modulo 2^64 |
| SignalDecode.LittleEndianNoSignExtension | src/canmsg.cpp:45-51 | for up to 3 chunks, or a 4th below 0x80, the result is the base-256 number with the first chunk least significant |
| SignalDecode.TwoBytesLittleEndian | src/canmsg.cpp:45-51 | two chunks a, b assemble to a + b·256 |
| SignalDecode.LittleEndianFourthChunkSignExtends | src/canmsg.cpp:48 | a 4th chunk of 0x80 gives 0xFFFFFFFF80000000, not 0x80000000 |
| SignalDecode.ToInt64 | src/canmsg.cpp:60 | the 64-bit two's-complement reading of an unsigned value lies in the signed 64-bit range |
| SignalDecode.TwosComplement | src/canmsg.cpp:53-66 | for a raw value that fits the signal length, the signed reading is raw − 2^len when the top bit is set and raw otherwise; it lies in [−2^(len−1), 2^(len−1)); unsigned signals read raw |
| SignalDecode.SignTestIsShiftNotBit | src/canmsg.cpp:54-55 | a raw value wider than the signal is treated as negative: a 4-bit signed signal with raw 16 decodes to 0 |
| SignalDecode.ParseSignal | src/canmsg.cpp:5-68 | NaN (None) exactly when the length is 0 or the range passes `dlc * 8` bits; otherwise the value that extraction, assembly, the sign rule, scale and offset give |
| SignalDecode.TwoWholeBytes | src/canmsg.cpp:13-37 | a 16-bit signal at bit 0 is the first two payload bytes, whole |
| SignalDecode.ExampleByteOrder | tests/testcanmsg.cpp:26-31 | bytes 0x12 0x34 decode to 0x1234 big-endian and 0x3412 little-endian |
| SignalDecode.ExampleScaling | tests/testcanmsg.cpp:32-35 | offset 6 gives 0x3418; scale 0.5 then gives 0x1A0F |
| SignalDecode.ExampleSigned | tests/testcanmsg.cpp:36-40 | bytes 0x12 0xFF, signed little-endian, decode to −238 |
| SignalDecode.WithLeadSnoc | src/canmsg.cpp:84-88 | appending a point adds it last, and the first point also adds the lead point at the log's first time |
| SignalDecode.MatchPointsStep | src/canmsg.cpp:81-92 | each frame adds one point, its time and decoded value, exactly when its identifier matches |
| SignalDecode.GetSignalGraph | src/canmsg.cpp:70-97 | the result is one point per matching frame in log order, led by a copy of the first value at the log's first time; a closing point at the last time with the last value (0 if none) is added when the identifier read past the end differs |
| SignalDecode.GraphCount | src/canmsg.cpp:81-92 | the graph without its lead point has exactly as many points as the log has frames with the identifier |
| SignalDecode.GraphTimes | src/canmsg.cpp:81-92 | every point of the graph without its lead point carries the time of a frame with the identifier |
| SignalDecode.MatchIndices | src/canmsg.cpp:81-82 | the indexes of the frames with the identifier: each carries it, they strictly increase, and no such frame is missed |
| SignalDecode.PointsOfMatches | src/canmsg.cpp:81-92 | point i is the time and decoded value of the i-th frame with the identifier, one point per such frame |
| SignalDecode.GraphShape | src/canmsg.cpp:76-92 | the graph is empty exactly when no frame has the identifier; otherwise it is a lead point at the log's first time carrying the first match's value, followed by the points of the matching frames in log order |
| DbcParser.DecimalValue | src/dbcparser.cpp:64 | a value exactly when the text is a non-empty run of decimal digits |
| DbcParser.ToULong | src/dbcparser.cpp:64 | a value exactly when the digits convert and the number is below 2^64 |
| DbcParser.ToUInt | src/dbcparser.cpp:119-131 | a value exactly when the digits convert and the number is below 2^32 |
| DbcParser.ToShort | src/dbcparser.cpp:72 | a value exactly when the digits convert and the number is at most 32767 |
| DbcParser.SignalOf | src/dbcparser.cpp:112-167 | a signal exactly when all seven numeric fields convert; start bit and length are stored modulo 256; endian digit 0 means big-endian; sign "-" means signed |
| DbcParser.ValueTarget | src/dbcparser.cpp:80-95 | a target exactly when the id converts and the first message with the masked id has a signal with the name; the target is then that first message and its first signal with the name |
| DbcParser.WithPairsAppend | src/dbcparser.cpp:99-109 | appending two runs of pairs one after the other equals appending both at once |
| DbcParser.AcceptedAppend | src/dbcparser.cpp:99-109 | the pairs accepted from a concatenation are the pairs accepted from each part, in order |
| DbcParser.AcceptedAll | src/dbcparser.cpp:99-109 | when every number converts, every pair is kept, in text order |
| DbcParser.ValueTableEffect | src/dbcparser.cpp:80-110 | a `VAL_` line has a target exactly when its id converts and names a message that has the signal. The target is the first message with the masked id and its first signal with the name. Only that signal's value table changes, growing by the accepted pairs in order; every other message, signal and field is unchanged. Without a target nothing changes |
| DbcParser.ValuesExtend | src/dbcparser.cpp:80-110 | a `VAL_` line keeps every message and only lengthens value tables |
| DbcParser.ApplyValueTable | src/dbcparser.cpp:80-110 | the pair loop leaves the database equal to `WithValues` of the old one |
| DbcParser.MessageOpens | src/dbcparser.cpp:60-78 | a `BO_` line whose id and dlc convert opens a block with the masked id, name, dlc and sender and no signals |
| DbcParser.SignalStep | src/dbcparser.cpp:112-168 | inside a block, a well-formed `SG_` line appends exactly its signal to the open message |
| DbcParser.MessageBlock | src/dbcparser.cpp:60-168 | a `BO_` line followed by well-formed `SG_` lines leaves an open block with exactly those signals in line order, and the database untouched |
| DbcParser.ClosedMessageBlock | src/dbcparser.cpp:169-173 | the first non-`SG_` line stores the block as one message and returns to IDLE with a fresh message |
| DbcParser.BackToBackMessagesDropSecond | src/dbcparser.cpp:169-173 | a `BO_` line right after another closes the first block and is itself dropped |
| DbcParser.FailedSignalCarriesOver | src/dbcparser.cpp:118-173 | after a failed `SG_` conversion the signals read so far carry over into the next `BO_` message, and the first message is never stored |
| DbcParser.ExampleSchema | tests/testdbcparser.cpp:11-21 | `BO_ 123 hello: 7 Bob` followed by the `SG_ hi` line (start bit 0, length 8, little-endian, unsigned) gives one message with one signal, field by field |
| DbcParser.RunAppend | src/dbcparser.cpp:55-175 | reading a + b equals reading a, then b from that state |
| DbcParser.StepExtends | src/dbcparser.cpp:58-174 | one line keeps every stored message and changes at most value tables |
| DbcParser.RunExtends | src/dbcparser.cpp:55-175 | no sequence of lines removes or reorders stored messages |
| DbcParser.ParseStream | src/dbcparser.cpp:48-179 | the loop leaves the database equal to the state machine run over the lines, with an open block stored at the end |
| DbcParser.ParseStreamExtends | src/dbcparser.cpp:48-179 | reading a stream only appends messages and lengthens value tables |
| DbcParser.ParseFile | src/dbcparser.cpp:181-191 | a file that cannot be opened leaves the database as it was; otherwise its lines are read into it |
| DbcParser.Parse | src/dbcparser.cpp:193-200 | the result is a new database holding the files read in list order into one shared database |
| DbcParser.ParseAllAppend | src/dbcparser.cpp:193-200 | reading files a + b equals reading a, then b into the same database |
| DbcParser.UnopenableFileIgnored | src/dbcparser.cpp:183-187 | a file that cannot be opened contributes nothing |
| Blf.IndexOf | src/blfparser.cpp:107 | the first "LOBJ" at or after the start position; none exactly when there is none |
| Blf.ParseObjectSpec | src/blfparser.cpp:30-113 | a buffer under 16 bytes is kept whole in `remain` and its length returned. Otherwise: -1 exactly when it holds no "LOBJ", and then `remain` is untouched. When the first object runs past the end, the buffer is kept whole and its length returned. Otherwise `remain` is emptied, the return value is the next "LOBJ" at or after the object's end (else that end plus the end modulo 4), and a frame, numbered with the counter, comes exactly from object types 1 and 86 |
| BlfProperties.NextObjectCases | src/blfparser.cpp:107-112 | after an object, if some "LOBJ" starts at or after its end the return value is the first such position; if none does, it is the end plus the end modulo 4 |
| BlfProperties.NextObjectNotRoundUp | src/blfparser.cpp:111 | an object ending at 5 with no "LOBJ" after it gives 6, which is not a multiple of 4 |
| Blf.GetObjectSpec | src/blfparser.cpp:115-178 | -1 exactly when the 4 bytes at the position are not "LOBJ", otherwise 0; the position moves forward and stays within the file |
| Blf.ParseSpec | src/blfparser.cpp:180-244 | an I/O error exactly when the file cannot be opened; a format error exactly when it does not start with "LOGG"; neither error touches the counter |
| Blf.BlfParser.constructor | src/blfparser.h:15 | a new reader starts counting at 0 |
| Blf.BlfParser.ParseObject | src/blfparser.cpp:30-113 | the counter, `remain`, `messages` and return value are those `ParseObjectSpec` gives |
| Blf.BlfParser.ParseObjectAt | src/blfparser.cpp:44-112 | the same once "LOBJ" is found, per `ObjectAt` |
| Blf.BlfParser.ReadObjectHeader | src/blfparser.cpp:44-55 | the four header fields are the little-endian values at offsets 4, 6, 8 and 12, and the stream stands at offset 16 |
| Blf.BlfParser.ReadTimestamp | src/blfparser.cpp:66-86 | flags at 16, the timestamp after 4 more bytes for header versions 1 and 2, and 8 bytes skipped after it for version 2 |
| Blf.BlfParser.ReadObjectBody | src/blfparser.cpp:88-106 | a frame exactly for object types 1 and 86, decoded as `FrameAt` says |
| Blf.BlfParser.ReadCanMessage | src/blfparser.cpp:90-105 | channel truncated to 8 bits, dlc, identifier masked to 29 bits and 8 data bytes, at their offsets |
| Blf.BlfParser.GetObject | src/blfparser.cpp:115-178 | return value, position, counter, `remain` and `messages` are those `GetObjectSpec` gives |
| Blf.BlfParser.ReadContainer | src/blfparser.cpp:138-176 | an unknown compression method changes nothing; otherwise the container bytes go through the reassembly loop |
| Blf.BlfParser.ReassembleLoop | src/blfparser.cpp:164-176 | the prepend/parse/remove loop leaves the state `Reassemble` specifies |
| Blf.BlfParser.GetDateTime | src/blfparser.cpp:20-28 | the date uses fields 0, 1 and 3, the time fields 4 to 7, and 16 bytes are consumed |
| Blf.BlfParser.ReadHeader | src/blfparser.cpp:192-234 | the header size is the 32-bit value at offset 4, and the stream stands after the 72 fixed bytes |
| Blf.BlfParser.ReadObjects | src/blfparser.cpp:236-241 | the object loop yields the frames and counter `FileLoop` specifies |
| Blf.BlfParser.Parse | src/blfparser.cpp:180-244 | the result and the new counter are those `ParseSpec` gives |
| BlfProperties.ApplyTracks | src/blfparser.cpp:89-91 | one `parseObject` keeps the invariant that the frames so far are numbered consecutively and the counter is the next number, modulo 2^32 |
| BlfProperties.ReassembleTracks | src/blfparser.cpp:164-176 | the reassembly loop keeps that numbering invariant |
| BlfProperties.GetObjectTracks | src/blfparser.cpp:115-178 | one top-level object keeps the numbering invariant |
| BlfProperties.FileLoopTracks | src/blfparser.cpp:236-241 | the object loop keeps the numbering invariant |
| BlfProperties.ParseNumbersFrames | src/blfparser.cpp:91 | the frames of one file are numbered consecutively from the counter's old value, and the counter ends at old value + frame count, modulo 2^32 |
| BlfProperties.ParseTwiceContinues | src/blfparser.h:15 | a reader that parses two files numbers the second file's frames right after the first's, with no reset |
| BlfProperties.SizePrefixRoundTrip | src/blfparser.cpp:154-159 | the 4-byte prefix is the uncompressed size in big-endian order |
| BlfProperties.NonContainerYieldsNothing | src/blfparser.cpp:131-136 | an object that is not a container returns 0, adds no frame, and skips `objSize - 16` bytes plus that number modulo 4 |
| BlfProperties.UnknownCompressionYieldsNothing | src/blfparser.cpp:161-163 | a container with a method other than 0 or 2 returns 0 and adds no frame |
| BlfProperties.BadSignatureStops | src/blfparser.cpp:119-123 | an object without the "LOBJ" signature ends the file loop with the state unchanged |
| BlfContainers.SmallObjectsWellFormed | src/blfparser.cpp:44-106 | an object counts as well-formed once it holds the fields the reader takes from it: its 16-byte header, and for a CAN message object the frame fields. A 48-byte version-1 CAN message object qualifies |
| BlfContainers.WholeObjectFirst | src/blfparser.cpp:30-113 | a well-formed object at the start of the buffer is consumed whole, followed by another object or by the start of one |
| BlfContainers.PartialObject | src/blfparser.cpp:33-64 | a cut-off object is kept whole in `remain` and its length returned |
| BlfContainers.Feed | src/blfparser.cpp:164-176 | feeding container bytes after a carried-over partial object parses the whole objects in their concatenation and carries the rest |
| BlfContainers.FeedAfter | src/blfparser.cpp:164-176 | feeding one more container continues exactly where the bytes so far left off |
| BlfContainers.ReassemblePrefix | src/blfparser.cpp:164-176 | after any sequence of containers, the state is that of the whole objects in their concatenated bytes, with the rest carried over |
| BlfContainers.ConsumeAll | src/blfparser.cpp:164-176 | a byte stream of whole objects is parsed object by object |
| BlfContainers.SplitAnywhere | src/blfparser.cpp:164-176 | however a stream of well-formed objects is cut into containers, the reader yields the same frames and counter as parsing each object alone |
| BlfContainers.CutsAgree | src/blfparser.cpp:164-176 | two different cuts of the same object stream into containers give the same result |
| ChartSearch.LowerBound | src/customqchartview.cpp:19-29 | the first index whose x is at least the target, or the length: every earlier x is smaller |
| ChartSearch.CrossingIsLowerBound | src/customqchartview.cpp:19-29 | on a sorted series, an index with a smaller x before it and a greater or equal x at it is the lower bound |
| ChartSearch.StartSearchIndex | src/customqchartview.cpp:10-34 | the result is in [−1, n] and never 0. −1 means the series is empty or its first x is at least the target. Otherwise the x before the result is smaller and the one at it, if any, at least the target. On a sorted series the result is the lower bound, with 0 turned into −1 |
| ChartSearch.SortedSearchLandsRight | src/customqchartview.cpp:30-34 | on a sorted series, −1 means every x is at least the target, n means every x is smaller, and otherwise the result is the first x at or after the target |

## Left out

- File access, `QDataStream`, `QTextStream` and `QFile`: a file is a byte sequence, or a sequence of lines, or `None` when it cannot be opened. Reads past the end yield zeros, as `QDataStream` does.
- `qUncompress` (zlib inflate) is the function parameter `inflate`. Only the 4-byte big-endian length prefix is modelled.
- The regular expressions of the DBC reader, and `toDouble`: each line arrives with what each pattern captured. The doubles arrive already converted (`None` for failure). Integer captures are converted from their digits.
- `toULong` is taken as 64-bit `unsigned long`.
- Floating point: physical values, scale, offset, time stamps and chart coordinates are exact `real`s, so IEEE rounding is not modelled. NaN is `None`. `display` formats a number as the `Number` case rather than as text.
- SignalDecode.ParseSignal: requires `Decodable`. This excludes the byte indexes at or past 8 that `input.at()` would throw on (dlc above 8), and the little-endian shifts of 32 bits or more that are undefined in C++.
- SignalDecode.GetSignalGraph: requires a non-empty log, because `log.at(0)` on an empty log is undefined (a debug assertion, unchecked in release builds). The identifier read through `log.end()`, past the last frame, is the parameter `pastEndId`.
- Blf.BlfParser.Parse, Blf.ParseSpec: require a file of at least 4 bytes when it opens, because the signature buffer is uninitialised when fewer bytes are read.
- BlfProperties.ParseNumbersFrames: requires a starting counter below 2^32, as the 32-bit field always holds.
- BlfContainers: the reassembly properties are proved for streams of well-formed objects. Such an object starts with "LOBJ", states its own size and is padded to 4 bytes. It holds at least its 16-byte header, and a CAN message object also holds every field its frame is decoded from: 48 bytes for header version 1, 56 for version 2 and 44 otherwise. Streams with objects shorter than that, or with inconsistent size fields, are not covered.
- The `int` return values of `parseObject`, `getObject` and `startSearchIndex` are unbounded integers; truncation to 32 bits is not modelled.
- An `objSize` below 16 wraps around modulo 2^32, as in the source. Allocating that many bytes is assumed to succeed.
- QDate/QTime validation of the header's date records is not modelled; the raw fields are kept.
- The uninitialised `id` and `dlc` of a default-constructed message are 0.
- `CanMessage::addCanSignal` and `CanSignal::addValuePair` return updated values. They do not update an object in place; see "How the model is built".
- The mouse and leave handlers of the chart view are left out, and so is the rest of the user interface: main window, item models, dialogs, colour editor and proxy filter. Background jobs and their cancellation are left out too.
- The ASC/TRC log parser is not part of this model.
