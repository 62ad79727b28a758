# Verified model of open61850

open61850 speaks IEC 61850 on the process bus (GOOSE and Sampled Values) and as an MMS server.
Much of it exists twice: recursive Python on unbounded integers, and native Rust that measures
before it writes and validates nested data in one pass without a stack. This project models its
stateful and arithmetic cores in Dafny and proves what they promise of every input, every run
and every reachable state. Where the source computes with expressions the model is functions;
where it updates fields or moves an offset in a loop the model is classes and methods proved
against such functions.

`dafny verify dfyconfig.toml` checks everything.

## How it is laid out

| files | what they model |
|---|---|
| `Modulo`, `Octets`, `Ber`, `TlvLists` | remainders, big-endian numbers, BER tags, lengths, TLVs and fields (X.690, sections 8.1.2, 8.1.3 and 8.3), in Python's unbounded form and the native saturating one |
| `Data`, `FlatData`, `FlatReader` | MMS Data trees; the native preorder form, how it is measured, written, checked and iterated |
| `Grammar`, `MessageGrammar`, `StrictGrammar`, `ReportGrammar` | what octets mean, said without the functions that read them: elements, values, frames, GOOSE and Sampled Values messages, reports |
| `Ethernet`, `Goose`, `GooseStrict` | frames, `IECGoosePdu` (IEC 61850-8-1, clause A.3), lenient and strict decoding |
| `Sv`, `SvIterator`, `SvTemplate`, `SvFrames`, `SvSchedule` | Sampled Values PDUs, frames patched in place and read back, faults, playbacks and deadlines |
| `ReportWire`, `ReportIndex`, `Reporting`, `ReportBlock`, `ReportRuns`, `ReportChanges`, `ReportRequests`, `ReportSizes`, `ReportOverflow`, `ReportHiding`, `ReportControl` | report control blocks (IEC 61850-7-2, clause 17): the wire, the change index, the buffer, gathering, reservation, whole runs, what BufOvfl tells and when it can be made to hide a loss, the mutable block |
| `Control`, `ControlRuns`, `ControlRequests`, `ControlEngine` | controls (clause 20): steps, whole runs, what requests do, the mutable engine |
| `Settings`, `SettingRequests`, `SettingEngine` | setting groups (clause 16): steps and runs, what requests do, the mutable block |
| `GoosePublisher`, `GoosePublications`, `Supervision`, `GooseVerdicts`, `GooseComposition`, `SvSupervision`, `SvVerdicts` | publication and what is sent of it, supervision of GOOSE and Sampled Values and what it says, and the two together |
| `Bpf` | the capture filter: a compiler and its interpreter |

Time is a number given to each step. Timers and the actions that follow a response are pending
steps, run later in any order and any number of times; a step that takes the source's lock is
one atomic step. Fields named as history in the models (entries made, notifications, reports
sent, the facts of the control engine) exist to state properties; the classes hold them as ghost
fields.

## Where the code and what is said of it differ

The models follow the code. Each difference is proved, with the condition under which the promise
holds.

- BufOvfl is documented as TRUE in the first report after the buffer dropped an entry no client
  had been sent. The code compares with the highest EntryID sent. Every report is right as long
  as no client buries an unsent entry: enables the block with an EntryID beyond a kept entry
  nobody was sent, and either is sent a later entry at once or leaves room in the buffer for the
  newest entry beside the next one (`ReportOverflow`). After any such enabling of a block whose
  data set has members, some changes lead to a report that says FALSE of a lost entry; after any
  other event no run does until a client buries one (`ReportHiding`).
- Entries follow the order of the changes except when a client goes with changes still gathered
  for BufTm: the next change can overtake them (`ReportRuns.OrderIsLost`,
  `ReportRuns.OrderIsLostUnbuffered`).
- A report whose OptFlds asks for segmentation is not readable: its two fields are never written
  (`ReportWire.ReportRoundTrip`).
- `finish` also ends a command that only waits for its response or for operTm; the command then
  runs all the same, and is terminated twice (`ControlRuns.FinishedTooEarly`).
- A setting the application adds to a group while it is being edited is overwritten at the
  confirmation by what its SE leaf held before (`Settings.StaleSetting`).
- A Sampled Values stream of unknown rate that loses less than half a turn in a row is followed
  over its wraps exactly when the last sample before the first wrap is heard and the next lies
  more than 16 below it (`SvSupervision.FirstWrapIsExact`); a wrap of 17 or less never is.
- One lost GOOSE message is survived by a timeAllowedtoLive of three waits, or of two when the
  minimum and maximum times are equal, and by no shorter one (`GooseComposition`).

## Model

| member | source | states |
|---|---|---|
| Octets.FromToBE | src/open61850/ber.py:202-231 | reading the n octets written for v gives v exactly when v fits in n octets |
| Octets.ToFromBE | src/open61850/ber.py:215-231 | writing what was read gives the same octets back |
| Octets.OctetCountIsLeast | src/open61850/ber.py:131-140 | the octet count of a number is the least that holds it |
| Ber.FastPathIsTheSlowPath | src/open61850/ber.py:166-179 | the one-octet fast path of `decode_tlv` gives what the general path gives, on every octet string |
| Ber.TlvOf | src/open61850/ber.py:166-179 | a TLV that is read lies inside the data, and its value is the octets it ends with |
| Ber.TlvOfPrefix | src/open61850/ber.py:166-179 | octets after a TLV do not change how it is read |
| Ber.IntegerRoundTrip | src/open61850/ber.py:202-218 | every integer, of any size, is read back as it was written |
| Ber.UnsignedRoundTrip | src/open61850/ber.py:208-231 | every natural number is read back as it was written |
| Ber.IntegerIsMinimal | src/open61850/ber.py:202-205 | no shorter content octets stand for the same integer (X.690, 8.3.2) |
| Ber.TagReadIsIdentifier | src/open61850/ber.py:109-128 | what `decode_tag` consumes is one well-formed identifier and nothing more |
| Ber.TagOfIdentifier | src/open61850/ber.py:105-128 | identifier octets are read whole, whatever follows, as their big-endian number |
| Ber.EncodedTagValue | src/open61850/ber.py:105-107 | an encoded tag is the minimal octets of its number |
| Ber.LengthRoundTrip | src/open61850/ber.py:131-159 | every length, short or long form, is read back, whatever follows |
| Ber.TlvRoundTrip | src/open61850/ber.py:162-179 | every TLV with a well-formed tag is read back, whatever follows |
| Ber.NativeDecodeTag | native/core/src/ber.rs:54-69 | reads what the unbounded reading reads, the tag saturated at 32 bits |
| Ber.NativeDecodeLength | native/core/src/ber.rs:72-84 | reads what the unbounded reading reads, the length saturated at 64 bits |
| Ber.NativeDecodeTlv | native/core/src/ber.rs:87-103 | same TLV and same error as Python on any slice: saturation never lets a length fit |
| Ber.NativeDecodeUnsigned | native/core/src/ber.rs:134-144 | the exact value, or too large exactly from 2^64 on, however many leading zeros |
| Ber.TlvLenIsExact | native/core/src/ber.rs:153-169 | measured lengths are those of the octets written |
| Ber.NativeSignedIsMinimal | native/core/src/ber.rs:178-188 | the native integer octets are Python's, for every i64 |
| Ber.NativeUnsignedIsMinimal | native/core/src/ber.rs:189-195 | the native integer octets are Python's, for every u64 |
| Ber.Writer.Put | native/core/src/ber.rs:218-223 | appends the octets when they fit, else changes nothing; nothing beyond them is written |
| Ber.Writer.PutTlv | native/core/src/ber.rs:239-248 | appends exactly the encoded TLV when it fits |
| Grammar.DigitsAreRead | src/open61850/ber.py:221-224 | the number read from octets is the one whose base-256 digits they are |
| Grammar.SignedIsRead | src/open61850/ber.py:208-212 | the integer read from octets is their two's complement: half the numbers of so many octets are negative |
| Grammar.ElementIsRead | src/open61850/ber.py:166-179 | what is read at the head of octets is the element they begin with: one identifier, length octets of either form with or without leading zeros, and that many octets |
| Grammar.FaultIsRead | src/open61850/ber.py:109-179 | each error exactly when it should be: no octet, an unfinished identifier, nothing after it, 80, unfinished length octets, content that is cut off |
| Grammar.ElementsAreRead | src/open61850/ber.py:182-188 | octets are read as a list of elements exactly when they consist of them |
| Grammar.LeafIsRead | src/open61850/data.py:269-300 | every content of every tag is read as what it stands for, whoever wrote it: BOOLEAN TRUE iff there is a first octet and it is not 0, integers of any length, floats, times and strings by their octets, else raw |
| Grammar.NativeLeafIsRead | native/core/src/data.rs:302-337 | the native reading of every content: the same, but that a number beyond 64 bits stays octets |
| Grammar.NativeContainerIsRead | native/core/src/data.rs:302-337 | an array or a structure is read as the number of elements it consists of, and refused when it consists of none |
| Grammar.SpellingIsRead | src/open61850/data.py:269-314 | octets are decoded as values exactly when they spell them, nested to any depth, and refused exactly when they spell none |
| Grammar.LeafIsWritten | src/open61850/data.py:317-347 | TRUE is written FF, numbers in the fewest octets a signed number can take, floats after the size of their exponent |
| Grammar.ElementIsWritten | src/open61850/ber.py:131-163 | an element is written with its tag and the shortest length octets there are |
| TlvLists.FieldsRoundTrip | src/open61850/ber.py:182-188 | a list of fields is read back field by field |
| TlvLists.FieldsLenIsExact | native/core/src/goose.rs:115-128 | the measured length of fields is the length written |
| Data.UtcRoundTrip | src/open61850/data.py:215-234 | a UtcTime is read back exactly when its fraction fits in 24 bits |
| Data.LeafRoundTrip | src/open61850/data.py:269-347 | a value without members, as it is written, is read back exactly when its fraction fits and its raw tag is one the decoder does not interpret |
| Data.SequenceRoundTrip | src/open61850/data.py:303-347 | every sequence of Data trees is read back, nested to any depth |
| Data.DataRoundTrip | src/open61850/data.py:269-347 | every Data tree is read back, whatever follows it |
| FlatData.ForestIsPreorder | native/core/src/data.rs:161-189 | items the writer accepts are the preorder of the trees it writes, nested at most 32 deep |
| FlatData.PreorderIsAccepted | native/core/src/data.rs:161-189 | and the preorder of all such trees is accepted: with the other, an if and only if |
| FlatData.Shallower | native/core/src/data.rs:161-180 | a value accepted at some depth is accepted, as the same tree, at the top |
| FlatData.FaultIsFirst | native/core/src/data.rs:161-189 | the error of a refused sequence is the fault a pass from left to right meets first: more than 7 unused bits, a container within 32 others, or the end while members are missing |
| FlatData.Measure | native/core/src/data.rs:161-180 | the tag, content length and end of the tree an item begins, or its error |
| FlatData.SequenceLen | native/core/src/data.rs:181-189 | measures exactly the octets of the encoded forest, without writing |
| FlatData.WriteOne | native/core/src/data.rs:191-230 | writes the encoded tree and nothing else; BufferFull exactly when it does not fit |
| FlatData.WriteSequence | native/core/src/data.rs:232-240 | writes the encoding of every value before the first refused one, then gives its error if there is one; BufferFull exactly when those octets do not fit |
| FlatReader.DecodedTiles | src/open61850/data.py:303-314 | what decodes is tiled by TLVs, one for each top-level value |
| FlatReader.WalkIsDecode | native/core/src/data.rs:243-278 | one flat pass, without recursion or stack, sees in order what the recursive decoder sees: it finds a fault in nested members exactly when recursion does |
| FlatReader.CheckIsDecode | native/core/src/data.rs:265-278 | tiling at the top and in every container met by the pass is decodability |
| FlatReader.CheckSequence | native/core/src/data.rs:265-278 | the one-pass loop accepts exactly what the recursive decoder accepts, and returns its top-level count |
| FlatReader.CountTlvs | native/core/src/data.rs:243-252 | the number of TLVs tiling the octets, or the first error |
| FlatReader.WalkVisitsEverything | native/core/src/goose.rs:517-552 | what a flat pass checks over accepted octets is checked of every nested value |
| FlatReader.WalkMeetsEachOnce | native/core/src/goose.rs:517-552 | the TLVs a flat pass meets on accepted octets are those of the recursive tree in preorder, as many as the tree has values: each once, and no other octets |
| FlatReader.WalkIsMet | native/core/src/goose.rs:517-552 | a pass succeeds exactly when it runs into no malformed octets and its check holds of each TLV it meets |
| FlatReader.NativeSigned | native/core/src/data.rs:281-300 | the exact value when it fits in 64 bits, however long its encoding, else none |
| FlatReader.NativeDecodeValue | native/core/src/data.rs:302-337 | the reading of one tag and content that `Grammar.NativeLeafIsRead` and `Grammar.NativeContainerIsRead` say the meaning of |
| FlatReader.Values.Next | native/core/src/data.rs:351-370 | each call gives the next item of what is left, and none only at its end |
| FlatReader.ItemsArePreorder | native/core/src/data.rs:339-370 | on accepted octets the iterator yields the preorder of the recursive trees, and does not stop early |
| FlatReader.NativeRoundTrip | native/core/src/data.rs:191-370 | items written are decoded by Python as their trees and read natively as the same items |
| FlatReader.NativeReadingIsExact | native/core/src/data.rs:302-337 | a native reading differs from Python's only for integers beyond 64 bits and tags beyond 32 |
| Ethernet.FrameRoundTrip | src/open61850/ethernet.py:68-140 | a frame built is parsed back whole, with or without tag and padding |
| MessageGrammar.FrameIsRead | src/open61850/ethernet.py:68-107 | every octet string is parsed as the frame its octets are, field by field, or as none |
| MessageGrammar.FrameIsWritten | src/open61850/ethernet.py:110-140 | a frame is built exactly when some octets could carry that address and APDU, and is such octets |
| Ethernet.NativeParseFrame | native/core/src/ethernet.rs:80-110 | gives on every octet string what `parse_frame` gives |
| Ethernet.NativeParseHeader | native/core/src/ethernet.rs:57-68 | the APPID header, refused exactly when truncated or of inconsistent Length |
| Ethernet.WriteHeader | native/core/src/ethernet.rs:151-163 | writes exactly the header octets when they fit |
| Ethernet.HeaderLenIsExact | native/core/src/ethernet.rs:133-136 | the announced header length is that of the octets |
| Goose.LastOccurrenceWins | src/open61850/goose.py:105-136 | of several fields with one number the last is kept, and no other number is invented |
| Goose.PduRoundTrip | src/open61850/goose.py:105-270 | every message of typed counters and readable values is decoded as it was encoded, whatever follows; a time fraction is read back exactly when it is below 2^24, and else as the greatest of 24 bits |
| MessageGrammar.NumberIsRead | src/open61850/ber.py:89-97 | the number of every identifier: five bits, or seven of each octet after the first |
| MessageGrammar.HeaderIsRead | src/open61850/goose.py:114-154 | the header read from any fields: counters of any length below 2^64 but not empty, flags TRUE for any octet but 0, the mandatory fields |
| MessageGrammar.GooseIsRead | src/open61850/goose.py:105-136 | octets are decoded as a message exactly when they are that message, whoever sent it |
| MessageGrammar.GooseIsWritten | src/open61850/goose.py:242-270 | fields in increasing order, counters in the fewest octets, flags FF or 00 |
| Goose.NativeFields | native/core/src/goose.rs:102-113 | the native header fields are Python's |
| Goose.ContentLenIsExact | native/core/src/goose.rs:115-176 | the length measured before writing is that of the encoded PDU |
| Goose.WritePdu | native/core/src/goose.rs:131-157 | with the measured room, writing never fails and leaves exactly the encoded PDU |
| Goose.EncodeFrame | native/core/src/goose.rs:178-195 | the frame Python builds, in exactly its octets, or its error with the buffer untouched; nothing written beyond |
| Goose.NativeTagNumberAt | native/core/src/goose.rs:365-378 | the tag number, saturated at 32 bits, read back from the octets |
| Goose.NativeScanFields | native/core/src/goose.rs:403-411 | the field array holds what the dictionary holds, the last occurrence winning |
| Goose.NativeDecodePdu | native/core/src/goose.rs:397-434 | accepts exactly what Python accepts, with the same header, counters and allData |
| Goose.NativeDecodeFrame | native/core/src/goose.rs:583-589 | the same for frames: no frame, a refusal or the same message, as in Python |
| Goose.FrameTrip | native/core/src/goose.rs:178-195 | an encoded frame decodes to the header, counters and preorder allData it was made of |
| GooseStrict.CheckTlvIsConformance | native/core/src/goose.rs:517-552 | the check of one value is the written-out conformance of IEC 61850-8-1 |
| GooseStrict.CheckStrictData | native/core/src/goose.rs:517-552 | one pass accepts exactly when every nested value conforms |
| GooseStrict.CheckFieldOrder | native/core/src/goose.rs:461-490 | accepts exactly fields in sequence, each at most once, and keeps them |
| GooseStrict.CheckStrict | native/core/src/goose.rs:461-513 | no deviation exactly when the message conforms, for every message the lenient decoder accepts |
| StrictGrammar.StrictIsChecked | src/open61850/goose.py:165-239 | the messages that conform are exactly those said octet by octet: nothing after the PDU, fields in sequence and each once, sizes, alphabets and INT32U counters, and every nested value |
| GooseStrict.NativeDecodePduStrict | native/core/src/goose.rs:455-459 | accepts exactly conformant messages, and gives what lenient decoding gives |
| GooseStrict.NativeDecodeFrameStrict | native/core/src/goose.rs:566-572 | the same for frames |
| GooseStrict.ConformantIsAccepted | src/open61850/goose.py:165-270 | a conformant message that is encoded passes the strict decoder and is read back |
| GooseStrict.ConformantFrameIsAccepted | src/open61850/goose.py:273-303 | the frame of a conformant message is parsed to its address and APDU, which conforms and is the message, whatever padding follows |
| GooseStrict.EncodedConforms | src/open61850/goose.py:218-239 | the encodings of conformant values conform at every depth |
| Sv.AsduRoundTrip | src/open61850/sv.py:99-188 | every ASDU of typed fields is read back as it was encoded |
| Sv.SvRoundTrip | src/open61850/sv.py:142-198 | every PDU is read back with all its ASDUs, whatever follows it |
| MessageGrammar.AsduIsRead | src/open61850/sv.py:99-139 | content octets are decoded as an ASDU exactly when their elements are its fields, each of its size, the last of each tag |
| MessageGrammar.SvIsRead | src/open61850/sv.py:142-165 | octets are decoded as a PDU exactly when they are that PDU: the ASDUs of every seqASDU in order, counted by the last noASDU |
| Sv.NativeFixed | native/core/src/sv.rs:95-100 | the exact value of a field of the right size, else an error |
| Sv.NativeDecodeAsdu | native/core/src/sv.rs:102-138 | accepts exactly the ASDUs Python accepts, with the same fields |
| Sv.NativeDecodeSeq | native/core/src/sv.rs:218-227 | hands over the ASDUs of one seqASDU in order, or refuses as Python does |
| Sv.NativeDecodePduWith | native/core/src/sv.rs:200-236 | accepts exactly the PDUs Python accepts, hands over the same ASDUs, noASDU compared in 64 bits |
| SvIterator.CheckedIsLeft | native/core/src/sv.rs:156-160 | an accepted PDU has exactly its ASDUs to iterate |
| SvIterator.Asdus.Next | native/core/src/sv.rs:170-187 | each call gives the next ASDU across every seqASDU, and none only when all were given |
| SvTemplate.AsduIsBlock | src/open61850/sv.py:168-188 | ASDUs of a stream are the same octets but for smpCnt and the samples |
| SvTemplate.FrameLayout | src/open61850/sv.py:191-218 | frames of a stream are a fixed prefix, simulation bit included, then their ASDUs |
| SvTemplate.ListTlvs | src/open61850/sv_publisher.py:375-381 | the loop gives the TLVs from start to end with their ends, or the error met |
| SvTemplate.LocateByLoops | src/open61850/sv_publisher.py:357-372 | the nested loops find the smpCnt and sample offsets the recursive reading finds |
| SvTemplate.LocateFinds | src/open61850/sv_publisher.py:357-372 | in a frame of the stream `_locate` finds exactly the smpCnt and sample windows of each ASDU |
| SvTemplate.Patch | src/open61850/sv_publisher.py:397-406 | octets written at an offset, all others kept |
| SvTemplate.RenderFrame | src/open61850/sv_publisher.py:397-406 | in place, the counts and samples of every ASDU are patched, each in the second its sample falls in |
| SvTemplate.RenderIsEncode | src/open61850/sv_publisher.py:320-406 | patching any frame of the stream gives octet for octet the frame encoding gives for the numbered ASDUs |
| SvFrames.RenderedIsRead | src/open61850/sv_publisher.py:303-406 | a rendered frame, read by its octets, is of the stream and its address, simulation bit included, and carries the next samples of its source, each value in two's complement before its quality, in the second it falls in |
| SvTemplate.BuildTemplate | src/open61850/sv_publisher.py:320-348 | the encoded frame and its located windows, or the error; locating never fails |
| SvSchedule.RemaindersAgree | native/src/lib.rs:64-97 | floored modulo, Rust's `rem_euclid` and the mathematical remainder agree for a positive divisor |
| SvSchedule.EnginesAgreeOnFaults | native/src/lib.rs:64-73 | both engines find the same samples in the fault, by the absolute sample number alone |
| SvSchedule.FaultHasItsLength | src/open61850/sv_publisher.py:120-125 | any period of consecutive samples holds exactly the fault's length of them, wherever it starts |
| SvSchedule.FaultIsOn | src/open61850/sv_publisher.py:98-125 | a sample is in the fault exactly when it is one of the first of some cycle that begins at the offset and the start sample |
| SvSchedule.FaultLasts | src/open61850/sv_publisher.py:98-125 | a fault of no given duration lasts half of the time, to one sample; else its duration, from none to all of the period |
| SvSchedule.WhatIsSent | src/open61850/sv_publisher.py:389-394 | the row of the recording for the sample, with its qualities or else the stream's; else the fault while it is on; else the waves |
| SvSchedule.EnginesPlayTheSame | src/open61850/sv_publisher.py:511-544 | both engines play the same row at the same sample, values and qualities, from rows or from a flat copy |
| SvSchedule.RowIsPlayed | src/open61850/sv_publisher.py:167-177 | a row is played at exactly its sample, and whole repetitions before or after it |
| SvSchedule.FrameCarries | src/open61850/sv_publisher.py:573-591 | frame k carries the samples after those of frame k - 1, all in one second |
| SvSchedule.DeadlineIsExact | src/open61850/sv_publisher.py:580-582 | each deadline is the floor of the exact time of its first sample: rounding never accumulates |
| SvSchedule.DeadlinesAreEven | src/open61850/sv_publisher.py:573-582 | consecutive deadlines are one period apart, or a nanosecond more |
| SvSchedule.EachSampleOnce | src/open61850/sv_publisher.py:573-591 | over a run every absolute sample from the start second goes out exactly once, in order |
| SvSchedule.Run | src/open61850/sv_publisher.py:573-602 | the deadline loop: its frames, each sample once, every send counted, the late frames and the worst lateness |
| ReportWire.BitsRoundTrip | src/open61850/mms/report.py:44-58 | bits packed are read back, whatever their number |
| ReportWire.PackBits | src/open61850/mms/report.py:52-58 | setting bits one at a time packs them, and counts the unused ones |
| ReportWire.FlagsRoundTrip | src/open61850/mms/report.py:61-118 | OptFlds and reason codes survive their bit strings |
| ReportWire.ResultsRoundTrip | src/open61850/mms/pdu.py:264-271 | access results, values and failures, are read back as written |
| ReportWire.DecodeReportAt | src/open61850/mms/report.py:153-222 | the cursor reads what the recursive reading reads, error for error, on any list of results |
| ReportWire.SentIsEncoded | src/open61850/server/reporting.py:495-527 | the octets sent are the report's, although the entry was encoded apart and before |
| ReportWire.ReportRoundTrip | src/open61850/server/reporting.py:495-527 | a report is read by the client exactly as it was sent if and only if OptFlds does not ask for segmentation |
| ReportGrammar.FlagsAreRead | src/open61850/mms/report.py:44-49 | the flags of any bit string are its bits, the highest of the first octet first, but for the unused ones |
| ReportGrammar.ResultsAreRead | src/open61850/mms/pdu.py:264-271 | octets are read as access results exactly when their elements are those: failures of tag 80, else values |
| ReportGrammar.ReportIsRead | src/open61850/mms/report.py:153-222 | access results are read as a report exactly when they are that report, each field where its options put it, unsigned or integer numbers, an entry for each bit set, and nothing after |
| ReportGrammar.SentIsReport | src/open61850/server/reporting.py:495-527 | the octets sent are the access results of a report that carries the entry: the fields asked for, BufOvfl and EntryID of a BRCB alone, each member at its place |
| ReportIndex.JoinSplit | src/open61850/server/reporting.py:406-408 | splitting at `$` and joining gives the item back |
| ReportIndex.LookedUp | src/open61850/server/reporting.py:406-408 | the names looked up for a leaf are exactly the leaf and the objects above it |
| ReportIndex.LookupsAreTheScan | src/open61850/server/reporting.py:406-409 | the lookups reach a place exactly when the member there covers the leaf |
| ReportIndex.ScanSays | src/open61850/server/reporting.py:398-421 | a member is reported for a change of data, of quality, or for an update exactly when some changed leaf it covers triggers that and the block wants it |
| ReportIndex.ServedIsScanned | src/open61850/server/reporting.py:422-424 | the blocks served are those with a member to report |
| ReportIndex.MakeIndex | src/open61850/server/reporting.py:426-434 | the dictionary holds, for every member, its places in the blocks' order |
| ReportIndex.NoteLeaves | src/open61850/server/reporting.py:398-421 | through the index, each place gets the reasons a scan of every member of every block gives it |
| ReportIndex.ChangeIndex.WriteDatSet | src/open61850/server/reporting.py:134-139 | a written DatSet leaves no stale index |
| ReportIndex.ChangeIndex.Members | src/open61850/server/reporting.py:426-434 | the index, kept or made again, is that of the data sets as they are now |
| ReportIndex.ChangeIndex.OnChange | src/open61850/server/reporting.py:395-424 | after any history of DatSet writes a change reaches what the simple scan finds, served in the blocks' order |
| Reporting.EntryHoldsItsItems | src/open61850/server/reporting.py:472-483 | an entry includes each of its members once, in the data set's order, with the octets of a report |
| Reporting.TrimKeeps | src/open61850/server/reporting.py:171-175 | keeping drops the fewest oldest entries; one more would break a bound; the newest is never dropped |
| Reporting.KeepKeeps | src/open61850/server/reporting.py:167-175 | after a new entry the buffer is still the end of all entries made, its size and bounds right |
| Reporting.SendKeeps | src/open61850/server/reporting.py:495-527 | a report carries BufOvfl TRUE exactly when an entry above the mark was dropped since the report before or the last purge; sending keeps the buffer, the mark and the wrapping SqNum right |
| Reporting.EmitKeeps | src/open61850/server/reporting.py:472-493 | an entry made is kept, and sent once when the block is enabled |
| Reporting.AboveIsTail | src/open61850/server/reporting.py:359-365 | the kept entries above an EntryID are the end of the buffer, in order |
| ReportBlock.FlushInv | src/open61850/server/reporting.py:467-470 | a flush makes one entry of the pending notifications, after those before |
| ReportBlock.AddInv | src/open61850/server/reporting.py:449-465 | gathering keeps each notification once; the recursion of `_add` ends after one flush |
| ReportRuns.StepInv | src/open61850/server/reporting.py:279-493 | every write, change, timer, lapse and disconnection keeps the block; entries stay in order unless a client leaves changes gathered |
| ReportRuns.ReachableInv | src/open61850/server/reporting.py:107-180 | in every reachable state the buffer holds consecutive EntryIDs up to the newest, within its bounds, its bytes summed; every report ever sent carried BufOvfl TRUE iff an entry above the highest EntryID sent before it was dropped since the report before or the last purge; an enabled block has an owner |
| ReportRuns.LandsOnce | src/open61850/server/reporting.py:449-483 | each notification that is taken up (`ReportChanges.Changing` says which) lands in its entry, each member once, with that notification's value |
| ReportChanges.Changing | src/open61850/server/reporting.py:449-465 | what each change does: taken up or not, noted, an entry of its own, joined to what is gathered, or gathered alone after what was there made an entry; each entry sent once if the block is enabled |
| ReportChanges.RunNotes | src/open61850/server/reporting.py:395-424 | over any run the notifications are exactly the changes that reached the block while it was enabled, or a BRCB enabled once |
| ReportChanges.EveryMemberLands | src/open61850/server/reporting.py:395-483 | over any run each thing the changes said of a member is said by exactly one entry or still gathered, and the entries made of changes say nothing else |
| ReportChanges.TimeIsUp | src/open61850/server/reporting.py:456-457 | when BufTm is over what is gathered makes one entry |
| ReportChanges.Interrogating | src/open61850/server/reporting.py:317-320 | a general interrogation makes an entry of what is gathered, then one of every member, and sends both; without RptEna or TrgOps it does nothing |
| ReportChanges.PeriodIsOver | src/open61850/server/reporting.py:368-381 | so does the integrity period set last, and the next one begins |
| ReportChanges.Disabling | src/open61850/server/reporting.py:327-331 | a block that is disabled makes an entry of what is gathered and does not send it |
| ReportRequests.Answering | src/open61850/server/reporting.py:279-335 | the answer to every write: no such attribute, held by another or locked while enabled, read-only, or granted; what is not granted changes nothing |
| ReportRequests.Reserving | src/open61850/server/reporting.py:299-312 | Resv and ResvTms give the block to a client or free it |
| ReportRequests.Leaving | src/open61850/server/reporting.py:337-348 | a closed connection disables the block and keeps it for the reservation time, or frees it |
| ReportRequests.ComingBack | src/open61850/server/reporting.py:184-189 | until that time is over the address of the client that left may use the block and no other may |
| ReportRequests.Purging | src/open61850/server/reporting.py:313-316 | PurgeBuf empties the buffer and forgets what was lost, and nothing else |
| ReportRequests.Enabling | src/open61850/server/reporting.py:321-326 | RptEna reserves and enables the block, sends the kept entries above EntryID and begins the integrity period |
| ReportRequests.RunAgrees | src/open61850/server/reporting.py:279-348 | over any run, by the granted requests and closed connections: whose the block is, whether it is enabled, and from when a BRCB takes up changes |
| ReportRuns.StaleTimer | src/open61850/server/reporting.py:456-457 | a timer never flushes a later gathering |
| ReportRuns.OrderIsLost | src/open61850/server/reporting.py:337-348 | whenever the client of a BRCB goes with changes gathered, the next change overtakes them: order needs the condition of StepInv |
| ReportRuns.OrderIsLostUnbuffered | src/open61850/server/reporting.py:337-348 | so it is for a URCB whose next client sets BufTm to 0 |
| ReportRuns.EnabledRun | src/open61850/server/reporting.py:485-493 | while a block stays enabled each entry made is sent to its owner once, in order, whatever else happens |
| ReportRuns.Subscription | src/open61850/server/reporting.py:359-366 | an enabling client is sent exactly the entries from the first kept one above EntryID on, none twice, no gap, until it ends the enabling |
| ReportOverflow.OverflowIsNeverWrong | src/open61850/server/reporting.py:167-175 | in any run, a report that carries BufOvfl TRUE follows the drop of an entry no client had been sent |
| ReportOverflow.EnableSafe | src/open61850/server/reporting.py:359-366 | the reports an enabling sends are right; it leaves no unsent entry below the mark unless EntryID skips one |
| ReportOverflow.StepSafe | src/open61850/server/reporting.py:279-493 | the reports of every step are right, and only a step that buries an unsent entry can make later ones wrong |
| ReportOverflow.OverflowOverRuns | src/open61850/server/reporting.py:12-25 | in a run without such steps every report carries BufOvfl TRUE iff an entry no client had been sent was dropped since the report before or the last purge |
| ReportHiding.LossCanBeHidden | src/open61850/server/reporting.py:359-366 | a run of seven events from a new block: entry 1, sent to nobody, is dropped between two reports and the second carries FALSE |
| ReportHiding.BuryingHides | src/open61850/server/reporting.py:359-366 | after any enabling that buries an entry some changes and timers lead to a report that carries FALSE although an entry no client had been sent was dropped before it |
| ReportHiding.HidingIsExact | src/open61850/server/reporting.py:167-175 | in any run without burying so far the next event makes such a report possible if and only if it is an enabling whose EntryID skips an unsent entry and that either sends a later one or leaves room for the newest beside the next |
| ReportHiding.OneEntryHidesNothing | src/open61850/server/reporting.py:171-175 | with room for one entry no enabling does |
| ReportRuns.StaysReserved | src/open61850/server/reporting.py:184-211 | a BRCB whose client left is enabled, released or reconfigured by no other address until its time is over |
| ReportControl.Entries.Keep | src/open61850/server/reporting.py:167-175 | the mutable buffer after keeping an entry |
| ReportControl.Entries.Send | src/open61850/server/reporting.py:520-524 | the counters after a report |
| ReportControl.Entries.Replay | src/open61850/server/reporting.py:359-365 | what is kept above EntryID is sent, entry after entry |
| ReportControl.Control.AddChange | src/open61850/server/reporting.py:449-465 | the recursive gathering ends in the state of the specification |
| ReportControl.Control.FlushGathered | src/open61850/server/reporting.py:467-470 | the block after a flush |
| ReportControl.Control.OnWrite | src/open61850/server/reporting.py:279-335 | the block and the answer after any write; like every event, it keeps the invariants of ReachableInv |
| ReportControl.Control.OnClose | src/open61850/server/reporting.py:337-348 | the block after its client has gone |
| ReportControl.Control.OnLapse | src/open61850/server/reporting.py:350-355 | the block after a reservation has lapsed |
| ControlRuns.StepInv | src/open61850/server/control.py:197-419 | every request, answer, timer, finish and disconnection keeps the history legal and the dictionaries what it says |
| ControlRuns.RunInv | src/open61850/server/control.py:166-419 | in every run: one command at a time on an object, opRcvd and opOk as the command goes, selections as granted |
| ControlRuns.OneTermination | src/open61850/server/control.py:306-395 | an accepted command of enhanced security gets exactly one CommandTermination at its end, to its sender, after the positive response; none only if the sender was gone |
| ControlRuns.NoTermination | src/open61850/server/control.py:293-322 | refused commands and those of normal security get none |
| ControlRuns.OneAtATime | src/open61850/server/control.py:334-336 | between two commands accepted on an object the first one ends |
| ControlRuns.OperateNeedsSelection | src/open61850/server/control.py:294-302 | an Oper is accepted only in time from the client of a selection that no lapse, Cancel, disconnection or command has ended, by the history; `ControlRequests.RightIsOver` says it of the events |
| ControlRuns.NeverTwoHolders | src/open61850/server/control.py:225-250 | a selection that stands is granted to nobody but its holder |
| ControlRuns.OperatesAreGranted | src/open61850/server/control.py:294-302 | acceptance consumes the selection: accepted Opers never outnumber granted selections |
| ControlRuns.FinishedTooEarly | src/open61850/server/control.py:197-210 | a command finished before its handler answered is terminated twice: why `finish` must wait |
| ControlRequests.Selecting | src/open61850/server/control.py:234-292 | a selection is granted exactly when it may be, to its client and for the time of the object; a refused one changes no right |
| ControlRequests.Cancelling | src/open61850/server/control.py:275-280 | Cancel ends the right of the client that has it, and nobody else's |
| ControlRequests.Leaving | src/open61850/server/control.py:413-419 | a client that goes can operate nothing; the others are left alone |
| ControlRequests.Refusing | src/open61850/server/control.py:293-305 | each refusal of an Oper with its cause, in the order they are asked, the application's included; it changes no right and no command |
| ControlRequests.Operating | src/open61850/server/control.py:306-322 | an Oper that may be is a new command of its client, and uses up the right |
| ControlRequests.NoRightUntilGranted | src/open61850/server/control.py:225-322 | over any events a client without a selection has each Oper of a select-before-operate object refused until it is granted one |
| ControlRequests.RightIsOver | src/open61850/server/control.py:275-319 | after its Cancel, its disconnection, its accepted Oper, a lapse or another client's selection, so it is of the client that had the right |
| ControlRequests.OperatesNeedGrants | src/open61850/server/control.py:294-302 | by the events of any run, the Opers accepted on a selection never outnumber the selections granted |
| ControlRequests.Running | src/open61850/server/control.py:354-389 | an action that waited runs the command, or sets its timer; the flags and the object are free at its end |
| ControlRequests.Finishing | src/open61850/server/control.py:197-210 | `finish` ends the command in execution, with the outcome it is given |
| ControlRequests.TerminationSays | src/open61850/server/control.py:386-398 | in every run each CommandTermination carries the outcome of its command |
| ControlRequests.Connecting | src/open61850/server/control.py:225-230 | a new connection is known, and nothing else changes |
| ControlEngine.Engine.SelectedBy | src/open61850/server/control.py:225-230 | the holder, a lapsed selection dropped |
| ControlEngine.Engine.OnRead | src/open61850/server/control.py:234-248 | the engine and the answer after a read of SBO |
| ControlEngine.Engine.OnCancel | src/open61850/server/control.py:275-280 | the engine and the answer after a Cancel, whose effect `ControlRequests.Cancelling` states |
| ControlEngine.Engine.OnSbow | src/open61850/server/control.py:281-292 | the engine and the answer after a write of SBOw |
| ControlEngine.Engine.OnOper | src/open61850/server/control.py:293-322 | the engine and the answer after a write of Oper |
| ControlEngine.Engine.RunIt | src/open61850/server/control.py:354-371 | the engine and the outcome after a command is run |
| ControlEngine.Engine.OnPending | src/open61850/server/control.py:386-389 | the engine after an action that waited for a response or for operTm |
| ControlEngine.Engine.OnFinish | src/open61850/server/control.py:197-210 | the engine after the application ends a command |
| ControlEngine.Engine.OnClose | src/open61850/server/control.py:413-419 | the engine after a disconnection, by its two loops |
| Settings.StepInv | src/open61850/server/settings.py:110-264 | every step keeps SG the active group and EditSG non-zero iff a client edits |
| Settings.RunInv | src/open61850/server/settings.py:110-264 | so in every reachable state |
| Settings.OnlyConfirmsChange | src/open61850/server/settings.py:165-174 | groups change by a confirmed edit and by the application alone, one at a time; an edit ended by 0, lapse or disconnection changes none |
| Settings.EditRun | src/open61850/server/settings.py:183-195 | while an edit goes on SE is what it was loaded with, overlaid with the editor's writes and nobody else's |
| Settings.EditConfirmed | src/open61850/server/settings.py:240-258 | a confirmed edit makes the group its values at SelectEditSG overlaid with the editor's SE writes, in order |
| Settings.StaleSetting | src/open61850/server/settings.py:110-126 | a setting the application gives a group under edit is overwritten by whatever its SE leaf held |
| SettingRequests.Activating | src/open61850/server/settings.py:205-217 | a write of ActSG is granted for a group there is, active or agreed to; then it is active and SG shows it, else the active group and its values stay |
| SettingRequests.ActiveOverRuns | src/open61850/server/settings.py:128-217 | over any run ActSG is the group last granted or chosen, and SG shows it |
| SettingRequests.Editing | src/open61850/server/settings.py:219-238 | EditSG gives one client SE, for the reservation time, with the values of the group; 0 ends its edit |
| SettingRequests.Writing | src/open61850/server/settings.py:188-191 | only who edits writes SE, one leaf at a time |
| SettingRequests.Confirming | src/open61850/server/settings.py:240-258 | only who edits confirms; the group gets SE's values, SG follows if it is active, the edit is over |
| SettingRequests.Leaving | src/open61850/server/settings.py:260-264 | the edit of a client that goes is over, and nothing else happens |
| SettingRequests.Giving | src/open61850/server/settings.py:110-126 | the application's values are stored all or none; SG follows the active group |
| SettingEngine.Engine.LoadLeaves | src/open61850/server/settings.py:153-158 | leaf by leaf, a group's values |
| SettingEngine.Engine.Store | src/open61850/server/settings.py:251-254 | leaf by leaf, SE's values into the group |
| SettingEngine.Engine.OnActive | src/open61850/server/settings.py:205-217 | the block and the answer after a write of ActSG, whose effect `SettingRequests.Activating` states |
| SettingEngine.Engine.OnEdit | src/open61850/server/settings.py:219-238 | the block and the answer after a write of EditSG |
| SettingEngine.Engine.OnConfirm | src/open61850/server/settings.py:240-258 | the block and the answer after a write of CnfEdit |
| SettingEngine.Engine.OnSe | src/open61850/server/settings.py:188-191 | an SE write, refused to all but the editor |
| SettingEngine.Engine.SetGroup | src/open61850/server/settings.py:110-126 | the application's values, all or none |
| GoosePublisher.RunInv | src/open61850/goose_publisher.py:135-226 | each message repeats its state with the next sqNum, the same values and twice the wait up to the maximum, or begins the next state; stNum and sqNum wrap to 1 |
| GoosePublisher.RunOnTime | src/open61850/goose_publisher.py:207-226 | on schedule each message goes out within the wait the one before announced |
| GoosePublications.Publishing | src/open61850/goose_publisher.py:135-156 | values of another number are refused; others are sent at once as a new state, or are what the publisher sends next |
| GoosePublications.Turning | src/open61850/goose_publisher.py:198-226 | a turn sends what waits as a new state, or repeats the state when it is due; a late one does not put off the next |
| GoosePublications.RunSends | src/open61850/goose_publisher.py:135-226 | over any run the last message carries the values of the last publication before its state began |
| GoosePublications.EveryMessage | src/open61850/goose_publisher.py:135-226 | and so does each message of the run, at the event that sent it |
| GoosePublications.SubscriberKnows | src/open61850/supervision.py:237-271 | a supervisor that hears every message knows the values last published, unless they still wait to be sent |
| GoosePublications.CountersOverRuns | src/open61850/goose_publisher.py:158-166 | in every run sqNum counts the messages of a state and stNum the states, going on from 1 after 2^32 - 1 |
| GoosePublisher.Publisher.OnPublish | src/open61850/goose_publisher.py:135-156 | the publisher after a publication, which `GoosePublications.Publishing` says the effect of |
| GoosePublisher.Publisher.OnTurn | src/open61850/goose_publisher.py:214-226 | the publisher after one turn of its loop |
| GoosePublisher.Publisher.Send | src/open61850/goose_publisher.py:198-212 | the message that goes out, and what is due next |
| Supervision.Known.Follow | src/open61850/supervision.py:205-228 | the stream, the verdict and the events for a message |
| Supervision.Supervisor.OnMessage | src/open61850/supervision.py:237-271 | the stream and the events after a message |
| Supervision.Supervisor.OnCheck | src/open61850/supervision.py:273-284 | a silence reported once, past the deadline only |
| GooseVerdicts.FollowSays | src/open61850/supervision.py:205-228 | each event of the counters exactly when its condition holds |
| GooseVerdicts.FeedSays | src/open61850/supervision.py:237-271 | each event of a message exactly when its condition holds; the stream was heard, and the message is the reference unless it is late |
| GooseVerdicts.SaidInOrder | src/open61850/supervision.py:237-271 | each event once at most, in a fixed order |
| GooseVerdicts.OpeningSays | src/open61850/supervision.py:237-271 | the first message makes the stream known, with the flags it begins with |
| GooseVerdicts.SilenceSays | src/open61850/supervision.py:273-284 | a stream is silent exactly when nothing was heard for longer than its last message allows, and that is said once |
| GooseVerdicts.LossesAreCounted | src/open61850/supervision.py:205-228 | of two messages of a publisher with everything between them lost, the gap is the messages lost, or the states never heard |
| GooseVerdicts.OvertakenIsMended | src/open61850/supervision.py:118-228 | an overtaken message is missed until it comes, and a duplicate when it comes again |
| GooseVerdicts.LateSays | src/open61850/supervision.py:118-228 | what is missed and what is remembered after any message, the wrap of stNum included |
| GooseVerdicts.ConfigSays | src/open61850/supervision.py:186-202 | each event of the configuration and the flags exactly when it changed |
| GooseVerdicts.RemembersSixteen | src/open61850/supervision.py:114-130 | what tells a duplicate from a late message are the 16 counters taken last |
| GooseComposition.RunIsHeardClean | src/open61850/supervision.py:205-271 | any run of publications and repetitions is heard as a new stream with its flags, then state changes that miss nothing, the wraps included |
| GooseComposition.StatesAreConstant | src/open61850/goose_publisher.py:158-166 | messages of one state carry the same values and time, and consecutive sqNums |
| GooseComposition.RunIsNeverSilent | src/open61850/supervision.py:156-159 | with tal_factor 3 or more, or 2 and equal times, and no two messages in a row lost, a publisher on schedule is never found silent |
| GooseComposition.ShorterIsTooShort | src/open61850/goose_publisher.py:59-90 | with any shorter time to live one lost repetition is enough to be found silent |
| SvSupervision.LossesAddUp | src/open61850/supervision.py:345-410 | with a wrap W that is given, or announced by smpRate and smpMod, and bursts of at most W // 2 - 2, samples heard and missed add up to the true number over any number of wraps, nothing misread |
| SvSupervision.OneMoreIsTooMany | src/open61850/supervision.py:394-404 | one sample more in a burst is taken for a restart, a duplicate or a late sample |
| SvSupervision.LearntAddsUp | src/open61850/supervision.py:389-392 | so they do for a stream of unknown rate, with the same bursts, when the last sample before the first wrap is heard and the next is not taken as late |
| SvSupervision.FirstWrapIsExact | src/open61850/supervision.py:386-410 | at the first wrap the count is right and nothing is misread if and only if that condition holds |
| SvSupervision.LosslessIsHeard | src/open61850/supervision.py:389-392 | a stream above 17 samples a turn heard without loss meets it |
| SvSupervision.ShortWrapIsMisread | src/open61850/supervision.py:389-401 | a wrap of 17 or less is not learnt: it is misread |
| SvVerdicts.MoveIsFound | src/open61850/supervision.py:329-399 | the move of smpCnt is its difference but for whole turns, less than half a turn ahead or at most half behind |
| SvVerdicts.FollowSays | src/open61850/supervision.py:385-410 | gap, duplicate, late or restart exactly by the move, with what is then missed and remembered |
| SvVerdicts.FeedSays | src/open61850/supervision.py:345-383 | each event of a sample exactly when its condition holds, and the whole stream after it |
| SvVerdicts.SaidInOrder | src/open61850/supervision.py:345-383 | each event once at most, in a fixed order |
| SvVerdicts.OvertakenIsMended | src/open61850/supervision.py:118-130 | a sample overtaken by the next is missed until it comes, and a duplicate when it comes again, over a wrap too |
| SvSupervision.SvStream.OnAsdu | src/open61850/supervision.py:345-383 | the stream and the events after an ASDU |
| Bpf.EthertypeFilter | src/open61850/capture.py:139-157 | the loops emit the compiled program |
| Bpf.RunFilter | src/open61850/capture.py:160-175 | the loop computes what the program means, and ends |
| Bpf.CompiledIsCorrect | src/open61850/capture.py:139-175 | for every list of ethertypes and every frame the program accepts exactly when the type at 12 is listed, or 12 holds 0x8100 and the type at 16 is |
| Bpf.ParsedFramesPass | src/open61850/ethernet.py:68-107 | whatever `parse_frame` accepts passes |
| Bpf.JumpsFit | src/open61850/capture.py:145-157 | every jump fits in an octet if and only if there are at most 126 ethertypes |
| Bpf.ProgramForBoth | src/open61850/capture.py:139-157 | the program of GOOSE and Sampled Values, instruction by instruction as the kernel is given it |

## Left out

- Goose.NativeDecodePdu: does not say which error a refused message gets, because the order of the checks differs between the two languages; acceptance and content are compared.
- Sv.NativeDecodePduWith: says which PDUs are refused, not with which error.
- GooseComposition.RunIsNeverSilent: messages lost at the wrap of sqNum are outside it, as is a publisher stopped and started again.
- ReportWire.ReportRoundTrip: the informationReport around the access results and the name RPT are not modelled.
- SvTemplate.RenderFrame: above 65536 samples per second smpCnt no longer fits 16 bits; Python refuses to pack it there, the model keeps its low octets as the native engine does.
- ReportHiding.HidingIsExact: a block whose data set has no members at the time is outside it, because no change makes an entry of it.
- SvSchedule.Run: waiting for a deadline is the time each frame was sent at, given as an input.
- Sockets, AF_PACKET rings, threads, locks, clocks, `sendmmsg`, the Python bindings and the C interface.
- Floating point: wave synthesis, COMTRADE scaling and resampling. Samples are arbitrary INT32s, float values opaque octets (so two zeros of different sign differ), and a fault lasts an integer number of samples.
- Strings are octets: the replacement of bad ASCII and UTF-8, and texts of errors and events, are not modelled.
- Times are their wire fields: rounding to and from calendar dates, and Python reading both wire times into one type, are not modelled. An EntryID is below 2^64.
- Python's recursion limit, and sizes of 2^63 octets and beyond.
- The native field and slot arrays are values of fixed length rather than heap arrays, and the lists of values given to the writers are sequences.
- Types of written attributes: a write of the wrong MMS type, or of a name the model does not have, is refused before the steps modelled here.
- The Owner and TimeOfEntry attributes of a report control block, and the subscription of one client to several blocks: blocks do not interact.
- Report data sets are those at the time of the entry: a DatSet rewritten while old entries remain is outside the wire round trip.
- Handlers of controls and setting groups answer through a parameter and do not call back into the engines; a write names one variable.
- The `default_handler` of controls, `tOpOk`, and LastApplError contents.
- Sampled Values timeouts: the same check as that of GOOSE, against a time given to the supervisor.
- Streams of several gocbRefs or svIDs at once, the Ethernet address kept with a stream, and event texts: streams do not interact.
- SCL, XML, MMS association and discovery, pcap files, COMTRADE files, command lines.
