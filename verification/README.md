# LLRP client, modelled and verified

This project models a Go client for EPCglobal's Low Level Reader Protocol (LLRP 1.0.1 and
1.1) and the device service around it, and proves what the client promises.

**The binary codec.** The encoder and the decoder of every parameter are generated from one
schema, so the model starts from the schema: `Schema` describes parameters, their groups and
their values; `Fields`, `Encoder` and `Decoder` say what the generated code computes for any
schema, including where it rejects its input, would panic, or would loop forever. `HeaderCode`
and `UnmarshalLoops` hold the code in its own imperative form. Each decoding method is proved
equal to the specification; the generated encoder has shapes in which it panics or adds up the
wrong size, and `HeaderCode` says exactly for which parameters it does what `Encoder`
specifies. `RoundTrip`, `GroupRoundTrip` and `CodecLaw` prove the central law by
induction on the value: decoding an encoding gives the value back exactly when the value is
*clean*. A value is unclean in three cases only: an exclusive group's selected member is its
zero value; a TV parameter is present that the decoder reads without a loop or a choice; or a
parameter without parameters of its own has fixed fields behind its last variable one.
`MinimumSizes` and `SizeTable` cover the generator's size computation and the length guards it
feeds, `SizeOrder` the sizes for any order of the definitions, `Interleaving` the order of
parameters read in a loop, `Progress` the termination of decoding and `InBounds` its reads.
`Counterexamples` has schemas that the generator accepts and whose values its code does not
read back. `Layout` says where fields stand in the bytes, in plain arithmetic.
`Parameters` is the schema of all 123 LLRP parameters with the generated constants.
`SchemaCheck` is a checker that only calculates, `LlrpChecks` runs it on each parameter,
`LlrpSchema` concludes that the schema is good, and `LlrpLaws` draws the conclusions for
concrete parameters, with losing inputs in `LostValues`. `MessageCodec` proves the law for
message bodies, which have no length limit of their own and a size computed differently, and
`LlrpMessages` instantiates it for all 46 LLRP messages. `LlrpWire` states, parameter by
parameter and message by message, which bytes and bits hold the leading fields.

**The connection.** `Messages` and `Framing` cover message headers and the byte stream in
both directions. `Protocol` is the client as a state machine whose steps are the selects,
critical sections and channel operations of the writer loop, the reader loop, any number of
senders and closers, and `Connect`. `ClientSafety` proves what every step keeps, `ClientLaws`
what follows for every run, `ClientCalls` what becomes of each call, and `ClientCode` shows the
code between blocking operations to be runs of those steps. `Handshake` decodes the messages
that open a connection with the codec's model, `HandshakeWire` says which of their bytes
decide, `ClientOpening` proves that every run follows them, and `ClientConnects` that some run
succeeds.

**Discovery, retries, rediscovery.** `Addresses` covers the enumeration of a network's
addresses, `Discovery` the generator, worker and collector pipeline, `Retry` the exponential
back-off, the ring of kept errors and the retry loop, `Debounce` the shared timer that
triggers rediscovery.

`dafny verify dfyconfig.toml` checks everything.

## What a good schema and a well-formed value are

A schema is good when it meets these conditions, each of which can be checked on the schema:

- every parameter it mentions is defined, type numbers are below 2^15, and TV parameters are of
  fixed size, which the generator asserts (pkg/llrp/generate_param_code.py:1440-1444);
- the members of a group are distinct, and no later group's member can be taken for one of
  them, unless the group is a run of required TLV parameters;
- no TV parameter stands behind a loop over TLV parameters, which would take its bytes for a
  length (`Counterexamples.LoopTakesTvForLength`);
- a TV parameter behind a single optional TLV parameter has at least one byte of fields, because
  two bytes are looked at (`Counterexamples.EmptyTvPanics`);
- packed fields fit their masks, numbers and byte fields are not empty, and a field that takes
  the rest of the data is the last one, with no parameter behind it
  (`CodecLaw.NothingBehindRemainder`);
- minimum sizes do not exceed what is encoded;
- Go accepts the generated encoder, and every definition is *measured*: it has no groups, or it
  is not of fixed size and has either fixed fields only or some optional or repeatable parameter.

A value is well-formed when its fields fit, required parameters are present, required repeatable
ones not empty, and exactly one member of each exclusive group is selected. LLRP's schema is
shown to be good; no other assumption about the data is made.

## Where the code and its documentation differ

The model follows the code:

- `AISpecEvent` reads its optional TV parameter without moving past it and then rejects the
  bytes left over (pkg/llrp/generated_unmarshal.go:3939-3955).
- The generator's mask for a bit field that does not start its byte keeps a single bit
  (pkg/llrp/generate_param_code.py:625-626); LLRP has no wider field in such a place.
- A member of an exclusive group that equals zero is not written, although it is selected
  (pkg/llrp/generate_param_code.py:1106-1117).
- A parameter with a field of variable size and sub-parameters, none of them optional or
  repeatable, gets a `getHeader` that returns early: it panics on an empty slice or drops the
  selected parameter (pkg/llrp/generate_param_code.py:1084-1088). One of fixed size with
  sub-parameters leaves them out of its size (lines 1079-1082 there). LLRP has neither.
- `is_fixed_size` lacks its call where the members of exclusive groups are tested, so every
  field is compared with nil, which Go rejects for numbers
  (pkg/llrp/generate_param_code.py:1110-1115).
- A parameter or message of variable size without parameters is checked for leftover bytes, but
  its data is not resliced past fixed fields behind the last variable one, so its encodings are
  refused (pkg/llrp/generate_param_code.py:939-956, 1246-1262). LLRP has none.
- A loop over TLV parameters compares the third and fourth byte with the length of the data
  before it looks at the type, so it may reject a TV parameter that follows it
  (pkg/llrp/generate_param_code.py:1331-1345).
- Minimum sizes may depend on the order of the definitions if a parameter may hold another that
  must hold it (pkg/llrp/generate_param_code.py:1632-1652; `SizeOrder.OrderMatters`).
- A CloseConnection with a payload is announced with its length, and the payload is never sent
  (pkg/llrp/reader.go:831-836).
- A reply to GetSupportedVersion above 640 KiB has no reader and crashes the client; a reply to
  SetProtocolVersion of that size is taken to be empty (pkg/llrp/reader.go:1095-1106, 888-926).
- `validateHeader` does not look at the version (pkg/llrp/messages.go:186-201).
- When a reply's payload is cut short, the deferred drain replaces the error with nil, and
  the reply channel is neither sent to nor closed (pkg/llrp/reader.go:905-926).
- The version that was negotiated reaches acknowledgements only: the constructors of messages
  stamp version 1.0.1, and the writer replaces a version only if it is zero
  (pkg/llrp/messages.go:295-302, pkg/llrp/reader.go:813-818).
- `WithVersion` speaks of the higher version; negotiation takes the lower one
  (pkg/llrp/reader.go:1163-1166).
- A first error that is not recoverable is reported as `ErrRetriesExceeded`, a later one as
  itself; an expired context becomes the main error and is not added to the others; with
  `KeepErrs` of 0 the first error is kept, with a negative one the latest
  (internal/retry/retry.go:136-154, 304-379).
- For a mask of 31 or 32 ones the address is read from the first four bytes of `inet.IP`, which
  are zero in the 16-byte form (internal/driver/discover.go:312-314).
- `computeNetSz` counts addresses for masks of fewer than two ones, which the generator skips
  (internal/driver/discover.go:73-78, 301-303).

## Model

| member | source | states |
|---|---|---|
| Bytes.OrDisjoint | pkg/llrp/generate_param_code.py:1136-1202 | numbers shifted to disjoint bits are or-ed into their sum, so packing loses nothing |
| Bytes.BigEndianDigits | pkg/llrp/messages.go:151-164 | byte k of a number is its digit k in base 256, counted from the most significant |
| Fields.BitBytesIsCeiling | pkg/llrp/generate_param_code.py:1024-1030 | `((n-1)>>3)+1` with an arithmetic shift is the least number of bytes that holds n bits, for n = 0 too |
| Fields.PackRoundTrip | pkg/llrp/generate_param_code.py:600-638 | the parts of a packed byte are read back with the generated shifts and masks |
| Fields.MaskIsExact | pkg/llrp/generate_param_code.py:615-626 | the generated mask reads back every value of a bit field if and only if the field is leftmost or one bit wide |
| Fields.MaskLosesOne | pkg/llrp/generate_param_code.py:615-626 | the value 1 of any other bit field is read back as 0 |
| Fields.FieldRoundTrip | pkg/llrp/generate_param_code.py:640-783 | every kind of field, wherever it stands in the data, is read back and the position moves past exactly its bytes |
| Fields.HeaderTermIsExact | pkg/llrp/generate_param_code.py:1017-1050 | the constant and variable terms `getHeader` adds for a field are the bytes written for it, modulo 2^16 |
| Fields.PartsAreTheirBits | pkg/llrp/generate_param_code.py:600-638 | a part of a packed byte is read as the number its bits make: the byte over a power of two, modulo another |
| Fields.PackIsSum | pkg/llrp/generate_param_code.py:1136-1202 | a packed byte is the sum of its values, each times the place value of its part; bits of no part are zero |
| Fields.FieldBytes | pkg/llrp/generate_param_code.py:1136-1202 | every kind of field on the wire: numbers from the highest byte, packed sums, reserved bytes zero, a count in front of its elements in order, a number of bits in front of its bytes |
| Layout.DecodedFields | pkg/llrp/generate_param_code.py:1237-1265 | whatever a decoder accepts, each field with only fixed-size ones in front of it is the value that stands at the sum of their sizes |
| Layout.FieldIsWritten | pkg/llrp/generate_param_code.py:1136-1202 | the encoder writes such a field at that offset |
| Layout.FixedDecodes | pkg/llrp/generate_param_code.py:1225-1265 | a parameter of fixed size is decoded from any data that is long enough to the values at its offsets, and shorter data is rejected |
| Encoder.SizeIsExact | pkg/llrp/msg_builder.go:25-54 | in the specified header tree, which `getHeader` builds where HeaderCode.SpecifiedIffMeasured says, every node's size is the number of bytes `encodeParams` writes for it with everything nested, modulo 2^16 |
| Encoder.LengthFieldDelimits | pkg/llrp/msg_builder.go:32-41 | the length field a TLV carries on the wire is its own encoded length if and only if that is at most 65535 |
| Encoder.HeaderOnTheWire | pkg/llrp/msg_builder.go:27-41 | a type up to 127 is written as one byte, 128 more than the type, any other as two bytes of type and two of length |
| HeaderCode.EncodeParams | pkg/llrp/msg_builder.go:25-54 | the loop with its recursion appends exactly the printed header trees, in order, to what was written |
| HeaderCode.GetHeader | pkg/llrp/generate_param_code.py:1017-1121 | the generated method with all its shapes, the early return and the fixed-size one among them: its tree, sizes added in 16 bits one at a time, or its panic |
| HeaderCode.MarshalBinary | pkg/llrp/generate_param_code.py:1204-1207 | the bytes of the tree `getHeader` returns without the parameter's own header, or its panic |
| HeaderCode.GeneratedIsSpecified | pkg/llrp/generate_param_code.py:1052-1121 | if every definition is measured, `getHeader` returns the specified tree and `MarshalBinary` the specified body, for every well-formed value |
| HeaderCode.SpecifiedIffMeasured | pkg/llrp/generate_param_code.py:1079-1088 | where the nested parameters are right and no selected member is zero, a value's `getHeader` is right if and only if its definition has no groups, or is not of fixed size and has either fixed fields only or some optional or repeatable parameter |
| HeaderCode.EarlyReturnPanics | pkg/llrp/generate_param_code.py:1084-1088 | a counted field followed by one required parameter: everything else about the schema is in order, and the generated encoder panics for every value |
| UnmarshalLoops.Unmarshal | pkg/llrp/generate_param_code.py:1225-1361 | the generated method, which reslices `data` and assigns fields, computes the specified decoding, with the same rejections, panics and endless loops |
| UnmarshalLoops.UnmarshalFields | pkg/llrp/generate_param_code.py:1237-1265 | the field loop with its running offset and reslicing reads the specified fields and leaves the specified data |
| UnmarshalLoops.UnmarshalGroups | pkg/llrp/generate_param_code.py:1266-1361 | one step or loop per group, ending early when only optional groups remain and no data does; leftover bytes are rejected |
| UnmarshalLoops.UnmarshalLoop | pkg/llrp/generate_param_code.py:1308-1349 | the greedy loop over a group, with its length check before its type switch, is the specified recursion |
| UnmarshalLoops.UnmarshalChoice | pkg/llrp/generate_param_code.py:1398-1417 | a switch that takes exactly one of several parameters, or rejects |
| UnmarshalLoops.UnmarshalSimple | pkg/llrp/generate_param_code.py:1280-1307 | required parameters one after the other with the length guards the generator still needs, or one optional parameter |
| UnmarshalLoops.UnmarshalMember | pkg/llrp/generate_param_code.py:1419-1447 | one parameter with its header: its value and how far the data moves, or the failure |
| RoundTrip.FieldsRoundTrip | pkg/llrp/generate_param_code.py:1136-1265 | all fields of a parameter are read back from their encoding and the data left is what followed them |
| RoundTrip.HeaderReads | pkg/llrp/msg_builder.go:27-41 | a printed header shows its type, whether it is TV or TLV, and the length of its whole subtree |
| GroupRoundTrip.LoopItem | pkg/llrp/generate_param_code.py:1308-1349 | one turn of a group loop consumes exactly one encoded parameter of the group, whatever follows it |
| GroupRoundTrip.LoopStops | pkg/llrp/generate_param_code.py:1318-1330 | the loop ends, unchanged, in front of a parameter of a later group; but a loop over TLV parameters rejects a TV parameter there if and only if four bytes are left and the third and fourth, taken for a length, exceed them |
| GroupRoundTrip.SwitchPasses | pkg/llrp/generate_param_code.py:1308-1330 | a mixed TV and TLV switch never takes a later group's header for one of its own members |
| GroupRoundTrip.ChoiceStep | pkg/llrp/generate_param_code.py:1398-1417 | an exclusive group reads back its selected member; if that is its zero value nothing was written and decoding fails |
| GroupRoundTrip.RequiredRun | pkg/llrp/generate_param_code.py:1280-1307 | a run of required TLV parameters is read back exactly if each is clean, and none of its length guards refuses it |
| GroupRoundTrip.RequiredTv | pkg/llrp/generate_param_code.py:1280-1307 | a run of required parameters with a TV parameter among them is unclean: decoding fails or leaves the data at a TV parameter of the group |
| GroupRoundTrip.StaysLeft | pkg/llrp/generate_param_code.py:1266-1361 | a TV parameter that was left in the data, and is no member of the later groups, is never taken away: decoding fails |
| CodecLaw.GroupStep | pkg/llrp/generate_param_code.py:1266-1361 | each kind of group in its place: clean slots are read back and the data stops at the next group, an unclean group is refused or leaves its TV parameter in the data |
| CodecLaw.GroupsRoundTrip | pkg/llrp/generate_param_code.py:1266-1361 | all groups of a parameter are read back if clean, refused if not, with no byte left over |
| CodecLaw.GuardAdmits | pkg/llrp/generate_param_code.py:1225-1235 | the length guard at the head of a decoder lets every clean encoding pass |
| CodecLaw.RoundTripLaw | pkg/llrp/generate_param_code.py:1090-1361 | for any good schema and any well-formed value of at most 65535 bytes, at any nesting depth: `MarshalBinary` returns the specified bytes, and decoding them gives the value back if it is clean and fails if it is not |
| CodecLaw.ReadBackIffDelimited | pkg/llrp/generate_param_code.py:939-956 | a parameter without parameters of its own is read back if and only if it is of fixed size or no bytes trail its last variable field, and otherwise every encoding is refused |
| Counterexamples.NumberIsLeftOver | pkg/llrp/generate_param_code.py:939-956 | a count with its numbers and one more number behind: a good schema whose decoder accepts no data at all |
| Counterexamples.LoopTakesTvForLength | pkg/llrp/generate_param_code.py:1331-1345 | any number of one TLV parameter and then two optional TV parameters: the encoding of a clean value that has both TV parameters is rejected, whatever is in them |
| Counterexamples.EmptyTvPanics | pkg/llrp/generate_param_code.py:1378-1396 | a TV parameter of one byte behind an absent optional TLV parameter: the decoder panics on the encoding of a clean value |
| CodecLaw.NothingBehindRemainder | pkg/llrp/generate_param_code.py:743-755 | a field that takes the rest of the data is never read back if anything was written behind it |
| MinimumSizes.MinSizeHolds | pkg/llrp/generate_param_code.py:1632-1664 | no clean value is encoded in fewer bytes than its `min_size`, even in schemas whose parameters contain each other |
| MinimumSizes.SoundSizesAreGood | pkg/llrp/generate_param_code.py:1621-1664 | a closed, coherent schema with sound minimum sizes obeys the codec's law |
| MinimumSizes.LeadingReadsInBounds | pkg/llrp/generated_unmarshal.go:16-29 | once the length guard has passed, no read up to and including the first variable field is out of bounds, however malformed the data |
| SizeTable.Table.GetParamSize | pkg/llrp/generate_param_code.py:1632-1652 | the memoised recursion, which enters a parameter as its bare header to end cycles: the sizes are those of the recursive definition `Visited`; finished ones stay, are sound, and are exact where required parameters get ever less deep |
| SizeTable.Table.SmallestOf | pkg/llrp/generate_param_code.py:1640-1645 | the smallest of the sizes of several parameters, computed in a loop that memoises more as the definition says |
| SizeTable.Table.SetParamSizes | pkg/llrp/generate_param_code.py:1621-1664 | for any closed schema in any order every size is the one the definition gives for that order; all are sound, so that a coherent schema obeys the codec's law; and if required parameters get ever less deep, each is exactly header, fields and the smallest of each required run |
| SizeTable.ExactSizesAreUnique | pkg/llrp/generate_param_code.py:1632-1664 | such sizes do not depend on the order of the definitions or on what was there before |
| SizeOrder.OrderMatters | pkg/llrp/generate_param_code.py:1632-1652 | two parameters, of which one may hold the other and must be held by it: taken in one order the second has size 10, in the other 8 |
| SizeTable.LeaveSound | pkg/llrp/generate_param_code.py:1647-1652 | finishing one parameter keeps every finished one sound, because sizes only grow |
| Interleaving.StablePartition | pkg/llrp/generated_unmarshal.go:2107-2138 | sorting by kind conserves the multiset, keeps the order within each kind, and puts kinds in ascending order |
| Interleaving.LoopSortsMix | pkg/llrp/generated_unmarshal.go:2107-2138 | the group loop recovers the per-kind slices from any interleaving of their elements |
| Interleaving.SameItemsSameLength | pkg/llrp/generated_encoder.go:969-985 | reordering a group's parameters conserves the number of bytes |
| Interleaving.AnyInterleavingDecodes | pkg/llrp/generate_param_code.py:1308-1349 | for any schema and any group read in a loop, of repeatable or of optional parameters: any interleaving decodes to the same value, and encoding that value writes the stable partition by kind |
| MessageCodec.MarshalMessage | pkg/llrp/generate_param_code.py:1535-1547 | the loops over groups and members write the specified bytes: the fields, then every parameter that is present |
| MessageCodec.Unmarshal | pkg/llrp/generate_param_code.py:1501-1519 | a message body is decoded as specified, its length checked exactly if it is fixed and from below if not |
| MessageCodec.GroupsHoldMin | pkg/llrp/generate_param_code.py:1667-1682 | the sum of the minimum sizes of all required parameters is never more than what a clean message encodes them in |
| MessageCodec.MessageRoundTrip | pkg/llrp/generate_param_code.py:1501-1547 | for any good schema and any good message, however long: if each parameter fits its length field, `MarshalBinary` returns the specified bytes, and decoding them gives the value back if the parameters are clean and no bytes trail the last variable field of a message without parameters, and fails if not |
| Progress.DecodingEnds | pkg/llrp/generate_param_code.py:1308-1349 | decoding never loops forever unless some four bytes are the header of a parameter read in place with length zero |
| Progress.TurnHoldsUp | pkg/llrp/generate_param_code.py:1419-1447 | a turn of a group loop advances by nothing if and only if its member is a TLV parameter read in place, with its field there, that declares length zero; the loop then never ends |
| InBounds.TurnStaysInBounds | pkg/llrp/generate_param_code.py:1308-1349 | a turn of a group loop on a TLV parameter that declares at least its minimum size panics if and only if the parameter's own decoder does on the bytes declared |
| InBounds.FixedStaysInBounds | pkg/llrp/generated_unmarshal.go:16-29 | the decoder of a parameter of fixed size without parameters panics on no input |
| InBounds.KnownIsCounted | pkg/llrp/generate_param_code.py:1237-1265 | the bytes the generator counts on after the fields: what fixed ones leave of the minimum size, or nothing behind one of variable size |
| InBounds.RequiredIsGuarded | pkg/llrp/generate_param_code.py:1449-1456 | they are there, and the check in front of the first required parameter refuses exactly the data too short for its header, or for all of it if its size is fixed |
| LlrpSchema.LlrpIsGood | pkg/llrp/messages.yaml:1-1768 | the 123 LLRP parameters are a closed, coherent, measured and delimited schema that Go compiles, each minimum size is exactly what its fields and required parameters add up to, and required parameters get ever less deep |
| LlrpSchema.ComputeSizes | pkg/llrp/generate_param_code.py:1621-1664 | from any initial sizes and in any order of the definitions, the generator's computation arrives at exactly these sizes |
| LlrpLaws.LlrpRoundTrip | pkg/llrp/generated_unmarshal.go:1425-4865 | every LLRP parameter of at most 65535 bytes is encoded as specified, and read back if and only if it is clean |
| LlrpWire.ParameterValues | pkg/llrp/generated_unmarshal.go:1425-4865 | for each of the 123 parameters: what is decoded has the values that stand at its offsets, and what is encoded has them there; the offsets are in the layout lemmas below |
| LlrpWire.FlagsRead | pkg/llrp/generate_param_code.py:600-638 | in every group of flags of any parameter or message, flag i is bit 7-from-i of its byte |
| LlrpWire.FlagsWritten | pkg/llrp/generate_param_code.py:1136-1202 | and it is written to that bit, with zero in all bits that are no flag |
| LlrpWire.EventNotificationStateBytes | pkg/llrp/generated_unmarshal.go:3645-3652 | the bytes hi, lo, b decode to the type 256*hi+lo and the flag b/128, and such a value is encoded as hi, lo, 128 times the flag |
| LlrpWire.GeneralDeviceCapabilitiesBytes | pkg/llrp/generated_unmarshal.go:1630-1650 | what is read from the first twelve bytes, and that the two flags are written as 128 and 64 and the byte behind them as zero |
| LlrpWire.ShortIsRejected | pkg/llrp/generated_unmarshal.go:16-29 | no parameter or message is accepted in less than its fields and required parameters take at their smallest, and none of such data is read out of bounds |
| LlrpWire.SightingLayout | pkg/llrp/generated_unmarshal.go:1426-1495 | where the fields stand, in arithmetic on the bytes: AntennaID to TagSeenCount: one number each, of one, two or eight bytes |
| LlrpWire.ReferenceLayout | pkg/llrp/generated_unmarshal.go:1498-1581 | where the fields stand, in arithmetic on the bytes: ROSpecID to OpSpecID: one number each, of two or four bytes |
| LlrpWire.AirDatumLayout | pkg/llrp/generated_unmarshal.go:1516-1609 | where the fields stand, in arithmetic on the bytes: C1G2PC with its length in five bits and three flags, EPC96, CRC and the like |
| LlrpWire.TimestampLayout | pkg/llrp/generated_unmarshal.go:1612-1627 | where the fields stand, in arithmetic on the bytes: eight bytes of time |
| LlrpWire.GeneralDeviceCapabilitiesLayout | pkg/llrp/generated_unmarshal.go:1630-1650 | where the fields stand, in arithmetic on the bytes: the two flags in the two highest bits of the third byte, a reserved byte, manufacturer and model |
| LlrpWire.LLRPCapabilitiesLayout | pkg/llrp/generated_unmarshal.go:1796-1813 | where the fields stand, in arithmetic on the bytes: five flags and seven numbers |
| LlrpWire.DeviceCapabilityLayout | pkg/llrp/generated_unmarshal.go:1750-1793 | where the fields stand, in arithmetic on the bytes: the other device capabilities |
| LlrpWire.RegulatoryLayout | pkg/llrp/generated_unmarshal.go:1816-2065 | where the fields stand, in arithmetic on the bytes: regulatory capabilities, the hopping flag and the frequency tables |
| LlrpWire.ROSpecPartLayout | pkg/llrp/generated_unmarshal.go:2080-2328 | where the fields stand, in arithmetic on the bytes: ROSpec and its triggers |
| LlrpWire.AISpecPartLayout | pkg/llrp/generated_unmarshal.go:2331-2585 | where the fields stand, in arithmetic on the bytes: AISpec, its triggers and RFSurveySpec |
| LlrpWire.AccessLayout | pkg/llrp/generated_unmarshal.go:2588-2907 | where the fields stand, in arithmetic on the bytes: AccessSpec with its flag, its trigger and client requests |
| LlrpWire.ReaderSettingLayout | pkg/llrp/generated_unmarshal.go:2910-3080 | where the fields stand, in arithmetic on the bytes: reader settings with their flags |
| LlrpWire.AntennaSettingLayout | pkg/llrp/generated_unmarshal.go:2962-3060 | where the fields stand, in arithmetic on the bytes: antenna settings |
| LlrpWire.ReportSpecLayout | pkg/llrp/generated_unmarshal.go:3083-3206 | where the fields stand, in arithmetic on the bytes: report specifications, among them ten flags in two bytes |
| LlrpWire.ReportLayout | pkg/llrp/generated_unmarshal.go:3569-3608 | where the fields stand, in arithmetic on the bytes: FrequencyRSSILevelEntry |
| LlrpWire.NotificationLayout | pkg/llrp/generated_unmarshal.go:3645-3652 | where the fields stand, in arithmetic on the bytes: EventNotificationState with its flag in the highest bit of the third byte |
| LlrpWire.DeviceEventLayout | pkg/llrp/generated_unmarshal.go:3788-3977 | where the fields stand, in arithmetic on the bytes: device events, among them the two bytes of ConnectionAttemptEvent |
| LlrpWire.SpecEventLayout | pkg/llrp/generated_unmarshal.go:3807-3960 | where the fields stand, in arithmetic on the bytes: events of specifications |
| LlrpWire.StatusLayout | pkg/llrp/generated_unmarshal.go:3980-4082 | where the fields stand, in arithmetic on the bytes: LLRPStatus and the errors with their codes |
| LlrpWire.Gen2CapabilityLayout | pkg/llrp/generated_unmarshal.go:4085-4097 | where the fields stand, in arithmetic on the bytes: six flags and a number |
| LlrpWire.UHFC1G2RFModeTableEntryLayout | pkg/llrp/generated_unmarshal.go:4134-4150 | where the fields stand, in arithmetic on the bytes: the ten of an RF mode, with two flags |
| LlrpWire.Gen2InventoryLayout | pkg/llrp/generated_unmarshal.go:4153-4333 | where the fields stand, in arithmetic on the bytes: inventory command and filters, with their flags and two-bit numbers |
| LlrpWire.Gen2SingulationLayout | pkg/llrp/generated_unmarshal.go:4336-4394 | where the fields stand, in arithmetic on the bytes: RF control and singulation control |
| LlrpWire.Gen2TargetLayout | pkg/llrp/generated_unmarshal.go:4397-4629 | where the fields stand, in arithmetic on the bytes: a tag target with memory bank and match flag in one byte, and lock payloads |
| LlrpWire.Gen2OperationLayout | pkg/llrp/generated_unmarshal.go:4480-4618 | where the fields stand, in arithmetic on the bytes: operations on tags with their memory bank in two bits |
| LlrpWire.Gen2LaterOperationLayout | pkg/llrp/generated_unmarshal.go:4730-4782 | where the fields stand, in arithmetic on the bytes: recommissioning with its flags in the three lowest bits, and block locks |
| LlrpWire.Gen2ResultLayout | pkg/llrp/generated_unmarshal.go:4632-4830 | where the fields stand, in arithmetic on the bytes: results of operations |
| LlrpLaws.PlainRoundTrips | pkg/llrp/generated_unmarshal.go:3980-4082 | 118 of the 123 parameters, among them LLRPStatus and ParameterError at any nesting depth, ROSpec, ReaderExceptionEvent, GeneralDeviceCapabilities, C1G2TargetTag and EPCData, always round-trip |
| LlrpLaws.TagReportDataIsClean | pkg/llrp/generated_unmarshal.go:3209-3460 | TagReportData with any subset of its optional parameters and any number of Customs survives if and only if its EPC is not an EPCData of no bits |
| LostValues.BitlessIsLost | pkg/llrp/generated_unmarshal.go:3209-3460 | a TagReportData whose EPC has no bits is encoded and then refused |
| LlrpLaws.FrequencyEntryIsClean | pkg/llrp/generated_encoder.go:2135-2150 | FrequencyRSSILevelEntry survives if and only if its time stamp is not zero |
| LostValues.ZeroTimeIsLost | pkg/llrp/generated_encoder.go:2135-2150 | a FrequencyRSSILevelEntry at time zero is encoded and then refused |
| LlrpLaws.AISpecEventIsClean | pkg/llrp/generated_unmarshal.go:3927-3960 | AISpecEvent survives if and only if it carries no SingulationDetails |
| LostValues.SingulationIsLost | pkg/llrp/generated_unmarshal.go:3927-3960 | every AISpecEvent with C1G2SingulationDetails is encoded and then refused |
| LlrpLaws.ReaderEventIsClean | pkg/llrp/generated_unmarshal.go:3655-3830 | ReaderEventNotificationData survives if and only if its time stamp is not zero and its AISpecEvent, if any, survives |
| LlrpLaws.SurveyReportIsClean | pkg/llrp/generated_unmarshal.go:3494-3565 | RFSurveyReportData survives if and only if each of its entries does |
| SchemaCheck.TvThenCustom | pkg/llrp/generated_unmarshal.go:3853-3908 | a loop over TV parameters that masks the first byte with 0x7F takes a following Custom for type 3: the group is coherent with a Custom behind it if and only if type 3 is no member |
| LlrpLaws.ROSpecInterleaved | pkg/llrp/generated_unmarshal.go:2107-2138 | a ROSpec with AISpecs, RFSurveySpecs and Customs in any order decodes, and encodes as their stable partition |
| LlrpLaws.TagReportInterleaved | pkg/llrp/generated_unmarshal.go:3262-3460 | a clean TagReportData with its optional parameters in any order decodes, and encodes as their stable partition |
| LlrpLaws.LlrpDecodingEnds | pkg/llrp/generated_unmarshal.go:1425-4865 | no data keeps the decoder of an LLRP parameter going forever unless a parameter read in place declares length zero |
| LlrpLaws.StatusDecodingEnds | pkg/llrp/generated_unmarshal.go:3980-4082 | LLRPStatus, FieldError and ParameterError decode to an end on every input |
| LlrpLaws.ZeroLengthSticks | pkg/llrp/generated_unmarshal.go:2973-3035 | an AntennaConfiguration with an RFReceiver of length zero does keep its decoder going forever |
| LlrpMessages.BodyIsGood | pkg/llrp/messages.yaml:1-1768 | each of the 46 LLRP messages, with its generated minimum size, is coherent and has the size its fields and required parameters add up to |
| LlrpMessages.LlrpMessageRoundTrip | pkg/llrp/generated_unmarshal.go:30-1420 | every LLRP message whose parameters fit is read back if and only if it is clean |
| LlrpWire.MessageValues | pkg/llrp/generated_unmarshal.go:30-1420 | what is decoded as a message has the values at its offsets, and what is encoded has them there |
| LlrpWire.MessageLayout | pkg/llrp/generated_unmarshal.go:30-1420 | where the fields of messages stand: versions in the three highest bits of a byte, flags and numbers |
| LlrpWire.SpecIdLayout | pkg/llrp/generated_unmarshal.go:286-700 | and in those that name a ROSpec or AccessSpec, its id in the first four bytes |
| LlrpWire.ExactLengths | pkg/llrp/generated_unmarshal.go:32-720 | header-only messages are accepted only empty, those that name a ROSpec or AccessSpec only with four bytes, which are its id, SetProtocolVersion only with one |
| LlrpMessages.PlainMessagesRoundTrip | pkg/llrp/generated_marshal.go:23-678 | all messages but ClientRequestOp, ROAccessReport and ReaderEventNotification always round-trip |
| LlrpMessages.ReportIsClean | pkg/llrp/generated_unmarshal.go:830-877 | an ROAccessReport survives if and only if each of its TagReportData and RFSurveyReportData does |
| Messages.HeaderRoundTrip | pkg/llrp/messages.go:131-164 | a header that fits its Go fields is read back as written if and only if type, payload length and version fit the wire |
| Messages.ValidHeaderRoundTrip | pkg/llrp/messages.go:186-201 | among headers that pass validation, exactly those of version 0 to 7 are read back |
| Messages.HeaderLayout | pkg/llrp/messages.go:151-164 | the ten bytes of a header in arithmetic: four times the version plus the highest type bits, the type, the length with the header, the id |
| Messages.HeaderMeaning | pkg/llrp/messages.go:131-149 | what any ten bytes are read as, and that a length below ten is refused |
| Messages.PutBigEndian | pkg/llrp/messages.go:151-164 | writing a number into a byte array in place replaces exactly its bytes |
| Messages.HeaderRecord.UnmarshalBinary | pkg/llrp/messages.go:131-149 | the record is filled in place; on a length below 10 it fails holding the raw length, on short data it is unchanged |
| Messages.HeaderRecord.MarshalBinary | pkg/llrp/messages.go:151-164 | a fresh array with the header's ten bytes, if and only if the header is valid |
| Framing.NewByteMessage | pkg/llrp/messages.go:276-324 | accepted if and only if the type is at most 1023 and not from 900 to 999 and the size fits, and then ready to be written as one complete frame, with id 0, version 1.0.1 and the length of the payload |
| Framing.SentIsFrames | pkg/llrp/reader.go:813-856 | the bytes written for prepared messages are the complete frames up to the first CloseConnection if and only if that has no payload |
| Framing.FramesRecovered | pkg/llrp/reader.go:700-738 | the reader loop takes exactly the frames that were written, whatever its handlers read or panic, and is then at the next byte |
| Framing.NothingReceived | pkg/llrp/reader.go:700-738 | where no header follows, the loop ends: closed if the reader had closed and nothing more came, for something unexpected after that if bytes came, and for want of a message otherwise |
| Framing.EndToEnd | pkg/llrp/reader.go:700-856 | what the loop receives is what was sent up to the first CloseConnection, in order and with payloads, if and only if that has no payload |
| Framing.ShortPayloadSurfacesLater | pkg/llrp/reader.go:888-956 | a payload cut short is reported where it is cut only if nobody wanted the message; otherwise the next header fails |
| Framing.CloseWithPayloadIsCut | pkg/llrp/reader.go:831-836 | if it has one, the reader gets everything before it, and of it the header alone, whatever was sent |
| Framing.HandleOutgoing | pkg/llrp/reader.go:826-856 | the write loop writes the specified bytes and stops where specified |
| Framing.PassToHandler | pkg/llrp/reader.go:888-956 | exactly the payload, or what there is of it, is consumed; the reply channel gets the whole payload, or only the header above 640 KiB, or nothing if it is cut short; a short read fails only if unhandled |
| Framing.HandleIncoming | pkg/llrp/reader.go:700-738 | the read loop takes the specified frames and ends for the specified reason |
| Framing.MsgWriter.Write | pkg/llrp/msg_builder.go:73-99 | below 2^32 bytes, a valid message is written as one complete frame and an invalid one not at all |
| ClientLaws.ReplyChannelsAreSafe | pkg/llrp/reader.go:773-809 | in every interleaving each reply channel is sent to and closed at most once, never sent to after closing, no send blocks, and cancel closes only its own call's channel |
| ClientLaws.AnswerIsOwn | pkg/llrp/reader.go:997-1028 | in every reachable state a call that returned a reply returned one with its own id, and that is the id its request is written with |
| ClientLaws.IdsAreUnique | pkg/llrp/reader.go:773-790 | two calls registered for replies never share an id |
| ClientCalls.EntriesBelongToWaitingCalls | pkg/llrp/reader.go:773-803 | no entry outlives its call: what is in the map is there under the id of a call that has not returned, with its channel open |
| ClientCalls.CancelCleansUp | pkg/llrp/reader.go:792-803 | cancelling removes the call's entry and closes its channel if the reader has not taken it, touches nothing else, and fails the call |
| ClientCalls.RequestsAreWritten | pkg/llrp/reader.go:757-856 | what was reported as sent, or awaits a reply, is written exactly once, as the call's type and id, unless the writer has it in hand or has failed |
| ClientCalls.GivenUpIsUnsent | pkg/llrp/reader.go:997-1013 | a call that has not been taken, or gave up before it was, is not on the wire |
| ClientCalls.CallCanStop | pkg/llrp/reader.go:1000-1028 | a caller can stop at any time: before its request is taken it gives up, and while it waits it cancels, which removes its entry and closes its channel |
| ClientCalls.RequestIsAnswered | pkg/llrp/reader.go:997-1028 | a new SendMessage request can go out under a new id, and when a message with that id comes in, the call returns that message and its entry is gone |
| ClientCalls.MessageIsSent | pkg/llrp/reader.go:767-829 | a new SendNoWait message can be written under its own id or a new one, without an entry |
| ClientLaws.ClosedOnce | pkg/llrp/reader.go:492-503 | in every run with any number of closers, once the winner has got that far, `done` is closed exactly once if anybody closes the client, and exactly that caller gets nil |
| ClientLaws.CloseConnectionIsLast | pkg/llrp/reader.go:831-836 | nothing is written after a CloseConnection |
| ClientLaws.HandshakeComesFirst | pkg/llrp/reader.go:388-428 | before negotiation has succeeded only GetSupportedVersion, SetProtocolVersion and KeepAliveAck are written, and nothing before the check of the first message |
| ClientOpening.NothingBeforeSuccess | pkg/llrp/reader.go:403-428 | in every run nothing is written unless the first message was a ReaderEventNotification whose payload decodes to a ConnectionAttemptEvent of success |
| Handshake.InitialAccepted | pkg/llrp/reader.go:1035-1086 | the encoding of a clean notification passes the check if and only if it reports a successful connection |
| ClientLaws.VersionIsNegotiated | pkg/llrp/reader.go:1155-1205 | after negotiation the version is one of the configured and the reader's maximum and above neither, and SetProtocolVersion was sent and answered if and only if the reader's current version differs |
| ClientOpening.NegotiationFollowsReplies | pkg/llrp/reader.go:1155-1205 | in every run the reader's versions are those its reply decodes to, the client's is one of its own and their maximum and above neither, and SetProtocolVersion was sent, and its reply decodes to success, if and only if the current one in the reply differs |
| ClientConnects.ConnectCanSucceed | pkg/llrp/reader.go:388-428 | given a first message that reports success and, above version 1.0.1, answers to the questions, some run of the client opens the gate: nothing is written up to 1.0.1, else the question and, if the lesser version is not the current one, the setting |
| Handshake.VersionsRead | pkg/llrp/reader.go:1095-1152 | an encoded GetSupportedVersionResponse of success yields the two versions in it, and any other is refused |
| Handshake.OldReaderIsUnderstood | pkg/llrp/reader.go:1108-1130 | an encoded error reply means version 1.0.1 if it says the version is unsupported, and otherwise is refused unless it reports success |
| Handshake.SettingAccepted | pkg/llrp/reader.go:1168-1205 | an encoded SetProtocolVersionResponse is accepted if and only if it reports success |
| HandshakeWire.AttemptDecides | pkg/llrp/reader.go:1035-1086 | a notification, byte by byte, of a time and a connection attempt is accepted if and only if its type is 63 and the two bytes of the attempt's status are zero |
| HandshakeWire.StatusOnTheWire | pkg/llrp/generated_unmarshal.go:3980-4030 | in every message that starts its parameters with an LLRPStatus, the status code is the number in its fifth and sixth byte |
| HandshakeWire.VersionBytes | pkg/llrp/reader.go:1132-1152 | an encoded GetSupportedVersionResponse yields the highest three bits of its first two bytes if bytes six and seven are zero, and is refused if not |
| HandshakeWire.AcceptanceBytes | pkg/llrp/reader.go:1168-1205 | an encoded SetProtocolVersionResponse is accepted if and only if bytes four and five are zero |
| HandshakeWire.ErrorBytes | pkg/llrp/reader.go:1108-1130 | an encoded ErrorMessage stands for version 1.0.1 if and only if its status code is 110 or zero |
| HandshakeWire.UnexpectedReplies | pkg/llrp/reader.go:1035-1205 | replies of other types are refused; of one above 640 KiB the question for the versions crashes and the others are refused |
| ClientLaws.ReadyClosedOnce | pkg/llrp/reader.go:403-428 | neither place in `Connect` that closes `ready` is ever reached when it is closed |
| ClientLaws.VersionsOnTheWire | pkg/llrp/reader.go:813-818 | negotiation is written as version 1.1; later acks and messages without a version as the version agreed on; a message with a version keeps it, so that a SendMessage request stays at 1.0.1, the version its constructor stamped |
| ClientLaws.AcksKeepOrder | pkg/llrp/reader.go:757-811 | acks on the wire are in order those taken, but for one in hand or lost with the writer; those taken are a prefix of those queued, which are received KeepAlives some left out; at most five wait |
| ClientCalls.DroppedIffFiveWait | pkg/llrp/reader.go:862-868 | the KeepAlives received are those handled in the run, and exactly those that come while five ids wait are dropped |
| ClientCalls.AckGoesOut | pkg/llrp/reader.go:763-766 | an id that waits can be taken and written as a KeepAliveAck |
| ClientLaws.OvertakenAtMostOnce | pkg/llrp/reader.go:757-811 | from the step that queues a KeepAlive id until it is taken to be acked, at most one request is written |
| ClientSafety.StepKeeps | pkg/llrp/reader.go:388-1028 | every step of senders, writer, reader, `Connect` and closers keeps the whole invariant |
| ClientSafety.RunKeeps | pkg/llrp/reader.go:388-1028 | so every run does |
| ClientCode.Client.Close | pkg/llrp/reader.go:497-503 | the compare-and-swap winner closes `done` and returns nil; a loser changes nothing |
| ClientCode.Client.PassToHandler | pkg/llrp/reader.go:888-938 | deleting the map entry hands the channel to the reader, which sends and closes it, or, if the awaited payload is cut short, abandons it and calls no handler: a run of protocol steps |
| ClientCode.Client.Cancel | pkg/llrp/reader.go:792-803 | a cancelled call closes and removes its channel only if it is still in the map |
| ClientCode.Client.SendAck | pkg/llrp/reader.go:763-766 | a turn of the write loop that finds an ack writes it |
| ClientCode.Client.SendRequest | pkg/llrp/reader.go:767-829 | a turn that finds none assigns the id, registers the reply channel, hands over the token and writes the stamped header |
| ClientCode.Client.AckHandler | pkg/llrp/reader.go:862-868 | the id is queued if there is room and dropped otherwise |
| Addresses.MatchingIsExact | internal/driver/discover.go:309-331 | the specified list has exactly the addresses that agree with the network on the mask |
| Addresses.MatchingCount | internal/driver/discover.go:309-331 | there are 2^(32-ones) of them |
| Addresses.MatchingEnds | internal/driver/discover.go:309-312 | the first is the network id and the last `netId ^ ^mask` |
| Addresses.IpGenerator | internal/driver/discover.go:289-331 | the loop sends the specified addresses in order, or on cancellation a prefix of them, and never wraps round |
| Addresses.SendsTheNetwork | internal/driver/discover.go:309-331 | for a mask of 2 to 30 ones, contiguous or not: ascending, each once, exactly the agreeing addresses but the network id and the broadcast address |
| Addresses.EdgeNetworks | internal/driver/discover.go:308-316 | a mask of at most one bit sends nothing; one of 31 or 32 sends one address, which is the network's if and only if it is given in four bytes or is zero |
| Addresses.LastFourBytes | internal/driver/discover.go:296-308 | addresses of four bytes or of sixteen in IPv4-mapped form, and masks of four or sixteen, are taken by their last four; nothing is sent for any other |
| Addresses.EstimateIsExact | internal/driver/discover.go:73-78 | `computeNetSz` is the number of addresses sent if and only if the mask has at least two ones |
| Discovery.DiscoveryCompletes | internal/driver/discover.go:123-175 | with a worker every run can go on until the collector returns, and none goes on forever; at the end each address of the networks has been probed, once for each time it was generated, and what was collected is exactly those at which there is a reader |
| Discovery.NeverStuck | internal/driver/discover.go:123-175 | until the collector has returned some step is possible |
| Discovery.StepsDecrease | internal/driver/discover.go:123-175 | every step leaves less to do |
| Discovery.NoSendOnClosed | internal/driver/discover.go:149-171 | nothing is sent on a closed channel |
| Discovery.NoWorkersNoProgress | internal/driver/discover.go:110-135 | without a worker the first address is never sent |
| Discovery.ReturnsIffServed | internal/driver/discover.go:123-175 | wherever there are readers, some run returns if and only if there is a worker or nothing to send |
| Discovery.OwnCountSuffices | internal/driver/discover.go:110-135 | with the lesser of the estimate and the limit as worker count, and wherever there are readers, some run returns if and only if the limit is above zero or there is nothing to send |
| Discovery.WorkersMatchProbes | internal/driver/discover.go:110-121 | unless a mask has fewer than two ones, there are as many workers as addresses to probe, or as the limit allows if that is less |
| Discovery.AliveAnswer | internal/driver/discover.go:474-475 | whatever happens, an address answers as often as it is probed if there is a reader, and never if not |
| Retry.WaitIsCapped | internal/retry/retry.go:390-418 | the wait never overflows, lies between 0 and the maximum, is the lesser of the maximum and BackOff*2^(n-1), or BackOff times the draw, up to attempt 62, and the maximum from 63 on |
| Retry.WaitGrows | internal/retry/retry.go:390-418 | without jitter waits do not get shorter |
| Retry.NoWaitBefore | internal/retry/retry.go:390-397 | no wait before the first failure or with a maximum of zero, and the maximum without a back-off |
| Retry.FError.constructor | internal/retry/retry.go:123-132 | starts with the first error and `ErrRetriesExceeded` |
| Retry.FError.AddErr | internal/retry/retry.go:136-154 | the ring stays the latest errors in cyclic order; the count of attempts saturates |
| Retry.RingTurns | internal/retry/retry.go:149-153 | overwriting the oldest error drops it and adds the new one at the end |
| Retry.KeepsLatest | internal/retry/retry.go:136-154 | rotated at `last`, `Others` is the last min(k, n) of the n errors in order |
| Retry.ErrorsAre | internal/retry/retry.go:310-378 | the errors recorded are those of the temporary failures, in order, each once |
| Retry.RetryWithCtx | internal/retry/retry.go:304-379 | succeeds if and only if its last call did; waits once between any two calls, and the wait is the back-off doubled each time, or times the draw, up to the maximum; makes at most max(1, retries) calls, stops early only for the first unrecoverable error, a cancellation or a deadline, and keeps the latest errors |
| Debounce.KeepsTimer | internal/driver/driver.go:706-738 | the timer is set if and only if exactly one waiter has not yet cleared it, in every interleaving |
| Debounce.NoChangeIsLost | internal/driver/driver.go:166-183 | whichever updates a run makes: once the i-th change of subnets or port has called `debouncedDiscover`, some Discover has read the subnets and port of that change or a later one, or has yet to read; when none has yet to, one has |
| Debounce.LastChangeIsScanned | internal/driver/driver.go:166-183 | if the last update is c and the last change has called `debouncedDiscover`, c is in force and some Discover has read the subnets and port of c or has yet to read |
| Debounce.LatestIsInForce | internal/driver/driver.go:173-177 | the configuration is always that of the latest update |
| Debounce.WaitersCanFinish | internal/driver/driver.go:723-736 | a waiter that has yet to read can always go on, and reads the configuration then in force |
| Debounce.Driver.UpdateWritableConfig | internal/driver/driver.go:166-183 | stores the new configuration, and triggers a discovery if and only if subnets or port changed |
| Debounce.Driver.DebouncedDiscover | internal/driver/driver.go:706-738 | starts a waiter only if no timer is set |
| Debounce.Driver.RunWaiter | internal/driver/driver.go:723-736 | clears the timer before the configuration is read, and reads the one in force |

## Left out

- Sockets, deadlines, real time, logging, JSON, the EdgeX SDK and OS signals: cancellation,
  expiry, timer ticks and failures are steps that may happen at any time.
- MessageCodec.MessageRoundTrip: for messages without exclusive groups, of which the generator
  would write every member (pkg/llrp/generate_param_code.py:1535-1547); LLRP has no others.
- MessageCodec.MarshalMessage: for the same messages.
- MessageCodec.GroupsHoldMin: for the same messages.
- Signed numbers are bit patterns, strings and bit arrays are bytes, and a nil slice is the
  same as an empty one.
- Bounds on Go slices and `int`: lengths are unbounded except where the code truncates them.
- LlrpWire.ParameterValues: the offsets are those of the fields in front of the first one of
  variable size and of none behind it; those follow from Fields.FieldBytes and the order.
- Encoder.SizeIsExact: where fixed-size parameters with required sub-parameters, which LLRP does
  not have, are generated with the wrong size, it speaks of the specified tree; the general
  laws leave such parameters out (see HeaderCode.SpecifiedIffMeasured).
- CodecLaw.RoundTripLaw: says nothing of encodings above 65535 bytes, whose length fields wrap
  (see Encoder.LengthFieldDelimits).
- SizeTable.ExactSizesAreUnique: that required parameters get ever less deep is enough for sizes
  not to depend on the order, and not shown to be necessary.
- Decoder.DecodeOne: an `end` beyond the data is a panic, while Go slices up to the capacity, so
  that a TV parameter cut short may be read past the slice instead.
- HeaderCode.GetHeader: strings with a length are counted bytes, so that a schema in which one
  stands in a member of an exclusive group counts as compiling although Go does not compare
  strings with nil; and a parameter of one padding field is not inlined.
- Progress.DecodingEnds: a header of length zero does not always hold up the decoder; when a
  turn of a loop is held up is exact in Progress.TurnHoldsUp.
- Interleaving.AnyInterleavingDecodes: one group at a time is interleaved, and groups stay in
  the order of the schema.
- GroupRoundTrip.RequiredRun: for TLV parameters; a TV parameter in the run is always lost (see
  GroupRoundTrip.RequiredTv).
- ClientLaws.HandshakeComesFirst: what the first message says is in
  ClientOpening.NothingBeforeSuccess.
- ClientOpening.NegotiationFollowsReplies: if decoding a reply panics or never ends, `Connect`
  takes no further step.
- Protocol: a write is one step, so a header followed by a failed payload is not told apart
  from a failed write; handlers other than the KeepAlive one do nothing to the client.
- ClientLaws.VersionIsNegotiated: a reader may answer before the request is written, so the
  request is on the wire, in the writer's hand, or lost with a failed writer.
- ClientLaws.ReplyChannelsAreSafe: for runs of fewer than 2^32 messages; ids that wrap round
  are not modelled.
- Framing.HandleIncoming: the closing of `done` is found before a given message, not at an
  arbitrary moment.
- Discovery.DiscoveryCompletes: without cancellation; probing, device lookup and the handling
  of collected results are nondeterministic choices.
- Retry.RetryWithCtx: against a finite script of results; an endless run is one whose script
  ends unfinished. `FError.Error` and `FError.Is` are not modelled.
- Debounce.NoChangeIsLost: the timer may tick at any time, so how long changes are gathered is
  not stated.
- `SendFor`, `Shutdown`'s decoding of its reply, status texts, `NewInstance` and the
  conversation table of message types: plumbing and lookups.
- `internal/driver/device.go`, read and write commands and `cmd/`: plumbing over the parts
  above.
