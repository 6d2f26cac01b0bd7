/** The messages that open a connection, byte by byte. */
module HandshakeWire {
  import opened Bytes
  import opened Outcomes
  import opened Fields
  import opened Schema
  import E = Encoder
  import opened Decoder
  import opened RoundTrip
  import opened Layout
  import opened Parameters
  import opened LlrpSchema
  import opened MessageCodec
  import opened LlrpMessages
  import opened LlrpWire
  import UnmarshalLoops
  import Framing
  import opened Messages
  import opened Handshake

  // ---- where the status stands ----

  lemma OneRequired(s: Schema, id: nat, gs: seq<Group>, gvs: seq<GroupValue>)
    requires gs == [Required([id])] && GroupsWellFormed(s, gs, gvs)
    ensures |gvs| == 1 && |gvs[0].slots| == 1 && |gvs[0].slots[0].items| == 1
    ensures var v := gvs[0].slots[0].items[0];
            WellFormed(s, id, v) && E.GroupsHeaders(s, gs, gvs) == [E.HeaderOf(s, id, v)]
  {
    hide WellFormed, E.HeaderOf;
    var g, slots := gs[0], gvs[0].slots;
    assert gs[1..] == [] && g.members == [id] && g.members[1..] == [];
    assert Shape(g, slots) && SlotsWellFormed(s, g.members, slots);
    var items := slots[0].items;
    assert ItemsWellFormed(s, g.members[0], items);
    assert items != [] && items[1..] == [];
    assert E.ItemsHeaders(s, g, id, items) == [E.HeaderOf(s, id, items[0])] + E.ItemsHeaders(s, g, id, items[1..]);
    assert E.SlotsHeaders(s, g, g.members, slots) == E.ItemsHeaders(s, g, id, items) + [];
    assert E.GroupsHeaders(s, gs, gvs) == E.SlotsHeaders(s, g, g.members, slots) + [];
  }

  lemma StatusFields()
    ensures IsParameter(287) && |Definition(287).fields| == 2 && Definition(287).fields[0] == Scalar(2)
  {}

  /** An LLRPStatus is announced as parameter 287, and its code follows the length. */
  lemma StatusBytes(v: Value)
    requires WellFormed(Llrp(), 287, v)
    ensures var b := E.Encode(Llrp(), 287, v);
            && |b| >= 6 && b[0] == 1 && b[1] == 31
            && |v.fields| > 0 && v.fields[0] == Num(256 * b[4] as nat + b[5] as nat)
  {
    hide Llrp, E.HeaderOf, E.Body, E.Encode, BigEndian;
    StatusFields();
    IsDefined(287);
    hide Definition;
    E.EncodeIsHeaderAndBody(Llrp(), 287, v);
    E.HeaderTypIs(Llrp(), 287, v);
    FieldIsWritten(Llrp(), 287, v, 0);
    var b, body := E.Encode(Llrp(), 287, v), E.Body(Llrp(), 287, v);
    assert ValueOk(Scalar(2), v.fields[0]);
    var n := v.fields[0].n;
    assert Pow256(2) == 0x1_0000;
    BigEndian2(n);
    assert body[0..2] == [n / 256, n % 256];
    assert b[4] == body[0..2][0] && b[5] == body[0..2][1];
  }

  /** A message that begins with its own fields and then has an LLRPStatus: the code is the
      number in the fifth and sixth byte behind the fields. */
  lemma StatusOnTheWire(c: Container, v: Value)
    requires c.groups == [Required([287])] && MessageWellFormed(Llrp(), c, v)
    ensures |c.fields| == |v.fields|
    ensures var b, at := MessageBytes(Llrp(), c, v), |EncodeFields(c.fields, v.fields)|;
            && |b| >= at + 6 && b[at] == 1 && b[at + 1] == 31
            && StatusCode(v) == Some(256 * b[at + 4] as nat + b[at + 5] as nat)
  {
    hide Llrp, WellFormed, E.HeaderOf, EncodeFields, E.GroupsHeaders, GroupsWellFormed, E.Emit;
    OneRequired(Llrp(), 287, c.groups, v.groups);
    var status := v.groups[0].slots[0].items[0];
    StatusBytes(status);
    E.EmitAllSingle(E.HeaderOf(Llrp(), 287, status));
    assert MessageBytes(Llrp(), c, v) == EncodeFields(c.fields, v.fields) + E.Encode(Llrp(), 287, status);
  }

  lemma ResponseGroups(typ: nat)
    requires typ == 56 || typ == 57 || typ == 100
    ensures IsMessage(typ) && LlrpMessages.Body(typ).groups == [Required([287])]
    ensures typ != 56 ==> LlrpMessages.Body(typ).fields == []
    ensures typ == 56 ==> LlrpMessages.Body(typ).fields == [Packed([BitPart(0, 3)]), Packed([BitPart(0, 3)])]
  {}

  /** An encoded GetSupportedVersionResponse: status zero in bytes six and seven, and the
      versions in the highest three bits of the first two. */
  lemma VersionBytes(v: Value)
    requires MessageWellFormed(Llrp(), LlrpMessages.Body(56), v)
    requires AllFit(E.GroupsHeaders(Llrp(), LlrpMessages.Body(56).groups, v.groups))
    requires |MessageBytes(Llrp(), LlrpMessages.Body(56), v)| <= Framing.MAX_BUFFERED
    ensures var b := MessageBytes(Llrp(), LlrpMessages.Body(56), v);
            && |b| >= 8
            && SupportedVersions(56, b)
               == if b[6] == 0 && b[7] == 0 then Ok(Versions(b[0] / 32, b[1] / 32)) else Reject
  {
    hide Llrp, LlrpMessages.Body, MessageWellFormed, MessageBytes, StatusCode, SupportedVersions, AllFit;
    ResponseGroups(56);
    VersionsRead(v);
    StatusOnTheWire(LlrpMessages.Body(56), v);
    TwoBytes(LlrpMessages.Body(56), v);
    VersionFields(v);
  }

  lemma VersionsStand(b: seq<Byte>)
    ensures IsMessage(56)
    ensures Reads(LlrpMessages.Body(56).fields, 2, b, [Parts([Uint8(b, 0) / 32]), Parts([Uint8(b, 1) / 32])])
  {
    assert LlrpMessages.Body(56) == Other(56);
    hide LlrpMessages.Body, Other, Reads;
    MessageLayout(b);
  }

  lemma VersionFields(v: Value)
    requires MessageWellFormed(Llrp(), LlrpMessages.Body(56), v)
    ensures var b := MessageBytes(Llrp(), LlrpMessages.Body(56), v);
            |b| >= 2 && |v.fields| == 2 && v.fields[0] == Parts([b[0] / 32]) && v.fields[1] == Parts([b[1] / 32])
  {
    ResponseGroups(56);
    hide *;
    var b := MessageBytes(Llrp(), LlrpMessages.Body(56), v);
    VersionsStand(b);
    var vs := [Parts([Uint8(b, 0) / 32]), Parts([Uint8(b, 1) / 32])];
    MessageValues(56, b, 2, vs);
    TwoBytes(LlrpMessages.Body(56), v);
    FieldsFirst(LlrpMessages.Body(56), v);
    assert v.fields[..2] == v.fields && vs[..2] == vs;
    TheBytes(b);
  }

  lemma FieldsFirst(c: Container, v: Value)
    requires MessageWellFormed(Llrp(), c, v)
    ensures |c.fields| == |v.fields| && |MessageBytes(Llrp(), c, v)| >= |EncodeFields(c.fields, v.fields)|
  {
    hide Llrp, EncodeFields, GroupsWellFormed;
  }

  lemma TheBytes(b: seq<Byte>)
    requires |b| >= 2
    ensures Uint8(b, 0) == b[0] && Uint8(b, 1) == b[1]
  {}

  lemma TwoBytes(c: Container, v: Value)
    requires MessageWellFormed(Llrp(), c, v)
    requires c.fields == [Packed([BitPart(0, 3)]), Packed([BitPart(0, 3)])]
    ensures |c.fields| == |v.fields| && |EncodeFields(c.fields, v.fields)| == 2
  {
    hide Llrp, GroupsWellFormed, EncodeFields, ValueOk;
    FixedFieldsSize(c.fields, v.fields);
    assert E.MinSizes(c.fields[1..]) == 1 + E.MinSizes(c.fields[1..][1..]);
  }

  /** An encoded SetProtocolVersionResponse is accepted exactly if the two bytes of its
      status code are zero. */
  lemma AcceptanceBytes(v: Value)
    requires MessageWellFormed(Llrp(), LlrpMessages.Body(57), v)
    requires AllFit(E.GroupsHeaders(Llrp(), LlrpMessages.Body(57).groups, v.groups))
    requires |MessageBytes(Llrp(), LlrpMessages.Body(57), v)| <= Framing.MAX_BUFFERED
    ensures var b := MessageBytes(Llrp(), LlrpMessages.Body(57), v);
            |b| >= 6 && VersionSet(57, b) == if b[4] == 0 && b[5] == 0 then Ok(()) else Reject
  {
    hide Llrp, LlrpMessages.Body, MessageWellFormed, MessageBytes, StatusCode, VersionSet, AllFit;
    ResponseGroups(57);
    SettingAccepted(v);
    StatusOnTheWire(LlrpMessages.Body(57), v);
    NoFieldBytes(v.fields);
  }

  lemma NoFieldBytes(vs: seq<FieldValue>)
    requires |vs| == 0
    ensures EncodeFields([], vs) == []
  {}

  /** An encoded ErrorMessage stands for version 1.0.1 exactly if its status code is 110, or
      zero. */
  lemma ErrorBytes(v: Value)
    requires MessageWellFormed(Llrp(), LlrpMessages.Body(100), v)
    requires AllFit(E.GroupsHeaders(Llrp(), LlrpMessages.Body(100).groups, v.groups))
    requires |MessageBytes(Llrp(), LlrpMessages.Body(100), v)| <= Framing.MAX_BUFFERED
    ensures var b := MessageBytes(Llrp(), LlrpMessages.Body(100), v);
            && |b| >= 6
            && SupportedVersions(100, b)
               == if b[4] == 0 && (b[5] == 110 || b[5] == 0) then Ok(Versions(1, 1)) else Reject
  {
    hide Llrp, LlrpMessages.Body, MessageWellFormed, MessageBytes, StatusCode, SupportedVersions, AllFit;
    ResponseGroups(100);
    OldReaderIsUnderstood(v);
    StatusOnTheWire(LlrpMessages.Body(100), v);
    NoFieldBytes(v.fields);
  }

  /** Replies of other types are refused, whatever they hold. Of a reply too large to be
      buffered there is nothing to decode: the question for the versions crashes, and the
      version is not set. */
  lemma UnexpectedReplies(typ: nat, payload: seq<Byte>)
    ensures typ != 56 && typ != 100 && |payload| <= 655_360 ==> SupportedVersions(typ, payload) == Reject
    ensures |payload| > 655_360 ==> SupportedVersions(typ, payload) == Panic
    ensures typ != 57 || |payload| > 655_360 ==> VersionSet(typ, payload) == Reject
    ensures typ != 63 || |payload| > 655_360 ==> InitialCheck(typ, payload) == Reject
  {
    hide Decoded, StatusCode, ConnectionAttempt, Number;
    NothingIsRefused();
  }

  lemma NothingIsRefused()
    ensures Decoded(57, []) == Reject
  {
    hide Llrp, LlrpMessages.Body, UnmarshalMessage, IsParameter, Closed, E.MinSizes, RequiredMin, UnmarshalBinary,
         GroupsRefer;
    ResponseGroups(57);
    StatusFields();
    StatusIsRequired();
    ShortIsRejected(287, 57, []);
  }

  lemma StatusIsRequired()
    ensures Closed(Llrp()) && GroupsRefer(Llrp(), LlrpMessages.Body(57).groups)
    ensures E.MinSizes(LlrpMessages.Body(57).fields) + RequiredMin(Llrp(), LlrpMessages.Body(57).groups) == 8
  {
    assert LlrpMessages.Body(57).minSize == 8 && IsMessage(57);
    hide LlrpMessages.Body, Llrp, RequiredMin, E.MinSizes, Closed, GroupsRefer;
    LlrpIsGood();
    BodyIsGood(57);
  }

  // ---- the first message ----

  /** A ConnectionAttemptEvent, and the notification's data: a UTCTimestamp and that event. */
  function AttemptBytes(hi: Byte, lo: Byte): seq<Byte> {
    [1, 0, 0, 6, hi, lo]
  }

  function DataBytes(time: seq<Byte>, hi: Byte, lo: Byte): seq<Byte> {
    [0, 128, 0, 12] + time + AttemptBytes(hi, lo)
  }

  lemma EventTypes()
    ensures IndexOf(READER_EVENTS, 256) == 9 && |READER_EVENTS| == 12 && IndexOf([128, 129], 128) == 0
    ensures !HasTv(READER_EVENTS) && !HasTv([128, 129])
  {
    hide IndexOf;
    assert READER_EVENTS[9] == 256 && [128, 129][0] == 128;
  }

  lemma EventDefinitions()
    ensures IsParameter(256) && Definition(256) == Container([Scalar(2)], [], 6, true)
    ensures IsParameter(128) && Definition(128) == Container([Scalar(8)], [], 12, true)
    ensures IsParameter(246) && Definition(246)
            == Container([], [OneOf("timestamp", [128, 129]), Optional(READER_EVENTS), AnyNumber([1023])], 16, false)
  {}

  /** A parameter of one number, read in place. */
  lemma NumberMember(s: Schema, id: nat, size: nat, data: seq<Byte>)
    requires Closed(s) && id in s && !IsTv(id) && s[id].fields == [Scalar(size)] && s[id].groups == []
    requires |data| >= 4 + size && U16At(data, 2) == 4 + size
    ensures ReadMember(s, id, false, data) == Ok((Value([Num(FromBigEndian(data[4..4 + size]))], []), 4 + size))
  {
    hide Closed, FromBigEndian;
  }

  /** A loop over single parameters that finds one and nothing else. */
  lemma OnlyOne(s: Schema, g: Group, data: seq<Byte>, v: Value)
    requires Closed(s) && Refers(s, g.members) && !HasTv(g.members) && !g.repeatable
    requires |data| >= 4 && U16At(data, 2) == |data| && U16At(data, 0) in s
    requires IndexOf(g.members, U16At(data, 0)) < |g.members|
    requires ReadMember(s, U16At(data, 0), false, data) == Ok((v, |data|))
    ensures DecodeLoop(s, g, EmptySlots(|g.members|), data)
            == Ok((EmptySlots(|g.members|)[IndexOf(g.members, U16At(data, 0)) := Slot([v])], []))
  {
    hide Closed, Refers, ReadMember, HasTv, IndexOf, EmptySlots;
    assert data[|data|..] == [];
    var slots := EmptySlots(|g.members|)[IndexOf(g.members, U16At(data, 0)) := Slot([v])];
    NothingMore(s, g, slots);
  }

  lemma NothingMore(s: Schema, g: Group, slots: seq<Slot>)
    requires Closed(s) && Refers(s, g.members) && |slots| == |g.members|
    ensures DecodeLoop(s, g, slots, []) == Ok((slots, []))
  {}

  lemma AttemptIsRead(hi: Byte, lo: Byte)
    ensures Closed(Llrp()) && Refers(Llrp(), READER_EVENTS)
    ensures var event := Value([Num(256 * hi as nat + lo as nat)], []);
            DecodeLoop(Llrp(), Optional(READER_EVENTS), EmptySlots(12), AttemptBytes(hi, lo))
            == Ok((EmptySlots(12)[9 := Slot([event])], []))
  {
    hide Llrp, Definition, ReadMember, DecodeLoop, IndexOf, HasTv, FromBigEndian, EmptySlots, IsParameter, Closed,
         FieldOk, TailOk;
    var data := AttemptBytes(hi, lo);
    EventTypes();
    EventDefinitions();
    FieldsAreOk(256);
    FieldsAreOk(246);
    RefersTo(246, 1);
    NumberMember(Llrp(), 256, 2, data);
    assert data[4..4 + 2] == [hi, lo];
    TwoByteNumber(hi, lo);
    OnlyOne(Llrp(), Optional(READER_EVENTS), data, Value([Num(256 * hi as nat + lo as nat)], []));
  }

  lemma TwoByteNumber(hi: Byte, lo: Byte)
    ensures FromBigEndian([hi, lo]) == 256 * hi as nat + lo as nat
  {
    OneByteRead(hi);
    FromBigEndianSnoc([hi], lo);
    assert [hi] + [lo] == [hi, lo];
  }

  lemma RefersTo(id: nat, i: nat)
    requires Closed(Llrp()) && id in Llrp() && i < |Llrp()[id].groups|
    ensures Refers(Llrp(), Llrp()[id].groups[i].members)
  {
    hide Llrp;
  }

  /** A choice that finds its first member, read in place. */
  lemma FirstChosen(s: Schema, g: Group, data: seq<Byte>, v: Value, used: nat)
    requires Closed(s) && Refers(s, g.members) && !HasTv(g.members) && |data| >= 2
    requires U16At(data, 0) in s && IndexOf(g.members, U16At(data, 0)) == 0 < |g.members|
    requires used <= |data| && ReadMember(s, U16At(data, 0), false, data) == Ok((v, used))
    ensures DecodeChoice(s, g, data) == Ok((EmptySlots(|g.members|)[0 := Slot([v])], data[used..]))
  {
    hide Closed, Refers, ReadMember, HasTv, IndexOf, EmptySlots;
  }

  lemma TimeIsRead(time: seq<Byte>, rest: seq<Byte>)
    requires |time| == 8
    ensures Closed(Llrp()) && Refers(Llrp(), [128, 129])
    ensures var stamp := Value([Num(FromBigEndian(time))], []);
            DecodeChoice(Llrp(), OneOf("timestamp", [128, 129]), [0, 128, 0, 12] + time + rest)
            == Ok((EmptySlots(2)[0 := Slot([stamp])], rest))
  {
    hide Llrp, Definition, ReadMember, DecodeChoice, IndexOf, HasTv, FromBigEndian, EmptySlots, IsParameter, Closed,
         FieldOk, TailOk;
    var data := [0, 128, 0, 12] + time + rest;
    EventTypes();
    EventDefinitions();
    FieldsAreOk(128);
    FieldsAreOk(246);
    RefersTo(246, 0);
    assert data[4..4 + 8] == time && data[4 + 8..] == rest;
    NumberMember(Llrp(), 128, 8, data);
    FirstChosen(Llrp(), OneOf("timestamp", [128, 129]), data, Value([Num(FromBigEndian(time))], []), 12);
  }

  /** The decoded data: the time in the first slot of the first group, the attempt in the
      tenth of the second, and no vendor extension. */
  function DataValue(time: seq<Byte>, hi: Byte, lo: Byte): Value {
    var stamp := Value([Num(FromBigEndian(time))], []);
    var event := Value([Num(256 * hi as nat + lo as nat)], []);
    Value([], [GroupValue(EmptySlots(2)[0 := Slot([stamp])]), GroupValue(EmptySlots(12)[9 := Slot([event])]),
               GroupValue(EmptySlots(1))])
  }

  lemma ThreeGroups(s: Schema, gs: seq<Group>, data: seq<Byte>, known: int, a: (seq<Slot>, seq<Byte>),
                    b: (seq<Slot>, seq<Byte>))
    requires Closed(s) && GroupsRefer(s, gs) && |gs| == 3
    requires gs[0].Exclusive() && !gs[0].Simple()
    requires !gs[1].Simple() && !gs[1].Exclusive() && gs[1].optional && gs[2].optional
    requires Refers(s, gs[0].members) && Refers(s, gs[1].members) && |a.1| <= |data|
    requires DecodeChoice(s, gs[0], data) == Ok(a) && a.1 != []
    requires DecodeLoop(s, gs[1], EmptySlots(|gs[1].members|), a.1) == Ok(b) && b.1 == []
    ensures DecodeGroups(s, gs, data, known, true)
            == Ok([GroupValue(a.0), GroupValue(b.0), GroupValue(EmptySlots(|gs[2].members|))])
  {
    hide Closed, GroupsRefer, Refers, DecodeChoice, DecodeLoop, EmptySlots, DecodeGroup, DecodeGroups;
    assert gs[0..] == gs;
    FromHere(s, gs, 1);
    FromHere(s, gs, 2);
    UnmarshalLoops.GroupsStep(s, gs, 0, data, known, true);
    ChoiceGroup(s, gs[0], data, known);
    var left := DecodeGroup(s, gs[0], data, known).value.2;
    UnmarshalLoops.GroupsStep(s, gs, 1, a.1, left, true);
    LoopGroup(s, gs[1], a.1, left);
    var now := DecodeGroup(s, gs[1], a.1, left).value.2;
    UnmarshalLoops.GroupsStep(s, gs, 2, [], now, true);
    var x, y, z := GroupValue(a.0), GroupValue(b.0), GroupValue(EmptySlots(|gs[2].members|));
    assert gs[2..] == [gs[2]] && EmptyGroups([gs[2]]) == [z] + EmptyGroups([gs[2]][1..]);
    assert EmptyGroups(gs[2..]) == [z];
    assert AllOptional(gs[2..]) && !AllOptional(gs);
    assert DecodeGroups(s, gs[2..], b.1, now, true) == Ok([z]);
    assert DecodeGroups(s, gs[1..], a.1, left, true) == Ok([y] + [z]);
    assert [x] + ([y] + [z]) == [x, y, z];
  }

  lemma FromHere(s: Schema, gs: seq<Group>, i: nat)
    requires GroupsRefer(s, gs) && i <= |gs|
    ensures GroupsRefer(s, gs[i..])
  {}

  lemma ChoiceGroup(s: Schema, g: Group, data: seq<Byte>, known: int)
    requires Closed(s) && Refers(s, g.members) && g.Exclusive() && !g.Simple()
    requires DecodeChoice(s, g, data).Ok?
    ensures var r := DecodeGroup(s, g, data, known);
            r.Ok? && (r.value.0, r.value.1) == DecodeChoice(s, g, data).value
  {
    hide Closed, Refers, DecodeChoice, HasTv, SmallestMin;
  }

  lemma LoopGroup(s: Schema, g: Group, data: seq<Byte>, known: int)
    requires Closed(s) && Refers(s, g.members) && !g.Exclusive() && !g.Simple()
    requires DecodeLoop(s, g, EmptySlots(|g.members|), data).Ok?
    ensures var r := DecodeGroup(s, g, data, known);
            r.Ok? && (r.value.0, r.value.1) == DecodeLoop(s, g, EmptySlots(|g.members|), data).value
  {
    hide Closed, Refers, DecodeLoop, HasTv, HasTlv, SmallestMin, EmptySlots;
  }

  lemma DataIsRead(time: seq<Byte>, hi: Byte, lo: Byte)
    requires |time| == 8
    ensures Closed(Llrp()) && 246 in Llrp()
    ensures UnmarshalBinary(Llrp(), 246, DataBytes(time, hi, lo)) == Ok(DataValue(time, hi, lo))
  {
    hide Llrp, Definition, DecodeChoice, DecodeLoop, DecodeGroups, FromBigEndian, EmptySlots, IsParameter, Closed,
         FieldOk, TailOk, GroupsRefer, Refers, UnmarshalBinary, HasTv, IndexOf;
    var data := DataBytes(time, hi, lo);
    var stamp := Value([Num(FromBigEndian(time))], []);
    var event := Value([Num(256 * hi as nat + lo as nat)], []);
    EventTypes();
    EventDefinitions();
    FieldsAreOk(246);
    var gs := Llrp()[246].groups;
    RefersTo(246, 0);
    RefersTo(246, 1);
    RefersAll(246);
    TimeIsRead(time, AttemptBytes(hi, lo));
    AttemptIsRead(hi, lo);
    ThreeGroups(Llrp(), gs, data, KnownAfter([], 12), (EmptySlots(2)[0 := Slot([stamp])], AttemptBytes(hi, lo)),
                (EmptySlots(12)[9 := Slot([event])], []));
    NoFieldsDecoded(Llrp(), 246, data);
  }

  lemma NoFieldsDecoded(s: Schema, id: nat, data: seq<Byte>)
    requires Closed(s) && id in s && s[id].fields == [] && s[id].groups != [] && !s[id].fixed
    requires |data| >= s[id].minSize - HeaderSize(id) && GroupsRefer(s, s[id].groups)
    ensures var enough := s[id].minSize - HeaderSize(id);
            var gvs := DecodeGroups(s, s[id].groups, data, KnownAfter([], enough), true);
            UnmarshalBinary(s, id, data) == if gvs.Ok? then Ok(Value([], gvs.value)) else gvs.PropagateFailure()
  {
    hide Closed, DecodeGroups, GroupsRefer, HeaderSize;
  }

  lemma RefersAll(id: nat)
    requires Closed(Llrp()) && id in Llrp()
    ensures GroupsRefer(Llrp(), Llrp()[id].groups)
  {
    hide Llrp;
  }

  /** A message of one required parameter and nothing else. */
  lemma OnlyRequired(s: Schema, c: Container, id: nat, data: seq<Byte>, v: Value)
    requires Closed(s) && id in s && GroupsRefer(s, c.groups)
    requires c.fields == [] && c.groups == [Required([id])] && !c.fixed && 4 <= c.minSize <= |data|
    requires !IsTv(id) && !s[id].fixed && !CanInline(s[id])
    requires U16At(data, 0) == id && U16At(data, 2) == |data| && UnmarshalBinary(s, id, data[4..]) == Ok(v)
    ensures UnmarshalMessage(s, c, data) == Ok(Value([], [GroupValue([Slot([v])])]))
  {
    hide Closed, GroupsRefer, UnmarshalBinary, DecodeGroups, DecodeGroup, DecodeFieldsFrom, CanInline;
    var g := c.groups[0];
    FromHere(s, c.groups, 0);
    assert c.groups[0..] == c.groups && c.groups[1..] == [] && |g.members| == 1 && g.members[0] == id;
    NoFieldsToDecode(c, data);
    UnmarshalLoops.GroupsStep(s, c.groups, 0, data, c.minSize, true);
    RequiredIsRead(s, g, id, data, c.minSize, v);
    var left := DecodeGroup(s, g, data, c.minSize).value.2;
    UnmarshalLoops.GroupsEnd(s, [], left, true);
    assert [GroupValue([Slot([v])])] + [] == [GroupValue([Slot([v])])];
  }

  lemma NoFieldsToDecode(c: Container, data: seq<Byte>)
    requires c.fields == []
    ensures DecodeFieldsFrom(c, 0, data, 0) == Ok(([], data)) && KnownAfter(c.fields, c.minSize) == c.minSize
  {}

  lemma RequiredIsRead(s: Schema, g: Group, id: nat, data: seq<Byte>, known: int, v: Value)
    requires Closed(s) && id in s && g == Required([id]) && known >= 4 && |data| >= 4
    requires !IsTv(id) && !s[id].fixed && !CanInline(s[id])
    requires U16At(data, 0) == id && U16At(data, 2) == |data| && UnmarshalBinary(s, id, data[4..]) == Ok(v)
    ensures Refers(s, g.members)
    ensures var r := DecodeGroup(s, g, data, known); r.Ok? && r.value.0 == [Slot([v])] && r.value.1 == []
  {
    hide Closed, UnmarshalBinary, CanInline, HasTv, HasTlv, DecodeSimple, DecodeOne;
    assert g.members[0..] == [id] && g.members[1..] == [];
    MemberIsRead(s, id, data, v);
    UnmarshalLoops.SimpleStep(s, g, 0, data, known);
    UnmarshalLoops.SimpleEnd(s, g, [], 0);
    assert [Slot([v])] + [] == [Slot([v])];
  }

  lemma MemberIsRead(s: Schema, id: nat, data: seq<Byte>, v: Value)
    requires Closed(s) && id in s && |data| >= 4 && !IsTv(id) && !CanInline(s[id])
    requires U16At(data, 0) == id && U16At(data, 2) == |data| && UnmarshalBinary(s, id, data[4..]) == Ok(v)
    ensures DecodeOne(s, id, false, data) == Ok((Slot([v]), []))
  {
    hide Closed, UnmarshalBinary, CanInline;
    assert data[4..|data|] == data[4..] && data[|data|..] == [];
    assert ReadMember(s, id, false, data) == Ok((v, |data|));
  }

  // ---- the check ----

  /** A ReaderEventNotification that reports a time and a connection attempt. */
  function NotificationBytes(time: seq<Byte>, hi: Byte, lo: Byte): seq<Byte> {
    [0, 246, 0, 22] + DataBytes(time, hi, lo)
  }

  lemma NotificationIsRead(time: seq<Byte>, hi: Byte, lo: Byte)
    requires |time| == 8
    ensures Decoded(63, NotificationBytes(time, hi, lo))
            == Ok(Value([], [GroupValue([Slot([DataValue(time, hi, lo)])])]))
  {
    hide Llrp, Definition, UnmarshalBinary, Closed, FieldOk, TailOk, GroupsRefer, DataValue, Refers;
    var data := NotificationBytes(time, hi, lo);
    assert LlrpMessages.Body(63) == Container([], [Required([246])], 16, false);
    assert data[4..] == DataBytes(time, hi, lo);
    EventDefinitions();
    FieldsAreOk(246);
    DataIsRead(time, hi, lo);
    BodyIsGood(63);
    hide LlrpMessages.Body;
    OnlyRequired(Llrp(), LlrpMessages.Body(63), 246, data, DataValue(time, hi, lo));
  }

  /** The first message is accepted exactly if it is of type 63 and the two bytes of the
      attempt's status are zero: parameter 256, wherever its slot, is the one looked at. */
  lemma AttemptDecides(typ: nat, time: seq<Byte>, hi: Byte, lo: Byte)
    requires |time| == 8
    ensures InitialCheck(typ, NotificationBytes(time, hi, lo))
            == if typ == 63 && hi == 0 && lo == 0 then Ok(()) else Reject
  {
    hide Decoded, FromBigEndian;
    if typ == 63 {
      NotificationIsRead(time, hi, lo);
      var data := DataValue(time, hi, lo);
      var slots := EmptySlots(12)[9 := Slot([Value([Num(256 * hi as nat + lo as nat)], [])])];
      assert data.groups[1] == GroupValue(slots) && slots[9].items[0].fields[0] == Num(256 * hi as nat + lo as nat);
    }
  }
}
