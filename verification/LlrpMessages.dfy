/** The LLRP messages: the law of their bodies. */
module LlrpMessages {
  import opened Outcomes
  import opened Fields
  import opened Schema
  import opened Encoder
  import opened Decoder
  import opened RoundTrip
  import opened MessageCodec
  import opened Parameters
  import opened SchemaCheck
  import opened LlrpChecks
  import opened LlrpSchema
  import opened LlrpLaws

  /** Messages that are only a header. */
  predicate IsBare(typ: nat) {
    typ == 14 || typ == 26 || typ == 44 || typ == 46 || typ == 60 || typ == 62 || typ == 64 || typ == 72
  }

  /** Responses that carry an LLRPStatus and nothing else. */
  predicate IsStatusOnly(typ: nat) {
    typ == 4 || typ == 13 || 30 <= typ <= 35 || 50 <= typ <= 53 || typ == 57 || typ == 100
  }

  /** Requests that name one ROSpec or AccessSpec. */
  predicate IsSpecId(typ: nat) {
    21 <= typ <= 25 || 41 <= typ <= 43
  }

  predicate IsOther(typ: nat) {
    || 1 <= typ <= 3 || typ == 11 || typ == 12 || typ == 20 || typ == 36 || typ == 40 || typ == 45 || typ == 47
    || 54 <= typ <= 56 || typ == 61 || typ == 63 || typ == 1023
  }

  predicate IsMessage(typ: nat) {
    IsBare(typ) || IsStatusOnly(typ) || IsSpecId(typ) || IsOther(typ)
  }

  function Body(typ: nat): Container
    requires IsMessage(typ)
  {
    if IsBare(typ) then Container([], [], 0, true)
    else if IsStatusOnly(typ) then Container([], [Required([287])], 8, false)
    else if IsSpecId(typ) then Container([Scalar(4)], [], 4, true)
    else Other(typ)
  }

  function ReaderConfigParts(): seq<Group> {
    [Required([287]), Optional([218]), AnyNumber([221, 222]), Optional([244, 237, 239, 217, 220]),
     AnyNumber([225, 219]), Optional([226]), AnyNumber([1023])]
  }

  function NewConfigParts(): seq<Group> {
    [Optional([244]), AnyNumber([221, 222]), Optional([237, 239, 220]), AnyNumber([219, 225]),
     Optional([226]), AnyNumber([1023])]
  }

  function Other(typ: nat): Container {
    match typ
    case 56 => // GetSupportedVersionResponse
      Container([Packed([BitPart(0, 3)]), Packed([BitPart(0, 3)])], [Required([287])], 10, false)
    case 47 => // SetProtocolVersion
      Container([Packed([BitPart(0, 3)])], [], 1, true)
    case 1 => // GetReaderCapabilities
      Container([Scalar(1)], [AnyNumber([1023])], 1, false)
    case 11 => // GetReaderCapabilitiesResponse
      Container([], [Required([287]), Optional([137, 142, 143, 327]), AnyNumber([1023])], 8, false)
    case 20 => // AddROSpec
      Container([], [Required([177])], 19, false)
    case 36 => // GetROSpecsResponse
      Container([], [Required([287]), AnyNumber([177])], 8, false)
    case 40 => // AddAccessSpec
      Container([], [Required([207])], 23, false)
    case 54 => // GetAccessSpecsResponse
      Container([], [Required([287]), AnyNumber([207])], 8, false)
    case 45 => // ClientRequestOp
      Container([], [Required([240])], 10, false)
    case 55 => // ClientRequestOpResponse
      Container([], [Required([211])], 14, false)
    case 61 => // ROAccessReport
      Container([], [AnyNumber([240, 242, 1023])], 0, false)
    case 63 => // ReaderEventNotification
      Container([], [Required([246])], 16, false)
    case 2 => // GetReaderConfig
      Container([Scalar(2), Scalar(1), Scalar(2), Scalar(2)], [AnyNumber([1023])], 7, false)
    case 12 => // GetReaderConfigResponse
      Container([], ReaderConfigParts(), 8, false)
    case 3 => // SetReaderConfig
      Container([Flags(0, 1)], NewConfigParts(), 1, false)
    case _ => // CustomMessage
      Container([Scalar(4), Scalar(1), Remainder], [], 5, false)
  }

  // ---- each is good ----

  /** Messages that may carry one of the five parameters that lose values. */
  predicate CarriesLossy(typ: nat) {
    typ == 45 || typ == 61 || typ == 63
  }

  /** The parameters that messages carry. */
  predicate Carried(m: nat) {
    || m == 137 || m == 142 || m == 143 || m == 177 || m == 207 || m == 211 || 217 <= m <= 222 || m == 225 || m == 226
    || m == 237 || m == 239 || m == 240 || m == 242 || m == 244 || m == 246 || m == 287 || m == 327 || m == 1023
  }

  /** The minimum sizes of those that are required. */
  function RequiredMinSize(m: nat): nat {
    if m == 177 then 19
    else if m == 207 then 23
    else if m == 211 then 14
    else if m == 240 then 10
    else if m == 246 then 16
    else if m == 287 then 8
    else 0
  }

  predicate MemberKnown(typ: nat, g: Group, m: nat) {
    Carried(m) && (CarriesLossy(typ) || !IsLossy(m)) && (g.optional || RequiredMinSize(m) > 0)
  }

  lemma CarriedIs(m: nat)
    requires Carried(m)
    ensures IsParameter(m) && !IsTv(m)
    ensures RequiredMinSize(m) > 0 ==> RequiredMinSize(m) == Definition(m).minSize
  {}

  predicate MembersKnown(typ: nat, g: Group, ids: seq<nat>) {
    ids == [] || (MemberKnown(typ, g, ids[0]) && MembersKnown(typ, g, ids[1..]))
  }

  /** The groups name parameters, which lose values only where that may be, and no group is
      an exclusive choice. */
  predicate GroupsKnown(typ: nat, gs: seq<Group>) {
    gs == [] || (!gs[0].Exclusive() && MembersKnown(typ, gs[0], gs[0].members) && GroupsKnown(typ, gs[1..]))
  }

  function MembersSize(ids: seq<nat>): nat {
    if ids == [] then 0 else RequiredMinSize(ids[0]) + MembersSize(ids[1..])
  }

  function RequiredSize(gs: seq<Group>): nat {
    if gs == [] then 0 else (if gs[0].optional then 0 else MembersSize(gs[0].members)) + RequiredSize(gs[1..])
  }

  predicate BodyFields(c: Container) {
    && (forall i :: 0 <= i < |c.fields| ==> FieldOk(c.fields[i])) && TailOk(c)
    && (c.fixed ==> AllFixed(c.fields) && c.groups == [])
    && (!c.fixed && c.groups == [] && c.fields != [] ==> !IsFixed(c.fields[|c.fields| - 1]))
  }

  predicate BodySize(c: Container) {
    c.minSize == MinSizes(c.fields) + RequiredSize(c.groups)
  }

  lemma OtherFields(typ: nat)
    requires IsOther(typ)
    ensures BodyFields(Other(typ))
  {
    hide Flags;
    FlagsOk(0, 1);
  }

  // message by message, which is calculation

  predicate BodyChecks(typ: nat, c: Container) {
    GroupsCheck(c.groups) && GroupsKnown(typ, c.groups) && BodySize(c)
  }

  lemma GetSupportedVersionResponseChecks()
    ensures BodyChecks(56, Other(56))
  {}

  lemma SetProtocolVersionChecks()
    ensures BodyChecks(47, Other(47))
  {}

  lemma GetReaderCapabilitiesChecks()
    ensures BodyChecks(1, Other(1))
  {}

  lemma GetReaderCapabilitiesResponseGroups()
    ensures GroupsCheck(Other(11).groups)
  {}

  lemma GetReaderCapabilitiesResponseMembers()
    ensures GroupsKnown(11, Other(11).groups)
  {}

  lemma GetReaderCapabilitiesResponseSize()
    ensures BodySize(Other(11))
  {}

  lemma AddROSpecChecks()
    ensures BodyChecks(20, Other(20))
  {}

  lemma GetROSpecsResponseChecks()
    ensures BodyChecks(36, Other(36))
  {}

  lemma AddAccessSpecChecks()
    ensures BodyChecks(40, Other(40))
  {}

  lemma GetAccessSpecsResponseChecks()
    ensures BodyChecks(54, Other(54))
  {}

  lemma ClientRequestOpChecks()
    ensures BodyChecks(45, Other(45))
  {}

  lemma ClientRequestOpResponseChecks()
    ensures BodyChecks(55, Other(55))
  {}

  lemma ROAccessReportChecks()
    ensures BodyChecks(61, Other(61))
  {}

  lemma ReaderEventNotificationChecks()
    ensures BodyChecks(63, Other(63))
  {}

  lemma GetReaderConfigChecks()
    ensures BodyChecks(2, Other(2))
  {}

  lemma CustomMessageChecks()
    ensures BodyChecks(1023, Other(1023))
  {
    hide GroupsCheck, GroupsKnown, RequiredSize;
    NoGroups(1023);
    assert MinSizes([Scalar(4), Scalar(1), Remainder]) == 5;
  }

  lemma ReaderConfigLastGroups()
    ensures GroupsCheck([Optional([244, 237, 239, 217, 220]), AnyNumber([225, 219]), Optional([226]),
                       AnyNumber([1023])])
  {}

  lemma ReaderConfigThirdGroup()
    ensures GroupChecks(AnyNumber([221, 222]), [Optional([244, 237, 239, 217, 220]), AnyNumber([225, 219]),
                        Optional([226]), AnyNumber([1023])])
  {}

  lemma ReaderConfigSecondGroup()
    ensures GroupChecks(Optional([218]), [AnyNumber([221, 222]), Optional([244, 237, 239, 217, 220]),
                        AnyNumber([225, 219]), Optional([226]), AnyNumber([1023])])
  {}

  lemma ReaderConfigFirstGroup()
    ensures GroupChecks(Required([287]), [Optional([218]), AnyNumber([221, 222]), Optional([244, 237, 239, 217,
                        220]), AnyNumber([225, 219]), Optional([226]), AnyNumber([1023])])
  {}

  lemma ReaderConfigFirstMembers()
    ensures MembersKnown(12, Required([287]), [287])
    ensures MembersKnown(12, Optional([218]), [218])
    ensures MembersKnown(12, AnyNumber([221, 222]), [221, 222])
  {}

  lemma ReaderConfigNextMembers()
    ensures MembersKnown(12, Optional([244, 237, 239, 217, 220]), [244, 237, 239, 217, 220])
    ensures MembersKnown(12, AnyNumber([225, 219]), [225, 219])
    ensures MembersKnown(12, Optional([226]), [226])
  {}

  lemma ReaderConfigLastMembers()
    ensures MembersKnown(12, AnyNumber([1023]), [1023])
  {}

  lemma ReaderConfigMembers()
    ensures GroupsKnown(12, ReaderConfigParts()) && RequiredSize(ReaderConfigParts()) == 8
  {
    hide MembersKnown;
    ReaderConfigFirstMembers();
    ReaderConfigNextMembers();
    ReaderConfigLastMembers();
    var gs := ReaderConfigParts();
    KnownNothing(12);
    assert gs[7..] == [];
    KnownStep(12, gs, 6);
    KnownStep(12, gs, 5);
    KnownStep(12, gs, 4);
    KnownStep(12, gs, 3);
    KnownStep(12, gs, 2);
    KnownStep(12, gs, 1);
    KnownStep(12, gs, 0);
    assert gs[0..] == gs;
  }

  lemma NewConfigLastGroups()
    ensures GroupsCheck([Optional([237, 239, 220]), AnyNumber([219, 225]), Optional([226]), AnyNumber([1023])])
  {}

  lemma NewConfigSecondGroup()
    ensures GroupChecks(AnyNumber([221, 222]), [Optional([237, 239, 220]), AnyNumber([219, 225]),
                        Optional([226]), AnyNumber([1023])])
  {}

  lemma NewConfigFirstGroup()
    ensures GroupChecks(Optional([244]), [AnyNumber([221, 222]), Optional([237, 239, 220]), AnyNumber([219,
                        225]), Optional([226]), AnyNumber([1023])])
  {}

  lemma NewConfigFirstMembers()
    ensures MembersKnown(3, Optional([244]), [244])
    ensures MembersKnown(3, AnyNumber([221, 222]), [221, 222])
    ensures MembersKnown(3, Optional([237, 239, 220]), [237, 239, 220])
  {}

  lemma NewConfigNextMembers()
    ensures MembersKnown(3, AnyNumber([219, 225]), [219, 225])
    ensures MembersKnown(3, Optional([226]), [226])
    ensures MembersKnown(3, AnyNumber([1023]), [1023])
  {}

  lemma NewConfigMembers()
    ensures GroupsKnown(3, NewConfigParts()) && RequiredSize(NewConfigParts()) == 0
  {
    hide MembersKnown;
    NewConfigFirstMembers();
    NewConfigNextMembers();
    var gs := NewConfigParts();
    KnownNothing(3);
    assert gs[6..] == [];
    KnownStep(3, gs, 5);
    KnownStep(3, gs, 4);
    KnownStep(3, gs, 3);
    KnownStep(3, gs, 2);
    KnownStep(3, gs, 1);
    KnownStep(3, gs, 0);
    assert gs[0..] == gs;
  }

  lemma KnownNothing(typ: nat)
    ensures GroupsKnown(typ, []) && RequiredSize([]) == 0
  {}

  lemma KnownStep(typ: nat, gs: seq<Group>, i: nat)
    requires i < |gs| && !gs[i].Exclusive() && MembersKnown(typ, gs[i], gs[i].members) && GroupsKnown(typ,
                       gs[i + 1..])
    ensures GroupsKnown(typ, gs[i..])
    ensures RequiredSize(gs[i..])
            == (if gs[i].optional then 0 else MembersSize(gs[i].members)) + RequiredSize(gs[i + 1..])
  {
    hide MembersKnown, MembersSize;
    assert gs[i..][1..] == gs[i + 1..];
  }

  lemma CheckStep(gs: seq<Group>, i: nat)
    requires i < |gs| && GroupChecks(gs[i], gs[i + 1..]) && GroupsCheck(gs[i + 1..])
    ensures GroupsCheck(gs[i..])
  {
    hide GroupChecks;
    assert gs[i..][1..] == gs[i + 1..];
  }

  lemma GetReaderConfigResponseChecks()
    ensures BodyChecks(12, Other(12))
  {
    hide GroupChecks, GroupsCheck, GroupsKnown, RequiredSize;
    var gs := ReaderConfigParts();
    ReaderConfigMembers();
    ReaderConfigLastGroups();
    ReaderConfigFirstGroup();
    ReaderConfigSecondGroup();
    ReaderConfigThirdGroup();
    assert gs[3..] == [Optional([244, 237, 239, 217, 220]), AnyNumber([225, 219]), Optional([226]),
                       AnyNumber([1023])];
    CheckStep(gs, 2);
    assert gs[2..] == [AnyNumber([221, 222]), Optional([244, 237, 239, 217, 220]), AnyNumber([225, 219]),
                       Optional([226]), AnyNumber([1023])];
    CheckStep(gs, 1);
    assert gs[1..] == [Optional([218]), AnyNumber([221, 222]), Optional([244, 237, 239, 217, 220]),
                       AnyNumber([225, 219]), Optional([226]), AnyNumber([1023])];
    CheckStep(gs, 0);
    assert gs[0..] == gs;
  }

  lemma SetReaderConfigChecks()
    ensures BodyChecks(3, Other(3))
  {
    hide GroupChecks, GroupsCheck, GroupsKnown, RequiredSize;
    var gs := NewConfigParts();
    NewConfigMembers();
    NewConfigLastGroups();
    NewConfigFirstGroup();
    NewConfigSecondGroup();
    assert gs[2..] == [Optional([237, 239, 220]), AnyNumber([219, 225]), Optional([226]), AnyNumber([1023])];
    CheckStep(gs, 1);
    assert gs[1..] == [AnyNumber([221, 222]), Optional([237, 239, 220]), AnyNumber([219, 225]),
                       Optional([226]), AnyNumber([1023])];
    CheckStep(gs, 0);
    assert gs[0..] == gs;
    assert MinSizes([Flags(0, 1)]) == 1;
  }

  lemma StatusOnly()
    ensures var gs := [Required([287])]; GroupsCheck(gs) && RequiredSize(gs) == 8
    ensures GroupsKnown(4, [Required([287])])
  {}

  lemma SmallBody(typ: nat)
    requires IsMessage(typ) && !IsOther(typ)
    ensures BodyFields(Body(typ)) && BodySize(Body(typ))
    ensures GroupsCheck(Body(typ).groups) && GroupsKnown(typ, Body(typ).groups)
  {
    hide GroupsCheck, RequiredSize, GroupsKnown, IsParameter, MembersKnown, MembersSize;
    StatusOnly();
    NoGroups(typ);
    assert MinSizes([Scalar(4)]) == 4;
    if IsStatusOnly(typ) {
      SameWhenPlain(4, typ, [Required([287])]);
    }
  }

  lemma NoGroups(typ: nat)
    ensures GroupsCheck([]) && GroupsKnown(typ, []) && RequiredSize([]) == 0 && MinSizes([]) == 0
  {}

  lemma {:induction false} SameWhenPlain(a: nat, b: nat, gs: seq<Group>)
    requires GroupsKnown(a, gs) && !CarriesLossy(a)
    ensures GroupsKnown(b, gs)
  {
    hide CarriesLossy, IsParameter, IsLossy;
    if gs != [] {
      SameMembersWhenPlain(a, b, gs[0], gs[0].members);
      SameWhenPlain(a, b, gs[1..]);
    }
  }

  lemma {:induction false} SameMembersWhenPlain(a: nat, b: nat, g: Group, ids: seq<nat>)
    requires MembersKnown(a, g, ids) && !CarriesLossy(a)
    ensures MembersKnown(b, g, ids)
  {
    hide CarriesLossy, IsParameter, IsLossy;
    if ids != [] {
      SameMembersWhenPlain(a, b, g, ids[1..]);
    }
  }

  lemma {:induction false} MembersAre(typ: nat, g: Group, ids: seq<nat>)
    requires MembersKnown(typ, g, ids)
    ensures Refers(Llrp(), ids) && (!g.optional ==> SumMin(Llrp(), ids) == MembersSize(ids))
    ensures CarriesLossy(typ) || forall k :: 0 <= k < |ids| ==> !IsLossy(ids[k]) && !(g.Simple() && IsTv(ids[k]))
  {
    hide Llrp, IsParameter, IsLossy, CarriesLossy, IsTv, Definition, Carried, RequiredMinSize;
    if ids != [] {
      CarriedIs(ids[0]);
      LlrpHas(ids[0]);
      MembersAre(typ, g, ids[1..]);
    }
  }

  lemma {:induction false} GroupsAre(typ: nat, gs: seq<Group>)
    requires GroupsKnown(typ, gs)
    ensures GroupsRefer(Llrp(), gs) && RequiredMin(Llrp(), gs) == RequiredSize(gs)
    ensures forall i :: 0 <= i < |gs| ==> !gs[i].Exclusive()
    ensures CarriesLossy(typ) || PlainGroups(gs)
  {
    hide Llrp, MembersKnown, MembersSize, SumMin, IsLossy, CarriesLossy, IsTv;
    if gs != [] {
      MembersAre(typ, gs[0], gs[0].members);
      GroupsAre(typ, gs[1..]);
      assert forall i :: 0 < i < |gs| ==> gs[i] == gs[1..][i - 1];
    }
  }

  lemma BodyCalculated(typ: nat)
    requires IsMessage(typ)
    ensures BodyFields(Body(typ)) && BodySize(Body(typ))
    ensures GroupsCheck(Body(typ).groups) && GroupsKnown(typ, Body(typ).groups)
  {
    hide Other, BodyFields, BodySize, GroupsCheck, GroupsKnown;
    if IsOther(typ) {
      OtherFields(typ);
      GetSupportedVersionResponseChecks(); SetProtocolVersionChecks(); GetReaderCapabilitiesChecks();
      GetReaderCapabilitiesResponseGroups(); GetReaderCapabilitiesResponseMembers();
      GetReaderCapabilitiesResponseSize(); AddROSpecChecks(); GetROSpecsResponseChecks(); AddAccessSpecChecks();
      GetAccessSpecsResponseChecks(); ClientRequestOpChecks(); ClientRequestOpResponseChecks();
      ROAccessReportChecks(); ReaderEventNotificationChecks(); GetReaderConfigChecks();
      GetReaderConfigResponseChecks();
      SetReaderConfigChecks(); CustomMessageChecks();
    } else {
      SmallBody(typ);
    }
  }

  lemma BodyEnds(c: Container)
    requires BodyFields(c)
    ensures Delimited(c)
  {
    assert Trailing([]) == 0;
    hide Trailing, FieldOk, TailOk;
    if c.fields != [] && !IsFixed(c.fields[|c.fields| - 1]) {
      VariableLast(c.fields);
    }
  }

  lemma BodyIsGood(typ: nat)
    requires IsMessage(typ)
    ensures MessageGood(Llrp(), Body(typ)) && Delimited(Body(typ))
    ensures CarriesLossy(typ) || PlainGroups(Body(typ).groups)
  {
    hide Delimited, Visible, Llrp, Body, GroupsGood, GroupsCheck, GroupsKnown, MinSizes, RequiredMin, RequiredSize,
         CarriesLossy, PlainGroups, FieldOk, TailOk, IsMessage;
    BodyCalculated(typ);
    GroupsCheckGood(Body(typ).groups);
    GroupsAre(typ, Body(typ).groups);
    LlrpIsVisible(Body(typ).groups);
    BodyEnds(Body(typ));
  }

  // ---- the law ----

  /** Every LLRP message whose parameters each fit their length field is read back if, and
      only if, nothing in it is of the kinds the generated code loses. */
  lemma LlrpMessageRoundTrip(typ: nat, v: Value)
    requires IsMessage(typ) && MessageWellFormed(Llrp(), Body(typ), v)
    requires AllFit(GroupsHeaders(Llrp(), Body(typ).groups, v.groups))
    ensures Closed(Llrp()) && GroupsRefer(Llrp(), Body(typ).groups)
    ensures MarshalledMessage(Llrp(), Body(typ), v) == Ok(MessageBytes(Llrp(), Body(typ), v))
    ensures GroupsClean(Llrp(), Body(typ).groups, v.groups)
            ==> UnmarshalMessage(Llrp(), Body(typ), MessageBytes(Llrp(), Body(typ), v)) == Ok(v)
    ensures !GroupsClean(Llrp(), Body(typ).groups, v.groups)
            ==> UnmarshalMessage(Llrp(), Body(typ), MessageBytes(Llrp(), Body(typ), v)).IsFailure()
  {
    hide Llrp, Body, MessageWellFormed, AllFit, GroupsHeaders, GroupsClean, MessageBytes, UnmarshalMessage,
         MarshalledMessage, Good, Delimited, CarriesLossy;
    LlrpIsGood();
    BodyIsGood(typ);
    MessageRoundTrip(Llrp(), Body(typ), v);
  }

  /** All other messages are always read back, whatever is nested in them. */
  lemma PlainMessagesRoundTrip(typ: nat, v: Value)
    requires IsMessage(typ) && !CarriesLossy(typ) && MessageWellFormed(Llrp(), Body(typ), v)
    requires AllFit(GroupsHeaders(Llrp(), Body(typ).groups, v.groups))
    ensures Closed(Llrp()) && GroupsRefer(Llrp(), Body(typ).groups)
    ensures MarshalledMessage(Llrp(), Body(typ), v) == Ok(MessageBytes(Llrp(), Body(typ), v))
    ensures UnmarshalMessage(Llrp(), Body(typ), MessageBytes(Llrp(), Body(typ), v)) == Ok(v)
  {
    hide Llrp, Body, AllFit, GroupsHeaders, GroupsClean, MessageBytes, UnmarshalMessage, MarshalledMessage, Good,
         PlainGroups,
         CarriesLossy, IsMessage;
    BodyIsGood(typ);
    PlainGroupsClean(Body(typ).groups, v.groups);
    LlrpMessageRoundTrip(typ, v);
  }

  // ---- tag reports ----

  lemma ThreeSlots(s: Schema, g: Group, ids: seq<nat>, slots: seq<Slot>)
    requires |ids| == 3 && SlotsWellFormed(s, ids, slots)
    ensures |slots| == 3 && forall k :: 0 <= k < 3 ==> ItemsWellFormed(s, ids[k], slots[k].items)
    ensures SlotsClean(s, g, ids, slots) <==> forall k :: 0 <= k < 3 ==> ItemsClean(s, g, ids[k], slots[k].items)
  {
    hide ItemsWellFormed, ItemsClean;
    assert ids[1..][1..][1..] == [] && slots[1..][1..][1..] == [];
    assert SlotsWellFormed(s, ids[1..], slots[1..]) && SlotsWellFormed(s, ids[1..][1..], slots[1..][1..]);
    assert SlotsClean(s, g, ids[1..][1..], slots[1..][1..]) <==> ItemsClean(s, g, ids[2], slots[2].items);
    assert SlotsClean(s, g, ids[1..], slots[1..])
      <==> ItemsClean(s, g, ids[1], slots[1].items) && ItemsClean(s, g, ids[2], slots[2].items);
  }

  predicate AllClean(id: nat, items: seq<Value>) {
    forall j :: 0 <= j < |items| ==> Clean(Llrp(), id, items[j])
  }

  /** An ROAccessReport is read back exactly when each of its TagReportData and
      RFSurveyReportData parameters would be on its own. */
  lemma ReportIsClean(v: Value)
    requires MessageWellFormed(Llrp(), Body(61), v)
    ensures |v.groups| == 1 && |v.groups[0].slots| == 3
    ensures GroupsClean(Llrp(), Body(61).groups, v.groups)
            <==> AllClean(240, v.groups[0].slots[0].items) && AllClean(242, v.groups[0].slots[1].items)
  {
    hide Llrp, Clean, ItemsWellFormed, ItemsClean, Shape, FieldsOk;
    var g := AnyNumber([240, 242, 1023]);
    assert Body(61).groups == [g];
    SlotsOfOne(Llrp(), g, [g], v.groups);
    var slots := v.groups[0].slots;
    ThreeSlots(Llrp(), g, g.members, slots);
    ItemsCleanEach(g, 240, slots[0].items);
    ItemsCleanEach(g, 242, slots[1].items);
    PlainItemsClean(g, 1023, slots[2].items);
  }

}
