/** The codec's laws for the LLRP parameters: 118 of the 123 always survive encoding and
    decoding, the other five exactly under a condition each. */
module LlrpLaws {
  import opened Bytes
  import opened Outcomes
  import opened Fields
  import opened Schema
  import opened Encoder
  import opened HeaderCode
  import opened Decoder
  import opened RoundTrip
  import opened GroupRoundTrip
  import opened CodecLaw
  import opened MinimumSizes
  import opened Interleaving
  import opened Progress
  import UnmarshalLoops
  import opened Parameters
  import opened LlrpChecks
  import opened LlrpSchema

  // ---- values without a lossy part are clean ----

  lemma {:induction false} PlainIsClean(id: nat, v: Value)
    requires WellFormed(Llrp(), id, v) && !IsLossy(id)
    ensures Clean(Llrp(), id, v)
    decreases v, 1
  {
    hide Definition, IsLossy, PlainGroups, GroupsWellFormed, GroupsClean, Delimited;
    FieldsOfValue(Llrp(), id, v);
    LlrpOnlyHas(id);
    IsPlain(id);
    LlrpIsDelimited(id);
    PlainGroupsClean(Llrp()[id].groups, v.groups);
  }

  lemma {:induction false} PlainGroupsClean(gs: seq<Group>, gvs: seq<GroupValue>)
    requires GroupsWellFormed(Llrp(), gs, gvs) && PlainGroups(gs)
    ensures GroupsClean(Llrp(), gs, gvs)
    decreases gvs, 0
  {
    hide Llrp, SlotsWellFormed, SlotsClean, IsLossy;
    if gs == [] {
    } else {
      PlainSlotsClean(gs[0], gs[0].members, gvs[0].slots);
      PlainGroupsClean(gs[1..], gvs[1..]);
    }
  }

  lemma {:induction false} PlainSlotsClean(g: Group, ids: seq<nat>, slots: seq<Slot>)
    requires SlotsWellFormed(Llrp(), ids, slots) && !g.Exclusive()
    requires forall k :: 0 <= k < |ids| ==> !IsLossy(ids[k]) && !(g.Simple() && IsTv(ids[k]))
    ensures SlotsClean(Llrp(), g, ids, slots)
    decreases slots, 0
  {
    hide Llrp, ItemsWellFormed, ItemsClean, IsLossy;
    if ids == [] {
    } else {
      PlainItemsClean(g, ids[0], slots[0].items);
      PlainSlotsClean(g, ids[1..], slots[1..]);
    }
  }

  lemma {:induction false} PlainItemsClean(g: Group, id: nat, items: seq<Value>)
    requires ItemsWellFormed(Llrp(), id, items) && !g.Exclusive() && !IsLossy(id) && !(g.Simple() && IsTv(id))
    ensures ItemsClean(Llrp(), g, id, items)
    decreases items, 0
  {
    hide Llrp, IsLossy, WellFormed, Clean, Selected;
    if items == [] {
    } else {
      PlainIsClean(id, items[0]);
      PlainItemsClean(g, id, items[1..]);
    }
  }

  // ---- the laws ----

  /** Every LLRP parameter that fits a 16-bit length is read back exactly when it is
      clean, and refused otherwise. */
  lemma LlrpRoundTrip(id: nat, v: Value)
    requires WellFormed(Llrp(), id, v) && |Encode(Llrp(), id, v)| <= 65535
    ensures Closed(Llrp()) && id in Llrp()
    ensures Marshalled(Llrp(), id, v) == Ok(Body(Llrp(), id, v))
    ensures Clean(Llrp(), id, v) ==> UnmarshalBinary(Llrp(), id, Body(Llrp(), id, v)) == Ok(v)
    ensures !Clean(Llrp(), id, v) ==> UnmarshalBinary(Llrp(), id, Body(Llrp(), id, v)).IsFailure()
  {
    hide Llrp, WellFormed, Clean, Encode, Body, UnmarshalBinary, Marshalled;
    LlrpIsGood();
    FieldsOfValue(Llrp(), id, v);
    RoundTripLaw(Llrp(), id, v);
  }

  /** All but five of the parameters round-trip whatever their value and nesting depth. */
  lemma PlainRoundTrips(id: nat, v: Value)
    requires WellFormed(Llrp(), id, v) && !IsLossy(id) && |Encode(Llrp(), id, v)| <= 65535
    ensures Closed(Llrp()) && id in Llrp()
    ensures Marshalled(Llrp(), id, v) == Ok(Body(Llrp(), id, v))
    ensures UnmarshalBinary(Llrp(), id, Body(Llrp(), id, v)) == Ok(v)
  {
    hide Llrp, WellFormed, Clean, Encode, Body, UnmarshalBinary, Marshalled;
    PlainIsClean(id, v);
    LlrpRoundTrip(id, v);
  }

  // ---- the five others ----

  lemma SlotsOfOne(s: Schema, g: Group, gs: seq<Group>, gvs: seq<GroupValue>)
    requires gs != [] && g == gs[0] && GroupsWellFormed(s, gs, gvs)
    ensures gvs != [] && Shape(g, gvs[0].slots) && SlotsWellFormed(s, g.members, gvs[0].slots)
    ensures GroupsWellFormed(s, gs[1..], gvs[1..]) && |gs| == |gvs|
    ensures GroupsClean(s, gs, gvs)
            <==> SlotsClean(s, g, g.members, gvs[0].slots) && GroupsClean(s, gs[1..], gvs[1..])
  {
    hide Shape, SlotsWellFormed, SlotsClean;
  }

  /** The selected member of an exclusive group of plain parameters survives exactly when
      it is not its zero value. */
  lemma ChoiceIsClean(g: Group, slots: seq<Slot>) returns (k: nat)
    requires Shape(g, slots) && SlotsWellFormed(Llrp(), g.members, slots) && g.Exclusive() && |g.members| > 1
    requires forall j :: 0 <= j < |g.members| ==> !IsLossy(g.members[j])
    ensures OnlyAt(slots, k) && k < |g.members| && WellFormed(Llrp(), g.members[k], slots[k].items[0])
    ensures SlotsClean(Llrp(), g, g.members, slots) <==> Selected(slots[k].items[0])
  {
    hide Llrp, WellFormed, Clean, Selected, SlotsClean, SlotsWellFormed, ItemsClean, ItemsWellFormed, IsLossy;
    k :| 0 <= k < |slots| && |slots[k].items| == 1
         && forall j :: 0 <= j < |slots| && j != k ==> slots[j].items == [];
    OnlySlotHeaders(Llrp(), g, g.members, slots, k);
    assert slots[k].items == [slots[k].items[0]];
    SingleItem(Llrp(), g, g.members[k], slots[k].items[0]);
    PlainIsClean(g.members[k], slots[k].items[0]);
  }

  /** A time stamp, UTC or relative, of zero is not written. */
  lemma TimestampIsSelected(id: nat, v: Value)
    requires WellFormed(Llrp(), id, v) && (id == 128 || id == 129)
    ensures |v.fields| == 1 && v.fields[0].Num? && (Selected(v) <==> v.fields[0].n != 0)
  {
    FieldsOfValue(Llrp(), id, v);
    LlrpHas(id);
  }

  function TimestampGroup(): Group {
    OneOf("timestamp", [128, 129])
  }

  /** Neither time stamp is present with the value zero. */
  predicate TimestampSet(slots: seq<Slot>) {
    forall j :: 0 <= j < |slots| && slots[j].items != [] ==>
      slots[j].items[0].fields != [Num(0)]
  }

  lemma TimestampsClean(slots: seq<Slot>)
    requires Shape(TimestampGroup(), slots) && SlotsWellFormed(Llrp(), TimestampGroup().members, slots)
    ensures SlotsClean(Llrp(), TimestampGroup(), TimestampGroup().members, slots) <==> TimestampSet(slots)
  {
    hide Llrp, WellFormed, Selected, SlotsClean, SlotsWellFormed, Shape;
    var k := ChoiceIsClean(TimestampGroup(), slots);
    TimestampIsSelected(TimestampGroup().members[k], slots[k].items[0]);
  }

  /** FrequencyRSSILevelEntry is lost exactly when its time stamp is zero. */
  lemma FrequencyEntryIsClean(v: Value)
    requires WellFormed(Llrp(), 243, v)
    ensures |v.groups| == 1
    ensures Clean(Llrp(), 243, v) <==> TimestampSet(v.groups[0].slots)
  {
    hide SlotsClean, SlotsWellFormed, Shape, GroupsWellFormed, TimestampSet, TimestampGroup, FieldsOk;
    LlrpHas(243);
    assert Definition(243).groups == [TimestampGroup()] by { TimestampGroupIs(); }
    FieldsOfValue(Llrp(), 243, v);
    CleanIsGroupsClean(Llrp(), 243, v);
    LlrpIsDelimited(243);
    SlotsOfOne(Llrp(), TimestampGroup(), [TimestampGroup()], v.groups);
    TimestampsClean(v.groups[0].slots);
    assert [TimestampGroup()][1..] == [];
  }

  lemma TimestampGroupIs()
    ensures TimestampGroup() == OneOf("timestamp", [128, 129])
  {}

  /** AISpecEvent is lost exactly when it carries SingulationDetails. */
  lemma AISpecEventIsClean(v: Value)
    requires WellFormed(Llrp(), 254, v)
    ensures |v.groups| == 1 && |v.groups[0].slots| == 1
    ensures Clean(Llrp(), 254, v) <==> v.groups[0].slots[0].items == []
  {
    hide GroupsWellFormed, FieldsOk, WellFormed, SlotsClean, SlotsWellFormed, Clean;
    LlrpHas(254);
    var g := Optional([18]);
    assert Definition(254).groups == [g];
    FieldsOfValue(Llrp(), 254, v);
    CleanIsGroupsClean(Llrp(), 254, v);
    LlrpIsDelimited(254);
    SlotsOfOne(Llrp(), g, [g], v.groups);
    assert [g][1..] == [];
    SingleTvClean(g, v.groups[0].slots);
  }

  lemma SingleTvClean(g: Group, slots: seq<Slot>)
    requires g == Optional([18]) && SlotsWellFormed(Llrp(), g.members, slots)
    ensures |slots| == 1 && (SlotsClean(Llrp(), g, g.members, slots) <==> slots[0].items == [])
  {
    hide Llrp, WellFormed, Clean, ItemsWellFormed;
    assert g.members[1..] == [] && slots[1..] == [];
    assert g.Simple() && IsTv(18);
  }

  function EpcGroup(): Group {
    OneOf("epc-data", [241, 13])
  }

  /** An EPCData without a single bit; a 96-bit EPC never counts as missing. */
  predicate EpcMissing(slots: seq<Slot>) {
    && |slots| > 0 && slots[0].items != [] && slots[0].items[0].fields != []
    && slots[0].items[0].fields[0].Bits? && slots[0].items[0].fields[0].bits == []
  }

  lemma EpcIsSelected(id: nat, v: Value)
    requires WellFormed(Llrp(), id, v) && (id == 241 || id == 13)
    ensures |v.fields| == 1
    ensures id == 241 ==> v.fields[0].Bits? && (Selected(v) <==> v.fields[0].bits != [])
    ensures id == 13 ==> Selected(v)
  {
    FieldsOfValue(Llrp(), id, v);
    LlrpHas(id);
  }

  lemma EpcClean(slots: seq<Slot>)
    requires Shape(EpcGroup(), slots) && SlotsWellFormed(Llrp(), EpcGroup().members, slots)
    ensures SlotsClean(Llrp(), EpcGroup(), EpcGroup().members, slots) <==> !EpcMissing(slots)
  {
    hide Llrp, WellFormed, Selected, SlotsClean, SlotsWellFormed, Shape;
    var k := ChoiceIsClean(EpcGroup(), slots);
    EpcIsSelected(EpcGroup().members[k], slots[k].items[0]);
  }

  /** TagReportData, with any subset of its optional parameters and any number of Customs,
      is lost exactly when its EPC is an EPCData of no bits. */
  lemma TagReportDataIsClean(v: Value)
    requires WellFormed(Llrp(), 240, v)
    ensures |v.groups| == 3
    ensures Clean(Llrp(), 240, v) <==> !EpcMissing(v.groups[0].slots)
  {
    hide SlotsClean, SlotsWellFormed, Shape, GroupsWellFormed, EpcMissing, FieldsOk, PlainGroup, GroupsClean;
    LlrpHas(240);
    var gs := Definition(240).groups;
    assert gs[0] == EpcGroup() && |gs| == 3;
    FieldsOfValue(Llrp(), 240, v);
    CleanIsGroupsClean(Llrp(), 240, v);
    LlrpIsDelimited(240);
    SlotsOfOne(Llrp(), EpcGroup(), gs, v.groups);
    EpcClean(v.groups[0].slots);
    TagReportDataRest();
    PlainGroupsClean(gs[1..], v.groups[1..]);
  }

  lemma TagReportDataRest()
    ensures PlainGroups(Report(240).groups[1..])
  {}

  /** ReaderEventNotificationData is lost exactly when its time stamp is zero or it
      reports an AISpecEvent that is lost. */
  lemma ReaderEventIsClean(v: Value)
    requires WellFormed(Llrp(), 246, v)
    ensures |v.groups| == 3 && |v.groups[1].slots| == 12
    ensures Clean(Llrp(), 246, v)
            <==> TimestampSet(v.groups[0].slots)
                 && forall j :: 0 <= j < |v.groups[1].slots[7].items| ==>
                      Clean(Llrp(), 254, v.groups[1].slots[7].items[j])
  {
    hide SlotsClean, SlotsWellFormed, Shape, GroupsWellFormed, TimestampSet, FieldsOk, PlainGroup, GroupsClean, Clean;
    LlrpHas(246);
    var gs := Definition(246).groups;
    var events := Optional(READER_EVENTS);
    assert gs == [TimestampGroup(), events, AnyNumber([1023])];
    FieldsOfValue(Llrp(), 246, v);
    CleanIsGroupsClean(Llrp(), 246, v);
    LlrpIsDelimited(246);
    SlotsOfOne(Llrp(), TimestampGroup(), gs, v.groups);
    TimestampsClean(v.groups[0].slots);
    assert gs[1..] == [events, AnyNumber([1023])];
    SlotsOfOne(Llrp(), events, gs[1..], v.groups[1..]);
    assert gs[1..][1..] == [AnyNumber([1023])];
    CustomsArePlain();
    PlainGroupsClean(gs[1..][1..], v.groups[1..][1..]);
    SlotsLength(Llrp(), events.members, v.groups[1].slots);
    EventsOthersPlain();
    OnlyLossySlot(events, events.members, v.groups[1].slots, 7);
    assert events.members[7] == 254;
  }

  lemma CustomsArePlain()
    ensures PlainGroups([AnyNumber([1023])])
  {}

  lemma EventsOthersPlain()
    ensures var ids: seq<nat> := READER_EVENTS;
            forall j :: 0 <= j < |ids| && j != 7 ==> !IsLossy(ids[j])
  {}

  /** With one lossy kind among a group's members, the group is clean exactly when the
      values of that kind are. */
  lemma {:induction false} OnlyLossySlot(g: Group, ids: seq<nat>, slots: seq<Slot>, k: nat)
    requires SlotsWellFormed(Llrp(), ids, slots) && !g.Exclusive() && !g.Simple() && k < |ids| == |slots|
    requires forall j :: 0 <= j < |ids| && j != k ==> !IsLossy(ids[j])
    ensures SlotsClean(Llrp(), g, ids, slots)
            <==> forall j :: 0 <= j < |slots[k].items| ==> Clean(Llrp(), ids[k], slots[k].items[j])
    decreases k
  {
    hide Llrp, ItemsWellFormed, ItemsClean, IsLossy, Clean;
    if k == 0 {
      ItemsCleanEach(g, ids[0], slots[0].items);
      PlainSlotsClean(g, ids[1..], slots[1..]);
    } else {
      PlainItemsClean(g, ids[0], slots[0].items);
      OnlyLossySlot(g, ids[1..], slots[1..], k - 1);
    }
  }

  lemma {:induction false} ItemsCleanEach(g: Group, id: nat, items: seq<Value>)
    requires ItemsWellFormed(Llrp(), id, items) && !g.Exclusive() && !g.Simple()
    ensures ItemsClean(Llrp(), g, id, items) <==> forall j :: 0 <= j < |items| ==> Clean(Llrp(), id, items[j])
    decreases |items|
  {
    hide Llrp, WellFormed, Clean;
    if items == [] {
    } else {
      ItemsCleanEach(g, id, items[1..]);
      assert forall j :: 0 < j < |items| ==> items[j] == items[1..][j - 1];
    }
  }

  /** RFSurveyReportData is lost exactly when one of its entries is. */
  lemma SurveyReportIsClean(v: Value)
    requires WellFormed(Llrp(), 242, v)
    ensures |v.groups| == 3 && |v.groups[1].slots| == 1
    ensures Clean(Llrp(), 242, v)
            <==> forall j :: 0 <= j < |v.groups[1].slots[0].items| ==> Clean(Llrp(), 243, v.groups[1].slots[0].items[j])
  {
    hide SlotsClean, SlotsWellFormed, Shape, GroupsWellFormed, FieldsOk, GroupsClean, Clean;
    LlrpHas(242);
    var gs := Definition(242).groups;
    var ids, entries := Optional([9, 14]), AtLeastOne([243]);
    assert gs == [ids, entries, AnyNumber([1023])];
    FieldsOfValue(Llrp(), 242, v);
    CleanIsGroupsClean(Llrp(), 242, v);
    LlrpIsDelimited(242);
    SlotsOfOne(Llrp(), ids, gs, v.groups);
    PlainSlotsClean(ids, ids.members, v.groups[0].slots);
    assert gs[1..] == [entries, AnyNumber([1023])];
    SlotsOfOne(Llrp(), entries, gs[1..], v.groups[1..]);
    assert gs[1..][1..] == [AnyNumber([1023])];
    CustomsArePlain();
    PlainGroupsClean(gs[1..][1..], v.groups[1..][1..]);
    SlotsLength(Llrp(), entries.members, v.groups[1].slots);
    OnlyLossySlot(entries, entries.members, v.groups[1].slots, 0);
  }

  // ---- an interleaved ROSpec ----

  /** A ROSpec whose AISpecs, RFSurveySpecs and Customs arrive in any order: decoding and
      encoding again gives their stable partition by kind. */
  lemma ROSpecInterleaved(v: Value, mix: seq<Item>)
    requires WellFormed(Llrp(), 177, v) && |Encode(Llrp(), 177, v)| <= 65535
    requires |v.groups| == 3 && |v.groups[1].slots| == 3 && Interleaves(mix, v.groups[1].slots)
    ensures 177 in Llrp() && |Llrp()[177].groups| == 3 && Llrp()[177].groups[1].members == [183, 187, 1023]
    ensures var sorted := ByKind(mix, 0, 3);
            && Closed(Llrp())
            && ItemsFit(Llrp(), Llrp()[177].groups[1], mix) && ItemsFit(Llrp(), Llrp()[177].groups[1], sorted)
            && UnmarshalBinary(Llrp(), 177, ScrambledBody(Llrp(), 177, v, 1, mix)) == Ok(v)
            && Body(Llrp(), 177, v) == ScrambledBody(Llrp(), 177, v, 1, sorted)
            && multiset(sorted) == multiset(mix)
            && forall k: nat :: OfKind(sorted, k) == OfKind(mix, k)
  {
    hide WellFormed, Clean, Encode, Body, UnmarshalBinary, ScrambledBody, Interleaves, ItemsFit, ByKind, OfKind, Good,
         Closed, IsLossy;
    ROSpecGroupsAre();
    LlrpHas(177);
    LlrpIsGood();
    NotLossy177();
    PlainIsClean(177, v);
    AnyInterleavingDecodes(Llrp(), 177, v, 1, mix);
  }

  /** A TagReportData whose 26 optional parameters arrive in any order. */
  lemma TagReportInterleaved(v: Value, mix: seq<Item>)
    requires WellFormed(Llrp(), 240, v) && Clean(Llrp(), 240, v) && |Encode(Llrp(), 240, v)| <= 65535
    requires |v.groups| == 3 && |v.groups[1].slots| == |TAG_REPORT_PARTS| && Interleaves(mix, v.groups[1].slots)
    ensures 240 in Llrp() && |Llrp()[240].groups| == 3 && Llrp()[240].groups[1] == Optional(TAG_REPORT_PARTS)
    ensures var sorted := ByKind(mix, 0, |TAG_REPORT_PARTS|);
            && Closed(Llrp())
            && ItemsFit(Llrp(), Llrp()[240].groups[1], mix) && ItemsFit(Llrp(), Llrp()[240].groups[1], sorted)
            && UnmarshalBinary(Llrp(), 240, ScrambledBody(Llrp(), 240, v, 1, mix)) == Ok(v)
            && Body(Llrp(), 240, v) == ScrambledBody(Llrp(), 240, v, 1, sorted)
  {
    hide WellFormed, Clean, Encode, Body, UnmarshalBinary, ScrambledBody, Interleaves, ItemsFit, ByKind, OfKind, Good,
         Closed, IsLossy, Looped;
    TagReportGroupsAre();
    LlrpHas(240);
    LlrpIsGood();
    AnyInterleavingDecodes(Llrp(), 240, v, 1, mix);
  }

  lemma TagReportGroupsAre()
    ensures Definition(240).groups == [EpcGroup(), Optional(TAG_REPORT_PARTS), AnyNumber([1023])]
    ensures Looped(Optional(TAG_REPORT_PARTS))
  {
    hide Distinct;
    TagReportDataTypes();
  }

  lemma NotLossy177()
    ensures !IsLossy(177)
  {}

  lemma ROSpecGroupsAre()
    ensures Definition(177).groups
            == [Required([178]), AnyNumberOf("specs", [183, 187, 1023]), Optional([355, 237])]
    ensures Looped(AnyNumberOf("specs", [183, 187, 1023]))
  {}

  // ---- decoding comes to an end ----

  /** The parameters whose Go type is not a struct: they are read in place. */
  ghost function InPlace(): set<nat> {
    set id | id in Llrp() && CanInline(Llrp()[id])
  }

  lemma LlrpMovesForward()
    ensures Forward(Llrp(), Llrp().Keys, InPlace())
  {
    hide Definition, Good, SizesSound;
    LlrpIsGood();
    forall id | id in Llrp()
      ensures Llrp()[id].minSize > 0 && GroupsForward(Llrp(), Llrp().Keys, InPlace(), Llrp()[id].groups)
    {
      SoundSize(Llrp(), id);
      MembersForward(id);
    }
  }

  lemma MembersForward(id: nat)
    requires id in Llrp() && Closed(Llrp()) && Good(Llrp())
    ensures GroupsForward(Llrp(), Llrp().Keys, InPlace(), Llrp()[id].groups)
  {
    hide Definition, CanInline;
    var gs := Llrp()[id].groups;
    GoodContainer(Llrp(), id);
    forall i | 0 <= i < |gs|
      ensures GroupForward(Llrp(), Llrp().Keys, InPlace(), gs[i])
    {
      GroupsGoodAt(gs, i);
      assert Refers(Llrp(), gs[i].members);
    }
  }

  lemma {:induction false} GroupsGoodAt(gs: seq<Group>, i: nat)
    requires GroupsGood(gs) && i < |gs|
    ensures GroupGood(gs[i], gs[i + 1..])
    decreases i
  {
    hide GroupGood;
    if i > 0 {
      GroupsGoodAt(gs[1..], i - 1);
      assert gs[1..][i - 1 + 1..] == gs[i + 1..];
    }
  }

  /** No data keeps the decoder of an LLRP parameter going forever, unless somewhere in it
      a parameter that is read in place declares the length zero. */
  lemma LlrpDecodingEnds(id: nat, data: seq<Byte>)
    requires IsParameter(id) && !ZeroHeader(InPlace(), data)
    ensures Closed(Llrp()) && id in Llrp() && !UnmarshalBinary(Llrp(), id, data).Stuck?
  {
    hide Llrp, InPlace, ZeroHeader;
    LlrpHas(id);
    LlrpMovesForward();
    DecodingEnds(Llrp(), Llrp().Keys, InPlace(), id, data);
  }

  /** Status and error parameters, which nest in each other, decode on any input. */
  lemma StatusDecodingEnds(id: nat, data: seq<Byte>)
    requires id == 287 || id == 288 || id == 289
    ensures Closed(Llrp()) && id in Llrp() && !UnmarshalBinary(Llrp(), id, data).Stuck?
  {
    hide Llrp, UnmarshalBinary, Good, SizesSound, Closed;
    LlrpIsGood();
    StatusMovesForward();
    NothingSticks(data);
    LlrpHas(id);
    DecodingEnds(Llrp(), {287, 288, 289}, {}, id, data);
  }

  lemma NothingSticks(data: seq<Byte>)
    ensures !ZeroHeader({}, data)
  {}

  lemma StatusMovesForward()
    requires Closed(Llrp())
    ensures Forward(Llrp(), {287, 288, 289}, {})
  {
    hide Closed, Llrp, Definition;
    LlrpHas(287);
    LlrpHas(288);
    LlrpHas(289);
    StatusDefinitions();
    StatusGroup(Optional([288, 289]));
    StatusGroup(Optional([289, 288]));
  }

  lemma StatusDefinitions()
    ensures Definition(287).groups == [Optional([288, 289])] && Definition(287).minSize > 0
    ensures Definition(288).groups == [] && Definition(288).minSize > 0 && !CanInline(Definition(288))
    ensures Definition(289).groups == [Optional([289, 288])] && Definition(289).minSize > 0
    ensures !CanInline(Definition(289))
  {}

  lemma StatusGroup(g: Group)
    requires g.members == [288, 289] || g.members == [289, 288]
    ensures GroupForward(Llrp(), {287, 288, 289}, {}, g)
  {
    hide Llrp, Definition;
    LlrpHas(288);
    LlrpHas(289);
    StatusDefinitions();
  }

  /** An AntennaConfiguration with an RFReceiver of length zero does keep it going. */
  lemma ZeroLengthSticks()
    ensures Closed(Llrp()) && 222 in Llrp()
    ensures UnmarshalBinary(Llrp(), 222, [0, 1, 0, 223, 0, 0, 0, 5]) == Stuck
  {
    hide Llrp, Definition, Good, SizesSound, Closed, DecodeGroup, Refers, Optional, UnmarshalBinary, Visible,
         ContainerGood, Delimited, GroupsRefer;
    var data: seq<Byte>, rest: seq<Byte> := [0, 1, 0, 223, 0, 0, 0, 5], [0, 223, 0, 0, 0, 5];
    LlrpIsGood();
    LlrpHas(222);
    AntennaDefinitions();
    assert data[2..] == rest;
    GoodContainer(Llrp(), 222);
    LoopStuck(Llrp()[222].groups[0], rest);
    StaysStuck(Llrp(), 222, data);
  }

  /** The parameter does not end if the loop of the group behind its one number does not. */
  lemma StaysStuck(s: Schema, id: nat, data: seq<Byte>)
    requires Good(s) && id in s && s[id].fields == [Scalar(2)] && s[id].groups != []
    requires |data| > 2 && |data| >= s[id].minSize - HeaderSize(id)
    requires Closed(s) && Refers(s, s[id].groups[0].members)
    requires forall known :: DecodeGroup(s, s[id].groups[0], data[2..], known) == Stuck
    ensures UnmarshalBinary(s, id, data) == Stuck
  {
    hide Good, Closed, DecodeGroup, DecodeGroups, DecodeFieldsFrom, KnownAfter, GroupsRefer, Refers, ChecksLeftover,
         FromBigEndian, HeaderSize;
    var c := s[id];
    GoodContainer(s, id);
    OneNumberRead(c, data);
    GroupStuck(s, c.groups, data[2..], KnownAfter(c.fields, c.minSize - HeaderSize(id)), ChecksLeftover(c));
  }

  lemma OneNumberRead(c: Container, data: seq<Byte>)
    requires c.fields == [Scalar(2)] && c.groups != [] && |data| >= 2
    ensures var r := DecodeFieldsFrom(c, 0, data, 0); r.Ok? && r.value.1 == data[2..]
  {
    hide DecodeFieldsFrom, FromBigEndian;
    UnmarshalLoops.FieldsStep(c, 0, data, 0);
    UnmarshalLoops.FieldsEnd(c, data[2..], 0);
  }

  lemma GroupStuck(s: Schema, gs: seq<Group>, rest: seq<Byte>, known: int, leftover: bool)
    requires Closed(s) && gs != [] && GroupsRefer(s, gs) && rest != []
    requires Refers(s, gs[0].members) && DecodeGroup(s, gs[0], rest, known) == Stuck
    ensures DecodeGroups(s, gs, rest, known, leftover) == Stuck
  {
    hide Closed, DecodeGroup, DecodeGroups, Refers, AllOptional;
    assert gs[0..] == gs;
    UnmarshalLoops.GroupsStep(s, gs, 0, rest, known, leftover);
  }

  lemma AntennaDefinitions()
    ensures var c := Definition(222);
            && c.fields == [Scalar(2)] && c.groups == [Optional([223, 224, 330]), AnyNumber([1023])]
            && c.minSize == 6 && !c.fixed
    ensures var c := Definition(223);
            c.fields == [Scalar(2)] && c.groups == []
  {}

  lemma LoopStuck(g: Group, rest: seq<Byte>)
    requires Closed(Llrp()) && g == Optional([223, 224, 330]) && rest == [0, 223, 0, 0, 0, 5]
    ensures Refers(Llrp(), g.members) && DecodeGroup(Llrp(), g, rest, 0) == Stuck
    ensures forall known :: DecodeGroup(Llrp(), g, rest, known) == Stuck
  {
    hide Llrp, Definition, Closed, DecodeLoop, SmallestMin;
    LlrpHas(223);
    LlrpHas(224);
    LlrpHas(330);
    AntennaDefinitions();
    assert !IsTv(g.members[0]) && !HasTv(g.members);
    UnmarshalLoops.LoopStep(Llrp(), g, EmptySlots(3), rest);
  }
}
