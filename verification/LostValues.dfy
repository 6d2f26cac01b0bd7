/** Values of LLRP parameters that are encoded and then refused, one for each kind of loss. */
module LostValues {
  import opened Bytes
  import opened Outcomes
  import opened Fields
  import opened Schema
  import opened Encoder
  import opened HeaderCode
  import opened Decoder
  import opened RoundTrip
  import opened GroupRoundTrip
  import opened Parameters
  import opened LlrpSchema
  import opened LlrpLaws

  // ---- printing what is empty or not selected ----

  lemma {:induction false} EmptyFit(ids: seq<nat>)
    ensures SlotsWellFormed(Llrp(), ids, EmptySlots(|ids|))
  {
    hide Llrp;
    if ids != [] {
      EmptyFit(ids[1..]);
      assert EmptySlots(|ids|)[1..] == EmptySlots(|ids[1..]|);
    }
  }

  /** An exclusive group that selects its first member. */
  lemma FirstSelected(g: Group, v: Value)
    requires g.Exclusive() && |g.members| == 2 && WellFormed(Llrp(), g.members[0], v)
    ensures var slots := [Slot([v]), Slot([])];
            && Shape(g, slots) && SlotsWellFormed(Llrp(), g.members, slots)
            && EmitAll(SlotsHeaders(Llrp(), g, g.members, slots))
               == if Selected(v) then Encode(Llrp(), g.members[0], v) else []
  {
    hide Llrp, WellFormed, HeaderOf, Selected, Encode, Emit;
    var slots := [Slot([v]), Slot([])];
    assert slots[1..] == [Slot([])] && slots[1..][1..] == [] && g.members[1..][1..] == [];
    assert ItemsWellFormed(Llrp(), g.members[0], [v]) by { assert [v][1..] == []; }
    assert SlotsWellFormed(Llrp(), g.members[1..], slots[1..]);
    assert OnlyAt(slots, 0);
    OnlySlotHeaders(Llrp(), g, g.members, slots, 0);
    SingleItem(Llrp(), g, g.members[0], v);
  }

  /** Refused, because not clean. */
  lemma Refused(id: nat, v: Value, size: nat)
    requires WellFormed(Llrp(), id, v) && !Clean(Llrp(), id, v) && !IsTv(id)
    requires |Body(Llrp(), id, v)| == size <= 65531
    ensures Closed(Llrp()) && id in Llrp()
    ensures Marshalled(Llrp(), id, v) == Ok(Body(Llrp(), id, v))
    ensures UnmarshalBinary(Llrp(), id, Body(Llrp(), id, v)).IsFailure()
  {
    hide Llrp, WellFormed, Clean, Encode, Body, UnmarshalBinary, Marshalled;
    EncodeIsHeaderAndBody(Llrp(), id, v);
    HeaderTyp(Llrp(), id, v);
    LlrpRoundTrip(id, v);
  }

  /** A value of a parameter with one group. */
  lemma OneGroupFits(id: nat, g: Group, vs: seq<FieldValue>, slots: seq<Slot>)
    requires id in Llrp() && Llrp()[id].groups == [g] && FieldsOk(Llrp()[id].fields, vs)
    requires Shape(g, slots) && SlotsWellFormed(Llrp(), g.members, slots)
    ensures |vs| == |Llrp()[id].fields| && WellFormed(Llrp(), id, Value(vs, [GroupValue(slots)]))
    ensures Body(Llrp(), id, Value(vs, [GroupValue(slots)]))
            == EncodeFields(Llrp()[id].fields, vs) + EmitAll(SlotsHeaders(Llrp(), g, g.members, slots))
  {
    hide Llrp, FieldsOk, Shape, SlotsWellFormed, SlotsHeaders, EncodeFields, EmitAll;
    var gs, gvs := [g], [GroupValue(slots)];
    SameLength(Llrp()[id].fields, vs);
    assert gs[1..] == [] && gvs[1..] == [] && GroupsWellFormed(Llrp(), gs[1..], gvs[1..]);
    assert GroupsWellFormed(Llrp(), gs, gvs);
    var hs := SlotsHeaders(Llrp(), g, g.members, slots);
    assert GroupsHeaders(Llrp(), gs, gvs) == hs + GroupsHeaders(Llrp(), gs[1..], gvs[1..]);
    assert hs + [] == hs;
  }

  lemma SameLength(fs: seq<Field>, vs: seq<FieldValue>)
    requires FieldsOk(fs, vs)
    ensures |fs| == |vs|
  {}

  // ---- a time stamp of zero ----

  function ZeroTimeEntry(): Value {
    Value([Num(865700), Num(100), Num(60), Num(40)], [GroupValue([Slot([Value([Num(0)], [])]), Slot([])])])
  }

  lemma ZeroIsTimestamp()
    ensures WellFormed(Llrp(), 128, Value([Num(0)], [])) && !Selected(Value([Num(0)], []))
    ensures TimestampGroup().Exclusive() && TimestampGroup().members == [128, 129]
  {
    LlrpHas(128);
    hide Llrp;
    assert FieldIsNil(Value([Num(0)], []).fields[0]);
  }

  lemma EntryDefinition()
    ensures 243 in Llrp() && Llrp()[243].groups == [TimestampGroup()]
    ensures Llrp()[243].fields == [Scalar(4), Scalar(4), Scalar(1), Scalar(1)]
  {
    LlrpHas(243);
  }

  lemma EntryFields(vs: seq<FieldValue>)
    requires vs == [Num(865700), Num(100), Num(60), Num(40)]
    ensures FieldsOk([Scalar(4), Scalar(4), Scalar(1), Scalar(1)], vs)
    ensures |EncodeFields([Scalar(4), Scalar(4), Scalar(1), Scalar(1)], vs)| == 10
  {
    var fs := [Scalar(4), Scalar(4), Scalar(1), Scalar(1)];
    assert FieldsOk(fs, vs);
    FixedFieldsSize(fs, vs);
    hide *;
    EntrySize();
  }

  lemma EntrySize()
    ensures MinSizes([Scalar(4), Scalar(4), Scalar(1), Scalar(1)]) == 10
  {}

  /** A FrequencyRSSILevelEntry at time zero. */
  lemma ZeroTimeIsLost()
    ensures var v := ZeroTimeEntry();
            && Closed(Llrp()) && WellFormed(Llrp(), 243, v)
            && Marshalled(Llrp(), 243, v) == Ok(Body(Llrp(), 243, v))
            && UnmarshalBinary(Llrp(), 243, Body(Llrp(), 243, v)).IsFailure()
  {
    hide Llrp, WellFormed, Clean, Body, UnmarshalBinary, Marshalled, SlotsWellFormed, SlotsHeaders, FieldsOk,
         EncodeFields, TimestampGroup, Selected;
    var v, slots := ZeroTimeEntry(), [Slot([Value([Num(0)], [])]), Slot([])];
    ZeroIsTimestamp();
    FirstSelected(TimestampGroup(), Value([Num(0)], []));
    EntryDefinition();
    EntryFields(v.fields);
    OneGroupFits(243, TimestampGroup(), v.fields, slots);
    FrequencyEntryIsClean(v);
    assert !TimestampSet(slots) by { assert slots[0].items[0].fields == [Num(0)]; }
    Refused(243, v, 10);
  }

  // ---- a TV parameter that is not passed ----

  function SingulatedEvent(m: nat, n: nat): Value {
    Value([Num(0), Num(1), Num(1)], [GroupValue([Slot([Value([Num(m), Num(n)], [])])])])
  }

  lemma EventDefinition()
    ensures 254 in Llrp() && Llrp()[254].groups == [Optional([18])]
    ensures Llrp()[254].fields == [Scalar(1), Scalar(4), Scalar(2)]
  {
    LlrpHas(254);
  }

  lemma EventFields(vs: seq<FieldValue>)
    requires vs == [Num(0), Num(1), Num(1)]
    ensures FieldsOk([Scalar(1), Scalar(4), Scalar(2)], vs)
    ensures |EncodeFields([Scalar(1), Scalar(4), Scalar(2)], vs)| == 7
  {
    var fs := [Scalar(1), Scalar(4), Scalar(2)];
    assert FieldsOk(fs, vs);
    FixedFieldsSize(fs, vs);
    hide *;
    EventSize();
  }

  lemma EventSize()
    ensures MinSizes([Scalar(1), Scalar(4), Scalar(2)]) == 7
  {}

  lemma DetailsFit(m: nat, n: nat)
    requires m < 0x1_0000 && n < 0x1_0000
    ensures WellFormed(Llrp(), 18, Value([Num(m), Num(n)], []))
    ensures |Encode(Llrp(), 18, Value([Num(m), Num(n)], []))| == 5
  {
    var v := Value([Num(m), Num(n)], []);
    LlrpHas(18);
    hide Llrp, Encode;
    assert Pow256(2) == 0x1_0000;
    assert WellFormed(Llrp(), 18, v);
    LlrpIsGood();
    TvSize(Llrp(), 18, v);
  }

  lemma DetailsSlot(v: Value)
    requires WellFormed(Llrp(), 18, v)
    ensures var g, slots := Optional([18]), [Slot([v])];
            && Shape(g, slots) && SlotsWellFormed(Llrp(), g.members, slots)
            && EmitAll(SlotsHeaders(Llrp(), g, g.members, slots)) == Encode(Llrp(), 18, v)
  {
    hide Llrp, WellFormed, HeaderOf, Encode, Emit;
    var g, slots := Optional([18]), [Slot([v])];
    assert slots[1..] == [] && g.members[1..] == [] && [v][1..] == [];
    assert ItemsWellFormed(Llrp(), 18, [v]);
    assert OnlyAt(slots, 0);
    OnlySlotHeaders(Llrp(), g, g.members, slots, 0);
    SingleItem(Llrp(), g, 18, v);
  }

  /** Any AISpecEvent with SingulationDetails. */
  lemma SingulationIsLost(m: nat, n: nat)
    requires m < 0x1_0000 && n < 0x1_0000
    ensures var v := SingulatedEvent(m, n);
            && Closed(Llrp()) && WellFormed(Llrp(), 254, v)
            && Marshalled(Llrp(), 254, v) == Ok(Body(Llrp(), 254, v))
            && UnmarshalBinary(Llrp(), 254, Body(Llrp(), 254, v)).IsFailure()
  {
    hide Llrp, WellFormed, Clean, Body, UnmarshalBinary, Marshalled, SlotsWellFormed, SlotsHeaders, FieldsOk,
         EncodeFields, Optional, Shape, Encode;
    var details := Value([Num(m), Num(n)], []);
    var v := SingulatedEvent(m, n);
    DetailsFit(m, n);
    DetailsSlot(details);
    EventDefinition();
    EventFields(v.fields);
    OneGroupFits(254, Optional([18]), v.fields, [Slot([details])]);
    AISpecEventIsClean(v);
    Refused(254, v, 12);
  }

  // ---- an EPC without bits ----

  function BitlessReport(): Value {
    Value([], [GroupValue([Slot([Value([Bits(0, [])], [])]), Slot([])]),
               GroupValue(EmptySlots(|TAG_REPORT_PARTS|)), GroupValue(EmptySlots(1))])
  }

  lemma NoBitsIsEpc()
    ensures WellFormed(Llrp(), 241, Value([Bits(0, [])], [])) && !Selected(Value([Bits(0, [])], []))
    ensures EpcGroup().Exclusive() && EpcGroup().members == [241, 13]
  {
    LlrpHas(241);
    hide Llrp;
    assert FieldIsNil(Value([Bits(0, [])], []).fields[0]);
  }

  lemma ReportDefinition()
    ensures 240 in Llrp() && Llrp()[240].fields == []
    ensures Llrp()[240].groups == [EpcGroup(), Optional(TAG_REPORT_PARTS), AnyNumber([1023])]
  {
    LlrpHas(240);
  }

  lemma NothingThere(g: Group)
    requires g.optional
    ensures var slots := EmptySlots(|g.members|);
            && Shape(g, slots) && SlotsWellFormed(Llrp(), g.members, slots)
            && SlotsHeaders(Llrp(), g, g.members, slots) == []
  {
    hide Llrp;
    EmptyFit(g.members);
    NothingAfter(Llrp(), g, g.members, EmptySlots(|g.members|));
  }

  lemma {:induction false} NothingPrinted(gs: seq<Group>, gvs: seq<GroupValue>)
    requires gs != [] && gvs != [] && GroupsWellFormed(Llrp(), gs[1..], gvs[1..])
    requires Shape(gs[0], gvs[0].slots) && SlotsWellFormed(Llrp(), gs[0].members, gvs[0].slots)
    requires EmitAll(SlotsHeaders(Llrp(), gs[0], gs[0].members, gvs[0].slots)) == []
    requires EmitAll(GroupsHeaders(Llrp(), gs[1..], gvs[1..])) == []
    ensures GroupsWellFormed(Llrp(), gs, gvs) && EmitAll(GroupsHeaders(Llrp(), gs, gvs)) == []
  {
    hide Llrp, Shape, SlotsWellFormed, SlotsHeaders, EmitAll;
    EmitAllConcat(SlotsHeaders(Llrp(), gs[0], gs[0].members, gvs[0].slots), GroupsHeaders(Llrp(), gs[1..], gvs[1..]));
  }

  lemma NoGroupsPrinted()
    ensures GroupsWellFormed(Llrp(), [], []) && EmitAll(GroupsHeaders(Llrp(), [], [])) == [] && EmitAll([]) == []
    ensures EncodeFields([], []) == []
  {}

  lemma BitlessFits()
    ensures WellFormed(Llrp(), 240, BitlessReport()) && Body(Llrp(), 240, BitlessReport()) == []
  {
    hide Llrp, SlotsWellFormed, SlotsHeaders, Shape, EpcGroup, EmptySlots, Selected, GroupsWellFormed, GroupsHeaders,
         EmitAll, EncodeFields;
    var v := BitlessReport();
    var gs := [EpcGroup(), Optional(TAG_REPORT_PARTS), AnyNumber([1023])];
    NoBitsIsEpc();
    FirstSelected(EpcGroup(), Value([Bits(0, [])], []));
    NothingThere(gs[1]);
    NothingThere(gs[2]);
    NoGroupsPrinted();
    ReportDefinition();
    assert gs[2..][1..] == [] && v.groups[2..][1..] == [];
    NothingPrinted(gs[2..], v.groups[2..]);
    assert gs[1..][1..] == gs[2..] && v.groups[1..][1..] == v.groups[2..];
    NothingPrinted(gs[1..], v.groups[1..]);
    NothingPrinted(gs, v.groups);
  }

  /** A TagReportData whose EPC has no bits. */
  lemma BitlessIsLost()
    ensures var v := BitlessReport();
            && Closed(Llrp()) && WellFormed(Llrp(), 240, v)
            && Marshalled(Llrp(), 240, v) == Ok([])
            && UnmarshalBinary(Llrp(), 240, []).IsFailure()
  {
    hide Llrp, WellFormed, Clean, Body, UnmarshalBinary, Marshalled;
    var v := BitlessReport();
    BitlessFits();
    TagReportDataIsClean(v);
    Refused(240, v, 0);
  }
}
