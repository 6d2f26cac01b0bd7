/** The codec's law for whole parameters of any nesting depth. */
module CodecLaw {
  import opened Bytes
  import opened Outcomes
  import opened Fields
  import opened Schema
  import opened Encoder
  import opened Decoder
  import opened HeaderCode
  import opened RoundTrip
  import opened GroupRoundTrip

  // ---- one group in its place ----

  lemma GroupsGoodHead(gs: seq<Group>)
    requires GroupsGood(gs) && gs != []
    ensures GroupGood(gs[0], gs[1..]) && GroupsGood(gs[1..])
  {}

  lemma SlotsLength(s: Schema, ids: seq<nat>, slots: seq<Slot>)
    requires SlotsWellFormed(s, ids, slots)
    ensures |ids| == |slots|
  {}

  /** A group's own bytes, followed by headers it does not recognise, give its slots back
      and stop in front of those headers; an unclean group is refused. Only a TV parameter
      read without a loop, which is unclean, may be accepted, and is then left in the data. */
  lemma GroupStep(s: Schema, g: Group, slots: seq<Slot>, hs: seq<ParamHeader>, known: int)
    requires Good(s) && Refers(s, g.members) && g.members != [] && Distinct(g.members)
    requires InOrder(g) || AllAway(g, hs)
    requires Shape(g, slots) && SlotsWellFormed(s, g.members, slots) && SlotsLaw(s, g, g.members, slots)
    requires AllSizesExact(hs) && AllFit(hs)
    requires g.Simple() && g.optional ==> SlotsHeaders(s, g, g.members, slots) != [] || hs != []
    ensures var d := EmitAll(SlotsHeaders(s, g, g.members, slots)) + EmitAll(hs);
            var r := DecodeGroup(s, g, d, known);
            && (SlotsClean(s, g, g.members, slots) ==> r.Ok? && r.value.0 == slots && r.value.1 == EmitAll(hs))
            && (!SlotsClean(s, g, g.members, slots) && r.Ok? ==> !InOrder(g) && LeftAt(g.members, r.value.1))
  {
    hide Good, SlotsWellFormed, SlotsHeaders, SlotsClean, SlotsLaw, AllAway, AllSizesExact, EmitAll, DecodeSimple,
         DecodeChoice, DecodeLoop, SmallestMin, HasTlv, HasTv, Distinct;
    if g.Simple() {
      SimpleStep(s, g, slots, hs, known);
    } else if g.Exclusive() {
      var k :| 0 <= k < |slots| && |slots[k].items| == 1
               && forall j :: 0 <= j < |slots| && j != k ==> slots[j].items == [];
      ChoiceStep(s, g, slots, k, hs);
    } else {
      LoopStep(s, g, slots, hs);
    }
  }

  lemma LoopStep(s: Schema, g: Group, slots: seq<Slot>, hs: seq<ParamHeader>)
    requires Good(s) && Refers(s, g.members) && Looped(g) && AllAway(g, hs)
    requires Shape(g, slots) && SlotsWellFormed(s, g.members, slots) && SlotsLaw(s, g, g.members, slots)
    requires AllSizesExact(hs) && AllFit(hs)
    ensures var d := EmitAll(SlotsHeaders(s, g, g.members, slots)) + EmitAll(hs);
            var r := DecodeLoop(s, g, EmptySlots(|g.members|), d);
            && (SlotsClean(s, g, g.members, slots) ==> r == Ok((slots, EmitAll(hs))))
            && (!SlotsClean(s, g, g.members, slots) ==> r.IsFailure())
  {
    hide Good, SlotsWellFormed, SlotsHeaders, SlotsClean, SlotsLaw, AllAway, AllSizesExact, EmitAll, DecodeLoop,
         Looped,
         Distinct;
    GoodIsClosed(s);
    assert g.members[0..] == g.members && slots[0..] == slots;
    LoopSlots(s, g, slots, 0, EmptySlots(|g.members|), EmitAll(hs));
    LoopStopsHere(s, g, slots, hs);
  }

  lemma SimpleStep(s: Schema, g: Group, slots: seq<Slot>, hs: seq<ParamHeader>, known: int)
    requires Good(s) && Refers(s, g.members) && g.Simple() && g.members != [] && Distinct(g.members)
    requires InOrder(g) || AllAway(g, hs)
    requires Shape(g, slots) && SlotsWellFormed(s, g.members, slots) && SlotsLaw(s, g, g.members, slots)
    requires AllSizesExact(hs) && AllFit(hs)
    requires g.optional ==> SlotsHeaders(s, g, g.members, slots) != [] || hs != []
    ensures Closed(s)
    ensures var d := EmitAll(SlotsHeaders(s, g, g.members, slots)) + EmitAll(hs);
            var r := DecodeSimple(s, g, g.members, d, known);
            && (SlotsClean(s, g, g.members, slots) ==> r.Ok? && r.value.0 == slots && r.value.1 == EmitAll(hs))
            && (!SlotsClean(s, g, g.members, slots) && r.Ok? ==> !InOrder(g) && LeftAt(g.members, r.value.1))
  {
    hide Good, SlotsWellFormed, SlotsHeaders, SlotsClean, SlotsLaw, AllAway, AllSizesExact, EmitAll, DecodeSimple,
         LeftAt;
    GoodIsClosed(s);
    SlotsLength(s, g.members, slots);
    if g.optional && slots[0].items == [] {
      NothingAfter(s, g, g.members, slots);
    }
    if g.optional {
      if HasTv(g.members) {
        OptionalTv(s, g, slots, hs, known);
      } else {
        OptionalTlv(s, g, slots, hs, known);
      }
    } else if g.Exclusive() {
      assert OnlyAt(slots, 0);
      ExclusiveAlone(s, g, slots, hs, known);
    } else if HasTv(g.members) {
      RequiredTv(s, g, g.members, slots, EmitAll(hs), known);
    } else {
      RequiredRun(s, g, g.members, slots, EmitAll(hs), known);
    }
  }

  lemma ExclusiveAlone(s: Schema, g: Group, slots: seq<Slot>, hs: seq<ParamHeader>, known: int)
    requires Good(s) && Refers(s, g.members) && g.Exclusive() && |g.members| == 1 && g.Simple()
    requires OnlyAt(slots, 0) && SlotsWellFormed(s, g.members, slots) && SlotsLaw(s, g, g.members, slots)
    requires AllAway(g, hs) && AllSizesExact(hs) && AllFit(hs)
    ensures Closed(s)
    ensures var r := DecodeSimple(s, g, g.members, EmitAll(SlotsHeaders(s, g, g.members, slots)) + EmitAll(hs), known);
            && (SlotsClean(s, g, g.members, slots) ==> r.Ok? && r.value.0 == slots && r.value.1 == EmitAll(hs))
            && (!SlotsClean(s, g, g.members, slots) && r.Ok? ==> LeftAt(g.members, r.value.1))
  {
    hide Good, SlotsWellFormed, SlotsHeaders, SlotsClean, ItemsHeaders, ItemsClean, ItemsWellFormed, Selected,
         AllAway, AllSizesExact, DecodeSimple, Law, LeftAt;
    GoodIsClosed(s);
    SlotsLength(s, g.members, slots);
    var v := slots[0].items[0];
    assert slots[0].items == [v];
    OnlySlotHeaders(s, g, g.members, slots, 0);
    if Selected(v) {
      if HasTv(g.members) {
        RequiredTv(s, g, g.members, slots, EmitAll(hs), known);
      } else {
        RequiredRun(s, g, g.members, slots, EmitAll(hs), known);
      }
    } else {
      SingleItem(s, g, g.members[0], v);
      assert [] + EmitAll(hs) == EmitAll(hs);
      if HasTv(g.members) {
        MissingTv(s, g, hs, known);
      } else {
        RequiredMissing(s, g, hs, known);
      }
    }
  }

  // ---- nothing on the wire ----

  lemma EmitsSomething(h: ParamHeader)
    ensures |Emit(h)| > 0
  {}

  lemma NoBytesNoHeaders(hs: seq<ParamHeader>)
    requires EmitAll(hs) == []
    ensures hs == []
  {
    if hs != [] {
      EmitsSomething(hs[0]);
    }
  }

  lemma {:induction false} NoHeadersNoItems(s: Schema, g: Group, ids: seq<nat>, slots: seq<Slot>)
    requires SlotsWellFormed(s, ids, slots) && !g.Exclusive() && SlotsHeaders(s, g, ids, slots) == []
    ensures forall j :: 0 <= j < |slots| ==> slots[j].items == []
    decreases slots
  {
    hide WellFormed, HeaderOf, Selected;
    if ids == [] {
    } else {
      assert slots[0].items == [];
      NoHeadersNoItems(s, g, ids[1..], slots[1..]);
    }
  }

  /** Optional groups that print nothing hold nothing. */
  lemma {:induction false} EmptyOptionalGroups(s: Schema, gs: seq<Group>, gvs: seq<GroupValue>)
    requires GroupsWellFormed(s, gs, gvs) && AllOptional(gs) && GroupsHeaders(s, gs, gvs) == []
    ensures gvs == EmptyGroups(gs) && GroupsClean(s, gs, gvs)
    decreases gvs
  {
    hide SlotsWellFormed, SlotsHeaders, SlotsClean;
    if gs == [] {
    } else {
      NoHeadersNoItems(s, gs[0], gs[0].members, gvs[0].slots);
      NothingAfter(s, gs[0], gs[0].members, gvs[0].slots);
      EmptyOptionalGroups(s, gs[1..], gvs[1..]);
      SlotsLength(s, gs[0].members, gvs[0].slots);
      assert gvs[0].slots == EmptySlots(|gs[0].members|);
      assert [gvs[0]] + gvs[1..] == gvs;
    }
  }

  /** A required group that prints nothing has lost its selected member. */
  lemma RequiredPrints(s: Schema, g: Group, slots: seq<Slot>)
    requires Shape(g, slots) && SlotsWellFormed(s, g.members, slots) && g.members != [] && !g.optional
    requires SlotsClean(s, g, g.members, slots)
    ensures SlotsHeaders(s, g, g.members, slots) != []
  {
    hide SlotsWellFormed, SlotsHeaders, SlotsClean, ItemsHeaders, ItemsClean, ItemsWellFormed, Selected;
    if g.Exclusive() {
      var k :| 0 <= k < |slots| && |slots[k].items| == 1
               && forall j :: 0 <= j < |slots| && j != k ==> slots[j].items == [];
      OnlySlotHeaders(s, g, g.members, slots, k);
      assert slots[k].items == [slots[k].items[0]];
      OneItemPrints(s, g, g.members[k], slots[k].items[0]);
    } else {
      SlotsLength(s, g.members, slots);
      assert slots[0].items != [];
      if SlotsHeaders(s, g, g.members, slots) == [] {
        NoHeadersNoItems(s, g, g.members, slots);
      }
    }
  }

  lemma OneItemPrints(s: Schema, g: Group, id: nat, v: Value)
    requires ItemsWellFormed(s, id, [v]) && ItemsClean(s, g, id, [v])
    ensures ItemsHeaders(s, g, id, [v]) != []
  {}

  lemma {:induction false} CleanRequiredPrints(s: Schema, gs: seq<Group>, gvs: seq<GroupValue>)
    requires GroupsWellFormed(s, gs, gvs) && GroupsGood(gs) && !AllOptional(gs) && GroupsClean(s, gs, gvs)
    ensures GroupsHeaders(s, gs, gvs) != []
    decreases gvs
  {
    hide SlotsWellFormed, SlotsHeaders, SlotsClean, Shape;
    if gs[0].optional {
      CleanRequiredPrints(s, gs[1..], gvs[1..]);
    } else {
      RequiredPrints(s, gs[0], gvs[0].slots);
    }
  }

  // ---- all groups of a container ----

  ghost predicate GroupsLaw(s: Schema, gs: seq<Group>, gvs: seq<GroupValue>)
    requires Closed(s)
  {
    |gs| == |gvs| && forall i :: 0 <= i < |gs| ==> SlotsLaw(s, gs[i], gs[i].members, gvs[i].slots)
  }

  lemma {:induction false} GroupsRoundTrip(s: Schema, gs: seq<Group>, gvs: seq<GroupValue>, known: int, leftover: bool)
    requires Good(s) && GroupsRefer(s, gs) && GroupsGood(gs) && Visible(s, gs)
    requires GroupsWellFormed(s, gs, gvs) && GroupsLaw(s, gs, gvs)
    requires AllFit(GroupsHeaders(s, gs, gvs))
    requires gs != [] ==> leftover
    ensures var r := DecodeGroups(s, gs, EmitAll(GroupsHeaders(s, gs, gvs)), known, leftover);
            && (GroupsClean(s, gs, gvs) ==> r == Ok(gvs))
            && (!GroupsClean(s, gs, gvs) ==> r.IsFailure())
    decreases gvs
  {
    hide Good, GroupsGood, SlotsWellFormed, SlotsHeaders, SlotsClean, SlotsLaw, Shape, DecodeGroup, Emit, Distinct,
         AllAway, AllSizesExact, HasTv, EmptyGroups, Visible;
    var hs := GroupsHeaders(s, gs, gvs);
    var data := EmitAll(hs);
    if gs == [] {
    } else if data == [] && AllOptional(gs) {
      NoBytesNoHeaders(hs);
      EmptyOptionalGroups(s, gs, gvs);
    } else if data == [] && gs[0].optional && gs[0].Simple() {
      NoBytesNoHeaders(hs);
      if GroupsClean(s, gs, gvs) {
        CleanRequiredPrints(s, gs, gvs);
      }
      NothingForSimple(s, gs[0], known);
    } else {
      OneGroupThenOthers(s, gs, gvs, known, leftover);
    }
  }

  lemma NothingForSimple(s: Schema, g: Group, known: int)
    requires Good(s) && Refers(s, g.members) && g.Simple() && g.optional
    ensures Closed(s) && DecodeGroup(s, g, [], known).IsFailure()
  {
    hide Good, ReadMember, ReadValue;
    GoodIsClosed(s);
    OneThenNone(s, g, [], known);
  }

  lemma {:induction false} OneGroupThenOthers(s: Schema, gs: seq<Group>, gvs: seq<GroupValue>, known: int,
                                              leftover: bool)
    requires Good(s) && GroupsRefer(s, gs) && GroupsGood(gs) && Visible(s, gs)
    requires GroupsWellFormed(s, gs, gvs) && GroupsLaw(s, gs, gvs)
    requires gs != [] && leftover
    requires var data := EmitAll(GroupsHeaders(s, gs, gvs));
             data == [] ==> !AllOptional(gs) && !(gs[0].optional && gs[0].Simple())
    requires AllFit(GroupsHeaders(s, gs, gvs))
    ensures var r := DecodeGroups(s, gs, EmitAll(GroupsHeaders(s, gs, gvs)), known, leftover);
            && (GroupsClean(s, gs, gvs) ==> r == Ok(gvs))
            && (!GroupsClean(s, gs, gvs) ==> r.IsFailure())
    decreases gvs, 0
  {
    hide Good, GroupsGood, SlotsWellFormed, SlotsHeaders, SlotsClean, SlotsLaw, Shape, DecodeGroup, Emit, EmitAll,
         Distinct, AllAway, AllSizesExact, HasTv, AwayFrom, EmptyGroups, Visible, LeftAt, Apart;
    var g, slots := gs[0], gvs[0].slots;
    var hs0, hs := SlotsHeaders(s, g, g.members, slots), GroupsHeaders(s, gs[1..], gvs[1..]);
    EmitAllConcat(hs0, hs);
    var d := EmitAll(hs0) + EmitAll(hs);
    FirstGroup(s, gs, gvs, known);
    var r := DecodeGroup(s, g, d, known);
    if r.Ok? {
      if !SlotsClean(s, g, g.members, slots) {
        NotFoundLater(s, g, gs[1..], r.value.1);
        StaysLeft(s, gs[1..], r.value.1, r.value.2);
      } else {
        FitParts(hs0, hs);
        GroupsRoundTrip(s, gs[1..], gvs[1..], r.value.2, leftover);
        assert [GroupValue(slots)] + gvs[1..] == gvs;
      }
    }
  }

  /** `GroupStep` for the first of several groups. */
  lemma FirstGroup(s: Schema, gs: seq<Group>, gvs: seq<GroupValue>, known: int)
    requires Good(s) && GroupsRefer(s, gs) && GroupsGood(gs) && Visible(s, gs)
    requires GroupsWellFormed(s, gs, gvs) && GroupsLaw(s, gs, gvs)
    requires gs != [] && |gs| == |gvs|
    requires var data := EmitAll(GroupsHeaders(s, gs, gvs));
             data == [] ==> !AllOptional(gs) && !(gs[0].optional && gs[0].Simple())
    requires AllFit(GroupsHeaders(s, gs, gvs))
    ensures GroupsGood(gs[1..]) && Visible(s, gs[1..]) && Closed(s)
    ensures var g, slots := gs[0], gvs[0].slots;
            var hs := GroupsHeaders(s, gs[1..], gvs[1..]);
            var d := EmitAll(SlotsHeaders(s, g, g.members, slots)) + EmitAll(hs);
            var r := DecodeGroup(s, g, d, known);
            && (SlotsClean(s, g, g.members, slots) ==> r.Ok? && r.value.0 == slots && r.value.1 == EmitAll(hs))
            && (!SlotsClean(s, g, g.members, slots) && r.Ok? ==> Apart(g, gs[1..]) && LeftAt(g.members, r.value.1))
  {
    hide Good, GroupsGood, SlotsWellFormed, SlotsHeaders, SlotsClean, SlotsLaw, Shape, DecodeGroup, Emit, EmitAll,
         Distinct, AllAway, AllSizesExact, HasTv, Apart, AwayFrom, EmptyGroups, GroupsClean, AllOptional, LeftAt,
         InOrder;
    var g, slots := gs[0], gvs[0].slots;
    var hs0, hs := SlotsHeaders(s, g, g.members, slots), GroupsHeaders(s, gs[1..], gvs[1..]);
    EmitAllConcat(hs0, hs);
    GoodParts(s);
    GroupsGoodHead(gs);
    GroupsSizesExact(s, gs[1..], gvs[1..]);
    VisibleNext(s, gs);
    if Apart(g, gs[1..]) {
      ApartIsBehind(s, gs);
      GroupsAway(s, g, gs[1..], gvs[1..]);
    }
    if hs0 == [] && hs == [] {
      NoHeadersNoBytes();
    }
    NoGroupsNoHeaderList(s, gs[1..], gvs[1..]);
    FitParts(hs0, hs);
    GroupStep(s, g, slots, hs, known);
  }

  lemma VisibleNext(s: Schema, gs: seq<Group>)
    requires gs != [] && Visible(s, gs)
    ensures Visible(s, gs[1..])
  {}

  /** A TV parameter that is left in the data is no member of a later group. */
  lemma NotFoundLater(s: Schema, g: Group, later: seq<Group>, data: seq<Byte>)
    requires Apart(g, later) && LeftAt(g.members, data)
    ensures data != [] && data[0] > 0x80
    ensures forall i :: 0 <= i < |later| ==> !LeftAt(later[i].members, data)
  {
    var id: nat := data[0] - 0x80;
    forall i, k | 0 <= i < |later| && 0 <= k < |later[i].members|
      ensures later[i].members[k] != id
    {
      assert AwayFrom(g, later[i].members[k]);
    }
  }

  lemma NoHeadersNoBytes()
    ensures EmitAll([]) == []
  {}

  lemma NoGroupsNoHeaderList(s: Schema, gs: seq<Group>, gvs: seq<GroupValue>)
    requires GroupsWellFormed(s, gs, gvs)
    ensures gs == [] ==> GroupsHeaders(s, gs, gvs) == []
  {}

  lemma GoodParts(s: Schema)
    requires Good(s)
    ensures Closed(s)
  {}

  // ---- whole parameters ----

  /** The data left after the fields is what the group decoder must account for. */
  lemma FieldsThenGroups(s: Schema, id: nat, v: Value)
    requires Good(s) && WellFormed(s, id, v)
    ensures Closed(s) && id in s && GroupsRefer(s, s[id].groups)
    ensures var c := s[id];
            var tail := EmitAll(GroupsHeaders(s, c.groups, v.groups));
            var r := DecodeFieldsFrom(c, 0, Body(s, id, v), 0);
            && r.Ok? && r.value.0 == v.fields
            && (c.groups != [] ==> r.value.1 == tail)
            && (c.groups == [] && ChecksLeftover(c) ==> |r.value.1| == Trailing(c.fields))
            && (c.groups == [] && !ChecksLeftover(c) ==> Delimited(c))
  {
    hide Good, WellFormed, FieldsOk, EncodeFields, DecodeFieldsFrom, EmitAll, GroupsHeaders, FieldOk, Trailing;
    FieldsOfValue(s, id, v);
    GoodContainer(s, id);
    var c := s[id];
    var tail := EmitAll(GroupsHeaders(s, c.groups, v.groups));
    NoGroupsNoHeaderList(s, c.groups, v.groups);
    NoHeadersNoBytes();
    assert c.fields[0..] == c.fields && v.fields[0..] == v.fields;
    assert [] + EncodeFields(c.fields, v.fields) + tail == Body(s, id, v);
    FieldsRoundTrip(c, v.fields, 0, [], tail);
    if c.fields == [] {
      NoFieldsDecode(c, Body(s, id, v));
      NoFieldsEncode(v.fields);
    }
    LeftBehindFields(c, v.fields, tail);
  }

  /** Without parameters, what is left over is what trails the last variable field. */
  lemma LeftBehindFields(c: Container, vs: seq<FieldValue>, tail: seq<Byte>)
    requires FieldsOk(c.fields, vs) && TailOk(c) && |c.fields| == |vs| && (c.groups == [] ==> tail == [])
    requires forall k :: 0 <= k < |c.fields| ==> FieldOk(c.fields[k])
    ensures c.groups == [] && ChecksLeftover(c) ==>
              var r := DecodeFieldsFrom(c, 0, EncodeFields(c.fields, vs) + tail, 0);
              r.Ok? && |r.value.1| == Trailing(c.fields)
    ensures c.groups == [] && !ChecksLeftover(c) ==> Delimited(c)
  {
    hide FieldsOk, EncodeFields, DecodeFieldsFrom, FieldOk;
    assert c.fields[0..] == c.fields && vs[0..] == vs;
    if c.groups == [] && ChecksLeftover(c) {
      TrailingStays(c, vs, 0, []);
      assert [] + EncodeFields(c.fields, vs) == EncodeFields(c.fields, vs) + tail;
    } else if c.fields != [] && c.fields[|c.fields| - 1].Remainder? {
      VariableLast(c.fields);
    }
  }

  lemma NoFieldsDecode(c: Container, data: seq<Byte>)
    requires c.fields == []
    ensures DecodeFieldsFrom(c, 0, data, 0) == Ok(([], data))
  {}

  /** The length guard at the head of `UnmarshalBinary` lets every clean encoding pass. */
  lemma GuardAdmits(s: Schema, id: nat, v: Value)
    requires Good(s) && WellFormed(s, id, v) && Clean(s, id, v)
    ensures id in s && s[id].minSize - HeaderSize(id) <= |Body(s, id, v)|
  {
    hide WellFormed, Clean, ContainerGood, Encode;
    FieldsOfValue(s, id, v);
    EncodeIsHeaderAndBody(s, id, v);
    HeaderTyp(s, id, v);
    assert MinSizeIsLower(s, id);
  }

  lemma CleanIsGroupsClean(s: Schema, id: nat, v: Value)
    ensures Clean(s, id, v) <==> id in s && Delimited(s[id]) && GroupsClean(s, s[id].groups, v.groups)
  {}

  /** The law for one value, given it for everything nested in it. */
  lemma LawFromParts(s: Schema, id: nat, v: Value)
    requires Good(s) && WellFormed(s, id, v) && |Encode(s, id, v)| <= 65535
    requires Closed(s) && GroupsLaw(s, s[id].groups, v.groups)
    ensures Law(s, id, v)
  {
    hide Good, WellFormed, FieldsOk, EncodeFields, DecodeFieldsFrom, DecodeGroups, EmitAll, GroupsHeaders, GroupsGood,
         Clean, GroupsClean, Encode, KnownAfter, Trailing;
    FieldsOfValue(s, id, v);
    GoodContainer(s, id);
    FieldsThenGroups(s, id, v);
    EncodeIsHeaderAndBody(s, id, v);
    ShortFits(GroupsHeaders(s, s[id].groups, v.groups));
    CleanIsGroupsClean(s, id, v);
    if Clean(s, id, v) {
      GuardAdmits(s, id, v);
    }
    var c := s[id];
    var rest := DecodeFieldsFrom(c, 0, Body(s, id, v), 0).value.1;
    var known := KnownAfter(c.fields, c.minSize - HeaderSize(id));
    NoGroupsNoHeaderList(s, c.groups, v.groups);
    NoHeadersNoBytes();
    if c.groups == [] {
      NoGroupsDecode(s, rest, known, ChecksLeftover(c), v.groups);
    } else {
      GroupsRoundTrip(s, c.groups, v.groups, known, ChecksLeftover(c));
    }
  }

  lemma NoGroupsDecode(s: Schema, rest: seq<Byte>, known: int, leftover: bool, gvs: seq<GroupValue>)
    requires Closed(s) && GroupsWellFormed(s, [], gvs)
    ensures GroupsClean(s, [], gvs)
    ensures DecodeGroups(s, [], rest, known, leftover) == if leftover && rest != [] then Reject else Ok(gvs)
  {}

  lemma EmitAllBounds(a: seq<ParamHeader>, b: seq<ParamHeader>)
    ensures |EmitAll(a)| <= |EmitAll(a + b)| && |EmitAll(b)| <= |EmitAll(a + b)|
  {
    EmitAllConcat(a, b);
  }

  /** Decoding what `MarshalBinary` returned gives the value back if, and only if, the value
      is clean: every other well-formed value that fits the wire is refused. */
  lemma {:induction false} RoundTripLaw(s: Schema, id: nat, v: Value)
    requires Good(s) && WellFormed(s, id, v) && |Encode(s, id, v)| <= 65535
    ensures Closed(s) && Law(s, id, v)
    ensures Marshalled(s, id, v) == Ok(Body(s, id, v))
    decreases v, 4
  {
    hide Good, FieldsOk, EncodeFields, EmitAll, GroupsHeaders, Law, GroupsLaw, Encode, AllMeasured, AllCompile,
         Marshalled;
    GoodContainer(s, id);
    EncodeIsHeaderAndBody(s, id, v);
    ShortFits(GroupsHeaders(s, s[id].groups, v.groups));
    GroupsLawHolds(s, s[id].groups, v.groups);
    LawFromParts(s, id, v);
    GoodIsMeasured(s);
    GeneratedIsSpecified(s, id, v);
  }

  /** A parameter without parameters of its own is read back if, and only if, it is of fixed
      size or no bytes trail its last variable field; otherwise every encoding is refused. */
  lemma ReadBackIffDelimited(s: Schema, id: nat, v: Value)
    requires Good(s) && WellFormed(s, id, v) && s[id].groups == [] && |Encode(s, id, v)| <= 65535
    ensures Closed(s)
    ensures var r := UnmarshalBinary(s, id, Body(s, id, v)); if Delimited(s[id]) then r == Ok(v) else r.IsFailure()
  {
    hide Good, Encode, Body, UnmarshalBinary, Delimited, FieldsOk;
    FieldsOfValue(s, id, v);
    RoundTripLaw(s, id, v);
    CleanIsGroupsClean(s, id, v);
    NoGroupsDecode(s, [], 0, false, v.groups);
  }

  /** A parameter whose `Remainder` is followed by anything on the wire is never read back. */
  lemma NothingBehindRemainder(s: Schema, id: nat, v: Value, i: nat)
    requires Closed(s) && WellFormed(s, id, v) && |v.fields| == |s[id].fields|
    requires GroupsWellFormed(s, s[id].groups, v.groups)
    requires i < |s[id].fields| && s[id].fields[i].Remainder? && forall k :: 0 <= k < i ==> !s[id].fields[k].Remainder?
    requires forall k :: 0 <= k < |s[id].fields| ==> FieldOk(s[id].fields[k])
    requires EncodeFields(s[id].fields[i + 1..], v.fields[i + 1..]) + EmitAll(GroupsHeaders(s, s[id].groups, v.groups))
             != []
    ensures UnmarshalBinary(s, id, Body(s, id, v)) != Ok(v)
  {
    hide FieldsOk, EncodeFields, EmitAll, GroupsHeaders, DecodeFieldsFrom, DecodeGroups, GroupsWellFormed, FieldOk;
    var c := s[id];
    var tail := EmitAll(GroupsHeaders(s, c.groups, v.groups));
    RemainderSwallows(c, v.fields, 0, i, [], tail);
    assert c.fields[0..] == c.fields && v.fields[0..] == v.fields;
    assert [] + EncodeFields(c.fields, v.fields) + tail == Body(s, id, v);
  }

  lemma {:induction false} GroupsLawHolds(s: Schema, gs: seq<Group>, gvs: seq<GroupValue>)
    requires Good(s) && GroupsWellFormed(s, gs, gvs) && AllFit(GroupsHeaders(s, gs, gvs))
    ensures Closed(s) && GroupsLaw(s, gs, gvs)
    decreases gvs, 3
  {
    hide Good, EmitAll, SlotsHeaders, SlotsWellFormed, SlotsLaw;
    GoodIsClosed(s);
    if gs == [] {
    } else {
      FitParts(SlotsHeaders(s, gs[0], gs[0].members, gvs[0].slots), GroupsHeaders(s, gs[1..], gvs[1..]));
      SlotsLawHolds(s, gs[0], gs[0].members, gvs[0].slots);
      GroupsLawHolds(s, gs[1..], gvs[1..]);
    }
  }

  lemma {:induction false} SlotsLawHolds(s: Schema, g: Group, ids: seq<nat>, slots: seq<Slot>)
    requires Good(s) && SlotsWellFormed(s, ids, slots) && AllFit(SlotsHeaders(s, g, ids, slots))
    ensures Closed(s) && SlotsLaw(s, g, ids, slots)
    decreases slots, 2
  {
    hide Good, EmitAll, ItemsHeaders, ItemsWellFormed, ItemsLaw;
    GoodIsClosed(s);
    if ids == [] {
    } else {
      FitParts(ItemsHeaders(s, g, ids[0], slots[0].items), SlotsHeaders(s, g, ids[1..], slots[1..]));
      ItemsLawHolds(s, g, ids[0], slots[0].items);
      SlotsLawHolds(s, g, ids[1..], slots[1..]);
    }
  }

  lemma {:induction false} ItemsLawHolds(s: Schema, g: Group, id: nat, items: seq<Value>)
    requires Good(s) && ItemsWellFormed(s, id, items) && AllFit(ItemsHeaders(s, g, id, items))
    ensures Closed(s) && ItemsLaw(s, g, id, items)
    decreases items, 1
  {
    hide Good, EmitAll, Law, WellFormed, HeaderOf, Selected;
    GoodIsClosed(s);
    if items == [] {
    } else {
      var first := if g.Exclusive() && !Selected(items[0]) then [] else [HeaderOf(s, id, items[0])];
      FitParts(first, ItemsHeaders(s, g, id, items[1..]));
      if first != [] {
        HeaderTyp(s, id, items[0]);
        assert |Emit(first[0])| <= 65535;
        RoundTripLaw(s, id, items[0]);
      }
      ItemsLawHolds(s, g, id, items[1..]);
    }
  }
}
