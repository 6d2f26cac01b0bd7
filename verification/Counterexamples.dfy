/** Schemas that the generator accepts and whose values its code does not read back. */
module Counterexamples {
  import opened Bytes
  import opened Outcomes
  import opened Fields
  import opened Schema
  import opened Encoder
  import opened HeaderCode
  import opened Decoder
  import opened RoundTrip
  import opened GroupRoundTrip
  import opened CodecLaw

  // ---- fixed fields behind the last variable one ----

  /** A count with its numbers, and then one more number. */
  function CountThenNumber(): Schema {
    map[200 := Container([Counted(1), Scalar(2)], [], 8, false)]
  }

  lemma CountThenNumberIsGood()
    ensures Good(CountThenNumber()) && !Delimited(CountThenNumber()[200])
  {
    NumberTrails([Counted(1), Scalar(2)]);
    hide Trailing;
  }

  lemma NumberTrails(fs: seq<Field>)
    requires fs == [Counted(1), Scalar(2)]
    ensures Trailing(fs) == 2 && !AllFixed(fs)
  {
    assert fs[1..] == [Scalar(2)] && fs[1..][1..] == [];
    assert !IsFixed(fs[0]) && AllFixed(fs[1..]) && Trailing(fs[1..][1..]) == 0;
    assert Trailing(fs[1..]) == MinSize(Scalar(2)) + Trailing(fs[1..][1..]);
    assert Trailing(fs) == Trailing(fs[1..]);
  }

  /** It is a good schema, and its code accepts no data at all, let alone an encoding. */
  lemma NumberIsLeftOver(v: Value, data: seq<Byte>)
    requires WellFormed(CountThenNumber(), 200, v) && |Encode(CountThenNumber(), 200, v)| <= 65535
    ensures Closed(CountThenNumber()) && Good(CountThenNumber())
    ensures Marshalled(CountThenNumber(), 200, v) == Ok(Body(CountThenNumber(), 200, v))
    ensures UnmarshalBinary(CountThenNumber(), 200, Body(CountThenNumber(), 200, v)).IsFailure()
    ensures UnmarshalBinary(CountThenNumber(), 200, data).IsFailure()
  {
    hide WellFormed, Encode, Body, UnmarshalBinary, Marshalled, Good, Delimited;
    CountThenNumberIsGood();
    RoundTripLaw(CountThenNumber(), 200, v);
    NothingAccepted(data);
  }

  lemma NothingAccepted(data: seq<Byte>)
    requires Closed(CountThenNumber())
    ensures UnmarshalBinary(CountThenNumber(), 200, data).IsFailure()
  {
    hide FromBigEndian, DecodeElems;
    var c := CountThenNumber()[200];
    var first := DecodeField(Counted(1), data, 0);
    if first.Ok? {
      var left := data[first.value.1..];
      var second := DecodeField(Scalar(2), left, 0);
      assert second.Ok? ==> |left| >= 2;
      assert DecodeFieldsFrom(c, 2, left, 2) == Ok(([], left));
    }
  }

  // ---- TV parameters behind a loop over TLV parameters ----

  /** Any number of one TLV parameter, and then two optional TV parameters. */
  function LoopThenTvs(): Schema {
    map[200 := Container([], [Group(true, true, "", [201]), Group(true, false, "", [1, 2])], 4, false),
        201 := Container([Scalar(2)], [], 6, true),
        1 := Container([Scalar(2)], [], 3, true),
        2 := Container([Scalar(2)], [], 3, true)]
  }

  function TwoTvs(m: nat, n: nat): Value {
    Value([], [GroupValue([Slot([])]), GroupValue([Slot([Value([Num(m)], [])]), Slot([Value([Num(n)], [])])])])
  }

  /** Everything is in order but for the kind of header behind the loop. */
  lemma LoopThenTvsLooksGood()
    ensures var s := LoopThenTvs();
            && Closed(s) && AllCompile(s) && AllMeasured(s) && AllVisible(s)
            && (forall id :: id in s ==> FieldsGood(id, s[id]) && Delimited(s[id]))
            && GroupGood(s[200].groups[0], []) && GroupGood(s[200].groups[1], [])
            && forall id :: id in s[200].groups[1].members ==> SeenAs(s[200].groups[0], id) !in s[200].groups[0].members
  {
    hide Compiles, Measured, Visible, FieldsGood, Delimited, GroupGood, SeenAs;
    var s := LoopThenTvs();
    LoopIsInOrder();
    NumberIsInOrder(201, 6);
    NumberIsInOrder(1, 3);
    NumberIsInOrder(2, 3);
  }

  lemma LoopIsInOrder()
    ensures var s, c := LoopThenTvs(), LoopThenTvs()[200];
            && Compiles(s, c) && Measured(c) && Visible(s, c.groups) && FieldsGood(200, c) && Delimited(c)
            && GroupGood(c.groups[0], []) && GroupGood(c.groups[1], [])
            && SeenAs(c.groups[0], 1) == 1 && SeenAs(c.groups[0], 2) == 2
  {
    var c := LoopThenTvs()[200];
    assert c.groups[1..] == [Group(true, false, "", [1, 2])] && c.groups[1..][1..] == [];
  }

  lemma NumberIsInOrder(id: nat, size: nat)
    requires 0 < id < 0x8000
    ensures var s, c := LoopThenTvs(), Container([Scalar(2)], [], size, true);
            Compiles(s, c) && Measured(c) && Visible(s, c.groups) && FieldsGood(id, c) && Delimited(c)
  {}

  lemma TwoTvsFit(m: nat, n: nat)
    requires m < 0x1_0000 && n < 0x1_0000
    ensures WellFormed(LoopThenTvs(), 200, TwoTvs(m, n)) && Clean(LoopThenTvs(), 200, TwoTvs(m, n))
  {
    var s, v := LoopThenTvs(), TwoTvs(m, n);
    var one, two := Value([Num(m)], []), Value([Num(n)], []);
    assert WellFormed(s, 1, one) && Clean(s, 1, one) && WellFormed(s, 2, two) && Clean(s, 2, two);
    assert ItemsWellFormed(s, 1, [one]) && ItemsWellFormed(s, 2, [two]);
    var g := s[200].groups[1];
    assert ItemsClean(s, g, 1, [one]) && ItemsClean(s, g, 2, [two]);
    assert SlotsWellFormed(s, [2], [Slot([two])]) && SlotsWellFormed(s, [1, 2], [Slot([one]), Slot([two])]);
    assert SlotsClean(s, g, [2], [Slot([two])]) && SlotsClean(s, g, [1, 2], [Slot([one]), Slot([two])]);
    assert GroupsWellFormed(s, [g], v.groups[1..]) && GroupsClean(s, [g], v.groups[1..]);
    assert s[200].groups[1..] == [g];
  }

  /** The encoding of two TV parameters, and what the loop makes of it: the second one's
      type and part of the first are taken for a length, which is more than there is. */
  lemma LoopTakesTvForLength(m: nat, n: nat)
    requires m < 0x1_0000 && n < 0x1_0000
    ensures var s, v := LoopThenTvs(), TwoTvs(m, n);
            && Closed(s) && WellFormed(s, 200, v) && Clean(s, 200, v)
            && Body(s, 200, v) == [0x81, m / 256, m % 256, 0x82, n / 256, n % 256]
            && UnmarshalBinary(s, 200, Body(s, 200, v)) == Reject
  {
    hide WellFormed, Clean, Body, UnmarshalBinary;
    TwoTvsFit(m, n);
    TwoTvsPrint(m, n);
    LoopRejects([0x81, m / 256, m % 256, 0x82, n / 256, n % 256]);
  }

  lemma TvPrints(id: nat, n: nat)
    requires (id == 1 || id == 2) && n < 0x1_0000
    ensures var s, v := LoopThenTvs(), Value([Num(n)], []);
            WellFormed(s, id, v) && Encode(s, id, v) == [0x80 + id, n / 256, n % 256]
  {
    var s, v := LoopThenTvs(), Value([Num(n)], []);
    assert s[id].fields == [Scalar(2)] && s[id].groups == [] && WellFormed(s, id, v);
    EncodeIsHeaderAndBody(s, id, v);
    HeaderTyp(s, id, v);
    NumberPrints(s, id, n);
    hide *;
  }

  lemma NumberPrints(s: Schema, id: nat, n: nat)
    requires id in s && s[id].fields == [Scalar(2)] && s[id].groups == [] && IsTv(id) && n < 0x1_0000
    requires WellFormed(s, id, Value([Num(n)], []))
    ensures Body(s, id, Value([Num(n)], [])) == [n / 256, n % 256]
    ensures HeaderBytes(HeaderOf(s, id, Value([Num(n)], []))) == [0x80 + id]
  {
    hide BigEndian, EncodeFields, WellFormed, HeaderOf, Body, Encode, GroupsHeaders;
    BigEndian2(n);
    NumberAlone(n);
    NoGroupsBody(s, id, Value([Num(n)], []));
    HeaderTyp(s, id, Value([Num(n)], []));
  }

  lemma NumberAlone(n: nat)
    ensures EncodeFields([Scalar(2)], [Num(n)]) == BigEndian(n, 2)
  {
    hide BigEndian;
    var fs, vs := [Scalar(2)], [Num(n)];
    assert fs[1..] == [] && vs[1..] == [];
    assert EncodeFields(fs, vs) == BigEndian(n, 2) + [];
  }

  lemma TwoTvsPrint(m: nat, n: nat)
    requires m < 0x1_0000 && n < 0x1_0000 && WellFormed(LoopThenTvs(), 200, TwoTvs(m, n))
    ensures Body(LoopThenTvs(), 200, TwoTvs(m, n)) == [0x81, m / 256, m % 256, 0x82, n / 256, n % 256]
  {
    var s, v := LoopThenTvs(), TwoTvs(m, n);
    TvPrints(1, m);
    TvPrints(2, n);
    GroupsPrint(s, s[200].groups, v.groups);
    TwoSlotsPrint(s, s[200].groups[1], [1, 2], v.groups[1].slots);
    NoFieldsEncode(v.fields);
    hide *;
    assert [] + (Encode(s, 1, Value([Num(m)], [])) + Encode(s, 2, Value([Num(n)], [])))
           == [0x81, m / 256, m % 256, 0x82, n / 256, n % 256];
  }

  lemma TwoSlotsPrint(s: Schema, g: Group, ids: seq<nat>, slots: seq<Slot>)
    requires |ids| == 2 && SlotsWellFormed(s, ids, slots) && !g.Exclusive()
    requires |slots| == 2 && |slots[0].items| == 1 == |slots[1].items|
    ensures WellFormed(s, ids[0], slots[0].items[0]) && WellFormed(s, ids[1], slots[1].items[0])
    ensures EmitAll(SlotsHeaders(s, g, ids, slots))
            == Encode(s, ids[0], slots[0].items[0]) + Encode(s, ids[1], slots[1].items[0])
  {
    hide WellFormed, HeaderOf, Emit;
    var a, b := slots[0].items[0], slots[1].items[0];
    assert slots[0].items == [a] && slots[1].items == [b] && ids[1..][1..] == [] && slots[1..][1..] == [];
    assert SlotsWellFormed(s, ids[1..], slots[1..]);
    assert ItemsWellFormed(s, ids[0], [a]) && ItemsWellFormed(s, ids[1], [b]) && [a][1..] == [] && [b][1..] == [];
    assert ItemsHeaders(s, g, ids[0], [a]) == [HeaderOf(s, ids[0], a)];
    assert ItemsHeaders(s, g, ids[1], [b]) == [HeaderOf(s, ids[1], b)];
    assert SlotsHeaders(s, g, ids[1..], slots[1..]) == [HeaderOf(s, ids[1], b)];
    EmitAllConcat([HeaderOf(s, ids[0], a)], [HeaderOf(s, ids[1], b)]);
    EmitAllSingle(HeaderOf(s, ids[0], a));
    EmitAllSingle(HeaderOf(s, ids[1], b));
  }

  lemma GroupsPrint(s: Schema, gs: seq<Group>, gvs: seq<GroupValue>)
    requires |gs| == 2 && GroupsWellFormed(s, gs, gvs)
    requires forall k :: 0 <= k < |gvs[0].slots| ==> gvs[0].slots[k].items == []
    ensures SlotsWellFormed(s, gs[1].members, gvs[1].slots)
    ensures EmitAll(GroupsHeaders(s, gs, gvs)) == EmitAll(SlotsHeaders(s, gs[1], gs[1].members, gvs[1].slots))
  {
    hide SlotsWellFormed, SlotsHeaders, EmitAll, Shape;
    assert gs[1..][1..] == [] && gvs[1..][1..] == [] && gs[1..][0] == gs[1] && gvs[1..][0] == gvs[1];
    assert GroupsWellFormed(s, gs[1..], gvs[1..]) && GroupsWellFormed(s, gs[1..][1..], gvs[1..][1..]);
    NothingAfter(s, gs[0], gs[0].members, gvs[0].slots);
    var hs := SlotsHeaders(s, gs[1], gs[1].members, gvs[1].slots);
    assert GroupsHeaders(s, gs[1..], gvs[1..]) == hs + [];
    assert GroupsHeaders(s, gs, gvs) == [] + (hs + []);
    assert [] + (hs + []) == hs;
  }

  lemma LoopRejects(data: seq<Byte>)
    requires |data| == 6 && data[0] == 0x81 && data[3] == 0x82 && Closed(LoopThenTvs())
    ensures UnmarshalBinary(LoopThenTvs(), 200, data) == Reject
  {
    var s, c := LoopThenTvs(), LoopThenTvs()[200];
    assert U16At(data, 2) > 6;
    assert DecodeFieldsFrom(c, 0, data, 0) == Ok(([], data));
    assert Refers(s, [201]) && DecodeLoop(s, c.groups[0], EmptySlots(1), data) == Reject;
    assert DecodeGroup(s, c.groups[0], data, 0) == Reject;
    hide DecodeGroup;
    assert DecodeGroups(s, c.groups, data, 0, true) == Reject;
  }

  // ---- a TV parameter of one byte behind a single optional TLV parameter ----

  /** An optional TLV parameter, and then an optional TV parameter without fields. */
  function OptionalThenEmptyTv(): Schema {
    map[200 := Container([], [Group(true, false, "", [201]), Group(true, true, "", [1])], 4, false),
        201 := Container([Scalar(2)], [], 6, true),
        1 := Container([], [], 1, true)]
  }

  function EmptyTv(): Value {
    Value([], [GroupValue([Slot([])]), GroupValue([Slot([Value([], [])])])])
  }

  lemma EmptyTvFits()
    ensures var s, v := OptionalThenEmptyTv(), EmptyTv();
            && WellFormed(s, 200, v) && Clean(s, 200, v) && GroupsWellFormed(s, s[200].groups, v.groups)
            && WellFormed(s, 1, Value([], [])) && SlotsWellFormed(s, [1], [Slot([Value([], [])])])
  {
    var s, v, none := OptionalThenEmptyTv(), EmptyTv(), Value([], []);
    assert WellFormed(s, 1, none) && Clean(s, 1, none);
    var g, slots := s[200].groups[1], [Slot([none])];
    assert [none][1..] == [] && slots[1..] == [] && g.members[1..] == [];
    assert ItemsWellFormed(s, 1, [none]) && ItemsClean(s, g, 1, [none]);
    assert SlotsWellFormed(s, [1], slots) && SlotsClean(s, g, [1], slots);
    assert s[200].groups[1..] == [g] && v.groups[1..] == [GroupValue(slots)];
    assert [g][1..] == [] && v.groups[1..][1..] == [];
    assert GroupsWellFormed(s, [g], v.groups[1..]) && GroupsClean(s, [g], v.groups[1..]);
  }

  lemma EmptyTvPrints()
    requires WellFormed(OptionalThenEmptyTv(), 200, EmptyTv())
    ensures Body(OptionalThenEmptyTv(), 200, EmptyTv()) == [0x81]
  {
    var s, v, none := OptionalThenEmptyTv(), EmptyTv(), Value([], []);
    EmptyTvFits();
    var g, slots := s[200].groups[1], [Slot([none])];
    GroupsPrint(s, s[200].groups, v.groups);
    assert OnlyAt(slots, 0);
    OnlySlotHeaders(s, g, [1], slots, 0);
    SingleItem(s, g, 1, none);
    EncodeIsHeaderAndBody(s, 1, none);
    HeaderTyp(s, 1, none);
    NothingPrints(s);
    NoFieldsEncode(v.fields);
    hide *;
  }

  lemma NothingPrints(s: Schema)
    requires 1 in s && s[1].fields == [] && s[1].groups == [] && WellFormed(s, 1, Value([], []))
    ensures Body(s, 1, Value([], [])) == [] && HeaderBytes(HeaderOf(s, 1, Value([], []))) == [0x81]
  {}

  /** Two bytes are looked at where there is only one. */
  lemma EmptyTvPanics()
    ensures var s, v := OptionalThenEmptyTv(), EmptyTv();
            && Closed(s) && WellFormed(s, 200, v) && Clean(s, 200, v)
            && UnmarshalBinary(s, 200, Body(s, 200, v)) == Panic
  {
    EmptyTvFits();
    EmptyTvPrints();
    OneByteIsTooFew([0x81]);
    hide *;
  }

  lemma OneByteIsTooFew(data: seq<Byte>)
    requires |data| == 1
    ensures Closed(OptionalThenEmptyTv()) && UnmarshalBinary(OptionalThenEmptyTv(), 200, data) == Panic
  {
    var s, c := OptionalThenEmptyTv(), OptionalThenEmptyTv()[200];
    assert DecodeFieldsFrom(c, 0, data, 0) == Ok(([], data));
    assert Refers(s, [201]) && DecodeOne(s, 201, true, data) == Panic;
    assert DecodeSimple(s, c.groups[0], [201], data, 0) == Panic;
    assert DecodeGroup(s, c.groups[0], data, 0) == Panic;
    hide DecodeGroup;
    assert DecodeGroups(s, c.groups, data, 0, true) == Panic;
  }
}
