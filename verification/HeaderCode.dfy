/** The generated `getHeader` and `MarshalBinary` of parameters, in the shapes the generator
    gives them, and for which parameters they do what they should. */
module HeaderCode {
  import opened Bytes
  import opened Outcomes
  import opened Fields
  import opened Schema
  import opened Encoder

  // ---- which code is generated ----

  /** `exactly_one`. */
  predicate ExactlyOne(g: Group) {
    !g.optional && !g.repeatable && g.name == ""
  }

  predicate HasExactlyOne(gs: seq<Group>) {
    exists i :: 0 <= i < |gs| && ExactlyOne(gs[i])
  }

  predicate HasChoice(gs: seq<Group>) {
    exists i :: 0 <= i < |gs| && gs[i].Exclusive()
  }

  /** A variable field and only required parameters: the method returns after adding the
      variable terms once more, and the sizes of sub-parameters that it never collected. */
  predicate ReturnsEarly(c: Container) {
    c.groups != [] && !c.fixed && !AllFixed(c.fields) && !Open(c.groups)
  }

  /** A member of an exclusive group is compared with zero if it is inlined, otherwise its
      fields are all compared with nil, which Go allows for slices only. A single bit is a
      bool, which Go does not compare with zero. */
  predicate Testable(c: Container) {
    if CanInline(c) then c.fields[0].Scalar? || c.fields[0].parts[0].width > 1
    else
      c.fields != []
      && forall i :: 0 <= i < |c.fields| ==>
           c.fields[i].Block? || c.fields[i].Counted? || c.fields[i].BitString? || c.fields[i].Remainder?
  }

  /** Go accepts the method: a fixed-size parameter has nothing but required parameters, or
      the method has no return statement; a counter is declared only if it is used; and the
      members of exclusive groups can be tested. */
  predicate Compiles(s: Schema, c: Container) {
    && (forall i :: 0 <= i < |c.groups| ==> c.groups[i].members != [])
    && (c.fixed ==> forall i :: 0 <= i < |c.groups| ==> ExactlyOne(c.groups[i]))
    && (!c.fixed && !Open(c.groups) ==> !HasExactlyOne(c.groups) || !HasChoice(c.groups))
    && (forall i, k :: 0 <= i < |c.groups| && c.groups[i].Exclusive() && 0 <= k < |c.groups[i].members| ==>
          c.groups[i].members[k] in s && Testable(s[c.groups[i].members[k]]))
  }

  predicate AllCompile(s: Schema) {
    forall id :: id in s ==> Compiles(s, s[id])
  }

  predicate AllMeasured(s: Schema) {
    forall id :: id in s ==> Measured(s[id])
  }

  // ---- what it returns ----

  function Joined(a: Outcome<seq<ParamHeader>>, b: Outcome<seq<ParamHeader>>): Outcome<seq<ParamHeader>> {
    if !a.Ok? then a else if !b.Ok? then b else Ok(a.value + b.value)
  }

  /** What the generated `getHeader` returns; indexing into the empty `subs` is a panic. */
  ghost function Generated(s: Schema, id: nat, v: Value): (r: Outcome<ParamHeader>)
    requires WellFormed(s, id, v)
    ensures r.Ok? || r == Panic
    decreases v, 1
  {
    var c := s[id];
    var terms := Terms(c.fields, v.fields);
    var own := U16(HeaderSize(id) + MinSizes(c.fields) + terms);
    var data := EncodeFields(c.fields, v.fields);
    if ReturnsEarly(c) then
      if HasExactlyOne(c.groups) then Panic else Ok(ParamHeader(id, U16(own + terms), data, []))
    else
      var subs :- GeneratedGroups(s, c.groups, v.groups);
      Ok(ParamHeader(id, if c.fixed then own else U16(own + SumSz(subs)), data, subs))
  }

  ghost function GeneratedGroups(s: Schema, gs: seq<Group>, gvs: seq<GroupValue>): (r: Outcome<seq<ParamHeader>>)
    requires GroupsWellFormed(s, gs, gvs)
    ensures r.Ok? || r == Panic
    decreases gvs, 0
  {
    if gs == [] then Ok([])
    else
      Joined(GeneratedSlots(s, gs[0], gs[0].members, gvs[0].slots), GeneratedGroups(s, gs[1..], gvs[1..]))
  }

  ghost function GeneratedSlots(s: Schema, g: Group, ids: seq<nat>, slots: seq<Slot>): (r: Outcome<seq<ParamHeader>>)
    requires SlotsWellFormed(s, ids, slots)
    ensures r.Ok? || r == Panic
    decreases slots, 0
  {
    if ids == [] then Ok([])
    else Joined(GeneratedItems(s, g, ids[0], slots[0].items), GeneratedSlots(s, g, ids[1..], slots[1..]))
  }

  ghost function GeneratedItems(s: Schema, g: Group, id: nat, items: seq<Value>): (r: Outcome<seq<ParamHeader>>)
    requires ItemsWellFormed(s, id, items)
    ensures r.Ok? || r == Panic
    decreases items, 0
  {
    if items == [] then Ok([])
    else Joined(GeneratedItem(s, g, id, items[0]), GeneratedItems(s, g, id, items[1..]))
  }

  ghost function GeneratedItem(s: Schema, g: Group, id: nat, v: Value): (r: Outcome<seq<ParamHeader>>)
    requires WellFormed(s, id, v)
    ensures r.Ok? || r == Panic
    decreases v, 2
  {
    if g.Exclusive() && !Selected(v) then Ok([])
    else
      var h :- Generated(s, id, v);
      Ok([h])
  }

  /** What the generated `MarshalBinary` returns. */
  ghost function Marshalled(s: Schema, id: nat, v: Value): Outcome<seq<Byte>>
    requires WellFormed(s, id, v)
  {
    var h :- Generated(s, id, v);
    Ok(Emit(h)[HeaderSize(h.typ)..])
  }

  // ---- where that is right ----

  /** If every parameter is measured, `getHeader` returns the specified tree. */
  lemma {:induction false} GeneratedIsSpecified(s: Schema, id: nat, v: Value)
    requires AllMeasured(s) && WellFormed(s, id, v)
    ensures Generated(s, id, v) == Ok(HeaderOf(s, id, v))
    ensures Marshalled(s, id, v) == Ok(Body(s, id, v))
    decreases v, 1
  {
    hide *;
    GeneratedUnfolds(s, id, v);
    HeaderOfUnfolds(s, id, v);
    assert Measured(s[id]) by {
      MeasuredHere(s, id);
    }
    MeasuredReturns(s[id]);
    GeneratedGroupsSpecified(s, s[id].groups, v.groups);
    NoGroupsNoHeaders(s, s[id].groups, v.groups);
    U16Twice(HeaderSize(id) + MinSizes(s[id].fields) + Terms(s[id].fields, v.fields));
    EncodeIsHeaderAndBody(s, id, v);
    HeaderTypIs(s, id, v);
    MarshalledUnfolds(s, id, v);
    EncodeIsEmitted(s, id, v);
  }

  lemma MeasuredHere(s: Schema, id: nat)
    requires AllMeasured(s) && id in s
    ensures Measured(s[id])
  {}

  lemma MeasuredReturns(c: Container)
    requires Measured(c)
    ensures !ReturnsEarly(c) && (c.fixed ==> c.groups == [])
  {}

  lemma NoGroupsNoHeaders(s: Schema, gs: seq<Group>, gvs: seq<GroupValue>)
    requires GroupsWellFormed(s, gs, gvs)
    ensures gs == [] ==> GroupsHeaders(s, gs, gvs) == [] && SumSz([]) == 0
  {}

  lemma U16Twice(n: nat)
    ensures U16(U16(n) + 0) == U16(n)
  {}

  lemma MarshalledUnfolds(s: Schema, id: nat, v: Value)
    requires WellFormed(s, id, v)
    ensures var h := Generated(s, id, v);
            && (h.Ok? ==> Marshalled(s, id, v) == Ok(Emit(h.value)[HeaderSize(h.value.typ)..]))
            && (!h.Ok? ==> Marshalled(s, id, v) == Panic)
  {
    hide Generated, HeaderSize;
    assert Generated(s, id, v).Ok? ==> |HeaderBytes(Generated(s, id, v).value)| <= |Emit(Generated(s, id, v).value)|;
  }

  lemma EncodeIsEmitted(s: Schema, id: nat, v: Value)
    requires WellFormed(s, id, v)
    ensures Encode(s, id, v) == Emit(HeaderOf(s, id, v))
  {
    hide Emit, HeaderOf;
  }

  lemma GeneratedUnfolds(s: Schema, id: nat, v: Value)
    requires WellFormed(s, id, v)
    ensures id in s && |s[id].fields| == |v.fields| && GroupsWellFormed(s, s[id].groups, v.groups)
    ensures var c := s[id];
            var terms := Terms(c.fields, v.fields);
            var own := U16(HeaderSize(id) + MinSizes(c.fields) + terms);
            var data := EncodeFields(c.fields, v.fields);
            var subs := GeneratedGroups(s, c.groups, v.groups);
            Generated(s, id, v)
            == if ReturnsEarly(c) then
                 if HasExactlyOne(c.groups) then Panic else Ok(ParamHeader(id, U16(own + terms), data, []))
               else if !subs.Ok? then Panic
               else Ok(ParamHeader(id, if c.fixed then own else U16(own + SumSz(subs.value)), data, subs.value))
  {
    hide GeneratedGroups, Terms, MinSizes, EncodeFields, ReturnsEarly, HasExactlyOne, SumSz, FieldsOk;
    FieldsAligned(s[id].fields, v.fields);
  }

  lemma {:induction false} GeneratedGroupsSpecified(s: Schema, gs: seq<Group>, gvs: seq<GroupValue>)
    requires AllMeasured(s) && GroupsWellFormed(s, gs, gvs)
    ensures GeneratedGroups(s, gs, gvs) == Ok(GroupsHeaders(s, gs, gvs))
    decreases gvs, 0
  {
    hide AllMeasured, SlotsWellFormed, GeneratedSlots, SlotsHeaders;
    if gs == [] {
    } else {
      GeneratedSlotsSpecified(s, gs[0], gs[0].members, gvs[0].slots);
      GeneratedGroupsSpecified(s, gs[1..], gvs[1..]);
    }
  }

  lemma {:induction false} GeneratedSlotsSpecified(s: Schema, g: Group, ids: seq<nat>, slots: seq<Slot>)
    requires AllMeasured(s) && SlotsWellFormed(s, ids, slots)
    ensures GeneratedSlots(s, g, ids, slots) == Ok(SlotsHeaders(s, g, ids, slots))
    decreases slots, 0
  {
    hide AllMeasured, ItemsWellFormed, GeneratedItems, ItemsHeaders;
    if ids == [] {
    } else {
      GeneratedItemsSpecified(s, g, ids[0], slots[0].items);
      GeneratedSlotsSpecified(s, g, ids[1..], slots[1..]);
    }
  }

  lemma {:induction false} GeneratedItemsSpecified(s: Schema, g: Group, id: nat, items: seq<Value>)
    requires AllMeasured(s) && ItemsWellFormed(s, id, items)
    ensures GeneratedItems(s, g, id, items) == Ok(ItemsHeaders(s, g, id, items))
    decreases items, 0
  {
    hide AllMeasured, WellFormed, Generated, HeaderOf, Selected;
    if items == [] {
    } else {
      GeneratedIsSpecified(s, id, items[0]);
      GeneratedItemsSpecified(s, g, id, items[1..]);
    }
  }

  // ---- and where it is not ----

  lemma {:induction false} SlotWritten(s: Schema, g: Group, ids: seq<nat>, slots: seq<Slot>, k: nat)
    requires SlotsWellFormed(s, ids, slots)
    requires k < |slots| && slots[k].items != [] && (g.Exclusive() ==> Selected(slots[k].items[0]))
    ensures SlotsHeaders(s, g, ids, slots) != []
    decreases |slots|
  {
    hide HeaderOf, WellFormed, Selected;
    if k == 0 {
      var v := slots[0].items[0];
      assert ItemsHeaders(s, g, ids[0], slots[0].items)
             == [HeaderOf(s, ids[0], v)] + ItemsHeaders(s, g, ids[0], slots[0].items[1..]);
    } else {
      SlotWritten(s, g, ids[1..], slots[1..], k - 1);
    }
  }

  /** No exclusive group's selected member is its zero value. */
  predicate Chosen(gs: seq<Group>, gvs: seq<GroupValue>) {
    forall i, k ::
      0 <= i < |gs| && i < |gvs| && gs[i].Exclusive() && 0 <= k < |gvs[i].slots| && gvs[i].slots[k].items != []
      ==> Selected(gvs[i].slots[k].items[0])
  }

  /** A value with required parameters has something to write for them. */
  lemma RequiredAreWritten(s: Schema, gs: seq<Group>, gvs: seq<GroupValue>)
    requires GroupsWellFormed(s, gs, gvs) && Chosen(gs, gvs)
    requires gs != [] && gs[0].members != [] && !gs[0].optional
    ensures GroupsHeaders(s, gs, gvs) != []
  {
    hide SlotsWellFormed, SlotsHeaders, Selected;
    var g, slots := gs[0], gvs[0].slots;
    assert |slots| > 0 && exists k :: 0 <= k < |slots| && slots[k].items != [] by {
      if g.Exclusive() {
        var k :| 0 <= k < |slots| && |slots[k].items| == 1;
        assert slots[k].items != [];
      } else {
        assert slots[0].items != [];
      }
    }
    var k :| 0 <= k < |slots| && slots[k].items != [];
    SlotWritten(s, g, g.members, slots, k);
  }

  lemma {:induction false} SomethingEmitted(hs: seq<ParamHeader>)
    requires hs != []
    ensures |EmitAll(hs)| > 0
  {
    hide EmitAll;
    EmitAllUnfolds(hs);
    assert |Emit(hs[0])| >= |HeaderBytes(hs[0])|;
  }

  lemma OtherSum(own: nat, sum: nat, body: nat)
    requires U16(sum) == U16(body) && 0 < body <= 65535
    ensures U16(own) != U16(own + sum)
  {}

  /** A value that selects nothing zero, and whose parameters are specified properly, gets
      the specified header if, and only if, its own definition is measured: otherwise the
      code panics, drops the selected parameter, or leaves the parameters out of the size. */
  lemma SpecifiedIffMeasured(s: Schema, id: nat, v: Value)
    requires AllCompile(s) && WellFormed(s, id, v) && |Encode(s, id, v)| <= 65535
    requires id in s && Chosen(s[id].groups, v.groups) && GroupsWellFormed(s, s[id].groups, v.groups)
    requires GeneratedGroups(s, s[id].groups, v.groups) == Ok(GroupsHeaders(s, s[id].groups, v.groups))
    ensures Generated(s, id, v) == Ok(HeaderOf(s, id, v)) <==> Measured(s[id])
  {
    hide *;
    var c := s[id];
    var hs := GroupsHeaders(s, c.groups, v.groups);
    GeneratedUnfolds(s, id, v);
    HeaderOfUnfolds(s, id, v);
    NoGroupsNoHeaders(s, c.groups, v.groups);
    U16Twice(HeaderSize(id) + MinSizes(c.fields) + Terms(c.fields, v.fields));
    if Measured(c) {
      MeasuredReturns(c);
    } else {
      NotMeasured(s, id);
      RequiredAreWritten(s, c.groups, v.groups);
      if c.fixed {
        FixedReturns(c);
        SumOfClean(s, id, v);
        OtherSum(HeaderSize(id) + MinSizes(c.fields) + Terms(c.fields, v.fields), SumSz(hs), |EmitAll(hs)|);
        U16Absorbs(HeaderSize(id) + MinSizes(c.fields) + Terms(c.fields, v.fields), SumSz(hs));
      } else {
        NotFixedReturns(c);
      }
    }
  }

  lemma NotMeasured(s: Schema, id: nat)
    requires AllCompile(s) && id in s && !Measured(s[id])
    ensures s[id].groups != [] && s[id].groups[0].members != [] && !s[id].groups[0].optional
  {
    assert Compiles(s, s[id]);
    var c := s[id];
    if c.fixed {
      assert ExactlyOne(c.groups[0]);
    }
  }

  lemma FixedReturns(c: Container)
    requires c.fixed
    ensures !ReturnsEarly(c)
  {}

  lemma NotFixedReturns(c: Container)
    requires !c.fixed && !Measured(c)
    ensures ReturnsEarly(c)
  {}

  lemma SumOfClean(s: Schema, id: nat, v: Value)
    requires WellFormed(s, id, v) && |Encode(s, id, v)| <= 65535
    requires GroupsHeaders(s, s[id].groups, v.groups) != []
    ensures var hs := GroupsHeaders(s, s[id].groups, v.groups);
            U16(SumSz(hs)) == U16(|EmitAll(hs)|) && 0 < |EmitAll(hs)| <= 65535
  {
    hide GroupsHeaders, EmitAll, AllSizesExact, U16, SumSz, Encode;
    var hs := GroupsHeaders(s, s[id].groups, v.groups);
    GroupsSizesExact(s, s[id].groups, v.groups);
    SumSzIsExact(hs);
    SomethingEmitted(hs);
    EncodeIsHeaderAndBody(s, id, v);
  }

  /** One variable field and one required parameter: the code panics. */
  function EarlyReturn(): Schema {
    map[200 := Container([Counted(1)], [Group(false, false, "", [201])], 12, false),
        201 := Container([Scalar(2)], [], 6, true)]
  }

  function EarlyValue(n: nat): Value {
    Value([Elems([])], [GroupValue([Slot([Value([Num(n)], [])])])])
  }

  lemma EarlyReturnIsCoherent(n: nat)
    requires n < 0x1_0000
    ensures var s := EarlyReturn();
            && AllCompile(s) && FieldsGood(200, s[200]) && GroupsGood(s[200].groups) && ContainerGood(201, s[201])
            && WellFormed(s, 200, EarlyValue(n)) && Clean(s, 200, EarlyValue(n))
  {
    hide AllCompile, FieldsGood, GroupsGood, ContainerGood;
    EarlyReturnLooksGood();
    EarlyValueIsClean(n);
  }

  lemma EarlyReturnLooksGood()
    ensures var s := EarlyReturn();
            AllCompile(s) && FieldsGood(200, s[200]) && GroupsGood(s[200].groups) && ContainerGood(201, s[201])
  {}

  lemma EarlyValueIsClean(n: nat)
    requires n < 0x1_0000
    ensures WellFormed(EarlyReturn(), 200, EarlyValue(n)) && Clean(EarlyReturn(), 200, EarlyValue(n))
  {
    var s, one, v := EarlyReturn(), Value([Num(n)], []), EarlyValue(n);
    assert WellFormed(s, 201, one) && Clean(s, 201, one);
    assert ItemsWellFormed(s, 201, [one]) && ItemsClean(s, s[200].groups[0], 201, [one]);
    assert SlotsWellFormed(s, [201], [Slot([one])]) && SlotsClean(s, s[200].groups[0], [201], [Slot([one])]);
    assert GroupsWellFormed(s, s[200].groups, v.groups) && GroupsClean(s, s[200].groups, v.groups);
  }

  /** Everything else is in order with it, whatever the value nested in it. */
  lemma EarlyReturnPanics(n: nat)
    requires n < 0x1_0000
    ensures var s := EarlyReturn();
            && AllCompile(s) && FieldsGood(200, s[200]) && GroupsGood(s[200].groups) && ContainerGood(201, s[201])
            && WellFormed(s, 200, EarlyValue(n)) && Clean(s, 200, EarlyValue(n))
            && Generated(s, 200, EarlyValue(n)) == Panic
  {
    hide WellFormed, Clean, Generated, GeneratedGroups, FieldsGood, GroupsGood, ContainerGood, AllCompile;
    EarlyReturnIsCoherent(n);
    GeneratedUnfolds(EarlyReturn(), 200, EarlyValue(n));
    assert ExactlyOne(EarlyReturn()[200].groups[0]);
  }

  // ---- the code ----

  /** `bytes.Buffer`, as far as the encoder uses it. */
  class ByteBuffer {
    var contents: seq<Byte>

    constructor ()
      ensures contents == []
    {
      contents := [];
    }

    method Write(p: seq<Byte>)
      modifies this
      ensures contents == old(contents) + p
    {
      contents := contents + p;
    }
  }

  method EncodeParams(w: ByteBuffer, headers: seq<ParamHeader>)
    modifies w
    ensures w.contents == old(w.contents) + EmitAll(headers)
    decreases headers
  {
    hide Emit, EmitAll;
    NothingEmitted();
    for i := 0 to |headers|
      invariant w.contents == old(w.contents) + EmitAll(headers[..i])
    {
      var h := headers[i];
      ghost var before := w.contents;
      if IsTv(h.typ) {
        w.Write([0x80 + h.typ]);
      } else {
        w.Write([h.typ / 256 % 256, h.typ % 256, h.sz / 256 % 256, h.sz % 256]);
      }
      assert w.contents == before + HeaderBytes(h);
      w.Write(h.data);
      EncodeParams(w, h.subs);
      EmitAppended(before, h);
      EmitAllSnoc(headers, i);
    }
    assert headers[..|headers|] == headers;
  }

  lemma EmitAppended(before: seq<Byte>, h: ParamHeader)
    ensures before + HeaderBytes(h) + h.data + EmitAll(h.subs) == before + Emit(h)
  {}

  /** `getHeader`: the constant part and the variable fields first, then, group by group,
      the header of every parameter that is present, adding up sizes in 16 bits. */
  method GetHeader(s: Schema, id: nat, v: Value) returns (r: Outcome<ParamHeader>)
    requires AllCompile(s) && WellFormed(s, id, v)
    ensures r == Generated(s, id, v)
    decreases v, 1
  {
    hide *;
    GeneratedUnfolds(s, id, v);
    var c := s[id];
    var terms := Terms(c.fields, v.fields);
    var sz := U16(HeaderSize(id) + MinSizes(c.fields) + terms);
    var data := EncodeFields(c.fields, v.fields);
    if ReturnsEarly(c) {
      sz := U16(sz + terms);
      return if HasExactlyOne(c.groups) then Panic else Ok(ParamHeader(id, sz, data, []));
    }
    U16Small(HeaderSize(id) + MinSizes(c.fields) + terms);
    var total, subs := AppendGroups(s, c.groups, v.groups, sz);
    if !subs.Ok? {
      return Panic;
    }
    return Ok(ParamHeader(id, if c.fixed then sz else total, data, subs.value));
  }

  lemma U16Small(n: nat)
    ensures U16(n) < 0x1_0000
  {}

  method AppendGroups(s: Schema, gs: seq<Group>, gvs: seq<GroupValue>, sz0: nat)
    returns (sz: nat, r: Outcome<seq<ParamHeader>>)
    requires AllCompile(s) && GroupsWellFormed(s, gs, gvs) && sz0 < 0x1_0000
    ensures r == GeneratedGroups(s, gs, gvs)
    ensures r.Ok? ==> sz == U16(sz0 + SumSz(r.value))
    decreases gvs, 0
  {
    hide *;
    var subs: seq<ParamHeader> := [];
    sz := sz0;
    Empties(s, Group(false, false, "", []), 0, sz0);
    GroupsAligned(s, gs, gvs);
    assert gs[0..] == gs && gvs[0..] == gvs && gs[|gs|..] == [] && gvs[|gvs|..] == [];
    JoinedNothing(GeneratedGroups(s, gs, gvs));
    for i := 0 to |gs|
      invariant GroupsWellFormed(s, gs[i..], gvs[i..])
      invariant sz == U16(sz0 + SumSz(subs))
      invariant GeneratedGroups(s, gs, gvs) == Joined(Ok(subs), GeneratedGroups(s, gs[i..], gvs[i..]))
    {
      GroupsStep(s, gs, gvs, i);
      var added;
      U16Small(sz0 + SumSz(subs));
      sz, added := AppendSlots(s, gs[i], gvs[i].slots, sz);
      JoinedTwice(subs, added, GeneratedGroups(s, gs[i + 1..], gvs[i + 1..]));
      if !added.Ok? {
        return sz, added;
      }
      SizesAdd(sz0, subs, added.value);
      subs := subs + added.value;
    }
    JoinedNothing(Ok(subs));
    r := Ok(subs);
  }

  method AppendSlots(s: Schema, g: Group, slots: seq<Slot>, sz0: nat)
    returns (sz: nat, r: Outcome<seq<ParamHeader>>)
    requires AllCompile(s) && SlotsWellFormed(s, g.members, slots) && sz0 < 0x1_0000
    ensures r == GeneratedSlots(s, g, g.members, slots)
    ensures r.Ok? ==> sz == U16(sz0 + SumSz(r.value))
    decreases slots, 0
  {
    hide *;
    var subs: seq<ParamHeader> := [];
    sz := sz0;
    Empties(s, g, 0, sz0);
    SlotsAligned(s, g.members, slots);
    assert g.members[0..] == g.members && slots[0..] == slots;
    assert g.members[|slots|..] == [] && slots[|slots|..] == [];
    JoinedNothing(GeneratedSlots(s, g, g.members, slots));
    for k := 0 to |slots|
      invariant SlotsWellFormed(s, g.members[k..], slots[k..])
      invariant sz == U16(sz0 + SumSz(subs))
      invariant GeneratedSlots(s, g, g.members, slots)
                == Joined(Ok(subs), GeneratedSlots(s, g, g.members[k..], slots[k..]))
    {
      SlotsStep(s, g, slots, k);
      var added;
      U16Small(sz0 + SumSz(subs));
      sz, added := AppendItems(s, g, g.members[k], slots[k].items, sz);
      JoinedTwice(subs, added, GeneratedSlots(s, g, g.members[k + 1..], slots[k + 1..]));
      if !added.Ok? {
        return sz, added;
      }
      SizesAdd(sz0, subs, added.value);
      subs := subs + added.value;
    }
    JoinedNothing(Ok(subs));
    r := Ok(subs);
  }

  method AppendItems(s: Schema, g: Group, id: nat, items: seq<Value>, sz0: nat)
    returns (sz: nat, r: Outcome<seq<ParamHeader>>)
    requires AllCompile(s) && ItemsWellFormed(s, id, items) && sz0 < 0x1_0000
    ensures r == GeneratedItems(s, g, id, items)
    ensures r.Ok? ==> sz == U16(sz0 + SumSz(r.value))
    decreases items, 0
  {
    hide *;
    var subs: seq<ParamHeader> := [];
    sz := sz0;
    Empties(s, g, id, sz0);
    assert items[0..] == items && items[|items|..] == [];
    JoinedNothing(GeneratedItems(s, g, id, items));
    for j := 0 to |items|
      invariant ItemsWellFormed(s, id, items[j..])
      invariant sz == U16(sz0 + SumSz(subs))
      invariant GeneratedItems(s, g, id, items) == Joined(Ok(subs), GeneratedItems(s, g, id, items[j..]))
    {
      ItemsStep(s, g, id, items, j);
      var rest := items[j + 1..];
      JoinedTwice(subs, GeneratedItem(s, g, id, items[j]), GeneratedItems(s, g, id, rest));
      ItemUnfolds(s, g, id, items[j]);
      if !g.Exclusive() || Selected(items[j]) {
        var sh := GetHeader(s, id, items[j]);
        if !sh.Ok? {
          return sz, Panic;
        }
        sz := U16(sz + sh.value.sz);
        SizesAdd(sz0, subs, [sh.value]);
        subs := subs + [sh.value];
      } else {
        assert subs + [] == subs;
      }
    }
    JoinedNothing(Ok(subs));
    r := Ok(subs);
  }

  lemma ItemUnfolds(s: Schema, g: Group, id: nat, v: Value)
    requires WellFormed(s, id, v)
    ensures GeneratedItem(s, g, id, v)
            == if g.Exclusive() && !Selected(v) then Ok([])
               else if !Generated(s, id, v).Ok? then Panic
               else Ok([Generated(s, id, v).value])
  {
    hide Generated, Selected, WellFormed;
  }

  lemma JoinedNothing(a: Outcome<seq<ParamHeader>>)
    ensures Joined(Ok([]), a) == a
    ensures Joined(a, Ok([])) == a
  {
    if a.Ok? {
      assert [] + a.value == a.value && a.value + [] == a.value;
    }
  }

  lemma JoinedTwice(done: seq<ParamHeader>, added: Outcome<seq<ParamHeader>>, rest: Outcome<seq<ParamHeader>>)
    ensures Joined(Ok(done), Joined(added, rest))
            == if !added.Ok? then added else Joined(Ok(done + added.value), rest)
  {
    if added.Ok? && rest.Ok? {
      assert done + (added.value + rest.value) == done + added.value + rest.value;
    }
  }

  lemma Empties(s: Schema, g: Group, id: nat, sz: nat)
    ensures sz < 0x1_0000 ==> U16(sz + SumSz([])) == sz
    ensures GroupsWellFormed(s, [], []) && GeneratedGroups(s, [], []) == Ok([])
    ensures SlotsWellFormed(s, [], []) && GeneratedSlots(s, g, [], []) == Ok([])
    ensures ItemsWellFormed(s, id, []) && GeneratedItems(s, g, id, []) == Ok([])
  {}

  lemma GroupsAligned(s: Schema, gs: seq<Group>, gvs: seq<GroupValue>)
    requires GroupsWellFormed(s, gs, gvs)
    ensures |gs| == |gvs|
  {}

  lemma SlotsAligned(s: Schema, ids: seq<nat>, slots: seq<Slot>)
    requires SlotsWellFormed(s, ids, slots)
    ensures |ids| == |slots|
  {}

  lemma GroupsStep(s: Schema, gs: seq<Group>, gvs: seq<GroupValue>, i: nat)
    requires i < |gs| == |gvs| && GroupsWellFormed(s, gs[i..], gvs[i..])
    ensures SlotsWellFormed(s, gs[i].members, gvs[i].slots) && GroupsWellFormed(s, gs[i + 1..], gvs[i + 1..])
    ensures GeneratedGroups(s, gs[i..], gvs[i..])
            == Joined(GeneratedSlots(s, gs[i], gs[i].members, gvs[i].slots),
                      GeneratedGroups(s, gs[i + 1..], gvs[i + 1..]))
  {
    assert gs[i..][1..] == gs[i + 1..] && gvs[i..][1..] == gvs[i + 1..];
  }

  lemma SlotsStep(s: Schema, g: Group, slots: seq<Slot>, k: nat)
    requires k < |slots| == |g.members| && SlotsWellFormed(s, g.members[k..], slots[k..])
    ensures ItemsWellFormed(s, g.members[k], slots[k].items)
    ensures SlotsWellFormed(s, g.members[k + 1..], slots[k + 1..])
    ensures GeneratedSlots(s, g, g.members[k..], slots[k..])
            == Joined(GeneratedItems(s, g, g.members[k], slots[k].items),
                      GeneratedSlots(s, g, g.members[k + 1..], slots[k + 1..]))
  {
    assert g.members[k..][1..] == g.members[k + 1..] && slots[k..][1..] == slots[k + 1..];
  }

  /** Adding sizes one list at a time in 16 bits. */
  lemma SizesAdd(start: nat, done: seq<ParamHeader>, more: seq<ParamHeader>)
    ensures U16(U16(start + SumSz(done)) + SumSz(more)) == U16(start + SumSz(done + more))
    ensures |more| == 1 ==> SumSz(more) == more[0].sz
  {
    SumSzConcat(done, more);
    U16Absorbs(start + SumSz(done), SumSz(more));
    if |more| == 1 {
      assert more[1..] == [];
    }
  }

  lemma ItemsStep(s: Schema, g: Group, id: nat, items: seq<Value>, j: nat)
    requires j < |items| && ItemsWellFormed(s, id, items[j..])
    ensures WellFormed(s, id, items[j]) && ItemsWellFormed(s, id, items[j + 1..])
    ensures GeneratedItems(s, g, id, items[j..])
            == Joined(GeneratedItem(s, g, id, items[j]), GeneratedItems(s, g, id, items[j + 1..]))
  {
    assert items[j..][1..] == items[j + 1..];
  }

  /** `MarshalBinary` of a parameter. */
  method MarshalBinary(s: Schema, id: nat, v: Value) returns (r: Outcome<seq<Byte>>)
    requires AllCompile(s) && WellFormed(s, id, v)
    ensures r == Marshalled(s, id, v)
  {
    hide *;
    MarshalledUnfolds(s, id, v);
    HeaderTypStays(s, id, v);
    var b := new ByteBuffer();
    var ph := GetHeader(s, id, v);
    if !ph.Ok? {
      return Panic;
    }
    EncodeParams(b, [ph.value]);
    EmitAllSingle(ph.value);
    assert [] + Emit(ph.value) == Emit(ph.value);
    EmitsHeader(ph.value);
    return Ok(b.contents[HeaderSize(id)..]);
  }

  lemma HeaderTypStays(s: Schema, id: nat, v: Value)
    requires WellFormed(s, id, v)
    ensures Generated(s, id, v).Ok? ==> Generated(s, id, v).value.typ == id
  {
    hide GeneratedGroups, Terms, MinSizes, EncodeFields, ReturnsEarly, HasExactlyOne, SumSz, FieldsOk;
  }

  lemma EmitsHeader(h: ParamHeader)
    ensures HeaderSize(h.typ) <= |Emit(h)|
  {
    hide HeaderSize;
    assert |HeaderBytes(h)| <= |Emit(h)|;
  }
}
