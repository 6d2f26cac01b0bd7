/** The bodies of messages: the same fields and groups as a parameter's, but without a
    header of their own, and of any length. */
module MessageCodec {
  import opened Bytes
  import opened Outcomes
  import opened Fields
  import opened Schema
  import opened Encoder
  import opened HeaderCode
  import opened Decoder
  import opened RoundTrip
  import opened GroupRoundTrip
  import opened CodecLaw
  import UnmarshalLoops

  ghost predicate MessageWellFormed(s: Schema, c: Container, v: Value) {
    FieldsOk(c.fields, v.fields) && GroupsWellFormed(s, c.groups, v.groups)
  }

  ghost function MessageBytes(s: Schema, c: Container, v: Value): seq<Byte>
    requires MessageWellFormed(s, c, v)
  {
    EncodeFields(c.fields, v.fields) + EmitAll(GroupsHeaders(s, c.groups, v.groups))
  }

  /** A message's `UnmarshalBinary`: a fixed size is checked exactly, any other from below. */
  function UnmarshalMessage(s: Schema, c: Container, data: seq<Byte>): Outcome<Value>
    requires Closed(s) && GroupsRefer(s, c.groups)
  {
    if c.fields == [] && c.groups == [] then
      if data != [] then Reject else Ok(Value([], []))
    else if (if c.fixed then |data| != c.minSize else |data| < c.minSize) then Reject
    else
      var (vs, rest) :- DecodeFieldsFrom(c, 0, data, 0);
      var gvs :- DecodeGroups(s, c.groups, rest, KnownAfter(c.fields, c.minSize), ChecksLeftover(c));
      Ok(Value(vs, gvs))
  }

  function SumMin(s: Schema, ids: seq<nat>): nat
    requires Refers(s, ids)
  {
    if ids == [] then 0 else s[ids[0]].minSize + SumMin(s, ids[1..])
  }

  /** The sum over all required parameters. */
  function RequiredMin(s: Schema, gs: seq<Group>): nat
    requires GroupsRefer(s, gs)
  {
    if gs == [] then 0 else (if gs[0].optional then 0 else SumMin(s, gs[0].members)) + RequiredMin(s, gs[1..])
  }

  /** What the generator's messages satisfy: coherent like parameters, no exclusive groups,
      and the minimum size that `set_msg_sizes` computes. */
  ghost predicate MessageGood(s: Schema, c: Container) {
    && (forall i :: 0 <= i < |c.fields| ==> FieldOk(c.fields[i]))
    && (c.fixed ==> AllFixed(c.fields) && c.groups == [])
    && TailOk(c) && GroupsGood(c.groups) && Visible(s, c.groups) && GroupsRefer(s, c.groups)
    && (forall i :: 0 <= i < |c.groups| ==> !c.groups[i].Exclusive())
    && c.minSize == MinSizes(c.fields) + RequiredMin(s, c.groups)
  }

  // ---- the minimum size ----

  lemma {:induction false} SlotsHoldMin(s: Schema, g: Group, ids: seq<nat>, slots: seq<Slot>)
    requires Good(s) && Refers(s, ids) && SlotsWellFormed(s, ids, slots) && SlotsClean(s, g, ids, slots)
    requires !g.Exclusive() && forall k :: 0 <= k < |slots| ==> slots[k].items != []
    ensures SumMin(s, ids) <= |EmitAll(SlotsHeaders(s, g, ids, slots))|
    decreases |slots|
  {
    hide Good, ItemsWellFormed, ItemsHeaders, ItemsClean, EmitAll;
    if ids == [] {
    } else {
      FirstItemMin(s, g, ids[0], slots[0].items);
      SlotsHoldMin(s, g, ids[1..], slots[1..]);
      EmitAllConcat(ItemsHeaders(s, g, ids[0], slots[0].items), SlotsHeaders(s, g, ids[1..], slots[1..]));
    }
  }

  lemma FirstItemMin(s: Schema, g: Group, id: nat, items: seq<Value>)
    requires Good(s) && items != [] && ItemsWellFormed(s, id, items) && ItemsClean(s, g, id, items)
    ensures id in s && s[id].minSize <= |EmitAll(ItemsHeaders(s, g, id, items))|
  {
    hide WellFormed, Clean, Selected, HeaderOf, Emit, EmitAll, ContainerGood;
    var v := items[0];
    FieldsOfValue(s, id, v);
    HeaderTyp(s, id, v);
    assert MinSizeIsLower(s, id);
    EmitAllSingle(HeaderOf(s, id, v));
    EmitAllBounds([HeaderOf(s, id, v)], ItemsHeaders(s, g, id, items[1..]));
  }

  /** A required parameter is there, so its minimum size is, for each of them. */
  lemma {:induction false} GroupsHoldMin(s: Schema, gs: seq<Group>, gvs: seq<GroupValue>)
    requires Good(s) && GroupsRefer(s, gs) && GroupsWellFormed(s, gs, gvs) && GroupsClean(s, gs, gvs)
    requires forall i :: 0 <= i < |gs| ==> !gs[i].Exclusive()
    ensures RequiredMin(s, gs) <= |EmitAll(GroupsHeaders(s, gs, gvs))|
    decreases |gs|
  {
    hide Good, SlotsWellFormed, SlotsHeaders, SlotsClean, EmitAll, SumMin;
    if gs == [] {
    } else {
      EmitAllConcat(SlotsHeaders(s, gs[0], gs[0].members, gvs[0].slots), GroupsHeaders(s, gs[1..], gvs[1..]));
      GroupsHoldMin(s, gs[1..], gvs[1..]);
      if !gs[0].optional {
        EverySlotFilled(gs[0], gvs[0].slots);
        SlotsHoldMin(s, gs[0], gs[0].members, gvs[0].slots);
      }
    }
  }

  lemma EverySlotFilled(g: Group, slots: seq<Slot>)
    requires Shape(g, slots) && !g.optional && !g.Exclusive()
    ensures forall k :: 0 <= k < |slots| ==> slots[k].items != []
  {}

  // ---- the law ----

  /** A message whose parameters each fit their length field is read back if they are clean
      and nothing trails its last variable field, and refused if not, however long it is. */
  lemma MessageRoundTrip(s: Schema, c: Container, v: Value)
    requires Good(s) && MessageGood(s, c) && MessageWellFormed(s, c, v)
    requires AllFit(GroupsHeaders(s, c.groups, v.groups))
    ensures Closed(s)
    ensures MarshalledMessage(s, c, v) == Ok(MessageBytes(s, c, v))
    ensures var r := UnmarshalMessage(s, c, MessageBytes(s, c, v));
            if Delimited(c) && GroupsClean(s, c.groups, v.groups) then r == Ok(v) else r.IsFailure()
  {
    hide Good, FieldsOk, EncodeFields, DecodeFieldsFrom, DecodeGroups, EmitAll, GroupsHeaders, GroupsGood,
         GroupsClean,
         GroupsWellFormed, KnownAfter, FieldOk, RequiredMin, MinSizes, AllFit, AllMeasured, AllCompile,
         MarshalledMessage, Visible, Trailing;
    GoodIsClosed(s);
    GoodIsMeasured(s);
    SameLengths(c.fields, v.fields);
    MarshalledMessageIsSpecified(s, c, v);
    var tail := EmitAll(GroupsHeaders(s, c.groups, v.groups));
    var data := MessageBytes(s, c, v);
    SameLengths(c.fields, v.fields);
    GroupsLawHolds(s, c.groups, v.groups);
    NoGroupsNoHeaderList(s, c.groups, v.groups);
    NoHeadersNoBytes();
    MessageFields(c, v.fields, tail);
    if c.groups == [] {
      NoGroupsHere(s, c.groups, v.groups);
      assert data == EncodeFields(c.fields, v.fields) + [];
      var r := DecodeFieldsFrom(c, 0, data, 0);
      NoGroupsDecode(s, r.value.1, KnownAfter(c.fields, c.minSize), ChecksLeftover(c), v.groups);
    } else {
      GroupsRoundTrip(s, c.groups, v.groups, KnownAfter(c.fields, c.minSize), ChecksLeftover(c));
    }
    FieldTermsAreExact(c.fields, v.fields);
    if GroupsClean(s, c.groups, v.groups) {
      GroupsHoldMin(s, c.groups, v.groups);
      assert !c.fixed ==> |data| >= c.minSize;
    }
    if c.fixed {
      NoRequired(s, c.groups);
      FixedFieldsSize(c.fields, v.fields);
    }
    if c.fields == [] && c.groups == [] {
      NoFieldsEncode(v.fields);
      assert data == [] && v == Value([], []);
    }
  }

  lemma SameLengths(fs: seq<Field>, vs: seq<FieldValue>)
    requires FieldsOk(fs, vs)
    ensures |fs| == |vs|
  {}

  lemma NoRequired(s: Schema, gs: seq<Group>)
    requires gs == []
    ensures GroupsRefer(s, gs) && RequiredMin(s, gs) == 0
  {}

  lemma NoGroupsHere(s: Schema, gs: seq<Group>, gvs: seq<GroupValue>)
    requires gs == [] && GroupsWellFormed(s, gs, gvs)
    ensures gvs == [] && GroupsWellFormed(s, [], gvs) && GroupsClean(s, gs, gvs)
  {}

  lemma MessageFields(c: Container, vs: seq<FieldValue>, tail: seq<Byte>)
    requires FieldsOk(c.fields, vs) && |c.fields| == |vs| && TailOk(c)
    requires forall k :: 0 <= k < |c.fields| ==> FieldOk(c.fields[k])
    requires c.groups == [] ==> tail == []
    ensures var r := DecodeFieldsFrom(c, 0, EncodeFields(c.fields, vs) + tail, 0);
            && r.Ok? && r.value.0 == vs
            && (c.groups != [] ==> r.value.1 == tail)
            && (c.groups == [] && ChecksLeftover(c) ==> |r.value.1| == Trailing(c.fields))
            && (c.groups == [] && !ChecksLeftover(c) ==> Delimited(c))
  {
    hide FieldsOk, EncodeFields, DecodeFieldsFrom, FieldOk, Trailing;
    LeftBehindFields(c, vs, tail);
    assert c.fields[0..] == c.fields && vs[0..] == vs;
    assert [] + EncodeFields(c.fields, vs) + tail == EncodeFields(c.fields, vs) + tail;
    FieldsRoundTrip(c, vs, 0, [], tail);
    if c.fields == [] {
      NoFieldsDecode(c, EncodeFields(c.fields, vs) + tail);
      NoFieldsEncode(vs);
      assert [] + tail == tail;
    }
  }

  // ---- the code ----

  /** A message's `MarshalBinary`: the fields, then every parameter that is present. */
  method MarshalMessage(s: Schema, c: Container, v: Value) returns (r: Outcome<seq<Byte>>)
    requires AllCompile(s) && MessageWellFormed(s, c, v) && |c.fields| == |v.fields|
    requires forall i :: 0 <= i < |c.groups| ==> !c.groups[i].Exclusive()
    ensures r == MarshalledMessage(s, c, v)
  {
    hide *;
    MessageParts(s, c, v);
    var b := new ByteBuffer();
    b.Write(EncodeFields(c.fields, v.fields));
    assert [] + EncodeFields(c.fields, v.fields) == EncodeFields(c.fields, v.fields);
    GroupsAligned(s, c.groups, v.groups);
    ghost var all := GeneratedGroups(s, c.groups, v.groups);
    ghost var done: seq<ParamHeader> := [];
    NothingEmitted();
    Empties(s, Group(false, false, "", []), 0, 0);
    JoinedNothing(all);
    assert EncodeFields(c.fields, v.fields) + [] == EncodeFields(c.fields, v.fields);
    assert c.groups[0..] == c.groups && v.groups[0..] == v.groups;
    assert c.groups[|c.groups|..] == [] && v.groups[|v.groups|..] == [];
    for i := 0 to |c.groups|
      invariant GroupsWellFormed(s, c.groups[i..], v.groups[i..])
      invariant b.contents == EncodeFields(c.fields, v.fields) + EmitAll(done)
      invariant all == Joined(Ok(done), GeneratedGroups(s, c.groups[i..], v.groups[i..]))
    {
      GroupsStep(s, c.groups, v.groups, i);
      var _, subs := AppendSlots(s, c.groups[i], v.groups[i].slots, 0);
      JoinedTwice(done, subs, GeneratedGroups(s, c.groups[i + 1..], v.groups[i + 1..]));
      if !subs.Ok? {
        return Panic;
      }
      EncodeParams(b, subs.value);
      EmitAllConcat(done, subs.value);
      done := done + subs.value;
    }
    JoinedNothing(Ok(done));
    return Ok(b.contents);
  }

  ghost function MarshalledMessage(s: Schema, c: Container, v: Value): Outcome<seq<Byte>>
    requires MessageWellFormed(s, c, v)
  {
    var hs :- GeneratedGroups(s, c.groups, v.groups);
    Ok(EncodeFields(c.fields, v.fields) + EmitAll(hs))
  }

  lemma MessageParts(s: Schema, c: Container, v: Value)
    requires MessageWellFormed(s, c, v) && |c.fields| == |v.fields|
    ensures GroupsWellFormed(s, c.groups, v.groups)
    ensures var hs := GeneratedGroups(s, c.groups, v.groups);
            MarshalledMessage(s, c, v)
            == if !hs.Ok? then Panic
               else Ok(EncodeFields(c.fields, v.fields) + EmitAll(hs.value))
  {
    hide EncodeFields, EmitAll, GeneratedGroups;
  }

  lemma MarshalledMessageIsSpecified(s: Schema, c: Container, v: Value)
    requires AllMeasured(s) && MessageWellFormed(s, c, v) && |c.fields| == |v.fields|
    ensures MarshalledMessage(s, c, v) == Ok(MessageBytes(s, c, v))
  {
    hide EncodeFields, EmitAll, GeneratedGroups, GroupsHeaders, AllMeasured, GroupsWellFormed;
    GeneratedGroupsSpecified(s, c.groups, v.groups);
  }

  method Unmarshal(s: Schema, c: Container, data: seq<Byte>) returns (r: Outcome<Value>)
    requires Closed(s) && GroupsRefer(s, c.groups)
    ensures r == UnmarshalMessage(s, c, data)
  {
    hide DecodeFieldsFrom, DecodeGroups, KnownAfter, Closed;
    if c.fields == [] && c.groups == [] {
      return if data != [] then Reject else Ok(Value([], []));
    }
    if c.fixed && |data| != c.minSize {
      return Reject;
    }
    if |data| < c.minSize {
      return Reject;
    }
    var fields := UnmarshalLoops.UnmarshalFields(c, data);
    if fields.IsFailure() {
      return fields.PropagateFailure();
    }
    var groups := UnmarshalLoops.UnmarshalGroups(s, c.groups, fields.value.1, KnownAfter(c.fields, c.minSize),
                                                 ChecksLeftover(c));
    if groups.IsFailure() {
      return groups.PropagateFailure();
    }
    return Ok(Value(fields.value.0, groups.value));
  }
}
