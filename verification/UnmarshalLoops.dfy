/** The generated `UnmarshalBinary` as the code does it: moving `data` along, assigning
    fields, and appending to slices in loops. Each method is the decoder's function. */
module UnmarshalLoops {
  import opened Bytes
  import opened Outcomes
  import opened Fields
  import opened Schema
  import opened Decoder

  /** What decoding the rest comes to, once `done` has been read. */
  function After<T, R>(done: seq<T>, r: Outcome<(seq<T>, R)>): Outcome<(seq<T>, R)> {
    if r.Ok? then Ok((done + r.value.0, r.value.1)) else r
  }

  function AfterGroups(done: seq<GroupValue>, r: Outcome<seq<GroupValue>>): Outcome<seq<GroupValue>> {
    if r.Ok? then Ok(done + r.value) else r
  }

  method Unmarshal(s: Schema, id: nat, data0: seq<Byte>) returns (r: Outcome<Value>)
    requires Closed(s) && id in s
    ensures r == UnmarshalBinary(s, id, data0)
    decreases |data0|, 4
  {
    hide DecodeFieldsFrom, DecodeGroups, KnownAfter, Closed;
    var c := s[id];
    if |data0| < c.minSize - HeaderSize(id) {
      return Reject;
    }
    var fields := UnmarshalFields(c, data0);
    if fields.IsFailure() {
      return fields.PropagateFailure();
    }
    HasGroups(s, id);
    var groups := UnmarshalGroups(s, c.groups, fields.value.1, KnownAfter(c.fields, c.minSize - HeaderSize(id)),
                                  ChecksLeftover(c));
    if groups.IsFailure() {
      return groups.PropagateFailure();
    }
    return Ok(Value(fields.value.0, groups.value));
  }

  lemma HasGroups(s: Schema, id: nat)
    requires Closed(s) && id in s
    ensures GroupsRefer(s, s[id].groups)
  {}

  method UnmarshalFields(c: Container, data0: seq<Byte>) returns (r: Outcome<(seq<FieldValue>, seq<Byte>)>)
    ensures r == DecodeFieldsFrom(c, 0, data0, 0)
  {
    hide DecodeField, DecodeFieldsFrom, Reslices;
    var data, pos: nat := data0, 0;
    var vs := [];
    AfterNothing(DecodeFieldsFrom(c, 0, data0, 0));
    for i := 0 to |c.fields|
      invariant DecodeFieldsFrom(c, 0, data0, 0) == After(vs, DecodeFieldsFrom(c, i, data, pos))
    {
      FieldsStep(c, i, data, pos);
      var f := DecodeField(c.fields[i], data, pos);
      if f.IsFailure() {
        return f.PropagateFailure();
      }
      pos := f.value.1;
      if Reslices(c, i) {
        if pos > |data| {
          return Panic;
        }
        data, pos := data[pos..], 0;
      }
      AfterOne(vs, f.value.0, DecodeFieldsFrom(c, i + 1, data, pos));
      vs := vs + [f.value.0];
    }
    FieldsEnd(c, data, pos);
    assert vs + [] == vs;
    return Ok((vs, data));
  }

  lemma AfterNothing<T, R>(r: Outcome<(seq<T>, R)>)
    ensures After([], r) == r
  {
    if r.Ok? {
      assert [] + r.value.0 == r.value.0;
    }
  }

  lemma AfterOne<T, R>(done: seq<T>, x: T, r: Outcome<(seq<T>, R)>)
    ensures After(done, After([x], r)) == After(done + [x], r)
  {
    if r.Ok? {
      assert done + ([x] + r.value.0) == done + [x] + r.value.0;
    }
  }

  lemma FieldsStep(c: Container, i: nat, data: seq<Byte>, pos: nat)
    requires i < |c.fields|
    ensures var f := DecodeField(c.fields[i], data, pos);
            && (f.IsFailure() ==> DecodeFieldsFrom(c, i, data, pos) == f.PropagateFailure())
            && (f.Ok? && !Reslices(c, i) ==>
                  DecodeFieldsFrom(c, i, data, pos) == After([f.value.0], DecodeFieldsFrom(c, i + 1, data, f.value.1)))
            && (f.Ok? && Reslices(c, i) && f.value.1 > |data| ==> DecodeFieldsFrom(c, i, data, pos) == Panic)
            && (f.Ok? && Reslices(c, i) && f.value.1 <= |data| ==>
                  DecodeFieldsFrom(c, i, data, pos)
                  == After([f.value.0], DecodeFieldsFrom(c, i + 1, data[f.value.1..], 0)))
  {
    hide DecodeField;
  }

  lemma FieldsEnd(c: Container, data: seq<Byte>, pos: nat)
    ensures DecodeFieldsFrom(c, |c.fields|, data, pos) == Ok(([], data))
  {}

  /** One step or loop per group, until the data runs out in front of optional ones. */
  method UnmarshalGroups(s: Schema, gs: seq<Group>, data0: seq<Byte>, known0: int, leftover: bool)
    returns (r: Outcome<seq<GroupValue>>)
    requires Closed(s) && GroupsRefer(s, gs)
    ensures r == DecodeGroups(s, gs, data0, known0, leftover)
    decreases |data0|, 3
  {
    hide DecodeGroup, DecodeGroups, Closed, EmptyGroups, AllOptional;
    var data, known := data0, known0;
    var gvs := [];
    assert gs[0..] == gs && gs[|gs|..] == [];
    AfterNoGroups(DecodeGroups(s, gs, data0, known0, leftover));
    for i := 0 to |gs|
      invariant |data| <= |data0| && GroupsRefer(s, gs[i..])
      invariant DecodeGroups(s, gs, data0, known0, leftover)
                == AfterGroups(gvs, DecodeGroups(s, gs[i..], data, known, leftover))
    {
      GroupsStep(s, gs, i, data, known, leftover);
      if AllOptional(gs[i..]) && data == [] {
        return Ok(gvs + EmptyGroups(gs[i..]));
      }
      var g := UnmarshalGroup(s, gs[i], data, known);
      if g.IsFailure() {
        return g.PropagateFailure();
      }
      AfterOneGroup(gvs, GroupValue(g.value.0), DecodeGroups(s, gs[i + 1..], g.value.1, g.value.2, leftover));
      gvs := gvs + [GroupValue(g.value.0)];
      data, known := g.value.1, g.value.2;
    }
    GroupsEnd(s, data, known, leftover);
    assert gvs + [] == gvs;
    return if leftover && data != [] then Reject else Ok(gvs);
  }

  lemma AfterNoGroups(r: Outcome<seq<GroupValue>>)
    ensures AfterGroups([], r) == r
  {
    if r.Ok? {
      assert [] + r.value == r.value;
    }
  }

  lemma AfterOneGroup(done: seq<GroupValue>, x: GroupValue, r: Outcome<seq<GroupValue>>)
    ensures AfterGroups(done, AfterGroups([x], r)) == AfterGroups(done + [x], r)
  {
    if r.Ok? {
      assert done + ([x] + r.value) == done + [x] + r.value;
    }
  }

  lemma GroupsStep(s: Schema, gs: seq<Group>, i: nat, data: seq<Byte>, known: int, leftover: bool)
    requires Closed(s) && i < |gs| && GroupsRefer(s, gs[i..])
    ensures Refers(s, gs[i].members) && GroupsRefer(s, gs[i + 1..])
    ensures var g := DecodeGroup(s, gs[i], data, known);
            var r := DecodeGroups(s, gs[i..], data, known, leftover);
            if AllOptional(gs[i..]) && data == [] then r == Ok(EmptyGroups(gs[i..]))
            else if g.IsFailure() then r == g.PropagateFailure()
            else r == AfterGroups([GroupValue(g.value.0)],
                                  DecodeGroups(s, gs[i + 1..], g.value.1, g.value.2, leftover))
  {
    hide DecodeGroup, EmptyGroups, Closed;
    assert gs[i..][0] == gs[i] && gs[i..][1..] == gs[i + 1..];
  }

  lemma GroupsEnd(s: Schema, data: seq<Byte>, known: int, leftover: bool)
    requires Closed(s)
    ensures DecodeGroups(s, [], data, known, leftover) == if leftover && data != [] then Reject else Ok([])
  {}

  method UnmarshalGroup(s: Schema, g: Group, data: seq<Byte>, known: int)
    returns (r: Outcome<(seq<Slot>, seq<Byte>, int)>)
    requires Closed(s) && Refers(s, g.members)
    ensures r == DecodeGroup(s, g, data, known)
    decreases |data|, 2
  {
    hide DecodeSimple, DecodeChoice, DecodeLoop, Closed, SmallestMin, HasTv, HasTlv;
    var required := if g.optional then 0 else SmallestMin(s, g.members);
    if g.Simple() {
      r := UnmarshalSimple(s, g, data, known);
    } else if g.Exclusive() {
      var choice := UnmarshalChoice(s, g, data);
      if choice.IsFailure() {
        return choice.PropagateFailure();
      }
      return Ok((choice.value.0, choice.value.1, known - required));
    } else {
      var loop := UnmarshalLoop(s, g, data);
      if loop.IsFailure() {
        return loop.PropagateFailure();
      }
      var left := if !HasTlv(g.members) then known - required else if HasTv(g.members) then known else 0;
      return Ok((loop.value.0, loop.value.1, left));
    }
  }

  /** The greedy loop over a group's parameters. */
  method UnmarshalLoop(s: Schema, g: Group, data0: seq<Byte>) returns (r: Outcome<(seq<Slot>, seq<Byte>)>)
    requires Closed(s) && Refers(s, g.members)
    ensures r == DecodeLoop(s, g, EmptySlots(|g.members|), data0)
    decreases |data0|, 1, 0
  {
    hide ReadMember, ReadType, DecodeLoop, Closed, HasTv, IndexOf, Put;
    var data, slots := data0, EmptySlots(|g.members|);
    while |data| >= if HasTv(g.members) then 1 else 4
      invariant |data| <= |data0| && |slots| == |g.members|
      invariant DecodeLoop(s, g, EmptySlots(|g.members|), data0) == DecodeLoop(s, g, slots, data)
      decreases |data|
    {
      LoopStep(s, g, slots, data);
      if !HasTv(g.members) && U16At(data, 2) > |data| {
        return Reject;
      }
      var pt := ReadType(g, data);
      if pt.IsFailure() {
        return pt.PropagateFailure();
      }
      var k := IndexOf(g.members, pt.value);
      if k == |g.members| {
        return Ok((slots, data));
      }
      var member := UnmarshalMember(s, pt.value, g.repeatable, data);
      if member.IsFailure() {
        return member.PropagateFailure();
      }
      if member.value.1 == 0 {
        return Stuck; // the generated loop would go on forever
      }
      slots := Put(g, slots, k, member.value.0);
      data := data[member.value.1..];
    }
    LoopEnd(s, g, slots, data);
    return Ok((slots, data));
  }

  lemma LoopStep(s: Schema, g: Group, slots: seq<Slot>, data: seq<Byte>)
    requires Closed(s) && Refers(s, g.members) && |slots| == |g.members|
    requires |data| >= if HasTv(g.members) then 1 else 4
    ensures var r := DecodeLoop(s, g, slots, data);
            var pt := ReadType(g, data);
            if !HasTv(g.members) && U16At(data, 2) > |data| then r == Reject
            else if pt.IsFailure() then r == pt.PropagateFailure()
            else
              var k := IndexOf(g.members, pt.value);
              if k == |g.members| then r == Ok((slots, data))
              else
                && pt.value in s
                && var m := ReadMember(s, pt.value, g.repeatable, data);
                   if m.IsFailure() then r == m.PropagateFailure()
                   else if m.value.1 == 0 then r == Stuck
                   else r == DecodeLoop(s, g, Put(g, slots, k, m.value.0), data[m.value.1..])
  {
    hide ReadMember, ReadType, Closed, HasTv, IndexOf, Put;
  }

  lemma LoopEnd(s: Schema, g: Group, slots: seq<Slot>, data: seq<Byte>)
    requires Closed(s) && Refers(s, g.members) && |slots| == |g.members|
    requires |data| < if HasTv(g.members) then 1 else 4
    ensures DecodeLoop(s, g, slots, data) == Ok((slots, data))
  {
    hide ReadMember, ReadType, Closed, HasTv, IndexOf, Put;
  }

  method UnmarshalChoice(s: Schema, g: Group, data: seq<Byte>) returns (r: Outcome<(seq<Slot>, seq<Byte>)>)
    requires Closed(s) && Refers(s, g.members)
    ensures r == DecodeChoice(s, g, data)
    decreases |data|, 1, 0
  {
    hide ReadMember, ReadType, Closed, IndexOf;
    var pt := ReadType(g, data);
    if pt.IsFailure() {
      return pt.PropagateFailure();
    }
    var k := IndexOf(g.members, pt.value);
    if k == |g.members| {
      return Reject;
    }
    var member := UnmarshalMember(s, pt.value, false, data);
    if member.IsFailure() {
      return member.PropagateFailure();
    }
    return Ok((EmptySlots(|g.members|)[k := Slot([member.value.0])], data[member.value.1..]));
  }

  /** Required parameters one after the other, or one optional parameter. */
  method UnmarshalSimple(s: Schema, g: Group, data0: seq<Byte>, known0: int)
    returns (r: Outcome<(seq<Slot>, seq<Byte>, int)>)
    requires Closed(s) && Refers(s, g.members)
    ensures r == DecodeSimple(s, g, g.members, data0, known0)
    decreases |data0|, 1, 0
  {
    hide DecodeOne, DecodeSimple, HeaderGuard, Closed;
    var data, known := data0, known0;
    var slots := [];
    assert g.members[0..] == g.members && g.members[|g.members|..] == [];
    AfterNoSlots(DecodeSimple(s, g, g.members, data0, known0));
    for i := 0 to |g.members|
      invariant |data| <= |data0| && Refers(s, g.members[i..])
      invariant DecodeSimple(s, g, g.members, data0, known0)
                == AfterSlots(slots, DecodeSimple(s, g, g.members[i..], data, known))
    {
      SimpleStep(s, g, i, data, known);
      var id := g.members[i];
      if !g.optional {
        var guard := HeaderGuard(s, id, known);
        if |data| < guard {
          return Reject;
        }
        known := if guard > 0 then guard else known;
      }
      var one := UnmarshalOne(s, id, g.optional, data);
      if one.IsFailure() {
        return one.PropagateFailure();
      }
      if !g.optional {
        known := if s[id].fixed then known - s[id].minSize else 0;
      }
      AfterOneSlot(slots, one.value.0, DecodeSimple(s, g, g.members[i + 1..], one.value.1, known));
      slots, data := slots + [one.value.0], one.value.1;
    }
    SimpleEnd(s, g, data, known);
    assert slots + [] == slots;
    return Ok((slots, data, known));
  }

  function AfterSlots(done: seq<Slot>, r: Outcome<(seq<Slot>, seq<Byte>, int)>): Outcome<(seq<Slot>, seq<Byte>, int)> {
    if r.Ok? then Ok((done + r.value.0, r.value.1, r.value.2)) else r
  }

  lemma AfterNoSlots(r: Outcome<(seq<Slot>, seq<Byte>, int)>)
    ensures AfterSlots([], r) == r
  {
    if r.Ok? {
      assert [] + r.value.0 == r.value.0;
    }
  }

  lemma AfterOneSlot(done: seq<Slot>, x: Slot, r: Outcome<(seq<Slot>, seq<Byte>, int)>)
    ensures AfterSlots(done, AfterSlots([x], r)) == AfterSlots(done + [x], r)
  {
    if r.Ok? {
      assert done + ([x] + r.value.0) == done + [x] + r.value.0;
    }
  }

  lemma SimpleStep(s: Schema, g: Group, i: nat, data: seq<Byte>, known: int)
    requires Closed(s) && i < |g.members| && Refers(s, g.members[i..])
    ensures g.members[i] in s && Refers(s, g.members[i + 1..])
    ensures var id := g.members[i];
            var guard := if g.optional then 0 else HeaderGuard(s, id, known);
            var r := DecodeSimple(s, g, g.members[i..], data, known);
            if |data| < guard then r == Reject
            else
              var one := DecodeOne(s, id, g.optional, data);
              var checked := if guard > 0 then guard else known;
              var left := if g.optional then known else if s[id].fixed then checked - s[id].minSize else 0;
              if one.IsFailure() then r == one.PropagateFailure()
              else r == AfterSlots([one.value.0], DecodeSimple(s, g, g.members[i + 1..], one.value.1, left))
  {
    hide DecodeOne, HeaderGuard, Closed;
    assert g.members[i..][0] == g.members[i] && g.members[i..][1..] == g.members[i + 1..];
  }

  lemma SimpleEnd(s: Schema, g: Group, data: seq<Byte>, known: int)
    requires Closed(s)
    ensures DecodeSimple(s, g, [], data, known) == Ok(([], data, known))
  {}

  method UnmarshalOne(s: Schema, id: nat, optional: bool, data: seq<Byte>) returns (r: Outcome<(Slot, seq<Byte>)>)
    requires Closed(s) && id in s
    ensures r == DecodeOne(s, id, optional, data)
    decreases |data|, 0, 2
  {
    hide ReadMember, ReadValue, Closed;
    if |data| < if IsTv(id) then 1 else 2 {
      return Panic;
    }
    if (if IsTv(id) then data[0] % 128 else U16At(data, 0)) != id {
      return if optional then Ok((Slot([]), data)) else Reject;
    }
    if IsTv(id) {
      var v := UnmarshalValue(s, id, false, data, s[id].minSize);
      if v.IsFailure() {
        return v.PropagateFailure();
      }
      return Ok((Slot([v.value]), data)); // `data` stays where it is
    }
    var member := UnmarshalMember(s, id, false, data);
    if member.IsFailure() {
      return member.PropagateFailure();
    }
    return Ok((Slot([member.value.0]), data[member.value.1..]));
  }

  method UnmarshalMember(s: Schema, id: nat, repeatable: bool, data: seq<Byte>) returns (r: Outcome<(Value, nat)>)
    requires Closed(s) && id in s
    ensures r == ReadMember(s, id, repeatable, data)
    decreases |data|, 0, 1
  {
    hide ReadValue, Closed;
    var end := s[id].minSize;
    if !IsTv(id) {
      if |data| < 4 {
        return Panic;
      }
      end := U16At(data, 2);
      if end > |data| {
        return Reject;
      }
    }
    var v := UnmarshalValue(s, id, repeatable, data, end);
    if v.IsFailure() {
      return v.PropagateFailure();
    }
    return if end > |data| then Panic else Ok((v.value, end));
  }

  method UnmarshalValue(s: Schema, id: nat, repeatable: bool, data: seq<Byte>, end: nat) returns (r: Outcome<Value>)
    requires Closed(s) && id in s
    ensures r == ReadValue(s, id, repeatable, data, end)
    decreases |data|, 0, 0
  {
    hide DecodeField, UnmarshalBinary, Closed;
    if CanInline(s[id]) && !repeatable {
      var f := DecodeField(s[id].fields[0], data, HeaderSize(id));
      if f.IsFailure() {
        return f.PropagateFailure();
      }
      return Ok(Value([f.value.0], []));
    }
    if end < HeaderSize(id) || end > |data| {
      return Panic;
    }
    r := Unmarshal(s, id, data[HeaderSize(id)..end]);
  }
}
