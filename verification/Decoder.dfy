/** The generated `UnmarshalBinary`: fixed fields, then one greedy step or loop per
    group of parameters. */
module Decoder {
  import opened Bytes
  import opened Outcomes
  import opened Fields
  import opened Schema

  // ---- fields ----

  /** Whether the generated code moves `data` past the field at once; otherwise the
      next field is read at a larger offset. */
  predicate Reslices(c: Container, i: nat)
    requires i < |c.fields|
  {
    !IsFixed(c.fields[i]) || (i == |c.fields| - 1 && c.groups != [])
  }

  /** The fields from `i` on, read at `data[pos:]`, and what `data` is afterwards. */
  function DecodeFieldsFrom(c: Container, i: nat, data: seq<Byte>, pos: nat)
    : (r: Outcome<(seq<FieldValue>, seq<Byte>)>)
    requires i <= |c.fields|
    ensures r.Ok? ==> |r.value.0| == |c.fields| - i && |r.value.1| <= |data|
    decreases |c.fields| - i
  {
    if i == |c.fields| then Ok(([], data))
    else
      var (v, next) :- DecodeField(c.fields[i], data, pos);
      if !Reslices(c, i) then
        var (vs, rest) :- DecodeFieldsFrom(c, i + 1, data, next);
        Ok(([v] + vs, rest))
      else if next > |data| then Panic
      else
        var (vs, rest) :- DecodeFieldsFrom(c, i + 1, data[next..], 0);
        Ok(([v] + vs, rest))
  }

  /** How many bytes the generator still knows to be there after the fields. */
  function KnownAfter(fs: seq<Field>, known: int): int {
    if fs == [] then known
    else KnownAfter(fs[1..], if IsFixed(fs[0]) then known - MinSize(fs[0]) else 0)
  }

  /** `should_check_leftover`. */
  predicate ChecksLeftover(c: Container) {
    !c.fixed && (c.groups != [] || (c.fields != [] && !c.fields[|c.fields| - 1].Remainder?))
  }

  // ---- parameters ----

  ghost predicate Refers(s: Schema, ids: seq<nat>) {
    forall k :: 0 <= k < |ids| ==> ids[k] in s
  }

  ghost predicate GroupsRefer(s: Schema, gs: seq<Group>) {
    forall i :: 0 <= i < |gs| ==> Refers(s, gs[i].members)
  }

  function UnmarshalBinary(s: Schema, id: nat, data: seq<Byte>): Outcome<Value>
    requires Closed(s) && id in s
    decreases |data|, 4
  {
    var c := s[id];
    var enough := c.minSize - HeaderSize(id);
    if |data| < enough then Reject
    else
      var (vs, rest) :- DecodeFieldsFrom(c, 0, data, 0);
      var gvs :- DecodeGroups(s, c.groups, rest, KnownAfter(c.fields, enough), ChecksLeftover(c));
      Ok(Value(vs, gvs))
  }

  predicate AllOptional(gs: seq<Group>) {
    forall i :: 0 <= i < |gs| ==> gs[i].optional
  }

  function EmptySlots(n: nat): (r: seq<Slot>)
    ensures |r| == n
  {
    seq(n, _ => Slot([]))
  }

  function EmptyGroups(gs: seq<Group>): (r: seq<GroupValue>)
    ensures |r| == |gs|
  {
    if gs == [] then [] else [GroupValue(EmptySlots(|gs[0].members|))] + EmptyGroups(gs[1..])
  }

  /** The remaining groups. Once only optional ones are left, running out of data ends
      the decoding; bytes left over at the very end are an error. */
  function DecodeGroups(s: Schema, gs: seq<Group>, data: seq<Byte>, known: int, leftover: bool)
    : Outcome<seq<GroupValue>>
    requires Closed(s) && GroupsRefer(s, gs)
    decreases |data|, 3, |gs|
  {
    if gs == [] then
      if leftover && data != [] then Reject else Ok([])
    else if AllOptional(gs) && data == [] then Ok(EmptyGroups(gs))
    else
      var (slots, rest, left) :- DecodeGroup(s, gs[0], data, known);
      var tail :- DecodeGroups(s, gs[1..], rest, left, leftover);
      Ok([GroupValue(slots)] + tail)
  }

  function SmallestMin(s: Schema, ids: seq<nat>): nat
    requires Refers(s, ids)
  {
    if ids == [] then 0
    else if |ids| == 1 then s[ids[0]].minSize
    else
      var m := SmallestMin(s, ids[1..]);
      if s[ids[0]].minSize < m then s[ids[0]].minSize else m
  }

  /** One group: its slots, the data after it, and how many bytes are known to follow. */
  function DecodeGroup(s: Schema, g: Group, data: seq<Byte>, known: int)
    : (r: Outcome<(seq<Slot>, seq<Byte>, int)>)
    requires Closed(s) && Refers(s, g.members)
    ensures r.Ok? ==> |r.value.1| <= |data|
    decreases |data|, 2
  {
    var required := if g.optional then 0 else SmallestMin(s, g.members);
    if g.Simple() then DecodeSimple(s, g, g.members, data, known)
    else if g.Exclusive() then
      var (slots, rest) :- DecodeChoice(s, g, data);
      Ok((slots, rest, known - required))
    else
      var (slots, rest) :- DecodeLoop(s, g, EmptySlots(|g.members|), data);
      Ok((slots, rest,
          if !HasTlv(g.members) then known - required else if HasTv(g.members) then known else 0))
  }

  /** `header_len_check`: the bytes required before a required parameter, if the
      generator does not already know that they are there. */
  function HeaderGuard(s: Schema, id: nat, known: int): nat
    requires id in s
  {
    if s[id].fixed && s[id].minSize > known then s[id].minSize
    else if HeaderSize(id) > known then HeaderSize(id)
    else 0
  }

  /** Parameters read without a loop, one after the other. The code for a TV parameter
      does not move `data` past it. */
  function DecodeSimple(s: Schema, g: Group, ids: seq<nat>, data: seq<Byte>, known: int)
    : (r: Outcome<(seq<Slot>, seq<Byte>, int)>)
    requires Closed(s) && Refers(s, ids)
    ensures r.Ok? ==> |r.value.1| <= |data|
    decreases |data|, 1, |ids|
  {
    if ids == [] then Ok(([], data, known))
    else
      var guard := if g.optional then 0 else HeaderGuard(s, ids[0], known);
      if |data| < guard then Reject
      else
        var (slot, rest) :- DecodeOne(s, ids[0], g.optional, data);
        var checked := if guard > 0 then guard else known;
        var left :=
          if g.optional then known else if s[ids[0]].fixed then checked - s[ids[0]].minSize else 0;
        var (slots, end, final) :- DecodeSimple(s, g, ids[1..], rest, left);
        Ok(([slot] + slots, end, final))
  }

  /** `unmarshal_tv` and `unmarshal_tlv`. */
  function DecodeOne(s: Schema, id: nat, optional: bool, data: seq<Byte>): (r: Outcome<(Slot, seq<Byte>)>)
    requires Closed(s) && id in s
    ensures r.Ok? ==> |r.value.1| <= |data|
    decreases |data|, 0, 2
  {
    if IsTv(id) then
      if data == [] then Panic
      else if data[0] % 128 == id then
        var v :- ReadValue(s, id, false, data, s[id].minSize);
        Ok((Slot([v]), data))
      else if optional then Ok((Slot([]), data)) else Reject
    else
      if |data| < 2 then Panic
      else if U16At(data, 0) == id then
        var (v, used) :- ReadMember(s, id, false, data);
        Ok((Slot([v]), data[used..]))
      else if optional then Ok((Slot([]), data)) else Reject
  }

  /** The parameter type a group's switch sees at the front of the data. */
  function ReadType(g: Group, data: seq<Byte>): Outcome<nat> {
    if HasTv(g.members) then
      if data == [] then Panic
      else if !HasTlv(g.members) || data[0] >= 0x80 then Ok(data[0] % 128)
      else if |data| < 4 then Reject
      else Ok(U16At(data, 0))
    else if |data| < 2 then Panic
    else Ok(U16At(data, 0))
  }

  function IndexOf(ids: seq<nat>, id: nat): (k: nat)
    ensures k <= |ids|
    ensures k < |ids| ==> ids[k] == id
    ensures k == |ids| ==> id !in ids
    ensures forall j :: 0 <= j < k ==> ids[j] != id
  {
    if ids == [] then 0 else if ids[0] == id then 0 else 1 + IndexOf(ids[1..], id)
  }

  /** Exactly one of several parameters must come next. */
  function DecodeChoice(s: Schema, g: Group, data: seq<Byte>): (r: Outcome<(seq<Slot>, seq<Byte>)>)
    requires Closed(s) && Refers(s, g.members)
    ensures r.Ok? ==> |r.value.1| <= |data|
    decreases |data|, 1, 0
  {
    var pt :- ReadType(g, data);
    var k := IndexOf(g.members, pt);
    if k == |g.members| then Reject
    else
      var (v, used) :- ReadMember(s, pt, false, data);
      Ok((EmptySlots(|g.members|)[k := Slot([v])], data[used..]))
  }

  /** `append` to a repeatable parameter's slice, or set (again) the pointer. */
  function Put(g: Group, slots: seq<Slot>, k: nat, v: Value): (r: seq<Slot>)
    requires k < |slots|
    ensures |r| == |slots|
  {
    slots[k := if g.repeatable then Slot(slots[k].items + [v]) else Slot([v])]
  }

  /** The greedy loop: parameters of the group's types, in any order and number, until
      something else comes. A group of TLV parameters checks the length it finds before
      it looks at the type. */
  function DecodeLoop(s: Schema, g: Group, slots: seq<Slot>, data: seq<Byte>)
    : (r: Outcome<(seq<Slot>, seq<Byte>)>)
    requires Closed(s) && Refers(s, g.members) && |slots| == |g.members|
    ensures r.Ok? ==> |r.value.1| <= |data| && |r.value.0| == |slots|
    decreases |data|, 1, 0
  {
    if |data| < if HasTv(g.members) then 1 else 4 then Ok((slots, data))
    else if !HasTv(g.members) && U16At(data, 2) > |data| then Reject
    else
      var pt :- ReadType(g, data);
      var k := IndexOf(g.members, pt);
      if k == |g.members| then Ok((slots, data))
      else
        var (v, used) :- ReadMember(s, pt, g.repeatable, data);
        if used == 0 then Stuck else DecodeLoop(s, g, Put(g, slots, k, v), data[used..])
  }

  /** One parameter, header included: its value and how far `data` moves. */
  function ReadMember(s: Schema, id: nat, repeatable: bool, data: seq<Byte>): (r: Outcome<(Value, nat)>)
    requires Closed(s) && id in s
    ensures r.Ok? ==> r.value.1 <= |data|
    decreases |data|, 0, 1
  {
    if IsTv(id) then
      var v :- ReadValue(s, id, repeatable, data, s[id].minSize);
      if s[id].minSize > |data| then Panic else Ok((v, s[id].minSize))
    else if |data| < 4 then Panic
    else
      var subLen := U16At(data, 2);
      if subLen > |data| then Reject
      else
        var v :- ReadValue(s, id, repeatable, data, subLen);
        Ok((v, subLen))
  }

  /** `write_unmarshal_sub`: an inlined parameter is read in place, any other through
      its own `UnmarshalBinary(data[header:end])`. */
  function ReadValue(s: Schema, id: nat, repeatable: bool, data: seq<Byte>, end: nat): Outcome<Value>
    requires Closed(s) && id in s
    decreases |data|, 0, 0
  {
    if CanInline(s[id]) && !repeatable then
      var (v, _) :- DecodeField(s[id].fields[0], data, HeaderSize(id));
      Ok(Value([v], []))
    else if end < HeaderSize(id) || end > |data| then Panic
    else UnmarshalBinary(s, id, data[HeaderSize(id)..end])
  }
}
