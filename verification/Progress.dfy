/** When decoding comes to an end: on every input, unless a group loop meets a parameter
    that is read in place and declares a length of zero. */
module Progress {
  import opened Bytes
  import opened Outcomes
  import opened Fields
  import opened Schema
  import opened Decoder

  /** Some four bytes are the header of a parameter of `sticky` with length zero. */
  ghost predicate ZeroHeader(sticky: set<nat>, data: seq<Byte>) {
    exists p :: 0 <= p && p + 4 <= |data| && U16At(data, p) in sticky && U16At(data, p + 2) == 0
  }

  /** Whether a loop that reads `id` as a member of `g` advances only by what it declares. */
  predicate Sticks(s: Schema, g: Group, id: nat)
    requires id in s
  {
    !g.Simple() && !g.Exclusive() && !g.repeatable && !IsTv(id) && CanInline(s[id])
  }

  /** `ids` refer to each other only, and `sticky` has those that can hold up a loop. */
  ghost predicate Forward(s: Schema, ids: set<nat>, sticky: set<nat>) {
    && Closed(s)
    && (forall id :: id in ids ==> id in s && s[id].minSize > 0 && GroupsForward(s, ids, sticky, s[id].groups))
  }

  ghost predicate GroupsForward(s: Schema, ids: set<nat>, sticky: set<nat>, gs: seq<Group>) {
    forall i :: 0 <= i < |gs| ==> GroupForward(s, ids, sticky, gs[i])
  }

  ghost predicate GroupForward(s: Schema, ids: set<nat>, sticky: set<nat>, g: Group) {
    forall k :: 0 <= k < |g.members| ==>
      && g.members[k] in s && g.members[k] in ids && g.members[k] > 0
      && (Sticks(s, g, g.members[k]) ==> g.members[k] in sticky)
  }

  lemma SliceHasNoZeroHeader(sticky: set<nat>, data: seq<Byte>, a: nat, b: nat)
    requires a <= b <= |data| && !ZeroHeader(sticky, data)
    ensures !ZeroHeader(sticky, data[a..b]) && !ZeroHeader(sticky, data[a..])
  {
    forall p | 0 <= p && p + 4 <= b - a
      ensures !(U16At(data[a..b], p) in sticky && U16At(data[a..b], p + 2) == 0)
    {
      assert U16At(data[a..b], p) == U16At(data, a + p) && U16At(data[a..b], p + 2) == U16At(data, a + p + 2);
    }
    forall p | 0 <= p && p + 4 <= |data| - a
      ensures !(U16At(data[a..], p) in sticky && U16At(data[a..], p + 2) == 0)
    {
      assert U16At(data[a..], p) == U16At(data, a + p) && U16At(data[a..], p + 2) == U16At(data, a + p + 2);
    }
  }

  lemma {:induction false} FieldsDoNotStick(c: Container, i: nat, data: seq<Byte>, pos: nat, sticky: set<nat>)
    requires i <= |c.fields| && !ZeroHeader(sticky, data)
    ensures !DecodeFieldsFrom(c, i, data, pos).Stuck?
    ensures var r := DecodeFieldsFrom(c, i, data, pos); r.Ok? ==> !ZeroHeader(sticky, r.value.1)
    decreases |c.fields| - i
  {
    hide DecodeField, ZeroHeader, Reslices;
    if i < |c.fields| {
      var f := DecodeField(c.fields[i], data, pos);
      if f.Ok? {
        if !Reslices(c, i) {
          FieldsDoNotStick(c, i + 1, data, f.value.1, sticky);
        } else if f.value.1 <= |data| {
          SliceHasNoZeroHeader(sticky, data, f.value.1, |data|);
          FieldsDoNotStick(c, i + 1, data[f.value.1..], 0, sticky);
        }
      }
    }
  }

  /** The loop over a group finds a member of the group in front of it. */
  predicate TurnBegins(g: Group, data: seq<Byte>) {
    && |data| >= (if HasTv(g.members) then 1 else 4)
    && (HasTv(g.members) || U16At(data, 2) <= |data|)
    && ReadType(g, data).Ok? && ReadType(g, data).value in g.members
  }

  /** A turn of a loop advances by nothing, and so holds it up, exactly if the member is a
      TLV parameter read in place whose field is there and whose declared length is zero. */
  lemma TurnHoldsUp(s: Schema, g: Group, slots: seq<Slot>, data: seq<Byte>)
    requires Closed(s) && Refers(s, g.members) && |slots| == |g.members| && TurnBegins(g, data)
    requires s[ReadType(g, data).value].minSize > 0
    ensures var id := ReadType(g, data).value;
            var r := ReadMember(s, id, g.repeatable, data);
            var zero := !IsTv(id) && |data| >= 4 && U16At(data, 2) == 0 && CanInline(s[id]) && !g.repeatable
                        && DecodeField(s[id].fields[0], data, 4).Ok?;
            && (r.Ok? && r.value.1 == 0 <==> zero)
            && (zero ==> DecodeLoop(s, g, slots, data) == Stuck)
  {
    hide DecodeField, HasTv, HasTlv, Closed, UnmarshalBinary;
    var id := ReadType(g, data).value;
    IndexOfThere(g.members, id);
  }

  lemma IndexOfThere(ids: seq<nat>, id: nat)
    requires id in ids
    ensures IndexOf(ids, id) < |ids|
  {}

  /** Without such a header anywhere in it, no data keeps the decoder going forever. */
  lemma {:induction false} DecodingEnds(s: Schema, ids: set<nat>, sticky: set<nat>, id: nat, data: seq<Byte>)
    requires Forward(s, ids, sticky) && id in ids && !ZeroHeader(sticky, data)
    ensures !UnmarshalBinary(s, id, data).Stuck?
    decreases |data|, 4
  {
    hide Closed, ZeroHeader, DecodeFieldsFrom, DecodeGroups, KnownAfter, GroupsForward;
    var c := s[id];
    RefersOfForward(s, ids, sticky, id);
    if |data| >= c.minSize - HeaderSize(id) {
      FieldsDoNotStick(c, 0, data, 0, sticky);
      var f := DecodeFieldsFrom(c, 0, data, 0);
      if f.Ok? {
        GroupsEnd(s, ids, sticky, c.groups, f.value.1, KnownAfter(c.fields, c.minSize - HeaderSize(id)),
                  ChecksLeftover(c));
      }
    }
  }

  lemma RefersOfForward(s: Schema, ids: set<nat>, sticky: set<nat>, id: nat)
    requires Forward(s, ids, sticky) && id in ids
    ensures Closed(s) && id in s && GroupsRefer(s, s[id].groups) && GroupsForward(s, ids, sticky, s[id].groups)
  {}

  lemma {:induction false} GroupsEnd(s: Schema, ids: set<nat>, sticky: set<nat>, gs: seq<Group>, data: seq<Byte>,
                                     known: int, leftover: bool)
    requires Forward(s, ids, sticky) && GroupsForward(s, ids, sticky, gs) && GroupsRefer(s, gs)
    requires !ZeroHeader(sticky, data)
    ensures !DecodeGroups(s, gs, data, known, leftover).Stuck?
    decreases |data|, 3, |gs|
  {
    hide Forward, Closed, ZeroHeader, DecodeGroup, AllOptional, EmptyGroups, GroupForward;
    ForwardIsClosed(s, ids, sticky);
    if gs != [] && !(AllOptional(gs) && data == []) {
      GroupEnds(s, ids, sticky, gs[0], data, known);
      var g := DecodeGroup(s, gs[0], data, known);
      if g.Ok? {
        GroupsEnd(s, ids, sticky, gs[1..], g.value.1, g.value.2, leftover);
      }
    }
  }

  lemma ForwardIsClosed(s: Schema, ids: set<nat>, sticky: set<nat>)
    requires Forward(s, ids, sticky)
    ensures Closed(s)
  {}

  lemma {:induction false} GroupEnds(s: Schema, ids: set<nat>, sticky: set<nat>, g: Group, data: seq<Byte>, known: int)
    requires Forward(s, ids, sticky) && GroupForward(s, ids, sticky, g) && Refers(s, g.members)
    requires !ZeroHeader(sticky, data)
    ensures Closed(s)
    ensures var r := DecodeGroup(s, g, data, known);
            !r.Stuck? && (r.Ok? ==> !ZeroHeader(sticky, r.value.1))
    decreases |data|, 2
  {
    hide Forward, Closed, ZeroHeader, DecodeSimple, DecodeChoice, DecodeLoop, SmallestMin, HasTv, HasTlv;
    ForwardIsClosed(s, ids, sticky);
    if g.Simple() {
      assert g.members == [] || g.members[0..] == g.members;
      SimpleEnds(s, ids, sticky, g, g.members, data, known);
    } else if g.Exclusive() {
      ChoiceEnds(s, ids, sticky, g, data);
    } else {
      LoopEnds(s, ids, sticky, g, EmptySlots(|g.members|), data);
    }
  }

  lemma {:induction false} SimpleEnds(s: Schema, ids: set<nat>, sticky: set<nat>, g: Group, members: seq<nat>,
                                      data: seq<Byte>, known: int)
    requires Forward(s, ids, sticky) && Refers(s, members) && (forall k :: 0 <= k < |members| ==> members[k] in ids)
    requires !ZeroHeader(sticky, data)
    ensures Closed(s)
    ensures var r := DecodeSimple(s, g, members, data, known);
            !r.Stuck? && (r.Ok? ==> !ZeroHeader(sticky, r.value.1))
    decreases |data|, 1, |members|
  {
    hide Forward, Closed, ZeroHeader, DecodeOne, HeaderGuard;
    ForwardIsClosed(s, ids, sticky);
    if members != [] {
      OneEnds(s, ids, sticky, members[0], g.optional, data);
      var one := DecodeOne(s, members[0], g.optional, data);
      if one.Ok? {
        var guard := if g.optional then 0 else HeaderGuard(s, members[0], known);
        var checked := if guard > 0 then guard else known;
        var left :=
          if g.optional then known else if s[members[0]].fixed then checked - s[members[0]].minSize else 0;
        SimpleEnds(s, ids, sticky, g, members[1..], one.value.1, left);
      }
    }
  }

  lemma {:induction false} OneEnds(s: Schema, ids: set<nat>, sticky: set<nat>, id: nat, optional: bool, data: seq<Byte>)
    requires Forward(s, ids, sticky) && id in s && id in ids && !ZeroHeader(sticky, data)
    ensures Closed(s)
    ensures var r := DecodeOne(s, id, optional, data);
            !r.Stuck? && (r.Ok? ==> !ZeroHeader(sticky, r.value.1))
    decreases |data|, 0, 2
  {
    hide Forward, Closed, ZeroHeader, ReadMember, ReadValue;
    ForwardIsClosed(s, ids, sticky);
    ValueEnds(s, ids, sticky, id, false, data, s[id].minSize);
    MemberEnds(s, ids, sticky, id, false, data);
    var m := ReadMember(s, id, false, data);
    if m.Ok? {
      SliceHasNoZeroHeader(sticky, data, m.value.1, |data|);
    }
  }

  lemma {:induction false} ChoiceEnds(s: Schema, ids: set<nat>, sticky: set<nat>, g: Group, data: seq<Byte>)
    requires Forward(s, ids, sticky) && GroupForward(s, ids, sticky, g) && Refers(s, g.members)
    requires !ZeroHeader(sticky, data)
    ensures Closed(s)
    ensures var r := DecodeChoice(s, g, data);
            !r.Stuck? && (r.Ok? ==> !ZeroHeader(sticky, r.value.1))
    decreases |data|, 1, 0
  {
    hide Forward, Closed, ZeroHeader, ReadMember, IndexOf;
    ForwardIsClosed(s, ids, sticky);
    var pt := ReadType(g, data);
    if pt.Ok? {
      var k := IndexOf(g.members, pt.value);
      if k < |g.members| {
        MemberEnds(s, ids, sticky, pt.value, false, data);
        var m := ReadMember(s, pt.value, false, data);
        if m.Ok? {
          SliceHasNoZeroHeader(sticky, data, m.value.1, |data|);
        }
      }
    }
  }

  lemma {:induction false} LoopEnds(s: Schema, ids: set<nat>, sticky: set<nat>, g: Group, slots: seq<Slot>,
                                    data: seq<Byte>)
    requires Forward(s, ids, sticky) && GroupForward(s, ids, sticky, g) && Refers(s, g.members)
    requires !g.Simple() && !g.Exclusive() && |slots| == |g.members| && !ZeroHeader(sticky, data)
    ensures Closed(s)
    ensures var r := DecodeLoop(s, g, slots, data);
            !r.Stuck? && (r.Ok? ==> !ZeroHeader(sticky, r.value.1))
    decreases |data|, 1, 0
  {
    hide Forward, Closed, ZeroHeader, ReadMember, IndexOf, Put, HasTv, HasTlv;
    ForwardIsClosed(s, ids, sticky);
    if |data| >= if HasTv(g.members) then 1 else 4 {
      var pt := ReadType(g, data);
      if pt.Ok? {
        var k := IndexOf(g.members, pt.value);
        if k < |g.members| {
          MemberEnds(s, ids, sticky, pt.value, g.repeatable, data);
          var m := ReadMember(s, pt.value, g.repeatable, data);
          if m.Ok? {
            MemberAdvances(s, ids, sticky, g, k, data);
            SliceHasNoZeroHeader(sticky, data, m.value.1, |data|);
            LoopEnds(s, ids, sticky, g, Put(g, slots, k, m.value.0), data[m.value.1..]);
          }
        }
      }
    }
  }

  /** A member read by the loop either moves the data along or has a zero header. */
  lemma MemberAdvances(s: Schema, ids: set<nat>, sticky: set<nat>, g: Group, k: nat, data: seq<Byte>)
    requires Forward(s, ids, sticky) && GroupForward(s, ids, sticky, g) && k < |g.members|
    requires !g.Simple() && !g.Exclusive() && !ZeroHeader(sticky, data)
    requires ReadType(g, data) == Ok(g.members[k])
    ensures Closed(s) && g.members[k] in s
    ensures var r := ReadMember(s, g.members[k], g.repeatable, data); r.Ok? ==> r.value.1 > 0
  {
    hide Closed, GroupsForward, UnmarshalBinary, DecodeField, ZeroHeader;
    var id := g.members[k];
    assert id in s && id in ids && s[id].minSize > 0;
    if !IsTv(id) && |data| >= 4 && U16At(data, 2) == 0 {
      if Sticks(s, g, id) {
        TypeIsFirst(g, k, data);
        HeaderInFront(sticky, data);
      }
    }
  }

  lemma HeaderInFront(sticky: set<nat>, data: seq<Byte>)
    requires |data| >= 4 && U16At(data, 0) in sticky && U16At(data, 2) == 0
    ensures ZeroHeader(sticky, data)
  {
    assert U16At(data, 0) in sticky && U16At(data, 0 + 2) == 0;
  }

  /** A TLV type the switch has seen is the data's first two bytes. */
  lemma TypeIsFirst(g: Group, k: nat, data: seq<Byte>)
    requires k < |g.members| && |data| >= 4 && ReadType(g, data) == Ok(g.members[k]) && g.members[k] >= 128
    ensures U16At(data, 0) == g.members[k]
  {
    assert !IsTv(g.members[k]) && HasTlv(g.members);
  }

  lemma {:induction false} MemberEnds(s: Schema, ids: set<nat>, sticky: set<nat>, id: nat, repeatable: bool,
                                      data: seq<Byte>)
    requires Forward(s, ids, sticky) && id in s && id in ids && !ZeroHeader(sticky, data)
    ensures Closed(s) && !ReadMember(s, id, repeatable, data).Stuck?
    decreases |data|, 0, 1
  {
    hide Forward, Closed, ZeroHeader, ReadValue;
    ForwardIsClosed(s, ids, sticky);
    ValueEnds(s, ids, sticky, id, repeatable, data, s[id].minSize);
    if |data| >= 4 {
      ValueEnds(s, ids, sticky, id, repeatable, data, U16At(data, 2));
    }
  }

  lemma {:induction false} ValueEnds(s: Schema, ids: set<nat>, sticky: set<nat>, id: nat, repeatable: bool,
                                     data: seq<Byte>, end: nat)
    requires Forward(s, ids, sticky) && id in s && id in ids && !ZeroHeader(sticky, data)
    ensures Closed(s) && !ReadValue(s, id, repeatable, data, end).Stuck?
    decreases |data|, 0, 0
  {
    hide Forward, Closed, ZeroHeader, UnmarshalBinary, DecodeField;
    ForwardIsClosed(s, ids, sticky);
    if !(CanInline(s[id]) && !repeatable) && HeaderSize(id) <= end <= |data| {
      SliceHasNoZeroHeader(sticky, data, HeaderSize(id), end);
      DecodingEnds(s, ids, sticky, id, data[HeaderSize(id)..end]);
    }
  }
}
