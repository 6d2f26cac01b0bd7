/** The encoder: `getHeader` measures a parameter into a tree of headers, `encodeParams`
    prints the tree. */
module Encoder {
  import opened Bytes
  import opened Fields
  import opened Schema

  /** `data` is what the parameter's `EncodeFields` writes. */
  datatype ParamHeader = ParamHeader(typ: nat, sz: nat, data: seq<Byte>, subs: seq<ParamHeader>)

  // ---- specification ----

  function Terms(fs: seq<Field>, vs: seq<FieldValue>): nat
    requires |fs| == |vs|
  {
    if fs == [] then 0 else HeaderTerm(fs[0], vs[0]) + Terms(fs[1..], vs[1..])
  }

  function MinSizes(fs: seq<Field>): nat {
    if fs == [] then 0 else MinSize(fs[0]) + MinSizes(fs[1..])
  }

  function SumSz(hs: seq<ParamHeader>): nat {
    if hs == [] then 0 else hs[0].sz + SumSz(hs[1..])
  }

  /** The tree `getHeader` should return, and does for the parameters that are `Measured`. */
  ghost function HeaderOf(s: Schema, id: nat, v: Value): ParamHeader
    requires WellFormed(s, id, v)
    decreases v, 1
  {
    var c := s[id];
    var subs := GroupsHeaders(s, c.groups, v.groups);
    var own := HeaderSize(id) + MinSizes(c.fields) + Terms(c.fields, v.fields);
    ParamHeader(id, U16(own + SumSz(subs)), EncodeFields(c.fields, v.fields), subs)
  }

  ghost function GroupsHeaders(s: Schema, gs: seq<Group>, gvs: seq<GroupValue>): seq<ParamHeader>
    requires GroupsWellFormed(s, gs, gvs)
    decreases gvs, 0
  {
    if gs == [] then []
    else SlotsHeaders(s, gs[0], gs[0].members, gvs[0].slots) + GroupsHeaders(s, gs[1..], gvs[1..])
  }

  ghost function SlotsHeaders(s: Schema, g: Group, ids: seq<nat>, slots: seq<Slot>): seq<ParamHeader>
    requires SlotsWellFormed(s, ids, slots)
    decreases slots, 0
  {
    if ids == [] then []
    else ItemsHeaders(s, g, ids[0], slots[0].items) + SlotsHeaders(s, g, ids[1..], slots[1..])
  }

  /** An exclusive group's member is written only if it is not its zero value. */
  ghost function ItemsHeaders(s: Schema, g: Group, id: nat, items: seq<Value>): seq<ParamHeader>
    requires ItemsWellFormed(s, id, items)
    decreases items, 0
  {
    if items == [] then []
    else
      (if g.Exclusive() && !Selected(items[0]) then [] else [HeaderOf(s, id, items[0])])
      + ItemsHeaders(s, g, id, items[1..])
  }

  function HeaderBytes(h: ParamHeader): (r: seq<Byte>)
    ensures |r| == HeaderSize(h.typ)
  {
    if IsTv(h.typ) then [0x80 + h.typ]
    else [h.typ / 256 % 256, h.typ % 256, h.sz / 256 % 256, h.sz % 256]
  }

  /** What `encodeParams` writes for one header, and for several. */
  function Emit(h: ParamHeader): seq<Byte>
    decreases h, 1
  {
    HeaderBytes(h) + h.data + EmitAll(h.subs)
  }

  function EmitAll(hs: seq<ParamHeader>): seq<Byte>
    decreases hs, 0
  {
    if hs == [] then [] else Emit(hs[0]) + EmitAll(hs[1..])
  }

  ghost function Encode(s: Schema, id: nat, v: Value): seq<Byte>
    requires WellFormed(s, id, v)
  {
    Emit(HeaderOf(s, id, v))
  }

  /** `MarshalBinary` of a parameter: the encoding without the parameter's own header. */
  ghost function Body(s: Schema, id: nat, v: Value): seq<Byte>
    requires WellFormed(s, id, v)
  {
    EncodeFields(s[id].fields, v.fields) + EmitAll(GroupsHeaders(s, s[id].groups, v.groups))
  }

  lemma EncodeIsHeaderAndBody(s: Schema, id: nat, v: Value)
    requires WellFormed(s, id, v)
    ensures Encode(s, id, v) == HeaderBytes(HeaderOf(s, id, v)) + Body(s, id, v)
    ensures Body(s, id, v) == Encode(s, id, v)[HeaderSize(id)..]
  {
    assert Encode(s, id, v) == HeaderBytes(HeaderOf(s, id, v)) + Body(s, id, v);
  }

  // ---- sizes ----

  /** Every node's size is the number of bytes printed for its subtree, modulo 2^16. */
  ghost predicate SizesExact(h: ParamHeader)
    decreases h, 1
  {
    h.sz == U16(|Emit(h)|) && AllSizesExact(h.subs)
  }

  ghost predicate AllSizesExact(hs: seq<ParamHeader>)
    decreases hs, 0
  {
    hs != [] ==> SizesExact(hs[0]) && AllSizesExact(hs[1..])
  }

  lemma EmitAllUnfolds(hs: seq<ParamHeader>)
    ensures EmitAll(hs) == if hs == [] then [] else Emit(hs[0]) + EmitAll(hs[1..])
  {
    hide Emit;
  }

  lemma {:induction false} EmitAllConcat(a: seq<ParamHeader>, b: seq<ParamHeader>)
    ensures EmitAll(a + b) == EmitAll(a) + EmitAll(b)
  {
    hide *;
    EmitAllUnfolds(a);
    if a == [] {
      assert a + b == b && [] + EmitAll(b) == EmitAll(b);
    } else {
      EmitAllConcat(a[1..], b);
      EmitAllUnfolds(a + b);
      assert (a + b)[1..] == a[1..] + b && (a + b)[0] == a[0];
      assert Emit(a[0]) + (EmitAll(a[1..]) + EmitAll(b)) == (Emit(a[0]) + EmitAll(a[1..])) + EmitAll(b);
    }
  }

  lemma {:induction false} AllSizesExactConcat(a: seq<ParamHeader>, b: seq<ParamHeader>)
    requires AllSizesExact(a) && AllSizesExact(b)
    ensures AllSizesExact(a + b)
  {
    if a == [] {
      assert a + b == b;
    } else {
      AllSizesExactConcat(a[1..], b);
      assert (a + b)[1..] == a[1..] + b;
    }
  }

  lemma {:induction false} SumSzIsExact(hs: seq<ParamHeader>)
    requires AllSizesExact(hs)
    ensures U16(SumSz(hs)) == U16(|EmitAll(hs)|)
  {
    if hs == [] {
    } else {
      SumSzIsExact(hs[1..]);
      U16Absorbs(|Emit(hs[0])|, 0);
      U16Sums(hs[0].sz, |Emit(hs[0])|, SumSz(hs[1..]), |EmitAll(hs[1..])|);
    }
  }

  lemma {:induction false} FieldTermsAreExact(fs: seq<Field>, vs: seq<FieldValue>)
    requires FieldsOk(fs, vs)
    ensures U16(MinSizes(fs) + Terms(fs, vs)) == U16(|EncodeFields(fs, vs)|)
    ensures MinSizes(fs) <= |EncodeFields(fs, vs)|
  {
    if fs == [] {
    } else {
      HeaderTermIsExact(fs[0], vs[0]);
      FieldTermsAreExact(fs[1..], vs[1..]);
      U16Sums(MinSize(fs[0]) + HeaderTerm(fs[0], vs[0]), |EncodeField(fs[0], vs[0])|,
              MinSizes(fs[1..]) + Terms(fs[1..], vs[1..]), |EncodeFields(fs[1..], vs[1..])|);
    }
  }

  /** A header's size is the number of bytes `encodeParams` writes for the parameter with
      everything nested in it, and so for every nested parameter. */
  lemma {:induction false} SizeIsExact(s: Schema, id: nat, v: Value)
    requires WellFormed(s, id, v)
    ensures SizesExact(HeaderOf(s, id, v))
    decreases v, 1
  {
    hide *;
    HeaderOfUnfolds(s, id, v);
    var c := s[id];
    var h := HeaderOf(s, id, v);
    GroupsSizesExact(s, c.groups, v.groups);
    SumSzIsExact(h.subs);
    FieldTermsAreExact(c.fields, v.fields);
    var own := MinSizes(c.fields) + Terms(c.fields, v.fields);
    U16Absorbs(HeaderSize(id) + own, SumSz(h.subs));
    U16Sums(own, |h.data|, SumSz(h.subs), |EmitAll(h.subs)|);
    U16Sums(own + SumSz(h.subs), |h.data| + |EmitAll(h.subs)|, HeaderSize(id), HeaderSize(id));
    ExactFrom(h);
  }

  lemma ExactFrom(h: ParamHeader)
    requires AllSizesExact(h.subs) && h.sz == U16(|h.data| + |EmitAll(h.subs)| + HeaderSize(h.typ))
    ensures SizesExact(h)
  {
    hide EmitAll, AllSizesExact, U16, HeaderSize;
    assert Emit(h) == HeaderBytes(h) + h.data + EmitAll(h.subs);
  }

  lemma EmptyGroupsHaveNoHeaders(s: Schema, v: Value)
    ensures GroupsWellFormed(s, [], v.groups) ==> GroupsHeaders(s, [], v.groups) == []
  {}

  lemma {:induction false} GroupsSizesExact(s: Schema, gs: seq<Group>, gvs: seq<GroupValue>)
    requires GroupsWellFormed(s, gs, gvs)
    ensures AllSizesExact(GroupsHeaders(s, gs, gvs))
    decreases gvs, 0
  {
    if gs == [] {
    } else {
      SlotsSizesExact(s, gs[0], gs[0].members, gvs[0].slots);
      GroupsSizesExact(s, gs[1..], gvs[1..]);
      AllSizesExactConcat(SlotsHeaders(s, gs[0], gs[0].members, gvs[0].slots), GroupsHeaders(s, gs[1..], gvs[1..]));
    }
  }

  lemma {:induction false} SlotsSizesExact(s: Schema, g: Group, ids: seq<nat>, slots: seq<Slot>)
    requires SlotsWellFormed(s, ids, slots)
    ensures AllSizesExact(SlotsHeaders(s, g, ids, slots))
    decreases slots, 0
  {
    if ids == [] {
    } else {
      ItemsSizesExact(s, g, ids[0], slots[0].items);
      SlotsSizesExact(s, g, ids[1..], slots[1..]);
      AllSizesExactConcat(ItemsHeaders(s, g, ids[0], slots[0].items), SlotsHeaders(s, g, ids[1..], slots[1..]));
    }
  }

  lemma {:induction false} ItemsSizesExact(s: Schema, g: Group, id: nat, items: seq<Value>)
    requires ItemsWellFormed(s, id, items)
    ensures AllSizesExact(ItemsHeaders(s, g, id, items))
    decreases items, 0
  {
    if items == [] {
    } else {
      SizeIsExact(s, id, items[0]);
      ItemsSizesExact(s, g, id, items[1..]);
      var first := if g.Exclusive() && !Selected(items[0]) then [] else [HeaderOf(s, id, items[0])];
      AllSizesExactConcat(first, ItemsHeaders(s, g, id, items[1..]));
    }
  }

  /** The length field a TLV carries on the wire delimits exactly its own bytes when, and
      only when, they are at most 65535. */
  lemma LengthFieldDelimits(s: Schema, id: nat, v: Value)
    requires WellFormed(s, id, v) && !IsTv(id)
    ensures U16At(Encode(s, id, v), 2) == |Encode(s, id, v)| <==> |Encode(s, id, v)| <= 65535
  {
    hide WellFormed, HeaderOf, EmitAll, AllSizesExact;
    SizeIsExact(s, id, v);
    HeaderTypIs(s, id, v);
    var h := HeaderOf(s, id, v);
    assert Encode(s, id, v) == HeaderBytes(h) + (h.data + EmitAll(h.subs));
  }

  /** The header itself: one byte, 128 more than the type, up to type 127, and the type and
      the length in two bytes each beyond that. */
  lemma HeaderOnTheWire(s: Schema, id: nat, v: Value)
    requires WellFormed(s, id, v) && id < 0x1_0000
    ensures var e := Encode(s, id, v);
            && e != []
            && (1 <= id <= 127 ==> e[0] == 128 + id)
            && (!(1 <= id <= 127) ==>
                  && |e| >= 4 && 256 * e[0] as nat + e[1] as nat == id
                  && (|e| <= 65535 ==> 256 * e[2] as nat + e[3] as nat == |e|))
  {
    hide WellFormed, HeaderOf, EmitAll;
    HeaderTypIs(s, id, v);
    var h := HeaderOf(s, id, v);
    assert Encode(s, id, v) == HeaderBytes(h) + (h.data + EmitAll(h.subs));
    if !IsTv(id) {
      LengthFieldDelimits(s, id, v);
    }
  }

  lemma HeaderTypIs(s: Schema, id: nat, v: Value)
    requires WellFormed(s, id, v)
    ensures HeaderOf(s, id, v).typ == id
  {}

  lemma NothingEmitted()
    ensures EmitAll([]) == []
  {}

  lemma EmitAllSnoc(hs: seq<ParamHeader>, i: nat)
    requires i < |hs|
    ensures EmitAll(hs[..i + 1]) == EmitAll(hs[..i]) + Emit(hs[i])
  {
    assert hs[..i + 1] == hs[..i] + [hs[i]];
    EmitAllConcat(hs[..i], [hs[i]]);
    EmitAllSingle(hs[i]);
  }

  lemma EmitAllSingle(h: ParamHeader)
    ensures EmitAll([h]) == Emit(h)
  {
    assert [h][1..] == [];
    assert Emit(h) + [] == Emit(h);
  }

  lemma {:induction false} SumSzConcat(a: seq<ParamHeader>, b: seq<ParamHeader>)
    ensures SumSz(a + b) == SumSz(a) + SumSz(b)
  {
    if a == [] {
      assert a + b == b;
    } else {
      SumSzConcat(a[1..], b);
      assert (a + b)[1..] == a[1..] + b;
    }
  }

  lemma HeaderOfUnfolds(s: Schema, id: nat, v: Value)
    requires WellFormed(s, id, v)
    ensures id in s && FieldsOk(s[id].fields, v.fields) && |s[id].fields| == |v.fields|
    ensures GroupsWellFormed(s, s[id].groups, v.groups)
    ensures var c := s[id];
            var own := HeaderSize(id) + MinSizes(c.fields) + Terms(c.fields, v.fields);
            var subs := GroupsHeaders(s, c.groups, v.groups);
            HeaderOf(s, id, v) == ParamHeader(id, U16(U16(own) + SumSz(subs)), EncodeFields(c.fields, v.fields), subs)
  {
    hide GroupsHeaders, GroupsWellFormed, SlotsHeaders, ItemsHeaders, Terms, MinSizes, EncodeFields, U16, FieldsOk;
    var c := s[id];
    FieldsAligned(c.fields, v.fields);
    var own := HeaderSize(id) + MinSizes(c.fields) + Terms(c.fields, v.fields);
    var subs := GroupsHeaders(s, c.groups, v.groups);
    EmptyGroupsHaveNoHeaders(s, v);
    U16Absorbs(own, SumSz(subs));
    assert SumSz([]) == 0;
  }

  lemma FieldsAligned(fs: seq<Field>, vs: seq<FieldValue>)
    requires FieldsOk(fs, vs)
    ensures |fs| == |vs|
  {}

  lemma SlotsHeadersStep(s: Schema, g: Group, slots: seq<Slot>, k: nat)
    requires k < |slots| == |g.members| && SlotsWellFormed(s, g.members[k..], slots[k..])
    ensures ItemsWellFormed(s, g.members[k], slots[k].items)
    ensures SlotsWellFormed(s, g.members[k + 1..], slots[k + 1..])
    ensures SlotsHeaders(s, g, g.members[k..], slots[k..])
            == ItemsHeaders(s, g, g.members[k], slots[k].items)
               + SlotsHeaders(s, g, g.members[k + 1..], slots[k + 1..])
  {
    assert g.members[k..][1..] == g.members[k + 1..] && slots[k..][1..] == slots[k + 1..];
  }
}
