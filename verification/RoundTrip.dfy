/** The codec's central law: decoding an encoding gives the value back, exactly when
    nothing in the value is of the two kinds the generated code loses. */
module RoundTrip {
  import opened Bytes
  import opened Outcomes
  import opened Fields
  import opened Schema
  import opened Encoder
  import opened Decoder
  import opened HeaderCode

  // ---- fields ----

  lemma EncodeFieldsStep(fs: seq<Field>, vs: seq<FieldValue>, i: nat)
    requires i < |fs| == |vs|
    ensures EncodeFields(fs[i..], vs[i..]) == EncodeField(fs[i], vs[i]) + EncodeFields(fs[i + 1..], vs[i + 1..])
    ensures i + 1 == |fs| ==> EncodeFields(fs[i + 1..], vs[i + 1..]) == []
  {
    assert fs[i..][1..] == fs[i + 1..] && vs[i..][1..] == vs[i + 1..];
  }

  /** The fields read back, and the data left is what follows them whenever the last
      field moves `data` past itself. */
  lemma {:induction false} FieldsRoundTrip(c: Container, vs: seq<FieldValue>, i: nat, before: seq<Byte>,
                                           tail: seq<Byte>)
    requires FieldsOk(c.fields, vs) && TailOk(c) && i <= |c.fields|
    requires forall k :: 0 <= k < |c.fields| ==> FieldOk(c.fields[k])
    requires c.groups == [] ==> tail == []
    ensures var r := DecodeFieldsFrom(c, i, before + EncodeFields(c.fields[i..], vs[i..]) + tail, |before|);
            && r.Ok? && r.value.0 == vs[i..]
            && (i < |c.fields| && Reslices(c, |c.fields| - 1) && !c.fields[|c.fields| - 1].Remainder?
                ==> r.value.1 == tail)
    decreases |c.fields| - i
  {
    hide EncodeField, EncodeFields, DecodeField, ValueOk, FieldOk;
    var data := before + EncodeFields(c.fields[i..], vs[i..]) + tail;
    if i == |c.fields| {
    } else {
      var e := EncodeField(c.fields[i], vs[i]);
      var rest := EncodeFields(c.fields[i + 1..], vs[i + 1..]);
      EncodeFieldsStep(c.fields, vs, i);
      assert data == before + e + (rest + tail);
      assert vs[i..] == [vs[i]] + vs[i + 1..];
      if c.fields[i].Remainder? {
        assert data == before + e;
        RemainderValue(c.fields[i], vs[i]);
        LastFieldRoundTrip(c, vs[i], before);
        assert vs[i + 1..] == [];
      } else {
        FieldRoundTrip(c.fields[i], vs[i], before, rest + tail);
        if Reslices(c, i) {
          assert data[|before| + |e|..] == [] + rest + tail;
          FieldsRoundTrip(c, vs, i + 1, [], tail);
        } else {
          assert data == (before + e) + rest + tail;
          FieldsRoundTrip(c, vs, i + 1, before + e, tail);
        }
      }
    }
  }

  /** Fixed fields behind the last variable one stay in the data. */
  lemma {:induction false} TrailingStays(c: Container, vs: seq<FieldValue>, i: nat, before: seq<Byte>)
    requires FieldsOk(c.fields, vs) && TailOk(c) && i <= |c.fields| && c.groups == []
    requires forall k :: 0 <= k < |c.fields| ==> FieldOk(c.fields[k])
    requires c.fields == [] || !c.fields[|c.fields| - 1].Remainder?
    ensures var r := DecodeFieldsFrom(c, i, before + EncodeFields(c.fields[i..], vs[i..]), |before|);
            && r.Ok? && r.value.0 == vs[i..]
            && |r.value.1| == (if AllFixed(c.fields[i..]) then |before| else 0) + Trailing(c.fields[i..])
    decreases |c.fields| - i
  {
    hide EncodeField, EncodeFields, DecodeField, ValueOk, FieldOk, MinSize, IsFixed;
    var data := before + EncodeFields(c.fields[i..], vs[i..]);
    if i == |c.fields| {
      NoFieldsEncode(vs[i..]);
    } else {
      var e := EncodeField(c.fields[i], vs[i]);
      var rest := EncodeFields(c.fields[i + 1..], vs[i + 1..]);
      EncodeFieldsStep(c.fields, vs, i);
      assert data == before + e + rest;
      assert vs[i..] == [vs[i]] + vs[i + 1..];
      assert c.fields[i..][1..] == c.fields[i + 1..];
      FieldRoundTrip(c.fields[i], vs[i], before, rest);
      AllFixedStep(c.fields, i);
      if Reslices(c, i) {
        assert data[|before| + |e|..] == [] + rest;
        TrailingStays(c, vs, i + 1, []);
      } else {
        FixedFieldSize(c.fields[i], vs[i]);
        assert data == (before + e) + rest;
        TrailingStays(c, vs, i + 1, before + e);
      }
    }
  }

  lemma NoFieldsEncode(vs: seq<FieldValue>)
    requires vs == []
    ensures EncodeFields([], vs) == []
  {}

  lemma AllFixedStep(fs: seq<Field>, i: nat)
    requires i < |fs|
    ensures AllFixed(fs[i..]) <==> IsFixed(fs[i]) && AllFixed(fs[i + 1..])
  {
    hide IsFixed;
    assert fs[i..] == [fs[i]] + fs[i + 1..];
  }

  lemma LastFieldRoundTrip(c: Container, v: FieldValue, before: seq<Byte>)
    requires c.fields != [] && c.fields[|c.fields| - 1].Remainder? && v.Blob?
    ensures var i := |c.fields| - 1;
            var e := EncodeField(c.fields[i], v);
            DecodeFieldsFrom(c, i, before + e, |before|) == Ok(([v], e))
  {
    hide EncodeField, DecodeField;
    RemainderRoundTrip(v, before);
    assert IsFixed(Remainder) == false;
    LastFieldUnfolds(c, before + EncodeField(Remainder, v), |before|, v);
  }

  lemma LastFieldUnfolds(c: Container, data: seq<Byte>, pos: nat, v: FieldValue)
    requires c.fields != [] && pos <= |data|
    requires Reslices(c, |c.fields| - 1) && DecodeField(c.fields[|c.fields| - 1], data, pos) == Ok((v, pos))
    ensures DecodeFieldsFrom(c, |c.fields| - 1, data, pos) == Ok(([v], data[pos..]))
  {
    hide DecodeField;
    var d := data[pos..];
    assert DecodeFieldsFrom(c, |c.fields|, d, 0) == Ok(([], d));
    assert [v] + [] == [v];
  }

  /** A `Remainder` with anything behind it takes that too, so its value comes back longer. */
  lemma {:induction false} RemainderSwallows(c: Container, vs: seq<FieldValue>, j: nat, i: nat, before: seq<Byte>,
                                             tail: seq<Byte>)
    requires FieldsOk(c.fields, vs) && j <= i < |c.fields| && c.fields[i].Remainder?
    requires forall k :: 0 <= k < |c.fields| ==> FieldOk(c.fields[k])
    requires forall k :: 0 <= k < i ==> !c.fields[k].Remainder?
    requires EncodeFields(c.fields[i + 1..], vs[i + 1..]) + tail != []
    ensures var r := DecodeFieldsFrom(c, j, before + EncodeFields(c.fields[j..], vs[j..]) + tail, |before|);
            r.Ok? ==> r.value.0 != vs[j..]
    decreases i - j
  {
    hide EncodeField, EncodeFields, DecodeField, ValueOk, FieldOk;
    var data := before + EncodeFields(c.fields[j..], vs[j..]) + tail;
    var e := EncodeField(c.fields[j], vs[j]);
    var rest := EncodeFields(c.fields[j + 1..], vs[j + 1..]);
    EncodeFieldsStep(c.fields, vs, j);
    assert data == before + e + (rest + tail);
    assert vs[j..] == [vs[j]] + vs[j + 1..];
    if j == i {
      RemainderValue(c.fields[j], vs[j]);
      RemainderGrows(vs[j], before, rest + tail);
    } else {
      FieldRoundTrip(c.fields[j], vs[j], before, rest + tail);
      if Reslices(c, j) {
        assert data[|before| + |e|..] == [] + rest + tail;
        RemainderSwallows(c, vs, j + 1, i, [], tail);
      } else {
        assert data == (before + e) + rest + tail;
        RemainderSwallows(c, vs, j + 1, i, before + e, tail);
      }
    }
  }

  lemma RemainderGrows(v: FieldValue, before: seq<Byte>, after: seq<Byte>)
    requires v.Blob? && after != []
    ensures var r := DecodeField(Remainder, before + EncodeField(Remainder, v) + after, |before|);
            r.Ok? && r.value.0 != v
  {
    assert |(before + v.bytes + after)[|before|..]| > |v.bytes|;
  }

  lemma RemainderRoundTrip(v: FieldValue, before: seq<Byte>)
    requires v.Blob?
    ensures var e := EncodeField(Remainder, v);
            DecodeField(Remainder, before + e, |before|) == Ok((v, |before|)) && (before + e)[|before|..] == e
  {
    assert (before + v.bytes)[|before|..] == v.bytes;
  }

  lemma RemainderValue(f: Field, v: FieldValue)
    requires f.Remainder? && ValueOk(f, v)
    ensures v.Blob?
  {}

  // ---- schemas ----

  /** `min_size` does not exceed the encoding of any value that reaches the wire whole. */
  ghost predicate MinSizeIsLower(s: Schema, id: nat)
    requires id in s
  {
    forall v :: WellFormed(s, id, v) && Clean(s, id, v) ==> s[id].minSize <= |Encode(s, id, v)|
  }

  /** What the law asks of a schema: closed, coherent, and with sound minimum sizes,
      which for the TV parameters, all of fixed size, are their sizes. */
  ghost predicate Good(s: Schema) {
    && Closed(s) && AllCompile(s) && AllVisible(s)
    && (forall id :: id in s ==>
          && ContainerGood(id, s[id])
          && MinSizeIsLower(s, id)
          && (IsTv(id) ==> s[id].minSize == 1 + MinSizes(s[id].fields)))
  }

  lemma GoodContainer(s: Schema, id: nat)
    requires Good(s) && id in s
    ensures Closed(s) && ContainerGood(id, s[id]) && Visible(s, s[id].groups)
    ensures GroupsRefer(s, s[id].groups)
  {}

  lemma GoodIsMeasured(s: Schema)
    requires Good(s)
    ensures AllCompile(s) && AllMeasured(s)
  {
    hide Closed, AllCompile, AllVisible, MinSizeIsLower, FieldsGood, GroupsGood, Measured;
    assert forall id :: id in s ==> ContainerGood(id, s[id]);
  }

  // ---- headers on the wire ----

  /** Every one of the headers prints to a length that a length field can hold. */
  ghost predicate AllFit(hs: seq<ParamHeader>) {
    forall i :: 0 <= i < |hs| ==> |Emit(hs[i])| <= 65535
  }

  lemma {:induction false} ShortFits(hs: seq<ParamHeader>)
    requires |EmitAll(hs)| <= 65535
    ensures AllFit(hs)
    decreases |hs|
  {
    hide Emit;
    if hs == [] {
    } else {
      ShortFits(hs[1..]);
      assert forall i :: 0 < i < |hs| ==> hs[i] == hs[1..][i - 1];
    }
  }

  lemma FitParts(a: seq<ParamHeader>, b: seq<ParamHeader>)
    requires AllFit(a + b)
    ensures AllFit(a) && AllFit(b)
  {
    hide Emit;
    assert forall i :: 0 <= i < |a| ==> a[i] == (a + b)[i];
    assert forall i :: 0 <= i < |b| ==> b[i] == (a + b)[|a| + i];
  }

  /** A printed header shows its type and, if it has one, its length. */
  lemma HeaderReads(h: ParamHeader, rest: seq<Byte>)
    requires 0 < h.typ < 0x8000 && h.sz == U16(|Emit(h)|) && |Emit(h)| <= 65535
    ensures var data := Emit(h) + rest;
            && |Emit(h)| >= HeaderSize(h.typ)
            && (IsTv(h.typ) ==> data[0] == 0x80 + h.typ)
            && (!IsTv(h.typ) ==> data[0] < 0x80 && data[0] == h.typ / 256
                                 && U16At(data, 0) == h.typ && U16At(data, 2) == |Emit(h)|)
            && data[|Emit(h)|..] == rest
  {
    hide EmitAll;
    var data := Emit(h) + rest;
    var hb := HeaderBytes(h);
    assert data == hb + (h.data + EmitAll(h.subs) + rest);
    if !IsTv(h.typ) {
      assert data[0] == hb[0] && data[1] == hb[1] && data[2] == hb[2] && data[3] == hb[3];
    }
  }

  // ---- one parameter ----

  /** The law for one value: decoded unchanged if clean, refused if not. */
  ghost predicate Law(s: Schema, id: nat, v: Value)
    requires Closed(s) && WellFormed(s, id, v)
  {
    && (Clean(s, id, v) ==> UnmarshalBinary(s, id, Body(s, id, v)) == Ok(v))
    && (!Clean(s, id, v) ==> UnmarshalBinary(s, id, Body(s, id, v)).IsFailure())
  }

  lemma InlineIsClean(s: Schema, id: nat, v: Value)
    requires WellFormed(s, id, v) && CanInline(s[id]) && Delimited(s[id])
    ensures Clean(s, id, v) && v.groups == [] && |v.fields| == 1 && v == Value([v.fields[0]], [])
    ensures ValueOk(s[id].fields[0], v.fields[0])
    ensures Body(s, id, v) == EncodeField(s[id].fields[0], v.fields[0])
  {
    hide ValueOk, EncodeField;
    assert s[id].fields[1..] == [] && v.fields[1..] == [];
    assert EncodeFields(s[id].fields, v.fields) == EncodeField(s[id].fields[0], v.fields[0]) + [];
    assert GroupsHeaders(s, [], []) == [];
  }

  lemma InlineIsFixed(id: nat, c: Container)
    requires FieldsGood(id, c) && CanInline(c)
    ensures c.fixed && Delimited(c)
  {}

  lemma FixedFieldSize(f: Field, v: FieldValue)
    requires IsFixed(f) && ValueOk(f, v)
    ensures |EncodeField(f, v)| == MinSize(f)
  {}

  lemma {:induction false} FixedFieldsSize(fs: seq<Field>, vs: seq<FieldValue>)
    requires FieldsOk(fs, vs) && AllFixed(fs)
    ensures |EncodeFields(fs, vs)| == MinSizes(fs)
  {
    hide ValueOk, EncodeField, MinSize;
    if fs == [] {
    } else {
      FixedFieldSize(fs[0], vs[0]);
      FixedFieldsSize(fs[1..], vs[1..]);
    }
  }

  /** A TV parameter takes its definition's minimum size, whatever its value. */
  lemma TvSize(s: Schema, id: nat, v: Value)
    requires Good(s) && WellFormed(s, id, v) && IsTv(id)
    ensures |Encode(s, id, v)| == s[id].minSize
  {
    hide WellFormed, FieldsOk, EncodeFields, MinSizes, MinSizeIsLower;
    FieldsOfValue(s, id, v);
    GoodContainer(s, id);
    FixedFieldsSize(s[id].fields, v.fields);
    EncodeIsHeaderAndBody(s, id, v);
    NoGroupsBody(s, id, v);
  }

  lemma FieldsOfValue(s: Schema, id: nat, v: Value)
    requires WellFormed(s, id, v)
    ensures id in s && FieldsOk(s[id].fields, v.fields) && |s[id].fields| == |v.fields|
    ensures GroupsWellFormed(s, s[id].groups, v.groups)
  {}

  lemma NoGroupsBody(s: Schema, id: nat, v: Value)
    requires WellFormed(s, id, v) && s[id].groups == []
    ensures Body(s, id, v) == EncodeFields(s[id].fields, v.fields)
  {
    hide FieldsOk, EncodeFields;
    assert GroupsHeaders(s, [], v.groups) == [];
  }

  /** Where a parameter's bytes lie. */
  lemma EncodingReads(s: Schema, id: nat, v: Value, rest: seq<Byte>)
    requires Good(s) && WellFormed(s, id, v) && |Encode(s, id, v)| <= 65535
    ensures 0 < id < 0x8000
    ensures var e := Encode(s, id, v);
            var data := e + rest;
            && |e| >= HeaderSize(id)
            && (IsTv(id) ==> data[0] == 0x80 + id && |e| == s[id].minSize)
            && (!IsTv(id) ==> data[0] < 0x80 && U16At(data, 0) == id && U16At(data, 2) == |e|)
            && data[HeaderSize(id)..|e|] == Body(s, id, v)
            && data[|e|..] == rest
  {
    hide WellFormed, Emit, MinSizes, Body, ContainerGood;
    FieldsOfValue(s, id, v);
    GoodContainer(s, id);
    GoodId(s, id);
    SizeIsExact(s, id, v);
    EncodeIsHeaderAndBody(s, id, v);
    HeaderTyp(s, id, v);
    HeaderReads(HeaderOf(s, id, v), rest);
    if IsTv(id) {
      TvSize(s, id, v);
    }
    var e := Encode(s, id, v);
    assert (e + rest)[HeaderSize(id)..|e|] == e[HeaderSize(id)..];
  }

  lemma GoodId(s: Schema, id: nat)
    requires Good(s) && id in s
    ensures 0 < id < 0x8000
  {}

  lemma HeaderTyp(s: Schema, id: nat, v: Value)
    requires WellFormed(s, id, v)
    ensures id in s && HeaderOf(s, id, v).typ == id && Encode(s, id, v) == Emit(HeaderOf(s, id, v))
  {}

  /** Reading one parameter off the front of the data. */
  lemma ReadsValue(s: Schema, id: nat, repeatable: bool, v: Value, rest: seq<Byte>)
    requires Good(s) && WellFormed(s, id, v) && |Encode(s, id, v)| <= 65535 && Law(s, id, v)
    ensures var e := Encode(s, id, v);
            var r := ReadValue(s, id, repeatable, e + rest, |e|);
            && (Clean(s, id, v) ==> r == Ok(v))
            && (!Clean(s, id, v) ==> r.IsFailure())
  {
    hide WellFormed, Encode, Body, Clean, UnmarshalBinary, DecodeField, EncodeField, ContainerGood, MinSizeIsLower;
    FieldsOfValue(s, id, v);
    EncodingReads(s, id, v, rest);
    if CanInline(s[id]) && !repeatable {
      GoodContainer(s, id);
      InlineIsFixed(id, s[id]);
      InlineIsClean(s, id, v);
      var e := Encode(s, id, v);
      var header := e[..HeaderSize(id)];
      EncodeIsHeaderAndBody(s, id, v);
      assert e == header + Body(s, id, v);
      GoodField(s, id);
      FieldRoundTrip(s[id].fields[0], v.fields[0], header, rest);
      assert e + rest == header + EncodeField(s[id].fields[0], v.fields[0]) + rest;
    }
  }

  lemma GoodField(s: Schema, id: nat)
    requires Good(s) && id in s && s[id].fields != []
    ensures FieldOk(s[id].fields[0])
  {
    GoodContainer(s, id);
  }

  lemma ReadsMember(s: Schema, id: nat, repeatable: bool, v: Value, rest: seq<Byte>)
    requires Good(s) && WellFormed(s, id, v) && |Encode(s, id, v)| <= 65535 && Law(s, id, v)
    ensures var e := Encode(s, id, v);
            var r := ReadMember(s, id, repeatable, e + rest);
            && (Clean(s, id, v) ==> r == Ok((v, |e|)))
            && (!Clean(s, id, v) ==> r.IsFailure())
  {
    hide WellFormed, Encode, Body, Clean, ReadValue, Law, ContainerGood, MinSizeIsLower;
    FieldsOfValue(s, id, v);
    EncodingReads(s, id, v, rest);
    ReadsValue(s, id, repeatable, v, rest);
  }
}
