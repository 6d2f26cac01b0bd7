/** Where the leading fields of a container stand, in plain arithmetic on the bytes. */
module Layout {
  import opened Bytes
  import opened Outcomes
  import opened Fields
  import opened Schema
  import opened Encoder
  import opened Decoder
  import opened RoundTrip

  // ---- the numbers in some data ----

  function Uint8(d: seq<Byte>, at: nat): (r: nat)
    ensures r < 256
  {
    if at < |d| then d[at] else 0
  }

  function Uint16(d: seq<Byte>, at: nat): nat {
    0x100 * Uint8(d, at) + Uint8(d, at + 1)
  }

  function Uint32(d: seq<Byte>, at: nat): nat {
    0x100_0000 * Uint8(d, at) + 0x1_0000 * Uint8(d, at + 1) + 0x100 * Uint8(d, at + 2) + Uint8(d, at + 3)
  }

  function Uint64(d: seq<Byte>, at: nat): nat {
    0x1_0000_0000 * Uint32(d, at) + Uint32(d, at + 4)
  }

  function NumberAt(d: seq<Byte>, at: nat, size: nat): nat
    decreases size
  {
    if size == 0 then 0 else 256 * NumberAt(d, at, size - 1) + Uint8(d, at + size - 1)
  }

  lemma Widths(d: seq<Byte>, at: nat)
    ensures NumberAt(d, at, 1) == Uint8(d, at) && NumberAt(d, at, 2) == Uint16(d, at)
    ensures NumberAt(d, at, 4) == Uint32(d, at) && NumberAt(d, at, 8) == Uint64(d, at)
  {
    assert NumberAt(d, at, 4) == Uint32(d, at);
    assert NumberAt(d, at, 6) == 0x1_0000 * Uint32(d, at) + Uint16(d, at + 4);
  }

  lemma {:induction false} NumberIsRead(d: seq<Byte>, at: nat, size: nat)
    requires at + size <= |d|
    ensures FromBigEndian(d[at..at + size]) == NumberAt(d, at, size)
  {
    if size > 0 {
      NumberIsRead(d, at, size - 1);
      assert d[at..at + size][..size - 1] == d[at..at + size - 1];
    }
  }

  // ---- fields ----

  function PartsOf(parts: seq<BitPart>, b: nat): seq<nat> {
    seq(|parts|, i requires 0 <= i < |parts| =>
      if parts[i].bit + parts[i].width <= 8 then BitsOf(b, parts[i]) else 0)
  }

  function BytesAt(d: seq<Byte>, at: nat, n: nat): seq<Byte> {
    seq(n, k requires 0 <= k => if at + k < |d| then d[at + k] else 0)
  }

  /** The value of a fixed-size field at an offset. */
  function FixedAt(f: Field, d: seq<Byte>, at: nat): FieldValue {
    match f
    case Scalar(size) =>
      Num(if size == 1 then Uint8(d, at)
          else if size == 2 then Uint16(d, at)
          else if size == 4 then Uint32(d, at)
          else if size == 8 then Uint64(d, at)
          else NumberAt(d, at, size))
    case Packed(parts) => Parts(PartsOf(parts, Uint8(d, at)))
    case Block(length) => Blob(BytesAt(d, at, length))
    case _ => Void
  }

  /** Where field `k` stands if those in front of it are of fixed size. */
  function OffsetOf(fs: seq<Field>, k: nat): nat
    requires k <= |fs|
  {
    if k == 0 then 0 else OffsetOf(fs, k - 1) + MinSize(fs[k - 1])
  }

  /** The first `n` fields are of fixed size, and these are their values in `d`. */
  predicate Reads(fs: seq<Field>, n: nat, d: seq<Byte>, vs: seq<FieldValue>)
    decreases n
  {
    n == 0 ||
    (&& n <= |fs| && n <= |vs| && IsFixed(fs[n - 1])
     && vs[n - 1] == FixedAt(fs[n - 1], d, OffsetOf(fs, n - 1))
     && Reads(fs, n - 1, d, vs))
  }

  lemma PartsAreRead(parts: seq<BitPart>, b: nat)
    requires b < 256 && PartsOk(parts, 0)
    ensures ExtractParts(b, parts) == PartsOf(parts, b)
  {
    hide ExtractParts, PartsOk, BitsOf;
    forall i | 0 <= i < |parts|
      ensures ExtractParts(b, parts)[i] == PartsOf(parts, b)[i]
    {
      PartsAreTheirBits(b, parts, 0, i);
    }
  }

  /** A fixed-size field is read where it stands. */
  lemma FixedIsRead(f: Field, d: seq<Byte>, at: nat)
    requires FieldOk(f) && IsFixed(f)
    ensures DecodeField(f, d, at).Ok? ==> DecodeField(f, d, at).value == (FixedAt(f, d, at), at + MinSize(f))
  {
    hide FromBigEndian, NumberAt, PartsOf, PartsOk, ExtractParts;
    match f
    case Scalar(size) =>
      if at + size <= |d| {
        NumberIsRead(d, at, size);
        Widths(d, at);
      }
    case Packed(parts) =>
      if at < |d| {
        PartsAreRead(parts, d[at]);
      }
    case Block(length) =>
      if at <= |d| {
        var have := if at + length <= |d| then length else |d| - at;
        assert d[at..at + have] + Zeros(length - have) == BytesAt(d, at, length);
      }
    case _ =>
  }

  /** What the generated code reads for a field with only fixed ones in front of it. */
  lemma {:induction false} FieldIsRead(c: Container, i: nat, d: seq<Byte>, at: nat, k: nat)
    requires i <= k < |c.fields| && forall j :: 0 <= j < |c.fields| ==> FieldOk(c.fields[j])
    requires (forall j :: 0 <= j <= k ==> IsFixed(c.fields[j])) && at == OffsetOf(c.fields, i)
    ensures var r := DecodeFieldsFrom(c, i, d, at);
            r.Ok? ==> r.value.0[k - i] == FixedAt(c.fields[k], d, OffsetOf(c.fields, k))
    decreases |c.fields| - i
  {
    hide DecodeField, FixedAt, FieldOk;
    var f := c.fields[i];
    FixedIsRead(f, d, at);
    if i < k {
      FieldIsRead(c, i + 1, d, at + MinSize(f), k);
    }
  }

  lemma {:induction false} ReadsAreFixed(fs: seq<Field>, n: nat, d: seq<Byte>, vs: seq<FieldValue>, j: nat)
    requires Reads(fs, n, d, vs) && j < n
    ensures n <= |fs| && n <= |vs| && IsFixed(fs[j]) && vs[j] == FixedAt(fs[j], d, OffsetOf(fs, j))
    decreases n
  {
    hide FixedAt, OffsetOf;
    if j < n - 1 {
      ReadsAreFixed(fs, n - 1, d, vs, j);
    }
  }

  lemma AllAreRead(c: Container, d: seq<Byte>, n: nat, vs: seq<FieldValue>)
    requires Reads(c.fields, n, d, vs) && n <= |c.fields| && n <= |vs|
    requires forall j :: 0 <= j < |c.fields| ==> FieldOk(c.fields[j])
    ensures var r := DecodeFieldsFrom(c, 0, d, 0); r.Ok? ==> r.value.0[..n] == vs[..n]
  {
    hide FixedAt, DecodeFieldsFrom, FieldOk;
    forall k | 0 <= k < n && DecodeFieldsFrom(c, 0, d, 0).Ok?
      ensures DecodeFieldsFrom(c, 0, d, 0).value.0[k] == vs[k]
    {
      forall j | 0 <= j <= k
        ensures IsFixed(c.fields[j])
      {
        ReadsAreFixed(c.fields, n, d, vs, j);
      }
      ReadsAreFixed(c.fields, n, d, vs, k);
      FieldIsRead(c, 0, d, 0, k);
    }
  }

  lemma ReadsFit(fs: seq<Field>, n: nat, d: seq<Byte>, vs: seq<FieldValue>)
    requires Reads(fs, n, d, vs)
    ensures n <= |fs| && n <= |vs|
  {}

  /** Whatever a parameter's decoder accepts, its leading fields are the values at their
      offsets. */
  lemma DecodedFields(s: Schema, id: nat, d: seq<Byte>, n: nat, vs: seq<FieldValue>)
    requires Closed(s) && id in s && forall k :: 0 <= k < |s[id].fields| ==> FieldOk(s[id].fields[k])
    requires Reads(s[id].fields, n, d, vs)
    ensures var r := UnmarshalBinary(s, id, d);
            r.Ok? ==> n <= |r.value.fields| && n <= |vs| && r.value.fields[..n] == vs[..n]
  {
    hide DecodeFieldsFrom, DecodeGroups, Reads, FieldOk, KnownAfter, Closed;
    ReadsFit(s[id].fields, n, d, vs);
    AllAreRead(s[id], d, n, vs);
  }

  /** And whatever its encoder writes has them there. */
  lemma EncodedFields(s: Schema, id: nat, v: Value, n: nat, vs: seq<FieldValue>)
    requires WellFormed(s, id, v) && TailOk(s[id]) && forall k :: 0 <= k < |s[id].fields| ==> FieldOk(s[id].fields[k])
    requires Reads(s[id].fields, n, Body(s, id, v), vs)
    ensures n <= |v.fields| && n <= |vs| && v.fields[..n] == vs[..n]
  {
    hide DecodeFieldsFrom, Reads, FieldOk, GroupsHeaders, EmitAll, GroupsWellFormed, EncodeFields, Trailing;
    var c := s[id];
    var tail := EmitAll(GroupsHeaders(s, c.groups, v.groups));
    NoTailWithoutGroups(s, c.groups, v.groups);
    FieldsRoundTrip(c, v.fields, 0, [], tail);
    assert c.fields[0..] == c.fields && v.fields[0..] == v.fields;
    assert [] + EncodeFields(c.fields, v.fields) + tail == Body(s, id, v);
    ReadsFit(c.fields, n, Body(s, id, v), vs);
    AllAreRead(c, Body(s, id, v), n, vs);
  }

  /** Field `k` is written where it stands. */
  lemma FieldIsWritten(s: Schema, id: nat, v: Value, k: nat)
    requires WellFormed(s, id, v) && k < |s[id].fields| && forall j :: 0 <= j <= k ==> IsFixed(s[id].fields[j])
    ensures var f, at := s[id].fields[k], OffsetOf(s[id].fields, k);
            && |s[id].fields| == |v.fields| && at + MinSize(f) <= |Body(s, id, v)|
            && Body(s, id, v)[at..at + MinSize(f)] == EncodeField(f, v.fields[k])
  {
    hide GroupsHeaders, EmitAll, GroupsWellFormed, EncodeFields, EncodeField, ValueOk, IsFixed, MinSize, OffsetOf;
    var c := s[id];
    var tail := EmitAll(GroupsHeaders(s, c.groups, v.groups));
    FieldStands(c.fields, v.fields, 0, k);
    assert c.fields[0..] == c.fields && v.fields[0..] == v.fields;
    FromTheStart(c.fields);
    var e := EncodeFields(c.fields, v.fields);
    var at := OffsetOf(c.fields, k);
    assert (e + tail)[at..at + MinSize(c.fields[k])] == e[at..at + MinSize(c.fields[k])];
  }

  lemma FromTheStart(fs: seq<Field>)
    ensures OffsetOf(fs, 0) == 0
  {}

  lemma {:induction false} FieldStands(fs: seq<Field>, vs: seq<FieldValue>, i: nat, k: nat)
    requires FieldsOk(fs, vs) && i <= k < |fs| == |vs| && forall j :: 0 <= j <= k ==> IsFixed(fs[j])
    ensures var e, at := EncodeFields(fs[i..], vs[i..]), OffsetOf(fs, k) - OffsetOf(fs, i);
            0 <= at <= at + MinSize(fs[k]) <= |e| && e[at..at + MinSize(fs[k])] == EncodeField(fs[k], vs[k])
    decreases k - i
  {
    hide EncodeFields, EncodeField, ValueOk, IsFixed, MinSize;
    EncodeFieldsStep(fs, vs, i);
    FixedFieldSize(fs[i], vs[i]);
    var e, rest := EncodeFields(fs[i..], vs[i..]), EncodeFields(fs[i + 1..], vs[i + 1..]);
    if i < k {
      FieldStands(fs, vs, i + 1, k);
      var at := OffsetOf(fs, k) - OffsetOf(fs, i + 1);
      assert e[MinSize(fs[i])..] == rest;
      assert e[MinSize(fs[i]) + at..MinSize(fs[i]) + at + MinSize(fs[k])] == rest[at..at + MinSize(fs[k])];
    }
  }

  lemma NoTailWithoutGroups(s: Schema, gs: seq<Group>, gvs: seq<GroupValue>)
    requires GroupsWellFormed(s, gs, gvs)
    ensures gs == [] ==> EmitAll(GroupsHeaders(s, gs, gvs)) == []
  {}

  lemma {:induction false} FixedFieldsDecode(c: Container, i: nat, d: seq<Byte>, at: nat)
    requires AllFixed(c.fields) && c.groups == [] && i <= |c.fields| && at + MinSizes(c.fields[i..]) <= |d|
    ensures DecodeFieldsFrom(c, i, d, at).Ok?
    decreases |c.fields| - i
  {
    if i < |c.fields| {
      assert c.fields[i..][1..] == c.fields[i + 1..];
      assert DecodeField(c.fields[i], d, at).Ok?;
      FixedFieldsDecode(c, i + 1, d, at + MinSize(c.fields[i]));
    }
  }

  /** A parameter of fixed size is decoded from any data that is long enough, to the values
      at its offsets. */
  lemma FixedDecodes(s: Schema, id: nat, d: seq<Byte>, n: nat, vs: seq<FieldValue>)
    requires Closed(s) && id in s && forall k :: 0 <= k < |s[id].fields| ==> FieldOk(s[id].fields[k])
    requires s[id].fixed && AllFixed(s[id].fields) && s[id].groups == []
    requires s[id].minSize == HeaderSize(id) + MinSizes(s[id].fields)
    requires n == |s[id].fields| == |vs| && Reads(s[id].fields, n, d, vs)
    ensures UnmarshalBinary(s, id, d)
            == if |d| < s[id].minSize - HeaderSize(id) then Reject else Ok(Value(vs, []))
  {
    hide DecodeFieldsFrom, Reads, FieldOk, KnownAfter, Closed, MinSizes, AllFixed, HeaderSize;
    var c := s[id];
    if |d| >= c.minSize - HeaderSize(id) {
      assert c.fields[0..] == c.fields;
      FixedFieldsDecode(c, 0, d, 0);
      AllAreRead(c, d, n, vs);
      var fields := DecodeFieldsFrom(c, 0, d, 0).value.0;
      assert fields[..n] == fields && vs[..n] == vs;
    }
  }
}
