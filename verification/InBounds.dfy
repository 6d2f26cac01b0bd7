/** Where decoding malformed data cannot read out of bounds. */
module InBounds {
  import opened Bytes
  import opened Fields
  import opened Schema
  import opened Encoder
  import opened Decoder
  import opened MinimumSizes
  import opened Progress

  /** A turn on a TLV parameter that declares at least its minimum size reads nothing out of
      bounds itself: it panics exactly if the parameter's own decoder does on its bytes. */
  lemma TurnStaysInBounds(s: Schema, g: Group, data: seq<Byte>)
    requires Closed(s) && SizesSound(s) && Refers(s, g.members) && TurnBegins(g, data)
    requires !IsTv(ReadType(g, data).value) && |data| >= 4 && U16At(data, 2) >= s[ReadType(g, data).value].minSize
    ensures var id, length := ReadType(g, data).value, U16At(data, 2);
            ReadMember(s, id, g.repeatable, data).Panic?
            <==> 4 <= length <= |data| && !(CanInline(s[id]) && !g.repeatable)
                 && UnmarshalBinary(s, id, data[4..length]).Panic?
  {
    hide DecodeField, HasTv, HasTlv, Closed, UnmarshalBinary, SizesSound;
    var id := ReadType(g, data).value;
    SoundSize(s, id);
    if CanInline(s[id]) && U16At(data, 2) <= |data| {
      assert s[id].fields[1..] == [] && MinSizes(s[id].fields) == MinSize(s[id].fields[0]) + 0;
      FitsNoPanic(s[id].fields[0], data, 4);
    }
  }

  /** A parameter of fixed size never panics once its length guard has passed, and so no turn
      on one does. */
  lemma FixedStaysInBounds(s: Schema, id: nat, data: seq<Byte>)
    requires Closed(s) && SizesSound(s) && id in s && AllFixed(s[id].fields) && s[id].groups == []
    ensures !UnmarshalBinary(s, id, data).Panic?
  {
    hide Closed, SizesSound, DecodeFieldsFrom;
    var c := s[id];
    if |data| >= c.minSize - HeaderSize(id) {
      SoundSize(s, id);
      assert c.fields[0..] == c.fields;
      FixedFieldsStay(c, 0, data, 0);
    }
  }

  lemma {:induction false} FixedFieldsStay(c: Container, i: nat, data: seq<Byte>, pos: nat)
    requires AllFixed(c.fields) && c.groups == [] && i <= |c.fields| && pos + MinSizes(c.fields[i..]) <= |data|
    ensures !DecodeFieldsFrom(c, i, data, pos).Panic?
    decreases |c.fields| - i
  {
    hide DecodeField, MinSize;
    if i < |c.fields| {
      assert c.fields[i..][1..] == c.fields[i + 1..];
      FitsNoPanic(c.fields[i], data, pos);
      var f := DecodeField(c.fields[i], data, pos);
      if f.Ok? {
        FixedFieldsStay(c, i + 1, data, f.value.1);
      }
    }
  }

  // ---- what the generator takes to be there ----

  /** After fixed fields it still counts on what they left of the minimum size, after any
      other on nothing. */
  lemma {:induction false} KnownIsCounted(fs: seq<Field>, known: int)
    ensures KnownAfter(fs, known) == if AllFixed(fs) then known - MinSizes(fs) else -(Trailing(fs) as int)
  {
    hide IsFixed, MinSize;
    if fs != [] {
      KnownIsCounted(fs[1..], if IsFixed(fs[0]) then known - MinSize(fs[0]) else 0);
      assert AllFixed(fs) <==> IsFixed(fs[0]) && AllFixed(fs[1..]) by {
        assert forall i :: 0 < i < |fs| ==> fs[i] == fs[1..][i - 1];
        assert forall i :: 0 <= i < |fs[1..]| ==> fs[1..][i] == fs[i + 1];
      }
      if AllFixed(fs[1..]) {
        FixedTrails(fs[1..]);
      }
    }
  }

  lemma {:induction false} FixedTrails(fs: seq<Field>)
    requires AllFixed(fs)
    ensures Trailing(fs) == MinSizes(fs)
  {
    if fs != [] {
      assert forall i :: 0 <= i < |fs[1..]| ==> fs[1..][i] == fs[i + 1];
      FixedTrails(fs[1..]);
    }
  }

  lemma {:induction false} KnownLeft(c: Container, i: nat, data: seq<Byte>, pos: nat, known: int)
    requires c.groups != [] && i <= |c.fields| && known <= |data| - pos && DecodeFieldsFrom(c, i, data, pos).Ok?
    requires i == |c.fields| ==> pos == 0
    ensures KnownAfter(c.fields[i..], known) <= |DecodeFieldsFrom(c, i, data, pos).value.1|
    decreases |c.fields| - i
  {
    hide DecodeField;
    if i < |c.fields| {
      assert c.fields[i..][1..] == c.fields[i + 1..];
      var f := DecodeField(c.fields[i], data, pos);
      var left := if IsFixed(c.fields[i]) then known - MinSize(c.fields[i]) else 0;
      if Reslices(c, i) {
        KnownLeft(c, i + 1, data[f.value.1..], 0, left);
      } else {
        KnownLeft(c, i + 1, data, f.value.1, left);
      }
    }
  }

  /** That many bytes are there, in front of the parameter's own parameters, so that the check
      in front of the first required one refuses exactly the data that is too short for its
      header, or for all of it if its size is fixed. */
  lemma RequiredIsGuarded(s: Schema, c: Container, data: seq<Byte>, known: nat, id: nat)
    requires c.groups != [] && known <= |data| && DecodeFieldsFrom(c, 0, data, 0).Ok?
    requires id in s && (s[id].fixed ==> HeaderSize(id) <= s[id].minSize)
    ensures var rest, left := DecodeFieldsFrom(c, 0, data, 0).value.1, KnownAfter(c.fields, known);
            && left <= |rest|
            && (|rest| < HeaderGuard(s, id, left) <==> |rest| < if s[id].fixed then s[id].minSize else HeaderSize(id))
  {
    assert c.fields[0..] == c.fields;
    KnownLeft(c, 0, data, 0, known);
  }
}
