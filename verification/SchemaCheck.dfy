/** A checker for schemas: predicates that only calculate, so that the verifier can follow
    them on a given definition, and what they show. */
module SchemaCheck {
  import opened Fields
  import opened Schema
  import opened Parameters

  // ---- groups ----

  predicate Absent(x: nat, ids: seq<nat>) {
    ids == [] || (ids[0] != x && Absent(x, ids[1..]))
  }

  predicate NoTwice(ids: seq<nat>) {
    ids == [] || (Absent(ids[0], ids[1..]) && NoTwice(ids[1..]))
  }

  predicate AnyTv(ids: seq<nat>) {
    ids != [] && (IsTv(ids[0]) || AnyTv(ids[1..]))
  }

  predicate AnyTlv(ids: seq<nat>) {
    ids != [] && (!IsTv(ids[0]) || AnyTlv(ids[1..]))
  }

  predicate InRange(ids: seq<nat>) {
    ids == [] || (0 < ids[0] < 1024 && InRange(ids[1..]))
  }

  predicate AllAwayFrom(g: Group, tv: bool, tlv: bool, ids: seq<nat>) {
    ids == []
    || (Absent(if tv && !tlv && !IsTv(ids[0]) then ids[0] / 256 % 128 else ids[0], g.members)
        && (IsTv(ids[0]) ==> tv) && AllAwayFrom(g, tv, tlv, ids[1..]))
  }

  predicate GroupsAwayFrom(g: Group, tv: bool, tlv: bool, later: seq<Group>) {
    later == [] || (AllAwayFrom(g, tv, tlv, later[0].members) && GroupsAwayFrom(g, tv, tlv, later[1..]))
  }

  predicate GroupChecks(g: Group, later: seq<Group>) {
    var tv := AnyTv(g.members);
    && g.members != [] && NoTwice(g.members) && InRange(g.members)
    && ((g.Simple() && !g.Exclusive() && !g.optional && !tv) || GroupsAwayFrom(g, tv, AnyTlv(g.members), later))
  }

  predicate GroupsCheck(gs: seq<Group>) {
    gs == [] || (GroupChecks(gs[0], gs[1..]) && GroupsCheck(gs[1..]))
  }

  lemma {:induction false} AbsentIsNotIn(x: nat, ids: seq<nat>)
    ensures Absent(x, ids) <==> x !in ids
  {
    if ids != [] {
      AbsentIsNotIn(x, ids[1..]);
    }
  }

  lemma {:induction false} NoTwiceIsDistinct(ids: seq<nat>)
    requires NoTwice(ids)
    ensures Distinct(ids)
  {
    if ids != [] {
      NoTwiceIsDistinct(ids[1..]);
      AbsentIsNotIn(ids[0], ids[1..]);
      forall i, j | 0 <= i < j < |ids|
        ensures ids[i] != ids[j]
      {
        assert ids[j] == ids[1..][j - 1] && (i > 0 ==> ids[i] == ids[1..][i - 1]);
      }
    }
  }

  lemma {:induction false} AnyIsHas(ids: seq<nat>)
    ensures AnyTv(ids) == HasTv(ids) && AnyTlv(ids) == HasTlv(ids)
  {
    if ids != [] {
      AnyIsHas(ids[1..]);
      assert forall k :: 0 < k < |ids| ==> ids[k] == ids[1..][k - 1];
      assert forall k :: 0 <= k < |ids[1..]| ==> ids[1..][k] == ids[k + 1];
    }
  }

  lemma {:induction false} InRangeEach(ids: seq<nat>, k: nat)
    requires InRange(ids) && k < |ids|
    ensures 0 < ids[k] < 1024
  {
    if k > 0 {
      InRangeEach(ids[1..], k - 1);
    }
  }

  lemma {:induction false} AwayEach(g: Group, ids: seq<nat>, k: nat)
    requires AllAwayFrom(g, HasTv(g.members), HasTlv(g.members), ids) && k < |ids|
    ensures AwayFrom(g, ids[k])
  {
    hide HasTv, HasTlv;
    AbsentIsNotIn(SeenAs(g, ids[0]), g.members);
    if k > 0 {
      AwayEach(g, ids[1..], k - 1);
    }
  }

  lemma {:induction false} GroupAway(g: Group, later: seq<Group>, i: nat)
    requires GroupsAwayFrom(g, HasTv(g.members), HasTlv(g.members), later) && i < |later|
    ensures AllAwayFrom(g, HasTv(g.members), HasTlv(g.members), later[i].members)
  {
    hide HasTv, HasTlv, AllAwayFrom;
    if i > 0 {
      GroupAway(g, later[1..], i - 1);
    }
  }

  lemma GroupChecksGood(g: Group, later: seq<Group>)
    requires GroupChecks(g, later)
    ensures GroupGood(g, later)
  {
    hide NoTwice, Distinct, AnyTv, AnyTlv, HasTv, HasTlv, InRange, AwayFrom, GroupsAwayFrom;
    NoTwiceIsDistinct(g.members);
    AnyIsHas(g.members);
    forall k | 0 <= k < |g.members|
      ensures 0 < g.members[k] < 0x8000
    {
      InRangeEach(g.members, k);
    }
    if GroupsAwayFrom(g, HasTv(g.members), HasTlv(g.members), later) {
      forall i, k | 0 <= i < |later| && 0 <= k < |later[i].members|
        ensures AwayFrom(g, later[i].members[k])
      {
        GroupAway(g, later, i);
        AwayEach(g, later[i].members, k);
      }
    }
  }

  lemma {:induction false} GroupsCheckGood(gs: seq<Group>)
    requires GroupsCheck(gs)
    ensures GroupsGood(gs)
  {
    hide GroupChecks, GroupGood;
    if gs != [] {
      GroupChecksGood(gs[0], gs[1..]);
      GroupsCheckGood(gs[1..]);
    }
  }

  /** Where every TV parameter has bytes, it is seen wherever it stands. */
  lemma {:induction false} BytesAreVisible(s: Schema, gs: seq<Group>)
    requires forall id :: id in s && IsTv(id) ==> HasBytes(s[id])
    requires forall i, k :: 0 <= i < |gs| && 0 <= k < |gs[i].members| ==> gs[i].members[k] in s
    ensures Visible(s, gs)
  {
    hide HasBytes, PeeksTwo;
    if gs != [] {
      assert forall i :: 0 <= i < |gs[1..]| ==> gs[1..][i] == gs[i + 1];
      BytesAreVisible(s, gs[1..]);
    }
  }

  /** Several optional parameters, TLV ones among them, in front of vendor extensions. */
  lemma MixedThenCustom(ids: seq<nat>)
    requires |ids| > 1 && Distinct(ids) && HasTlv(ids)
    requires forall k :: 0 <= k < |ids| ==> 0 < ids[k] <= 1023
    ensures GroupGood(Optional(ids), [])
    ensures 1023 !in ids ==> GroupGood(Optional(ids), [AnyNumber([1023])])
  {}

  /** TV parameters only: the first byte of a Custom header, 0x03, is taken for type 3
      once masked with 0x7F, so the group may have any members but that one. */
  lemma TvThenCustom(ids: seq<nat>)
    requires |ids| > 1 && Distinct(ids)
    requires forall k :: 0 <= k < |ids| ==> IsTv(ids[k])
    ensures GroupGood(Optional(ids), [AnyNumber([1023])]) <==> 3 !in ids
  {
    var g, later := Optional(ids), [AnyNumber([1023])];
    assert IsTv(g.members[0]) && !HasTlv(g.members);
    assert SeenAs(g, 1023) == 3;
    assert later[0].members[0] == 1023;
  }

  // ---- fields ----

  predicate AllOk(fs: seq<Field>) {
    fs == [] || (FieldOk(fs[0]) && AllOk(fs[1..]))
  }

  predicate NoneVaries(fs: seq<Field>) {
    fs == [] || (IsFixed(fs[0]) && NoneVaries(fs[1..]))
  }

  /** The last field is of variable size, and no `Remainder` comes before it. */
  predicate LastVaries(fs: seq<Field>) {
    fs != [] && if |fs| == 1 then !IsFixed(fs[0]) else !fs[0].Remainder? && LastVaries(fs[1..])
  }

  predicate NoRemainder(fs: seq<Field>) {
    fs == [] || (!fs[0].Remainder? && NoRemainder(fs[1..]))
  }

  predicate FieldsCheck(id: nat, c: Container) {
    && 0 < id < 1024 && AllOk(c.fields) && (IsTv(id) ==> c.fields != [] && MinSize(c.fields[0]) > 0)
    && (if c.fixed then NoneVaries(c.fields) && c.groups == []
        else !IsTv(id) && if c.groups == [] then LastVaries(c.fields) else NoRemainder(c.fields))
    && (NoneVaries(c.fields) || c.groups == [] || Open(c.groups))
  }

  lemma {:induction false} AllOkEach(fs: seq<Field>, i: nat)
    requires AllOk(fs) && i < |fs|
    ensures FieldOk(fs[i])
  {
    hide FieldOk;
    if i > 0 {
      AllOkEach(fs[1..], i - 1);
    }
  }

  lemma {:induction false} NoneVariesIsFixed(fs: seq<Field>)
    requires NoneVaries(fs)
    ensures AllFixed(fs)
    ensures forall i :: 0 <= i < |fs| ==> !fs[i].Remainder?
  {
    if fs != [] {
      NoneVariesIsFixed(fs[1..]);
      assert forall i :: 0 < i < |fs| ==> fs[i] == fs[1..][i - 1];
    }
  }

  lemma {:induction false} LastVariesLast(fs: seq<Field>)
    requires LastVaries(fs)
    ensures fs != [] && !IsFixed(fs[|fs| - 1])
    ensures forall i :: 0 <= i < |fs| - 1 ==> !fs[i].Remainder?
  {
    if |fs| > 1 {
      LastVariesLast(fs[1..]);
      assert forall i :: 0 < i < |fs| ==> fs[i] == fs[1..][i - 1];
    }
  }

  lemma {:induction false} NoRemainderEach(fs: seq<Field>, i: nat)
    requires NoRemainder(fs) && i < |fs|
    ensures !fs[i].Remainder?
  {
    if i > 0 {
      NoRemainderEach(fs[1..], i - 1);
    }
  }

  lemma FieldsCheckGood(id: nat, c: Container)
    requires FieldsCheck(id, c)
    ensures FieldsGood(id, c) && Measured(c) && Delimited(c) && (IsTv(id) ==> HasBytes(c))
  {
    hide Trailing, AllOk, FieldOk, NoneVaries, LastVaries, NoRemainder, IsFixed, Open;
    forall i | 0 <= i < |c.fields|
      ensures FieldOk(c.fields[i])
    {
      AllOkEach(c.fields, i);
    }
    if NoneVaries(c.fields) {
      NoneVariesIsFixed(c.fields);
    }
    if LastVaries(c.fields) {
      LastVariesLast(c.fields);
      VariableLast(c.fields);
    }
    forall i | 0 <= i < |c.fields| && NoRemainder(c.fields)
      ensures !c.fields[i].Remainder?
    {
      NoRemainderEach(c.fields, i);
    }
  }

  lemma {:induction false} FlagsOk(from: nat, n: nat)
    requires from + n <= 8
    ensures PartsOk(seq(n, i requires 0 <= i => BitPart(from + i, 1)), from)
    ensures n > 0 ==> FieldOk(Flags(from, n)) && IsFixed(Flags(from, n)) && Flags(from, n).Packed?
    decreases n
  {
    if n > 0 {
      FlagsOk(from + 1, n - 1);
      assert seq(n, i requires 0 <= i => BitPart(from + i, 1))[1..]
             == seq(n - 1, i requires 0 <= i => BitPart(from + 1 + i, 1));
    }
  }
}
