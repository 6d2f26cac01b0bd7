/** The minimum sizes the generator computes, and why its length guards never refuse a
    real encoding. */
module MinimumSizes {
  import opened Bytes
  import opened Fields
  import opened Schema
  import opened Encoder
  import opened Decoder
  import opened HeaderCode
  import opened RoundTrip
  import opened GroupRoundTrip
  import opened CodecLaw

  /** `groupby(parameters, (optional, group))`: runs of groups that differ only in
      `repeatable` are taken together. */
  datatype Run = Run(optional: bool, members: seq<nat>)

  predicate SameRun(a: Group, b: Group) {
    a.optional == b.optional && a.name == b.name
  }

  function RunLength(gs: seq<Group>): (n: nat)
    requires gs != []
    ensures 1 <= n <= |gs|
  {
    if |gs| > 1 && SameRun(gs[0], gs[1]) then 1 + RunLength(gs[1..]) else 1
  }

  function AllMembers(gs: seq<Group>): seq<nat> {
    if gs == [] then [] else gs[0].members + AllMembers(gs[1..])
  }

  function Runs(gs: seq<Group>): seq<Run>
    decreases |gs|
  {
    if gs == [] then []
    else
      var n := RunLength(gs);
      [Run(gs[0].optional, AllMembers(gs[..n]))] + Runs(gs[n..])
  }

  /** An optional run adds nothing, a required one only its smallest member. */
  function RunMin(s: Schema, r: Run): nat
    requires Refers(s, r.members)
  {
    if r.optional then 0 else SmallestMin(s, r.members)
  }

  ghost predicate RunsRefer(s: Schema, rs: seq<Run>) {
    forall i :: 0 <= i < |rs| ==> Refers(s, rs[i].members)
  }

  function SumRuns(s: Schema, rs: seq<Run>): nat
    requires RunsRefer(s, rs)
  {
    if rs == [] then 0 else RunMin(s, rs[0]) + SumRuns(s, rs[1..])
  }

  lemma {:induction false} AllMembersRefer(s: Schema, gs: seq<Group>)
    requires GroupsRefer(s, gs)
    ensures Refers(s, AllMembers(gs))
    ensures forall i, k :: 0 <= i < |gs| && 0 <= k < |gs[i].members| ==> gs[i].members[k] in AllMembers(gs)
  {
    if gs == [] {
    } else {
      AllMembersRefer(s, gs[1..]);
      forall i, k | 0 <= i < |gs| && 0 <= k < |gs[i].members|
        ensures gs[i].members[k] in AllMembers(gs)
      {
        if i > 0 {
          assert gs[1..][i - 1].members[k] in AllMembers(gs[1..]);
        }
      }
    }
  }

  lemma {:induction false} RunsDoRefer(s: Schema, gs: seq<Group>)
    requires GroupsRefer(s, gs)
    ensures RunsRefer(s, Runs(gs))
    decreases |gs|
  {
    if gs == [] {
    } else {
      AllMembersRefer(s, gs[..RunLength(gs)]);
      RunsDoRefer(s, gs[RunLength(gs)..]);
    }
  }

  /** The header, the fields and, per run, what must at least be there. */
  ghost function SizeBound(s: Schema, id: nat): nat
    requires Closed(s) && id in s
  {
    assert GroupsRefer(s, s[id].groups);
    RunsDoRefer(s, s[id].groups);
    HeaderSize(id) + MinSizes(s[id].fields) + SumRuns(s, Runs(s[id].groups))
  }

  /** Sizes that count the fields and no more than each run's smallest member. */
  ghost predicate SizesSound(s: Schema)
    requires Closed(s)
  {
    forall id :: id in s ==> HeaderSize(id) + MinSizes(s[id].fields) <= s[id].minSize <= SizeBound(s, id)
  }

  // ---- sound sizes are lower bounds ----

  lemma {:induction false} SmallestIsLower(s: Schema, ids: seq<nat>, id: nat)
    requires Refers(s, ids) && id in ids
    ensures SmallestMin(s, ids) <= s[id].minSize
  {
    if |ids| == 1 {
    } else if id in ids[1..] {
      SmallestIsLower(s, ids[1..], id);
    }
  }

  lemma {:induction false} SmallestAtLeast(s: Schema, ids: seq<nat>, m: nat)
    requires Refers(s, ids) && ids != []
    requires forall j :: 0 <= j < |ids| ==> m <= s[ids[j]].minSize
    ensures m <= SmallestMin(s, ids)
  {
    if |ids| > 1 {
      SmallestAtLeast(s, ids[1..], m);
    }
  }

  /** No value is encoded in fewer bytes than its parameter's minimum size, even when
      parameters contain each other: the argument follows the value, not the schema. */
  lemma {:induction false} MinSizeHolds(s: Schema, id: nat, v: Value)
    requires Closed(s) && SizesSound(s) && GoodGroups(s)
    requires WellFormed(s, id, v) && Clean(s, id, v)
    ensures s[id].minSize <= |Encode(s, id, v)|
    decreases v, 4
  {
    hide FieldsOk, EncodeFields, MinSizes, GroupsHeaders, EmitAll, Runs, SumRuns, GroupsGood, GroupsClean;
    var c := s[id];
    FieldsOfValue(s, id, v);
    CleanIsGroupsClean(s, id, v);
    FieldTermsAreExact(c.fields, v.fields);
    EncodeIsHeaderAndBody(s, id, v);
    RunsDoRefer(s, c.groups);
    RunsHold(s, c.groups, v.groups);
  }

  /** Every group of every parameter has distinct members, at least one. */
  ghost predicate GoodGroups(s: Schema) {
    forall id :: id in s ==> GroupsGood(s[id].groups)
  }

  lemma {:induction false} RunsHold(s: Schema, gs: seq<Group>, gvs: seq<GroupValue>)
    requires Closed(s) && SizesSound(s) && GoodGroups(s)
    requires GroupsRefer(s, gs) && GroupsGood(gs) && GroupsWellFormed(s, gs, gvs) && GroupsClean(s, gs, gvs)
    requires RunsRefer(s, Runs(gs))
    ensures SumRuns(s, Runs(gs)) <= |EmitAll(GroupsHeaders(s, gs, gvs))|
    decreases gvs, 3, |gs|
  {
    hide Closed, SizesSound, GoodGroups, SlotsHeaders, SlotsWellFormed, SlotsClean, EmitAll, Shape, SmallestMin,
         AllMembers, Distinct, Apart;
    if gs == [] {
    } else {
      var n := RunLength(gs);
      GroupsLengths(s, gs, gvs);
      GroupsFrom(s, gs, gvs, n);
      RunsDoRefer(s, gs[n..]);
      SkipRun(s, gs, gvs, n);
      assert Runs(gs)[1..] == Runs(gs[n..]);
      RunsHold(s, gs[n..], gvs[n..]);
      if !gs[0].optional {
        AllMembersRefer(s, gs[..n]);
        RequiredHolds(s, gs[0], gvs[0].slots, AllMembers(gs[..n]));
      }
    }
  }

  lemma GroupsLengths(s: Schema, gs: seq<Group>, gvs: seq<GroupValue>)
    requires GroupsWellFormed(s, gs, gvs)
    ensures |gs| == |gvs|
  {}

  lemma {:induction false} GroupsFrom(s: Schema, gs: seq<Group>, gvs: seq<GroupValue>, n: nat)
    requires GroupsGood(gs) && GroupsWellFormed(s, gs, gvs) && GroupsClean(s, gs, gvs)
    requires n <= |gs| == |gvs|
    ensures GroupsGood(gs[n..]) && GroupsWellFormed(s, gs[n..], gvs[n..]) && GroupsClean(s, gs[n..], gvs[n..])
  {
    hide SlotsWellFormed, SlotsClean, Shape, Distinct, Apart;
    if n == 0 {
      assert gs[0..] == gs && gvs[0..] == gvs;
    } else {
      GroupsFrom(s, gs[1..], gvs[1..], n - 1);
      assert gs[1..][n - 1..] == gs[n..] && gvs[1..][n - 1..] == gvs[n..];
    }
  }

  /** The first group and those after its run print at least what they print apart. */
  lemma {:induction false} SkipRun(s: Schema, gs: seq<Group>, gvs: seq<GroupValue>, n: nat)
    requires GroupsWellFormed(s, gs, gvs) && 1 <= n <= |gs| == |gvs|
    requires GroupsWellFormed(s, gs[n..], gvs[n..])
    ensures |EmitAll(SlotsHeaders(s, gs[0], gs[0].members, gvs[0].slots))|
            + |EmitAll(GroupsHeaders(s, gs[n..], gvs[n..]))| <= |EmitAll(GroupsHeaders(s, gs, gvs))|
    decreases n
  {
    hide SlotsWellFormed, SlotsHeaders, EmitAll, Shape;
    EmitAllConcat(SlotsHeaders(s, gs[0], gs[0].members, gvs[0].slots), GroupsHeaders(s, gs[1..], gvs[1..]));
    if n > 1 {
      assert gs[1..][n - 1..] == gs[n..] && gvs[1..][n - 1..] == gvs[n..];
      SkipRun(s, gs[1..], gvs[1..], n - 1);
    }
  }

  /** A required group prints at least its run's smallest member. */
  lemma {:induction false} RequiredHolds(s: Schema, g: Group, slots: seq<Slot>, run: seq<nat>)
    requires Closed(s) && SizesSound(s) && GoodGroups(s)
    requires !g.optional && g.members != [] && Shape(g, slots)
    requires SlotsWellFormed(s, g.members, slots) && SlotsClean(s, g, g.members, slots)
    requires Refers(s, run) && forall k :: 0 <= k < |g.members| ==> g.members[k] in run
    ensures SmallestMin(s, run) <= |EmitAll(SlotsHeaders(s, g, g.members, slots))|
    decreases slots, 2
  {
    hide Closed, SizesSound, GoodGroups, SmallestMin, EmitAll, SlotsHeaders, SlotsWellFormed, SlotsClean,
         ItemsHeaders, ItemsClean, ItemsWellFormed, Selected;
    SlotsLength(s, g.members, slots);
    var k: nat;
    if g.Exclusive() {
      k :| 0 <= k < |slots| && |slots[k].items| == 1
           && forall j :: 0 <= j < |slots| && j != k ==> slots[j].items == [];
      OnlySlotHeaders(s, g, g.members, slots, k);
    } else {
      k := 0;
      FirstSlot(s, g, g.members, slots);
    }
    var id, items := g.members[k], slots[k].items;
    FirstItemHolds(s, g, id, items);
    SmallestIsLower(s, run, id);
  }

  lemma FirstSlot(s: Schema, g: Group, ids: seq<nat>, slots: seq<Slot>)
    requires SlotsWellFormed(s, ids, slots) && SlotsClean(s, g, ids, slots) && ids != [] && slots != []
    ensures ItemsWellFormed(s, ids[0], slots[0].items) && ItemsClean(s, g, ids[0], slots[0].items)
    ensures |EmitAll(ItemsHeaders(s, g, ids[0], slots[0].items))| <= |EmitAll(SlotsHeaders(s, g, ids, slots))|
  {
    hide EmitAll, ItemsHeaders, ItemsClean, ItemsWellFormed;
    EmitAllBounds(ItemsHeaders(s, g, ids[0], slots[0].items), SlotsHeaders(s, g, ids[1..], slots[1..]));
  }

  lemma {:induction false} FirstItemHolds(s: Schema, g: Group, id: nat, items: seq<Value>)
    requires Closed(s) && SizesSound(s) && GoodGroups(s)
    requires items != [] && ItemsWellFormed(s, id, items) && ItemsClean(s, g, id, items)
    ensures id in s && s[id].minSize <= |EmitAll(ItemsHeaders(s, g, id, items))|
    decreases items, 1
  {
    hide Closed, SizesSound, GoodGroups, EmitAll, WellFormed, Clean, Selected, HeaderOf;
    FieldsOfValue(s, id, items[0]);
    HeaderTyp(s, id, items[0]);
    MinSizeHolds(s, id, items[0]);
    EmitAllSingle(HeaderOf(s, id, items[0]));
    EmitAllBounds([HeaderOf(s, id, items[0])], ItemsHeaders(s, g, id, items[1..]));
  }

  /** A closed schema of coherent containers with sound sizes obeys the codec's law. */
  lemma SoundSizesAreGood(s: Schema)
    requires Closed(s) && SizesSound(s) && AllCompile(s) && AllVisible(s)
    requires forall id :: id in s ==> ContainerGood(id, s[id])
    ensures Good(s)
  {
    forall id | id in s
      ensures MinSizeIsLower(s, id)
      ensures IsTv(id) ==> s[id].minSize == 1 + MinSizes(s[id].fields)
    {
      GroupsAreGood(s);
      forall v | WellFormed(s, id, v) && Clean(s, id, v)
        ensures s[id].minSize <= |Encode(s, id, v)|
      {
        MinSizeHolds(s, id, v);
      }
      if IsTv(id) {
        assert ContainerGood(id, s[id]);
        assert SizeBound(s, id) == 1 + MinSizes(s[id].fields) by {
          assert Runs([]) == [];
        }
      }
    }
  }

  lemma GroupsAreGood(s: Schema)
    requires forall id :: id in s ==> ContainerGood(id, s[id])
    ensures GoodGroups(s)
  {}

  // ---- what a passed length guard guarantees ----

  function Sum(fs: seq<Field>, i: nat): nat
    requires i <= |fs|
  {
    MinSizes(fs[..i])
  }

  lemma {:induction false} MinSizesConcat(a: seq<Field>, b: seq<Field>)
    ensures MinSizes(a + b) == MinSizes(a) + MinSizes(b)
  {
    if a == [] {
      assert a + b == b;
    } else {
      MinSizesConcat(a[1..], b);
      assert (a + b)[1..] == a[1..] + b;
    }
  }

  /** Once the guard has passed, no read up to and including the first field of variable
      length is out of bounds, however malformed the data. */
  lemma LeadingReadsInBounds(s: Schema, id: nat, data: seq<Byte>, i: nat)
    requires Closed(s) && SizesSound(s) && id in s
    requires |data| >= s[id].minSize - HeaderSize(id)
    requires i < |s[id].fields| && AllFixed(s[id].fields[..i])
    ensures !DecodeField(s[id].fields[i], data, Sum(s[id].fields, i)).Panic?
  {
    hide Closed, SizesSound;
    SoundSize(s, id);
    var fs := s[id].fields;
    MinSizesConcat(fs[..i], fs[i..]);
    assert fs[..i] + fs[i..] == fs;
    assert MinSizes(fs[i..]) == MinSize(fs[i]) + MinSizes(fs[i..][1..]);
    FitsNoPanic(fs[i], data, Sum(fs, i));
  }

  lemma SoundSize(s: Schema, id: nat)
    requires Closed(s) && SizesSound(s) && id in s
    ensures HeaderSize(id) + MinSizes(s[id].fields) <= s[id].minSize
  {}

  lemma FitsNoPanic(f: Field, data: seq<Byte>, pos: nat)
    requires pos + MinSize(f) <= |data|
    ensures !DecodeField(f, data, pos).Panic?
  {}
}
