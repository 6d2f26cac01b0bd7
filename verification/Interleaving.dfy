/** Repeatable parameters of one group in any order: what the greedy loop makes of them,
    and what encoding the result writes. */
module Interleaving {
  import opened Bytes
  import opened Outcomes
  import opened Fields
  import opened Schema
  import opened Encoder
  import opened Decoder
  import opened RoundTrip
  import opened GroupRoundTrip
  import opened CodecLaw

  /** A parameter of the group, with its kind: an index of the group's members. */
  datatype Item = Item(kind: nat, value: Value)

  /** The values of one kind, in order. */
  function OfKind(mix: seq<Item>, k: nat): seq<Value> {
    if mix == [] then []
    else (if mix[0].kind == k then [mix[0].value] else []) + OfKind(mix[1..], k)
  }

  function Tag(k: nat, values: seq<Value>): (r: seq<Item>)
    ensures |r| == |values| && forall j :: 0 <= j < |r| ==> r[j] == Item(k, values[j])
  {
    seq(|values|, j requires 0 <= j < |values| => Item(k, values[j]))
  }

  /** The items of kind `k`, then of kind `k + 1`, and so on up to kind `n - 1`. */
  function ByKind(mix: seq<Item>, k: nat, n: nat): seq<Item>
    decreases n - k
  {
    if k >= n then [] else Tag(k, OfKind(mix, k)) + ByKind(mix, k + 1, n)
  }

  predicate KindsBelow(mix: seq<Item>, n: nat) {
    forall j :: 0 <= j < |mix| ==> mix[j].kind < n
  }

  /** `mix` is some interleaving of the group's slots. */
  predicate Interleaves(mix: seq<Item>, slots: seq<Slot>) {
    KindsBelow(mix, |slots|) && forall k :: 0 <= k < |slots| ==> slots[k].items == OfKind(mix, k)
  }

  // ---- the stable partition ----

  lemma {:induction false} OfKindConcat(a: seq<Item>, b: seq<Item>, k: nat)
    ensures OfKind(a + b, k) == OfKind(a, k) + OfKind(b, k)
  {
    if a == [] {
      assert a + b == b;
    } else {
      assert (a + b)[1..] == a[1..] + b;
      OfKindConcat(a[1..], b, k);
    }
  }

  lemma {:induction false} OfKindTag(kind: nat, values: seq<Value>, k: nat)
    ensures OfKind(Tag(kind, values), k) == if kind == k then values else []
    decreases |values|
  {
    if values == [] {
    } else {
      assert Tag(kind, values)[1..] == Tag(kind, values[1..]);
      OfKindTag(kind, values[1..], k);
    }
  }

  lemma {:induction false} OfKindByKind(mix: seq<Item>, from: nat, n: nat, k: nat)
    ensures OfKind(ByKind(mix, from, n), k) == if from <= k < n then OfKind(mix, k) else []
    decreases n - from
  {
    if from < n {
      OfKindConcat(Tag(from, OfKind(mix, from)), ByKind(mix, from + 1, n), k);
      OfKindTag(from, OfKind(mix, from), k);
      OfKindByKind(mix, from + 1, n, k);
    }
  }

  lemma ByKindUnfolds(mix: seq<Item>, k: nat, n: nat)
    requires k < n
    ensures multiset(ByKind(mix, k, n)) == multiset(Tag(k, OfKind(mix, k))) + multiset(ByKind(mix, k + 1, n))
  {}

  lemma TagOfCons(x: Item, mix: seq<Item>, k: nat)
    ensures multiset(Tag(k, OfKind([x] + mix, k)))
            == (if x.kind == k then multiset{x} else multiset{}) + multiset(Tag(k, OfKind(mix, k)))
  {
    assert ([x] + mix)[1..] == mix;
    if x.kind == k {
      assert Tag(k, [x.value] + OfKind(mix, k)) == [x] + Tag(k, OfKind(mix, k));
    } else {
      assert [] + OfKind(mix, k) == OfKind(mix, k);
    }
  }

  lemma {:induction false} ByKindOfCons(x: Item, mix: seq<Item>, k: nat, n: nat)
    ensures multiset(ByKind([x] + mix, k, n))
            == (if k <= x.kind < n then multiset{x} else multiset{}) + multiset(ByKind(mix, k, n))
    decreases n - k
  {
    hide *;
    if k < n {
      ByKindUnfolds([x] + mix, k, n);
      ByKindUnfolds(mix, k, n);
      TagOfCons(x, mix, k);
      ByKindOfCons(x, mix, k + 1, n);
    } else {
      NoKinds([x] + mix, k, n);
      NoKinds(mix, k, n);
    }
  }

  lemma NoKinds(mix: seq<Item>, k: nat, n: nat)
    requires n <= k
    ensures ByKind(mix, k, n) == []
  {}

  /** Sorting by kind conserves the items, keeps the order within a kind, and leaves
      nothing of a later kind before anything of an earlier one. */
  lemma {:induction false} StablePartition(mix: seq<Item>, n: nat)
    requires KindsBelow(mix, n)
    ensures multiset(ByKind(mix, 0, n)) == multiset(mix)
    ensures forall k: nat :: OfKind(ByKind(mix, 0, n), k) == OfKind(mix, k)
    ensures forall i, j :: 0 <= i < j < |ByKind(mix, 0, n)| ==> ByKind(mix, 0, n)[i].kind <= ByKind(mix, 0, n)[j].kind
    decreases |mix|
  {
    KindsAscend(mix, 0, n);
    forall k: nat
      ensures OfKind(ByKind(mix, 0, n), k) == OfKind(mix, k)
    {
      OfKindByKind(mix, 0, n, k);
      if k >= n {
        NoneOfKind(mix, n, k);
      }
    }
    ByKindMultiset(mix, n);
  }

  lemma {:induction false} ByKindMultiset(mix: seq<Item>, n: nat)
    requires KindsBelow(mix, n)
    ensures multiset(ByKind(mix, 0, n)) == multiset(mix)
    decreases |mix|
  {
    if mix == [] {
      NothingByKind(0, n);
    } else {
      assert mix == [mix[0]] + mix[1..];
      ByKindMultiset(mix[1..], n);
      ByKindOfCons(mix[0], mix[1..], 0, n);
    }
  }

  lemma {:induction false} NothingByKind(k: nat, n: nat)
    ensures ByKind([], k, n) == []
    decreases n - k
  {
    if k < n {
      NothingByKind(k + 1, n);
    }
  }

  lemma {:induction false} NoneOfKind(mix: seq<Item>, n: nat, k: nat)
    requires KindsBelow(mix, n) && k >= n
    ensures OfKind(mix, k) == []
  {
    if mix != [] {
      NoneOfKind(mix[1..], n, k);
    }
  }

  lemma {:induction false} KindsAscend(mix: seq<Item>, k: nat, n: nat)
    ensures forall i :: 0 <= i < |ByKind(mix, k, n)| ==> k <= ByKind(mix, k, n)[i].kind < n
    ensures forall i, j :: 0 <= i < j < |ByKind(mix, k, n)| ==> ByKind(mix, k, n)[i].kind <= ByKind(mix, k, n)[j].kind
    decreases n - k
  {
    if k < n {
      KindsAscend(mix, k + 1, n);
    }
  }

  // ---- on the wire ----

  ghost predicate ItemsFit(s: Schema, g: Group, mix: seq<Item>) {
    forall j :: 0 <= j < |mix| ==> ItemFits(s, g, mix[j])
  }

  ghost predicate ItemFits(s: Schema, g: Group, x: Item) {
    && x.kind < |g.members|
    && WellFormed(s, g.members[x.kind], x.value)
    && Clean(s, g.members[x.kind], x.value)
  }

  ghost function MixHeaders(s: Schema, g: Group, mix: seq<Item>): seq<ParamHeader>
    requires ItemsFit(s, g, mix)
  {
    if mix == [] then []
    else [HeaderOf(s, g.members[mix[0].kind], mix[0].value)] + MixHeaders(s, g, mix[1..])
  }

  lemma {:induction false} MixHeadersConcat(s: Schema, g: Group, a: seq<Item>, b: seq<Item>)
    requires ItemsFit(s, g, a) && ItemsFit(s, g, b)
    ensures ItemsFit(s, g, a + b) && MixHeaders(s, g, a + b) == MixHeaders(s, g, a) + MixHeaders(s, g, b)
  {
    hide ItemFits, HeaderOf;
    if a == [] {
      assert a + b == b;
    } else {
      MixHeadersConcat(s, g, a[1..], b);
      assert (a + b)[1..] == a[1..] + b;
    }
  }

  /** Adding an item anywhere in a sequence adds its bytes. */
  lemma MixLength(s: Schema, g: Group, a: seq<Item>, x: Item, b: seq<Item>)
    requires ItemsFit(s, g, a) && ItemsFit(s, g, [x]) && ItemsFit(s, g, b)
    ensures ItemsFit(s, g, a + [x] + b) && ItemsFit(s, g, a + b)
    ensures |EmitAll(MixHeaders(s, g, a + [x] + b))|
            == |EmitAll(MixHeaders(s, g, a + b))| + |EmitAll(MixHeaders(s, g, [x]))|
  {
    hide ItemsFit, MixHeaders, EmitAll;
    MixHeadersConcat(s, g, a, [x]);
    MixHeadersConcat(s, g, a + [x], b);
    MixHeadersConcat(s, g, a, b);
    EmitAllConcat(MixHeaders(s, g, a), MixHeaders(s, g, [x]));
    EmitAllConcat(MixHeaders(s, g, a) + MixHeaders(s, g, [x]), MixHeaders(s, g, b));
    EmitAllConcat(MixHeaders(s, g, a), MixHeaders(s, g, b));
  }

  lemma RemoveOne(b: seq<Item>, j: nat)
    requires j < |b|
    ensures multiset(b) == multiset{b[j]} + multiset(b[..j] + b[j + 1..])
  {
    assert b == b[..j] + [b[j]] + b[j + 1..];
  }

  lemma FindItem(a: seq<Item>, b: seq<Item>) returns (j: nat)
    requires multiset(a) == multiset(b) && a != []
    ensures j < |b| && b[j] == a[0] && multiset(a[1..]) == multiset(b[..j] + b[j + 1..])
  {
    assert a[0] in multiset(b);
    j :| 0 <= j < |b| && b[j] == a[0];
    RemoveOne(a, 0);
    RemoveOne(b, j);
    assert a[..0] + a[0 + 1..] == a[1..];
    assert multiset(a[1..]) == multiset(a) - multiset{a[0]};
  }

  lemma FitOfSame(s: Schema, g: Group, a: seq<Item>, b: seq<Item>)
    requires multiset(a) == multiset(b) && ItemsFit(s, g, a)
    ensures ItemsFit(s, g, b)
  {
    hide WellFormed, Clean;
    forall j | 0 <= j < |b|
      ensures b[j] in a
    {
      assert b[j] in multiset(b);
    }
  }

  lemma FitOfPart(s: Schema, g: Group, a: seq<Item>, x: Item, b: seq<Item>)
    requires ItemsFit(s, g, a + [x] + b)
    ensures ItemsFit(s, g, a) && ItemsFit(s, g, [x]) && ItemsFit(s, g, b)
  {
    hide WellFormed, Clean;
    var all := a + [x] + b;
    assert a == all[..|a|] && x == all[|a|] && b == all[|a| + 1..];
  }

  /** Reordering conserves the number of bytes. */
  lemma {:induction false} SameItemsSameLength(s: Schema, g: Group, a: seq<Item>, b: seq<Item>)
    requires multiset(a) == multiset(b) && ItemsFit(s, g, a)
    ensures ItemsFit(s, g, b) && |EmitAll(MixHeaders(s, g, a))| == |EmitAll(MixHeaders(s, g, b))|
    decreases |a|
  {
    hide MixHeaders, EmitAll, ItemsFit;
    FitOfSame(s, g, a, b);
    if a == [] {
      assert b == [] by { assert |multiset(b)| == 0; }
    } else {
      var x := a[0];
      var j := FindItem(a, b);
      assert b == b[..j] + [x] + b[j + 1..];
      assert a == [] + [x] + a[1..] && [] + a[1..] == a[1..];
      FitOfPart(s, g, [], x, a[1..]);
      FitOfPart(s, g, b[..j], x, b[j + 1..]);
      SameItemsSameLength(s, g, a[1..], b[..j] + b[j + 1..]);
      MixLength(s, g, [], x, a[1..]);
      MixLength(s, g, b[..j], x, b[j + 1..]);
    }
  }

  /** The encoder writes a group's slots in the order of the stable partition. */
  lemma {:induction false} EncodedByKind(s: Schema, g: Group, k: nat, slots: seq<Slot>, mix: seq<Item>)
    requires !g.Exclusive() && |slots| == |g.members| && k <= |slots| && Interleaves(mix, slots)
    requires SlotsWellFormed(s, g.members[k..], slots[k..]) && SlotsClean(s, g, g.members[k..], slots[k..])
    ensures ItemsFit(s, g, ByKind(mix, k, |slots|))
    ensures SlotsHeaders(s, g, g.members[k..], slots[k..]) == MixHeaders(s, g, ByKind(mix, k, |slots|))
    decreases |slots| - k
  {
    hide ItemsHeaders, ItemsClean, ItemsWellFormed, OfKind, WellFormed, Clean, HeaderOf, MixHeaders, ItemsFit;
    NoItems(s, g);
    if k < |slots| {
      SlotsHeadersStep(s, g, slots, k);
      assert g.members[k..][1..] == g.members[k + 1..] && slots[k..][1..] == slots[k + 1..];
      EncodedByKind(s, g, k + 1, slots, mix);
      EncodedOneKind(s, g, k, slots[k].items);
      MixHeadersConcat(s, g, Tag(k, OfKind(mix, k)), ByKind(mix, k + 1, |slots|));
    }
  }

  lemma NoItems(s: Schema, g: Group)
    ensures ItemsFit(s, g, []) && MixHeaders(s, g, []) == []
  {}

  lemma {:induction false} EncodedOneKind(s: Schema, g: Group, k: nat, items: seq<Value>)
    requires !g.Exclusive() && k < |g.members|
    requires ItemsWellFormed(s, g.members[k], items) && ItemsClean(s, g, g.members[k], items)
    ensures ItemsFit(s, g, Tag(k, items))
    ensures ItemsHeaders(s, g, g.members[k], items) == MixHeaders(s, g, Tag(k, items))
    decreases |items|
  {
    hide WellFormed, Clean, HeaderOf;
    if items == [] {
    } else {
      assert Tag(k, items)[1..] == Tag(k, items[1..]);
      EncodedOneKind(s, g, k, items[1..]);
    }
  }

  // ---- decoding an interleaving ----

  function PutMix(g: Group, slots: seq<Slot>, mix: seq<Item>): (r: seq<Slot>)
    requires KindsBelow(mix, |slots|)
    ensures |r| == |slots|
    decreases |mix|
  {
    if mix == [] then slots else PutMix(g, Put(g, slots, mix[0].kind, mix[0].value), mix[1..])
  }

  lemma {:induction false} PutMixAppends(g: Group, slots: seq<Slot>, mix: seq<Item>, k: nat)
    requires KindsBelow(mix, |slots|) && k < |slots|
    requires g.repeatable || OfKind(mix, k) == [] || (slots[k].items == [] && |OfKind(mix, k)| == 1)
    ensures PutMix(g, slots, mix)[k].items == slots[k].items + OfKind(mix, k)
    decreases |mix|
  {
    if mix == [] {
    } else {
      PutMixAppends(g, Put(g, slots, mix[0].kind, mix[0].value), mix[1..], k);
    }
  }

  lemma {:induction false} LoopTakesMix(s: Schema, g: Group, slots: seq<Slot>, mix: seq<Item>, rest: seq<Byte>)
    requires Good(s) && Refers(s, g.members) && Looped(g) && |slots| == |g.members|
    requires ItemsFit(s, g, mix) && |EmitAll(MixHeaders(s, g, mix))| <= 65535
    ensures Closed(s) && KindsBelow(mix, |slots|)
    ensures DecodeLoop(s, g, slots, EmitAll(MixHeaders(s, g, mix)) + rest)
            == DecodeLoop(s, g, PutMix(g, slots, mix), rest)
    decreases |mix|
  {
    hide Good, WellFormed, Clean, DecodeLoop, Put, Law, HeaderOf, Emit, EmitAll, Looped, MixHeaders;
    GoodIsClosed(s);
    NoItems(s, g);
    NoHeadersNoBytes();
    if mix == [] {
      assert [] + rest == rest;
    } else {
      var id, v := g.members[mix[0].kind], mix[0].value;
      var more := EmitAll(MixHeaders(s, g, mix[1..]));
      MixFirst(s, g, mix);
      RoundTripLaw(s, id, v);
      LoopItem(s, g, mix[0].kind, slots, v, more + rest);
      assert (Encode(s, id, v) + more) + rest == Encode(s, id, v) + (more + rest);
      LoopTakesMix(s, g, Put(g, slots, mix[0].kind, v), mix[1..], rest);
    }
  }

  lemma MixFirst(s: Schema, g: Group, mix: seq<Item>)
    requires ItemsFit(s, g, mix) && mix != []
    ensures var id, v := g.members[mix[0].kind], mix[0].value;
            EmitAll(MixHeaders(s, g, mix)) == Encode(s, id, v) + EmitAll(MixHeaders(s, g, mix[1..]))
  {
    hide WellFormed, Clean, Emit;
    var id, v := g.members[mix[0].kind], mix[0].value;
    EmitAllSingle(HeaderOf(s, id, v));
    EmitAllConcat([HeaderOf(s, id, v)], MixHeaders(s, g, mix[1..]));
  }

  /** The loop recovers the slots from any interleaving of them. */
  lemma LoopSortsMix(s: Schema, g: Group, slots: seq<Slot>, mix: seq<Item>, rest: seq<Byte>)
    requires Good(s) && Refers(s, g.members) && Looped(g) && Shape(g, slots)
    requires ItemsFit(s, g, mix) && |EmitAll(MixHeaders(s, g, mix))| <= 65535 && Interleaves(mix, slots)
    ensures Closed(s)
    ensures DecodeLoop(s, g, EmptySlots(|g.members|), EmitAll(MixHeaders(s, g, mix)) + rest)
            == DecodeLoop(s, g, slots, rest)
  {
    hide Good, ItemsFit, DecodeLoop, EmitAll, MixHeaders, Looped, PutMix, OfKind;
    var empty := EmptySlots(|g.members|);
    LoopTakesMix(s, g, empty, mix, rest);
    var put := PutMix(g, empty, mix);
    forall k | 0 <= k < |slots|
      ensures put[k] == slots[k]
    {
      PutMixAppends(g, empty, mix, k);
      assert [] + OfKind(mix, k) == OfKind(mix, k);
    }
    assert put == slots;
  }

  // ---- a whole parameter with one group interleaved ----

  /** The headers of all groups, those of group `i` in the order of `mix`. */
  ghost function Scrambled(s: Schema, gs: seq<Group>, gvs: seq<GroupValue>, i: nat, mix: seq<Item>): seq<ParamHeader>
    requires GroupsWellFormed(s, gs, gvs) && i < |gs| && ItemsFit(s, gs[i], mix)
    decreases i
  {
    if i == 0 then MixHeaders(s, gs[0], mix) + GroupsHeaders(s, gs[1..], gvs[1..])
    else
      SlotsHeaders(s, gs[0], gs[0].members, gvs[0].slots) + Scrambled(s, gs[1..], gvs[1..], i - 1, mix)
  }

  lemma GroupsParts(s: Schema, gs: seq<Group>, gvs: seq<GroupValue>)
    requires GroupsWellFormed(s, gs, gvs) && GroupsClean(s, gs, gvs) && gs != []
    ensures |gs| == |gvs| && Shape(gs[0], gvs[0].slots)
    ensures SlotsWellFormed(s, gs[0].members, gvs[0].slots) && SlotsClean(s, gs[0], gs[0].members, gvs[0].slots)
    ensures GroupsWellFormed(s, gs[1..], gvs[1..]) && GroupsClean(s, gs[1..], gvs[1..])
    ensures GroupsHeaders(s, gs, gvs)
            == SlotsHeaders(s, gs[0], gs[0].members, gvs[0].slots) + GroupsHeaders(s, gs[1..], gvs[1..])
  {}

  lemma MixOfSlotsFits(s: Schema, g: Group, slots: seq<Slot>, mix: seq<Item>)
    requires !g.Exclusive() && |slots| == |g.members| && Interleaves(mix, slots)
    requires SlotsWellFormed(s, g.members, slots) && SlotsClean(s, g, g.members, slots)
    ensures ItemsFit(s, g, mix)
    ensures ItemsFit(s, g, ByKind(mix, 0, |slots|))
    ensures SlotsHeaders(s, g, g.members, slots) == MixHeaders(s, g, ByKind(mix, 0, |slots|))
    ensures |EmitAll(MixHeaders(s, g, mix))| == |EmitAll(SlotsHeaders(s, g, g.members, slots))|
  {
    hide ItemsFit, MixHeaders, EmitAll, SlotsHeaders, SlotsWellFormed, SlotsClean, OfKind, ByKind;
    assert g.members[0..] == g.members && slots[0..] == slots;
    EncodedByKind(s, g, 0, slots, mix);
    StablePartition(mix, |slots|);
    SameItemsSameLength(s, g, ByKind(mix, 0, |slots|), mix);
  }

  /** Encoding writes the stable partition of whatever was decoded. */
  lemma {:induction false} ScrambledByKind(s: Schema, gs: seq<Group>, gvs: seq<GroupValue>, i: nat, mix: seq<Item>)
    requires GroupsWellFormed(s, gs, gvs) && GroupsClean(s, gs, gvs) && i < |gs| == |gvs| && !gs[i].Exclusive()
    requires |gvs[i].slots| == |gs[i].members| && Interleaves(mix, gvs[i].slots)
    ensures var sorted := ByKind(mix, 0, |gvs[i].slots|);
            && ItemsFit(s, gs[i], mix) && ItemsFit(s, gs[i], sorted)
            && Scrambled(s, gs, gvs, i, sorted) == GroupsHeaders(s, gs, gvs)
            && |EmitAll(Scrambled(s, gs, gvs, i, mix))| == |EmitAll(GroupsHeaders(s, gs, gvs))|
    decreases i
  {
    hide ItemsFit, MixHeaders, EmitAll, SlotsHeaders, SlotsWellFormed, SlotsClean, OfKind, ByKind, Interleaves, Shape,
         GroupsHeaders, GroupsWellFormed, GroupsClean;
    GroupsParts(s, gs, gvs);
    if i == 0 {
      MixOfSlotsFits(s, gs[0], gvs[0].slots, mix);
      EmitAllConcat(MixHeaders(s, gs[0], mix), GroupsHeaders(s, gs[1..], gvs[1..]));
      EmitAllConcat(SlotsHeaders(s, gs[0], gs[0].members, gvs[0].slots), GroupsHeaders(s, gs[1..], gvs[1..]));
    } else {
      ScrambledByKind(s, gs[1..], gvs[1..], i - 1, mix);
      EmitAllConcat(SlotsHeaders(s, gs[0], gs[0].members, gvs[0].slots), Scrambled(s, gs[1..], gvs[1..], i - 1, mix));
      EmitAllConcat(SlotsHeaders(s, gs[0], gs[0].members, gvs[0].slots), GroupsHeaders(s, gs[1..], gvs[1..]));
    }
  }

  lemma {:induction false} MixAway(s: Schema, g: Group, og: Group, mix: seq<Item>)
    requires Good(s) && ItemsFit(s, og, mix) && forall k :: 0 <= k < |og.members| ==> Behind(s, g, og.members[k])
    ensures AllAway(g, MixHeaders(s, og, mix)) && AllSizesExact(MixHeaders(s, og, mix))
    decreases |mix|
  {
    hide Behind, AwayFrom, PeeksTwo, Good, WellFormed, Clean, HeaderOf, Emit;
    if mix == [] {
    } else {
      var id := og.members[mix[0].kind];
      GoodParts(s);
      HeaderTyp(s, id, mix[0].value);
      GoodId(s, id);
      PrintsTwo(s, g, id, mix[0].value);
      SizeIsExact(s, id, mix[0].value);
      MixAway(s, g, og, mix[1..]);
    }
  }

  lemma {:induction false} MixSizes(s: Schema, g: Group, mix: seq<Item>)
    requires Good(s) && ItemsFit(s, g, mix)
    ensures AllSizesExact(MixHeaders(s, g, mix))
    decreases |mix|
  {
    hide Good, WellFormed, Clean, HeaderOf;
    if mix == [] {
    } else {
      GoodParts(s);
      SizeIsExact(s, g.members[mix[0].kind], mix[0].value);
      MixSizes(s, g, mix[1..]);
    }
  }

  lemma AllAwayConcat(g: Group, a: seq<ParamHeader>, b: seq<ParamHeader>)
    requires AllAway(g, a) && AllAway(g, b)
    ensures AllAway(g, a + b)
  {}

  lemma {:induction false} ScrambledSizes(s: Schema, gs: seq<Group>, gvs: seq<GroupValue>, i: nat, mix: seq<Item>)
    requires Good(s) && GroupsWellFormed(s, gs, gvs) && GroupsClean(s, gs, gvs)
    requires i < |gs| && ItemsFit(s, gs[i], mix)
    ensures AllSizesExact(Scrambled(s, gs, gvs, i, mix))
    decreases i
  {
    hide Good, ItemsFit, MixHeaders, SlotsHeaders, SlotsWellFormed, SlotsClean, Shape, AllSizesExact, GroupsHeaders,
         GroupsWellFormed, GroupsClean;
    GoodParts(s);
    GroupsParts(s, gs, gvs);
    if i == 0 {
      MixSizes(s, gs[0], mix);
      GroupsSizesExact(s, gs[1..], gvs[1..]);
      AllSizesExactConcat(MixHeaders(s, gs[0], mix), GroupsHeaders(s, gs[1..], gvs[1..]));
    } else {
      SlotsSizesExact(s, gs[0], gs[0].members, gvs[0].slots);
      ScrambledSizes(s, gs[1..], gvs[1..], i - 1, mix);
      AllSizesExactConcat(SlotsHeaders(s, gs[0], gs[0].members, gvs[0].slots),
                          Scrambled(s, gs[1..], gvs[1..], i - 1, mix));
    }
  }

  lemma {:induction false} ScrambledAway(s: Schema, g: Group, gs: seq<Group>, gvs: seq<GroupValue>, i: nat,
                                         mix: seq<Item>)
    requires Good(s) && GroupsWellFormed(s, gs, gvs) && GroupsClean(s, gs, gvs) && AllBehind(s, g, gs)
    requires i < |gs| && ItemsFit(s, gs[i], mix)
    ensures AllAway(g, Scrambled(s, gs, gvs, i, mix))
    decreases i
  {
    hide Good, ItemsFit, MixHeaders, SlotsHeaders, SlotsWellFormed, SlotsClean, Shape, Behind, GroupsHeaders,
         GroupsWellFormed, GroupsClean, AllAway, AllSizesExact;
    GroupsParts(s, gs, gvs);
    if i == 0 {
      MixAway(s, g, gs[0], mix);
      GroupsAway(s, g, gs[1..], gvs[1..]);
      AllAwayConcat(g, MixHeaders(s, gs[0], mix), GroupsHeaders(s, gs[1..], gvs[1..]));
    } else {
      SlotsAway(s, g, gs[0], gs[0].members, gvs[0].slots);
      ScrambledAway(s, g, gs[1..], gvs[1..], i - 1, mix);
      AllAwayConcat(g, SlotsHeaders(s, gs[0], gs[0].members, gvs[0].slots),
                    Scrambled(s, gs[1..], gvs[1..], i - 1, mix));
    }
  }

  lemma MixPrints(s: Schema, g: Group, mix: seq<Item>)
    requires ItemsFit(s, g, mix) && mix != []
    ensures MixHeaders(s, g, mix) != [] && EmitAll(MixHeaders(s, g, mix)) != []
  {
    hide HeaderOf, WellFormed, Clean;
    EmitsSomething(MixHeaders(s, g, mix)[0]);
  }

  /** What the theorem asks of the groups: coherent, and a clean value of each. */
  ghost predicate GroupsReady(s: Schema, gs: seq<Group>, gvs: seq<GroupValue>, i: nat, mix: seq<Item>) {
    && Good(s) && GroupsRefer(s, gs) && GroupsGood(gs) && Visible(s, gs)
    && GroupsWellFormed(s, gs, gvs) && GroupsClean(s, gs, gvs)
    && i < |gs| == |gvs| && Looped(gs[i])
    && |gvs[i].slots| == |gs[i].members| && Interleaves(mix, gvs[i].slots)
    && |EmitAll(GroupsHeaders(s, gs, gvs))| <= 65535
  }

  lemma ReadyNext(s: Schema, gs: seq<Group>, gvs: seq<GroupValue>, i: nat, mix: seq<Item>)
    requires GroupsReady(s, gs, gvs, i, mix) && i > 0
    ensures GroupsReady(s, gs[1..], gvs[1..], i - 1, mix)
    ensures |EmitAll(SlotsHeaders(s, gs[0], gs[0].members, gvs[0].slots))| <= 65535
  {
    hide Good, Interleaves, EmitAll, GroupsWellFormed, GroupsClean, GroupsGood, GroupsHeaders, Visible;
    GroupsGoodHead(gs);
    VisibleNext(s, gs);
    GroupsParts(s, gs, gvs);
    EmitAllBounds(SlotsHeaders(s, gs[0], gs[0].members, gvs[0].slots), GroupsHeaders(s, gs[1..], gvs[1..]));
  }

  lemma InterleavedGroup(s: Schema, gs: seq<Group>, gvs: seq<GroupValue>, mix: seq<Item>, known: int)
    requires GroupsReady(s, gs, gvs, 0, mix)
    ensures Closed(s) && ItemsFit(s, gs[0], mix) && GroupsWellFormed(s, gs[1..], gvs[1..])
    ensures var hs := GroupsHeaders(s, gs[1..], gvs[1..]);
            var r := DecodeGroup(s, gs[0], EmitAll(MixHeaders(s, gs[0], mix)) + EmitAll(hs), known);
            r.Ok? && r.value.0 == gvs[0].slots && r.value.1 == EmitAll(hs)
  {
    hide Good, Interleaves, EmitAll, GroupsWellFormed, GroupsClean, GroupsGood, GroupsHeaders, SlotsHeaders,
         DecodeLoop,
         SlotsWellFormed, SlotsClean, ItemsFit, MixHeaders, AllAway, Apart, AllBehind, Visible, AllSizesExact,
         SmallestMin;
    var g, slots := gs[0], gvs[0].slots;
    GoodParts(s);
    GroupsParts(s, gs, gvs);
    GroupsGoodHead(gs);
    var hs := GroupsHeaders(s, gs[1..], gvs[1..]);
    MixOfSlotsFits(s, g, slots, mix);
    EmitAllBounds(SlotsHeaders(s, g, g.members, slots), hs);
    ApartIsBehind(s, gs);
    GroupsAway(s, g, gs[1..], gvs[1..]);
    GroupsSizesExact(s, gs[1..], gvs[1..]);
    LoopSortsMix(s, g, slots, mix, EmitAll(hs));
    ShortFits(hs);
    LoopStopsHere(s, g, slots, hs);
  }

  lemma {:induction false} ScrambledDecodes(s: Schema, gs: seq<Group>, gvs: seq<GroupValue>, i: nat,
                                            mix: seq<Item>, known: int)
    requires GroupsReady(s, gs, gvs, i, mix) && mix != []
    ensures Closed(s) && ItemsFit(s, gs[i], mix)
    ensures DecodeGroups(s, gs, EmitAll(Scrambled(s, gs, gvs, i, mix)), known, true) == Ok(gvs)
    decreases i
  {
    hide Good, Interleaves, EmitAll, GroupsWellFormed, GroupsClean, GroupsGood, GroupsHeaders, SlotsHeaders,
         DecodeGroup,
         SlotsWellFormed, SlotsClean, ItemsFit, MixHeaders, AllAway, AllSizesExact, Shape, Looped, EmptyGroups,
         Visible, Apart, AllBehind, InOrder;
    GoodParts(s);
    GroupsParts(s, gs, gvs);
    var g, slots := gs[0], gvs[0].slots;
    if i == 0 {
      var hs := GroupsHeaders(s, gs[1..], gvs[1..]);
      InterleavedGroup(s, gs, gvs, mix, known);
      MixPrints(s, g, mix);
      EmitAllConcat(MixHeaders(s, g, mix), hs);
      TailRoundTrip(s, gs, gvs, mix, DecodeGroup(s, g, EmitAll(MixHeaders(s, g, mix)) + EmitAll(hs), known).value.2);
    } else {
      ReadyNext(s, gs, gvs, i, mix);
      ScrambledDecodes(s, gs[1..], gvs[1..], i - 1, mix, 0);
      GroupsGoodHead(gs);
      if Apart(g, gs[1..]) {
        ApartIsBehind(s, gs);
      }
      ScrambledFollows(s, g, gs[1..], gvs[1..], i - 1, mix);
      var hs := Scrambled(s, gs[1..], gvs[1..], i - 1, mix);
      FirstBefore(s, g, slots, hs, known);
      EmitAllConcat(SlotsHeaders(s, g, g.members, slots), hs);
      var d := EmitAll(SlotsHeaders(s, g, g.members, slots)) + EmitAll(hs);
      ScrambledDecodes(s, gs[1..], gvs[1..], i - 1, mix, DecodeGroup(s, g, d, known).value.2);
    }
    assert [GroupValue(slots)] + gvs[1..] == gvs;
  }

  lemma TailRoundTrip(s: Schema, gs: seq<Group>, gvs: seq<GroupValue>, mix: seq<Item>, known: int)
    requires GroupsReady(s, gs, gvs, 0, mix)
    ensures Closed(s) && GroupsWellFormed(s, gs[1..], gvs[1..])
    ensures DecodeGroups(s, gs[1..], EmitAll(GroupsHeaders(s, gs[1..], gvs[1..])), known, true) == Ok(gvs[1..])
  {
    hide Good, Interleaves, EmitAll, GroupsWellFormed, GroupsClean, GroupsGood, GroupsHeaders, SlotsHeaders,
         DecodeGroups,
         SlotsWellFormed, SlotsClean, GroupsLaw, Looped, Shape, Visible;
    VisibleNext(s, gs);
    GoodParts(s);
    GroupsParts(s, gs, gvs);
    GroupsGoodHead(gs);
    EmitAllBounds(SlotsHeaders(s, gs[0], gs[0].members, gvs[0].slots), GroupsHeaders(s, gs[1..], gvs[1..]));
    ShortFits(GroupsHeaders(s, gs[1..], gvs[1..]));
    GroupsLawHolds(s, gs[1..], gvs[1..]);
    GroupsRoundTrip(s, gs[1..], gvs[1..], known, true);
  }

  lemma ScrambledFollows(s: Schema, g: Group, gs: seq<Group>, gvs: seq<GroupValue>, i: nat, mix: seq<Item>)
    requires GroupsReady(s, gs, gvs, i, mix) && mix != [] && (InOrder(g) || AllBehind(s, g, gs))
    ensures GroupsWellFormed(s, gs, gvs) && ItemsFit(s, gs[i], mix)
    ensures var hs := Scrambled(s, gs, gvs, i, mix);
            && EmitAll(hs) != [] && AllSizesExact(hs) && AllFit(hs)
            && (InOrder(g) || AllAway(g, hs))
  {
    hide Good, Interleaves, EmitAll, GroupsWellFormed, GroupsClean, GroupsGood, GroupsHeaders, InOrder, AllBehind,
         ItemsFit, AllAway, AllSizesExact, Scrambled, Visible;
    ScrambledByKind(s, gs, gvs, i, mix);
    ScrambledPrints(s, gs, gvs, i, mix);
    ScrambledSizes(s, gs, gvs, i, mix);
    if !InOrder(g) {
      ScrambledAway(s, g, gs, gvs, i, mix);
    }
    ShortFits(Scrambled(s, gs, gvs, i, mix));
  }

  lemma FirstBefore(s: Schema, g: Group, slots: seq<Slot>, hs: seq<ParamHeader>, known: int)
    requires Good(s) && Refers(s, g.members) && g.members != [] && Distinct(g.members)
    requires Shape(g, slots) && SlotsWellFormed(s, g.members, slots) && SlotsClean(s, g, g.members, slots)
    requires |EmitAll(SlotsHeaders(s, g, g.members, slots))| <= 65535
    requires EmitAll(hs) != [] && AllSizesExact(hs) && AllFit(hs)
    requires InOrder(g) || AllAway(g, hs)
    ensures Closed(s)
    ensures var r := DecodeGroup(s, g, EmitAll(SlotsHeaders(s, g, g.members, slots)) + EmitAll(hs), known);
            r.Ok? && r.value.0 == slots && r.value.1 == EmitAll(hs)
  {
    hide *;
    GoodParts(s);
    ShortFits(SlotsHeaders(s, g, g.members, slots));
    SlotsLawHolds(s, g, g.members, slots);
    EmitsHeaders(hs);
    GroupStep(s, g, slots, hs, known);
  }

  lemma EmitsHeaders(hs: seq<ParamHeader>)
    requires EmitAll(hs) != []
    ensures hs != []
  {}

  lemma {:induction false} ScrambledPrints(s: Schema, gs: seq<Group>, gvs: seq<GroupValue>, i: nat, mix: seq<Item>)
    requires GroupsWellFormed(s, gs, gvs) && GroupsClean(s, gs, gvs)
    requires i < |gs| && ItemsFit(s, gs[i], mix) && mix != []
    ensures Scrambled(s, gs, gvs, i, mix) != [] && EmitAll(Scrambled(s, gs, gvs, i, mix)) != []
    decreases i
  {
    hide ItemsFit, MixHeaders, SlotsHeaders, SlotsWellFormed, SlotsClean, Shape, GroupsHeaders,
         GroupsWellFormed, GroupsClean;
    GroupsParts(s, gs, gvs);
    if i == 0 {
      MixPrints(s, gs[0], mix);
    } else {
      ScrambledPrints(s, gs[1..], gvs[1..], i - 1, mix);
    }
    EmitsSomething(Scrambled(s, gs, gvs, i, mix)[0]);
  }

  /** A parameter's bytes with group `i` interleaved as in `mix`. */
  ghost function ScrambledBody(s: Schema, id: nat, v: Value, i: nat, mix: seq<Item>): seq<Byte>
    requires WellFormed(s, id, v) && i < |s[id].groups| && ItemsFit(s, s[id].groups[i], mix)
  {
    EncodeFields(s[id].fields, v.fields) + EmitAll(Scrambled(s, s[id].groups, v.groups, i, mix))
  }

  /** Whatever the order in which the parameters of a group that is read in a loop arrive,
      be they repeatable or optional, decoding gives the same value, and encoding that value
      writes their stable partition by kind. */
  lemma AnyInterleavingDecodes(s: Schema, id: nat, v: Value, i: nat, mix: seq<Item>)
    requires Good(s) && WellFormed(s, id, v) && Clean(s, id, v) && |Encode(s, id, v)| <= 65535
    requires i < |s[id].groups| == |v.groups| && Looped(s[id].groups[i])
    requires |v.groups[i].slots| == |s[id].groups[i].members| && Interleaves(mix, v.groups[i].slots)
    ensures var sorted := ByKind(mix, 0, |v.groups[i].slots|);
            && Closed(s) && ItemsFit(s, s[id].groups[i], mix) && ItemsFit(s, s[id].groups[i], sorted)
            && UnmarshalBinary(s, id, ScrambledBody(s, id, v, i, mix)) == Ok(v)
            && Body(s, id, v) == ScrambledBody(s, id, v, i, sorted)
            && multiset(sorted) == multiset(mix)
            && forall k: nat :: OfKind(sorted, k) == OfKind(mix, k)
  {
    hide *;
    FieldsOfValue(s, id, v);
    GoodContainer(s, id);
    CleanIsGroupsClean(s, id, v);
    KindsOfMix(mix, v.groups[i].slots);
    StablePartition(mix, |v.groups[i].slots|);
    LoopedIsPlain(s[id].groups[i]);
    ScrambledByKind(s, s[id].groups, v.groups, i, mix);
    BodyUnfolds(s, id, v, i, ByKind(mix, 0, |v.groups[i].slots|));
    BodyUnfolds(s, id, v, i, mix);
    if mix == [] {
      NothingByKind(0, |v.groups[i].slots|);
      RoundTripLaw(s, id, v);
      LawOfClean(s, id, v);
    } else {
      GroupsOfReady(s, id, v, i, mix);
      ScrambledDecodes(s, s[id].groups, v.groups, i, mix, KnownAfter(s[id].fields, s[id].minSize - HeaderSize(id)));
      DecodesWithTail(s, id, v, EmitAll(Scrambled(s, s[id].groups, v.groups, i, mix)));
    }
  }

  lemma KindsOfMix(mix: seq<Item>, slots: seq<Slot>)
    requires Interleaves(mix, slots)
    ensures KindsBelow(mix, |slots|)
  {}

  lemma LoopedIsPlain(g: Group)
    requires Looped(g)
    ensures !g.Exclusive()
  {}

  lemma LawOfClean(s: Schema, id: nat, v: Value)
    requires Closed(s) && WellFormed(s, id, v) && Clean(s, id, v) && Law(s, id, v)
    ensures id in s && UnmarshalBinary(s, id, Body(s, id, v)) == Ok(v)
  {
    hide UnmarshalBinary, Body, Clean;
  }

  lemma BodyUnfolds(s: Schema, id: nat, v: Value, i: nat, mix: seq<Item>)
    requires WellFormed(s, id, v) && i < |s[id].groups| && ItemsFit(s, s[id].groups[i], mix)
    requires |s[id].fields| == |v.fields|
    ensures GroupsWellFormed(s, s[id].groups, v.groups)
    ensures ScrambledBody(s, id, v, i, mix)
            == EncodeFields(s[id].fields, v.fields) + EmitAll(Scrambled(s, s[id].groups, v.groups, i, mix))
    ensures Body(s, id, v) == EncodeFields(s[id].fields, v.fields) + EmitAll(GroupsHeaders(s, s[id].groups, v.groups))
  {
    hide EncodeFields, EmitAll, Scrambled, GroupsHeaders;
  }

  lemma GroupsOfReady(s: Schema, id: nat, v: Value, i: nat, mix: seq<Item>)
    requires Good(s) && WellFormed(s, id, v) && Clean(s, id, v) && |Encode(s, id, v)| <= 65535
    requires i < |s[id].groups| == |v.groups| && Looped(s[id].groups[i])
    requires |v.groups[i].slots| == |s[id].groups[i].members| && Interleaves(mix, v.groups[i].slots)
    ensures GroupsReady(s, s[id].groups, v.groups, i, mix)
  {
    hide Good, WellFormed, Clean, Encode, EncodeFields, EmitAll, GroupsHeaders, Interleaves, Looped, GroupsGood,
         GroupsWellFormed, GroupsClean, FieldsOk, FieldOk, Visible;
    FieldsOfValue(s, id, v);
    GoodContainer(s, id);
    CleanIsGroupsClean(s, id, v);
    EncodeIsHeaderAndBody(s, id, v);
  }

  /** The fields read back in front of any bytes the groups take. */
  lemma DecodesWithTail(s: Schema, id: nat, v: Value, tail: seq<Byte>)
    requires Good(s) && WellFormed(s, id, v) && Clean(s, id, v) && s[id].groups != [] && |s[id].fields| == |v.fields|
    requires |tail| == |Body(s, id, v)| - |EncodeFields(s[id].fields, v.fields)|
    requires Closed(s) && GroupsRefer(s, s[id].groups)
    requires DecodeGroups(s, s[id].groups, tail, KnownAfter(s[id].fields, s[id].minSize - HeaderSize(id)), true)
             == Ok(v.groups)
    ensures UnmarshalBinary(s, id, EncodeFields(s[id].fields, v.fields) + tail) == Ok(v)
  {
    hide Good, WellFormed, Clean, EncodeFields, DecodeFieldsFrom, DecodeGroups, KnownAfter, FieldsOk, GroupsGood,
         Body,
         FieldOk;
    FieldsOfValue(s, id, v);
    GoodContainer(s, id);
    GuardAdmits(s, id, v);
    var c := s[id];
    assert c.fields[0..] == c.fields && v.fields[0..] == v.fields;
    assert [] + EncodeFields(c.fields, v.fields) + tail == EncodeFields(c.fields, v.fields) + tail;
    FieldsRoundTrip(c, v.fields, 0, [], tail);
    if c.fields == [] {
      NoFieldsDecode(c, EncodeFields(c.fields, v.fields) + tail);
      NoFieldsEncode(v.fields);
      assert [] + tail == tail;
    }
  }
}
