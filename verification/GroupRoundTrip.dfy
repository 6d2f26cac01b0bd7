/** The law for the groups of a container, one kind of group at a time. */
module GroupRoundTrip {
  import opened Bytes
  import opened Outcomes
  import opened Fields
  import opened Schema
  import opened Encoder
  import opened Decoder
  import opened RoundTrip

  lemma GoodIsClosed(s: Schema)
    requires Good(s)
    ensures Closed(s)
  {}

  // ---- what follows a group ----

  /** Headers of parameters that the group's switch does not take for its own. */
  ghost predicate AllAway(g: Group, hs: seq<ParamHeader>) {
    forall i :: 0 <= i < |hs| ==>
      AwayFrom(g, hs[i].typ) && 0 < hs[i].typ < 0x8000 && (PeeksTwo(g) ==> |Emit(hs[i])| > 1)
  }

  /** What may stand behind a group, and is seen there. */
  predicate Behind(s: Schema, g: Group, id: nat) {
    AwayFrom(g, id) && VisibleTo(s, g, id)
  }

  lemma {:induction false} ItemsAway(s: Schema, g: Group, og: Group, id: nat, items: seq<Value>)
    requires Good(s) && ItemsWellFormed(s, id, items) && (items != [] ==> Behind(s, g, id))
    ensures AllAway(g, ItemsHeaders(s, og, id, items))
    decreases items
  {
    hide Behind, AwayFrom, PeeksTwo, Selected, Good, WellFormed, HeaderOf, Emit;
    if items == [] {
    } else {
      HeaderTyp(s, id, items[0]);
      GoodId(s, id);
      PrintsTwo(s, g, id, items[0]);
      ItemsAway(s, g, og, id, items[1..]);
    }
  }

  lemma PrintsTwo(s: Schema, g: Group, id: nat, v: Value)
    requires Good(s) && WellFormed(s, id, v) && Behind(s, g, id)
    ensures AwayFrom(g, id) && (PeeksTwo(g) ==> |Encode(s, id, v)| > 1)
  {
    hide Good, AwayFrom, PeeksTwo, WellFormed, Encode, HeaderOf, ContainerGood;
    if IsTv(id) {
      FieldsOfValue(s, id, v);
      TvSize(s, id, v);
      if PeeksTwo(g) {
        BytesCount(s[id].fields);
        GoodSize(s, id);
      }
    } else {
      HeaderTyp(s, id, v);
      TlvPrints(HeaderOf(s, id, v));
    }
  }

  lemma GoodSize(s: Schema, id: nat)
    requires Good(s) && id in s && IsTv(id)
    ensures s[id].minSize == 1 + MinSizes(s[id].fields)
  {}

  lemma {:induction false} BytesCount(fs: seq<Field>)
    requires exists i :: 0 <= i < |fs| && MinSize(fs[i]) > 0
    ensures MinSizes(fs) > 0
  {
    hide MinSize;
    if MinSize(fs[0]) == 0 {
      var i :| 0 <= i < |fs| && MinSize(fs[i]) > 0;
      assert fs[1..][i - 1] == fs[i];
      BytesCount(fs[1..]);
    }
  }

  lemma TlvPrints(h: ParamHeader)
    requires !IsTv(h.typ)
    ensures |Emit(h)| >= 4
  {
    hide EmitAll;
    assert |HeaderBytes(h)| == 4;
  }

  lemma {:induction false} SlotsAway(s: Schema, g: Group, og: Group, ids: seq<nat>, slots: seq<Slot>)
    requires Good(s) && SlotsWellFormed(s, ids, slots)
    requires forall k :: 0 <= k < |ids| ==> Behind(s, g, ids[k])
    ensures AllAway(g, SlotsHeaders(s, og, ids, slots))
    decreases slots
  {
    hide Behind, AwayFrom, PeeksTwo, Emit, Good, ItemsHeaders, ItemsWellFormed;
    if ids == [] {
    } else {
      ItemsAway(s, g, og, ids[0], slots[0].items);
      SlotsAway(s, g, og, ids[1..], slots[1..]);
    }
  }

  predicate AllBehind(s: Schema, g: Group, later: seq<Group>) {
    forall i, k :: 0 <= i < |later| && 0 <= k < |later[i].members| ==> Behind(s, g, later[i].members[k])
  }

  lemma ApartIsBehind(s: Schema, gs: seq<Group>)
    requires gs != [] && Apart(gs[0], gs[1..]) && Visible(s, gs)
    ensures AllBehind(s, gs[0], gs[1..]) && Visible(s, gs[1..])
  {
    hide AwayFrom, VisibleTo;
    assert forall i :: 0 <= i < |gs[1..]| ==> gs[1..][i] == gs[i + 1];
  }

  lemma {:induction false} GroupsAway(s: Schema, g: Group, gs: seq<Group>, gvs: seq<GroupValue>)
    requires Good(s) && GroupsWellFormed(s, gs, gvs) && AllBehind(s, g, gs)
    ensures AllAway(g, GroupsHeaders(s, gs, gvs))
    decreases gvs
  {
    hide Behind, AwayFrom, PeeksTwo, Emit, Good, SlotsHeaders, SlotsWellFormed;
    if gs == [] {
    } else {
      SlotsAway(s, g, gs[0], gs[0].members, gvs[0].slots);
      GroupsAway(s, g, gs[1..], gvs[1..]);
    }
  }

  predicate InRange(g: Group) {
    forall k :: 0 <= k < |g.members| ==> 0 < g.members[k] < 0x8000
  }

  lemma MembersInRange(s: Schema, g: Group)
    requires Good(s) && Refers(s, g.members)
    ensures InRange(g)
  {
    hide Good;
    forall k | 0 <= k < |g.members|
      ensures 0 < g.members[k] < 0x8000
    {
      GoodId(s, g.members[k]);
    }
  }

  lemma FirstIsUnseen(g: Group, hs: seq<ParamHeader>)
    requires AllAway(g, hs) && hs != []
    ensures SeenAs(g, hs[0].typ) !in g.members && 0 < hs[0].typ < 0x8000
    ensures PeeksTwo(g) ==> |Emit(hs[0])| > 1
  {}

  /** A group's switch does not recognise a header of another group. */
  lemma SwitchPasses(g: Group, h: ParamHeader, rest: seq<Byte>)
    requires SeenAs(g, h.typ) !in g.members && InRange(g) && 0 < h.typ < 0x8000
    requires h.sz == U16(|Emit(h)|) && |Emit(h)| <= 65535
    ensures var data := Emit(h) + rest;
            && data != []
            && (ReadType(g, data).Ok? ==> ReadType(g, data).value !in g.members)
            && (HasTv(g.members) || |data| > 1 ==> ReadType(g, data).Ok?)
            && (!HasTv(g.members) && !IsTv(h.typ) ==> |data| >= 4 && U16At(data, 2) <= |data|)
  {
    hide Emit, HasTlv, HasTv;
    HeaderReads(h, rest);
    if IsTv(h.typ) && !HasTv(g.members) && |Emit(h) + rest| > 1 {
      assert U16At(Emit(h) + rest, 0) >= 0x8000;
    }
  }

  // ---- the loop ----

  lemma TypeReads(s: Schema, g: Group, k: nat, v: Value, rest: seq<Byte>)
    requires Good(s) && k < |g.members| && WellFormed(s, g.members[k], v)
    requires |Encode(s, g.members[k], v)| <= 65535
    ensures var e := Encode(s, g.members[k], v);
            && |e| > 0 && |e + rest| >= (if HasTv(g.members) then 1 else 4)
            && ReadType(g, e + rest) == Ok(g.members[k])
            && (!HasTv(g.members) ==> U16At(e + rest, 2) <= |e + rest|)
  {
    hide WellFormed, Encode, Good;
    EncodingReads(s, g.members[k], v, rest);
  }

  lemma IndexOfMember(ids: seq<nat>, k: nat)
    requires k < |ids| && Distinct(ids)
    ensures IndexOf(ids, ids[k]) == k
  {}

  /** A group that is decoded by the greedy loop. */
  predicate Looped(g: Group) {
    && !g.Simple() && !g.Exclusive() && Distinct(g.members)
  }

  /** One turn of the loop consumes exactly one parameter, wherever it stands. */
  lemma LoopItem(s: Schema, g: Group, k: nat, slots: seq<Slot>, v: Value, rest: seq<Byte>)
    requires Good(s) && Refers(s, g.members) && Looped(g)
    requires k < |g.members| == |slots| && WellFormed(s, g.members[k], v)
    requires |Encode(s, g.members[k], v)| <= 65535 && Law(s, g.members[k], v)
    ensures var d := Encode(s, g.members[k], v) + rest;
            && (Clean(s, g.members[k], v) ==>
                  DecodeLoop(s, g, slots, d) == DecodeLoop(s, g, Put(g, slots, k, v), rest))
            && (!Clean(s, g.members[k], v) ==> DecodeLoop(s, g, slots, d).IsFailure())
  {
    hide WellFormed, Encode, Good, Clean, ReadMember, ReadType, HasTv, Law, Put, IndexOf;
    var id := g.members[k];
    var e := Encode(s, id, v);
    TypeReads(s, g, k, v, rest);
    IndexOfMember(g.members, k);
    ReadsMember(s, id, g.repeatable, v, rest);
    assert (e + rest)[|e|..] == rest;
  }

  /** The loop ends, without a change, in front of a later group's parameter; but a loop
      over TLV parameters, which reads a length first, does so in front of a TV parameter
      exactly if what it takes for the length is not there or does not exceed the data. */
  lemma LoopStops(s: Schema, g: Group, slots: seq<Slot>, hs: seq<ParamHeader>)
    requires Closed(s) && Refers(s, g.members) && |slots| == |g.members| && InRange(g)
    requires forall i :: 0 <= i < |hs| ==> SeenAs(g, hs[i].typ) !in g.members && 0 < hs[i].typ < 0x8000
    requires AllSizesExact(hs) && AllFit(hs)
    ensures var d := EmitAll(hs);
            if hs != [] && IsTv(hs[0].typ) && !HasTv(g.members) && |d| >= 4 && U16At(d, 2) > |d| then
              DecodeLoop(s, g, slots, d) == Reject
            else
              DecodeLoop(s, g, slots, d) == Ok((slots, d))
  {
    hide ReadType, HasTv, Emit, SeenAs, ReadMember;
    if hs != [] {
      SwitchPasses(g, hs[0], EmitAll(hs[1..]));
    }
  }

  lemma LoopStopsHere(s: Schema, g: Group, slots: seq<Slot>, hs: seq<ParamHeader>)
    requires Good(s) && Refers(s, g.members) && |slots| == |g.members| && Looped(g)
    requires AllAway(g, hs) && AllSizesExact(hs) && AllFit(hs)
    ensures Closed(s) && DecodeLoop(s, g, slots, EmitAll(hs)) == Ok((slots, EmitAll(hs)))
  {
    hide Good, Emit, EmitAll, DecodeLoop, SeenAs, HasTv, PeeksTwo;
    GoodIsClosed(s);
    MembersInRange(s, g);
    LoopStops(s, g, slots, hs);
  }

  // ---- a whole looped group ----

  /** The law and the wire limit for every value of a list that is printed, and of every
      list of a group. */
  ghost predicate ItemsLaw(s: Schema, g: Group, id: nat, items: seq<Value>)
    requires Closed(s)
  {
    forall j :: 0 <= j < |items| && (g.Exclusive() ==> Selected(items[j])) ==>
      && WellFormed(s, id, items[j]) && Law(s, id, items[j]) && |Encode(s, id, items[j])| <= 65535
  }

  ghost predicate SlotsLaw(s: Schema, g: Group, ids: seq<nat>, slots: seq<Slot>)
    requires Closed(s)
  {
    |ids| == |slots| && forall k :: 0 <= k < |ids| ==> ItemsLaw(s, g, ids[k], slots[k].items)
  }

  function PutAll(g: Group, slots: seq<Slot>, k: nat, items: seq<Value>): (r: seq<Slot>)
    requires k < |slots|
    ensures |r| == |slots|
    decreases |items|
  {
    if items == [] then slots else PutAll(g, Put(g, slots, k, items[0]), k, items[1..])
  }

  /** Filling an empty slot with what the group admits gives exactly that slot. */
  lemma {:induction false} PutAllFills(g: Group, slots: seq<Slot>, k: nat, items: seq<Value>)
    requires k < |slots|
    ensures g.repeatable ==> PutAll(g, slots, k, items) == slots[k := Slot(slots[k].items + items)]
    ensures !g.repeatable && |items| <= 1 && slots[k].items == [] ==>
              PutAll(g, slots, k, items) == slots[k := Slot(items)]
    decreases |items|
  {
    if items == [] {
      assert slots[k].items + items == slots[k].items;
      assert slots[k := slots[k]] == slots;
    } else {
      var put := Put(g, slots, k, items[0]);
      PutAllFills(g, put, k, items[1..]);
      if g.repeatable {
        assert put[k].items + items[1..] == slots[k].items + items;
        assert put[k := Slot(slots[k].items + items)] == slots[k := Slot(slots[k].items + items)];
      } else if |items| == 1 {
        assert items == [items[0]];
        assert PutAll(g, slots, k, items) == PutAll(g, put, k, []);
      }
    }
  }

  lemma {:induction false} LoopItems(s: Schema, g: Group, k: nat, slots: seq<Slot>, items: seq<Value>, rest: seq<Byte>)
    requires Good(s) && Refers(s, g.members) && Looped(g)
    requires k < |g.members| == |slots|
    requires ItemsWellFormed(s, g.members[k], items) && ItemsLaw(s, g, g.members[k], items)
    ensures var d := EmitAll(ItemsHeaders(s, g, g.members[k], items)) + rest;
            && (ItemsClean(s, g, g.members[k], items) ==>
                  DecodeLoop(s, g, slots, d) == DecodeLoop(s, g, PutAll(g, slots, k, items), rest))
            && (!ItemsClean(s, g, g.members[k], items) ==> DecodeLoop(s, g, slots, d).IsFailure())
    decreases items
  {
    hide Good, WellFormed, Clean, DecodeLoop, Put, Law, Selected, HeaderOf, Encode, Emit;
    var id := g.members[k];
    if items == [] {
      assert [] + rest == rest;
    } else {
      var more := EmitAll(ItemsHeaders(s, g, id, items[1..]));
      HeaderTyp(s, id, items[0]);
      assert EmitAll(ItemsHeaders(s, g, id, items)) == Encode(s, id, items[0]) + more by {
        assert ([HeaderOf(s, id, items[0])] + ItemsHeaders(s, g, id, items[1..]))[1..]
               == ItemsHeaders(s, g, id, items[1..]);
      }
      assert (Encode(s, id, items[0]) + more) + rest == Encode(s, id, items[0]) + (more + rest);
      LoopItem(s, g, k, slots, items[0], more + rest);
      LoopItems(s, g, k, Put(g, slots, k, items[0]), items[1..], rest);
    }
  }

  /** The slots before `k` are filled and the others still empty. */
  ghost predicate FilledTo(slots: seq<Slot>, k: nat, now: seq<Slot>) {
    && |now| == |slots| && k <= |slots|
    && (forall j :: 0 <= j < k ==> now[j] == slots[j])
    && (forall j :: k <= j < |slots| ==> now[j] == Slot([]))
  }

  lemma LoopSlotsFacts(s: Schema, g: Group, slots: seq<Slot>, k: nat)
    requires |slots| == |g.members| && Shape(g, slots) && k <= |slots|
    requires SlotsWellFormed(s, g.members[k..], slots[k..])
    ensures k == |slots| ==>
              && EmitAll(SlotsHeaders(s, g, g.members[k..], slots[k..])) == []
              && SlotsClean(s, g, g.members[k..], slots[k..])
    ensures k < |slots| ==>
              && (SlotsClean(s, g, g.members[k..], slots[k..])
                  <==> ItemsClean(s, g, g.members[k], slots[k].items)
                       && SlotsClean(s, g, g.members[k + 1..], slots[k + 1..]))
              && (!g.repeatable ==> |slots[k].items| <= 1)
  {
    hide ItemsWellFormed, ItemsHeaders, ItemsClean, Emit;
    if k < |slots| {
      assert g.members[k..][1..] == g.members[k + 1..] && slots[k..][1..] == slots[k + 1..];
    }
  }

  lemma {:induction false} LoopSlots(s: Schema, g: Group, slots: seq<Slot>, k: nat, now: seq<Slot>, rest: seq<Byte>)
    requires Good(s) && Refers(s, g.members) && Looped(g)
    requires |slots| == |g.members| && Shape(g, slots) && FilledTo(slots, k, now)
    requires SlotsWellFormed(s, g.members[k..], slots[k..]) && SlotsLaw(s, g, g.members, slots)
    ensures var d := EmitAll(SlotsHeaders(s, g, g.members[k..], slots[k..])) + rest;
            && (SlotsClean(s, g, g.members[k..], slots[k..]) ==>
                  DecodeLoop(s, g, now, d) == DecodeLoop(s, g, slots, rest))
            && (!SlotsClean(s, g, g.members[k..], slots[k..]) ==> DecodeLoop(s, g, now, d).IsFailure())
    decreases |slots| - k
  {
    hide Good, ItemsWellFormed, ItemsHeaders, ItemsClean, DecodeLoop, Emit, PutAll, Looped, ItemsLaw, EmitAll,
         SlotsHeaders, SlotsWellFormed, Shape, SlotsClean;
    LoopSlotsFacts(s, g, slots, k);
    if k == |slots| {
      assert now == slots;
      assert [] + rest == rest;
    } else {
      SlotsHeadersStep(s, g, slots, k);
      var id, items := g.members[k], slots[k].items;
      var more := EmitAll(SlotsHeaders(s, g, g.members[k + 1..], slots[k + 1..]));
      EmitAllConcat(ItemsHeaders(s, g, id, items), SlotsHeaders(s, g, g.members[k + 1..], slots[k + 1..]));
      assert (EmitAll(ItemsHeaders(s, g, id, items)) + more) + rest
             == EmitAll(ItemsHeaders(s, g, id, items)) + (more + rest);
      LoopItems(s, g, k, now, items, more + rest);
      PutAllFills(g, now, k, items);
      assert now[k].items + items == items;
      LoopSlots(s, g, slots, k + 1, PutAll(g, now, k, items), rest);
    }
  }

  // ---- an exclusive group ----

  /** Only slot `k` holds anything: one value. */
  predicate OnlyAt(slots: seq<Slot>, k: nat) {
    k < |slots| && |slots[k].items| == 1 && forall j :: 0 <= j < |slots| && j != k ==> slots[j].items == []
  }

  lemma {:induction false} OnlySlotHeaders(s: Schema, g: Group, ids: seq<nat>, slots: seq<Slot>, k: nat)
    requires SlotsWellFormed(s, ids, slots) && OnlyAt(slots, k)
    ensures k < |ids| && ItemsWellFormed(s, ids[k], slots[k].items)
    ensures SlotsHeaders(s, g, ids, slots) == ItemsHeaders(s, g, ids[k], slots[k].items)
    ensures SlotsClean(s, g, ids, slots) == ItemsClean(s, g, ids[k], slots[k].items)
    decreases slots
  {
    hide WellFormed, Clean, Selected, HeaderOf;
    if k == 0 {
      NothingAfter(s, g, ids[1..], slots[1..]);
    } else {
      assert slots[0].items == [];
      OnlySlotHeaders(s, g, ids[1..], slots[1..], k - 1);
    }
  }

  lemma {:induction false} NothingAfter(s: Schema, g: Group, ids: seq<nat>, slots: seq<Slot>)
    requires SlotsWellFormed(s, ids, slots) && forall j :: 0 <= j < |slots| ==> slots[j].items == []
    ensures SlotsHeaders(s, g, ids, slots) == [] && SlotsClean(s, g, ids, slots)
    decreases slots
  {
    hide WellFormed, Clean, Selected, HeaderOf;
    if ids == [] {
    } else {
      NothingAfter(s, g, ids[1..], slots[1..]);
    }
  }

  lemma SingleItem(s: Schema, g: Group, id: nat, v: Value)
    requires ItemsWellFormed(s, id, [v])
    ensures WellFormed(s, id, v)
    ensures EmitAll(ItemsHeaders(s, g, id, [v]))
            == if g.Exclusive() && !Selected(v) then [] else Encode(s, id, v)
    ensures ItemsClean(s, g, id, [v])
            <==> !(g.Simple() && IsTv(id)) && (g.Exclusive() ==> Selected(v)) && Clean(s, id, v)
  {
    hide Clean, Selected, HeaderOf, Emit;
    assert [v][1..] == [];
    if !(g.Exclusive() && !Selected(v)) {
      EmitAllSingle(HeaderOf(s, id, v));
      assert [HeaderOf(s, id, v)] + [] == [HeaderOf(s, id, v)];
    }
  }

  /** The exclusive group: exactly its selected member, and nothing in its place when
      the member is its zero value. */
  lemma ChoiceStep(s: Schema, g: Group, slots: seq<Slot>, k: nat, hs: seq<ParamHeader>)
    requires Good(s) && Refers(s, g.members) && Distinct(g.members)
    requires g.Exclusive() && !g.Simple() && |slots| == |g.members| && OnlyAt(slots, k)
    requires SlotsWellFormed(s, g.members, slots) && SlotsLaw(s, g, g.members, slots)
    requires AllAway(g, hs) && AllSizesExact(hs) && AllFit(hs)
    ensures var d := EmitAll(SlotsHeaders(s, g, g.members, slots)) + EmitAll(hs);
            && (SlotsClean(s, g, g.members, slots) ==> DecodeChoice(s, g, d) == Ok((slots, EmitAll(hs))))
            && (!SlotsClean(s, g, g.members, slots) ==> DecodeChoice(s, g, d).IsFailure())
  {
    hide AllAway, SeenAs, Good, WellFormed, Clean, Selected, HeaderOf, Encode, Emit, ReadType, ReadMember, IndexOf,
         Law, SlotsClean, ItemsHeaders, ItemsClean, SlotsHeaders, HasTv, AwayFrom, ItemsWellFormed, SlotsWellFormed;
    var id, v := g.members[k], slots[k].items[0];
    GoodIsClosed(s);
    OnlySlotHeaders(s, g, g.members, slots, k);
    assert slots[k].items == [v];
    SingleItem(s, g, id, v);
    assert ItemsLaw(s, g, id, slots[k].items);
    if Selected(v) {
      var e := Encode(s, id, v);
      TypeReads(s, g, k, v, EmitAll(hs));
      IndexOfMember(g.members, k);
      ReadsMember(s, id, false, v, EmitAll(hs));
      assert (e + EmitAll(hs))[|e|..] == EmitAll(hs);
      assert EmptySlots(|g.members|)[k := Slot([v])] == slots;
    } else {
      assert [] + EmitAll(hs) == EmitAll(hs);
      if hs == [] {
        NothingToRead(g);
      } else {
        MembersInRange(s, g);
        FirstIsUnseen(g, hs);
        SwitchPasses(g, hs[0], EmitAll(hs[1..]));
      }
    }
  }

  lemma NothingToRead(g: Group)
    ensures ReadType(g, []).IsFailure()
  {}

  // ---- a group read without a loop ----

  /** A TLV parameter read by `unmarshal_tlv`. */
  lemma OneTlv(s: Schema, id: nat, optional: bool, v: Value, rest: seq<Byte>)
    requires Good(s) && WellFormed(s, id, v) && |Encode(s, id, v)| <= 65535 && Law(s, id, v) && !IsTv(id)
    ensures id in s
    ensures var d := Encode(s, id, v) + rest;
            && (Clean(s, id, v) ==> DecodeOne(s, id, optional, d) == Ok((Slot([v]), rest)))
            && (!Clean(s, id, v) ==> DecodeOne(s, id, optional, d).IsFailure())
  {
    hide Good, WellFormed, Clean, Encode, ReadMember, Law;
    FieldsOfValue(s, id, v);
    EncodingReads(s, id, v, rest);
    ReadsMember(s, id, false, v, rest);
    assert (Encode(s, id, v) + rest)[|Encode(s, id, v)|..] == rest;
  }

  lemma GuardPasses(s: Schema, id: nat, v: Value, known: int)
    requires Good(s) && WellFormed(s, id, v) && Clean(s, id, v) && |Encode(s, id, v)| <= 65535
    ensures id in s && HeaderGuard(s, id, known) <= |Encode(s, id, v)|
  {
    hide WellFormed, Clean, Encode, ContainerGood;
    FieldsOfValue(s, id, v);
    EncodingReads(s, id, v, []);
    assert MinSizeIsLower(s, id);
  }

  lemma SlotsUnfold(s: Schema, g: Group, ids: seq<nat>, slots: seq<Slot>)
    requires SlotsWellFormed(s, ids, slots)
    ensures |ids| == |slots|
    ensures ids == [] ==> EmitAll(SlotsHeaders(s, g, ids, slots)) == [] && SlotsClean(s, g, ids, slots)
    ensures ids != [] ==>
              && ItemsWellFormed(s, ids[0], slots[0].items) && SlotsWellFormed(s, ids[1..], slots[1..])
              && SlotsHeaders(s, g, ids, slots)
                 == ItemsHeaders(s, g, ids[0], slots[0].items) + SlotsHeaders(s, g, ids[1..], slots[1..])
              && (SlotsClean(s, g, ids, slots)
                  <==> ItemsClean(s, g, ids[0], slots[0].items) && SlotsClean(s, g, ids[1..], slots[1..]))
  {
    hide ItemsWellFormed, ItemsHeaders, ItemsClean, Emit;
  }

  /** A run of required TLV parameters. */
  lemma {:induction false} RequiredRun(s: Schema, g: Group, ids: seq<nat>, slots: seq<Slot>, rest: seq<Byte>,
                                       known: int)
    requires Good(s) && Refers(s, ids) && !g.optional
    requires SlotsWellFormed(s, ids, slots) && SlotsLaw(s, g, ids, slots)
    requires forall k :: 0 <= k < |ids| ==>
               !IsTv(ids[k]) && |slots[k].items| == 1 && (g.Exclusive() ==> Selected(slots[k].items[0]))
    ensures var r := DecodeSimple(s, g, ids, EmitAll(SlotsHeaders(s, g, ids, slots)) + rest, known);
            && (SlotsClean(s, g, ids, slots) ==> r.Ok? && r.value.0 == slots && r.value.1 == rest)
            && (!SlotsClean(s, g, ids, slots) ==> r.IsFailure())
    decreases slots
  {
    hide Good, WellFormed, Clean, Selected, HeaderOf, Encode, Emit, EmitAll, DecodeOne, Law, ItemsHeaders, ItemsClean,
         ItemsWellFormed, SlotsWellFormed, SlotsHeaders, SlotsClean, HeaderGuard;
    SlotsUnfold(s, g, ids, slots);
    if ids == [] {
      assert [] + rest == rest;
    } else {
      var id, v := ids[0], slots[0].items[0];
      assert slots[0].items == [v];
      GoodIsClosed(s);
      assert ItemsLaw(s, g, id, slots[0].items);
      SingleItem(s, g, id, v);
      var tail := SlotsHeaders(s, g, ids[1..], slots[1..]);
      EmitAllConcat(ItemsHeaders(s, g, id, [v]), tail);
      var e, more := Encode(s, id, v), EmitAll(tail) + rest;
      assert EmitAll(SlotsHeaders(s, g, ids, slots)) + rest == e + more;
      OneTlv(s, id, false, v, more);
      if Clean(s, id, v) {
        GuardPasses(s, id, v, known);
        var guard := HeaderGuard(s, id, known);
        var checked := if guard > 0 then guard else known;
        RequiredRun(s, g, ids[1..], slots[1..], rest, if s[id].fixed then checked - s[id].minSize else 0);
        assert [slots[0]] + slots[1..] == slots && slots[0] == Slot([v]);
      }
    }
  }

  /** A single exclusive member that is its zero value leaves something else, or
      nothing, where it is required. */
  lemma RequiredMissing(s: Schema, g: Group, hs: seq<ParamHeader>, known: int)
    requires Good(s) && Refers(s, g.members) && |g.members| == 1 && !g.optional && !HasTv(g.members)
    requires AllAway(g, hs) && AllSizesExact(hs) && AllFit(hs)
    ensures Closed(s) && DecodeSimple(s, g, g.members, EmitAll(hs), known).IsFailure()
  {
    hide AllAway, SeenAs, Good, Emit, HeaderGuard, ReadMember, PeeksTwo;
    assert !IsTv(g.members[0]);
    GoodIsClosed(s);
    MembersInRange(s, g);
    if hs != [] {
      FirstIsUnseen(g, hs);
      SwitchPasses(g, hs[0], EmitAll(hs[1..]));
    }
  }

  /** A single optional TLV parameter, present or not. */
  lemma OptionalTlv(s: Schema, g: Group, slots: seq<Slot>, hs: seq<ParamHeader>, known: int)
    requires Good(s) && Refers(s, g.members) && |g.members| == 1 == |slots| && PeeksTwo(g)
    requires |slots[0].items| <= 1
    requires SlotsWellFormed(s, g.members, slots) && SlotsLaw(s, g, g.members, slots)
    requires AllAway(g, hs) && AllSizesExact(hs) && AllFit(hs)
    requires slots[0].items == [] ==> hs != []
    ensures var r := DecodeSimple(s, g, g.members, EmitAll(SlotsHeaders(s, g, g.members, slots)) + EmitAll(hs), known);
            && (SlotsClean(s, g, g.members, slots) ==> r.Ok? && r.value.0 == slots && r.value.1 == EmitAll(hs))
            && (!SlotsClean(s, g, g.members, slots) ==> r.IsFailure())
  {
    hide AllAway, SeenAs, Good, WellFormed, Clean, Selected, HeaderOf, Encode, Emit, ReadMember, Law, AwayFrom,
         ItemsHeaders, ItemsClean, ItemsWellFormed, SlotsHeaders, SlotsClean, SlotsWellFormed;
    var id := g.members[0];
    assert !IsTv(id);
    GoodIsClosed(s);
    if slots[0].items == [] {
      NothingAfter(s, g, g.members, slots);
      assert [] + EmitAll(hs) == EmitAll(hs);
      MembersInRange(s, g);
      FirstIsUnseen(g, hs);
      SwitchPasses(g, hs[0], EmitAll(hs[1..]));
      OneThenNone(s, g, EmitAll(hs), known);
      assert slots == [Slot([])];
    } else {
      var v := slots[0].items[0];
      assert slots[0].items == [v] && slots == [Slot([v])];
      assert ItemsLaw(s, g, id, slots[0].items);
      OnlySlotHeaders(s, g, g.members, slots, 0);
      SingleItem(s, g, id, v);
      OneTlv(s, id, true, v, EmitAll(hs));
      OneThenNone(s, g, Encode(s, id, v) + EmitAll(hs), known);
    }
  }

  lemma OneThenNone(s: Schema, g: Group, data: seq<Byte>, known: int)
    requires Closed(s) && Refers(s, g.members) && |g.members| == 1 && g.optional
    ensures var one := DecodeOne(s, g.members[0], true, data);
            && (one.Ok? ==> DecodeSimple(s, g, g.members, data, known) == Ok(([one.value.0], one.value.1, known)))
            && (one.IsFailure() ==> DecodeSimple(s, g, g.members, data, known).IsFailure())
  {
    hide DecodeOne;
    var one := DecodeOne(s, g.members[0], true, data);
    assert g.members[1..] == [];
    if one.Ok? {
      assert DecodeSimple(s, g, [], one.value.1, known) == Ok(([], one.value.1, known));
      assert [one.value.0] + [] == [one.value.0];
    }
  }

  // ---- TV parameters read without a loop ----

  /** The data still starts with a TV parameter of the group. */
  predicate LeftAt(ids: seq<nat>, data: seq<Byte>) {
    data != [] && data[0] >= 0x80 && IsTv(data[0] - 0x80) && (data[0] - 0x80) as nat in ids
  }

  /** A single optional TV parameter is passed if absent, and left in the data if present. */
  lemma OptionalTv(s: Schema, g: Group, slots: seq<Slot>, hs: seq<ParamHeader>, known: int)
    requires Good(s) && Refers(s, g.members) && |g.members| == 1 == |slots| && g.optional && HasTv(g.members)
    requires g.Simple() && |slots[0].items| <= 1
    requires SlotsWellFormed(s, g.members, slots) && SlotsLaw(s, g, g.members, slots)
    requires AllAway(g, hs) && AllSizesExact(hs) && AllFit(hs)
    requires slots[0].items == [] ==> hs != []
    ensures var r := DecodeSimple(s, g, g.members, EmitAll(SlotsHeaders(s, g, g.members, slots)) + EmitAll(hs), known);
            && (SlotsClean(s, g, g.members, slots) ==> r.Ok? && r.value.0 == slots && r.value.1 == EmitAll(hs))
            && (!SlotsClean(s, g, g.members, slots) ==> r.Ok? ==> LeftAt(g.members, r.value.1))
  {
    hide AllAway, Good, Emit, DecodeSimple, SlotsHeaders, SlotsClean, SlotsWellFormed, SlotsLaw, LeftAt;
    GoodIsClosed(s);
    if slots[0].items == [] {
      NothingAfter(s, g, g.members, slots);
      assert [] + EmitAll(hs) == EmitAll(hs) && slots == [Slot([])];
      AbsentTv(s, g, hs, known);
    } else {
      PresentTv(s, g, slots, EmitAll(hs), known);
    }
  }

  lemma AbsentTv(s: Schema, g: Group, hs: seq<ParamHeader>, known: int)
    requires Good(s) && Closed(s) && Refers(s, g.members) && |g.members| == 1 && g.optional && HasTv(g.members)
    requires AllAway(g, hs) && AllSizesExact(hs) && AllFit(hs) && hs != []
    ensures var r := DecodeSimple(s, g, g.members, EmitAll(hs), known);
            r.Ok? && r.value.0 == [Slot([])] && r.value.1 == EmitAll(hs)
  {
    hide Good, AllAway, Emit, ReadValue;
    MembersInRange(s, g);
    FirstIsUnseen(g, hs);
    SwitchPasses(g, hs[0], EmitAll(hs[1..]));
    OneThenNone(s, g, EmitAll(hs), known);
  }

  lemma PresentTv(s: Schema, g: Group, slots: seq<Slot>, rest: seq<Byte>, known: int)
    requires Good(s) && Closed(s) && Refers(s, g.members) && |g.members| == 1 == |slots| && HasTv(g.members)
    requires g.optional && g.Simple() && |slots[0].items| == 1
    requires SlotsWellFormed(s, g.members, slots) && SlotsLaw(s, g, g.members, slots)
    ensures !SlotsClean(s, g, g.members, slots)
    ensures var r := DecodeSimple(s, g, g.members, EmitAll(SlotsHeaders(s, g, g.members, slots)) + rest, known);
            r.Ok? ==> LeftAt(g.members, r.value.1)
  {
    hide Good, WellFormed, Clean, Selected, HeaderOf, Encode, Emit, ReadValue, Law, ItemsHeaders, ItemsClean,
         ItemsWellFormed, SlotsHeaders, SlotsClean, SlotsWellFormed;
    var id, v := g.members[0], slots[0].items[0];
    assert IsTv(id) && slots[0].items == [v];
    assert ItemsLaw(s, g, id, slots[0].items);
    OnlySlotHeaders(s, g, g.members, slots, 0);
    SingleItem(s, g, id, v);
    EncodingReads(s, id, v, rest);
    OneThenNone(s, g, Encode(s, id, v) + rest, known);
  }

  /** A required TV parameter is left in the data too, and what is read next finds it. */
  lemma {:induction false} RequiredTv(s: Schema, g: Group, ids: seq<nat>, slots: seq<Slot>, rest: seq<Byte>,
                                      known: int)
    requires Good(s) && Refers(s, ids) && !g.optional && g.Simple() && HasTv(ids) && Distinct(ids)
    requires SlotsWellFormed(s, ids, slots) && SlotsLaw(s, g, ids, slots)
    requires forall k :: 0 <= k < |ids| ==>
               |slots[k].items| == 1 && (g.Exclusive() ==> Selected(slots[k].items[0]))
    ensures Closed(s) && !SlotsClean(s, g, ids, slots)
    ensures var r := DecodeSimple(s, g, ids, EmitAll(SlotsHeaders(s, g, ids, slots)) + rest, known);
            r.Ok? ==> LeftAt(ids, r.value.1)
    decreases slots
  {
    hide Good, WellFormed, Clean, Selected, HeaderOf, Encode, Emit, EmitAll, DecodeOne, Law, ItemsHeaders, ItemsClean,
         ItemsWellFormed, SlotsWellFormed, SlotsHeaders, SlotsClean, HeaderGuard, LeftAt;
    GoodIsClosed(s);
    SlotsUnfold(s, g, ids, slots);
    var id, v := ids[0], slots[0].items[0];
    assert slots[0].items == [v];
    assert ItemsLaw(s, g, id, slots[0].items);
    SingleItem(s, g, id, v);
    var tail := SlotsHeaders(s, g, ids[1..], slots[1..]);
    EmitAllConcat(ItemsHeaders(s, g, id, [v]), tail);
    var e, more := Encode(s, id, v), EmitAll(tail) + rest;
    var data := EmitAll(SlotsHeaders(s, g, ids, slots)) + rest;
    assert data == e + more;
    if IsTv(id) {
      EncodingReads(s, id, v, more);
      if |ids| > 1 {
        AfterTv(s, g, ids, data, known);
      } else {
        LastTv(s, g, ids, data, known);
      }
    } else {
      OneTlv(s, id, false, v, more);
      OneFewer(ids);
      if Clean(s, id, v) {
        var guard := HeaderGuard(s, id, known);
        var checked := if guard > 0 then guard else known;
        RequiredTv(s, g, ids[1..], slots[1..], rest, if s[id].fixed then checked - s[id].minSize else 0);
        LeftAtMore(ids);
      }
    }
  }

  lemma LeftAtMore(ids: seq<nat>)
    requires ids != []
    ensures forall data :: LeftAt(ids[1..], data) ==> LeftAt(ids, data)
  {}

  lemma OneFewer(ids: seq<nat>)
    requires HasTv(ids) && Distinct(ids) && !IsTv(ids[0])
    ensures HasTv(ids[1..]) && Distinct(ids[1..])
  {
    var k :| 0 <= k < |ids| && IsTv(ids[k]);
    assert ids[1..][k - 1] == ids[k];
  }

  lemma AfterTv(s: Schema, g: Group, ids: seq<nat>, data: seq<Byte>, known: int)
    requires Good(s) && Closed(s) && Refers(s, ids) && !g.optional && |ids| > 1 && Distinct(ids) && IsTv(ids[0])
    requires data != [] && data[0] == 0x80 + ids[0]
    ensures DecodeSimple(s, g, ids, data, known).IsFailure()
  {
    hide Good, ReadValue, ReadMember, HeaderGuard;
    GoodId(s, ids[1]);
    assert DecodeOne(s, ids[1], false, data).IsFailure();
    assert forall left :: DecodeSimple(s, g, ids[1..], data, left).IsFailure();
  }

  lemma LastTv(s: Schema, g: Group, ids: seq<nat>, data: seq<Byte>, known: int)
    requires Closed(s) && Refers(s, ids) && !g.optional && |ids| == 1 && IsTv(ids[0])
    requires data != [] && data[0] == 0x80 + ids[0]
    ensures var r := DecodeSimple(s, g, ids, data, known); r.Ok? ==> LeftAt(ids, r.value.1)
  {
    hide ReadValue, ReadMember, HeaderGuard;
  }

  /** A single exclusive TV parameter that is its zero value is missed. */
  lemma MissingTv(s: Schema, g: Group, hs: seq<ParamHeader>, known: int)
    requires Good(s) && Refers(s, g.members) && |g.members| == 1 && !g.optional && HasTv(g.members)
    requires AllAway(g, hs) && AllSizesExact(hs) && AllFit(hs)
    ensures Closed(s) && DecodeSimple(s, g, g.members, EmitAll(hs), known).IsFailure()
  {
    hide AllAway, SeenAs, Good, Emit, HeaderGuard, ReadValue, PeeksTwo;
    assert IsTv(g.members[0]);
    GoodIsClosed(s);
    MembersInRange(s, g);
    if hs != [] {
      FirstIsUnseen(g, hs);
      SwitchPasses(g, hs[0], EmitAll(hs[1..]));
    }
  }

  /** Nothing read after a TV parameter that was left in the data takes it away. */
  lemma {:induction false} StaysLeft(s: Schema, gs: seq<Group>, data: seq<Byte>, known: int)
    requires Good(s) && Closed(s) && GroupsRefer(s, gs) && data != [] && data[0] > 0x80
    requires forall i :: 0 <= i < |gs| ==> !LeftAt(gs[i].members, data)
    ensures DecodeGroups(s, gs, data, known, true).IsFailure()
    decreases |gs|
  {
    hide Good, DecodeGroup, LeftAt;
    if gs != [] {
      GroupLeaves(s, gs[0], data, known);
      var r := DecodeGroup(s, gs[0], data, known);
      if r.Ok? {
        StaysLeft(s, gs[1..], data, r.value.2);
      }
    }
  }

  lemma GroupLeaves(s: Schema, g: Group, data: seq<Byte>, known: int)
    requires Good(s) && Closed(s) && Refers(s, g.members)
    requires data != [] && data[0] > 0x80 && !LeftAt(g.members, data)
    ensures var r := DecodeGroup(s, g, data, known); r.Ok? ==> r.value.1 == data
  {
    hide Good, ReadMember, DecodeSimple, SmallestMin;
    MembersInRange(s, g);
    SimpleLeaves(s, g, g.members, data, known);
  }

  lemma {:induction false} SimpleLeaves(s: Schema, g: Group, ids: seq<nat>, data: seq<Byte>, known: int)
    requires Closed(s) && Refers(s, ids) && data != [] && data[0] > 0x80 && !LeftAt(ids, data)
    requires forall k :: 0 <= k < |ids| ==> 0 < ids[k] < 0x8000
    ensures var r := DecodeSimple(s, g, ids, data, known); r.Ok? ==> r.value.1 == data
    decreases |ids|
  {
    hide ReadMember, ReadValue, HeaderGuard;
    if ids != [] {
      var one := DecodeOne(s, ids[0], g.optional, data);
      assert one.Ok? ==> one.value.1 == data;
      forall left: int
        ensures var r := DecodeSimple(s, g, ids[1..], data, left); r.Ok? ==> r.value.1 == data
      {
        SimpleLeaves(s, g, ids[1..], data, left);
      }
    }
  }
}
