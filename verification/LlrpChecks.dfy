/** The LLRP parameters one by one: each passes the checks of a good schema. */
module LlrpChecks {
  import opened Fields
  import opened Schema
  import opened Encoder
  import opened MinimumSizes
  import opened Parameters
  import opened SchemaCheck

  // ---- what is shown of every parameter ----

  /** The parameters of which some values are lost: their groups, or those of a
      parameter nested in them, include an exclusive choice or a single TV parameter. */
  predicate IsLossy(id: nat) {
    id == 240 || id == 242 || id == 243 || id == 246 || id == 254
  }

  predicate PlainGroup(g: Group) {
    !g.Exclusive() && forall k :: 0 <= k < |g.members| ==> !IsLossy(g.members[k]) && !(g.Simple() && IsTv(g.members[k]))
  }

  predicate PlainGroups(gs: seq<Group>) {
    forall i :: 0 <= i < |gs| ==> PlainGroup(gs[i])
  }

  /** How deep required parameters are nested in a parameter. */
  function Depth(id: nat): nat {
    if id == 207 then 3
    else if id == 143 || id == 144 || id == 177 || id == 183 || id == 209 || id == 242 then 2
    else if id == 137 || id == 178 || id == 186 || id == 187 || id == 211 || id == 222 || id == 237 || id == 240 then 1
    else if id == 243 || id == 244 || id == 246 || id == 328 || id == 330 || id == 331 || id == 338 || id == 344 then 1
    else 0
  }

  /** A member of a group: a parameter, nested no deeper than allowed, and one that is not
      lost unless the whole may be. */
  predicate Holds(id: nat, g: Group, m: nat) {
    && m < 1024 && IsParameter(m)
    && Depth(m) <= Depth(id) && (!g.optional ==> Depth(m) < Depth(id))
    && (IsLossy(id) || (!IsLossy(m) && !(g.Simple() && IsTv(m))))
  }

  predicate AllHold(id: nat, g: Group, ids: seq<nat>) {
    ids == [] || (Holds(id, g, ids[0]) && AllHold(id, g, ids[1..]))
  }

  predicate GroupsHold(id: nat, gs: seq<Group>) {
    gs == [] || ((IsLossy(id) || !gs[0].Exclusive()) && AllHold(id, gs[0], gs[0].members) && GroupsHold(id, gs[1..]))
  }

  function SmallestSize(ids: seq<nat>): nat {
    if ids == [] || !IsParameter(ids[0]) then 0
    else if |ids| == 1 then Definition(ids[0]).minSize
    else
      var m := SmallestSize(ids[1..]);
      if Definition(ids[0]).minSize < m then Definition(ids[0]).minSize else m
  }

  /** What required parameters add to a minimum size. */
  function RunSizes(rs: seq<Run>): nat {
    if rs == [] then 0 else (if rs[0].optional then 0 else SmallestSize(rs[0].members)) + RunSizes(rs[1..])
  }

  predicate SizeCounts(id: nat, c: Container) {
    c.minSize == HeaderSize(id) + MinSizes(c.fields) + RunSizes(Runs(c.groups))
  }

  /** The smallest size in the first run, what follows that run, and what all runs add. */
  function Least(gs: seq<Group>): nat
    requires gs != []
  {
    var m := SmallestSize(gs[0].members);
    if |gs| > 1 && SameRun(gs[0], gs[1]) then
      var n := Least(gs[1..]);
      if m < n then m else n
    else m
  }

  function AfterRun(gs: seq<Group>): (r: seq<Group>)
    requires gs != []
    ensures |r| < |gs|
  {
    if |gs| > 1 && SameRun(gs[0], gs[1]) then AfterRun(gs[1..]) else gs[1..]
  }

  function Added(gs: seq<Group>): nat
    decreases |gs|
  {
    if gs == [] then 0 else (if gs[0].optional then 0 else Least(gs)) + Added(AfterRun(gs))
  }

  predicate SizeChecks(id: nat, c: Container) {
    c.minSize == HeaderSize(id) + MinSizes(c.fields) + Added(c.groups)
  }

  /** The same without groups. */
  predicate BareSize(id: nat, c: Container) {
    c.groups == [] && c.minSize == HeaderSize(id) + MinSizes(c.fields)
  }

  predicate Named(gs: seq<Group>) {
    forall i :: 0 <= i < |gs| ==>
      gs[i].members != [] && forall k :: 0 <= k < |gs[i].members| ==> IsParameter(gs[i].members[k])
  }

  lemma {:induction false} SmallestOfBoth(a: seq<nat>, b: seq<nat>)
    requires a != [] && b != []
    requires forall k :: 0 <= k < |a| ==> IsParameter(a[k])
    requires forall k :: 0 <= k < |b| ==> IsParameter(b[k])
    ensures SmallestSize(a + b)
            == if SmallestSize(a) < SmallestSize(b) then SmallestSize(a) else SmallestSize(b)
  {
    hide IsParameter, Definition;
    assert (a + b)[1..] == a[1..] + b;
    if |a| > 1 {
      SmallestOfBoth(a[1..], b);
    }
  }

  lemma {:induction false} FirstRun(gs: seq<Group>)
    requires gs != [] && Named(gs)
    ensures Least(gs) == SmallestSize(AllMembers(gs[..RunLength(gs)])) && AfterRun(gs) == gs[RunLength(gs)..]
    ensures AllMembers(gs[..RunLength(gs)]) != []
    ensures var ids := AllMembers(gs[..RunLength(gs)]); forall k :: 0 <= k < |ids| ==> IsParameter(ids[k])
  {
    hide IsParameter, SmallestSize, SameRun;
    var n := RunLength(gs);
    assert AllMembers(gs[..n]) == gs[0].members + AllMembers(gs[..n][1..]);
    if |gs| > 1 && SameRun(gs[0], gs[1]) {
      FirstRun(gs[1..]);
      assert gs[..n][1..] == gs[1..][..n - 1];
      SmallestOfBoth(gs[0].members, AllMembers(gs[..n][1..]));
    } else {
      assert gs[..n][1..] == [] && gs[0].members + [] == gs[0].members;
    }
  }

  lemma {:induction false} AddedIsRunSizes(gs: seq<Group>)
    requires Named(gs)
    ensures Added(gs) == RunSizes(Runs(gs))
    decreases |gs|
  {
    hide IsParameter, SmallestSize, AllMembers, RunLength, Least, AfterRun;
    if gs != [] {
      FirstRun(gs);
      assert Runs(gs)[1..] == Runs(gs[RunLength(gs)..]);
      AddedIsRunSizes(AfterRun(gs));
    }
  }

  lemma {:induction false} AllHoldEach(id: nat, g: Group, ids: seq<nat>)
    requires forall k :: 0 <= k < |ids| ==> Holds(id, g, ids[k])
    ensures AllHold(id, g, ids)
  {
    hide Holds;
    if ids != [] {
      assert forall k :: 0 <= k < |ids[1..]| ==> ids[1..][k] == ids[k + 1];
      AllHoldEach(id, g, ids[1..]);
    }
  }

  lemma {:induction false} HoldsEach(id: nat, g: Group, ids: seq<nat>, k: nat)
    requires AllHold(id, g, ids) && k < |ids|
    ensures Holds(id, g, ids[k])
  {
    hide Holds;
    if k > 0 {
      HoldsEach(id, g, ids[1..], k - 1);
    }
  }

  lemma {:induction false} GroupHolds(id: nat, gs: seq<Group>, i: nat)
    requires GroupsHold(id, gs) && i < |gs|
    ensures AllHold(id, gs[i], gs[i].members) && (IsLossy(id) || !gs[i].Exclusive())
  {
    hide AllHold;
    if i > 0 {
      GroupHolds(id, gs[1..], i - 1);
    }
  }

  lemma MemberHolds(id: nat, gs: seq<Group>, i: nat, k: nat)
    requires GroupsHold(id, gs) && i < |gs| && k < |gs[i].members|
    ensures Holds(id, gs[i], gs[i].members[k])
  {
    hide GroupsHold, Holds, AllHold;
    GroupHolds(id, gs, i);
    HoldsEach(id, gs[i], gs[i].members, k);
  }

  lemma DistinctParts(a: seq<nat>, b: seq<nat>)
    requires Distinct(a) && Distinct(b) && forall j :: 0 <= j < |b| ==> b[j] !in a
    ensures Distinct(a + b)
  {}

  lemma Prepended(id: nat, g: Group, rest: seq<Group>)
    requires GroupGood(g, rest) && AllHold(id, g, g.members) && (IsLossy(id) || !g.Exclusive())
    requires GroupsGood(rest) && GroupsHold(id, rest)
    ensures GroupsGood([g] + rest) && GroupsHold(id, [g] + rest)
  {
    hide GroupGood, AllHold, IsLossy;
    assert ([g] + rest)[1..] == rest;
  }

  lemma NoMore(id: nat)
    ensures GroupsGood([]) && GroupsHold(id, [])
  {}

  lemma CustomsLast(id: nat)
    ensures GroupsGood([AnyNumber([1023])]) && GroupsHold(id, [AnyNumber([1023])])
  {
    NoMore(id);
    assert Holds(id, AnyNumber([1023]), 1023);
    Prepended(id, AnyNumber([1023]), []);
  }

  /** Many optional parameters, TLV ones among them, and then vendor extensions. */
  lemma LoopThenCustom(id: nat, ids: seq<nat>)
    requires |ids| > 1 && Distinct(ids) && HasTlv(ids) && 1023 !in ids
    requires forall k :: 0 <= k < |ids| ==> Holds(id, Optional(ids), ids[k]) && 0 < ids[k] <= 1023
    ensures var gs := [Optional(ids), AnyNumber([1023])]; GroupsGood(gs) && GroupsHold(id, gs)
  {
    hide Holds, Distinct, HasTlv, GroupsGood, GroupsHold, GroupGood, AllHold;
    MixedThenCustom(ids);
    AllHoldEach(id, Optional(ids), ids);
    CustomsLast(id);
    Prepended(id, Optional(ids), [AnyNumber([1023])]);
    assert [Optional(ids)] + [AnyNumber([1023])] == [Optional(ids), AnyNumber([1023])];
  }

  lemma LoopOnly(id: nat, ids: seq<nat>)
    requires |ids| > 1 && Distinct(ids) && HasTlv(ids)
    requires forall k :: 0 <= k < |ids| ==> Holds(id, Optional(ids), ids[k]) && 0 < ids[k] <= 1023
    ensures GroupsGood([Optional(ids)]) && GroupsHold(id, [Optional(ids)])
  {
    hide Holds, Distinct, HasTlv, GroupsGood, GroupsHold, GroupGood, AllHold;
    MixedThenCustom(ids);
    AllHoldEach(id, Optional(ids), ids);
    NoMore(id);
    Prepended(id, Optional(ids), []);
    assert [Optional(ids)] + [] == [Optional(ids)];
  }

  lemma TvLoopThenCustom(id: nat, ids: seq<nat>)
    requires |ids| > 1 && Distinct(ids)
    requires forall k :: 0 <= k < |ids| ==> Holds(id, Optional(ids), ids[k]) && IsTv(ids[k]) && ids[k] != 3
    ensures var gs := [Optional(ids), AnyNumber([1023])]; GroupsGood(gs) && GroupsHold(id, gs)
  {
    hide Holds, Distinct, GroupsGood, GroupsHold, GroupGood, AllHold, IsTv;
    TvThenCustom(ids);
    AllHoldEach(id, Optional(ids), ids);
    CustomsLast(id);
    Prepended(id, Optional(ids), [AnyNumber([1023])]);
    assert [Optional(ids)] + [AnyNumber([1023])] == [Optional(ids), AnyNumber([1023])];
  }

  // ---- parameter by parameter, which is calculation ----

  lemma SightingFields()
    ensures FieldsCheck(1, Sighting(1)) && FieldsCheck(2, Sighting(2)) && FieldsCheck(3, Sighting(3))
            && FieldsCheck(4, Sighting(4)) && FieldsCheck(5, Sighting(5)) && FieldsCheck(6, Sighting(6))
            && FieldsCheck(7, Sighting(7)) && FieldsCheck(8, Sighting(8))
  {}

  lemma SightingSizes()
    ensures BareSize(1, Sighting(1)) && BareSize(2, Sighting(2)) && BareSize(3, Sighting(3))
            && BareSize(4, Sighting(4)) && BareSize(5, Sighting(5)) && BareSize(6, Sighting(6))
            && BareSize(7, Sighting(7)) && BareSize(8, Sighting(8))
  {}

  lemma ReferenceFields()
    ensures FieldsCheck(9, Reference(9)) && FieldsCheck(10, Reference(10)) && FieldsCheck(14, Reference(14))
            && FieldsCheck(15, Reference(15)) && FieldsCheck(16, Reference(16)) && FieldsCheck(17, Reference(17))
  {}

  lemma ReferenceSizes()
    ensures BareSize(9, Reference(9)) && BareSize(10, Reference(10)) && BareSize(14, Reference(14))
            && BareSize(15, Reference(15)) && BareSize(16, Reference(16)) && BareSize(17, Reference(17))
  {}

  lemma AirDatumFields()
    ensures FieldsCheck(11, AirDatum(11)) && FieldsCheck(12, AirDatum(12)) && FieldsCheck(13, AirDatum(13))
            && FieldsCheck(18, AirDatum(18)) && FieldsCheck(19, AirDatum(19)) && FieldsCheck(20, AirDatum(20))
  {}

  lemma AirDatumSizes()
    ensures BareSize(11, AirDatum(11)) && BareSize(12, AirDatum(12)) && BareSize(13, AirDatum(13))
            && BareSize(18, AirDatum(18)) && BareSize(19, AirDatum(19)) && BareSize(20, AirDatum(20))
  {}

  lemma TimestampFields()
    ensures FieldsCheck(128, Timestamp(128)) && FieldsCheck(129, Timestamp(129))
  {}

  lemma TimestampSizes()
    ensures BareSize(128, Timestamp(128)) && BareSize(129, Timestamp(129))
  {}

  lemma GeneralDeviceCapabilitiesFields()
    ensures FieldsCheck(137, DeviceCapability(137))
  {
    hide Flags, PartsOk;
    FlagsOk(0, 2);
  }

  lemma LLRPCapabilitiesFields()
    ensures FieldsCheck(142, DeviceCapability(142))
  {
    hide Flags, PartsOk;
    FlagsOk(0, 5);
  }

  lemma DeviceCapabilityFields()
    ensures FieldsCheck(139, DeviceCapability(139)) && FieldsCheck(140, DeviceCapability(140))
            && FieldsCheck(141, DeviceCapability(141)) && FieldsCheck(149, DeviceCapability(149))
            && FieldsCheck(363, DeviceCapability(363))
  {}

  lemma DeviceCapabilitySizes()
    ensures BareSize(139, DeviceCapability(139)) && BareSize(140, DeviceCapability(140))
            && BareSize(141, DeviceCapability(141)) && BareSize(142, DeviceCapability(142))
            && BareSize(149, DeviceCapability(149)) && BareSize(363, DeviceCapability(363))
  {}

  lemma TableEntrySizes()
    ensures SmallestSize([139]) == 8 && SmallestSize([140]) == 8 && SmallestSize([141]) == 8
  {}

  lemma GeneralDeviceCapabilitiesSizes()
    ensures SizeChecks(137, DeviceCapability(137))
  {
    hide SmallestSize;
    TableEntrySizes();
  }

  lemma DeviceCapabilityGroups()
    ensures GroupsCheck(DeviceCapability(137).groups)
  {}

  lemma DeviceCapabilityMembers()
    ensures GroupsHold(137, DeviceCapability(137).groups)
  {}

  lemma RegulatoryFields()
    ensures FieldsCheck(143, Regulatory(143)) && FieldsCheck(144, Regulatory(144))
            && FieldsCheck(145, Regulatory(145)) && FieldsCheck(146, Regulatory(146))
            && FieldsCheck(147, Regulatory(147)) && FieldsCheck(148, Regulatory(148))
            && FieldsCheck(365, Regulatory(365))
  {
    hide Flags, PartsOk;
    FlagsOk(0, 1);
  }

  lemma RegulatorySizes()
    ensures BareSize(145, Regulatory(145)) && BareSize(147, Regulatory(147)) && BareSize(148, Regulatory(148))
            && BareSize(365, Regulatory(365))
  {}

  lemma UHFBandCapabilitiesSizes()
    ensures SizeChecks(144, Regulatory(144))
  {}

  lemma RegulatoryGroupSizes()
    ensures SizeChecks(143, Regulatory(143)) && SizeChecks(146, Regulatory(146))
  {}

  lemma RegulatoryGroups()
    ensures GroupsCheck(Regulatory(143).groups) && GroupsCheck(Regulatory(144).groups)
            && GroupsCheck(Regulatory(146).groups)
  {}

  lemma UHFBandCapabilitiesMembers()
    ensures GroupsHold(144, Regulatory(144).groups)
  {}

  lemma FrequencyInformationMembers()
    ensures GroupsHold(146, Regulatory(146).groups)
  {}

  lemma RegulatoryCapabilitiesMembers()
    ensures GroupsHold(143, Regulatory(143).groups)
  {}

  lemma ROSpecPartFields()
    ensures FieldsCheck(177, ROSpecPart(177)) && FieldsCheck(178, ROSpecPart(178))
            && FieldsCheck(179, ROSpecPart(179)) && FieldsCheck(180, ROSpecPart(180))
            && FieldsCheck(181, ROSpecPart(181)) && FieldsCheck(182, ROSpecPart(182))
            && FieldsCheck(355, ROSpecPart(355))
  {
    hide Flags, PartsOk;
    FlagsOk(0, 1);
  }

  lemma ROSpecPartSizes()
    ensures BareSize(181, ROSpecPart(181)) && BareSize(355, ROSpecPart(355))
  {}

  lemma ROSpecSizes()
    ensures SizeChecks(177, ROSpecPart(177))
  {}

  lemma ROBoundarySpecSizes()
    ensures SizeChecks(178, ROSpecPart(178))
  {}

  lemma ROSpecPartGroupSizes()
    ensures SizeChecks(179, ROSpecPart(179)) && SizeChecks(180, ROSpecPart(180)) && SizeChecks(182, ROSpecPart(182))
  {}

  lemma ROSpecGroups()
    ensures GroupsCheck(ROSpecPart(177).groups)
  {}

  lemma ROSpecPartGroups()
    ensures GroupsCheck(ROSpecPart(178).groups) && GroupsCheck(ROSpecPart(179).groups)
            && GroupsCheck(ROSpecPart(180).groups) && GroupsCheck(ROSpecPart(182).groups)
  {}

  lemma ROSpecMembers()
    ensures GroupsHold(177, ROSpecPart(177).groups)
  {}

  lemma ROBoundarySpecMembers()
    ensures GroupsHold(178, ROSpecPart(178).groups)
  {}

  lemma ROSpecPartMembers()
    ensures GroupsHold(179, ROSpecPart(179).groups) && GroupsHold(180, ROSpecPart(180).groups)
            && GroupsHold(182, ROSpecPart(182).groups)
  {}

  lemma TagObservationTriggerFields()
    ensures FieldsCheck(185, AISpecPart(185))
  {}

  lemma AISpecPartFields()
    ensures FieldsCheck(183, AISpecPart(183)) && FieldsCheck(184, AISpecPart(184))
            && FieldsCheck(186, AISpecPart(186)) && FieldsCheck(187, AISpecPart(187))
            && FieldsCheck(188, AISpecPart(188))
  {}

  lemma AISpecPartSizes()
    ensures BareSize(185, AISpecPart(185)) && BareSize(188, AISpecPart(188))
  {}

  lemma AISpecSizes()
    ensures SizeChecks(183, AISpecPart(183))
  {}

  lemma AISpecPartGroupSizes()
    ensures SizeChecks(184, AISpecPart(184)) && SizeChecks(186, AISpecPart(186)) && SizeChecks(187, AISpecPart(187))
  {}

  lemma AISpecPartGroups()
    ensures GroupsCheck(AISpecPart(183).groups) && GroupsCheck(AISpecPart(184).groups)
            && GroupsCheck(AISpecPart(186).groups) && GroupsCheck(AISpecPart(187).groups)
  {}

  lemma AISpecStopTriggerMembers()
    ensures GroupsHold(184, AISpecPart(184).groups)
  {}

  lemma RFSurveySpecMembers()
    ensures GroupsHold(187, AISpecPart(187).groups)
  {}

  lemma AISpecMembers()
    ensures GroupsHold(183, AISpecPart(183).groups)
  {}

  lemma InventoryParameterSpecMembers()
    ensures GroupsHold(186, AISpecPart(186).groups)
  {}

  lemma AccessFields()
    ensures FieldsCheck(207, Access(207)) && FieldsCheck(208, Access(208)) && FieldsCheck(209, Access(209))
            && FieldsCheck(210, Access(210)) && FieldsCheck(211, Access(211))
  {
    hide Flags, PartsOk;
    FlagsOk(0, 1);
  }

  lemma AccessSizes()
    ensures BareSize(208, Access(208)) && BareSize(210, Access(210))
  {}

  lemma AccessCommandSizes()
    ensures SizeChecks(209, Access(209))
  {}

  lemma AccessSpecSizes()
    ensures SizeChecks(207, Access(207))
  {}

  lemma ClientRequestResponseSizes()
    ensures SizeChecks(211, Access(211))
  {}

  lemma AccessGroups()
    ensures GroupsCheck(Access(207).groups)
  {}

  lemma AccessMembers()
    ensures GroupsHold(207, Access(207).groups)
  {}

  predicate AccessCommandType(m: nat) {
    m == 210 || 341 <= m <= 344 || 346 <= m <= 347 || 357 <= m <= 359
  }

  lemma AccessCommandTypes()
    ensures var ids: seq<nat> := OP_SPECS;
            && |ids| > 1 && Distinct(ids) && HasTlv(ids) && 1023 !in ids
            && forall k :: 0 <= k < |ids| ==> AccessCommandType(ids[k])
  {
    var ids: seq<nat> := OP_SPECS;
    assert !IsTv(ids[0]);
  }

  lemma AccessCommandHolds(m: nat)
    requires AccessCommandType(m)
    ensures Holds(209, Optional(OP_SPECS), m) && 0 < m <= 1023
  {}

  lemma AccessCommandFirst()
    ensures GroupGood(Required([338]), [Optional(OP_SPECS), AnyNumber([1023])])
  {}

  lemma AccessCommandFirstHolds()
    ensures AllHold(209, Required([338]), [338])
  {}

  lemma AccessCommandGroups()
    ensures GroupsGood(Access(209).groups) && GroupsHold(209, Access(209).groups)
  {
    hide GroupGood, GroupsGood, GroupsHold, AllHold, Holds, Distinct, HasTlv, AccessCommandType, Open;
    AccessCommandTypes();
    forall k | 0 <= k < |OP_SPECS|
      ensures Holds(209, Optional(OP_SPECS), OP_SPECS[k]) && 0 < OP_SPECS[k] <= 1023
    {
      AccessCommandHolds(OP_SPECS[k]);
    }
    LoopThenCustom(209, OP_SPECS);
    AccessCommandFirst();
    AccessCommandFirstHolds();
    Prepended(209, Required([338]), [Optional(OP_SPECS), AnyNumber([1023])]);
    assert [Required([338])] + [Optional(OP_SPECS), AnyNumber([1023])] == Access(209).groups;
  }

  predicate ClientRequestResponseType(m: nat) {
    m == 210 || 341 <= m <= 344 || 346 <= m <= 347 || 357 <= m <= 359 || m == 1023
  }

  lemma ClientRequestResponseTypes()
    ensures var ids: seq<nat> := OP_SPECS_AND_CUSTOM;
            && |ids| > 1 && Distinct(ids) && HasTlv(ids)
            && forall k :: 0 <= k < |ids| ==> ClientRequestResponseType(ids[k])
  {
    var ids: seq<nat> := OP_SPECS_AND_CUSTOM;
    assert !IsTv(ids[0]);
  }

  lemma ClientRequestResponseHolds(m: nat)
    requires ClientRequestResponseType(m)
    ensures Holds(211, Optional(OP_SPECS_AND_CUSTOM), m) && 0 < m <= 1023
  {}

  lemma ClientRequestResponseFirst()
    ensures GroupGood(Required([241]), [Optional(OP_SPECS_AND_CUSTOM)])
  {}

  lemma ClientRequestResponseFirstHolds()
    ensures AllHold(211, Required([241]), [241])
  {}

  lemma ClientRequestResponseGroups()
    ensures GroupsGood(Access(211).groups) && GroupsHold(211, Access(211).groups)
  {
    hide GroupGood, GroupsGood, GroupsHold, AllHold, Holds, Distinct, HasTlv, ClientRequestResponseType, Open;
    ClientRequestResponseTypes();
    forall k | 0 <= k < |OP_SPECS_AND_CUSTOM|
      ensures Holds(211, Optional(OP_SPECS_AND_CUSTOM), OP_SPECS_AND_CUSTOM[k]) && 0 < OP_SPECS_AND_CUSTOM[k] <= 1023
    {
      ClientRequestResponseHolds(OP_SPECS_AND_CUSTOM[k]);
    }
    LoopOnly(211, OP_SPECS_AND_CUSTOM);
    ClientRequestResponseFirst();
    ClientRequestResponseFirstHolds();
    Prepended(211, Required([241]), [Optional(OP_SPECS_AND_CUSTOM)]);
    assert [Required([241])] + [Optional(OP_SPECS_AND_CUSTOM)] == Access(211).groups;
  }

  lemma ReaderSettingFields()
    ensures FieldsCheck(217, ReaderSetting(217)) && FieldsCheck(218, ReaderSetting(218))
            && FieldsCheck(219, ReaderSetting(219)) && FieldsCheck(220, ReaderSetting(220))
            && FieldsCheck(225, ReaderSetting(225)) && FieldsCheck(226, ReaderSetting(226))
  {
    hide Flags, PartsOk;
    FlagsOk(0, 1);
  }

  lemma ReaderSettingSizes()
    ensures BareSize(217, ReaderSetting(217)) && BareSize(218, ReaderSetting(218))
            && BareSize(219, ReaderSetting(219)) && BareSize(220, ReaderSetting(220))
            && BareSize(225, ReaderSetting(225)) && BareSize(226, ReaderSetting(226))
  {}

  lemma AntennaSettingFields()
    ensures FieldsCheck(221, AntennaSetting(221)) && FieldsCheck(222, AntennaSetting(222))
            && FieldsCheck(223, AntennaSetting(223)) && FieldsCheck(224, AntennaSetting(224))
  {
    hide Flags, PartsOk;
    FlagsOk(0, 1);
  }

  lemma AntennaSettingSizes()
    ensures BareSize(221, AntennaSetting(221)) && BareSize(223, AntennaSetting(223))
            && BareSize(224, AntennaSetting(224))
  {}

  lemma AntennaSettingGroupSizes()
    ensures SizeChecks(222, AntennaSetting(222))
  {}

  lemma AntennaSettingGroups()
    ensures GroupsCheck(AntennaSetting(222).groups)
  {}

  lemma AntennaSettingMembers()
    ensures GroupsHold(222, AntennaSetting(222).groups)
  {}

  lemma ReportSpecFields()
    ensures FieldsCheck(237, ReportSpec(237)) && FieldsCheck(238, ReportSpec(238))
            && FieldsCheck(239, ReportSpec(239))
  {
    hide Flags, PartsOk;
    FlagsOk(0, 2);
    FlagsOk(0, 8);
  }

  lemma ReportSpecSizes()
    ensures BareSize(239, ReportSpec(239))
  {}

  lemma ReportSpecGroupSizes()
    ensures SizeChecks(237, ReportSpec(237)) && SizeChecks(238, ReportSpec(238))
  {}

  lemma ReportSpecGroups()
    ensures GroupsCheck(ReportSpec(237).groups) && GroupsCheck(ReportSpec(238).groups)
  {}

  lemma ReportSpecMembers()
    ensures GroupsHold(237, ReportSpec(237).groups) && GroupsHold(238, ReportSpec(238).groups)
  {}

  lemma ReportFields()
    ensures FieldsCheck(240, Report(240)) && FieldsCheck(241, Report(241)) && FieldsCheck(242, Report(242))
            && FieldsCheck(243, Report(243))
  {}

  lemma ReportSizes()
    ensures BareSize(241, Report(241))
  {}

  lemma FrequencyRSSILevelEntrySizes()
    ensures SizeChecks(243, Report(243))
  {}

  lemma ReportGroupSizes()
    ensures SizeChecks(240, Report(240)) && SizeChecks(242, Report(242))
  {}

  lemma ReportGroups()
    ensures GroupsCheck(Report(242).groups) && GroupsCheck(Report(243).groups)
  {}

  lemma RFSurveyReportDataMembers()
    ensures GroupsHold(242, Report(242).groups)
  {}

  lemma FrequencyRSSILevelEntryMembers()
    ensures GroupsHold(243, Report(243).groups)
  {}

  lemma TagReportDataDistinct()
    ensures Distinct(TAG_REPORT_PARTS)
  {
    var a: seq<nat> := [9, 14, 10, 1, 6, 7, 2, 3, 4, 5, 8, 12, 19, 20, 11, 16];
    var b: seq<nat> := [349, 350, 351, 352, 353, 354, 360, 361, 362, 15];
    TagReportDataHalves(a, b);
    DistinctParts(a, b);
    hide Distinct;
    assert TAG_REPORT_PARTS == a + b;
  }

  lemma TagReportDataHalves(a: seq<nat>, b: seq<nat>)
    requires a == [9, 14, 10, 1, 6, 7, 2, 3, 4, 5, 8, 12, 19, 20, 11, 16]
    requires b == [349, 350, 351, 352, 353, 354, 360, 361, 362, 15]
    ensures Distinct(a) && Distinct(b) && forall j :: 0 <= j < |b| ==> b[j] !in a
  {}

  predicate TagReportDataType(m: nat) {
    1 <= m <= 12 || 14 <= m <= 16 || 19 <= m <= 20 || 349 <= m <= 354 || 360 <= m <= 362
  }

  lemma TagReportDataTypes()
    ensures var ids: seq<nat> := TAG_REPORT_PARTS;
            && |ids| > 1 && Distinct(ids) && HasTlv(ids) && 1023 !in ids
            && forall k :: 0 <= k < |ids| ==> TagReportDataType(ids[k])
  {
    hide Distinct;
    TagReportDataDistinct();
    var ids: seq<nat> := TAG_REPORT_PARTS;
    assert !IsTv(ids[16]);
  }

  lemma TagReportDataHolds(m: nat)
    requires TagReportDataType(m)
    ensures Holds(240, Optional(TAG_REPORT_PARTS), m) && 0 < m <= 1023
  {}

  lemma TagReportDataChoice()
    ensures GroupGood(OneOf("epc-data", [241, 13]), [Optional(TAG_REPORT_PARTS), AnyNumber([1023])])
  {
    var ids := OneOf("epc-data", [241, 13]).members;
    assert !IsTv(ids[0]) && IsTv(ids[1]) && HasTlv(ids) && HasTv(ids);
    hide HasTv, HasTlv;
  }

  lemma TagReportDataFirstHolds()
    ensures AllHold(240, OneOf("epc-data", [241, 13]), [241, 13])
  {}

  lemma TagReportDataGroups()
    ensures GroupsGood(Report(240).groups) && GroupsHold(240, Report(240).groups)
  {
    hide GroupGood, GroupsGood, GroupsHold, AllHold, Holds, Distinct, HasTlv, TagReportDataType, Open;
    TagReportDataTypes();
    forall k | 0 <= k < |TAG_REPORT_PARTS|
      ensures Holds(240, Optional(TAG_REPORT_PARTS), TAG_REPORT_PARTS[k]) && 0 < TAG_REPORT_PARTS[k] <= 1023
    {
      TagReportDataHolds(TAG_REPORT_PARTS[k]);
    }
    LoopThenCustom(240, TAG_REPORT_PARTS);
    TagReportDataChoice();
    TagReportDataFirstHolds();
    Prepended(240, OneOf("epc-data", [241, 13]), [Optional(TAG_REPORT_PARTS), AnyNumber([1023])]);
    assert [OneOf("epc-data", [241, 13])] + [Optional(TAG_REPORT_PARTS), AnyNumber([1023])] == Report(240).groups;
  }

  lemma NotificationFields()
    ensures FieldsCheck(244, Notification(244)) && FieldsCheck(245, Notification(245))
            && FieldsCheck(246, Notification(246))
  {
    hide Flags, PartsOk;
    FlagsOk(0, 1);
  }

  lemma NotificationSizes()
    ensures BareSize(245, Notification(245))
  {}

  lemma NotificationGroupSizes()
    ensures SizeChecks(244, Notification(244)) && SizeChecks(246, Notification(246))
  {}

  lemma NotificationGroups()
    ensures GroupsCheck(Notification(244).groups)
  {}

  lemma NotificationMembers()
    ensures GroupsHold(244, Notification(244).groups)
  {}

  predicate ReaderEventNotificationDataType(m: nat) {
    247 <= m <= 257 || m == 356
  }

  lemma ReaderEventNotificationDataTypes()
    ensures var ids: seq<nat> := READER_EVENTS;
            && |ids| > 1 && Distinct(ids) && HasTlv(ids) && 1023 !in ids
            && forall k :: 0 <= k < |ids| ==> ReaderEventNotificationDataType(ids[k])
  {
    var ids: seq<nat> := READER_EVENTS;
    assert !IsTv(ids[0]);
  }

  lemma ReaderEventNotificationDataHolds(m: nat)
    requires ReaderEventNotificationDataType(m)
    ensures Holds(246, Optional(READER_EVENTS), m) && 0 < m <= 1023
  {}

  lemma ReaderEventNotificationDataFirst()
    ensures GroupGood(OneOf("timestamp", [128, 129]), [Optional(READER_EVENTS), AnyNumber([1023])])
  {}

  lemma ReaderEventNotificationDataFirstHolds()
    ensures AllHold(246, OneOf("timestamp", [128, 129]), [128, 129])
  {}

  lemma ReaderEventNotificationDataGroups()
    ensures GroupsGood(Notification(246).groups) && GroupsHold(246, Notification(246).groups)
  {
    hide GroupGood, GroupsGood, GroupsHold, AllHold, Holds, Distinct, HasTlv, ReaderEventNotificationDataType, Open;
    ReaderEventNotificationDataTypes();
    forall k | 0 <= k < |READER_EVENTS|
      ensures Holds(246, Optional(READER_EVENTS), READER_EVENTS[k]) && 0 < READER_EVENTS[k] <= 1023
    {
      ReaderEventNotificationDataHolds(READER_EVENTS[k]);
    }
    LoopThenCustom(246, READER_EVENTS);
    ReaderEventNotificationDataFirst();
    ReaderEventNotificationDataFirstHolds();
    Prepended(246, OneOf("timestamp", [128, 129]), [Optional(READER_EVENTS), AnyNumber([1023])]);
    assert [OneOf("timestamp", [128, 129])] + [Optional(READER_EVENTS), AnyNumber([1023])] == Notification(246).groups;
  }

  lemma DeviceEventFields()
    ensures FieldsCheck(247, DeviceEvent(247)) && FieldsCheck(248, DeviceEvent(248))
            && FieldsCheck(250, DeviceEvent(250)) && FieldsCheck(251, DeviceEvent(251))
            && FieldsCheck(252, DeviceEvent(252)) && FieldsCheck(255, DeviceEvent(255))
            && FieldsCheck(256, DeviceEvent(256)) && FieldsCheck(257, DeviceEvent(257))
  {
    hide Flags, PartsOk;
    FlagsOk(0, 1);
  }

  lemma DeviceEventSizes()
    ensures BareSize(247, DeviceEvent(247)) && BareSize(248, DeviceEvent(248)) && BareSize(250, DeviceEvent(250))
            && BareSize(251, DeviceEvent(251)) && BareSize(255, DeviceEvent(255)) && BareSize(256, DeviceEvent(256))
            && BareSize(257, DeviceEvent(257))
  {}

  lemma DeviceEventGroupSizes()
    ensures SizeChecks(252, DeviceEvent(252))
  {}

  predicate ReaderExceptionEventType(m: nat) {
    m == 1 || 9 <= m <= 10 || m == 14 || 16 <= m <= 17
  }

  lemma ReaderExceptionEventTypes()
    ensures var ids: seq<nat> := [9, 14, 10, 1, 16, 17];
            && |ids| > 1 && Distinct(ids)
            && forall k :: 0 <= k < |ids| ==> ReaderExceptionEventType(ids[k])
  {}

  lemma ReaderExceptionEventHolds(m: nat)
    requires ReaderExceptionEventType(m)
    ensures Holds(252, Optional([9, 14, 10, 1, 16, 17]), m) && IsTv(m) && m != 3
  {}

  lemma ReaderExceptionEventGroups()
    ensures GroupsGood(DeviceEvent(252).groups) && GroupsHold(252, DeviceEvent(252).groups)
  {
    hide GroupGood, GroupsGood, GroupsHold, AllHold, Holds, Distinct, HasTlv, ReaderExceptionEventType, Open;
    ReaderExceptionEventTypes();
    forall k | 0 <= k < |[9, 14, 10, 1, 16, 17]|
      ensures Holds(252, Optional([9, 14, 10, 1, 16, 17]), [9, 14, 10, 1, 16, 17][k])
      ensures IsTv([9, 14, 10, 1, 16, 17][k]) && [9, 14, 10, 1, 16, 17][k] != 3
    {
      ReaderExceptionEventHolds([9, 14, 10, 1, 16, 17][k]);
    }
    TvLoopThenCustom(252, [9, 14, 10, 1, 16, 17]);
  }

  lemma SpecEventFields()
    ensures FieldsCheck(249, SpecEvent(249)) && FieldsCheck(253, SpecEvent(253))
            && FieldsCheck(254, SpecEvent(254)) && FieldsCheck(356, SpecEvent(356))
  {}

  lemma SpecEventSizes()
    ensures BareSize(249, SpecEvent(249)) && BareSize(253, SpecEvent(253)) && BareSize(356, SpecEvent(356))
  {}

  lemma SpecEventGroupSizes()
    ensures SizeChecks(254, SpecEvent(254))
  {}

  lemma SpecEventGroups()
    ensures GroupsCheck(SpecEvent(254).groups)
  {}

  lemma SpecEventMembers()
    ensures GroupsHold(254, SpecEvent(254).groups)
  {}

  lemma StatusFields()
    ensures FieldsCheck(287, Status(287)) && FieldsCheck(288, Status(288)) && FieldsCheck(289, Status(289))
            && FieldsCheck(1023, Status(1023))
  {}

  lemma StatusSizes()
    ensures BareSize(288, Status(288)) && BareSize(1023, Status(1023))
  {}

  lemma StatusGroupSizes()
    ensures SizeChecks(287, Status(287)) && SizeChecks(289, Status(289))
  {}

  lemma StatusGroups()
    ensures GroupsCheck(Status(287).groups) && GroupsCheck(Status(289).groups)
  {}

  lemma StatusMembers()
    ensures GroupsHold(287, Status(287).groups) && GroupsHold(289, Status(289).groups)
  {}

  lemma C1G2LLRPCapabilitiesFields()
    ensures FieldsCheck(327, Gen2Capability(327))
  {
    hide Flags, PartsOk;
    FlagsOk(0, 6);
  }

  lemma RFModeTableFields()
    ensures FieldsCheck(328, Gen2Capability(328))
  {}

  lemma RFModeTableEntryFields()
    ensures FieldsCheck(329, Gen2Capability(329))
  {
    hide Flags, PartsOk;
    FlagsOk(0, 2);
  }

  lemma Gen2CapabilitySizes()
    ensures BareSize(327, Gen2Capability(327)) && BareSize(329, Gen2Capability(329))
  {}

  lemma Gen2CapabilityGroupSizes()
    ensures SizeChecks(328, Gen2Capability(328))
  {}

  lemma Gen2CapabilityGroups()
    ensures GroupsCheck(Gen2Capability(328).groups)
  {}

  lemma Gen2CapabilityMembers()
    ensures GroupsHold(328, Gen2Capability(328).groups)
  {}

  lemma C1G2TagInventoryMaskFields()
    ensures FieldsCheck(332, Gen2Inventory(332))
  {}

  lemma C1G2SingulationControlFields()
    ensures FieldsCheck(336, Gen2Inventory(336))
  {}

  lemma Gen2InventoryFields()
    ensures FieldsCheck(330, Gen2Inventory(330)) && FieldsCheck(331, Gen2Inventory(331))
            && FieldsCheck(333, Gen2Inventory(333)) && FieldsCheck(334, Gen2Inventory(334))
            && FieldsCheck(335, Gen2Inventory(335)) && FieldsCheck(337, Gen2Inventory(337))
  {
    hide Flags;
    FlagsOk(0, 1);
    FlagsOk(0, 2);
  }

  lemma Gen2InventorySizes()
    ensures BareSize(332, Gen2Inventory(332)) && BareSize(333, Gen2Inventory(333))
            && BareSize(334, Gen2Inventory(334)) && BareSize(335, Gen2Inventory(335))
            && BareSize(337, Gen2Inventory(337))
  {}

  lemma C1G2SingulationControlSizes()
    ensures SizeChecks(336, Gen2Inventory(336))
  {
    hide Least, SmallestSize;
  }

  lemma Gen2InventoryGroupSizes()
    ensures SizeChecks(330, Gen2Inventory(330)) && SizeChecks(331, Gen2Inventory(331))
  {}

  lemma Gen2InventoryGroups()
    ensures GroupsCheck(Gen2Inventory(330).groups) && GroupsCheck(Gen2Inventory(331).groups)
            && GroupsCheck(Gen2Inventory(336).groups)
  {}

  lemma C1G2InventoryCommandMembers()
    ensures GroupsHold(330, Gen2Inventory(330).groups)
  {}

  lemma C1G2FilterMembers()
    ensures GroupsHold(331, Gen2Inventory(331).groups)
  {}

  lemma C1G2SingulationControlMembers()
    ensures GroupsHold(336, Gen2Inventory(336).groups)
  {}

  lemma Gen2TargetFields()
    ensures FieldsCheck(338, Gen2Target(338)) && FieldsCheck(339, Gen2Target(339))
            && FieldsCheck(345, Gen2Target(345)) && FieldsCheck(348, Gen2Target(348))
  {
    hide Flags;
    FlagsOk(0, 3);
  }

  lemma Gen2TargetSizes()
    ensures BareSize(339, Gen2Target(339)) && BareSize(345, Gen2Target(345)) && BareSize(348, Gen2Target(348))
  {}

  lemma Gen2TargetGroupSizes()
    ensures SizeChecks(338, Gen2Target(338))
  {}

  lemma Gen2TargetGroups()
    ensures GroupsCheck(Gen2Target(338).groups)
  {}

  lemma Gen2TargetMembers()
    ensures GroupsHold(338, Gen2Target(338).groups)
  {}

  lemma C1G2BlockWriteFields()
    ensures FieldsCheck(347, Gen2Operation(347))
  {}

  lemma Gen2OperationFields()
    ensures FieldsCheck(341, Gen2Operation(341)) && FieldsCheck(342, Gen2Operation(342))
            && FieldsCheck(343, Gen2Operation(343)) && FieldsCheck(344, Gen2Operation(344))
            && FieldsCheck(346, Gen2Operation(346))
  {}

  lemma Gen2OperationSizes()
    ensures BareSize(341, Gen2Operation(341)) && BareSize(342, Gen2Operation(342))
            && BareSize(343, Gen2Operation(343)) && BareSize(346, Gen2Operation(346))
            && BareSize(347, Gen2Operation(347))
  {}

  lemma Gen2OperationGroupSizes()
    ensures SizeChecks(344, Gen2Operation(344))
  {}

  lemma Gen2OperationGroups()
    ensures GroupsCheck(Gen2Operation(344).groups)
  {}

  lemma Gen2OperationMembers()
    ensures GroupsHold(344, Gen2Operation(344).groups)
  {}

  lemma Gen2LaterOperationFields()
    ensures FieldsCheck(357, Gen2LaterOperation(357)) && FieldsCheck(358, Gen2LaterOperation(358))
            && FieldsCheck(359, Gen2LaterOperation(359))
  {
    hide Flags;
    FlagsOk(5, 3);
  }

  lemma Gen2LaterOperationSizes()
    ensures BareSize(357, Gen2LaterOperation(357)) && BareSize(358, Gen2LaterOperation(358))
            && BareSize(359, Gen2LaterOperation(359))
  {}

  lemma Gen2ResultFields()
    ensures FieldsCheck(349, Gen2Result(349)) && FieldsCheck(350, Gen2Result(350))
            && FieldsCheck(351, Gen2Result(351)) && FieldsCheck(352, Gen2Result(352))
            && FieldsCheck(353, Gen2Result(353)) && FieldsCheck(354, Gen2Result(354))
            && FieldsCheck(360, Gen2Result(360)) && FieldsCheck(361, Gen2Result(361))
            && FieldsCheck(362, Gen2Result(362))
  {}

  lemma Gen2ResultSizes()
    ensures BareSize(349, Gen2Result(349)) && BareSize(350, Gen2Result(350)) && BareSize(351, Gen2Result(351))
            && BareSize(352, Gen2Result(352)) && BareSize(353, Gen2Result(353)) && BareSize(354, Gen2Result(354))
            && BareSize(360, Gen2Result(360)) && BareSize(361, Gen2Result(361)) && BareSize(362, Gen2Result(362))
  {}
}
