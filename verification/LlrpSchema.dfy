/** The LLRP parameters make a good schema, so the codec's laws hold of them. */
module LlrpSchema {
  import opened Fields
  import opened Schema
  import opened Encoder
  import opened Decoder
  import opened HeaderCode
  import opened RoundTrip
  import opened MinimumSizes
  import opened SizeTable
  import opened Parameters
  import opened SchemaCheck
  import opened LlrpChecks

  ghost predicate Fits(id: nat, c: Container) {
    && ContainerGood(id, c) && Delimited(c) && (IsTv(id) ==> HasBytes(c))
    && GroupsHold(id, c.groups) && SizeCounts(id, c) && Compiles(Llrp(), c)
  }

  // ---- all of a kind ----

  lemma {:induction false} MembersThere(gs: seq<Group>, i: nat)
    requires GroupsGood(gs) && i < |gs|
    ensures gs[i].members != []
  {
    hide Distinct, Apart;
    if i > 0 {
      MembersThere(gs[1..], i - 1);
    }
  }

  lemma NoChoiceCompiles(id: nat, c: Container)
    requires FieldsGood(id, c) && GroupsGood(c.groups)
    requires forall i :: 0 <= i < |c.groups| ==> !c.groups[i].Exclusive()
    ensures Compiles(Llrp(), c)
  {
    hide GroupsGood, Llrp, FieldOk, TailOk;
    forall i | 0 <= i < |c.groups|
      ensures c.groups[i].members != []
    {
      MembersThere(c.groups, i);
    }
  }

  lemma PlainCompiles(id: nat, c: Container)
    requires FieldsGood(id, c) && GroupsGood(c.groups) && GroupsHold(id, c.groups) && !IsLossy(id)
    ensures Compiles(Llrp(), c)
  {
    hide GroupsGood, GroupsHold, IsLossy, FieldsGood, Compiles;
    forall i | 0 <= i < |c.groups|
      ensures !c.groups[i].Exclusive()
    {
      GroupHolds(id, c.groups, i);
    }
    NoChoiceCompiles(id, c);
  }

  lemma NamesParameters(id: nat, gs: seq<Group>)
    requires GroupsGood(gs) && GroupsHold(id, gs)
    ensures Named(gs)
  {
    hide GroupsGood, GroupsHold, IsParameter, IsLossy, Depth;
    forall i | 0 <= i < |gs|
      ensures gs[i].members != []
    {
      MembersThere(gs, i);
    }
    forall i, k | 0 <= i < |gs| && 0 <= k < |gs[i].members|
      ensures IsParameter(gs[i].members[k])
    {
      MemberHolds(id, gs, i, k);
    }
  }

  /** A parameter that passes the checks. */
  lemma ChecksFit(id: nat, c: Container)
    requires FieldsCheck(id, c) && SizeChecks(id, c) && GroupsGood(c.groups) && GroupsHold(id, c.groups)
    requires IsLossy(id) ==> Compiles(Llrp(), c)
    ensures Fits(id, c)
  {
    hide FieldsCheck, FieldsGood, GroupsGood, GroupsHold, Measured, Compiles, IsLossy, Named, Added, MinSizes, Runs,
         RunSizes, Delimited, HasBytes;
    FieldsCheckGood(id, c);
    NamesParameters(id, c.groups);
    AddedIsRunSizes(c.groups);
    if !IsLossy(id) {
      PlainCompiles(id, c);
    }
  }

  lemma BareFits(id: nat, c: Container)
    requires BareSize(id, c)
    ensures GroupsGood(c.groups) && GroupsHold(id, c.groups) && SizeChecks(id, c)
  {}

  lemma TagReportDataCompiles()
    ensures Compiles(Llrp(), Report(240))
  {
    hide Llrp, Testable;
    ChoicesAreTestable();
    assert Open(Report(240).groups);
  }

  lemma FrequencyRSSILevelEntryCompiles()
    ensures Compiles(Llrp(), Report(243))
  {
    hide Llrp, Testable;
    ChoicesAreTestable();
  }

  lemma ReaderEventNotificationDataCompiles()
    ensures Compiles(Llrp(), Notification(246))
  {
    hide Llrp, Testable;
    ChoicesAreTestable();
    assert Open(Notification(246).groups);
  }

  lemma OthersHaveNoChoice()
    ensures forall i :: 0 <= i < |Report(242).groups| ==> !Report(242).groups[i].Exclusive()
    ensures forall i :: 0 <= i < |SpecEvent(254).groups| ==> !SpecEvent(254).groups[i].Exclusive()
  {}

  /** The members of exclusive groups. */
  lemma ChoicesAreTestable()
    ensures 241 in Llrp() && Testable(Llrp()[241]) && 13 in Llrp() && Testable(Llrp()[13])
    ensures 128 in Llrp() && Testable(Llrp()[128]) && 129 in Llrp() && Testable(Llrp()[129])
  {}

  lemma SightingFits(id: nat)
    requires IsSighting(id)
    ensures Fits(id, Sighting(id))
  {
    hide Sighting, FieldsCheck, SizeChecks, BareSize, GroupsGood, GroupsHold, Compiles, Fits;
    SightingFields(); SightingSizes();
    BareFits(id, Sighting(id));
    ChecksFit(id, Sighting(id));
  }

  lemma ReferenceFits(id: nat)
    requires IsReference(id)
    ensures Fits(id, Reference(id))
  {
    hide Reference, FieldsCheck, SizeChecks, BareSize, GroupsGood, GroupsHold, Compiles, Fits;
    ReferenceFields(); ReferenceSizes();
    BareFits(id, Reference(id));
    ChecksFit(id, Reference(id));
  }

  lemma AirDatumFits(id: nat)
    requires IsAirDatum(id)
    ensures Fits(id, AirDatum(id))
  {
    hide AirDatum, FieldsCheck, SizeChecks, BareSize, GroupsGood, GroupsHold, Compiles, Fits;
    AirDatumFields(); AirDatumSizes();
    BareFits(id, AirDatum(id));
    ChecksFit(id, AirDatum(id));
  }

  lemma TimestampFits(id: nat)
    requires IsTimestamp(id)
    ensures Fits(id, Timestamp(id))
  {
    hide Timestamp, FieldsCheck, SizeChecks, BareSize, GroupsGood, GroupsHold, Compiles, Fits;
    TimestampFields(); TimestampSizes();
    BareFits(id, Timestamp(id));
    ChecksFit(id, Timestamp(id));
  }

  lemma DeviceCapabilityFits(id: nat)
    requires IsDeviceCapability(id)
    ensures Fits(id, DeviceCapability(id))
  {
    hide DeviceCapability, FieldsCheck, SizeChecks, BareSize, GroupsGood, GroupsHold, Compiles, Fits, GroupsCheck;
    GeneralDeviceCapabilitiesFields(); DeviceCapabilityFields(); LLRPCapabilitiesFields(); DeviceCapabilitySizes();
    GeneralDeviceCapabilitiesSizes(); DeviceCapabilityGroups(); DeviceCapabilityMembers();
    if 139 <= id <= 142 || id == 149 || id == 363 {
      BareFits(id, DeviceCapability(id));
    }
    GroupsCheckGood(DeviceCapability(137).groups);
    ChecksFit(id, DeviceCapability(id));
  }

  lemma RegulatoryFits(id: nat)
    requires IsRegulatory(id)
    ensures Fits(id, Regulatory(id))
  {
    hide Regulatory, FieldsCheck, SizeChecks, BareSize, GroupsGood, GroupsHold, Compiles, Fits, GroupsCheck;
    RegulatoryFields(); RegulatorySizes(); RegulatoryGroupSizes(); UHFBandCapabilitiesSizes(); RegulatoryGroups();
    RegulatoryCapabilitiesMembers(); UHFBandCapabilitiesMembers(); FrequencyInformationMembers();
    if id == 145 || id == 147 || id == 148 || id == 365 {
      BareFits(id, Regulatory(id));
    }
    GroupsCheckGood(Regulatory(143).groups);
    GroupsCheckGood(Regulatory(144).groups);
    GroupsCheckGood(Regulatory(146).groups);
    ChecksFit(id, Regulatory(id));
  }

  lemma ROSpecPartFits(id: nat)
    requires IsROSpecPart(id)
    ensures Fits(id, ROSpecPart(id))
  {
    hide ROSpecPart, FieldsCheck, SizeChecks, BareSize, GroupsGood, GroupsHold, Compiles, Fits, GroupsCheck;
    ROSpecPartFields(); ROSpecPartSizes(); ROSpecSizes(); ROBoundarySpecSizes(); ROSpecPartGroupSizes();
    ROSpecGroups(); ROSpecPartGroups(); ROSpecMembers(); ROBoundarySpecMembers(); ROSpecPartMembers();
    if id == 181 || id == 355 {
      BareFits(id, ROSpecPart(id));
    }
    GroupsCheckGood(ROSpecPart(177).groups);
    GroupsCheckGood(ROSpecPart(178).groups);
    GroupsCheckGood(ROSpecPart(179).groups);
    GroupsCheckGood(ROSpecPart(180).groups);
    GroupsCheckGood(ROSpecPart(182).groups);
    ChecksFit(id, ROSpecPart(id));
  }

  lemma AISpecPartFits(id: nat)
    requires IsAISpecPart(id)
    ensures Fits(id, AISpecPart(id))
  {
    hide AISpecPart, FieldsCheck, SizeChecks, BareSize, GroupsGood, GroupsHold, Compiles, Fits, GroupsCheck;
    AISpecPartFields(); TagObservationTriggerFields(); AISpecPartSizes(); AISpecSizes(); AISpecPartGroupSizes();
    AISpecPartGroups(); AISpecMembers(); InventoryParameterSpecMembers(); AISpecStopTriggerMembers();
    RFSurveySpecMembers();
    if id == 185 || id == 188 {
      BareFits(id, AISpecPart(id));
    }
    GroupsCheckGood(AISpecPart(183).groups);
    GroupsCheckGood(AISpecPart(184).groups);
    GroupsCheckGood(AISpecPart(186).groups);
    GroupsCheckGood(AISpecPart(187).groups);
    ChecksFit(id, AISpecPart(id));
  }

  lemma AccessFits(id: nat)
    requires IsAccess(id)
    ensures Fits(id, Access(id))
  {
    hide Access, FieldsCheck, SizeChecks, BareSize, GroupsGood, GroupsHold, Compiles, Fits, GroupsCheck;
    AccessFields(); AccessSizes(); AccessSpecSizes(); AccessCommandSizes(); ClientRequestResponseSizes();
    AccessGroups(); AccessCommandGroups();
    ClientRequestResponseGroups(); AccessMembers();
    if id == 208 || id == 210 {
      BareFits(id, Access(id));
    }
    GroupsCheckGood(Access(207).groups);
    ChecksFit(id, Access(id));
  }

  lemma ReaderSettingFits(id: nat)
    requires IsReaderSetting(id)
    ensures Fits(id, ReaderSetting(id))
  {
    hide ReaderSetting, FieldsCheck, SizeChecks, BareSize, GroupsGood, GroupsHold, Compiles, Fits;
    ReaderSettingFields(); ReaderSettingSizes();
    BareFits(id, ReaderSetting(id));
    ChecksFit(id, ReaderSetting(id));
  }

  lemma AntennaSettingFits(id: nat)
    requires IsAntennaSetting(id)
    ensures Fits(id, AntennaSetting(id))
  {
    hide AntennaSetting, FieldsCheck, SizeChecks, BareSize, GroupsGood, GroupsHold, Compiles, Fits, GroupsCheck;
    AntennaSettingFields(); AntennaSettingSizes(); AntennaSettingGroupSizes(); AntennaSettingGroups();
    AntennaSettingMembers();
    if id == 221 || id == 223 || id == 224 {
      BareFits(id, AntennaSetting(id));
    }
    GroupsCheckGood(AntennaSetting(222).groups);
    ChecksFit(id, AntennaSetting(id));
  }

  lemma ReportSpecFits(id: nat)
    requires IsReportSpec(id)
    ensures Fits(id, ReportSpec(id))
  {
    hide ReportSpec, FieldsCheck, SizeChecks, BareSize, GroupsGood, GroupsHold, Compiles, Fits, GroupsCheck;
    ReportSpecFields(); ReportSpecSizes(); ReportSpecGroupSizes(); ReportSpecGroups(); ReportSpecMembers();
    if id == 239 {
      BareFits(id, ReportSpec(id));
    }
    GroupsCheckGood(ReportSpec(237).groups);
    GroupsCheckGood(ReportSpec(238).groups);
    ChecksFit(id, ReportSpec(id));
  }

  lemma ReportFits(id: nat)
    requires IsReport(id)
    ensures Fits(id, Report(id))
  {
    hide Report, FieldsCheck, SizeChecks, BareSize, GroupsGood, GroupsHold, Compiles, Fits, GroupsCheck;
    ReportFields(); ReportSizes(); ReportGroupSizes(); FrequencyRSSILevelEntrySizes(); TagReportDataGroups();
    ReportGroups(); RFSurveyReportDataMembers(); FrequencyRSSILevelEntryMembers();
    if id == 241 {
      BareFits(id, Report(id));
    }
    GroupsCheckGood(Report(242).groups);
    GroupsCheckGood(Report(243).groups);
    TagReportDataCompiles();
    RFSurveyReportDataCompiles();
    FrequencyRSSILevelEntryCompiles();
    ChecksFit(id, Report(id));
  }

  lemma RFSurveyReportDataCompiles()
    requires FieldsCheck(242, Report(242)) && GroupsGood(Report(242).groups)
    ensures Compiles(Llrp(), Report(242))
  {
    hide FieldsGood, GroupsGood, Compiles, FieldsCheck, Measured;
    OthersHaveNoChoice();
    FieldsCheckGood(242, Report(242));
    NoChoiceCompiles(242, Report(242));
  }

  lemma NotificationFits(id: nat)
    requires IsNotification(id)
    ensures Fits(id, Notification(id))
  {
    hide Notification, FieldsCheck, SizeChecks, BareSize, GroupsGood, GroupsHold, Compiles, Fits, GroupsCheck;
    NotificationFields(); NotificationSizes(); NotificationGroupSizes(); NotificationGroups();
    ReaderEventNotificationDataGroups(); NotificationMembers();
    if id == 245 {
      BareFits(id, Notification(id));
    }
    GroupsCheckGood(Notification(244).groups);
    ReaderEventNotificationDataCompiles();
    ChecksFit(id, Notification(id));
  }

  lemma DeviceEventFits(id: nat)
    requires IsDeviceEvent(id)
    ensures Fits(id, DeviceEvent(id))
  {
    hide DeviceEvent, FieldsCheck, SizeChecks, BareSize, GroupsGood, GroupsHold, Compiles, Fits;
    DeviceEventFields(); DeviceEventSizes(); DeviceEventGroupSizes(); ReaderExceptionEventGroups();
    if id == 247 || id == 248 || id == 250 || id == 251 || 255 <= id <= 257 {
      BareFits(id, DeviceEvent(id));
    }
    ChecksFit(id, DeviceEvent(id));
  }

  lemma SpecEventFits(id: nat)
    requires IsSpecEvent(id)
    ensures Fits(id, SpecEvent(id))
  {
    hide SpecEvent, FieldsCheck, SizeChecks, BareSize, GroupsGood, GroupsHold, Compiles, Fits, GroupsCheck;
    SpecEventFields(); SpecEventSizes(); SpecEventGroupSizes(); SpecEventGroups(); SpecEventMembers();
    if id == 249 || id == 253 || id == 356 {
      BareFits(id, SpecEvent(id));
    }
    GroupsCheckGood(SpecEvent(254).groups);
    AISpecEventCompiles();
    ChecksFit(id, SpecEvent(id));
  }

  lemma AISpecEventCompiles()
    requires FieldsCheck(254, SpecEvent(254)) && GroupsGood(SpecEvent(254).groups)
    ensures Compiles(Llrp(), SpecEvent(254))
  {
    hide FieldsGood, GroupsGood, Compiles, FieldsCheck, Measured;
    OthersHaveNoChoice();
    FieldsCheckGood(254, SpecEvent(254));
    NoChoiceCompiles(254, SpecEvent(254));
  }

  lemma StatusFits(id: nat)
    requires IsStatus(id)
    ensures Fits(id, Status(id))
  {
    hide Status, FieldsCheck, SizeChecks, BareSize, GroupsGood, GroupsHold, Compiles, Fits, GroupsCheck;
    StatusFields(); StatusSizes(); StatusGroupSizes(); StatusGroups(); StatusMembers();
    if id == 288 || id == 1023 {
      BareFits(id, Status(id));
    }
    GroupsCheckGood(Status(287).groups);
    GroupsCheckGood(Status(289).groups);
    ChecksFit(id, Status(id));
  }

  lemma Gen2CapabilityFits(id: nat)
    requires IsGen2Capability(id)
    ensures Fits(id, Gen2Capability(id))
  {
    hide Gen2Capability, FieldsCheck, SizeChecks, BareSize, GroupsGood, GroupsHold, Compiles, Fits, GroupsCheck;
    C1G2LLRPCapabilitiesFields(); RFModeTableFields(); RFModeTableEntryFields(); Gen2CapabilitySizes();
    Gen2CapabilityGroupSizes(); Gen2CapabilityGroups(); Gen2CapabilityMembers();
    if id == 327 || id == 329 {
      BareFits(id, Gen2Capability(id));
    }
    GroupsCheckGood(Gen2Capability(328).groups);
    ChecksFit(id, Gen2Capability(id));
  }

  lemma Gen2InventoryFits(id: nat)
    requires IsGen2Inventory(id)
    ensures Fits(id, Gen2Inventory(id))
  {
    hide Gen2Inventory, FieldsCheck, SizeChecks, BareSize, GroupsGood, GroupsHold, Compiles, Fits, GroupsCheck;
    Gen2InventoryFields(); C1G2TagInventoryMaskFields(); C1G2SingulationControlFields(); Gen2InventorySizes();
    Gen2InventoryGroupSizes(); C1G2SingulationControlSizes(); Gen2InventoryGroups(); C1G2InventoryCommandMembers();
    C1G2FilterMembers(); C1G2SingulationControlMembers();
    if 332 <= id <= 335 || id == 337 {
      BareFits(id, Gen2Inventory(id));
    }
    GroupsCheckGood(Gen2Inventory(330).groups);
    GroupsCheckGood(Gen2Inventory(331).groups);
    GroupsCheckGood(Gen2Inventory(336).groups);
    ChecksFit(id, Gen2Inventory(id));
  }

  lemma Gen2TargetFits(id: nat)
    requires IsGen2Target(id)
    ensures Fits(id, Gen2Target(id))
  {
    hide Gen2Target, FieldsCheck, SizeChecks, BareSize, GroupsGood, GroupsHold, Compiles, Fits, GroupsCheck;
    Gen2TargetFields(); Gen2TargetSizes(); Gen2TargetGroupSizes(); Gen2TargetGroups(); Gen2TargetMembers();
    if id == 339 || id == 345 || id == 348 {
      BareFits(id, Gen2Target(id));
    }
    GroupsCheckGood(Gen2Target(338).groups);
    ChecksFit(id, Gen2Target(id));
  }

  lemma Gen2OperationFits(id: nat)
    requires IsGen2Operation(id)
    ensures Fits(id, Gen2Operation(id))
  {
    hide Gen2Operation, FieldsCheck, SizeChecks, BareSize, GroupsGood, GroupsHold, Compiles, Fits, GroupsCheck;
    Gen2OperationFields(); C1G2BlockWriteFields(); Gen2OperationSizes(); Gen2OperationGroupSizes();
    Gen2OperationGroups(); Gen2OperationMembers();
    if 341 <= id <= 343 || id == 346 || id == 347 {
      BareFits(id, Gen2Operation(id));
    }
    GroupsCheckGood(Gen2Operation(344).groups);
    ChecksFit(id, Gen2Operation(id));
  }

  lemma Gen2LaterOperationFits(id: nat)
    requires IsGen2LaterOperation(id)
    ensures Fits(id, Gen2LaterOperation(id))
  {
    hide Gen2LaterOperation, FieldsCheck, SizeChecks, BareSize, GroupsGood, GroupsHold, Compiles, Fits;
    Gen2LaterOperationFields(); Gen2LaterOperationSizes();
    BareFits(id, Gen2LaterOperation(id));
    ChecksFit(id, Gen2LaterOperation(id));
  }

  lemma Gen2ResultFits(id: nat)
    requires IsGen2Result(id)
    ensures Fits(id, Gen2Result(id))
  {
    hide Gen2Result, FieldsCheck, SizeChecks, BareSize, GroupsGood, GroupsHold, Compiles, Fits;
    Gen2ResultFields(); Gen2ResultSizes();
    BareFits(id, Gen2Result(id));
    ChecksFit(id, Gen2Result(id));
  }

  lemma ParameterFits(id: nat)
    requires IsParameter(id)
    ensures Fits(id, Definition(id))
  {
    hide Fits;
    hide Sighting, Reference, AirDatum, Timestamp, DeviceCapability, Regulatory, ROSpecPart, AISpecPart, Access,
         ReaderSetting, AntennaSetting, ReportSpec, Report, Notification, DeviceEvent, SpecEvent, Status,
         Gen2Capability, Gen2Inventory, Gen2Target, Gen2Operation, Gen2LaterOperation, Gen2Result;
    if IsSighting(id) {
      SightingFits(id);
    } else if IsReference(id) {
      ReferenceFits(id);
    } else if IsAirDatum(id) {
      AirDatumFits(id);
    } else if IsTimestamp(id) {
      TimestampFits(id);
    } else if IsDeviceCapability(id) {
      DeviceCapabilityFits(id);
    } else if IsRegulatory(id) {
      RegulatoryFits(id);
    } else if IsROSpecPart(id) {
      ROSpecPartFits(id);
    } else if IsAISpecPart(id) {
      AISpecPartFits(id);
    } else if IsAccess(id) {
      AccessFits(id);
    } else if IsReaderSetting(id) {
      ReaderSettingFits(id);
    } else if IsAntennaSetting(id) {
      AntennaSettingFits(id);
    } else if IsReportSpec(id) {
      ReportSpecFits(id);
    } else if IsReport(id) {
      ReportFits(id);
    } else if IsNotification(id) {
      NotificationFits(id);
    } else if IsDeviceEvent(id) {
      DeviceEventFits(id);
    } else if IsSpecEvent(id) {
      SpecEventFits(id);
    } else if IsStatus(id) {
      StatusFits(id);
    } else if IsGen2Capability(id) {
      Gen2CapabilityFits(id);
    } else if IsGen2Inventory(id) {
      Gen2InventoryFits(id);
    } else if IsGen2Target(id) {
      Gen2TargetFits(id);
    } else if IsGen2Operation(id) {
      Gen2OperationFits(id);
    } else if IsGen2LaterOperation(id) {
      Gen2LaterOperationFits(id);
    } else {
      Gen2ResultFits(id);
    }
  }

  // ---- all parameters ----

  lemma FitsParts(id: nat, c: Container)
    requires Fits(id, c)
    ensures ContainerGood(id, c) && GroupsHold(id, c.groups) && SizeCounts(id, c) && Compiles(Llrp(), c)
    ensures Delimited(c) && (IsTv(id) ==> HasBytes(c))
  {}

  lemma LlrpHas(id: nat)
    requires IsParameter(id)
    ensures id in Llrp() && Llrp()[id] == Definition(id)
  {
    hide Definition;
  }

  lemma LlrpOnlyHas(id: nat)
    requires id in Llrp()
    ensures IsParameter(id) && Llrp()[id] == Definition(id)
  {
    hide Definition, IsParameter;
  }

  lemma IsPlain(id: nat)
    requires IsParameter(id) && !IsLossy(id)
    ensures PlainGroups(Definition(id).groups)
  {
    hide Fits, GroupsHold, Definition, IsParameter, IsLossy;
    ParameterFits(id);
    FitsParts(id, Definition(id));
    var gs := Definition(id).groups;
    forall i | 0 <= i < |gs|
      ensures PlainGroup(gs[i])
    {
      GroupHolds(id, gs, i);
      forall k | 0 <= k < |gs[i].members|
        ensures !IsLossy(gs[i].members[k]) && !(gs[i].Simple() && IsTv(gs[i].members[k]))
      {
        MemberHolds(id, gs, i, k);
      }
    }
  }

  function Depths(): map<nat, nat> {
    map id | id in Llrp() :: Depth(id)
  }

  lemma DepthsAre(id: nat)
    requires id in Llrp()
    ensures At(Depths(), id) == Depth(id)
  {
    hide Llrp, Depth;
  }

  lemma LlrpIsClosed()
    ensures Closed(Llrp()) && Descending(Llrp(), Depths())
  {
    hide Definition, IsParameter, Fits, Llrp, GroupsHold, Depth, Depths, IsLossy, At;
    forall id, i, k | id in Llrp() && 0 <= i < |Llrp()[id].groups| && 0 <= k < |Llrp()[id].groups[i].members|
      ensures Llrp()[id].groups[i].members[k] in Llrp()
      ensures var m := Llrp()[id].groups[i].members[k];
              && At(Depths(), m) <= At(Depths(), id)
              && (!Llrp()[id].groups[i].optional ==> At(Depths(), m) < At(Depths(), id))
    {
      LlrpOnlyHas(id);
      DepthsAre(id);
      ParameterFits(id);
      FitsParts(id, Definition(id));
      MemberHolds(id, Definition(id).groups, i, k);
      LlrpHas(Llrp()[id].groups[i].members[k]);
      DepthsAre(Llrp()[id].groups[i].members[k]);
    }
  }

  lemma {:induction false} SmallestIsSize(ids: seq<nat>)
    requires Refers(Llrp(), ids)
    ensures SmallestMin(Llrp(), ids) == SmallestSize(ids)
  {
    hide Llrp, Definition, IsParameter;
    if ids != [] {
      LlrpOnlyHas(ids[0]);
      if |ids| > 1 {
        SmallestIsSize(ids[1..]);
      }
    }
  }

  lemma {:induction false} RunsAreSizes(rs: seq<Run>)
    requires RunsRefer(Llrp(), rs)
    ensures SumRuns(Llrp(), rs) == RunSizes(rs)
  {
    hide Llrp, SmallestMin, SmallestSize;
    if rs != [] {
      SmallestIsSize(rs[0].members);
      RunsAreSizes(rs[1..]);
    }
  }

  lemma LlrpIsDelimited(id: nat)
    requires id in Llrp()
    ensures Delimited(Llrp()[id]) && (IsTv(id) ==> HasBytes(Llrp()[id]))
  {
    hide Definition, Llrp, IsParameter, Fits, Delimited, HasBytes;
    LlrpOnlyHas(id);
    ParameterFits(id);
    FitsParts(id, Llrp()[id]);
  }

  /** Whatever a group names is seen where it stands: no TV parameter is empty. */
  lemma LlrpIsVisible(gs: seq<Group>)
    requires GroupsRefer(Llrp(), gs)
    ensures Visible(Llrp(), gs)
  {
    hide Llrp, HasBytes;
    forall id | id in Llrp() && IsTv(id)
      ensures HasBytes(Llrp()[id])
    {
      LlrpIsDelimited(id);
    }
    BytesAreVisible(Llrp(), gs);
  }

  /** The LLRP parameters are a closed, coherent schema, and each minimum size is that of
      the header, the fields and the smallest member of each required run. */
  lemma LlrpIsGood()
    ensures Closed(Llrp()) && SizesSound(Llrp()) && Good(Llrp())
    ensures forall id :: id in Llrp() ==> Delimited(Llrp()[id])
    ensures forall id :: id in Llrp() ==> Llrp()[id].minSize == SizeBound(Llrp(), id)
    ensures Descending(Llrp(), Depths())
  {
    hide ContainerGood, Definition, MinSizes, Runs, SumRuns, RunSizes, Good, Fits, Llrp, IsParameter, Compiles,
         Closed, Descending, GroupsHold, Delimited, Visible;
    var s := Llrp();
    LlrpIsClosed();
    forall id | id in s
      ensures ContainerGood(id, s[id]) && Compiles(s, s[id]) && s[id].minSize == SizeBound(s, id)
      ensures Delimited(s[id]) && Visible(s, s[id].groups)
    {
      LlrpOnlyHas(id);
      ParameterFits(id);
      FitsParts(id, s[id]);
      RefersHere(s, id);
      LlrpIsVisible(s[id].groups);
      RunsDoRefer(s, s[id].groups);
      RunsAreSizes(Runs(s[id].groups));
    }
    SoundSizesAreGood(s);
  }

  lemma RefersHere(s: Schema, id: nat)
    requires Closed(s) && id in s
    ensures GroupsRefer(s, s[id].groups)
  {}

  /** Whatever the parameters' sizes are at first, and in whatever order they are computed,
      the generator arrives at the sizes above. */
  method ComputeSizes(params: Schema, order: seq<nat>) returns (sized: Schema)
    requires SameDefs(Llrp(), params) && forall id :: id in order <==> id in params
    ensures SameDefs(Llrp(), sized) && forall id :: id in sized ==> sized[id].minSize == Llrp()[id].minSize
  {
    hide *;
    LlrpIsGood();
    SameDefsClosed(Llrp(), params);
    DescendingStays(Llrp(), params, Depths());
    var table := new Table(params, Depths());
    table.SetParamSizes(order);
    sized := table.defs;
    SizedParts(params, sized, Depths());
    SizesAreLlrps(params, sized);
  }

  lemma SizedParts(was: Schema, defs: Schema, depth: map<nat, nat>)
    requires Sized(was, defs, depth)
    ensures SameDefs(was, defs) && Closed(defs)
    ensures Descending(was, depth) ==> forall id :: id in defs ==> defs[id].minSize == SizeBound(defs, id)
  {
    hide Descending, Closed, SizeBound, Good, ContainerGood, SizesSound;
  }

  lemma SameDefsClosed(a: Schema, b: Schema)
    requires SameDefs(a, b) && Closed(a)
    ensures Closed(b)
  {
    forall id, i, k | id in b && 0 <= i < |b[id].groups| && 0 <= k < |b[id].groups[i].members|
      ensures b[id].groups[i].members[k] in b
    {
      assert a[id].groups[i].members[k] in a;
    }
  }

  lemma SizesAreLlrps(params: Schema, sized: Schema)
    requires SameDefs(Llrp(), params) && SameDefs(params, sized) && Closed(sized)
    requires forall id :: id in sized ==> sized[id].minSize == SizeBound(sized, id)
    ensures SameDefs(Llrp(), sized) && forall id :: id in sized ==> sized[id].minSize == Llrp()[id].minSize
  {
    hide Llrp, SizeBound, Closed, Descending, Depths, SizesSound, Good;
    LlrpIsGood();
    forall id | id in sized
      ensures sized[id].minSize == Llrp()[id].minSize
    {
      ExactSizesAreUnique(Llrp(), sized, Depths(), id);
    }
  }
}
