/** The LLRP parameters the code is generated from, and what the codec's laws say of them. */
module Parameters {
  import opened Fields
  import opened Schema

  /** `n` one-bit flags in one byte, from bit `from` on. */
  function Flags(from: nat, n: nat): Field {
    Packed(seq(n, i requires 0 <= i => BitPart(from + i, 1)))
  }

  function Required(ids: seq<nat>): Group {
    Group(false, false, "", ids)
  }

  function Optional(ids: seq<nat>): Group {
    Group(true, false, "", ids)
  }

  function AtLeastOne(ids: seq<nat>): Group {
    Group(false, true, "", ids)
  }

  function AnyNumber(ids: seq<nat>): Group {
    Group(true, true, "", ids)
  }

  function OneOf(name: string, ids: seq<nat>): Group {
    Group(false, false, name, ids)
  }

  function AnyNumberOf(name: string, ids: seq<nat>): Group {
    Group(true, true, name, ids)
  }

  /** What a TagReportData may hold besides the EPC and vendor extensions. */
  const TAG_REPORT_PARTS: seq<nat> :=
    [9, 14, 10, 1, 6, 7, 2, 3, 4, 5, 8, 12, 19, 20, 11, 16, 349, 350, 351, 352, 353, 354, 360, 361, 362, 15]

  /** The events a ReaderEventNotificationData may report. */
  const READER_EVENTS: seq<nat> := [247, 248, 249, 250, 251, 252, 253, 254, 255, 256, 257, 356]

  /** The operations of an access command. */
  const OP_SPECS: seq<nat> := [341, 342, 343, 357, 344, 346, 347, 358, 359, 210]
  const OP_SPECS_AND_CUSTOM: seq<nat> := [341, 342, 343, 357, 344, 346, 347, 358, 359, 210, 1023]

  // ---- where, when and how tags were seen ----

  predicate IsSighting(id: nat) {
    1 <= id <= 8
  }

  function Sighting(id: nat): Container {
    match id
    case 1 => // AntennaID
      Container([Scalar(2)], [], 3, true)
    case 2 => // FirstSeenUTC
      Container([Scalar(8)], [], 9, true)
    case 3 => // FirstSeenUptime
      Container([Scalar(8)], [], 9, true)
    case 4 => // LastSeenUTC
      Container([Scalar(8)], [], 9, true)
    case 5 => // LastSeenUptime
      Container([Scalar(8)], [], 9, true)
    case 6 => // PeakRSSI
      Container([Scalar(1)], [], 2, true)
    case 7 => // ChannelIndex
      Container([Scalar(2)], [], 3, true)
    case _ => // TagSeenCount
      Container([Scalar(2)], [], 3, true)
  }

  // ---- references to specifications ----

  predicate IsReference(id: nat) {
    id == 9 || id == 10 || 14 <= id <= 17
  }

  function Reference(id: nat): Container {
    match id
    case 9 => // ROSpecID
      Container([Scalar(4)], [], 5, true)
    case 10 => // InventoryParameterSpecID
      Container([Scalar(2)], [], 3, true)
    case 14 => // SpecIndex
      Container([Scalar(2)], [], 3, true)
    case 15 => // ClientRequestOpSpecResult
      Container([Scalar(2)], [], 3, true)
    case 16 => // AccessSpecID
      Container([Scalar(4)], [], 5, true)
    case _ => // OpSpecID
      Container([Scalar(2)], [], 3, true)
  }

  // ---- data from the air protocol ----

  predicate IsAirDatum(id: nat) {
    11 <= id <= 13 || 18 <= id <= 20
  }

  function AirDatum(id: nat): Container {
    match id
    case 11 => // C1G2CRC
      Container([Scalar(2)], [], 3, true)
    case 12 => // C1G2PC
      Container([Packed([BitPart(0, 5), BitPart(5, 1), BitPart(6, 1), BitPart(7, 1)]), Scalar(1)], [], 3, true)
    case 13 => // EPC96
      Container([Block(12)], [], 13, true)
    case 18 => // C1G2SingulationDetails
      Container([Scalar(2), Scalar(2)], [], 5, true)
    case 19 => // C1G2XPCW1
      Container([Scalar(2)], [], 3, true)
    case _ => // C1G2XPCW2
      Container([Scalar(2)], [], 3, true)
  }

  // ---- time stamps ----

  predicate IsTimestamp(id: nat) {
    id == 128 || id == 129
  }

  function Timestamp(id: nat): Container {
    match id
    case 128 => // UTCTimestamp
      Container([Scalar(8)], [], 12, true)
    case _ => // Uptime
      Container([Scalar(8)], [], 12, true)
  }

  // ---- device capabilities ----

  predicate IsDeviceCapability(id: nat) {
    id == 137 || 139 <= id <= 142 || id == 149 || id == 363
  }

  function DeviceCapability(id: nat): Container {
    match id
    case 137 => // GeneralDeviceCapabilities
      Container([Scalar(2), Flags(0, 2), Padding(1), Scalar(4), Scalar(4), Counted(1)],
                [AtLeastOne([139]), AnyNumber([149]), Required([141]), AtLeastOne([140]),
                 Optional([363])], 34, false)
    case 139 => // ReceiveSensitivityTableEntry
      Container([Scalar(2), Scalar(2)], [], 8, true)
    case 140 => // PerAntennaAirProtocol
      Container([Scalar(2), Counted(1)], [], 8, false)
    case 141 => // GPIOCapabilities
      Container([Scalar(2), Scalar(2)], [], 8, true)
    case 142 => // LLRPCapabilities
      Container([Flags(0, 5), Scalar(1), Scalar(2), Scalar(4), Scalar(4), Scalar(4), Scalar(4), Scalar(4)],
                [], 28, true)
    case 149 => // PerAntennaReceiveSensitivityRange
      Container([Scalar(2), Scalar(2), Scalar(2)], [], 10, true)
    case _ => // MaximumReceiveSensitivity
      Container([Scalar(2)], [], 6, true)
  }

  // ---- regulatory capabilities ----

  predicate IsRegulatory(id: nat) {
    143 <= id <= 148 || id == 365
  }

  function Regulatory(id: nat): Container {
    match id
    case 143 => // RegulatoryCapabilities
      Container([Scalar(2), Scalar(2)], [Optional([144]), AnyNumber([1023])], 8, false)
    case 144 => // UHFBandCapabilities
      Container([], [AtLeastOne([145]), Required([146, 328]), Optional([365])], 9, false)
    case 145 => // TransmitPowerLevelTableEntry
      Container([Scalar(2), Scalar(2)], [], 8, true)
    case 146 => // FrequencyInformation
      Container([Flags(0, 1)], [AnyNumber([147]), Optional([148])], 5, false)
    case 147 => // FrequencyHopTable
      Container([Scalar(1), Padding(1), Counted(4)], [], 8, false)
    case 148 => // FixedFrequencyTable
      Container([Counted(4)], [], 6, false)
    case _ => // RFSurveyFrequencyCapabilities
      Container([Scalar(4), Scalar(4)], [], 12, true)
  }

  // ---- reader operations ----

  predicate IsROSpecPart(id: nat) {
    177 <= id <= 182 || id == 355
  }

  function ROSpecPart(id: nat): Container {
    match id
    case 177 => // ROSpec
      Container([Scalar(4), Scalar(1), Scalar(1)],
                [Required([178]), AnyNumberOf("specs", [183, 187, 1023]), Optional([355, 237])], 19, false)
    case 178 => // ROBoundarySpec
      Container([], [Required([179, 182])], 9, false)
    case 179 => // ROSpecStartTrigger
      Container([Scalar(1)], [Optional([180, 181])], 5, false)
    case 180 => // PeriodicTriggerValue
      Container([Scalar(4), Scalar(4)], [Optional([128])], 12, false)
    case 181 => // GPITriggerValue
      Container([Scalar(2), Flags(0, 1), Scalar(4)], [], 11, true)
    case 182 => // ROSpecStopTrigger
      Container([Scalar(1), Scalar(4)], [Optional([181])], 9, false)
    case _ => // LoopSpec
      Container([Scalar(4)], [], 8, true)
  }

  // ---- inventories and surveys ----

  predicate IsAISpecPart(id: nat) {
    183 <= id <= 188
  }

  function AISpecPart(id: nat): Container {
    match id
    case 183 => // AISpec
      Container([Counted(2)], [Required([184]), AtLeastOne([186]), AnyNumber([1023])], 13, false)
    case 184 => // AISpecStopTrigger
      Container([Scalar(1), Scalar(4)], [Optional([181, 185])], 9, false)
    case 185 => // TagObservationTrigger
      Container([Scalar(1), Padding(1), Scalar(2), Scalar(2), Scalar(2), Scalar(4)], [], 16, true)
    case 186 => // InventoryParameterSpec
      Container([Scalar(2), Scalar(1)], [AnyNumber([222, 1023])], 7, false)
    case 187 => // RFSurveySpec
      Container([Scalar(2), Scalar(4), Scalar(4)], [Required([188]), AnyNumber([1023])], 27, false)
    case _ => // RFSurveySpecStopTrigger
      Container([Scalar(1), Scalar(4), Scalar(4)], [], 13, true)
  }

  // ---- access operations ----

  predicate IsAccess(id: nat) {
    207 <= id <= 211
  }

  function Access(id: nat): Container {
    match id
    case 207 => // AccessSpec
      Container([Scalar(4), Scalar(2), Scalar(1), Flags(0, 1), Scalar(4)],
                [Required([208, 209]), Optional([239]), AnyNumber([1023])], 23, false)
    case 208 => // AccessSpecStopTrigger
      Container([Scalar(1), Scalar(2)], [], 7, true)
    case 209 => // AccessCommand
      Container([], [Required([338]), Optional(OP_SPECS), AnyNumber([1023])], 19, false)
    case 210 => // ClientRequestOpSpec
      Container([Scalar(2)], [], 6, true)
    case _ => // ClientRequestResponse
      Container([Scalar(4)], [Required([241]), Optional(OP_SPECS_AND_CUSTOM)], 14, false)
  }

  // ---- reader configuration ----

  predicate IsReaderSetting(id: nat) {
    217 <= id <= 220 || id == 225 || id == 226
  }

  function ReaderSetting(id: nat): Container {
    match id
    case 217 => // LLRPConfigurationStateValue
      Container([Scalar(4)], [], 8, true)
    case 218 => // Identification
      Container([Scalar(1), Counted(1)], [], 7, false)
    case 219 => // GPOWriteData
      Container([Scalar(2), Flags(0, 1)], [], 7, true)
    case 220 => // KeepAliveSpec
      Container([Scalar(1), Scalar(4)], [], 9, true)
    case 225 => // GPIPortCurrentState
      Container([Scalar(2), Flags(0, 1), Scalar(1)], [], 8, true)
    case _ => // EventsAndReports
      Container([Flags(0, 1)], [], 5, true)
  }

  // ---- antenna configuration ----

  predicate IsAntennaSetting(id: nat) {
    221 <= id <= 224
  }

  function AntennaSetting(id: nat): Container {
    match id
    case 221 => // AntennaProperties
      Container([Flags(0, 1), Scalar(2), Scalar(2)], [], 9, true)
    case 222 => // AntennaConfiguration
      Container([Scalar(2)], [Optional([223, 224, 330]), AnyNumber([1023])], 6, false)
    case 223 => // RFReceiver
      Container([Scalar(2)], [], 6, true)
    case _ => // RFTransmitter
      Container([Scalar(2), Scalar(2), Scalar(2)], [], 10, true)
  }

  // ---- what to report ----

  predicate IsReportSpec(id: nat) {
    237 <= id <= 239
  }

  function ReportSpec(id: nat): Container {
    match id
    case 237 => // ROReportSpec
      Container([Scalar(1), Scalar(2)], [Required([238]), AnyNumber([1023])], 13, false)
    case 238 => // TagReportContentSelector
      Container([Flags(0, 8), Flags(0, 2)], [Optional([348]), AnyNumber([1023])], 6, false)
    case _ => // AccessReportSpec
      Container([Scalar(1)], [], 5, true)
  }

  // ---- reports ----

  predicate IsReport(id: nat) {
    240 <= id <= 243
  }

  function Report(id: nat): Container {
    match id
    case 240 => // TagReportData
      Container([], [OneOf("epc-data", [241, 13]), Optional(TAG_REPORT_PARTS), AnyNumber([1023])], 10, false)
    case 241 => // EPCData
      Container([BitString], [], 6, false)
    case 242 => // RFSurveyReportData
      Container([], [Optional([9, 14]), AtLeastOne([243]), AnyNumber([1023])], 30, false)
    case _ => // FrequencyRSSILevelEntry
      Container([Scalar(4), Scalar(4), Scalar(1), Scalar(1)], [OneOf("timestamp", [128, 129])], 26, false)
  }

  // ---- notifications ----

  predicate IsNotification(id: nat) {
    244 <= id <= 246
  }

  function Notification(id: nat): Container {
    match id
    case 244 => // ReaderEventNotificationSpec
      Container([], [AtLeastOne([245])], 11, false)
    case 245 => // EventNotificationState
      Container([Scalar(2), Flags(0, 1)], [], 7, true)
    case _ => // ReaderEventNotificationData
      Container([], [OneOf("timestamp", [128, 129]), Optional(READER_EVENTS), AnyNumber([1023])], 16, false)
  }

  // ---- events of the device ----

  predicate IsDeviceEvent(id: nat) {
    id == 247 || id == 248 || 250 <= id <= 252 || 255 <= id <= 257
  }

  function DeviceEvent(id: nat): Container {
    match id
    case 247 => // HoppingEvent
      Container([Scalar(2)], [], 6, true)
    case 248 => // GPIEvent
      Container([Scalar(2), Flags(0, 1)], [], 7, true)
    case 250 => // ReportBufferLevelWarningEvent
      Container([Scalar(1)], [], 5, true)
    case 251 => // ReportBufferOverflowErrorEvent
      Container([], [], 4, true)
    case 252 => // ReaderExceptionEvent
      Container([Counted(1)], [Optional([9, 14, 10, 1, 16, 17]), AnyNumber([1023])], 6, false)
    case 255 => // AntennaEvent
      Container([Scalar(1), Scalar(2)], [], 7, true)
    case 256 => // ConnectionAttemptEvent
      Container([Scalar(2)], [], 6, true)
    case _ => // ConnectionCloseEvent
      Container([], [], 4, true)
  }

  // ---- events of specifications ----

  predicate IsSpecEvent(id: nat) {
    id == 249 || id == 253 || id == 254 || id == 356
  }

  function SpecEvent(id: nat): Container {
    match id
    case 249 => // ROSpecEvent
      Container([Scalar(1), Scalar(4), Scalar(4)], [], 13, true)
    case 253 => // RFSurveyEvent
      Container([Scalar(1), Scalar(4)], [], 9, true)
    case 254 => // AISpecEvent
      Container([Scalar(1), Scalar(4), Scalar(2)], [Optional([18])], 11, false)
    case _ => // SpecLoopEvent
      Container([Scalar(4), Scalar(4)], [], 12, true)
  }

  // ---- errors and vendor extensions ----

  predicate IsStatus(id: nat) {
    287 <= id <= 289 || id == 1023
  }

  function Status(id: nat): Container {
    match id
    case 287 => // LLRPStatus
      Container([Scalar(2), Counted(1)], [Optional([288, 289])], 8, false)
    case 288 => // FieldError
      Container([Scalar(2), Scalar(2)], [], 8, true)
    case 289 => // ParameterError
      Container([Scalar(2), Scalar(2)], [Optional([289, 288])], 8, false)
    case _ => // Custom
      Container([Scalar(4), Scalar(4), Remainder], [], 12, false)
  }

  // ---- the Gen2 air protocol: capabilities ----

  predicate IsGen2Capability(id: nat) {
    327 <= id <= 329
  }

  function Gen2Capability(id: nat): Container {
    match id
    case 327 => // C1G2LLRPCapabilities
      Container([Flags(0, 6), Scalar(2)], [], 7, true)
    case 328 => // UHFC1G2RFModeTable
      Container([], [AtLeastOne([329])], 36, false)
    case _ => // UHFC1G2RFModeTableEntry
      Container([Scalar(4), Flags(0, 2), Scalar(1), Scalar(1), Scalar(1), Scalar(4), Scalar(4), Scalar(4),
                 Scalar(4), Scalar(4)],
                [], 32, true)
  }

  // ---- the Gen2 air protocol: inventory ----

  predicate IsGen2Inventory(id: nat) {
    330 <= id <= 337
  }

  function Gen2Inventory(id: nat): Container {
    match id
    case 330 => // C1G2InventoryCommand
      Container([Flags(0, 1)], [AnyNumber([331]), Optional([335, 336]), AnyNumber([1023])], 5, false)
    case 331 => // C1G2Filter
      Container([Packed([BitPart(0, 2)])], [Required([332]), Optional([333, 334])], 14, false)
    case 332 => // C1G2TagInventoryMask
      Container([Packed([BitPart(0, 2)]), Scalar(2), BitString], [], 9, false)
    case 333 => // C1G2TagInventoryStateAwareFilterAction
      Container([Scalar(1), Scalar(1)], [], 6, true)
    case 334 => // C1G2TagInventoryStateUnawareFilterAction
      Container([Scalar(1)], [], 5, true)
    case 335 => // C1G2RFControl
      Container([Scalar(2), Scalar(2)], [], 8, true)
    case 336 => // C1G2SingulationControl
      Container([Packed([BitPart(0, 2)]), Scalar(2), Scalar(4)], [Optional([337])], 11, false)
    case _ => // C1G2TagInventoryStateAwareSingulationAction
      Container([Flags(0, 2)], [], 5, true)
  }

  // ---- the Gen2 air protocol: tags and memory ----

  predicate IsGen2Target(id: nat) {
    id == 338 || id == 339 || id == 345 || id == 348
  }

  function Gen2Target(id: nat): Container {
    match id
    case 338 => // C1G2TagSpec
      Container([], [Required([339]), Optional([339])], 15, false)
    case 339 => // C1G2TargetTag
      Container([Packed([BitPart(0, 2), BitPart(2, 1)]), Scalar(2), BitString, BitString], [], 11, false)
    case 345 => // C1G2LockPayload
      Container([Scalar(1), Scalar(1)], [], 6, true)
    case _ => // C1G2EPCMemorySelector
      Container([Flags(0, 3)], [], 5, true)
  }

  // ---- the Gen2 air protocol: operations ----

  predicate IsGen2Operation(id: nat) {
    341 <= id <= 344 || id == 346 || id == 347
  }

  function Gen2Operation(id: nat): Container {
    match id
    case 341 => // C1G2Read
      Container([Scalar(2), Scalar(4), Packed([BitPart(0, 2)]), Scalar(2), Scalar(2)], [], 15, true)
    case 342 => // C1G2Write
      Container([Scalar(2), Scalar(4), Packed([BitPart(0, 2)]), Scalar(2), Counted(2)], [], 15, false)
    case 343 => // C1G2Kill
      Container([Scalar(2), Scalar(4)], [], 10, true)
    case 344 => // C1G2Lock
      Container([Scalar(2), Scalar(4)], [AtLeastOne([345])], 16, false)
    case 346 => // C1G2BlockErase
      Container([Scalar(2), Scalar(4), Packed([BitPart(0, 2)]), Scalar(2), Scalar(2)], [], 15, true)
    case _ => // C1G2BlockWrite
      Container([Scalar(2), Scalar(4), Packed([BitPart(0, 2)]), Scalar(2), Counted(2)], [], 15, false)
  }

  // ---- the Gen2 air protocol: operations added in LLRP 1.1 ----

  predicate IsGen2LaterOperation(id: nat) {
    357 <= id <= 359
  }

  function Gen2LaterOperation(id: nat): Container {
    match id
    case 357 => // C1G2Recommission
      Container([Scalar(2), Scalar(4), Flags(5, 3)], [], 11, true)
    case 358 => // C1G2BlockPermalock
      Container([Scalar(2), Scalar(4), Packed([BitPart(0, 2)]), Scalar(2), Counted(2)], [], 15, false)
    case _ => // C1G2GetBlockPermalockStatus
      Container([Scalar(2), Scalar(4), Packed([BitPart(0, 2)]), Scalar(2), Scalar(2)], [], 15, true)
  }

  // ---- the Gen2 air protocol: results ----

  predicate IsGen2Result(id: nat) {
    349 <= id <= 354 || 360 <= id <= 362
  }

  function Gen2Result(id: nat): Container {
    match id
    case 349 => // C1G2ReadOpSpecResult
      Container([Scalar(1), Scalar(2), Counted(2)], [], 9, false)
    case 350 => // C1G2WriteOpSpecResult
      Container([Scalar(1), Scalar(2), Scalar(2)], [], 9, true)
    case 351 => // C1G2KillOpSpecResult
      Container([Scalar(1), Scalar(2)], [], 7, true)
    case 352 => // C1G2LockOpSpecResult
      Container([Scalar(1), Scalar(2)], [], 7, true)
    case 353 => // C1G2BlockEraseOpSpecResult
      Container([Scalar(1), Scalar(2)], [], 7, true)
    case 354 => // C1G2BlockWriteOpSpecResult
      Container([Scalar(1), Scalar(2), Scalar(2)], [], 9, true)
    case 360 => // C1G2RecommissionOpSpecResult
      Container([Scalar(1), Scalar(2)], [], 7, true)
    case 361 => // C1G2BlockPermalockOpSpecResult
      Container([Scalar(1), Scalar(2)], [], 7, true)
    case _ => // C1G2GetBlockPermalockStatusOpSpecResult
      Container([Scalar(1), Scalar(2), Counted(2)], [], 9, false)
  }

  function Definition(id: nat): Container
    requires IsParameter(id)
  {
    if IsSighting(id) then Sighting(id)
    else if IsReference(id) then Reference(id)
    else if IsAirDatum(id) then AirDatum(id)
    else if IsTimestamp(id) then Timestamp(id)
    else if IsDeviceCapability(id) then DeviceCapability(id)
    else if IsRegulatory(id) then Regulatory(id)
    else if IsROSpecPart(id) then ROSpecPart(id)
    else if IsAISpecPart(id) then AISpecPart(id)
    else if IsAccess(id) then Access(id)
    else if IsReaderSetting(id) then ReaderSetting(id)
    else if IsAntennaSetting(id) then AntennaSetting(id)
    else if IsReportSpec(id) then ReportSpec(id)
    else if IsReport(id) then Report(id)
    else if IsNotification(id) then Notification(id)
    else if IsDeviceEvent(id) then DeviceEvent(id)
    else if IsSpecEvent(id) then SpecEvent(id)
    else if IsStatus(id) then Status(id)
    else if IsGen2Capability(id) then Gen2Capability(id)
    else if IsGen2Inventory(id) then Gen2Inventory(id)
    else if IsGen2Target(id) then Gen2Target(id)
    else if IsGen2Operation(id) then Gen2Operation(id)
    else if IsGen2LaterOperation(id) then Gen2LaterOperation(id)
    else Gen2Result(id)
  }

  predicate IsParameter(id: nat) {
    || 1 <= id <= 20 || id == 128 || id == 129 || id == 137 || 139 <= id <= 149 || 177 <= id <= 188
    || 207 <= id <= 211 || 217 <= id <= 226 || 237 <= id <= 257 || 287 <= id <= 289 || 327 <= id <= 339
    || 341 <= id <= 363 || id == 365 || id == 1023
  }

  /** The types run from 1 to 1023. */
  function Llrp(): Schema {
    map id: nat | id < 1024 && IsParameter(id) :: Definition(id)
  }
}
