/** The bytes of the LLRP parameters and messages: where each field stands. */
module LlrpWire {
  import opened Bytes
  import opened Outcomes
  import opened Fields
  import opened Schema
  import opened Encoder
  import opened Decoder
  import opened RoundTrip
  import opened MinimumSizes
  import opened MessageCodec
  import opened Parameters
  import opened LlrpSchema
  import opened SchemaCheck
  import UnmarshalLoops
  import M = LlrpMessages
  import opened Layout

  // ---- numbers of one, two, four and eight bytes ----

  function N1(d: seq<Byte>, at: nat): FieldValue {
    Num(Uint8(d, at))
  }

  function N2(d: seq<Byte>, at: nat): FieldValue {
    Num(Uint16(d, at))
  }

  function N4(d: seq<Byte>, at: nat): FieldValue {
    Num(Uint32(d, at))
  }

  function N8(d: seq<Byte>, at: nat): FieldValue {
    Num(Uint64(d, at))
  }

  // ---- packed fields ----

  /** Bit `k` of a byte, counted from the least significant. */
  function BitAt(b: nat, k: nat): nat {
    match k
    case 7 => b / 128 % 2
    case 6 => b / 64 % 2
    case 5 => b / 32 % 2
    case 4 => b / 16 % 2
    case 3 => b / 8 % 2
    case 2 => b / 4 % 2
    case 1 => b / 2 % 2
    case _ => b % 2
  }

  function FlagList(from: nat, n: nat, b: nat): seq<nat>
    requires from + n <= 8
  {
    seq(n, i requires 0 <= i < n => BitAt(b, 7 - from - i))
  }

  lemma Powers()
    ensures Pow2(0) == 1 && Pow2(1) == 2 && Pow2(2) == 4 && Pow2(3) == 8
    ensures Pow2(4) == 16 && Pow2(5) == 32 && Pow2(6) == 64 && Pow2(7) == 128
  {}

  lemma OneBit(b: nat, k: nat)
    requires k <= 7
    ensures BitsOf(b, BitPart(k, 1)) == BitAt(b, 7 - k)
  {
    Powers();
    hide Pow2;
  }

  /** Flag `i` of a group that starts at bit `from` is bit `7 - from - i`. */
  lemma FlagsAt(from: nat, n: nat, d: seq<Byte>, at: nat)
    requires from + n <= 8
    ensures Flags(from, n).Packed? && FixedAt(Flags(from, n), d, at) == Parts(FlagList(from, n, Uint8(d, at)))
  {
    hide BitAt, BitsOf;
    var b := Uint8(d, at);
    forall i | 0 <= i < n
      ensures PartsOf(Flags(from, n).parts, b)[i] == FlagList(from, n, b)[i]
    {
      OneBit(b, from + i);
    }
  }

  /** The first flag times 2^(7-from), the next times half of that, and so on. */
  function FlagSum(vals: seq<nat>, from: nat): nat
    requires from + |vals| <= 8
  {
    if vals == [] then 0 else vals[0] * Pow2(7 - from) + FlagSum(vals[1..], from + 1)
  }

  lemma {:induction false} FlagPlaces(from: nat, vals: seq<nat>)
    requires from + |vals| <= 8
    ensures var parts := seq(|vals|, i requires 0 <= i => BitPart(from + i, 1));
            PlaceSum(parts, vals) == FlagSum(vals, from)
    decreases |vals|
  {
    hide Pow2;
    if vals != [] {
      FlagPlaces(from + 1, vals[1..]);
      assert seq(|vals|, i requires 0 <= i => BitPart(from + i, 1))[1..]
             == seq(|vals[1..]|, i requires 0 <= i => BitPart(from + 1 + i, 1));
    }
  }

  lemma BitIsPlace(b: nat, k: nat)
    requires k <= 7
    ensures BitAt(b, k) == b / Pow2(k) % 2
  {
    Powers();
    hide Pow2;
  }

  /** Every group of flags, wherever it is used: flag `i` is bit `7 - from - i` of its byte. */
  lemma FlagsRead(from: nat, n: nat, d: seq<Byte>, at: nat)
    requires 0 < n && from + n <= 8 && at < |d|
    ensures DecodeField(Flags(from, n), d, at) == Ok((Parts(FlagList(from, n, d[at])), at + 1))
    ensures forall i :: 0 <= i < n ==> FlagList(from, n, d[at])[i] == d[at] / Pow2(7 - from - i) % 2
  {
    hide Pow2, PartsOk, PartsOf, BitAt, FixedAt;
    FlagsOk(from, n);
    FlagsAt(from, n, d, at);
    FixedIsRead(Flags(from, n), d, at);
    forall i | 0 <= i < n
      ensures FlagList(from, n, d[at])[i] == d[at] / Pow2(7 - from - i) % 2
    {
      BitIsPlace(d[at], 7 - from - i);
    }
  }

  /** And it is written to that bit, with zero in all others. */
  lemma FlagsWritten(from: nat, n: nat, vals: seq<nat>)
    requires 0 < n && from + n <= 8 && |vals| == n && forall i :: 0 <= i < n ==> vals[i] < 2
    ensures FlagSum(vals, from) < 256 && EncodeField(Flags(from, n), Parts(vals)) == [FlagSum(vals, from)]
  {
    assert Pow2(1) == 2;
    hide Pow2, PlaceSum, Pack, PartsOk;
    FlagsOk(from, n);
    PackIsSum(Flags(from, n).parts, vals, 0, 8);
    FlagPlaces(from, vals);
  }

  lemma OneFlag(d: seq<Byte>, at: nat)
    ensures Flags(0, 1).Packed?
    ensures FixedAt(Flags(0, 1), d, at)
            == Parts([Uint8(d, at) / 128])
  {
    FlagsAt(0, 1, d, at);
    hide Flags, FixedAt, Uint8;
    assert FlagList(0, 1, Uint8(d, at)) == [Uint8(d, at) / 128];
  }

  lemma TwoFlags(d: seq<Byte>, at: nat)
    ensures Flags(0, 2).Packed?
    ensures FixedAt(Flags(0, 2), d, at)
            == Parts([Uint8(d, at) / 128, Uint8(d, at) / 64 % 2])
  {
    FlagsAt(0, 2, d, at);
    hide Flags, FixedAt, Uint8;
    assert FlagList(0, 2, Uint8(d, at)) == [Uint8(d, at) / 128, Uint8(d, at) / 64 % 2];
  }

  lemma ThreeFlags(d: seq<Byte>, at: nat)
    ensures Flags(0, 3).Packed?
    ensures FixedAt(Flags(0, 3), d, at)
            == Parts([Uint8(d, at) / 128, Uint8(d, at) / 64 % 2, Uint8(d, at) / 32 % 2])
  {
    FlagsAt(0, 3, d, at);
    hide Flags, FixedAt, Uint8;
    assert FlagList(0, 3, Uint8(d, at)) == [Uint8(d, at) / 128, Uint8(d, at) / 64 % 2, Uint8(d, at) / 32 % 2];
  }

  lemma FiveFlags(d: seq<Byte>, at: nat)
    ensures Flags(0, 5).Packed?
    ensures FixedAt(Flags(0, 5), d, at)
            == Parts([Uint8(d, at) / 128, Uint8(d, at) / 64 % 2, Uint8(d, at) / 32 % 2,
                      Uint8(d, at) / 16 % 2, Uint8(d, at) / 8 % 2])
  {
    FlagsAt(0, 5, d, at);
    hide Flags, FixedAt, Uint8;
    assert FlagList(0, 5, Uint8(d, at)) == [Uint8(d, at) / 128, Uint8(d, at) / 64 % 2, Uint8(d, at) / 32 % 2,
            Uint8(d, at) / 16 % 2, Uint8(d, at) / 8 % 2];
  }

  lemma SixFlags(d: seq<Byte>, at: nat)
    ensures Flags(0, 6).Packed?
    ensures FixedAt(Flags(0, 6), d, at)
            == Parts([Uint8(d, at) / 128, Uint8(d, at) / 64 % 2, Uint8(d, at) / 32 % 2,
                      Uint8(d, at) / 16 % 2, Uint8(d, at) / 8 % 2, Uint8(d, at) / 4 % 2])
  {
    FlagsAt(0, 6, d, at);
    hide Flags, FixedAt, Uint8;
    assert FlagList(0, 6, Uint8(d, at)) == [Uint8(d, at) / 128, Uint8(d, at) / 64 % 2, Uint8(d, at) / 32 % 2,
            Uint8(d, at) / 16 % 2, Uint8(d, at) / 8 % 2, Uint8(d, at) / 4 % 2];
  }

  lemma EightFlags(d: seq<Byte>, at: nat)
    ensures Flags(0, 8).Packed?
    ensures FixedAt(Flags(0, 8), d, at)
            == Parts([Uint8(d, at) / 128, Uint8(d, at) / 64 % 2, Uint8(d, at) / 32 % 2, Uint8(d, at) / 16 % 2,
                      Uint8(d, at) / 8 % 2, Uint8(d, at) / 4 % 2, Uint8(d, at) / 2 % 2, Uint8(d, at) % 2])
  {
    FlagsAt(0, 8, d, at);
    hide Flags, FixedAt, Uint8;
    assert FlagList(0, 8, Uint8(d, at))
           == [Uint8(d, at) / 128, Uint8(d, at) / 64 % 2, Uint8(d, at) / 32 % 2, Uint8(d, at) / 16 % 2,
               Uint8(d, at) / 8 % 2, Uint8(d, at) / 4 % 2, Uint8(d, at) / 2 % 2, Uint8(d, at) % 2];
  }

  lemma LastThreeFlags(d: seq<Byte>, at: nat)
    ensures Flags(5, 3).Packed?
    ensures FixedAt(Flags(5, 3), d, at)
            == Parts([Uint8(d, at) / 4 % 2, Uint8(d, at) / 2 % 2, Uint8(d, at) % 2])
  {
    FlagsAt(5, 3, d, at);
    hide Flags, FixedAt, Uint8;
    assert FlagList(5, 3, Uint8(d, at)) == [Uint8(d, at) / 4 % 2, Uint8(d, at) / 2 % 2, Uint8(d, at) % 2];
  }

  lemma TwoBitsAt(d: seq<Byte>, at: nat)
    ensures FixedAt(Packed([BitPart(0, 2)]), d, at) == Parts([Uint8(d, at) / 64])
  {
    Powers();
    hide Pow2;
  }

  lemma BankAndFlagAt(d: seq<Byte>, at: nat)
    ensures FixedAt(Packed([BitPart(0, 2), BitPart(2, 1)]), d, at) == Parts([Uint8(d, at) / 64, Uint8(d, at) / 32 % 2])
  {
    Powers();
    hide Pow2;
  }

  lemma PcAt(d: seq<Byte>, at: nat)
    ensures FixedAt(Packed([BitPart(0, 5), BitPart(5, 1), BitPart(6, 1), BitPart(7, 1)]), d, at)
            == Parts([Uint8(d, at) / 8, Uint8(d, at) / 4 % 2, Uint8(d, at) / 2 % 2, Uint8(d, at) % 2])
  {
    Powers();
    hide Pow2;
  }

  // ---- the parameters, family by family ----

  lemma SightingLayout(d: seq<Byte>)
    ensures Reads(Sighting(1).fields, 1, d, [N2(d, 0)]) // AntennaID
    ensures Reads(Sighting(2).fields, 1, d, [N8(d, 0)]) // FirstSeenUTC
    ensures Reads(Sighting(3).fields, 1, d, [N8(d, 0)]) // FirstSeenUptime
    ensures Reads(Sighting(4).fields, 1, d, [N8(d, 0)]) // LastSeenUTC
    ensures Reads(Sighting(5).fields, 1, d, [N8(d, 0)]) // LastSeenUptime
    ensures Reads(Sighting(6).fields, 1, d, [N1(d, 0)]) // PeakRSSI
    ensures Reads(Sighting(7).fields, 1, d, [N2(d, 0)]) // ChannelIndex
    ensures Reads(Sighting(8).fields, 1, d, [N2(d, 0)]) // TagSeenCount
  {
    hide Flags, PartsOf, Uint8, Uint16, Uint32, Uint64, NumberAt, BytesAt;
  }

  lemma ReferenceLayout(d: seq<Byte>)
    ensures Reads(Reference(9).fields, 1, d, [N4(d, 0)]) // ROSpecID
    ensures Reads(Reference(10).fields, 1, d, [N2(d, 0)]) // InventoryParameterSpecID
    ensures Reads(Reference(14).fields, 1, d, [N2(d, 0)]) // SpecIndex
    ensures Reads(Reference(15).fields, 1, d, [N2(d, 0)]) // ClientRequestOpSpecResult
    ensures Reads(Reference(16).fields, 1, d, [N4(d, 0)]) // AccessSpecID
    ensures Reads(Reference(17).fields, 1, d, [N2(d, 0)]) // OpSpecID
  {
    hide Flags, PartsOf, Uint8, Uint16, Uint32, Uint64, NumberAt, BytesAt;
  }

  lemma AirDatumLayout(d: seq<Byte>)
    ensures Reads(AirDatum(11).fields, 1, d, [N2(d, 0)]) // C1G2CRC
    ensures Reads(AirDatum(12).fields, 2, d, // C1G2PC
                  [Parts([Uint8(d, 0) / 8, Uint8(d, 0) / 4 % 2, Uint8(d, 0) / 2 % 2, Uint8(d, 0) % 2]), N1(d, 1)])
    ensures Reads(AirDatum(13).fields, 1, d, [Blob(BytesAt(d, 0, 12))]) // EPC96
    ensures Reads(AirDatum(18).fields, 2, d, [N2(d, 0), N2(d, 2)]) // C1G2SingulationDetails
    ensures Reads(AirDatum(19).fields, 1, d, [N2(d, 0)]) // C1G2XPCW1
    ensures Reads(AirDatum(20).fields, 1, d, [N2(d, 0)]) // C1G2XPCW2
  {
    hide Flags, PartsOf, Uint8, Uint16, Uint32, Uint64, NumberAt, BytesAt;
    PcAt(d, 0);
  }

  lemma TimestampLayout(d: seq<Byte>)
    ensures Reads(Timestamp(128).fields, 1, d, [N8(d, 0)]) // UTCTimestamp
    ensures Reads(Timestamp(129).fields, 1, d, [N8(d, 0)]) // Uptime
  {
    hide Flags, PartsOf, Uint8, Uint16, Uint32, Uint64, NumberAt, BytesAt;
  }

  lemma GeneralDeviceCapabilitiesLayout(d: seq<Byte>)
    ensures Reads(DeviceCapability(137).fields, 5, d,
                  [N2(d, 0), Parts([Uint8(d, 2) / 128, Uint8(d, 2) / 64 % 2]), Void, N4(d, 4), N4(d, 8)])
  {
    hide Flags, PartsOf, Uint8, Uint16, Uint32, Uint64, NumberAt, BytesAt;
    TwoFlags(d, 2);
  }

  lemma LLRPCapabilitiesLayout(d: seq<Byte>)
    ensures Reads(DeviceCapability(142).fields, 8, d,
                  [Parts([Uint8(d, 0) / 128, Uint8(d, 0) / 64 % 2, Uint8(d, 0) / 32 % 2, Uint8(d, 0) / 16 % 2,
                   Uint8(d, 0) / 8 % 2]), N1(d, 1), N2(d, 2), N4(d, 4), N4(d, 8), N4(d, 12), N4(d, 16), N4(d, 20)])
  {
    hide Flags, PartsOf, Uint8, Uint16, Uint32, Uint64, NumberAt, BytesAt;
    FiveFlags(d, 0);
  }

  lemma DeviceCapabilityLayout(d: seq<Byte>)
    ensures Reads(DeviceCapability(139).fields, 2, d, [N2(d, 0), N2(d, 2)]) // ReceiveSensitivityTableEntry
    ensures Reads(DeviceCapability(140).fields, 1, d, [N2(d, 0)]) // PerAntennaAirProtocol
    ensures Reads(DeviceCapability(141).fields, 2, d, [N2(d, 0), N2(d, 2)]) // GPIOCapabilities
    ensures Reads(DeviceCapability(149).fields, 3, d, // PerAntennaReceiveSensitivityRange
                  [N2(d, 0), N2(d, 2), N2(d, 4)])
    ensures Reads(DeviceCapability(363).fields, 1, d, [N2(d, 0)]) // MaximumReceiveSensitivity
  {
    hide Flags, PartsOf, Uint8, Uint16, Uint32, Uint64, NumberAt, BytesAt;
  }

  lemma RegulatoryLayout(d: seq<Byte>)
    ensures Reads(Regulatory(143).fields, 2, d, [N2(d, 0), N2(d, 2)]) // RegulatoryCapabilities
    ensures Reads(Regulatory(145).fields, 2, d, [N2(d, 0), N2(d, 2)]) // TransmitPowerLevelTableEntry
    ensures Reads(Regulatory(146).fields, 1, d, [Parts([Uint8(d, 0) / 128])]) // FrequencyInformation
    ensures Reads(Regulatory(147).fields, 2, d, [N1(d, 0), Void]) // FrequencyHopTable
    ensures Reads(Regulatory(365).fields, 2, d, [N4(d, 0), N4(d, 4)]) // RFSurveyFrequencyCapabilities
  {
    hide Flags, PartsOf, Uint8, Uint16, Uint32, Uint64, NumberAt, BytesAt;
    OneFlag(d, 0);
  }

  lemma ROSpecPartLayout(d: seq<Byte>)
    ensures Reads(ROSpecPart(177).fields, 3, d, [N4(d, 0), N1(d, 4), N1(d, 5)]) // ROSpec
    ensures Reads(ROSpecPart(179).fields, 1, d, [N1(d, 0)]) // ROSpecStartTrigger
    ensures Reads(ROSpecPart(180).fields, 2, d, [N4(d, 0), N4(d, 4)]) // PeriodicTriggerValue
    ensures Reads(ROSpecPart(181).fields, 3, d, [N2(d, 0), Parts([Uint8(d, 2) / 128]), N4(d, 3)]) // GPITriggerValue
    ensures Reads(ROSpecPart(182).fields, 2, d, [N1(d, 0), N4(d, 1)]) // ROSpecStopTrigger
    ensures Reads(ROSpecPart(355).fields, 1, d, [N4(d, 0)]) // LoopSpec
  {
    hide Flags, PartsOf, Uint8, Uint16, Uint32, Uint64, NumberAt, BytesAt;
    OneFlag(d, 2);
  }

  lemma AISpecPartLayout(d: seq<Byte>)
    ensures Reads(AISpecPart(184).fields, 2, d, [N1(d, 0), N4(d, 1)]) // AISpecStopTrigger
    ensures Reads(AISpecPart(185).fields, 6, d, // TagObservationTrigger
                  [N1(d, 0), Void, N2(d, 2), N2(d, 4), N2(d, 6), N4(d, 8)])
    ensures Reads(AISpecPart(186).fields, 2, d, [N2(d, 0), N1(d, 2)]) // InventoryParameterSpec
    ensures Reads(AISpecPart(187).fields, 3, d, [N2(d, 0), N4(d, 2), N4(d, 6)]) // RFSurveySpec
    ensures Reads(AISpecPart(188).fields, 3, d, [N1(d, 0), N4(d, 1), N4(d, 5)]) // RFSurveySpecStopTrigger
  {
    hide Flags, PartsOf, Uint8, Uint16, Uint32, Uint64, NumberAt, BytesAt;
  }

  lemma AccessLayout(d: seq<Byte>)
    ensures Reads(Access(207).fields, 5, d, // AccessSpec
                  [N4(d, 0), N2(d, 4), N1(d, 6), Parts([Uint8(d, 7) / 128]), N4(d, 8)])
    ensures Reads(Access(208).fields, 2, d, [N1(d, 0), N2(d, 1)]) // AccessSpecStopTrigger
    ensures Reads(Access(210).fields, 1, d, [N2(d, 0)]) // ClientRequestOpSpec
    ensures Reads(Access(211).fields, 1, d, [N4(d, 0)]) // ClientRequestResponse
  {
    hide Flags, PartsOf, Uint8, Uint16, Uint32, Uint64, NumberAt, BytesAt;
    OneFlag(d, 7);
  }

  lemma ReaderSettingLayout(d: seq<Byte>)
    ensures Reads(ReaderSetting(217).fields, 1, d, [N4(d, 0)]) // LLRPConfigurationStateValue
    ensures Reads(ReaderSetting(218).fields, 1, d, [N1(d, 0)]) // Identification
    ensures Reads(ReaderSetting(219).fields, 2, d, [N2(d, 0), Parts([Uint8(d, 2) / 128])]) // GPOWriteData
    ensures Reads(ReaderSetting(220).fields, 2, d, [N1(d, 0), N4(d, 1)]) // KeepAliveSpec
    ensures Reads(ReaderSetting(225).fields, 3, d, // GPIPortCurrentState
                  [N2(d, 0), Parts([Uint8(d, 2) / 128]), N1(d, 3)])
    ensures Reads(ReaderSetting(226).fields, 1, d, [Parts([Uint8(d, 0) / 128])]) // EventsAndReports
  {
    hide Flags, PartsOf, Uint8, Uint16, Uint32, Uint64, NumberAt, BytesAt;
    OneFlag(d, 0);
    OneFlag(d, 2);
  }

  lemma AntennaSettingLayout(d: seq<Byte>)
    ensures Reads(AntennaSetting(221).fields, 3, d, // AntennaProperties
                  [Parts([Uint8(d, 0) / 128]), N2(d, 1), N2(d, 3)])
    ensures Reads(AntennaSetting(222).fields, 1, d, [N2(d, 0)]) // AntennaConfiguration
    ensures Reads(AntennaSetting(223).fields, 1, d, [N2(d, 0)]) // RFReceiver
    ensures Reads(AntennaSetting(224).fields, 3, d, [N2(d, 0), N2(d, 2), N2(d, 4)]) // RFTransmitter
  {
    hide Flags, PartsOf, Uint8, Uint16, Uint32, Uint64, NumberAt, BytesAt;
    OneFlag(d, 0);
  }

  lemma ReportSpecLayout(d: seq<Byte>)
    ensures Reads(ReportSpec(237).fields, 2, d, [N1(d, 0), N2(d, 1)]) // ROReportSpec
    ensures Reads(ReportSpec(238).fields, 2, d, // TagReportContentSelector
                  [Parts([Uint8(d, 0) / 128, Uint8(d, 0) / 64 % 2, Uint8(d, 0) / 32 % 2, Uint8(d, 0) / 16 % 2,
                   Uint8(d, 0) / 8 % 2, Uint8(d, 0) / 4 % 2, Uint8(d, 0) / 2 % 2, Uint8(d, 0) % 2]),
                   Parts([Uint8(d, 1) / 128, Uint8(d, 1) / 64 % 2])])
    ensures Reads(ReportSpec(239).fields, 1, d, [N1(d, 0)]) // AccessReportSpec
  {
    hide Flags, PartsOf, Uint8, Uint16, Uint32, Uint64, NumberAt, BytesAt;
    EightFlags(d, 0);
    TwoFlags(d, 1);
  }

  lemma ReportLayout(d: seq<Byte>)
    ensures Reads(Report(243).fields, 4, d, [N4(d, 0), N4(d, 4), N1(d, 8), N1(d, 9)]) // FrequencyRSSILevelEntry
  {
    hide Flags, PartsOf, Uint8, Uint16, Uint32, Uint64, NumberAt, BytesAt;
  }

  lemma NotificationLayout(d: seq<Byte>)
    ensures Reads(Notification(245).fields, 2, d, [N2(d, 0), Parts([Uint8(d, 2) / 128])]) // EventNotificationState
  {
    hide Flags, PartsOf, Uint8, Uint16, Uint32, Uint64, NumberAt, BytesAt;
    OneFlag(d, 2);
  }

  lemma DeviceEventLayout(d: seq<Byte>)
    ensures Reads(DeviceEvent(247).fields, 1, d, [N2(d, 0)]) // HoppingEvent
    ensures Reads(DeviceEvent(248).fields, 2, d, [N2(d, 0), Parts([Uint8(d, 2) / 128])]) // GPIEvent
    ensures Reads(DeviceEvent(250).fields, 1, d, [N1(d, 0)]) // ReportBufferLevelWarningEvent
    ensures Reads(DeviceEvent(255).fields, 2, d, [N1(d, 0), N2(d, 1)]) // AntennaEvent
    ensures Reads(DeviceEvent(256).fields, 1, d, [N2(d, 0)]) // ConnectionAttemptEvent
  {
    hide Flags, PartsOf, Uint8, Uint16, Uint32, Uint64, NumberAt, BytesAt;
    OneFlag(d, 2);
  }

  lemma SpecEventLayout(d: seq<Byte>)
    ensures Reads(SpecEvent(249).fields, 3, d, [N1(d, 0), N4(d, 1), N4(d, 5)]) // ROSpecEvent
    ensures Reads(SpecEvent(253).fields, 2, d, [N1(d, 0), N4(d, 1)]) // RFSurveyEvent
    ensures Reads(SpecEvent(254).fields, 3, d, [N1(d, 0), N4(d, 1), N2(d, 5)]) // AISpecEvent
    ensures Reads(SpecEvent(356).fields, 2, d, [N4(d, 0), N4(d, 4)]) // SpecLoopEvent
  {
    hide Flags, PartsOf, Uint8, Uint16, Uint32, Uint64, NumberAt, BytesAt;
  }

  lemma StatusLayout(d: seq<Byte>)
    ensures Reads(Status(287).fields, 1, d, [N2(d, 0)]) // LLRPStatus
    ensures Reads(Status(288).fields, 2, d, [N2(d, 0), N2(d, 2)]) // FieldError
    ensures Reads(Status(289).fields, 2, d, [N2(d, 0), N2(d, 2)]) // ParameterError
    ensures Reads(Status(1023).fields, 2, d, [N4(d, 0), N4(d, 4)]) // Custom
  {
    hide Flags, PartsOf, Uint8, Uint16, Uint32, Uint64, NumberAt, BytesAt;
  }

  lemma Gen2CapabilityLayout(d: seq<Byte>)
    ensures Reads(Gen2Capability(327).fields, 2, d,
                  [Parts([Uint8(d, 0) / 128, Uint8(d, 0) / 64 % 2, Uint8(d, 0) / 32 % 2, Uint8(d, 0) / 16 % 2,
                   Uint8(d, 0) / 8 % 2, Uint8(d, 0) / 4 % 2]), N2(d, 1)])
  {
    hide Flags, PartsOf, Uint8, Uint16, Uint32, Uint64, NumberAt, BytesAt;
    SixFlags(d, 0);
  }

  lemma UHFC1G2RFModeTableEntryLayout(d: seq<Byte>)
    ensures Reads(Gen2Capability(329).fields, 10, d,
                  [N4(d, 0), Parts([Uint8(d, 4) / 128, Uint8(d, 4) / 64 % 2]), N1(d, 5), N1(d, 6), N1(d, 7),
                   N4(d, 8), N4(d, 12), N4(d, 16), N4(d, 20), N4(d, 24)])
  {
    hide Flags, PartsOf, Uint8, Uint16, Uint32, Uint64, NumberAt, BytesAt;
    TwoFlags(d, 4);
  }

  lemma Gen2InventoryLayout(d: seq<Byte>)
    ensures Reads(Gen2Inventory(330).fields, 1, d, [Parts([Uint8(d, 0) / 128])]) // C1G2InventoryCommand
    ensures Reads(Gen2Inventory(331).fields, 1, d, [Parts([Uint8(d, 0) / 64])]) // C1G2Filter
    ensures Reads(Gen2Inventory(332).fields, 2, d, [Parts([Uint8(d, 0) / 64]), N2(d, 1)]) // C1G2TagInventoryMask
    ensures Reads(Gen2Inventory(333).fields, 2, d, [N1(d, 0), N1(d, 1)]) // C1G2TagInventoryStateAwareFilterAction
  {
    hide Flags, PartsOf, Uint8, Uint16, Uint32, Uint64, NumberAt, BytesAt;
    OneFlag(d, 0);
    TwoBitsAt(d, 0);
  }

  lemma Gen2SingulationLayout(d: seq<Byte>)
    ensures Reads(Gen2Inventory(334).fields, 1, d, [N1(d, 0)]) // C1G2TagInventoryStateUnawareFilterAction
    ensures Reads(Gen2Inventory(335).fields, 2, d, [N2(d, 0), N2(d, 2)]) // C1G2RFControl
    ensures Reads(Gen2Inventory(336).fields, 3, d, // C1G2SingulationControl
                  [Parts([Uint8(d, 0) / 64]), N2(d, 1), N4(d, 3)])
    ensures Reads(Gen2Inventory(337).fields, 1, d, // C1G2TagInventoryStateAwareSingulationAction
                  [Parts([Uint8(d, 0) / 128, Uint8(d, 0) / 64 % 2])])
  {
    hide Flags, PartsOf, Uint8, Uint16, Uint32, Uint64, NumberAt, BytesAt;
    TwoBitsAt(d, 0);
    TwoFlags(d, 0);
  }

  lemma Gen2TargetLayout(d: seq<Byte>)
    ensures Reads(Gen2Target(339).fields, 2, d, // C1G2TargetTag
                  [Parts([Uint8(d, 0) / 64, Uint8(d, 0) / 32 % 2]), N2(d, 1)])
    ensures Reads(Gen2Target(345).fields, 2, d, [N1(d, 0), N1(d, 1)]) // C1G2LockPayload
    ensures Reads(Gen2Target(348).fields, 1, d, // C1G2EPCMemorySelector
                  [Parts([Uint8(d, 0) / 128, Uint8(d, 0) / 64 % 2, Uint8(d, 0) / 32 % 2])])
  {
    hide Flags, PartsOf, Uint8, Uint16, Uint32, Uint64, NumberAt, BytesAt;
    BankAndFlagAt(d, 0);
    ThreeFlags(d, 0);
  }

  lemma Gen2OperationLayout(d: seq<Byte>)
    ensures Reads(Gen2Operation(341).fields, 5, d, // C1G2Read
                  [N2(d, 0), N4(d, 2), Parts([Uint8(d, 6) / 64]), N2(d, 7), N2(d, 9)])
    ensures Reads(Gen2Operation(342).fields, 4, d, // C1G2Write
                  [N2(d, 0), N4(d, 2), Parts([Uint8(d, 6) / 64]), N2(d, 7)])
    ensures Reads(Gen2Operation(343).fields, 2, d, [N2(d, 0), N4(d, 2)]) // C1G2Kill
    ensures Reads(Gen2Operation(344).fields, 2, d, [N2(d, 0), N4(d, 2)]) // C1G2Lock
    ensures Reads(Gen2Operation(346).fields, 5, d, // C1G2BlockErase
                  [N2(d, 0), N4(d, 2), Parts([Uint8(d, 6) / 64]), N2(d, 7), N2(d, 9)])
    ensures Reads(Gen2Operation(347).fields, 4, d, // C1G2BlockWrite
                  [N2(d, 0), N4(d, 2), Parts([Uint8(d, 6) / 64]), N2(d, 7)])
  {
    hide Flags, PartsOf, Uint8, Uint16, Uint32, Uint64, NumberAt, BytesAt;
    TwoBitsAt(d, 6);
  }

  lemma Gen2LaterOperationLayout(d: seq<Byte>)
    ensures Reads(Gen2LaterOperation(357).fields, 3, d, // C1G2Recommission
                  [N2(d, 0), N4(d, 2), Parts([Uint8(d, 6) / 4 % 2, Uint8(d, 6) / 2 % 2, Uint8(d, 6) % 2])])
    ensures Reads(Gen2LaterOperation(358).fields, 4, d, // C1G2BlockPermalock
                  [N2(d, 0), N4(d, 2), Parts([Uint8(d, 6) / 64]), N2(d, 7)])
    ensures Reads(Gen2LaterOperation(359).fields, 5, d, // C1G2GetBlockPermalockStatus
                  [N2(d, 0), N4(d, 2), Parts([Uint8(d, 6) / 64]), N2(d, 7), N2(d, 9)])
  {
    hide Flags, PartsOf, Uint8, Uint16, Uint32, Uint64, NumberAt, BytesAt;
    LastThreeFlags(d, 6);
    TwoBitsAt(d, 6);
  }

  lemma Gen2ResultLayout(d: seq<Byte>)
    ensures Reads(Gen2Result(349).fields, 2, d, [N1(d, 0), N2(d, 1)]) // C1G2ReadOpSpecResult
    ensures Reads(Gen2Result(350).fields, 3, d, [N1(d, 0), N2(d, 1), N2(d, 3)]) // C1G2WriteOpSpecResult
    ensures Reads(Gen2Result(351).fields, 2, d, [N1(d, 0), N2(d, 1)]) // C1G2KillOpSpecResult
    ensures Reads(Gen2Result(352).fields, 2, d, [N1(d, 0), N2(d, 1)]) // C1G2LockOpSpecResult
    ensures Reads(Gen2Result(353).fields, 2, d, [N1(d, 0), N2(d, 1)]) // C1G2BlockEraseOpSpecResult
    ensures Reads(Gen2Result(354).fields, 3, d, [N1(d, 0), N2(d, 1), N2(d, 3)]) // C1G2BlockWriteOpSpecResult
    ensures Reads(Gen2Result(360).fields, 2, d, [N1(d, 0), N2(d, 1)]) // C1G2RecommissionOpSpecResult
    ensures Reads(Gen2Result(361).fields, 2, d, [N1(d, 0), N2(d, 1)]) // C1G2BlockPermalockOpSpecResult
    ensures Reads(Gen2Result(362).fields, 2, d, [N1(d, 0), N2(d, 1)]) // C1G2GetBlockPermalockStatusOpSpecResult
  {
    hide Flags, PartsOf, Uint8, Uint16, Uint32, Uint64, NumberAt, BytesAt;
  }

  // ---- messages ----

  lemma ThreeBitsAt(d: seq<Byte>, at: nat)
    ensures FixedAt(Packed([BitPart(0, 3)]), d, at) == Parts([Uint8(d, at) / 32])
  {
    Powers();
    hide Pow2;
  }

  lemma MessageLayout(d: seq<Byte>)
    ensures Reads(M.Other(56).fields, 2, d, // GetSupportedVersionResponse
                  [Parts([Uint8(d, 0) / 32]), Parts([Uint8(d, 1) / 32])])
    ensures Reads(M.Other(47).fields, 1, d, [Parts([Uint8(d, 0) / 32])]) // SetProtocolVersion
    ensures Reads(M.Other(1).fields, 1, d, [N1(d, 0)]) // GetReaderCapabilities
    ensures Reads(M.Other(2).fields, 4, d, [N2(d, 0), N1(d, 2), N2(d, 3), N2(d, 5)]) // GetReaderConfig
    ensures Reads(M.Other(3).fields, 1, d, [Parts([Uint8(d, 0) / 128])]) // SetReaderConfig
    ensures Reads(M.Other(1023).fields, 2, d, [N4(d, 0), N1(d, 4)]) // CustomMessage
  {
    hide Flags, PartsOf, Uint8, Uint16, Uint32, Uint64, NumberAt, BytesAt;
    OneFlag(d, 0);
    ThreeBitsAt(d, 0);
    ThreeBitsAt(d, 1);
  }

  lemma SpecIdLayout(typ: nat, d: seq<Byte>)
    requires M.IsSpecId(typ)
    ensures Reads(M.Body(typ).fields, 1, d, [N4(d, 0)])
  {}

  // ---- what is decoded and encoded ----

  lemma FieldsAreOk(id: nat)
    requires IsParameter(id)
    ensures Closed(Llrp()) && id in Llrp() && Llrp()[id] == Definition(id) && TailOk(Definition(id))
    ensures forall k :: 0 <= k < |Definition(id).fields| ==> FieldOk(Definition(id).fields[k])
  {
    hide Definition, IsParameter, FieldOk, Closed, GroupsGood, Measured, Visible, Good;
    LlrpIsGood();
    IsDefined(id);
    GoodContainer(Llrp(), id);
  }

  lemma IsDefined(id: nat)
    requires IsParameter(id)
    ensures id in Llrp() && Llrp()[id] == Definition(id)
  {
    hide Definition;
    BelowLimit(id);
  }

  lemma BelowLimit(id: nat)
    requires IsParameter(id)
    ensures id < 1024
  {}

  /** Whatever is decoded as an LLRP parameter has the values that stand at its offsets, and
      whatever is encoded has them there. */
  lemma ParameterValues(id: nat, d: seq<Byte>, n: nat, vs: seq<FieldValue>)
    requires IsParameter(id) && Reads(Definition(id).fields, n, d, vs)
    ensures Closed(Llrp()) && id in Llrp() && n <= |vs|
    ensures var r := UnmarshalBinary(Llrp(), id, d);
            r.Ok? ==> n <= |r.value.fields| && r.value.fields[..n] == vs[..n]
    ensures forall v: Value :: WellFormed(Llrp(), id, v) && Body(Llrp(), id, v) == d ==>
              n <= |v.fields| && v.fields[..n] == vs[..n]
  {
    hide Definition, Llrp, Reads, UnmarshalBinary, WellFormed, Body, IsParameter, FieldOk, Closed;
    FieldsAreOk(id);
    ReadsFit(Definition(id).fields, n, d, vs);
    DecodedFields(Llrp(), id, d, n, vs);
    forall v: Value | WellFormed(Llrp(), id, v) && Body(Llrp(), id, v) == d
      ensures n <= |v.fields| && v.fields[..n] == vs[..n]
    {
      EncodedFields(Llrp(), id, v, n, vs);
    }
  }

  /** The same for messages. */
  lemma MessageValues(typ: nat, d: seq<Byte>, n: nat, vs: seq<FieldValue>)
    requires M.IsMessage(typ) && Reads(M.Body(typ).fields, n, d, vs)
    ensures Closed(Llrp()) && GroupsRefer(Llrp(), M.Body(typ).groups) && n <= |vs|
    ensures var r := UnmarshalMessage(Llrp(), M.Body(typ), d);
            r.Ok? ==> n <= |r.value.fields| && r.value.fields[..n] == vs[..n]
    ensures forall v: Value ::
              MessageWellFormed(Llrp(), M.Body(typ), v) && MessageBytes(Llrp(), M.Body(typ), v) == d ==>
              n <= |v.fields| && v.fields[..n] == vs[..n]
  {
    hide Llrp, Reads, MessageWellFormed, MessageBytes, FieldOk, Closed, Good, DecodeFieldsFrom, DecodeGroups,
         GroupsGood, Visible, KnownAfter, RequiredMin;
    var c := M.Body(typ);
    LlrpIsGood();
    M.BodyIsGood(typ);
    hide M.Body;
    ReadsFit(c.fields, n, d, vs);
    AllAreRead(c, d, n, vs);
    forall v: Value | MessageWellFormed(Llrp(), c, v) && MessageBytes(Llrp(), c, v) == d
      ensures n <= |v.fields| && v.fields[..n] == vs[..n]
    {
      MessageIsRead(c, v, d);
    }
  }

  lemma MessageIsRead(c: Container, v: Value, d: seq<Byte>)
    requires MessageWellFormed(Llrp(), c, v) && MessageBytes(Llrp(), c, v) == d && TailOk(c)
    requires forall k :: 0 <= k < |c.fields| ==> FieldOk(c.fields[k])
    ensures DecodeFieldsFrom(c, 0, d, 0).Ok? && DecodeFieldsFrom(c, 0, d, 0).value.0 == v.fields
  {
    hide Llrp, DecodeFieldsFrom, FieldOk, GroupsHeaders, EmitAll, GroupsWellFormed, EncodeFields;
    var tail := EmitAll(GroupsHeaders(Llrp(), c.groups, v.groups));
    NoTailWithoutGroups(Llrp(), c.groups, v.groups);
    FieldsRoundTrip(c, v.fields, 0, [], tail);
    assert c.fields[0..] == c.fields && v.fields[0..] == v.fields;
    assert [] + EncodeFields(c.fields, v.fields) + tail == d;
  }

  // ---- messages of fixed length ----

  lemma FixedBodies(typ: nat)
    requires M.IsBare(typ) || M.IsSpecId(typ) || typ == 47
    ensures M.IsMessage(typ)
    ensures var c := M.Body(typ);
            && c.fixed && c.groups == [] && AllFixed(c.fields)
            && (M.IsBare(typ) ==> c.fields == []) && (!M.IsBare(typ) ==> c.fields != [])
            && c.minSize == MinSizes(c.fields) == if M.IsBare(typ) then 0 else if typ == 47 then 1 else 4
  {}

  lemma FixedMessage(s: Schema, c: Container, d: seq<Byte>, v: FieldValue)
    requires Closed(s) && c.fixed && c.groups == [] && AllFixed(c.fields) && |c.fields| == 1 && FieldOk(c.fields[0])
    requires c.minSize == MinSizes(c.fields) && Reads(c.fields, 1, d, [v])
    ensures UnmarshalMessage(s, c, d) == if |d| == c.minSize then Ok(Value([v], [])) else Reject
  {
    hide Closed, Reads, DecodeFieldsFrom, FieldOk, MinSizes, AllFixed, KnownAfter, DecodeGroups;
    assert c.fields[0..] == c.fields;
    UnmarshalLoops.GroupsEnd(s, d, KnownAfter(c.fields, c.minSize), false);
    if |d| == c.minSize {
      FixedFieldsDecode(c, 0, d, 0);
      AllAreRead(c, d, 1, [v]);
      var r := DecodeFieldsFrom(c, 0, d, 0).value;
      assert r.0[..1] == r.0 && [v][..1] == [v];
      UnmarshalLoops.GroupsEnd(s, r.1, KnownAfter(c.fields, c.minSize), false);
    }
  }

  /** Messages without sub-parameters or variable fields are accepted at exactly one length:
      header-only ones when empty, those that name a ROSpec or AccessSpec at four bytes, and
      SetProtocolVersion at one. */
  lemma ExactLengths(typ: nat, d: seq<Byte>)
    requires M.IsBare(typ) || M.IsSpecId(typ) || typ == 47
    ensures Closed(Llrp()) && M.IsMessage(typ) && GroupsRefer(Llrp(), M.Body(typ).groups)
    ensures UnmarshalMessage(Llrp(), M.Body(typ), d)
            == if M.IsBare(typ) then if d == [] then Ok(Value([], [])) else Reject
               else if M.IsSpecId(typ) then if |d| == 4 then Ok(Value([N4(d, 0)], [])) else Reject
               else if |d| == 1 then Ok(Value([Parts([Uint8(d, 0) / 32])], [])) else Reject
  {
    hide Llrp, Good, Closed, Uint8, Uint32, FieldOk, GroupsGood, Visible, RequiredMin;
    LlrpIsGood();
    FixedBodies(typ);
    M.BodyIsGood(typ);
    if M.IsSpecId(typ) {
      SpecIdLayout(typ, d);
    }
    MessageLayout(d);
    hide M.Body, M.Other, M.IsMessage, Reads, MessageGood;
    var c := M.Body(typ);
    if c.fields != [] {
      FixedMessage(Llrp(), c, d, if typ == 47 then Parts([Uint8(d, 0) / 32]) else N4(d, 0));
    }
  }

  /** No data that is shorter than a parameter's or message's fields and required parameters
      at their smallest is accepted, and none of it is read out of bounds. */
  lemma ShortIsRejected(id: nat, typ: nat, d: seq<Byte>)
    requires IsParameter(id) && M.IsMessage(typ)
    ensures Closed(Llrp()) && id in Llrp() && GroupsRefer(Llrp(), M.Body(typ).groups)
    ensures HeaderSize(id) + |d| < SizeBound(Llrp(), id) ==> UnmarshalBinary(Llrp(), id, d) == Reject
    ensures |d| < MinSizes(M.Body(typ).fields) + RequiredMin(Llrp(), M.Body(typ).groups) ==>
              UnmarshalMessage(Llrp(), M.Body(typ), d) == Reject
  {
    hide Llrp, Good, Closed, FieldOk, GroupsGood, Visible, RequiredMin, SizeBound, IsParameter, Definition, M.Body,
         M.IsMessage, MinSizes, DecodeFieldsFrom, DecodeGroups, KnownAfter, HeaderSize;
    LlrpIsGood();
    IsDefined(id);
    M.BodyIsGood(typ);
    if M.Body(typ).fields == [] && M.Body(typ).groups == [] {
      NothingIsRequired(Llrp(), M.Body(typ));
    }
  }

  lemma NothingIsRequired(s: Schema, c: Container)
    requires c.fields == [] && c.groups == [] && GroupsRefer(s, c.groups)
    ensures MinSizes(c.fields) + RequiredMin(s, c.groups) == 0
  {}

  // ---- two of them from end to end ----

  /** EventNotificationState on the wire: the event's type and, in the highest bit of the
      third byte, whether it is enabled. */
  lemma EventNotificationStateBytes(hi: Byte, lo: Byte, b: Byte)
    ensures Closed(Llrp()) && 245 in Llrp()
    ensures UnmarshalBinary(Llrp(), 245, [hi, lo, b]) == Ok(Value([Num(256 * hi + lo), Parts([b / 128])], []))
    ensures forall flag: nat :: flag < 2 ==>
              var v := Value([Num(256 * hi + lo), Parts([flag])], []);
              WellFormed(Llrp(), 245, v) && Body(Llrp(), 245, v) == [hi, lo, 128 * flag]
  {
    hide Llrp, Flags, UnmarshalBinary, PartsOf, Closed, FieldOk;
    var d := [hi, lo, b];
    NotificationLayout(d);
    FieldsAreOk(245);
    FixedDecodes(Llrp(), 245, d, 2, [N2(d, 0), Parts([Uint8(d, 2) / 128])]);
    forall flag: nat | flag < 2
      ensures var v := Value([Num(256 * hi + lo), Parts([flag])], []);
              WellFormed(Llrp(), 245, v) && Body(Llrp(), 245, v) == [hi, lo, 128 * flag]
    {
      StateBody(hi, lo, flag);
    }
  }

  lemma StateBody(hi: Byte, lo: Byte, flag: nat)
    requires flag < 2
    ensures var v := Value([Num(256 * hi + lo), Parts([flag])], []);
            WellFormed(Llrp(), 245, v) && Body(Llrp(), 245, v) == [hi, lo, 128 * flag]
  {
    IsDefined(245);
    assert Definition(245).fields == [Scalar(2), Flags(0, 1)] && Definition(245).groups == [];
    hide Llrp, Flags, Definition, EncodeFields, ValueOk;
    OneFlagWritten(flag);
    TwoBytesFit(256 * hi + lo);
    StateFields(hi, lo, flag);
    NothingEmitted();
  }

  lemma TwoBytesFit(n: nat)
    requires n < 0x1_0000
    ensures ValueOk(Scalar(2), Num(n))
  {
    assert Pow256(2) == 0x1_0000;
  }

  lemma StateFields(hi: Byte, lo: Byte, flag: nat)
    requires flag < 2
    ensures EncodeFields([Scalar(2), Flags(0, 1)], [Num(256 * hi + lo), Parts([flag])]) == [hi, lo, 128 * flag]
  {
    hide Flags, EncodeField;
    var n, fs, vs := 256 * hi + lo, [Scalar(2), Flags(0, 1)], [Num(256 * hi + lo), Parts([flag])];
    OneFlagWritten(flag);
    ScalarWritten(n);
    assert EncodeFields(fs[1..], vs[1..]) == EncodeField(Flags(0, 1), Parts([flag])) + EncodeFields([], []);
    assert EncodeFields(fs, vs) == EncodeField(Scalar(2), Num(n)) + EncodeFields(fs[1..], vs[1..]);
  }

  lemma ScalarWritten(n: nat)
    requires n < 0x1_0000
    ensures EncodeField(Scalar(2), Num(n)) == [n / 256, n % 256]
  {
    BigEndian2(n);
  }

  lemma OneFlagWritten(flag: nat)
    requires flag < 2
    ensures ValueOk(Flags(0, 1), Parts([flag])) && EncodeField(Flags(0, 1), Parts([flag])) == [128 * flag]
  {
    Powers();
    hide Pow2, Pack, PlaceSum;
    FlagsWritten(0, 1, [flag]);
    assert [flag][1..] == [];
    assert FlagSum([flag][1..], 1) == 0;
  }

  lemma TwoFlagsValue(v: FieldValue)
    requires ValueOk(Flags(0, 2), v)
    ensures v.Parts? && |v.vals| == 2
    ensures EncodeField(Flags(0, 2), v) == [128 * v.vals[0] + 64 * v.vals[1]]
  {
    Powers();
    assert PartValues(Flags(0, 2).parts, v.vals) && |v.vals| == 2;
    assert v.vals[0] < Pow2(Flags(0, 2).parts[0].width) && v.vals[1] < Pow2(Flags(0, 2).parts[1].width);
    hide Pow2, Pack, PlaceSum, Flags;
    FlagsWritten(0, 2, v.vals);
    assert v.vals[1..][1..] == [];
    assert FlagSum(v.vals[1..], 1) == v.vals[1] * Pow2(6) + FlagSum(v.vals[1..][1..], 2);
  }

  /** GeneralDeviceCapabilities, which every probe asks for: what is read from its first
      fourteen bytes, and how its flags and its reserved byte are written. */
  lemma GeneralDeviceCapabilitiesBytes(d: seq<Byte>, v: Value)
    ensures Closed(Llrp()) && 137 in Llrp()
    ensures UnmarshalBinary(Llrp(), 137, d) == Ok(v) ==>
              |v.fields| >= 5
              && v.fields[..5] == [N2(d, 0), Parts([Uint8(d, 2) / 128, Uint8(d, 2) / 64 % 2]), Void, N4(d, 4), N4(d, 8)]
    ensures WellFormed(Llrp(), 137, v) ==>
              var b := Body(Llrp(), 137, v);
              && |b| >= 4 && |v.fields| >= 2 && v.fields[1].Parts? && |v.fields[1].vals| == 2
              && b[2] == 128 * v.fields[1].vals[0] + 64 * v.fields[1].vals[1]
              && b[3] == 0
  {
    hide Llrp, UnmarshalBinary, Closed, FieldOk, PartsOf, Body, Flags;
    FieldsAreOk(137);
    var vs := [N2(d, 0), Parts([Uint8(d, 2) / 128, Uint8(d, 2) / 64 % 2]), Void, N4(d, 4), N4(d, 8)];
    GeneralDeviceCapabilitiesLayout(d);
    ParameterValues(137, d, 5, vs);
    assert vs[..5] == vs;
    if WellFormed(Llrp(), 137, v) {
      CapabilitiesWritten(v);
    }
  }

  lemma CapabilitiesWritten(v: Value)
    requires WellFormed(Llrp(), 137, v)
    ensures var b := Body(Llrp(), 137, v);
            && |b| >= 4 && |v.fields| >= 2 && v.fields[1].Parts? && |v.fields[1].vals| == 2
            && b[2] == 128 * v.fields[1].vals[0] + 64 * v.fields[1].vals[1]
            && b[3] == 0
  {
    IsDefined(137);
    CapabilitiesFields();
    hide Llrp, Body, Flags, Definition, OffsetOf, WellFormed, ValueOk;
    var b := Body(Llrp(), 137, v);
    SecondValue(Llrp(), 137, v);
    FieldIsWritten(Llrp(), 137, v, 1);
    FieldIsWritten(Llrp(), 137, v, 2);
    TwoFlagsValue(v.fields[1]);
    assert b[2] == b[2..3][0] && b[3] == b[3..4][0];
  }

  lemma SecondValue(s: Schema, id: nat, v: Value)
    requires WellFormed(s, id, v) && |s[id].fields| >= 2
    ensures |v.fields| == |s[id].fields| && ValueOk(s[id].fields[1], v.fields[1])
  {}

  lemma CapabilitiesFields()
    ensures var fs := Definition(137).fields;
            && |fs| == 6 && fs[0] == Scalar(2) && fs[1] == Flags(0, 2) && fs[1].Packed? && fs[2] == Padding(1)
            && OffsetOf(fs, 1) == 2 && OffsetOf(fs, 2) == 3
  {
    hide Flags;
    FlagsOk(0, 2);
  }
}
