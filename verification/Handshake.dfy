/** The messages that open a connection, as their payloads decode: the first one, and the
    answers to version negotiation. */
module Handshake {
  import opened Bytes
  import opened Outcomes
  import opened Fields
  import opened Schema
  import opened RoundTrip
  import E = Encoder
  import opened Parameters
  import opened LlrpSchema
  import opened MessageCodec
  import opened LlrpMessages
  import Framing
  import opened M = Messages

  const READER_EVENT_NOTIFICATION := 63
  const GET_SUPPORTED_VERSION_RESPONSE := 56
  const SET_PROTOCOL_VERSION_RESPONSE := 57
  const ERROR_MESSAGE := 100

  const CONN_SUCCESS := 0
  const STATUS_SUCCESS := 0
  const STATUS_VERSION_UNSUPPORTED := 110

  // ---- reading decoded messages ----

  function Decoded(typ: nat, payload: seq<Byte>): Outcome<Value>
    requires IsMessage(typ)
  {
    LlrpIsGood();
    BodyIsGood(typ);
    UnmarshalMessage(Llrp(), Body(typ), payload)
  }

  /** The first parameter present in a slot of a group. */
  function Nested(v: Value, group: nat, slot: nat): Option<Value> {
    if group < |v.groups| && slot < |v.groups[group].slots| && v.groups[group].slots[slot].items != [] then
      Some(v.groups[group].slots[slot].items[0])
    else None
  }

  function Number(v: Value, i: nat): Option<nat> {
    if i >= |v.fields| then None
    else
      match v.fields[i]
      case Num(n) => Some(n)
      case Parts(vals) => if |vals| == 1 then Some(vals[0]) else None
      case _ => None
  }

  /** The ConnectionAttemptEvent, the tenth of the events a notification's data may hold. */
  function ConnectionAttempt(notification: Value): Option<nat> {
    match Nested(notification, 0, 0)
    case None => None
    case Some(data) =>
      match Nested(data, 1, 9)
      case None => None
      case Some(event) => Number(event, 0)
  }

  /** The status code of a response that starts its groups with an LLRPStatus. */
  function StatusCode(response: Value): Option<nat> {
    match Nested(response, 0, 0)
    case None => None
    case Some(status) => Number(status, 0)
  }

  // ---- the three checks ----

  /** `checkInitialMessage`, given the header's type and the payload. */
  function InitialCheck(typ: nat, payload: seq<Byte>): Outcome<()> {
    if |payload| > Framing.MAX_BUFFERED || typ != READER_EVENT_NOTIFICATION then Reject
    else
      var v :- Decoded(READER_EVENT_NOTIFICATION, payload);
      if ConnectionAttempt(v) == Some(CONN_SUCCESS) then Ok(()) else Reject
  }

  /** `getSupportedVersion`, given the reply. A reply too large to be buffered arrives
      without a reader, which is then read from. A reader that knows no other version than
      1.0.1 answers with an error saying so. */
  function SupportedVersions(typ: nat, payload: seq<Byte>): Outcome<Versions> {
    if |payload| > Framing.MAX_BUFFERED then Panic
    else if typ == ERROR_MESSAGE then
      var v :- Decoded(ERROR_MESSAGE, payload);
      var code := StatusCode(v);
      if code == Some(STATUS_VERSION_UNSUPPORTED) || code == Some(STATUS_SUCCESS) then
        Ok(Versions(VERSION_1_0_1, VERSION_1_0_1))
      else Reject
    else if typ == GET_SUPPORTED_VERSION_RESPONSE then
      var v :- Decoded(GET_SUPPORTED_VERSION_RESPONSE, payload);
      if StatusCode(v) == Some(STATUS_SUCCESS) && Number(v, 0).Some? && Number(v, 1).Some? then
        Ok(Versions(Number(v, 0).value, Number(v, 1).value))
      else Reject
    else Reject
  }

  /** What `negotiate` makes of the reply to SetProtocolVersion. A reply too large to be
      buffered is taken to be empty. */
  function VersionSet(typ: nat, payload: seq<Byte>): Outcome<()> {
    if typ != SET_PROTOCOL_VERSION_RESPONSE then Reject
    else
      var v :- Decoded(SET_PROTOCOL_VERSION_RESPONSE, if |payload| > Framing.MAX_BUFFERED then [] else payload);
      if StatusCode(v) == Some(STATUS_SUCCESS) then Ok(()) else Reject
  }

  // ---- they accept what they should ----

  /** A message's encoding decodes to the message if it is clean. */
  lemma DecodesBack(typ: nat, v: Value)
    requires IsMessage(typ) && MessageWellFormed(Llrp(), Body(typ), v)
    requires AllFit(E.GroupsHeaders(Llrp(), Body(typ).groups, v.groups))
    ensures GroupsClean(Llrp(), Body(typ).groups, v.groups) || !CarriesLossy(typ) ==>
              Decoded(typ, MessageBytes(Llrp(), Body(typ), v)) == Ok(v)
  {
    hide Llrp, Body, AllFit, MessageBytes, UnmarshalMessage, MarshalledMessage, Good, GroupsClean, MessageWellFormed,
         CarriesLossy, IsMessage;
    LlrpMessageRoundTrip(typ, v);
    if !CarriesLossy(typ) {
      PlainMessagesRoundTrip(typ, v);
    }
  }

  /** An encoded notification is accepted exactly if it reports a successful connection, as
      long as it is clean and can be buffered. */
  lemma InitialAccepted(v: Value)
    requires MessageWellFormed(Llrp(), Body(63), v) && AllFit(E.GroupsHeaders(Llrp(), Body(63).groups, v.groups))
    requires GroupsClean(Llrp(), Body(63).groups, v.groups)
    requires |MessageBytes(Llrp(), Body(63), v)| <= Framing.MAX_BUFFERED
    ensures InitialCheck(READER_EVENT_NOTIFICATION, MessageBytes(Llrp(), Body(63), v))
            == if ConnectionAttempt(v) == Some(CONN_SUCCESS) then Ok(()) else Reject
  {
    hide Llrp, Body, AllFit, MessageBytes, GroupsClean, MessageWellFormed, Decoded, ConnectionAttempt;
    DecodesBack(63, v);
  }

  /** An encoded GetSupportedVersionResponse of a reader that reports success yields its two
      versions, and any other is refused. */
  lemma VersionsRead(v: Value)
    requires MessageWellFormed(Llrp(), Body(56), v) && AllFit(E.GroupsHeaders(Llrp(), Body(56).groups, v.groups))
    requires |MessageBytes(Llrp(), Body(56), v)| <= Framing.MAX_BUFFERED
    ensures |v.fields| == 2 && v.fields[0].Parts? && v.fields[1].Parts?
    ensures |v.fields[0].vals| == 1 && |v.fields[1].vals| == 1
    ensures SupportedVersions(GET_SUPPORTED_VERSION_RESPONSE, MessageBytes(Llrp(), Body(56), v))
            == if StatusCode(v) == Some(STATUS_SUCCESS) then Ok(Versions(v.fields[0].vals[0], v.fields[1].vals[0]))
               else Reject
  {
    hide Llrp, AllFit, MessageBytes, GroupsWellFormed, Decoded, StatusCode;
    TwoVersions(v);
    DecodesBack(56, v);
  }

  lemma TwoVersions(v: Value)
    requires MessageWellFormed(Llrp(), Body(56), v)
    ensures |v.fields| == 2 && v.fields[0].Parts? && v.fields[1].Parts?
    ensures |v.fields[0].vals| == 1 && |v.fields[1].vals| == 1
  {
    hide Llrp, GroupsWellFormed;
    assert Body(56).fields == [Packed([BitPart(0, 3)]), Packed([BitPart(0, 3)])];
    assert ValueOk(Body(56).fields[0], v.fields[0]) && ValueOk(Body(56).fields[1], v.fields[1]);
  }

  /** A reader of version 1.0.1, which does not know the question, is taken at its word. */
  lemma OldReaderIsUnderstood(v: Value)
    requires MessageWellFormed(Llrp(), Body(100), v) && AllFit(E.GroupsHeaders(Llrp(), Body(100).groups, v.groups))
    requires |MessageBytes(Llrp(), Body(100), v)| <= Framing.MAX_BUFFERED
    ensures SupportedVersions(ERROR_MESSAGE, MessageBytes(Llrp(), Body(100), v))
            == if StatusCode(v) == Some(STATUS_VERSION_UNSUPPORTED) || StatusCode(v) == Some(STATUS_SUCCESS) then
                 Ok(Versions(VERSION_1_0_1, VERSION_1_0_1))
               else Reject
  {
    hide Llrp, Body, AllFit, MessageBytes, GroupsClean, MessageWellFormed, Decoded, StatusCode;
    DecodesBack(100, v);
  }

  /** An encoded SetProtocolVersionResponse is accepted exactly if it reports success. */
  lemma SettingAccepted(v: Value)
    requires MessageWellFormed(Llrp(), Body(57), v) && AllFit(E.GroupsHeaders(Llrp(), Body(57).groups, v.groups))
    requires |MessageBytes(Llrp(), Body(57), v)| <= Framing.MAX_BUFFERED
    ensures VersionSet(SET_PROTOCOL_VERSION_RESPONSE, MessageBytes(Llrp(), Body(57), v))
            == if StatusCode(v) == Some(STATUS_SUCCESS) then Ok(()) else Reject
  {
    hide Llrp, Body, AllFit, MessageBytes, GroupsClean, MessageWellFormed, Decoded, StatusCode;
    DecodesBack(57, v);
  }
}
