/** The client's connection protocol as a state machine: one step per select, critical
    section or channel operation of the writer loop, the reader loop, any number of
    senders and closers, and `Connect`. */
module Protocol {
  import opened Bytes
  import opened Outcomes
  import opened Messages
  import Framing

  const ACK_QUEUE_SIZE := 5

  // ---- state ----

  /** A message from the reader, all of it there. */
  datatype Incoming = Incoming(typ: nat, id: nat, payload: seq<Byte>)

  /** `SendMessage`, `SendNoWait`, and the two sends `Connect` makes itself. */
  datatype Kind = Awaited | NoWait | AskVersion | SetVersion

  datatype Phase =
    | Gate                      // waiting for `ready`
    | Queueing                  // offering the request on `sendQueue`
    | Accepted                  // waiting for the token
    | Awaiting                  // waiting for the reply
    | Cancelling                // about to call `token.cancel`
    | Answered(reply: Incoming) // returned the reply
    | Delivered                 // SendNoWait returned nil
    | Failed                    // returned an error

  /** A reply channel of capacity one, with how often it was sent to and closed. */
  datatype Channel = Channel(made: bool, buffer: Option<Incoming>, sends: nat, closes: nat)

  /** A call of `send` or `SendNoWait`; `preset` and `version` are its message's own. */
  datatype Call = Call(kind: Kind, typ: nat, preset: nat, version: nat, phase: Phase, id: nat, chan: Channel,
                       token: bool)

  /** A message the writer has in hand; an ack comes from no call. */
  datatype Out = Out(typ: nat, id: nat, version: nat, origin: Option<nat>)

  datatype Writer =
    | Unstarted
    | First             // the outer select, which prefers acks
    | Second            // the inner select
    | Registering(k: nat)
    | Tokening(k: nat)
    | Writing(out: Out)
    | ClosedOut         // CloseConnection is written; waiting for `done`
    | WriterDone

  datatype Reader =
    | NotReading
    | Awake
    | Delivering(k: nat, m: Incoming)
    | Completing(k: nat, m: Incoming)
    | Handling(m: Incoming)
    | ReaderDone

  datatype Connect = Initial | Asking(k: nat) | Setting(k: nat) | Opening | Serving | Finished

  /** A queued KeepAlive id and the number of requests written since it was queued. */
  datatype Queued = Queued(id: nat, passed: nat)

  /** `ready` and what `Connect` learns from the first message and negotiates; `openedAt` is
      how much had been written when it opened the gate. */
  datatype Session = Session(connect: Connect, ready: bool, negotiated: bool, openedAt: nat,
                             configured: nat, version: nat, first: Option<Incoming>, supported: Option<Versions>)

  /** `isClosed`, the winners that have not closed `done` yet, how often it was closed, and
      how many callers were returned nil. */
  datatype Closing = Closing(isClosed: bool, pending: nat, dones: nat, nils: nat)

  /** `ackQueue`, with the ids of all KeepAlives received, queued, and taken to be acked. */
  datatype Acks = Acks(queue: seq<Queued>, received: seq<nat>, accepted: seq<nat>, acked: seq<nat>)

  datatype State = State(session: Session, closing: Closing, writer: Writer, reader: Reader,
                         nextId: nat, awaiting: map<nat, nat>, calls: seq<Call>, acks: Acks, wire: seq<Out>)
  {
    /** `done` is closed. */
    predicate Done() {
      closing.dones > 0
    }
  }

  function Start(configured: nat): State {
    State(Session(Initial, false, false, 0, configured, configured, None, None), Closing(false, 0, 0, 0),
          Unstarted, NotReading, 0, map[], [], Acks([], [], [], []), [])
  }

  // ---- steps ----

  datatype SenderStep =
    | NewCall(kind: Kind, typ: nat, preset: nat, version: nat)
    | PassGate(k: nat)
    | GiveUp(k: nat)
    | GetToken(k: nat)
    | GetReply(k: nat)
    | StopWaiting(k: nat)
    | Cancel(k: nat)

  datatype WriterStep = PickAck | NoAck | Take(k: nat) | Register | Token | Write | WriterStops

  datatype ReaderStep = Arrive(m: Incoming) | Deliver | Abandon | Complete | Handle | ReaderStops

  /** The steps of `Connect` and of `Close`. */
  datatype ControlStep =
    | InitialOk(m: Incoming)
    | InitialFails(first: Option<Incoming>)
    | VersionsKnown(versions: Versions)
    | VersionAccepted
    | Open
    | ConnectFails
    | CloseWins
    | CloseDone

  datatype Event = Sending(s: SenderStep) | Outgoing(w: WriterStep) | Reading(r: ReaderStep) | Control(c: ControlStep)

  predicate External(kind: Kind) {
    kind == Awaited || kind == NoWait
  }

  predicate InPhase(s: State, k: nat, phase: Phase) {
    k < |s.calls| && s.calls[k].phase == phase
  }

  predicate IsAnswered(s: State, k: nat) {
    k < |s.calls| && s.calls[k].phase.Answered?
  }

  // When a step can happen: a context may expire at any time, a write or read fail at any
  // time; the run has fewer than 2^32 messages. What `Connect` makes of the messages it is
  // answered with is left open here; ClientOpening says it.

  predicate SenderEnabled(s: State, e: SenderStep) {
    match e
    case NewCall(kind, _, preset, version) =>
      External(kind) && (kind == Awaited ==> preset == 0 && version == VERSION_1_0_1)
    case PassGate(k) => InPhase(s, k, Gate) && s.session.ready
    case GiveUp(k) => InPhase(s, k, Gate) || InPhase(s, k, Queueing)
    case GetToken(k) => InPhase(s, k, Accepted) && s.calls[k].token
    case GetReply(k) => InPhase(s, k, Awaiting) && s.calls[k].chan.buffer.Some?
    case StopWaiting(k) => InPhase(s, k, Awaiting)
    case Cancel(k) => InPhase(s, k, Cancelling)
  }

  predicate WriterEnabled(s: State, e: WriterStep) {
    match e
    case PickAck => (s.writer == First || s.writer == Second) && s.acks.queue != []
    case NoAck => s.writer == First && s.acks.queue == [] && !s.Done()
    case Take(k) => s.writer == Second && InPhase(s, k, Queueing) && s.nextId < 0x1_0000_0000
    case Register => s.writer.Registering? && s.writer.k < |s.calls|
    case Token => s.writer.Tokening? && s.writer.k < |s.calls|
    case Write => s.writer.Writing?
    case WriterStops => s.writer == First || s.writer == Second || s.writer.Writing? || s.writer == ClosedOut
  }

  predicate ReaderEnabled(s: State, e: ReaderStep) {
    match e
    case Arrive(m) => s.reader == Awake && (m.id in s.awaiting ==> s.awaiting[m.id] < |s.calls|)
    case Deliver => s.reader.Delivering? && s.reader.k < |s.calls|
    case Abandon => s.reader.Delivering?
    case Complete => s.reader.Completing? && s.reader.k < |s.calls|
    case Handle => s.reader.Handling?
    case ReaderStops => s.reader == Awake
  }

  predicate ControlEnabled(s: State, e: ControlStep) {
    match e
    case InitialOk(_) => s.session.connect == Initial
    case InitialFails(_) => s.session.connect == Initial
    case VersionsKnown(_) => s.session.connect.Asking? && IsAnswered(s, s.session.connect.k)
    case VersionAccepted => s.session.connect.Setting? && IsAnswered(s, s.session.connect.k)
    case Open => s.session.connect == Opening
    case ConnectFails => s.session.connect.Asking? || s.session.connect.Setting? || s.session.connect == Serving
    case CloseWins => !s.closing.isClosed
    case CloseDone => s.closing.pending > 0
  }

  predicate Enabled(s: State, e: Event) {
    match e
    case Sending(x) => SenderEnabled(s, x)
    case Outgoing(x) => WriterEnabled(s, x)
    case Reading(x) => ReaderEnabled(s, x)
    case Control(x) => ControlEnabled(s, x)
  }

  const NO_CHANNEL := Channel(false, None, 0, 0)

  function Fresh(kind: Kind, typ: nat, preset: nat, version: nat, phase: Phase): Call {
    Call(kind, typ, preset, version, phase, 0, NO_CHANNEL, false)
  }

  function SetCall(s: State, k: nat, c: Call): State
    requires k < |s.calls|
  {
    s.(calls := s.calls[k := c])
  }

  function SetPhase(s: State, k: nat, phase: Phase): State
    requires k < |s.calls|
  {
    SetCall(s, k, s.calls[k].(phase := phase))
  }

  function CloseChannel(s: State, k: nat): State
    requires k < |s.calls|
  {
    SetCall(s, k, s.calls[k].(chan := s.calls[k].chan.(closes := s.calls[k].chan.closes + 1)))
  }

  /** `token.cancel`: under the lock, close and remove whatever awaits this id. */
  function CancelAwaiting(s: State, id: nat): State {
    if id in s.awaiting && s.awaiting[id] < |s.calls| then
      CloseChannel(s, s.awaiting[id]).(awaiting := s.awaiting - {id})
    else s
  }

  /** The version a message is written with. */
  function Stamp(s: State, out: Out): nat {
    if out.typ == GET_SUPPORTED_VERSION || out.typ == SET_PROTOCOL_VERSION then VERSION_1_1
    else if out.version == 0 then s.session.version
    else out.version
  }

  function PassedByOne(acks: seq<Queued>): (r: seq<Queued>)
    ensures |r| == |acks| && forall j :: 0 <= j < |acks| ==> r[j] == Queued(acks[j].id, acks[j].passed + 1)
  {
    seq(|acks|, j requires 0 <= j < |acks| => Queued(acks[j].id, acks[j].passed + 1))
  }

  /** `ackHandler`: queue the id if there is room, else drop it. */
  function QueueAck(a: Acks, m: Incoming): Acks {
    if m.typ != KEEP_ALIVE then a
    else if |a.queue| < ACK_QUEUE_SIZE then
      Acks(a.queue + [Queued(m.id, 0)], a.received + [m.id], a.accepted + [m.id], a.acked)
    else a.(received := a.received + [m.id])
  }

  function MinVersion(a: nat, b: nat): (r: nat)
    ensures r <= a && r <= b && (r == a || r == b)
  {
    if a > b then b else a
  }

  function SenderNext(s: State, e: SenderStep): State
    requires SenderEnabled(s, e)
  {
    match e
    case NewCall(kind, typ, preset, version) => s.(calls := s.calls + [Fresh(kind, typ, preset, version, Gate)])
    case PassGate(k) => SetPhase(s, k, Queueing)
    case GiveUp(k) => SetPhase(s, k, Failed)
    case GetToken(k) => SetPhase(s, k, Awaiting)
    case GetReply(k) =>
      var c := s.calls[k];
      SetCall(s, k, c.(phase := Answered(c.chan.buffer.value), chan := c.chan.(buffer := None)))
    case StopWaiting(k) => SetPhase(s, k, Cancelling)
    case Cancel(k) => SetPhase(CancelAwaiting(s, s.calls[k].id), k, Failed)
  }

  function WriterNext(s: State, e: WriterStep): State
    requires WriterEnabled(s, e)
  {
    match e
    case PickAck =>
      var id := s.acks.queue[0].id;
      s.(writer := Writing(Out(KEEP_ALIVE_ACK, id, 0, None)),
         acks := s.acks.(queue := s.acks.queue[1..], acked := s.acks.acked + [id]))
    case NoAck => s.(writer := Second)
    case Take(k) =>
      var c := s.calls[k];
      var id := if c.preset == 0 then s.nextId else c.preset;
      var t := s.(nextId := if c.preset == 0 then s.nextId + 1 else s.nextId);
      if c.kind == NoWait then
        SetCall(t, k, c.(phase := Delivered, id := id)).(writer := Writing(Out(c.typ, id, c.version, Some(k))))
      else
        SetCall(t, k, c.(phase := Accepted, id := id)).(writer := Registering(k))
    case Register =>
      var k := s.writer.k;
      var c := s.calls[k];
      SetCall(s, k, c.(chan := Channel(true, None, 0, 0))).(awaiting := s.awaiting[c.id := k], writer := Tokening(k))
    case Token =>
      var k := s.writer.k;
      var c := s.calls[k];
      SetCall(s, k, c.(token := true)).(writer := Writing(Out(c.typ, c.id, c.version, Some(k))))
    case Write =>
      var out := s.writer.out;
      s.(wire := s.wire + [out.(version := Stamp(s, out))],
         writer := if out.typ == CLOSE_CONNECTION then ClosedOut else First,
         acks := if out.origin.Some? then s.acks.(queue := PassedByOne(s.acks.queue)) else s.acks)
    case WriterStops => s.(writer := WriterDone)
  }

  function ReaderNext(s: State, e: ReaderStep): State
    requires ReaderEnabled(s, e)
  {
    match e
    case Arrive(m) =>
      if m.id in s.awaiting then
        s.(reader := Delivering(s.awaiting[m.id], m), awaiting := s.awaiting - {m.id})
      else s.(reader := Handling(m))
    case Deliver =>
      var k := s.reader.k;
      var c := s.calls[k];
      SetCall(s, k, c.(chan := c.chan.(buffer := Some(s.reader.m), sends := c.chan.sends + 1)))
        .(reader := Completing(k, s.reader.m))
    case Abandon => s.(reader := Awake)
    case Complete => CloseChannel(s, s.reader.k).(reader := Handling(s.reader.m))
    case Handle => s.(acks := QueueAck(s.acks, s.reader.m), reader := Awake)
    case ReaderStops => s.(reader := ReaderDone)
  }

  function ControlNext(s: State, e: ControlStep): State
    requires ControlEnabled(s, e)
  {
    var n := s.session;
    match e
    case InitialOk(m) =>
      var t := s.(writer := First, reader := Awake);
      if n.version > VERSION_1_0_1 then
        t.(session := n.(connect := Asking(|s.calls|), first := Some(m)),
           calls := s.calls + [Fresh(AskVersion, GET_SUPPORTED_VERSION, 0, 1, Queueing)])
      else t.(session := n.(connect := Opening, first := Some(m)))
    case InitialFails(first) =>
      // a message that is too large is not handled
      var handled := first.Some? && |first.value.payload| <= Framing.MAX_BUFFERED;
      s.(acks := if handled then QueueAck(s.acks, first.value) else s.acks,
         session := n.(ready := true, connect := Finished, first := first))
    case VersionsKnown(versions) =>
      var known := n.(version := MinVersion(n.version, versions.max), supported := Some(versions));
      if versions.current == known.version then s.(session := known.(connect := Opening))
      else
        s.(session := known.(connect := Setting(|s.calls|)),
           calls := s.calls + [Fresh(SetVersion, SET_PROTOCOL_VERSION, 0, 1, Queueing)])
    case VersionAccepted => s.(session := n.(connect := Opening))
    case Open => s.(session := n.(connect := Serving, ready := true, negotiated := true, openedAt := |s.wire|))
    case ConnectFails => s.(session := n.(connect := Finished))
    case CloseWins => s.(closing := s.closing.(isClosed := true, pending := s.closing.pending + 1))
    case CloseDone =>
      s.(closing := Closing(s.closing.isClosed, s.closing.pending - 1, s.closing.dones + 1, s.closing.nils + 1))
  }

  function Next(s: State, e: Event): State
    requires Enabled(s, e)
  {
    match e
    case Sending(x) => SenderNext(s, x)
    case Outgoing(x) => WriterNext(s, x)
    case Reading(x) => ReaderNext(s, x)
    case Control(x) => ControlNext(s, x)
  }

  // ---- runs ----

  /** The steps can happen one after the other from `s`. */
  predicate Possible(s: State, es: seq<Event>)
    decreases |es|
  {
    es == [] || (Enabled(s, es[0]) && Possible(Next(s, es[0]), es[1..]))
  }

  function After(s: State, es: seq<Event>): State
    requires Possible(s, es)
    decreases |es|
  {
    if es == [] then s else After(Next(s, es[0]), es[1..])
  }
}
