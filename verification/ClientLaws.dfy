/** The promises of the client, over every run of the protocol. */
module ClientLaws {
  import opened Outcomes
  import opened Messages
  import opened Protocol
  import opened ClientSafety

  lemma Reached(configured: nat, es: seq<Event>)
    requires Possible(Start(configured), es)
    ensures Invariant(After(Start(configured), es))
  {
    hide Possible, Invariant, After;
    StartIsSafe(configured);
    RunKeeps(Start(configured), es);
  }

  /** Every reply channel is sent to at most once and closed at most once, never sent to
      after it was closed; the sends never block, nobody closes another call's channel,
      and a waiting sender never reads from a channel closed without a reply. */
  lemma ReplyChannelsAreSafe(configured: nat, es: seq<Event>, k: nat)
    requires Possible(Start(configured), es) && k < |After(Start(configured), es).calls|
    ensures var s := After(Start(configured), es);
            var c := s.calls[k];
            && c.chan.sends <= 1 && c.chan.closes <= 1
            && (s.reader.Delivering? && s.reader.k == k ==>
                  c.chan.sends == 0 && c.chan.closes == 0 && c.chan.buffer == None)
            && (s.reader.Completing? && s.reader.k == k ==> c.chan.closes == 0)
            && (c.phase == Cancelling && c.id in s.awaiting ==> s.awaiting[c.id] == k && c.chan.closes == 0)
            && (s.writer == Tokening(k) ==> !c.token)
            && (c.phase == Awaiting && c.chan.closes == 1 ==> c.chan.buffer.Some?)
  {
    hide Possible, After, GateOk, VersionsOk, WireOk, OriginsOk, AcksOk, CloseOk;
    Reached(configured, es);
    var s := After(Start(configured), es);
    assert CallOk(s, s.calls[k]);
    if s.calls[k].phase == Cancelling && s.calls[k].id in s.awaiting {
      assert CallOk(s, s.calls[s.awaiting[s.calls[k].id]]);
      assert Assigned(s.calls[k]) && Assigned(s.calls[s.awaiting[s.calls[k].id]]);
    }
  }

  /** A call that returns a reply returns one with the id the writer gave it, which is the id
      its request goes out with. */
  lemma AnswerIsOwn(configured: nat, es: seq<Event>, k: nat, j: nat)
    requires Possible(Start(configured), es)
    requires var s := After(Start(configured), es); k < |s.calls| && s.calls[k].phase.Answered?
    ensures var s := After(Start(configured), es);
            s.calls[k].phase.reply.id == s.calls[k].id && s.calls[k].kind != NoWait
    ensures var s := After(Start(configured), es);
            j < |s.wire| && s.wire[j].origin == Some(k) ==> s.wire[j].id == s.calls[k].id
  {
    hide Possible, After, GateOk, VersionsOk, WireOk, AcksOk, CloseOk, IdsDistinct, AwaitingOk, ReaderOk, WriterOk;
    Reached(configured, es);
    var s := After(Start(configured), es);
    assert CallOk(s, s.calls[k]) && (j < |s.wire| ==> IsOf(s, s.wire[j]));
  }

  /** Two calls whose requests are registered for replies never share an id. */
  lemma IdsAreUnique(configured: nat, es: seq<Event>, j: nat, k: nat)
    requires Possible(Start(configured), es)
    requires var s := After(Start(configured), es);
             j < |s.calls| && k < |s.calls| && j != k && s.calls[j].chan.made && s.calls[k].chan.made
    ensures var s := After(Start(configured), es); s.calls[j].id != s.calls[k].id
  {
    hide Possible, After, GateOk, VersionsOk, WireOk, AcksOk, CloseOk, OriginsOk;
    Reached(configured, es);
    var s := After(Start(configured), es);
    assert CallOk(s, s.calls[k]) && CallOk(s, s.calls[j]);
  }

  /** `done` is closed exactly once if anybody closes the client, once the caller that wins
      has got that far, and that caller alone gets nil. */
  lemma ClosedOnce(configured: nat, es: seq<Event>)
    requires Possible(Start(configured), es)
    ensures var c := After(Start(configured), es).closing;
            && c.dones <= 1 && c.nils <= 1 && (c.dones == 1 ==> c.isClosed)
            && (c.isClosed <==> c.pending + c.dones == 1)
            && (c.isClosed && c.pending == 0 ==> c.dones == 1)
            && c.nils == c.dones
  {
    hide Possible, After, RepliesOk, GateOk, VersionsOk, WireOk, AcksOk, OriginsOk;
    Reached(configured, es);
  }

  /** Nothing is written after a CloseConnection. */
  lemma CloseConnectionIsLast(configured: nat, es: seq<Event>, j: nat)
    requires Possible(Start(configured), es)
    requires j < |After(Start(configured), es).wire| && After(Start(configured), es).wire[j].typ == CLOSE_CONNECTION
    ensures j == |After(Start(configured), es).wire| - 1
  {
    hide Possible, After, RepliesOk, GateOk, VersionsOk, CloseOk, AcksOk, OriginsOk;
    Reached(configured, es);
  }

  /** Before negotiation has succeeded only handshake messages and acks are written, and
      none at all unless the first message was right. */
  lemma HandshakeComesFirst(configured: nat, es: seq<Event>, j: nat)
    requires Possible(Start(configured), es)
    requires var s := After(Start(configured), es);
             j < |s.wire| && (s.session.negotiated ==> j < s.session.openedAt)
    ensures var s := After(Start(configured), es);
            HandshakeTyp(s.wire[j].typ) && s.writer != Unstarted
  {
    hide Possible, After, RepliesOk, VersionsOk, CloseOk, AcksOk, OriginsOk, WireOk;
    Reached(configured, es);
  }

  /** After negotiation the version is the lesser of the configured and the reader's
      maximum, and SetProtocolVersion was sent and answered iff the reader's own was not
      that one; without negotiation it is the configured one and nothing was sent. */
  lemma VersionIsNegotiated(configured: nat, es: seq<Event>)
    requires Possible(Start(configured), es) && After(Start(configured), es).session.negotiated
    ensures var s := After(Start(configured), es);
            var n := s.session;
            && n.configured == configured
            && (configured <= VERSION_1_0_1 ==> n.version == configured && OnlyExternal(s))
            && (configured > VERSION_1_0_1 ==>
                  && n.supported.Some?
                  && n.version <= configured && n.version <= n.supported.value.max
                  && (n.version == configured || n.version == n.supported.value.max)
                  && (HasSetVersion(s) <==> n.supported.value.current != n.version)
                  && forall k :: 0 <= k < |s.calls| && s.calls[k].kind == SetVersion ==>
                       && s.calls[k].phase.Answered?
                       && (OnWire(s, k) || s.writer == WriterDone
                           || (s.writer.Writing? && s.writer.out.origin == Some(k))))
  {
    hide Possible, After, CloseOk, AcksOk, WireOk, GateOk, IdsDistinct, AwaitingOk, ReaderOk, WriterOk;
    Reached(configured, es);
    ConfiguredStays(Start(configured), es);
    var s := After(Start(configured), es);
    forall k | 0 <= k < |s.calls| && s.calls[k].kind == SetVersion && s.calls[k].phase.Answered?
      ensures OnWire(s, k) || (s.writer.Writing? && s.writer.out.origin == Some(k)) || s.writer == WriterDone
    {
      assert CallOk(s, s.calls[k]);
    }
  }

  lemma {:induction false} ConfiguredStays(s: State, es: seq<Event>)
    requires Possible(s, es)
    ensures After(s, es).session.configured == s.session.configured
    decreases |es|
  {
    hide Next, Enabled;
    if es != [] {
      StepConfigured(s, es[0]);
      ConfiguredStays(Next(s, es[0]), es[1..]);
    }
  }

  lemma StepConfigured(s: State, e: Event)
    requires Enabled(s, e)
    ensures Next(s, e).session.configured == s.session.configured
  {
    match e
    case Sending(x) => SenderFrame(s, x);
    case Outgoing(x) => WriterFrame(s, x);
    case Reading(x) => ReaderFrame(s, x);
    case Control(x) =>
  }

  /** Neither of the two places that close `ready` is reached when it is closed already. */
  lemma ReadyClosedOnce(configured: nat, es: seq<Event>)
    requires Possible(Start(configured), es)
    ensures var s := After(Start(configured), es);
            s.session.connect == Initial || s.session.connect == Opening ==> !s.session.ready
  {
    hide Possible, After, RepliesOk, CloseOk, AcksOk, OriginsOk, WireOk;
    Reached(configured, es);
  }

  // ---- the versions messages are written with ----

  predicate NegotiationTyp(typ: nat) {
    typ == GET_SUPPORTED_VERSION || typ == SET_PROTOCOL_VERSION
  }

  /** An awaited call's message is stamped when it is made; an ack comes without a version. */
  predicate StampsInHand(s: State) {
    && (forall k :: 0 <= k < |s.calls| && s.calls[k].kind == Awaited ==> s.calls[k].version == VERSION_1_0_1)
    && (s.writer.Writing? ==>
          match s.writer.out.origin
          case None => s.writer.out.typ == KEEP_ALIVE_ACK && s.writer.out.version == 0
          case Some(k) => k < |s.calls| && s.writer.out.version == s.calls[k].version)
  }

  predicate StampOk(s: State, j: nat)
    requires j < |s.wire|
  {
    var out := s.wire[j];
    && (NegotiationTyp(out.typ) ==> out.version == VERSION_1_1)
    && (if out.origin.Some? then out.origin.value < |s.calls| else out.typ == KEEP_ALIVE_ACK)
    && (!NegotiationTyp(out.typ) ==>
          if out.origin.Some? && s.calls[out.origin.value].version != 0 then
            out.version == s.calls[out.origin.value].version
          else s.session.negotiated && s.session.openedAt <= j ==> out.version == s.session.version)
  }

  predicate StampsOk(s: State) {
    StampsInHand(s) && forall j :: 0 <= j < |s.wire| ==> StampOk(s, j)
  }

  lemma StampStep(s: State, e: Event)
    requires VersionsOk(s) && StampsOk(s) && Enabled(s, e)
    ensures StampsOk(Next(s, e))
  {
    hide VersionsOk, Next, Enabled;
    var t := Next(s, e);
    SessionStep(s, e);
    StampsInHandStep(s, e);
    WrittenStep(s, e);
    forall j | 0 <= j < |t.wire|
      ensures StampOk(t, j)
    {
      if j < |s.wire| {
        assert StampOk(s, j) && t.wire[j] == s.wire[j];
      }
    }
  }

  /** At most one message is written, the one in hand with its stamp; calls keep their kind
      and their message's version. */
  lemma WrittenStep(s: State, e: Event)
    requires Enabled(s, e)
    ensures var t := Next(s, e);
            && (t.wire == s.wire
                || (s.writer.Writing?
                    && t.wire == s.wire + [s.writer.out.(version := Stamp(s, s.writer.out))]
                    && t.session == s.session))
            && |s.calls| <= |t.calls|
            && forall k :: 0 <= k < |s.calls| ==>
                 t.calls[k].kind == s.calls[k].kind && t.calls[k].version == s.calls[k].version
  {
    hide Stamp;
    match e
    case Sending(x) => SenderFrame(s, x);
    case Outgoing(x) =>
    case Reading(x) => ReaderFrame(s, x);
    case Control(x) =>
  }

  lemma StampsInHandStep(s: State, e: Event)
    requires StampsInHand(s) && Enabled(s, e)
    ensures StampsInHand(Next(s, e))
  {
    hide SenderNext, WriterNext, ReaderNext, ControlNext, SenderEnabled, WriterEnabled, ReaderEnabled, ControlEnabled,
         StampsInHand;
    match e
    case Sending(x) => SenderStamps(s, x);
    case Outgoing(x) => WriterStamps(s, x);
    case Reading(x) => ReaderStamps(s, x);
    case Control(x) => ControlStamps(s, x);
  }

  lemma SenderStamps(s: State, e: SenderStep)
    requires StampsInHand(s) && SenderEnabled(s, e)
    ensures StampsInHand(SenderNext(s, e))
  {}

  lemma WriterStamps(s: State, e: WriterStep)
    requires StampsInHand(s) && WriterEnabled(s, e)
    ensures StampsInHand(WriterNext(s, e))
  {}

  lemma ReaderStamps(s: State, e: ReaderStep)
    requires StampsInHand(s) && ReaderEnabled(s, e)
    ensures StampsInHand(ReaderNext(s, e))
  {}

  lemma ControlStamps(s: State, e: ControlStep)
    requires StampsInHand(s) && ControlEnabled(s, e)
    ensures StampsInHand(ControlNext(s, e))
  {}

  /** The version is settled when the gate opens. */
  lemma SessionStep(s: State, e: Event)
    requires VersionsOk(s) && Enabled(s, e)
    ensures var n, m := s.session, Next(s, e).session;
            && (n.negotiated ==> m.negotiated && m.version == n.version && m.openedAt == n.openedAt)
            && (m.negotiated && !n.negotiated ==> m.openedAt == |s.wire|)
  {
    hide Negotiated;
    match e
    case Sending(x) => SenderFrame(s, x);
    case Outgoing(x) => WriterFrame(s, x);
    case Reading(x) => ReaderFrame(s, x);
    case Control(x) =>
  }

  lemma {:induction false} StampsKept(s: State, es: seq<Event>)
    requires Invariant(s) && StampsOk(s) && Possible(s, es)
    ensures StampsOk(After(s, es))
    decreases |es|
  {
    hide Next, Enabled, StampsOk, CloseOk, RepliesOk, GateOk, VersionsOk, WireOk, OriginsOk, AcksOk;
    if es != [] {
      StepKeeps(s, es[0]);
      StampStep(s, es[0]);
      StampsKept(Next(s, es[0]), es[1..]);
    }
  }

  /** Negotiation itself is written as version 1.1. Whatever comes without a version, acks
      among it, is written in the version agreed on, but a message that has a version keeps
      it, so that requests sent with SendMessage stay at 1.0.1 whatever was negotiated. */
  lemma VersionsOnTheWire(configured: nat, es: seq<Event>, j: nat)
    requires Possible(Start(configured), es) && j < |After(Start(configured), es).wire|
    ensures var s := After(Start(configured), es);
            var out := s.wire[j];
            && (NegotiationTyp(out.typ) ==> out.version == VERSION_1_1)
            && (out.origin == None && s.session.negotiated && s.session.openedAt <= j ==>
                  out.version == s.session.version)
            && (out.origin.Some? && !NegotiationTyp(out.typ) ==>
                  && out.origin.value < |s.calls|
                  && var c := s.calls[out.origin.value];
                     && (c.kind == Awaited ==> out.version == VERSION_1_0_1)
                     && (c.version != 0 ==> out.version == c.version)
                     && (c.version == 0 && s.session.negotiated && s.session.openedAt <= j ==>
                           out.version == s.session.version))
  {
    hide Possible, After, Invariant;
    StartIsSafe(configured);
    StampsKept(Start(configured), es);
    assert StampOk(After(Start(configured), es), j);
  }

  // ---- acknowledgements ----

  /** The acks on the wire are, in order, those taken from the queue but for one the writer
      has in hand or failed on; those taken are a prefix of those queued, which are
      KeepAlives received, some left out; no more than five wait. */
  lemma AcksKeepOrder(configured: nat, es: seq<Event>)
    requires Possible(Start(configured), es)
    ensures var s := After(Start(configured), es);
            && AckIds(s.wire) <= s.acks.acked <= s.acks.accepted
            && Subsequence(s.acks.accepted, s.acks.received)
            && |s.acks.queue| <= 5
            && (s.writer != WriterDone && !(s.writer.Writing? && s.writer.out.origin == None) ==>
                  AckIds(s.wire) == s.acks.acked)
            && |s.acks.accepted| == |s.acks.acked| + |s.acks.queue|
  {
    hide Possible, After, RepliesOk, GateOk, VersionsOk, WireOk, CloseOk, OriginsOk, Subsequence, AckIds;
    Reached(configured, es);
  }

  predicate WritesRequest(s: State, e: Event) {
    e == Outgoing(Write) && s.writer.Writing? && s.writer.out.origin.Some?
  }

  function RequestsWritten(s: State, es: seq<Event>): nat
    requires Possible(s, es)
    decreases |es|
  {
    if es == [] then 0 else (if WritesRequest(s, es[0]) then 1 else 0) + RequestsWritten(Next(s, es[0]), es[1..])
  }

  lemma AckStep(s: State, e: Event, i: nat)
    requires Enabled(s, e) && i < |s.acks.queue|
    ensures var t := Next(s, e);
            var d := |t.acks.acked| - |s.acks.acked|;
            && 0 <= d <= 1
            && (d <= i ==>
                  && i - d < |t.acks.queue|
                  && t.acks.queue[i - d]
                     == Queued(s.acks.queue[i].id, s.acks.queue[i].passed + if WritesRequest(s, e) then 1 else 0))
  {
    match e
    case Sending(x) => SenderFrame(s, x);
    case Outgoing(x) =>
    case Reading(x) =>
    case Control(x) =>
  }

  /** While an ack waits, its counter counts the requests written. */
  lemma {:induction false} CounterCounts(s: State, es: seq<Event>, i: nat)
    requires Possible(s, es) && i < |s.acks.queue|
    ensures var t := After(s, es);
            && |s.acks.acked| <= |t.acks.acked|
            && (|t.acks.acked| - |s.acks.acked| <= i ==>
                  var j := i - (|t.acks.acked| - |s.acks.acked|);
                  j < |t.acks.queue|
                  && t.acks.queue[j] == Queued(s.acks.queue[i].id, s.acks.queue[i].passed + RequestsWritten(s, es)))
    decreases |es|
  {
    hide Next, Enabled, WritesRequest;
    if es != [] {
      AckStep(s, es[0], i);
      var u := Next(s, es[0]);
      var d := |u.acks.acked| - |s.acks.acked|;
      if d <= i {
        CounterCounts(u, es[1..], i - d);
      } else {
        AckedGrows(u, es[1..]);
      }
    }
  }

  lemma {:induction false} AckedGrows(s: State, es: seq<Event>)
    requires Possible(s, es)
    ensures |s.acks.acked| <= |After(s, es).acks.acked|
    decreases |es|
  {
    hide Next, Enabled;
    if es != [] {
      AckedStep(s, es[0]);
      AckedGrows(Next(s, es[0]), es[1..]);
    }
  }

  lemma AckedStep(s: State, e: Event)
    requires Enabled(s, e)
    ensures |s.acks.acked| <= |Next(s, e).acks.acked|
  {
    match e
    case Sending(x) => SenderFrame(s, x);
    case Outgoing(x) =>
    case Reading(x) =>
    case Control(x) =>
  }

  /** Bounded overtaking: from the step that queues a KeepAlive's id until that id is taken
      to be acked, at most one request is written. */
  lemma OvertakenAtMostOnce(configured: nat, before: seq<Event>, es: seq<Event>)
    requires Possible(Start(configured), before)
    requires var s := After(Start(configured), before);
             && s.reader.Handling? && s.reader.m.typ == KEEP_ALIVE && |s.acks.queue| < ACK_QUEUE_SIZE
             && Possible(Next(s, Reading(Handle)), es)
             && |After(Next(s, Reading(Handle)), es).acks.acked| - |s.acks.acked| <= |s.acks.queue|
    ensures RequestsWritten(Next(After(Start(configured), before), Reading(Handle)), es) <= 1
  {
    hide Possible, After, RepliesOk, GateOk, VersionsOk, WireOk, CloseOk, OriginsOk, QueueOk, AckIds, RequestsWritten,
         SenderNext, WriterNext, ControlNext;
    Reached(configured, before);
    var s := After(Start(configured), before);
    StepKeeps(s, Reading(Handle));
    var t := Next(s, Reading(Handle));
    RunKeeps(t, es);
    CounterCounts(t, es, |s.acks.queue|);
  }
}
