/** The client's code between its blocking operations: each method does what the source
    does without interruption, and is a run of protocol steps. */
module ClientCode {
  import opened Outcomes
  import opened Messages
  import opened Protocol
  import opened ClientSafety

  class Client {
    var session: Session
    var closing: Closing
    var writer: Writer
    var reader: Reader
    var nextMsgID: nat
    var awaiting: map<nat, nat> // message id to the call whose reply channel it is
    var calls: seq<Call>
    var acks: Acks
    var wire: seq<Out>

    function Abs(): State
      reads this
    {
      State(session, closing, writer, reader, nextMsgID, awaiting, calls, acks, wire)
    }

    ghost predicate Valid()
      reads this
    {
      Invariant(Abs())
    }

    constructor (version: nat)
      ensures Valid() && Abs() == Start(version)
    {
      session, closing := Session(Initial, false, false, 0, version, version, None, None), Closing(false, 0, 0, 0);
      writer, reader, nextMsgID, awaiting, calls := Unstarted, NotReading, 0, map[], [];
      acks, wire := Acks([], [], [], []), [];
      new;
      StartIsSafe(version);
    }

    /** `Close`: the compare-and-swap decides who closes `done`. */
    method Close() returns (ok: bool)
      requires Valid()
      modifies this`closing
      ensures Valid()
      ensures ok <==> !old(closing.isClosed)
      ensures !ok ==> Abs() == old(Abs())
      ensures var es := [Control(CloseWins), Control(CloseDone)];
              ok ==> Possible(old(Abs()), es) && Abs() == After(old(Abs()), es)
    {
      hide RepliesOk, GateOk, VersionsOk, WireOk, OriginsOk, AcksOk;
      ghost var s := Abs();
      if closing.isClosed {
        return false;
      }
      TwoSteps(s, Control(CloseWins), Control(CloseDone));
      closing := closing.(isClosed := true, pending := closing.pending + 1);
      assert closing.dones == 0; // closing a closed channel would panic
      closing := Closing(true, closing.pending - 1, closing.dones + 1, closing.nils + 1);
      return true;
    }

    /** `ackHandler.HandleMessage`; a full queue drops the id. */
    method AckHandler(m: Incoming)
      requires m.typ == KEEP_ALIVE
      modifies this`acks
      ensures acks == QueueAck(old(acks), m)
    {
      if |acks.queue| < ACK_QUEUE_SIZE {
        acks := acks.(queue := acks.queue + [Queued(m.id, 0)], accepted := acks.accepted + [m.id]);
      }
      acks := acks.(received := acks.received + [m.id]);
    }

    method Send(k: nat, m: Incoming)
      requires k < |calls| && calls[k].chan.made
      requires calls[k].chan.closes == 0 && calls[k].chan.buffer == None // or it would panic or block
      modifies this`calls
      ensures calls == old(calls)[k := old(calls)[k].(
                        chan := old(calls)[k].chan.(buffer := Some(m), sends := old(calls)[k].chan.sends + 1))]
    {
      var c := calls[k];
      calls := calls[k := c.(chan := c.chan.(buffer := Some(m), sends := c.chan.sends + 1))];
    }

    method CloseReply(k: nat)
      requires k < |calls| && calls[k].chan.made
      requires calls[k].chan.closes == 0 // or it would panic
      modifies this`calls
      ensures calls == old(calls)[k := old(calls)[k].(chan := old(calls)[k].chan.(closes := 1))]
    {
      var c := calls[k];
      calls := calls[k := c.(chan := c.chan.(closes := c.chan.closes + 1))];
    }

    /** `passToHandler`; `whole` is whether the payload, if it is to be buffered for someone
        who awaits it, arrives before the connection fails. */
    method PassToHandler(m: Incoming, whole: bool)
      requires Valid() && reader == Awake
      modifies this`reader, this`awaiting, this`calls, this`acks
      ensures Valid()
      ensures var es := HandlingRun(m, m.id in old(awaiting), whole);
              Possible(old(Abs()), es) && Abs() == After(old(Abs()), es)
    {
      hide CloseOk, GateOk, VersionsOk, WireOk, OriginsOk, AcksOk, CallsOk, IdsDistinct, WriterOk, QueueAck, After,
           Possible;
      ghost var s := Abs();
      if m.id in awaiting {
        var k := awaiting[m.id];
        awaiting := awaiting - {m.id};
        if !whole {
          AbandonRun(s, m);
          return;
        }
        ReplyRun(s, m);
        Send(k, m);
        CloseReply(k);
        assert calls == s.calls[k := s.calls[k].(chan := Channel(true, Some(m), 1, 1))];
      } else {
        TwoSteps(s, Reading(Arrive(m)), Reading(Handle));
      }
      if m.typ == KEEP_ALIVE {
        AckHandler(m);
      } else {
        OtherQueuesNothing(acks, m);
      }
    }

    /** What a sender does on giving up: close and forget the channel, if still its own. */
    method Cancel(k: nat)
      requires Valid() && k < |calls| && calls[k].phase == Cancelling
      modifies this`awaiting, this`calls
      ensures Valid()
      ensures Abs() == Next(old(Abs()), Sending(SenderStep.Cancel(k)))
    {
      hide CloseOk, GateOk, VersionsOk, WireOk, OriginsOk, AcksOk, CallsOk, IdsDistinct, WriterOk, ReaderOk;
      ghost var s := Abs();
      StepKeeps(s, Sending(SenderStep.Cancel(k)));
      var mid := calls[k].id;
      if mid in awaiting {
        CloseReply(awaiting[mid]);
        awaiting := awaiting - {mid};
      }
      calls := calls[k := calls[k].(phase := Failed)];
    }

    /** One turn of `handleOutgoing` that finds an ack to send. */
    method SendAck()
      requires Valid() && writer == First && acks.queue != []
      modifies this`writer, this`acks, this`wire
      ensures Valid()
      ensures var es := [Outgoing(PickAck), Outgoing(Write)];
              Possible(old(Abs()), es) && Abs() == After(old(Abs()), es)
    {
      hide Invariant, After, Possible;
      ghost var s := Abs();
      TwoSteps(s, Outgoing(PickAck), Outgoing(Write));
      var mid := acks.queue[0].id;
      acks := acks.(queue := acks.queue[1..], acked := acks.acked + [mid]);
      wire := wire + [Out(KEEP_ALIVE_ACK, mid, session.version, None)];
    }

    /** One turn of `handleOutgoing` that finds no ack and takes call `k`'s request: give it
        an id, set up the reply unless none is wanted, then write it. */
    method SendRequest(k: nat)
      requires Valid() && writer == First && acks.queue == [] && !Abs().Done()
      requires k < |calls| && calls[k].phase == Queueing && nextMsgID < 0x1_0000_0000
      modifies this`writer, this`nextMsgID, this`awaiting, this`calls, this`acks, this`wire
      ensures Valid()
      ensures var es := RequestRun(old(calls)[k].kind, k);
              Possible(old(Abs()), es) && Abs() == After(old(Abs()), es)
    {
      hide CloseOk, GateOk, VersionsOk, WireOk, OriginsOk, AcksOk, IdsDistinct, AwaitingOk, ReaderOk, WriterOk, After,
           Possible;
      ghost var s := Abs();
      assert CallOk(s, calls[k]);
      RequestSteps(s, k);
      var c := calls[k];
      var id := c.preset;
      if id == 0 {
        id := nextMsgID;
        nextMsgID := nextMsgID + 1;
      }
      if c.kind == NoWait {
        calls := calls[k := c.(phase := Delivered, id := id)];
      } else {
        awaiting := awaiting[id := k];
        calls := calls[k := c.(phase := Accepted, id := id, chan := Channel(true, None, 0, 0), token := true)];
      }
      var out := Out(c.typ, id, c.version, Some(k));
      out := out.(version := if c.typ == GET_SUPPORTED_VERSION || c.typ == SET_PROTOCOL_VERSION then VERSION_1_1
                             else if c.version == 0 then session.version else c.version);
      wire := wire + [out];
      writer := if c.typ == CLOSE_CONNECTION then ClosedOut else First;
    }
  }

  // ---- the runs of steps ----

  /** `whole`: the payload, if it is to be buffered, is all there. */
  function HandlingRun(m: Incoming, awaited: bool, whole: bool): seq<Event> {
    if awaited && !whole then [Reading(Arrive(m)), Reading(Abandon)]
    else if awaited then [Reading(Arrive(m)), Reading(Deliver), Reading(Complete), Reading(Handle)]
    else [Reading(Arrive(m)), Reading(Handle)]
  }

  function RequestRun(kind: Kind, k: nat): seq<Event> {
    if kind == NoWait then [Outgoing(NoAck), Outgoing(Take(k)), Outgoing(Write)]
    else [Outgoing(NoAck), Outgoing(Take(k)), Outgoing(Register), Outgoing(Token), Outgoing(Write)]
  }

  lemma OneStep(s: State, e: Event)
    requires Invariant(s) && Enabled(s, e)
    ensures Possible(s, [e]) && After(s, [e]) == Next(s, e) && Invariant(Next(s, e))
  {
    hide Invariant, Next, Enabled;
    StepKeeps(s, e);
    assert [e][1..] == [];
  }

  lemma MoreSteps(s: State, e: Event, es: seq<Event>)
    requires Invariant(s) && Enabled(s, e) && Possible(Next(s, e), es)
    ensures Possible(s, [e] + es) && After(s, [e] + es) == After(Next(s, e), es)
  {
    hide Invariant, Next, Enabled;
    assert ([e] + es)[1..] == es;
  }

  lemma TwoSteps(s: State, e: Event, f: Event)
    requires Invariant(s) && Enabled(s, e) && Enabled(Next(s, e), f)
    ensures Possible(s, [e, f]) && After(s, [e, f]) == Next(Next(s, e), f) && Invariant(Next(Next(s, e), f))
  {
    hide Invariant, Next, Enabled, After, Possible;
    StepKeeps(s, e);
    OneStep(Next(s, e), f);
    MoreSteps(s, e, [f]);
    assert [e] + [f] == [e, f];
  }

  lemma OtherQueuesNothing(a: Acks, m: Incoming)
    requires m.typ != KEEP_ALIVE
    ensures QueueAck(a, m) == a
  {}

  lemma ReplyRun(s: State, m: Incoming)
    requires Invariant(s) && s.reader == Awake && m.id in s.awaiting
    ensures var es := HandlingRun(m, true, true);
            var k := s.awaiting[m.id];
            && Possible(s, es) && Untouched(s, k) && s.calls[k].chan == Channel(true, None, 0, 0)
            && After(s, es) == s.(awaiting := s.awaiting - {m.id}, acks := QueueAck(s.acks, m),
                                  calls := s.calls[k := s.calls[k].(chan := Channel(true, Some(m), 1, 1))])
            && Invariant(After(s, es))
  {
    hide CloseOk, GateOk, VersionsOk, WireOk, OriginsOk, AcksOk, IdsDistinct, WriterOk, QueueAck, After, Possible;
    var k := s.awaiting[m.id];
    assert Untouched(s, k) && CallOk(s, s.calls[k]);
    var s1 := Next(s, Reading(Arrive(m)));
    StepKeeps(s, Reading(Arrive(m)));
    var s2 := Next(s1, Reading(Deliver));
    StepKeeps(s1, Reading(Deliver));
    TwoSteps(s2, Reading(Complete), Reading(Handle));
    MoreSteps(s1, Reading(Deliver), [Reading(Complete), Reading(Handle)]);
    MoreSteps(s, Reading(Arrive(m)), [Reading(Deliver)] + [Reading(Complete), Reading(Handle)]);
    assert [Reading(Arrive(m))] + ([Reading(Deliver)] + [Reading(Complete), Reading(Handle)])
           == HandlingRun(m, true, true);
  }

  /** The channel is taken out of the map, and then neither sent to nor closed. */
  lemma AbandonRun(s: State, m: Incoming)
    requires Invariant(s) && s.reader == Awake && m.id in s.awaiting
    ensures var es := HandlingRun(m, true, false);
            Possible(s, es) && After(s, es) == s.(awaiting := s.awaiting - {m.id}) && Invariant(After(s, es))
  {
    hide After, Possible;
    assert Untouched(s, s.awaiting[m.id]);
    hide Invariant;
    TwoSteps(s, Reading(Arrive(m)), Reading(Abandon));
  }

  lemma RequestSteps(s: State, k: nat)
    requires Invariant(s) && s.writer == First && s.acks.queue == [] && !s.Done()
    requires k < |s.calls| && s.calls[k].phase == Queueing && s.nextId < 0x1_0000_0000
    ensures var c := s.calls[k];
            var es := RequestRun(c.kind, k);
            var id := if c.preset == 0 then s.nextId else c.preset;
            var out := Out(c.typ, id, c.version, Some(k));
            && Possible(s, es) && Invariant(After(s, es))
            && After(s, es)
               == s.(nextId := if c.preset == 0 then s.nextId + 1 else s.nextId,
                     calls := s.calls[k := if c.kind == NoWait then c.(phase := Delivered, id := id)
                                           else c.(phase := Accepted, id := id, token := true,
                                                   chan := Channel(true, None, 0, 0))],
                     awaiting := if c.kind == NoWait then s.awaiting else s.awaiting[id := k],
                     writer := if c.typ == CLOSE_CONNECTION then ClosedOut else First,
                     wire := s.wire + [out.(version := Stamp(s, out))])
  {
    hide Invariant, After, Possible, Stamp;
    var c := s.calls[k];
    assert PassedByOne(s.acks.queue) == s.acks.queue;
    var s1 := Next(s, Outgoing(NoAck));
    StepKeeps(s, Outgoing(NoAck));
    if c.kind == NoWait {
      TwoSteps(s1, Outgoing(Take(k)), Outgoing(Write));
      StampSame(s, Next(s1, Outgoing(Take(k))));
      MoreSteps(s, Outgoing(NoAck), [Outgoing(Take(k)), Outgoing(Write)]);
      assert [Outgoing(NoAck)] + [Outgoing(Take(k)), Outgoing(Write)] == RequestRun(c.kind, k);
    } else {
      var s2 := Next(s1, Outgoing(Take(k)));
      StepKeeps(s1, Outgoing(Take(k)));
      var s3 := Next(s2, Outgoing(Register));
      StepKeeps(s2, Outgoing(Register));
      TwoSteps(s3, Outgoing(Token), Outgoing(Write));
      MoreSteps(s2, Outgoing(Register), [Outgoing(Token), Outgoing(Write)]);
      MoreSteps(s1, Outgoing(Take(k)), [Outgoing(Register)] + [Outgoing(Token), Outgoing(Write)]);
      MoreSteps(s, Outgoing(NoAck), [Outgoing(Take(k))] + ([Outgoing(Register)] + [Outgoing(Token), Outgoing(Write)]));
      assert [Outgoing(NoAck)] + ([Outgoing(Take(k))] + ([Outgoing(Register)] + [Outgoing(Token), Outgoing(Write)]))
             == RequestRun(c.kind, k);
      StampSame(s, Next(s3, Outgoing(Token)));
    }
  }

  lemma StampSame(s: State, t: State)
    requires s.session == t.session
    ensures forall out :: Stamp(s, out) == Stamp(t, out)
  {}
}
