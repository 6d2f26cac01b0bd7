/** What becomes of a call over a whole run: its request is written once, its reply reaches
    it, its entry in the map goes with it; and which KeepAlives are dropped. */
module ClientCalls {
  import opened Outcomes
  import opened Messages
  import opened Protocol
  import Framing
  import opened ClientSafety
  import opened ClientLaws

  // ---- entries in the map ----

  /** Entries belong to calls that have not returned. */
  predicate EntriesLive(s: State) {
    forall id :: id in s.awaiting ==>
      s.awaiting[id] < |s.calls| && s.calls[s.awaiting[id]].phase in {Accepted, Awaiting, Cancelling}
  }

  lemma SenderKeepsEntries(s: State, e: SenderStep)
    requires RepliesOk(s) && EntriesLive(s) && SenderEnabled(s, e)
    ensures EntriesLive(SenderNext(s, e))
  {
    hide ReaderOk, WriterOk, IdsDistinct;
    var t := SenderNext(s, e);
    forall id | id in t.awaiting
      ensures t.calls[t.awaiting[id]].phase in {Accepted, Awaiting, Cancelling}
    {
      assert Untouched(s, s.awaiting[id]) && CallOk(s, s.calls[s.awaiting[id]]);
    }
  }

  lemma WriterKeepsEntries(s: State, e: WriterStep)
    requires RepliesOk(s) && EntriesLive(s) && WriterEnabled(s, e)
    ensures EntriesLive(WriterNext(s, e))
  {
    hide ReaderOk, IdsDistinct;
    var t := WriterNext(s, e);
    forall id | id in t.awaiting
      ensures t.calls[t.awaiting[id]].phase in {Accepted, Awaiting, Cancelling}
    {
      assert id in s.awaiting ==> Untouched(s, s.awaiting[id]) && CallOk(s, s.calls[s.awaiting[id]]);
    }
  }

  lemma ReaderKeepsEntries(s: State, e: ReaderStep)
    requires EntriesLive(s) && ReaderEnabled(s, e)
    ensures EntriesLive(ReaderNext(s, e))
  {}

  lemma ControlKeepsEntries(s: State, e: ControlStep)
    requires EntriesLive(s) && ControlEnabled(s, e)
    ensures EntriesLive(ControlNext(s, e))
  {}

  // ---- what has been sent is written ----

  predicate WrittenOrLost(s: State, k: nat) {
    OnWire(s, k) || (s.writer.Writing? && s.writer.out.origin == Some(k)) || s.writer == WriterDone
  }

  /** A message that SendNoWait reported as sent. */
  predicate DeliveredOk(s: State) {
    (s.writer == Unstarted ==> forall k :: 0 <= k < |s.calls| ==> s.calls[k].phase != Delivered) &&
    forall k :: 0 <= k < |s.calls| && s.calls[k].phase == Delivered ==> WrittenOrLost(s, k)
  }

  lemma OthersKeepDelivered(s: State, t: State)
    requires DeliveredOk(s) && t.wire == s.wire
    requires t.writer == s.writer || s.writer == Unstarted
    requires forall k :: 0 <= k < |t.calls| && t.calls[k].phase == Delivered ==>
               k < |s.calls| && s.calls[k].phase == Delivered
    ensures DeliveredOk(t)
  {}

  lemma WriterKeepsDelivered(s: State, e: WriterStep)
    requires DeliveredOk(s) && WriterEnabled(s, e)
    ensures DeliveredOk(WriterNext(s, e))
  {
    hide Stamp;
    var t := WriterNext(s, e);
    forall k | 0 <= k < |t.calls| && t.calls[k].phase == Delivered
      ensures WrittenOrLost(t, k)
    {
      if OnWire(s, k) {
        var j :| 0 <= j < |s.wire| && s.wire[j].origin == Some(k);
        assert t.wire[j].origin == Some(k);
      } else if e.Write? {
        assert t.wire[|s.wire|].origin == s.writer.out.origin;
      }
    }
  }

  // ---- what has been given up is not written ----

  /** The call has not been taken by the writer, and may have given up before. */
  predicate Untaken(c: Call) {
    c.phase == Gate || c.phase == Queueing || (c.phase == Failed && !c.token)
  }

  predicate HeldBy(w: Writer, k: nat) {
    w == Registering(k) || w == Tokening(k) || (w.Writing? && w.out.origin == Some(k))
  }

  predicate UnsentOk(s: State) {
    forall k :: 0 <= k < |s.calls| && Untaken(s.calls[k]) ==> !OnWire(s, k) && !HeldBy(s.writer, k)
  }

  lemma SenderKeepsUnsent(s: State, e: SenderStep)
    requires RepliesOk(s) && OriginsOk(s) && UnsentOk(s) && SenderEnabled(s, e)
    ensures UnsentOk(SenderNext(s, e))
  {
    hide IdsDistinct, ReaderOk;
    SenderFrame(s, e);
    var t := SenderNext(s, e);
    forall k | 0 <= k < |t.calls| && Untaken(t.calls[k])
      ensures !OnWire(t, k) && !HeldBy(t.writer, k)
    {
      if k < |s.calls| {
        assert CallOk(s, s.calls[k]);
        assert Untaken(s.calls[k]);
      }
    }
  }

  lemma WriterKeepsUnsent(s: State, e: WriterStep)
    requires RepliesOk(s) && UnsentOk(s) && WriterEnabled(s, e)
    ensures UnsentOk(WriterNext(s, e))
  {
    hide IdsDistinct, ReaderOk, AwaitingOk, Stamp;
    var t := WriterNext(s, e);
    forall k | 0 <= k < |t.calls| && Untaken(t.calls[k])
      ensures !OnWire(t, k) && !HeldBy(t.writer, k)
    {
      assert CallOk(s, s.calls[k]) && Untaken(s.calls[k]);
      assert !OnWire(s, k) && !HeldBy(s.writer, k);
    }
  }

  lemma ReaderKeepsUnsent(s: State, e: ReaderStep)
    requires UnsentOk(s) && ReaderEnabled(s, e)
    ensures UnsentOk(ReaderNext(s, e))
  {
    ReaderFrame(s, e);
    var t := ReaderNext(s, e);
    forall k | 0 <= k < |t.calls| && Untaken(t.calls[k])
      ensures !OnWire(t, k) && !HeldBy(t.writer, k)
    {
      assert Untaken(s.calls[k]);
      assert !OnWire(s, k) && !HeldBy(s.writer, k);
    }
  }

  lemma ControlKeepsUnsent(s: State, e: ControlStep)
    requires RepliesOk(s) && GateOk(s) && OriginsOk(s) && UnsentOk(s) && ControlEnabled(s, e)
    ensures UnsentOk(ControlNext(s, e))
  {
    hide ControlNext, RepliesOk;
    ControlFrame(s, e);
    var t := ControlNext(s, e);
    forall k | 0 <= k < |t.calls| && Untaken(t.calls[k])
      ensures !OnWire(t, k) && !HeldBy(t.writer, k)
    {
      if k < |s.calls| {
        assert t.calls[k] == t.calls[..|s.calls|][k];
        assert !OnWire(s, k) && !HeldBy(s.writer, k);
      } else {
        NewIsUnsent(s, k);
      }
    }
  }

  lemma NewIsUnsent(s: State, k: nat)
    requires RepliesOk(s) && OriginsOk(s) && k >= |s.calls|
    ensures !OnWire(s, k) && !HeldBy(s.writer, k)
  {
    hide CallsOk, IdsDistinct, AwaitingOk, ReaderOk;
    forall j | 0 <= j < |s.wire|
      ensures s.wire[j].origin != Some(k)
    {
      assert IsOf(s, s.wire[j]);
    }
  }

  // ---- every run ----

  predicate Accounted(s: State) {
    EntriesLive(s) && DeliveredOk(s) && UnsentOk(s)
  }

  lemma SenderDelivers(s: State, e: SenderStep)
    requires SenderEnabled(s, e)
    ensures var t := SenderNext(s, e);
            forall k :: 0 <= k < |t.calls| && t.calls[k].phase == Delivered ==>
              k < |s.calls| && s.calls[k].phase == Delivered
  {}

  lemma ReaderDelivers(s: State, e: ReaderStep)
    requires ReaderEnabled(s, e)
    ensures var t := ReaderNext(s, e);
            forall k :: 0 <= k < |t.calls| && t.calls[k].phase == Delivered ==>
              k < |s.calls| && s.calls[k].phase == Delivered
  {}

  lemma ControlDelivers(s: State, e: ControlStep)
    requires GateOk(s) && ControlEnabled(s, e)
    ensures var t := ControlNext(s, e);
            && t.wire == s.wire && (t.writer == s.writer || s.writer == Unstarted)
            && forall k :: 0 <= k < |t.calls| && t.calls[k].phase == Delivered ==>
                 k < |s.calls| && s.calls[k].phase == Delivered
  {}

  lemma StepAccounts(s: State, e: Event)
    requires Invariant(s) && Accounted(s) && Enabled(s, e)
    ensures Accounted(Next(s, e))
  {
    hide EntriesLive, DeliveredOk, UnsentOk, RepliesOk, GateOk, VersionsOk, WireOk, OriginsOk, AcksOk, CloseOk,
         SenderNext, WriterNext, ReaderNext, ControlNext, SenderEnabled, WriterEnabled, ReaderEnabled, ControlEnabled;
    match e
    case Sending(x) =>
      SenderKeepsEntries(s, x);
      SenderFrame(s, x);
      SenderDelivers(s, x);
      OthersKeepDelivered(s, SenderNext(s, x));
      SenderKeepsUnsent(s, x);
    case Outgoing(x) =>
      WriterKeepsEntries(s, x);
      WriterKeepsDelivered(s, x);
      WriterKeepsUnsent(s, x);
    case Reading(x) =>
      ReaderKeepsEntries(s, x);
      ReaderFrame(s, x);
      ReaderDelivers(s, x);
      OthersKeepDelivered(s, ReaderNext(s, x));
      ReaderKeepsUnsent(s, x);
    case Control(x) =>
      ControlKeepsEntries(s, x);
      ControlDelivers(s, x);
      OthersKeepDelivered(s, ControlNext(s, x));
      ControlKeepsUnsent(s, x);
  }

  lemma {:induction false} RunAccounts(s: State, es: seq<Event>)
    requires Invariant(s) && Accounted(s) && Possible(s, es)
    ensures Invariant(After(s, es)) && Accounted(After(s, es))
    decreases |es|
  {
    hide Invariant, Accounted, Next, Enabled;
    if es != [] {
      StepAccounts(s, es[0]);
      StepKeeps(s, es[0]);
      RunAccounts(Next(s, es[0]), es[1..]);
    }
  }

  lemma ReachedAccounts(configured: nat, es: seq<Event>)
    requires Possible(Start(configured), es)
    ensures Invariant(After(Start(configured), es)) && Accounted(After(Start(configured), es))
  {
    hide Possible, Invariant, After;
    StartIsSafe(configured);
    RunAccounts(Start(configured), es);
  }

  /** No entry outlives its call: whatever is in the map is there under the id of a call that
      still waits for its reply, with its channel open. */
  lemma EntriesBelongToWaitingCalls(configured: nat, es: seq<Event>, id: nat)
    requires Possible(Start(configured), es) && id in After(Start(configured), es).awaiting
    ensures var s := After(Start(configured), es);
            s.awaiting[id] < |s.calls|
            && var c := s.calls[s.awaiting[id]];
               && c.id == id && c.chan.made && c.chan.sends == 0 && c.chan.closes == 0
               && (c.phase == Accepted || c.phase == Awaiting || c.phase == Cancelling)
  {
    hide Possible, After, GateOk, VersionsOk, WireOk, AcksOk, CloseOk, OriginsOk;
    ReachedAccounts(configured, es);
  }

  /** Cancelling: the call's entry is removed and its channel closed if the reader has not
      taken it, nothing else is touched, and the call fails. */
  lemma CancelCleansUp(configured: nat, es: seq<Event>, k: nat)
    requires Possible(Start(configured), es) && InPhase(After(Start(configured), es), k, Cancelling)
    ensures var s := After(Start(configured), es);
            var c, t := s.calls[k], Next(s, Sending(Cancel(k)));
            && (forall id :: id in t.awaiting <==> id in s.awaiting && id != c.id)
            && (forall id :: id in t.awaiting ==> t.awaiting[id] == s.awaiting[id])
            && t == s.(calls := t.calls, awaiting := t.awaiting) && |t.calls| == |s.calls|
            && (forall j :: 0 <= j < |s.calls| && j != k ==> t.calls[j] == s.calls[j])
            && t.calls[k].phase == Failed && t.calls[k].id == c.id
            && t.calls[k].chan.sends == c.chan.sends
            && t.calls[k].chan.closes == (if c.id in s.awaiting then 1 else c.chan.closes)
  {
    hide Possible, After, GateOk, VersionsOk, WireOk, AcksOk, CloseOk, OriginsOk;
    Reached(configured, es);
    var s := After(Start(configured), es);
    assert CallOk(s, s.calls[k]) && Assigned(s.calls[k]);
    if s.calls[k].id in s.awaiting {
      assert CallOk(s, s.calls[s.awaiting[s.calls[k].id]]) && Assigned(s.calls[s.awaiting[s.calls[k].id]]);
    }
  }

  /** What was reported as sent, and what a reply is awaited for, is written exactly once, as
      the call's message with its id, unless the writer has it in hand or has failed. */
  lemma RequestsAreWritten(configured: nat, es: seq<Event>, k: nat)
    requires Possible(Start(configured), es) && k < |After(Start(configured), es).calls|
    requires var c := After(Start(configured), es).calls[k];
             c.phase == Delivered || c.phase == Awaiting || c.phase.Answered?
    ensures var s := After(Start(configured), es);
            || s.writer == WriterDone
            || (s.writer.Writing? && s.writer.out.origin == Some(k))
            || exists j :: 0 <= j < |s.wire| && s.wire[j].origin == Some(k)
                           && s.wire[j].typ == s.calls[k].typ && s.wire[j].id == s.calls[k].id
    ensures var s := After(Start(configured), es);
            forall i, j :: 0 <= i < j < |s.wire| ==> s.wire[i].origin != Some(k) || s.wire[j].origin != Some(k)
  {
    hide Possible, After, GateOk, VersionsOk, WireOk, AcksOk, CloseOk, IdsDistinct, AwaitingOk, ReaderOk, WriterOk,
         EntriesLive;
    ReachedAccounts(configured, es);
    var s := After(Start(configured), es);
    assert CallOk(s, s.calls[k]);
    assert WrittenOrLost(s, k);
    if j :| 0 <= j < |s.wire| && s.wire[j].origin == Some(k) {
      assert IsOf(s, s.wire[j]);
    }
  }

  /** A call that still waits to be taken, or gave up before it was, is not written. */
  lemma GivenUpIsUnsent(configured: nat, es: seq<Event>, k: nat, j: nat)
    requires Possible(Start(configured), es) && k < |After(Start(configured), es).calls|
    requires var c := After(Start(configured), es).calls[k];
             c.phase == Gate || c.phase == Queueing || (c.phase == Failed && !c.token)
    ensures var s := After(Start(configured), es);
            j < |s.wire| ==> s.wire[j].origin != Some(k)
  {
    hide Possible, After, Invariant, EntriesLive, DeliveredOk;
    ReachedAccounts(configured, es);
    var s := After(Start(configured), es);
    assert Untaken(s.calls[k]);
    assert !OnWire(s, k);
  }

  // ---- a request and its reply ----

  lemma Prepend(s: State, e: Event, es: seq<Event>)
    requires Enabled(s, e) && Possible(Next(s, e), es)
    ensures Possible(s, [e] + es) && After(s, [e] + es) == After(Next(s, e), es)
  {
    hide Enabled, Next;
    assert ([e] + es)[1..] == es;
  }

  lemma {:induction false} Append(s: State, es: seq<Event>, more: seq<Event>)
    requires Possible(s, es) && Possible(After(s, es), more)
    ensures Possible(s, es + more) && After(s, es + more) == After(After(s, es), more)
    decreases |es|
  {
    hide Enabled, Next;
    if es == [] {
      assert [] + more == more;
    } else {
      Append(Next(s, es[0]), es[1..], more);
      assert (es + more)[1..] == es[1..] + more;
    }
  }

  lemma NoSteps(s: State)
    ensures Possible(s, []) && After(s, []) == s
  {}

  /** From the queue to the wire: registered, token handed over, header written. */
  lemma RequestGoesOut(s: State, k: nat) returns (es: seq<Event>)
    requires InPhase(s, k, Queueing) && s.calls[k].kind != NoWait && s.calls[k].preset == 0
    requires s.writer == First && s.acks.queue == [] && !s.Done() && s.nextId < 0x1_0000_0000
    ensures Possible(s, es) && forall j :: 0 <= j < |es| ==> !es[j].Control?
    ensures var t, c := After(s, es), s.calls[k];
            && t.reader == s.reader && t.session == s.session && t.closing == s.closing && t.acks == s.acks
            && t.nextId == s.nextId + 1 && t.writer == (if c.typ == CLOSE_CONNECTION then ClosedOut else First)
            && |t.calls| == |s.calls| && t.calls[k].kind == c.kind
            && |t.wire| == |s.wire| + 1 && t.wire[..|s.wire|] == s.wire
            && t.wire[|s.wire|].typ == c.typ && t.wire[|s.wire|].id == s.nextId && t.wire[|s.wire|].origin == Some(k)
            && InPhase(t, k, Awaiting) && t.calls[k].id == s.nextId
            && s.nextId in t.awaiting && t.awaiting[s.nextId] == k
            && t.calls[k].chan == Channel(true, None, 0, 0)
  {
    hide Stamp;
    es := [Outgoing(NoAck), Outgoing(Take(k)), Outgoing(Register), Outgoing(Token), Outgoing(Write),
           Sending(GetToken(k))];
    SixSteps(s, Outgoing(NoAck), Outgoing(Take(k)), Outgoing(Register), Outgoing(Token), Outgoing(Write),
             Sending(GetToken(k)));
  }

  lemma SixSteps(s: State, a: Event, b: Event, c: Event, d: Event, e: Event, f: Event)
    requires Enabled(s, a) && Enabled(Next(s, a), b) && Enabled(Next(Next(s, a), b), c)
    requires Enabled(Next(Next(Next(s, a), b), c), d) && Enabled(Next(Next(Next(Next(s, a), b), c), d), e)
    requires Enabled(Next(Next(Next(Next(Next(s, a), b), c), d), e), f)
    ensures Possible(s, [a, b, c, d, e, f])
    ensures After(s, [a, b, c, d, e, f]) == Next(Next(Next(Next(Next(Next(s, a), b), c), d), e), f)
  {
    hide Enabled, Next, Possible, After;
    var s1 := Next(s, a);
    var s2 := Next(s1, b);
    var s3 := Next(s2, c);
    var s4 := Next(s3, d);
    var s5 := Next(s4, e);
    NoSteps(Next(s5, f));
    Prepend(s5, f, []);
    Prepend(s4, e, [f] + []);
    Prepend(s3, d, [e] + ([f] + []));
    Prepend(s2, c, [d] + ([e] + ([f] + [])));
    Prepend(s1, b, [c] + ([d] + ([e] + ([f] + []))));
    Prepend(s, a, [b] + ([c] + ([d] + ([e] + ([f] + [])))));
    assert [a] + ([b] + ([c] + ([d] + ([e] + ([f] + []))))) == [a, b, c, d, e, f];
  }

  /** From the connection to the caller: a message with a registered id is taken from the map,
      sent on the call's channel, which is closed, and returned by the call that waits; the
      reader then goes on. */
  lemma ReplyComesIn(s: State, k: nat, m: Incoming) returns (es: seq<Event>)
    requires InPhase(s, k, Awaiting) && s.reader == Awake
    requires m.id in s.awaiting && s.awaiting[m.id] == k
    ensures Possible(s, es) && forall j :: 0 <= j < |es| ==> !es[j].Control?
    ensures var t := After(s, es);
            && InPhase(t, k, Answered(m)) && m.id !in t.awaiting && t.wire == s.wire && t.reader == Awake
            && t == s.(calls := t.calls, awaiting := t.awaiting, acks := QueueAck(s.acks, m))
            && |t.calls| == |s.calls| && t.calls[k].kind == s.calls[k].kind
            && t.calls[k].chan.sends == s.calls[k].chan.sends + 1
            && t.calls[k].chan.closes == s.calls[k].chan.closes + 1
  {
    hide QueueAck;
    var a, b, c, d, e := Reading(Arrive(m)), Reading(Deliver), Reading(Complete), Sending(GetReply(k)), Reading(Handle);
    es := [a, b, c, d, e];
    FiveSteps(s, a, b, c, d, e);
  }

  lemma FiveSteps(s: State, a: Event, b: Event, c: Event, d: Event, e: Event)
    requires Enabled(s, a) && Enabled(Next(s, a), b) && Enabled(Next(Next(s, a), b), c)
    requires Enabled(Next(Next(Next(s, a), b), c), d) && Enabled(Next(Next(Next(Next(s, a), b), c), d), e)
    ensures Possible(s, [a, b, c, d, e])
    ensures After(s, [a, b, c, d, e]) == Next(Next(Next(Next(Next(s, a), b), c), d), e)
  {
    hide Enabled, Next, Possible, After;
    var s1 := Next(s, a);
    var s2 := Next(s1, b);
    var s3 := Next(s2, c);
    var s4 := Next(s3, d);
    NoSteps(Next(s4, e));
    Prepend(s4, e, []);
    Prepend(s3, d, [e] + []);
    Prepend(s2, c, [d] + ([e] + []));
    Prepend(s1, b, [c] + ([d] + ([e] + [])));
    Prepend(s, a, [b] + ([c] + ([d] + ([e] + []))));
    assert [a] + ([b] + ([c] + ([d] + ([e] + [])))) == [a, b, c, d, e];
  }

  /** A caller that stops: before its request is taken it gives up, and while it waits for a
      reply it cancels; either way the call fails and leaves no entry behind. */
  lemma CallCanStop(s: State, k: nat) returns (es: seq<Event>)
    requires InPhase(s, k, Gate) || InPhase(s, k, Queueing) || InPhase(s, k, Awaiting)
    ensures Possible(s, es)
    ensures var t := After(s, es);
            && InPhase(t, k, Failed) && t.wire == s.wire && t.calls[k].id == s.calls[k].id
            && (s.calls[k].phase == Awaiting && s.calls[k].id in s.awaiting && s.awaiting[s.calls[k].id] == k ==>
                  s.calls[k].id !in t.awaiting && t.calls[k].chan.closes == s.calls[k].chan.closes + 1)
  {
    if s.calls[k].phase == Awaiting {
      var s1 := Next(s, Sending(StopWaiting(k)));
      NoSteps(Next(s1, Sending(Cancel(k))));
      Prepend(s1, Sending(Cancel(k)), []);
      Prepend(s, Sending(StopWaiting(k)), [Sending(Cancel(k))] + []);
      es := [Sending(StopWaiting(k))] + ([Sending(Cancel(k))] + []);
    } else {
      NoSteps(Next(s, Sending(GiveUp(k))));
      Prepend(s, Sending(GiveUp(k)), []);
      es := [Sending(GiveUp(k))] + [];
    }
  }

  /** Calls past the gate: made, and let through while the client is ready. */
  lemma CallIsQueued(s: State, kind: Kind, typ: nat, preset: nat, version: nat) returns (es: seq<Event>)
    requires External(kind) && (kind == Awaited ==> preset == 0 && version == VERSION_1_0_1) && s.session.ready
    ensures Possible(s, es)
    ensures After(s, es) == s.(calls := s.calls + [Fresh(kind, typ, preset, version, Queueing)])
  {
    var a, b := Sending(NewCall(kind, typ, preset, version)), Sending(PassGate(|s.calls|));
    var s1 := Next(s, a);
    NoSteps(Next(s1, b));
    Prepend(s1, b, []);
    Prepend(s, a, [b] + []);
    es := [a] + ([b] + []);
    assert Next(s1, b).calls == s.calls + [Fresh(kind, typ, preset, version, Queueing)];
  }

  /** SendMessage: from any state in which the gate is open, the writer idle, the reader
      awake and no ack waits, a new request can go out under a new id, and when a message
      with that id comes in, the call returns that message. */
  lemma RequestIsAnswered(s: State, typ: nat, m: Incoming) returns (es: seq<Event>)
    requires s.session.ready && s.writer == First && s.acks.queue == [] && !s.Done() && s.reader == Awake
    requires s.nextId < 0x1_0000_0000 && m.id == s.nextId
    ensures Possible(s, es)
    ensures var t, k := After(s, es), |s.calls|;
            && InPhase(t, k, Answered(m)) && m.id !in t.awaiting
            && |t.wire| == |s.wire| + 1 && t.wire[..|s.wire|] == s.wire
            && t.wire[|s.wire|].typ == typ && t.wire[|s.wire|].id == m.id
  {
    hide Possible, After, Next, Enabled;
    var call := CallIsQueued(s, Awaited, typ, 0, VERSION_1_0_1);
    var q := After(s, call);
    var out := RequestGoesOut(q, |s.calls|);
    var answer := ReplyComesIn(After(q, out), |s.calls|, m);
    Append(q, out, answer);
    Append(s, call, out + answer);
    es := call + (out + answer);
  }

  /** SendNoWait: a new message can be written, under its own id or a new one, and the call
      has then returned. */
  lemma MessageIsSent(s: State, typ: nat, preset: nat, version: nat) returns (es: seq<Event>)
    requires s.session.ready && s.writer == First && s.acks.queue == [] && !s.Done() && s.nextId < 0x1_0000_0000
    ensures Possible(s, es)
    ensures var t, k := After(s, es), |s.calls|;
            && InPhase(t, k, Delivered) && t.awaiting == s.awaiting
            && |t.wire| == |s.wire| + 1 && t.wire[..|s.wire|] == s.wire
            && t.wire[|s.wire|].typ == typ && t.wire[|s.wire|].id == if preset == 0 then s.nextId else preset
  {
    hide Stamp, Possible, After;
    var call := CallIsQueued(s, NoWait, typ, preset, version);
    var q := After(s, call);
    var a, b, c := Outgoing(NoAck), Outgoing(Take(|s.calls|)), Outgoing(Write);
    var q1 := Next(q, a);
    var q2 := Next(q1, b);
    NoSteps(Next(q2, c));
    Prepend(q2, c, []);
    Prepend(q1, b, [c] + []);
    Prepend(q, a, [b] + ([c] + []));
    Append(s, call, [a] + ([b] + ([c] + [])));
    es := call + ([a] + ([b] + ([c] + [])));
  }

  // ---- KeepAlives ----

  /** The ids of the KeepAlives that are handled in a step: those the reader loop comes to,
      and a first message that is one. */
  function HandledNow(s: State, e: Event): seq<nat> {
    if e == Reading(Handle) && s.reader.Handling? && s.reader.m.typ == KEEP_ALIVE then [s.reader.m.id]
    else if e.Control? && e.c.InitialFails? && e.c.first.Some? && e.c.first.value.typ == KEEP_ALIVE
            && |e.c.first.value.payload| <= Framing.MAX_BUFFERED then [e.c.first.value.id]
    else []
  }

  function Handled(s: State, es: seq<Event>): seq<nat>
    requires Possible(s, es)
    decreases |es|
  {
    if es == [] then [] else HandledNow(s, es[0]) + Handled(Next(s, es[0]), es[1..])
  }

  /** How many of them come while five wait. */
  function Crowded(s: State, es: seq<Event>): nat
    requires Possible(s, es)
    decreases |es|
  {
    if es == [] then 0
    else (if |s.acks.queue| >= 5 then |HandledNow(s, es[0])| else 0) + Crowded(Next(s, es[0]), es[1..])
  }

  lemma HandleStep(s: State, e: Event)
    requires Enabled(s, e)
    ensures var a, b := s.acks, Next(s, e).acks;
            && b.received == a.received + HandledNow(s, e)
            && |b.received| - |b.accepted|
               == |a.received| - |a.accepted| + if |a.queue| >= 5 then |HandledNow(s, e)| else 0
  {
    match e
    case Sending(x) => SenderFrame(s, x);
    case Outgoing(x) =>
    case Reading(x) =>
    case Control(x) =>
  }

  lemma {:induction false} HandleRun(s: State, es: seq<Event>)
    requires Possible(s, es)
    ensures var a, b := s.acks, After(s, es).acks;
            && b.received == a.received + Handled(s, es)
            && |b.received| - |b.accepted| == |a.received| - |a.accepted| + Crowded(s, es)
    decreases |es|
  {
    hide Enabled, Next, HandledNow;
    if es == [] {
      assert s.acks.received + [] == s.acks.received;
    } else {
      HandleStep(s, es[0]);
      HandleRun(Next(s, es[0]), es[1..]);
    }
  }

  /** Exactly the KeepAlives that come while five ids wait are dropped. */
  lemma DroppedIffFiveWait(configured: nat, es: seq<Event>)
    requires Possible(Start(configured), es)
    ensures var s := After(Start(configured), es);
            && s.acks.received == Handled(Start(configured), es)
            && |s.acks.received| - |s.acks.accepted| == Crowded(Start(configured), es)
            && |s.acks.accepted| == |s.acks.acked| + |s.acks.queue|
  {
    hide Possible, After, Handled, Crowded;
    HandleRun(Start(configured), es);
    AcksKeepOrder(configured, es);
    assert [] + Handled(Start(configured), es) == Handled(Start(configured), es);
  }

  /** An id that waits can be acked: the writer takes it and writes a KeepAliveAck with it. */
  lemma AckGoesOut(s: State) returns (es: seq<Event>)
    requires (s.writer == First || s.writer == Second) && s.acks.queue != []
    ensures Possible(s, es)
    ensures var t := After(s, es);
            && t.writer == First && t.acks.queue == s.acks.queue[1..]
            && |t.wire| == |s.wire| + 1 && t.wire[..|s.wire|] == s.wire
            && t.wire[|s.wire|].typ == KEEP_ALIVE_ACK && t.wire[|s.wire|].id == s.acks.queue[0].id
  {
    hide Stamp;
    var s1 := Next(s, Outgoing(PickAck));
    NoSteps(Next(s1, Outgoing(Write)));
    Prepend(s1, Outgoing(Write), []);
    Prepend(s, Outgoing(PickAck), [Outgoing(Write)] + []);
    es := [Outgoing(PickAck)] + ([Outgoing(Write)] + []);
  }
}
