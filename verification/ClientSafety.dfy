/** What every step of the client's protocol keeps, and so every run. */
module ClientSafety {
  import opened Outcomes
  import opened Messages
  import opened Protocol

  // ---- closing ----

  /** One winner of the compare-and-swap closes `done` once and alone returns nil. */
  predicate CloseOk(s: State) {
    s.closing.pending + s.closing.dones == (if s.closing.isClosed then 1 else 0) && s.closing.nils == s.closing.dones
  }

  // ---- reply channels ----

  /** The writer has given the call an id and will register it, or has done so. */
  predicate Assigned(c: Call) {
    c.kind != NoWait && (c.phase == Accepted || c.chan.made)
  }

  predicate CallOk(s: State, c: Call) {
    && (c.kind == AskVersion ==> c.typ == GET_SUPPORTED_VERSION && c.preset == 0)
    && (c.kind == SetVersion ==> c.typ == SET_PROTOCOL_VERSION && c.preset == 0)
    && (c.kind == Awaited ==> c.preset == 0)
    && (c.phase == Gate ==> External(c.kind))
    && (c.kind == NoWait ==> !c.chan.made && !c.token && c.phase in {Gate, Queueing, Failed, Delivered})
    && (c.phase == Delivered ==> c.kind == NoWait)
    && (c.chan.made ==> !(c.phase in {Gate, Queueing, Delivered}))
    && (c.phase.Awaiting? || c.phase.Cancelling? || c.phase.Answered? ==> c.token)
    && (c.token ==> c.chan.made)
    && (Assigned(c) ==> c.id < s.nextId)
    && (c.phase.Answered? ==> c.phase.reply.id == c.id && c.chan.sends == 1)
    && (c.chan.buffer.Some? ==> c.chan.buffer.value.id == c.id && c.chan.sends == 1)
    && c.chan.sends <= 1 && c.chan.closes <= 1
    && (c.phase == Accepted || c.phase == Awaiting ==>
          (c.chan.sends == 1 ==> c.chan.buffer.Some?) && (c.chan.closes == 1 ==> c.chan.sends == 1))
    && (!c.chan.made ==> c.chan == NO_CHANNEL)
  }

  predicate CallsOk(s: State) {
    forall k :: 0 <= k < |s.calls| ==> CallOk(s, s.calls[k])
  }

  predicate IdsDistinct(s: State) {
    forall j, k :: 0 <= j < |s.calls| && 0 <= k < |s.calls| ==>
      (Assigned(s.calls[j]) && Assigned(s.calls[k]) && s.calls[j].id == s.calls[k].id ==> j == k)
  }

  /** Call `k`'s reply channel exists and nothing has been done with it. */
  predicate Untouched(s: State, k: nat) {
    && k < |s.calls| && s.calls[k].kind != NoWait && s.calls[k].chan.made
    && s.calls[k].chan.sends == 0 && s.calls[k].chan.closes == 0
  }

  /** Whatever is in the map is owned by nobody else. */
  predicate AwaitingOk(s: State) {
    forall id :: id in s.awaiting ==> Untouched(s, s.awaiting[id]) && s.calls[s.awaiting[id]].id == id
  }

  /** The reader owns the channel it took from the map. */
  predicate ReaderOk(s: State) {
    && (s.reader.Delivering? ==>
          Untouched(s, s.reader.k) && s.calls[s.reader.k].id == s.reader.m.id && s.reader.m.id !in s.awaiting)
    && (s.reader.Completing? ==>
          && s.reader.k < |s.calls| && s.reader.m.id !in s.awaiting
          && var c := s.calls[s.reader.k];
             c.kind != NoWait && c.chan.made && c.id == s.reader.m.id && c.chan.sends == 1 && c.chan.closes == 0)
  }

  /** An accepted call without its channel or its token is the one the writer serves. */
  predicate ServedNow(s: State, k: nat)
    requires k < |s.calls|
  {
    s.calls[k].phase == Accepted ==>
      && (!s.calls[k].chan.made ==> s.writer == Registering(k))
      && (s.calls[k].chan.made && !s.calls[k].token ==> s.writer == Tokening(k))
  }

  /** The writer serves one accepted call at a time. */
  predicate WriterOk(s: State) {
    && (forall k :: 0 <= k < |s.calls| ==> ServedNow(s, k))
    && (s.writer.Registering? ==>
          s.writer.k < |s.calls| && s.calls[s.writer.k].phase == Accepted
          && s.calls[s.writer.k].kind != NoWait && !s.calls[s.writer.k].chan.made)
    && (s.writer.Tokening? ==>
          s.writer.k < |s.calls| && s.calls[s.writer.k].phase == Accepted && s.calls[s.writer.k].chan.made
          && !s.calls[s.writer.k].token)
  }

  predicate RepliesOk(s: State) {
    CallsOk(s) && IdsDistinct(s) && AwaitingOk(s) && ReaderOk(s) && WriterOk(s)
  }

  // ---- the handshake ----

  predicate HandshakeTyp(typ: nat) {
    typ == GET_SUPPORTED_VERSION || typ == SET_PROTOCOL_VERSION || typ == KEEP_ALIVE_ACK
  }

  predicate BeforeGate(c: Call) {
    External(c.kind) ==> c.phase == Gate || c.phase == Failed
  }

  /** Until negotiation has succeeded, no call but `Connect`'s own gets past the gate
      while the loops run, and the loops do not run if the first message was wrong. */
  predicate GateOk(s: State) {
    var n := s.session;
    && (s.writer == Unstarted ==>
          && s.wire == [] && s.reader == NotReading && !n.negotiated && (n.connect == Initial || n.connect == Finished)
          && (forall k :: 0 <= k < |s.calls| ==> External(s.calls[k].kind) && !Assigned(s.calls[k])))
    && (s.writer != Unstarted ==> n.connect != Initial)
    && (n.ready ==> n.negotiated || s.writer == Unstarted)
    && (n.connect == Initial ==> !n.ready)
    && (!n.ready ==> forall k :: 0 <= k < |s.calls| ==> BeforeGate(s.calls[k]))
    && (n.negotiated ==> n.openedAt <= |s.wire|)
    && (forall j :: 0 <= j < (if n.negotiated then n.openedAt else |s.wire|) ==> HandshakeTyp(s.wire[j].typ))
    && (!n.negotiated && s.writer.Writing? ==> HandshakeTyp(s.writer.out.typ))
  }

  // ---- versions ----

  predicate HasSetVersion(s: State) {
    exists k :: 0 <= k < |s.calls| && s.calls[k].kind == SetVersion
  }

  predicate OnlyExternal(s: State) {
    forall k :: 0 <= k < |s.calls| ==> External(s.calls[k].kind)
  }

  /** The version is the lesser one, and SetProtocolVersion was sent, and answered, iff
      that is not what the reader uses already. */
  predicate Negotiated(s: State) {
    var n := s.session;
    if n.configured <= VERSION_1_0_1 then n.version == n.configured && OnlyExternal(s)
    else
      && n.supported.Some?
      && n.version == MinVersion(n.configured, n.supported.value.max)
      && (HasSetVersion(s) <==> n.supported.value.current != n.version)
      && forall k :: 0 <= k < |s.calls| && s.calls[k].kind == SetVersion ==> s.calls[k].phase.Answered?
  }

  predicate VersionsOk(s: State) {
    var n := s.session;
    && (n.connect == Initial ==> n.version == n.configured && n.supported == None && OnlyExternal(s))
    && (n.connect.Asking? ==>
          && n.version == n.configured > VERSION_1_0_1 && !HasSetVersion(s)
          && n.connect.k < |s.calls| && s.calls[n.connect.k].kind == AskVersion)
    && (n.connect.Setting? ==>
          && n.configured > VERSION_1_0_1 && n.supported.Some?
          && n.version == MinVersion(n.configured, n.supported.value.max) && n.supported.value.current != n.version
          && n.connect.k < |s.calls|
          && forall k :: 0 <= k < |s.calls| ==> (s.calls[k].kind == SetVersion <==> k == n.connect.k))
    && (n.connect == Opening || n.connect == Serving || n.negotiated ==> Negotiated(s))
    && (n.connect == Serving ==> n.negotiated)
    && (n.negotiated ==> n.connect == Serving || n.connect == Finished)
  }

  // ---- nothing after CloseConnection ----

  predicate WireOk(s: State) {
    forall j :: 0 <= j < |s.wire| && s.wire[j].typ == CLOSE_CONNECTION ==>
      j == |s.wire| - 1 && (s.writer == ClosedOut || s.writer == WriterDone)
  }

  // ---- what is written for a call ----

  predicate Taken(c: Call) {
    c.phase != Gate && c.phase != Queueing
  }

  /** A request on its way or written is its call's message, with the id the call was given. */
  predicate IsOf(s: State, out: Out) {
    out.origin.Some? ==>
      && out.origin.value < |s.calls|
      && var c := s.calls[out.origin.value];
         Taken(c) && out.id == c.id && out.typ == c.typ
  }

  predicate OnWire(s: State, k: nat) {
    exists j :: 0 <= j < |s.wire| && s.wire[j].origin == Some(k)
  }

  /** No call is written twice, and one with a token is written unless the writer failed. */
  predicate OriginsOk(s: State) {
    && (forall j :: 0 <= j < |s.wire| ==> IsOf(s, s.wire[j]))
    && (forall i, j :: 0 <= i < j < |s.wire| && s.wire[i].origin.Some? ==> s.wire[i].origin != s.wire[j].origin)
    && (s.writer.Writing? ==> IsOf(s, s.writer.out))
    && (s.writer.Writing? && s.writer.out.origin.Some? ==> !OnWire(s, s.writer.out.origin.value))
    && (s.writer.Registering? || s.writer.Tokening? ==> !OnWire(s, s.writer.k))
    && (forall k :: 0 <= k < |s.calls| && s.calls[k].token ==>
          OnWire(s, k) || (s.writer.Writing? && s.writer.out.origin == Some(k)) || s.writer == WriterDone)
  }

  // ---- acknowledgements ----

  function QueuedIds(acks: seq<Queued>): (r: seq<nat>)
    ensures |r| == |acks|
  {
    if acks == [] then [] else [acks[0].id] + QueuedIds(acks[1..])
  }

  /** The ids of the acks on the wire. */
  function AckIds(wire: seq<Out>): seq<nat> {
    if wire == [] then []
    else AckIds(wire[..|wire| - 1]) + if wire[|wire| - 1].origin == None then [wire[|wire| - 1].id] else []
  }

  /** `a` is `b` with some elements left out. */
  predicate Subsequence(a: seq<nat>, b: seq<nat>) {
    if a == [] then true
    else if b == [] then false
    else if a[|a| - 1] == b[|b| - 1] && Subsequence(a[..|a| - 1], b[..|b| - 1]) then true
    else Subsequence(a, b[..|b| - 1])
  }

  /** Whether the writer may write a request before it looks for acks again. */
  predicate MayPass(w: Writer) {
    w == Second || w.Registering? || w.Tokening? || (w.Writing? && w.out.origin.Some?)
  }

  function InHand(w: Writer): seq<nat> {
    if w.Writing? && w.out.origin == None then [w.out.id] else []
  }

  predicate QueueOk(a: Acks) {
    && |a.queue| <= ACK_QUEUE_SIZE
    && a.accepted == a.acked + QueuedIds(a.queue)
    && Subsequence(a.accepted, a.received)
  }

  predicate AcksOk(s: State) {
    && QueueOk(s.acks)
    && (s.writer != WriterDone ==> AckIds(s.wire) + InHand(s.writer) == s.acks.acked)
    && AckIds(s.wire) <= s.acks.acked
    && (forall j :: 0 <= j < |s.acks.queue| ==> s.acks.queue[j].passed <= if MayPass(s.writer) then 0 else 1)
    && (s.writer.Writing? && s.writer.out.origin == None ==> s.writer.out.typ == KEEP_ALIVE_ACK)
  }

  predicate Invariant(s: State) {
    CloseOk(s) && RepliesOk(s) && GateOk(s) && VersionsOk(s) && WireOk(s) && OriginsOk(s) && AcksOk(s)
  }

  // ---- each step keeps each part ----

  lemma StartIsSafe(configured: nat)
    ensures Invariant(Start(configured))
  {
    hide QueueOk;
    NothingQueued();
  }

  lemma NothingQueued()
    ensures QueueOk(Acks([], [], [], []))
  {}

  // ---- steps of the senders ----

  lemma SenderFrame(s: State, e: SenderStep)
    requires SenderEnabled(s, e)
    ensures var t := SenderNext(s, e);
            t == s.(calls := t.calls, awaiting := t.awaiting)
  {}

  lemma SenderKeepsCalls(s: State, e: SenderStep)
    requires RepliesOk(s) && SenderEnabled(s, e)
    ensures CallsOk(SenderNext(s, e))
  {
    hide ReaderOk, WriterOk;
    var t := SenderNext(s, e);
    forall j | 0 <= j < |t.calls|
      ensures CallOk(t, t.calls[j])
    {
      if j < |s.calls| {
        assert CallOk(s, s.calls[j]);
      }
    }
  }

  lemma SenderKeepsIds(s: State, e: SenderStep)
    requires RepliesOk(s) && SenderEnabled(s, e)
    ensures IdsDistinct(SenderNext(s, e))
  {
    hide AwaitingOk, ReaderOk, WriterOk;
    var t := SenderNext(s, e);
    forall i, j | 0 <= i < |t.calls| && 0 <= j < |t.calls| && Assigned(t.calls[i]) && Assigned(t.calls[j])
                  && t.calls[i].id == t.calls[j].id
      ensures i == j
    {
      if i < |s.calls| && j < |s.calls| {
        assert CallOk(s, s.calls[i]) && CallOk(s, s.calls[j]);
      }
    }
  }

  lemma SenderKeepsAwaiting(s: State, e: SenderStep)
    requires RepliesOk(s) && SenderEnabled(s, e)
    ensures AwaitingOk(SenderNext(s, e))
  {
    hide IdsDistinct, ReaderOk, WriterOk;
    var t := SenderNext(s, e);
    forall id | id in t.awaiting
      ensures Untouched(t, t.awaiting[id]) && t.calls[t.awaiting[id]].id == id
    {
      assert Untouched(s, s.awaiting[id]) && CallOk(s, s.calls[s.awaiting[id]]);
    }
  }

  lemma SenderKeepsReader(s: State, e: SenderStep)
    requires RepliesOk(s) && SenderEnabled(s, e)
    ensures ReaderOk(SenderNext(s, e))
  {
    hide IdsDistinct, WriterOk;
  }

  lemma SenderKeepsWriter(s: State, e: SenderStep)
    requires RepliesOk(s) && SenderEnabled(s, e)
    ensures WriterOk(SenderNext(s, e))
  {
    hide IdsDistinct, AwaitingOk, ReaderOk;
    var t := SenderNext(s, e);
    forall j | 0 <= j < |t.calls|
      ensures ServedNow(t, j)
    {
      if j < |s.calls| {
        assert CallOk(s, s.calls[j]) && ServedNow(s, j);
      }
    }
  }

  lemma SenderKeepsGate(s: State, e: SenderStep)
    requires RepliesOk(s) && GateOk(s) && SenderEnabled(s, e)
    ensures GateOk(SenderNext(s, e))
  {
    SenderFrame(s, e);
    var t := SenderNext(s, e);
    forall k | 0 <= k < |t.calls| && !t.session.ready
      ensures BeforeGate(t.calls[k])
    {
      if k < |s.calls| {
        assert CallOk(s, s.calls[k]) && BeforeGate(s.calls[k]);
      }
    }
    forall k | 0 <= k < |t.calls| && t.writer == Unstarted
      ensures External(t.calls[k].kind) && !Assigned(t.calls[k])
    {
      if k < |s.calls| {
        assert CallOk(s, s.calls[k]) && External(s.calls[k].kind) && !Assigned(s.calls[k]);
      }
    }
  }

  /** Calls are never dropped and never change their kind; an answer is final, and only
      `Connect` adds calls of its own. */
  predicate CallsKept(s: State, t: State) {
    && |s.calls| <= |t.calls|
    && (forall k :: 0 <= k < |s.calls| ==> Kept(s.calls[k], t.calls[k]))
    && (forall k :: |s.calls| <= k < |t.calls| ==> External(t.calls[k].kind))
  }

  /** Steps that write nothing and leave the writer and the tokens alone. */
  lemma OriginsFrame(s: State, t: State)
    requires OriginsOk(s) && t.wire == s.wire && t.writer == s.writer
    requires |s.calls| <= |t.calls| && forall k :: 0 <= k < |s.calls| ==> Kept(s.calls[k], t.calls[k])
    requires forall k :: 0 <= k < |t.calls| && t.calls[k].token ==> k < |s.calls| && s.calls[k].token
    ensures OriginsOk(t)
  {
    forall out | IsOf(s, out)
      ensures IsOf(t, out)
    {
      if out.origin.Some? {
        assert Kept(s.calls[out.origin.value], t.calls[out.origin.value]);
      }
    }
    assert forall k: nat :: OnWire(t, k) <==> OnWire(s, k);
  }

  predicate Kept(c: Call, d: Call) {
    && d.kind == c.kind && d.typ == c.typ
    && (c.phase.Answered? ==> d.phase == c.phase)
    && (Taken(c) ==> Taken(d) && d.id == c.id)
  }

  lemma SenderKeepsKinds(s: State, e: SenderStep)
    requires RepliesOk(s) && SenderEnabled(s, e)
    ensures CallsKept(s, SenderNext(s, e))
  {
    hide RepliesOk;
  }

  /** Nothing else of the versions is touched. */
  lemma VersionsFrame(s: State, t: State)
    requires VersionsOk(s) && CallsKept(s, t)
    requires t.session == s.session
    ensures VersionsOk(t)
  {
    KindsFrame(s, t);
  }

  lemma KindsFrame(s: State, t: State)
    requires CallsKept(s, t)
    ensures HasSetVersion(s) <==> HasSetVersion(t)
    ensures (forall k :: 0 <= k < |s.calls| ==> External(s.calls[k].kind))
            ==> forall k :: 0 <= k < |t.calls| ==> External(t.calls[k].kind)
    ensures forall k :: 0 <= k < |t.calls| && t.calls[k].kind == SetVersion ==>
              k < |s.calls| && s.calls[k].kind == SetVersion
  {
    if HasSetVersion(s) {
      var k :| 0 <= k < |s.calls| && s.calls[k].kind == SetVersion;
      assert Kept(s.calls[k], t.calls[k]);
    }
    forall k | 0 <= k < |t.calls| && t.calls[k].kind == SetVersion
      ensures k < |s.calls| && s.calls[k].kind == SetVersion
    {
      if k < |s.calls| {
        assert Kept(s.calls[k], t.calls[k]);
      }
    }
    if forall k :: 0 <= k < |s.calls| ==> External(s.calls[k].kind) {
      forall k | 0 <= k < |t.calls|
        ensures External(t.calls[k].kind)
      {
        if k < |s.calls| {
          assert Kept(s.calls[k], t.calls[k]);
        }
      }
    }
  }

  lemma SenderKeepsOrigins(s: State, e: SenderStep)
    requires RepliesOk(s) && OriginsOk(s) && SenderEnabled(s, e)
    ensures OriginsOk(SenderNext(s, e))
  {
    hide RepliesOk, OriginsOk, Kept;
    SenderFrame(s, e);
    SenderKeepsKinds(s, e);
    OriginsFrame(s, SenderNext(s, e));
  }

  lemma SenderKeeps(s: State, e: SenderStep)
    requires Invariant(s) && SenderEnabled(s, e)
    ensures Invariant(SenderNext(s, e))
  {
    hide SenderEnabled, SenderNext, OriginsOk, CallsOk, IdsDistinct, AwaitingOk, ReaderOk, WriterOk, GateOk,
         VersionsOk, CallsKept;
    SenderFrame(s, e);
    SenderKeepsCalls(s, e);
    SenderKeepsIds(s, e);
    SenderKeepsAwaiting(s, e);
    SenderKeepsReader(s, e);
    SenderKeepsWriter(s, e);
    SenderKeepsGate(s, e);
    SenderKeepsKinds(s, e);
    VersionsFrame(s, SenderNext(s, e));
    SenderKeepsOrigins(s, e);
  }

  // ---- steps of the writer ----

  lemma WriterFrame(s: State, e: WriterStep)
    requires WriterEnabled(s, e)
    ensures var t := WriterNext(s, e);
            t == s.(writer := t.writer, nextId := t.nextId, calls := t.calls, awaiting := t.awaiting, acks := t.acks,
                    wire := t.wire)
  {}

  lemma WriterKeepsCalls(s: State, e: WriterStep)
    requires RepliesOk(s) && WriterEnabled(s, e)
    ensures CallsOk(WriterNext(s, e))
  {
    hide IdsDistinct, AwaitingOk, ReaderOk;
    var t := WriterNext(s, e);
    forall j | 0 <= j < |t.calls|
      ensures CallOk(t, t.calls[j])
    {
      assert CallOk(s, s.calls[j]);
    }
  }

  lemma WriterKeepsIds(s: State, e: WriterStep)
    requires RepliesOk(s) && WriterEnabled(s, e)
    ensures IdsDistinct(WriterNext(s, e))
  {
    hide AwaitingOk, ReaderOk;
    var t := WriterNext(s, e);
    forall i, j | 0 <= i < |t.calls| && 0 <= j < |t.calls| && Assigned(t.calls[i]) && Assigned(t.calls[j])
                  && t.calls[i].id == t.calls[j].id
      ensures i == j
    {
      assert CallOk(s, s.calls[i]) && CallOk(s, s.calls[j]);
    }
  }

  lemma WriterKeepsAwaiting(s: State, e: WriterStep)
    requires RepliesOk(s) && WriterEnabled(s, e)
    ensures AwaitingOk(WriterNext(s, e))
  {
    hide IdsDistinct, ReaderOk;
    var t := WriterNext(s, e);
    forall id | id in t.awaiting
      ensures Untouched(t, t.awaiting[id]) && t.calls[t.awaiting[id]].id == id
    {
      if id in s.awaiting {
        assert Untouched(s, s.awaiting[id]) && CallOk(s, s.calls[s.awaiting[id]]);
      }
    }
  }

  lemma WriterKeepsReader(s: State, e: WriterStep)
    requires RepliesOk(s) && WriterEnabled(s, e)
    ensures ReaderOk(WriterNext(s, e))
  {}

  lemma WriterKeepsWriter(s: State, e: WriterStep)
    requires RepliesOk(s) && WriterEnabled(s, e)
    ensures WriterOk(WriterNext(s, e))
  {
    hide IdsDistinct, AwaitingOk, ReaderOk;
    var t := WriterNext(s, e);
    forall j | 0 <= j < |t.calls|
      ensures ServedNow(t, j)
    {
      assert CallOk(s, s.calls[j]) && ServedNow(s, j);
    }
  }

  lemma WriterKeepsGate(s: State, e: WriterStep)
    requires RepliesOk(s) && GateOk(s) && AcksOk(s) && WriterEnabled(s, e)
    ensures GateOk(WriterNext(s, e))
  {
    hide IdsDistinct, AwaitingOk, ReaderOk;
    WriterFrame(s, e);
    var t := WriterNext(s, e);
    forall k | 0 <= k < |t.calls| && !t.session.ready
      ensures BeforeGate(t.calls[k])
    {
      assert CallOk(s, s.calls[k]) && BeforeGate(s.calls[k]);
    }
  }

  lemma WriterKeepsKinds(s: State, e: WriterStep)
    requires RepliesOk(s) && WriterEnabled(s, e)
    ensures CallsKept(s, WriterNext(s, e))
  {}

  lemma WriterKeepsWire(s: State, e: WriterStep)
    requires WireOk(s) && WriterEnabled(s, e)
    ensures WireOk(WriterNext(s, e))
  {}

  lemma {:induction false} QueuedIdsSnoc(acks: seq<Queued>, q: Queued)
    ensures QueuedIds(acks + [q]) == QueuedIds(acks) + [q.id]
  {
    if acks == [] {
      assert acks + [q] == [q];
    } else {
      QueuedIdsSnoc(acks[1..], q);
      assert (acks + [q])[1..] == acks[1..] + [q];
    }
  }

  lemma {:induction false} PassingKeepsIds(acks: seq<Queued>)
    ensures QueuedIds(PassedByOne(acks)) == QueuedIds(acks)
  {
    if acks == [] {
    } else {
      PassingKeepsIds(acks[1..]);
      assert PassedByOne(acks)[1..] == PassedByOne(acks[1..]);
    }
  }

  lemma AckIdsSnoc(wire: seq<Out>, out: Out)
    ensures AckIds(wire + [out]) == AckIds(wire) + if out.origin == None then [out.id] else []
  {
    assert (wire + [out])[..|wire|] == wire;
  }

  lemma SubsequenceGrows(a: seq<nat>, b: seq<nat>, x: nat)
    requires Subsequence(a, b)
    ensures Subsequence(a, b + [x]) && Subsequence(a + [x], b + [x])
  {
    assert (b + [x])[..|b|] == b && (a + [x])[..|a|] == a;
    if a != [] {
      assert (b + [x]) != [];
    }
  }

  lemma PickKeepsQueue(a: Acks)
    requires QueueOk(a) && a.queue != []
    ensures QueueOk(a.(queue := a.queue[1..], acked := a.acked + [a.queue[0].id]))
  {
    hide Subsequence;
    assert a.acked + QueuedIds(a.queue) == (a.acked + [a.queue[0].id]) + QueuedIds(a.queue[1..]);
  }

  lemma PassKeepsQueue(a: Acks)
    requires QueueOk(a)
    ensures QueueOk(a.(queue := PassedByOne(a.queue)))
  {
    hide Subsequence;
    PassingKeepsIds(a.queue);
  }

  lemma WriterKeepsAcks(s: State, e: WriterStep)
    requires AcksOk(s) && WriterEnabled(s, e)
    ensures AcksOk(WriterNext(s, e))
  {
    hide Stamp, QueueOk, AckIds;
    match e
    case PickAck => PickKeepsQueue(s.acks);
    case Write =>
      var out := s.writer.out;
      AckIdsSnoc(s.wire, out.(version := Stamp(s, out)));
      PassKeepsQueue(s.acks);
      assert AckIds(s.wire) + [] == AckIds(s.wire);
    case WriterStops => assert AckIds(s.wire) <= s.acks.acked;
    case _ =>
  }

  lemma WriterKeepsMessages(s: State, e: WriterStep)
    requires CallsOk(s) && WriterOk(s) && OriginsOk(s) && WriterEnabled(s, e)
    ensures var t := WriterNext(s, e);
            && (forall j :: 0 <= j < |t.wire| ==> IsOf(t, t.wire[j]))
            && (t.writer.Writing? ==> IsOf(t, t.writer.out))
  {
    hide Stamp, CallOk, OnWire;
    var t := WriterNext(s, e);
    forall j | 0 <= j < |t.wire|
      ensures IsOf(t, t.wire[j])
    {
      if j < |s.wire| {
        assert IsOf(s, s.wire[j]);
      }
    }
  }

  lemma WriterWritesOnce(s: State, e: WriterStep)
    requires CallsOk(s) && WriterOk(s) && OriginsOk(s) && WriterEnabled(s, e)
    ensures var t := WriterNext(s, e);
            && (forall i, j :: 0 <= i < j < |t.wire| && t.wire[i].origin.Some? ==> t.wire[i].origin != t.wire[j].origin)
            && (t.writer.Writing? && t.writer.out.origin.Some? ==> !OnWire(t, t.writer.out.origin.value))
            && (t.writer.Registering? || t.writer.Tokening? ==> !OnWire(t, t.writer.k))
  {
    hide Stamp, CallOk;
  }

  lemma WriterWritesTokens(s: State, e: WriterStep)
    requires CallsOk(s) && WriterOk(s) && OriginsOk(s) && WriterEnabled(s, e)
    ensures var t := WriterNext(s, e);
            forall k :: 0 <= k < |t.calls| && t.calls[k].token ==>
              OnWire(t, k) || (t.writer.Writing? && t.writer.out.origin == Some(k)) || t.writer == WriterDone
  {
    hide Stamp, IsOf;
    var t := WriterNext(s, e);
    forall k | 0 <= k < |t.calls| && t.calls[k].token
      ensures OnWire(t, k) || (t.writer.Writing? && t.writer.out.origin == Some(k)) || t.writer == WriterDone
    {
      assert CallOk(s, s.calls[k]) && ServedNow(s, k);
      if OnWire(s, k) {
        var j :| 0 <= j < |s.wire| && s.wire[j].origin == Some(k);
        assert t.wire[j].origin == Some(k);
      } else if e.Write? {
        assert t.wire[|s.wire|].origin == s.writer.out.origin;
      }
    }
  }

  lemma WriterKeepsOrigins(s: State, e: WriterStep)
    requires RepliesOk(s) && OriginsOk(s) && WriterEnabled(s, e)
    ensures OriginsOk(WriterNext(s, e))
  {
    hide CallsOk, WriterOk, IdsDistinct, AwaitingOk, ReaderOk, WriterEnabled, WriterNext, IsOf, OnWire;
    WriterKeepsMessages(s, e);
    WriterWritesOnce(s, e);
    WriterWritesTokens(s, e);
  }

  lemma WriterKeeps(s: State, e: WriterStep)
    requires Invariant(s) && WriterEnabled(s, e)
    ensures Invariant(WriterNext(s, e))
  {
    hide WriterEnabled, WriterNext, OriginsOk, CallsOk, IdsDistinct, AwaitingOk, ReaderOk, WriterOk, GateOk,
         VersionsOk, CallsKept,
         WireOk, AcksOk;
    WriterFrame(s, e);
    WriterKeepsCalls(s, e);
    WriterKeepsIds(s, e);
    WriterKeepsAwaiting(s, e);
    WriterKeepsReader(s, e);
    WriterKeepsWriter(s, e);
    WriterKeepsGate(s, e);
    WriterKeepsKinds(s, e);
    WriterKeepsWire(s, e);
    WriterKeepsAcks(s, e);
    WriterKeepsOrigins(s, e);
    VersionsFrame(s, WriterNext(s, e));
  }

  // ---- steps of the reader ----

  lemma ReaderFrame(s: State, e: ReaderStep)
    requires ReaderEnabled(s, e)
    ensures var t := ReaderNext(s, e);
            t == s.(reader := t.reader, calls := t.calls, awaiting := t.awaiting, acks := t.acks)
  {}

  lemma ReaderKeepsCalls(s: State, e: ReaderStep)
    requires RepliesOk(s) && ReaderEnabled(s, e)
    ensures CallsOk(ReaderNext(s, e))
  {
    var t := ReaderNext(s, e);
    forall j | 0 <= j < |t.calls|
      ensures CallOk(t, t.calls[j])
    {
      assert CallOk(s, s.calls[j]);
    }
  }

  lemma ReaderKeepsIds(s: State, e: ReaderStep)
    requires RepliesOk(s) && ReaderEnabled(s, e)
    ensures IdsDistinct(ReaderNext(s, e))
  {
    var t := ReaderNext(s, e);
    forall i, j | 0 <= i < |t.calls| && 0 <= j < |t.calls| && Assigned(t.calls[i]) && Assigned(t.calls[j])
                  && t.calls[i].id == t.calls[j].id
      ensures i == j
    {
      assert CallOk(s, s.calls[i]) && CallOk(s, s.calls[j]);
    }
  }

  lemma ReaderKeepsAwaiting(s: State, e: ReaderStep)
    requires RepliesOk(s) && ReaderEnabled(s, e)
    ensures AwaitingOk(ReaderNext(s, e))
  {
    var t := ReaderNext(s, e);
    forall id | id in t.awaiting
      ensures Untouched(t, t.awaiting[id]) && t.calls[t.awaiting[id]].id == id
    {
      assert Untouched(s, s.awaiting[id]) && CallOk(s, s.calls[s.awaiting[id]]);
    }
  }

  lemma ReaderKeepsReader(s: State, e: ReaderStep)
    requires RepliesOk(s) && ReaderEnabled(s, e)
    ensures ReaderOk(ReaderNext(s, e))
  {}

  lemma ReaderKeepsWriter(s: State, e: ReaderStep)
    requires RepliesOk(s) && ReaderEnabled(s, e)
    ensures WriterOk(ReaderNext(s, e))
  {
    var t := ReaderNext(s, e);
    forall j | 0 <= j < |t.calls|
      ensures ServedNow(t, j)
    {
      assert CallOk(s, s.calls[j]) && ServedNow(s, j);
    }
  }

  lemma ReaderKeepsGate(s: State, e: ReaderStep)
    requires RepliesOk(s) && GateOk(s) && ReaderEnabled(s, e)
    ensures GateOk(ReaderNext(s, e))
  {
    ReaderFrame(s, e);
    var t := ReaderNext(s, e);
    forall k | 0 <= k < |t.calls| && !t.session.ready
      ensures BeforeGate(t.calls[k])
    {
      assert CallOk(s, s.calls[k]) && BeforeGate(s.calls[k]);
    }
  }

  lemma ReaderKeepsKinds(s: State, e: ReaderStep)
    requires RepliesOk(s) && ReaderEnabled(s, e)
    ensures CallsKept(s, ReaderNext(s, e))
  {}

  lemma QueueKeepsAcks(a: Acks, m: Incoming)
    requires QueueOk(a)
    ensures QueueOk(QueueAck(a, m))
  {
    hide Subsequence;
    SubsequenceGrows(a.accepted, a.received, m.id);
    QueuedIdsSnoc(a.queue, Queued(m.id, 0));
    assert a.acked + (QueuedIds(a.queue) + [m.id]) == a.acked + QueuedIds(a.queue) + [m.id];
  }

  lemma ReaderKeepsAcks(s: State, e: ReaderStep)
    requires AcksOk(s) && ReaderEnabled(s, e)
    ensures AcksOk(ReaderNext(s, e))
  {
    hide QueueOk, AckIds;
    if e.Handle? {
      QueueKeepsAcks(s.acks, s.reader.m);
    }
  }

  lemma ReaderKeepsOrigins(s: State, e: ReaderStep)
    requires RepliesOk(s) && OriginsOk(s) && ReaderEnabled(s, e)
    ensures OriginsOk(ReaderNext(s, e))
  {
    hide RepliesOk, OriginsOk, Kept;
    ReaderFrame(s, e);
    ReaderKeepsKinds(s, e);
    OriginsFrame(s, ReaderNext(s, e));
  }

  lemma ReaderKeeps(s: State, e: ReaderStep)
    requires Invariant(s) && ReaderEnabled(s, e)
    ensures Invariant(ReaderNext(s, e))
  {
    hide ReaderEnabled, ReaderNext, OriginsOk, CallsOk, IdsDistinct, AwaitingOk, ReaderOk, WriterOk, GateOk,
         VersionsOk, CallsKept,
         AcksOk;
    ReaderFrame(s, e);
    ReaderKeepsCalls(s, e);
    ReaderKeepsIds(s, e);
    ReaderKeepsAwaiting(s, e);
    ReaderKeepsReader(s, e);
    ReaderKeepsWriter(s, e);
    ReaderKeepsGate(s, e);
    ReaderKeepsKinds(s, e);
    ReaderKeepsAcks(s, e);
    VersionsFrame(s, ReaderNext(s, e));
    ReaderKeepsOrigins(s, e);
  }

  // ---- steps of `Connect` and `Close` ----

  lemma ControlKeepsClose(s: State, e: ControlStep)
    requires CloseOk(s) && ControlEnabled(s, e)
    ensures CloseOk(ControlNext(s, e))
  {}

  lemma ControlFrame(s: State, e: ControlStep)
    requires ControlEnabled(s, e)
    ensures var t := ControlNext(s, e);
            && t == s.(session := t.session, closing := t.closing, writer := t.writer, reader := t.reader,
                       calls := t.calls, acks := t.acks)
            && |s.calls| <= |t.calls| && t.calls[..|s.calls|] == s.calls
            && (forall k :: |s.calls| <= k < |t.calls| ==>
                  && t.calls[k].phase == Queueing && t.calls[k].chan == NO_CHANNEL && !t.calls[k].token
                  && t.calls[k].preset == 0
                  && ((t.calls[k].kind == AskVersion && t.calls[k].typ == GET_SUPPORTED_VERSION)
                      || (t.calls[k].kind == SetVersion && t.calls[k].typ == SET_PROTOCOL_VERSION)))
            && (t.writer, t.reader) == if e.InitialOk? then (First, Awake) else (s.writer, s.reader)
  {}

  lemma ControlKeepsReplies(s: State, e: ControlStep)
    requires RepliesOk(s) && GateOk(s) && ControlEnabled(s, e)
    ensures RepliesOk(ControlNext(s, e))
  {
    hide ControlNext;
    ControlFrame(s, e);
    var t := ControlNext(s, e);
    forall j | 0 <= j < |t.calls|
      ensures CallOk(t, t.calls[j]) && ServedNow(t, j)
    {
      if j < |s.calls| {
        assert t.calls[j] == t.calls[..|s.calls|][j];
        assert CallOk(s, s.calls[j]) && ServedNow(s, j);
      }
    }
    forall id | id in t.awaiting
      ensures Untouched(t, t.awaiting[id]) && t.calls[t.awaiting[id]].id == id
    {
      assert Untouched(s, s.awaiting[id]);
      assert t.calls[s.awaiting[id]] == t.calls[..|s.calls|][s.awaiting[id]];
    }
    assert forall j :: 0 <= j < |s.calls| ==> t.calls[j] == t.calls[..|s.calls|][j];
  }

  lemma ControlKeepsGate(s: State, e: ControlStep)
    requires RepliesOk(s) && GateOk(s) && VersionsOk(s) && ControlEnabled(s, e)
    ensures GateOk(ControlNext(s, e))
  {
    var t := ControlNext(s, e);
    forall k | 0 <= k < |t.calls| && !t.session.ready
      ensures BeforeGate(t.calls[k])
    {
      if k < |s.calls| {
        assert BeforeGate(s.calls[k]);
      }
    }
    forall k | 0 <= k < |t.calls| && t.writer == Unstarted
      ensures External(t.calls[k].kind) && !Assigned(t.calls[k])
    {
      assert External(s.calls[k].kind) && !Assigned(s.calls[k]);
    }
  }

  lemma ControlKeepsVersions(s: State, e: ControlStep)
    requires GateOk(s) && VersionsOk(s) && ControlEnabled(s, e)
    ensures VersionsOk(ControlNext(s, e))
  {
    var t := ControlNext(s, e);
    match e
    case VersionsKnown(versions) =>
      if t.session.connect.Setting? {
        assert t.calls[t.session.connect.k].kind == SetVersion;
      }
    case VersionAccepted =>
      assert t.calls[s.session.connect.k].kind == SetVersion;
    case _ =>
  }

  lemma ControlKeepsWire(s: State, e: ControlStep)
    requires GateOk(s) && WireOk(s) && ControlEnabled(s, e)
    ensures WireOk(ControlNext(s, e))
  {}

  lemma ControlKeepsAcks(s: State, e: ControlStep)
    requires GateOk(s) && AcksOk(s) && ControlEnabled(s, e)
    ensures AcksOk(ControlNext(s, e))
  {
    hide QueueOk, AckIds, External, Assigned, BeforeGate, HandshakeTyp;
    if e.InitialFails? && e.first.Some? {
      QueueKeepsAcks(s.acks, e.first.value);
    }
  }

  lemma ControlKeepsOrigins(s: State, e: ControlStep)
    requires RepliesOk(s) && GateOk(s) && OriginsOk(s) && ControlEnabled(s, e)
    ensures OriginsOk(ControlNext(s, e))
  {
    hide RepliesOk, ControlNext, Taken;
    ControlFrame(s, e);
    var t := ControlNext(s, e);
    assert forall k :: 0 <= k < |s.calls| ==> t.calls[k] == t.calls[..|s.calls|][k];
    if e.InitialOk? {
      assert s.wire == [];
      ControlKeepsTokens(s, e);
    } else {
      OriginsFrame(s, t);
    }
  }

  lemma ControlKeepsTokens(s: State, e: ControlStep)
    requires RepliesOk(s) && GateOk(s) && ControlEnabled(s, e) && e.InitialOk?
    ensures forall k :: 0 <= k < |ControlNext(s, e).calls| ==> !ControlNext(s, e).calls[k].token
  {
    forall k | 0 <= k < |s.calls|
      ensures !s.calls[k].token
    {
      assert CallOk(s, s.calls[k]) && External(s.calls[k].kind) && !Assigned(s.calls[k]);
    }
  }

  lemma ControlKeeps(s: State, e: ControlStep)
    requires Invariant(s) && ControlEnabled(s, e)
    ensures Invariant(ControlNext(s, e))
  {
    hide *;
    InvariantParts(s);
    ControlKeepsClose(s, e);
    ControlKeepsReplies(s, e);
    ControlKeepsGate(s, e);
    ControlKeepsVersions(s, e);
    ControlKeepsWire(s, e);
    ControlKeepsAcks(s, e);
    ControlKeepsOrigins(s, e);
    PartsInvariant(ControlNext(s, e));
  }

  lemma InvariantParts(s: State)
    requires Invariant(s)
    ensures CloseOk(s) && RepliesOk(s) && GateOk(s) && VersionsOk(s) && WireOk(s) && OriginsOk(s) && AcksOk(s)
  {}

  lemma PartsInvariant(s: State)
    requires CloseOk(s) && RepliesOk(s) && GateOk(s) && VersionsOk(s) && WireOk(s) && OriginsOk(s) && AcksOk(s)
    ensures Invariant(s)
  {}

  // ---- every run ----

  lemma StepKeeps(s: State, e: Event)
    requires Invariant(s) && Enabled(s, e)
    ensures Invariant(Next(s, e))
  {
    hide Invariant, SenderNext, WriterNext, ReaderNext, ControlNext, SenderEnabled, WriterEnabled, ReaderEnabled,
         ControlEnabled;
    match e
    case Sending(x) => SenderKeeps(s, x);
    case Outgoing(x) => WriterKeeps(s, x);
    case Reading(x) => ReaderKeeps(s, x);
    case Control(x) => ControlKeeps(s, x);
  }

  lemma {:induction false} RunKeeps(s: State, es: seq<Event>)
    requires Invariant(s) && Possible(s, es)
    ensures Invariant(After(s, es))
    decreases |es|
  {
    hide Invariant, Next, Enabled;
    if es == [] {
    } else {
      StepKeeps(s, es[0]);
      RunKeeps(Next(s, es[0]), es[1..]);
    }
  }
}
