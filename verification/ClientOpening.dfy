/** How `Connect` follows what the reader sends: the first message and the answers to
    negotiation, decoded from their payloads. */
module ClientOpening {
  import opened Outcomes
  import opened Messages
  import opened Protocol
  import opened ClientSafety
  import opened ClientLaws
  import opened Handshake

  function FirstCheck(m: Incoming): Outcome<()> {
    InitialCheck(m.typ, m.payload)
  }

  function VersionsIn(reply: Incoming): Outcome<Versions> {
    SupportedVersions(reply.typ, reply.payload)
  }

  function Acceptance(reply: Incoming): Outcome<()> {
    VersionSet(reply.typ, reply.payload)
  }

  /** `Connect`'s own request was not answered, or not as it should have been. A reply whose
      decoding panics or never ends leaves `Connect` where it is. */
  predicate RequestFailed(s: State, connect: Connect) {
    match connect
    case Asking(k) => InPhase(s, k, Failed) || (IsAnswered(s, k) && VersionsIn(s.calls[k].phase.reply) == Reject)
    case Setting(k) => InPhase(s, k, Failed) || (IsAnswered(s, k) && Acceptance(s.calls[k].phase.reply) == Reject)
    case _ => true
  }

  /** The step does what the messages received call for. */
  predicate Follows(s: State, e: ControlStep)
    requires ControlEnabled(s, e)
  {
    match e
    case InitialOk(m) => FirstCheck(m).Ok?
    case InitialFails(first) => first.Some? ==> FirstCheck(first.value) == Reject
    case VersionsKnown(versions) => VersionsIn(s.calls[s.session.connect.k].phase.reply) == Ok(versions)
    case VersionAccepted => Acceptance(s.calls[s.session.connect.k].phase.reply).Ok?
    case ConnectFails => RequestFailed(s, s.session.connect)
    case _ => true
  }

  predicate Faithful(s: State, e: Event) {
    Enabled(s, e) && (e.Control? ==> Follows(s, e.c))
  }

  /** A run of the client. */
  predicate Happens(s: State, es: seq<Event>)
    decreases |es|
  {
    es == [] || (Faithful(s, es[0]) && Happens(Next(s, es[0]), es[1..]))
  }

  lemma {:induction false} HappensIsPossible(s: State, es: seq<Event>)
    requires Happens(s, es)
    ensures Possible(s, es)
    decreases |es|
  {
    hide Enabled, Next, Follows;
    if es != [] {
      HappensIsPossible(Next(s, es[0]), es[1..]);
    }
  }

  // ---- what follows ----

  /** The first message was checked before anything was started. */
  predicate FirstIsChecked(s: State) {
    s.writer != Unstarted ==> s.session.first.Some? && FirstCheck(s.session.first.value).Ok?
  }

  /** The reader's versions are those in the reply to `Connect`'s question. */
  predicate SupportedIsRead(s: State) {
    s.session.supported.Some? ==>
      exists k :: 0 <= k < |s.calls| && s.calls[k].kind == AskVersion && s.calls[k].phase.Answered?
                  && VersionsIn(s.calls[k].phase.reply) == Ok(s.session.supported.value)
  }

  /** Once the version is settled, a reader that was told it has agreed. */
  predicate SettingIsAccepted(s: State) {
    s.session.connect == Opening || s.session.connect == Serving || s.session.negotiated ==>
      forall k :: 0 <= k < |s.calls| && s.calls[k].kind == SetVersion ==>
        s.calls[k].phase.Answered? && Acceptance(s.calls[k].phase.reply).Ok?
  }

  predicate OpeningOk(s: State) {
    FirstIsChecked(s) && SupportedIsRead(s) && SettingIsAccepted(s)
  }

  lemma OpeningFrame(s: State, t: State)
    requires OpeningOk(s) && CallsKept(s, t) && t.session == s.session
    requires t.writer == Unstarted <==> s.writer == Unstarted
    ensures OpeningOk(t)
  {
    hide FirstCheck, VersionsIn, Acceptance;
    KindsFrame(s, t);
    if s.session.supported.Some? {
      var k :| 0 <= k < |s.calls| && s.calls[k].kind == AskVersion && s.calls[k].phase.Answered?
               && VersionsIn(s.calls[k].phase.reply) == Ok(s.session.supported.value);
      assert Kept(s.calls[k], t.calls[k]);
    }
    forall k | 0 <= k < |t.calls| && t.calls[k].kind == SetVersion && k < |s.calls| && s.calls[k].phase.Answered?
      ensures t.calls[k].phase == s.calls[k].phase && s.calls[k].kind == SetVersion
    {
      assert Kept(s.calls[k], t.calls[k]);
    }
  }

  lemma OpeningControl(s: State, e: ControlStep)
    requires Invariant(s) && OpeningOk(s) && ControlEnabled(s, e) && Follows(s, e)
    ensures OpeningOk(ControlNext(s, e))
  {
    hide FirstCheck, VersionsIn, Acceptance, RepliesOk, WireOk, OriginsOk, AcksOk, CloseOk;
    var t := ControlNext(s, e);
    if s.session.supported.Some? {
      var k :| 0 <= k < |s.calls| && s.calls[k].kind == AskVersion && s.calls[k].phase.Answered?
               && VersionsIn(s.calls[k].phase.reply) == Ok(s.session.supported.value);
      assert t.calls[k] == s.calls[k];
    }
    if e.VersionsKnown? {
      assert t.calls[s.session.connect.k] == s.calls[s.session.connect.k];
    }
  }

  lemma OpeningStep(s: State, e: Event)
    requires Invariant(s) && OpeningOk(s) && Faithful(s, e)
    ensures OpeningOk(Next(s, e))
  {
    hide FirstCheck, VersionsIn, Acceptance, OpeningOk, GateOk, VersionsOk, WireOk, OriginsOk, AcksOk, CloseOk,
         CallsOk, IdsDistinct, AwaitingOk, ReaderOk, WriterOk, CallsKept, Follows;
    match e
    case Sending(x) =>
      SenderFrame(s, x);
      SenderKeepsKinds(s, x);
      OpeningFrame(s, SenderNext(s, x));
    case Outgoing(x) =>
      WriterFrame(s, x);
      WriterKeepsKinds(s, x);
      OpeningFrame(s, WriterNext(s, x));
    case Reading(x) =>
      ReaderFrame(s, x);
      ReaderKeepsKinds(s, x);
      OpeningFrame(s, ReaderNext(s, x));
    case Control(x) =>
      OpeningControl(s, x);
  }

  lemma {:induction false} OpeningRun(s: State, es: seq<Event>)
    requires Invariant(s) && OpeningOk(s) && Happens(s, es)
    ensures Possible(s, es) && OpeningOk(After(s, es))
    decreases |es|
  {
    hide Invariant, OpeningOk, Next, Enabled, Follows;
    if es != [] {
      OpeningStep(s, es[0]);
      StepKeeps(s, es[0]);
      OpeningRun(Next(s, es[0]), es[1..]);
    }
  }

  lemma StartsOpen(configured: nat)
    ensures Invariant(Start(configured)) && OpeningOk(Start(configured))
  {
    hide Invariant;
    StartIsSafe(configured);
  }

  /** In every run of the client, nothing is written unless the first message was a
      notification of a successful connection, and until negotiation has succeeded nothing
      but the handshake. */
  lemma NothingBeforeSuccess(configured: nat, es: seq<Event>, j: nat)
    requires Happens(Start(configured), es)
    ensures Possible(Start(configured), es)
    ensures var s := After(Start(configured), es);
            var n := s.session;
            && (j < |s.wire| ==> n.first.Some? && FirstCheck(n.first.value).Ok?)
            && (j < |s.wire| && (n.negotiated ==> j < n.openedAt) ==> HandshakeTyp(s.wire[j].typ))
  {
    hide Happens, Possible, After, FirstCheck, VersionsIn, Acceptance, RepliesOk, VersionsOk, CloseOk, AcksOk,
         OriginsOk, WireOk, SupportedIsRead, SettingIsAccepted;
    StartsOpen(configured);
    OpeningRun(Start(configured), es);
    Reached(configured, es);
  }

  /** After negotiation the client's version is the lesser of its own and the highest the
      reader's reply named, and if that is not the current version the reply named, the
      reader was told and agreed. */
  lemma NegotiationFollowsReplies(configured: nat, es: seq<Event>)
    requires Happens(Start(configured), es)
    ensures Possible(Start(configured), es)
    ensures var s := After(Start(configured), es);
            var n := s.session;
            n.negotiated && configured > VERSION_1_0_1 ==>
              && n.supported.Some?
              && (exists k :: 0 <= k < |s.calls| && s.calls[k].kind == AskVersion && s.calls[k].phase.Answered?
                              && VersionsIn(s.calls[k].phase.reply) == Ok(n.supported.value))
              && n.version <= configured && n.version <= n.supported.value.max
              && (n.version == configured || n.version == n.supported.value.max)
              && (n.supported.value.current != n.version <==> HasSetVersion(s))
              && forall k :: 0 <= k < |s.calls| && s.calls[k].kind == SetVersion ==>
                   s.calls[k].phase.Answered? && Acceptance(s.calls[k].phase.reply).Ok?
  {
    hide Happens, Possible, After, FirstCheck, VersionsIn, Acceptance, Invariant, FirstIsChecked;
    StartsOpen(configured);
    OpeningRun(Start(configured), es);
    if After(Start(configured), es).session.negotiated {
      VersionIsNegotiated(configured, es);
    }
  }
}
