/** `Connect` can succeed: there is a run of the client that opens the gate, and nothing but the
    reader's answers decides which. */
module ClientConnects {
  import opened Outcomes
  import opened Messages
  import opened Protocol
  import opened ClientCalls
  import opened Handshake
  import opened ClientOpening

  lemma {:induction false} AppendHappens(s: State, es: seq<Event>, more: seq<Event>)
    requires Happens(s, es) && Possible(s, es) && Happens(After(s, es), more) && Possible(After(s, es), more)
    ensures Happens(s, es + more) && Possible(s, es + more) && After(s, es + more) == After(After(s, es), more)
    decreases |es|
  {
    hide Enabled, Next, Follows;
    if es == [] {
      assert [] + more == more;
    } else {
      AppendHappens(Next(s, es[0]), es[1..], more);
      assert (es + more)[1..] == es[1..] + more;
    }
  }

  /** What happens outside `Connect` needs no more than to be possible. */
  lemma {:induction false} OthersHappen(s: State, es: seq<Event>)
    requires Possible(s, es) && forall j :: 0 <= j < |es| ==> !es[j].Control?
    ensures Happens(s, es)
    decreases |es|
  {
    hide Enabled, Next, Follows;
    if es != [] {
      assert forall j :: 0 <= j < |es[1..]| ==> es[1..][j] == es[j + 1];
      OthersHappen(Next(s, es[0]), es[1..]);
    }
  }

  lemma OneHappens(s: State, c: ControlStep)
    requires ControlEnabled(s, c) && Follows(s, c)
    ensures Happens(s, [Control(c)]) && Possible(s, [Control(c)])
    ensures After(s, [Control(c)]) == ControlNext(s, c)
  {
    hide Follows, ControlEnabled, ControlNext;
    var es := [Control(c)];
    assert es[1..] == [];
    NoSteps(Next(s, Control(c)));
  }

  /** Ready for the next request of `Connect` or of a caller. */
  predicate Resting(s: State) {
    s.writer == First && s.reader == Awake && s.acks.queue == [] && !s.Done() && s.nextId < 0x1_0000_0000
  }

  /** `Connect` asks, and is answered. */
  lemma Exchange(s: State, k: nat, m: Incoming) returns (es: seq<Event>)
    requires Resting(s) && InPhase(s, k, Queueing) && s.calls[k].kind != NoWait && s.calls[k].preset == 0
    requires s.calls[k].typ != CLOSE_CONNECTION && m.id == s.nextId && m.typ != KEEP_ALIVE
    ensures Happens(s, es) && Possible(s, es)
    ensures var t := After(s, es);
            && t.session == s.session && t.closing == s.closing && t.nextId == s.nextId + 1
            && t.writer == First && t.reader == Awake && t.acks == s.acks
            && |t.calls| == |s.calls| && InPhase(t, k, Answered(m))
            && |t.wire| == |s.wire| + 1 && t.wire[..|s.wire|] == s.wire && t.wire[|s.wire|].typ == s.calls[k].typ
  {
    hide Possible, After, Happens;
    var out := RequestGoesOut(s, k);
    var t := After(s, out);
    var answer := ReplyComesIn(t, k, m);
    OthersHappen(s, out);
    OthersHappen(t, answer);
    AppendHappens(s, out, answer);
    es := out + answer;
  }

  /** The gate is open and the client serves. */
  predicate Serves(s: State) {
    Resting(s) && s.session.ready && s.session.negotiated && s.session.connect == Serving
  }

  lemma AnswersAreNoKeepAlives(reply: Incoming)
    ensures VersionsIn(reply).Ok? || Acceptance(reply).Ok? ==> reply.typ != KEEP_ALIVE
  {
    hide Decoded;
  }

  lemma GateOpens(s: State) returns (es: seq<Event>)
    requires Resting(s) && s.session.connect == Opening
    ensures Happens(s, es) && Possible(s, es) && Serves(After(s, es))
    ensures After(s, es).wire == s.wire && After(s, es).session.version == s.session.version
  {
    hide Happens, Possible, After;
    es := [Control(Open)];
    OneHappens(s, Open);
  }

  /** The reader is told the version and agrees. */
  lemma VersionIsSet(s: State, k: nat, r: Incoming) returns (es: seq<Event>)
    requires Resting(s) && s.session.connect == Setting(k) && InPhase(s, k, Queueing)
    requires s.calls[k].kind == SetVersion && s.calls[k].preset == 0 && s.calls[k].typ == SET_PROTOCOL_VERSION
    requires r.id == s.nextId < 100 && Acceptance(r).Ok?
    ensures Happens(s, es) && Possible(s, es)
    ensures var t := After(s, es);
            && Resting(t) && t.session == s.session.(connect := Opening)
            && |t.wire| == |s.wire| + 1 && t.wire[..|s.wire|] == s.wire && t.wire[|s.wire|].typ == SET_PROTOCOL_VERSION
  {
    hide Happens, Possible, After, Acceptance;
    AnswersAreNoKeepAlives(r);
    var told := Exchange(s, k, r);
    var t := After(s, told);
    OneHappens(t, VersionAccepted);
    AppendHappens(s, told, [Control(VersionAccepted)]);
    es := told + [Control(VersionAccepted)];
  }

  /** The reader is asked, and its versions decide the client's. */
  lemma VersionsAreLearned(s: State, k: nat, r: Incoming, versions: Versions) returns (es: seq<Event>)
    requires Resting(s) && s.session.connect == Asking(k) && InPhase(s, k, Queueing) && s.nextId < 100
    requires s.calls[k].kind == AskVersion && s.calls[k].preset == 0 && s.calls[k].typ == GET_SUPPORTED_VERSION
    requires r.id == s.nextId && VersionsIn(r) == Ok(versions)
    ensures Happens(s, es) && Possible(s, es)
    ensures var t, v := After(s, es), if versions.max < s.session.version then versions.max else s.session.version;
            && Resting(t) && t.nextId == s.nextId + 1 && t.session.version == v
            && |t.wire| == |s.wire| + 1 && t.wire[..|s.wire|] == s.wire && t.wire[|s.wire|].typ == GET_SUPPORTED_VERSION
            && (if versions.current == v then t.session.connect == Opening
                else
                  && t.session.connect == Setting(|s.calls|) && InPhase(t, |s.calls|, Queueing)
                  && t.calls[|s.calls|].kind == SetVersion && t.calls[|s.calls|].preset == 0
                  && t.calls[|s.calls|].typ == SET_PROTOCOL_VERSION)
  {
    hide Happens, Possible, After, VersionsIn;
    AnswersAreNoKeepAlives(r);
    var asked := Exchange(s, k, r);
    var t := After(s, asked);
    OneHappens(t, VersionsKnown(versions));
    AppendHappens(s, asked, [Control(VersionsKnown(versions))]);
    es := asked + [Control(VersionsKnown(versions))];
  }

  /** With a first message that reports success and, above version 1.0.1, a reader that
      answers the questions, `Connect` can open the gate: nothing is asked up to version
      1.0.1; above it one question is written, and the version is set if it is not the
      reader's current one. */
  lemma ConnectCanSucceed(configured: nat, m: Incoming, versions: Versions, r1: Incoming, r2: Incoming)
    returns (es: seq<Event>)
    requires FirstCheck(m).Ok?
    requires configured > VERSION_1_0_1 ==>
               VersionsIn(r1) == Ok(versions) && r1.id == 0 && Acceptance(r2).Ok? && r2.id == 1
    ensures Happens(Start(configured), es) && Possible(Start(configured), es)
    ensures var t, v := After(Start(configured), es), if versions.max < configured then versions.max else configured;
            && Serves(t)
            && (configured <= VERSION_1_0_1 ==> t.wire == [] && t.session.version == configured)
            && (configured > VERSION_1_0_1 ==>
                  && t.session.version == v
                  && |t.wire| == (if versions.current == v then 1 else 2)
                  && t.wire[0].typ == GET_SUPPORTED_VERSION
                  && (versions.current != v ==> t.wire[1].typ == SET_PROTOCOL_VERSION))
  {
    hide Happens, Possible, After, FirstCheck, VersionsIn, Acceptance, Next, Enabled;
    var s := Start(configured);
    OneHappens(s, InitialOk(m));
    es := [Control(InitialOk(m))];
    var t := After(s, es);
    if configured > VERSION_1_0_1 {
      var asked := VersionsAreLearned(t, 0, r1, versions);
      AppendHappens(s, es, asked);
      es, t := es + asked, After(t, asked);
      if t.session.connect != Opening {
        var told := VersionIsSet(t, 1, r2);
        AppendHappens(s, es, told);
        es, t := es + told, After(t, told);
      }
    }
    var open := GateOpens(t);
    AppendHappens(s, es, open);
    es := es + open;
  }
}
