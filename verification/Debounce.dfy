/** Debounced rediscovery: configuration changes, the timer they share, and the goroutines
    that wait for it, in every interleaving. */
module Debounce {

  /** `other` is whatever else the configuration holds. */
  datatype Config = Config(subnets: string, scanPort: string, other: int)

  /** The goroutine behind a timer: it waits for a tick, clears the timer, and calls
      Discover, which reads the configuration then in force. */
  datatype Waiter = Waiting | Ticked | Cleared | Read(version: nat, config: Config)

  /** A watcher that changed subnets or port, making this version, and its call of
      `debouncedDiscover`. */
  datatype Watcher = Changed(version: nat) | Returned(version: nat)

  /** `version` counts the changes of subnets or port. */
  datatype State = State(config: Config, version: nat, timerSet: bool, waiters: seq<Waiter>, watchers: seq<Watcher>)

  function Start(config: Config): State {
    State(config, 0, false, [], [])
  }

  datatype Event =
    | Update(config: Config)
    | Debounce(i: nat)
    | Tick(w: nat)
    | Clear(w: nat)
    | Snapshot(w: nat)
    | Direct            // Discover called by someone else

  predicate Differs(a: Config, b: Config) {
    a.subnets != b.subnets || a.scanPort != b.scanPort
  }

  predicate Enabled(s: State, e: Event) {
    match e
    case Update(_) => true
    case Debounce(i) => i < |s.watchers| && s.watchers[i].Changed?
    case Tick(w) => w < |s.waiters| && s.waiters[w] == Waiting
    case Clear(w) => w < |s.waiters| && s.waiters[w] == Ticked
    case Snapshot(w) => w < |s.waiters| && s.waiters[w] == Cleared
    case Direct => true
  }

  function Next(s: State, e: Event): State
    requires Enabled(s, e)
  {
    match e
    case Update(config) =>
      if Differs(config, s.config) then
        s.(config := config, version := s.version + 1, watchers := s.watchers + [Changed(s.version + 1)])
      else s.(config := config)
    case Debounce(i) =>
      var t := s.(watchers := s.watchers[i := Returned(s.watchers[i].version)]);
      if s.timerSet then t else t.(timerSet := true, waiters := s.waiters + [Waiting])
    case Tick(w) => s.(waiters := s.waiters[w := Ticked])
    case Clear(w) => s.(waiters := s.waiters[w := Cleared], timerSet := false)
    case Snapshot(w) => s.(waiters := s.waiters[w := Read(s.version, s.config)])
    case Direct => s.(waiters := s.waiters + [Read(s.version, s.config)])
  }

  predicate Possible(s: State, es: seq<Event>)
    decreases |es|
  {
    es == [] || (Enabled(s, es[0]) && Possible(Next(s, es[0]), es[1..]))
  }

  function After(s: State, es: seq<Event>): State
    requires Possible(s, es)
    decreases |es|
  {
    if es == [] then s else After(Next(s, es[0]), es[1..])
  }

  // ---- what holds in every interleaving ----

  predicate Uncleared(w: Waiter) {
    w == Waiting || w == Ticked
  }

  predicate OnlyUncleared(waiters: seq<Waiter>, w: nat) {
    && w < |waiters| && Uncleared(waiters[w])
    && forall j :: 0 <= j < |waiters| && j != w ==> !Uncleared(waiters[j])
  }

  predicate AllCleared(waiters: seq<Waiter>) {
    forall j :: 0 <= j < |waiters| ==> !Uncleared(waiters[j])
  }

  /** The timer is set iff exactly one waiter has not cleared it. */
  ghost predicate TimerOk(s: State) {
    if s.timerSet then exists w: nat :: OnlyUncleared(s.waiters, w) else AllCleared(s.waiters)
  }

  /** A Discover that has read this version or a later one, or has yet to read. */
  predicate Serves(w: Waiter, version: nat) {
    w.Read? ==> w.version >= version
  }

  predicate Served(s: State, version: nat) {
    exists w :: 0 <= w < |s.waiters| && Serves(s.waiters[w], version)
  }

  predicate NothingLost(s: State) {
    && (forall i :: 0 <= i < |s.watchers| ==> s.watchers[i].version <= s.version)
    && (forall i :: 0 <= i < |s.watchers| && s.watchers[i].Returned? ==> Served(s, s.watchers[i].version))
  }

  lemma KeepsTimer(s: State, e: Event)
    requires TimerOk(s) && Enabled(s, e)
    ensures TimerOk(Next(s, e))
  {
    var t := Next(s, e);
    if s.timerSet {
      var w: nat :| OnlyUncleared(s.waiters, w);
      if e != Clear(w) {
        assert OnlyUncleared(t.waiters, w);
      }
    } else if e.Debounce? {
      assert OnlyUncleared(t.waiters, |s.waiters|);
    }
  }

  /** A waiter that serves a version no newer than the current one goes on doing so. */
  lemma ServedStays(s: State, e: Event, version: nat)
    requires Enabled(s, e) && Served(s, version) && version <= s.version
    ensures Served(Next(s, e), version)
  {
    var t := Next(s, e);
    var w :| 0 <= w < |s.waiters| && Serves(s.waiters[w], version);
    assert Serves(t.waiters[w], version);
  }

  lemma KeepsChanges(s: State, e: Event)
    requires TimerOk(s) && NothingLost(s) && Enabled(s, e)
    ensures NothingLost(Next(s, e))
  {
    var t := Next(s, e);
    forall i | 0 <= i < |t.watchers| && t.watchers[i].Returned?
      ensures Served(t, t.watchers[i].version)
    {
      if s.watchers[i].Returned? {
        ServedStays(s, e, s.watchers[i].version);
      } else if s.timerSet {
        var w: nat :| OnlyUncleared(s.waiters, w);
        assert Serves(t.waiters[w], t.watchers[i].version);
      } else {
        assert Serves(t.waiters[|s.waiters|], t.watchers[i].version);
      }
    }
  }

  lemma {:induction false} RunKeeps(s: State, es: seq<Event>)
    requires TimerOk(s) && NothingLost(s) && Possible(s, es)
    ensures TimerOk(After(s, es)) && NothingLost(After(s, es))
    decreases |es|
  {
    hide TimerOk, NothingLost, Next, Enabled;
    if es != [] {
      KeepsTimer(s, es[0]);
      KeepsChanges(s, es[0]);
      RunKeeps(Next(s, es[0]), es[1..]);
    }
  }

  // ---- the configurations themselves ----

  /** The configurations that changed subnets or port, in turn, starting from `config`. */
  function Changes(config: Config, es: seq<Event>): seq<Config>
    decreases |es|
  {
    if es == [] then []
    else if es[0].Update? then
      (if Differs(es[0].config, config) then [es[0].config] else []) + Changes(es[0].config, es[1..])
    else Changes(config, es[1..])
  }

  /** Version `n` is the `n`th change, and the first the initial configuration. */
  function Target(config: Config, changes: seq<Config>, n: nat): Config
    requires n <= |changes|
  {
    if n == 0 then config else changes[n - 1]
  }

  predicate Agrees(a: Config, b: Config) {
    a.subnets == b.subnets && a.scanPort == b.scanPort
  }

  predicate ReadAgrees(w: Waiter, config: Config, changes: seq<Config>) {
    w.Read? ==> w.version <= |changes| && Agrees(w.config, Target(config, changes, w.version))
  }

  /** What is in force is the latest change, each watcher made one, and what was read was in
      force at the version read. */
  predicate Tracks(s: State, config: Config, changes: seq<Config>) {
    && s.version == |changes| == |s.watchers|
    && Agrees(s.config, Target(config, changes, s.version))
    && (forall i :: 0 <= i < |s.watchers| ==> s.watchers[i].version == i + 1)
    && (forall w :: 0 <= w < |s.waiters| ==> ReadAgrees(s.waiters[w], config, changes))
  }

  function ChangeOf(s: State, e: Event): seq<Config> {
    if e.Update? && Differs(e.config, s.config) then [e.config] else []
  }

  lemma StepTracks(s: State, e: Event, config: Config, changes: seq<Config>)
    requires Tracks(s, config, changes) && Enabled(s, e)
    ensures Tracks(Next(s, e), config, changes + ChangeOf(s, e))
  {
    var t, now := Next(s, e), changes + ChangeOf(s, e);
    forall w | 0 <= w < |t.waiters|
      ensures ReadAgrees(t.waiters[w], config, now)
    {
      assert w < |s.waiters| ==> ReadAgrees(s.waiters[w], config, changes);
    }
  }

  lemma {:induction false} RunTracks(s: State, es: seq<Event>, config: Config, changes: seq<Config>)
    requires Tracks(s, config, changes) && Possible(s, es)
    ensures Tracks(After(s, es), config, changes + Changes(s.config, es))
    decreases |es|
  {
    hide Tracks, Enabled, Next;
    if es == [] {
      assert changes + [] == changes;
    } else {
      var e, t := es[0], Next(s, es[0]);
      StepTracks(s, e, config, changes);
      StepConfig(s, e);
      RunTracks(t, es[1..], config, changes + ChangeOf(s, e));
      assert changes + ChangeOf(s, e) + Changes(t.config, es[1..]) == changes + Changes(s.config, es);
    }
  }

  lemma StepConfig(s: State, e: Event)
    requires Enabled(s, e)
    ensures Next(s, e).config == if e.Update? then e.config else s.config
  {}

  /** The latest update is in force, and only updates change anything. */
  lemma {:induction false} LatestIsInForce(s: State, es: seq<Event>, k: nat)
    requires Possible(s, es) && k <= |es| && forall j :: k <= j < |es| ==> !es[j].Update?
    ensures k > 0 && es[k - 1].Update? ==> After(s, es).config == es[k - 1].config
    ensures k == 0 ==> After(s, es).config == s.config
    decreases |es|
  {
    hide Enabled, Next;
    if es != [] {
      StepConfig(s, es[0]);
      assert forall j :: 0 <= j < |es[1..]| ==> es[1..][j] == es[j + 1];
      LatestIsInForce(Next(s, es[0]), es[1..], if k == 0 then 0 else k - 1);
    }
  }

  /** A watcher's call of `debouncedDiscover` that has begun has returned. */
  lemma {:induction false} DebounceReturns(s: State, es: seq<Event>, i: nat)
    requires Possible(s, es)
    requires Event.Debounce(i) in es || (i < |s.watchers| && s.watchers[i].Returned?)
    ensures i < |After(s, es).watchers| && After(s, es).watchers[i].Returned?
    decreases |es|
  {
    if es != [] {
      assert es == [es[0]] + es[1..];
      DebounceReturns(Next(s, es[0]), es[1..], i);
    }
  }

  /** A Discover that has read the subnets and the port of one of these configurations. */
  predicate HasRead(w: Waiter, configs: seq<Config>) {
    w.Read? && exists j :: 0 <= j < |configs|
                           && w.config.subnets == configs[j].subnets && w.config.scanPort == configs[j].scanPort
  }

  /** No lost change: once the `i`th change has led to a call of `debouncedDiscover`, some
      Discover has read the subnets and port of that change or of a later one, or has yet to
      read; when none has yet to read, one has read them. */
  lemma NoChangeIsLost(config: Config, es: seq<Event>, i: nat)
    requires Possible(Start(config), es) && Event.Debounce(i) in es
    ensures var s, changes := After(Start(config), es), Changes(config, es);
            && TimerOk(s) && i < |changes|
            && (exists w :: 0 <= w < |s.waiters| && (!s.waiters[w].Read? || HasRead(s.waiters[w], changes[i..])))
            && ((forall w :: 0 <= w < |s.waiters| ==> s.waiters[w].Read?) ==>
                  !s.timerSet && exists w :: 0 <= w < |s.waiters| && HasRead(s.waiters[w], changes[i..]))
  {
    hide Start, Possible, After, Changes, TimerOk, NothingLost, Tracks, HasRead;
    StartTracks(config);
    RunKeeps(Start(config), es);
    RunTracks(Start(config), es, config, []);
    DebounceReturns(Start(config), es, i);
    var changes := Changes(config, es);
    assert [] + changes == changes;
    ReturnedIsRead(After(Start(config), es), config, changes, i);
  }

  lemma StartTracks(config: Config)
    ensures var s := Start(config);
            TimerOk(s) && NothingLost(s) && Tracks(s, config, []) && s.config == config
  {}

  lemma ReturnedIsRead(s: State, config: Config, changes: seq<Config>, i: nat)
    requires TimerOk(s) && NothingLost(s) && Tracks(s, config, changes)
    requires i < |s.watchers| && s.watchers[i].Returned?
    ensures i < |changes|
    ensures exists w :: 0 <= w < |s.waiters| && (!s.waiters[w].Read? || HasRead(s.waiters[w], changes[i..]))
    ensures (forall w :: 0 <= w < |s.waiters| ==> s.waiters[w].Read?) ==>
              !s.timerSet && exists w :: 0 <= w < |s.waiters| && HasRead(s.waiters[w], changes[i..])
  {
    hide HasRead, TimerOk;
    assert Served(s, s.watchers[i].version);
    var w: nat :| w < |s.waiters| && Serves(s.waiters[w], i + 1);
    if s.waiters[w].Read? {
      assert ReadAgrees(s.waiters[w], config, changes);
      var j := s.waiters[w].version - 1 - i;
      assert changes[i..][j] == changes[s.waiters[w].version - 1];
      ReadOf(s.waiters[w], changes[i..], j);
    }
    if forall w :: 0 <= w < |s.waiters| ==> s.waiters[w].Read? {
      NoTimerLeft(s);
    }
  }

  lemma ReadOf(w: Waiter, configs: seq<Config>, j: nat)
    requires w.Read? && j < |configs| && Agrees(w.config, configs[j])
    ensures HasRead(w, configs)
  {}

  lemma NoTimerLeft(s: State)
    requires TimerOk(s) && forall w :: 0 <= w < |s.waiters| ==> s.waiters[w].Read?
    ensures !s.timerSet
  {}

  /** The last change is the one that is scanned: once it has led to a call of
      `debouncedDiscover`, some Discover has read its subnets and port or has yet to read,
      and whoever reads now reads them. */
  lemma LastChangeIsScanned(config: Config, es: seq<Event>, k: nat, i: nat)
    requires Possible(Start(config), es) && Event.Debounce(i) in es
    requires k < |es| && es[k].Update? && forall j :: k < j < |es| ==> !es[j].Update?
    requires i == |Changes(config, es)| - 1
    ensures var s, c := After(Start(config), es), es[k].config;
            && s.config == c
            && exists w :: 0 <= w < |s.waiters|
                           && (s.waiters[w].Read? ==>
                                 s.waiters[w].config.subnets == c.subnets && s.waiters[w].config.scanPort == c.scanPort)
  {
    hide Start, Possible, After, Changes, TimerOk, HasRead, Tracks, NothingLost;
    NoChangeIsLost(config, es, i);
    LatestIsInForce(Start(config), es, k + 1);
    StartTracks(config);
    RunTracks(Start(config), es, config, []);
    var s, changes := After(Start(config), es), Changes(config, es);
    assert [] + changes == changes;
    LastInForce(s, config, changes);
    var w: nat :| w < |s.waiters| && (!s.waiters[w].Read? || HasRead(s.waiters[w], changes[i..]));
    if s.waiters[w].Read? {
      ReadsTheLast(s.waiters[w], changes);
    }
  }

  lemma LastInForce(s: State, config: Config, changes: seq<Config>)
    requires Tracks(s, config, changes) && changes != []
    ensures Agrees(s.config, changes[|changes| - 1])
  {}

  lemma ReadsTheLast(w: Waiter, configs: seq<Config>)
    requires w.Read? && configs != [] && HasRead(w, configs[|configs| - 1..])
    ensures Agrees(w.config, configs[|configs| - 1])
  {}

  function StepsLeft(w: Waiter): nat {
    match w
    case Waiting => 3
    case Ticked => 2
    case Cleared => 1
    case Read(_, _) => 0
  }

  /** A waiter that has yet to read can always take its next step, and reads the newest
      configuration when it does. */
  lemma WaitersCanFinish(s: State, w: nat) returns (es: seq<Event>)
    requires w < |s.waiters| && !s.waiters[w].Read?
    ensures |es| == StepsLeft(s.waiters[w]) && Possible(s, es) && w < |After(s, es).waiters|
    ensures After(s, es).waiters[w] == Read(s.version, s.config)
    decreases StepsLeft(s.waiters[w])
  {
    match s.waiters[w]
    case Cleared =>
      es := [Snapshot(w)];
      assert es[1..] == [] && After(Next(s, Snapshot(w)), []) == Next(s, Snapshot(w));
    case Ticked =>
      var t := Next(s, Clear(w));
      var more := WaitersCanFinish(t, w);
      es := [Clear(w)] + more;
      assert es[1..] == more;
    case Waiting =>
      var t := Next(s, Tick(w));
      var more := WaitersCanFinish(t, w);
      es := [Tick(w)] + more;
      assert es[1..] == more;
  }

  // ---- the code ----

  class Driver {
    var config: Config
    var version: nat
    var debounceTimer: bool
    var waiters: seq<Waiter>
    var watchers: seq<Watcher>

    function Abs(): State
      reads this
    {
      State(config, version, debounceTimer, waiters, watchers)
    }

    ghost predicate Valid()
      reads this
    {
      TimerOk(Abs()) && NothingLost(Abs())
    }

    constructor (initial: Config)
      ensures Valid() && Abs() == Start(initial)
    {
      config, version, debounceTimer, waiters, watchers := initial, 0, false, [], [];
    }

    /** The locked part of `updateWritableConfig`, and whether it must trigger a discovery. */
    method UpdateWritableConfig(updated: Config) returns (changed: bool)
      requires Valid()
      modifies this
      ensures Valid() && Abs() == Next(old(Abs()), Update(updated)) && config == updated
      ensures changed <==> updated.subnets != old(config).subnets || updated.scanPort != old(config).scanPort
      ensures waiters == old(waiters) && debounceTimer == old(debounceTimer)
      ensures |watchers| == |old(watchers)| + if changed then 1 else 0
    {
      KeepsTimer(Abs(), Update(updated));
      KeepsChanges(Abs(), Update(updated));
      var oldSubnets, oldScanPort := config.subnets, config.scanPort;
      config := updated;
      changed := updated.subnets != oldSubnets || updated.scanPort != oldScanPort;
      if changed {
        version := version + 1;
        watchers := watchers + [Changed(version)];
      }
    }

    /** `debouncedDiscover`, called by watcher `i`. */
    method DebouncedDiscover(i: nat)
      requires Valid() && i < |watchers| && watchers[i].Changed?
      modifies this
      ensures Valid() && Abs() == Next(old(Abs()), Event.Debounce(i))
    {
      KeepsTimer(Abs(), Event.Debounce(i));
      KeepsChanges(Abs(), Event.Debounce(i));
      if !debounceTimer {
        debounceTimer := true;
        waiters := waiters + [Waiting];
      }
      watchers := watchers[i := Returned(watchers[i].version)];
    }

    /** What waiter `w` does after its tick: clear the timer, then read the configuration. */
    method RunWaiter(w: nat) returns (read: Config)
      requires Valid() && w < |waiters| && waiters[w] == Ticked
      modifies this
      ensures Valid() && Abs() == Next(Next(old(Abs()), Clear(w)), Snapshot(w))
      ensures read == config == old(config) && !debounceTimer && waiters[w] == Read(old(version), read)
    {
      ghost var s := Abs();
      KeepsTimer(s, Clear(w));
      KeepsChanges(s, Clear(w));
      KeepsTimer(Next(s, Clear(w)), Snapshot(w));
      KeepsChanges(Next(s, Clear(w)), Snapshot(w));
      debounceTimer := false;
      waiters := waiters[w := Cleared];
      read := config;
      waiters := waiters[w := Read(version, read)];
    }
  }
}
