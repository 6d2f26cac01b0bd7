/** The discovery pipeline: address generators, a bounded channel, workers, and the
    collector of results, without cancellation. */
module Discovery {
  import opened Bytes
  import opened Addresses

  /** `Offering` is a worker blocked in its send on the unbuffered result channel. */
  datatype Worker = Idle | Probing(a: nat) | Offering(a: nat) | Exited

  /** `gens` is what each generator has still to send, `collected` the addresses whose
      readers the collector has received. */
  datatype Pipe = Pipe(gens: seq<seq<nat>>, capacity: nat, ips: seq<nat>, ipsClosed: bool, workers: seq<Worker>,
                       resultsClosed: bool, returned: bool, collected: seq<nat>)

  function Generators(nets: seq<IpNet>): seq<seq<nat>> {
    seq(|nets|, i requires 0 <= i < |nets| => Addresses4(nets[i]))
  }

  /** The channel's capacity is the number of workers. */
  function Start(nets: seq<IpNet>, asyncLimit: nat): Pipe {
    Pipe(Generators(nets), asyncLimit, [], false, seq(asyncLimit, _ => Idle), false, false, [])
  }

  datatype Event =
    | Send(g: nat)                // a generator sends its next address
    | CloseIps                    // all generators are done
    | Take(w: nat)
    | Probe(w: nat, success: bool)
    | Deliver(w: nat)             // a worker and the collector meet
    | Exit(w: nat)
    | CloseResults                // all workers are done
    | Return

  predicate AllSent(gens: seq<seq<nat>>) {
    forall g :: 0 <= g < |gens| ==> gens[g] == []
  }

  predicate AllExited(ws: seq<Worker>) {
    forall w :: 0 <= w < |ws| ==> ws[w] == Exited
  }

  predicate Enabled(p: Pipe, e: Event) {
    match e
    case Send(g) => g < |p.gens| && p.gens[g] != [] && |p.ips| < p.capacity
    case CloseIps => !p.ipsClosed && AllSent(p.gens)
    case Take(w) => w < |p.workers| && p.workers[w] == Idle && p.ips != []
    case Probe(w, _) => w < |p.workers| && p.workers[w].Probing?
    case Deliver(w) => w < |p.workers| && p.workers[w].Offering? && !p.returned
    case Exit(w) => w < |p.workers| && p.workers[w] == Idle && p.ips == [] && p.ipsClosed
    case CloseResults => p.ipsClosed && !p.resultsClosed && AllExited(p.workers)
    case Return => p.resultsClosed && !p.returned
  }

  function Next(p: Pipe, e: Event): Pipe
    requires Enabled(p, e)
  {
    match e
    case Send(g) => p.(gens := p.gens[g := p.gens[g][1..]], ips := p.ips + [p.gens[g][0]])
    case CloseIps => p.(ipsClosed := true)
    case Take(w) => p.(ips := p.ips[1..], workers := p.workers[w := Probing(p.ips[0])])
    case Probe(w, success) => p.(workers := p.workers[w := if success then Offering(p.workers[w].a) else Idle])
    case Deliver(w) => p.(workers := p.workers[w := Idle], collected := p.collected + [p.workers[w].a])
    case Exit(w) => p.(workers := p.workers[w := Exited])
    case CloseResults => p.(resultsClosed := true)
    case Return => p.(returned := true)
  }

  predicate Possible(p: Pipe, es: seq<Event>)
    decreases |es|
  {
    es == [] || (Enabled(p, es[0]) && Possible(Next(p, es[0]), es[1..]))
  }

  function After(p: Pipe, es: seq<Event>): Pipe
    requires Possible(p, es)
    decreases |es|
  {
    if es == [] then p else After(Next(p, es[0]), es[1..])
  }

  // ---- what is where ----

  function Flatten(gens: seq<seq<nat>>): seq<nat> {
    if gens == [] then [] else gens[0] + Flatten(gens[1..])
  }

  /** What a worker has still to probe, and what it has found. */
  function ToProbe(w: Worker): multiset<nat> {
    if w.Probing? then multiset{w.a} else multiset{}
  }

  function OfferOf(w: Worker): multiset<nat> {
    if w.Offering? then multiset{w.a} else multiset{}
  }

  function InHand(ws: seq<Worker>): multiset<nat> {
    if ws == [] then multiset{} else ToProbe(ws[0]) + InHand(ws[1..])
  }

  function Offered(ws: seq<Worker>): multiset<nat> {
    if ws == [] then multiset{} else OfferOf(ws[0]) + Offered(ws[1..])
  }

  /** The addresses that are still to be probed. */
  function Ahead(p: Pipe): multiset<nat> {
    multiset(Flatten(p.gens)) + multiset(p.ips) + InHand(p.workers)
  }

  /** The readers that have been found. */
  function Found(p: Pipe): multiset<nat> {
    Offered(p.workers) + multiset(p.collected)
  }

  /** The addresses probed in a step and in a run, and those that answered. */
  function ProbedNow(p: Pipe, e: Event): multiset<nat>
    requires Enabled(p, e)
  {
    if e.Probe? then multiset{p.workers[e.w].a} else multiset{}
  }

  function AnsweredNow(p: Pipe, e: Event): multiset<nat>
    requires Enabled(p, e)
  {
    if e.Probe? && e.success then multiset{p.workers[e.w].a} else multiset{}
  }

  function Probed(p: Pipe, es: seq<Event>): multiset<nat>
    requires Possible(p, es)
    decreases |es|
  {
    if es == [] then multiset{} else ProbedNow(p, es[0]) + Probed(Next(p, es[0]), es[1..])
  }

  function Answered(p: Pipe, es: seq<Event>): multiset<nat>
    requires Possible(p, es)
    decreases |es|
  {
    if es == [] then multiset{} else AnsweredNow(p, es[0]) + Answered(Next(p, es[0]), es[1..])
  }

  /** Every probe comes out as there is a reader at its address or not. */
  predicate Honest(p: Pipe, es: seq<Event>, alive: nat -> bool)
    requires Possible(p, es)
    decreases |es|
  {
    es == [] ||
    (&& (es[0].Probe? ==> es[0].success == alive(p.workers[es[0].w].a))
     && Honest(Next(p, es[0]), es[1..], alive))
  }

  /** Channels are closed only when nobody will send on them again. */
  predicate Orderly(p: Pipe) {
    && |p.ips| <= p.capacity
    && (p.ipsClosed ==> AllSent(p.gens))
    && (forall w :: 0 <= w < |p.workers| && p.workers[w] == Exited ==> p.ipsClosed && p.ips == [])
    && (p.resultsClosed ==> p.ipsClosed && AllExited(p.workers))
    && (p.returned ==> p.resultsClosed)
  }

  lemma FlattenUnfolds(gens: seq<seq<nat>>)
    requires gens != []
    ensures multiset(Flatten(gens)) == multiset(gens[0]) + multiset(Flatten(gens[1..]))
  {}

  lemma TakeOne(s: seq<nat>)
    requires s != []
    ensures multiset(s) == multiset{s[0]} + multiset(s[1..])
  {
    assert s == [s[0]] + s[1..];
  }

  lemma {:induction false} FlattenTakesOne(gens: seq<seq<nat>>, g: nat)
    requires g < |gens| && gens[g] != []
    ensures multiset(Flatten(gens)) == multiset{gens[g][0]} + multiset(Flatten(gens[g := gens[g][1..]]))
    decreases g
  {
    hide Flatten;
    var rest := gens[g := gens[g][1..]];
    FlattenUnfolds(gens);
    FlattenUnfolds(rest);
    if g == 0 {
      TakeOne(gens[0]);
      assert rest[1..] == gens[1..] && rest[0] == gens[0][1..];
    } else {
      var later := gens[1..];
      FlattenTakesOne(later, g - 1);
      assert rest[1..] == later[g - 1 := later[g - 1][1..]] && rest[0] == gens[0];
    }
  }

  lemma OfferedUnfolds(ws: seq<Worker>)
    requires ws != []
    ensures Offered(ws) == OfferOf(ws[0]) + Offered(ws[1..])
    ensures InHand(ws) == ToProbe(ws[0]) + InHand(ws[1..])
  {}

  /** One worker's change changes what the workers have by what that worker had and has. */
  lemma {:induction false} WorkersAfter(ws: seq<Worker>, w: nat, to: Worker, a: nat)
    requires w < |ws|
    ensures Offered(ws[w := to])[a] + OfferOf(ws[w])[a] == Offered(ws)[a] + OfferOf(to)[a]
    ensures InHand(ws[w := to])[a] + ToProbe(ws[w])[a] == InHand(ws)[a] + ToProbe(to)[a]
    decreases w
  {
    hide Offered, OfferOf, InHand, ToProbe;
    var now := ws[w := to];
    OfferedUnfolds(ws);
    OfferedUnfolds(now);
    if w == 0 {
      assert now[1..] == ws[1..];
    } else {
      WorkersAfter(ws[1..], w - 1, to, a);
      assert now[1..] == ws[1..][w - 1 := to] && now[0] == ws[0];
    }
  }

  lemma {:induction false} FlattenOfAllSent(gens: seq<seq<nat>>)
    requires AllSent(gens)
    ensures Flatten(gens) == []
  {
    if gens != [] {
      FlattenOfAllSent(gens[1..]);
    }
  }

  lemma {:induction false} NothingInHand(ws: seq<Worker>)
    requires forall w :: 0 <= w < |ws| ==> !ws[w].Offering? && !ws[w].Probing?
    ensures Offered(ws) == multiset{} == InHand(ws)
  {
    if ws != [] {
      NothingInHand(ws[1..]);
    }
  }

  lemma KeepsOrder(p: Pipe, e: Event)
    requires Orderly(p) && Enabled(p, e)
    ensures Orderly(Next(p, e))
  {
    var t := Next(p, e);
    forall w | 0 <= w < |t.workers| && t.workers[w] == Exited
      ensures t.ipsClosed && t.ips == []
    {
      assert p.workers[w] == Exited || e == Exit(w);
    }
    if e.Send? {
      assert p.gens[e.g] != [] && !p.ipsClosed;
    }
    if e.Take? || e.Probe? || e.Deliver? || e.Exit? {
      assert p.workers[e.w] != Exited;
    }
  }

  /** A step probes what is no longer ahead, and what answers is found. */
  lemma StepBalances(p: Pipe, e: Event, a: nat)
    requires Enabled(p, e)
    ensures Ahead(p)[a] == Ahead(Next(p, e))[a] + ProbedNow(p, e)[a]
    ensures Found(p)[a] + AnsweredNow(p, e)[a] == Found(Next(p, e))[a]
  {
    hide Flatten, Offered, InHand, AllSent, AllExited;
    match e
    case Send(g) => FlattenTakesOne(p.gens, g);
    case Take(w) =>
      TakeOne(p.ips);
      WorkersAfter(p.workers, w, Probing(p.ips[0]), a);
    case Probe(w, success) => WorkersAfter(p.workers, w, if success then Offering(p.workers[w].a) else Idle, a);
    case Deliver(w) => WorkersAfter(p.workers, w, Idle, a);
    case Exit(w) => WorkersAfter(p.workers, w, Exited, a);
    case _ =>
  }

  lemma {:induction false} RunBalances(p: Pipe, es: seq<Event>, a: nat)
    requires Possible(p, es)
    ensures Ahead(p)[a] == Ahead(After(p, es))[a] + Probed(p, es)[a]
    ensures Found(p)[a] + Answered(p, es)[a] == Found(After(p, es))[a]
    decreases |es|
  {
    hide Ahead, Found, ProbedNow, AnsweredNow, Enabled, Next;
    if es != [] {
      StepBalances(p, es[0], a);
      RunBalances(Next(p, es[0]), es[1..], a);
    }
  }

  /** Of what is probed, what is alive answers, as often as it is probed. */
  lemma {:induction false} AliveAnswer(p: Pipe, es: seq<Event>, alive: nat -> bool, a: nat)
    requires Possible(p, es) && Honest(p, es, alive)
    ensures Answered(p, es)[a] == if alive(a) then Probed(p, es)[a] else 0
    decreases |es|
  {
    hide Enabled, Next;
    if es != [] {
      AliveAnswer(Next(p, es[0]), es[1..], alive, a);
    }
  }

  lemma KeepsShape(p: Pipe, e: Event)
    requires Enabled(p, e)
    ensures |Next(p, e).workers| == |p.workers| && Next(p, e).capacity == p.capacity
  {}

  lemma {:induction false} RunKeeps(p: Pipe, es: seq<Event>)
    requires Orderly(p) && Possible(p, es)
    ensures Orderly(After(p, es))
    ensures |After(p, es).workers| == |p.workers| && After(p, es).capacity == p.capacity
    decreases |es|
  {
    hide Orderly, Enabled, Next;
    if es != [] {
      KeepsOrder(p, es[0]);
      KeepsShape(p, es[0]);
      RunKeeps(Next(p, es[0]), es[1..]);
    }
  }

  lemma StartIsOrderly(nets: seq<IpNet>, asyncLimit: nat)
    ensures Orderly(Start(nets, asyncLimit))
    ensures Ahead(Start(nets, asyncLimit)) == multiset(Flatten(Generators(nets)))
    ensures Found(Start(nets, asyncLimit)) == multiset{}
    ensures |Start(nets, asyncLimit).workers| == asyncLimit
  {
    hide Flatten, Generators;
    NothingInHand(Start(nets, asyncLimit).workers);
  }

  // ---- every run ends, and ends well ----

  function WorkerWeight(w: Worker): nat {
    match w
    case Idle => 1
    case Probing(_) => 4
    case Offering(_) => 3
    case Exited => 0
  }

  function Weights(ws: seq<Worker>): nat {
    if ws == [] then 0 else WorkerWeight(ws[0]) + Weights(ws[1..])
  }

  /** Six for each address to send, five for each in the channel, and what the workers,
      the closing goroutine and the collector have still to do. */
  function Left(p: Pipe): nat {
    6 * |Flatten(p.gens)| + 5 * |p.ips| + Weights(p.workers)
    + (if p.ipsClosed then 0 else 1) + (if p.resultsClosed then 0 else 1) + (if p.returned then 0 else 1)
  }

  lemma {:induction false} WeightsAfter(ws: seq<Worker>, w: nat, to: Worker)
    requires w < |ws|
    ensures Weights(ws[w := to]) + WorkerWeight(ws[w]) == Weights(ws) + WorkerWeight(to)
    decreases w
  {
    if w == 0 {
      assert ws[0 := to][1..] == ws[1..];
    } else {
      WeightsAfter(ws[1..], w - 1, to);
      assert ws[w := to][1..] == ws[1..][w - 1 := to];
    }
  }

  /** Each step leaves less to do. */
  lemma StepsDecrease(p: Pipe, e: Event)
    requires Enabled(p, e)
    ensures Left(Next(p, e)) < Left(p)
  {
    hide Flatten, Weights, AllSent, AllExited;
    match e
    case Send(g) =>
      FlattenTakesOne(p.gens, g);
      assert |multiset(Flatten(p.gens))| == |Flatten(p.gens)|;
    case Take(w) => WeightsAfter(p.workers, w, Probing(p.ips[0]));
    case Probe(w, success) => WeightsAfter(p.workers, w, if success then Offering(p.workers[w].a) else Idle);
    case Deliver(w) => WeightsAfter(p.workers, w, Idle);
    case Exit(w) => WeightsAfter(p.workers, w, Exited);
    case _ =>
  }

  lemma {:induction false} RunsAreFinite(p: Pipe, es: seq<Event>)
    requires Possible(p, es)
    ensures |es| + Left(After(p, es)) <= Left(p)
    decreases |es|
  {
    hide Left, Enabled, Next;
    if es != [] {
      StepsDecrease(p, es[0]);
      RunsAreFinite(Next(p, es[0]), es[1..]);
    }
  }

  /** With a worker, or with nothing left to send and no address waiting for one, there is
      always a step until the collector has returned. */
  lemma NeverStuck(p: Pipe, alive: nat -> bool) returns (e: Event)
    requires Orderly(p) && !p.returned
    requires (p.workers != [] && p.capacity > 0) || (AllSent(p.gens) && p.ips == [])
    ensures Enabled(p, e) && (e.Probe? ==> e.success == alive(p.workers[e.w].a))
  {
    if w: nat :| w < |p.workers| && p.workers[w].Probing? {
      e := Probe(w, alive(p.workers[w].a));
    } else if w: nat :| w < |p.workers| && p.workers[w].Offering? {
      e := Deliver(w);
    } else if p.ips != [] {
      assert p.workers[0] == Idle;
      e := Take(0);
    } else if g: nat :| g < |p.gens| && p.gens[g] != [] {
      e := Send(g);
    } else if !p.ipsClosed {
      e := CloseIps;
    } else if w: nat :| w < |p.workers| && p.workers[w] == Idle {
      e := Exit(w);
    } else if !p.resultsClosed {
      e := CloseResults;
    } else {
      e := Return;
    }
  }

  /** Every run with at least one worker can be continued until the collector returns, and it
      cannot go on forever. When the collector returns, each generated address has been
      probed, once for each time it was generated, and what was collected is those of them
      that have a reader. */
  lemma DiscoveryCompletes(nets: seq<IpNet>, asyncLimit: nat, es: seq<Event>, alive: nat -> bool, a: nat)
    requires asyncLimit > 0 && Possible(Start(nets, asyncLimit), es) && Honest(Start(nets, asyncLimit), es, alive)
    ensures |es| <= Left(Start(nets, asyncLimit))
    ensures var p := After(Start(nets, asyncLimit), es);
            && (!p.returned ==> exists e :: Enabled(p, e))
            && (p.returned ==>
                  && Probed(Start(nets, asyncLimit), es)[a] == multiset(Flatten(Generators(nets)))[a]
                  && multiset(p.collected)[a] == (if alive(a) then multiset(Flatten(Generators(nets)))[a] else 0)
                  && (a in p.collected <==> alive(a) && exists i :: 0 <= i < |nets| && a in Addresses4(nets[i])))
  {
    hide Start, Possible, After, Left, Flatten, Generators, Next, Enabled, Orderly, Probed, Answered, Honest, Ahead,
         Found;
    var start := Start(nets, asyncLimit);
    StartIsOrderly(nets, asyncLimit);
    StartCapacity(nets, asyncLimit);
    RunKeeps(start, es);
    RunsAreFinite(start, es);
    RunBalances(start, es, a);
    AliveAnswer(start, es, alive, a);
    InFlattened(nets, a);
    var p := After(start, es);
    if p.returned {
      NothingIsLeft(p);
    } else {
      var e := NeverStuck(p, alive);
    }
  }

  lemma NothingIsLeft(p: Pipe)
    requires Orderly(p) && p.returned && p.workers != []
    ensures Ahead(p) == multiset{} && Found(p) == multiset(p.collected)
  {
    hide Flatten, Offered, InHand;
    FlattenOfAllSent(p.gens);
    NothingInHand(p.workers);
    ExitedMeansEmpty(p);
  }

  /** An address is generated if it is one of some network's. */
  lemma InFlattened(nets: seq<IpNet>, a: nat)
    ensures a in multiset(Flatten(Generators(nets))) <==> exists i :: 0 <= i < |nets| && a in Addresses4(nets[i])
  {
    hide Flatten, Addresses4;
    FlattenHas(Generators(nets), a);
    if i :| 0 <= i < |nets| && a in Addresses4(nets[i]) {
      assert a in Generators(nets)[i];
    }
    if i :| 0 <= i < |nets| && a in Generators(nets)[i] {
      assert a in Addresses4(nets[i]);
    }
  }

  lemma {:induction false} FlattenHas(gens: seq<seq<nat>>, a: nat)
    ensures a in Flatten(gens) <==> exists i :: 0 <= i < |gens| && a in gens[i]
  {
    if gens != [] {
      FlattenHas(gens[1..], a);
      if i :| 0 < i < |gens| && a in gens[i] {
        assert a in gens[1..][i - 1];
      }
      if i :| 0 <= i < |gens[1..]| && a in gens[1..][i] {
        assert a in gens[i + 1];
      }
    }
  }

  /** Without a worker the first address is never sent, and the collector waits forever. */
  lemma NoWorkersNoProgress(nets: seq<IpNet>, e: Event)
    requires !AllSent(Generators(nets))
    ensures !Enabled(Start(nets, 0), e)
  {
    hide Generators;
  }

  /** The pipeline goes on from here. */
  predicate Lively(p: Pipe) {
    (p.workers != [] && p.capacity > 0) || (AllSent(p.gens) && p.ips == [])
  }

  lemma StaysLively(p: Pipe, e: Event)
    requires Lively(p) && Enabled(p, e)
    ensures Lively(Next(p, e))
  {}

  /** From a lively state the return can be reached, wherever there are readers. */
  lemma {:induction false} CanFinish(p: Pipe, alive: nat -> bool) returns (es: seq<Event>)
    requires Orderly(p) && Lively(p)
    ensures Possible(p, es) && Honest(p, es, alive) && After(p, es).returned
    decreases Left(p)
  {
    hide Orderly, Left, Enabled, Next;
    if p.returned {
      es := [];
    } else {
      var e := NeverStuck(p, alive);
      StepsDecrease(p, e);
      KeepsOrder(p, e);
      StaysLively(p, e);
      var rest := CanFinish(Next(p, e), alive);
      es := [e] + rest;
      assert es[1..] == rest;
    }
  }

  /** The collector can return exactly if there is a worker or nothing to send, wherever
      there are readers. */
  lemma ReturnsIffServed(nets: seq<IpNet>, asyncLimit: nat, alive: nat -> bool)
    ensures (exists es :: Possible(Start(nets, asyncLimit), es) && Honest(Start(nets, asyncLimit), es, alive)
                          && After(Start(nets, asyncLimit), es).returned)
            <==> asyncLimit > 0 || AllSent(Generators(nets))
  {
    hide Generators, Orderly, Enabled, Next;
    var p := Start(nets, asyncLimit);
    if asyncLimit > 0 || AllSent(Generators(nets)) {
      StartIsOrderly(nets, asyncLimit);
      var es := CanFinish(p, alive);
    } else {
      forall es | Possible(p, es)
        ensures !After(p, es).returned
      {
        if es != [] {
          NoWorkersNoProgress(nets, es[0]);
        }
      }
    }
  }

  // ---- how many workers ----

  function MaskSize(inet: IpNet): nat {
    Ones(FromBigEndian(inet.mask), 8 * |inet.mask|)
  }

  function Estimate(nets: seq<IpNet>): int {
    if nets == [] then 0 else ComputeNetSz(MaskSize(nets[0])) + Estimate(nets[1..])
  }

  /** `autoDiscover` starts no more workers than it expects to probe addresses. */
  function WorkerCount(nets: seq<IpNet>, asyncLimit: nat): int {
    if Estimate(nets) < asyncLimit then Estimate(nets) else asyncLimit
  }

  lemma {:induction false} EachNetCounts(nets: seq<IpNet>)
    ensures Estimate(nets) >= |nets|
  {
    hide MaskSize;
    if nets != [] {
      EachNetCounts(nets[1..]);
      NetSizePositive(MaskSize(nets[0]));
    }
  }

  lemma NetSizePositive(n: nat)
    ensures ComputeNetSz(n) >= 1
  {
    hide Shr;
    Pow2Of32();
    if n <= 30 {
      ShiftedOnes(n, 32);
      Pow2Grows(2, 32 - n);
    }
  }

  /** With the worker count it chooses, and any limit above zero, discovery can always
      complete: it gives up all workers only when it has no network to scan. */
  lemma OwnCountSuffices(nets: seq<IpNet>, asyncLimit: nat, alive: nat -> bool)
    ensures WorkerCount(nets, asyncLimit) >= 0
    ensures (exists es :: Possible(Start(nets, WorkerCount(nets, asyncLimit)), es)
                          && Honest(Start(nets, WorkerCount(nets, asyncLimit)), es, alive)
                          && After(Start(nets, WorkerCount(nets, asyncLimit)), es).returned)
            <==> asyncLimit > 0 || AllSent(Generators(nets))
  {
    hide Possible, After, Start, Estimate;
    EachNetCounts(nets);
    ReturnsIffServed(nets, WorkerCount(nets, asyncLimit), alive);
  }

  /** A network whose mask has at least two ones, in the four bytes of IPv4. */
  predicate Counted(inet: IpNet) {
    To4(inet.ip).Some? && |inet.mask| == 4 && MaskSize(inet) >= 2
  }

  lemma {:induction false} EstimateCounts(nets: seq<IpNet>)
    requires forall i :: 0 <= i < |nets| ==> Counted(nets[i])
    ensures Estimate(nets) == |Flatten(Generators(nets))|
  {
    hide MaskSize, Addresses4, ComputeNetSz;
    if nets != [] {
      EstimateCounts(nets[1..]);
      EstimateOne(nets[0]);
      assert Generators(nets)[1..] == Generators(nets[1..]);
    }
  }

  lemma EstimateOne(inet: IpNet)
    requires Counted(inet)
    ensures ComputeNetSz(MaskSize(inet)) == |Addresses4(inet)|
  {
    hide Addresses4, ComputeNetSz, Ones, FromBigEndian;
    EstimateIsExact(inet);
  }

  /** Unless a mask has fewer than two ones, there are as many workers as addresses to probe,
      or as the limit allows if that is less. */
  lemma WorkersMatchProbes(nets: seq<IpNet>, asyncLimit: nat)
    requires forall i :: 0 <= i < |nets| ==> Counted(nets[i])
    ensures var n, probes := WorkerCount(nets, asyncLimit), |Flatten(Generators(nets))|;
            n <= asyncLimit && n <= probes && (n == asyncLimit || n == probes)
  {
    hide Estimate, Counted, Generators, Flatten;
    EstimateCounts(nets);
  }

  lemma StartCapacity(nets: seq<IpNet>, asyncLimit: nat)
    ensures Start(nets, asyncLimit).capacity == asyncLimit
  {}

  lemma ExitedMeansEmpty(p: Pipe)
    requires Orderly(p) && p.returned && p.workers != []
    ensures p.ips == []
  {
    assert p.workers[0] == Exited;
  }

  /** Nothing is ever sent on a closed channel. */
  lemma NoSendOnClosed(nets: seq<IpNet>, asyncLimit: nat, es: seq<Event>, i: nat)
    requires Possible(Start(nets, asyncLimit), es)
    ensures var p := After(Start(nets, asyncLimit), es);
            && (i < |p.gens| && p.gens[i] != [] ==> !p.ipsClosed)
            && (i < |p.workers| && p.workers[i].Offering? ==> !p.resultsClosed)
  {
    hide Start, Possible, After, Flatten, Generators, Next, Enabled;
    StartIsOrderly(nets, asyncLimit);
    RunKeeps(Start(nets, asyncLimit), es);
  }
}
