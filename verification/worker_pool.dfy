/** The capture pump and the worker pool (internal/capture/pump.go, internal/pipeline/
    workerpool.go and wiring.go) as one state machine: a producer, a bounded channel, and any
    number of workers whose steps interleave freely. */
module WorkerPool {
  import opened AssetModel
  import opened MacAddress
  import L = Linearization
  import S = Store

  /** A decoded packet, with the observations that the analyzers find in it. */
  datatype Packet = Packet(layers: nat, found: seq<Observation>)

  predicate Observable(p: Packet) { p.layers > 0 }

  /** Where the pump is: at its outer select, at its inner one with a packet, past the send
      but not yet counted, or returned. */
  datatype Pump = AtSelect | Holding(packet: Packet) | Sent | Returned

  /** Where a worker is: at its select, past the receive but not yet counted, applying the
      observations from `next` on (`entered`: past the resolve of the next one, before its
      lock), or returned (`drained`: because the channel was closed and empty). */
  datatype Pc = Idle | Received(packet: Packet) | Applying(packet: Packet, next: nat, entered: bool) | Exited(drained: bool)

  datatype Worker = Worker(pc: Pc, done: seq<Packet>)

  /** The first group is the program's state, the second its counters, the third what has
      happened: packets in the order in which they arrived at the pump, were read by it, were
      sent, were taken (and by whom) or were dropped on the way out, observations in the order
      in which `Apply` took the lock for them, and what the calls of `Apply` did to the store,
      worker i being caller i. */
  datatype World = World(
    input: seq<Packet>, inputClosed: bool, cancelled: bool, closed: bool,
    pump: Pump, queue: seq<Packet>, outClosed: bool, workers: seq<Worker>,
    received: nat, processed: nat, applied: nat, dropped: nat,
    arrived: seq<Packet>, consumed: seq<Packet>, sent: seq<Packet>, lost: seq<Packet>,
    taken: seq<(nat, Packet)>, offered: seq<Observation>, events: seq<L.Event>)

  /** An offer carries what the hydrator finds, and Elsewhere is a section of the tracker, the
      persister or a load that comes in between. */
  datatype Step =
    | Arrive(packet: Packet) | EndInput | Cancel | Close | Elsewhere(op: S.Op)
    | PumpTake | PumpSend | PumpCount | PumpReturn | CloseOut
    | Take(worker: nat) | Count(worker: nat) | Resolve(worker: nat) | Offer(worker: nat, ok: bool, row: Option<Snapshot>) | Finish(worker: nat)
    | Exit(worker: nat, drained: bool)

  function Start(workers: nat): World {
    World([], false, false, false, AtSelect, [], false, seq(workers, i => Worker(Idle, [])),
          0, 0, 0, 0, [], [], [], [], [], [], [])
  }

  predicate At(w: World, i: nat, pc: Pc) { i < |w.workers| && w.workers[i].pc == pc }

  predicate HasNext(w: World, i: nat) {
    i < |w.workers| && w.workers[i].pc.Applying? && w.workers[i].pc.next < |w.workers[i].pc.packet.found|
  }

  function NextOf(w: World, i: nat): Observation
    requires HasNext(w, i)
  {
    w.workers[i].pc.packet.found[w.workers[i].pc.next]
  }

  /** What can happen next, with a channel of the given capacity. */
  predicate Enabled(capacity: nat, w: World, s: Step) {
    match s
    case Arrive(_) => !w.inputClosed
    case EndInput => true
    case Cancel => true
    case Close => true
    case Elsewhere(op) => !op.ApplyOp?
    case PumpTake => w.pump == AtSelect && w.input != []
    case PumpSend => w.pump.Holding? && |w.queue| < capacity
    case PumpCount => w.pump == Sent
    case PumpReturn =>
      || ((w.cancelled || w.closed) && (w.pump == AtSelect || w.pump.Holding?))
      || (w.pump == AtSelect && w.input == [] && w.inputClosed)
    case CloseOut => w.pump == Returned && !w.outClosed
    case Take(i) => At(w, i, Idle) && w.queue != []
    case Count(i) => i < |w.workers| && w.workers[i].pc.Received?
    case Resolve(i) => HasNext(w, i) && !w.workers[i].pc.entered
    case Offer(i, _, _) => HasNext(w, i) && w.workers[i].pc.entered
    case Finish(i) => i < |w.workers| && w.workers[i].pc.Applying? && w.workers[i].pc.next >= |w.workers[i].pc.packet.found|
    case Exit(i, drained) => At(w, i, Idle) && if drained then w.outClosed && w.queue == [] else w.cancelled
  }

  function Move(w: World, i: nat, pc: Pc): World
    requires i < |w.workers|
  {
    w.(workers := w.workers[i := w.workers[i].(pc := pc)])
  }

  function Do(capacity: nat, w: World, s: Step): World
    requires Enabled(capacity, w, s)
  {
    match s
    case Arrive(p) => w.(input := w.input + [p], arrived := w.arrived + [p])
    case EndInput => w.(inputClosed := true)
    case Cancel => w.(cancelled := true)
    case Close => w.(closed := true)
    case Elsewhere(op) => w.(events := w.events + [L.Other(op)])
    case PumpTake =>
      var p := w.input[0];
      w.(input := w.input[1..], consumed := w.consumed + [p], pump := if Observable(p) then Holding(p) else AtSelect)
    case PumpSend =>
      w.(queue := w.queue + [w.pump.packet], sent := w.sent + [w.pump.packet], pump := Sent)
    case PumpCount => w.(pump := AtSelect, received := w.received + 1)
    case PumpReturn => w.(pump := Returned, lost := w.lost + Held(w.pump))
    case CloseOut => w.(outClosed := true)
    case Take(i) =>
      Move(w, i, Received(w.queue[0])).(queue := w.queue[1..], taken := w.taken + [(i, w.queue[0])])
    case Count(i) => Move(w, i, Applying(w.workers[i].pc.packet, 0, false)).(processed := w.processed + 1)
    case Resolve(i) =>
      Move(w, i, w.workers[i].pc.(entered := true)).(events := w.events + [L.Enter(i, NextOf(w, i))])
    case Offer(i, ok, row) =>
      var pc := w.workers[i].pc;
      Move(w, i, pc.(next := pc.next + 1, entered := false)).(
        offered := w.offered + [NextOf(w, i)],
        events := w.events + [L.Locked(i, row)],
        applied := w.applied + if ok then 1 else 0,
        dropped := w.dropped + if ok then 0 else 1)
    case Finish(i) =>
      w.(workers := w.workers[i := Worker(Idle, w.workers[i].done + [w.workers[i].pc.packet])])
    case Exit(i, drained) => Move(w, i, Exited(drained))
  }

  function Held(pump: Pump): seq<Packet> { if pump.Holding? then [pump.packet] else [] }

  // ---------- what the histories mean ----------

  function Observables(ps: seq<Packet>): seq<Packet> {
    if ps == [] then []
    else Observables(ps[..|ps| - 1]) + if Observable(ps[|ps| - 1]) then [ps[|ps| - 1]] else []
  }

  function Packets(taken: seq<(nat, Packet)>): seq<Packet> {
    seq(|taken|, k requires 0 <= k < |taken| => taken[k].1)
  }

  /** What worker i took, in its order. */
  function TakenBy(taken: seq<(nat, Packet)>, i: nat): seq<Packet> {
    if taken == [] then []
    else
      var last := taken[|taken| - 1];
      TakenBy(taken[..|taken| - 1], i) + if last.0 == i then [last.1] else []
  }

  /** All observations in some packets. */
  function Found(ps: seq<Packet>): multiset<Observation> {
    if ps == [] then multiset{} else Found(ps[..|ps| - 1]) + multiset(ps[|ps| - 1].found)
  }

  function InHand(pc: Pc): seq<Packet> { if pc.Received? || pc.Applying? then [pc.packet] else [] }

  /** The observations that a worker still has to pass on. */
  function ToOffer(pc: Pc): multiset<Observation> {
    if pc.Received? then multiset(pc.packet.found)
    else if pc.Applying? && pc.next <= |pc.packet.found| then multiset(pc.packet.found[pc.next..])
    else multiset{}
  }

  function AllToOffer(ws: seq<Worker>): multiset<Observation> {
    if ws == [] then multiset{} else AllToOffer(ws[..|ws| - 1]) + ToOffer(ws[|ws| - 1].pc)
  }

  function Uncounted(ws: seq<Worker>): nat {
    if ws == [] then 0 else Uncounted(ws[..|ws| - 1]) + if ws[|ws| - 1].pc.Received? then 1 else 0
  }

  lemma BothSides<T>(a: multiset<T>, b: multiset<T>, c: multiset<T>, d: multiset<T>, e: multiset<T>)
    requires a + c == b + d
    ensures a + e + c == b + e + d
  {
    assert a + e + c == a + c + e;
  }

  lemma {:induction false} ToOfferUpdate(ws: seq<Worker>, i: nat, v: Worker)
    requires i < |ws|
    ensures AllToOffer(ws[i := v]) + ToOffer(ws[i].pc) == AllToOffer(ws) + ToOffer(v.pc)
  {
    hide ToOffer;
    var n := |ws| - 1;
    if i < n {
      assert ws[i := v][..n] == ws[..n][i := v] && ws[i := v][n] == ws[n];
      ToOfferUpdate(ws[..n], i, v);
      BothSides(AllToOffer(ws[..n][i := v]), AllToOffer(ws[..n]), ToOffer(ws[i].pc), ToOffer(v.pc), ToOffer(ws[n].pc));
    } else {
      assert ws[i := v][..n] == ws[..n];
    }
  }

  lemma {:induction false} UncountedUpdate(ws: seq<Worker>, i: nat, v: Worker)
    requires i < |ws|
    ensures Uncounted(ws[i := v]) + (if ws[i].pc.Received? then 1 else 0) == Uncounted(ws) + if v.pc.Received? then 1 else 0
  {
    var n := |ws| - 1;
    if i < n {
      assert ws[i := v][..n] == ws[..n][i := v];
      UncountedUpdate(ws[..n], i, v);
    } else {
      assert ws[i := v][..n] == ws[..n];
    }
  }

  // ---------- the invariant ----------

  /** The channel is a FIFO queue between the pump and the workers. */
  ghost predicate Fifo(w: World) {
    && Packets(w.taken) + w.queue == w.sent
    && |w.sent| == w.received + (if w.pump == Sent then 1 else 0)
  }

  /** The pump sends what is observable of what it reads, and drops a packet only when it was
      told to stop. */
  ghost predicate Filtered(w: World) {
    && Observables(w.consumed) == w.sent + Held(w.pump) + w.lost
    && w.consumed + w.input == w.arrived
    && (w.lost != [] ==> w.pump == Returned && (w.cancelled || w.closed))
  }

  ghost predicate PumpEnding(w: World) {
    && (w.outClosed ==> w.pump == Returned)
    && (w.pump == Returned && !w.cancelled && !w.closed ==> w.input == [] && w.inputClosed)
  }

  ghost predicate EndedWell(w: World, pc: Pc) {
    pc.Exited? ==> if pc.drained then w.outClosed && w.queue == [] else w.cancelled
  }

  ghost predicate Endings(w: World) {
    PumpEnding(w) && forall i | 0 <= i < |w.workers| :: EndedWell(w, w.workers[i].pc)
  }

  /** The worker has finished all the packets it took but the one in its hands. */
  predicate HandOk(taken: seq<(nat, Packet)>, i: nat, v: Worker) {
    && TakenBy(taken, i) == v.done + InHand(v.pc)
    && (v.pc.Applying? ==> v.pc.next <= |v.pc.packet.found|)
  }

  ghost predicate Hands(taken: seq<(nat, Packet)>, workers: seq<Worker>) {
    && (forall i | 0 <= i < |workers| :: HandOk(taken, i, workers[i]))
    && (forall e <- taken :: e.0 < |workers|)
  }

  ghost predicate Counted(w: World) {
    && w.processed + Uncounted(w.workers) == |w.taken|
    && w.applied + w.dropped == |w.offered|
  }

  /** The observations of all packets taken were passed on or still will be, each once. */
  ghost predicate Offered(offered: seq<Observation>, workers: seq<Worker>, taken: seq<(nat, Packet)>) {
    multiset(offered) + AllToOffer(workers) == Found(Packets(taken))
  }

  ghost predicate Inv(w: World) {
    Fifo(w) && Filtered(w) && Endings(w) && Hands(w.taken, w.workers) && Counted(w) && Offered(w.offered, w.workers, w.taken)
  }

  lemma TakenMore(taken: seq<(nat, Packet)>, i: nat, p: Packet)
    ensures Packets(taken + [(i, p)]) == Packets(taken) + [p]
    ensures Found(Packets(taken) + [p]) == Found(Packets(taken)) + multiset(p.found)
    ensures forall j: nat :: TakenBy(taken + [(i, p)], j) == TakenBy(taken, j) + if j == i then [p] else []
  {
    assert (Packets(taken) + [p])[..|taken|] == Packets(taken);
    assert (taken + [(i, p)])[..|taken|] == taken;
  }

  /** Where the pump and the channel are before a step. */
  lemma Places(capacity: nat, w: World, s: Step)
    requires Enabled(capacity, w, s)
    ensures (s.PumpTake? ==> w.pump == AtSelect && w.input != []) && (s.PumpSend? ==> w.pump.Holding?) && (s.PumpCount? ==> w.pump == Sent)
    ensures (s.PumpReturn? ==> w.pump == AtSelect || w.pump.Holding?) && (s.Take? ==> w.queue != [])
  {
  }

  lemma FifoStep(capacity: nat, w: World, s: Step)
    requires Fifo(w) && Enabled(capacity, w, s)
    ensures Fifo(Do(capacity, w, s))
  {
    Places(capacity, w, s);
    hide Packets, Enabled, Observable, NextOf, Held;
    match s
    case Take(i) =>
      TakenMore(w.taken, i, w.queue[0]);
      assert w.queue == [w.queue[0]] + w.queue[1..];
    case _ =>
  }

  lemma ObservablesMore(ps: seq<Packet>, p: Packet)
    ensures Observables(ps + [p]) == Observables(ps) + if Observable(p) then [p] else []
  {
    assert (ps + [p])[..|ps|] == ps;
  }

  lemma FilteredStep(capacity: nat, w: World, s: Step)
    requires Filtered(w) && Enabled(capacity, w, s)
    ensures Filtered(Do(capacity, w, s))
  {
    hide Observables, Observable;
    match s
    case Arrive(p) => assert w.consumed + (w.input + [p]) == w.consumed + w.input + [p];
    case PumpTake =>
      ObservablesMore(w.consumed, w.input[0]);
      assert w.consumed + [w.input[0]] + w.input[1..] == w.consumed + w.input;
    case PumpSend => assert w.sent + Held(w.pump) + [] == w.sent + Held(w.pump);
    case PumpReturn => assert w.lost == [];
    case _ =>
  }

  lemma PumpEndingStep(capacity: nat, w: World, s: Step)
    requires PumpEnding(w) && Enabled(capacity, w, s)
    ensures PumpEnding(Do(capacity, w, s))
  {
    hide Observable;
  }

  predicate OfWorker(s: Step) { s.Take? || s.Count? || s.Resolve? || s.Offer? || s.Finish? || s.Exit? }

  /** How a worker ended stays true. */
  lemma EndedWellStays(capacity: nat, w: World, s: Step, pc: Pc)
    requires PumpEnding(w) && Enabled(capacity, w, s) && EndedWell(w, pc)
    ensures EndedWell(Do(capacity, w, s), pc)
  {
    hide Observable, NextOf, Held, HasNext;
  }

  /** A worker that ends does so for one of the two reasons. */
  lemma EndsWell(capacity: nat, w: World, s: Step)
    requires OfWorker(s) && Enabled(capacity, w, s)
    ensures EndedWell(Do(capacity, w, s), Do(capacity, w, s).workers[s.worker].pc)
  {
    hide NextOf, Held;
  }

  lemma Within(capacity: nat, w: World, s: Step)
    requires OfWorker(s) && Enabled(capacity, w, s)
    ensures s.worker < |w.workers|
  {
  }

  lemma SameWorkers(capacity: nat, w: World, s: Step)
    requires Enabled(capacity, w, s)
    ensures |Do(capacity, w, s).workers| == |w.workers|
  {
    if OfWorker(s) {
      Within(capacity, w, s);
    }
    hide Enabled, Observable, NextOf, Held;
  }

  lemma OthersStay(capacity: nat, w: World, s: Step, i: nat)
    requires Enabled(capacity, w, s) && i < |w.workers| && (OfWorker(s) ==> i != s.worker)
    ensures |Do(capacity, w, s).workers| == |w.workers| && Do(capacity, w, s).workers[i] == w.workers[i]
  {
    SameWorkers(capacity, w, s);
    hide Enabled, Observable, NextOf, Held;
  }

  lemma EndedWellStep(capacity: nat, w: World, s: Step, i: nat)
    requires PumpEnding(w) && Enabled(capacity, w, s) && i < |w.workers| && EndedWell(w, w.workers[i].pc)
    ensures |Do(capacity, w, s).workers| == |w.workers| && EndedWell(Do(capacity, w, s), Do(capacity, w, s).workers[i].pc)
  {
    SameWorkers(capacity, w, s);
    if OfWorker(s) && i == s.worker {
      EndsWell(capacity, w, s);
    } else {
      hide EndedWell, Enabled, Do;
      OthersStay(capacity, w, s, i);
      EndedWellStays(capacity, w, s, w.workers[i].pc);
    }
  }

  lemma EndingsStep(capacity: nat, w: World, s: Step)
    requires Endings(w) && Enabled(capacity, w, s)
    ensures Endings(Do(capacity, w, s))
  {
    hide PumpEnding, EndedWell, Enabled, Do;
    SameWorkers(capacity, w, s);
    PumpEndingStep(capacity, w, s);
    forall i | 0 <= i < |w.workers| ensures EndedWell(Do(capacity, w, s), Do(capacity, w, s).workers[i].pc) {
      EndedWellStep(capacity, w, s, i);
    }
  }

  lemma HandsMove(taken: seq<(nat, Packet)>, workers: seq<Worker>, i: nat, v: Worker)
    requires Hands(taken, workers) && i < |workers| && HandOk(taken, i, v)
    ensures Hands(taken, workers[i := v])
  {
    hide HandOk;
  }

  lemma HandsTake(taken: seq<(nat, Packet)>, workers: seq<Worker>, i: nat, p: Packet)
    requires Hands(taken, workers) && i < |workers| && workers[i].pc == Idle
    ensures Hands(taken + [(i, p)], workers[i := workers[i].(pc := Received(p))])
  {
    hide TakenBy;
    TakenMore(taken, i, p);
    var after := workers[i := workers[i].(pc := Received(p))];
    forall j | 0 <= j < |workers| ensures HandOk(taken + [(i, p)], j, after[j]) {
      assert HandOk(taken, j, workers[j]);
    }
  }

  lemma HandsStep(capacity: nat, w: World, s: Step)
    requires Hands(w.taken, w.workers) && Enabled(capacity, w, s)
    ensures Hands(Do(capacity, w, s).taken, Do(capacity, w, s).workers)
  {
    if OfWorker(s) {
      var i := s.worker;
      assert HandOk(w.taken, i, w.workers[i]);
      if s.Take? {
        HandsTake(w.taken, w.workers, i, w.queue[0]);
      } else {
        hide Hands, TakenBy;
        HandsMove(w.taken, w.workers, i, Do(capacity, w, s).workers[i]);
      }
    }
  }

  /** One worker moves from being counted or not to being counted or not. */
  lemma CountedMove(w: World, i: nat, v: Worker, more: int)
    requires i < |w.workers| && w.processed + Uncounted(w.workers) == |w.taken|
    requires more == (if v.pc.Received? then 1 else 0) - (if w.workers[i].pc.Received? then 1 else 0)
    ensures w.processed + Uncounted(w.workers[i := v]) == |w.taken| + more
  {
    hide Uncounted;
    UncountedUpdate(w.workers, i, v);
  }

  lemma CountedStep(capacity: nat, w: World, s: Step)
    requires Counted(w) && Enabled(capacity, w, s)
    ensures Counted(Do(capacity, w, s))
  {
    hide Uncounted, Observable;
    if OfWorker(s) {
      CountedMove(w, s.worker, Do(capacity, w, s).workers[s.worker], if s.Take? then 1 else if s.Count? then -1 else 0);
    }
  }

  /** A worker passes on some of what it has to pass on. */
  lemma OfferedMove(offered: seq<Observation>, workers: seq<Worker>, taken: seq<(nat, Packet)>,
                    i: nat, v: Worker, more: seq<Observation>)
    requires i < |workers| && Offered(offered, workers, taken)
    requires multiset(more) + ToOffer(v.pc) == ToOffer(workers[i].pc)
    ensures Offered(offered + more, workers[i := v], taken)
  {
    hide ToOffer, AllToOffer, Found, Packets;
    ToOfferUpdate(workers, i, v);
    var all, after, rest := AllToOffer(workers), AllToOffer(workers[i := v]), ToOffer(v.pc);
    assert multiset(offered + more) == multiset(offered) + multiset(more);
    assert after + multiset(more) + rest == all + rest;
    assert after + multiset(more) == all by {
      forall o: Observation ensures (after + multiset(more))[o] == all[o] {
        assert (after + multiset(more) + rest)[o] == (all + rest)[o];
      }
    }
  }

  /** A worker moves on without passing anything on. */
  lemma OfferedQuiet(offered: seq<Observation>, workers: seq<Worker>, taken: seq<(nat, Packet)>, i: nat, v: Worker)
    requires i < |workers| && Offered(offered, workers, taken) && ToOffer(v.pc) == ToOffer(workers[i].pc)
    ensures Offered(offered, workers[i := v], taken)
  {
    hide ToOffer, Offered;
    OfferedMove(offered, workers, taken, i, v, []);
    assert offered + [] == offered;
  }

  lemma OfferedTake(offered: seq<Observation>, workers: seq<Worker>, taken: seq<(nat, Packet)>, i: nat, p: Packet)
    requires i < |workers| && workers[i].pc == Idle && Offered(offered, workers, taken)
    ensures Offered(offered, workers[i := workers[i].(pc := Received(p))], taken + [(i, p)])
  {
    hide AllToOffer, Found, Packets;
    TakenMore(taken, i, p);
    ToOfferUpdate(workers, i, workers[i].(pc := Received(p)));
    var after := AllToOffer(workers[i := workers[i].(pc := Received(p))]);
    assert after == AllToOffer(workers) + multiset(p.found);
    assert multiset(offered) + after == Found(Packets(taken)) + multiset(p.found);
  }

  lemma OfferedOffer(offered: seq<Observation>, workers: seq<Worker>, taken: seq<(nat, Packet)>, i: nat)
    requires i < |workers| && Offered(offered, workers, taken)
    requires workers[i].pc.Applying? && workers[i].pc.next < |workers[i].pc.packet.found|
    ensures var pc := workers[i].pc;
      Offered(offered + [pc.packet.found[pc.next]], workers[i := workers[i].(pc := pc.(next := pc.next + 1, entered := false))], taken)
  {
    hide Offered;
    var pc := workers[i].pc;
    assert pc.packet.found[pc.next..] == [pc.packet.found[pc.next]] + pc.packet.found[pc.next + 1..];
    OfferedMove(offered, workers, taken, i, workers[i].(pc := pc.(next := pc.next + 1, entered := false)), [pc.packet.found[pc.next]]);
  }

  /** A worker that is through with its packet has nothing to pass on. */
  lemma NothingToOffer(taken: seq<(nat, Packet)>, workers: seq<Worker>, i: nat)
    requires Hands(taken, workers) && i < |workers| && workers[i].pc.Applying?
    requires workers[i].pc.next >= |workers[i].pc.packet.found|
    ensures ToOffer(workers[i].pc) == multiset{}
  {
    assert HandOk(taken, i, workers[i]);
  }

  lemma OfferedStep(capacity: nat, w: World, s: Step)
    requires Offered(w.offered, w.workers, w.taken) && Hands(w.taken, w.workers) && Enabled(capacity, w, s)
    ensures var z := Do(capacity, w, s); Offered(z.offered, z.workers, z.taken)
  {
    hide Hands, Offered;
    match s
    case Take(i) => OfferedTake(w.offered, w.workers, w.taken, i, w.queue[0]);
    case Count(i) =>
      assert w.workers[i].pc.packet.found[0..] == w.workers[i].pc.packet.found;
      OfferedQuiet(w.offered, w.workers, w.taken, i, w.workers[i].(pc := Applying(w.workers[i].pc.packet, 0, false)));
    case Resolve(i) => OfferedQuiet(w.offered, w.workers, w.taken, i, w.workers[i].(pc := w.workers[i].pc.(entered := true)));
    case Offer(i, _, _) => OfferedOffer(w.offered, w.workers, w.taken, i);
    case Finish(i) =>
      NothingToOffer(w.taken, w.workers, i);
      OfferedQuiet(w.offered, w.workers, w.taken, i, Worker(Idle, w.workers[i].done + [w.workers[i].pc.packet]));
    case Exit(i, drained) => OfferedQuiet(w.offered, w.workers, w.taken, i, w.workers[i].(pc := Exited(drained)));
    case _ =>
  }

  // ---------- runs ----------

  /** The world after some steps, if each was possible when it was made. */
  function Run(capacity: nat, workers: nat, steps: seq<Step>): Option<World> {
    if steps == [] then Some(Start(workers))
    else
      var before := Run(capacity, workers, steps[..|steps| - 1]);
      if before.Some? && Enabled(capacity, before.value, steps[|steps| - 1])
      then Some(Do(capacity, before.value, steps[|steps| - 1]))
      else None
  }

  lemma {:induction false} NothingInHand(ws: seq<Worker>)
    requires forall v <- ws :: v.pc.Idle? || v.pc.Exited?
    ensures AllToOffer(ws) == multiset{} && Uncounted(ws) == 0
  {
    if ws != [] {
      assert ws[|ws| - 1] in ws;
      NothingInHand(ws[..|ws| - 1]);
    }
  }

  lemma StartInv(workers: nat)
    ensures Inv(Start(workers))
  {
    NothingInHand(Start(workers).workers);
  }

  lemma InvStep(capacity: nat, w: World, s: Step)
    requires Inv(w) && Enabled(capacity, w, s)
    ensures Inv(Do(capacity, w, s)) && |Do(capacity, w, s).workers| == |w.workers|
  {
    hide Fifo, Filtered, Endings, Hands, Counted, Offered;
    FifoStep(capacity, w, s);
    FilteredStep(capacity, w, s);
    EndingsStep(capacity, w, s);
    HandsStep(capacity, w, s);
    CountedStep(capacity, w, s);
    OfferedStep(capacity, w, s);
  }

  lemma {:induction false} RunKeepsInv(capacity: nat, workers: nat, steps: seq<Step>)
    requires Run(capacity, workers, steps).Some?
    ensures Inv(Run(capacity, workers, steps).value) && |Run(capacity, workers, steps).value.workers| == workers
  {
    hide Inv, Do, Enabled;
    if steps == [] {
      StartInv(workers);
    } else {
      RunKeepsInv(capacity, workers, steps[..|steps| - 1]);
      InvStep(capacity, Run(capacity, workers, steps[..|steps| - 1]).value, steps[|steps| - 1]);
    }
  }

  // ---------- what the pool promises ----------

  /** At any time, whatever the interleaving: what was taken, followed by what is still in
      the channel, is what was sent, in that order; every packet taken went to one worker,
      which has finished all it took but the packet in its hands; and the observations of the
      packets taken were each passed to Apply once, or still will be. */
  lemma EveryPacketOnce(capacity: nat, workers: nat, steps: seq<Step>)
    requires Run(capacity, workers, steps).Some?
    ensures var w := Run(capacity, workers, steps).value;
      && Packets(w.taken) + w.queue == w.sent
      && |w.workers| == workers && (forall e <- w.taken :: e.0 < workers)
      && (forall i | 0 <= i < workers :: TakenBy(w.taken, i) == w.workers[i].done + InHand(w.workers[i].pc))
      && w.applied + w.dropped == |w.offered|
      && multiset(w.offered) + AllToOffer(w.workers) == Found(Packets(w.taken))
  {
    RunKeepsInv(capacity, workers, steps);
  }

  ghost predicate AllExited(w: World) { forall v <- w.workers :: v.pc.Exited? }

  /** When `Run` of the pool returns: every packet taken was counted and finished. If some
      worker returned because the channel was closed, nothing is left in it, and the number
      processed is the source's number of packets received. */
  lemma WhenRunReturns(capacity: nat, workers: nat, steps: seq<Step>)
    requires Run(capacity, workers, steps).Some? && AllExited(Run(capacity, workers, steps).value)
    ensures var w := Run(capacity, workers, steps).value;
      && w.processed == |w.taken| && w.applied + w.dropped == |w.offered|
      && multiset(w.offered) == Found(Packets(w.taken))
      && ((exists v <- w.workers :: v.pc == Exited(true)) ==>
            w.queue == [] && Packets(w.taken) == w.sent && w.processed == w.received == |w.sent|)
  {
    hide Run, Filtered, Hands, Found, AllToOffer, Uncounted, Enabled, Do;
    RunKeepsInv(capacity, workers, steps);
    var w := Run(capacity, workers, steps).value;
    NothingInHand(w.workers);
    if v :| v in w.workers && v.pc == Exited(true) {
      var i :| 0 <= i < |w.workers| && w.workers[i] == v;
      assert w.outClosed && w.queue == [];
    }
  }

  /** A capture that ends by itself, with at least one worker: every observable packet is
      processed, and the observations passed to Apply are those of the observable packets. */
  lemma WholeCapture(capacity: nat, workers: nat, steps: seq<Step>)
    requires Run(capacity, workers, steps).Some? && workers > 0
    requires var w := Run(capacity, workers, steps).value; AllExited(w) && !w.cancelled && !w.closed
    ensures var w := Run(capacity, workers, steps).value;
      && w.processed == w.received == |Observables(w.arrived)|
      && multiset(w.offered) == Found(Observables(w.arrived))
  {
    WhenRunReturns(capacity, workers, steps);
    RunKeepsInv(capacity, workers, steps);
    var w := Run(capacity, workers, steps).value;
    assert w.workers[0] in w.workers && w.workers[0].pc == Exited(true);
    assert w.consumed == w.arrived && Observables(w.consumed) == w.sent;
  }

  ghost predicate EndedByItself(w: World) { AllExited(w) && |w.workers| > 0 && !w.cancelled && !w.closed }

  /** The observations that `Apply` merges into the asset of one address. */
  function Of(list: seq<Observation>, mac: Mac): seq<Observation> {
    if list == [] then []
    else
      var o := list[|list| - 1];
      Of(list[..|list| - 1], mac) + if o.Valid() && o.mac == mac then [o] else []
  }

  lemma {:induction false} OfCounts(list: seq<Observation>, mac: Mac, o: Observation)
    ensures multiset(Of(list, mac))[o] == if o.Valid() && o.mac == mac then multiset(list)[o] else 0
  {
    if list != [] {
      assert list == list[..|list| - 1] + [list[|list| - 1]];
      OfCounts(list[..|list| - 1], mac, o);
    }
  }

  lemma OfSame(one: seq<Observation>, other: seq<Observation>, mac: Mac)
    requires multiset(one) == multiset(other)
    ensures multiset(Of(one, mac)) == multiset(Of(other, mac)) && forall o <- Of(one, mac) :: o.Valid()
  {
    forall o: Observation ensures multiset(Of(one, mac))[o] == multiset(Of(other, mac))[o] {
      OfCounts(one, mac, o);
      OfCounts(other, mac, o);
    }
    forall o <- Of(one, mac) ensures o.Valid() {
      OfCounts(one, mac, o);
      assert o in multiset(Of(one, mac));
    }
  }

  /** The number of workers, the capacity of the channel and the interleaving make no
      difference to which observations are applied: two captures of the same packets that end by
      themselves pass on the same ones. */
  lemma SameWork(c: nat, m: nat, one: seq<Step>, d: nat, n: nat, other: seq<Step>)
    requires Run(c, m, one).Some? && Run(d, n, other).Some?
    requires EndedByItself(Run(c, m, one).value) && EndedByItself(Run(d, n, other).value)
    requires Run(c, m, one).value.arrived == Run(d, n, other).value.arrived
    ensures multiset(Run(c, m, one).value.offered) == multiset(Run(d, n, other).value.offered)
  {
    hide Found, Do, Enabled;
    RunKeepsInv(c, m, one);
    RunKeepsInv(d, n, other);
    WholeCapture(c, m, one);
    WholeCapture(d, n, other);
  }

  // ---------- termination ----------

  /** The steps of the pump and of the workers, as opposed to those of their surroundings. */
  predicate Internal(s: Step) { !(s.Arrive? || s.EndInput? || s.Cancel? || s.Close? || s.Elsewhere?) }

  /** Each packet is worth its observations and some more. */
  function WorkOf(ps: seq<Packet>, more: nat): nat {
    if ps == [] then 0 else 2 * |ps[0].found| + more + WorkOf(ps[1..], more)
  }

  function PumpWork(pump: Pump, outClosed: bool): nat {
    match pump
    case AtSelect => 2
    case Holding(p) => 2 * |p.found| + 9
    case Sent => 3
    case Returned => if outClosed then 0 else 1
  }

  function PcWork(pc: Pc): nat {
    match pc
    case Idle => 1
    case Received(p) => 2 * |p.found| + 4
    case Applying(p, next, entered) => if next < |p.found| then 2 * (|p.found| - next) + (if entered then 2 else 3) else 3
    case Exited(_) => 0
  }

  function WorkersWork(ws: seq<Worker>): nat {
    if ws == [] then 0 else WorkersWork(ws[..|ws| - 1]) + PcWork(ws[|ws| - 1].pc)
  }

  /** An upper bound on the internal steps that are still to come. */
  function Remaining(w: World): nat {
    WorkOf(w.input, 8) + PumpWork(w.pump, w.outClosed) + WorkOf(w.queue, 5) + WorkersWork(w.workers)
  }

  lemma {:induction false} WorkOfMore(ps: seq<Packet>, p: Packet, more: nat)
    ensures WorkOf(ps + [p], more) == WorkOf(ps, more) + 2 * |p.found| + more
  {
    if ps == [] {
      assert (ps + [p])[1..] == [];
    } else {
      assert (ps + [p])[1..] == ps[1..] + [p];
      WorkOfMore(ps[1..], p, more);
    }
  }

  lemma {:induction false} WorkUpdate(ws: seq<Worker>, i: nat, v: Worker)
    requires i < |ws|
    ensures WorkersWork(ws[i := v]) + PcWork(ws[i].pc) == WorkersWork(ws) + PcWork(v.pc)
  {
    hide PcWork;
    var n := |ws| - 1;
    if i < n {
      assert ws[i := v][..n] == ws[..n][i := v];
      WorkUpdate(ws[..n], i, v);
    } else {
      assert ws[i := v][..n] == ws[..n];
    }
  }

  /** Every internal step leaves less to do, so no run goes on forever by itself. */
  lemma StepsRunOut(capacity: nat, w: World, s: Step)
    requires Internal(s) && Enabled(capacity, w, s)
    ensures Remaining(Do(capacity, w, s)) < Remaining(w)
  {
    hide WorkersWork;
    match s
    case PumpSend => WorkOfMore(w.queue, w.pump.packet, 5);
    case Take(i) => WorkUpdate(w.workers, i, w.workers[i].(pc := Received(w.queue[0])));
    case Count(i) => WorkUpdate(w.workers, i, w.workers[i].(pc := Applying(w.workers[i].pc.packet, 0, false)));
    case Resolve(i) => WorkUpdate(w.workers, i, w.workers[i].(pc := w.workers[i].pc.(entered := true)));
    case Offer(i, _, _) =>
      WorkUpdate(w.workers, i, w.workers[i].(pc := w.workers[i].pc.(next := w.workers[i].pc.next + 1, entered := false)));
    case Finish(i) => WorkUpdate(w.workers, i, Worker(Idle, w.workers[i].done + [w.workers[i].pc.packet]));
    case Exit(i, drained) => WorkUpdate(w.workers, i, w.workers[i].(pc := Exited(drained)));
    case _ =>
  }

  ghost predicate CanStep(capacity: nat, w: World) { exists s :: Internal(s) && Enabled(capacity, w, s) }

  lemma WorkerCanStep(capacity: nat, w: World, i: nat)
    requires i < |w.workers| && !w.workers[i].pc.Exited?
    requires w.queue != [] || w.cancelled || w.outClosed || !w.workers[i].pc.Idle?
    ensures CanStep(capacity, w)
  {
    match w.workers[i].pc
    case Received(_) => assert Enabled(capacity, w, Count(i)) && Internal(Count(i));
    case Applying(p, next, entered) =>
      var s := if next >= |p.found| then Finish(i) else if entered then Offer(i, true, None) else Resolve(i);
      assert Enabled(capacity, w, s) && Internal(s);
    case Idle =>
      var s := if w.queue != [] then Take(i) else Exit(i, !w.cancelled);
      assert Enabled(capacity, w, s) && Internal(s);
  }

  lemma PumpCanStep(capacity: nat, w: World)
    requires !w.outClosed && (w.cancelled || w.closed || w.inputClosed)
    requires w.pump.Holding? ==> w.cancelled || w.closed || |w.queue| < capacity
    ensures CanStep(capacity, w)
  {
    var s := match w.pump
      case AtSelect => if w.input != [] then PumpTake else PumpReturn
      case Holding(_) => if |w.queue| < capacity then PumpSend else PumpReturn
      case Sent => PumpCount
      case Returned => CloseOut;
    assert Enabled(capacity, w, s) && Internal(s);
  }

  /** The pool never hangs: once the capture has ended or was told to stop, some step is
      possible until the channel is closed and all workers have returned. */
  lemma NeverStuck(capacity: nat, workers: nat, steps: seq<Step>)
    requires Run(capacity, workers, steps).Some? && capacity > 0 && workers > 0
    requires var w := Run(capacity, workers, steps).value; w.cancelled || w.closed || w.inputClosed
    ensures var w := Run(capacity, workers, steps).value; CanStep(capacity, w) || (AllExited(w) && w.outClosed)
  {
    hide Run, Fifo, Filtered, Hands, Counted, Offered, CanStep, Enabled, Do;
    RunKeepsInv(capacity, workers, steps);
    var w := Run(capacity, workers, steps).value;
    if !AllExited(w) {
      var v :| v in w.workers && !v.pc.Exited?;
      var i :| 0 <= i < |w.workers| && w.workers[i] == v;
      if w.queue != [] || w.cancelled || w.outClosed || !v.pc.Idle? {
        WorkerCanStep(capacity, w, i);
      } else {
        PumpCanStep(capacity, w);
      }
    } else if !w.outClosed {
      assert w.workers[0] in w.workers && w.cancelled;
      PumpCanStep(capacity, w);
    }
  }
}
