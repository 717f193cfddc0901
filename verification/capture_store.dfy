/** What a capture leaves in the store. The calls of `Apply` that the workers make resolve and
    lock in separate steps, and sections of the tracker, the persister and loads come in between.
    So an asset is what all its observations make of it unless a worker is late for it; one
    worker never is, and two can be. */
module CaptureStore {
  import opened AssetModel
  import opened MacAddress
  import opened WorkerPool
  import F = Folding
  import L = Linearization
  import M = Merging
  import R = Races
  import S = Store
  import V = Lives

  /** The store and the callers in flight after what has happened so far, or None if some call
      crashed. */
  ghost function Reached(g: M.Guesses, w: World): Option<L.World> { L.Schedule(g, V.Fresh(), w.events) }

  predicate InFlight(w: World, c: nat) { HasNext(w, c) && w.workers[c].pc.entered && NextOf(w, c).Valid() }

  /** Exactly the workers between resolve and lock are in flight, each with the observation it
      is at. */
  ghost predicate FlightsAre(flights: map<nat, L.Flight>, w: World) {
    forall c: nat :: if c in flights then InFlight(w, c) && flights[c].obs == NextOf(w, c) else !InFlight(w, c)
  }

  /** The locks were taken for the observations in the order in which they were offered. */
  ghost predicate AppliedAre(g: M.Guesses, w: World) {
    forall mac: Mac :: mac != [] ==> V.AppliedTo(g, w.events, mac) == Of(w.offered, mac)
  }

  ghost predicate Told(g: M.Guesses, w: World) {
    && (forall e <- w.events :: V.TwoSteps(e))
    && (Reached(g, w).Some? ==> AppliedAre(g, w) && FlightsAre(Reached(g, w).value.flights, w))
  }

  lemma Nobody(g: M.Guesses, workers: nat)
    ensures Told(g, Start(workers))
  {
  }

  lemma OfMore(list: seq<Observation>, o: Observation, mac: Mac)
    ensures Of(list + [o], mac) == Of(list, mac) + if o.Valid() && o.mac == mac then [o] else []
  {
    assert (list + [o])[..|list|] == list;
  }

  lemma AppliedMore(g: M.Guesses, w: World, z: World, e: L.Event, more: seq<Observation>)
    requires AppliedAre(g, w) && Reached(g, w).Some? && z.events == w.events + [e] && z.offered == w.offered + more
    requires if e.Locked? then |more| == 1 else more == []
    requires e.Locked? ==>
      if e.caller in Reached(g, w).value.flights then more[0].Valid() && Reached(g, w).value.flights[e.caller].obs == more[0]
      else !more[0].Valid()
    ensures AppliedAre(g, z)
  {
    hide V.AppliedTo, Of, L.Schedule;
    forall mac: Mac | mac != [] ensures V.AppliedTo(g, z.events, mac) == Of(z.offered, mac) {
      R.AppliedMore(g, w.events, e, mac);
      if e.Locked? {
        OfMore(w.offered, more[0], mac);
        assert more == [more[0]];
      } else {
        assert w.offered + more == w.offered;
        assert V.AppliedTo(g, w.events, mac) + [] == V.AppliedTo(g, w.events, mac);
      }
    }
  }

  lemma ReachedMore(g: M.Guesses, w: World, z: World, e: L.Event)
    requires z.events == w.events + [e]
    ensures Reached(g, z) == if Reached(g, w).None? then None else L.Happen(g, Reached(g, w).value, e)
    ensures (forall x <- w.events :: V.TwoSteps(x)) && V.TwoSteps(e) ==> forall x <- z.events :: V.TwoSteps(x)
  {
    hide L.Happen, V.TwoSteps;
    assert (w.events + [e])[..|w.events|] == w.events;
  }

  /** Who is in flight after an event, as far as the workers are concerned. */
  lemma EnterFlights(g: M.Guesses, lw: L.World, w: World, z: World, i: nat)
    requires FlightsAre(lw.flights, w) && HasNext(w, i) && !w.workers[i].pc.entered
    requires z.workers == w.workers[i := w.workers[i].(pc := w.workers[i].pc.(entered := true))]
    ensures FlightsAre(L.Happen(g, lw, L.Enter(i, NextOf(w, i))).value.flights, z)
  {
    hide S.Resolve;
    var lz := L.Happen(g, lw, L.Enter(i, NextOf(w, i))).value;
    forall c: nat ensures if c in lz.flights then InFlight(z, c) && lz.flights[c].obs == NextOf(z, c) else !InFlight(z, c) {
      assert c in lw.flights <==> InFlight(w, c);
    }
  }

  lemma LockedFlights(g: M.Guesses, lw: L.World, w: World, z: World, i: nat, row: Option<Snapshot>)
    requires FlightsAre(lw.flights, w) && HasNext(w, i) && w.workers[i].pc.entered && L.Happen(g, lw, L.Locked(i, row)).Some?
    requires var pc := w.workers[i].pc; z.workers == w.workers[i := w.workers[i].(pc := pc.(next := pc.next + 1, entered := false))]
    ensures FlightsAre(L.Happen(g, lw, L.Locked(i, row)).value.flights, z)
  {
    hide S.Commit, L.Current, S.After;
    var lz := L.Happen(g, lw, L.Locked(i, row)).value;
    forall c: nat ensures if c in lz.flights then InFlight(z, c) && lz.flights[c].obs == NextOf(z, c) else !InFlight(z, c) {
      assert c in lw.flights <==> InFlight(w, c);
    }
  }

  /** Who is in flight depends on the workers only. */
  lemma SameFlights(flights: map<nat, L.Flight>, w: World, z: World)
    requires FlightsAre(flights, w) && z.workers == w.workers
    ensures FlightsAre(flights, z)
  {
    assert forall c: nat :: InFlight(z, c) <==> InFlight(w, c);
  }

  lemma ResolveTold(g: M.Guesses, capacity: nat, w: World, i: nat)
    requires Told(g, w) && Enabled(capacity, w, WorkerPool.Resolve(i))
    ensures Told(g, Do(capacity, w, WorkerPool.Resolve(i)))
  {
    hide L.Happen, FlightsAre, AppliedAre, Reached;
    var z, obs := Do(capacity, w, WorkerPool.Resolve(i)), NextOf(w, i);
    ReachedMore(g, w, z, L.Enter(i, obs));
    if Reached(g, w).Some? {
      EnterFlights(g, Reached(g, w).value, w, z, i);
      assert z.offered == w.offered + [];
      AppliedMore(g, w, z, L.Enter(i, obs), []);
    }
  }

  lemma OfferTold(g: M.Guesses, capacity: nat, w: World, i: nat, ok: bool, row: Option<Snapshot>)
    requires Told(g, w) && Enabled(capacity, w, Offer(i, ok, row))
    ensures Told(g, Do(capacity, w, Offer(i, ok, row)))
  {
    hide L.Happen, AppliedAre, Reached;
    var z, e := Do(capacity, w, Offer(i, ok, row)), L.Locked(i, row);
    ReachedMore(g, w, z, e);
    if Reached(g, z).Some? {
      LockedFlights(g, Reached(g, w).value, w, z, i, row);
      assert i in Reached(g, w).value.flights <==> InFlight(w, i);
      AppliedMore(g, w, z, e, [NextOf(w, i)]);
    }
  }

  lemma ElsewhereTold(g: M.Guesses, capacity: nat, w: World, op: S.Op)
    requires Told(g, w) && Enabled(capacity, w, Elsewhere(op))
    ensures Told(g, Do(capacity, w, Elsewhere(op)))
  {
    hide FlightsAre, AppliedAre, Reached, S.Step;
    var z := Do(capacity, w, Elsewhere(op));
    ReachedMore(g, w, z, L.Other(op));
    if Reached(g, z).Some? {
      SameFlights(Reached(g, w).value.flights, w, z);
      assert z.offered == w.offered + [];
      AppliedMore(g, w, z, L.Other(op), []);
    }
  }

  /** A worker that is not in flight, before or after. */
  lemma SilentMove(flights: map<nat, L.Flight>, w: World, z: World, i: nat, v: Worker)
    requires FlightsAre(flights, w) && i < |w.workers| && z.workers == w.workers[i := v] && !InFlight(w, i)
    requires !(v.pc.Applying? && v.pc.entered)
    ensures FlightsAre(flights, z)
  {
    forall c: nat ensures if c in flights then InFlight(z, c) && flights[c].obs == NextOf(z, c) else !InFlight(z, c) {
      assert c != i ==> (InFlight(z, c) <==> InFlight(w, c));
    }
  }

  predicate Silent(s: Step) { !s.Resolve? && !s.Offer? && !s.Elsewhere? }

  lemma SilentEvents(capacity: nat, w: World, s: Step)
    requires Enabled(capacity, w, s) && Silent(s)
    ensures Do(capacity, w, s).events == w.events && Do(capacity, w, s).offered == w.offered
  {
    hide Observable, Held, NextOf, HasNext, Move;
    match s
    case Take(i) => SilentMoved(w, i, Received(w.queue[0]));
    case Count(i) => SilentMoved(w, i, Applying(w.workers[i].pc.packet, 0, false));
    case Exit(i, drained) => SilentMoved(w, i, Exited(drained));
    case _ =>
  }

  lemma SilentMoved(w: World, i: nat, pc: Pc)
    requires i < |w.workers|
    ensures Move(w, i, pc).events == w.events && Move(w, i, pc).offered == w.offered
  {
  }

  lemma SilentFlights(capacity: nat, w: World, s: Step, flights: map<nat, L.Flight>)
    requires Enabled(capacity, w, s) && Silent(s) && FlightsAre(flights, w)
    ensures FlightsAre(flights, Do(capacity, w, s))
  {
    hide FlightsAre, Observable, Held;
    if OfWorker(s) {
      SilentMove(flights, w, Do(capacity, w, s), s.worker, Do(capacity, w, s).workers[s.worker]);
    } else {
      SameFlights(flights, w, Do(capacity, w, s));
    }
  }

  /** A step that calls nothing moves nobody who is in flight. */
  lemma SilentStep(g: M.Guesses, capacity: nat, w: World, s: Step)
    requires Told(g, w) && Enabled(capacity, w, s) && Silent(s)
    ensures Told(g, Do(capacity, w, s))
  {
    hide V.AppliedTo, Of, L.Schedule, V.TwoSteps, FlightsAre, Do, Enabled;
    SilentEvents(capacity, w, s);
    if Reached(g, w).Some? {
      SilentFlights(capacity, w, s, Reached(g, w).value.flights);
    }
  }

  lemma ToldStep(g: M.Guesses, capacity: nat, w: World, s: Step)
    requires Told(g, w) && Enabled(capacity, w, s)
    ensures Told(g, Do(capacity, w, s))
  {
    hide Told, Do, Enabled;
    match s
    case Resolve(i) => ResolveTold(g, capacity, w, i);
    case Offer(i, ok, row) => OfferTold(g, capacity, w, i, ok, row);
    case Elsewhere(op) => ElsewhereTold(g, capacity, w, op);
    case _ => SilentStep(g, capacity, w, s);
  }

  lemma {:induction false} RunTold(g: M.Guesses, capacity: nat, workers: nat, steps: seq<Step>)
    requires Run(capacity, workers, steps).Some?
    ensures Told(g, Run(capacity, workers, steps).value)
  {
    hide Told, Do, Enabled;
    if steps == [] {
      Nobody(g, workers);
    } else {
      RunTold(g, capacity, workers, steps[..|steps| - 1]);
      ToldStep(g, capacity, Run(capacity, workers, steps[..|steps| - 1]).value, steps[|steps| - 1]);
    }
  }

  /** What the store has for an address. */
  ghost function AssetOf(g: M.Guesses, w: World, mac: Mac): Option<Snapshot> {
    if Reached(g, w).None? then None else L.Current(Reached(g, w).value.store, mac)
  }

  /** Nothing has crashed, and what the hydrator found and what was loaded are rows. */
  ghost predicate Sane(g: M.Guesses, w: World) {
    && Reached(g, w).Some? && L.AllRowsGood(g, V.Fresh(), w.events)
    && forall e <- w.events :: V.TwoSteps(e)
  }

  /** At any time of a capture, however workers, tracker, persister and loads interleave: the
      asset of an address is what all observations applied to it since it last entered memory
      make of it, and the sweeps in between, iff no worker has been late for it since; and those
      are the last ones offered. */
  lemma AssetIsAllIff(g: M.Guesses, capacity: nat, workers: nat, steps: seq<Step>, mac: Mac)
    requires Run(capacity, workers, steps).Some? && mac != []
    requires var w := Run(capacity, workers, steps).value; Sane(g, w) && V.RowsLag(g, w.events, mac)
    ensures var w := Run(capacity, workers, steps).value; var all := V.LifeOf(g, w.events, mac, true);
      && (AssetOf(g, w, mac) == V.Contents(g, all) <==> V.OnTime(g, w.events, mac))
      && (AssetOf(g, w, mac).Some? <==> all.Some?)
      && (all.Some? ==> V.Suffix(V.Sights(all.value.touches), Of(w.offered, mac)))
  {
    hide V.LifeOf, V.OnTime, V.RowsLag, V.Contents, L.Current, L.Schedule, L.AllRowsGood, FlightsAre, Of, Run,
      V.AppliedTo, V.Suffix,
      V.TwoSteps;
    RunTold(g, capacity, workers, steps);
    V.AssetIsAllIff(g, Run(capacity, workers, steps).value.events, mac);
    V.SightsAreLast(g, Run(capacity, workers, steps).value.events, mac, true);
  }

  // ---------- captures without ticks, loads and a hydrator ----------

  predicate QuietStep(s: Step) { (s.Offer? ==> s.row.None?) && (s.Elsewhere? ==> s.op.DrainOp?) }

  lemma {:induction false} QuietEvents(capacity: nat, workers: nat, steps: seq<Step>)
    requires Run(capacity, workers, steps).Some? && forall s <- steps :: QuietStep(s)
    ensures forall e <- Run(capacity, workers, steps).value.events :: V.Quiet(e)
  {
    hide Do, Enabled;
    if steps != [] {
      var front, s := steps[..|steps| - 1], steps[|steps| - 1];
      QuietEvents(capacity, workers, front);
      QuietMore(capacity, Run(capacity, workers, front).value, s);
    }
  }

  lemma QuietMore(capacity: nat, w: World, s: Step)
    requires (forall e <- w.events :: V.Quiet(e)) && QuietStep(s) && Enabled(capacity, w, s)
    ensures forall e <- Do(capacity, w, s).events :: V.Quiet(e)
  {
    if Silent(s) {
      hide Do, Enabled;
      SilentEvents(capacity, w, s);
    }
  }

  /** Then nothing crashes, and the asset of an address is the fold of all its observations
      offered so far iff no worker was late for it. */
  lemma AssetIsFoldIff(g: M.Guesses, capacity: nat, workers: nat, steps: seq<Step>, mac: Mac)
    requires Run(capacity, workers, steps).Some? && mac != [] && forall s <- steps :: QuietStep(s)
    ensures var w := Run(capacity, workers, steps).value; var all := Of(w.offered, mac);
      && Sane(g, w) && (AssetOf(g, w, mac).None? <==> all == [])
      && (AssetOf(g, w, mac) == V.Folded(g, mac, all) <==> V.OnTime(g, w.events, mac))
      && (AssetOf(g, w, mac).Some? ==> AssetOf(g, w, mac).value.seenCount <= |all|)
  {
    hide V.Quiet, V.AppliedTo, V.Folded, V.OnTime, L.Current, L.Schedule, L.AllRowsGood, FlightsAre, Of, Run,
      V.TwoSteps, V.LifeOf, V.RowsLag;
    RunTold(g, capacity, workers, steps);
    QuietEvents(capacity, workers, steps);
    V.QuietLife(g, Run(capacity, workers, steps).value.events, mac);
    V.FoldIff(g, Run(capacity, workers, steps).value.events, mac);
  }

  /** Two such captures of the same packets that end by themselves, whatever the numbers of
      workers, the capacities and the interleavings: if nobody was late for an address, the store
      has the same for it, up to what depends on the order of arrival. */
  lemma ScheduleDoesNotMatter(c: nat, m: nat, one: seq<Step>, d: nat, n: nat, other: seq<Step>, g: M.Guesses, mac: Mac)
    requires Run(c, m, one).Some? && Run(d, n, other).Some? && mac != [] && forall s <- one + other :: QuietStep(s)
    requires EndedByItself(Run(c, m, one).value) && EndedByItself(Run(d, n, other).value)
    requires Run(c, m, one).value.arrived == Run(d, n, other).value.arrived
    requires Sane(g, Run(c, m, one).value) && V.OnTime(g, Run(c, m, one).value.events, mac)
    requires Sane(g, Run(d, n, other).value) && V.OnTime(g, Run(d, n, other).value.events, mac)
    ensures var a, b := AssetOf(g, Run(c, m, one).value, mac), AssetOf(g, Run(d, n, other).value, mac);
      && (a.None? <==> b.None?) && (a.Some? ==> F.SameOutcome(a.value, b.value))
  {
    hide F.SameOutcome, F.Fold, Of, Run, EndedByItself, Reached, AssetOf, V.OnTime, QuietStep, L.AllRowsGood;
    assert forall s <- one :: s in one + other;
    assert forall s <- other :: s in one + other;
    SameWork(c, m, one, d, n, other);
    AssetIsFoldIff(g, c, m, one, mac);
    AssetIsFoldIff(g, d, n, other, mac);
    var v, w := Run(c, m, one).value.offered, Run(d, n, other).value.offered;
    OfSame(v, w, mac);
    assert |multiset(Of(v, mac))| == |multiset(Of(w, mac))|;
    if Of(v, mac) != [] {
      F.OrderIndependent(g, MacKey(mac), mac, Of(v, mac), Of(w, mac));
    }
  }

  // ---------- one worker ----------

  /** Whoever was told that there is no asset is still right, and nobody was late. */
  ghost predicate Punctual(g: M.Guesses, w: World) {
    Sane(g, w) ==>
      && (forall c <- Reached(g, w).value.flights.Keys ::
            var f := Reached(g, w).value.flights[c]; f.resolved.None? ==> L.Current(Reached(g, w).value.store, f.obs.mac).None?)
      && forall mac: Mac :: mac != [] ==> V.OnTime(g, w.events, mac)
  }

  lemma OnTimeMore(g: M.Guesses, events: seq<L.Event>, e: L.Event, mac: Mac)
    requires forall x <- events + [e] :: V.TwoSteps(x)
    ensures forall x <- events :: V.TwoSteps(x)
    ensures var w := L.Schedule(g, V.Fresh(), events);
      w.Some? && V.OnTime(g, events, mac) && !V.Late(w.value, e, mac) ==> V.OnTime(g, events + [e], mac)
  {
    hide V.Late, V.Renews, L.Schedule, V.TwoSteps;
    assert (events + [e])[..|events|] == events;
    assert forall x <- events :: x in events + [e];
  }

  lemma SaneBefore(g: M.Guesses, w: World, z: World, e: L.Event)
    requires Sane(g, z) && z.events == w.events + [e]
    ensures Sane(g, w) && L.GoodRows(Reached(g, w).value, e) && V.TwoSteps(e) && Reached(g, z) == L.Happen(g, Reached(g, w).value, e)
    ensures S.Wf(Reached(g, w).value.store) && L.FlightsOk(Reached(g, w).value)
  {
    hide L.Happen, V.TwoSteps, L.GoodRows, S.Wf, L.FlightsOk, V.LifeOf, V.Contents;
    assert z.events[..|w.events|] == w.events && forall x <- w.events :: x in z.events;
    V.AssetsAreLives(g, w.events, [0]);
  }

  lemma AloneResolves(g: M.Guesses, capacity: nat, w: World, i: nat)
    requires Punctual(g, w) && Enabled(capacity, w, WorkerPool.Resolve(i))
    ensures Punctual(g, Do(capacity, w, WorkerPool.Resolve(i)))
  {
    hide V.OnTime, S.Resolve, Reached, L.AllRowsGood, S.Wf, L.FlightsOk, L.Current;
    var z, e := Do(capacity, w, WorkerPool.Resolve(i)), L.Enter(i, NextOf(w, i));
    if Sane(g, z) {
      SaneBefore(g, w, z, e);
      if NextOf(w, i).Valid() {
        L.ResolveIsPresence(Reached(g, w).value.store, NextOf(w, i).mac);
      }
      forall mac: Mac | mac != [] ensures V.OnTime(g, z.events, mac) {
        OnTimeMore(g, w.events, e, mac);
        ReachedIs(g, w);
      }
    }
  }

  lemma ReachedIs(g: M.Guesses, w: World)
    ensures Reached(g, w) == L.Schedule(g, V.Fresh(), w.events)
  {
  }

  lemma AloneOffers(g: M.Guesses, capacity: nat, w: World, i: nat, ok: bool, row: Option<Snapshot>)
    requires Told(g, w) && Punctual(g, w) && |w.workers| == 1 && Enabled(capacity, w, Offer(i, ok, row))
    ensures Punctual(g, Do(capacity, w, Offer(i, ok, row)))
  {
    var z, e := Do(capacity, w, Offer(i, ok, row)), L.Locked(i, row);
    OfferTold(g, capacity, w, i, ok, row);
    hide V.OnTime, S.Resolve, L.Happen, Told, Reached, L.AllRowsGood, S.Wf, L.FlightsOk, L.Current, V.TwoSteps;
    if Sane(g, z) {
      SaneBefore(g, w, z, e);
      NobodyInFlight(g, z);
      forall mac: Mac | mac != [] ensures V.OnTime(g, z.events, mac) {
        OnTimeMore(g, w.events, e, mac);
        ReachedIs(g, w);
      }
    }
  }

  lemma NobodyInFlight(g: M.Guesses, w: World)
    requires Told(g, w) && Reached(g, w).Some? && |w.workers| == 1 && !(w.workers[0].pc.Applying? && w.workers[0].pc.entered)
    ensures Reached(g, w).value.flights.Keys == {}
  {
    hide V.TwoSteps, AppliedAre, Reached;
    var flights := Reached(g, w).value.flights;
    assert forall c: nat :: c in flights ==> InFlight(w, c);
  }

  /** A sweep, an eviction or a drain brings no asset into memory. */
  lemma BringsNothing(g: M.Guesses, st: S.Store, op: S.Op, mac: Mac)
    requires !op.ApplyOp? && !op.LoadOp? && L.Current(st, mac).None?
    ensures L.Current(S.Step(g, st, op).value, mac).None?
  {
    hide MacKey, ShardIndex, S.Swept, S.Stale, S.UnbindAll;
  }

  lemma AloneElsewhere(g: M.Guesses, capacity: nat, w: World, op: S.Op)
    requires Punctual(g, w) && Enabled(capacity, w, Elsewhere(op)) && !op.LoadOp?
    ensures Punctual(g, Do(capacity, w, Elsewhere(op)))
  {
    hide V.OnTime, S.Resolve, Reached, L.AllRowsGood, S.Wf, L.FlightsOk, L.Current, S.Section, V.TwoSteps;
    var z, e := Do(capacity, w, Elsewhere(op)), L.Other(op);
    if Sane(g, z) {
      SaneBefore(g, w, z, e);
      forall c <- Reached(g, z).value.flights.Keys | Reached(g, z).value.flights[c].resolved.None?
        ensures L.Current(Reached(g, z).value.store, Reached(g, z).value.flights[c].obs.mac).None?
      {
        BringsNothing(g, Reached(g, w).value.store, op, Reached(g, w).value.flights[c].obs.mac);
      }
      forall mac: Mac | mac != [] ensures V.OnTime(g, z.events, mac) {
        OnTimeMore(g, w.events, e, mac);
        ReachedIs(g, w);
      }
    }
  }

  lemma AloneStep(g: M.Guesses, capacity: nat, w: World, s: Step)
    requires Told(g, w) && Punctual(g, w) && |w.workers| == 1 && Enabled(capacity, w, s) && !(s.Elsewhere? && s.op.LoadOp?)
    ensures Punctual(g, Do(capacity, w, s))
  {
    hide Told, Do, Enabled, Reached, Punctual;
    match s
    case Resolve(i) => AloneResolves(g, capacity, w, i);
    case Offer(i, ok, row) => AloneOffers(g, capacity, w, i, ok, row);
    case Elsewhere(op) => AloneElsewhere(g, capacity, w, op);
    case _ =>
      SilentEvents(capacity, w, s);
      SameEvents(g, w, Do(capacity, w, s));
  }

  lemma SameEvents(g: M.Guesses, w: World, z: World)
    requires Punctual(g, w) && z.events == w.events
    ensures Punctual(g, z)
  {
    hide V.OnTime, L.Schedule, L.Current, L.AllRowsGood, V.TwoSteps;
  }

  lemma {:induction false} AloneRun(g: M.Guesses, capacity: nat, steps: seq<Step>)
    requires Run(capacity, 1, steps).Some? && forall s <- steps :: !(s.Elsewhere? && s.op.LoadOp?)
    ensures Punctual(g, Run(capacity, 1, steps).value)
  {
    hide Told, Punctual, Do, Enabled, Inv;
    if steps == [] {
      NobodyYet(g);
    } else {
      var front := steps[..|steps| - 1];
      AloneRun(g, capacity, front);
      RunTold(g, capacity, 1, front);
      RunKeepsInv(capacity, 1, front);
      AloneStep(g, capacity, Run(capacity, 1, front).value, steps[|steps| - 1]);
    }
  }

  lemma NobodyYet(g: M.Guesses)
    ensures Punctual(g, Start(1))
  {
  }

  /** One worker is never late, whatever the tracker and the persister do and whatever rows the
      hydrator finds; only a load can come before it. So its assets are always what all their
      observations make of them. */
  lemma OneWorkerIsExact(g: M.Guesses, capacity: nat, steps: seq<Step>, mac: Mac)
    requires Run(capacity, 1, steps).Some? && mac != [] && forall s <- steps :: !(s.Elsewhere? && s.op.LoadOp?)
    requires Sane(g, Run(capacity, 1, steps).value)
    ensures var w := Run(capacity, 1, steps).value;
      V.OnTime(g, w.events, mac) && AssetOf(g, w, mac) == V.Contents(g, V.LifeOf(g, w.events, mac, true))
  {
    hide V.OnTime, V.LifeOf, Run, L.Schedule, L.Current, V.TwoSteps, L.AllRowsGood, V.Contents;
    AloneRun(g, capacity, steps);
    V.AssetsAreLives(g, Run(capacity, 1, steps).value.events, mac);
    V.OnTimeIsAll(g, Run(capacity, 1, steps).value.events, mac);
  }

  // ---------- two workers ----------

  lemma RunMore(capacity: nat, workers: nat, steps: seq<Step>, w: World, s: Step, z: World) returns (more: seq<Step>)
    requires Run(capacity, workers, steps) == Some(w) && Enabled(capacity, w, s) && Do(capacity, w, s) == z
    ensures Run(capacity, workers, more) == Some(z)
  {
    hide Do, Enabled;
    more := steps + [s];
    assert more[..|steps|] == steps;
  }

  /** Two packets arrive, and no more. */
  lemma Arrivals(capacity: nat, p: Packet, q: Packet) returns (steps: seq<Step>)
    ensures Run(capacity, 2, steps) == Some(Start(2).(input := [p, q], arrived := [p, q], inputClosed := true))
  {
    var w := Start(2);
    steps := RunMore(capacity, 2, [], w, Arrive(p), w.(input := [p], arrived := [p]));
    steps := RunMore(capacity, 2, steps, w.(input := [p], arrived := [p]), Arrive(q), w.(input := [p, q], arrived := [p, q]));
    steps := RunMore(capacity, 2, steps, w.(input := [p, q], arrived := [p, q]), EndInput,
                     w.(input := [p, q], arrived := [p, q], inputClosed := true));
  }

  /** The pump passes a packet on. */
  lemma Feed(capacity: nat, steps: seq<Step>, w: World, p: Packet) returns (more: seq<Step>)
    requires Run(capacity, 2, steps) == Some(w) && w.pump == AtSelect && w.input != [] && w.input[0] == p
    requires Observable(p) && |w.queue| < capacity
    ensures Run(capacity, 2, more) == Some(w.(input := w.input[1..], consumed := w.consumed + [p], queue := w.queue + [p],
                                              sent := w.sent + [p], received := w.received + 1))
  {
    hide Run;
    var w1 := w.(input := w.input[1..], consumed := w.consumed + [p], pump := Holding(p));
    var w2 := w1.(queue := w.queue + [p], sent := w.sent + [p], pump := Sent);
    more := RunMore(capacity, 2, steps, w, PumpTake, w1);
    more := RunMore(capacity, 2, more, w1, PumpSend, w2);
    more := RunMore(capacity, 2, more, w2, PumpCount, w2.(pump := AtSelect, received := w.received + 1));
  }

  /** The pump returns at the end of its input. */
  lemma Shut(capacity: nat, steps: seq<Step>, w: World) returns (more: seq<Step>)
    requires Run(capacity, 2, steps) == Some(w) && w.pump == AtSelect && w.input == [] && w.inputClosed && !w.outClosed
    ensures Run(capacity, 2, more) == Some(w.(pump := Returned, outClosed := true))
  {
    hide Run;
    assert w.lost + [] == w.lost;
    more := RunMore(capacity, 2, steps, w, PumpReturn, w.(pump := Returned));
    more := RunMore(capacity, 2, more, w.(pump := Returned), CloseOut, w.(pump := Returned, outClosed := true));
  }

  /** A worker takes a packet. */
  lemma Grab(capacity: nat, steps: seq<Step>, w: World, i: nat, p: Packet, rest: seq<Packet>) returns (more: seq<Step>)
    requires Run(capacity, 2, steps) == Some(w) && At(w, i, Idle) && w.queue == [p] + rest
    ensures Run(capacity, 2, more) == Some(Move(w, i, Applying(p, 0, false)).(
              queue := rest, taken := w.taken + [(i, p)], processed := w.processed + 1))
  {
    hide Run;
    var v := w.workers[i];
    assert w.workers[i := v.(pc := Received(p))][i := v.(pc := Applying(p, 0, false))] == w.workers[i := v.(pc := Applying(p, 0, false))];
    var w1 := Move(w, i, Received(p)).(queue := rest, taken := w.taken + [(i, p)]);
    more := RunMore(capacity, 2, steps, w, Take(i), w1);
    more := RunMore(capacity, 2, more, w1, Count(i), Move(w1, i, Applying(p, 0, false)).(processed := w.processed + 1));
  }

  lemma Ask(capacity: nat, steps: seq<Step>, w: World, i: nat, p: Packet) returns (more: seq<Step>)
    requires Run(capacity, 2, steps) == Some(w) && At(w, i, Applying(p, 0, false)) && |p.found| == 1
    ensures Run(capacity, 2, more) == Some(Move(w, i, Applying(p, 0, true)).(events := w.events + [L.Enter(i, p.found[0])]))
  {
    hide Run;
    more := RunMore(capacity, 2, steps, w, WorkerPool.Resolve(i),
                    Move(w, i, Applying(p, 0, true)).(events := w.events + [L.Enter(i, p.found[0])]));
  }

  /** A worker that resolved takes the lock and finishes its packet. */
  lemma Complete(capacity: nat, steps: seq<Step>, w: World, i: nat, p: Packet) returns (more: seq<Step>)
    requires Run(capacity, 2, steps) == Some(w) && At(w, i, Applying(p, 0, true)) && |p.found| == 1
    ensures Run(capacity, 2, more) == Some(w.(
              workers := w.workers[i := Worker(Idle, w.workers[i].done + [p])], applied := w.applied + 1,
              offered := w.offered + [p.found[0]], events := w.events + [L.Locked(i, None)]))
  {
    hide Run;
    var w1 := Move(w, i, Applying(p, 1, false)).(
      applied := w.applied + 1, offered := w.offered + [p.found[0]], events := w.events + [L.Locked(i, None)]);
    var w2 := w1.(workers := w1.workers[i := Worker(Idle, w.workers[i].done + [p])]);
    assert w2.workers == w.workers[i := Worker(Idle, w.workers[i].done + [p])];
    more := RunMore(capacity, 2, steps, w, Offer(i, true, None), w1);
    more := RunMore(capacity, 2, more, w1, Finish(i), w2);
  }

  /** A worker that finds the channel closed and empty returns. */
  lemma Leave(capacity: nat, steps: seq<Step>, w: World, i: nat) returns (more: seq<Step>)
    requires Run(capacity, 2, steps) == Some(w) && At(w, i, Idle) && w.outClosed && w.queue == []
    ensures Run(capacity, 2, more) == Some(Move(w, i, Exited(true)))
  {
    hide Run;
    more := RunMore(capacity, 2, steps, w, Exit(i, true), Move(w, i, Exited(true)));
  }

  function Carrying(o: Observation): Packet { Packet(1, [o]) }

  /** A capture of two packets by two workers that both resolve before either takes the lock. */
  lemma RacingCapture(capacity: nat, a: Observation, b: Observation) returns (steps: seq<Step>)
    requires capacity >= 2
    ensures Run(capacity, 2, steps).Some? && var w := Run(capacity, 2, steps).value;
      && EndedByItself(w) && w.arrived == [Carrying(a), Carrying(b)] && w.offered == [a, b] && w.events == R.Race(a, b)
  {
    hide Run;
    var p, q := Carrying(a), Carrying(b);
    assert [p, q][1..] == [q] && [q][1..] == [] && [] + [p] == [p] && [p] + [q] == [p, q];
    steps := Arrivals(capacity, p, q);
    var w := Start(2).(input := [p, q], arrived := [p, q], inputClosed := true);
    steps := Feed(capacity, steps, w, p);
    w := w.(input := [q], consumed := [p], queue := [p], sent := [p], received := 1);
    steps := Feed(capacity, steps, w, q);
    w := w.(input := [], consumed := [p, q], queue := [p, q], sent := [p, q], received := 2);
    steps := Shut(capacity, steps, w);
    w := w.(pump := Returned, outClosed := true);
    steps := Race(capacity, steps, w, a, b);
  }

  lemma Race(capacity: nat, steps: seq<Step>, w: World, a: Observation, b: Observation) returns (more: seq<Step>)
    requires Run(capacity, 2, steps) == Some(w) && w.queue == [Carrying(a), Carrying(b)] && w.outClosed && !w.cancelled && !w.closed
    requires w.workers == [Worker(Idle, []), Worker(Idle, [])] && w.offered == [] && w.events == []
    ensures Run(capacity, 2, more).Some? && var z := Run(capacity, 2, more).value;
      && EndedByItself(z) && z.arrived == w.arrived && z.offered == [a, b] && z.events == R.Race(a, b)
  {
    hide Run;
    var p, q := Carrying(a), Carrying(b);
    more := Grab(capacity, steps, w, 0, p, [q]);
    var w1 := Move(w, 0, Applying(p, 0, false)).(queue := [q], taken := w.taken + [(0, p)], processed := w.processed + 1);
    more := Grab(capacity, more, w1, 1, q, []);
    var w2 := Move(w1, 1, Applying(q, 0, false)).(queue := [], taken := w1.taken + [(1, q)], processed := w1.processed + 1);
    more := Ask(capacity, more, w2, 0, p);
    var w3 := Move(w2, 0, Applying(p, 0, true)).(events := w2.events + [L.Enter(0, a)]);
    more := Ask(capacity, more, w3, 1, q);
    var w4 := Move(w3, 1, Applying(q, 0, true)).(events := w3.events + [L.Enter(1, b)]);
    more := CompleteBoth(capacity, more, w4, a, b);
  }

  lemma CompleteBoth(capacity: nat, steps: seq<Step>, w: World, a: Observation, b: Observation) returns (more: seq<Step>)
    requires Run(capacity, 2, steps) == Some(w) && w.queue == [] && w.outClosed && !w.cancelled && !w.closed && |w.workers| == 2
    requires At(w, 0, Applying(Carrying(a), 0, true)) && At(w, 1, Applying(Carrying(b), 0, true))
    requires w.offered == [] && w.events == [L.Enter(0, a)] + [L.Enter(1, b)]
    ensures Run(capacity, 2, more).Some? && var z := Run(capacity, 2, more).value;
      && EndedByItself(z) && z.arrived == w.arrived && z.offered == [a, b] && z.events == R.Race(a, b)
  {
    hide Run;
    var p, q := Carrying(a), Carrying(b);
    assert w.offered + [a] == [a];
    more := Complete(capacity, steps, w, 0, p);
    var w1 := w.(workers := w.workers[0 := Worker(Idle, w.workers[0].done + [p])], applied := w.applied + 1,
                 offered := [a], events := w.events + [L.Locked(0, None)]);
    more := Complete(capacity, more, w1, 1, q);
    var w2 := w1.(workers := w1.workers[1 := Worker(Idle, w1.workers[1].done + [q])], applied := w1.applied + 1,
                  offered := [a] + [b], events := w1.events + [L.Locked(1, None)]);
    more := LeaveBoth(capacity, more, w2);
  }

  lemma LeaveBoth(capacity: nat, steps: seq<Step>, w: World) returns (more: seq<Step>)
    requires Run(capacity, 2, steps) == Some(w) && w.queue == [] && w.outClosed && !w.cancelled && !w.closed && |w.workers| == 2
    requires At(w, 0, Idle) && At(w, 1, Idle)
    ensures Run(capacity, 2, more).Some? && var z := Run(capacity, 2, more).value;
      && EndedByItself(z) && z.arrived == w.arrived && z.offered == w.offered && z.events == w.events
  {
    hide Run;
    more := Leave(capacity, steps, w, 0);
    more := Leave(capacity, more, Move(w, 0, Exited(true)), 1);
  }

  /** So interleaving does matter: two workers can process a capture of two packets of one new
      address so that the store knows of the second only. */
  lemma TwoWorkersLose(capacity: nat, a: Observation, b: Observation, g: M.Guesses) returns (steps: seq<Step>)
    requires capacity >= 2 && a.Valid() && b.Valid() && a.mac == b.mac
    ensures Run(capacity, 2, steps).Some? && var w := Run(capacity, 2, steps).value;
      && EndedByItself(w) && w.arrived == [Carrying(a), Carrying(b)] && w.offered == [a, b] && Sane(g, w)
      && AssetOf(g, w, a.mac) == Some(S.NewAsset(g, b)) && S.NewAsset(g, b).seenCount == 1
      && !V.OnTime(g, w.events, a.mac)
  {
    hide Run, V.OnTime, S.NewAsset, L.Schedule, V.AppliedTo, V.Quiet, EndedByItself, L.AllRowsGood, V.LifeOf, V.RowsLag;
    steps := RacingCapture(capacity, a, b);
    R.LostUpdate(g, a, b);
    V.QuietLife(g, R.Race(a, b), a.mac);
  }
}
