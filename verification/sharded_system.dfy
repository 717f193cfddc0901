/** The write-behind agreement for the program itself: callers that resolve and then take a
    lock, the tracker, the persister and loads, whose sections on the shards come in any order. */
module ShardedSystem {
  import opened Clock
  import opened MacAddress
  import opened AssetModel
  import opened Merging
  import opened Store
  import opened Linearization
  import opened PlainStore
  import opened Storage
  import opened Tracked
  import opened Persister
  import opened WriteBehind

  /** The store and the callers in flight, the queue of the persister as in WriteBehind, and the
      database. */
  datatype Sharded = Sharded(world: World, inflight: seq<Snapshot>, pending: seq<Snapshot>, drained: seq<Snapshot>, db: Db)

  /** `Draining` is the section of `DrainDirty` on one shard; the rest of a flush follows when it
      likes. */
  datatype ShardMove = Happening(e: Event) | Draining(i: ShardId, out: seq<Snapshot>) | Collecting | Saving | Losing

  ghost function Waiting(y: Sharded): seq<Snapshot> { y.inflight + y.pending + y.drained }

  /** The moves of the runs considered, as in WriteBehind. Callers may be as late as they like;
      those that were told of an asset do not ask the hydrator. */
  ghost predicate PossibleOnShards(k: Grain, y: Sharded, v: ShardMove) {
    var st := y.world.store;
    match v
    case Happening(Enter(_, _)) => true
    case Happening(Locked(c, row)) =>
      c in y.world.flights ==>
        var f := y.world.flights[c];
        HasGrain(k, f.obs.at) && (row.Some? ==> f.resolved.None? && HydratorFinds(y.db, f.obs.mac, row.value))
    case Happening(Other(SweepOp(_, _, _))) => true
    case Happening(Other(EvictOp(_, _, _))) => true
    case Happening(Other(LoadOp(i, snaps))) =>
      forall s <- snaps :: IsLoaded(y.db, s) && s.mac != [] && ShardIndex(s.mac) == i
    case Happening(Other(_)) => false
    case Draining(i, out) => y.inflight == [] && DrainsShard(st[i], out)
    case Collecting => y.inflight == []
    case Saving => true
    case Losing => true
  }

  ghost predicate LossIsHarmlessOnShards(k: Grain, st: Store, lost: seq<Snapshot>, rest: seq<Snapshot>, db: Db) {
    forall i: ShardId, q <- lost ::
      q.id in st[i].assets && q.id !in st[i].dirty && !Queued(rest, q.id) && Newest(lost, q.id) == Some(q) ==>
        q.id in db && Agrees(k, OfRow(db[q.id]), OfSnapshot(q))
  }

  /** What is harmless, as in WriteBehind, said of the shard concerned; and a crash is not. */
  ghost predicate HarmlessOnShards(k: Grain, g: Guesses, y: Sharded, v: ShardMove) {
    var st := y.world.store;
    match v
    case Happening(Locked(c, row)) =>
      c in y.world.flights ==>
        var f := y.world.flights[c];
        && !Crashes(y.world, v.e)
        && (f.resolved.None? ==> EntersWell(g, st[ShardIndex(f.obs.mac)].dirty, Waiting(y), y.db, f.obs, row))
    case Happening(Other(LoadOp(i, snaps))) => LoadsWell(st[i].assets, st[i].dirty, Waiting(y), snaps)
    case Losing => LossIsHarmlessOnShards(k, st, y.inflight, y.pending + y.drained, y.db)
    case _ => true
  }

  ghost function NextOnShards(g: Guesses, batchSize: int, y: Sharded, v: ShardMove): Option<Sharded> {
    match v
    case Happening(e) =>
      var w := Happen(g, y.world, e);
      if w.None? then None else Some(y.(world := w.value))
    case Draining(i, out) =>
      var w := Happen(g, y.world, Other(DrainOp(i)));
      if w.None? then None else Some(y.(world := w.value, drained := y.drained + out))
    case Collecting =>
      Some(y.(inflight := Taken(y.pending, y.drained, batchSize), pending := Left(y.pending, y.drained, batchSize), drained := []))
    case Saving => Some(y.(inflight := [], db := SaveAll(y.db, y.inflight)))
    case Losing => Some(y.(inflight := []))
  }

  ghost function RunOnShards(g: Guesses, batchSize: int, y: Sharded, moves: seq<ShardMove>): Option<Sharded> {
    if moves == [] then Some(y)
    else
      var before := RunOnShards(g, batchSize, y, moves[..|moves| - 1]);
      if before.None? then None else NextOnShards(g, batchSize, before.value, moves[|moves| - 1])
  }

  ghost predicate PossibleRunOnShards(g: Guesses, batchSize: int, k: Grain, y: Sharded, moves: seq<ShardMove>) {
    moves != [] ==>
      var before := RunOnShards(g, batchSize, y, moves[..|moves| - 1]);
      && PossibleRunOnShards(g, batchSize, k, y, moves[..|moves| - 1])
      && (before.Some? ==> PossibleOnShards(k, before.value, moves[|moves| - 1]))
  }

  ghost predicate HarmlessRunOnShards(g: Guesses, batchSize: int, k: Grain, y: Sharded, moves: seq<ShardMove>) {
    moves != [] ==>
      var before := RunOnShards(g, batchSize, y, moves[..|moves| - 1]);
      && HarmlessRunOnShards(g, batchSize, k, y, moves[..|moves| - 1])
      && (before.Some? ==> HarmlessOnShards(k, g, before.value, moves[|moves| - 1]))
  }

  /** The agreement in every shard. */
  ghost predicate ShardsAgree(k: Grain, y: Sharded) {
    forall i: ShardId :: Agreement(k, y.world.store[i].assets, y.world.store[i].dirty, Waiting(y), y.db)
  }

  // ---------- the shards and the plain store ----------

  /** The system as WriteBehind sees it, when p is what the shards represent. */
  ghost function Behind(y: Sharded, p: Plain): System { System(p, y.inflight, y.pending, y.drained, y.db) }

  /** The shards represent a plain store that keeps the invariant. */
  ghost predicate Shows(k: Grain, y: Sharded, p: Plain) {
    Represents(y.world.store, p) && FlightsOk(y.world) && Inv(k, p, Waiting(y), y.db)
  }

  /** The move of WriteBehind that a move on the shards is, if it is any. */
  ghost function PlainMove(y: Sharded, v: ShardMove): Option<Move> {
    match v
    case Happening(Enter(_, _)) => None
    case Happening(Locked(c, row)) =>
      if c !in y.world.flights then None
      else
        var f := y.world.flights[c];
        Some(if f.resolved.None? then Enters(f.obs, row) else StoreMove(ApplyOp(f.obs, row)))
    case Happening(Other(op)) => Some(StoreMove(op))
    case Draining(i, out) => Some(DrainMove(i, out))
    case Collecting => Some(Collect)
    case Saving => Some(Save)
    case Losing => Some(Lose)
  }

  ghost function PlainAfter(g: Guesses, batchSize: int, y: Sharded, p: Plain, v: ShardMove): Plain {
    var m := PlainMove(y, v);
    if m.None? then p else Next(g, batchSize, Behind(y, p), m.value).plain
  }

  /** A possible move that does not crash does to what the shards represent what its plain move
      does, which is possible too, and harmless exactly if it is. */
  ghost predicate Lifts(k: Grain, g: Guesses, batchSize: int, y: Sharded, p: Plain, v: ShardMove) {
    var after, m, q := NextOnShards(g, batchSize, y, v), PlainMove(y, v), PlainAfter(g, batchSize, y, p, v);
    && after.Some? && Represents(after.value.world.store, q) && FlightsOk(after.value.world)
    && if m.None? then Behind(after.value, q) == Behind(y, p) && HarmlessOnShards(k, g, y, v)
       else
         && Behind(after.value, q) == Next(g, batchSize, Behind(y, p), m.value)
         && Possible(k, Behind(y, p), m.value)
         && (HarmlessOnShards(k, g, y, v) <==> Harmless(k, g, Behind(y, p), m.value))
  }

  lemma LoadsAreGood(k: Grain, db: Db, snaps: seq<Snapshot>, i: ShardId)
    requires forall id <- db.Keys :: RowOk(k, id, db[id])
    requires forall s <- snaps :: IsLoaded(db, s) && s.mac != [] && ShardIndex(s.mac) == i
    ensures GoodOp(LoadOp(i, snaps))
  {
    hide IsLoadOf, RowOk, Sound, ShardIndex;
    forall s <- snaps ensures s.id == MacKey(s.mac) {
      LoadSame(k, s.id, db[s.id], s);
    }
  }

  /** What a load brings into the plain store it brings into the shard. */
  lemma LoadsOnShard(p: Plain, sh: Shard, i: ShardId, queue: seq<Snapshot>, snaps: seq<Snapshot>)
    requires Part(p, sh, i) && GoodGroup(snaps, i)
    ensures LoadsWell(sh.assets, sh.dirty, queue, snaps) <==> LoadsWell(p.assets, p.dirty, queue, snaps)
  {
    hide Home, MacKey, ShardIndex, Newest, Dominates, Same, Loadable;
    forall s <- snaps ensures (s.id in sh.assets <==> s.id in p.assets) && (s.id in sh.dirty <==> s.id in p.dirty) {
      HomeOfKey(s.mac);
    }
    forall j | 0 <= j < |snaps|
      ensures Brings(sh.assets, snaps, j) <==> Brings(p.assets, snaps, j)
      ensures Fits(queue, sh.dirty, snaps[j]) <==> Fits(queue, p.dirty, snaps[j])
    {
      assert snaps[j] in snaps;
    }
  }

  lemma LossOnShards(k: Grain, p: Plain, st: Store, lost: seq<Snapshot>, rest: seq<Snapshot>, db: Db)
    requires Represents(st, p)
    ensures LossIsHarmlessOnShards(k, st, lost, rest, db) <==> LossIsHarmless(k, p, lost, rest, db)
  {
    hide Wf, Home, Queued, Agrees;
    assert forall i: ShardId :: Part(p, st[i], i);
    if LossIsHarmlessOnShards(k, st, lost, rest, db) {
      forall q <- lost | q.id in p.assets && q.id !in p.dirty && !Queued(rest, q.id) && Newest(lost, q.id) == Some(q)
        ensures q.id in db && Agrees(k, OfRow(db[q.id]), OfSnapshot(q))
      {
        var i: ShardId := Home(q.id);
        assert Part(p, st[i], i);
      }
    }
  }

  /** What enters memory depends on the dirty set at its own id only. */
  lemma EntersOnShard(g: Guesses, st: Store, p: Plain, queue: seq<Snapshot>, db: Db, obs: Observation, row: Option<Snapshot>)
    requires Represents(st, p) && obs.mac != [] && (row.Some? ==> row.value.id == MacKey(obs.mac))
    ensures EntersWell(g, st[ShardIndex(obs.mac)].dirty, queue, db, obs, row) <==> EntersWell(g, p.dirty, queue, db, obs, row)
  {
    HomeOfKey(obs.mac);
    assert Part(p, st[ShardIndex(obs.mac)], ShardIndex(obs.mac));
    MergedIdentity(g, Blank(MacKey(obs.mac), obs.mac), obs);
    if row.Some? {
      MergedIdentity(g, row.value, obs);
    }
    hide Wf, Home, MacKey, ShardIndex, Merged, ReviveChanges, Newest, Dominates, Same, Current;
  }

  /** An event that is one section: an apply, a sweep, an eviction, a load or a drain. */
  lemma EventShows(g: Guesses, y: Sharded, p: Plain, e: Event, op: Op)
    requires Represents(y.world.store, p) && FlightsOk(y.world) && UpToDate(y.world, e) && GoodRows(y.world, e) && GoodOp(op)
    requires Atomic(y.world, e) == [op]
    ensures var w := Happen(g, y.world, e);
      w.Some? && Represents(w.value.store, PlainStep(g, p, op)) && FlightsOk(w.value)
  {
    hide Step, Happen, Atomic, FlightsOk, UpToDate, GoodRows, GoodOp, Wf, Part, PlainStep;
    assert Wf(y.world.store);
    HappenIsAtomic(g, y.world, e);
    OneOp(g, y.world.store, op);
    StepIsPlain(g, y.world.store, p, op);
  }

  // ---------- each move ----------

  lemma RepresentsWf(st: Store, p: Plain)
    requires Represents(st, p)
    ensures Wf(st) && forall i: ShardId :: Part(p, st[i], i)
  {
    hide Wf, Part;
  }

  lemma EnterLifts(k: Grain, g: Guesses, batchSize: int, y: Sharded, p: Plain, c: nat, obs: Observation)
    requires Shows(k, y, p)
    ensures Lifts(k, g, batchSize, y, p, Happening(Enter(c, obs)))
  {
    hide Represents, Inv, FlightsOk, Resolve, Wf;
    RepresentsWf(y.world.store, p);
    EnterIsNothing(g, y.world, c, obs);
  }

  /** A row that is found belongs to the address, also where the address could not be read. */
  lemma FoundIsGood(k: Grain, db: Db, mac: Mac, s: Snapshot)
    requires (forall id <- db.Keys :: RowOk(k, id, db[id])) && mac != [] && HydratorFinds(db, mac, s)
    ensures RowFor(s, mac)
  {
    hide RowOk, IsLoadOf;
    FoundIsOwnRow(k, db, mac, s);
    LoadSame(k, s.id, db[s.id], s);
    if s.mac != [] {
      MacKeyInjective(s.mac, mac);
    }
  }

  lemma FlightIsValid(w: World, c: nat)
    requires FlightsOk(w) && c in w.flights
    ensures w.flights[c].obs.Valid() && w.flights[c].obs.mac != []
  {
  }

  lemma NoFlightLifts(k: Grain, g: Guesses, batchSize: int, y: Sharded, p: Plain, c: nat, row: Option<Snapshot>)
    requires Shows(k, y, p) && c !in y.world.flights
    ensures Lifts(k, g, batchSize, y, p, Happening(Locked(c, row)))
  {
    hide Represents, Inv, FlightsOk;
  }

  lemma RowHasKey(s: Snapshot, mac: Mac)
    requires RowFor(s, mac)
    ensures s.id == MacKey(mac)
  {
  }

  /** An event that is one section lifts if its guards are those of the plain move. */
  lemma EventLifts(k: Grain, g: Guesses, batchSize: int, y: Sharded, p: Plain, e: Event, op: Op)
    requires Shows(k, y, p) && UpToDate(y.world, e) && GoodRows(y.world, e) && GoodOp(op) && Atomic(y.world, e) == [op]
    requires PlainMove(y, Happening(e)) == Some(StoreMove(op)) && Possible(k, Behind(y, p), StoreMove(op))
    requires HarmlessOnShards(k, g, y, Happening(e)) <==> Harmless(k, g, Behind(y, p), StoreMove(op))
    ensures Lifts(k, g, batchSize, y, p, Happening(e))
  {
    hide Represents, Inv, FlightsOk, Happen, PlainStep, UpToDate, GoodRows, GoodOp, Possible, Harmless,
      HarmlessOnShards, PlainMove;
    EventShows(g, y, p, e, op);
  }

  /** A caller that was told of an asset which is still there. */
  lemma UpdateLifts(k: Grain, g: Guesses, batchSize: int, y: Sharded, p: Plain, c: nat)
    requires Shows(k, y, p) && PossibleOnShards(k, y, Happening(Locked(c, None))) && c in y.world.flights
    requires y.world.flights[c].resolved.Some? && !Crashes(y.world, Locked(c, None))
    ensures Lifts(k, g, batchSize, y, p, Happening(Locked(c, None)))
  {
    hide Represents, Inv, FlightsOk, HasGrain, MacKey, Resolve, Current, Lifts, Wf;
    var f, op := y.world.flights[c], ApplyOp(y.world.flights[c].obs, None);
    RepresentsWf(y.world.store, p);
    FlightIsValid(y.world, c);
    FlightIsKeyed(y.world, c);
    ResolveIsPresence(y.world.store, f.obs.mac);
    CurrentIsPlain(y.world.store, p, f.obs.mac);
    EventLifts(k, g, batchSize, y, p, Locked(c, None), op);
  }

  lemma FlightIsKeyed(w: World, c: nat)
    requires FlightsOk(w) && c in w.flights
    ensures w.flights[c].resolved.Some? ==> w.flights[c].resolved.value == MacKey(w.flights[c].obs.mac)
  {
  }

  /** What is possible for a caller that was told that there is no asset. */
  lemma EntersPossible(k: Grain, y: Sharded, p: Plain, c: nat, row: Option<Snapshot>)
    requires Shows(k, y, p) && PossibleOnShards(k, y, Happening(Locked(c, row))) && c in y.world.flights
    ensures var f := y.world.flights[c]; GoodOp(ApplyOp(f.obs, row)) && Possible(k, Behind(y, p), Enters(f.obs, row))
  {
    hide Represents, Inv, HasGrain, MacKey, RowOk, RowFor, FlightsOk, HydratorFinds;
    InvRows(k, p, Waiting(y), y.db);
    FlightIsValid(y.world, c);
    if row.Some? {
      FoundIsGood(k, y.db, y.world.flights[c].obs.mac, row.value);
    }
  }

  /** And what is harmless. */
  lemma EntersHarmless(k: Grain, g: Guesses, y: Sharded, p: Plain, c: nat, row: Option<Snapshot>)
    requires Represents(y.world.store, p) && c in y.world.flights && y.world.flights[c].resolved.None?
    requires var f := y.world.flights[c]; GoodOp(ApplyOp(f.obs, row)) && f.obs.mac != []
    ensures HarmlessOnShards(k, g, y, Happening(Locked(c, row)))
      <==> Harmless(k, g, Behind(y, p), Enters(y.world.flights[c].obs, row))
  {
    hide Represents, Current, MacKey, ShardIndex, EntersWell, RowFor;
    var f := y.world.flights[c];
    if row.Some? {
      RowHasKey(row.value, f.obs.mac);
    }
    EntersOnShard(g, y.world.store, p, Waiting(y), y.db, f.obs, row);
  }

  lemma EntersShows(g: Guesses, y: Sharded, p: Plain, c: nat, row: Option<Snapshot>)
    requires Represents(y.world.store, p) && FlightsOk(y.world) && c in y.world.flights && y.world.flights[c].resolved.None?
    requires GoodOp(ApplyOp(y.world.flights[c].obs, row))
    ensures var w := Happen(g, y.world, Locked(c, row));
      w.Some? && Represents(w.value.store, PlainEnter(g, p, y.world.flights[c].obs, row)) && FlightsOk(w.value)
  {
    hide Represents, FlightsOk, Wf, PlainEnter, Commit, After, GoodOp, Current;
    RepresentsWf(y.world.store, p);
    FlightIsValid(y.world, c);
    EnterIsPlain(g, y.world.store, p, y.world.flights[c].obs, row);
    HappenCrashesIff(g, y.world, Locked(c, row));
  }

  /** A caller that was told that there is no asset. */
  lemma EntersLifts(k: Grain, g: Guesses, batchSize: int, y: Sharded, p: Plain, c: nat, row: Option<Snapshot>)
    requires Shows(k, y, p) && PossibleOnShards(k, y, Happening(Locked(c, row))) && c in y.world.flights
    requires y.world.flights[c].resolved.None?
    ensures Lifts(k, g, batchSize, y, p, Happening(Locked(c, row)))
  {
    hide Represents, Inv, FlightsOk, GoodOp, Possible, Harmless, HarmlessOnShards, PossibleOnShards, Happen, PlainEnter;
    EntersPossible(k, y, p, c, row);
    FlightIsValid(y.world, c);
    EntersHarmless(k, g, y, p, c, row);
    EntersShows(g, y, p, c, row);
  }

  /** The locked section of a caller. */
  lemma LockedLifts(k: Grain, g: Guesses, batchSize: int, y: Sharded, p: Plain, c: nat, row: Option<Snapshot>)
    requires Shows(k, y, p) && PossibleOnShards(k, y, Happening(Locked(c, row))) && !Crashes(y.world, Locked(c, row))
    ensures Lifts(k, g, batchSize, y, p, Happening(Locked(c, row)))
  {
    hide Shows, Lifts, Crashes;
    if c !in y.world.flights {
      NoFlightLifts(k, g, batchSize, y, p, c, row);
    } else if y.world.flights[c].resolved.None? {
      EntersLifts(k, g, batchSize, y, p, c, row);
    } else {
      assert row.None?;
      UpdateLifts(k, g, batchSize, y, p, c);
    }
  }

  /** The guards of a section of the tracker or of a load. */
  lemma OtherGuards(k: Grain, g: Guesses, y: Sharded, p: Plain, op: Op)
    requires Shows(k, y, p) && PossibleOnShards(k, y, Happening(Other(op)))
    ensures GoodOp(op) && Possible(k, Behind(y, p), StoreMove(op))
    ensures HarmlessOnShards(k, g, y, Happening(Other(op))) <==> Harmless(k, g, Behind(y, p), StoreMove(op))
  {
    hide Represents, Inv, IsLoaded, FlightsOk, RowOk, MacKey, ShardIndex, LoadsWell, Part, GoodGroup;
    if op.LoadOp? {
      InvRows(k, p, Waiting(y), y.db);
      RepresentsWf(y.world.store, p);
      LoadsAreGood(k, y.db, op.snaps, op.i);
      LoadsOnShard(p, y.world.store[op.i], op.i, Waiting(y), op.snaps);
    }
  }

  /** A section of the tracker or of a load. */
  lemma OtherLifts(k: Grain, g: Guesses, batchSize: int, y: Sharded, p: Plain, op: Op)
    requires Shows(k, y, p) && PossibleOnShards(k, y, Happening(Other(op)))
    ensures Lifts(k, g, batchSize, y, p, Happening(Other(op)))
  {
    hide Represents, Inv, FlightsOk, GoodOp, Possible, Harmless, HarmlessOnShards, PossibleOnShards, Lifts;
    OtherGuards(k, g, y, p, op);
    EventLifts(k, g, batchSize, y, p, Other(op), op);
  }

  lemma DrainingLifts(k: Grain, g: Guesses, batchSize: int, y: Sharded, p: Plain, i: ShardId, out: seq<Snapshot>)
    requires Shows(k, y, p) && PossibleOnShards(k, y, Draining(i, out))
    ensures Lifts(k, g, batchSize, y, p, Draining(i, out))
  {
    hide Represents, Inv, FlightsOk, Happen, PlainStep, DrainsShard, PlainDrain;
    DrainIsPlain(y.world.store, p, i, out);
    EventShows(g, y, p, Other(DrainOp(i)), DrainOp(i));
  }

  lemma LosingLifts(k: Grain, g: Guesses, batchSize: int, y: Sharded, p: Plain)
    requires Shows(k, y, p)
    ensures Lifts(k, g, batchSize, y, p, Losing)
  {
    hide Represents, Inv, FlightsOk, LossIsHarmless, LossIsHarmlessOnShards;
    LossOnShards(k, p, y.world.store, y.inflight, y.pending + y.drained, y.db);
  }

  /** The program crashes in this move. */
  ghost predicate Fatal(y: Sharded, v: ShardMove) { v.Happening? && Crashes(y.world, v.e) }

  lemma MoveLifts(k: Grain, g: Guesses, batchSize: int, y: Sharded, p: Plain, v: ShardMove)
    requires Shows(k, y, p) && PossibleOnShards(k, y, v) && !Fatal(y, v)
    ensures Lifts(k, g, batchSize, y, p, v)
  {
    hide Represents, Inv, FlightsOk, PlainStep, Happen, Taken, Left, SaveAll;
    match v
    case Happening(Enter(c, obs)) =>
      hide Lifts, PossibleOnShards;
      EnterLifts(k, g, batchSize, y, p, c, obs);
    case Happening(Locked(c, row)) =>
      hide Lifts, PossibleOnShards;
      LockedLifts(k, g, batchSize, y, p, c, row);
    case Happening(Other(op)) =>
      hide Lifts, PossibleOnShards;
      OtherLifts(k, g, batchSize, y, p, op);
    case Draining(i, out) =>
      hide Lifts, PossibleOnShards;
      DrainingLifts(k, g, batchSize, y, p, i, out);
    case Collecting =>
    case Saving =>
    case Losing =>
      hide Lifts, PossibleOnShards;
      LosingLifts(k, g, batchSize, y, p);
  }

  /** The shards agree with queue and database exactly if what they represent does. */
  lemma ShardsAgreeIff(k: Grain, y: Sharded, p: Plain)
    requires Represents(y.world.store, p)
    ensures ShardsAgree(k, y) <==> Agreed(k, Behind(y, p))
  {
    hide Wf, Home, Dominates, Same, Agrees;
    assert forall i: ShardId :: Part(p, y.world.store[i], i);
    if Agreed(k, Behind(y, p)) {
      forall i: ShardId ensures Agreement(k, y.world.store[i].assets, y.world.store[i].dirty, Waiting(y), y.db) {
        PartAgrees(k, p, y.world.store[i], i, Waiting(y), y.db);
      }
    }
    if ShardsAgree(k, y) {
      WholeAgrees(k, p, y.world.store, Waiting(y), y.db);
    }
  }

  lemma PartAgrees(k: Grain, p: Plain, sh: Shard, i: ShardId, queue: seq<Snapshot>, db: Db)
    requires Part(p, sh, i) && Agreement(k, p.assets, p.dirty, queue, db)
    ensures Agreement(k, sh.assets, sh.dirty, queue, db)
  {
    hide Home, Dominates, Same, Agrees, Newest;
  }

  ghost predicate AgreedAt(k: Grain, s: Snapshot, id: AssetId, dirty: bool, queue: seq<Snapshot>, db: Db) {
    && (forall q <- queue :: q.id == id ==> Dominates(OfSnapshot(s), OfSnapshot(q)))
    && (id in db ==> Dominates(OfSnapshot(s), OfRow(db[id])))
    && (!dirty && Newest(queue, id).Some? ==> Same(OfSnapshot(Newest(queue, id).value), OfSnapshot(s)))
    && (!dirty && Newest(queue, id).None? ==> id in db && Agrees(k, OfRow(db[id]), OfSnapshot(s)))
  }

  lemma AgreementAt(k: Grain, assets: map<AssetId, Snapshot>, dirty: set<AssetId>, queue: seq<Snapshot>, db: Db)
    ensures Agreement(k, assets, dirty, queue, db) <==> forall id <- assets.Keys :: AgreedAt(k, assets[id], id, id in dirty, queue, db)
  {
    hide Dominates, Same, Agrees, Newest;
  }

  lemma WholeAgrees(k: Grain, p: Plain, st: Store, queue: seq<Snapshot>, db: Db)
    requires Represents(st, p) && forall i: ShardId :: Agreement(k, st[i].assets, st[i].dirty, queue, db)
    ensures Agreement(k, p.assets, p.dirty, queue, db)
  {
    AgreementAt(k, p.assets, p.dirty, queue, db);
    forall id <- p.assets.Keys ensures AgreedAt(k, p.assets[id], id, id in p.dirty, queue, db) {
      var i: ShardId := Home(id);
      assert Part(p, st[i], i);
      AgreementAt(k, st[i].assets, st[i].dirty, queue, db);
      hide *;
    }
  }

  /** A crash is harmful, and nothing comes after it. */
  lemma FatalIsHarmful(k: Grain, g: Guesses, batchSize: int, y: Sharded, p: Plain, v: ShardMove)
    requires Shows(k, y, p) && PossibleOnShards(k, y, v) && Fatal(y, v)
    ensures NextOnShards(g, batchSize, y, v).None? && !HarmlessOnShards(k, g, y, v)
  {
    hide Represents, Inv, FlightsOk, Happen, Current, EntersWell, HasGrain, HydratorFinds, GoodRows, Wf;
    RepresentsWf(y.world.store, p);
    ToldWithoutRow(k, y, v.e.caller, v.e.row);
    HappenCrashesIff(g, y.world, v.e);
  }

  lemma ToldWithoutRow(k: Grain, y: Sharded, c: nat, row: Option<Snapshot>)
    requires PossibleOnShards(k, y, Happening(Locked(c, row))) && c in y.world.flights && y.world.flights[c].resolved.Some?
    ensures row.None? && GoodRows(y.world, Locked(c, row))
  {
  }

  /** A move that is possible and harmless keeps what the shards show. */
  lemma MoveShows(k: Grain, g: Guesses, batchSize: int, y: Sharded, p: Plain, v: ShardMove)
    requires Shows(k, y, p) && PossibleOnShards(k, y, v) && HarmlessOnShards(k, g, y, v)
    ensures var after := NextOnShards(g, batchSize, y, v);
      after.Some? && Shows(k, after.value, PlainAfter(g, batchSize, y, p, v))
  {
    hide Represents, Inv, FlightsOk, Next, Possible, Harmless, PossibleOnShards, HarmlessOnShards, NextOnShards,
      PlainMove, Fatal;
    if Fatal(y, v) {
      FatalIsHarmful(k, g, batchSize, y, p, v);
    }
    MoveLifts(k, g, batchSize, y, p, v);
    if PlainMove(y, v).Some? {
      MoveKeeps(k, g, batchSize, Behind(y, p), PlainMove(y, v).value);
    }
  }

  /** A possible move does not crash and keeps the agreement in the shards exactly if it is
      harmless. */
  lemma MoveAgreesOnShardsIff(k: Grain, g: Guesses, batchSize: int, y: Sharded, p: Plain, v: ShardMove)
    requires Shows(k, y, p) && PossibleOnShards(k, y, v)
    ensures var after := NextOnShards(g, batchSize, y, v);
      after.Some? && ShardsAgree(k, after.value) <==> HarmlessOnShards(k, g, y, v)
  {
    if Fatal(y, v) {
      FatalIsHarmful(k, g, batchSize, y, p, v);
    } else {
      LiftedAgreesIff(k, g, batchSize, y, p, v);
    }
  }

  lemma LiftedAgreesIff(k: Grain, g: Guesses, batchSize: int, y: Sharded, p: Plain, v: ShardMove)
    requires Shows(k, y, p) && PossibleOnShards(k, y, v) && !Fatal(y, v)
    ensures var after := NextOnShards(g, batchSize, y, v);
      after.Some? && (ShardsAgree(k, after.value) <==> HarmlessOnShards(k, g, y, v))
  {
    hide Represents, Inv, FlightsOk, Next, Possible, Harmless, PossibleOnShards, HarmlessOnShards, NextOnShards,
      PlainMove, ShardsAgree,
      Agreement, Fatal;
    MoveLifts(k, g, batchSize, y, p, v);
    InvGivesAgreement(k, p, Waiting(y), y.db);
    var after, m := NextOnShards(g, batchSize, y, v), PlainMove(y, v);
    ShardsAgreeIff(k, after.value, PlainAfter(g, batchSize, y, p, v));
    if m.Some? {
      MoveAgreesIff(k, g, batchSize, Behind(y, p), m.value);
    }
  }

  // ---------- runs ----------

  /** A start of the program: nothing in memory, nobody in flight, and a database that this
      program wrote. */
  function Beginning(db: Db): Sharded { Sharded(World(EmptyStore(), map[]), [], [], [], db) }

  lemma BeginningShows(k: Grain, db: Db)
    requires forall id <- db.Keys :: RowOk(k, id, db[id])
    ensures Shows(k, Beginning(db), Plain(map[], {}))
  {
    hide RowOk, Home;
    EmptyIsWf();
  }

  /** In every state that harmless moves reach, the shards show a plain store that keeps the
      invariant, and nothing has crashed. */
  lemma {:induction false} RunShows(k: Grain, g: Guesses, batchSize: int, db: Db, moves: seq<ShardMove>) returns (p: Plain)
    requires forall id <- db.Keys :: RowOk(k, id, db[id])
    requires PossibleRunOnShards(g, batchSize, k, Beginning(db), moves) && HarmlessRunOnShards(g, batchSize, k, Beginning(db), moves)
    ensures var z := RunOnShards(g, batchSize, Beginning(db), moves); z.Some? && Shows(k, z.value, p)
  {
    hide Shows, PossibleOnShards, HarmlessOnShards, NextOnShards, RowOk, Beginning;
    if moves == [] {
      p := Plain(map[], {});
      BeginningShows(k, db);
    } else {
      var front := moves[..|moves| - 1];
      p := RunShows(k, g, batchSize, db, front);
      var y := RunOnShards(g, batchSize, Beginning(db), front).value;
      MoveShows(k, g, batchSize, y, p, moves[|moves| - 1]);
      p := PlainAfter(g, batchSize, y, p, moves[|moves| - 1]);
    }
  }

  ghost predicate AgreesAfter(g: Guesses, batchSize: int, k: Grain, y: Sharded, moves: seq<ShardMove>) {
    var z := RunOnShards(g, batchSize, y, moves); z.Some? && ShardsAgree(k, z.value)
  }

  /** Write-behind agreement: over every interleaving of harmless moves of callers, tracker,
      persister and loads, section by section, started on any database this program wrote,
      nothing crashes, and in every shard memory dominates every queued and stored version, and
      an asset that is not dirty agrees with its newest queued version, else with its row. */
  lemma ShardedAgreement(k: Grain, g: Guesses, batchSize: int, db: Db, moves: seq<ShardMove>)
    requires forall id <- db.Keys :: RowOk(k, id, db[id])
    requires PossibleRunOnShards(g, batchSize, k, Beginning(db), moves) && HarmlessRunOnShards(g, batchSize, k, Beginning(db), moves)
    ensures AgreesAfter(g, batchSize, k, Beginning(db), moves)
  {
    var p := RunShows(k, g, batchSize, db, moves);
    var z := RunOnShards(g, batchSize, Beginning(db), moves).value;
    hide RowOk, PossibleRunOnShards, HarmlessRunOnShards, RunOnShards, Beginning, Represents, Inv, FlightsOk,
      ShardsAgree, Agreement;
    InvGivesAgreement(k, p, Waiting(z), z.db);
    ShardsAgreeIff(k, z, p);
  }

  /** And exactly then: a run has the agreement all the way iff all its moves are harmless. */
  lemma {:induction false} ShardedAgreesIff(k: Grain, g: Guesses, batchSize: int, db: Db, moves: seq<ShardMove>)
    requires forall id <- db.Keys :: RowOk(k, id, db[id])
    requires PossibleRunOnShards(g, batchSize, k, Beginning(db), moves)
    ensures HarmlessRunOnShards(g, batchSize, k, Beginning(db), moves) <==>
      forall n | 0 <= n <= |moves| :: AgreesAfter(g, batchSize, k, Beginning(db), moves[..n])
  {
    hide Shows, PossibleOnShards, HarmlessOnShards, NextOnShards, RowOk, Beginning, ShardsAgree;
    assert moves[..|moves|] == moves;
    if moves == [] {
      ShardedAgreement(k, g, batchSize, db, []);
    } else {
      var front, v := moves[..|moves| - 1], moves[|moves| - 1];
      assert forall n | 0 <= n <= |front| :: front[..n] == moves[..n];
      ShardedAgreesIff(k, g, batchSize, db, front);
      if HarmlessRunOnShards(g, batchSize, k, Beginning(db), front) {
        var p := RunShows(k, g, batchSize, db, front);
        MoveAgreesOnShardsIff(k, g, batchSize, RunOnShards(g, batchSize, Beginning(db), front).value, p, v);
      }
    }
  }
}
