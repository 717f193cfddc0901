/** The store, the persister's queue and the database as one state machine. In every
    reachable state, memory dominates every queued and stored version of an asset, and an
    asset that is not dirty agrees with its newest queued version, or else with its row. */
module WriteBehind {
  import opened Clock
  import opened MacAddress
  import opened AssetModel
  import opened Merging
  import opened Store
  import opened Linearization
  import opened PlainStore
  import opened TimeText
  import opened TextOrder
  import opened Storage
  import opened Tracked
  import opened Persister

  /** `inflight` is the batch handed to SaveBatch and not yet saved, `pending` what earlier
      batches left over, and `drained` what the flush under way has drained so far. Flushes do
      not overlap, so shards are drained only while nothing is in flight. */
  datatype System = System(plain: Plain, inflight: seq<Snapshot>, pending: seq<Snapshot>, drained: seq<Snapshot>, db: Db)

  /** `Enters` is the locked section of a caller that was told that there is no asset; if there is
      one by now, it is overwritten. */
  datatype Move =
    | StoreMove(op: Op)
    | Enters(obs: Observation, row: Option<Snapshot>)
    | DrainMove(i: ShardId, out: seq<Snapshot>)
    | Collect
    | Save
    | Lose

  ghost function Queue(y: System): seq<Snapshot> { y.inflight + y.pending + y.drained }

  ghost predicate Queued(queue: seq<Snapshot>, id: AssetId) { exists q <- queue :: q.id == id }

  /** The newest queued version of an asset. */
  ghost function Newest(queue: seq<Snapshot>, id: AssetId): Option<Snapshot> {
    if queue == [] then None
    else if queue[|queue| - 1].id == id then Some(queue[|queue| - 1])
    else Newest(queue[..|queue| - 1], id)
  }

  // ---------- the moves ----------

  /** A loaded row with this address, which is what `LoadAssetByMAC` finds. */
  ghost predicate HydratorFinds(db: Db, mac: Mac, s: Snapshot) {
    exists id <- db.Keys :: db[id].mac == MacString(mac) && IsLoadOf(id, db[id], s)
  }

  ghost predicate NoRowFor(db: Db, mac: Mac) { forall id <- db.Keys :: db[id].mac != MacString(mac) }

  ghost predicate IsLoaded(db: Db, s: Snapshot) { s.id in db && IsLoadOf(s.id, db[s.id], s) }

  /** The moves of the runs considered. Times have the grain of the run; what the hydrator
      finds is a row, which it misses if it fails; loads are loads of the rows as they are; and
      shards are drained when no batch is in flight. */
  ghost predicate Possible(k: Grain, y: System, v: Move) {
    match v
    case StoreMove(ApplyOp(obs, row)) =>
      obs.Valid() ==>
        && HasGrain(k, obs.at)
        && (MacKey(obs.mac) !in y.plain.assets && row.Some? ==> HydratorFinds(y.db, obs.mac, row.value))
    case Enters(obs, row) => obs.Valid() && HasGrain(k, obs.at) && (row.Some? ==> HydratorFinds(y.db, obs.mac, row.value))
    case StoreMove(SweepOp(_, _, _)) => true
    case StoreMove(EvictOp(_, _, _)) => true
    case StoreMove(LoadOp(_, snaps)) => forall s <- snaps :: IsLoaded(y.db, s)
    case StoreMove(DrainOp(_)) => false
    case DrainMove(i, out) => y.inflight == [] && PlainDrain(y.plain, i, out)
    case Collect => y.inflight == []
    case Save => true
    case Lose => true
  }

  // ---------- what can go wrong ----------

  /** Contents that enter memory, while the queue still has versions of the asset, must not be
      behind the newest of them; nor may they differ from it unless the asset is dirty. With
      nothing queued there is nothing to respect. */
  ghost predicate Fits(queue: seq<Snapshot>, dirty: set<AssetId>, t: Snapshot) {
    var n := Newest(queue, t.id);
    n.Some? ==>
      && Dominates(OfSnapshot(t), OfSnapshot(n.value))
      && (t.id in dirty || Same(OfSnapshot(n.value), OfSnapshot(t)))
  }

  /** An asset that is hydrated must fit, and so must one that is created; and if it is created
      because the hydrator failed to find its row, it must not be behind that row either. */
  ghost predicate EntersWell(g: Guesses, dirty: set<AssetId>, queue: seq<Snapshot>, db: Db, obs: Observation, row: Option<Snapshot>) {
    var id := MacKey(obs.mac);
    match row
    case Some(s) => Fits(queue, if ReviveChanges(g, s, obs) then dirty + {id} else dirty, Revived(g, s, obs))
    case None =>
      && Fits(queue, dirty + {id}, NewAsset(g, obs))
      && (id in db ==> Dominates(OfSnapshot(NewAsset(g, obs)), OfRow(db[id])))
  }

  /** The first loaded snapshot of an asset that is not in memory. */
  predicate Brings(assets: map<AssetId, Snapshot>, snaps: seq<Snapshot>, j: nat)
    requires j < |snaps|
  {
    snaps[j].id !in assets && Loadable(snaps[j]) && forall l | 0 <= l < j :: Loadable(snaps[l]) ==> snaps[l].id != snaps[j].id
  }

  /** What a load brings into memory must fit. */
  ghost predicate LoadsWell(assets: map<AssetId, Snapshot>, dirty: set<AssetId>, queue: seq<Snapshot>, snaps: seq<Snapshot>) {
    forall j | 0 <= j < |snaps| :: Brings(assets, snaps, j) ==> Fits(queue, dirty, snaps[j])
  }

  /** What every version in a lost batch may be the last trace of: the newest lost version of
      an asset in memory that is not dirty and that the rest of the queue does not have again.
      The loss is harmless iff the row of each of these already agrees with it. */
  ghost predicate LossIsHarmless(k: Grain, p: Plain, lost: seq<Snapshot>, rest: seq<Snapshot>, db: Db) {
    forall q <- lost :: q.id in p.assets && q.id !in p.dirty && !Queued(rest, q.id) && Newest(lost, q.id) == Some(q) ==>
      q.id in db && Agrees(k, OfRow(db[q.id]), OfSnapshot(q))
  }

  /** The moves that do no harm: only an asset that enters memory and a batch that is given up
      can do some. */
  ghost predicate Harmless(k: Grain, g: Guesses, y: System, v: Move) {
    match v
    case StoreMove(ApplyOp(obs, row)) =>
      obs.Valid() && MacKey(obs.mac) !in y.plain.assets ==> EntersWell(g, y.plain.dirty, Queue(y), y.db, obs, row)
    case Enters(obs, row) => EntersWell(g, y.plain.dirty, Queue(y), y.db, obs, row)
    case StoreMove(LoadOp(_, snaps)) => LoadsWell(y.plain.assets, y.plain.dirty, Queue(y), snaps)
    case Lose => LossIsHarmless(k, y.plain, y.inflight, y.pending + y.drained, y.db)
    case _ => true
  }

  ghost function Next(g: Guesses, batchSize: int, y: System, v: Move): System {
    match v
    case StoreMove(op) => y.(plain := PlainStep(g, y.plain, op))
    case Enters(obs, row) => y.(plain := PlainEnter(g, y.plain, obs, row))
    case DrainMove(i, out) => y.(plain := PlainStep(g, y.plain, DrainOp(i)), drained := y.drained + out)
    case Collect =>
      y.(inflight := Taken(y.pending, y.drained, batchSize), pending := Left(y.pending, y.drained, batchSize), drained := [])
    case Save => y.(inflight := [], db := SaveAll(y.db, y.inflight))
    case Lose => y.(inflight := [])
  }

  ghost function RunMoves(g: Guesses, batchSize: int, y: System, moves: seq<Move>): System {
    if moves == [] then y
    else Next(g, batchSize, RunMoves(g, batchSize, y, moves[..|moves| - 1]), moves[|moves| - 1])
  }

  ghost predicate PossibleRun(g: Guesses, batchSize: int, k: Grain, y: System, moves: seq<Move>) {
    moves != [] ==>
      && PossibleRun(g, batchSize, k, y, moves[..|moves| - 1])
      && Possible(k, RunMoves(g, batchSize, y, moves[..|moves| - 1]), moves[|moves| - 1])
  }

  ghost predicate HarmlessRun(g: Guesses, batchSize: int, k: Grain, y: System, moves: seq<Move>) {
    moves != [] ==>
      && HarmlessRun(g, batchSize, k, y, moves[..|moves| - 1])
      && Harmless(k, g, RunMoves(g, batchSize, y, moves[..|moves| - 1]), moves[|moves| - 1])
  }

  /** A start of the program: nothing in memory, and a database that this program wrote. */
  ghost predicate Start(k: Grain, y: System) {
    y.plain == Plain(map[], {}) && y.inflight == [] && y.pending == [] && y.drained == []
    && forall id <- y.db.Keys :: RowOk(k, id, y.db[id])
  }

  // ---------- the invariant ----------

  /** An asset in memory. */
  ghost predicate AssetOk(k: Grain, db: Db, id: AssetId, s: Snapshot) {
    s.id == id && Sound(k, s) && MacOk(s) && (s.mac == [] ==> id in db)
  }

  /** A queued version dominates its row, and the asset dominates it if it is in memory. */
  ghost predicate QueuedOk(k: Grain, assets: map<AssetId, Snapshot>, db: Db, q: Snapshot) {
    && AssetOk(k, db, q.id, q)
    && (q.id in assets ==> Dominates(OfSnapshot(assets[q.id]), OfSnapshot(q)))
    && (q.id in db ==> Dominates(OfSnapshot(q), OfRow(db[q.id])))
  }

  ghost predicate QueueOrdered(queue: seq<Snapshot>) {
    forall i, j :: 0 <= i < j < |queue| && queue[i].id == queue[j].id ==> Dominates(OfSnapshot(queue[j]), OfSnapshot(queue[i]))
  }

  /** The newest version behind memory agrees with it. */
  ghost predicate Settled(k: Grain, queue: seq<Snapshot>, db: Db, s: Snapshot) {
    var n := Newest(queue, s.id);
    if n.Some? then Same(OfSnapshot(n.value), OfSnapshot(s))
    else s.id in db && Agrees(k, OfRow(db[s.id]), OfSnapshot(s))
  }

  ghost predicate Inv(k: Grain, p: Plain, queue: seq<Snapshot>, db: Db) {
    && (forall id <- db.Keys :: RowOk(k, id, db[id]))
    && (forall id <- p.assets.Keys :: AssetOk(k, db, id, p.assets[id]))
    && (forall q <- queue :: QueuedOk(k, p.assets, db, q))
    && QueueOrdered(queue)
    && (forall id <- p.assets.Keys :: id in db ==> Dominates(OfSnapshot(p.assets[id]), OfRow(db[id])))
    && (forall id <- p.assets.Keys :: id !in p.dirty ==> Settled(k, queue, db, p.assets[id]))
  }

  lemma {:induction false} NewestIs(queue: seq<Snapshot>, id: AssetId)
    ensures Newest(queue, id).Some? <==> Queued(queue, id)
    ensures Newest(queue, id).Some? ==> Newest(queue, id).value in queue && Newest(queue, id).value.id == id
  {
    if queue != [] {
      NewestIs(queue[..|queue| - 1], id);
      assert queue == queue[..|queue| - 1] + [queue[|queue| - 1]];
    }
  }

  // ---------- one asset is written ----------

  lemma {:induction false} NewestDominates(queue: seq<Snapshot>, q: Snapshot)
    requires QueueOrdered(queue) && q in queue
    ensures Newest(queue, q.id).Some?
    ensures Dominates(OfSnapshot(Newest(queue, q.id).value), OfSnapshot(q)) || Newest(queue, q.id).value == q
  {
    hide Dominates;
    var front, last := queue[..|queue| - 1], queue[|queue| - 1];
    var i :| 0 <= i < |queue| && queue[i] == q;
    if last.id != q.id {
      assert front[i] == q;
      NewestDominates(front, q);
    }
  }

  /** What dominates the newest queued version of its asset dominates all of them. */
  lemma DominatesQueued(queue: seq<Snapshot>, t: Snapshot, q: Snapshot)
    requires QueueOrdered(queue) && q in queue && q.id == t.id
    requires Newest(queue, t.id).Some? ==> Dominates(OfSnapshot(t), OfSnapshot(Newest(queue, t.id).value))
    ensures Dominates(OfSnapshot(t), OfSnapshot(q))
  {
    hide Dominates, QueueOrdered;
    NewestDominates(queue, q);
    if Newest(queue, q.id).value != q {
      DominatesTransitive(OfSnapshot(q), OfSnapshot(Newest(queue, q.id).value), OfSnapshot(t));
    }
  }

  ghost predicate NewestFits(queue: seq<Snapshot>, s: Snapshot) {
    Newest(queue, s.id).Some? ==> Dominates(OfSnapshot(s), OfSnapshot(Newest(queue, s.id).value))
  }

  /** Replacing one asset by a later version, or writing one that fits, keeps the invariant when
      the asset becomes dirty, or is settled. */
  lemma WriteKeeps(k: Grain, p: Plain, queue: seq<Snapshot>, db: Db, id: AssetId, s: Snapshot, dirty: set<AssetId>)
    requires Inv(k, p, queue, db) && AssetOk(k, db, id, s)
    requires id in p.assets ==> Dominates(OfSnapshot(s), OfSnapshot(p.assets[id])) || NewestFits(queue, s)
    requires id !in p.assets ==> NewestFits(queue, s)
    requires id in db ==> Dominates(OfSnapshot(s), OfRow(db[id]))
    requires dirty == p.dirty || dirty == p.dirty + {id}
    requires id !in dirty ==> Settled(k, queue, db, s)
    ensures Inv(k, Plain(p.assets[id := s], dirty), queue, db)
  {
    hide Dominates, AssetOk, RowOk, Settled, QueueOrdered, QueuedOk, NewestFits, OfSnapshot, OfRow;
    AssetOkId(k, db, id, s);
    var after := p.assets[id := s];
    forall q <- queue ensures QueuedOk(k, after, db, q) {
      QueuedAfterWrite(k, p, queue, db, s, q);
    }
    forall x <- after.Keys
      ensures AssetOk(k, db, x, after[x]) && (x in db ==> Dominates(OfSnapshot(after[x]), OfRow(db[x])))
      ensures x !in dirty ==> Settled(k, queue, db, after[x])
    {
      if x != id {
        assert after[x] == p.assets[x] && x in p.assets;
      }
    }
  }

  lemma QueuedAfterWrite(k: Grain, p: Plain, queue: seq<Snapshot>, db: Db, s: Snapshot, q: Snapshot)
    requires QueueOrdered(queue) && q in queue && QueuedOk(k, p.assets, db, q)
    requires s.id in p.assets ==> Dominates(OfSnapshot(s), OfSnapshot(p.assets[s.id])) || NewestFits(queue, s)
    requires s.id !in p.assets ==> NewestFits(queue, s)
    ensures QueuedOk(k, p.assets[s.id := s], db, q)
  {
    hide Dominates, AssetOk, QueueOrdered, Newest;
    if q.id == s.id {
      if NewestFits(queue, s) {
        DominatesQueued(queue, s, q);
      } else {
        DominatesTransitive(OfSnapshot(q), OfSnapshot(p.assets[s.id]), OfSnapshot(s));
      }
    }
  }

  lemma SameAgrees(k: Grain, a: Columns, b: Columns, c: Columns)
    ensures Agrees(k, a, b) && Same(b, c) ==> Agrees(k, a, c)
    ensures Same(a, b) && Same(b, c) ==> Same(a, c)
    ensures Same(a, a) && Agrees(k, a, a) && Dominates(a, a)
  {
  }

  lemma StaysSettled(k: Grain, queue: seq<Snapshot>, db: Db, s: Snapshot, t: Snapshot)
    requires Settled(k, queue, db, s) && s.id == t.id && Same(OfSnapshot(s), OfSnapshot(t))
    ensures Settled(k, queue, db, t)
  {
    hide Same, Agrees, Dominates;
    var n := Newest(queue, s.id);
    if n.Some? {
      SameAgrees(k, OfSnapshot(n.value), OfSnapshot(s), OfSnapshot(t));
    } else {
      SameAgrees(k, OfRow(db[s.id]), OfSnapshot(s), OfSnapshot(t));
    }
  }

  lemma RevivedOk(k: Grain, g: Guesses, db: Db, s: Snapshot, obs: Observation)
    requires obs.Valid() && HasGrain(k, obs.at) && AssetOk(k, db, s.id, s)
    ensures AssetOk(k, db, s.id, Revived(g, s, obs))
  {
    hide HasGrain, Merged, KeyMac, MacOk;
    MergedSound(k, g, s, obs);
    MergedIdentity(g, s, obs);
    assert MacOk(s) ==> MacOk(Revived(g, s, obs)) by {
      MacOkSame(s, Revived(g, s, obs));
    }
  }

  lemma MacOkSame(s: Snapshot, t: Snapshot)
    requires s.mac == t.mac && s.id == t.id
    ensures MacOk(s) <==> MacOk(t)
  {
  }

  /** Reviving an asset that memory has. */
  lemma UpdateKeeps(k: Grain, g: Guesses, p: Plain, queue: seq<Snapshot>, db: Db, obs: Observation, row: Option<Snapshot>)
    requires Inv(k, p, queue, db) && obs.Valid() && HasGrain(k, obs.at) && MacKey(obs.mac) in p.assets
    ensures Inv(k, PlainStep(g, p, ApplyOp(obs, row)), queue, db)
  {
    hide Dominates, RowOk, QueuedOk, QueueOrdered, Settled, HasGrain, MacKey, Merged, ReviveChanges, Sound, MacOk, Same;
    var id := MacKey(obs.mac);
    var s := p.assets[id];
    var t := Revived(g, s, obs);
    assert s.firstSeen != ZERO_TIME by { SoundIsSeen(k, s); }
    RevivedDominates(g, s, obs);
    RevivedOk(k, g, db, s, obs);
    if id in db {
      DominatesTransitive(OfRow(db[id]), OfSnapshot(s), OfSnapshot(t));
    }
    if id !in p.dirty && !ReviveChanges(g, s, obs) {
      StaysSettled(k, queue, db, s, t);
    }
    var dirty := if ReviveChanges(g, s, obs) then p.dirty + {id} else p.dirty;
    WriteKeeps(k, p, queue, db, id, t, dirty);
    assert PlainStep(g, p, ApplyOp(obs, row)) == Plain(p.assets[id := t], dirty);
  }

  lemma SoundIsSeen(k: Grain, s: Snapshot)
    requires Sound(k, s)
    ensures s.firstSeen != ZERO_TIME
  {
  }

  /** A row found for an address is the row of its key. */
  lemma FoundIsOwnRow(k: Grain, db: Db, mac: Mac, s: Snapshot)
    requires (forall id <- db.Keys :: RowOk(k, id, db[id])) && mac != [] && HydratorFinds(db, mac, s)
    ensures s.id == MacKey(mac) && IsLoaded(db, s)
  {
    hide TimeFmt, ParseTime, Digits;
    var id :| id in db && db[id].mac == MacString(mac) && IsLoadOf(id, db[id], s);
    var m: Mac :| Owns(m, id) && MacString(m) == db[id].mac;
    MacStringInjective(m, mac);
  }

  /** There is no row with an address iff there is none under its key. */
  lemma NoRowIff(k: Grain, db: Db, mac: Mac)
    requires (forall id <- db.Keys :: RowOk(k, id, db[id])) && mac != []
    ensures NoRowFor(db, mac) <==> MacKey(mac) !in db
  {
    hide TimeFmt, ParseTime, Digits;
    forall id <- db.Keys ensures db[id].mac == MacString(mac) <==> id == MacKey(mac) {
      var m: Mac :| Owns(m, id) && MacString(m) == db[id].mac;
      if db[id].mac == MacString(mac) {
        MacStringInjective(m, mac);
      }
      if id == MacKey(mac) {
        MacKeyInjective(m, mac);
      }
    }
  }

  /** A row read back into memory is settled where nothing is queued for it, and otherwise if
      it is the same as the newest queued version. */
  lemma LoadedOk(k: Grain, queue: seq<Snapshot>, db: Db, s: Snapshot)
    requires IsLoaded(db, s) && RowOk(k, s.id, db[s.id])
    ensures AssetOk(k, db, s.id, s) && Dominates(OfSnapshot(s), OfRow(db[s.id]))
    ensures Newest(queue, s.id).None? || Same(OfSnapshot(Newest(queue, s.id).value), OfSnapshot(s)) <==> Settled(k, queue, db, s)
  {
    hide IsLoadOf, RowOk, Sound, MacOk;
    LoadSame(k, s.id, db[s.id], s);
    SameAgrees(k, OfRow(db[s.id]), OfSnapshot(s), OfSnapshot(s));
  }

  /** Hydrating an asset and merging the observation into it, whether memory has it or not. */
  lemma HydrateKeeps(k: Grain, g: Guesses, p: Plain, queue: seq<Snapshot>, db: Db, obs: Observation, s: Snapshot)
    requires Inv(k, p, queue, db) && obs.Valid() && HasGrain(k, obs.at)
    requires s.id == MacKey(obs.mac) && IsLoaded(db, s) && EntersWell(g, p.dirty, queue, db, obs, Some(s))
    ensures Inv(k, PlainEnter(g, p, obs, Some(s)), queue, db)
  {
    LoadedOk(k, queue, db, s);
    hide Dominates, RowOk, QueuedOk, QueueOrdered, Settled, HasGrain, MacKey, Merged, ReviveChanges, Sound, MacOk,
      Same, IsLoadOf;
    var id, t := s.id, Revived(g, s, obs);
    SoundIsSeen(k, s);
    RevivedDominates(g, s, obs);
    RevivedOk(k, g, db, s, obs);
    DominatesTransitive(OfRow(db[id]), OfSnapshot(s), OfSnapshot(t));
    var dirty := if ReviveChanges(g, s, obs) then p.dirty + {id} else p.dirty;
    AssetOkId(k, db, id, t);
    if id !in dirty {
      FitsIsSettled(k, queue, db, dirty, s, t);
    }
    WriteKeeps(k, p, queue, db, id, t, dirty);
    assert PlainEnter(g, p, obs, Some(s)) == Plain(p.assets[id := t], dirty);
  }

  lemma FitsIsSettled(k: Grain, queue: seq<Snapshot>, db: Db, dirty: set<AssetId>, s: Snapshot, t: Snapshot)
    requires s.id == t.id && t.id !in dirty && Fits(queue, dirty, t) && Same(OfSnapshot(s), OfSnapshot(t))
    requires Newest(queue, s.id).None? ==> Settled(k, queue, db, s)
    ensures Settled(k, queue, db, t)
  {
    hide Same, Agrees, Dominates;
    if Newest(queue, s.id).None? {
      StaysSettled(k, queue, db, s, t);
    }
  }

  lemma NewAssetOk(k: Grain, g: Guesses, db: Db, obs: Observation)
    requires obs.Valid() && HasGrain(k, obs.at)
    ensures AssetOk(k, db, MacKey(obs.mac), NewAsset(g, obs))
  {
    var blank := Blank(MacKey(obs.mac), obs.mac);
    hide HasGrain, Merged, MacKey;
    MergedSound(k, g, blank, obs);
    MergedIdentity(g, blank, obs);
  }

  lemma CreateKeeps(k: Grain, g: Guesses, p: Plain, queue: seq<Snapshot>, db: Db, obs: Observation)
    requires Inv(k, p, queue, db) && obs.Valid() && HasGrain(k, obs.at) && EntersWell(g, p.dirty, queue, db, obs, None)
    ensures Inv(k, PlainEnter(g, p, obs, None), queue, db)
  {
    var id := MacKey(obs.mac);
    NewAssetOk(k, g, db, obs);
    AssetOkId(k, db, id, NewAsset(g, obs));
    hide Dominates, RowOk, QueuedOk, QueueOrdered, Settled, HasGrain, MacKey, NewAsset, AssetOk;
    WriteKeeps(k, p, queue, db, id, NewAsset(g, obs), p.dirty + {id});
  }

  /** What enters memory. */
  lemma EnterKeeps(k: Grain, g: Guesses, p: Plain, queue: seq<Snapshot>, db: Db, obs: Observation, row: Option<Snapshot>)
    requires Inv(k, p, queue, db) && obs.Valid() && HasGrain(k, obs.at)
    requires (row.Some? ==> HydratorFinds(db, obs.mac, row.value)) && EntersWell(g, p.dirty, queue, db, obs, row)
    ensures Inv(k, PlainEnter(g, p, obs, row), queue, db)
  {
    hide HydratorFinds, PlainEnter, HasGrain, MacKey, RowOk, IsLoaded, EntersWell, Inv;
    InvRows(k, p, queue, db);
    match row
    case Some(s) =>
      FoundIsOwnRow(k, db, obs.mac, s);
      HydrateKeeps(k, g, p, queue, db, obs, s);
    case None => CreateKeeps(k, g, p, queue, db, obs);
  }

  lemma InvRows(k: Grain, p: Plain, queue: seq<Snapshot>, db: Db)
    requires Inv(k, p, queue, db)
    ensures forall id <- db.Keys :: RowOk(k, id, db[id])
  {
    hide RowOk;
  }

  lemma ApplyKeeps(k: Grain, g: Guesses, p: Plain, queue: seq<Snapshot>, db: Db, obs: Observation, row: Option<Snapshot>)
    requires Inv(k, p, queue, db)
    requires obs.Valid() ==> HasGrain(k, obs.at)
    requires obs.Valid() && MacKey(obs.mac) !in p.assets ==>
      (row.Some? ==> HydratorFinds(db, obs.mac, row.value)) && EntersWell(g, p.dirty, queue, db, obs, row)
    ensures Inv(k, PlainStep(g, p, ApplyOp(obs, row)), queue, db)
  {
    if !obs.Valid() {
      hide Inv;
    } else if MacKey(obs.mac) in p.assets {
      hide *;
      UpdateKeeps(k, g, p, queue, db, obs, row);
    } else {
      hide *;
      EnterIsApply(g, p, obs, row);
      EnterKeeps(k, g, p, queue, db, obs, row);
    }
  }

  // ---------- sweep, evict, load ----------

  lemma SweptOk(k: Grain, db: Db, s: Snapshot, now: Time, offlineAfter: Duration)
    requires AssetOk(k, db, s.id, s)
    ensures AssetOk(k, db, s.id, Swept(s, now, offlineAfter))
  {
    hide HasGrain, MacKey;
    MacOkSame(s, Swept(s, now, offlineAfter));
  }

  /** One asset in a sweep, in its home shard or not. */
  lemma SweptKeeps(k: Grain, db: Db, s: Snapshot, now: Time, offlineAfter: Duration)
    requires AssetOk(k, db, s.id, s) && (s.id in db ==> Dominates(OfSnapshot(s), OfRow(db[s.id])))
    ensures var t := Swept(s, now, offlineAfter);
      && AssetOk(k, db, s.id, t) && Dominates(OfSnapshot(t), OfSnapshot(s))
      && (s.id in db ==> Dominates(OfSnapshot(t), OfRow(db[s.id])))
    ensures Dominates(OfSnapshot(s), OfSnapshot(s))
  {
    hide Dominates, AssetOk, Swept;
    SweptOk(k, db, s, now, offlineAfter);
    SweptDominates(s, now, offlineAfter);
    SameAgrees(k, OfSnapshot(s), OfSnapshot(s), OfSnapshot(s));
    if s.id in db {
      DominatesTransitive(OfRow(db[s.id]), OfSnapshot(s), OfSnapshot(Swept(s, now, offlineAfter)));
    }
  }

  /** Replacing every asset by a later version of itself, and marking those that changed. */
  lemma ReplaceKeeps(k: Grain, p: Plain, q: Plain, queue: seq<Snapshot>, db: Db)
    requires Inv(k, p, queue, db) && q.assets.Keys == p.assets.Keys
    requires forall id <- p.assets.Keys :: AssetOk(k, db, id, q.assets[id]) && Dominates(OfSnapshot(q.assets[id]), OfSnapshot(p.assets[id]))
    requires forall id <- p.assets.Keys :: id in db ==> Dominates(OfSnapshot(q.assets[id]), OfRow(db[id]))
    requires forall id <- p.assets.Keys :: id !in q.dirty ==> id !in p.dirty && q.assets[id] == p.assets[id]
    ensures Inv(k, q, queue, db)
  {
    hide Dominates, RowOk, QueueOrdered, Settled, AssetOk;
    forall x <- queue ensures QueuedOk(k, q.assets, db, x) {
      assert QueuedOk(k, p.assets, db, x);
      if x.id in p.assets {
        DominatesTransitive(OfSnapshot(x), OfSnapshot(p.assets[x.id]), OfSnapshot(q.assets[x.id]));
      }
    }
  }

  lemma SweepKeeps(k: Grain, g: Guesses, p: Plain, queue: seq<Snapshot>, db: Db, i: ShardId, now: Time, offlineAfter: Duration)
    requires Inv(k, p, queue, db)
    ensures Inv(k, PlainStep(g, p, SweepOp(i, now, offlineAfter)), queue, db)
  {
    hide Dominates, RowOk, QueueOrdered, Settled, Swept, AssetOk, QueuedOk, Home;
    var q := PlainStep(g, p, SweepOp(i, now, offlineAfter));
    forall id <- p.assets.Keys
      ensures AssetOk(k, db, id, q.assets[id]) && Dominates(OfSnapshot(q.assets[id]), OfSnapshot(p.assets[id]))
      ensures id in db ==> Dominates(OfSnapshot(q.assets[id]), OfRow(db[id]))
    {
      AssetOkId(k, db, id, p.assets[id]);
      SweptKeeps(k, db, p.assets[id], now, offlineAfter);
    }
    ReplaceKeeps(k, p, q, queue, db);
  }

  lemma AssetOkId(k: Grain, db: Db, id: AssetId, s: Snapshot)
    requires AssetOk(k, db, id, s)
    ensures s.id == id
  {
  }

  /** An eviction keeps the invariant, whatever is dirty or queued. */
  lemma EvictKeeps(k: Grain, g: Guesses, p: Plain, queue: seq<Snapshot>, db: Db, i: ShardId, now: Time, evictAfter: Duration)
    requires Inv(k, p, queue, db)
    ensures Inv(k, PlainStep(g, p, EvictOp(i, now, evictAfter)), queue, db)
  {
    hide Dominates, RowOk, QueueOrdered, Settled, AssetOk, Stale, Home;
    var q := PlainStep(g, p, EvictOp(i, now, evictAfter));
    forall x <- queue ensures QueuedOk(k, q.assets, db, x) {
      assert QueuedOk(k, p.assets, db, x);
    }
  }

  /** Memory is as new as the rows. */
  ghost predicate NewerThanRows(assets: map<AssetId, Snapshot>, db: Db) {
    forall id <- assets.Keys :: id in db ==> ParseTime(db[id].lastSeen) <= assets[id].lastSeen
  }

  lemma RowsAreOlder(k: Grain, p: Plain, queue: seq<Snapshot>, db: Db)
    requires Inv(k, p, queue, db)
    ensures NewerThanRows(p.assets, db)
  {
    hide RowOk, QueuedOk, QueueOrdered, Settled, AssetOk, ParseTime;
    forall id <- p.assets.Keys | id in db ensures ParseTime(db[id].lastSeen) <= p.assets[id].lastSeen {
      assert Dominates(OfSnapshot(p.assets[id]), OfRow(db[id]));
    }
  }

  lemma LoadedTime(db: Db, s: Snapshot)
    requires IsLoaded(db, s)
    ensures s.id in db && s.lastSeen == ParseTime(db[s.id].lastSeen)
  {
    hide ParseTime, LoadedIps, IsLoadOfService;
  }

  /** So a load adds what is missing only. */
  lemma {:induction false} LoadNeverReplaces(assets: map<AssetId, Snapshot>, db: Db, snaps: seq<Snapshot>)
    requires NewerThanRows(assets, db) && forall s <- snaps :: IsLoaded(db, s)
    ensures var after := PlainLoad(assets, snaps);
      && NewerThanRows(after, db)
      && (snaps != [] ==>
            var front, s := PlainLoad(assets, snaps[..|snaps| - 1]), snaps[|snaps| - 1];
            after == if Loadable(s) && s.id !in front then front[s.id := s] else front)
  {
    hide ParseTime, Loadable, IsLoaded;
    if snaps != [] {
      var front, s := snaps[..|snaps| - 1], snaps[|snaps| - 1];
      assert s in snaps && forall x <- front :: x in snaps;
      LoadNeverReplaces(assets, db, front);
      LoadedTime(db, s);
    }
  }

  lemma {:induction false} LoadedKeys(assets: map<AssetId, Snapshot>, snaps: seq<Snapshot>, id: AssetId)
    ensures id in PlainLoad(assets, snaps) <==> id in assets || exists s <- snaps :: Loadable(s) && s.id == id
  {
    hide Loadable;
    if snaps != [] {
      var front, s := snaps[..|snaps| - 1], snaps[|snaps| - 1];
      assert snaps == front + [s];
      LoadedKeys(assets, front, id);
    }
  }

  /** Which snapshot is the one that a load brings. */
  lemma LastBrings(assets: map<AssetId, Snapshot>, snaps: seq<Snapshot>)
    requires snaps != []
    ensures var front, s := snaps[..|snaps| - 1], snaps[|snaps| - 1];
      && (Brings(assets, snaps, |snaps| - 1) <==> Loadable(s) && s.id !in PlainLoad(assets, front))
      && forall j | 0 <= j < |front| :: Brings(assets, snaps, j) <==> Brings(assets, front, j)
  {
    hide Loadable, PlainLoad;
    LoadedKeys(assets, snaps[..|snaps| - 1], snaps[|snaps| - 1].id);
  }

  lemma {:induction false} LoadKeeps(k: Grain, p: Plain, queue: seq<Snapshot>, db: Db, snaps: seq<Snapshot>)
    requires Inv(k, p, queue, db) && LoadsWell(p.assets, p.dirty, queue, snaps) && forall s <- snaps :: IsLoaded(db, s)
    ensures Inv(k, p.(assets := PlainLoad(p.assets, snaps)), queue, db)
  {
    hide IsLoaded, Inv, Fits, Brings, Loadable, NewerThanRows;
    if snaps != [] {
      var front, s := snaps[..|snaps| - 1], snaps[|snaps| - 1];
      assert forall x <- front :: x in snaps;
      LastBrings(p.assets, snaps);
      LoadKeeps(k, p, queue, db, front);
      RowsAreOlder(k, p, queue, db);
      LoadNeverReplaces(p.assets, db, snaps);
      if Loadable(s) && s.id !in PlainLoad(p.assets, front) {
        LoadOneKeeps(k, p.(assets := PlainLoad(p.assets, front)), queue, db, s);
      }
    }
  }

  lemma LoadOneKeeps(k: Grain, p: Plain, queue: seq<Snapshot>, db: Db, s: Snapshot)
    requires Inv(k, p, queue, db) && IsLoaded(db, s) && s.id !in p.assets && Fits(queue, p.dirty, s)
    ensures Inv(k, Plain(p.assets[s.id := s], p.dirty), queue, db)
  {
    hide IsLoadOf, QueueOrdered, Settled, AssetOk, RowOk, Dominates, Same;
    LoadedOk(k, queue, db, s);
    WriteKeeps(k, p, queue, db, s.id, s, p.dirty);
  }

  // ---------- collect and save ----------

  lemma {:induction false} NewestOfDrained(queue: seq<Snapshot>, drained: seq<Snapshot>, id: AssetId)
    requires forall i, j :: 0 <= i < j < |drained| ==> drained[i].id != drained[j].id
    ensures forall d <- drained :: d.id == id ==> Newest(queue + drained, id) == Some(d)
    ensures (forall d <- drained :: d.id != id) ==> Newest(queue + drained, id) == Newest(queue, id)
  {
    if drained == [] {
      assert queue + drained == queue;
    } else {
      var front, d := drained[..|drained| - 1], drained[|drained| - 1];
      NewestOfDrained(queue, front, id);
      assert (queue + drained)[..|queue + drained| - 1] == queue + front;
      assert drained == front + [d];
    }
  }

  /** Draining the dirty assets of a shard to the end of the queue settles them. */
  lemma DrainKeeps(k: Grain, g: Guesses, p: Plain, queue: seq<Snapshot>, db: Db, n: ShardId, drained: seq<Snapshot>)
    requires Inv(k, p, queue, db) && PlainDrain(p, n, drained)
    ensures Inv(k, PlainStep(g, p, DrainOp(n)), queue + drained, db)
  {
    hide Dominates, RowOk, AssetOk, Same, Agrees, Sound, Home;
    var longer := queue + drained;
    assert forall x :: x in longer <==> x in queue || x in drained;
    forall x <- longer ensures QueuedOk(k, p.assets, db, x) {
      SameAgrees(k, OfSnapshot(x), OfSnapshot(x), OfSnapshot(x));
    }
    DrainOrdered(k, p, queue, db, n, drained);
    forall id <- p.assets.Keys | id !in p.dirty || Home(id) == n ensures Settled(k, longer, db, p.assets[id]) {
      DrainSettles(k, p, queue, db, n, drained, id);
    }
  }

  lemma DrainOrdered(k: Grain, p: Plain, queue: seq<Snapshot>, db: Db, n: ShardId, drained: seq<Snapshot>)
    requires Inv(k, p, queue, db) && PlainDrain(p, n, drained)
    ensures QueueOrdered(queue + drained)
  {
    hide Dominates, RowOk, AssetOk, Settled, Home;
    var longer := queue + drained;
    forall i, j | 0 <= i < j < |longer| && longer[i].id == longer[j].id
      ensures Dominates(OfSnapshot(longer[j]), OfSnapshot(longer[i]))
    {
      if j >= |queue| {
        assert longer[j] in drained;
        if i < |queue| {
          assert QueuedOk(k, p.assets, db, queue[i]);
        }
      }
    }
  }

  lemma DrainSettles(k: Grain, p: Plain, queue: seq<Snapshot>, db: Db, n: ShardId, drained: seq<Snapshot>, id: AssetId)
    requires Inv(k, p, queue, db) && PlainDrain(p, n, drained) && id in p.assets && (id !in p.dirty || Home(id) == n)
    ensures Settled(k, queue + drained, db, p.assets[id])
  {
    hide Dominates, RowOk, Same, Agrees, Sound, QueueOrdered, QueuedOk, Home;
    var s := p.assets[id];
    assert s.id == id;
    NewestOfDrained(queue, drained, id);
    SameAgrees(k, OfSnapshot(s), OfSnapshot(s), OfSnapshot(s));
    if id !in p.dirty {
      assert forall d <- drained :: d.id != id;
    }
  }

  lemma {:induction false} NewestOfRest(queue: seq<Snapshot>, id: AssetId)
    requires queue != []
    ensures Newest(queue, id) ==
      if Newest(queue[1..], id).Some? then Newest(queue[1..], id)
      else if queue[0].id == id then Some(queue[0]) else None
  {
    if |queue| > 1 {
      NewestOfRest(queue[..|queue| - 1], id);
      assert queue[1..][..|queue| - 2] == queue[..|queue| - 1][1..];
    } else {
      assert queue[..0] == [];
    }
  }

  /** What saving the oldest queued version does to its row. */
  lemma SaveOldest(k: Grain, p: Plain, queue: seq<Snapshot>, db: Db)
    requires Inv(k, p, queue, db) && queue != []
    ensures var x, r := queue[0], SavedRow(StoredRow(db, queue[0].id), queue[0]);
      && SaveOne(db, x) == db[x.id := r] && RowOk(k, x.id, r) && Agrees(k, OfRow(r), OfSnapshot(x))
      && (x.id in p.assets ==> Dominates(OfSnapshot(p.assets[x.id]), OfRow(r)))
      && (forall q <- queue[1..] :: q.id == x.id ==> Dominates(OfSnapshot(q), OfRow(r)))
  {
    hide Dominates, RowOk, Same, Agrees, Sound, SavedRow, MacOk, Settled;
    var x := queue[0];
    assert QueuedOk(k, p.assets, db, x);
    SaveAgrees(k, StoredRow(db, x.id), x);
    SavedRowIs(db, x);
    forall q <- queue[1..] | q.id == x.id
      ensures Dominates(OfSnapshot(q), OfSnapshot(x)) && (x.id in db ==> Dominates(OfSnapshot(q), OfRow(db[x.id])))
    {
      var j :| 1 <= j < |queue| && queue[j] == q;
      assert QueuedOk(k, p.assets, db, queue[j]);
      assert Dominates(OfSnapshot(queue[j]), OfSnapshot(queue[0]));
    }
  }

  /** Contents that are settled stay so, whether memory still has them or not. */
  lemma SaveOneSettles(k: Grain, p: Plain, queue: seq<Snapshot>, db: Db, s: Snapshot)
    requires Inv(k, p, queue, db) && queue != [] && Settled(k, queue, db, s)
    ensures Settled(k, queue[1..], SaveOne(db, queue[0]), s)
  {
    hide Dominates, RowOk, Same, Agrees, Sound, SavedRow, MacOk, QueuedOk, QueueOrdered, SaveOne;
    var x := queue[0];
    NewestOfRest(queue, s.id);
    SaveOldest(k, p, queue, db);
    SameAgrees(k, OfRow(SavedRow(StoredRow(db, x.id), x)), OfSnapshot(x), OfSnapshot(s));
  }

  /** Saving the oldest queued version and taking it off the queue. */
  lemma SaveOneKeeps(k: Grain, p: Plain, queue: seq<Snapshot>, db: Db)
    requires Inv(k, p, queue, db) && queue != []
    ensures Inv(k, p, queue[1..], SaveOne(db, queue[0]))
  {
    hide Dominates, RowOk, Same, Agrees, Sound, SavedRow, MacOk, SaveOne, Settled, QueuedOk;
    SaveOldest(k, p, queue, db);
    var x, after := queue[0], SaveOne(db, queue[0]);
    assert forall q <- queue[1..] :: q in queue;
    forall q <- queue[1..] ensures QueuedOk(k, p.assets, after, q) {
      QueuedAfterSave(k, p, queue, db, q);
    }
    forall id <- p.assets.Keys ensures id !in p.dirty ==> Settled(k, queue[1..], after, p.assets[id]) {
      if id !in p.dirty {
        SaveOneSettles(k, p, queue, db, p.assets[id]);
      }
    }
  }

  lemma QueuedAfterSave(k: Grain, p: Plain, queue: seq<Snapshot>, db: Db, q: Snapshot)
    requires Inv(k, p, queue, db) && queue != [] && q in queue[1..]
    ensures QueuedOk(k, p.assets, SaveOne(db, queue[0]), q)
  {
    hide Dominates, RowOk, Same, Agrees, Sound, SavedRow, MacOk, SaveOne, Settled, QueueOrdered;
    SaveOldest(k, p, queue, db);
    assert q in queue && QueuedOk(k, p.assets, db, q);
  }

  lemma SavedRowIs(db: Db, s: Snapshot)
    ensures SaveOne(db, s) == db[s.id := SavedRow(StoredRow(db, s.id), s)]
  {
    hide WithChildren, MergedRow;
  }

  lemma {:induction false} SaveKeeps(k: Grain, p: Plain, batch: seq<Snapshot>, rest: seq<Snapshot>, db: Db)
    requires Inv(k, p, batch + rest, db)
    ensures Inv(k, p, rest, SaveAll(db, batch))
  {
    hide Inv, SaveOne;
    if batch == [] {
      assert batch + rest == rest;
    } else {
      SaveFirst(batch, rest, db);
      SaveOneKeeps(k, p, batch + rest, db);
      SaveKeeps(k, p, batch[1..], rest, SaveOne(db, batch[0]));
    }
  }

  lemma SaveFirst(batch: seq<Snapshot>, rest: seq<Snapshot>, db: Db)
    requires batch != []
    ensures (batch + rest)[1..] == batch[1..] + rest && (batch + rest)[0] == batch[0]
    ensures SaveAll(db, batch) == SaveAll(SaveOne(db, batch[0]), batch[1..])
  {
    hide SaveOne, SaveAll;
    HeadAndTail(batch, rest);
    SaveInChunks(db, [batch[0]], batch[1..]);
    SaveSingle(db, batch[0]);
  }

  lemma HeadAndTail<T>(batch: seq<T>, rest: seq<T>)
    requires batch != []
    ensures batch == [batch[0]] + batch[1..] && (batch + rest)[1..] == batch[1..] + rest && (batch + rest)[0] == batch[0]
  {
  }

  lemma SaveSingle(db: Db, s: Snapshot)
    ensures SaveAll(db, [s]) == SaveOne(db, s)
  {
    hide SaveOne;
    assert [s][..0] == [];
  }

  lemma {:induction false} SaveSettles(k: Grain, p: Plain, batch: seq<Snapshot>, rest: seq<Snapshot>, db: Db, s: Snapshot)
    requires Inv(k, p, batch + rest, db) && Settled(k, batch + rest, db, s)
    ensures Settled(k, rest, SaveAll(db, batch), s)
  {
    hide Inv, Settled, SaveOne;
    if batch == [] {
      assert batch + rest == rest;
    } else {
      SaveFirst(batch, rest, db);
      SaveOneKeeps(k, p, batch + rest, db);
      SaveOneSettles(k, p, batch + rest, db, s);
      SaveSettles(k, p, batch[1..], rest, SaveOne(db, batch[0]), s);
    }
  }

  /** The agreement, said without the invariant's bookkeeping. */
  ghost predicate Agreement(k: Grain, assets: map<AssetId, Snapshot>, dirty: set<AssetId>, queue: seq<Snapshot>, db: Db) {
    forall id <- assets.Keys ::
      && (forall q <- queue :: q.id == id ==> Dominates(OfSnapshot(assets[id]), OfSnapshot(q)))
      && (id in db ==> Dominates(OfSnapshot(assets[id]), OfRow(db[id])))
      && (id !in dirty && Newest(queue, id).Some? ==> Same(OfSnapshot(Newest(queue, id).value), OfSnapshot(assets[id])))
      && (id !in dirty && Newest(queue, id).None? ==> id in db && Agrees(k, OfRow(db[id]), OfSnapshot(assets[id])))
  }

  lemma InvGivesAgreement(k: Grain, p: Plain, queue: seq<Snapshot>, db: Db)
    requires Inv(k, p, queue, db)
    ensures Agreement(k, p.assets, p.dirty, queue, db)
  {
    hide Dominates, RowOk, Same, Agrees, Sound, QueueOrdered, MacOk;
  }

  // ---------- a batch that is given up ----------

  lemma {:induction false} NewestOfBoth(older: seq<Snapshot>, newer: seq<Snapshot>, id: AssetId)
    ensures Newest(older + newer, id) == if Newest(newer, id).Some? then Newest(newer, id) else Newest(older, id)
  {
    if newer == [] {
      assert older + newer == older;
    } else {
      NewestOfBoth(older, newer[..|newer| - 1], id);
      assert (older + newer)[..|older + newer| - 1] == older + newer[..|newer| - 1];
    }
  }

  lemma OrderedRest(lost: seq<Snapshot>, rest: seq<Snapshot>)
    requires QueueOrdered(lost + rest)
    ensures QueueOrdered(rest)
  {
    hide Dominates;
    var all := lost + rest;
    forall i, j | 0 <= i < j < |rest| && rest[i].id == rest[j].id ensures Dominates(OfSnapshot(rest[j]), OfSnapshot(rest[i])) {
      assert all[|lost| + i] == rest[i] && all[|lost| + j] == rest[j];
    }
  }

  /** What is behind an asset that is not dirty, with the batch and without it. */
  lemma WithoutBatch(k: Grain, p: Plain, lost: seq<Snapshot>, rest: seq<Snapshot>, db: Db, id: AssetId)
    requires Inv(k, p, lost + rest, db) && id in p.assets && id !in p.dirty
    ensures Queued(rest, id) || !Queued(lost, id) ==> Settled(k, rest, db, p.assets[id])
    ensures !Queued(rest, id) && Queued(lost, id) ==>
      && Newest(lost, id).Some?
      && (Settled(k, rest, db, p.assets[id]) <==> id in db && Agrees(k, OfRow(db[id]), OfSnapshot(Newest(lost, id).value)))
  {
    hide Dominates, Same, Agrees, RowOk, Sound, MacOk, QueueOrdered, QueuedOk, Queued;
    var s := p.assets[id];
    assert s.id == id && Settled(k, lost + rest, db, s);
    NewestOfBoth(lost, rest, id);
    NewestIs(rest, id);
    NewestIs(lost, id);
    if Newest(rest, id).None? && Newest(lost, id).Some? {
      var q := OfSnapshot(Newest(lost, id).value);
      if id in db {
        SameAgrees(k, OfRow(db[id]), q, OfSnapshot(s));
        AgreesBack(k, OfRow(db[id]), q, OfSnapshot(s));
      }
    }
  }

  lemma AgreesBack(k: Grain, a: Columns, b: Columns, c: Columns)
    ensures Agrees(k, a, c) && Same(b, c) ==> Agrees(k, a, b)
  {
  }

  /** Giving up a batch keeps the invariant exactly if the loss is harmless. */
  lemma LoseKeepsIff(k: Grain, p: Plain, lost: seq<Snapshot>, rest: seq<Snapshot>, db: Db)
    requires Inv(k, p, lost + rest, db)
    ensures Inv(k, p, rest, db) <==> LossIsHarmless(k, p, lost, rest, db)
  {
    hide Dominates, Same, Agrees, RowOk, Sound, MacOk, QueueOrdered, Settled, Queued, AssetOk, QueuedOk;
    OrderedRest(lost, rest);
    assert forall q <- rest :: q in lost + rest;
    forall id <- p.assets.Keys | id !in p.dirty
      ensures Queued(rest, id) || !Queued(lost, id) ==> Settled(k, rest, db, p.assets[id])
      ensures !Queued(rest, id) && Queued(lost, id) ==>
        && Newest(lost, id).Some? && Newest(lost, id).value in lost && Newest(lost, id).value.id == id
        && (Settled(k, rest, db, p.assets[id]) <==> id in db && Agrees(k, OfRow(db[id]), OfSnapshot(Newest(lost, id).value)))
    {
      WithoutBatch(k, p, lost, rest, db, id);
      NewestIs(lost, id);
    }
    forall q <- lost ensures Queued(lost, q.id) {
      QueuedItself(lost, q);
    }
  }

  /** The same of the agreement itself: a batch that is given up breaks it exactly when it was
      the last trace of a change. */
  lemma FailedSave(k: Grain, p: Plain, lost: seq<Snapshot>, rest: seq<Snapshot>, db: Db)
    requires Inv(k, p, lost + rest, db)
    ensures Agreement(k, p.assets, p.dirty, rest, db) <==> LossIsHarmless(k, p, lost, rest, db)
  {
    hide Inv, LossIsHarmless, Agreement;
    LoseKeepsIff(k, p, lost, rest, db);
    if Inv(k, p, rest, db) {
      InvGivesAgreement(k, p, rest, db);
    }
    if Agreement(k, p.assets, p.dirty, rest, db) {
      AgreedIsHarmless(k, p, lost, rest, db);
    }
  }

  lemma AgreedIsHarmless(k: Grain, p: Plain, lost: seq<Snapshot>, rest: seq<Snapshot>, db: Db)
    requires Inv(k, p, lost + rest, db) && Agreement(k, p.assets, p.dirty, rest, db)
    ensures LossIsHarmless(k, p, lost, rest, db)
  {
    hide Dominates, Same, Agrees, RowOk, Sound, MacOk, QueueOrdered, Queued, QueuedOk;
    forall q <- lost | q.id in p.assets && q.id !in p.dirty && !Queued(rest, q.id) && Newest(lost, q.id) == Some(q)
      ensures q.id in db && Agrees(k, OfRow(db[q.id]), OfSnapshot(q))
    {
      QueuedItself(lost, q);
      NewestIs(rest, q.id);
      assert p.assets[q.id].id == q.id;
      assert Settled(k, rest, db, p.assets[q.id]);
      WithoutBatch(k, p, lost, rest, db, q.id);
    }
  }

  lemma QueuedItself(queue: seq<Snapshot>, q: Snapshot)
    requires q in queue
    ensures Queued(queue, q.id)
  {
  }

  // ---------- the agreement and what is harmless ----------

  /** What the agreement says of one asset. */
  ghost predicate AgreesOn(k: Grain, s: Snapshot, dirty: bool, queue: seq<Snapshot>, db: Db) {
    && (forall q <- queue :: q.id == s.id ==> Dominates(OfSnapshot(s), OfSnapshot(q)))
    && (s.id in db ==> Dominates(OfSnapshot(s), OfRow(db[s.id])))
    && (!dirty ==> Settled(k, queue, db, s))
  }

  /** Contents that dominate the row agree exactly if they fit what is queued. */
  lemma FitsIff(k: Grain, queue: seq<Snapshot>, db: Db, s: Snapshot, dirty: set<AssetId>)
    requires QueueOrdered(queue) && (s.id in db ==> Dominates(OfSnapshot(s), OfRow(db[s.id])))
    requires Newest(queue, s.id).None? && s.id !in dirty ==> Settled(k, queue, db, s)
    ensures AgreesOn(k, s, s.id in dirty, queue, db) <==> Fits(queue, dirty, s)
  {
    hide Dominates, Same, Agrees, QueueOrdered;
    NewestIs(queue, s.id);
    if Fits(queue, dirty, s) {
      forall q <- queue | q.id == s.id ensures Dominates(OfSnapshot(s), OfSnapshot(q)) {
        DominatesQueued(queue, s, q);
      }
    }
  }

  lemma AgreementIs(k: Grain, assets: map<AssetId, Snapshot>, dirty: set<AssetId>, queue: seq<Snapshot>, db: Db)
    requires forall id <- assets.Keys :: assets[id].id == id
    ensures Agreement(k, assets, dirty, queue, db) <==> forall id <- assets.Keys :: AgreesOn(k, assets[id], id in dirty, queue, db)
  {
    hide Dominates, Same, Agrees;
  }

  /** An asset that enters memory, or overwrites what is there, keeps the agreement exactly if it
      fits what is queued. */
  lemma EntryIff(k: Grain, p: Plain, queue: seq<Snapshot>, db: Db, s: Snapshot, dirty: set<AssetId>)
    requires Inv(k, p, queue, db) && (dirty == p.dirty || dirty == p.dirty + {s.id})
    requires s.id in db ==> Dominates(OfSnapshot(s), OfRow(db[s.id]))
    requires Newest(queue, s.id).None? && s.id !in dirty ==> Settled(k, queue, db, s)
    ensures Agreement(k, p.assets[s.id := s], dirty, queue, db) <==> Fits(queue, dirty, s)
  {
    hide Inv, AgreesOn, Fits, Dominates, Settled, Agreement;
    InvGivesAgreement(k, p, queue, db);
    InvIds(k, p, queue, db);
    AgreementIs(k, p.assets, p.dirty, queue, db);
    AgreementIs(k, p.assets[s.id := s], dirty, queue, db);
    FitsIff(k, queue, db, s, dirty);
  }

  lemma InvIds(k: Grain, p: Plain, queue: seq<Snapshot>, db: Db)
    requires Inv(k, p, queue, db)
    ensures QueueOrdered(queue) && forall id <- p.assets.Keys :: p.assets[id].id == id
  {
    hide RowOk, QueuedOk, QueueOrdered, Settled, Sound, MacOk, Dominates;
  }

  /** An eviction never breaks the agreement. */
  lemma EvictAgrees(k: Grain, g: Guesses, p: Plain, queue: seq<Snapshot>, db: Db, i: ShardId, now: Time, evictAfter: Duration)
    requires Agreement(k, p.assets, p.dirty, queue, db)
    ensures var q := PlainStep(g, p, EvictOp(i, now, evictAfter)); Agreement(k, q.assets, q.dirty, queue, db)
  {
    hide Dominates, Same, Agrees, Stale, Home;
  }

  lemma AgreedEnters(k: Grain, g: Guesses, p: Plain, queue: seq<Snapshot>, db: Db, obs: Observation, row: Option<Snapshot>)
    requires obs.Valid() && HasGrain(k, obs.at) && (row.Some? ==> row.value.id == MacKey(obs.mac))
    requires var z := PlainEnter(g, p, obs, row); Agreement(k, z.assets, z.dirty, queue, db)
    ensures EntersWell(g, p.dirty, queue, db, obs, row)
  {
    NewAssetOk(k, g, db, obs);
    AssetOkId(k, db, MacKey(obs.mac), NewAsset(g, obs));
    if row.Some? {
      MergedIdentity(g, row.value, obs);
    }
    hide Dominates, Same, Agrees, HasGrain, MacKey, Merged, NewAsset, ReviveChanges;
    NewestIs(queue, MacKey(obs.mac));
  }

  lemma AgreedFound(k: Grain, g: Guesses, p: Plain, queue: seq<Snapshot>, db: Db, obs: Observation, row: Option<Snapshot>)
    requires Inv(k, p, queue, db) && obs.Valid() && HasGrain(k, obs.at) && (row.Some? ==> HydratorFinds(db, obs.mac, row.value))
    requires var z := PlainEnter(g, p, obs, row); Agreement(k, z.assets, z.dirty, queue, db)
    ensures EntersWell(g, p.dirty, queue, db, obs, row)
  {
    hide Inv, HasGrain, HydratorFinds, PlainEnter, Agreement, EntersWell, MacKey, RowOk, IsLoaded;
    if row.Some? {
      InvRows(k, p, queue, db);
      FoundIsOwnRow(k, db, obs.mac, row.value);
    }
    AgreedEnters(k, g, p, queue, db, obs, row);
  }

  /** What a load brings is what memory has after it. */
  lemma {:induction false} BroughtIs(assets: map<AssetId, Snapshot>, db: Db, snaps: seq<Snapshot>, j: nat)
    requires NewerThanRows(assets, db) && j < |snaps| && Brings(assets, snaps, j) && forall s <- snaps :: IsLoaded(db, s)
    ensures var after := PlainLoad(assets, snaps); snaps[j].id in after && after[snaps[j].id] == snaps[j]
  {
    hide NewerThanRows, Loadable, PlainLoad, IsLoaded;
    var front := snaps[..|snaps| - 1];
    assert forall x <- front :: x in snaps;
    LoadNeverReplaces(assets, db, snaps);
    LastBrings(assets, snaps);
    if j < |front| {
      BroughtIs(assets, db, front, j);
    }
  }

  lemma AgreedLoads(k: Grain, p: Plain, queue: seq<Snapshot>, db: Db, snaps: seq<Snapshot>)
    requires Inv(k, p, queue, db) && forall s <- snaps :: IsLoaded(db, s)
    requires Agreement(k, PlainLoad(p.assets, snaps), p.dirty, queue, db)
    ensures LoadsWell(p.assets, p.dirty, queue, snaps)
  {
    RowsAreOlder(k, p, queue, db);
    hide Dominates, Same, Agrees, Inv, PlainLoad, IsLoaded, Brings, NewerThanRows;
    forall j | 0 <= j < |snaps| && Brings(p.assets, snaps, j) ensures Fits(queue, p.dirty, snaps[j]) {
      BroughtIs(p.assets, db, snaps, j);
      NewestIs(queue, snaps[j].id);
    }
  }

  // ---------- runs ----------

  /** Every move that is possible and harmless keeps the invariant. */
  lemma MoveKeeps(k: Grain, g: Guesses, batchSize: int, y: System, v: Move)
    requires Inv(k, y.plain, Queue(y), y.db) && Possible(k, y, v) && Harmless(k, g, y, v)
    ensures var z := Next(g, batchSize, y, v); Inv(k, z.plain, Queue(z), z.db)
  {
    hide Inv, PlainDrain, HydratorFinds, IsLoaded, PlainLoad, PlainStep, PlainEnter, EntersWell, LoadsWell,
      LossIsHarmless, Taken, Left, SaveAll,
      HasGrain, MacKey;
    match v
    case StoreMove(op) =>
      match op {
        case ApplyOp(obs, row) => ApplyKeeps(k, g, y.plain, Queue(y), y.db, obs, row);
        case SweepOp(i, now, offlineAfter) => SweepKeeps(k, g, y.plain, Queue(y), y.db, i, now, offlineAfter);
        case EvictOp(i, now, evictAfter) => EvictKeeps(k, g, y.plain, Queue(y), y.db, i, now, evictAfter);
        case LoadOp(i, snaps) =>
          LoadKeeps(k, y.plain, Queue(y), y.db, snaps);
          LoadIs(g, y.plain, i, snaps);
        case DrainOp(_) =>
      }
    case Enters(obs, row) => EnterKeeps(k, g, y.plain, Queue(y), y.db, obs, row);
    case DrainMove(i, out) =>
      DrainKeeps(k, g, y.plain, Queue(y), y.db, i, out);
      QueueParts(y.inflight, y.pending, y.drained, out);
    case Collect =>
      TakenAndLeft(y.pending, y.drained, batchSize);
      QueueParts(Taken(y.pending, y.drained, batchSize), Left(y.pending, y.drained, batchSize), [], []);
      QueueParts([], y.pending, y.drained, []);
    case Save =>
      QueueParts(y.inflight, y.pending, y.drained, []);
      QueueParts([], y.pending, y.drained, []);
      SaveKeeps(k, y.plain, y.inflight, y.pending + y.drained, y.db);
    case Lose =>
      QueueParts(y.inflight, y.pending, y.drained, []);
      QueueParts([], y.pending, y.drained, []);
      LoseKeepsIff(k, y.plain, y.inflight, y.pending + y.drained, y.db);
  }

  ghost predicate Agreed(k: Grain, y: System) { Agreement(k, y.plain.assets, y.plain.dirty, Queue(y), y.db) }

  /** A possible move keeps the agreement exactly if it is harmless. */
  lemma MoveAgreesIff(k: Grain, g: Guesses, batchSize: int, y: System, v: Move)
    requires Inv(k, y.plain, Queue(y), y.db) && Possible(k, y, v)
    ensures Agreed(k, Next(g, batchSize, y, v)) <==> Harmless(k, g, y, v)
  {
    var z := Next(g, batchSize, y, v);
    hide Inv, Agreement, HydratorFinds, IsLoaded, PlainLoad, PlainStep, PlainEnter, PlainDrain, EntersWell, LoadsWell,
      LossIsHarmless, Taken, Left,
      SaveAll, HasGrain, MacKey, RowOk;
    if Harmless(k, g, y, v) {
      MoveKeeps(k, g, batchSize, y, v);
      InvGivesAgreement(k, z.plain, Queue(z), z.db);
    }
    if Agreed(k, z) {
      match v
      case StoreMove(ApplyOp(obs, row)) =>
        if obs.Valid() && MacKey(obs.mac) !in y.plain.assets {
          EnterIsApply(g, y.plain, obs, row);
          AgreedFound(k, g, y.plain, Queue(y), y.db, obs, row);
        }
      case Enters(obs, row) => AgreedFound(k, g, y.plain, Queue(y), y.db, obs, row);
      case StoreMove(LoadOp(i, snaps)) =>
        LoadIs(g, y.plain, i, snaps);
        AgreedLoads(k, y.plain, Queue(y), y.db, snaps);
      case Lose =>
        QueueParts(y.inflight, y.pending, y.drained, []);
        QueueParts([], y.pending, y.drained, []);
        AgreedIsHarmless(k, y.plain, y.inflight, y.pending + y.drained, y.db);
      case _ =>
    }
  }

  lemma QueueParts<T>(a: seq<T>, b: seq<T>, c: seq<T>, d: seq<T>)
    ensures a + b + c == a + (b + c) && a + b + c + d == a + b + (c + d)
    ensures a + b + [] == a + b && [] + b + c == b + c
  {
    assert [] + b == b;
  }

  lemma LoadIs(g: Guesses, p: Plain, i: ShardId, snaps: seq<Snapshot>)
    ensures PlainStep(g, p, LoadOp(i, snaps)) == p.(assets := PlainLoad(p.assets, snaps))
  {
  }

  lemma StartInv(k: Grain, y: System)
    requires Start(k, y)
    ensures Inv(k, y.plain, Queue(y), y.db)
  {
    hide RowOk;
    assert Queue(y) == [];
  }

  lemma {:induction false} RunKeepsInv(k: Grain, g: Guesses, batchSize: int, y: System, moves: seq<Move>)
    requires Inv(k, y.plain, Queue(y), y.db) && PossibleRun(g, batchSize, k, y, moves) && HarmlessRun(g, batchSize, k, y, moves)
    ensures var z := RunMoves(g, batchSize, y, moves); Inv(k, z.plain, Queue(z), z.db)
  {
    hide Inv, Next, Possible, Harmless, Queue;
    if moves != [] {
      RunKeepsInv(k, g, batchSize, y, moves[..|moves| - 1]);
      MoveKeeps(k, g, batchSize, RunMoves(g, batchSize, y, moves[..|moves| - 1]), moves[|moves| - 1]);
    }
  }

  /** Write-behind agreement, over every run of harmless moves. With a fixed number of fraction
      digits the stored times are exact; in any case they are less than a second off. */
  lemma WriteBehindAgreement(k: Grain, g: Guesses, batchSize: int, y: System, moves: seq<Move>)
    requires Start(k, y) && PossibleRun(g, batchSize, k, y, moves) && HarmlessRun(g, batchSize, k, y, moves)
    ensures Agreed(k, RunMoves(g, batchSize, y, moves))
  {
    StartInv(k, y);
    RunKeepsInv(k, g, batchSize, y, moves);
    var z := RunMoves(g, batchSize, y, moves);
    hide Inv, Agreement, Start, PossibleRun, HarmlessRun, RunMoves;
    InvGivesAgreement(k, z.plain, Queue(z), z.db);
  }

  /** And exactly then: a run has the agreement all the way iff all its moves are harmless. */
  lemma {:induction false} RunAgreesIff(k: Grain, g: Guesses, batchSize: int, y: System, moves: seq<Move>)
    requires Start(k, y) && PossibleRun(g, batchSize, k, y, moves)
    ensures HarmlessRun(g, batchSize, k, y, moves) <==>
      forall n | 0 <= n <= |moves| :: Agreed(k, RunMoves(g, batchSize, y, moves[..n]))
  {
    hide Inv, Next, Possible, Harmless, Start, Agreed, Queue;
    assert moves[..|moves|] == moves;
    if moves == [] {
      WriteBehindAgreement(k, g, batchSize, y, []);
    } else {
      var front, v := moves[..|moves| - 1], moves[|moves| - 1];
      assert forall n | 0 <= n <= |front| :: front[..n] == moves[..n];
      RunAgreesIff(k, g, batchSize, y, front);
      if HarmlessRun(g, batchSize, k, y, front) {
        StartInv(k, y);
        RunKeepsInv(k, g, batchSize, y, front);
        MoveAgreesIff(k, g, batchSize, RunMoves(g, batchSize, y, front), v);
      }
    }
  }

  lemma SettledRow(k: Grain, p: Plain, queue: seq<Snapshot>, db: Db, id: AssetId, t: Snapshot)
    requires Inv(k, p, queue, db) && id in p.assets && id !in p.dirty && !Queued(queue, id)
    requires id in db ==> IsLoadOf(id, db[id], t)
    ensures id in db && Agrees(k, OfSnapshot(t), OfSnapshot(p.assets[id]))
    ensures Dominates(OfSnapshot(p.assets[id]), OfSnapshot(t))
  {
    hide Dominates, Same, Agrees, RowOk, Sound, MacOk, QueueOrdered, QueuedOk, Queued, IsLoadOf;
    assert p.assets[id].id == id && Settled(k, queue, db, p.assets[id]);
    NewestIs(queue, id);
    LoadSame(k, id, db[id], t);
  }

  /** Eviction loses nothing that is tracked: in every reachable state, whatever is loaded for
      an asset that may be evicted, because it is neither dirty nor queued, agrees with it in
      the tracked columns and is dominated by it in the others. */
  lemma EvictedComesBack(k: Grain, g: Guesses, batchSize: int, y: System, moves: seq<Move>, id: AssetId, t: Snapshot)
    requires Start(k, y) && PossibleRun(g, batchSize, k, y, moves) && HarmlessRun(g, batchSize, k, y, moves)
    requires var z := RunMoves(g, batchSize, y, moves);
      && id in z.plain.assets && id !in z.plain.dirty && !Queued(Queue(z), id)
      && (id in z.db ==> IsLoadOf(id, z.db[id], t))
    ensures var z := RunMoves(g, batchSize, y, moves);
      && id in z.db && Agrees(k, OfSnapshot(t), OfSnapshot(z.plain.assets[id]))
      && Dominates(OfSnapshot(z.plain.assets[id]), OfSnapshot(t))
  {
    hide *;
    StartInv(k, y);
    RunKeepsInv(k, g, batchSize, y, moves);
    var z := RunMoves(g, batchSize, y, moves);
    SettledRow(k, z.plain, Queue(z), z.db, id, t);
  }

  // ---------- evicted assets ----------

  /** Nobody sees the asset or loads it, and no batch with a version of it is given up. */
  ghost predicate LeavesAlone(y: System, v: Move, id: AssetId) {
    match v
    case StoreMove(ApplyOp(obs, _)) => obs.Valid() ==> MacKey(obs.mac) != id
    case Enters(obs, _) => MacKey(obs.mac) != id
    case StoreMove(LoadOp(_, snaps)) => forall s <- snaps :: s.id != id
    case Lose => !Queued(y.inflight, id)
    case _ => true
  }

  ghost predicate LeftAlone(g: Guesses, batchSize: int, y: System, moves: seq<Move>, id: AssetId) {
    moves != [] ==>
      && LeftAlone(g, batchSize, y, moves[..|moves| - 1], id)
      && LeavesAlone(RunMoves(g, batchSize, y, moves[..|moves| - 1]), moves[|moves| - 1], id)
  }

  lemma StaysAway(g: Guesses, p: Plain, op: Op, id: AssetId)
    requires id !in p.assets && (op.ApplyOp? && op.obs.Valid() ==> MacKey(op.obs.mac) != id)
    requires op.LoadOp? ==> forall s <- op.snaps :: s.id != id
    ensures id !in PlainStep(g, p, op).assets
  {
    hide MacKey, NewContents, RaisesDirty, Swept, Stale, Home, PlainLoad;
    if op.LoadOp? {
      LoadedKeys(p.assets, op.snaps, id);
    }
  }

  lemma DrainedElsewhere(p: Plain, queue: seq<Snapshot>, i: ShardId, out: seq<Snapshot>, id: AssetId)
    requires PlainDrain(p, i, out) && id !in p.assets
    ensures Newest(queue + out, id) == Newest(queue, id)
  {
    hide Home;
    NewestOfDrained(queue, out, id);
  }

  /** What was last known of an asset that is gone from memory stays behind it. */
  lemma AloneStep(k: Grain, g: Guesses, batchSize: int, y: System, v: Move, s: Snapshot)
    requires Inv(k, y.plain, Queue(y), y.db) && Possible(k, y, v) && LeavesAlone(y, v, s.id)
    requires s.id !in y.plain.assets && Settled(k, Queue(y), y.db, s)
    ensures var z := Next(g, batchSize, y, v); s.id !in z.plain.assets && Settled(k, Queue(z), z.db, s)
  {
    hide Inv, PlainStep, PlainDrain, IsLoaded, Taken, Left, SaveAll, HasGrain, MacKey, Agrees, Same, HydratorFinds;
    match v
    case StoreMove(op) => StaysAway(g, y.plain, op, s.id);
    case Enters(obs, row) =>
    case DrainMove(i, out) =>
      StaysAway(g, y.plain, DrainOp(i), s.id);
      DrainedElsewhere(y.plain, Queue(y), i, out, s.id);
      QueueParts(y.inflight, y.pending, y.drained, out);
    case Collect =>
      TakenAndLeft(y.pending, y.drained, batchSize);
      QueueParts(Taken(y.pending, y.drained, batchSize), Left(y.pending, y.drained, batchSize), [], []);
      QueueParts([], y.pending, y.drained, []);
    case Save =>
      QueueParts(y.inflight, y.pending, y.drained, []);
      QueueParts([], y.pending, y.drained, []);
      SaveSettles(k, y.plain, y.inflight, y.pending + y.drained, y.db, s);
    case Lose =>
      QueueParts(y.inflight, y.pending, y.drained, []);
      QueueParts([], y.pending, y.drained, []);
      NewestOfBoth(y.inflight, y.pending + y.drained, s.id);
      NewestIs(y.inflight, s.id);
  }

  lemma {:induction false} AloneRun(k: Grain, g: Guesses, batchSize: int, y: System, moves: seq<Move>, s: Snapshot)
    requires Inv(k, y.plain, Queue(y), y.db) && PossibleRun(g, batchSize, k, y, moves) && HarmlessRun(g, batchSize, k, y, moves)
    requires LeftAlone(g, batchSize, y, moves, s.id) && s.id !in y.plain.assets && Settled(k, Queue(y), y.db, s)
    ensures var z := RunMoves(g, batchSize, y, moves); s.id !in z.plain.assets && Settled(k, Queue(z), z.db, s)
  {
    hide Inv, Next, Possible, Harmless, Queue, Settled, LeavesAlone;
    if moves != [] {
      var front := moves[..|moves| - 1];
      AloneRun(k, g, batchSize, y, front, s);
      RunKeepsInv(k, g, batchSize, y, front);
      AloneStep(k, g, batchSize, RunMoves(g, batchSize, y, front), moves[|moves| - 1], s);
    }
  }

  /** Nothing tracked is lost with an asset that is evicted while it is not dirty, even if
      versions of it are queued: as long as nobody sees or loads it and none of its versions is
      given up, the newest queued version is what memory had, and once none is queued any more
      its row agrees with that. */
  lemma EvictedIsSaved(k: Grain, g: Guesses, batchSize: int, y: System, moves: seq<Move>, id: AssetId,
                       i: ShardId, now: Time, evictAfter: Duration, later: seq<Move>)
    requires Start(k, y) && PossibleRun(g, batchSize, k, y, moves) && HarmlessRun(g, batchSize, k, y, moves)
    requires var x := RunMoves(g, batchSize, y, moves); id in x.plain.assets && id !in x.plain.dirty
    requires var x := Next(g, batchSize, RunMoves(g, batchSize, y, moves), StoreMove(EvictOp(i, now, evictAfter)));
      && id !in x.plain.assets && PossibleRun(g, batchSize, k, x, later) && HarmlessRun(g, batchSize, k, x, later)
      && LeftAlone(g, batchSize, x, later, id)
    ensures var s := RunMoves(g, batchSize, y, moves).plain.assets[id];
      var x := Next(g, batchSize, RunMoves(g, batchSize, y, moves), StoreMove(EvictOp(i, now, evictAfter)));
      var z := RunMoves(g, batchSize, x, later); var n := Newest(Queue(z), id);
      && (n.Some? ==> Same(OfSnapshot(n.value), OfSnapshot(s)))
      && (n.None? ==> id in z.db && Agrees(k, OfRow(z.db[id]), OfSnapshot(s)))
  {
    StartInv(k, y);
    RunKeepsInv(k, g, batchSize, y, moves);
    var w := RunMoves(g, batchSize, y, moves);
    InvIds(k, w.plain, Queue(w), w.db);
    assert Settled(k, Queue(w), w.db, w.plain.assets[id]);
    hide Inv, Start, PossibleRun, HarmlessRun, RunMoves, LeftAlone, PlainStep, Same, Agrees;
    EvictKeeps(k, g, w.plain, Queue(w), w.db, i, now, evictAfter);
    AloneRun(k, g, batchSize, Next(g, batchSize, w, StoreMove(EvictOp(i, now, evictAfter))), later, w.plain.assets[id]);
  }
}
