/** Runs that break the write-behind agreement: each of them makes one harmful move, and
    nothing else that is out of the ordinary. */
module BrokenAgreement {
  import opened Clock
  import opened MacAddress
  import opened AssetModel
  import opened MergeUtil
  import opened Merging
  import opened Store
  import opened Linearization
  import opened PlainStore
  import opened TimeText
  import opened Storage
  import opened Repositories
  import opened Tracked
  import opened Persister
  import opened WriteBehind

  function Begin(db: Db): System { System(Plain(map[], {}), [], [], [], db) }

  /** A run of possible moves from one state to another. */
  ghost predicate Reaches(k: Grain, g: Guesses, batchSize: int, y: System, moves: seq<Move>, z: System) {
    PossibleRun(g, batchSize, k, y, moves) && RunMoves(g, batchSize, y, moves) == z
  }

  lemma ReachesMore(k: Grain, g: Guesses, batchSize: int, y: System, moves: seq<Move>, z: System, v: Move, next: System)
    requires Reaches(k, g, batchSize, y, moves, z) && Possible(k, z, v) && Next(g, batchSize, z, v) == next
    ensures Reaches(k, g, batchSize, y, moves + [v], next)
    ensures HarmlessRun(g, batchSize, k, y, moves) && Harmless(k, g, z, v) ==> HarmlessRun(g, batchSize, k, y, moves + [v])
  {
    hide Next, Possible, Harmless;
    assert (moves + [v])[..|moves|] == moves;
  }

  lemma ReachesItself(k: Grain, g: Guesses, batchSize: int, y: System)
    ensures Reaches(k, g, batchSize, y, [], y) && HarmlessRun(g, batchSize, k, y, [])
  {
  }

  /** A run of possible moves of which move n is the first that is harmful, and which ends without
      the agreement. */
  ghost predicate BreaksAt(k: Grain, g: Guesses, batchSize: int, y: System, moves: seq<Move>, n: nat) {
    && n < |moves| && PossibleRun(g, batchSize, k, y, moves) && HarmlessRun(g, batchSize, k, y, moves[..n])
    && !Harmless(k, g, RunMoves(g, batchSize, y, moves[..n]), moves[n])
    && !Agreed(k, RunMoves(g, batchSize, y, moves))
  }

  lemma BreakIs(k: Grain, g: Guesses, batchSize: int, y: System, front: seq<Move>, v: Move, rest: seq<Move>, x: System, z: System)
    requires Reaches(k, g, batchSize, y, front, x) && HarmlessRun(g, batchSize, k, y, front) && !Harmless(k, g, x, v)
    requires Reaches(k, g, batchSize, y, front + [v] + rest, z) && !Agreed(k, z)
    ensures BreaksAt(k, g, batchSize, y, front + [v] + rest, |front|) && RunMoves(g, batchSize, y, front + [v] + rest) == z
  {
    hide PossibleRun, HarmlessRun, RunMoves, Harmless, Agreed;
    var moves := front + [v] + rest;
    assert moves[..|front|] == front && moves[|front|] == v;
  }

  lemma StartRows(k: Grain, db: Db)
    requires Start(k, Begin(db))
    ensures forall id <- db.Keys :: RowOk(k, id, db[id])
  {
    hide RowOk;
  }

  /** A store with one asset. */
  function One(id: AssetId, s: Snapshot, dirty: bool): Plain { Plain(map[id := s], if dirty then {id} else {}) }

  /** A state in which nothing is in flight or left over. */
  function Idle(p: Plain, drained: seq<Snapshot>, db: Db): System { System(p, [], [], drained, db) }

  // ---------- single moves ----------

  lemma ApplyToNone(g: Guesses, obs: Observation, row: Option<Snapshot>)
    requires obs.Valid() && (row.Some? ==> ReviveChanges(g, row.value, obs))
    ensures PlainStep(g, Plain(map[], {}), ApplyOp(obs, row)) == One(MacKey(obs.mac), NewContents(g, None, obs, row), true)
  {
    hide MacKey, Revived, NewAsset, ReviveChanges;
    assert {} + {MacKey(obs.mac)} == {MacKey(obs.mac)};
  }

  lemma DrainOne(g: Guesses, mac: Mac, s: Snapshot)
    requires mac != [] && s.id == MacKey(mac)
    ensures PlainDrain(One(s.id, s, true), ShardIndex(mac), [s])
    ensures PlainStep(g, One(s.id, s, true), DrainOp(ShardIndex(mac))) == One(s.id, s, false)
  {
    hide MacKey, ShardIndex, Home;
    HomeOfKey(mac);
  }

  lemma SweepOne(g: Guesses, mac: Mac, s: Snapshot, now: Time)
    requires mac != [] && s.id == MacKey(mac)
    ensures PlainStep(g, One(s.id, s, true), SweepOp(ShardIndex(mac), now, 0)) == One(s.id, Swept(s, now, 0), true)
  {
    hide MacKey, ShardIndex, Home, Swept;
    HomeOfKey(mac);
    var after := PlainStep(g, One(s.id, s, true), SweepOp(ShardIndex(mac), now, 0));
    assert after.assets == map[s.id := Swept(s, now, 0)];
    assert after.dirty == {s.id};
  }

  lemma EvictOne(g: Guesses, mac: Mac, s: Snapshot, now: Time)
    requires mac != [] && s.id == MacKey(mac) && s.lastSeen < now
    ensures PlainStep(g, One(s.id, Swept(s, now, 0), false), EvictOp(ShardIndex(mac), now, 0)) == Plain(map[], {})
  {
    hide MacKey, ShardIndex, Home, SweptIps;
    HomeOfKey(mac);
    assert Stale(Swept(s, now, 0), now, 0);
    assert PlainStep(g, One(s.id, Swept(s, now, 0), false), EvictOp(ShardIndex(mac), now, 0)).assets == map[];
  }

  /** An asset enters an empty store. */
  lemma EnterEmpty(k: Grain, g: Guesses, batchSize: int, y: System, moves: seq<Move>, queue: seq<Snapshot>, db: Db,
                   obs: Observation, row: Option<Snapshot>)
    requires Reaches(k, g, batchSize, y, moves, Idle(Plain(map[], {}), queue, db)) && obs.Valid() && HasGrain(k, obs.at)
    requires row.Some? ==> HydratorFinds(db, obs.mac, row.value) && ReviveChanges(g, row.value, obs)
    ensures var v, id := StoreMove(ApplyOp(obs, row)), MacKey(obs.mac);
      && Reaches(k, g, batchSize, y, moves + [v], Idle(One(id, NewContents(g, None, obs, row), true), queue, db))
      && (HarmlessRun(g, batchSize, k, y, moves) && EntersWell(g, {}, queue, db, obs, row) ==>
            HarmlessRun(g, batchSize, k, y, moves + [v]))
  {
    ApplyToNone(g, obs, row);
    hide MacKey, Reaches, HarmlessRun, PlainStep, NewContents, HasGrain, HydratorFinds, ReviveChanges, EntersWell;
    assert [] + [] + queue == queue;
    var v, id := StoreMove(ApplyOp(obs, row)), MacKey(obs.mac);
    ReachesMore(k, g, batchSize, y, moves, Idle(Plain(map[], {}), queue, db), v,
                Idle(One(id, NewContents(g, None, obs, row), true), queue, db));
  }

  /** The rest of a flush: the last shard that has something, and then the batch. */
  function RestOfFlush(mac: Mac, s: Snapshot): seq<Move> {
    var i: ShardId := ShardIndex(mac);
    [DrainMove(i, [s])] + [Collect] + [Save]
  }

  lemma FlushOne(k: Grain, g: Guesses, batchSize: int, y: System, moves: seq<Move>, mac: Mac, s: Snapshot, queue: seq<Snapshot>, db: Db)
    requires mac != [] && s.id == MacKey(mac) && (batchSize > 0 ==> |queue| + 1 <= batchSize)
    requires Reaches(k, g, batchSize, y, moves, Idle(One(s.id, s, true), queue, db))
    ensures Reaches(k, g, batchSize, y, moves + RestOfFlush(mac, s), Idle(One(s.id, s, false), [], SaveAll(db, queue + [s])))
  {
    hide ShardIndex, MacKey, Reaches, PlainDrain, PlainStep, SaveAll;
    DrainOne(g, mac, s);
    var i: ShardId, all := ShardIndex(mac), queue + [s];
    var y1, y2 := Idle(One(s.id, s, false), all, db), System(One(s.id, s, false), all, [], [], db);
    assert [] + all == all;
    ReachesMore(k, g, batchSize, y, moves, Idle(One(s.id, s, true), queue, db), DrainMove(i, [s]), y1);
    ReachesMore(k, g, batchSize, y, moves + [DrainMove(i, [s])], y1, Collect, y2);
    ReachesMore(k, g, batchSize, y, moves + [DrainMove(i, [s])] + [Collect], y2, Save, Idle(One(s.id, s, false), [], SaveAll(db, all)));
    assert moves + RestOfFlush(mac, s) == moves + [DrainMove(i, [s])] + [Collect] + [Save];
  }

  // ---------- a hostname that memory lacks ----------

  lemma {:induction false} SavedHost(db: Db, batch: seq<Snapshot>, id: AssetId, h: string)
    requires h != "" && ((id in db && h in db[id].hostFirst) || exists q <- batch :: q.id == id && h in q.hostnames)
    ensures id in SaveAll(db, batch) && h in SaveAll(db, batch)[id].hostFirst
  {
    hide SaveOne;
    if batch != [] {
      var front, s := batch[..|batch| - 1], batch[|batch| - 1];
      assert batch == front + [s];
      if (id in db && h in db[id].hostFirst) || exists q <- front :: q.id == id && h in q.hostnames {
        SavedHost(db, front, id, h);
      }
      SavedHostOne(SaveAll(db, front), s, id, h);
    }
  }

  lemma SavedHostOne(db: Db, s: Snapshot, id: AssetId, h: string)
    requires h != "" && ((id in db && h in db[id].hostFirst) || (s.id == id && h in s.hostnames))
    ensures id in SaveOne(db, s) && h in SaveOne(db, s)[id].hostFirst
  {
    hide SavedRow, TimeFmt;
    SavedRowIs(db, s);
    SavedRowParts(StoredRow(db, s.id), s);
  }

  /** A clean asset whose row has a hostname that memory lacks. */
  lemma HostDisagrees(k: Grain, y: System, id: AssetId, h: string)
    requires id in y.plain.assets && id !in y.plain.dirty && Queue(y) == [] && id in y.db
    requires h in y.db[id].hostFirst && h !in y.plain.assets[id].hostnames
    ensures !Agreed(k, y)
  {
    hide Dominates;
    assert h in OfRow(y.db[id]).hosts && h !in OfSnapshot(y.plain.assets[id]).hosts;
    assert Newest(Queue(y), id).None?;
  }

  lemma HostNotDominated(a: Columns, b: Columns, h: string)
    requires h in b.hosts && h !in a.hosts
    ensures !Dominates(a, b)
  {
  }

  lemma RevivedHost(g: Guesses, t: Snapshot, obs: Observation, h: string)
    ensures h in Revived(g, t, obs).hostnames <==> h in t.hostnames || (h in obs.hostnames && h != "")
  {
    MergedHost(t.hostnames, obs.hostnames, h);
    hide MergedStrings;
  }

  lemma LaterChanges(g: Guesses, t: Snapshot, a: Observation)
    requires t.lastSeen < a.at
    ensures ReviveChanges(g, t, a) && Revived(g, t, a).lastSeen == a.at && Revived(g, t, a).id == t.id
  {
    assert Observed(t, a).lastSeen != t.lastSeen;
  }

  // ---------- a batch that is lost ----------

  /** A new asset, one flush, and the batch is given up. */
  ghost function LossMoves(g: Guesses, a: Observation): seq<Move> {
    var i: ShardId := ShardIndex(a.mac);
    [StoreMove(ApplyOp(a, None))] + [DrainMove(i, [NewAsset(g, a)])] + [Collect] + [Lose] + []
  }

  lemma NewAssetIs(g: Guesses, a: Observation)
    requires a.Valid()
    ensures var s := NewAsset(g, a); s.id == MacKey(a.mac) && s.mac == a.mac && s.lastSeen == a.at
  {
    hide MacKey;
  }

  lemma NewAssetHost(g: Guesses, a: Observation, h: string)
    ensures h in NewAsset(g, a).hostnames <==> h in a.hostnames && h != ""
  {
    hide MacKey, MergedStrings, SetOf;
    assert NewAsset(g, a).hostnames == MergedStrings([], a.hostnames);
    MergedHost([], a.hostnames, h);
  }

  lemma MergedHost(known: seq<string>, incoming: seq<string>, h: string)
    ensures h in MergedStrings(known, incoming) <==> h in known || (h in incoming && h != "")
  {
    hide MergedStrings;
    MergedStringsSet(known, incoming);
    assert h in SetOf(MergedStrings(known, incoming)) <==> h in SetOf(known) + (SetOf(incoming) - {""});
  }

  /** The last trace of a new asset. */
  lemma LastTrace(k: Grain, g: Guesses, s: Snapshot, db: Db)
    requires s.id !in db
    ensures !Harmless(k, g, System(One(s.id, s, false), [s], [], [], db), Lose)
  {
    assert Newest([s], s.id) == Some(s) && !Queued([] + [], s.id);
  }

  lemma LossReaches(k: Grain, g: Guesses, batchSize: int, db: Db, a: Observation)
    requires a.Valid() && HasGrain(k, a.at) && MacKey(a.mac) !in db
    ensures var i: ShardId, s, id := ShardIndex(a.mac), NewAsset(g, a), MacKey(a.mac);
      var front, y := [StoreMove(ApplyOp(a, None))] + [DrainMove(i, [s])] + [Collect], System(One(id, s, false), [s], [], [], db);
      && Reaches(k, g, batchSize, Begin(db), front, y) && HarmlessRun(g, batchSize, k, Begin(db), front)
      && Reaches(k, g, batchSize, Begin(db), front + [Lose], Idle(One(id, s, false), [], db))
  {
    hide HasGrain, NewAsset, ShardIndex, MacKey, PlainDrain, PlainStep, Reaches, HarmlessRun, EntersWell, LossIsHarmless;
    var i: ShardId, s, id := ShardIndex(a.mac), NewAsset(g, a), MacKey(a.mac);
    NewAssetIs(g, a);
    EntersAlone(g, db, a);
    DrainOne(g, a.mac, s);
    var v0, v1 := StoreMove(ApplyOp(a, None)), DrainMove(i, [s]);
    var y1, y2, y3 := Idle(One(id, s, true), [], db), Idle(One(id, s, false), [s], db), System(One(id, s, false), [s], [], [], db);
    assert [] + [s] == [s] && [] + [v0] == [v0];
    ReachesItself(k, g, batchSize, Begin(db));
    EnterEmpty(k, g, batchSize, Begin(db), [], [], db, a, None);
    ReachesMore(k, g, batchSize, Begin(db), [v0], y1, v1, y2);
    ReachesMore(k, g, batchSize, Begin(db), [v0] + [v1], y2, Collect, y3);
    ReachesMore(k, g, batchSize, Begin(db), [v0] + [v1] + [Collect], y3, Lose, Idle(One(id, s, false), [], db));
  }

  /** The first observation of an address, flushed in a batch that is lost: the asset is clean,
      nothing is queued, and there is no row. */
  lemma LossBreaks(k: Grain, g: Guesses, batchSize: int, db: Db, a: Observation)
    requires Start(k, Begin(db)) && a.Valid() && HasGrain(k, a.at) && NoRowFor(db, a.mac)
    ensures BreaksAt(k, g, batchSize, Begin(db), LossMoves(g, a), 3)
    ensures var z := RunMoves(g, batchSize, Begin(db), LossMoves(g, a)); z.plain.dirty == {} && Queue(z) == []
  {
    var i: ShardId, s, id := ShardIndex(a.mac), NewAsset(g, a), MacKey(a.mac);
    var z, front := Idle(One(id, s, false), [], db), [StoreMove(ApplyOp(a, None))] + [DrainMove(i, [s])] + [Collect];
    assert LossMoves(g, a) == front + [Lose] + [] && front + [Lose] + [] == front + [Lose] && |front| == 3;
    assert z.plain.dirty == {} && Queue(z) == [];
    hide *;
    HasMac(a);
    StartRows(k, db);
    NoRowIff(k, db, a.mac);
    NewAssetIs(g, a);
    LossReaches(k, g, batchSize, db, a);
    LastTrace(k, g, s, db);
    CleanOne(id, s, db);
    NothingBehind(k, z, id);
    BreakIs(k, g, batchSize, Begin(db), front, Lose, [], System(One(id, s, false), [s], [], [], db), z);
  }

  lemma HasMac(a: Observation)
    requires a.Valid()
    ensures a.mac != []
  {
  }

  lemma CleanOne(id: AssetId, s: Snapshot, db: Db)
    ensures var y := Idle(One(id, s, false), [], db); id in y.plain.assets && id !in y.plain.dirty && Queue(y) == [] && y.db == db
  {
  }

  lemma EntersAlone(g: Guesses, db: Db, a: Observation)
    requires MacKey(a.mac) !in db
    ensures EntersWell(g, {}, [], db, a, None)
  {
  }

  lemma NothingBehind(k: Grain, y: System, id: AssetId)
    requires id in y.plain.assets && id !in y.plain.dirty && Queue(y) == [] && id !in y.db
    ensures !Agreed(k, y)
  {
    hide Dominates;
    assert Newest(Queue(y), id).None?;
  }

  // ---------- a row that the hydrator misses ----------

  /** The hydrator fails, so the asset is created beside its row, and saved over it. */
  ghost function MissMoves(g: Guesses, a: Observation): seq<Move> {
    [StoreMove(ApplyOp(a, None))] + RestOfFlush(a.mac, NewAsset(g, a))
  }

  /** A clean asset beside a row of its own that has a hostname which memory lacks. */
  ghost predicate LacksHost(y: System, id: AssetId, h: string) {
    && y.plain.dirty == {} && Queue(y) == [] && id in y.plain.assets && id in y.db
    && h in y.db[id].hostFirst && h !in y.plain.assets[id].hostnames
  }

  lemma SavedLacks(k: Grain, id: AssetId, u: Snapshot, batch: seq<Snapshot>, db: Db, h: string)
    requires h != "" && h !in u.hostnames && ((id in db && h in db[id].hostFirst) || exists q <- batch :: q.id == id && h in q.hostnames)
    ensures var z := Idle(One(id, u, false), [], SaveAll(db, batch)); LacksHost(z, id, h) && !Agreed(k, z)
  {
    hide Agreed, SaveAll;
    SavedHost(db, batch, id, h);
    HostDisagrees(k, Idle(One(id, u, false), [], SaveAll(db, batch)), id, h);
  }

  lemma MissReaches(k: Grain, g: Guesses, batchSize: int, db: Db, a: Observation)
    requires a.Valid() && HasGrain(k, a.at)
    ensures Reaches(k, g, batchSize, Begin(db), MissMoves(g, a),
      Idle(One(MacKey(a.mac), NewAsset(g, a), false), [], SaveAll(db, [NewAsset(g, a)])))
  {
    var s := NewAsset(g, a);
    NewAssetIs(g, a);
    hide HasGrain, NewAsset, MacKey, Reaches, RestOfFlush, SaveAll, EntersWell;
    ReachesItself(k, g, batchSize, Begin(db));
    assert [] + [StoreMove(ApplyOp(a, None))] == [StoreMove(ApplyOp(a, None))] && [] + [s] == [s];
    EnterEmpty(k, g, batchSize, Begin(db), [], [], db, a, None);
    FlushOne(k, g, batchSize, Begin(db), [StoreMove(ApplyOp(a, None))], a.mac, s, [], db);
  }

  lemma MissHarms(k: Grain, g: Guesses, db: Db, a: Observation, h: string)
    requires a.Valid() && MacKey(a.mac) in db && h in OfRow(db[MacKey(a.mac)]).hosts && h !in NewAsset(g, a).hostnames
    ensures !Harmless(k, g, Begin(db), StoreMove(ApplyOp(a, None)))
  {
    HostNotDominated(OfSnapshot(NewAsset(g, a)), OfRow(db[MacKey(a.mac)]), h);
    hide Dominates, NewAsset, OfRow, MacKey;
  }

  /** An address whose row has a hostname that the observation lacks: the first move is harmful,
      and after the flush the asset is clean and does not have the hostname that its row has. */
  lemma MissedRowBreaks(k: Grain, g: Guesses, batchSize: int, db: Db, a: Observation, h: string)
    requires Start(k, Begin(db)) && a.Valid() && HasGrain(k, a.at)
    requires MacKey(a.mac) in db && h in db[MacKey(a.mac)].hostFirst && h !in a.hostnames
    ensures BreaksAt(k, g, batchSize, Begin(db), MissMoves(g, a), 0)
    ensures LacksHost(RunMoves(g, batchSize, Begin(db), MissMoves(g, a)), MacKey(a.mac), h)
  {
    hide HasGrain, NewAsset, MacKey, Start, OfRow, Reaches, RunMoves, SaveAll, Agreed, RestOfFlush, LacksHost,
      BreaksAt, Harmless, HarmlessRun;
    var s, id := NewAsset(g, a), MacKey(a.mac);
    RowHosts(k, db, id, h);
    NewAssetIs(g, a);
    NewAssetHost(g, a, h);
    MissHarms(k, g, db, a, h);
    MissReaches(k, g, batchSize, db, a);
    SavedLacks(k, id, s, [s], db, h);
    ReachesItself(k, g, batchSize, Begin(db));
    var v0 := StoreMove(ApplyOp(a, None));
    assert [] + [v0] + RestOfFlush(a.mac, s) == MissMoves(g, a);
    BreakIs(k, g, batchSize, Begin(db), [], v0, RestOfFlush(a.mac, s), Begin(db), Idle(One(id, s, false), [], SaveAll(db, [s])));
  }

  lemma RowHosts(k: Grain, db: Db, id: AssetId, h: string)
    requires Start(k, Begin(db)) && id in db && h in db[id].hostFirst
    ensures h != "" && h in OfRow(db[id]).hosts
  {
    hide TimeFmt, ParseTime, KeyMac, IpRowsOk, HasGrain;
    assert RowOk(k, id, db[id]);
  }

  // ---------- an asset that comes back too early ----------

  /** An asset is hydrated from its row t, swept, drained and evicted, and hydrated from that
      row again before the drained version is saved. */
  ghost function EvictMoves(g: Guesses, t: Snapshot, a: Observation, now: Time): seq<Move> {
    var i: ShardId := ShardIndex(a.mac);
    [StoreMove(ApplyOp(a, Some(t)))] + [StoreMove(SweepOp(i, now, 0))] + [DrainMove(i, [Swept(Revived(g, t, a), now, 0)])]
    + [StoreMove(EvictOp(i, now, 0))]
  }

  ghost function RehydrationMoves(g: Guesses, t: Snapshot, a: Observation, now: Time, c: Observation): seq<Move> {
    EvictMoves(g, t, a, now) + [StoreMove(ApplyOp(c, Some(t)))] + RestOfFlush(c.mac, Revived(g, t, c))
  }

  lemma SweepDrainEvict(k: Grain, g: Guesses, batchSize: int, y: System, moves: seq<Move>, db: Db, mac: Mac, s1: Snapshot, now: Time)
    requires Reaches(k, g, batchSize, y, moves, Idle(One(s1.id, s1, true), [], db)) && HarmlessRun(g, batchSize, k, y, moves)
    requires mac != [] && s1.id == MacKey(mac) && s1.lastSeen < now
    ensures var i: ShardId, s := ShardIndex(mac), Swept(s1, now, 0);
      var after := moves + [StoreMove(SweepOp(i, now, 0))] + [DrainMove(i, [s])] + [StoreMove(EvictOp(i, now, 0))];
      Reaches(k, g, batchSize, y, after, Idle(Plain(map[], {}), [s], db)) && HarmlessRun(g, batchSize, k, y, after)
  {
    var i: ShardId, id, s := ShardIndex(mac), s1.id, Swept(s1, now, 0);
    SweptIs(s1, now);
    hide ShardIndex, MacKey, PlainStep, Reaches, HarmlessRun, Swept, PlainDrain;
    SweepOne(g, mac, s1, now);
    DrainOne(g, mac, s);
    EvictOne(g, mac, s1, now);
    var v1, v2, v3 := StoreMove(SweepOp(i, now, 0)), DrainMove(i, [s]), StoreMove(EvictOp(i, now, 0));
    var y1, y2, y3 := Idle(One(id, s1, true), [], db), Idle(One(id, s, true), [], db), Idle(One(id, s, false), [s], db);
    assert [] + [s] == [s];
    ReachesMore(k, g, batchSize, y, moves, y1, v1, y2);
    ReachesMore(k, g, batchSize, y, moves + [v1], y2, v2, y3);
    ReachesMore(k, g, batchSize, y, moves + [v1] + [v2], y3, v3, Idle(Plain(map[], {}), [s], db));
  }

  /** The moves up to the eviction are harmless, and leave one version in the queue. */
  lemma EvictedInQueue(k: Grain, g: Guesses, batchSize: int, db: Db, t: Snapshot, a: Observation, now: Time)
    requires a.Valid() && HasGrain(k, a.at) && HydratorFinds(db, a.mac, t)
    requires t.id == MacKey(a.mac) && t.lastSeen < a.at < now
    ensures var s, moves := Swept(Revived(g, t, a), now, 0), EvictMoves(g, t, a, now);
      Reaches(k, g, batchSize, Begin(db), moves, Idle(Plain(map[], {}), [s], db)) && HarmlessRun(g, batchSize, k, Begin(db), moves)
  {
    LaterChanges(g, t, a);
    FitsNothing(g, {}, db, a, t);
    hide HydratorFinds, HasGrain, Revived, ReviveChanges, ShardIndex, MacKey, Reaches, HarmlessRun, Swept, EntersWell;
    ReachesItself(k, g, batchSize, Begin(db));
    assert [] + [StoreMove(ApplyOp(a, Some(t)))] == [StoreMove(ApplyOp(a, Some(t)))];
    EnterEmpty(k, g, batchSize, Begin(db), [], [], db, a, Some(t));
    SweepDrainEvict(k, g, batchSize, Begin(db), [StoreMove(ApplyOp(a, Some(t)))], db, a.mac, Revived(g, t, a), now);
  }

  lemma FitsNothing(g: Guesses, dirty: set<AssetId>, db: Db, obs: Observation, t: Snapshot)
    ensures EntersWell(g, dirty, [], db, obs, Some(t))
  {
  }

  lemma SweptIs(s: Snapshot, now: Time)
    ensures Swept(s, now, 0).id == s.id && Swept(s, now, 0).hostnames == s.hostnames
  {
  }

  lemma RehydrationReaches(k: Grain, g: Guesses, batchSize: int, db: Db, t: Snapshot, a: Observation, c: Observation, now: Time)
    requires a.Valid() && c.Valid() && a.mac == c.mac && HasGrain(k, a.at) && HasGrain(k, c.at) && (batchSize <= 0 || batchSize >= 2)
    requires HydratorFinds(db, a.mac, t) && t.id == MacKey(a.mac) && t.lastSeen < a.at < now && t.lastSeen < c.at
    ensures var s, u := Swept(Revived(g, t, a), now, 0), Revived(g, t, c);
      Reaches(k, g, batchSize, Begin(db), RehydrationMoves(g, t, a, now, c), Idle(One(t.id, u, false), [], SaveAll(db, [s] + [u])))
  {
    var s, u, moves := Swept(Revived(g, t, a), now, 0), Revived(g, t, c), EvictMoves(g, t, a, now);
    LaterChanges(g, t, c);
    EvictedInQueue(k, g, batchSize, db, t, a, now);
    hide HydratorFinds, HasGrain, Revived, ReviveChanges, MacKey, Reaches, HarmlessRun, Swept, EvictMoves, EntersWell,
      RestOfFlush, SaveAll;
    EnterEmpty(k, g, batchSize, Begin(db), moves, [s], db, c, Some(t));
    FlushOne(k, g, batchSize, Begin(db), moves + [StoreMove(ApplyOp(c, Some(t)))], c.mac, u, [s], db);
  }

  /** What comes back with less than the queue has does not fit. */
  lemma DoesNotFit(k: Grain, g: Guesses, db: Db, s: Snapshot, c: Observation, t: Snapshot, h: string)
    requires c.Valid() && s.id == MacKey(c.mac) && Revived(g, t, c).id == s.id && h in s.hostnames && h !in Revived(g, t, c).hostnames
    ensures !Harmless(k, g, Idle(Plain(map[], {}), [s], db), StoreMove(ApplyOp(c, Some(t))))
  {
    hide MacKey, Revived, ReviveChanges;
    assert [] + [] + [s] == [s] && Newest([s], s.id) == Some(s);
    HostNotDominated(OfSnapshot(Revived(g, t, c)), OfSnapshot(s), h);
    hide Dominates;
  }

  lemma SavedPairLacks(k: Grain, s: Snapshot, u: Snapshot, db: Db, h: string)
    requires h != "" && h in s.hostnames && h !in u.hostnames
    ensures var z := Idle(One(s.id, u, false), [], SaveAll(db, [s] + [u])); LacksHost(z, s.id, h) && !Agreed(k, z)
  {
    hide Agreed, SaveAll, LacksHost;
    assert s in [s] + [u];
    SavedLacks(k, s.id, u, [s] + [u], db, h);
  }

  /** Where the run gets, and why its fifth move is harmful. */
  lemma RehydrationHarms(k: Grain, g: Guesses, batchSize: int, db: Db, t: Snapshot, a: Observation, c: Observation, h: string, now: Time)
    requires a.Valid() && c.Valid() && a.mac == c.mac && HasGrain(k, a.at) && HasGrain(k, c.at) && t.id == MacKey(a.mac)
    requires HydratorFinds(db, a.mac, t) && t.lastSeen < a.at < now && t.lastSeen < c.at
    requires h in a.hostnames && h != "" && h !in t.hostnames && h !in c.hostnames && (batchSize <= 0 || batchSize >= 2)
    ensures var u, s := Revived(g, t, c), Swept(Revived(g, t, a), now, 0);
      var x, z := Idle(Plain(map[], {}), [s], db), Idle(One(t.id, u, false), [], SaveAll(db, [s] + [u]));
      && Reaches(k, g, batchSize, Begin(db), EvictMoves(g, t, a, now), x)
      && HarmlessRun(g, batchSize, k, Begin(db), EvictMoves(g, t, a, now))
      && !Harmless(k, g, x, StoreMove(ApplyOp(c, Some(t))))
      && Reaches(k, g, batchSize, Begin(db), RehydrationMoves(g, t, a, now, c), z) && LacksHost(z, t.id, h) && !Agreed(k, z)
  {
    hide HydratorFinds, HasGrain, Revived, ReviveChanges, MacKey, Reaches, HarmlessRun, Swept, EvictMoves, Harmless,
      SaveAll, Agreed,
      RehydrationMoves, LacksHost;
    HostsOfBoth(g, t, a, c, h, now);
    LaterChanges(g, t, c);
    EvictedInQueue(k, g, batchSize, db, t, a, now);
    RehydrationReaches(k, g, batchSize, db, t, a, c, now);
    DoesNotFit(k, g, db, Swept(Revived(g, t, a), now, 0), c, t, h);
    SavedPairLacks(k, Swept(Revived(g, t, a), now, 0), Revived(g, t, c), db, h);
  }

  /** The second hydration is possible and harmful: it misses what is queued. After both
      versions are saved the asset is clean, and its row has a hostname that memory lost. */
  lemma RehydrationBreaks(k: Grain, g: Guesses, batchSize: int, db: Db, t: Snapshot, a: Observation, c: Observation, h: string, now: Time)
    requires Start(k, Begin(db)) && a.Valid() && c.Valid() && a.mac == c.mac && HasGrain(k, a.at) && HasGrain(k, c.at)
    requires HydratorFinds(db, a.mac, t) && t.lastSeen < a.at < now && t.lastSeen < c.at
    requires h in a.hostnames && h != "" && h !in t.hostnames && h !in c.hostnames && (batchSize <= 0 || batchSize >= 2)
    ensures BreaksAt(k, g, batchSize, Begin(db), RehydrationMoves(g, t, a, now, c), 4)
    ensures LacksHost(RunMoves(g, batchSize, Begin(db), RehydrationMoves(g, t, a, now, c)), MacKey(a.mac), h)
  {
    hide HydratorFinds, HasGrain, Revived, ReviveChanges, MacKey, Start, Reaches, HarmlessRun, Swept, EvictMoves,
      RehydrationMoves, Harmless,
      IsLoaded, RowOk, RunMoves, SaveAll, Agreed, RestOfFlush, LacksHost, BreaksAt, One, Idle, Begin;
    var u, s := Revived(g, t, c), Swept(Revived(g, t, a), now, 0);
    var front, rest := EvictMoves(g, t, a, now), RestOfFlush(c.mac, u);
    RehydrationIs(g, t, a, now, c);
    HasMac(a);
    StartRows(k, db);
    FoundIsOwnRow(k, db, a.mac, t);
    FourMoves(g, t, a, now);
    RehydrationHarms(k, g, batchSize, db, t, a, c, h, now);
    BreakIs(k, g, batchSize, Begin(db), front, StoreMove(ApplyOp(c, Some(t))), rest,
            Idle(Plain(map[], {}), [s], db), Idle(One(t.id, u, false), [], SaveAll(db, [s] + [u])));
  }

  lemma RehydrationIs(g: Guesses, t: Snapshot, a: Observation, now: Time, c: Observation)
    ensures RehydrationMoves(g, t, a, now, c)
      == EvictMoves(g, t, a, now) + [StoreMove(ApplyOp(c, Some(t)))] + RestOfFlush(c.mac, Revived(g, t, c))
  {
    hide EvictMoves, RestOfFlush, Revived;
  }

  lemma HostsOfBoth(g: Guesses, t: Snapshot, a: Observation, c: Observation, h: string, now: Time)
    requires h in a.hostnames && h != "" && h !in t.hostnames && h !in c.hostnames && t.lastSeen < a.at
    ensures var s := Swept(Revived(g, t, a), now, 0); s.id == t.id && h in s.hostnames
    ensures h !in Revived(g, t, c).hostnames
  {
    RevivedHost(g, t, a, h);
    RevivedHost(g, t, c, h);
    LaterChanges(g, t, a);
    hide Revived, Swept;
    SweptIs(Revived(g, t, a), now);
  }

  lemma FourMoves(g: Guesses, t: Snapshot, a: Observation, now: Time)
    ensures |EvictMoves(g, t, a, now)| == 4
  {
    hide ShardIndex, Swept, Revived;
  }

  // ---------- such databases ----------

  lemma FirstSave(s: Snapshot)
    ensures var r := SavedRow(None, s);
      SaveAll(map[], [s]) == map[s.id := r] && r.mac == MacString(s.mac) && r.lastSeen == TimeFmt(s.lastSeen)
      && forall h :: h in r.hostFirst <==> h in HostKeys(s)
  {
    hide TimeFmt, MacString, SavedRow, MergedRow, WithChildren;
    SavedRowIs(map[], s);
    SaveSingle(map[], s);
    FirstColumnsOf(s);
  }

  lemma FirstColumnsOf(s: Snapshot)
    ensures SavedRow(None, s).mac == MacString(s.mac) && SavedRow(None, s).lastSeen == TimeFmt(s.lastSeen)
    ensures forall h :: h in SavedRow(None, s).hostFirst <==> h in HostKeys(s)
  {
    hide TimeFmt, MacString, WithIps, ServiceRows, HostKeys;
  }

  /** What one save of a new asset leaves is a database as above. */
  lemma RowOfNew(k: Grain, g: Guesses, o: Observation, h: string) returns (t: Snapshot)
    requires o.Valid() && HasGrain(k, o.at)
    ensures var db, id := SaveAll(map[], [NewAsset(g, o)]), MacKey(o.mac);
      && Start(k, Begin(db)) && HydratorFinds(db, o.mac, t) && t.lastSeen == o.at
      && id in db && (h in t.hostnames <==> h in o.hostnames && h != "") && (h in db[id].hostFirst <==> h in o.hostnames && h != "")
  {
    hide NewAsset, HasGrain, RowOk, IsLoadOf, SavedRow, MacKey, MacString, TimeFmt, ParseTime, Sound, MacOk, SaveAll;
    var s := NewAsset(g, o);
    NewAssetOk(k, g, map[], o);
    NewAssetIs(g, o);
    FirstSave(s);
    SaveAgrees(k, None, s);
    t := EveryRowLoads(s.id, SavedRow(None, s));
    LoadSame(k, s.id, SavedRow(None, s), t);
    ParseUndoesFmt(s.lastSeen);
    NewAssetHost(g, o, h);
    assert h in OfSnapshot(t).hosts <==> h in OfRow(SavedRow(None, s)).hosts;
    var db := SaveAll(map[], [s]);
    assert db[s.id].mac == MacString(o.mac) && IsLoadOf(s.id, db[s.id], t);
    assert s.id in db.Keys;
    forall id <- db.Keys ensures RowOk(k, id, db[id]) {
      assert id == s.id;
    }
  }

  /** So the program gets there by itself: for any observation o of an address, saved in one
      run, there are these runs after it, whenever a later observation brings a hostname that
      the one after it lacks, or lacks one that o had. */
  lemma BrokenRuns(k: Grain, g: Guesses, batchSize: int, o: Observation, a: Observation, c: Observation, h: string, now: Time)
    returns (t: Snapshot)
    requires o.Valid() && a.Valid() && c.Valid() && o.mac == a.mac == c.mac
    requires HasGrain(k, o.at) && HasGrain(k, a.at) && HasGrain(k, c.at) && o.at < a.at < now && o.at < c.at && h != ""
    ensures var y := Begin(SaveAll(map[], [NewAsset(g, o)]));
      && Start(k, y)
      && (h in o.hostnames && h !in a.hostnames ==> BreaksAt(k, g, batchSize, y, MissMoves(g, a), 0))
      && (h !in o.hostnames && h in a.hostnames && h !in c.hostnames && (batchSize <= 0 || batchSize >= 2) ==>
            BreaksAt(k, g, batchSize, y, RehydrationMoves(g, t, a, now, c), 4))
  {
    t := RowOfNew(k, g, o, h);
    var db := SaveAll(map[], [NewAsset(g, o)]);
    hide *;
    if h in o.hostnames && h !in a.hostnames {
      MissedRowBreaks(k, g, batchSize, db, a, h);
    }
    if h !in o.hostnames && h in a.hostnames && h !in c.hostnames && (batchSize <= 0 || batchSize >= 2) {
      RehydrationBreaks(k, g, batchSize, db, t, a, c, h, now);
    }
  }
}
