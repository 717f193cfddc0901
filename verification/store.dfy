/** The sharded asset store of internal/asset/manager.go on values: what each operation does
    to a shard, and the index invariant that every operation keeps. The class `Manager`
    refines these functions. */
module Store {
  import opened Clock
  import opened MacAddress
  import opened AssetModel
  import opened Merging
  import opened Resolver

  const IP_GRACE: Duration := 300 * SECOND

  datatype Shard = Shard(assets: map<AssetId, Snapshot>, dirty: set<AssetId>, index: Index) {
    function MarkDirty(id: AssetId): Shard {
      if id == "" then this else this.(dirty := dirty + {id})
    }

    function Put(id: AssetId, s: Snapshot): Shard { this.(assets := assets[id := s]) }

    function Bind(id: AssetId, mac: Mac): Shard { this.(index := index.Bind(id, mac)) }
  }

  const EMPTY_SHARD := Shard(map[], {}, EMPTY_INDEX)

  type Store = s: seq<Shard> | |s| == SHARD_COUNT witness seq(SHARD_COUNT, i => EMPTY_SHARD)

  function EmptyStore(): Store { seq(SHARD_COUNT, i => EMPTY_SHARD) }

  // ---------- Apply ----------

  datatype Action = Created | Updated

  /** The outcome of the locked part of `Apply`. `Crashed` is the nil dereference of a
      resolved id that is no longer in the shard. */
  datatype Outcome = Crashed | Ignored | Done(shard: Shard, id: AssetId, action: Action)

  /** The contents of an existing asset after an observation: merged, and online again. */
  ghost function Revived(g: Guesses, s: Snapshot, obs: Observation): Snapshot {
    Merged(g, s, obs).(status := Online)
  }

  ghost predicate ReviveChanges(g: Guesses, s: Snapshot, obs: Observation) {
    MergeChanges(g, s, obs) || s.status == Offline
  }

  ghost function NewAsset(g: Guesses, obs: Observation): Snapshot {
    Merged(g, Blank(MacKey(obs.mac), obs.mac), obs)
  }

  ghost function Update(g: Guesses, sh: Shard, obs: Observation, id: AssetId): Outcome {
    if id !in sh.assets then Crashed
    else
      var a := sh.assets[id];
      var bound := sh.Put(id, Revived(g, a, obs)).Bind(a.id, obs.mac);
      Done(if ReviveChanges(g, a, obs) then bound.MarkDirty(a.id) else bound, a.id, Updated)
  }

  /** Lines 265 to 314: the body of `Apply` under the shard lock. `resolved` is what Resolve
      answered before the lock was taken and `row` what the hydrator finds for the address. */
  ghost function Commit(g: Guesses, sh: Shard, obs: Observation, resolved: Option<AssetId>, row: Option<Snapshot>): Outcome {
    if resolved.Some? then Update(g, sh, obs, resolved.value)
    else if row.Some? then
      Update(g, sh.Put(row.value.id, row.value).Bind(row.value.id, row.value.mac), obs, row.value.id)
    else
      var id := MacKey(obs.mac);
      if id == "" then Ignored
      else Done(sh.Put(id, NewAsset(g, obs)).Bind(id, obs.mac).MarkDirty(id), id, Created)
  }

  function Resolve(st: Store, mac: Mac): Option<AssetId> { st[ShardIndex(mac)].index.Resolve(mac) }

  /** `Apply` when nothing happens between its resolve and its locked part. */
  ghost function Apply(g: Guesses, st: Store, obs: Observation, row: Option<Snapshot>): Outcome {
    if !obs.Valid() then Ignored
    else Commit(g, st[ShardIndex(obs.mac)], obs, Resolve(st, obs.mac), row)
  }

  ghost function After(st: Store, mac: Mac, o: Outcome): Store {
    if o.Done? then st[ShardIndex(mac) := o.shard] else st
  }

  // ---------- Sweep ----------

  predicate LeaseOver(e: IpEntry, now: Time) {
    e.lease > 0 && Sub(now, e.lastSeen) > Wrap64(e.lease + IP_GRACE)
  }

  function SweptIps(m: IpMap, now: Time): IpMap {
    map ip | ip in m :: if LeaseOver(m[ip], now) then m[ip].(active := false) else m[ip]
  }

  predicate GoesOffline(s: Snapshot, now: Time, offlineAfter: Duration) {
    s.status == Online && Sub(now, s.lastSeen) > offlineAfter
  }

  function Swept(s: Snapshot, now: Time, offlineAfter: Duration): Snapshot {
    s.(ipv4s := SweptIps(s.ipv4s, now), ipv6s := SweptIps(s.ipv6s, now),
       status := if GoesOffline(s, now, offlineAfter) then Offline else s.status)
  }

  function SweptShard(sh: Shard, now: Time, offlineAfter: Duration): Shard {
    sh.(assets := map id | id in sh.assets :: Swept(sh.assets[id], now, offlineAfter),
        dirty := sh.dirty + set id | id in sh.assets && Swept(sh.assets[id], now, offlineAfter) != sh.assets[id])
  }

  function Transitions(sh: Shard, now: Time, offlineAfter: Duration): set<AssetId> {
    set id | id in sh.assets && GoesOffline(sh.assets[id], now, offlineAfter)
  }

  function SweptStore(st: Store, now: Time, offlineAfter: Duration): Store {
    seq(SHARD_COUNT, i requires 0 <= i < SHARD_COUNT => SweptShard(st[i], now, offlineAfter))
  }

  /** The assets of the first n shards that a sweep puts offline. */
  ghost function WentOffline(st: Store, n: nat, now: Time, offlineAfter: Duration): set<AssetId>
    requires n <= SHARD_COUNT
  {
    set i, id | 0 <= i < n && id in Transitions(st[i], now, offlineAfter) :: id
  }

  // ---------- EvictStale ----------

  predicate Stale(s: Snapshot, now: Time, evictAfter: Duration) {
    s.status == Offline && Sub(now, s.lastSeen) > evictAfter
  }

  function StaleIds(sh: Shard, now: Time, evictAfter: Duration): set<AssetId> {
    set id | id in sh.assets && Stale(sh.assets[id], now, evictAfter)
  }

  /** The assets of the first n shards that are evicted. */
  ghost function AllStale(st: Store, n: nat, now: Time, evictAfter: Duration): set<AssetId>
    requires n <= SHARD_COUNT
  {
    set i, id | 0 <= i < n && id in StaleIds(st[i], now, evictAfter) :: id
  }

  /** Unbinding a set of ids, in any order. */
  function UnbindAll(x: Index, ids: set<AssetId>): Index {
    Index(map k | k in x.byKey && !(x.byKey[k] in ids && x.byKey[k] in x.byId && x.byId[x.byKey[k]] == k) :: x.byKey[k],
          x.byId - ids)
  }

  /** The dirty set keeps the evicted ids. */
  function EvictedShard(sh: Shard, now: Time, evictAfter: Duration): Shard {
    var ids := StaleIds(sh, now, evictAfter);
    sh.(assets := sh.assets - ids, index := UnbindAll(sh.index, ids))
  }

  function EvictedStore(st: Store, now: Time, evictAfter: Duration): Store {
    seq(SHARD_COUNT, i requires 0 <= i < SHARD_COUNT => EvictedShard(st[i], now, evictAfter))
  }

  // ---------- DrainDirty ----------

  /** `out` lists the dirty assets of a shard once each, in any order; dirty ids without an
      asset are passed over. */
  ghost predicate DrainsShard(sh: Shard, out: seq<Snapshot>) {
    && (forall i, j :: 0 <= i < j < |out| ==> out[i].id != out[j].id)
    && (forall s <- out :: s.id in sh.dirty && s.id in sh.assets && sh.assets[s.id] == s)
    && (forall id <- sh.dirty :: id in sh.assets ==> sh.assets[id] in out)
  }

  /** `out` is a drain of the first n shards, one after the other. */
  ghost predicate Drains(st: Store, n: nat, out: seq<Snapshot>)
    requires n <= SHARD_COUNT
  {
    if n == 0 then out == []
    else exists k | 0 <= k <= |out| :: Drains(st, n - 1, out[..k]) && DrainsShard(st[n - 1], out[k..])
  }

  function CleanStore(st: Store): Store {
    seq(SHARD_COUNT, i requires 0 <= i < SHARD_COUNT => st[i].(dirty := {}))
  }

  // ---------- LoadSnapshots ----------

  predicate Loadable(s: Snapshot) { s.id != "" && s.mac != [] }

  /** The snapshots that are loaded into shard i, in their order. */
  function ForShard(snaps: seq<Snapshot>, i: nat): seq<Snapshot> {
    if snaps == [] then []
    else
      var s := snaps[|snaps| - 1];
      ForShard(snaps[..|snaps| - 1], i) + if Loadable(s) && ShardIndex(s.mac) == i then [s] else []
  }

  predicate Newer(sh: Shard, s: Snapshot) { s.id !in sh.assets || s.lastSeen > sh.assets[s.id].lastSeen }

  function LoadOne(sh: Shard, s: Snapshot): Shard {
    if Newer(sh, s) then sh.Put(s.id, s).Bind(s.id, s.mac) else sh
  }

  function LoadShard(sh: Shard, snaps: seq<Snapshot>): Shard {
    if snaps == [] then sh else LoadOne(LoadShard(sh, snaps[..|snaps| - 1]), snaps[|snaps| - 1])
  }

  function LoadedStore(st: Store, snaps: seq<Snapshot>): Store {
    seq(SHARD_COUNT, i requires 0 <= i < SHARD_COUNT => LoadShard(st[i], ForShard(snaps, i)))
  }

  /** How many of the snapshots are taken over into a shard. */
  function Adopted(sh: Shard, snaps: seq<Snapshot>): nat {
    if snaps == [] then 0
    else
      var front, s := snaps[..|snaps| - 1], snaps[|snaps| - 1];
      Adopted(sh, front) + if Newer(LoadShard(sh, front), s) then 1 else 0
  }

  /** How many are taken over into the first n shards. */
  ghost function AdoptedIn(st: Store, snaps: seq<Snapshot>, n: nat): nat
    requires n <= SHARD_COUNT
  {
    if n == 0 then 0 else AdoptedIn(st, snaps, n - 1) + Adopted(st[n - 1], ForShard(snaps, n - 1))
  }

  // ---------- the index invariant ----------

  /** Shard i: assets are filed under their own id, which is the key of an address that
      belongs to this shard, and both index maps bind exactly the ids that are present. */
  ghost predicate WfShard(sh: Shard, i: nat) {
    && sh.index.IdsAreKeys()
    && (forall id :: id in sh.index.byKey <==> id in sh.assets)
    && (forall id :: id in sh.assets ==> sh.assets[id].id == id && IsKey(id) && Home(id) == i)
  }

  ghost predicate Wf(st: Store) { forall i | 0 <= i < SHARD_COUNT :: WfShard(st[i], i) }

  /** A row found for an address: its id is the key of the address. */
  ghost predicate RowFor(row: Snapshot, mac: Mac) { row.id == MacKey(mac) && (row.mac == mac || row.mac == []) }

  ghost predicate GoodSnapshot(s: Snapshot) { Loadable(s) ==> s.id == MacKey(s.mac) }

  lemma PutKeepsWf(sh: Shard, i: nat, s: Snapshot, mac: Mac)
    requires WfShard(sh, i) && mac != [] && s.id == MacKey(mac) && i == ShardIndex(mac)
    ensures WfShard(sh.Put(s.id, s).Bind(s.id, mac), i)
  {
    hide Home, IsKey, MacKey, ShardIndex;
    HomeOfKey(mac);
    var k := MacKey(mac);
    var t := sh.Put(s.id, s).Bind(s.id, mac);
    assert t.index == Index(sh.index.byKey[k := k], sh.index.byId[k := k]);
    assert t.assets == sh.assets[k := s];
  }

  lemma MergedIdentity(g: Guesses, s: Snapshot, obs: Observation)
    ensures var t := Merged(g, s, obs);
      t.id == s.id && t.mac == s.mac && t.status == s.status && t.seenCount == s.seenCount + 1
  {
  }

  lemma UpdateKeepsWf(g: Guesses, sh: Shard, i: nat, obs: Observation)
    requires WfShard(sh, i) && obs.mac != [] && i == ShardIndex(obs.mac) && MacKey(obs.mac) in sh.assets
    ensures var o := Update(g, sh, obs, MacKey(obs.mac)); o.Done? && WfShard(o.shard, i)
  {
    hide Merged, ReviveChanges, Home, IsKey, MacKey, ShardIndex;
    var id := MacKey(obs.mac);
    MergedIdentity(g, sh.assets[id], obs);
    PutKeepsWf(sh, i, Revived(g, sh.assets[id], obs), obs.mac);
  }

  /** Hydrating and then merging is one write of the merged row; nothing but the dirty set
      tells that the asset was not there. */
  lemma HydratedUpdate(g: Guesses, sh: Shard, obs: Observation, row: Snapshot)
    requires obs.mac != [] && RowFor(row, obs.mac)
    ensures var o := Update(g, sh.Put(row.id, row).Bind(row.id, row.mac), obs, row.id);
      var bound := sh.Put(row.id, Revived(g, row, obs)).Bind(row.id, obs.mac);
      o == Done(if ReviveChanges(g, row, obs) then bound.MarkDirty(row.id) else bound, row.id, Updated)
  {
    hide Merged, ReviveChanges, Home, IsKey, MacKey, ShardIndex;
    var k := row.id;
    var put := sh.Put(k, row).Bind(k, row.mac);
    assert put.assets[k := Revived(g, row, obs)] == sh.assets[k := Revived(g, row, obs)];
    assert put.index.Bind(k, obs.mac) == sh.index.Bind(k, obs.mac) by {
      assert sh.index.byKey[k := k][k := k] == sh.index.byKey[k := k];
      assert sh.index.byId[k := k][k := k] == sh.index.byId[k := k];
    }
  }

  lemma HydrateKeepsWf(g: Guesses, sh: Shard, i: nat, obs: Observation, row: Snapshot)
    requires WfShard(sh, i) && obs.mac != [] && i == ShardIndex(obs.mac) && RowFor(row, obs.mac)
    ensures var o := Commit(g, sh, obs, None, Some(row)); o.Done? && WfShard(o.shard, i)
  {
    hide Merged, ReviveChanges, Home, IsKey, MacKey, ShardIndex;
    HydratedUpdate(g, sh, obs, row);
    MergedIdentity(g, row, obs);
    PutKeepsWf(sh, i, Revived(g, row, obs), obs.mac);
  }

  lemma CreateKeepsWf(g: Guesses, sh: Shard, i: nat, obs: Observation)
    requires WfShard(sh, i) && obs.mac != [] && i == ShardIndex(obs.mac)
    ensures var o := Commit(g, sh, obs, None, None); o.Done? && WfShard(o.shard, i)
  {
    hide Merged, ReviveChanges, Home, IsKey, MacKey, ShardIndex;
    var id := MacKey(obs.mac);
    MergedIdentity(g, Blank(id, obs.mac), obs);
    HomeOfKey(obs.mac);
    KeyNotEmpty(id);
    PutKeepsWf(sh, i, NewAsset(g, obs), obs.mac);
  }

  /** On a well-formed shard, with the answer Resolve gives now, the locked part of `Apply`
      always finds the asset it was told about. */
  lemma CommitKeepsWf(g: Guesses, sh: Shard, i: nat, obs: Observation, row: Option<Snapshot>)
    requires WfShard(sh, i) && obs.mac != [] && i == ShardIndex(obs.mac)
    requires row.Some? ==> RowFor(row.value, obs.mac)
    ensures var o := Commit(g, sh, obs, sh.index.Resolve(obs.mac), row); o.Done? && WfShard(o.shard, i)
  {
    if sh.index.Resolve(obs.mac).Some? {
      assert sh.index.Resolve(obs.mac) == Some(MacKey(obs.mac)) && MacKey(obs.mac) in sh.assets;
      hide *;
      UpdateKeepsWf(g, sh, i, obs);
    } else if row.Some? {
      hide *;
      HydrateKeepsWf(g, sh, i, obs, row.value);
    } else {
      hide *;
      CreateKeepsWf(g, sh, i, obs);
    }
  }

  lemma SweepKeepsWf(sh: Shard, i: nat, now: Time, offlineAfter: Duration)
    requires WfShard(sh, i)
    ensures WfShard(SweptShard(sh, now, offlineAfter), i)
  {
    hide Home, IsKey;
  }

  lemma EvictKeepsWf(sh: Shard, i: nat, now: Time, evictAfter: Duration)
    requires WfShard(sh, i)
    ensures WfShard(EvictedShard(sh, now, evictAfter), i)
  {
    hide Home, IsKey;
  }

  lemma {:induction false} LoadKeepsWf(sh: Shard, i: nat, snaps: seq<Snapshot>)
    requires WfShard(sh, i)
    requires forall s <- snaps :: s.mac != [] && s.id == MacKey(s.mac) && ShardIndex(s.mac) == i
    ensures WfShard(LoadShard(sh, snaps), i)
  {
    hide Home, IsKey, MacKey, ShardIndex;
    if snaps != [] {
      var front, s := snaps[..|snaps| - 1], snaps[|snaps| - 1];
      assert s in snaps && forall x <- front :: x in snaps;
      LoadKeepsWf(sh, i, front);
      if Newer(LoadShard(sh, front), s) {
        PutKeepsWf(LoadShard(sh, front), i, s, s.mac);
      }
    }
  }

  lemma {:induction false} ForShardIsGood(snaps: seq<Snapshot>, i: nat)
    requires forall s <- snaps :: GoodSnapshot(s)
    ensures forall s <- ForShard(snaps, i) :: s in snaps && s.mac != [] && s.id == MacKey(s.mac) && ShardIndex(s.mac) == i
  {
    hide MacKey, ShardIndex;
    if snaps != [] {
      var front, s := snaps[..|snaps| - 1], snaps[|snaps| - 1];
      assert s in snaps && forall x <- front :: x in snaps;
      ForShardIsGood(front, i);
      assert GoodSnapshot(s);
    }
  }

  // ---------- runs ----------

  type ShardId = i: int | 0 <= i < SHARD_COUNT

  /** One locked section on one shard, which is what other callers can come between. Apply
      carries what the hydrator finds for its address; the other calls of the manager take the
      shards one after the other. */
  datatype Op =
    | ApplyOp(obs: Observation, row: Option<Snapshot>)
    | SweepOp(i: ShardId, now: Time, offlineAfter: Duration)
    | EvictOp(i: ShardId, now: Time, evictAfter: Duration)
    | DrainOp(i: ShardId)
    | LoadOp(i: ShardId, snaps: seq<Snapshot>)

  /** Snapshots that are grouped under shard i. */
  ghost predicate GoodGroup(snaps: seq<Snapshot>, i: nat) {
    forall s <- snaps :: s.mac != [] && s.id == MacKey(s.mac) && ShardIndex(s.mac) == i
  }

  ghost predicate GoodOp(op: Op) {
    match op
    case ApplyOp(obs, row) => row.Some? ==> RowFor(row.value, obs.mac)
    case LoadOp(i, snaps) => GoodGroup(snaps, i)
    case _ => true
  }

  /** A shard after a section other than that of Apply. */
  function Section(sh: Shard, op: Op): Shard
    requires !op.ApplyOp?
  {
    match op
    case SweepOp(_, now, offlineAfter) => SweptShard(sh, now, offlineAfter)
    case EvictOp(_, now, evictAfter) => EvictedShard(sh, now, evictAfter)
    case DrainOp(_) => sh.(dirty := {})
    case LoadOp(_, snaps) => LoadShard(sh, snaps)
  }

  /** The store after one section, or None when it crashed. */
  ghost function Step(g: Guesses, st: Store, op: Op): Option<Store> {
    match op
    case ApplyOp(obs, row) =>
      var o := Apply(g, st, obs, row);
      if o.Crashed? then None else Some(After(st, obs.mac, o))
    case _ => Some(st[op.i := Section(st[op.i], op)])
  }

  ghost function RunFrom(g: Guesses, st: Store, ops: seq<Op>): Option<Store> {
    if ops == [] then Some(st)
    else
      var before := RunFrom(g, st, ops[..|ops| - 1]);
      if before.None? then None else Step(g, before.value, ops[|ops| - 1])
  }

  ghost function Run(g: Guesses, ops: seq<Op>): Option<Store> { RunFrom(g, EmptyStore(), ops) }

  lemma SectionKeepsWf(sh: Shard, op: Op)
    requires !op.ApplyOp? && GoodOp(op) && WfShard(sh, op.i)
    ensures WfShard(Section(sh, op), op.i)
  {
    hide WfShard, EvictedShard, SweptShard, LoadShard, MacKey, ShardIndex;
    match op
    case SweepOp(i, now, offlineAfter) => SweepKeepsWf(sh, i, now, offlineAfter);
    case EvictOp(i, now, evictAfter) => EvictKeepsWf(sh, i, now, evictAfter);
    case DrainOp(i) => CleanKeepsWf(sh, i);
    case LoadOp(i, snaps) => LoadKeepsWf(sh, i, snaps);
  }

  lemma StepKeepsWf(g: Guesses, st: Store, op: Op)
    requires Wf(st) && GoodOp(op)
    ensures Step(g, st, op).Some? && Wf(Step(g, st, op).value)
  {
    hide MacKey, ShardIndex, Commit, Section, WfShard;
    match op
    case ApplyOp(obs, row) =>
      if obs.Valid() {
        CommitKeepsWf(g, st[ShardIndex(obs.mac)], ShardIndex(obs.mac), obs, row);
      }
    case _ => SectionKeepsWf(st[op.i], op);
  }

  // ---------- whole calls ----------

  /** The sections of a call that nobody comes between. */
  function SweepCall(now: Time, offlineAfter: Duration): seq<Op> {
    seq(SHARD_COUNT, i requires 0 <= i < SHARD_COUNT => SweepOp(i, now, offlineAfter))
  }

  function EvictCall(now: Time, evictAfter: Duration): seq<Op> {
    seq(SHARD_COUNT, i requires 0 <= i < SHARD_COUNT => EvictOp(i, now, evictAfter))
  }

  function DrainCall(): seq<Op> { seq(SHARD_COUNT, i requires 0 <= i < SHARD_COUNT => DrainOp(i)) }

  function LoadCall(snaps: seq<Snapshot>): seq<Op> {
    seq(SHARD_COUNT, i requires 0 <= i < SHARD_COUNT => LoadOp(i, ForShard(snaps, i)))
  }

  ghost predicate OnePerShard(ops: seq<Op>) {
    |ops| <= SHARD_COUNT && forall i | 0 <= i < |ops| :: !ops[i].ApplyOp? && ops[i].i == i
  }

  /** Sections that go through the shards in order. */
  lemma {:induction false} ShardByShard(g: Guesses, st: Store, ops: seq<Op>)
    requires OnePerShard(ops)
    ensures RunFrom(g, st, ops).Some?
    ensures forall j | 0 <= j < SHARD_COUNT ::
      RunFrom(g, st, ops).value[j] == if j < |ops| then Section(st[j], ops[j]) else st[j]
  {
    hide Section;
    if ops != [] {
      ShardByShard(g, st, ops[..|ops| - 1]);
    }
  }

  /** With nobody in between, the sections of a call add up to the call on the whole store. */
  lemma CallsAddUp(g: Guesses, st: Store, now: Time, d: Duration, snaps: seq<Snapshot>)
    ensures RunFrom(g, st, SweepCall(now, d)) == Some(SweptStore(st, now, d))
    ensures RunFrom(g, st, EvictCall(now, d)) == Some(EvictedStore(st, now, d))
    ensures RunFrom(g, st, DrainCall()) == Some(CleanStore(st))
    ensures RunFrom(g, st, LoadCall(snaps)) == Some(LoadedStore(st, snaps))
  {
    hide RunFrom, SweptShard, EvictedShard, LoadShard, ForShard;
    ShardByShard(g, st, SweepCall(now, d));
    ShardByShard(g, st, EvictCall(now, d));
    ShardByShard(g, st, DrainCall());
    ShardByShard(g, st, LoadCall(snaps));
    assert RunFrom(g, st, SweepCall(now, d)).value == SweptStore(st, now, d);
    assert RunFrom(g, st, EvictCall(now, d)).value == EvictedStore(st, now, d);
    assert RunFrom(g, st, DrainCall()).value == CleanStore(st);
    assert RunFrom(g, st, LoadCall(snaps)).value == LoadedStore(st, snaps);
  }

  lemma LoadCallIsGood(snaps: seq<Snapshot>)
    requires forall s <- snaps :: GoodSnapshot(s)
    ensures forall op <- LoadCall(snaps) :: GoodOp(op)
  {
    hide ForShard, MacKey, ShardIndex;
    forall i | 0 <= i < SHARD_COUNT ensures GoodOp(LoadCall(snaps)[i]) {
      ForShardIsGood(snaps, i);
    }
  }

  /** Whole calls keep the invariant. */
  lemma CallsKeepWf(st: Store, now: Time, d: Duration, snaps: seq<Snapshot>)
    requires Wf(st)
    ensures Wf(SweptStore(st, now, d)) && Wf(EvictedStore(st, now, d)) && Wf(CleanStore(st))
    ensures (forall s <- snaps :: GoodSnapshot(s)) ==> Wf(LoadedStore(st, snaps))
  {
    var g := Guesses(_ => "", (_, _) => "", (_, _) => "");
    hide Wf, RunFrom, SweptStore, EvictedStore, CleanStore, LoadedStore, GoodSnapshot, ForShard;
    CallsAddUp(g, st, now, d, snaps);
    RunKeepsWf(g, st, SweepCall(now, d));
    RunKeepsWf(g, st, EvictCall(now, d));
    RunKeepsWf(g, st, DrainCall());
    if forall s <- snaps :: GoodSnapshot(s) {
      LoadCallIsGood(snaps);
      RunKeepsWf(g, st, LoadCall(snaps));
    }
  }

  lemma CleanKeepsWf(sh: Shard, i: nat)
    requires WfShard(sh, i)
    ensures WfShard(sh.(dirty := {}), i)
  {
  }

  /** Every run of sections, of however many calls, keeps the index invariant, and none of
      them crashes. */
  lemma {:induction false} RunKeepsWf(g: Guesses, st: Store, ops: seq<Op>)
    requires Wf(st) && forall op <- ops :: GoodOp(op)
    ensures RunFrom(g, st, ops).Some? && Wf(RunFrom(g, st, ops).value)
  {
    hide Step, Wf, GoodOp;
    if ops != [] {
      RunKeepsWf(g, st, ops[..|ops| - 1]);
      StepKeepsWf(g, RunFrom(g, st, ops[..|ops| - 1]).value, ops[|ops| - 1]);
    }
  }

  lemma EmptyIsWf()
    ensures Wf(EmptyStore())
  {
    hide Home, IsKey;
  }

  /** What the invariant gives: an address resolves iff its asset is in the shard of the
      address, to the key of the address; an id is in no other shard; and the two maps of
      every shard are inverse to each other. */
  lemma IndexAgreement(g: Guesses, ops: seq<Op>, mac: Mac)
    requires mac != [] && forall op <- ops :: GoodOp(op)
    ensures Run(g, ops).Some?
    ensures var st, id := Run(g, ops).value, MacKey(mac);
      && (Resolve(st, mac).Some? <==> id in st[ShardIndex(mac)].assets)
      && (Resolve(st, mac).Some? ==> Resolve(st, mac).value == id)
      && (forall i | 0 <= i < SHARD_COUNT :: i != ShardIndex(mac) ==> id !in st[i].assets && id !in st[i].index.byId)
      && (forall i | 0 <= i < SHARD_COUNT :: st[i].index.Inverse() && st[i].index.byId.Keys == st[i].assets.Keys)
  {
    EmptyIsWf();
    RunKeepsWf(g, EmptyStore(), ops);
    hide Home, IsKey, MacKey, ShardIndex, Run, GoodOp;
    HomeOfKey(mac);
    var st := Run(g, ops).value;
    forall i | 0 <= i < SHARD_COUNT ensures st[i].index.Inverse() && st[i].index.byId.Keys == st[i].assets.Keys {
      assert WfShard(st[i], i);
    }
    assert WfShard(st[ShardIndex(mac)], ShardIndex(mac));
  }
}
