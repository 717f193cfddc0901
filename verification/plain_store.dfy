/** The store as its users see it: one map of assets and one dirty set. The sharded store
    represents it, and every locked section on a shard is a plain operation on the assets whose
    home that shard is. */
module PlainStore {
  import opened Clock
  import opened MacAddress
  import opened AssetModel
  import opened Merging
  import opened Resolver
  import opened Store
  import opened Linearization

  datatype Plain = Plain(assets: map<AssetId, Snapshot>, dirty: set<AssetId>)

  ghost function PlainLoad(assets: map<AssetId, Snapshot>, snaps: seq<Snapshot>): map<AssetId, Snapshot> {
    if snaps == [] then assets
    else
      var before, s := PlainLoad(assets, snaps[..|snaps| - 1]), snaps[|snaps| - 1];
      if Loadable(s) && (s.id in before ==> s.lastSeen > before[s.id].lastSeen) then before[s.id := s] else before
  }

  ghost function PlainStep(g: Guesses, p: Plain, op: Op): Plain {
    match op
    case ApplyOp(obs, row) =>
      if !obs.Valid() then p
      else
        var k := MacKey(obs.mac);
        var current := Lookup(p.assets, k);
        Plain(p.assets[k := NewContents(g, current, obs, row)],
              if RaisesDirty(g, current, obs, row) then p.dirty + {k} else p.dirty)
    case SweepOp(i, now, offlineAfter) =>
      Plain(map id | id in p.assets :: if Home(id) == i then Swept(p.assets[id], now, offlineAfter) else p.assets[id],
            p.dirty + set id | id in p.assets && Home(id) == i && Swept(p.assets[id], now, offlineAfter) != p.assets[id])
    case EvictOp(i, now, evictAfter) =>
      p.(assets := p.assets - set id | id in p.assets && Home(id) == i && Stale(p.assets[id], now, evictAfter))
    case DrainOp(i) => p.(dirty := set id | id in p.dirty && Home(id) != i)
    case LoadOp(_, snaps) => p.(assets := PlainLoad(p.assets, snaps))
  }

  /** The locked section of a caller that was told that there is no asset: what it hydrates or
      creates is there after it, whatever was there before. */
  ghost function PlainEnter(g: Guesses, p: Plain, obs: Observation, row: Option<Snapshot>): Plain {
    var k := MacKey(obs.mac);
    Plain(p.assets[k := NewContents(g, None, obs, row)], if RaisesDirty(g, None, obs, row) then p.dirty + {k} else p.dirty)
  }

  /** Where nothing was, that is an apply. */
  lemma EnterIsApply(g: Guesses, p: Plain, obs: Observation, row: Option<Snapshot>)
    requires obs.Valid() && MacKey(obs.mac) !in p.assets
    ensures PlainStep(g, p, ApplyOp(obs, row)) == PlainEnter(g, p, obs, row)
  {
    hide MacKey, NewContents, RaisesDirty;
  }

  /** Shard i is the part of the plain store whose ids have their home there. */
  ghost predicate Part(p: Plain, sh: Shard, i: nat) {
    && (forall id :: id in sh.assets <==> id in p.assets && Home(id) == i)
    && (forall id :: id in sh.assets ==> sh.assets[id] == p.assets[id])
    && (forall id :: id in sh.dirty <==> id in p.dirty && Home(id) == i)
  }

  ghost predicate Represents(st: Store, p: Plain) {
    Wf(st) && forall i | 0 <= i < SHARD_COUNT :: Part(p, st[i], i)
  }

  /** A write on one shard, seen from its own shard and from the others. */
  lemma WritePart(sh: Shard, p: Plain, mac: Mac, s: Snapshot, mark: bool)
    requires Part(p, sh, ShardIndex(mac)) && mac != []
    ensures Part(Plain(p.assets[MacKey(mac) := s], if mark then p.dirty + {MacKey(mac)} else p.dirty),
                 Written(sh, mac, s, mark), ShardIndex(mac))
  {
    hide Home, MacKey, ShardIndex;
    HomeOfKey(mac);
  }

  lemma WriteElsewhere(sh: Shard, p: Plain, mac: Mac, s: Snapshot, mark: bool, i: nat)
    requires Part(p, sh, i) && mac != [] && i != ShardIndex(mac)
    ensures Part(Plain(p.assets[MacKey(mac) := s], if mark then p.dirty + {MacKey(mac)} else p.dirty), sh, i)
  {
    hide Home, MacKey, ShardIndex;
    HomeOfKey(mac);
  }

  lemma CurrentIsPlain(st: Store, p: Plain, mac: Mac)
    requires Represents(st, p) && mac != []
    ensures Current(st, mac) == Lookup(p.assets, MacKey(mac))
  {
    hide Home, IsKey, MacKey, ShardIndex, Wf;
    HomeOfKey(mac);
    assert Part(p, st[ShardIndex(mac)], ShardIndex(mac));
  }

  lemma ApplyPart(g: Guesses, st: Store, p: Plain, obs: Observation, row: Option<Snapshot>, i: nat)
    requires Represents(st, p) && obs.Valid() && GoodOp(ApplyOp(obs, row)) && i < SHARD_COUNT
    ensures var after := Step(g, st, ApplyOp(obs, row));
      after.Some? && Part(PlainStep(g, p, ApplyOp(obs, row)), after.value[i], i)
  {
    assert Part(p, st[i], i) && Wf(st);
    hide Apply, NewContents, RaisesDirty, MacKey, ShardIndex, Wf, Part, Written, Step, Current, Represents, Lookup;
    StepIsWrite(g, st, obs, row);
    CurrentIsPlain(st, p, obs.mac);
    var current := Current(st, obs.mac);
    var s, mark := NewContents(g, current, obs, row), RaisesDirty(g, current, obs, row);
    if i == ShardIndex(obs.mac) {
      WritePart(st[i], p, obs.mac, s, mark);
    } else {
      WriteElsewhere(st[i], p, obs.mac, s, mark, i);
    }
  }

  /** And so is the locked section of a caller that was told that there is no asset. */
  lemma EnterIsPlain(g: Guesses, st: Store, p: Plain, obs: Observation, row: Option<Snapshot>)
    requires Represents(st, p) && obs.Valid() && GoodOp(ApplyOp(obs, row))
    ensures var o := Commit(g, st[ShardIndex(obs.mac)], obs, None, row);
      o.Done? && Represents(After(st, obs.mac, o), PlainEnter(g, p, obs, row))
  {
    hide MacKey, ShardIndex, WfShard, Part, Written, NewContents, RaisesDirty, Commit, RowFor;
    var j: ShardId := ShardIndex(obs.mac);
    EnterIsWrite(g, st[j], obs, row);
    EnterKeepsWf(g, st[j], j, obs, row);
    var o := Commit(g, st[j], obs, None, row);
    var s, mark := NewContents(g, None, obs, row), RaisesDirty(g, None, obs, row);
    forall i | 0 <= i < SHARD_COUNT ensures Part(PlainEnter(g, p, obs, row), After(st, obs.mac, o)[i], i) {
      if i == j {
        WritePart(st[i], p, obs.mac, s, mark);
      } else {
        WriteElsewhere(st[i], p, obs.mac, s, mark, i);
      }
    }
  }

  lemma EnterKeepsWf(g: Guesses, sh: Shard, i: ShardId, obs: Observation, row: Option<Snapshot>)
    requires WfShard(sh, i) && obs.Valid() && i == ShardIndex(obs.mac) && GoodOp(ApplyOp(obs, row))
    ensures var o := Commit(g, sh, obs, None, row); o.Done? && WfShard(o.shard, i)
  {
    hide WfShard, Commit, RowFor, ShardIndex, MacKey;
    match row
    case Some(s) => HydrateKeepsWf(g, sh, i, obs, s);
    case None => CreateKeepsWf(g, sh, i, obs);
  }

  lemma SweepPart(g: Guesses, sh: Shard, p: Plain, op: Op, i: nat)
    requires op.SweepOp? && Part(p, sh, i)
    ensures Part(PlainStep(g, p, op), if i == op.i then Section(sh, op) else sh, i)
  {
    hide Home, Swept;
  }

  lemma EvictPart(g: Guesses, sh: Shard, p: Plain, op: Op, i: nat)
    requires op.EvictOp? && Part(p, sh, i)
    ensures Part(PlainStep(g, p, op), if i == op.i then Section(sh, op) else sh, i)
  {
    hide Home, Stale;
  }

  lemma DrainPart(g: Guesses, sh: Shard, p: Plain, op: Op, i: nat)
    requires op.DrainOp? && Part(p, sh, i)
    ensures Part(PlainStep(g, p, op), if i == op.i then Section(sh, op) else sh, i)
  {
    hide Home;
  }

  lemma {:induction false} LoadPart(sh: Shard, p: Plain, snaps: seq<Snapshot>, j: nat, i: nat)
    requires Part(p, sh, i) && GoodGroup(snaps, j)
    ensures Part(p.(assets := PlainLoad(p.assets, snaps)), if i == j then LoadShard(sh, snaps) else sh, i)
  {
    hide Home, MacKey, ShardIndex;
    if snaps != [] {
      var front, s := snaps[..|snaps| - 1], snaps[|snaps| - 1];
      assert s in snaps && forall x <- front :: x in snaps;
      LoadPart(sh, p, front, j, i);
      HomeOfKey(s.mac);
      KeyNotEmpty(s.id);
      LoadOnePart(if i == j then LoadShard(sh, front) else sh, p.(assets := PlainLoad(p.assets, front)), s, j, i);
    }
  }

  lemma LoadOnePart(sh: Shard, p: Plain, s: Snapshot, j: nat, i: nat)
    requires Part(p, sh, i) && Home(s.id) == j
    ensures
      Part(p.(assets := if s.id in p.assets ==> s.lastSeen > p.assets[s.id].lastSeen then p.assets[s.id := s] else p.assets),
           if i == j then LoadOne(sh, s) else sh, i)
  {
    hide Home, MacKey;
  }

  lemma SectionPart(g: Guesses, sh: Shard, p: Plain, op: Op, i: nat)
    requires !op.ApplyOp? && GoodOp(op) && Part(p, sh, i)
    ensures Part(PlainStep(g, p, op), if i == op.i then Section(sh, op) else sh, i)
  {
    match op
    case SweepOp(_, _, _) => SweepPart(g, sh, p, op, i);
    case EvictOp(_, _, _) => EvictPart(g, sh, p, op, i);
    case DrainOp(_) => DrainPart(g, sh, p, op, i);
    case LoadOp(j, snaps) =>
      hide Part, Home, LoadShard, PlainLoad, MacKey, ShardIndex;
      LoadPart(sh, p, snaps, j, i);
  }

  /** Every section on a shard is the plain operation. */
  lemma StepIsPlain(g: Guesses, st: Store, p: Plain, op: Op)
    requires Represents(st, p) && GoodOp(op)
    ensures Step(g, st, op).Some? && Represents(Step(g, st, op).value, PlainStep(g, p, op))
  {
    StepKeepsWf(g, st, op);
    hide Wf, Part, Home, MacKey, ShardIndex, Section, GoodOp, PlainLoad;
    var after, q := Step(g, st, op).value, PlainStep(g, p, op);
    if op.ApplyOp? && !op.obs.Valid() {
      hide *;
    } else {
      forall i | 0 <= i < SHARD_COUNT ensures Part(q, after[i], i) {
        if op.ApplyOp? {
          ApplyPart(g, st, p, op.obs, op.row, i);
        } else {
          SectionPart(g, st[i], p, op, i);
        }
      }
    }
  }

  ghost function PlainRun(g: Guesses, p: Plain, ops: seq<Op>): Plain {
    if ops == [] then p else PlainStep(g, PlainRun(g, p, ops[..|ops| - 1]), ops[|ops| - 1])
  }

  lemma {:induction false} RunIsPlain(g: Guesses, st: Store, p: Plain, ops: seq<Op>)
    requires Represents(st, p) && forall op <- ops :: GoodOp(op)
    ensures RunFrom(g, st, ops).Some? && Represents(RunFrom(g, st, ops).value, PlainRun(g, p, ops))
  {
    hide Represents, Step, GoodOp;
    if ops != [] {
      RunIsPlain(g, st, p, ops[..|ops| - 1]);
      StepIsPlain(g, RunFrom(g, st, ops[..|ops| - 1]).value, PlainRun(g, p, ops[..|ops| - 1]), ops[|ops| - 1]);
    }
  }

  lemma {:induction false} LinearOpsAreGood(g: Guesses, w: World, events: seq<Event>)
    requires Wf(w.store) && w.flights == map[] && AllUpToDate(g, w, events)
    ensures forall op <- Linear(g, w, events) :: GoodOp(op)
  {
    hide Happen, Wf, GoodOp;
    if events != [] {
      LinearOpsAreGood(g, w, events[..|events| - 1]);
    }
  }

  /** Interleaved callers that are up to date when they take the lock leave the shards as the
      same calls leave one plain map. */
  lemma SchedulesArePlain(g: Guesses, st: Store, p: Plain, events: seq<Event>)
    requires Represents(st, p) && AllUpToDate(g, World(st, map[]), events)
    ensures var after, ops := Schedule(g, World(st, map[]), events), Linear(g, World(st, map[]), events);
      after.Some? && Represents(after.value.store, PlainRun(g, p, ops))
  {
    var w := World(st, map[]);
    assert Wf(st);
    hide *;
    SchedulesLinearize(g, w, events);
    LinearOpsAreGood(g, w, events);
    RunIsPlain(g, st, p, Linear(g, w, events));
  }

  // ---------- drains ----------

  /** The drain of a shard in plain terms: every dirty asset whose home it is once, as it is
      now. */
  ghost predicate PlainDrain(p: Plain, i: ShardId, out: seq<Snapshot>) {
    && (forall k, l :: 0 <= k < l < |out| ==> out[k].id != out[l].id)
    && (forall s <- out :: s.id in p.dirty && Home(s.id) == i && s.id in p.assets && p.assets[s.id] == s)
    && (forall id <- p.dirty :: Home(id) == i && id in p.assets ==> p.assets[id] in out)
  }

  /** What `DrainDirty` collects from a shard is such a drain. */
  lemma DrainIsPlain(st: Store, p: Plain, i: ShardId, out: seq<Snapshot>)
    requires Represents(st, p) && DrainsShard(st[i], out)
    ensures PlainDrain(p, i, out)
  {
    hide Wf, Home;
    assert Part(p, st[i], i);
  }

  /** `out` has each dirty asset of the first n shards once. */
  ghost predicate HasDirty(st: Store, n: nat, out: seq<Snapshot>)
    requires n <= SHARD_COUNT
  {
    && (forall k, l :: 0 <= k < l < |out| ==> out[k].id != out[l].id)
    && (forall s <- out :: Home(s.id) < n && s.id in st[Home(s.id)].dirty && Lookup(st[Home(s.id)].assets, s.id) == Some(s))
    && (forall i, id | 0 <= i < n && id in st[i].dirty && id in st[i].assets :: st[i].assets[id] in out)
  }

  lemma ShardDrained(st: Store, i: ShardId, out: seq<Snapshot>)
    requires WfShard(st[i], i) && DrainsShard(st[i], out)
    ensures forall s <- out :: Home(s.id) == i && s.id in st[i].dirty && Lookup(st[i].assets, s.id) == Some(s)
  {
    hide Home, IsKey;
  }

  lemma OneMoreDrained(st: Store, i: ShardId, front: seq<Snapshot>, out: seq<Snapshot>)
    requires HasDirty(st, i, front) && DrainsShard(st[i], out)
    requires forall s <- out :: Home(s.id) == i && s.id in st[i].dirty && Lookup(st[i].assets, s.id) == Some(s)
    ensures HasDirty(st, i + 1, front + out)
  {
    hide Home;
    var all := front + out;
    assert forall x :: x in all <==> x in front || x in out;
    forall j, l | 0 <= j < l < |all| ensures all[j].id != all[l].id {
      assert all[j] == if j < |front| then front[j] else out[j - |front|];
      assert all[l] == if l < |front| then front[l] else out[l - |front|];
      if j < |front| <= l {
        assert Home(front[j].id) < i && Home(out[l - |front|].id) == i;
      }
    }
  }

  lemma {:induction false} DrainedFirst(st: Store, n: nat, out: seq<Snapshot>)
    requires Wf(st) && n <= SHARD_COUNT && Drains(st, n, out)
    ensures HasDirty(st, n, out)
  {
    hide Home, WfShard, HasDirty, DrainsShard;
    if n == 0 {
      NothingDrained(st);
    } else {
      var k :| 0 <= k <= |out| && Drains(st, n - 1, out[..k]) && DrainsShard(st[n - 1], out[k..]);
      DrainedFirst(st, n - 1, out[..k]);
      ShardDrained(st, n - 1, out[k..]);
      OneMoreDrained(st, n - 1, out[..k], out[k..]);
      assert out == out[..k] + out[k..];
    }
  }

  lemma NothingDrained(st: Store)
    ensures HasDirty(st, 0, [])
  {
  }

  lemma CleanPart(sh: Shard, p: Plain, i: nat)
    requires Part(p, sh, i)
    ensures Part(Plain(p.assets, {}), sh.(dirty := {}), i)
  {
    hide Home;
  }

  lemma CleanIsPlain(st: Store, p: Plain)
    requires Represents(st, p)
    ensures Represents(CleanStore(st), Plain(p.assets, {}))
  {
    hide WfShard, Part;
    forall i | 0 <= i < SHARD_COUNT ensures WfShard(CleanStore(st)[i], i) && Part(Plain(p.assets, {}), CleanStore(st)[i], i) {
      CleanKeepsWf(st[i], i);
      CleanPart(st[i], p, i);
    }
  }

  /** What `DrainDirty` answers: every dirty asset of the plain store once, as it is now; and then
      nothing is dirty. */
  lemma DrainedAll(st: Store, p: Plain, out: seq<Snapshot>)
    requires Represents(st, p) && Drains(st, SHARD_COUNT, out)
    ensures forall k, l :: 0 <= k < l < |out| ==> out[k].id != out[l].id
    ensures forall s :: s in out <==> s.id in p.dirty && Lookup(p.assets, s.id) == Some(s)
    ensures Represents(CleanStore(st), Plain(p.assets, {}))
  {
    hide Wf, Home, Drains;
    CleanIsPlain(st, p);
    DrainedFirst(st, SHARD_COUNT, out);
    forall s ensures s in out <==> s.id in p.dirty && Lookup(p.assets, s.id) == Some(s) {
      var i := Home(s.id);
      assert Part(p, st[i], i);
    }
  }
}
