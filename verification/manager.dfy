/** The `Manager` of internal/asset/manager.go as it works in place: shared assets in sharded
    maps, beside the sharded resolver. Every method is proved against the operations on
    values in module Store. */
module Manager {
  import opened Clock
  import opened MacAddress
  import opened AssetModel
  import opened Merging
  import opened Resolver
  import S = Store
  import opened Linearization

  lemma LoadNothing(sh: S.Shard)
    ensures S.LoadShard(sh, []) == sh
  {
  }

  lemma {:induction false} LoadKeepsDirty(sh: S.Shard, snaps: seq<Snapshot>)
    ensures S.LoadShard(sh, snaps).dirty == sh.dirty
  {
    if snaps != [] {
      LoadKeepsDirty(sh, snaps[..|snaps| - 1]);
    }
  }

  lemma StaleIs(sh: S.Shard, id: AssetId, now: Time, evictAfter: Duration)
    requires id in sh.assets
    ensures id in S.StaleIds(sh, now, evictAfter) <==> sh.assets[id].status == Offline && Sub(now, sh.assets[id].lastSeen) > evictAfter
  {
  }

  lemma StaleAreThere(sh: S.Shard, now: Time, evictAfter: Duration)
    ensures S.StaleIds(sh, now, evictAfter) <= sh.assets.Keys
  {
  }

  /** The first `n` stale ids are gone, those in `todo` are still to be looked at. */
  ghost predicate Parted(gone: set<AssetId>, stale: set<AssetId>, todo: set<AssetId>, n: nat) {
    gone == stale - todo && n == |gone|
  }

  lemma LookedAt(gone: set<AssetId>, stale: set<AssetId>, todo: set<AssetId>, n: nat, id: AssetId)
    requires Parted(gone, stale, todo, n) && id in todo
    ensures id !in gone
    ensures if id in stale then Parted(gone + {id}, stale, todo - {id}, n + 1) else Parted(gone, stale, todo - {id}, n)
  {
    assert id in stale ==> |gone + {id}| == n + 1;
  }

  lemma AllLookedAt(gone: set<AssetId>, stale: set<AssetId>, todo: set<AssetId>, n: nat)
    ensures stale <= todo ==> Parted({}, stale, todo, 0)
    ensures Parted(gone, stale, {}, n) ==> gone == stale && n == |stale|
  {
  }

  /** The cells hold what the shard value holds. */
  ghost predicate CellsHold(cells: map<AssetId, Asset>, sh: S.Shard)
    reads set id | id in cells :: cells[id]
  {
    cells.Keys == sh.assets.Keys && forall id <- cells.Keys :: cells[id].Contents() == sh.assets[id]
  }

  lemma StaleAmong(cells: map<AssetId, Asset>, sh: S.Shard, now: Time, evictAfter: Duration)
    requires CellsHold(cells, sh)
    ensures S.StaleIds(sh, now, evictAfter) <= cells.Keys
  {
    hide S.StaleIds;
    StaleAreThere(sh, now, evictAfter);
  }

  lemma UnbindNone(x: Index)
    ensures S.UnbindAll(x, {}) == x
  {
  }

  /** The order in which ids are unbound does not matter. */
  lemma UnbindOneMore(x: Index, ids: set<AssetId>, id: AssetId)
    requires id !in ids
    ensures S.UnbindAll(x, ids).Unbind(id) == S.UnbindAll(x, ids + {id})
  {
  }

  /** Binding a hydrated id to its row's address, if it was read, and then to the observed
      one is binding it once. */
  lemma BindAgain(x: Index, k: AssetId, first: Mac, second: Mac)
    requires k == MacKey(second) && (first == second || first == [])
    ensures x.Bind(k, first).Bind(k, second) == x.Bind(k, second)
  {
    hide MacKey;
    assert x.byKey[k := k][k := k] == x.byKey[k := k] && x.byId[k := k][k := k] == x.byId[k := k];
  }

  lemma MergedStatus(g: Guesses, s: Snapshot, obs: Observation)
    ensures Merged(g, s, obs).status == s.status
  {
  }

  class Manager {
    const resolver: ShardedResolver
    const guesses: Guesses
    var assets: seq<map<AssetId, Asset>>
    var dirty: seq<set<AssetId>>

    /** The assets that the shards point to. */
    ghost function Cells(): set<Asset>
      reads this
    {
      set i, id | 0 <= i < |assets| && id in assets[i] :: assets[i][id]
    }

    ghost predicate Shape()
      reads this, resolver
    {
      && |assets| == SHARD_COUNT && |dirty| == SHARD_COUNT && resolver.Valid()
      && (forall i, id :: 0 <= i < SHARD_COUNT && id in assets[i] ==> assets[i][id].id == id)
    }

    ghost function ContentsOf(i: nat): map<AssetId, Snapshot>
      requires i < |assets|
      reads this, Cells()
    {
      map id | id in assets[i] :: assets[i][id].Contents()
    }

    /** The store on values that this manager represents. */
    ghost function View(): S.Store
      requires Shape()
      reads this, resolver, Cells()
    {
      seq(SHARD_COUNT, i requires 0 <= i < SHARD_COUNT && Shape() reads this, resolver, Cells() =>
        S.Shard(ContentsOf(i), dirty[i], resolver.shards[i]))
    }

    ghost predicate Valid()
      reads this, resolver, Cells()
    {
      Shape() && S.Wf(View())
    }

    constructor (guesses: Guesses)
      ensures Valid() && fresh(resolver) && Cells() == {} && this.guesses == guesses
      ensures View() == S.EmptyStore()
    {
      this.guesses := guesses;
      resolver := new ShardedResolver();
      assets := seq(SHARD_COUNT, i => map[]);
      dirty := seq(SHARD_COUNT, i => {});
      new;
      S.EmptyIsWf();
      assert View() == S.EmptyStore();
    }

    /** An asset has one place only. */
    lemma OnePlace(i: nat, j: nat, id: AssetId, other: AssetId)
      requires Valid() && i < SHARD_COUNT && j < SHARD_COUNT && id in assets[i] && other in assets[j]
      ensures assets[i][id] == assets[j][other] ==> i == j && id == other
    {
      hide Home, IsKey;
      assert S.WfShard(View()[i], i) && S.WfShard(View()[j], j);
      assert id in View()[i].assets && other in View()[j].assets;
    }

    /** Merges an observation into an existing asset and brings it back online. */
    method Revive(a: Asset, obs: Observation) returns (changed: bool)
      modifies a
      ensures a.Contents() == S.Revived(guesses, old(a.Contents()), obs)
      ensures changed <==> S.ReviveChanges(guesses, old(a.Contents()), obs)
    {
      hide Merged, MergeChanges;
      MergedStatus(guesses, a.Contents(), obs);
      changed := a.MergeInto(guesses, obs);
      if a.status == Offline {
        a.status := Online;
        changed := true;
      }
    }

    /** The view, said shard by shard and asset by asset. */
    lemma ViewIs(st: S.Store)
      requires Shape()
      requires forall j, id :: 0 <= j < SHARD_COUNT ==> (id in assets[j] <==> id in st[j].assets)
      requires forall j, id :: 0 <= j < SHARD_COUNT && id in assets[j] ==> assets[j][id].Contents() == st[j].assets[id]
      requires forall j | 0 <= j < SHARD_COUNT :: st[j].dirty == dirty[j] && st[j].index == resolver.shards[j]
      ensures View() == st
    {
      forall j | 0 <= j < SHARD_COUNT ensures View()[j] == st[j] {
        assert ContentsOf(j) == st[j].assets;
      }
    }

    /** The view, looked at shard by shard and asset by asset. */
    lemma ViewAt()
      requires Shape()
      ensures forall j, id :: 0 <= j < SHARD_COUNT ==> (id in View()[j].assets <==> id in assets[j])
      ensures forall j, id :: 0 <= j < SHARD_COUNT && id in assets[j] ==> View()[j].assets[id] == assets[j][id].Contents()
      ensures forall j | 0 <= j < SHARD_COUNT :: View()[j].dirty == dirty[j] && View()[j].index == resolver.shards[j]
    {
    }

    /** The view after the asset of one address was written. */
    lemma WrittenView(view: S.Store, mac: Mac, s: Snapshot, mark: bool)
      requires Shape()
      requires forall j, id :: 0 <= j < SHARD_COUNT ==>
        (id in assets[j] <==> id in view[j].assets || (j == ShardIndex(mac) && id == MacKey(mac)))
      requires forall j, id :: 0 <= j < SHARD_COUNT && id in assets[j] ==>
        assets[j][id].Contents() == if j == ShardIndex(mac) && id == MacKey(mac) then s else view[j].assets[id]
      requires forall j | 0 <= j < SHARD_COUNT ::
        dirty[j] == if j == ShardIndex(mac) && mark then view[j].dirty + {MacKey(mac)} else view[j].dirty
      requires forall j | 0 <= j < SHARD_COUNT ::
        resolver.shards[j] == if j == ShardIndex(mac) then view[j].index.Bind(MacKey(mac), mac) else view[j].index
      ensures View() == WrittenStore(view, mac, s, mark)
    {
      hide MacKey, ShardIndex;
      ViewIs(WrittenStore(view, mac, s, mark));
    }

    /** Files a new asset object under its id. */
    method File(idx: nat, a: Asset, mac: Mac)
      requires Shape() && idx < SHARD_COUNT
      modifies this`assets, resolver
      ensures Shape() && assets[idx] == old(assets)[idx][a.id := a]
      ensures resolver.shards[idx] == old(resolver.shards)[idx].Bind(a.id, mac)
      ensures forall j | 0 <= j < SHARD_COUNT :: j != idx ==>
        assets[j] == old(assets)[j] && resolver.shards[j] == old(resolver.shards)[j]
    {
      assets := assets[idx := assets[idx][a.id := a]];
      resolver.Bind(a.id, mac, idx);
    }

    /** `markDirty`. */
    method MarkDirty(idx: nat, id: AssetId)
      requires Shape() && idx < SHARD_COUNT
      modifies this`dirty
      ensures Shape() && dirty[idx] == if id == "" then old(dirty)[idx] else old(dirty)[idx] + {id}
      ensures forall j | 0 <= j < SHARD_COUNT :: j != idx ==> dirty[j] == old(dirty)[j]
    {
      if id != "" {
        dirty := dirty[idx := dirty[idx] + {id}];
      }
    }

    /** The `case exists` of `Apply`. */
    method Update(idx: nat, id: AssetId, obs: Observation)
      requires Shape() && idx < SHARD_COUNT && id in assets[idx] && id != ""
      modifies this`dirty, resolver, assets[idx][id]
      ensures Shape() && assets[idx][id].Contents() == S.Revived(guesses, old(assets[idx][id].Contents()), obs)
      ensures dirty[idx] == if S.ReviveChanges(guesses, old(assets[idx][id].Contents()), obs)
        then old(dirty)[idx] + {id} else old(dirty)[idx]
      ensures resolver.shards[idx] == old(resolver.shards)[idx].Bind(id, obs.mac)
      ensures forall j | 0 <= j < SHARD_COUNT :: j != idx ==>
        dirty[j] == old(dirty)[j] && resolver.shards[j] == old(resolver.shards)[j]
    {
      hide S.Revived, S.ReviveChanges;
      var a := assets[idx][id];
      var changed := Revive(a, obs);
      resolver.Bind(a.id, obs.mac, idx);
      if changed {
        MarkDirty(idx, a.id);
      }
    }

    /** The `default` case of `Apply`. */
    method Create(idx: nat, obs: Observation)
      requires Shape() && idx < SHARD_COUNT && MacKey(obs.mac) != ""
      modifies this, resolver
      ensures Shape() && var id := MacKey(obs.mac);
        && id in assets[idx] && fresh(assets[idx][id]) && assets[idx] == old(assets)[idx][id := assets[idx][id]]
        && assets[idx][id].Contents() == S.NewAsset(guesses, obs) && dirty[idx] == old(dirty)[idx] + {id}
        && resolver.shards[idx] == old(resolver.shards)[idx].Bind(id, obs.mac)
      ensures forall j | 0 <= j < SHARD_COUNT :: j != idx ==>
        assets[j] == old(assets)[j] && dirty[j] == old(dirty)[j] && resolver.shards[j] == old(resolver.shards)[j]
    {
      hide Merged, MergeChanges, MacKey;
      var id := MacKey(obs.mac);
      var a := new Asset(Blank(id, obs.mac));
      var _ := a.MergeInto(guesses, obs);
      File(idx, a, obs.mac);
      MarkDirty(idx, id);
    }

    /** The hydration of `Apply`, and then its `case exists`. */
    method Hydrate(idx: nat, obs: Observation, row: Snapshot)
      requires Shape() && idx < SHARD_COUNT && S.RowFor(row, obs.mac) && row.id != ""
      modifies this, resolver
      ensures Shape() && var id := row.id;
        && id in assets[idx] && fresh(assets[idx][id]) && assets[idx] == old(assets)[idx][id := assets[idx][id]]
        && assets[idx][id].Contents() == S.Revived(guesses, row, obs)
        && dirty[idx] == (if S.ReviveChanges(guesses, row, obs) then old(dirty)[idx] + {id} else old(dirty)[idx])
        && resolver.shards[idx] == old(resolver.shards)[idx].Bind(id, obs.mac)
      ensures forall j | 0 <= j < SHARD_COUNT :: j != idx ==>
        assets[j] == old(assets)[j] && dirty[j] == old(dirty)[j] && resolver.shards[j] == old(resolver.shards)[j]
    {
      hide S.Revived, S.ReviveChanges, MacKey;
      var a := new Asset(row);
      File(idx, a, a.mac);
      Update(idx, row.id, obs);
      BindAgain(old(resolver.shards)[idx], row.id, row.mac, obs.mac);
    }

    /** No other place holds the same object. */
    ghost predicate OnlyAt(idx: nat, id: AssetId)
      requires Shape() && idx < SHARD_COUNT && id in assets[idx]
      reads this, resolver
    {
      forall j, other :: 0 <= j < SHARD_COUNT && other in assets[j] && (j != idx || other != id) ==>
        assets[j][other] != assets[idx][id]
    }

    /** Where the asset of an address is, and that nothing else is the same object. */
    lemma Here(mac: Mac)
      requires Valid() && mac != []
      ensures var i, k := ShardIndex(mac), MacKey(mac);
        && k != "" && resolver.shards[i].Resolve(mac) == (if k in assets[i] then Some(k) else None)
        && Current(View(), mac) == (if k in assets[i] then Some(assets[i][k].Contents()) else None)
        && (k in assets[i] ==> OnlyAt(i, k))
    {
      hide Home, IsKey, MacKey, ShardIndex;
      var i, k := ShardIndex(mac), MacKey(mac);
      HomeOfKey(mac);
      KeyNotEmpty(k);
      assert S.WfShard(View()[i], i);
      assert View()[i].assets == ContentsOf(i);
      if k in assets[i] {
        forall j, id | 0 <= j < SHARD_COUNT && id in assets[j] && assets[j][id] == assets[i][k] ensures j == i && id == k {
          OnePlace(j, i, id, k);
        }
        assert OnlyAt(i, k);
      }
    }

    method ApplyExisting(i: nat, k: AssetId, obs: Observation, row: Option<Snapshot>)
      requires Valid() && obs.Valid() && i == ShardIndex(obs.mac) && k == MacKey(obs.mac) && k in assets[i]
      modifies this`dirty, resolver, assets[i][k]
      ensures Shape() && View() == WrittenStore(old(View()), obs.mac,
        NewContents(guesses, Current(old(View()), obs.mac), obs, row), RaisesDirty(guesses, Current(old(View()), obs.mac), obs, row))
    {
      hide S.Revived, S.ReviveChanges, Home, IsKey, MacKey, ShardIndex, S.Wf, View;
      Here(obs.mac);
      ViewAt();
      ghost var view := View();
      Update(i, k, obs);
      WrittenView(view, obs.mac, assets[i][k].Contents(), RaisesDirty(guesses, Current(view, obs.mac), obs, row));
    }

    method ApplyHydrated(i: nat, obs: Observation, row: Snapshot)
      requires Valid() && obs.Valid() && i == ShardIndex(obs.mac) && MacKey(obs.mac) !in assets[i] && S.RowFor(row, obs.mac)
      modifies this, resolver
      ensures Shape() && var k := row.id;
        && k in assets[i] && fresh(assets[i][k]) && assets[i] == old(assets)[i][k := assets[i][k]]
        && forall j | 0 <= j < SHARD_COUNT :: j != i ==> assets[j] == old(assets)[j]
      ensures View() == WrittenStore(old(View()), obs.mac,
        NewContents(guesses, None, obs, Some(row)), RaisesDirty(guesses, None, obs, Some(row)))
    {
      hide S.Revived, S.ReviveChanges, Home, IsKey, MacKey, ShardIndex, S.Wf, View;
      Here(obs.mac);
      ViewAt();
      ghost var view := View();
      Hydrate(i, obs, row);
      WrittenView(view, obs.mac, assets[i][row.id].Contents(), RaisesDirty(guesses, None, obs, Some(row)));
    }

    method ApplyNew(i: nat, obs: Observation)
      requires Valid() && obs.Valid() && i == ShardIndex(obs.mac) && MacKey(obs.mac) !in assets[i]
      modifies this, resolver
      ensures Shape() && var k := MacKey(obs.mac);
        && k in assets[i] && fresh(assets[i][k]) && assets[i] == old(assets)[i][k := assets[i][k]]
        && forall j | 0 <= j < SHARD_COUNT :: j != i ==> assets[j] == old(assets)[j]
      ensures View() == WrittenStore(old(View()), obs.mac,
        NewContents(guesses, None, obs, None), RaisesDirty(guesses, None, obs, None))
    {
      hide S.NewAsset, Home, IsKey, MacKey, ShardIndex, S.Wf, View;
      Here(obs.mac);
      ViewAt();
      ghost var view := View();
      Create(i, obs);
      WrittenView(view, obs.mac, assets[i][MacKey(obs.mac)].Contents(), true);
    }

    /** `Apply`, with the row that the hydrator finds for the address. */
    method Apply(obs: Observation, row: Option<Snapshot>) returns (id: AssetId, action: Option<S.Action>)
      requires Valid() && (row.Some? ==> S.RowFor(row.value, obs.mac))
      modifies this, resolver, Cells()
      ensures Valid() && fresh(Cells() - old(Cells()))
      ensures var o := S.Apply(guesses, old(View()), obs, row);
        && View() == S.After(old(View()), obs.mac, o)
        && (if o.Done? then id == o.id && action == Some(o.action) else id == "" && action == None)
    {
      hide S.Commit, S.Wf, NewContents, RaisesDirty, Home, IsKey, MacKey, ShardIndex, WrittenStore, View;
      if !obs.Valid() {
        return "", None;
      }
      ghost var view := View();
      Here(obs.mac);
      ApplyIsWrite(guesses, view, obs, row);
      StepIsWrite(guesses, view, obs, row);
      S.StepKeepsWf(guesses, view, S.ApplyOp(obs, row));
      var existing, idx := resolver.Resolve(obs.mac);
      if existing.Some? {
        ApplyExisting(idx, existing.value, obs, row);
        id, action := existing.value, Some(S.Updated);
      } else if row.Some? {
        ApplyHydrated(idx, obs, row.value);
        id, action := row.value.id, Some(S.Updated);
      } else {
        ApplyNew(idx, obs);
        id, action := MacKey(obs.mac), Some(S.Created);
      }
    }

    // ---------- Sweep ----------

    /** `sweepIPMap`. */
    static method SweepIpMap(m: IpMap, now: Time) returns (out: IpMap, changed: bool)
      ensures out == S.SweptIps(m, now)
      ensures changed <==> out != m
    {
      out, changed := m, false;
      var todo := m.Keys;
      while todo != {}
        invariant todo <= m.Keys == out.Keys
        invariant forall ip <- m.Keys :: out[ip] == if ip in todo then m[ip] else S.SweptIps(m, now)[ip]
        invariant changed <==> out != m
        decreases todo
      {
        var ip :| ip in todo;
        todo := todo - {ip};
        if S.LeaseOver(m[ip], now) && m[ip].active {
          out := out[ip := m[ip].(active := false)];
          changed := true;
          assert out[ip] != m[ip];
        }
      }
    }

    /** One asset in `Sweep`. */
    static method SweepAsset(a: Asset, now: Time, offlineAfter: Duration) returns (changed: bool, gone: bool)
      modifies a
      ensures a.Contents() == S.Swept(old(a.Contents()), now, offlineAfter)
      ensures changed <==> a.Contents() != old(a.Contents())
      ensures gone <==> S.GoesOffline(old(a.Contents()), now, offlineAfter)
    {
      var c, d;
      a.ipv4s, c := SweepIpMap(a.ipv4s, now);
      a.ipv6s, d := SweepIpMap(a.ipv6s, now);
      changed, gone := d || c, false;
      if a.status == Online && Sub(now, a.lastSeen) > offlineAfter {
        a.status := Offline;
        changed, gone := true, true;
      }
    }

    ghost function CellsOf(i: nat): set<Asset>
      requires i < |assets|
      reads this`assets
    {
      set id | id in assets[i] :: assets[i][id]
    }

    /** The assets of a shard that are still to be swept hold what they held. */
    ghost predicate SweptBut(i: nat, was: S.Shard, todo: set<AssetId>, now: Time, offlineAfter: Duration)
      requires i < |assets|
      reads this`assets, CellsOf(i)
    {
      && assets[i].Keys == was.assets.Keys
      && (forall id :: id in assets[i] ==>
            assets[i][id].Contents() == if id in todo then was.assets[id] else S.Swept(was.assets[id], now, offlineAfter))
    }

    static ghost predicate MarkedBut(marked: set<AssetId>, was: S.Shard, todo: set<AssetId>, now: Time, offlineAfter: Duration) {
      forall id :: id in marked <==>
        id in was.dirty || (id in was.assets && id !in todo && S.Swept(was.assets[id], now, offlineAfter) != was.assets[id])
    }

    /** What `Sweep` does in the place of one asset. */
    method SweepPlace(i: nat, id: AssetId, ghost was: S.Shard, ghost todo: set<AssetId>, now: Time, offlineAfter: Duration)
      returns (gone: bool)
      requires Shape() && i < SHARD_COUNT
      requires SweptBut(i, was, todo, now, offlineAfter) && MarkedBut(dirty[i], was, todo, now, offlineAfter)
      requires id in todo && id in assets[i] && id != ""
      modifies this`dirty, assets[i][id]
      ensures Shape() && SweptBut(i, was, todo - {id}, now, offlineAfter)
      ensures MarkedBut(dirty[i], was, todo - {id}, now, offlineAfter)
      ensures forall j | 0 <= j < SHARD_COUNT :: j != i ==> dirty[j] == old(dirty)[j]
      ensures gone <==> S.GoesOffline(was.assets[id], now, offlineAfter)
    {
      hide S.Swept, S.GoesOffline, MarkedBut;
      OneMarked(dirty[i], was, todo, id, now, offlineAfter);
      var changed;
      changed, gone := SweepAsset(assets[i][id], now, offlineAfter);
      if changed {
        MarkDirty(i, id);
      }
    }

    static lemma OneMarked(marked: set<AssetId>, was: S.Shard, todo: set<AssetId>, id: AssetId, now: Time, offlineAfter: Duration)
      requires id in todo && id in was.assets && MarkedBut(marked, was, todo, now, offlineAfter)
      ensures var changed := S.Swept(was.assets[id], now, offlineAfter) != was.assets[id];
        MarkedBut(if changed then marked + {id} else marked, was, todo - {id}, now, offlineAfter)
    {
      hide S.Swept;
    }

    /** One shard in `Sweep`, over its assets in any order. */
    method SweepShard(i: nat, ghost was: S.Shard, now: Time, offlineAfter: Duration) returns (n: nat)
      requires Shape() && i < SHARD_COUNT && "" !in assets[i] && assets[i].Keys == was.assets.Keys
      requires SweptBut(i, was, assets[i].Keys, now, offlineAfter) && MarkedBut(dirty[i], was, assets[i].Keys, now, offlineAfter)
      modifies this`dirty, CellsOf(i)
      ensures Shape() && SweptBut(i, was, {}, now, offlineAfter) && MarkedBut(dirty[i], was, {}, now, offlineAfter)
      ensures forall j | 0 <= j < SHARD_COUNT :: j != i ==> dirty[j] == old(dirty)[j]
      ensures n == |S.Transitions(was, now, offlineAfter)|
    {
      hide S.Swept, S.GoesOffline, MarkedBut, SweptBut;
      n := 0;
      ghost var gone: set<AssetId> := {};
      var todo := assets[i].Keys;
      while todo != {}
        invariant Shape() && todo <= assets[i].Keys
        invariant SweptBut(i, was, todo, now, offlineAfter) && MarkedBut(dirty[i], was, todo, now, offlineAfter)
        invariant forall j | 0 <= j < SHARD_COUNT :: j != i ==> dirty[j] == old(dirty)[j]
        invariant n == |gone| && forall id :: id in gone <==> id in S.Transitions(was, now, offlineAfter) && id !in todo
        decreases todo
      {
        var id :| id in todo;
        var went := SweepPlace(i, id, was, todo, now, offlineAfter);
        todo := todo - {id};
        if went {
          gone, n := gone + {id}, n + 1;
        }
      }
      assert gone == S.Transitions(was, now, offlineAfter);
    }

    /** No object is in two shards. */
    ghost predicate Apart()
      requires Shape()
      reads this, resolver
    {
      forall i, j :: 0 <= i < j < SHARD_COUNT ==> CellsOf(i) !! CellsOf(j)
    }

    lemma ShardsApart()
      requires Valid()
      ensures Apart()
    {
      hide View, S.Wf;
      forall i, j, id, other | 0 <= i < j < SHARD_COUNT && id in assets[i] && other in assets[j]
        ensures assets[i][id] != assets[j][other]
      {
        OnePlace(i, j, id, other);
      }
    }

    lemma NothingSwept(i: nat, now: Time, offlineAfter: Duration)
      requires Valid() && i < SHARD_COUNT
      ensures SweptBut(i, View()[i], assets[i].Keys, now, offlineAfter)
      ensures MarkedBut(dirty[i], View()[i], assets[i].Keys, now, offlineAfter)
      ensures "" !in assets[i]
    {
      hide S.Swept, Home, IsKey;
      assert S.WfShard(View()[i], i);
      if "" in View()[i].assets {
        KeyNotEmpty("");
      }
    }

    lemma AllSwept(view: S.Store, now: Time, offlineAfter: Duration)
      requires Shape()
      requires forall i | 0 <= i < SHARD_COUNT ::
        SweptBut(i, view[i], {}, now, offlineAfter) && MarkedBut(dirty[i], view[i], {}, now, offlineAfter)
      requires forall i | 0 <= i < SHARD_COUNT :: view[i].index == resolver.shards[i]
      ensures View() == S.SweptStore(view, now, offlineAfter)
    {
      hide S.Swept;
      var st := S.SweptStore(view, now, offlineAfter);
      forall i | 0 <= i < SHARD_COUNT ensures st[i].dirty == dirty[i] {
        assert MarkedBut(dirty[i], view[i], {}, now, offlineAfter);
        assert forall id :: id in st[i].dirty <==> id in dirty[i];
      }
      ViewIs(st);
    }

    lemma SameHome(st: S.Store, i: nat, j: nat, id: AssetId)
      requires S.Wf(st) && i < SHARD_COUNT && j < SHARD_COUNT && id in st[i].assets && id in st[j].assets
      ensures i == j
    {
      hide Home, IsKey;
      assert S.WfShard(st[j], j) && S.WfShard(st[i], i);
    }

    lemma NoneWent(st: S.Store, now: Time, offlineAfter: Duration)
      ensures S.WentOffline(st, 0, now, offlineAfter) == {}
    {
    }

    lemma OneMoreWent(st: S.Store, i: nat, now: Time, offlineAfter: Duration)
      requires S.Wf(st) && i < SHARD_COUNT
      ensures |S.WentOffline(st, i + 1, now, offlineAfter)|
        == |S.WentOffline(st, i, now, offlineAfter)| + |S.Transitions(st[i], now, offlineAfter)|
    {
      hide S.GoesOffline, Home, IsKey;
      var before, here := S.WentOffline(st, i, now, offlineAfter), S.Transitions(st[i], now, offlineAfter);
      forall id | id in before && id in here ensures false {
        var j :| 0 <= j < i && id in S.Transitions(st[j], now, offlineAfter);
        SameHome(st, i, j, id);
      }
      assert S.WentOffline(st, i + 1, now, offlineAfter) == before + here;
    }

    /** `Sweep`. */
    method Sweep(now: Time, offlineAfter: Duration) returns (transitions: nat)
      requires Valid()
      modifies this`dirty, Cells()
      ensures Valid() && View() == S.SweptStore(old(View()), now, offlineAfter)
      ensures transitions == |S.WentOffline(old(View()), SHARD_COUNT, now, offlineAfter)|
    {
      hide S.WentOffline, S.Transitions, MarkedBut, SweptBut, S.WfShard;
      transitions := 0;
      ghost var view := View();
      ShardsApart();
      NoneWent(view, now, offlineAfter);
      forall j | 0 <= j < SHARD_COUNT
        ensures SweptBut(j, view[j], assets[j].Keys, now, offlineAfter) && MarkedBut(dirty[j], view[j], assets[j].Keys, now, offlineAfter)
        ensures "" !in assets[j] && assets[j].Keys == view[j].assets.Keys
      {
        NothingSwept(j, now, offlineAfter);
      }
      for i := 0 to SHARD_COUNT
        invariant Shape()
        invariant forall j | 0 <= j < SHARD_COUNT :: SweptBut(j, view[j], if j < i then {} else assets[j].Keys, now, offlineAfter)
        invariant forall j | 0 <= j < SHARD_COUNT :: MarkedBut(dirty[j], view[j], if j < i then {} else assets[j].Keys, now, offlineAfter)
        invariant transitions == |S.WentOffline(view, i, now, offlineAfter)|
      {
        var n := SweepShard(i, view[i], now, offlineAfter);
        OneMoreWent(view, i, now, offlineAfter);
        transitions := transitions + n;
      }
      AllSwept(view, now, offlineAfter);
      S.CallsKeepWf(view, now, offlineAfter, []);
    }

    // ---------- EvictStale ----------

    /** The manager had the assets `was` and the shards `index` of the resolver, and has forgotten
        those of `gone` in shard i. */
    ghost predicate Without(i: nat, was: seq<map<AssetId, Asset>>, index: seq<Index>, gone: set<AssetId>)
      reads this, resolver
    {
      && Shape() && |was| == |index| == SHARD_COUNT && i < SHARD_COUNT && assets == was[i := was[i] - gone]
      && resolver.shards == index[i := S.UnbindAll(index[i], gone)]
    }

    lemma WithoutNone(i: nat)
      requires Shape() && i < SHARD_COUNT
      ensures |assets| == SHARD_COUNT && Without(i, assets, resolver.shards, {})
    {
      hide S.UnbindAll;
      UnbindNone(resolver.shards[i]);
      assert assets[i] - {} == assets[i];
    }

    lemma WithoutAll(i: nat, was: seq<map<AssetId, Asset>>, index: seq<Index>, gone: set<AssetId>)
      requires Without(i, was, index, gone)
      ensures Shape() && assets[i] == was[i] - gone && resolver.shards[i] == S.UnbindAll(index[i], gone)
      ensures forall j | 0 <= j < SHARD_COUNT :: j != i ==> assets[j] == was[j] && resolver.shards[j] == index[j]
    {
    }

    /** Forgets one asset more. */
    method Forget(i: nat, id: AssetId, ghost was: seq<map<AssetId, Asset>>, ghost index: seq<Index>, ghost gone: set<AssetId>)
      requires Without(i, was, index, gone) && id in was[i] && id !in gone
      modifies this`assets, resolver
      ensures Without(i, was, index, gone + {id})
    {
      hide S.UnbindAll;
      var a := assets[i][id];
      assert assets[i] - {id} == was[i] - (gone + {id});
      UnbindOneMore(index[i], gone, id);
      assets := assets[i := assets[i] - {id}];
      resolver.Unbind(a.id, i);
    }

    /** Looks at one asset in `EvictStale`. */
    method EvictOne(i: nat, id: AssetId, ghost sh: S.Shard, ghost was: seq<map<AssetId, Asset>>, ghost index: seq<Index>,
                    ghost gone: set<AssetId>, now: Time, evictAfter: Duration) returns (out: bool)
      requires Without(i, was, index, gone) && CellsHold(was[i], sh) && id in was[i] && id !in gone
      modifies this`assets, resolver
      ensures out <==> id in S.StaleIds(sh, now, evictAfter)
      ensures Without(i, was, index, if out then gone + {id} else gone)
    {
      hide S.StaleIds, S.UnbindAll, Sub;
      StaleIs(sh, id, now, evictAfter);
      var a := assets[i][id];
      assert was[i][id].Contents() == sh.assets[id];
      out := a.status == Offline && Sub(now, a.lastSeen) > evictAfter;
      if out {
        Forget(i, id, was, index, gone);
      }
    }

    /** The loop of one shard in `EvictStale`. */
    method EvictLoop(i: nat, ghost sh: S.Shard, ghost was: seq<map<AssetId, Asset>>, ghost index: seq<Index>,
                     now: Time, evictAfter: Duration) returns (n: nat, ghost gone: set<AssetId>)
      requires i < SHARD_COUNT == |was| == |assets| && was[i] == assets[i]
      requires Without(i, was, index, {}) && CellsHold(was[i], sh)
      modifies this`assets, resolver
      ensures Parted(gone, S.StaleIds(sh, now, evictAfter), {}, n) && Without(i, was, index, gone)
    {
      hide S.StaleIds, Parted, Without, CellsHold;
      n, gone := 0, {};
      var todo := assets[i].Keys;
      ghost var stale := S.StaleIds(sh, now, evictAfter);
      StaleAmong(was[i], sh, now, evictAfter);
      AllLookedAt({}, stale, todo, 0);
      while todo != {}
        invariant todo <= was[i].Keys && Parted(gone, stale, todo, n) && Without(i, was, index, gone)
        decreases todo
      {
        var id :| id in todo;
        LookedAt(gone, stale, todo, n, id);
        var out := EvictOne(i, id, sh, was, index, gone, now, evictAfter);
        if out {
          gone, n := gone + {id}, n + 1;
        }
        todo := todo - {id};
      }
    }

    /** One shard in `EvictStale`. */
    method EvictShard(i: nat, ghost was: S.Shard, now: Time, evictAfter: Duration) returns (n: nat)
      requires Shape() && i < SHARD_COUNT && was.assets.Keys == assets[i].Keys
      requires forall id <- assets[i].Keys :: assets[i][id].Contents() == was.assets[id]
      modifies this`assets, resolver
      ensures var ids := S.StaleIds(was, now, evictAfter);
        && Shape() && assets[i] == old(assets)[i] - ids && n == |ids|
        && resolver.shards[i] == S.UnbindAll(old(resolver.shards)[i], ids)
      ensures forall j | 0 <= j < SHARD_COUNT :: j != i ==> assets[j] == old(assets)[j] && resolver.shards[j] == old(resolver.shards)[j]
    {
      hide S.StaleIds, S.UnbindAll, Parted, Without;
      ghost var cells, index, gone: set<AssetId> := assets, resolver.shards, {};
      WithoutNone(i);
      n, gone := EvictLoop(i, was, cells, index, now, evictAfter);
      AllLookedAt(gone, S.StaleIds(was, now, evictAfter), {}, n);
      WithoutAll(i, cells, index, gone);
    }

    lemma OneMoreStale(st: S.Store, i: nat, now: Time, evictAfter: Duration)
      requires S.Wf(st) && i < SHARD_COUNT
      ensures S.AllStale(st, 0, now, evictAfter) == {}
      ensures |S.AllStale(st, i + 1, now, evictAfter)|
        == |S.AllStale(st, i, now, evictAfter)| + |S.StaleIds(st[i], now, evictAfter)|
    {
      hide S.Stale, Home, IsKey;
      var before, here := S.AllStale(st, i, now, evictAfter), S.StaleIds(st[i], now, evictAfter);
      forall id | id in before && id in here ensures false {
        var j :| 0 <= j < i && id in S.StaleIds(st[j], now, evictAfter);
        SameHome(st, i, j, id);
      }
      assert S.AllStale(st, i + 1, now, evictAfter) == before + here;
    }

    lemma AllEvicted(view: S.Store, now: Time, evictAfter: Duration)
      requires Shape()
      requires forall j | 0 <= j < SHARD_COUNT :: assets[j].Keys == view[j].assets.Keys - S.StaleIds(view[j], now, evictAfter)
      requires forall j, id :: 0 <= j < SHARD_COUNT && id in assets[j] ==> assets[j][id].Contents() == view[j].assets[id]
      requires forall j | 0 <= j < SHARD_COUNT ::
        view[j].dirty == dirty[j] && resolver.shards[j] == S.UnbindAll(view[j].index, S.StaleIds(view[j], now, evictAfter))
      ensures View() == S.EvictedStore(view, now, evictAfter)
    {
      hide S.StaleIds, S.UnbindAll;
      ViewIs(S.EvictedStore(view, now, evictAfter));
    }

    /** The loop of `EvictStale`. */
    method EvictShards(ghost view: S.Store, now: Time, evictAfter: Duration) returns (evicted: nat)
      requires Shape() && S.Wf(view)
      requires forall j | 0 <= j < SHARD_COUNT :: assets[j].Keys == view[j].assets.Keys && resolver.shards[j] == view[j].index
      requires forall j, id :: 0 <= j < SHARD_COUNT && id in assets[j] ==> assets[j][id].Contents() == view[j].assets[id]
      modifies this`assets, resolver
      ensures Shape() && forall j | 0 <= j < SHARD_COUNT ::
        && assets[j] == old(assets)[j] - S.StaleIds(view[j], now, evictAfter)
        && resolver.shards[j] == S.UnbindAll(view[j].index, S.StaleIds(view[j], now, evictAfter))
      ensures evicted == |S.AllStale(view, SHARD_COUNT, now, evictAfter)|
    {
      hide S.StaleIds, S.AllStale, S.UnbindAll, S.Wf;
      evicted := 0;
      OneMoreStale(view, 0, now, evictAfter);
      for i := 0 to SHARD_COUNT
        invariant Shape()
        invariant forall j | 0 <= j < SHARD_COUNT ::
          assets[j] == if j < i then old(assets)[j] - S.StaleIds(view[j], now, evictAfter) else old(assets)[j]
        invariant forall j | 0 <= j < SHARD_COUNT ::
          resolver.shards[j] == if j < i then S.UnbindAll(view[j].index, S.StaleIds(view[j], now, evictAfter)) else view[j].index
        invariant evicted == |S.AllStale(view, i, now, evictAfter)|
      {
        var n := EvictShard(i, view[i], now, evictAfter);
        OneMoreStale(view, i, now, evictAfter);
        evicted := evicted + n;
      }
    }

    /** `EvictStale`. */
    method EvictStale(now: Time, evictAfter: Duration) returns (evicted: nat)
      requires Valid()
      modifies this`assets, resolver
      ensures Valid() && View() == S.EvictedStore(old(View()), now, evictAfter)
      ensures evicted == |S.AllStale(old(View()), SHARD_COUNT, now, evictAfter)|
    {
      hide S.StaleIds, S.AllStale, S.UnbindAll, S.Wf, View;
      ghost var view := View();
      ViewAt();
      assert forall j | 0 <= j < SHARD_COUNT :: assets[j].Keys == view[j].assets.Keys;
      evicted := EvictShards(view, now, evictAfter);
      AllEvicted(view, now, evictAfter);
      S.CallsKeepWf(view, now, evictAfter, []);
    }

    // ---------- DrainDirty ----------

    /** One shard in `DrainDirty`. */
    method DrainShard(i: nat, ghost was: S.Shard) returns (out: seq<Snapshot>)
      requires Shape() && i < SHARD_COUNT && was.dirty == dirty[i] && was.assets == ContentsOf(i)
      modifies this`dirty
      ensures Shape() && S.DrainsShard(was, out) && dirty[i] == {}
      ensures forall j | 0 <= j < SHARD_COUNT :: j != i ==> dirty[j] == old(dirty)[j]
    {
      out := [];
      var todo := dirty[i];
      while todo != {}
        invariant todo <= dirty[i]
        invariant forall k, l :: 0 <= k < l < |out| ==> out[k].id != out[l].id
        invariant forall s <- out :: s.id in was.dirty - todo && s.id in was.assets && was.assets[s.id] == s
        invariant forall id <- was.dirty - todo :: id in was.assets ==> was.assets[id] in out
        decreases todo
      {
        var id :| id in todo;
        todo := todo - {id};
        if id in assets[i] {
          assert was.assets[id] == assets[i][id].Contents();
          out := out + [assets[i][id].Contents()];
        }
      }
      dirty := dirty[i := {}];
    }

    static lemma NothingDrained(st: S.Store)
      ensures S.Drains(st, 0, [])
    {
    }

    static lemma DrainMore(st: S.Store, n: nat, out: seq<Snapshot>, more: seq<Snapshot>)
      requires n < SHARD_COUNT && S.Drains(st, n, out) && S.DrainsShard(st[n], more)
      ensures S.Drains(st, n + 1, out + more)
    {
      hide S.DrainsShard;
      assert (out + more)[..|out|] == out && (out + more)[|out|..] == more;
    }

    /** `DrainDirty`. */
    method DrainDirty() returns (out: seq<Snapshot>)
      requires Valid()
      modifies this`dirty
      ensures Valid() && View() == S.CleanStore(old(View()))
      ensures S.Drains(old(View()), SHARD_COUNT, out)
    {
      hide S.DrainsShard, S.Drains, S.Wf;
      out := [];
      ghost var view := View();
      NothingDrained(view);
      for i := 0 to SHARD_COUNT
        invariant Shape() && S.Drains(view, i, out)
        invariant forall j | 0 <= j < SHARD_COUNT :: dirty[j] == if j < i then {} else view[j].dirty
      {
        assert view[i].assets == ContentsOf(i);
        var more := DrainShard(i, view[i]);
        DrainMore(view, i, out, more);
        out := out + more;
      }
      ViewIs(S.CleanStore(view));
      S.CallsKeepWf(view, ZERO_TIME, 0, []);
    }

    /** `Get`: at most one shard has the id. */
    method Get(id: AssetId) returns (s: Option<Snapshot>)
      requires Valid()
      ensures s.None? ==> forall i | 0 <= i < SHARD_COUNT :: id !in View()[i].assets
      ensures s.Some? ==> forall i | 0 <= i < SHARD_COUNT :: id in View()[i].assets ==> View()[i].assets[id] == s.value
      ensures s.Some? ==> exists i | 0 <= i < SHARD_COUNT :: id in View()[i].assets
    {
      hide Home, IsKey, S.Wf;
      for i := 0 to SHARD_COUNT
        invariant forall j | 0 <= j < i :: id !in assets[j]
      {
        if id in assets[i] {
          assert id in View()[i].assets && View()[i].assets[id] == assets[i][id].Contents();
          forall j | 0 <= j < SHARD_COUNT && id in View()[j].assets ensures j == i {
            SameHome(View(), i, j, id);
          }
          return Some(assets[i][id].Contents());
        }
      }
      return None;
    }

    // ---------- LoadSnapshots ----------

    /** Shard i of this manager holds the assets and the index of a shard value. */
    ghost predicate Holds(i: nat, sh: S.Shard)
      requires Shape() && i < SHARD_COUNT
      reads this, resolver, CellsOf(i)
    {
      && assets[i].Keys == sh.assets.Keys && resolver.shards[i] == sh.index
      && (forall id :: id in assets[i] ==> assets[i][id].Contents() == sh.assets[id])
    }

    /** Takes a snapshot over into shard i. */
    method Adopt(i: nat, ghost sh: S.Shard, s: Snapshot)
      requires Shape() && i < SHARD_COUNT && Holds(i, sh)
      modifies this`assets, resolver
      ensures Shape() && Holds(i, sh.Put(s.id, s).Bind(s.id, s.mac))
      ensures fresh(CellsOf(i) - old(CellsOf(i)))
      ensures forall j | 0 <= j < SHARD_COUNT :: j != i ==> assets[j] == old(assets)[j] && resolver.shards[j] == old(resolver.shards)[j]
    {
      hide MacKey;
      var a := new Asset(s);
      File(i, a, s.mac);
    }

    /** One snapshot in `LoadSnapshots`. */
    method LoadOne(i: nat, ghost sh: S.Shard, s: Snapshot) returns (taken: bool)
      requires Shape() && i < SHARD_COUNT && Holds(i, sh)
      modifies this`assets, resolver
      ensures Shape() && Holds(i, S.LoadOne(sh, s)) && (taken <==> S.Newer(sh, s))
      ensures fresh(CellsOf(i) - old(CellsOf(i)))
      ensures forall j | 0 <= j < SHARD_COUNT :: j != i ==> assets[j] == old(assets)[j] && resolver.shards[j] == old(resolver.shards)[j]
    {
      if s.id in assets[i] && s.lastSeen <= assets[i][s.id].lastSeen {
        return false;
      }
      Adopt(i, sh, s);
      return true;
    }

    /** One shard in `LoadSnapshots`. */
    method LoadInto(i: nat, ghost sh: S.Shard, snaps: seq<Snapshot>) returns (n: nat)
      requires Shape() && i < SHARD_COUNT && Holds(i, sh)
      modifies this`assets, resolver
      ensures Shape() && Holds(i, S.LoadShard(sh, snaps)) && n == S.Adopted(sh, snaps)
      ensures fresh(CellsOf(i) - old(CellsOf(i)))
      ensures forall j | 0 <= j < SHARD_COUNT :: j != i ==> assets[j] == old(assets)[j] && resolver.shards[j] == old(resolver.shards)[j]
    {
      hide Holds, S.LoadOne, S.Newer;
      n := 0;
      for k := 0 to |snaps|
        invariant Shape() && Holds(i, S.LoadShard(sh, snaps[..k])) && n == S.Adopted(sh, snaps[..k])
        invariant fresh(CellsOf(i) - old(CellsOf(i)))
        invariant forall j | 0 <= j < SHARD_COUNT :: j != i ==> assets[j] == old(assets)[j] && resolver.shards[j] == old(resolver.shards)[j]
      {
        assert snaps[..k + 1][..k] == snaps[..k];
        var taken := LoadOne(i, S.LoadShard(sh, snaps[..k]), snaps[k]);
        n := n + if taken then 1 else 0;
      }
      assert snaps[..|snaps|] == snaps;
    }

    /** The same, seen from all shards. */
    method LoadAmong(i: nat, ghost want: S.Store, snaps: seq<Snapshot>) returns (n: nat)
      requires Shape() && i < SHARD_COUNT && forall j | 0 <= j < SHARD_COUNT :: Holds(j, want[j])
      modifies this`assets, resolver
      ensures Shape() && forall j | 0 <= j < SHARD_COUNT :: Holds(j, if j == i then S.LoadShard(want[i], snaps) else want[j])
      ensures forall j | 0 <= j < SHARD_COUNT :: fresh(CellsOf(j) - old(CellsOf(j)))
      ensures n == S.Adopted(want[i], snaps)
    {
      hide S.LoadShard, S.Adopted;
      n := LoadInto(i, want[i], snaps);
      forall j | 0 <= j < SHARD_COUNT && j != i ensures CellsOf(j) == old(CellsOf(j)) && Holds(j, want[j]) {
        assert assets[j] == old(assets)[j];
      }
    }

    /** The grouping pass of `LoadSnapshots`. */
    static method Group(snaps: seq<Snapshot>) returns (byShard: map<nat, seq<Snapshot>>)
      ensures forall i :: i in byShard ==> i < SHARD_COUNT
      ensures forall i | 0 <= i < SHARD_COUNT :: (if i in byShard then byShard[i] else []) == S.ForShard(snaps, i)
    {
      hide ShardIndex, S.ForShard, S.Loadable;
      byShard := map[];
      forall i ensures S.ForShard(snaps[..0], i) == [] {
        ForShardNone(i);
      }
      for k := 0 to |snaps|
        invariant forall i :: i in byShard ==> i < SHARD_COUNT
        invariant forall i | 0 <= i < SHARD_COUNT :: (if i in byShard then byShard[i] else []) == S.ForShard(snaps[..k], i)
      {
        var s := snaps[k];
        forall i | 0 <= i < SHARD_COUNT
          ensures S.ForShard(snaps[..k + 1], i)
            == S.ForShard(snaps[..k], i) + if s.id != "" && s.mac != [] && ShardIndex(s.mac) == i then [s] else []
        {
          ForShardMore(snaps, k, i);
        }
        if s.id != "" && s.mac != [] {
          var i := ShardIndex(s.mac);
          byShard := byShard[i := (if i in byShard then byShard[i] else []) + [s]];
        }
      }
      assert snaps[..|snaps|] == snaps;
    }

    static lemma ForShardNone(i: nat)
      ensures S.ForShard([], i) == []
    {
    }

    static lemma ForShardMore(snaps: seq<Snapshot>, k: nat, i: nat)
      requires k < |snaps|
      ensures S.ForShard(snaps[..k + 1], i) == S.ForShard(snaps[..k], i)
        + if snaps[k].id != "" && snaps[k].mac != [] && ShardIndex(snaps[k].mac) == i then [snaps[k]] else []
    {
      hide ShardIndex;
      assert snaps[..k + 1][..k] == snaps[..k];
    }

    /** How many snapshots are taken over into those of the first n shards that were visited. */
    static ghost function AdoptedBy(st: S.Store, snaps: seq<Snapshot>, visited: set<nat>, n: nat): nat
      requires n <= SHARD_COUNT
    {
      if n == 0 then 0
      else AdoptedBy(st, snaps, visited, n - 1) + if n - 1 in visited then S.Adopted(st[n - 1], S.ForShard(snaps, n - 1)) else 0
    }

    static lemma {:induction false} AdoptedByOneMore(st: S.Store, snaps: seq<Snapshot>, visited: set<nat>, i: nat, n: nat)
      requires n <= SHARD_COUNT && i < SHARD_COUNT && i !in visited
      ensures AdoptedBy(st, snaps, visited + {i}, n)
        == AdoptedBy(st, snaps, visited, n) + if i < n then S.Adopted(st[i], S.ForShard(snaps, i)) else 0
    {
      hide S.Adopted, S.ForShard;
      if n > 0 {
        AdoptedByOneMore(st, snaps, visited, i, n - 1);
      }
    }

    static lemma {:induction false} AdoptedByAll(st: S.Store, snaps: seq<Snapshot>, visited: set<nat>, n: nat)
      requires n <= SHARD_COUNT
      requires forall i | 0 <= i < SHARD_COUNT :: i !in visited ==> S.ForShard(snaps, i) == []
      ensures AdoptedBy(st, snaps, visited, n) == S.AdoptedIn(st, snaps, n)
    {
      if n > 0 {
        AdoptedByAll(st, snaps, visited, n - 1);
      }
    }

    static lemma {:induction false} AdoptedByNone(st: S.Store, snaps: seq<Snapshot>, n: nat)
      requires n <= SHARD_COUNT
      ensures AdoptedBy(st, snaps, {}, n) == 0
    {
      if n > 0 {
        AdoptedByNone(st, snaps, n - 1);
      }
    }

    lemma AllLoaded(view: S.Store, snaps: seq<Snapshot>)
      requires Shape()
      requires forall i | 0 <= i < SHARD_COUNT :: Holds(i, S.LoadShard(view[i], S.ForShard(snaps, i)))
      requires forall i | 0 <= i < SHARD_COUNT :: dirty[i] == view[i].dirty
      ensures View() == S.LoadedStore(view, snaps)
    {
      forall i | 0 <= i < SHARD_COUNT ensures S.LoadShard(view[i], S.ForShard(snaps, i)).dirty == view[i].dirty {
        LoadKeepsDirty(view[i], S.ForShard(snaps, i));
      }
      hide S.LoadShard, S.ForShard;
      ViewIs(S.LoadedStore(view, snaps));
    }

    /** The shards after those in `visited` were loaded. */
    static ghost function LoadedIn(view: S.Store, snaps: seq<Snapshot>, visited: set<nat>): S.Store {
      seq(SHARD_COUNT, i requires 0 <= i < SHARD_COUNT =>
        if i in visited then S.LoadShard(view[i], S.ForShard(snaps, i)) else view[i])
    }

    /** The second pass of `LoadSnapshots`, over the shards in any order. */
    method LoadGroups(snaps: seq<Snapshot>, byShard: map<nat, seq<Snapshot>>, ghost view: S.Store) returns (loaded: nat)
      requires Shape() && forall i | 0 <= i < SHARD_COUNT :: Holds(i, view[i])
      requires forall i :: i in byShard ==> i < SHARD_COUNT
      requires forall i | 0 <= i < SHARD_COUNT :: (if i in byShard then byShard[i] else []) == S.ForShard(snaps, i)
      modifies this`assets, resolver
      ensures Shape() && forall i | 0 <= i < SHARD_COUNT :: Holds(i, LoadedIn(view, snaps, byShard.Keys)[i])
      ensures forall i | 0 <= i < SHARD_COUNT :: fresh(CellsOf(i) - old(CellsOf(i)))
      ensures loaded == AdoptedBy(view, snaps, byShard.Keys, SHARD_COUNT)
    {
      hide S.LoadShard, S.ForShard, S.Adopted, AdoptedBy, Holds;
      loaded := 0;
      AdoptedByNone(view, snaps, SHARD_COUNT);
      ghost var visited: set<nat> := {};
      var todo := byShard.Keys;
      while todo != {}
        invariant Shape() && todo <= byShard.Keys && visited == byShard.Keys - todo
        invariant forall i | 0 <= i < SHARD_COUNT :: Holds(i, LoadedIn(view, snaps, visited)[i])
        invariant loaded == AdoptedBy(view, snaps, visited, SHARD_COUNT)
        invariant forall i | 0 <= i < SHARD_COUNT :: fresh(CellsOf(i) - old(CellsOf(i)))
        decreases todo
      {
        var i :| i in todo;
        todo := todo - {i};
        ghost var want := LoadedIn(view, snaps, visited);
        var n := LoadAmong(i, want, byShard[i]);
        assert forall j | 0 <= j < SHARD_COUNT ::
          LoadedIn(view, snaps, visited + {i})[j] == if j == i then S.LoadShard(want[i], byShard[i]) else want[j];
        AdoptedByOneMore(view, snaps, visited, i, SHARD_COUNT);
        loaded, visited := loaded + n, visited + {i};
      }
      assert visited == byShard.Keys;
    }

    /** `LoadSnapshots`. */
    method LoadSnapshots(snaps: seq<Snapshot>) returns (loaded: nat)
      requires Valid()
      modifies this`assets, resolver
      ensures Shape() && fresh(Cells() - old(Cells())) && View() == S.LoadedStore(old(View()), snaps)
      ensures (forall s <- snaps :: S.GoodSnapshot(s)) ==> Valid()
      ensures loaded == S.AdoptedIn(old(View()), snaps, SHARD_COUNT)
    {
      hide S.LoadShard, S.ForShard, S.Adopted, S.Wf, S.GoodSnapshot;
      ghost var view := View();
      var byShard := Group(snaps);
      loaded := LoadGroups(snaps, byShard, view);
      forall i, id | 0 <= i < SHARD_COUNT && id in assets[i]
        ensures fresh(assets[i][id]) || assets[i][id] in old(Cells())
      {
        assert assets[i][id] in CellsOf(i);
      }
      AdoptedByAll(view, snaps, byShard.Keys, SHARD_COUNT);
      forall i | 0 <= i < SHARD_COUNT ensures Holds(i, S.LoadShard(view[i], S.ForShard(snaps, i))) {
        assert Holds(i, LoadedIn(view, snaps, byShard.Keys)[i]);
        LoadNothing(view[i]);
      }
      AllLoaded(view, snaps);
      S.CallsKeepWf(view, ZERO_TIME, 0, snaps);
    }
  }
}
