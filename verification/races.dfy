/** What races between callers of the manager cost: schedules that crash, lose a merge, or
    leave a state that no order of whole calls leaves; and what a resolve can see in the middle
    of a section. */
module Races {
  import opened Clock
  import opened MacAddress
  import opened AssetModel
  import opened Merging
  import opened Resolver
  import opened Store
  import opened Linearization
  import opened Lives
  import Folding

  // ---------- schedules that go wrong ----------

  lemma ScheduleMore(g: Guesses, w: World, events: seq<Event>, e: Event)
    requires Schedule(g, w, events).Some?
    ensures Schedule(g, w, events + [e]) == Happen(g, Schedule(g, w, events).value, e)
  {
    hide Happen;
    assert (events + [e])[..|events|] == events;
  }

  lemma AppliedMore(g: Guesses, events: seq<Event>, e: Event, mac: Mac)
    ensures var f := FlightOf(Schedule(g, Fresh(), events), e, mac);
      AppliedTo(g, events + [e], mac) == AppliedTo(g, events, mac) + (if f.Some? then [f.value.obs] else [])
  {
    hide FlightOf, Schedule;
    assert (events + [e])[..|events|] == events;
  }

  /** Two callers that resolve a new address before either takes the lock. */
  function Race(a: Observation, b: Observation): seq<Event> {
    [Enter(0, a)] + [Enter(1, b)] + [Locked(0, None)] + [Locked(1, None)]
  }

  lemma NobodyThere(mac: Mac)
    ensures Resolve(EmptyStore(), mac) == None
  {
    hide MacKey, ShardIndex;
  }

  /** The flights of the race before its locked sections. */
  lemma RaceEntered(g: Guesses, a: Observation, b: Observation)
    requires a.Valid() && b.Valid()
    ensures Schedule(g, Fresh(), [Enter(0, a)] + [Enter(1, b)])
      == Some(World(EmptyStore(), map[0 := Flight(a, None), 1 := Flight(b, None)]))
  {
    hide Resolve, Commit, Step;
    NobodyThere(a.mac);
    NobodyThere(b.mac);
    ScheduleMore(g, Fresh(), [], Enter(0, a));
    assert [] + [Enter(0, a)] == [Enter(0, a)];
    ScheduleMore(g, Fresh(), [Enter(0, a)], Enter(1, b));
  }

  lemma RaceQuiet(a: Observation, b: Observation)
    ensures forall e <- Race(a, b) :: Quiet(e)
  {
  }

  /** After the first locked section the asset is there, and the second caller was told that it
      is not. */
  lemma RaceHalfway(g: Guesses, a: Observation, b: Observation)
    requires a.Valid() && b.Valid() && a.mac == b.mac
    ensures var w := Schedule(g, Fresh(), [Enter(0, a)] + [Enter(1, b)] + [Locked(0, None)]);
      && w.Some? && Wf(w.value.store) && w.value.flights == map[1 := Flight(b, None)]
      && Current(w.value.store, a.mac) == Some(Revived(g, Blank(MacKey(a.mac), a.mac), a))
  {
    hide Resolve, Commit, Step, Current, MacKey, Revived, After, Wf;
    RaceEntered(g, a, b);
    var w := World(EmptyStore(), map[0 := Flight(a, None), 1 := Flight(b, None)]);
    ScheduleMore(g, Fresh(), [Enter(0, a)] + [Enter(1, b)], Locked(0, None));
    EmptyIsWf();
    HappenCrashesIff(g, w, Locked(0, None));
    LockedIsWrite(g, w, 0, None, a.mac);
    assert w.flights - {0} == map[1 := Flight(b, None)];
  }

  /** The race loses one of the two: both observations were applied, the second caller was late,
      and the asset knows of its observation only. */
  lemma LostUpdate(g: Guesses, a: Observation, b: Observation)
    requires a.Valid() && b.Valid() && a.mac == b.mac
    ensures (forall e <- Race(a, b) :: Quiet(e) && TwoSteps(e)) && Schedule(g, Fresh(), Race(a, b)).Some?
    ensures var w := Schedule(g, Fresh(), Race(a, b)).value;
      && AppliedTo(g, Race(a, b), a.mac) == [a, b] && !OnTime(g, Race(a, b), a.mac)
      && Current(w.store, a.mac) == Some(NewAsset(g, b)) && NewAsset(g, b).seenCount == 1
  {
    hide Happen, Current, MacKey, AppliedTo, Schedule, Quiet, OnTime, Wf, Merged, Folding.Fold;
    var e3 := [Enter(0, a)] + [Enter(1, b)] + [Locked(0, None)];
    RaceQuiet(a, b);
    RaceHalfway(g, a, b);
    var w := Schedule(g, Fresh(), e3).value;
    ScheduleMore(g, Fresh(), e3, Locked(1, None));
    RaceApplied(g, a, b);
    FoldIff(g, Race(a, b), a.mac);
    SecondWrites(g, w, b);
    MergedIdentity(g, Blank(MacKey(b.mac), b.mac), b);
    LivedIsFold(g, Blank(MacKey(a.mac), a.mac), [a, b]);
    FoldCount(g, Blank(MacKey(a.mac), a.mac), [a, b]);
  }

  lemma SecondWrites(g: Guesses, w: World, b: Observation)
    requires Wf(w.store) && w.flights == map[1 := Flight(b, None)] && b.Valid()
    ensures var z := Happen(g, w, Locked(1, None));
      z.Some? && Current(z.value.store, b.mac) == Some(Revived(g, Blank(MacKey(b.mac), b.mac), b))
  {
    hide Wf, MacKey, Revived, Current, Commit, After;
    HappenCrashesIff(g, w, Locked(1, None));
    LockedIsWrite(g, w, 1, None, b.mac);
  }

  lemma FoldCount(g: Guesses, s: Snapshot, list: seq<Observation>)
    requires s.status == Online
    ensures Folding.Fold(g, s, list).seenCount == s.seenCount + |list|
  {
    hide Folding.Fold, Lived;
    LivedIsFold(g, s, list);
    LivedCount(g, Life(s, AllSaw(list)));
    SawCount(list);
  }

  lemma RaceApplied(g: Guesses, a: Observation, b: Observation)
    requires a.Valid() && b.Valid() && a.mac == b.mac
    ensures AppliedTo(g, Race(a, b), a.mac) == [a, b]
  {
    hide Happen, Current, MacKey, AppliedTo, Schedule, Wf;
    var e0, e1 := [Enter(0, a)], [Enter(0, a)] + [Enter(1, b)];
    RaceEntered(g, a, b);
    RaceHalfway(g, a, b);
    assert e0 == [] + [Enter(0, a)];
    NothingApplied(g, a.mac);
    AppliedMore(g, [], Enter(0, a), a.mac);
    AppliedMore(g, e0, Enter(1, b), a.mac);
    AppliedMore(g, e1, Locked(0, None), a.mac);
    AppliedMore(g, e1 + [Locked(0, None)], Locked(1, None), a.mac);
  }

  lemma NothingApplied(g: Guesses, mac: Mac)
    ensures AppliedTo(g, [], mac) == []
  {
  }

  /** A caller that resolved an asset which is then swept and evicted before it gets the lock. */
  function Gone(a: Observation, b: Observation, now: Time): seq<Event> {
    var i: ShardId := ShardIndex(a.mac);
    [Enter(0, a)] + [Locked(0, None)] + [Enter(1, b)] + [Other(SweepOp(i, now, 0))] + [Other(EvictOp(i, now, 0))] + [Locked(1, None)]
  }

  /** The store with one new asset, and with it swept and evicted. */
  lemma CreateSweepEvict(g: Guesses, a: Observation, now: Time)
    requires a.Valid() && a.at < now
    ensures var i: ShardId, o := ShardIndex(a.mac), Commit(g, EmptyStore()[ShardIndex(a.mac)], a, None, None);
      && o.Done? && var st := After(EmptyStore(), a.mac, o);
      && Resolve(st, a.mac) == Some(MacKey(a.mac))
      && Step(g, st, SweepOp(i, now, 0)).Some? && var swept := Step(g, st, SweepOp(i, now, 0)).value;
      && Step(g, swept, EvictOp(i, now, 0)).Some? && MacKey(a.mac) !in Step(g, swept, EvictOp(i, now, 0)).value[i].assets
  {
    hide MacKey, ShardIndex, SweptIps, Merged;
    var k := MacKey(a.mac);
    NewIsOld(g, a, now);
    assert EmptyStore()[ShardIndex(a.mac)] == EMPTY_SHARD;
    var o := Commit(g, EMPTY_SHARD, a, None, None);
    assert o.shard.assets == map[k := NewAsset(g, a)];
    var swept := SweptShard(o.shard, now, 0);
    assert swept.assets[k] == Swept(NewAsset(g, a), now, 0);
    assert k in StaleIds(swept, now, 0);
  }

  lemma NewIsOld(g: Guesses, a: Observation, now: Time)
    requires a.Valid() && a.at < now
    ensures var s := Swept(NewAsset(g, a), now, 0); Stale(s, now, 0)
  {
    hide MacKey, SweptIps;
  }

  /** The locked section of the second caller dereferences an asset that is gone. */
  lemma CrashSchedule(g: Guesses, a: Observation, b: Observation, now: Time)
    requires a.Valid() && b.Valid() && a.mac == b.mac && a.at < now
    ensures Schedule(g, Fresh(), Gone(a, b, now)) == None
  {
    hide Resolve, Commit, After, Step, Current, MacKey, ShardIndex;
    var i: ShardId := ShardIndex(a.mac);
    NobodyThere(a.mac);
    CreateSweepEvict(g, a, now);
    var e1 := [Enter(0, a)];
    assert e1 == [] + [Enter(0, a)];
    ScheduleMore(g, Fresh(), [], Enter(0, a));
    ScheduleMore(g, Fresh(), e1, Locked(0, None));
    var e2 := e1 + [Locked(0, None)];
    ScheduleMore(g, Fresh(), e2, Enter(1, b));
    var e3 := e2 + [Enter(1, b)];
    ScheduleMore(g, Fresh(), e3, Other(SweepOp(i, now, 0)));
    var e4 := e3 + [Other(SweepOp(i, now, 0))];
    ScheduleMore(g, Fresh(), e4, Other(EvictOp(i, now, 0)));
    var e5 := e4 + [Other(EvictOp(i, now, 0))];
    ScheduleMore(g, Fresh(), e5, Locked(1, None));
    var w := Schedule(g, Fresh(), e5).value;
    assert 1 in w.flights && w.flights[1].obs == b && w.flights[1].resolved == Some(MacKey(b.mac));
    NothingToUpdate(g, w.store[i], b);
  }

  lemma NothingToUpdate(g: Guesses, sh: Shard, obs: Observation)
    requires MacKey(obs.mac) !in sh.assets
    ensures Commit(g, sh, obs, Some(MacKey(obs.mac)), None).Crashed?
  {
    hide MacKey;
  }

  // ---------- sections, not calls ----------

  /** A resolve that falls inside a section of `EvictStale`, where some ids are unbound and
      others not yet, answers as before or as after the section. */
  lemma ResolveInsideEvict(x: Index, some: set<AssetId>, ids: set<AssetId>, mac: Mac)
    requires x.IdsAreKeys() && some <= ids
    ensures UnbindAll(x, some).Resolve(mac) == x.Resolve(mac) || UnbindAll(x, some).Resolve(mac) == UnbindAll(x, ids).Resolve(mac)
  {
    hide MacKey;
  }

  lemma {:induction false} LoadBindsMore(sh: Shard, snaps: seq<Snapshot>, i: nat, k: nat, mac: Mac)
    requires WfShard(sh, i) && GoodGroup(snaps, i) && k <= |snaps|
    ensures LoadShard(sh, snaps[..k]).index.Resolve(mac).Some? ==> LoadShard(sh, snaps).index.Resolve(mac).Some?
    ensures LoadShard(sh, snaps[..k]).index.Resolve(mac).Some? ==> LoadShard(sh, snaps[..k]).index.Resolve(mac) == Some(MacKey(mac))
  {
    hide Home, IsKey, MacKey, ShardIndex, Newer;
    assert forall s <- snaps[..k] :: s in snaps;
    LoadKeepsWf(sh, i, snaps[..k]);
    if k < |snaps| {
      var front := snaps[..|snaps| - 1];
      assert front[..k] == snaps[..k] && forall s <- front :: s in snaps;
      LoadBindsMore(sh, front, i, k, mac);
    } else {
      assert snaps[..k] == snaps;
    }
  }

  /** The same for a section of `LoadSnapshots` of which the first k snapshots are in. */
  lemma ResolveInsideLoad(sh: Shard, snaps: seq<Snapshot>, i: nat, k: nat, mac: Mac)
    requires WfShard(sh, i) && GoodGroup(snaps, i) && k <= |snaps|
    ensures var inside := LoadShard(sh, snaps[..k]).index.Resolve(mac);
      inside == sh.index.Resolve(mac) || inside == LoadShard(sh, snaps).index.Resolve(mac)
  {
    hide LoadShard, WfShard, MacKey;
    var none, all := snaps[..0], snaps[..|snaps|];
    assert all == snaps && snaps[..k][..0] == none;
    assert forall s <- snaps[..k] :: s in snaps;
    LoadBindsMore(sh, snaps, i, k, mac);
    LoadBindsMore(sh, snaps, i, |snaps|, mac);
    LoadBindsMore(sh, snaps[..k], i, 0, mac);
    NothingLoaded(sh);
  }

  lemma NothingLoaded(sh: Shard)
    ensures LoadShard(sh, []) == sh
  {
  }

  /** Shard by shard, calls are not atomic: a sweep that a drain overtakes between two shards
      leaves the first of them clean and the second dirty, which neither order of the whole
      calls does. */
  lemma NotSerial(g: Guesses, st: Store, now: Time, d: Duration, i: ShardId, j: ShardId)
    requires st[i].dirty == {} && st[j].dirty == {} && i != j
    requires Transitions(st[i], now, d) != {} && Transitions(st[j], now, d) != {}
    ensures var st1 := Step(g, st, SweepOp(i, now, d)).value; var st2 := Step(g, st1, DrainOp(i)).value;
      var st3 := Step(g, st2, DrainOp(j)).value; var st4 := Step(g, st3, SweepOp(j, now, d)).value;
      && st4[i].dirty == {} && st4[j].dirty != {}
      && CleanStore(SweptStore(st, now, d))[j].dirty == {}
      && SweptStore(CleanStore(st), now, d)[i].dirty != {}
  {
    hide SweptIps;
    var x :| x in Transitions(st[i], now, d);
    var y :| y in Transitions(st[j], now, d);
    assert Swept(st[i].assets[x], now, d).status != st[i].assets[x].status;
    assert Swept(st[j].assets[y], now, d).status != st[j].assets[y].status;
    assert x in SweptShard(st[i].(dirty := {}), now, d).dirty && y in SweptShard(st[j].(dirty := {}), now, d).dirty;
  }
}
