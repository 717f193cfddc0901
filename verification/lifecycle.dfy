/** The lifecycle tracker of internal/lifecycle/tracker.go: a tick sweeps and then evicts,
    both at the time of the tick. */
module Lifecycle {
  import opened Clock
  import opened MacAddress
  import opened AssetModel
  import opened Resolver
  import opened Store
  import M = Manager

  ghost function Ticked(st: Store, now: Time, offlineAfter: Duration, evictAfter: Duration): Store {
    EvictedStore(SweptStore(st, now, offlineAfter), now, evictAfter)
  }

  /** The body of the tracker's loop; the counts go to the log. */
  method Tick(m: M.Manager, now: Time, offlineAfter: Duration, evictAfter: Duration) returns (gone: nat, evicted: nat)
    requires m.Valid()
    modifies m, m.resolver, m.Cells()
    ensures m.Valid() && m.View() == Ticked(old(m.View()), now, offlineAfter, evictAfter)
    ensures gone == |WentOffline(old(m.View()), SHARD_COUNT, now, offlineAfter)|
    ensures evicted == |AllStale(SweptStore(old(m.View()), now, offlineAfter), SHARD_COUNT, now, evictAfter)|
  {
    gone := m.Sweep(now, offlineAfter);
    evicted := m.EvictStale(now, evictAfter);
  }

  function Age(s: Snapshot, now: Time): Duration { Sub(now, s.lastSeen) }

  /** An address that is active stays so for its lease and five minutes, or for good without a
      lease. A sum over the range of a duration wraps. */
  predicate InForce(e: IpEntry, now: Time) {
    var until := e.lease + 300_000_000_000;
    e.lease <= 0 || Sub(now, e.lastSeen) <= if until <= MAX_DURATION then until else until - 0x1_0000_0000_0000_0000
  }

  ghost predicate LeasesChecked(before: IpMap, after: IpMap, now: Time) {
    && after.Keys == before.Keys
    && forall ip <- before.Keys ::
         && after[ip].(active := before[ip].active) == before[ip]
         && (after[ip].active <==> before[ip].active && InForce(before[ip], now))
  }

  /** What a sweep leaves of an asset. */
  ghost predicate Checked(s: Snapshot, t: Snapshot, now: Time, offlineAfter: Duration) {
    && LeasesChecked(s.ipv4s, t.ipv4s, now) && LeasesChecked(s.ipv6s, t.ipv6s, now)
    && (t.status == Offline <==> s.status == Offline || Sub(now, s.lastSeen) > offlineAfter)
    && t.(ipv4s := s.ipv4s, ipv6s := s.ipv6s, status := s.status) == s
  }

  lemma LeasesAre(m: IpMap, now: Time)
    ensures LeasesChecked(m, SweptIps(m, now), now)
  {
    forall ip <- m.Keys ensures LeaseOver(m[ip], now) <==> !InForce(m[ip], now) {
    }
  }

  lemma SweptIsChecked(s: Snapshot, now: Time, offlineAfter: Duration)
    ensures Checked(s, Swept(s, now, offlineAfter), now, offlineAfter)
  {
    hide SweptIps, LeasesChecked;
    LeasesAre(s.ipv4s, now);
    LeasesAre(s.ipv6s, now);
  }

  /** A sweep loses no asset, looks at the age of each and at the leases of its addresses, and
      marks exactly those that it changes. */
  lemma SweepChecks(st: Store, now: Time, offlineAfter: Duration, i: nat)
    requires i < SHARD_COUNT
    ensures var before, after := st[i], SweptStore(st, now, offlineAfter)[i];
      && after.assets.Keys == before.assets.Keys && after.index == before.index
      && (forall id <- before.assets.Keys :: Checked(before.assets[id], after.assets[id], now, offlineAfter))
      && (forall id :: id in after.dirty <==>
            id in before.dirty || (id in before.assets && after.assets[id] != before.assets[id]))
  {
    hide Swept, Checked;
    forall id <- st[i].assets.Keys ensures Checked(st[i].assets[id], Swept(st[i].assets[id], now, offlineAfter), now, offlineAfter) {
      SweptIsChecked(st[i].assets[id], now, offlineAfter);
    }
  }

  /** The same of what a tick leaves. */
  lemma TickChecks(st: Store, now: Time, offlineAfter: Duration, evictAfter: Duration, i: nat, id: AssetId)
    requires i < SHARD_COUNT && id in Ticked(st, now, offlineAfter, evictAfter)[i].assets
    ensures var after := Ticked(st, now, offlineAfter, evictAfter)[i];
      id in st[i].assets && Checked(st[i].assets[id], after.assets[id], now, offlineAfter)
  {
    hide Swept, Checked, Stale;
    SweptIsChecked(st[i].assets[id], now, offlineAfter);
  }

  /** After a tick no asset that is online is older than offlineAfter, and no asset that is
      offline is older than evictAfter. */
  lemma AgesAfterTick(st: Store, now: Time, offlineAfter: Duration, evictAfter: Duration, i: nat, id: AssetId)
    requires i < SHARD_COUNT && id in Ticked(st, now, offlineAfter, evictAfter)[i].assets
    ensures var s := Ticked(st, now, offlineAfter, evictAfter)[i].assets[id];
      if s.status == Online then Age(s, now) <= offlineAfter else Age(s, now) <= evictAfter
  {
  }

  /** What a tick removes, exactly: an asset that is offline, or that the same tick finds
      silent for too long, and whose age passes evictAfter. What stays keeps everything but
      its status and the active flags of its addresses, and comes back from nothing. */
  lemma TickRemoves(st: Store, now: Time, offlineAfter: Duration, evictAfter: Duration, i: nat, id: AssetId)
    requires i < SHARD_COUNT
    ensures var after := Ticked(st, now, offlineAfter, evictAfter)[i].assets;
      && (id in after ==> id in st[i].assets && after[id] == Swept(st[i].assets[id], now, offlineAfter))
      && (id in st[i].assets ==>
            var s := st[i].assets[id];
            id !in after <==> Age(s, now) > evictAfter && (s.status == Offline || Age(s, now) > offlineAfter))
  {
  }

  /** The two counts of a tick are those of the assets that it puts offline and that it removes. */
  lemma TickCounts(st: Store, now: Time, offlineAfter: Duration, evictAfter: Duration, id: AssetId)
    ensures id in WentOffline(st, SHARD_COUNT, now, offlineAfter) <==>
      exists i | 0 <= i < SHARD_COUNT ::
        id in st[i].assets && st[i].assets[id].status == Online && Age(st[i].assets[id], now) > offlineAfter
    ensures id in AllStale(SweptStore(st, now, offlineAfter), SHARD_COUNT, now, evictAfter) <==>
      exists i | 0 <= i < SHARD_COUNT :: id in st[i].assets && id !in Ticked(st, now, offlineAfter, evictAfter)[i].assets
  {
    hide Swept, Stale, UnbindAll, GoesOffline;
    var swept := SweptStore(st, now, offlineAfter);
    forall i | 0 <= i < SHARD_COUNT
      ensures id in Transitions(st[i], now, offlineAfter) <==>
        id in st[i].assets && st[i].assets[id].status == Online && Age(st[i].assets[id], now) > offlineAfter
      ensures id in StaleIds(swept[i], now, evictAfter) <==>
        id in st[i].assets && id !in Ticked(st, now, offlineAfter, evictAfter)[i].assets
    {
      if id in st[i].assets {
        GoesOfflineIs(st[i].assets[id], now, offlineAfter);
      }
    }
    hide Transitions, StaleIds, Ticked;
  }

  lemma GoesOfflineIs(s: Snapshot, now: Time, offlineAfter: Duration)
    ensures GoesOffline(s, now, offlineAfter) <==> s.status == Online && Age(s, now) > offlineAfter
  {
  }

  /** An asset that is evicted while it is dirty stays in the dirty set, and every drain passes
      over it until it is back in memory: its last changes are written nowhere. */
  lemma EvictedDirtyIsLost(sh: Shard, now: Time, evictAfter: Duration, later: Shard, out: seq<Snapshot>, id: AssetId)
    requires id in StaleIds(sh, now, evictAfter) && id in sh.dirty
    requires id !in later.assets && DrainsShard(later, out)
    ensures var gone := EvictedShard(sh, now, evictAfter); id in gone.dirty && id !in gone.assets
    ensures forall s <- out :: s.id != id
  {
    hide Stale, UnbindAll;
  }

  /** A sweep turns online assets offline and nothing else: never one back. */
  lemma SweepTransitions(sh: Shard, now: Time, offlineAfter: Duration, id: AssetId)
    requires id in sh.assets
    ensures var s, t := sh.assets[id], SweptShard(sh, now, offlineAfter).assets[id];
      id in Transitions(sh, now, offlineAfter) <==> s.status == Online && t.status == Offline
    ensures var s, t := sh.assets[id], SweptShard(sh, now, offlineAfter).assets[id];
      s.status == Offline ==> t.status == Offline
  {
  }

  lemma SweptIpsLater(m: IpMap, first: Time, now: Time)
    requires first <= now
    ensures SweptIps(SweptIps(m, first), now) == SweptIps(m, now)
  {
    forall ip | ip in m ensures SweptIps(SweptIps(m, first), now)[ip] == SweptIps(m, now)[ip] {
      assert LeaseOver(m[ip], first) ==> LeaseOver(m[ip], now);
    }
  }

  /** A later sweep makes an earlier one of no account. */
  lemma SweptLater(s: Snapshot, first: Time, now: Time, offlineAfter: Duration)
    requires first <= now
    ensures Swept(Swept(s, first, offlineAfter), now, offlineAfter) == Swept(s, now, offlineAfter)
  {
    SweptIpsLater(s.ipv4s, first, now);
    SweptIpsLater(s.ipv6s, first, now);
  }

  /** A second sweep at the same time changes nothing at all, the dirty set included, and
      counts nothing. */
  lemma SecondSweep(st: Store, now: Time, offlineAfter: Duration)
    ensures var once := SweptStore(st, now, offlineAfter);
      SweptStore(once, now, offlineAfter) == once && WentOffline(once, SHARD_COUNT, now, offlineAfter) == {}
  {
    hide Swept;
    var once := SweptStore(st, now, offlineAfter);
    forall i | 0 <= i < SHARD_COUNT ensures SweptShard(once[i], now, offlineAfter) == once[i] {
      SecondSweepOfShard(st[i], now, offlineAfter);
    }
    forall i | 0 <= i < SHARD_COUNT ensures Transitions(once[i], now, offlineAfter) == {} {
      SecondSweepOfShard(st[i], now, offlineAfter);
    }
  }

  lemma SecondSweepOfShard(sh: Shard, now: Time, offlineAfter: Duration)
    ensures var once := SweptShard(sh, now, offlineAfter);
      SweptShard(once, now, offlineAfter) == once && Transitions(once, now, offlineAfter) == {}
  {
    var once := SweptShard(sh, now, offlineAfter);
    forall id | id in sh.assets
      ensures Swept(once.assets[id], now, offlineAfter) == once.assets[id] && !GoesOffline(once.assets[id], now, offlineAfter)
    {
      SweptLater(sh.assets[id], now, now, offlineAfter);
    }
    hide Swept, GoesOffline;
    assert SweptShard(once, now, offlineAfter).assets == once.assets;
  }

  /** With no call between two ticks, the first one might as well not have happened: the
      second alone leaves the same assets, the same index, and the same of them dirty. */
  lemma LaterTickAbsorbs(st: Store, first: Time, now: Time, offlineAfter: Duration, evictAfter: Duration, i: nat)
    requires first <= now && i < SHARD_COUNT && Wf(st)
    ensures var both := Ticked(Ticked(st, first, offlineAfter, evictAfter), now, offlineAfter, evictAfter)[i];
      var one := Ticked(st, now, offlineAfter, evictAfter)[i];
      && both.assets == one.assets && both.index == one.index
      && forall id :: id in one.assets ==> (id in both.dirty <==> id in one.dirty)
  {
    AbsorbsInShard(st[i], i, first, now, offlineAfter, evictAfter);
  }

  ghost function TickedShard(sh: Shard, now: Time, offlineAfter: Duration, evictAfter: Duration): Shard {
    EvictedShard(SweptShard(sh, now, offlineAfter), now, evictAfter)
  }

  lemma IpsChangeLater(m: IpMap, first: Time, now: Time)
    requires first <= now && SweptIps(m, now) == m
    ensures SweptIps(m, first) == m
  {
    forall ip | ip in m ensures SweptIps(m, first)[ip] == m[ip] {
      assert SweptIps(m, now)[ip] == m[ip];
    }
  }

  /** What an earlier sweep does to an asset, a later one does; and what is stale stays so. */
  lemma Later(s: Snapshot, first: Time, now: Time, offlineAfter: Duration, evictAfter: Duration)
    requires first <= now
    ensures Swept(Swept(s, first, offlineAfter), now, offlineAfter) == Swept(s, now, offlineAfter)
    ensures Swept(s, now, offlineAfter) == s ==> Swept(s, first, offlineAfter) == s
    ensures Stale(Swept(s, first, offlineAfter), first, evictAfter) ==> Stale(Swept(s, now, offlineAfter), now, evictAfter)
  {
    SweptLater(s, first, now, offlineAfter);
    if Swept(s, now, offlineAfter) == s {
      assert Swept(s, now, offlineAfter).ipv4s == s.ipv4s && Swept(s, now, offlineAfter).ipv6s == s.ipv6s;
      IpsChangeLater(s.ipv4s, first, now);
      IpsChangeLater(s.ipv6s, first, now);
      assert Swept(s, now, offlineAfter).status == s.status;
    }
  }

  lemma TickKeepsWf(sh: Shard, i: nat, now: Time, offlineAfter: Duration, evictAfter: Duration)
    requires WfShard(sh, i)
    ensures WfShard(TickedShard(sh, now, offlineAfter, evictAfter), i)
  {
    hide SweptShard, EvictedShard, WfShard;
    SweepKeepsWf(sh, i, now, offlineAfter);
    EvictKeepsWf(SweptShard(sh, now, offlineAfter), i, now, evictAfter);
  }

  /** In a well-formed shard the assets determine the index. */
  lemma SameIndex(a: Shard, b: Shard, i: nat)
    requires WfShard(a, i) && WfShard(b, i) && a.assets == b.assets
    ensures a.index == b.index
  {
    hide Home, IsKey;
    assert a.index.byKey == b.index.byKey && a.index.byId == b.index.byId;
  }

  /** What two ticks leave of one asset. */
  lemma AbsorbsInAsset(sh: Shard, first: Time, now: Time, offlineAfter: Duration, evictAfter: Duration, id: AssetId)
    requires first <= now && id in sh.assets
    ensures var both := TickedShard(TickedShard(sh, first, offlineAfter, evictAfter), now, offlineAfter, evictAfter);
      var one := TickedShard(sh, now, offlineAfter, evictAfter);
      && (id in both.assets <==> id in one.assets)
      && (id in one.assets ==> both.assets[id] == one.assets[id] && (id in both.dirty <==> id in one.dirty))
  {
    hide Swept, Stale, UnbindAll;
    Later(sh.assets[id], first, now, offlineAfter, evictAfter);
  }

  lemma TickKeepsFewer(sh: Shard, now: Time, offlineAfter: Duration, evictAfter: Duration)
    ensures TickedShard(sh, now, offlineAfter, evictAfter).assets.Keys <= sh.assets.Keys
  {
    hide Swept, Stale, UnbindAll;
  }

  lemma AbsorbsInShard(sh: Shard, i: nat, first: Time, now: Time, offlineAfter: Duration, evictAfter: Duration)
    requires first <= now && WfShard(sh, i)
    ensures var both := TickedShard(TickedShard(sh, first, offlineAfter, evictAfter), now, offlineAfter, evictAfter);
      var one := TickedShard(sh, now, offlineAfter, evictAfter);
      && both.assets == one.assets && both.index == one.index
      && forall id :: id in one.assets ==> (id in both.dirty <==> id in one.dirty)
  {
    hide TickedShard, WfShard;
    var once := TickedShard(sh, first, offlineAfter, evictAfter);
    var both, one := TickedShard(once, now, offlineAfter, evictAfter), TickedShard(sh, now, offlineAfter, evictAfter);
    forall id | id in sh.assets
      ensures id in both.assets <==> id in one.assets
      ensures id in one.assets ==> both.assets[id] == one.assets[id] && (id in both.dirty <==> id in one.dirty)
    {
      AbsorbsInAsset(sh, first, now, offlineAfter, evictAfter, id);
    }
    TickKeepsFewer(sh, first, offlineAfter, evictAfter);
    TickKeepsFewer(once, now, offlineAfter, evictAfter);
    TickKeepsFewer(sh, now, offlineAfter, evictAfter);
    TickKeepsWf(sh, i, first, offlineAfter, evictAfter);
    TickKeepsWf(once, i, now, offlineAfter, evictAfter);
    TickKeepsWf(sh, i, now, offlineAfter, evictAfter);
    SameIndex(both, one, i);
  }
}
