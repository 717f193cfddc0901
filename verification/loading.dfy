/** What a load leaves in memory, told from the snapshots alone: of all that are offered for an
    asset the first with the latest time, unless memory is as late. */
module Loading {
  import opened Clock
  import opened MacAddress
  import opened AssetModel
  import opened Store
  import opened Linearization

  /** A snapshot that is for this id and this shard. One without an id or an address is for none. */
  predicate Offers(s: Snapshot, i: nat, id: AssetId) { s.id == id && id != "" && s.mac != [] && ShardIndex(s.mac) == i }

  /** Snapshot j is offered, later than all that are offered before it, and not earlier than any
      that is offered after it. */
  ghost predicate FirstLatest(snaps: seq<Snapshot>, j: nat, i: nat, id: AssetId)
    requires j < |snaps|
  {
    && Offers(snaps[j], i, id)
    && (forall l | 0 <= l < j :: Offers(snaps[l], i, id) ==> snaps[l].lastSeen < snaps[j].lastSeen)
    && (forall l | j < l < |snaps| :: Offers(snaps[l], i, id) ==> snaps[l].lastSeen <= snaps[j].lastSeen)
  }

  /** What is in memory under an id before and after a load. */
  ghost predicate Newest(before: Option<Snapshot>, after: Option<Snapshot>, snaps: seq<Snapshot>, i: nat, id: AssetId) {
    if forall s <- snaps :: Offers(s, i, id) ==> before.Some? && s.lastSeen <= before.value.lastSeen then after == before
    else
      exists j | 0 <= j < |snaps| ::
        FirstLatest(snaps, j, i, id) && after == Some(snaps[j])
        && (before.Some? ==> before.value.lastSeen < snaps[j].lastSeen)
  }

  ghost function Group(st: Store, snaps: seq<Snapshot>, i: ShardId): Shard { LoadShard(st[i], ForShard(snaps, i)) }

  lemma GroupMore(st: Store, snaps: seq<Snapshot>, i: ShardId)
    requires snaps != []
    ensures var front, s := snaps[..|snaps| - 1], snaps[|snaps| - 1];
      Group(st, snaps, i) == if Loadable(s) && ShardIndex(s.mac) == i then LoadOne(Group(st, front, i), s) else Group(st, front, i)
  {
    hide ShardIndex, LoadOne, Loadable;
    var front, s := snaps[..|snaps| - 1], snaps[|snaps| - 1];
    var group := ForShard(front, i);
    if Loadable(s) && ShardIndex(s.mac) == i {
      assert (group + [s])[..|group + [s]| - 1] == group;
    } else {
      assert group + [] == group;
    }
  }

  lemma LastIsLatest(front: seq<Snapshot>, s: Snapshot, i: nat, id: AssetId)
    requires Offers(s, i, id) && forall x <- front :: Offers(x, i, id) ==> x.lastSeen < s.lastSeen
    ensures FirstLatest(front + [s], |front|, i, id)
  {
    hide Offers;
    var snaps := front + [s];
    assert forall l | 0 <= l < |front| :: snaps[l] in front;
  }

  lemma StaysLatest(front: seq<Snapshot>, s: Snapshot, j: nat, i: nat, id: AssetId)
    requires j < |front| && FirstLatest(front, j, i, id) && (Offers(s, i, id) ==> s.lastSeen <= front[j].lastSeen)
    ensures FirstLatest(front + [s], j, i, id)
  {
    hide Offers;
    var snaps := front + [s];
    assert forall l | 0 <= l < |front| :: snaps[l] == front[l];
  }

  /** Later than what is there after a load is later than what was there and all that was offered. */
  lemma LaterThanAll(before: Option<Snapshot>, now: Option<Snapshot>, snaps: seq<Snapshot>, i: nat, id: AssetId, t: Time)
    requires Newest(before, now, snaps, i, id)
    ensures (now.Some? ==> now.value.lastSeen < t) <==>
      (before.Some? ==> before.value.lastSeen < t) && forall x <- snaps :: Offers(x, i, id) ==> x.lastSeen < t
  {
    hide Offers;
    if !forall x <- snaps :: Offers(x, i, id) ==> before.Some? && x.lastSeen <= before.value.lastSeen {
      var j :| 0 <= j < |snaps| && FirstLatest(snaps, j, i, id) && now == Some(snaps[j])
        && (before.Some? ==> before.value.lastSeen < snaps[j].lastSeen);
      assert snaps[j] in snaps;
    }
  }

  /** One more snapshot that is offered. */
  lemma NewestMore(before: Option<Snapshot>, now: Option<Snapshot>, front: seq<Snapshot>, s: Snapshot, i: nat, id: AssetId)
    requires Newest(before, now, front, i, id)
    ensures var taken := Offers(s, i, id) && (now.Some? ==> now.value.lastSeen < s.lastSeen);
      Newest(before, if taken then Some(s) else now, front + [s], i, id)
  {
    hide Offers, FirstLatest;
    var snaps, n := front + [s], |front|;
    assert snaps[n] == s && forall x :: x in snaps <==> x in front || x == s;
    if Offers(s, i, id) && (now.Some? ==> now.value.lastSeen < s.lastSeen) {
      LaterThanAll(before, now, front, i, id, s.lastSeen);
      LastIsLatest(front, s, i, id);
      assert s in snaps && FirstLatest(snaps, n, i, id) && Some(s) == Some(snaps[n]);
    } else if !forall x <- front :: Offers(x, i, id) ==> before.Some? && x.lastSeen <= before.value.lastSeen {
      var j :| 0 <= j < n && FirstLatest(front, j, i, id) && now == Some(front[j])
        && (before.Some? ==> before.value.lastSeen < front[j].lastSeen);
      StaysLatest(front, s, j, i, id);
      assert snaps[j] == front[j];
    }
  }

  lemma {:induction false} GroupIsNewest(st: Store, snaps: seq<Snapshot>, i: ShardId, id: AssetId)
    ensures Newest(Lookup(st[i].assets, id), Lookup(Group(st, snaps, i).assets, id), snaps, i, id)
    ensures Group(st, snaps, i).dirty == st[i].dirty
  {
    hide ShardIndex, Group, Newest;
    if snaps == [] {
      NothingOffered(st, i, id);
    } else {
      var front, s := snaps[..|snaps| - 1], snaps[|snaps| - 1];
      assert snaps == front + [s];
      GroupIsNewest(st, front, i, id);
      GroupMore(st, snaps, i);
      NewestMore(Lookup(st[i].assets, id), Lookup(Group(st, front, i).assets, id), front, s, i, id);
    }
  }

  lemma NothingOffered(st: Store, i: ShardId, id: AssetId)
    ensures Group(st, [], i) == st[i]
    ensures Newest(Lookup(st[i].assets, id), Lookup(st[i].assets, id), [], i, id)
  {
  }

  /** Under every id a load leaves the newest, and it makes nothing dirty. */
  lemma LoadsAreNewest(st: Store, snaps: seq<Snapshot>, i: ShardId, id: AssetId)
    ensures var after := LoadedStore(st, snaps)[i];
      after.dirty == st[i].dirty && Newest(Lookup(st[i].assets, id), Lookup(after.assets, id), snaps, i, id)
  {
    hide Newest, LoadShard;
    GroupIsNewest(st, snaps, i, id);
  }

  /** Snapshot j is later than what memory had of its asset and than all before it. */
  ghost predicate Improves(st: Store, snaps: seq<Snapshot>, j: nat)
    requires j < |snaps|
  {
    var s, i := snaps[j], ShardIndex(snaps[j].mac);
    && Offers(s, i, s.id)
    && (s.id in st[i].assets ==> st[i].assets[s.id].lastSeen < s.lastSeen)
    && forall l | 0 <= l < j :: Offers(snaps[l], i, s.id) ==> snaps[l].lastSeen < s.lastSeen
  }

  lemma TakenIffImproves(st: Store, snaps: seq<Snapshot>)
    requires snaps != []
    ensures var front, s := snaps[..|snaps| - 1], snaps[|snaps| - 1];
      var i := ShardIndex(s.mac);
      Loadable(s) && Newer(Group(st, front, i), s) <==> Improves(st, snaps, |snaps| - 1)
  {
    hide ShardIndex, Group, Newest;
    var n := |snaps| - 1;
    var front, s := snaps[..n], snaps[n];
    var i := ShardIndex(s.mac);
    GroupIsNewest(st, front, i, s.id);
    LaterThanAll(Lookup(st[i].assets, s.id), Lookup(Group(st, front, i).assets, s.id), front, i, s.id, s.lastSeen);
    assert (forall x <- front :: Offers(x, i, s.id) ==> x.lastSeen < s.lastSeen)
      <==> (forall l | 0 <= l < n :: Offers(snaps[l], i, s.id) ==> snaps[l].lastSeen < s.lastSeen) by {
      hide Offers;
      assert forall l | 0 <= l < n :: snaps[l] == front[l] && front[l] in front;
    }
  }

  lemma AdoptedMoreHere(st: Store, snaps: seq<Snapshot>, i: ShardId)
    requires snaps != []
    ensures var front, s := snaps[..|snaps| - 1], snaps[|snaps| - 1];
      Adopted(st[i], ForShard(snaps, i))
        == Adopted(st[i], ForShard(front, i)) + if Loadable(s) && ShardIndex(s.mac) == i && Newer(Group(st, front, i), s) then 1 else 0
  {
    hide ShardIndex, LoadShard, Loadable, Newer;
    var front, s := snaps[..|snaps| - 1], snaps[|snaps| - 1];
    var group := ForShard(front, i);
    if Loadable(s) && ShardIndex(s.mac) == i {
      assert (group + [s])[..|group + [s]| - 1] == group;
    } else {
      assert group + [] == group;
    }
  }

  lemma {:induction false} AdoptedMore(st: Store, snaps: seq<Snapshot>, n: nat)
    requires snaps != [] && n <= SHARD_COUNT
    ensures var front, s := snaps[..|snaps| - 1], snaps[|snaps| - 1];
      var i := ShardIndex(s.mac);
      AdoptedIn(st, snaps, n)
        == AdoptedIn(st, front, n) + if Loadable(s) && i < n && Newer(Group(st, front, i), s) then 1 else 0
  {
    hide ShardIndex, ForShard, Adopted, Loadable, Newer, Group;
    if n > 0 {
      AdoptedMore(st, snaps, n - 1);
      AdoptedMoreHere(st, snaps, n - 1);
    }
  }

  lemma {:induction false} NoneAdopted(st: Store, n: nat)
    requires n <= SHARD_COUNT
    ensures AdoptedIn(st, [], n) == 0
  {
    if n > 0 {
      NoneAdopted(st, n - 1);
    }
  }

  /** The number that a load answers: how many snapshots improve on all that came before. */
  lemma {:induction false} CountIsImproved(st: Store, snaps: seq<Snapshot>)
    ensures AdoptedIn(st, snaps, SHARD_COUNT) == |set j | 0 <= j < |snaps| && Improves(st, snaps, j)|
  {
    hide ShardIndex, AdoptedIn, Improves, Newer, Group;
    var all := set j | 0 <= j < |snaps| && Improves(st, snaps, j);
    if snaps == [] {
      NoneAdopted(st, SHARD_COUNT);
      assert all == {};
    } else {
      var n := |snaps| - 1;
      var front := snaps[..n];
      CountIsImproved(st, front);
      AdoptedMore(st, snaps, SHARD_COUNT);
      TakenIffImproves(st, snaps);
      forall j | 0 <= j < n ensures Improves(st, snaps, j) <==> Improves(st, front, j) {
        ImprovesInFront(st, snaps, j);
      }
      assert all == (set j | 0 <= j < n && Improves(st, front, j)) + if Improves(st, snaps, n) then {n} else {};
    }
  }

  lemma ImprovesInFront(st: Store, snaps: seq<Snapshot>, j: nat)
    requires j < |snaps| - 1
    ensures Improves(st, snaps, j) <==> Improves(st, snaps[..|snaps| - 1], j)
  {
    hide ShardIndex;
    var front := snaps[..|snaps| - 1];
    assert forall l | 0 <= l <= j :: front[l] == snaps[l];
  }
}
