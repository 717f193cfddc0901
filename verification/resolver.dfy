/** Identity resolution: the flat `IdentityIndex` (internal/asset/resolver.go) and the
    `ShardedResolver` (internal/asset/manager.go), which answers like the flat one. */
module Resolver {
  import opened MacAddress
  import opened AssetModel

  /** A pair of maps between MAC keys and asset ids. */
  datatype Index = Index(byKey: map<string, AssetId>, byId: map<AssetId, string>) {
    function Resolve(mac: Mac): Option<AssetId> {
      if MacKey(mac) in byKey then Some(byKey[MacKey(mac)]) else None
    }

    function Bind(id: AssetId, mac: Mac): Index {
      if mac == [] then this else Index(byKey[MacKey(mac) := id], byId[id := MacKey(mac)])
    }

    function Unbind(id: AssetId): Index {
      if id !in byId then this
      else Index(if byId[id] in byKey && byKey[byId[id]] == id then byKey - {byId[id]} else byKey, byId - {id})
    }

    /** The two maps are inverse to each other. */
    ghost predicate Inverse() {
      && (forall k <- byKey.Keys :: byKey[k] in byId && byId[byKey[k]] == k)
      && (forall id <- byId.Keys :: byId[id] in byKey && byKey[byId[id]] == id)
    }

    /** All ids are the keys they are bound to, which is how the manager makes them. */
    ghost predicate IdsAreKeys() {
      forall k :: (k in byKey <==> k in byId) && (k in byKey ==> byKey[k] == k && byId[k] == k)
    }
  }

  const EMPTY_INDEX := Index(map[], map[])

  type ShardedIndex = s: seq<Index> | |s| == SHARD_COUNT witness seq(SHARD_COUNT, i => EMPTY_INDEX)

  function EmptyShards(): ShardedIndex { seq(SHARD_COUNT, i => EMPTY_INDEX) }

  class IdentityIndex {
    var byKey: map<string, AssetId>
    var byId: map<AssetId, string>

    function View(): Index
      reads this
    {
      Index(byKey, byId)
    }

    constructor ()
      ensures View() == EMPTY_INDEX
    {
      byKey, byId := map[], map[];
    }

    method Resolve(mac: Mac) returns (id: Option<AssetId>)
      ensures id == View().Resolve(mac)
    {
      var k := MacKey(mac);
      id := if k in byKey then Some(byKey[k]) else None;
    }

    method Bind(id: AssetId, mac: Mac)
      modifies this
      ensures View() == old(View()).Bind(id, mac)
    {
      if mac == [] {
        return;
      }
      var k := MacKey(mac);
      byKey := byKey[k := id];
      byId := byId[id := k];
    }

    method Unbind(id: AssetId)
      modifies this
      ensures View() == old(View()).Unbind(id)
    {
      if id in byId {
        var k := byId[id];
        if k in byKey && byKey[k] == id {
          byKey := byKey - {k};
        }
        byId := byId - {id};
      }
    }
  }

  class ShardedResolver {
    var shards: seq<Index>

    predicate Valid()
      reads this
    {
      |shards| == SHARD_COUNT
    }

    constructor ()
      ensures Valid() && shards == EmptyShards()
    {
      shards := EmptyShards();
    }

    method Resolve(mac: Mac) returns (id: Option<AssetId>, idx: nat)
      requires Valid()
      ensures idx == ShardIndex(mac) && id == shards[idx].Resolve(mac)
    {
      idx := ShardIndex(mac);
      var k := MacKey(mac);
      id := if k in shards[idx].byKey then Some(shards[idx].byKey[k]) else None;
    }

    /** An index outside the shards falls back to the shard of the address. */
    method Bind(id: AssetId, mac: Mac, idx: int)
      requires Valid()
      modifies this
      ensures Valid()
      ensures var i := if 0 <= idx < SHARD_COUNT then idx else ShardIndex(mac);
        shards == old(shards)[i := old(shards)[i].Bind(id, mac)]
    {
      if mac == [] {
        return;
      }
      var i := if idx < 0 || idx >= SHARD_COUNT then ShardIndex(mac) else idx;
      var k := MacKey(mac);
      shards := shards[i := Index(shards[i].byKey[k := id], shards[i].byId[id := k])];
    }

    method Unbind(id: AssetId, idx: int)
      requires Valid()
      modifies this
      ensures Valid()
      ensures shards == if 0 <= idx < SHARD_COUNT then old(shards)[idx := old(shards)[idx].Unbind(id)] else old(shards)
    {
      if idx < 0 || idx >= SHARD_COUNT {
        return;
      }
      var s := shards[idx];
      if id in s.byId {
        var k := s.byId[id];
        var byKey := if k in s.byKey && s.byKey[k] == id then s.byKey - {k} else s.byKey;
        shards := shards[idx := Index(byKey, s.byId - {id})];
      }
    }
  }

  /** One call that the manager makes, with the id it generates from the address. */
  datatype Call = Bind(mac: Mac) | Unbind(mac: Mac)

  ghost function FlatCall(x: Index, c: Call): Index {
    match c
    case Bind(mac) => x.Bind(MacKey(mac), mac)
    case Unbind(mac) => x.Unbind(MacKey(mac))
  }

  ghost function ShardedCall(s: ShardedIndex, c: Call): ShardedIndex {
    var i := ShardIndex(c.mac);
    s[i := FlatCall(s[i], c)]
  }

  ghost function FlatRun(calls: seq<Call>): Index {
    if calls == [] then EMPTY_INDEX else FlatCall(FlatRun(calls[..|calls| - 1]), calls[|calls| - 1])
  }

  ghost function ShardedRun(calls: seq<Call>): ShardedIndex {
    if calls == [] then EmptyShards() else ShardedCall(ShardedRun(calls[..|calls| - 1]), calls[|calls| - 1])
  }

  /** Shard i holds the part of the flat index whose keys have their home there. */
  ghost predicate HoldsPart(x: Index, shard: Index, i: nat) {
    shard.IdsAreKeys() && forall k :: k in shard.byKey <==> k in x.byKey && Home(k) == i
  }

  ghost predicate Split(x: Index, s: ShardedIndex) {
    && x.IdsAreKeys() && (forall k :: k in x.byKey ==> IsKey(k))
    && (forall i | 0 <= i < SHARD_COUNT :: HoldsPart(x, s[i], i))
  }

  /** In an index of keys, binding adds a key to both maps and unbinding removes it. */
  lemma IndexOfKeys(x: Index, mac: Mac)
    requires x.IdsAreKeys() && "" !in x.byKey
    ensures var k := MacKey(mac);
      && x.Bind(k, mac).IdsAreKeys() && x.Unbind(k).IdsAreKeys()
      && (forall l :: l in x.Bind(k, mac).byKey <==> l in x.byKey || (mac != [] && l == k))
      && (forall l :: l in x.Unbind(k).byKey <==> l in x.byKey && l != k)
  {
  }

  lemma CallOfKeys(x: Index, c: Call)
    requires x.IdsAreKeys() && "" !in x.byKey
    ensures FlatCall(x, c).IdsAreKeys()
    ensures forall l :: l in FlatCall(x, c).byKey <==>
      if c.Bind? then l in x.byKey || (c.mac != [] && l == MacKey(c.mac)) else l in x.byKey && l != MacKey(c.mac)
  {
    hide MacKey;
    IndexOfKeys(x, c.mac);
  }

  lemma CallKeepsPart(x: Index, shard: Index, c: Call, i: nat)
    requires x.IdsAreKeys() && (forall k :: k in x.byKey ==> IsKey(k)) && HoldsPart(x, shard, i)
    ensures (forall k :: k in FlatCall(x, c).byKey ==> IsKey(k)) && FlatCall(x, c).IdsAreKeys()
    ensures HoldsPart(FlatCall(x, c), if i == ShardIndex(c.mac) then FlatCall(shard, c) else shard, i)
  {
    hide Home, IsKey, MacKey, ShardIndex, FlatCall, Index.IdsAreKeys;
    assert "" !in x.byKey by {
      if "" in x.byKey {
        KeyNotEmpty("");
      }
    }
    CallOfKeys(x, c);
    CallOfKeys(shard, c);
    if c.mac != [] {
      HomeOfKey(c.mac);
    }
  }

  lemma CallKeepsSplit(x: Index, s: ShardedIndex, c: Call)
    requires Split(x, s)
    ensures Split(FlatCall(x, c), ShardedCall(s, c))
  {
    CallKeepsPart(x, s[0], c, 0);
    forall i | 0 <= i < SHARD_COUNT ensures HoldsPart(FlatCall(x, c), ShardedCall(s, c)[i], i) {
      CallKeepsPart(x, s[i], c, i);
    }
  }

  lemma {:induction false} RunKeepsSplit(calls: seq<Call>)
    ensures Split(FlatRun(calls), ShardedRun(calls))
  {
    if calls != [] {
      RunKeepsSplit(calls[..|calls| - 1]);
      CallKeepsSplit(FlatRun(calls[..|calls| - 1]), ShardedRun(calls[..|calls| - 1]), calls[|calls| - 1]);
    }
  }

  /** After any calls the sharded resolver and the flat index give the same answer for every
      address, and both pairs of maps are inverse to each other. */
  lemma ShardedAnswersAsFlat(calls: seq<Call>, mac: Mac)
    ensures ShardedRun(calls)[ShardIndex(mac)].Resolve(mac) == FlatRun(calls).Resolve(mac)
    ensures FlatRun(calls).Inverse()
    ensures forall i | 0 <= i < SHARD_COUNT :: ShardedRun(calls)[i].Inverse()
  {
    RunKeepsSplit(calls);
    var x := FlatRun(calls);
    if mac != [] {
      HomeOfKey(mac);
    } else {
      assert MacKey(mac) == "";
      if "" in x.byKey {
        KeyNotEmpty("");
      }
    }
  }
}
