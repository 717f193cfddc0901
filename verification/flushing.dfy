/** One flush as the program makes it (internal/persist/persister.go): the manager is drained
    shard by shard, a batch is collected, and the repository is asked to save it until it does
    or the persister gives up. */
module Flushing {
  import opened MacAddress
  import opened AssetModel
  import opened Merging
  import opened Store
  import opened Linearization
  import opened Persister
  import opened Repositories
  import opened Storage
  import opened ShardedSystem
  import opened WriteBehind
  import M = Manager

  /** The manager, the persister and the repository as one state, with nobody in flight. */
  ghost function SystemOf(m: M.Manager, p: Persister, r: Repository): Sharded
    requires m.Shape()
    reads m, m.resolver, m.Cells(), p, r
  {
    Sharded(World(m.View(), map[]), [], p.latest, [], r.rows)
  }

  /** The drains of the first n shards, one after the other. */
  ghost function Drainings(outs: seq<seq<Snapshot>>): seq<ShardMove>
    requires |outs| <= SHARD_COUNT
  {
    seq(|outs|, i requires 0 <= i < |outs| => Draining(i, outs[i]))
  }

  ghost predicate DrainedShards(st: Store, outs: seq<seq<Snapshot>>) {
    |outs| <= SHARD_COUNT && forall i | 0 <= i < |outs| :: DrainsShard(st[i], outs[i])
  }

  /** A drain of the whole store, taken apart. */
  lemma {:induction false} TakenApart(st: Store, n: nat, out: seq<Snapshot>) returns (outs: seq<seq<Snapshot>>)
    requires n <= SHARD_COUNT && Drains(st, n, out)
    ensures |outs| == n && DrainedShards(st, outs) && Concat(outs) == out
  {
    hide DrainsShard;
    outs := [];
    if n > 0 {
      var k :| 0 <= k <= |out| && Drains(st, n - 1, out[..k]) && DrainsShard(st[n - 1], out[k..]);
      var front := TakenApart(st, n - 1, out[..k]);
      outs := front + [out[k..]];
      assert outs[..n - 1] == front;
    }
  }

  /** The store after the first n shards were drained. */
  function CleanUpTo(st: Store, n: nat): Store {
    seq(SHARD_COUNT, i requires 0 <= i < SHARD_COUNT => if i < n then st[i].(dirty := {}) else st[i])
  }

  /** Draining shard after shard, with nobody in between. */
  lemma {:induction false} DrainingsRun(g: Guesses, batchSize: int, y: Sharded, outs: seq<seq<Snapshot>>)
    requires DrainedShards(y.world.store, outs) && y.world.flights == map[]
    ensures RunOnShards(g, batchSize, y, Drainings(outs))
      == Some(y.(world := World(CleanUpTo(y.world.store, |outs|), map[]), drained := y.drained + Concat(outs)))
  {
    hide DrainsShard;
    var st := y.world.store;
    if outs == [] {
      assert CleanUpTo(st, 0) == st;
      assert y.drained + Concat(outs) == y.drained;
    } else {
      var n := |outs| - 1;
      DrainingsRun(g, batchSize, y, outs[..n]);
      assert Drainings(outs)[..n] == Drainings(outs[..n]);
      CleanOneMore(g, st, n);
      assert y.drained + Concat(outs[..n]) + outs[n] == y.drained + Concat(outs);
    }
  }

  lemma CleanOneMore(g: Guesses, st: Store, n: ShardId)
    ensures Step(g, CleanUpTo(st, n), DrainOp(n)) == Some(CleanUpTo(st, n + 1))
    ensures Happen(g, World(CleanUpTo(st, n), map[]), Other(DrainOp(n))) == Some(World(CleanUpTo(st, n + 1), map[]))
  {
    assert CleanUpTo(st, n)[n := CleanUpTo(st, n)[n].(dirty := {})] == CleanUpTo(st, n + 1);
  }

  lemma RunOnMore(g: Guesses, batchSize: int, y: Sharded, moves: seq<ShardMove>, v: ShardMove)
    requires RunOnShards(g, batchSize, y, moves).Some?
    ensures RunOnShards(g, batchSize, y, moves + [v]) == NextOnShards(g, batchSize, RunOnShards(g, batchSize, y, moves).value, v)
  {
    hide NextOnShards;
    assert (moves + [v])[..|moves|] == moves;
  }

  /** The moves of a flush that drains `outs`. */
  ghost function FlushMoves(outs: seq<seq<Snapshot>>, saved: bool): seq<ShardMove>
    requires |outs| <= SHARD_COUNT
  {
    Drainings(outs) + [Collecting] + [if saved then Saving else Losing]
  }

  lemma FlushRun(g: Guesses, batchSize: int, y: Sharded, outs: seq<seq<Snapshot>>, saved: bool)
    requires DrainedShards(y.world.store, outs) && |outs| == SHARD_COUNT && y.world.flights == map[] && y.drained == []
    ensures var batch, rest := Taken(y.pending, Concat(outs), batchSize), Left(y.pending, Concat(outs), batchSize);
      RunOnShards(g, batchSize, y, FlushMoves(outs, saved))
        == Some(Sharded(World(CleanStore(y.world.store), map[]), [], rest, [], if saved then SaveAll(y.db, batch) else y.db))
  {
    hide Taken, Left, SaveAll, RunOnShards, DrainedShards;
    DrainingsRun(g, batchSize, y, outs);
    assert CleanUpTo(y.world.store, SHARD_COUNT) == CleanStore(y.world.store);
    assert [] + Concat(outs) == Concat(outs);
    RunOnMore(g, batchSize, y, Drainings(outs), Collecting);
    RunOnMore(g, batchSize, y, Drainings(outs) + [Collecting], if saved then Saving else Losing);
  }

  /** A flush is a drain of each shard, Collecting, and Saving, or Losing when all attempts to
      save the batch fail. */
  method FlushNow(m: M.Manager, p: Persister, r: Repository, answer: nat -> Answer, ctxEnds: nat -> bool)
    returns (result: Result, ghost outs: seq<seq<Snapshot>>)
    requires m.Valid()
    modifies m`dirty, p, r
    ensures m.Valid() && |outs| == SHARD_COUNT && DrainedShards(old(m.View()), outs)
    ensures var batch := Taken(old(p.latest), Concat(outs), p.batchSize);
      if batch == [] then result == Ok else exists calls: int :: EndsWith(answer, ctxEnds, p.MaxCalls(), calls, result)
    ensures RunOnShards(m.guesses, p.batchSize, old(SystemOf(m, p, r)), FlushMoves(outs, result.Ok?)) == Some(SystemOf(m, p, r))
  {
    hide Drains, DrainedShards, SaveAll, Taken, Left, RunOnShards;
    ghost var before := SystemOf(m, p, r);
    var drained := m.DrainDirty();
    outs := TakenApart(before.world.store, SHARD_COUNT, drained);
    ghost var view, cells := m.View(), m.Cells();
    assert forall a: object :: a in cells ==> a != p && a != r;
    var batch;
    batch, result := p.Flush(r, drained, answer, ctxEnds);
    assert m.Valid() && m.View() == view;
    FlushRun(m.guesses, p.batchSize, before, outs, result.Ok?);
  }
}
