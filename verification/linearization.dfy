/** `Apply` resolves an address before it takes the shard lock. This module treats the two
    as separate steps of interleaved callers, says exactly when the pair behaves as one
    atomic call, and shows that runs of such calls are runs on one plain map. */
module Linearization {
  import opened Clock
  import opened MacAddress
  import opened AssetModel
  import opened Merging
  import opened Resolver
  import opened Store

  // ---------- the effect of one Apply ----------

  /** The new contents of the asset of an observation, from the contents it had. */
  ghost function NewContents(g: Guesses, current: Option<Snapshot>, obs: Observation, row: Option<Snapshot>): Snapshot {
    if current.Some? then Revived(g, current.value, obs)
    else if row.Some? then Revived(g, row.value, obs)
    else NewAsset(g, obs)
  }

  ghost predicate RaisesDirty(g: Guesses, current: Option<Snapshot>, obs: Observation, row: Option<Snapshot>) {
    if current.Some? then ReviveChanges(g, current.value, obs)
    else row.Some? ==> ReviveChanges(g, row.value, obs)
  }

  function Lookup(assets: map<AssetId, Snapshot>, id: AssetId): Option<Snapshot> {
    if id in assets then Some(assets[id]) else None
  }

  /** A shard after one asset was written: filed, bound, and made dirty or not. */
  function Written(sh: Shard, mac: Mac, s: Snapshot, dirty: bool): Shard {
    var k := MacKey(mac);
    Shard(sh.assets[k := s], if dirty then sh.dirty + {k} else sh.dirty, sh.index.Bind(k, mac))
  }

  /** An atomic Apply reads and writes nothing but the asset of its own address. */
  lemma ApplyIsWrite(g: Guesses, st: Store, obs: Observation, row: Option<Snapshot>)
    requires Wf(st) && obs.Valid() && (row.Some? ==> RowFor(row.value, obs.mac))
    ensures var i, k := ShardIndex(obs.mac), MacKey(obs.mac);
      var current := Lookup(st[i].assets, k);
      Apply(g, st, obs, row) == Done(
        Written(st[i], obs.mac, NewContents(g, current, obs, row), RaisesDirty(g, current, obs, row)),
        k, if current.Some? || row.Some? then Updated else Created)
  {
    hide Merged, ReviveChanges, Home, IsKey, MacKey, ShardIndex;
    var i, k := ShardIndex(obs.mac), MacKey(obs.mac);
    assert WfShard(st[i], i);
    HomeOfKey(obs.mac);
    KeyNotEmpty(k);
    if k !in st[i].assets && row.Some? {
      HydratedUpdate(g, st[i], obs, row.value);
    }
  }

  function WrittenStore(st: Store, mac: Mac, s: Snapshot, dirty: bool): Store {
    st[ShardIndex(mac) := Written(st[ShardIndex(mac)], mac, s, dirty)]
  }

  function Current(st: Store, mac: Mac): Option<Snapshot> { Lookup(st[ShardIndex(mac)].assets, MacKey(mac)) }

  lemma StepIsWrite(g: Guesses, st: Store, obs: Observation, row: Option<Snapshot>)
    requires Wf(st) && obs.Valid() && GoodOp(ApplyOp(obs, row))
    ensures var current := Current(st, obs.mac);
      Step(g, st, ApplyOp(obs, row))
        == Some(WrittenStore(st, obs.mac, NewContents(g, current, obs, row), RaisesDirty(g, current, obs, row)))
  {
    ApplyIsWrite(g, st, obs, row);
    hide Apply, NewContents, RaisesDirty, MacKey, ShardIndex, Wf;
  }

  lemma WritesCommute(st: Store, a: Mac, s: Snapshot, c: bool, b: Mac, t: Snapshot, d: bool)
    requires MacKey(a) != MacKey(b)
    ensures WrittenStore(WrittenStore(st, a, s, c), b, t, d) == WrittenStore(WrittenStore(st, b, t, d), a, s, c)
    ensures Current(WrittenStore(st, a, s, c), b) == Current(st, b)
  {
    hide MacKey, ShardIndex;
    var i, j, k, l := ShardIndex(a), ShardIndex(b), MacKey(a), MacKey(b);
    var sh := st[i];
    assert sh.assets[k := s][l := t] == sh.assets[l := t][k := s];
    assert sh.index.byKey[k := k][l := l] == sh.index.byKey[l := l][k := k];
    assert sh.index.byId[k := k][l := l] == sh.index.byId[l := l][k := k];
    var ab, ba := WrittenStore(WrittenStore(st, a, s, c), b, t, d), WrittenStore(WrittenStore(st, b, t, d), a, s, c);
    forall n | 0 <= n < SHARD_COUNT ensures ab[n] == ba[n] {
      assert n != i && n != j ==> ab[n] == st[n] == ba[n];
    }
  }

  /** Applies for different addresses commute. */
  lemma AppliesCommute(g: Guesses, st: Store, a: Observation, rowA: Option<Snapshot>, b: Observation, rowB: Option<Snapshot>)
    requires Wf(st) && GoodOp(ApplyOp(a, rowA)) && GoodOp(ApplyOp(b, rowB)) && a.mac != b.mac
    ensures var ab := Step(g, st, ApplyOp(a, rowA)); var ba := Step(g, st, ApplyOp(b, rowB));
      ab.Some? && ba.Some? && Step(g, ab.value, ApplyOp(b, rowB)) == Step(g, ba.value, ApplyOp(a, rowA))
  {
    StepKeepsWf(g, st, ApplyOp(a, rowA));
    StepKeepsWf(g, st, ApplyOp(b, rowB));
    if a.Valid() && b.Valid() {
      var ab, ba := Step(g, st, ApplyOp(a, rowA)).value, Step(g, st, ApplyOp(b, rowB)).value;
      if MacKey(a.mac) == MacKey(b.mac) {
        MacKeyInjective(a.mac, b.mac);
      }
      hide *;
      StepIsWrite(g, st, a, rowA);
      StepIsWrite(g, st, b, rowB);
      StepIsWrite(g, ab, b, rowB);
      StepIsWrite(g, ba, a, rowA);
      var s, c := NewContents(g, Current(st, a.mac), a, rowA), RaisesDirty(g, Current(st, a.mac), a, rowA);
      var t, d := NewContents(g, Current(st, b.mac), b, rowB), RaisesDirty(g, Current(st, b.mac), b, rowB);
      WritesCommute(st, a.mac, s, c, b.mac, t, d);
      WritesCommute(st, b.mac, t, d, a.mac, s, c);
    }
  }

  // ---------- a stale resolve ----------

  /** The locked part, given an answer of Resolve from some earlier time (none, or the key),
      and no row in the database, does what the atomic call does iff that answer is still
      right. If the asset was evicted since, the call crashes; if it was created since, a
      new asset overwrites it and everything merged so far is lost. */
  lemma StaleResolve(g: Guesses, st: Store, obs: Observation, resolved: Option<AssetId>)
    requires Wf(st) && obs.Valid() && (resolved.Some? ==> resolved.value == MacKey(obs.mac))
    ensures var sh, k := st[ShardIndex(obs.mac)], MacKey(obs.mac);
      var o := Commit(g, sh, obs, resolved, None);
      && (o == Apply(g, st, obs, None) <==> resolved == Resolve(st, obs.mac))
      && (o.Crashed? <==> resolved.Some? && k !in sh.assets)
      && (resolved.None? ==> o.Done? && o.shard.assets == sh.assets[k := NewAsset(g, obs)])
  {
    hide Merged, ReviveChanges, Home, IsKey, MacKey, ShardIndex;
    assert WfShard(st[ShardIndex(obs.mac)], ShardIndex(obs.mac));
    HomeOfKey(obs.mac);
    KeyNotEmpty(MacKey(obs.mac));
    ApplyIsWrite(g, st, obs, None);
  }

  /** The locked part of a caller that was told that there is no asset is a write of what it
      hydrates or creates, whether there is an asset by now or not. */
  lemma EnterIsWrite(g: Guesses, sh: Shard, obs: Observation, row: Option<Snapshot>)
    requires obs.mac != [] && (row.Some? ==> RowFor(row.value, obs.mac))
    ensures Commit(g, sh, obs, None, row) == Done(
      Written(sh, obs.mac, NewContents(g, None, obs, row), RaisesDirty(g, None, obs, row)),
      MacKey(obs.mac), if row.Some? then Updated else Created)
  {
    hide Merged, ReviveChanges, Home, IsKey, MacKey, ShardIndex;
    HomeOfKey(obs.mac);
    KeyNotEmpty(MacKey(obs.mac));
    if row.Some? {
      HydratedUpdate(g, sh, obs, row.value);
    }
  }

  lemma WrittenSame(sh: Shard, mac: Mac, s: Snapshot, c: bool, t: Snapshot, d: bool)
    ensures Written(sh, mac, s, c) == Written(sh, mac, t, d) <==> s == t && (c == d || MacKey(mac) in sh.dirty)
  {
    hide MacKey;
    var k := MacKey(mac);
    assert sh.assets[k := s][k] == s && sh.assets[k := t][k] == t;
    assert k in sh.dirty ==> sh.dirty + {k} == sh.dirty;
    assert k !in sh.dirty ==> sh.dirty + {k} != sh.dirty;
  }

  lemma CountsOneMore(g: Guesses, s: Snapshot, obs: Observation)
    ensures Revived(g, s, obs).seenCount == s.seenCount + 1
  {
    hide Merged;
    MergedIdentity(g, s, obs);
  }

  /** Where the database has a row: an asset that was created since the resolve is replaced
      by that row with the one observation merged into it. This goes unnoticed iff it gives
      the same contents and the same of it dirty: so it does where memory and row are the same,
      and does not where they differ in the number of observations. */
  lemma StaleHydrate(g: Guesses, st: Store, obs: Observation, row: Snapshot)
    requires Wf(st) && obs.Valid() && RowFor(row, obs.mac) && Current(st, obs.mac).Some?
    ensures var sh, k, current := st[ShardIndex(obs.mac)], MacKey(obs.mac), Current(st, obs.mac).value;
      var o := Commit(g, sh, obs, None, Some(row));
      && o == Done(Written(sh, obs.mac, Revived(g, row, obs), ReviveChanges(g, row, obs)), k, Updated)
      && (o == Apply(g, st, obs, Some(row)) <==>
            && Revived(g, row, obs) == Revived(g, current, obs)
            && (ReviveChanges(g, row, obs) == ReviveChanges(g, current, obs) || k in sh.dirty))
      && (row == current ==> o == Apply(g, st, obs, Some(row)))
      && (row.seenCount != current.seenCount ==> o != Apply(g, st, obs, Some(row)))
  {
    hide Merged, Revived, ReviveChanges, Home, IsKey, MacKey, ShardIndex;
    var sh, current := st[ShardIndex(obs.mac)], Current(st, obs.mac).value;
    HomeOfKey(obs.mac);
    KeyNotEmpty(MacKey(obs.mac));
    ApplyIsWrite(g, st, obs, Some(row));
    HydratedUpdate(g, sh, obs, row);
    CountsOneMore(g, row, obs);
    CountsOneMore(g, current, obs);
    WrittenSame(sh, obs.mac, Revived(g, row, obs), ReviveChanges(g, row, obs), Revived(g, current, obs), ReviveChanges(g, current, obs));
  }

  // ---------- interleaved callers ----------

  /** A caller between its resolve and its locked part. */
  datatype Flight = Flight(obs: Observation, resolved: Option<AssetId>)

  datatype Event =
    | Enter(caller: nat, obs: Observation)
    | Locked(caller: nat, row: Option<Snapshot>)
    | Other(op: Op)

  datatype World = World(store: Store, flights: map<nat, Flight>)

  /** None is a crash. A caller that is not in flight has nothing to do in its locked part,
      and an invalid observation never gets that far. */
  ghost function Happen(g: Guesses, w: World, e: Event): Option<World> {
    match e
    case Enter(c, obs) =>
      Some(if obs.Valid() then w.(flights := w.flights[c := Flight(obs, Resolve(w.store, obs.mac))]) else w)
    case Locked(c, row) =>
      if c !in w.flights then Some(w)
      else
        var f := w.flights[c];
        var o := Commit(g, w.store[ShardIndex(f.obs.mac)], f.obs, f.resolved, row);
        if o.Crashed? then None else Some(World(After(w.store, f.obs.mac, o), w.flights - {c}))
    case Other(op) =>
      var st := Step(g, w.store, op);
      if st.None? then None else Some(w.(store := st.value))
  }

  /** The call that an event amounts to when resolve and locked part are one. */
  ghost function Atomic(w: World, e: Event): seq<Op> {
    match e
    case Enter(_, _) => []
    case Locked(c, row) => if c in w.flights then [ApplyOp(w.flights[c].obs, row)] else []
    case Other(op) => [op]
  }

  /** Rows belong to the address they are found for. */
  ghost predicate GoodRows(w: World, e: Event) {
    match e
    case Enter(_, _) => true
    case Locked(c, row) => c in w.flights ==> GoodOp(ApplyOp(w.flights[c].obs, row))
    case Other(op) => GoodOp(op)
  }

  /** A caller that takes the lock was told what it would be told now. */
  ghost predicate UpToDate(w: World, e: Event) {
    e.Locked? && e.caller in w.flights ==>
      var f := w.flights[e.caller]; f.resolved == Resolve(w.store, f.obs.mac)
  }

  ghost predicate FlightsOk(w: World) {
    forall c <- w.flights.Keys :: var f := w.flights[c];
      f.obs.Valid() && (f.resolved.Some? ==> f.resolved.value == MacKey(f.obs.mac))
  }

  lemma ResolveIsPresence(st: Store, mac: Mac)
    requires Wf(st) && mac != []
    ensures Resolve(st, mac) == if Current(st, mac).Some? then Some(MacKey(mac)) else None
  {
    hide Home, IsKey, MacKey, ShardIndex;
    assert WfShard(st[ShardIndex(mac)], ShardIndex(mac));
  }

  /** A caller's answer is right when it takes the lock iff its asset is there again or still,
      or is still or again not there; what happened in between does not matter. */
  lemma RightIffPresence(before: Store, after: Store, mac: Mac)
    requires Wf(before) && Wf(after) && mac != []
    ensures Resolve(before, mac) == Resolve(after, mac) <==> (Current(before, mac).Some? <==> Current(after, mac).Some?)
  {
    hide Wf, Resolve, Current, MacKey;
    ResolveIsPresence(before, mac);
    ResolveIsPresence(after, mac);
  }

  lemma EnterIsNothing(g: Guesses, w: World, c: nat, obs: Observation)
    requires Wf(w.store) && FlightsOk(w)
    ensures FlightsOk(Happen(g, w, Enter(c, obs)).value)
  {
    hide Resolve, MacKey, ShardIndex, Wf;
    if obs.Valid() {
      ResolveIsPresence(w.store, obs.mac);
    }
  }

  lemma OneOp(g: Guesses, st: Store, op: Op)
    ensures RunFrom(g, st, [op]) == Step(g, st, op)
  {
    hide Step;
    assert [op][..0] == [];
  }

  lemma LockedIsApply(g: Guesses, w: World, c: nat, row: Option<Snapshot>)
    requires Wf(w.store) && FlightsOk(w) && c in w.flights && UpToDate(w, Locked(c, row))
    ensures var f := w.flights[c];
      Commit(g, w.store[ShardIndex(f.obs.mac)], f.obs, f.resolved, row) == Apply(g, w.store, f.obs, row)
  {
    hide Commit, ShardIndex;
  }

  /** An event of a caller that is up to date does not crash and leaves the store as the atomic
      calls do. */
  lemma HappenIsAtomic(g: Guesses, w: World, e: Event)
    requires Wf(w.store) && FlightsOk(w) && GoodRows(w, e) && UpToDate(w, e)
    ensures var after := Happen(g, w, e);
      && after.Some? && Wf(after.value.store) && FlightsOk(after.value)
      && RunFrom(g, w.store, Atomic(w, e)) == Some(after.value.store)
  {
    hide Wf, Resolve, Commit, Apply, MacKey, ShardIndex, GoodOp;
    match e
    case Enter(c, obs) => EnterIsNothing(g, w, c, obs);
    case Locked(c, row) =>
      if c in w.flights {
        var op := ApplyOp(w.flights[c].obs, row);
        LockedIsApply(g, w, c, row);
        StepKeepsWf(g, w.store, op);
        OneOp(g, w.store, op);
      }
    case Other(op) =>
      StepKeepsWf(g, w.store, op);
      OneOp(g, w.store, op);
  }

  ghost function Schedule(g: Guesses, w: World, events: seq<Event>): Option<World> {
    if events == [] then Some(w)
    else
      var before := Schedule(g, w, events[..|events| - 1]);
      if before.None? then None else Happen(g, before.value, events[|events| - 1])
  }

  /** The schedules whose rows are good. */
  ghost predicate AllRowsGood(g: Guesses, w: World, events: seq<Event>) {
    events != [] ==>
      var before := Schedule(g, w, events[..|events| - 1]);
      && AllRowsGood(g, w, events[..|events| - 1])
      && (before.Some? ==> GoodRows(before.value, events[|events| - 1]))
  }

  /** Those of them in which every caller is up to date when it takes the lock. */
  ghost predicate AllUpToDate(g: Guesses, w: World, events: seq<Event>) {
    events != [] ==>
      var before := Schedule(g, w, events[..|events| - 1]);
      && AllUpToDate(g, w, events[..|events| - 1])
      && (before.Some? ==> GoodRows(before.value, events[|events| - 1]) && UpToDate(before.value, events[|events| - 1]))
  }

  ghost function Linear(g: Guesses, w: World, events: seq<Event>): seq<Op> {
    if events == [] then []
    else
      var before := Schedule(g, w, events[..|events| - 1]);
      Linear(g, w, events[..|events| - 1])
      + if before.Some? then Atomic(before.value, events[|events| - 1]) else []
  }

  lemma {:induction false} RunAppend(g: Guesses, st: Store, xs: seq<Op>, ys: seq<Op>)
    requires RunFrom(g, st, xs).Some?
    ensures RunFrom(g, st, xs + ys) == RunFrom(g, RunFrom(g, st, xs).value, ys)
  {
    hide Step;
    if ys == [] {
      assert xs + ys == xs;
    } else {
      assert (xs + ys)[..|xs + ys| - 1] == xs + ys[..|ys| - 1];
      RunAppend(g, st, xs, ys[..|ys| - 1]);
    }
  }

  /** However callers and sections interleave, as long as every caller is up to date when it
      takes the lock: nothing crashes, and the store is the one that the atomic calls, made in
      the order in which the locks were taken, leave behind. */
  lemma {:induction false} SchedulesLinearize(g: Guesses, w: World, events: seq<Event>)
    requires Wf(w.store) && w.flights == map[] && AllUpToDate(g, w, events)
    ensures var after := Schedule(g, w, events);
      && after.Some? && Wf(after.value.store) && FlightsOk(after.value)
      && RunFrom(g, w.store, Linear(g, w, events)) == Some(after.value.store)
  {
    hide Happen, Atomic, UpToDate, GoodRows, Wf, Step, Resolve;
    if events != [] {
      var front, e := events[..|events| - 1], events[|events| - 1];
      SchedulesLinearize(g, w, front);
      var before := Schedule(g, w, front).value;
      HappenIsAtomic(g, before, e);
      RunAppend(g, w.store, Linear(g, w, front), Atomic(before, e));
    }
  }

  // ---------- crashes ----------

  /** The locked section of a caller that was told of an asset which is gone. */
  ghost predicate Crashes(w: World, e: Event) {
    e.Locked? && e.caller in w.flights &&
      var f := w.flights[e.caller]; f.resolved.Some? && Current(w.store, f.obs.mac).None?
  }

  /** A locked section that does not crash keeps the index invariant, right answer or not. */
  lemma LockedKeepsWf(g: Guesses, w: World, c: nat, row: Option<Snapshot>)
    requires Wf(w.store) && FlightsOk(w) && c in w.flights && GoodRows(w, Locked(c, row))
    ensures var f := w.flights[c]; var o := Commit(g, w.store[ShardIndex(f.obs.mac)], f.obs, f.resolved, row);
      (o.Crashed? <==> Crashes(w, Locked(c, row))) && (!o.Crashed? ==> Wf(After(w.store, f.obs.mac, o)))
  {
    hide Merged, ReviveChanges, Home, IsKey, MacKey, ShardIndex, WfShard, Revived, NewAsset;
    var f := w.flights[c];
    var i: ShardId := ShardIndex(f.obs.mac);
    assert WfShard(w.store[i], i);
    if f.resolved.None? {
      match row
      case Some(s) => HydrateKeepsWf(g, w.store[i], i, f.obs, s);
      case None => CreateKeepsWf(g, w.store[i], i, f.obs);
    } else if MacKey(f.obs.mac) in w.store[i].assets {
      UpdateKeepsWf(g, w.store[i], i, f.obs);
    }
  }

  lemma HappenCrashesIff(g: Guesses, w: World, e: Event)
    requires Wf(w.store) && FlightsOk(w) && GoodRows(w, e)
    ensures var after := Happen(g, w, e);
      (after.None? <==> Crashes(w, e)) && (after.Some? ==> Wf(after.value.store) && FlightsOk(after.value))
  {
    hide Wf, Resolve, Commit, Apply, MacKey, ShardIndex, GoodOp, Current;
    match e
    case Enter(c, obs) => EnterIsNothing(g, w, c, obs);
    case Locked(c, row) =>
      if c in w.flights {
        LockedKeepsWf(g, w, c, row);
      }
    case Other(op) => StepKeepsWf(g, w.store, op);
  }

  /** However late its callers are, a schedule crashes iff a caller takes the lock that was told
      of an asset which is gone by then; and one that does not crash keeps the index invariant. */
  lemma {:induction false} ScheduleCrashesIff(g: Guesses, w: World, events: seq<Event>)
    requires Wf(w.store) && w.flights == map[] && AllRowsGood(g, w, events)
    ensures var after := Schedule(g, w, events);
      && (after.None? <==> exists n | 0 <= n < |events| ::
            Schedule(g, w, events[..n]).Some? && Crashes(Schedule(g, w, events[..n]).value, events[n]))
      && (after.Some? ==> Wf(after.value.store) && FlightsOk(after.value))
  {
    hide Happen, Crashes, GoodRows, Wf, FlightsOk;
    if events == [] {
      NobodyOk(w);
    } else {
      var last := |events| - 1;
      var front, e := events[..last], events[last];
      ScheduleCrashesIff(g, w, front);
      assert forall n | 0 <= n < last :: front[..n] == events[..n] && front[n] == events[n];
      if Schedule(g, w, front).Some? {
        HappenCrashesIff(g, Schedule(g, w, front).value, e);
      }
    }
  }

  lemma NobodyOk(w: World)
    requires w.flights == map[]
    ensures FlightsOk(w)
  {
  }
}
