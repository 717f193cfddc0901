/** What an asset holds, told from its history: since it entered memory it has been merged with
    observations and swept. This says of every schedule that does not crash, however its callers
    race with each other and with the tracker, the persister and loads, what each asset is, and
    exactly when it is what all observations applied to it make of it. */
module Lives {
  import opened Clock
  import opened MacAddress
  import opened AssetModel
  import opened Merging
  import opened Resolver
  import opened Store
  import opened Linearization
  import opened Folding

  function Fresh(): World { World(EmptyStore(), map[]) }

  // ---------- lives ----------

  datatype Touch = Saw(obs: Observation) | Aged(now: Time, offlineAfter: Duration)

  /** An asset that entered memory as `start`, and what happened to it since. */
  datatype Life = Life(start: Snapshot, touches: seq<Touch>)

  ghost function Touched(g: Guesses, s: Snapshot, t: Touch): Snapshot {
    match t
    case Saw(obs) => Revived(g, s, obs)
    case Aged(now, offlineAfter) => Swept(s, now, offlineAfter)
  }

  ghost function Lived(g: Guesses, l: Life): Snapshot
    decreases |l.touches|
  {
    if l.touches == [] then l.start
    else Touched(g, Lived(g, l.(touches := l.touches[..|l.touches| - 1])), l.touches[|l.touches| - 1])
  }

  ghost function Contents(g: Guesses, l: Option<Life>): Option<Snapshot> {
    if l.None? then None else Some(Lived(g, l.value))
  }

  function More(l: Option<Life>, t: Touch): Option<Life> {
    if l.None? then None else Some(l.value.(touches := l.value.touches + [t]))
  }

  /** The observations among some touches. */
  function Sights(touches: seq<Touch>): seq<Observation> {
    if touches == [] then []
    else
      var t := touches[|touches| - 1];
      Sights(touches[..|touches| - 1]) + if t.Saw? then [t.obs] else []
  }

  function Count(l: Life): nat { l.start.seenCount + |Sights(l.touches)| }

  // ---------- what events do to a life ----------

  /** An apply is an Enter and a Locked here. */
  ghost predicate TwoSteps(e: Event) { e.Other? ==> !e.op.ApplyOp? }

  /** The flight whose locked section an event is, if it is one of an address. */
  ghost function FlightOf(w: Option<World>, e: Event, mac: Mac): Option<Flight> {
    if w.Some? && e.Locked? && e.caller in w.value.flights && w.value.flights[e.caller].obs.mac == mac
    then Some(w.value.flights[e.caller]) else None
  }

  /** What an asset enters memory with. */
  function Begun(mac: Mac, row: Option<Snapshot>): Snapshot { if row.Some? then row.value else Blank(MacKey(mac), mac) }

  /** What an eviction or a load does to an asset: nothing, or it goes, or another one is there. */
  ghost function Replaced(g: Guesses, w: World, op: Op, mac: Mac): Option<Option<Snapshot>>
    requires !op.ApplyOp?
  {
    var after := Current(Step(g, w.store, op).value, mac);
    if after == Current(w.store, mac) then None else Some(after)
  }

  /** The life after an event: as it goes, where a locked section starts a new life when its
      caller was told that there is no asset; or, with `all`, as it should go, where it starts
      one only when there is none. */
  ghost function LifeAfter(g: Guesses, w: World, e: Event, mac: Mac, l: Option<Life>, all: bool): Option<Life>
    requires TwoSteps(e)
  {
    match e
    case Enter(_, _) => l
    case Locked(_, row) =>
      var f := FlightOf(Some(w), e, mac);
      if f.None? then l
      else if (if all then Current(w.store, mac).None? else f.value.resolved.None?) then Some(Life(Begun(mac, row), [Saw(f.value.obs)]))
      else More(l, Saw(f.value.obs))
    case Other(op) =>
      if op.SweepOp? then if op.i == ShardIndex(mac) then More(l, Aged(op.now, op.offlineAfter)) else l
      else
        var r := Replaced(g, w, op, mac);
        if r.None? then l else if r.value.None? then None else Some(Life(r.value.value, []))
  }

  ghost function LifeOf(g: Guesses, events: seq<Event>, mac: Mac, all: bool): Option<Life>
    requires forall e <- events :: TwoSteps(e)
  {
    if events == [] then None
    else
      var front, e := events[..|events| - 1], events[|events| - 1];
      var w := Schedule(g, Fresh(), front);
      if w.None? then None else LifeAfter(g, w.value, e, mac, LifeOf(g, front, mac, all), all)
  }

  /** Late: the caller was told that there is no asset, and there is one by now. */
  ghost predicate Late(w: World, e: Event, mac: Mac) {
    var f := FlightOf(Some(w), e, mac);
    f.Some? && f.value.resolved.None? && Current(w.store, mac).Some?
  }

  /** The asset enters memory anew, or leaves it. */
  ghost predicate Renews(g: Guesses, w: World, e: Event, mac: Mac)
    requires TwoSteps(e)
  {
    match e
    case Enter(_, _) => false
    case Locked(_, _) => FlightOf(Some(w), e, mac).Some? && Current(w.store, mac).None?
    case Other(op) => !op.SweepOp? && Replaced(g, w, op, mac).Some?
  }

  /** Nobody has been late since the asset last entered memory. */
  ghost predicate OnTime(g: Guesses, events: seq<Event>, mac: Mac)
    requires forall e <- events :: TwoSteps(e)
  {
    events != [] ==>
      var front, e := events[..|events| - 1], events[|events| - 1];
      var w := Schedule(g, Fresh(), front);
      w.Some? ==> Renews(g, w.value, e, mac) || (OnTime(g, front, mac) && !Late(w.value, e, mac))
  }

  /** What the hydrator finds for a caller that is late has been seen less often than what memory
      has by now, and what is loaded has been seen. */
  ghost predicate RowLags(w: World, e: Event, mac: Mac) {
    match e
    case Enter(_, _) => true
    case Locked(_, row) => Late(w, e, mac) && row.Some? ==> row.value.seenCount < Current(w.store, mac).value.seenCount
    case Other(LoadOp(_, snaps)) => forall s <- snaps :: s.seenCount > 0
    case Other(_) => true
  }

  ghost predicate RowsLag(g: Guesses, events: seq<Event>, mac: Mac) {
    events != [] ==>
      var front, e := events[..|events| - 1], events[|events| - 1];
      var w := Schedule(g, Fresh(), front);
      RowsLag(g, front, mac) && (w.Some? ==> RowLags(w.value, e, mac))
  }

  // ---------- single events ----------

  lemma LivedMore(g: Guesses, l: Option<Life>, t: Touch)
    ensures Contents(g, More(l, t)) == if l.None? then None else Some(Touched(g, Contents(g, l).value, t))
    ensures l.Some? ==> Count(More(l, t).value) == Count(l.value) + if t.Saw? then 1 else 0
  {
    hide Touched;
    if l.Some? {
      assert (l.value.touches + [t])[..|l.value.touches|] == l.value.touches;
    }
  }

  lemma LivedOne(g: Guesses, start: Snapshot, obs: Observation)
    ensures Lived(g, Life(start, [])) == start && Count(Life(start, [])) == start.seenCount
    ensures Lived(g, Life(start, [Saw(obs)])) == Revived(g, start, obs) && Count(Life(start, [Saw(obs)])) == start.seenCount + 1
  {
    hide Revived;
    assert [Saw(obs)][..0] == [];
    assert Lived(g, Life(start, [])) == start;
  }

  lemma {:induction false} LivedCount(g: Guesses, l: Life)
    ensures Lived(g, l).seenCount == Count(l)
    decreases |l.touches|
  {
    hide Merged, Swept;
    if l.touches != [] {
      var front, t := l.(touches := l.touches[..|l.touches| - 1]), l.touches[|l.touches| - 1];
      LivedCount(g, front);
      match t
      case Saw(obs) => MergedIdentity(g, Lived(g, front), obs);
      case Aged(now, offlineAfter) => SweptCount(Lived(g, front), now, offlineAfter);
    }
  }

  lemma SweptCount(s: Snapshot, now: Time, offlineAfter: Duration)
    ensures Swept(s, now, offlineAfter).seenCount == s.seenCount
  {
  }

  /** A locked section that does not crash writes the asset of its address and no other. */
  lemma LockedIsWrite(g: Guesses, w: World, c: nat, row: Option<Snapshot>, mac: Mac)
    requires Wf(w.store) && FlightsOk(w) && c in w.flights && GoodRows(w, Locked(c, row)) && !Crashes(w, Locked(c, row)) && mac != []
    ensures var f := w.flights[c]; var o := Commit(g, w.store[ShardIndex(f.obs.mac)], f.obs, f.resolved, row);
      var s := if f.resolved.None? then Revived(g, Begun(f.obs.mac, row), f.obs) else Revived(g, Current(w.store, f.obs.mac).value, f.obs);
      !o.Crashed? && Current(After(w.store, f.obs.mac, o), mac) == if mac == f.obs.mac then Some(s) else Current(w.store, mac)
  {
    hide Merged, ReviveChanges, Home, IsKey, MacKey, ShardIndex, WfShard;
    var f := w.flights[c];
    var i: ShardId, k := ShardIndex(f.obs.mac), MacKey(f.obs.mac);
    assert WfShard(w.store[i], i);
    HomeOfKey(f.obs.mac);
    KeyNotEmpty(k);
    if f.resolved.None? && row.Some? {
      HydratedUpdate(g, w.store[i], f.obs, row.value);
    } else if f.resolved.None? {
      MergedIdentity(g, Blank(k, f.obs.mac), f.obs);
    } else {
      AssetsAreKeyed(w.store[i], i, k);
    }
    if mac != f.obs.mac && MacKey(mac) == k {
      MacKeyInjective(mac, f.obs.mac);
    }
  }

  lemma AssetsAreKeyed(sh: Shard, i: nat, k: AssetId)
    requires WfShard(sh, i) && k in sh.assets
    ensures sh.assets[k].id == k
  {
    hide Home, IsKey;
  }

  lemma SweepOn(st: Store, i: ShardId, now: Time, offlineAfter: Duration, mac: Mac)
    ensures var s := Current(st, mac);
      Current(st[i := SweptShard(st[i], now, offlineAfter)], mac)
        == if i == ShardIndex(mac) && s.Some? then Some(Swept(s.value, now, offlineAfter)) else s
  {
    hide MacKey, ShardIndex, Swept;
  }

  /** What one event does to the asset of an address. */
  lemma EventOnAsset(g: Guesses, w: World, e: Event, mac: Mac, l: Option<Life>)
    requires Wf(w.store) && FlightsOk(w) && GoodRows(w, e) && TwoSteps(e) && mac != [] && Happen(g, w, e).Some?
    requires Contents(g, l) == Current(w.store, mac)
    ensures Contents(g, LifeAfter(g, w, e, mac, l, false)) == Current(Happen(g, w, e).value.store, mac)
  {
    hide Wf, Current, Commit, After, Resolve, MacKey, Merged, Revived, Swept, Lived, More, FlightsOk, GoodRows,
      Crashes, SweptShard, ShardIndex;
    match e
    case Enter(c, obs) =>
    case Locked(c, row) =>
      if c in w.flights {
        var f := w.flights[c];
        HappenCrashesIff(g, w, e);
        LockedIsWrite(g, w, c, row, mac);
        LivedOne(g, Begun(mac, row), f.obs);
        LivedMore(g, l, Saw(f.obs));
        if f.obs.mac == mac && f.resolved.Some? {
          NotGone(w, c, row);
        }
      }
    case Other(op) =>
      if op.SweepOp? {
        SweepOn(w.store, op.i, op.now, op.offlineAfter, mac);
        LivedMore(g, l, Aged(op.now, op.offlineAfter));
      } else {
        var r := Replaced(g, w, op, mac);
        if r.Some? && r.value.Some? {
          LivedAlone(g, r.value.value);
        }
      }
  }

  lemma LivedAlone(g: Guesses, s: Snapshot)
    ensures Lived(g, Life(s, [])) == s && Count(Life(s, [])) == s.seenCount
  {
  }

  lemma NotGone(w: World, c: nat, row: Option<Snapshot>)
    requires c in w.flights && w.flights[c].resolved.Some? && !Crashes(w, Locked(c, row))
    ensures Current(w.store, w.flights[c].obs.mac).Some?
  {
  }

  // ---------- whole schedules ----------

  /** However callers, tracker, persister and loads race: if nothing has crashed, every asset is
      what its life made of it since it was last created, hydrated or loaded. */
  lemma {:induction false} AssetsAreLives(g: Guesses, events: seq<Event>, mac: Mac)
    requires mac != [] && AllRowsGood(g, Fresh(), events) && (forall e <- events :: TwoSteps(e)) && Schedule(g, Fresh(), events).Some?
    ensures var w := Schedule(g, Fresh(), events).value;
      Wf(w.store) && FlightsOk(w) && Current(w.store, mac) == Contents(g, LifeOf(g, events, mac, false))
  {
    hide Happen, Current, Contents, LifeAfter, GoodRows, MacKey, Wf, FlightsOk, TwoSteps;
    if events == [] {
      FreshIsEmpty(g, mac);
    } else {
      var front, e := events[..|events| - 1], events[|events| - 1];
      AssetsAreLives(g, front, mac);
      var w := Schedule(g, Fresh(), front).value;
      HappenCrashesIff(g, w, e);
      EventOnAsset(g, w, e, mac, LifeOf(g, front, mac, false));
    }
  }

  lemma FreshIsEmpty(g: Guesses, mac: Mac)
    ensures Wf(Fresh().store) && FlightsOk(Fresh()) && Current(Fresh().store, mac) == None && Contents(g, None) == None
  {
    EmptyIsWf();
    hide Wf, MacKey, ShardIndex;
  }

  /** Both lives begin and end together, and are the same as long as nobody is late. */
  lemma {:induction false} OnTimeIsAll(g: Guesses, events: seq<Event>, mac: Mac)
    requires mac != [] && AllRowsGood(g, Fresh(), events) && (forall e <- events :: TwoSteps(e)) && Schedule(g, Fresh(), events).Some?
    ensures var some, all := LifeOf(g, events, mac, false), LifeOf(g, events, mac, true);
      (some.None? <==> all.None?) && (OnTime(g, events, mac) ==> some == all)
  {
    hide Happen, Current, Lived, GoodRows, MacKey, ShardIndex, Replaced, More, Wf, FlightsOk;
    if events != [] {
      var front, e := events[..|events| - 1], events[|events| - 1];
      OnTimeIsAll(g, front, mac);
      AssetsAreLives(g, front, mac);
      BothAfter(g, Schedule(g, Fresh(), front).value, e, mac, LifeOf(g, front, mac, false), LifeOf(g, front, mac, true));
    }
  }

  /** Both lives after one more event. */
  lemma BothAfter(g: Guesses, w: World, e: Event, mac: Mac, some: Option<Life>, all: Option<Life>)
    requires Wf(w.store) && FlightsOk(w) && GoodRows(w, e) && TwoSteps(e) && Happen(g, w, e).Some?
    requires Contents(g, some) == Current(w.store, mac)
    requires some.None? <==> all.None?
    ensures var a, b := LifeAfter(g, w, e, mac, some, false), LifeAfter(g, w, e, mac, all, true);
      && (a.None? <==> b.None?)
      && (Renews(g, w, e, mac) ==> a == b)
      && (some == all && !Late(w, e, mac) ==> a == b)
  {
    hide Wf, Lived, Current, MacKey, ShardIndex, FlightsOk, GoodRows, Crashes, Replaced;
    if e.Locked? && FlightOf(Some(w), e, mac).Some? {
      HappenCrashesIff(g, w, e);
      if w.flights[e.caller].resolved.Some? {
        NotGone(w, e.caller, e.row);
      }
    }
  }

  lemma BothCount(g: Guesses, w: World, e: Event, mac: Mac, some: Option<Life>, all: Option<Life>)
    requires Wf(w.store) && FlightsOk(w) && GoodRows(w, e) && TwoSteps(e) && Happen(g, w, e).Some?
    requires Contents(g, some) == Current(w.store, mac)
    requires (some.None? <==> all.None?) && RowLags(w, e, mac)
    requires some.Some? ==> 0 < Count(some.value) <= Count(all.value)
    ensures var a, b := LifeAfter(g, w, e, mac, some, false), LifeAfter(g, w, e, mac, all, true);
      && (a.None? <==> b.None?)
      && (a.Some? ==> 0 < Count(a.value) <= Count(b.value))
      && (Late(w, e, mac) ==> a.Some? && Count(a.value) < Count(b.value))
      && (some.Some? && Count(some.value) < Count(all.value) && !Renews(g, w, e, mac) ==> a.Some? && Count(a.value) < Count(b.value))
  {
    hide Wf, Lived, MacKey, ShardIndex, FlightsOk, GoodRows, Crashes, Current, Replaced, Count, More;
    BothAfter(g, w, e, mac, some, all);
    match e
    case Enter(_, _) =>
    case Locked(c, row) =>
      var f := FlightOf(Some(w), e, mac);
      if f.Some? {
        HappenCrashesIff(g, w, e);
        LivedOne(g, Begun(mac, row), f.value.obs);
        LivedMore(g, some, Saw(f.value.obs));
        LivedMore(g, all, Saw(f.value.obs));
        if f.value.resolved.Some? {
          NotGone(w, c, row);
        }
        if some.Some? {
          LivedCount(g, some.value);
        }
      }
    case Other(op) =>
      if op.SweepOp? {
        LivedMore(g, some, Aged(op.now, op.offlineAfter));
        LivedMore(g, all, Aged(op.now, op.offlineAfter));
      } else {
        var r := Replaced(g, w, op, mac);
        if r.Some? && r.value.Some? {
          LivedAlone(g, r.value.value);
          ReplacedSeen(g, w, op, mac);
        }
      }
  }

  /** What replaces an asset is a loaded snapshot. */
  lemma ReplacedSeen(g: Guesses, w: World, op: Op, mac: Mac)
    requires !op.ApplyOp? && !op.SweepOp? && Replaced(g, w, op, mac).Some? && Replaced(g, w, op, mac).value.Some?
    requires op.LoadOp? ==> forall s <- op.snaps :: s.seenCount > 0
    ensures Replaced(g, w, op, mac).value.value.seenCount > 0
  {
    hide MacKey, ShardIndex, LoadShard, Stale, UnbindAll;
    if op.LoadOp? {
      LoadedFrom(w.store[op.i], op.snaps, MacKey(mac));
    }
  }

  lemma {:induction false} LoadedFrom(sh: Shard, snaps: seq<Snapshot>, k: AssetId)
    ensures var after := LoadShard(sh, snaps);
      k in after.assets ==> (k in sh.assets && after.assets[k] == sh.assets[k]) || after.assets[k] in snaps
    ensures k in sh.assets ==> k in LoadShard(sh, snaps).assets
  {
    hide MacKey, Newer;
    if snaps != [] {
      LoadedFrom(sh, snaps[..|snaps| - 1], k);
    }
  }

  lemma {:induction false} LateCounts(g: Guesses, events: seq<Event>, mac: Mac)
    requires mac != [] && AllRowsGood(g, Fresh(), events) && (forall e <- events :: TwoSteps(e)) && Schedule(g, Fresh(), events).Some?
    requires RowsLag(g, events, mac)
    ensures var some, all := LifeOf(g, events, mac, false), LifeOf(g, events, mac, true);
      && (some.None? <==> all.None?)
      && (some.Some? ==> 0 < Count(some.value) <= Count(all.value))
      && (!OnTime(g, events, mac) ==> some.Some? && Count(some.value) < Count(all.value))
  {
    hide Happen, Current, Lived, GoodRows, MacKey, ShardIndex, LifeAfter, Late, Renews, RowLags, Count, TwoSteps, Wf,
      FlightsOk;
    if events != [] {
      var front, e := events[..|events| - 1], events[|events| - 1];
      LateCounts(g, front, mac);
      AssetsAreLives(g, front, mac);
      BothCount(g, Schedule(g, Fresh(), front).value, e, mac, LifeOf(g, front, mac, false), LifeOf(g, front, mac, true));
    }
  }

  /** If nothing has crashed, the asset of an address is what all observations applied to it
      since it last entered memory make of it, and what the sweeps in between do, iff nobody has
      been late for it since. */
  lemma AssetIsAllIff(g: Guesses, events: seq<Event>, mac: Mac)
    requires mac != [] && AllRowsGood(g, Fresh(), events) && (forall e <- events :: TwoSteps(e)) && Schedule(g, Fresh(), events).Some?
    requires RowsLag(g, events, mac)
    ensures var w, all := Schedule(g, Fresh(), events).value, LifeOf(g, events, mac, true);
      && (Current(w.store, mac) == Contents(g, all) <==> OnTime(g, events, mac))
      && (Current(w.store, mac).Some? <==> all.Some?)
      && (all.Some? ==> Current(w.store, mac).value.seenCount <= Count(all.value))
  {
    hide Current, Lived, LifeOf, Schedule, OnTime, RowsLag, AllRowsGood, TwoSteps, Count;
    AssetsAreLives(g, events, mac);
    OnTimeIsAll(g, events, mac);
    LateCounts(g, events, mac);
    var some, all := LifeOf(g, events, mac, false), LifeOf(g, events, mac, true);
    if some.Some? {
      LivedCount(g, some.value);
      LivedCount(g, all.value);
    }
  }

  /** Callers that are up to date are not late. */
  lemma {:induction false} UpToDateIsOnTime(g: Guesses, events: seq<Event>, mac: Mac)
    requires mac != [] && (forall e <- events :: TwoSteps(e)) && AllUpToDate(g, Fresh(), events)
    ensures OnTime(g, events, mac)
  {
    hide Current, Happen, MacKey, Wf, Resolve, Commit, Step, Renews;
    if events != [] {
      var front, e := events[..|events| - 1], events[|events| - 1];
      UpToDateIsOnTime(g, front, mac);
      FreshIsEmpty(g, mac);
      SchedulesLinearize(g, Fresh(), front);
      var w := Schedule(g, Fresh(), front).value;
      if FlightOf(Some(w), e, mac).Some? {
        ResolveIsPresence(w.store, mac);
      }
    }
  }

  // ---------- the observations of a life ----------

  /** All observations of an address, in the order of their locked sections. */
  ghost function AppliedTo(g: Guesses, events: seq<Event>, mac: Mac): seq<Observation> {
    if events == [] then []
    else
      var front := events[..|events| - 1];
      var f := FlightOf(Schedule(g, Fresh(), front), events[|events| - 1], mac);
      AppliedTo(g, front, mac) + if f.Some? then [f.value.obs] else []
  }

  predicate Suffix<T(==)>(last: seq<T>, list: seq<T>) { |last| <= |list| && list[|list| - |last|..] == last }

  lemma SightsMore(touches: seq<Touch>, t: Touch)
    ensures Sights(touches + [t]) == Sights(touches) + if t.Saw? then [t.obs] else []
  {
    assert (touches + [t])[..|touches|] == touches;
  }

  lemma SuffixMore<T>(last: seq<T>, list: seq<T>, x: T)
    ensures Suffix(last, list) ==> Suffix(last + [x], list + [x])
    ensures Suffix([], list) && Suffix([x], list + [x])
  {
    if Suffix(last, list) {
      assert (list + [x])[|list| - |last|..] == list[|list| - |last|..] + [x];
    }
  }

  /** The observations of a life are the last ones that were applied. */
  lemma {:induction false} SightsAreLast(g: Guesses, events: seq<Event>, mac: Mac, all: bool)
    requires forall e <- events :: TwoSteps(e)
    ensures var l := LifeOf(g, events, mac, all); l.Some? ==> Suffix(Sights(l.value.touches), AppliedTo(g, events, mac))
  {
    hide Happen, Current, MacKey, ShardIndex, Replaced, Suffix;
    if events != [] {
      var front, e := events[..|events| - 1], events[|events| - 1];
      SightsAreLast(g, front, mac, all);
      var w, l := Schedule(g, Fresh(), front), LifeOf(g, front, mac, all);
      if w.Some? {
        SightsAfter(g, w.value, e, mac, l, all, AppliedTo(g, front, mac));
      }
    }
  }

  lemma SightsAfter(g: Guesses, w: World, e: Event, mac: Mac, l: Option<Life>, all: bool, applied: seq<Observation>)
    requires TwoSteps(e) && (l.Some? ==> Suffix(Sights(l.value.touches), applied))
    ensures var z, f := LifeAfter(g, w, e, mac, l, all), FlightOf(Some(w), e, mac);
      z.Some? ==> Suffix(Sights(z.value.touches), applied + if f.Some? then [f.value.obs] else [])
  {
    hide Current, MacKey, ShardIndex, Replaced, Suffix, Sights;
    assert applied + [] == applied;
    match e
    case Enter(_, _) =>
    case Locked(_, _) =>
      var f := FlightOf(Some(w), e, mac);
      if f.Some? {
        SightsSaw(l, f.value.obs, applied);
      }
    case Other(op) =>
      SightsEmpty(applied);
      if op.SweepOp? && l.Some? {
        SightsMore(l.value.touches, Aged(op.now, op.offlineAfter));
        assert Sights(l.value.touches) + [] == Sights(l.value.touches);
      }
  }

  lemma SightsSaw(l: Option<Life>, obs: Observation, applied: seq<Observation>)
    requires l.Some? ==> Suffix(Sights(l.value.touches), applied)
    ensures Suffix(Sights([Saw(obs)]), applied + [obs])
    ensures l.Some? ==> Suffix(Sights(l.value.touches + [Saw(obs)]), applied + [obs])
  {
    hide Suffix, Sights;
    SightsEmpty(applied);
    SightsMore([], Saw(obs));
    assert [] + [Saw(obs)] == [Saw(obs)] && [] + [obs] == [obs];
    SuffixMore([], applied, obs);
    if l.Some? {
      SightsMore(l.value.touches, Saw(obs));
      SuffixMore(Sights(l.value.touches), applied, obs);
    }
  }

  lemma SightsEmpty(applied: seq<Observation>)
    ensures Sights([]) == [] && Suffix(Sights([]), applied)
  {
    NoSuffix(applied);
  }

  lemma NoSuffix<T>(list: seq<T>)
    ensures Suffix([], list)
  {
    assert list[|list|..] == [];
  }

  // ---------- applies and drains only ----------

  /** Callers that apply observations without a hydrator, and the persister's drains. */
  ghost predicate Quiet(e: Event) {
    match e
    case Enter(_, _) => true
    case Locked(_, row) => row.None?
    case Other(op) => op.DrainOp?
  }

  function AllSaw(list: seq<Observation>): seq<Touch> { seq(|list|, i requires 0 <= i < |list| => Saw(list[i])) }

  /** Without evictions a caller that was told of an asset finds it. */
  ghost predicate Found(w: World) {
    forall c <- w.flights.Keys :: var f := w.flights[c]; f.resolved.Some? ==> Current(w.store, f.obs.mac).Some?
  }

  lemma QuietIsPlain(w: World, e: Event)
    requires Quiet(e)
    ensures TwoSteps(e) && GoodRows(w, e)
  {
  }

  /** One quiet event: no crash, and no asset leaves memory. */
  lemma QuietEvent(g: Guesses, w: World, e: Event)
    requires Wf(w.store) && FlightsOk(w) && Found(w) && Quiet(e)
    ensures Happen(g, w, e).Some? && Found(Happen(g, w, e).value)
  {
    hide Wf, Current, Commit, After, Resolve, MacKey, FlightsOk, Revived, GoodRows;
    QuietIsPlain(w, e);
    FoundDoesNotCrash(w, e);
    HappenCrashesIff(g, w, e);
    match e
    case Enter(c, obs) =>
      if obs.Valid() {
        ResolveIsPresence(w.store, obs.mac);
      }
    case Locked(c, row) =>
      if c in w.flights {
        var z := Happen(g, w, e).value;
        forall d <- z.flights.Keys | z.flights[d].resolved.Some? ensures Current(z.store, z.flights[d].obs.mac).Some? {
          FlightHasMac(w, d);
          LockedIsWrite(g, w, c, row, w.flights[d].obs.mac);
        }
      }
    case Other(op) =>
      forall m: Mac ensures Current(Step(g, w.store, op).value, m) == Current(w.store, m) {
        DrainKeepsCurrent(g, w.store, op.i, m);
      }
  }

  lemma FoundDoesNotCrash(w: World, e: Event)
    requires Found(w)
    ensures !Crashes(w, e)
  {
    hide Current;
  }

  lemma FlightHasMac(w: World, c: nat)
    requires FlightsOk(w) && c in w.flights
    ensures w.flights[c].obs.mac != []
  {
  }

  lemma DrainKeepsCurrent(g: Guesses, st: Store, i: ShardId, mac: Mac)
    ensures Step(g, st, DrainOp(i)).Some? && Current(Step(g, st, DrainOp(i)).value, mac) == Current(st, mac)
  {
    hide MacKey, ShardIndex;
  }

  /** A quiet schedule does not crash, and all of an address's observations are of one life,
      which began with the first of them. */
  lemma {:induction false} QuietLife(g: Guesses, events: seq<Event>, mac: Mac)
    requires mac != [] && forall e <- events :: Quiet(e)
    ensures (forall e <- events :: TwoSteps(e)) && AllRowsGood(g, Fresh(), events) && RowsLag(g, events, mac)
    ensures var w, applied := Schedule(g, Fresh(), events), AppliedTo(g, events, mac);
      && w.Some? && Wf(w.value.store) && FlightsOk(w.value) && Found(w.value)
      && LifeOf(g, events, mac, true) == if applied == [] then None else Some(Life(Blank(MacKey(mac), mac), AllSaw(applied)))
  {
    hide Happen, Current, MacKey, Quiet, FlightOf, LifeAfter, GoodRows, RowLags, Wf, FlightsOk;
    forall e <- events ensures TwoSteps(e) {
      QuietIsPlain(Fresh(), e);
    }
    if events == [] {
      FreshIsEmpty(g, mac);
    } else {
      var front, e := events[..|events| - 1], events[|events| - 1];
      QuietLife(g, front, mac);
      var w := Schedule(g, Fresh(), front).value;
      QuietIsPlain(w, e);
      QuietLags(w, e, mac);
      QuietEvent(g, w, e);
      HappenCrashesIff(g, w, e);
      AssetsAreLives(g, front, mac);
      OnTimeIsAll(g, front, mac);
      QuietAfter(g, w, e, mac, AppliedTo(g, front, mac));
    }
  }

  lemma QuietLags(w: World, e: Event, mac: Mac)
    requires Quiet(e)
    ensures RowLags(w, e, mac)
  {
  }

  lemma QuietAfter(g: Guesses, w: World, e: Event, mac: Mac, applied: seq<Observation>)
    requires Quiet(e) && TwoSteps(e) && (Current(w.store, mac).None? <==> applied == [])
    ensures var blank, f := Blank(MacKey(mac), mac), FlightOf(Some(w), e, mac);
      var longer := applied + if f.Some? then [f.value.obs] else [];
      LifeAfter(g, w, e, mac, if applied == [] then None else Some(Life(blank, AllSaw(applied))), true)
        == if longer == [] then None else Some(Life(blank, AllSaw(longer)))
  {
    hide Current, MacKey;
    var f := FlightOf(Some(w), e, mac);
    if e.Other? {
      DrainKeepsCurrent(g, w.store, e.op.i, mac);
    }
    if f.Some? {
      assert AllSaw(applied + [f.value.obs]) == AllSaw(applied) + [Saw(f.value.obs)];
      assert applied == [] ==> applied + [f.value.obs] == [f.value.obs];
      assert AllSaw([f.value.obs]) == [Saw(f.value.obs)];
    } else {
      assert applied + [] == applied;
    }
  }

  /** What an address holds after some observations were applied to it. */
  ghost function Folded(g: Guesses, mac: Mac, list: seq<Observation>): Option<Snapshot> {
    if list == [] then None else Some(Fold(g, Blank(MacKey(mac), mac), list))
  }

  /** Without sweeps a life is a fold. */
  lemma {:induction false} LivedIsFold(g: Guesses, s: Snapshot, list: seq<Observation>)
    requires s.status == Online
    ensures Lived(g, Life(s, AllSaw(list))) == Fold(g, s, list) && Fold(g, s, list).status == Online
  {
    hide Merged;
    if list != [] {
      var front, o := list[..|list| - 1], list[|list| - 1];
      LivedIsFold(g, s, front);
      assert AllSaw(list)[..|list| - 1] == AllSaw(front);
      MergedIdentity(g, Fold(g, s, front), o);
    }
  }

  /** For a quiet schedule: the asset of an address is the fold of all observations applied to it
      iff nobody was late for it. */
  lemma FoldIff(g: Guesses, events: seq<Event>, mac: Mac)
    requires mac != [] && forall e <- events :: Quiet(e)
    ensures (forall e <- events :: TwoSteps(e)) && Schedule(g, Fresh(), events).Some?
    ensures var w, all := Schedule(g, Fresh(), events).value, AppliedTo(g, events, mac);
      && (Current(w.store, mac) == Folded(g, mac, all) <==> OnTime(g, events, mac))
      && (all == [] <==> Current(w.store, mac).None?)
      && (Current(w.store, mac).Some? ==> Current(w.store, mac).value.seenCount <= |all|)
  {
    hide Current, MacKey, Schedule, Fold, OnTime, AppliedTo, LifeOf, Quiet, AllRowsGood, RowsLag;
    QuietLife(g, events, mac);
    AssetIsAllIff(g, events, mac);
    LivedIsFold(g, Blank(MacKey(mac), mac), AppliedTo(g, events, mac));
    SawCount(AppliedTo(g, events, mac));
  }

  lemma {:induction false} SawCount(list: seq<Observation>)
    ensures |Sights(AllSaw(list))| == |list|
  {
    if list != [] {
      SawCount(list[..|list| - 1]);
      assert AllSaw(list)[..|list| - 1] == AllSaw(list[..|list| - 1]);
    }
  }
}
