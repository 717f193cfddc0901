/** When an asset is online, said of what happened to it: the observations and their times, and
    the sweeps. */
module Presence {
  import opened Clock
  import opened MacAddress
  import opened AssetModel
  import opened Merging
  import opened Store
  import opened Linearization
  import opened Lives
  import opened Attributes
  import opened MergeUtil
  import Lifecycle

  /** After an apply the asset of its address is there and online, has been seen once more, at
      least as late as now and at least as early, and is dirty if it was offline or is new. */
  lemma SeenIsOnline(g: Guesses, st: Store, obs: Observation, row: Option<Snapshot>)
    requires Wf(st) && obs.source != "" && obs.at != ZERO_TIME && obs.mac != [] && GoodOp(ApplyOp(obs, row))
    ensures Step(g, st, ApplyOp(obs, row)).Some?
    ensures var i, k := ShardIndex(obs.mac), MacKey(obs.mac);
      var before, after := st[i], Step(g, st, ApplyOp(obs, row)).value[i];
      && k in after.assets && after.assets[k].status == Online
      && after.assets[k].firstSeen <= obs.at <= after.assets[k].lastSeen
      && after.assets[k].seenCount == 1 + (
           if k in before.assets then before.assets[k].seenCount else if row.Some? then row.value.seenCount else 0)
      && (k in before.assets && before.assets[k].status == Offline ==> k in after.dirty)
      && (k !in before.assets && (row.Some? ==> row.value.status == Offline) ==> k in after.dirty)
  {
    hide Wf, GoodOp, Merged, MacKey, ShardIndex, Step, MergeChanges;
    StepIsWrite(g, st, obs, row);
    var current := Current(st, obs.mac);
    TimesOfMerged(g, if current.Some? then current.value else if row.Some? then row.value else Blank(MacKey(obs.mac), obs.mac), obs);
  }

  /** An observation without a source, a time or an address is ignored, and no other is. */
  lemma IgnoredIff(g: Guesses, st: Store, obs: Observation, row: Option<Snapshot>)
    requires Wf(st) && GoodOp(ApplyOp(obs, row))
    ensures Step(g, st, ApplyOp(obs, row)) == Some(st) <==> obs.source == "" || obs.at == ZERO_TIME || obs.mac == []
  {
    hide Wf, GoodOp, Merged, MacKey, ShardIndex, MergeChanges;
    if obs.source != "" && obs.at != ZERO_TIME && obs.mac != [] {
      SeenIsOnline(g, st, obs, row);
    }
  }

  lemma TimesOfMerged(g: Guesses, s: Snapshot, obs: Observation)
    requires obs.at != ZERO_TIME
    ensures var t := Merged(g, s, obs);
      t.firstSeen <= obs.at <= t.lastSeen && t.seenCount == s.seenCount + 1 && t.status == s.status
  {
  }

  /** An apply touches one asset, and makes it dirty iff it was dirty, is new, was offline or was
      never seen, or anything but its addresses and its count differs, or a mixed list of its
      extra attributes was joined. */
  lemma DirtyIff(g: Guesses, st: Store, obs: Observation, row: Option<Snapshot>)
    requires Wf(st) && obs.Valid() && GoodOp(ApplyOp(obs, row))
    ensures Step(g, st, ApplyOp(obs, row)).Some?
    ensures var i, k, all := ShardIndex(obs.mac), MacKey(obs.mac), Step(g, st, ApplyOp(obs, row)).value;
      var before, after := st[i], all[i];
      && (forall j | 0 <= j < SHARD_COUNT && j != i :: all[j] == st[j])
      && after.assets.Keys == before.assets.Keys + {k} && after.dirty - {k} == before.dirty - {k}
      && (forall x <- before.assets.Keys - {k} :: after.assets[x] == before.assets[x])
      && (k in after.dirty <==>
            || k in before.dirty
            || (k !in before.assets && row.None?)
            || var was := if k in before.assets then before.assets[k] else row.value;
               || was.status == Offline || was.seenCount == 0
               || after.assets[k].(ipv4s := was.ipv4s, ipv6s := was.ipv6s, seenCount := was.seenCount) != was
               || JoinsMixed(was.extra, obs.extra))
  {
    hide Wf, GoodOp, Merged, MacKey, ShardIndex, Step, MergeChanges, JoinsMixed;
    StepIsWrite(g, st, obs, row);
    var current := Current(st, obs.mac);
    if current.Some? || row.Some? {
      var was := if current.Some? then current.value else row.value;
      ChangedIff(g, was, obs);
      TimesOfMerged(g, was, obs);
    }
  }

  // ---------- over a life ----------

  /** The time at which the asset was last seen: the latest time of all, in whatever order they
      came. */
  ghost predicate LatestOf(t: Time, start: Snapshot, touches: seq<Touch>) {
    && start.lastSeen <= t && (forall x <- touches :: x.Saw? ==> x.obs.at <= t)
    && (t == start.lastSeen || exists x <- touches :: x.Saw? && x.obs.at == t)
  }

  /** Nobody has seen the asset from touch i on. */
  ghost predicate UnseenFrom(touches: seq<Touch>, i: nat) { forall j | i <= j < |touches| :: touches[j].Aged? }

  /** A sweep since the last observation found the asset older than it may be. */
  ghost predicate FoundOld(touches: seq<Touch>, last: Time, i: nat)
    requires i < |touches|
  {
    UnseenFrom(touches, i) && touches[i].Aged? && Sub(touches[i].now, last) > touches[i].offlineAfter
  }

  lemma LastSeenOf(g: Guesses, s: Snapshot, t: Touch)
    ensures Touched(g, s, t).lastSeen == if t.Saw? && t.obs.at > s.lastSeen then t.obs.at else s.lastSeen
    ensures Touched(g, s, t).status ==
      if t.Saw? then Online else if Sub(t.now, s.lastSeen) > t.offlineAfter then Offline else s.status
  {
  }

  lemma {:induction false} LivedLastSeen(g: Guesses, l: Life)
    ensures LatestOf(Lived(g, l).lastSeen, l.start, l.touches)
    decreases |l.touches|
  {
    hide Touched;
    if l.touches != [] {
      var front, t := l.(touches := l.touches[..|l.touches| - 1]), l.touches[|l.touches| - 1];
      assert l.touches == front.touches + [t];
      LivedLastSeen(g, front);
      LastSeenOf(g, Lived(g, front), t);
    }
  }

  lemma FoundOldBack(touches: seq<Touch>, last: Time)
    requires touches != []
    ensures var t, front := touches[|touches| - 1], touches[..|touches| - 1];
      (exists i | 0 <= i < |touches| :: FoundOld(touches, last, i)) <==>
      t.Aged? && (Sub(t.now, last) > t.offlineAfter || exists i | 0 <= i < |front| :: FoundOld(front, last, i))
  {
    var n := |touches| - 1;
    var t, front := touches[n], touches[..n];
    if t.Aged? {
      assert FoundOld(touches, last, n) <==> Sub(t.now, last) > t.offlineAfter;
      forall i | 0 <= i < n
        ensures FoundOld(touches, last, i) <==> FoundOld(front, last, i)
      {
        UnseenFront(touches, i);
        assert touches[i] == front[i];
      }
    } else {
      assert forall i | 0 <= i <= n :: !UnseenFrom(touches, i);
    }
  }

  /** An asset is offline iff a sweep since its last observation found it older than it may be,
      or it entered memory offline and was not observed since. */
  lemma {:induction false} OfflineIff(g: Guesses, l: Life)
    ensures var last := Lived(g, l).lastSeen;
      && LatestOf(last, l.start, l.touches)
      && (Lived(g, l).status == Offline <==>
            || (l.start.status == Offline && UnseenFrom(l.touches, 0))
            || exists i | 0 <= i < |l.touches| :: FoundOld(l.touches, last, i))
    decreases |l.touches|
  {
    hide Touched, LatestOf, FoundOld;
    LivedLastSeen(g, l);
    if l.touches == [] {
      assert UnseenFrom(l.touches, 0);
    } else {
      var n := |l.touches| - 1;
      var front, t := l.(touches := l.touches[..n]), l.touches[n];
      OfflineIff(g, front);
      LastSeenOf(g, Lived(g, front), t);
      FoundOldBack(l.touches, Lived(g, l).lastSeen);
      UnseenFront(l.touches, 0);
    }
  }

  lemma UnseenFront(touches: seq<Touch>, i: nat)
    requires touches != [] && i < |touches|
    ensures UnseenFrom(touches, i) <==> touches[|touches| - 1].Aged? && UnseenFrom(touches[..|touches| - 1], i)
  {
    var front := touches[..|touches| - 1];
    assert forall j | i <= j < |front| :: front[j] == touches[j];
    if UnseenFrom(touches, i) {
      assert forall j | i <= j < |front| :: touches[j].Aged?;
    }
  }

  /** And so is every asset in every schedule that has not crashed. */
  lemma OfflineInStore(g: Guesses, events: seq<Event>, mac: Mac)
    requires mac != [] && AllRowsGood(g, Fresh(), events) && (forall e <- events :: TwoSteps(e)) && Schedule(g, Fresh(), events).Some?
    ensures var s, l := Current(Schedule(g, Fresh(), events).value.store, mac), LifeOf(g, events, mac, false);
      && (s.Some? <==> l.Some?)
      && (s.Some? ==>
            && LatestOf(s.value.lastSeen, l.value.start, l.value.touches)
            && (s.value.status == Offline <==>
                  || (l.value.start.status == Offline && UnseenFrom(l.value.touches, 0))
                  || exists i | 0 <= i < |l.value.touches| :: FoundOld(l.value.touches, s.value.lastSeen, i)))
  {
    hide Lived, LifeOf, Schedule, AllRowsGood, TwoSteps, Current, LatestOf, UnseenFrom, FoundOld;
    AssetsAreLives(g, events, mac);
    var l := LifeOf(g, events, mac, false);
    if l.Some? {
      OfflineIff(g, l.value);
    }
  }

  // ---------- addresses ----------

  function Family(s: Snapshot, six: bool): IpMap { if six then s.ipv6s else s.ipv4s }

  function Carried(t: Touch, six: bool): IpMap { if t.Aged? then map[] else if six then t.obs.ipv6s else t.obs.ipv4s }

  predicate Brought(t: Touch, six: bool, ip: string) { ip != "" && ip in Carried(t, six) }

  /** No observation has had the address from touch i on. */
  ghost predicate GoneFrom(touches: seq<Touch>, six: bool, ip: string, i: nat) {
    forall j | i <= j < |touches| :: !Brought(touches[j], six, ip)
  }

  /** A sweep since the last observation with the address found its lease over. */
  ghost predicate FoundOver(touches: seq<Touch>, six: bool, ip: string, e: IpEntry, i: nat)
    requires i < |touches|
  {
    GoneFrom(touches, six, ip, i) && touches[i].Aged? && !Lifecycle.InForce(e, touches[i].now)
  }

  /** What an observation that has an address makes of its entry. */
  ghost predicate SeenAgain(before: Option<IpEntry>, e: IpEntry, after: IpEntry, at: Time) {
    match before
    case None => after == e.(firstSeen := at, active := true)
    case Some(o) =>
      && after.active && after.firstSeen == o.firstSeen
      && after.lastSeen == (if e.lastSeen > o.lastSeen then e.lastSeen else o.lastSeen)
      && after.lease == if e.lease > 0 && e.lease > o.lease then e.lease else o.lease
  }

  lemma TouchedAddress(g: Guesses, s: Snapshot, t: Touch, six: bool, ip: string)
    ensures var before, after := Family(s, six), Family(Touched(g, s, t), six);
      && (ip in after <==> ip in before || Brought(t, six, ip))
      && (Brought(t, six, ip) ==>
            && after[ip].active
            && SeenAgain(if ip in before then Some(before[ip]) else None, Carried(t, six)[ip], after[ip], t.obs.at))
      && (ip in before && !Brought(t, six, ip) ==>
            after[ip] == before[ip].(active := before[ip].active && (t.Aged? ==> Lifecycle.InForce(before[ip], t.now))))
  {
    hide Lifecycle.InForce, Lifecycle.LeasesChecked, SweptIps, MergeIps;
    match t
    case Saw(obs) => MergedAddress(Family(s, six), Carried(t, six), obs.at, ip);
    case Aged(now, _) =>
      Lifecycle.LeasesAre(Family(s, six), now);
      CheckedAddress(Family(s, six), SweptIps(Family(s, six), now), now, ip);
  }

  lemma CheckedAddress(before: IpMap, after: IpMap, now: Time, ip: string)
    requires Lifecycle.LeasesChecked(before, after, now)
    ensures (ip in after <==> ip in before)
      && (ip in before ==> after[ip] == before[ip].(active := before[ip].active && Lifecycle.InForce(before[ip], now)))
  {
    hide Lifecycle.InForce;
  }

  lemma MergedAddress(m: IpMap, src: IpMap, at: Time, ip: string)
    ensures var after := MergeIps(m, src, at);
      && (ip in after <==> ip in m || (ip != "" && ip in src))
      && (ip != "" && ip in src ==> SeenAgain(if ip in m then Some(m[ip]) else None, src[ip], after[ip], at))
      && (ip in m && (ip == "" || ip !in src) ==> after[ip] == m[ip])
  {
  }

  lemma FoundOverBack(touches: seq<Touch>, six: bool, ip: string, e: IpEntry)
    requires touches != []
    ensures var t, front := touches[|touches| - 1], touches[..|touches| - 1];
      (exists i | 0 <= i < |touches| :: FoundOver(touches, six, ip, e, i)) <==>
      !Brought(t, six, ip)
        && ((t.Aged? && !Lifecycle.InForce(e, t.now)) || exists i | 0 <= i < |front| :: FoundOver(front, six, ip, e, i))
  {
    hide Brought, Lifecycle.InForce;
    var n := |touches| - 1;
    var t, front := touches[n], touches[..n];
    forall i | 0 <= i < n
      ensures FoundOver(touches, six, ip, e, i) <==> !Brought(t, six, ip) && FoundOver(front, six, ip, e, i)
    {
      GoneFront(touches, six, ip, i);
      assert touches[i] == front[i];
    }
    GoneFront(touches, six, ip, n);
    assert GoneFrom(front, six, ip, n);
    assert FoundOver(touches, six, ip, e, n) <==> !Brought(t, six, ip) && t.Aged? && !Lifecycle.InForce(e, t.now);
  }

  lemma GoneFront(touches: seq<Touch>, six: bool, ip: string, i: nat)
    requires touches != [] && i < |touches|
    ensures GoneFrom(touches, six, ip, i) <==>
      !Brought(touches[|touches| - 1], six, ip) && GoneFrom(touches[..|touches| - 1], six, ip, i)
  {
    hide Brought;
    var front := touches[..|touches| - 1];
    assert forall j | i <= j < |front| :: front[j] == touches[j];
    if GoneFrom(touches, six, ip, i) {
      assert forall j | i <= j < |front| :: !Brought(touches[j], six, ip);
    }
  }

  /** An asset has an address iff it entered memory with it or an observation had it; and the
      address is inactive iff a sweep since the last such observation found its lease over, or it
      entered memory inactive and no observation had it. */
  lemma {:induction false} InactiveIff(g: Guesses, l: Life, six: bool, ip: string)
    ensures var start, now := Family(l.start, six), Family(Lived(g, l), six);
      && (ip in now <==> ip in start || !GoneFrom(l.touches, six, ip, 0))
      && (ip in now ==>
            (!now[ip].active <==>
              || (ip in start && !start[ip].active && GoneFrom(l.touches, six, ip, 0))
              || exists i | 0 <= i < |l.touches| :: FoundOver(l.touches, six, ip, now[ip], i)))
    decreases |l.touches|
  {
    hide Touched, Brought, FoundOver, SeenAgain, Lifecycle.InForce;
    if l.touches == [] {
      assert GoneFrom(l.touches, six, ip, 0);
    } else {
      var n := |l.touches| - 1;
      var front, t := l.(touches := l.touches[..n]), l.touches[n];
      InactiveIff(g, front, six, ip);
      TouchedAddress(g, Lived(g, front), t, six, ip);
      GoneFront(l.touches, six, ip, 0);
      var now := Family(Lived(g, l), six);
      if ip in now {
        FoundOverBack(l.touches, six, ip, now[ip]);
        if !Brought(t, six, ip) {
          FoundOverOfSame(front.touches, six, ip, Family(Lived(g, front), six)[ip], now[ip]);
        }
      }
    }
  }

  /** The flag itself has no part in it. */
  lemma FoundOverOfSame(touches: seq<Touch>, six: bool, ip: string, a: IpEntry, b: IpEntry)
    requires a.(active := b.active) == b
    ensures forall i | 0 <= i < |touches| :: FoundOver(touches, six, ip, a, i) <==> FoundOver(touches, six, ip, b, i)
    ensures forall now :: Lifecycle.InForce(a, now) <==> Lifecycle.InForce(b, now)
  {
    hide GoneFrom;
  }

  /** And so are the addresses of every asset in every schedule that has not crashed. */
  lemma InactiveInStore(g: Guesses, events: seq<Event>, mac: Mac, six: bool, ip: string)
    requires mac != [] && AllRowsGood(g, Fresh(), events) && (forall e <- events :: TwoSteps(e)) && Schedule(g, Fresh(), events).Some?
    requires Current(Schedule(g, Fresh(), events).value.store, mac).Some?
    ensures var now, l := Family(Current(Schedule(g, Fresh(), events).value.store, mac).value, six), LifeOf(g, events, mac, false);
      && l.Some?
      && var start, touches := Family(l.value.start, six), l.value.touches;
         && (ip in now <==> ip in start || !GoneFrom(touches, six, ip, 0))
         && (ip in now ==>
               (!now[ip].active <==>
                 || (ip in start && !start[ip].active && GoneFrom(touches, six, ip, 0))
                 || exists i | 0 <= i < |touches| :: FoundOver(touches, six, ip, now[ip], i)))
  {
    hide Lived, LifeOf, Schedule, AllRowsGood, TwoSteps, Current, GoneFrom, FoundOver;
    AssetsAreLives(g, events, mac);
    InactiveIff(g, LifeOf(g, events, mac, false).value, six, ip);
  }
}
