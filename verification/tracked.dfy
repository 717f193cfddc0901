/** What an asset and its database row have in common: the columns whose changes make an
    asset dirty, and those that memory only adds to. */
module Tracked {
  import opened Clock
  import opened MacAddress
  import opened AssetModel
  import opened MergeUtil
  import opened Merging
  import opened Store
  import opened TimeText
  import opened TextOrder
  import opened Storage

  datatype Columns = Columns(
    status: Status, first: Time, last: Time,
    vendor: string, deviceType: string, model: string, os: string, hosts: set<string>,
    seen: nat, ips: map<string, IpColumns>, slots: set<ServiceSlot>)

  /** An address: when it was last seen, and its lease in whole seconds. */
  datatype IpColumns = IpColumns(last: Time, lease: int)

  function IpOfEntry(e: IpEntry): IpColumns { IpColumns(e.lastSeen, WholeSeconds(e.lease)) }

  function IpOfRow(r: IpRow): IpColumns { IpColumns(ParseTime(r.lastSeen), r.leaseSeconds) }

  /** One row stands for an address, whichever family it is in. */
  function IpsOf(v4: IpMap, v6: IpMap): map<string, IpColumns> {
    map ip | ip in v4.Keys + v6.Keys ::
      if ip !in v6 then IpOfEntry(v4[ip])
      else if ip !in v4 then IpOfEntry(v6[ip])
      else IpColumns(MaxTime(v4[ip].lastSeen, v6[ip].lastSeen), Max(WholeSeconds(v4[ip].lease), WholeSeconds(v6[ip].lease)))
  }

  function RowIps(ips: map<string, IpRow>): map<string, IpColumns> { map ip | ip in ips :: IpOfRow(ips[ip]) }

  predicate IpDominates(b: IpColumns, a: IpColumns) { a.last <= b.last && a.lease <= b.lease }

  ghost predicate IpsDominate(b: map<string, IpColumns>, a: map<string, IpColumns>) {
    forall ip <- a.Keys :: ip in b && IpDominates(b[ip], a[ip])
  }

  function SlotsOf(services: seq<Service>): set<ServiceSlot> {
    set svc | svc in services && ServiceUsable(svc) :: SlotOf(svc)
  }

  ghost function OfSnapshot(s: Snapshot): Columns {
    Columns(s.status, s.firstSeen, s.lastSeen, s.vendor, s.deviceType, s.model, s.os, SetOf(s.hostnames),
            s.seenCount, IpsOf(s.ipv4s, s.ipv6s), SlotsOf(s.services))
  }

  ghost function OfRow(r: Row): Columns {
    Columns(r.status, ParseTime(r.firstSeen), ParseTime(r.lastSeen), r.vendor, r.deviceType, r.model, r.os,
            r.hostFirst.Keys, r.seenCount, RowIps(r.ips), r.services.Keys)
  }

  predicate Sticks(a: string, b: string) { a != "" ==> b == a }

  /** b is a later version of the same asset than a: nothing known is lost or turned back.
      The status is free. */
  ghost predicate Dominates(b: Columns, a: Columns) {
    && b.first <= a.first && a.last <= b.last && a.seen <= b.seen
    && Sticks(a.vendor, b.vendor) && Sticks(a.deviceType, b.deviceType) && Sticks(a.model, b.model) && Sticks(a.os, b.os)
    && a.hosts <= b.hosts && IpsDominate(b.ips, a.ips) && a.slots <= b.slots
  }

  /** The dirty-tracked columns are equal; count, addresses and services are not tracked. */
  ghost predicate Same(a: Columns, b: Columns) {
    && a.status == b.status && a.first == b.first && a.last == b.last && SameNames(a, b)
  }

  ghost predicate SameNames(a: Columns, b: Columns) {
    a.vendor == b.vendor && a.deviceType == b.deviceType && a.model == b.model && a.os == b.os && a.hosts == b.hosts
  }

  /** All times of a run are written with this many fraction digits, if it says so. */
  type Grain = Option<nat>

  predicate HasGrain(k: Grain, t: Time) { k.Some? ==> |Digits(t)| == k.value }

  /** A stored time against the true one: equal when the grain is fixed, else less than a
      second off, because MIN and MAX compare text. */
  predicate Near(k: Grain, a: Time, b: Time) { if k.Some? then a == b else a / SECOND == b / SECOND }

  ghost predicate Agrees(k: Grain, a: Columns, b: Columns) {
    a.status == b.status && Near(k, a.first, b.first) && Near(k, a.last, b.last) && SameNames(a, b)
  }

  /** Addresses and the count are not tracked: an observation that brings a new address only,
      at a time within the asset's, changes both and does not raise `Changed`. */
  lemma AddressesAreNotTracked(s: Snapshot, obs: Observation, ip: string)
    requires s.seenCount > 0 && s.firstSeen != ZERO_TIME && s.firstSeen <= obs.at <= s.lastSeen
    requires ip != "" && ip in obs.ipv4s && ip !in s.ipv4s
    requires obs.hostnames == [] && obs.services == [] && obs.extra == map[]
    requires obs.vendor == "" && obs.deviceType == "" && obs.model == "" && obs.os == ""
    ensures ip in Observed(s, obs).ipv4s && Observed(s, obs).seenCount == s.seenCount + 1
    ensures !ObservedChanges(s, obs)
  {
    assert MergedStrings(s.hostnames, []) == s.hostnames && MergedServices(s.services, []) == s.services;
  }

  lemma DominatesTransitive(a: Columns, b: Columns, c: Columns)
    requires Dominates(b, a) && Dominates(c, b)
    ensures Dominates(c, a)
  {
  }

  // ---------- what the store's operations do to the columns ----------

  lemma SlotsGrow(known: seq<Service>, longer: seq<Service>)
    requires known <= longer
    ensures SlotsOf(known) <= SlotsOf(longer)
  {
    forall svc <- known ensures svc in longer {
    }
  }

  lemma WholeSecondsGrow(d: int, e: int)
    requires d <= e
    ensures WholeSeconds(d) <= WholeSeconds(e)
  {
  }

  /** Entries that only move forward. */
  ghost predicate EntriesGrow(m: IpMap, n: IpMap) {
    forall ip <- m.Keys :: ip in n && m[ip].lastSeen <= n[ip].lastSeen && m[ip].lease <= n[ip].lease
  }

  lemma IpsGrow(v4: IpMap, v6: IpMap, w4: IpMap, w6: IpMap)
    requires EntriesGrow(v4, w4) && EntriesGrow(v6, w6)
    ensures IpsDominate(IpsOf(w4, w6), IpsOf(v4, v6))
  {
    hide WholeSeconds;
    forall ip <- IpsOf(v4, v6).Keys ensures ip in IpsOf(w4, w6) && IpDominates(IpsOf(w4, w6)[ip], IpsOf(v4, v6)[ip]) {
      if ip in v4 {
        WholeSecondsGrow(v4[ip].lease, w4[ip].lease);
      }
      if ip in v6 {
        WholeSecondsGrow(v6[ip].lease, w6[ip].lease);
      }
    }
  }

  lemma MergeGrows(m: IpMap, src: IpMap, at: Time)
    ensures EntriesGrow(m, MergeIps(m, src, at))
  {
  }

  lemma SweepGrows(m: IpMap, now: Time)
    ensures EntriesGrow(m, SweptIps(m, now))
  {
    hide LeaseOver;
  }

  lemma ObservedDominates(s: Snapshot, obs: Observation)
    requires s.firstSeen != ZERO_TIME
    ensures Dominates(OfSnapshot(Observed(s, obs)), OfSnapshot(s))
    ensures !ObservedChanges(s, obs) ==> Same(OfSnapshot(s), OfSnapshot(Observed(s, obs)))
  {
    hide MergedStrings, MergedServices, MergedExtras, ExtrasChange, MergeIps, SlotsOf, IpsOf, IpsDominate;
    MergeGrows(s.ipv4s, obs.ipv4s, obs.at);
    MergeGrows(s.ipv6s, obs.ipv6s, obs.at);
    IpsGrow(s.ipv4s, s.ipv6s, Observed(s, obs).ipv4s, Observed(s, obs).ipv6s);
    MergedStringsSet(s.hostnames, obs.hostnames);
    AppendedKeepsFront(s.services, obs.services, ServiceKey, ServiceUsable);
    assert s.services <= MergedServices(s.services, obs.services) by {
      MergedServicesIs(s.services, obs.services);
    }
    SlotsGrow(s.services, MergedServices(s.services, obs.services));
  }

  lemma MergedServicesIs(known: seq<Service>, incoming: seq<Service>)
    ensures MergedServices(known, incoming) == Appended(known, incoming, ServiceKey, ServiceUsable)
  {
  }

  /** An observation leaves a later version behind, and one that differs in no tracked column
      unless it raises the changed flag. */
  lemma RevivedDominates(g: Guesses, s: Snapshot, obs: Observation)
    requires s.firstSeen != ZERO_TIME
    ensures Dominates(OfSnapshot(Revived(g, s, obs)), OfSnapshot(s))
    ensures !ReviveChanges(g, s, obs) ==> Same(OfSnapshot(s), OfSnapshot(Revived(g, s, obs)))
  {
    hide Observed, ObservedChanges, SlotsOf, IpsOf, IpsDominate;
    ObservedDominates(s, obs);
  }

  lemma SweptDominates(s: Snapshot, now: Time, offlineAfter: Duration)
    ensures Dominates(OfSnapshot(Swept(s, now, offlineAfter)), OfSnapshot(s))
  {
    hide SlotsOf, IpsOf, IpsDominate, SweptIps;
    SweepGrows(s.ipv4s, now);
    SweepGrows(s.ipv6s, now);
    IpsGrow(s.ipv4s, s.ipv6s, SweptIps(s.ipv4s, now), SweptIps(s.ipv6s, now));
  }

  /** Contents as the store makes them: they have been seen, no hostname is empty, and their
      times have the grain of the run. */
  ghost predicate Sound(k: Grain, s: Snapshot) {
    && s.firstSeen != ZERO_TIME && s.lastSeen != ZERO_TIME && "" !in s.hostnames
    && HasGrain(k, s.firstSeen) && HasGrain(k, s.lastSeen)
  }

  lemma ObservedSound(k: Grain, s: Snapshot, obs: Observation)
    requires obs.Valid() && HasGrain(k, obs.at)
    requires Sound(k, s) || (s.firstSeen == ZERO_TIME && s.lastSeen == ZERO_TIME && s.hostnames == [])
    ensures Sound(k, Observed(s, obs))
  {
    hide MergedStrings, MergedServices, MergedExtras, MergedIp, Digits;
    MergedStringsSet(s.hostnames, obs.hostnames);
    var out := MergedStrings(s.hostnames, obs.hostnames);
    assert "" in out <==> "" in SetOf(out);
    assert "" in s.hostnames <==> "" in SetOf(s.hostnames);
  }

  lemma MergedSound(k: Grain, g: Guesses, s: Snapshot, obs: Observation)
    requires obs.Valid() && HasGrain(k, obs.at)
    requires Sound(k, s) || (s.firstSeen == ZERO_TIME && s.lastSeen == ZERO_TIME && s.hostnames == [])
    ensures Sound(k, Merged(g, s, obs)) && Sound(k, Revived(g, s, obs))
  {
    ObservedSound(k, s, obs);
    hide Observed, Digits;
  }

  // ---------- what a save does to the columns ----------

  /** A row as this program writes it, filed under the key of its own address. */
  ghost predicate RowOk(k: Grain, id: AssetId, r: Row) {
    && TimeFmt(ParseTime(r.firstSeen)) == r.firstSeen && TimeFmt(ParseTime(r.lastSeen)) == r.lastSeen
    && ParseTime(r.firstSeen) != ZERO_TIME && ParseTime(r.lastSeen) != ZERO_TIME
    && HasGrain(k, ParseTime(r.firstSeen)) && HasGrain(k, ParseTime(r.lastSeen))
    && "" !in r.hostFirst && ("", 0) !in r.services && KeyMac(id, r.mac) && IpRowsOk(r.ips)
  }

  ghost predicate IpRowsOk(ips: map<string, IpRow>) { forall ip <- ips.Keys :: IpRowOk(ips[ip]) }

  ghost predicate IpRowOk(r: IpRow) {
    TimeFmt(ParseTime(r.lastSeen)) == r.lastSeen && MIN_DURATION <= r.leaseSeconds * SECOND <= MAX_DURATION
  }

  lemma NewIpOk(version: nat, e: IpEntry)
    ensures IpRowOk(NewIp(version, e)) && IpOfRow(NewIp(version, e)) == IpOfEntry(e)
  {
    hide TimeFmt, ParseTime;
    ParseUndoesFmt(e.lastSeen);
  }

  /** A merged address row is well formed and no later than the later of the two. */
  lemma MergedIpOk(o: IpRow, n: IpRow, c: IpColumns)
    requires IpRowOk(o) && IpRowOk(n) && IpDominates(c, IpOfRow(o)) && IpDominates(c, IpOfRow(n))
    ensures IpRowOk(MergedIpRow(Some(o), n)) && IpDominates(c, IpOfRow(MergedIpRow(Some(o), n)))
  {
    hide TimeFmt, ParseTime, TextMin, TextMax, Digits;
    PickLast(None, ParseTime(o.lastSeen), ParseTime(n.lastSeen));
  }

  /** Writing the addresses of one family into rows. */
  lemma WithIpsDominated(ips: map<string, IpRow>, m: IpMap, version: nat, c: map<string, IpColumns>)
    requires IpRowsOk(ips) && IpsDominate(c, RowIps(ips))
    requires forall ip <- m.Keys :: ip in c && IpDominates(c[ip], IpOfEntry(m[ip]))
    ensures IpRowsOk(WithIps(ips, m, version)) && IpsDominate(c, RowIps(WithIps(ips, m, version)))
  {
    hide IpRowOk, IpOfRow, IpOfEntry, IpDominates, NewIp, MergedIpRow;
    var after := WithIps(ips, m, version);
    forall ip <- after.Keys ensures IpRowOk(after[ip]) && ip in c && IpDominates(c[ip], IpOfRow(after[ip])) {
      assert ip in ips ==> ip in RowIps(ips) && RowIps(ips)[ip] == IpOfRow(ips[ip]);
      if ip in m {
        NewIpOk(version, m[ip]);
        if ip in ips {
          MergedIpOk(ips[ip], NewIp(version, m[ip]), c[ip]);
        } else {
          MergedIpNew(NewIp(version, m[ip]));
        }
      }
    }
  }

  lemma MergedIpNew(n: IpRow)
    ensures MergedIpRow(None, n) == n
  {
  }

  lemma SavedIps(o: Option<Row>, s: Snapshot, c: map<string, IpColumns>)
    requires o.Some? ==> IpRowsOk(o.value.ips) && IpsDominate(c, RowIps(o.value.ips))
    requires IpsDominate(c, IpsOf(s.ipv4s, s.ipv6s))
    ensures IpRowsOk(SavedRow(o, s).ips) && IpsDominate(c, RowIps(SavedRow(o, s).ips))
  {
    hide SavedRow, WithIps, IpRowOk, IpOfRow, WholeSeconds;
    var before := if o.Some? then o.value.ips else map[];
    SavedRowParts(o, s);
    forall ip <- s.ipv4s.Keys ensures ip in c && IpDominates(c[ip], IpOfEntry(s.ipv4s[ip])) {
      assert ip in IpsOf(s.ipv4s, s.ipv6s);
    }
    forall ip <- s.ipv6s.Keys ensures ip in c && IpDominates(c[ip], IpOfEntry(s.ipv6s[ip])) {
      assert ip in IpsOf(s.ipv4s, s.ipv6s);
    }
    WithIpsDominated(before, s.ipv4s, 4, c);
    WithIpsDominated(WithIps(before, s.ipv4s, 4), s.ipv6s, 6, c);
  }

  ghost predicate KeyMac(id: AssetId, mac: string) { exists m: Mac :: Owns(m, id) && MacString(m) == mac }

  /** The address of a snapshot: that of its id, or lost when it could not be read back. */
  ghost predicate MacOk(s: Snapshot) { s.mac == [] || Owns(s.mac, s.id) }

  lemma PickFirst(k: Grain, a: Time, b: Time)
    ensures var p := ParseTime(TextMin(TimeFmt(a), TimeFmt(b)));
      && TextMin(TimeFmt(a), TimeFmt(b)) == TimeFmt(p) && (p == a || p == b)
      && (b <= a && HasGrain(k, a) && HasGrain(k, b) ==> Near(k, p, b))
  {
    hide TextMin, TimeFmt, ParseTime, Digits, Misordered;
    ParseUndoesFmt(a);
    ParseUndoesFmt(b);
    TextMinMax(a, b);
    TextMinMax(b, a);
    if a == b {
      PickOfEquals(TimeFmt(a));
    }
    if |Digits(a)| == |Digits(b)| {
      EqualDigitsCompare(a, b);
    }
  }

  lemma PickLast(k: Grain, a: Time, b: Time)
    ensures var p := ParseTime(TextMax(TimeFmt(a), TimeFmt(b)));
      && TextMax(TimeFmt(a), TimeFmt(b)) == TimeFmt(p) && (p == a || p == b)
      && (a <= b && HasGrain(k, a) && HasGrain(k, b) ==> Near(k, p, b))
  {
    hide TextMax, TimeFmt, ParseTime, Digits, Misordered;
    ParseUndoesFmt(a);
    ParseUndoesFmt(b);
    TextMinMax(a, b);
    TextMinMax(b, a);
    if a == b {
      PickOfEquals(TimeFmt(a));
    }
    if |Digits(a)| == |Digits(b)| {
      EqualDigitsCompare(a, b);
    }
  }

  lemma {:induction false} ServiceRowKeys(s: Snapshot, n: nat)
    requires n <= |s.services|
    ensures ServiceRows(s, n).Keys == SlotsOf(s.services[..n])
  {
    hide NewService;
    if n > 0 {
      ServiceRowKeys(s, n - 1);
      assert s.services[..n] == s.services[..n - 1] + [s.services[n - 1]];
      forall slot ensures slot in SlotsOf(s.services[..n])
        <==> slot in SlotsOf(s.services[..n - 1]) || (ServiceUsable(s.services[n - 1]) && slot == SlotOf(s.services[n - 1]))
      {
        assert s.services[n - 1] in s.services[..n];
      }
    }
  }

  function SavedRow(o: Option<Row>, s: Snapshot): Row { WithChildren(MergedRow(o, s), s) }

  /** The child tables of a saved row: everything that was there and everything offered. */
  lemma SavedRowParts(o: Option<Row>, s: Snapshot)
    ensures var before := if o.Some? then o.value else NO_ROW; var r := SavedRow(o, s);
      && r.ips == WithIps(WithIps(before.ips, s.ipv4s, 4), s.ipv6s, 6) && r.hostFirst == WithHostFirst(before.hostFirst, s)
      && r.services == before.services + ServiceRows(s, |s.services|)
  {
    hide TimeFmt, TextMin, TextMax, ServiceRows, WithIps, WithHostFirst, WithHostLast, MacString, Coalesce, Max;
  }

  lemma SavedChildren(o: Option<Row>, s: Snapshot)
    requires "" !in s.hostnames
    ensures var before := if o.Some? then o.value else NO_ROW; var r := SavedRow(o, s);
      && r.hostFirst.Keys == before.hostFirst.Keys + SetOf(s.hostnames)
      && r.ips.Keys == before.ips.Keys + s.ipv4s.Keys + s.ipv6s.Keys
      && r.services.Keys == before.services.Keys + SlotsOf(s.services)
  {
    hide TimeFmt, SlotsOf, ServiceRows, MergedIpRow, NewIp, StoredIp, SavedRow;
    SavedRowParts(o, s);
    ServiceRowKeys(s, |s.services|);
    assert s.services[..|s.services|] == s.services;
    assert HostKeys(s) == SetOf(s.hostnames);
  }

  /** The times of a saved row are each one of the two that were offered, written as such. */
  lemma SavedTimes(k: Grain, o: Option<Row>, s: Snapshot)
    requires Sound(k, s)
    requires o.Some? ==> RowOk(k, s.id, o.value) && Dominates(OfSnapshot(s), OfRow(o.value))
    ensures var r, c := SavedRow(o, s), OfRow(SavedRow(o, s));
      && TimeFmt(c.first) == r.firstSeen && TimeFmt(c.last) == r.lastSeen
      && (c.first == s.firstSeen || (o.Some? && c.first == OfRow(o.value).first)) && Near(k, c.first, s.firstSeen)
      && (c.last == s.lastSeen || (o.Some? && c.last == OfRow(o.value).last)) && Near(k, c.last, s.lastSeen)
  {
    hide TimeFmt, ParseTime, TextMin, TextMax, Digits, SlotsOf, MacString, KeyMac, WithIps, WithHostFirst,
      WithHostLast, ServiceRows,
      IpsOf, RowIps, IpsDominate, IpRowsOk;
    ParseUndoesFmt(s.firstSeen);
    ParseUndoesFmt(s.lastSeen);
    if o.Some? {
      PickFirst(k, ParseTime(o.value.firstSeen), s.firstSeen);
      PickLast(k, ParseTime(o.value.lastSeen), s.lastSeen);
    }
  }

  lemma SavedNames(o: Option<Row>, s: Snapshot)
    requires "" !in s.hostnames && (o.Some? ==> Dominates(OfSnapshot(s), OfRow(o.value)))
    ensures var c := OfRow(SavedRow(o, s));
      c.status == s.status && SameNames(c, OfSnapshot(s))
      && c.seen == s.seenCount && c.slots == OfSnapshot(s).slots
  {
    hide TimeFmt, ParseTime, TextMin, TextMax, SlotsOf, MacString, WithIps, WithHostFirst, WithHostLast, ServiceRows,
      IpsOf, RowIps,
      IpsDominate;
    SavedChildren(o, s);
  }

  /** Saving a version that dominates the row makes the row agree with it, and the row stays
      dominated by every version that dominates both. */
  lemma SaveAgrees(k: Grain, o: Option<Row>, s: Snapshot)
    requires Sound(k, s) && MacOk(s) && (o.None? ==> s.mac != [])
    requires o.Some? ==> RowOk(k, s.id, o.value) && Dominates(OfSnapshot(s), OfRow(o.value))
    ensures RowOk(k, s.id, SavedRow(o, s))
    ensures Agrees(k, OfRow(SavedRow(o, s)), OfSnapshot(s))
    ensures forall c: Columns :: Dominates(c, OfSnapshot(s)) && (o.Some? ==> Dominates(c, OfRow(o.value)))
                             ==> Dominates(c, OfRow(SavedRow(o, s)))
  {
    hide TimeFmt, ParseTime, Digits, SlotsOf, KeyMac, SavedRow, MacOk, IpsOf, RowIps, IpsDominate, IpRowsOk;
    forall c: Columns | Dominates(c, OfSnapshot(s)) && (o.Some? ==> Dominates(c, OfRow(o.value)))
      ensures IpsDominate(c.ips, RowIps(SavedRow(o, s).ips))
    {
      SavedIps(o, s, c.ips);
    }
    IpsDominateThemselves(IpsOf(s.ipv4s, s.ipv6s));
    SavedIps(o, s, IpsOf(s.ipv4s, s.ipv6s));
    SavedTimes(k, o, s);
    SavedNames(o, s);
    SavedMac(o, s);
    NoUnusableSlot(s.services);
    var r := SavedRow(o, s);
    assert "" in r.hostFirst <==> "" in OfRow(r).hosts;
    assert ("", 0) in r.services <==> ("", 0) in OfRow(r).slots;
  }

  lemma IpsDominateThemselves(ips: map<string, IpColumns>)
    ensures IpsDominate(ips, ips)
  {
  }

  lemma NoUnusableSlot(services: seq<Service>)
    ensures ("", 0) !in SlotsOf(services)
  {
  }

  lemma SavedMac(o: Option<Row>, s: Snapshot)
    requires MacOk(s) && (o.None? ==> s.mac != []) && (o.Some? ==> KeyMac(s.id, o.value.mac))
    ensures KeyMac(s.id, SavedRow(o, s).mac)
  {
    hide TimeFmt, TextMin, TextMax, MacKey;
  }

  /** A stored lease is a whole number of seconds that fits. */
  lemma StoredLease(r: IpRow)
    requires IpRowOk(r)
    ensures WholeSeconds(Clamp(r.leaseSeconds * SECOND)) == r.leaseSeconds
  {
  }

  /** The addresses of a row come back with the same times and leases. */
  lemma LoadedIpsSame(r: Row)
    requires IpRowsOk(r.ips)
    ensures IpsOf(LoadedIps(r, false), LoadedIps(r, true)) == RowIps(r.ips)
  {
    hide ParseTime, WholeSeconds, Clamp, IpRowOk;
    forall ip <- r.ips.Keys ensures IpsOf(LoadedIps(r, false), LoadedIps(r, true))[ip] == RowIps(r.ips)[ip] {
      StoredLease(r.ips[ip]);
    }
  }

  /** A loaded row comes back as contents with the same columns. */
  lemma LoadSame(k: Grain, id: AssetId, r: Row, s: Snapshot)
    requires RowOk(k, id, r) && IsLoadOf(id, r, s)
    ensures OfSnapshot(s) == OfRow(r) && Sound(k, s) && MacOk(s) && s.id == id
  {
    hide TimeFmt, ParseTime, Digits, MacKey, MacString, IsLoadOfService, LoadedIps, RowIps, IpsOf, IpRowsOk;
    LoadedIpsSame(r);
    var m: Mac :| Owns(m, id) && MacString(m) == r.mac;
    ParseMacString(m);
    assert "" in s.hostnames <==> "" in SetOf(s.hostnames);
    forall slot ensures slot in SlotsOf(s.services) <==> slot in r.services {
      if slot in r.services {
        var svc :| svc in s.services && SlotOf(svc) == slot;
        assert ServiceUsable(svc);
      }
    }
  }
}
