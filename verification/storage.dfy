/** The tables of internal/storage/schema.sql as a map of rows, and the upserts of
    internal/storage/sqlite.go as functions on it. Child rows are kept with their asset. */
module Storage {
  import opened Clock
  import opened MacAddress
  import opened AssetModel
  import opened TimeText
  import opened TextOrder

  datatype IpRow = IpRow(version: nat, firstSeen: string, lastSeen: string, leaseSeconds: int, active: bool)

  datatype ServiceRow = ServiceRow(
    name: string, version: string, product: string, vendor: string, banner: string, active: bool, lastSeen: string)

  /** The primary key of `asset_services` has no client or server role. */
  type ServiceSlot = (string, Port)

  datatype Row = Row(
    status: Status, mac: string, vendor: string, deviceType: string, model: string, os: string, extra: Extras,
    firstSeen: string, lastSeen: string, seenCount: nat,
    ips: map<string, IpRow>,
    hostFirst: map<string, string>, hostLast: map<string, string>,
    services: map<ServiceSlot, ServiceRow>)

  type Db = map<AssetId, Row>

  function Max(a: int, b: int): int { if a <= b then b else a }

  /** `int64(d.Seconds())`: whole seconds, towards zero. */
  function WholeSeconds(d: int): int { if d >= 0 then d / SECOND else -((-d) / SECOND) }

  /** `COALESCE(NULLIF(excluded.c, ''), c)`. */
  function Coalesce(stored: string, offered: string): string { if offered != "" then offered else stored }

  // ---------- upserts ----------

  function NewIp(version: nat, e: IpEntry): IpRow {
    IpRow(version, TimeFmt(e.firstSeen), TimeFmt(e.lastSeen), WholeSeconds(e.lease), e.active)
  }

  /** `upsertIPRow`. */
  function MergedIpRow(stored: Option<IpRow>, n: IpRow): IpRow {
    if stored.None? then n
    else
      var o := stored.value;
      IpRow(n.version, TextMin(o.firstSeen, n.firstSeen), TextMax(o.lastSeen, n.lastSeen),
            Max(o.leaseSeconds, n.leaseSeconds), n.active)
  }

  function StoredIp(ips: map<string, IpRow>, ip: string): Option<IpRow> {
    if ip in ips then Some(ips[ip]) else None
  }

  function WithIps(ips: map<string, IpRow>, m: IpMap, version: nat): map<string, IpRow> {
    map ip | ip in ips.Keys + m.Keys ::
      if ip in m then MergedIpRow(StoredIp(ips, ip), NewIp(version, m[ip])) else ips[ip]
  }

  function HostKeys(s: Snapshot): set<string> { set h | h in s.hostnames && h != "" }

  function SlotOf(svc: Service): ServiceSlot { (svc.protocol, svc.port) }

  function NewService(s: Snapshot, svc: Service): ServiceRow {
    ServiceRow(svc.name, svc.version, svc.product, svc.vendor, svc.banner, svc.active,
               if svc.lastSeen == ZERO_TIME then TimeFmt(s.lastSeen) else TimeFmt(svc.lastSeen))
  }

  /** The service rows that a snapshot writes; of two services in one slot the later wins. */
  function ServiceRows(s: Snapshot, n: nat): map<ServiceSlot, ServiceRow>
    requires n <= |s.services|
  {
    if n == 0 then map[]
    else
      var svc := s.services[n - 1];
      if svc.protocol == "" && svc.port == 0 then ServiceRows(s, n - 1)
      else ServiceRows(s, n - 1)[SlotOf(svc) := NewService(s, svc)]
  }

  function WithHostFirst(hosts: map<string, string>, s: Snapshot): map<string, string> {
    (map h | h in HostKeys(s) :: TimeFmt(s.firstSeen)) + hosts
  }

  function WithHostLast(hosts: map<string, string>, s: Snapshot): map<string, string> {
    hosts + map h | h in HostKeys(s) :: TimeFmt(s.lastSeen)
  }

  const NO_ROW := Row(Online, "", "", "", "", "", map[], "", "", 0, map[], map[], map[], map[])

  /** `upsertAsset`: the asset columns. `extra` is written by the insert only. */
  function MergedRow(stored: Option<Row>, s: Snapshot): Row {
    if stored.None? then
      NO_ROW.(status := s.status, mac := MacString(s.mac), vendor := s.vendor, deviceType := s.deviceType,
              model := s.model, os := s.os, extra := s.extra,
              firstSeen := TimeFmt(s.firstSeen), lastSeen := TimeFmt(s.lastSeen), seenCount := s.seenCount)
    else
      var o := stored.value;
      o.(status := s.status, mac := Coalesce(o.mac, MacString(s.mac)), vendor := Coalesce(o.vendor, s.vendor),
         deviceType := Coalesce(o.deviceType, s.deviceType), model := Coalesce(o.model, s.model),
         os := Coalesce(o.os, s.os),
         firstSeen := TextMin(o.firstSeen, TimeFmt(s.firstSeen)), lastSeen := TextMax(o.lastSeen, TimeFmt(s.lastSeen)),
         seenCount := Max(o.seenCount, s.seenCount))
  }

  /** `replaceChildRows`. */
  function WithChildren(row: Row, s: Snapshot): Row {
    row.(ips := WithIps(WithIps(row.ips, s.ipv4s, 4), s.ipv6s, 6),
         hostFirst := WithHostFirst(row.hostFirst, s), hostLast := WithHostLast(row.hostLast, s),
         services := row.services + ServiceRows(s, |s.services|))
  }

  function StoredRow(db: Db, id: AssetId): Option<Row> { if id in db then Some(db[id]) else None }

  function SaveOne(db: Db, s: Snapshot): Db { db[s.id := WithChildren(MergedRow(StoredRow(db, s.id), s), s)] }

  /** `SaveBatch`, when the transaction commits. */
  function SaveAll(db: Db, batch: seq<Snapshot>): Db {
    if batch == [] then db else SaveOne(SaveAll(db, batch[..|batch| - 1]), batch[|batch| - 1])
  }

  // ---------- chunks ----------

  /** Saving a list in consecutive chunks is saving it whole. */
  lemma {:induction false} SaveInChunks(db: Db, xs: seq<Snapshot>, ys: seq<Snapshot>)
    ensures SaveAll(SaveAll(db, xs), ys) == SaveAll(db, xs + ys)
  {
    hide SaveOne;
    if ys == [] {
      assert xs + ys == xs;
    } else {
      assert (xs + ys)[..|xs + ys| - 1] == xs + ys[..|ys| - 1];
      SaveInChunks(db, xs, ys[..|ys| - 1]);
    }
  }

  function Concat<T>(chunks: seq<seq<T>>): seq<T> {
    if chunks == [] then [] else Concat(chunks[..|chunks| - 1]) + chunks[|chunks| - 1]
  }

  function SaveChunks(db: Db, chunks: seq<seq<Snapshot>>): Db {
    if chunks == [] then db else SaveAll(SaveChunks(db, chunks[..|chunks| - 1]), chunks[|chunks| - 1])
  }

  lemma {:induction false} ChunkingDoesNotMatter(db: Db, chunks: seq<seq<Snapshot>>)
    ensures SaveChunks(db, chunks) == SaveAll(db, Concat(chunks))
  {
    hide SaveAll;
    if chunks == [] {
      assert SaveAll(db, []) == db by {
        SaveNothing(db);
      }
    } else {
      ChunkingDoesNotMatter(db, chunks[..|chunks| - 1]);
      SaveInChunks(db, Concat(chunks[..|chunks| - 1]), chunks[|chunks| - 1]);
    }
  }

  lemma SaveNothing(db: Db)
    ensures SaveAll(db, []) == db
  {
  }

  // ---------- service rows ----------

  ghost predicate WritesSlot(s: Snapshot, i: nat, slot: ServiceSlot)
    requires i < |s.services|
  {
    SlotOf(s.services[i]) == slot && (s.services[i].protocol != "" || s.services[i].port != 0)
  }

  /** A slot has a row iff some service of the snapshot falls into it, and the row is that of
      the last such service. The role is not part of the slot, so a client and a server entry
      that memory keeps apart share one row. */
  lemma {:induction false} ServiceRowIsLast(s: Snapshot, n: nat, slot: ServiceSlot)
    requires n <= |s.services|
    ensures slot in ServiceRows(s, n) <==> exists i | 0 <= i < n :: WritesSlot(s, i, slot)
    ensures slot in ServiceRows(s, n) ==> exists i | 0 <= i < n ::
      WritesSlot(s, i, slot) && ServiceRows(s, n)[slot] == NewService(s, s.services[i])
      && forall j | i < j < n :: !WritesSlot(s, j, slot)
  {
    hide NewService;
    if n > 0 {
      ServiceRowIsLast(s, n - 1, slot);
      if WritesSlot(s, n - 1, slot) {
        assert ServiceRows(s, n)[slot] == NewService(s, s.services[n - 1]);
      } else if slot in ServiceRows(s, n - 1) {
        var i :| 0 <= i < n - 1 && WritesSlot(s, i, slot) && ServiceRows(s, n - 1)[slot] == NewService(s, s.services[i])
          && forall j | i < j < n - 1 :: !WritesSlot(s, j, slot);
        assert WritesSlot(s, i, slot) && ServiceRows(s, n)[slot] == NewService(s, s.services[i])
          && forall j | i < j < n :: !WritesSlot(s, j, slot);
      }
    }
  }

  // ---------- loading ----------

  /** `snap` is what the load functions make of a row. The order of hostnames and services is
      that of the query and not specified; the role of a service is not stored and comes back
      as server; `Extra` goes through JSON and is left open here. */
  ghost predicate IsLoadOf(id: AssetId, row: Row, snap: Snapshot) {
    && snap.id == id && snap.status == row.status && snap.mac == ParseMac(row.mac)
    && snap.vendor == row.vendor && snap.deviceType == row.deviceType && snap.model == row.model && snap.os == row.os
    && snap.firstSeen == ParseTime(row.firstSeen) && snap.lastSeen == ParseTime(row.lastSeen)
    && snap.seenCount == row.seenCount
    && snap.ipv4s == LoadedIps(row, false) && snap.ipv6s == LoadedIps(row, true)
    && NoDuplicates(snap.hostnames) && SetOf(snap.hostnames) == row.hostFirst.Keys
    && (forall svc <- snap.services :: SlotOf(svc) in row.services && IsLoadOfService(row.services[SlotOf(svc)], svc))
    && (forall slot <- row.services.Keys :: exists svc <- snap.services :: SlotOf(svc) == slot)
  }

  ghost function LoadedIps(row: Row, six: bool): map<string, IpEntry> {
    map ip | ip in row.ips && (row.ips[ip].version == 6) == six ::
      var r := row.ips[ip];
      IpEntry(ParseTime(r.firstSeen), ParseTime(r.lastSeen), Clamp(r.leaseSeconds * SECOND), r.active)
  }

  /** Stored leases are whole seconds of a duration, for which this is the identity. */
  function Clamp(n: int): Duration {
    if n > MAX_DURATION then MAX_DURATION else if n < MIN_DURATION then MIN_DURATION else n
  }

  ghost predicate IsLoadOfService(r: ServiceRow, svc: Service) {
    && svc.name == r.name && svc.version == r.version && svc.product == r.product && svc.vendor == r.vendor
    && svc.banner == r.banner && svc.active == r.active && svc.lastSeen == ParseTime(r.lastSeen) && !svc.isClient
  }
}
