/** The repository of internal/storage/sqlite.go as it works on its rows, statement by
    statement, proved against the functions of module Storage; and the rows that it can load. */
module Repositories {
  import opened Clock
  import opened MacAddress
  import opened AssetModel
  import opened TimeText
  import opened TextOrder
  import opened Storage

  function Upto(s: Snapshot, i: nat): Snapshot
    requires i <= |s.hostnames|
  {
    s.(hostnames := s.hostnames[..i])
  }

  /** A row after the first i hostnames of a snapshot. */
  function WithHosts(row: Row, s: Snapshot, i: nat): Row
    requires i <= |s.hostnames|
  {
    row.(hostFirst := WithHostFirst(row.hostFirst, Upto(s, i)), hostLast := WithHostLast(row.hostLast, Upto(s, i)))
  }

  lemma NoHost(row: Row, s: Snapshot)
    ensures WithHosts(row, s, 0) == row
  {
    hide TimeFmt;
    assert WithHosts(row, s, 0).hostFirst == row.hostFirst && WithHosts(row, s, 0).hostLast == row.hostLast;
  }

  lemma OneMoreKey(s: Snapshot, i: nat)
    requires i < |s.hostnames|
    ensures forall x :: x in HostKeys(Upto(s, i + 1)) <==> x in HostKeys(Upto(s, i)) || (x == s.hostnames[i] && x != "")
  {
    assert s.hostnames[..i + 1] == s.hostnames[..i] + [s.hostnames[i]];
    forall x: string
      ensures x in HostKeys(Upto(s, i + 1)) <==> x in HostKeys(Upto(s, i)) || (x == s.hostnames[i] && x != "")
    {
      assert x in s.hostnames[..i + 1] <==> x in s.hostnames[..i] || x == s.hostnames[i];
    }
  }

  lemma OneMoreFirst(hosts: map<string, string>, s: Snapshot, i: nat)
    requires i < |s.hostnames|
    ensures var h, before := s.hostnames[i], WithHostFirst(hosts, Upto(s, i));
      WithHostFirst(hosts, Upto(s, i + 1)) == if h == "" || h in before then before else before[h := TimeFmt(s.firstSeen)]
  {
    hide TimeFmt, HostKeys;
    OneMoreKey(s, i);
  }

  lemma OneMoreLast(hosts: map<string, string>, s: Snapshot, i: nat)
    requires i < |s.hostnames|
    ensures var h, before := s.hostnames[i], WithHostLast(hosts, Upto(s, i));
      WithHostLast(hosts, Upto(s, i + 1)) == if h == "" then before else before[h := TimeFmt(s.lastSeen)]
  {
    hide TimeFmt, HostKeys;
    OneMoreKey(s, i);
  }

  lemma OneMoreHost(row: Row, s: Snapshot, i: nat)
    requires i < |s.hostnames|
    ensures var h, before := s.hostnames[i], WithHosts(row, s, i);
      WithHosts(row, s, i + 1) == if h == "" then before else before.(
        hostFirst := if h in before.hostFirst then before.hostFirst else before.hostFirst[h := TimeFmt(s.firstSeen)],
        hostLast := before.hostLast[h := TimeFmt(s.lastSeen)])
  {
    hide TimeFmt, WithHostFirst, WithHostLast;
    OneMoreFirst(row.hostFirst, s, i);
    OneMoreLast(row.hostLast, s, i);
  }

  class Repository {
    var rows: Db

    constructor ()
      ensures rows == map[]
    {
      rows := map[];
    }

    /** `upsertAsset`. */
    method UpsertAsset(s: Snapshot)
      modifies this
      ensures rows == old(rows)[s.id := MergedRow(StoredRow(old(rows), s.id), s)]
    {
      hide TimeFmt, MacString;
      if s.id !in rows {
        rows := rows[s.id := NO_ROW.(
          status := s.status, mac := MacString(s.mac), vendor := s.vendor, deviceType := s.deviceType,
          model := s.model, os := s.os, extra := s.extra,
          firstSeen := TimeFmt(s.firstSeen), lastSeen := TimeFmt(s.lastSeen), seenCount := s.seenCount)];
      } else {
        var o := rows[s.id];
        rows := rows[s.id := o.(
          status := s.status, mac := Coalesce(o.mac, MacString(s.mac)), vendor := Coalesce(o.vendor, s.vendor),
          deviceType := Coalesce(o.deviceType, s.deviceType), model := Coalesce(o.model, s.model), os := Coalesce(o.os, s.os),
          firstSeen := TextMin(o.firstSeen, TimeFmt(s.firstSeen)), lastSeen := TextMax(o.lastSeen, TimeFmt(s.lastSeen)),
          seenCount := Max(o.seenCount, s.seenCount))];
      }
    }

    /** `upsertIPRow`. */
    method UpsertIpRow(id: AssetId, ip: string, version: nat, e: IpEntry)
      requires id in rows
      modifies this
      ensures var o := old(rows)[id];
        rows == old(rows)[id := o.(ips := o.ips[ip := MergedIpRow(StoredIp(o.ips, ip), NewIp(version, e))])]
    {
      hide TimeFmt;
      var o, n := rows[id], NewIp(version, e);
      if ip in o.ips {
        var r := o.ips[ip];
        n := IpRow(n.version, TextMin(r.firstSeen, n.firstSeen), TextMax(r.lastSeen, n.lastSeen),
                   Max(r.leaseSeconds, n.leaseSeconds), n.active);
      }
      rows := rows[id := o.(ips := o.ips[ip := n])];
    }

    /** The addresses of one family in `replaceChildRows`, in any order. */
    method UpsertIps(id: AssetId, m: IpMap, version: nat)
      requires id in rows
      modifies this
      ensures rows == old(rows)[id := old(rows)[id].(ips := WithIps(old(rows)[id].ips, m, version))]
    {
      hide TimeFmt, NewIp, MergedIpRow;
      ghost var was := rows[id];
      var todo := m.Keys;
      while todo != {}
        invariant todo <= m.Keys && id in rows && rows == old(rows)[id := was.(ips := rows[id].ips)]
        invariant forall ip :: ip in rows[id].ips <==> ip in was.ips || ip in m.Keys - todo
        invariant forall ip <- rows[id].ips.Keys :: rows[id].ips[ip] == if ip in m && ip !in todo
          then MergedIpRow(StoredIp(was.ips, ip), NewIp(version, m[ip])) else was.ips[ip]
        decreases todo
      {
        var ip :| ip in todo;
        todo := todo - {ip};
        UpsertIpRow(id, ip, version, m[ip]);
      }
      assert rows[id].ips == WithIps(was.ips, m, version);
    }

    /** The hostnames in `replaceChildRows`. */
    method UpsertHostnames(s: Snapshot)
      requires s.id in rows
      modifies this
      ensures var o := old(rows)[s.id];
        rows == old(rows)[s.id := o.(hostFirst := WithHostFirst(o.hostFirst, s), hostLast := WithHostLast(o.hostLast, s))]
    {
      hide TimeFmt, WithHostFirst, WithHostLast;
      ghost var was := rows[s.id];
      NoHost(was, s);
      for i := 0 to |s.hostnames|
        invariant rows == old(rows)[s.id := WithHosts(was, s, i)]
      {
        var h, o := s.hostnames[i], rows[s.id];
        OneMoreHost(was, s, i);
        if h != "" {
          rows := rows[s.id := o.(
            hostFirst := if h in o.hostFirst then o.hostFirst else o.hostFirst[h := TimeFmt(s.firstSeen)],
            hostLast := o.hostLast[h := TimeFmt(s.lastSeen)])];
        }
      }
      assert s.(hostnames := s.hostnames[..|s.hostnames|]) == s;
    }

    /** The services in `replaceChildRows`. */
    method UpsertServices(s: Snapshot)
      requires s.id in rows
      modifies this
      ensures var o := old(rows)[s.id];
        rows == old(rows)[s.id := o.(services := o.services + ServiceRows(s, |s.services|))]
    {
      hide TimeFmt;
      ghost var was := rows[s.id];
      assert was.services + ServiceRows(s, 0) == was.services;
      for i := 0 to |s.services|
        invariant rows == old(rows)[s.id := was.(services := was.services + ServiceRows(s, i))]
      {
        var svc, o := s.services[i], rows[s.id];
        if !(svc.protocol == "" && svc.port == 0) {
          var lastSeen := if svc.lastSeen == ZERO_TIME then TimeFmt(s.lastSeen) else TimeFmt(svc.lastSeen);
          var row := ServiceRow(svc.name, svc.version, svc.product, svc.vendor, svc.banner, svc.active, lastSeen);
          rows := rows[s.id := o.(services := o.services[(svc.protocol, svc.port) := row])];
          assert rows[s.id].services == was.services + ServiceRows(s, i + 1);
        }
      }
    }

    /** `replaceChildRows`. */
    method ReplaceChildRows(s: Snapshot)
      requires s.id in rows
      modifies this
      ensures rows == old(rows)[s.id := WithChildren(old(rows)[s.id], s)]
    {
      hide TimeFmt, WithIps, WithHostFirst, WithHostLast, ServiceRows;
      UpsertIps(s.id, s.ipv4s, 4);
      UpsertIps(s.id, s.ipv6s, 6);
      UpsertHostnames(s);
      UpsertServices(s);
    }

    /** `SaveBatch`. `failsAt` is the snapshot at which a statement fails; past the end it is the
        commit that does. The deferred rollback then leaves all rows as they were. */
    method SaveBatch(batch: seq<Snapshot>, failsAt: Option<nat>) returns (saved: bool)
      modifies this
      ensures saved <==> batch == [] || failsAt.None?
      ensures rows == if saved then SaveAll(old(rows), batch) else old(rows)
    {
      hide MergedRow, WithChildren;
      if batch == [] {
        return true;
      }
      var before := rows;
      for i := 0 to |batch|
        invariant rows == SaveAll(old(rows), batch[..i])
      {
        if failsAt == Some(i) {
          rows := before;
          return false;
        }
        assert batch[..i + 1][..i] == batch[..i];
        UpsertAsset(batch[i]);
        ReplaceChildRows(batch[i]);
      }
      assert batch[..|batch|] == batch;
      if failsAt.Some? {
        rows := before;
        return false;
      }
      return true;
    }
  }

  // ---------- every row can be loaded ----------

  lemma ListOf<T>(items: set<T>) returns (list: seq<T>)
    ensures NoDuplicates(list) && SetOf(list) == items
  {
    list := [];
    if items != {} {
      var x :| x in items;
      var rest := ListOf(items - {x});
      AppendToSet(rest, x);
      list := rest + [x];
    }
  }

  function LoadedService(slot: ServiceSlot, r: ServiceRow): Service {
    Service(slot.0, slot.1, r.name, r.version, r.product, r.vendor, r.banner, r.active, ParseTime(r.lastSeen), false)
  }

  /** Whatever is stored, there is a snapshot that the load functions can make of it. */
  lemma EveryRowLoads(id: AssetId, row: Row) returns (snap: Snapshot)
    ensures IsLoadOf(id, row, snap)
  {
    hide ParseTime, ParseMac;
    var names := ListOf(row.hostFirst.Keys);
    var slots := ListOf(row.services.Keys);
    assert forall i | 0 <= i < |slots| :: slots[i] in SetOf(slots);
    var services := seq(|slots|, i requires 0 <= i < |slots| => LoadedService(slots[i], row.services[slots[i]]));
    snap := Snapshot(id, ParseMac(row.mac), LoadedIps(row, false), LoadedIps(row, true), names, services,
      row.vendor, row.deviceType, row.model, row.os, row.extra,
      ParseTime(row.firstSeen), ParseTime(row.lastSeen), row.seenCount, row.status);
    forall slot <- row.services.Keys ensures exists svc <- snap.services :: SlotOf(svc) == slot {
      assert slot in SetOf(slots);
      var i :| 0 <= i < |slots| && slots[i] == slot;
      assert services[i] in snap.services && SlotOf(services[i]) == slot;
    }
  }
}
