/** What comes back when a snapshot is saved into an empty row and loaded again
    (internal/storage/sqlite.go): everything but the parts of a second of a lease, an address
    in both families, empty hostnames, and what services share a slot or have a role. */
module RoundTrip {
  import opened Clock
  import opened MacAddress
  import opened AssetModel
  import opened TimeText
  import opened TextOrder
  import opened Storage

  function FirstRow(s: Snapshot): Row { SaveOne(map[], s)[s.id] }

  /** A lease as it is stored: the whole seconds, and less than one towards zero. */
  function Whole(d: Duration): (w: Duration)
    ensures w % 1_000_000_000 == 0 && if d >= 0 then 0 <= d - w < 1_000_000_000 else -1_000_000_000 < d - w <= 0
    ensures w == d <==> d % SECOND == 0
  {
    WholeSeconds(d) * SECOND
  }

  function WholeLease(e: IpEntry): IpEntry { e.(lease := Whole(e.lease)) }

  /** The entry that a fresh address row loads as. */
  lemma IpComesBack(version: nat, e: IpEntry)
    ensures var r := NewIp(version, e);
      IpEntry(ParseTime(r.firstSeen), ParseTime(r.lastSeen), Clamp(r.leaseSeconds * SECOND), r.active) == WholeLease(e)
  {
    hide TimeFmt, ParseTime;
    ParseUndoesFmt(e.firstSeen);
    ParseUndoesFmt(e.lastSeen);
  }

  lemma FirstIps(s: Snapshot, ip: string)
    ensures var ips := FirstRow(s).ips;
      && (ip in ips <==> ip in s.ipv4s || ip in s.ipv6s)
      && (ip in s.ipv4s && ip !in s.ipv6s ==> ips[ip] == NewIp(4, s.ipv4s[ip]))
      && (ip in s.ipv6s && ip !in s.ipv4s ==> ips[ip] == NewIp(6, s.ipv6s[ip]))
      && (ip in s.ipv6s ==> ips[ip].version == 6)
  {
    hide TimeFmt, TextMin, TextMax, WithHostFirst, WithHostLast, ServiceRows, MacString;
  }

  /** The addresses of the first family come back, except those in both. */
  lemma AddressesComeBack(s: Snapshot, t: Snapshot)
    requires IsLoadOf(s.id, FirstRow(s), t)
    ensures forall ip :: ip in t.ipv4s <==> ip in s.ipv4s && ip !in s.ipv6s
    ensures forall ip <- t.ipv4s.Keys :: t.ipv4s[ip] == WholeLease(s.ipv4s[ip])
    ensures forall ip :: ip in t.ipv6s <==> ip in s.ipv6s
    ensures forall ip <- s.ipv6s.Keys :: ip !in s.ipv4s ==> t.ipv6s[ip] == WholeLease(s.ipv6s[ip])
  {
    hide FirstRow, WholeLease, IsLoadOfService, NewIp;
    forall ip ensures ip in t.ipv4s <==> ip in s.ipv4s && ip !in s.ipv6s {
      FirstIps(s, ip);
      NewIpVersion(s, ip);
    }
    forall ip ensures ip in t.ipv6s <==> ip in s.ipv6s {
      FirstIps(s, ip);
      NewIpVersion(s, ip);
    }
    forall ip <- t.ipv4s.Keys ensures t.ipv4s[ip] == WholeLease(s.ipv4s[ip]) {
      FirstIps(s, ip);
      IpComesBack(4, s.ipv4s[ip]);
    }
    forall ip <- s.ipv6s.Keys ensures ip !in s.ipv4s ==> t.ipv6s[ip] == WholeLease(s.ipv6s[ip]) {
      FirstIps(s, ip);
      IpComesBack(6, s.ipv6s[ip]);
    }
  }

  lemma NewIpVersion(s: Snapshot, ip: string)
    ensures ip in s.ipv4s ==> NewIp(4, s.ipv4s[ip]).version == 4
  {
  }

  /** Both address maps come back as they were iff no address is in both and all leases are
      whole seconds. */
  lemma AddressesComeBackIff(s: Snapshot, t: Snapshot)
    requires IsLoadOf(s.id, FirstRow(s), t) && s.ipv4s.Keys !! s.ipv6s.Keys
    ensures t.ipv4s == s.ipv4s <==> forall ip <- s.ipv4s.Keys :: s.ipv4s[ip].lease % SECOND == 0
    ensures t.ipv6s == s.ipv6s <==> forall ip <- s.ipv6s.Keys :: s.ipv6s[ip].lease % SECOND == 0
  {
    hide FirstRow, IsLoadOf, Whole;
    AddressesComeBack(s, t);
    SameIffWhole(s.ipv4s, t.ipv4s);
    SameIffWhole(s.ipv6s, t.ipv6s);
  }

  lemma SameIffWhole(m: IpMap, n: IpMap)
    requires forall ip :: ip in n <==> ip in m
    requires forall ip <- m.Keys :: n[ip] == WholeLease(m[ip])
    ensures n == m <==> forall ip <- m.Keys :: m[ip].lease % SECOND == 0
  {
    hide Whole;
    forall ip <- m.Keys ensures n[ip] == m[ip] <==> m[ip].lease % SECOND == 0 {
      assert Whole(m[ip].lease) == m[ip].lease <==> m[ip].lease % SECOND == 0;
    }
  }

  /** The columns of a new row; hostnames are first and last seen with their asset. */
  lemma FirstColumns(s: Snapshot)
    ensures var r := FirstRow(s);
      && r.status == s.status && r.mac == MacString(s.mac) && r.vendor == s.vendor && r.deviceType == s.deviceType
      && r.model == s.model && r.os == s.os && r.seenCount == s.seenCount
      && r.firstSeen == TimeFmt(s.firstSeen) && r.lastSeen == TimeFmt(s.lastSeen)
      && r.extra == s.extra
      && r.hostFirst.Keys == r.hostLast.Keys == HostKeys(s)
      && (forall h <- HostKeys(s) :: r.hostFirst[h] == TimeFmt(s.firstSeen) && r.hostLast[h] == TimeFmt(s.lastSeen))
      && r.services == ServiceRows(s, |s.services|)
  {
    hide TimeFmt, WithIps, ServiceRows, MacString;
    assert map[] + ServiceRows(s, |s.services|) == ServiceRows(s, |s.services|);
  }

  /** All columns of the asset itself come back, its address if that can be read, and its
      hostnames as a set. */
  lemma ColumnsComeBack(s: Snapshot, t: Snapshot)
    requires IsLoadOf(s.id, FirstRow(s), t)
    ensures t.mac == (if IsReadable(s.mac) then s.mac else [])
    ensures t.(mac := s.mac, ipv4s := s.ipv4s, ipv6s := s.ipv6s, hostnames := s.hostnames, services := s.services, extra := s.extra) == s
    ensures SetOf(t.hostnames) == SetOf(s.hostnames) - {""} && NoDuplicates(t.hostnames)
  {
    hide FirstRow, LoadedIps, ParseTime, TimeFmt, ParseMac, MacString, IsLoadOfService;
    FirstColumns(s);
    ParseUndoesFmt(s.firstSeen);
    ParseUndoesFmt(s.lastSeen);
    ParseMacString(s.mac);
  }

  /** Service i is usable and no later one is in its slot. */
  ghost predicate LastInSlot(s: Snapshot, i: nat)
    requires i < |s.services|
  {
    && WritesSlot(s, i, SlotOf(s.services[i]))
    && forall j | i < j < |s.services| :: !WritesSlot(s, j, SlotOf(s.services[i]))
  }

  /** What a service loads as: a server, last seen with its asset if it has no time of its own. */
  function Back(s: Snapshot, svc: Service): Service {
    svc.(lastSeen := if svc.lastSeen == ZERO_TIME then s.lastSeen else svc.lastSeen, isClient := false)
  }

  lemma SlotComesBack(s: Snapshot, i: nat, back: Service)
    requires i < |s.services| && LastInSlot(s, i) && SlotOf(back) == SlotOf(s.services[i])
    ensures SlotOf(back) in FirstRow(s).services
    ensures IsLoadOfService(FirstRow(s).services[SlotOf(back)], back) ==> back == Back(s, s.services[i])
  {
    hide FirstRow, ParseTime, TimeFmt;
    FirstColumns(s);
    ServiceRowIsLast(s, |s.services|, SlotOf(back));
    ParseUndoesFmt(s.services[i].lastSeen);
    ParseUndoesFmt(s.lastSeen);
  }

  /** The services that come back are exactly the last usable ones of their slots. */
  lemma ServicesComeBack(s: Snapshot, t: Snapshot, svc: Service)
    requires IsLoadOf(s.id, FirstRow(s), t)
    ensures svc in t.services <==> exists i | 0 <= i < |s.services| :: LastInSlot(s, i) && svc == Back(s, s.services[i])
  {
    hide FirstRow, LoadedIps, ParseTime, ParseMac, IsLoadOfService, NewService;
    if svc in t.services {
      FirstColumns(s);
      ServiceRowIsLast(s, |s.services|, SlotOf(svc));
      var i :| 0 <= i < |s.services| && LastInSlot(s, i) && SlotOf(s.services[i]) == SlotOf(svc);
      SlotComesBack(s, i, svc);
    }
    if i :| 0 <= i < |s.services| && LastInSlot(s, i) && svc == Back(s, s.services[i]) {
      SlotComesBack(s, i, s.services[i]);
      var back :| back in t.services && SlotOf(back) == SlotOf(s.services[i]);
      SlotComesBack(s, i, back);
    }
  }
}
