/** The Ethernet analyzer (internal/analyzer/ethernet.go): one observation a minute for each
    address seen, and every connection attempt to a known service. */
module Ethernet {
  import opened Clock
  import opened MacAddress
  import opened AssetModel

  /** `guessServiceName`; "" for a port that is not in the table. */
  function ServiceName(port: Port): string {
    match port
    case 80 => "http"
    case 443 => "https"
    case 8080 => "http-alt"
    case 8443 => "https-alt"
    case 25 => "smtp"
    case 110 => "pop3"
    case 143 => "imap"
    case 587 => "submission"
    case 993 => "imaps"
    case 995 => "pop3s"
    case 445 => "smb"
    case 139 => "netbios-ssn"
    case 137 => "netbios-ns"
    case 138 => "netbios-dgm"
    case 548 => "afp"
    case 2049 => "nfs"
    case 22 => "ssh"
    case 23 => "telnet"
    case 3389 => "rdp"
    case 5900 => "vnc"
    case 5901 => "vnc-1"
    case 53 => "dns"
    case 67 => "dhcp-server"
    case 68 => "dhcp-client"
    case 546 => "dhcpv6-client"
    case 547 => "dhcpv6-server"
    case 3306 => "mysql"
    case 5432 => "postgresql"
    case 27017 => "mongodb"
    case 6379 => "redis"
    case 1433 => "mssql"
    case 5222 => "xmpp"
    case 1935 => "rtmp"
    case 554 => "rtsp"
    case 5353 => "mdns"
    case 1900 => "ssdp"
    case 3702 => "ws-discovery"
    case 123 => "ntp"
    case 389 => "ldap"
    case 636 => "ldaps"
    case 514 => "syslog"
    case 162 => "snmp-trap"
    case 161 => "snmp"
    case 179 => "bgp"
    case 830 => "netconf"
    case 500 => "isakmp"
    case 4500 => "ipsec-nat-t"
    case 6443 => "kube-apiserver"
    case 2379 => "etcd"
    case 2380 => "etcd-peer"
    case 10250 => "kubelet"
    case 8472 => "flannel-vxlan"
    case 3128 => "squid"
    case 1080 => "socks"
    case _ => ""
  }

  const THROTTLE: Duration := 60 * SECOND

  /** The time of an observation is never zero: a packet without a time counts as seen now. */
  type Stamp = t: Time | t != ZERO_TIME witness 1

  /** The addresses of an IP header, as text ("" where it has no text in that family). */
  datatype Ip = Ip(src: string, srcLocal: bool, dst: string, dstLocal: bool)

  datatype Tcp = Tcp(syn: bool, ack: bool, dstPort: Port)

  datatype Frame = Frame(src: Mac, dst: Mac, at: Stamp, v4: Option<Ip>, v6: Option<Ip>, tcp: Option<Tcp>)

  predicate Usable(mac: Mac) { |mac| == 6 && exists b <- mac :: b != 0 }

  predicate Unicast(mac: Mac) { |mac| == 6 && mac[0] % 2 == 0 }

  // ---------- a throttle ----------

  type Last = map<string, Time>

  predicate Suppressed(last: Last, key: string, at: Time, after: Duration) {
    key in last && Sub(at, last[key]) < after
  }

  function Noted(last: Last, key: string, at: Time, after: Duration): Last {
    if Suppressed(last, key, at, after) then last else last[key := at]
  }

  datatype Hit = Hit(key: string, at: Stamp)

  function LastAfter(hits: seq<Hit>, after: Duration): Last {
    if hits == [] then map[]
    else Noted(LastAfter(hits[..|hits| - 1], after), hits[|hits| - 1].key, hits[|hits| - 1].at, after)
  }

  /** The times at which a key was let through. */
  function Passed(hits: seq<Hit>, key: string, after: Duration): seq<Time> {
    if hits == [] then []
    else
      var front, hit := hits[..|hits| - 1], hits[|hits| - 1];
      Passed(front, key, after)
      + if hit.key == key && !Suppressed(LastAfter(front, after), key, hit.at, after) then [hit.at] else []
  }

  /** The throttle remembers when it last let a key through, and nothing else. */
  lemma {:induction false} RemembersLast(hits: seq<Hit>, key: string, after: Duration)
    ensures var times, last := Passed(hits, key, after), LastAfter(hits, after);
      && (key in last <==> times != [])
      && (times != [] ==> last[key] == times[|times| - 1])
  {
    hide Suppressed;
    if hits != [] {
      RemembersLast(hits[..|hits| - 1], key, after);
    }
  }

  lemma OneMoreTime(n: nat, after: int)
    ensures (n + 1) * after == n * after + after
    ensures 0 * after == 0
  {
  }

  /** However the times of the hits are ordered, n passes of one key span (n - 1) times the
      throttle. */
  lemma {:induction false} PassesAreSpaced(hits: seq<Hit>, key: string, after: Duration, i: nat, j: nat)
    requires after > 0 && i <= j < |Passed(hits, key, after)|
    ensures var times := Passed(hits, key, after); times[j] - times[i] >= (j - i) * after
  {
    var front := hits[..|hits| - 1];
    var before, times := Passed(front, key, after), Passed(hits, key, after);
    RemembersLast(front, key, after);
    if j < |before| {
      PassesAreSpaced(front, key, after, i, j);
    } else if i < j {
      PassesAreSpaced(front, key, after, i, j - 1);
      assert times[j] - times[j - 1] >= after;
      OneMoreTime(j - 1 - i, after);
    }
  }

  /** A hit is held back iff the key was let through less than `after` before it. */
  lemma HeldBackIff(hits: seq<Hit>, hit: Hit, after: Duration)
    requires 0 < after < MAX_DURATION
    ensures var times := Passed(hits, hit.key, after);
      Passed(hits + [hit], hit.key, after)
        == if times != [] && hit.at - times[|times| - 1] < after then times else times + [hit.at]
  {
    RemembersLast(hits, hit.key, after);
    assert (hits + [hit])[..|hits|] == hits;
  }

  // ---------- the analyzer ----------

  datatype Throttles = Throttles(src: Last, dst: Last)

  /** One address, if there is a text for it. */
  function Single(ip: string, at: Time): IpMap { if ip == "" then map[] else map[ip := IpEntry(at, at, 0, true)] }

  function Sighting(mac: Mac, at: Time, v4: IpMap, v6: IpMap, services: seq<Service>): Observation {
    Observation("ethernet", at, mac, v4, v6, [], services, "", "", "", "", map[])
  }

  function SourceIps(f: Frame): (IpMap, IpMap) {
    (if f.v4.Some? then Single(f.v4.value.src, f.at) else map[],
     if f.v6.Some? && !f.v6.value.srcLocal then Single(f.v6.value.src, f.at) else map[])
  }

  function DestIps(f: Frame): (IpMap, IpMap) {
    (if f.v4.Some? then Single(f.v4.value.dst, f.at) else map[],
     if f.v6.Some? && !f.v6.value.dstLocal then Single(f.v6.value.dst, f.at) else map[])
  }

  /** `detectSYN`: a connection attempt to a port with a known service. */
  function Attempt(f: Frame): seq<Service> {
    if f.tcp.None? || !f.tcp.value.syn || f.tcp.value.ack || ServiceName(f.tcp.value.dstPort) == "" then []
    else [Service("tcp", f.tcp.value.dstPort, ServiceName(f.tcp.value.dstPort), "", "", "", "", false, f.at, true)]
  }

  function FromSource(f: Frame, suppressed: bool): seq<Observation> {
    var (v4, v6) := SourceIps(f);
    if !Usable(f.src) then []
    else if !suppressed then [Sighting(f.src, f.at, v4, v6, Attempt(f))]
    else if Attempt(f) != [] then [Sighting(f.src, f.at, map[], map[], Attempt(f))]
    else []
  }

  function FromDest(f: Frame, suppressed: bool): seq<Observation> {
    var (v4, v6) := DestIps(f);
    if Unicast(f.dst) && Usable(f.dst) && !suppressed then [Sighting(f.dst, f.at, v4, v6, [])] else []
  }

  function After(t: Throttles, f: Frame, after: Duration): Throttles {
    Throttles(if Usable(f.src) then Noted(t.src, MacString(f.src), f.at, after) else t.src,
              if Unicast(f.dst) && Usable(f.dst) then Noted(t.dst, MacString(f.dst), f.at, after) else t.dst)
  }

  function Emitted(t: Throttles, f: Frame, after: Duration): seq<Observation> {
    FromSource(f, Suppressed(t.src, MacString(f.src), f.at, after))
    + FromDest(f, Suppressed(t.dst, MacString(f.dst), f.at, after))
  }

  class EthernetAnalyzer {
    var lastEmit: Last
    var lastDstEmit: Last
    const throttleAfter: Duration

    function View(): Throttles
      reads this
    {
      Throttles(lastEmit, lastDstEmit)
    }

    constructor ()
      ensures View() == Throttles(map[], map[]) && throttleAfter == 60_000_000_000
    {
      lastEmit, lastDstEmit, throttleAfter := map[], map[], THROTTLE;
    }

    /** The source half of `AnalyzeCtx`. */
    method AnalyzeSource(f: Frame) returns (observations: seq<Observation>)
      modifies this`lastEmit
      ensures lastEmit == (if Usable(f.src) then Noted(old(lastEmit), MacString(f.src), f.at, throttleAfter) else old(lastEmit))
      ensures observations == FromSource(f, Suppressed(old(lastEmit), MacString(f.src), f.at, throttleAfter))
    {
      hide ServiceName, MacString;
      observations := [];
      if !Usable(f.src) {
        return;
      }
      var macKey, throttled := MacString(f.src), false;
      if macKey in lastEmit && Sub(f.at, lastEmit[macKey]) < throttleAfter {
        throttled := true;
      }
      if !throttled {
        lastEmit := lastEmit[macKey := f.at];
      }
      var ips4, ips6: IpMap := map[], map[];
      if !throttled {
        if f.v4.Some? && f.v4.value.src != "" {
          ips4 := map[f.v4.value.src := IpEntry(f.at, f.at, 0, true)];
        }
        if f.v6.Some? && !f.v6.value.srcLocal && f.v6.value.src != "" {
          ips6 := map[f.v6.value.src := IpEntry(f.at, f.at, 0, true)];
        }
      }
      var out := Attempt(f);
      var obs := Sighting(f.src, f.at, ips4, ips6, []);
      if out != [] {
        if !throttled && obs.Valid() {
          observations := [obs.(services := out)];
        } else {
          observations := [Sighting(f.src, f.at, map[], map[], out)];
        }
      } else if !throttled && obs.Valid() {
        observations := [obs];
      }
    }

    /** The destination half. */
    method AnalyzeDest(f: Frame) returns (observations: seq<Observation>)
      modifies this`lastDstEmit
      ensures lastDstEmit == (if Unicast(f.dst) && Usable(f.dst)
                              then Noted(old(lastDstEmit), MacString(f.dst), f.at, throttleAfter) else old(lastDstEmit))
      ensures observations == FromDest(f, Suppressed(old(lastDstEmit), MacString(f.dst), f.at, throttleAfter))
    {
      hide MacString;
      observations := [];
      if !(Unicast(f.dst) && Usable(f.dst)) {
        return;
      }
      var dstKey := MacString(f.dst);
      if dstKey in lastDstEmit && Sub(f.at, lastDstEmit[dstKey]) < throttleAfter {
        return;
      }
      lastDstEmit := lastDstEmit[dstKey := f.at];
      var ips4, ips6: IpMap := map[], map[];
      if f.v4.Some? && f.v4.value.dst != "" {
        ips4 := map[f.v4.value.dst := IpEntry(f.at, f.at, 0, true)];
      }
      if f.v6.Some? && !f.v6.value.dstLocal && f.v6.value.dst != "" {
        ips6 := map[f.v6.value.dst := IpEntry(f.at, f.at, 0, true)];
      }
      var obs := Sighting(f.dst, f.at, ips4, ips6, []);
      if obs.Valid() {
        observations := [obs];
      }
    }

    /** `AnalyzeCtx`; None is a packet without an Ethernet header. */
    method AnalyzeCtx(frame: Option<Frame>) returns (observations: seq<Observation>)
      modifies this
      ensures frame.None? ==> View() == old(View()) && observations == []
      ensures frame.Some? ==> View() == After(old(View()), frame.value, throttleAfter)
      ensures frame.Some? ==> observations == Emitted(old(View()), frame.value, throttleAfter)
    {
      if frame.None? {
        return [];
      }
      var first := AnalyzeSource(frame.value);
      var second := AnalyzeDest(frame.value);
      observations := first + second;
    }
  }

  // ---------- runs of one worker ----------

  function AfterAll(frames: seq<Frame>): Throttles {
    if frames == [] then Throttles(map[], map[])
    else After(AfterAll(frames[..|frames| - 1]), frames[|frames| - 1], THROTTLE)
  }

  function SourceHits(frames: seq<Frame>): seq<Hit> {
    if frames == [] then []
    else
      var f := frames[|frames| - 1];
      SourceHits(frames[..|frames| - 1]) + if Usable(f.src) then [Hit(MacString(f.src), f.at)] else []
  }

  function DestHits(frames: seq<Frame>): seq<Hit> {
    if frames == [] then []
    else
      var f := frames[|frames| - 1];
      DestHits(frames[..|frames| - 1]) + if Unicast(f.dst) && Usable(f.dst) then [Hit(MacString(f.dst), f.at)] else []
  }

  lemma OneMoreHit(hits: seq<Hit>, hit: Hit)
    ensures LastAfter(hits + [hit], THROTTLE) == Noted(LastAfter(hits, THROTTLE), hit.key, hit.at, THROTTLE)
  {
    assert (hits + [hit])[..|hits|] == hits;
  }

  lemma {:induction false} ThrottlesAreHits(frames: seq<Frame>)
    ensures AfterAll(frames) == Throttles(LastAfter(SourceHits(frames), THROTTLE), LastAfter(DestHits(frames), THROTTLE))
  {
    hide Noted, MacString, Usable, Unicast;
    if frames != [] {
      var front, f := frames[..|frames| - 1], frames[|frames| - 1];
      ThrottlesAreHits(front);
      OneMoreHit(SourceHits(front), Hit(MacString(f.src), f.at));
      OneMoreHit(DestHits(front), Hit(MacString(f.dst), f.at));
      assert SourceHits(front) + [] == SourceHits(front) && DestHits(front) + [] == DestHits(front);
    }
  }

  /** The observations that a run emits for an address as a source, apart from those that a
      connection attempt alone brought about. */
  function SightingTimes(frames: seq<Frame>, mac: Mac): seq<Time> {
    if frames == [] then []
    else
      var front, f := frames[..|frames| - 1], frames[|frames| - 1];
      SightingTimes(front, mac)
      + if f.src == mac && Usable(mac) && !Suppressed(AfterAll(front).src, MacString(mac), f.at, THROTTLE) then [f.at] else []
  }

  lemma {:induction false} SightingsAreHits(frames: seq<Frame>, mac: Mac)
    requires Usable(mac)
    ensures SightingTimes(frames, mac) == Passed(SourceHits(frames), MacString(mac), THROTTLE)
  {
    hide Suppressed, MacString, Usable;
    if frames != [] {
      var front, f := frames[..|frames| - 1], frames[|frames| - 1];
      SightingsAreHits(front, mac);
      ThrottlesAreHits(front);
      if Usable(f.src) {
        var hits, hit := SourceHits(front), Hit(MacString(f.src), f.at);
        assert (hits + [hit])[..|hits|] == hits;
        if MacString(f.src) == MacString(mac) {
          MacStringInjective(f.src, mac);
        }
      } else {
        assert SourceHits(frames) == SourceHits(front);
        assert SightingTimes(frames, mac) == SightingTimes(front, mac);
      }
    }
  }

  /** One worker, frames in any order of time: n sightings of a source span at least (n - 1)
      minutes. */
  lemma SightingsAreSpaced(frames: seq<Frame>, mac: Mac, i: nat, j: nat)
    requires i <= j < |SightingTimes(frames, mac)| && Usable(mac)
    ensures SightingTimes(frames, mac)[j] - SightingTimes(frames, mac)[i] >= (j - i) * 60_000_000_000
  {
    SightingsAreHits(frames, mac);
    PassesAreSpaced(SourceHits(frames), MacString(mac), THROTTLE, i, j);
  }

  lemma OneMoreSource(frames: seq<Frame>, f: Frame)
    requires Usable(f.src)
    ensures SourceHits(frames + [f]) == SourceHits(frames) + [Hit(MacString(f.src), f.at)]
  {
    hide MacString, Usable;
    assert (frames + [f])[..|frames|] == frames;
  }

  /** A frame brings a sighting of its source, with the addresses it carries, iff the last
      one was at least a minute before; otherwise at most its connection attempt. */
  lemma SightedUnlessRecent(frames: seq<Frame>, f: Frame)
    requires Usable(f.src)
    ensures var times, out := SightingTimes(frames, f.src), FromSource(f, Suppressed(AfterAll(frames).src, MacString(f.src), f.at, THROTTLE));
      var recent := times != [] && f.at - times[|times| - 1] < 60_000_000_000;
      && SightingTimes(frames + [f], f.src) == (if recent then times else times + [f.at])
      && (!recent ==> out == [Sighting(f.src, f.at, SourceIps(f).0, SourceIps(f).1, Attempt(f))])
      && (recent ==> out == if Attempt(f) == [] then [] else [Sighting(f.src, f.at, map[], map[], Attempt(f))])
  {
    hide ServiceName, MacString, Usable, Sighting, Attempt, SourceIps, Passed, LastAfter, SourceHits, DestHits;
    var hit := Hit(MacString(f.src), f.at);
    SightingsAreHits(frames, f.src);
    SightingsAreHits(frames + [f], f.src);
    ThrottlesAreHits(frames);
    RemembersLast(SourceHits(frames), MacString(f.src), THROTTLE);
    HeldBackIff(SourceHits(frames), hit, THROTTLE);
    OneMoreSource(frames, f);
  }

  /** Every attempt to reach a known service from a usable address is in exactly one
      observation, whatever the throttles say; and no other observation has a service. */
  lemma AttemptsAlwaysSeen(t: Throttles, f: Frame, after: Duration)
    ensures forall o <- Emitted(t, f, after) :: o.Valid() && o.at == f.at
    ensures Usable(f.src) && Attempt(f) != [] ==>
      var out := Emitted(t, f, after);
      && out != [] && out[0].mac == f.src && out[0].services == Attempt(f)
      && forall i | 0 < i < |out| :: out[i].services == []
    ensures !Usable(f.src) || Attempt(f) == [] ==> forall o <- Emitted(t, f, after) :: o.services == []
  {
    hide ServiceName, MacString, Suppressed;
  }

  // ---------- what is reported ----------

  function Side(f: Frame, dest: bool): Mac { if dest then f.dst else f.src }

  /** Six bytes, not all zero, and as a destination not a group address. */
  predicate Reportable(mac: Mac, dest: bool) { |mac| == 6 && mac != [0, 0, 0, 0, 0, 0] && (dest ==> mac[0] % 2 == 0) }

  predicate Due(times: seq<Time>, at: Time) { times == [] || at - times[|times| - 1] >= 60_000_000_000 }

  /** When an address is reported with what its frames carry: the first time, and then whenever a
      minute has passed since the last. */
  function Reports(frames: seq<Frame>, mac: Mac, dest: bool): seq<Time> {
    if frames == [] then []
    else
      var f := frames[|frames| - 1];
      var times := Reports(frames[..|frames| - 1], mac, dest);
      times + if Side(f, dest) == mac && Due(times, f.at) then [f.at] else []
  }

  function Hits(frames: seq<Frame>, dest: bool): seq<Hit> { if dest then DestHits(frames) else SourceHits(frames) }

  lemma HitsOfFront(frames: seq<Frame>, dest: bool)
    requires frames != []
    ensures var side := Side(frames[|frames| - 1], dest);
      Hits(frames, dest) == Hits(frames[..|frames| - 1], dest)
        + if Reportable(side, dest) then [Hit(MacString(side), frames[|frames| - 1].at)] else []
  {
    hide MacString, Usable, Unicast;
    UsableIff(Side(frames[|frames| - 1], dest), dest);
  }

  lemma UsableIff(mac: Mac, dest: bool)
    ensures Reportable(mac, dest) <==> Usable(mac) && (dest ==> Unicast(mac))
  {
    if |mac| == 6 && mac != [0, 0, 0, 0, 0, 0] {
      var i :| 0 <= i < 6 && mac[i] != 0;
      assert mac[i] in mac;
    }
  }

  lemma PassedOther(hits: seq<Hit>, hit: Hit, key: string, after: Duration)
    requires hit.key != key
    ensures Passed(hits + [hit], key, after) == Passed(hits, key, after)
  {
    assert (hits + [hit])[..|hits|] == hits;
  }

  lemma {:induction false} ReportsArePasses(frames: seq<Frame>, mac: Mac, dest: bool)
    requires Reportable(mac, dest)
    ensures Reports(frames, mac, dest) == Passed(Hits(frames, dest), MacString(mac), THROTTLE)
  {
    hide Hits, MacString, Reportable, Passed;
    if frames == [] {
      NoHits(mac, dest);
    } else {
      var front, f := frames[..|frames| - 1], frames[|frames| - 1];
      ReportsArePasses(front, mac, dest);
      HitsOfFront(frames, dest);
      var side, hits := Side(f, dest), Hits(front, dest);
      if Reportable(side, dest) {
        var hit := Hit(MacString(side), f.at);
        HeldBackIff(hits, hit, THROTTLE);
        if side != mac {
          SameText(side, mac, dest);
          PassedOther(hits, hit, MacString(mac), THROTTLE);
        }
      } else {
        assert hits + [] == hits;
      }
    }
  }

  /** The sightings of a source are its reports. */
  lemma SightingsAreReports(frames: seq<Frame>, mac: Mac)
    requires Reportable(mac, false)
    ensures SightingTimes(frames, mac) == Reports(frames, mac, false)
  {
    hide MacString, Reportable, Usable, Passed, Reports, SightingTimes;
    UsableIff(mac, false);
    SightingsAreHits(frames, mac);
    ReportsArePasses(frames, mac, false);
  }

  lemma NoHits(mac: Mac, dest: bool)
    ensures Passed(Hits([], dest), MacString(mac), THROTTLE) == []
  {
    hide MacString;
  }

  lemma SameText(a: Mac, b: Mac, dest: bool)
    requires Reportable(a, dest) && Reportable(b, dest)
    ensures MacString(a) == MacString(b) ==> a == b
  {
    hide MacString;
    if MacString(a) == MacString(b) {
      MacStringInjective(a, b);
    }
  }

  /** The throttle of a side holds an address back iff its last report was less than a minute
      ago. */
  lemma HeldBackUntilDue(frames: seq<Frame>, f: Frame, dest: bool)
    requires Reportable(Side(f, dest), dest)
    ensures var t, mac := AfterAll(frames), Side(f, dest);
      Suppressed(if dest then t.dst else t.src, MacString(mac), f.at, THROTTLE) <==> !Due(Reports(frames, mac, dest), f.at)
  {
    hide MacString, Reports, Passed, Reportable, AfterAll, LastAfter, DestHits, SourceHits;
    var mac := Side(f, dest);
    ThrottlesAreHits(frames);
    ReportsArePasses(frames, mac, dest);
    RemembersLast(Hits(frames, dest), MacString(mac), THROTTLE);
  }

  /** A TCP segment with SYN and without ACK to a port with a name. */
  predicate Calls(f: Frame) {
    f.tcp.Some? && f.tcp.value.syn && !f.tcp.value.ack && ServiceName(f.tcp.value.dstPort) != ""
  }

  /** An address map holds the text that a header gives for a side, as seen now: active, without a
      lease, and never a link-local IPv6 address. */
  ghost predicate Carries(m: IpMap, header: Option<Ip>, six: bool, dest: bool, at: Time) {
    && (forall ip :: ip in m <==>
          && ip != "" && header.Some? && ip == (if dest then header.value.dst else header.value.src)
          && !(six && if dest then header.value.dstLocal else header.value.srcLocal))
    && (forall ip <- m.Keys :: m[ip].firstSeen == at && m[ip].lastSeen == at && m[ip].lease == 0 && m[ip].active)
  }

  /** An observation of one side of a frame, with its addresses or for its call alone. */
  ghost predicate Tells(o: Observation, f: Frame, dest: bool, whole: bool) {
    && o.source == "ethernet" && o.at == f.at && o.mac == Side(f, dest)
    && (if whole then Carries(o.ipv4s, f.v4, false, dest, f.at) && Carries(o.ipv6s, f.v6, true, dest, f.at)
        else o.ipv4s.Keys == o.ipv6s.Keys == {})
    && o.hostnames == [] && o.vendor == o.deviceType == o.model == o.os == "" && o.extra.Keys == {}
    && (o.services != [] <==> !dest && Calls(f))
    && (o.services != [] ==>
          && |o.services| == 1
          && var s := o.services[0];
             && s.protocol == "tcp" && s.port == f.tcp.value.dstPort && s.name == ServiceName(s.port) && s.isClient
             && s.lastSeen == f.at && !s.active
             && s.version == s.product == s.vendor == s.banner == "")
  }

  /** In a run of one worker each side of a frame that can be reported and is due is told whole, a
      call by a source that is not due is told without addresses, and there is nothing else. */
  lemma EmittedExactly(frames: seq<Frame>, f: Frame)
    ensures var out := Emitted(AfterAll(frames), f, THROTTLE);
      var dueSource, dueDest := Due(Reports(frames, f.src, false), f.at), Due(Reports(frames, f.dst, true), f.at);
      var source, dest := Reportable(f.src, false) && (dueSource || Calls(f)), Reportable(f.dst, true) && dueDest;
      && |out| == (if source then 1 else 0) + (if dest then 1 else 0)
      && (source ==> Tells(out[0], f, false, dueSource))
      && (dest ==> Tells(out[|out| - 1], f, true, true))
  {
    hide Reports, AfterAll, MacString, Usable, Unicast, Reportable, Suppressed, Tells, Due, Calls, Attempt, SourceIps, DestIps, Sighting;
    var t := AfterAll(frames);
    UsableIff(f.src, false);
    UsableIff(f.dst, true);
    if Reportable(f.src, false) {
      HeldBackUntilDue(frames, f, false);
    }
    if Reportable(f.dst, true) {
      HeldBackUntilDue(frames, f, true);
    }
    TellsSource(f);
    TellsDest(f);
  }

  lemma TellsSource(f: Frame)
    ensures var (v4, v6) := SourceIps(f);
      && (Attempt(f) != [] <==> Calls(f))
      && Tells(Sighting(f.src, f.at, v4, v6, Attempt(f)), f, false, true)
      && Tells(Sighting(f.src, f.at, map[], map[], Attempt(f)), f, false, false)
  {
    hide ServiceName;
  }

  lemma TellsDest(f: Frame)
    ensures var (v4, v6) := DestIps(f); Tells(Sighting(f.dst, f.at, v4, v6, []), f, true, true)
  {
    hide ServiceName;
  }
}
