/** What a whole list of observations of one asset folds into: a summary that depends on
    the multiset of observations only, not on their order. */
module Folding {
  import opened Clock
  import opened MacAddress
  import opened AssetModel
  import opened MergeUtil
  import opened Merging

  ghost function Fold(g: Guesses, s: Snapshot, list: seq<Observation>): Snapshot {
    if list == [] then s else Merged(g, Fold(g, s, list[..|list| - 1]), list[|list| - 1])
  }

  function Positive(d: Duration): Duration { if d > 0 then d else 0 }

  type Family = Observation -> IpMap

  /** `m` holds exactly the addresses the observations carry, each active, with the latest
      time and the longest lease that any of them gives for it. */
  ghost predicate IpDigest(m: IpMap, list: seq<Observation>, fam: Family) {
    && (forall ip :: ip in m <==> ip != "" && exists o <- list :: ip in fam(o))
    && (forall ip <- m.Keys :: LatestIn(m[ip], list, fam, ip))
  }

  ghost predicate LatestIn(e: IpEntry, list: seq<Observation>, fam: Family, ip: string) {
    e.active && LatestTime(e.lastSeen, list, fam, ip) && LongestLease(e.lease, list, fam, ip)
  }

  ghost predicate LatestTime(t: Time, list: seq<Observation>, fam: Family, ip: string) {
    && (forall o <- list :: ip in fam(o) ==> fam(o)[ip].lastSeen <= t)
    && (exists o <- list :: ip in fam(o) && fam(o)[ip].lastSeen == t)
  }

  ghost predicate LongestLease(d: Duration, list: seq<Observation>, fam: Family, ip: string) {
    && (forall o <- list :: ip in fam(o) ==> Positive(fam(o)[ip].lease) <= Positive(d))
    && (exists o <- list :: ip in fam(o) && Positive(fam(o)[ip].lease) == Positive(d))
  }

  lemma LatestTimeStep(list: seq<Observation>, fam: Family, ip: string, o: Observation, t: Time)
    requires if forall x <- list :: ip !in fam(x) then ip in fam(o) else LatestTime(t, list, fam, ip)
    ensures LatestTime(
      if forall x <- list :: ip !in fam(x) then fam(o)[ip].lastSeen
      else if ip in fam(o) then MaxTime(t, fam(o)[ip].lastSeen) else t, list + [o], fam, ip)
  {
    var longer := list + [o];
    assert o in longer && forall x :: x in longer <==> x in list || x == o;
    if x :| x in list && ip in fam(x) {
      var y :| y in list && ip in fam(y) && fam(y)[ip].lastSeen == t;
      assert y in longer;
    }
  }

  lemma LongestLeaseStep(list: seq<Observation>, fam: Family, ip: string, o: Observation, d: Duration, e: Duration)
    requires if forall x <- list :: ip !in fam(x) then ip in fam(o) && e == fam(o)[ip].lease
      else LongestLease(d, list, fam, ip)
           && Positive(e) == if ip in fam(o) && Positive(fam(o)[ip].lease) > Positive(d) then Positive(fam(o)[ip].lease) else Positive(d)
    ensures LongestLease(e, list + [o], fam, ip)
  {
    hide Positive;
    var longer := list + [o];
    assert o in longer && forall x :: x in longer <==> x in list || x == o;
    if x :| x in list && ip in fam(x) {
      var y :| y in list && ip in fam(y) && Positive(fam(y)[ip].lease) == Positive(d);
      assert y in longer;
    }
  }

  lemma IpDigestStep(m: IpMap, list: seq<Observation>, fam: Family, o: Observation)
    requires IpDigest(m, list, fam)
    ensures IpDigest(MergeIps(m, fam(o), o.at), list + [o], fam)
  {
    var out, longer := MergeIps(m, fam(o), o.at), list + [o];
    assert forall x :: x in longer <==> x in list || x == o;
    forall ip ensures ip in out <==> ip != "" && exists x <- longer :: ip in fam(x) {
      assert o in longer;
    }
    forall ip <- out.Keys ensures LatestIn(out[ip], longer, fam, ip) {
      LatestInStep(m, list, fam, o, ip);
    }
  }

  lemma LatestInStep(m: IpMap, list: seq<Observation>, fam: Family, o: Observation, ip: string)
    requires IpDigest(m, list, fam)
    requires ip in MergeIps(m, fam(o), o.at)
    ensures LatestIn(MergeIps(m, fam(o), o.at)[ip], list + [o], fam, ip)
  {
    hide LatestTime, LongestLease;
    var e := MergeIps(m, fam(o), o.at)[ip];
    assert ip in m <==> ip != "" && exists x <- list :: ip in fam(x);
    LatestTimeStep(list, fam, ip, o, if ip in m then m[ip].lastSeen else ZERO_TIME);
    LongestLeaseStep(list, fam, ip, o, if ip in m then m[ip].lease else 0, e.lease);
  }

  /** Everything about the fold that does not depend on the order. */
  ghost predicate Digest(s: Snapshot, list: seq<Observation>) {
    && s.seenCount == |list|
    && (forall o <- list :: s.firstSeen <= o.at <= s.lastSeen)
    && (exists o <- list :: o.at == s.firstSeen)
    && (exists o <- list :: o.at == s.lastSeen)
    && IpDigest(s.ipv4s, list, (o: Observation) => o.ipv4s)
    && IpDigest(s.ipv6s, list, (o: Observation) => o.ipv6s)
    && (forall h :: h in s.hostnames <==> h != "" && exists o <- list :: h in o.hostnames)
  }

  /** Folding observations into a new asset: first and last time are the minimum and the
      maximum, the count is the length, and addresses and hostnames are the union. */
  lemma {:induction false} FoldIsDigest(g: Guesses, id: AssetId, mac: Mac, list: seq<Observation>)
    requires list != [] && forall o <- list :: o.Valid()
    ensures Digest(Fold(g, Blank(id, mac), list), list)
  {
    var front, o := list[..|list| - 1], list[|list| - 1];
    assert list == front + [o];
    var s := Fold(g, Blank(id, mac), front);
    assert s == Blank(id, mac) || front != [];
    if front != [] {
      FoldIsDigest(g, id, mac, front);
    }
    IpDigestStep(s.ipv4s, front, (o: Observation) => o.ipv4s, o);
    IpDigestStep(s.ipv6s, front, (o: Observation) => o.ipv6s, o);
    TimesStep(s, front, o);
    HostnamesStep(s, front, o);
  }

  lemma TimesStep(s: Snapshot, front: seq<Observation>, o: Observation)
    requires o.Valid() && forall x <- front :: x.Valid()
    requires front == [] ==> s.firstSeen == ZERO_TIME && s.lastSeen == ZERO_TIME
    requires forall x <- front :: s.firstSeen <= x.at <= s.lastSeen
    requires front != [] ==> (exists x <- front :: x.at == s.firstSeen) && (exists x <- front :: x.at == s.lastSeen)
    ensures var first, last, list := TouchedFirst(s.firstSeen, o.at), TouchedLast(s.lastSeen, o.at), front + [o];
      && (forall x <- list :: first <= x.at <= last)
      && (exists x <- list :: x.at == first) && (exists x <- list :: x.at == last)
  {
    var list := front + [o];
    assert o in list && forall x :: x in list <==> x in front || x == o;
  }

  lemma HostnamesStep(s: Snapshot, front: seq<Observation>, o: Observation)
    requires forall h :: h in s.hostnames <==> h != "" && exists x <- front :: h in x.hostnames
    ensures forall h :: h in MergedStrings(s.hostnames, o.hostnames)
                   <==> h != "" && exists x <- front + [o] :: h in x.hostnames
  {
    var list, out := front + [o], MergedStrings(s.hostnames, o.hostnames);
    assert o in list && forall x :: x in list <==> x in front || x == o;
    MergedStringsSet(s.hostnames, o.hostnames);
    forall h: string ensures h in out <==> h in s.hostnames || (h in o.hostnames && h != "") {
      assert h in out <==> h in SetOf(out);
    }
  }

  ghost predicate SameOutcome(a: Snapshot, b: Snapshot) {
    && a.firstSeen == b.firstSeen && a.lastSeen == b.lastSeen && a.seenCount == b.seenCount
    && SameAddresses(a.ipv4s, b.ipv4s) && SameAddresses(a.ipv6s, b.ipv6s)
    && SetOf(a.hostnames) == SetOf(b.hostnames)
  }

  /** The order of arrival does not matter: two lists with the same observations give the
      same times, count, addresses and hostnames, and for each address the same last time
      and the same (non-negative) lease. */
  lemma OrderIndependent(g: Guesses, id: AssetId, mac: Mac, one: seq<Observation>, other: seq<Observation>)
    requires one != [] && multiset(one) == multiset(other)
    requires forall o <- one :: o.Valid()
    ensures SameOutcome(Fold(g, Blank(id, mac), one), Fold(g, Blank(id, mac), other))
  {
    forall o ensures o in one <==> o in other {
      assert o in one <==> o in multiset(one);
      assert o in other <==> o in multiset(other);
    }
    assert |one| == |multiset(one)| == |multiset(other)| == |other|;
    FoldIsDigest(g, id, mac, one);
    FoldIsDigest(g, id, mac, other);
    var a, b := Fold(g, Blank(id, mac), one), Fold(g, Blank(id, mac), other);
    SameDigest(a.ipv4s, b.ipv4s, one, other, (o: Observation) => o.ipv4s);
    SameDigest(a.ipv6s, b.ipv6s, one, other, (o: Observation) => o.ipv6s);
  }

  ghost predicate SameAddresses(a: IpMap, b: IpMap) {
    && a.Keys == b.Keys
    && forall ip <- a.Keys :: a[ip].lastSeen == b[ip].lastSeen && a[ip].active == b[ip].active
                           && Positive(a[ip].lease) == Positive(b[ip].lease)
  }

  lemma SameDigest(a: IpMap, b: IpMap, one: seq<Observation>, other: seq<Observation>, fam: Family)
    requires IpDigest(a, one, fam) && IpDigest(b, other, fam)
    requires forall o :: o in one <==> o in other
    ensures SameAddresses(a, b)
  {
    forall ip ensures ip in a <==> ip in b {
    }
    forall ip <- a.Keys
      ensures a[ip].lastSeen == b[ip].lastSeen && Positive(a[ip].lease) == Positive(b[ip].lease)
    {
      assert LatestIn(a[ip], one, fam, ip) && LatestIn(b[ip], other, fam, ip);
    }
  }

  /** When entries carry the time of their observation, as the analyzers' do, no address is
      ever first seen after it was last seen. */
  ghost predicate Ordered(m: IpMap) { forall ip <- m.Keys :: m[ip].firstSeen <= m[ip].lastSeen }

  ghost predicate Stamped(o: Observation) {
    && (forall ip <- o.ipv4s.Keys :: o.ipv4s[ip].lastSeen == o.at)
    && (forall ip <- o.ipv6s.Keys :: o.ipv6s[ip].lastSeen == o.at)
  }

  lemma FoldedIps(g: Guesses, s: Snapshot, list: seq<Observation>)
    requires list != []
    ensures var front, o := Fold(g, s, list[..|list| - 1]), list[|list| - 1];
      && Fold(g, s, list).ipv4s == MergeIps(front.ipv4s, o.ipv4s, o.at)
      && Fold(g, s, list).ipv6s == MergeIps(front.ipv6s, o.ipv6s, o.at)
  {
    hide MergeIps;
  }

  lemma OrderedStep(m: IpMap, src: IpMap, at: Time)
    requires Ordered(m) && forall ip <- src.Keys :: src[ip].lastSeen == at
    ensures Ordered(MergeIps(m, src, at))
  {
  }

  lemma {:induction false} AddressTimesOrdered(g: Guesses, s: Snapshot, list: seq<Observation>)
    requires Ordered(s.ipv4s) && Ordered(s.ipv6s) && forall o <- list :: Stamped(o)
    ensures Ordered(Fold(g, s, list).ipv4s) && Ordered(Fold(g, s, list).ipv6s)
  {
    hide Ordered, Merged, MergeIps;
    if list != [] {
      var front, o := list[..|list| - 1], list[|list| - 1];
      AddressTimesOrdered(g, s, front);
      assert Stamped(o);
      FoldedIps(g, s, list);
      OrderedStep(Fold(g, s, front).ipv4s, o.ipv4s, o.at);
      OrderedStep(Fold(g, s, front).ipv6s, o.ipv6s, o.at);
    }
  }

  /** The first time of an address is not the earliest one but that of the observation that
      brought the address first, so a late arrival of an earlier observation is ignored. */
  ghost predicate FirstArrival(m: IpMap, list: seq<Observation>, fam: Family, ip: string)
    requires ip in m
  {
    exists i | 0 <= i < |list| ::
      ip in fam(list[i]) && m[ip].firstSeen == list[i].at && forall j | 0 <= j < i :: ip !in fam(list[j])
  }

  lemma FirstArrivalStep(m: IpMap, list: seq<Observation>, fam: Family, o: Observation, ip: string)
    requires IpDigest(m, list, fam) && (ip in m ==> FirstArrival(m, list, fam, ip))
    requires ip in MergeIps(m, fam(o), o.at)
    ensures FirstArrival(MergeIps(m, fam(o), o.at), list + [o], fam, ip)
  {
    hide LatestIn;
    var out, longer := MergeIps(m, fam(o), o.at), list + [o];
    if ip in m {
      var i :| 0 <= i < |list| && ip in fam(list[i]) && m[ip].firstSeen == list[i].at && forall j | 0 <= j < i :: ip !in fam(list[j]);
      assert longer[i] == list[i] && forall j | 0 <= j < i :: longer[j] == list[j];
    } else {
      assert forall j | 0 <= j < |list| :: longer[j] in list;
      assert longer[|list|] == o;
    }
  }

  lemma FirstArrivalOf(g: Guesses, s: Snapshot, list: seq<Observation>, ip: string)
    requires list != []
    requires var front := list[..|list| - 1]; var f := Fold(g, s, front);
      && IpDigest(f.ipv4s, front, (o: Observation) => o.ipv4s) && IpDigest(f.ipv6s, front, (o: Observation) => o.ipv6s)
      && (ip in f.ipv4s ==> FirstArrival(f.ipv4s, front, (o: Observation) => o.ipv4s, ip))
      && (ip in f.ipv6s ==> FirstArrival(f.ipv6s, front, (o: Observation) => o.ipv6s, ip))
    ensures var t := Fold(g, s, list);
      && (ip in t.ipv4s ==> FirstArrival(t.ipv4s, list, (o: Observation) => o.ipv4s, ip))
      && (ip in t.ipv6s ==> FirstArrival(t.ipv6s, list, (o: Observation) => o.ipv6s, ip))
  {
    hide IpDigest, FirstArrival, MergeIps, Merged;
    var front, o := list[..|list| - 1], list[|list| - 1];
    assert list == front + [o];
    var f, t := Fold(g, s, front), Fold(g, s, list);
    FoldedIps(g, s, list);
    if ip in t.ipv4s {
      FirstArrivalStep(f.ipv4s, front, (o: Observation) => o.ipv4s, o, ip);
    }
    if ip in t.ipv6s {
      FirstArrivalStep(f.ipv6s, front, (o: Observation) => o.ipv6s, o, ip);
    }
  }

  lemma {:induction false} AddressFirstSeen(g: Guesses, id: AssetId, mac: Mac, list: seq<Observation>, ip: string)
    requires list != [] && forall o <- list :: o.Valid()
    ensures var s := Fold(g, Blank(id, mac), list);
      && (ip in s.ipv4s ==> FirstArrival(s.ipv4s, list, (o: Observation) => o.ipv4s, ip))
      && (ip in s.ipv6s ==> FirstArrival(s.ipv6s, list, (o: Observation) => o.ipv6s, ip))
  {
    hide FirstArrival, Merged, LatestIn;
    var front := list[..|list| - 1];
    if front != [] {
      AddressFirstSeen(g, id, mac, front, ip);
      FoldIsDigest(g, id, mac, front);
    } else {
      assert Fold(g, Blank(id, mac), front) == Blank(id, mac);
    }
    FirstArrivalOf(g, Blank(id, mac), list, ip);
  }
}
