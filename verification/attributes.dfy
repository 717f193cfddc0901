/** What a list of observations makes of the attributes, the hostnames and the services of an
    asset, said of the observations alone and in their order. */
module Attributes {
  import opened Clock
  import opened MacAddress
  import opened AssetModel
  import opened MergeUtil
  import opened Merging
  import opened Folding
  import opened Store
  import opened Linearization
  import opened Lives

  // ---------- the first that says anything ----------

  /** The first of some values that is not empty; "" iff all of them are. */
  ghost predicate FirstOf(v: string, offers: seq<string>) {
    if v == "" then forall x <- offers :: x == ""
    else exists i | 0 <= i < |offers| :: offers[i] == v && forall j | 0 <= j < i :: offers[j] == ""
  }

  lemma FirstOfMore(v: string, offers: seq<string>, x: string)
    requires FirstOf(v, offers)
    ensures FirstOf(if v == "" then x else v, offers + [x])
  {
    var more := offers + [x];
    if v == "" {
      assert more[|offers|] == x;
      assert forall j | 0 <= j < |offers| :: more[j] == offers[j] && offers[j] in offers;
    } else {
      var i :| 0 <= i < |offers| && offers[i] == v && forall j | 0 <= j < i :: offers[j] == "";
      assert more[i] == v && forall j | 0 <= j < i :: more[j] == offers[j];
    }
  }

  /** There is one such value only. */
  lemma OneFirst(v: string, w: string, offers: seq<string>)
    requires FirstOf(v, offers) && FirstOf(w, offers)
    ensures v == w
  {
    assert forall i | 0 <= i < |offers| :: offers[i] in offers;
  }

  function Models(list: seq<Observation>): seq<string> {
    if list == [] then [] else Models(list[..|list| - 1]) + [list[|list| - 1].model]
  }

  /** The vendor names in the order in which they are offered: each observation is asked, and
      after it the OUI table. */
  function Vendors(g: Guesses, mac: Mac, list: seq<Observation>): seq<string> {
    if list == [] then []
    else
      Vendors(g, mac, list[..|list| - 1]) + [list[|list| - 1].vendor]
      + if mac == [] then [] else [g.vendorForMac(MacString(mac))]
  }

  /** The device types offered: each observation is asked, and after it the guess from the vendor
      and the hostnames known by then. */
  ghost function DeviceTypes(g: Guesses, s: Snapshot, list: seq<Observation>): seq<string> {
    if list == [] then []
    else
      var now := Fold(g, s, list);
      DeviceTypes(g, s, list[..|list| - 1]) + [list[|list| - 1].deviceType] + [g.deviceType(now.vendor, now.hostnames)]
  }

  ghost function Systems(g: Guesses, s: Snapshot, list: seq<Observation>): seq<string> {
    if list == [] then []
    else
      var now := Fold(g, s, list);
      Systems(g, s, list[..|list| - 1]) + [list[|list| - 1].os] + [g.os(now.vendor, now.hostnames)]
  }

  /** Model, vendor, device type and operating system are each the first value that is not
      empty among what was known, observed or guessed. */
  lemma {:induction false} AttributesAreFirst(g: Guesses, s: Snapshot, list: seq<Observation>)
    ensures var t := Fold(g, s, list);
      && t.id == s.id && t.mac == s.mac && t.status == s.status
      && FirstOf(t.model, [s.model] + Models(list))
      && FirstOf(t.vendor, [s.vendor] + Vendors(g, s.mac, list))
      && FirstOf(t.deviceType, [s.deviceType] + DeviceTypes(g, s, list))
      && FirstOf(t.os, [s.os] + Systems(g, s, list))
  {
    hide FirstOf, Merged;
    if list == [] {
      FirstOfOne(s.model);
      FirstOfOne(s.vendor);
      FirstOfOne(s.deviceType);
      FirstOfOne(s.os);
    } else {
      var front, o := list[..|list| - 1], list[|list| - 1];
      AttributesAreFirst(g, s, front);
      var was, now := Fold(g, s, front), Fold(g, s, list);
      MergedAttributes(g, was, o);
      OneOffer(was.model, now.model, [s.model], Models(front), o.model);
      if s.mac == [] {
        OneOffer(was.vendor, now.vendor, [s.vendor], Vendors(g, s.mac, front), o.vendor);
        assert Vendors(g, s.mac, list) == Vendors(g, s.mac, front) + [o.vendor];
      } else {
        TwoOffers(was.vendor, now.vendor, [s.vendor], Vendors(g, s.mac, front), o.vendor, g.vendorForMac(MacString(s.mac)));
      }
      TwoOffers(was.deviceType, now.deviceType, [s.deviceType], DeviceTypes(g, s, front), o.deviceType,
        g.deviceType(now.vendor, now.hostnames));
      TwoOffers(was.os, now.os, [s.os], Systems(g, s, front), o.os, g.os(now.vendor, now.hostnames));
    }
  }

  lemma FirstOfOne(v: string)
    ensures FirstOf(v, [v] + [])
  {
    var offers := [v] + [];
    assert offers[0] == v;
  }

  /** The first of three. */
  function Among(a: string, b: string, c: string): string { if a != "" then a else if b != "" then b else c }

  lemma OneOffer(was: string, now: string, known: seq<string>, offers: seq<string>, x: string)
    requires FirstOf(was, known + offers) && now == if was != "" then was else x
    ensures FirstOf(now, known + (offers + [x]))
  {
    FirstOfMore(was, known + offers, x);
    assert known + offers + [x] == known + (offers + [x]);
  }

  lemma TwoOffers(was: string, now: string, known: seq<string>, offers: seq<string>, x: string, y: string)
    requires FirstOf(was, known + offers) && now == Among(was, x, y)
    ensures FirstOf(now, known + (offers + [x] + [y]))
  {
    OneOffer(was, if was != "" then was else x, known, offers, x);
    OneOffer(if was != "" then was else x, now, known, offers + [x], y);
  }

  lemma MergedAttributes(g: Guesses, s: Snapshot, o: Observation)
    ensures var t := Merged(g, s, o);
      && t.id == s.id && t.mac == s.mac && t.status == s.status
      && t.model == (if s.model != "" then s.model else o.model)
      && t.vendor == Among(s.vendor, o.vendor, if s.mac == [] then "" else g.vendorForMac(MacString(s.mac)))
      && t.deviceType == Among(s.deviceType, o.deviceType, g.deviceType(t.vendor, t.hostnames))
      && t.os == Among(s.os, o.os, g.os(t.vendor, t.hostnames))
  {
    hide MergeIps, MergedStrings, MergedServices, MergedExtras, MacString;
  }

  // ---------- hostnames and services ----------

  function AllHostnames(list: seq<Observation>): seq<string> {
    if list == [] then [] else AllHostnames(list[..|list| - 1]) + list[|list| - 1].hostnames
  }

  function AllServices(list: seq<Observation>): seq<Service> {
    if list == [] then [] else AllServices(list[..|list| - 1]) + list[|list| - 1].services
  }

  lemma {:induction false} AppendedParts<T(!new), K>(known: seq<T>, one: seq<T>, other: seq<T>, key: T -> K, usable: T -> bool)
    ensures Appended(Appended(known, one, key, usable), other, key, usable) == Appended(known, one + other, key, usable)
    decreases |other|
  {
    if other == [] {
      assert one + other == one;
    } else {
      var n := |other| - 1;
      AppendedParts(known, one, other[..n], key, usable);
      var all := one + other;
      assert all[..|all| - 1] == one + other[..n] && all[|all| - 1] == other[n];
    }
  }

  /** The lists of a fold are those of one merge of all that was observed. */
  lemma {:induction false} ListsOfFold(g: Guesses, s: Snapshot, list: seq<Observation>)
    ensures var t := Fold(g, s, list);
      && t.hostnames == MergedStrings(s.hostnames, AllHostnames(list))
      && t.services == MergedServices(s.services, AllServices(list))
  {
    hide Appended, Merged;
    if list == [] {
      MergedNothing(s);
    } else {
      var front, o := list[..|list| - 1], list[|list| - 1];
      ListsOfFold(g, s, front);
      ListsOfMerge(g, Fold(g, s, front), o);
      AppendedParts(s.hostnames, AllHostnames(front), o.hostnames, (s: string) => s, (s: string) => s != "");
      AppendedParts(s.services, AllServices(front), o.services, ServiceKey, ServiceUsable);
    }
  }

  lemma MergedNothing(s: Snapshot)
    ensures MergedStrings(s.hostnames, []) == s.hostnames && MergedServices(s.services, []) == s.services
  {
  }

  lemma ListsOfMerge(g: Guesses, s: Snapshot, o: Observation)
    ensures var t := Merged(g, s, o);
      && t.hostnames == MergedStrings(s.hostnames, o.hostnames)
      && t.services == MergedServices(s.services, o.services)
  {
    hide MergeIps, MergedStrings, MergedServices, MergedExtras, MacString;
  }

  predicate SameSlot(a: Service, b: Service) { a.protocol == b.protocol && a.port == b.port && a.isClient == b.isClient }

  predicate Named(s: Service) { s.protocol != "" || s.port != 0 }

  ghost predicate SlotIn(x: Service, list: seq<Service>) { exists y <- list :: SameSlot(x, y) }

  /** y is the first service with its protocol, port and role, and it has a protocol or a port. */
  ghost predicate FirstInSlot(y: Service, all: seq<Service>) {
    Named(y) && exists k | 0 <= k < |all| :: all[k] == y && forall j | 0 <= j < k :: !SameSlot(all[j], y)
  }

  /** The services of a fold: those known stay in front; each slot is there iff it was known or
      some observation has a service in it that has a protocol or a port; what is new is the
      first such service of its slot, and no slot is new twice. */
  lemma ServicesAreUnion(g: Guesses, s: Snapshot, list: seq<Observation>)
    ensures var out, all := Fold(g, s, list).services, AllServices(list);
      && s.services <= out
      && (forall x :: SlotIn(x, out) <==> SlotIn(x, s.services) || exists y <- all :: Named(y) && SameSlot(x, y))
      && (forall i | |s.services| <= i < |out| :: FirstInSlot(out[i], all))
      && (forall i, j | 0 <= i < j < |out| && j >= |s.services| :: !SameSlot(out[i], out[j]))
  {
    hide Fold, Named, ServiceUsable, SlotIn, FirstInSlot, SameSlot, ServiceKey;
    ListsOfFold(g, s, list);
    ServicesAppended(s.services, AllServices(list));
  }

  lemma {:induction false} ServicesAppended(known: seq<Service>, all: seq<Service>)
    ensures var out := MergedServices(known, all);
      && known <= out
      && (forall x :: SlotIn(x, out) <==> SlotIn(x, known) || exists y <- all :: Named(y) && SameSlot(x, y))
      && (forall i | |known| <= i < |out| :: FirstInSlot(out[i], all))
      && (forall i, j | 0 <= i < j < |out| && j >= |known| :: !SameSlot(out[i], out[j]))
  {
    hide ServiceKey, SameSlot, FirstInSlot, ServiceUsable, Named, SlotIn;
    if all == [] {
      MergedNone(known);
    } else {
      var n := |all| - 1;
      var front, x := all[..n], all[n];
      assert all == front + [x];
      ServicesAppended(known, front);
      var was, out := MergedServices(known, front), MergedServices(known, all);
      KeyIsSlot(x, was);
      assert out == if Named(x) && !SlotIn(x, was) then was + [x] else was;
      forall y ensures SlotIn(y, out) <==> SlotIn(y, known) || exists z <- all :: Named(z) && SameSlot(y, z) {
        OneSlotMore(y, was, x);
        SlotsAgree(y, x, was);
        assert forall z :: z in all <==> z in front || z == x;
      }
      forall y ensures FirstInSlot(y, front) ==> FirstInSlot(y, all) {
        StillFirst(y, front, x);
      }
      if Named(x) && !SlotIn(x, was) {
        forall z <- front ensures !SameSlot(z, x) {
          NamedSlot(z, x);
        }
        assert FirstInSlot(x, all) by {
          LastIsFirst(front, x);
        }
        forall y <- was ensures !SameSlot(y, x) {
          NoSlot(y, x, was);
        }
      }
    }
  }

  lemma MergedNone(known: seq<Service>)
    ensures MergedServices(known, []) == known
  {
  }

  lemma KeyIsSlot(x: Service, list: seq<Service>)
    ensures KeyIn(x, list, ServiceKey) <==> SlotIn(x, list)
    ensures ServiceUsable(x) <==> Named(x)
  {
    hide ServiceKey;
    forall y <- list ensures ServiceKey(y) == ServiceKey(x) <==> SameSlot(x, y) {
      ServiceKeyInjective(y, x);
    }
  }

  lemma OneSlotMore(y: Service, list: seq<Service>, x: Service)
    ensures SlotIn(y, list + [x]) <==> SlotIn(y, list) || SameSlot(y, x)
  {
    hide SameSlot;
    assert forall z :: z in list + [x] <==> z in list || z == x;
  }

  lemma SlotsAgree(y: Service, x: Service, list: seq<Service>)
    ensures SameSlot(y, x) ==> (SlotIn(y, list) <==> SlotIn(x, list))
  {
  }

  lemma NamedSlot(z: Service, x: Service)
    ensures SameSlot(z, x) ==> SameSlot(x, z) && (Named(z) <==> Named(x))
  {
  }

  lemma NoSlot(y: Service, x: Service, list: seq<Service>)
    requires y in list && !SlotIn(x, list)
    ensures !SameSlot(y, x)
  {
  }

  lemma StillFirst(y: Service, all: seq<Service>, x: Service)
    ensures FirstInSlot(y, all) ==> FirstInSlot(y, all + [x])
  {
    hide SameSlot;
    if FirstInSlot(y, all) {
      var k :| 0 <= k < |all| && all[k] == y && forall j | 0 <= j < k :: !SameSlot(all[j], y);
      var more := all + [x];
      assert more[k] == y && forall j | 0 <= j < k :: more[j] == all[j];
    }
  }

  lemma LastIsFirst(all: seq<Service>, x: Service)
    requires Named(x) && forall z <- all :: !SameSlot(z, x)
    ensures FirstInSlot(x, all + [x])
  {
    hide SameSlot;
    var more := all + [x];
    assert more[|all|] == x && forall j | 0 <= j < |all| :: more[j] == all[j] && all[j] in all;
  }

  /** The hostnames of a fold: those known stay in front; a name is there iff it was known or
      some observation has it and it is not empty; and no name is new twice. */
  lemma HostnamesAreUnion(g: Guesses, s: Snapshot, list: seq<Observation>)
    ensures var out := Fold(g, s, list).hostnames;
      && s.hostnames <= out
      && (forall h :: h in out <==> h in s.hostnames || (h != "" && h in AllHostnames(list)))
      && (forall i, j | 0 <= i < j < |out| && j >= |s.hostnames| :: out[i] != out[j])
  {
    hide Fold;
    ListsOfFold(g, s, list);
    StringsAppended(s.hostnames, AllHostnames(list));
  }

  lemma {:induction false} StringsAppended(known: seq<string>, all: seq<string>)
    ensures var out := MergedStrings(known, all);
      && known <= out
      && (forall h :: h in out <==> h in known || (h != "" && h in all))
      && (forall i, j | 0 <= i < j < |out| && j >= |known| :: out[i] != out[j])
  {
    if all != [] {
      var n := |all| - 1;
      var front, x := all[..n], all[n];
      assert all == front + [x];
      StringsAppended(known, front);
      var was := MergedStrings(known, front);
      assert KeyIn(x, was, (s: string) => s) <==> x in was;
    }
  }

  // ---------- extra attributes ----------

  predicate Lists(a: ExtraValue, b: ExtraValue) { (a.Strings? || a.Anys?) && (b.Strings? || b.Anys?) }

  function Entries(v: ExtraValue): seq<ExtraValue>
    requires v.Strings? || v.Anys?
  {
    if v.Anys? then v.values else seq(|v.items|, i requires 0 <= i < |v.items| => Scalar(v.items[i]))
  }

  /** A list b put behind a list a: strings behind strings are merged like hostnames, a mixed list
      is put behind whole, and strings behind a mixed list without the empty ones. */
  ghost predicate Joined(a: ExtraValue, b: ExtraValue, out: ExtraValue)
    requires Lists(a, b)
  {
    && Lists(a, out) && (out.Strings? <==> a.Strings? && b.Strings?)
    && Entries(a) <= Entries(out)
    && (b.Anys? ==> Entries(out) == Entries(a) + b.values)
    && (b.Strings? ==>
          && forall x :: Scalar(x) in Entries(out) <==> Scalar(x) in Entries(a) || (x != "" && x in b.items))
    && (a.Anys? && b.Strings? ==> Entries(out) == Entries(a) + Entries(Strings(NonEmpty(b.items))))
    && (out.Strings? ==> forall i, j | 0 <= i < j < |out.items| && j >= |a.items| :: out.items[i] != out.items[j])
  }

  /** Under every key: what is not known is taken, lists are joined, and all else is kept. */
  lemma ExtrasOf(dst: Extras, src: Extras, k: string)
    ensures var out := MergedExtras(dst, src);
      && (k in out <==> k in dst || (k in src && src[k] != Nil))
      && (k in out && k !in dst ==> out[k] == src[k])
      && (k in dst && (k !in src || !Lists(dst[k], src[k])) ==> out[k] == dst[k])
      && (k in dst && k in src && Lists(dst[k], src[k]) ==> Joined(dst[k], src[k], out[k]))
  {
    hide Joined, NonEmpty, MergedStrings;
    if k in dst && k in src && Lists(dst[k], src[k]) {
      JoinedExtra(dst[k], src[k]);
    }
  }

  lemma JoinedExtra(a: ExtraValue, b: ExtraValue)
    requires Lists(a, b)
    ensures Joined(a, b, MergedExtra(a, b).0)
  {
    hide NonEmpty, MergedStrings;
    var out := MergedExtra(a, b).0;
    match (a, b)
    case (Strings(known), Strings(items)) =>
      StringsAppended(known, items);
      forall x ensures Scalar(x) in Entries(out) <==> Scalar(x) in Entries(a) || (x != "" && x in items) {
        ScalarIn(x, out.items);
        ScalarIn(x, known);
      }
    case (Anys(known), Strings(items)) =>
      forall x ensures Scalar(x) in Entries(out) <==> Scalar(x) in known || (x != "" && x in items) {
        ScalarIn(x, NonEmpty(items));
        NonEmptyItems(items, x);
      }
    case _ =>
  }

  lemma ScalarIn(x: string, items: seq<string>)
    ensures Scalar(x) in Entries(Strings(items)) <==> x in items
    ensures Entries(Strings(items)) == AsAnys(items)
  {
    var all := Entries(Strings(items));
    if x in items {
      var i :| 0 <= i < |items| && items[i] == x;
      assert all[i] == Scalar(x);
    }
  }

  lemma {:induction false} NonEmptyItems(items: seq<string>, x: string)
    ensures x in NonEmpty(items) <==> x != "" && x in items
  {
    if items != [] {
      NonEmptyItems(items[1..], x);
      assert items == [items[0]] + items[1..];
    }
  }

  /** The non-empty strings come in their order and as often as they are there. */
  lemma {:induction false} NonEmptyParts(front: seq<string>, x: string)
    ensures NonEmpty(front + [x]) == NonEmpty(front) + if x == "" then [] else [x]
  {
    var all := front + [x];
    if front == [] {
      assert all == [x] && all[1..] == [];
    } else {
      var rest := front[1..];
      NonEmptyParts(rest, x);
      assert all[1..] == rest + [x] && all[0] == front[0];
    }
  }

  // ---------- the change that is reported ----------

  /** A list under a key that a mixed list is joined with, in whatever order: reported even if
      nothing is in it. */
  ghost predicate JoinsMixed(dst: Extras, src: Extras) {
    exists k <- dst.Keys :: k in src && Lists(dst[k], src[k]) && !(dst[k].Strings? && src[k].Strings?)
  }

  /** A change is reported iff what is stored differs in anything but the addresses and the count,
      or the count was zero, or a mixed list was joined. */
  lemma ChangedIff(g: Guesses, s: Snapshot, o: Observation)
    ensures MergeChanges(g, s, o)
       <==> || Merged(g, s, o).(ipv4s := s.ipv4s, ipv6s := s.ipv6s, seenCount := s.seenCount) != s
            || s.seenCount == 0
            || JoinsMixed(s.extra, o.extra)
  {
    hide MergeIps, MergedStrings, MergedServices, MergedExtras, ExtrasChange, JoinsMixed, MacString;
    ExtrasChangeIff(s.extra, o.extra);
  }

  lemma ExtrasChangeIff(dst: Extras, src: Extras)
    ensures ExtrasChange(dst, src) <==> MergedExtras(dst, src) != dst || JoinsMixed(dst, src)
  {
    hide MergedStrings, NonEmpty;
    forall k <- src.Keys
      ensures ExtraChanges(dst, src, k) <==>
        || (k !in dst && src[k] != Nil)
        || (k in dst && ExtraAt(dst, src, k) != dst[k])
        || (k in dst && Lists(dst[k], src[k]) && !(dst[k].Strings? && src[k].Strings?))
    {
      if k in dst && dst[k].Strings? && src[k].Strings? {
        StringsAppended(dst[k].items, src[k].items);
      }
    }
    var out := MergedExtras(dst, src);
    if out != dst {
      var k :| (k in out && (k !in dst || out[k] != dst[k]));
      assert k in src && ExtraChanges(dst, src, k);
    }
  }

  // ---------- over a life ----------

  function Active(m: IpMap): IpMap { map ip | ip in m :: m[ip].(active := true) }

  /** What an asset holds but for what sweeps touch: its status and which addresses are active. */
  function Lasting(s: Snapshot): Snapshot { s.(ipv4s := Active(s.ipv4s), ipv6s := Active(s.ipv6s), status := Online) }

  lemma MergeActive(m: IpMap, src: IpMap, at: Time)
    ensures Active(MergeIps(m, src, at)) == MergeIps(Active(m), src, at)
  {
    hide MaxTime;
    forall ip <- MergeIps(m, src, at).Keys ensures Active(MergeIps(m, src, at))[ip] == MergeIps(Active(m), src, at)[ip] {
    }
  }

  lemma ObservedLasting(s: Snapshot, obs: Observation)
    ensures Lasting(Observed(s, obs)) == Observed(Lasting(s), obs)
  {
    hide Active, MergeIps, MergedStrings, MergedServices, MergedExtras, TouchedFirst, TouchedLast, Or;
    MergeActive(s.ipv4s, obs.ipv4s, obs.at);
    MergeActive(s.ipv6s, obs.ipv6s, obs.at);
  }

  lemma GuessedLasting(g: Guesses, s: Snapshot)
    ensures Lasting(WithGuesses(g, WithVendor(g, s))) == WithGuesses(g, WithVendor(g, Lasting(s)))
  {
    hide Active, MacString, Or;
  }

  lemma LastingOnline(s: Snapshot)
    ensures Lasting(s.(status := Online)) == Lasting(s)
  {
    hide Active;
  }

  lemma MergedLasting(g: Guesses, s: Snapshot, obs: Observation)
    ensures Lasting(Revived(g, s, obs)) == Merged(g, Lasting(s), obs)
  {
    hide Lasting, Observed, WithGuesses, WithVendor;
    ObservedLasting(s, obs);
    GuessedLasting(g, Observed(s, obs));
    LastingOnline(Merged(g, s, obs));
  }

  lemma SweptLasting(s: Snapshot, now: Time, offlineAfter: Duration)
    ensures Lasting(Swept(s, now, offlineAfter)) == Lasting(s)
  {
    hide LeaseOver, GoesOffline;
    assert Active(SweptIps(s.ipv4s, now)) == Active(s.ipv4s);
    assert Active(SweptIps(s.ipv6s, now)) == Active(s.ipv6s);
  }

  /** However an asset was swept in between, it holds what its observations make of the contents
      it entered memory with, but for its status and for which addresses are active. So what is
      said of folds above holds of every asset in every schedule. */
  lemma {:induction false} LivedIsFoldBut(g: Guesses, l: Life)
    ensures Lasting(Lived(g, l)) == Fold(g, Lasting(l.start), Sights(l.touches))
    decreases |l.touches|
  {
    hide Touched, Merged, Lasting;
    if l.touches != [] {
      var front, t := l.(touches := l.touches[..|l.touches| - 1]), l.touches[|l.touches| - 1];
      LivedIsFoldBut(g, front);
      var was, seen := Lived(g, front), Sights(front.touches);
      LastingTouched(g, was, t);
      if t.Saw? {
        var sights := Sights(l.touches);
        assert sights == seen + [t.obs] && sights[..|sights| - 1] == seen;
      } else {
        assert Sights(l.touches) == seen;
      }
    }
  }

  lemma LastingTouched(g: Guesses, s: Snapshot, t: Touch)
    ensures Lasting(Touched(g, s, t)) == if t.Saw? then Merged(g, Lasting(s), t.obs) else Lasting(s)
  {
    hide Merged, Lasting;
    match t
    case Saw(obs) => MergedLasting(g, s, obs);
    case Aged(now, offlineAfter) => SweptLasting(s, now, offlineAfter);
  }

  lemma AttributesInStore(g: Guesses, events: seq<Event>, mac: Mac)
    requires mac != [] && AllRowsGood(g, Fresh(), events) && (forall e <- events :: TwoSteps(e)) && Schedule(g, Fresh(), events).Some?
    ensures var s, l := Current(Schedule(g, Fresh(), events).value.store, mac), LifeOf(g, events, mac, false);
      && (s.Some? <==> l.Some?)
      && (s.Some? ==>
            var now, start, seen := s.value, l.value.start, Sights(l.value.touches);
            && FirstOf(now.model, [start.model] + Models(seen))
            && FirstOf(now.vendor, [start.vendor] + Vendors(g, start.mac, seen))
            && (forall h :: h in now.hostnames <==> h in start.hostnames || (h != "" && h in AllHostnames(seen)))
            && (forall x :: SlotIn(x, now.services) <==>
                  SlotIn(x, start.services) || exists y <- AllServices(seen) :: Named(y) && SameSlot(x, y)))
  {
    hide Lived, LifeOf, Schedule, AllRowsGood, TwoSteps, Current, FirstOf, SlotIn, SameSlot, Named, Active, Fold;
    AssetsAreLives(g, events, mac);
    var l := LifeOf(g, events, mac, false);
    if l.Some? {
      var start, seen := Lasting(l.value.start), Sights(l.value.touches);
      LivedIsFoldBut(g, l.value);
      AttributesAreFirst(g, start, seen);
      HostnamesAreUnion(g, start, seen);
      ServicesAreUnion(g, start, seen);
    }
  }
}
