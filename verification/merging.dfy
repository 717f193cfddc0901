/** Folding observations into an asset: internal/asset/merge.go and `mergeInto` of
    internal/asset/manager.go, as functions on contents and as methods on the shared asset. */
module Merging {
  import opened Clock
  import opened MacAddress
  import opened AssetModel
  import opened MergeUtil

  /** What the manager asks of the OUI table and of the name heuristics; "" is no answer. */
  datatype Guesses = Guesses(
    vendorForMac: string -> string,
    deviceType: (string, seq<string>) -> string,
    os: (string, seq<string>) -> string)

  function Or(known: string, offered: string): string { if known == "" then offered else known }

  function TouchedFirst(firstSeen: Time, at: Time): Time {
    if at != ZERO_TIME && (firstSeen == ZERO_TIME || at < firstSeen) then at else firstSeen
  }

  function TouchedLast(lastSeen: Time, at: Time): Time {
    if at > lastSeen then at else lastSeen
  }

  /** The contents after `mergeObservation`. */
  ghost function Observed(s: Snapshot, obs: Observation): Snapshot {
    s.(ipv4s := MergeIps(s.ipv4s, obs.ipv4s, obs.at),
       ipv6s := MergeIps(s.ipv6s, obs.ipv6s, obs.at),
       hostnames := MergedStrings(s.hostnames, obs.hostnames),
       services := MergedServices(s.services, obs.services),
       vendor := Or(s.vendor, obs.vendor),
       deviceType := Or(s.deviceType, obs.deviceType),
       model := Or(s.model, obs.model),
       os := Or(s.os, obs.os),
       extra := MergedExtras(s.extra, obs.extra),
       firstSeen := TouchedFirst(s.firstSeen, obs.at),
       lastSeen := TouchedLast(s.lastSeen, obs.at),
       seenCount := s.seenCount + 1)
  }

  /** The `Changed` flag of `mergeObservation`: addresses and the count do not raise it,
      except that the very first observation always does. */
  ghost predicate ObservedChanges(s: Snapshot, obs: Observation) {
    var t := Observed(s, obs);
    || t.hostnames != s.hostnames || t.services != s.services
    || t.vendor != s.vendor || t.deviceType != s.deviceType || t.model != s.model || t.os != s.os
    || ExtrasChange(s.extra, obs.extra)
    || t.firstSeen != s.firstSeen || t.lastSeen != s.lastSeen
    || t.seenCount == 1
  }

  function WithVendor(g: Guesses, s: Snapshot): Snapshot {
    if s.vendor == "" && s.mac != [] then s.(vendor := g.vendorForMac(MacString(s.mac))) else s
  }

  function WithGuesses(g: Guesses, s: Snapshot): Snapshot {
    s.(deviceType := Or(s.deviceType, g.deviceType(s.vendor, s.hostnames)),
       os := Or(s.os, g.os(s.vendor, s.hostnames)))
  }

  /** The contents after `mergeInto`. */
  ghost function Merged(g: Guesses, s: Snapshot, obs: Observation): Snapshot {
    WithGuesses(g, WithVendor(g, Observed(s, obs)))
  }

  ghost predicate MergeChanges(g: Guesses, s: Snapshot, obs: Observation) {
    var o, t := Observed(s, obs), Merged(g, s, obs);
    ObservedChanges(s, obs) || t.vendor != o.vendor || t.deviceType != o.deviceType || t.os != o.os
  }

  /** The shared, mutable asset. */
  class Asset {
    const id: AssetId
    var mac: Mac
    var ipv4s: IpMap
    var ipv6s: IpMap
    var hostnames: seq<string>
    var services: seq<Service>
    var vendor: string
    var deviceType: string
    var model: string
    var os: string
    var extra: Extras
    var firstSeen: Time
    var lastSeen: Time
    var seenCount: nat
    var status: Status

    constructor (s: Snapshot)
      ensures Contents() == s && id == s.id
    {
      id, mac, ipv4s, ipv6s, hostnames, services := s.id, s.mac, s.ipv4s, s.ipv6s, s.hostnames, s.services;
      vendor, deviceType, model, os, extra := s.vendor, s.deviceType, s.model, s.os, s.extra;
      firstSeen, lastSeen, seenCount, status := s.firstSeen, s.lastSeen, s.seenCount, s.status;
    }

    /** The snapshot of this asset. */
    function Contents(): Snapshot
      reads this
    {
      Snapshot(id, mac, ipv4s, ipv6s, hostnames, services, vendor, deviceType, model, os, extra,
               firstSeen, lastSeen, seenCount, status)
    }

    /** `touchTimestamps`. */
    method TouchTimestamps(at: Time) returns (changed: bool)
      modifies this
      ensures Contents() == old(Contents()).(
                firstSeen := TouchedFirst(old(firstSeen), at), lastSeen := TouchedLast(old(lastSeen), at))
      ensures changed <==> firstSeen != old(firstSeen) || lastSeen != old(lastSeen)
    {
      if at == ZERO_TIME {
        return false;
      }
      changed := false;
      if firstSeen == ZERO_TIME || at < firstSeen {
        firstSeen := at;
        changed := true;
      }
      if at > lastSeen {
        lastSeen := at;
        changed := true;
      }
    }

    /** The attribute part of `mergeObservation`: a value is taken only where none is known. */
    method FillAttributes(obs: Observation) returns (changed: bool)
      modifies this
      ensures Contents() == old(Contents()).(
                vendor := Or(old(vendor), obs.vendor), deviceType := Or(old(deviceType), obs.deviceType),
                model := Or(old(model), obs.model), os := Or(old(os), obs.os))
      ensures changed <==> (vendor != old(vendor) || deviceType != old(deviceType)
                            || model != old(model) || os != old(os))
    {
      changed := false;
      if vendor == "" && obs.vendor != "" {
        vendor := obs.vendor;
        changed := true;
      }
      if deviceType == "" && obs.deviceType != "" {
        deviceType := obs.deviceType;
        changed := true;
      }
      if model == "" && obs.model != "" {
        model := obs.model;
        changed := true;
      }
      if os == "" && obs.os != "" {
        os := obs.os;
        changed := true;
      }
    }

    /** The address and list part of `mergeObservation`; the results of `mergeIPMap` are
        dropped, as in the source. */
    method MergeLists(obs: Observation) returns (changed: bool)
      modifies this
      ensures Contents() == old(Contents()).(
                ipv4s := MergeIps(old(ipv4s), obs.ipv4s, obs.at), ipv6s := MergeIps(old(ipv6s), obs.ipv6s, obs.at),
                hostnames := MergedStrings(old(hostnames), obs.hostnames),
                services := MergedServices(old(services), obs.services))
      ensures changed <==> hostnames != old(hostnames) || services != old(services)
    {
      var c, d, added, addedServices;
      ipv4s, c, added := MergeIpMap(ipv4s, obs.ipv4s, obs.at);
      ipv6s, c, added := MergeIpMap(ipv6s, obs.ipv6s, obs.at);
      hostnames, c, added := MergeStrings(hostnames, obs.hostnames);
      services, d, addedServices := MergeServices(services, obs.services);
      changed := c || d;
    }

    /** `mergeObservation`. */
    method MergeObservation(obs: Observation) returns (changed: bool)
      modifies this
      ensures Contents() == Observed(old(Contents()), obs)
      ensures changed <==> ObservedChanges(old(Contents()), obs)
    {
      var lists := MergeLists(obs);
      var attributes := FillAttributes(obs);
      var extras;
      extra, extras := MergeExtras(extra, obs.extra);
      var times := TouchTimestamps(obs.at);
      seenCount := seenCount + 1;
      changed := lists || attributes || extras || times || seenCount == 1;
    }

    /** `mergeInto`. */
    method MergeInto(g: Guesses, obs: Observation) returns (changed: bool)
      modifies this
      ensures Contents() == Merged(g, old(Contents()), obs)
      ensures changed <==> MergeChanges(g, old(Contents()), obs)
    {
      changed := MergeObservation(obs);
      if vendor == "" && mac != [] {
        var name := g.vendorForMac(MacString(mac));
        if name != "" {
          vendor := name;
          changed := true;
        }
      }
      if deviceType == "" || os == "" {
        var dt, osName := g.deviceType(vendor, hostnames), g.os(vendor, hostnames);
        if deviceType == "" && dt != "" {
          deviceType := dt;
          changed := true;
        }
        if os == "" && osName != "" {
          os := osName;
          changed := true;
        }
      }
    }
  }
}
