/** The values that pass between the analyzers, the in-memory store and the database
    (internal/asset/asset.go, observation.go, snapshot.go). */
module AssetModel {
  import opened Clock
  import opened MacAddress

  datatype Option<+T> = None | Some(value: T)

  datatype IpEntry = IpEntry(firstSeen: Time, lastSeen: Time, lease: Duration, active: bool)

  type IpMap = map<string, IpEntry>

  type Port = p: int | 0 <= p < 0x1_0000

  datatype Service = Service(
    protocol: string, port: Port, name: string, version: string, product: string,
    vendor: string, banner: string, active: bool, lastSeen: Time, isClient: bool)

  /** A value of the `Extra` map: Go's nil, a scalar, a `[]string`, or an `[]any`. */
  datatype ExtraValue = Nil | Scalar(text: string) | Strings(items: seq<string>) | Anys(values: seq<ExtraValue>)

  type Extras = map<string, ExtraValue>

  datatype Status = Online | Offline

  datatype Observation = Observation(
    source: string, at: Time, mac: Mac, ipv4s: IpMap, ipv6s: IpMap,
    hostnames: seq<string>, services: seq<Service>,
    vendor: string, deviceType: string, model: string, os: string, extra: Extras)
  {
    predicate Valid() { source != "" && at != ZERO_TIME && mac != [] }
  }

  /** What an asset holds, and what a snapshot copies out of it. */
  datatype Snapshot = Snapshot(
    id: AssetId, mac: Mac, ipv4s: IpMap, ipv6s: IpMap,
    hostnames: seq<string>, services: seq<Service>,
    vendor: string, deviceType: string, model: string, os: string, extra: Extras,
    firstSeen: Time, lastSeen: Time, seenCount: nat, status: Status)

  /** The asset that `Apply` creates, before it merges the first observation into it. */
  function Blank(id: AssetId, mac: Mac): Snapshot {
    Snapshot(id, mac, map[], map[], [], [], "", "", "", "", map[], ZERO_TIME, ZERO_TIME, 0, Online)
  }

  ghost function SetOf<T>(s: seq<T>): set<T> { set x | x in s }

  ghost predicate NoDuplicates<T>(s: seq<T>) {
    forall i, j :: 0 <= i < j < |s| ==> s[i] != s[j]
  }

  lemma AppendToSet<T>(s: seq<T>, x: T)
    ensures SetOf(s + [x]) == SetOf(s) + {x}
    ensures NoDuplicates(s) && x !in SetOf(s) ==> NoDuplicates(s + [x])
  {
    forall y ensures y in SetOf(s + [x]) <==> y in SetOf(s) + {x} {
      assert y in s + [x] <==> y in s || y == x;
    }
    if x !in SetOf(s) {
      assert forall i :: 0 <= i < |s| ==> s[i] in SetOf(s);
    }
  }
}
