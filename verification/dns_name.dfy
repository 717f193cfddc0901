/** Names in DNS wire format (`decodeDNSName` of internal/analyzer/dhcpv6.go), against
    sections 2.3.4 and 3.1 of RFC 1035. */
module DnsName {
  import opened MacAddress
  import opened Words

  type Bytes = seq<Byte>

  const DOT: Byte := 46

  /** Whether a length octet at the head of `b` starts a label that is taken as label number k. */
  predicate Takes(b: Bytes, k: nat) {
    b != [] && 0 < b[0] < 64 && 1 + k + b[0] <= 255 && 1 + b[0] <= |b|
  }

  /** The labels that are taken, when k were taken before. */
  function Labels(b: Bytes, k: nat): seq<Bytes>
    decreases |b|
  {
    if Takes(b, k) then [b[1..1 + b[0]]] + Labels(b[1 + b[0]..], k + 1) else []
  }

  predicate HasHighBits(n: Byte) { (n as bv8) & 0xc0 != 0 }

  lemma HighBits(n: Byte)
    ensures HasHighBits(n) <==> n >= 64
  {
    var v := n as bv8;
    assert v & 0xc0 != 0 <==> v >= 64;
    assert n >= 64 <==> v >= 64;
  }

  /** The first loop of `decodeDNSName`: the length octet ends the name when it is zero or
      when one of its two high bits is set. */
  method ReadLabels(input: Bytes) returns (labels: seq<Bytes>)
    ensures labels == Labels(input, 0)
  {
    hide HasHighBits;
    var b := input;
    labels := [];
    while |b| > 0
      invariant labels + Labels(b, |labels|) == Labels(input, 0)
      decreases |b|
    {
      var n := b[0];
      HighBits(n);
      if n == 0 || HasHighBits(n) || 1 + |labels| + n > 255 || 1 + n > |b| {
        break;
      }
      assert Labels(b, |labels|) == [b[1..1 + n]] + Labels(b[1 + n..], |labels| + 1);
      labels, b := labels + [b[1..1 + n]], b[1 + n..];
    }
  }

  /** `decodeDNSName`. */
  method DecodeDnsName(input: Bytes) returns (out: Bytes)
    ensures out == Join(Labels(input, 0), DOT)
  {
    var labels := ReadLabels(input);
    out := [];
    for i := 0 to |labels|
      invariant out == Join(labels[..i], DOT)
    {
      assert labels[..i + 1] == labels[..i] + [labels[i]];
      JoinMore(labels[..i], DOT, labels[i]);
      if i > 0 {
        out := out + [DOT];
      }
      out := out + labels[i];
    }
    assert labels[..|labels|] == labels;
  }

  // ---------- what it means ----------

  /** The wire form of labels, without the octet that ends a name. */
  function Wire(labels: seq<Bytes>): Bytes
    requires forall l <- labels :: |l| < 256
  {
    if labels == [] then [] else [|labels[0]|] + labels[0] + Wire(labels[1..])
  }

  /** Each label has 1 to 63 octets, and the guard against malformed input lets it pass: it
      counts the labels before it, not their octets. */
  predicate Acceptable(labels: seq<Bytes>, k: nat) {
    forall i | 0 <= i < |labels| :: 0 < |labels[i]| < 64 && k + i + |labels[i]| <= 254
  }

  predicate Starts(labels: seq<Bytes>, b: Bytes, k: nat) { Acceptable(labels, k) && Wire(labels) <= b }

  lemma WireOfMore(l: Bytes, rest: seq<Bytes>)
    requires |l| < 256 && forall m <- rest :: |m| < 256
    ensures Wire([l] + rest) == [|l|] + l + Wire(rest)
  {
    assert ([l] + rest)[1..] == rest;
  }

  lemma AcceptableTail(labels: seq<Bytes>, k: nat)
    requires labels != [] && Acceptable(labels, k)
    ensures Acceptable(labels[1..], k + 1)
  {
    assert forall i | 0 <= i < |labels[1..]| :: labels[1..][i] == labels[i + 1];
  }

  lemma {:induction false} LabelsStart(b: Bytes, k: nat)
    ensures Starts(Labels(b, k), b, k)
    decreases |b|
  {
    if Takes(b, k) {
      var l, rest := b[1..1 + b[0]], b[1 + b[0]..];
      LabelsStart(rest, k + 1);
      WireOfMore(l, Labels(rest, k + 1));
      assert b == [b[0]] + l + rest;
    }
  }

  /** For any input at all, the labels that are taken are the longest acceptable list of
      labels that the input starts with. */
  lemma {:induction false} LabelsAreLongest(b: Bytes, k: nat, other: seq<Bytes>)
    requires Starts(other, b, k)
    ensures Starts(Labels(b, k), b, k) && other <= Labels(b, k)
    decreases |b|
  {
    LabelsStart(b, k);
    if other != [] {
      var l := other[0];
      assert Wire(other) == [|l|] + l + Wire(other[1..]);
      assert b[0] == |l| && b[1..1 + b[0]] == l && Wire(other[1..]) <= b[1 + b[0]..];
      AcceptableTail(other, k);
      LabelsAreLongest(b[1 + b[0]..], k + 1, other[1..]);
      assert other == [l] + other[1..];
    }
  }

  lemma LabelsOfOne(l: Bytes, rest: Bytes, k: nat)
    requires 0 < |l| < 64 && k + |l| <= 254
    ensures Labels([|l|] + l + rest, k) == [l] + Labels(rest, k + 1)
  {
    var b := [|l|] + l + rest;
    assert b[0] == |l| && b[1..1 + b[0]] == l && b[1 + b[0]..] == rest;
  }

  lemma {:induction false} LabelsOfWire(labels: seq<Bytes>, tail: Bytes, k: nat)
    requires Acceptable(labels, k) && !Takes(tail, k + |labels|)
    ensures Labels(Wire(labels) + tail, k) == labels
  {
    hide Takes;
    if labels == [] {
      assert Wire(labels) + tail == tail;
    } else {
      AcceptableTail(labels, k);
      LabelsOfWire(labels[1..], tail, k + 1);
      LabelsOfOne(labels[0], Wire(labels[1..]) + tail, k);
      assert Wire(labels) + tail == [|labels[0]|] + labels[0] + (Wire(labels[1..]) + tail);
    }
  }

  /** A name in the sense of RFC 1035: labels of 1 to 63 octets, 255 octets in all with the
      length octets and the final zero. */
  predicate Legal(labels: seq<Bytes>) {
    (forall l <- labels :: 0 < |l| < 64) && |Wire(labels)| + 1 <= 255
  }

  lemma {:induction false} WireIsLong(labels: seq<Bytes>)
    requires forall l <- labels :: 0 < |l| < 64
    ensures |Wire(labels)| >= 2 * |labels|
  {
    if labels != [] {
      assert labels[0] in labels;
      WireIsLong(labels[1..]);
    }
  }

  /** Every legal name, followed by its zero octet and any bytes, is read back whole. */
  lemma LegalNamesAreRead(labels: seq<Bytes>, rest: Bytes)
    requires Legal(labels)
    ensures Labels(Wire(labels) + [0] + rest, 0) == labels
  {
    WireIsLong(labels);
    assert Acceptable(labels, 0) by {
      assert forall i | 0 <= i < |labels| :: labels[i] in labels;
    }
    LabelsOfWire(labels, [0] + rest, 0);
    assert Wire(labels) + [0] + rest == Wire(labels) + ([0] + rest);
  }

  /** Among labels of legal length, those that are read back whole are exactly those that pass
      the guard, however many octets they have. */
  lemma ReadBackIff(labels: seq<Bytes>, rest: Bytes)
    requires forall l <- labels :: 0 < |l| < 64
    ensures Labels(Wire(labels) + [0] + rest, 0) == labels <==> Acceptable(labels, 0)
  {
    if Acceptable(labels, 0) {
      LabelsOfWire(labels, [0] + rest, 0);
      assert Wire(labels) + [0] + rest == Wire(labels) + ([0] + rest);
    } else {
      LabelsAreLongest(Wire(labels) + [0] + rest, 0, []);
    }
  }

  /** Two legal names without dots in their labels that decode to the same text are the same
      name, whatever follows them. */
  lemma DecodingIsInjective(one: seq<Bytes>, other: seq<Bytes>, x: Bytes, y: Bytes)
    requires Legal(one) && Legal(other) && one != [] && other != []
    requires (forall l <- one :: DOT !in l) && (forall l <- other :: DOT !in l)
    requires Join(Labels(Wire(one) + [0] + x, 0), DOT) == Join(Labels(Wire(other) + [0] + y, 0), DOT)
    ensures one == other
  {
    LegalNamesAreRead(one, x);
    LegalNamesAreRead(other, y);
    SplitOfJoin(one, DOT);
    SplitOfJoin(other, DOT);
  }
}
