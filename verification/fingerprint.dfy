/** The DHCP fingerprint (`paramRequestListFingerprint` and `appendUint` of
    internal/analyzer/dhcp.go): the first 16 requested options, in decimal. */
module Fingerprint {
  import opened MacAddress
  import opened Decimals
  import opened Words

  const MAX_CODES: nat := 16

  type Codes = seq<Byte>

  /** The codes that are printed. */
  function Kept(pri: Codes): Codes { if |pri| > MAX_CODES then pri[..MAX_CODES] else pri }

  function Printed(pri: Codes): seq<string> { seq(|pri|, i requires 0 <= i < |pri| => Itoa(pri[i])) }

  /** `appendUint`, with its buffer of three digits filled from the end. Three always suffice
      for a byte; a fourth digit would be written outside the buffer. */
  method AppendUint(b: string, v: nat) returns (out: string)
    requires v < 1000
    ensures out == b + Itoa(v)
  {
    if v == 0 {
      assert Itoa(v) == [Digit(0)] == "0";
      return b + "0";
    }
    var buf := new char[3](_ => '0');
    var i, rest := buf.Length, v;
    while rest > 0
      invariant 0 <= i <= 3 && 0 <= rest < Pow10(i)
      invariant rest > 0 ==> Itoa(v) == Itoa(rest) + buf[i..]
      invariant rest == 0 ==> Itoa(v) == buf[i..]
    {
      assert Pow10(0) == 1;
      i := i - 1;
      ghost var before := buf[i + 1..];
      buf[i] := (48 + rest % 10) as char;
      assert buf[i..] == [Digit(rest % 10)] + before;
      rest := rest / 10;
    }
    out := b + buf[i..];
  }

  /** `paramRequestListFingerprint`. */
  method ParamRequestListFingerprint(pri: Codes) returns (text: string)
    ensures text == Join(Printed(Kept(pri)), ',')
  {
    var n := |pri|;
    if n > MAX_CODES {
      n := MAX_CODES;
    }
    text := "";
    for i := 0 to n
      invariant text == Join(Printed(pri[..i]), ',')
    {
      assert Printed(pri[..i + 1]) == Printed(pri[..i]) + [Itoa(pri[i])];
      JoinMore(Printed(pri[..i]), ',', Itoa(pri[i]));
      if i > 0 {
        text := text + [','];
      }
      text := AppendUint(text, pri[i]);
    }
    assert pri[..n] == Kept(pri);
  }

  /** Reads a fingerprint back. */
  ghost function Read(text: string): seq<int> {
    if text == "" then []
    else
      var parts := Split(text, ',');
      seq(|parts|, i requires 0 <= i < |parts| => if AllDigits(parts[i]) then Value(parts[i]) else -1)
  }

  lemma JoinIsEmptyIff(pri: Codes)
    ensures Join(Printed(pri), ',') == "" <==> pri == []
  {
    if pri != [] {
      assert Printed(pri)[0] == Itoa(pri[0]);
    }
  }

  /** Reading the fingerprint gives the codes that were kept. */
  lemma ReadUndoesPrint(pri: Codes)
    ensures Read(Join(Printed(Kept(pri)), ',')) == Kept(pri)
  {
    var kept := Kept(pri);
    var parts := Printed(kept);
    JoinIsEmptyIff(kept);
    if kept != [] {
      forall p <- parts ensures ',' !in p {
        assert AllDigits(p);
      }
      SplitOfJoin(parts, ',');
      forall i | 0 <= i < |kept| ensures Read(Join(parts, ','))[i] == kept[i] {
        ItoaValue(kept[i]);
      }
    }
  }

  /** Two requests have the same fingerprint iff their first 16 codes are the same. */
  lemma SameFingerprintIff(one: Codes, other: Codes)
    ensures Join(Printed(Kept(one)), ',') == Join(Printed(Kept(other)), ',') <==>
      (if |one| > 16 then one[..16] else one) == (if |other| > 16 then other[..16] else other)
  {
    ReadUndoesPrint(one);
    ReadUndoesPrint(other);
  }
}
