/** The vendor table (internal/oui/lookup.go): a longest-prefix search over hex digits. */
module OuiLookup {
  import opened AssetModel
  import opened Words
  import opened OuiParser

  /** What `normalizeMAC` answers. */
  function NormalMac(mac: string): Option<string> {
    var hex := Hex(mac);
    if hex.Some? && |hex.value| == 12 then hex else None
  }

  predicate IsKeyFor(entries: map<string, string>, norm: string, n: nat) { n <= |norm| && norm[..n] in entries }

  /** What a longest-prefix search has to answer. */
  ghost predicate IsLongest(entries: map<string, string>, mac: string, vendor: Option<string>) {
    var norm := NormalMac(mac);
    match vendor
    case None => norm.None? || forall n: nat :: !IsKeyFor(entries, norm.value, n)
    case Some(v) =>
      && norm.Some?
      && exists n: nat :: IsKeyFor(entries, norm.value, n) && entries[norm.value[..n]] == v
                          && forall m: nat :: IsKeyFor(entries, norm.value, m) ==> m <= n
  }

  lemma Largest(lens: set<nat>) returns (max: nat)
    requires lens != {}
    ensures max in lens && forall n <- lens :: n <= max
  {
    var x :| x in lens;
    var others := lens - {x};
    max := x;
    if others != {} {
      var m := Largest(others);
      max := if m > x then m else x;
    }
    assert forall n <- lens :: n in others || n == x;
  }

  /** Sorting the lengths, longest first. */
  method Descending(lens: set<nat>) returns (sorted: seq<nat>)
    ensures forall n :: n in sorted <==> n in lens
    ensures forall i, j :: 0 <= i < j < |sorted| ==> sorted[i] > sorted[j]
  {
    sorted := [];
    var todo := lens;
    while todo != {}
      invariant todo <= lens && forall n :: n in sorted <==> n in lens - todo
      invariant forall i, j :: 0 <= i < j < |sorted| ==> sorted[i] > sorted[j]
      invariant forall i, n :: 0 <= i < |sorted| && n in todo ==> sorted[i] > n
      decreases todo
    {
      ghost var largest := Largest(todo);
      var max :| max in todo && forall n <- todo :: n <= max;
      todo, sorted := todo - {max}, sorted + [max];
    }
  }

  class Lookup {
    var entries: map<string, string>
    var prefixLens: seq<nat>
    var maxPrefixLen: nat

    /** The lengths are those of the keys, each once, longest first. */
    ghost predicate Valid()
      reads this
    {
      && (forall p <- entries.Keys :: IsPrefixKey(p))
      && (forall i, j :: 0 <= i < j < |prefixLens| ==> prefixLens[i] > prefixLens[j])
      && (forall n :: n in prefixLens <==> exists p <- entries.Keys :: |p| == n)
      && (forall p <- entries.Keys :: |p| <= maxPrefixLen)
      && (maxPrefixLen == 0 || exists p <- entries.Keys :: |p| == maxPrefixLen)
    }

    /** `NewLookup`: the raw entries in any order; where two of them have the same normal
        form, one of them wins. */
    constructor (raw: map<string, string>)
      ensures Valid()
      ensures forall p <- raw.Keys :: NormalPrefix(p).Some? && raw[p] != "" ==> NormalPrefix(p).value in entries
      ensures forall q <- entries.Keys :: exists p <- raw.Keys ::
        raw[p] != "" && NormalPrefix(p) == Some(q) && entries[q] == CleanVendor(raw[p])
    {
      hide NormalPrefix, CleanVendor, IsPrefixKey;
      var table: map<string, string>, lens: set<nat>, max: nat := map[], {}, 0;
      var todo := raw.Keys;
      while todo != {}
        invariant todo <= raw.Keys
        invariant forall p <- raw.Keys - todo :: NormalPrefix(p).Some? && raw[p] != "" ==> NormalPrefix(p).value in table
        invariant forall q <- table.Keys :: exists p <- raw.Keys ::
          raw[p] != "" && NormalPrefix(p) == Some(q) && table[q] == CleanVendor(raw[p])
        invariant forall q <- table.Keys :: IsPrefixKey(q)
        invariant forall n :: n in lens <==> exists q <- table.Keys :: |q| == n
        invariant forall q <- table.Keys :: |q| <= max
        invariant max == 0 || exists q <- table.Keys :: |q| == max
        decreases todo
      {
        var p :| p in todo;
        todo := todo - {p};
        var norm := NormalPrefix(p);
        if norm.None? || raw[p] == "" {
          continue;
        }
        NormalPrefixIsKey(p);
        var q := norm.value;
        table := table[q := CleanVendor(raw[p])];
        assert q in table.Keys;
        lens := lens + {|q|};
        if |q| > max {
          max := |q|;
        }
      }
      var sorted := Descending(lens);
      entries, prefixLens, maxPrefixLen := table, sorted, max;
    }

    lemma LensFit(i: nat, mac: string)
      requires Valid() && i < |prefixLens| && NormalMac(mac).Some?
      ensures prefixLens[i] <= |NormalMac(mac).value|
    {
      assert prefixLens[i] in prefixLens;
    }

    lemma KeyLengthListed(norm: string, n: nat)
      requires Valid() && IsKeyFor(entries, norm, n)
      ensures n in prefixLens
    {
      hide IsPrefixKey;
      assert norm[..n] in entries.Keys && |norm[..n]| == n;
    }

    /** `VendorForMAC`. */
    method VendorForMac(mac: string) returns (vendor: Option<string>)
      requires Valid()
      ensures IsLongest(entries, mac, vendor)
    {
      hide NormalMac, IsPrefixKey;
      if |entries| == 0 {
        return None;
      }
      var norm := NormalMac(mac);
      if norm.None? {
        return None;
      }
      for i := 0 to |prefixLens|
        invariant forall j | 0 <= j < i :: !IsKeyFor(entries, norm.value, prefixLens[j])
      {
        LensFit(i, mac);
        var prefix := norm.value[..prefixLens[i]];
        if prefix in entries {
          assert IsKeyFor(entries, norm.value, prefixLens[i]);
          forall m: nat | IsKeyFor(entries, norm.value, m) ensures m <= prefixLens[i] {
            KeyLengthListed(norm.value, m);
          }
          return Some(entries[prefix]);
        }
      }
      forall n: nat | IsKeyFor(entries, norm.value, n) ensures false {
        KeyLengthListed(norm.value, n);
      }
      return None;
    }
  }

  /** A table made from what `Parse` returns holds every one of its entries, unchanged. */
  method LoadRegistry(csv: Csv, lines: seq<string>) returns (lookup: Lookup)
    ensures fresh(lookup) && lookup.Valid() && HoldsLast(csv, lines, lookup.entries)
  {
    hide NormalPrefix, CleanVendor, HoldsLast, IsPrefixKey;
    var entries, _ := Parse(csv, lines);
    ParsedIsClean(csv, lines, entries);
    lookup := new Lookup(entries);
    assert lookup.entries == entries;
  }

  // ---------- ways of writing an address ----------

  lemma {:induction false} DigitsOfParts(a: string, b: string)
    ensures Digits(a + b) == Digits(a) + Digits(b)
  {
    if b == "" {
      assert a + b == a;
    } else {
      assert (a + b)[..|a + b| - 1] == a + b[..|b| - 1];
      DigitsOfParts(a, b[..|b| - 1]);
    }
  }

  lemma SeparatorsDropOut(a: string, sep: char, b: string)
    requires IsSeparator(sep) && forall c <- a + b :: !IsSpace(c)
    ensures NormalMac(a + [sep] + b) == NormalMac(a + b)
  {
    var s, t := a + [sep] + b, a + b;
    assert forall c <- s :: c in t || c == sep;
    assert forall c <- t :: c in s;
    TrimOfHex(s);
    TrimOfHex(t);
    DigitsOfParts(a + [sep], b);
    DigitsOfParts(a, [sep]);
    DigitsOfParts(a, b);
    assert Digits([sep]) == "" by {
      assert [sep][..0] == "";
    }
    assert Digits(s) == Digits(t);
    assert sep in s && (OnlyHex(s) <==> OnlyHex(t));
  }

  predicate SameLetter(c: char, d: char) { c == d || (IsHex(c) && IsHex(d) && UpperHex(c) == UpperHex(d)) }

  lemma {:induction false} DigitsOfCase(a: string, b: string)
    requires |a| == |b| && forall i | 0 <= i < |a| :: SameLetter(a[i], b[i])
    ensures Digits(a) == Digits(b) && (OnlyHex(a) <==> OnlyHex(b))
  {
    if a != "" {
      var n := |a| - 1;
      DigitsOfCase(a[..n], b[..n]);
      assert a == a[..n] + [a[n]] && b == b[..n] + [b[n]];
      assert SameLetter(a[n], b[n]);
      assert OnlyHex(a) <==> OnlyHex(a[..n]) && (IsSeparator(a[n]) || IsHex(a[n]));
      assert OnlyHex(b) <==> OnlyHex(b[..n]) && (IsSeparator(b[n]) || IsHex(b[n]));
    }
  }

  lemma CaseDropsOut(a: string, b: string)
    requires |a| == |b| && forall i | 0 <= i < |a| :: SameLetter(a[i], b[i])
    requires forall c <- a :: !IsSpace(c)
    ensures NormalMac(a) == NormalMac(b)
  {
    assert forall i | 0 <= i < |b| :: !IsSpace(b[i]) by {
      forall i | 0 <= i < |b| ensures !IsSpace(b[i]) {
        assert SameLetter(a[i], b[i]) && a[i] in a;
      }
    }
    TrimOfHex(a);
    TrimOfHex(b);
    DigitsOfCase(a, b);
  }

  /** The search has one answer only, and it depends on the normal form of the address. */
  lemma OneVendor(entries: map<string, string>, a: string, b: string, one: Option<string>, other: Option<string>)
    requires NormalMac(a) == NormalMac(b) && IsLongest(entries, a, one) && IsLongest(entries, b, other)
    ensures one == other
  {
    hide NormalMac;
    if one.Some? && other.Some? {
      var norm := NormalMac(a).value;
      var n: nat :| IsKeyFor(entries, norm, n) && entries[norm[..n]] == one.value
                    && forall m: nat :: IsKeyFor(entries, norm, m) ==> m <= n;
      var k: nat :| IsKeyFor(entries, norm, k) && entries[norm[..k]] == other.value
                    && forall m: nat :: IsKeyFor(entries, norm, m) ==> m <= k;
      assert n <= k <= n;
    }
  }

  /** A separator more or less anywhere in an address makes no difference to its vendor. */
  lemma SeparatorsDoNotMatter(entries: map<string, string>, a: string, sep: char, b: string,
                              one: Option<string>, other: Option<string>)
    requires IsSeparator(sep) && forall c <- a + b :: !IsSpace(c)
    requires IsLongest(entries, a + [sep] + b, one) && IsLongest(entries, a + b, other)
    ensures one == other
  {
    hide IsLongest, NormalMac;
    SeparatorsDropOut(a, sep, b);
    OneVendor(entries, a + [sep] + b, a + b, one, other);
  }

  /** Neither does the case of its letters. */
  lemma CaseDoesNotMatter(entries: map<string, string>, a: string, b: string, one: Option<string>, other: Option<string>)
    requires |a| == |b| && forall i | 0 <= i < |a| :: SameLetter(a[i], b[i])
    requires forall c <- a :: !IsSpace(c)
    requires IsLongest(entries, a, one) && IsLongest(entries, b, other)
    ensures one == other
  {
    hide IsLongest, NormalMac;
    CaseDropsOut(a, b);
    OneVendor(entries, a, b, one, other);
  }
}
