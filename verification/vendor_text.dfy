/** What the texts that the vendor table works on stand for: hex digits for their numbers, the text
    of an address for its bytes, a registry row for its prefix and the words of its name. */
module VendorText {
  import opened AssetModel
  import opened MacAddress
  import opened Words
  import opened OuiParser
  import opened OuiLookup

  // ---------- digits ----------

  /** The number of a hex digit in either case; 16 for any other character. */
  function Value(c: char): nat {
    if '0' <= c <= '9' then (c - '0') as nat
    else if 'a' <= c <= 'f' then 10 + (c - 'a') as nat
    else if 'A' <= c <= 'F' then 10 + (c - 'A') as nat
    else 16
  }

  /** The numbers of the hex digits of a text, in their order. */
  function Values(s: string): seq<nat> {
    if s == "" then []
    else Values(s[..|s| - 1]) + if Value(s[|s| - 1]) < 16 then [Value(s[|s| - 1])] else []
  }

  predicate Capital(c: char) { '0' <= c <= '9' || 'A' <= c <= 'F' }

  lemma DigitKeepsValue(c: char)
    ensures IsHex(c) <==> Value(c) < 16
    ensures IsUpperHex(c) <==> Capital(c)
    ensures IsHex(c) ==> Capital(UpperHex(c)) && Value(UpperHex(c)) == Value(c)
  {
  }

  lemma {:induction false} ValuesOfParts(a: string, b: string)
    ensures Values(a + b) == Values(a) + Values(b)
    decreases |b|
  {
    hide Value;
    if b == "" {
      assert a + b == a;
    } else {
      var all, n := a + b, |b| - 1;
      assert all[..|all| - 1] == a + b[..n] && all[|all| - 1] == b[n];
      ValuesOfParts(a, b[..n]);
    }
  }

  lemma ValuesOfOne(c: char)
    ensures Values([c]) == if Value(c) < 16 then [Value(c)] else []
  {
    hide Value;
    assert [c][..0] == "";
  }

  /** The digits of a text are its numbers, written with capitals. */
  lemma {:induction false} DigitsAreValues(s: string)
    ensures Values(Digits(s)) == Values(s) && |Digits(s)| == |Values(s)|
    ensures forall c <- Digits(s) :: Capital(c)
  {
    hide Value, IsHex, IsUpperHex, UpperHex, Capital;
    if s != "" {
      var front, c := s[..|s| - 1], s[|s| - 1];
      DigitsAreValues(front);
      DigitKeepsValue(c);
      ValuesOfOne(UpperHex(c));
      ValuesOfParts(Digits(front), if IsHex(c) then [UpperHex(c)] else "");
    }
  }

  /** Capital digits with the same numbers are the same. */
  lemma {:induction false} CapitalsAreEqual(a: string, b: string)
    requires (forall c <- a + b :: Capital(c)) && Values(a) == Values(b)
    ensures a == b
  {
    hide Capital, Value;
    CapitalCount(a);
    CapitalCount(b);
    assert forall c <- a + b :: Capital(c);
    assert (forall c <- a :: c in a + b) && (forall c <- b :: c in a + b);
    if a != "" {
      var n := |a| - 1;
      assert a[n] in a && b[n] in b;
      CapitalValue(a[n], b[n]);
      assert Values(a)[..n] == Values(a[..n]) && Values(b)[..n] == Values(b[..n]);
      assert forall c <- a[..n] + b[..n] :: c in a + b;
      CapitalsAreEqual(a[..n], b[..n]);
      assert a == a[..n] + [a[n]] && b == b[..n] + [b[n]];
    }
  }

  lemma CapitalValue(c: char, d: char)
    requires Capital(c) && Capital(d)
    ensures Value(c) < 16 && (Value(c) == Value(d) ==> c == d)
  {
  }

  lemma {:induction false} CapitalCount(s: string)
    requires forall c <- s :: Capital(c)
    ensures |Values(s)| == |s| && (s != "" ==> Values(s[..|s| - 1]) + [Value(s[|s| - 1])] == Values(s))
  {
    hide Capital, Value;
    if s != "" {
      assert s[|s| - 1] in s && forall c <- s[..|s| - 1] :: c in s;
      CapitalValue(s[|s| - 1], s[|s| - 1]);
      CapitalCount(s[..|s| - 1]);
    }
  }

  // ---------- addresses ----------

  /** Two numbers for each byte, the first of them sixteen times. */
  predicate Spells(values: seq<nat>, m: Mac) {
    && |values| == 2 * |m|
    && forall i | 0 <= i < |m| ::
         values[2 * i] < 16 && values[2 * i + 1] < 16 && 16 * values[2 * i] + values[2 * i + 1] == m[i]
  }

  lemma ByteReads(b: Byte)
    ensures var s := HexByte(b);
      && Value(s[0]) < 16 && Value(s[1]) < 16 && 16 * Value(s[0]) + Value(s[1]) == b
      && !('A' <= s[0] <= 'F') && !('A' <= s[1] <= 'F')
  {
  }

  lemma {:induction false} ByteValues(b: Byte)
    ensures Spells(Values(HexByte(b)), [b])
  {
    hide Value, HexByte;
    ByteReads(b);
    var s := HexByte(b);
    assert s == [s[0]] + [s[1]];
    ValuesOfParts([s[0]], [s[1]]);
    ValuesOfOne(s[0]);
    ValuesOfOne(s[1]);
  }

  lemma SpellsMore(front: seq<nat>, b: Byte, rest: seq<nat>, m: Mac)
    requires Spells(front, [b]) && Spells(rest, m)
    ensures Spells(front + rest, [b] + m)
  {
    var all, longer := front + rest, [b] + m;
    forall i | 0 <= i < |longer|
      ensures all[2 * i] < 16 && all[2 * i + 1] < 16 && 16 * all[2 * i] + all[2 * i + 1] == longer[i]
    {
      if i == 0 {
        assert front[2 * 0] == all[0] && front[2 * 0 + 1] == all[1];
      } else {
        assert all[2 * i] == rest[2 * (i - 1)] && all[2 * i + 1] == rest[2 * (i - 1) + 1] && longer[i] == m[i - 1];
      }
    }
  }

  /** Two addresses with the same numbers are the same. */
  lemma OneSpelling(values: seq<nat>, m: Mac, n: Mac)
    requires Spells(values, m) && Spells(values, n)
    ensures m == n
  {
    assert forall i | 0 <= i < |m| :: values[2 * i] < 16 && m[i] == n[i];
  }

  /** Each byte of an address is written as a pair of hex digits that read as its number. */
  lemma {:induction false} TextSpellsAddress(m: Mac)
    ensures Spells(Values(MacString(m)), m)
  {
    hide Value, HexByte, HexDigit, Values, Spells;
    if m == [] {
      NothingSpells();
    } else {
      var b, rest := m[0], m[1..];
      ByteValues(b);
      if rest == [] {
        assert m == [b];
      } else {
        assert m == [b] + rest;
        TextSpellsAddress(rest);
        ColonHasNoValue();
        ValuesOfParts(HexByte(b), ":");
        ValuesOfParts(HexByte(b) + ":", MacString(rest));
        assert Values(HexByte(b)) + [] == Values(HexByte(b));
        SpellsMore(Values(HexByte(b)), b, Values(MacString(rest)), rest);
      }
    }
  }

  lemma NothingSpells()
    ensures Spells(Values(MacString([])), [])
  {
  }

  lemma ColonHasNoValue()
    ensures Values(":") == []
  {
    ValuesOfOne(':');
  }

  /** The pairs are in small letters, with a colon between them. */
  predicate InPlace(c: char, i: nat) { if i % 3 == 2 then c == ':' else Value(c) < 16 && !('A' <= c <= 'F') }

  lemma {:induction false} TextInPlace(m: Mac)
    ensures var s := MacString(m); (m != [] ==> |s| == 3 * |m| - 1) && forall i | 0 <= i < |s| :: InPlace(s[i], i)
  {
    hide Value, HexByte, InPlace;
    if m != [] {
      var s, rest := MacString(m), m[1..];
      ByteInPlace(m[0]);
      if rest != [] {
        TextInPlace(rest);
        var t := MacString(rest);
        forall i | 3 <= i < |s| ensures InPlace(s[i], i) {
          assert s[i] == t[i - 3];
          SamePlace(s[i], i);
        }
        assert s[0] == HexByte(m[0])[0] && s[1] == HexByte(m[0])[1] && s[2] == ':';
      }
    }
  }

  lemma SamePlace(c: char, i: nat)
    requires i >= 3
    ensures InPlace(c, i) <==> InPlace(c, i - 3)
  {
    hide Value;
  }

  lemma ByteInPlace(b: Byte)
    ensures InPlace(HexByte(b)[0], 0) && InPlace(HexByte(b)[1], 1) && InPlace(':', 2)
  {
    ByteReads(b);
    hide Value;
  }

  lemma HexHasNoSpace(m: Mac)
    ensures var s := MacString(m); OnlyHex(s) && Trim(s) == s
  {
    hide Value, MacString, IsHex, Trim, IsSpace;
    var s := MacString(m);
    TextInPlace(m);
    forall c <- s ensures !IsSpace(c) && (IsSeparator(c) || IsHex(c)) {
      var i :| 0 <= i < |s| && s[i] == c;
      assert InPlace(s[i], i);
      DigitKeepsValue(c);
      HexIsNoSpace(c);
    }
    TrimOfHex(s);
  }

  lemma HexIsNoSpace(c: char)
    ensures IsHex(c) || c == ':' ==> !IsSpace(c)
  {
  }

  /** The vendor table looks an address of six bytes up under its digits in capitals, and finds no
      vendor for any other. */
  lemma LookedUpAs(m: Mac)
    ensures var norm := NormalMac(MacString(m));
      && (norm.Some? <==> |m| == 6)
      && (norm.Some? ==> Spells(Values(norm.value), m) && |norm.value| == 12 && forall c <- norm.value :: Capital(c))
  {
    hide Value, Values, MacString, IsHex, Digits, Trim, OnlyHex, Capital;
    var s := MacString(m);
    HexHasNoSpace(m);
    TextSpellsAddress(m);
    DigitsAreValues(s);
  }

  // ---------- registry rows ----------

  /** Trimming takes blanks from both ends, and no more can be taken. */
  lemma TrimmedParts(s: string) returns (before: string, after: string)
    ensures s == before + Trim(s) + after && (forall c <- before + after :: IsSpace(c))
    ensures Trim(s) != "" ==> !IsSpace(Trim(s)[0]) && !IsSpace(Trim(s)[|Trim(s)| - 1])
  {
    hide IsSpace;
    before := LeftPart(s);
    after := RightPart(TrimLeft(s));
    assert Trim(s) != "" ==> Trim(s)[0] == TrimLeft(s)[0];
  }

  lemma {:induction false} LeftPart(s: string) returns (before: string)
    ensures s == before + TrimLeft(s) && (forall c <- before :: IsSpace(c)) && (TrimLeft(s) != "" ==> !IsSpace(TrimLeft(s)[0]))
  {
    hide IsSpace;
    before := "";
    if s != "" && IsSpace(s[0]) {
      var rest := LeftPart(s[1..]);
      before := [s[0]] + rest;
      assert s == [s[0]] + s[1..];
    }
  }

  lemma {:induction false} RightPart(s: string) returns (after: string)
    ensures s == TrimRight(s) + after && (forall c <- after :: IsSpace(c))
    ensures TrimRight(s) != "" ==> !IsSpace(TrimRight(s)[|TrimRight(s)| - 1])
  {
    hide IsSpace;
    after := "";
    if s != "" && IsSpace(s[|s| - 1]) {
      var rest := RightPart(s[..|s| - 1]);
      after := rest + [s[|s| - 1]];
      assert s == s[..|s| - 1] + [s[|s| - 1]];
    }
  }

  lemma {:induction false} BlankHasNoValue(s: string)
    requires forall c <- s :: IsSpace(c)
    ensures Values(s) == []
  {
    hide Value, IsSpace;
    if s != "" {
      assert s[|s| - 1] in s && forall c <- s[..|s| - 1] :: c in s;
      SpaceHasNoValue(s[|s| - 1]);
      BlankHasNoValue(s[..|s| - 1]);
    }
  }

  lemma SpaceHasNoValue(c: char)
    ensures IsSpace(c) ==> Value(c) == 16
  {
  }

  lemma ValuesOfTrimmed(s: string)
    ensures Values(Trim(s)) == Values(s)
  {
    hide Value, IsSpace, Trim;
    var before, after := TrimmedParts(s);
    BlankHasNoValue(before);
    BlankHasNoValue(after);
    ValuesOfParts(before, Trim(s));
    ValuesOfParts(before + Trim(s), after);
  }

  lemma TrimTwice(s: string)
    ensures Trim(Trim(s)) == Trim(s)
  {
    hide IsSpace;
    var before, after := TrimmedParts(s);
  }

  /** MA-L, MA-M or MA-S in either case; a long s is an S in capitals. */
  predicate NamesRegistry(s: string) {
    |s| == 4 && s[0] in "Mm" && s[1] in "Aa" && s[2] == '-' && s[3] in "LlMmSs\U{017F}"
  }

  predicate SaysPrivate(s: string) {
    |s| == 7 && s[0] in "Pp" && s[1] in "Rr" && s[2] in "Ii" && s[3] in "Vv" && s[4] in "Aa" && s[5] in "Tt" && s[6] in "Ee"
  }

  lemma RegistryIff(s: string)
    ensures IsRegistry(UpperAll(s)) <==> NamesRegistry(s)
  {
    var t := UpperAll(s);
    if |s| == 4 {
      assert t == [Upper(s[0]), Upper(s[1]), Upper(s[2]), Upper(s[3])];
    }
  }

  lemma PrivateIff(s: string)
    ensures IsPrivate(s) <==> SaysPrivate(s)
  {
  }

  /** Six to twelve hex digits, with separators anywhere and blanks around. */
  predicate IsAssignment(s: string) {
    (forall c <- Trim(s) :: c in ":-." || Value(c) < 16) && 6 <= |Values(s)| <= 12
  }

  lemma AssignmentIff(s: string)
    ensures var norm := NormalPrefix(Trim(s));
      && (norm.Some? <==> IsAssignment(s))
      && (norm.Some? ==> Values(norm.value) == Values(s) && forall c <- norm.value :: Capital(c))
  {
    hide Value, Values, Trim, IsHex, Digits, Capital;
    var t := Trim(s);
    TrimTwice(s);
    ValuesOfTrimmed(s);
    DigitsAreValues(t);
    forall c ensures IsSeparator(c) || IsHex(c) <==> c in ":-." || Value(c) < 16 {
      DigitKeepsValue(c);
    }
  }

  lemma VendorWords(vendor: string)
    ensures CleanVendor(vendor) == Join(Fields(vendor), ' ') && (CleanVendor(vendor) == "" <==> Fields(vendor) == [])
  {
    hide Trim;
    CleanVendorIsClean(vendor);
    FieldsAreWords(vendor);
    if Fields(vendor) != [] {
      JoinHasNoEdges(Fields(vendor));
    }
    FieldsOfJoin(Fields(vendor));
    FieldsOfTrimmed(vendor);
  }

  lemma FieldsOfTrimmed(s: string)
    ensures Fields(Trim(s)) == Fields(s)
  {
    FieldsOfTrimLeft(s);
    FieldsOfTrimRight(TrimLeft(s));
  }

  /** A row of one of the three registries is malformed iff its second column is no assignment;
      else it is an entry of those digits, in capitals, for the words of its third column, unless
      there are none or they say "Private". */
  lemma RowIs(row: seq<string>)
    ensures var line, ours := ParseRow(row), |row| >= 3 && NamesRegistry(Trim(row[0]));
      && (line.Malformed? <==> ours && !IsAssignment(row[1]))
      && (line.Entry? <==>
            && ours && IsAssignment(row[1])
            && Fields(row[2]) != [] && !SaysPrivate(Join(Fields(row[2]), ' ')))
      && (line.Entry? ==>
            && Values(line.prefix) == Values(row[1]) && (forall c <- line.prefix :: Capital(c))
            && line.vendor == Join(Fields(row[2]), ' '))
  {
    hide Value, Values, Trim, Capital, NormalPrefix, CleanVendor, UpperAll, IsRegistry, NamesRegistry, IsPrivate, SaysPrivate;
    if |row| >= 3 {
      RegistryIff(Trim(row[0]));
      AssignmentIff(row[1]);
      VendorWords(row[2]);
      PrivateIff(CleanVendor(row[2]));
      if Trim(row[1]) == "" {
        ValuesOfTrimmed(row[1]);
        assert Values("") == [] by {
          NoValues();
        }
      }
    }
  }

  lemma NoValues()
    ensures Values("") == []
  {
  }

  lemma NoBlankFront(front: string, s: string)
    requires front <= s && (forall c <- front :: IsSpace(c)) && s != "" && !IsSpace(s[0])
    ensures front == ""
  {
  }

  /** A line with a registry before the first of two or more commas is read as the row that the
      CSV reader makes of it. */
  lemma LineIs(csv: Csv, raw: string, a: string, b: string, c: string)
    requires Trim(raw) == a + "," + b + "," + c && ',' !in a && ',' !in b && NamesRegistry(Trim(a))
    ensures ParseLine(csv, raw) == match csv(Trim(raw)) case None => Malformed case Some(row) => ParseRow(row)
  {
    hide Trim, Split, ParseRow, IsSpace, UpperAll, IsRegistry;
    var line := Trim(raw);
    var before, after := TrimmedParts(raw);
    var left, right := TrimmedParts(a);
    RegistryIff(Trim(a));
    assert line == a + [','] + (b + [','] + c);
    SplitPart(a, ',', b + [','] + c);
    SplitPart(b, ',', c);
    assert a == left + Trim(a) + right;
    assert forall x <- left :: x in left + right;
    NoBlankFront(left, line);
    assert line[0] == Trim(a)[0];
  }
}
