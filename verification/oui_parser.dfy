/** The reader of the IEEE registry (internal/oui/parser.go). */
module OuiParser {
  import opened AssetModel
  import opened Words

  predicate IsSeparator(c: char) { c == ':' || c == '-' || c == '.' }

  predicate IsUpperHex(c: char) { '0' <= c <= '9' || 'A' <= c <= 'F' }

  predicate IsHex(c: char) { IsUpperHex(c) || 'a' <= c <= 'f' }

  function UpperHex(c: char): char { if 'a' <= c <= 'f' then c - 'a' + 'A' else c }

  /** The hex digits of a text, in capitals. */
  function Digits(s: string): string {
    if s == "" then ""
    else Digits(s[..|s| - 1]) + if IsHex(s[|s| - 1]) then [UpperHex(s[|s| - 1])] else ""
  }

  predicate OnlyHex(s: string) { forall c <- s :: IsSeparator(c) || IsHex(c) }

  /** What `collectHex` answers. */
  function Hex(input: string): Option<string> {
    var s := Trim(input);
    if OnlyHex(s) && Digits(s) != "" then Some(Digits(s)) else None
  }

  /** `collectHex`. */
  method CollectHex(input: string) returns (hex: Option<string>)
    ensures hex == Hex(input)
  {
    var s, b := Trim(input), "";
    for i := 0 to |s|
      invariant b == Digits(s[..i]) && OnlyHex(s[..i])
    {
      assert s[..i + 1][..i] == s[..i] && s[i] in s[..i + 1];
      var c := s[i];
      if c == ':' || c == '-' || c == '.' {
        continue;
      } else if '0' <= c <= '9' {
        b := b + [c];
      } else if 'a' <= c <= 'f' {
        b := b + [c - 'a' + 'A'];
      } else if 'A' <= c <= 'F' {
        b := b + [c];
      } else {
        return None;
      }
    }
    assert s[..|s|] == s;
    return if b == "" then None else Some(b);
  }

  /** A key of the table: 6 to 12 capital hex digits. */
  predicate IsPrefixKey(s: string) { 6 <= |s| <= 12 && forall c <- s :: IsUpperHex(c) }

  /** `normalizePrefix`; None is its error. */
  function NormalPrefix(input: string): Option<string> {
    var hex := Hex(Trim(input));
    if hex.Some? && 6 <= |hex.value| <= 12 then hex else None
  }

  lemma {:induction false} DigitsAreUpper(s: string)
    ensures forall c <- Digits(s) :: IsUpperHex(c)
  {
    if s != "" {
      DigitsAreUpper(s[..|s| - 1]);
    }
  }

  lemma UpperStays(c: char)
    requires IsUpperHex(c)
    ensures IsHex(c) && UpperHex(c) == c
  {
  }

  lemma {:induction false} DigitsOfUpper(s: string)
    requires forall c <- s :: IsUpperHex(c)
    ensures Digits(s) == s
  {
    hide IsUpperHex, IsHex, UpperHex;
    if s != "" {
      assert s[|s| - 1] in s && forall c <- s[..|s| - 1] :: c in s;
      UpperStays(s[|s| - 1]);
      DigitsOfUpper(s[..|s| - 1]);
      assert s == s[..|s| - 1] + [s[|s| - 1]];
    }
  }

  lemma TrimOfHex(s: string)
    requires forall c <- s :: !IsSpace(c)
    ensures Trim(s) == s
  {
  }

  /** A normalised prefix is a key, and keys are exactly the fixed points. */
  lemma NormalPrefixIsKey(input: string)
    ensures NormalPrefix(input).Some? ==> IsPrefixKey(NormalPrefix(input).value)
    ensures NormalPrefix(input) == Some(input) <==> IsPrefixKey(input)
  {
    DigitsAreUpper(Trim(Trim(input)));
    if IsPrefixKey(input) {
      TrimOfHex(input);
      DigitsOfUpper(input);
    }
  }

  // ---------- lines ----------

  /** A letter in capitals, as far as the letters of the registry names go: the only other
      letters that Unicode folds onto them are the dotless i and the long s. */
  function Upper(c: char): char {
    if 'a' <= c <= 'z' then c - 'a' + 'A'
    else if c as int == 0x131 then 'I'
    else if c as int == 0x17F then 'S'
    else c
  }

  function UpperAll(s: string): string { seq(|s|, i requires 0 <= i < |s| => Upper(s[i])) }

  predicate IsRegistry(s: string) { s == "MA-L" || s == "MA-M" || s == "MA-S" }

  /** strings.EqualFold with "Private". */
  predicate IsPrivate(s: string) {
    |s| == 7 && forall i | 0 <= i < 7 :: s[i] == "Private"[i] || s[i] == "pRIVATE"[i]
  }

  predicate IsComment(line: string) {
    (line != "" && (line[0] == '#' || line[0] == ';')) || (|line| >= 2 && line[..2] == "//")
  }

  /** The text before the first comma; None without two commas. */
  function Head(line: string): Option<string> {
    if |Split(line, ',')| < 3 then None else Some(Split(line, ',')[0])
  }

  datatype Line = Skipped | Malformed | Entry(prefix: string, vendor: string)

  /** What a CSV reader makes of a line; None is its error. */
  type Csv = string -> Option<seq<string>>

  /** `parseLine`. */
  function ParseLine(csv: Csv, raw: string): Line {
    var line := Trim(raw);
    if line == "" || IsComment(line) || Head(line).None? then Skipped
    else
      var head := UpperAll(Trim(Head(line).value));
      if head != "REGISTRY" && !IsRegistry(head) then Skipped
      else if csv(line).None? then Malformed
      else ParseRow(csv(line).value)
  }

  function ParseRow(row: seq<string>): Line {
    if |row| < 3 || !IsRegistry(UpperAll(Trim(row[0]))) then Skipped
    else if Trim(row[1]) == "" || NormalPrefix(Trim(row[1])).None? then Malformed
    else
      var vendor := CleanVendor(row[2]);
      if vendor == "" || IsPrivate(vendor) then Skipped else Entry(NormalPrefix(Trim(row[1])).value, vendor)
  }

  /** An entry that is read is in normal form already. */
  lemma EntriesAreClean(csv: Csv, raw: string)
    ensures var e := ParseLine(csv, raw);
      e.Entry? ==> IsPrefixKey(e.prefix) && NormalPrefix(e.prefix) == Some(e.prefix)
                   && e.vendor != "" && CleanVendor(e.vendor) == e.vendor
  {
    hide NormalPrefix, CleanVendor, Split, UpperAll, Trim;
    var line := Trim(raw);
    if csv(line).Some? {
      var row := csv(line).value;
      if |row| >= 3 {
        NormalPrefixIsKey(Trim(row[1]));
        CleanVendorIsClean(row[2]);
        var e := ParseRow(row);
        if e.Entry? {
          NormalPrefixIsKey(e.prefix);
        }
      }
    }
  }

  /** Line k is the last one with an entry for its prefix. */
  predicate LastFor(csv: Csv, lines: seq<string>, k: nat)
    requires k < |lines|
  {
    && ParseLine(csv, lines[k]).Entry?
    && forall j | k < j < |lines| ::
         !(ParseLine(csv, lines[j]).Entry? && ParseLine(csv, lines[j]).prefix == ParseLine(csv, lines[k]).prefix)
  }

  /** `entries` holds the last entry for each prefix, and nothing else. */
  ghost predicate HoldsLast(csv: Csv, lines: seq<string>, entries: map<string, string>) {
    && (forall k | 0 <= k < |lines| :: ParseLine(csv, lines[k]).Entry? ==> ParseLine(csv, lines[k]).prefix in entries)
    && (forall p <- entries.Keys :: exists k | 0 <= k < |lines| ::
          LastFor(csv, lines, k) && ParseLine(csv, lines[k]) == Entry(p, entries[p]))
  }

  /** `Parse`, with the numbers of the malformed lines in place of its error. */
  method Parse(csv: Csv, lines: seq<string>) returns (entries: map<string, string>, malformed: seq<nat>)
    ensures HoldsLast(csv, lines, entries)
    ensures forall n :: n in malformed <==> 0 < n <= |lines| && ParseLine(csv, lines[n - 1]) == Malformed
    ensures forall i, j :: 0 <= i < j < |malformed| ==> malformed[i] < malformed[j]
  {
    hide ParseLine;
    entries, malformed := map[], [];
    for k := 0 to |lines|
      invariant HoldsLast(csv, lines[..k], entries)
      invariant forall n :: n in malformed <==> 0 < n <= k && ParseLine(csv, lines[n - 1]) == Malformed
      invariant forall i, j :: 0 <= i < j < |malformed| ==> malformed[i] < malformed[j]
    {
      var line := ParseLine(csv, lines[k]);
      HoldsOneMore(csv, lines[..k], entries, lines[k]);
      assert lines[..k] + [lines[k]] == lines[..k + 1];
      match line
      case Malformed =>
        assert forall i | 0 <= i < |malformed| :: malformed[i] in malformed;
        malformed := malformed + [k + 1];
      case Skipped =>
      case Entry(prefix, vendor) => entries := entries[prefix := vendor];
    }
    assert lines[..|lines|] == lines;
  }

  lemma HoldsOneMore(csv: Csv, lines: seq<string>, entries: map<string, string>, line: string)
    requires HoldsLast(csv, lines, entries)
    ensures var e := ParseLine(csv, line);
      HoldsLast(csv, lines + [line], if e.Entry? then entries[e.prefix := e.vendor] else entries)
  {
    hide ParseLine;
    var e, longer := ParseLine(csv, line), lines + [line];
    var after := if e.Entry? then entries[e.prefix := e.vendor] else entries;
    forall p <- after.Keys
      ensures exists k | 0 <= k < |longer| :: LastFor(csv, longer, k) && ParseLine(csv, longer[k]) == Entry(p, after[p])
    {
      if e.Entry? && e.prefix == p {
        assert LastFor(csv, longer, |lines|);
      } else {
        var k :| 0 <= k < |lines| && LastFor(csv, lines, k) && ParseLine(csv, lines[k]) == Entry(p, entries[p]);
        assert LastFor(csv, longer, k);
      }
    }
  }

  /** Everything that `Parse` returns is in normal form. */
  lemma ParsedIsClean(csv: Csv, lines: seq<string>, entries: map<string, string>)
    requires HoldsLast(csv, lines, entries)
    ensures forall p <- entries.Keys :: NormalPrefix(p) == Some(p) && entries[p] != "" && CleanVendor(entries[p]) == entries[p]
  {
    hide ParseLine, NormalPrefix, CleanVendor;
    forall p <- entries.Keys
      ensures NormalPrefix(p) == Some(p) && entries[p] != "" && CleanVendor(entries[p]) == entries[p]
    {
      var k :| 0 <= k < |lines| && LastFor(csv, lines, k) && ParseLine(csv, lines[k]) == Entry(p, entries[p]);
      EntriesAreClean(csv, lines[k]);
    }
  }
}
