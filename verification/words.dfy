/** Splitting and joining, and blank-separated words as Go's strings package sees them. */
module Words {
  /** The parts with a separator between them. */
  function Join<T>(parts: seq<seq<T>>, sep: T): seq<T> {
    if parts == [] then [] else if |parts| == 1 then parts[0] else parts[0] + [sep] + Join(parts[1..], sep)
  }

  /** The parts between the separators; one more than there are separators. */
  function Split<T(==)>(s: seq<T>, sep: T): (parts: seq<seq<T>>)
    ensures parts != []
  {
    if s == [] then [[]]
    else
      var rest := Split(s[1..], sep);
      if s[0] == sep then [[]] + rest else [[s[0]] + rest[0]] + rest[1..]
  }

  lemma {:induction false} SplitWhole<T>(part: seq<T>, sep: T)
    requires sep !in part
    ensures Split(part, sep) == [part]
  {
    if part != [] {
      SplitWhole(part[1..], sep);
      assert part == [part[0]] + part[1..];
    }
  }

  lemma {:induction false} SplitPart<T>(part: seq<T>, sep: T, rest: seq<T>)
    requires sep !in part
    ensures Split(part + [sep] + rest, sep) == [part] + Split(rest, sep)
  {
    if part == [] {
      assert part + [sep] + rest == [sep] + rest;
      assert ([sep] + rest)[1..] == rest;
    } else {
      assert (part + [sep] + rest)[1..] == part[1..] + [sep] + rest;
      SplitPart(part[1..], sep, rest);
      assert [part[0]] + part[1..] == part;
      assert ([part[1..]] + Split(rest, sep))[1..] == Split(rest, sep);
    }
  }

  /** Splitting what was joined gives the parts back, if no part has a separator in it. */
  lemma {:induction false} SplitOfJoin<T>(parts: seq<seq<T>>, sep: T)
    requires parts != [] && forall p <- parts :: sep !in p
    ensures Split(Join(parts, sep), sep) == parts
  {
    assert parts[0] in parts;
    if |parts| == 1 {
      SplitWhole(parts[0], sep);
    } else {
      SplitPart(parts[0], sep, Join(parts[1..], sep));
      SplitOfJoin(parts[1..], sep);
    }
  }

  lemma {:induction false} JoinMore<T>(parts: seq<seq<T>>, sep: T, last: seq<T>)
    ensures Join(parts + [last], sep) == if parts == [] then last else Join(parts, sep) + [sep] + last
  {
    if parts == [] {
      assert parts + [last] == [last];
    } else {
      assert (parts + [last])[1..] == parts[1..] + [last];
      JoinMore(parts[1..], sep, last);
    }
  }

  /** unicode.IsSpace. */
  predicate IsSpace(c: char) {
    var n := c as int;
    || 9 <= n <= 13 || n == 0x20 || n == 0x85 || n == 0xA0 || n == 0x1680
    || 0x2000 <= n <= 0x200A || n == 0x2028 || n == 0x2029 || n == 0x202F || n == 0x205F || n == 0x3000
  }

  function TrimLeft(s: string): string { if s != "" && IsSpace(s[0]) then TrimLeft(s[1..]) else s }

  function TrimRight(s: string): string {
    if s != "" && IsSpace(s[|s| - 1]) then TrimRight(s[..|s| - 1]) else s
  }

  /** strings.TrimSpace. */
  function Trim(s: string): string { TrimRight(TrimLeft(s)) }

  predicate IsWord(s: string) { s != "" && forall c <- s :: !IsSpace(c) }

  function WordLen(s: string): (n: nat)
    ensures n <= |s| && (forall c <- s[..n] :: !IsSpace(c)) && (n < |s| ==> IsSpace(s[n]))
  {
    if s == "" || IsSpace(s[0]) then 0
    else
      assert forall n | 0 < n <= |s| :: s[..n] == [s[0]] + s[1..][..n - 1];
      1 + WordLen(s[1..])
  }

  /** strings.Fields. */
  function Fields(s: string): seq<string>
    decreases |s|
  {
    if s == "" then []
    else if IsSpace(s[0]) then Fields(s[1..])
    else [s[..WordLen(s)]] + Fields(s[WordLen(s)..])
  }

  lemma {:induction false} FieldsAreWords(s: string)
    ensures forall w <- Fields(s) :: IsWord(w)
    decreases |s|
  {
    if s != "" {
      FieldsAreWords(if IsSpace(s[0]) then s[1..] else s[WordLen(s)..]);
    }
  }

  lemma {:induction false} WordLenOf(w: string, rest: string)
    requires forall c <- w :: !IsSpace(c)
    requires rest == "" || IsSpace(rest[0])
    ensures WordLen(w + rest) == |w|
  {
    if w == "" {
      assert w + rest == rest;
    } else {
      assert (w + rest)[1..] == w[1..] + rest;
      WordLenOf(w[1..], rest);
    }
  }

  /** Splitting what was joined gives the words back. */
  lemma {:induction false} FieldsOfJoin(words: seq<string>)
    requires forall w <- words :: IsWord(w)
    ensures Fields(Join(words, ' ')) == words
  {
    if words != [] {
      var w := words[0];
      assert w in words;
      var rest := if |words| == 1 then "" else " " + Join(words[1..], ' ');
      assert Join(words, ' ') == w + rest;
      WordLenOf(w, rest);
      assert (w + rest)[..|w|] == w && (w + rest)[|w|..] == rest;
      if |words| > 1 {
        FieldsOfJoin(words[1..]);
        assert rest[1..] == Join(words[1..], ' ');
        assert words == [w] + words[1..];
      }
    }
  }

  lemma {:induction false} JoinHasNoEdges(words: seq<string>)
    requires words != [] && forall w <- words :: IsWord(w)
    ensures var s := Join(words, ' '); s != "" && !IsSpace(s[0]) && !IsSpace(s[|s| - 1])
  {
    assert words[0] in words;
    if |words| > 1 {
      JoinHasNoEdges(words[1..]);
    }
  }

  lemma {:induction false} FieldsOfTrimRight(s: string)
    ensures Fields(TrimRight(s)) == Fields(s)
  {
    if s != "" && IsSpace(s[|s| - 1]) {
      FieldsOfTrimRight(s[..|s| - 1]);
      FieldsOfBlankEnd(s[..|s| - 1], s[|s| - 1]);
      assert s == s[..|s| - 1] + [s[|s| - 1]];
    }
  }

  lemma {:induction false} FieldsOfBlankEnd(s: string, blank: char)
    requires IsSpace(blank)
    ensures Fields(s + [blank]) == Fields(s)
    decreases |s|
  {
    if s == "" {
      assert s + [blank] == [blank];
    } else if IsSpace(s[0]) {
      assert (s + [blank])[1..] == s[1..] + [blank];
      FieldsOfBlankEnd(s[1..], blank);
    } else {
      var n := WordLen(s);
      assert s + [blank] == s[..n] + (s[n..] + [blank]);
      WordLenOf(s[..n], s[n..] + [blank]);
      assert (s + [blank])[..n] == s[..n] && (s + [blank])[n..] == s[n..] + [blank];
      FieldsOfBlankEnd(s[n..], blank);
    }
  }

  lemma {:induction false} FieldsOfTrimLeft(s: string)
    ensures Fields(TrimLeft(s)) == Fields(s)
  {
    if s != "" && IsSpace(s[0]) {
      FieldsOfTrimLeft(s[1..]);
    }
  }

  /** `cleanVendor` of internal/oui/parser.go. */
  function CleanVendor(vendor: string): string { Join(Fields(Trim(vendor)), ' ') }

  /** Cleaning keeps the words, and a clean name stays as it is. */
  lemma CleanVendorIsClean(vendor: string)
    ensures Fields(CleanVendor(vendor)) == Fields(vendor)
    ensures CleanVendor(CleanVendor(vendor)) == CleanVendor(vendor)
  {
    FieldsOfTrimLeft(vendor);
    FieldsOfTrimRight(TrimLeft(vendor));
    FieldsAreWords(vendor);
    FieldsOfJoin(Fields(vendor));
    if Fields(vendor) != [] {
      JoinHasNoEdges(Fields(vendor));
    }
  }
}
