/** Times as the database stores them: RFC 3339 text in UTC with the trailing zeros of the
    fraction dropped, compared as text (internal/storage/sqlite.go, `timeFmt`, `parseTimeStr`
    and the MIN and MAX of the upserts). */
module TimeText {
  import opened Clock
  import opened Decimals
  import opened Calendar

  // ---------- writing ----------

  function DateText(d: Date): (s: string)
    ensures |s| == 10
  {
    Pad(d.year, 4) + "-" + Pad(d.month, 2) + "-" + Pad(d.day, 2)
  }

  /** The time of day, from seconds since midnight. */
  function ClockText(k: nat): (s: string)
    ensures |s| == 8
  {
    Pad(k / 3600, 2) + ":" + Pad(k / 60 % 60, 2) + ":" + Pad(k % 60, 2)
  }

  /** The first 19 characters of a stored time, which say its second. */
  function SecondText(k: nat): (s: string)
    ensures |s| == 19
  {
    DateText(DateOf(k / DAY_SECONDS)) + "T" + ClockText(k % DAY_SECONDS)
  }

  function Trim(s: string): string {
    if s != "" && s[|s| - 1] == '0' then Trim(s[..|s| - 1]) else s
  }

  /** The digits of the fraction, without trailing zeros; none for a whole second. */
  function FractionDigits(ns: nat): string { Trim(Pad(ns, 9)) }

  function FractionText(ns: nat): string {
    if ns == 0 then "" else "." + FractionDigits(ns)
  }

  /** `timeFmt`. */
  function TimeFmt(t: Time): string {
    if t == ZERO_TIME then "" else SecondText(t / SECOND) + FractionText(t % SECOND) + "Z"
  }

  // ---------- reading ----------

  predicate DigitsAt(s: string, i: nat, k: nat) { i + k <= |s| && forall j | i <= j < i + k :: IsDigit(s[j]) }

  /** The texts that are read: four-digit years from 0001 on, UTC, up to nine fraction digits. */
  predicate Readable(s: string) {
    && |s| >= 20 && s[4] == '-' && s[7] == '-' && s[10] == 'T' && s[13] == ':' && s[16] == ':' && s[|s| - 1] == 'Z'
    && DigitsAt(s, 0, 4) && DigitsAt(s, 5, 2) && DigitsAt(s, 8, 2)
    && DigitsAt(s, 11, 2) && DigitsAt(s, 14, 2) && DigitsAt(s, 17, 2)
    && IsDate(Date(Value(s[0..4]), Value(s[5..7]), Value(s[8..10])))
    && Value(s[11..13]) < 24 && Value(s[14..16]) < 60 && Value(s[17..19]) < 60
    && (|s| == 20 || (22 <= |s| <= 30 && s[19] == '.' && DigitsAt(s, 20, |s| - 21)))
  }

  function Zeros(k: nat): (s: string)
    ensures |s| == k && AllDigits(s)
  {
    if k == 0 then "" else Zeros(k - 1) + "0"
  }

  function FractionValue(s: string): nat
    requires |s| <= 9 && AllDigits(s)
  {
    Value(s + Zeros(9 - |s|))
  }

  lemma DayNumberBound(d: Date)
    requires IsDate(d) && d.year < 10000
    ensures 0 <= DayNumber(d) < DAYS_TO_YEAR_10000
  {
    LeapCount(d.year);
    YearStart(0, d.year - 1);
    YearStart(d.year, 9999);
  }

  /** Seconds from the first instant, as the first 19 characters say. */
  function ReadSecond(s: string): (k: nat)
    requires Readable(s)
    ensures k < DAYS_TO_YEAR_10000 * DAY_SECONDS
  {
    var d := Date(Value(s[0..4]), Value(s[5..7]), Value(s[8..10]));
    ValueBound(s[0..4]);
    assert Pow10(4) == 10000;
    DayNumberBound(d);
    DayNumber(d) * DAY_SECONDS + Value(s[11..13]) * 3600 + Value(s[14..16]) * 60 + Value(s[17..19])
  }

  function ReadFraction(s: string): (ns: nat)
    requires Readable(s)
    ensures ns < SECOND
  {
    if |s| == 20 then 0
    else
      ValueBound(s[20..|s| - 1] + Zeros(9 - (|s| - 21)));
      assert Pow10(9) == SECOND;
      FractionValue(s[20..|s| - 1])
  }

  /** `parseTimeStr`: text that is empty or cannot be read gives the zero time, since the
      callers drop the error. */
  function ParseTime(s: string): Time {
    if Readable(s) then ReadSecond(s) * SECOND + ReadFraction(s) else ZERO_TIME
  }

  // ---------- reading back ----------

  lemma {:induction false} TrimPads(s: string)
    requires AllDigits(s)
    ensures AllDigits(Trim(s)) && |Trim(s)| <= |s| && Trim(s) + Zeros(|s| - |Trim(s)|) == s
    ensures Trim(s) != "" ==> Trim(s)[|Trim(s)| - 1] != '0'
  {
    if s != "" && s[|s| - 1] == '0' {
      TrimPads(s[..|s| - 1]);
      var t := Trim(s);
      assert t + Zeros(|s| - |t|) == (t + Zeros(|s| - 1 - |t|)) + "0";
    }
  }

  lemma {:induction false} ZerosValue(k: nat)
    ensures Value(Zeros(k)) == 0
  {
    if k > 0 {
      ZerosValue(k - 1);
      assert Zeros(k)[..k - 1] == Zeros(k - 1);
    }
  }

  lemma FractionReads(ns: nat)
    requires 0 < ns < SECOND
    ensures var f := FractionDigits(ns);
      1 <= |f| <= 9 && AllDigits(f) && f[|f| - 1] != '0' && FractionValue(f) == ns
  {
    assert Pow10(9) == SECOND;
    PadValue(ns, 9);
    TrimPads(Pad(ns, 9));
    ZerosValue(9);
    assert "" + Zeros(9) == Zeros(9);
  }

  lemma DigitsOfPart(s: string, i: nat, k: nat)
    requires i + k <= |s| && AllDigits(s[i..i + k])
    ensures DigitsAt(s, i, k)
  {
    forall j | i <= j < i + k ensures IsDigit(s[j]) {
      assert s[j] == s[i..i + k][j - i] && s[j] in s[i..i + k];
    }
  }

  /** Where the fields of a stored time are. */
  lemma Layout(d: Date, k: nat, tail: string)
    ensures var s := DateText(d) + "T" + ClockText(k) + tail;
      && s[0..4] == Pad(d.year, 4) && s[4] == '-' && s[5..7] == Pad(d.month, 2) && s[7] == '-' && s[8..10] == Pad(d.day, 2)
      && s[10] == 'T' && s[11..13] == Pad(k / 3600, 2) && s[13] == ':' && s[14..16] == Pad(k / 60 % 60, 2)
      && s[16] == ':' && s[17..19] == Pad(k % 60, 2) && s[19..] == tail
  {
  }

  lemma PadReads(n: nat, k: nat)
    requires n < Pow10(k)
    ensures Value(Pad(n, k)) == n && AllDigits(Pad(n, k)) && |Pad(n, k)| == k
  {
    PadValue(n, k);
  }

  /** The second part of a stored time reads back, whatever fraction follows. */
  lemma SecondReads(k: nat, tail: string)
    requires k < DAYS_TO_YEAR_10000 * DAY_SECONDS
    ensures var s := SecondText(k) + tail;
      && DigitsAt(s, 0, 4) && DigitsAt(s, 5, 2) && DigitsAt(s, 8, 2)
      && DigitsAt(s, 11, 2) && DigitsAt(s, 14, 2) && DigitsAt(s, 17, 2)
      && s[4] == '-' && s[7] == '-' && s[10] == 'T' && s[13] == ':' && s[16] == ':' && s[19..] == tail
      && Date(Value(s[0..4]), Value(s[5..7]), Value(s[8..10])) == DateOf(k / DAY_SECONDS)
      && Value(s[11..13]) == k % DAY_SECONDS / 3600 && Value(s[14..16]) == k % DAY_SECONDS / 60 % 60
      && Value(s[17..19]) == k % DAY_SECONDS % 60
  {
    hide Pad, Value;
    var d, c := DateOf(k / DAY_SECONDS), k % DAY_SECONDS;
    var s := SecondText(k) + tail;
    FourDigitYears(k / DAY_SECONDS);
    assert Pow10(2) == 100 && Pow10(4) == 10000;
    PadReads(d.year, 4);
    PadReads(d.month, 2);
    PadReads(d.day, 2);
    PadReads(c / 3600, 2);
    PadReads(c / 60 % 60, 2);
    PadReads(c % 60, 2);
    Layout(d, c, tail);
    assert s == DateText(d) + "T" + ClockText(c) + tail;
    DigitsOfPart(s, 0, 4);
    DigitsOfPart(s, 5, 2);
    DigitsOfPart(s, 8, 2);
    DigitsOfPart(s, 11, 2);
    DigitsOfPart(s, 14, 2);
    DigitsOfPart(s, 17, 2);
  }

  lemma FractionTail(ns: nat)
    requires ns < SECOND
    ensures var tail := FractionText(ns) + "Z";
      && tail[|tail| - 1] == 'Z' && (ns == 0 ==> tail == "Z")
      && (ns > 0 ==> 3 <= |tail| <= 11 && tail[0] == '.' && tail[1..|tail| - 1] == FractionDigits(ns))
      && (ns > 0 ==> AllDigits(tail[1..|tail| - 1]) && FractionValue(tail[1..|tail| - 1]) == ns)
  {
    if ns > 0 {
      FractionReads(ns);
    }
  }

  lemma SecondsOfDay(c: nat)
    requires c < DAY_SECONDS
    ensures c / 3600 * 3600 + c / 60 % 60 * 60 + c % 60 == c && c / 3600 < 24
  {
  }

  lemma StoredReads(k: nat, ns: nat)
    requires k < DAYS_TO_YEAR_10000 * DAY_SECONDS && ns < SECOND
    ensures var s := SecondText(k) + (FractionText(ns) + "Z");
      Readable(s) && ReadSecond(s) == k && ReadFraction(s) == ns
  {
    hide DateOf, DayNumber, Value, FractionValue, FractionText, SecondText, FractionDigits;
    var tail := FractionText(ns) + "Z";
    var s := SecondText(k) + tail;
    SecondReads(k, tail);
    DayNumberOfDate(k / DAY_SECONDS);
    SecondsOfDay(k % DAY_SECONDS);
    FractionTail(ns);
    assert s[|s| - 1] == s[19..][|tail| - 1];
    if ns > 0 {
      assert s[19] == tail[0] && s[20..|s| - 1] == tail[1..|tail| - 1];
      DigitsOfPart(s, 20, |s| - 21);
    }
  }

  /** `parseTimeStr` undoes `timeFmt`, to the nanosecond. */
  lemma ParseUndoesFmt(t: Time)
    ensures ParseTime(TimeFmt(t)) == t
  {
    hide Readable, ReadSecond, ReadFraction, FractionText, SecondText;
    if t != ZERO_TIME {
      StoredReads(t / SECOND, t % SECOND);
      assert TimeFmt(t) == SecondText(t / SECOND) + (FractionText(t % SECOND) + "Z");
    } else {
      assert !Readable("") by {
        EmptyIsNotRead();
      }
    }
  }

  lemma EmptyIsNotRead()
    ensures !Readable("")
  {
  }
}
