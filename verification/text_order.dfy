/** Stored times compared as text, which is what MIN and MAX do in the upserts: right across
    seconds, and inside one second right except where one fraction continues the other. */
module TextOrder {
  import opened Clock
  import opened Decimals
  import opened Calendar
  import opened TimeText

  /** Text order, character by character (SQLite's BINARY collation on ASCII text). */
  predicate Less(a: string, b: string) {
    b != "" && (a == "" || a[0] < b[0] || (a[0] == b[0] && Less(a[1..], b[1..])))
  }

  function TextMin(a: string, b: string): string { if Less(b, a) then b else a }

  function TextMax(a: string, b: string): string { if Less(a, b) then b else a }

  lemma {:induction false} LessAsymmetric(a: string, b: string)
    requires Less(a, b)
    ensures !Less(b, a) && a != b
  {
    if a != "" && a[0] == b[0] {
      LessAsymmetric(a[1..], b[1..]);
    }
  }

  lemma {:induction false} LessTotal(a: string, b: string)
    ensures Less(a, b) || Less(b, a) || a == b
  {
    if a != "" && b != "" && a[0] == b[0] {
      LessTotal(a[1..], b[1..]);
      assert a == [a[0]] + a[1..] && b == [b[0]] + b[1..];
    }
  }

  lemma {:induction false} SameFront(p: string, a: string, b: string)
    ensures Less(p + a, p + b) <==> Less(a, b)
  {
    if p == "" {
      assert p + a == a && p + b == b;
    } else {
      SameFront(p[1..], a, b);
      assert (p + a)[1..] == p[1..] + a && (p + b)[1..] == p[1..] + b;
    }
  }

  lemma {:induction false} SmallerFront(p: string, q: string, a: string, b: string)
    requires |p| == |q| && Less(p, q)
    ensures Less(p + a, q + b)
  {
    if p[0] == q[0] {
      SmallerFront(p[1..], q[1..], a, b);
      assert (p + a)[1..] == p[1..] + a && (q + b)[1..] == q[1..] + b;
    }
  }

  lemma {:induction false} SmallerPad(m: nat, n: nat, k: nat)
    requires m < n < Pow10(k)
    ensures Less(Pad(m, k), Pad(n, k))
  {
    var p, q, a, b := Pad(m / 10, k - 1), Pad(n / 10, k - 1), [Digit(m % 10)], [Digit(n % 10)];
    if m / 10 < n / 10 {
      SmallerPad(m / 10, n / 10, k - 1);
      SmallerFront(p, q, a, b);
    } else {
      SameFront(p, a, b);
    }
  }

  /** Two field lists of equal widths compare as their first different field does. */
  lemma FieldsCompare(p: string, q: string, sep: string, a: string, b: string)
    requires |p| == |q| && (Less(p, q) || (p == q && Less(a, b)))
    ensures Less(p + sep + a, q + sep + b)
  {
    hide Less;
    assert p + sep + a == p + (sep + a) && q + sep + b == q + (sep + b);
    if Less(p, q) {
      SmallerFront(p, q, sep + a, sep + b);
    } else {
      SameFront(sep, a, b);
      SameFront(p, sep + a, sep + b);
    }
  }

  lemma EarlierDate(c: Date, d: Date)
    requires IsDate(c) && IsDate(d) && c.year < 10000 && d.year < 10000 && Before(c, d)
    ensures Less(DateText(c), DateText(d))
  {
    hide Pad, Less;
    assert Pow10(2) == 100 && Pow10(4) == 10000;
    if c.year < d.year {
      SmallerPad(c.year, d.year, 4);
    } else if c.month < d.month {
      SmallerPad(c.month, d.month, 2);
    } else {
      SmallerPad(c.day, d.day, 2);
    }
    var y, m := Pad(c.year, 4), Pad(c.month, 2);
    if c.year < d.year || c.month < d.month {
      FieldsCompare(y, Pad(d.year, 4), "-", m, Pad(d.month, 2));
    }
    FieldsCompare(y + "-" + m, Pad(d.year, 4) + "-" + Pad(d.month, 2), "-", Pad(c.day, 2), Pad(d.day, 2));
  }

  lemma EarlierClock(j: nat, k: nat)
    requires j < k < DAY_SECONDS
    ensures Less(ClockText(j), ClockText(k))
  {
    hide Pad, Less;
    assert Pow10(2) == 100;
    var h, i := j / 3600, k / 3600;
    var m, n := j / 60 % 60, k / 60 % 60;
    assert h < i || (h == i && m < n) || (h == i && m == n && j % 60 < k % 60) by {
      SecondsOfDay(j);
      SecondsOfDay(k);
    }
    if h < i {
      SmallerPad(h, i, 2);
    } else if m < n {
      SmallerPad(m, n, 2);
    } else {
      SmallerPad(j % 60, k % 60, 2);
    }
    if h < i || m < n {
      FieldsCompare(Pad(h, 2), Pad(i, 2), ":", Pad(m, 2), Pad(n, 2));
    }
    FieldsCompare(Pad(h, 2) + ":" + Pad(m, 2), Pad(i, 2) + ":" + Pad(n, 2), ":", Pad(j % 60, 2), Pad(k % 60, 2));
  }

  /** An earlier second is a smaller text. */
  lemma EarlierSecond(j: nat, k: nat)
    requires j < k < DAYS_TO_YEAR_10000 * DAY_SECONDS
    ensures Less(SecondText(j), SecondText(k))
  {
    hide DateText, ClockText, Less;
    var c, d := DateOf(j / DAY_SECONDS), DateOf(k / DAY_SECONDS);
    FourDigitYears(j / DAY_SECONDS);
    FourDigitYears(k / DAY_SECONDS);
    if j / DAY_SECONDS < k / DAY_SECONDS {
      LaterDay(j / DAY_SECONDS, k / DAY_SECONDS);
      EarlierDate(c, d);
    } else {
      EarlierClock(j % DAY_SECONDS, k % DAY_SECONDS);
    }
    FieldsCompare(DateText(c), DateText(d), "T", ClockText(j % DAY_SECONDS), ClockText(k % DAY_SECONDS));
  }

  // ---------- inside one second ----------

  /** `a` and `b` lie in one second, `a` is no zero time, and the digits of the later
      fraction continue those of the earlier one (a whole second has none). */
  ghost predicate Misordered(a: Time, b: Time) {
    && a != ZERO_TIME && a / SECOND == b / SECOND
    && Digits(a) <= Digits(b)
  }

  /** The fraction digits that the text of t carries. */
  function Digits(t: Time): string { if t % SECOND == 0 then "" else FractionDigits(t % SECOND) }

  /** Digit strings that are ordered when padded with zeros stay so when a Z ends them,
      unless the larger one continues the smaller. */
  lemma {:induction false} DigitsWithZ(f: string, h: string, k: nat)
    requires AllDigits(f) && AllDigits(h) && |f| <= k && |h| <= k
    requires Less(f + Zeros(k - |f|), h + Zeros(k - |h|))
    ensures Less(f + "Z", h + "Z") <==> !(f <= h)
  {
    var p, q := f + Zeros(k - |f|), h + Zeros(k - |h|);
    LessAsymmetric(p, q);
    if f != "" && h != "" {
      assert f[0] in f && h[0] in h;
      assert (f + "Z")[1..] == f[1..] + "Z" && (h + "Z")[1..] == h[1..] + "Z";
      assert f <= h <==> f[0] == h[0] && f[1..] <= h[1..];
      if f[0] == h[0] {
        assert p[1..] == f[1..] + Zeros(k - |f|) && q[1..] == h[1..] + Zeros(k - |h|);
        DigitsWithZ(f[1..], h[1..], k - 1);
      }
    } else {
      assert f != "" ==> f[0] in f;
      assert h != "" ==> h[0] in h;
      assert f == "" && h == "" ==> p == q;
    }
  }

  lemma FractionPads(ns: nat)
    requires 0 < ns < SECOND
    ensures var f := FractionDigits(ns);
      AllDigits(f) && 1 <= |f| <= 9 && f + Zeros(9 - |f|) == Pad(ns, 9) && FractionText(ns) == "." + f
  {
    FractionReads(ns);
    TrimPads(Pad(ns, 9));
  }

  lemma WholeCompares(n: nat)
    requires 0 < n < SECOND
    ensures !Less("Z", FractionText(n) + "Z")
  {
    hide FractionDigits;
    FractionPads(n);
  }

  lemma FractionsCompare(m: nat, n: nat)
    requires m < n < SECOND
    ensures var f, h := if m == 0 then "" else FractionDigits(m), FractionDigits(n);
      Less(FractionText(m) + "Z", FractionText(n) + "Z") <==> !(f <= h)
  {
    hide Less, FractionDigits, Pad;
    var h := FractionDigits(n);
    if m == 0 {
      WholeCompares(n);
      assert FractionText(m) + "Z" == "Z" && "" <= h;
    } else {
      hide *;
      FractionPads(n);
      FractionPads(m);
      var f := FractionDigits(m);
      TenToNine();
      SmallerPad(m, n, 9);
      DigitsWithZ(f, h, 9);
      SameFront(".", f + "Z", h + "Z");
      assert FractionText(m) + "Z" == "." + (f + "Z") && FractionText(n) + "Z" == "." + (h + "Z");
    }
  }

  lemma TenToNine()
    ensures Pow10(9) == SECOND
  {
  }

  /** Text order is time order except exactly on the misordered pairs. */
  lemma TextOrderIsTimeOrder(a: Time, b: Time)
    requires a < b
    ensures Less(TimeFmt(a), TimeFmt(b)) <==> !Misordered(a, b)
  {
    hide SecondText, FractionText, FractionDigits;
    if a != ZERO_TIME {
      var x, y := FractionText(a % SECOND) + "Z", FractionText(b % SECOND) + "Z";
      assert TimeFmt(a) == SecondText(a / SECOND) + x && TimeFmt(b) == SecondText(b / SECOND) + y;
      if a / SECOND < b / SECOND {
        EarlierSecond(a / SECOND, b / SECOND);
        SmallerFront(SecondText(a / SECOND), SecondText(b / SECOND), x, y);
      } else {
        FractionsCompare(a % SECOND, b % SECOND);
        SameFront(SecondText(a / SECOND), x, y);
      }
    }
  }

  /** MIN and MAX of stored texts pick one of the two times; the true one iff the pair is not
      misordered, and in any case one from the same second. */
  lemma TextMinMax(a: Time, b: Time)
    ensures TextMin(TimeFmt(a), TimeFmt(b)) == TextMin(TimeFmt(b), TimeFmt(a))
    ensures TextMax(TimeFmt(a), TimeFmt(b)) == TextMax(TimeFmt(b), TimeFmt(a))
    ensures a < b ==>
      if Misordered(a, b) then
        a / SECOND == b / SECOND && TextMin(TimeFmt(a), TimeFmt(b)) == TimeFmt(b) && TextMax(TimeFmt(a), TimeFmt(b)) == TimeFmt(a)
      else TextMin(TimeFmt(a), TimeFmt(b)) == TimeFmt(a) && TextMax(TimeFmt(a), TimeFmt(b)) == TimeFmt(b)
  {
    hide Less, TimeFmt, Misordered;
    var s, t := TimeFmt(a), TimeFmt(b);
    LessTotal(s, t);
    if Less(s, t) {
      LessAsymmetric(s, t);
    }
    if Less(t, s) {
      LessAsymmetric(t, s);
    }
    if a < b {
      TextOrderIsTimeOrder(a, b);
      assert Misordered(a, b) ==> a / SECOND == b / SECOND by {
        MisorderedSecond(a, b);
      }
      ParseUndoesFmt(a);
      ParseUndoesFmt(b);
    }
  }

  lemma MisorderedSecond(a: Time, b: Time)
    ensures Misordered(a, b) ==> a / SECOND == b / SECOND
  {
  }

  /** Times written with equally many fraction digits are never misordered, so for them text
      MIN and MAX are the earlier and the later time. */
  lemma EqualDigitsCompare(a: Time, b: Time)
    requires |Digits(a)| == |Digits(b)|
    ensures TextMin(TimeFmt(a), TimeFmt(b)) == TimeFmt(MinTime(a, b))
    ensures TextMax(TimeFmt(a), TimeFmt(b)) == TimeFmt(MaxTime(a, b))
  {
    hide Less, TimeFmt;
    TextMinMax(a, b);
    TextMinMax(b, a);
    if a != b && Digits(a) == Digits(b) && a / SECOND == b / SECOND {
      DigitsTell(a, b);
    }
    assert !Misordered(a, b) || a == b;
    assert !Misordered(b, a) || a == b;
  }

  lemma DigitsTell(a: Time, b: Time)
    requires Digits(a) == Digits(b) && a / SECOND == b / SECOND
    ensures a == b
  {
    if a % SECOND > 0 {
      FractionReads(a % SECOND);
    }
    if b % SECOND > 0 {
      FractionReads(b % SECOND);
    }
  }

  /** Whatever the fractions, the pick is less than a second off. */
  lemma TextMinMaxWithinSecond(a: Time, b: Time)
    ensures var low, high := ParseTime(TextMin(TimeFmt(a), TimeFmt(b))), ParseTime(TextMax(TimeFmt(a), TimeFmt(b)));
      && MinTime(a, b) <= low < MinTime(a, b) + SECOND
      && MaxTime(a, b) - SECOND < high <= MaxTime(a, b)
  {
    hide TextMin, TextMax, TimeFmt, ParseTime, Misordered;
    ParseUndoesFmt(a);
    ParseUndoesFmt(b);
    TextMinMax(a, b);
    TextMinMax(b, a);
    if a == b {
      PickOfEquals(TimeFmt(a));
    }
  }

  lemma PickOfEquals(s: string)
    ensures TextMin(s, s) == s && TextMax(s, s) == s
  {
  }

  /** A pair for which MIN is wrong: the whole second, written without a fraction, sorts
      behind the half second that follows it. */
  lemma MisorderedExample()
    ensures var a: Time, b: Time := SECOND, SECOND + SECOND / 2;
      a < b && TextMin(TimeFmt(a), TimeFmt(b)) == TimeFmt(b)
  {
    var a: Time, b: Time := SECOND, SECOND + SECOND / 2;
    TextMinMax(a, b);
    assert Digits(a) == "";
  }
}
