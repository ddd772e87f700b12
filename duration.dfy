/**
 * The reminder form's duration normalisation (`parseDurationDays` in the
 * schedule form): free text such as "7 days" or "2 weeks" becomes a whole
 * number of days. The first run of decimal digits is the count; the count
 * is multiplied by seven when the lower-cased text mentions "week"; text
 * that is empty or holds no digit gives one day.
 */
module Duration {
  import opened Wrappers
  import opened Text

  /** The longest prefix of `s` made of digits. */
  function LeadingDigits(s: string): (r: string)
    ensures |r| <= |s| && r == s[..|r|]
    ensures forall i :: 0 <= i < |r| ==> IsDigit(r[i])
    ensures |r| == |s| || !IsDigit(s[|r|])
  {
    if s != [] && IsDigit(s[0]) then [s[0]] + LeadingDigits(s[1..]) else []
  }

  /** Position `i` holds the first digit of `s`. */
  predicate FirstDigitAt(s: string, i: int) {
    0 <= i < |s| && IsDigit(s[i]) && forall j :: 0 <= j < i ==> !IsDigit(s[j])
  }

  /**
   * What the pattern `(\d+)` captures: the maximal run of digits that starts
   * at the first digit, if there is one.
   */
  function FirstDigitRun(s: string): (r: Option<string>)
    ensures r.None? <==> forall i :: 0 <= i < |s| ==> !IsDigit(s[i])
    ensures r.Some? ==> r.value != [] && forall i :: 0 <= i < |r.value| ==> IsDigit(r.value[i])
    ensures r.Some? ==> exists i :: FirstDigitAt(s, i) && r.value == LeadingDigits(s[i..])
  {
    if s == [] then None
    else if IsDigit(s[0]) then
      assert s[0..] == s && FirstDigitAt(s, 0);
      Some(LeadingDigits(s))
    else
      var r := FirstDigitRun(s[1..]);
      if r.Some? then
        var i :| FirstDigitAt(s[1..], i) && r.value == LeadingDigits(s[1..][i..]);
        assert s[1..][i..] == s[i + 1..];
        assert FirstDigitAt(s, i + 1) by {
          forall j | 0 <= j < i + 1 ensures !IsDigit(s[j]) {
            if j > 0 { assert s[j] == s[1..][j - 1]; }
          }
        }
        r
      else r
  }

  /** Whatever text comes first, the run found is the one that starts at the first digit. */
  lemma FirstDigitRunAt(s: string, i: int)
    requires FirstDigitAt(s, i)
    ensures FirstDigitRun(s) == Some(LeadingDigits(s[i..]))
  {
    var r := FirstDigitRun(s);
    var i0 :| FirstDigitAt(s, i0) && r.value == LeadingDigits(s[i0..]);
    assert i0 == i;
  }

  predicate AllDigits(ds: string) {
    forall i :: 0 <= i < |ds| ==> IsDigit(ds[i])
  }

  /** `Number(ds)` for a run of decimal digits (leading zeros are allowed). */
  function DecimalValue(ds: string): nat
    requires AllDigits(ds)
  {
    if ds == [] then 0 else DecimalValue(ds[..|ds| - 1]) * 10 + DigitValue(ds[|ds| - 1])
  }

  /** Decimal rendering of a natural number, without leading zeros. */
  function DecimalString(n: nat): (r: string)
    ensures r != [] && AllDigits(r)
    ensures DecimalValue(r) == n
  {
    if n < 10 then [DigitChar(n)]
    else
      var r := DecimalString(n / 10) + [DigitChar(n % 10)];
      assert r[..|r| - 1] == DecimalString(n / 10);
      r
  }

  /**
   * The duration, in days, that the form sends for the text `s`. The text
   * is lower-cased and trimmed first; neither step can add or remove a
   * digit or an occurrence of "week", so the contract is stated on the raw
   * text.
   */
  function ParseDurationDays(s: string): (days: nat)
    ensures FirstDigitRun(s).None? ==> days == 1
    ensures FirstDigitRun(s).Some? && Contains(ToLower(s), "week") ==>
              days == 7 * DecimalValue(FirstDigitRun(s).value)
    ensures FirstDigitRun(s).Some? && !Contains(ToLower(s), "week") ==>
              days == DecimalValue(FirstDigitRun(s).value)
  {
    if s == [] then 1
    else
      var str := Trim(ToLower(s));
      NormalisationKeepsDigitsAndWeek(s);
      DaysOfFirstRun(str);
      DaysOfNormalised(str)
  }

  /**
   * The parser after `String(s).toLowerCase().trim()`: the count is the run
   * of digits starting at the first digit of the text, times seven when the
   * text contains "week"; text without a digit gives one day.
   */
  function DaysOfNormalised(str: string): (days: nat)
    ensures (forall i :: 0 <= i < |str| ==> !IsDigit(str[i])) ==> days == 1
    ensures forall i :: FirstDigitAt(str, i) ==>
              days == (if Contains(str, "week") then 7 else 1) * DecimalValue(LeadingDigits(str[i..]))
  {
    FirstDigitRunAtAny(str);
    match FirstDigitRun(str)
    case None => 1
    case Some(run) =>
      var num := DecimalValue(run);
      if Contains(str, "week") then num * 7
      // "day" and any other text both give the count itself
      else num
  }

  lemma FirstDigitRunAtAny(s: string)
    ensures forall i :: FirstDigitAt(s, i) ==> FirstDigitRun(s) == Some(LeadingDigits(s[i..]))
  {
    forall i | FirstDigitAt(s, i) ensures FirstDigitRun(s) == Some(LeadingDigits(s[i..])) {
      FirstDigitRunAt(s, i);
    }
  }

  /** `DaysOfNormalised` in terms of the run that `FirstDigitRun` finds. */
  lemma DaysOfFirstRun(str: string)
    ensures FirstDigitRun(str).None? ==> DaysOfNormalised(str) == 1
    ensures FirstDigitRun(str).Some? ==>
              DaysOfNormalised(str) == (if Contains(str, "week") then 7 else 1) * DecimalValue(FirstDigitRun(str).value)
  {
    var r := FirstDigitRun(str);
    if r.Some? {
      var i :| FirstDigitAt(str, i) && r.value == LeadingDigits(str[i..]);
    }
  }

  /** Lower-casing and trimming keep the first digit run and whether "week" occurs. */
  lemma NormalisationKeepsDigitsAndWeek(s: string)
    ensures FirstDigitRun(Trim(ToLower(s))) == FirstDigitRun(s)
    ensures Contains(Trim(ToLower(s)), "week") <==> Contains(ToLower(s), "week")
  {
    NormalisationKeepsDigits(s);
    TrimKeepsWeek(ToLower(s));
  }

  lemma TrimKeepsWeek(x: string)
    ensures Contains(Trim(x), "week") <==> Contains(x, "week")
  {
    ContainsTrim(x, "week");
  }

  lemma NormalisationKeepsDigits(s: string)
    ensures FirstDigitRun(Trim(ToLower(s))) == FirstDigitRun(s)
  {
    FirstRunOfLower(s);
    FirstRunOfTrim(ToLower(s));
  }

  // ---------------------------------------------------------------------
  // Normalisation steps keep the first digit run
  // ---------------------------------------------------------------------

  lemma {:induction false} LeadingDigitsOfLower(s: string)
    ensures LeadingDigits(ToLower(s)) == LeadingDigits(s)
    decreases |s|
  {
    if s != [] {
      assert ToLower(s)[1..] == ToLower(s[1..]);
      LeadingDigitsOfLower(s[1..]);
    }
  }

  lemma {:induction false} FirstRunOfLower(s: string)
    ensures FirstDigitRun(ToLower(s)) == FirstDigitRun(s)
    decreases |s|
  {
    if s != [] {
      assert ToLower(s)[1..] == ToLower(s[1..]);
      if IsDigit(s[0]) {
        LeadingDigitsOfLower(s);
      } else {
        FirstRunOfLower(s[1..]);
      }
    }
  }

  /** Appending text without digits does not change the leading digits of a digit run. */
  lemma {:induction false} LeadingDigitsOfRun(ds: string, rest: string)
    requires AllDigits(ds)
    requires rest == [] || !IsDigit(rest[0])
    ensures LeadingDigits(ds + rest) == ds
    decreases |ds|
  {
    if ds != [] {
      assert (ds + rest)[1..] == ds[1..] + rest;
      LeadingDigitsOfRun(ds[1..], rest);
    }
  }

  lemma {:induction false} LeadingDigitsAppendNonDigits(p: string, w: string)
    requires forall i :: 0 <= i < |w| ==> !IsDigit(w[i])
    ensures LeadingDigits(p + w) == LeadingDigits(p)
    decreases |p|
  {
    if p != [] {
      assert (p + w)[1..] == p[1..] + w;
      LeadingDigitsAppendNonDigits(p[1..], w);
    }
  }

  lemma {:induction false} FirstRunAppendNonDigits(p: string, w: string)
    requires forall i :: 0 <= i < |w| ==> !IsDigit(w[i])
    ensures FirstDigitRun(p + w) == FirstDigitRun(p)
    decreases |p|
  {
    if p != [] {
      assert (p + w)[1..] == p[1..] + w;
      if IsDigit(p[0]) {
        LeadingDigitsAppendNonDigits(p, w);
      } else {
        FirstRunAppendNonDigits(p[1..], w);
      }
    } else {
      assert p + w == w;
    }
  }

  lemma {:induction false} FirstRunOfTrimStart(s: string)
    ensures FirstDigitRun(TrimStart(s)) == FirstDigitRun(s)
    decreases |s|
  {
    if s != [] && IsWhitespace(s[0]) {
      FirstRunOfTrimStart(s[1..]);
    }
  }

  lemma {:induction false} FirstRunOfTrimEnd(s: string)
    ensures FirstDigitRun(TrimEnd(s)) == FirstDigitRun(s)
    decreases |s|
  {
    if s != [] && IsWhitespace(s[|s| - 1]) {
      var p := s[..|s| - 1];
      assert s == p + [s[|s| - 1]];
      FirstRunAppendNonDigits(p, [s[|s| - 1]]);
      FirstRunOfTrimEnd(p);
    }
  }

  lemma FirstRunOfTrim(s: string)
    ensures FirstDigitRun(Trim(s)) == FirstDigitRun(s)
  {
    FirstRunOfTrimStart(s);
    FirstRunOfTrimEnd(TrimStart(s));
  }

  // ---------------------------------------------------------------------
  // Properties of the normalisation
  // ---------------------------------------------------------------------

  /** Empty text and text without a digit both mean one day. */
  lemma NoDigitMeansOneDay(s: string)
    requires forall i :: 0 <= i < |s| ==> !IsDigit(s[i])
    ensures ParseDurationDays(s) == 1
  {
  }

  lemma {:induction false} FirstRunSkipsNonDigits(prefix: string, s: string)
    requires forall i :: 0 <= i < |prefix| ==> !IsDigit(prefix[i])
    ensures FirstDigitRun(prefix + s) == FirstDigitRun(s)
    decreases |prefix|
  {
    if prefix == [] {
      assert prefix + s == s;
    } else {
      assert (prefix + s)[1..] == prefix[1..] + s;
      FirstRunSkipsNonDigits(prefix[1..], s);
    }
  }

  /** The first digit run of `prefix + DecimalString(n) + unit` is the rendering of `n`. */
  lemma FirstRunOfRendering(prefix: string, n: nat, unit: string)
    requires forall i :: 0 <= i < |prefix| ==> !IsDigit(prefix[i])
    requires unit == [] || !IsDigit(unit[0])
    ensures FirstDigitRun(prefix + DecimalString(n) + unit) == Some(DecimalString(n))
  {
    var ds := DecimalString(n);
    assert prefix + ds + unit == prefix + (ds + unit);
    FirstRunSkipsNonDigits(prefix, ds + unit);
    LeadingDigitsOfRun(ds, unit);
    assert (ds + unit)[0] == ds[0];
  }

  /**
   * A count written in decimal, after text without digits and before a unit
   * word, is read back exactly when no "w" occurs around it: "-3 days" is 3,
   * so a minus sign is not a sign and nothing is clamped.
   */
  lemma DaysRoundTrip(prefix: string, n: nat, unit: string)
    requires forall i :: 0 <= i < |prefix| ==> !IsDigit(prefix[i])
    requires unit == [] || !IsDigit(unit[0])
    requires 'w' !in prefix + unit && 'W' !in prefix + unit
    ensures ParseDurationDays(prefix + DecimalString(n) + unit) == n
  {
    var ds := DecimalString(n);
    FirstRunOfRendering(prefix, n, unit);
    assert forall c :: c in ds ==> IsDigit(c);
    assert forall c :: c in prefix + ds + unit ==> c in prefix + unit || c in ds;
    NoWeekWithoutW(prefix + ds + unit);
  }

  /** Without a "w" or "W" the lower-cased text cannot contain "week". */
  lemma NoWeekWithoutW(s: string)
    requires 'w' !in s && 'W' !in s
    ensures !Contains(ToLower(s), "week")
  {
    var low := ToLower(s);
    forall i | 0 <= i < |low| ensures low[i] != 'w' {
      assert s[i] in s;
    }
    NotContainsWithoutFirstChar(low, "week");
  }

  /** An occurrence of a pattern that lower-casing leaves alone survives lower-casing. */
  lemma OccursAtLower(s: string, pat: string, i: nat)
    requires OccursAt(s, pat, i)
    requires forall j :: 0 <= j < |pat| ==> LowerChar(pat[j]) == pat[j]
    ensures OccursAt(ToLower(s), pat, i)
  {
    var low := ToLower(s);
    forall j | 0 <= j < |pat| ensures low[i..i + |pat|][j] == pat[j] {
      assert s[i + j] == s[i..i + |pat|][j];
    }
  }

  /** A count followed by a unit that mentions "week" is multiplied by seven. */
  lemma WeeksRoundTrip(n: nat, unit: string, k: nat)
    requires unit == [] || !IsDigit(unit[0])
    requires OccursAt(unit, "week", k)
    ensures ParseDurationDays(DecimalString(n) + unit) == 7 * n
  {
    OccursAtLower(unit, "week", k);
    LoweredWeeksRoundTrip(n, unit, k);
  }

  /** The same when "week" only appears once the unit is lower-cased, as in "2 WEEKS". */
  lemma LoweredWeeksRoundTrip(n: nat, unit: string, k: nat)
    requires unit == [] || !IsDigit(unit[0])
    requires OccursAt(ToLower(unit), "week", k)
    ensures ParseDurationDays(DecimalString(n) + unit) == 7 * n
  {
    var ds := DecimalString(n);
    FirstRunOfRendering([], n, unit);
    assert [] + ds + unit == ds + unit;
    ToLowerAppend(ds, unit);
    OccursAtShift(ToLower(ds), ToLower(unit), "week", k);
  }

  lemma {:induction false} ToLowerIdempotent(s: string)
    ensures ToLower(ToLower(s)) == ToLower(s)
  {
  }

  /** Letter case never matters: "2 WEEKS" means what "2 weeks" means. */
  lemma CaseInsensitive(s: string)
    ensures ParseDurationDays(ToLower(s)) == ParseDurationDays(s)
  {
    FirstRunOfLower(s);
    ToLowerIdempotent(s);
  }

  /** The renderings the examples below use. */
  lemma SmallRenderings()
    ensures DecimalString(0) == "0" && DecimalString(1) == "1" && DecimalString(2) == "2"
    ensures DecimalString(3) == "3" && DecimalString(7) == "7"
  {
    assert DigitChar(0) == '0' && DigitChar(1) == '1' && DigitChar(2) == '2';
    assert DigitChar(3) == '3' && DigitChar(7) == '7';
  }

  /** Only the first digit run counts, and "week" anywhere wins over "day". */
  lemma FirstRunWins()
    ensures ParseDurationDays("1 week 2 days") == 7
  {
    SmallRenderings();
    assert "1 week 2 days" == DecimalString(1) + " week 2 days";
    WeeksRoundTrip(1, " week 2 days", 1);
  }

  lemma ExampleWeeks()
    ensures ParseDurationDays("2 weeks") == 14
  {
    SmallRenderings();
    assert "2 weeks" == DecimalString(2) + " weeks";
    WeeksRoundTrip(2, " weeks", 1);
  }

  lemma ExampleDays()
    ensures ParseDurationDays("7 days") == 7
  {
    SmallRenderings();
    assert "7 days" == [] + DecimalString(7) + " days";
    DaysRoundTrip([], 7, " days");
  }

  /** Zero days is sent as zero: nothing is clamped to a minimum of one. */
  lemma ExampleZeroDays()
    ensures ParseDurationDays("0 days") == 0
  {
    SmallRenderings();
    assert "0 days" == [] + DecimalString(0) + " days";
    DaysRoundTrip([], 0, " days");
  }

  /** A minus sign is not part of the count. */
  lemma ExampleNegative()
    ensures ParseDurationDays("-3 days") == 3
  {
    SmallRenderings();
    assert "-3 days" == "-" + DecimalString(3) + " days";
    DaysRoundTrip("-", 3, " days");
  }

  /** The Kelvin sign lower-cases to "k", so "2 wee" followed by it is read as two weeks. */
  lemma ExampleKelvin()
    ensures ParseDurationDays("2 wee" + [KelvinSign]) == 14
  {
    SmallRenderings();
    var unit := " wee" + [KelvinSign];
    assert ToLower(unit) == " week";
    assert "2 wee" + [KelvinSign] == DecimalString(2) + unit;
    LoweredWeeksRoundTrip(2, unit, 1);
  }

  /** Free text without a number falls back to one day. */
  lemma ExampleNoNumber()
    ensures ParseDurationDays("as needed") == 1
  {
    NoDigitMeansOneDay("as needed");
  }
}
