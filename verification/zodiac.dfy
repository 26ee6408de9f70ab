/** The sun-sign lookup of the payment-verification handler: twelve signs,
    each an inclusive range from a start (month, day) to an end (month, day),
    scanned in table order; the first sign whose range contains the date
    wins, and Capricorn (the range that wraps from December into January)
    is also the fallback. The month and day are taken as given integers:
    how the handler obtains them from the birth-date string is not modelled. */
module Zodiac {

  datatype Element = Fire | Earth | Air | Water

  datatype Sign = Sign(
    name: string, symbol: string, element: Element,
    startMonth: int, startDay: int, endMonth: int, endDay: int)

  const Capricorn := Sign("Capricorn", "\U{2651}", Earth, 12, 22, 1, 19)
  const Aquarius := Sign("Aquarius", "\U{2652}", Air, 1, 20, 2, 18)
  const Pisces := Sign("Pisces", "\U{2653}", Water, 2, 19, 3, 20)
  const Aries := Sign("Aries", "\U{2648}", Fire, 3, 21, 4, 19)
  const Taurus := Sign("Taurus", "\U{2649}", Earth, 4, 20, 5, 20)
  const Gemini := Sign("Gemini", "\U{264A}", Air, 5, 21, 6, 20)
  const Cancer := Sign("Cancer", "\U{264B}", Water, 6, 21, 7, 22)
  const Leo := Sign("Leo", "\U{264C}", Fire, 7, 23, 8, 22)
  const Virgo := Sign("Virgo", "\U{264D}", Earth, 8, 23, 9, 22)
  const Libra := Sign("Libra", "\U{264E}", Air, 9, 23, 10, 22)
  const Scorpio := Sign("Scorpio", "\U{264F}", Water, 10, 23, 11, 21)
  const Sagittarius := Sign("Sagittarius", "\U{2650}", Fire, 11, 22, 12, 21)

  /** The table in scan order. */
  const Signs: seq<Sign> := [Capricorn, Aquarius, Pisces, Aries, Taurus, Gemini,
                             Cancer, Leo, Virgo, Libra, Scorpio, Sagittarius]

  /** The range that runs from December into January. */
  predicate Wraps(s: Sign) {
    s.startMonth == 12 && s.endMonth == 1
  }

  /** Both ends inclusive; the wrapping range is tested separately, as the
      handler does, although the two tests coincide for it. */
  predicate Matches(s: Sign, month: int, day: int) {
    if Wraps(s) then (month == 12 && day >= s.startDay) || (month == 1 && day <= s.endDay)
    else (month == s.startMonth && day >= s.startDay) || (month == s.endMonth && day <= s.endDay)
  }

  /** Index of the first sign at or after `i` whose range holds the date,
      or `|Signs|` when none does. */
  function FirstMatch(month: int, day: int, i: nat): (k: nat)
    requires i <= |Signs|
    ensures i <= k <= |Signs|
    ensures k < |Signs| ==> Matches(Signs[k], month, day)
    ensures forall j | i <= j < k :: !Matches(Signs[j], month, day)
    decreases |Signs| - i
  {
    if i == |Signs| then i
    else if Matches(Signs[i], month, day) then i
    else FirstMatch(month, day, i + 1)
  }

  /** `getZodiac`: the first matching sign, else Capricorn. */
  function GetZodiac(month: int, day: int): (s: Sign)
    ensures s in Signs
  {
    var k := FirstMatch(month, day, 0);
    if k < |Signs| then Signs[k] else Signs[0]
  }

  // ---- an independent description of the table ------------------------

  /** The last day of `month` that still belongs to the sign ending in it. */
  function Cusp(month: int): int
    requires 1 <= month <= 12
  {
    [19, 18, 20, 19, 20, 20, 22, 22, 22, 22, 21, 21][month - 1]
  }

  /** The sign a date falls in: up to the cusp it is the sign ending in
      that month, after it the sign starting in that month. */
  function ReferenceIndex(month: int, day: int): (i: nat)
    requires 1 <= month <= 12
    ensures i < 12
  {
    if day <= Cusp(month) then month - 1 else month % 12
  }

  /** For an in-range month exactly one sign matches, whatever the day,
      and it is the reference sign. */
  lemma MatchesExactlyReference(month: int, day: int, i: nat)
    requires 1 <= month <= 12 && i < 12
    ensures Matches(Signs[i], month, day) <==> i == ReferenceIndex(month, day)
  {
    assert Signs[i] == [Capricorn, Aquarius, Pisces, Aries, Taurus, Gemini,
                        Cancer, Leo, Virgo, Libra, Scorpio, Sagittarius][i];
  }

  /** No sign matches a month outside 1..12. */
  lemma NoMatchOutsideYear(month: int, day: int, i: nat)
    requires month < 1 || month > 12
    requires i < 12
    ensures !Matches(Signs[i], month, day)
  {
    assert Signs[i] == [Capricorn, Aquarius, Pisces, Aries, Taurus, Gemini,
                        Cancer, Leo, Virgo, Libra, Scorpio, Sagittarius][i];
  }

  /** The scan finds the reference sign, and falls through to the default
      exactly when the month is out of range. */
  lemma FirstMatchIsReference(month: int, day: int)
    ensures 1 <= month <= 12 ==> FirstMatch(month, day, 0) == ReferenceIndex(month, day)
    ensures FirstMatch(month, day, 0) == |Signs| <==> month < 1 || month > 12
  {
    var k := FirstMatch(month, day, 0);
    if 1 <= month <= 12 {
      var r := ReferenceIndex(month, day);
      MatchesExactlyReference(month, day, r);
      if k < r {
        MatchesExactlyReference(month, day, k);
      }
      if k < |Signs| {
        MatchesExactlyReference(month, day, k);
      }
    } else if k < |Signs| {
      NoMatchOutsideYear(month, day, k);
    }
  }

  lemma SignsDistinct(i: nat, j: nat)
    requires i < 12 && j < 12 && i != j
    ensures Signs[i] != Signs[j]
  {
    assert Signs[i].name != Signs[j].name by {
      assert Signs[i] == [Capricorn, Aquarius, Pisces, Aries, Taurus, Gemini,
                          Cancer, Leo, Virgo, Libra, Scorpio, Sagittarius][i];
      assert Signs[j] == [Capricorn, Aquarius, Pisces, Aries, Taurus, Gemini,
                          Cancer, Leo, Virgo, Libra, Scorpio, Sagittarius][j];
    }
  }

  /** Every sign other than Capricorn is returned exactly for the dates
      from its start day in its start month and up to its end day in its
      end month, both ends inclusive. */
  lemma NonWrappingRange(month: int, day: int, i: nat)
    requires 1 <= i < 12
    ensures var s := Signs[i];
      GetZodiac(month, day) == s <==>
        (month == s.startMonth && day >= s.startDay) || (month == s.endMonth && day <= s.endDay)
  {
    FirstMatchIsReference(month, day);
    var k := FirstMatch(month, day, 0);
    assert !Wraps(Signs[i]) by {
      assert Signs[i] == [Capricorn, Aquarius, Pisces, Aries, Taurus, Gemini,
                          Cancer, Leo, Virgo, Libra, Scorpio, Sagittarius][i];
    }
    if 1 <= month <= 12 {
      MatchesExactlyReference(month, day, i);
      if k != i {
        SignsDistinct(k, i);
      }
    } else {
      NoMatchOutsideYear(month, day, i);
      SignsDistinct(0, i);
    }
  }

  /** Capricorn covers December 22 onwards and January up to the 19th via
      the wrap-around test, and is also what an out-of-range month gets. */
  lemma CapricornRange(month: int, day: int)
    ensures GetZodiac(month, day) == Capricorn <==>
      (month == 12 && day >= 22) || (month == 1 && day <= 19) || month < 1 || month > 12
  {
    FirstMatchIsReference(month, day);
    var k := FirstMatch(month, day, 0);
    if 1 <= month <= 12 {
      MatchesExactlyReference(month, day, 0);
      if k != 0 {
        SignsDistinct(k, 0);
      }
    }
  }

  /** The boundary dates of the handler's table. */
  lemma BoundaryExamples()
    ensures GetZodiac(12, 22) == Capricorn && GetZodiac(1, 19) == Capricorn
    ensures GetZodiac(1, 20) == Aquarius && GetZodiac(3, 21) == Aries
    ensures GetZodiac(8, 20) == Leo && GetZodiac(12, 21) == Sagittarius
  {
    CapricornRange(12, 22);
    CapricornRange(1, 19);
    NonWrappingRange(1, 20, 1);
    NonWrappingRange(3, 21, 3);
    NonWrappingRange(8, 20, 7);
    NonWrappingRange(12, 21, 11);
  }
}
