/** The life-path number of the payment-verification handler: drop the
    dashes of the birth-date string, add up its characters read as
    numbers, then keep replacing the total by the sum of its decimal digits
    until it is at most 9 or a master number (11, 22 or 33). */
module Numerology {
  import opened Common

  /** Characters `Number(c)` reads as 0: JavaScript white space and line
      terminators. */
  predicate IsJsSpace(c: char) {
    c == '\t' || c == '\n' || c == '\U{000B}' || c == '\U{000C}' || c == '\r' || c == ' '
    || c == '\U{00A0}' || c == '\U{1680}' || ('\U{2000}' <= c <= '\U{200A}')
    || c == '\U{2028}' || c == '\U{2029}' || c == '\U{202F}' || c == '\U{205F}'
    || c == '\U{3000}' || c == '\U{FEFF}'
  }

  /** `Number(c)` for a one-character string; None stands for NaN. */
  function CharNumber(c: char): (r: Option<nat>)
    ensures r.Some? ==> r.value <= 9
  {
    if '0' <= c <= '9' then Some(c as int - '0' as int)
    else if IsJsSpace(c) then Some(0)
    else None
  }

  /** `s.split('').map(Number).reduce((a, b) => a + b, 0)`; NaN absorbs. */
  function SumChars(s: string): Option<nat>
    decreases |s|
  {
    if |s| == 0 then Some(0)
    else
      match (SumChars(s[..|s| - 1]), CharNumber(s[|s| - 1]))
      case (Some(a), Some(b)) => Some(a + b)
      case _ => None
  }

  /** `s.replace(/-/g, '')`. */
  function RemoveDashes(s: string): string {
    RemoveChar(s, '-')
  }

  /** The sum of the decimal digits of `n`. */
  function DigitSum(n: nat): nat
    decreases n
  {
    if n < 10 then n else DigitSum(n / 10) + n % 10
  }

  /** `String(n).split('').map(Number).reduce((a, b) => a + b, 0)` is the
      arithmetic digit sum. */
  lemma {:induction false} DigitSumOfDecimal(n: nat)
    ensures SumChars(Decimal(n)) == Some(DigitSum(n))
    decreases n
  {
    var s := Decimal(n);
    if n < 10 {
      assert s[..0] == "";
    } else {
      DivideByBase(n, 10);
      DigitSumOfDecimal(n / 10);
      assert s[..|s| - 1] == Decimal(n / 10);
    }
  }

  lemma {:induction false} DigitSumAtMost(n: nat)
    ensures DigitSum(n) <= n
    ensures n > 0 ==> DigitSum(n) > 0
    decreases n
  {
    if n >= 10 {
      DigitSumAtMost(n / 10);
    }
  }

  /** Why the handler's loop stops: a number above 9 has a smaller digit sum. */
  lemma DigitSumDrops(n: nat)
    requires n > 9
    ensures DigitSum(n) < n
  {
    DigitSumAtMost(n / 10);
  }

  lemma {:induction false} DigitSumMod9(n: nat)
    ensures DigitSum(n) % 9 == n % 9
    decreases n
  {
    if n >= 10 {
      var q, r := n / 10, n % 10;
      DigitSumMod9(q);
      assert DigitSum(n) == DigitSum(q) + r;
      assert n == 10 * q + r;
      AppendDigitMod9(DigitSum(q), q, r);
    }
  }

  /** Appending a decimal digit adds it modulo 9, since 10 is 1 modulo 9. */
  lemma AppendDigitMod9(d: nat, q: nat, r: nat)
    requires d % 9 == q % 9
    ensures (d + r) % 9 == (10 * q + r) % 9
  {
    var c := q % 9;
    var a, b := d / 9, q / 9;
    assert d == 9 * a + c;
    assert q == 9 * b + c;
    assert d + r == 9 * a + (c + r);
    assert 10 * q + r == 9 * (10 * b + c) + (c + r);
    MultipleOf9(a, c + r);
    MultipleOf9(10 * b + c, c + r);
  }

  lemma MultipleOf9(k: int, x: int)
    ensures (9 * k + x) % 9 == x % 9
  {
  }

  predicate IsMaster(n: nat) {
    n == 11 || n == 22 || n == 33
  }

  /** The `while (num > 9 && !master) num = digitSum(num)` loop. */
  function Reduce(n: nat): (r: nat)
    ensures r <= 9 || IsMaster(r)
    ensures r <= n
    decreases n
  {
    if n <= 9 || IsMaster(n) then n
    else
      DigitSumDrops(n);
      Reduce(DigitSum(n))
  }

  /** The loop keeps the number's residue modulo 9 (so it is a digital
      root unless a master number is met on the way), and leaves a number
      that already qualifies alone. */
  lemma {:induction false} ReduceProperties(n: nat)
    ensures Reduce(n) % 9 == n % 9
    ensures n <= 9 || IsMaster(n) ==> Reduce(n) == n
    ensures n > 0 ==> Reduce(n) > 0
    decreases n
  {
    if !(n <= 9 || IsMaster(n)) {
      DigitSumDrops(n);
      DigitSumMod9(n);
      DigitSumAtMost(n);
      ReduceProperties(DigitSum(n));
    }
  }

  /** `getLifePath(birthDate)`; None when some character is NaN to `Number`. */
  function LifePath(birthDate: string): (r: Option<nat>)
    ensures r.Some? ==> r.value <= 9 || IsMaster(r.value)
  {
    match SumChars(RemoveDashes(birthDate))
    case None => None
    case Some(total) => Some(Reduce(total))
  }

  /** The handler's example: 1990-05-15 sums to 30, which reduces to 3. */
  lemma LifePathExample(date: string)
    requires date == "1990-05-15"
    ensures SumChars(RemoveDashes(date)) == Some(30)
    ensures LifePath(date) == Some(3)
  {
    DashesOfExample(date);
    DigitsOfExample(RemoveDashes(date));
    assert 30 / 10 == 3 && 30 % 10 == 0;
    assert DigitSum(30) == DigitSum(3) + 0;
  }

  lemma DashesOfExample(date: string)
    requires date == "1990-05-15"
    ensures RemoveDashes(date) == "19900515"
  {
    assert date == "1990" + "-" + "05" + "-" + "15";
    DashesOfThree("1990", "05", "15");
    assert "1990" + "05" + "15" == "19900515";
  }

  /** Three dash-free fields joined by dashes lose exactly the dashes. */
  lemma DashesOfThree(a: string, b: string, c: string)
    requires '-' !in a && '-' !in b && '-' !in c
    ensures RemoveDashes(a + "-" + b + "-" + c) == a + b + c
  {
    assert a + "-" + b + "-" + c == a + "-" + (b + "-" + c);
    RemoveDashesSplit(a, b + "-" + c);
    RemoveDashesSplit(b, c);
    DashFreeUnchanged(a);
    DashFreeUnchanged(b);
    DashFreeUnchanged(c);
  }

  /** Removing dashes around one dash. */
  lemma {:induction false} RemoveDashesSplit(a: string, b: string)
    ensures RemoveDashes(a + "-" + b) == RemoveDashes(a) + RemoveDashes(b)
    decreases |a|
  {
    if |a| == 0 {
      assert (a + "-" + b)[1..] == b;
    } else {
      assert (a + "-" + b)[1..] == a[1..] + "-" + b;
      RemoveDashesSplit(a[1..], b);
    }
  }

  lemma {:induction false} DashFreeUnchanged(s: string)
    requires '-' !in s
    ensures RemoveDashes(s) == s
    decreases |s|
  {
    if |s| > 0 {
      DashFreeUnchanged(s[1..]);
      assert s == [s[0]] + s[1..];
    }
  }

  lemma DigitsOfExample(digits: string)
    requires digits == "19900515"
    ensures SumChars(digits) == Some(30)
  {
    assert digits == "1990" + "0515";
    YearDigits("1990");
    DayDigits("0515");
    SumCharsConcat("1990", "0515");
  }

  lemma YearDigits(s: string)
    requires s == "1990"
    ensures SumChars(s) == Some(19)
  {
    assert SumChars("1") == Some(1) by {
      SumCharsSnoc("", '1');
      assert "" + ['1'] == "1";
    }
    assert SumChars("19") == Some(10) by {
      SumCharsSnoc("1", '9');
      assert "1" + ['9'] == "19";
    }
    assert SumChars("199") == Some(19) by {
      SumCharsSnoc("19", '9');
      assert "19" + ['9'] == "199";
    }
    SumCharsSnoc("199", '0');
    assert "199" + ['0'] == s;
  }

  lemma DayDigits(s: string)
    requires s == "0515"
    ensures SumChars(s) == Some(11)
  {
    assert SumChars("0") == Some(0) by {
      SumCharsSnoc("", '0');
      assert "" + ['0'] == "0";
    }
    assert SumChars("05") == Some(5) by {
      SumCharsSnoc("0", '5');
      assert "0" + ['5'] == "05";
    }
    assert SumChars("051") == Some(6) by {
      SumCharsSnoc("05", '1');
      assert "05" + ['1'] == "051";
    }
    SumCharsSnoc("051", '5');
    assert "051" + ['5'] == s;
  }

  /** Summing characters works piecewise; NaN on either side is NaN. */
  lemma {:induction false} SumCharsConcat(a: string, b: string)
    ensures SumChars(a + b) ==
      if SumChars(a).Some? && SumChars(b).Some? then Some(SumChars(a).value + SumChars(b).value) else None
    decreases |b|
  {
    if |b| == 0 {
      assert a + b == a;
    } else {
      var b' := b[..|b| - 1];
      SumCharsConcat(a, b');
      assert (a + b)[..|a + b| - 1] == a + b';
      assert (a + b)[|a + b| - 1] == b[|b| - 1];
    }
  }

  lemma SumCharsSnoc(s: string, c: char)
    ensures SumChars(s + [c]) ==
      if SumChars(s).Some? && CharNumber(c).Some? then Some(SumChars(s).value + CharNumber(c).value) else None
  {
    assert (s + [c])[..|s|] == s;
  }

  /** A letter in the date makes the result NaN. */
  lemma LifePathNaN(birthDate: string, i: nat)
    requires i < |birthDate| && CharNumber(birthDate[i]).None? && birthDate[i] != '-'
    ensures LifePath(birthDate) == None
  {
    NaNSurvivesDashRemoval(birthDate, i);
  }

  lemma {:induction false} NaNSurvivesDashRemoval(s: string, i: nat)
    requires i < |s| && CharNumber(s[i]).None? && s[i] != '-'
    ensures SumChars(RemoveDashes(s)) == None
    decreases |s|
  {
    var r := RemoveDashes(s);
    if i == 0 {
      SumCharsWithNaN([s[0]], RemoveDashes(s[1..]));
      assert r == [s[0]] + RemoveDashes(s[1..]);
    } else {
      NaNSurvivesDashRemoval(s[1..], i - 1);
      if s[0] != '-' {
        SumCharsNaNTail([s[0]], RemoveDashes(s[1..]));
      }
    }
  }

  /** NaN in the first part poisons the whole sum. */
  lemma {:induction false} SumCharsWithNaN(a: string, b: string)
    requires |a| > 0 && CharNumber(a[|a| - 1]).None?
    ensures SumChars(a + b) == None
    decreases |b|
  {
    if |b| == 0 {
      assert a + b == a;
    } else {
      SumCharsWithNaN(a, b[..|b| - 1]);
      assert (a + b)[..|a + b| - 1] == a + b[..|b| - 1];
    }
  }

  /** NaN in the second part poisons the whole sum. */
  lemma {:induction false} SumCharsNaNTail(a: string, b: string)
    requires SumChars(b) == None
    ensures SumChars(a + b) == None
    decreases |b|
  {
    if |b| > 0 {
      assert (a + b)[..|a + b| - 1] == a + b[..|b| - 1];
      if SumChars(b[..|b| - 1]) == None {
        SumCharsNaNTail(a, b[..|b| - 1]);
      }
    }
  }
}
