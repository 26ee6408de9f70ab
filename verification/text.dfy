/** The string rewrites the reading pages apply to the generated text:
    global literal replacement (`s.replace(/lit/g, rep)`), `split` on a
    literal separator, and the heading rewrite that turns `**x**` (x a
    non-empty run of characters other than `*`) into a marked-up heading.
    All three scan left to right and never revisit replaced text. */
module Text {
  import opened Common

  /** `s.replace(/pat/g, rep)` for a literal, non-empty pattern. */
  function ReplaceAll(s: string, pat: string, rep: string): string
    requires |pat| > 0
    decreases |s|
  {
    if |s| == 0 then ""
    else if StartsWith(s, pat) then rep + ReplaceAll(s[|pat|..], pat, rep)
    else [s[0]] + ReplaceAll(s[1..], pat, rep)
  }

  /** `s.split(sep)` for a non-empty separator: never empty, and
      `"".split(sep)` is `[""]`. */
  function Split(s: string, sep: string): (parts: seq<string>)
    requires |sep| > 0
    ensures |parts| >= 1
    decreases |s|
  {
    if |s| == 0 then [""]
    else if StartsWith(s, sep) then [""] + Split(s[|sep|..], sep)
    else
      var rest := Split(s[1..], sep);
      [[s[0]] + rest[0]] + rest[1..]
  }

  /** `parts.join(sep)`. */
  function Join(parts: seq<string>, sep: string): string
    requires |parts| >= 1
    decreases |parts|
  {
    if |parts| == 1 then parts[0] else parts[0] + sep + Join(parts[1..], sep)
  }

  // ---- replacement and splitting agree -------------------------------

  lemma JoinConsHead(c: char, parts: seq<string>, sep: string)
    requires |parts| >= 1
    ensures Join([[c] + parts[0]] + parts[1..], sep) == [c] + Join(parts, sep)
  {
    var q := [[c] + parts[0]] + parts[1..];
    assert q[1..] == parts[1..];
  }

  /** Replacing every separator is splitting on it and joining with the
      replacement. */
  lemma {:induction false} ReplaceIsSplitJoin(s: string, pat: string, rep: string)
    requires |pat| > 0
    ensures ReplaceAll(s, pat, rep) == Join(Split(s, pat), rep)
    decreases |s|
  {
    if |s| == 0 {
    } else if StartsWith(s, pat) {
      ReplaceIsSplitJoin(s[|pat|..], pat, rep);
      ReplaceMatchStep(s, pat, rep);
      JoinEmptyHead(Split(s[|pat|..], pat), rep);
    } else {
      ReplaceIsSplitJoin(s[1..], pat, rep);
      ReplaceOrdinaryStep(s, pat, rep);
      SplitOrdinaryStep(s, pat);
      JoinConsHead(s[0], Split(s[1..], pat), rep);
    }
  }

  /** One step of ReplaceAll and Split where the pattern starts. */
  lemma ReplaceMatchStep(s: string, pat: string, rep: string)
    requires |pat| > 0 && StartsWith(s, pat)
    ensures ReplaceAll(s, pat, rep) == rep + ReplaceAll(s[|pat|..], pat, rep)
    ensures Split(s, pat) == [""] + Split(s[|pat|..], pat)
  {
  }

  /** One step of ReplaceAll where the pattern does not start. */
  lemma ReplaceOrdinaryStep(s: string, pat: string, rep: string)
    requires |pat| > 0 && |s| > 0 && !StartsWith(s, pat)
    ensures ReplaceAll(s, pat, rep) == [s[0]] + ReplaceAll(s[1..], pat, rep)
  {
  }

  lemma JoinEmptyHead(parts: seq<string>, sep: string)
    requires |parts| >= 1
    ensures Join([""] + parts, sep) == sep + Join(parts, sep)
  {
    assert ([""] + parts)[1..] == parts;
  }

  /** A string without the separator's first character cannot hide a
      separator, so splitting `p + rest` keeps `p` in the first part. */
  lemma {:induction false} SplitFreePrefix(p: string, rest: string, sep: string)
    requires |sep| > 0
    requires forall i | 0 <= i < |p| :: p[i] != sep[0]
    ensures Split(p + rest, sep) == [p + Split(rest, sep)[0]] + Split(rest, sep)[1..]
    decreases |p|
  {
    if |p| > 0 {
      var s := p + rest;
      assert s[0] == p[0];
      assert !StartsWith(s, sep);
      assert s[1..] == p[1..] + rest;
      SplitFreePrefix(p[1..], rest, sep);
      assert [p[0]] + (p[1..] + Split(rest, sep)[0]) == p + Split(rest, sep)[0];
    } else {
      var parts := Split(rest, sep);
      assert p + rest == rest;
      assert p + parts[0] == parts[0];
      assert parts == [parts[0]] + parts[1..];
    }
  }

  /** Splitting undoes joining when no part contains the separator's first
      character. */
  lemma {:induction false} SplitJoin(parts: seq<string>, sep: string)
    requires |parts| >= 1 && |sep| > 0
    requires forall k, i | 0 <= k < |parts| && 0 <= i < |parts[k]| :: parts[k][i] != sep[0]
    ensures Split(Join(parts, sep), sep) == parts
    decreases |parts|
  {
    if |parts| == 1 {
      SplitFreePrefix(parts[0], "", sep);
      assert parts[0] + "" == parts[0];
    } else {
      var tail := Join(parts[1..], sep);
      SplitJoin(parts[1..], sep);
      var t := sep + tail;
      assert StartsWith(t, sep);
      assert t[|sep|..] == tail;
      assert Split(t, sep) == [""] + parts[1..];
      SplitFreePrefix(parts[0], t, sep);
      assert parts[0] + sep + tail == parts[0] + t;
      assert parts[0] + "" == parts[0];
      assert parts == [parts[0]] + parts[1..];
    }
  }

  /** Replacing a one-character pattern removes that character entirely
      when the replacement does not contain it. */
  lemma {:induction false} ReplaceRemovesChar(s: string, c: char, rep: string)
    requires c !in rep
    ensures c !in ReplaceAll(s, [c], rep)
    decreases |s|
  {
    if |s| > 0 {
      ReplaceRemovesChar(s[|[c]|..], c, rep);
      ReplaceRemovesChar(s[1..], c, rep);
    }
  }

  /** Replacement never introduces a character absent from both the text
      and the replacement. */
  lemma {:induction false} ReplaceKeepsAbsent(s: string, pat: string, rep: string, c: char)
    requires |pat| > 0
    requires c !in s && c !in rep
    ensures c !in ReplaceAll(s, pat, rep)
    decreases |s|
  {
    if |s| > 0 {
      if StartsWith(s, pat) {
        assert forall i | 0 <= i < |s[|pat|..]| :: s[|pat|..][i] == s[i + |pat|];
        ReplaceKeepsAbsent(s[|pat|..], pat, rep, c);
      } else {
        assert forall i | 0 <= i < |s[1..]| :: s[1..][i] == s[i + 1];
        ReplaceKeepsAbsent(s[1..], pat, rep, c);
      }
    }
  }

  /** A pattern whose first character does not occur is never replaced. */
  lemma {:induction false} ReplaceAbsent(s: string, pat: string, rep: string)
    requires |pat| > 0 && pat[0] !in s
    ensures ReplaceAll(s, pat, rep) == s
    decreases |s|
  {
    if |s| > 0 {
      assert !StartsWith(s, pat) by {
        if |pat| <= |s| {
          assert s[..|pat|][0] == s[0];
        }
      }
      assert forall i | 0 <= i < |s[1..]| :: s[1..][i] == s[i + 1];
      ReplaceAbsent(s[1..], pat, rep);
      assert s == [s[0]] + s[1..];
    }
  }

  /** A one-character pattern cannot straddle a concatenation. */
  lemma {:induction false} ReplaceCharConcat(a: string, b: string, c: char, rep: string)
    ensures ReplaceAll(a + b, [c], rep) == ReplaceAll(a, [c], rep) + ReplaceAll(b, [c], rep)
    decreases |a|
  {
    if |a| == 0 {
      assert a + b == b;
    } else {
      var s := a + b;
      assert s[0] == a[0];
      assert s[1..] == a[1..] + b;
      assert StartsWith(s, [c]) <==> StartsWith(a, [c]) by {
        assert s[..1] == [s[0]] && a[..1] == [a[0]];
      }
      ReplaceCharConcat(a[1..], b, c, rep);
    }
  }

  /** Replacing a one-character pattern in each part. */
  function ReplaceEach(parts: seq<string>, c: char, rep: string): (r: seq<string>)
    ensures |r| == |parts|
    ensures forall k | 0 <= k < |parts| :: r[k] == ReplaceAll(parts[k], [c], rep)
  {
    seq(|parts|, k requires 0 <= k < |parts| => ReplaceAll(parts[k], [c], rep))
  }

  /** Replacing a character absent from the separator works part by part. */
  lemma {:induction false} ReplaceCharJoin(parts: seq<string>, sep: string, c: char, rep: string)
    requires |parts| >= 1 && c !in sep
    ensures ReplaceAll(Join(parts, sep), [c], rep) == Join(ReplaceEach(parts, c, rep), sep)
    decreases |parts|
  {
    ReplaceAbsent(sep, [c], rep);
    if |parts| > 1 {
      ReplaceCharJoin(parts[1..], sep, c, rep);
      ReplaceCharConcat(parts[0] + sep, Join(parts[1..], sep), c, rep);
      ReplaceCharConcat(parts[0], sep, c, rep);
      assert ReplaceEach(parts, c, rep)[1..] == ReplaceEach(parts[1..], c, rep);
    }
  }

  /** Splitting never introduces a character: every part is drawn from `s`. */
  lemma {:induction false} SplitKeepsAbsent(s: string, sep: string, c: char)
    requires |sep| > 0 && c !in s
    ensures forall k, i | 0 <= k < |Split(s, sep)| && 0 <= i < |Split(s, sep)[k]| :: Split(s, sep)[k][i] != c
    decreases |s|
  {
    if |s| > 0 {
      if StartsWith(s, sep) {
        assert forall i | 0 <= i < |s[|sep|..]| :: s[|sep|..][i] == s[i + |sep|];
        SplitKeepsAbsent(s[|sep|..], sep, c);
      } else {
        assert forall i | 0 <= i < |s[1..]| :: s[1..][i] == s[i + 1];
        SplitKeepsAbsent(s[1..], sep, c);
      }
    }
  }

  /** A string shorter than the separator is one part. */
  lemma {:induction false} SplitShort(s: string, sep: string)
    requires 0 < |sep| && |s| < |sep|
    ensures Split(s, sep) == [s]
    decreases |s|
  {
    if |s| > 0 {
      SplitShort(s[1..], sep);
      assert [s[0]] + s[1..] == s;
    }
  }

  /** Splitting at the first separator occurrence, found at `k`. */
  lemma {:induction false} SplitAtFirst(s: string, sep: string, k: nat)
    requires |sep| > 0 && k + |sep| <= |s|
    requires StartsWith(s[k..], sep)
    requires forall i | 0 <= i < k :: !StartsWith(s[i..], sep)
    ensures Split(s, sep) == [s[..k]] + Split(s[k + |sep|..], sep)
    decreases k
  {
    if k == 0 {
      assert s[0..] == s;
    } else {
      NoEarlierInTail(s, sep, k);
      SplitAtFirst(s[1..], sep, k - 1);
      SplitAtFirstStep(s, sep, k);
    }
  }

  /** The premises of SplitAtFirst carry over to the tail. */
  lemma NoEarlierInTail(s: string, sep: string, k: nat)
    requires |sep| > 0 && 0 < k && k + |sep| <= |s|
    requires StartsWith(s[k..], sep)
    requires forall i | 0 <= i < k :: !StartsWith(s[i..], sep)
    ensures StartsWith(s[1..][k - 1..], sep)
    ensures forall i | 0 <= i < k - 1 :: !StartsWith(s[1..][i..], sep)
    ensures !StartsWith(s, sep)
  {
    assert s[0..] == s;
    assert s[1..][k - 1..] == s[k..];
    forall i | 0 <= i < k - 1
      ensures !StartsWith(s[1..][i..], sep)
    {
      assert s[1..][i..] == s[i + 1..];
    }
  }

  /** The step case of SplitAtFirst, given its conclusion for the tail. */
  lemma SplitAtFirstStep(s: string, sep: string, k: nat)
    requires |sep| > 0 && 0 < k && k + |sep| <= |s| && !StartsWith(s, sep)
    requires Split(s[1..], sep) == [s[1..][..k - 1]] + Split(s[1..][k - 1 + |sep|..], sep)
    ensures Split(s, sep) == [s[..k]] + Split(s[k + |sep|..], sep)
  {
    SplitOrdinaryStep(s, sep);
    assert s[1..][k - 1 + |sep|..] == s[k + |sep|..];
    Reassemble(s[0], s[1..][..k - 1], Split(s[k + |sep|..], sep), Split(s, sep), Split(s[1..], sep));
    assert [s[0]] + s[1..][..k - 1] == s[..k];
  }

  lemma Reassemble(c: char, a: string, t: seq<string>, whole: seq<string>, rest: seq<string>)
    requires rest == [a] + t
    requires whole == [[c] + rest[0]] + rest[1..]
    ensures whole == [[c] + a] + t
  {
    assert rest[1..] == t;
  }

  /** One step of Split at a position where the separator does not start. */
  lemma SplitOrdinaryStep(s: string, sep: string)
    requires |sep| > 0 && |s| > 0 && !StartsWith(s, sep)
    ensures Split(s, sep) == [[s[0]] + Split(s[1..], sep)[0]] + Split(s[1..], sep)[1..]
  {
  }

  // ---- headings: two stars, a star-free run, two stars ---------------

  predicate StarFree(s: string) {
    forall i | 0 <= i < |s| :: s[i] != '*'
  }

  /** Length of the longest star-free prefix (what `[^*]+` consumes). */
  function StarFreeRun(s: string): (k: nat)
    ensures k <= |s| && StarFree(s[..k])
    ensures k < |s| ==> s[k] == '*'
    decreases |s|
  {
    if |s| == 0 || s[0] == '*' then 0
    else
      var k := StarFreeRun(s[1..]);
      assert s[..k + 1] == [s[0]] + s[1..][..k];
      k + 1
  }

  lemma {:induction false} StarFreeRunStopsAtStar(x: string, rest: string)
    requires StarFree(x) && |rest| > 0 && rest[0] == '*'
    ensures StarFreeRun(x + rest) == |x|
    decreases |x|
  {
    if |x| > 0 {
      assert (x + rest)[1..] == x[1..] + rest;
      StarFreeRunStopsAtStar(x[1..], rest);
    } else {
      assert x + rest == rest;
    }
  }

  /** If `s` starts with a heading `**x**`, the length of `x`; else 0. */
  function HeadingAt(s: string): (k: nat)
    ensures k > 0 ==> 4 + k <= |s| && StartsWith(s, "**") && StarFree(s[2..2 + k]) && s[2 + k] == '*' && s[3 + k] == '*'
  {
    if StartsWith(s, "**") then
      var k := StarFreeRun(s[2..]);
      if k > 0 && 4 + k <= |s| && s[3 + k] == '*' then
        assert s[2..][..k] == s[2..2 + k];
        k
      else 0
    else 0
  }

  /** The global regular-expression replacement of a heading `**x**` by
      `open + x + close`, where x is one or more characters other than `*`. */
  function ReplaceHeadings(s: string, open: string, close: string): string
    decreases |s|
  {
    if |s| == 0 then ""
    else
      var k := HeadingAt(s);
      if k > 0 then open + s[2..2 + k] + close + ReplaceHeadings(s[4 + k..], open, close)
      else [s[0]] + ReplaceHeadings(s[1..], open, close)
  }

  /** A heading `**x**` with `x` non-empty and star-free becomes
      `open + x + close`, and the scan resumes right after it. */
  lemma HeadingRewritten(x: string, rest: string, open: string, close: string)
    requires |x| > 0 && StarFree(x)
    ensures ReplaceHeadings("**" + x + "**" + rest, open, close) == open + x + close + ReplaceHeadings(rest, open, close)
  {
    var s := "**" + x + "**" + rest;
    HeadingFound(x, rest);
    assert s[2..2 + |x|] == x && s[4 + |x|..] == rest by {
      assert s == "**" + x + "**" + rest;
    }
  }

  lemma HeadingFound(x: string, rest: string)
    requires |x| > 0 && StarFree(x)
    ensures HeadingAt("**" + x + "**" + rest) == |x|
  {
    var s := "**" + x + "**" + rest;
    assert StartsWith(s, "**") by {
      assert s[..2] == "**";
    }
    assert s[2..] == x + ("**" + rest);
    StarFreeRunStopsAtStar(x, "**" + rest);
    assert s[3 + |x|] == '*';
  }

  /** Text without `*` has no heading to rewrite. */
  lemma {:induction false} HeadingsIdentity(s: string, open: string, close: string)
    requires StarFree(s)
    ensures ReplaceHeadings(s, open, close) == s
    decreases |s|
  {
    if |s| > 0 {
      assert !StartsWith(s, "**") by {
        if |s| >= 2 {
          assert s[..2][0] == s[0];
        }
      }
      HeadingsIdentity(s[1..], open, close);
      assert s == [s[0]] + s[1..];
    }
  }
}
