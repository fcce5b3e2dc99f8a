/**
 * The text-cleaning pipeline that `PDFProcessor.clean_extracted_text` applies to
 * extracted text: a fixed sequence of regular-expression substitutions followed by
 * `strip()`. Each substitution is written out as a left-to-right scan that makes the
 * same choices as Python's `re.sub` (leftmost match, greedy repetition, backtracking
 * to the first alternative that succeeds).
 */
module TextClean {

  const FormFeed: char := '\U{C}'
  const VerticalTab: char := '\U{B}'

  /** The whitespace set that stands for both Python's `\s` and `str.strip()`. */
  predicate IsSpace(c: char) {
    c == ' ' || c == '\t' || c == '\n' || c == '\r' || c == FormFeed || c == VerticalTab
  }

  /** `[a-zA-Z0-9]` */
  predicate IsAlnum(c: char) {
    ('a' <= c <= 'z') || ('A' <= c <= 'Z') || ('0' <= c <= '9')
  }

  /** The character classes the patterns repeat: a literal character, `\s`, `\d`. */
  datatype CharClass = Only(ch: char) | Space | Digit

  predicate In(c: char, k: CharClass) {
    match k
    case Only(x) => c == x
    case Space => IsSpace(c)
    case Digit => '0' <= c <= '9'
  }

  /** Length of the longest prefix of `s` drawn from class `k` (a greedy `k*`). */
  function Run(s: string, k: CharClass): (n: nat)
    ensures n <= |s|
    ensures forall i :: 0 <= i < n ==> In(s[i], k)
    ensures n < |s| ==> !In(s[n], k)
  {
    if s != [] && In(s[0], k) then 1 + Run(s[1..], k) else 0
  }

  /**
   * `re.sub(<k>{min,}, ' ', s)`: every maximal run of at least `min` characters of
   * class `k` becomes one space (lines 40, 43, 44 with `min == 3`, line 47 with `\s+`).
   */
  function ReplaceRuns(s: string, k: CharClass, min: nat): string
    requires min >= 1
    decreases |s|
  {
    if s == [] then []
    else
      var n := Run(s, k);
      if n >= min then [' '] + ReplaceRuns(s[n..], k, min)
      else [s[0]] + ReplaceRuns(s[1..], k, min)
  }

  /** Position of the last `'\n'` in `s[lo..hi]`, or -1 when there is none. */
  function LastNewline(s: string, lo: nat, hi: nat): (q: int)
    requires lo <= hi <= |s|
    ensures q == -1 || (lo <= q < hi && s[q] == '\n')
    ensures q == -1 ==> forall p :: lo <= p < hi ==> s[p] != '\n'
    ensures q >= 0 ==> forall p :: q < p < hi ==> s[p] != '\n'
    decreases hi - lo
  {
    if hi == lo then -1
    else if s[hi - 1] == '\n' then hi - 1
    else LastNewline(s, lo, hi - 1)
  }

  /**
   * Length of a match of `\s*\.{4,}\s*(?=[a-zA-Z0-9])` at the start of `s`, or 0.
   * Whitespace and dots are disjoint, so the greedy repetitions never need to give
   * characters back: the match exists exactly when the maximal runs line up.
   */
  function DotLeaderAt(s: string): (n: nat)
    ensures n <= |s|
  {
    var a := Run(s, Space);
    var d := Run(s[a..], Only('.'));
    if d < 4 then 0
    else
      var b := a + d + Run(s[a + d..], Space);
      if b < |s| && IsAlnum(s[b]) then b else 0
  }

  /**
   * Step 1 (line 34): `(?<=[a-zA-Z0-9])\s*\.{4,}\s*(?=[a-zA-Z0-9])` becomes one space.
   * `afterAlnum` says whether the character before `s` in the original text is
   * alphanumeric (the look-behind); a match ends just before an alphanumeric
   * character that follows a dot or a space, so the look-behind fails there.
   */
  function JoinDotLeaders(s: string, afterAlnum: bool): string
    decreases |s|
  {
    if s == [] then []
    else
      var n := if afterAlnum then DotLeaderAt(s) else 0;
      if n > 0 then [' '] + JoinDotLeaders(s[n..], false)
      else [s[0]] + JoinDotLeaders(s[1..], IsAlnum(s[0]))
  }

  /**
   * Length of a match of `\.{4,}\s*\d+\s*$` (MULTILINE) at the start of `s`, or 0.
   * The trailing `\s*` first takes all the whitespace; if the text does not end there,
   * `$` can only hold just before a newline, so the engine gives characters back
   * down to the last newline of that whitespace run.
   */
  function PageLeaderAt(s: string): (n: nat)
    ensures n <= |s|
  {
    var d := Run(s, Only('.'));
    if d < 4 then 0
    else
      var a := d + Run(s[d..], Space);
      var g := a + Run(s[a..], Digit);
      if g == a then 0
      else
        var e := g + Run(s[g..], Space);
        if e == |s| then e
        else
          var q := LastNewline(s, g, e);
          if q < 0 then 0 else q
  }

  /** Step 2 (line 37): dot leaders with a page number at the end of a line become one space. */
  function StripPageLeaders(s: string): string
    decreases |s|
  {
    if s == [] then []
    else
      var n := PageLeaderAt(s);
      if n > 0 then [' '] + StripPageLeaders(s[n..])
      else [s[0]] + StripPageLeaders(s[1..])
  }

  /** Lines 50 and 51: every occurrence of `c` is deleted. */
  function RemoveAll(s: string, c: char): (r: string)
    ensures c !in r
  {
    if s == [] then []
    else if s[0] == c then RemoveAll(s[1..], c)
    else [s[0]] + RemoveAll(s[1..], c)
  }

  /** Every character other than `c` is kept, as often as it occurs. */
  lemma {:induction false} RemoveAllKeepsOthers(s: string, c: char)
    ensures multiset(RemoveAll(s, c)) == multiset(s)[c := 0]
  {
    if s != [] {
      RemoveAllKeepsOthers(s[1..], c);
      assert s == [s[0]] + s[1..];
      assert multiset(s) == multiset([s[0]]) + multiset(s[1..]);
    }
  }

  /**
   * The deletion works piece by piece, so the other characters keep their order: with
   * `RemoveAll([c], c) == []` and `RemoveAll([x], c) == [x]` for `x != c`, this fixes
   * the result.
   */
  lemma {:induction false} RemoveAllAppend(s: string, t: string, c: char)
    ensures RemoveAll(s + t, c) == RemoveAll(s, c) + RemoveAll(t, c)
    decreases |s|
  {
    if s != [] {
      assert (s + t)[0] == s[0] && (s + t)[1..] == s[1..] + t;
      RemoveAllAppend(s[1..], t, c);
    } else {
      assert s + t == t;
    }
  }

  /** Length of a match of `\n\s*\n` at the start of `s`, or 0. */
  function BreakRunAt(s: string): (n: nat)
    ensures n <= |s|
  {
    if s == [] || s[0] != '\n' then 0
    else
      var e := 1 + Run(s[1..], Space);
      var q := LastNewline(s, 1, e);
      if q < 0 then 0 else q + 1
  }

  /** Step 7 (line 54): `\n\s*\n` becomes a blank line. */
  function NormalizeBreaks(s: string): string
    decreases |s|
  {
    if s == [] then []
    else
      var n := BreakRunAt(s);
      if n > 0 then "\n\n" + NormalizeBreaks(s[n..])
      else [s[0]] + NormalizeBreaks(s[1..])
  }

  function TrimStart(s: string): (r: string)
    ensures |r| <= |s|
    ensures r == s[|s| - |r|..]
    ensures r != [] ==> !IsSpace(r[0])
    ensures forall i :: 0 <= i < |s| - |r| ==> IsSpace(s[i])
  {
    s[Run(s, Space)..]
  }

  function TrimEnd(s: string): (r: string)
    ensures |r| <= |s|
    ensures r == s[..|r|]
    ensures r != [] ==> !IsSpace(r[|r| - 1])
    ensures forall i :: |r| <= i < |s| ==> IsSpace(s[i])
  {
    if s != [] && IsSpace(s[|s| - 1]) then TrimEnd(s[..|s| - 1]) else s
  }

  /** Python's `str.strip()` with no argument. */
  function Strip(s: string): string {
    TrimEnd(TrimStart(s))
  }

  /** `clean_extracted_text` (lines 26-56). */
  function Clean(text: string): string {
    if text == [] then text
    else
      var t1 := JoinDotLeaders(text, false);
      var t2 := StripPageLeaders(t1);
      var t3 := ReplaceRuns(t2, Only('.'), 3);
      var t4 := ReplaceRuns(t3, Only('-'), 3);
      var t5 := ReplaceRuns(t4, Only('_'), 3);
      var t6 := ReplaceRuns(t5, Space, 1);
      var t7 := RemoveAll(t6, FormFeed);
      var t8 := RemoveAll(t7, FormFeed);
      var t9 := NormalizeBreaks(t8);
      Strip(t9)
  }

  // ---------------------------------------------------------------------------
  // What a cleaned text looks like

  /** No three consecutive copies of `c`. */
  predicate NoLongRun(s: string, c: char) {
    forall i :: 0 <= i && i + 2 < |s| ==> !(s[i] == c && s[i + 1] == c && s[i + 2] == c)
  }

  /** The only whitespace character is the plain space. */
  predicate OnlyBlanks(s: string) {
    forall i :: 0 <= i < |s| && IsSpace(s[i]) ==> s[i] == ' '
  }

  /** No two whitespace characters are adjacent. */
  predicate NoAdjacentSpaces(s: string) {
    forall i :: 0 <= i && i + 1 < |s| ==> !(IsSpace(s[i]) && IsSpace(s[i + 1]))
  }

  predicate Trimmed(s: string) {
    s == [] || (!IsSpace(s[0]) && !IsSpace(s[|s| - 1]))
  }

  predicate Cleaned(s: string) {
    && NoLongRun(s, '.') && NoLongRun(s, '-') && NoLongRun(s, '_')
    && OnlyBlanks(s) && NoAdjacentSpaces(s) && Trimmed(s)
  }

  // ---------------------------------------------------------------------------
  // Facts about runs

  lemma RunAtLeastTwo(s: string, k: CharClass)
    ensures Run(s, k) >= 2 <==> (|s| >= 2 && In(s[0], k) && In(s[1], k))
  {
  }

  lemma RunAtLeastThree(s: string, k: CharClass)
    ensures Run(s, k) >= 3 <==> (|s| >= 3 && In(s[0], k) && In(s[1], k) && In(s[2], k))
  {
  }

  lemma NoLongRunCons(x: char, u: string, c: char)
    requires NoLongRun(u, c)
    requires !(x == c && |u| >= 2 && u[0] == c && u[1] == c)
    ensures NoLongRun([x] + u, c)
  {
    var s := [x] + u;
    forall i | 0 <= i && i + 2 < |s|
      ensures !(s[i] == c && s[i + 1] == c && s[i + 2] == c)
    {
      if i > 0 {
        assert s[i] == u[i - 1] && s[i + 1] == u[i] && s[i + 2] == u[i + 1];
      }
    }
  }

  lemma BlanksCons(x: char, u: string)
    requires OnlyBlanks(u) && NoAdjacentSpaces(u)
    requires IsSpace(x) ==> x == ' ' && (u == [] || !IsSpace(u[0]))
    ensures OnlyBlanks([x] + u) && NoAdjacentSpaces([x] + u)
  {
    var s := [x] + u;
    forall i | 0 <= i && i + 1 < |s|
      ensures !(IsSpace(s[i]) && IsSpace(s[i + 1]))
    {
      if i > 0 {
        assert s[i] == u[i - 1] && s[i + 1] == u[i];
      }
    }
    forall i | 0 <= i < |s| && IsSpace(s[i])
      ensures s[i] == ' '
    {
      if i > 0 {
        assert s[i] == u[i - 1];
      }
    }
  }

  // ---------------------------------------------------------------------------
  // ReplaceRuns: what it establishes and what it preserves

  /** After collapsing runs of `c`, a run of `c` is short, and it is the input's own. */
  lemma {:induction false} ReplaceRunsLeadingRun(s: string, c: char)
    requires c != ' '
    ensures Run(ReplaceRuns(s, Only(c), 3), Only(c)) ==
            if Run(s, Only(c)) >= 3 then 0 else Run(s, Only(c))
    decreases |s|
  {
    if s != [] {
      var n := Run(s, Only(c));
      if n < 3 && n > 0 {
        assert Run(s[1..], Only(c)) == n - 1;
        ReplaceRunsLeadingRun(s[1..], c);
      }
    }
  }

  /** Lines 40, 43, 44: no run of three `c` survives its own substitution. */
  lemma {:induction false} ReplaceRunsBreaksRuns(s: string, c: char)
    requires c != ' '
    ensures NoLongRun(ReplaceRuns(s, Only(c), 3), c)
    decreases |s|
  {
    if s != [] {
      var n := Run(s, Only(c));
      if n >= 3 {
        ReplaceRunsBreaksRuns(s[n..], c);
        NoLongRunCons(' ', ReplaceRuns(s[n..], Only(c), 3), c);
      } else {
        var u := ReplaceRuns(s[1..], Only(c), 3);
        ReplaceRunsBreaksRuns(s[1..], c);
        if s[0] == c {
          assert Run(s[1..], Only(c)) == n - 1;
          ReplaceRunsLeadingRun(s[1..], c);
          RunAtLeastTwo(u, Only(c));
        }
        NoLongRunCons(s[0], u, c);
      }
    }
  }

  /** A substitution on class `k` leaves the leading run of an unrelated character alone. */
  lemma {:induction false} ReplaceRunsKeepsRun(s: string, k: CharClass, min: nat, d: char)
    requires min >= 1 && !In(d, k) && d != ' '
    ensures Run(ReplaceRuns(s, k, min), Only(d)) == Run(s, Only(d))
    decreases |s|
  {
    if s != [] && s[0] == d {
      ReplaceRunsKeepsRun(s[1..], k, min, d);
    }
  }

  /** A substitution on class `k` creates no run of three of an unrelated character. */
  lemma {:induction false} ReplaceRunsKeepsNoLongRun(s: string, k: CharClass, min: nat, d: char)
    requires min >= 1 && !In(d, k) && d != ' '
    requires NoLongRun(s, d)
    ensures NoLongRun(ReplaceRuns(s, k, min), d)
    decreases |s|
  {
    if s != [] {
      var n := Run(s, k);
      if n >= min {
        assert NoLongRun(s[n..], d) by {
          forall i | 0 <= i && i + 2 < |s[n..]|
            ensures !(s[n..][i] == d && s[n..][i + 1] == d && s[n..][i + 2] == d)
          {
            assert s[n..][i] == s[n + i] && s[n..][i + 1] == s[n + i + 1] && s[n..][i + 2] == s[n + i + 2];
          }
        }
        ReplaceRunsKeepsNoLongRun(s[n..], k, min, d);
        NoLongRunCons(' ', ReplaceRuns(s[n..], k, min), d);
      } else {
        var u := ReplaceRuns(s[1..], k, min);
        assert NoLongRun(s[1..], d) by {
          forall i | 0 <= i && i + 2 < |s[1..]|
            ensures !(s[1..][i] == d && s[1..][i + 1] == d && s[1..][i + 2] == d)
          {
            assert s[1..][i] == s[i + 1] && s[1..][i + 1] == s[i + 2] && s[1..][i + 2] == s[i + 3];
          }
        }
        ReplaceRunsKeepsNoLongRun(s[1..], k, min, d);
        if s[0] == d {
          ReplaceRunsKeepsRun(s[1..], k, min, d);
          RunAtLeastTwo(u, Only(d));
          RunAtLeastTwo(s[1..], Only(d));
        }
        NoLongRunCons(s[0], u, d);
      }
    }
  }

  /** A text that does not start with whitespace keeps its first character under `\s+`. */
  lemma SquashKeepsHead(s: string)
    requires s != [] && !IsSpace(s[0])
    ensures ReplaceRuns(s, Space, 1) != [] && ReplaceRuns(s, Space, 1)[0] == s[0]
  {
  }

  /** Line 47: after `\s+` becomes `' '`, whitespace is single plain spaces. */
  lemma {:induction false} SquashSpaces(s: string)
    ensures OnlyBlanks(ReplaceRuns(s, Space, 1))
    ensures NoAdjacentSpaces(ReplaceRuns(s, Space, 1))
    decreases |s|
  {
    if s != [] {
      var n := Run(s, Space);
      if n >= 1 {
        var u := ReplaceRuns(s[n..], Space, 1);
        SquashSpaces(s[n..]);
        if s[n..] != [] {
          SquashKeepsHead(s[n..]);
        }
        BlanksCons(' ', u);
      } else {
        SquashSpaces(s[1..]);
        BlanksCons(s[0], ReplaceRuns(s[1..], Space, 1));
      }
    }
  }

  // ---------------------------------------------------------------------------
  // The steps that do nothing on text that is already clean

  lemma NoLongRunSuffix(s: string, c: char, j: nat)
    requires NoLongRun(s, c) && j <= |s|
    ensures NoLongRun(s[j..], c)
  {
    forall i | 0 <= i && i + 2 < |s[j..]|
      ensures !(s[j..][i] == c && s[j..][i + 1] == c && s[j..][i + 2] == c)
    {
      assert s[j..][i] == s[j + i] && s[j..][i + 1] == s[j + i + 1] && s[j..][i + 2] == s[j + i + 2];
    }
  }

  lemma NoLongRunShortRun(s: string, c: char)
    requires NoLongRun(s, c)
    ensures Run(s, Only(c)) < 3
  {
    RunAtLeastThree(s, Only(c));
  }

  lemma DotLeaderAbsent(s: string)
    requires NoLongRun(s, '.')
    ensures DotLeaderAt(s) == 0
  {
    var a := Run(s, Space);
    NoLongRunSuffix(s, '.', a);
    NoLongRunShortRun(s[a..], '.');
  }

  lemma {:induction false} JoinDotLeadersIdentity(s: string, afterAlnum: bool)
    requires NoLongRun(s, '.')
    ensures JoinDotLeaders(s, afterAlnum) == s
    decreases |s|
  {
    if s != [] {
      DotLeaderAbsent(s);
      NoLongRunSuffix(s, '.', 1);
      JoinDotLeadersIdentity(s[1..], IsAlnum(s[0]));
    }
  }

  lemma {:induction false} StripPageLeadersIdentity(s: string)
    requires NoLongRun(s, '.')
    ensures StripPageLeaders(s) == s
    decreases |s|
  {
    if s != [] {
      NoLongRunShortRun(s, '.');
      NoLongRunSuffix(s, '.', 1);
      StripPageLeadersIdentity(s[1..]);
    }
  }

  lemma {:induction false} ReplaceRunsIdentity(s: string, c: char)
    requires NoLongRun(s, c)
    ensures ReplaceRuns(s, Only(c), 3) == s
    decreases |s|
  {
    if s != [] {
      NoLongRunShortRun(s, c);
      NoLongRunSuffix(s, c, 1);
      ReplaceRunsIdentity(s[1..], c);
    }
  }

  lemma {:induction false} SquashIdentity(s: string)
    requires OnlyBlanks(s) && NoAdjacentSpaces(s)
    ensures ReplaceRuns(s, Space, 1) == s
    decreases |s|
  {
    if s != [] {
      RunAtLeastTwo(s, Space);
      assert OnlyBlanks(s[1..]) && NoAdjacentSpaces(s[1..]) by {
        forall i | 0 <= i && i + 1 < |s[1..]|
          ensures !(IsSpace(s[1..][i]) && IsSpace(s[1..][i + 1]))
        {
          assert s[1..][i] == s[i + 1] && s[1..][i + 1] == s[i + 2];
        }
        forall i | 0 <= i < |s[1..]| && IsSpace(s[1..][i])
          ensures s[1..][i] == ' '
        {
          assert s[1..][i] == s[i + 1];
        }
      }
      SquashIdentity(s[1..]);
    }
  }

  lemma {:induction false} RemoveAllIdentity(s: string, c: char)
    requires c !in s
    ensures RemoveAll(s, c) == s
    decreases |s|
  {
    if s != [] {
      assert s[0] != c;
      RemoveAllIdentity(s[1..], c);
    }
  }

  lemma {:induction false} NormalizeBreaksIdentity(s: string)
    requires '\n' !in s
    ensures NormalizeBreaks(s) == s
    decreases |s|
  {
    if s != [] {
      assert s[0] != '\n';
      NormalizeBreaksIdentity(s[1..]);
    }
  }

  lemma StripIdentity(s: string)
    requires Trimmed(s)
    ensures Strip(s) == s
  {
    assert TrimStart(s) == s;
  }

  // ---------------------------------------------------------------------------
  // The promises of clean_extracted_text

  /**
   * `Strip` returns a slice of its input that neither starts nor ends with whitespace,
   * and what it cuts off at either end is whitespace only.
   */
  lemma StripSlice(s: string) returns (a: nat, b: nat)
    ensures a <= b <= |s| && Strip(s) == s[a..b]
    ensures Trimmed(Strip(s))
    ensures forall i :: 0 <= i < a ==> IsSpace(s[i])
    ensures forall i :: b <= i < |s| ==> IsSpace(s[i])
  {
    var u := TrimStart(s);
    a := |s| - |u|;
    b := a + |TrimEnd(u)|;
    assert TrimEnd(u) == u[..|TrimEnd(u)|];
    assert u[..b - a] == s[a..b];
    forall i | b <= i < |s| ensures IsSpace(s[i]) {
      assert s[i] == u[i - a];
    }
  }

  lemma SliceKeepsShape(s: string, a: nat, b: nat)
    requires a <= b <= |s|
    ensures NoLongRun(s, '.') ==> NoLongRun(s[a..b], '.')
    ensures NoLongRun(s, '-') ==> NoLongRun(s[a..b], '-')
    ensures NoLongRun(s, '_') ==> NoLongRun(s[a..b], '_')
    ensures OnlyBlanks(s) ==> OnlyBlanks(s[a..b])
    ensures NoAdjacentSpaces(s) ==> NoAdjacentSpaces(s[a..b])
  {
    var t := s[a..b];
    forall i | 0 <= i < |t| ensures t[i] == s[a + i] { }
  }

  /**
   * Lines 40-56: the output has no run of three dots, dashes or underscores, no
   * whitespace but single plain spaces (so no newline), and no leading or trailing
   * whitespace; empty input comes back unchanged.
   */
  lemma CleanOutput(text: string)
    ensures text == [] ==> Clean(text) == []
    ensures Cleaned(Clean(text))
  {
    if text != [] {
      var t1 := JoinDotLeaders(text, false);
      var t2 := StripPageLeaders(t1);
      var t3 := ReplaceRuns(t2, Only('.'), 3);
      var t4 := ReplaceRuns(t3, Only('-'), 3);
      var t5 := ReplaceRuns(t4, Only('_'), 3);
      var t6 := ReplaceRuns(t5, Space, 1);
      ReplaceRunsBreaksRuns(t2, '.');
      ReplaceRunsKeepsNoLongRun(t3, Only('-'), 3, '.');
      ReplaceRunsBreaksRuns(t3, '-');
      ReplaceRunsKeepsNoLongRun(t4, Only('_'), 3, '.');
      ReplaceRunsKeepsNoLongRun(t4, Only('_'), 3, '-');
      ReplaceRunsBreaksRuns(t4, '_');
      ReplaceRunsKeepsNoLongRun(t5, Space, 1, '.');
      ReplaceRunsKeepsNoLongRun(t5, Space, 1, '-');
      ReplaceRunsKeepsNoLongRun(t5, Space, 1, '_');
      SquashSpaces(t5);
      assert FormFeed !in t6 && '\n' !in t6;
      RemoveAllIdentity(t6, FormFeed);
      NormalizeBreaksIdentity(t6);
      var a, b := StripSlice(t6);
      SliceKeepsShape(t6, a, b);
    }
  }

  /** Plain spaces only: no form feed and no newline. */
  lemma BlanksExcludeBreaks(s: string)
    requires OnlyBlanks(s)
    ensures FormFeed !in s && '\n' !in s
  {
    if FormFeed in s {
      var i :| 0 <= i < |s| && s[i] == FormFeed;
      assert IsSpace(s[i]);
    }
    if '\n' in s {
      var i :| 0 <= i < |s| && s[i] == '\n';
      assert IsSpace(s[i]);
    }
  }

  /** Cleaning text that is already clean changes nothing. */
  lemma CleanFixesCleaned(s: string)
    requires Cleaned(s)
    ensures Clean(s) == s
  {
    if s != [] {
      JoinDotLeadersIdentity(s, false);
      StripPageLeadersIdentity(s);
      ReplaceRunsIdentity(s, '.');
      ReplaceRunsIdentity(s, '-');
      ReplaceRunsIdentity(s, '_');
      SquashIdentity(s);
      BlanksExcludeBreaks(s);
      RemoveAllIdentity(s, FormFeed);
      NormalizeBreaksIdentity(s);
      StripIdentity(s);
    }
  }

  /** Cleaning is idempotent, so the re-cleaning at lines 92 and 145 is harmless. */
  lemma CleanIdempotent(text: string)
    ensures Clean(Clean(text)) == Clean(text)
  {
    CleanOutput(text);
    CleanFixesCleaned(Clean(text));
  }
}
