/** The string operations the dashboards apply to user-entered text:
    `trim`, `split(sep)[0]`, `toLowerCase`, `replace(/\D/g, '')`, the word
    count of `trim().split(/\s+/)` and the `Number(...)` conversion of the
    pieces of a meeting time such as "20:00". */
module Text {
  import opened Seqs

  /** The characters `String.prototype.trim` and the `\s` class remove. */
  predicate IsSpace(c: char)
  {
    c == ' ' || c == '\t' || c == '\n' || c == '\r' || c == '\U{000B}' || c == '\U{000C}'
    || c == '\U{00A0}' || c == '\U{1680}' || ('\U{2000}' <= c <= '\U{200A}')
    || c == '\U{2028}' || c == '\U{2029}' || c == '\U{202F}' || c == '\U{205F}'
    || c == '\U{3000}' || c == '\U{FEFF}'
  }

  function TrimStart(s: string): (r: string)
    ensures |r| <= |s|
    decreases |s|
  {
    if s != [] && IsSpace(s[0]) then TrimStart(s[1..]) else s
  }

  /** TrimStart keeps a suffix of s, removes only white space and stops at
      the first other character. */
  lemma {:induction false} TrimStartFacts(s: string)
    ensures var r := TrimStart(s);
            && (r == [] || !IsSpace(r[0]))
            && (forall i :: 0 <= i < |r| ==> r[i] == s[|s| - |r| + i])
            && (forall i :: 0 <= i < |s| - |r| ==> IsSpace(s[i]))
    decreases |s|
  {
    if s != [] && IsSpace(s[0]) {
      TrimStartFacts(s[1..]);
      var r := TrimStart(s);
      assert r == TrimStart(s[1..]);
      forall i | 0 <= i < |r| ensures r[i] == s[|s| - |r| + i] {
        assert r[i] == s[1..][|s| - 1 - |r| + i];
      }
      forall i | 0 <= i < |s| - |r| ensures IsSpace(s[i]) {
        if i > 0 {
          assert IsSpace(s[1..][i - 1]);
        }
      }
    }
  }

  function TrimEnd(s: string): (r: string)
    ensures |r| <= |s|
    decreases |s|
  {
    if s != [] && IsSpace(s[|s| - 1]) then TrimEnd(s[..|s| - 1]) else s
  }

  /** TrimEnd keeps a prefix of s, removes only white space and stops at
      the last other character. */
  lemma {:induction false} TrimEndFacts(s: string)
    ensures var r := TrimEnd(s);
            && (r == [] || !IsSpace(r[|r| - 1]))
            && (forall i :: 0 <= i < |r| ==> r[i] == s[i])
            && (forall i :: |r| <= i < |s| ==> IsSpace(s[i]))
    decreases |s|
  {
    if s != [] && IsSpace(s[|s| - 1]) {
      TrimEndFacts(s[..|s| - 1]);
      var r := TrimEnd(s);
      assert r == TrimEnd(s[..|s| - 1]);
      forall i | 0 <= i < |r| ensures r[i] == s[i] {
        assert r[i] == s[..|s| - 1][i];
      }
      forall i | |r| <= i < |s| ensures IsSpace(s[i]) {
        if i < |s| - 1 {
          assert IsSpace(s[..|s| - 1][i]);
        }
      }
    }
  }

  /** `s.trim()`: s without leading and trailing white space. */
  function Trim(s: string): (r: string)
    ensures |r| <= |s|
  {
    TrimEnd(TrimStart(s))
  }

  /** The trimmed text neither starts nor ends with white space. */
  lemma TrimEnds(s: string)
    ensures var r := Trim(s);
            r == [] || (!IsSpace(r[0]) && !IsSpace(r[|r| - 1]))
  {
    TrimStartFacts(s);
    TrimEndFacts(TrimStart(s));
  }

  /** Text that neither starts nor ends with white space is its own trim. */
  lemma TrimUnchanged(s: string)
    requires s == [] || (!IsSpace(s[0]) && !IsSpace(s[|s| - 1]))
    ensures Trim(s) == s
  {
    assert TrimStart(s) == s;
    assert TrimEnd(s) == s;
  }

  /** Trimming the inner part of an already trimmed text is idempotent. */
  lemma TrimIdempotent(s: string)
    ensures Trim(Trim(s)) == Trim(s)
  {
    TrimEnds(s);
    TrimUnchanged(Trim(s));
  }

  /** `s.split(sep)[0]`: the text before the first occurrence of sep, or all
      of s when sep does not occur. */
  function Before(s: string, sep: string): (r: string)
    requires sep != []
    ensures |r| <= |s|
    decreases |s|
  {
    if |s| < |sep| then s
    else if s[..|sep|] == sep then []
    else [s[0]] + Before(s[1..], sep)
  }

  /** Before keeps a prefix of s. */
  lemma {:induction false} BeforePrefix(s: string, sep: string)
    requires sep != []
    ensures var r := Before(s, sep);
            forall i :: 0 <= i < |r| ==> r[i] == s[i]
    decreases |s|
  {
    if |s| >= |sep| && s[..|sep|] != sep {
      var t := s[1..];
      BeforePrefix(t, sep);
      var r, bt := Before(s, sep), Before(t, sep);
      assert r == [s[0]] + bt;
      forall i | 0 <= i < |r| ensures r[i] == s[i] {
        if i > 0 {
          assert r[i] == bt[i - 1] && t[i - 1] == s[i];
        }
      }
    }
  }

  /** Before stops short of the end of s only at an occurrence of sep. */
  lemma {:induction false} BeforeStop(s: string, sep: string)
    requires sep != []
    ensures var r := Before(s, sep);
            |r| < |s| ==> |r| + |sep| <= |s| && forall i :: 0 <= i < |sep| ==> s[|r| + i] == sep[i]
    decreases |s|
  {
    if |s| >= |sep| {
      if s[..|sep|] == sep {
        assert Before(s, sep) == [];
        forall i | 0 <= i < |sep| ensures s[i] == sep[i] {
          assert s[..|sep|][i] == s[i];
        }
      } else {
        var t := s[1..];
        BeforeStop(t, sep);
        var r, bt := Before(s, sep), Before(t, sep);
        assert r == [s[0]] + bt;
        if |r| < |s| {
          forall i | 0 <= i < |sep| ensures s[|r| + i] == sep[i] {
            assert t[|bt| + i] == sep[i];
          }
        }
      }
    }
  }

  lemma BeforeFacts(s: string, sep: string)
    requires sep != []
    ensures var r := Before(s, sep);
            && (forall i :: 0 <= i < |r| ==> r[i] == s[i])
            && (|r| < |s| ==> |r| + |sep| <= |s| && forall i :: 0 <= i < |sep| ==> s[|r| + i] == sep[i])
  {
    BeforePrefix(s, sep);
    BeforeStop(s, sep);
  }

  /** A text that does not contain the separator's first character is
      returned whole. */
  lemma {:induction false} BeforeAbsent(s: string, sep: string)
    requires sep != [] && sep[0] !in s
    ensures Before(s, sep) == s
    decreases |s|
  {
    if |s| >= |sep| {
      assert s[..|sep|][0] == s[0];
      BeforeAbsent(s[1..], sep);
      assert s == [s[0]] + s[1..];
    }
  }

  /** `s.split(sep)[1]` when sep occurs in s: the text after the first
      occurrence; None when `split` yields a single piece. */
  function After(s: string, sep: string): (r: Option<string>)
    requires sep != []
    ensures r.None? <==> Before(s, sep) == s
    ensures r.Some? ==> s == Before(s, sep) + sep + r.value
  {
    var b := Before(s, sep);
    BeforeFacts(s, sep);
    if |b| == |s| then
      assert b == s;
      None
    else
      var rest := s[|b| + |sep|..];
      assert s == b + sep + rest by {
        forall i | 0 <= i < |s| ensures s[i] == (b + sep + rest)[i] {
          if |b| <= i < |b| + |sep| {
            assert s[|b| + (i - |b|)] == sep[i - |b|];
          }
        }
      }
      Some(rest)
  }

  /** `toLowerCase` on one character: ASCII and Latin-1 capitals (the
      letters of Portuguese day names and names of people). */
  function LowerChar(c: char): (d: char)
    ensures ('A' <= c <= 'Z') ==> d as int == c as int + 32
    ensures !('A' <= c <= 'Z') && !('\U{00C0}' <= c <= '\U{00DE}') ==> d == c
  {
    if 'A' <= c <= 'Z' || ('\U{00C0}' <= c <= '\U{00DE}' && c != '\U{00D7}') then
      (c as int + 32) as char
    else c
  }

  function ToLower(s: string): (r: string)
    ensures |r| == |s|
    ensures forall i :: 0 <= i < |s| ==> r[i] == LowerChar(s[i])
  {
    Map(s, LowerChar)
  }

  predicate IsDigit(c: char)
  {
    '0' <= c <= '9'
  }

  predicate AllDigits(s: string)
  {
    forall i :: 0 <= i < |s| ==> IsDigit(s[i])
  }

  /** `s.replace(/\D/g, '')`: the decimal digits of s, in order. */
  function DigitsOnly(s: string): (r: string)
    ensures |r| <= |s|
  {
    Filter(s, IsDigit)
  }

  /** Every character left is a digit, and every digit of s is left. */
  lemma DigitsOnlyMembers(s: string)
    ensures forall c :: c in DigitsOnly(s) <==> c in s && IsDigit(c)
  {
    FilterMembers(s, IsDigit);
  }

  /** Stripping non-digits a second time changes nothing. */
  lemma DigitsOnlyIdempotent(s: string)
    ensures DigitsOnly(DigitsOnly(s)) == DigitsOnly(s)
  {
    FilterIdempotent(s, IsDigit);
  }

  /** Number of maximal runs of white space in s; `inRun` tells whether the
      character before s was white space. */
  function SpaceRuns(s: string, inRun: bool): nat
    decreases |s|
  {
    if s == [] then 0
    else if IsSpace(s[0]) then (if inRun then 0 else 1) + SpaceRuns(s[1..], true)
    else SpaceRuns(s[1..], false)
  }

  /** `s.trim().split(/\s+/).length`: one piece, plus one for every run of
      white space inside the trimmed text. */
  function WordCount(s: string): nat
  {
    1 + SpaceRuns(Trim(s), false)
  }

  lemma {:induction false} SpaceRunsPositive(s: string, inRun: bool)
    ensures SpaceRuns(s, inRun) > 0 ==> exists i :: 0 <= i < |s| && IsSpace(s[i])
    ensures (exists i :: 0 <= i < |s| && IsSpace(s[i])) && !inRun ==> SpaceRuns(s, inRun) > 0
    decreases |s|
  {
    if s != [] {
      SpaceRunsPositive(s[1..], IsSpace(s[0]));
      if SpaceRuns(s[1..], IsSpace(s[0])) > 0 {
        var i :| 0 <= i < |s[1..]| && IsSpace(s[1..][i]);
        assert IsSpace(s[i + 1]);
      }
      if !inRun && !IsSpace(s[0]) && exists i :: 0 <= i < |s| && IsSpace(s[i]) {
        var i :| 0 <= i < |s| && IsSpace(s[i]);
        assert IsSpace(s[1..][i - 1]);
      }
    }
  }

  /** A name has at least two words exactly when its trimmed text contains
      white space. */
  lemma WordCountTwo(s: string)
    ensures WordCount(s) >= 2 <==> exists i :: 0 <= i < |Trim(s)| && IsSpace(Trim(s)[i])
  {
    SpaceRunsPositive(Trim(s), false);
  }

  /** The value of a string of decimal digits (0 for the empty string). */
  function DigitsValue(s: string): (n: nat)
    requires AllDigits(s)
    decreases |s|
  {
    if s == [] then 0
    else
      assert IsDigit(s[|s| - 1]);
      10 * DigitsValue(s[..|s| - 1]) + (s[|s| - 1] as int - '0' as int)
  }

  /** `Number(s)` for the inputs a time field holds: surrounding white
      space is ignored, blank text is 0, a run of decimal digits is its
      value; anything else is NaN (None). */
  function ToNumber(s: string): (r: Option<int>)
    ensures r.Some? ==> r.value >= 0
    ensures Trim(s) == [] ==> r == Some(0)
  {
    var t := Trim(s);
    if AllDigits(t) then Some(DigitsValue(t)) else None
  }
}
