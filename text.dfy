/** The Python `str` operations the engine relies on, on `seq<char>`:
    whitespace as `str.isspace` sees it, `strip()`, the first token of
    `split()`, `split(sep)` for a one-character separator, the substring
    test `needle in hay`, `replace` and an ASCII `lower`. */
module Text {

  import opened Wrappers

  /** Python's `str.isspace` for one character: what `split()` and `strip()` skip. */
  predicate IsSpace(c: char) {
    var n := c as int;
    (9 <= n <= 13) || (28 <= n <= 32) || n == 0x85 || n == 0xA0 || n == 0x1680
    || (0x2000 <= n <= 0x200A) || n == 0x2028 || n == 0x2029 || n == 0x202F
    || n == 0x205F || n == 0x3000
  }

  predicate AllSpace(s: string) {
    forall i :: 0 <= i < |s| ==> IsSpace(s[i])
  }

  predicate NoSpace(s: string) {
    forall i :: 0 <= i < |s| ==> !IsSpace(s[i])
  }

  /** `s.startswith(prefix)`. */
  predicate StartsWith(s: string, prefix: string) {
    prefix <= s
  }

  /** The input without its leading whitespace. */
  function LStrip(s: string): (r: string)
    ensures |r| <= |s| && r == s[|s| - |r|..]
    ensures AllSpace(s[..|s| - |r|])
    ensures r == [] || !IsSpace(r[0])
  {
    if s == [] || !IsSpace(s[0]) then s
    else
      var r := LStrip(s[1..]);
      LStripStep(s, r);
      r
  }

  /** Leading whitespace of the tail stays leading whitespace behind one
      more whitespace character. */
  lemma LStripStep(s: string, r: string)
    requires s != [] && IsSpace(s[0])
    requires |r| <= |s| - 1 && r == s[1..][|s| - 1 - |r|..] && AllSpace(s[1..][..|s| - 1 - |r|])
    ensures r == s[|s| - |r|..] && AllSpace(s[..|s| - |r|])
  {
    var n := |s| - |r|;
    forall i | 0 <= i < n
      ensures IsSpace(s[..n][i])
    {
      if i > 0 {
        assert s[..n][i] == s[1..][..n - 1][i - 1];
      }
    }
  }

  /** The input without its trailing whitespace. */
  function RStrip(s: string): (r: string)
    ensures |r| <= |s| && r == s[..|r|]
    ensures AllSpace(s[|r|..])
    ensures r == [] || !IsSpace(r[|r| - 1])
  {
    if s == [] || !IsSpace(s[|s| - 1]) then s
    else
      var r := RStrip(s[..|s| - 1]);
      RStripStep(s, r);
      r
  }

  /** Trailing whitespace of the front stays trailing whitespace before one
      more whitespace character. */
  lemma RStripStep(s: string, r: string)
    requires s != [] && IsSpace(s[|s| - 1])
    requires |r| <= |s| - 1 && r == s[..|s| - 1][..|r|] && AllSpace(s[..|s| - 1][|r|..])
    ensures r == s[..|r|] && AllSpace(s[|r|..])
  {
    forall i | |r| <= i < |s|
      ensures IsSpace(s[i])
    {
      if i < |s| - 1 {
        assert s[i] == s[..|s| - 1][|r|..][i - |r|];
      }
    }
  }

  /** `s.strip()`: whitespace is taken off the front, then off the back. */
  function Strip(s: string): (r: string)
    ensures |r| <= |s|
    decreases |s|
  {
    if s != [] && IsSpace(s[0]) then Strip(s[1..])
    else if s != [] && IsSpace(s[|s| - 1]) then Strip(s[..|s| - 1])
    else s
  }

  /** The strip has no whitespace at either end. */
  lemma {:induction false} StripTrims(s: string)
    ensures var r := Strip(s); r == [] || (!IsSpace(r[0]) && !IsSpace(r[|r| - 1]))
    decreases |s|
  {
    if s != [] && IsSpace(s[0]) {
      StripTrims(s[1..]);
    } else if s != [] && IsSpace(s[|s| - 1]) {
      StripTrims(s[..|s| - 1]);
    }
  }

  /** `strip()` is `lstrip()` followed by `rstrip()`: the input with its
      leading and its trailing whitespace removed, and nothing else. */
  lemma {:induction false} StripBothEnds(s: string)
    ensures Strip(s) == RStrip(LStrip(s))
    decreases |s|
  {
    if s != [] && IsSpace(s[0]) {
      StripBothEnds(s[1..]);
      LStripFront(s);
    } else if s != [] && IsSpace(s[|s| - 1]) {
      StripBothEnds(s[..|s| - 1]);
      StripBack(s);
    } else {
      LStripClean(s);
    }
  }

  lemma LStripFront(s: string)
    requires s != [] && IsSpace(s[0])
    ensures LStrip(s) == LStrip(s[1..])
  {
  }

  lemma LStripClean(s: string)
    requires s == [] || !IsSpace(s[0])
    ensures LStrip(s) == s
  {
  }

  /** Trailing whitespace of a string with a clean start comes off on the
      right only. */
  lemma StripBack(s: string)
    requires s != [] && !IsSpace(s[0]) && IsSpace(s[|s| - 1])
    ensures LStrip(s) == s && LStrip(s[..|s| - 1]) == s[..|s| - 1]
    ensures RStrip(s) == RStrip(s[..|s| - 1])
  {
    var t := s[..|s| - 1];
    LStripClean(s);
    if t != [] {
      assert t[0] == s[0];
    }
    LStripClean(t);
  }

  /** A string with no whitespace at its ends is its own strip. */
  lemma StripClean(s: string)
    requires s == [] || (!IsSpace(s[0]) && !IsSpace(s[|s| - 1]))
    ensures Strip(s) == s
  {
  }

  /** The longest prefix without whitespace. */
  function TakeToken(s: string): (r: string)
    ensures r <= s && NoSpace(r)
    ensures |r| == |s| || IsSpace(s[|r|])
  {
    if s == [] || IsSpace(s[0]) then []
    else [s[0]] + TakeToken(s[1..])
  }

  /** `s.split()[0]`: `None` where Python raises IndexError because the
      line is whitespace only; otherwise the maximal run of non-whitespace
      after the leading whitespace. */
  function FirstToken(s: string): (r: Option<string>)
    ensures r.None? <==> AllSpace(s)
    ensures r.Some? ==>
              var lead := |s| - |LStrip(s)|;
              && AllSpace(s[..lead])
              && r.value != [] && NoSpace(r.value)
              && r.value <= s[lead..]
              && (lead + |r.value| == |s| || IsSpace(s[lead + |r.value|]))
  {
    var t := LStrip(s);
    if t == [] then
      assert s[..|s|] == s;
      None
    else
      assert !AllSpace(s) by { assert s[|s| - |t|] == t[0]; }
      Some(TakeToken(t))
  }

  lemma {:induction false} LStripOf(lead: string, t: string)
    requires AllSpace(lead) && (t == [] || !IsSpace(t[0]))
    ensures LStrip(lead + t) == t
  {
    if lead == [] {
      assert lead + t == t;
    } else {
      assert (lead + t)[0] == lead[0] && (lead + t)[1..] == lead[1..] + t;
      LStripOf(lead[1..], t);
    }
  }

  lemma {:induction false} TakeTokenOf(t: string, rest: string)
    requires NoSpace(t) && (rest == [] || IsSpace(rest[0]))
    ensures TakeToken(t + rest) == t
  {
    if t == [] {
      assert t + rest == rest;
    } else {
      assert (t + rest)[0] == t[0] && (t + rest)[1..] == t[1..] + rest;
      TakeTokenOf(t[1..], rest);
    }
  }

  /** A line laid out as whitespace, a token, then whitespace or nothing has
      that token first. */
  lemma FirstTokenOf(lead: string, t: string, rest: string)
    requires AllSpace(lead) && t != [] && NoSpace(t) && (rest == [] || IsSpace(rest[0]))
    ensures FirstToken(lead + t + rest) == Some(t)
  {
    assert lead + t + rest == lead + (t + rest);
    LStripOf(lead, t + rest);
    TakeTokenOf(t, rest);
  }

  /** `s.split(sep)` for a one-character separator: never empty, and no
      piece holds the separator. */
  function SplitOn(s: string, sep: char): (r: seq<string>)
    ensures |r| >= 1
    ensures forall i :: 0 <= i < |r| ==> sep !in r[i]
  {
    if s == [] then [[]]
    else
      var rest := SplitOn(s[1..], sep);
      if s[0] == sep then [[]] + rest
      else [[s[0]] + rest[0]] + rest[1..]
  }

  /** `sep.join(parts)`: the inverse of SplitOn. */
  function Join(parts: seq<string>, sep: char): string
    requires |parts| >= 1
  {
    if |parts| == 1 then parts[0] else parts[0] + [sep] + Join(parts[1..], sep)
  }

  lemma {:induction false} JoinSplitOn(s: string, sep: char)
    ensures Join(SplitOn(s, sep), sep) == s
  {
    if s != [] {
      var rest := SplitOn(s[1..], sep);
      JoinSplitOn(s[1..], sep);
      if s[0] == sep {
        assert SplitOn(s, sep)[1..] == rest;
      } else {
        var r := SplitOn(s, sep);
        if |rest| == 1 {
          assert r == [[s[0]] + rest[0]];
        } else {
          assert r[1..] == rest[1..];
          assert Join(r, sep) == [s[0]] + rest[0] + [sep] + Join(rest[1..], sep);
        }
      }
    }
  }

  lemma {:induction false} SplitOnPrefix(a: string, t: string, sep: char)
    requires sep !in a
    ensures SplitOn(a + t, sep) == [a + SplitOn(t, sep)[0]] + SplitOn(t, sep)[1..]
  {
    if a != [] {
      SplitOnPrefix(a[1..], t, sep);
      assert (a + t)[1..] == a[1..] + t;
      assert [a[0]] + (a[1..] + SplitOn(t, sep)[0]) == a + SplitOn(t, sep)[0];
    } else {
      var p := SplitOn(t, sep);
      assert a + t == t && a + p[0] == p[0];
      assert p == [p[0]] + p[1..];
    }
  }

  /** Splitting a join of separator-free pieces gives the pieces back. */
  lemma {:induction false} SplitOnJoin(parts: seq<string>, sep: char)
    requires |parts| >= 1
    requires forall i :: 0 <= i < |parts| ==> sep !in parts[i]
    ensures SplitOn(Join(parts, sep), sep) == parts
  {
    if |parts| == 1 {
      SplitOnPrefix(parts[0], [], sep);
      assert parts[0] + [] == parts[0];
    } else {
      var j := Join(parts[1..], sep);
      SplitOnJoin(parts[1..], sep);
      SplitOnPrefix(parts[0], [sep] + j, sep);
      assert parts[0] + [sep] + j == parts[0] + ([sep] + j);
      assert ([sep] + j)[1..] == j;
      assert SplitOn([sep] + j, sep) == [[]] + parts[1..];
      assert parts[0] + [] == parts[0];
    }
  }

  /** Python's `needle in hay` on strings. */
  predicate Contains(hay: string, needle: string) {
    exists k :: 0 <= k <= |hay| && needle <= hay[k..]
  }

  lemma ContainsSelf(s: string)
    ensures Contains(s, s)
  {
    assert s <= s[0..];
  }

  /** A string that contains `needle` contains every prefix of it. */
  lemma ContainsPrefix(hay: string, needle: string, pre: string)
    requires Contains(hay, needle) && pre <= needle
    ensures Contains(hay, pre)
  {
    var k :| 0 <= k <= |hay| && needle <= hay[k..];
    assert pre <= hay[k..];
  }

  lemma ContainsTail(s: string, needle: string)
    requires s != [] && Contains(s[1..], needle)
    ensures Contains(s, needle)
  {
    var k :| 0 <= k <= |s[1..]| && needle <= s[1..][k..];
    assert s[1..][k..] == s[k + 1..];
  }

  /** `s.replace(pat, rep)`: every leftmost, non-overlapping occurrence. */
  function Replace(s: string, pat: string, rep: string): (r: string)
    requires pat != []
    ensures rep == pat ==> r == s
    decreases |s|
  {
    if s == [] then []
    else if pat <= s then
      assert s == pat + s[|pat|..];
      rep + Replace(s[|pat|..], pat, rep)
    else [s[0]] + Replace(s[1..], pat, rep)
  }

  /** A string without an occurrence of the pattern is left as it is. */
  lemma {:induction false} ReplaceAbsent(s: string, pat: string, rep: string)
    requires pat != [] && !Contains(s, pat)
    ensures Replace(s, pat, rep) == s
  {
    if s != [] {
      assert !(pat <= s) by { assert s[0..] == s; }
      if Contains(s[1..], pat) { ContainsTail(s, pat); }
      ReplaceAbsent(s[1..], pat, rep);
    }
  }

  /** Text that cannot start an occurrence passes through Replace untouched. */
  lemma {:induction false} ReplaceSkips(a: string, t: string, pat: string, rep: string)
    requires pat != [] && pat[0] !in a
    ensures Replace(a + t, pat, rep) == a + Replace(t, pat, rep)
  {
    if a != [] {
      var s := a + t;
      assert s[0] == a[0] && s[1..] == a[1..] + t;
      assert !(pat <= s);
      assert Replace(s, pat, rep) == [a[0]] + Replace(a[1..] + t, pat, rep);
      ReplaceSkips(a[1..], t, pat, rep);
      assert [a[0]] + (a[1..] + Replace(t, pat, rep)) == a + Replace(t, pat, rep);
    } else {
      assert a + t == t;
    }
  }

  lemma ReplaceHit(t: string, pat: string, rep: string)
    requires pat != []
    ensures Replace(pat + t, pat, rep) == rep + Replace(t, pat, rep)
  {
    assert (pat + t)[|pat|..] == t;
  }

  function LowerChar(c: char): char {
    if 'A' <= c <= 'Z' then (c as int + 32) as char else c
  }

  /** `s.lower()` on ASCII letters. */
  function Lower(s: string): (r: string)
    ensures |r| == |s|
    ensures forall i :: 0 <= i < |s| ==> r[i] == LowerChar(s[i])
  {
    seq(|s|, i requires 0 <= i < |s| => LowerChar(s[i]))
  }
}
