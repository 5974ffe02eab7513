/** Plain-feed normaliser `__strip_feed` (pura/modules/threat_intel.py,
    lines 133-148). A feed arrives as the list of its lines. Comment lines
    (starting with `#`) and empty lines are dropped, every other line gives
    its first whitespace-delimited token, and a token that matches the
    `IP_MULTI` pattern gives its `-`-separated pieces instead. The range is
    never expanded, order and duplicates are kept, and a kept line made only
    of whitespace raises IndexError. */
module PlainFeed {

  import opened Wrappers
  import opened Text
  import opened Indicators

  /** A line the comprehension keeps: not `''` and not starting with `#`. */
  predicate Kept(line: string) {
    line != [] && !StartsWith(line, "#")
  }

  /** The list comprehension of line 136: the first token of every kept line,
      in order, or the IndexError of the first kept line with no token. */
  function Tokens(lines: seq<string>): (r: Result<seq<string>>)
  {
    if lines == [] then Ok([])
    else if !Kept(lines[0]) then Tokens(lines[1..])
    else
      match FirstToken(lines[0])
      case None => Raised(IndexError(lines[0]))
      case Some(t) =>
        match Tokens(lines[1..])
        case Raised(e) => Raised(e)
        case Ok(ts) => Ok([t] + ts)
  }

  /** The comprehension raises only for a kept line of the feed made of
      whitespace alone. */
  lemma {:induction false} TokensRaised(lines: seq<string>)
    requires Tokens(lines).Raised?
    ensures Tokens(lines).error.line in lines
    ensures Kept(Tokens(lines).error.line) && AllSpace(Tokens(lines).error.line)
  {
    if !(Kept(lines[0]) && FirstToken(lines[0]).None?) {
      TokensRaised(lines[1..]);
    }
  }

  /** When the comprehension succeeds, no kept line is whitespace only. */
  lemma {:induction false} TokensOkLines(lines: seq<string>)
    requires Tokens(lines).Ok?
    ensures forall i :: 0 <= i < |lines| && Kept(lines[i]) ==> !AllSpace(lines[i])
  {
    if lines != [] {
      TokensOkLines(lines[1..]);
      forall i | 0 <= i < |lines| && Kept(lines[i])
        ensures !AllSpace(lines[i])
      {
        if i > 0 {
          assert lines[i] == lines[1..][i - 1];
        }
      }
    }
  }

  /** When the comprehension succeeds, every token is non-empty and free of
      whitespace. */
  lemma {:induction false} TokensOkTokens(lines: seq<string>)
    requires Tokens(lines).Ok?
    ensures forall j :: 0 <= j < |Tokens(lines).value| ==>
              Tokens(lines).value[j] != [] && NoSpace(Tokens(lines).value[j])
  {
    if lines != [] {
      TokensOkTokens(lines[1..]);
      if Kept(lines[0]) {
        var t := FirstToken(lines[0]).value;
        var ts := Tokens(lines[1..]).value;
        assert Tokens(lines).value == [t] + ts;
        forall j | 0 <= j < |[t] + ts|
          ensures ([t] + ts)[j] != [] && NoSpace(([t] + ts)[j])
        {
          if j > 0 {
            assert ([t] + ts)[j] == ts[j - 1];
          }
        }
      }
    }
  }

  /** The entries one token contributes: its pieces when it matches `IP_MULTI`
      (lines 141-145), else the token itself (line 147). */
  function Expand(env: Env, token: string): seq<string> {
    if env.ipMulti(token) then SplitOn(token, '-') else [token]
  }

  /** The entries all tokens contribute, in order. */
  function ExpandAll(env: Env, tokens: seq<string>): (r: seq<string>)
    ensures |r| >= |tokens|
  {
    if tokens == [] then []
    else ExpandAll(env, tokens[..|tokens| - 1]) + Expand(env, tokens[|tokens| - 1])
  }

  /** What `__strip_feed` returns or raises. */
  function Stripped(env: Env, lines: seq<string>): (r: Result<seq<string>>)
    ensures r.Raised? <==> Tokens(lines).Raised?
    ensures r.Ok? ==> |r.value| >= |Tokens(lines).value|
  {
    match Tokens(lines)
    case Raised(e) => Raised(e)
    case Ok(tokens) => Ok(ExpandAll(env, tokens))
  }

  /** `__strip_feed`: the comprehension, then the loop that grows `parsed`. */
  method StripFeed(env: Env, feed: seq<string>) returns (r: Result<seq<string>>)
    ensures r == Stripped(env, feed)
  {
    var tokens := Tokens(feed);
    if tokens.Raised? {
      return Raised(tokens.error);
    }
    var toks := tokens.value;
    var parsed: seq<string> := [];
    var i := 0;
    while i < |toks|
      invariant 0 <= i <= |toks|
      invariant parsed == ExpandAll(env, toks[..i])
    {
      var line := toks[i];
      if env.ipMulti(line) {
        var ips := SplitOn(line, '-');
        parsed := parsed + ips;
      } else {
        parsed := parsed + [line];
      }
      assert toks[..i + 1][..i] == toks[..i];
      i := i + 1;
    }
    assert toks[..i] == toks;
    r := Ok(parsed);
  }

  /** Sequential composition of two strip results: the first exception wins,
      otherwise the entries are concatenated. */
  function Concat(x: Result<seq<string>>, y: Result<seq<string>>): Result<seq<string>> {
    match x
    case Raised(e) => Raised(e)
    case Ok(a) =>
      match y
      case Raised(e) => Raised(e)
      case Ok(b) => Ok(a + b)
  }

  lemma {:induction false} TokensAppend(a: seq<string>, b: seq<string>)
    ensures Tokens(a + b) == Concat(Tokens(a), Tokens(b))
  {
    if a == [] {
      assert a + b == b;
      if Tokens(b).Ok? { assert [] + Tokens(b).value == Tokens(b).value; }
    } else {
      TokensAppend(a[1..], b);
      if Kept(a[0]) {
        TokensAppendKept(a, b);
      } else {
        TokensAppendSkipped(a, b);
      }
    }
  }

  /** Step of TokensAppend over a first line that is skipped. */
  lemma TokensAppendSkipped(a: seq<string>, b: seq<string>)
    requires a != [] && !Kept(a[0])
    requires Tokens(a[1..] + b) == Concat(Tokens(a[1..]), Tokens(b))
    ensures Tokens(a + b) == Concat(Tokens(a), Tokens(b))
  {
    var ab := a + b;
    assert ab[0] == a[0] && ab[1..] == a[1..] + b;
  }

  /** Step of TokensAppend over a first line that is kept. */
  lemma TokensAppendKept(a: seq<string>, b: seq<string>)
    requires a != [] && Kept(a[0])
    requires Tokens(a[1..] + b) == Concat(Tokens(a[1..]), Tokens(b))
    ensures Tokens(a + b) == Concat(Tokens(a), Tokens(b))
  {
    var ab := a + b;
    assert ab[0] == a[0] && ab[1..] == a[1..] + b;
    TokensKept(a);
    TokensKept(ab);
    match FirstToken(a[0])
    case None =>
    case Some(t) => ConcatAssoc(Ok([t]), Tokens(a[1..]), Tokens(b));
  }

  /** A kept line contributes its first token, or raises before the rest is read. */
  lemma TokensKept(lines: seq<string>)
    requires lines != [] && Kept(lines[0])
    ensures FirstToken(lines[0]).None? ==> Tokens(lines) == Raised(IndexError(lines[0]))
    ensures FirstToken(lines[0]).Some? ==>
              Tokens(lines) == Concat(Ok([FirstToken(lines[0]).value]), Tokens(lines[1..]))
  {
  }

  lemma ConcatAssoc(x: Result<seq<string>>, y: Result<seq<string>>, z: Result<seq<string>>)
    ensures Concat(x, Concat(y, z)) == Concat(Concat(x, y), z)
  {
    if x.Ok? && y.Ok? && z.Ok? {
      assert x.value + (y.value + z.value) == x.value + y.value + z.value;
    }
  }

  lemma {:induction false} ExpandAllAppend(env: Env, a: seq<string>, b: seq<string>)
    ensures ExpandAll(env, a + b) == ExpandAll(env, a) + ExpandAll(env, b)
    decreases |b|
  {
    if b == [] {
      assert a + b == a;
    } else {
      var b', last := b[..|b| - 1], b[|b| - 1];
      assert b == b' + [last];
      ExpandAllAppend(env, a, b');
      ExpandAllAppendStep(env, a, b', last);
    }
  }

  /** Step of ExpandAllAppend over the last token of the second part. */
  lemma ExpandAllAppendStep(env: Env, a: seq<string>, b: seq<string>, last: string)
    requires ExpandAll(env, a + b) == ExpandAll(env, a) + ExpandAll(env, b)
    ensures ExpandAll(env, a + (b + [last])) == ExpandAll(env, a) + ExpandAll(env, b + [last])
  {
    AppendAssoc(a, b, [last]);
    ExpandAllSnoc(env, a + b, last);
    ExpandAllSnoc(env, b, last);
    AppendAssoc(ExpandAll(env, a), ExpandAll(env, b), Expand(env, last));
  }

  lemma AppendAssoc<T>(x: seq<T>, y: seq<T>, z: seq<T>)
    ensures x + (y + z) == (x + y) + z
  {
  }

  /** One more token at the end contributes its expansion at the end. */
  lemma ExpandAllSnoc(env: Env, tokens: seq<string>, t: string)
    ensures ExpandAll(env, tokens + [t]) == ExpandAll(env, tokens) + Expand(env, t)
  {
    assert (tokens + [t])[..|tokens|] == tokens;
  }

  /** The normaliser treats a feed line by line: stripping a concatenation is
      the concatenation of the stripped parts, so source order and duplicates
      are kept, and the first failing line decides the exception. */
  lemma StrippedAppend(env: Env, a: seq<string>, b: seq<string>)
    ensures Stripped(env, a + b) == Concat(Stripped(env, a), Stripped(env, b))
  {
    TokensAppend(a, b);
    if Tokens(a).Ok? && Tokens(b).Ok? {
      ExpandAllAppend(env, Tokens(a).value, Tokens(b).value);
    }
  }

  /** What one line contributes: nothing for a comment or empty line,
      IndexError for a whitespace-only line, else the expansion of its first
      token. */
  lemma StrippedLine(env: Env, line: string)
    ensures !Kept(line) ==> Stripped(env, [line]) == Ok([])
    ensures Kept(line) && AllSpace(line) ==> Stripped(env, [line]) == Raised(IndexError(line))
    ensures Kept(line) && !AllSpace(line) ==>
              Stripped(env, [line]) == Ok(Expand(env, FirstToken(line).value))
  {
    assert [line][0] == line && [line][1..] == [];
    assert Tokens([]) == Ok([]);
    if !Kept(line) {
      assert Tokens([line]) == Tokens([]);
    } else if AllSpace(line) {
      assert Tokens([line]) == Raised(IndexError(line));
    } else {
      var t := FirstToken(line).value;
      assert Tokens([line]) == Ok([t] + []);
      assert [t] + [] == [t] && [t][..0] == [];
      assert ExpandAll(env, [t]) == ExpandAll(env, []) + Expand(env, t);
      assert ExpandAll(env, []) + Expand(env, t) == Expand(env, t);
      assert Stripped(env, [line]) == Ok(ExpandAll(env, [t]));
    }
  }

  /** Stripping raises exactly when some kept line is whitespace only (a line
      `'\r'` of a CRLF feed, for one). */
  lemma StrippedRaisesIff(env: Env, lines: seq<string>)
    ensures Stripped(env, lines).Raised? <==>
              exists i :: 0 <= i < |lines| && Kept(lines[i]) && AllSpace(lines[i])
  {
    if Stripped(env, lines).Raised? {
      TokensRaised(lines);
      var l := Tokens(lines).error.line;
      var i :| 0 <= i < |lines| && lines[i] == l;
    } else {
      TokensOkLines(lines);
    }
  }

  lemma {:induction false} SplitOnNoSpace(s: string, sep: char)
    requires NoSpace(s)
    ensures forall i :: 0 <= i < |SplitOn(s, sep)| ==> NoSpace(SplitOn(s, sep)[i])
  {
    if s != [] {
      SplitOnNoSpace(s[1..], sep);
    }
  }

  lemma {:induction false} ExpandAllNoSpace(env: Env, tokens: seq<string>)
    requires forall j :: 0 <= j < |tokens| ==> NoSpace(tokens[j])
    ensures forall k :: 0 <= k < |ExpandAll(env, tokens)| ==> NoSpace(ExpandAll(env, tokens)[k])
  {
    if tokens != [] {
      var last := tokens[|tokens| - 1];
      ExpandAllNoSpace(env, tokens[..|tokens| - 1]);
      if env.ipMulti(last) {
        SplitOnNoSpace(last, '-');
      }
    }
  }

  /** No entry of a stripped feed contains whitespace: the trailing hit
      counts and comments of a line never reach the matcher. */
  lemma StrippedNoSpace(env: Env, lines: seq<string>)
    requires Stripped(env, lines).Ok?
    ensures forall k :: 0 <= k < |Stripped(env, lines).value| ==>
              NoSpace(Stripped(env, lines).value[k])
  {
    TokensOkTokens(lines);
    ExpandAllNoSpace(env, Tokens(lines).value);
  }

  /** A dashed range contributes its two endpoints and nothing in between,
      and the note after it is dropped: `1.2.3.4-1.2.3.9 # known bad range`
      gives `1.2.3.4` and `1.2.3.9`. */
  lemma RangeLine(env: Env, a: string, b: string, note: string)
    requires a != [] && a[0] != '#' && NoSpace(a) && NoSpace(b) && '-' !in a && '-' !in b
    requires note != [] && IsSpace(note[0]) && env.ipMulti(a + "-" + b)
    ensures Stripped(env, [a + "-" + b + note]) == Ok([a, b])
  {
    var line := a + "-" + b + note;
    assert line[0] == a[0];
    assert Kept(line) && !AllSpace(line);
    RangeToken(a, b, note);
    RangeEnds(env, a, b);
    StrippedLine(env, line);
  }

  /** The first token of a range line stops at the whitespace before its note. */
  lemma RangeToken(a: string, b: string, note: string)
    requires NoSpace(a) && NoSpace(b) && note != [] && IsSpace(note[0])
    ensures FirstToken(a + "-" + b + note) == Some(a + "-" + b)
  {
    var range := a + "-" + b;
    forall i | 0 <= i < |range|
      ensures !IsSpace(range[i])
    {
      if i < |a| {
        assert range[i] == a[i];
      } else if i > |a| {
        assert range[i] == b[i - |a| - 1];
      }
    }
    assert [] + range + note == range + note;
    FirstTokenOf([], range, note);
  }

  /** An `IP_MULTI` token `a-b` gives exactly its two endpoints: the range
      is split, never expanded. */
  lemma RangeEnds(env: Env, a: string, b: string)
    requires '-' !in a && '-' !in b && env.ipMulti(a + "-" + b)
    ensures Expand(env, a + "-" + b) == [a, b]
  {
    var ends := [a, b];
    assert Join(ends, '-') == a + "-" + b;
    SplitOnJoin(ends, '-');
  }

  /** A comment line indented by whitespace does not start with `#`, so it is
      kept and its first token, starting with `#`, becomes an entry. */
  lemma IndentedCommentKept(env: Env)
    requires !env.ipMulti("#")
    ensures Stripped(env, [" # note"]) == Ok(["#"])
  {
    var line := " # note";
    assert line == " " + "#" + " note";
    assert Kept(line) && !AllSpace(line) by { assert line[0] == ' ' && line[1] == '#'; }
    FirstTokenOf(" ", "#", " note");
    StrippedLine(env, line);
  }
}
