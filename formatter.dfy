/**
 * The editor's "Format" action (`formatXMLString`): three regular-expression
 * clean-ups, a split into tag and text tokens, and one line per non-blank
 * token indented two spaces per open element.
 */
module Formatter {
  import opened Strings
  import opened Markup

  /** `s` contains no `>`, whitespace, `<` sequence. */
  predicate NoTagGap(s: string) {
    forall i, j :: 0 <= i < j < |s| && s[i] == '>' && s[j] == '<' ==> !(i + 1 < j && AllWhitespace(s[i + 1..j]))
  }

  /** `s.replace(/>\s+</g, "><")`: whitespace between a `>` and the next `<` is removed. */
  function CollapseTagGaps(s: string): (r: string)
    ensures |r| <= |s|
    decreases |s|
  {
    if s == [] then ""
    else if s[0] == '>' && 0 < WhitespaceRun(s[1..]) < |s| - 1 && s[1 + WhitespaceRun(s[1..])] == '<' then
      "><" + CollapseTagGaps(s[2 + WhitespaceRun(s[1..])..])
    else [s[0]] + CollapseTagGaps(s[1..])
  }

  /** No newline is followed by whitespace. */
  predicate NoLineIndent(s: string) {
    forall i :: 0 <= i < |s| - 1 && s[i] == '\n' ==> !IsWhitespace(s[i + 1])
  }

  /** `s.replace(/\n\s*\/g, "\n")`: every newline swallows the whitespace after it. */
  function CollapseLineIndents(s: string): (r: string)
    ensures |r| <= |s|
    ensures s != [] ==> r != [] && r[0] == s[0]
    ensures NoLineIndent(r)
    decreases |s|
  {
    if s == [] then ""
    else if s[0] == '\n' then
      var rest := s[1 + WhitespaceRun(s[1..])..];
      var tail := CollapseLineIndents(rest);
      assert tail != [] ==> !IsWhitespace(tail[0]);
      var r := "\n" + tail;
      assert forall i :: 1 <= i < |r| ==> r[i] == tail[i - 1];
      r
    else
      var tail := CollapseLineIndents(s[1..]);
      var r := [s[0]] + tail;
      assert forall i :: 1 <= i < |r| ==> r[i] == tail[i - 1];
      r
  }

  /** The text the token split works on. */
  function PrePass(s: string): string
  {
    Trim(CollapseLineIndents(CollapseTagGaps(s)))
  }

  /** A token of the form `<...>` with no `>` before its last character. */
  predicate IsTagToken(t: string) {
    |t| >= 2 && t[0] == '<' && t[|t| - 1] == '>' && '>' !in t[..|t| - 1]
  }

  /**
   * `s.match(/<[^>]*>|[^<]+/g) || []`: a `<` up to the next `>`, or a run of
   * characters up to the next `<`. A `<` with no `>` after it starts no match
   * and is skipped.
   */
  function FormatTokens(s: string): (ts: seq<string>)
    decreases |s|
  {
    if s == [] then []
    else if s[0] == '<' then
      var j := IndexOf(s[1..], '>');
      if j < |s| - 1 then [s[..j + 2]] + FormatTokens(s[j + 2..])
      else FormatTokens(s[1..])
    else
      var k := IndexOf(s, '<');
      [s[..k]] + FormatTokens(s[k..])
  }

  /** Every token is a complete tag or a non-empty run of text without `<`. */
  lemma {:induction false} FormatTokensShape(s: string)
    ensures forall t :: t in FormatTokens(s) ==> IsTagToken(t) || (t != [] && '<' !in t)
    decreases |s|
  {
    if s != [] {
      if s[0] == '<' {
        var j := IndexOf(s[1..], '>');
        if j < |s| - 1 {
          assert s[1..][j] == '>';
          assert s[..j + 2][..j + 1] == s[..j + 1];
          assert '>' !in s[..j + 1] by {
            assert s[..j + 1] == [s[0]] + s[1..][..j];
          }
          FormatTokensShape(s[j + 2..]);
        } else {
          FormatTokensShape(s[1..]);
        }
      } else {
        FormatTokensShape(s[IndexOf(s, '<')..]);
      }
    }
  }

  /** The indentation in force for a token: a closing tag first steps out, never below zero. */
  function IndentBefore(token: string, indent: nat): nat
  {
    if StartsWith(token, "</") then (if indent > 0 then indent - 1 else 0) else indent
  }

  /** An opening tag that is neither a closing tag nor self-closing steps in. */
  predicate Opens(token: string) {
    StartsWith(token, "<") && !StartsWith(token, "</") && !EndsWith(token, "/>")
  }

  function IndentAfter(token: string, indent: nat): nat
  {
    if Opens(token) then IndentBefore(token, indent) + 1 else IndentBefore(token, indent)
  }

  /** The line a token contributes: none for a blank token, else its trimmed text at its indentation. */
  function LineFor(token: string, indent: nat): seq<string>
  {
    if Trim(token) != "" then [Spaces(2 * IndentBefore(token, indent)) + Trim(token)] else []
  }

  /** The lines the tokens produce, starting at indentation `indent`. */
  function Emit(tokens: seq<string>, indent: nat): seq<string>
    decreases |tokens|
  {
    if tokens == [] then [] else LineFor(tokens[0], indent) + Emit(tokens[1..], IndentAfter(tokens[0], indent))
  }

  /** Emitting from position `i` gives the line of token `i`, then the rest from the indent it leaves. */
  lemma EmitAt(tokens: seq<string>, i: nat, indent: nat)
    requires i < |tokens|
    ensures Emit(tokens[i..], indent) == LineFor(tokens[i], indent) + Emit(tokens[i + 1..], IndentAfter(tokens[i], indent))
  {
    assert tokens[i..][1..] == tokens[i + 1..];
  }

  /** `formatXMLString` */
  method FormatXmlString(xml: string) returns (formatted: string)
    ensures formatted == Join(Emit(FormatTokens(PrePass(xml)), 0), "\n")
  {
    var tokens := FormatTokens(PrePass(xml));
    var lines := IndentTokens(tokens);
    formatted := Join(lines, "\n");
  }

  /** The `for (const token of tokens)` loop of `formatXMLString`. */
  method IndentTokens(tokens: seq<string>) returns (lines: seq<string>)
    ensures lines == Emit(tokens, 0)
  {
    var indent: nat := 0;
    lines := [];
    assert tokens[0..] == tokens;
    for i := 0 to |tokens|
      invariant lines + Emit(tokens[i..], indent) == Emit(tokens, 0)
    {
      var token := tokens[i];
      ghost var start, before := indent, lines;
      if StartsWith(token, "</") {
        indent := if indent > 0 then indent - 1 else 0;
      }
      assert indent == IndentBefore(token, start);
      var trimmed := Trim(token);
      if trimmed != "" {
        lines := lines + [Spaces(2 * indent) + trimmed];
      }
      assert lines == before + LineFor(token, start);
      if StartsWith(token, "<") && !StartsWith(token, "</") && !EndsWith(token, "/>") {
        indent := indent + 1;
      }
      assert indent == IndentAfter(token, start);
      EmitAt(tokens, i, start);
      ConcatAssoc(before, LineFor(token, start), Emit(tokens[i + 1..], indent));
    }
    assert tokens[|tokens|..] == [];
    assert Emit(tokens[|tokens|..], indent) == [];
  }

  /** The number of tokens that are not blank. */
  function NonBlankCount(tokens: seq<string>): nat
  {
    if tokens == [] then 0 else (if Trim(tokens[0]) != "" then 1 else 0) + NonBlankCount(tokens[1..])
  }

  /** One line per non-blank token. */
  lemma {:induction false} EmitCount(tokens: seq<string>, indent: nat)
    ensures |Emit(tokens, indent)| == NonBlankCount(tokens)
    decreases |tokens|
  {
    if tokens != [] {
      EmitCount(tokens[1..], IndentAfter(tokens[0], indent));
    }
  }

  /** Every line is some indentation followed by text that ends in a non-whitespace character. */
  lemma {:induction false} EmitLinesEndInText(tokens: seq<string>, indent: nat)
    ensures forall l :: l in Emit(tokens, indent) ==> l != [] && !IsWhitespace(l[|l| - 1])
    decreases |tokens|
  {
    if tokens != [] {
      var head := LineFor(tokens[0], indent);
      var rest := Emit(tokens[1..], IndentAfter(tokens[0], indent));
      EmitLinesEndInText(tokens[1..], IndentAfter(tokens[0], indent));
      LineEndsInText(tokens[0], indent);
      assert Emit(tokens, indent) == head + rest;
    }
  }

  lemma LineEndsInText(token: string, indent: nat)
    ensures forall l :: l in LineFor(token, indent) ==> l != [] && !IsWhitespace(l[|l| - 1])
  {
    var t := Trim(token);
    if t != "" {
      TrimEnds(token);
      LastOfConcat(Spaces(2 * IndentBefore(token, indent)), t);
    }
  }

  lemma LastOfConcat<T>(a: seq<T>, b: seq<T>)
    requires b != []
    ensures |a + b| > 0 && (a + b)[|a + b| - 1] == b[|b| - 1]
  {
  }

  lemma WhitespaceHasNoTagGap(s: string)
    requires AllWhitespace(s)
    ensures NoTagGap(s)
  {
  }

  /** Text without a `>`-whitespace-`<` gap passes the first clean-up unchanged. */
  lemma {:induction false} CollapseTagGapsIdentity(s: string)
    requires NoTagGap(s)
    ensures CollapseTagGaps(s) == s
    decreases |s|
  {
    if s != [] {
      NoTagGapSplit(s);
      CollapseTagGapsIdentity(s[1..]);
    }
  }

  /** A text without gaps has none after its first character, and a leading `>` is not followed by one. */
  lemma NoTagGapSplit(s: string)
    requires NoTagGap(s) && s != []
    ensures NoTagGap(s[1..])
    ensures s[0] == '>' ==> NoGapAhead(s[1..])
  {
    var t := s[1..];
    forall i, j | 0 <= i < j < |t| && t[i] == '>' && t[j] == '<'
      ensures !(i + 1 < j && AllWhitespace(t[i + 1..j]))
    {
      assert s[i + 1] == '>' && s[j + 1] == '<';
      if i + 1 < j {
        assert !AllWhitespace(s[i + 2..j + 1]);
        var m :| 0 <= m < j - i - 1 && !IsWhitespace(s[i + 2..j + 1][m]);
        assert t[i + 1..j][m] == s[i + 2..j + 1][m];
      }
    }
    if s[0] == '>' {
      var k := WhitespaceRun(t);
      if 0 < k < |t| {
        assert s[1..1 + k] == t[..k];
      }
    }
  }

  /** The first clean-up keeps the leading whitespace run and the character that ends it. */
  lemma {:induction false} CollapseTagGapsKeepsLead(s: string)
    ensures WhitespaceRun(CollapseTagGaps(s)) == WhitespaceRun(s)
    ensures WhitespaceRun(s) < |s| ==>
      WhitespaceRun(s) < |CollapseTagGaps(s)| && CollapseTagGaps(s)[WhitespaceRun(s)] == s[WhitespaceRun(s)]
    decreases |s|
  {
    if s != [] && IsWhitespace(s[0]) {
      var t := CollapseTagGaps(s[1..]);
      assert CollapseTagGaps(s) == [s[0]] + t;
      CollapseTagGapsKeepsLead(s[1..]);
    }
  }

  /** After the first clean-up no `>` is separated from a following `<` by whitespace alone. */
  lemma {:induction false} CollapseTagGapsLeavesNoGap(s: string)
    ensures NoTagGap(CollapseTagGaps(s))
    decreases |s|
  {
    if s != [] {
      var k := WhitespaceRun(s[1..]);
      if s[0] == '>' && 0 < k < |s| - 1 && s[1 + k] == '<' {
        CollapseTagGapsLeavesNoGap(s[2 + k..]);
        NoTagGapAfterPair(CollapseTagGaps(s[2 + k..]));
      } else {
        var t := CollapseTagGaps(s[1..]);
        CollapseTagGapsLeavesNoGap(s[1..]);
        CollapseTagGapsKeepsLead(s[1..]);
        NoTagGapAfterChar(s[0], t);
      }
    }
  }

  lemma NoTagGapAfterPair(t: string)
    requires NoTagGap(t)
    ensures NoTagGap("><" + t)
  {
    var r := "><" + t;
    forall i, j | 0 <= i < j < |r| && r[i] == '>' && r[j] == '<'
      ensures !(i + 1 < j && AllWhitespace(r[i + 1..j]))
    {
      if i == 0 && 1 < j {
        assert r[i + 1..j][0] == '<';
      } else if 2 <= i {
        NoGapShifted("><", t, i, j);
      }
    }
  }

  /** Prefixing one character opens a gap only when it is a `>` and `t` starts with whitespace and then `<`. */
  lemma NoTagGapAfterChar(c: char, t: string)
    requires NoTagGap(t)
    requires c == '>' ==> NoGapAhead(t)
    ensures NoTagGap([c] + t)
  {
    var r := [c] + t;
    forall i, j | 0 <= i < j < |r| && r[i] == '>' && r[j] == '<'
      ensures !(i + 1 < j && AllWhitespace(r[i + 1..j]))
    {
      if 1 <= i {
        NoGapShifted([c], t, i, j);
      } else {
        NoGapFromStart(c, t, j - 1);
      }
    }
  }

  /** A gap inside `t` is not created by putting `p` in front of it. */
  lemma NoGapShifted(p: string, t: string, i: nat, j: nat)
    requires NoTagGap(t) && |p| <= i < j < |p| + |t|
    ensures (p + t)[i] == '>' && (p + t)[j] == '<' ==> !(i + 1 < j && AllWhitespace((p + t)[i + 1..j]))
  {
    var r := p + t;
    if r[i] == '>' && r[j] == '<' && i + 1 < j {
      assert r[i + 1..j] == t[i - |p| + 1..j - |p|];
      assert t[i - |p|] == '>' && t[j - |p|] == '<';
    }
  }

  lemma NoGapFromStart(c: char, t: string, m: nat)
    requires m < |t| && t[m] == '<'
    ensures 0 < m && AllWhitespace(([c] + t)[1..m + 1]) ==> !NoGapAhead(t)
  {
    if 0 < m && AllWhitespace(([c] + t)[1..m + 1]) {
      assert t[..m] == ([c] + t)[1..m + 1];
      WhitespaceRunAt(t, m);
    }
  }

  /** The first clean-up deletes whitespace and nothing else. */
  lemma {:induction false} CollapseTagGapsDropsOnlyWhitespace(s: string)
    ensures NonWhitespace(CollapseTagGaps(s)) == NonWhitespace(s)
    decreases |s|
  {
    if s != [] {
      var k := WhitespaceRun(s[1..]);
      if s[0] == '>' && 0 < k < |s| - 1 && s[1 + k] == '<' {
        var rest := s[2 + k..];
        CollapseTagGapsDropsOnlyWhitespace(rest);
        NonWhitespaceOfGap(s, k);
        NonWhitespaceOfPair(CollapseTagGaps(rest));
      } else {
        CollapseTagGapsDropsOnlyWhitespace(s[1..]);
        NonWhitespaceOfCons(s[0], CollapseTagGaps(s[1..]));
        NonWhitespaceOfCons(s[0], s[1..]);
        assert s == [s[0]] + s[1..];
      }
    }
  }

  /** The second clean-up deletes whitespace and nothing else. */
  lemma {:induction false} CollapseLineIndentsDropsOnlyWhitespace(s: string)
    ensures NonWhitespace(CollapseLineIndents(s)) == NonWhitespace(s)
    decreases |s|
  {
    if s != [] {
      if s[0] == '\n' {
        var k := WhitespaceRun(s[1..]);
        var rest := s[1 + k..];
        CollapseLineIndentsDropsOnlyWhitespace(rest);
        NonWhitespaceOfCons('\n', CollapseLineIndents(rest));
        assert s == ['\n'] + (s[1..][..k] + rest);
        NonWhitespaceOfCons('\n', s[1..][..k] + rest);
        NonWhitespaceAppend(s[1..][..k], rest);
        NonWhitespaceOfBlank(s[1..][..k]);
      } else {
        CollapseLineIndentsDropsOnlyWhitespace(s[1..]);
        NonWhitespaceOfCons(s[0], CollapseLineIndents(s[1..]));
        NonWhitespaceOfCons(s[0], s[1..]);
        assert s == [s[0]] + s[1..];
      }
    }
  }

  /** The three clean-ups together delete whitespace and nothing else. */
  lemma PrePassKeepsContent(s: string)
    ensures NonWhitespace(PrePass(s)) == NonWhitespace(s)
  {
    CollapseTagGapsDropsOnlyWhitespace(s);
    CollapseLineIndentsDropsOnlyWhitespace(CollapseTagGaps(s));
    TrimKeepsNonWhitespace(CollapseLineIndents(CollapseTagGaps(s)));
  }

  lemma NonWhitespaceOfCons(c: char, t: string)
    ensures NonWhitespace([c] + t) == (if IsWhitespace(c) then "" else [c]) + NonWhitespace(t)
  {
    assert ([c] + t)[1..] == t;
  }

  lemma NonWhitespaceOfPair(t: string)
    ensures NonWhitespace("><" + t) == "><" + NonWhitespace(t)
  {
    NonWhitespaceOfCons('<', t);
    assert "><" + t == ['>'] + (['<'] + t);
    NonWhitespaceOfCons('>', ['<'] + t);
  }

  /** A `>`, a whitespace run and a `<` contribute just `><`. */
  lemma NonWhitespaceOfGap(s: string, k: nat)
    requires 0 < k < |s| - 1 && s[0] == '>' && s[1 + k] == '<' && AllWhitespace(s[1..][..k])
    ensures NonWhitespace(s) == "><" + NonWhitespace(s[2 + k..])
  {
    var rest := s[2 + k..];
    var w := s[1..][..k];
    assert s[1 + k..] == ['<'] + rest;
    assert s[1..] == w + s[1 + k..];
    assert s == ['>'] + s[1..];
    NonWhitespaceOfBracketedBlank(w, rest);
  }

  lemma NonWhitespaceOfBracketedBlank(w: string, rest: string)
    requires AllWhitespace(w)
    ensures NonWhitespace(['>'] + (w + (['<'] + rest))) == "><" + NonWhitespace(rest)
  {
    NonWhitespaceOfCons('>', w + (['<'] + rest));
    NonWhitespaceAppend(w, ['<'] + rest);
    NonWhitespaceOfBlank(w);
    NonWhitespaceOfCons('<', rest);
  }

  /** Text without a newline followed by whitespace passes the second clean-up unchanged. */
  lemma {:induction false} CollapseLineIndentsIdentity(s: string)
    requires NoLineIndent(s)
    ensures CollapseLineIndents(s) == s
    decreases |s|
  {
    if s != [] {
      assert NoLineIndent(s[1..]) by {
        forall i | 0 <= i < |s[1..]| - 1 && s[1..][i] == '\n'
          ensures !IsWhitespace(s[1..][i + 1])
        {
          assert s[1..][i + 1] == s[i + 2];
        }
      }
      CollapseLineIndentsIdentity(s[1..]);
      if s[0] == '\n' {
        assert WhitespaceRun(s[1..]) == 0;
      }
    }
  }

  /** Both clean-ups keep whitespace-only text whitespace-only. */
  lemma {:induction false} CollapseKeepsBlank(s: string)
    requires AllWhitespace(s)
    ensures AllWhitespace(CollapseTagGaps(s)) && AllWhitespace(CollapseLineIndents(CollapseTagGaps(s)))
    decreases |s|
  {
    WhitespaceHasNoTagGap(s);
    CollapseTagGapsIdentity(s);
    BlankLineIndents(s);
  }

  lemma {:induction false} BlankLineIndents(s: string)
    requires AllWhitespace(s)
    ensures AllWhitespace(CollapseLineIndents(s))
    decreases |s|
  {
    if s != [] {
      if s[0] == '\n' {
        var rest := s[1 + WhitespaceRun(s[1..])..];
        assert rest == s[1..][WhitespaceRun(s[1..])..];
        BlankLineIndents(rest);
      } else {
        BlankLineIndents(s[1..]);
      }
    }
  }

  /** Formatting empty or whitespace-only text gives the empty string. */
  lemma BlankFormatsToEmpty(xml: string)
    requires AllWhitespace(xml)
    ensures Join(Emit(FormatTokens(PrePass(xml)), 0), "\n") == ""
  {
    CollapseKeepsBlank(xml);
    TrimEmptyIff(CollapseLineIndents(CollapseTagGaps(xml)));
  }

  /** The indentation in force after the tokens. */
  function FinalIndent(tokens: seq<string>, indent: nat): nat
    decreases |tokens|
  {
    if tokens == [] then indent else FinalIndent(tokens[1..], IndentAfter(tokens[0], indent))
  }

  /** Formatting two token runs one after the other: the second starts where the first left the indentation. */
  lemma {:induction false} EmitAppend(a: seq<string>, b: seq<string>, indent: nat)
    ensures Emit(a + b, indent) == Emit(a, indent) + Emit(b, FinalIndent(a, indent))
    ensures FinalIndent(a + b, indent) == FinalIndent(b, FinalIndent(a, indent))
    decreases |a|
  {
    if a == [] {
      assert a + b == b;
    } else {
      assert (a + b)[0] == a[0];
      assert (a + b)[1..] == a[1..] + b;
      EmitAppend(a[1..], b, IndentAfter(a[0], indent));
      ConcatAssoc(LineFor(a[0], indent), Emit(a[1..], IndentAfter(a[0], indent)), Emit(b, FinalIndent(a, indent)));
    }
  }

  /** The tokens of a tree: its opening tag, its children's tokens and its closing tag; text as it is. */
  function NodeTokens(n: Node): seq<string>
    decreases n
  {
    match n
    case Element(name, children) => ["<" + name + ">"] + TreeTokens(children) + ["</" + name + ">"]
    case CharData(text) => [text]
  }

  function TreeTokens(f: seq<Node>): seq<string>
    decreases f
  {
    if f == [] then [] else NodeTokens(f[0]) + TreeTokens(f[1..])
  }

  /**
   * The intended layout: each element's tags on their own lines at its depth,
   * its children one level deeper, and each non-blank text trimmed at its depth.
   */
  function NodeLayout(n: Node, depth: nat): seq<string>
    decreases n
  {
    match n
    case Element(name, children) =>
      [Spaces(2 * depth) + "<" + name + ">"] + Layout(children, depth + 1) + [Spaces(2 * depth) + "</" + name + ">"]
    case CharData(text) => if Trim(text) != "" then [Spaces(2 * depth) + Trim(text)] else []
  }

  function Layout(f: seq<Node>, depth: nat): seq<string>
    decreases f
  {
    if f == [] then [] else NodeLayout(f[0], depth) + Layout(f[1..], depth)
  }

  /** An opening tag is printed at the current depth and opens one level. */
  lemma OpenTagLine(name: string, depth: nat)
    requires IsTagName(name)
    ensures Emit(["<" + name + ">"], depth) == [Spaces(2 * depth) + "<" + name + ">"]
    ensures FinalIndent(["<" + name + ">"], depth) == depth + 1
  {
    var t := "<" + name + ">";
    assert t[1] == name[0];
    assert !StartsWith(t, "</");
    assert t[|t| - 2] == name[|name| - 1];
    assert !EndsWith(t, "/>");
    assert StartsWith(t, "<");
    TrimIdentity(t);
    assert [t][1..] == [];
    assert Spaces(2 * depth) + t == Spaces(2 * depth) + "<" + name + ">";
  }

  /** A closing tag steps out one level and is printed there. */
  lemma CloseTagLine(name: string, depth: nat)
    requires IsTagName(name)
    ensures Emit(["</" + name + ">"], depth + 1) == [Spaces(2 * depth) + "</" + name + ">"]
    ensures FinalIndent(["</" + name + ">"], depth + 1) == depth
  {
    var t := "</" + name + ">";
    assert StartsWith(t, "</") by {
      assert t[..2] == "</";
    }
    TrimIdentity(t);
    assert [t][1..] == [];
    assert Spaces(2 * depth) + t == Spaces(2 * depth) + "</" + name + ">";
  }

  /** A self-closing tag is printed at the current depth and leaves it unchanged. */
  lemma SelfClosingTagLine(body: string, depth: nat)
    requires body != "" && body[0] != '/'
    ensures Emit(["<" + body + "/>"], depth) == [Spaces(2 * depth) + "<" + body + "/>"]
    ensures FinalIndent(["<" + body + "/>"], depth) == depth
  {
    var t := "<" + body + "/>";
    assert t[1] == body[0];
    assert !StartsWith(t, "</");
    assert EndsWith(t, "/>") by {
      assert t[|t| - 2..] == "/>";
    }
    TrimIdentity(t);
    assert [t][1..] == [];
    assert Spaces(2 * depth) + t == Spaces(2 * depth) + "<" + body + "/>";
  }

  /**
   * A declaration or comment (`<?...>`, `<!...>`) is printed at the current depth and,
   * like an opening tag, opens one level, since only `</` and `/>` are exempt.
   */
  lemma DeclarationLine(mark: char, body: string, depth: nat)
    requires mark == '?' || mark == '!'
    requires body == "" || body[|body| - 1] != '/'
    ensures Emit(["<" + [mark] + body + ">"], depth) == [Spaces(2 * depth) + "<" + [mark] + body + ">"]
    ensures FinalIndent(["<" + [mark] + body + ">"], depth) == depth + 1
  {
    var t := "<" + [mark] + body + ">";
    DeclarationOpens(mark, body);
    SingleTokenLine(t, depth);
    assert Spaces(2 * depth) + t == Spaces(2 * depth) + "<" + [mark] + body + ">";
  }

  lemma DeclarationOpens(mark: char, body: string)
    requires mark == '?' || mark == '!'
    requires body == "" || body[|body| - 1] != '/'
    ensures var t := "<" + [mark] + body + ">"; Opens(t) && Trim(t) == t
  {
    var t := "<" + [mark] + body + ">";
    assert t[1] == mark;
    assert t[|t| - 2] == (if body == "" then mark else body[|body| - 1]);
    TrimIdentity(t);
  }

  /** One token that trims to itself gives one line at the indentation in force for it. */
  lemma SingleTokenLine(t: string, depth: nat)
    requires t != "" && Trim(t) == t
    ensures Emit([t], depth) == [Spaces(2 * IndentBefore(t, depth)) + t]
    ensures FinalIndent([t], depth) == IndentAfter(t, depth)
  {
    assert [t][1..] == [];
  }

  /** A closing tag at the outermost level is printed there and the indentation stays at zero. */
  lemma StrayCloseTagLine(name: string)
    requires IsTagName(name)
    ensures Emit(["</" + name + ">"], 0) == ["</" + name + ">"]
    ensures FinalIndent(["</" + name + ">"], 0) == 0
  {
    var t := "</" + name + ">";
    assert StartsWith(t, "</") by {
      assert t[..2] == "</";
    }
    TrimIdentity(t);
    assert [t][1..] == [];
    assert Spaces(0) + t == t;
  }

  /** Text without markup keeps the indentation and gives its trimmed line, if any. */
  lemma TextLine(text: string, depth: nat)
    requires '<' !in text
    ensures Emit([text], depth) == (if Trim(text) != "" then [Spaces(2 * depth) + Trim(text)] else [])
    ensures FinalIndent([text], depth) == depth
  {
    assert !StartsWith(text, "</") by {
      if |text| >= 2 {
        assert text[..2][0] == text[0];
      }
    }
    assert !StartsWith(text, "<") by {
      if |text| >= 1 {
        assert text[..1][0] == text[0];
      }
    }
    assert IndentAfter(text, depth) == depth;
    assert [text][1..] == [];
    assert Emit([text], depth) == LineFor(text, depth) + Emit([], depth);
  }

  lemma {:induction false} NodeLayoutHolds(n: Node, depth: nat)
    requires WellFormedNode(n)
    ensures Emit(NodeTokens(n), depth) == NodeLayout(n, depth)
    ensures FinalIndent(NodeTokens(n), depth) == depth
    decreases n
  {
    match n
    case Element(name, children) =>
      var open, inner, close := ["<" + name + ">"], TreeTokens(children), ["</" + name + ">"];
      var head := [Spaces(2 * depth) + "<" + name + ">"] + Layout(children, depth + 1);
      assert Emit(open + inner, depth) == head && FinalIndent(open + inner, depth) == depth + 1 by {
        OpenTagLine(name, depth);
        LayoutHolds(children, depth + 1);
        EmitAppend(open, inner, depth);
      }
      assert Emit(open + inner + close, depth) == head + [Spaces(2 * depth) + "</" + name + ">"]
        && FinalIndent(open + inner + close, depth) == depth by {
        CloseTagLine(name, depth);
        EmitAppend(open + inner, close, depth);
      }
    case CharData(text) =>
      TextLine(text, depth);
  }

  /**
   * Formatting the tokens of a tree prints each element's tags at its nesting
   * depth and its contents one level deeper, and returns to the starting depth.
   */
  lemma {:induction false} LayoutHolds(f: seq<Node>, depth: nat)
    requires WellFormed(f)
    ensures Emit(TreeTokens(f), depth) == Layout(f, depth)
    ensures FinalIndent(TreeTokens(f), depth) == depth
    decreases f
  {
    if f != [] {
      assert WellFormedNode(f[0]);
      assert WellFormed(f[1..]) by {
        forall i | 0 <= i < |f[1..]| ensures WellFormedNode(f[1..][i]) {
          assert f[1..][i] == f[i + 1];
        }
      }
      NodeLayoutHolds(f[0], depth);
      LayoutHolds(f[1..], depth);
      EmitAppend(NodeTokens(f[0]), TreeTokens(f[1..]), depth);
    }
  }

  /**
   * Trees printed on one line with nothing for the clean-ups to remove: every
   * text is a non-blank run without markup or newline, and no two texts
   * stand side by side (the token split would join them).
   */
  predicate CompactNode(n: Node)
    decreases n
  {
    match n
    case Element(name, children) => IsTagName(name) && Compact(children)
    case CharData(text) => !AllWhitespace(text) && IsPlainText(text) && '\n' !in text
  }

  predicate Compact(f: seq<Node>)
    decreases f
  {
    && (forall i :: 0 <= i < |f| ==> CompactNode(f[i]))
    && (forall i :: 0 <= i < |f| - 1 && f[i].CharData? ==> f[i + 1].Element?)
  }

  lemma {:induction false} CompactIsWellFormed(f: seq<Node>)
    requires Compact(f)
    ensures WellFormed(f)
    decreases f
  {
    forall i | 0 <= i < |f| ensures WellFormedNode(f[i]) {
      match f[i]
      case Element(name, children) =>
        CompactIsWellFormed(children);
      case CharData(_) =>
    }
  }

  lemma CompactTail(f: seq<Node>)
    requires Compact(f) && f != []
    ensures CompactNode(f[0]) && Compact(f[1..])
  {
    assert forall i :: 0 <= i < |f[1..]| ==> f[1..][i] == f[i + 1];
  }

  /** A complete tag at the front is one token. */
  lemma TagTokenFirst(t: string, rest: string)
    requires IsTagToken(t)
    ensures FormatTokens(t + rest) == [t] + FormatTokens(rest)
  {
    var s := t + rest;
    var j := IndexOf(s[1..], '>');
    assert s[1..][|t| - 2] == '>';
    forall i | 0 <= i < |t| - 2 ensures s[1..][i] != '>' {
      assert s[1..][i] == t[..|t| - 1][i + 1];
    }
    assert j == |t| - 2;
    assert s[..j + 2] == t;
    assert s[j + 2..] == rest;
  }

  /** Text without markup up to a `<` or the end is one token. */
  lemma TextTokenFirst(text: string, rest: string)
    requires text != [] && '<' !in text && (rest == [] || rest[0] == '<')
    ensures FormatTokens(text + rest) == [text] + FormatTokens(rest)
  {
    var s := text + rest;
    assert s[0] == text[0];
    forall i | 0 <= i < |text| ensures s[i] != '<' {
      assert s[i] == text[i];
    }
    if rest != [] {
      assert s[|text|] == '<';
    }
    assert IndexOf(s, '<') == |text|;
    assert s[..|text|] == text;
    assert s[|text|..] == rest;
  }

  lemma OpenTagToken(name: string)
    requires IsTagName(name)
    ensures IsTagToken("<" + name + ">")
  {
    var t, p := "<" + name + ">", "<" + name;
    assert t[..|t| - 1] == p;
    forall i | 1 <= i < |p| ensures p[i] != '>' {
      assert p[i] == name[i - 1];
    }
  }

  lemma CloseTagToken(name: string)
    requires IsTagName(name)
    ensures IsTagToken("</" + name + ">")
  {
    var t, p := "</" + name + ">", "</" + name;
    assert t[..|t| - 1] == p;
    forall i | 2 <= i < |p| ensures p[i] != '>' {
      assert p[i] == name[i - 2];
    }
  }

  lemma RenderStartsWithTag(f: seq<Node>)
    requires f != [] && f[0].Element?
    ensures |Render(f)| > 0 && Render(f)[0] == '<'
  {
  }

  lemma {:induction false} RenderNodeFormatTokens(n: Node, rest: string)
    requires CompactNode(n)
    requires n.CharData? ==> rest == [] || rest[0] == '<'
    ensures FormatTokens(RenderNode(n) + rest) == NodeTokens(n) + FormatTokens(rest)
    decreases n
  {
    match n
    case Element(name, children) =>
      var open, inner, close := "<" + name + ">", Render(children), "</" + name + ">";
      var tail := close + rest;
      RenderElement(name, children, rest);
      OpenTagToken(name);
      CloseTagToken(name);
      TagTokenFirst(open, inner + tail);
      assert tail[0] == '<';
      RenderFormatTokens(children, tail);
      TagTokenFirst(close, rest);
      var tt, fr := TreeTokens(children), FormatTokens(rest);
      ConcatAssoc([open] + tt, [close], fr);
      ConcatAssoc([open], tt, [close] + fr);
    case CharData(text) =>
      TextTokenFirst(text, rest);
  }

  /** The token split of a compact tree's text yields exactly the tree's tokens. */
  lemma {:induction false} RenderFormatTokens(f: seq<Node>, rest: string)
    requires Compact(f)
    requires f != [] && f[|f| - 1].CharData? ==> rest == [] || rest[0] == '<'
    ensures FormatTokens(Render(f) + rest) == TreeTokens(f) + FormatTokens(rest)
    decreases f
  {
    if f == [] {
      assert Render(f) + rest == rest;
    } else {
      CompactTail(f);
      var tail := Render(f[1..]) + rest;
      assert f[0].CharData? ==> tail == [] || tail[0] == '<' by {
        if f[0].CharData? && |f| > 1 {
          assert f[1].Element?;
          RenderStartsWithTag(f[1..]);
        } else if |f| == 1 {
          assert f[1..] == [];
        }
      }
      assert f[1..] != [] && f[1..][|f[1..]| - 1].CharData? ==> rest == [] || rest[0] == '<' by {
        if f[1..] != [] {
          assert f[1..][|f[1..]| - 1] == f[|f| - 1];
        }
      }
      assert FormatTokens(Render(f) + rest) == NodeTokens(f[0]) + FormatTokens(tail) by {
        ConcatAssoc(RenderNode(f[0]), Render(f[1..]), rest);
        RenderNodeFormatTokens(f[0], tail);
      }
      RenderFormatTokens(f[1..], rest);
      ConcatAssoc(NodeTokens(f[0]), TreeTokens(f[1..]), FormatTokens(rest));
    }
  }

  /** After a `>`, this text does not start with whitespace followed by `<`. */
  predicate NoGapAhead(s: string) {
    var k := WhitespaceRun(s);
    k == 0 || k == |s| || s[k] != '<'
  }

  /** A `>` passes the first clean-up unchanged when no gap follows it. */
  lemma CloseAngleKept(rest: string)
    requires NoGapAhead(rest)
    ensures CollapseTagGaps(">" + rest) == ">" + CollapseTagGaps(rest)
  {
    var s := ">" + rest;
    assert s[1..] == rest;
  }

  /** Text without `>` passes the first clean-up unchanged. */
  lemma {:induction false} PlainKept(a: string, rest: string)
    requires '>' !in a
    ensures CollapseTagGaps(a + rest) == a + CollapseTagGaps(rest)
    decreases |a|
  {
    if a != [] {
      var s := a + rest;
      assert s[0] == a[0];
      assert s[1..] == a[1..] + rest;
      PlainKept(a[1..], rest);
    } else {
      assert a + rest == rest;
    }
  }

  /** Text that is not blank stops a whitespace run before any `<` that follows it. */
  lemma TextStopsGap(text: string, rest: string)
    requires !AllWhitespace(text) && '<' !in text
    ensures NoGapAhead(text + rest)
  {
    var s := text + rest;
    var m :| 0 <= m < |text| && !IsWhitespace(text[m]);
    var k := WhitespaceRun(s);
    assert s[m] == text[m];
    assert k <= m;
    assert s[k] == text[k];
  }

  /** The text right after an element's opening tag leaves no gap. */
  lemma RenderNoGapAhead(f: seq<Node>, rest: string)
    requires Compact(f)
    requires f == [] ==> |rest| > 0 && rest[0] == '<'
    ensures NoGapAhead(Render(f) + rest)
  {
    if f == [] {
      assert Render(f) + rest == rest;
      assert WhitespaceRun(rest) == 0;
    } else {
      CompactTail(f);
      assert Render(f) + rest == RenderNode(f[0]) + (Render(f[1..]) + rest);
      match f[0]
      case Element(name, children) =>
        assert (RenderNode(f[0]) + (Render(f[1..]) + rest))[0] == '<';
        assert WhitespaceRun(Render(f) + rest) == 0;
      case CharData(text) =>
        TextStopsGap(text, Render(f[1..]) + rest);
    }
  }

  /** A tag's text before its `>`, then the `>`, ahead of a text that leaves no gap. */
  lemma TagKept(head: string, rest: string)
    requires '>' !in head && NoGapAhead(rest)
    ensures CollapseTagGaps(head + ">" + rest) == head + ">" + CollapseTagGaps(rest)
  {
    var cr := CollapseTagGaps(rest);
    assert CollapseTagGaps(head + (">" + rest)) == head + (">" + cr) by {
      PlainKept(head, ">" + rest);
      CloseAngleKept(rest);
    }
    ConcatAssoc(head, ">", rest);
    ConcatAssoc(head, ">", cr);
  }

  /** `<name` followed by `>` and a text that leaves no gap. */
  lemma OpenerKept(name: string, rest: string)
    requires IsTagName(name) && NoGapAhead(rest)
    ensures CollapseTagGaps("<" + name + ">" + rest) == "<" + name + ">" + CollapseTagGaps(rest)
  {
    var opener := "<" + name;
    assert '>' !in opener by {
      forall i | 1 <= i < |opener| ensures opener[i] != '>' {
        assert opener[i] == name[i - 1];
      }
    }
    TagKept(opener, rest);
  }

  /** `</name` followed by `>` and a text that leaves no gap. */
  lemma CloserKept(name: string, rest: string)
    requires IsTagName(name) && NoGapAhead(rest)
    ensures CollapseTagGaps("</" + name + ">" + rest) == "</" + name + ">" + CollapseTagGaps(rest)
  {
    var closer := "</" + name;
    assert '>' !in closer by {
      forall i | 2 <= i < |closer| ensures closer[i] != '>' {
        assert closer[i] == name[i - 2];
      }
    }
    TagKept(closer, rest);
  }

  lemma {:induction false} RenderNodeKeepsGaps(n: Node, rest: string)
    requires CompactNode(n) && NoGapAhead(rest)
    ensures CollapseTagGaps(RenderNode(n) + rest) == RenderNode(n) + CollapseTagGaps(rest)
    decreases n
  {
    match n
    case Element(name, children) =>
      var open, inner, close := "<" + name + ">", Render(children), "</" + name + ">";
      var tail := close + rest;
      var cr := CollapseTagGaps(rest);
      RenderElement(name, children, rest);
      assert CollapseTagGaps(open + (inner + tail)) == open + CollapseTagGaps(inner + tail) by {
        RenderNoGapAhead(children, tail);
        OpenerKept(name, inner + tail);
      }
      assert CollapseTagGaps(inner + tail) == inner + CollapseTagGaps(tail) by {
        RenderKeepsGaps(children, tail);
      }
      assert CollapseTagGaps(tail) == close + cr by {
        CloserKept(name, rest);
      }
      RenderElement(name, children, cr);
    case CharData(text) =>
      PlainKept(text, rest);
  }

  /** The first clean-up leaves the text of a compact tree unchanged. */
  lemma {:induction false} RenderKeepsGaps(f: seq<Node>, rest: string)
    requires Compact(f) && NoGapAhead(rest)
    ensures CollapseTagGaps(Render(f) + rest) == Render(f) + CollapseTagGaps(rest)
    decreases f
  {
    if f == [] {
      assert Render(f) + rest == rest;
    } else {
      CompactTail(f);
      var head, body := RenderNode(f[0]), Render(f[1..]);
      var tail := body + rest;
      assert CollapseTagGaps(tail) == body + CollapseTagGaps(rest) by {
        RenderKeepsGaps(f[1..], rest);
      }
      assert NoGapAhead(tail) by {
        if f[1..] == [] {
          assert tail == rest;
        } else {
          RenderNoGapAhead(f[1..], rest);
        }
      }
      assert Render(f) + rest == head + tail by {
        ConcatAssoc(head, body, rest);
      }
      assert CollapseTagGaps(head + tail) == head + CollapseTagGaps(tail) by {
        RenderNodeKeepsGaps(f[0], tail);
      }
      ConcatAssoc(head, body, CollapseTagGaps(rest));
    }
  }

  /** A compact tree's text has no newline. */
  lemma {:induction false} RenderHasNoNewline(f: seq<Node>)
    requires Compact(f)
    ensures '\n' !in Render(f)
    decreases f
  {
    if f != [] {
      CompactTail(f);
      RenderHasNoNewline(f[1..]);
      match f[0]
      case Element(name, children) =>
        RenderHasNoNewline(children);
        assert '\n' !in name by {
          forall i | 0 <= i < |name| ensures name[i] != '\n' {
            assert IsAsciiAlnum(name[i]);
          }
        }
      case CharData(_) =>
    }
  }

  /**
   * Formatting the one-line text of a compact document prints each element's
   * tags on their own lines at its nesting depth, two spaces per level, and
   * each text trimmed one level deeper than its element.
   */
  lemma FormatCompactDocument(root: Node)
    requires root.Element? && Compact([root])
    ensures Join(Emit(FormatTokens(PrePass(Render([root]))), 0), "\n") == Join(Layout([root], 0), "\n")
  {
    var text := Render([root]);
    RenderKeepsGaps([root], "");
    assert text + "" == text;
    assert CollapseTagGaps("") == "";
    assert CollapseTagGaps(text) == text;
    RenderHasNoNewline([root]);
    CollapseLineIndentsIdentity(text);
    assert text == RenderNode(root) + Render([root][1..]);
    assert text[0] == '<';
    assert text[|text| - 1] == '>';
    TrimIdentity(text);
    RenderFormatTokens([root], "");
    assert FormatTokens("") == [];
    assert TreeTokens([root]) + [] == TreeTokens([root]);
    CompactIsWellFormed([root]);
    LayoutHolds([root], 0);
  }
}
