/**
 * The validation panel's tag-balance check (`findUnclosedTags`): tag names
 * are pulled out of the raw text with the pattern `<(\/?)([a-zA-Z][a-zA-Z0-9]*)`,
 * an opening name is pushed on a stack, a closing name pops the stack top
 * whether or not it matches, and a closing name that meets an empty stack or
 * a different top is reported. What is left on the stack is reported after
 * that, bottom first.
 */
module TagScan {
  import opened Strings
  import opened Markup

  datatype TagToken = Open(name: string) | Close(name: string)

  /** The longest prefix of `s` made of `[a-zA-Z0-9]`. */
  function NameRun(s: string): (n: string)
    ensures |n| <= |s| && n == s[..|n|]
    ensures forall i :: 0 <= i < |n| ==> IsAsciiAlnum(n[i])
    ensures |n| < |s| ==> !IsAsciiAlnum(s[|n|])
  {
    if |s| > 0 && IsAsciiAlnum(s[0]) then [s[0]] + NameRun(s[1..]) else ""
  }

  /**
   * The successive matches of `/<(\/?)([a-zA-Z][a-zA-Z0-9]*)/g`: a `<`
   * directly followed by a letter opens, `</` directly followed by a letter
   * closes, and any other character is skipped.
   */
  function TagTokens(s: string): (ts: seq<TagToken>)
    ensures forall i :: 0 <= i < |ts| ==> IsTagName(ts[i].name)
    decreases |s|
  {
    if |s| == 0 then []
    else if s[0] == '<' && |s| > 1 && IsAsciiLetter(s[1]) then
      var name := NameRun(s[1..]);
      [Open(name)] + TagTokens(s[1 + |name|..])
    else if s[0] == '<' && |s| > 2 && s[1] == '/' && IsAsciiLetter(s[2]) then
      var name := NameRun(s[2..]);
      [Close(name)] + TagTokens(s[2 + |name|..])
    else
      TagTokens(s[1..])
  }

  /** The scanner's state: the stack of open names (top last) and the names reported so far. */
  datatype ScanState = ScanState(stack: seq<string>, reported: seq<string>)

  const Start := ScanState([], [])

  /** One loop iteration: `stack.pop()` runs whenever the stack is non-empty, even on a mismatch. */
  function Step(st: ScanState, t: TagToken): ScanState
  {
    match t
    case Open(name) => ScanState(st.stack + [name], st.reported)
    case Close(name) =>
      if |st.stack| == 0 then ScanState(st.stack, st.reported + [name])
      else
        var top := st.stack[|st.stack| - 1];
        ScanState(st.stack[..|st.stack| - 1], if top == name then st.reported else st.reported + [name])
  }

  /** The state after scanning `ts` from `st`. */
  function ScanFrom(st: ScanState, ts: seq<TagToken>): ScanState
    decreases |ts|
  {
    if ts == [] then st else Step(ScanFrom(st, ts[..|ts| - 1]), ts[|ts| - 1])
  }

  /** The scan's result: the in-scan reports, then the leftover stack from bottom to top. */
  function UnclosedTags(ts: seq<TagToken>): seq<string>
  {
    var st := ScanFrom(Start, ts);
    st.reported + st.stack
  }

  method FindUnclosedTags(content: string) returns (unclosed: seq<string>)
    ensures unclosed == UnclosedTags(TagTokens(content))
  {
    var tokens := TagTokens(content);
    var stack: seq<string> := [];
    unclosed := [];
    var i := 0;
    while i < |tokens|
      invariant 0 <= i <= |tokens|
      invariant ScanFrom(Start, tokens[..i]) == ScanState(stack, unclosed)
    {
      assert ScanFrom(Start, tokens[..i + 1]) == Step(ScanState(stack, unclosed), tokens[i]) by {
        assert tokens[..i + 1][..i] == tokens[..i];
      }
      match tokens[i] {
        case Close(name) =>
          if |stack| == 0 {
            unclosed := unclosed + [name];
          } else {
            var top := stack[|stack| - 1];
            stack := stack[..|stack| - 1];
            if top != name {
              unclosed := unclosed + [name];
            }
          }
        case Open(name) =>
          stack := stack + [name];
      }
      i := i + 1;
    }
    assert ScanState(stack, unclosed) == ScanFrom(Start, tokens) by {
      assert tokens[..|tokens|] == tokens;
    }
    unclosed := PushAll(unclosed, stack);
  }

  /** The closing `forEach`: every tag left on the stack is reported, bottom first. */
  method PushAll(reported: seq<string>, stack: seq<string>) returns (unclosed: seq<string>)
    ensures unclosed == reported + stack
  {
    unclosed := reported;
    for j := 0 to |stack|
      invariant unclosed == reported + stack[..j]
    {
      assert stack[..j + 1] == stack[..j] + [stack[j]];
      unclosed := unclosed + [stack[j]];
    }
    assert stack[..|stack|] == stack;
  }

  lemma {:induction false} ScanAppend(st: ScanState, a: seq<TagToken>, b: seq<TagToken>)
    ensures ScanFrom(st, a + b) == ScanFrom(ScanFrom(st, a), b)
    decreases |b|
  {
    if b == [] {
      assert a + b == a;
    } else {
      var ab := a + b;
      assert ab[..|ab| - 1] == a + b[..|b| - 1];
      assert ab[|ab| - 1] == b[|b| - 1];
      ScanAppend(st, a, b[..|b| - 1]);
    }
  }

  /** The token stream of a document tree: each element opens, holds its children, and closes. */
  function TagsOfNode(n: Node): seq<TagToken>
    decreases n
  {
    match n
    case Element(name, children) => [Open(name)] + TagsOf(children) + [Close(name)]
    case CharData(_) => []
  }

  function TagsOf(f: seq<Node>): seq<TagToken>
    decreases f
  {
    if f == [] then [] else TagsOfNode(f[0]) + TagsOf(f[1..])
  }

  /** Scanning a well-nested stream leaves the stack and the reports as they were. */
  lemma {:induction false} ScanNodeIsNeutral(st: ScanState, n: Node)
    ensures ScanFrom(st, TagsOfNode(n)) == st
    decreases n
  {
    match n
    case Element(name, children) =>
      var pushed := ScanState(st.stack + [name], st.reported);
      assert ScanFrom(st, [Open(name)]) == pushed by {
        assert [Open(name)][..0] == [];
      }
      ScanAppend(st, [Open(name)] + TagsOf(children), [Close(name)]);
      ScanAppend(st, [Open(name)], TagsOf(children));
      ScanIsNeutral(pushed, children);
      assert [Close(name)][..0] == [];
      assert pushed.stack[..|pushed.stack| - 1] == st.stack;
    case CharData(_) =>
  }

  lemma {:induction false} ScanIsNeutral(st: ScanState, f: seq<Node>)
    ensures ScanFrom(st, TagsOf(f)) == st
    decreases f
  {
    if f != [] {
      ScanAppend(st, TagsOfNode(f[0]), TagsOf(f[1..]));
      ScanNodeIsNeutral(st, f[0]);
      ScanIsNeutral(st, f[1..]);
    }
  }

  /** A well-nested stream in which every opener is closed yields no unclosed tag. */
  lemma WellNestedHasNoUnclosed(f: seq<Node>)
    ensures UnclosedTags(TagsOf(f)) == []
  {
    ScanIsNeutral(Start, f);
  }

  lemma {:induction false} NameRunOf(name: string, rest: string)
    requires forall i :: 0 <= i < |name| ==> IsAsciiAlnum(name[i])
    requires rest == [] || !IsAsciiAlnum(rest[0])
    ensures NameRun(name + rest) == name
    decreases |name|
  {
    if name == [] {
      assert name + rest == rest;
    } else {
      assert (name + rest)[0] == name[0];
      assert (name + rest)[1..] == name[1..] + rest;
      NameRunOf(name[1..], rest);
      assert [name[0]] + name[1..] == name;
    }
  }

  /** `<name` followed by a non-name character yields one opening token. */
  lemma OpenerTokens(name: string, rest: string)
    requires IsTagName(name)
    requires rest == [] || !IsAsciiAlnum(rest[0])
    ensures TagTokens("<" + name + rest) == [Open(name)] + TagTokens(rest)
  {
    var s := "<" + name + rest;
    assert s[1..] == name + rest;
    NameRunOf(name, rest);
    assert s[1 + |name|..] == rest;
  }

  /** `</name` followed by a non-name character yields one closing token. */
  lemma CloserTokens(name: string, rest: string)
    requires IsTagName(name)
    requires rest == [] || !IsAsciiAlnum(rest[0])
    ensures TagTokens("</" + name + rest) == [Close(name)] + TagTokens(rest)
  {
    var s := "</" + name + rest;
    assert s[0] == '<' && s[1] == '/';
    assert s[2..] == name + rest by {
      ConcatAssoc("</", name, rest);
    }
    NameRunOf(name, rest);
    assert s[2 + |name|..] == rest;
  }

  /** Text without `<` contributes no token. */
  lemma {:induction false} PlainTextTokens(text: string, rest: string)
    requires '<' !in text
    ensures TagTokens(text + rest) == TagTokens(rest)
    decreases |text|
  {
    if text != [] {
      assert text[0] in text;
      assert '<' !in text[1..] by {
        forall i | 0 <= i < |text[1..]| ensures text[1..][i] != '<' {
          assert text[1..][i] == text[i + 1] && text[i + 1] in text;
        }
      }
      var s := text + rest;
      assert s[0] == text[0];
      assert s[1..] == text[1..] + rest;
      assert TagTokens(s) == TagTokens(s[1..]);
      PlainTextTokens(text[1..], rest);
    } else {
      assert text + rest == rest;
    }
  }

  /** `<name>` yields one opening token. */
  lemma OpenTagTokens(name: string, rest: string)
    requires IsTagName(name)
    ensures TagTokens("<" + name + ">" + rest) == [Open(name)] + TagTokens(rest)
  {
    assert "<" + name + ">" + rest == "<" + name + (">" + rest);
    OpenerTokens(name, ">" + rest);
    PlainTextTokens(">", rest);
  }

  /** `</name>` yields one closing token. */
  lemma CloseTagTokens(name: string, rest: string)
    requires IsTagName(name)
    ensures TagTokens("</" + name + ">" + rest) == [Close(name)] + TagTokens(rest)
  {
    assert "</" + name + ">" + rest == "</" + name + (">" + rest);
    CloserTokens(name, ">" + rest);
    PlainTextTokens(">", rest);
  }

  lemma {:induction false} RenderNodeTokens(n: Node, rest: string)
    requires WellFormedNode(n)
    ensures TagTokens(RenderNode(n) + rest) == TagsOfNode(n) + TagTokens(rest)
    decreases n
  {
    match n
    case Element(name, children) =>
      var open, inner, close := "<" + name + ">", Render(children), "</" + name + ">";
      var tail := close + rest;
      var tt := TagsOf(children);
      assert RenderNode(n) + rest == open + (inner + tail) by {
        ConcatAssoc(open + inner, close, rest);
        ConcatAssoc(open, inner, tail);
      }
      assert TagTokens(open + (inner + tail)) == [Open(name)] + TagTokens(inner + tail) by {
        OpenTagTokens(name, inner + tail);
      }
      assert TagTokens(inner + tail) == tt + TagTokens(tail) by {
        RenderTokens(children, tail);
      }
      assert TagTokens(tail) == [Close(name)] + TagTokens(rest) by {
        CloseTagTokens(name, rest);
      }
      assert [Open(name)] + (tt + ([Close(name)] + TagTokens(rest))) == TagsOfNode(n) + TagTokens(rest) by {
        ConcatAssoc([Open(name)] + tt, [Close(name)], TagTokens(rest));
        ConcatAssoc([Open(name)], tt, [Close(name)] + TagTokens(rest));
      }
    case CharData(text) =>
      PlainTextTokens(text, rest);
  }

  /** The scanner's tokens of a rendered well-formed tree are exactly the tree's tags. */
  lemma {:induction false} RenderTokens(f: seq<Node>, rest: string)
    requires WellFormed(f)
    ensures TagTokens(Render(f) + rest) == TagsOf(f) + TagTokens(rest)
    decreases f
  {
    if f == [] {
      assert Render(f) + rest == rest;
    } else {
      assert WellFormedNode(f[0]);
      assert WellFormed(f[1..]) by {
        forall i | 0 <= i < |f[1..]| ensures WellFormedNode(f[1..][i]) {
          assert f[1..][i] == f[i + 1];
        }
      }
      var tail := Render(f[1..]) + rest;
      assert TagTokens(Render(f) + rest) == TagsOfNode(f[0]) + TagTokens(tail) by {
        ConcatAssoc(RenderNode(f[0]), Render(f[1..]), rest);
        RenderNodeTokens(f[0], tail);
      }
      assert TagTokens(tail) == TagsOf(f[1..]) + TagTokens(rest) by {
        RenderTokens(f[1..], rest);
      }
      ConcatAssoc(TagsOfNode(f[0]), TagsOf(f[1..]), TagTokens(rest));
    }
  }

  /** The text of a well-formed tree passes the tag-balance check. */
  lemma RenderedTreeIsBalanced(f: seq<Node>)
    requires WellFormed(f)
    ensures UnclosedTags(TagTokens(Render(f))) == []
  {
    RenderTokens(f, "");
    assert Render(f) + "" == Render(f);
    assert TagTokens("") == [];
    assert TagsOf(f) + [] == TagsOf(f);
    WellNestedHasNoUnclosed(f);
  }

  lemma CloseTagAlone(name: string)
    requires IsTagName(name)
    ensures TagTokens("</" + name + ">") == [Close(name)]
  {
    assert "</" + name + ">" == "</" + name + ">" + "";
    CloseTagTokens(name, "");
    assert TagTokens("") == [];
  }

  lemma MismatchText(x: string, y: string)
    ensures "<" + x + "><" + y + "></" + x + ">" == "<" + x + ">" + ("<" + y + ">" + ("</" + x + ">"))
  {
  }

  lemma MismatchTokens(x: string, y: string)
    requires IsTagName(x) && IsTagName(y)
    ensures TagTokens("<" + x + "><" + y + "></" + x + ">") == [Open(x), Open(y), Close(x)]
  {
    var s3 := "</" + x + ">";
    var s2 := "<" + y + ">" + s3;
    MismatchText(x, y);
    CloseTagAlone(x);
    OpenTagTokens(y, s3);
    OpenTagTokens(x, s2);
  }

  /**
   * A closer that meets a different top pops it and reports its own name:
   * `<a><b></a>` reports `a` twice and never `b`.
   */
  lemma MismatchPopsTop(x: string, y: string)
    requires IsTagName(x) && IsTagName(y) && x != y
    ensures UnclosedTags(TagTokens("<" + x + "><" + y + "></" + x + ">")) == [x, x]
  {
    MismatchTokens(x, y);
    var ts := [Open(x), Open(y), Close(x)];
    assert ScanFrom(Start, ts[..1]) == ScanState([x], []) by {
      assert ts[..1][..0] == [];
    }
    assert ts[..2][..1] == ts[..1];
    assert ScanFrom(Start, ts[..2]) == ScanState([x, y], []);
    assert ts[..3][..2] == ts[..2];
    assert ts[..3] == ts;
  }

  /** A self-closing tag is pushed and never popped, so it is reported. */
  lemma SelfClosingIsReported(name: string)
    requires IsTagName(name)
    ensures UnclosedTags(TagTokens("<" + name + "/>")) == [name]
  {
    OpenerTokens(name, "/>");
    PlainTextTokens("/>", "");
    assert "/>" + "" == "/>";
    assert TagTokens("") == [];
    var ts := [Open(name)];
    assert TagTokens("<" + name + "/>") == ts;
    assert ts[..0] == [];
    assert ScanFrom(Start, ts) == Step(Start, Open(name));
  }

  /** A comment opener starts no token. */
  lemma CommentOpenerIgnored(rest: string)
    ensures TagTokens("<!--" + rest) == TagTokens(rest)
  {
    var s := "<!--" + rest;
    assert s[1..] == "!--" + rest;
    PlainTextTokens("!--", rest);
  }

  /** A processing-instruction opener such as `<?xml` starts no token. */
  lemma DeclarationOpenerIgnored(rest: string)
    ensures TagTokens("<?" + rest) == TagTokens(rest)
  {
    var s := "<?" + rest;
    assert s[1..] == "?" + rest;
    PlainTextTokens("?", rest);
  }

  /** Every name the scan reports is the name of one of the scanned tokens. */
  lemma {:induction false} ScanNamesComeFromTokens(st: ScanState, ts: seq<TagToken>)
    ensures var r := ScanFrom(st, ts);
      forall x :: x in r.stack || x in r.reported ==>
        x in st.stack || x in st.reported || exists i :: 0 <= i < |ts| && ts[i].name == x
    decreases |ts|
  {
    if ts != [] {
      var init := ts[..|ts| - 1];
      ScanNamesComeFromTokens(st, init);
      var mid := ScanFrom(st, init);
      var r := ScanFrom(st, ts);
      forall x | x in r.stack || x in r.reported
        ensures x in st.stack || x in st.reported || exists i :: 0 <= i < |ts| && ts[i].name == x
      {
        if x == ts[|ts| - 1].name {
        } else {
          assert x in mid.stack || x in mid.reported by {
            if |mid.stack| > 0 && x in r.stack {
              assert mid.stack == mid.stack[..|mid.stack| - 1] + [mid.stack[|mid.stack| - 1]];
            }
          }
          if exists i :: 0 <= i < |init| && init[i].name == x {
            var i :| 0 <= i < |init| && init[i].name == x;
            assert ts[i] == init[i];
          }
        }
      }
    }
  }

  lemma UnclosedNamesComeFromTokens(ts: seq<TagToken>)
    ensures forall x :: x in UnclosedTags(ts) ==> exists i :: 0 <= i < |ts| && ts[i].name == x
  {
    ScanNamesComeFromTokens(Start, ts);
    var r := ScanFrom(Start, ts);
    forall x | x in UnclosedTags(ts) ensures exists i :: 0 <= i < |ts| && ts[i].name == x {
      assert x in r.reported || x in r.stack;
    }
  }
}
