/**
 * Well-formed XML documents as trees, and their text. The editor's logic
 * never builds such a tree; it is the reference against which the scanner's
 * and the formatter's treatment of well-nested input is stated, and the form
 * in which the preset templates' contents are written down.
 */
module Markup {
  import opened Strings

  datatype Node = Element(name: string, children: seq<Node>) | CharData(text: string)

  /** The XML text of one node: `<name>children</name>`, or the character data itself. */
  function RenderNode(n: Node): string
    decreases n
  {
    match n
    case Element(name, children) => "<" + name + ">" + Render(children) + "</" + name + ">"
    case CharData(text) => text
  }

  function Render(f: seq<Node>): string
    decreases f
  {
    if f == [] then "" else RenderNode(f[0]) + Render(f[1..])
  }

  /** `[a-zA-Z][a-zA-Z0-9]*`, the tag names the scanner recognises. */
  predicate IsTagName(s: string) {
    |s| > 0 && IsAsciiLetter(s[0]) && forall i :: 0 <= i < |s| ==> IsAsciiAlnum(s[i])
  }

  /** A character XML 1.0 allows in a document (production Char, section 2.2 of the XML 1.0 recommendation). */
  predicate IsXmlChar(c: char) {
    || c == '\t' || c == '\n' || c == '\r'
    || (' ' <= c <= '\U{D7FF}')
    || ('\U{E000}' <= c <= '\U{FFFD}')
    || '\U{10000}' <= c
  }

  /**
   * Character data an XML parser reads back unchanged and without error:
   * only characters XML allows, no markup and no entity or character reference.
   */
  predicate IsPlainText(text: string) {
    '<' !in text && '>' !in text && '&' !in text && forall i :: 0 <= i < |text| ==> IsXmlChar(text[i])
  }

  /** Tag names are scanner names and character data is plain text. */
  predicate WellFormedNode(n: Node)
    decreases n
  {
    match n
    case Element(name, children) => IsTagName(name) && WellFormed(children)
    case CharData(text) => IsPlainText(text)
  }

  predicate WellFormed(f: seq<Node>)
    decreases f
  {
    forall i :: 0 <= i < |f| ==> WellFormedNode(f[i])
  }

  /** Some element anywhere in the forest, the roots included, is named `name`. */
  predicate HasElement(f: seq<Node>, name: string)
    decreases f
  {
    exists i :: 0 <= i < |f| && HasElementIn(f[i], name)
  }

  predicate HasElementIn(n: Node, name: string)
    decreases n
  {
    match n
    case Element(tag, children) => tag == name || HasElement(children, name)
    case CharData(_) => false
  }

  /** A one-tree forest holds what its tree holds. */
  lemma HasElementSingle(n: Node, name: string)
    ensures HasElement([n], name) <==> HasElementIn(n, name)
  {
    assert [n][0] == n;
  }

  lemma {:induction false} RenderAppend(f: seq<Node>, g: seq<Node>)
    ensures Render(f + g) == Render(f) + Render(g)
    decreases f
  {
    if f == [] {
      assert f + g == g;
    } else {
      assert (f + g)[0] == f[0];
      assert (f + g)[1..] == f[1..] + g;
      RenderAppend(f[1..], g);
    }
  }

  /** Some text anywhere in the forest contains `x`. */
  predicate HasText(f: seq<Node>, x: string)
    decreases f
  {
    exists i :: 0 <= i < |f| && HasTextIn(f[i], x)
  }

  predicate HasTextIn(n: Node, x: string)
    decreases n
  {
    match n
    case Element(_, children) => HasText(children, x)
    case CharData(text) => IsSubstring(x, text)
  }

  /** The forest's text is the text before a tree, the tree's, and the text after it. */
  /** An element's text is its opening tag, its children's text and its closing tag, each taken whole. */
  lemma RenderElement(name: string, children: seq<Node>, rest: string)
    ensures RenderNode(Element(name, children)) + rest
      == ("<" + name + ">") + (Render(children) + (("</" + name + ">") + rest))
  {
    var open, inner, close := "<" + name + ">", Render(children), "</" + name + ">";
    assert RenderNode(Element(name, children)) == open + inner + close by {
      assert "</" + name + ">" == close;
      assert open + inner + "</" + name + ">" == open + inner + close;
    }
    assert (open + inner + close) + rest == open + (inner + (close + rest));
  }

  lemma RenderAround(f: seq<Node>, i: nat)
    requires i < |f|
    ensures Render(f) == Render(f[..i]) + RenderNode(f[i]) + Render(f[i + 1..])
  {
    assert f == f[..i] + f[i..];
    RenderAppend(f[..i], f[i..]);
    assert f[i..][0] == f[i];
    assert f[i..][1..] == f[i + 1..];
  }

  lemma {:induction false} TextInRenderNode(n: Node, x: string)
    requires HasTextIn(n, x)
    ensures IsSubstring(x, RenderNode(n))
    decreases n
  {
    match n
    case Element(name, children) =>
      TextInRender(children, x);
      var open, close := "<" + name + ">", "</" + name + ">";
      assert RenderNode(n) == open + Render(children) + close;
      SubstringOfConcat(open, Render(children), close);
      SubstringTransitive(x, Render(children), RenderNode(n));
    case CharData(_) =>
  }

  /** Every text in a tree appears in the tree's rendered text. */
  lemma {:induction false} TextInRender(f: seq<Node>, x: string)
    requires HasText(f, x)
    ensures IsSubstring(x, Render(f))
    decreases f
  {
    var i :| 0 <= i < |f| && HasTextIn(f[i], x);
    TextInRenderNode(f[i], x);
    RenderAround(f, i);
    SubstringOfConcat(Render(f[..i]), RenderNode(f[i]), Render(f[i + 1..]));
    SubstringTransitive(x, RenderNode(f[i]), Render(f));
  }

  /** No tag name and no text in the forest holds `c`. */
  predicate CharFree(f: seq<Node>, c: char)
    decreases f
  {
    forall i :: 0 <= i < |f| ==> CharFreeNode(f[i], c)
  }

  predicate CharFreeNode(n: Node, c: char)
    decreases n
  {
    match n
    case Element(name, children) => c !in name && CharFree(children, c)
    case CharData(text) => c !in text
  }

  /** A character other than `<`, `/` and `>` that no name or text holds is absent from the rendered text. */
  lemma {:induction false} CharNotInRender(f: seq<Node>, c: char)
    requires CharFree(f, c) && c != '<' && c != '/' && c != '>'
    ensures c !in Render(f)
    decreases f
  {
    if f != [] {
      assert CharFree(f[1..], c) by {
        forall i | 0 <= i < |f[1..]| ensures CharFreeNode(f[1..][i], c) {
          assert f[1..][i] == f[i + 1];
        }
      }
      CharNotInRender(f[1..], c);
      assert CharFreeNode(f[0], c);
      match f[0]
      case Element(name, children) =>
        CharNotInRender(children, c);
      case CharData(_) =>
    }
  }
}
