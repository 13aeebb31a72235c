/**
 * What the preset templates promise to the rest of the editor: each content
 * passes the validation panel's checks, holds no `=` (so no attribute
 * candidate), and mentions every one of its variables as a placeholder.
 */
module PresetChecks {
  import opened Optional
  import opened Strings
  import opened Markup
  import opened TagScan
  import opened Attributes
  import opened Validation
  import opened Presets

  /** The document tree each preset's content is the text of. */
  function TreeOf(t: XmlTemplate): Node
  {
    if t.id == ChineseQa.id then ChineseQaTree
    else if t.id == ImageGeneration.id then ImageGenerationTree
    else TextSummarizerTree
  }

  /** Well-formed and free of `=`: what the checks ask of every piece of a preset tree. */
  predicate Clean(n: Node) {
    WellFormedNode(n) && CharFreeNode(n, '=')
  }

  predicate AllClean(items: seq<Node>) {
    forall i :: 0 <= i < |items| ==> Clean(items[i])
  }

  /** Plain character data with no `=`, stated character by character. */
  predicate PlainText(text: string) {
    forall i :: 0 <= i < |text| ==>
      text[i] != '<' && text[i] != '>' && text[i] != '&' && text[i] != '=' && IsXmlChar(text[i])
  }

  lemma LeafClean(tag: string, text: string)
    requires IsTagName(tag) && '=' !in tag
    requires PlainText(text)
    ensures Clean(Leaf(tag, text))
  {
    assert '<' !in text && '>' !in text && '&' !in text && '=' !in text;
    var children := [CharData(text)];
    assert children[0] == CharData(text);
    assert WellFormedNode(children[0]) && CharFreeNode(children[0], '=');
    assert WellFormed(children) && CharFree(children, '=');
  }

  lemma IndentsClean()
    ensures Clean(Indent1) && Clean(Indent2) && Clean(FinalBreak)
  {
  }

  lemma ElementClean(tag: string, children: seq<Node>)
    requires IsTagName(tag) && '=' !in tag && AllClean(children)
    ensures Clean(Element(tag, children))
  {
  }

  /** An element named `name` among an element's children is found in the element. */
  lemma ChildHasElement(tag: string, children: seq<Node>, k: nat, name: string)
    requires k < |children| && children[k].Element? && children[k].name == name
    ensures HasElementIn(Element(tag, children), name)
  {
    assert HasElementIn(children[k], name);
  }

  /** A text held by one of an element's children is held by the element. */
  lemma ChildHasText(tag: string, children: seq<Node>, k: nat, x: string)
    requires k < |children| && HasTextIn(children[k], x)
    ensures HasTextIn(Element(tag, children), x)
  {
  }

  lemma LeafHasText(tag: string, text: string, x: string)
    requires IsSubstring(x, text)
    ensures HasTextIn(Leaf(tag, text), x)
  {
    assert HasTextIn(CharData(text), x);
    assert [CharData(text)][0] == CharData(text);
  }

  lemma SelfSubstring(x: string)
    ensures IsSubstring(x, x)
  {
    assert OccursAt(x, x, 0);
  }

  /** A clean `prompt` root whose children 1, 3 and 5 are `system`, `input` and `output`. */
  lemma PromptShape(children: seq<Node>)
    requires |children| > 5 && AllClean(children)
    requires children[1].Element? && children[1].name == "system"
    requires children[3].Element? && children[3].name == "input"
    requires children[5].Element? && children[5].name == "output"
    ensures var root := Element("prompt", children);
      && WellFormed([root]) && CharFree([root], '=')
      && HasElement([root], "system") && HasElement([root], "input") && HasElement([root], "output")
  {
    var root := Element("prompt", children);
    assert IsTagName("prompt");
    ElementClean("prompt", children);
    assert [root][0] == root;
    ChildHasElement("prompt", children, 1, "system");
    ChildHasElement("prompt", children, 3, "input");
    ChildHasElement("prompt", children, 5, "output");
    HasElementSingle(root, "system");
    HasElementSingle(root, "input");
    HasElementSingle(root, "output");
  }

  /** A `system`-like element holding two clean children on their own indented lines. */
  lemma PairBlockClean(tag: string, a: Node, b: Node)
    requires IsTagName(tag) && '=' !in tag && Clean(a) && Clean(b)
    ensures Clean(Element(tag, [Indent2, a, Indent2, b, Indent1]))
  {
    IndentsClean();
    ElementClean(tag, [Indent2, a, Indent2, b, Indent1]);
  }

  /** The same with three children. */
  lemma TripleBlockClean(tag: string, a: Node, b: Node, c: Node)
    requires IsTagName(tag) && '=' !in tag && Clean(a) && Clean(b) && Clean(c)
    ensures Clean(Element(tag, [Indent2, a, Indent2, b, Indent2, c, Indent1]))
  {
    IndentsClean();
    ElementClean(tag, [Indent2, a, Indent2, b, Indent2, c, Indent1]);
  }

  /** A `prompt` root laid out as the presets lay it out, with an optional fourth part. */
  lemma PromptLayout(system: Node, input: Node, output: Node, extra: Option<Node>)
    requires Clean(system) && system.Element? && system.name == "system"
    requires Clean(input) && input.Element? && input.name == "input"
    requires Clean(output) && output.Element? && output.name == "output"
    requires extra.Some? ==> Clean(extra.value)
    ensures var root := Element("prompt", PromptChildren(system, input, output, extra));
      && WellFormed([root]) && CharFree([root], '=')
      && HasElement([root], "system") && HasElement([root], "input") && HasElement([root], "output")
  {
    IndentsClean();
    PromptShape(PromptChildren(system, input, output, extra));
  }

  function PromptChildren(system: Node, input: Node, output: Node, extra: Option<Node>): (children: seq<Node>)
    ensures |children| > 5 && children[1] == system && children[3] == input && children[5] == output
  {
    match extra
    case None => [Indent1, system, Indent1, input, Indent1, output, FinalBreak]
    case Some(e) => [Indent1, system, Indent1, input, Indent1, output, Indent1, e, FinalBreak]
  }

  lemma ChineseQaSystemClean()
    ensures Clean(ChineseQaSystem)
  {
    LeafClean("role", "中文问答助手");
    LeafClean("skills", "准确、简洁、友好");
    assert IsTagName("system");
    PairBlockClean("system", Leaf("role", "中文问答助手"), Leaf("skills", "准确、简洁、友好"));
  }

  lemma ChineseQaShape()
    ensures WellFormed([ChineseQaTree]) && CharFree([ChineseQaTree], '=')
    ensures ChineseQaTree.Element? && ChineseQaTree.name == "prompt"
    ensures HasElement([ChineseQaTree], "system") && HasElement([ChineseQaTree], "input") && HasElement([ChineseQaTree], "output")
  {
    ChineseQaSystemClean();
    LeafClean("input", "{{query}}");
    LeafClean("output", "Markdown");
    PromptLayout(ChineseQaSystem, Leaf("input", "{{query}}"), Leaf("output", "Markdown"), None);
  }

  lemma ImageGenerationSystemClean()
    ensures Clean(ImageGenerationSystem)
  {
    LeafClean("role", "Image Generator");
    LeafClean("style", "{{style}}");
    LeafClean("quality", "high");
    assert IsTagName("system");
    TripleBlockClean("system", Leaf("role", "Image Generator"), Leaf("style", "{{style}}"), Leaf("quality", "high"));
  }

  lemma ImageGenerationParametersClean()
    ensures Clean(ImageGenerationParameters)
  {
    LeafClean("width", "{{width}}");
    LeafClean("height", "{{height}}");
    LeafClean("format", "{{format}}");
    assert IsTagName("parameters");
    TripleBlockClean("parameters", Leaf("width", "{{width}}"), Leaf("height", "{{height}}"), Leaf("format", "{{format}}"));
  }

  lemma ImageGenerationInputClean()
    ensures Clean(ImageGenerationInput)
  {
    LeafClean("input", "Create an image of " + Placeholder("description"));
  }

  lemma ImageGenerationShape()
    ensures WellFormed([ImageGenerationTree]) && CharFree([ImageGenerationTree], '=')
    ensures ImageGenerationTree.Element? && ImageGenerationTree.name == "prompt"
    ensures HasElement([ImageGenerationTree], "system") && HasElement([ImageGenerationTree], "input") && HasElement([ImageGenerationTree], "output")
  {
    ImageGenerationSystemClean();
    ImageGenerationParametersClean();
    ImageGenerationInputClean();
    LeafClean("output", "Image");
    PromptLayout(ImageGenerationSystem, ImageGenerationInput, Leaf("output", "Image"),
      Some(ImageGenerationParameters));
  }

  lemma TextSummarizerTaskClean()
    ensures Clean(Leaf("task", "Summarize the given text"))
  {
    LeafClean("task", "Summarize the given text");
  }

  lemma TextSummarizerSystemClean()
    ensures Clean(TextSummarizerSystem)
  {
    LeafClean("role", "Text Summarizer");
    TextSummarizerTaskClean();
    LeafClean("style", "{{style}}");
    assert IsTagName("system");
    TripleBlockClean("system", Leaf("role", "Text Summarizer"), Leaf("task", "Summarize the given text"), Leaf("style", "{{style}}"));
  }

  lemma TextSummarizerConstraintsClean()
    ensures Clean(TextSummarizerConstraints)
  {
    LeafClean("maxLength", "{{maxLength}}");
    LeafClean("focus", "{{focus}}");
    assert IsTagName("constraints");
    PairBlockClean("constraints", Leaf("maxLength", "{{maxLength}}"), Leaf("focus", "{{focus}}"));
  }

  lemma TextSummarizerShape()
    ensures WellFormed([TextSummarizerTree]) && CharFree([TextSummarizerTree], '=')
    ensures TextSummarizerTree.Element? && TextSummarizerTree.name == "prompt"
    ensures HasElement([TextSummarizerTree], "system") && HasElement([TextSummarizerTree], "input") && HasElement([TextSummarizerTree], "output")
  {
    TextSummarizerSystemClean();
    TextSummarizerConstraintsClean();
    LeafClean("input", "{{text}}");
    LeafClean("output", "Summary");
    PromptLayout(TextSummarizerSystem, Leaf("input", "{{text}}"), Leaf("output", "Summary"),
      Some(TextSummarizerConstraints));
  }

  /** A preset whose content renders a clean, complete `prompt` tree validates to nothing. */
  lemma CleanPromptValidates(t: XmlTemplate, root: Node)
    requires t.content == Render([root])
    requires WellFormed([root]) && CharFree([root], '=') && root.Element? && root.name == "prompt"
    requires HasElement([root], "system") && HasElement([root], "input") && HasElement([root], "output")
    ensures '=' !in t.content
    ensures Report(DocumentFacts(root), UnclosedTags(TagTokens(t.content)), InvalidAttributes([])) == []
  {
    CharNotInRender([root], '=');
    CompletePromptIsClean(root);
  }

  /**
   * Every preset's content is the text of a well-formed `prompt` document
   * holding `system`, `input` and `output`: the validation panel reports
   * nothing for it, and it has no `=`, so no attribute candidate.
   */
  lemma PresetsValidateClean()
    ensures forall t :: t in PresetTemplates ==>
      && t.content == Render([TreeOf(t)])
      && '=' !in t.content
      && Report(DocumentFacts(TreeOf(t)), UnclosedTags(TagTokens(t.content)), InvalidAttributes([])) == []
  {
    forall t | t in PresetTemplates
      ensures && t.content == Render([TreeOf(t)])
              && '=' !in t.content
              && Report(DocumentFacts(TreeOf(t)), UnclosedTags(TagTokens(t.content)), InvalidAttributes([])) == []
    {
      PresetIdsDistinct();
      if t == ChineseQa {
        ChineseQaValidates();
      } else if t == ImageGeneration {
        ImageGenerationValidates();
      } else {
        TextSummarizerValidates();
      }
    }
  }

  lemma ChineseQaValidates()
    ensures '=' !in ChineseQa.content
    ensures Report(DocumentFacts(ChineseQaTree), UnclosedTags(TagTokens(ChineseQa.content)), InvalidAttributes([])) == []
  {
    ChineseQaShape();
    CleanPromptValidates(ChineseQa, ChineseQaTree);
  }

  lemma ImageGenerationValidates()
    ensures '=' !in ImageGeneration.content
    ensures Report(DocumentFacts(ImageGenerationTree), UnclosedTags(TagTokens(ImageGeneration.content)), InvalidAttributes([])) == []
  {
    ImageGenerationShape();
    CleanPromptValidates(ImageGeneration, ImageGenerationTree);
  }

  lemma TextSummarizerValidates()
    ensures '=' !in TextSummarizer.content
    ensures Report(DocumentFacts(TextSummarizerTree), UnclosedTags(TagTokens(TextSummarizer.content)), InvalidAttributes([])) == []
  {
    TextSummarizerShape();
    CleanPromptValidates(TextSummarizer, TextSummarizerTree);
  }

  /** Every variable of a preset appears in its content as `{{name}}`. */
  lemma PlaceholdersAppear()
    ensures forall t, v :: t in PresetTemplates && v in t.variables ==> IsSubstring(Placeholder(v.name), t.content)
  {
    forall t, v | t in PresetTemplates && v in t.variables
      ensures IsSubstring(Placeholder(v.name), t.content)
    {
      PresetIdsDistinct();
      var root := TreeOf(t);
      var x := Placeholder(v.name);
      assert HasTextIn(root, x) by {
        PlaceholderInTree(t, v);
      }
      HasElementSingle(root, "");
      assert HasText([root], x) by {
        assert [root][0] == root;
      }
      TextInRender([root], x);
    }
  }

  lemma PlaceholderInTree(t: XmlTemplate, v: TemplateVariable)
    requires t in PresetTemplates && v in t.variables
    ensures HasTextIn(TreeOf(t), Placeholder(v.name))
  {
    PresetIdsDistinct();
    var x := Placeholder(v.name);
    SelfSubstring(x);
    if t == ChineseQa {
      QaPlaceholder();
    } else if t == ImageGeneration {
      ImagePlaceholders(v.name);
    } else {
      SummarizerPlaceholders(v.name);
    }
  }

  lemma QaPlaceholder()
    ensures HasTextIn(ChineseQaTree, Placeholder("query"))
  {
    var x := Placeholder("query");
    assert x == "{{query}}";
    SelfSubstring(x);
    LeafHasText("input", x, x);
    ChildHasText("prompt", ChineseQaTree.children, 3, x);
  }

  lemma ImagePlaceholders(name: string)
    requires name in {"style", "description", "width", "height", "format"}
    ensures HasTextIn(ImageGenerationTree, Placeholder(name))
  {
    if name == "style" {
      ImageStylePlaceholder();
    } else if name == "description" {
      ImageDescriptionPlaceholder();
    } else {
      ImageParameterPlaceholder(name);
    }
  }

  lemma ImageStylePlaceholder()
    ensures HasTextIn(ImageGenerationTree, Placeholder("style"))
  {
    var x := Placeholder("style");
    assert x == "{{style}}";
    SelfSubstring(x);
    LeafHasText("style", x, x);
    ChildHasText("system", ImageGenerationSystem.children, 3, x);
    ChildHasText("prompt", ImageGenerationTree.children, 1, x);
  }

  lemma ImageDescriptionPlaceholder()
    ensures HasTextIn(ImageGenerationTree, Placeholder("description"))
  {
    DescriptionInInput();
    ChildHasText("prompt", ImageGenerationTree.children, 3, Placeholder("description"));
  }

  lemma DescriptionInInput()
    ensures HasTextIn(ImageGenerationInput, Placeholder("description"))
  {
    var x := Placeholder("description");
    var lead := "Create an image of ";
    assert IsSubstring(x, lead + x) by {
      SubstringOfConcat(lead, x, "");
      assert lead + x + "" == lead + x;
    }
    LeafHasText("input", lead + x, x);
  }

  lemma ImageParameterPlaceholder(name: string)
    requires name in {"width", "height", "format"}
    ensures HasTextIn(ImageGenerationTree, Placeholder(name))
  {
    var x := Placeholder(name);
    var params := ImageGenerationParameters.children;
    var k := if name == "width" then 1 else if name == "height" then 3 else 5;
    assert x == if name == "width" then "{{width}}" else if name == "height" then "{{height}}" else "{{format}}";
    SelfSubstring(x);
    LeafHasText(name, x, x);
    assert params[k] == Leaf(name, x);
    ChildHasText("parameters", params, k, x);
    ChildHasText("prompt", ImageGenerationTree.children, 7, x);
  }

  lemma SummarizerPlaceholders(name: string)
    requires name in {"text", "style", "maxLength", "focus"}
    ensures HasTextIn(TextSummarizerTree, Placeholder(name))
  {
    if name == "text" {
      SummarizerTextPlaceholder();
    } else if name == "style" {
      SummarizerStylePlaceholder();
    } else {
      SummarizerConstraintPlaceholder(name);
    }
  }

  lemma SummarizerTextPlaceholder()
    ensures HasTextIn(TextSummarizerTree, Placeholder("text"))
  {
    var x := Placeholder("text");
    assert x == "{{text}}";
    SelfSubstring(x);
    LeafHasText("input", x, x);
    ChildHasText("prompt", TextSummarizerTree.children, 3, x);
  }

  lemma SummarizerStylePlaceholder()
    ensures HasTextIn(TextSummarizerTree, Placeholder("style"))
  {
    var x := Placeholder("style");
    assert x == "{{style}}";
    SelfSubstring(x);
    LeafHasText("style", x, x);
    ChildHasText("system", TextSummarizerSystem.children, 5, x);
    ChildHasText("prompt", TextSummarizerTree.children, 1, x);
  }

  lemma SummarizerConstraintPlaceholder(name: string)
    requires name in {"maxLength", "focus"}
    ensures HasTextIn(TextSummarizerTree, Placeholder(name))
  {
    var x := Placeholder(name);
    var cons := TextSummarizerConstraints.children;
    var k := if name == "maxLength" then 1 else 3;
    assert x == if name == "maxLength" then "{{maxLength}}" else "{{focus}}";
    SelfSubstring(x);
    LeafHasText(name, x, x);
    assert cons[k] == Leaf(name, x);
    ChildHasText("constraints", cons, k, x);
    ChildHasText("prompt", TextSummarizerTree.children, 7, x);
  }
}
