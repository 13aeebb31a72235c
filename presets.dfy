/**
 * The built-in template catalog: the template records, the three preset
 * templates and the five categories that partition them.
 */
module Presets {
  import opened Strings
  import opened Markup

  datatype Category = Basic | Image | Text | Writer | Video

  /** The category's identifier as the catalog spells it. */
  function CategoryId(c: Category): (id: string)
    ensures |id| > 0
  {
    match c
    case Basic => "basic"
    case Image => "image"
    case Text => "text"
    case Writer => "writer"
    case Video => "video"
  }

  const AllCategories: seq<Category> := [Basic, Image, Text, Writer, Video]

  datatype VariableType = StringType | NumberType | BooleanType

  datatype TemplateVariable = TemplateVariable(
    name: string,
    varType: VariableType,
    defaultValue: string,
    description: string,
    required: bool)

  /** A template; `createdAt` and `updatedAt` hold the dates' ISO text. */
  datatype XmlTemplate = XmlTemplate(
    id: string,
    name: string,
    category: Category,
    description: string,
    content: string,
    variables: seq<TemplateVariable>,
    tags: seq<string>,
    version: string,
    createdAt: string,
    updatedAt: string)

  datatype TemplateCategory = TemplateCategory(
    id: string,
    name: string,
    description: string,
    icon: string,
    templates: seq<XmlTemplate>)

  /** `{{name}}`, the placeholder a variable stands for in a template's content. */
  function Placeholder(name: string): string
  {
    "{{" + name + "}}"
  }

  /** An element holding one text. */
  function Leaf(tag: string, text: string): Node
  {
    Element(tag, [CharData(text)])
  }

  /** The line breaks and indentation between the elements of the templates' contents. */
  const Indent1: Node := CharData("\n  ")
  const Indent2: Node := CharData("\n    ")
  const FinalBreak: Node := CharData("\n")

  /**
   * The document trees whose texts are the templates' contents: the
   * elements of the catalog's template literals with the line breaks and
   * indentation between them.
   */
  const ChineseQaSystem: Node :=
    Element("system", [Indent2, Leaf("role", "中文问答助手"), Indent2, Leaf("skills", "准确、简洁、友好"), Indent1])

  const ChineseQaTree: Node :=
    Element("prompt", [Indent1, ChineseQaSystem, Indent1, Leaf("input", "{{query}}"), Indent1, Leaf("output", "Markdown"), FinalBreak])

  const ImageGenerationSystem: Node :=
    Element("system", [Indent2, Leaf("role", "Image Generator"), Indent2, Leaf("style", "{{style}}"), Indent2, Leaf("quality", "high"), Indent1])

  const ImageGenerationParameters: Node :=
    Element("parameters", [Indent2, Leaf("width", "{{width}}"), Indent2, Leaf("height", "{{height}}"), Indent2, Leaf("format", "{{format}}"), Indent1])

  const ImageGenerationInput: Node := Leaf("input", "Create an image of " + Placeholder("description"))

  const ImageGenerationTree: Node :=
    Element("prompt", [
      Indent1, ImageGenerationSystem,
      Indent1, ImageGenerationInput,
      Indent1, Leaf("output", "Image"),
      Indent1, ImageGenerationParameters, FinalBreak])

  const TextSummarizerSystem: Node :=
    Element("system", [Indent2, Leaf("role", "Text Summarizer"), Indent2, Leaf("task", "Summarize the given text"), Indent2, Leaf("style", "{{style}}"), Indent1])

  const TextSummarizerConstraints: Node :=
    Element("constraints", [Indent2, Leaf("maxLength", "{{maxLength}}"), Indent2, Leaf("focus", "{{focus}}"), Indent1])

  const TextSummarizerTree: Node :=
    Element("prompt", [
      Indent1, TextSummarizerSystem,
      Indent1, Leaf("input", "{{text}}"),
      Indent1, Leaf("output", "Summary"),
      Indent1, TextSummarizerConstraints, FinalBreak])

  const ChineseQaVariables: seq<TemplateVariable> := [
    TemplateVariable("query", StringType, "{{query}}", "用户的问题或查询", true)]

  const ChineseQa: XmlTemplate := XmlTemplate(
    id := "chinese-qa-assistant",
    name := "Chinese QA Assistant",
    category := Basic,
    description := "中文问答助手模板，提供准确、简洁、友好的回答",
    content := Render([ChineseQaTree]),
    variables := ChineseQaVariables,
    tags := ["中文", "问答", "助手", "基础"],
    version := "1.0.0",
    createdAt := "2024-01-01",
    updatedAt := "2024-01-01")

  const ImageGenerationVariables: seq<TemplateVariable> := [
    TemplateVariable("style", StringType, "Photorealistic", "图像风格", false),
    TemplateVariable("description", StringType, "{{description}}", "图像描述", true),
    TemplateVariable("width", NumberType, "1024", "图像宽度", false),
    TemplateVariable("height", NumberType, "1024", "图像高度", false),
    TemplateVariable("format", StringType, "PNG", "图像格式", false)]

  const ImageGeneration: XmlTemplate := XmlTemplate(
    id := "image-generation",
    name := "Image Generation",
    category := Image,
    description := "图像生成提示词模板",
    content := Render([ImageGenerationTree]),
    variables := ImageGenerationVariables,
    tags := ["图像", "生成", "AI", "艺术"],
    version := "1.0.0",
    createdAt := "2024-01-01",
    updatedAt := "2024-01-01")

  const TextSummarizerVariables: seq<TemplateVariable> := [
    TemplateVariable("text", StringType, "{{text}}", "需要摘要的文本", true),
    TemplateVariable("style", StringType, "Concise", "摘要风格", false),
    TemplateVariable("maxLength", NumberType, "200", "最大长度", false),
    TemplateVariable("focus", StringType, "Key points", "摘要重点", false)]

  const TextSummarizer: XmlTemplate := XmlTemplate(
    id := "text-summarizer",
    name := "Text Summarizer",
    category := Text,
    description := "文本摘要生成模板",
    content := Render([TextSummarizerTree]),
    variables := TextSummarizerVariables,
    tags := ["文本", "摘要", "处理", "AI"],
    version := "1.0.0",
    createdAt := "2024-01-01",
    updatedAt := "2024-01-01")

  const PresetTemplates: seq<XmlTemplate> := [ChineseQa, ImageGeneration, TextSummarizer]

  /** `templates.filter(t => t.category === c)` */
  function OfCategory(templates: seq<XmlTemplate>, c: Category): seq<XmlTemplate>
  {
    if templates == [] then []
    else Only(templates[0], c) + OfCategory(templates[1..], c)
  }

  const TemplateCategories: seq<TemplateCategory> := [
    TemplateCategory("basic", "Basic", "基础模板，适用于常见场景", "\U{1F4DD}", OfCategory(PresetTemplates, Basic)),
    TemplateCategory("image", "Image", "图像生成相关模板", "\U{1F5BC}\U{FE0F}", OfCategory(PresetTemplates, Image)),
    TemplateCategory("text", "Text", "文本处理相关模板", "\U{1F4C4}", OfCategory(PresetTemplates, Text)),
    TemplateCategory("writer", "Writer", "写作辅助模板", "\U{270D}\U{FE0F}", OfCategory(PresetTemplates, Writer)),
    TemplateCategory("video", "Video", "视频相关模板", "\U{1F3A5}", OfCategory(PresetTemplates, Video))]

  /** Every template of the category, in catalog order. */
  lemma {:induction false} OfCategoryMembers(templates: seq<XmlTemplate>, c: Category)
    ensures forall t :: t in OfCategory(templates, c) <==> t in templates && t.category == c
    decreases |templates|
  {
    if templates != [] {
      OfCategoryMembers(templates[1..], c);
      assert templates == [templates[0]] + templates[1..];
    }
  }

  /** The templates of all categories, category after category. */
  function AllTemplates(categories: seq<TemplateCategory>): seq<XmlTemplate>
  {
    if categories == [] then [] else categories[0].templates + AllTemplates(categories[1..])
  }

  /** The five filters together take every template exactly once. */
  lemma {:induction false} CategoriesCoverEachOnce(templates: seq<XmlTemplate>)
    ensures |OfCategory(templates, Basic)| + |OfCategory(templates, Image)| + |OfCategory(templates, Text)|
      + |OfCategory(templates, Writer)| + |OfCategory(templates, Video)| == |templates|
    decreases |templates|
  {
    if templates != [] {
      CategoriesCoverEachOnce(templates[1..]);
    }
  }

  function Only(t: XmlTemplate, c: Category): seq<XmlTemplate>
  {
    if t.category == c then [t] else []
  }

  lemma OfCategoryOfThree(a: XmlTemplate, b: XmlTemplate, d: XmlTemplate, c: Category)
    ensures OfCategory([a, b, d], c) == Only(a, c) + Only(b, c) + Only(d, c)
  {
    assert [a, b, d][1..] == [b, d];
    assert [b, d][1..] == [d];
    assert [d][1..] == [];
    assert OfCategory([d], c) == Only(d, c) + OfCategory([], c);
    assert OfCategory([b, d], c) == Only(b, c) + OfCategory([d], c);
    assert OfCategory([a, b, d], c) == Only(a, c) + OfCategory([b, d], c);
  }

  /** Each of the catalog's categories is named after, and filters by, one category. */
  lemma CatalogLayout()
    ensures |TemplateCategories| == |AllCategories|
    ensures forall i :: 0 <= i < |TemplateCategories| ==>
      TemplateCategories[i].id == CategoryId(AllCategories[i])
      && TemplateCategories[i].templates == OfCategory(PresetTemplates, AllCategories[i])
  {
  }

  /** A catalog category holds exactly the presets whose category carries its identifier. */
  lemma CategoriesHoldOwnTemplates()
    ensures forall c, t :: c in TemplateCategories ==>
      (t in c.templates <==> t in PresetTemplates && CategoryId(t.category) == c.id)
  {
    forall c, t | c in TemplateCategories
      ensures t in c.templates <==> t in PresetTemplates && CategoryId(t.category) == c.id
    {
      CatalogLayout();
      var i :| 0 <= i < |TemplateCategories| && TemplateCategories[i] == c;
      var k := AllCategories[i];
      OfCategoryMembers(PresetTemplates, k);
      CategoryIdInjective(t.category, k);
    }
  }

  /** An identifier names one category: the `id` a category tab filters on picks out that category alone. */
  lemma CategoryIdInjective(a: Category, b: Category)
    ensures CategoryId(a) == CategoryId(b) <==> a == b
  {
    if a != b {
      assert CategoryId(a)[0] != CategoryId(b)[0];
    }
  }

  /** The catalog's categories, in order, with the presets each one holds. */
  lemma CatalogContents()
    ensures |TemplateCategories| == |AllCategories|
    ensures forall i :: 0 <= i < |TemplateCategories| ==>
      TemplateCategories[i].id == CategoryId(AllCategories[i])
      && TemplateCategories[i].templates == OfCategory(PresetTemplates, AllCategories[i])
    ensures OfCategory(PresetTemplates, Basic) == [ChineseQa]
    ensures OfCategory(PresetTemplates, Image) == [ImageGeneration]
    ensures OfCategory(PresetTemplates, Text) == [TextSummarizer]
    ensures OfCategory(PresetTemplates, Writer) == []
    ensures OfCategory(PresetTemplates, Video) == []
  {
    CatalogLayout();
    forall c: Category ensures OfCategory(PresetTemplates, c) == Only(ChineseQa, c) + Only(ImageGeneration, c) + Only(TextSummarizer, c) {
      OfCategoryOfThree(ChineseQa, ImageGeneration, TextSummarizer, c);
    }
  }

  /** Listing every category's templates gives back the presets in their own order. */
  lemma CatalogListsPresets()
    ensures AllTemplates(TemplateCategories) == PresetTemplates
  {
    var cs := TemplateCategories;
    CatalogContents();
    assert cs == [cs[0], cs[1], cs[2], cs[3], cs[4]];
    AllTemplatesOfFive(cs[0], cs[1], cs[2], cs[3], cs[4]);
    assert AllCategories[0] == Basic && AllCategories[1] == Image && AllCategories[2] == Text;
    assert AllCategories[3] == Writer && AllCategories[4] == Video;
    OneEachOfThree(ChineseQa, ImageGeneration, TextSummarizer,
      cs[0].templates, cs[1].templates, cs[2].templates, cs[3].templates, cs[4].templates);
  }

  lemma OneEachOfThree<T>(a: T, b: T, c: T, xs: seq<T>, ys: seq<T>, zs: seq<T>, us: seq<T>, ws: seq<T>)
    requires xs == [a] && ys == [b] && zs == [c] && us == [] && ws == []
    ensures xs + ys + zs + us + ws == [a, b, c]
  {
  }

  lemma AllTemplatesOfFive(a: TemplateCategory, b: TemplateCategory, c: TemplateCategory, d: TemplateCategory, e: TemplateCategory)
    ensures AllTemplates([a, b, c, d, e]) == a.templates + b.templates + c.templates + d.templates + e.templates
  {
    assert [a, b, c, d, e][1..] == [b, c, d, e];
    assert [b, c, d, e][1..] == [c, d, e];
    assert [c, d, e][1..] == [d, e];
    assert [d, e][1..] == [e];
    assert [e][1..] == [];
    assert AllTemplates([e]) == e.templates;
    assert AllTemplates([d, e]) == d.templates + e.templates;
    assert AllTemplates([c, d, e]) == c.templates + (d.templates + e.templates);
    assert AllTemplates([b, c, d, e]) == b.templates + (c.templates + (d.templates + e.templates));
  }

  /** No two presets share an identifier. */
  lemma PresetIdsDistinct()
    ensures forall i, j :: 0 <= i < j < |PresetTemplates| ==> PresetTemplates[i].id != PresetTemplates[j].id
  {
    assert ChineseQa.id[0] == 'c' && ImageGeneration.id[0] == 'i' && TextSummarizer.id[0] == 't';
  }

  /** A variable is required exactly when its default value is its own placeholder. */
  lemma RequiredVariablesDefaultToPlaceholder()
    ensures forall t, v :: t in PresetTemplates && v in t.variables ==>
      (v.required <==> v.defaultValue == Placeholder(v.name))
  {
    forall t, v | t in PresetTemplates && v in t.variables
      ensures v.required <==> v.defaultValue == Placeholder(v.name)
    {
      if t == ChineseQa {
        QaDefaults(v);
      } else if t == ImageGeneration {
        ImageDefaults(v);
      } else {
        SummarizerDefaults(v);
      }
    }
  }

  lemma QaDefaults(v: TemplateVariable)
    requires v in ChineseQaVariables
    ensures v.required <==> v.defaultValue == Placeholder(v.name)
  {
    assert Placeholder("query") == "{{query}}";
  }

  lemma ImageDefaults(v: TemplateVariable)
    requires v in ImageGenerationVariables
    ensures v.required <==> v.defaultValue == Placeholder(v.name)
  {
    var vs := ImageGenerationVariables;
    var i :| 0 <= i < |vs| && vs[i] == v;
    if i == 1 {
      assert Placeholder("description") == "{{description}}";
    } else {
      assert v.defaultValue[0] != '{';
    }
  }

  lemma SummarizerDefaults(v: TemplateVariable)
    requires v in TextSummarizerVariables
    ensures v.required <==> v.defaultValue == Placeholder(v.name)
  {
    var vs := TextSummarizerVariables;
    var i :| 0 <= i < |vs| && vs[i] == v;
    if i == 0 {
      assert Placeholder("text") == "{{text}}";
    } else {
      assert v.defaultValue[0] != '{';
    }
  }
}
