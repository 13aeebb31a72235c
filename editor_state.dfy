/**
 * The full editor page's two pieces of state: the editor text and the
 * template it was loaded from, if any. A template stays associated only
 * while the text is that template's content.
 */
module EditorState {
  import opened Optional
  import opened Presets

  /** The template the page loads when it first appears. */
  const DefaultTemplateId: string := "chinese-qa-assistant"

  /** Position `i` holds the first template with identifier `id`. */
  predicate IsFirstWithId(templates: seq<XmlTemplate>, id: string, i: int) {
    0 <= i < |templates| && templates[i].id == id && forall j :: 0 <= j < i ==> templates[j].id != id
  }

  /** `templates.find(t => t.id === id)`: the first template with that id. */
  function FindById(templates: seq<XmlTemplate>, id: string): (r: Option<XmlTemplate>)
    ensures r.None? <==> forall i :: 0 <= i < |templates| ==> templates[i].id != id
    ensures r.Some? ==> r.value.id == id
    ensures r.Some? ==> exists i :: IsFirstWithId(templates, id, i) && templates[i] == r.value
    decreases |templates|
  {
    if templates == [] then None
    else if templates[0].id == id then Some(templates[0])
    else
      var rest := FindById(templates[1..], id);
      assert forall i :: 1 <= i < |templates| ==> templates[i] == templates[1..][i - 1];
      rest
  }

  /** The page loads the Chinese question-answer preset. */
  lemma DefaultTemplateFound()
    ensures FindById(PresetTemplates, DefaultTemplateId) == Some(ChineseQa)
  {
  }

  class FullEditor {
    var content: string
    var current: Option<XmlTemplate>

    /** The associated template, when there is one, is what the editor shows. */
    predicate Valid()
      reads this
    {
      current.Some? ==> content == current.value.content
    }

    /** The page's initial state: no text, no template. */
    constructor()
      ensures content == "" && current == None
      ensures Valid()
    {
      content := "";
      current := None;
    }

    /** The mount effect: show the default preset and associate it. */
    method LoadDefault()
      modifies this
      ensures match FindById(PresetTemplates, DefaultTemplateId)
        case Some(t) => content == t.content && current == Some(t)
        case None => content == old(content) && current == old(current)
      ensures content == ChineseQa.content && current == Some(ChineseQa)
      ensures Valid()
    {
      DefaultTemplateFound();
      var found := FindById(PresetTemplates, DefaultTemplateId);
      if found.Some? {
        content := found.value.content;
        current := found;
      }
    }

    /** Choosing a template in the selector shows its content and associates it. */
    method SelectTemplate(t: XmlTemplate)
      modifies this
      ensures content == t.content && current == Some(t)
      ensures Valid()
    {
      content := t.content;
      current := Some(t);
    }

    /**
     * An edit replaces the text; it drops the associated template exactly
     * when there is one and the new text is not its content.
     */
    method ChangeContent(newContent: string)
      modifies this
      ensures content == newContent
      ensures current == if old(current).Some? && newContent != old(current).value.content then None else old(current)
      ensures current.Some? ==> current == old(current)
      ensures Valid()
    {
      content := newContent;
      if current.Some? && newContent != current.value.content {
        current := None;
      }
    }
  }
}
