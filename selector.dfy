/**
 * The template selector's list (`filteredTemplates`): the categories the
 * category menu selects (`all` or one category id), their templates one
 * category after the other, and of those the templates whose name,
 * description or some tag contains the search text, compared in lower case.
 */
module Selector {
  import opened Strings
  import opened Presets

  /** The menu value that selects every category. */
  const AllId: string := "all"

  /** `.filter(category => selectedCategory === 'all' || category.id === selectedCategory)` */
  function ChosenCategories(categories: seq<TemplateCategory>, selected: string): (r: seq<TemplateCategory>)
    ensures |r| <= |categories|
    ensures forall c :: c in r <==> c in categories && (selected == AllId || c.id == selected)
    decreases |categories|
  {
    if categories == [] then []
    else
      var c := categories[0];
      var rest := ChosenCategories(categories[1..], selected);
      if selected == AllId || c.id == selected then [c] + rest else rest
  }

  /** The search: the lower-cased query occurs in the lower-cased name, description or some tag. */
  predicate Matches(t: XmlTemplate, query: string) {
    var q := Lower(query);
    || IsSubstring(q, Lower(t.name))
    || IsSubstring(q, Lower(t.description))
    || exists i :: 0 <= i < |t.tags| && IsSubstring(q, Lower(t.tags[i]))
  }

  /** The templates that match the query, in their order. */
  function Search(templates: seq<XmlTemplate>, query: string): seq<XmlTemplate>
    decreases |templates|
  {
    if templates == [] then []
    else (if Matches(templates[0], query) then [templates[0]] else []) + Search(templates[1..], query)
  }

  function FilteredTemplates(categories: seq<TemplateCategory>, selected: string, query: string): seq<XmlTemplate>
  {
    Search(AllTemplates(ChosenCategories(categories, selected)), query)
  }

  /** `xs` is `ys` with some elements left out and the rest in the same order. */
  predicate IsSubsequence<T(==)>(xs: seq<T>, ys: seq<T>)
    decreases |ys|
  {
    xs == [] || (ys != [] && if xs[0] == ys[0] then IsSubsequence(xs[1..], ys[1..]) else IsSubsequence(xs, ys[1..]))
  }

  lemma {:induction false} SubsequenceDropHead<T>(xs: seq<T>, ys: seq<T>)
    requires xs != [] && IsSubsequence(xs, ys)
    ensures IsSubsequence(xs[1..], ys)
    decreases |ys|, 1
  {
    if xs[1..] != [] {
      if xs[0] == ys[0] {
        SubsequenceOfTail(xs[1..], ys);
      } else {
        SubsequenceDropHead(xs, ys[1..]);
        SubsequenceOfTail(xs[1..], ys);
      }
    }
  }

  lemma {:induction false} SubsequenceOfTail<T>(xs: seq<T>, ys: seq<T>)
    requires ys != [] && IsSubsequence(xs, ys[1..])
    ensures IsSubsequence(xs, ys)
    decreases |ys|, 0
  {
    if xs != [] && xs[0] == ys[0] {
      SubsequenceDropHead(xs, ys[1..]);
    }
  }

  lemma {:induction false} SubsequenceOfSuffix<T>(xs: seq<T>, prefix: seq<T>, ys: seq<T>)
    requires IsSubsequence(xs, ys)
    ensures IsSubsequence(xs, prefix + ys)
    decreases |prefix|
  {
    if prefix != [] {
      SubsequenceOfSuffix(xs, prefix[1..], ys);
      assert (prefix + ys)[1..] == prefix[1..] + ys;
      SubsequenceOfTail(xs, prefix + ys);
    } else {
      assert prefix + ys == ys;
    }
  }

  lemma {:induction false} SubsequenceWithPrefix<T>(prefix: seq<T>, xs: seq<T>, ys: seq<T>)
    requires IsSubsequence(xs, ys)
    ensures IsSubsequence(prefix + xs, prefix + ys)
    decreases |prefix|
  {
    if prefix != [] {
      SubsequenceWithPrefix(prefix[1..], xs, ys);
      assert (prefix + xs)[1..] == prefix[1..] + xs;
      assert (prefix + ys)[1..] == prefix[1..] + ys;
    } else {
      assert prefix + xs == xs && prefix + ys == ys;
    }
  }

  lemma {:induction false} SubsequenceTransitive<T>(xs: seq<T>, ys: seq<T>, zs: seq<T>)
    requires IsSubsequence(xs, ys) && IsSubsequence(ys, zs)
    ensures IsSubsequence(xs, zs)
    decreases |zs|
  {
    if xs != [] {
      if ys[0] == zs[0] {
        if xs[0] == ys[0] {
          SubsequenceTransitive(xs[1..], ys[1..], zs[1..]);
        } else {
          SubsequenceTransitive(xs, ys[1..], zs[1..]);
        }
      } else {
        SubsequenceTransitive(xs, ys, zs[1..]);
        if xs[0] == zs[0] {
          SubsequenceDropHead(xs, zs[1..]);
        }
      }
    }
  }

  /** The search keeps exactly the matching templates. */
  lemma {:induction false} SearchMembers(templates: seq<XmlTemplate>, query: string)
    ensures forall t :: t in Search(templates, query) <==> t in templates && Matches(t, query)
    decreases |templates|
  {
    if templates != [] {
      SearchMembers(templates[1..], query);
      assert templates == [templates[0]] + templates[1..];
    }
  }

  /** The search leaves templates out but never reorders them. */
  lemma {:induction false} SearchIsSubsequence(templates: seq<XmlTemplate>, query: string)
    ensures IsSubsequence(Search(templates, query), templates)
    decreases |templates|
  {
    if templates != [] {
      var rest := Search(templates[1..], query);
      SearchIsSubsequence(templates[1..], query);
      if Matches(templates[0], query) {
        assert ([templates[0]] + rest)[1..] == rest;
      } else {
        assert Search(templates, query) == rest;
        SubsequenceOfTail(rest, templates);
      }
    }
  }

  /** The empty query matches every template: `"".includes` holds of every text. */
  lemma {:induction false} EmptyQueryKeepsAll(templates: seq<XmlTemplate>)
    ensures Search(templates, "") == templates
    decreases |templates|
  {
    if templates != [] {
      EmptyIsSubstring(Lower(templates[0].name));
      assert Lower("") == "";
      EmptyQueryKeepsAll(templates[1..]);
      assert templates == [templates[0]] + templates[1..];
    }
  }

  lemma {:induction false} AllChoosesEvery(categories: seq<TemplateCategory>)
    ensures ChosenCategories(categories, AllId) == categories
    decreases |categories|
  {
    if categories != [] {
      AllChoosesEvery(categories[1..]);
      assert categories == [categories[0]] + categories[1..];
    }
  }

  /** With `all` and no search text every category's templates are listed, category after category. */
  lemma AllWithEmptyQuery(categories: seq<TemplateCategory>)
    ensures FilteredTemplates(categories, AllId, "") == AllTemplates(categories)
  {
    AllChoosesEvery(categories);
    EmptyQueryKeepsAll(AllTemplates(categories));
  }

  /** For the built-in catalog that is every preset, in the presets' own order. */
  lemma CatalogInitialList()
    ensures FilteredTemplates(TemplateCategories, AllId, "") == PresetTemplates
  {
    AllWithEmptyQuery(TemplateCategories);
    CatalogListsPresets();
  }

  lemma {:induction false} ChosenIsSubsequence(categories: seq<TemplateCategory>, selected: string)
    ensures IsSubsequence(AllTemplates(ChosenCategories(categories, selected)), AllTemplates(categories))
    decreases |categories|
  {
    if categories != [] {
      var c := categories[0];
      var rest := AllTemplates(ChosenCategories(categories[1..], selected));
      ChosenIsSubsequence(categories[1..], selected);
      if selected == AllId || c.id == selected {
        assert ([c] + ChosenCategories(categories[1..], selected))[1..] == ChosenCategories(categories[1..], selected);
        SubsequenceWithPrefix(c.templates, rest, AllTemplates(categories[1..]));
      } else {
        SubsequenceOfSuffix(rest, c.templates, AllTemplates(categories[1..]));
      }
    }
  }

  /** The list is the catalog's templates, in catalog order, with some left out. */
  lemma FilteredIsSubsequence(categories: seq<TemplateCategory>, selected: string, query: string)
    ensures IsSubsequence(FilteredTemplates(categories, selected, query), AllTemplates(categories))
  {
    var chosen := AllTemplates(ChosenCategories(categories, selected));
    SearchIsSubsequence(chosen, query);
    ChosenIsSubsequence(categories, selected);
    SubsequenceTransitive(FilteredTemplates(categories, selected, query), chosen, AllTemplates(categories));
  }

  lemma {:induction false} AllTemplatesMembers(categories: seq<TemplateCategory>)
    ensures forall t :: t in AllTemplates(categories) <==> exists i :: 0 <= i < |categories| && t in categories[i].templates
    decreases |categories|
  {
    if categories != [] {
      AllTemplatesMembers(categories[1..]);
      forall t | t in AllTemplates(categories[1..])
        ensures exists i :: 0 <= i < |categories| && t in categories[i].templates
      {
        var i :| 0 <= i < |categories[1..]| && t in categories[1..][i].templates;
        assert categories[i + 1] == categories[1..][i];
      }
      forall t, i | 0 < i < |categories| && t in categories[i].templates
        ensures t in AllTemplates(categories[1..])
      {
        assert categories[1..][i - 1] == categories[i];
      }
    }
  }

  /**
   * A template is listed exactly when a selected category holds it and it
   * matches the search.
   */
  lemma FilteredMembers(categories: seq<TemplateCategory>, selected: string, query: string, t: XmlTemplate)
    ensures t in FilteredTemplates(categories, selected, query) <==>
      && (exists c :: c in categories && (selected == AllId || c.id == selected) && t in c.templates)
      && Matches(t, query)
  {
    var chosen := ChosenCategories(categories, selected);
    SearchMembers(AllTemplates(chosen), query);
    AllTemplatesMembers(chosen);
    if t in AllTemplates(chosen) {
      var i :| 0 <= i < |chosen| && t in chosen[i].templates;
      assert chosen[i] in chosen;
    }
    if exists c :: c in categories && (selected == AllId || c.id == selected) && t in c.templates {
      var c :| c in categories && (selected == AllId || c.id == selected) && t in c.templates;
      var i :| 0 <= i < |chosen| && chosen[i] == c;
      assert t in chosen[i].templates;
    }
  }

  /** A category id that no category has lists nothing. */
  lemma UnknownCategoryListsNothing(categories: seq<TemplateCategory>, selected: string, query: string)
    requires selected != AllId && forall i :: 0 <= i < |categories| ==> categories[i].id != selected
    ensures FilteredTemplates(categories, selected, query) == []
  {
    var chosen := ChosenCategories(categories, selected);
    if chosen != [] {
      assert chosen[0] in chosen;
    }
  }

  /** In the built-in catalog a chosen category lists only templates of that category. */
  lemma CatalogCategoryFilter(selected: string, query: string, t: XmlTemplate)
    requires selected != AllId && t in FilteredTemplates(TemplateCategories, selected, query)
    ensures CategoryId(t.category) == selected
  {
    FilteredMembers(TemplateCategories, selected, query, t);
    CategoriesHoldOwnTemplates();
  }

  /** A template that matches a longer query matches every query it contains. */
  lemma MatchesShorterQuery(t: XmlTemplate, shorter: string, longer: string)
    requires IsSubstring(shorter, longer) && Matches(t, longer)
    ensures Matches(t, shorter)
  {
    var p, q := Lower(shorter), Lower(longer);
    LowerKeepsSubstring(shorter, longer);
    if IsSubstring(q, Lower(t.name)) {
      SubstringTransitive(p, q, Lower(t.name));
    } else if IsSubstring(q, Lower(t.description)) {
      SubstringTransitive(p, q, Lower(t.description));
    } else {
      var i :| 0 <= i < |t.tags| && IsSubstring(q, Lower(t.tags[i]));
      SubstringTransitive(p, q, Lower(t.tags[i]));
    }
  }

  lemma {:induction false} SearchNarrows(templates: seq<XmlTemplate>, shorter: string, longer: string)
    requires IsSubstring(shorter, longer)
    ensures IsSubsequence(Search(templates, longer), Search(templates, shorter))
    decreases |templates|
  {
    if templates != [] {
      var t := templates[0];
      var wide, narrow := Search(templates[1..], shorter), Search(templates[1..], longer);
      SearchNarrows(templates[1..], shorter, longer);
      if Matches(t, longer) {
        MatchesShorterQuery(t, shorter, longer);
        assert ([t] + narrow)[1..] == narrow;
        assert ([t] + wide)[1..] == wide;
      } else if Matches(t, shorter) {
        assert Search(templates, longer) == narrow;
        assert Search(templates, shorter) == [t] + wide;
        assert ([t] + wide)[1..] == wide;
        SubsequenceOfTail(narrow, [t] + wide);
      } else {
        assert Search(templates, longer) == narrow && Search(templates, shorter) == wide;
      }
    }
  }

  /** Typing more of the query only removes templates from the list, never adds or reorders. */
  lemma ExtendingQueryNarrows(categories: seq<TemplateCategory>, selected: string, shorter: string, longer: string)
    requires IsSubstring(shorter, longer)
    ensures IsSubsequence(FilteredTemplates(categories, selected, longer), FilteredTemplates(categories, selected, shorter))
  {
    SearchNarrows(AllTemplates(ChosenCategories(categories, selected)), shorter, longer);
  }
}
