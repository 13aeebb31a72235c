/**
 * The validation panel (`validateXML` and the badges): an ordered list of
 * findings assembled from the browser parser's verdict, the tag-balance scan
 * and the attribute check. The browser's XML parser is outside the model; its
 * outcome comes in as a `ParseFacts` record.
 */
module Validation {
  import opened Strings
  import opened Optional
  import opened Markup
  import opened TagScan
  import opened Attributes

  datatype Severity = Error | Warning | Info

  /** One finding. `line` and `column` exist in the record but no check fills them in. */
  datatype Diagnostic = Diagnostic(kind: Severity, message: string, line: Option<nat>, column: Option<nat>, severity: Severity)

  /**
   * What the browser parser reports about the text: a `parsererror` element,
   * whether the document element is named `prompt`, and whether an element named
   * `system`, `input` or `output` occurs anywhere in the document.
   */
  datatype ParseFacts = ParseFacts(parseFailed: bool, rootIsPrompt: bool, hasSystem: bool, hasInput: bool, hasOutput: bool)

  /** Every finding the panel creates: `type` and `severity` are the same, no position. */
  function Finding(severity: Severity, message: string): Diagnostic
  {
    Diagnostic(severity, message, None, None, severity)
  }

  const ParseErrorMessage := "XML parsing error: Invalid XML syntax"
  const RootMessage := "Root element must be \"prompt\""
  const MissingSystemMessage := "Missing \"system\" element (recommended)"
  const MissingInputMessage := "Missing \"input\" element (required)"
  const MissingOutputMessage := "Missing \"output\" element (recommended)"

  function UnclosedMessage(tag: string): string
  {
    "Unclosed tag: " + tag
  }

  function AttributeMessage(attr: string): string
  {
    "Invalid attribute format: " + attr
  }

  /** A finding that is present only when its check fires. */
  function When(fires: bool, d: Diagnostic): seq<Diagnostic>
  {
    if fires then [d] else []
  }

  /** The parser-based findings, in the order the source checks them. */
  function StructureFindings(facts: ParseFacts): seq<Diagnostic>
  {
    When(facts.parseFailed, Finding(Error, ParseErrorMessage))
    + When(!facts.rootIsPrompt, Finding(Error, RootMessage))
    + When(!facts.hasSystem, Finding(Warning, MissingSystemMessage))
    + When(!facts.hasInput, Finding(Error, MissingInputMessage))
    + When(!facts.hasOutput, Finding(Warning, MissingOutputMessage))
  }

  /** One error per unclosed tag, in scan order. */
  function UnclosedFindings(tags: seq<string>): (r: seq<Diagnostic>)
    ensures |r| == |tags|
    ensures forall i :: 0 <= i < |r| ==> r[i] == Finding(Error, UnclosedMessage(tags[i]))
    decreases |tags|
  {
    if tags == [] then []
    else UnclosedFindings(tags[..|tags| - 1]) + [Finding(Error, UnclosedMessage(tags[|tags| - 1]))]
  }

  /** One warning per malformed attribute, in report order. */
  function AttributeFindings(attrs: seq<string>): (r: seq<Diagnostic>)
    ensures |r| == |attrs|
    ensures forall i :: 0 <= i < |r| ==> r[i] == Finding(Warning, AttributeMessage(attrs[i]))
    decreases |attrs|
  {
    if attrs == [] then []
    else AttributeFindings(attrs[..|attrs| - 1]) + [Finding(Warning, AttributeMessage(attrs[|attrs| - 1]))]
  }

  /** The full list: parser findings, then one per unclosed tag, then one per malformed attribute. */
  function Report(facts: ParseFacts, unclosed: seq<string>, invalid: seq<string>): seq<Diagnostic>
  {
    StructureFindings(facts) + UnclosedFindings(unclosed) + AttributeFindings(invalid)
  }

  /** The five parser-based checks, each pushing its finding when it fires. */
  method CheckStructure(facts: ParseFacts) returns (findings: seq<Diagnostic>)
    ensures findings == StructureFindings(facts)
  {
    var parse := Finding(Error, ParseErrorMessage);
    var root := Finding(Error, RootMessage);
    var system := Finding(Warning, MissingSystemMessage);
    var input := Finding(Error, MissingInputMessage);
    var output := Finding(Warning, MissingOutputMessage);
    findings := [];
    if facts.parseFailed {
      findings := findings + [parse];
    }
    assert findings == When(facts.parseFailed, parse);
    ghost var checked := findings;
    if !facts.rootIsPrompt {
      findings := findings + [root];
    }
    assert findings == checked + When(!facts.rootIsPrompt, root);
    checked := findings;
    if !facts.hasSystem {
      findings := findings + [system];
    }
    assert findings == checked + When(!facts.hasSystem, system);
    checked := findings;
    if !facts.hasInput {
      findings := findings + [input];
    }
    assert findings == checked + When(!facts.hasInput, input);
    checked := findings;
    if !facts.hasOutput {
      findings := findings + [output];
    }
    assert findings == checked + When(!facts.hasOutput, output);
  }

  /** `unclosedTags.forEach(...)`: one error per unclosed tag, appended in order. */
  method PushUnclosed(findings: seq<Diagnostic>, unclosed: seq<string>) returns (r: seq<Diagnostic>)
    ensures r == findings + UnclosedFindings(unclosed)
  {
    r := findings;
    for i := 0 to |unclosed|
      invariant r == findings + UnclosedFindings(unclosed[..i])
    {
      assert unclosed[..i + 1][..i] == unclosed[..i];
      r := r + [Finding(Error, UnclosedMessage(unclosed[i]))];
    }
    assert unclosed[..|unclosed|] == unclosed;
  }

  /** `invalidAttributes.forEach(...)`: one warning per rejected attribute, appended in order. */
  method PushInvalid(findings: seq<Diagnostic>, invalid: seq<string>) returns (r: seq<Diagnostic>)
    ensures r == findings + AttributeFindings(invalid)
  {
    r := findings;
    for i := 0 to |invalid|
      invariant r == findings + AttributeFindings(invalid[..i])
    {
      assert invalid[..i + 1][..i] == invalid[..i];
      r := r + [Finding(Warning, AttributeMessage(invalid[i]))];
    }
    assert invalid[..|invalid|] == invalid;
  }

  /** `validateXML`: the parser checks, then the tag-balance scan, then the attribute check. */
  method ValidateXml(content: string, facts: ParseFacts, candidates: seq<string>) returns (findings: seq<Diagnostic>)
    ensures findings == Report(facts, UnclosedTags(TagTokens(content)), InvalidAttributes(candidates))
  {
    findings := CheckStructure(facts);
    var unclosed := FindUnclosedTags(content);
    findings := PushUnclosed(findings, unclosed);
    var invalid := FindInvalidAttributes(candidates);
    findings := PushInvalid(findings, invalid);
  }

  /** `errors.some(e => e.severity === s)` */
  predicate HasSeverity(ds: seq<Diagnostic>, s: Severity) {
    exists i :: 0 <= i < |ds| && ds[i].severity == s
  }

  /** `errors.filter(e => e.severity === s).length` */
  function CountSeverity(ds: seq<Diagnostic>, s: Severity): nat
  {
    if ds == [] then 0 else (if ds[0].severity == s then 1 else 0) + CountSeverity(ds[1..], s)
  }

  /** A badge is shown exactly when its count is positive. */
  lemma {:induction false} HasSeverityIffCounted(ds: seq<Diagnostic>, s: Severity)
    ensures HasSeverity(ds, s) <==> CountSeverity(ds, s) > 0
  {
    if ds != [] {
      HasSeverityIffCounted(ds[1..], s);
      if HasSeverity(ds[1..], s) {
        var i :| 0 <= i < |ds[1..]| && ds[1..][i].severity == s;
        assert ds[i + 1].severity == s;
      }
      if HasSeverity(ds, s) && ds[0].severity != s {
        var i :| 0 <= i < |ds| && ds[i].severity == s;
        assert ds[1..][i - 1].severity == s;
      }
    }
  }

  lemma {:induction false} CountAppend(a: seq<Diagnostic>, b: seq<Diagnostic>, s: Severity)
    ensures CountSeverity(a + b, s) == CountSeverity(a, s) + CountSeverity(b, s)
    decreases |a|
  {
    if a == [] {
      assert a + b == b;
    } else {
      assert (a + b)[1..] == a[1..] + b;
      CountAppend(a[1..], b, s);
    }
  }

  lemma CountWhen(fires: bool, d: Diagnostic, s: Severity)
    ensures CountSeverity(When(fires, d), s) == Flag(fires && d.severity == s)
  {
    if fires {
      assert When(fires, d)[1..] == [];
    }
  }

  lemma {:induction false} CountUnclosed(tags: seq<string>, s: Severity)
    ensures CountSeverity(UnclosedFindings(tags), s) == if s == Error then |tags| else 0
    decreases |tags|
  {
    if tags != [] {
      var last := Finding(Error, UnclosedMessage(tags[|tags| - 1]));
      CountUnclosed(tags[..|tags| - 1], s);
      CountAppend(UnclosedFindings(tags[..|tags| - 1]), [last], s);
      CountWhen(true, last, s);
    }
  }

  lemma {:induction false} CountAttributes(attrs: seq<string>, s: Severity)
    ensures CountSeverity(AttributeFindings(attrs), s) == if s == Warning then |attrs| else 0
    decreases |attrs|
  {
    if attrs != [] {
      var last := Finding(Warning, AttributeMessage(attrs[|attrs| - 1]));
      CountAttributes(attrs[..|attrs| - 1], s);
      CountAppend(AttributeFindings(attrs[..|attrs| - 1]), [last], s);
      CountWhen(true, last, s);
    }
  }

  function Flag(b: bool): nat
  {
    if b then 1 else 0
  }

  /** Per severity, the count of the parser-based findings. */
  lemma CountStructure(facts: ParseFacts, s: Severity)
    ensures CountSeverity(StructureFindings(facts), s)
      == Flag(facts.parseFailed && s == Error) + Flag(!facts.rootIsPrompt && s == Error)
       + Flag(!facts.hasSystem && s == Warning) + Flag(!facts.hasInput && s == Error)
       + Flag(!facts.hasOutput && s == Warning)
  {
    var a := When(facts.parseFailed, Finding(Error, ParseErrorMessage));
    var b := When(!facts.rootIsPrompt, Finding(Error, RootMessage));
    var c := When(!facts.hasSystem, Finding(Warning, MissingSystemMessage));
    var d := When(!facts.hasInput, Finding(Error, MissingInputMessage));
    var e := When(!facts.hasOutput, Finding(Warning, MissingOutputMessage));
    CountFive(a, b, c, d, e, s);
    CountWhen(facts.parseFailed, Finding(Error, ParseErrorMessage), s);
    CountWhen(!facts.rootIsPrompt, Finding(Error, RootMessage), s);
    CountWhen(!facts.hasSystem, Finding(Warning, MissingSystemMessage), s);
    CountWhen(!facts.hasInput, Finding(Error, MissingInputMessage), s);
    CountWhen(!facts.hasOutput, Finding(Warning, MissingOutputMessage), s);
  }

  lemma CountFive(a: seq<Diagnostic>, b: seq<Diagnostic>, c: seq<Diagnostic>, d: seq<Diagnostic>, e: seq<Diagnostic>, s: Severity)
    ensures CountSeverity(a + b + c + d + e, s)
      == CountSeverity(a, s) + CountSeverity(b, s) + CountSeverity(c, s) + CountSeverity(d, s) + CountSeverity(e, s)
  {
    CountAppend(a, b, s);
    CountAppend(a + b, c, s);
    CountAppend(a + b + c, d, s);
    CountAppend(a + b + c + d, e, s);
  }

  /** How many errors, warnings and infos the panel's badges show for a report. */
  lemma ReportCounts(facts: ParseFacts, unclosed: seq<string>, invalid: seq<string>)
    ensures var r := Report(facts, unclosed, invalid);
      && CountSeverity(r, Error) == Flag(facts.parseFailed) + Flag(!facts.rootIsPrompt) + Flag(!facts.hasInput) + |unclosed|
      && CountSeverity(r, Warning) == Flag(!facts.hasSystem) + Flag(!facts.hasOutput) + |invalid|
      && CountSeverity(r, Info) == 0
  {
    var r := Report(facts, unclosed, invalid);
    assert CountSeverity(r, Error) == Flag(facts.parseFailed) + Flag(!facts.rootIsPrompt) + Flag(!facts.hasInput) + |unclosed| by {
      CountReportParts(facts, unclosed, invalid, Error);
      CountStructure(facts, Error);
      CountUnclosed(unclosed, Error);
      CountAttributes(invalid, Error);
    }
    assert CountSeverity(r, Warning) == Flag(!facts.hasSystem) + Flag(!facts.hasOutput) + |invalid| by {
      CountReportParts(facts, unclosed, invalid, Warning);
      CountStructure(facts, Warning);
      CountUnclosed(unclosed, Warning);
      CountAttributes(invalid, Warning);
    }
    assert CountSeverity(r, Info) == 0 by {
      CountReportParts(facts, unclosed, invalid, Info);
      CountStructure(facts, Info);
      CountUnclosed(unclosed, Info);
      CountAttributes(invalid, Info);
    }
  }

  lemma CountReportParts(facts: ParseFacts, unclosed: seq<string>, invalid: seq<string>, s: Severity)
    ensures CountSeverity(Report(facts, unclosed, invalid), s)
      == CountSeverity(StructureFindings(facts), s) + CountSeverity(UnclosedFindings(unclosed), s)
       + CountSeverity(AttributeFindings(invalid), s)
  {
    var st, u, w := StructureFindings(facts), UnclosedFindings(unclosed), AttributeFindings(invalid);
    CountAppend(st, u, s);
    CountAppend(st + u, w, s);
  }

  /** What every finding the panel creates looks like. */
  predicate PanelShaped(d: Diagnostic) {
    d.kind == d.severity && d.line.None? && d.column.None? && d.severity != Info
  }

  lemma StructureShaped(facts: ParseFacts)
    ensures forall d :: d in StructureFindings(facts) ==> PanelShaped(d)
  {
  }

  /** Every finding has `type == severity`, no line or column, and is never an info. */
  lemma ReportShape(facts: ParseFacts, unclosed: seq<string>, invalid: seq<string>)
    ensures forall d :: d in Report(facts, unclosed, invalid) ==>
      d.kind == d.severity && d.line.None? && d.column.None? && d.severity != Info
  {
    var st, u, w := StructureFindings(facts), UnclosedFindings(unclosed), AttributeFindings(invalid);
    StructureShaped(facts);
    forall d | d in Report(facts, unclosed, invalid)
      ensures PanelShaped(d)
    {
      assert d in st || d in u || d in w;
      if d in u {
        var i :| 0 <= i < |u| && u[i] == d;
      } else if d in w {
        var i :| 0 <= i < |w| && w[i] == d;
      }
    }
  }

  /** How many findings carry message `m`. */
  function CountMessage(ds: seq<Diagnostic>, m: string): nat
  {
    if ds == [] then 0 else (if ds[0].message == m then 1 else 0) + CountMessage(ds[1..], m)
  }

  lemma {:induction false} CountMessageAppend(a: seq<Diagnostic>, b: seq<Diagnostic>, m: string)
    ensures CountMessage(a + b, m) == CountMessage(a, m) + CountMessage(b, m)
    decreases |a|
  {
    if a == [] {
      assert a + b == b;
    } else {
      assert (a + b)[1..] == a[1..] + b;
      CountMessageAppend(a[1..], b, m);
    }
  }

  lemma {:induction false} NoMessageStartingWith(ds: seq<Diagnostic>, m: string, c: char)
    requires |m| > 0 && m[0] != c
    requires forall i :: 0 <= i < |ds| ==> |ds[i].message| > 0 && ds[i].message[0] == c
    ensures CountMessage(ds, m) == 0
    decreases |ds|
  {
    if ds != [] {
      assert ds[0].message != m;
      NoMessageStartingWith(ds[1..], m, c);
    }
  }

  lemma CountMessageWhen(fires: bool, d: Diagnostic, m: string)
    ensures CountMessage(When(fires, d), m) == Flag(fires && d.message == m)
  {
    if fires {
      assert When(fires, d)[1..] == [];
    }
  }

  lemma CountMessageFive(a: seq<Diagnostic>, b: seq<Diagnostic>, c: seq<Diagnostic>, d: seq<Diagnostic>, e: seq<Diagnostic>, m: string)
    ensures CountMessage(a + b + c + d + e, m)
      == CountMessage(a, m) + CountMessage(b, m) + CountMessage(c, m) + CountMessage(d, m) + CountMessage(e, m)
  {
    CountMessageAppend(a, b, m);
    CountMessageAppend(a + b, c, m);
    CountMessageAppend(a + b + c, d, m);
    CountMessageAppend(a + b + c + d, e, m);
  }

  /** The parser findings carry the root-requirement message once when the root is wrong, else never. */
  lemma StructureRootCount(facts: ParseFacts)
    ensures CountMessage(StructureFindings(facts), RootMessage) == Flag(!facts.rootIsPrompt)
  {
    var a := When(facts.parseFailed, Finding(Error, ParseErrorMessage));
    var b := When(!facts.rootIsPrompt, Finding(Error, RootMessage));
    var c := When(!facts.hasSystem, Finding(Warning, MissingSystemMessage));
    var d := When(!facts.hasInput, Finding(Error, MissingInputMessage));
    var e := When(!facts.hasOutput, Finding(Warning, MissingOutputMessage));
    CountMessageFive(a, b, c, d, e, RootMessage);
    assert CountMessage(a, RootMessage) == 0 by {
      assert ParseErrorMessage[0] != RootMessage[0];
      CountMessageWhen(facts.parseFailed, Finding(Error, ParseErrorMessage), RootMessage);
    }
    assert CountMessage(b, RootMessage) == Flag(!facts.rootIsPrompt) by {
      CountMessageWhen(!facts.rootIsPrompt, Finding(Error, RootMessage), RootMessage);
    }
    assert CountMessage(c, RootMessage) == 0 by {
      assert MissingSystemMessage[0] != RootMessage[0];
      CountMessageWhen(!facts.hasSystem, Finding(Warning, MissingSystemMessage), RootMessage);
    }
    assert CountMessage(d, RootMessage) == 0 by {
      assert MissingInputMessage[0] != RootMessage[0];
      CountMessageWhen(!facts.hasInput, Finding(Error, MissingInputMessage), RootMessage);
    }
    assert CountMessage(e, RootMessage) == 0 by {
      assert MissingOutputMessage[0] != RootMessage[0];
      CountMessageWhen(!facts.hasOutput, Finding(Warning, MissingOutputMessage), RootMessage);
    }
  }

  /** A document without a `prompt` root gets exactly one root-requirement finding; one with it gets none. */
  lemma RootRequirementReportedOnce(facts: ParseFacts, unclosed: seq<string>, invalid: seq<string>)
    ensures CountMessage(Report(facts, unclosed, invalid), RootMessage) == if facts.rootIsPrompt then 0 else 1
  {
    var st := StructureFindings(facts);
    var u := UnclosedFindings(unclosed);
    var w := AttributeFindings(invalid);
    CountMessageAppend(st + u, w, RootMessage);
    CountMessageAppend(st, u, RootMessage);
    NoMessageStartingWith(u, RootMessage, 'U');
    NoMessageStartingWith(w, RootMessage, 'I');
    StructureRootCount(facts);
  }

  /**
   * What the parser reports for the text of a well-formed tree `root`: a parse
   * error exactly when the text has no root element (bare character data),
   * and the element names found by a descendant search.
   */
  function DocumentFacts(root: Node): ParseFacts
  {
    ParseFacts(
      parseFailed := !root.Element?,
      rootIsPrompt := root.Element? && root.name == "prompt",
      hasSystem := HasElement([root], "system"),
      hasInput := HasElement([root], "input"),
      hasOutput := HasElement([root], "output"))
  }

  /**
   * Plain text with no element at all, such as `"   "`, which the panel does
   * validate because it is a non-empty string: the parser fails, every
   * structure check fires and the tag scan finds nothing.
   */
  lemma BareTextReport(text: string)
    requires IsPlainText(text) && text != ""
    ensures Report(DocumentFacts(CharData(text)), UnclosedTags(TagTokens(text)), InvalidAttributes([]))
      == [Finding(Error, ParseErrorMessage), Finding(Error, RootMessage), Finding(Warning, MissingSystemMessage),
          Finding(Error, MissingInputMessage), Finding(Warning, MissingOutputMessage)]
  {
    assert TagTokens(text) == [] by {
      PlainTextTokens(text, "");
      assert text + "" == text;
    }
    assert UnclosedTags([]) == [];
    assert InvalidAttributes([]) == [];
    BareTextFacts(text);
    FailedParseReport();
  }

  /** A failed parse with no element found: all five structure findings and nothing else. */
  lemma FailedParseReport()
    ensures Report(ParseFacts(true, false, false, false, false), [], [])
      == [Finding(Error, ParseErrorMessage), Finding(Error, RootMessage), Finding(Warning, MissingSystemMessage),
          Finding(Error, MissingInputMessage), Finding(Warning, MissingOutputMessage)]
  {
  }

  /** The parser's view of a text that is only character data. */
  lemma BareTextFacts(text: string)
    ensures DocumentFacts(CharData(text)) == ParseFacts(true, false, false, false, false)
  {
    HasElementSingle(CharData(text), "system");
    HasElementSingle(CharData(text), "input");
    HasElementSingle(CharData(text), "output");
  }

  /**
   * A well-formed `prompt` document holding `system`, `input` and `output`,
   * with no attribute candidates, validates to an empty list.
   */
  lemma CompletePromptIsClean(root: Node)
    requires WellFormed([root]) && root.Element? && root.name == "prompt"
    requires HasElement([root], "system") && HasElement([root], "input") && HasElement([root], "output")
    ensures Report(DocumentFacts(root), UnclosedTags(TagTokens(Render([root]))), InvalidAttributes([])) == []
  {
    RenderedTreeIsBalanced([root]);
  }

  /** The parser's view of `<prompt><input>text</input></prompt>`. */
  lemma InputOnlyFacts(text: string)
    requires IsPlainText(text)
    ensures var root := Element("prompt", [Element("input", [CharData(text)])]);
      && WellFormed([root])
      && DocumentFacts(root) == ParseFacts(false, true, false, true, false)
  {
    var data := CharData(text);
    var input := Element("input", [data]);
    var root := Element("prompt", [input]);
    assert WellFormedNode(data);
    assert WellFormedNode(input);
    assert WellFormedNode(root);
    forall name | name in ["input", "system", "output"]
      ensures HasElement([root], name) <==> name == "input"
    {
      HasElementSingle(data, name);
      HasElementSingle(input, name);
      HasElementSingle(root, name);
    }
  }

  /** `<prompt><input>text</input></prompt>`: no error for `input`, warnings for `system` and `output`. */
  lemma InputOnlyPrompt(text: string)
    requires IsPlainText(text)
    ensures var root := Element("prompt", [Element("input", [CharData(text)])]);
      Report(DocumentFacts(root), UnclosedTags(TagTokens(Render([root]))), InvalidAttributes([]))
        == [Finding(Warning, MissingSystemMessage), Finding(Warning, MissingOutputMessage)]
  {
    var root := Element("prompt", [Element("input", [CharData(text)])]);
    InputOnlyFacts(text);
    RenderedTreeIsBalanced([root]);
    var facts := ParseFacts(false, true, false, true, false);
    assert StructureFindings(facts) == [Finding(Warning, MissingSystemMessage), Finding(Warning, MissingOutputMessage)];
  }

  /** The panel's state: the findings it shows. */
  class ValidationPanel {
    var errors: seq<Diagnostic>

    constructor ()
      ensures errors == []
    {
      errors := [];
    }

    /** The effect on `content`: an empty text keeps the previous findings. */
    method ContentChanged(content: string, facts: ParseFacts, candidates: seq<string>)
      modifies this
      ensures content == "" ==> errors == old(errors)
      ensures content != "" ==> errors == Report(facts, UnclosedTags(TagTokens(content)), InvalidAttributes(candidates))
    {
      if content != "" {
        errors := ValidateXml(content, facts, candidates);
      }
    }

    /** The badge is shown exactly when it would count at least one finding. */
    function HasErrors(): (shown: bool)
      reads this
      ensures shown <==> CountSeverity(errors, Error) > 0
    {
      HasSeverityIffCounted(errors, Error);
      HasSeverity(errors, Error)
    }

    /** The badge is shown exactly when it would count at least one finding. */
    function HasWarnings(): (shown: bool)
      reads this
      ensures shown <==> CountSeverity(errors, Warning) > 0
    {
      HasSeverityIffCounted(errors, Warning);
      HasSeverity(errors, Warning)
    }

    /** The badge is shown exactly when it would count at least one finding. */
    function HasInfo(): (shown: bool)
      reads this
      ensures shown <==> CountSeverity(errors, Info) > 0
    {
      HasSeverityIffCounted(errors, Info);
      HasSeverity(errors, Info)
    }
  }
}
