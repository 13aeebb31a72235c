/**
 * The validation panel's attribute check (`findInvalidAttributes`). The
 * candidate attribute texts, which the source extracts from the raw text with
 * two regular expressions, are the input here; each candidate is split on
 * `=`, and it is reported (trimmed) unless the piece after the first `=` is a
 * quote, characters that are not quotes, and a quote.
 */
module Attributes {
  import opened Strings
  import opened Optional
  import opened Markup

  predicate IsQuote(c: char) {
    c == '"' || c == '\''
  }

  /** `/^["'][^"']*["']$/`: the two quote characters need not be the same. */
  predicate IsQuoted(v: string) {
    && |v| >= 2
    && IsQuote(v[0])
    && IsQuote(v[|v| - 1])
    && forall i :: 0 < i < |v| - 1 ==> !IsQuote(v[i])
  }

  /** `const [name, value] = attr.split('=')`: the value is the second piece, absent without a `=`. */
  function AttributeValue(attr: string): (v: Option<string>)
    ensures v.None? <==> '=' !in attr
    ensures v.Some? ==> '=' !in v.value
  {
    var parts := Split(attr, '=');
    SplitJoin(attr, '=');
    if |parts| < 2 then None else Some(parts[1])
  }

  /** `!value || !value.match(...)` */
  predicate IsMalformed(attr: string) {
    match AttributeValue(attr)
    case None => true
    case Some(value) => value == "" || !IsQuoted(value)
  }

  /** The `invalid` list: every malformed candidate, trimmed, in candidate order. */
  function InvalidAttributes(candidates: seq<string>): seq<string>
    decreases |candidates|
  {
    if candidates == [] then []
    else
      var last := candidates[|candidates| - 1];
      InvalidAttributes(candidates[..|candidates| - 1]) + (if IsMalformed(last) then [Trim(last)] else [])
  }

  method FindInvalidAttributes(candidates: seq<string>) returns (invalid: seq<string>)
    ensures invalid == InvalidAttributes(candidates)
  {
    invalid := [];
    for i := 0 to |candidates|
      invariant invalid == InvalidAttributes(candidates[..i])
    {
      assert candidates[..i + 1][..i] == candidates[..i];
      var attr := candidates[i];
      if IsMalformed(attr) {
        invalid := invalid + [Trim(attr)];
      }
    }
    assert candidates[..|candidates|] == candidates;
  }

  /** Every reported text is a trimmed malformed candidate. */
  lemma {:induction false} InvalidAttributesSound(candidates: seq<string>, x: string)
    requires x in InvalidAttributes(candidates)
    ensures exists i :: 0 <= i < |candidates| && IsMalformed(candidates[i]) && x == Trim(candidates[i])
    decreases |candidates|
  {
    var n := |candidates|;
    var init := candidates[..n - 1];
    if x in InvalidAttributes(init) {
      InvalidAttributesSound(init, x);
      var i :| 0 <= i < |init| && IsMalformed(init[i]) && x == Trim(init[i]);
      assert candidates[i] == init[i];
    } else {
      assert IsMalformed(candidates[n - 1]) && x == Trim(candidates[n - 1]);
    }
  }

  /** Every malformed candidate is reported, trimmed. */
  lemma {:induction false} InvalidAttributesComplete(candidates: seq<string>, i: nat)
    requires i < |candidates| && IsMalformed(candidates[i])
    ensures Trim(candidates[i]) in InvalidAttributes(candidates)
    decreases |candidates|
  {
    var n := |candidates|;
    if i < n - 1 {
      var init := candidates[..n - 1];
      assert init[i] == candidates[i];
      InvalidAttributesComplete(init, i);
    }
  }

  /** The report never has more entries than there are candidates. */
  lemma {:induction false} InvalidAttributesLength(candidates: seq<string>)
    ensures |InvalidAttributes(candidates)| <= |candidates|
    decreases |candidates|
  {
    if candidates != [] {
      InvalidAttributesLength(candidates[..|candidates| - 1]);
    }
  }

  /**
   * The texts the inner pattern `([a-zA-Z][a-zA-Z0-9]*)\s*=\s*["'][^"']*["']`
   * can match: a name, optional whitespace, `=`, optional whitespace, a quote,
   * a body without quotes, and a quote.
   */
  function CandidateText(name: string, before: string, after: string, open: char, body: string, close: char): string
  {
    name + before + "=" + after + [open] + body + [close]
  }

  predicate IsCandidate(name: string, before: string, after: string, open: char, body: string, close: char) {
    && IsTagName(name)
    && AllWhitespace(before)
    && AllWhitespace(after)
    && IsQuote(open)
    && IsQuote(close)
    && forall i :: 0 <= i < |body| ==> !IsQuote(body[i])
  }

  /** The value a candidate's split yields: the text after its `=` up to the next `=`. */
  lemma CandidateValue(name: string, before: string, after: string, open: char, body: string, close: char)
    requires IsCandidate(name, before, after, open, body, close)
    ensures var rest := after + [open] + body + [close];
      AttributeValue(CandidateText(name, before, after, open, body, close)) == Some(rest[..IndexOf(rest, '=')])
  {
    var head := name + before;
    var rest := after + [open] + body + [close];
    assert CandidateText(name, before, after, open, body, close) == head + ['='] + rest;
    assert '=' !in head by {
      forall i | 0 <= i < |head| ensures head[i] != '=' {
        if i < |name| {
          assert head[i] == name[i];
        } else {
          assert head[i] == before[i - |name|];
        }
      }
    }
    SplitAtFirst(head, '=', rest);
    SplitFirstPiece(rest, '=');
  }

  lemma SpaceAfterEqualsVerdict(after: string, open: char, body: string, close: char)
    requires after != "" && AllWhitespace(after)
    ensures var rest := after + [open] + body + [close];
      var value := rest[..IndexOf(rest, '=')];
      value == "" || !IsQuoted(value)
  {
    var rest := after + [open] + body + [close];
    var value := rest[..IndexOf(rest, '=')];
    assert rest[0] == after[0];
    if value != "" {
      assert value[0] == after[0];
      assert IsWhitespace(value[0]);
    }
  }

  lemma EqualsInBodyVerdict(open: char, body: string, close: char)
    requires '=' in body && IsQuote(open) && forall i :: 0 <= i < |body| ==> !IsQuote(body[i])
    ensures var rest := [open] + body + [close];
      var value := rest[..IndexOf(rest, '=')];
      value == "" || !IsQuoted(value)
  {
    var rest := [open] + body + [close];
    var j := IndexOf(body, '=');
    assert IndexOf(rest, '=') == j + 1 by {
      assert rest[j + 1] == body[j];
      forall i | 0 <= i < j + 1 ensures rest[i] != '=' {
        if i > 0 {
          assert rest[i] == body[i - 1];
        }
      }
    }
    var value := rest[..j + 1];
    if j > 0 {
      assert value[|value| - 1] == body[j - 1];
    }
  }

  lemma PlainBodyVerdict(open: char, body: string, close: char)
    requires '=' !in body && IsQuote(open) && IsQuote(close)
    requires forall i :: 0 <= i < |body| ==> !IsQuote(body[i])
    ensures var rest := [open] + body + [close];
      IsQuoted(rest[..IndexOf(rest, '=')])
  {
    var rest := [open] + body + [close];
    assert IndexOf(rest, '=') == |rest| by {
      forall i | 0 <= i < |rest| ensures rest[i] != '=' {
        if 0 < i < |rest| - 1 {
          assert rest[i] == body[i - 1];
          assert body[i - 1] in body;
        }
      }
    }
    assert rest[..|rest|] == rest;
    forall i | 0 < i < |rest| - 1 ensures !IsQuote(rest[i]) {
      assert rest[i] == body[i - 1];
    }
  }

  /**
   * Exactly the candidates with whitespace after `=` or an `=` inside the
   * quotes are reported; whitespace before `=` and mismatched quote kinds
   * (`"x'`) pass.
   */
  lemma CandidateVerdict(name: string, before: string, after: string, open: char, body: string, close: char)
    requires IsCandidate(name, before, after, open, body, close)
    ensures IsMalformed(CandidateText(name, before, after, open, body, close)) <==> (after != "" || '=' in body)
  {
    CandidateValue(name, before, after, open, body, close);
    if after != "" {
      SpaceAfterEqualsVerdict(after, open, body, close);
    } else {
      assert after + [open] + body + [close] == [open] + body + [close];
      if '=' in body {
        EqualsInBodyVerdict(open, body, close);
      } else {
        PlainBodyVerdict(open, body, close);
      }
    }
  }

  /** A candidate starts with a letter and ends with a quote, so trimming leaves it as it is. */
  lemma CandidateIsTrimmed(name: string, before: string, after: string, open: char, body: string, close: char)
    requires IsCandidate(name, before, after, open, body, close)
    ensures Trim(CandidateText(name, before, after, open, body, close)) == CandidateText(name, before, after, open, body, close)
  {
    var attr := CandidateText(name, before, after, open, body, close);
    assert attr[0] == name[0];
    assert attr[|attr| - 1] == close;
    TrimIdentity(attr);
  }
}
