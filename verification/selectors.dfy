/** The selector compiler of the Lever browser and the extraction of question
    fragments from the application form (src/web/lever.py). The form is a list of
    elements in document order, each with its tag, id, class tokens and markup; CSS
    matching is the matching of one compound selector (tag, id, classes). */
module Selectors {
  import opened Wrappers
  import opened Strings

  /** An identifier record: keys `selector`, `tag`, `id`, `class`; other keys are ignored. */
  type Identifier = map<string, string>

  /** `identifier.get(key)` is truthy: present and not the empty string. */
  predicate Present(identifier: Identifier, key: string) {
    key in identifier && identifier[key] != ""
  }

  /** The class part: the stripped value verbatim when it starts with `.`, otherwise its
      whitespace-separated tokens each prefixed with `.`. */
  function ClassPart(cls: string): (part: string)
    ensures StartsWith(part, ".")
  {
    var t := Strip(cls);
    if StartsWith(t, ".") then t else "." + Join(Words(t), ".")
  }

  /** `_build_selector_from_identifier`. */
  function BuildSelector(identifier: Identifier): (r: Option<string>)
    ensures Present(identifier, "selector") ==> r == Some(identifier["selector"])
    ensures r.None? <==>
      !Present(identifier, "selector") && !Present(identifier, "tag")
      && !Present(identifier, "id") && !Present(identifier, "class")
  {
    if |identifier| == 0 then None
    else if Present(identifier, "selector") then Some(identifier["selector"])
    else
      var parts :=
        (if Present(identifier, "tag") then [identifier["tag"]] else [])
        + (if Present(identifier, "id") then ["#" + identifier["id"]] else [])
        + (if Present(identifier, "class") then [ClassPart(identifier["class"])] else []);
      if parts == [] then None else Some(Join(parts, ""))
  }

  /** A compound CSS selector: an optional tag, an optional id and class tokens. */
  datatype Compound = Compound(tag: Option<string>, id: Option<string>, classes: seq<string>)

  /** Each token written after a `.`. */
  function Dotted(classes: seq<string>): string {
    if classes == [] then "" else "." + classes[0] + Dotted(classes[1..])
  }

  /** The text of a compound selector. */
  function Render(c: Compound): string {
    (if c.tag.Some? then c.tag.value else "")
    + (if c.id.Some? then "#" + c.id.value else "")
    + Dotted(c.classes)
  }

  /** The compound selector an identifier without a raw selector denotes. */
  function CompoundOf(identifier: Identifier): Compound {
    Compound(
      if Present(identifier, "tag") then Some(identifier["tag"]) else None,
      if Present(identifier, "id") then Some(identifier["id"]) else None,
      if Present(identifier, "class") then Words(Strip(identifier["class"])) else [])
  }

  /** A class value made of plain tokens: after stripping, it does not start with `.`
      and holds at least one token. */
  predicate PlainClass(identifier: Identifier) {
    Present(identifier, "class") ==>
      !StartsWith(Strip(identifier["class"]), ".") && Words(Strip(identifier["class"])) != []
  }

  /** One element of the parsed form, in document order. */
  datatype Element = Element(tag: string, id: string, classes: seq<string>, html: string)

  predicate Matches(e: Element, c: Compound) {
    && (c.tag.Some? ==> e.tag == c.tag.value)
    && (c.id.Some? ==> e.id == c.id.value)
    && (forall k <- c.classes :: k in e.classes)
  }

  /** `soup.select`: the matching elements, in document order. */
  function Select(doc: seq<Element>, c: Compound): seq<Element>
  {
    if doc == [] then []
    else (if Matches(doc[0], c) then [doc[0]] else []) + Select(doc[1..], c)
  }

  predicate NotResume(e: Element) {
    "resume" !in e.classes
  }

  /** The elements that are not resume questions, in order. */
  function WithoutResume(es: seq<Element>): seq<Element>
  {
    if es == [] then []
    else (if NotResume(es[0]) then [es[0]] else []) + WithoutResume(es[1..])
  }

  function Markup(es: seq<Element>): (r: seq<string>)
    ensures |r| == |es| && forall i :: 0 <= i < |es| ==> r[i] == es[i].html
  {
    if es == [] then [] else [es[0].html] + Markup(es[1..])
  }

  const FormContainer: Identifier := map["id" := "application-form"]
  const FormQuestion: Identifier := map["class" := "application-question", "tag" := "li"]
  const AdditionalInformation: Identifier := map["class" := "application-additional"]

  /** An identifier the compiler turns into a compound selector: no raw selector, plain
      class tokens, and at least one of tag, id and class. */
  predicate Simple(identifier: Identifier) {
    && !Present(identifier, "selector")
    && PlainClass(identifier)
    && (Present(identifier, "tag") || Present(identifier, "id") || Present(identifier, "class"))
  }

  /** `get_questions_html` for the question identifier and the additional-information
      identifier of the browser: the question elements that are not resume questions,
      then every additional-information element, as markup. */
  function QuestionsHtml(question: Identifier, additional: Identifier, doc: seq<Element>): seq<string>
    requires Simple(question) && Simple(additional)
  {
    Markup(WithoutResume(Select(doc, CompoundOf(question))))
    + Markup(Select(doc, CompoundOf(additional)))
  }
}

/** What the selector compiler and the question extraction promise. */
module SelectorLemmas {
  import opened Wrappers
  import opened Strings
  import opened Selectors

  /** `"".join(parts)`: the parts one after another. */
  function Concat(parts: seq<string>): string {
    if parts == [] then "" else parts[0] + Concat(parts[1..])
  }

  lemma {:induction false} JoinWithoutSeparator(parts: seq<string>)
    ensures Join(parts, "") == Concat(parts)
  {
    if |parts| > 1 {
      JoinWithoutSeparator(parts[1..]);
    }
  }

  lemma {:induction false} ConcatAppend(a: seq<string>, b: seq<string>)
    ensures Concat(a + b) == Concat(a) + Concat(b)
  {
    if a != [] {
      ConcatAppend(a[1..], b);
      assert (a + b)[1..] == a[1..] + b;
      assert Concat(a + b) == a[0] + (Concat(a[1..]) + Concat(b));
    } else {
      assert a + b == b;
    }
  }

  lemma ConcatSingle(a: seq<string>)
    requires |a| <= 1
    ensures Concat(a) == if a == [] then "" else a[0]
  {
    if a != [] {
      assert a[1..] == [];
    }
  }

  /** Joining tokens with `.` after a leading `.` writes each token after a `.`. */
  lemma {:induction false} DotJoin(ws: seq<string>)
    requires ws != []
    ensures "." + Join(ws, ".") == Dotted(ws)
  {
    if |ws| > 1 {
      DotJoin(ws[1..]);
    }
  }

  /** For an identifier without a raw selector and with a plain class value, the
      selector built is the text of the compound selector the identifier denotes:
      tag, then `#id`, then `.token` for each class token, in that order. */
  lemma BuildSelectorRender(identifier: Identifier)
    requires !Present(identifier, "selector") && PlainClass(identifier)
    requires Present(identifier, "tag") || Present(identifier, "id") || Present(identifier, "class")
    ensures BuildSelector(identifier) == Some(Render(CompoundOf(identifier)))
  {
    var a := if Present(identifier, "tag") then [identifier["tag"]] else [];
    var b := if Present(identifier, "id") then ["#" + identifier["id"]] else [];
    var c := if Present(identifier, "class") then [ClassPart(identifier["class"])] else [];
    JoinWithoutSeparator(a + b + c);
    ConcatAppend(a + b, c);
    ConcatAppend(a, b);
    ConcatSingle(a);
    ConcatSingle(b);
    ConcatSingle(c);
    if Present(identifier, "class") {
      DotJoin(Words(Strip(identifier["class"])));
    }
  }

  /** A class value that starts with `.` once stripped is written verbatim after the
      tag and the `#id`, its inner spaces included. */
  lemma BuildSelectorVerbatimClass(identifier: Identifier)
    requires !Present(identifier, "selector") && Present(identifier, "class")
    requires StartsWith(Strip(identifier["class"]), ".")
    ensures BuildSelector(identifier).Some?
    ensures BuildSelector(identifier).value ==
      (if Present(identifier, "tag") then identifier["tag"] else "")
      + (if Present(identifier, "id") then "#" + identifier["id"] else "")
      + Strip(identifier["class"])
  {
    var a := if Present(identifier, "tag") then [identifier["tag"]] else [];
    var b := if Present(identifier, "id") then ["#" + identifier["id"]] else [];
    var c := [Strip(identifier["class"])];
    JoinWithoutSeparator(a + b + c);
    ConcatAppend(a + b, c);
    ConcatAppend(a, b);
    ConcatSingle(a);
    ConcatSingle(b);
    ConcatSingle(c);
  }

  /** A class value of blanks only compiles to the bare `.`. */
  lemma ClassPartBlank(cls: string)
    requires Strip(cls) == ""
    ensures ClassPart(cls) == "."
  {
  }

  /** A single token without blanks is its own strip and its own word list. */
  lemma SingleToken(w: string)
    requires w != [] && NoSpace(w)
    ensures Strip(w) == w && Words(w) == [w]
  {
    assert !IsSpace(w[0]) && !IsSpace(w[|w| - 1]);
    assert TrimStart(w, IsSpace) == w;
    var n := SpanNonSpace(w);
    assert n == |w|;
    assert w[n..] == [];
    assert w[..n] == w;
  }

  lemma NotDotted(s: string)
    requires s != [] && s[0] != '.'
    ensures !StartsWith(s, ".")
  {
    assert s[..1][0] == s[0];
  }

  /** An identifier holding only an id compiles to `#id`. */
  lemma IdSelector(x: string)
    requires x != ""
    ensures BuildSelector(map["id" := x]) == Some("#" + x)
  {
    var identifier := map["id" := x];
    assert "selector" != "id" && "tag" != "id" && "class" != "id";
    assert !Present(identifier, "selector") && !Present(identifier, "tag") && !Present(identifier, "class");
    BuildSelectorRender(identifier);
    assert Render(CompoundOf(identifier)) == "" + ("#" + x) + "";
  }

  /** An identifier holding a tag and one class token compiles to `tag.token`. */
  lemma TagClassCompound(t: string, w: string)
    requires t != "" && w != [] && NoSpace(w) && w[0] != '.'
    ensures Simple(map["class" := w, "tag" := t])
    ensures CompoundOf(map["class" := w, "tag" := t]) == Compound(Some(t), None, [w])
  {
    var identifier := map["class" := w, "tag" := t];
    assert "class" != "tag" && "id" != "class" && "id" != "tag";
    assert "selector" != "class" && "selector" != "tag";
    assert identifier["class"] == w && identifier["tag"] == t;
    assert "id" !in identifier && "selector" !in identifier;
    SingleToken(w);
    NotDotted(w);
    assert Words(Strip(identifier["class"])) == [w];
  }

  lemma TagClassSelector(t: string, w: string)
    requires t != "" && w != [] && NoSpace(w) && w[0] != '.'
    ensures BuildSelector(map["class" := w, "tag" := t]) == Some(t + "." + w)
  {
    TagClassCompound(t, w);
    BuildSelectorRender(map["class" := w, "tag" := t]);
    assert Dotted([w]) == "." + w + "";
    assert Render(Compound(Some(t), None, [w])) == t + "." + w;
  }

  /** An identifier holding one class token is the compound selector of that class. */
  lemma ClassCompound(w: string)
    requires w != [] && NoSpace(w) && w[0] != '.'
    ensures Simple(map["class" := w])
    ensures CompoundOf(map["class" := w]) == Compound(None, None, [w])
  {
    var identifier := map["class" := w];
    assert "selector" != "class" && "tag" != "class" && "id" != "class";
    assert !Present(identifier, "selector") && !Present(identifier, "tag") && !Present(identifier, "id");
    SingleToken(w);
    NotDotted(w);
  }

  /** An identifier holding one class token compiles to `.token`. */
  lemma ClassSelector(w: string)
    requires w != [] && NoSpace(w) && w[0] != '.'
    ensures BuildSelector(map["class" := w]) == Some("." + w)
  {
    ClassCompound(w);
    BuildSelectorRender(map["class" := w]);
    assert Dotted([w]) == "." + w + "";
  }

  /** The question and additional-information identifiers of the browser are compound
      selectors: `li.application-question` and `.application-additional`. */
  lemma BrowserIdentifiersSimple()
    ensures Simple(FormQuestion) && Simple(AdditionalInformation)
    ensures CompoundOf(FormQuestion) == Compound(Some("li"), None, ["application-question"])
    ensures CompoundOf(AdditionalInformation) == Compound(None, None, ["application-additional"])
  {
    FormQuestionSimple();
    AdditionalInformationSimple();
  }

  lemma FormQuestionSimple()
    ensures Simple(FormQuestion)
    ensures CompoundOf(FormQuestion) == Compound(Some("li"), None, ["application-question"])
  {
    var w := "application-question";
    assert NoSpace(w) && w[0] != '.';
    TagClassCompound("li", w);
  }

  lemma AdditionalInformationSimple()
    ensures Simple(AdditionalInformation)
    ensures CompoundOf(AdditionalInformation) == Compound(None, None, ["application-additional"])
  {
    var w := "application-additional";
    assert NoSpace(w) && w[0] != '.';
    ClassCompound(w);
  }

  /** `select` keeps exactly the matching elements of the document. */
  lemma {:induction false} SelectMembers(doc: seq<Element>, c: Compound, e: Element)
    ensures e in Select(doc, c) <==> e in doc && Matches(e, c)
  {
    if doc != [] {
      SelectMembers(doc[1..], c, e);
      assert doc == [doc[0]] + doc[1..];
    }
  }

  /** `select` keeps document order: selecting from two consecutive parts of a document
      is selecting from the first part, then from the second. */
  lemma {:induction false} SelectAppend(a: seq<Element>, b: seq<Element>, c: Compound)
    ensures Select(a + b, c) == Select(a, c) + Select(b, c)
  {
    if a == [] {
      assert a + b == b;
    } else {
      var head := if Matches(a[0], c) then [a[0]] else [];
      assert (a + b)[0] == a[0];
      assert (a + b)[1..] == a[1..] + b;
      assert Select(a + b, c) == head + Select(a[1..] + b, c);
      SelectAppend(a[1..], b, c);
      assert Select(a, c) == head + Select(a[1..], c);
    }
  }

  lemma {:induction false} WithoutResumeMembers(es: seq<Element>, e: Element)
    ensures e in WithoutResume(es) <==> e in es && NotResume(e)
  {
    if es != [] {
      WithoutResumeMembers(es[1..], e);
      assert es == [es[0]] + es[1..];
    }
  }

  lemma {:induction false} WithoutResumeAppend(a: seq<Element>, b: seq<Element>)
    ensures WithoutResume(a + b) == WithoutResume(a) + WithoutResume(b)
  {
    if a == [] {
      assert a + b == b;
    } else {
      var head := if NotResume(a[0]) then [a[0]] else [];
      assert (a + b)[0] == a[0];
      assert (a + b)[1..] == a[1..] + b;
      assert WithoutResume(a + b) == head + WithoutResume(a[1..] + b);
      WithoutResumeAppend(a[1..], b);
      assert WithoutResume(a) == head + WithoutResume(a[1..]);
    }
  }

  lemma MarkupMembers(es: seq<Element>, h: string)
    ensures h in Markup(es) <==> exists e <- es :: e.html == h
  {
    if h in Markup(es) {
      var i :| 0 <= i < |es| && Markup(es)[i] == h;
      assert es[i] in es;
    }
    if exists e <- es :: e.html == h {
      var e :| e in es && e.html == h;
      var i :| 0 <= i < |es| && es[i] == e;
      assert Markup(es)[i] == h;
    }
  }

  /** A fragment is returned exactly when some element of the form carries that markup
      and is either a question that is not a resume question, or additional information. */
  lemma QuestionsHtmlMembers(question: Identifier, additional: Identifier, doc: seq<Element>, h: string)
    requires Simple(question) && Simple(additional)
    ensures h in QuestionsHtml(question, additional, doc) <==>
      exists e <- doc :: e.html == h &&
        ((Matches(e, CompoundOf(question)) && NotResume(e)) || Matches(e, CompoundOf(additional)))
  {
    var selected := Select(doc, CompoundOf(question));
    var primary := WithoutResume(selected);
    var extra := Select(doc, CompoundOf(additional));
    assert QuestionsHtml(question, additional, doc) == Markup(primary) + Markup(extra);
    MarkupMembers(primary, h);
    MarkupMembers(extra, h);
    if h in Markup(primary) {
      var e :| e in primary && e.html == h;
      WithoutResumeMembers(selected, e);
      SelectMembers(doc, CompoundOf(question), e);
    } else if h in Markup(extra) {
      var e :| e in extra && e.html == h;
      SelectMembers(doc, CompoundOf(additional), e);
    }
    if exists e <- doc :: e.html == h &&
        ((Matches(e, CompoundOf(question)) && NotResume(e)) || Matches(e, CompoundOf(additional)))
    {
      var e :| e in doc && e.html == h &&
        ((Matches(e, CompoundOf(question)) && NotResume(e)) || Matches(e, CompoundOf(additional)));
      WithoutResumeMembers(selected, e);
      SelectMembers(doc, CompoundOf(question), e);
      SelectMembers(doc, CompoundOf(additional), e);
    }
  }

  /** No de-duplication: an element that is both a question and additional information
      is returned twice. */
  lemma QuestionsHtmlKeepsDuplicates(question: Identifier, additional: Identifier, e: Element)
    requires Simple(question) && Simple(additional)
    requires Matches(e, CompoundOf(question)) && NotResume(e) && Matches(e, CompoundOf(additional))
    ensures QuestionsHtml(question, additional, [e]) == [e.html, e.html]
  {
    assert [e][1..] == [];
    assert Select([e], CompoundOf(question)) == [e];
    assert Select([e], CompoundOf(additional)) == [e];
    assert WithoutResume([e]) == [e];
  }

  /** A resume question is dropped unless it is also additional information. */
  lemma QuestionsHtmlDropsResume(question: Identifier, additional: Identifier, e: Element)
    requires Simple(question) && Simple(additional)
    requires "resume" in e.classes && !Matches(e, CompoundOf(additional))
    ensures QuestionsHtml(question, additional, [e]) == []
  {
    assert [e][1..] == [];
    assert Select([e], CompoundOf(additional)) == [];
    assert WithoutResume([e]) == [];
    assert Select([e], CompoundOf(question)) == [e] || Select([e], CompoundOf(question)) == [];
  }
}
