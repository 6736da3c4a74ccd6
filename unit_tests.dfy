/**
 * The unit tests of the crate, one lemma each: every public rule applied to
 * the test's whole input succeeds with the value the test expects. Each
 * input is written as the concatenation of its lexical pieces (delimiters,
 * contents, escapes); the string is the same as the test's. The general
 * lemmas below them state, for any contents of the same shape, what the
 * rules make of such a concatenation; the lemmas of `Unescaping` do the
 * same for the bodies of IRIs and strings.
 *
 * Two kinds of helper only keep each proof obligation small. The `Nest`
 * lemmas regroup a left-nested concatenation to the right, the order in
 * which the rules consume it, one association at a time. The facts that a
 * test's IRI or string holds only raw characters are proved a string or
 * two at a time (`DitIri`, `W3Iri`, `AlgeriaRawStart`, …) and joined with
 * `IriRawJoin` and `StringRawJoin`: each such fact unfolds the character
 * classes once per character, and many strings in one lemma would make
 * one large obligation of it.
 */
module UnitTests {
  import opened Chars
  import opened Parsing
  import opened Terms
  import opened Tokens
  import opened Statements
  import opened Writer
  import opened RoundTrip
  import opened Unescaping

  // ---------------------------------------------------------------- regrouping

  /** A left-nested concatenation of pieces regrouped to the right, the order the rules consume them in. */
  lemma Nest4(a: string, b: string, c: string, d: string)
    ensures a + b + c + d == a + (b + (c + d))
  {
    Assoc(a + b, c, d);
    Assoc(a, b, c + d);
  }

  lemma Nest5(a: string, b: string, c: string, d: string, e: string)
    ensures a + b + c + d + e == a + (b + (c + (d + e)))
  {
    Assoc(a + b + c, d, e);
    Nest4(a, b, c, d + e);
  }

  lemma Nest6(a: string, b: string, c: string, d: string, e: string, f: string)
    ensures a + b + c + d + e + f == a + (b + (c + (d + (e + f))))
  {
    Assoc(a + b + c + d, e, f);
    Nest5(a, b, c, d, e + f);
  }

  lemma Nest7(a: string, b: string, c: string, d: string, e: string, f: string, g: string)
    ensures a + b + c + d + e + f + g == a + (b + (c + (d + (e + (f + g)))))
  {
    Assoc(a + b + c + d + e, f, g);
    Nest6(a, b, c, d, e, f + g);
  }

  lemma Nest8(a: string, b: string, c: string, d: string, e: string, f: string, g: string, h: string)
    ensures a + b + c + d + e + f + g + h == a + (b + (c + (d + (e + (f + (g + h))))))
  {
    Assoc(a + b + c + d + e + f, g, h);
    Nest7(a, b, c, d, e, f, g + h);
  }

  lemma Nest9(a: string, b: string, c: string, d: string, e: string, f: string, g: string, h: string,
              i: string)
    ensures a + b + c + d + e + f + g + h + i == a + (b + (c + (d + (e + (f + (g + (h + i)))))))
  {
    Assoc(a + b + c + d + e + f + g, h, i);
    Nest8(a, b, c, d, e, f, g, h + i);
  }

  lemma Nest10(a: string, b: string, c: string, d: string, e: string, f: string, g: string, h: string,
               i: string, j: string)
    ensures a + b + c + d + e + f + g + h + i + j == a + (b + (c + (d + (e + (f + (g + (h + (i + j))))))))
  {
    Assoc(a + b + c + d + e + f + g + h, i, j);
    Nest9(a, b, c, d, e, f, g, h, i + j);
  }

  lemma Nest11(a: string, b: string, c: string, d: string, e: string, f: string, g: string, h: string,
               i: string, j: string, k: string)
    ensures a + b + c + d + e + f + g + h + i + j + k
         == a + (b + (c + (d + (e + (f + (g + (h + (i + (j + k)))))))))
  {
    Assoc(a + b + c + d + e + f + g + h + i, j, k);
    Nest10(a, b, c, d, e, f, g, h, i, j + k);
  }

  // ---------------------------------------------------------------- strings

  /** A four-digit UCHAR reads as the code point its digits spell. */
  lemma ShortUchar(d: string, t: string)
    requires |d| == 4 && AllHex(d) && IsScalar(HexValue(d))
    ensures ParseUchar("\\u" + d + t) == Parsed(HexValue(d) as char, t)
  {
    var s := "\\u" + d + t;
    assert s[2..6] == d && s[6..] == t;
  }

  /** A four-digit UCHAR is an escape inside a string literal. */
  lemma ShortUcharEscape(d: string, e: string, t: string)
    requires |d| == 4 && AllHex(d) && IsScalar(HexValue(d)) && e == "\\u" + d
    ensures |e| > 0 && e[0] == '\\'
    ensures ParseEscape(e + t) == Parsed(HexValue(d) as char, t)
  {
    ShortUchar(d, t);
    assert (e + t)[1] == 'u';
  }

  /** The digits `12ab`, lower case, spell U+12AB. */
  lemma HexValue12ab()
    ensures AllHex("12ab") && HexValue("12ab") == 0x12AB
  {
    assert "12ab"[..3] == "12a" && "12a"[..2] == "12" && "12"[..1] == "1" && "1"[..0] == [];
  }

  /** The digits `200E` spell U+200E, the left-to-right mark. */
  lemma HexValue200E()
    ensures AllHex("200E") && HexValue("200E") == 0x200E
  {
    assert "200E"[..3] == "200" && "200"[..2] == "20" && "20"[..1] == "2" && "2"[..0] == [];
  }

  /** The two UCHARs of the tests, split after `\u`. */
  lemma UcharPieces()
    ensures "\\u12ab" == "\\u" + "12ab" && "\\u200E" == "\\u" + "200E"
  {
  }

  /** Runs of raw characters join into one. */
  lemma StringRawJoin(a: string, b: string)
    requires AllStringRaw(a) && AllStringRaw(b)
    ensures AllStringRaw(a + b)
  {
  }

  /** IRI runs of raw characters join into one. */
  lemma IriRawJoin(a: string, b: string)
    requires AllIriRaw(a) && AllIriRaw(b)
    ensures AllIriRaw(a + b)
  {
  }

  // ---------------------------------------------------------------- terms

  /** An IRIREF with no character to unescape is read verbatim. */
  lemma RawIriRef(iri: string, s: string)
    requires AllIriRaw(iri)
    requires s == "<" + iri + ">"
    ensures Complete(ParseIriRef(s)) == Success(iri)
    ensures Complete(ParseSubject(s)) == Success(Subject.IriRef(iri))
    ensures Complete(ParsePredicate(s)) == Success(Predicate.IriRef(iri))
    ensures Complete(ParseObject(s)) == Success(Object.IriRef(iri))
  {
    IriTextVerbatim(iri);
    IriRefRoundTrip(iri, []);
    EmptyTail(s);
  }

  /** A label of plain characters is read verbatim, as the label itself and as a blank node. */
  lemma RawLabel(name: string, s: string)
    requires ValidLabel(name) && s == "_:" + name
    ensures Complete(ParseBlankNodeLabel(s)) == Success(name)
    ensures Complete(ParseSubject(s)) == Success(Subject.BNode(name))
    ensures Complete(ParseObject(s)) == Success(Object.BNode(name))
  {
    BlankNodeLabelRoundTrip(name, []);
    EmptyTail(s);
  }

  /** Letters, `-` and letters or digits make a language tag. */
  lemma TwoPartTag(p: string, q: string)
    requires p != [] && forall i :: 0 <= i < |p| ==> IsAlpha(p[i])
    requires q != [] && forall i :: 0 <= i < |q| ==> IsAlnum(q[i])
    ensures ValidLangTag(p + "-" + q)
  {
    var sub := "-" + q;
    SpanIs(IsAlpha, p, |p|);
    SpanOfJoin(IsAlpha, p, sub, |p|);
    Assoc(p, "-", q);
    DropPrefix(p, sub);
    DropPrefix("-", q);
    SpanIs(IsAlnum, q, |q|);
    assert sub[1 + |q|..] == [];
  }

  /** A language tag of a primary subtag and one more subtag is read verbatim. */
  lemma TwoPartLangTag(p: string, q: string)
    requires p != [] && forall i :: 0 <= i < |p| ==> IsAlpha(p[i])
    requires q != [] && forall i :: 0 <= i < |q| ==> IsAlnum(q[i])
    ensures Complete(ParseLangTag("@" + p + "-" + q)) == Success(p + "-" + q)
  {
    var tag := p + "-" + q;
    TwoPartTag(p, q);
    Assoc4("@", p, "-", q);
    LangTagRoundTrip(tag, []);
    EmptyTail("@" + tag);
  }

  /** A literal is an object when neither an IRIREF nor a label comes first. */
  lemma ObjectOfLiteral(s: string, lit: Literal, t: string)
    requires |s| > 0 && s[0] == '"' && ParseLiteral(s) == Parsed(lit, t)
    ensures ParseObject(s) == Parsed(Lit(lit), t)
  {
  }

  /** The text of a language-tagged string without escapes. */
  lemma TaggedText(data: string, tag: string, close: string)
    requires StringText(data) == data && close == "\"@" + tag
    ensures "\"" + data + close == LiteralText(Literal(data, Lang(tag))) + []
  {
    Assoc("\"" + data, "\"", "@" + tag);
    EmptyTail("\"" + data + "\"" + ("@" + tag));
  }

  /** A string of raw characters with a two-part language tag is read verbatim. */
  lemma RawTaggedLiteral(data: string, p: string, q: string, close: string)
    requires AllStringRaw(data)
    requires p != [] && forall i :: 0 <= i < |p| ==> IsAlpha(p[i])
    requires q != [] && forall i :: 0 <= i < |q| ==> IsAlnum(q[i])
    requires close == "\"@" + (p + "-" + q)
    ensures Complete(ParseLiteral("\"" + data + close)) == Success(Literal(data, Lang(p + "-" + q)))
  {
    var lit := Literal(data, Lang(p + "-" + q));
    TwoPartTag(p, q);
    StringTextVerbatim(data);
    TaggedText(data, p + "-" + q, close);
    LiteralRoundTrip(lit, []);
  }

  /** The delimiters between a string and its datatype IRI, regrouped as the writer groups them. */
  lemma TypedPieces(q: string, iri: string)
    ensures q + "\"^^<" + iri + ">" == q + "\"" + ("^^" + ("<" + iri + ">")) + []
  {
    assert "\"^^<" == "\"" + "^^" + "<";
    Nest4(q, "\"", "^^", "<");
    Nest4(q + "\"", "^^", "<", iri);
    EmptyTail(q + "\"" + ("^^" + ("<" + iri + ">")));
  }

  /** The text of a typed string, neither string nor IRI holding escapes. */
  lemma TypedText(data: string, iri: string)
    requires StringText(data) == data && IriText(iri) == iri
    ensures "\"" + data + "\"^^<" + iri + ">" == LiteralText(Literal(data, Type(iri))) + []
  {
    TypedPieces("\"" + data, iri);
  }

  /** A string of raw characters with a datatype IRI of raw characters is read verbatim. */
  lemma RawTypedLiteral(data: string, iri: string)
    requires AllStringRaw(data)
    requires AllIriRaw(iri)
    ensures Complete(ParseLiteral("\"" + data + "\"^^<" + iri + ">")) == Success(Literal(data, Type(iri)))
    ensures Complete(ParseObject("\"" + data + "\"^^<" + iri + ">")) == Success(Lit(Literal(data, Type(iri))))
  {
    var lit := Literal(data, Type(iri));
    StringTextVerbatim(data);
    IriTextVerbatim(iri);
    TypedText(data, iri);
    LiteralRoundTrip(lit, []);
    ObjectOfLiteral("\"" + data + "\"^^<" + iri + ">", lit, []);
  }

  /** A quoted string, then `@` and a tag, is an object literal with that tag. */
  lemma TaggedObject(q: string, data: string, tag: string, a: string, t: string)
    requires ParseStringLiteralQuote(q + (a + t)) == Parsed(data, a + t)
    requires a == "@" + tag && ValidLangTag(tag) && LangTagEnds(tag, t)
    ensures ParseObject(q + a + t) == Parsed(Lit(Literal(data, Lang(tag))), t)
  {
    Assoc(q, a, t);
    LangTagRoundTrip(tag, t);
    ObjectOfLiteral(q + a + t, Literal(data, Lang(tag)), t);
  }

  // ---------------------------------------------------------------- statements

  /** A statement of two IRIs of raw characters and an object that reads back. */
  lemma IriIriTriple(a: string, b: string, obj: Object, objText: string, tail: string)
    requires AllIriRaw(a)
    requires AllIriRaw(b)
    requires ParseObject(objText + tail) == Parsed(obj, tail) && EndOfStatement(tail)
    ensures ParseTriple("<" + a + ">" + " " + ("<" + b + ">") + " " + objText + tail)
      == Success(Triple(Subject.IriRef(a), Predicate.IriRef(b), obj))
  {
    IriTextVerbatim(a);
    IriTextVerbatim(b);
    TripleFromObject(Triple(Subject.IriRef(a), Predicate.IriRef(b), obj), objText, tail);
  }

  /** A line of a labelled subject, a predicate IRI of raw characters and an object that reads back. */
  lemma LabelIriLine(name: string, b: string, obj: Object, objText: string, tail: string)
    requires ValidLabel(name)
    requires AllIriRaw(b)
    requires ParseObject(objText + tail) == Parsed(obj, tail) && EndOfStatement(tail)
    ensures ParseTripleLine("_:" + name + " " + ("<" + b + ">") + " " + objText + tail)
      == Success(Some(Triple(Subject.BNode(name), Predicate.IriRef(b), obj)))
  {
    IriTextVerbatim(b);
    TripleFromObject(Triple(Subject.BNode(name), Predicate.IriRef(b), obj), objText, tail);
    StatementLine("_:" + name + " " + ("<" + b + ">") + " " + objText + tail);
  }

  /** White space, then a comment, is a line without a statement. */
  lemma CommentLine(c: string)
    requires IsComment(c)
    ensures ParseTripleLine(" " + c) == Success(None)
  {
    SkipOneSpace(c);
  }

  // ---------------------------------------------------------------- token rules

  /** test_uchar: `ካ` is U+12AB. */
  lemma TestUchar()
    ensures Complete(ParseUchar("\\u12ab")) == Success('\U{12AB}')
  {
    HexValue12ab();
    UcharPieces();
    ShortUchar("12ab", []);
    EmptyTail("\\u" + "12ab");
  }

  /** test_blank_node_label: `_:abc.a` is the label `abc.a`, the dot kept. */
  lemma TestBlankNodeLabel()
    ensures Complete(ParseBlankNodeLabel("_:abc.a")) == Success("abc.a")
  {
    RawLabel("abc.a", "_:abc.a");
  }

  // Inputs rejected after an escape, which the crate's tests do not cover.

  /** `<\u12ab b>`: a raw space after a UCHAR still makes an IRIREF fail. */
  lemma UcharThenSpace()
    ensures ParseIriRef("<" + ("\\u" + "12ab") + [' '] + "b>") == NoParse
  {
    HexValue12ab();
    ShortUchar("12ab", []);
    EmptyTail("\\u" + "12ab");
    assert ("\\u" + "12ab")[6..] == [];
    IriRefRejectsRaw("\\u" + "12ab", ' ', "b>");
  }

  /** `"\t` followed by a line feed: a raw line break after an escape still makes a string fail. */
  lemma EcharThenLineBreak()
    ensures ParseStringLiteralQuote("\"" + "\\t" + ['\n'] + "\"") == NoParse
  {
    assert ("\\t")[2..] == [];
    StringRejectsLineBreak("\\t", '\n', "\"");
  }

  /** `"\t\q"`: an unknown escape after a valid one still makes a string fail. */
  lemma EcharThenUnknownEscape()
    ensures ParseStringLiteralQuote("\"" + "\\t" + ("\\" + ['q']) + "\"") == NoParse
  {
    assert ("\\t")[2..] == [];
    StringRejectsUnknownEscape("\\t", 'q', "\"");
  }

  // Inputs on which the model makes a choice that the crate's tests do not fix.

  /** A term rule stops right after its term: the space is left for `triple`. */
  lemma TermLeavesSpace(a: string)
    requires AllIriRaw(a)
    ensures ParseSubject("<" + a + ">" + " ") == Parsed(Subject.IriRef(a), " ")
    ensures Complete(ParseSubject("<" + a + ">" + " ")) == Failure
  {
    IriTextVerbatim(a);
    SubjectRoundTrip(Subject.IriRef(a), " ");
  }

  /** A label gives back a trailing dot: `_:ab.` is the label `ab` and a leftover `.`. */
  lemma LabelGivesBackDot(name: string)
    requires ValidLabel(name)
    ensures ParseBlankNodeLabel("_:" + name + ".") == Parsed(name, ".")
    ensures Complete(ParseBlankNodeLabel("_:" + name + ".")) == Failure
  {
    SpanIs(LabelInner, ".", 1);
    BlankNodeLabelRoundTrip(name, ".");
  }

  /** With the dot given back, a statement may end `_:o.` with no space before the `.`. */
  lemma LabelBeforeDot(a: string, b: string, name: string)
    requires AllIriRaw(a) && AllIriRaw(b) && ValidLabel(name)
    ensures ParseTriple("<" + a + ">" + " " + ("<" + b + ">") + " " + ("_:" + name) + ".")
      == Success(Triple(Subject.IriRef(a), Predicate.IriRef(b), Object.BNode(name)))
  {
    SpanIs(LabelInner, ".", 1);
    BlankNodeLabelRoundTrip(name, ".");
    DotEnds([]);
    EmptyTail(".");
    IriIriTriple(a, b, Object.BNode(name), "_:" + name, ".");
  }

  /** The raw runs of the test string. */
  lemma HolaRaw()
    ensures AllStringRaw("Hola, dit is een ") && AllStringRaw("string") && AllStringRaw(" met u")
    ensures AllStringRaw("icode! en een ") && AllStringRaw(" ")
  {
  }

  /** The end of the test string: its UCHAR, its last raw runs, its escaped backslash and the closing quote. */
  lemma HolaEnd()
    ensures StringBody("\\u12ab" + ("icode! en een " + ("\\\\" + (" " + "\""))))
      == Parsed(['\U{12AB}'] + ("icode! en een " + (['\\'] + (" " + []))), [])
  {
    HolaRaw();
    StringBodyClose([]);
    EmptyTail("\"");
    StringBodyRaw(" ", "\"", [], []);
    var v8 := " " + "\"";
    var d8 := " " + [];
    EscapeRoundTrip('\\', v8);
    StringBodyEscape("\\\\", '\\', v8, d8, []);
    var v7 := "\\\\" + v8;
    var d7 := ['\\'] + d8;
    StringBodyRaw("icode! en een ", v7, d7, []);
    var v6 := "icode! en een " + v7;
    var d6 := "icode! en een " + d7;
    HexValue12ab();
    UcharPieces();
    ShortUcharEscape("12ab", "\\u12ab", v6);
    StringBodyEscape("\\u12ab", '\U{12AB}', v6, d6, []);
  }

  /** test_string_literal_quote: quotes dropped, `\"`, `ካ` and `\\` resolved. */
  lemma TestStringLiteralQuote()
    ensures Complete(ParseStringLiteralQuote("\"" + "Hola, dit is een " + "\\\"" + "string" + "\\\"" + " met u"
      + "\\u12ab" + "icode! en een " + "\\\\" + " " + "\""))
      == Success("Hola, dit is een " + "\"" + "string" + "\"" + " met u" + "\U{12AB}" + "icode! en een " + "\\" + " ")
  {
    Nest11("\"", "Hola, dit is een ", "\\\"", "string", "\\\"", " met u", "\\u12ab", "icode! en een ", "\\\\", " ", "\"");
    HolaRaw();
    HolaEnd();
    var v5 := "\\u12ab" + ("icode! en een " + ("\\\\" + (" " + "\"")));
    var d5 := ['\U{12AB}'] + ("icode! en een " + (['\\'] + (" " + [])));
    StringBodyRaw(" met u", v5, d5, []);
    var v4 := " met u" + v5;
    var d4 := " met u" + d5;
    EscapeRoundTrip('"', v4);
    StringBodyEscape("\\\"", '"', v4, d4, []);
    var v3 := "\\\"" + v4;
    var d3 := ['"'] + d4;
    StringBodyRaw("string", v3, d3, []);
    var v2 := "string" + v3;
    var d2 := "string" + d3;
    EscapeRoundTrip('"', v2);
    StringBodyEscape("\\\"", '"', v2, d2, []);
    var v1 := "\\\"" + v2;
    var d1 := ['"'] + d2;
    StringBodyRaw("Hola, dit is een ", v1, d1, []);
    QuotedString("Hola, dit is een " + v1);
    Nest10("Hola, dit is een ", "\"", "string", "\"", " met u", "\U{12AB}", "icode! en een ", "\\", " ", []);
    EmptyTail("Hola, dit is een " + "\"" + "string" + "\"" + " met u" + "\U{12AB}" + "icode! en een " + "\\" + " ");
  }

  /** The parts of the IRIs of the term tests. */
  lemma ExampleIriParts()
    ensures AllIriRaw("http://dit/is/een/") && AllIriRaw("http://example.org/")
  {
    DitIri();
    ExampleOrgIri();
  }

  lemma DitIri()
    ensures AllIriRaw("http://dit/is/een/")
  {
  }

  lemma ExampleOrgIri()
    ensures AllIriRaw("http://example.org/")
  {
  }

  lemma ExampleIriPaths()
    ensures AllIriRaw("iriref#fragment") && AllIriRaw("predicate") && AllIriRaw("subject")
  {
  }

  lemma ExampleIriNames()
    ensures AllIriRaw("object") && AllIriRaw("some_type") && AllIriRaw("my::float::type")
  {
  }

  /** The IRIs of the term tests. */
  lemma ExampleIris()
    ensures AllIriRaw("http://dit/is/een/" + "iriref#fragment")
    ensures AllIriRaw("http://example.org/" + "predicate") && AllIriRaw("http://example.org/" + "subject")
    ensures AllIriRaw("http://example.org/" + "object") && AllIriRaw("http://example.org/" + "some_type")
    ensures AllIriRaw("my::float::type")
  {
    ExampleIriParts();
    ExampleIriPaths();
    ExampleIriNames();
    IriRawJoin("http://dit/is/een/", "iriref#fragment");
    IriRawJoin("http://example.org/", "predicate");
    IriRawJoin("http://example.org/", "subject");
    IriRawJoin("http://example.org/", "object");
    IriRawJoin("http://example.org/", "some_type");
  }

  /** The strings of the literal tests. */
  lemma ExampleStrings()
    ensures AllStringRaw("This has a language tag") && AllStringRaw("This has a type tag") && AllStringRaw("0.95")
  {
    LanguageTagString();
    TypeTagString();
  }

  lemma LanguageTagString()
    ensures AllStringRaw("This has a language tag")
  {
  }

  lemma TypeTagString()
    ensures AllStringRaw("This has a type tag")
  {
  }

  /** test_iriref: `<` and `>` dropped, the fragment kept. */
  lemma TestIriRef()
    ensures Complete(ParseIriRef("<" + ("http://dit/is/een/" + "iriref#fragment") + ">"))
      == Success(("http://dit/is/een/" + "iriref#fragment"))
  {
    ExampleIris();
    RawIriRef(("http://dit/is/een/" + "iriref#fragment"), "<" + ("http://dit/is/een/" + "iriref#fragment") + ">");
  }

  /** `nl-be`, split at its hyphen. */
  lemma NlBe()
    ensures "@nl-be" == "@" + "nl" + "-" + "be" && "nl-be" == "nl" + "-" + "be"
  {
  }

  /** test_langtag: `@` dropped, the subtag kept. */
  lemma TestLangTag()
    ensures Complete(ParseLangTag("@nl-be")) == Success("nl-be")
  {
    NlBe();
    TwoPartLangTag("nl", "be");
  }

  // ---------------------------------------------------------------- literal

  /** `en-gb`, split at its hyphen. */
  lemma EnGb()
    ensures "\"@en-gb" == "\"@" + ("en" + "-" + "gb") && "en-gb" == "en" + "-" + "gb"
  {
  }

  /** test_literal_lang: the string, then `Lang("en-gb")`. */
  lemma TestLiteralLang()
    ensures Complete(ParseLiteral("\"" + "This has a language tag" + "\"@en-gb"))
      == Success(Literal("This has a language tag", Lang("en-gb")))
  {
    EnGb();
    ExampleStrings();
    RawTaggedLiteral("This has a language tag", "en", "gb", "\"@en-gb");
  }

  /** test_literal_type: the string, then `Type` of the IRI after `^^`. */
  lemma TestLiteralType()
    ensures Complete(ParseLiteral("\"" + "This has a type tag" + "\"^^<" + ("http://example.org/" + "some_type") + ">"))
      == Success(Literal("This has a type tag", Type(("http://example.org/" + "some_type"))))
  {
    ExampleIris();
    ExampleStrings();
    RawTypedLiteral("This has a type tag", ("http://example.org/" + "some_type"));
  }

  // ---------------------------------------------------------------- terms

  /** test_predicate: an IRIREF is a predicate IRI. */
  lemma TestPredicate()
    ensures Complete(ParsePredicate("<" + ("http://example.org/" + "predicate") + ">"))
      == Success(Predicate.IriRef(("http://example.org/" + "predicate")))
  {
    ExampleIris();
    RawIriRef(("http://example.org/" + "predicate"), "<" + ("http://example.org/" + "predicate") + ">");
  }

  /** test_subject_iri: an IRIREF is a subject IRI. */
  lemma TestSubjectIri()
    ensures Complete(ParseSubject("<" + ("http://example.org/" + "subject") + ">"))
      == Success(Subject.IriRef(("http://example.org/" + "subject")))
  {
    ExampleIris();
    RawIriRef(("http://example.org/" + "subject"), "<" + ("http://example.org/" + "subject") + ">");
  }

  /** test_subject_bnode: a label is a subject blank node. */
  lemma TestSubjectBNode()
    ensures Complete(ParseSubject("_:bnode")) == Success(Subject.BNode("bnode"))
  {
    RawLabel("bnode", "_:bnode");
  }

  /** test_object_iri: an IRIREF is an object IRI. */
  lemma TestObjectIri()
    ensures Complete(ParseObject("<" + ("http://example.org/" + "object") + ">"))
      == Success(Object.IriRef(("http://example.org/" + "object")))
  {
    ExampleIris();
    RawIriRef(("http://example.org/" + "object"), "<" + ("http://example.org/" + "object") + ">");
  }

  /** test_object_bnode: a label is an object blank node. */
  lemma TestObjectBNode()
    ensures Complete(ParseObject("_:bnode")) == Success(Object.BNode("bnode"))
  {
    RawLabel("bnode", "_:bnode");
  }

  /** test_object_literal: a typed literal is an object literal with its data and datatype. */
  lemma TestObjectLiteral()
    ensures Complete(ParseObject("\"" + "0.95" + "\"^^<" + "my::float::type" + ">"))
      == Success(Lit(Literal("0.95", Type("my::float::type"))))
  {
    ExampleIris();
    ExampleStrings();
    RawTypedLiteral("0.95", "my::float::type");
  }

  // ---------------------------------------------------------------- triple and line

  /** The comment on Algeria in the test statement, the UCHAR resolved. */
  const AlgeriaComment: string :=
    "Algeria (Arabic: الجزائر<" + "\U{200E}" + ("> al-Jazā'ir; " + "Berber: ⵍⵣⵣⴰⵢⴻⵔ Dzayer)")
    + (", officially " + "People's Democratic " + "Republic of Algeria")

  /** The raw runs of the test statement's string, piece by piece. */
  lemma AlgeriaRawStart()
    ensures AllStringRaw("Algeria (Arabic: الجزائر<")
  {
  }

  lemma AlgeriaRawMiddle()
    ensures AllStringRaw("> al-Jazā'ir; ") && AllStringRaw("Berber: ⵍⵣⵣⴰⵢⴻⵔ Dzayer)")
  {
  }

  lemma AlgeriaRawEnd()
    ensures AllStringRaw(", officially ") && AllStringRaw("People's Democratic ")
    ensures AllStringRaw("Republic of Algeria")
  {
  }

  /** The raw runs of the test statement's string. */
  lemma AlgeriaRaw()
    ensures AllStringRaw("Algeria (Arabic: الجزائر<")
    ensures AllStringRaw("> al-Jazā'ir; " + "Berber: ⵍⵣⵣⴰⵢⴻⵔ Dzayer)")
    ensures AllStringRaw(", officially " + "People's Democratic " + "Republic of Algeria")
  {
    AlgeriaRawStart();
    AlgeriaRawMiddle();
    AlgeriaRawEnd();
    StringRawJoin("> al-Jazā'ir; ", "Berber: ⵍⵣⵣⴰⵢⴻⵔ Dzayer)");
    StringRawJoin(", officially ", "People's Democratic ");
    StringRawJoin(", officially " + "People's Democratic ", "Republic of Algeria");
  }

  /** The parts of the IRIs of the test statement. */
  lemma DbpediaIriParts()
    ensures AllIriRaw("http://dbpedia.org/") && AllIriRaw("resource/Algeria")
  {
    DbpediaIri();
    AlgeriaPath();
  }

  lemma DbpediaIri()
    ensures AllIriRaw("http://dbpedia.org/")
  {
  }

  lemma AlgeriaPath()
    ensures AllIriRaw("resource/Algeria")
  {
  }

  lemma RdfsIriParts()
    ensures AllIriRaw("http://www.w3.org/2000/01/") && AllIriRaw("rdf-schema#comment")
  {
    W3Iri();
    RdfsCommentPath();
  }

  lemma W3Iri()
    ensures AllIriRaw("http://www.w3.org/2000/01/")
  {
  }

  lemma RdfsCommentPath()
    ensures AllIriRaw("rdf-schema#comment")
  {
  }

  /** The IRIs of the test statement. */
  lemma AlgeriaIris()
    ensures AllIriRaw("http://dbpedia.org/" + "resource/Algeria")
    ensures AllIriRaw("http://www.w3.org/2000/01/" + "rdf-schema#comment")
  {
    DbpediaIriParts();
    RdfsIriParts();
    IriRawJoin("http://dbpedia.org/", "resource/Algeria");
    IriRawJoin("http://www.w3.org/2000/01/", "rdf-schema#comment");
  }

  /** The string of the test statement: raw `<`, `>`, `'` and non-ASCII text around one UCHAR. */
  lemma AlgeriaString(t: string)
    ensures ParseStringLiteralQuote("\"" + "Algeria (Arabic: الجزائر<" + "\\u200E" + ("> al-Jazā'ir; " + "Berber: ⵍⵣⵣⴰⵢⴻⵔ Dzayer)")
      + (", officially " + "People's Democratic " + "Republic of Algeria") + "\"" + t) == Parsed(AlgeriaComment, t)
  {
    Nest7("\"", "Algeria (Arabic: الجزائر<", "\\u200E", ("> al-Jazā'ir; " + "Berber: ⵍⵣⵣⴰⵢⴻⵔ Dzayer)"),
      (", officially " + "People's Democratic " + "Republic of Algeria"), "\"", t);
    AlgeriaRaw();
    StringBodyClose(t);
    var v3 := (", officially " + "People's Democratic " + "Republic of Algeria") + ("\"" + t);
    var d3 := (", officially " + "People's Democratic " + "Republic of Algeria") + [];
    StringBodyRaw((", officially " + "People's Democratic " + "Republic of Algeria"), "\"" + t, [], t);
    var v2 := ("> al-Jazā'ir; " + "Berber: ⵍⵣⵣⴰⵢⴻⵔ Dzayer)") + v3;
    var d2 := ("> al-Jazā'ir; " + "Berber: ⵍⵣⵣⴰⵢⴻⵔ Dzayer)") + d3;
    StringBodyRaw(("> al-Jazā'ir; " + "Berber: ⵍⵣⵣⴰⵢⴻⵔ Dzayer)"), v3, d3, t);
    HexValue200E();
    UcharPieces();
    ShortUcharEscape("200E", "\\u200E", v2);
    StringBodyEscape("\\u200E", '\U{200E}', v2, d2, t);
    var v1 := "\\u200E" + v2;
    var d1 := ['\U{200E}'] + d2;
    StringBodyRaw("Algeria (Arabic: الجزائر<", v1, d1, t);
    QuotedString("Algeria (Arabic: الجزائر<" + v1);
    Nest5("Algeria (Arabic: الجزائر<", "\U{200E}", ("> al-Jazā'ir; " + "Berber: ⵍⵣⵣⴰⵢⴻⵔ Dzayer)"),
      (", officially " + "People's Democratic " + "Republic of Algeria"), []);
    EmptyTail(AlgeriaComment);
  }

  /** `en` is a language tag of letters only. */
  lemma En()
    ensures "@en" == "@" + "en" && ValidLangTag("en") && !HasSubtags("en")
  {
    SpanIs(IsAlpha, "en", 2);
  }

  /** The object of the test statement: the string, then `@en`. */
  lemma AlgeriaObject(t: string)
    requires |t| > 0 && !IsAlpha(t[0]) && t[0] != '-'
    ensures ParseObject("\"" + "Algeria (Arabic: الجزائر<" + "\\u200E" + ("> al-Jazā'ir; " + "Berber: ⵍⵣⵣⴰⵢⴻⵔ Dzayer)")
      + (", officially " + "People's Democratic " + "Republic of Algeria") + "\"" + "@en" + t)
      == Parsed(Lit(Literal(AlgeriaComment, Lang("en"))), t)
  {
    AlgeriaString("@en" + t);
    En();
    TaggedObject("\"" + "Algeria (Arabic: الجزائر<" + "\\u200E" + ("> al-Jazā'ir; " + "Berber: ⵍⵣⵣⴰⵢⴻⵔ Dzayer)")
      + (", officially " + "People's Democratic " + "Republic of Algeria") + "\"", AlgeriaComment, "en", "@en", t);
  }

  /** ` .`, then white space and a comment, ends a statement. */
  lemma DotAndComment()
    ensures EndOfStatement(" ." + (" " + "# some comments"))
  {
    SkipOneSpace("# some comments");
    EndAfterDot(" " + "# some comments");
  }

  /**
   * test_triple: two IRIs and a language-tagged literal with raw `<`, `>`,
   * `'` and non-ASCII characters, white space before the `.` and a comment
   * after it.
   */
  lemma TestTriple()
    ensures ParseTriple("<" + ("http://dbpedia.org/" + "resource/Algeria") + ">" + " "
      + ("<" + ("http://www.w3.org/2000/01/" + "rdf-schema#comment") + ">") + " "
      + ("\"" + "Algeria (Arabic: الجزائر<" + "\\u200E" + ("> al-Jazā'ir; " + "Berber: ⵍⵣⵣⴰⵢⴻⵔ Dzayer)")
        + (", officially " + "People's Democratic " + "Republic of Algeria") + "\"" + "@en")
      + (" ." + (" " + "# some comments")))
      == Success(Triple(
        Subject.IriRef(("http://dbpedia.org/" + "resource/Algeria")),
        Predicate.IriRef(("http://www.w3.org/2000/01/" + "rdf-schema#comment")),
        Lit(Literal(AlgeriaComment, Lang("en")))))
  {
    DropPrefix(" ", "." + " # some comments");
    AlgeriaObject(" ." + (" " + "# some comments"));
    DotAndComment();
    AlgeriaIris();
    IriIriTriple(("http://dbpedia.org/" + "resource/Algeria"), ("http://www.w3.org/2000/01/" + "rdf-schema#comment"),
      Lit(Literal(AlgeriaComment, Lang("en"))),
      "\"" + "Algeria (Arabic: الجزائر<" + "\\u200E" + ("> al-Jazā'ir; " + "Berber: ⵍⵣⵣⴰⵢⴻⵔ Dzayer)")
        + (", officially " + "People's Democratic " + "Republic of Algeria") + "\"" + "@en",
      " ." + (" " + "# some comments"));
  }

  /** `.`, then nothing or a comment, ends a statement. */
  lemma DotEnds(tail: string)
    requires BlankOrComment(tail)
    ensures EndOfStatement("." + tail)
  {
    SpanIs(IsWs, "." + tail, 0);
    DropPrefix(".", tail);
  }

  /** The characters of the test line, each allowed raw where it stands. */
  lemma LineTripleRaw()
    ensures ValidLabel("subject") && AllIriRaw("http://example.org/" + "predicate") && AllStringRaw("object")
  {
    ExampleIris();
  }

  /** test_triple_line_triple: a statement with no space before `.` gives `Some`. */
  lemma TestTripleLineTriple()
    ensures ParseTripleLine("_:" + "subject" + " " + ("<" + ("http://example.org/" + "predicate") + ">") + " "
      + ("\"" + "object" + "\"") + ".")
      == Success(Some(Triple(
        Subject.BNode("subject"),
        Predicate.IriRef(("http://example.org/" + "predicate")),
        Lit(Literal("object", Type(DefaultDatatype))))))
  {
    var lit := Literal("object", Type(DefaultDatatype));
    LineTripleRaw();
    StringTextVerbatim("object");
    UntaggedLiteral("object", ".");
    ObjectOfLiteral("\"" + "object" + "\"" + ".", lit, ".");
    SpanIs(IsWs, [], 0);
    DotEnds([]);
    EmptyTail(".");
    LabelIriLine("subject", ("http://example.org/" + "predicate"), Lit(lit), "\"" + "object" + "\"", ".");
  }

  /** test_triple_line_comment: a comment after white space gives `None`. */
  lemma TestTripleLineComment()
    ensures ParseTripleLine(" " + "# this is a nice comment") == Success(None)
  {
    CommentLine("# this is a nice comment");
  }

  /** test_triple_line_empty: an empty line gives `None`. */
  lemma TestTripleLineEmpty()
    ensures ParseTripleLine("") == Success(None)
  {
    SpanIs(IsWs, "", 0);
  }

  /** test_triple_line_whitespaces: tabs and spaces only give `None`. */
  lemma TestTripleLineWhitespaces()
    ensures ParseTripleLine("\t \t") == Success(None)
  {
    SpanIs(IsWs, "\t \t", 3);
  }
}
