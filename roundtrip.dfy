/**
 * Each rule reads back what the writer writes: parsing the text of a value,
 * followed by anything that cannot extend it, gives back the value and
 * exactly that rest. Together with the rules' own postconditions (what they
 * consume, what their values look like) these pin down the unescaping of
 * section 8 of the N-Triples Recommendation and the term dispatch.
 */
module RoundTrip {
  import opened Chars
  import opened Parsing
  import opened Terms
  import opened Tokens
  import opened Statements
  import opened Writer

  // ---------------------------------------------------------------- UCHAR

  /** UCHAR decodes `\uXXXX`/`\UXXXXXXXX` to the character with that code point. */
  lemma UcharRoundTrip(c: char, t: string)
    ensures ParseUchar(UcharText(c) + t) == Parsed(c, t)
  {
    var n := c as int;
    var s := UcharText(c) + t;
    if n < 0x1_0000 {
      assert Pow16(4) == 0x1_0000;
      HexRoundTrip(n, 4);
      assert s[2..6] == HexDigits(n, 4) && s[6..] == t;
    } else {
      assert Pow16(8) == 0x1_0000_0000;
      HexRoundTrip(n, 8);
      assert s[2..10] == HexDigits(n, 8) && s[10..] == t;
    }
  }

  // ---------------------------------------------------------------- IRIREF

  lemma {:induction false} IriBodyRoundTrip(iri: string, t: string)
    ensures IriBody(IriText(iri) + ">" + t) == Parsed(iri, t)
    decreases |iri|
  {
    var s := IriText(iri) + ">" + t;
    if iri == [] {
      assert s == ">" + t;
    } else {
      var c := iri[0];
      var rest := IriText(iri[1..]) + ">" + t;
      Assoc4(IriCharText(c), IriText(iri[1..]), ">", t);
      IriBodyRoundTrip(iri[1..], t);
      if IriRaw(c) {
        DropFirst([c], rest);
      } else {
        UcharRoundTrip(c, rest);
        assert s[0] == '\\';
      }
      ConsFirst(iri);
    }
  }

  /** IRIREF strips `<` and `>` and undoes every UCHAR: any IRI comes back unchanged. */
  lemma IriRefRoundTrip(iri: string, t: string)
    ensures ParseIriRef(IriRefText(iri) + t) == Parsed(iri, t)
  {
    var s := IriRefText(iri) + t;
    assert s[1..] == IriText(iri) + ">" + t;
    IriBodyRoundTrip(iri, t);
  }

  /** An IRI without characters that need escaping is written verbatim. */
  lemma {:induction false} IriTextVerbatim(iri: string)
    requires AllIriRaw(iri)
    ensures IriText(iri) == iri
    decreases |iri|
  {
    if iri != [] {
      IriTextVerbatim(iri[1..]);
      assert [iri[0]] + iri[1..] == iri;
    }
  }

  /** An IRIREF with no closing `>` is rejected. */
  lemma UnterminatedIriRef(s: string)
    requires '>' !in s
    ensures ParseIriRef(s) == NoParse
  {
  }

  // ---------------------------------------------------------------- STRING_LITERAL_QUOTE

  lemma {:induction false} StringBodyRoundTrip(data: string, t: string)
    ensures StringBody(StringText(data) + "\"" + t) == Parsed(data, t)
    decreases |data|
  {
    var s := StringText(data) + "\"" + t;
    if data == [] {
      assert s == "\"" + t;
    } else {
      var c := data[0];
      var rest := StringText(data[1..]) + "\"" + t;
      Assoc4(StringCharText(c), StringText(data[1..]), "\"", t);
      StringBodyRoundTrip(data[1..], t);
      if StringRaw(c) {
        DropFirst([c], rest);
      } else {
        EscapeRoundTrip(c, rest);
      }
      ConsFirst(data);
    }
  }

  /** ECHAR reads back the escape the writer uses for a quote, a backslash or a line break. */
  lemma EscapeRoundTrip(c: char, t: string)
    requires !StringRaw(c)
    ensures ParseEscape(StringCharText(c) + t) == Parsed(c, t)
  {
    var s := StringCharText(c) + t;
    assert s[0] == '\\' && s[2..] == t;
  }

  /** Each of the eight ECHARs reads back as the character the table pairs it with. */
  lemma EcharRoundTrip(i: nat, t: string)
    requires i < |EcharLetters|
    ensures ParseEchar(EcharText(i) + t) == Parsed(EcharValues[i], t)
    ensures ParseEscape(EcharText(i) + t) == Parsed(EcharValues[i], t)
  {
    var s := EcharText(i) + t;
    assert s[0] == '\\' && s[1] == EcharLetters[i] && s[2..] == t;
  }

  /**
   * STRING_LITERAL_QUOTE drops the quotes and resolves `\"`, `\\` and the
   * other escapes: any string comes back unchanged.
   */
  lemma StringLiteralRoundTrip(data: string, t: string)
    ensures ParseStringLiteralQuote(QuoteText(data) + t) == Parsed(data, t)
  {
    var s := QuoteText(data) + t;
    assert s[1..] == StringText(data) + "\"" + t;
    StringBodyRoundTrip(data, t);
  }

  /** A string without quotes, backslashes or line breaks is written verbatim. */
  lemma {:induction false} StringTextVerbatim(data: string)
    requires AllStringRaw(data)
    ensures StringText(data) == data
    decreases |data|
  {
    if data != [] {
      StringTextVerbatim(data[1..]);
      assert [data[0]] + data[1..] == data;
    }
  }

  // ---------------------------------------------------------------- BLANK_NODE_LABEL

  /** BLANK_NODE_LABEL strips `_:` and returns the label verbatim, interior dots included. */
  lemma BlankNodeLabelRoundTrip(name: string, t: string)
    requires ValidLabel(name) && LabelEnds(t)
    ensures ParseBlankNodeLabel("_:" + name + t) == Parsed(name, t)
  {
    Assoc("_:", name, t);
    DropPrefix("_:", name + t);
    LabelLengthOf(name, t);
    SplitAt(name, t);
  }

  /** The label's length is found exactly: the dots that may follow it are not taken. */
  lemma LabelLengthOf(name: string, t: string)
    requires ValidLabel(name) && LabelEnds(t)
    ensures LabelLength(name + t) == |name|
  {
    var body := name + t;
    DropFirst(name, t);
    SpanAppend(LabelInner, name[1..], t);
    var n := |name| + Span(LabelInner, t);
    forall i | |name| <= i < n
      ensures body[i] == '.'
    {
      assert body[i] == t[i - |name|];
    }
    LastNonDotIs(body, n, |name|);
  }

  /** A span over a prefix that satisfies p runs on into what follows. */
  lemma SpanAppend(p: char -> bool, a: string, t: string)
    requires forall i :: 0 <= i < |a| ==> p(a[i])
    ensures Span(p, a + t) == |a| + Span(p, t)
  {
    var n := Span(p, t);
    var s := a + t;
    forall i | 0 <= i < |a| + n
      ensures p(s[i])
    {
      if i >= |a| { assert s[i] == t[i - |a|]; }
    }
    assert |a| + n < |s| ==> s[|a| + n] == t[n];
    SpanIs(p, s, |a| + n);
  }

  /** Backing off trailing dots stops at the last character that is not one. */
  lemma {:induction false} LastNonDotIs(s: string, n: nat, k: nat)
    requires 1 <= k <= n <= |s| && s[0] != '.' && s[k - 1] != '.'
    requires forall i :: k <= i < n ==> s[i] == '.'
    ensures LastNonDot(s, n) == k
    decreases n
  {
    if n > k {
      LastNonDotIs(s, n - 1, k);
    }
  }

  // ---------------------------------------------------------------- LANGTAG

  /** LANGTAG strips `@` and returns the tag verbatim, subtags included. */
  lemma LangTagRoundTrip(tag: string, t: string)
    requires ValidLangTag(tag) && LangTagEnds(tag, t)
    ensures ParseLangTag("@" + tag + t) == Parsed(tag, t)
  {
    var body := tag + t;
    Assoc("@", tag, t);
    DropPrefix("@", body);
    LangTagLengthOf(tag, t);
    SplitAt(tag, t);
  }

  /** The tag's letters and subtags are measured up to where t begins. */
  lemma LangTagLengthOf(tag: string, t: string)
    requires ValidLangTag(tag) && LangTagEnds(tag, t)
    ensures |tag + t| > 0 && IsAlpha((tag + t)[0])
    ensures LangTagLength(tag + t) == |tag|
  {
    var n := Span(IsAlpha, tag);
    assert HasSubtags(tag) ==> tag[n..][0] == '-';
    SpanOfJoin(IsAlpha, tag, t, n);
    DropWithin(tag, t, n);
    SubtagsLengthOf(tag[n..], t);
  }

  /** Reading the subtags of q, followed by a text that cannot extend them, reads all of q. */
  lemma {:induction false} SubtagsLengthOf(q: string, t: string)
    requires Subtags(q)
    requires !(|t| >= 2 && t[0] == '-' && IsAlnum(t[1]))
    requires q != [] && |t| > 0 ==> !IsAlnum(t[0])
    ensures SubtagsLength(q + t) == |q|
    decreases |q|
  {
    if q != [] {
      var k := 1 + Span(IsAlnum, q[1..]);
      assert k < |q| ==> q[k..][0] == '-';
      DropFirst(q, t);
      SpanOfJoin(IsAlnum, q[1..], t, k - 1);
      DropWithin(q, t, k);
      SubtagsLengthOf(q[k..], t);
      SubtagsLengthStep(q + t, k);
    } else {
      SubtagsLengthNone(t);
    }
  }

  /** After a first group of length k, the groups of s are read from s[k..]. */
  lemma SubtagsLengthStep(s: string, k: nat)
    requires |s| >= 2 && s[0] == '-' && IsAlnum(s[1])
    requires k == 1 + Span(IsAlnum, s[1..])
    ensures SubtagsLength(s) == k + SubtagsLength(s[k..])
  {
    assert SubtagsLength(s) == GroupsAfter(s, k, SubtagsLength(s[k..]));
  }

  /** Without a `-` and a letter or digit at its start, no groups are read. */
  lemma SubtagsLengthNone(s: string)
    requires !(|s| >= 2 && s[0] == '-' && IsAlnum(s[1]))
    ensures SubtagsLength(s) == 0
  {
  }

  // ---------------------------------------------------------------- literal

  /** What may follow a literal's text without extending it. */
  predicate LiteralEnds(lit: Literal, t: string) {
    lit.dataType.Lang? ==> LangTagEnds(lit.dataType.tag, t)
  }

  /** The annotation reads `@tag` as `Lang(tag)` and `^^<iri>` as `Type(iri)`. */
  lemma AnnotationRoundTrip(kind: TypeLang, t: string)
    requires kind.Lang? ==> ValidLangTag(kind.tag) && LangTagEnds(kind.tag, t)
    ensures ParseAnnotation(AnnotationText(kind) + t) == Parsed(kind, t)
  {
    match kind
    case Lang(tag) =>
      LangTagRoundTrip(tag, t);
    case Type(iri) =>
      Assoc("^^", IriRefText(iri), t);
      CaretCaret(IriRefText(iri) + t);
      IriRefRoundTrip(iri, t);
  }

  /** `^^` in front of v. */
  lemma CaretCaret(v: string)
    ensures |"^^" + v| >= 2 && ("^^" + v)[0] == '^' && ("^^" + v)[1] == '^' && ("^^" + v)[2..] == v
  {
  }

  /**
   * literal reads the unescaped string and then `Lang(tag)` after `@tag` or
   * `Type(iri)` after `^^<iri>`.
   */
  lemma LiteralRoundTrip(lit: Literal, t: string)
    requires WellFormedLiteral(lit) && LiteralEnds(lit, t)
    ensures ParseLiteral(LiteralText(lit) + t) == Parsed(lit, t)
  {
    var annotated := AnnotationText(lit.dataType) + t;
    Assoc(QuoteText(lit.data), AnnotationText(lit.dataType), t);
    StringLiteralRoundTrip(lit.data, annotated);
    AnnotationRoundTrip(lit.dataType, t);
  }

  /** A string with no annotation after it gets the default datatype. */
  lemma UntaggedLiteral(data: string, t: string)
    requires ParseAnnotation(t) == NoParse
    ensures ParseLiteral(QuoteText(data) + t) == Parsed(Literal(data, Type(DefaultDatatype)), t)
  {
    StringLiteralRoundTrip(data, t);
  }

  // ---------------------------------------------------------------- terms

  /** What may follow a written object without extending it. */
  predicate ObjectEnds(x: Object, t: string) {
    match x
    case IriRef(_) => true
    case BNode(_) => LabelEnds(t)
    case Lit(lit) => LiteralEnds(lit, t)
  }

  /** subject reads `<…>` as `IriRef` and `_:…` as `BNode`. */
  lemma SubjectRoundTrip(x: Subject, t: string)
    requires WellFormedSubject(x) && (x.BNode? ==> LabelEnds(t))
    ensures ParseSubject(SubjectText(x) + t) == Parsed(x, t)
  {
    match x
    case IriRef(iri) => IriRefRoundTrip(iri, t);
    case BNode(name) => BlankNodeLabelRoundTrip(name, t);
  }

  /** predicate reads `<…>` as `IriRef`. */
  lemma PredicateRoundTrip(x: Predicate, t: string)
    ensures ParsePredicate(PredicateText(x) + t) == Parsed(x, t)
  {
    IriRefRoundTrip(x.iri, t);
  }

  /** object reads `<…>` as `IriRef`, `_:…` as `BNode` and a literal as `Lit`. */
  lemma ObjectRoundTrip(x: Object, t: string)
    requires WellFormedObject(x) && ObjectEnds(x, t)
    ensures ParseObject(ObjectText(x) + t) == Parsed(x, t)
  {
    match x
    case IriRef(iri) => IriRefRoundTrip(iri, t);
    case BNode(name) => BlankNodeLabelRoundTrip(name, t);
    case Lit(lit) =>
      var s := LiteralText(lit) + t;
      assert s[0] == '"';
      LiteralRoundTrip(lit, t);
  }

  // ---------------------------------------------------------------- triple and line

  /**
   * After white space w, the rest c of a line is blank or a comment exactly
   * when c is empty or a `#` comment with no line break.
   */
  lemma BlankOrCommentSplit(w: string, c: string)
    requires forall i :: 0 <= i < |w| ==> IsWs(w[i])
    requires c == [] || !IsWs(c[0])
    ensures BlankOrComment(w + c) <==> c == [] || (c[0] == '#' && forall i :: 1 <= i < |c| ==> !IsEol(c[i]))
  {
    SkipsTo(w, c);
  }

  /**
   * After white space w, the rest c of a line ends a statement exactly when
   * it is a `.` followed by a blank or a comment.
   */
  lemma EndOfStatementSplit(w: string, c: string)
    requires forall i :: 0 <= i < |w| ==> IsWs(w[i])
    requires c == [] || !IsWs(c[0])
    ensures EndOfStatement(w + c) <==> |c| > 0 && c[0] == '.' && BlankOrComment(c[1..])
  {
    SkipsTo(w, c);
  }

  /** Skipping white space drops exactly the white space w in front of c. */
  lemma SkipsTo(w: string, c: string)
    requires forall i :: 0 <= i < |w| ==> IsWs(w[i])
    requires c == [] || !IsWs(c[0])
    ensures SkipWs(w + c) == c
  {
    SpanIs(IsWs, w + c, |w|);
    DropPrefix(w, c);
  }

  /** A non-empty run of spaces and tabs before a term is a separator that leaves the term. */
  lemma SeparatorRun(w: string, u: string)
    requires |w| > 0 && AllWs(w)
    requires u == [] || !IsWs(u[0])
    ensures Separator(w + u) == Some(u)
  {
    SkipsTo(w, u);
    FirstOf(w, u);
  }

  /**
   * triple accepts any non-empty run of spaces and tabs between the terms
   * and any run, empty included, before the `.`, as long as the object's
   * text is not extended by what follows it; it then reads the triple
   * exactly when a blank or a comment follows the `.`.
   */
  lemma TripleLayout(x: Triple, w1: string, w2: string, w3: string, comment: string)
    requires WellFormed(x)
    requires |w1| > 0 && AllWs(w1) && |w2| > 0 && AllWs(w2) && AllWs(w3)
    requires ObjectEnds(x.obj, w3 + ("." + comment))
    ensures ParseTriple(SubjectText(x.subject) + w1 + PredicateText(x.pred) + w2 + ObjectText(x.obj) + w3 + "." + comment)
         == if BlankOrComment(comment) then Success(x) else Failure
  {
    var t3 := w3 + ("." + comment);
    var u2 := ObjectText(x.obj) + t3;
    var t2 := w2 + u2;
    var u1 := PredicateText(x.pred) + t2;
    var t1 := w1 + u1;
    Regroup8(SubjectText(x.subject), w1, PredicateText(x.pred), w2, ObjectText(x.obj), w3, ".", comment);
    ObjectRoundTrip(x.obj, t3);
    assert u2[0] == '<' || u2[0] == '_' || u2[0] == '"';
    PredicateAfterRun(x.pred, w2, u2);
    SubjectAfterRun(x.subject, w1, u1);
    EndAfterRun(w3, comment);
    TripleSteps(SubjectText(x.subject) + t1, x, t1, u1, t2, u2, t3);
  }

  /** A written subject, then a run of white space before the next term. */
  lemma SubjectAfterRun(x: Subject, w: string, u: string)
    requires WellFormedSubject(x) && |w| > 0 && AllWs(w)
    requires u != [] && !IsWs(u[0])
    ensures ParseSubject(SubjectText(x) + (w + u)) == Parsed(x, w + u)
    ensures Separator(w + u) == Some(u)
  {
    FirstOf(w, u);
    SpanIs(LabelInner, w + u, 0);
    SubjectRoundTrip(x, w + u);
    SeparatorRun(w, u);
  }

  /** A written predicate, then a run of white space before the next term; it starts with `<`. */
  lemma PredicateAfterRun(x: Predicate, w: string, u: string)
    requires |w| > 0 && AllWs(w)
    requires u != [] && !IsWs(u[0])
    ensures ParsePredicate(PredicateText(x) + (w + u)) == Parsed(x, w + u)
    ensures Separator(w + u) == Some(u)
    ensures (PredicateText(x) + (w + u)) != [] && (PredicateText(x) + (w + u))[0] == '<'
  {
    PredicateRoundTrip(x, w + u);
    PredicateTextStarts(x);
    FirstOf(PredicateText(x), w + u);
    SeparatorRun(w, u);
  }

  /** White space, then `.`, ends a statement exactly when a blank or a comment follows. */
  lemma EndAfterRun(w: string, comment: string)
    requires AllWs(w)
    ensures EndOfStatement(w + ("." + comment)) <==> BlankOrComment(comment)
  {
    EndOfStatementSplit(w, "." + comment);
    DropPrefix(".", comment);
  }

  lemma Regroup8(a: string, b: string, c: string, d: string, e: string, f: string, g: string, h: string)
    ensures a + b + c + d + e + f + g + h == a + (b + (c + (d + (e + (f + (g + h))))))
  {
  }

  /** A space before a term is skipped, and nothing more. */
  lemma SkipOneSpace(u: string)
    requires u == [] || !IsWs(u[0])
    ensures SkipWs(" " + u) == u
  {
    SpanIs(IsWs, " " + u, 1);
  }

  /** triple chains its rules: each one starts where the one before it stopped. */
  lemma TripleSteps(s: string, x: Triple, t1: string, u1: string, t2: string, u2: string, t3: string)
    requires ParseSubject(s) == Parsed(x.subject, t1) && Separator(t1) == Some(u1)
    requires ParsePredicate(u1) == Parsed(x.pred, t2) && Separator(t2) == Some(u2)
    requires ParseObject(u2) == Parsed(x.obj, t3)
    ensures ParseTriple(s) == if EndOfStatement(t3) then Success(x) else Failure
  {
  }

  /** A single space before a term is a separator that leaves the term. */
  lemma SpaceSeparator(u: string)
    requires |u| > 0 && !IsWs(u[0])
    ensures Separator(" " + u) == Some(u)
  {
    SkipOneSpace(u);
  }

  /**
   * A subject and a predicate written with single spaces, then an object
   * whose text reads back, make the triple exactly when what follows the
   * object ends the statement.
   */
  lemma TripleFromObject(x: Triple, objText: string, tail: string)
    requires WellFormedSubject(x.subject)
    requires ParseObject(objText + tail) == Parsed(x.obj, tail)
    ensures ParseTriple(SubjectText(x.subject) + " " + PredicateText(x.pred) + " " + objText + tail)
         == if EndOfStatement(tail) then Success(x) else Failure
  {
    var u2 := objText + tail;
    var u1 := PredicateText(x.pred) + (" " + u2);
    var t1 := " " + u1;
    Regroup(SubjectText(x.subject), PredicateText(x.pred), objText, tail);
    LabelEndsAtSpace(u1);
    SubjectRoundTrip(x.subject, t1);
    PredicateTextStarts(x.pred);
    FirstOf(PredicateText(x.pred), " " + u2);
    SpaceSeparator(u1);
    PredicateThenObject(x.pred, x.obj, u2, tail);
    TripleSteps(SubjectText(x.subject) + t1, x, t1, u1, " " + u2, u2, tail);
  }

  /** A written predicate, a space and the object's text are read as the predicate and a separator. */
  lemma PredicateThenObject(p: Predicate, obj: Object, u2: string, tail: string)
    requires ParseObject(u2) == Parsed(obj, tail)
    ensures ParsePredicate(PredicateText(p) + (" " + u2)) == Parsed(p, " " + u2)
    ensures Separator(" " + u2) == Some(u2)
  {
    PredicateRoundTrip(p, " " + u2);
    assert u2[0] == '<' || u2[0] == '_' || u2[0] == '"';
    SpaceSeparator(u2);
  }

  /** A written predicate starts with `<`. */
  lemma PredicateTextStarts(x: Predicate)
    ensures |PredicateText(x)| > 0 && PredicateText(x)[0] == '<'
  {
  }

  lemma Regroup(a: string, b: string, c: string, d: string)
    ensures a + " " + b + " " + c + d == a + (" " + (b + (" " + (c + d))))
  {
  }

  /** A space cannot continue a blank node label. */
  lemma LabelEndsAtSpace(u: string)
    ensures LabelEnds(" " + u)
  {
    SpanIs(LabelInner, " " + u, 0);
  }

  /** ` .` ends a statement exactly when nothing, or only white space and a comment, follows it. */
  lemma EndAfterDot(tail: string)
    ensures EndOfStatement(" ." + tail) <==> BlankOrComment(tail)
  {
    SpaceDot(tail);
    SkipOneSpace("." + tail);
    DropFirst(".", tail);
  }

  lemma SpaceDot(tail: string)
    ensures " ." + tail == " " + ("." + tail)
  {
  }

  /**
   * triple reads back every well-formed triple, with or without a comment
   * after it, and rejects it when anything else follows the `.`.
   */
  lemma TripleRoundTrip(x: Triple, comment: string)
    requires WellFormed(x)
    ensures ParseTriple(TripleText(x) + comment) == if BlankOrComment(comment) then Success(x) else Failure
  {
    var tail := " " + ("." + comment);
    SpaceDot(comment);
    EndAfterDot(comment);
    ObjectEndsAtSpace(x.obj, "." + comment);
    ObjectRoundTrip(x.obj, tail);
    TripleFromObject(x, ObjectText(x.obj), tail);
    TripleTextIs(x, comment);
  }

  /** A written triple is its three terms, single spaces, and ` .` before what follows. */
  lemma TripleTextIs(x: Triple, comment: string)
    ensures TripleText(x) + comment
         == SubjectText(x.subject) + " " + PredicateText(x.pred) + " " + ObjectText(x.obj) + (" " + ("." + comment))
  {
    var a := SubjectText(x.subject) + " " + PredicateText(x.pred) + " " + ObjectText(x.obj);
    Assoc(a, " .", comment);
    SpaceDot(comment);
  }

  /** A statement whose object is followed by nothing, or only by white space and a comment, lacks its `.`. */
  lemma MissingDot(x: Triple, rest: string)
    requires WellFormed(x) && BlankOrComment(rest)
    ensures ParseTriple(SubjectText(x.subject) + " " + PredicateText(x.pred) + " " + ObjectText(x.obj) + rest) == Failure
  {
    BlankEndsObject(x.obj, rest);
    ObjectRoundTrip(x.obj, rest);
    TripleFromObject(x, ObjectText(x.obj), rest);
  }

  /** What is blank or a comment ends every term but not a statement. */
  lemma BlankEndsObject(x: Object, t: string)
    requires BlankOrComment(t)
    ensures ObjectEnds(x, t) && !EndOfStatement(t)
  {
    if t != [] {
      assert IsWs(t[0]) || t[0] == '#' by {
        if !IsWs(t[0]) {
          SpanIs(IsWs, t, 0);
        }
      }
      SpanIs(LabelInner, t, 0);
    }
  }

  /**
   * A literal carries a language tag or a datatype, not both: after
   * `"…"@tag` the `^^<iri>` is left over and the statement is rejected.
   */
  lemma DoubleAnnotation(s: Subject, p: Predicate, data: string, tag: string, iri: string)
    requires WellFormedSubject(s) && ValidLangTag(tag)
    ensures ParseTriple(SubjectText(s) + " " + PredicateText(p) + " " + QuoteText(data) + "@" + tag + "^^" + IriRefText(iri) + " .")
         == Failure
  {
    var x := Triple(s, p, Lit(Literal(data, Lang(tag))));
    var tail := "^^" + (IriRefText(iri) + " .");
    CaretsEnd(x.obj, IriRefText(iri) + " .");
    ObjectRoundTrip(x.obj, tail);
    TripleFromObject(x, ObjectText(x.obj), tail);
    Regroup7(SubjectText(s) + " " + PredicateText(p) + " ", QuoteText(data), "@", tag, "^^", IriRefText(iri), " .");
  }

  /**
   * The other order is rejected too: after `"…"^^<iri>` the `@tag` is left
   * over and the statement fails.
   */
  lemma DoubleAnnotationTypeFirst(s: Subject, p: Predicate, data: string, iri: string, tag: string)
    requires WellFormedSubject(s)
    ensures ParseTriple(SubjectText(s) + " " + PredicateText(p) + " " + QuoteText(data) + "^^" + IriRefText(iri) + "@" + tag + " .")
         == Failure
  {
    var x := Triple(s, p, Lit(Literal(data, Type(iri))));
    var tail := "@" + (tag + " .");
    SpanIs(IsWs, tail, 0);
    ObjectRoundTrip(x.obj, tail);
    TripleFromObject(x, ObjectText(x.obj), tail);
    Regroup7(SubjectText(s) + " " + PredicateText(p) + " ", QuoteText(data), "^^", IriRefText(iri), "@", tag, " .");
  }

  /** `^^` ends a language tag but not a statement. */
  lemma CaretsEnd(x: Object, u: string)
    requires x.Lit? && x.literal.dataType.Lang?
    ensures ObjectEnds(x, "^^" + u) && !EndOfStatement("^^" + u)
  {
    SpanIs(IsWs, "^^" + u, 0);
  }

  lemma Regroup7(a: string, b: string, c: string, d: string, e: string, f: string, g: string)
    ensures a + b + c + d + e + f + g == a + (b + (c + d)) + (e + (f + g))
  {
  }

  /** A space ends every object term. */
  lemma ObjectEndsAtSpace(x: Object, u: string)
    ensures ObjectEnds(x, " " + u)
  {
    LabelEndsAtSpace(u);
    assert (" " + u)[0] == ' ';
  }

  /** Leading spaces and tabs never change how a line is classified or read. */
  lemma LeadingWhitespace(w: string, s: string)
    requires forall i :: 0 <= i < |w| ==> IsWs(w[i])
    ensures ParseTripleLine(w + s) == ParseTripleLine(s)
  {
    var n := Span(IsWs, s);
    assert forall i :: 0 <= i < |w| + n ==> IsWs((w + s)[i]);
    SpanIs(IsWs, w + s, |w| + n);
    assert SkipWs(w + s) == SkipWs(s);
  }

  /** A line that starts with a term is neither blank nor a comment, and has no white space to skip. */
  lemma StatementLine(s: string)
    requires |s| > 0 && (s[0] == '<' || s[0] == '_')
    ensures !BlankOrComment(s) && SkipWs(s) == s
  {
    SpanIs(IsWs, s, 0);
  }

  /** A written triple starts with its subject's `<` or `_`. */
  lemma TripleTextStarts(x: Triple, comment: string)
    ensures |TripleText(x) + comment| > 0
    ensures (TripleText(x) + comment)[0] == '<' || (TripleText(x) + comment)[0] == '_'
  {
  }

  /** triple_line reads back every well-formed triple as `Some`, whatever white space leads it. */
  lemma TripleLineRoundTrip(x: Triple, w: string, comment: string)
    requires WellFormed(x) && BlankOrComment(comment)
    requires forall i :: 0 <= i < |w| ==> IsWs(w[i])
    ensures ParseTripleLine(w + TripleText(x) + comment) == Success(Some(x))
  {
    var line := TripleText(x) + comment;
    Assoc(w, TripleText(x), comment);
    LeadingWhitespace(w, line);
    TripleRoundTrip(x, comment);
    TripleTextStarts(x, comment);
    StatementLine(line);
  }
}
