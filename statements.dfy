/**
 * The term rules and the statement rules of the N-Triples grammar: literal
 * [6], subject [3], predicate [4], object [5] and triple [2], and the line
 * classifier `triple_line`, which reads one line of an N-Triples document
 * and yields a triple, nothing (blank or comment line), or a parse error.
 */
module Statements {
  import opened Chars
  import opened Parsing
  import opened Terms
  import opened Tokens

  // ---------------------------------------------------------------- literal

  /**
   * literal: a string, then `^^` and a datatype IRI, or a language tag, or
   * neither. Without either, the literal gets the default datatype.
   */
  function ParseLiteral(s: string): (r: Parse<Literal>)
    ensures Advances(s, r)
    ensures r.Parsed? ==> s[0] == '"'
  {
    match ParseStringLiteralQuote(s)
    case NoParse => NoParse
    case Parsed(data, t) => LiteralOf(s, data, t, ParseAnnotation(t))
  }

  /**
   * The literal whose string data ends where t starts: with the annotation
   * read from t if there is one, and with the default datatype otherwise.
   */
  function LiteralOf(s: string, data: string, t: string, kind: Parse<TypeLang>): (r: Parse<Literal>)
    requires |t| < |s| && t == s[|s| - |t|..] && s[0] == '"'
    requires Advances(t, kind)
    ensures Advances(s, r) && r.Parsed? && s[0] == '"'
  {
    match kind
    case Parsed(k, u) =>
      AdvancesFrom(s, t, kind);
      Parsed(Literal(data, k), u)
    case NoParse => Parsed(Literal(data, Type(DefaultDatatype)), t)
  }

  /** `'^^' IRIREF | LANGTAG`: the annotation after a literal's string. */
  function ParseAnnotation(s: string): (r: Parse<TypeLang>)
    ensures Advances(s, r)
    ensures r.Parsed? && r.value.Type? ==> |s| >= 2 && s[0] == '^' && s[1] == '^'
    ensures r.Parsed? && r.value.Lang? ==> s[0] == '@'
  {
    if |s| >= 2 && s[0] == '^' && s[1] == '^' then
      match ParseIriRef(s[2..])
      case Parsed(iri, u) => AdvancesFrom(s, s[2..], ParseIriRef(s[2..])); Parsed(Type(iri), u)
      case NoParse => NoParse
    else
      match ParseLangTag(s)
      case Parsed(tag, u) => Parsed(Lang(tag), u)
      case NoParse => NoParse
  }

  // ---------------------------------------------------------------- terms

  /** subject: IRIREF or BLANK_NODE_LABEL, tried in that order. */
  function ParseSubject(s: string): (r: Parse<Subject>)
    ensures Advances(s, r)
    ensures r.Parsed? ==> (r.value.IriRef? <==> s[0] == '<') && (r.value.BNode? <==> s[0] == '_')
    ensures |s| > 0 && s[0] != '<' && s[0] != '_' ==> r == NoParse
  {
    SubjectOf(s, ParseIriRef(s), ParseBlankNodeLabel(s))
  }

  /** The first of the two alternatives of subject that succeeds, as a subject term. */
  function SubjectOf(s: string, iri: Parse<string>, bnode: Parse<string>): (r: Parse<Subject>)
    requires Advances(s, iri) && (iri.Parsed? ==> s[0] == '<')
    requires Advances(s, bnode) && (bnode.Parsed? ==> s[0] == '_')
    ensures Advances(s, r)
    ensures r.Parsed? ==> (r.value.IriRef? <==> s[0] == '<') && (r.value.BNode? <==> s[0] == '_')
    ensures |s| > 0 && s[0] != '<' && s[0] != '_' ==> r == NoParse
  {
    match iri
    case Parsed(v, t) => Parsed(Subject.IriRef(v), t)
    case NoParse =>
      match bnode
      case Parsed(name, t) => Parsed(Subject.BNode(name), t)
      case NoParse => NoParse
  }

  /** predicate: IRIREF only. */
  function ParsePredicate(s: string): (r: Parse<Predicate>)
    ensures Advances(s, r)
    ensures |s| > 0 && s[0] != '<' ==> r == NoParse
  {
    match ParseIriRef(s)
    case Parsed(iri, t) => Parsed(Predicate.IriRef(iri), t)
    case NoParse => NoParse
  }

  /** object: IRIREF, BLANK_NODE_LABEL or literal, tried in that order. */
  function ParseObject(s: string): (r: Parse<Object>)
    ensures Advances(s, r)
    ensures r.Parsed? ==>
      && (r.value.IriRef? <==> s[0] == '<')
      && (r.value.BNode? <==> s[0] == '_')
      && (r.value.Lit? <==> s[0] == '"')
    ensures |s| > 0 && s[0] != '<' && s[0] != '_' && s[0] != '"' ==> r == NoParse
  {
    ObjectOf(s, ParseIriRef(s), ParseBlankNodeLabel(s), ParseLiteral(s))
  }

  /** The first of the three alternatives of object that succeeds, as an object term. */
  function ObjectOf(s: string, iri: Parse<string>, bnode: Parse<string>, lit: Parse<Literal>): (r: Parse<Object>)
    requires Advances(s, iri) && (iri.Parsed? ==> s[0] == '<')
    requires Advances(s, bnode) && (bnode.Parsed? ==> s[0] == '_')
    requires Advances(s, lit) && (lit.Parsed? ==> s[0] == '"')
    ensures Advances(s, r)
    ensures r.Parsed? ==>
      && (r.value.IriRef? <==> s[0] == '<')
      && (r.value.BNode? <==> s[0] == '_')
      && (r.value.Lit? <==> s[0] == '"')
    ensures |s| > 0 && s[0] != '<' && s[0] != '_' && s[0] != '"' ==> r == NoParse
  {
    match iri
    case Parsed(v, t) => Parsed(Object.IriRef(v), t)
    case NoParse =>
      match bnode
      case Parsed(name, t) => Parsed(Object.BNode(name), t)
      case NoParse =>
        match lit
        case Parsed(l, t) => Parsed(Lit(l), t)
        case NoParse => NoParse
  }

  // ---------------------------------------------------------------- white space and comments

  /** s without its leading spaces and tabs. */
  function SkipWs(s: string): (r: string)
    ensures |r| <= |s| && r == s[|s| - |r|..]
    ensures r == [] || !IsWs(r[0])
    ensures forall i :: 0 <= i < |s| - |r| ==> IsWs(s[i])
  {
    s[Span(IsWs, s)..]
  }

  /** `#` and the rest of the line. */
  predicate IsComment(s: string) {
    |s| > 0 && s[0] == '#' && forall i :: 1 <= i < |s| ==> !IsEol(s[i])
  }

  /** Spaces and tabs, then optionally a comment, then the end of the line. */
  predicate BlankOrComment(s: string) {
    var u := SkipWs(s);
    u == [] || IsComment(u)
  }

  /** What ends a statement: white space, `.`, then a blank or comment to the end of the line. */
  predicate EndOfStatement(s: string) {
    var u := SkipWs(s);
    |u| > 0 && u[0] == '.' && BlankOrComment(u[1..])
  }

  /** At least one space or tab, which the next term follows. */
  function Separator(s: string): (r: Option<string>)
    ensures r.Some? <==> |s| > 0 && IsWs(s[0])
    ensures r.Some? ==> r.value == SkipWs(s)
  {
    if |s| > 0 && IsWs(s[0]) then Some(SkipWs(s)) else None
  }

  // ---------------------------------------------------------------- triple and line

  /**
   * triple: subject, white space, predicate, white space, object, optional
   * white space, `.`, optional white space and comment; the whole input.
   */
  function ParseTriple(s: string): (r: Result<Triple>)
    ensures r.Success? ==> |s| > 0 && (s[0] == '<' || s[0] == '_')
    ensures r.Success? ==> (r.value.subject.BNode? <==> s[0] == '_')
  {
    match ParseSubject(s)
    case NoParse => Failure
    case Parsed(subj, t1) =>
      match Separator(t1)
      case None => Failure
      case Some(u1) =>
        match ParsePredicate(u1)
        case NoParse => Failure
        case Parsed(pred, t2) =>
          match Separator(t2)
          case None => Failure
          case Some(u2) =>
            match ParseObject(u2)
            case NoParse => Failure
            case Parsed(obj, t3) =>
              if EndOfStatement(t3) then Success(Triple(subj, pred, obj)) else Failure
  }

  /**
   * triple_line: a blank line, a white-space-only line or a comment line
   * gives no triple; any other line must be one statement, after optional
   * leading white space.
   */
  function ParseTripleLine(s: string): (r: Result<Option<Triple>>)
    ensures r == Success(None) <==> BlankOrComment(s)
    ensures r.Success? && r.value.Some? ==> ParseTriple(SkipWs(s)) == Success(r.value.value)
    ensures r.Failure? ==> ParseTriple(SkipWs(s)).Failure?
  {
    if BlankOrComment(s) then Success(None)
    else
      match ParseTriple(SkipWs(s))
      case Success(t) => Success(Some(t))
      case Failure => Failure
  }
}
