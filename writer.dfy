/**
 * The inverse of the parser: writes terms and triples as N-Triples text.
 * IRIs escape every character IRIREF may not hold raw as a UCHAR; strings
 * escape `"`, `\`, line feed and carriage return as ECHARs. A literal is
 * always written with its annotation, so an untagged literal comes back
 * with the default datatype written out.
 */
module Writer {
  import opened Chars
  import opened Terms
  import opened Tokens

  /** `\uXXXX` for the Basic Multilingual Plane, `\UXXXXXXXX` beyond it. */
  function UcharText(c: char): string {
    var n := c as int;
    if n < 0x1_0000 then "\\u" + HexDigits(n, 4) else "\\U" + HexDigits(n, 8)
  }

  function IriCharText(c: char): string {
    if IriRaw(c) then [c] else UcharText(c)
  }

  function IriText(iri: string): string {
    if iri == [] then [] else IriCharText(iri[0]) + IriText(iri[1..])
  }

  function IriRefText(iri: string): string {
    "<" + IriText(iri) + ">"
  }

  function StringCharText(c: char): string {
    if c == '"' then "\\\""
    else if c == '\\' then "\\\\"
    else if c == '\n' then "\\n"
    else if c == '\r' then "\\r"
    else [c]
  }

  /** The ECHAR that writes EcharValues[i]: a backslash and EcharLetters[i]. */
  function EcharText(i: nat): string
    requires i < |EcharLetters|
  {
    "\\" + [EcharLetters[i]]
  }

  function StringText(data: string): string {
    if data == [] then [] else StringCharText(data[0]) + StringText(data[1..])
  }

  function QuoteText(data: string): string {
    "\"" + StringText(data) + "\""
  }

  function AnnotationText(kind: TypeLang): string {
    match kind
    case Lang(tag) => "@" + tag
    case Type(iri) => "^^" + IriRefText(iri)
  }

  function LiteralText(lit: Literal): string {
    QuoteText(lit.data) + AnnotationText(lit.dataType)
  }

  function SubjectText(x: Subject): string {
    match x
    case IriRef(iri) => IriRefText(iri)
    case BNode(name) => "_:" + name
  }

  function PredicateText(x: Predicate): string {
    IriRefText(x.iri)
  }

  function ObjectText(x: Object): string {
    match x
    case IriRef(iri) => IriRefText(iri)
    case BNode(name) => "_:" + name
    case Lit(lit) => LiteralText(lit)
  }

  /** One statement: the three terms separated by spaces, then ` .`. */
  function TripleText(x: Triple): string {
    SubjectText(x.subject) + " " + PredicateText(x.pred) + " " + ObjectText(x.obj) + " ."
  }

  /** A literal whose language tag, if it has one, can be written. */
  predicate WellFormedLiteral(lit: Literal) {
    lit.dataType.Lang? ==> ValidLangTag(lit.dataType.tag)
  }

  predicate WellFormedSubject(x: Subject) {
    x.BNode? ==> ValidLabel(x.name)
  }

  predicate WellFormedObject(x: Object) {
    match x
    case IriRef(_) => true
    case BNode(name) => ValidLabel(name)
    case Lit(lit) => WellFormedLiteral(lit)
  }

  /** A triple every label and tag of which can be written: every IRI and every string can. */
  predicate WellFormed(x: Triple) {
    WellFormedSubject(x.subject) && WellFormedObject(x.obj)
  }
}
