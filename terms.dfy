/**
 * The values a parsed N-Triples line produces: one `Triple` of a subject,
 * a predicate and an object. Strings are stored unescaped and without
 * their delimiters (no `<`/`>` around IRIs, no `_:` before blank-node
 * labels, no quotes around literal data).
 */
module Terms {

  /** One statement: exactly one subject, one predicate and one object. */
  datatype Triple = Triple(subject: Subject, pred: Predicate, obj: Object)

  /** A subject is an IRI or a blank node, never a literal. */
  datatype Subject = IriRef(iri: string) | BNode(name: string)

  /** A predicate is always an IRI. */
  datatype Predicate = IriRef(iri: string)

  /** An object is an IRI, a blank node or a literal. */
  datatype Object = IriRef(iri: string) | BNode(name: string) | Lit(literal: Literal)

  /** Exactly one of a language tag or a datatype IRI. */
  datatype TypeLang = Lang(tag: string) | Type(iri: string)

  /** The unescaped lexical form and its language tag or datatype. */
  datatype Literal = Literal(data: string, dataType: TypeLang)

  /**
   * The datatype given to a literal written with neither `@tag` nor
   * `^^<iri>`. Which IRI the crate uses is not visible, so it is left open:
   * every statement about untagged literals holds whatever its value is.
   */
  const DefaultDatatype: string
}
