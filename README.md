# ntriple: a Dafny model of the N-Triples line parser

This project models the line parser of the Rust crate `ntriple`. The crate
reads one line of an N-Triples document (W3C RDF 1.1 N-Triples) at a time.
It returns a `Triple` of a subject, a predicate and an object, or nothing
for a blank or comment line, or a parse error.

The crate declares its term types in `src/lib.rs`. Its grammar rules are
generated at build time from a grammar description, which is not part of
this model. So the rules are modelled from sections 7 (grammar) and 8
(parsing and unescaping) of the W3C RDF 1.1 N-Triples Recommendation. They
keep the rule names and the behaviour that `src/tests.rs` fixes.

Modules, one per file:

- `Terms` (`terms.dfy`): the term datatypes `Triple`, `Subject`,
  `Predicate`, `Object`, `TypeLang` and `Literal`. It also holds the
  datatype that an untagged literal gets. That datatype is left open as the
  constant `DefaultDatatype`.
- `Chars` (`chars.dfy`): the grammar's character classes, and hexadecimal
  digits with their round trip.
- `Parsing` (`parsing.dfy`): the common shape of a rule. A rule either
  fails (`NoParse`) or yields a value and the unconsumed rest (`Parsed`).
  `Advances` says that a success consumed a non-empty prefix. `Complete`
  runs a rule as a public entry point, which must consume the whole input.
- `Tokens` (`tokens.dfy`): the token rules `UCHAR`, `ECHAR`, `IRIREF`,
  `STRING_LITERAL_QUOTE`, `BLANK_NODE_LABEL` and `LANGTAG`.
- `Statements` (`statements.dfy`): the rules `literal`, `subject`,
  `predicate`, `object` and `triple`, and the line classifier
  `triple_line`.
- `Writer` (`writer.dfy`): the inverse of the parser. It writes every term
  and triple as N-Triples text, escaping what must be escaped.
- `Unescaping` (`unescaping.dfy`): what the `IRIREF` and
  `STRING_LITERAL_QUOTE` rules make of any body, piece by piece: raw runs
  are copied, escapes resolved, the closing delimiter ends the value, and
  a forbidden raw character, an unknown escape or a missing delimiter makes
  the token fail, whatever raw characters and valid escapes come before
  it.
- `RoundTrip` (`roundtrip.dfy`): every rule reads back what the writer
  writes, followed by any text that cannot extend the token, and leaves
  exactly that text as the rest.
- `UnitTests` (`unit_tests.dfy`): each unit test of `src/tests.rs` as a
  lemma about the parser, with its input and its expected value.

The parser is ordered-choice recursive descent, as the crate's generated
PEG parser is. `subject` tries `IRIREF` before `BLANK_NODE_LABEL`.
`object` tries `IRIREF`, then `BLANK_NODE_LABEL`, then `literal`. A
language tag takes every `-` group that follows it. A blank-node label is
the one exception to PEG greediness. It follows the regular-expression
reading of the W3C production `((PN_CHARS | '.')* PN_CHARS)?`: it takes
the longest run of label characters and then gives back any trailing dots.
A PEG star never gives anything back, and read as PEG that production
would make `_:abc.a` the label `a`, which the crate's test rejects. So the
crate's grammar differs from the production there. How it differs is not
visible, and the give-back is a modelling choice.

White space is handled as the crate's test cases show:

- Terms are separated by at least one space or tab (`RoundTrip.TripleLayout`).
- White space before the terminating `.` is optional, so `"object".` is a
  statement.
- After the `.` come optional white space and an optional `#` comment that
  runs to the end of the line.
- `triple_line` skips leading white space.
- A term rule (`subject`, `predicate`, `object`) stops right after its
  term. The white space that follows it is consumed by `triple`.

## Model

| member | source | states |
|---|---|---|
| Parsing.Delimited | src/lib.rs:46-48 | the body of an `IRIREF` or a string literal, read character by character up to its closing delimiter, consumes a non-empty prefix and ends on the delimiter |
| Chars.HexValue | src/lib.rs:46-48 | the number that the hex digits of a `UCHAR` write is below 16 to the power of their count |
| Chars.HexRoundTrip | src/lib.rs:46-48 | writing a number with k hex digits and reading them back gives the number (what `UCHAR` decoding relies on) |
| Tokens.ParseUchar | src/lib.rs:46-48 | `UCHAR` succeeds exactly on `\u` with four hex digits or `\U` with eight whose value is a Unicode scalar value (no surrogate, nothing past U+10FFFF), consumes exactly those, and yields the character with that code point |
| Tokens.ParseEchar | src/lib.rs:46-48 | `ECHAR` succeeds exactly on a backslash followed by one of `t b n r f " ' \`, and consumes those two characters; any other character after the backslash is rejected |
| Tokens.ParseEscape | src/lib.rs:46-48 | an escape inside a string literal is a backslash followed by an `ECHAR` letter, `u` or `U`; anything else after a backslash is rejected |
| Tokens.ParseIriRef | src/lib.rs:46-48 | `IRIREF` succeeds only on input that starts with `<`, and consumes up to and including a `>` |
| Tokens.IriChar | src/lib.rs:46-48 | a character inside an `IRIREF` is either a permitted raw character or starts a backslash escape |
| Tokens.IriBody | src/lib.rs:46-48 | the body of an `IRIREF` consumes a prefix that ends on its closing `>` |
| Tokens.ParseStringLiteralQuote | src/lib.rs:46-48 | `STRING_LITERAL_QUOTE` succeeds only on input that starts with `"`, and consumes up to and including the closing `"` |
| Tokens.StringChar | src/lib.rs:46-48 | a character inside a string literal is either a permitted raw character (no quote, backslash or line break) or starts a backslash escape |
| Tokens.StringBody | src/lib.rs:46-48 | the body of a string literal consumes a prefix that ends on its closing `"` |
| Tokens.ParseBlankNodeLabel | src/lib.rs:46-48 | `BLANK_NODE_LABEL` splits its input into `_:`, a valid label (one that does not end with `.`) and a rest that cannot extend the label |
| Tokens.LabelLength | src/lib.rs:46-48 | the label is the longest run of label characters less its trailing dots, and only dots were given back |
| Tokens.LastNonDot | src/lib.rs:46-48 | backing off trailing dots stops at the last character that is not a dot |
| Tokens.ParseLangTag | src/lib.rs:46-48 | `LANGTAG` splits its input into `@`, a valid tag (letters, then `-` groups of letters and digits) and a rest that cannot extend the tag |
| Tokens.LangTagLength | src/lib.rs:46-48 | the measured tag is valid, and what follows it cannot extend it |
| Tokens.SubtagsLength | src/lib.rs:46-48 | the measured run of `-` groups is a run of groups, and no further group follows it |
| Statements.ParseLiteral | src/lib.rs:34-44 | `literal` starts with a string literal and consumes a prefix of its input |
| Statements.LiteralOf | src/lib.rs:40-44 | once its string has been read, `literal` always succeeds and consumes a prefix of its input, with or without an annotation after the string |
| Statements.ParseAnnotation | src/lib.rs:34-38 | a `Type` annotation was written `^^<…>` and a `Lang` annotation was written `@…` |
| Statements.ParseSubject | src/lib.rs:16-20 | a subject is an `IriRef` exactly when the input starts with `<` and a `BNode` exactly when it starts with `_`; any other first character is rejected |
| Statements.SubjectOf | src/lib.rs:16-20 | the first alternative of `subject` that succeeds decides the variant, as in `ParseSubject` |
| Statements.ParsePredicate | src/lib.rs:22-25 | a predicate is only ever an `IriRef`; input that does not start with `<` is rejected |
| Statements.ParseObject | src/lib.rs:27-32 | an object is exactly one of `IriRef`, `BNode` or `Lit`, according to whether its input starts with `<`, `_` or `"`; any other first character is rejected |
| Statements.ObjectOf | src/lib.rs:27-32 | the first alternative of `object` that succeeds decides the variant, as in `ParseObject` |
| Statements.SkipWs | src/lib.rs:46-48 | skipping white space drops a prefix made only of spaces and tabs, and what remains does not start with white space |
| Statements.ParseTriple | src/lib.rs:8-13 | an accepted statement starts with `<` or `_`, and its subject is a blank node exactly when it starts with `_` |
| Statements.ParseTripleLine | src/tests.rs:135-173 | `triple_line` yields `None` exactly for blank, white-space-only and comment lines; otherwise it yields the triple that `triple` reads after the leading white space, or fails exactly when `triple` fails |
| RoundTrip.UcharRoundTrip | src/lib.rs:46-48 | `UCHAR` decodes the `\uXXXX` or `\UXXXXXXXX` escape of any character back to that character, and leaves the rest |
| RoundTrip.IriBodyRoundTrip | src/lib.rs:46-48 | the body of a written IRI, up to its `>`, reads back as the IRI |
| RoundTrip.IriRefRoundTrip | src/tests.rs:30-33 | `IRIREF` strips `<` and `>` and undoes every `UCHAR`: every IRI comes back unchanged, fragment included |
| RoundTrip.IriTextVerbatim | src/tests.rs:30-33 | an IRI with no character that needs escaping is written verbatim |
| RoundTrip.UnterminatedIriRef | src/lib.rs:46-48 | an `IRIREF` without a closing `>` is rejected |
| Unescaping.BracketedIri | src/lib.rs:46-48 | after the opening `<`, an `IRIREF` is read as its body |
| Unescaping.IriBodyRaw | src/tests.rs:30-33 | a run of permitted raw characters inside an `IRIREF` is copied to the value unchanged |
| Unescaping.IriBodyEscape | src/lib.rs:46-48 | a `UCHAR` inside an `IRIREF` contributes the character it stands for, even one that could stand raw |
| Unescaping.IriBodyClose | src/lib.rs:46-48 | the `>` ends an `IRIREF` and is not part of the value |
| Unescaping.IriBodyRawStuck | src/lib.rs:46-48 | raw characters in front of a body that fails do not make it succeed |
| Unescaping.IriBodyEscapeStuck | src/lib.rs:46-48 | a valid `UCHAR` in front of an IRI body that fails does not make it succeed |
| Unescaping.IriBodyContentStuck | src/lib.rs:46-48 | any mix of raw characters and valid `UCHAR`s in front of an IRI body that fails does not make it succeed |
| Unescaping.IriRawContent | src/lib.rs:46-48 | a run of raw IRI characters is text an IRI body reads through |
| Unescaping.UcharExtends | src/lib.rs:46-48 | a whole `UCHAR` reads as the same character whatever text follows it, and leaves that text |
| Unescaping.IriBodyStuck | src/lib.rs:46-48 | an IRI body fails at a piece that is neither `>` nor a raw character nor a valid `UCHAR` |
| Unescaping.IriRefRejectsRaw | src/lib.rs:46-48 | a raw space, control character, `<`, `"`, `{`, `}`, `\|`, `^` or backquote inside an `IRIREF` makes it fail, whatever raw characters and valid `UCHAR`s come before it |
| Unescaping.IriRefRejectsBadUchar | src/lib.rs:46-48 | a backslash inside an `IRIREF` that does not start a valid `UCHAR` makes it fail, whatever raw characters and valid `UCHAR`s come before it |
| Unescaping.QuotedString | src/lib.rs:46-48 | after the opening `"`, a string literal is read as its body |
| Unescaping.StringBodyRaw | src/tests.rs:24-27 | a run of permitted raw characters inside a string literal is copied to the value unchanged |
| Unescaping.StringBodyEscape | src/tests.rs:24-27 | an escape inside a string literal contributes the character it stands for |
| Unescaping.StringBodyClose | src/tests.rs:24-27 | the closing `"` ends a string literal and is not part of the value |
| Unescaping.StringBodyRawStuck | src/lib.rs:46-48 | raw characters in front of a string body that fails do not make it succeed |
| Unescaping.StringBodyEscapeStuck | src/lib.rs:46-48 | a valid escape in front of a string body that fails does not make it succeed |
| Unescaping.StringBodyContentStuck | src/lib.rs:46-48 | any mix of raw characters, `ECHAR`s and `UCHAR`s in front of a string body that fails does not make it succeed |
| Unescaping.StringRawContent | src/lib.rs:46-48 | a run of raw string characters is text a string body reads through |
| Unescaping.UcharEscape | src/lib.rs:46-48 | a whole `UCHAR` is an escape inside a string literal, whatever text follows it |
| Unescaping.EcharEscape | src/lib.rs:46-48 | a whole `ECHAR` is an escape inside a string literal, whatever text follows it |
| Unescaping.StringBodyStuck | src/lib.rs:46-48 | a string body fails at a piece that is neither `"` nor a raw character nor a valid escape |
| Unescaping.StringRejectsLineBreak | src/lib.rs:46-48 | a raw line feed or carriage return inside a string literal makes it fail, whatever raw characters and valid escapes come before it |
| Unescaping.StringRejectsUnknownEscape | src/lib.rs:46-48 | a backslash followed by anything but an `ECHAR` letter, `u` or `U` makes a string literal fail, whatever raw characters and valid escapes come before it: no backslash sequence passes through unresolved |
| Unescaping.UnterminatedString | src/lib.rs:46-48 | a string literal without its closing `"` is rejected |
| RoundTrip.StringBodyRoundTrip | src/lib.rs:46-48 | the body of a written string, up to its closing quote, reads back as the string |
| RoundTrip.EscapeRoundTrip | src/tests.rs:24-27 | the `ECHAR` for a quote, a backslash or a line break reads back as that character |
| RoundTrip.EcharRoundTrip | src/tests.rs:24-27 | each of the eight `ECHAR`s `\t \b \n \r \f \" \' \\` reads back as the character it stands for, by itself and as an escape in a string, and leaves the rest |
| RoundTrip.StringLiteralRoundTrip | src/tests.rs:24-27 | `STRING_LITERAL_QUOTE` drops the quotes and resolves the escapes: every string comes back unchanged |
| RoundTrip.StringTextVerbatim | src/tests.rs:24-27 | a string with no quote, backslash or line break is written verbatim |
| RoundTrip.BlankNodeLabelRoundTrip | src/tests.rs:18-21 | `BLANK_NODE_LABEL` strips `_:` and returns every valid label verbatim, interior dots included |
| RoundTrip.LabelLengthOf | src/tests.rs:18-21 | a valid label followed by text that cannot extend it is measured exactly |
| RoundTrip.SpanAppend | src/lib.rs:46-48 | a run over a prefix whose characters all qualify continues into what follows |
| RoundTrip.LastNonDotIs | src/lib.rs:46-48 | backing off trailing dots lands exactly after the last character that is not a dot |
| RoundTrip.LangTagRoundTrip | src/tests.rs:35-39 | `LANGTAG` strips `@` and returns every valid tag verbatim, subtags included |
| RoundTrip.LangTagLengthOf | src/tests.rs:35-39 | a valid tag followed by text that cannot extend it is measured exactly |
| RoundTrip.SubtagsLengthOf | src/tests.rs:35-39 | a run of `-` groups followed by text that cannot extend it is measured exactly |
| RoundTrip.AnnotationRoundTrip | src/tests.rs:42-61 | `@tag` reads back as `Lang(tag)` and `^^<iri>` as `Type(iri)` |
| RoundTrip.LiteralRoundTrip | src/tests.rs:42-61 | `literal` reads back every literal: its unescaped data and exactly one `TypeLang` |
| RoundTrip.UntaggedLiteral | src/tests.rs:135-143 | a string followed by anything that is not an annotation, the end of the input included, is a literal with the default datatype |
| RoundTrip.SubjectRoundTrip | src/tests.rs:72-90 | `subject` reads `<…>` back as `IriRef` and `_:…` as `BNode` |
| RoundTrip.PredicateRoundTrip | src/tests.rs:63-70 | `predicate` reads `<…>` back as `IriRef` |
| RoundTrip.ObjectRoundTrip | src/tests.rs:92-126 | `object` reads `<…>` back as `IriRef`, `_:…` as `BNode` and a literal as `Lit` |
| RoundTrip.TripleFromObject | src/tests.rs:128-133 | a subject and a predicate each followed by one space, then an object that reads back, make the triple exactly when what follows the object ends the statement, and fail otherwise |
| RoundTrip.TripleRoundTrip | src/tests.rs:128-133 | `triple` reads back every well-formed triple when only white space and a comment follow the `.`, and rejects it when anything else does |
| RoundTrip.EndAfterDot | src/tests.rs:128-133 | ` .` ends a statement exactly when nothing, or white space and a comment, follows it |
| RoundTrip.SeparatorRun | src/lib.rs:8-13 | any non-empty run of spaces and tabs before a term is a separator, and the next term starts after all of it |
| RoundTrip.TripleLayout | src/lib.rs:8-13 | `triple` accepts any non-empty run of spaces and tabs between the terms and any run before the `.`, and reads the triple exactly when a blank or a comment follows the `.` |
| RoundTrip.SubjectAfterRun | src/lib.rs:16-20 | a written subject followed by white space reads back and leaves the white space to the separator |
| RoundTrip.PredicateAfterRun | src/lib.rs:22-25 | a written predicate followed by white space reads back and leaves the white space to the separator |
| RoundTrip.EndAfterRun | src/tests.rs:128-143 | white space, possibly none, then `.` ends a statement exactly when a blank or a comment follows |
| RoundTrip.MissingDot | src/lib.rs:8-13 | a statement whose object is followed only by white space or a comment, without the `.`, is rejected |
| RoundTrip.BlankEndsObject | src/lib.rs:8-13 | white space or a comment ends every object term, but does not end a statement |
| RoundTrip.DoubleAnnotation | src/lib.rs:34-38 | a literal has a language tag or a datatype, not both: `"…"@tag^^<iri>` as an object makes the statement fail |
| RoundTrip.DoubleAnnotationTypeFirst | src/lib.rs:34-38 | the other order is rejected too: `"…"^^<iri>@tag` as an object makes the statement fail |
| RoundTrip.BlankOrCommentSplit | src/tests.rs:145-173 | after leading white space, a line is blank or a comment exactly when the rest is empty or a `#` comment without a line break |
| RoundTrip.EndOfStatementSplit | src/tests.rs:128-143 | after white space, the end of a statement is exactly a `.` followed by a blank or a comment |
| RoundTrip.SkipsTo | src/tests.rs:145-173 | skipping white space drops exactly the white space in front of the first other character |
| RoundTrip.LeadingWhitespace | src/tests.rs:145-173 | leading spaces and tabs never change what `triple_line` returns |
| RoundTrip.StatementLine | src/tests.rs:135-143 | a line that starts with `<` or `_` is neither blank nor a comment |
| RoundTrip.TripleLineRoundTrip | src/tests.rs:135-143 | `triple_line` yields `Some(x)` for every well-formed triple `x`, whatever white space leads it and whatever comment follows it |
| UnitTests.TestUchar | src/tests.rs:12-15 | `UCHAR` on the escape `\u12ab` gives the character U+12AB (`ካ`) |
| UnitTests.TestBlankNodeLabel | src/tests.rs:18-21 | `BLANK_NODE_LABEL("_:abc.a")` is `abc.a` |
| UnitTests.UcharThenSpace | src/lib.rs:46-48 | `<\u12ab b>`, a raw space after a `UCHAR`, is not an `IRIREF` |
| UnitTests.EcharThenLineBreak | src/lib.rs:46-48 | a string literal with a raw line feed after the escape `\t` is rejected |
| UnitTests.EcharThenUnknownEscape | src/lib.rs:46-48 | `"\t\q"`, an unknown escape after a valid one, is not a string literal |
| UnitTests.TermLeavesSpace | src/lib.rs:16-20 | `subject` on an IRI followed by a space, such as `<a> `, yields the `IriRef` and leaves the space, so as a whole-input call it fails |
| UnitTests.LabelGivesBackDot | src/tests.rs:18-21 | `BLANK_NODE_LABEL` on a valid label followed by a dot, such as `_:ab.`, yields the label and leaves the `.`, so as a whole-input call it fails |
| UnitTests.LabelBeforeDot | src/lib.rs:8-13 | a statement whose blank-node object is followed directly by the `.`, such as `<s> <p> _:o.`, is accepted with that `BNode` |
| UnitTests.TestStringLiteralQuote | src/tests.rs:24-27 | the test's string literal reads as the test's expected text, with `\"`, `\\` and `ካ` resolved |
| UnitTests.TestIriRef | src/tests.rs:30-33 | `IRIREF("<http://dit/is/een/iriref#fragment>")` is the IRI with its fragment |
| UnitTests.TestLangTag | src/tests.rs:35-39 | `LANGTAG("@nl-be")` is `nl-be` |
| UnitTests.TestLiteralLang | src/tests.rs:42-50 | the language-tagged test literal has its data and `Lang("en-gb")` |
| UnitTests.TestLiteralType | src/tests.rs:53-61 | the typed test literal has its data and `Type("http://example.org/some_type")` |
| UnitTests.TestPredicate | src/tests.rs:64-70 | the test predicate is `IriRef("http://example.org/predicate")` |
| UnitTests.TestSubjectIri | src/tests.rs:73-80 | the test subject `<…>` is `IriRef("http://example.org/subject")` |
| UnitTests.TestSubjectBNode | src/tests.rs:83-90 | the test subject `_:bnode` is `BNode("bnode")` |
| UnitTests.TestObjectIri | src/tests.rs:93-100 | the test object `<…>` is `IriRef("http://example.org/object")` |
| UnitTests.TestObjectBNode | src/tests.rs:103-110 | the test object `_:bnode` is `BNode("bnode")` |
| UnitTests.TestObjectLiteral | src/tests.rs:113-126 | the test object is `Lit` with data `0.95` and `Type("my::float::type")` |
| UnitTests.TestTriple | src/tests.rs:129-133 | the test statement is accepted, with white space before the `.`, a trailing comment and raw `<`, `>`, `'` and non-ASCII characters in its string, and it yields the expected triple |
| UnitTests.TestTripleLineTriple | src/tests.rs:136-143 | the test line with no space before the `.` gives `Some` of the expected triple |
| UnitTests.TestTripleLineComment | src/tests.rs:146-153 | a comment line with a leading space gives `None` |
| UnitTests.TestTripleLineEmpty | src/tests.rs:156-163 | the empty line gives `None` |
| UnitTests.TestTripleLineWhitespaces | src/tests.rs:166-173 | a line of tabs and spaces gives `None` |

## Left out

- Statements.ParseSubject, Statements.ParsePredicate,
  Statements.ParseObject: a term rule does not consume the white space
  after its term; `triple` does. So `subject("<a> ")` as a whole-input
  call fails (`UnitTests.TermLeavesSpace`). Statements read the same
  either way. Whether the crate's term rules consume trailing white space
  is settled by its grammar description, which is not part of this model.
- Tokens.ParseBlankNodeLabel: the trailing-dot back-off follows the W3C
  production's regular-expression reading. Two inputs depend on that
  choice. `_:ab.` as a whole `BLANK_NODE_LABEL`, `subject` or `object`
  call fails, because the label is `ab` and the `.` is left over
  (`UnitTests.LabelGivesBackDot`). A statement ending `_:o.` with no space
  before the `.` is accepted (`UnitTests.LabelBeforeDot`). A grammar whose label may end in `.` would
  do the opposite on both.

- The generated parser's internals: cursor positions, memoisation, and the
  concrete error type and message. A rule fails or succeeds; a failure
  carries no position and no kind.
- The build-time generation of the parser from its grammar description. The
  rules are written from the W3C grammar as functions on `string`.
- The concrete datatype IRI of an untagged literal. The crate does not
  state it in `src/lib.rs`, so `Terms.DefaultDatatype` has no value and
  every statement about untagged literals holds whatever it is.
- `#[derive(Debug)]` output and the `println!` in `src/tests.rs`: output
  only.
- Reading files or streams, and iterating over the lines of a document: the
  crate parses one line per call, and I/O is the caller's business.
- Whether a line with trailing white space after the `.` parses like the
  same line without it. Trailing white space after the `.` is accepted by
  `Statements.EndOfStatement`, but no lemma states that invariance.
- The Unicode tables behind PN_CHARS_BASE and PN_CHARS are written as the
  code-point ranges of the grammar (`Chars.PnCharsBase`, `Chars.PnChars`),
  and nothing is proved about the tables themselves.
- The W3C grammar allows terms with no white space between them (for
  example `<a><b><c>.`). The model requires at least one space or tab
  between subject, predicate and object. The crate's own grammar
  description, which would settle this, is not part of this model.
- Writer: it always writes a literal with its annotation, so an untagged
  literal comes back with the default datatype written out. It escapes only
  the characters that must be escaped. Other spellings that the parser
  also accepts, such as a `\u` escape of a plain letter or `\t` in a
  string, are not produced by the writer; what the parser makes of them is
  stated piece by piece by `Unescaping.IriBodyEscape`,
  `Unescaping.StringBodyEscape` and `RoundTrip.EcharRoundTrip`.
- Tokens.ParseUchar: a `UCHAR` whose value is a surrogate or lies past
  U+10FFFF is modelled as a failure of the rule, since Rust's `char`
  cannot hold it. The crate's generated code for this case is not part of
  this model; it might instead panic or substitute a character.
- UnitTests: the long test inputs are written as concatenations of their
  pieces, so that the verifier can take them apart. Each concatenation
  spells the test's literal string.
