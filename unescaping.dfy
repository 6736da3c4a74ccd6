/**
 * What IRIREF [8] and STRING_LITERAL_QUOTE [9] make of any body, piece by
 * piece: a run of raw characters is copied to the value, an escape gives
 * the character it stands for (section 8 of the N-Triples Recommendation),
 * the closing delimiter ends the value, and anything else (a raw character
 * the rule forbids, an unknown escape, a missing delimiter) makes the
 * token fail rather than pass through.
 */
module Unescaping {
  import opened Chars
  import opened Parsing
  import opened Tokens

  /** An opening delimiter, a run, one more piece and the rest, grouped from the right. */
  lemma Bracketed(open: string, a: string, m: string, b: string)
    ensures open + a + m + b == open + (a + (m + b))
  {
    Assoc4(open, a, m, b);
    Assoc(a, m, b);
  }

  /** The first k characters of a, then the rest of a and v. */
  lemma SplitBefore(a: string, k: nat, v: string)
    requires k <= |a|
    ensures a + v == a[..k] + (a[k..] + v)
  {
    assert a == a[..k] + a[k..];
    Assoc(a[..k], a[k..], v);
  }

  // ---------------------------------------------------------------- escapes and contents

  /** e is one whole UCHAR. */
  predicate IsUchar(e: string) {
    ParseUchar(e).Parsed? && ParseUchar(e).rest == []
  }

  /** e is one whole ECHAR. */
  predicate IsEchar(e: string) {
    ParseEchar(e).Parsed? && ParseEchar(e).rest == []
  }

  /** Text an IRI body reads through: raw IRI characters and UCHARs. */
  predicate IriContent(a: string)
    decreases |a|
  {
    || a == []
    || (IriRaw(a[0]) && IriContent(a[1..]))
    || (|a| >= 6 && IsUchar(a[..6]) && IriContent(a[6..]))
    || (|a| >= 10 && IsUchar(a[..10]) && IriContent(a[10..]))
  }

  /** Text a string body reads through: raw string characters, ECHARs and UCHARs. */
  predicate StringContent(a: string)
    decreases |a|
  {
    || a == []
    || (StringRaw(a[0]) && StringContent(a[1..]))
    || (|a| >= 2 && IsEchar(a[..2]) && StringContent(a[2..]))
    || (|a| >= 6 && IsUchar(a[..6]) && StringContent(a[6..]))
    || (|a| >= 10 && IsUchar(a[..10]) && StringContent(a[10..]))
  }

  /** A whole UCHAR reads the same whatever follows it. */
  lemma UcharExtends(e: string, w: string)
    requires IsUchar(e)
    ensures ParseUchar(e + w) == Parsed(ParseUchar(e).value, w)
  {
    var k := if e[1] == 'u' then 6 else 10;
    assert |e| == k;
    assert (e + w)[..k] == e && (e + w)[k..] == w;
    assert (e + w)[2..k] == e[2..k];
  }

  /** A whole UCHAR is an escape that reads the same whatever follows it. */
  lemma UcharEscape(e: string, w: string)
    requires IsUchar(e)
    ensures ParseEscape(e + w) == Parsed(ParseUchar(e).value, w)
  {
    UcharExtends(e, w);
    assert (e + w)[1] == e[1];
  }

  /** A whole ECHAR is an escape that reads the same whatever follows it. */
  lemma EcharEscape(e: string, w: string)
    requires IsEchar(e)
    ensures ParseEscape(e + w) == Parsed(ParseEchar(e).value, w)
  {
    assert (e + w)[..2] == e && (e + w)[2..] == w;
  }

  // ---------------------------------------------------------------- IRIREF bodies

  /** The opening `<` starts the body. */
  lemma BracketedIri(v: string)
    ensures ParseIriRef("<" + v) == IriBody(v)
  {
    DropPrefix("<", v);
  }

  lemma IriBodyRawStep(s: string)
    requires s != [] && IriRaw(s[0])
    ensures IriBody(s) == Prepend(s[0], IriBody(s[1..]))
  {
  }

  /** A run of raw characters inside an IRIREF is copied to the value. */
  lemma {:induction false} IriBodyRaw(a: string, v: string, d: string, t: string)
    requires AllIriRaw(a)
    requires IriBody(v) == Parsed(d, t)
    ensures IriBody(a + v) == Parsed(a + d, t)
    decreases |a|
  {
    if a != [] {
      var s := a + v;
      assert s[0] == a[0];
      DropFirst(a, v);
      IriBodyRawStep(s);
      IriBodyRaw(a[1..], v, d, t);
      DropFirst(a, d);
    } else {
      assert a + v == v && a + d == d;
    }
  }

  /** A run of raw characters does not rescue a body that fails after it. */
  lemma {:induction false} IriBodyRawStuck(a: string, v: string)
    requires AllIriRaw(a)
    requires IriBody(v) == NoParse
    ensures IriBody(a + v) == NoParse
    decreases |a|
  {
    if a != [] {
      var s := a + v;
      assert s[0] == a[0];
      DropFirst(a, v);
      IriBodyRawStep(s);
      IriBodyRawStuck(a[1..], v);
    } else {
      assert a + v == v;
    }
  }

  /** A UCHAR inside an IRIREF contributes the character it stands for, even one that could stand raw. */
  lemma IriBodyEscape(e: string, c: char, v: string, d: string, t: string)
    requires |e| > 0 && e[0] == '\\' && ParseUchar(e + v) == Parsed(c, v)
    requires IriBody(v) == Parsed(d, t)
    ensures IriBody(e + v) == Parsed([c] + d, t)
  {
    assert (e + v)[0] == '\\';
  }

  /** A UCHAR in front of a body that fails does not make it succeed. */
  lemma IriBodyEscapeStuck(e: string, c: char, v: string)
    requires |e| > 0 && e[0] == '\\' && ParseUchar(e + v) == Parsed(c, v)
    requires IriBody(v) == NoParse
    ensures IriBody(e + v) == NoParse
  {
    assert (e + v)[0] == '\\';
  }

  /** Raw characters and UCHARs in front of a body that fails do not make it succeed. */
  lemma {:induction false} IriBodyContentStuck(a: string, v: string)
    requires IriContent(a)
    requires IriBody(v) == NoParse
    ensures IriBody(a + v) == NoParse
    decreases |a|
  {
    if a == [] {
      assert a + v == v;
    } else if IriRaw(a[0]) && IriContent(a[1..]) {
      IriBodyContentStuck(a[1..], v);
      var s := a + v;
      assert s[0] == a[0];
      DropFirst(a, v);
      IriBodyRawStep(s);
    } else {
      var k := if |a| >= 6 && IsUchar(a[..6]) && IriContent(a[6..]) then 6 else 10;
      IriBodyContentStuck(a[k..], v);
      var e := a[..k];
      UcharExtends(e, a[k..] + v);
      IriBodyEscapeStuck(e, ParseUchar(e).value, a[k..] + v);
      SplitBefore(a, k, v);
    }
  }

  /** The closing `>` ends the value. */
  lemma IriBodyClose(t: string)
    ensures IriBody(">" + t) == Parsed([], t)
  {
    DropPrefix(">", t);
  }

  /** A piece that is neither `>` nor an IRI character stops the body. */
  lemma IriBodyStuck(v: string)
    requires v != [] && v[0] != '>' && IriChar(v) == NoParse
    ensures IriBody(v) == NoParse
  {
  }

  /** A run of raw characters is IRI content. */
  lemma {:induction false} IriRawContent(a: string)
    requires AllIriRaw(a)
    ensures IriContent(a)
    decreases |a|
  {
    if a != [] {
      IriRawContent(a[1..]);
    }
  }

  /**
   * A raw space, control character, `<`, `"`, `{`, `}`, `|`, `^` or
   * backquote inside an IRIREF makes it fail.
   */
  lemma IriRefRejectsRaw(a: string, c: char, b: string)
    requires IriContent(a) && !IriRaw(c) && c != '>' && c != '\\'
    ensures ParseIriRef("<" + a + [c] + b) == NoParse
  {
    var v := [c] + b;
    assert v[0] == c;
    IriBodyStuck(v);
    IriBodyContentStuck(a, v);
    Bracketed("<", a, [c], b);
    BracketedIri(a + v);
  }

  /** A backslash that does not start a valid UCHAR inside an IRIREF makes it fail. */
  lemma IriRefRejectsBadUchar(a: string, b: string)
    requires IriContent(a) && ParseUchar("\\" + b) == NoParse
    ensures ParseIriRef("<" + a + "\\" + b) == NoParse
  {
    var v := "\\" + b;
    assert v[0] == '\\';
    IriBodyStuck(v);
    IriBodyContentStuck(a, v);
    Bracketed("<", a, "\\", b);
    BracketedIri(a + v);
  }

  // ---------------------------------------------------------------- STRING_LITERAL_QUOTE bodies

  /** A run of raw characters inside a string literal is copied to the value. */
  lemma {:induction false} StringBodyRaw(a: string, v: string, d: string, t: string)
    requires AllStringRaw(a)
    requires StringBody(v) == Parsed(d, t)
    ensures StringBody(a + v) == Parsed(a + d, t)
    decreases |a|
  {
    if a != [] {
      var s := a + v;
      assert s[0] == a[0];
      DropFirst(a, v);
      StringBodyRawStep(s);
      StringBodyRaw(a[1..], v, d, t);
      DropFirst(a, d);
    } else {
      assert a + v == v && a + d == d;
    }
  }

  lemma StringBodyRawStep(s: string)
    requires s != [] && StringRaw(s[0])
    ensures StringBody(s) == Prepend(s[0], StringBody(s[1..]))
  {
  }

  /** An escape inside a string literal contributes the character it stands for. */
  lemma StringBodyEscape(e: string, c: char, v: string, d: string, t: string)
    requires |e| > 0 && e[0] == '\\' && ParseEscape(e + v) == Parsed(c, v)
    requires StringBody(v) == Parsed(d, t)
    ensures StringBody(e + v) == Parsed([c] + d, t)
  {
    assert (e + v)[0] == '\\';
  }

  /** The closing quote ends the value. */
  lemma StringBodyClose(t: string)
    ensures StringBody("\"" + t) == Parsed([], t)
  {
    DropPrefix("\"", t);
  }

  /** The opening quote starts the body. */
  lemma QuotedString(v: string)
    ensures ParseStringLiteralQuote("\"" + v) == StringBody(v)
  {
    DropPrefix("\"", v);
  }

  /** A run of raw characters does not rescue a body that fails after it. */
  lemma {:induction false} StringBodyRawStuck(a: string, v: string)
    requires AllStringRaw(a)
    requires StringBody(v) == NoParse
    ensures StringBody(a + v) == NoParse
    decreases |a|
  {
    if a != [] {
      var s := a + v;
      assert s[0] == a[0];
      DropFirst(a, v);
      StringBodyRawStep(s);
      StringBodyRawStuck(a[1..], v);
    } else {
      assert a + v == v;
    }
  }

  /** An escape in front of a body that fails does not make it succeed. */
  lemma StringBodyEscapeStuck(e: string, c: char, v: string)
    requires |e| > 0 && e[0] == '\\' && ParseEscape(e + v) == Parsed(c, v)
    requires StringBody(v) == NoParse
    ensures StringBody(e + v) == NoParse
  {
    assert (e + v)[0] == '\\';
  }

  /** Raw characters and escapes in front of a body that fails do not make it succeed. */
  lemma {:induction false} StringBodyContentStuck(a: string, v: string)
    requires StringContent(a)
    requires StringBody(v) == NoParse
    ensures StringBody(a + v) == NoParse
    decreases |a|
  {
    if a == [] {
      assert a + v == v;
    } else if StringRaw(a[0]) && StringContent(a[1..]) {
      StringBodyContentStuck(a[1..], v);
      var s := a + v;
      assert s[0] == a[0];
      DropFirst(a, v);
      StringBodyRawStep(s);
    } else if |a| >= 2 && IsEchar(a[..2]) && StringContent(a[2..]) {
      StringBodyContentStuck(a[2..], v);
      var e := a[..2];
      EcharEscape(e, a[2..] + v);
      StringBodyEscapeStuck(e, ParseEchar(e).value, a[2..] + v);
      SplitBefore(a, 2, v);
    } else {
      var k := if |a| >= 6 && IsUchar(a[..6]) && StringContent(a[6..]) then 6 else 10;
      StringBodyContentStuck(a[k..], v);
      var e := a[..k];
      UcharEscape(e, a[k..] + v);
      StringBodyEscapeStuck(e, ParseUchar(e).value, a[k..] + v);
      SplitBefore(a, k, v);
    }
  }

  /** A run of raw characters is string content. */
  lemma {:induction false} StringRawContent(a: string)
    requires AllStringRaw(a)
    ensures StringContent(a)
    decreases |a|
  {
    if a != [] {
      StringRawContent(a[1..]);
    }
  }

  /** A piece that is neither the closing quote nor a string character stops the body. */
  lemma StringBodyStuck(v: string)
    requires v != [] && v[0] != '"' && StringChar(v) == NoParse
    ensures StringBody(v) == NoParse
  {
  }

  /** A raw line feed or carriage return inside a string literal makes it fail. */
  lemma StringRejectsLineBreak(a: string, c: char, b: string)
    requires StringContent(a) && IsEol(c)
    ensures ParseStringLiteralQuote("\"" + a + [c] + b) == NoParse
  {
    var v := [c] + b;
    assert v[0] == c;
    StringBodyStuck(v);
    StringBodyContentStuck(a, v);
    Bracketed("\"", a, [c], b);
    QuotedString(a + v);
  }

  /** A backslash followed by anything but an ECHAR letter, `u` or `U` makes a string literal fail. */
  lemma StringRejectsUnknownEscape(a: string, e: char, b: string)
    requires StringContent(a) && e !in EcharLetters && e != 'u' && e != 'U'
    ensures ParseStringLiteralQuote("\"" + a + ("\\" + [e]) + b) == NoParse
  {
    var v := ("\\" + [e]) + b;
    assert v[0] == '\\' && v[1] == e;
    StringBodyStuck(v);
    StringBodyContentStuck(a, v);
    Bracketed("\"", a, "\\" + [e], b);
    QuotedString(a + v);
  }

  /** A string literal whose closing quote never comes is rejected. */
  lemma UnterminatedString(body: string)
    requires '"' !in body
    ensures ParseStringLiteralQuote("\"" + body) == NoParse
  {
    QuotedString(body);
  }
}
