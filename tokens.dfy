/**
 * The token rules of the N-Triples grammar (W3C RDF 1.1 N-Triples, section 7)
 * with the unescaping of section 8: UCHAR [10], ECHAR [153s], IRIREF [8],
 * STRING_LITERAL_QUOTE [9], BLANK_NODE_LABEL [141s] and LANGTAG [144s].
 * Each takes the input from its first character and returns the token's
 * value and the rest of the input, or fails.
 */
module Tokens {
  import opened Chars
  import opened Parsing

  // ---------------------------------------------------------------- escapes

  /** UCHAR: `\u` and four hex digits or `\U` and eight, read as a code point. */
  function ParseUchar(s: string): (r: Parse<char>)
    ensures Advances(s, r)
    ensures r.Parsed? <==>
      || (|s| >= 6 && s[0] == '\\' && s[1] == 'u' && AllHex(s[2..6]) && IsScalar(HexValue(s[2..6])))
      || (|s| >= 10 && s[0] == '\\' && s[1] == 'U' && AllHex(s[2..10]) && IsScalar(HexValue(s[2..10])))
    ensures r.Parsed? ==>
      && |s| >= 6 && s[0] == '\\' && (s[1] == 'u' || s[1] == 'U')
      && |r.rest| == |s| - (if s[1] == 'u' then 6 else 10)
    ensures r.Parsed? ==>
      var digits := s[2..|s| - |r.rest|];
      AllHex(digits) && r.value as int == HexValue(digits)
  {
    if |s| >= 6 && s[0] == '\\' && s[1] == 'u' && AllHex(s[2..6]) then
      CodePoint(HexValue(s[2..6]), s[6..])
    else if |s| >= 10 && s[0] == '\\' && s[1] == 'U' && AllHex(s[2..10]) then
      CodePoint(HexValue(s[2..10]), s[10..])
    else
      NoParse
  }

  /** The character with code point n; a surrogate or a number past U+10FFFF is no character. */
  function CodePoint(n: nat, rest: string): (r: Parse<char>)
    ensures r.Parsed? <==> IsScalar(n)
    ensures r.Parsed? ==> r.value as int == n && r.rest == rest
  {
    if IsScalar(n) then Parsed(n as char, rest) else NoParse
  }

  /** ECHAR: a backslash and one of t b n r f " ' \, read as the character it stands for. */
  function ParseEchar(s: string): (r: Parse<char>)
    ensures Advances(s, r)
    ensures r.Parsed? <==> |s| >= 2 && s[0] == '\\' && s[1] in EcharLetters
    ensures r.Parsed? ==> r.rest == s[2..]
  {
    if |s| >= 2 && s[0] == '\\' then
      var e := s[1];
      if e == 't' then Parsed('\t', s[2..])
      else if e == 'b' then Parsed('\U{8}', s[2..])
      else if e == 'n' then Parsed('\n', s[2..])
      else if e == 'r' then Parsed('\r', s[2..])
      else if e == 'f' then Parsed('\U{C}', s[2..])
      else if e == '"' then Parsed('"', s[2..])
      else if e == '\'' then Parsed('\'', s[2..])
      else if e == '\\' then Parsed('\\', s[2..])
      else NoParse
    else
      NoParse
  }

  /** ECHAR / UCHAR: any escape a string literal may hold. */
  function ParseEscape(s: string): (r: Parse<char>)
    ensures Advances(s, r)
    ensures r.Parsed? ==> |s| >= 2 && s[0] == '\\' && (s[1] in EcharLetters || s[1] == 'u' || s[1] == 'U')
  {
    match ParseEchar(s)
    case Parsed(c, t) => Parsed(c, t)
    case NoParse => ParseUchar(s)
  }

  // ---------------------------------------------------------------- IRIREF

  /** IRIREF: `<`, raw IRI characters and UCHARs, `>`; the value is the unescaped IRI. */
  function ParseIriRef(s: string): (r: Parse<string>)
    ensures Advances(s, r)
    ensures r.Parsed? ==> s[0] == '<' && s[|s| - |r.rest| - 1] == '>'
  {
    if |s| > 0 && s[0] == '<' then IriBody(s[1..]) else NoParse
  }

  /** One character of an IRI body other than the closing `>`: a raw IRI character or a UCHAR. */
  function IriChar(s: string): (r: Parse<char>)
    ensures Advances(s, r)
    ensures r.Parsed? ==> IriRaw(s[0]) || s[0] == '\\'
  {
    if s == [] then NoParse
    else if IriRaw(s[0]) then AdvancesOne(s, s[0]); Parsed(s[0], s[1..])
    else ParseUchar(s)
  }

  /** The part of an IRIREF after `<`, up to and including the closing `>`. */
  function IriBody(s: string): (r: Parse<string>)
    ensures Advances(s, r)
    ensures r.Parsed? ==> s[|s| - |r.rest| - 1] == '>'
  {
    Delimited(IriChar, '>', s)
  }

  // ---------------------------------------------------------------- STRING_LITERAL_QUOTE

  /** STRING_LITERAL_QUOTE: `"`, raw characters and escapes, `"`; the value is the unescaped text. */
  function ParseStringLiteralQuote(s: string): (r: Parse<string>)
    ensures Advances(s, r)
    ensures r.Parsed? ==> s[0] == '"' && s[|s| - |r.rest| - 1] == '"'
  {
    if |s| > 0 && s[0] == '"' then StringBody(s[1..]) else NoParse
  }

  /** One character of a string body other than the closing quote: a raw character or an escape. */
  function StringChar(s: string): (r: Parse<char>)
    ensures Advances(s, r)
    ensures r.Parsed? ==> StringRaw(s[0]) || s[0] == '\\'
  {
    if s == [] then NoParse
    else if StringRaw(s[0]) then AdvancesOne(s, s[0]); Parsed(s[0], s[1..])
    else ParseEscape(s)
  }

  /** The part of a string literal after the opening quote, up to and including the closing one. */
  function StringBody(s: string): (r: Parse<string>)
    ensures Advances(s, r)
    ensures r.Parsed? ==> s[|s| - |r.rest| - 1] == '"'
  {
    Delimited(StringChar, '"', s)
  }

  // ---------------------------------------------------------------- BLANK_NODE_LABEL

  /** A label as BLANK_NODE_LABEL writes it after `_:`. */
  predicate ValidLabel(name: string) {
    && |name| > 0
    && LabelStart(name[0])
    && (forall i :: 1 <= i < |name| ==> LabelInner(name[i]))
    && name[|name| - 1] != '.'
  }

  /** What may follow a label without extending it: any label characters next are all dots. */
  predicate LabelEnds(t: string) {
    forall i :: 0 <= i < Span(LabelInner, t) ==> t[i] == '.'
  }

  /**
   * BLANK_NODE_LABEL: `_:`, then the longest run of label characters that
   * starts with PN_CHARS_U or a digit and does not end with `.`.
   */
  function ParseBlankNodeLabel(s: string): (r: Parse<string>)
    ensures Advances(s, r)
    ensures r.Parsed? ==> s[0] == '_' && s == "_:" + r.value + r.rest && ValidLabel(r.value) && LabelEnds(r.rest)
  {
    if |s| >= 3 && s[0] == '_' && s[1] == ':' && LabelStart(s[2]) then
      var body := s[2..];
      var k := LabelLength(body);
      Reassemble(s, "_:", k);
      Parsed(body[..k], body[k..])
    else
      NoParse
  }

  /** The length of the label that starts body: its run of label characters less any trailing dots. */
  function LabelLength(body: string): (k: nat)
    requires |body| > 0 && LabelStart(body[0])
    ensures 1 <= k <= |body|
    ensures ValidLabel(body[..k])
    ensures LabelEnds(body[k..])
  {
    var n := 1 + Span(LabelInner, body[1..]);
    var k := LastNonDot(body, n);
    LabelPrefix(body, n, k);
    LabelRest(body, n, k);
    k
  }

  /** The run cut at k is a label. */
  lemma LabelPrefix(body: string, n: nat, k: nat)
    requires |body| > 0 && LabelStart(body[0])
    requires n == 1 + Span(LabelInner, body[1..])
    requires 1 <= k <= n && body[k - 1] != '.'
    ensures k <= |body| && ValidLabel(body[..k])
  {
    assert forall i :: 1 <= i < k ==> body[..k][i] == body[1..][i - 1];
  }

  /** What the run leaves after k is dots, then no label character. */
  lemma LabelRest(body: string, n: nat, k: nat)
    requires |body| > 0
    requires n == 1 + Span(LabelInner, body[1..])
    requires 1 <= k <= n
    requires forall i :: k <= i < n ==> body[i] == '.'
    ensures k <= |body| && LabelEnds(body[k..])
  {
    SpanSuffix(LabelInner, body[1..], k - 1);
    SliceShift(body, 1, k - 1);
    assert forall i :: 0 <= i < n - k ==> body[k..][i] == body[k + i];
  }

  /** The length of the longest prefix of s[..n] that does not end with `.`. */
  function LastNonDot(s: string, n: nat): (k: nat)
    requires 1 <= n <= |s| && s[0] != '.'
    ensures 1 <= k <= n && s[k - 1] != '.'
    ensures forall i :: k <= i < n ==> s[i] == '.'
  {
    if s[n - 1] != '.' then n else LastNonDot(s, n - 1)
  }

  /** Dropping j characters of a span leaves a span j shorter. */
  lemma {:induction false} SpanSuffix(p: char -> bool, s: string, j: nat)
    requires j <= Span(p, s)
    ensures Span(p, s[j..]) == Span(p, s) - j
  {
    if j > 0 {
      SliceShift(s, 1, j - 1);
      SpanSuffix(p, s[1..], j - 1);
    }
  }

  // ---------------------------------------------------------------- LANGTAG

  /** A tag as LANGTAG writes it after `@`: one or more letters, then subtags. */
  predicate ValidLangTag(tag: string) {
    Span(IsAlpha, tag) > 0 && Subtags(tag[Span(IsAlpha, tag)..])
  }

  /** `('-' [a-zA-Z0-9]+)*`, matched against the whole of q. */
  predicate Subtags(q: string)
    decreases |q|
  {
    q == [] || (|q| >= 2 && q[0] == '-' && IsAlnum(q[1]) && Subtags(q[1 + Span(IsAlnum, q[1..])..]))
  }

  /** The tag goes on past its leading letters. */
  predicate HasSubtags(tag: string) { Span(IsAlpha, tag) < |tag| }

  /** What may follow a tag without extending it. */
  predicate LangTagEnds(tag: string, t: string) {
    && !(|t| >= 2 && t[0] == '-' && IsAlnum(t[1]))
    && (|t| > 0 ==> if HasSubtags(tag) then !IsAlnum(t[0]) else !IsAlpha(t[0]))
  }

  /** LANGTAG: `@`, one or more letters, then any number of `-` and one or more letters or digits. */
  function ParseLangTag(s: string): (r: Parse<string>)
    ensures Advances(s, r)
    ensures r.Parsed? ==> s == "@" + r.value + r.rest && ValidLangTag(r.value) && LangTagEnds(r.value, r.rest)
  {
    if |s| >= 2 && s[0] == '@' && IsAlpha(s[1]) then
      var k := LangTagLength(s[1..]);
      Reassemble(s, "@", k);
      Parsed(s[1..][..k], s[1..][k..])
    else
      NoParse
  }

  /** The length of the tag that starts s: its letters, then its subtags. */
  function LangTagLength(s: string): (k: nat)
    requires |s| > 0 && IsAlpha(s[0])
    ensures 1 <= k <= |s|
    ensures ValidLangTag(s[..k])
    ensures LangTagEnds(s[..k], s[k..])
  {
    var n := Span(IsAlpha, s);
    var m := SubtagsLength(s[n..]);
    LangTagPrefix(s, n, m);
    n + m
  }

  /** Letters followed by subtags make a tag, and what follows cannot extend it. */
  lemma LangTagPrefix(s: string, n: nat, m: nat)
    requires |s| > 0 && IsAlpha(s[0])
    requires n == Span(IsAlpha, s) && GroupsEndAt(s[n..], m)
    ensures ValidLangTag(s[..n + m])
    ensures LangTagEnds(s[..n + m], s[n + m..])
  {
    var tag, sub := s[..n + m], s[n..];
    assert m > 0 ==> tag[n] == sub[0] == '-';
    assert forall i :: 0 <= i < n ==> tag[i] == s[i];
    SpanIs(IsAlpha, tag, n);
    SliceShift(s, n, m);
  }

  /**
   * The first m characters of s are subtag groups, and the groups stop
   * there: no further `-` and letter or digit follows, and a non-empty run
   * of groups is not followed by another letter or digit.
   */
  predicate GroupsEndAt(s: string, m: nat) {
    && m <= |s|
    && Subtags(s[..m])
    && !(|s| - m >= 2 && s[m] == '-' && IsAlnum(s[m + 1]))
    && (m > 0 && m < |s| ==> !IsAlnum(s[m]))
  }

  /** The length of the `('-' [a-zA-Z0-9]+)*` groups at the start of s. */
  function SubtagsLength(s: string): (m: nat)
    ensures GroupsEndAt(s, m)
    decreases |s|
  {
    if |s| >= 2 && s[0] == '-' && IsAlnum(s[1]) then
      var k := 1 + Span(IsAlnum, s[1..]);
      GroupsAfter(s, k, SubtagsLength(s[k..]))
    else
      NoGroups(s);
      0
  }

  /** Without a `-` and a letter or digit at its start, s has no groups. */
  lemma NoGroups(s: string)
    requires !(|s| >= 2 && s[0] == '-' && IsAlnum(s[1]))
    ensures GroupsEndAt(s, 0)
  {
    assert s[..0] == [];
  }

  /** Where the groups of s end, given a first group of length k and the groups after it. */
  function GroupsAfter(s: string, k: nat, m': nat): (m: nat)
    requires |s| >= 2 && s[0] == '-' && IsAlnum(s[1])
    requires k == 1 + Span(IsAlnum, s[1..])
    requires GroupsEndAt(s[k..], m')
    ensures GroupsEndAt(s, m)
  {
    GroupsThen(s, k, m');
    k + m'
  }

  /** A first group of length k, then groups that end at m' after it, end at k + m'. */
  lemma GroupsThen(s: string, k: nat, m': nat)
    requires |s| >= 2 && s[0] == '-' && IsAlnum(s[1])
    requires k == 1 + Span(IsAlnum, s[1..])
    requires GroupsEndAt(s[k..], m')
    ensures GroupsEndAt(s, k + m')
  {
    SubtagsStep(s, k, m');
    SubtagsStop(s, k, m');
  }

  /** One group, then the groups after it, are groups. */
  lemma SubtagsStep(s: string, k: nat, m': nat)
    requires |s| >= 2 && s[0] == '-' && IsAlnum(s[1])
    requires k == 1 + Span(IsAlnum, s[1..])
    requires m' <= |s[k..]| && Subtags(s[k..][..m'])
    ensures Subtags(s[..k + m'])
  {
    var q := s[..k + m'];
    if m' > 0 {
      assert s[k..][..m'][0] == s[k];
    }
    assert forall i :: 0 <= i < k - 1 ==> q[1..][i] == s[1..][i];
    assert k - 1 < |q[1..]| ==> q[1..][k - 1] == s[k];
    SpanIs(IsAlnum, q[1..], k - 1);
    SliceShift(s, k, m');
  }

  /** Where the groups after the first one stop, the groups of s stop. */
  lemma SubtagsStop(s: string, k: nat, m': nat)
    requires |s| >= 1 && k == 1 + Span(IsAlnum, s[1..])
    requires m' <= |s[k..]|
    requires !(|s[k..]| - m' >= 2 && s[k..][m'] == '-' && IsAlnum(s[k..][m' + 1]))
    requires m' > 0 && m' < |s[k..]| ==> !IsAlnum(s[k..][m'])
    ensures !(|s| - (k + m') >= 2 && s[k + m'] == '-' && IsAlnum(s[k + m' + 1]))
    ensures k + m' < |s| ==> !IsAlnum(s[k + m'])
  {
    if k + m' < |s| {
      assert s[k..][m'] == s[k + m'];
      if m' == 0 {
        assert s[1..][k - 1] == s[k];
      }
    }
    if k + m' + 1 < |s| {
      assert s[k..][m' + 1] == s[k + m' + 1];
    }
  }
}
