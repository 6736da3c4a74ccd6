/**
 * Character classes of the N-Triples grammar and hexadecimal digits.
 *
 * The ranges follow the N-Triples Recommendation (W3C RDF 1.1, section 7):
 * PN_CHARS_BASE [157s], PN_CHARS_U [158s], PN_CHARS [160s], HEX [162s].
 */
module Chars {

  /** White space that may separate terms on a line: space or tab. */
  predicate IsWs(c: char) { c == ' ' || c == '\t' }

  /** A run of spaces and tabs, possibly empty. */
  predicate AllWs(s: string) { forall i :: 0 <= i < |s| ==> IsWs(s[i]) }

  /** End-of-line characters; a comment runs up to, not over, them. */
  predicate IsEol(c: char) { c == '\n' || c == '\r' }

  predicate IsDigit(c: char) { '0' <= c <= '9' }

  predicate IsAlpha(c: char) { 'a' <= c <= 'z' || 'A' <= c <= 'Z' }

  predicate IsAlnum(c: char) { IsAlpha(c) || IsDigit(c) }

  predicate IsHex(c: char) { IsDigit(c) || 'a' <= c <= 'f' || 'A' <= c <= 'F' }

  predicate AllHex(s: string) { forall i :: 0 <= i < |s| ==> IsHex(s[i]) }

  /** PN_CHARS_BASE: the letters a blank-node label may be built from. */
  predicate PnCharsBase(c: char) {
    || 'A' <= c <= 'Z'
    || 'a' <= c <= 'z'
    || '\U{C0}' <= c <= '\U{D6}'
    || '\U{D8}' <= c <= '\U{F6}'
    || '\U{F8}' <= c <= '\U{2FF}'
    || '\U{370}' <= c <= '\U{37D}'
    || '\U{37F}' <= c <= '\U{1FFF}'
    || '\U{200C}' <= c <= '\U{200D}'
    || '\U{2070}' <= c <= '\U{218F}'
    || '\U{2C00}' <= c <= '\U{2FEF}'
    || '\U{3001}' <= c <= '\U{D7FF}'
    || '\U{F900}' <= c <= '\U{FDCF}'
    || '\U{FDF0}' <= c <= '\U{FFFD}'
    || '\U{10000}' <= c <= '\U{EFFFF}'
  }

  /** PN_CHARS_U: PN_CHARS_BASE, '_' or ':'. */
  predicate PnCharsU(c: char) { PnCharsBase(c) || c == '_' || c == ':' }

  /** PN_CHARS: the characters that may end a blank-node label. */
  predicate PnChars(c: char) {
    || PnCharsU(c)
    || c == '-'
    || IsDigit(c)
    || c == '\U{B7}'
    || '\U{300}' <= c <= '\U{36F}'
    || '\U{203F}' <= c <= '\U{2040}'
  }

  /** The first character of a blank-node label: PN_CHARS_U or a digit. */
  predicate LabelStart(c: char) { PnCharsU(c) || IsDigit(c) }

  /** A character inside a blank-node label: PN_CHARS or '.'. */
  predicate LabelInner(c: char) { PnChars(c) || c == '.' }

  /**
   * A character that may stand unescaped inside an IRIREF [8]: anything but
   * U+0000..U+0020 and the delimiters < > " { } | ^ ` \.
   */
  predicate IriRaw(c: char) {
    && c > ' '
    && c != '<' && c != '>' && c != '"' && c != '{' && c != '}'
    && c != '|' && c != '^' && c != '`' && c != '\\'
  }

  /** A character that may stand unescaped inside STRING_LITERAL_QUOTE [9]. */
  predicate StringRaw(c: char) { c != '"' && c != '\\' && !IsEol(c) }

  /** An IRI none of whose characters needs escaping. */
  predicate AllIriRaw(s: string) { forall i :: 0 <= i < |s| ==> IriRaw(s[i]) }

  /** A string none of whose characters needs escaping. */
  predicate AllStringRaw(s: string) { forall i :: 0 <= i < |s| ==> StringRaw(s[i]) }

  /**
   * The ECHAR [153s] table of section 8 of the N-Triples Recommendation:
   * `\` followed by EcharLetters[i] stands for EcharValues[i].
   */
  const EcharLetters: string := "tbnrf\"'\\"
  const EcharValues: string := "\t\U{8}\n\r\U{C}\"'\\"

  /** A code point that Dafny's (and Rust's) `char` can hold. */
  predicate IsScalar(n: nat) { n < 0xD800 || 0xE000 <= n < 0x11_0000 }

  function Pow16(k: nat): (p: nat)
    ensures p >= 1
  {
    if k == 0 then 1 else 16 * Pow16(k - 1)
  }

  function HexDigitValue(c: char): (v: nat)
    requires IsHex(c)
    ensures v < 16
    ensures IsDigit(c) ==> v == c as int - '0' as int
  {
    if IsDigit(c) then c as int - '0' as int
    else if 'a' <= c <= 'f' then c as int - 'a' as int + 10
    else c as int - 'A' as int + 10
  }

  /** The number written by a string of hex digits, most significant first. */
  function HexValue(s: string): (v: nat)
    requires AllHex(s)
    ensures v < Pow16(|s|)
  {
    if s == [] then 0 else HexValue(s[..|s| - 1]) * 16 + HexDigitValue(s[|s| - 1])
  }

  /** The upper-case hex digit for d. */
  function HexDigit(d: nat): (c: char)
    requires d < 16
    ensures IsHex(c) && HexDigitValue(c) == d
  {
    if d < 10 then ('0' as int + d) as char else ('A' as int + d - 10) as char
  }

  /** The k least significant hex digits of n, most significant first. */
  function HexDigits(n: nat, k: nat): (s: string)
    ensures |s| == k && AllHex(s)
  {
    if k == 0 then [] else HexDigits(n / 16, k - 1) + [HexDigit(n % 16)]
  }

  /** Writing n with enough digits and reading it back gives n. */
  lemma {:induction false} HexRoundTrip(n: nat, k: nat)
    requires n < Pow16(k)
    ensures HexValue(HexDigits(n, k)) == n
  {
    if k > 0 {
      var s := HexDigits(n, k);
      assert s[..k - 1] == HexDigits(n / 16, k - 1);
      HexRoundTrip(n / 16, k - 1);
    }
  }
}
