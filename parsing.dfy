/**
 * The shapes every grammar rule shares. A rule applied to the start of a
 * line either fails or yields a value together with the unconsumed rest of
 * the line; a public rule, applied to a whole string, succeeds only when it
 * consumes all of it.
 */
module Parsing {

  /** The outcome of a rule applied at the start of its input. */
  datatype Parse<+T> = NoParse | Parsed(value: T, rest: string)

  /** The outcome of a public rule; the error's position and kind are not modelled. */
  datatype Result<+T> = Failure | Success(value: T)

  datatype Option<+T> = None | Some(value: T)

  /** A successful parse consumed a non-empty prefix of s and left the rest. */
  predicate Advances<T>(s: string, r: Parse<T>) {
    r.Parsed? ==> |r.rest| < |s| && r.rest == s[|s| - |r.rest|..]
  }

  /** A rule used as a public entry point: the whole input must be consumed. */
  function Complete<T>(p: Parse<T>): (r: Result<T>)
    ensures r.Success? <==> p.Parsed? && p.rest == []
    ensures r.Success? ==> r.value == p.value
  {
    if p.Parsed? && p.rest == [] then Success(p.value) else Failure
  }

  /** Puts c in front of the value of a successful string parse. */
  function Prepend(c: char, p: Parse<string>): (r: Parse<string>)
  {
    match p
    case NoParse => NoParse
    case Parsed(v, t) => Parsed([c] + v, t)
  }

  /**
   * The characters step reads, one at a time, up to the closing delimiter
   * close, which is consumed as well; fails at the end of the input.
   */
  function Delimited(step: string -> Parse<char>, close: char, s: string): (r: Parse<string>)
    requires forall x :: Advances(x, step(x))
    ensures Advances(s, r)
    ensures r.Parsed? ==> s[|s| - |r.rest| - 1] == close
    decreases |s|
  {
    if s == [] then NoParse
    else if s[0] == close then AdvancesOne(s, ""); Parsed([], s[1..])
    else
      match step(s)
      case NoParse => NoParse
      case Parsed(c, t) =>
        var r := Delimited(step, close, t);
        PrependFrom(s, t, c, r, close);
        Prepend(c, r)
  }

  /** The length of the longest prefix of s whose characters all satisfy p. */
  function Span(p: char -> bool, s: string): (n: nat)
    ensures n <= |s|
    ensures forall i :: 0 <= i < n ==> p(s[i])
    ensures n < |s| ==> !p(s[n])
  {
    if s != [] && p(s[0]) then 1 + Span(p, s[1..]) else 0
  }

  /** A span is fixed by its two ends. */
  lemma SpanIs(p: char -> bool, s: string, n: nat)
    requires n <= |s|
    requires forall i :: 0 <= i < n ==> p(s[i])
    requires n < |s| ==> !p(s[n])
    ensures Span(p, s) == n
  {
  }

  /** Consuming the first character of s advances. */
  lemma AdvancesOne<T>(s: string, v: T)
    requires s != []
    ensures Advances(s, Parsed(v, s[1..]))
    ensures s[|s| - |s[1..]| - 1] == s[0]
  { }

  /** A parse of a suffix t of s, seen from s: it still advances, and its last consumed character is the same. */
  lemma AdvancesFrom<T>(s: string, t: string, r: Parse<T>)
    requires |t| < |s| && t == s[|s| - |t|..]
    requires Advances(t, r)
    ensures Advances(s, r)
    ensures r.Parsed? ==> s[|s| - |r.rest| - 1] == t[|t| - |r.rest| - 1]
  {
    if r.Parsed? {
      assert r.rest == s[|s| - |r.rest|..];
    }
  }

  /** A character put in front of a parse of a suffix t of s, seen from s. */
  lemma PrependFrom(s: string, t: string, c: char, r: Parse<string>, close: char)
    requires |t| < |s| && t == s[|s| - |t|..]
    requires Advances(t, r) && (r.Parsed? ==> t[|t| - |r.rest| - 1] == close)
    ensures Advances(s, Prepend(c, r))
    ensures Prepend(c, r).Parsed? ==> s[|s| - |Prepend(c, r).rest| - 1] == close
  {
    AdvancesFrom(s, t, r);
  }

  /** Concatenation regrouped. */
  lemma Assoc(a: string, b: string, c: string)
    ensures a + b + c == a + (b + c)
  {
  }

  /** Splitting off the first character of a concatenation. */
  lemma DropFirst(a: string, v: string)
    requires a != []
    ensures (a + v)[1..] == a[1..] + v
    ensures a + v == [a[0]] + (a[1..] + v)
  {
  }

  /** Appending nothing. */
  lemma EmptyTail(s: string)
    ensures s + [] == s
  {
  }

  /** Cutting n + m characters, then the first n, is cutting at n, then m. */
  lemma SliceShift(s: string, n: nat, m: nat)
    requires n + m <= |s|
    ensures s[..n + m][n..] == s[n..][..m]
    ensures s[n + m..] == s[n..][m..]
  { }

  /** Four pieces regrouped after the first. */
  lemma Assoc4(a: string, b: string, c: string, d: string)
    ensures a + b + c + d == a + (b + c + d)
  { }

  /** A non-empty string is its first character followed by the rest. */
  lemma ConsFirst(s: string)
    requires s != []
    ensures [s[0]] + s[1..] == s
  { }

  /** Dropping a prefix leaves what followed it. */
  lemma DropPrefix(a: string, v: string)
    ensures (a + v)[|a|..] == v
  { }

  /** A concatenation splits back at the join. */
  lemma SplitAt(a: string, t: string)
    ensures (a + t)[..|a|] == a && (a + t)[|a|..] == t
  { }

  /** Dropping part of the first piece of a concatenation. */
  lemma DropWithin(a: string, t: string, n: nat)
    requires n <= |a|
    ensures (a + t)[n..] == a[n..] + t
  { }

  /** A span inside a that t cannot continue is also the span of a + t. */
  lemma SpanOfJoin(p: char -> bool, a: string, t: string, n: nat)
    requires n == Span(p, a)
    requires n == |a| && t != [] ==> !p(t[0])
    ensures Span(p, a + t) == n
  {
    var s := a + t;
    assert forall i :: 0 <= i < n ==> s[i] == a[i];
    assert n < |a| ==> s[n] == a[n];
    assert n == |a| && t != [] ==> s[n] == t[0];
    SpanIs(p, s, n);
  }

  /** A string that starts with p is p, then k more characters, then the rest. */
  lemma Reassemble(s: string, p: string, k: nat)
    requires |p| + k <= |s| && forall i :: 0 <= i < |p| ==> s[i] == p[i]
    ensures s == p + s[|p|..][..k] + s[|p|..][k..]
  {
    assert s[..|p|] == p;
  }

  /** A concatenation starts where its first piece does. */
  lemma FirstOf(a: string, b: string)
    requires |a| > 0
    ensures |a + b| > 0 && (a + b)[0] == a[0]
  { }
}
