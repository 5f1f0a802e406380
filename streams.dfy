/**
 * The character-level behaviour of the two C++ stream operations the index,
 * the server and the client rely on, over the "C" locale:
 *  - `stream >> word` for a std::string: skip leading whitespace, then read
 *    the longest run of non-whitespace characters; the character that ends
 *    the word stays in the stream; with nothing but whitespace left the
 *    extraction fails;
 *  - `std::getline(stream, line)`: read up to the next '\n', which is
 *    consumed but not stored.
 * A stream is modelled by the text it has not delivered yet.
 */
module Streams {
  import opened Wrappers

  /** `isspace` in the "C" locale: space, \t, \n, \v, \f and \r. */
  predicate IsSpace(c: char) {
    c == ' ' || c == '\t' || c == '\n' || c == '\U{B}' || c == '\U{C}' || c == '\r'
  }

  predicate AllSpace(s: string) {
    forall i :: 0 <= i < |s| ==> IsSpace(s[i])
  }

  predicate NoSpace(s: string) {
    forall i :: 0 <= i < |s| ==> !IsSpace(s[i])
  }

  /** Length of the longest all-whitespace prefix of s. */
  function SpaceRun(s: string): (n: nat)
    ensures n <= |s| && AllSpace(s[..n])
    ensures n < |s| ==> !IsSpace(s[n])
  {
    if s != [] && IsSpace(s[0]) then
      var n := 1 + SpaceRun(s[1..]);
      assert s[..n] == [s[0]] + s[1..][..n - 1];
      n
    else 0
  }

  /** Length of the longest whitespace-free prefix of s. */
  function WordRun(s: string): (n: nat)
    ensures n <= |s| && NoSpace(s[..n])
    ensures n < |s| ==> IsSpace(s[n])
  {
    if s != [] && !IsSpace(s[0]) then
      var n := 1 + WordRun(s[1..]);
      assert s[..n] == [s[0]] + s[1..][..n - 1];
      n
    else 0
  }

  /**
   * `stream >> word` on a stream holding s: the word read and what the
   * stream still holds afterwards, or None when only whitespace is left.
   */
  function Extract(s: string): (r: Option<(string, string)>)
    ensures r.None? <==> AllSpace(s)
    ensures r.Some? ==>
      var (w, rest) := r.value;
      && w != [] && NoSpace(w)
      && |rest| < |s|
      && (rest == [] || IsSpace(rest[0]))
  {
    var skip := SpaceRun(s);
    if skip == |s| then
      assert s[..skip] == s;
      None
    else
      var t := s[skip..];
      var n := WordRun(t);
      assert s == s[..skip] + t[..n] + t[n..];
      Some((t[..n], t[n..]))
  }

  /** What `>>` consumes is whitespace followed by the word it read. */
  lemma ExtractSplits(s: string)
    requires Extract(s).Some?
    ensures var (w, rest) := Extract(s).value;
            && |w| + |rest| <= |s|
            && AllSpace(s[..|s| - |w| - |rest|])
            && s == s[..|s| - |w| - |rest|] + w + rest
  {
    var skip := SpaceRun(s);
    var t := s[skip..];
    var n := WordRun(t);
    assert s == s[..skip] + t[..n] + t[n..];
  }

  /** `stream >> word` where a failed extraction leaves the word empty and the stream exhausted. */
  function ReadWord(s: string): (string, string) {
    match Extract(s)
    case None => ([], [])
    case Some(p) => p
  }

  /** The words `while (stream >> word)` yields from a stream holding s, in order. */
  function Tokens(s: string): (ts: seq<string>)
    ensures forall i :: 0 <= i < |ts| ==> ts[i] != [] && NoSpace(ts[i])
    decreases |s|
  {
    match Extract(s)
    case None => []
    case Some((w, rest)) => [w] + Tokens(rest)
  }

  /** `std::getline` on a stream holding s: everything before the first '\n'. */
  function GetLine(s: string): (line: string)
    ensures |line| <= |s| && line == s[..|line|]
    ensures '\n' !in line
    ensures |line| < |s| ==> s[|line|] == '\n'
  {
    if s == [] || s[0] == '\n' then [] else [s[0]] + GetLine(s[1..])
  }

  /** a and b differ at most in which whitespace character stands at a position. */
  predicate SameWords(a: string, b: string) {
    && |a| == |b|
    && forall i :: 0 <= i < |a| ==> (IsSpace(a[i]) <==> IsSpace(b[i])) && (!IsSpace(a[i]) ==> a[i] == b[i])
  }

  lemma {:induction false} SpaceRunSameWords(a: string, b: string)
    requires SameWords(a, b)
    ensures SpaceRun(a) == SpaceRun(b)
  {
    if a != [] {
      assert SameWords(a[1..], b[1..]);
      SpaceRunSameWords(a[1..], b[1..]);
    }
  }

  lemma {:induction false} WordRunSameWords(a: string, b: string)
    requires SameWords(a, b)
    ensures WordRun(a) == WordRun(b)
  {
    if a != [] {
      assert SameWords(a[1..], b[1..]);
      WordRunSameWords(a[1..], b[1..]);
    }
  }

  /** Replacing whitespace characters by other whitespace characters changes no word the stream yields. */
  lemma {:induction false} TokensSameWords(a: string, b: string)
    requires SameWords(a, b)
    ensures Tokens(a) == Tokens(b)
    decreases |a|
  {
    var skip := SpaceRun(a);
    SpaceRunSameWords(a, b);
    if skip < |a| {
      var ta, tb := a[skip..], b[skip..];
      assert SameWords(ta, tb);
      WordRunSameWords(ta, tb);
      var n := WordRun(ta);
      assert ta[..n] == tb[..n];
      assert SameWords(ta[n..], tb[n..]);
      TokensSameWords(ta[n..], tb[n..]);
    }
  }

  /** Leading whitespace is skipped: it changes no word the stream yields. */
  lemma {:induction false} TokensSpacePrefix(p: string, s: string)
    requires AllSpace(p)
    ensures Tokens(p + s) == Tokens(s)
  {
    var ps := p + s;
    SpaceRunAfterSpace(p, s);
    assert ps[|p|..] == s;
    if SpaceRun(s) < |s| {
      assert ps[SpaceRun(ps)..] == s[SpaceRun(s)..];
    } else {
      assert AllSpace(ps);
    }
  }

  lemma {:induction false} SpaceRunAfterSpace(p: string, s: string)
    requires AllSpace(p)
    ensures SpaceRun(p + s) == |p| + SpaceRun(s)
  {
    if p != [] {
      assert (p + s)[1..] == p[1..] + s;
      SpaceRunAfterSpace(p[1..], s);
    } else {
      assert p + s == s;
    }
  }

  lemma {:induction false} WordRunOfWord(w: string, s: string)
    requires NoSpace(w) && (s == [] || IsSpace(s[0]))
    ensures WordRun(w + s) == |w|
  {
    if w != [] {
      assert (w + s)[1..] == w[1..] + s;
      WordRunOfWord(w[1..], s);
    } else {
      assert w + s == s;
    }
  }

  /**
   * `>>` on whitespace, then a word, then a delimiter or the end of the
   * stream yields that word and leaves the delimiter in the stream.
   */
  lemma ExtractWord(p: string, w: string, s: string)
    requires AllSpace(p) && w != [] && NoSpace(w) && (s == [] || IsSpace(s[0]))
    ensures Extract(p + w + s) == Some((w, s))
  {
    var t := p + w + s;
    assert t == p + (w + s);
    assert !IsSpace((w + s)[0]);
    SpaceRunAfterSpace(p, w + s);
    assert t[|p|..] == w + s;
    WordRunOfWord(w, s);
    assert (w + s)[..|w|] == w && (w + s)[|w|..] == s;
  }

  /** getline stops at the first newline. */
  lemma {:induction false} GetLineBeforeNewline(a: string, b: string)
    requires '\n' !in a
    ensures GetLine(a + "\n" + b) == a
  {
    if a != [] {
      assert (a + "\n" + b)[1..] == a[1..] + "\n" + b;
      GetLineBeforeNewline(a[1..], b);
    } else {
      assert a + "\n" + b == "\n" + b;
    }
  }
}
