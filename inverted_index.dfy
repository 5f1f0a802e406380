/**
 * The inverted index: a map from each term to its posting list, the
 * filenames in which the term occurs, one entry per occurrence, plus a
 * size_t counter that add_file increments and delete_file decrements.
 */
module Index {
  import opened Wrappers
  import opened Streams

  /** The largest value of a 64-bit size_t; the counter wraps around past it. */
  const SizeMax: int := 0xFFFF_FFFF_FFFF_FFFF

  type SizeT = c: int | 0 <= c <= SizeMax

  /** `indexed_files_count_++` on a size_t. */
  function Increment(c: SizeT): (r: SizeT)
    ensures r == (c + 1) % (SizeMax + 1)
  {
    if c == SizeMax then 0 else c + 1
  }

  /** `indexed_files_count_--` on a size_t: 0 wraps around to SizeMax. */
  function Decrement(c: SizeT): (r: SizeT)
    ensures r == (c - 1) % (SizeMax + 1)
  {
    if c == 0 then SizeMax else c - 1
  }

  /** The posting list of a term, or the empty list when the term has none. */
  function Lookup(m: map<string, seq<string>>, term: string): seq<string> {
    if term in m then m[term] else []
  }

  /** `index_[word].push_back(filename)`: operator[] first inserts an empty list. */
  function Push(m: map<string, seq<string>>, word: string, filename: string): map<string, seq<string>> {
    m[word := Lookup(m, word) + [filename]]
  }

  /** One push of filename per word, in the order of the words. */
  function AddPostings(m: map<string, seq<string>>, filename: string, words: seq<string>): map<string, seq<string>>
    decreases |words|
  {
    if words == [] then m else AddPostings(Push(m, words[0], filename), filename, words[1..])
  }

  /** Number of times x occurs in s. */
  function Occurrences<T(==)>(s: seq<T>, x: T): nat {
    if s == [] then 0 else (if s[0] == x then 1 else 0) + Occurrences(s[1..], x)
  }

  /** The list holding k copies of x. */
  function Repeat<T>(x: T, k: nat): (r: seq<T>)
    ensures |r| == k && forall i :: 0 <= i < k ==> r[i] == x
  {
    if k == 0 then [] else [x] + Repeat(x, k - 1)
  }

  /** `files.erase(std::remove(files.begin(), files.end(), filename), files.end())`. */
  function Without(s: seq<string>, filename: string): (r: seq<string>)
    ensures filename !in r
    ensures |r| <= |s|
  {
    if s == [] then []
    else if s[0] == filename then Without(s[1..], filename)
    else [s[0]] + Without(s[1..], filename)
  }

  /** a can be obtained from b by deleting entries, so a keeps b's relative order. */
  predicate IsSubsequence<T(==)>(a: seq<T>, b: seq<T>)
    decreases |b|
  {
    if a == [] then true
    else if b == [] then false
    else (a[0] == b[0] && IsSubsequence(a[1..], b[1..])) || IsSubsequence(a, b[1..])
  }

  /** Every posting list with all entries for filename erased; the set of terms is kept. */
  function DeletePostings(m: map<string, seq<string>>, filename: string): map<string, seq<string>> {
    map w | w in m :: Without(m[w], filename)
  }

  /** The whole state of an index: the term map and the counter. */
  datatype IndexState = IndexState(postings: map<string, seq<string>>, count: SizeT)

  /** The state add_file(filename, content) leaves. */
  function AfterAdd(s: IndexState, filename: string, content: string): IndexState {
    IndexState(AddPostings(s.postings, filename, Tokens(content)), Increment(s.count))
  }

  /** The state delete_file(filename) leaves. */
  function AfterDelete(s: IndexState, filename: string): IndexState {
    IndexState(DeletePostings(s.postings, filename), Decrement(s.count))
  }

  class InvertedIndex {
    /** `index_` */
    var postings: map<string, seq<string>>
    /** `indexed_files_count_` */
    var count: SizeT

    constructor ()
      ensures postings == map[] && count == 0
    {
      postings := map[];
      count := 0;
    }

    function State(): IndexState
      reads this
    {
      IndexState(postings, count)
    }

    /** Reads the words of content one `>>` at a time, pushing filename onto each word's list. */
    method AddFile(filename: string, content: string)
      modifies this
      ensures State() == AfterAdd(old(State()), filename, content)
    {
      var rest := content;
      var next := Extract(rest);
      while next.Some?
        invariant next == Extract(rest)
        invariant count == old(count)
        invariant AddPostings(postings, filename, Tokens(rest)) == AddPostings(old(postings), filename, Tokens(content))
        decreases |rest|
      {
        var (word, after) := next.value;
        assert Tokens(rest) == [word] + Tokens(after);
        assert ([word] + Tokens(after))[1..] == Tokens(after);
        postings := Push(postings, word, filename);
        rest := after;
        next := Extract(rest);
      }
      count := Increment(count);
    }

    /** Erases filename from every posting list, one term at a time. */
    method DeleteFile(filename: string)
      modifies this
      ensures State() == AfterDelete(old(State()), filename)
    {
      var pending := postings.Keys;
      while pending != {}
        invariant postings.Keys == old(postings).Keys && pending <= postings.Keys
        invariant forall w :: w in postings ==>
          postings[w] == if w in pending then old(postings)[w] else Without(old(postings)[w], filename)
        invariant count == old(count)
        decreases pending
      {
        var w :| w in pending;
        postings := postings[w := Without(postings[w], filename)];
        pending := pending - {w};
      }
      assert postings == DeletePostings(old(postings), filename);
      count := Decrement(count);
    }

    method Search(term: string) returns (files: seq<string>)
      ensures term in postings ==> files == postings[term]
      ensures term !in postings ==> files == []
    {
      if term in postings {
        files := postings[term];
      } else {
        files := [];
      }
    }

    method GetIndexedFilesCount() returns (n: SizeT)
      ensures n == count
    {
      n := count;
    }
  }

  // ---- add_file ----

  /**
   * After adding, each term's list is its old list followed by one copy of
   * filename per occurrence of the term among the words.
   */
  lemma {:induction false} AddPostingsLookup(m: map<string, seq<string>>, filename: string, words: seq<string>, term: string)
    ensures Lookup(AddPostings(m, filename, words), term)
         == Lookup(m, term) + Repeat(filename, Occurrences(words, term))
    decreases |words|
  {
    if words != [] {
      var m' := Push(m, words[0], filename);
      AddPostingsLookup(m', filename, words[1..], term);
      var k := Occurrences(words[1..], term);
      if words[0] == term {
        assert Repeat(filename, k + 1) == [filename] + Repeat(filename, k);
      }
    }
  }

  /** Adding gives a list to exactly the terms that already had one and the words added. */
  lemma {:induction false} AddPostingsKeys(m: map<string, seq<string>>, filename: string, words: seq<string>)
    ensures AddPostings(m, filename, words).Keys == m.Keys + set w | w in words
    decreases |words|
  {
    if words != [] {
      AddPostingsKeys(Push(m, words[0], filename), filename, words[1..]);
      assert words == [words[0]] + words[1..];
      assert (set w | w in words) == {words[0]} + set w | w in words[1..];
    }
  }

  /**
   * add_file never removes or reorders a posting: every old list is a prefix
   * of the new one, and a term that is not a word of the content keeps its list.
   */
  lemma AddFileKeepsPostings(s: IndexState, filename: string, content: string, term: string)
    ensures var before := Lookup(s.postings, term);
            var after := Lookup(AfterAdd(s, filename, content).postings, term);
            |before| <= |after| && after[..|before|] == before
    ensures term !in Tokens(content) ==> Lookup(AfterAdd(s, filename, content).postings, term) == Lookup(s.postings, term)
  {
    AddPostingsLookup(s.postings, filename, Tokens(content), term);
    if term !in Tokens(content) {
      OccurrencesAbsent(Tokens(content), term);
    }
  }

  lemma {:induction false} OccurrencesAbsent<T>(s: seq<T>, x: T)
    requires x !in s
    ensures Occurrences(s, x) == 0
  {
    if s != [] {
      OccurrencesAbsent(s[1..], x);
    }
  }

  /** add_file raises the counter by exactly one, whatever the content, modulo 2^64. */
  lemma AddFileCounts(s: IndexState, filename: string, content: string)
    ensures AfterAdd(s, filename, content).count == (s.count + 1) % (SizeMax + 1)
  {
  }

  /** The worked example: "foo bar foo" added as file a. */
  lemma AddFileExample()
    ensures var s := AfterAdd(IndexState(map[], 0), "a", "foo bar foo");
            && Lookup(s.postings, "foo") == ["a", "a"]
            && Lookup(s.postings, "bar") == ["a"]
            && Lookup(s.postings, "baz") == []
            && s.count == 1
  {
    ExampleTokens();
    assert "foo" != "bar" && "bar" != "baz" && "foo" != "baz" by {
      assert "foo"[0] != "bar"[0] && "bar"[2] != "baz"[2] && "foo"[0] != "baz"[0];
    }
    AddRepeatedWord("a", "foo", "bar", "baz");
  }

  /**
   * Adding the words x y x as file f lists f twice under x, once under y
   * and not at all under any other term.
   */
  lemma AddRepeatedWord(f: string, x: string, y: string, z: string)
    requires x != y && z != x && z != y
    ensures var m := AddPostings(map[], f, [x, y, x]);
            Lookup(m, x) == [f, f] && Lookup(m, y) == [f] && Lookup(m, z) == []
  {
    var words := [x, y, x];
    var rest, last := words[1..], words[2..];
    assert rest == [y, x] && last == [x] && rest[1..] == last && last[1..] == [];
    assert Occurrences(last, x) == 1 && Occurrences(last, y) == 0 && Occurrences(last, z) == 0;
    assert Occurrences(rest, x) == 1 && Occurrences(rest, y) == 1 && Occurrences(rest, z) == 0;
    AddPostingsLookup(map[], f, words, x);
    AddPostingsLookup(map[], f, words, y);
    AddPostingsLookup(map[], f, words, z);
    assert Repeat(f, 2) == [f, f];
  }

  lemma ExampleTokens()
    ensures Tokens("foo bar foo") == ["foo", "bar", "foo"]
  {
    ExtractFirst();
    ExampleTokensTail();
  }

  lemma ExampleTokensTail()
    ensures Tokens(" bar foo") == ["bar", "foo"]
  {
    ExtractSecond();
    ExampleTokensLast();
  }

  lemma ExampleTokensLast()
    ensures Tokens(" foo") == ["foo"]
  {
    ExtractThird();
    assert Tokens("") == [];
  }

  lemma ExtractFirst()
    ensures Extract("foo bar foo") == Some(("foo", " bar foo"))
  {
    var c := "foo bar foo";
    assert WordRun(c[3..]) == 0;
    assert WordRun(c) == 3 by {
      assert c[1..][1..][1..] == c[3..];
    }
    assert SpaceRun(c) == 0 && c[0..] == c;
    assert c[..3] == "foo" && c[3..] == " bar foo";
  }

  lemma ExtractSecond()
    ensures Extract(" bar foo") == Some(("bar", " foo"))
  {
    var t := " bar foo";
    assert SpaceRun(t[1..]) == 0;
    assert SpaceRun(t) == 1;
    var u := t[1..];
    assert WordRun(u[3..]) == 0;
    assert WordRun(u) == 3 by {
      assert u[1..][1..][1..] == u[3..];
    }
    assert u[..3] == "bar" && u[3..] == " foo";
  }

  lemma ExtractThird()
    ensures Extract(" foo") == Some(("foo", ""))
  {
    var t := " foo";
    assert SpaceRun(t[1..]) == 0;
    assert SpaceRun(t) == 1;
    var u := t[1..];
    assert WordRun(u) == 3 by {
      assert u[1..][1..][1..] == [];
    }
    assert u[..3] == "foo" && u[3..] == "";
  }

  // ---- delete_file ----

  /** Erasing keeps every other entry, as many times as it occurred. */
  lemma {:induction false} WithoutKeepsOthers(s: seq<string>, filename: string, other: string)
    requires other != filename
    ensures Occurrences(Without(s, filename), other) == Occurrences(s, other)
  {
    if s != [] {
      WithoutKeepsOthers(s[1..], filename, other);
      if s[0] != filename {
        assert ([s[0]] + Without(s[1..], filename))[1..] == Without(s[1..], filename);
      }
    }
  }

  /** Erasing keeps the relative order of the remaining entries. */
  lemma {:induction false} WithoutIsSubsequence(s: seq<string>, filename: string)
    ensures IsSubsequence(Without(s, filename), s)
  {
    if s != [] {
      WithoutIsSubsequence(s[1..], filename);
      if s[0] != filename {
        assert ([s[0]] + Without(s[1..], filename))[1..] == Without(s[1..], filename);
      }
    }
  }

  /** Erasing a filename that is not in a list leaves the list as it was. */
  lemma {:induction false} WithoutAbsent(s: seq<string>, filename: string)
    requires filename !in s
    ensures Without(s, filename) == s
  {
    if s != [] {
      WithoutAbsent(s[1..], filename);
      assert s == [s[0]] + s[1..];
    }
  }

  lemma {:induction false} WithoutConcat(a: seq<string>, b: seq<string>, filename: string)
    ensures Without(a + b, filename) == Without(a, filename) + Without(b, filename)
  {
    if a != [] {
      assert (a + b)[1..] == a[1..] + b;
      WithoutConcat(a[1..], b, filename);
    } else {
      assert a + b == b;
    }
  }

  lemma {:induction false} WithoutRepeat(filename: string, k: nat)
    ensures Without(Repeat(filename, k), filename) == []
  {
    if k > 0 {
      WithoutRepeat(filename, k - 1);
    }
  }

  /**
   * delete_file keeps the set of terms, leaves filename in no list, and
   * lowers the counter by exactly one modulo 2^64, whether or not filename
   * had postings.
   */
  lemma DeleteFileRemovesAll(s: IndexState, filename: string)
    ensures AfterDelete(s, filename).postings.Keys == s.postings.Keys
    ensures forall w :: w in AfterDelete(s, filename).postings ==> filename !in AfterDelete(s, filename).postings[w]
    ensures AfterDelete(s, filename).count == (s.count - 1) % (SizeMax + 1)
  {
  }

  /** A delete on a counter at zero wraps it around to the largest size_t. */
  lemma DeleteWrapsAtZero(s: IndexState, filename: string)
    requires s.count == 0
    ensures AfterDelete(s, filename).count == SizeMax
  {
  }

  /** The counter after an add undone by a delete (or a delete undone by an add) is back where it was. */
  lemma CountersCancel(c: SizeT)
    ensures Decrement(Increment(c)) == c && Increment(Decrement(c)) == c
  {
  }

  /**
   * Adding a file that is in no posting list and then deleting it is
   * invisible to search: every term's list is back to what it was. (Terms
   * only that file contained stay in the map with an empty list.)
   */
  lemma AddThenDeleteInvisible(s: IndexState, filename: string, content: string, term: string)
    requires forall w :: w in s.postings ==> filename !in s.postings[w]
    ensures Lookup(AfterDelete(AfterAdd(s, filename, content), filename).postings, term) == Lookup(s.postings, term)
    ensures AfterDelete(AfterAdd(s, filename, content), filename).count == s.count
  {
    var words := Tokens(content);
    var added := AddPostings(s.postings, filename, words);
    AddPostingsLookup(s.postings, filename, words, term);
    AddPostingsKeys(s.postings, filename, words);
    var k := Occurrences(words, term);
    if term in added {
      calc {
        Lookup(DeletePostings(added, filename), term);
        Without(Lookup(s.postings, term) + Repeat(filename, k), filename);
        { WithoutConcat(Lookup(s.postings, term), Repeat(filename, k), filename); }
        Without(Lookup(s.postings, term), filename) + Without(Repeat(filename, k), filename);
        { WithoutRepeat(filename, k); WithoutAbsent(Lookup(s.postings, term), filename); }
        Lookup(s.postings, term);
      }
    }
  }

  // ---- names in posting lists ----

  /** Every posting is a name without whitespace, as the server's parsed filenames are. */
  predicate NamesAreWords(m: map<string, seq<string>>) {
    forall w :: w in m ==> forall i :: 0 <= i < |m[w]| ==> NoSpace(m[w][i])
  }

  lemma {:induction false} WithoutKeepsOnlyOld(s: seq<string>, filename: string, i: nat)
    requires i < |Without(s, filename)|
    ensures Without(s, filename)[i] in s
  {
    if s[0] == filename {
      WithoutKeepsOnlyOld(s[1..], filename, i);
    } else if i > 0 {
      WithoutKeepsOnlyOld(s[1..], filename, i - 1);
    }
  }

  /** Adding under a whitespace-free name and deleting keep every posting a whitespace-free name. */
  lemma IndexKeepsNamesWords(s: IndexState, filename: string, content: string)
    requires NamesAreWords(s.postings) && NoSpace(filename)
    ensures NamesAreWords(AfterAdd(s, filename, content).postings)
    ensures NamesAreWords(AfterDelete(s, filename).postings)
  {
    var added := AfterAdd(s, filename, content).postings;
    forall w | w in added
      ensures forall i :: 0 <= i < |added[w]| ==> NoSpace(added[w][i])
    {
      AddPostingsLookup(s.postings, filename, Tokens(content), w);
    }
    var deleted := AfterDelete(s, filename).postings;
    forall w, i | w in deleted && 0 <= i < |deleted[w]|
      ensures NoSpace(deleted[w][i])
    {
      WithoutKeepsOnlyOld(s.postings[w], filename, i);
    }
  }
}
