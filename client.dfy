/**
 * The request lines the client sends, and what the server makes of them:
 * the client flattens a file's content to one line by turning each newline
 * into a space, so the server reads the same words the file holds.
 */
module Client {
  import opened Wrappers
  import opened Streams
  import opened Index
  import opened Queue
  import opened Pool
  import opened Server

  /** `std::replace(content.begin(), content.end(), '\n', ' ')` on a copy of the content. */
  function Sanitize(content: string): (r: string)
    ensures |r| == |content| && '\n' !in r
  {
    if content == [] then []
    else [if content[0] == '\n' then ' ' else content[0]] + Sanitize(content[1..])
  }

  /** The ADD request for a file with the given name and content. */
  function AddRequest(name: string, content: string): (r: string)
    ensures '\n' !in name ==> r != [] && r[|r| - 1] == '\n' && '\n' !in r[..|r| - 1]
  {
    var r := "ADD " + name + " " + Sanitize(content) + "\n";
    assert r[..|r| - 1] == "ADD " + name + " " + Sanitize(content);
    r
  }

  /** The DELETE request for a file. */
  function DeleteRequest(filename: string): (r: string)
    ensures '\n' !in filename ==> r != [] && r[|r| - 1] == '\n' && '\n' !in r[..|r| - 1]
  {
    var r := "DELETE " + filename + "\n";
    assert r[..|r| - 1] == "DELETE " + filename;
    r
  }

  /** The SEARCH request for a word. */
  function SearchRequest(word: string): (r: string)
    ensures '\n' !in word ==> r != [] && r[|r| - 1] == '\n' && '\n' !in r[..|r| - 1]
  {
    var r := "SEARCH " + word + "\n";
    assert r[..|r| - 1] == "SEARCH " + word;
    r
  }

  /** Sanitizing keeps every character but '\n', which becomes ' '. */
  lemma {:induction false} SanitizeCharacters(content: string)
    ensures forall i :: 0 <= i < |content| ==>
      Sanitize(content)[i] == if content[i] == '\n' then ' ' else content[i]
  {
    if content != [] {
      SanitizeCharacters(content[1..]);
      forall i | 1 <= i < |content|
        ensures Sanitize(content)[i] == Sanitize(content[1..])[i - 1]
      {
      }
    }
  }

  /** Sanitizing changes no word of the content. */
  lemma SanitizeKeepsTokens(content: string)
    ensures Tokens(Sanitize(content)) == Tokens(content)
  {
    SanitizeCharacters(content);
    TokensSameWords(Sanitize(content), content);
  }

  /**
   * Round trip: the server reads a client's ADD request for a file whose
   * name is one word as an ADD of that name, with the sanitized content
   * behind the separating space.
   */
  lemma ParseAddRequest(name: string, content: string)
    requires name != [] && NoSpace(name)
    ensures Parse(AddRequest(name, content)) == Add(name, " " + Sanitize(content))
  {
    var body := " " + Sanitize(content);
    var r := AddRequest(name, content);
    assert r == [] + "ADD" + (" " + name + body + "\n");
    ExtractWord([], "ADD", " " + name + body + "\n");
    assert " " + name + body + "\n" == " " + name + (body + "\n");
    ExtractWord(" ", name, body + "\n");
    GetLineBeforeNewline(body, []);
    assert body + "\n" + [] == body + "\n";
  }

  /**
   * A file name holding a space is not sent as one word: the server reads
   * the part before the first space as the name, and the rest of the name
   * becomes the start of the content.
   */
  lemma ParseAddSpacedName(first: string, second: string, content: string)
    requires first != [] && NoSpace(first) && '\n' !in second
    ensures Parse(AddRequest(first + " " + second, content)) == Add(first, " " + second + " " + Sanitize(content))
  {
    var body := " " + second + " " + Sanitize(content);
    var rest := " " + first + body + "\n";
    assert AddRequest(first + " " + second, content) == [] + "ADD" + rest;
    ExtractWord([], "ADD", rest);
    assert rest == " " + first + (body + "\n");
    ExtractWord(" ", first, body + "\n");
    GetLineBeforeNewline(body, []);
    assert body + "\n" + [] == body + "\n";
  }

  /** The file "a b" is added under the name "a", with "b" read as its first word. */
  lemma ParseAddSpacedExample(content: string)
    ensures Parse(AddRequest("a b", content)) == Add("a", " b " + Sanitize(content))
  {
    var first, second := "a", "b";
    assert first + " " + second == "a b";
    assert " " + second + " " + Sanitize(content) == " b " + Sanitize(content);
    ParseAddSpacedName(first, second, content);
  }

  /** Round trip for DELETE. */
  lemma ParseDeleteRequest(filename: string)
    requires filename != [] && NoSpace(filename)
    ensures Parse(DeleteRequest(filename)) == Delete(filename)
  {
    var rest := " " + filename + "\n";
    assert DeleteRequest(filename) == [] + "DELETE" + rest;
    ExtractWord([], "DELETE", rest);
    ExtractWord(" ", filename, "\n");
    assert ReadWord(DeleteRequest(filename)) == ("DELETE", rest);
    assert ReadWord(rest).0 == filename;
    assert "DELETE" != "ADD" by { assert |"DELETE"| != |"ADD"|; }
  }

  /** Round trip for SEARCH. */
  lemma ParseSearchRequest(word: string)
    requires word != [] && NoSpace(word)
    ensures Parse(SearchRequest(word)) == Search(word)
  {
    var rest := " " + word + "\n";
    assert SearchRequest(word) == [] + "SEARCH" + rest;
    ExtractWord([], "SEARCH", rest);
    ExtractWord(" ", word, "\n");
    assert ReadWord(SearchRequest(word)) == ("SEARCH", rest);
    assert ReadWord(rest).0 == word;
    assert "SEARCH" != "ADD" by { assert |"SEARCH"| != |"ADD"|; }
    assert "SEARCH" != "DELETE" by { assert "SEARCH"[0] != "DELETE"[0]; }
  }

  /**
   * End to end: when storage accepts a client's ADD request, the task
   * submitted adds to the index exactly the words of the original file
   * content, and counts one more file.
   */
  lemma AddRequestIndexesFileWords(name: string, content: string, postings: map<string, seq<string>>, s: IndexState)
    requires name != [] && NoSpace(name)
    ensures var out := Dispatch(Parse(AddRequest(name, content)), true, postings);
            && out.reply == AddedReply
            && out.task.Some?
            && Execute(s, out.task.value) == IndexState(AddPostings(s.postings, name, Tokens(content)), Increment(s.count))
  {
    ParseAddRequest(name, content);
    TokensSpacePrefix(" ", Sanitize(content));
    SanitizeKeepsTokens(content);
  }
}
