/**
 * The command dispatch of the server's per-connection handler: the request
 * line is read word by word from a stream, the command selects a branch,
 * ADD and DELETE call storage and, only when storage succeeds, submit an
 * index task to the pool; SEARCH answers from the index at once.
 */
module Server {
  import opened Wrappers
  import opened Streams
  import opened Index
  import opened Queue
  import opened Pool

  /** A request line as the handler reads it. */
  datatype Request =
    | Add(filename: string, content: string)
    | Delete(filename: string)
    | Search(term: string)
    | Invalid

  /**
   * `stream >> command`, then for ADD `>> filename` and getline for the
   * content (which keeps the separator before it), for DELETE `>> filename`,
   * for SEARCH `>> content`. A failed read leaves the word empty.
   */
  function Parse(line: string): Request {
    var (command, rest) := ReadWord(line);
    if command == "ADD" then
      var (filename, after) := ReadWord(rest);
      Add(filename, GetLine(after))
    else if command == "DELETE" then
      Delete(ReadWord(rest).0)
    else if command == "SEARCH" then
      Search(ReadWord(rest).0)
    else
      Invalid
  }

  const AddedReply := "File added successfully\n"
  const AddFailedReply := "Failed to add file\n"
  const DeletedReply := "File deleted successfully\n"
  const DeleteFailedReply := "Failed to delete file\n"
  const InvalidReply := "Invalid command\n"

  /** The storage call a request makes; its success is an input to the handler. */
  datatype StorageCall = WriteFile(filename: string, content: string) | RemoveFile(filename: string)

  /** Everything one request leads to: at most one storage call, one reply, at most one task. */
  datatype Outcome = Outcome(storage: Option<StorageCall>, reply: string, task: Option<Task>)

  /** The SEARCH reply: every result followed by a newline. */
  function JoinLines(results: seq<string>): string {
    if results == [] then [] else results[0] + "\n" + JoinLines(results[1..])
  }

  /** What the handler does with a request, given whether the storage call succeeded and the index's terms. */
  function Dispatch(req: Request, stored: bool, postings: map<string, seq<string>>): Outcome {
    match req
    case Add(filename, content) =>
      Outcome(Some(WriteFile(filename, content)),
              if stored then AddedReply else AddFailedReply,
              if stored then Some(AddTask(filename, content)) else None)
    case Delete(filename) =>
      Outcome(Some(RemoveFile(filename)),
              if stored then DeletedReply else DeleteFailedReply,
              if stored then Some(DeleteTask(filename)) else None)
    case Search(term) =>
      Outcome(None, JoinLines(Lookup(postings, term)), None)
    case Invalid =>
      Outcome(None, InvalidReply, None)
  }

  /** Builds the SEARCH reply as the ostringstream loop does. */
  method RenderResults(results: seq<string>) returns (reply: string)
    ensures reply == JoinLines(results)
  {
    reply := [];
    for i := 0 to |results|
      invariant reply + JoinLines(results[i..]) == JoinLines(results)
    {
      assert results[i..][1..] == results[i + 1..];
      reply := reply + results[i] + "\n";
    }
    assert results[|results|..] == [];
  }

  class TaskServer {
    const pool: ThreadPool
    /** `index_` */
    const index: InvertedIndex

    ghost predicate Valid()
      reads this, pool, pool.queue
    {
      pool.Valid()
    }

    constructor (pool: ThreadPool)
      requires pool.Valid()
      ensures Valid() && this.pool == pool && fresh(index)
      ensures index.State() == IndexState(map[], 0)
    {
      this.pool := pool;
      index := new InvertedIndex();
    }

    /**
     * Handles one request line: stored is the outcome of the storage call
     * the request makes, now the time at which a task is offered to the queue.
     */
    method HandleClient(line: string, stored: bool, now: TimePoint) returns (reply: string)
      requires Valid()
      modifies pool, pool.queue
      ensures Valid()
      ensures reply == Dispatch(Parse(line), stored, index.postings).reply
      ensures var task := Dispatch(Parse(line), stored, index.postings).task;
              && (task.None? ==> pool.lastId == old(pool.lastId) && pool.queue.State() == old(pool.queue.State()))
              && (task.Some? ==> pool.lastId == old(pool.lastId) + 1
                                 && pool.queue.State() == Emplaced(old(pool.queue.State()), Entry(pool.lastId, task.value), now))
      ensures pool.initialized == old(pool.initialized) && pool.terminated == old(pool.terminated)
      ensures pool.paused == old(pool.paused) && pool.workers == old(pool.workers)
    {
      var req := Parse(line);
      match req
      case Add(filename, content) =>
        if stored {
          var id := pool.AddTask(AddTask(filename, content), now);
          reply := AddedReply;
        } else {
          reply := AddFailedReply;
        }
      case Delete(filename) =>
        if stored {
          var id := pool.AddTask(DeleteTask(filename), now);
          reply := DeletedReply;
        } else {
          reply := DeleteFailedReply;
        }
      case Search(term) =>
        var results := index.Search(term);
        reply := RenderResults(results);
      case Invalid =>
        reply := InvalidReply;
    }
  }

  // ---- command selection ----

  /**
   * Only the exact words ADD, DELETE and SEARCH select a branch; any other
   * first word, or none, gets "Invalid command" with no storage call and no task.
   */
  lemma CommandSelectsBranch(line: string, stored: bool, postings: map<string, seq<string>>)
    ensures Parse(line).Add? <==> ReadWord(line).0 == "ADD"
    ensures Parse(line).Delete? <==> ReadWord(line).0 == "DELETE"
    ensures Parse(line).Search? <==> ReadWord(line).0 == "SEARCH"
    ensures Parse(line).Invalid? ==> Dispatch(Parse(line), stored, postings) == Outcome(None, InvalidReply, None)
  {
  }

  /** There is no CHECK_INDEX branch: such a line is an invalid command. */
  lemma CheckIndexIsInvalid()
    ensures Parse("CHECK_INDEX\n") == Invalid
  {
    var w := "CHECK_INDEX";
    assert NoSpace(w);
    assert "CHECK_INDEX\n" == [] + w + "\n";
    ExtractWord([], w, "\n");
    assert |w| == 11;
    CommandSelectsBranch("CHECK_INDEX\n", false, map[]);
  }

  /** An empty or all-whitespace line is an invalid command. */
  lemma BlankLineIsInvalid(line: string)
    requires AllSpace(line)
    ensures Parse(line) == Invalid
  {
  }

  // ---- ADD and DELETE ----

  /**
   * ADD and DELETE call storage with the parsed filename (and content), and
   * submit their task and report success exactly when storage succeeded.
   */
  lemma MutationsNeedStorage(req: Request, stored: bool, postings: map<string, seq<string>>)
    requires req.Add? || req.Delete?
    ensures var out := Dispatch(req, stored, postings);
            && out.storage == Some(if req.Add? then WriteFile(req.filename, req.content) else RemoveFile(req.filename))
            && (out.task.Some? <==> stored)
            && (out.reply == (if req.Add? then AddedReply else DeletedReply) <==> stored)
            && (stored ==> out.task == Some(if req.Add? then AddTask(req.filename, req.content) else DeleteTask(req.filename)))
  {
  }

  // ---- SEARCH ----

  lemma JoinLinesEmpty(results: seq<string>)
    ensures JoinLines(results) == [] <==> results == []
  {
  }

  /** Reading a reply back with getline, one line per iteration. */
  function ReplyLines(reply: string): seq<string>
    decreases |reply|
  {
    if reply == [] then []
    else
      var line := GetLine(reply);
      if |line| == |reply| then [line] else [line] + ReplyLines(reply[|line| + 1..])
  }

  /** A SEARCH reply of newline-free filenames reads back as exactly the posting list. */
  lemma {:induction false} JoinLinesRoundTrip(results: seq<string>)
    requires forall i :: 0 <= i < |results| ==> '\n' !in results[i]
    ensures ReplyLines(JoinLines(results)) == results
  {
    if results != [] {
      var r := JoinLines(results);
      var tail := JoinLines(results[1..]);
      GetLineBeforeNewline(results[0], tail);
      assert r[|results[0]| + 1..] == tail;
      JoinLinesRoundTrip(results[1..]);
    }
  }

  /**
   * SEARCH submits nothing, calls no storage, and replies with the term's
   * posting list, in order and with duplicates, one name per line; the
   * reply is empty exactly when the list is.
   */
  lemma SearchReadsIndex(term: string, stored: bool, postings: map<string, seq<string>>)
    requires NamesAreWords(postings)
    ensures var out := Dispatch(Search(term), stored, postings);
            && out.storage.None? && out.task.None?
            && (out.reply == [] <==> Lookup(postings, term) == [])
            && ReplyLines(out.reply) == Lookup(postings, term)
  {
    var found := Lookup(postings, term);
    JoinLinesEmpty(found);
    forall i | 0 <= i < |found|
      ensures '\n' !in found[i]
    {
      assert IsSpace('\n');
    }
    JoinLinesRoundTrip(found);
  }

  /** The filename of an ADD or DELETE, and a SEARCH term, never hold whitespace. */
  lemma ParsedNamesAreWords(line: string)
    ensures Parse(line).Add? || Parse(line).Delete? ==> NoSpace(Parse(line).filename)
    ensures Parse(line).Search? ==> NoSpace(Parse(line).term)
  {
    var command, rest := ReadWord(line).0, ReadWord(line).1;
    ReadWordNoSpace(rest);
    if command == "ADD" {
      assert Parse(line) == Add(ReadWord(rest).0, GetLine(ReadWord(rest).1));
    } else if command == "DELETE" {
      assert Parse(line) == Delete(ReadWord(rest).0);
    } else if command == "SEARCH" {
      assert Parse(line) == Search(ReadWord(rest).0);
    } else {
      assert Parse(line) == Invalid;
    }
  }

  /** A word read from a stream holds no whitespace, whether or not the read succeeded. */
  lemma ReadWordNoSpace(s: string)
    ensures NoSpace(ReadWord(s).0)
  {
  }

  /**
   * Whatever lines the server handles, the tasks it submits keep every
   * posting a whitespace-free name, so every SEARCH reply reads back as the
   * posting list.
   */
  lemma DispatchKeepsNamesWords(line: string, stored: bool, postings: map<string, seq<string>>, s: IndexState)
    requires NamesAreWords(s.postings)
    ensures var task := Dispatch(Parse(line), stored, postings).task;
            task.Some? ==> NamesAreWords(Execute(s, task.value).postings)
  {
    ParsedNamesAreWords(line);
    var req := Parse(line);
    if req.Add? {
      IndexKeepsNamesWords(s, req.filename, req.content);
    } else if req.Delete? {
      IndexKeepsNamesWords(s, req.filename, []);
    }
  }
}
