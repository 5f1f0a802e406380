# Document-indexing service core, modelled in Dafny

This project models the sequential core of a small document-indexing
service. Clients send one-line `ADD`, `DELETE` and `SEARCH` requests over
TCP. The server stores the file, replies at once, and hands the index update
to a worker pool as a task. A bounded task queue (capacity 20) drops
overflowing tasks and counts them. Workers pop tasks and apply them to an
inverted index, which maps each term to its posting list: one filename
entry per occurrence of the term.

Modules, one per source file, plus two helpers:

- `Wrappers` (wrappers.dfy): the `Option` type.
- `Streams` (streams.dfy): how the C++ streams behave in the "C" locale.
  `stream >> word` is `Extract`/`ReadWord`, a `while (stream >> word)` loop
  yields `Tokens`, and `std::getline` is `GetLine`. Whitespace is the six
  `isspace` characters.
- `Index` (inverted_index.dfy): `InvertedIndex` is a class with the term map
  and the `size_t` counter. `AddFile` reads the words with `>>` in a loop.
  `DeleteFile` erases the filename from every list, one term at a time. The
  methods are specified by the pure functions `AfterAdd` and `AfterDelete`,
  and the lemmas are proved about those functions. The counter wraps
  explicitly modulo 2^64, so a delete on a counter at 0 gives 2^64 - 1
  (`DeleteWrapsAtZero`).
- `Queue` (task_queue.dfy): `TaskQueue` is a class with the pending entries
  and the overflow accounting (`missingTasks`, `isFull`, `fullTime`). The
  methods are specified by `Emplaced`, `Popped` and `Cleared`. `Run`
  replays any sequence of operations, and its lemmas state the capacity
  bound, FIFO order and the overflow rules. The C++ `pop` returns a `bool`
  and writes the task to a reference parameter; here both come back as one
  `Option`.
- `Pool` (thread_pool.dfy): `ThreadPool` holds the lifecycle flags, `lastId`,
  the number of live workers and the queue. `RoutineStep` is one pass of a
  worker's loop: it blocks, exits, skips because paused, or pops the front
  entry and runs its task against the index. `Terminate` joins the workers
  by running steps until one exits, so it drains the queue when workers are
  alive. Tasks are the datatype `AddTask(filename, content)` /
  `DeleteTask(filename)` in place of closures. `Execute` is what running a
  task does to the index.
- `Server` (server.dfy): `Parse` reads a request line the way the handler's
  stream reads do. `Dispatch` gives the storage call, the reply and the task
  (at most one of each). `TaskServer.HandleClient` submits the task to the
  pool and builds the `SEARCH` reply in a loop (`RenderResults`). The
  storage outcome is a boolean input.
- `Client` (client.dfy): the content sanitiser and the three request
  builders, with round-trip lemmas against `Server.Parse`.

Where the headers and the implementation files disagree, the model follows
the implementation files:
- `inverted_index.h` does not declare the counter or its getter. The
  counter is taken to start at 0.
- `task_queue.h` declares `void emplace` and lacks the overflow fields. The
  initial values of those fields are taken as 0, `false` and the clock's
  epoch (0).

`main.cpp` has no `CHECK_INDEX` branch and no command reads the counter,
so such a line is an invalid command (`CheckIndexIsInvalid`).

Behaviour the proofs expose:
- A pool that is paused and then terminated, with tasks still pending,
  never finishes terminating unless another thread calls `resume`. Its
  workers see `terminated` and a non-empty queue, so they do not exit; they
  see `paused`, so they `continue` without popping (`PausedTerminatedSpins`).
- The client sends a file's name unfiltered. A file named `my notes.txt`
  is stored as `my`, and `notes.txt` becomes the first word of its content
  (`ParseAddSpacedName`, `ParseAddSpacedExample`).
- A `DELETE` whose add task was dropped by a full queue, or whose file was
  stored before the server started, decrements the counter below the
  number of adds. At 0 it wraps to 2^64 - 1.

## Model

| member | source | states |
|---|---|---|
| `Streams.Extract` | inverted_index.cpp:9 | `>>` fails exactly on all-whitespace input. Otherwise it yields a non-empty whitespace-free word, consumes at least one character, and leaves the delimiting whitespace (or nothing) in the stream |
| `Streams.ExtractSplits` | inverted_index.cpp:9 | what `>>` consumes is leading whitespace followed by exactly the word it yields; the rest of the stream is left as it was |
| `Streams.Tokens` | inverted_index.cpp:7-11 | every word the read loop yields is non-empty and whitespace-free |
| `Streams.GetLine` | main.cpp:77 | getline yields the longest newline-free prefix of the stream, stopping at the first newline |
| `Streams.TokensSameWords` | inverted_index.cpp:9 | replacing whitespace characters by other whitespace characters changes no word the stream yields |
| `Streams.TokensSpacePrefix` | main.cpp:77 | leading whitespace (such as the separator kept in ADD content) changes no word the stream yields |
| `Streams.ExtractWord` | main.cpp:73-76 | whitespace, a word, then a delimiter: `>>` yields that word and leaves the delimiter |
| `Streams.GetLineBeforeNewline` | main.cpp:77 | getline returns exactly the text before the first newline |
| `Index.Increment` | inverted_index.cpp:12 | the counter increment is +1 modulo 2^64 |
| `Index.Decrement` | inverted_index.cpp:21 | the counter decrement is -1 modulo 2^64 |
| `Index.Without` | inverted_index.cpp:19 | erase-remove leaves no entry for the filename and never lengthens a list |
| `Index.InvertedIndex.constructor` | inverted_index.h:12 | a new index has no terms and a zero counter |
| `Index.InvertedIndex.AddFile` | inverted_index.cpp:4-13 | the read-and-push loop leaves exactly `AfterAdd` of the old state: one push per word, in order, then the counter increment |
| `Index.InvertedIndex.DeleteFile` | inverted_index.cpp:15-22 | the loop over the terms leaves exactly `AfterDelete` of the old state: every list erased of the filename, then the counter decrement |
| `Index.InvertedIndex.Search` | inverted_index.cpp:24-32 | returns the term's list verbatim if the term is present, the empty list otherwise, and changes nothing |
| `Index.InvertedIndex.GetIndexedFilesCount` | inverted_index.cpp:34-37 | returns the counter and changes nothing |
| `Index.AddPostingsLookup` | inverted_index.cpp:9-10 | after an add, each term's list is its old list followed by k copies of the filename, k the term's number of occurrences among the words |
| `Index.AddPostingsKeys` | inverted_index.cpp:10 | an add gives a list to exactly the old terms plus the words of the content |
| `Index.AddFileKeepsPostings` | inverted_index.cpp:9-10 | an add never removes or reorders a posting: each old list is a prefix of the new one, and terms not in the content keep their list |
| `Index.AddFileCounts` | inverted_index.cpp:12 | an add raises the counter by exactly 1 modulo 2^64, whatever the content, including empty or all-whitespace content |
| `Index.AddRepeatedWord` | inverted_index.cpp:7-11 | adding the words x y x as file f lists f twice under x, once under y, and under no other term |
| `Index.AddFileExample` | inverted_index.cpp:7-12 | adding "foo bar foo" as `a` gives foo: [a, a], bar: [a], baz: [] and counter 1 |
| `Index.WithoutKeepsOthers` | inverted_index.cpp:19 | erasing keeps every other filename as many times as it occurred |
| `Index.WithoutIsSubsequence` | inverted_index.cpp:19 | erasing keeps the relative order of the remaining entries |
| `Index.WithoutAbsent` | inverted_index.cpp:19 | erasing a filename a list does not hold leaves the list unchanged |
| `Index.DeleteFileRemovesAll` | inverted_index.cpp:18-21 | a delete keeps the set of terms, leaves the filename in no list, and lowers the counter by exactly 1 modulo 2^64, whether or not the file had postings |
| `Index.DeleteWrapsAtZero` | inverted_index.cpp:21 | a delete on a counter at 0 wraps it to 2^64 - 1 |
| `Index.CountersCancel` | inverted_index.cpp:12-21 | an increment undone by a decrement, or the reverse, gives back the counter |
| `Index.AddThenDeleteInvisible` | inverted_index.cpp:4-22 | adding a file that has no postings and then deleting it restores every term's search result and the counter |
| `Index.IndexKeepsNamesWords` | inverted_index.cpp:9-19 | adding under a whitespace-free name, and deleting, keep every posting a whitespace-free name |
| `Queue.TaskQueue.constructor` | task_queue.h:12 | a new queue is empty, with no missing tasks, not full, and the epoch as its full time |
| `Queue.TaskQueue.Empty` | task_queue.cpp:3-6 | true exactly when no entry is pending; changes nothing |
| `Queue.TaskQueue.Size` | task_queue.cpp:8-11 | the number of pending entries, never above 20; changes nothing |
| `Queue.TaskQueue.Clear` | task_queue.cpp:13-18 | the pop loop leaves the queue empty and the overflow accounting untouched |
| `Queue.TaskQueue.Pop` | task_queue.cpp:20-28 | on an empty queue returns nothing and changes nothing. Otherwise returns the oldest entry and removes exactly that one |
| `Queue.TaskQueue.Emplace` | task_queue.cpp:30-42 | accepts exactly when fewer than 20 entries are pending, and leaves `Emplaced` of the old state |
| `Queue.TaskQueue.GetMissingTasks` | task_queue.cpp:44-47 | returns the missing-task counter; changes nothing |
| `Queue.TaskQueue.GetFullTime` | task_queue.cpp:49-52 | returns the recorded overflow time; changes nothing |
| `Queue.EmplaceWithRoom` | task_queue.cpp:40-41 | with room, emplace appends at the back and leaves `missingTasks`, `isFull` and `fullTime` unchanged |
| `Queue.EmplaceWhenFull` | task_queue.cpp:32-38 | at 20 entries, emplace keeps the entries, counts one more missing task, sets `isFull`, and records the time only if `isFull` was false |
| `Queue.OperationsBounded` | task_queue.cpp:32 | emplace, pop and clear each keep at most 20 entries pending |
| `Queue.RunBounded` | task_queue.cpp:32-40 | any sequence of operations keeps at most 20 entries pending |
| `Queue.RunFifo` | task_queue.cpp:20-41 | without a clear, the entries popped followed by those pending equal the entries pending at the start followed by those admitted: FIFO, and a refused entry is never popped |
| `Queue.OperationFifo` | task_queue.cpp:20-41 | a single pop or emplace: what it hands out, followed by what stays pending, is what was pending followed by what it admits |
| `Queue.FullTimeSticky` | task_queue.cpp:33-36 | once an overflow is recorded, no later operation (clear included) resets `isFull` or changes `fullTime` |
| `Queue.MissingTasksCount` | task_queue.cpp:37 | the missing-task counter grows by exactly the number of refused emplaces |
| `Queue.PushesIntoFresh` | task_queue.cpp:30-42 | n emplaces into a new queue keep the first 20 entries and count n - 20 missing. The overflow time is the 21st emplace's timestamp, so a 22nd leaves it unchanged |
| `Pool.RunTask` | thread_pool.cpp:74 | running an add or delete task changes the index exactly as `Execute` says |
| `Pool.ThreadPool.constructor` | thread_pool.h:45-48 | a new pool is uninitialized, not terminated, not paused, with `lastId` 0 and an empty queue |
| `Pool.ThreadPool.Working` | thread_pool.cpp:79-83 | `working()` is exactly initialized and not terminated; it changes nothing |
| `Pool.ThreadPool.Pause` | thread_pool.cpp:41-49 | sets `paused` and nothing else |
| `Pool.ThreadPool.Resume` | thread_pool.cpp:51-59 | clears `paused` and nothing else |
| `Pool.ThreadPool.AddTask` | thread_pool.cpp:85-101 | raises `lastId` by exactly 1 and returns it, and offers the entry with that id to the queue, whether or not the queue accepts it |
| `Pool.ThreadPool.RoutineStep` | thread_pool.cpp:62-77 | one worker pass is `NextStep` of the flags and queue. Only when it pops does it remove the front entry and run that entry's task on the index; otherwise queue and index are unchanged |
| `Pool.ThreadPool.Terminate` | thread_pool.cpp:22-39 | on an uninitialized pool changes nothing. Otherwise ends terminated and uninitialized; if workers were alive, every pending task has run, in queue order as one worker would run them, and the queue is empty |
| `Pool.ThreadPool.Initialize` | thread_pool.cpp:11-20 | terminates the previous generation first, then ends initialized, not terminated, with the requested number of workers |
| `Pool.StepExitsIff` | thread_pool.cpp:67-69 | a worker exits exactly when the pool is terminated and the queue is empty |
| `Pool.StepPopsFront` | thread_pool.cpp:70-72 | a paused worker pops nothing. An unpaused worker with work pending pops exactly the front entry, also after termination |
| `Pool.PausedTerminatedSpins` | thread_pool.cpp:67-71 | on a terminated, paused pool with pending tasks, a worker neither exits nor pops |
| `Pool.CountAfterTasks` | inverted_index.cpp:12-21 | after running a sequence of tasks, the counter has moved by the number of adds minus the number of deletes, modulo 2^64 |
| `Pool.ExecuteAllCount` | inverted_index.cpp:12-21 | the counter after running tasks depends only on the counter before and on which tasks are adds and which deletes, not on files or contents |
| `Pool.CounterWraps` | inverted_index.cpp:12-21 | stepping the counter once per task, up for an add and down for a delete with `size_t` wrap, equals the net count of adds minus deletes modulo 2^64 |
| `Pool.AddsOnlyCount` | inverted_index.cpp:12 | from 0, M add tasks and no deletes leave the counter at exactly M |
| `Server.RenderResults` | main.cpp:100-105 | the reply loop builds each result followed by a newline, in order |
| `Server.TaskServer.constructor` | main.cpp:14-15 | a server starts with an empty index over the given pool |
| `Server.TaskServer.HandleClient` | main.cpp:70-108 | the reply is the one `Dispatch` chooses for the parsed line. When a task is chosen it is submitted with the next id; otherwise pool and queue are unchanged. The lifecycle flags never change |
| `Server.CommandSelectsBranch` | main.cpp:73-107 | only the exact first words ADD, DELETE and SEARCH select a branch. Anything else gets "Invalid command" with no storage call and no task |
| `Server.CheckIndexIsInvalid` | main.cpp:106-107 | a CHECK_INDEX line is an invalid command |
| `Server.BlankLineIsInvalid` | main.cpp:73-107 | an empty or all-whitespace line is an invalid command |
| `Server.MutationsNeedStorage` | main.cpp:75-97 | ADD and DELETE call storage with the parsed name. A task is submitted, and the success reply sent, exactly when storage succeeded |
| `Server.JoinLinesEmpty` | main.cpp:101-105 | the SEARCH reply is empty exactly when the result list is |
| `Server.JoinLinesRoundTrip` | main.cpp:102-104 | a reply built from newline-free names reads back, line by line, as exactly those names in order |
| `Server.SearchReadsIndex` | main.cpp:98-105 | SEARCH calls no storage and submits no task. Its reply reads back as the term's posting list, duplicates included, and is empty exactly when the list is |
| `Server.ParsedNamesAreWords` | main.cpp:76-99 | parsed filenames and search terms never contain whitespace |
| `Server.ReadWordNoSpace` | main.cpp:73-99 | a word read by `>>`, or the empty word a failed read leaves, never holds whitespace |
| `Server.DispatchKeepsNamesWords` | main.cpp:75-97 | every task the server submits keeps all postings whitespace-free names |
| `Client.Sanitize` | client.cpp:43-44 | the sanitised content has the same length and contains no newline |
| `Client.AddRequest` | client.cpp:46 | for a newline-free name, the ADD request's only newline is its last character |
| `Client.DeleteRequest` | client.cpp:73 | for a newline-free name, the DELETE request's only newline is its last character |
| `Client.SearchRequest` | client.cpp:96 | for a newline-free word, the SEARCH request's only newline is its last character |
| `Client.SanitizeCharacters` | client.cpp:44 | each newline becomes a space and every other character is kept in place |
| `Client.SanitizeKeepsTokens` | client.cpp:44 | sanitising changes no word of the content |
| `Client.ParseAddRequest` | client.cpp:43-46 | the server parses the ADD request for a one-word name as ADD of that name with content " " + sanitised content |
| `Client.ParseAddSpacedName` | client.cpp:43-46 | a name holding a space is read by the server as its first word only; the rest of the name, a space and the sanitised content become the content |
| `Client.ParseAddSpacedExample` | client.cpp:46 | the file "a b" is added under the name "a", with content " b " + sanitised content |
| `Client.ParseDeleteRequest` | client.cpp:73 | the server parses the DELETE request for a one-word name as DELETE of that name |
| `Client.ParseSearchRequest` | client.cpp:96 | the server parses the SEARCH request for a one-word term as SEARCH of that term |
| `Client.AddRequestIndexesFileWords` | client.cpp:43-46 | when storage succeeds, the ADD request's task adds to the index exactly the words of the original file content, and counts one file |

## Left out

- Networking: accepting connections, `async_read_until`, `respond`, and the client's `connect`, `send_request` and `receive_response`. These are I/O. The handler takes the buffered request line as a string.
- `FileManager` (writing, removing and reading files, creating the base directory). Its success is the boolean input `stored` of `Dispatch` and `HandleClient`. Exceptions are not modelled: `delete_file` calls the throwing `fs::remove` (main.cpp:42), which throws on errors other than a missing path (a `DELETE` with no name names the storage directory itself, which throws when it holds files). Nothing in the handler catches it, so no reply is sent and the server stops; the model's "one reply per request line" holds only when storage does not throw.
- The client's directory iteration, file reading, console output and both `main` functions. These are filesystem and console I/O.
- Threads, mutexes, condition variables, `notify_*` and joins as blocking operations. The model is sequential: worker passes are explicit `RoutineStep` calls, and concurrent interleavings of workers and submitters are not modelled. That includes the unsynchronised read of `lastId` when `add_task` returns, and the race on `m_paused`.
- `Pool.ThreadPool.Terminate`: the pending tasks run in queue order, the order one worker runs them in. A worker runs its task after releasing the queue lock (thread_pool.cpp:65-74), so with several workers two popped tasks can reach the index in either order: `[AddTask(f, "x"), DeleteTask(f)]` can leave f listed under "x". The counter result (`CountAfterTasks`) does not depend on the order.
- The random 5 to 10 second sleep after each task. It is a throttle and does not change the state.
- `std::chrono::steady_clock::now()`: emplace takes the time as the parameter `now`.
- `get_results` and the result map. The map is never filled, so the function only returns a default value.
- `get_task_queue`: the queue is the pool's `queue` field.
- The destructors. `~thread_pool` calls `terminate` and `~task_queue` calls `clear`; both operations are modelled.
- `Pool.ThreadPool.Pause`: keeps only `m_paused = true`. The wait that blocks the caller until another thread notifies cannot be expressed sequentially.
- `Pool.ThreadPool.Terminate`: requires that the pool is not paused with live workers and pending tasks. In that state the workers spin without popping, so the join never returns (`PausedTerminatedSpins`).
- `Pool.ThreadPool.Initialize`: same requirement as `Terminate`, which it calls first.
- `Pool.ThreadPool.AddTask`: `lastId` is an unbounded integer. The C++ `int` would overflow, with undefined behaviour, after 2^31 - 1 submissions.
- `Queue.TaskQueue.Emplace`: `missingTasks` is an unbounded natural number. The C++ `int` would overflow after 2^31 - 1 refusals.
