# battlesearch, modelled in Dafny

battlesearch scans directories of Pokémon Showdown battle logs for the
battles of one user. It uses a pool of worker threads. The main thread walks
every root directory recursively (`handle_dir`). It deals each file found to
the workers round robin, as a `ToSend::File(path, date)` task whose `date`
is the name of the directory being walked. Then it sends every worker
`ToSend::Done`.

Each worker has its own `BattleSearcher`. For every file task it runs
`check_log`:
- read the file;
- extract `p1`, `p2`, `winner` and `endType`;
- normalise the names to ids with `str_to_id`;
- print a line `(date) <<room>> p1 vs. p2 (outcome)` when the searched user
  played, won if `--wins-only` is set, and the battle ended in a forfeit if
  `--forfeits-only` is set.

The model is in five modules:

- `Wrappers` (`wrappers.dfy`): `Option` and `Result`.
- `Search` (`search.dfy`): the identity normaliser `str_to_id`, `bytes_to_id`
  and the lossy UTF-8 decoding it relies on, the `"forfeit"` end-type test,
  the room name, `BattleSearcher::new` and the decision and formatting logic
  of `check_log`. These are pure functions of the extracted values.
- `Dispatch` (`dispatch.dfy`): `get_filename`, `handle_dir` and the tail of
  `main`.
  - The specification is a trace of sends (`WalkDir`, `WalkRoots`,
    `SendDone`, `MainSends`).
  - The imperative code updates a `Pool` class, whose `queues` field holds
    one channel per worker. `HandleDir`, `HandleRoots`, `SendDoneToAll` and
    `Run` are methods proved equal to that trace.
  - Lemmas cover the round-robin deal, the per-directory label, and the
    order of `Done` behind all file tasks.
- `Worker` (`worker.dfy`): the loop of a worker thread. It is a method,
  `RunWorker`, proved equal to a fold `Consume` over the tasks queued for
  the thread. Lemmas say where the fold stops and what it prints, and
  connect it with what `main` queued.
- `Scenarios` (`scenarios.dfy`): concrete battles and a concrete directory
  tree worked through the model.

How the environment is represented:
- **File system.** A directory is a tree of `Dir` values that carry the
  failures `read_dir`, its iterator and `file_type` can meet. Reading and
  parsing a log is a `map<Path, Disk>`.
- **Worker channels.** A channel whose receiving thread is gone is a
  disconnected queue, fixed for the run. Sending to it fails and delivers
  nothing.
- **Panics.** The panics of the source are explicit outcomes: `Panicked`
  for the dispatcher and `ThreadPanicked` for a worker.
  - The dispatcher panics in `threads.get(..).unwrap()` when there are no
    threads.
  - A worker panics in `json_parser.parse(..).unwrap()` when a file cannot
    be parsed.

Some of the code's behaviour is easy to expect otherwise. The model follows
the code in each case:

- **Label.** A file's label (`date`) is the name of the directory that
  directly contains it, because every call of `handle_dir` calls
  `get_filename(directory)`. The root's name is not carried down to the
  files of its subdirectories. `WalkDirLabels` and `NestedWalk` state this.
- **`file_type` failure.** A failing `file_type()` does not skip the entry.
  It aborts the whole walk, and `main` with it, through `?`
  (`FileTypeAborts`, `WalkDirStatus`). Only an `Err` item of the `read_dir`
  iterator is skipped.
- **Round-robin cursor.** The cursor is not shared by the whole walk. It is
  local to each `handle_dir` call and starts at worker 0 in every directory.
  Subdirectories therefore do not advance their parent's cursor, and each
  directory's own files are dealt `0, 1, …, n - 1, 0, …` (`RoundRobinDir`,
  `FlatRoundRobin`).
- **Unparseable log.** A log the extractor cannot parse is not logged and
  skipped. It panics its worker, which then handles nothing more
  (`PanicStops`).
- **Failed `Done`.** Shutdown does not go on past a failed send of `Done`.
  That failure ends `main` with the error, and the remaining workers are not
  sent `Done` (`SendDone`).
- **Room name.** `.log.json` is removed wherever it occurs in the file name,
  not only as a suffix (`RemoveAllSplit`, `InteriorLogSuffix`).

## Model

| member | source | states |
|---|---|---|
| Search.StrToId | src/search.rs:36-44 | the id contains only lower-case ASCII letters and digits and is no longer than the name |
| Search.StrToIdFixedPoint | src/search.rs:42-44 | a string is left unchanged by `str_to_id` exactly when it is already an id |
| Search.StrToIdIdempotent | src/search.rs:42-44 | normalising twice gives the same id as normalising once |
| Search.StrToIdConcat | src/search.rs:42-44 | the id of a concatenation is the concatenation of the ids, so normalisation works character by character |
| Search.StrToIdIgnoresPunctuation | src/search.rs:36-44 | deleting a character that is not an ASCII letter or digit never changes the id |
| Search.StrToIdIgnoresCase | src/search.rs:42-44 | lower-casing a character never changes the id |
| Search.AnnIkaIsAnnika | src/search.rs:42-44 | `Ann-Ika` and `annika` have the same id, `annika` |
| Search.BytesToId | src/search.rs:46-51 | an absent value has no id; a present one has an id no longer than its bytes |
| Search.BytesToIdDecodes | src/search.rs:46-51 | the id of the bytes is `str_to_id` of their text under any decoding that keeps ASCII bytes as they are and makes nothing else ASCII, as `from_utf8_lossy` does |
| Search.BytesToIdIgnoresQuotes | src/search.rs:46-51 | the quotes around an extracted JSON string do not affect the id |
| Search.ForfeitTestOnBytes | src/search.rs:126-129 | the decoded end type equals `"forfeit"` (quotes included) exactly when its bytes are those nine bytes |
| Search.RemoveAllAbsent | src/search.rs:141-145 | removing `.log.json` from a name that does not contain it leaves the name unchanged |
| Search.RemoveAllStripsSuffix | src/search.rs:141-145 | removing `.log.json` from `<base>.log.json` gives `base` when `base` does not contain it |
| Search.RemoveAllSplit | src/search.rs:145 | every occurrence is removed, interior ones too, in one left-to-right scan: after a stretch free of `.log.json`, an occurrence is deleted and the scan goes on with the rest |
| Search.Room | src/search.rs:141-145 | a missing or non-UTF-8 file name gives the room `unknown file`; otherwise the room is no longer than the name |
| Search.RoomOfLogFile | src/search.rs:141-145 | the room of the file `<base>.log.json` is `base` |
| Search.NewSearcher | src/search.rs:61-84 | the searched user is kept as `str_to_id` of the name given, and the two filters as given |
| Search.NewSearcherComparesIds | src/search.rs:79-110 | the user plays in a battle exactly when the id of one player's value equals the id of the name searched for |
| Search.CheckLog | src/search.rs:87-153 | an error exactly when the extraction does not have four values or lacks `p1` or `p2`, and then a malformed-JSON error; a reported battle has the user as a player, won by the user under wins-only, and forfeited under forfeits-only |
| Search.CheckLogErrorOrder | src/search.rs:91-107 | a wrong value count is reported before a missing `p1`, which is reported before a missing `p2` |
| Search.CheckLogReportsExactly | src/search.rs:108-132 | for a well-formed extraction, a battle is reported if and only if the user played, won when wins-only is set, and the battle was forfeited when forfeits-only is set |
| Search.NotAPlayerNeverReported | src/search.rs:108-113 | a battle the user did not play in is never reported, whatever its winner and end type |
| Search.UnfilteredReportsEveryBattle | src/search.rs:108-132 | without filters, every well-formed battle the user played in is reported |
| Search.CheckLogLine | src/search.rs:134-150 | the printed line is `(date) <<room>> p1 vs. p2 (outcome)`; the outcome is `<winner> won by forfeit`, `<winner> won normally` or `there was no winner` |
| Dispatch.GetFilename | src/main.rs:10-28 | the last component's name is returned exactly when it exists and is UTF-8; otherwise a path error for that path |
| Dispatch.GetFilenameAgreesWithRoom | src/main.rs:10-28 | the label `get_filename` gives and the room `check_log` prints come from the same last path component |
| Dispatch.WalkDir | src/main.rs:30-57 | every send of a walk goes to one of the `n` workers and carries a file task; no thread means no send |
| Dispatch.WalkDirStatus | src/main.rs:37-54 | `handle_dir` returns `Ok(())` exactly when the directory is readable, has a UTF-8 name, and no entry below it has a failing `file_type`, a failing subdirectory, or a file with no thread to go to; `Err` entries are skipped |
| Dispatch.WalkEntriesStatus | src/main.rs:39-54 | the loop from entry `i` on ends normally exactly when none of the remaining entries stops it |
| Dispatch.FileTypeAborts | src/main.rs:41 | the first entry reached whose `file_type` fails ends the walk with that I/O error, after exactly the sends of the entries before it |
| Dispatch.WalkEntries | src/main.rs:39-54 | the same bound for the walk from any entry and cursor on |
| Dispatch.WalkDirLabels | src/main.rs:37-47 | every file task is labelled with the name of the directory that directly lists the file |
| Dispatch.RoundRobinFrom | src/main.rs:34-51 | from entry `i` with cursor `c`, the file at entry `j` goes to worker `(c + number of files between) mod n` |
| Dispatch.RoundRobinDir | src/main.rs:34-51 | the k-th file entry of a directory's listing goes to worker `k mod n`, labelled with the directory's name |
| Dispatch.NoThreadsPanics | src/main.rs:44-46 | with no threads, the walk panics at the first file it reaches, having sent nothing |
| Dispatch.FlatRoundRobin | src/main.rs:44-51 | in a directory of files only, worker `w` receives exactly the files at positions `w, w + n, w + 2n, …`, in order |
| Dispatch.TasksForConcat | src/main.rs:44-50 | the tasks a worker receives from two stretches of sends are those of the first, then those of the second |
| Dispatch.DeliverConcat | src/main.rs:44-50 | delivering two stretches of sends is delivering the first, then the second |
| Dispatch.DeliverQueue | src/main.rs:44-50 | a connected channel receives the tasks sent to it, in order, after what it held; a closed one receives nothing |
| Dispatch.Pool.constructor | src/main.rs:101-104 | one empty channel per thread |
| Dispatch.Pool.Send | src/main.rs:47-50 | a send succeeds exactly when the receiver is still there and then appends the task to that channel alone |
| Dispatch.HandleDir | src/main.rs:30-57 | the walk sends exactly the trace `WalkDir` specifies, into the pool's channels, and ends with its status |
| Dispatch.HandleRoots | src/main.rs:131-133 | the roots are walked in order until one fails, with exactly the sends `WalkRoots` specifies |
| Dispatch.SendDoneToAll | src/main.rs:135-137 | `Done` is sent to worker 0, 1, … until a send fails, as `SendDone` specifies |
| Dispatch.Run | src/main.rs:99-137 | the channels of `main` end up holding exactly the sends `MainSends` specifies, and `main` ends with that status |
| Dispatch.SendDoneTasks | src/main.rs:135-137 | when every `Done` is sent, each worker receives exactly one `Done` and every receiver was there |
| Dispatch.SendDoneNotBefore | src/main.rs:135-137 | sending `Done` from worker `w` on gives nothing to the workers before `w` |
| Dispatch.TasksForFiles | src/main.rs:39-54 | everything a walk sends a worker is a file task |
| Dispatch.DoneSentLast | src/main.rs:131-137 | when `main` walks every root and sends every `Done`, each channel holds that worker's file tasks in traversal order and then exactly one `Done` |
| Dispatch.NoDoneAfterFailure | src/main.rs:131-133 | when a root cannot be walked, `main` ends with that error and no channel receives `Done` |
| Worker.CheckFile | src/search.rs:87-89 | a parse failure panics; a missing or unreadable file is an I/O error; a reported battle comes from a parsed log with the user as a player |
| Worker.Consume | src/main.rs:111-126 | the worker takes no more tasks than are queued, and prints at most one line or failure per task; a closed channel means it took them all |
| Worker.RunWorker | src/main.rs:111-126 | the receive loop prints exactly the lines and failures of `Consume`, takes as many tasks and stops for the same reason |
| Worker.ConsumeExit | src/main.rs:111-126 | the worker stops on a closed channel exactly when every queued task is a file that does not panic; otherwise every earlier task is such a file and the last one taken is `Done` or a panicking file |
| Worker.ConsumeStep | src/main.rs:113-118 | a file that does not panic contributes its line or its failure and the worker goes on with the next task |
| Worker.ConsumeConcat | src/main.rs:111-126 | the worker keeps no state between tasks: a stretch of files is handled one by one, then the rest of the queue |
| Worker.ConsumeStopsAtDone | src/main.rs:119 | nothing queued after the first `Done` is looked at |
| Worker.DrainsQueue | src/main.rs:111-126 | files followed by `Done` are all checked, their lines and failures printed in queue order, and the worker returns on `Done` |
| Worker.PanicStops | src/search.rs:89 | the first file that panics ends the worker; the tasks behind it are never handled |
| Worker.NoDoneNoGotDone | src/main.rs:119-124 | without a `Done` in its queue a worker stops only on a closed channel or a panic |
| Worker.EveryFileChecked | src/main.rs:108-137 | when `main` completes and no log panics, each worker checks exactly the files dealt to it, prints their lines in traversal order and returns on its `Done` |
| Worker.FailedWalkNeverDone | src/main.rs:131-133 | when a root cannot be walked, no worker returns on `Done` |
| Scenarios.AnnikaWinsNormally | src/search.rs:87-153 | Annika beats Bob normally; searching for `annika` prints `(2021-03-01) <<b1>> annika vs. bob (annika won normally)` |
| Scenarios.BobDidNotWin | src/search.rs:121-123 | the same battle searched for Bob's wins only prints nothing |
| Scenarios.ForfeitWithoutWinner | src/search.rs:126-139 | a forfeited battle with no winner, searched with forfeits only, prints `... annika vs. bob (there was no winner)` |
| Scenarios.MissingPlayerTwo | src/search.rs:104-107 | a log without `p2` is refused as malformed |
| Scenarios.RoomOfTwoLogs | src/search.rs:141-145 | a file named `<a>.log.json<b>.log.json` is room `<a><b>` |
| Scenarios.InteriorLogSuffix | src/search.rs:141-145 | `a.log.jsonb.log.json` is room `ab` |
| Scenarios.NestedWalk | src/main.rs:30-57 | with two workers, the files `a`, `b` and `c` of a root go to workers 0, 1 and 0; the file `d` of its subdirectory `sub` goes to worker 0 with the label `sub` |

## Left out

- Reading directories and files is not modelled as I/O. A directory is a
  `Dir` value with its listing, including its failures. A log file is what
  the map in `Worker` gives for its path. The order in which `read_dir`
  yields entries is the order of the listing.
- The JSON extractor (`pikkr_annika`) and its training rounds are not part
  of this model. Its result is the list of four optional byte strings that
  `check_log` works on, or a parse failure.
  - Its construction in `BattleSearcher::new` cannot fail in the model; the
    source unwraps it.
  - Whether the extractor yields no value or the bytes `null` for a JSON
    `null` is outside the model. With the bytes `null`, the winner id would
    be `null`.
- `String::from_utf8_lossy` is modelled only through what it guarantees for
  ASCII: ASCII bytes decode to themselves and nothing else decodes to ASCII.
  The ids and the end-type test depend on nothing more. The full decoded
  text of non-ASCII input is not computed.
- `str_to_id` uses Rust's Unicode `to_lowercase`. After the regex only ASCII
  letters and digits remain, so ASCII lower-casing is the whole effect.
- The regex engine is not modelled. `[^A-Za-z0-9]` is the predicate
  `IsAsciiAlnum`.
- The text of the error messages (`format!` strings, `Debug` output) is not
  modelled. An error is its kind plus the value it is about.
- `println!` and `eprintln!` are not modelled as output. A worker's printed
  lines and failures are the sequences of its run. Dispatch-side
  `println!` of a failed file send is not modelled.
- Concurrency is not modelled.
  - The threads, their interleaving, the `join` of `main` and the `Join`
    error are left out. The model relates what `main` queues to what each
    worker does with its own queue once every sender is gone.
  - When `main` returns early with an error, the process may end before a
    worker drains its queue; the model does not capture that.
  - A receiver that goes away during the run is not modelled. The set of
    closed channels is fixed for the whole run.
- `StructOpt` argument parsing and `Options` are not modelled. The thread
  count, the user name, the two filters and the roots are parameters.
- The `From` conversions into `BattleSearchError` are not modelled. The
  error constructors are used directly.
- Worker.Consume: a queue is finite, so a worker whose channel stays open
  and empty (blocking forever) is not modelled. In the model `recv` fails
  once the queue is exhausted, as it does after every sender is dropped.
