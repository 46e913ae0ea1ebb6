/**
 * The body of each worker thread in `main`: build a searcher, then receive
 * tasks from the thread's channel one at a time, run `check_log` on every
 * file task, and stop at `Done`, at a closed channel, or when a log cannot
 * be parsed (the thread panics).
 *
 * The channel is modelled by the sequence of tasks queued on it; once those
 * are taken and every sender is gone, `recv` fails. The file system is a map
 * from paths to what reading and parsing that path yields.
 */
module Worker {
  import opened Wrappers
  import opened Search
  import opened Dispatch

  /** What `fs::read` followed by the JSON extractor makes of one path. */
  datatype Disk =
    | ReadFails
    | Unparseable
    | Parsed(values: seq<Option<seq<byte>>>)

  /** How one call of `check_log` ends: it returns, or the `unwrap` on the parse panics. */
  datatype Outcome = Returned(result: Result<Option<string>, BattleSearchError>) | Crashed

  /** A log that `check_log` refused, as printed to standard error. */
  datatype Failure = Failure(path: Path, error: BattleSearchError)

  /** Why the worker's loop ended. */
  datatype Exit = GotDone | Disconnected | ThreadPanicked

  /**
   * What a worker did: the report lines it printed, the failures it printed,
   * how many tasks it took from its channel, and why it stopped.
   */
  datatype WorkerRun = WorkerRun(lines: seq<string>, errors: seq<Failure>, taken: nat, exit: Exit)

  /** A path the map does not know cannot be read. */
  function Lookup(disk: map<Path, Disk>, path: Path): Disk {
    if path in disk then disk[path] else ReadFails
  }

  /** `check_log` on a path: read the file, parse it, then decide on the values. */
  function CheckFile(s: Searcher, disk: map<Path, Disk>, path: Path, date: string): (o: Outcome)
    ensures o.Crashed? <==> Lookup(disk, path).Unparseable?
    ensures Lookup(disk, path).ReadFails? ==> o == Returned(Err(IO(ReadFile)))
    ensures o.Returned? && o.result.Ok? ==> Lookup(disk, path).Parsed? && |Lookup(disk, path).values| == 4
    ensures o.Returned? && o.result.Ok? && o.result.value.Some? ==>
      IsPlayer(s, Lookup(disk, path).values[0], Lookup(disk, path).values[1])
  {
    match Lookup(disk, path)
    case ReadFails => Returned(Err(IO(ReadFile)))
    case Unparseable => Crashed
    case Parsed(values) => Returned(CheckLog(s, values, path.fileName, date))
  }

  /** What handling a file task does, as seen by the loop around it. */
  type Check = (Path, string) -> Outcome

  /** The searcher of one thread, over a given file system. */
  function Checker(s: Searcher, disk: map<Path, Disk>): Check {
    (path, date) => CheckFile(s, disk, path, date)
  }

  /** A task whose handling makes the worker panic. */
  predicate Crashes(check: Check, t: ToSend) {
    t.File? && check(t.path, t.date).Crashed?
  }

  /** A queue of files none of which panics. */
  predicate PlainFiles(check: Check, files: seq<ToSend>) {
    forall k :: 0 <= k < |files| ==> files[k].File? && !Crashes(check, files[k])
  }

  /** `run` preceded by the lines, failures and tasks of an earlier stretch of the loop. */
  function After(lines: seq<string>, errors: seq<Failure>, taken: nat, run: WorkerRun): WorkerRun {
    WorkerRun(lines + run.lines, errors + run.errors, taken + run.taken, run.exit)
  }

  lemma AfterAfter(a: seq<string>, b: seq<Failure>, i: nat, c: seq<string>, d: seq<Failure>, j: nat, run: WorkerRun)
    ensures After(a, b, i, After(c, d, j, run)) == After(a + c, b + d, i + j, run)
  {
    assert a + (c + run.lines) == (a + c) + run.lines;
    assert b + (d + run.errors) == (b + d) + run.errors;
  }

  /**
   * The worker's loop over the tasks `queue` holds, once nobody can send any
   * more. It takes tasks in order and stops at the first `Done`, at the first
   * panic, or when the queue runs dry.
   */
  function Consume(check: Check, queue: seq<ToSend>): (r: WorkerRun)
    ensures r.taken <= |queue|
    ensures |r.lines| + |r.errors| <= r.taken
    ensures r.exit == Disconnected ==> r.taken == |queue|
    decreases |queue|
  {
    if queue == [] then WorkerRun([], [], 0, Disconnected)
    else
      var rest := Consume(check, queue[1..]);
      match queue[0]
      case Done => WorkerRun([], [], 1, GotDone)
      case File(path, date) =>
        match check(path, date)
        case Crashed => WorkerRun([], [], 1, ThreadPanicked)
        case Returned(Err(e)) => After([], [Failure(path, e)], 1, rest)
        case Returned(Ok(None)) => After([], [], 1, rest)
        case Returned(Ok(Some(line))) => After([line], [], 1, rest)
  }

  /**
   * The loop of a worker thread: `recv` the next task until `Done`, a closed
   * channel, or a panic in `check_log`. `queue` holds everything sent to the
   * thread, and `recv` fails once it is exhausted.
   */
  method RunWorker(s: Searcher, disk: map<Path, Disk>, queue: seq<ToSend>)
    returns (lines: seq<string>, errors: seq<Failure>, taken: nat, exit: Exit)
    ensures WorkerRun(lines, errors, taken, exit) == Consume(Checker(s, disk), queue)
  {
    ghost var check := Checker(s, disk);
    lines, errors, taken := [], [], 0;
    while true
      invariant taken <= |queue|
      invariant Consume(check, queue) == After(lines, errors, taken, Consume(check, queue[taken..]))
      decreases |queue| - taken
    {
      if taken == |queue| {
        // The channel is empty and every sender is gone: `recv` fails.
        assert queue[taken..] == [];
        return lines, errors, taken, Disconnected;
      }
      var task := queue[taken];
      if task.Done? {
        ConsumeStops(check, queue, taken);
        return lines + [], errors + [], taken + 1, GotDone;
      }
      var outcome := CheckFile(s, disk, task.path, task.date);
      assert outcome == check(task.path, task.date);
      if outcome.Crashed? {
        ConsumeStops(check, queue, taken);
        return lines + [], errors + [], taken + 1, ThreadPanicked;
      }
      ghost var linesBefore, errorsBefore := lines, errors;
      match outcome.result {
        case Err(e) => errors := errors + [Failure(task.path, e)];
        case Ok(None) =>
        case Ok(Some(line)) => lines := lines + [line];
      }
      ConsumeNext(check, queue, taken, linesBefore, errorsBefore, lines, errors);
      taken := taken + 1;
    }
  }

  /** The task at `taken` is `Done` or panics: the loop takes it and stops. */
  lemma ConsumeStops(check: Check, queue: seq<ToSend>, taken: nat)
    requires taken < |queue| && (queue[taken].Done? || Crashes(check, queue[taken]))
    ensures Consume(check, queue[taken..]) == WorkerRun([], [], 1, if queue[taken].Done? then GotDone else ThreadPanicked)
  {
    assert queue[taken..][0] == queue[taken];
  }

  /** The task at `taken` is a file that does not panic: its line or failure is added and the loop goes on. */
  lemma ConsumeNext(check: Check, queue: seq<ToSend>, taken: nat, lines: seq<string>, errors: seq<Failure>,
                    lines': seq<string>, errors': seq<Failure>)
    requires taken < |queue| && queue[taken].File? && !Crashes(check, queue[taken])
    requires Consume(check, queue) == After(lines, errors, taken, Consume(check, queue[taken..]))
    requires lines' == lines + ReportOf(check, queue[taken]) && errors' == errors + FailureOf(check, queue[taken])
    ensures Consume(check, queue) == After(lines', errors', taken + 1, Consume(check, queue[taken + 1..]))
  {
    assert queue[taken..][0] == queue[taken] && queue[taken..][1..] == queue[taken + 1..];
    ConsumeStep(check, queue[taken..]);
    AfterAfter(lines, errors, taken, ReportOf(check, queue[taken]), FailureOf(check, queue[taken]), 1,
      Consume(check, queue[taken + 1..]));
  }

  // ---------------------------------------------------------------------------
  // Properties of the loop
  // ---------------------------------------------------------------------------

  /**
   * Where the loop stops: it runs dry only on a queue of files none of which
   * panics; otherwise every task before the last one it takes is such a file,
   * and that last task is `Done` or a file that panics.
   */
  lemma {:induction false} ConsumeExit(check: Check, queue: seq<ToSend>)
    ensures Consume(check, queue).exit == Disconnected <==> PlainFiles(check, queue)
    ensures Consume(check, queue).exit != Disconnected ==>
      0 < Consume(check, queue).taken && PlainFiles(check, queue[..Consume(check, queue).taken - 1])
    ensures Consume(check, queue).exit == GotDone <==>
      Consume(check, queue).exit != Disconnected && queue[Consume(check, queue).taken - 1].Done?
    ensures Consume(check, queue).exit == ThreadPanicked <==>
      Consume(check, queue).exit != Disconnected && Crashes(check, queue[Consume(check, queue).taken - 1])
    decreases |queue|, 1
  {
    if queue != [] {
      if queue[0].File? && !Crashes(check, queue[0]) {
        ConsumeExit(check, queue[1..]);
        ConsumeExitStep(check, queue);
      } else {
        assert !PlainFiles(check, queue);
        assert queue[..0] == [];
      }
    }
  }

  /** `ConsumeExit` for a queue whose head is a file that does not panic. */
  lemma {:induction false} ConsumeExitStep(check: Check, queue: seq<ToSend>)
    requires queue != [] && queue[0].File? && !Crashes(check, queue[0])
    ensures Consume(check, queue).exit == Disconnected <==> PlainFiles(check, queue)
    ensures Consume(check, queue).exit != Disconnected ==>
      0 < Consume(check, queue).taken && PlainFiles(check, queue[..Consume(check, queue).taken - 1])
    ensures Consume(check, queue).exit != Disconnected ==>
      queue[Consume(check, queue).taken - 1] == queue[1..][Consume(check, queue[1..]).taken - 1]
    ensures Consume(check, queue).exit == Consume(check, queue[1..]).exit
    decreases |queue|, 0
  {
    var rest := Consume(check, queue[1..]);
    ConsumeExit(check, queue[1..]);
    ConsumeStep(check, queue);
    assert queue == [queue[0]] + queue[1..];
    PlainFilesCons(check, queue[0], queue[1..]);
    if rest.exit != Disconnected {
      assert queue[..rest.taken] == [queue[0]] + queue[1..][..rest.taken - 1];
      PlainFilesCons(check, queue[0], queue[1..][..rest.taken - 1]);
    }
  }

  /** A file that does not panic in front of a queue leaves it plain or not plain. */
  lemma PlainFilesCons(check: Check, t: ToSend, files: seq<ToSend>)
    requires t.File? && !Crashes(check, t)
    ensures PlainFiles(check, [t] + files) <==> PlainFiles(check, files)
  {
    var q := [t] + files;
    if PlainFiles(check, files) {
      forall k | 0 <= k < |q| ensures q[k].File? && !Crashes(check, q[k]) {
        if k > 0 {
          assert q[k] == files[k - 1];
        }
      }
    }
    if PlainFiles(check, q) {
      forall k | 0 <= k < |files| ensures files[k].File? && !Crashes(check, files[k]) {
        assert files[k] == q[k + 1];
      }
    }
  }

  /** The line printed for one task, if any: a reference independent of the loop. */
  function ReportOf(check: Check, t: ToSend): seq<string> {
    if t.File? && check(t.path, t.date).Returned? && check(t.path, t.date).result.Ok?
      && check(t.path, t.date).result.value.Some?
    then [check(t.path, t.date).result.value.value]
    else []
  }

  /** The failure printed for one task, if any. */
  function FailureOf(check: Check, t: ToSend): seq<Failure> {
    if t.File? && check(t.path, t.date).Returned? && check(t.path, t.date).result.Err?
    then [Failure(t.path, check(t.path, t.date).result.error)]
    else []
  }

  /** The lines printed for a run of tasks, each task on its own. */
  function Reports(check: Check, files: seq<ToSend>): seq<string>
    decreases |files|
  {
    if files == [] then [] else ReportOf(check, files[0]) + Reports(check, files[1..])
  }

  /** The failures printed for a run of tasks, each task on its own. */
  function Failures(check: Check, files: seq<ToSend>): seq<Failure>
    decreases |files|
  {
    if files == [] then [] else FailureOf(check, files[0]) + Failures(check, files[1..])
  }

  /** One file that does not panic: its line or failure, then the rest of the queue. */
  lemma ConsumeStep(check: Check, queue: seq<ToSend>)
    requires queue != [] && queue[0].File? && !Crashes(check, queue[0])
    ensures Consume(check, queue) == After(ReportOf(check, queue[0]), FailureOf(check, queue[0]), 1, Consume(check, queue[1..]))
  {
  }

  /**
   * Handling a stretch of files that do not panic and then the rest of the
   * queue is handling each file on its own and then the rest: the loop keeps
   * no state between tasks.
   */
  lemma {:induction false} ConsumeConcat(check: Check, files: seq<ToSend>, rest: seq<ToSend>)
    requires PlainFiles(check, files)
    ensures Consume(check, files + rest) == After(Reports(check, files), Failures(check, files), |files|, Consume(check, rest))
    decreases |files|
  {
    if files == [] {
      assert files + rest == rest;
    } else {
      ConsumeConcat(check, files[1..], rest);
      ConsumeConcatCons(check, files, rest);
    }
  }

  /** The inductive step of `ConsumeConcat`: one more file in front. */
  lemma ConsumeConcatCons(check: Check, files: seq<ToSend>, rest: seq<ToSend>)
    requires files != [] && PlainFiles(check, files)
    requires Consume(check, files[1..] + rest)
      == After(Reports(check, files[1..]), Failures(check, files[1..]), |files| - 1, Consume(check, rest))
    ensures Consume(check, files + rest) == After(Reports(check, files), Failures(check, files), |files|, Consume(check, rest))
  {
    var head, tail := ReportOf(check, files[0]), FailureOf(check, files[0]);
    var lines, errors := Reports(check, files[1..]), Failures(check, files[1..]);
    ConsumeHead(check, files, rest);
    AfterAfter(head, tail, 1, lines, errors, |files| - 1, Consume(check, rest));
    assert Reports(check, files) == head + lines && Failures(check, files) == tail + errors;
  }

  /** `ConsumeStep` for a file in front of `rest`. */
  lemma ConsumeHead(check: Check, files: seq<ToSend>, rest: seq<ToSend>)
    requires files != [] && PlainFiles(check, files)
    ensures Consume(check, files + rest)
      == After(ReportOf(check, files[0]), FailureOf(check, files[0]), 1, Consume(check, files[1..] + rest))
  {
    assert (files + rest)[0] == files[0] && (files + rest)[1..] == files[1..] + rest;
    ConsumeStep(check, files + rest);
  }

  /** Nothing queued after the first `Done` is ever looked at. */
  lemma ConsumeStopsAtDone(check: Check, files: seq<ToSend>, rest: seq<ToSend>)
    requires PlainFiles(check, files)
    ensures Consume(check, files + [Done] + rest) == Consume(check, files + [Done])
  {
    assert files + [Done] + rest == files + ([Done] + rest);
    ConsumeConcat(check, files, [Done] + rest);
    ConsumeConcat(check, files, [Done]);
    assert ([Done] + rest)[0] == Done;
  }

  /**
   * A queue of files that do not panic, closed by `Done`, is drained: every
   * file is checked, its line or failure printed in queue order, and the
   * worker returns on the `Done`.
   */
  lemma DrainsQueue(check: Check, files: seq<ToSend>)
    requires PlainFiles(check, files)
    ensures Consume(check, files + [Done]) == WorkerRun(Reports(check, files), Failures(check, files), |files| + 1, GotDone)
  {
    ConsumeConcat(check, files, [Done]);
  }

  /** The first file that panics ends the worker; the tasks behind it stay unhandled. */
  lemma PanicStops(check: Check, files: seq<ToSend>, bad: ToSend, rest: seq<ToSend>)
    requires PlainFiles(check, files) && Crashes(check, bad)
    ensures Consume(check, files + [bad] + rest) == WorkerRun(Reports(check, files), Failures(check, files), |files| + 1, ThreadPanicked)
  {
    assert files + [bad] + rest == files + ([bad] + rest);
    ConsumeConcat(check, files, [bad] + rest);
    assert ([bad] + rest)[0] == bad;
  }

  /** Without a `Done` in its queue a worker can only stop on a closed channel or a panic. */
  lemma NoDoneNoGotDone(check: Check, queue: seq<ToSend>)
    requires Done !in queue
    ensures Consume(check, queue).exit != GotDone
  {
    var r := Consume(check, queue);
    ConsumeExit(check, queue);
    if r.exit != Disconnected {
      assert queue[r.taken - 1] in queue;
    }
  }

  // ---------------------------------------------------------------------------
  // The program as a whole
  // ---------------------------------------------------------------------------

  /**
   * When `main` walks every root and sends every `Done`, and no log makes a
   * worker panic, worker `w` checks exactly the files dealt to it, prints
   * their lines in traversal order, and returns on its `Done`.
   */
  lemma EveryFileChecked(roots: seq<Dir>, connected: seq<bool>, check: Check, w: nat)
    requires MainSends(roots, connected).status.Finished? && w < |connected|
    requires PlainFiles(check, FileTasks(roots, |connected|, w))
    ensures var queue := Deliver(EmptyQueues(|connected|), connected, MainSends(roots, connected).sends)[w];
      Consume(check, queue) == WorkerRun(
        Reports(check, FileTasks(roots, |connected|, w)), Failures(check, FileTasks(roots, |connected|, w)),
        |queue|, GotDone)
  {
    DoneSentLast(roots, connected, w);
    DrainsQueue(check, FileTasks(roots, |connected|, w));
  }

  /** When a root cannot be walked, no worker returns on `Done`. */
  lemma FailedWalkNeverDone(roots: seq<Dir>, connected: seq<bool>, check: Check, w: nat)
    requires !WalkRoots(roots, |connected|).status.Finished? && w < |connected|
    ensures Consume(check, Deliver(EmptyQueues(|connected|), connected, MainSends(roots, connected).sends)[w]).exit != GotDone
  {
    NoDoneAfterFailure(roots, connected, w);
    NoDoneNoGotDone(check, Deliver(EmptyQueues(|connected|), connected, MainSends(roots, connected).sends)[w]);
  }
}
