/**
 * The dispatching side of battlesearch (src/main.rs): `get_filename`, the
 * recursive directory walk `handle_dir` with its round-robin cursor, and the
 * tail of `main` that walks every root and then sends one `Done` to every
 * worker.
 *
 * The file system is a tree of `Dir` values whose nodes carry the failures
 * the walk can meet. The worker channels are the queues of a `Pool`; a
 * channel whose worker has already gone away is a disconnected queue, which
 * drops what is sent to it.
 */
module Dispatch {
  import opened Wrappers
  import opened Search

  /** A directory: its path and what `read_dir` makes of it. */
  datatype Dir = Dir(path: Path, listing: Listing)

  /** `read_dir` fails, or yields these entries in this order. */
  datatype Listing = Unreadable | Entries(entries: seq<DirEntry>)

  /** One item of a `read_dir` iteration. */
  datatype DirEntry =
    | BadEntry                 // the iterator yields an `Err`
    | UnknownType(path: Path)  // `file_type()` fails
    | FileEntry(path: Path)    // anything that is not a directory
    | SubDir(dir: Dir)         // a directory, with its own path and listing

  /** `get_filename`: the last path component, when there is one and it is UTF-8. */
  function GetFilename(file: Path): (r: Result<string, BattleSearchError>)
    ensures r.Ok? <==> file.fileName.Utf8Name?
    ensures r.Ok? ==> r.value == file.fileName.name
    ensures r.Err? ==> r.error == PathError(file)
  {
    match file.fileName
    case Utf8Name(s) => Ok(s)
    case _ => Err(PathError(file))
  }

  /**
   * The room name `check_log` prints for a file and the label `handle_dir`
   * gives a directory come from the same last path component: a name
   * `get_filename` rejects is the "unknown file" room.
   */
  lemma GetFilenameAgreesWithRoom(file: Path)
    ensures GetFilename(file).Ok? ==> Room(file.fileName) == RemoveAll(GetFilename(file).value, LogSuffix)
    ensures GetFilename(file).Err? ==> Room(file.fileName) == UnknownFile
  {
  }

  // ---------------------------------------------------------------------------
  // The walk as a trace of sends
  // ---------------------------------------------------------------------------

  /** `threads[worker].send(task)`. */
  datatype Send = SendTo(worker: nat, task: ToSend)

  /** How a walk ends: normally, with an error returned through `?`, or in a panic. */
  datatype Status = Finished | Aborted(error: BattleSearchError) | Panicked

  /** The sends a walk performs, in order, and how it ends. Sends done before an abort stay done. */
  datatype Walk = Walk(sends: seq<Send>, status: Status)

  function Then(before: seq<Send>, rest: Walk): Walk {
    Walk(before + rest.sends, rest.status)
  }

  lemma ThenThen(a: seq<Send>, b: seq<Send>, w: Walk)
    ensures Then(a, Then(b, w)) == Then(a + b, w)
  {
    assert a + (b + w.sends) == (a + b) + w.sends;
  }

  /** Every send goes to one of the `n` workers and carries a file task. */
  predicate FileSendsBelow(sends: seq<Send>, n: nat) {
    forall k :: 0 <= k < |sends| ==> sends[k].worker < n && sends[k].task.File?
  }

  /**
   * `p` is listed directly in a directory of the tree `d` whose name is
   * `date`: the directory that contains the file is named `date`.
   */
  ghost predicate ListedUnder(d: Dir, p: Path, date: string)
    decreases d
  {
    && d.listing.Entries?
    && (|| (d.path.fileName == Utf8Name(date) && FileEntry(p) in d.listing.entries)
        || (exists k :: 0 <= k < |d.listing.entries| && d.listing.entries[k].SubDir?
                        && ListedUnder(d.listing.entries[k].dir, p, date)))
  }

  /** Every file task names the directory that lists the file as its date. */
  ghost predicate LabelledByParent(d: Dir, sends: seq<Send>) {
    forall k :: 0 <= k < |sends| && sends[k].task.File? ==> ListedUnder(d, sends[k].task.path, sends[k].task.date)
  }

  /**
   * `handle_dir(directory, threads)` with `n` threads: `read_dir` first, then
   * the directory's own name as the date, then its entries from a cursor
   * that starts at worker 0.
   */
  function WalkDir(d: Dir, n: nat): (w: Walk)
    ensures FileSendsBelow(w.sends, n)
    ensures n == 0 ==> w.sends == []
    decreases d, 1
  {
    match d.listing
    case Unreadable => Walk([], Aborted(IO(ReadDir)))
    case Entries(_) =>
      match GetFilename(d.path)
      case Err(e) => Walk([], Aborted(e))
      case Ok(date) => WalkEntries(d, date, 0, 0, n)
  }

  /**
   * The `for entry in contents` loop of `handle_dir` from entry `i` on, with
   * the cursor at `cursor`. Bad entries are skipped, a failing `file_type`
   * or subdirectory ends the walk, a file goes to the worker under the cursor
   * and moves it on; `threads.get(cursor).unwrap()` panics when there is no
   * such worker.
   */
  function WalkEntries(d: Dir, date: string, i: nat, cursor: nat, n: nat): (w: Walk)
    requires d.listing.Entries? && i <= |d.listing.entries|
    ensures FileSendsBelow(w.sends, n)
    ensures n == 0 ==> w.sends == []
    decreases d, 0, |d.listing.entries| - i
  {
    var entries := d.listing.entries;
    if i == |entries| then Walk([], Finished)
    else
      match entries[i]
      case BadEntry => WalkEntries(d, date, i + 1, cursor, n)
      case UnknownType(_) => Walk([], Aborted(IO(FileType)))
      case SubDir(sub) =>
        var inner := WalkDir(sub, n);
        if inner.status.Finished? then Then(inner.sends, WalkEntries(d, date, i + 1, cursor, n))
        else inner
      case FileEntry(p) =>
        if cursor >= n then Walk([], Panicked)
        else Then([SendTo(cursor, File(p, date))], WalkEntries(d, date, i + 1, (cursor + 1) % n, n))
  }

  /** Every file task of a walk is labelled with the name of the directory that lists it. */
  lemma {:induction false} WalkDirLabels(d: Dir, n: nat)
    ensures LabelledByParent(d, WalkDir(d, n).sends)
    decreases d, 1
  {
    if d.listing.Entries? && GetFilename(d.path).Ok? {
      WalkEntriesLabels(d, GetFilename(d.path).value, 0, 0, n);
    }
  }

  lemma {:induction false} WalkEntriesLabels(d: Dir, date: string, i: nat, cursor: nat, n: nat)
    requires d.listing.Entries? && i <= |d.listing.entries|
    requires d.path.fileName == Utf8Name(date)
    ensures LabelledByParent(d, WalkEntries(d, date, i, cursor, n).sends)
    decreases d, 0, |d.listing.entries| - i
  {
    var entries := d.listing.entries;
    if i < |entries| {
      var w := WalkEntries(d, date, i, cursor, n);
      match entries[i]
      case BadEntry => WalkEntriesLabels(d, date, i + 1, cursor, n);
      case UnknownType(_) =>
      case SubDir(sub) =>
        WalkDirLabels(sub, n);
        var inner := WalkDir(sub, n);
        forall k | 0 <= k < |inner.sends| && inner.sends[k].task.File?
          ensures ListedUnder(d, inner.sends[k].task.path, inner.sends[k].task.date)
        {
          assert entries[i].SubDir? && ListedUnder(entries[i].dir, inner.sends[k].task.path, inner.sends[k].task.date);
        }
        if inner.status.Finished? {
          WalkEntriesLabels(d, date, i + 1, cursor, n);
          var rest := WalkEntries(d, date, i + 1, cursor, n);
          assert w.sends == inner.sends + rest.sends;
          forall k | 0 <= k < |w.sends| && w.sends[k].task.File?
            ensures ListedUnder(d, w.sends[k].task.path, w.sends[k].task.date)
          {
            if k >= |inner.sends| {
              assert w.sends[k] == rest.sends[k - |inner.sends|];
            }
          }
        }
      case FileEntry(p) =>
        if cursor < n {
          WalkEntriesLabels(d, date, i + 1, (cursor + 1) % n, n);
          var rest := WalkEntries(d, date, i + 1, (cursor + 1) % n, n);
          assert ListedUnder(d, p, date) by {
            assert FileEntry(p) in entries;
          }
          forall k | 0 <= k < |w.sends| && w.sends[k].task.File?
            ensures ListedUnder(d, w.sends[k].task.path, w.sends[k].task.date)
          {
            if k > 0 {
              assert w.sends[k] == rest.sends[k - 1];
            }
          }
        }
    }
  }

  // ---------------------------------------------------------------------------
  // When the walk fails
  // ---------------------------------------------------------------------------

  /**
   * The walk of `d` with `n` threads gets to the end: the directory can be
   * read, its name is UTF-8, and no entry stops it. An entry stops the walk
   * when its `file_type` fails, when it is a subdirectory whose walk does not
   * get to the end, and when it is a file with no thread to go to.
   */
  predicate WalkSucceeds(d: Dir, n: nat)
    decreases d
  {
    && d.listing.Entries?
    && d.path.fileName.Utf8Name?
    && forall k :: 0 <= k < |d.listing.entries| ==>
      && !d.listing.entries[k].UnknownType?
      && (d.listing.entries[k].FileEntry? ==> n >= 1)
      && (d.listing.entries[k].SubDir? ==> WalkSucceeds(d.listing.entries[k].dir, n))
  }

  /** Entry `k` of `d` does not stop the walk. */
  predicate EntryOk(d: Dir, k: nat, n: nat)
    requires d.listing.Entries? && k < |d.listing.entries|
  {
    var e := d.listing.entries[k];
    && !e.UnknownType?
    && (e.FileEntry? ==> n >= 1)
    && (e.SubDir? ==> WalkSucceeds(e.dir, n))
  }

  /** `handle_dir` returns `Ok(())` exactly when the whole tree below it is walkable. */
  lemma {:induction false} WalkDirStatus(d: Dir, n: nat)
    ensures WalkDir(d, n).status.Finished? <==> WalkSucceeds(d, n)
    decreases d, 1
  {
    if d.listing.Entries? && d.path.fileName.Utf8Name? {
      WalkEntriesStatus(d, d.path.fileName.name, 0, 0, n);
      assert WalkDir(d, n) == WalkEntries(d, d.path.fileName.name, 0, 0, n);
      assert WalkSucceeds(d, n) <==> forall k :: 0 <= k < |d.listing.entries| ==> EntryOk(d, k, n) by {
        assert forall k :: 0 <= k < |d.listing.entries| ==>
          (EntryOk(d, k, n) <==>
            (&& !d.listing.entries[k].UnknownType?
             && (d.listing.entries[k].FileEntry? ==> n >= 1)
             && (d.listing.entries[k].SubDir? ==> WalkSucceeds(d.listing.entries[k].dir, n))));
      }
    }
  }

  lemma {:induction false} WalkEntriesStatus(d: Dir, date: string, i: nat, cursor: nat, n: nat)
    requires d.listing.Entries? && i <= |d.listing.entries|
    requires cursor < n || cursor == n == 0
    ensures WalkEntries(d, date, i, cursor, n).status.Finished? <==>
      forall k :: i <= k < |d.listing.entries| ==> EntryOk(d, k, n)
    decreases d, 0, |d.listing.entries| - i
  {
    var entries := d.listing.entries;
    if i < |entries| {
      match entries[i]
      case BadEntry =>
        WalkEntriesStatus(d, date, i + 1, cursor, n);
        assert EntryOk(d, i, n);
      case UnknownType(_) =>
        assert !EntryOk(d, i, n);
      case SubDir(sub) =>
        WalkDirStatus(sub, n);
        WalkEntriesStatus(d, date, i + 1, cursor, n);
        assert EntryOk(d, i, n) <==> WalkSucceeds(sub, n);
        if !WalkSucceeds(sub, n) {
          assert WalkEntries(d, date, i, cursor, n) == WalkDir(sub, n);
        }
      case FileEntry(p) =>
        if cursor < n {
          WalkEntriesStatus(d, date, i + 1, (cursor + 1) % n, n);
          assert EntryOk(d, i, n);
        } else {
          assert !EntryOk(d, i, n);
        }
    }
  }

  /** `d` with its listing cut off before entry `j`. */
  function Truncated(d: Dir, j: nat): (t: Dir)
    requires d.listing.Entries? && j <= |d.listing.entries|
    ensures t.path == d.path && t.listing.Entries? && t.listing.entries == d.listing.entries[..j]
  {
    Dir(d.path, Entries(d.listing.entries[..j]))
  }

  /**
   * The first entry whose `file_type` fails ends the walk with that I/O
   * error, and the sends made before it (exactly those of a walk of the
   * listing up to that entry) stay made.
   */
  lemma {:induction false} FileTypeAborts(d: Dir, date: string, i: nat, cursor: nat, n: nat, j: nat)
    requires d.listing.Entries? && i <= j < |d.listing.entries|
    requires d.listing.entries[j].UnknownType? && cursor < n
    requires Reaches(d, i, j, n)
    ensures WalkEntries(Truncated(d, j), date, i, cursor, n).status.Finished?
    ensures WalkEntries(d, date, i, cursor, n)
      == Walk(WalkEntries(Truncated(d, j), date, i, cursor, n).sends, Aborted(IO(FileType)))
    decreases j - i
  {
    var entries := d.listing.entries;
    var t := Truncated(d, j);
    if i < j {
      assert t.listing.entries[i] == entries[i];
      match entries[i]
      case BadEntry =>
        FileTypeAborts(d, date, i + 1, cursor, n, j);
      case SubDir(sub) =>
        FileTypeAborts(d, date, i + 1, cursor, n, j);
        assert WalkDir(sub, n).status.Finished?;
      case FileEntry(p) =>
        FileTypeAborts(d, date, i + 1, (cursor + 1) % n, n, j);
    }
  }

  // ---------------------------------------------------------------------------
  // Round robin
  // ---------------------------------------------------------------------------

  lemma {:induction false} MulAtLeast(a: int, n: int)
    requires a >= 1 && n > 0
    ensures a * n >= n
    decreases a
  {
    if a > 1 {
      MulAtLeast(a - 1, n);
      assert a * n == (a - 1) * n + n;
    }
  }

  lemma ModUnique(x: int, n: int, q: int, r: int)
    requires n > 0 && 0 <= r < n && x == q * n + r
    ensures x % n == r
  {
    var q', r' := x / n, x % n;
    assert q' * n + r' == q * n + r;
    assert (q' - q) * n == r - r';
    if q' > q {
      MulAtLeast(q' - q, n);
    } else if q' < q {
      assert (q - q') * n == r' - r;
      MulAtLeast(q - q', n);
    }
  }

  lemma ModSmall(x: int, n: int)
    requires n > 0 && -n <= x < n
    ensures x % n == if x >= 0 then x else x + n
  {
    if x < 0 {
      ModUnique(x, n, -1, x + n);
    } else {
      ModUnique(x, n, 0, x);
    }
  }

  lemma ModAddPeriod(x: int, n: int)
    requires n > 0
    ensures (x + n) % n == x % n
  {
    var q, r := x / n, x % n;
    assert x + n == (q + 1) * n + r;
    ModUnique(x + n, n, q + 1, r);
  }

  /** The number of file entries (not subdirectories, not failures) in `entries`. */
  function FileCount(entries: seq<DirEntry>): (c: nat)
    ensures c <= |entries|
  {
    if entries == [] then 0 else (if entries[0].FileEntry? then 1 else 0) + FileCount(entries[1..])
  }

  /** The walk gets past entries `i` to `j - 1`: none of them fails. */
  predicate Reaches(d: Dir, i: nat, j: nat, n: nat)
    requires d.listing.Entries? && i <= j <= |d.listing.entries|
  {
    forall k :: i <= k < j ==>
      && !d.listing.entries[k].UnknownType?
      && (d.listing.entries[k].SubDir? ==> WalkDir(d.listing.entries[k].dir, n).status.Finished?)
  }

  /**
   * From entry `i` with the cursor at `cursor`, the file at entry `j` goes to
   * the worker `cursor` plus the number of files in between, modulo `n`.
   */
  lemma {:induction false} RoundRobinFrom(d: Dir, date: string, i: nat, cursor: nat, n: nat, j: nat)
    requires d.listing.Entries? && i <= j < |d.listing.entries|
    requires d.listing.entries[j].FileEntry? && cursor < n
    requires Reaches(d, i, j, n)
    ensures SendTo((cursor + FileCount(d.listing.entries[i..j])) % n, File(d.listing.entries[j].path, date))
      in WalkEntries(d, date, i, cursor, n).sends
    decreases j - i, 1
  {
    var entries := d.listing.entries;
    if i == j {
      assert entries[i..j] == [];
      ModSmall(cursor, n);
      RoundRobinHere(d, date, j, cursor, n);
    } else if entries[i].FileEntry? {
      RoundRobinFileStep(d, date, i, cursor, n, j);
    } else {
      FileCountFirst(entries, i, j);
      RoundRobinFrom(d, date, i + 1, cursor, n, j);
      RoundRobinSkip(d, date, i, cursor, n, j,
        SendTo((cursor + FileCount(entries[i + 1..j])) % n, File(entries[j].path, date)));
    }
  }

  /** The file the walk starts at goes to the worker under the cursor. */
  lemma RoundRobinHere(d: Dir, date: string, j: nat, cursor: nat, n: nat)
    requires d.listing.Entries? && j < |d.listing.entries|
    requires d.listing.entries[j].FileEntry? && cursor < n
    ensures SendTo(cursor, File(d.listing.entries[j].path, date)) in WalkEntries(d, date, j, cursor, n).sends
  {
    assert WalkEntries(d, date, j, cursor, n).sends[0] == SendTo(cursor, File(d.listing.entries[j].path, date));
  }

  /** Past an entry that is not a file, the cursor stays and every later send is kept. */
  lemma RoundRobinSkip(d: Dir, date: string, i: nat, cursor: nat, n: nat, j: nat, x: Send)
    requires d.listing.Entries? && i < j <= |d.listing.entries|
    requires !d.listing.entries[i].FileEntry? && Reaches(d, i, j, n)
    requires x in WalkEntries(d, date, i + 1, cursor, n).sends
    ensures x in WalkEntries(d, date, i, cursor, n).sends
  {
    SkipStep(d, date, i, cursor, n, j);
  }

  /** Splitting the first entry off a range of entries, for `FileCount`. */
  lemma FileCountFirst(entries: seq<DirEntry>, i: nat, j: nat)
    requires i < j <= |entries|
    ensures FileCount(entries[i..j]) == (if entries[i].FileEntry? then 1 else 0) + FileCount(entries[i + 1..j])
  {
    assert entries[i..j][1..] == entries[i + 1..j];
  }

  /** An entry that is not a file and that the walk gets past leaves the sends after it in place. */
  lemma SkipStep(d: Dir, date: string, i: nat, cursor: nat, n: nat, j: nat)
    requires d.listing.Entries? && i < j <= |d.listing.entries|
    requires !d.listing.entries[i].FileEntry? && Reaches(d, i, j, n)
    ensures WalkEntries(d, date, i, cursor, n).sends
      == (if d.listing.entries[i].SubDir? then WalkDir(d.listing.entries[i].dir, n).sends else [])
        + WalkEntries(d, date, i + 1, cursor, n).sends
  {
    assert !d.listing.entries[i].UnknownType?;
  }

  /** `RoundRobinFrom` when entry `i` is a file, which moves the cursor on. */
  lemma {:induction false} RoundRobinFileStep(d: Dir, date: string, i: nat, cursor: nat, n: nat, j: nat)
    requires d.listing.Entries? && i < j < |d.listing.entries|
    requires d.listing.entries[i].FileEntry? && d.listing.entries[j].FileEntry? && cursor < n
    requires Reaches(d, i, j, n)
    ensures SendTo((cursor + FileCount(d.listing.entries[i..j])) % n, File(d.listing.entries[j].path, date))
      in WalkEntries(d, date, i, cursor, n).sends
    decreases j - i, 0
  {
    var entries := d.listing.entries;
    var next := (cursor + 1) % n;
    RoundRobinFrom(d, date, i + 1, next, n, j);
    var c := FileCount(entries[i + 1..j]);
    assert entries[i..j] == [entries[i]] + entries[i + 1..j];
    assert FileCount(entries[i..j]) == 1 + c;
    assert WalkEntries(d, date, i, cursor, n).sends
      == [SendTo(cursor, File(entries[i].path, date))] + WalkEntries(d, date, i + 1, next, n).sends;
    ModAfterStep(cursor, c, n);
  }

  lemma ModAfterStep(cursor: nat, c: nat, n: nat)
    requires cursor < n
    ensures ((cursor + 1) % n + c) % n == (cursor + 1 + c) % n
  {
    if cursor + 1 == n {
      assert (cursor + 1) % n == 0;
      ModAddPeriod(c, n);
      assert n + c == cursor + 1 + c;
    } else {
      ModSmall(cursor + 1, n);
    }
  }

  /**
   * Within one `handle_dir` call, the k-th file entry of the listing
   * (counting files only, from 0) goes to worker `k mod n`, labelled with the
   * directory's own name. Subdirectories do not move the cursor, and a
   * subdirectory's own files start again at worker 0 (they are walked by
   * `WalkDir`, whose cursor starts at 0).
   */
  lemma RoundRobinDir(d: Dir, n: nat, j: nat)
    requires d.listing.Entries? && d.path.fileName.Utf8Name? && n >= 1
    requires j < |d.listing.entries| && d.listing.entries[j].FileEntry?
    requires Reaches(d, 0, j, n)
    ensures SendTo(FileCount(d.listing.entries[..j]) % n, File(d.listing.entries[j].path, d.path.fileName.name))
      in WalkDir(d, n).sends
  {
    RoundRobinFrom(d, d.path.fileName.name, 0, 0, n, j);
    assert d.listing.entries[0..j] == d.listing.entries[..j];
  }

  /** With no threads, the first file the walk reaches panics: `threads.get(0)` is `None`. */
  lemma {:induction false} NoThreadsPanics(d: Dir, i: nat, j: nat, date: string)
    requires d.listing.Entries? && i <= j < |d.listing.entries|
    requires d.listing.entries[j].FileEntry?
    requires Reaches(d, i, j, 0)
    ensures WalkEntries(d, date, i, 0, 0) == Walk([], Panicked)
    decreases j - i
  {
    if i < j {
      var e := d.listing.entries[i];
      if !e.FileEntry? {
        assert !e.UnknownType?;
        NoThreadsPanics(d, i + 1, j, date);
        if e.SubDir? {
          assert WalkDir(e.dir, 0).sends == [];
        }
      }
    }
  }

  /** The files of a directory with nothing but files, in order. */
  predicate FlatListing(d: Dir, files: seq<Path>) {
    && d.listing.Entries?
    && |d.listing.entries| == |files|
    && forall k :: 0 <= k < |files| ==> d.listing.entries[k] == FileEntry(files[k])
  }

  /** The tasks for `files[from]`, `files[from + n]`, `files[from + 2n]`, ... */
  function Strided(files: seq<Path>, date: string, from: nat, n: nat): (r: seq<ToSend>)
    requires n >= 1
    decreases |files| - from
  {
    if from >= |files| then [] else [File(files[from], date)] + Strided(files, date, from + n, n)
  }

  /** The tasks of the sends to worker `w`, in order. */
  function TasksFor(sends: seq<Send>, w: nat): (r: seq<ToSend>)
    ensures |r| <= |sends|
  {
    if sends == [] then []
    else (if sends[0].worker == w then [sends[0].task] else []) + TasksFor(sends[1..], w)
  }

  lemma {:induction false} TasksForConcat(a: seq<Send>, b: seq<Send>, w: nat)
    ensures TasksFor(a + b, w) == TasksFor(a, w) + TasksFor(b, w)
  {
    if a != [] {
      assert (a + b)[0] == a[0];
      assert (a + b)[1..] == a[1..] + b;
      TasksForConcat(a[1..], b, w);
    } else {
      assert a + b == b;
    }
  }

  /** How many steps the cursor takes from `cursor` to reach worker `w`. */
  function Distance(cursor: nat, w: nat, n: nat): nat
    requires cursor < n && w < n
  {
    if cursor <= w then w - cursor else w + n - cursor
  }

  /** The cursor after a file: `(cursor + 1) % n` wraps round to worker 0. */
  lemma NextCursor(cursor: nat, n: nat)
    requires cursor < n
    ensures (cursor + 1) % n == if cursor + 1 == n then 0 else cursor + 1
  {
    if cursor + 1 < n {
      ModSmall(cursor + 1, n);
    }
  }

  lemma {:induction false} FlatRoundRobinFrom(d: Dir, files: seq<Path>, date: string, i: nat, cursor: nat, n: nat, w: nat)
    requires FlatListing(d, files) && i <= |files| && cursor < n && w < n
    ensures TasksFor(WalkEntries(d, date, i, cursor, n).sends, w) == Strided(files, date, i + Distance(cursor, w, n), n)
    decreases |files| - i
  {
    if i < |files| {
      NextCursor(cursor, n);
      FlatRoundRobinFrom(d, files, date, i + 1, (cursor + 1) % n, n, w);
      FlatStep(d, files, date, i, cursor, n, w);
    }
  }

  /** The inductive step of `FlatRoundRobinFrom`: the file at `i` goes to `w` exactly when the cursor is at `w`. */
  lemma FlatStep(d: Dir, files: seq<Path>, date: string, i: nat, cursor: nat, n: nat, w: nat)
    requires FlatListing(d, files) && i < |files| && cursor < n && w < n
    requires TasksFor(WalkEntries(d, date, i + 1, (cursor + 1) % n, n).sends, w)
      == Strided(files, date, i + 1 + Distance((cursor + 1) % n, w, n), n)
    ensures TasksFor(WalkEntries(d, date, i, cursor, n).sends, w) == Strided(files, date, i + Distance(cursor, w, n), n)
  {
    var head := [SendTo(cursor, File(files[i], date))];
    var rest := WalkEntries(d, date, i + 1, (cursor + 1) % n, n);
    FlatSends(d, files, date, i, cursor, n);
    TasksForConcat(head, rest.sends, w);
    assert TasksFor(head, w) == (if cursor == w then [File(files[i], date)] else []) by {
      assert head[1..] == [];
    }
    DistanceStep(cursor, w, n);
    if cursor == w {
      assert Strided(files, date, i, n) == [File(files[i], date)] + Strided(files, date, i + n, n);
    }
  }

  /** In a listing of files only, the walk from `i` sends the file at `i` and goes on with the next cursor. */
  lemma FlatSends(d: Dir, files: seq<Path>, date: string, i: nat, cursor: nat, n: nat)
    requires FlatListing(d, files) && i < |files| && cursor < n
    ensures WalkEntries(d, date, i, cursor, n).sends
      == [SendTo(cursor, File(files[i], date))] + WalkEntries(d, date, i + 1, (cursor + 1) % n, n).sends
  {
    assert d.listing.entries[i] == FileEntry(files[i]);
  }

  /** After a file the cursor is one step nearer `w`, or, having just served `w`, a full round away. */
  lemma DistanceStep(cursor: nat, w: nat, n: nat)
    requires cursor < n && w < n
    ensures (cursor + 1) % n < n
    ensures cursor == w ==> 1 + Distance((cursor + 1) % n, w, n) == n
    ensures cursor != w ==> 1 + Distance((cursor + 1) % n, w, n) == Distance(cursor, w, n)
  {
    NextCursor(cursor, n);
  }

  /**
   * For a directory holding only files, worker `w` is sent exactly the files
   * at positions `w`, `w + n`, `w + 2n`, ... of the listing, in that order.
   */
  lemma FlatRoundRobin(d: Dir, files: seq<Path>, n: nat, w: nat)
    requires FlatListing(d, files) && d.path.fileName.Utf8Name? && w < n
    ensures TasksFor(WalkDir(d, n).sends, w) == Strided(files, d.path.fileName.name, w, n)
  {
    FlatRoundRobinFrom(d, files, d.path.fileName.name, 0, 0, n, w);
  }

  // ---------------------------------------------------------------------------
  // Queues
  // ---------------------------------------------------------------------------

  /** The effect of one send on the queues: a connected queue gets the task at its end. */
  function Post(queues: seq<seq<ToSend>>, connected: seq<bool>, s: Send): (r: seq<seq<ToSend>>)
    requires |connected| == |queues| && s.worker < |queues|
    ensures |r| == |queues|
  {
    if connected[s.worker] then queues[s.worker := queues[s.worker] + [s.task]] else queues
  }

  predicate SendsBelow(sends: seq<Send>, n: nat) {
    forall k :: 0 <= k < |sends| ==> sends[k].worker < n
  }

  /** The queues after the sends, one after the other. */
  function Deliver(queues: seq<seq<ToSend>>, connected: seq<bool>, sends: seq<Send>): (r: seq<seq<ToSend>>)
    requires |connected| == |queues| && SendsBelow(sends, |queues|)
    ensures |r| == |queues|
    decreases |sends|
  {
    if sends == [] then queues else Deliver(Post(queues, connected, sends[0]), connected, sends[1..])
  }

  lemma {:induction false} DeliverConcat(queues: seq<seq<ToSend>>, connected: seq<bool>, a: seq<Send>, b: seq<Send>)
    requires |connected| == |queues| && SendsBelow(a, |queues|) && SendsBelow(b, |queues|)
    ensures SendsBelow(a + b, |queues|)
    ensures Deliver(queues, connected, a + b) == Deliver(Deliver(queues, connected, a), connected, b)
    decreases |a|
  {
    assert SendsBelow(a + b, |queues|) by {
      forall k | 0 <= k < |a + b| ensures (a + b)[k].worker < |queues| {
        if k >= |a| { assert (a + b)[k] == b[k - |a|]; }
      }
    }
    if a != [] {
      assert (a + b)[0] == a[0];
      assert (a + b)[1..] == a[1..] + b;
      DeliverConcat(Post(queues, connected, a[0]), connected, a[1..], b);
    } else {
      assert a + b == b;
    }
  }

  /**
   * Each connected queue receives the tasks sent to it, in the order they
   * were sent, after what it held; a disconnected queue receives nothing.
   */
  lemma {:induction false} DeliverQueue(queues: seq<seq<ToSend>>, connected: seq<bool>, sends: seq<Send>, w: nat)
    requires |connected| == |queues| && SendsBelow(sends, |queues|) && w < |queues|
    ensures Deliver(queues, connected, sends)[w] == queues[w] + (if connected[w] then TasksFor(sends, w) else [])
    decreases |sends|
  {
    if sends != [] {
      var q1 := Post(queues, connected, sends[0]);
      var head := if sends[0].worker == w then [sends[0].task] else [];
      assert SendsBelow(sends[1..], |queues|);
      assert Deliver(queues, connected, sends) == Deliver(q1, connected, sends[1..]);
      DeliverQueue(q1, connected, sends[1..], w);
      PostQueue(queues, connected, sends[0], w);
      assert TasksFor(sends, w) == head + TasksFor(sends[1..], w);
      if connected[w] {
        assert q1[w] + TasksFor(sends[1..], w) == queues[w] + (head + TasksFor(sends[1..], w));
      }
    }
  }

  /** One send adds its task to the end of its worker's queue if connected, and touches no other queue. */
  lemma PostQueue(queues: seq<seq<ToSend>>, connected: seq<bool>, s: Send, w: nat)
    requires |connected| == |queues| && s.worker < |queues| && w < |queues|
    ensures Post(queues, connected, s)[w] == queues[w] + (if connected[w] && s.worker == w then [s.task] else [])
  {
  }

  /** The worker channels: one queue per worker, some of whose receivers may be gone. */
  class Pool {
    var queues: seq<seq<ToSend>>
    const connected: seq<bool>

    ghost predicate Valid()
      reads this
    {
      |queues| == |connected|
    }

    /** The `senders` vector `main` builds: one empty channel per thread. */
    constructor (connected: seq<bool>)
      ensures Valid() && this.connected == connected
      ensures queues == EmptyQueues(|connected|)
    {
      var senders: seq<seq<ToSend>> := [];
      while |senders| < |connected|
        invariant |senders| <= |connected|
        invariant senders == EmptyQueues(|senders|)
      {
        senders := senders + [[]];
      }
      this.connected := connected;
      this.queues := senders;
    }

    /** `Sender::send`: fails, and delivers nothing, when the receiver is gone. */
    method Send(w: nat, task: ToSend) returns (ok: bool)
      requires Valid() && w < |queues|
      modifies this
      ensures Valid() && ok == connected[w]
      ensures queues == Post(old(queues), connected, SendTo(w, task))
    {
      ok := connected[w];
      if ok {
        queues := queues[w := queues[w] + [task]];
      }
    }
  }

  function EmptyQueues(n: nat): (r: seq<seq<ToSend>>)
    ensures |r| == n && forall w :: 0 <= w < n ==> r[w] == []
  {
    seq(n, _ => [])
  }

  /** `handle_dir`: walks `d`, sending its file tasks into the pool's queues. */
  method HandleDir(pool: Pool, d: Dir) returns (status: Status)
    requires pool.Valid()
    modifies pool
    ensures pool.Valid() && |pool.queues| == |old(pool.queues)|
    ensures status == WalkDir(d, |pool.queues|).status
    ensures pool.queues == Deliver(old(pool.queues), pool.connected, WalkDir(d, |pool.queues|).sends)
    decreases d, 1
  {
    var numThreads := |pool.queues|;
    var currentSenderIdx: nat := 0;
    if d.listing.Unreadable? {
      return Aborted(IO(ReadDir));
    }
    var date;
    match GetFilename(d.path) {
      case Err(e) => return Aborted(e);
      case Ok(name) => date := name;
    }
    var entries := d.listing.entries;
    var i := 0;
    ghost var sent: seq<Send> := [];
    while i < |entries|
      invariant 0 <= i <= |entries|
      invariant pool.Valid() && |pool.queues| == numThreads
      invariant currentSenderIdx == 0 || currentSenderIdx < numThreads
      invariant SendsBelow(sent, numThreads)
      invariant WalkEntries(d, date, 0, 0, numThreads) == Then(sent, WalkEntries(d, date, i, currentSenderIdx, numThreads))
      invariant pool.queues == Deliver(old(pool.queues), pool.connected, sent)
    {
      ghost var here := WalkEntries(d, date, i, currentSenderIdx, numThreads);
      match entries[i] {
        case BadEntry =>
          assert here == WalkEntries(d, date, i + 1, currentSenderIdx, numThreads);
        case UnknownType(_) =>
          assert here == Walk([], Aborted(IO(FileType)));
          assert sent + [] == sent;
          return Aborted(IO(FileType));
        case SubDir(sub) =>
          var s := HandleDir(pool, sub);
          ghost var inner := WalkDir(sub, numThreads);
          DeliverConcat(old(pool.queues), pool.connected, sent, inner.sends);
          if !s.Finished? {
            assert here == inner;
            sent := sent + inner.sends;
            return s;
          }
          ghost var rest := WalkEntries(d, date, i + 1, currentSenderIdx, numThreads);
          assert here == Then(inner.sends, rest);
          ThenThen(sent, inner.sends, rest);
          sent := sent + inner.sends;
        case FileEntry(p) =>
          if currentSenderIdx >= numThreads {
            assert here == Walk([], Panicked);
            assert sent + [] == sent;
            return Panicked;
          }
          var task := File(p, date);
          // A failed send is printed and the walk goes on.
          var _ := pool.Send(currentSenderIdx, task);
          var next := (currentSenderIdx + 1) % numThreads;
          ghost var rest := WalkEntries(d, date, i + 1, next, numThreads);
          assert here == Then([SendTo(currentSenderIdx, task)], rest);
          ThenThen(sent, [SendTo(currentSenderIdx, task)], rest);
          DeliverConcat(old(pool.queues), pool.connected, sent, [SendTo(currentSenderIdx, task)]);
          sent := sent + [SendTo(currentSenderIdx, task)];
          currentSenderIdx := next;
      }
      i := i + 1;
    }
    assert sent + [] == sent;
    return Finished;
  }

  // ---------------------------------------------------------------------------
  // The tail of main
  // ---------------------------------------------------------------------------

  /** `for directory in &options.directories { handle_dir(directory, &senders)?; }` */
  function WalkRoots(roots: seq<Dir>, n: nat): (w: Walk)
    ensures FileSendsBelow(w.sends, n)
    ensures n == 0 ==> w.sends == []
    decreases |roots|
  {
    if roots == [] then Walk([], Finished)
    else
      var first := WalkDir(roots[0], n);
      if first.status.Finished? then Then(first.sends, WalkRoots(roots[1..], n)) else first
  }

  /** `for sender in senders { sender.send(ToSend::Done)?; }` from worker `w` on. */
  function SendDone(connected: seq<bool>, w: nat): (r: Walk)
    requires w <= |connected|
    ensures SendsBelow(r.sends, |connected|)
    decreases |connected| - w
  {
    if w == |connected| then Walk([], Finished)
    else if connected[w] then Then([SendTo(w, Done)], SendDone(connected, w + 1))
    else Walk([SendTo(w, Done)], Aborted(Thread(Done)))
  }

  /** Everything `main` sends, with one thread per entry of `connected`, and how it ends before joining. */
  function MainSends(roots: seq<Dir>, connected: seq<bool>): (r: Walk)
    ensures SendsBelow(r.sends, |connected|)
  {
    var walk := WalkRoots(roots, |connected|);
    if walk.status.Finished? then Then(walk.sends, SendDone(connected, 0)) else walk
  }

  /** The loop of `main` over the root directories, each handed to `handle_dir` until one fails. */
  method HandleRoots(pool: Pool, roots: seq<Dir>) returns (status: Status)
    requires pool.Valid()
    modifies pool
    ensures pool.Valid() && |pool.queues| == |old(pool.queues)|
    ensures status == WalkRoots(roots, |pool.queues|).status
    ensures pool.queues == Deliver(old(pool.queues), pool.connected, WalkRoots(roots, |pool.queues|).sends)
  {
    var n := |pool.queues|;
    ghost var sent: seq<Send> := [];
    var r := 0;
    while r < |roots|
      invariant r <= |roots|
      invariant pool.Valid() && |pool.queues| == n
      invariant SendsBelow(sent, n)
      invariant WalkRoots(roots, n) == Then(sent, WalkRoots(roots[r..], n))
      invariant pool.queues == Deliver(old(pool.queues), pool.connected, sent)
    {
      assert roots[r..][0] == roots[r] && roots[r..][1..] == roots[r + 1..];
      ghost var first := WalkDir(roots[r], n);
      var s := HandleDir(pool, roots[r]);
      DeliverConcat(old(pool.queues), pool.connected, sent, first.sends);
      if !s.Finished? {
        assert WalkRoots(roots[r..], n) == first;
        sent := sent + first.sends;
        return s;
      }
      assert WalkRoots(roots[r..], n) == Then(first.sends, WalkRoots(roots[r + 1..], n));
      ThenThen(sent, first.sends, WalkRoots(roots[r + 1..], n));
      sent := sent + first.sends;
      r := r + 1;
    }
    assert WalkRoots(roots[r..], n) == Walk([], Finished);
    assert sent + [] == sent;
    return Finished;
  }

  /** The loop of `main` that sends `Done` down every channel, stopping at the first failed send. */
  method SendDoneToAll(pool: Pool) returns (status: Status)
    requires pool.Valid()
    modifies pool
    ensures pool.Valid() && |pool.queues| == |old(pool.queues)|
    ensures status == SendDone(pool.connected, 0).status
    ensures pool.queues == Deliver(old(pool.queues), pool.connected, SendDone(pool.connected, 0).sends)
  {
    var n := |pool.queues|;
    ghost var sent: seq<Send> := [];
    var w := 0;
    while w < n
      invariant w <= n
      invariant pool.Valid() && |pool.queues| == n
      invariant SendsBelow(sent, n)
      invariant SendDone(pool.connected, 0) == Then(sent, SendDone(pool.connected, w))
      invariant pool.queues == Deliver(old(pool.queues), pool.connected, sent)
    {
      var ok := pool.Send(w, Done);
      DeliverSnoc(old(pool.queues), pool.connected, sent, SendTo(w, Done));
      SendDoneStep(pool.connected, w, sent);
      sent := sent + [SendTo(w, Done)];
      if !ok {
        return Aborted(Thread(Done));
      }
      w := w + 1;
    }
    assert sent + [] == sent;
    return Finished;
  }

  /** Delivering one more send is posting it to the queues delivered so far. */
  lemma DeliverSnoc(queues: seq<seq<ToSend>>, connected: seq<bool>, sent: seq<Send>, s: Send)
    requires |connected| == |queues| && SendsBelow(sent, |queues|) && s.worker < |queues|
    ensures SendsBelow(sent + [s], |queues|)
    ensures Deliver(queues, connected, sent + [s]) == Post(Deliver(queues, connected, sent), connected, s)
  {
    DeliverConcat(queues, connected, sent, [s]);
    var q := Deliver(queues, connected, sent);
    assert [s][1..] == [];
    assert Deliver(q, connected, [s]) == Deliver(Post(q, connected, s), connected, []);
  }

  /** One more `Done` in the shutdown loop: the trace so far grows by that send. */
  lemma SendDoneStep(connected: seq<bool>, w: nat, sent: seq<Send>)
    requires w < |connected| && SendDone(connected, 0) == Then(sent, SendDone(connected, w))
    ensures connected[w] ==> SendDone(connected, 0) == Then(sent + [SendTo(w, Done)], SendDone(connected, w + 1))
    ensures !connected[w] ==> SendDone(connected, 0) == Walk(sent + [SendTo(w, Done)], Aborted(Thread(Done)))
  {
    if connected[w] {
      ThenThen(sent, [SendTo(w, Done)], SendDone(connected, w + 1));
    }
  }

  /** `main` up to the joins: build the channels, walk every root, then send `Done` to every worker. */
  method Run(roots: seq<Dir>, connected: seq<bool>) returns (pool: Pool, status: Status)
    ensures fresh(pool) && pool.Valid() && pool.connected == connected
    ensures status == MainSends(roots, connected).status
    ensures pool.queues == Deliver(EmptyQueues(|connected|), connected, MainSends(roots, connected).sends)
  {
    pool := new Pool(connected);
    ghost var walk := WalkRoots(roots, |connected|);
    status := HandleRoots(pool, roots);
    if !status.Finished? {
      return;
    }
    status := SendDoneToAll(pool);
    DeliverConcat(EmptyQueues(|connected|), connected, walk.sends, SendDone(connected, 0).sends);
  }

  /** Every file task sent to worker `w`, in traversal order. */
  function FileTasks(roots: seq<Dir>, n: nat, w: nat): seq<ToSend> {
    TasksFor(WalkRoots(roots, n).sends, w)
  }

  lemma {:induction false} TasksForFiles(sends: seq<Send>, n: nat, w: nat)
    requires FileSendsBelow(sends, n)
    ensures forall k :: 0 <= k < |TasksFor(sends, w)| ==> TasksFor(sends, w)[k].File?
  {
    if sends != [] {
      TasksForFiles(sends[1..], n, w);
    }
  }

  lemma {:induction false} SendDoneTasks(connected: seq<bool>, w: nat, v: nat)
    requires w <= v < |connected| && SendDone(connected, w).status.Finished?
    ensures TasksFor(SendDone(connected, w).sends, v) == [Done]
    ensures forall u :: w <= u < |connected| ==> connected[u]
    decreases |connected| - w
  {
    var rest := SendDone(connected, w + 1);
    if w == v {
      if v + 1 < |connected| {
        SendDoneNotBefore(connected, w + 1, v);
      }
      assert TasksFor(rest.sends, v) == [];
    } else {
      SendDoneTasks(connected, w + 1, v);
    }
    if w + 1 < |connected| {
      SendDoneTasks(connected, w + 1, w + 1);
    }
    TasksForConcat([SendTo(w, Done)], rest.sends, v);
  }

  lemma {:induction false} SendDoneNotBefore(connected: seq<bool>, w: nat, v: nat)
    requires v < w <= |connected|
    ensures TasksFor(SendDone(connected, w).sends, v) == []
    decreases |connected| - w
  {
    if w < |connected| {
      var rest := SendDone(connected, w + 1);
      SendDoneNotBefore(connected, w + 1, v);
      if connected[w] {
        TasksForConcat([SendTo(w, Done)], rest.sends, v);
      }
    }
  }

  /**
   * When every root is walked and every worker is still listening, each
   * queue holds the file tasks sent to that worker in traversal order, then
   * exactly one `Done`.
   */
  lemma DoneSentLast(roots: seq<Dir>, connected: seq<bool>, w: nat)
    requires MainSends(roots, connected).status.Finished? && w < |connected|
    ensures WalkRoots(roots, |connected|).status.Finished?
    ensures forall v :: 0 <= v < |connected| ==> connected[v]
    ensures var queue := Deliver(EmptyQueues(|connected|), connected, MainSends(roots, connected).sends)[w];
      && queue == FileTasks(roots, |connected|, w) + [Done]
      && forall k :: 0 <= k < |queue| - 1 ==> queue[k].File?
  {
    var n := |connected|;
    var walk := WalkRoots(roots, n);
    SendDoneTasks(connected, 0, w);
    DeliverQueue(EmptyQueues(n), connected, MainSends(roots, connected).sends, w);
    TasksForConcat(walk.sends, SendDone(connected, 0).sends, w);
    TasksForFiles(walk.sends, n, w);
  }

  /** When a root cannot be walked, no worker is ever sent `Done`. */
  lemma NoDoneAfterFailure(roots: seq<Dir>, connected: seq<bool>, w: nat)
    requires !WalkRoots(roots, |connected|).status.Finished? && w < |connected|
    ensures MainSends(roots, connected).status == WalkRoots(roots, |connected|).status
    ensures Done !in Deliver(EmptyQueues(|connected|), connected, MainSends(roots, connected).sends)[w]
  {
    var walk := WalkRoots(roots, |connected|);
    DeliverQueue(EmptyQueues(|connected|), connected, walk.sends, w);
    TasksForFiles(walk.sends, |connected|, w);
  }
}
