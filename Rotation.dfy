/**
 * What one call of the rotator does, as functions of its state, its
 * configuration and the operating system's answers (Env): the renumbering loop
 * of renameAllFiles, the decision of rotate, the dispatch of writeImpl.
 * The class in LogRotate.dfy runs the same steps imperatively and is proved to
 * leave exactly the state these functions describe.
 */
module Rotation {
  import opened Wrappers
  import opened Naming
  import opened Directory
  import opened Scan

  /** The constructor's arguments: the directory, _number (files kept) and _maxSize (bytes per file). */
  datatype Config = Config(path: string, number: int, maxSize: int)

  /** The cached std::ofstream: open or not, badbit set or not, and the path it writes to. */
  datatype Stream = Stream(isOpen: bool, bad: bool, target: string)

  /** The rotator's mutable fields together with the directory they refer to. */
  datatype State = State(dir: Dir, currentFilePath: string, stream: Stream)

  /** A member's result: a boolean return, or the message of a thrown runtime_error. */
  datatype Outcome = Returned(ok: bool) | Threw(message: string)

  datatype Step = Step(state: State, outcome: Outcome)

  const NumberError: string := "`vNumber` must be greater than 0"
  const MaxSizeError: string := "`vMaxSize` must be greater than 0"

  /** The constructor's checks, in their order: the file count first, then the size. */
  function ConfigError(vNumber: int, vMaxSize: int): (r: Option<string>)
    ensures r.None? <==> vNumber >= 1 && vMaxSize >= 1
    ensures vNumber < 1 ==> r == Some(NumberError)
    ensures vNumber >= 1 && vMaxSize < 1 ==> r == Some(MaxSizeError)
  {
    if vNumber < 1 then Some(NumberError)
    else if vMaxSize < 1 then Some(MaxSizeError)
    else None
  }

  /** A freshly constructed rotator: no current path, the stream closed. */
  function InitialState(dir: Dir): State {
    State(dir, "", Stream(false, false, ""))
  }

  /** _currentFile.open(path, std::ios::app); a failure leaves the stream closed. */
  function OpenStream(st: State, cfg: Config, path: string, env: Env): (r: Step)
    ensures r.state.currentFilePath == st.currentFilePath
    ensures r.outcome == Returned(r.state.stream.isOpen)
    ensures r.state.stream.isOpen <==> NameInDir(cfg.path, path).Some? && path !in env.openFails
    ensures r.state.stream.isOpen ==>
      && r.state.stream == Stream(true, false, path)
      && NameInDir(cfg.path, path).value in r.state.dir
      && r.state.dir.Keys == st.dir.Keys + {NameInDir(cfg.path, path).value}
      && (forall x :: x in st.dir ==> r.state.dir[x] == st.dir[x])
    ensures !r.state.stream.isOpen ==> r.state.dir == st.dir && r.state.stream.target == st.stream.target
  {
    match OpenForAppend(st.dir, cfg.path, path, env)
    case Some(d) => Step(State(d, st.currentFilePath, Stream(true, false, path)), Returned(true))
    case None => Step(st.(stream := st.stream.(isOpen := false)), Returned(false))
  }

  /** createAndWriteHelper: remember the numbered path, then open it for append. */
  function CreateSpec(st: State, cfg: Config, number: nat, env: Env): (r: Step)
    ensures r.state.currentFilePath == NumberedPath(cfg.path, number)
    ensures r.outcome == Returned(true) <==> NumberedPath(cfg.path, number) !in env.openFails
    ensures r.outcome == Returned(true) ==>
      && r.state.stream == Stream(true, false, NumberedPath(cfg.path, number))
      && r.state.dir.Keys == st.dir.Keys + {FileName(number)}
      && (forall x :: x in st.dir ==> r.state.dir[x] == st.dir[x])
      && (FileName(number) !in st.dir ==> r.state.dir[FileName(number)] == FileInfo(0, env.now))
    ensures r.outcome != Returned(true) ==> r.outcome == Returned(false) && r.state.dir == st.dir && !r.state.stream.isOpen
  {
    var path := NumberedPath(cfg.path, number);
    OpenStream(st.(currentFilePath := path), cfg, path, env)
  }

  /** `_currentFile << text << std::endl`: the text and a newline land in the stream's file. */
  function AppendSpec(st: State, cfg: Config, text: string, env: Env): (r: Step)
    ensures r.outcome == Returned(!env.writeFails)
    ensures r.state.currentFilePath == st.currentFilePath && r.state.dir.Keys == st.dir.Keys
    ensures env.writeFails ==> r.state.dir == st.dir && r.state.stream == st.stream.(bad := true)
    ensures !env.writeFails ==> r.state.stream == st.stream
    ensures !env.writeFails ==> forall x :: x in st.dir ==>
      r.state.dir[x].size == st.dir[x].size + (if Some(x) == NameInDir(cfg.path, st.stream.target) then |text| + 1 else 0)
  {
    if env.writeFails then
      Step(st.(stream := st.stream.(bad := true)), Returned(false))
    else
      Step(st.(dir := AppendTo(st.dir, cfg.path, st.stream.target, |text| + 1, env.now)), Returned(true))
  }

  /** What renameAllFiles leaves: the directory, the list, its result, the renames that succeeded. */
  datatype Renumbered = Renumbered(dir: Dir, list: seq<Entry>, ok: bool, done: nat)

  /**
   * renameAllFiles from its step t on: step t renames the entry at position
   * |list| - 1 - t (counting from the oldest) to index t and writes the new name
   * into the list; the first failing rename ends the loop.
   */
  function RenumberFrom(dir: Dir, base: string, list: seq<Entry>, env: Env, t: nat): (r: Renumbered)
    requires t <= |list|
    ensures t <= r.done <= |list| && |r.list| == |list|
    ensures r.ok <==> r.done == |list|
    decreases |list| - t
  {
    if t == |list| then Renumbered(dir, list, true, t)
    else
      var i := |list| - 1 - t;
      var file := FileName(t);
      match Rename(dir, base, FilePath(base, list[i].name), FilePath(base, file), env)
      case None => Renumbered(dir, list, false, t)
      case Some(d) => RenumberFrom(d, base, list[i := list[i].(name := file)], env, t + 1)
  }

  /** With every entry renamed, renameAllFiles returns true with the directory and list as they are. */
  lemma RenumberFromDone(dir: Dir, base: string, list: seq<Entry>, env: Env, t: nat)
    requires t == |list|
    ensures RenumberFrom(dir, base, list, env, t) == Renumbered(dir, list, true, t)
  {
  }

  /** One step of renameAllFiles: a failing rename stops it, a successful one moves on to step t + 1. */
  lemma RenumberFromStep(dir: Dir, base: string, list: seq<Entry>, env: Env, t: nat)
    requires t < |list|
    ensures var i := |list| - 1 - t;
      var res := Rename(dir, base, FilePath(base, list[i].name), FilePath(base, FileName(t)), env);
      && (res.None? ==> RenumberFrom(dir, base, list, env, t) == Renumbered(dir, list, false, t))
      && (res.Some? ==> RenumberFrom(dir, base, list, env, t)
                          == RenumberFrom(res.value, base, list[i := list[i].(name := FileName(t))], env, t + 1))
  {
  }

  function Renumber(dir: Dir, base: string, list: seq<Entry>, env: Env): (r: Renumbered)
    ensures r.done <= |list| && |r.list| == |list|
    ensures r.ok <==> r.done == |list|
  {
    RenumberFrom(dir, base, list, env, 0)
  }

  /** The name renameAllFiles moves at its step t: the entry t places from the end (the oldest first). */
  function Source(list: seq<Entry>, t: nat): string
    requires t < |list|
  {
    list[|list| - 1 - t].name
  }

  /** A rename that succeeds: the source moves onto the destination. */
  function RenameStep(dir: Dir, src: string, dst: string): Dir {
    if src in dir then Move(dir, src, dst) else dir
  }

  /** The directory after the first k renames of renameAllFiles have all succeeded. */
  function Renamed(dir: Dir, list: seq<Entry>, k: nat): Dir
    requires k <= |list|
  {
    if k == 0 then dir else RenameStep(Renamed(dir, list, k - 1), Source(list, k - 1), FileName(k - 1))
  }

  /** The situation after the first t renames have succeeded. */
  ghost predicate RenumberedUpTo(dir0: Dir, list0: seq<Entry>, dir: Dir, list: seq<Entry>, t: nat)
  {
    && t <= |list0|
    && dir == Renamed(dir0, list0, t)
    && ListRenamedUpTo(list0, list, t)
  }

  /** The list after t steps: the t oldest entries carry their new names, the rest are as they were. */
  ghost predicate ListRenamedUpTo(list0: seq<Entry>, list: seq<Entry>, t: nat)
  {
    && t <= |list0| == |list|
    && (forall i :: 0 <= i < |list| ==> list[i].mtime == list0[i].mtime)
    && (forall i :: |list| - t <= i < |list| ==> list[i].name == FileName(|list| - 1 - i))
    && (forall i :: 0 <= i < |list| - t ==> list[i] == list0[i])
  }

  /** Step t of renameAllFiles, renaming the original entry |list0| - 1 - t to index t, fails in `dir`. */
  predicate RenameFailsAt(dir: Dir, base: string, list0: seq<Entry>, t: nat, env: Env) {
    && t < |list0|
    && Rename(dir, base, FilePath(base, list0[|list0| - 1 - t].name), FilePath(base, FileName(t)), env).None?
  }

  lemma ListRenameStep(list0: seq<Entry>, list: seq<Entry>, t: nat)
    requires ListRenamedUpTo(list0, list, t)
    requires t < |list|
    ensures ListRenamedUpTo(list0, list[|list| - 1 - t := list[|list| - 1 - t].(name := FileName(t))], t + 1)
  {
  }

  /** A successful step t extends the situation after t renames to the one after t + 1. */
  lemma RenumberedStep(dir0: Dir, list0: seq<Entry>, dir: Dir, base: string, list: seq<Entry>, env: Env, t: nat)
    requires RenumberedUpTo(dir0, list0, dir, list, t) && t < |list|
    requires Rename(dir, base, FilePath(base, list[|list| - 1 - t].name), FilePath(base, FileName(t)), env).Some?
    ensures var i := |list| - 1 - t;
      RenumberedUpTo(dir0, list0,
        Rename(dir, base, FilePath(base, list[i].name), FilePath(base, FileName(t)), env).value,
        list[i := list[i].(name := FileName(t))], t + 1)
  {
    var i := |list| - 1 - t;
    assert list[i] == list0[i];
    var src := FilePath(base, list[i].name);
    var dst := FilePath(base, FileName(t));
    assert NameInDir(base, src) == Some(list[i].name);
    assert NameInDir(base, dst) == Some(FileName(t));
    assert list[i].name in dir;
    assert Rename(dir, base, src, dst, env).value == Move(dir, list[i].name, FileName(t));
    ListRenameStep(list0, list, t);
  }

  lemma {:induction false} RenumberFromOutcome(
    dir0: Dir, list0: seq<Entry>, dir: Dir, base: string, list: seq<Entry>, env: Env, t: nat)
    requires RenumberedUpTo(dir0, list0, dir, list, t)
    ensures var r := RenumberFrom(dir, base, list, env, t);
      && t <= r.done <= |list0|
      && (r.ok <==> r.done == |list0|)
      && RenumberedUpTo(dir0, list0, r.dir, r.list, r.done)
      && (!r.ok ==> RenameFailsAt(r.dir, base, list0, r.done, env))
    decreases |list| - t
  {
    if t < |list| {
      var i := |list| - 1 - t;
      var res := Rename(dir, base, FilePath(base, list[i].name), FilePath(base, FileName(t)), env);
      RenumberFromStep(dir, base, list, env, t);
      if res.Some? {
        RenumberedStep(dir0, list0, dir, base, list, env, t);
        RenumberFromOutcome(dir0, list0, res.value, base, list[i := list[i].(name := FileName(t))], env, t + 1);
      } else {
        assert list[i] == list0[i];
      }
    } else {
      RenumberFromDone(dir, base, list, env, t);
    }
  }

  /**
   * renameAllFiles: entry i ends up named index |list| - 1 - i (the oldest gets 0),
   * modification times stay, and the first failing rename stops the loop with the
   * earlier renames done, the later entries untouched and nothing rolled back.
   */
  lemma RenumberOutcome(dir: Dir, base: string, list: seq<Entry>, env: Env)
    ensures var r := Renumber(dir, base, list, env);
      && r.done <= |list|
      && (r.ok <==> r.done == |list|)
      && r.dir == Renamed(dir, list, r.done)
      && |r.list| == |list|
      && (forall i :: 0 <= i < |list| ==> r.list[i].mtime == list[i].mtime)
      && (forall i :: |list| - r.done <= i < |list| ==> r.list[i].name == FileName(|list| - 1 - i))
      && (forall i :: 0 <= i < |list| - r.done ==> r.list[i] == list[i])
      && (!r.ok ==> RenameFailsAt(r.dir, base, list, r.done, env))
  {
    assert RenumberedUpTo(dir, list, dir, list, 0);
    RenumberFromOutcome(dir, list, dir, base, list, env, 0);
  }

  /** The list renameAllFiles leaves: same length, same times, and after success every entry i named index |list| - 1 - i. */
  lemma RenumberedList(dir: Dir, base: string, list: seq<Entry>, env: Env)
    ensures var r := Renumber(dir, base, list, env);
      && |r.list| == |list|
      && (forall i :: 0 <= i < |list| ==> r.list[i].mtime == list[i].mtime)
      && (r.ok ==> forall i :: 0 <= i < |list| ==> r.list[i].name == FileName(|list| - 1 - i))
  {
    RenumberOutcome(dir, base, list, env);
  }

  /** isFileOk on the path of the list's k-th entry, as rotate asks it. */
  function StatusAt(st: State, cfg: Config, list: seq<Entry>, k: nat): FileErr
    requires k < |list|
  {
    IsFileOk(st.dir, cfg.path, cfg.maxSize, FilePath(cfg.path, list[k].name))
  }

  /** A rename of a present file that the system does not refuse moves it. */
  lemma RenameOfPresent(dir: Dir, base: string, src: string, dst: string, env: Env)
    requires src in dir && (FilePath(base, src), FilePath(base, dst)) !in env.renameFails
    ensures Rename(dir, base, FilePath(base, src), FilePath(base, dst), env) == Some(Move(dir, src, dst))
  {
  }

  /** With no rename refused and every source present when its turn comes, renameAllFiles completes. */
  lemma RenumberSucceeds(dir: Dir, base: string, list: seq<Entry>, env: Env)
    requires forall t :: 0 <= t < |list| ==> (FilePath(base, Source(list, t)), FilePath(base, FileName(t))) !in env.renameFails
    requires forall t :: 0 <= t < |list| ==> Source(list, t) in Renamed(dir, list, t)
    ensures Renumber(dir, base, list, env).ok
    ensures Renumber(dir, base, list, env).dir == Renamed(dir, list, |list|)
  {
    RenumberOutcome(dir, base, list, env);
    forall t | 0 <= t < |list|
      ensures !RenameFailsAt(Renamed(dir, list, t), base, list, t, env)
    {
      RenameOfPresent(Renamed(dir, list, t), base, Source(list, t), FileName(t), env);
    }
  }

  /** rotate from its k-th entry on (the range-for over dirList, newest first). */
  function RotateFrom(st: State, cfg: Config, list: seq<Entry>, env: Env, k: nat): (r: Step)
    requires k <= |list|
    ensures r.outcome == Returned(true) ==> r.state.stream.isOpen && !r.state.stream.bad
    ensures r.outcome.Threw? ==> !r.state.stream.isOpen
    ensures r.outcome == Returned(false) ==> r.state.stream == st.stream || !r.state.stream.isOpen
    decreases |list| - k
  {
    if k == |list| then Step(st, Returned(false))
    else
      var path := FilePath(cfg.path, list[k].name);
      match StatusAt(st, cfg, list, k)
      case NoExists => Step(st, Returned(false))
      case NoError =>
        var o := OpenStream(st, cfg, path, env);
        if o.state.stream.isOpen then Step(o.state, Returned(true))
        else Step(o.state, Threw("Failed to open file " + path))
      case BadSize =>
        if k < |list| - 1 then RotateFrom(st, cfg, list, env, k + 1)
        else if cfg.number > |list| then
          var r := Renumber(st.dir, cfg.path, list, env);
          CreateSpec(st.(dir := r.dir), cfg, |r.list|, env)
        else
          match Unlink(st.dir, cfg.path, FilePath(cfg.path, list[k].name), env)
          case None => Step(st, Returned(false))
          case Some(d) =>
            var r := Renumber(d, cfg.path, list[..k], env);
            if r.ok then CreateSpec(st.(dir := r.dir), cfg, |r.list|, env)
            else Step(st.(dir := r.dir), Returned(false))
  }

  function Rotate(st: State, cfg: Config, list: seq<Entry>, env: Env): (r: Step)
    ensures r.outcome == Returned(true) ==> r.state.stream.isOpen && !r.state.stream.bad
    ensures r.outcome.Threw? ==> !r.state.stream.isOpen
    ensures r.outcome == Returned(false) ==> r.state.stream == st.stream || !r.state.stream.isOpen
  {
    RotateFrom(st, cfg, list, env, 0)
  }

  /** The first k entries of the list are all full. */
  ghost predicate FullBefore(st: State, cfg: Config, list: seq<Entry>, k: nat) {
    k <= |list| && forall j :: 0 <= j < k ==> StatusAt(st, cfg, list, j) == BadSize
  }

  /** rotate skips full files that are not the last: starting over at the first other one changes nothing. */
  lemma {:induction false} RotateSkipsFull(st: State, cfg: Config, list: seq<Entry>, env: Env, k: nat)
    requires k < |list| && FullBefore(st, cfg, list, k)
    ensures Rotate(st, cfg, list, env) == RotateFrom(st, cfg, list, env, k)
  {
    if k > 0 {
      RotateSkipsFull(st, cfg, list, env, k - 1);
      assert StatusAt(st, cfg, list, k - 1) == BadSize;
    }
  }

  /** rotate gives up, changing nothing, at a missing file all of whose newer entries are full. */
  lemma RotateStopsAtMissing(st: State, cfg: Config, list: seq<Entry>, env: Env, k: nat)
    requires k < |list| && FullBefore(st, cfg, list, k)
    requires StatusAt(st, cfg, list, k) == NoExists
    ensures Rotate(st, cfg, list, env) == Step(st, Returned(false))
  {
    RotateSkipsFull(st, cfg, list, env, k);
  }

  /**
   * rotate reopens the first writable file for append and keeps _currentFilePath;
   * when that open fails it throws, naming the path.
   */
  lemma RotateReusesWritable(st: State, cfg: Config, list: seq<Entry>, env: Env, k: nat)
    requires k < |list| && FullBefore(st, cfg, list, k)
    requires StatusAt(st, cfg, list, k) == NoError
    ensures var r := Rotate(st, cfg, list, env);
      var path := FilePath(cfg.path, list[k].name);
      && r.state.currentFilePath == st.currentFilePath
      && (path !in env.openFails ==> r == Step(st.(stream := Stream(true, false, path)), Returned(true)))
      && (path in env.openFails ==>
            r == Step(st.(stream := st.stream.(isOpen := false)), Threw("Failed to open file " + path)))
  {
    RotateSkipsFull(st, cfg, list, env, k);
    var path := FilePath(cfg.path, list[k].name);
    assert NameInDir(cfg.path, path) == Some(list[k].name);
  }

  /**
   * Every file full and fewer than _number of them: nothing is unlinked, the
   * renumbering runs (its result is ignored) and app_<count> becomes current,
   * whether or not the renaming succeeded.
   */
  lemma RotateWithRoom(st: State, cfg: Config, list: seq<Entry>, env: Env)
    requires |list| >= 1 && FullBefore(st, cfg, list, |list|)
    requires cfg.number > |list|
    ensures var r := Rotate(st, cfg, list, env);
      var rn := Renumber(st.dir, cfg.path, list, env);
      var path := NumberedPath(cfg.path, |list|);
      && r.state.currentFilePath == path
      && (path !in env.openFails ==>
            && r.outcome == Returned(true) && r.state.stream == Stream(true, false, path)
            && r.state.dir == OpenForAppend(rn.dir, cfg.path, path, env).value
            && r.state.dir.Keys == rn.dir.Keys + {FileName(|list|)})
      && (path in env.openFails ==> r.outcome == Returned(false) && r.state.dir == rn.dir && !r.state.stream.isOpen)
  {
    RotateSkipsFull(st, cfg, list, env, |list| - 1);
    RenumberOutcome(st.dir, cfg.path, list, env);
  }

  /**
   * Every file full and _number of them or more: the oldest (last) entry is
   * unlinked and dropped, the rest renumbered, and app_<count - 1> becomes
   * current; a failed unlink or a failed renumbering creates nothing.
   */
  lemma RotateEvicts(st: State, cfg: Config, list: seq<Entry>, env: Env)
    requires |list| >= 1 && FullBefore(st, cfg, list, |list|)
    requires cfg.number <= |list|
    ensures var r := Rotate(st, cfg, list, env);
      var last := |list| - 1;
      var oldest := list[last].name;
      var path := NumberedPath(cfg.path, last);
      && (Unlink(st.dir, cfg.path, FilePath(cfg.path, oldest), env).None? ==> r == Step(st, Returned(false)))
      && (Unlink(st.dir, cfg.path, FilePath(cfg.path, oldest), env).Some? ==>
            var rn := Renumber(st.dir - {oldest}, cfg.path, list[..last], env);
            && (!rn.ok ==> r == Step(st.(dir := rn.dir), Returned(false)))
            && (rn.ok ==>
                  && r.state.currentFilePath == path
                  && (path !in env.openFails <==> r.outcome == Returned(true))
                  && (path !in env.openFails ==>
                        && r.state.stream == Stream(true, false, path)
                        && r.state.dir == OpenForAppend(rn.dir, cfg.path, path, env).value)
                  && (path in env.openFails ==>
                        && r.outcome == Returned(false)
                        && r.state.dir == rn.dir
                        && !r.state.stream.isOpen)))
  {
    RotateSkipsFull(st, cfg, list, env, |list| - 1);
    var last := |list| - 1;
    var oldest := list[last].name;
    assert NameInDir(cfg.path, FilePath(cfg.path, oldest)) == Some(oldest);
    RenumberOutcome(st.dir - {oldest}, cfg.path, list[..last], env);
  }

  /** writeImpl: scan, sort newest first, then create, append to the cached stream, or rotate. */
  function WriteSpec(st: State, cfg: Config, text: string, env: Env): (r: Step)
    ensures r.outcome == Returned(true) ==> r.state.stream.isOpen && !r.state.stream.bad && !env.writeFails
    ensures r.outcome.Threw? ==> !r.state.stream.isOpen
    ensures env.writeFails && r.state.stream.isOpen ==> r.state.stream.bad || r.state.stream == st.stream
  {
    var list := SortByMtime(DirList(st.dir, cfg.path, env.listing));
    if |list| == 0 then
      var c := CreateSpec(st, cfg, 0, env);
      if c.outcome == Returned(true) then AppendSpec(c.state, cfg, text, env) else c
    else if st.stream.isOpen && !st.stream.bad
            && IsFileOk(st.dir, cfg.path, cfg.maxSize, st.currentFilePath) == NoError then
      AppendSpec(st, cfg, text, env)
    else
      var r := Rotate(st, cfg, list, env);
      if r.outcome == Returned(true) then AppendSpec(r.state, cfg, text, env) else r
  }

  /**
   * writeImpl with a scan that is not empty and no usable cached stream: rotate
   * runs on the sorted scan, and the line is appended exactly when rotate
   * returns true; a false or thrown rotate is writeImpl's own result, with
   * nothing appended.
   */
  lemma WriteRotates(st: State, cfg: Config, text: string, env: Env)
    requires |DirList(st.dir, cfg.path, env.listing)| > 0
    requires !(st.stream.isOpen && !st.stream.bad
               && IsFileOk(st.dir, cfg.path, cfg.maxSize, st.currentFilePath) == NoError)
    ensures var r := Rotate(st, cfg, SortByMtime(DirList(st.dir, cfg.path, env.listing)), env);
      && (r.outcome != Returned(true) ==> WriteSpec(st, cfg, text, env) == r)
      && (r.outcome == Returned(true) ==> WriteSpec(st, cfg, text, env) == AppendSpec(r.state, cfg, text, env))
  {
    var list := DirList(st.dir, cfg.path, env.listing);
    assert |multiset(SortByMtime(list))| == |multiset(list)|;
  }

  /**
   * writeImpl on an empty scan: app_0 becomes current and is opened; the line is
   * written exactly when the open and the write both succeed.
   */
  lemma WriteToEmptyScan(st: State, cfg: Config, text: string, env: Env)
    requires |DirList(st.dir, cfg.path, env.listing)| == 0
    ensures var r := WriteSpec(st, cfg, text, env);
      var path := NumberedPath(cfg.path, 0);
      var before := if FileName(0) in st.dir then st.dir[FileName(0)].size else 0;
      && r.state.currentFilePath == path
      && (r.outcome == Returned(true) <==> path !in env.openFails && !env.writeFails)
      && (r.outcome == Returned(true) ==>
            && r.state.stream == Stream(true, false, path)
            && r.state.dir.Keys == st.dir.Keys + {FileName(0)}
            && r.state.dir[FileName(0)] == FileInfo(before + |text| + 1, env.now))
  {
    var path := NumberedPath(cfg.path, 0);
    var before := if FileName(0) in st.dir then st.dir[FileName(0)].size else 0;
    if path !in env.openFails {
      var d := OpenForAppend(st.dir, cfg.path, path, env).value;
      assert FileName(0) in d && d[FileName(0)].size == before;
    }
  }

  /**
   * writeImpl with a scan that is not empty and a healthy stream whose current
   * path is writable: no file is created, renamed or removed, and the line goes
   * to the stream's file unless the write fails.
   */
  lemma WriteUsesCachedStream(st: State, cfg: Config, text: string, env: Env)
    requires |DirList(st.dir, cfg.path, env.listing)| > 0
    requires st.stream.isOpen && !st.stream.bad
    requires IsFileOk(st.dir, cfg.path, cfg.maxSize, st.currentFilePath) == NoError
    ensures var r := WriteSpec(st, cfg, text, env);
      && r.state.currentFilePath == st.currentFilePath
      && r.state.dir.Keys == st.dir.Keys
      && (r.outcome == Returned(true) <==> !env.writeFails)
      && (!env.writeFails ==>
            r.state == st.(dir := AppendTo(st.dir, cfg.path, st.stream.target, |text| + 1, env.now)))
      && (env.writeFails ==> r.state == st.(stream := st.stream.(bad := true)) && r.outcome == Returned(false))
  {
    var list := DirList(st.dir, cfg.path, env.listing);
    assert |multiset(SortByMtime(list))| == |multiset(list)|;
  }
}
