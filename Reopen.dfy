/**
 * The cached stream as the C++ library keeps it, with failbit as well as
 * badbit, and the two places that open it: createAndWriteHelper
 * (logrotate.cpp:127, called at 175, 184 and 217) and rotate's reuse of a
 * writable file (logrotate.cpp:193). The library's open of a
 * stream whose file buffer is already open fails and sets failbit, leaving the
 * stream on its old file ([filebuf.members] and [ofstream.members] of the C++
 * standard). The code tests only badbit after the helper's open and only
 * is_open after rotate's, so neither notices, and a stream with failbit set
 * writes nothing. The rest of the model reopens the stream as intended
 * (Rotation.OpenStream); this module states what the code does instead.
 */
module Reopen {
  import opened Naming
  import opened Directory
  import opened Rotation
  import opened NamingScheme

  /** std::ofstream: open or not, failbit, badbit, and the file it writes to. */
  datatype OStream = OStream(isOpen: bool, fail: bool, bad: bool, target: string)

  /** The rotator's fields with the stream's state bits as the library keeps them. */
  datatype Raw = Raw(dir: Dir, currentFilePath: string, stream: OStream)

  /** The same fields with failbit forgotten, as the rest of the model sees them. */
  function Lift(st: Raw): (r: State)
    ensures r.dir == st.dir && r.currentFilePath == st.currentFilePath
    ensures r.stream.isOpen == st.stream.isOpen && r.stream.bad == st.stream.bad
    ensures r.stream.target == st.stream.target
  {
    State(st.dir, st.currentFilePath, Stream(st.stream.isOpen, st.stream.bad, st.stream.target))
  }

  /**
   * open(path, std::ios::app) as the library does it: on an open stream it
   * fails, sets failbit and leaves everything else alone; on a closed one a
   * successful open clears every bit and a failed one sets failbit.
   */
  function OpenAsWritten(st: Raw, cfg: Config, path: string, env: Env): (r: Raw)
    ensures r.currentFilePath == st.currentFilePath
    ensures st.stream.isOpen ==> r.dir == st.dir && r.stream == st.stream.(fail := true)
    ensures !st.stream.isOpen ==>
      (r.stream.isOpen <==> NameInDir(cfg.path, path).Some? && path !in env.openFails)
    ensures !st.stream.isOpen && r.stream.isOpen ==> r.stream == OStream(true, false, false, path)
    ensures !r.stream.isOpen ==> r.dir == st.dir && r.stream.fail
  {
    if st.stream.isOpen then st.(stream := st.stream.(fail := true))
    else
      match OpenForAppend(st.dir, cfg.path, path, env)
      case Some(d) => st.(dir := d, stream := OStream(true, false, false, path))
      case None => st.(stream := st.stream.(fail := true))
  }

  /**
   * `_currentFile << text << std::endl`: a stream with failbit or badbit set
   * writes nothing; a closed one takes nothing and gets badbit; otherwise the
   * text and the newline land in the stream's file, or badbit is set when the
   * write fails.
   */
  function InsertAsWritten(st: Raw, cfg: Config, text: string, env: Env): (r: Raw)
    ensures r.currentFilePath == st.currentFilePath
    ensures r.stream.isOpen == st.stream.isOpen && r.stream.target == st.stream.target
    ensures r.stream.fail == st.stream.fail
    ensures r.dir != st.dir ==> st.stream.isOpen && !st.stream.fail && !st.stream.bad && !env.writeFails
  {
    if st.stream.fail || st.stream.bad then st
    else if !st.stream.isOpen || env.writeFails then st.(stream := st.stream.(bad := true))
    else st.(dir := AppendTo(st.dir, cfg.path, st.stream.target, |text| + 1, env.now))
  }

  /** createAndWriteHelper as written: record the path, open it, test badbit alone. */
  function CreateAsWritten(st: Raw, cfg: Config, number: nat, env: Env): (r: (bool, Raw))
    ensures r.1.currentFilePath == NumberedPath(cfg.path, number)
    ensures r.0 == !r.1.stream.bad
  {
    var path := NumberedPath(cfg.path, number);
    var o := OpenAsWritten(st.(currentFilePath := path), cfg, path, env);
    (!o.stream.bad, o)
  }

  /** The NO_ERROR branch of rotate as written: reopen, and throw only when the stream is not open. */
  function ReuseAsWritten(st: Raw, cfg: Config, path: string, env: Env): (r: (Outcome, Raw))
    ensures r.0 == Returned(true) <==> r.1.stream.isOpen
    ensures r.0 != Returned(true) ==> r.0 == Threw("Failed to open file " + path)
  {
    var o := OpenAsWritten(st, cfg, path, env);
    if o.stream.isOpen then (Returned(true), o) else (Threw("Failed to open file " + path), o)
  }

  /**
   * The cached-stream test of writeImpl: failbit is not consulted, so the test
   * sees exactly what it sees on the stream with failbit forgotten.
   */
  predicate CachedAsWritten(st: Raw, cfg: Config): (r: bool)
    ensures r <==> var l := Lift(st);
      l.stream.isOpen && !l.stream.bad && IsFileOk(l.dir, cfg.path, cfg.maxSize, l.currentFilePath) == NoError
  {
    && st.stream.isOpen && !st.stream.bad
    && IsFileOk(st.dir, cfg.path, cfg.maxSize, st.currentFilePath) == NoError
  }

  /** On a closed stream the library's open and the model's agree. */
  lemma AgreeOnClosedStream(st: Raw, cfg: Config, path: string, env: Env)
    requires !st.stream.isOpen
    ensures Lift(OpenAsWritten(st, cfg, path, env)) == OpenStream(Lift(st), cfg, path, env).state
  {
  }

  /**
   * createAndWriteHelper on a healthy stream that is still open on an earlier
   * file, as it is at every rotation of a running writer: it reports success
   * and _currentFilePath names the new file, yet no file is created, the
   * stream stays on its old file with failbit set, and the line that follows
   * is written nowhere.
   */
  lemma HelperOnOpenStreamLosesLine(st: Raw, cfg: Config, number: nat, text: string, env: Env)
    requires st.stream.isOpen && !st.stream.bad
    ensures var c := CreateAsWritten(st, cfg, number, env);
      && c.0
      && c.1.currentFilePath == NumberedPath(cfg.path, number)
      && c.1.dir == st.dir
      && c.1.stream == st.stream.(fail := true)
      && InsertAsWritten(c.1, cfg, text, env).dir == st.dir
  {
  }

  /**
   * rotate's reuse of a writable file while the stream is still open, as it is
   * on the second write of a writer that started on a directory with room
   * (its _currentFilePath is still empty, so the cached branch is skipped):
   * no exception, true returned, and the line is written nowhere.
   */
  lemma ReuseOnOpenStreamLosesLine(st: Raw, cfg: Config, path: string, text: string, env: Env)
    requires st.stream.isOpen
    ensures var u := ReuseAsWritten(st, cfg, path, env);
      && u.0 == Returned(true)
      && u.1.dir == st.dir && u.1.stream.target == st.stream.target && u.1.stream.fail
      && InsertAsWritten(u.1, cfg, text, env).dir == st.dir
  {
  }

  /**
   * Once failbit is set on an open stream it stays: no write lands, the
   * cached-stream test still passes whenever the current path is writable,
   * and neither reopen can clear it, so every later line is lost.
   */
  lemma FailbitIsSticky(st: Raw, cfg: Config, path: string, number: nat, text: string, env: Env)
    requires st.stream.isOpen && st.stream.fail
    ensures InsertAsWritten(st, cfg, text, env) == st
    ensures !st.stream.bad && IsFileOk(st.dir, cfg.path, cfg.maxSize, st.currentFilePath) == NoError ==> CachedAsWritten(st, cfg)
    ensures OpenAsWritten(st, cfg, path, env).stream.fail
    ensures CreateAsWritten(st, cfg, number, env).1.stream.fail
    ensures ReuseAsWritten(st, cfg, path, env).1.stream.fail
  {
  }

  /**
   * The intended helper, Rotation.CreateSpec over Rotation.OpenStream: whatever
   * the stream was attached to, a missing app_<number> is created, the stream
   * moves to it, and the line lands there.
   */
  lemma CorrectedHelperWritesLine(st: State, cfg: Config, number: nat, text: string, env: Env)
    requires FileName(number) !in st.dir
    requires NumberedPath(cfg.path, number) !in env.openFails && !env.writeFails
    ensures var c := CreateSpec(st, cfg, number, env);
      && c.outcome == Returned(true)
      && c.state.stream == Stream(true, false, NumberedPath(cfg.path, number))
      && AppendSpec(c.state, cfg, text, env).state.dir == st.dir[FileName(number) := FileInfo(|text| + 1, env.now)]
  {
    OpenNumberedCreates(st.dir, cfg.path, number, env);
    AppendToCreated(st.dir, cfg.path, number, |text| + 1, env.now);
  }

  /** The intended reuse: the stream moves to the writable file, and the line is appended to it. */
  lemma CorrectedReuseWritesLine(st: State, cfg: Config, name: string, text: string, env: Env)
    requires name in st.dir
    requires FilePath(cfg.path, name) !in env.openFails && !env.writeFails
    ensures var o := OpenStream(st, cfg, FilePath(cfg.path, name), env);
      && o.outcome == Returned(true)
      && o.state.stream == Stream(true, false, FilePath(cfg.path, name))
      && AppendSpec(o.state, cfg, text, env).state.dir
           == st.dir[name := FileInfo(st.dir[name].size + |text| + 1, env.now)]
  {
    var path := FilePath(cfg.path, name);
    var o := OpenStream(st, cfg, path, env);
    assert o.state.dir == st.dir;
  }
}
