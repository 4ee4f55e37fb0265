/**
 * What one write does to a directory in the naming scheme when nothing fails
 * and the clock is not behind the newest file, and strictly ahead of it when
 * that file is full:
 * it appends to the newest file while that has room, otherwise starts
 * app_<count> while fewer than _number files exist, and otherwise deletes
 * app_0, moves every other file one index down and starts app_<count - 1>.
 * In every case the scheme survives, the text lands in the newest file and the
 * file count never exceeds _number.
 */
module WriteScheme {
  import opened Wrappers
  import opened Naming
  import opened Directory
  import opened Scan
  import opened Rotation
  import opened NamingScheme

  /** A write to a directory without visible files creates app_0 holding the text and its newline. */
  lemma WriteFirstFile(st: State, cfg: Config, text: string, env: Env)
    requires Coherent(st, cfg, 0) && Reliable(st.dir, 0, cfg.maxSize, env)
    ensures var r := WriteSpec(st, cfg, text, env);
      && r.outcome == Returned(true)
      && r.state.dir == st.dir[FileName(0) := FileInfo(|text| + 1, env.now)]
      && r.state.currentFilePath == NumberedPath(cfg.path, 0)
      && r.state.stream == Stream(true, false, NumberedPath(cfg.path, 0))
      && Coherent(r.state, cfg, 1)
  {
    var d := DirList(st.dir, cfg.path, env.listing);
    ScanIsNewestFirst(st.dir, 0, cfg.maxSize, cfg.path, env.listing);
    assert |multiset(d)| == |multiset(SortByMtime(d))| == 0;
    CanonicalNumbered(st.dir, 0, cfg.maxSize);
    OpenNumberedCreates(st.dir, cfg.path, 0, env);
    AppendToCreated(st.dir, cfg.path, 0, |text| + 1, env.now);
    NewFileExtendsScheme(st.dir, 0, cfg.maxSize, |text| + 1, env.now);
  }

  /** The scan and sort of writeImpl see the directory in the scheme as app_{n-1} down to app_0. */
  lemma SortedScan(st: State, cfg: Config, n: nat, env: Env)
    requires Coherent(st, cfg, n) && Reliable(st.dir, n, cfg.maxSize, env)
    ensures SortByMtime(DirList(st.dir, cfg.path, env.listing)) == NewestFirst(st.dir, n)
  {
    ScanIsNewestFirst(st.dir, n, cfg.maxSize, cfg.path, env.listing);
  }

  /** rotate, when the newest file has room, reopens it: the stream now writes to app_{n-1}. */
  lemma RotateReopensNewest(st: State, cfg: Config, n: nat, env: Env)
    requires Coherent(st, cfg, n) && Reliable(st.dir, n, cfg.maxSize, env) && n >= 1
    requires FileName(n - 1) in st.dir && st.dir[FileName(n - 1)].size < cfg.maxSize
    ensures Rotate(st, cfg, NewestFirst(st.dir, n), env)
      == Step(st.(stream := Stream(true, false, NumberedPath(cfg.path, n - 1))), Returned(true))
  {
    var c := NewestFirst(st.dir, n);
    var newest := FileName(n - 1);
    assert c[0].name == newest;
    assert NameInDir(cfg.path, FilePath(cfg.path, newest)) == Some(newest);
    assert StatusAt(st, cfg, c, 0) == NoError;
    RotateReusesWritable(st, cfg, c, env, 0);
  }

  /** The branch writeImpl takes when the newest file has room ends with the stream on app_{n-1}. */
  lemma ReadyForNewest(st: State, cfg: Config, n: nat, text: string, env: Env)
    requires Coherent(st, cfg, n) && Reliable(st.dir, n, cfg.maxSize, env) && n >= 1
    requires FileName(n - 1) in st.dir && st.dir[FileName(n - 1)].size < cfg.maxSize
    ensures WriteSpec(st, cfg, text, env)
      == AppendSpec(st.(stream := Stream(true, false, NumberedPath(cfg.path, n - 1))), cfg, text, env)
  {
    SortedScan(st, cfg, n, env);
    if !(st.stream.isOpen && !st.stream.bad && IsFileOk(st.dir, cfg.path, cfg.maxSize, st.currentFilePath) == NoError) {
      RotateReopensNewest(st, cfg, n, env);
    }
  }

  /** While the newest file has room the text is appended to it and nothing else changes. */
  lemma WriteAppendsToNewest(st: State, cfg: Config, n: nat, text: string, env: Env)
    requires Coherent(st, cfg, n) && Reliable(st.dir, n, cfg.maxSize, env) && n >= 1
    requires FileName(n - 1) in st.dir && st.dir[FileName(n - 1)].size < cfg.maxSize
    ensures var r := WriteSpec(st, cfg, text, env);
      var newest := FileName(n - 1);
      && r.outcome == Returned(true)
      && r.state.dir == st.dir[newest := FileInfo(st.dir[newest].size + |text| + 1, env.now)]
      && r.state.currentFilePath == st.currentFilePath
      && r.state.stream == Stream(true, false, NumberedPath(cfg.path, n - 1))
      && Coherent(r.state, cfg, n)
  {
    ReadyForNewest(st, cfg, n, text, env);
    AppendedToNewest(st, cfg, n, text, env);
  }

  /** Appending through a stream on the newest file keeps the scheme. */
  lemma AppendedToNewest(st: State, cfg: Config, n: nat, text: string, env: Env)
    requires Coherent(st, cfg, n) && Reliable(st.dir, n, cfg.maxSize, env) && n >= 1
    ensures var stream := Stream(true, false, NumberedPath(cfg.path, n - 1));
      var r := AppendSpec(st.(stream := stream), cfg, text, env);
      var newest := FileName(n - 1);
      && FileName(n - 1) in st.dir
      && r.outcome == Returned(true)
      && r.state.dir == st.dir[newest := FileInfo(st.dir[newest].size + |text| + 1, env.now)]
      && r.state.currentFilePath == st.currentFilePath
      && r.state.stream == stream
      && Coherent(r.state, cfg, n)
  {
    AppendToNewestFile(st.dir, n, cfg.maxSize, cfg.path, |text| + 1, env.now);
  }

  /** The directory half of an append to the newest file. */
  lemma AppendToNewestFile(dir: Dir, n: nat, maxSize: int, base: string, bytes: nat, now: int)
    requires Canonical(dir, n, maxSize) && n >= 1
    requires ClockAhead(dir, n, maxSize, now)
    ensures FileName(n - 1) in dir
    ensures AppendTo(dir, base, NumberedPath(base, n - 1), bytes, now)
      == dir[FileName(n - 1) := FileInfo(dir[FileName(n - 1)].size + bytes, now)]
    ensures Canonical(dir[FileName(n - 1) := FileInfo(dir[FileName(n - 1)].size + bytes, now)], n, maxSize)
  {
    AppendKeepsScheme(dir, n, maxSize, bytes, now);
    AppendToNumbered(dir, base, n - 1, bytes, now);
  }

  /** rotate, when every file is full and there is room, creates the empty app_<count> and opens it. */
  lemma RotateCreatesNext(st: State, cfg: Config, n: nat, env: Env)
    requires Coherent(st, cfg, n) && Reliable(st.dir, n, cfg.maxSize, env) && n >= 1
    requires FileName(n - 1) in st.dir && st.dir[FileName(n - 1)].size >= cfg.maxSize
    requires n < cfg.number
    ensures Rotate(st, cfg, NewestFirst(st.dir, n), env)
      == Step(State(st.dir[FileName(n) := FileInfo(0, env.now)], NumberedPath(cfg.path, n),
                    Stream(true, false, NumberedPath(cfg.path, n))), Returned(true))
  {
    var c := NewestFirst(st.dir, n);
    ScanAllFull(st, cfg, n);
    RenumberIdentity(st.dir, n, cfg.maxSize, cfg.path, env);
    CanonicalNumbered(st.dir, n, cfg.maxSize);
    OpenNumberedCreates(st.dir, cfg.path, n, env);
    RotateWithRoom(st, cfg, c, env);
  }

  /** The branch writeImpl takes when every file is full and there is room ends with app_<count> open. */
  lemma ReadyForNext(st: State, cfg: Config, n: nat, text: string, env: Env)
    requires Coherent(st, cfg, n) && Reliable(st.dir, n, cfg.maxSize, env) && n >= 1
    requires FileName(n - 1) in st.dir && st.dir[FileName(n - 1)].size >= cfg.maxSize
    requires n < cfg.number
    ensures WriteSpec(st, cfg, text, env)
      == AppendSpec(State(st.dir[FileName(n) := FileInfo(0, env.now)], NumberedPath(cfg.path, n),
                          Stream(true, false, NumberedPath(cfg.path, n))), cfg, text, env)
  {
    SortedScan(st, cfg, n, env);
    AllFull(st.dir, n, cfg.maxSize, cfg.path, st.currentFilePath);
    RotateCreatesNext(st, cfg, n, env);
  }

  /** The newest file full and fewer than _number files: app_<count> is created and receives the text. */
  lemma WriteStartsNewFile(st: State, cfg: Config, n: nat, text: string, env: Env)
    requires Coherent(st, cfg, n) && Reliable(st.dir, n, cfg.maxSize, env) && n >= 1
    requires FileName(n - 1) in st.dir && st.dir[FileName(n - 1)].size >= cfg.maxSize
    requires n < cfg.number
    ensures var r := WriteSpec(st, cfg, text, env);
      && r.outcome == Returned(true)
      && r.state.dir == st.dir[FileName(n) := FileInfo(|text| + 1, env.now)]
      && r.state.currentFilePath == NumberedPath(cfg.path, n)
      && r.state.stream == Stream(true, false, NumberedPath(cfg.path, n))
      && Coherent(r.state, cfg, n + 1)
  {
    ReadyForNext(st, cfg, n, text, env);
    AppendedToNext(st, cfg, n, text, env);
  }

  /** Appending the text to the freshly created app_<count> extends the scheme by one file. */
  lemma AppendedToNext(st: State, cfg: Config, n: nat, text: string, env: Env)
    requires Coherent(st, cfg, n) && Reliable(st.dir, n, cfg.maxSize, env) && n >= 1
    requires FileName(n - 1) in st.dir && st.dir[FileName(n - 1)].size >= cfg.maxSize
    requires n < cfg.number
    ensures var path := NumberedPath(cfg.path, n);
      var r := AppendSpec(State(st.dir[FileName(n) := FileInfo(0, env.now)], path, Stream(true, false, path)), cfg, text, env);
      && r.outcome == Returned(true)
      && r.state.dir == st.dir[FileName(n) := FileInfo(|text| + 1, env.now)]
      && r.state.currentFilePath == path
      && r.state.stream == Stream(true, false, path)
      && Coherent(r.state, cfg, n + 1)
  {
    AppendToCreated(st.dir, cfg.path, n, |text| + 1, env.now);
    NewFileExtendsScheme(st.dir, n, cfg.maxSize, |text| + 1, env.now);
  }

  /**
   * rotate, when every file is full and _number of them exist, unlinks app_0,
   * moves each survivor one index down and creates the empty app_<count - 1>.
   */
  lemma RotateEvictsOldest(st: State, cfg: Config, n: nat, env: Env)
    requires Canonical(st.dir, n, cfg.maxSize) && n >= 1
    requires env.renameFails == {} && env.unlinkFails == {} && env.openFails == {}
    requires FileName(n - 1) in st.dir && st.dir[FileName(n - 1)].size >= cfg.maxSize
    requires n >= cfg.number
    ensures var rn := Renumber(st.dir - {FileName(0)}, cfg.path, Survivors(st.dir, n), env);
      var path := NumberedPath(cfg.path, n - 1);
      && ShiftedUpTo(rn.dir, st.dir, n, n - 1)
      && Rotate(st, cfg, NewestFirst(st.dir, n), env)
           == Step(State(rn.dir[FileName(n - 1) := FileInfo(0, env.now)], path, Stream(true, false, path)), Returned(true))
  {
    EvictionBranch(st, cfg, n, env);
    var rn := Renumber(st.dir - {FileName(0)}, cfg.path, Survivors(st.dir, n), env);
    OpenNumberedCreates(rn.dir, cfg.path, n - 1, env);
  }

  /** The eviction branch of rotate: unlink app_0, renumber the survivors, create app_<count - 1>. */
  lemma EvictionBranch(st: State, cfg: Config, n: nat, env: Env)
    requires Canonical(st.dir, n, cfg.maxSize) && n >= 1
    requires env.renameFails == {} && env.unlinkFails == {}
    requires FileName(n - 1) in st.dir && st.dir[FileName(n - 1)].size >= cfg.maxSize
    requires n >= cfg.number
    ensures var rn := Renumber(st.dir - {FileName(0)}, cfg.path, Survivors(st.dir, n), env);
      && ShiftedUpTo(rn.dir, st.dir, n, n - 1)
      && Rotate(st, cfg, NewestFirst(st.dir, n), env) == CreateSpec(st.(dir := rn.dir), cfg, n - 1, env)
  {
    var c := NewestFirst(st.dir, n);
    LastEntryReached(st, cfg, n, env);
    UnlinkOldest(st.dir, n, cfg.maxSize, cfg.path, env);
    EvictionRenumbers(st.dir, n, cfg.path, env);
    EvictAtLast(st, cfg, c, env, st.dir - {FileName(0)}, Survivors(st.dir, n));
  }

  /** rotate at the last entry of the scan, full, with the count at _number, once the unlink and the renames succeed. */
  lemma EvictAtLast(st: State, cfg: Config, list: seq<Entry>, env: Env, d: Dir, survivors: seq<Entry>)
    requires |list| >= 1 && StatusAt(st, cfg, list, |list| - 1) == BadSize && cfg.number <= |list|
    requires Unlink(st.dir, cfg.path, FilePath(cfg.path, list[|list| - 1].name), env) == Some(d)
    requires list[..|list| - 1] == survivors && Renumber(d, cfg.path, survivors, env).ok
    ensures var rn := Renumber(d, cfg.path, survivors, env);
      RotateFrom(st, cfg, list, env, |list| - 1) == CreateSpec(st.(dir := rn.dir), cfg, |rn.list|, env)
  {
  }

  /** With every file full, rotate reaches the last entry of the sorted scan and finds it full. */
  lemma LastEntryReached(st: State, cfg: Config, n: nat, env: Env)
    requires Canonical(st.dir, n, cfg.maxSize) && n >= 1
    requires FileName(n - 1) in st.dir && st.dir[FileName(n - 1)].size >= cfg.maxSize
    ensures Rotate(st, cfg, NewestFirst(st.dir, n), env) == RotateFrom(st, cfg, NewestFirst(st.dir, n), env, n - 1)
    ensures StatusAt(st, cfg, NewestFirst(st.dir, n), n - 1) == BadSize
  {
    ScanAllFull(st, cfg, n);
    RotateSkipsFull(st, cfg, NewestFirst(st.dir, n), env, n - 1);
  }

  /** The oldest entry of the sorted scan is app_0, and unlinking it succeeds. */
  lemma UnlinkOldest(dir: Dir, n: nat, maxSize: int, base: string, env: Env)
    requires Canonical(dir, n, maxSize) && n >= 1 && env.unlinkFails == {}
    ensures Numbered(dir, n)
    ensures NewestFirst(dir, n)[n - 1].name == FileName(0)
    ensures NewestFirst(dir, n)[..n - 1] == Survivors(dir, n)
    ensures Unlink(dir, base, FilePath(base, FileName(0)), env) == Some(dir - {FileName(0)})
  {
    CanonicalNumbered(dir, n, maxSize);
    assert NameInDir(base, FilePath(base, FileName(0))) == Some(FileName(0));
  }

  /** The branch writeImpl takes when every file is full and _number of them exist ends with app_<count - 1> open. */
  lemma ReadyAfterEviction(st: State, cfg: Config, n: nat, text: string, env: Env)
    requires Coherent(st, cfg, n) && Reliable(st.dir, n, cfg.maxSize, env) && n >= 1
    requires FileName(n - 1) in st.dir && st.dir[FileName(n - 1)].size >= cfg.maxSize
    requires n >= cfg.number
    ensures var rn := Renumber(st.dir - {FileName(0)}, cfg.path, Survivors(st.dir, n), env);
      var path := NumberedPath(cfg.path, n - 1);
      && ShiftedUpTo(rn.dir, st.dir, n, n - 1)
      && WriteSpec(st, cfg, text, env)
           == AppendSpec(State(rn.dir[FileName(n - 1) := FileInfo(0, env.now)], path, Stream(true, false, path)), cfg, text, env)
  {
    SortedScan(st, cfg, n, env);
    AllFull(st.dir, n, cfg.maxSize, cfg.path, st.currentFilePath);
    RotateEvictsOldest(st, cfg, n, env);
  }

  /** Appending the text to the recreated app_<count - 1> leaves the scheme with the same count. */
  lemma AppendedAfterEviction(st: State, cfg: Config, n: nat, d: Dir, text: string, env: Env)
    requires 1 <= cfg.number && 1 <= n <= cfg.number && !env.writeFails
    requires Evicted(d[FileName(n - 1) := FileInfo(|text| + 1, env.now)], st.dir, n, |text| + 1, env.now)
    requires Canonical(d[FileName(n - 1) := FileInfo(|text| + 1, env.now)], n, cfg.maxSize)
    ensures var path := NumberedPath(cfg.path, n - 1);
      var r := AppendSpec(State(d[FileName(n - 1) := FileInfo(0, env.now)], path, Stream(true, false, path)), cfg, text, env);
      && r.outcome == Returned(true)
      && Evicted(r.state.dir, st.dir, n, |text| + 1, env.now)
      && r.state.currentFilePath == path
      && r.state.stream == Stream(true, false, path)
      && Coherent(r.state, cfg, n)
  {
    var path := NumberedPath(cfg.path, n - 1);
    var e := d[FileName(n - 1) := FileInfo(|text| + 1, env.now)];
    AppendToCreated(d, cfg.path, n - 1, |text| + 1, env.now);
    assert AppendSpec(State(d[FileName(n - 1) := FileInfo(0, env.now)], path, Stream(true, false, path)), cfg, text, env)
      == Step(State(e, path, Stream(true, false, path)), Returned(true));
    assert Coherent(State(e, path, Stream(true, false, path)), cfg, n);
  }

  /**
   * The newest file full and _number files present: app_0 is deleted, every
   * other file moves one index down, and a new app_<count - 1> receives the
   * text; the count stays at _number.
   */
  lemma WriteEvictsOldest(st: State, cfg: Config, n: nat, text: string, env: Env)
    requires Coherent(st, cfg, n) && Reliable(st.dir, n, cfg.maxSize, env) && n >= 1
    requires FileName(n - 1) in st.dir && st.dir[FileName(n - 1)].size >= cfg.maxSize
    requires n >= cfg.number
    ensures var r := WriteSpec(st, cfg, text, env);
      && r.outcome == Returned(true)
      && Evicted(r.state.dir, st.dir, n, |text| + 1, env.now)
      && r.state.currentFilePath == NumberedPath(cfg.path, n - 1)
      && r.state.stream == Stream(true, false, NumberedPath(cfg.path, n - 1))
      && Coherent(r.state, cfg, n)
  {
    ReadyAfterEviction(st, cfg, n, text, env);
    var rn := Renumber(st.dir - {FileName(0)}, cfg.path, Survivors(st.dir, n), env);
    EvictionKeepsScheme(st.dir, rn.dir, n, cfg.maxSize, |text| + 1, env.now);
    AppendedAfterEviction(st, cfg, n, rn.dir, text, env);
  }

  /** The file count after one write in the scheme. */
  function NextCount(dir: Dir, cfg: Config, n: nat): nat
    requires n >= 1 ==> FileName(n - 1) in dir
  {
    if n == 0 then 1
    else if dir[FileName(n - 1)].size < cfg.maxSize then n
    else if n < cfg.number then n + 1
    else n
  }

  /** A write that succeeded and left the scheme with m files, the newest stamped `now`. */
  ghost predicate Settled(r: Step, cfg: Config, m: nat, now: int) {
    && r.outcome == Returned(true)
    && Coherent(r.state, cfg, m)
    && 1 <= m <= cfg.number
    && FileName(m - 1) in r.state.dir && r.state.dir[FileName(m - 1)].mtime == now
  }

  /** In the scheme the directory holds exactly as many visible files as the count. */
  lemma SchemeCount(st: State, cfg: Config, m: nat)
    requires Coherent(st, cfg, m)
    ensures |Visible(st.dir)| == m
  {
    FileNamesCount(m);
  }

  lemma SettledAfterAppend(st: State, cfg: Config, n: nat, text: string, env: Env)
    requires Coherent(st, cfg, n) && Reliable(st.dir, n, cfg.maxSize, env) && n >= 1
    requires FileName(n - 1) in st.dir && st.dir[FileName(n - 1)].size < cfg.maxSize
    ensures Settled(WriteSpec(st, cfg, text, env), cfg, n, env.now)
  {
    WriteAppendsToNewest(st, cfg, n, text, env);
  }

  lemma SettledAfterNewFile(st: State, cfg: Config, n: nat, text: string, env: Env)
    requires Coherent(st, cfg, n) && Reliable(st.dir, n, cfg.maxSize, env) && n >= 1
    requires FileName(n - 1) in st.dir && st.dir[FileName(n - 1)].size >= cfg.maxSize
    requires n < cfg.number
    ensures Settled(WriteSpec(st, cfg, text, env), cfg, n + 1, env.now)
  {
    WriteStartsNewFile(st, cfg, n, text, env);
  }

  lemma SettledAfterEviction(st: State, cfg: Config, n: nat, text: string, env: Env)
    requires Coherent(st, cfg, n) && Reliable(st.dir, n, cfg.maxSize, env) && n >= 1
    requires FileName(n - 1) in st.dir && st.dir[FileName(n - 1)].size >= cfg.maxSize
    requires n >= cfg.number
    ensures Settled(WriteSpec(st, cfg, text, env), cfg, n, env.now)
  {
    WriteEvictsOldest(st, cfg, n, text, env);
  }

  /**
   * Every write that meets no failure succeeds, keeps the scheme, stamps the
   * newest file, and leaves at most _number visible files in the directory.
   */
  lemma WriteKeepsScheme(st: State, cfg: Config, n: nat, text: string, env: Env)
    requires Coherent(st, cfg, n) && Reliable(st.dir, n, cfg.maxSize, env)
    ensures n >= 1 ==> FileName(n - 1) in st.dir
    ensures var r := WriteSpec(st, cfg, text, env);
      var m := NextCount(st.dir, cfg, n);
      && r.outcome == Returned(true)
      && Coherent(r.state, cfg, m)
      && 1 <= m <= cfg.number
      && |Visible(r.state.dir)| == m
      && FileName(m - 1) in r.state.dir && r.state.dir[FileName(m - 1)].mtime == env.now
  {
    CanonicalNumbered(st.dir, n, cfg.maxSize);
    var r := WriteSpec(st, cfg, text, env);
    var m := NextCount(st.dir, cfg, n);
    if n == 0 {
      WriteFirstFile(st, cfg, text, env);
      assert Settled(r, cfg, m, env.now);
    } else if st.dir[FileName(n - 1)].size < cfg.maxSize {
      SettledAfterAppend(st, cfg, n, text, env);
    } else if n < cfg.number {
      SettledAfterNewFile(st, cfg, n, text, env);
    } else {
      SettledAfterEviction(st, cfg, n, text, env);
    }
    assert Settled(r, cfg, m, env.now);
    SchemeCount(r.state, cfg, m);
  }
}
