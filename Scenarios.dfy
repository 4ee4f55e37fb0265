/**
 * Concrete runs of the rotator: the three-write sequence of a fresh rotator
 * with five files of ten bytes, eviction with a single file, and the loss of a
 * file when two files carry the same modification time. readdir's order is
 * not fixed; these scenarios list "." and ".." before the files.
 */
module Scenarios {
  import opened Wrappers
  import opened Naming
  import opened Directory
  import opened Scan
  import opened Rotation
  import opened NamingScheme
  import opened WriteScheme

  /** A system that refuses nothing, lists `listing` and reads `now` on the clock. */
  function Quiet(listing: seq<string>, now: int): (r: Env)
    ensures r.listing == listing && r.now == now
    ensures r.renameFails == {} && r.unlinkFails == {} && r.openFails == {} && !r.writeFails
  {
    Env(listing, {}, {}, {}, false, now)
  }

  /** The two entries every directory enumeration yields. */
  const Dots: seq<string> := [".", ".."]

  /** Write("test") on an empty directory: app_0 with "test" and its newline. */
  lemma FirstWrite(cfg: Config, t1: int)
    requires cfg.number >= 1
    ensures var r := WriteSpec(InitialState(map[]), cfg, "test", Quiet(Dots, t1));
      && r.outcome == Returned(true)
      && r.state.dir == map[FileName(0) := FileInfo(5, t1)]
      && Coherent(r.state, cfg, 1)
  {
    var st0 := InitialState(map[]);
    assert Visible(st0.dir) == {};
    assert Canonical(st0.dir, 0, cfg.maxSize);
    assert Hidden(Dots[0]) && Hidden(Dots[1]);
    assert Reliable(st0.dir, 0, cfg.maxSize, Quiet(Dots, t1));
    WriteFirstFile(st0, cfg, "test", Quiet(Dots, t1));
  }

  /** A second line while app_0 has room goes to app_0. */
  lemma SecondWrite(st: State, cfg: Config, t1: int, t2: int, line: string)
    requires t1 <= t2 && cfg.maxSize > 5
    requires st.dir == map[FileName(0) := FileInfo(5, t1)] && Coherent(st, cfg, 1)
    ensures var r := WriteSpec(st, cfg, line, Quiet(Dots + [FileName(0)], t2));
      && r.outcome == Returned(true)
      && r.state.dir == map[FileName(0) := FileInfo(6 + |line|, t2)]
      && Coherent(r.state, cfg, 1)
  {
    ReliableSingle(st.dir, cfg.maxSize, FileInfo(5, t1), t2);
    WriteAppendsToNewest(st, cfg, 1, line, Quiet(Dots + [FileName(0)], t2));
    Overwrite(FileName(0), FileInfo(5, t1), FileInfo(6 + |line|, t2));
  }

  /** Updating the one file of a single-file directory replaces it. */
  lemma Overwrite(name: string, a: FileInfo, b: FileInfo)
    ensures map[name := a][name := b] == map[name := b]
  {
    assert map[name := a][name := b].Keys == map[name := b].Keys;
  }

  /**
   * A quiet system listing ".", ".." and app_0, the only file of the directory,
   * with the clock not behind it, and ahead of it when it is full.
   */
  lemma ReliableSingle(dir: Dir, maxSize: int, info: FileInfo, now: int)
    requires dir == map[FileName(0) := info]
    requires info.mtime <= now && (info.size >= maxSize ==> info.mtime < now)
    ensures Reliable(dir, 1, maxSize, Quiet(Dots + [FileName(0)], now))
  {
    var listing := Dots + [FileName(0)];
    assert dir.Keys == {FileName(0)};
    assert listing == [Dots[0], Dots[1], FileName(0)];
    assert Hidden(Dots[0]) && Hidden(Dots[1]);
    assert multiset(listing)[FileName(0)] == 1;
  }

  /** Once app_0 is full and fewer than _number files exist, the next line starts app_1. */
  lemma ThirdWrite(st: State, cfg: Config, size: nat, t2: int, t3: int, text: string)
    requires t2 < t3 && cfg.number > 1 && size >= cfg.maxSize
    requires st.dir == map[FileName(0) := FileInfo(size, t2)] && Coherent(st, cfg, 1)
    ensures var r := WriteSpec(st, cfg, text, Quiet(Dots + [FileName(0)], t3));
      && r.outcome == Returned(true)
      && r.state.dir == map[FileName(0) := FileInfo(size, t2), FileName(1) := FileInfo(|text| + 1, t3)]
      && r.state.currentFilePath == NumberedPath(cfg.path, 1)
  {
    ReliableSingle(st.dir, cfg.maxSize, FileInfo(size, t2), t3);
    WriteStartsNewFile(st, cfg, 1, text, Quiet(Dots + [FileName(0)], t3));
  }

  /**
   * Five files of ten bytes, an empty directory: Write("test") creates app_0
   * with five bytes; DateWrite("lorem") appends the stamped line to app_0,
   * which is then full; the next write starts app_1. The first two writes may
   * fall in the same second; the third must come later.
   */
  lemma FiveByTen(base: string, stamp: string, t1: int, t2: int, t3: int, text: string)
    requires t1 <= t2 < t3
    ensures var cfg := Config(base, 5, 10);
      var r1 := WriteSpec(InitialState(map[]), cfg, "test", Quiet(Dots, t1));
      var r2 := WriteSpec(r1.state, cfg, stamp + "lorem", Quiet(Dots + [FileName(0)], t2));
      var r3 := WriteSpec(r2.state, cfg, text, Quiet(Dots + [FileName(0)], t3));
      && r1.state.dir == map[FileName(0) := FileInfo(5, t1)]
      && r2.state.dir == map[FileName(0) := FileInfo(11 + |stamp|, t2)]
      && r3.outcome == Returned(true)
      && r3.state.dir == map[FileName(0) := FileInfo(11 + |stamp|, t2), FileName(1) := FileInfo(|text| + 1, t3)]
      && r3.state.currentFilePath == NumberedPath(base, 1)
  {
    var cfg := Config(base, 5, 10);
    FirstWrite(cfg, t1);
    var r1 := WriteSpec(InitialState(map[]), cfg, "test", Quiet(Dots, t1));
    SecondWrite(r1.state, cfg, t1, t2, stamp + "lorem");
    var r2 := WriteSpec(r1.state, cfg, stamp + "lorem", Quiet(Dots + [FileName(0)], t2));
    ThirdWrite(r2.state, cfg, 11 + |stamp|, t2, t3, text);
  }

  /**
   * One file allowed and app_0 already full: the write deletes app_0, creates an
   * empty app_0 and writes there, so one file remains, holding only the new line.
   */
  lemma SingleFileEvicts(base: string, t0: int, size: nat, now: int, text: string)
    requires t0 < now && size >= 10
    ensures var cfg := Config(base, 1, 10);
      var st := InitialState(map[FileName(0) := FileInfo(size, t0)]);
      var r := WriteSpec(st, cfg, text, Quiet(Dots + [FileName(0)], now));
      && r.outcome == Returned(true)
      && r.state.dir == map[FileName(0) := FileInfo(|text| + 1, now)]
  {
    var cfg := Config(base, 1, 10);
    var st := InitialState(map[FileName(0) := FileInfo(size, t0)]);
    var env := Quiet(Dots + [FileName(0)], now);
    SingleFileCoherent(cfg, FileInfo(size, t0));
    ReliableSingle(st.dir, cfg.maxSize, FileInfo(size, t0), now);
    WriteEvictsOldest(st, cfg, 1, text, env);
    EvictedSingle(WriteSpec(st, cfg, text, env).state.dir, FileInfo(size, t0), |text| + 1, now);
  }

  /** A fresh rotator on a directory holding only app_0 is in the scheme with one file. */
  lemma SingleFileCoherent(cfg: Config, info: FileInfo)
    requires cfg.number >= 1
    ensures Coherent(InitialState(map[FileName(0) := info]), cfg, 1)
  {
    var dir := map[FileName(0) := info];
    FileNamesSucc(0);
    assert Visible(dir) == {FileName(0)};
  }

  /** Evicting from a one-file directory leaves app_0 holding only the new bytes. */
  lemma EvictedSingle(e: Dir, info: FileInfo, bytes: nat, now: int)
    requires Evicted(e, map[FileName(0) := info], 1, bytes, now)
    ensures e == map[FileName(0) := FileInfo(bytes, now)]
  {
    assert e.Keys == {FileName(0)};
  }

  /** The scan of two files with one modification time, and its sort: app_0 stays first. */
  lemma TiedScanOrder(dir: Dir, base: string, m: int)
    requires FileName(0) in dir && FileName(1) in dir
    requires dir[FileName(0)].mtime == m && dir[FileName(1)].mtime == m
    ensures SortByMtime(DirList(dir, base, [FileName(0), FileName(1)]))
      == [Entry(FileName(0), m), Entry(FileName(1), m)]
  {
    var f0, f1 := FileName(0), FileName(1);
    assert MtimeOf(dir, base, f0) == m && MtimeOf(dir, base, f1) == m;
    var scan := DirList(dir, base, [f0, f1]);
    assert [f0, f1][..1] == [f0];
    assert DirList(dir, base, [f0]) == [Entry(f0, m)];
    assert scan == [Entry(f0, m), Entry(f1, m)];
    assert SortByMtime(scan[1..]) == [Entry(f1, m)];
  }

  /** renameAllFiles on that order: app_1 goes onto app_0, then app_0 onto app_1. */
  lemma TiedRenumber(base: string, m: int, a: FileInfo, b: FileInfo, env: Env)
    requires env.renameFails == {}
    ensures var dir := map[FileName(0) := a, FileName(1) := b];
      var rn := Renumber(dir, base, [Entry(FileName(0), m), Entry(FileName(1), m)], env);
      rn.ok && rn.dir == map[FileName(1) := b]
  {
    var f0, f1 := FileName(0), FileName(1);
    FileNamesDiffer(0, 1);
    var dir := map[f0 := a, f1 := b];
    var list := [Entry(f0, m), Entry(f1, m)];
    var d1 := map[f0 := b];
    assert Move(dir, f1, f0) == d1;
    var l1 := [Entry(f0, m), Entry(f0, m)];
    RenameOfPresent(dir, base, f1, f0, env);
    assert list[1 := list[1].(name := f0)] == l1;
    assert RenumberFrom(dir, base, list, env, 0) == RenumberFrom(d1, base, l1, env, 1);
    var d2 := map[f1 := b];
    assert Move(d1, f0, f1) == d2;
    RenameOfPresent(d1, base, f0, f1, env);
    assert RenumberFrom(d1, base, l1, env, 1) == RenumberFrom(d2, base, l1[0 := l1[0].(name := f1)], env, 2);
  }

  /**
   * Two files with the same modification time: the scan yields app_0 before
   * app_1 and the sort keeps them in that order, so renameAllFiles first moves
   * app_1 onto app_0 and then app_0 onto app_1. Every rename succeeds, yet one
   * file remains and the contents of the original app_0 are gone.
   */
  lemma TiedTimesLoseAFile(base: string, m: int, size0: nat, size1: nat, env: Env)
    requires env.renameFails == {}
    ensures var dir := map[FileName(0) := FileInfo(size0, m), FileName(1) := FileInfo(size1, m)];
      var list := SortByMtime(DirList(dir, base, [FileName(0), FileName(1)]));
      && list == [Entry(FileName(0), m), Entry(FileName(1), m)]
      && Renumber(dir, base, list, env).ok
      && Renumber(dir, base, list, env).dir == map[FileName(1) := FileInfo(size1, m)]
  {
    var dir := map[FileName(0) := FileInfo(size0, m), FileName(1) := FileInfo(size1, m)];
    TiedScanOrder(dir, base, m);
    TiedRenumber(base, m, FileInfo(size0, m), FileInfo(size1, m), env);
  }

  /** The one-file scan of notes.txt, sorted. */
  lemma ForeignScan(base: string, size: nat, t: int)
    ensures var dir := map["notes.txt" := FileInfo(size, t)];
      SortByMtime(DirList(dir, base, ["notes.txt"])) == [Entry("notes.txt", t)]
  {
    var dir := map["notes.txt" := FileInfo(size, t)];
    assert ["notes.txt"][..0] == [];
    assert DirList(dir, base, ["notes.txt"]) == [Entry("notes.txt", t)];
  }

  /** rotate on that scan: notes.txt becomes app_0 and an empty app_1 is opened. */
  lemma ForeignRotate(base: string, size: nat, t: int, now: int)
    requires size >= 10
    ensures var dir := map["notes.txt" := FileInfo(size, t)];
      var path := NumberedPath(base, 1);
      Rotate(InitialState(dir), Config(base, 2, 10), [Entry("notes.txt", t)], Quiet(["notes.txt"], now))
        == Step(State(map[FileName(0) := FileInfo(size, t), FileName(1) := FileInfo(0, now)], path, Stream(true, false, path)),
                Returned(true))
  {
    var cfg := Config(base, 2, 10);
    var dir := map["notes.txt" := FileInfo(size, t)];
    var st := InitialState(dir);
    var env := Quiet(["notes.txt"], now);
    var e := Entry("notes.txt", t);
    var list := [e];
    assert StatusAt(st, cfg, list, 0) == BadSize;
    RotateWithRoom(st, cfg, list, env);
    RenameOfPresent(dir, base, "notes.txt", FileName(0), env);
    var d1 := map[FileName(0) := FileInfo(size, t)];
    assert Move(dir, "notes.txt", FileName(0)) == d1;
    assert RenumberFrom(dir, base, list, env, 0) == RenumberFrom(d1, base, [e.(name := FileName(0))], env, 1);
    FileNamesDiffer(0, 1);
    assert OpenForAppend(d1, base, NumberedPath(base, 1), env) == Some(d1[FileName(1) := FileInfo(0, now)]);
  }

  /**
   * The scan keeps every visible name, not only app_ files: a full file
   * notes.txt, alone in the directory, is renamed to app_0 by the rotation
   * with room, and app_1 is created for the text.
   */
  lemma ForeignFileJoinsRotation(base: string, size: nat, t: int, now: int, text: string)
    requires size >= 10 && t < now
    ensures var dir := map["notes.txt" := FileInfo(size, t)];
      var r := WriteSpec(InitialState(dir), Config(base, 2, 10), text, Quiet(["notes.txt"], now));
      && r.outcome == Returned(true)
      && r.state.dir == map[FileName(0) := FileInfo(size, t), FileName(1) := FileInfo(|text| + 1, now)]
  {
    ForeignScan(base, size, t);
    ForeignRotate(base, size, t, now);
    FileNamesDiffer(0, 1);
    var d2 := map[FileName(0) := FileInfo(size, t), FileName(1) := FileInfo(0, now)];
    assert AppendTo(d2, base, NumberedPath(base, 1), |text| + 1, now)
      == map[FileName(0) := FileInfo(size, t), FileName(1) := FileInfo(|text| + 1, now)];
  }
}
