/**
 * The rotating log writer itself (class logrotate of logrotate.hpp): its
 * configuration, its cached stream and current path, and the directory it
 * works on. Each method runs the steps of logrotate.cpp in the same order and
 * is proved to leave exactly the state the functions of Rotation.dfy describe.
 */
module LogRotate {
  import opened Wrappers
  import opened Naming
  import opened Directory
  import opened Scan
  import opened Rotation

  class Rotator {
    const path: string
    const number: int
    const maxSize: int
    var currentFilePath: string
    var stream: Stream
    var dir: Dir

    function Settings(): Config {
      Config(path, number, maxSize)
    }

    function Snapshot(): State
      reads this
    {
      State(dir, currentFilePath, stream)
    }

    /** The member initialisers: the arguments stored as given, no current path, the stream closed. */
    constructor (vNumber: int, vMaxSize: int, path: string, dir: Dir)
      ensures this.path == path && number == vNumber && maxSize == vMaxSize
      ensures Snapshot() == InitialState(dir)
    {
      this.path := path;
      number := vNumber;
      maxSize := vMaxSize;
      currentFilePath := "";
      stream := Stream(false, false, "");
      this.dir := dir;
    }

    /**
     * Construction with its checks: a file count or a size below 1 is refused
     * with the constructor's message, and no object escapes.
     */
    static method New(vNumber: int, vMaxSize: int, path: string, dir: Dir) returns (r: Result<Rotator, string>)
      ensures ConfigError(vNumber, vMaxSize).Some? ==> r == Failure(ConfigError(vNumber, vMaxSize).value)
      ensures ConfigError(vNumber, vMaxSize).None? ==>
                && r.Success? && fresh(r.value)
                && r.value.path == path && r.value.number == vNumber && r.value.maxSize == vMaxSize
                && r.value.Snapshot() == InitialState(dir)
    {
      if vNumber < 1 {
        return Failure(NumberError);
      }
      if vMaxSize < 1 {
        return Failure(MaxSizeError);
      }
      var rotator := new Rotator(vNumber, vMaxSize, path, dir);
      r := Success(rotator);
    }

    /** rename(2) on two paths; it replaces an existing destination. */
    method RenamePath(src: string, dst: string, env: Env) returns (ok: bool)
      modifies this`dir
      ensures ok == Rename(old(dir), path, src, dst, env).Some?
      ensures dir == if ok then Rename(old(dir), path, src, dst, env).value else old(dir)
    {
      var result := Rename(dir, path, src, dst, env);
      ok := result.Some?;
      if ok {
        dir := result.value;
      }
    }

    /** remove: unlink(2) on the directory's file `fname`. */
    method Remove(fname: string, env: Env) returns (ok: bool)
      modifies this`dir
      ensures ok == Unlink(old(dir), path, FilePath(path, fname), env).Some?
      ensures ok ==> fname in old(dir) && dir == old(dir) - {fname}
      ensures !ok ==> dir == old(dir)
    {
      var result := Unlink(dir, path, FilePath(path, fname), env);
      ok := result.Some?;
      if ok {
        dir := result.value;
      }
    }

    /** _currentFile.open(fpath, std::ios::app). */
    method OpenAppend(fpath: string, env: Env) returns (ok: bool)
      modifies this`dir, this`stream
      ensures var s := OpenStream(old(Snapshot()), Settings(), fpath, env);
        Snapshot() == s.state && ok == (s.outcome == Returned(true))
      ensures ok ==> stream == Stream(true, false, fpath)
      ensures !ok ==> !stream.isOpen && dir == old(dir)
    {
      var result := OpenForAppend(dir, path, fpath, env);
      ok := result.Some?;
      if ok {
        dir := result.value;
        stream := Stream(true, false, fpath);
      } else {
        stream := stream.(isOpen := false);
      }
    }

    /** `_currentFile << text << std::endl`. */
    method AppendLine(text: string, env: Env) returns (out: Outcome)
      modifies this`dir, this`stream
      ensures var s := AppendSpec(old(Snapshot()), Settings(), text, env);
        Snapshot() == s.state && out == s.outcome
    {
      if env.writeFails {
        stream := stream.(bad := true);
        out := Returned(false);
      } else {
        dir := AppendTo(dir, path, stream.target, |text| + 1, env.now);
        out := Returned(true);
      }
    }

    /** createAndWriteHelper: the current path becomes `number`'s path, which is opened for append. */
    method CreateAndWriteHelper(number': nat, env: Env) returns (ok: bool)
      modifies this`currentFilePath, this`dir, this`stream
      ensures var s := CreateSpec(old(Snapshot()), Settings(), number', env);
        Snapshot() == s.state && ok == (s.outcome == Returned(true))
      ensures currentFilePath == NumberedPath(path, number')
    {
      currentFilePath := NumberedPath(path, number');
      ok := OpenAppend(currentFilePath, env);
    }

    /**
     * getDirList for the names readdir yields: those not starting with a dot,
     * in order, each with the modification time stat gives (0 when it fails).
     */
    method GetDirList(listing: seq<string>) returns (list: seq<Entry>)
      ensures list == DirList(dir, path, listing)
    {
      list := [];
      var k := 0;
      while k < |listing|
        invariant 0 <= k <= |listing|
        invariant list == DirList(dir, path, listing[..k])
      {
        var name := listing[k];
        assert listing[..k + 1][..k] == listing[..k];
        if !Hidden(name) {
          var mtime := 0;
          var info := Stat(dir, path, FilePath(path, name));
          if info.Some? {
            mtime := info.value.mtime;
          }
          list := list + [Entry(name, mtime)];
        }
        k := k + 1;
      }
      assert listing[..k] == listing;
    }

    /**
     * renameAllFiles: i runs down from the last (oldest) entry while j runs up
     * from 0; entry i is renamed to index j and its name rewritten in the list.
     */
    method RenameAllFiles(list: seq<Entry>, env: Env) returns (ok: bool, renamed: seq<Entry>)
      modifies this`dir
      ensures var r := Renumber(old(dir), path, list, env);
        ok == r.ok && renamed == r.list && dir == r.dir
      ensures |renamed| == |list|
      ensures forall i :: 0 <= i < |list| ==> renamed[i].mtime == list[i].mtime
      ensures ok ==> forall i :: 0 <= i < |list| ==> renamed[i].name == FileName(|list| - 1 - i)
    {
      renamed := list;
      var i := |list| - 1;
      var j: nat := 0;
      while i >= 0
        invariant -1 <= i < |list| && j == |list| - 1 - i
        invariant |renamed| == |list|
        invariant RenumberFrom(dir, path, renamed, env, j) == Renumber(old(dir), path, list, env)
      {
        var file := FileName(j);
        var dst := FilePath(path, file);
        var src := FilePath(path, renamed[i].name);
        assert i == |renamed| - 1 - j;
        RenumberFromStep(dir, path, renamed, env, j);
        var success := RenamePath(src, dst, env);
        if !success {
          ok := false;
          assert RenumberFrom(dir, path, renamed, env, j) == Renumbered(dir, renamed, false, j);
          RenumberedList(old(dir), path, list, env);
          return;
        }
        renamed := renamed[i := renamed[i].(name := file)];
        i := i - 1;
        j := j + 1;
      }
      ok := true;
      RenumberFromDone(dir, path, renamed, env, j);
      RenumberedList(old(dir), path, list, env);
    }

    /**
     * rotate: walk the list newest first; reopen the first writable file, give
     * up on a missing one, and when the oldest is also full create a new file,
     * deleting the oldest first once the count has reached _number.
     */
    method Rotate(list: seq<Entry>, env: Env) returns (out: Outcome)
      modifies this`dir, this`currentFilePath, this`stream
      ensures var s := Rotation.Rotate(old(Snapshot()), Settings(), list, env);
        Snapshot() == s.state && out == s.outcome
    {
      var k := 0;
      while k < |list|
        invariant 0 <= k <= |list|
        invariant Snapshot() == old(Snapshot())
        invariant RotateFrom(Snapshot(), Settings(), list, env, k) == Rotation.Rotate(old(Snapshot()), Settings(), list, env)
      {
        var fp := FilePath(path, list[k].name);
        match IsFileOk(dir, path, maxSize, fp) {
        case BadSize =>
          if k == |list| - 1 {
            if number > |list| {
              var _, renamed := RenameAllFiles(list, env);
              var created := CreateAndWriteHelper(|renamed|, env);
              return Returned(created);
            } else {
              var el := list[|list| - 1].name;
              var removed := Remove(el, env);
              if removed {
                var popped := list[..|list| - 1];
                var ok, renamed := RenameAllFiles(popped, env);
                if ok {
                  var created := CreateAndWriteHelper(|renamed|, env);
                  return Returned(created);
                } else {
                  return Returned(false);
                }
              }
            }
          }
        case NoError =>
          var _ := OpenAppend(fp, env);
          if !stream.isOpen {
            return Threw("Failed to open file " + fp);
          }
          return Returned(true);
        case NoExists =>
          return Returned(false);
        }
        k := k + 1;
      }
      out := Returned(false);
    }

    /** writeImpl: scan, sort newest first, then create the first file, use the cached stream, or rotate. */
    method WriteImpl(text: string, env: Env) returns (out: Outcome)
      modifies this`dir, this`currentFilePath, this`stream
      ensures var s := WriteSpec(old(Snapshot()), Settings(), text, env);
        Snapshot() == s.state && out == s.outcome
    {
      var scanned := GetDirList(env.listing);
      var list := SortByMtime(scanned);
      if |list| == 0 {
        var created := CreateAndWriteHelper(0, env);
        if created {
          out := AppendLine(text, env);
        } else {
          out := Returned(false);
        }
      } else if stream.isOpen && !stream.bad && IsFileOk(dir, path, maxSize, currentFilePath) == NoError {
        out := AppendLine(text, env);
      } else {
        var rotated := Rotate(list, env);
        if rotated == Returned(true) {
          out := AppendLine(text, env);
        } else {
          out := rotated;
        }
      }
    }

    /** Write: the text as given. */
    method Write(text: string, env: Env) returns (out: Outcome)
      modifies this`dir, this`currentFilePath, this`stream
      ensures var s := WriteSpec(old(Snapshot()), Settings(), text, env);
        Snapshot() == s.state && out == s.outcome
    {
      out := WriteImpl(text, env);
    }

    /** DateWrite: the text behind a timestamp prefix, which the caller supplies here. */
    method DateWrite(stamp: string, text: string, env: Env) returns (out: Outcome)
      modifies this`dir, this`currentFilePath, this`stream
      ensures var s := WriteSpec(old(Snapshot()), Settings(), stamp + text, env);
        Snapshot() == s.state && out == s.outcome
    {
      out := WriteImpl(stamp + text, env);
    }
  }
}
