/**
 * The directory the rotator works against, seen through stat, rename, unlink and
 * open-for-append: a map from file name to the size and modification time stat
 * reports. What the operating system answers during one write call is an input
 * (Env), so every operation here is a function.
 */
module Directory {
  import opened Wrappers
  import opened Naming

  /** st_size and st_mtime of one file. */
  datatype FileInfo = FileInfo(size: nat, mtime: int)

  /** The managed directory: file name to what stat reports of it. */
  type Dir = map<string, FileInfo>

  /** FILE_ERR, the three answers of isFileOk. */
  datatype FileErr = BadSize | NoExists | NoError

  /** One element of fileList_t: a file name and its modification time. */
  datatype Entry = Entry(name: string, mtime: int)

  /**
   * The operating system's answers during one write call: the names readdir
   * yields, in its order; the (source, destination) path pairs whose rename
   * fails; the paths whose unlink or open fails; whether writing to the stream
   * fails; and the clock that stamps modification times. Within one call no
   * rename, unlink or open is repeated with the same arguments, so naming the
   * failing ones is as general as any sequence of outcomes.
   */
  datatype Env = Env(
    listing: seq<string>,
    renameFails: set<(string, string)>,
    unlinkFails: set<string>,
    openFails: set<string>,
    writeFails: bool,
    now: int)

  /** stat(2) on a path: only paths of the form `base/name` can denote a file. */
  function Stat(dir: Dir, base: string, path: string): (r: Option<FileInfo>)
    ensures r.Some? <==> NameInDir(base, path).Some? && NameInDir(base, path).value in dir
    ensures r.Some? ==> r.value == dir[NameInDir(base, path).value]
  {
    match NameInDir(base, path)
    case Some(name) => if name in dir then Some(dir[name]) else None
    case None => None
  }

  const TwoTo31: int := 0x8000_0000
  const TwoTo32: int := 0x1_0000_0000

  /** static_cast<int> of a wider size on a two's-complement target: the low 32 bits, signed. */
  function ToInt32(x: int): (r: int)
    ensures -TwoTo31 <= r < TwoTo31
    ensures (x - r) % TwoTo32 == 0
    ensures -TwoTo31 <= x < TwoTo31 ==> r == x
  {
    var low := x % TwoTo32;
    if low >= TwoTo31 then low - TwoTo32 else low
  }

  /** The size test of isFileOk as written: the size is cast to int before the comparison. */
  function SizeCheckAsWritten(size: nat, maxSize: int): (r: FileErr)
    ensures r != NoExists
    ensures r == BadSize <==> ToInt32(size) >= maxSize
  {
    if ToInt32(size) >= maxSize then BadSize else NoError
  }

  /** A file of 2 GiB or more looks writable to the size test as written. */
  lemma TruncatedSizeLooksWritable(size: nat, maxSize: int)
    requires TwoTo31 <= size < TwoTo32 && 1 <= maxSize < TwoTo31
    ensures size >= maxSize
    ensures SizeCheckAsWritten(size, maxSize) == NoError
  {
    assert ToInt32(size) == size - TwoTo32;
  }

  /** The size test as intended: a file at or over the limit is full. */
  function SizeCheck(size: nat, maxSize: int): (r: FileErr)
    ensures r != NoExists
    ensures r == BadSize <==> size >= maxSize
  {
    if size >= maxSize then BadSize else NoError
  }

  /** Below 2 GiB the cast changes nothing. */
  lemma SizeCheckAgreesBelow2GiB(size: nat, maxSize: int)
    requires size < TwoTo31
    ensures SizeCheckAsWritten(size, maxSize) == SizeCheck(size, maxSize)
  {
  }

  /** isFileOk: missing, full (the limit itself counts as full) or writable. */
  function IsFileOk(dir: Dir, base: string, maxSize: int, path: string): (r: FileErr)
    ensures r == NoExists <==> Stat(dir, base, path).None?
    ensures r == BadSize <==> Stat(dir, base, path).Some? && Stat(dir, base, path).value.size >= maxSize
    ensures r == NoError <==> Stat(dir, base, path).Some? && Stat(dir, base, path).value.size < maxSize
  {
    match Stat(dir, base, path)
    case None => NoExists
    case Some(info) => SizeCheck(info.size, maxSize)
  }

  /** A rename that succeeded: the file moves, replacing whatever held the destination. */
  function Move(dir: Dir, src: string, dst: string): (r: Dir)
    requires src in dir
    ensures r.Keys == dir.Keys - {src} + {dst}
    ensures r[dst] == dir[src]
    ensures forall x :: x in dir && x != src && x != dst ==> r[x] == dir[x]
  {
    (dir - {src})[dst := dir[src]]
  }

  /** rename(2): fails when the source does not exist or the system refuses it. */
  function Rename(dir: Dir, base: string, src: string, dst: string, env: Env): (r: Option<Dir>)
    ensures r.Some? <==> && NameInDir(base, src).Some? && NameInDir(base, dst).Some?
                         && NameInDir(base, src).value in dir && (src, dst) !in env.renameFails
    ensures r.Some? ==> r.value == Move(dir, NameInDir(base, src).value, NameInDir(base, dst).value)
  {
    match (NameInDir(base, src), NameInDir(base, dst))
    case (Some(s), Some(d)) =>
      if s in dir && (src, dst) !in env.renameFails then Some(Move(dir, s, d)) else None
    case _ => None
  }

  /** unlink(2): fails when the file does not exist or the system refuses it. */
  function Unlink(dir: Dir, base: string, path: string, env: Env): (r: Option<Dir>)
    ensures r.Some? <==> NameInDir(base, path).Some? && NameInDir(base, path).value in dir && path !in env.unlinkFails
    ensures r.Some? ==> r.value.Keys == dir.Keys - {NameInDir(base, path).value}
    ensures r.Some? ==> forall x :: x in r.value ==> r.value[x] == dir[x]
  {
    match NameInDir(base, path)
    case Some(name) =>
      if name in dir && path !in env.unlinkFails then Some(dir - {name}) else None
    case None => None
  }

  /** Opening for append: creates an empty file stamped `now` when none exists. */
  function OpenForAppend(dir: Dir, base: string, path: string, env: Env): (r: Option<Dir>)
    ensures r.Some? <==> NameInDir(base, path).Some? && path !in env.openFails
    ensures r.Some? ==> var name := NameInDir(base, path).value;
      && r.value.Keys == dir.Keys + {name}
      && (forall x :: x in dir ==> r.value[x] == dir[x])
      && (name !in dir ==> r.value[name] == FileInfo(0, env.now))
  {
    match NameInDir(base, path)
    case Some(name) =>
      if path in env.openFails then None
      else if name in dir then Some(dir)
      else Some(dir[name := FileInfo(0, env.now)])
    case None => None
  }

  /** Appending `bytes` bytes through a stream attached to `path`. */
  function AppendTo(dir: Dir, base: string, path: string, bytes: nat, now: int): (r: Dir)
    ensures r.Keys == dir.Keys
    ensures forall x :: x in dir && Some(x) != NameInDir(base, path) ==> r[x] == dir[x]
    ensures forall x :: x in dir && Some(x) == NameInDir(base, path) ==> r[x] == FileInfo(dir[x].size + bytes, now)
  {
    match NameInDir(base, path)
    case Some(name) =>
      if name in dir then dir[name := FileInfo(dir[name].size + bytes, now)] else dir
    case None => dir
  }
}
