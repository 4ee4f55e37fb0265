/**
 * The naming scheme the rotator maintains when nothing fails and nobody else
 * touches its directory: the visible names of the directory (those not
 * starting with a dot) are exactly app_0 .. app_{n-1}, a higher index is a
 * newer file, and every file but the newest is full. Hidden files may sit
 * beside them; getDirList never reports them.
 * Every write keeps the scheme (with the count growing up to _number and then
 * staying), and the renumbering after an eviction never renames onto a name
 * another file still holds.
 */
module NamingScheme {
  import opened Wrappers
  import opened Naming
  import opened Directory
  import opened Scan
  import opened Rotation

  /** The names app_0 .. app_{n-1}. */
  function FileNames(n: nat): (r: set<string>)
    ensures forall i :: 0 <= i < n ==> FileName(i) in r
    ensures forall x :: x in r ==> exists i :: 0 <= i < n && x == FileName(i)
  {
    set i | 0 <= i < n :: FileName(i)
  }

  /** There are exactly n names app_0 .. app_{n-1}. */
  lemma {:induction false} FileNamesCount(n: nat)
    ensures |FileNames(n)| == n
  {
    if n > 0 {
      FileNamesCount(n - 1);
      FileNamesSucc(n - 1);
      if FileName(n - 1) in FileNames(n - 1) {
        var i :| 0 <= i < n - 1 && FileName(n - 1) == FileName(i);
        FileNamesDiffer(n - 1, i);
      }
    }
  }

  /** Different indices, different names. */
  lemma FileNamesDiffer(i: nat, j: nat)
    requires i != j
    ensures FileName(i) != FileName(j)
  {
    if FileName(i) == FileName(j) {
      FileNameInjective(i, j);
    }
  }

  /** app_0 .. app_{n-1} are all present. */
  predicate Numbered(dir: Dir, n: nat) {
    forall i :: 0 <= i < n ==> FileName(i) in dir
  }

  /** The names of the directory that do not start with a dot. */
  function Visible(dir: Dir): (r: set<string>)
    ensures forall x :: x in r <==> x in dir && !Hidden(x)
  {
    set x | x in dir && !Hidden(x)
  }

  /** The scheme: exactly n numbered visible files, newer with the index, all but the newest full. */
  ghost predicate Canonical(dir: Dir, n: nat, maxSize: int) {
    && Visible(dir) == FileNames(n)
    && OlderBelow(dir, n)
    && FullBelow(dir, n, maxSize)
  }

  /** A numbered file is older than every file with a higher index. */
  ghost predicate OlderBelow(dir: Dir, n: nat) {
    forall i, j :: 0 <= i < j < n && FileName(i) in dir && FileName(j) in dir ==>
      dir[FileName(i)].mtime < dir[FileName(j)].mtime
  }

  /** Every numbered file but the newest is full. */
  ghost predicate FullBelow(dir: Dir, n: nat, maxSize: int) {
    forall i :: 0 <= i < n - 1 && FileName(i) in dir ==> dir[FileName(i)].size >= maxSize
  }

  /** The scan of a directory in the scheme, newest first: app_{n-1} down to app_0. */
  function NewestFirst(dir: Dir, n: nat): (r: seq<Entry>)
    requires Numbered(dir, n)
    ensures |r| == n
    ensures forall j :: 0 <= j < n ==> r[j] == Entry(FileName(n - 1 - j), dir[FileName(n - 1 - j)].mtime)
  {
    if n == 0 then [] else [Entry(FileName(n - 1), dir[FileName(n - 1)].mtime)] + NewestFirst(dir, n - 1)
  }

  /** Modification times strictly decrease along the list. */
  predicate StrictlyNewestFirst(s: seq<Entry>) {
    forall i, j :: 0 <= i < j < |s| ==> s[i].mtime > s[j].mtime
  }

  predicate Distinct(s: seq<Entry>) {
    forall a, b :: 0 <= a < b < |s| ==> s[a] != s[b]
  }

  /** A list in which no element occurs twice has no repeated position. */
  lemma CountsOneDistinct(s: seq<Entry>)
    requires forall x :: multiset(s)[x] <= 1
    ensures Distinct(s)
  {
    forall a, b | 0 <= a < b < |s| ensures s[a] != s[b] {
      assert s == s[..b] + [s[b]] + s[b + 1..];
      assert s[..b][a] == s[a];
      assert s[a] in multiset(s[..b]);
      assert multiset(s) == multiset(s[..b]) + multiset{s[b]} + multiset(s[b + 1..]);
      assert multiset(s)[s[b]] >= multiset(s[..b])[s[b]] + 1;
    }
  }

  /** The two lists hold the same elements, counted without multiplicity. */
  ghost predicate SameElements(l: seq<Entry>, c: seq<Entry>) {
    && (forall x :: x in l ==> x in c)
    && (forall x :: x in c ==> x in l)
  }

  /** The newest element of a sorted list is the strictly ordered list's first one. */
  lemma HeadsAgree(l: seq<Entry>, c: seq<Entry>)
    requires SortedByMtime(l) && StrictlyNewestFirst(c) && SameElements(l, c)
    requires |c| > 0
    ensures |l| > 0 && l[0] == c[0]
  {
    assert c[0] in c && c[0] in l;
    assert l[0] in l && l[0] in c;
    var j :| 0 <= j < |c| && c[j] == l[0];
    var m :| 0 <= m < |l| && l[m] == c[0];
    assert l[0].mtime >= l[m].mtime;
    assert c[0].mtime >= c[j].mtime;
    assert c[j].mtime == c[0].mtime;
  }

  /** Dropping the common head keeps the elements of both lists in step. */
  lemma TailsSameElements(l: seq<Entry>, c: seq<Entry>)
    requires StrictlyNewestFirst(c) && Distinct(l) && SameElements(l, c)
    requires |l| > 0 && |c| > 0 && l[0] == c[0]
    ensures SameElements(l[1..], c[1..])
  {
    var l', c' := l[1..], c[1..];
    forall x | x in l' ensures x in c' {
      var k :| 0 <= k < |l'| && l'[k] == x;
      assert l[k + 1] == x && l[0] != l[k + 1];
      assert x in l;
      var i :| 0 <= i < |c| && c[i] == x;
      assert c'[i - 1] == x;
    }
    forall x | x in c' ensures x in l' {
      var i :| 0 <= i < |c'| && c'[i] == x;
      assert c[i + 1] == x && c[0].mtime > c[i + 1].mtime;
      assert x in c;
      var k :| 0 <= k < |l| && l[k] == x;
      assert l'[k - 1] == x;
    }
  }

  /** The orderings survive dropping the head. */
  lemma TailsOrdered(l: seq<Entry>, c: seq<Entry>)
    requires SortedByMtime(l) && StrictlyNewestFirst(c) && Distinct(l)
    requires |l| > 0 && |c| > 0
    ensures SortedByMtime(l[1..]) && StrictlyNewestFirst(c[1..]) && Distinct(l[1..])
  {
    var l', c' := l[1..], c[1..];
    forall a, b | 0 <= a < b < |l'| ensures l'[a].mtime >= l'[b].mtime && l'[a] != l'[b] {
      assert l'[a] == l[a + 1] && l'[b] == l[b + 1];
    }
    forall a, b | 0 <= a < b < |c'| ensures c'[a].mtime > c'[b].mtime {
      assert c'[a] == c[a + 1] && c'[b] == c[b + 1];
    }
  }

  /**
   * When modification times are all different the mtime order leaves no choice:
   * a sorted list holding exactly the elements of a strictly ordered one is that list.
   */
  lemma {:induction false} SortedUnique(l: seq<Entry>, c: seq<Entry>)
    requires SortedByMtime(l) && StrictlyNewestFirst(c) && Distinct(l)
    requires SameElements(l, c)
    ensures l == c
  {
    assert |l| > 0 ==> l[0] in l && l[0] in c;
    if |c| > 0 {
      HeadsAgree(l, c);
      TailsSameElements(l, c);
      TailsOrdered(l, c);
      SortedUnique(l[1..], c[1..]);
      assert l == [l[0]] + l[1..] && c == [c[0]] + c[1..];
    }
  }

  /** getDirList records a numbered file's own modification time. */
  lemma MtimeOfNumbered(dir: Dir, base: string, i: nat)
    requires FileName(i) in dir
    ensures MtimeOf(dir, base, FileName(i)) == dir[FileName(i)].mtime
  {
    assert NameInDir(base, FilePath(base, FileName(i))) == Some(FileName(i));
  }

  /** Every entry of the scan of a directory in the scheme is one of app_0 .. app_{n-1} with its time. */
  lemma ScanWithinNewestFirst(dir: Dir, n: nat, maxSize: int, base: string, listing: seq<string>, x: Entry)
    requires Canonical(dir, n, maxSize)
    requires ListsVisible(dir, listing)
    requires x in DirList(dir, base, listing)
    ensures x in NewestFirst(dir, n)
  {
    var d := DirList(dir, base, listing);
    var q :| 0 <= q < |d| && d[q] == x;
    assert x.name in listing && !Hidden(x.name);
    assert x.name in Visible(dir);
    var i :| 0 <= i < n && x.name == FileName(i);
    MtimeOfNumbered(dir, base, i);
    assert NewestFirst(dir, n)[n - 1 - i] == x;
  }

  /** Every numbered file, with its time, is in the scan when readdir yields it. */
  lemma NewestFirstWithinScan(dir: Dir, n: nat, maxSize: int, base: string, listing: seq<string>, x: Entry)
    requires Canonical(dir, n, maxSize)
    requires ListsVisible(dir, listing)
    requires x in NewestFirst(dir, n)
    ensures x in DirList(dir, base, listing)
  {
    var d := DirList(dir, base, listing);
    var c := NewestFirst(dir, n);
    var j :| 0 <= j < n && c[j] == x;
    var name := FileName(n - 1 - j);
    assert name in dir;
    assert multiset(listing)[name] == 1;
    assert name in listing;
    assert name in Names(d);
    var q :| 0 <= q < |d| && Names(d)[q] == name;
    MtimeOfNumbered(dir, base, n - 1 - j);
    assert d[q] == x;
  }

  /** Appending through a stream on app_i changes that file alone. */
  lemma AppendToNumbered(dir: Dir, base: string, i: nat, bytes: nat, now: int)
    requires FileName(i) in dir
    ensures AppendTo(dir, base, NumberedPath(base, i), bytes, now)
      == dir[FileName(i) := FileInfo(dir[FileName(i)].size + bytes, now)]
  {
  }

  /** Appending to a file just created empty leaves exactly the appended bytes. */
  lemma AppendToCreated(dir: Dir, base: string, i: nat, bytes: nat, now: int)
    ensures AppendTo(dir[FileName(i) := FileInfo(0, now)], base, NumberedPath(base, i), bytes, now)
      == dir[FileName(i) := FileInfo(bytes, now)]
  {
    AppendToNumbered(dir[FileName(i) := FileInfo(0, now)], base, i, bytes, now);
    assert dir[FileName(i) := FileInfo(0, now)][FileName(i) := FileInfo(bytes, now)]
      == dir[FileName(i) := FileInfo(bytes, now)];
  }

  /** Opening a missing app_i for append creates it empty, stamped with the clock. */
  lemma OpenNumberedCreates(dir: Dir, base: string, i: nat, env: Env)
    requires FileName(i) !in dir && NumberedPath(base, i) !in env.openFails
    ensures OpenForAppend(dir, base, NumberedPath(base, i), env) == Some(dir[FileName(i) := FileInfo(0, env.now)])
  {
  }

  /**
   * readdir on the directory: every visible file exactly once, no visible name
   * the directory does not hold, and any number of names starting with a dot
   * (".", "..", hidden files), all in any order.
   */
  ghost predicate ListsVisible(dir: Dir, listing: seq<string>) {
    && (forall x :: x in dir && !Hidden(x) ==> multiset(listing)[x] == 1)
    && (forall x :: x in listing && !Hidden(x) ==> x in dir)
  }

  /** No entry occurs twice in the scan of such a listing. */
  lemma ScanCountsOne(dir: Dir, base: string, listing: seq<string>, e: Entry)
    requires ListsVisible(dir, listing)
    ensures multiset(DirList(dir, base, listing))[e] <= 1
  {
    var d := DirList(dir, base, listing);
    DirListCounts(dir, base, listing, e);
    if e in d {
      var q :| 0 <= q < |d| && d[q] == e;
      assert e.name in listing && !Hidden(e.name);
    }
  }

  /**
   * In the scheme, with readdir yielding every visible file once in any order,
   * the sorted scan of writeImpl is app_{n-1} down to app_0.
   */
  lemma ScanIsNewestFirst(dir: Dir, n: nat, maxSize: int, base: string, listing: seq<string>)
    requires Canonical(dir, n, maxSize)
    requires ListsVisible(dir, listing)
    ensures SortByMtime(DirList(dir, base, listing)) == NewestFirst(dir, n)
  {
    var d := DirList(dir, base, listing);
    var l := SortByMtime(d);
    var c := NewestFirst(dir, n);
    forall e ensures multiset(l)[e] <= 1 {
      ScanCountsOne(dir, base, listing, e);
    }
    CountsOneDistinct(l);
    forall x | x in l ensures x in c {
      assert x in multiset(l);
      assert x in multiset(d);
      ScanWithinNewestFirst(dir, n, maxSize, base, listing, x);
    }
    forall x | x in c ensures x in l {
      NewestFirstWithinScan(dir, n, maxSize, base, listing, x);
      assert x in multiset(d);
      assert x in multiset(l);
    }
    assert StrictlyNewestFirst(c) by {
      forall a, b | 0 <= a < b < |c| ensures c[a].mtime > c[b].mtime {
        assert 0 <= n - 1 - b < n - 1 - a < n;
      }
    }
    assert SameElements(l, c);
    SortedUnique(l, c);
  }

  /** Renaming a file onto its own name changes nothing. */
  lemma MoveOntoItself(dir: Dir, x: string)
    requires x in dir
    ensures Move(dir, x, x) == dir
  {
    assert Move(dir, x, x).Keys == dir.Keys;
  }

  /** When the list is already app_{n-1} .. app_0, every rename of renameAllFiles is onto the file's own name. */
  lemma {:induction false} RenamedIdentity(dir: Dir, n: nat, k: nat)
    requires Numbered(dir, n) && k <= n
    ensures Renamed(dir, NewestFirst(dir, n), k) == dir
  {
    if k > 0 {
      RenamedIdentity(dir, n, k - 1);
      var c := NewestFirst(dir, n);
      assert Source(c, k - 1) == FileName(k - 1);
      MoveOntoItself(dir, FileName(k - 1));
    }
  }

  /** renameAllFiles on the sorted scan of a directory in the scheme renames every file onto itself. */
  lemma RenumberIdentity(dir: Dir, n: nat, maxSize: int, base: string, env: Env)
    requires Canonical(dir, n, maxSize) && env.renameFails == {}
    ensures Renumber(dir, base, NewestFirst(dir, n), env).dir == dir
    ensures |Renumber(dir, base, NewestFirst(dir, n), env).list| == n
  {
    var c := NewestFirst(dir, n);
    CanonicalNumbered(dir, n, maxSize);
    forall t | 0 <= t < n ensures Source(c, t) in Renamed(dir, c, t) {
      RenamedIdentity(dir, n, t);
    }
    RenumberSucceeds(dir, base, c, env);
    RenamedIdentity(dir, n, n);
    RenumberOutcome(dir, base, c, env);
  }

  /**
   * The directory after t renames of the renumbering that follows the
   * eviction of app_0: index t is vacant, the indices below it hold the files
   * that were one index higher, the indices above it are untouched, and every
   * hidden file is kept as it was.
   */
  ghost predicate ShiftedUpTo(d: Dir, dir: Dir, n: nat, t: nat) {
    && d.Keys == dir.Keys - {FileName(t)}
    && (forall i :: 0 <= i < t ==> HoldsNext(d, dir, i))
    && (forall i :: t < i < n ==> HoldsSame(d, dir, i))
    && KeepsHidden(d, dir)
  }

  /** Every hidden file of `dir` is in `d` with the same size and time. */
  ghost predicate KeepsHidden(d: Dir, dir: Dir) {
    forall x :: x in dir && Hidden(x) ==> x in d && d[x] == dir[x]
  }

  /** Index i of `d` holds what index i + 1 of `dir` held. */
  ghost predicate HoldsNext(d: Dir, dir: Dir, i: nat) {
    FileName(i) in d && FileName(i + 1) in dir && d[FileName(i)] == dir[FileName(i + 1)]
  }

  /** Index i of `d` holds what index i of `dir` held. */
  ghost predicate HoldsSame(d: Dir, dir: Dir, i: nat) {
    FileName(i) in d && FileName(i) in dir && d[FileName(i)] == dir[FileName(i)]
  }

  /** The survivors of an eviction, newest first: app_{n-1} down to app_1. */
  function Survivors(dir: Dir, n: nat): (r: seq<Entry>)
    requires n >= 1 && Numbered(dir, n)
    ensures |r| == n - 1
    ensures forall t :: 0 <= t < n - 1 ==> Source(r, t) == FileName(t + 1)
  {
    NewestFirst(dir, n)[..n - 1]
  }

  /** One more rename, app_{t+1} onto the vacant app_t, moves the vacancy up by one. */
  lemma ShiftStep(d: Dir, dir: Dir, n: nat, t: nat)
    requires t < n - 1 && ShiftedUpTo(d, dir, n, t)
    requires FileName(t) in dir
    ensures FileName(t + 1) in d
    ensures ShiftedUpTo(Move(d, FileName(t + 1), FileName(t)), dir, n, t + 1)
  {
    assert HoldsSame(d, dir, t + 1);
    var d' := Move(d, FileName(t + 1), FileName(t));
    FileNamesDiffer(t, t + 1);
    assert d'.Keys == dir.Keys - {FileName(t + 1)};
    forall i | 0 <= i < t + 1 ensures HoldsNext(d', dir, i) {
      if i < t {
        FileNamesDiffer(i, t);
        FileNamesDiffer(i, t + 1);
        assert HoldsNext(d, dir, i);
        assert d'[FileName(i)] == d[FileName(i)];
      } else {
        assert d'[FileName(t)] == d[FileName(t + 1)];
      }
    }
    forall i | t + 1 < i < n ensures HoldsSame(d', dir, i) {
      FileNamesDiffer(i, t);
      FileNamesDiffer(i, t + 1);
      assert HoldsSame(d, dir, i);
    }
  }

  lemma EvictionStep(dir: Dir, n: nat, t: nat)
    requires Numbered(dir, n) && n >= 1 && t < n - 1
    requires ShiftedUpTo(Renamed(dir - {FileName(0)}, Survivors(dir, n), t), dir, n, t)
    ensures ShiftedUpTo(Renamed(dir - {FileName(0)}, Survivors(dir, n), t + 1), dir, n, t + 1)
  {
    var p := Survivors(dir, n);
    var d := Renamed(dir - {FileName(0)}, p, t);
    assert FileName(t) in dir;
    ShiftStep(d, dir, n, t);
    assert Source(p, t) == FileName(t + 1);
  }

  lemma {:induction false} EvictionShifts(dir: Dir, n: nat, t: nat)
    requires Numbered(dir, n) && n >= 1 && t <= n - 1
    ensures ShiftedUpTo(Renamed(dir - {FileName(0)}, Survivors(dir, n), t), dir, n, t)
  {
    if t == 0 {
      forall i | 0 < i < n ensures HoldsSame(dir - {FileName(0)}, dir, i) {
        FileNamesDiffer(i, 0);
      }
    } else {
      EvictionShifts(dir, n, t - 1);
      EvictionStep(dir, n, t - 1);
    }
  }

  /**
   * After app_0 is unlinked from a full directory in the scheme, the rename of
   * step t moves app_{t+1}, which is present, onto app_t, which is vacant, and
   * no entry the loop has not renamed yet carries the name app_t.
   */
  lemma EvictionRenamesAreSafe(dir: Dir, n: nat, t: nat)
    requires Numbered(dir, n) && n >= 1 && t < n - 1
    ensures var p := Survivors(dir, n);
      var d := Renamed(dir - {FileName(0)}, p, t);
      && Source(p, t) == FileName(t + 1) && Source(p, t) in d
      && FileName(t) !in d
      && forall i :: 0 <= i < |p| - t ==> p[i].name != FileName(t)
  {
    EvictionShifts(dir, n, t);
    var p := Survivors(dir, n);
    forall i | 0 <= i < |p| - t ensures p[i].name != FileName(t) {
      assert p[i] == NewestFirst(dir, n)[i];
      FileNamesDiffer(n - 1 - i, t);
    }
    FileNamesDiffer(t, t + 1);
  }

  /** After the whole renumbering the survivors hold app_0 .. app_{n-2}, each one index lower. */
  lemma EvictionRenumbers(dir: Dir, n: nat, base: string, env: Env)
    requires Numbered(dir, n) && n >= 1 && env.renameFails == {}
    ensures var r := Renumber(dir - {FileName(0)}, base, Survivors(dir, n), env);
      && r.ok && |r.list| == n - 1
      && ShiftedUpTo(r.dir, dir, n, n - 1)
  {
    var p := Survivors(dir, n);
    forall t | 0 <= t < |p| ensures Source(p, t) in Renamed(dir - {FileName(0)}, p, t) {
      EvictionRenamesAreSafe(dir, n, t);
    }
    RenumberSucceeds(dir - {FileName(0)}, base, p, env);
    RenumberOutcome(dir - {FileName(0)}, base, p, env);
    EvictionShifts(dir, n, n - 1);
  }

  /**
   * The scheme together with the rotator's own fields: a positive _number no
   * smaller than the count, an open stream attached to the newest file, and a
   * current path that names no hidden file.
   */
  ghost predicate Coherent(st: State, cfg: Config, n: nat) {
    && 1 <= cfg.number && n <= cfg.number
    && Canonical(st.dir, n, cfg.maxSize)
    && (st.stream.isOpen ==> n >= 1 && st.stream.target == NumberedPath(cfg.path, n - 1))
    && ManagedPath(cfg.path, st.currentFilePath)
  }

  /** A path that is not `base/name` for a name starting with a dot. */
  predicate ManagedPath(base: string, path: string) {
    NameInDir(base, path).Some? ==> !Hidden(NameInDir(base, path).value)
  }

  /**
   * The clock is not behind the newest file of the scheme, and strictly ahead
   * of it when it is full, so that a file started now is the newest by its time.
   */
  ghost predicate ClockAhead(dir: Dir, n: nat, maxSize: int, now: int) {
    n >= 1 && FileName(n - 1) in dir ==>
      && dir[FileName(n - 1)].mtime <= now
      && (dir[FileName(n - 1)].size >= maxSize ==> dir[FileName(n - 1)].mtime < now)
  }

  /**
   * A write call on a directory in the scheme with n files in which the system
   * refuses nothing, readdir yields every visible file exactly once, and the
   * clock is ahead of the newest file.
   */
  ghost predicate Reliable(dir: Dir, n: nat, maxSize: int, env: Env) {
    && ListsVisible(dir, env.listing)
    && env.renameFails == {} && env.unlinkFails == {} && env.openFails == {} && !env.writeFails
    && ClockAhead(dir, n, maxSize, env.now)
  }

  lemma CanonicalNumbered(dir: Dir, n: nat, maxSize: int)
    requires Canonical(dir, n, maxSize)
    ensures Numbered(dir, n)
    ensures FileName(n) !in dir
  {
    if FileName(n) in dir {
      assert FileName(n) in Visible(dir);
      var i :| 0 <= i < n && FileName(n) == FileName(i);
      FileNamesDiffer(n, i);
    }
  }

  /** When the newest file is full every file is, so no path names a writable file. */
  lemma AllFull(dir: Dir, n: nat, maxSize: int, base: string, path: string)
    requires Canonical(dir, n, maxSize) && n >= 1
    requires dir[FileName(n - 1)].size >= maxSize
    requires ManagedPath(base, path)
    ensures IsFileOk(dir, base, maxSize, path) != NoError
  {
    match NameInDir(base, path)
    case Some(name) =>
      if name in dir {
        assert name in Visible(dir);
        var i :| 0 <= i < n && name == FileName(i);
      }
    case None =>
  }

  /** rotate finds every entry of the sorted scan full. */
  lemma ScanAllFull(st: State, cfg: Config, n: nat)
    requires Canonical(st.dir, n, cfg.maxSize) && n >= 1
    requires st.dir[FileName(n - 1)].size >= cfg.maxSize
    ensures FullBefore(st, cfg, NewestFirst(st.dir, n), n)
  {
    var c := NewestFirst(st.dir, n);
    forall j | 0 <= j < n ensures StatusAt(st, cfg, c, j) == BadSize {
      assert NameInDir(cfg.path, FilePath(cfg.path, c[j].name)) == Some(FileName(n - 1 - j));
    }
  }

  /** Appending to the newest file keeps the scheme. */
  lemma AppendKeepsScheme(dir: Dir, n: nat, maxSize: int, bytes: nat, now: int)
    requires Canonical(dir, n, maxSize) && n >= 1
    requires ClockAhead(dir, n, maxSize, now)
    ensures FileName(n - 1) in dir
    ensures Canonical(dir[FileName(n - 1) := FileInfo(dir[FileName(n - 1)].size + bytes, now)], n, maxSize)
  {
    CanonicalNumbered(dir, n, maxSize);
    var d := dir[FileName(n - 1) := FileInfo(dir[FileName(n - 1)].size + bytes, now)];
    forall i | 0 <= i < n - 1 ensures HoldsSame(d, dir, i) {
      FileNamesDiffer(i, n - 1);
    }
    assert d.Keys == dir.Keys;
    assert Visible(d) == Visible(dir);
    AppendOlderBelow(dir, d, n, now);
    AppendFullBelow(dir, d, n, maxSize);
  }

  /** Restamping the newest file with a time no earlier than its own keeps the order of the times. */
  lemma AppendOlderBelow(dir: Dir, d: Dir, n: nat, now: int)
    requires n >= 1 && Numbered(dir, n) && OlderBelow(dir, n)
    requires forall i :: 0 <= i < n - 1 ==> HoldsSame(d, dir, i)
    requires FileName(n - 1) in d && d[FileName(n - 1)].mtime == now
    requires dir[FileName(n - 1)].mtime <= now
    ensures OlderBelow(d, n)
  {
    forall i, j | 0 <= i < j < n && FileName(i) in d && FileName(j) in d
      ensures d[FileName(i)].mtime < d[FileName(j)].mtime
    {
      assert HoldsSame(d, dir, i);
      if j < n - 1 {
        assert HoldsSame(d, dir, j);
      } else {
        assert dir[FileName(i)].mtime < dir[FileName(n - 1)].mtime;
      }
    }
  }

  /** The files below the newest are untouched, so they stay full. */
  lemma AppendFullBelow(dir: Dir, d: Dir, n: nat, maxSize: int)
    requires FullBelow(dir, n, maxSize)
    requires forall i :: 0 <= i < n - 1 ==> HoldsSame(d, dir, i)
    ensures FullBelow(d, n, maxSize)
  {
    forall i | 0 <= i < n - 1 && FileName(i) in d ensures d[FileName(i)].size >= maxSize {
      assert HoldsSame(d, dir, i);
    }
  }

  lemma FileNamesSucc(n: nat)
    ensures FileNames(n + 1) == FileNames(n) + {FileName(n)}
  {
    forall x | x in FileNames(n + 1) ensures x in FileNames(n) + {FileName(n)} {
      var i :| 0 <= i < n + 1 && x == FileName(i);
      if i < n {
        assert x in FileNames(n);
      }
    }
  }

  lemma NewFileOlderBelow(dir: Dir, n: nat, bytes: nat, now: int)
    requires Numbered(dir, n) && OlderBelow(dir, n)
    requires n >= 1 ==> dir[FileName(n - 1)].mtime < now
    ensures OlderBelow(dir[FileName(n) := FileInfo(bytes, now)], n + 1)
  {
    var d := dir[FileName(n) := FileInfo(bytes, now)];
    forall i, j | 0 <= i < j < n + 1 && FileName(i) in d && FileName(j) in d
      ensures d[FileName(i)].mtime < d[FileName(j)].mtime
    {
      FileNamesDiffer(i, n);
      assert d[FileName(i)] == dir[FileName(i)];
      if j < n {
        FileNamesDiffer(j, n);
        assert d[FileName(j)] == dir[FileName(j)];
      } else if i < n - 1 {
        assert dir[FileName(i)].mtime < dir[FileName(n - 1)].mtime;
      }
    }
  }

  lemma NewFileFullBelow(dir: Dir, n: nat, maxSize: int, bytes: nat, now: int)
    requires Numbered(dir, n) && FullBelow(dir, n, maxSize)
    requires n >= 1 ==> dir[FileName(n - 1)].size >= maxSize
    ensures FullBelow(dir[FileName(n) := FileInfo(bytes, now)], n + 1, maxSize)
  {
    var d := dir[FileName(n) := FileInfo(bytes, now)];
    forall i | 0 <= i < n && FileName(i) in d ensures d[FileName(i)].size >= maxSize {
      FileNamesDiffer(i, n);
      assert d[FileName(i)] == dir[FileName(i)];
    }
  }

  /** A new newest file after a full one extends the scheme by one. */
  lemma NewFileExtendsScheme(dir: Dir, n: nat, maxSize: int, bytes: nat, now: int)
    requires Canonical(dir, n, maxSize)
    requires n >= 1 ==> dir[FileName(n - 1)].size >= maxSize
    requires ClockAhead(dir, n, maxSize, now)
    ensures Canonical(dir[FileName(n) := FileInfo(bytes, now)], n + 1, maxSize)
  {
    CanonicalNumbered(dir, n, maxSize);
    FileNamesSucc(n);
    assert Visible(dir[FileName(n) := FileInfo(bytes, now)]) == Visible(dir) + {FileName(n)};
    NewFileOlderBelow(dir, n, bytes, now);
    NewFileFullBelow(dir, n, maxSize, bytes, now);
  }

  /**
   * The survivors one index lower, then a new newest file, with the hidden
   * files untouched: what the directory holds after an eviction.
   */
  ghost predicate Evicted(e: Dir, dir: Dir, n: nat, bytes: nat, now: int) {
    && n >= 1
    && e.Keys == dir.Keys
    && (forall i :: 0 <= i < n - 1 ==> HoldsNext(e, dir, i))
    && FileName(n - 1) in e && e[FileName(n - 1)] == FileInfo(bytes, now)
    && KeepsHidden(e, dir)
  }

  lemma EvictedContents(dir: Dir, d: Dir, n: nat, bytes: nat, now: int)
    requires n >= 1 && Numbered(dir, n)
    requires ShiftedUpTo(d, dir, n, n - 1)
    ensures Evicted(d[FileName(n - 1) := FileInfo(bytes, now)], dir, n, bytes, now)
  {
    var e := d[FileName(n - 1) := FileInfo(bytes, now)];
    forall i | 0 <= i < n - 1 ensures HoldsNext(e, dir, i) {
      FileNamesDiffer(i, n - 1);
      assert HoldsNext(d, dir, i);
    }
    assert e.Keys == dir.Keys;
  }

  lemma EvictedOlderBelow(e: Dir, dir: Dir, n: nat, bytes: nat, now: int)
    requires Numbered(dir, n) && OlderBelow(dir, n) && Evicted(e, dir, n, bytes, now)
    requires dir[FileName(n - 1)].mtime < now
    ensures OlderBelow(e, n)
  {
    forall i, j | 0 <= i < j < n && FileName(i) in e && FileName(j) in e
      ensures e[FileName(i)].mtime < e[FileName(j)].mtime
    {
      assert HoldsNext(e, dir, i);
      if j < n - 1 {
        assert HoldsNext(e, dir, j);
      } else if i + 1 < n - 1 {
        assert dir[FileName(i + 1)].mtime < dir[FileName(n - 1)].mtime;
      }
    }
  }

  lemma EvictedFullBelow(e: Dir, dir: Dir, n: nat, maxSize: int, bytes: nat, now: int)
    requires Numbered(dir, n) && FullBelow(dir, n, maxSize) && Evicted(e, dir, n, bytes, now)
    requires n >= 1 && dir[FileName(n - 1)].size >= maxSize
    ensures FullBelow(e, n, maxSize)
  {
    forall i | 0 <= i < n - 1 && FileName(i) in e ensures e[FileName(i)].size >= maxSize {
      assert HoldsNext(e, dir, i);
    }
  }

  /** After an eviction the directory is in the scheme again, with the same count. */
  lemma EvictionKeepsScheme(dir: Dir, d: Dir, n: nat, maxSize: int, bytes: nat, now: int)
    requires Canonical(dir, n, maxSize) && n >= 1
    requires dir[FileName(n - 1)].size >= maxSize
    requires ShiftedUpTo(d, dir, n, n - 1)
    requires ClockAhead(dir, n, maxSize, now)
    ensures Evicted(d[FileName(n - 1) := FileInfo(bytes, now)], dir, n, bytes, now)
    ensures Canonical(d[FileName(n - 1) := FileInfo(bytes, now)], n, maxSize)
  {
    CanonicalNumbered(dir, n, maxSize);
    var e := d[FileName(n - 1) := FileInfo(bytes, now)];
    EvictedContents(dir, d, n, bytes, now);
    assert Visible(e) == Visible(dir);
    EvictedOlderBelow(e, dir, n, bytes, now);
    EvictedFullBelow(e, dir, n, maxSize, bytes, now);
  }
}
