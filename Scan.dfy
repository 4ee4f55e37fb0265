/**
 * The directory scan of getDirList and the modification-time ordering writeImpl
 * imposes on its result (logrotate.cpp:53-79, 214).
 */
module Scan {
  import opened Wrappers
  import opened Naming
  import opened Directory

  /** The time getDirList records for a name: st_mtime, or 0 when stat fails, as the zeroed buffer is kept. */
  function MtimeOf(dir: Dir, base: string, name: string): (t: int)
    ensures name in dir ==> t == dir[name].mtime
    ensures name !in dir ==> t == 0
  {
    match Stat(dir, base, FilePath(base, name))
    case Some(info) => info.mtime
    case None => 0
  }

  /** The names of a list of entries, in order. */
  function Names(list: seq<Entry>): (r: seq<string>)
    ensures |r| == |list|
    ensures forall i :: 0 <= i < |list| ==> r[i] == list[i].name
  {
    seq(|list|, i requires 0 <= i < |list| => list[i].name)
  }

  /**
   * getDirList for one readdir enumeration: every name that does not start
   * with a dot, in enumeration order, each with its modification time.
   */
  function DirList(dir: Dir, base: string, listing: seq<string>): (r: seq<Entry>)
    ensures |r| <= |listing|
    ensures forall i :: 0 <= i < |r| ==>
              !Hidden(r[i].name) && r[i].name in listing && r[i].mtime == MtimeOf(dir, base, r[i].name)
    ensures forall x :: x in listing && !Hidden(x) ==> x in Names(r)
  {
    if |listing| == 0 then []
    else
      var name := listing[|listing| - 1];
      var init := DirList(dir, base, listing[..|listing| - 1]);
      assert forall x :: x in listing ==> x in listing[..|listing| - 1] || x == name;
      if Hidden(name) then init
      else
        var r := init + [Entry(name, MtimeOf(dir, base, name))];
        assert Names(r) == Names(init) + [name];
        r
  }

  /** The scan keeps enumeration order: scanning two runs of names one after the other. */
  lemma {:induction false} DirListAppend(dir: Dir, base: string, a: seq<string>, b: seq<string>)
    ensures DirList(dir, base, a + b) == DirList(dir, base, a) + DirList(dir, base, b)
  {
    if |b| == 0 {
      assert a + b == a;
    } else {
      var b' := b[..|b| - 1];
      assert (a + b)[..|a + b| - 1] == a + b';
      assert (a + b)[|a + b| - 1] == b[|b| - 1];
      DirListAppend(dir, base, a, b');
    }
  }

  /** A name occurs in the scan no more often than readdir yields it. */
  lemma {:induction false} DirListCounts(dir: Dir, base: string, listing: seq<string>, e: Entry)
    ensures multiset(DirList(dir, base, listing))[e] <= multiset(listing)[e.name]
  {
    if |listing| > 0 {
      var init := listing[..|listing| - 1];
      assert listing == init + [listing[|listing| - 1]];
      DirListCounts(dir, base, init, e);
    }
  }

  /** The order writeImpl's comparator asks for: modification time, newest first. */
  predicate SortedByMtime(s: seq<Entry>) {
    forall i, j :: 0 <= i < j < |s| ==> s[i].mtime >= s[j].mtime
  }

  /** Putting an entry no newer than the head in front of a sorted list keeps it sorted. */
  lemma ConsSorted(h: Entry, rest: seq<Entry>)
    requires SortedByMtime(rest)
    requires forall x :: x in rest ==> x.mtime <= h.mtime
    ensures SortedByMtime([h] + rest)
  {
    forall i, j | 0 <= i < j < |[h] + rest|
      ensures ([h] + rest)[i].mtime >= ([h] + rest)[j].mtime
    {
      assert ([h] + rest)[j] == rest[j - 1];
      if i > 0 {
        assert ([h] + rest)[i] == rest[i - 1];
      }
    }
  }

  /** The tail of a sorted list is sorted. */
  lemma SortedTail(s: seq<Entry>)
    requires SortedByMtime(s) && |s| > 0
    ensures SortedByMtime(s[1..])
  {
    forall i, j | 0 <= i < j < |s| - 1 ensures s[1..][i].mtime >= s[1..][j].mtime {
      assert s[1..][i] == s[i + 1] && s[1..][j] == s[j + 1];
    }
  }

  /** The head of a sorted list is at least as new as every element. */
  lemma HeadIsNewest(s: seq<Entry>)
    requires SortedByMtime(s) && |s| > 0
    ensures forall x :: x in s ==> x.mtime <= s[0].mtime
  {
    forall x | x in s ensures x.mtime <= s[0].mtime {
      var k :| 0 <= k < |s| && s[k] == x;
      assert k == 0 || s[0].mtime >= s[k].mtime;
    }
  }

  /** Inserting a newer entry puts it in front. */
  lemma InsertFront(e: Entry, s: seq<Entry>)
    requires SortedByMtime(s) && (|s| == 0 || e.mtime >= s[0].mtime)
    ensures SortedByMtime([e] + s)
  {
    if |s| > 0 {
      HeadIsNewest(s);
    }
    ConsSorted(e, s);
  }

  /** The head stays in front of the tail with the entry inserted. */
  lemma InsertBehind(e: Entry, s: seq<Entry>, rest: seq<Entry>)
    requires SortedByMtime(s) && |s| > 0 && e.mtime < s[0].mtime
    requires SortedByMtime(rest) && multiset(rest) == multiset(s[1..]) + multiset{e}
    ensures SortedByMtime([s[0]] + rest)
  {
    HeadIsNewest(s);
    forall x | x in rest ensures x.mtime <= s[0].mtime {
      assert x in multiset(rest);
      if x != e {
        assert x in multiset(s[1..]);
        assert x in s[1..];
        assert x in s;
      }
    }
    ConsSorted(s[0], rest);
  }

  function Insert(e: Entry, s: seq<Entry>): (r: seq<Entry>)
    requires SortedByMtime(s)
    ensures SortedByMtime(r)
    ensures multiset(r) == multiset(s) + multiset{e}
  {
    if |s| == 0 || e.mtime >= s[0].mtime then
      InsertFront(e, s);
      [e] + s
    else
      SortedTail(s);
      var rest := Insert(e, s[1..]);
      assert s == [s[0]] + s[1..];
      InsertBehind(e, s, rest);
      [s[0]] + rest
  }

  /**
   * The std::sort call of writeImpl: a permutation of the scan ordered newest
   * first. The order of entries with equal times is this sort's own choice.
   */
  function SortByMtime(list: seq<Entry>): (r: seq<Entry>)
    ensures SortedByMtime(r)
    ensures multiset(r) == multiset(list)
  {
    if |list| == 0 then []
    else
      assert list == [list[0]] + list[1..];
      Insert(list[0], SortByMtime(list[1..]))
  }
}
