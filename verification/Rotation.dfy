/** Retention in src/rotation.c: the files of the directory, oldest first, are unlinked until their
    total size is within the limit; the open file is passed over. */
module Rotation {
  import opened CText

  const PATH_MAX := 4096

  /** What readdir() and stat() say of one directory entry. */
  datatype DirEntry = DirEntry(name: string, regular: bool, mtime: int, size: nat)

  datatype RetentionFile = RetentionFile(path: string, mtime: int, size: nat)

  function JoinPath(dir: string, name: string): string {
    dir + "/" + name
  }

  /** A regular file whose name starts like those the module writes. */
  predicate IsModuleFile(e: DirEntry) {
    (HasPrefix(e.name, "metrics.") || HasPrefix(e.name, "metadata.")) && e.regular
  }

  /** The entries retention looks at, with their full paths. */
  function Candidates(dir: string, entries: seq<DirEntry>): seq<RetentionFile> {
    if entries == [] then []
    else
      var e := entries[0];
      (if IsModuleFile(e) && |JoinPath(dir, e.name)| < PATH_MAX
       then [RetentionFile(JoinPath(dir, e.name), e.mtime, e.size)] else []) + Candidates(dir, entries[1..])
  }

  lemma CandidatesNext(dir: string, entries: seq<DirEntry>, i: nat)
    requires i < |entries|
    ensures var e := entries[i];
      Candidates(dir, entries[i..]) ==
      (if IsModuleFile(e) && |JoinPath(dir, e.name)| < PATH_MAX
       then [RetentionFile(JoinPath(dir, e.name), e.mtime, e.size)] else []) + Candidates(dir, entries[i + 1..])
  {
    assert entries[i..][1..] == entries[i + 1..];
  }

  // ----- the order -----------------------------------------------------------------------------

  /** The sign of strcmp(). */
  function Strcmp(a: string, b: string): (r: int)
    ensures -1 <= r <= 1
  {
    if a == "" then (if b == "" then 0 else -1)
    else if b == "" then 1
    else if a[0] < b[0] then -1
    else if a[0] > b[0] then 1
    else Strcmp(a[1..], b[1..])
  }

  /** retention_cmp() */
  function Compare(a: RetentionFile, b: RetentionFile): int {
    if a.mtime < b.mtime then -1
    else if a.mtime > b.mtime then 1
    else Strcmp(a.path, b.path)
  }

  lemma {:induction false} StrcmpOrders(a: string, b: string)
    ensures Strcmp(a, b) == 0 <==> a == b
    ensures Strcmp(a, b) == -Strcmp(b, a)
  {
    if a != "" && b != "" && a[0] == b[0] {
      StrcmpOrders(a[1..], b[1..]);
      assert a == [a[0]] + a[1..] && b == [b[0]] + b[1..];
    }
  }

  lemma {:induction false} StrcmpTransitive(a: string, b: string, c: string)
    requires Strcmp(a, b) <= 0 && Strcmp(b, c) <= 0
    ensures Strcmp(a, c) <= 0
  {
    if a != "" && b != "" && c != "" && a[0] == b[0] == c[0] {
      StrcmpTransitive(a[1..], b[1..], c[1..]);
    }
  }

  /** retention_cmp() is a total order on files with distinct paths. */
  lemma CompareOrders(a: RetentionFile, b: RetentionFile, c: RetentionFile)
    ensures Compare(a, b) == -Compare(b, a)
    ensures Compare(a, b) == 0 ==> a.path == b.path
    ensures Compare(a, b) <= 0 && Compare(b, c) <= 0 ==> Compare(a, c) <= 0
  {
    StrcmpOrders(a.path, b.path);
    if Strcmp(a.path, b.path) <= 0 && Strcmp(b.path, c.path) <= 0 {
      StrcmpTransitive(a.path, b.path, c.path);
    }
  }

  // ----- qsort(), as an insertion sort ------------------------------------------------------------

  predicate Ordered(files: seq<RetentionFile>) {
    forall i, j :: 0 <= i < j < |files| ==> Compare(files[i], files[j]) <= 0
  }

  function Insert(f: RetentionFile, files: seq<RetentionFile>): seq<RetentionFile> {
    if files == [] || Compare(f, files[0]) <= 0 then [f] + files else [files[0]] + Insert(f, files[1..])
  }

  function Sort(files: seq<RetentionFile>): seq<RetentionFile> {
    if files == [] then [] else Insert(files[0], Sort(files[1..]))
  }

  lemma {:induction false} InsertSorts(f: RetentionFile, files: seq<RetentionFile>)
    requires Ordered(files)
    ensures Ordered(Insert(f, files))
  {
    if files == [] {
    } else if Compare(f, files[0]) <= 0 {
      forall j | 0 <= j < |files| ensures Compare(f, files[j]) <= 0 {
        CompareOrders(f, files[0], files[j]);
      }
    } else {
      var head, more := files[0], files[1..];
      InsertSorts(f, more);
      CompareOrders(f, head, head);
      var r := Insert(f, more);
      forall j | 0 <= j < |r| ensures Compare(head, r[j]) <= 0 {
        InsertedFrom(f, more, j);
      }
    }
  }

  lemma {:induction false} InsertKeeps(f: RetentionFile, files: seq<RetentionFile>)
    ensures multiset(Insert(f, files)) == multiset{f} + multiset(files)
  {
    if files != [] && Compare(f, files[0]) > 0 {
      assert files == [files[0]] + files[1..];
      InsertKeeps(f, files[1..]);
    }
  }

  lemma {:induction false} InsertedFrom(f: RetentionFile, files: seq<RetentionFile>, j: nat)
    requires j < |Insert(f, files)|
    ensures Insert(f, files)[j] == f || Insert(f, files)[j] in files
  {
    if files != [] && Compare(f, files[0]) > 0 && j > 0 {
      InsertedFrom(f, files[1..], j - 1);
    }
  }

  lemma {:induction false} SortSorts(files: seq<RetentionFile>)
    ensures Ordered(Sort(files)) && multiset(Sort(files)) == multiset(files)
  {
    if files != [] {
      assert files == [files[0]] + files[1..];
      SortSorts(files[1..]);
      InsertSorts(files[0], Sort(files[1..]));
      InsertKeeps(files[0], Sort(files[1..]));
    }
  }

  // ----- the sweep -------------------------------------------------------------------------------

  function TotalSize(files: seq<RetentionFile>): nat {
    if files == [] then 0 else files[0].size + TotalSize(files[1..])
  }

  /** The files unlinked by the loop, given the total at its start and the paths unlink() refuses. */
  function Swept(files: seq<RetentionFile>, total: int, limit: int, current: string, stuck: set<string>)
    : seq<RetentionFile>
  {
    if files == [] || total <= limit then []
    else if files[0].path == current || files[0].path in stuck then Swept(files[1..], total, limit, current, stuck)
    else [files[0]] + Swept(files[1..], total - files[0].size, limit, current, stuck)
  }

  function Deletable(files: seq<RetentionFile>, current: string, stuck: set<string>): seq<RetentionFile> {
    if files == [] then []
    else (if files[0].path == current || files[0].path in stuck then [] else [files[0]]) +
         Deletable(files[1..], current, stuck)
  }

  /** How many of the deletable files have to go: the first count that brings the total within the
      limit, or all of them. */
  ghost predicate Shortest(deletable: seq<RetentionFile>, k: nat, total: int, limit: int) {
    && k <= |deletable|
    && (total - TotalSize(deletable[..k]) <= limit || k == |deletable|)
    && forall j :: 0 <= j < k ==> total - TotalSize(deletable[..j]) > limit
  }

  /** For every directory, limit, open file and set of files that cannot be unlinked: the files
      unlinked are the shortest prefix of the deletable files, oldest first, that brings the total
      within the limit, or all of them if none does. */
  lemma {:induction false} SweptIsShortestPrefix(
      files: seq<RetentionFile>, total: int, limit: int, current: string, stuck: set<string>)
    ensures var deletable, swept := Deletable(files, current, stuck), Swept(files, total, limit, current, stuck);
      && |swept| <= |deletable| && swept == deletable[..|swept|]
      && Shortest(deletable, |swept|, total, limit)
  {
    if files == [] || total <= limit {
    } else if files[0].path == current || files[0].path in stuck {
      assert Deletable(files, current, stuck) == Deletable(files[1..], current, stuck);
      SweptIsShortestPrefix(files[1..], total, limit, current, stuck);
    } else {
      var f := files[0];
      var rest := Deletable(files[1..], current, stuck);
      var all := Deletable(files, current, stuck);
      var k := |Swept(files[1..], total - f.size, limit, current, stuck)|;
      SweptIsShortestPrefix(files[1..], total - f.size, limit, current, stuck);
      forall j | 0 < j <= k + 1 ensures TotalSize(all[..j]) == f.size + TotalSize(rest[..j - 1]) {
        assert all[..j][1..] == rest[..j - 1];
      }
      assert all == [f] + rest;
      assert all[..k + 1] == [f] + rest[..k];
    }
  }

  /** The paths ftdc_rotation_enforce_retention() removes. */
  function Victims(dir: string, entries: seq<DirEntry>, limit: int, current: string, stuck: set<string>)
    : seq<RetentionFile>
  {
    var files := Candidates(dir, entries);
    Swept(Sort(files), TotalSize(files), limit, current, stuck)
  }

  lemma {:induction false} SweptSpares(
      files: seq<RetentionFile>, total: int, limit: int, current: string, stuck: set<string>)
    ensures forall f :: f in Swept(files, total, limit, current, stuck) ==>
              f in files && f.path != current && f.path !in stuck
  {
    if files != [] {
      SweptSpares(files[1..], total, limit, current, stuck);
      SweptSpares(files[1..], total - files[0].size, limit, current, stuck);
      assert files == [files[0]] + files[1..];
    }
  }

  lemma VictimsSpareCurrent(dir: string, entries: seq<DirEntry>, limit: int, current: string, stuck: set<string>)
    ensures forall f :: f in Victims(dir, entries, limit, current, stuck) ==> f.path != current
  {
    SweptSpares(Sort(Candidates(dir, entries)), TotalSize(Candidates(dir, entries)), limit, current, stuck);
  }

  function Paths(files: seq<RetentionFile>): set<string> {
    set f | f in files :: f.path
  }

  /** The loop over readdir(): the files and the sum of their sizes. */
  method Collect(dir: string, entries: seq<DirEntry>) returns (files: seq<RetentionFile>, total: nat)
    ensures files == Candidates(dir, entries) && total == TotalSize(files)
  {
    files, total := [], 0;
    var i := 0;
    assert entries[0..] == entries;
    while i < |entries|
      invariant i <= |entries|
      invariant Candidates(dir, entries) == files + Candidates(dir, entries[i..])
      invariant total == TotalSize(files)
    {
      var e := entries[i];
      CandidatesNext(dir, entries, i);
      if IsModuleFile(e) && |JoinPath(dir, e.name)| < PATH_MAX {
        TotalSizeSnoc(files, RetentionFile(JoinPath(dir, e.name), e.mtime, e.size));
        files := files + [RetentionFile(JoinPath(dir, e.name), e.mtime, e.size)];
        total := total + e.size;
      }
      i := i + 1;
    }
  }

  /** The loop over unlink(): `total` stays the sum of the sizes not yet unlinked. */
  method Sweep(files: seq<RetentionFile>, sum: nat, limit: int, current: string, stuck: set<string>)
    returns (removed: seq<RetentionFile>, total: int)
    requires sum == TotalSize(files)
    ensures removed == Swept(files, sum, limit, current, stuck)
    ensures total == TotalSize(files) - TotalSize(removed)
  {
    removed, total := [], sum;
    var i := 0;
    assert files[0..] == files;
    while i < |files| && total > limit
      invariant i <= |files|
      invariant Swept(files, sum, limit, current, stuck) == removed + Swept(files[i..], total, limit, current, stuck)
      invariant total == TotalSize(files) - TotalSize(removed)
    {
      assert files[i..][1..] == files[i + 1..];
      if files[i].path != current && files[i].path !in stuck {
        TotalSizeSnoc(removed, files[i]);
        removed := removed + [files[i]];
        total := total - files[i].size;
      }
      i := i + 1;
    }
  }

  /** ftdc_rotation_enforce_retention() with the directory open. */
  method EnforceRetention(dir: string, entries: seq<DirEntry>, limit: int, current: string, stuck: set<string>)
    returns (removed: seq<RetentionFile>)
    ensures removed == Victims(dir, entries, limit, current, stuck)
  {
    var files, total := Collect(dir, entries);
    SortKeepsTotal(files);
    files := Sort(files);
    removed, total := Sweep(files, total, limit, current, stuck);
  }

  lemma {:induction false} SortKeepsTotal(files: seq<RetentionFile>)
    ensures TotalSize(Sort(files)) == TotalSize(files)
  {
    if files != [] {
      SortKeepsTotal(files[1..]);
      InsertTotal(files[0], Sort(files[1..]));
    }
  }

  lemma {:induction false} InsertTotal(f: RetentionFile, files: seq<RetentionFile>)
    ensures TotalSize(Insert(f, files)) == f.size + TotalSize(files)
  {
    if files != [] && Compare(f, files[0]) > 0 {
      InsertTotal(f, files[1..]);
    } else {
      assert ([f] + files)[1..] == files;
    }
  }

  lemma {:induction false} TotalSizeSnoc(files: seq<RetentionFile>, f: RetentionFile)
    ensures TotalSize(files + [f]) == TotalSize(files) + f.size
  {
    if files != [] {
      assert (files + [f])[1..] == files[1..] + [f];
      TotalSizeSnoc(files[1..], f);
    }
  }

  /** Retention as a whole: among the candidates in a total order, oldest first, the shortest prefix
      of the deletable ones goes; so the limit holds for what stays, or nothing but the open file and
      files that cannot be unlinked is left. */
  lemma Retention(dir: string, entries: seq<DirEntry>, limit: int, current: string, stuck: set<string>)
    ensures var files := Sort(Candidates(dir, entries));
      var deletable := Deletable(files, current, stuck);
      var gone := Victims(dir, entries, limit, current, stuck);
      && Ordered(files) && multiset(files) == multiset(Candidates(dir, entries))
      && |gone| <= |deletable| && gone == deletable[..|gone|]
      && Shortest(deletable, |gone|, TotalSize(files), limit)
      && (TotalSize(files) - TotalSize(gone) <= limit || gone == deletable)
  {
    SortSorts(Candidates(dir, entries));
    SortKeepsTotal(Candidates(dir, entries));
    SweptIsShortestPrefix(Sort(Candidates(dir, entries)), TotalSize(Candidates(dir, entries)), limit, current, stuck);
  }

  lemma {:induction false} CandidatesAreListed(dir: string, entries: seq<DirEntry>)
    ensures forall f :: f in Candidates(dir, entries) ==> Listed(f, dir, entries)
  {
    if entries != [] {
      CandidatesAreListed(dir, entries[1..]);
      forall f | f in Candidates(dir, entries[1..]) ensures Listed(f, dir, entries) {
        var e :| e in entries[1..] && IsModuleFile(e) && f == RetentionFile(JoinPath(dir, e.name), e.mtime, e.size);
        assert e in entries;
      }
      assert entries[0] in entries;
    }
  }

  /** The file is a regular file of the directory with a name the module gives. */
  ghost predicate Listed(f: RetentionFile, dir: string, entries: seq<DirEntry>) {
    exists e :: e in entries && IsModuleFile(e) && f == RetentionFile(JoinPath(dir, e.name), e.mtime, e.size)
  }

  /** For every directory: nothing is unlinked but regular metrics and metadata files listed in it, and
      neither the open file nor a file unlink() refuses. */
  lemma VictimsAreOurs(dir: string, entries: seq<DirEntry>, limit: int, current: string, stuck: set<string>)
    ensures forall f :: f in Victims(dir, entries, limit, current, stuck) ==>
              Listed(f, dir, entries) && f.path != current && f.path !in stuck
  {
    var files := Candidates(dir, entries);
    SweptSpares(Sort(files), TotalSize(files), limit, current, stuck);
    SortSorts(files);
    CandidatesAreListed(dir, entries);
    forall f | f in Victims(dir, entries, limit, current, stuck) ensures Listed(f, dir, entries) {
      assert f in multiset(Sort(files));
    }
  }

  // ----- what is left ----------------------------------------------------------------------------

  predicate DistinctPaths(files: seq<RetentionFile>) {
    forall i, j :: 0 <= i < j < |files| ==> files[i].path != files[j].path
  }

  function Left(files: seq<RetentionFile>, gone: set<string>): seq<RetentionFile> {
    if files == [] then []
    else (if files[0].path in gone then [] else [files[0]]) + Left(files[1..], gone)
  }

  lemma {:induction false} LeftAre(files: seq<RetentionFile>, gone: set<string>)
    ensures forall f :: f in Left(files, gone) <==> f in files && f.path !in gone
  {
    if files != [] {
      LeftAre(files[1..], gone);
      assert files == [files[0]] + files[1..];
    }
  }

  /** Sorting keeps distinct paths distinct: distinct files are as many as their paths. */
  lemma {:induction false} SortDistinct(files: seq<RetentionFile>)
    requires DistinctPaths(files)
    ensures DistinctPaths(Sort(files))
  {
    if files != [] {
      SortDistinct(files[1..]);
      SortSorts(files[1..]);
      var sorted := Sort(files[1..]);
      forall x | x in sorted ensures x.path != files[0].path {
        assert x in multiset(sorted);
        OtherPath(files, x);
      }
      InsertDistinct(files[0], sorted);
    }
  }

  lemma {:induction false} InsertDistinct(f: RetentionFile, files: seq<RetentionFile>)
    requires DistinctPaths(files) && forall x :: x in files ==> x.path != f.path
    ensures DistinctPaths(Insert(f, files))
  {
    if files != [] && Compare(f, files[0]) > 0 {
      var rest := Insert(f, files[1..]);
      assert forall x :: x in files[1..] ==> x in files;
      InsertDistinct(f, files[1..]);
      forall j | 0 <= j < |rest| ensures rest[j].path != files[0].path {
        InsertedFrom(f, files[1..], j);
        if rest[j] in files[1..] {
          OtherPath(files, rest[j]);
        } else {
          assert files[0] in files;
        }
      }
    }
  }

  lemma {:induction false} LeftDistinct(files: seq<RetentionFile>, gone: set<string>)
    requires DistinctPaths(files)
    ensures DistinctPaths(Left(files, gone))
  {
    if files != [] {
      var rest := Left(files[1..], gone);
      LeftDistinct(files[1..], gone);
      LeftAre(files[1..], gone);
      forall j | 0 <= j < |rest| ensures rest[j].path != files[0].path {
        assert rest[j] in files[1..];
        var k :| 0 <= k < |files[1..]| && files[1..][k] == rest[j];
        assert files[k + 1] == rest[j];
      }
    }
  }

  lemma OtherPath(files: seq<RetentionFile>, f: RetentionFile)
    requires files != [] && DistinctPaths(files) && f in files[1..]
    ensures f.path != files[0].path
  {
    var k :| 0 <= k < |files[1..]| && files[1..][k] == f;
    assert files[k + 1] == f;
  }

  lemma {:induction false} LeftWithout(files: seq<RetentionFile>, gone: set<string>, path: string)
    requires forall f :: f in files ==> f.path != path
    ensures Left(files, gone + {path}) == Left(files, gone)
  {
    if files != [] {
      assert files[0] in files;
      LeftWithout(files[1..], gone, path);
    }
  }

  lemma {:induction false} LeftAll(files: seq<RetentionFile>)
    ensures Left(files, {}) == files
  {
    if files != [] {
      LeftAll(files[1..]);
    }
  }

  /** After the sweep the files left are within the limit, or none of them could go. */
  lemma {:induction false} SweptBounds(
      files: seq<RetentionFile>, total: int, limit: int, current: string, stuck: set<string>)
    requires DistinctPaths(files)
    ensures var gone := Paths(Swept(files, total, limit, current, stuck));
      var left := Left(files, gone);
      && TotalSize(left) == TotalSize(files) - TotalSize(Swept(files, total, limit, current, stuck))
      && (total - TotalSize(files) + TotalSize(left) <= limit ||
          forall f :: f in left ==> f.path == current || f.path in stuck)
  {
    if files == [] || total <= limit {
      LeftAll(files);
      assert Paths([]) == {};
    } else {
      forall x | x in files[1..] ensures x.path != files[0].path {
        OtherPath(files, x);
      }
      if files[0].path == current || files[0].path in stuck {
        SweptBounds(files[1..], total, limit, current, stuck);
        SweptSpares(files[1..], total, limit, current, stuck);
        HeadStays(files, Paths(Swept(files[1..], total, limit, current, stuck)));
      } else {
        SweptBounds(files[1..], total - files[0].size, limit, current, stuck);
        HeadGoes(files, Swept(files[1..], total - files[0].size, limit, current, stuck));
      }
    }
  }

  lemma HeadStays(files: seq<RetentionFile>, gone: set<string>)
    requires files != [] && files[0].path !in gone
    ensures Left(files, gone) == [files[0]] + Left(files[1..], gone)
    ensures TotalSize(Left(files, gone)) == files[0].size + TotalSize(Left(files[1..], gone))
    ensures forall f :: f in Left(files, gone) <==> f == files[0] || f in Left(files[1..], gone)
  {
    assert ([files[0]] + Left(files[1..], gone))[1..] == Left(files[1..], gone);
  }

  lemma HeadGoes(files: seq<RetentionFile>, swept: seq<RetentionFile>)
    requires files != [] && forall f :: f in files[1..] ==> f.path != files[0].path
    ensures Left(files, Paths([files[0]] + swept)) == Left(files[1..], Paths(swept))
    ensures TotalSize([files[0]] + swept) == files[0].size + TotalSize(swept)
  {
    assert Paths([files[0]] + swept) == Paths(swept) + {files[0].path};
    LeftWithout(files[1..], Paths(swept), files[0].path);
    assert ([files[0]] + swept)[1..] == swept;
  }
}
