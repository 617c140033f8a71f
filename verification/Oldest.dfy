/** Retention in full: which files go, told by their names, times and sizes. */
module Oldest {
  import opened Rotation
  import opened Writer

  // ----- the order ------------------------------------------------------------------------------------------

  /** The first path is a prefix of the second, or has the smaller character where they first differ. */
  ghost predicate NotAfter(a: string, b: string) {
    a <= b || exists k: nat :: k < |a| && k < |b| && a[..k] == b[..k] && a[k] < b[k]
  }

  /** Not younger, and by its path among files of the same time. */
  ghost predicate Older(mtime: int, path: string, otherTime: int, otherPath: string) {
    mtime < otherTime || (mtime == otherTime && NotAfter(path, otherPath))
  }

  lemma {:induction false} StrcmpFirst(a: string, b: string)
    requires Strcmp(a, b) <= 0
    ensures NotAfter(a, b)
  {
    if a != "" && b != "" {
      if a[0] < b[0] {
        assert a[..0] == b[..0];
      } else {
        StrcmpFirst(a[1..], b[1..]);
        NotAfterNext(a, b);
      }
    }
  }

  lemma {:induction false} FirstStrcmp(a: string, b: string)
    requires NotAfter(a, b)
    ensures Strcmp(a, b) <= 0
  {
    if a != "" && b != "" && a[0] == b[0] {
      if a <= b {
        assert a[1..] == b[..|a|][1..];
      } else {
        var k: nat :| k < |a| && k < |b| && a[..k] == b[..k] && a[k] < b[k];
        assert a[1..][..k - 1] == a[..k][1..] == b[..k][1..] == b[1..][..k - 1];
        assert a[1..][k - 1] < b[1..][k - 1];
      }
      FirstStrcmp(a[1..], b[1..]);
    } else if a != "" && b != "" {
      FirstDiffers(a, b);
    }
  }

  lemma FirstDiffers(a: string, b: string)
    requires a != "" && b != "" && a[0] != b[0] && NotAfter(a, b)
    ensures a[0] < b[0]
  {
    if !(a <= b) {
      var k: nat :| k < |a| && k < |b| && a[..k] == b[..k] && a[k] < b[k];
      SamePrefix(a, b, k);
    }
  }

  lemma SamePrefix(a: string, b: string, k: nat)
    requires k < |a| && k < |b| && a[..k] == b[..k]
    ensures k == 0 || a[0] == b[0]
  {
    assert k > 0 ==> a[..k][0] == b[..k][0];
  }

  lemma NotAfterNext(a: string, b: string)
    requires a != "" && b != "" && a[0] == b[0] && NotAfter(a[1..], b[1..])
    ensures NotAfter(a, b)
  {
    if !(a[1..] <= b[1..]) {
      var k: nat :| k < |a[1..]| && k < |b[1..]| && a[1..][..k] == b[1..][..k] && a[1..][k] < b[1..][k];
      assert a[..k + 1] == [a[0]] + a[1..][..k] && b[..k + 1] == [b[0]] + b[1..][..k];
      assert a[k + 1] < b[k + 1];
    } else {
      assert a == [a[0]] + a[1..] && b == [b[0]] + b[1..];
    }
  }

  lemma {:induction false} DeletableAre(files: seq<RetentionFile>, current: string, stuck: set<string>)
    ensures forall f :: f in Deletable(files, current, stuck) <==> f in files && f.path != current && f.path !in stuck
  {
    if files != [] {
      assert files == [files[0]] + files[1..];
      DeletableAre(files[1..], current, stuck);
    }
  }

  lemma {:induction false} DeletableOrdered(files: seq<RetentionFile>, current: string, stuck: set<string>)
    requires Ordered(files)
    ensures Ordered(Deletable(files, current, stuck))
  {
    if files != [] {
      var f, rest := files[0], Deletable(files[1..], current, stuck);
      DeletableOrdered(files[1..], current, stuck);
      DeletableAre(files[1..], current, stuck);
      forall j | 0 <= j < |rest| ensures Compare(f, rest[j]) <= 0 {
        assert rest[j] in files[1..];
      }
    }
  }

  /** For every directory, limit, open file and set of files that cannot be unlinked: nothing is unlinked
      before a file that could be and is older, or as old and before it by its path. */
  lemma OldestGo(dir: string, entries: seq<DirEntry>, limit: int, current: string, stuck: set<string>,
                 f: RetentionFile, g: RetentionFile)
    requires f in Victims(dir, entries, limit, current, stuck) && g !in Victims(dir, entries, limit, current, stuck)
    requires g in Candidates(dir, entries) && g.path != current && g.path !in stuck
    ensures Older(f.mtime, f.path, g.mtime, g.path)
  {
    var files, gone := Sort(Candidates(dir, entries)), Victims(dir, entries, limit, current, stuck);
    var deletable := Deletable(files, current, stuck);
    Retention(dir, entries, limit, current, stuck);
    DeletableAre(files, current, stuck);
    DeletableOrdered(files, current, stuck);
    assert g in multiset(files);
    var i :| 0 <= i < |gone| && gone[i] == f;
    var j :| 0 <= j < |deletable| && deletable[j] == g;
    assert j >= |gone|;
    assert Compare(deletable[i], deletable[j]) <= 0;
    if f.mtime == g.mtime {
      StrcmpFirst(f.path, g.path);
    }
  }

  // ----- the directory --------------------------------------------------------------------------------------

  function PathOf(w: State, e: DirEntry): string {
    w.cfg.path + "/" + e.name
  }

  /** A regular file with a name like those the module gives, and a path of at most 4095 bytes. */
  predicate Ours(w: State, e: DirEntry) {
    e.regular && ("metrics." <= e.name || "metadata." <= e.name) && |PathOf(w, e)| < 4096
  }

  /** One that could go: not the open file, and not refused by unlink(). */
  predicate MayGo(w: State, s: SweepEnv, e: DirEntry) {
    e in s.entries && Ours(w, e) && PathOf(w, e) != w.file && PathOf(w, e) !in s.stuck
  }

  predicate DistinctNames(entries: seq<DirEntry>) {
    forall i, j :: 0 <= i < j < |entries| ==> entries[i].name != entries[j].name
  }

  /** A directory as readdir() shows it: no name twice, and what is shown is there. */
  predicate Directory(w: State, s: SweepEnv) {
    DistinctNames(s.entries) && forall e :: e in s.entries && Ours(w, e) ==> PathOf(w, e) in w.disk
  }

  /** The sizes of the module's files that are on the disk. */
  function Bytes(w: State, entries: seq<DirEntry>, disk: Disk): nat {
    if entries == [] then 0
    else (if Ours(w, entries[0]) && PathOf(w, entries[0]) in disk then entries[0].size else 0) +
         Bytes(w, entries[1..], disk)
  }

  function FileOf(w: State, e: DirEntry): RetentionFile {
    RetentionFile(PathOf(w, e), e.mtime, e.size)
  }

  lemma FirstCandidate(w: State, entries: seq<DirEntry>)
    requires entries != []
    ensures Candidates(w.cfg.path, entries) ==
            (if Ours(w, entries[0]) then [FileOf(w, entries[0])] else []) + Candidates(w.cfg.path, entries[1..])
  {
  }

  /** The candidates are just the module's files among the entries. */
  lemma {:induction false} CandidatesAre(w: State, entries: seq<DirEntry>, f: RetentionFile)
    ensures f in Candidates(w.cfg.path, entries) <==> exists e :: e in entries && Ours(w, e) && f == FileOf(w, e)
  {
    if entries != [] {
      FirstCandidate(w, entries);
      CandidatesAre(w, entries[1..], f);
      assert entries == [entries[0]] + entries[1..];
    }
  }

  lemma DifferentPaths(w: State, e: DirEntry, h: DirEntry)
    ensures PathOf(w, e) == PathOf(w, h) <==> e.name == h.name
  {
    var k := |w.cfg.path + "/"|;
    assert e.name == PathOf(w, e)[k..] && h.name == PathOf(w, h)[k..];
  }

  lemma {:induction false} CandidatesDistinct(w: State, entries: seq<DirEntry>)
    requires DistinctNames(entries)
    ensures DistinctPaths(Candidates(w.cfg.path, entries))
  {
    if entries != [] {
      var e, rest := entries[0], Candidates(w.cfg.path, entries[1..]);
      FirstCandidate(w, entries);
      CandidatesDistinct(w, entries[1..]);
      forall j | 0 <= j < |rest| ensures rest[j].path != PathOf(w, e) {
        CandidatesAre(w, entries[1..], rest[j]);
        var h :| h in entries[1..] && Ours(w, h) && rest[j] == FileOf(w, h);
        var k :| 0 <= k < |entries[1..]| && entries[1..][k] == h;
        assert entries[k + 1].name != e.name;
        DifferentPaths(w, e, h);
      }
    }
  }

  /** The bytes left, and the files left. */
  lemma {:induction false} BytesLeft(w: State, entries: seq<DirEntry>, gone: set<string>)
    requires forall e :: e in entries && Ours(w, e) ==> PathOf(w, e) in w.disk
    ensures Bytes(w, entries, w.disk - gone) == TotalSize(Left(Candidates(w.cfg.path, entries), gone))
  {
    if entries != [] {
      var e, rest := entries[0], Candidates(w.cfg.path, entries[1..]);
      assert e in entries;
      FirstCandidate(w, entries);
      BytesLeft(w, entries[1..], gone);
      if Ours(w, e) {
        FirstLeft(FileOf(w, e), rest, gone);
      } else {
        assert [] + rest == rest;
      }
    }
  }

  lemma FirstLeft(f: RetentionFile, rest: seq<RetentionFile>, gone: set<string>)
    ensures TotalSize(Left([f] + rest, gone)) == (if f.path in gone then 0 else f.size) + TotalSize(Left(rest, gone))
  {
    assert ([f] + rest)[1..] == rest;
    if f.path in gone {
      assert [] + Left(rest, gone) == Left(rest, gone);
    } else {
      assert ([f] + Left(rest, gone))[1..] == Left(rest, gone);
    }
  }

  lemma {:induction false} InsertLeft(f: RetentionFile, files: seq<RetentionFile>, gone: set<string>)
    ensures TotalSize(Left(Insert(f, files), gone)) ==
            (if f.path in gone then 0 else f.size) + TotalSize(Left(files, gone))
  {
    if files != [] && Compare(f, files[0]) > 0 {
      InsertLeft(f, files[1..], gone);
      FirstLeft(files[0], Insert(f, files[1..]), gone);
      FirstLeft(files[0], files[1..], gone);
      assert files == [files[0]] + files[1..];
    } else {
      FirstLeft(f, files, gone);
    }
  }

  lemma {:induction false} SortLeft(files: seq<RetentionFile>, gone: set<string>)
    ensures TotalSize(Left(Sort(files), gone)) == TotalSize(Left(files, gone))
  {
    if files != [] {
      SortLeft(files[1..], gone);
      InsertLeft(files[0], Sort(files[1..]), gone);
      FirstLeft(files[0], files[1..], gone);
      assert files == [files[0]] + files[1..];
    }
  }

  // ----- one retention run ----------------------------------------------------------------------------------

  function GoneFiles(w: State, s: SweepEnv): seq<RetentionFile> {
    Victims(w.cfg.path, s.entries, w.cfg.maxDirBytes, w.file, s.stuck)
  }

  /** The file was there, and a retention run removes it. */
  predicate Goes(w: State, s: SweepEnv, e: DirEntry) {
    MayGo(w, s, e) && PathOf(w, e) in w.disk && PathOf(w, e) !in Enforce(w, s).disk
  }

  lemma EnforceDisk(w: State, s: SweepEnv)
    requires w.cfg.maxDirBytes > 0 && s.listed
    ensures Enforce(w, s) == w.(disk := w.disk - Paths(GoneFiles(w, s)))
  {
  }

  /** What goes is what the sweep unlinks. */
  lemma GoesIs(w: State, s: SweepEnv, e: DirEntry)
    requires w.cfg.maxDirBytes > 0 && s.listed && Directory(w, s) && e in s.entries && Ours(w, e)
    ensures Goes(w, s, e) <==> FileOf(w, e) in GoneFiles(w, s)
    ensures Goes(w, s, e) <==> PathOf(w, e) in Paths(GoneFiles(w, s))
  {
    EnforceDisk(w, s);
    if PathOf(w, e) in Paths(GoneFiles(w, s)) {
      var f :| f in GoneFiles(w, s) && f.path == PathOf(w, e);
      GoneIsListed(w, s, f);
      var h :| MayGo(w, s, h) && f == FileOf(w, h);
      DifferentPaths(w, e, h);
      SameEntry(s.entries, e, h);
    }
    if FileOf(w, e) in GoneFiles(w, s) {
      assert FileOf(w, e).path in Paths(GoneFiles(w, s));
    }
  }

  lemma SameEntry(entries: seq<DirEntry>, e: DirEntry, h: DirEntry)
    requires DistinctNames(entries) && e in entries && h in entries && e.name == h.name
    ensures e == h
  {
  }

  lemma GoneIsListed(w: State, s: SweepEnv, f: RetentionFile)
    requires f in GoneFiles(w, s)
    ensures exists h :: MayGo(w, s, h) && f == FileOf(w, h)
  {
    var files := Candidates(w.cfg.path, s.entries);
    SweptSpares(Sort(files), TotalSize(files), w.cfg.maxDirBytes, w.file, s.stuck);
    SortSorts(files);
    assert f in multiset(Sort(files));
    CandidatesAre(w, s.entries, f);
    var h :| h in s.entries && Ours(w, h) && f == FileOf(w, h);
    assert MayGo(w, s, h);
  }

  /** Without a limit, or when the directory cannot be read, nothing happens. Otherwise only files of the module
      that are listed go, with a name like those it gives and never the open one. Everything else stays as it
      is, on the disk and in the state. */
  lemma OnlyOurs(w: State, s: SweepEnv)
    ensures var after := Enforce(w, s);
      && (w.cfg.maxDirBytes <= 0 || !s.listed ==> after == w)
      && after == w.(disk := after.disk)
      && (forall path :: path in w.disk ==>
            (path in after.disk && after.disk[path] == w.disk[path]) ||
            (path !in after.disk && exists e :: MayGo(w, s, e) && path == PathOf(w, e)))
      && (forall path :: path in after.disk ==> path in w.disk)
  {
    if w.cfg.maxDirBytes > 0 && s.listed {
      OursOnly(w, s);
    }
  }

  lemma OursOnly(w: State, s: SweepEnv)
    requires w.cfg.maxDirBytes > 0 && s.listed
    ensures var after := Enforce(w, s);
      && after == w.(disk := after.disk)
      && (forall path :: path in w.disk ==>
            (path in after.disk && after.disk[path] == w.disk[path]) ||
            (path !in after.disk && exists e :: MayGo(w, s, e) && path == PathOf(w, e)))
      && (forall path :: path in after.disk ==> path in w.disk)
  {
    EnforceDisk(w, s);
    forall path | path in w.disk && path in Paths(GoneFiles(w, s))
      ensures exists e :: MayGo(w, s, e) && path == PathOf(w, e)
    {
      var f :| f in GoneFiles(w, s) && f.path == path;
      GoneIsListed(w, s, f);
      var e :| MayGo(w, s, e) && f == FileOf(w, e);
      assert path == PathOf(w, e);
    }
  }

  /** Of the module's files that can go, one goes only if all that are older, or as old and before it by
      their path, go too. */
  lemma OlderGoFirst(w: State, s: SweepEnv, e: DirEntry, h: DirEntry)
    requires w.cfg.maxDirBytes > 0 && s.listed && Directory(w, s)
    requires Goes(w, s, e) && MayGo(w, s, h) && !Goes(w, s, h)
    ensures Older(e.mtime, PathOf(w, e), h.mtime, PathOf(w, h))
  {
    GoesIs(w, s, e);
    GoesIs(w, s, h);
    CandidatesAre(w, s.entries, FileOf(w, h));
    OldestGo(w.cfg.path, s.entries, w.cfg.maxDirBytes, w.file, s.stuck, FileOf(w, e), FileOf(w, h));
  }

  lemma BytesAfter(w: State, s: SweepEnv)
    requires w.cfg.maxDirBytes > 0 && s.listed && Directory(w, s)
    ensures var files := Sort(Candidates(w.cfg.path, s.entries));
      && DistinctPaths(files)
      && Bytes(w, s.entries, Enforce(w, s).disk) == TotalSize(Left(files, Paths(GoneFiles(w, s))))
      && Bytes(w, s.entries, Enforce(w, s).disk) == TotalSize(files) - TotalSize(GoneFiles(w, s))
  {
    var listed := Candidates(w.cfg.path, s.entries);
    EnforceDisk(w, s);
    CandidatesDistinct(w, s.entries);
    SortDistinct(listed);
    BytesLeft(w, s.entries, Paths(GoneFiles(w, s)));
    SortLeft(listed, Paths(GoneFiles(w, s)));
    SortKeepsTotal(listed);
    SweptBounds(Sort(listed), TotalSize(listed), w.cfg.maxDirBytes, w.file, s.stuck);
  }

  /** Enough goes: the files left are within the limit, or all that can go went. */
  lemma EnoughGoes(w: State, s: SweepEnv, e: DirEntry)
    requires w.cfg.maxDirBytes > 0 && s.listed && Directory(w, s) && MayGo(w, s, e)
    ensures Bytes(w, s.entries, Enforce(w, s).disk) <= w.cfg.maxDirBytes || Goes(w, s, e)
  {
    var files := Sort(Candidates(w.cfg.path, s.entries));
    var deletable := Deletable(files, w.file, s.stuck);
    BytesAfter(w, s);
    GoesIs(w, s, e);
    Retention(w.cfg.path, s.entries, w.cfg.maxDirBytes, w.file, s.stuck);
    CandidatesAre(w, s.entries, FileOf(w, e));
    DeletableAre(files, w.file, s.stuck);
    assert FileOf(w, e) in multiset(files);
  }

  /** No more goes than has to: with the last file that went, the files left would be above the limit. */
  lemma NoMoreGoes(w: State, s: SweepEnv, e: DirEntry)
    requires w.cfg.maxDirBytes > 0 && s.listed && Directory(w, s) && Goes(w, s, e)
    requires forall h :: Goes(w, s, h) ==> Older(h.mtime, PathOf(w, h), e.mtime, PathOf(w, e))
    ensures Bytes(w, s.entries, Enforce(w, s).disk) + e.size > w.cfg.maxDirBytes
  {
    GoesIs(w, s, e);
    var h := LastGone(w, s);
    GoneInOrder(w, s, e, h);
    SameAge(w, s, e, h);
    BytesAfter(w, s);
    LastNeeded(w, s);
  }

  lemma LastNeeded(w: State, s: SweepEnv)
    requires GoneFiles(w, s) != []
    ensures var gone, files := GoneFiles(w, s), Sort(Candidates(w.cfg.path, s.entries));
      TotalSize(files) - TotalSize(gone) + gone[|gone| - 1].size > w.cfg.maxDirBytes
  {
    var files := Sort(Candidates(w.cfg.path, s.entries));
    Retention(w.cfg.path, s.entries, w.cfg.maxDirBytes, w.file, s.stuck);
    ShortestLast(Deletable(files, w.file, s.stuck), GoneFiles(w, s), TotalSize(files), w.cfg.maxDirBytes);
  }

  lemma ShortestLast(deletable: seq<RetentionFile>, gone: seq<RetentionFile>, total: int, limit: int)
    requires gone != [] && Shortest(deletable, |gone|, total, limit) && gone == deletable[..|gone|]
    ensures total - TotalSize(gone) + gone[|gone| - 1].size > limit
  {
    var k := |gone| - 1;
    assert gone == gone[..k] + [gone[k]];
    TotalSizeSnoc(gone[..k], gone[k]);
    assert gone[..k] == deletable[..k];
  }

  lemma LastGone(w: State, s: SweepEnv) returns (h: DirEntry)
    requires w.cfg.maxDirBytes > 0 && s.listed && Directory(w, s) && GoneFiles(w, s) != []
    ensures Goes(w, s, h) && GoneFiles(w, s)[|GoneFiles(w, s)| - 1] == FileOf(w, h)
  {
    var last := GoneFiles(w, s)[|GoneFiles(w, s)| - 1];
    GoneIsListed(w, s, last);
    h :| MayGo(w, s, h) && last == FileOf(w, h);
    GoesIs(w, s, h);
  }

  lemma GoneInOrder(w: State, s: SweepEnv, e: DirEntry, last: DirEntry)
    requires FileOf(w, e) in GoneFiles(w, s) && GoneFiles(w, s)[|GoneFiles(w, s)| - 1] == FileOf(w, last)
    ensures Older(e.mtime, PathOf(w, e), last.mtime, PathOf(w, last))
  {
    var gone, files := GoneFiles(w, s), Sort(Candidates(w.cfg.path, s.entries));
    var deletable := Deletable(files, w.file, s.stuck);
    Retention(w.cfg.path, s.entries, w.cfg.maxDirBytes, w.file, s.stuck);
    DeletableOrdered(files, w.file, s.stuck);
    UpToLast(deletable, gone, FileOf(w, e));
    if e.mtime == last.mtime {
      StrcmpFirst(PathOf(w, e), PathOf(w, last));
    }
  }

  lemma UpToLast(deletable: seq<RetentionFile>, gone: seq<RetentionFile>, f: RetentionFile)
    requires Ordered(deletable) && |gone| <= |deletable| && gone == deletable[..|gone|] && f in gone
    ensures Compare(f, gone[|gone| - 1]) <= 0
  {
    var i :| 0 <= i < |gone| && gone[i] == f;
    assert deletable[i] == f && deletable[|gone| - 1] == gone[|gone| - 1];
    if i == |gone| - 1 {
      CompareOrders(f, f, f);
    }
  }

  lemma SameAge(w: State, s: SweepEnv, e: DirEntry, h: DirEntry)
    requires DistinctNames(s.entries) && e in s.entries && h in s.entries
    requires Older(e.mtime, PathOf(w, e), h.mtime, PathOf(w, h))
    requires Older(h.mtime, PathOf(w, h), e.mtime, PathOf(w, e))
    ensures e == h
  {
    FirstStrcmp(PathOf(w, e), PathOf(w, h));
    FirstStrcmp(PathOf(w, h), PathOf(w, e));
    StrcmpOrders(PathOf(w, e), PathOf(w, h));
    DifferentPaths(w, e, h);
    SameEntry(s.entries, e, h);
  }
}
