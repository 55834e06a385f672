/** Recovering the index from the files after a restart: a directory walk and a stable sort. */
module Rebuilding {
  import opened Common
  import opened Files
  import opened Fifos
  import opened DiskLayout

  datatype Found = Found(stem: string, size: nat, mtime: nat)

  /** A metadata file stands for an entry; its data file, if any, adds to the size. */
  function FoundAt(files: map<Path, File>, p: Path): Found {
    Found(p.stem, Length(files, p) + Length(files, p.(ext := "data")), WrittenAt(files, p))
  }

  function FoundAll(files: map<Path, File>, paths: seq<Path>): (all: seq<Found>)
    ensures |all| == |paths| && forall i :: 0 <= i < |all| ==> all[i] == FoundAt(files, paths[i])
  {
    seq(|paths|, i requires 0 <= i < |paths| => FoundAt(files, paths[i]))
  }

  function TotalSize(found: seq<Found>): nat {
    if found == [] then 0 else TotalSize(found[..|found| - 1]) + Last(found).size
  }

  lemma TotalSizeSnoc(found: seq<Found>, one: Found)
    ensures TotalSize(found + [one]) == TotalSize(found) + one.size
  {
    assert (found + [one])[..|found|] == found;
  }

  /** All metadata files, once each, in any order. */
  ghost predicate Lists(paths: seq<Path>, files: map<Path, File>) {
    NoDup(paths) && forall p :: p in paths <==> p in files && p.ext == "meta"
  }

  // ---------------------------------------------------------------- the walk

  /** Everything below a visited directory is visited or waiting. */
  ghost predicate Frontier(dirs: set<seq<string>>, visited: set<seq<string>>, stack: seq<seq<string>>) {
    && visited <= dirs && NoDup(stack)
    && (forall x :: x in stack ==> x in dirs && x !in visited)
    && ([] in visited || [] in stack)
    && (forall x :: x in dirs && x != [] && x[..|x| - 1] in visited ==> x in visited || x in stack)
    && (forall x :: (x in stack || x in visited) && x != [] ==> x[..|x| - 1] in visited)
  }

  lemma {:induction false} NothingMissed(fs: FileSystem, visited: set<seq<string>>, d: seq<string>)
    requires fs.Valid() && Frontier(fs.dirs, visited, []) && d in fs.dirs
    ensures d in visited
    decreases |d|
  {
    if d != [] {
      NothingMissed(fs, visited, d[..|d| - 1]);
    }
  }

  function SubDirs(entries: seq<Entry>): seq<seq<string>> {
    if entries == [] then []
    else SubDirs(entries[..|entries| - 1]) + if Last(entries).SubDir? then [Last(entries).path] else []
  }

  function MetaFiles(entries: seq<Entry>): seq<Path> {
    if entries == [] then []
    else
      MetaFiles(entries[..|entries| - 1])
      + if Last(entries).Leaf? && Last(entries).file.ext == "meta" then [Last(entries).file] else []
  }

  lemma {:induction false} SubDirsOnce(entries: seq<Entry>)
    requires NoDup(entries)
    ensures NoDup(SubDirs(entries)) && forall x :: x in SubDirs(entries) <==> SubDir(x) in entries
  {
    if entries == [] {
    } else {
      var rest, e := entries[..|entries| - 1], Last(entries);
      assert entries == rest + [e];
      assert e !in rest;
      SubDirsOnce(rest);
      if e.SubDir? { NoDupSnoc(SubDirs(rest), e.path); }
    }
  }

  lemma {:induction false} MetaFilesOnce(entries: seq<Entry>)
    requires NoDup(entries)
    ensures NoDup(MetaFiles(entries))
    ensures forall p :: p in MetaFiles(entries) <==> Leaf(p) in entries && p.ext == "meta"
  {
    if entries == [] {
    } else {
      var rest, e := entries[..|entries| - 1], Last(entries);
      assert entries == rest + [e];
      assert e !in rest;
      MetaFilesOnce(rest);
      if e.Leaf? && e.file.ext == "meta" { NoDupSnoc(MetaFiles(rest), e.file); }
    }
  }

  lemma NoDupAppend<T>(a: seq<T>, b: seq<T>)
    requires NoDup(a) && NoDup(b) && forall x :: x in b ==> x !in a
    ensures NoDup(a + b)
  {
    forall i, j | 0 <= i < j < |a + b|
      ensures (a + b)[i] != (a + b)[j]
    {
      if i < |a| <= j { assert b[j - |a|] in b && a[i] in a; }
    }
  }

  /** The entries of one directory: subdirectories go on the stack, metadata files are recorded. */
  method Visit(fs: FileSystem, entries: seq<Entry>, stack: seq<seq<string>>, found: seq<Found>, total: nat,
               ghost paths: seq<Path>)
    returns (stack': seq<seq<string>>, found': seq<Found>, total': nat)
    requires found == FoundAll(fs.files, paths) && total == TotalSize(found)
    requires forall p :: Leaf(p) in entries ==> p in fs.files
    ensures stack' == stack + SubDirs(entries)
    ensures found' == FoundAll(fs.files, paths + MetaFiles(entries)) && total' == TotalSize(found')
  {
    hide TotalSize;
    stack', found', total' := stack, found, total;
    ghost var paths' := paths;
    for k := 0 to |entries|
      invariant stack' == stack + SubDirs(entries[..k])
      invariant paths' == paths + MetaFiles(entries[..k])
      invariant found' == FoundAll(fs.files, paths') && total' == TotalSize(found')
    {
      assert entries[..k + 1][..k] == entries[..k] && entries[k] in entries;
      match entries[k]
      case SubDir(x) => stack' := stack' + [x];
      case Leaf(p) =>
        if p.ext == "meta" {
          var meta := fs.Metadata(p);
          var data := fs.Metadata(p.(ext := "data"));
          if meta.Some? {
            var size := |meta.value.content| + (if data.Some? then |data.value.content| else 0);
            var one := Found(p.stem, size, meta.value.mtime);
            TotalSizeSnoc(found', one);
            found', total', paths' := found' + [one], total' + size, paths' + [p];
          }
        }
    }
    assert entries[..|entries|] == entries;
  }

  /** Walks the whole directory tree with an explicit stack. */
  method Walk(fs: FileSystem) returns (found: seq<Found>, total: nat, ghost paths: seq<Path>)
    requires fs.Valid()
    ensures Lists(paths, fs.files) && found == FoundAll(fs.files, paths) && total == TotalSize(found)
  {
    var stack: seq<seq<string>> := [[]];
    ghost var visited: set<seq<string>> := {};
    found, total, paths := [], 0, [];
    while stack != []
      invariant Frontier(fs.dirs, visited, stack)
      invariant NoDup(paths) && found == FoundAll(fs.files, paths) && total == TotalSize(found)
      invariant forall p :: p in paths <==> p in fs.files && p.dir in visited && p.ext == "meta"
      decreases |fs.dirs - visited|
    {
      var dir, rest := stack[|stack| - 1], stack[..|stack| - 1];
      assert stack == rest + [dir];
      var entries := fs.ReadDir(dir);
      Listed(fs.files, visited, dir, entries, paths);
      FrontierMoves(fs.dirs, visited, rest, dir, entries);
      stack, found, total := Visit(fs, entries, rest, found, total, paths);
      paths := paths + MetaFiles(entries);
      SmallerSet(fs.dirs - (visited + {dir}), fs.dirs - visited);
      visited := visited + {dir};
    }
    forall p | p in fs.files
      ensures p.dir in visited
    {
      NothingMissed(fs, visited, p.dir);
    }
  }

  lemma SmallerSet<T>(a: set<T>, b: set<T>)
    requires a < b
    ensures |a| < |b|
  {
    assert b == a + (b - a);
    assert |b - a| > 0;
  }

  lemma Listed(files: map<Path, File>, visited: set<seq<string>>, dir: seq<string>, entries: seq<Entry>, paths: seq<Path>)
    requires NoDup(entries) && dir !in visited && NoDup(paths)
    requires forall p :: Leaf(p) in entries <==> p in files && p.dir == dir
    requires forall p :: p in paths <==> p in files && p.dir in visited && p.ext == "meta"
    ensures NoDup(paths + MetaFiles(entries))
    ensures forall p :: p in paths + MetaFiles(entries) <==>
              p in files && p.dir in visited + {dir} && p.ext == "meta"
  {
    MetaFilesOnce(entries);
    NoDupAppend(paths, MetaFiles(entries));
  }

  lemma FrontierMoves(dirs: set<seq<string>>, visited: set<seq<string>>, rest: seq<seq<string>>,
                      dir: seq<string>, entries: seq<Entry>)
    requires Frontier(dirs, visited, rest + [dir]) && NoDup(entries)
    requires forall x :: SubDir(x) in entries <==> x in dirs && x != [] && x[..|x| - 1] == dir
    ensures dir in dirs && dir !in visited
    ensures Frontier(dirs, visited + {dir}, rest + SubDirs(entries))
  {
    var stack, subs := rest + [dir], SubDirs(entries);
    assert stack[|rest|] == dir && dir in stack;
    assert NoDup(rest) && dir !in rest by {
      assert forall i :: 0 <= i < |rest| ==> rest[i] == stack[i];
    }
    assert forall x :: x in stack <==> x in rest || x == dir;
    SubDirsOnce(entries);
    assert forall x :: x in subs ==> x !in rest && x !in visited && |x| == |dir| + 1;
    NoDupAppend(rest, subs);
  }

  // ---------------------------------------------------------------- the sort

  function Insert(f: Found, sorted: seq<Found>): seq<Found> {
    if sorted == [] || f.mtime <= sorted[0].mtime then [f] + sorted
    else [sorted[0]] + Insert(f, sorted[1..])
  }

  /** Sorting by modification time; among equals the earlier one stays first. */
  function SortByTime(found: seq<Found>): seq<Found> {
    if found == [] then [] else Insert(found[0], SortByTime(found[1..]))
  }

  ghost predicate Ascending(found: seq<Found>) {
    forall i, j :: 0 <= i < j < |found| ==> found[i].mtime <= found[j].mtime
  }

  ghost predicate StrictlyAscending(found: seq<Found>) {
    forall i, j :: 0 <= i < j < |found| ==> found[i].mtime < found[j].mtime
  }

  lemma InFront(first: Found, f: Found, others: seq<Found>, rest: seq<Found>)
    requires Ascending(rest) && multiset(rest) == multiset{f} + multiset(others)
    requires first.mtime <= f.mtime && forall x :: x in others ==> first.mtime <= x.mtime
    ensures Ascending([first] + rest)
    ensures multiset([first] + rest) == multiset{f} + multiset([first] + others)
  {
    forall i | 0 <= i < |rest|
      ensures first.mtime <= rest[i].mtime
    {
      assert rest[i] in multiset(rest);
      assert rest[i] == f || rest[i] in others;
    }
  }

  lemma {:induction false} InsertAscending(f: Found, sorted: seq<Found>)
    requires Ascending(sorted)
    ensures Ascending(Insert(f, sorted))
    ensures multiset(Insert(f, sorted)) == multiset{f} + multiset(sorted)
  {
    if sorted == [] || f.mtime <= sorted[0].mtime {
    } else {
      var rest := Insert(f, sorted[1..]);
      InsertAscending(f, sorted[1..]);
      assert sorted == [sorted[0]] + sorted[1..];
      assert forall x :: x in sorted[1..] ==> sorted[0].mtime <= x.mtime;
      InFront(sorted[0], f, sorted[1..], rest);
    }
  }

  /** The sort puts the same elements in ascending order. */
  lemma {:induction false} SortSorts(found: seq<Found>)
    ensures Ascending(SortByTime(found))
    ensures multiset(SortByTime(found)) == multiset(found)
  {
    if found == [] {
    } else {
      SortSorts(found[1..]);
      InsertAscending(found[0], SortByTime(found[1..]));
      assert found == [found[0]] + found[1..];
    }
  }

  /** What was written at one time, in order. */
  function WrittenThen(found: seq<Found>, t: nat): seq<Found> {
    if found == [] then []
    else (if found[0].mtime == t then [found[0]] else []) + WrittenThen(found[1..], t)
  }

  lemma {:induction false} InsertIsStable(f: Found, sorted: seq<Found>, t: nat)
    requires Ascending(sorted)
    ensures WrittenThen(Insert(f, sorted), t) == (if f.mtime == t then [f] else []) + WrittenThen(sorted, t)
  {
    if sorted == [] || f.mtime <= sorted[0].mtime {
      assert ([f] + sorted)[1..] == sorted;
    } else {
      InsertIsStable(f, sorted[1..], t);
      assert Insert(f, sorted)[1..] == Insert(f, sorted[1..]);
      if f.mtime == t { assert sorted[0].mtime != t; }
    }
  }

  /** Entries of the same time keep the order in which they were found. */
  lemma {:induction false} SortIsStable(found: seq<Found>, t: nat)
    ensures WrittenThen(SortByTime(found), t) == WrittenThen(found, t)
  {
    if found != [] {
      SortSorts(found[1..]);
      SortIsStable(found[1..], t);
      InsertIsStable(found[0], SortByTime(found[1..]), t);
    }
  }

  lemma {:induction false} SortOfSorted(found: seq<Found>)
    requires Ascending(found)
    ensures SortByTime(found) == found
  {
    if found == [] {
    } else {
      SortOfSorted(found[1..]);
    }
  }

  lemma DropAt<T>(s: seq<T>, i: nat)
    requires i < |s|
    ensures multiset(s) == multiset{s[i]} + multiset(s[..i] + s[i + 1..])
  {
    assert s == s[..i] + [s[i]] + s[i + 1..];
  }

  /** The first element of one sequence has its place in any permutation of it. */
  lemma TakeOut<T>(a: seq<T>, b: seq<T>) returns (i: nat)
    requires a != [] && multiset(a) == multiset(b)
    ensures i < |b| && b[i] == a[0]
    ensures multiset(a[1..]) == multiset(b[..i] + b[i + 1..])
  {
    assert a[0] in multiset(b);
    i :| 0 <= i < |b| && b[i] == a[0];
    assert multiset(a) == multiset{a[0]} + multiset(a[1..]) by { assert a == [a[0]] + a[1..]; }
    DropAt(b, i);
    var rest := multiset(b[..i] + b[i + 1..]);
    assert multiset(a[1..]) == multiset(a) - multiset{a[0]};
    assert rest == multiset(b) - multiset{a[0]};
  }

  /** Whatever order the elements came in, distinct times bring them into their one order. */
  lemma {:induction false} SortIsUnique(found: seq<Found>, target: seq<Found>)
    requires StrictlyAscending(target) && multiset(found) == multiset(target)
    ensures SortByTime(found) == target
    decreases |found|
  {
    if found == [] {
      assert |target| == |multiset(target)| == 0;
    } else {
      var i := TakeOut(found, target);
      SortIsUnique(found[1..], target[..i] + target[i + 1..]);
      InsertBack(target, i);
    }
  }

  lemma TailAscends(target: seq<Found>)
    requires StrictlyAscending(target) && target != []
    ensures StrictlyAscending(target[1..])
  {
  }

  lemma {:induction false} InsertBack(target: seq<Found>, i: nat)
    requires StrictlyAscending(target) && i < |target|
    ensures Insert(target[i], target[..i] + target[i + 1..]) == target
  {
    if i == 0 {
    } else {
      var t, without := target[1..], target[..i] + target[i + 1..];
      assert StrictlyAscending(t) by { TailAscends(target); }
      assert without[1..] == t[..i - 1] + t[i..] && without[0] == target[0];
      assert t[i - 1] == target[i] && target[0].mtime < target[i].mtime;
      hide StrictlyAscending;
      InsertBack(t, i - 1);
    }
  }

  // ---------------------------------------------------------------- before and after a restart

  function Stems(found: seq<Found>): (stems: seq<string>)
    ensures |stems| == |found| && forall i :: 0 <= i < |stems| ==> stems[i] == found[i].stem
  {
    seq(|found|, i requires 0 <= i < |found| => found[i].stem)
  }

  /** The order a restart ends up with, given the order the walk met the files in. */
  function OrderFrom(files: map<Path, File>, paths: seq<Path>): seq<string> {
    Stems(SortByTime(FoundAll(files, paths)))
  }

  function MetaPaths(order: seq<Hash>): (paths: seq<Path>)
    ensures |paths| == |order| && forall i :: 0 <= i < |paths| ==> paths[i] == MetaPath(order[i])
  {
    seq(|order|, i requires 0 <= i < |order| => MetaPath(order[i]))
  }

  lemma {:induction false} NoDupCount<T>(s: seq<T>, x: T)
    requires NoDup(s)
    ensures multiset(s)[x] == if x in s then 1 else 0
  {
    if s == [] {
    } else {
      assert s == [s[0]] + s[1..];
      assert s[0] !in s[1..];
      NoDupCount(s[1..], x);
    }
  }

  lemma NoDupMultiset<T>(a: seq<T>, b: seq<T>)
    requires NoDup(a) && NoDup(b) && forall x :: x in a <==> x in b
    ensures multiset(a) == multiset(b)
  {
    forall x
      ensures multiset(a)[x] == multiset(b)[x]
    {
      NoDupCount(a, x);
      NoDupCount(b, x);
    }
  }

  /** The walk meets exactly the metadata files of the listed entries. */
  lemma LayoutLists(files: map<Path, File>, order: seq<Hash>)
    requires Layout(files, order)
    ensures Lists(MetaPaths(order), files)
  {
    var paths := MetaPaths(order);
    forall i, j | 0 <= i < j < |paths|
      ensures paths[i] != paths[j]
    {
      PathsDiffer(order[i], order[j]);
    }
    forall p
      ensures p in paths <==> p in files && p.ext == "meta"
    {
      if p in paths {
        var i :| 0 <= i < |paths| && paths[i] == p;
        assert order[i] in order;
      }
      if p in files && p.ext == "meta" {
        var i :| 0 <= i < |order| && order[i] == p.stem;
        PathsDiffer(p.stem, p.stem);
        assert DataPath(p.stem).ext != "meta";
        assert paths[i] == p;
      }
    }
  }

  lemma FoundInOrder(files: map<Path, File>, codec: Codec, order: seq<Hash>)
    requires Layout(files, order)
    ensures
      var target := FoundAll(files, MetaPaths(order));
      && Stems(target) == order
      && (StrictlyAscending(target) <==> TimeOrdered(View(files, codec, order)))
  {
    var target, f := FoundAll(files, MetaPaths(order)), View(files, codec, order);
    assert forall i :: 0 <= i < |order| ==> order[i] in order && f.slots[order[i]].mtime == target[i].mtime;
  }

  /** Each entry is found once, under its own name. */
  lemma FoundOnce(files: map<Path, File>, order: seq<Hash>, paths: seq<Path>)
    requires Layout(files, order) && Lists(paths, files)
    ensures NoDup(FoundAll(files, paths))
  {
    var found := FoundAll(files, paths);
    forall i, j | 0 <= i < j < |found|
      ensures found[i] != found[j]
    {
      assert paths[i] in paths && paths[j] in paths;
      OnlyMetaPath(files, order, paths[i]);
      OnlyMetaPath(files, order, paths[j]);
    }
  }

  lemma OnlyMetaPath(files: map<Path, File>, order: seq<Hash>, p: Path)
    requires Layout(files, order) && p in files && p.ext == "meta"
    ensures p == MetaPath(p.stem)
  {
    assert DataPath(p.stem).ext == "data";
    assert "data"[0] != "meta"[0];
  }

  /** Two walks find the same. */
  lemma FoundMultiset(files: map<Path, File>, order: seq<Hash>, a: seq<Path>, b: seq<Path>)
    requires Layout(files, order) && Lists(a, files) && Lists(b, files)
    ensures multiset(FoundAll(files, a)) == multiset(FoundAll(files, b))
  {
    FoundOnce(files, order, a);
    FoundOnce(files, order, b);
    FoundMembers(files, a, b);
    FoundMembers(files, b, a);
    NoDupMultiset(FoundAll(files, a), FoundAll(files, b));
  }

  lemma FoundMembers(files: map<Path, File>, a: seq<Path>, b: seq<Path>)
    requires forall p :: p in a ==> p in b
    ensures forall f :: f in FoundAll(files, a) ==> f in FoundAll(files, b)
  {
    forall f | f in FoundAll(files, a)
      ensures f in FoundAll(files, b)
    {
      var i :| 0 <= i < |a| && FoundAll(files, a)[i] == f;
      assert a[i] in a;
      var j :| 0 <= j < |b| && b[j] == a[i];
      assert FoundAll(files, b)[j] == f;
    }
  }

  /** With strictly increasing times a restart recovers the order, whichever way the walk went. */
  lemma RestartRecovers(files: map<Path, File>, codec: Codec, order: seq<Hash>, paths: seq<Path>)
    requires Layout(files, order) && TimeOrdered(View(files, codec, order)) && Lists(paths, files)
    ensures OrderFrom(files, paths) == order
  {
    LayoutLists(files, order);
    FoundMultiset(files, order, paths, MetaPaths(order));
    FoundInOrder(files, codec, order);
    SortIsUnique(FoundAll(files, paths), FoundAll(files, MetaPaths(order)));
  }

  /** The order the files are met in by a walk that sees two neighbours the other way round. */
  lemma SwappedOrderIsLost(files: map<Path, File>, codec: Codec, order: seq<Hash>, i: nat)
    returns (paths: seq<Path>)
    requires Layout(files, order) && Ascending(FoundAll(files, MetaPaths(order)))
    requires i + 1 < |order|
    requires WrittenAt(files, MetaPath(order[i])) == WrittenAt(files, MetaPath(order[i + 1]))
    ensures Lists(paths, files) && OrderFrom(files, paths) != order
  {
    var swapped := order[i := order[i + 1]][i + 1 := order[i]];
    SwappedLayout(files, order, i);
    LayoutLists(files, swapped);
    paths := MetaPaths(swapped);
    SwappedTimes(files, order, swapped, i);
    SortOfSorted(FoundAll(files, paths));
    assert OrderFrom(files, paths)[i] == order[i + 1];
    assert order[i] != order[i + 1];
  }

  lemma SwappedTimes(files: map<Path, File>, order: seq<Hash>, swapped: seq<Hash>, i: nat)
    requires i + 1 < |order| && swapped == order[i := order[i + 1]][i + 1 := order[i]]
    requires WrittenAt(files, MetaPath(order[i])) == WrittenAt(files, MetaPath(order[i + 1]))
    requires Ascending(FoundAll(files, MetaPaths(order)))
    ensures Ascending(FoundAll(files, MetaPaths(swapped)))
  {
    hide WrittenAt, MetaPath;
    var target, found := FoundAll(files, MetaPaths(order)), FoundAll(files, MetaPaths(swapped));
    forall k | 0 <= k < |order|
      ensures found[k].mtime == target[k].mtime
    {
      assert found[k].mtime == WrittenAt(files, MetaPath(swapped[k]));
      assert target[k].mtime == WrittenAt(files, MetaPath(order[k]));
    }
  }

  lemma SwappedLayout(files: map<Path, File>, order: seq<Hash>, i: nat)
    requires Layout(files, order) && i + 1 < |order|
    ensures Layout(files, order[i := order[i + 1]][i + 1 := order[i]])
  {
    var swapped := order[i := order[i + 1]][i + 1 := order[i]];
    forall h
      ensures h in swapped <==> h in order
    {
      if h in order {
        var k :| 0 <= k < |order| && order[k] == h;
        assert swapped[if k == i then i + 1 else if k == i + 1 then i else k] == h;
      }
    }
    assert NoDup(swapped);
  }

  /**
   A clean restart recovers the eviction order, whichever way the walk goes, exactly
   if the modification times strictly increase along it.
   */
  lemma RestartIsExact(files: map<Path, File>, codec: Codec, order: seq<Hash>)
    requires Layout(files, order)
    ensures (forall paths :: Lists(paths, files) ==> OrderFrom(files, paths) == order)
       <==> TimeOrdered(View(files, codec, order))
  {
    if TimeOrdered(View(files, codec, order)) {
      forall paths | Lists(paths, files)
        ensures OrderFrom(files, paths) == order
      {
        RestartRecovers(files, codec, order, paths);
      }
    } else {
      var target := FoundAll(files, MetaPaths(order));
      FoundInOrder(files, codec, order);
      LayoutLists(files, order);
      if Ascending(target) {
        var i := TiedNeighbours(target);
        var paths := SwappedOrderIsLost(files, codec, order, i);
      } else {
        SortSorts(target);
        SortedStems(files, order);
      }
    }
  }

  lemma TiedNeighbours(found: seq<Found>) returns (i: nat)
    requires Ascending(found) && !StrictlyAscending(found)
    ensures i + 1 < |found| && found[i].mtime == found[i + 1].mtime
  {
    var a, b :| 0 <= a < b < |found| && found[a].mtime >= found[b].mtime;
    i := a;
    assert found[a].mtime <= found[a + 1].mtime <= found[b].mtime by {
      if a + 1 < b { assert found[a + 1].mtime <= found[b].mtime; }
    }
  }

  /** If sorting leaves the stems where they were, it moved nothing. */
  lemma SortedInPlace(files: map<Path, File>, order: seq<Hash>, sorted: seq<Found>)
    requires NoDup(order) && multiset(sorted) == multiset(FoundAll(files, MetaPaths(order)))
    requires Stems(sorted) == order
    ensures sorted == FoundAll(files, MetaPaths(order))
  {
    var target := FoundAll(files, MetaPaths(order));
    forall k | 0 <= k < |order|
      ensures sorted[k] == target[k]
    {
      assert sorted[k] in multiset(target);
      var j :| 0 <= j < |target| && target[j] == sorted[k];
      assert target[j].stem == order[j] && sorted[k].stem == order[k];
    }
  }

  /** Sorted, the stems cannot be the order of files that are out of order. */
  lemma SortedStems(files: map<Path, File>, order: seq<Hash>)
    requires Layout(files, order) && !Ascending(FoundAll(files, MetaPaths(order)))
    ensures OrderFrom(files, MetaPaths(order)) != order
  {
    var target := FoundAll(files, MetaPaths(order));
    var sorted := SortByTime(target);
    SortSorts(target);
    if Stems(sorted) == order { SortedInPlace(files, order, sorted); }
  }

  lemma SumOfView(files: map<Path, File>, codec: Codec, order: seq<Hash>, h: Hash)
    ensures Sum(order + [h], View(files, codec, order + [h]).slots)
         == Sum(order, View(files, codec, order).slots) + SizeOnDisk(files, h)
  {
    var slots := View(files, codec, order + [h]).slots;
    SumSnoc(order, h, slots);
    SumAgrees(order, slots, View(files, codec, order).slots);
  }

  lemma FoundAllSnoc(files: map<Path, File>, order: seq<Hash>, h: Hash)
    ensures FoundAll(files, MetaPaths(order + [h])) == FoundAll(files, MetaPaths(order)) + [FoundAt(files, MetaPath(h))]
    ensures FoundAt(files, MetaPath(h)).size == SizeOnDisk(files, h)
  {
    assert MetaPath(h).(ext := "data") == DataPath(h);
  }

  lemma {:induction false} TotalSizeIsSum(files: map<Path, File>, codec: Codec, order: seq<Hash>)
    ensures TotalSize(FoundAll(files, MetaPaths(order))) == Sum(order, View(files, codec, order).slots)
  {
    if order == [] {
    } else {
      var rest, h := order[..|order| - 1], Last(order);
      assert order == rest + [h];
      TotalSizeIsSum(files, codec, rest);
      SumOfView(files, codec, rest, h);
      FoundAllSnoc(files, rest, h);
      TotalSizeSnoc(FoundAll(files, MetaPaths(rest)), FoundAt(files, MetaPath(h)));
    }
  }

  /** And the byte count, whatever the times are. */
  lemma RestartRecoversSize(files: map<Path, File>, codec: Codec, order: seq<Hash>, paths: seq<Path>)
    requires Layout(files, order) && NonEmpty(files, order) && Lists(paths, files)
    ensures TotalSize(FoundAll(files, paths)) == View(files, codec, order).Bytes()
  {
    var stems := Stems(FoundAll(files, paths));
    StemsLayout(files, order, paths);
    assert MetaPaths(stems) == paths by {
      forall i | 0 <= i < |paths|
        ensures MetaPath(stems[i]) == paths[i]
      {
        assert paths[i] in paths;
        OnlyMetaPath(files, order, paths[i]);
      }
    }
    TotalSizeIsSum(files, codec, stems);
    TotalIsSum(files, codec, stems);
    TotalIsSum(files, codec, order);
  }

  lemma StemsLayout(files: map<Path, File>, order: seq<Hash>, paths: seq<Path>)
    requires Layout(files, order) && NonEmpty(files, order) && Lists(paths, files)
    ensures Layout(files, Stems(FoundAll(files, paths))) && NonEmpty(files, Stems(FoundAll(files, paths)))
  {
    var stems := Stems(FoundAll(files, paths));
    forall i, j | 0 <= i < j < |stems|
      ensures stems[i] != stems[j]
    {
      assert paths[i] in paths && paths[j] in paths;
      OnlyMetaPath(files, order, paths[i]);
      OnlyMetaPath(files, order, paths[j]);
    }
    forall h
      ensures h in stems <==> h in order
    {
      if h in stems {
        var i :| 0 <= i < |stems| && stems[i] == h;
        assert paths[i] in paths;
      }
      if h in order {
        assert MetaPath(h) in paths;
        var i :| 0 <= i < |paths| && paths[i] == MetaPath(h);
        assert stems[i] == h;
      }
    }
  }

  // ---------------------------------------------------------------- the rebuilt index is sound

  lemma CountedOnce<T>(s: seq<T>)
    requires forall x :: multiset(s)[x] <= 1
    ensures NoDup(s)
  {
    forall i, j | 0 <= i < j < |s|
      ensures s[i] != s[j]
    {
      DropAt(s, i);
      assert (s[..i] + s[i + 1..])[j - 1] == s[j];
      assert s[j] in multiset(s[..i] + s[i + 1..]);
      assert multiset(s)[s[i]] <= 1;
    }
  }

  /** Even with equal times, what a restart finds is a sound index of the same files. */
  lemma RestartIsSound(files: map<Path, File>, order: seq<Hash>, paths: seq<Path>)
    requires Layout(files, order) && NonEmpty(files, order) && Lists(paths, files)
    ensures Layout(files, OrderFrom(files, paths)) && NonEmpty(files, OrderFrom(files, paths))
  {
    var found := FoundAll(files, paths);
    var sorted := SortByTime(found);
    SortSorts(found);
    FoundOnce(files, order, paths);
    forall f
      ensures multiset(sorted)[f] <= 1
    {
      NoDupCount(found, f);
    }
    CountedOnce(sorted);
    StemsLayout(files, order, paths);
    SortedStemsLayout(files, paths, sorted);
  }

  lemma IndexIn(a: seq<Found>, b: seq<Found>, i: nat) returns (k: nat)
    requires multiset(a) == multiset(b) && i < |a|
    ensures k < |b| && b[k] == a[i]
  {
    assert a[i] in multiset(b);
    k :| 0 <= k < |b| && b[k] == a[i];
  }

  lemma StemsContained(a: seq<Found>, b: seq<Found>)
    requires multiset(a) == multiset(b)
    ensures forall h :: h in Stems(a) ==> h in Stems(b)
  {
    forall h | h in Stems(a)
      ensures h in Stems(b)
    {
      var i :| 0 <= i < |a| && Stems(a)[i] == h;
      var k := IndexIn(a, b, i);
      assert Stems(b)[k] == h;
    }
  }

  lemma PermutedStems(found: seq<Found>, sorted: seq<Found>)
    requires NoDup(Stems(found)) && NoDup(sorted) && multiset(sorted) == multiset(found)
    ensures NoDup(Stems(sorted))
  {
    forall i, j | 0 <= i < j < |sorted|
      ensures Stems(sorted)[i] != Stems(sorted)[j]
    {
      var k := IndexIn(sorted, found, i);
      var l := IndexIn(sorted, found, j);
      assert Stems(found)[k] == sorted[i].stem && Stems(found)[l] == sorted[j].stem;
    }
  }

  lemma SortedStemsLayout(files: map<Path, File>, paths: seq<Path>, sorted: seq<Found>)
    requires Layout(files, Stems(FoundAll(files, paths))) && NonEmpty(files, Stems(FoundAll(files, paths)))
    requires NoDup(sorted) && multiset(sorted) == multiset(FoundAll(files, paths))
    ensures Layout(files, Stems(sorted)) && NonEmpty(files, Stems(sorted))
  {
    PermutedStems(FoundAll(files, paths), sorted);
    StemsContained(sorted, FoundAll(files, paths));
    StemsContained(FoundAll(files, paths), sorted);
  }
}
