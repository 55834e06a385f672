/** The part of a file system the disk cache uses; operations on it succeed. */
module Files {
  import opened Common

  /** Relative to the cache directory: directory components, then stem and extension. */
  datatype Path = Path(dir: seq<string>, stem: string, ext: string)

  datatype File = File(content: Bytes, mtime: nat)

  datatype Entry = SubDir(path: seq<string>) | Leaf(file: Path)

  predicate NoDup<T(==)>(s: seq<T>) {
    forall i, j :: 0 <= i < j < |s| ==> s[i] != s[j]
  }

  lemma NoDupSnoc<T>(s: seq<T>, x: T)
    requires NoDup(s) && x !in s
    ensures NoDup(s + [x])
  {
  }

  /** A file that is not there has no bytes. */
  function Length(files: map<Path, File>, p: Path): nat {
    if p in files then |files[p].content| else 0
  }

  /** All bytes of all files. */
  ghost function Total(files: map<Path, File>): nat
    decreases |files|
  {
    if files == map[] then 0
    else
      var p :| p in files;
      Length(files, p) + Total(files - {p})
  }

  lemma {:induction false} TotalRemove(files: map<Path, File>, p: Path)
    requires p in files
    ensures Total(files) == Length(files, p) + Total(files - {p})
    decreases |files|
  {
    var q :| q in files && Total(files) == Length(files, q) + Total(files - {q});
    if q != p {
      var without, other := files - {q}, files - {p};
      TotalRemove(without, p);
      TotalRemove(other, q);
      assert without - {p} == other - {q};
      assert Length(without, p) == Length(files, p) && Length(other, q) == Length(files, q);
    }
  }

  lemma TotalUpdate(files: map<Path, File>, p: Path, file: File)
    ensures Total(files[p := file]) + Length(files, p) == Total(files) + |file.content|
  {
    TotalRemove(files[p := file], p);
    assert files[p := file] - {p} == files - {p};
    if p in files {
      TotalRemove(files, p);
    } else {
      assert files - {p} == files;
    }
  }

  lemma TotalWithout(files: map<Path, File>, p: Path)
    ensures Total(files - {p}) + Length(files, p) == Total(files)
  {
    if p in files { TotalRemove(files, p); } else { assert files - {p} == files; }
  }

  lemma WrittenTwice(files: map<Path, File>, p: Path, first: File, second: File)
    ensures files[p := first][p := second] == files[p := second]
  {
  }

  function Max(a: nat, b: nat): nat { if a >= b then a else b }

  class FileSystem {
    var files: map<Path, File>
    var dirs: set<seq<string>>
    /** The most bytes there ever were on disk, after any single change. */
    ghost var peak: nat

    /** Directories hang together, and every file lies in one. */
    ghost predicate Valid()
      reads this
    {
      && [] in dirs
      && (forall d :: d in dirs && d != [] ==> d[..|d| - 1] in dirs)
      && (forall p :: p in files ==> p.dir in dirs)
      && Total(files) <= peak
    }

    constructor ()
      ensures Valid() && files == map[] && peak == 0
    {
      files, dirs, peak := map[], {[]}, 0;
    }

    method Metadata(p: Path) returns (found: Option<File>)
      ensures found == if p in files then Some(files[p]) else None
    {
      if p in files { return Some(files[p]); }
      return None;
    }

    method RemoveFile(p: Path)
      requires Valid()
      modifies this`files, this`peak
      ensures Valid() && files == old(files) - {p}
      ensures peak == Max(old(peak), Total(files))
    {
      files := files - {p};
      peak := Max(peak, Total(files));
    }

    /** Every prefix of the path becomes a directory. */
    method CreateDirAll(d: seq<string>)
      requires Valid()
      modifies this`dirs
      ensures Valid() && old(dirs) <= dirs && d in dirs
    {
      for n := 0 to |d|
        invariant Valid() && old(dirs) <= dirs && d[..n] in dirs
      {
        assert d[..n + 1][..n] == d[..n];
        dirs := dirs + {d[..n + 1]};
      }
      assert d[..|d|] == d;
    }

    /** An empty file, whatever was there before. */
    method Create(p: Path, now: nat)
      requires Valid() && p.dir in dirs
      modifies this`files, this`peak
      ensures Valid() && files == old(files)[p := File([], now)]
      ensures peak == Max(old(peak), Total(files))
    {
      files := files[p := File([], now)];
      peak := Max(peak, Total(files));
    }

    method WriteAll(p: Path, bytes: Bytes, now: nat)
      requires Valid() && p in files
      modifies this`files, this`peak
      ensures Valid() && files == old(files)[p := File(old(files)[p].content + bytes, now)]
      ensures peak == Max(old(peak), Total(files))
    {
      files := files[p := File(files[p].content + bytes, now)];
      peak := Max(peak, Total(files));
    }

    /** Creates or truncates a file and writes its content. */
    method WriteFile(p: Path, bytes: Bytes, now: nat)
      requires Valid() && p.dir in dirs
      modifies this`files, this`peak
      ensures Valid() && files == old(files)[p := File(bytes, now)]
      ensures peak <= Max(old(peak), Total(old(files)) + |bytes|)
    {
      ghost var before := files;
      TotalUpdate(before, p, File([], now));
      TotalUpdate(before, p, File(bytes, now));
      Create(p, now);
      ghost var created := files;
      assert created[p].content + bytes == bytes;
      WriteAll(p, bytes, now);
      WrittenTwice(before, p, File([], now), File(bytes, now));
    }

    /** What lies directly in a directory, once each, in no particular order. */
    method ReadDir(d: seq<string>) returns (entries: seq<Entry>)
      requires Valid()
      ensures NoDup(entries)
      ensures forall x :: SubDir(x) in entries <==> x in dirs && x != [] && x[..|x| - 1] == d
      ensures forall p :: Leaf(p) in entries <==> p in files && p.dir == d
    {
      entries := Listing(EntriesIn(files, dirs, d));
    }
  }

  function EntriesIn(files: map<Path, File>, dirs: set<seq<string>>, d: seq<string>): (entries: set<Entry>)
    ensures forall x :: SubDir(x) in entries <==> x in dirs && x != [] && x[..|x| - 1] == d
    ensures forall p :: Leaf(p) in entries <==> p in files && p.dir == d
  {
    (set x | x in dirs && x != [] && x[..|x| - 1] == d :: SubDir(x))
    + (set p | p in files && p.dir == d :: Leaf(p))
  }

  /** The members of a set, once each, in some order. */
  method Listing<T(==)>(all: set<T>) returns (listed: seq<T>)
    ensures NoDup(listed) && forall e :: e in listed <==> e in all
  {
    listed := [];
    var todo := all;
    while todo != {}
      invariant NoDup(listed) && todo <= all
      invariant forall e :: e in listed <==> e in all && e !in todo
      decreases |todo|
    {
      var e :| e in todo;
      NoDupSnoc(listed, e);
      listed := listed + [e];
      todo := todo - {e};
    }
  }
}
