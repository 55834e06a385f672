/** How entries lie on disk, and the first-in first-out map that the files stand for. */
module DiskLayout {
  import opened Common
  import opened Files
  import opened Fifos

  datatype DiskMetadata = DiskMetadata(
    headers: seq<(string, string)>, status: nat, timestamp: nat, ttlSeconds: nat, dataSize: nat)

  /** Serialization of metadata. */
  datatype Codec = Codec(encode: DiskMetadata -> Bytes, decode: Bytes -> Option<DiskMetadata>)

  /** What is serialized is never empty and reads back as it was. */
  ghost predicate Faithful(codec: Codec) {
    forall m :: codec.encode(m) != [] && codec.decode(codec.encode(m)) == Some(m)
  }

  /** Two levels of directories; a hash in hexadecimal has the characters to name them. */
  function Shards(h: Hash): seq<string> {
    if |h| >= 4 then [h[0..2], h[2..4]] else []
  }

  function MetaPath(h: Hash): Path { Path(Shards(h), h, "meta") }

  function DataPath(h: Hash): Path { Path(Shards(h), h, "data") }

  function SizeOnDisk(files: map<Path, File>, h: Hash): nat {
    Length(files, MetaPath(h)) + Length(files, DataPath(h))
  }

  function MetadataOf(entry: CacheEntry): DiskMetadata {
    DiskMetadata(entry.headers, entry.status, entry.timestamp, entry.ttlSeconds, |entry.data|)
  }

  /** Both files must be there, and the metadata must be readable. */
  function ReadBack(files: map<Path, File>, codec: Codec, h: Hash): ReadResult {
    if MetaPath(h) !in files || DataPath(h) !in files then Miss
    else
      match codec.decode(files[MetaPath(h)].content)
      case None => Corrupt
      case Some(m) =>
        Hit(CacheEntry(files[DataPath(h)].content, m.headers, m.status, m.timestamp, m.ttlSeconds))
  }

  function WrittenAt(files: map<Path, File>, p: Path): nat {
    if p in files then files[p].mtime else 0
  }

  function SlotOf(files: map<Path, File>, codec: Codec, h: Hash): Slot {
    Slot(ReadBack(files, codec, h), SizeOnDisk(files, h), WrittenAt(files, MetaPath(h)))
  }

  function View(files: map<Path, File>, codec: Codec, order: seq<Hash>): Fifo {
    Fifo(order, map h | h in order :: SlotOf(files, codec, h))
  }

  /** The files are exactly the pairs of the listed entries, each listed once. */
  ghost predicate Layout(files: map<Path, File>, order: seq<Hash>) {
    && NoDup(order)
    && (forall h :: h in order ==> MetaPath(h) in files && DataPath(h) in files)
    && (forall p :: p in files ==> p.stem in order && (p == MetaPath(p.stem) || p == DataPath(p.stem)))
  }

  /** Every metadata file holds something. */
  ghost predicate NonEmpty(files: map<Path, File>, order: seq<Hash>) {
    forall h :: h in order ==> Length(files, MetaPath(h)) > 0
  }

  function SatSub(a: nat, b: nat): nat { if a >= b then a - b else 0 }

  lemma PathsDiffer(h: Hash, k: Hash)
    ensures MetaPath(h) != DataPath(k)
    ensures h != k ==> MetaPath(h) != MetaPath(k) && DataPath(h) != DataPath(k)
    ensures MetaPath(h).stem == h && DataPath(h).stem == h
  {
    assert MetaPath(h).ext != DataPath(k).ext;
    assert MetaPath(h).stem != MetaPath(k).stem || h == k;
  }

  /** Two file maps hold the same files for a key. */
  ghost predicate SameFor(a: map<Path, File>, b: map<Path, File>, k: Hash) {
    && (MetaPath(k) in a <==> MetaPath(k) in b) && (DataPath(k) in a <==> DataPath(k) in b)
    && (MetaPath(k) in a ==> a[MetaPath(k)] == b[MetaPath(k)])
    && (DataPath(k) in a ==> a[DataPath(k)] == b[DataPath(k)])
  }

  lemma SameSlot(a: map<Path, File>, b: map<Path, File>, codec: Codec, k: Hash)
    requires SameFor(a, b, k)
    ensures SlotOf(a, codec, k) == SlotOf(b, codec, k)
    ensures Length(a, MetaPath(k)) == Length(b, MetaPath(k))
  {
  }

  // ---------------------------------------------------------------- taking an entry away

  function Erased(files: map<Path, File>, h: Hash): map<Path, File> {
    files - {MetaPath(h)} - {DataPath(h)}
  }

  lemma ErasedTotal(files: map<Path, File>, h: Hash)
    ensures Total(Erased(files, h)) + SizeOnDisk(files, h) == Total(files)
    ensures Total(files - {MetaPath(h)}) <= Total(files)
  {
    TotalWithout(files, MetaPath(h));
    TotalWithout(files - {MetaPath(h)}, DataPath(h));
    PathsDiffer(h, h);
  }

  lemma ErasedElsewhere(files: map<Path, File>, h: Hash, k: Hash)
    requires h != k
    ensures SameFor(files, Erased(files, h), k)
  {
    PathsDiffer(h, k);
    PathsDiffer(k, h);
  }

  /** A file belongs to exactly one key. */
  lemma OwnFiles(files: map<Path, File>, order: seq<Hash>, h: Hash, p: Path)
    requires Layout(files, order) && p in files
    ensures p.stem == h <==> p == MetaPath(h) || p == DataPath(h)
  {
    PathsDiffer(h, h);
    PathsDiffer(p.stem, h);
  }

  lemma ErasedLayout(files: map<Path, File>, order: seq<Hash>, h: Hash)
    requires Layout(files, order)
    ensures Layout(Erased(files, h), Without(order, h))
    ensures h in order <==> MetaPath(h) in files
    ensures h in order <==> DataPath(h) in files
  {
    WithoutMembers(order, h);
    PathsDiffer(h, h);
    var after, order' := Erased(files, h), Without(order, h);
    assert forall k :: k in order' ==> MetaPath(k) in after && DataPath(k) in after by {
      forall k | k in order'
        ensures MetaPath(k) in after && DataPath(k) in after
      {
        ErasedElsewhere(files, h, k);
      }
    }
    forall p | p in after
      ensures p.stem in order' && (p == MetaPath(p.stem) || p == DataPath(p.stem))
    {
      OwnFiles(files, order, h, p);
    }
  }

  /** Where the files of listed keys are the same, so are the slots. */
  lemma SameView(a: map<Path, File>, b: map<Path, File>, codec: Codec, order: seq<Hash>)
    requires forall k :: k in order ==> SameFor(a, b, k)
    ensures forall k :: k in order ==> SlotOf(b, codec, k) == SlotOf(a, codec, k)
    ensures View(b, codec, order) == View(a, codec, order)
    ensures NonEmpty(a, order) ==> NonEmpty(b, order)
  {
    forall k | k in order
      ensures SlotOf(b, codec, k) == SlotOf(a, codec, k) && Length(b, MetaPath(k)) == Length(a, MetaPath(k))
    {
      SameSlot(a, b, codec, k);
    }
  }

  lemma ErasedView(files: map<Path, File>, codec: Codec, order: seq<Hash>, h: Hash)
    requires NonEmpty(files, order)
    ensures View(Erased(files, h), codec, Without(order, h)) == Remove(View(files, codec, order), h)
    ensures NonEmpty(Erased(files, h), Without(order, h))
  {
    hide Shards, Length, Erased, SameFor;
    WithoutMembers(order, h);
    forall k | k in Without(order, h)
      ensures SameFor(files, Erased(files, h), k)
    {
      ErasedElsewhere(files, h, k);
    }
    SameView(files, Erased(files, h), codec, Without(order, h));
    ViewWithout(files, codec, order, h);
  }

  lemma ViewWithout(files: map<Path, File>, codec: Codec, order: seq<Hash>, h: Hash)
    ensures View(files, codec, Without(order, h)) == Remove(View(files, codec, order), h)
  {
    hide SlotOf, Without;
    WithoutMembers(order, h);
    var a, b := View(files, codec, Without(order, h)).slots, View(files, codec, order).slots - {h};
    assert forall k :: k in a <==> k in b;
    assert a == b;
  }

  lemma SizeTellsPresence(files: map<Path, File>, order: seq<Hash>, h: Hash)
    requires Layout(files, order) && NonEmpty(files, order)
    ensures SizeOnDisk(files, h) > 0 <==> h in order
  {
    ErasedLayout(files, order, h);
  }

  /** Erasing the entry at the front leaves the layout of the others. */
  lemma FrontErased(files: map<Path, File>, order: seq<Hash>)
    requires order != [] && Layout(files, order) && NonEmpty(files, order)
    ensures Without(order, order[0]) == order[1..]
    ensures Layout(Erased(files, order[0]), order[1..]) && NonEmpty(Erased(files, order[0]), order[1..])
    ensures forall k :: k in order[1..] ==> SameFor(files, Erased(files, order[0]), k)
  {
    var h, rest := order[0], order[1..];
    assert order == [h] + rest;
    assert h !in rest;
    WithoutAbsent(rest, h);
    assert [] + rest == rest;
    ErasedLayout(files, order, h);
    forall k | k in rest
      ensures SameFor(files, Erased(files, h), k)
    {
      ErasedElsewhere(files, h, k);
    }
    forall k | k in rest
      ensures Length(Erased(files, h), MetaPath(k)) > 0
    {
      assert k in order && SameFor(files, Erased(files, h), k);
    }
  }

  /** All bytes on disk are bytes of listed entries. */
  lemma {:induction false} TotalIsSum(files: map<Path, File>, codec: Codec, order: seq<Hash>)
    requires Layout(files, order) && NonEmpty(files, order)
    ensures Total(files) == View(files, codec, order).Bytes()
    decreases |order|
  {
    if order == [] {
      assert files == map[];
    } else {
      var h, rest := order[0], order[1..];
      FrontErased(files, order);
      ErasedTotal(files, h);
      TotalIsSum(Erased(files, h), codec, rest);
      SameView(files, Erased(files, h), codec, rest);
      SumAgrees(rest, View(files, codec, order).slots, View(files, codec, rest).slots);
      assert SizeOf(View(files, codec, order).slots, h) == SizeOnDisk(files, h);
    }
  }

  // ---------------------------------------------------------------- adding an entry

  function Written(files: map<Path, File>, h: Hash, meta: Bytes, data: Bytes, now: nat): map<Path, File> {
    files[MetaPath(h) := File(meta, now)][DataPath(h) := File(data, now)]
  }

  /** Where an entry lies: two levels of directories named by the first four characters of the hash. */
  lemma WrittenWhere(files: map<Path, File>, h: Hash, meta: Bytes, data: Bytes, now: nat)
    requires |h| >= 4
    ensures
      var after := Written(files, h, meta, data, now);
      var metaPath, dataPath := Path([h[0..2], h[2..4]], h, "meta"), Path([h[0..2], h[2..4]], h, "data");
      && metaPath in after && after[metaPath] == File(meta, now)
      && dataPath in after && after[dataPath] == File(data, now)
      && forall p :: p != metaPath && p != dataPath ==>
           (p in after <==> p in files) && (p in files ==> after[p] == files[p])
  {
    PathsDiffer(h, h);
  }

  lemma WrittenElsewhere(files: map<Path, File>, h: Hash, meta: Bytes, data: Bytes, now: nat, k: Hash)
    requires h != k
    ensures SameFor(files, Written(files, h, meta, data, now), k)
  {
    PathsDiffer(h, k);
    PathsDiffer(k, h);
  }

  lemma WrittenLayout(files: map<Path, File>, order: seq<Hash>, h: Hash, meta: Bytes, data: Bytes, now: nat)
    requires h !in order && Layout(files, order) && NonEmpty(files, order) && meta != []
    ensures Layout(Written(files, h, meta, data, now), order + [h])
    ensures NonEmpty(Written(files, h, meta, data, now), order + [h])
  {
    var after := Written(files, h, meta, data, now);
    NoDupSnoc(order, h);
    PathsDiffer(h, h);
    forall k | k in order
      ensures SameFor(files, after, k)
    {
      WrittenElsewhere(files, h, meta, data, now, k);
    }
    forall k | k in order + [h]
      ensures MetaPath(k) in after && DataPath(k) in after && Length(after, MetaPath(k)) > 0
    {
      if k in order { assert SameFor(files, after, k); }
    }
    forall p | p in after
      ensures p.stem in order + [h] && (p == MetaPath(p.stem) || p == DataPath(p.stem))
    {
      if p in files { assert p.stem in order; }
    }
  }

  lemma WrittenSlot(files: map<Path, File>, codec: Codec, h: Hash, entry: CacheEntry, now: nat)
    requires Faithful(codec)
    ensures
      var meta := codec.encode(MetadataOf(entry));
      SlotOf(Written(files, h, meta, entry.data, now), codec, h)
      == Slot(Hit(entry), |meta| + |entry.data|, now)
  {
    PathsDiffer(h, h);
    assert codec.decode(codec.encode(MetadataOf(entry))) == Some(MetadataOf(entry));
  }

  lemma WrittenView(files: map<Path, File>, codec: Codec, order: seq<Hash>, h: Hash, entry: CacheEntry, now: nat)
    requires Faithful(codec) && h !in order
    ensures
      var meta := codec.encode(MetadataOf(entry));
      View(Written(files, h, meta, entry.data, now), codec, order + [h])
      == Fifo(order + [h], View(files, codec, order).slots[h := Slot(Hit(entry), |meta| + |entry.data|, now)])
  {
    var meta := codec.encode(MetadataOf(entry));
    var after := Written(files, h, meta, entry.data, now);
    forall k | k in order
      ensures SameFor(files, after, k)
    {
      WrittenElsewhere(files, h, meta, entry.data, now, k);
    }
    SameView(files, after, codec, order);
    WrittenSlot(files, codec, h, entry, now);
    assert View(after, codec, order + [h]).slots
        == View(after, codec, order).slots[h := SlotOf(after, codec, h)];
  }
}
