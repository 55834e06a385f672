/** The disk cache: files, a running byte count and an eviction order, updated in place. */
module DiskCaches {
  import opened Common
  import opened Files
  import opened Fifos
  import opened DiskLayout
  import opened Rebuilding

  class DiskCache {
    const maxSize: nat
    const codec: Codec
    const fs: FileSystem
    var currentSize: nat
    var evictionOrder: seq<Hash>

    ghost predicate Valid()
      reads this, fs
    {
      && fs.Valid()
      && Faithful(codec)
      && Layout(fs.files, evictionOrder) && NonEmpty(fs.files, evictionOrder)
      && currentSize == Contents().Bytes()
    }

    /** The first-in first-out map the files stand for. */
    ghost function Contents(): Fifo
      reads this, fs
    {
      View(fs.files, codec, evictionOrder)
    }

    /**
     Opens an existing directory. On the files of a cleanly stopped instance the
     result is sound, and with increasing modification times it is the same map.
     */
    constructor (maxSize: nat, codec: Codec, fs: FileSystem)
      requires fs.Valid() && Faithful(codec)
      ensures this.maxSize == maxSize && this.codec == codec && this.fs == fs
      ensures exists paths :: Lists(paths, fs.files) && evictionOrder == OrderFrom(fs.files, paths)
                              && currentSize == TotalSize(FoundAll(fs.files, paths))
      ensures forall order :: Layout(fs.files, order) && NonEmpty(fs.files, order) ==>
                Valid() && (TimeOrdered(View(fs.files, codec, order)) ==> Contents() == View(fs.files, codec, order))
    {
      this.maxSize, this.codec, this.fs := maxSize, codec, fs;
      currentSize, evictionOrder := 0, [];
      new;
      RebuildIndex();
      forall order | Layout(fs.files, order) && NonEmpty(fs.files, order)
        ensures Valid() && (TimeOrdered(View(fs.files, codec, order)) ==> Contents() == View(fs.files, codec, order))
      {
        var paths :| Lists(paths, fs.files) && evictionOrder == OrderFrom(fs.files, paths)
                     && currentSize == TotalSize(FoundAll(fs.files, paths));
        RestartIsSound(fs.files, order, paths);
        RestartRecoversSize(fs.files, codec, evictionOrder, paths);
        if TimeOrdered(View(fs.files, codec, order)) {
          RestartRecovers(fs.files, codec, order, paths);
        }
      }
    }

    /** Walks the directory, sorts what it finds by time and takes over the order and the byte count. */
    method RebuildIndex()
      requires fs.Valid()
      modifies this`currentSize, this`evictionOrder
      ensures exists paths :: Lists(paths, fs.files) && evictionOrder == OrderFrom(fs.files, paths)
                              && currentSize == TotalSize(FoundAll(fs.files, paths))
    {
      hide Lists, SortByTime, TotalSize;
      var found, total, paths := Walk(fs);
      var sorted := SortByTime(found);
      evictionOrder := [];
      for k := 0 to |sorted|
        invariant evictionOrder == Stems(sorted)[..k]
      {
        evictionOrder := evictionOrder + [sorted[k].stem];
      }
      currentSize := total;
    }

    /** Nothing unless both files are there, an error if the metadata cannot be read; exact while the index is. */
    method Get(h: Hash) returns (r: ReadResult)
      ensures MetaPath(h) !in fs.files || DataPath(h) !in fs.files ==> r == Miss
      ensures MetaPath(h) in fs.files && DataPath(h) in fs.files ==>
                match codec.decode(fs.files[MetaPath(h)].content)
                case None => r == Corrupt
                case Some(m) =>
                  r == Hit(CacheEntry(fs.files[DataPath(h)].content, m.headers, m.status, m.timestamp, m.ttlSeconds))
      ensures Valid() ==> r == if h in Contents().slots then Contents().slots[h].content else Miss
    {
      if Valid() { ErasedLayout(fs.files, evictionOrder, h); }
      var meta := fs.Metadata(MetaPath(h));
      if meta.None? { return Miss; }
      var data := fs.Metadata(DataPath(h));
      if data.None? { return Miss; }
      match codec.decode(meta.value.content) {
        case None => return Corrupt;
        case Some(m) =>
          return Hit(CacheEntry(data.value.content, m.headers, m.status, m.timestamp, m.ttlSeconds));
      }
    }

    /** Deletes both files and tells how many bytes they had. */
    method RemoveEntry(h: Hash) returns (size: nat)
      requires fs.Valid()
      modifies fs`files, fs`peak
      ensures fs.Valid() && fs.files == Erased(old(fs.files), h)
      ensures size == SizeOnDisk(old(fs.files), h)
      ensures fs.peak == old(fs.peak)
    {
      var meta := fs.Metadata(MetaPath(h));
      var data := fs.Metadata(DataPath(h));
      size := (if meta.Some? then |meta.value.content| else 0) + (if data.Some? then |data.value.content| else 0);
      ErasedTotal(fs.files, h);
      fs.RemoveFile(MetaPath(h));
      fs.RemoveFile(DataPath(h));
    }

    method WriteEntry(h: Hash, entry: CacheEntry, meta: Bytes, now: nat) returns (size: nat)
      requires fs.Valid()
      modifies fs
      ensures fs.Valid() && fs.files == Written(old(fs.files), h, meta, entry.data, now)
      ensures size == |meta| + |entry.data|
      ensures fs.peak <= Max(old(fs.peak), Total(old(fs.files)) + size)
    {
      hide Total;
      fs.CreateDirAll(Shards(h));
      TotalUpdate(fs.files, MetaPath(h), File(meta, now));
      fs.WriteFile(MetaPath(h), meta, now);
      fs.WriteFile(DataPath(h), entry.data, now);
      size := |meta| + |entry.data|;
    }

    /** The oldest entry goes. */
    method EvictFront() returns (size: nat)
      requires fs.Valid() && evictionOrder != []
      modifies this`evictionOrder, fs`files, fs`peak
      ensures fs.Valid() && evictionOrder == old(evictionOrder)[1..]
      ensures fs.files == Erased(old(fs.files), old(evictionOrder)[0])
      ensures size == SizeOnDisk(old(fs.files), old(evictionOrder)[0])
      ensures fs.peak == old(fs.peak)
    {
      var h := evictionOrder[0];
      evictionOrder := evictionOrder[1..];
      size := RemoveEntry(h);
    }

    /** Pops entries off the front until the new one fits, and only as many as that takes. */
    method EvictIfNeeded(needed: nat)
      requires Valid() && needed <= maxSize
      modifies this`currentSize, this`evictionOrder, fs`files, fs`peak
      ensures Valid()
      ensures Contents() == Evicted(old(Contents()), maxSize - needed)
      ensures fs.peak == old(fs.peak)
    {
      hide Kept, Evicted, View, Layout, NonEmpty, SameFor, Total, Sum, Erased, SizeOnDisk, Counting, Leaving, SizeOf;
      ghost var f, files0 := Contents(), fs.files;
      ViewOrder(files0, codec, evictionOrder);
      StartCounting(f, maxSize - needed);
      StartLeaving(files0, evictionOrder);
      if currentSize + needed <= maxSize {
        NothingToEvict(files0, codec, evictionOrder, maxSize - needed);
        return;
      }
      var target := SatSub(maxSize, needed);
      var freed: nat := 0;
      while SatSub(currentSize, freed) > target && evictionOrder != []
        invariant fs.Valid() && currentSize == f.Bytes()
        invariant Counting(f, evictionOrder, freed, target)
        invariant Leaving(f.order, files0, fs.files, evictionOrder)
        invariant fs.peak == old(fs.peak)
        decreases |evictionOrder|
      {
        CountStep(f, evictionOrder, freed, target);
        LeaveStep(f, codec, files0, fs.files, evictionOrder);
        var size := EvictFront();
        freed := freed + size;
      }
      EvictDone(f, codec, files0, fs.files, evictionOrder, freed, target);
      currentSize := SatSub(currentSize, freed);
    }

    method Put(h: Hash, entry: CacheEntry, now: nat)
      requires Valid()
      modifies this`currentSize, this`evictionOrder, fs
      ensures Valid()
      ensures Contents() == Fifos.Put(old(Contents()), maxSize, h,
                Slot(Hit(entry), |codec.encode(MetadataOf(entry))| + |entry.data|, now))
      ensures fs.peak <= Max(old(fs.peak), maxSize)
      ensures |codec.encode(MetadataOf(entry))| + |entry.data| > maxSize ==>
                fs.files == old(fs.files) && evictionOrder == old(evictionOrder) && currentSize == old(currentSize)
    {
      hide View, Layout, NonEmpty, Total, Evicted, Replaced, Sum;
      ghost var f := Contents();
      var meta := codec.encode(MetadataOf(entry));
      var entrySize := |meta| + |entry.data|;
      if entrySize > maxSize { return; }
      EvictIfNeeded(entrySize);
      EvictedFits(f, maxSize - entrySize);
      Replace(h, entry, meta, now);
    }

    /** Takes the old entry of the key away, if there is one, and writes the new one. */
    method Replace(h: Hash, entry: CacheEntry, meta: Bytes, now: nat)
      requires Valid() && meta == codec.encode(MetadataOf(entry))
      modifies this`currentSize, this`evictionOrder, fs
      ensures Valid()
      ensures Contents() == Replaced(old(Contents()), h, Slot(Hit(entry), |meta| + |entry.data|, now))
      ensures fs.peak <= Max(old(fs.peak), old(Contents()).Bytes() + |meta| + |entry.data|)
    {
      hide View, Layout, NonEmpty, Erased, Written, SizeOnDisk, Without, Total, Replaced;
      ghost var files1, kept := fs.files, evictionOrder;
      ReplaceEffect(files1, codec, kept, h, entry, now);
      var oldSize := RemoveEntry(h);
      evictionOrder := if oldSize > 0 then Without(evictionOrder, h) else evictionOrder;
      assert evictionOrder == Without(kept, h);
      var newSize := WriteEntry(h, entry, meta, now);
      currentSize := SatSub(currentSize, oldSize) + newSize;
      evictionOrder := evictionOrder + [h];
      assert fs.files == Written(Erased(files1, h), h, meta, entry.data, now);
      assert evictionOrder == Without(kept, h) + [h];
      assert Contents() == View(fs.files, codec, evictionOrder);
    }

    method RemoveKey(h: Hash)
      requires Valid()
      modifies this`currentSize, this`evictionOrder, fs`files, fs`peak
      ensures Valid() && Contents() == Remove(old(Contents()), h)
      ensures fs.peak == old(fs.peak)
    {
      ghost var files0, order := fs.files, evictionOrder;
      ErasedLayout(files0, order, h);
      ErasedView(files0, codec, order, h);
      ErasedTotal(files0, h);
      TotalIsSum(files0, codec, order);
      var removedSize := RemoveEntry(h);
      currentSize := SatSub(currentSize, removedSize);
      evictionOrder := Without(evictionOrder, h);
      TotalIsSum(fs.files, codec, evictionOrder);
    }
  }

  /** Subtracting what an entry occupies from the running count never runs below zero. */
  lemma NeverSaturates(files: map<Path, File>, codec: Codec, order: seq<Hash>, h: Hash)
    requires Layout(files, order) && NonEmpty(files, order)
    ensures SizeOnDisk(files, h) <= View(files, codec, order).Bytes()
    ensures SatSub(View(files, codec, order).Bytes(), SizeOnDisk(files, h))
         == View(files, codec, order).Bytes() - SizeOnDisk(files, h)
         == View(Erased(files, h), codec, Without(order, h)).Bytes()
  {
    hide View, Layout, NonEmpty, Total, SizeOnDisk;
    TotalIsSum(files, codec, order);
    ErasedTotal(files, h);
    ErasedLayout(files, order, h);
    ErasedView(files, codec, order, h);
    TotalIsSum(Erased(files, h), codec, Without(order, h));
  }

  /** Part of the way through eviction: what is freed, and what will be left in the end. */
  ghost predicate Counting(f: Fifo, rest: seq<Hash>, freed: nat, target: nat) {
    && freed + Sum(rest, f.slots) == f.Bytes()
    && Kept(f, target) == KeptFrom(rest, f.slots, SatSub(f.Bytes(), freed), target)
  }

  lemma StartCounting(f: Fifo, target: nat)
    ensures Counting(f, f.order, 0, target)
  {
  }

  lemma NothingToEvict(files: map<Path, File>, codec: Codec, order: seq<Hash>, target: nat)
    requires View(files, codec, order).Bytes() <= target
    ensures Evicted(View(files, codec, order), target) == View(files, codec, order)
  {
    var f := View(files, codec, order);
    assert Restricted(f.slots, f.order) == f.slots;
  }

  lemma CountStep(f: Fifo, rest: seq<Hash>, freed: nat, target: nat)
    requires rest != [] && Counting(f, rest, freed, target) && SatSub(f.Bytes(), freed) > target
    ensures Counting(f, rest[1..], freed + SizeOf(f.slots, rest[0]), target)
  {
  }

  /** Part of the way through eviction: what is left on disk. */
  ghost predicate Leaving(order: seq<Hash>, files0: map<Path, File>, files: map<Path, File>, rest: seq<Hash>) {
    && Layout(files, rest) && NonEmpty(files, rest)
    && (forall k :: k in rest ==> k in order && SameFor(files0, files, k))
    && Total(files) <= Total(files0)
  }

  lemma ViewOrder(files: map<Path, File>, codec: Codec, order: seq<Hash>)
    ensures View(files, codec, order).order == order
  {
  }

  lemma StartLeaving(files: map<Path, File>, order: seq<Hash>)
    requires Layout(files, order) && NonEmpty(files, order)
    ensures Leaving(order, files, files, order)
  {
  }

  lemma LeaveStep(f: Fifo, codec: Codec, files0: map<Path, File>, files: map<Path, File>, rest: seq<Hash>)
    requires f == View(files0, codec, f.order) && rest != [] && Leaving(f.order, files0, files, rest)
    ensures Layout(files, rest) && NonEmpty(files, rest)
    ensures Total(files) <= Total(files0)
    ensures Leaving(f.order, files0, Erased(files, rest[0]), rest[1..])
    ensures SizeOnDisk(files, rest[0]) == SizeOf(f.slots, rest[0])
  {
    hide View, SizeOnDisk, SizeOf;
    assert rest[0] in rest;
    SizeOfListed(files0, files, codec, f.order, rest[0]);
    FrontErased(files, rest);
    ErasedTotal(files, rest[0]);
    SameForBoth(files0, files, Erased(files, rest[0]), rest[1..]);
  }

  lemma SizeOfListed(files0: map<Path, File>, files: map<Path, File>, codec: Codec, order: seq<Hash>, h: Hash)
    requires h in order && SameFor(files0, files, h)
    ensures SizeOnDisk(files, h) == SizeOf(View(files0, codec, order).slots, h)
  {
    SameSlot(files0, files, codec, h);
    assert SlotOf(files, codec, h).size == SizeOnDisk(files, h);
  }

  lemma SameForBoth(a: map<Path, File>, b: map<Path, File>, c: map<Path, File>, order: seq<Hash>)
    requires forall k :: k in order ==> SameFor(a, b, k) && SameFor(b, c, k)
    ensures forall k :: k in order ==> SameFor(a, c, k)
  {
  }

  /** The slots of part of the order are the restriction of all the slots. */
  lemma RestSum(files: map<Path, File>, codec: Codec, order: seq<Hash>, rest: seq<Hash>)
    requires forall k :: k in rest ==> k in order
    ensures View(files, codec, rest).slots == Restricted(View(files, codec, order).slots, rest)
    ensures View(files, codec, rest).Bytes() == Sum(rest, View(files, codec, order).slots)
  {
    hide SlotOf;
    var slots := View(files, codec, order).slots;
    assert View(files, codec, rest).slots == Restricted(slots, rest);
    RestrictedSum(rest, slots);
  }

  lemma EvictDone(f: Fifo, codec: Codec, files0: map<Path, File>, files: map<Path, File>,
                  rest: seq<Hash>, freed: nat, target: nat)
    requires f == View(files0, codec, f.order)
    requires Counting(f, rest, freed, target) && Leaving(f.order, files0, files, rest)
    requires SatSub(f.Bytes(), freed) <= target || rest == []
    ensures freed <= f.Bytes()
    ensures Layout(files, rest) && NonEmpty(files, rest)
    ensures View(files, codec, rest) == Evicted(f, target)
    ensures View(files, codec, rest).Bytes() == f.Bytes() - freed
  {
    hide Layout, NonEmpty, SameFor, SlotOf;
    SameView(files0, files, codec, rest);
    RestSum(files0, codec, f.order, rest);
  }

  /** What replacing an entry does to files, sizes and the map they stand for. */
  lemma ReplaceEffect(files: map<Path, File>, codec: Codec, order: seq<Hash>, h: Hash, entry: CacheEntry, now: nat)
    requires Faithful(codec) && Layout(files, order) && NonEmpty(files, order)
    ensures
      var meta := codec.encode(MetadataOf(entry));
      var rest, erased := Without(order, h), Erased(files, h);
      var after := Written(erased, h, meta, entry.data, now);
      && (SizeOnDisk(files, h) == 0 ==> rest == order)
      && MetaPath(h) !in erased && DataPath(h) !in erased
      && Layout(after, rest + [h]) && NonEmpty(after, rest + [h])
      && View(after, codec, rest + [h])
         == Replaced(View(files, codec, order), h, Slot(Hit(entry), |meta| + |entry.data|, now))
      && Total(files) == View(files, codec, order).Bytes()
      && Total(erased) + SizeOnDisk(files, h) == Total(files)
      && View(after, codec, rest + [h]).Bytes() == Total(erased) + |meta| + |entry.data|
  {
    hide View, Layout, NonEmpty, SizeOnDisk, Without, Total, Remove, Written;
    var meta := codec.encode(MetadataOf(entry));
    var rest, erased := Without(order, h), Erased(files, h);
    var after := Written(erased, h, meta, entry.data, now);
    WithoutMembers(order, h);
    SizeTellsPresence(files, order, h);
    if h !in order { WithoutAbsent(order, h); }
    ErasedLayout(files, order, h);
    ErasedView(files, codec, order, h);
    ErasedTotal(files, h);
    PathsDiffer(h, h);
    ViewOrder(erased, codec, rest);
    WrittenLayout(erased, rest, h, meta, entry.data, now);
    WrittenView(erased, codec, rest, h, entry, now);
    WrittenTotal(erased, h, meta, entry.data, now);
    TotalIsSum(files, codec, order);
    TotalIsSum(after, codec, rest + [h]);
  }

  lemma WrittenTotal(files: map<Path, File>, h: Hash, meta: Bytes, data: Bytes, now: nat)
    requires MetaPath(h) !in files && DataPath(h) !in files
    ensures Total(Written(files, h, meta, data, now)) == Total(files) + |meta| + |data|
  {
    PathsDiffer(h, h);
    TotalUpdate(files, MetaPath(h), File(meta, now));
    TotalUpdate(files[MetaPath(h) := File(meta, now)], DataPath(h), File(data, now));
  }
}
