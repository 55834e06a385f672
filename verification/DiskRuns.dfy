/** The disk cache over whole runs, from an empty directory to the next start. */
module DiskRuns {
  import opened Common
  import opened Files
  import opened Fifos
  import opened DiskLayout
  import opened Rebuilding
  import opened DiskCaches

  datatype Call = PutCall(h: Hash, entry: CacheEntry, now: nat) | RemoveCall(h: Hash)

  function OpOf(codec: Codec, call: Call): Op {
    match call
    case PutCall(h, entry, now) =>
      PutOp(h, Slot(Hit(entry), |codec.encode(MetadataOf(entry))| + |entry.data|, now))
    case RemoveCall(h) => RemoveOp(h)
  }

  function OpsOf(codec: Codec, calls: seq<Call>): seq<Op> {
    if calls == [] then [] else OpsOf(codec, calls[..|calls| - 1]) + [OpOf(codec, Last(calls))]
  }

  lemma CallsStep(codec: Codec, max: nat, calls: seq<Call>, k: nat)
    requires k < |calls|
    ensures After(max, OpsOf(codec, calls[..k + 1]))
         == Apply(After(max, OpsOf(codec, calls[..k])), max, OpOf(codec, calls[k]))
  {
    var before := OpsOf(codec, calls[..k]);
    assert calls[..k + 1][..k] == calls[..k];
    assert (before + [OpOf(codec, calls[k])])[..|before|] == before;
  }

  /** Opens the cache in an empty directory and performs the calls; the maximum holds at every moment. */
  method Run(max: nat, codec: Codec, calls: seq<Call>) returns (cache: DiskCache)
    requires Faithful(codec)
    ensures cache.Valid() && fresh(cache) && fresh(cache.fs) && cache.codec == codec && cache.maxSize == max
    ensures cache.Contents() == After(max, OpsOf(codec, calls))
    ensures cache.fs.peak <= max
  {
    hide View, Layout, NonEmpty, Apply, OpsOf, Total, TimeOrdered;
    cache := OpenEmpty(max, codec);
    assert calls[..0] == [];
    NoCalls(codec, max);
    for k := 0 to |calls|
      invariant cache.Valid() && cache.maxSize == max && cache.codec == codec
      invariant fresh(cache) && fresh(cache.fs)
      invariant cache.Contents() == After(max, OpsOf(codec, calls[..k]))
      invariant cache.fs.peak <= max
    {
      CallsStep(codec, max, calls, k);
      Perform(cache, calls[k]);
    }
    assert calls[..|calls|] == calls;
  }

  method OpenEmpty(max: nat, codec: Codec) returns (cache: DiskCache)
    requires Faithful(codec)
    ensures cache.Valid() && fresh(cache) && fresh(cache.fs) && cache.codec == codec && cache.maxSize == max
    ensures cache.Contents() == Fifo([], map[]) && cache.fs.peak == 0
  {
    var fs := new FileSystem();
    EmptyDirectory(fs.files, codec);
    cache := new DiskCache(max, codec, fs);
  }

  method Perform(cache: DiskCache, call: Call)
    requires cache.Valid()
    modifies cache`currentSize, cache`evictionOrder, cache.fs
    ensures cache.Valid()
    ensures cache.Contents() == Apply(old(cache.Contents()), cache.maxSize, OpOf(cache.codec, call))
    ensures cache.fs.peak <= Max(old(cache.fs.peak), cache.maxSize)
  {
    hide DiskCache.Valid, DiskCache.Contents, Apply;
    OneCall(cache.Contents(), cache.codec, cache.maxSize, call);
    match call {
      case PutCall(h, entry, now) => cache.Put(h, entry, now);
      case RemoveCall(h) => cache.RemoveKey(h);
    }
  }

  /**
   Runs, stops, and starts again. The second instance counts the same bytes over
   the same entries; with increasing modification times it also has them in the
   same order, so that it evicts in the same order.
   */
  method RunAndReopen(max: nat, codec: Codec, calls: seq<Call>) returns (cache: DiskCache, reopened: DiskCache)
    requires Faithful(codec)
    ensures cache.Valid() && reopened.Valid() && reopened.fs == cache.fs
    ensures cache.Contents() == After(max, OpsOf(codec, calls)) && cache.fs.peak <= max
    ensures reopened.currentSize == cache.currentSize
    ensures multiset(reopened.evictionOrder) == multiset(cache.evictionOrder)
    ensures TimesIncrease(OpsOf(codec, calls)) ==>
              reopened.evictionOrder == cache.evictionOrder && reopened.Contents() == cache.Contents()
  {
    hide View, Layout, NonEmpty, OpsOf, Total, TimeOrdered, TimesIncrease, Lists, Faithful;
    cache := Run(max, codec, calls);
    reopened := new DiskCache(max, codec, cache.fs);
    SameEntries(cache.fs.files, codec, cache.evictionOrder, reopened.evictionOrder);
    ViewOrder(cache.fs.files, codec, cache.evictionOrder);
    ViewOrder(cache.fs.files, codec, reopened.evictionOrder);
    if TimesIncrease(OpsOf(codec, calls)) {
      RunsAreTimeOrdered(max, OpsOf(codec, calls));
    }
  }

  lemma EmptyDirectory(files: map<Path, File>, codec: Codec)
    requires files == map[]
    ensures Layout(files, []) && NonEmpty(files, [])
    ensures View(files, codec, []) == Fifo([], map[]) && TimeOrdered(View(files, codec, []))
  {
  }

  lemma NoCalls(codec: Codec, max: nat)
    ensures After(max, OpsOf(codec, [])) == Fifo([], map[])
  {
  }

  lemma OneCall(f: Fifo, codec: Codec, max: nat, call: Call)
    ensures match call
            case PutCall(h, entry, now) =>
              Apply(f, max, OpOf(codec, call))
              == Put(f, max, h, Slot(Hit(entry), |codec.encode(MetadataOf(entry))| + |entry.data|, now))
            case RemoveCall(h) => Apply(f, max, OpOf(codec, call)) == Remove(f, h)
  {
  }

  /** The same files cannot hold different entries or a different number of bytes. */
  lemma SameEntries(files: map<Path, File>, codec: Codec, a: seq<Hash>, b: seq<Hash>)
    requires Layout(files, a) && NonEmpty(files, a) && Layout(files, b) && NonEmpty(files, b)
    ensures multiset(a) == multiset(b)
    ensures View(files, codec, a).Bytes() == View(files, codec, b).Bytes()
  {
    TotalIsSum(files, codec, a);
    TotalIsSum(files, codec, b);
    forall h
      ensures multiset(a)[h] == multiset(b)[h]
    {
      NoDupCount(a, h);
      NoDupCount(b, h);
      if h in a { assert MetaPath(h) in files; }
      if h in b { assert MetaPath(h) in files; }
    }
  }
}
