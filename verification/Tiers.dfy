/**
 The two tiers of the cache: a memory tier that may lose any entry at any time,
 and the disk cache for large entries.
 */
module Tiers {
  import opened Common
  import opened Fifos
  import opened DiskLayout
  import opened DiskCaches

  /** Entries above this size also go to disk. */
  const LARGE: nat := 1024 * 1024

  function HeadersSize(headers: seq<(string, string)>): nat {
    if headers == [] then 0 else |headers[0].0| + |headers[0].1| + 48 + HeadersSize(headers[1..])
  }

  function SizeOfEntry(entry: CacheEntry): nat {
    |entry.data| + HeadersSize(entry.headers) + 64
  }

  /** Older than its lifetime in whole seconds, or written in the future. */
  predicate Expired(entry: CacheEntry, now: nat) {
    now < entry.timestamp || (now - entry.timestamp) / NANOS > entry.ttlSeconds
  }

  /** An entry is good for its whole lifetime and the second that completes it, and never before it was made. */
  lemma ExpiredExactly(entry: CacheEntry, now: nat)
    ensures Expired(entry, now)
       <==> !(entry.timestamp <= now < entry.timestamp + (entry.ttlSeconds + 1) * NANOS)
  {
  }

  datatype Tiers = Tiers(memory: map<Hash, CacheEntry>, disk: Fifo)

  /** The clock is read once for each tier that is asked. */
  function LookUp(t: Tiers, h: Hash, first: nat, second: nat): (Tiers, ReadResult) {
    if h in t.memory && !Expired(t.memory[h], first) then (t, Hit(t.memory[h]))
    else
      var memory := t.memory - {h};
      match (if h in t.disk.slots then t.disk.slots[h].content else Miss)
      case Miss => (Tiers(memory, t.disk), Miss)
      case Corrupt => (Tiers(memory, t.disk), Corrupt)
      case Hit(entry) =>
        if Expired(entry, second) then (Tiers(memory, Remove(t.disk, h)), Miss)
        else (Tiers(memory[h := entry], t.disk), Hit(entry))
  }

  function Store(t: Tiers, max: nat, h: Hash, entry: CacheEntry, diskSize: nat, now: nat): Tiers {
    Tiers(t.memory[h := entry],
          if SizeOfEntry(entry) > LARGE then Fifos.Put(t.disk, max, h, Slot(Hit(entry), diskSize, now)) else t.disk)
  }

  class TieredCache {
    var memory: map<Hash, CacheEntry>
    const disk: DiskCache

    ghost predicate Valid()
      reads this, disk, disk.fs
    {
      disk.Valid()
    }

    ghost function Contents(): Tiers
      reads this, disk, disk.fs
    {
      Tiers(memory, disk.Contents())
    }

    constructor (disk: DiskCache)
      requires disk.Valid()
      ensures Valid() && this.disk == disk && Contents() == Tiers(map[], disk.Contents())
    {
      this.disk, memory := disk, map[];
    }

    method Get(h: Hash, first: nat, second: nat) returns (r: ReadResult)
      requires Valid()
      modifies this, disk, disk.fs
      ensures Valid()
      ensures (Contents(), r) == LookUp(old(Contents()), h, first, second)
    {
      hide Layout, NonEmpty, Faithful, View, Remove;
      if h in memory {
        var entry := memory[h];
        if !Expired(entry, first) { return Hit(entry); }
        memory := memory - {h};
      }
      assert memory == old(memory) - {h};
      r := disk.Get(h);
      if r.Hit? {
        if !Expired(r.entry, second) {
          memory := memory[h := r.entry];
          return;
        }
        disk.RemoveKey(h);
        r := Miss;
      }
    }

    /** The memory tier lets go of an entry, whenever it likes. */
    method Forget(h: Hash)
      requires Valid()
      modifies this`memory
      ensures Valid() && Contents() == old(Contents()).(memory := old(memory) - {h})
    {
      memory := memory - {h};
    }

    method Put(h: Hash, entry: CacheEntry, now: nat)
      requires Valid()
      modifies this, disk, disk.fs
      ensures Valid()
      ensures Contents() == Store(old(Contents()), disk.maxSize, h, entry,
                |disk.codec.encode(MetadataOf(entry))| + |entry.data|, now)
    {
      hide Fifos.Put, DiskCache.Valid, DiskCache.Contents, SizeOfEntry;
      if SizeOfEntry(entry) > LARGE {
        disk.Put(h, entry, now);
      }
      memory := memory[h := entry];
    }
  }

  // ---------------------------------------------------------------- runs

  datatype Event =
    | Get(h: Hash, first: nat, second: nat)
    | Put(h: Hash, entry: CacheEntry, diskSize: nat, mtime: nat)
    | Forget(h: Hash)                // the memory tier drops an entry
    | Restart(order: seq<Hash>)      // only the disk tier survives, its order may change

  function Apply(t: Tiers, max: nat, e: Event): Tiers {
    match e
    case Get(h, first, second) => LookUp(t, h, first, second).0
    case Put(h, entry, diskSize, mtime) => Store(t, max, h, entry, diskSize, mtime)
    case Forget(h) => t.(memory := t.memory - {h})
    case Restart(order) => Tiers(map[], Fifo(order, t.disk.slots))
  }

  function Before(events: seq<Event>): seq<Event>
    requires events != []
  {
    events[..|events| - 1]
  }

  /** The tiers after all events, starting empty. */
  function After(max: nat, events: seq<Event>): Tiers {
    if events == [] then Tiers(map[], Fifo([], map[])) else Apply(After(max, Before(events)), max, Last(events))
  }

  function LastPut(events: seq<Event>, h: Hash): Option<CacheEntry> {
    if events == [] then None
    else if Last(events).Put? && Last(events).h == h then Some(Last(events).entry)
    else LastPut(Before(events), h)
  }

  /** Event `i` looked for the key and found nothing. */
  predicate MissAt(max: nat, events: seq<Event>, h: Hash, i: nat)
    requires i < |events|
  {
    && events[i].Get? && events[i].h == h
    && LookUp(After(max, events[..i]), h, events[i].first, events[i].second).1.Miss?
  }

  /** There was a miss for the key, and no put of it since. */
  ghost predicate MissPending(max: nat, events: seq<Event>, h: Hash) {
    exists i :: 0 <= i < |events| && MissAt(max, events, h, i)
                && forall j :: i < j < |events| && events[j].Put? ==> events[j].h != h
  }

  /**
   Every put of a key follows a miss for it with no put between, and a restart
   finds the entries of the disk tier again.
   */
  ghost predicate Disciplined(max: nat, events: seq<Event>) {
    forall i :: 0 <= i < |events| ==>
      && (events[i].Put? ==> MissPending(max, events[..i], events[i].h))
      && (events[i].Restart? ==> Fifo(events[i].order, After(max, events[..i]).disk.slots).Ok())
  }

  /** Whatever holds the key holds what was put last; only large entries are on disk. */
  ghost predicate HoldsLastPut(t: Tiers, h: Hash, last: Option<CacheEntry>) {
    && (h in t.memory ==> last == Some(t.memory[h]))
    && (h in t.disk.slots ==>
          last.Some? && t.disk.slots[h].content == Hit(last.value) && SizeOfEntry(last.value) > LARGE)
  }

  /** A miss that is still pending was about the last event or was pending before it. */
  lemma MissPendingBefore(max: nat, events: seq<Event>, h: Hash)
    requires events != [] && MissPending(max, events, h)
    ensures !(Last(events).Put? && Last(events).h == h)
    ensures MissPending(max, Before(events), h) || MissAt(max, events, h, |events| - 1)
  {
    var i :| 0 <= i < |events| && MissAt(max, events, h, i)
             && forall j :: i < j < |events| && events[j].Put? ==> events[j].h != h;
    if i < |events| - 1 {
      var before := Before(events);
      assert before[..i] == events[..i];
      assert MissAt(max, before, h, i);
    }
  }

  lemma DisciplinedBefore(max: nat, events: seq<Event>)
    requires events != [] && Disciplined(max, events)
    ensures Disciplined(max, Before(events))
  {
    var before := Before(events);
    forall i | 0 <= i < |before|
      ensures before[i] == events[i] && before[..i] == events[..i]
    {
    }
  }

  /** One event keeps one key right, if a put finds the key in neither tier. */
  lemma EventKeepsKey(t: Tiers, max: nat, e: Event, h: Hash, last: Option<CacheEntry>)
    requires HoldsLastPut(t, h, last)
    requires e.Put? && e.h == h ==> h !in t.memory && h !in t.disk.slots
    ensures HoldsLastPut(Apply(t, max, e), h, if e.Put? && e.h == h then Some(e.entry) else last)
  {
  }

  /** A key in neither tier only comes back by a put. */
  lemma AbsentStaysAbsent(t: Tiers, max: nat, e: Event, h: Hash)
    requires h !in t.memory && h !in t.disk.slots && !(e.Put? && e.h == h)
    ensures h !in Apply(t, max, e).memory && h !in Apply(t, max, e).disk.slots
  {
  }

  /** The invariant of disciplined runs. */
  lemma {:induction false} RunIsCoherent(max: nat, events: seq<Event>, h: Hash)
    requires Disciplined(max, events)
    ensures HoldsLastPut(After(max, events), h, LastPut(events, h))
    ensures MissPending(max, events, h) ==>
              h !in After(max, events).memory && h !in After(max, events).disk.slots
  {
    if events == [] {
    } else {
      hide Apply, LookUp, Disciplined, MissPending;
      var before, e := Before(events), Last(events);
      var t := After(max, before);
      DisciplinedBefore(max, events);
      RunIsCoherent(max, before, h);
      if e.Put? { PutHasMiss(max, events); }
      EventKeepsKey(t, max, e, h, LastPut(before, h));
      if MissPending(max, events, h) {
        MissPendingBefore(max, events, h);
        if MissPending(max, before, h) {
          AbsentStaysAbsent(t, max, e, h);
        } else {
          MissLeavesNothing(t, h, LastPut(before, h), e.first, e.second);
          ApplyGet(t, max, e);
        }
      }
    }
  }

  lemma PutHasMiss(max: nat, events: seq<Event>)
    requires events != [] && Disciplined(max, events) && Last(events).Put?
    ensures MissPending(max, Before(events), Last(events).h)
  {
  }

  lemma ApplyGet(t: Tiers, max: nat, e: Event)
    requires e.Get?
    ensures Apply(t, max, e) == LookUp(t, e.h, e.first, e.second).0
  {
  }

  lemma MissLeavesNothing(t: Tiers, h: Hash, last: Option<CacheEntry>, first: nat, second: nat)
    requires HoldsLastPut(t, h, last) && LookUp(t, h, first, second).1.Miss?
    ensures h !in LookUp(t, h, first, second).0.memory && h !in LookUp(t, h, first, second).0.disk.slots
  {
  }

  /**
   After any disciplined run a look-up gives the entry that was put last, not
   expired when it was checked, or nothing.
   */
  lemma GetIsLastPut(max: nat, events: seq<Event>, h: Hash, first: nat, second: nat)
    requires Disciplined(max, events)
    ensures
      var r := LookUp(After(max, events), h, first, second).1;
      && !r.Corrupt?
      && (r.Hit? ==> LastPut(events, h) == Some(r.entry)
                     && (!Expired(r.entry, first) || !Expired(r.entry, second)))
  {
    RunIsCoherent(max, events, h);
  }

  // ---------------------------------------------------------------- what a look-up must find

  /** A look-up hits exactly if a tier holds the key unexpired when that tier is asked; memory goes first. */
  lemma HitsExactly(t: Tiers, h: Hash, first: nat, second: nat)
    ensures
      var r := LookUp(t, h, first, second).1;
      var inMemory := h in t.memory && !Expired(t.memory[h], first);
      var onDisk := h in t.disk.slots && t.disk.slots[h].content.Hit?
                    && !Expired(t.disk.slots[h].content.entry, second);
      && (r.Hit? <==> inMemory || onDisk)
      && (inMemory ==> r == Hit(t.memory[h]))
      && (!inMemory && onDisk ==> r == t.disk.slots[h].content)
      && (r.Corrupt? <==> !inMemory && h in t.disk.slots && t.disk.slots[h].content.Corrupt?)
  {
  }

  /** A hit leaves the entry in memory and the disk as it was; a miss only removes what expired; other keys stay. */
  lemma LookUpEffect(t: Tiers, h: Hash, first: nat, second: nat)
    ensures
      var (u, r) := LookUp(t, h, first, second);
      && (r.Hit? ==> u.disk == t.disk && h in u.memory && u.memory[h] == r.entry)
      && (forall k :: k != h ==> (k in u.memory <==> k in t.memory) && (k in u.disk.slots <==> k in t.disk.slots))
      && (forall k :: k != h && k in t.memory ==> u.memory[k] == t.memory[k])
      && (forall k :: k != h && k in t.disk.slots ==> u.disk.slots[k] == t.disk.slots[k])
      && (h in t.memory && h !in u.memory ==> Expired(t.memory[h], first))
      && (h in t.disk.slots && h !in u.disk.slots ==>
            t.disk.slots[h].content.Hit? && Expired(t.disk.slots[h].content.entry, second))
  {
  }

  /** Every put is in memory, and on disk too exactly if it is large and fits; other keys stay in memory. */
  lemma StoreEffect(t: Tiers, max: nat, h: Hash, entry: CacheEntry, diskSize: nat, now: nat)
    ensures
      var u := Store(t, max, h, entry, diskSize, now);
      && h in u.memory && u.memory[h] == entry
      && (forall k :: k != h ==> (k in u.memory <==> k in t.memory))
      && (forall k :: k != h && k in t.memory ==> u.memory[k] == t.memory[k])
      && (SizeOfEntry(entry) > 1_048_576 && diskSize <= max ==>
            h in u.disk.slots && u.disk.slots[h].content == Hit(entry))
      && (SizeOfEntry(entry) <= 1_048_576 || diskSize > max ==> u.disk == t.disk)
  {
  }

  /** The size of an entry: its data, its fields with 48 bytes each, and 64 bytes. */
  lemma {:induction false} SizeAdds(data: Bytes, headers: seq<(string, string)>, field: (string, string), e: CacheEntry)
    requires e.data == data && e.headers == headers + [field]
    ensures SizeOfEntry(e) == SizeOfEntry(e.(headers := headers)) + |field.0| + |field.1| + 48
    ensures SizeOfEntry(e.(headers := [])) == |data| + 64
    decreases headers
  {
    if headers == [] {
      assert (headers + [field])[1..] == [];
    } else {
      assert (headers + [field])[1..] == headers[1..] + [field];
      SizeAdds(data, headers[1..], field, e.(headers := headers[1..] + [field]));
    }
  }

  /** What was just put is found, small or large, as long as it is not expired. */
  lemma PutIsFound(t: Tiers, max: nat, h: Hash, entry: CacheEntry, diskSize: nat, now: nat, first: nat, second: nat)
    requires !Expired(entry, first)
    ensures LookUp(Store(t, max, h, entry, diskSize, now), h, first, second).1 == Hit(entry)
  {
    StoreEffect(t, max, h, entry, diskSize, now);
    HitsExactly(Store(t, max, h, entry, diskSize, now), h, first, second);
  }

  /** As long as time runs forward from when it was made, an entry that is good was good before. */
  lemma GoodBefore(entry: CacheEntry, earlier: nat, now: nat)
    requires entry.timestamp <= earlier <= now && !Expired(entry, now)
    ensures !Expired(entry, earlier)
  {
    ExpiredExactly(entry, earlier);
    ExpiredExactly(entry, now);
  }

  /** The event neither replaces the entry of the key nor drops it from memory. */
  predicate Spares(e: Event, h: Hash, entry: CacheEntry, now: nat) {
    match e
    case Get(k, first, _) => k == h ==> entry.timestamp <= first <= now
    case Put(k, _, _, _) => k != h
    case Forget(k) => k != h
    case Restart(_) => false
  }

  lemma SparedStays(t: Tiers, max: nat, e: Event, h: Hash, entry: CacheEntry, now: nat)
    requires h in t.memory && t.memory[h] == entry && !Expired(entry, now) && Spares(e, h, entry, now)
    ensures h in Apply(t, max, e).memory && Apply(t, max, e).memory[h] == entry
  {
    if e.Get? {
      if e.h == h { GoodBefore(entry, e.first, now); }
      LookUpEffect(t, e.h, e.first, e.second);
      HitsExactly(t, e.h, e.first, e.second);
    }
  }

  lemma {:induction false} PutStays(max: nat, events: seq<Event>, i: nat, now: nat)
    requires i < |events| && events[i].Put? && !Expired(events[i].entry, now)
    requires forall j :: i < j < |events| ==> Spares(events[j], events[i].h, events[i].entry, now)
    ensures events[i].h in After(max, events).memory
    ensures After(max, events).memory[events[i].h] == events[i].entry
  {
    var before, e := Before(events), Last(events);
    if i == |events| - 1 {
      StoreEffect(After(max, before), max, e.h, e.entry, e.diskSize, e.mtime);
    } else {
      assert before[i] == events[i];
      PutStays(max, before, i, now);
      assert Spares(e, events[i].h, events[i].entry, now);
      hide Apply, Spares;
      SparedStays(After(max, before), max, e, events[i].h, events[i].entry, now);
    }
  }

  /**
   Over every run: what was put is found again until it expires, as long as nothing
   is put over it and memory keeps it, whatever happens to other keys.
   */
  lemma PutIsFoundLater(max: nat, events: seq<Event>, i: nat, now: nat, second: nat)
    requires i < |events| && events[i].Put? && !Expired(events[i].entry, now)
    requires forall j :: i < j < |events| ==> Spares(events[j], events[i].h, events[i].entry, now)
    ensures LookUp(After(max, events), events[i].h, now, second).1 == Hit(events[i].entry)
  {
    PutStays(max, events, i, now);
    HitsExactly(After(max, events), events[i].h, now, second);
  }

  // ---------------------------------------------------------------- without any discipline

  /** Some put of the key put this entry. */
  ghost predicate WasPut(events: seq<Event>, h: Hash, entry: CacheEntry) {
    exists i :: 0 <= i < |events| && events[i].Put? && events[i].h == h && events[i].entry == entry
  }

  lemma WasPutBefore(events: seq<Event>, h: Hash, entry: CacheEntry)
    requires events != [] && WasPut(Before(events), h, entry)
    ensures WasPut(events, h, entry)
  {
    var i :| 0 <= i < |Before(events)| && Before(events)[i].Put? && Before(events)[i].h == h
             && Before(events)[i].entry == entry;
    assert events[i] == Before(events)[i];
  }

  /** What an event leaves of a key was there before or is what it puts. */
  lemma EventAddsOnlyPuts(t: Tiers, max: nat, e: Event, h: Hash)
    requires h in t.disk.slots ==> t.disk.slots[h].content.Hit?
    ensures
      var u := Apply(t, max, e);
      && (h in u.memory ==>
            || (h in t.memory && u.memory[h] == t.memory[h])
            || (h in t.disk.slots && Hit(u.memory[h]) == t.disk.slots[h].content)
            || (e.Put? && e.h == h && u.memory[h] == e.entry))
      && (h in u.disk.slots ==>
            || (h in t.disk.slots && u.disk.slots[h].content == t.disk.slots[h].content)
            || (e.Put? && e.h == h && u.disk.slots[h].content == Hit(e.entry)))
  {
  }

  /**
   Over every run, with racing misses, forgetting and restarts in any order: what
   either tier holds for a key was put for that key, whole and unchanged.
   */
  lemma {:induction false} HeldWasPut(max: nat, events: seq<Event>, h: Hash)
    ensures
      var t := After(max, events);
      && (h in t.memory ==> WasPut(events, h, t.memory[h]))
      && (h in t.disk.slots ==> t.disk.slots[h].content.Hit? && WasPut(events, h, t.disk.slots[h].content.entry))
  {
    if events != [] {
      hide Apply, WasPut;
      var before, e := Before(events), Last(events);
      var t := After(max, before);
      HeldWasPut(max, before, h);
      EventAddsOnlyPuts(t, max, e, h);
      if h in t.memory { WasPutBefore(events, h, t.memory[h]); }
      if h in t.disk.slots { WasPutBefore(events, h, t.disk.slots[h].content.entry); }
      if e.Put? { LastWasPut(events); }
    }
  }

  lemma LastWasPut(events: seq<Event>)
    requires events != [] && Last(events).Put?
    ensures WasPut(events, Last(events).h, Last(events).entry)
  {
    assert events[|events| - 1] == Last(events);
  }

  /** So a look-up gives an entry that was put for the key and is not expired, or nothing. */
  lemma GetWasPut(max: nat, events: seq<Event>, h: Hash, first: nat, second: nat)
    ensures
      var r := LookUp(After(max, events), h, first, second).1;
      && !r.Corrupt?
      && (r.Hit? ==> WasPut(events, h, r.entry) && (!Expired(r.entry, first) || !Expired(r.entry, second)))
  {
    hide After, WasPut;
    HeldWasPut(max, events, h);
  }

  // ---------------------------------------------------------------- without the miss

  /** A put that finds the tiers right leaves them right exactly if no other entry stays on disk. */
  lemma PutIsCoherentExactly(
    t: Tiers, max: nat, h: Hash, last: Option<CacheEntry>, entry: CacheEntry, diskSize: nat, now: nat)
    requires HoldsLastPut(t, h, last)
    ensures HoldsLastPut(Store(t, max, h, entry, diskSize, now), h, Some(entry))
       <==> (h !in t.disk.slots || last == Some(entry) || (SizeOfEntry(entry) > LARGE && diskSize <= max))
  {
  }

  /** Otherwise the older entry is served again once the memory tier has dropped the newer one. */
  lemma OlderEntryReturns(
    t: Tiers, max: nat, h: Hash, last: Option<CacheEntry>, entry: CacheEntry, diskSize: nat, now: nat,
    first: nat, second: nat)
    requires HoldsLastPut(t, h, last)
    requires !HoldsLastPut(Store(t, max, h, entry, diskSize, now), h, Some(entry))
    requires last.Some? && !Expired(last.value, second)
    ensures
      var after := Apply(Store(t, max, h, entry, diskSize, now), max, Forget(h));
      LookUp(after, h, first, second).1 == Hit(last.value) && last.value != entry
  {
    PutIsCoherentExactly(t, max, h, last, entry, diskSize, now);
  }

  lemma AfterStep(max: nat, events: seq<Event>, n: nat)
    requires n < |events|
    ensures After(max, events[..n + 1]) == Apply(After(max, events[..n]), max, events[n])
  {
    assert Before(events[..n + 1]) == events[..n];
  }

  /**
   Two requests that both miss before either stores its response are enough: a
   large response stored first outlives a small one stored second.
   */
  lemma RacingMissesServeTheOlder(
    max: nat, h: Hash, large: CacheEntry, small: CacheEntry, diskSize: nat, now: nat)
    requires SizeOfEntry(large) > LARGE >= SizeOfEntry(small) && diskSize <= max
    requires !Expired(large, now)
    ensures
      var look := Get(h, now, now);
      var run := [look, look, Put(h, large, diskSize, now), Put(h, small, diskSize, now), Forget(h)];
      && LookUp(After(max, run), h, now, now).1 == Hit(large)
      && LastPut(run, h) == Some(small)
      && !Disciplined(max, run)
  {
    var look := Get(h, now, now);
    var run := [look, look, Put(h, large, diskSize, now), Put(h, small, diskSize, now), Forget(h)];
    var empty := Tiers(map[], Fifo([], map[]));
    assert Apply(empty, max, look) == empty by {
      assert empty.memory - {h} == empty.memory;
    }
    AfterStep(max, run, 0);
    AfterStep(max, run, 1);
    AfterStep(max, run, 2);
    AfterStep(max, run, 3);
    AfterStep(max, run, 4);
    assert run[..5] == run && Before(run) == run[..4] && Last(run[..4]) == run[3];
    OlderEntryReturns(After(max, run[..3]), max, h, Some(large), small, diskSize, now, now, now);
    if Disciplined(max, run) {
      GetIsLastPut(max, run, h, now, now);
    }
  }
}
