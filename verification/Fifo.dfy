/** A bounded first-in first-out map: what the disk cache is meant to be. */
module Fifos {
  import opened Common
  import opened Files

  type Hash = string

  /** What reading an entry gives. */
  datatype ReadResult = Hit(entry: CacheEntry) | Miss | Corrupt

  datatype Slot = Slot(content: ReadResult, size: nat, mtime: nat)

  datatype Fifo = Fifo(order: seq<Hash>, slots: map<Hash, Slot>)
  {
    ghost predicate Ok() {
      NoDup(order) && forall h :: h in slots <==> h in order
    }

    function Bytes(): nat { Sum(order, slots) }
  }

  function SizeOf(slots: map<Hash, Slot>, h: Hash): nat {
    if h in slots then slots[h].size else 0
  }

  function Sum(order: seq<Hash>, slots: map<Hash, Slot>): nat {
    if order == [] then 0 else SizeOf(slots, order[0]) + Sum(order[1..], slots)
  }

  /** What is left after dropping entries from the front until `total` is down to `target`. */
  function KeptFrom(order: seq<Hash>, slots: map<Hash, Slot>, total: nat, target: nat): (kept: seq<Hash>)
    ensures |kept| <= |order|
  {
    if total <= target || order == [] then order
    else
      var size := SizeOf(slots, order[0]);
      KeptFrom(order[1..], slots, if total >= size then total - size else 0, target)
  }

  function Without(order: seq<Hash>, h: Hash): seq<Hash> {
    if order == [] then []
    else (if order[0] == h then [] else [order[0]]) + Without(order[1..], h)
  }

  function Restricted(slots: map<Hash, Slot>, order: seq<Hash>): map<Hash, Slot> {
    map h | h in slots && h in order :: slots[h]
  }

  function Kept(f: Fifo, target: nat): seq<Hash> {
    KeptFrom(f.order, f.slots, f.Bytes(), target)
  }

  function Evicted(f: Fifo, target: nat): Fifo {
    Fifo(Kept(f, target), Restricted(f.slots, Kept(f, target)))
  }

  function Remove(f: Fifo, h: Hash): Fifo {
    Fifo(Without(f.order, h), f.slots - {h})
  }

  /** The key goes to the back with its new slot. */
  function Replaced(f: Fifo, h: Hash, slot: Slot): Fifo {
    Fifo(Remove(f, h).order + [h], Remove(f, h).slots[h := slot])
  }

  /** An entry that fits pushes out just enough old ones and goes to the back. */
  function Put(f: Fifo, max: nat, h: Hash, slot: Slot): Fifo {
    if slot.size > max then f else Replaced(Evicted(f, max - slot.size), h, slot)
  }

  // ---------------------------------------------------------------- sums and orders

  lemma {:induction false} SumAppend(a: seq<Hash>, b: seq<Hash>, slots: map<Hash, Slot>)
    ensures Sum(a + b, slots) == Sum(a, slots) + Sum(b, slots)
  {
    if a == [] {
      assert a + b == b;
    } else {
      assert (a + b)[1..] == a[1..] + b;
      SumAppend(a[1..], b, slots);
    }
  }

  lemma {:induction false} SumAgrees(order: seq<Hash>, a: map<Hash, Slot>, b: map<Hash, Slot>)
    requires forall h :: h in order ==> SizeOf(a, h) == SizeOf(b, h)
    ensures Sum(order, a) == Sum(order, b)
  {
    if order == [] {
    } else {
      assert order[0] in order;
      SumAgrees(order[1..], a, b);
    }
  }

  lemma {:induction false} WithoutMembers(order: seq<Hash>, h: Hash)
    ensures forall k :: k in Without(order, h) <==> k in order && k != h
    ensures NoDup(order) ==> NoDup(Without(order, h))
  {
    if order == [] {
    } else {
      WithoutMembers(order[1..], h);
      assert order == [order[0]] + order[1..];
      if NoDup(order) && order[0] != h {
        var rest := Without(order[1..], h);
        assert order[0] !in order[1..];
        assert NoDup([order[0]] + rest);
      }
    }
  }

  lemma {:induction false} WithoutAbsent(order: seq<Hash>, h: Hash)
    requires h !in order
    ensures Without(order, h) == order
  {
    if order == [] {
    } else {
      assert order[0] in order;
      WithoutAbsent(order[1..], h);
    }
  }

  lemma {:induction false} SumWithout(order: seq<Hash>, slots: map<Hash, Slot>, h: Hash)
    requires NoDup(order)
    ensures Sum(Without(order, h), slots) + (if h in order then SizeOf(slots, h) else 0) == Sum(order, slots)
  {
    if order == [] {
    } else {
      assert order == [order[0]] + order[1..];
      assert order[0] !in order[1..];
      SumWithout(order[1..], slots, h);
      if order[0] == h {
        assert [] + Without(order[1..], h) == Without(order[1..], h);
      } else {
        SumAppend([order[0]], Without(order[1..], h), slots);
      }
    }
  }

  // ---------------------------------------------------------------- what a put does

  /**
   What is kept is a suffix, and the evicted prefix is the shortest one that makes
   room: every shorter one leaves more bytes than the new entry allows for.
   */
  lemma {:induction false} EvictsShortestPrefix(order: seq<Hash>, slots: map<Hash, Slot>, target: nat)
    ensures
      var kept := KeptFrom(order, slots, Sum(order, slots), target);
      var n := |order| - |kept|;
      && kept == order[n..] && Sum(kept, slots) <= target
      && forall k :: 0 <= k < n ==> Sum(order[k..], slots) > target
  {
    if Sum(order, slots) <= target || order == [] {
    } else {
      EvictsShortestPrefix(order[1..], slots, target);
      var kept := KeptFrom(order, slots, Sum(order, slots), target);
      var n := |order| - |kept|;
      assert order[n..] == order[1..][n - 1..];
      forall k | 0 <= k < n
        ensures Sum(order[k..], slots) > target
      {
        if k > 0 { assert order[k..] == order[1..][k - 1..]; } else { assert order[0..] == order; }
      }
    }
  }

  /** An accepted put leaves a well-formed map within the bound, even if it started above it. */
  lemma PutWithinBound(f: Fifo, max: nat, h: Hash, slot: Slot)
    requires f.Ok() && slot.size <= max
    ensures Put(f, max, h, slot).Ok() && Put(f, max, h, slot).Bytes() <= max
  {
    KeptIsSuffix(f, max - slot.size);
    KeptAndMoved(Kept(f, max - slot.size), f.slots, h, slot);
  }

  lemma KeptIsSuffix(f: Fifo, target: nat)
    requires f.Ok()
    ensures Sum(Kept(f, target), f.slots) <= target
    ensures NoDup(Kept(f, target)) && forall k :: k in Kept(f, target) ==> k in f.slots
  {
    EvictsShortestPrefix(f.order, f.slots, target);
    SuffixOk(f, |f.order| - |Kept(f, target)|);
  }

  /** Eviction leaves room for the new entry. */
  lemma EvictedFits(f: Fifo, target: nat)
    ensures Evicted(f, target).Bytes() <= target
  {
    EvictsShortestPrefix(f.order, f.slots, target);
    RestrictedSum(Kept(f, target), f.slots);
  }

  lemma RestrictedSum(order: seq<Hash>, slots: map<Hash, Slot>)
    ensures Sum(order, Restricted(slots, order)) == Sum(order, slots)
  {
    SumAgrees(order, Restricted(slots, order), slots);
  }

  lemma SuffixOk(f: Fifo, n: nat)
    requires f.Ok() && n <= |f.order|
    ensures NoDup(f.order[n..])
    ensures forall k :: k in f.order[n..] ==> k in f.slots
  {
    forall k | k in f.order[n..]
      ensures k in f.slots
    {
      assert k in f.order;
    }
  }

  lemma KeptAndMoved(kept: seq<Hash>, slots: map<Hash, Slot>, h: Hash, slot: Slot)
    requires NoDup(kept) && forall k :: k in kept ==> k in slots
    ensures
      var after := Replaced(Fifo(kept, Restricted(slots, kept)), h, slot);
      after.Ok() && after.Bytes() <= Sum(kept, slots) + slot.size
  {
    var rest := Without(kept, h);
    var after := Replaced(Fifo(kept, Restricted(slots, kept)), h, slot);
    assert after.Ok() by {
      WithoutMembers(kept, h);
      NoDupSnoc(rest, h);
    }
    assert Sum(rest, after.slots) <= Sum(kept, slots) by {
      WithoutMembers(kept, h);
      SumWithout(kept, slots, h);
      SumAgrees(rest, slots, after.slots);
    }
    SumSnoc(rest, h, after.slots);
  }

  lemma SumSnoc(order: seq<Hash>, h: Hash, slots: map<Hash, Slot>)
    ensures Sum(order + [h], slots) == Sum(order, slots) + SizeOf(slots, h)
  {
    SumAppend(order, [h], slots);
    assert [h][1..] == [];
  }

  /** The key goes to the back, the survivors keep their order and their slots, the prefix is gone. */
  lemma PutEffect(f: Fifo, max: nat, h: Hash, slot: Slot)
    requires f.Ok() && slot.size <= max
    ensures
      var kept, after := Kept(f, max - slot.size), Put(f, max, h, slot);
      && after.order == Without(kept, h) + [h]
      && h in after.slots && after.slots[h] == slot
      && (forall k :: k in kept && k != h ==> k in after.slots && after.slots[k] == f.slots[k])
      && (forall k :: k in f.slots && k !in kept && k != h ==> k !in after.slots)
  {
    KeptIsSuffix(f, max - slot.size);
  }

  /** A put that is rejected changes nothing: every key keeps its slot and its place. */
  lemma RejectedPutChangesNothing(f: Fifo, max: nat, h: Hash, slot: Slot)
    requires slot.size > max
    ensures
      var after := Put(f, max, h, slot);
      && after.order == f.order
      && (forall k :: k in after.slots <==> k in f.slots)
      && (forall k :: k in f.slots ==> after.slots[k] == f.slots[k])
  {
  }

  /** A removal takes the key out and leaves every other its slot and its place. */
  lemma RemoveEffect(f: Fifo, before: seq<Hash>, h: Hash, behind: seq<Hash>)
    requires f.Ok() && f.order == before + [h] + behind
    ensures
      var after := Remove(f, h);
      && after.order == before + behind && h !in after.slots
      && (forall k :: k != h ==> (k in after.slots <==> k in f.slots))
      && (forall k :: k != h && k in f.slots ==> after.slots[k] == f.slots[k])
  {
    assert h !in before && h !in behind by {
      assert f.order[|before|] == h;
      assert forall i :: 0 <= i < |before| ==> f.order[i] == before[i];
      assert forall i :: 0 <= i < |behind| ==> f.order[|before| + 1 + i] == behind[i];
    }
    WithoutPart(before, h, behind);
  }

  lemma {:induction false} WithoutPart(before: seq<Hash>, h: Hash, behind: seq<Hash>)
    requires h !in before && h !in behind
    ensures Without(before + [h] + behind, h) == before + behind
  {
    var all := before + [h] + behind;
    if before == [] {
      assert all[1..] == behind;
      WithoutAbsent(behind, h);
    } else {
      assert all[1..] == before[1..] + [h] + behind && all[0] == before[0];
      WithoutPart(before[1..], h, behind);
      assert [before[0]] + (before[1..] + behind) == before + behind;
    }
  }

  /** Removing a key that is not held changes nothing. */
  lemma RemoveAbsent(f: Fifo, h: Hash)
    requires f.Ok() && h !in f.slots
    ensures Remove(f, h).order == f.order && Remove(f, h).slots == f.slots
  {
    WithoutAbsent(f.order, h);
  }

  // ---------------------------------------------------------------- overwriting

  lemma NotInSuffix(order: seq<Hash>, i: nat, n: nat)
    requires NoDup(order) && i < n <= |order|
    ensures order[i] !in order[n..]
  {
  }

  /** What stands in the evicted prefix and is not the key itself is lost. */
  lemma PrefixIsLost(f: Fifo, max: nat, h: Hash, slot: Slot, i: nat)
    requires f.Ok() && slot.size <= max
    requires i < |f.order| - |Kept(f, max - slot.size)| && f.order[i] != h
    ensures f.order[i] in f.slots && f.order[i] !in Put(f, max, h, slot).slots
  {
    hide Put, KeptFrom, Sum;
    var kept := Kept(f, max - slot.size);
    assert kept == f.order[|f.order| - |kept|..] by { EvictsShortestPrefix(f.order, f.slots, max - slot.size); }
    hide Kept, NoDup;
    assert f.order[i] in f.order;
    NotInSuffix(f.order, i, |f.order| - |kept|);
    PutEffect(f, max, h, slot);
  }

  /** If nothing but the key is evicted, all others survive. */
  lemma OthersSurvive(f: Fifo, max: nat, h: Hash, slot: Slot)
    requires f.Ok() && slot.size <= max && f.order != []
    requires Kept(f, max - slot.size) == f.order || (f.order[0] == h && Kept(f, max - slot.size) == f.order[1..])
    ensures forall k :: k in f.slots && k != h ==> k in Put(f, max, h, slot).slots
  {
    hide Put, Kept;
    assert f.order == [f.order[0]] + f.order[1..];
    PutEffect(f, max, h, slot);
  }

  /** How far eviction goes, seen from the front. */
  lemma EvictedCount(f: Fifo, target: nat)
    requires f.order != []
    ensures
      var n := |f.order| - |Kept(f, target)|;
      && 0 <= n <= |f.order| && Kept(f, target) == f.order[n..]
      && (n > 0 <==> f.Bytes() > target)
      && (n > 1 <==> f.Bytes() > target && f.Bytes() - SizeOf(f.slots, f.order[0]) > target)
  {
    EvictsShortestPrefix(f.order, f.slots, target);
    assert f.order[0..] == f.order;
    var n := |f.order| - |Kept(f, target)|;
    assert n > 0 ==> Sum(f.order[0..], f.slots) > target;
    assert n > 1 ==> Sum(f.order[1..], f.slots) > target;
  }

  /**
   Overwriting an entry costs no other exactly if old and new fit side by side with
   the rest, or the old entry is the oldest and the rest leaves room for the new one.
   */
  lemma OverwriteKeepsOthersExactly(f: Fifo, max: nat, h: Hash, slot: Slot)
    requires f.Ok() && h in f.slots && slot.size <= max
    ensures (forall k :: k in f.slots && k != h ==> k in Put(f, max, h, slot).slots)
       <==> (f.Bytes() + slot.size <= max
             || (f.order[0] == h && f.Bytes() - f.slots[h].size + slot.size <= max))
  {
    hide Put, Kept, Sum;
    EvictedCount(f, max - slot.size);
    var n := |f.order| - |Kept(f, max - slot.size)|;
    assert n == 0 ==> f.order[n..] == f.order;
    if n == 0 || (n == 1 && f.order[0] == h) {
      OthersSurvive(f, max, h, slot);
    } else if f.order[0] != h {
      PrefixIsLost(f, max, h, slot, 0);
    } else {
      PrefixIsLost(f, max, h, slot, 1);
    }
  }

  /**
   So when the new entry fits once the old one is gone, no other entry is lost
   exactly if it also fits beside the old one, or the old one is the oldest.
   */
  lemma NeedlessLossExactly(f: Fifo, max: nat, h: Hash, slot: Slot)
    requires f.Ok() && h in f.slots && slot.size <= max
    requires f.Bytes() - f.slots[h].size + slot.size <= max
    ensures (forall k :: k in f.slots && k != h ==> k in Put(f, max, h, slot).slots)
       <==> (f.Bytes() + slot.size <= max || f.order[0] == h)
  {
    OverwriteKeepsOthersExactly(f, max, h, slot);
  }

  lemma RemoveKeepsOk(f: Fifo, h: Hash)
    requires f.Ok()
    ensures Remove(f, h).Ok() && Remove(f, h).Bytes() <= f.Bytes()
  {
    WithoutMembers(f.order, h);
    SumWithout(f.order, f.slots, h);
    SumAgrees(Without(f.order, h), f.slots, f.slots - {h});
  }

  // ---------------------------------------------------------------- runs

  datatype Op = PutOp(h: Hash, slot: Slot) | RemoveOp(h: Hash)

  function Apply(f: Fifo, max: nat, op: Op): Fifo {
    match op
    case PutOp(h, slot) => Put(f, max, h, slot)
    case RemoveOp(h) => Remove(f, h)
  }

  /** The state after all operations, starting empty. */
  function After(max: nat, ops: seq<Op>): Fifo {
    if ops == [] then Fifo([], map[]) else Apply(After(max, ops[..|ops| - 1]), max, Last(ops))
  }

  /** What a map without bound would hold for a key: its last accepted put, unless removed since. */
  function LastAccepted(max: nat, ops: seq<Op>, h: Hash): Option<Slot> {
    if ops == [] then None
    else if Last(ops).h == h && Last(ops).RemoveOp? then None
    else if Last(ops).h == h && Last(ops).slot.size <= max then Some(Last(ops).slot)
    else LastAccepted(max, ops[..|ops| - 1], h)
  }

  ghost predicate TimesIncrease(ops: seq<Op>) {
    forall i, j :: 0 <= i < j < |ops| && ops[i].PutOp? && ops[j].PutOp? ==>
      ops[i].slot.mtime < ops[j].slot.mtime
  }

  ghost predicate TimeOrdered(f: Fifo) {
    && (forall i :: 0 <= i < |f.order| ==> f.order[i] in f.slots)
    && forall i, j :: 0 <= i < j < |f.order| ==> f.slots[f.order[i]].mtime < f.slots[f.order[j]].mtime
  }

  /**
   Over every run: the order lists the held keys once each, the bound is kept,
   and a held key reads back its last accepted put.
   */
  lemma {:induction false} RunsRefineMap(max: nat, ops: seq<Op>)
    ensures After(max, ops).Ok() && After(max, ops).Bytes() <= max
    ensures forall h :: h in After(max, ops).slots ==>
              Some(After(max, ops).slots[h]) == LastAccepted(max, ops, h)
  {
    if ops == [] {
    } else {
      var before, op := After(max, ops[..|ops| - 1]), Last(ops);
      RunsRefineMap(max, ops[..|ops| - 1]);
      match op
      case PutOp(h, slot) =>
        if slot.size <= max {
          PutWithinBound(before, max, h, slot);
        }
      case RemoveOp(h) => RemoveKeepsOk(before, h);
    }
  }

  /** A new key for which there is room displaces nothing. */
  lemma PutThatFits(f: Fifo, max: nat, h: Hash, slot: Slot)
    requires f.Ok() && h !in f.slots && f.Bytes() + slot.size <= max
    ensures
      var after := Put(f, max, h, slot);
      after == Fifo(f.order + [h], f.slots[h := slot]) && after.Ok() && after.Bytes() == f.Bytes() + slot.size
  {
    hide Without, Sum;
    assert Kept(f, max - slot.size) == f.order;
    assert Restricted(f.slots, f.order) == f.slots;
    WithoutAbsent(f.order, h);
    assert f.slots - {h} == f.slots;
    NoDupSnoc(f.order, h);
    SumSnoc(f.order, h, f.slots[h := slot]);
    SumAgrees(f.order, f.slots[h := slot], f.slots);
  }

  lemma TwoPuts(max: nat, a: Hash, b: Hash, first: Slot, second: Slot)
    requires a != b && first.size + second.size <= max
    ensures
      var f := After(max, [PutOp(a, first), PutOp(b, second)]);
      f == Fifo([a, b], map[a := first, b := second]) && f.Ok() && f.Bytes() == first.size + second.size
  {
    hide Put, Sum;
    var ops := [PutOp(a, first), PutOp(b, second)];
    var empty := Fifo([], map[]);
    assert empty.Bytes() == 0 by { NoBytes(); }
    assert ops[..1] == [PutOp(a, first)] && ops[..1][..0] == [];
    assert After(max, ops[..1][..0]) == empty;
    assert After(max, ops[..1]) == Put(empty, max, a, first);
    assert After(max, ops) == Put(After(max, ops[..1]), max, b, second);
    PutThatFits(empty, max, a, first);
    PutThatFits(After(max, ops[..1]), max, b, second);
    assert [a] + [b] == [a, b];
  }

  lemma NoBytes()
    ensures Sum([], map[]) == 0
  {
  }

  /** A run in which overwriting the younger of two entries loses the older, though both would fit. */
  lemma OverwriteLosesNeighbour(max: nat, a: Hash, b: Hash, kept: Slot, before: Slot, after: Slot)
    requires a != b && kept.size + before.size <= max && kept.size + after.size <= max
    requires kept.size + before.size + after.size > max
    ensures
      var ops := [PutOp(a, kept), PutOp(b, before), PutOp(b, after)];
      LastAccepted(max, ops, a) == Some(kept) && a !in After(max, ops).slots
  {
    var ops := [PutOp(a, kept), PutOp(b, before), PutOp(b, after)];
    hide Put, Sum;
    assert ops[..2] == [PutOp(a, kept), PutOp(b, before)] && ops[..2][..1] == [PutOp(a, kept)];
    TwoPuts(max, a, b, kept, before);
    var f := After(max, ops[..2]);
    assert After(max, ops) == Put(f, max, b, after);
    assert LastAccepted(max, ops[..2][..1], a) == Some(kept) && LastAccepted(max, ops[..2], a) == Some(kept);
    NeedlessLossExactly(f, max, b, after);
  }

  /** The run without the puts that are rejected. */
  function Accepted(max: nat, ops: seq<Op>): seq<Op> {
    if ops == [] then []
    else
      Accepted(max, ops[..|ops| - 1])
      + if Last(ops).PutOp? && Last(ops).slot.size > max then [] else [Last(ops)]
  }

  /** Rejected puts leave no trace. */
  lemma {:induction false} RejectedPutsDoNotMatter(max: nat, ops: seq<Op>)
    ensures After(max, ops) == After(max, Accepted(max, ops))
  {
    if ops != [] {
      var before, op := ops[..|ops| - 1], Last(ops);
      RejectedPutsDoNotMatter(max, before);
      if op.PutOp? && op.slot.size > max {
        RejectedPutChangesNothing(After(max, before), max, op.h, op.slot);
        assert After(max, ops).slots == After(max, before).slots;
        assert Accepted(max, ops) == Accepted(max, before);
      } else {
        var kept := Accepted(max, before);
        assert (kept + [op])[..|kept|] == kept;
      }
    }
  }

  /** Operation `n` removes the key, or evicts it to make room for another entry that fits. */
  ghost predicate TakesAway(max: nat, ops: seq<Op>, n: nat, h: Hash)
    requires n < |ops|
  {
    match ops[n]
    case RemoveOp(k) => k == h
    case PutOp(k, slot) =>
      && k != h && slot.size <= max
      && MustGo(After(max, ops[..n]), h, max - slot.size)
  }

  /** The key has place `i`, and what stands from there on is too much. */
  predicate InTheWay(f: Fifo, i: nat, h: Hash, target: nat) {
    i < |f.order| && f.order[i] == h && Sum(f.order[i..], f.slots) > target
  }

  /** The key stands in the shortest prefix without which the rest is within the target. */
  ghost predicate MustGo(f: Fifo, h: Hash, target: nat) {
    exists i :: InTheWay(f, i, h, target)
  }

  /** A held key is lost by its removal, or because it stood in the shortest prefix that made room. */
  lemma LostForCause(max: nat, ops: seq<Op>, n: nat, h: Hash)
    requires n < |ops|
    requires h in After(max, ops[..n]).slots && h !in After(max, ops[..n + 1]).slots
    ensures TakesAway(max, ops, n, h)
  {
    var f := After(max, ops[..n]);
    RunsRefineMap(max, ops[..n]);
    assert ops[..n + 1][..n] == ops[..n];
    match ops[n]
    case RemoveOp(k) => if k != h { RemoveOther(f, k, h); }
    case PutOp(k, slot) =>
      if slot.size > max {
        RejectedPutChangesNothing(f, max, k, slot);
      } else {
        LostToPut(f, max, k, slot, h);
      }
  }

  lemma RemoveOther(f: Fifo, k: Hash, h: Hash)
    requires k != h && h in f.slots
    ensures h in Remove(f, k).slots
  {
  }

  lemma LostToPut(f: Fifo, max: nat, k: Hash, slot: Slot, h: Hash)
    requires f.Ok() && slot.size <= max && h in f.slots && h !in Put(f, max, k, slot).slots
    ensures k != h && MustGo(f, h, max - slot.size)
  {
    hide Put, KeptFrom, Sum;
    var kept := Kept(f, max - slot.size);
    var n := |f.order| - |kept|;
    EvictsShortestPrefix(f.order, f.slots, max - slot.size);
    var i :| 0 <= i < |f.order| && f.order[i] == h;
    if i >= n {
      assert kept[i - n] == h;
    }
    PutEffect(f, max, k, slot);
    assert InTheWay(f, i, h, max - slot.size);
  }

  lemma AcceptedIsHeld(max: nat, ops: seq<Op>)
    requires ops != [] && Last(ops).PutOp? && Last(ops).slot.size <= max
    ensures Last(ops).h in After(max, ops).slots
  {
    RunsRefineMap(max, ops[..|ops| - 1]);
    PutEffect(After(max, ops[..|ops| - 1]), max, Last(ops).h, Last(ops).slot);
  }

  /** Over every run: an accepted entry that is no longer there was taken away since. */
  lemma {:induction false} MissingForCause(max: nat, ops: seq<Op>, h: Hash)
    requires LastAccepted(max, ops, h).Some? && h !in After(max, ops).slots
    ensures exists n :: 0 <= n < |ops| && TakesAway(max, ops, n, h)
  {
    var n := |ops| - 1;
    assert ops[..n + 1] == ops;
    if h in After(max, ops[..n]).slots {
      LostForCause(max, ops, n, h);
    } else {
      if ops[n].PutOp? && ops[n].h == h && ops[n].slot.size <= max {
        AcceptedIsHeld(max, ops);
        assert false;
      }
      MissingForCause(max, ops[..n], h);
      var m :| 0 <= m < n && TakesAway(max, ops[..n], m, h);
      assert ops[..n][..m] == ops[..m] && TakesAway(max, ops, m, h);
    }
  }

  /** With increasing times, the order of entries is the order of the times of their last puts. */
  lemma {:induction false} RunsAreTimeOrdered(max: nat, ops: seq<Op>)
    requires TimesIncrease(ops)
    ensures TimeOrdered(After(max, ops))
  {
    if ops == [] {
    } else {
      var before, op := After(max, ops[..|ops| - 1]), Last(ops);
      RunsAreTimeOrdered(max, ops[..|ops| - 1]);
      RunsRefineMap(max, ops[..|ops| - 1]);
      match op
      case PutOp(h, slot) =>
        if slot.size <= max {
          forall k | k in before.slots
            ensures before.slots[k].mtime < slot.mtime
          {
            var i := AcceptedAt(max, ops[..|ops| - 1], k);
            assert ops[..|ops| - 1][i] == ops[i];
          }
          PutKeepsTimeOrder(before, max, h, slot);
        }
      case RemoveOp(h) => WithoutKeepsTimeOrder(before.order, before.slots, h);
        WithoutMembers(before.order, h);
    }
  }

  lemma {:induction false} AcceptedAt(max: nat, ops: seq<Op>, h: Hash) returns (i: nat)
    requires LastAccepted(max, ops, h).Some?
    ensures i < |ops| && ops[i].PutOp? && ops[i].slot == LastAccepted(max, ops, h).value
  {
    if Last(ops).h == h && Last(ops).PutOp? && Last(ops).slot.size <= max {
      i := |ops| - 1;
    } else {
      i := AcceptedAt(max, ops[..|ops| - 1], h);
    }
  }

  lemma {:induction false} WithoutKeepsTimeOrder(order: seq<Hash>, slots: map<Hash, Slot>, h: Hash)
    requires TimeOrdered(Fifo(order, slots))
    ensures TimeOrdered(Fifo(Without(order, h), slots))
  {
    if order == [] {
    } else {
      var rest := order[1..];
      assert TimeOrdered(Fifo(rest, slots));
      WithoutKeepsTimeOrder(rest, slots, h);
      WithoutMembers(rest, h);
      if order[0] != h {
        forall k | k in rest
          ensures slots[order[0]].mtime < slots[k].mtime
        {
          var j :| 0 <= j < |rest| && rest[j] == k;
          assert order[j + 1] == k;
        }
      }
    }
  }

  lemma PutKeepsTimeOrder(f: Fifo, max: nat, h: Hash, slot: Slot)
    requires f.Ok() && TimeOrdered(f) && slot.size <= max
    requires forall k :: k in f.slots ==> f.slots[k].mtime < slot.mtime
    ensures TimeOrdered(Put(f, max, h, slot))
  {
    hide TimeOrdered, KeptFrom, Without, Sum;
    EvictsShortestPrefix(f.order, f.slots, max - slot.size);
    SuffixKeepsTimeOrder(f, |f.order| - |Kept(f, max - slot.size)|);
    BackKeepsTimeOrder(Kept(f, max - slot.size), f.slots, h, slot);
  }

  lemma SuffixKeepsTimeOrder(f: Fifo, n: nat)
    requires TimeOrdered(f) && n <= |f.order|
    ensures TimeOrdered(Fifo(f.order[n..], f.slots))
  {
  }

  lemma BackKeepsTimeOrder(kept: seq<Hash>, slots: map<Hash, Slot>, h: Hash, slot: Slot)
    requires TimeOrdered(Fifo(kept, slots))
    requires forall k :: k in slots ==> slots[k].mtime < slot.mtime
    ensures TimeOrdered(Replaced(Fifo(kept, Restricted(slots, kept)), h, slot))
  {
    var rest := Without(kept, h);
    var after := Replaced(Fifo(kept, Restricted(slots, kept)), h, slot).slots;
    WithoutKeepsTimeOrder(kept, slots, h);
    WithoutMembers(kept, h);
    forall i | 0 <= i < |rest|
      ensures rest[i] in after && rest[i] in slots && after[rest[i]] == slots[rest[i]]
    {
      assert rest[i] in rest;
    }
  }
}
