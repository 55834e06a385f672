/** From the chunks of a download to the bytes a later cache hit serves. */
module EndToEnd {
  import opened Common
  import opened Streaming
  import opened Protocol
  import opened ProtocolInvariant
  import opened ProtocolTheorems
  import opened Fifos
  import Tiers

  /** The generation stored this entry for the key. */
  predicate StoredBy(s: State, g: nat, key: Key, entry: CacheEntry) {
    s.IsGen(g) && s.gens[g].key == key && s.gens[g].stored == Some(entry)
  }

  /** Within the limit, and its bytes, status and headers are those every cleanly ended client of the generation got. */
  ghost predicate SameForClients(s: State, g: nat, entry: CacheEntry)
    requires s.IsGen(g)
  {
    && |entry.data| <= s.maxBody
    && forall c: nat :: Joined(s, c) && s.clients[c].gen == g && s.clients[c].end.Clean() ==>
      && entry.data == Concat(s.clients[c].received)
      && s.gens[g].shared.meta == Some(Published(ResponseMeta(entry.status, entry.headers)))
  }

  lemma StoredIsSameForClients(s: State, g: nat, key: Key, entry: CacheEntry)
    requires Reachable(s) && StoredBy(s, g, key, entry)
    ensures SameForClients(s, g, entry)
  {
    assert |entry.data| <= s.maxBody by {
      ReachableInv(s);
      assert GenOk(s.gens[g], s.maxBody);
    }
    forall c: nat | Joined(s, c) && s.clients[c].gen == g && s.clients[c].end.Clean()
      ensures entry.data == Concat(s.clients[c].received)
           && s.gens[g].shared.meta == Some(Published(ResponseMeta(entry.status, entry.headers)))
    {
      StoredIsDelivered(s, g, c);
    }
  }

  /**
   Whatever downloads race, and in whatever order they miss, store and are
   forgotten: if all that was put for a key was stored by downloads of it, then a hit
   serves what one of these downloads stored, byte for byte what every client of it
   got that ended cleanly.
   */
  lemma HitServesSomeDownload(
    s: State, max: nat, events: seq<Tiers.Event>, key: Key, first: nat, second: nat)
    requires Reachable(s)
    requires forall i :: 0 <= i < |events| && events[i].Put? && events[i].h == key ==>
               exists g :: StoredBy(s, g, key, events[i].entry)
    ensures
      match Tiers.LookUp(Tiers.After(max, events), key, first, second).1
      case Hit(entry) => exists g :: StoredBy(s, g, key, entry) && SameForClients(s, g, entry)
      case Miss => true
      case Corrupt => false
  {
    hide Reachable, SameForClients, StoredBy;
    var r := Tiers.LookUp(Tiers.After(max, events), key, first, second).1;
    hide Tiers.LookUp;
    Tiers.GetWasPut(max, events, key, first, second);
    if r.Hit? {
      var i :| 0 <= i < |events| && events[i].Put? && events[i].h == key && events[i].entry == r.entry;
      var g :| StoredBy(s, g, key, events[i].entry);
      StoredIsSameForClients(s, g, key, r.entry);
    }
  }

  /**
   If moreover every put of a key follows a miss for it, the download is the last
   one that stored.
   */
  lemma HitServesWhatClientsGot(
    s: State, g: nat, c: nat, max: nat, events: seq<Tiers.Event>, first: nat, second: nat)
    requires Reachable(s) && s.IsGen(g) && s.gens[g].stored.Some?
    requires Joined(s, c) && s.clients[c].gen == g && s.clients[c].end.Clean()
    requires Tiers.Disciplined(max, events) && Tiers.LastPut(events, s.gens[g].key) == s.gens[g].stored
    ensures
      match Tiers.LookUp(Tiers.After(max, events), s.gens[g].key, first, second).1
      case Hit(entry) =>
        && entry.data == Concat(s.clients[c].received)
        && s.gens[g].shared.meta == Some(Published(ResponseMeta(entry.status, entry.headers)))
        && |entry.data| <= s.maxBody
      case Miss => true
      case Corrupt => false
  {
    Tiers.GetIsLastPut(max, events, s.gens[g].key, first, second);
    StoredIsDelivered(s, g, c);
  }
}
