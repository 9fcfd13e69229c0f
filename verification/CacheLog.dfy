/** The response cache as a log of updates: what a lookup answers depends only on the last
    update for its key. */
module CacheLog {
  import opened DnsTypes
  import opened ResponseCache
  import PacketDup

  function Last(log: seq<Update>, key: Key): Option<Update> {
    if log == [] then None
    else if log[|log| - 1].key == key then Some(log[|log| - 1])
    else Last(log[..|log| - 1], key)
  }

  /** The packet a lookup at time now has to answer with, if any. */
  function Answer(log: seq<Update>, key: Key, now: int, maxTtl: nat): Option<Packet> {
    match Last(log, key)
    case None => None
    case Some(u) =>
      if Ttl(u, maxTtl) != 0 && Expiry(u, maxTtl) > now then Some(PacketDup.Dup(u.pkt)) else None
  }

  datatype Lookup = Hit(entry: nat, cache: Cache) | Miss(cache: Cache)

  /** The first part of start_query: a live entry is retained for the callback, an expired
      one is dropped. */
  function Find(c: Cache, key: Key, now: int): Lookup
    requires WellLinked(c)
  {
    if key in c.table && c.entries[c.table[key]].expiry > now then Hit(c.table[key], Retain(c, c.table[key]))
    else Miss(RemoveKey(c, key))
  }

  ghost predicate KeyRefines(c: Cache, log: seq<Update>, now: int, maxTtl: nat, k: Key)
    requires WellLinked(c)
  {
    match Last(log, k)
    case None => k !in c.table
    case Some(u) =>
      if k in c.table then
        Ttl(u, maxTtl) != 0 && c.entries[c.table[k]].expiry == Expiry(u, maxTtl) && c.entries[c.table[k]].pkt == PacketDup.Dup(u.pkt)
      else Ttl(u, maxTtl) == 0 || Expiry(u, maxTtl) <= now
  }

  ghost predicate Refines(c: Cache, log: seq<Update>, now: int, maxTtl: nat) {
    WellLinked(c) && forall k :: KeyRefines(c, log, now, maxTtl, k)
  }

  /** A lookup hits exactly when the last update for the key is still to be answered from,
      and then answers with the copy made by that update. */
  lemma FindAnswersFromLog(c: Cache, log: seq<Update>, now: int, maxTtl: nat, key: Key)
    requires Refines(c, log, now, maxTtl)
    ensures var f := Find(c, key, now);
            && (f.Hit? <==> Answer(log, key, now, maxTtl).Some?)
            && (f.Hit? ==> f.entry in f.cache.entries && Answer(log, key, now, maxTtl) == Some(f.cache.entries[f.entry].pkt))
  {
    assert KeyRefines(c, log, now, maxTtl, key);
  }

  lemma FindKeepsRefinement(c: Cache, log: seq<Update>, now: int, maxTtl: nat, uses: map<nat, nat>, key: Key)
    requires Refines(c, log, now, maxTtl) && Counted(c, uses)
    ensures Refines(Find(c, key, now).cache, log, now, maxTtl)
  {
    var c' := Find(c, key, now).cache;
    RemoveKeepsCount(c, uses, key);
    forall k ensures KeyRefines(c', log, now, maxTtl, k) {
      assert KeyRefines(c, log, now, maxTtl, k);
      RemoveLeavesOthers(c, key, k);
    }
  }

  lemma RemoveLeavesOthers(c: Cache, key: Key, k: Key)
    requires WellLinked(c)
    ensures k in RemoveKey(c, key).table <==> k in c.table && k != key
    ensures k in c.table && k != key ==>
      RemoveKey(c, key).table[k] == c.table[k] && c.table[k] in RemoveKey(c, key).entries && RemoveKey(c, key).entries[c.table[k]] == c.entries[c.table[k]]
  {
  }

  /** The end of a callback drops a reference; what the table holds is not affected. */
  lemma ReleaseKeepsRefinement(c: Cache, log: seq<Update>, now: int, maxTtl: nat, uses: map<nat, nat>, t: nat)
    requires Refines(c, log, now, maxTtl) && Counted(c, uses) && t in uses
    ensures Refines(Release(c, uses[t]), log, now, maxTtl)
  {
    var c' := Release(c, uses[t]);
    ReleaseKeepsCount(c, uses, t);
    forall k ensures KeyRefines(c', log, now, maxTtl, k) {
      assert KeyRefines(c, log, now, maxTtl, k);
    }
  }

  lemma UpdateKeepsRefinement(c: Cache, log: seq<Update>, maxTtl: nat, uses: map<nat, nat>, u: Update)
    requires Refines(c, log, u.now, maxTtl) && Counted(c, uses)
    ensures Refines(Updated(c, u, maxTtl), log + [u], u.now, maxTtl)
  {
    hide Updated, Counted, Stored;
    var c', log' := Updated(c, u, maxTtl), log + [u];
    UpdateKeepsCount(c, uses, u, maxTtl);
    CountedLinks(c', uses);
    forall k ensures KeyRefines(c', log', u.now, maxTtl, k) {
      assert log'[..|log|] == log;
      assert KeyRefines(c, log, u.now, maxTtl, k);
      if k == u.key {
        UpdatedKey(c, uses, u, maxTtl);
        StoredIs(u, maxTtl);
      } else {
        UpdatedOthers(c, uses, u, maxTtl, k);
      }
    }
  }

  lemma CountedLinks(c: Cache, uses: map<nat, nat>)
    requires Counted(c, uses)
    ensures WellLinked(c)
  {
  }

  lemma StoredIs(u: Update, maxTtl: nat)
    ensures Stored(u, maxTtl).pkt == PacketDup.Dup(u.pkt) && Stored(u, maxTtl).expiry == Expiry(u, maxTtl)
  {
  }

  /** The key of an update is in the table exactly when its lifetime is not zero. */
  lemma UpdatedKey(c: Cache, uses: map<nat, nat>, u: Update, maxTtl: nat)
    requires Counted(c, uses)
    ensures var c' := Updated(c, u, maxTtl);
            && (u.key in c'.table <==> Ttl(u, maxTtl) != 0)
            && (u.key in c'.table ==> c'.table[u.key] in c'.entries && c'.entries[c'.table[u.key]] == Stored(u, maxTtl))
  {
    hide Stored, Ttl;
    RemoveKeepsCount(c, uses, u.key);
    StoredKey(u, maxTtl);
    var c1 := if u.status != SUCCESS then RemoveKey(c, u.key) else c;
    RemoveLeavesOthers(c1, u.key, u.key);
  }

  lemma StoredKey(u: Update, maxTtl: nat)
    ensures Stored(u, maxTtl).key == u.key
  {
  }

  /** The other keys keep their entries. */
  lemma UpdatedOthers(c: Cache, uses: map<nat, nat>, u: Update, maxTtl: nat, k: Key)
    requires Counted(c, uses) && k != u.key
    ensures var c' := Updated(c, u, maxTtl);
            && (k in c'.table <==> k in c.table)
            && (k in c.table ==> c'.table[k] == c.table[k] && c.table[k] in c'.entries && c.table[k] in c.entries && c'.entries[c.table[k]] == c.entries[c.table[k]])
  {
    hide Stored, Ttl, Release;
    RemoveKeepsCount(c, uses, u.key);
    StoredKey(u, maxTtl);
    var c1 := if u.status != SUCCESS then RemoveKey(c, u.key) else c;
    RemoveLeavesOthers(c, u.key, k);
    RemoveLeavesOthers(c1, u.key, k);
    if k in c.table {
      assert c.table[k] in c.entries && c.table[k] < c.next;
      assert u.key in c1.table ==> c1.table[u.key] != c1.table[k];
    }
  }

  /** Time only moves entries towards expiry. */
  lemma TimeKeepsRefinement(c: Cache, log: seq<Update>, now: int, now': int, maxTtl: nat)
    requires Refines(c, log, now, maxTtl) && now <= now'
    ensures Refines(c, log, now', maxTtl)
  {
    forall k ensures KeyRefines(c, log, now', maxTtl, k) {
      assert KeyRefines(c, log, now, maxTtl, k);
    }
  }
}
