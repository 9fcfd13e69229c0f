/** The reference-counted response cache of resolver.c: lookups, update_res_cache,
    alloc_entry/reset_entry/free_entry. Times are milliseconds. */
module ResponseCache {
  import opened DnsTypes
  import PacketDup

  const MAX_HOSTNAME := 128   // PJ_MAX_HOSTNAME
  const INVALID_TTL := 60     // PJ_DNS_RESOLVER_INVALID_TTL
  const MAX_U32 := 0xFFFF_FFFF
  const NEVER := 0x7FFF_FFFF * 1000

  /** struct res_key, compared as raw memory: the name is padded with zeros. */
  datatype Key = Key(qtype: nat, name: seq<Byte>)

  function Zeros(n: nat): (s: seq<Byte>)
    ensures |s| == n
  {
    seq(n, _ => 0)
  }

  /** init_res_key. */
  function InitResKey(qtype: nat, name: Name): (k: Key)
    requires |name| <= MAX_HOSTNAME
    ensures |k.name| == MAX_HOSTNAME
  {
    Key(qtype % 0x1_0000, LowerName(name) + Zeros(MAX_HOSTNAME - |name|))
  }

  /** Two requests share a key exactly when their types agree and their names agree up to
      case, for names without a zero byte. */
  lemma KeyIsCaseFoldedName(t: nat, a: Name, t': nat, b: Name)
    requires t < 0x1_0000 && t' < 0x1_0000 && |a| <= MAX_HOSTNAME && |b| <= MAX_HOSTNAME
    requires 0 !in a && 0 !in b
    ensures InitResKey(t, a) == InitResKey(t', b) <==> t == t' && EqualFold(a, b)
  {
    var p, q := InitResKey(t, a).name, InitResKey(t', b).name;
    assert LowerName(a) == p[..|a|] && LowerName(b) == q[..|b|];
    assert forall i :: 0 <= i < |a| ==> a[i] in a && p[i] == Lower(a[i]) != 0;
    assert forall i :: 0 <= i < |b| ==> b[i] in b && q[i] == Lower(b[i]) != 0;
    assert forall i :: |a| <= i < MAX_HOSTNAME ==> p[i] == 0;
    assert forall i :: |b| <= i < MAX_HOSTNAME ==> q[i] == 0;
    assert p == q ==> |a| == |b| by {
      assert |a| < |b| ==> p[|a|] != q[|a|];
      assert |b| < |a| ==> p[|b|] != q[|b|];
    }
  }

  /** struct cached_res. */
  datatype Entry = Entry(refCnt: int, key: Key, expiry: int, pkt: Packet)

  /** The hash table and the pools of the entries not yet freed. */
  datatype Cache = Cache(table: map<Key, nat>, entries: map<nat, Entry>, next: nat)

  const EMPTY := Cache(map[], map[], 0)

  predicate WellLinked(c: Cache) {
    && (forall k :: k in c.table ==> c.table[k] in c.entries && c.entries[c.table[k]].key == k)
    && (forall e :: e in c.entries ==> e < c.next)
  }

  predicate InTable(c: Cache, e: nat) {
    e in c.entries && c.entries[e].key in c.table && c.table[c.entries[e].key] == e
  }

  /** Drops one reference and frees the entry when none is left. */
  function Release(c: Cache, e: nat): Cache
    requires e in c.entries
  {
    var r := c.entries[e].refCnt - 1;
    if r <= 0 then c.(entries := c.entries - {e}) else c.(entries := c.entries[e := c.entries[e].(refCnt := r)])
  }

  function Retain(c: Cache, e: nat): Cache
    requires e in c.entries
  {
    c.(entries := c.entries[e := c.entries[e].(refCnt := c.entries[e].refCnt + 1)])
  }

  function RemoveKey(c: Cache, key: Key): Cache
    requires WellLinked(c)
  {
    if key in c.table then Release(c.(table := c.table - {key}), c.table[key]) else c
  }

  function Min(a: nat, b: nat): nat { if a < b then a else b }

  function MinTtl(rs: seq<Record>): nat {
    if rs == [] then MAX_U32 else Min(rs[|rs| - 1].ttl, MinTtl(rs[..|rs| - 1]))
  }

  /** One call of update_res_cache. */
  datatype Update = Update(key: Key, status: nat, setExpiry: bool, pkt: Packet, now: int)

  function Ttl(u: Update, maxTtl: nat): nat {
    var ttl := if !u.setExpiry then MAX_U32
               else if |u.pkt.ans| == 0 || u.status != SUCCESS then INVALID_TTL
               else MinTtl(u.pkt.ans);
    Min(ttl, maxTtl)
  }

  function Expiry(u: Update, maxTtl: nat): int {
    if u.setExpiry then u.now + 1000 * Ttl(u, maxTtl) else NEVER
  }

  function Stored(u: Update, maxTtl: nat): Entry {
    Entry(1, u.key, Expiry(u, maxTtl), PacketDup.Dup(u.pkt))
  }

  /** A new entry from alloc_entry, entered in the table. */
  function Insert(c: Cache, e: Entry): Cache {
    Cache(c.table[e.key := c.next], c.entries[c.next := e], c.next + 1)
  }

  /** update_res_cache: the old entry is reset in place when nobody else uses it,
      otherwise it is dropped from the table and a new one takes its place. */
  function Updated(c: Cache, u: Update, maxTtl: nat): Cache
    requires WellLinked(c)
  {
    var c1 := if u.status != SUCCESS then RemoveKey(c, u.key) else c;
    if Ttl(u, maxTtl) == 0 then RemoveKey(c1, u.key)
    else if u.key in c1.table && c1.entries[c1.table[u.key]].refCnt <= 1 then
      c1.(entries := c1.entries[c1.table[u.key] := Stored(u, maxTtl)])
    else Insert(RemoveKey(c1, u.key), Stored(u, maxTtl))
  }

  // ----- reference counting -----

  /** The callbacks (by thread) that are using entry e. */
  function UserSet(uses: map<nat, nat>, e: nat): set<nat> {
    set t | t in uses && uses[t] == e
  }

  function Users(uses: map<nat, nat>, e: nat): nat {
    |UserSet(uses, e)|
  }

  /** Every entry not yet freed is counted exactly: once for the table and once for each
      callback using it. In particular none is kept without a use, and none that is used
      or in the table has been freed. */
  ghost predicate Counted(c: Cache, uses: map<nat, nat>) {
    && WellLinked(c)
    && (forall t :: t in uses ==> uses[t] in c.entries)
    && (forall e :: e in c.entries ==> CountRight(c, uses, e))
  }

  ghost predicate CountRight(c: Cache, uses: map<nat, nat>, e: nat)
    requires e in c.entries
  {
    c.entries[e].refCnt == (if InTable(c, e) then 1 else 0) + Users(uses, e) && c.entries[e].refCnt >= 1
  }

  /** The packets that running callbacks are reading are the same in both caches. */
  ghost predicate SamePackets(c: Cache, c': Cache, uses: map<nat, nat>) {
    forall t :: t in uses ==>
      uses[t] in c.entries && uses[t] in c'.entries && c'.entries[uses[t]].pkt == c.entries[uses[t]].pkt
  }

  lemma UsersAdd(uses: map<nat, nat>, t: nat, e: nat)
    requires t !in uses
    ensures forall x :: Users(uses[t := e], x) == Users(uses, x) + if x == e then 1 else 0
  {
    forall x ensures Users(uses[t := e], x) == Users(uses, x) + if x == e then 1 else 0 {
      UserAdds(uses, t, e, x);
    }
  }

  lemma UserAdds(uses: map<nat, nat>, t: nat, e: nat, x: nat)
    requires t !in uses
    ensures Users(uses[t := e], x) == Users(uses, x) + if x == e then 1 else 0
  {
    assert UserSet(uses[t := e], x) == if x == e then UserSet(uses, x) + {t} else UserSet(uses, x);
  }

  lemma UsersRemove(uses: map<nat, nat>, t: nat)
    requires t in uses
    ensures forall x :: Users(uses - {t}, x) == Users(uses, x) - if x == uses[t] then 1 else 0
  {
    UsersAdd(uses - {t}, t, uses[t]);
    assert (uses - {t})[t := uses[t]] == uses;
  }

  lemma UsersPositive(uses: map<nat, nat>, t: nat)
    requires t in uses
    ensures Users(uses, uses[t]) >= 1
  {
    UsersRemove(uses, t);
  }

  /** A lookup that hits takes a reference for the callback about to run. */
  lemma RetainKeepsCount(c: Cache, uses: map<nat, nat>, t: nat, e: nat)
    requires Counted(c, uses) && e in c.entries && t !in uses
    ensures Counted(Retain(c, e), uses[t := e])
  {
    UsersAdd(uses, t, e);
  }

  /** The reference is dropped when the callback returns. */
  lemma ReleaseKeepsCount(c: Cache, uses: map<nat, nat>, t: nat)
    requires Counted(c, uses) && t in uses
    ensures Counted(Release(c, uses[t]), uses - {t})
    ensures uses[t] in Release(c, uses[t]).entries <==> InTable(c, uses[t]) || Users(uses, uses[t]) > 1
  {
    UsersRemove(uses, t);
    UsersPositive(uses, t);
    forall t' | t' in uses && t' != t && uses[t'] == uses[t] ensures c.entries[uses[t]].refCnt >= 2 {
      UsersPositive(uses - {t}, t');
    }
  }

  lemma RemoveKeepsCount(c: Cache, uses: map<nat, nat>, key: Key)
    requires Counted(c, uses)
    ensures Counted(RemoveKey(c, key), uses) && RemoveKey(c, key).table == c.table - {key}
    ensures SamePackets(c, RemoveKey(c, key), uses)
  {
    if key in c.table {
      var c', e := RemoveKey(c, key), c.table[key];
      assert InTable(c, e) && CountRight(c, uses, e);
      forall t | t in uses ensures uses[t] in c'.entries { UsersPositive(uses, t); }
      forall x | x in c'.entries ensures CountRight(c', uses, x) {
        assert CountRight(c, uses, x);
      }
    }
  }

  lemma InsertKeepsCount(c: Cache, uses: map<nat, nat>, new': Entry)
    requires Counted(c, uses) && new'.key !in c.table && new'.refCnt == 1
    ensures Counted(Insert(c, new'), uses)
    ensures SamePackets(c, Insert(c, new'), uses)
  {
    var c' := Insert(c, new');
    assert forall t :: t in uses ==> uses[t] < c.next;
    assert UserSet(uses, c.next) == {};
    forall x | x in c'.entries ensures CountRight(c', uses, x) {
      assert x in c.entries ==> CountRight(c, uses, x);
    }
  }

  lemma ResetKeepsCount(c: Cache, uses: map<nat, nat>, new': Entry)
    requires Counted(c, uses) && new'.key in c.table && c.entries[c.table[new'.key]].refCnt <= 1 && new'.refCnt == 1
    ensures Counted(c.(entries := c.entries[c.table[new'.key] := new']), uses)
    ensures SamePackets(c, c.(entries := c.entries[c.table[new'.key] := new']), uses)
  {
    var e := c.table[new'.key];
    var c' := c.(entries := c.entries[e := new']);
    assert InTable(c, e) && CountRight(c, uses, e);
    forall t | t in uses ensures uses[t] != e { UsersPositive(uses, t); }
    forall x | x in c'.entries ensures CountRight(c', uses, x) {
      assert CountRight(c, uses, x);
    }
  }

  /** update_res_cache keeps the count; an entry some callback is using is neither freed
      nor reset, whatever is stored. */
  lemma UpdateKeepsCount(c: Cache, uses: map<nat, nat>, u: Update, maxTtl: nat)
    requires Counted(c, uses)
    ensures Counted(Updated(c, u, maxTtl), uses)
    ensures SamePackets(c, Updated(c, u, maxTtl), uses)
  {
    RemoveKeepsCount(c, uses, u.key);
    var c1 := if u.status != SUCCESS then RemoveKey(c, u.key) else c;
    RemoveKeepsCount(c1, uses, u.key);
    if Ttl(u, maxTtl) == 0 {
    } else if u.key in c1.table && c1.entries[c1.table[u.key]].refCnt <= 1 {
      ResetKeepsCount(c1, uses, Stored(u, maxTtl));
    } else {
      InsertKeepsCount(RemoveKey(c1, u.key), uses, Stored(u, maxTtl));
    }
  }
}
