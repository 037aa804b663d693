/** The bounded, least-recently-used cache of entities known to exist. */
module ExistenceCache {
  import opened Wrappers

  const TTL := 15_000_000
  const MAX: nat := 5000

  /** Canonical entity type and id. */
  type Key = (string, Id)

  datatype Entry = Entry(key: Key, expiry: int)

  /** An OrderedDict: the entries in order, the least recently used first, each key once. */
  type Entries = seq<Entry>

  ghost predicate Keyed(es: Entries) {
    forall i, j :: 0 <= i < j < |es| ==> es[i].key != es[j].key
  }

  function Find(es: Entries, key: Key): (i: Option<nat>)
    ensures i.Some? ==> i.value < |es| && es[i.value].key == key
    ensures i.None? ==> forall j :: 0 <= j < |es| ==> es[j].key != key
  {
    if es == [] then None
    else if es[|es| - 1].key == key then Some(|es| - 1)
    else Find(es[..|es| - 1], key)
  }

  /** `pop(key, None)`. */
  function Removed(es: Entries, key: Key): Entries {
    if es == [] then []
    else
      var last := es[|es| - 1];
      var before := Removed(es[..|es| - 1], key);
      if last.key == key then before else before + [last]
  }

  function LastOnes(es: Entries, n: nat): Entries {
    if |es| <= n then es else es[|es| - n..]
  }

  datatype Op = Put(key: Key, now: int) | Get(key: Key, now: int)

  predicate Hits(es: Entries, key: Key, now: int) {
    Find(es, key).Some? && es[Find(es, key).value].expiry >= now
  }

  function Next(es: Entries, op: Op): Entries {
    match op
    case Put(key, now) => LastOnes(Removed(es, key) + [Entry(key, now + TTL)], MAX)
    case Get(key, now) =>
      if Hits(es, key, now) then Removed(es, key) + [es[Find(es, key).value]] else Removed(es, key)
  }

  class ExistenceTable {
    const singular: string -> string
    var entries: Entries

    /** `_existence_cache_get`. */
    method Lookup(entityType: string, entityId: Id, now: int) returns (hit: bool)
      modifies this
      ensures var key := (singular(entityType), entityId);
        hit == Hits(old(entries), key, now) && entries == Next(old(entries), Get(key, now))
    {
      var key := (singular(entityType), entityId);
      var found := Find(entries, key);
      if found.None? {
        NothingRemoved(entries, key);
        return false;
      }
      var entry := entries[found.value];
      if entry.expiry < now {
        entries := Removed(entries, key);
        return false;
      }
      entries := Removed(entries, key) + [entry];
      return true;
    }

    /** `_existence_cache_put`, evicting from the front while there are too many. */
    method Record(entityType: string, entityId: Id, now: int)
      modifies this
      ensures entries == Next(old(entries), Put((singular(entityType), entityId), now))
    {
      var key := (singular(entityType), entityId);
      entries := Removed(entries, key) + [Entry(key, now + TTL)];
      ghost var all := entries;
      ghost var dropped := 0;
      assert all[0..] == all;
      while |entries| > MAX
        invariant 0 <= dropped <= |all| && entries == all[dropped..]
        invariant dropped > 0 ==> |entries| >= MAX
      {
        assert entries[1..] == all[dropped + 1..];
        entries := entries[1..];
        dropped := dropped + 1;
      }
    }
  }

  // ---- Over any history ----

  function Run(ops: seq<Op>): Entries {
    if ops == [] then [] else Next(Run(ops[..|ops| - 1]), ops[|ops| - 1])
  }

  /** When a key was last put. */
  function LastPut(ops: seq<Op>, key: Key): Option<int> {
    if ops == [] then None
    else
      var op := ops[|ops| - 1];
      if op.Put? && op.key == key then Some(op.now) else LastPut(ops[..|ops| - 1], key)
  }

  /** The other keys used since a key was last put. */
  function OthersSince(ops: seq<Op>, key: Key): set<Key> {
    if ops == [] then {}
    else
      var op := ops[|ops| - 1];
      if op.key != key then OthersSince(ops[..|ops| - 1], key) + {op.key}
      else if op.Put? then {}
      else OthersSince(ops[..|ops| - 1], key)
  }

  ghost predicate Ticking(ops: seq<Op>, now: int) {
    && (forall i :: 0 <= i < |ops| ==> ops[i].now <= now)
    && (forall i, j :: 0 <= i < j < |ops| ==> ops[i].now <= ops[j].now)
  }

  lemma {:induction false} RemovedKeys(es: Entries, key: Key)
    ensures var rest := Removed(es, key);
      && (forall e :: e in rest <==> e in es && e.key != key)
      && |rest| <= |es| && (Find(es, key).Some? ==> |rest| < |es|)
      && (Keyed(es) ==> Keyed(rest))
  {
    if es != [] {
      var n := |es| - 1;
      RemovedKeys(es[..n], key);
      assert forall e :: e in es <==> e in es[..n] || e == es[n];
    }
  }

  lemma {:induction false} NothingRemoved(es: Entries, key: Key)
    requires Find(es, key).None?
    ensures Removed(es, key) == es
  {
    if es != [] { NothingRemoved(es[..|es| - 1], key); }
  }

  /** The cache never exceeds 5000 entries, and every entry expires 15 seconds after the last put of its key. */
  lemma {:induction false} CacheIsBounded(ops: seq<Op>)
    ensures Keyed(Run(ops)) && |Run(ops)| <= 5000
    ensures forall e :: e in Run(ops) ==> LastPut(ops, e.key).Some? && e.expiry == LastPut(ops, e.key).value + 15_000_000
  {
    if ops != [] {
      var rest, op := ops[..|ops| - 1], ops[|ops| - 1];
      CacheIsBounded(rest);
      RemovedKeys(Run(rest), op.key);
    }
  }

  /** A hit means that the same canonical type and id was put within 15 seconds. */
  lemma HitMeansRecentPut(ops: seq<Op>, key: Key, now: int)
    requires Hits(Run(ops), key, now)
    ensures LastPut(ops, key).Some? && now - LastPut(ops, key).value <= 15_000_000
  {
    CacheIsBounded(ops);
  }

  /** The key is in the cache, and only keys of `others` were used more recently. */
  ghost predicate Placed(es: Entries, key: Key, others: set<Key>) {
    exists i :: 0 <= i < |es| && PlacedAt(es, key, others, i)
  }

  ghost predicate PlacedAt(es: Entries, key: Key, others: set<Key>, i: nat)
    requires i < |es|
  {
    es[i].key == key && forall j :: i < j < |es| ==> es[j].key in others
  }

  lemma AppendKeepsPlace(es: Entries, e: Entry, key: Key, others: set<Key>)
    requires Placed(es, key, others)
    ensures Placed(es + [e], key, others + {e.key})
  {
    var i :| 0 <= i < |es| && PlacedAt(es, key, others, i);
    assert PlacedAt(es + [e], key, others + {e.key}, i);
  }

  lemma {:induction false} RemovalKeepsPlace(es: Entries, other: Key, key: Key, others: set<Key>)
    requires Placed(es, key, others) && other != key
    ensures Placed(Removed(es, other), key, others)
  {
    var n := |es| - 1;
    var i :| 0 <= i < |es| && PlacedAt(es, key, others, i);
    if i == n {
      var rest := Removed(es, other);
      assert PlacedAt(rest, key, others, |rest| - 1);
    } else {
      assert PlacedAt(es[..n], key, others, i);
      RemovalKeepsPlace(es[..n], other, key, others);
      if es[n].key != other {
        AppendKeepsPlace(Removed(es[..n], other), es[n], key, others);
        assert others + {es[n].key} == others;
      }
    }
  }

  function Keys(es: Entries): seq<Key> {
    seq(|es|, i requires 0 <= i < |es| => es[i].key)
  }

  lemma SubsetSize<T>(a: set<T>, b: set<T>)
    requires a <= b
    ensures |a| <= |b|
    decreases a
  {
    if a != {} {
      var x := Member(a);
      SubsetSize(a - {x}, b - {x});
    }
  }

  /** Eviction takes the front, and too few others are behind the key for it to be there. */
  lemma EvictionKeepsPlace(es: Entries, key: Key, others: set<Key>)
    requires Keyed(es) && Placed(es, key, others) && |others| < MAX
    ensures Placed(LastOnes(es, MAX), key, others)
  {
    var i :| 0 <= i < |es| && PlacedAt(es, key, others, i);
    var later := Keys(es[i + 1..]);
    assert Distinct(later);
    SizeOfSet(later);
    SubsetSize(ToSet(later), others);
    if |es| > MAX {
      assert PlacedAt(LastOnes(es, MAX), key, others, i - (|es| - MAX));
    }
  }

  lemma Moves(es: Entries, key: Key, e: Entry)
    requires e.key == key
    ensures Placed(LastOnes(Removed(es, key) + [e], MAX), key, {}) && Placed(Removed(es, key) + [e], key, {})
  {
    var all := Removed(es, key) + [e];
    assert PlacedAt(all, key, {}, |all| - 1);
    var kept := LastOnes(all, MAX);
    assert PlacedAt(kept, key, {}, |kept| - 1);
  }

  lemma Widen(es: Entries, key: Key, others: set<Key>, more: set<Key>)
    requires Placed(es, key, others) && others <= more
    ensures Placed(es, key, more)
  {
    var i :| 0 <= i < |es| && PlacedAt(es, key, others, i);
    assert PlacedAt(es, key, more, i);
  }

  /** A put of the key, or a hit on it, moves it to the end. */
  lemma OwnUse(es: Entries, op: Op, others: set<Key>)
    requires op.Put? || Hits(es, op.key, op.now)
    ensures Placed(Next(es, op), op.key, others)
  {
    var e := if op.Put? then Entry(op.key, op.now + TTL) else es[Find(es, op.key).value];
    Moves(es, op.key, e);
    Widen(Next(es, op), op.key, {}, others);
  }

  lemma PlacedHits(es: Entries, key: Key, others: set<Key>, expiry: int, now: int)
    requires Placed(es, key, others) && now <= expiry
    requires forall e :: e in es && e.key == key ==> e.expiry == expiry
    ensures Hits(es, key, now)
  {
    var i :| 0 <= i < |es| && PlacedAt(es, key, others, i);
    assert es[Find(es, key).value] in es;
  }

  lemma {:induction false} RecentKeysKeepTheirPlace(ops: seq<Op>, key: Key, now: int)
    requires Ticking(ops, now) && LastPut(ops, key).Some? && now <= LastPut(ops, key).value + TTL
    requires |OthersSince(ops, key)| < MAX
    ensures Placed(Run(ops), key, OthersSince(ops, key))
  {
    var rest, op := ops[..|ops| - 1], ops[|ops| - 1];
    var es := Run(rest);
    CacheIsBounded(rest);
    if op.Put? && op.key == key {
      OwnUse(es, op, {});
    } else {
      SubsetSize(OthersSince(rest, key), OthersSince(ops, key));
      RecentKeysKeepTheirPlace(rest, key, op.now);
      if op.key == key {
        PlacedHits(es, key, OthersSince(rest, key), LastPut(rest, key).value + TTL, op.now);
        OwnUse(es, op, OthersSince(rest, key));
      } else {
        RemovalKeepsPlace(es, op.key, key, OthersSince(rest, key));
        OtherUse(es, op, key, OthersSince(rest, key));
      }
    }
  }

  /** A use of another key leaves this one in place. */
  lemma OtherUse(es: Entries, op: Op, key: Key, others: set<Key>)
    requires Keyed(es) && op.key != key && Placed(Removed(es, op.key), key, others) && |others + {op.key}| < MAX
    ensures Placed(Next(es, op), key, others + {op.key})
  {
    RemovedKeys(es, op.key);
    var rest := Removed(es, op.key);
    match op {
      case Put(other, now) =>
        AppendKeepsPlace(rest, Entry(other, now + TTL), key, others);
        EvictionKeepsPlace(rest + [Entry(other, now + TTL)], key, others + {other});
      case Get(other, now) =>
        if Hits(es, other, now) {
          AppendKeepsPlace(rest, es[Find(es, other).value], key, others);
        } else {
          Widen(rest, key, others, others + {other});
        }
    }
  }

  /**
   * And the other way: a lookup within 15 seconds of the last put does hit, as long as fewer than
   * 5000 other keys were used in between.
   */
  lemma RecentPutMeansHit(ops: seq<Op>, key: Key, now: int)
    requires Ticking(ops, now) && LastPut(ops, key).Some? && now - LastPut(ops, key).value <= 15_000_000
    requires |OthersSince(ops, key)| < 5000
    ensures Hits(Run(ops), key, now)
  {
    RecentKeysKeepTheirPlace(ops, key, now);
    CacheIsBounded(ops);
    PlacedHits(Run(ops), key, OthersSince(ops, key), LastPut(ops, key).value + TTL, now);
  }
}
