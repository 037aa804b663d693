/** The in-memory cache, against the history of what was written to it. */
module TtlCache {
  import opened Wrappers

  datatype Entry<V> = Entry(value: V, expiresAt: int)

  datatype Op<V> =
    | Get(key: string, now: int)
    | Set(key: string, value: V, ttl: Option<int>, now: int)
    | Delete(key: string)
    | DeletePattern(pattern: string)
    | Clear
    | Cleanup(now: int)
  {
    predicate Timed() { Get? || Set? || Cleanup? }
  }

  /** `fnmatch`, and the TTL of a set that names none. */
  datatype Setup = Setup(matches: (string, string) -> bool, defaultTtl: int)

  datatype Cache<V> = Cache(store: map<string, Entry<V>>, hits: nat, misses: nat)

  function Expiry<V>(setup: Setup, ttl: Option<int>, now: int): int {
    now + if ttl.Some? then ttl.value else setup.defaultTtl
  }

  function ExpiredKeys<V>(store: map<string, Entry<V>>, now: int): set<string> {
    set k | k in store && now > store[k].expiresAt
  }

  function MatchingKeys<V>(setup: Setup, store: map<string, Entry<V>>, pattern: string): set<string> {
    set k | k in store && setup.matches(k, pattern)
  }

  function Answer<V>(c: Cache<V>, key: string, now: int): Option<V> {
    if key in c.store && now <= c.store[key].expiresAt then Some(c.store[key].value) else None
  }

  /** The cache after one operation. */
  function Next<V>(setup: Setup, c: Cache<V>, op: Op<V>): Cache<V> {
    match op
    case Get(key, now) =>
      if Answer(c, key, now).Some? then c.(hits := c.hits + 1)
      else Cache(c.store - {key}, c.hits, c.misses + 1)
    case Set(key, value, ttl, now) => c.(store := c.store[key := Entry(value, Expiry<V>(setup, ttl, now))])
    case Delete(key) => c.(store := c.store - {key})
    case DeletePattern(pattern) => c.(store := c.store - MatchingKeys(setup, c.store, pattern))
    case Clear => Cache(map[], 0, 0)
    case Cleanup(now) => c.(store := c.store - ExpiredKeys(c.store, now))
  }

  /** The cache after a sequence of operations. */
  function RunFrom<V>(setup: Setup, c: Cache<V>, ops: seq<Op<V>>): Cache<V> {
    if ops == [] then c else Next(setup, RunFrom(setup, c, ops[..|ops| - 1]), ops[|ops| - 1])
  }

  /** `_ENTITY_CACHE_PATTERNS`, and the dashboard patterns most changes invalidate too. */
  function PatternsFor(entityType: string): seq<string> {
    (match entityType
     case "pipeline_stages" => ["pipeline_stages*"]
     case "lead_sources" => ["lead_sources*"]
     case "roles" => ["roles*"]
     case "tenant_settings" => ["tenant_settings*"]
     case "dashboard" => ["dashboard*"]
     case "admin_stats" => ["admin_stats*", "team_overview*"]
     case _ => [])
    + (if entityType in {"dashboard", "admin_stats"} then []
       else ["dashboard*", "admin_stats*", "team_overview*"])
  }

  /** The patterns with a star at the end match as prefixes. */
  ghost predicate StarsArePrefixes(setup: Setup) {
    forall key, prefix {:trigger setup.matches(key, prefix + "*")} :: setup.matches(key, prefix + "*") <==> prefix <= key
  }

  /** The key is one that a change of the entity type clears. */
  ghost predicate ClearedBy(setup: Setup, entityType: string, key: string) {
    exists p :: p in PatternsFor(entityType) && setup.matches(key, p)
  }

  lemma Prefixes(setup: Setup, key: string)
    requires StarsArePrefixes(setup)
    ensures setup.matches(key, "pipeline_stages*") <==> "pipeline_stages" <= key
    ensures setup.matches(key, "lead_sources*") <==> "lead_sources" <= key
    ensures setup.matches(key, "roles*") <==> "roles" <= key
    ensures setup.matches(key, "tenant_settings*") <==> "tenant_settings" <= key
    ensures setup.matches(key, "dashboard*") <==> "dashboard" <= key
    ensures setup.matches(key, "admin_stats*") <==> "admin_stats" <= key
    ensures setup.matches(key, "team_overview*") <==> "team_overview" <= key
  {
    assert "pipeline_stages" + "*" == "pipeline_stages*" && "lead_sources" + "*" == "lead_sources*";
    assert "roles" + "*" == "roles*" && "tenant_settings" + "*" == "tenant_settings*";
    assert "dashboard" + "*" == "dashboard*" && "admin_stats" + "*" == "admin_stats*";
    assert "team_overview" + "*" == "team_overview*";
  }

  /** Any of a few patterns. */
  ghost predicate MatchesAny(setup: Setup, patterns: seq<string>, key: string) {
    exists i :: 0 <= i < |patterns| && setup.matches(key, patterns[i])
  }

  lemma ClearedByItsPatterns(setup: Setup, entityType: string, key: string)
    ensures ClearedBy(setup, entityType, key) <==> MatchesAny(setup, PatternsFor(entityType), key)
  {
    var patterns := PatternsFor(entityType);
    if i :| 0 <= i < |patterns| && setup.matches(key, patterns[i]) { assert patterns[i] in patterns; }
  }

  /** What a change clears: its own caches, and those of the dashboards unless it is one of them. */
  lemma WhatChangesClear(setup: Setup, entityType: string, key: string)
    requires StarsArePrefixes(setup)
    ensures var dashboards := "dashboard" <= key || "admin_stats" <= key || "team_overview" <= key;
      ClearedBy(setup, entityType, key) <==>
        if entityType == "dashboard" then "dashboard" <= key
        else if entityType == "admin_stats" then "admin_stats" <= key || "team_overview" <= key
        else if entityType in {"pipeline_stages", "lead_sources", "roles", "tenant_settings"} then
          entityType <= key || dashboards
        else dashboards
  {
    Prefixes(setup, key);
    ClearedByItsPatterns(setup, entityType, key);
    WhichPatterns(entityType);
  }

  /** The patterns, one by one. */
  lemma WhichPatterns(entityType: string)
    ensures var shared := ["dashboard*", "admin_stats*", "team_overview*"];
      && PatternsFor("dashboard") == ["dashboard*"]
      && PatternsFor("admin_stats") == ["admin_stats*", "team_overview*"]
      && PatternsFor("pipeline_stages") == ["pipeline_stages*"] + shared
      && PatternsFor("lead_sources") == ["lead_sources*"] + shared
      && PatternsFor("roles") == ["roles*"] + shared
      && PatternsFor("tenant_settings") == ["tenant_settings*"] + shared
      && (entityType !in {"dashboard", "admin_stats", "pipeline_stages", "lead_sources", "roles", "tenant_settings"} ==>
            PatternsFor(entityType) == shared)
  {
  }

  class TTLCache<V> {
    const setup: Setup
    var store: map<string, Entry<V>>
    var hits: nat
    var misses: nat

    ghost function Contents(): Cache<V>
      reads this
    {
      Cache(store, hits, misses)
    }

    constructor (setup: Setup)
      ensures Contents() == Cache(map[], 0, 0) && this.setup == setup
    {
      this.setup, store, hits, misses := setup, map[], 0, 0;
    }

    method GetValue(key: string, now: int) returns (value: Option<V>)
      modifies this
      ensures value == Answer(old(Contents()), key, now)
      ensures Contents() == Next(setup, old(Contents()), Get(key, now))
    {
      if key !in store {
        misses := misses + 1;
        assert store - {key} == store;
        return None;
      }
      var entry := store[key];
      if now > entry.expiresAt {
        store := store - {key};
        misses := misses + 1;
        return None;
      }
      hits := hits + 1;
      return Some(entry.value);
    }

    method SetValue(key: string, value: V, ttl: Option<int>, now: int)
      modifies this
      ensures Contents() == Next(setup, old(Contents()), Set(key, value, ttl, now))
    {
      var effectiveTtl := if ttl.Some? then ttl.value else setup.defaultTtl;
      store := store[key := Entry(value, now + effectiveTtl)];
    }

    method DeleteKey(key: string)
      modifies this
      ensures Contents() == Next(setup, old(Contents()), Delete(key))
    {
      store := store - {key};
    }

    method DeleteMatching(pattern: string) returns (count: nat)
      modifies this
      ensures Contents() == Next(setup, old(Contents()), DeletePattern(pattern))
      ensures count == |MatchingKeys(setup, old(store), pattern)|
    {
      var rest;
      rest, count := DeleteOne(setup, store, pattern);
      store := rest;
    }

    method ClearAll() returns (count: nat)
      modifies this
      ensures Contents() == Next(setup, old(Contents()), Clear)
      ensures count == |old(store)|
    {
      count := |store|;
      store, hits, misses := map[], 0, 0;
    }

    method RemoveExpired(now: int) returns (count: nat)
      modifies this
      ensures Contents() == Next(setup, old(Contents()), Cleanup(now))
      ensures count == |ExpiredKeys(old(store), now)|
    {
      var keys := Rows(ExpiredKeys(store, now));
      store := DeleteEach(store, keys);
      SizeOfSet(keys);
      SameSet(ToSet(keys), ExpiredKeys(old(store), now));
      count := |keys|;
    }

    method Perform(op: Op<V>)
      modifies this
      ensures Contents() == Next(setup, old(Contents()), op)
    {
      match op {
        case Get(key, now) => var _ := GetValue(key, now);
        case Set(key, value, ttl, now) => SetValue(key, value, ttl, now);
        case Delete(key) => DeleteKey(key);
        case DeletePattern(pattern) => var _ := DeleteMatching(pattern);
        case Clear => var _ := ClearAll();
        case Cleanup(now) => var _ := RemoveExpired(now);
      }
    }

    /**
     * The wrapper of `cached`: `computed` is what the function returns if it has to be called, and
     * `meanwhile` what others do to the cache while it is awaited.
     */
    method Memoize(key: string, computed: Option<V>, ttl: int, now: int, meanwhile: seq<Op<V>>, later: int)
      returns (result: Option<V>)
      modifies this
      ensures result == if Answer(old(Contents()), key, now).Some? then Answer(old(Contents()), key, now) else computed
      ensures var read := Next(setup, old(Contents()), Get(key, now));
        Contents() ==
          if Answer(old(Contents()), key, now).Some? then read
          else if computed.None? then RunFrom(setup, read, meanwhile)
          else Next(setup, RunFrom(setup, read, meanwhile), Set(key, computed.value, Some(ttl), later))
    {
      ghost var c := Contents();
      result := GetValue(key, now);
      if result.Some? {
        return;
      }
      ghost var read := Contents();
      for i := 0 to |meanwhile|
        invariant Contents() == RunFrom(setup, read, meanwhile[..i])
      {
        assert meanwhile[..i + 1][..i] == meanwhile[..i];
        Perform(meanwhile[i]);
      }
      assert meanwhile[..|meanwhile|] == meanwhile;
      result := computed;
      if result.Some? {
        SetValue(key, result.value, Some(ttl), later);
      }
    }

    /** `invalidate_on_change`: exactly the keys that match a pattern of the entity type go. */
    method InvalidateOnChange(entityType: string) returns (count: nat)
      modifies this
      ensures forall k :: k in store <==>
        k in old(store) && forall p :: p in PatternsFor(entityType) ==> !setup.matches(k, p)
      ensures forall k :: k in store ==> store[k] == old(store)[k]
      ensures count == |old(store)| - |store| && hits == old(hits) && misses == old(misses)
    {
      count := InvalidateAll(PatternsFor(entityType));
    }

    method InvalidateAll(patterns: seq<string>) returns (count: nat)
      modifies this
      ensures Purged(setup, old(store), store, patterns, count) && hits == old(hits) && misses == old(misses)
    {
      var rest;
      rest, count := DeleteAll(setup, store, patterns);
      store := rest;
    }
  }

  /** `delete_pattern`, on the entries. */
  method DeleteOne<V>(setup: Setup, store: map<string, Entry<V>>, pattern: string)
    returns (rest: map<string, Entry<V>>, count: nat)
    ensures rest == store - MatchingKeys(setup, store, pattern)
    ensures count == |MatchingKeys(setup, store, pattern)|
  {
    var keys := Rows(MatchingKeys(setup, store, pattern));
    rest := DeleteEach(store, keys);
    SizeOfSet(keys);
    SameSet(ToSet(keys), MatchingKeys(setup, store, pattern));
    count := |keys|;
  }

  method DeleteAll<V>(setup: Setup, store: map<string, Entry<V>>, patterns: seq<string>)
    returns (rest: map<string, Entry<V>>, count: nat)
    ensures Purged(setup, store, rest, patterns, count)
  {
    rest, count := store, 0;
    for i := 0 to |patterns|
      invariant Purged(setup, store, rest, patterns[..i], count)
    {
      PurgesOneMore(setup, store, rest, patterns, i, count);
      var deleted;
      rest, deleted := DeleteOne(setup, rest, patterns[i]);
      count := count + deleted;
    }
    assert patterns[..|patterns|] == patterns;
  }

  /** Exactly the keys that match one of the patterns are gone, and they have been counted. */
  ghost predicate Purged<V>(
    setup: Setup, before: map<string, Entry<V>>, after: map<string, Entry<V>>, patterns: seq<string>, count: nat)
  {
    && (forall k :: k in after <==> k in before && forall p :: p in patterns ==> !setup.matches(k, p))
    && (forall k :: k in after ==> after[k] == before[k])
    && count == |before| - |after|
  }

  lemma PurgesOneMore<V>(
    setup: Setup, before: map<string, Entry<V>>, after: map<string, Entry<V>>, patterns: seq<string>, i: nat, count: nat)
    requires i < |patterns| && Purged(setup, before, after, patterns[..i], count)
    ensures var gone := MatchingKeys(setup, after, patterns[i]);
      Purged(setup, before, after - gone, patterns[..i + 1], count + |gone|)
  {
    assert forall p :: p in patterns[..i + 1] <==> p in patterns[..i] || p == patterns[i];
    SizeWithout(after, MatchingKeys(setup, after, patterns[i]));
  }

  lemma SizeWithout<V>(m: map<string, V>, keys: set<string>)
    requires keys <= m.Keys
    ensures |m - keys| == |m| - |keys|
  {
    assert (m - keys).Keys == m.Keys - keys;
  }

  /** The loop of `del` statements. */
  method DeleteEach<V>(store: map<string, Entry<V>>, keys: seq<string>) returns (rest: map<string, Entry<V>>)
    ensures rest == store - ToSet(keys)
  {
    rest := store;
    for i := 0 to |keys|
      invariant rest == store - ToSet(keys[..i])
    {
      assert forall k :: k in keys[..i + 1] <==> k in keys[..i] || k == keys[i];
      rest := rest - {keys[i]};
    }
    assert keys[..|keys|] == keys;
  }

  // ---- The reference: what the history of writes says ----

  /** The last thing written to a key that nothing has deleted since; reads and clean-ups do not count. */
  function Written<V>(setup: Setup, ops: seq<Op<V>>, key: string): Option<Entry<V>> {
    if ops == [] then None
    else
      var rest := ops[..|ops| - 1];
      match ops[|ops| - 1]
      case Get(_, _) => Written(setup, rest, key)
      case Set(k, value, ttl, now) =>
        if k == key then Some(Entry(value, Expiry<V>(setup, ttl, now))) else Written(setup, rest, key)
      case Delete(k) => if k == key then None else Written(setup, rest, key)
      case DeletePattern(pattern) => if setup.matches(key, pattern) then None else Written(setup, rest, key)
      case Clear => None
      case Cleanup(_) => Written(setup, rest, key)
  }

  /** What a get should answer: the last value written, while it has not expired. */
  function Expected<V>(setup: Setup, ops: seq<Op<V>>, key: string, now: int): Option<V> {
    var entry := Written(setup, ops, key);
    if entry.Some? && now <= entry.value.expiresAt then Some(entry.value.value) else None
  }

  function Run<V>(setup: Setup, ops: seq<Op<V>>): Cache<V> {
    RunFrom(setup, Cache(map[], 0, 0), ops)
  }

  /** The clock never runs backwards, and has reached `now`. */
  ghost predicate Ticking<V(!new)>(ops: seq<Op<V>>, now: int) {
    && (forall i :: 0 <= i < |ops| && ops[i].Timed() ==> ops[i].now <= now)
    && (forall i, j :: 0 <= i < j < |ops| && ops[i].Timed() && ops[j].Timed() ==> ops[i].now <= ops[j].now)
  }

  /** The store holds what was written, except for keys that have expired by now. */
  ghost predicate Agrees<V(!new)>(setup: Setup, ops: seq<Op<V>>, c: Cache<V>, key: string, now: int) {
    if key in c.store then Written(setup, ops, key) == Some(c.store[key])
    else Written(setup, ops, key).Some? ==> Written(setup, ops, key).value.expiresAt < now
  }

  /** The last tick of a history: nothing that is missing from the store is still alive then. */
  lemma {:induction false} StoreAgrees<V(!new)>(setup: Setup, ops: seq<Op<V>>, key: string, now: int)
    requires Ticking(ops, now)
    ensures Agrees(setup, ops, Run(setup, ops), key, now)
  {
    if ops != [] {
      var rest, op := ops[..|ops| - 1], ops[|ops| - 1];
      StoreAgrees(setup, rest, key, if op.Timed() then op.now else now);
    }
  }

  /** Every get answers the last value written, unexpired and not deleted, and nothing else. */
  lemma {:induction false} GetAnswersLastWrite<V(!new)>(setup: Setup, ops: seq<Op<V>>, key: string, now: int)
    requires Ticking(ops, now)
    ensures Answer(Run(setup, ops), key, now) == Expected(setup, ops, key, now)
  {
    StoreAgrees(setup, ops, key, now);
  }

  lemma {:induction false} CleanupWritesNothing<V>(setup: Setup, before: seq<Op<V>>, t: int, after: seq<Op<V>>, key: string)
    ensures Written(setup, before + [Cleanup(t)] + after, key) == Written(setup, before + after, key)
  {
    var with, without := before + [Cleanup(t)] + after, before + after;
    if after == [] {
      assert with[..|with| - 1] == before && without == before;
    } else {
      var n := |after| - 1;
      assert with[..|with| - 1] == before + [Cleanup(t)] + after[..n] && without[..|without| - 1] == before + after[..n];
      CleanupWritesNothing(setup, before, t, after[..n], key);
    }
  }

  /** A clean-up put in anywhere changes the answer of no later get. */
  lemma CleanupIsInvisible<V(!new)>(
    setup: Setup, before: seq<Op<V>>, t: int, after: seq<Op<V>>, key: string, now: int)
    requires Ticking(before + [Cleanup(t)] + after, now)
    ensures Answer(Run(setup, before + [Cleanup(t)] + after), key, now) == Answer(Run(setup, before + after), key, now)
  {
    var with, without := before + [Cleanup(t)] + after, before + after;
    forall i | 0 <= i < |without| ensures without[i] == with[if i < |before| then i else i + 1] {}
    GetAnswersLastWrite(setup, with, key, now);
    GetAnswersLastWrite(setup, without, key, now);
    CleanupWritesNothing(setup, before, t, after, key);
  }

  predicate Invalidates<V>(setup: Setup, op: Op<V>, key: string) {
    match op
    case Delete(k) => k == key
    case DeletePattern(pattern) => setup.matches(key, pattern)
    case Clear => true
    case _ => false
  }

  lemma {:induction false} WrittenAfterSet<V(!new)>(
    setup: Setup, before: seq<Op<V>>, setOp: Op<V>, after: seq<Op<V>>, key: string)
    requires setOp.Set? && setOp.key == key
    requires forall op :: op in after ==> !(op.Set? && op.key == key)
    ensures Written(setup, before + [setOp] + after, key) ==
      if exists op :: op in after && Invalidates(setup, op, key) then None
      else Some(Entry(setOp.value, Expiry<V>(setup, setOp.ttl, setOp.now)))
  {
    var ops := before + [setOp] + after;
    if after == [] {
      assert ops[..|ops| - 1] == before && ops[|ops| - 1] == setOp;
    } else {
      var rest, last := after[..|after| - 1], after[|after| - 1];
      assert ops[..|ops| - 1] == before + [setOp] + rest && ops[|ops| - 1] == last;
      assert forall op :: op in after <==> op in rest || op == last;
      WrittenAfterSet(setup, before, setOp, rest, key);
      assert (exists op :: op in after && Invalidates(setup, op, key)) <==>
        (exists op :: op in rest && Invalidates(setup, op, key)) || Invalidates(setup, last, key);
    }
  }

  /**
   * A computed value, once stored, is served as long as its TTL lasts and no invalidation comes
   * after it was stored, and no longer. Invalidations while the function was running are among
   * `before`: they are lost, and what was computed from the old data is served in spite of them.
   */
  lemma StoredValueIsServedIff<V(!new)>(
    setup: Setup, before: seq<Op<V>>, key: string, value: V, ttl: Option<int>, later: int, after: seq<Op<V>>, now: int)
    requires Ticking(before + [Set(key, value, ttl, later)] + after, now)
    requires forall op :: op in after ==> !(op.Set? && op.key == key)
    ensures Answer(Run(setup, before + [Set(key, value, ttl, later)] + after), key, now) ==
      if now - later <= (if ttl.Some? then ttl.value else setup.defaultTtl)
         && !exists op :: op in after && (op == Delete(key) || op.Clear? || (op.DeletePattern? && setup.matches(key, op.pattern)))
      then Some(value) else None
  {
    var ops := before + [Set(key, value, ttl, later)] + after;
    GetAnswersLastWrite(setup, ops, key, now);
    WrittenAfterSet(setup, before, Set(key, value, ttl, later), after, key);
  }

  /** A key nothing has been stored under is not answered. */
  lemma NothingStoredNothingServed<V(!new)>(setup: Setup, ops: seq<Op<V>>, key: string, now: int)
    requires Ticking(ops, now) && forall op :: op in ops ==> !(op.Set? && op.key == key)
    ensures Answer(Run(setup, ops), key, now) == None
  {
    GetAnswersLastWrite(setup, ops, key, now);
    NeverWritten(setup, ops, key);
  }

  lemma {:induction false} NeverWritten<V(!new)>(setup: Setup, ops: seq<Op<V>>, key: string)
    requires forall op :: op in ops ==> !(op.Set? && op.key == key)
    ensures Written(setup, ops, key) == None
  {
    if ops != [] {
      assert ops[|ops| - 1] in ops;
      NeverWritten(setup, ops[..|ops| - 1], key);
    }
  }

  /** The same invalidation works after the store and is lost before it. */
  lemma OverlappingInvalidationIsLost<V(!new)>(setup: Setup, key: string, value: V, ttl: nat, pattern: string)
    requires setup.matches(key, pattern)
    ensures Answer(Run(setup, [Get(key, 0), DeletePattern(pattern), Set(key, value, Some(ttl), 0)]), key, 0) == Some(value)
    ensures Answer(Run(setup, [Get(key, 0), Set(key, value, Some(ttl), 0), DeletePattern(pattern)]), key, 0) == None
  {
    var get, stored, gone := Op<V>.Get(key, 0), Op<V>.Set(key, value, Some(ttl), 0), Op<V>.DeletePattern(pattern);
    assert [get, gone] + [stored] + [] == [get, gone, stored];
    StoredValueIsServedIff(setup, [get, gone], key, value, Some(ttl), 0, [], 0);
    assert [get] + [stored] + [gone] == [get, stored, gone] && gone in [gone];
    GetAnswersLastWrite(setup, [get, stored, gone], key, 0);
    WrittenAfterSet(setup, [get], stored, [gone], key);
  }

  /** How many gets there were since the last clear. */
  function Gets<V>(ops: seq<Op<V>>): nat {
    if ops == [] then 0
    else
      match ops[|ops| - 1]
      case Get(_, _) => Gets(ops[..|ops| - 1]) + 1
      case Clear => 0
      case _ => Gets(ops[..|ops| - 1])
  }

  /** Every get is counted once, as a hit or as a miss. */
  lemma {:induction false} HitsAndMissesAreGets<V>(setup: Setup, ops: seq<Op<V>>)
    ensures Run(setup, ops).hits + Run(setup, ops).misses == Gets(ops)
  {
    if ops != [] { HitsAndMissesAreGets(setup, ops[..|ops| - 1]); }
  }
}
