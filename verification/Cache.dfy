/** The TTL cache with LRU eviction, and what it keeps over any run of calls. */
module Cache {
  import opened Wrappers

  datatype Item<V> = Item(key: string, value: V, expires: real)

  /** Seconds to live per content category. */
  datatype Ttls = Ttls(index: nat, embedding: nat, report: nat) {
    function For(category: string): nat {
      match category
      case "embedding" => embedding
      case "report" => report
      case _ => index
    }
  }

  datatype Config = Config(ttls: Ttls, max: nat)

  /** The cache as a value; `store` lists the ordered dictionary from oldest to newest. */
  datatype State<V> = State(store: seq<Item<V>>, enabled: bool, hits: nat, misses: nat, evictions: nat)

  function Lookup<V>(store: seq<Item<V>>, key: string): Option<Item<V>> {
    if |store| == 0 then None
    else if store[|store| - 1].key == key then Some(store[|store| - 1])
    else Lookup(store[..|store| - 1], key)
  }

  /** Delete the entries of a set of keys. */
  function Remove<V>(store: seq<Item<V>>, keys: set<string>): seq<Item<V>> {
    if |store| == 0 then []
    else
      var rest, it := Remove(store[..|store| - 1], keys), store[|store| - 1];
      if it.key in keys then rest else rest + [it]
  }

  function Without<V>(store: seq<Item<V>>, key: string): seq<Item<V>> {
    Remove(store, {key})
  }

  function WithoutPrefix<V>(store: seq<Item<V>>, prefix: string): seq<Item<V>> {
    if |store| == 0 then []
    else
      var rest, it := WithoutPrefix(store[..|store| - 1], prefix), store[|store| - 1];
      if prefix <= it.key then rest else rest + [it]
  }

  /** Pop from the old end until there is room for one more entry. */
  function MakeRoom<V>(store: seq<Item<V>>, max: nat): seq<Item<V>> {
    if |store| < max || store == [] then store else MakeRoom(store[1..], max)
  }

  function AfterGet<V>(s: State<V>, key: string, now: real): State<V> {
    if !s.enabled then s
    else match Lookup(s.store, key)
      case None => s.(misses := s.misses + 1)
      case Some(it) =>
        if now > it.expires then
          s.(store := Without(s.store, key), evictions := s.evictions + 1, misses := s.misses + 1)
        else
          s.(store := Without(s.store, key) + [it], hits := s.hits + 1)
  }

  function GetResult<V>(s: State<V>, key: string, now: real): Option<V> {
    if !s.enabled then None
    else match Lookup(s.store, key)
      case None => None
      case Some(it) => if now > it.expires then None else Some(it.value)
  }

  function AfterSet<V>(s: State<V>, it: Item<V>, max: nat): State<V> {
    if !s.enabled || it.key == "" then s
    else
      var room := MakeRoom(s.store, max);
      s.(store := Without(room, it.key) + [it],
         evictions := s.evictions + if |room| <= |s.store| then |s.store| - |room| else 0)
  }

  class TTLCache<V(!new)> {
    const cfg: Config
    var store: seq<Item<V>>
    var enabled: bool
    var hits: nat
    var misses: nat
    var evictions: nat

    function Snapshot(): State<V>
      reads this
    {
      State(store, enabled, hits, misses, evictions)
    }

    constructor (cfg: Config, enabled: bool)
      ensures this.cfg == cfg && Snapshot() == State([], enabled, 0, 0, 0)
    {
      this.cfg, this.enabled := cfg, enabled;
      store, hits, misses, evictions := [], 0, 0, 0;
    }

    method Get(key: string, now: real) returns (found: Option<V>)
      modifies this
      ensures found == GetResult(old(Snapshot()), key, now)
      ensures Snapshot() == AfterGet(old(Snapshot()), key, now)
    {
      if !enabled {
        return None;
      }
      var entry := Lookup(store, key);
      if entry.None? {
        misses := misses + 1;
        return None;
      }
      if now > entry.value.expires {
        store := Without(store, key);
        evictions := evictions + 1;
        misses := misses + 1;
        return None;
      }
      store := Without(store, key) + [entry.value];
      hits := hits + 1;
      return Some(entry.value.value);
    }

    method Set(key: string, value: V, category: string, now: real)
      requires cfg.max >= 1
      modifies this
      ensures Snapshot() == AfterSet(old(Snapshot()), Item(key, value, now + cfg.ttls.For(category) as real), cfg.max)
    {
      if !enabled || key == "" {
        return;
      }
      var expires := now + cfg.ttls.For(category) as real;
      while |store| >= cfg.max
        invariant MakeRoom(store, cfg.max) == MakeRoom(old(store), cfg.max)
        invariant evictions + |store| == old(evictions) + |old(store)|
        invariant enabled == old(enabled) && hits == old(hits) && misses == old(misses)
        decreases |store|
      {
        store := store[1..];
        evictions := evictions + 1;
      }
      MakeRoomSuffix(old(store), cfg.max);
      store := Without(store, key) + [Item(key, value, expires)];
    }

    method DeleteAll(keys: seq<string>)
      modifies this`store
      ensures store == Remove(old(store), Elements(keys))
    {
      RemoveNothing(store);
      assert Elements(keys[..0]) == {};
      for i := 0 to |keys|
        invariant store == Remove(old(store), Elements(keys[..i]))
      {
        RemoveTwice(old(store), Elements(keys[..i]), keys[i]);
        assert Elements(keys[..i + 1]) == Elements(keys[..i]) + {keys[i]};
        store := Without(store, keys[i]);
      }
      assert keys[..|keys|] == keys;
    }

    /** Collect the matching keys, then delete them one by one. */
    method Invalidate(prefix: string) returns (removed: nat)
      modifies this`store
      ensures store == WithoutPrefix(old(store), prefix)
      ensures removed + |store| == |old(store)|
    {
      var toRemove: seq<string> := [];
      for i := 0 to |store|
        invariant toRemove == MatchingKeys(store[..i], prefix)
      {
        assert store[..i + 1][..i] == store[..i];
        if prefix <= store[i].key {
          toRemove := toRemove + [store[i].key];
        }
      }
      assert store[..|store|] == store;
      MatchingKeysChar(store, prefix);
      RemoveMatching(store, Elements(toRemove), prefix);
      DeleteAll(toRemove);
      removed := |toRemove|;
    }

    method InvalidateProject(projectId: string) returns (removed: nat)
      modifies this`store
      ensures store == WithoutPrefix(old(store), "project:" + projectId + ":")
      ensures removed + |store| == |old(store)|
    {
      removed := Invalidate("project:" + projectId + ":");
    }

    method Clear() returns (count: nat)
      modifies this`store
      ensures store == [] && count == |old(store)|
    {
      count := |store|;
      store := [];
    }

    method SetEnabled(on: bool)
      modifies this`enabled
      ensures Snapshot() == old(Snapshot()).(enabled := on)
    {
      enabled := on;
    }
  }

  function Elements(keys: seq<string>): set<string> {
    set k | k in keys
  }

  function MatchingKeys<V>(store: seq<Item<V>>, prefix: string): seq<string> {
    if |store| == 0 then []
    else
      var rest, it := MatchingKeys(store[..|store| - 1], prefix), store[|store| - 1];
      if prefix <= it.key then rest + [it.key] else rest
  }

  lemma {:induction false} MatchingKeysChar<V(!new)>(store: seq<Item<V>>, prefix: string)
    ensures |MatchingKeys(store, prefix)| + |WithoutPrefix(store, prefix)| == |store|
    ensures forall it :: it in store ==> (it.key in MatchingKeys(store, prefix) <==> prefix <= it.key)
    ensures forall k :: k in MatchingKeys(store, prefix) ==> prefix <= k
  {
    if |store| > 0 {
      MatchingKeysChar(store[..|store| - 1], prefix);
    }
  }

  lemma {:induction false} RemoveNothing<V(!new)>(store: seq<Item<V>>)
    ensures Remove(store, {}) == store
  {
    if |store| > 0 {
      RemoveNothing(store[..|store| - 1]);
    }
  }

  lemma {:induction false} RemoveTwice<V(!new)>(store: seq<Item<V>>, keys: set<string>, key: string)
    ensures Without(Remove(store, keys), key) == Remove(store, keys + {key})
  {
    if |store| > 0 {
      var it := store[|store| - 1];
      RemoveTwice(store[..|store| - 1], keys, key);
      var rest := Remove(store[..|store| - 1], keys);
      assert (rest + [it])[..|rest|] == rest;
    }
  }

  lemma {:induction false} RemoveMatching<V(!new)>(store: seq<Item<V>>, keys: set<string>, prefix: string)
    requires forall it :: it in store ==> (it.key in keys <==> prefix <= it.key)
    ensures Remove(store, keys) == WithoutPrefix(store, prefix)
  {
    if |store| > 0 {
      RemoveMatching(store[..|store| - 1], keys, prefix);
    }
  }

  lemma {:induction false} MakeRoomSuffix<V(!new)>(store: seq<Item<V>>, max: nat)
    requires max >= 1
    ensures MakeRoom(store, max) == if |store| < max then store else store[|store| - max + 1..]
  {
    if |store| >= max {
      MakeRoomSuffix(store[1..], max);
    }
  }

  // ---------------------------------------------------------------- runs of calls

  datatype Op<V> =
    | Get(key: string, at: real)
    | Set(key: string, value: V, category: string, at: real)
    | Invalidate(prefix: string)
    | Clear
    | Enable(on: bool)

  function ItemOf<V>(op: Op<V>, cfg: Config): Item<V>
    requires op.Set?
  {
    Item(op.key, op.value, op.at + cfg.ttls.For(op.category) as real)
  }

  function Step<V>(s: State<V>, op: Op<V>, cfg: Config): State<V> {
    match op
    case Get(key, at) => AfterGet(s, key, at)
    case Set(_, _, _, _) => AfterSet(s, ItemOf(op, cfg), cfg.max)
    case Invalidate(prefix) => s.(store := WithoutPrefix(s.store, prefix))
    case Clear => s.(store := [])
    case Enable(on) => s.(enabled := on)
  }

  function Run<V>(ops: seq<Op<V>>, cfg: Config): State<V> {
    if |ops| == 0 then State([], true, 0, 0, 0) else Step(Run(ops[..|ops| - 1], cfg), ops[|ops| - 1], cfg)
  }

  /** An effective `set`, or a `get` that hits, touches its key. */
  predicate Touches<V>(s: State<V>, op: Op<V>, key: string) {
    match op
    case Get(k, at) => k == key && GetResult(s, k, at).Some?
    case Set(k, _, _, _) => k == key && s.enabled && k != ""
    case _ => false
  }

  /** The index of the last call that touched `key`, or -1. */
  function LastTouch<V>(ops: seq<Op<V>>, cfg: Config, key: string): int {
    if |ops| == 0 then -1
    else
      var before := ops[..|ops| - 1];
      if Touches(Run(before, cfg), ops[|ops| - 1], key) then |ops| - 1 else LastTouch(before, cfg, key)
  }

  /** The keys touched by calls later than index `i`. */
  function TouchedAfter<V>(ops: seq<Op<V>>, cfg: Config, i: int): set<string> {
    if |ops| == 0 || |ops| - 1 <= i then {}
    else
      var before, op := ops[..|ops| - 1], ops[|ops| - 1];
      var earlier := TouchedAfter(before, cfg, i);
      if (op.Get? || op.Set?) && Touches(Run(before, cfg), op, op.key) then earlier + {op.key} else earlier
  }

  /** Reference: a timestamped map of unlimited size. A later `set` replaces an
      earlier one, invalidation and a look-up after expiry remove. */
  function Ideal<V>(ops: seq<Op<V>>, cfg: Config): map<string, Item<V>> {
    if |ops| == 0 then map[]
    else
      var before, op := ops[..|ops| - 1], ops[|ops| - 1];
      var m, enabled := Ideal(before, cfg), Run(before, cfg).enabled;
      match op
      case Get(key, at) => if enabled && key in m && at > m[key].expires then m - {key} else m
      case Set(key, _, _, _) => if enabled && key != "" then m[key := ItemOf(op, cfg)] else m
      case Invalidate(prefix) => map k | k in m && !(prefix <= k) :: m[k]
      case Clear => map[]
      case Enable(_) => m
  }

  /** Oldest last touch first. */
  ghost predicate InTouchOrder<V(!new)>(store: seq<Item<V>>, ops: seq<Op<V>>, cfg: Config) {
    forall i, j :: 0 <= i < j < |store| ==> LastTouch(ops, cfg, store[i].key) < LastTouch(ops, cfg, store[j].key)
  }

  lemma {:induction false} RemoveMembers<V(!new)>(store: seq<Item<V>>, keys: set<string>)
    ensures |Remove(store, keys)| <= |store|
    ensures forall it :: it in Remove(store, keys) <==> it in store && it.key !in keys
  {
    if |store| > 0 {
      RemoveMembers(store[..|store| - 1], keys);
      assert store == store[..|store| - 1] + [store[|store| - 1]];
    }
  }

  lemma OrderPush<V(!new)>(store: seq<Item<V>>, last: Item<V>, ops: seq<Op<V>>, cfg: Config)
    requires InTouchOrder(store, ops, cfg)
    requires forall it :: it in store ==> LastTouch(ops, cfg, it.key) < LastTouch(ops, cfg, last.key)
    ensures InTouchOrder(store + [last], ops, cfg)
  {
    assert forall i :: 0 <= i < |store| ==> store[i] in store;
  }

  lemma {:induction false} RemoveKeepsOrder<V(!new)>(store: seq<Item<V>>, keys: set<string>, ops: seq<Op<V>>, cfg: Config)
    requires InTouchOrder(store, ops, cfg)
    ensures InTouchOrder(Remove(store, keys), ops, cfg)
  {
    if |store| > 0 {
      var init, last := store[..|store| - 1], store[|store| - 1];
      RemoveKeepsOrder(init, keys, ops, cfg);
      RemoveMembers(init, keys);
      forall it | it in Remove(init, keys)
        ensures LastTouch(ops, cfg, it.key) < LastTouch(ops, cfg, last.key)
      {
        assert it in init;
        var i :| 0 <= i < |init| && init[i] == it;
      }
      OrderPush(Remove(init, keys), last, ops, cfg);
    }
  }

  lemma {:induction false} PrefixRemoval<V(!new)>(store: seq<Item<V>>, prefix: string, ops: seq<Op<V>>, cfg: Config)
    requires InTouchOrder(store, ops, cfg)
    ensures InTouchOrder(WithoutPrefix(store, prefix), ops, cfg)
    ensures |WithoutPrefix(store, prefix)| <= |store|
    ensures forall it :: it in WithoutPrefix(store, prefix) <==> it in store && !(prefix <= it.key)
  {
    MatchingKeysChar(store, prefix);
    RemoveMatching(store, Elements(MatchingKeys(store, prefix)), prefix);
    RemoveMembers(store, Elements(MatchingKeys(store, prefix)));
    RemoveKeepsOrder(store, Elements(MatchingKeys(store, prefix)), ops, cfg);
  }

  lemma {:induction false} LookupFinds<V(!new)>(store: seq<Item<V>>, key: string)
    ensures match Lookup(store, key)
            case Some(it) => it in store && it.key == key
            case None => forall it :: it in store ==> it.key != key
  {
    if |store| > 0 {
      LookupFinds(store[..|store| - 1], key);
    }
  }

  /** In touch order, entries of one key are one entry. */
  lemma SameKeySameItem<V(!new)>(store: seq<Item<V>>, x: Item<V>, y: Item<V>, ops: seq<Op<V>>, cfg: Config)
    requires InTouchOrder(store, ops, cfg) && x in store && y in store && x.key == y.key
    ensures x == y
  {
    var i :| 0 <= i < |store| && store[i] == x;
    var j :| 0 <= j < |store| && store[j] == y;
    assert !(i < j) && !(j < i);
  }

  lemma LookupChar<V(!new)>(store: seq<Item<V>>, key: string, ops: seq<Op<V>>, cfg: Config)
    requires InTouchOrder(store, ops, cfg)
    ensures Lookup(store, key).Some? ==> Lookup(store, key).value in store && Lookup(store, key).value.key == key
    ensures forall it :: it in store && it.key == key ==> Lookup(store, key) == Some(it)
  {
    LookupFinds(store, key);
    forall it | it in store && it.key == key
      ensures Lookup(store, key) == Some(it)
    {
      SameKeySameItem(store, it, Lookup(store, key).value, ops, cfg);
    }
  }

  lemma {:induction false} TouchBounds<V(!new)>(ops: seq<Op<V>>, cfg: Config, key: string)
    ensures -1 <= LastTouch(ops, cfg, key) < |ops|
  {
    if |ops| > 0 {
      TouchBounds(ops[..|ops| - 1], cfg, key);
    }
  }

  /** Keys that the last call does not touch keep their place in the order. */
  lemma OrderSurvives<V(!new)>(store: seq<Item<V>>, ops: seq<Op<V>>, cfg: Config)
    requires |ops| > 0 && InTouchOrder(store, ops[..|ops| - 1], cfg)
    requires forall it :: it in store ==> !Touches(Run(ops[..|ops| - 1], cfg), ops[|ops| - 1], it.key)
    ensures InTouchOrder(store, ops, cfg)
  {
    forall i, j | 0 <= i < j < |store|
      ensures LastTouch(ops, cfg, store[i].key) < LastTouch(ops, cfg, store[j].key)
    {
      assert store[i] in store && store[j] in store;
    }
  }

  /** Moving the touched key to the new end keeps the order. */
  lemma TouchedToEnd<V(!new)>(room: seq<Item<V>>, it: Item<V>, ops: seq<Op<V>>, cfg: Config)
    requires |ops| > 0 && InTouchOrder(room, ops[..|ops| - 1], cfg)
    requires Touches(Run(ops[..|ops| - 1], cfg), ops[|ops| - 1], it.key)
    ensures InTouchOrder(Without(room, it.key) + [it], ops, cfg)
  {
    RemoveKeepsOrder(room, {it.key}, ops[..|ops| - 1], cfg);
    RemoveMembers(room, {it.key});
    forall x | x in Without(room, it.key)
      ensures !Touches(Run(ops[..|ops| - 1], cfg), ops[|ops| - 1], x.key)
    {
      assert x in Remove(room, {it.key});
    }
    OrderSurvives(Without(room, it.key), ops, cfg);
    forall x | x in Without(room, it.key)
      ensures LastTouch(ops, cfg, x.key) < LastTouch(ops, cfg, it.key)
    {
      TouchBounds(ops[..|ops| - 1], cfg, x.key);
    }
    OrderPush(Without(room, it.key), it, ops, cfg);
  }

  /** Every entry is what the unlimited reference map holds for its key. */
  ghost predicate Faithful<V(!new)>(store: seq<Item<V>>, ideal: map<string, Item<V>>) {
    forall it :: it in store ==> it.key in ideal && ideal[it.key] == it
  }

  /** What every state of every run satisfies: bounded size, store order equal
      to last-touch order, and no entry the unlimited reference map lacks. */
  ghost predicate Invariant<V(!new)>(ops: seq<Op<V>>, cfg: Config) {
    var store := Run(ops, cfg).store;
    |store| <= cfg.max && InTouchOrder(store, ops, cfg) && Faithful(store, Ideal(ops, cfg))
  }

  lemma SetKeepsInvariant<V(!new)>(ops: seq<Op<V>>, cfg: Config)
    requires cfg.max >= 1 && |ops| > 0 && ops[|ops| - 1].Set?
    requires Invariant(ops[..|ops| - 1], cfg)
    ensures Invariant(ops, cfg)
  {
    var before, op := ops[..|ops| - 1], ops[|ops| - 1];
    var s := Run(before, cfg);
    if s.enabled && op.key != "" {
      var it, room := ItemOf(op, cfg), MakeRoom(s.store, cfg.max);
      MakeRoomSuffix(s.store, cfg.max);
      assert InTouchOrder(room, before, cfg);
      TouchedToEnd(room, it, ops, cfg);
      RemoveMembers(room, {it.key});
      forall x | x in Run(ops, cfg).store
        ensures x.key in Ideal(ops, cfg) && Ideal(ops, cfg)[x.key] == x
      {
        assert x == it || x in Remove(room, {it.key});
        assert x == it || x in s.store;
      }
    } else {
      OrderSurvives(s.store, ops, cfg);
    }
  }

  lemma HitKeepsInvariant<V(!new)>(ops: seq<Op<V>>, cfg: Config)
    requires |ops| > 0 && ops[|ops| - 1].Get?
    requires Invariant(ops[..|ops| - 1], cfg)
    requires GetResult(Run(ops[..|ops| - 1], cfg), ops[|ops| - 1].key, ops[|ops| - 1].at).Some?
    ensures Invariant(ops, cfg)
  {
    var before, op := ops[..|ops| - 1], ops[|ops| - 1];
    var s := Run(before, cfg);
    LookupChar(s.store, op.key, before, cfg);
    var it := Lookup(s.store, op.key).value;
    TouchedToEnd(s.store, it, ops, cfg);
    SizeWithout(s.store, it);
    RemoveMembers(s.store, {it.key});
    assert Ideal(ops, cfg) == Ideal(before, cfg);
    forall x | x in Run(ops, cfg).store
      ensures x in s.store
    {
      assert x == it || x in Remove(s.store, {it.key});
    }
  }

  lemma MissKeepsInvariant<V(!new)>(ops: seq<Op<V>>, cfg: Config)
    requires |ops| > 0 && ops[|ops| - 1].Get?
    requires Invariant(ops[..|ops| - 1], cfg)
    requires GetResult(Run(ops[..|ops| - 1], cfg), ops[|ops| - 1].key, ops[|ops| - 1].at).None?
    ensures Invariant(ops, cfg)
  {
    var before, op := ops[..|ops| - 1], ops[|ops| - 1];
    var s, store := Run(before, cfg), Run(ops, cfg).store;
    LookupChar(s.store, op.key, before, cfg);
    RemoveMembers(s.store, {op.key});
    RemoveKeepsOrder(s.store, {op.key}, before, cfg);
    OrderSurvives(store, ops, cfg);
    forall x | x in store
      ensures x in s.store && x.key in Ideal(ops, cfg) && Ideal(ops, cfg)[x.key] == x
    {
      assert x in s.store;
      if x.key == op.key {
        assert Lookup(s.store, op.key) == Some(x);
      }
    }
  }

  lemma {:induction false} SizeWithout<V(!new)>(store: seq<Item<V>>, it: Item<V>)
    requires it in store
    ensures |Without(store, it.key)| < |store|
  {
    RemoveMembers(store[..|store| - 1], {it.key});
    if store[|store| - 1] != it {
      SizeWithout(store[..|store| - 1], it);
    }
  }

  /** The invariant holds after every run of calls. */
  lemma {:induction false} RunKeepsInvariant<V(!new)>(ops: seq<Op<V>>, cfg: Config)
    requires cfg.max >= 1
    ensures Invariant(ops, cfg)
  {
    if |ops| > 0 {
      var before, op := ops[..|ops| - 1], ops[|ops| - 1];
      var s := Run(before, cfg);
      RunKeepsInvariant(before, cfg);
      match op
      case Get(key, at) =>
        if GetResult(s, key, at).Some? {
          HitKeepsInvariant(ops, cfg);
        } else {
          MissKeepsInvariant(ops, cfg);
        }
      case Set(_, _, _, _) => SetKeepsInvariant(ops, cfg);
      case Invalidate(prefix) =>
        PrefixRemoval(s.store, prefix, before, cfg);
        OrderSurvives(WithoutPrefix(s.store, prefix), ops, cfg);
        assert forall x :: x in WithoutPrefix(s.store, prefix) ==> x in s.store && !(prefix <= x.key);
      case Clear =>
      case Enable(_) => OrderSurvives(s.store, ops, cfg);
    }
  }

  /** A `get` returns only what the latest `set` of that key stored, unexpired
      and not invalidated since; the size bound holds whatever happened before. */
  lemma GetReturnsLatestSet<V(!new)>(ops: seq<Op<V>>, cfg: Config, key: string, now: real)
    requires cfg.max >= 1
    ensures |Run(ops, cfg).store| <= cfg.max
    ensures var ideal, found := Ideal(ops, cfg), GetResult(Run(ops, cfg), key, now);
            found.Some? ==> key in ideal && now <= ideal[key].expires && found.value == ideal[key].value
  {
    RunKeepsInvariant(ops, cfg);
    LookupChar(Run(ops, cfg).store, key, ops, cfg);
  }

  /** A key whose last touch is later than index `i` is among the keys touched after `i`. */
  lemma {:induction false} LaterTouchIsCounted<V(!new)>(ops: seq<Op<V>>, cfg: Config, i: int, key: string)
    requires i >= -1 && LastTouch(ops, cfg, key) > i
    ensures key in TouchedAfter(ops, cfg, i)
  {
    var before := ops[..|ops| - 1];
    TouchBounds(ops, cfg, key);
    if !Touches(Run(before, cfg), ops[|ops| - 1], key) {
      LaterTouchIsCounted(before, cfg, i, key);
    }
  }

  lemma {:induction false} DistinctKeysCounted<V(!new)>(store: seq<Item<V>>, keys: set<string>, ops: seq<Op<V>>, cfg: Config)
    requires InTouchOrder(store, ops, cfg)
    requires forall it :: it in store ==> it.key in keys
    ensures |store| <= |keys|
  {
    if |store| > 0 {
      var init, last := store[..|store| - 1], store[|store| - 1];
      assert last in store;
      forall it | it in init
        ensures it.key in keys - {last.key}
      {
        assert it in store;
        var i :| 0 <= i < |init| && init[i] == it;
      }
      DistinctKeysCounted(init, keys - {last.key}, ops, cfg);
    }
  }

  /** When the oldest entry is pushed out, `max - 1` other keys have been touched since its last touch. */
  lemma OldestOutlived<V(!new)>(ops: seq<Op<V>>, cfg: Config)
    requires cfg.max >= 1 && Invariant(ops, cfg) && |Run(ops, cfg).store| == cfg.max
    ensures var oldest := Run(ops, cfg).store[0].key;
            |TouchedAfter(ops, cfg, LastTouch(ops, cfg, oldest)) - {oldest}| >= cfg.max - 1
  {
    var store := Run(ops, cfg).store;
    var oldest, rest := store[0].key, store[1..];
    var others := TouchedAfter(ops, cfg, LastTouch(ops, cfg, oldest)) - {oldest};
    TouchBounds(ops, cfg, oldest);
    forall it | it in rest
      ensures it.key in others
    {
      var j :| 0 <= j < |rest| && rest[j] == it;
      assert store[j + 1] == it;
      LaterTouchIsCounted(ops, cfg, LastTouch(ops, cfg, oldest), it.key);
    }
    DistinctKeysCounted(rest, others, ops, cfg);
  }

  lemma {:induction false} IdealKeysWereTouched<V(!new)>(ops: seq<Op<V>>, cfg: Config, key: string)
    requires key in Ideal(ops, cfg)
    ensures Ideal(ops, cfg)[key].key == key && key != ""
    ensures LastTouch(ops, cfg, key) >= 0
  {
    var before, op := ops[..|ops| - 1], ops[|ops| - 1];
    if !(op.Set? && op.key == key && Run(before, cfg).enabled && key != "") {
      IdealKeysWereTouched(before, cfg, key);
    }
  }

  /** The keys other than `key` touched since its last touch. */
  function Rivals<V>(ops: seq<Op<V>>, cfg: Config, key: string): set<string> {
    TouchedAfter(ops, cfg, LastTouch(ops, cfg, key)) - {key}
  }

  /** Making room for another key does not push out an entry with few rivals. */
  lemma RoomRetains<V(!new)>(ops: seq<Op<V>>, cfg: Config, it: Item<V>)
    requires cfg.max >= 1 && Invariant(ops, cfg)
    requires |Rivals(ops, cfg, it.key)| < cfg.max - 1
    requires it in Run(ops, cfg).store
    ensures it in MakeRoom(Run(ops, cfg).store, cfg.max)
  {
    var store := Run(ops, cfg).store;
    MakeRoomSuffix(store, cfg.max);
    if |store| == cfg.max {
      OldestOutlived(ops, cfg);
      var i :| 0 <= i < |store| && store[i] == it;
      assert i != 0;
      assert store[1..][i - 1] == it;
    }
  }

  lemma GetRetains<V(!new)>(ops: seq<Op<V>>, cfg: Config, key: string, at: real, it: Item<V>)
    requires Invariant(ops, cfg) && it in Run(ops, cfg).store
    requires key == it.key ==> Run(ops, cfg).enabled ==> at <= it.expires
    ensures it in AfterGet(Run(ops, cfg), key, at).store
  {
    LookupChar(Run(ops, cfg).store, key, ops, cfg);
    RemoveMembers(Run(ops, cfg).store, {key});
  }

  lemma {:induction false} SetRetains<V(!new)>(ops: seq<Op<V>>, cfg: Config, other: Item<V>, it: Item<V>)
    requires cfg.max >= 1 && Invariant(ops, cfg) && it in Run(ops, cfg).store
    requires |Rivals(ops, cfg, it.key)| < cfg.max - 1
    requires other.key != it.key
    ensures it in AfterSet(Run(ops, cfg), other, cfg.max).store
  {
    RoomRetains(ops, cfg, it);
    RemoveMembers(MakeRoom(Run(ops, cfg).store, cfg.max), {other.key});
  }

  /** The entry of an untouched key survives the last call while it has few rivals. */
  lemma {:induction false} StepRetains<V(!new)>(ops: seq<Op<V>>, cfg: Config, it: Item<V>)
    requires cfg.max >= 1 && |ops| > 0 && Invariant(ops[..|ops| - 1], cfg)
    requires !Touches(Run(ops[..|ops| - 1], cfg), ops[|ops| - 1], it.key)
    requires it.key in Ideal(ops[..|ops| - 1], cfg) && Ideal(ops[..|ops| - 1], cfg)[it.key] == it
    requires |Rivals(ops[..|ops| - 1], cfg, it.key)| < cfg.max - 1
    requires it in Run(ops[..|ops| - 1], cfg).store && it.key in Ideal(ops, cfg)
    ensures it in Run(ops, cfg).store
  {
    var before, op := ops[..|ops| - 1], ops[|ops| - 1];
    match op
    case Get(k, at) => GetRetains(before, cfg, k, at, it);
    case Set(k, _, _, _) =>
      if Run(before, cfg).enabled && k != "" {
        SetRetains(before, cfg, ItemOf(op, cfg), it);
      }
    case Invalidate(prefix) => PrefixRemoval(Run(before, cfg).store, prefix, before, cfg);
    case Clear =>
    case Enable(_) =>
  }

  /** Capacity never costs a recently used entry: while fewer than `max - 1` other
      keys were touched since its last touch, the cache still holds what the
      unlimited reference map holds for the key. */
  lemma {:induction false} FewRivalsRetained<V(!new)>(ops: seq<Op<V>>, cfg: Config, key: string)
    requires cfg.max >= 1 && key in Ideal(ops, cfg)
    requires |Rivals(ops, cfg, key)| < cfg.max - 1
    ensures Ideal(ops, cfg)[key] in Run(ops, cfg).store
  {
    var before, op := ops[..|ops| - 1], ops[|ops| - 1];
    var s := Run(before, cfg);
    RunKeepsInvariant(ops, cfg);
    RunKeepsInvariant(before, cfg);
    if Touches(s, op, key) {
      var last := Run(ops, cfg).store[|Run(ops, cfg).store| - 1];
      assert last.key == key by {
        LookupChar(s.store, key, before, cfg);
      }
      assert last in Run(ops, cfg).store;
    } else {
      assert Rivals(before, cfg, key) <= Rivals(ops, cfg, key);
      FewRivals(Rivals(before, cfg, key), Rivals(ops, cfg, key));
      FewRivalsRetained(before, cfg, key);
      IdealKeysWereTouched(before, cfg, key);
      StepRetains(ops, cfg, Ideal(before, cfg)[key]);
    }
  }

  lemma {:induction false} FewRivals(a: set<string>, b: set<string>)
    requires a <= b
    ensures |a| <= |b|
  {
    if a != {} {
      var x :| x in a;
      FewRivals(a - {x}, b - {x});
    }
  }

  // ---------------------------------------------------------------- the bound is exact

  /** One `set` for each of the first `n` keys, all of the same value, category and time. */
  function Sets<V>(keys: seq<string>, n: nat, value: V, at: real): seq<Op<V>>
    requires n <= |keys|
  {
    seq(n, i requires 0 <= i < n => Set(keys[i], value, "index", at))
  }

  function Items<V>(keys: seq<string>, n: nat, value: V, at: real, cfg: Config): seq<Item<V>>
    requires n <= |keys|
  {
    seq(n, i requires 0 <= i < n => Item(keys[i], value, at + cfg.ttls.index as real))
  }

  predicate DistinctKeys(keys: seq<string>) {
    && (forall i :: 0 <= i < |keys| ==> |keys[i]| > 0)
    && (forall i, j :: 0 <= i < j < |keys| ==> keys[i] != keys[j])
  }

  lemma {:induction false} RemoveAbsent<V(!new)>(store: seq<Item<V>>, key: string)
    requires forall i :: 0 <= i < |store| ==> store[i].key != key
    ensures Without(store, key) == store
  {
    if |store| > 0 {
      RemoveAbsent(store[..|store| - 1], key);
    }
  }

  lemma SetsSnoc<V>(keys: seq<string>, n: nat, value: V, at: real)
    requires 0 < n <= |keys|
    ensures Sets(keys, n, value, at) == Sets(keys, n - 1, value, at) + [Set(keys[n - 1], value, "index", at)]
    ensures Sets(keys, n, value, at)[..n - 1] == Sets(keys, n - 1, value, at)
  {
  }

  lemma ItemsSnoc<V>(keys: seq<string>, n: nat, value: V, at: real, cfg: Config)
    requires 0 < n <= |keys|
    ensures Items(keys, n, value, at, cfg)
         == Items(keys, n - 1, value, at, cfg) + [Item(keys[n - 1], value, at + cfg.ttls.index as real)]
  {
  }

  lemma SliceSnoc(keys: seq<string>, n: nat)
    requires 1 < n <= |keys|
    ensures Elements(keys[1..n]) == Elements(keys[1..n - 1]) + {keys[n - 1]}
  {
    assert keys[1..n] == keys[1..n - 1] + [keys[n - 1]];
  }

  /** Storing a new key while there is room appends it. */
  lemma SetAppends<V(!new)>(s: State<V>, it: Item<V>, max: nat)
    requires s.enabled && |it.key| > 0 && |s.store| < max
    requires forall i :: 0 <= i < |s.store| ==> s.store[i].key != it.key
    ensures AfterSet(s, it, max) == s.(store := s.store + [it])
  {
    RemoveAbsent(s.store, it.key);
  }

  lemma FillStep<V(!new)>(keys: seq<string>, n: nat, value: V, at: real, cfg: Config)
    requires 0 < n <= |keys| && n <= cfg.max && DistinctKeys(keys)
    requires Run(Sets(keys, n - 1, value, at), cfg) == State(Items(keys, n - 1, value, at, cfg), true, 0, 0, 0)
    ensures Run(Sets(keys, n, value, at), cfg) == State(Items(keys, n, value, at, cfg), true, 0, 0, 0)
  {
    SetsSnoc(keys, n, value, at);
    ItemsSnoc(keys, n, value, at, cfg);
    var items, it := Items(keys, n - 1, value, at, cfg), Item(keys[n - 1], value, at + cfg.ttls.index as real);
    SetAppends(State(items, true, 0, 0, 0), it, cfg.max);
  }

  /** Up to the maximum, the store holds the keys in the order they were set. */
  lemma {:induction false} FilledStore<V(!new)>(keys: seq<string>, n: nat, value: V, at: real, cfg: Config)
    requires n <= |keys| && n <= cfg.max && DistinctKeys(keys)
    ensures Run(Sets(keys, n, value, at), cfg) == State(Items(keys, n, value, at, cfg), true, 0, 0, 0)
  {
    if n > 0 {
      FilledStore(keys, n - 1, value, at, cfg);
      FillStep(keys, n, value, at, cfg);
    } else {
      assert Items(keys, 0, value, at, cfg) == [];
    }
  }

  /** What one more `set` of another key does to the history. */
  lemma SetTouches<V(!new)>(before: seq<Op<V>>, op: Op<V>, cfg: Config, first: string)
    requires op.Set? && |op.key| > 0 && op.key != first && Run(before, cfg).enabled
    requires LastTouch(before, cfg, first) == 0 && first in Ideal(before, cfg)
    ensures LastTouch(before + [op], cfg, first) == 0 && first in Ideal(before + [op], cfg)
    ensures |before| > 0 ==> TouchedAfter(before + [op], cfg, 0) == TouchedAfter(before, cfg, 0) + {op.key}
  {
    assert (before + [op])[..|before|] == before;
  }

  lemma FirstTouch<V(!new)>(op: Op<V>, cfg: Config)
    requires op.Set? && |op.key| > 0
    ensures LastTouch([op], cfg, op.key) == 0 && op.key in Ideal([op], cfg) && TouchedAfter([op], cfg, 0) == {}
  {
    assert [op][..0] == [];
  }

  /** The first key stays live and is last touched by call 0; the calls after it touch the other keys. */
  lemma {:induction false} FilledTouches<V(!new)>(keys: seq<string>, n: nat, value: V, at: real, cfg: Config)
    requires 0 < n <= |keys| && n <= cfg.max && DistinctKeys(keys)
    ensures var ops := Sets(keys, n, value, at);
            && LastTouch(ops, cfg, keys[0]) == 0 && keys[0] in Ideal(ops, cfg)
            && TouchedAfter(ops, cfg, 0) == Elements(keys[1..n])
  {
    var op: Op<V> := Set(keys[n - 1], value, "index", at);
    SetsSnoc(keys, n, value, at);
    if n == 1 {
      FirstTouch(op, cfg);
    } else {
      var before := Sets(keys, n - 1, value, at);
      FilledTouches(keys, n - 1, value, at, cfg);
      FilledStore(keys, n - 1, value, at, cfg);
      SetTouches(before, op, cfg, keys[0]);
      SliceSnoc(keys, n);
    }
  }

  lemma {:induction false} ElementsCount(keys: seq<string>, n: nat)
    requires n <= |keys| && DistinctKeys(keys)
    ensures |Elements(keys[..n])| == n
  {
    if n > 0 {
      ElementsCount(keys, n - 1);
      assert keys[..n] == keys[..n - 1] + [keys[n - 1]];
      assert Elements(keys[..n]) == Elements(keys[..n - 1]) + {keys[n - 1]};
    }
  }

  /** The run that reaches the bound: `max` keys are set and the last one is set
      again. The cache makes room although that key is already present. */
  function OverwriteWhenFull<V>(keys: seq<string>, value: V, at: real): seq<Op<V>>
    requires |keys| > 0
  {
    Sets(keys, |keys|, value, at) + [Set(keys[|keys| - 1], value, "index", at)]
  }

  lemma OverwriteEvicts<V(!new)>(keys: seq<string>, value: V, at: real, cfg: Config)
    requires 2 <= |keys| == cfg.max && DistinctKeys(keys)
    ensures forall it :: it in Run(OverwriteWhenFull(keys, value, at), cfg).store ==> it.key != keys[0]
  {
    var fill, n := Sets(keys, |keys|, value, at), |keys|;
    var ops := OverwriteWhenFull(keys, value, at);
    assert ops[..|ops| - 1] == fill;
    FilledStore(keys, n, value, at, cfg);
    var store, last := Items(keys, n, value, at, cfg), Item(keys[n - 1], value, at + cfg.ttls.index as real);
    MakeRoomSuffix(store, cfg.max);
    RemoveMembers(store[1..], {last.key});
    forall it | it in Run(ops, cfg).store
      ensures it.key != keys[0]
    {
      assert it in store[1..] || it == last;
    }
  }

  /** `max - 1` is exact: with that many rivals a live key can be evicted for capacity. */
  lemma MaxMinusOneRivalsCanEvict<V(!new)>(keys: seq<string>, value: V, at: real, cfg: Config)
    requires 2 <= |keys| == cfg.max && DistinctKeys(keys)
    ensures var ops := OverwriteWhenFull(keys, value, at);
            && |Rivals(ops, cfg, keys[0])| == cfg.max - 1 && keys[0] in Ideal(ops, cfg)
            && forall it :: it in Run(ops, cfg).store ==> it.key != keys[0]
  {
    OverwriteTouches(keys, value, at, cfg);
    OverwriteEvicts(keys, value, at, cfg);
    RivalsOfFirst(keys);
  }

  lemma OverwriteTouches<V(!new)>(keys: seq<string>, value: V, at: real, cfg: Config)
    requires 2 <= |keys| == cfg.max && DistinctKeys(keys)
    ensures var ops := OverwriteWhenFull(keys, value, at);
            && LastTouch(ops, cfg, keys[0]) == 0 && keys[0] in Ideal(ops, cfg)
            && TouchedAfter(ops, cfg, 0) == Elements(keys[1..])
  {
    var fill, n := Sets(keys, |keys|, value, at), |keys|;
    FilledTouches(keys, n, value, at, cfg);
    FilledStore(keys, n, value, at, cfg);
    SetTouches(fill, Set(keys[n - 1], value, "index", at), cfg, keys[0]);
    assert keys[1..n] == keys[1..] && keys[n - 1] == keys[1..][n - 2];
  }

  lemma RivalsOfFirst(keys: seq<string>)
    requires |keys| > 0 && DistinctKeys(keys)
    ensures |Elements(keys[1..]) - {keys[0]}| == |keys| - 1
  {
    ElementsCount(keys, |keys|);
    assert keys[..|keys|] == keys == [keys[0]] + keys[1..];
    assert Elements(keys) - {keys[0]} == Elements(keys[1..]) - {keys[0]};
  }

  /** For such a key the cache answers exactly like the unlimited reference map. */
  lemma GetAgreesWithIdeal<V(!new)>(ops: seq<Op<V>>, cfg: Config, key: string, now: real)
    requires cfg.max >= 1 && Run(ops, cfg).enabled
    requires |Rivals(ops, cfg, key)| < cfg.max - 1
    ensures var ideal := Ideal(ops, cfg);
            GetResult(Run(ops, cfg), key, now)
            == if key in ideal && now <= ideal[key].expires then Some(ideal[key].value) else None
  {
    GetReturnsLatestSet(ops, cfg, key, now);
    RunKeepsInvariant(ops, cfg);
    LookupChar(Run(ops, cfg).store, key, ops, cfg);
    if key in Ideal(ops, cfg) {
      IdealKeysWereTouched(ops, cfg, key);
      FewRivalsRetained(ops, cfg, key);
    }
  }

  // ---------------------------------------------------------------- keys

  datatype Category = Index | Embedding | Report

  function CategoryWord(c: Category): string {
    match c
    case Index => "index"
    case Embedding => "embedding"
    case Report => "report"
  }

  function BuildKey(projectId: string, c: Category, hash: string): string {
    "project:" + (projectId + ":" + (CategoryWord(c) + ":" + hash))
  }

  /** Project identifiers are lower-case letters, digits and hyphens; all that matters here is that they hold no colon. */
  predicate IsProjectId(id: string) {
    ':' !in id
  }

  function FirstColon(s: string): nat {
    if s == "" || s[0] == ':' then 0 else 1 + FirstColon(s[1..])
  }

  lemma {:induction false} FirstColonAt(p: string, x: string)
    requires ':' !in p
    ensures FirstColon(p + ":" + x) == |p|
  {
    if |p| == 0 {
      assert (p + ":" + x)[0] == ':';
    } else {
      FirstColonAt(p[1..], x);
      assert p[0] in p;
      assert (p + ":" + x)[1..] == p[1..] + ":" + x;
    }
  }

  lemma ColonFreePrefix(p: string, q: string, x: string, y: string)
    requires ':' !in p && ':' !in q
    requires p + ":" + x == q + ":" + y
    ensures p == q && x == y
  {
    FirstColonAt(p, x);
    FirstColonAt(q, y);
    assert (p + ":" + x)[..|p|] == p && (q + ":" + y)[..|q|] == q;
    assert (p + ":" + x)[|p| + 1..] == x && (q + ":" + y)[|q| + 1..] == y;
  }

  lemma SamePrefix(prefix: string, x: string, y: string)
    requires prefix + x == prefix + y
    ensures x == y
  {
    assert (prefix + x)[|prefix|..] == x && (prefix + y)[|prefix|..] == y;
  }

  lemma WordsDiffer(c: Category, d: Category)
    ensures ':' !in CategoryWord(c)
    ensures CategoryWord(c) == CategoryWord(d) ==> c == d
  {
    assert |"index"| == 5 && |"embedding"| == 9 && |"report"| == 6;
  }

  /** Different (project, category, hash) triples have different keys. */
  lemma BuildKeyInjective(p: string, c: Category, h: string, q: string, d: Category, g: string)
    requires IsProjectId(p) && IsProjectId(q)
    requires BuildKey(p, c, h) == BuildKey(q, d, g)
    ensures p == q && c == d && h == g
  {
    var x, y := CategoryWord(c) + ":" + h, CategoryWord(d) + ":" + g;
    SamePrefix("project:", p + ":" + x, q + ":" + y);
    ColonFreePrefix(p, q, x, y);
    WordsDiffer(c, d);
    WordsDiffer(d, c);
    ColonFreePrefix(CategoryWord(c), CategoryWord(d), h, g);
  }

  /** Invalidating a project removes its own keys and no other project's. */
  lemma ProjectPrefixExact(p: string, q: string, c: Category, h: string)
    requires IsProjectId(p) && IsProjectId(q)
    ensures "project:" + p + ":" <= BuildKey(q, c, h) <==> p == q
  {
    var prefix, key, rest := "project:" + p + ":", BuildKey(q, c, h), CategoryWord(c) + ":" + h;
    if p == q {
      assert key == prefix + rest;
    }
    if prefix <= key {
      var tail := key[|prefix|..];
      assert key == prefix + tail == "project:" + (p + ":" + tail);
      SamePrefix("project:", p + ":" + tail, q + ":" + rest);
      ColonFreePrefix(p, q, tail, rest);
    }
  }

  // ---------------------------------------------------------------- lifetimes and counters

  /** A stored entry is found for its category's time to live, the last instant
      included, and not afterwards; a category without a time of its own has the index's. */
  lemma FoundForItsLifetime<V(!new)>(ops: seq<Op<V>>, cfg: Config, key: string, value: V, category: string, at: real, now: real)
    requires Run(ops, cfg).enabled && |key| > 0
    ensures var found := GetResult(Run(ops + [Set(key, value, category, at)], cfg), key, now);
            && (category == "embedding" ==> found == if now <= at + cfg.ttls.embedding as real then Some(value) else None)
            && (category == "report" ==> found == if now <= at + cfg.ttls.report as real then Some(value) else None)
            && (category != "embedding" && category != "report" ==>
                  found == if now <= at + cfg.ttls.index as real then Some(value) else None)
  {
    assert (ops + [Set(key, value, category, at)])[..|ops|] == ops;
  }

  /** How many look-ups the enabled cache answered with an entry, or without one. */
  function LookUps<V>(ops: seq<Op<V>>, cfg: Config, found: bool): nat {
    if |ops| == 0 then 0
    else
      var before, op := ops[..|ops| - 1], ops[|ops| - 1];
      var s := Run(before, cfg);
      LookUps(before, cfg, found)
      + if op.Get? && s.enabled && GetResult(s, op.key, op.at).Some? == found then 1 else 0
  }

  /** Over every run: hits and misses count the look-ups that found an entry and
      those that did not; a disabled cache counts neither. */
  lemma {:induction false} CountersExact<V(!new)>(ops: seq<Op<V>>, cfg: Config)
    ensures Run(ops, cfg).hits == LookUps(ops, cfg, true)
    ensures Run(ops, cfg).misses == LookUps(ops, cfg, false)
  {
    if |ops| > 0 {
      CountersExact(ops[..|ops| - 1], cfg);
    }
  }
}
