/**
 * The process-local LRU + TTL cache of LLM replies (`_LLMResponseCache`).
 *
 * The ordered dictionary is a sequence of entries with distinct keys, least recently used first.
 * Every clock reading is a parameter; nothing below assumes that the clock is monotone.
 */
module ResponseCache {
  import opened Sequences

  type Key = string

  datatype Entry = Entry(key: Key, value: string, expiresAt: real)

  type Entries = seq<Entry>

  // ---------------------------------------------------------------------------
  // Specification of the operations
  // ---------------------------------------------------------------------------

  function Keys(s: Entries): (r: set<Key>) {
    set e | e in s :: e.key
  }

  ghost predicate Distinct(s: Entries) {
    forall i, j :: 0 <= i < j < |s| ==> s[i].key != s[j].key
  }

  function IsLive(now: real): Entry -> bool {
    (e: Entry) => e.expiresAt > now
  }

  function IsNot(key: Key): Entry -> bool {
    (e: Entry) => e.key != key
  }

  function Purge(s: Entries, now: real): Entries {
    Filter(s, IsLive(now))
  }

  function Without(s: Entries, key: Key): Entries {
    Filter(s, IsNot(key))
  }

  /** The entry stored under `key`, if any. */
  function Lookup(s: Entries, key: Key): (r: Option<Entry>)
    ensures r.Some? ==> r.value in s && r.value.key == key
    ensures r.None? ==> key !in Keys(s)
  {
    if s == [] then None
    else if s[0].key == key then Some(s[0])
    else
      assert s == [s[0]] + s[1..];
      Lookup(s[1..], key)
  }

  /** Assigning to a key and moving it to the end. */
  function PutLast(s: Entries, e: Entry): Entries {
    Without(s, e.key) + [e]
  }

  /** Eviction of the least recently used entries down to `cap`. */
  function Trim(s: Entries, cap: nat): Entries {
    if |s| > cap then s[|s| - cap..] else s
  }

  datatype Op =
    | Get(key: Key, now: real)
    | Put(key: Key, value: string, purgeAt: real, storeAt: real)
    | Discard(key: Key)
    | Clear
    | Size(now: real)

  function GetHit(s: Entries, key: Key, now: real): Option<Entry> {
    Lookup(Purge(s, now), key)
  }

  function AfterGet(s: Entries, key: Key, now: real): Entries {
    match GetHit(s, key, now)
    case Some(e) => PutLast(Purge(s, now), e)
    case None => Purge(s, now)
  }

  function AfterPut(s: Entries, key: Key, value: string, purgeAt: real, storeAt: real, cap: nat, ttl: real): Entries {
    Trim(PutLast(Purge(s, purgeAt), Entry(key, value, storeAt + ttl)), cap)
  }

  /** The state after one operation. */
  function Apply(s: Entries, op: Op, cap: nat, ttl: real): Entries {
    match op
    case Get(key, now) => AfterGet(s, key, now)
    case Put(key, value, purgeAt, storeAt) => AfterPut(s, key, value, purgeAt, storeAt, cap, ttl)
    case Discard(key) => Without(s, key)
    case Clear => []
    case Size(now) => Purge(s, now)
  }

  /** The state after a run of operations. */
  function Run(s: Entries, ops: seq<Op>, cap: nat, ttl: real): Entries {
    if ops == [] then s
    else Apply(Run(s, ops[..|ops| - 1], cap, ttl), ops[|ops| - 1], cap, ttl)
  }

  // ---------------------------------------------------------------------------
  // Facts about single operations
  // ---------------------------------------------------------------------------

  lemma DistinctAppend(s: Entries, e: Entry)
    requires Distinct(s) && e.key !in Keys(s)
    ensures Distinct(s + [e])
  {
    forall i, j | 0 <= i < j < |s + [e]|
      ensures (s + [e])[i].key != (s + [e])[j].key
    {
      assert s[i] in s;
    }
  }

  lemma {:induction false} DistinctFilter(s: Entries, keep: Entry -> bool)
    requires Distinct(s)
    ensures Distinct(Filter(s, keep))
  {
    if s == [] {
    } else {
      var front, x := s[..|s| - 1], s[|s| - 1];
      DistinctFilter(front, keep);
      if keep(x) {
        assert x.key !in Keys(front);
        DistinctAppend(Filter(front, keep), x);
      }
    }
  }

  lemma DistinctUnique(s: Entries, a: Entry, b: Entry)
    requires Distinct(s) && a in s && b in s && a.key == b.key
    ensures a == b
  {
  }

  lemma DistinctPutLast(s: Entries, e: Entry)
    requires Distinct(s)
    ensures Distinct(PutLast(s, e))
    ensures |PutLast(s, e)| <= |s| + 1
    ensures e.key in Keys(s) ==> |PutLast(s, e)| <= |s|
  {
    DistinctFilter(s, IsNot(e.key));
    DistinctAppend(Without(s, e.key), e);
    if e.key in Keys(s) {
      var x :| x in s && x.key == e.key;
      FilterDropsOne(s, IsNot(e.key), x);
    }
  }

  lemma FilterDropsOne(s: Entries, keep: Entry -> bool, x: Entry)
    requires x in s && !keep(x)
    ensures |Filter(s, keep)| < |s|
  {
    if s[|s| - 1] != x {
      assert s == s[..|s| - 1] + [s[|s| - 1]];
      FilterDropsOne(s[..|s| - 1], keep, x);
    }
  }

  /** The entries that the purge of an operation leaves. */
  lemma DistinctPurge(s: Entries, op: Op)
    requires Distinct(s)
    ensures op.Put? ==> Distinct(Purge(s, op.purgeAt))
    ensures op.Size? ==> Distinct(Purge(s, op.now))
  {
    if op.Put? {
      DistinctFilter(s, IsLive(op.purgeAt));
    }
    if op.Size? {
      DistinctFilter(s, IsLive(op.now));
    }
  }

  lemma PutKeepsBound(s: Entries, e: Entry, cap: nat)
    requires Distinct(s)
    ensures Distinct(Trim(PutLast(s, e), cap)) && |Trim(PutLast(s, e), cap)| <= cap
  {
    DistinctPutLast(s, e);
  }

  lemma GetKeepsBound(s: Entries, key: Key, now: real, cap: nat)
    requires Distinct(s) && |s| <= cap
    ensures Distinct(AfterGet(s, key, now)) && |AfterGet(s, key, now)| <= cap
  {
    DistinctFilter(s, IsLive(now));
    match GetHit(s, key, now)
    case Some(e) => DistinctPutLast(Purge(s, now), e);
    case None =>
  }

  /** Distinct keys and the size bound hold after every operation, whatever the clock reads. */
  lemma ApplyKeepsBound(s: Entries, op: Op, cap: nat, ttl: real)
    requires Distinct(s) && |s| <= cap
    ensures Distinct(Apply(s, op, cap, ttl)) && |Apply(s, op, cap, ttl)| <= cap
  {
    DistinctPurge(s, op);
    match op
    case Get(key, now) =>
      GetKeepsBound(s, key, now, cap);
      assert Apply(s, op, cap, ttl) == AfterGet(s, key, now);
    case Put(key, value, purgeAt, storeAt) =>
      var e := Entry(key, value, storeAt + ttl);
      PutKeepsBound(Purge(s, purgeAt), e, cap);
      assert Apply(s, op, cap, ttl) == Trim(PutLast(Purge(s, purgeAt), e), cap);
    case Discard(key) => DistinctFilter(s, IsNot(key));
    case Clear =>
    case Size(now) =>
  }

  lemma {:induction false} SizeNeverExceedsCapacity(s: Entries, ops: seq<Op>, cap: nat, ttl: real)
    requires Distinct(s) && |s| <= cap
    ensures Distinct(Run(s, ops, cap, ttl)) && |Run(s, ops, cap, ttl)| <= cap
  {
    if ops == [] {
    } else {
      SizeNeverExceedsCapacity(s, ops[..|ops| - 1], cap, ttl);
      ApplyKeepsBound(Run(s, ops[..|ops| - 1], cap, ttl), ops[|ops| - 1], cap, ttl);
    }
  }

  // ---------------------------------------------------------------------------
  // A larger capacity never loses a hit
  // ---------------------------------------------------------------------------

  function HasKeyIn(keys: set<Key>): Entry -> bool {
    (e: Entry) => e.key in keys
  }

  function HasKeyNotIn(keys: set<Key>): Entry -> bool {
    (e: Entry) => e.key !in keys
  }

  /** `small` is `large` restricted to the keys of `small`: same entries, same order. */
  ghost predicate Within(small: Entries, large: Entries) {
    && Distinct(large)
    && small == Filter(large, HasKeyIn(Keys(small)))
  }

  /** The relation between a cache of capacity m and one of capacity n that saw the same operations. */
  ghost predicate Included(small: Entries, large: Entries, m: nat, n: nat) {
    && Within(small, large)
    && |small| <= m && |large| <= n
    && |large| - |small| <= n - m
  }

  function Conj(p: Entry -> bool, q: Entry -> bool): Entry -> bool {
    (e: Entry) => p(e) && q(e)
  }

  lemma WithinDistinct(small: Entries, large: Entries)
    requires Within(small, large)
    ensures Distinct(small)
    ensures forall e :: e in small ==> e in large
    ensures forall e :: e in large && e.key in Keys(small) ==> e in small
  {
    DistinctFilter(large, HasKeyIn(Keys(small)));
  }

  /** Removing by one condition from both sides keeps the relation and does not widen the gap. */
  lemma WithinFilter(small: Entries, large: Entries, keep: Entry -> bool)
    requires Within(small, large)
    ensures Within(Filter(small, keep), Filter(large, keep))
    ensures |Filter(large, keep)| - |Filter(small, keep)| <= |large| - |small|
  {
    WithinDistinct(small, large);
    var K, small', large' := Keys(small), Filter(small, keep), Filter(large, keep);
    var K' := Keys(small');
    DistinctFilter(large, keep);
    FilterTwice(large, HasKeyIn(K), keep, Conj(HasKeyIn(K), keep));
    FilterTwice(large, keep, HasKeyIn(K'), Conj(keep, HasKeyIn(K')));
    forall e | e in large
      ensures Conj(HasKeyIn(K), keep)(e) == Conj(keep, HasKeyIn(K'))(e)
    {
      if e.key in K' {
        var x :| x in small' && x.key == e.key;
        DistinctUnique(large, x, e);
      }
    }
    FilterAgree(large, Conj(HasKeyIn(K), keep), Conj(keep, HasKeyIn(K')));
    assert small' == Filter(large', HasKeyIn(K'));
    // the elements of large outside small
    FilterSplit(large, HasKeyIn(K), HasKeyNotIn(K));
    FilterSplit(large', HasKeyIn(K'), HasKeyNotIn(K'));
    FilterTwice(large, keep, HasKeyNotIn(K'), Conj(keep, HasKeyNotIn(K')));
    forall e | e in large && Conj(keep, HasKeyNotIn(K'))(e)
      ensures HasKeyNotIn(K)(e)
    {
      assert e.key in K ==> e in small;
    }
    FilterMonotone(large, Conj(keep, HasKeyNotIn(K')), HasKeyNotIn(K));
  }

  lemma WithinAppend(small: Entries, large: Entries, e: Entry)
    requires Within(small, large) && e.key !in Keys(large)
    ensures Within(small + [e], large + [e])
  {
    WithinDistinct(small, large);
    var K' := Keys(small + [e]);
    assert K' == Keys(small) + {e.key};
    FilterExtend(large, e, HasKeyIn(K'));
    FilterAgree(large, HasKeyIn(Keys(small)), HasKeyIn(K'));
  }

  lemma WithinAppendLarge(small: Entries, large: Entries, e: Entry)
    requires Within(small, large) && e.key !in Keys(large)
    ensures Within(small, large + [e])
  {
    WithinDistinct(small, large);
    FilterExtend(large, e, HasKeyIn(Keys(small)));
  }

  lemma WithinDropSmall(small: Entries, large: Entries)
    requires Within(small, large) && small != []
    ensures Within(small[1..], large)
  {
    WithinDistinct(small, large);
    var K := Keys(small[1..]);
    assert small == [small[0]] + small[1..];
    assert small[0].key !in K;
    FilterTwice(large, HasKeyIn(Keys(small)), HasKeyIn(K), HasKeyIn(K));
    FilterConcat([small[0]], small[1..], HasKeyIn(K));
    FilterOne(small[0], HasKeyIn(K));
    FilterAll(small[1..], HasKeyIn(K));
  }

  lemma WithinDropBoth(small: Entries, large: Entries)
    requires Within(small, large) && small != [] && large != []
    ensures Within(small[1..], large[1..])
  {
    WithinDistinct(small, large);
    WithinDropSmall(small, large);
    OldestIsNotLater(small, large);
    FilterFirst(large, HasKeyIn(Keys(small[1..])));
  }

  /** The oldest entry of the large cache is the oldest of the small one, if it is there at all. */
  lemma OldestIsNotLater(small: Entries, large: Entries)
    requires Within(small, large) && small != [] && large != []
    ensures large[0].key !in Keys(small[1..])
  {
    WithinDistinct(small, large);
    FilterFirst(large, HasKeyIn(Keys(small)));
    if large[0].key in Keys(small) {
      assert small[0] == large[0];
      assert small == [small[0]] + small[1..];
    } else {
      assert forall x :: x in small[1..] ==> x in small;
    }
  }

  lemma IncludedPut(small: Entries, large: Entries, m: nat, n: nat, e: Entry)
    requires 1 <= m <= n && Included(small, large, m, n)
    ensures Included(Trim(PutLast(small, e), m), Trim(PutLast(large, e), n), m, n)
  {
    WithinFilter(small, large, IsNot(e.key));
    WithinAppend(Without(small, e.key), Without(large, e.key), e);
    IncludedTrim(PutLast(small, e), PutLast(large, e), m, n);
  }

  /** Evicting down to the capacities, at most one entry each. */
  lemma IncludedTrim(a: Entries, b: Entries, m: nat, n: nat)
    requires 1 <= m <= n && Within(a, b) && |b| - |a| <= n - m && |a| <= m + 1 && |b| <= n + 1
    ensures Included(Trim(a, m), Trim(b, n), m, n)
  {
    if |a| > m && |b| > n {
      WithinDropBoth(a, b);
    } else if |a| > m {
      WithinDropSmall(a, b);
    }
  }

  /** A hit on both sides finds the same entry; a miss on the small side may be a hit on the large one. */
  lemma IncludedHit(small: Entries, large: Entries, key: Key, now: real)
    requires Within(small, large)
    ensures Within(Purge(small, now), Purge(large, now))
    ensures GetHit(small, key, now).Some? ==> GetHit(large, key, now) == GetHit(small, key, now)
  {
    WithinFilter(small, large, IsLive(now));
    WithinDistinct(Purge(small, now), Purge(large, now));
    if GetHit(small, key, now).Some? {
      var e := GetHit(small, key, now).value;
      assert e in Purge(large, now);
      DistinctUnique(Purge(large, now), e, GetHit(large, key, now).value);
    }
  }

  lemma IncludedUse(s: Entries, l: Entries, m: nat, n: nat, e: Entry)
    requires 1 <= m <= n && Included(s, l, m, n) && e in s
    ensures Included(PutLast(s, e), PutLast(l, e), m, n)
  {
    WithinDistinct(s, l);
    DistinctPutLast(s, e);
    DistinctPutLast(l, e);
    IncludedPut(s, l, m, n, e);
  }

  lemma IncludedUseLarge(s: Entries, l: Entries, m: nat, n: nat, e: Entry)
    requires 1 <= m <= n && Included(s, l, m, n) && e in l && e.key !in Keys(s)
    ensures Included(s, PutLast(l, e), m, n)
  {
    DistinctPutLast(l, e);
    FilterAll(s, IsNot(e.key));
    WithinFilter(s, l, IsNot(e.key));
    WithinAppendLarge(s, Without(l, e.key), e);
  }

  lemma IncludedGet(small: Entries, large: Entries, m: nat, n: nat, key: Key, now: real)
    requires 1 <= m <= n && Included(small, large, m, n)
    ensures GetHit(small, key, now).Some? ==> GetHit(large, key, now) == GetHit(small, key, now)
    ensures Included(AfterGet(small, key, now), AfterGet(large, key, now), m, n)
  {
    IncludedHit(small, large, key, now);
    WithinFilter(small, large, IsLive(now));
    if GetHit(small, key, now).Some? {
      IncludedUse(Purge(small, now), Purge(large, now), m, n, GetHit(small, key, now).value);
    } else if GetHit(large, key, now).Some? {
      IncludedUseLarge(Purge(small, now), Purge(large, now), m, n, GetHit(large, key, now).value);
    }
  }

  lemma IncludedStore(small: Entries, large: Entries, m: nat, n: nat,
                      key: Key, value: string, purgeAt: real, storeAt: real, ttl: real)
    requires 1 <= m <= n && Included(small, large, m, n)
    ensures Included(AfterPut(small, key, value, purgeAt, storeAt, m, ttl),
                     AfterPut(large, key, value, purgeAt, storeAt, n, ttl), m, n)
  {
    WithinFilter(small, large, IsLive(purgeAt));
    IncludedPut(Purge(small, purgeAt), Purge(large, purgeAt), m, n, Entry(key, value, storeAt + ttl));
  }

  lemma IncludedStep(small: Entries, large: Entries, op: Op, m: nat, n: nat, ttl: real)
    requires 1 <= m <= n && Included(small, large, m, n)
    ensures Included(Apply(small, op, m, ttl), Apply(large, op, n, ttl), m, n)
  {
    match op
    case Get(key, now) => IncludedGet(small, large, m, n, key, now);
    case Put(key, value, purgeAt, storeAt) =>
      IncludedStore(small, large, m, n, key, value, purgeAt, storeAt, ttl);
    case Discard(key) => WithinFilter(small, large, IsNot(key));
    case Clear =>
    case Size(now) => WithinFilter(small, large, IsLive(now));
  }

  lemma {:induction false} IncludedRun(ops: seq<Op>, m: nat, n: nat, ttl: real)
    requires 1 <= m <= n
    ensures Included(Run([], ops, m, ttl), Run([], ops, n, ttl), m, n)
  {
    if ops == [] {
    } else {
      var front, op := ops[..|ops| - 1], ops[|ops| - 1];
      IncludedRun(front, m, n, ttl);
      IncludedStep(Run([], front, m, ttl), Run([], front, n, ttl), op, m, n, ttl);
    }
  }

  /**
   * For one timed sequence of operations and two capacities m <= n: every lookup that hits in the
   * small cache hits in the large one, with the same value and the same expiry.
   */
  lemma LargerCacheKeepsEveryHit(ops: seq<Op>, i: nat, m: nat, n: nat, ttl: real)
    requires 1 <= m <= n
    requires i < |ops| && ops[i].Get?
    requires GetHit(Run([], ops[..i], m, ttl), ops[i].key, ops[i].now).Some?
    ensures GetHit(Run([], ops[..i], n, ttl), ops[i].key, ops[i].now)
         == GetHit(Run([], ops[..i], m, ttl), ops[i].key, ops[i].now)
  {
    IncludedRun(ops[..i], m, n, ttl);
    IncludedGet(Run([], ops[..i], m, ttl), Run([], ops[..i], n, ttl), m, n, ops[i].key, ops[i].now);
  }

  // ---------------------------------------------------------------------------
  // What a hit returns
  // ---------------------------------------------------------------------------

  /** The last value stored under `key` and its expiry, read off the operations alone. */
  function LastStored(ops: seq<Op>, key: Key, ttl: real): Option<Entry> {
    if ops == [] then None
    else
      var rest := LastStored(ops[..|ops| - 1], key, ttl);
      match ops[|ops| - 1]
      case Put(k, value, _, storeAt) => if k == key then Some(Entry(key, value, storeAt + ttl)) else rest
      case Discard(k) => if k == key then None else rest
      case Clear => None
      case Get(_, _) => rest
      case Size(_) => rest
  }

  /** An entry held after an operation was held before and left alone, or was just stored. */
  lemma StepOrigin(s: Entries, op: Op, cap: nat, ttl: real, e: Entry)
    requires e in Apply(s, op, cap, ttl)
    ensures || (op.Put? && e == Entry(op.key, op.value, op.storeAt + ttl))
            || (e in s && !op.Clear? && ((op.Put? || op.Discard?) ==> op.key != e.key))
  {
    match op
    case Get(key, now) =>
    case Put(key, value, purgeAt, storeAt) =>
      var x := Entry(key, value, storeAt + ttl);
      assert e in PutLast(Purge(s, purgeAt), x);
      assert e == x || e in Without(Purge(s, purgeAt), key);
    case Discard(key) =>
    case Clear =>
    case Size(now) =>
  }

  lemma {:induction false} CachedIsLastStored(ops: seq<Op>, cap: nat, ttl: real, e: Entry)
    requires e in Run([], ops, cap, ttl)
    ensures LastStored(ops, e.key, ttl) == Some(e)
  {
    var front, op := ops[..|ops| - 1], ops[|ops| - 1];
    StepOrigin(Run([], front, cap, ttl), op, cap, ttl, e);
    if e in Run([], front, cap, ttl) {
      CachedIsLastStored(front, cap, ttl, e);
    }
  }

  /** A hit returns the value of the last store of that key, and only before that store expires. */
  lemma HitReturnsLastStored(ops: seq<Op>, cap: nat, ttl: real, key: Key, now: real)
    requires GetHit(Run([], ops, cap, ttl), key, now).Some?
    ensures var e := GetHit(Run([], ops, cap, ttl), key, now).value;
            LastStored(ops, key, ttl) == Some(e) && now < e.expiresAt
  {
    CachedIsLastStored(ops, cap, ttl, GetHit(Run([], ops, cap, ttl), key, now).value);
  }

  ghost predicate Stores(op: Op, key: Key, value: string) {
    op.Put? && op.key == key && op.value == value
  }

  lemma DiscardForgets(before: seq<Op>, key: Key, ttl: real)
    ensures LastStored(before + [Discard(key)], key, ttl) == None
  {
    assert (before + [Discard(key)])[..|before|] == before;
  }

  lemma {:induction false} LastStoredSince(before: seq<Op>, after: seq<Op>, key: Key, ttl: real) returns (i: nat)
    requires LastStored(before + [Discard(key)] + after, key, ttl).Some?
    ensures i < |after| && Stores(after[i], key, LastStored(before + [Discard(key)] + after, key, ttl).value.value)
  {
    var ops := before + [Discard(key)] + after;
    DiscardForgets(before, key, ttl);
    assert after == [] ==> ops == before + [Discard(key)];
    if after == [] {
      assert false;
    } else {
      var front, last := after[..|after| - 1], after[|after| - 1];
      assert ops[..|ops| - 1] == before + [Discard(key)] + front && ops[|ops| - 1] == last;
      if last.Put? && last.key == key {
        i := |after| - 1;
      } else {
        i := LastStoredSince(before, front, key, ttl);
      }
    }
  }

  /**
   * Whatever any number of callers do in between: after a key was discarded, a hit on it can only return
   * a value that was stored after the discard.
   */
  lemma HitAfterDiscardIsNewer(before: seq<Op>, after: seq<Op>, key: Key, cap: nat, ttl: real, now: real)
    returns (i: nat)
    requires GetHit(Run([], before + [Discard(key)] + after, cap, ttl), key, now).Some?
    ensures var e := GetHit(Run([], before + [Discard(key)] + after, cap, ttl), key, now).value;
            i < |after| && Stores(after[i], key, e.value)
  {
    HitReturnsLastStored(before + [Discard(key)] + after, cap, ttl, key, now);
    i := LastStoredSince(before, after, key, ttl);
  }

  // ---------------------------------------------------------------------------
  // When a key is evicted
  // ---------------------------------------------------------------------------

  /** The key an operation makes most recently used: a store, or a lookup that hits. */
  function Touched(s: Entries, op: Op): set<Key> {
    match op
    case Put(key, _, _, _) => {key}
    case Get(key, now) => if GetHit(s, key, now).Some? then {key} else {}
    case Discard(_) => {}
    case Clear => {}
    case Size(_) => {}
  }

  function TouchedIn(s: Entries, ops: seq<Op>, cap: nat, ttl: real): set<Key> {
    if ops == [] then {}
    else
      var front := ops[..|ops| - 1];
      TouchedIn(s, front, cap, ttl) + Touched(Run(s, front, cap, ttl), ops[|ops| - 1])
  }

  /** The operation neither uses, discards nor clears the key, and reads the clock before `e` expires. */
  predicate Spares(op: Op, e: Entry) {
    match op
    case Get(key, now) => key != e.key && now < e.expiresAt
    case Put(key, _, purgeAt, _) => key != e.key && purgeAt < e.expiresAt
    case Discard(key) => key != e.key
    case Clear => false
    case Size(now) => now < e.expiresAt
  }

  /** `s` holds `e`, and every entry more recent than `e` has its key in `recent`. */
  ghost predicate HeldBehind(s: Entries, e: Entry, recent: set<Key>) {
    exists i :: 0 <= i < |s| && s[i] == e && Keys(s[i + 1..]) <= recent
  }

  lemma HeldFilter(s: Entries, e: Entry, recent: set<Key>, keep: Entry -> bool)
    requires HeldBehind(s, e, recent) && keep(e)
    ensures HeldBehind(Filter(s, keep), e, recent)
  {
    var i :| 0 <= i < |s| && s[i] == e && Keys(s[i + 1..]) <= recent;
    var a, b := s[..i], s[i + 1..];
    SplitAtIndex(s, i);
    FilterConcat(a + [e], b, keep);
    FilterExtend(a, e, keep);
    AtSeam(Filter(a, keep), e, Filter(b, keep));
    assert Keys(Filter(b, keep)) <= Keys(b);
  }

  lemma HeldAppend(s: Entries, e: Entry, recent: set<Key>, x: Entry)
    requires HeldBehind(s, e, recent)
    ensures HeldBehind(s + [x], e, recent + {x.key})
  {
    var i :| 0 <= i < |s| && s[i] == e && Keys(s[i + 1..]) <= recent;
    assert (s + [x])[i] == e && (s + [x])[i + 1..] == s[i + 1..] + [x];
  }

  lemma DistinctKeysSize(s: Entries)
    requires Distinct(s)
    ensures |Keys(s)| == |s|
  {
    if s == [] {
      assert Keys(s) == {};
    } else {
      var front, x := s[..|s| - 1], s[|s| - 1];
      DistinctKeysSize(front);
      assert s == front + [x];
      assert Keys(s) == Keys(front) + {x.key};
      assert x.key !in Keys(front);
    }
  }

  /** Where `e` is held: fewer entries follow it than there are recent keys. */
  lemma HeldAt(s: Entries, e: Entry, recent: set<Key>) returns (i: nat)
    requires Distinct(s) && HeldBehind(s, e, recent)
    ensures i < |s| && s[i] == e && Keys(s[i + 1..]) <= recent && |s| - i - 1 <= |recent|
  {
    i :| 0 <= i < |s| && s[i] == e && Keys(s[i + 1..]) <= recent;
    DistinctKeysSize(s[i + 1..]);
    SubsetSize(Keys(s[i + 1..]), recent);
  }

  lemma HeldTrim(s: Entries, e: Entry, recent: set<Key>, cap: nat)
    requires Distinct(s) && HeldBehind(s, e, recent) && |recent| < cap
    ensures HeldBehind(Trim(s, cap), e, recent)
  {
    if |s| > cap {
      var i := HeldAt(s, e, recent);
      DropBefore(s, |s| - cap, i);
      assert s[|s| - cap..][i - (|s| - cap)] == e;
    }
  }

  lemma HeldPut(s: Entries, e: Entry, recent: set<Key>, x: Entry, cap: nat)
    requires Distinct(s) && HeldBehind(s, e, recent) && x.key != e.key
    requires |recent + {x.key}| < cap
    ensures HeldBehind(Trim(PutLast(s, x), cap), e, recent + {x.key})
  {
    HeldFilter(s, e, recent, IsNot(x.key));
    HeldAppend(Without(s, x.key), e, recent, x);
    DistinctPutLast(s, x);
    HeldTrim(PutLast(s, x), e, recent + {x.key}, cap);
  }

  /** A hit never overflows the cache, so it is a store of the entry found. */
  lemma GetAsPut(s: Entries, key: Key, now: real, cap: nat)
    requires Distinct(s) && |s| <= cap && GetHit(s, key, now).Some?
    ensures AfterGet(s, key, now) == Trim(PutLast(Purge(s, now), GetHit(s, key, now).value), cap)
  {
    DistinctFilter(s, IsLive(now));
    DistinctPutLast(Purge(s, now), GetHit(s, key, now).value);
  }

  lemma HeldGet(s: Entries, key: Key, now: real, e: Entry, recent: set<Key>, cap: nat)
    requires Distinct(s) && |s| <= cap
    requires HeldBehind(s, e, recent) && key != e.key && now < e.expiresAt
    requires GetHit(s, key, now).Some? && |recent + {key}| < cap
    ensures HeldBehind(AfterGet(s, key, now), e, recent + {key})
  {
    HeldFilter(s, e, recent, IsLive(now));
    GetAsPut(s, key, now, cap);
    DistinctFilter(s, IsLive(now));
    HeldPut(Purge(s, now), e, recent, GetHit(s, key, now).value, cap);
  }

  lemma HeldStore(s: Entries, x: Entry, purgeAt: real, e: Entry, recent: set<Key>, cap: nat)
    requires Distinct(s) && |s| <= cap
    requires HeldBehind(s, e, recent) && x.key != e.key && purgeAt < e.expiresAt
    requires |recent + {x.key}| < cap
    ensures HeldBehind(Trim(PutLast(Purge(s, purgeAt), x), cap), e, recent + {x.key})
  {
    HeldFilter(s, e, recent, IsLive(purgeAt));
    DistinctFilter(s, IsLive(purgeAt));
    HeldPut(Purge(s, purgeAt), e, recent, x, cap);
  }

  lemma HeldIdle(s: Entries, e: Entry, recent: set<Key>, keep: Entry -> bool)
    requires HeldBehind(s, e, recent) && keep(e)
    ensures HeldBehind(Filter(s, keep), e, recent + {})
  {
    HeldFilter(s, e, recent, keep);
    assert recent + {} == recent;
  }

  lemma HeldLookup(s: Entries, key: Key, now: real, e: Entry, recent: set<Key>, cap: nat)
    requires Distinct(s) && |s| <= cap
    requires HeldBehind(s, e, recent) && key != e.key && now < e.expiresAt
    requires |recent + Touched(s, Get(key, now))| < cap
    ensures HeldBehind(AfterGet(s, key, now), e, recent + Touched(s, Get(key, now)))
  {
    if GetHit(s, key, now).Some? {
      HeldGet(s, key, now, e, recent, cap);
    } else {
      HeldIdle(s, e, recent, IsLive(now));
    }
  }

  lemma PutStores(s: Entries, op: Op, cap: nat, ttl: real)
    requires op.Put?
    ensures Apply(s, op, cap, ttl)
         == Trim(PutLast(Purge(s, op.purgeAt), Entry(op.key, op.value, op.storeAt + ttl)), cap)
    ensures Touched(s, op) == {op.key}
  {
  }

  lemma HeldStepPut(s: Entries, op: Op, e: Entry, recent: set<Key>, cap: nat, ttl: real)
    requires op.Put?
    requires Distinct(s) && |s| <= cap
    requires HeldBehind(s, e, recent) && Spares(op, e)
    requires |recent + Touched(s, op)| < cap
    ensures HeldBehind(Apply(s, op, cap, ttl), e, recent + Touched(s, op))
  {
    PutStores(s, op, cap, ttl);
    HeldStore(s, Entry(op.key, op.value, op.storeAt + ttl), op.purgeAt, e, recent, cap);
  }

  lemma HeldStepRemove(s: Entries, op: Op, e: Entry, recent: set<Key>, cap: nat, ttl: real)
    requires op.Discard? || op.Size?
    requires Distinct(s) && |s| <= cap
    requires HeldBehind(s, e, recent) && Spares(op, e)
    requires |recent + Touched(s, op)| < cap
    ensures HeldBehind(Apply(s, op, cap, ttl), e, recent + Touched(s, op))
  {
    HeldIdle(s, e, recent, if op.Discard? then IsNot(op.key) else IsLive(op.now));
  }

  lemma HeldStep(s: Entries, op: Op, e: Entry, recent: set<Key>, cap: nat, ttl: real)
    requires Distinct(s) && |s| <= cap
    requires HeldBehind(s, e, recent) && Spares(op, e)
    requires |recent + Touched(s, op)| < cap
    ensures HeldBehind(Apply(s, op, cap, ttl), e, recent + Touched(s, op))
  {
    match op
    case Get(key, now) => HeldLookup(s, key, now, e, recent, cap);
    case Put(_, _, _, _) => HeldStepPut(s, op, e, recent, cap, ttl);
    case Discard(_) => HeldStepRemove(s, op, e, recent, cap, ttl);
    case Size(_) => HeldStepRemove(s, op, e, recent, cap, ttl);
  }

  lemma {:induction false} HeldRun(s: Entries, ops: seq<Op>, e: Entry, cap: nat, ttl: real)
    requires Distinct(s) && |s| <= cap && s != [] && s[|s| - 1] == e
    requires forall op :: op in ops ==> Spares(op, e)
    requires |TouchedIn(s, ops, cap, ttl)| < cap
    ensures HeldBehind(Run(s, ops, cap, ttl), e, TouchedIn(s, ops, cap, ttl))
  {
    if ops == [] {
      assert s[|s|..] == [];
      assert Keys(s[|s| - 1 + 1..]) <= {};
    } else {
      var front, op := ops[..|ops| - 1], ops[|ops| - 1];
      SubsetSize(TouchedIn(s, front, cap, ttl), TouchedIn(s, ops, cap, ttl));
      HeldRun(s, front, e, cap, ttl);
      SizeNeverExceedsCapacity(s, front, cap, ttl);
      HeldStep(Run(s, front, cap, ttl), op, e, TouchedIn(s, front, cap, ttl), cap, ttl);
    }
  }

  /**
   * From the moment an entry is the most recently used one, operations that do not use, discard,
   * clear or outlive it evict it only after at least `cap` distinct other keys were touched.
   */
  lemma EvictedOnlyAfterCapOthers(s: Entries, ops: seq<Op>, e: Entry, cap: nat, ttl: real)
    requires Distinct(s) && |s| <= cap && s != [] && s[|s| - 1] == e
    requires forall op :: op in ops ==> Spares(op, e)
    ensures e in Run(s, ops, cap, ttl) || |TouchedIn(s, ops, cap, ttl)| >= cap
  {
    if |TouchedIn(s, ops, cap, ttl)| < cap {
      HeldRun(s, ops, e, cap, ttl);
    }
  }

  /** The operation removes nothing but by eviction. */
  ghost predicate RemovesNothing(s: Entries, op: Op) {
    match op
    case Get(_, now) => Purge(s, now) == s
    case Put(_, _, purgeAt, _) => Purge(s, purgeAt) == s
    case Size(now) => Purge(s, now) == s
    case Discard(_) => false
    case Clear => false
  }

  ghost predicate NothingRemoved(s: Entries, ops: seq<Op>, cap: nat, ttl: real) {
    forall i :: 0 <= i < |ops| ==> RemovesNothing(Run(s, ops[..i], cap, ttl), ops[i])
  }

  /** `e` is held and the keys more recent than it are exactly `recent`. */
  ghost predicate HeldExactly(s: Entries, e: Entry, recent: set<Key>) {
    exists i :: 0 <= i < |s| && s[i] == e && Keys(s[i + 1..]) == recent
  }

  lemma KeysPutLast(b: Entries, x: Entry)
    ensures Keys(PutLast(b, x)) == Keys(b) + {x.key}
  {
    forall k | k in Keys(b) && k != x.key ensures k in Keys(PutLast(b, x)) {
      var y :| y in b && y.key == k;
      assert y in Without(b, x.key);
      assert y in PutLast(b, x);
    }
    assert x in PutLast(b, x);
    forall y | y in PutLast(b, x) ensures y.key in Keys(b) + {x.key} {
      assert y == x || y in Without(b, x.key);
    }
  }

  lemma PutLastSplit(a: Entries, e: Entry, b: Entries, x: Entry)
    requires x.key != e.key
    ensures PutLast(a + [e] + b, x) == Without(a, x.key) + [e] + PutLast(b, x)
  {
    FilterConcat(a + [e], b, IsNot(x.key));
    FilterExtend(a, e, IsNot(x.key));
  }

  /** Trimming a + [e] + b keeps `e` exactly when b leaves room for it. */
  lemma TrimAround(a: Entries, e: Entry, b: Entries, cap: nat)
    requires Distinct(a + [e] + b) && |b| <= cap
    ensures var s' := Trim(a + [e] + b, cap);
            if |b| < cap then HeldExactly(s', e, Keys(b)) else e.key !in Keys(s')
  {
    var t := a + [e] + b;
    assert t[|a|] == e && t[|a| + 1..] == b;
    if |b| < cap {
      if |t| > cap {
        var d := |t| - cap;
        assert t[d..][|a| - d] == e && t[d..][|a| - d + 1..] == b;
      }
    } else {
      assert t[|t| - cap..] == b;
      forall y | y in b ensures y.key != e.key {
        var p :| 0 <= p < |b| && b[p] == y;
        assert t[|a| + 1 + p].key != t[|a|].key;
      }
    }
  }

  /** What `ExactRun` keeps: `e` is held, ahead of exactly the recent keys, as long as they leave room. */
  ghost predicate ExactlyHeld(s: Entries, e: Entry, recent: set<Key>, cap: nat) {
    if |recent| < cap then HeldExactly(s, e, recent) else e.key !in Keys(s)
  }

  /** Using another key either extends the recent keys or, at the capacity, evicts `e`. */
  lemma ExactPut(s: Entries, e: Entry, recent: set<Key>, x: Entry, cap: nat)
    requires Distinct(s) && |s| <= cap && x.key != e.key
    requires HeldExactly(s, e, recent) && |recent| < cap
    ensures ExactlyHeld(Trim(PutLast(s, x), cap), e, recent + {x.key}, cap)
  {
    var i :| 0 <= i < |s| && s[i] == e && Keys(s[i + 1..]) == recent;
    SplitAtIndex(s, i);
    ExactPutAround(s[..i], e, s[i + 1..], x, cap);
  }

  lemma ExactPutAround(a: Entries, e: Entry, b: Entries, x: Entry, cap: nat)
    requires Distinct(a + [e] + b) && |Keys(b)| < cap && x.key != e.key
    ensures ExactlyHeld(Trim(PutLast(a + [e] + b, x), cap), e, Keys(b) + {x.key}, cap)
  {
    PutLastSplit(a, e, b, x);
    KeysPutLast(b, x);
    DistinctPutLast(a + [e] + b, x);
    DistinctSuffix(Without(a, x.key) + [e], PutLast(b, x));
    DistinctKeysSize(PutLast(b, x));
    DistinctSuffix(a + [e], b);
    DistinctKeysSize(b);
    DistinctPutLast(b, x);
    TrimAround(Without(a, x.key), e, PutLast(b, x), cap);
  }

  lemma DistinctSuffix(a: Entries, b: Entries)
    requires Distinct(a + b)
    ensures Distinct(b)
  {
    forall i, j | 0 <= i < j < |b| ensures b[i].key != b[j].key {
      assert (a + b)[|a| + i].key != (a + b)[|a| + j].key;
    }
  }

  /** A key that is not cached comes back only by being stored. */
  lemma AbsentStep(s: Entries, op: Op, key: Key, cap: nat, ttl: real)
    requires key !in Keys(s) && !(op.Put? && op.key == key)
    ensures key !in Keys(Apply(s, op, cap, ttl))
  {
    if key in Keys(Apply(s, op, cap, ttl)) {
      var e :| e in Apply(s, op, cap, ttl) && e.key == key;
      StepOrigin(s, op, cap, ttl, e);
    }
  }

  lemma ExactGet(s: Entries, key: Key, now: real, e: Entry, recent: set<Key>, cap: nat)
    requires Distinct(s) && |s| <= cap && key != e.key && Purge(s, now) == s
    requires GetHit(s, key, now).Some?
    requires HeldExactly(s, e, recent) && |recent| < cap
    ensures ExactlyHeld(AfterGet(s, key, now), e, recent + {key}, cap)
  {
    GetAsPut(s, key, now, cap);
    ExactPut(s, e, recent, GetHit(s, key, now).value, cap);
  }

  lemma ExactIdle(s: Entries, e: Entry, recent: set<Key>, cap: nat)
    requires HeldExactly(s, e, recent) && |recent| < cap
    ensures ExactlyHeld(s, e, recent + {}, cap)
  {
    assert recent + {} == recent;
  }

  lemma ExactStore(s: Entries, key: Key, value: string, purgeAt: real, storeAt: real,
                   e: Entry, recent: set<Key>, cap: nat, ttl: real)
    requires Distinct(s) && |s| <= cap && key != e.key && Purge(s, purgeAt) == s
    requires HeldExactly(s, e, recent) && |recent| < cap
    ensures ExactlyHeld(AfterPut(s, key, value, purgeAt, storeAt, cap, ttl), e, recent + {key}, cap)
  {
    ExactPut(s, e, recent, Entry(key, value, storeAt + ttl), cap);
  }

  lemma ExactStepHeld(s: Entries, op: Op, e: Entry, recent: set<Key>, cap: nat, ttl: real)
    requires Distinct(s) && |s| <= cap
    requires Spares(op, e) && RemovesNothing(s, op)
    requires HeldExactly(s, e, recent) && |recent| < cap
    ensures ExactlyHeld(Apply(s, op, cap, ttl), e, recent + Touched(s, op), cap)
  {
    match op
    case Get(key, now) =>
      if GetHit(s, key, now).Some? {
        ExactGet(s, key, now, e, recent, cap);
      } else {
        ExactIdle(s, e, recent, cap);
      }
    case Put(key, value, purgeAt, storeAt) => ExactStore(s, key, value, purgeAt, storeAt, e, recent, cap, ttl);
    case Size(_) => ExactIdle(s, e, recent, cap);
  }

  lemma ExactStep(s: Entries, op: Op, e: Entry, recent: set<Key>, cap: nat, ttl: real)
    requires Distinct(s) && |s| <= cap
    requires Spares(op, e) && RemovesNothing(s, op)
    requires ExactlyHeld(s, e, recent, cap)
    ensures ExactlyHeld(Apply(s, op, cap, ttl), e, recent + Touched(s, op), cap)
  {
    if |recent| < cap {
      ExactStepHeld(s, op, e, recent, cap, ttl);
    } else {
      SubsetSize(recent, recent + Touched(s, op));
      AbsentStep(s, op, e.key, cap, ttl);
    }
  }

  lemma NothingRemovedBefore(s: Entries, ops: seq<Op>, cap: nat, ttl: real)
    requires ops != [] && NothingRemoved(s, ops, cap, ttl)
    ensures var front := ops[..|ops| - 1];
            NothingRemoved(s, front, cap, ttl) && RemovesNothing(Run(s, front, cap, ttl), ops[|ops| - 1])
  {
    var front := ops[..|ops| - 1];
    forall i | 0 <= i < |front| ensures RemovesNothing(Run(s, front[..i], cap, ttl), front[i]) {
      assert front[..i] == ops[..i];
    }
  }

  lemma {:induction false} ExactRun(s: Entries, ops: seq<Op>, e: Entry, cap: nat, ttl: real)
    requires Distinct(s) && |s| <= cap && s != [] && s[|s| - 1] == e
    requires forall op :: op in ops ==> Spares(op, e)
    requires NothingRemoved(s, ops, cap, ttl)
    ensures ExactlyHeld(Run(s, ops, cap, ttl), e, TouchedIn(s, ops, cap, ttl), cap)
  {
    if ops == [] {
      assert s[|s|..] == [];
      assert Keys(s[|s| - 1 + 1..]) == {};
    } else {
      var front, op := ops[..|ops| - 1], ops[|ops| - 1];
      NothingRemovedBefore(s, ops, cap, ttl);
      ExactRun(s, front, e, cap, ttl);
      SizeNeverExceedsCapacity(s, front, cap, ttl);
      ExactStep(Run(s, front, cap, ttl), op, e, TouchedIn(s, front, cap, ttl), cap, ttl);
    }
  }

  /**
   * Least-recently-used, exactly: while nothing expires or is discarded, an entry that was just used
   * is still cached if and only if fewer than `cap` distinct other keys have been touched since.
   */
  lemma LruExactly(s: Entries, ops: seq<Op>, e: Entry, cap: nat, ttl: real)
    requires Distinct(s) && |s| <= cap && s != [] && s[|s| - 1] == e
    requires forall op :: op in ops ==> Spares(op, e)
    requires NothingRemoved(s, ops, cap, ttl)
    ensures e in Run(s, ops, cap, ttl) <==> |TouchedIn(s, ops, cap, ttl)| < cap
  {
    ExactRun(s, ops, e, cap, ttl);
  }

  // ---------------------------------------------------------------------------
  // The cache object
  // ---------------------------------------------------------------------------

  function KeyNotIn(keys: seq<Key>): Entry -> bool {
    (e: Entry) => e.key !in keys
  }

  lemma PopExpired(s: Entries, keys: seq<Key>, now: real)
    requires Distinct(s)
    requires forall k :: k in keys <==> exists e :: e in s && e.expiresAt <= now && e.key == k
    ensures Filter(s, KeyNotIn(keys)) == Purge(s, now)
  {
    forall e | e in s ensures KeyNotIn(keys)(e) == IsLive(now)(e) {
      if e.key in keys {
        var x :| x in s && x.expiresAt <= now && x.key == e.key;
        DistinctUnique(s, x, e);
      }
    }
    FilterAgree(s, KeyNotIn(keys), IsLive(now));
  }

  /** `round(x, 0)`: to the nearest integer, halves to the even one. */
  function RoundHalfEven(x: real): (r: int)
    ensures -0.5 <= r as real - x <= 0.5
    ensures r as real - x == 0.5 || x - r as real == 0.5 ==> r % 2 == 0
  {
    var below := x.Floor;
    var rest := x - below as real;
    if rest < 0.5 || (rest == 0.5 && below % 2 == 0) then below else below + 1
  }

  /** The ratio to four decimals; zero without requests. */
  function SafeRatio(numerator: int, denominator: int): (r: real)
    ensures denominator <= 0 ==> r == 0.0
    ensures denominator > 0 ==> -0.00005 <= r - numerator as real / denominator as real <= 0.00005
  {
    if denominator <= 0 then 0.0
    else
      var scaled := numerator as real / denominator as real * 10000.0;
      var r := RoundHalfEven(scaled) as real / 10000.0;
      assert numerator as real / denominator as real == scaled / 10000.0;
      r
  }

  datatype Stats = Stats(enabled: bool, maxSize: int, ttlSeconds: real, size: int, hits: int, misses: int,
                         bypasses: int,
                         failures: int, discards: int, evictions: int, requests: int,
                         hitRate: real, bypassRate: real, failureRate: real)

  class LlmResponseCache {
    const enabled: bool
    const maxSize: nat
    const ttlSeconds: real
    var entries: Entries
    var hits: nat
    var misses: nat
    var bypasses: nat
    var failures: nat
    var discards: nat
    var evictions: nat

    ghost predicate Valid()
      reads this
    {
      1 <= maxSize && Distinct(entries) && |entries| <= maxSize
    }

    /** The settings are clamped before a cache is built: at least one entry and one second. */
    constructor (enabled: bool, maxSize: int, ttlSeconds: real)
      ensures Valid() && entries == [] && this.enabled == enabled
      ensures this.maxSize as int == (if maxSize < 1 then 1 else maxSize)
      ensures this.ttlSeconds == if ttlSeconds < 1.0 then 1.0 else ttlSeconds
      ensures hits == misses == bypasses == failures == discards == evictions == 0
    {
      this.enabled := enabled;
      this.maxSize := if maxSize < 1 then 1 else maxSize;
      this.ttlSeconds := if ttlSeconds < 1.0 then 1.0 else ttlSeconds;
      entries := [];
      hits, misses, bypasses, failures, discards, evictions := 0, 0, 0, 0, 0, 0;
    }

    method PurgeExpired(now: real)
      requires Valid()
      modifies this`entries
      ensures Valid() && entries == Purge(old(entries), now)
    {
      if entries == [] {
        return;
      }
      ghost var before := entries;
      var expired: seq<Key> := [];
      for i := 0 to |entries|
        invariant entries == before
        invariant forall k :: k in expired <==> exists e :: e in before[..i] && e.expiresAt <= now && e.key == k
      {
        assert before[..i + 1] == before[..i] + [before[i]];
        if entries[i].expiresAt <= now {
          expired := expired + [entries[i].key];
        }
      }
      assert before[..|before|] == before;
      FilterAll(before, KeyNotIn(expired[..0]));
      for i := 0 to |expired|
        invariant entries == Filter(before, KeyNotIn(expired[..i]))
      {
        assert expired[..i + 1] == expired[..i] + [expired[i]];
        FilterTwice(before, KeyNotIn(expired[..i]), IsNot(expired[i]), KeyNotIn(expired[..i + 1]));
        entries := Without(entries, expired[i]);
      }
      assert expired[..|expired|] == expired;
      PopExpired(before, expired, now);
      DistinctFilter(before, IsLive(now));
    }

    method Get(key: Key, now: real) returns (hit: bool, value: string)
      requires Valid()
      modifies this
      ensures Valid() && entries == AfterGet(old(entries), key, now)
      ensures hit == GetHit(old(entries), key, now).Some?
      ensures value == if hit then GetHit(old(entries), key, now).value.value else ""
      ensures hits == old(hits) + (if hit then 1 else 0) && misses == old(misses) + (if hit then 0 else 1)
      ensures bypasses == old(bypasses) && failures == old(failures)
      ensures discards == old(discards) && evictions == old(evictions)
    {
      PurgeExpired(now);
      var entry := Lookup(entries, key);
      if entry.None? {
        misses := misses + 1;
        return false, "";
      }
      DistinctPutLast(entries, entry.value);
      entries := PutLast(entries, entry.value);
      hits := hits + 1;
      return true, entry.value.value;
    }

    method Set(key: Key, value: string, purgeAt: real, storeAt: real)
      requires Valid()
      modifies this`entries, this`evictions
      ensures Valid() && entries == AfterPut(old(entries), key, value, purgeAt, storeAt, maxSize, ttlSeconds)
      ensures evictions == old(evictions)
                         + |PutLast(Purge(old(entries), purgeAt), Entry(key, value, storeAt + ttlSeconds))| - |entries|
    {
      PurgeExpired(purgeAt);
      var entry := Entry(key, value, storeAt + ttlSeconds);
      DistinctPutLast(entries, entry);
      entries := PutLast(entries, entry);
      Evict();
    }

    /** The loop that pops the oldest entries until the size fits. */
    method Evict()
      requires 1 <= maxSize && Distinct(entries)
      modifies this`entries, this`evictions
      ensures Valid() && entries == Trim(old(entries), maxSize)
      ensures evictions == old(evictions) + |old(entries)| - |entries|
    {
      ghost var full := entries;
      while |entries| > maxSize
        invariant |entries| >= |Trim(full, maxSize)|
        invariant |entries| <= |full| && entries == full[|full| - |entries|..]
        invariant evictions == old(evictions) + |full| - |entries|
      {
        DropOneMore(full, |full| - |entries|);
        entries := entries[1..];
        evictions := evictions + 1;
      }
    }

    method DiscardKey(key: Key) returns (removed: bool)
      requires Valid()
      modifies this`entries, this`discards, this`failures
      ensures Valid() && entries == Without(old(entries), key)
      ensures removed == (key in Keys(old(entries)))
      ensures discards == old(discards) + (if removed then 1 else 0)
      ensures failures == old(failures) + (if removed then 1 else 0)
    {
      removed := Lookup(entries, key).Some?;
      DistinctFilter(entries, IsNot(key));
      entries := Without(entries, key);
      if removed {
        discards := discards + 1;
        failures := failures + 1;
      }
    }

    method ClearAll(resetStats: bool)
      requires Valid()
      modifies this
      ensures Valid() && entries == []
      ensures resetStats ==> hits == misses == bypasses == failures == discards == evictions == 0
      ensures !resetStats ==>
        && hits == old(hits) && misses == old(misses) && bypasses == old(bypasses)
        && failures == old(failures) && discards == old(discards) && evictions == old(evictions)
    {
      entries := [];
      if resetStats {
        hits, misses, bypasses, failures, discards, evictions := 0, 0, 0, 0, 0, 0;
      }
    }

    method CurrentSize(now: real) returns (size: nat)
      requires Valid()
      modifies this`entries
      ensures Valid() && entries == Purge(old(entries), now) && size == |entries|
    {
      PurgeExpired(now);
      size := |entries|;
    }

    method GetStats(now: real) returns (stats: Stats)
      requires Valid()
      modifies this`entries
      ensures Valid() && entries == Purge(old(entries), now)
      ensures var requests := hits + misses + bypasses;
              stats == Stats(enabled, maxSize, ttlSeconds, |entries|, hits, misses, bypasses, failures, discards,
                             evictions,
                             requests, SafeRatio(hits, requests), SafeRatio(bypasses, requests), SafeRatio(failures,
                                                                                                           requests))
    {
      PurgeExpired(now);
      var requests := hits + misses + bypasses;
      stats := Stats(enabled, maxSize, ttlSeconds, |entries|, hits, misses, bypasses, failures, discards, evictions,
                     requests, SafeRatio(hits, requests), SafeRatio(bypasses, requests), SafeRatio(failures, requests));
    }
  }
}
