/**
 The row budget of the account-list cache
 (app/bss/adapters/portaswitch/adapter.py, `_store_accounts`, `_evict_accounts_over_limit`).
 The dictionaries are fields of the cache object and are changed in place.
 */
module CacheEviction {
  import opened Prelude
  import opened AccountProjection

  type Customer = int
  type LockId = nat

  const MAX_ROWS: nat := 100_000

  /** A cached list and when it was stored, on the monotonic clock. */
  datatype Entry = Entry(at: int, rows: seq<Account>)

  type Cache = map<Customer, Entry>

  ghost function RowsOver(cache: Cache, keys: set<Customer>): nat
    requires keys <= cache.Keys
  {
    if keys == {} then 0
    else
      var k := Pick(keys);
      |cache[k].rows| + RowsOver(cache, keys - {k})
  }

  ghost function TotalRows(cache: Cache): nat {
    RowsOver(cache, cache.Keys)
  }

  lemma {:induction false} RowsWithout(cache: Cache, keys: set<Customer>, k: Customer)
    requires keys <= cache.Keys && k in keys
    ensures RowsOver(cache, keys) == |cache[k].rows| + RowsOver(cache, keys - {k})
    decreases |keys|
  {
    var first := Pick(keys);
    if first != k {
      RowsWithout(cache, keys - {first}, k);
      RowsWithout(cache, keys - {k}, first);
      assert keys - {first} - {k} == keys - {k} - {first};
    }
  }

  lemma {:induction false} RowsAgree(a: Cache, b: Cache, keys: set<Customer>)
    requires keys <= a.Keys && keys <= b.Keys && forall k :: k in keys ==> a[k] == b[k]
    ensures RowsOver(a, keys) == RowsOver(b, keys)
    decreases |keys|
  {
    if keys != {} {
      var k := Pick(keys);
      RowsWithout(a, keys, k);
      RowsWithout(b, keys, k);
      RowsAgree(a, b, keys - {k});
    }
  }

  lemma TotalWithout(cache: Cache, k: Customer)
    requires k in cache
    ensures TotalRows(cache) == |cache[k].rows| + TotalRows(cache - {k})
  {
    RowsWithout(cache, cache.Keys, k);
    assert (cache - {k}).Keys == cache.Keys - {k};
    RowsAgree(cache, cache - {k}, cache.Keys - {k});
  }

  /** `k` is one of the oldest entries other than `just`. */
  predicate OldestOther(cache: Cache, just: Customer, k: Customer) {
    k in cache && k != just && forall m :: m in cache && m != just ==> cache[k].at <= cache[m].at
  }

  /** What evicting over a budget has done so far. Nothing is altered and the entry just stored
      stays; the evicted are non-empty and no younger than any other entry kept; and the youngest
      of them, `last`, was still needed. */
  ghost predicate Evicting(budget: nat, just: Customer, before: Cache, now: Cache, last: Customer) {
    && now.Keys <= before.Keys && (forall k :: k in now ==> now[k] == before[k])
    && just in now
    && (forall e, k :: e in before && e !in now && k in now && k != just ==> before[e].at <= before[k].at)
    && (forall e :: e in before && e !in now ==> before[e].rows != [])
    && (now != before ==>
          && last in before && last !in now && TotalRows(now) + |before[last].rows| > budget
          && forall e :: e in before && e !in now ==> before[e].at <= before[last].at)
  }

  /** Eviction stops only within budget, or with the new entry alone, or at an oldest entry that
      would free nothing. */
  predicate MayStop(just: Customer, now: Cache) {
    now.Keys == {just} || exists k :: k in now && OldestOther(now, just, k) && now[k].rows == []
  }

  ghost predicate EvictedTo(budget: nat, just: Customer, before: Cache, after: Cache) {
    && (exists last :: Evicting(budget, just, before, after, last))
    && (TotalRows(after) <= budget || MayStop(just, after))
  }

  lemma NothingEvicted(budget: nat, just: Customer, before: Cache)
    requires just in before
    ensures Evicting(budget, just, before, before, just)
  {
  }

  lemma EmptyOldest(just: Customer, now: Cache, k: Customer)
    requires OldestOther(now, just, k) && now[k].rows == []
    ensures MayStop(just, now)
  {
  }

  lemma EvictNext(budget: nat, just: Customer, before: Cache, now: Cache, last: Customer, k: Customer)
    requires Evicting(budget, just, before, now, last) && TotalRows(now) > budget
    requires OldestOther(now, just, k) && now[k].rows != []
    ensures Evicting(budget, just, before, now - {k}, k)
    ensures TotalRows(now - {k}) == TotalRows(now) - |now[k].rows|
  {
    TotalWithout(now, k);
  }

  /** Locks of evicted customers are dropped unless they are locked at that moment. */
  function LocksAfter(locks: map<Customer, LockId>, before: Cache, after: Cache, locked: set<LockId>): map<Customer, LockId> {
    map c | c in locks && (c in after || c !in before || locks[c] in locked) :: locks[c]
  }

  function LocksWithout(locks: map<Customer, LockId>, k: Customer, locked: set<LockId>): map<Customer, LockId> {
    if k in locks && locks[k] !in locked then locks - {k} else locks
  }

  lemma LocksNext(locks: map<Customer, LockId>, before: Cache, now: Cache, k: Customer, locked: set<LockId>)
    requires k in now && k in before
    ensures LocksWithout(LocksAfter(locks, before, now, locked), k, locked) == LocksAfter(locks, before, now - {k}, locked)
  {
  }

  class AccountsCache {
    var cache: Cache
    var locks: map<Customer, LockId>
    /** The locks whose locked() is true. */
    var locked: set<LockId>

    constructor ()
      ensures cache == map[] && locks == map[] && locked == {}
    {
      cache, locks, locked := map[], map[], {};
    }

    /** sum(len(rows) for every entry) */
    method CountRows() returns (total: nat)
      ensures total == TotalRows(cache)
    {
      total := 0;
      var left := cache.Keys;
      while left != {}
        invariant left <= cache.Keys
        invariant total + RowsOver(cache, left) == TotalRows(cache)
        decreases |left|
      {
        ghost var some := Pick(left);
        var k :| k in left;
        RowsWithout(cache, left, k);
        total := total + |cache[k].rows|;
        left := left - {k};
      }
    }

    /** min(..., key=time stored, default=None) over the other customers. */
    method FindOldest(just: Customer) returns (oldest: Option<Customer>)
      ensures oldest == None <==> cache.Keys <= {just}
      ensures oldest.Some? ==> OldestOther(cache, just, oldest.value)
    {
      var left := cache.Keys - {just};
      if left == {} {
        NoOthers(cache.Keys, just);
        return None;
      }
      ghost var some := Pick(left);
      var best :| best in left;
      left := left - {best};
      while left != {}
        invariant best in cache && best != just && left <= cache.Keys - {just}
        invariant forall m :: m in cache && m != just && m !in left ==> cache[best].at <= cache[m].at
        decreases |left|
      {
        ghost var some := Pick(left);
        var k :| k in left;
        if cache[k].at < cache[best].at {
          best := k;
        }
        left := left - {k};
      }
      return Some(best);
    }

    method EvictAccountsOverLimit(just: Customer, budget: nat)
      requires just in cache
      modifies this`cache, this`locks
      ensures EvictedTo(budget, just, old(cache), cache)
      ensures locks == LocksAfter(old(locks), old(cache), cache, locked)
    {
      var total := CountRows();
      ghost var before := cache;
      ghost var last := just;
      NothingEvicted(budget, just, before);
      while total > budget && |cache| > 1
        invariant total == TotalRows(cache)
        invariant Evicting(budget, just, before, cache, last)
        invariant locks == LocksAfter(old(locks), before, cache, locked)
        decreases |cache|
      {
        var oldest := FindOldest(just);
        if oldest == None {
          break;
        }
        var freed := |cache[oldest.value].rows|;
        if freed == 0 {
          EmptyOldest(just, cache, oldest.value);
          break;
        }
        EvictNext(budget, just, before, cache, last, oldest.value);
        LocksNext(old(locks), before, cache, oldest.value, locked);
        total := total - freed;
        last := oldest.value;
        RemoveEntry(oldest.value);
      }
      if |cache| <= 1 {
        OnlyOneLeft(cache, just);
      }
      assert EvictedTo(budget, just, before, cache);
    }

    /** del cache[customer], and its lock unless that is locked. */
    method RemoveEntry(customer: Customer)
      requires customer in cache
      modifies this`cache, this`locks
      ensures cache == old(cache) - {customer}
      ensures locks == LocksWithout(old(locks), customer, locked)
    {
      cache := cache - {customer};
      if customer in locks && locks[customer] !in locked {
        locks := locks - {customer};
      }
    }

    method StoreAccounts(customer: Customer, accounts: seq<Account>, now: int)
      modifies this`cache, this`locks
      ensures EvictedTo(MAX_ROWS, customer, old(cache)[customer := Entry(now, accounts)], cache)
      ensures locks == LocksAfter(old(locks), old(cache)[customer := Entry(now, accounts)], cache, locked)
    {
      cache := cache[customer := Entry(now, accounts)];
      EvictAccountsOverLimit(customer, MAX_ROWS);
    }
  }

  lemma OnlyOneLeft(cache: Cache, just: Customer)
    requires just in cache && |cache| <= 1
    ensures cache.Keys == {just}
  {
    assert |cache.Keys - {just}| == 0;
  }

  /** A customer larger than the whole budget is still served: its entry is kept, and no entry
      outlives it except behind an empty one. */
  lemma OversizedEntryStays(budget: nat, just: Customer, before: Cache, after: Cache)
    requires EvictedTo(budget, just, before, after) && |before[just].rows| > budget
    ensures after[just] == before[just]
    ensures after.Keys == {just} || exists k :: OldestOther(after, just, k) && after[k].rows == []
  {
    TotalWithout(after, just);
  }

  lemma NoOthers(keys: set<Customer>, just: Customer)
    requires keys - {just} == {}
    ensures keys <= {just}
  {
    forall k | k in keys ensures k == just {
      assert k == just || k in keys - {just};
    }
  }

  /** A cache within its budget loses nothing; one over it, with other entries that are worth
      evicting, loses some. */
  lemma EvictsWhenOverBudget(budget: nat, just: Customer, before: Cache, after: Cache)
    requires EvictedTo(budget, just, before, after)
    ensures TotalRows(before) <= budget ==> after == before
    ensures TotalRows(before) > budget && !MayStop(just, before) ==> after != before
  {
    var last :| Evicting(budget, just, before, after, last);
    if after != before {
      RowsMonotone(before, after.Keys, before.Keys - {last});
      RowsWithout(before, before.Keys, last);
      RowsAgree(before, after, after.Keys);
    }
  }

  lemma {:induction false} RowsMonotone(cache: Cache, a: set<Customer>, b: set<Customer>)
    requires a <= b <= cache.Keys
    ensures RowsOver(cache, a) <= RowsOver(cache, b)
    decreases |b|
  {
    if b - a == {} {
      assert b <= a by { forall k | k in b ensures k in a { assert k in a || k in b - a; } }
      assert a == b;
    } else {
      var k := Pick(b - a);
      RowsWithout(cache, b, k);
      RowsMonotone(cache, a, b - {k});
    }
  }
}
