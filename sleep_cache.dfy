/** daily_sleep_cache: scope -> date -> number of users asleep that day, with
    -1 standing for "not cached". */
module SleepCache {
  import opened Records

  type Cache = map<Scope, map<Date, int>>

  /** The answer of a cache lookup: the stored count, or -1 when the scope or
      the date has no entry. */
  function CachedCount(cache: Cache, scope: Scope, date: Date): int
  {
    if scope in cache && date in cache[scope] then cache[scope][date] else -1
  }

  /** The cache with an (empty) entry for `scope`, as a lookup or an update
      leaves it. */
  function WithScope(cache: Cache, scope: Scope): (c: Cache)
    ensures forall s :: s in c <==> s in cache || s == scope
    ensures scope !in cache ==> c[scope] == map[]
    ensures forall s :: s in cache ==> s in c && c[s] == cache[s]
    ensures forall s, d :: CachedCount(c, s, d) == CachedCount(cache, s, d)
  {
    if scope in cache then cache else cache[scope := map[]]
  }

  /** The cache after storing `count` for (`scope`, `date`). */
  function WithCount(cache: Cache, scope: Scope, date: Date, count: int): (c: Cache)
    ensures CachedCount(c, scope, date) == count
    ensures forall s, d :: (s != scope || d != date) ==> CachedCount(c, s, d) == CachedCount(cache, s, d)
  {
    var c := WithScope(cache, scope);
    c[scope := c[scope][date := count]]
  }

  /** The cache after dropping the entry for (`scope`, `date`); a key that is
      not there leaves the cache as it was. */
  function WithoutCount(cache: Cache, scope: Scope, date: Date): (c: Cache)
    ensures CachedCount(c, scope, date) == -1
    ensures forall s, d :: (s != scope || d != date) ==> CachedCount(c, s, d) == CachedCount(cache, s, d)
    ensures (scope !in cache || date !in cache[scope]) ==> c == cache
  {
    if scope in cache && date in cache[scope] then cache[scope := cache[scope] - {date}] else cache
  }

  /** Dropping an entry and then storing a new count for it is the same as
      storing the count straight away. */
  lemma RefreshIsStore(cache: Cache, scope: Scope, date: Date, count: int)
    ensures WithCount(WithoutCount(cache, scope, date), scope, date, count) == WithCount(cache, scope, date, count)
  {
    var a := WithCount(WithoutCount(cache, scope, date), scope, date, count);
    var b := WithCount(cache, scope, date, count);
    assert a.Keys == b.Keys;
    assert a[scope] == b[scope];
    forall s | s in a
      ensures a[s] == b[s]
    {
    }
  }
}
