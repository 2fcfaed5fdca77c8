/** The good-morning / good-night handler of the plugin and the state it keeps
    between messages. */
module Essential {
  import opened Records
  import opened SleepCache

  /** A user may greet at most once per this many seconds, across all scopes. */
  const CooldownSeconds := 1800

  const MicrosPerSecond := 1_000_000

  /** total_seconds() of `now - last`: signed, with the microseconds. */
  function ElapsedSeconds(last: Instant, now: Instant): real
  {
    (now.stamp.seconds - last.stamp.seconds) as real + (now.micros - last.micros) as real / 1_000_000.0
  }

  /** The cooldown comparison, on whole microseconds: an event at `now` is too
      soon after one at `last` when less than 1800 seconds have elapsed. */
  function TooSoon(last: Instant, now: Instant): (r: bool)
    ensures r <==> ElapsedSeconds(last, now) < CooldownSeconds as real
  {
    var diff := (now.stamp.seconds - last.stamp.seconds) * MicrosPerSecond + (now.micros - last.micros);
    assert ElapsedSeconds(last, now) * 1_000_000.0 == diff as real;
    diff < CooldownSeconds * MicrosPerSecond
  }

  /** What the handler answers: the cooldown apology, a good-morning reply with
      the time slept (None for the empty text), or a good-night reply with the
      sender's place among today's sleepers. */
  datatype Reply = Rejected | Morning(slept: Option<Slept>) | Night(rank: nat)

  /** The data file: as found at startup (not modelled), or last written with
      the given records. */
  datatype Snapshot = Startup | Saved(records: Data)

  class SleepTracker {
    /** good_morning_data */
    var data: Data
    /** good_morning_cd: user -> time of the user's last accepted event */
    var cd: map<UserId, Instant>
    /** daily_sleep_cache */
    var cache: Cache
    /** the data file */
    var persisted: Snapshot

    /** Once the tracker has written the file, the file holds what is in memory. */
    ghost predicate Synced()
      reads this
    {
      persisted.Saved? ==> persisted.records == data
    }

    /** `loaded` is what startup reads from the file under "good_morning". */
    constructor (loaded: Data)
      ensures Synced()
      ensures data == loaded && cd == map[] && cache == map[] && persisted == Startup
    {
      data := loaded;
      cd := map[];
      cache := map[];
      persisted := Startup;
    }

    method GetCachedSleepCount(scope: Scope, date: Date) returns (count: int)
      modifies this`cache
      ensures count == CachedCount(old(cache), scope, date)
      ensures cache == WithScope(old(cache), scope)
    {
      if scope !in cache {
        cache := cache[scope := map[]];
      }
      count := if date in cache[scope] then cache[scope][date] else -1;
    }

    method UpdateSleepCache(scope: Scope, date: Date, count: int)
      modifies this`cache
      ensures cache == WithCount(old(cache), scope, date, count)
    {
      if scope !in cache {
        cache := cache[scope := map[]];
      }
      cache := cache[scope := cache[scope][date := count]];
    }

    method InvalidateSleepCache(scope: Scope, date: Date)
      modifies this`cache
      ensures cache == WithoutCount(old(cache), scope, date)
    {
      if scope in cache && date in cache[scope] {
        cache := cache[scope := cache[scope] - {date}];
      }
    }

    /** True when the user is still in cooldown. */
    method CheckGoodMorningCd(user: UserId, now: Instant) returns (inCd: bool)
      ensures user !in cd ==> !inCd
      ensures user in cd ==> (inCd <==> TooSoon(cd[user], now))
    {
      if user !in cd {
        return false;
      }
      var last := cd[user];
      inCd := TooSoon(last, now);
    }

    method UpdateGoodMorningCd(user: UserId, now: Instant)
      modifies this`cd
      ensures cd == old(cd)[user := now]
    {
      cd := cd[user := now];
    }

    /** A good-morning or good-night message `text` from `user` in `scope` at `now`. */
    method GoodMorning(scope: Scope, user: UserId, text: string, now: Instant) returns (reply: Reply)
      requires Synced()
      modifies this
      ensures Synced()
      ensures reply == Rejected <==> old(user in cd && TooSoon(cd[user], now))
      ensures reply == Rejected ==>
                data == old(data) && cd == old(cd) && cache == old(cache) && persisted == old(persisted)
      ensures reply != Rejected ==>
                data == Recorded(old(data), scope, user, IsNightText(text), now.stamp) &&
                persisted == Saved(data) &&
                cd == old(cd)[user := now] &&
                cache == WithCount(old(cache), scope, now.stamp.date, SleepingCount(data[scope], now.stamp.date.day))
      ensures reply != Rejected && IsNightText(text) ==>
                reply == Night(SleepingCount(data[scope], now.stamp.date.day)) &&
                reply.rank == SleepingCount(old(RecordsOf(data, scope)) - {user}, now.stamp.date.day) + 1 &&
                reply.rank <= |data[scope]|
      ensures reply != Rejected && !IsNightText(text) ==>
                reply == Morning(SleptSince(old(RecordOf(RecordsOf(data, scope), user)).nightTime, now.stamp))
    {
      var inCd := CheckGoodMorningCd(user, now);
      if inCd {
        return Rejected;
      }
      var isNight := Contains(text, NightWord);
      reply := Accept(scope, user, isNight, now);
    }

    /** The handler once the cooldown check has let the event through. */
    method Accept(scope: Scope, user: UserId, isNight: bool, now: Instant) returns (reply: Reply)
      modifies this
      ensures data == Recorded(old(data), scope, user, isNight, now.stamp)
      ensures persisted == Saved(data)
      ensures cd == old(cd)[user := now]
      ensures cache == WithCount(old(cache), scope, now.stamp.date, SleepingCount(data[scope], now.stamp.date.day))
      ensures isNight ==>
                reply == Night(SleepingCount(data[scope], now.stamp.date.day)) &&
                reply.rank == SleepingCount(old(RecordsOf(data, scope)) - {user}, now.stamp.date.day) + 1 &&
                reply.rank <= |data[scope]|
      ensures !isNight ==>
                reply == Morning(SleptSince(old(RecordOf(RecordsOf(data, scope), user)).nightTime, now.stamp))
    {
      ghost var before := RecordsOf(data, scope);
      ghost var night := RecordOf(before, user).nightTime;
      var umo, record := StoreRecord(scope, user, isNight, now.stamp);

      UpdateGoodMorningCd(user, now);

      var sleeping := RefreshSleepCount(scope, umo, now.stamp);

      if !isNight {
        var slept := None;
        if record.nightTime.Time? {
          slept := Some(SleptFor(record.morningTime.at.seconds - record.nightTime.at.seconds));
        }
        assert slept == SleptSince(night, now.stamp);
        reply := Morning(slept);
      } else {
        CountAfterEvent(before, user, isNight, now.stamp);
        SleepingCountBound(umo, now.stamp.date.day);
        reply := Night(sleeping);
      }
    }

    /** Applies the event to the user's record, stores the scope back and
        writes the data file. */
    method StoreRecord(scope: Scope, user: UserId, isNight: bool, now: Stamp)
      returns (umo: ScopeRecords, record: Daily)
      modifies this`data, this`persisted
      ensures data == Recorded(old(data), scope, user, isNight, now)
      ensures persisted == Saved(data)
      ensures umo == data[scope] && record == umo[user]
      ensures umo == old(RecordsOf(data, scope))[user := record]
      ensures record == Transition(old(RecordOf(RecordsOf(data, scope), user)), isNight, now)
    {
      umo := if scope in data then data[scope] else map[];
      record := if user in umo then umo[user] else Blank;

      if isNight {
        record := record.(nightTime := Time(now), morningTime := Empty);
      } else {
        record := record.(morningTime := Time(now));
      }

      umo := umo[user := record];
      data := data[scope := umo];

      persisted := Saved(data);
    }

    /** Invalidates the cached count of the scope for today, counts the
        scope's sleepers again and caches the new count. */
    method RefreshSleepCount(scope: Scope, umo: ScopeRecords, now: Stamp) returns (sleeping: nat)
      modifies this`cache
      ensures sleeping == SleepingCount(umo, now.date.day)
      ensures cache == WithCount(old(cache), scope, now.date, sleeping)
    {
      InvalidateSleepCache(scope, now.date);
      sleeping := CountAsleep(umo, now.date.day);
      UpdateSleepCache(scope, now.date, sleeping);
      RefreshIsStore(old(cache), scope, now.date, sleeping);
    }
  }
}
