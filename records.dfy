/** The values behind the good-morning / good-night tracker: time stamps, the
    per-user "daily" record, the transition an event applies to it, the
    "asleep today" count and the slept-for arithmetic of a morning reply. */
module Records {

  datatype Option<T> = None | Some(value: T)

  /** A conversation (the host's unified message origin). */
  type Scope = string
  type UserId = string

  /** A civil date in UTC+8: what "%Y-%m-%d" formats, and the cache key. */
  datatype Date = Date(year: int, month: int, day: int)

  /** An instant in UTC+8, in whole seconds on one time line, with its civil date. */
  datatype Stamp = Stamp(seconds: int, date: Date)

  /** Microseconds within a second. */
  type Micros = m: int | 0 <= m < 1_000_000

  /** A clock reading: the whole-second stamp that "%Y-%m-%d %H:%M:%S" keeps,
      and the microseconds that only the cooldown table keeps as well. */
  datatype Instant = Instant(stamp: Stamp, micros: Micros)

  /** A time field of a record: the empty string, or an instant written as
      "%Y-%m-%d %H:%M:%S" (which reads back as the same instant). */
  datatype TimeStr = Empty | Time(at: Stamp)

  /** The "daily" entry kept for one user in one scope. */
  datatype Daily = Daily(morningTime: TimeStr, nightTime: TimeStr)

  type ScopeRecords = map<UserId, Daily>

  /** good_morning_data: scope -> user -> daily record. */
  type Data = map<Scope, ScopeRecords>

  /** The record of a user seen for the first time. */
  const Blank := Daily(Empty, Empty)

  /** The word that marks a message as a good-night message. */
  const NightWord := "晚安"

  const SecondsPerHour := 3600
  const SecondsPerMinute := 60

  /** `p` occurs in `s` at index `i`. */
  predicate OccursAt(s: string, p: string, i: int)
  {
    0 <= i <= |s| - |p| && s[i..i + |p|] == p
  }

  /** An occurrence in the tail of `s` is an occurrence in `s` one place later. */
  lemma OccursShift(s: string, p: string, i: int)
    requires |s| > 0 && i >= 0
    ensures OccursAt(s[1..], p, i) <==> OccursAt(s, p, i + 1)
  {
    if 0 <= i <= |s| - 1 - |p| {
      assert s[1..][i..i + |p|] == s[i + 1..i + 1 + |p|];
    }
  }

  /** Substring containment, as Python's `p in s`. */
  function Contains(s: string, p: string): (r: bool)
    ensures r <==> exists i :: OccursAt(s, p, i)
    decreases |s|
  {
    if |s| < |p| then false
    else if s[..|p|] == p then assert OccursAt(s, p, 0); true
    else
      var r := Contains(s[1..], p);
      assert r ==> exists i :: OccursAt(s, p, i) by {
        if r {
          var i :| OccursAt(s[1..], p, i);
          OccursShift(s, p, i);
        }
      }
      assert (exists i :: OccursAt(s, p, i)) ==> r by {
        if i :| OccursAt(s, p, i) {
          assert i != 0;
          OccursShift(s, p, i - 1);
        }
      }
      r
  }

  /** A message is a good-night message when it contains the night word anywhere. */
  predicate IsNightText(text: string)
  {
    Contains(text, NightWord)
  }

  /** The records of a scope, empty for a scope not seen before. */
  function RecordsOf(data: Data, scope: Scope): ScopeRecords
  {
    if scope in data then data[scope] else map[]
  }

  /** The record of a user, blank for a user not seen before. */
  function RecordOf(umo: ScopeRecords, user: UserId): Daily
  {
    if user in umo then umo[user] else Blank
  }

  /** What one event does to a record: a night event starts a new cycle, a
      morning event stamps the wake-up and keeps the night. */
  function Transition(r: Daily, isNight: bool, now: Stamp): (r': Daily)
    ensures isNight ==> r'.nightTime == Time(now) && r'.morningTime.Empty?
    ensures !isNight ==> r'.morningTime == Time(now) && r'.nightTime == r.nightTime
    ensures AsleepOn(r', now.date.day) <==> isNight
  {
    if isNight then Daily(morningTime := Empty, nightTime := Time(now))
    else r.(morningTime := Time(now))
  }

  /** The data after an accepted event of `user` in `scope`. */
  function Recorded(data: Data, scope: Scope, user: UserId, isNight: bool, now: Stamp): (d: Data)
    ensures scope in d && user in d[scope]
    ensures forall s :: s in d <==> s in data || s == scope
    ensures forall u :: u in d[scope] <==> u in RecordsOf(data, scope) || u == user
    ensures d[scope][user] == Transition(RecordOf(RecordsOf(data, scope), user), isNight, now)
    ensures forall s :: s in data && s != scope ==> d[s] == data[s]
    ensures forall u :: u in RecordsOf(data, scope) && u != user ==> d[scope][u] == RecordsOf(data, scope)[u]
  {
    var umo := RecordsOf(data, scope);
    data[scope := umo[user := Transition(RecordOf(umo, user), isNight, now)]]
  }

  /** A record counts as asleep on day-of-month `day` when its night is set,
      its morning is empty and the night fell on that day of some month. */
  predicate AsleepOn(r: Daily, day: int)
  {
    r.nightTime.Time? && r.morningTime.Empty? && r.nightTime.at.date.day == day
  }

  /** The users among `keys` whose record in `umo` is asleep on `day`. */
  ghost function AsleepAmong(umo: ScopeRecords, keys: set<UserId>, day: int): set<UserId>
  {
    set u | u in keys && u in umo && AsleepOn(umo[u], day)
  }

  /** The number of users of a scope asleep on `day`. */
  ghost function SleepingCount(umo: ScopeRecords, day: int): nat
  {
    |AsleepAmong(umo, umo.Keys, day)|
  }

  /** No more users are asleep than the scope has records. */
  lemma SleepingCountBound(umo: ScopeRecords, day: int)
    ensures SleepingCount(umo, day) <= |umo|
  {
    var a := AsleepAmong(umo, umo.Keys, day);
    assert umo.Keys == a + (umo.Keys - a);
  }

  /** Looking at one more user adds one to the asleep users exactly when that
      user is asleep. */
  lemma AsleepAmongAdd(umo: ScopeRecords, keys: set<UserId>, u: UserId, day: int)
    requires u !in keys
    ensures |AsleepAmong(umo, keys + {u}, day)| ==
            |AsleepAmong(umo, keys, day)| + (if u in umo && AsleepOn(umo[u], day) then 1 else 0)
  {
    if u in umo && AsleepOn(umo[u], day) {
      assert AsleepAmong(umo, keys + {u}, day) == AsleepAmong(umo, keys, day) + {u};
    } else {
      assert AsleepAmong(umo, keys + {u}, day) == AsleepAmong(umo, keys, day);
    }
  }

  /** The counting loop of the handler: one pass over the records of a scope. */
  method CountAsleep(umo: ScopeRecords, day: int) returns (n: nat)
    ensures n == SleepingCount(umo, day)
  {
    n := 0;
    var rest := umo.Keys;
    ghost var seen: set<UserId> := {};
    while rest != {}
      invariant rest + seen == umo.Keys && rest !! seen
      invariant n == |AsleepAmong(umo, seen, day)|
      decreases rest
    {
      var u :| u in rest;
      AsleepAmongAdd(umo, seen, u, day);
      if AsleepOn(umo[u], day) {
        n := n + 1;
      }
      rest := rest - {u};
      seen := seen + {u};
    }
  }

  /** The count splits into the other users and `u` itself. */
  lemma CountSplit(umo: ScopeRecords, u: UserId, day: int)
    ensures SleepingCount(umo, day) ==
            SleepingCount(umo - {u}, day) + (if u in umo && AsleepOn(umo[u], day) then 1 else 0)
  {
    var others := umo - {u};
    assert AsleepAmong(umo, others.Keys, day) == AsleepAmong(others, others.Keys, day);
    if u in umo {
      assert umo.Keys == others.Keys + {u};
      AsleepAmongAdd(umo, others.Keys, u, day);
    } else {
      assert umo.Keys == others.Keys;
    }
  }

  /** After an event of `user`, today's count is the other users asleep today
      plus one for a night event (the sender) and none for a morning event
      (the sender has just woken). */
  lemma CountAfterEvent(umo: ScopeRecords, user: UserId, isNight: bool, now: Stamp)
    ensures var after := umo[user := Transition(RecordOf(umo, user), isNight, now)];
            SleepingCount(after, now.date.day) ==
            SleepingCount(umo - {user}, now.date.day) + (if isNight then 1 else 0)
  {
    var after := umo[user := Transition(RecordOf(umo, user), isNight, now)];
    CountSplit(after, user, now.date.day);
    assert after - {user} == umo - {user};
  }

  /** The count after an event, in terms of the count before it: a night event
      adds the sender unless they were already asleep today; a morning event
      removes them if they were. */
  lemma CountChange(umo: ScopeRecords, user: UserId, isNight: bool, now: Stamp)
    ensures var after := umo[user := Transition(RecordOf(umo, user), isNight, now)];
            var was := if user in umo && AsleepOn(umo[user], now.date.day) then 1 else 0;
            SleepingCount(after, now.date.day) ==
            SleepingCount(umo, now.date.day) - was + (if isNight then 1 else 0)
  {
    CountAfterEvent(umo, user, isNight, now);
    CountSplit(umo, user, now.date.day);
  }

  /** Hours and leftover minutes of the slept-for text "{h}小时{m}分". */
  datatype Slept = Slept(hours: int, minutes: int)

  /** int(x / k) for a whole x: division truncating toward zero. */
  function TruncDiv(x: int, k: int): (q: int)
    requires k > 0
    ensures x >= 0 ==> q * k <= x < q * k + k
    ensures x < 0 ==> q * k - k < x <= q * k
  {
    if x >= 0 then x / k else -((-x) / k)
  }

  /** The duration text of a morning reply for `d` seconds between the night
      and the morning: hours as int(d / 3600), minutes as int((d % 3600) / 60)
      with Python's floor modulo. For a negative d that is not a whole number
      of hours the two roundings disagree and the text is an hour off. */
  function SleptFor(d: int): (s: Slept)
    ensures 0 <= s.minutes < 60
    ensures d >= 0 ==> 0 <= s.hours &&
                       s.hours * 3600 + s.minutes * 60 <= d < s.hours * 3600 + s.minutes * 60 + 60
    ensures d < 0 ==> s.hours <= 0 && s.hours * 3600 - 3600 < d <= s.hours * 3600
    ensures d % 3600 == 0 ==> s.minutes == 0 && s.hours * 3600 == d
    ensures d < 0 && d % 3600 != 0 ==>
              (s.hours - 1) * 3600 + s.minutes * 60 <= d < (s.hours - 1) * 3600 + s.minutes * 60 + 60
  {
    var h := TruncDiv(d, SecondsPerHour);
    var m := (d % SecondsPerHour) / SecondsPerMinute;
    assert d == (d / 3600) * 3600 + d % 3600;
    assert d % 3600 == (d % 3600 / 60) * 60 + (d % 3600) % 60;
    assert d < 0 && d % 3600 != 0 ==> h == d / 3600 + 1 by {
      if d < 0 && d % 3600 != 0 {
        assert (-d) == ((-d) / 3600) * 3600 + (-d) % 3600;
      }
    }
    assert d < 0 && d % 3600 == 0 ==> h == d / 3600 by {
      if d < 0 && d % 3600 == 0 {
        assert (-d) == (d / 3600) * -3600;
      }
    }
    Slept(h, m)
  }

  /** Writing hours, minutes and seconds as a duration and reading it back with
      SleptFor gives the hours and minutes again. */
  lemma SleptForInverse(h: nat, m: nat, sec: nat)
    requires m < 60 && sec < 60
    ensures SleptFor(h * 3600 + m * 60 + sec) == Slept(h, m)
  {
    var d := h * 3600 + m * 60 + sec;
    var s := SleptFor(d);
    assert 0 <= m * 60 + sec < 3600;
    assert s.hours * 3600 <= d < s.hours * 3600 + 3600;
    assert s.hours == h;
    assert s.minutes * 60 <= m * 60 + sec < s.minutes * 60 + 60;
  }

  /** The slept-for part of a morning reply: empty when the record has no
      night, otherwise the time from that night to `now`. */
  function SleptSince(night: TimeStr, now: Stamp): (s: Option<Slept>)
    ensures s.None? <==> night.Empty?
    ensures s.Some? ==> 0 <= s.value.minutes < 60
    ensures night.Time? && now.seconds >= night.at.seconds ==> 0 <= s.value.hours
    ensures night.Time? && now.seconds >= night.at.seconds ==>
              var d := now.seconds - night.at.seconds;
              s.value.hours * 3600 + s.value.minutes * 60 <= d < s.value.hours * 3600 + s.value.minutes * 60 + 60
  {
    match night
    case Empty => None
    case Time(t) => Some(SleptFor(now.seconds - t.seconds))
  }
}
