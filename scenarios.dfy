/** Conversations with the tracker, from a fresh start, and what it answers. */
module Scenarios {
  import opened Records
  import opened SleepCache
  import opened Essential

  /** Seconds from 2024-01-01 00:00:00 (UTC+8) to the given time that day. */
  function OnJan(day: int, h: int, m: int): Stamp
  {
    Stamp((day - 1) * 86400 + h * 3600 + m * 60, Date(2024, 1, day))
  }

  /** A clock reading on a whole second. */
  function Sharp(s: Stamp): Instant
  {
    Instant(s, 0)
  }

  lemma EmptyScopeSleepsNobody(day: int)
    ensures SleepingCount(map[], day) == 0
  {
    var none: ScopeRecords := map[];
    assert AsleepAmong(none, none.Keys, day) == {};
  }

  /** "早安" is not a good-night message. */
  lemma MorningWordIsNotNight()
    ensures !IsNightText("早安")
  {
    assert "早安"[0..2][0] != NightWord[0];
  }

  /** User A says good night at 2024-01-01 23:00:00 and is the first to sleep;
      at 2024-01-02 07:30:00 A says good morning and has slept 8 hours 30 minutes. */
  method NightThenMorning() returns (night: Reply, saved: Snapshot, morning: Reply)
    ensures night == Night(1)
    ensures saved == Saved(map["g" := map["A" := Daily(Empty, Time(OnJan(1, 23, 0)))]])
    ensures morning == Morning(Some(Slept(8, 30)))
  {
    var t := new SleepTracker(map[]);
    assert IsNightText("晚安") by { assert OccursAt("晚安", NightWord, 0); }
    CountAfterEvent(map[], "A", true, OnJan(1, 23, 0));
    EmptyScopeSleepsNobody(1);
    night := t.GoodMorning("g", "A", "晚安", Sharp(OnJan(1, 23, 0)));
    saved := t.persisted;
    assert t.data["g"]["A"] == Daily(Empty, Time(OnJan(1, 23, 0)));
    MorningWordIsNotNight();
    assert SleptFor(30600) == Slept(8, 30);
    assert SleptSince(Time(OnJan(1, 23, 0)), OnJan(2, 7, 30)) == Some(Slept(8, 30));
    morning := t.GoodMorning("g", "A", "早安", Sharp(OnJan(2, 7, 30)));
  }

  /** A goes to sleep at 22:00 and B at 22:10 on 2024-01-01 in group "g":
      they are the first and the second to sleep that day. */
  method TwoAsleep() returns (t: SleepTracker, a: Reply, b: Reply)
    ensures fresh(t) && t.Synced()
    ensures a == Night(1) && b == Night(2)
    ensures t.data == map["g" := map["A" := Daily(Empty, Time(OnJan(1, 22, 0))),
                                     "B" := Daily(Empty, Time(OnJan(1, 22, 10)))]]
    ensures t.cd == map["A" := Sharp(OnJan(1, 22, 0)), "B" := Sharp(OnJan(1, 22, 10))]
    ensures SleepingCount(t.data["g"], 1) == 2
  {
    t := new SleepTracker(map[]);
    assert IsNightText("晚安") by { assert OccursAt("晚安", NightWord, 0); }
    EmptyScopeSleepsNobody(1);
    ghost var none: ScopeRecords := map[];
    assert none - {"A"} == none;

    a := t.GoodMorning("g", "A", "晚安", Sharp(OnJan(1, 22, 0)));
    ghost var afterA := t.data["g"];
    assert a == Night(1) && SleepingCount(afterA, 1) == 1;
    assert afterA - {"B"} == afterA;

    b := t.GoodMorning("g", "B", "晚安", Sharp(OnJan(1, 22, 10)));
  }

  /** Then B wakes up at 23:00 after 50 minutes: one of the two is still
      asleep, and the cache says so. */
  method TwoSleepersOneWakes() returns (wake: Reply, cached: int)
    ensures wake == Morning(Some(Slept(0, 50)))
    ensures cached == 1
  {
    var t, a, b := TwoAsleep();
    MorningWordIsNotNight();
    CountChange(t.data["g"], "B", false, OnJan(1, 23, 0));
    assert SleptFor(3000) == Slept(0, 50);
    assert SleptSince(Time(OnJan(1, 22, 10)), OnJan(1, 23, 0)) == Some(Slept(0, 50));
    wake := t.GoodMorning("g", "B", "早安", Sharp(OnJan(1, 23, 0)));
    cached := t.GetCachedSleepCount("g", Date(2024, 1, 1));
  }

  /** The cooldown belongs to the user, not to the scope: 1799 seconds after a
      good night in one group the user is turned away in another, and 1800
      seconds after it they are let through (with no night on record there). */
  method CooldownAcrossScopes() returns (first: Reply, tooSoon: Reply, later: Reply)
    ensures first == Night(1)
    ensures tooSoon == Rejected
    ensures later == Morning(None)
  {
    var t := new SleepTracker(map[]);
    assert IsNightText("晚安") by { assert OccursAt("晚安", NightWord, 0); }
    MorningWordIsNotNight();
    EmptyScopeSleepsNobody(1);
    CountAfterEvent(map[], "A", true, OnJan(1, 23, 0));
    first := t.GoodMorning("g1", "A", "晚安", Sharp(OnJan(1, 23, 0)));
    var start := OnJan(1, 23, 0);
    tooSoon := t.GoodMorning("g2", "A", "早安", Sharp(Stamp(start.seconds + 1799, start.date)));
    later := t.GoodMorning("g2", "A", "早安", Sharp(Stamp(start.seconds + 1800, start.date)));
  }

  /** Two good nights in a row: the later one replaces the earlier night and
      the morning stays empty. */
  method NightTwice() returns (second: Reply, record: Daily)
    ensures second == Night(1)
    ensures record == Daily(Empty, Time(OnJan(1, 23, 30)))
  {
    var t := new SleepTracker(map[]);
    assert IsNightText("晚安") by { assert OccursAt("晚安", NightWord, 0); }
    EmptyScopeSleepsNobody(1);
    var first := t.GoodMorning("g", "A", "晚安", Sharp(OnJan(1, 23, 0)));
    CountChange(t.data["g"], "A", true, OnJan(1, 23, 30));
    CountAfterEvent(map[], "A", true, OnJan(1, 23, 0));
    second := t.GoodMorning("g", "A", "晚安", Sharp(OnJan(1, 23, 30)));
    record := t.data["g"]["A"];
  }

  /** The cooldown counts microseconds: a good night at 23:00:00.900 keeps the
      user out at 23:30:00.500 (1799.6 seconds later) although the two
      readings are 1800 whole seconds apart, and lets them in at 23:30:00.900. */
  method CooldownBelowASecond() returns (first: Reply, tooSoon: Reply, later: Reply)
    ensures first == Night(1)
    ensures tooSoon == Rejected
    ensures later == Morning(Some(Slept(0, 30)))
  {
    var t := new SleepTracker(map[]);
    var start := OnJan(1, 23, 0);
    var next := OnJan(1, 23, 30);
    assert IsNightText("晚安") by { assert OccursAt("晚安", NightWord, 0); }
    MorningWordIsNotNight();
    EmptyScopeSleepsNobody(1);
    CountAfterEvent(map[], "A", true, start);
    first := t.GoodMorning("g", "A", "晚安", Instant(start, 900_000));
    assert next.seconds - start.seconds == 1800;
    tooSoon := t.GoodMorning("g", "A", "早安", Instant(next, 500_000));
    assert SleptFor(1800) == Slept(0, 30);
    later := t.GoodMorning("g", "A", "早安", Instant(next, 900_000));
  }
}
