# Good-morning / good-night sleep tracker

A Dafny model of the sleep tracker in the "toolbox" chat-bot plugin. This is the one part of the plugin with logic of its own. A user tells the bot "早安" (good morning) or "晚安" (good night) in a conversation (a *scope*). The plugin:

- turns away a user who already greeted less than 1800 seconds ago, in any scope;
- otherwise updates that user's record in that scope and rewrites the data file;
- records the time of the greeting for the cooldown;
- recounts how many users of the scope are asleep "today";
- answers a good night with the sender's place among today's sleepers, and a good morning with the time slept since the night on record.

The model has four modules:

- `Records` (records.dfy) holds the values:
  - time stamps;
  - the per-user `Daily` record, whose time fields are either empty or a time;
  - the transition an event applies to a record (`Transition`) and the data after an event (`Recorded`);
  - the substring test that classifies a message (`Contains`);
  - the "asleep today" count, specified as a set cardinality (`SleepingCount`) and computed by the handler's loop (`CountAsleep`), with lemmas on how one event changes it;
  - the hours/minutes arithmetic of the morning reply (`SleptFor`).
- `SleepCache` (sleep_cache.dfy) describes the per-scope, per-date count cache as pure map functions. Its lookup answers -1 for "not cached".
- `Essential` (tracker.dfy) holds the class `SleepTracker`. It has the source object's three maps: `data` (good_morning_data), `cd` (good_morning_cd) and `cache` (daily_sleep_cache). A fourth field, `persisted`, stands for the data file. Each of the source's methods is a method here, and `GoodMorning` is the handler. Its contract states the whole new state:
  - on a cooldown rejection nothing changes;
  - otherwise the only record that changes is the (scope, user) one;
  - the file equals the in-memory data;
  - the cooldown entry of the user is `now`;
  - the cache holds the recount for today's date, and nothing else in it changes;
  - the reply carries the recount (at least 1, since the sender is counted, and at most the number of records in the scope) or the time slept.
- `Scenarios` (scenarios.dfy) drives a fresh tracker through conversations and proves what it answers.

Behaviours of the code that the model keeps:

- The cooldown compares the full signed difference `total_seconds()` of two clock readings, microseconds included (main.py:55, 68, 102). A clock that went backwards therefore keeps the user in cooldown. The records themselves keep whole seconds only (main.py:69).
- A message is a good-night message when "晚安" occurs anywhere in it. A message that starts with "早安" and mentions "晚安" later counts as a good night.
- "Asleep today" compares only the day of the month of the night with that of `now`. A user who went to sleep on 1 January and never said good morning still counts on 1 February. The model keeps this (`AsleepOn`).
- The slept-for time is `int(d / 3600)` hours, which truncates toward zero, and `int((d % 3600) / 60)` minutes, which uses Python's floor modulo. For a negative `d` (a morning stamped before its night) that is not a whole number of hours, the two roundings disagree. The text is then an hour off, e.g. 0 hours 58 minutes for -100 seconds. `SleptFor` states both behaviours.
- At startup the plugin reads the `"good_morning"` entry of the file (main.py:27), but the handler writes the bare scope map (main.py:100). A restart therefore does not get the records back. The model leaves the reload out: the constructor takes whatever the loader produced.

## Model

| member | source | states |
|---|---|---|
| Records.Contains | main.py:74 | the result is true exactly when the pattern occurs at some index of the text (Python's `in` on strings) |
| Records.IsNightText | main.py:74 | true exactly when 晚安 occurs anywhere in the text |
| Records.RecordsOf | main.py:76-79 | the records of a scope, empty for a scope not seen before |
| Records.RecordOf | main.py:80-88 | the record of a user, with both time fields empty for a user not seen before |
| Records.Transition | main.py:90-94 | a night event sets the night to now and empties the morning; a morning event sets the morning to now and keeps the night; the new record is asleep today exactly when the event was a night event |
| Records.Recorded | main.py:76-97 | after an event, the data has the (scope, user) record replaced by the transition of the old record, or of a blank record for a new user or scope; every other scope and every other user of the scope keep their record, and no other key appears |
| Records.AsleepOn | main.py:110-114 | the test of the counting loop: night set, morning empty, and the night's day of month equal to today's |
| Records.CountAsleep | main.py:104-115 | the loop over the scope's records returns the number of users whose night is set, whose morning is empty and whose night is on today's day of the month |
| Records.SleepingCountBound | main.py:108-115 | the count never exceeds the number of records in the scope |
| Records.CountSplit | main.py:108-115 | the count is the count over the other users plus one when the given user is asleep today |
| Records.CountAfterEvent | main.py:90-117 | after an event, today's count is the other users' count plus one for a night event (the sender is counted) and plus none for a morning event (the sender has just woken) |
| Records.CountChange | main.py:90-117 | after an event, the count equals the count before, less one if the sender was asleep today, plus one for a night event |
| Records.TruncDiv | main.py:129 | the quotient truncates toward zero for both signs, as `int(x / k)` |
| Records.SleptFor | main.py:128-131 | minutes are in 0..59; for d >= 0 hours*3600 + minutes*60 <= d < that + 60; a whole number of hours gives minutes 0; for a negative d the hours truncate toward zero and the shown time is an hour off unless d is a whole number of hours |
| Records.SleptForInverse | main.py:128-131 | a duration of h hours, m minutes and s seconds (m, s < 60) is shown as h hours m minutes |
| Records.SleptSince | main.py:119-131 | empty exactly when the record has no night; otherwise hours and leftover minutes (0..59) of the time since the night, with hours >= 0 and hours*3600 + minutes*60 <= d < that + 60 for a morning after its night |
| SleepCache.CachedCount | main.py:36 | a lookup answers the stored count, or -1 when the scope or the date has no entry |
| SleepCache.WithScope | main.py:34-35 | the scopes are the old ones plus `scope`, a new scope's entry is empty, every existing scope's entry is kept, and no lookup answer changes |
| SleepCache.WithCount | main.py:38-42 | after storing c for (scope, date), the lookup of (scope, date) answers c and every other lookup answers as before |
| SleepCache.WithoutCount | main.py:44-47 | after invalidating (scope, date), the lookup answers -1 and every other lookup answers as before; invalidating an absent key leaves the cache as it was |
| SleepCache.RefreshIsStore | main.py:107-117 | invalidating an entry and then storing a count for it is the same as storing the count |
| Essential.ElapsedSeconds | main.py:55 | the signed real-valued difference of two clock readings, microseconds included |
| Essential.TooSoon | main.py:54-56 | the integer comparison on microseconds is true exactly when the elapsed `total_seconds()`, as a real number, is below 1800 |
| Essential.SleepTracker.constructor | main.py:17-30 | starts with the loaded records, an empty cooldown table, an empty cache and the file as found |
| Essential.SleepTracker.GetCachedSleepCount | main.py:32-36 | answers the stored count or -1, and leaves an empty entry for a scope the cache did not have |
| Essential.SleepTracker.UpdateSleepCache | main.py:38-42 | the cache becomes the one with c stored for (scope, date) |
| Essential.SleepTracker.InvalidateSleepCache | main.py:44-47 | the cache becomes the one without an entry for (scope, date) |
| Essential.SleepTracker.CheckGoodMorningCd | main.py:49-56 | false for a user with no cooldown entry; otherwise true exactly when less than 1800 seconds (with microseconds) have elapsed since the entry |
| Essential.SleepTracker.UpdateGoodMorningCd | main.py:58-60 | the user's cooldown entry becomes now and the other users' entries are unchanged |
| Essential.SleepTracker.GoodMorning | main.py:62-147 | rejected exactly when the user is in cooldown, and then data, cooldown table, cache and file are unchanged; otherwise the data is `Recorded`, the file equals the data, the cooldown entry is now, the cache holds today's recount and is otherwise unchanged, a night reply carries the recount (one more than the other users asleep today, and at most the number of records in the scope) and a morning reply carries the time since the night on record (none if there was none) |
| Essential.SleepTracker.Accept | main.py:76-147 | the handler after the cooldown check: the same new state and reply as GoodMorning's accepted case |
| Essential.SleepTracker.StoreRecord | main.py:76-100 | applies the transition to the user's record, stores the scope back, and writes the file with the new data |
| Essential.SleepTracker.RefreshSleepCount | main.py:104-117 | returns the recount of the scope for today's day of the month and leaves the cache with that count stored for today's date |
| Scenarios.NightThenMorning | main.py:63-147 | good night at 2024-01-01 23:00:00 gives place 1 and saves the record (night set, morning empty); good morning at 2024-01-02 07:30:00 reports 8 hours 30 minutes |
| Scenarios.TwoAsleep | main.py:63-147 | two users going to sleep on the same day get places 1 and 2 |
| Scenarios.TwoSleepersOneWakes | main.py:63-147 | when one of the two wakes after 50 minutes, the reply says 0 hours 50 minutes and the cached count for that day is 1 |
| Scenarios.CooldownAcrossScopes | main.py:49-72 | 1799 seconds after a good night in one scope the same user is rejected in another scope; at 1800 seconds the user is accepted there, with an empty slept-for time |
| Scenarios.CooldownBelowASecond | main.py:49-72 | a good night at 23:00:00.900 keeps the user out at 23:30:00.500, which is 1800 whole seconds later on the records' clock but only 1799.6 seconds by the cooldown's, and lets them in at 23:30:00.900 with 0 hours 30 minutes slept |
| Scenarios.NightTwice | main.py:90-92 | a second good night replaces the night time, keeps the morning empty, and the sender is still counted once |

## Left out

- The HTTP query handlers `hero_power`, `city_route` and `search_images` (main.py:151-323). They are network calls plus formatting of third-party JSON.
- File I/O: creating the file at startup and reading it (main.py:22-27), and the JSON serialisation of the write (main.py:99-100). The file is the field `persisted`: `Startup` before the first accepted event, then `Saved` with the data. A write that fails part-way is not modelled.
- Reloading the records after a restart: the loader's key does not match what the writer stores, as described above. The constructor takes the loaded records as a parameter.
- The clock: `now` is a parameter, an `Instant`: a `Stamp` plus the microseconds, which only the cooldown reads. `strftime`/`strptime` are replaced by the `Stamp` fields:
  - whole seconds on one UTC+8 time line, as the record strings keep them;
  - the civil date, whose day of month is used for "today";
  - the cache key, the date itself, since "%Y-%m-%d" tells dates apart.
  The model does not tie a stamp's date to its seconds.
- Floating point: `total_seconds()` is modelled as an exact real number of microseconds, and the float divisions of the slept-for text as exact integer arithmetic on whole seconds. Float rounding is not modelled; at realistic magnitudes it changes no comparison with 1800 and no hour or minute.
- The reply text: the nickname, the formatted current time and the Chinese wording. Replies are the `Reply` datatype. `CommandResult`, `use_t2i`, logging and the host's regex dispatch `^(早安|晚安)` are also left out, so `GoodMorning` accepts any text.
- The in-place update of the aliased dicts `umo` and `user` (main.py:76-97). The model builds the new record and scope map as values and stores them. Nothing reads the data between the in-place mutation and the store, so the final state is the same.
- Concurrency: the host's `async` dispatch is taken to deliver one event at a time.
