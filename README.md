# Gamified productivity backend: the scoring engine

This project models the scoring engine of a gamified productivity backend and proves properties about it. The model has three parts:

- **Scoring rules** (`gamification.dfy`, module `Gamification`):
  - the XP a task is worth;
  - the level reached by a total XP, capped at 1000, and the XP that marks the next level;
  - the daily streak rule and its XP multiplier;
  - the six-entry achievement table;
  - the daily boss challenge generator;
  - the discipline score.
- **Coach heuristics** (`coach.dfy`, module `Coach`):
  - the burnout-risk estimate over the last seven focus sessions;
  - the best-time-of-day suggestion, built from a tally of successful sessions by start hour.
- **Handler bookkeeping** (`server.dfy`, module `Server`). The HTTP handlers become methods of a `Backend` object that holds one user's records: the user, tasks, skill trees, daily boss challenges and stored achievements. The methods are creating and completing a task, the achievement check with its diff against stored unlocks, today's boss (looked up or created) and completing a boss.
  - `Backend.Valid()` is the invariant that every method keeps. It says that:
    - the level always agrees with the total XP;
    - the `xp` field is derived from the total XP and the level;
    - the longest streak is at least the current one;
    - every skill tree's level agrees with its XP;
    - there is at most one boss challenge per date;
    - stored achievements have no repeats.

`wrappers.dfy` holds the `Option` and `Result` types.

Some quantities in the original are floats; the model uses exact integers instead:

- Multipliers are counted in tenths: `1.0 + 0.1 * n` is `10 + n`.
- `int(math.sqrt(x / 100)) + 1` is "the smallest `l` with `x < 100 * l * l`" (`IsLevelOf`). `Sq` is a recursive square function that keeps these proofs linear.
- An average above 360 minutes over seven sessions is a sum above 2520.
- A success rate below one half over seven sessions is at most three successes.
- Python's `int()` truncates toward zero, which `TruncDiv` models. Dafny's `/` is Euclidean.

## Model

| member | source | states |
|---|---|---|
| Gamification.XpReward | backend/gamification.py:6-11 | The reward is never negative for non-negative inputs, and at multiplier 1.0 it is exactly `difficulty*20 + minutes*2`. |
| Gamification.XpRewardExample | backend/gamification.py:6-11 | Difficulty 3 with 30 minutes at multiplier 1.0 is worth 120 XP. |
| Gamification.XpRewardMonotoneInMultiplier | backend/gamification.py:6-11 | A larger multiplier never gives a smaller reward. |
| Gamification.TruncDivBounds | backend/gamification.py:118 | Truncating division of `a` by `n` with `abs(a) <= k*n` lies in [-k, k], reaches either end only at exact multiples, and keeps the sign of `a`. |
| Gamification.LevelFromXp | backend/gamification.py:13-18 | The level lies in [1, 1000], `100*(l-1)^2 <= x`, and `x < 100*l^2` below the cap. |
| Gamification.LevelUnique | backend/gamification.py:13-18 | Any level meeting those bounds is the computed one. |
| Gamification.LevelIsRootPlusOne | backend/gamification.py:15-18 | If `k` is the integer square root of `x/100`, the level is `min(k+1, 1000)`. |
| Gamification.LevelExamples | backend/gamification.py:13-18 | 0 XP gives level 1 and 120 XP gives level 2. The level is 1000 exactly when the total is at least 99,800,100. |
| Gamification.LevelMonotone | backend/gamification.py:13-18 | More total XP never gives a lower level. |
| Gamification.XpForNextLevel | backend/gamification.py:20-24 | The threshold is 0 exactly at levels 1000 and above (and at level 0). |
| Gamification.XpForNextLevelIsSquare | backend/gamification.py:24 | Below the cap the threshold is `level*level*100`. |
| Gamification.NextLevelThreshold | backend/gamification.py:20-24 | Below the cap, `xp_for_next_level(l)` is the first total at level `l+1`; one XP less is still level `l`. |
| Gamification.CalculateStreak | backend/gamification.py:27-40 | For a non-negative streak: the multiplier is in [1.0, 3.0]; the streak grows by one exactly when 24h <= elapsed < 48h, and only then is there a bonus. The streak is kept under 24h and reset from 48h. |
| Gamification.StreakBoundaries | backend/gamification.py:33-40 | Exact values at 86399, 86400, 172799 and 172800 seconds. A new streak of 21 or more hits the 3.0 cap. |
| Gamification.Rank | backend/gamification.py:43-80 | Each achievement sits at its position in the table. |
| Gamification.UnlockedInMembers | backend/gamification.py:82-88 | The filtered list holds exactly the table entries whose threshold holds. |
| Gamification.UnlockedInKeepsOrder | backend/gamification.py:82-88 | Filtering a list in table order keeps table order. |
| Gamification.CheckAchievements | backend/gamification.py:82-88 | The loop returns exactly the unlocked entries, in table order, hence without repeats. |
| Gamification.CheckAchievementsExample | backend/gamification.py:43-88 | A user with one completed task and nothing else unlocks only `first_task`. |
| Gamification.BossDifficulty | backend/gamification.py:101 | The difficulty is in [1, 5]: `level//5 + 1` for levels 0-19, 1 below level 5, and 5 from level 20. |
| Gamification.BossScalesWithLevel | backend/gamification.py:101-102 | A higher level never lowers the difficulty and strictly raises the reward. |
| Gamification.BossExample | backend/gamification.py:101-102 | Level 12 gives difficulty 3 and reward 420. |
| Gamification.GenerateBossChallenge | backend/gamification.py:91-108 | The text is one of the five templates, the difficulty is the clamped formula, and the reward is `difficulty*100 + level*10`. |
| Gamification.CompletionTerm | backend/gamification.py:115-118 | The completion term is in [-20, 20] and is 0 with no tasks. It is +20 exactly when nothing was missed and something was completed, and -20 exactly when nothing was completed and something was missed. |
| Gamification.DisciplineScore | backend/gamification.py:111-127 | The score is in [0, 100]. All-zero inputs give 50, and a non-negative streak and focus time give at least 30. |
| Gamification.DisciplineMonotone | backend/gamification.py:121-127 | A longer streak or more focus time never lowers the score. |
| Coach.Recent | backend/ai_coach.py:58 | The window is the last seven sessions. |
| Coach.DetectBurnoutRisk | backend/ai_coach.py:53-56 | Fewer than seven sessions give low risk with "Not enough data yet". |
| Coach.BurnoutDependsOnlyOnRecent | backend/ai_coach.py:53-60 | Sessions before the last seven never change the result. |
| Coach.BurnoutRiskCases | backend/ai_coach.py:62-72 | With enough data: high iff the seven durations sum above 2520; medium iff not and at most three succeeded; low iff not and at least four succeeded. At most seven succeed. |
| Coach.SuccessCountAtMostLength | backend/ai_coach.py:60 | The success count never exceeds the number of sessions. |
| Coach.TotalDurationAtMost | backend/ai_coach.py:59 | Sessions of at most `cap` minutes sum to at most `cap` per session. |
| Coach.ModerateSessionsAreNotHighRisk | backend/ai_coach.py:59-72 | If none of the last seven sessions is over six hours, the risk is not high. With four or more successes it is low with "You're doing great!". |
| Coach.FirstSeenHoursMembers | backend/ai_coach.py:81-84 | An hour is a tally key iff some counted session started in it. |
| Coach.FirstSeenHoursDistinct | backend/ai_coach.py:81-84 | Tally keys are listed once each, in first-insertion order. |
| Coach.IndexOf | backend/ai_coach.py:89 | The position returned holds the value, and no earlier position does. |
| Coach.BestHourUnique | backend/ai_coach.py:89 | At most one hour is "maximal count, earliest inserted among the maximal". |
| Coach.TallyHours | backend/ai_coach.py:80-84 | The dictionary's keys are exactly the hours with counted sessions, each mapped to its count; the key order is first-insertion order. |
| Coach.FirstMaxIsBestHour | backend/ai_coach.py:89 | The first position in insertion order holding a largest count is the best hour. |
| Coach.FirstMax | backend/ai_coach.py:89 | `max(d, key=d.get)`: the chosen key's count is at least every key's, and strictly above every key inserted before it. |
| Coach.Band | backend/ai_coach.py:91-96 | The band carries the hour it was chosen for. |
| Coach.SuggestOptimalTime | backend/ai_coach.py:75-96 | Fewer than ten sessions give the fixed morning tip. Otherwise the result is "no successful sessions" iff no counted session exists, and any hour returned is the best hour, phrased by band (<12, <17, later). |
| Server.XpFieldAsWritten | backend/server.py:179 | The `xp` field as written: no value when the divisor `xp_for_next_level(level)` is 0. |
| Server.XpFieldAsWrittenFailsAtCap | backend/server.py:179 | From 99,800,100 total XP the level is 1000 and the update as written has no value. |
| Server.XpFieldAsWrittenFailsOnCompletion | backend/server.py:167-179 | A level-999 user with 99,800,000 XP who completes a 100-XP task hits the division by zero. |
| Server.RemIsMod | backend/server.py:179 | Repeated subtraction computes Python's `%` for a non-negative total. |
| Server.XpField | backend/server.py:179 | The corrected `xp` field: below the cap it is less than the next-level threshold; at the cap it is 0. |
| Server.XpFieldAgrees | backend/server.py:179 | Below the cap the corrected field equals the formula as written. |
| Server.XpFieldIsTotalBelowCap | backend/server.py:167-179 | Below the cap the modulo never wraps: the stored `xp` equals the total XP. |
| Server.CompleteTaskAsWritten | backend/server.py:160-203 | In the original's order of writes: the task is always marked completed. The handler raises exactly when the new total reaches 99,800,100, and then the user and skill trees stay as they were. Otherwise the user and trees are what `Backend.CompleteTask` stores. A total below the cap stays below it. |
| Server.CompleteBossAsWritten | backend/server.py:481-499 | The challenge is always marked completed. The handler raises exactly when the new total reaches 99,800,100, and then the user stays as it was. Otherwise the user is what `Backend.CompleteBoss` stores. A total below the cap stays below it. |
| Server.CompleteTaskAsWrittenAtCap | backend/server.py:160-179 | The user of the Findings row is left with the task marked completed and the level still 999. |
| Server.UserAfterTask | backend/server.py:167-185 | After a task, the invariant still holds, the total grows by the reward, the level is recomputed and never drops, the streak follows the streak rule, and the longest streak never drops and is at least the current one. |
| Server.UserAfterBoss | backend/server.py:488-499 | After a boss, the invariant still holds, the total grows by the reward, the level never drops, and the streaks and last activity are unchanged. |
| Server.CreditTree | backend/server.py:188-203 | The credited tree stays consistent, gains the reward in total XP and never loses a level. |
| Server.CreditSkillTree | backend/server.py:188-203 | Only the named tree changes, and a name with no tree changes nothing. Every tree stays consistent. |
| Server.NotYetStoredMembers | backend/server.py:276-277 | An id is a new unlock iff it is unlocked and not stored. |
| Server.NotYetStoredDistinct | backend/server.py:276-288 | New unlocks from a repeat-free unlocked list have no repeats. |
| Server.SecondDiffIsEmpty | backend/server.py:268-288 | After storing the new unlocks, the same unlocked list yields no new unlocks: a second call inserts nothing. |
| Server.StatusTable | backend/server.py:291-299 | One status per table entry, in table order, unlocked iff unlocked now or stored before. |
| Server.ReportStatuses | backend/server.py:291-299 | The loop over the table builds exactly that status list from the check's result. |
| Server.Backend.constructor | backend/server.py:57-74 | A new user starts at level 1 with no XP, discipline score 50 and no streak, and has the four empty skill trees. |
| Server.Backend.CreateTask | backend/server.py:105-124 | The stored task's reward is frozen at the streak multiplier `1.0 + 0.1*streak`, not capped at 3.0, and is at least the base reward `difficulty*20 + minutes*2`. Nothing else changes. |
| Server.Backend.CompleteTask | backend/server.py:146-210 | The request succeeds iff the task exists and is not completed. A missing task is refused with not-found and a completed one with already-completed, changing nothing. Otherwise: the task is marked completed; the user is updated as in `UserAfterTask`; the task's own tree is credited; `level_up` is true iff the level rose. |
| Server.Backend.StoreNewUnlocks | backend/server.py:274-288 | Appends exactly the unlocked ids not already stored, in unlock order, keeping the store repeat-free. |
| Server.Backend.AvailableAchievements | backend/server.py:244-301 | `new_unlocks` is exactly the unlocked, not yet stored ids, in table order, and they are appended to the store. Every table entry is reported as unlocked iff it is unlocked now or was stored. |
| Server.Backend.GetDailyBoss | backend/server.py:446-465 | The returned challenge is the only one stored for today. An existing one is returned unchanged. Otherwise exactly one is created, scaled to the user's level. |
| Server.Backend.CompleteBoss | backend/server.py:467-501 | The request succeeds iff the challenge exists and is not completed. A missing challenge is refused with not-found and a completed one with already-completed, changing nothing. Otherwise the challenge is marked completed and the XP is credited, with the streaks untouched; `level_up` is true iff the level rose. |
| Server.DailyBossTwice | backend/server.py:452-465 | Two requests for the same day return the same stored challenge, and the second stores nothing. |

## Left out

- The LLM coach (`AICoach`, `COACH_MODES`) is not modelled: it is an external chat call. Password hashing and tokens, signup and login beyond the initial records, admin routes, the analytics endpoint and the MongoDB seeding script are left out too.
- The database is not modelled. Each handler is one atomic step on one user's in-memory records. Lost updates between concurrent requests are out of scope, and so is a second boss being created for a date by two simultaneous requests. Filtering by user id is implicit: a `Backend` holds only one user's records.
- Floating point is not modelled. Multipliers, `math.sqrt` and averages are exact integer stand-ins, so a float result that rounds differently at an exact boundary is not captured.
- The wall clock becomes parameters: the elapsed seconds for the streak rule, `now` for timestamps, and `today` for the boss date. `random.choice` becomes a nondeterministic pick among the templates. uuid4 record ids become fresh ids supplied by the caller.
- Record titles, descriptions, `created_at`, `unlocked_at` and `unlocked_abilities` are not modelled. They never affect scoring. Achievement titles, descriptions and icons are modelled as table data only.
- Server.Backend.AvailableAchievements: `tasks_today` and the focus-session count are parameters. The original gets them from date-prefix and collection queries.
- Server.Backend.CreateTask: requires a non-negative base reward `difficulty*20 + minutes*2`. The original accepts any integers. A negative reward lowers the total XP and the level on completion, and a negative total makes `math.sqrt` raise. The promises that the level never drops (`Server.UserAfterTask`, `Server.Backend.CompleteTask`) hold only because of this requirement.
- Server.XpField: at level 1000 the corrected model stores 0 for `xp`, where the original raises (see Findings).
- Server.Backend.CompleteTask and Server.Backend.CompleteBoss: they commit the corrected update at the cap. The original marks the record completed and then raises before writing the user and, for tasks, the skill tree. A retry is then refused as already completed, so no user's total ever reaches 99,800,100. `Server.CompleteTaskAsWritten` and `Server.CompleteBossAsWritten` state that outcome on the records.
- Coach.DetectBurnoutRisk: its unused `tasks_completed` argument is dropped. A session's missing duration counts as 0 and a missing success flag as false.
- The discipline score is modelled as a function, but no handler calls it, so the user's stored `discipline_score` keeps its initial 50.

## Findings

| source | as written | input that shows it | evidently intended | confidence | as-written member | corrected member |
|---|---|---|---|---|---|---|
| backend/server.py:179 | The new `xp` is `new_total_xp % xp_for_next_level(new_level)`, and `xp_for_next_level` returns 0 at level 1000. This is a modulo by zero (ZeroDivisionError) after the task has already been marked completed at line 161. The same happens at line 496 for boss rewards. The record stays marked while the user is never credited; `Server.CompleteTaskAsWrittenAtCap` shows this outcome. | A level-999 user with total XP 99,800,000 completes a difficulty-5, 0-minute task (100 XP): the new total 99,800,100 is level 1000. | At the cap there is no next level, so progress toward it is 0 and the update succeeds. | high, not executed | Server.XpFieldAsWrittenFailsOnCompletion | Server.XpField |
