/** The scoring rules of the tracker: XP rewards, levels, streaks, the
    achievement table, the daily boss challenge and the discipline score.

    Floating-point quantities of the original are kept exact here:
    a streak multiplier `1.0 + n * 0.1` is carried in tenths as `10 + n`,
    and `int(math.sqrt(total_xp / 100))` is the largest `k` with
    `100 * k * k <= total_xp`. */
module Gamification {

  // ---------------------------------------------------------------------
  // Integer helpers
  // ---------------------------------------------------------------------

  function Min(a: int, b: int): int { if a <= b then a else b }
  function Max(a: int, b: int): int { if a >= b then a else b }

  /** Division that truncates toward zero, as Python's `int()` does to a
      float quotient (Dafny's `/` is Euclidean). */
  function TruncDiv(a: int, b: int): int
    requires b > 0
  {
    if a >= 0 then a / b else -((-a) / b)
  }

  lemma MulMonotone(a: int, b: int, c: int)
    requires 0 <= a <= b && 0 <= c
    ensures a * c <= b * c
  {
  }

  /** For a positive divisor, `a / b <= k` exactly when `a < (k + 1) * b`. */
  lemma DivAtMost(a: int, b: int, k: int)
    requires b > 0
    ensures a / b <= k <==> a < (k + 1) * b
  {
    var q, r := a / b, a % b;
    assert a == q * b + r && 0 <= r < b;
    if q <= k {
      assert q * b <= k * b;
    } else {
      assert (k + 1) * b <= q * b;
    }
  }

  /** A quotient truncated toward zero stays within `k` when the dividend
      stays within `k` times the divisor. */
  lemma TruncDivBounds(a: int, b: int, k: int)
    requires b > 0 && k >= 0
    requires -(k * b) <= a <= k * b
    ensures -k <= TruncDiv(a, b) <= k
    ensures TruncDiv(a, b) == k <==> a == k * b
    ensures TruncDiv(a, b) == -k <==> a == -(k * b)
    ensures TruncDiv(a, b) > 0 ==> a > 0
    ensures TruncDiv(a, b) < 0 ==> a < 0
  {
    DivAtMost(a, b, k);
    DivAtMost(-a, b, k);
    DivAtMost(a, b, k - 1);
    DivAtMost(-a, b, k - 1);
    DivAtMost(a, b, -1);
    DivAtMost(-a, b, -1);
    if a == k * b { assert a / b == k; }
    if -a == k * b { assert (-a) / b == k; }
  }

  /** `Sq(k)` is `k * k` (see `SqIsSquare`), built up by odd increments so
      that the level proofs stay linear. */
  function Sq(k: nat): nat {
    if k == 0 then 0 else Sq(k - 1) + 2 * k - 1
  }

  lemma {:induction false} SqIsSquare(k: nat)
    ensures Sq(k) == k * k
  {
    if k > 0 {
      SqIsSquare(k - 1);
      assert (k - 1) * (k - 1) == k * k - 2 * k + 1;
    }
  }

  lemma {:induction false} SqMonotone(a: nat, b: nat)
    requires a <= b
    ensures Sq(a) <= Sq(b)
    ensures a < b ==> Sq(a) < Sq(b)
  {
    if a < b {
      SqMonotone(a, b - 1);
    }
  }

  // ---------------------------------------------------------------------
  // XP reward of a task
  // ---------------------------------------------------------------------

  /** The XP a task is worth: `(difficulty * 20 + minutes * 2) * multiplier`
      truncated to an integer, with the multiplier given in tenths. */
  function XpReward(difficulty: int, estimatedMinutes: int, multiplierTenths: int): (r: int)
    ensures difficulty * 20 + estimatedMinutes * 2 >= 0 && multiplierTenths >= 0 ==> r >= 0
    ensures multiplierTenths == 10 ==> r == difficulty * 20 + estimatedMinutes * 2
  {
    TruncDiv((difficulty * 20 + estimatedMinutes * 2) * multiplierTenths, 10)
  }

  /** Three-star difficulty, thirty minutes, no bonus: 60 + 60 XP. */
  lemma XpRewardExample()
    ensures XpReward(3, 30, 10) == 120
  {
  }

  /** A larger multiplier never lowers a non-negative reward, and a multiplier
      of at least 1.0 never lowers it below the unmultiplied base. */
  lemma XpRewardMonotoneInMultiplier(difficulty: int, estimatedMinutes: int, t1: int, t2: int)
    requires difficulty * 20 + estimatedMinutes * 2 >= 0
    requires 0 <= t1 <= t2
    ensures XpReward(difficulty, estimatedMinutes, t1) <= XpReward(difficulty, estimatedMinutes, t2)
    ensures t1 >= 10 ==> XpReward(difficulty, estimatedMinutes, t1) >= difficulty * 20 + estimatedMinutes * 2
  {
    var base := difficulty * 20 + estimatedMinutes * 2;
    MulMonotone(t1, t2, base);
    assert base * t1 <= base * t2;
    if t1 >= 10 {
      MulMonotone(10, t1, base);
    }
  }

  // ---------------------------------------------------------------------
  // Levels
  // ---------------------------------------------------------------------

  const MaxLevel := 1000

  /** `k` is `int(sqrt(x / 100))`: the largest `k` with `100 * k * k <= x`. */
  predicate IsRootOf(x: int, k: int) {
    0 <= k && 100 * k * k <= x < 100 * (k + 1) * (k + 1)
  }

  /** `l` is the level of `x` XP: `100 * (l - 1)^2 <= x`, and below the cap
      `x < 100 * l^2` (`Sq(k)` is `k * k`). */
  predicate IsLevelOf(x: nat, l: nat) {
    1 <= l <= MaxLevel && 100 * Sq(l - 1) <= x && (l < MaxLevel ==> x < 100 * Sq(l))
  }

  /** Walks up from level `l` to the first level whose square threshold lies
      above `x`, stopping at the cap. */
  function LevelSearch(x: nat, l: nat): (r: nat)
    requires 1 <= l <= MaxLevel
    requires 100 * Sq(l - 1) <= x
    ensures l <= r && IsLevelOf(x, r)
    decreases MaxLevel - l
  {
    if l == MaxLevel || x < 100 * Sq(l) then l else LevelSearch(x, l + 1)
  }

  /** The level reached with `totalXp` experience: `sqrt(totalXp / 100) + 1`
      rounded down, capped at 1000. */
  function LevelFromXp(totalXp: nat): (l: nat)
    ensures IsLevelOf(totalXp, l)
  {
    LevelSearch(totalXp, 1)
  }

  /** The level bounds hold for at most one `l`. */
  lemma {:induction false} LevelBoundsUnique(x: nat, r: nat, l: nat)
    requires IsLevelOf(x, r) && IsLevelOf(x, l)
    ensures r == l
  {
    if r < l {
      SqMonotone(r, l - 1);
    } else if r > l {
      SqMonotone(l, r - 1);
    }
  }

  /** The bounds of `LevelFromXp`'s contract pin the level down: any `l`
      meeting them is the level. */
  lemma LevelUnique(x: nat, l: nat)
    requires IsLevelOf(x, l)
    ensures LevelFromXp(x) == l
  {
    LevelBoundsUnique(x, LevelFromXp(x), l);
  }

  /** The integer square root bounds, restated with `Sq`. */
  lemma RootBounds(x: nat, k: int)
    requires IsRootOf(x, k)
    ensures 100 * Sq(k) <= x < 100 * Sq(k + 1)
  {
    SqIsSquare(k);
    SqIsSquare(k + 1);
  }

  /** Below the cap the level is one more than the integer square root of
      `totalXp / 100`; at the cap it is 1000. */
  lemma LevelIsRootPlusOne(x: nat, k: int)
    requires IsRootOf(x, k)
    ensures LevelFromXp(x) == Min(k + 1, MaxLevel)
  {
    RootBounds(x, k);
    if k + 1 < MaxLevel {
      LevelUnique(x, k + 1);
    } else {
      SqMonotone(MaxLevel - 1, k);
      LevelUnique(x, MaxLevel);
    }
  }

  /** 120 XP is level 2; 99,800,100 XP (100 * 999 * 999) or more is level 1000,
      and nothing less is. */
  lemma LevelExamples(x: nat)
    ensures LevelFromXp(120) == 2
    ensures LevelFromXp(0) == 1
    ensures LevelFromXp(x) == MaxLevel <==> x >= 99800100
  {
    LevelUnique(120, 2);
    LevelUnique(0, 1);
    SqIsSquare(MaxLevel - 1);
    if x >= 99800100 {
      LevelUnique(x, MaxLevel);
    }
  }

  /** Level bounds are ordered like the totals they bound. */
  lemma LevelBoundsMonotone(a: nat, b: nat, la: nat, lb: nat)
    requires a <= b
    requires IsLevelOf(a, la) && IsLevelOf(b, lb)
    ensures la <= lb
  {
    if la > lb {
      SqMonotone(lb, la - 1);
    }
  }

  /** More XP never means a lower level. */
  lemma LevelMonotone(a: nat, b: nat)
    requires a <= b
    ensures LevelFromXp(a) <= LevelFromXp(b)
  {
    LevelBoundsMonotone(a, b, LevelFromXp(a), LevelFromXp(b));
  }

  /** The total XP at which `level + 1` begins, `level * level * 100` (see
      `XpForNextLevelIsSquare`); 0 once the cap is reached. */
  function XpForNextLevel(level: nat): (r: nat)
    ensures r == 0 <==> level >= MaxLevel || level == 0
  {
    if level >= MaxLevel then 0 else SqMonotone(0, level); 100 * Sq(level)
  }

  lemma XpForNextLevelIsSquare(level: nat)
    requires level < MaxLevel
    ensures XpForNextLevel(level) == level * level * 100
  {
    SqIsSquare(level);
  }

  /** `100 * l * l` XP is the first total at level `l + 1`. */
  lemma LevelAtSquare(l: nat, x: nat)
    requires 1 <= l < MaxLevel
    requires x == 100 * Sq(l)
    ensures LevelFromXp(x) == l + 1
  {
    SqMonotone(l, l + 1);
    assert IsLevelOf(x, l + 1);
    LevelUnique(x, l + 1);
  }

  /** One XP less is still level `l`. */
  lemma LevelBelowSquare(l: nat, x: nat)
    requires 1 <= l < MaxLevel
    requires x + 1 == 100 * Sq(l)
    ensures LevelFromXp(x) == l
  {
    SqMonotone(l - 1, l);
    assert IsLevelOf(x, l);
    LevelUnique(x, l);
  }

  /** Below the cap, `XpForNextLevel(l)` is exactly the threshold between
      level `l` and level `l + 1`. */
  lemma NextLevelThreshold(l: nat)
    requires 1 <= l < MaxLevel
    ensures var t := XpForNextLevel(l); t > 0 && LevelFromXp(t) == l + 1 && LevelFromXp(t - 1) == l
  {
    var t := XpForNextLevel(l);
    assert t == 100 * Sq(l);
    LevelAtSquare(l, t);
    LevelBelowSquare(l, t - 1);
  }

  // ---------------------------------------------------------------------
  // Streaks
  // ---------------------------------------------------------------------

  const DaySeconds := 86400

  /** The new streak and its XP multiplier, in tenths. */
  datatype StreakUpdate = StreakUpdate(streak: int, multiplierTenths: int)

  /** Streak rule against `elapsed` seconds since the user was last active:
      within a day the streak is kept, within the second day it grows by one
      with a 10% bonus per streak day (at most 3x), after that it resets. */
  function CalculateStreak(elapsed: int, currentStreak: int): (u: StreakUpdate)
    ensures currentStreak >= 0 ==> 10 <= u.multiplierTenths <= 30
    ensures currentStreak >= 0 ==> 0 <= u.streak <= currentStreak + 1
    ensures currentStreak >= 0 ==> (u.streak == currentStreak + 1 <==> DaySeconds <= elapsed < 2 * DaySeconds)
    ensures u.multiplierTenths > 10 <==> DaySeconds <= elapsed < 2 * DaySeconds && currentStreak >= 0
    ensures elapsed < DaySeconds ==> u.streak == currentStreak
    ensures elapsed >= 2 * DaySeconds ==> u.streak == 0
  {
    if elapsed < DaySeconds then
      StreakUpdate(currentStreak, 10)
    else if elapsed < 2 * DaySeconds then
      var s := currentStreak + 1;
      StreakUpdate(s, Min(10 + s, 30))
    else
      StreakUpdate(0, 10)
  }

  /** The boundaries are strict on the lower branch at both 24 and 48 hours. */
  lemma StreakBoundaries(c: int)
    ensures CalculateStreak(86399, c) == StreakUpdate(c, 10)
    ensures CalculateStreak(86400, c).streak == c + 1
    ensures CalculateStreak(172799, c).streak == c + 1
    ensures CalculateStreak(172800, c) == StreakUpdate(0, 10)
    ensures c >= 20 ==> CalculateStreak(86400, c).multiplierTenths == 30
  {
  }

  // ---------------------------------------------------------------------
  // Achievements
  // ---------------------------------------------------------------------

  /** The six entries of the achievement table. */
  datatype Achievement = FirstTask | SpeedDemon | WeekWarrior | Level10 | FocusMaster | DisciplineGod

  /** The table in its declared order. */
  const Achievements: seq<Achievement> :=
    [FirstTask, SpeedDemon, WeekWarrior, Level10, FocusMaster, DisciplineGod]

  /** Position of an entry in the table. */
  function Rank(a: Achievement): (i: nat)
    ensures i < |Achievements| && Achievements[i] == a
  {
    match a
    case FirstTask => 0
    case SpeedDemon => 1
    case WeekWarrior => 2
    case Level10 => 3
    case FocusMaster => 4
    case DisciplineGod => 5
  }

  function Id(a: Achievement): string {
    match a
    case FirstTask => "first_task"
    case SpeedDemon => "speed_demon"
    case WeekWarrior => "week_warrior"
    case Level10 => "level_10"
    case FocusMaster => "focus_master"
    case DisciplineGod => "discipline_god"
  }

  function Title(a: Achievement): string {
    match a
    case FirstTask => "First Steps"
    case SpeedDemon => "Speed Demon"
    case WeekWarrior => "Week Warrior"
    case Level10 => "Rising Star"
    case FocusMaster => "Focus Master"
    case DisciplineGod => "Discipline God"
  }

  function Description(a: Achievement): string {
    match a
    case FirstTask => "Complete your first task"
    case SpeedDemon => "Complete 5 tasks in one day"
    case WeekWarrior => "Maintain a 7-day streak"
    case Level10 => "Reach level 10"
    case FocusMaster => "Complete 100 focus sessions"
    case DisciplineGod => "Reach 90+ discipline score"
  }

  function Icon(a: Achievement): string {
    match a
    case FirstTask => "\U{1F3AF}"
    case SpeedDemon => "\U{26A1}"
    case WeekWarrior => "\U{1F525}"
    case Level10 => "\U{2B50}"
    case FocusMaster => "\U{1F9E0}"
    case DisciplineGod => "\U{1F451}"
  }

  /** The statistics the achievement checks read. */
  datatype UserStats = UserStats(
    tasksCompleted: int,
    tasksToday: int,
    currentStreak: int,
    level: int,
    totalFocusSessions: int,
    disciplineScore: int)

  /** The threshold of each table entry. */
  predicate IsUnlocked(a: Achievement, stats: UserStats) {
    match a
    case FirstTask => stats.tasksCompleted >= 1
    case SpeedDemon => stats.tasksToday >= 5
    case WeekWarrior => stats.currentStreak >= 7
    case Level10 => stats.level >= 10
    case FocusMaster => stats.totalFocusSessions >= 100
    case DisciplineGod => stats.disciplineScore >= 90
  }

  /** The entries of `table` whose thresholds hold, in `table`'s order. */
  function UnlockedIn(table: seq<Achievement>, stats: UserStats): seq<Achievement> {
    if table == [] then []
    else
      var last := table[|table| - 1];
      UnlockedIn(table[..|table| - 1], stats) + (if IsUnlocked(last, stats) then [last] else [])
  }

  /** Strictly increasing table positions: table order, no entry twice. */
  predicate InTableOrder(s: seq<Achievement>) {
    forall i, j :: 0 <= i < j < |s| ==> Rank(s[i]) < Rank(s[j])
  }

  lemma {:induction false} UnlockedInMembers(table: seq<Achievement>, stats: UserStats, a: Achievement)
    ensures a in UnlockedIn(table, stats) <==> a in table && IsUnlocked(a, stats)
  {
    if table != [] {
      var prefix := table[..|table| - 1];
      UnlockedInMembers(prefix, stats, a);
      assert table == prefix + [table[|table| - 1]];
    }
  }

  lemma {:induction false} UnlockedInKeepsOrder(table: seq<Achievement>, stats: UserStats)
    requires InTableOrder(table)
    ensures InTableOrder(UnlockedIn(table, stats))
  {
    if table != [] {
      var prefix := table[..|table| - 1];
      var last := table[|table| - 1];
      UnlockedInKeepsOrder(prefix, stats);
      forall x | x in UnlockedIn(prefix, stats) ensures Rank(x) < Rank(last) {
        UnlockedInMembers(prefix, stats, x);
      }
    }
  }

  lemma AchievementsInTableOrder()
    ensures InTableOrder(Achievements)
  {
  }

  /** Every entry of the table, checked in order; the result holds exactly
      the entries whose thresholds hold, in table order and without repeats. */
  method CheckAchievements(stats: UserStats) returns (unlocked: seq<Achievement>)
    ensures unlocked == UnlockedIn(Achievements, stats)
    ensures forall a :: a in unlocked <==> IsUnlocked(a, stats)
    ensures InTableOrder(unlocked)
  {
    unlocked := [];
    var i := 0;
    while i < |Achievements|
      invariant 0 <= i <= |Achievements|
      invariant unlocked == UnlockedIn(Achievements[..i], stats)
    {
      var a := Achievements[i];
      assert Achievements[..i + 1][..i] == Achievements[..i];
      if IsUnlocked(a, stats) {
        unlocked := unlocked + [a];
      }
      i := i + 1;
    }
    assert Achievements[..i] == Achievements;
    forall a ensures a in unlocked <==> IsUnlocked(a, stats) {
      UnlockedInMembers(Achievements, stats, a);
      assert Achievements[Rank(a)] == a;
    }
    AchievementsInTableOrder();
    UnlockedInKeepsOrder(Achievements, stats);
  }

  /** A first completed task and nothing else unlocks "first_task" only. */
  lemma CheckAchievementsExample()
    ensures UnlockedIn(Achievements, UserStats(1, 0, 0, 1, 0, 50)) == [FirstTask]
  {
    var stats := UserStats(1, 0, 0, 1, 0, 50);
    var t := Achievements;
    assert t[..1] == [FirstTask] && t[..1][..0] == [];
    assert t[..2][..1] == t[..1] && t[..3][..2] == t[..2] && t[..4][..3] == t[..3];
    assert t[..5][..4] == t[..4] && t[..6][..5] == t[..5] && t[..6] == t;
    assert UnlockedIn(t[..1], stats) == [FirstTask];
    assert UnlockedIn(t[..2], stats) == [FirstTask];
    assert UnlockedIn(t[..3], stats) == [FirstTask];
    assert UnlockedIn(t[..4], stats) == [FirstTask];
    assert UnlockedIn(t[..5], stats) == [FirstTask];
  }

  // ---------------------------------------------------------------------
  // Daily boss challenge
  // ---------------------------------------------------------------------

  const ChallengeTemplates: seq<string> := [
    "Complete 5 high-difficulty tasks",
    "Study for 2 hours without breaks",
    "Complete all tasks in your weakest skill tree",
    "Achieve a perfect focus session (no distractions)",
    "Complete tasks worth 500+ XP today"
  ]

  datatype BossChallenge = BossChallenge(challengeText: string, difficulty: int, xpReward: int)

  /** `level // 5 + 1`, kept within 1 to 5. */
  function BossDifficulty(level: int): (d: int)
    ensures 1 <= d <= 5
    ensures 0 <= level < 20 ==> d == level / 5 + 1
    ensures level >= 20 ==> d == 5
    ensures level < 5 ==> d == 1
  {
    Min(5, Max(1, level / 5 + 1))
  }

  function BossReward(level: int): int {
    BossDifficulty(level) * 100 + level * 10
  }

  /** A boss for a higher level is at least as hard and pays strictly more. */
  lemma BossScalesWithLevel(a: int, b: int)
    requires a < b
    ensures BossDifficulty(a) <= BossDifficulty(b)
    ensures BossReward(a) < BossReward(b)
  {
    assert a / 5 <= b / 5;
  }

  lemma BossExample()
    ensures BossDifficulty(12) == 3 && BossReward(12) == 420
  {
  }

  /** A challenge scaled to `level`, its text picked from the five templates
      (the original picks at random; any template may be chosen here). */
  method GenerateBossChallenge(level: int) returns (b: BossChallenge)
    ensures b.challengeText in ChallengeTemplates
    ensures b.difficulty == BossDifficulty(level) && 1 <= b.difficulty <= 5
    ensures b.xpReward == b.difficulty * 100 + level * 10
  {
    assert ChallengeTemplates[0] in ChallengeTemplates;
    var text :| text in ChallengeTemplates;
    b := BossChallenge(text, BossDifficulty(level), BossReward(level));
  }

  // ---------------------------------------------------------------------
  // Discipline score
  // ---------------------------------------------------------------------

  /** `int((completed / (completed + missed) - 0.5) * 40)`, which is
      `20 * (completed - missed) / (completed + missed)` truncated toward zero. */
  function CompletionTerm(completed: nat, missed: nat): (t: int)
    ensures -20 <= t <= 20
    ensures completed + missed == 0 ==> t == 0
    ensures t > 0 ==> completed > missed
    ensures t < 0 ==> completed < missed
    ensures t == 20 <==> missed == 0 && completed > 0
    ensures t == -20 <==> completed == 0 && missed > 0
  {
    if completed + missed > 0 then
      var n := completed + missed;
      var a := 20 * (completed - missed);
      TruncDivBounds(a, n, 20);
      TruncDiv(a, n)
    else
      0
  }

  function StreakBonus(streak: int): int { Min(20, streak * 2) }

  function FocusBonus(focusMinutes: int): int { Min(10, focusMinutes / 30) }

  /** Base 50, plus the completion term, the streak bonus and the focus
      bonus, clamped to 0..100. */
  function DisciplineScore(completed: nat, missed: nat, streak: int, focusMinutes: int): (s: int)
    ensures 0 <= s <= 100
    ensures completed == missed == 0 && streak == 0 && 0 <= focusMinutes < 30 ==> s == 50
    ensures streak >= 0 && focusMinutes >= 0 ==> s >= 30
  {
    var total := 50 + CompletionTerm(completed, missed) + StreakBonus(streak) + FocusBonus(focusMinutes);
    Max(0, Min(100, total))
  }

  /** A longer streak or more focus time never lowers the score. */
  lemma DisciplineMonotone(completed: nat, missed: nat, s1: int, s2: int, f1: int, f2: int)
    requires s1 <= s2 && f1 <= f2
    ensures DisciplineScore(completed, missed, s1, f1) <= DisciplineScore(completed, missed, s2, f2)
  {
    assert f1 / 30 <= f2 / 30;
  }
}
