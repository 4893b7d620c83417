/** The bookkeeping of the HTTP handlers, over one authenticated user's
    stored records: the user, their tasks, skill trees, daily boss
    challenges and unlocked achievements. Each handler is one atomic step
    on a `Backend` object; the clock and the calendar date come in as
    parameters, and record ids that the original draws from uuid4 are
    supplied by the caller. */
module Server {
  import opened Wrappers
  import opened Gamification

  type TaskId = string
  type BossId = string
  type SkillName = string
  type Date = string

  /** The stored user record (timestamps as seconds). */
  datatype User = User(
    level: int,
    xp: int,
    totalXp: int,
    disciplineScore: int,
    currentStreak: int,
    longestStreak: int,
    lastActive: int)

  datatype Task = Task(
    skillTree: SkillName,
    difficulty: int,
    estimatedMinutes: int,
    xpReward: int,
    completed: bool,
    completedAt: Option<int>)

  datatype SkillTree = SkillTree(level: int, xp: int, totalXp: int)

  datatype Boss = Boss(
    date: Date,
    challengeText: string,
    difficulty: int,
    xpReward: int,
    completed: bool,
    completedAt: Option<int>)

  /** 404 "not found" and 400 "already completed". */
  datatype Error = NotFound | AlreadyCompleted

  datatype TaskCompletion = TaskCompletion(xpGained: int, newLevel: int, levelUp: bool)

  datatype BossCompletion = BossCompletion(xpGained: int, levelUp: bool)

  datatype AchievementStatus = AchievementStatus(achievement: Achievement, unlocked: bool)

  /** The skill trees created for every new user. */
  const SkillTreeNames: seq<SkillName> := ["Mind", "Knowledge", "Discipline", "Fitness"]

  // ---------------------------------------------------------------------
  // The user's `xp` field
  // ---------------------------------------------------------------------

  /** `total_xp % xp_for_next_level(level)` as written: the divisor is 0 at
      the level cap, where Python raises ZeroDivisionError (None here). */
  function XpFieldAsWritten(totalXp: nat, level: nat): Option<int> {
    var next := XpForNextLevel(level);
    if next == 0 then None else Some(totalXp % next)
  }

  /** The remainder of `a` by `b > 0`, by repeated subtraction. */
  function Rem(a: nat, b: nat): (r: nat)
    requires b > 0
    ensures r < b
    decreases a
  {
    if a < b then a else Rem(a - b, b)
  }

  lemma ModShift(a: int, b: int)
    requires b > 0
    ensures (a + b) % b == a % b
  {
    var q := a / b;
    DivAtMost(a + b, b, q + 1);
    DivAtMost(a + b, b, q);
    DivAtMost(a, b, q);
    DivAtMost(a, b, q - 1);
    assert (a + b) / b == q + 1;
    assert (q + 1) * b == q * b + b;
  }

  /** `Rem` is Python's `%` for a non-negative dividend. */
  lemma {:induction false} RemIsMod(a: nat, b: nat)
    requires b > 0
    ensures Rem(a, b) == a % b
  {
    if a >= b {
      RemIsMod(a - b, b);
      ModShift(a - b, b);
    }
  }

  /** The `xp` field with the cap handled: the remainder below the cap, 0 at
      the cap where there is no next level. */
  function XpField(totalXp: nat, level: nat): (r: nat)
    ensures 1 <= level < MaxLevel ==> r < XpForNextLevel(level)
    ensures level >= MaxLevel ==> r == 0
  {
    var next := XpForNextLevel(level);
    if next == 0 then 0 else Rem(totalXp, next)
  }

  /** Below the cap the corrected field is what the original computes. */
  lemma XpFieldAgrees(totalXp: nat, level: nat)
    requires 1 <= level < MaxLevel
    ensures XpFieldAsWritten(totalXp, level) == Some(XpField(totalXp, level))
  {
    RemIsMod(totalXp, XpForNextLevel(level));
  }

  /** Every total of at least 100 * 999 * 999 XP reaches level 1000, where the
      `xp` field as written divides by zero. */
  lemma XpFieldAsWrittenFailsAtCap(totalXp: nat)
    requires totalXp >= 99800100
    ensures LevelFromXp(totalXp) == MaxLevel
    ensures XpFieldAsWritten(totalXp, LevelFromXp(totalXp)) == None
  {
    LevelExamples(totalXp);
  }

  /** A user at level 999 with 99,800,000 XP who completes a difficulty-5 task
      (100 XP) reaches the cap, and the update as written fails. */
  lemma XpFieldAsWrittenFailsOnCompletion()
    ensures LevelFromXp(99800000) == 999
    ensures XpReward(5, 0, 10) == 100
    ensures XpFieldAsWritten(99800000 + 100, LevelFromXp(99800000 + 100)) == None
  {
    SqIsSquare(998);
    SqIsSquare(999);
    LevelUnique(99800000, 999);
    XpFieldAsWrittenFailsAtCap(99800100);
  }

  // ---------------------------------------------------------------------
  // Record invariants and record updates
  // ---------------------------------------------------------------------

  /** The level agrees with the total XP, `xp` is derived from both, and the
      longest streak is at least the current one. */
  predicate UserValid(u: User) {
    && u.totalXp >= 0
    && u.level == LevelFromXp(u.totalXp)
    && u.xp == XpField(u.totalXp, u.level)
    && 0 <= u.currentStreak <= u.longestStreak
  }

  predicate TaskValid(t: Task) {
    t.xpReward >= 0 && (t.completed <==> t.completedAt.Some?)
  }

  /** A skill tree's `xp` and `total_xp` are always credited together. */
  predicate SkillTreeValid(t: SkillTree) {
    t.totalXp >= 0 && t.xp == t.totalXp && t.level == LevelFromXp(t.totalXp)
  }

  predicate BossValid(b: Boss) {
    && b.challengeText in ChallengeTemplates
    && 1 <= b.difficulty <= 5
    && b.xpReward >= 0
    && (b.completed <==> b.completedAt.Some?)
  }

  predicate TasksValid(tasks: map<TaskId, Task>) {
    forall id :: id in tasks ==> TaskValid(tasks[id])
  }

  predicate TreesValid(trees: map<SkillName, SkillTree>) {
    forall n :: n in trees ==> SkillTreeValid(trees[n])
  }

  /** Every challenge is well-formed and no two share a date. */
  predicate BossesValid(bosses: map<BossId, Boss>) {
    && (forall id :: id in bosses ==> BossValid(bosses[id]))
    && (forall i, j :: i in bosses && j in bosses && bosses[i].date == bosses[j].date ==> i == j)
  }

  /** The user record after completing a task worth `reward` at time `now`:
      XP added, level recomputed, streak rule applied against the time since
      the user was last active, longest streak raised if beaten. */
  function UserAfterTask(u: User, reward: nat, now: int): (v: User)
    requires UserValid(u)
    ensures UserValid(v)
    ensures v.totalXp == u.totalXp + reward && v.level == LevelFromXp(v.totalXp)
    ensures v.level >= u.level
    ensures v.longestStreak >= u.longestStreak && v.longestStreak >= v.currentStreak
    ensures v.currentStreak == CalculateStreak(now - u.lastActive, u.currentStreak).streak
    ensures v.disciplineScore == u.disciplineScore && v.lastActive == now
  {
    var total := u.totalXp + reward;
    var level := LevelFromXp(total);
    LevelMonotone(u.totalXp, total);
    var streak := CalculateStreak(now - u.lastActive, u.currentStreak).streak;
    u.(totalXp := total, xp := XpField(total, level), level := level,
       currentStreak := streak, longestStreak := Max(streak, u.longestStreak), lastActive := now)
  }

  /** The user record after a boss reward: XP and level only; streaks and
      last activity stay as they were. */
  function UserAfterBoss(u: User, reward: nat): (v: User)
    requires UserValid(u)
    ensures UserValid(v)
    ensures v.totalXp == u.totalXp + reward && v.level == LevelFromXp(v.totalXp)
    ensures v.level >= u.level
    ensures v.currentStreak == u.currentStreak && v.longestStreak == u.longestStreak
    ensures v.lastActive == u.lastActive && v.disciplineScore == u.disciplineScore
  {
    var total := u.totalXp + reward;
    var level := LevelFromXp(total);
    LevelMonotone(u.totalXp, total);
    u.(totalXp := total, xp := XpField(total, level), level := level)
  }

  /** One tree after `$inc` of both XP fields, its level recomputed. */
  function CreditTree(t: SkillTree, reward: nat): (u: SkillTree)
    requires SkillTreeValid(t)
    ensures SkillTreeValid(u)
    ensures u.totalXp == t.totalXp + reward && u.level >= t.level
  {
    var total := t.totalXp + reward;
    LevelMonotone(t.totalXp, total);
    SkillTree(LevelFromXp(total), t.xp + reward, total)
  }

  /** The named tree credited; a name with no tree matches nothing and
      changes nothing. */
  function CreditSkillTree(trees: map<SkillName, SkillTree>, name: SkillName, reward: nat)
    : (r: map<SkillName, SkillTree>)
    requires TreesValid(trees)
    ensures TreesValid(r)
    ensures r.Keys == trees.Keys
    ensures forall n :: n in trees && n != name ==> r[n] == trees[n]
    ensures name in trees ==> r[name].totalXp == trees[name].totalXp + reward
    ensures name in trees ==> r[name].level >= trees[name].level
  {
    if name in trees then trees[name := CreditTree(trees[name], reward)] else trees
  }

  /** Below the cap the stored `xp` field never wraps: it is the total. */
  lemma XpFieldIsTotalBelowCap(totalXp: nat)
    requires totalXp < 99800100
    ensures XpField(totalXp, LevelFromXp(totalXp)) == totalXp
  {
    LevelExamples(totalXp);
  }

  // ---------------------------------------------------------------------
  // The completion handlers as written
  // ---------------------------------------------------------------------

  /** What the task completion handler as written leaves stored, and whether
      it raised before answering. */
  datatype TaskOutcomeAsWritten =
    TaskOutcomeAsWritten(task: Task, user: User, trees: map<SkillName, SkillTree>, raised: bool)

  /** What the boss completion handler as written leaves stored, and whether
      it raised before answering. */
  datatype BossOutcomeAsWritten = BossOutcomeAsWritten(boss: Boss, user: User, raised: bool)

  /** The task completion handler in the original's order of writes: the
      task is marked first; the user update then computes the `xp` field as
      written, and when that raises the user record and the skill tree are
      never written. Once the total would reach the cap the handler raises,
      the task stays marked, and a retry is refused as already completed, so
      no user total ever reaches the cap. Otherwise the outcome is the one
      `Backend.CompleteTask` commits. */
  function CompleteTaskAsWritten(u: User, trees: map<SkillName, SkillTree>, t: Task, now: int)
    : (o: TaskOutcomeAsWritten)
    requires UserValid(u) && TreesValid(trees) && TaskValid(t) && !t.completed
    ensures o.task == t.(completed := true, completedAt := Some(now))
    ensures o.raised <==> u.totalXp + t.xpReward >= 99800100
    ensures o.raised ==> o.user == u && o.trees == trees
    ensures !o.raised ==> o.user == UserAfterTask(u, t.xpReward, now)
    ensures !o.raised ==> o.trees == CreditSkillTree(trees, t.skillTree, t.xpReward)
    ensures u.totalXp < 99800100 ==> o.user.totalXp < 99800100
  {
    var total := u.totalXp + t.xpReward;
    var level := LevelFromXp(total);
    var marked := t.(completed := true, completedAt := Some(now));
    LevelExamples(total);
    match XpFieldAsWritten(total, level)
    case None => TaskOutcomeAsWritten(marked, u, trees, true)
    case Some(xp) =>
      XpFieldAgrees(total, level);
      var streak := CalculateStreak(now - u.lastActive, u.currentStreak).streak;
      var v := u.(totalXp := total, xp := xp, level := level,
                  currentStreak := streak, longestStreak := Max(streak, u.longestStreak), lastActive := now);
      TaskOutcomeAsWritten(marked, v, CreditSkillTree(trees, t.skillTree, t.xpReward), false)
  }

  /** The boss completion handler in the original's order of writes: the
      challenge is marked first, and the user update then raises once the
      total would reach the cap, leaving the user as it was. Otherwise the
      outcome is the one `Backend.CompleteBoss` commits. */
  function CompleteBossAsWritten(u: User, b: Boss, now: int): (o: BossOutcomeAsWritten)
    requires UserValid(u) && BossValid(b) && !b.completed
    ensures o.boss == b.(completed := true, completedAt := Some(now))
    ensures o.raised <==> u.totalXp + b.xpReward >= 99800100
    ensures o.raised ==> o.user == u
    ensures !o.raised ==> o.user == UserAfterBoss(u, b.xpReward)
    ensures u.totalXp < 99800100 ==> o.user.totalXp < 99800100
  {
    var total := u.totalXp + b.xpReward;
    var level := LevelFromXp(total);
    var marked := b.(completed := true, completedAt := Some(now));
    LevelExamples(total);
    match XpFieldAsWritten(total, level)
    case None => BossOutcomeAsWritten(marked, u, true)
    case Some(xp) =>
      XpFieldAgrees(total, level);
      BossOutcomeAsWritten(marked, u.(totalXp := total, xp := xp, level := level), false)
  }

  /** The user of the Findings row: the difficulty-5 task is marked completed,
      the handler raises, and the user keeps 99,800,000 XP at level 999. */
  lemma CompleteTaskAsWrittenAtCap(u: User, trees: map<SkillName, SkillTree>, t: Task, now: int)
    requires UserValid(u) && TreesValid(trees) && TaskValid(t) && !t.completed
    requires u.totalXp == 99800000 && t.difficulty == 5 && t.estimatedMinutes == 0
    requires t.xpReward == XpReward(t.difficulty, t.estimatedMinutes, 10)
    ensures CompleteTaskAsWritten(u, trees, t, now).raised
    ensures CompleteTaskAsWritten(u, trees, t, now).task.completed
    ensures CompleteTaskAsWritten(u, trees, t, now).user.level == 999
  {
    XpFieldAsWrittenFailsOnCompletion();
  }

  /** The number of completed tasks. */
  function CompletedCount(tasks: map<TaskId, Task>): nat {
    |set id | id in tasks && tasks[id].completed|
  }

  /** The statistics the achievement table is checked against. */
  function StatsOf(u: User, tasks: map<TaskId, Task>, tasksToday: int, focusSessions: int): UserStats {
    UserStats(CompletedCount(tasks), tasksToday, u.currentStreak, u.level, focusSessions, u.disciplineScore)
  }

  /** The entries of `unlocked` not stored yet, in `unlocked`'s order. */
  function NotYetStored(unlocked: seq<Achievement>, stored: seq<Achievement>): seq<Achievement> {
    if unlocked == [] then []
    else
      var last := unlocked[|unlocked| - 1];
      NotYetStored(unlocked[..|unlocked| - 1], stored) + (if last !in stored then [last] else [])
  }

  lemma {:induction false} NotYetStoredMembers(unlocked: seq<Achievement>, stored: seq<Achievement>, a: Achievement)
    ensures a in NotYetStored(unlocked, stored) <==> a in unlocked && a !in stored
  {
    if unlocked != [] {
      var prefix := unlocked[..|unlocked| - 1];
      NotYetStoredMembers(prefix, stored, a);
      assert unlocked == prefix + [unlocked[|unlocked| - 1]];
    }
  }

  lemma {:induction false} NotYetStoredDistinct(unlocked: seq<Achievement>, stored: seq<Achievement>)
    requires Distinct(unlocked)
    ensures Distinct(NotYetStored(unlocked, stored))
  {
    if unlocked != [] {
      var prefix := unlocked[..|unlocked| - 1];
      var last := unlocked[|unlocked| - 1];
      NotYetStoredDistinct(prefix, stored);
      NotYetStoredMembers(prefix, stored, last);
    }
  }

  lemma {:induction false} NothingNewWhenAllStored(unlocked: seq<Achievement>, stored: seq<Achievement>)
    requires forall a :: a in unlocked ==> a in stored
    ensures NotYetStored(unlocked, stored) == []
  {
    if unlocked != [] {
      NothingNewWhenAllStored(unlocked[..|unlocked| - 1], stored);
    }
  }

  /** Storing the new unlocks makes the next diff against the same unlocked
      list empty: a second call with unchanged statistics inserts nothing. */
  lemma SecondDiffIsEmpty(unlocked: seq<Achievement>, stored: seq<Achievement>)
    ensures NotYetStored(unlocked, stored + NotYetStored(unlocked, stored)) == []
  {
    var added := NotYetStored(unlocked, stored);
    forall a | a in unlocked ensures a in stored + added {
      NotYetStoredMembers(unlocked, stored, a);
    }
    NothingNewWhenAllStored(unlocked, stored + added);
  }

  lemma InTableOrderIsDistinct(s: seq<Achievement>)
    requires InTableOrder(s)
    ensures Distinct(s)
  {
  }

  /** One status per table entry, in table order: unlocked when the
      statistics unlock it now or it was stored before. */
  function StatusTable(stats: UserStats, stored: seq<Achievement>): (r: seq<AchievementStatus>)
    ensures |r| == |Achievements|
    ensures forall i :: 0 <= i < |r| ==> r[i].achievement == Achievements[i]
    ensures forall i :: 0 <= i < |r| ==>
              (r[i].unlocked <==> IsUnlocked(Achievements[i], stats) || Achievements[i] in stored)
  {
    seq(|Achievements|, i requires 0 <= i < |Achievements| =>
      AchievementStatus(Achievements[i], IsUnlocked(Achievements[i], stats) || Achievements[i] in stored))
  }

  /** Builds the status list from the unlocked list a check produced. */
  method ReportStatuses(unlocked: seq<Achievement>, stored: seq<Achievement>)
    returns (statuses: seq<AchievementStatus>)
    ensures forall stats :: unlocked == UnlockedIn(Achievements, stats) ==>
              statuses == StatusTable(stats, stored)
  {
    statuses := [];
    var k := 0;
    while k < |Achievements|
      invariant 0 <= k <= |Achievements|
      invariant |statuses| == k
      invariant forall j :: 0 <= j < k ==>
                  statuses[j] == AchievementStatus(Achievements[j], Achievements[j] in unlocked || Achievements[j] in stored)
    {
      var a := Achievements[k];
      statuses := statuses + [AchievementStatus(a, a in unlocked || a in stored)];
      k := k + 1;
    }
    forall stats | unlocked == UnlockedIn(Achievements, stats)
      ensures statuses == StatusTable(stats, stored)
    {
      forall a ensures a in unlocked <==> IsUnlocked(a, stats) {
        UnlockedInMembers(Achievements, stats, a);
      }
    }
  }

  // ---------------------------------------------------------------------
  // The store
  // ---------------------------------------------------------------------

  class Backend {
    var user: User
    var tasks: map<TaskId, Task>
    var skillTrees: map<SkillName, SkillTree>
    var bosses: map<BossId, Boss>
    /** Unlocked achievement ids, in the order they were stored. */
    var achievements: seq<Achievement>

    ghost predicate Valid()
      reads this
    {
      && UserValid(user)
      && TasksValid(tasks)
      && TreesValid(skillTrees)
      && BossesValid(bosses)
      && Distinct(achievements)
    }

    /** The records a sign-up creates: a level-1 user with no XP, discipline
        score 50 and no streak, and the four empty skill trees. */
    constructor (now: int)
      ensures Valid()
      ensures user == User(1, 0, 0, 50, 0, 0, now)
      ensures skillTrees == map n | n in SkillTreeNames :: SkillTree(1, 0, 0)
      ensures tasks == map[] && bosses == map[] && achievements == []
    {
      LevelExamples(0);
      user := User(1, 0, 0, 50, 0, 0, now);
      skillTrees := map n | n in SkillTreeNames :: SkillTree(1, 0, 0);
      tasks := map[];
      bosses := map[];
      achievements := [];
    }

    /** Stores a new task whose reward is frozen now, using the multiplier
        `1.0 + 0.1 * current_streak` (not capped). */
    method CreateTask(id: TaskId, skillTree: SkillName, difficulty: int, estimatedMinutes: int)
      returns (t: Task)
      requires Valid()
      requires id !in tasks
      requires difficulty * 20 + estimatedMinutes * 2 >= 0
      modifies this
      ensures Valid()
      ensures t == Task(skillTree, difficulty, estimatedMinutes,
                        XpReward(difficulty, estimatedMinutes, 10 + user.currentStreak), false, None)
      ensures t.xpReward >= difficulty * 20 + estimatedMinutes * 2
      ensures tasks == old(tasks)[id := t]
      ensures user == old(user) && skillTrees == old(skillTrees)
      ensures bosses == old(bosses) && achievements == old(achievements)
    {
      var reward := XpReward(difficulty, estimatedMinutes, 10 + user.currentStreak);
      XpRewardMonotoneInMultiplier(difficulty, estimatedMinutes, 10, 10 + user.currentStreak);
      t := Task(skillTree, difficulty, estimatedMinutes, reward, false, None);
      tasks := tasks[id := t];
    }

    /** Marks the task completed, credits its reward to the user and to its
        skill tree, and applies the streak rule. A missing task or one
        already completed is refused and nothing changes. */
    method CompleteTask(id: TaskId, now: int) returns (r: Result<TaskCompletion, Error>)
      requires Valid()
      modifies this
      ensures Valid()
      ensures r.Success? <==> id in old(tasks) && !old(tasks[id].completed)
      ensures id !in old(tasks) ==> r == Failure(NotFound)
      ensures id in old(tasks) && old(tasks[id].completed) ==> r == Failure(AlreadyCompleted)
      ensures r.Failure? ==> user == old(user) && tasks == old(tasks) && skillTrees == old(skillTrees)
      ensures r.Success? ==>
                id in old(tasks) && !old(tasks[id].completed) &&
                var t := old(tasks[id]);
                && tasks == old(tasks)[id := t.(completed := true, completedAt := Some(now))]
                && user == UserAfterTask(old(user), t.xpReward, now)
                && skillTrees == CreditSkillTree(old(skillTrees), t.skillTree, t.xpReward)
                && r.value == TaskCompletion(t.xpReward, user.level, user.level > old(user.level))
      ensures r.Success? ==> user.level >= old(user.level) && user.longestStreak >= old(user.longestStreak)
      ensures bosses == old(bosses) && achievements == old(achievements)
    {
      if id !in tasks {
        return Failure(NotFound);
      }
      var t := tasks[id];
      if t.completed {
        return Failure(AlreadyCompleted);
      }
      tasks := tasks[id := t.(completed := true, completedAt := Some(now))];
      var oldLevel := user.level;
      user := UserAfterTask(user, t.xpReward, now);
      skillTrees := CreditSkillTree(skillTrees, t.skillTree, t.xpReward);
      r := Success(TaskCompletion(t.xpReward, user.level, user.level > oldLevel));
    }

    /** Appends to the stored achievements, in order, the entries of
        `unlocked` not stored before, and returns them. */
    method StoreNewUnlocks(unlocked: seq<Achievement>) returns (newUnlocks: seq<Achievement>)
      requires Valid()
      requires Distinct(unlocked)
      modifies this
      ensures Valid()
      ensures newUnlocks == NotYetStored(unlocked, old(achievements))
      ensures achievements == old(achievements) + newUnlocks
      ensures user == old(user) && tasks == old(tasks) && skillTrees == old(skillTrees) && bosses == old(bosses)
    {
      var existing := achievements;
      newUnlocks := [];
      var i := 0;
      while i < |unlocked|
        invariant 0 <= i <= |unlocked|
        invariant newUnlocks == NotYetStored(unlocked[..i], existing)
        invariant achievements == existing + newUnlocks
        invariant user == old(user) && tasks == old(tasks) && skillTrees == old(skillTrees) && bosses == old(bosses)
      {
        var a := unlocked[i];
        assert unlocked[..i + 1][..i] == unlocked[..i];
        if a !in existing {
          achievements := achievements + [a];
          newUnlocks := newUnlocks + [a];
        }
        i := i + 1;
      }
      assert unlocked[..i] == unlocked;
      NotYetStoredDistinct(unlocked, existing);
      forall p, q | 0 <= p < q < |achievements| ensures achievements[p] != achievements[q] {
        if q >= |existing| {
          NotYetStoredMembers(unlocked, existing, achievements[q]);
        }
      }
    }

    /** Checks the achievement table against the user's statistics, stores
        the unlocks not stored before, and reports every entry with whether
        it is unlocked now or was before. `tasksToday` and `focusSessions`
        are the counts the original queries by date and by collection. */
    method AvailableAchievements(tasksToday: int, focusSessions: int)
      returns (statuses: seq<AchievementStatus>, newUnlocks: seq<Achievement>)
      requires Valid()
      modifies this
      ensures Valid()
      ensures newUnlocks ==
                NotYetStored(UnlockedIn(Achievements, StatsOf(user, tasks, tasksToday, focusSessions)), old(achievements))
      ensures forall a :: a in newUnlocks <==>
                IsUnlocked(a, StatsOf(user, tasks, tasksToday, focusSessions)) && a !in old(achievements)
      ensures achievements == old(achievements) + newUnlocks
      ensures statuses == StatusTable(StatsOf(user, tasks, tasksToday, focusSessions), old(achievements))
      ensures user == old(user) && tasks == old(tasks) && skillTrees == old(skillTrees) && bosses == old(bosses)
    {
      var stats := StatsOf(user, tasks, tasksToday, focusSessions);
      var unlocked := CheckAchievements(stats);
      var existing := achievements;
      InTableOrderIsDistinct(unlocked);
      newUnlocks := StoreNewUnlocks(unlocked);
      forall a ensures a in newUnlocks <==> IsUnlocked(a, stats) && a !in existing {
        NotYetStoredMembers(unlocked, existing, a);
      }
      statuses := ReportStatuses(unlocked, existing);
    }

    /** Today's boss challenge: the stored one for `today` if there is one,
        otherwise a new one scaled to the user's level, stored under
        `freshId`. At most one challenge exists per date. */
    method GetDailyBoss(today: Date, freshId: BossId) returns (id: BossId, b: Boss)
      requires Valid()
      requires freshId !in bosses
      modifies this
      ensures Valid()
      ensures id in bosses && bosses[id] == b && b.date == today
      ensures forall j :: j in bosses && bosses[j].date == today ==> j == id
      ensures (exists j :: j in old(bosses) && old(bosses)[j].date == today) ==> bosses == old(bosses)
      ensures (forall j :: j in old(bosses) ==> old(bosses)[j].date != today) ==>
                && id == freshId
                && bosses == old(bosses)[freshId := b]
                && b.difficulty == BossDifficulty(user.level)
                && b.xpReward == BossReward(user.level)
                && b.challengeText in ChallengeTemplates
                && !b.completed
      ensures user == old(user) && tasks == old(tasks) && skillTrees == old(skillTrees)
      ensures achievements == old(achievements)
    {
      if j :| j in bosses && bosses[j].date == today {
        return j, bosses[j];
      }
      var challenge := GenerateBossChallenge(user.level);
      b := Boss(today, challenge.challengeText, challenge.difficulty, challenge.xpReward, false, None);
      id := freshId;
      bosses := bosses[id := b];
    }

    /** Marks the challenge completed and credits its reward; the streak is
        left alone. A missing or already completed challenge is refused and
        nothing changes. */
    method CompleteBoss(id: BossId, now: int) returns (r: Result<BossCompletion, Error>)
      requires Valid()
      modifies this
      ensures Valid()
      ensures r.Success? <==> id in old(bosses) && !old(bosses[id].completed)
      ensures id !in old(bosses) ==> r == Failure(NotFound)
      ensures id in old(bosses) && old(bosses[id].completed) ==> r == Failure(AlreadyCompleted)
      ensures r.Failure? ==> user == old(user) && bosses == old(bosses)
      ensures r.Success? ==>
                id in old(bosses) && !old(bosses[id].completed) &&
                var b := old(bosses[id]);
                && bosses == old(bosses)[id := b.(completed := true, completedAt := Some(now))]
                && user == UserAfterBoss(old(user), b.xpReward)
                && r.value == BossCompletion(b.xpReward, user.level > old(user.level))
      ensures user.currentStreak == old(user.currentStreak) && user.longestStreak == old(user.longestStreak)
      ensures tasks == old(tasks) && skillTrees == old(skillTrees) && achievements == old(achievements)
    {
      if id !in bosses {
        return Failure(NotFound);
      }
      var b := bosses[id];
      if b.completed {
        return Failure(AlreadyCompleted);
      }
      bosses := bosses[id := b.(completed := true, completedAt := Some(now))];
      var oldLevel := user.level;
      user := UserAfterBoss(user, b.xpReward);
      r := Success(BossCompletion(b.xpReward, user.level > oldLevel));
    }
  }

  /** Asking for today's boss twice gives the same stored challenge, and the
      second request stores nothing. */
  method DailyBossTwice(backend: Backend, today: Date, firstId: BossId, secondId: BossId)
    returns (id1: BossId, b1: Boss, id2: BossId, b2: Boss)
    requires backend.Valid()
    requires firstId !in backend.bosses && secondId !in backend.bosses && firstId != secondId
    modifies backend
    ensures backend.Valid()
    ensures id1 == id2 && b1 == b2
    ensures secondId !in backend.bosses
  {
    id1, b1 := backend.GetDailyBoss(today, firstId);
    id2, b2 := backend.GetDailyBoss(today, secondId);
  }
}
