/** The two heuristics of the coach over a user's focus-session history:
    burnout risk from the last seven sessions, and the hour of day at which
    the user most often completes a session successfully. */
module Coach {
  import opened Wrappers

  type Hour = h: int | 0 <= h < 24

  /** A stored focus session as the heuristics read it. Each field is a
      dictionary key that may be absent from the stored record. */
  datatype FocusSession = FocusSession(
    durationMinutes: Option<int>,
    successful: Option<bool>,
    startHour: Option<Hour>)

  // ---------------------------------------------------------------------
  // Burnout risk
  // ---------------------------------------------------------------------

  const Window := 7

  datatype RiskLevel = Low | Medium | High

  datatype BurnoutReport = BurnoutReport(risk: RiskLevel, message: string)

  /** A missing duration counts as zero minutes. */
  function Duration(s: FocusSession): int {
    s.durationMinutes.GetOr(0)
  }

  /** A missing success flag counts as unsuccessful. */
  predicate Succeeded(s: FocusSession) {
    s.successful.GetOr(false)
  }

  function TotalDuration(ss: seq<FocusSession>): int {
    if ss == [] then 0 else TotalDuration(ss[..|ss| - 1]) + Duration(ss[|ss| - 1])
  }

  function SuccessCount(ss: seq<FocusSession>): nat {
    if ss == [] then 0
    else SuccessCount(ss[..|ss| - 1]) + (if Succeeded(ss[|ss| - 1]) then 1 else 0)
  }

  /** The last seven sessions. */
  function Recent(ss: seq<FocusSession>): (r: seq<FocusSession>)
    requires |ss| >= Window
    ensures |r| == Window
  {
    ss[|ss| - Window..]
  }

  /** Average duration above 360 minutes is high risk; otherwise a success
      rate below one half is medium risk. Over seven sessions these are
      "total above 2520" and "at most three successes". */
  function DetectBurnoutRisk(ss: seq<FocusSession>): (r: BurnoutReport)
    ensures |ss| < Window ==> r == BurnoutReport(Low, "Not enough data yet")
  {
    if |ss| < Window then
      BurnoutReport(Low, "Not enough data yet")
    else
      var recent := Recent(ss);
      if TotalDuration(recent) > 360 * Window then
        BurnoutReport(High, "Warning: Overworking detected. Take breaks to avoid burnout.")
      else if 2 * SuccessCount(recent) < Window then
        BurnoutReport(Medium, "Your focus success rate is dropping. Consider shorter sessions.")
      else
        BurnoutReport(Low, "You're doing great!")
  }

  lemma {:induction false} SuccessCountAtMostLength(ss: seq<FocusSession>)
    ensures SuccessCount(ss) <= |ss|
  {
    if ss != [] {
      SuccessCountAtMostLength(ss[..|ss| - 1]);
    }
  }

  /** Sessions of at most `cap` minutes each add up to at most `cap` per session. */
  lemma {:induction false} TotalDurationAtMost(ss: seq<FocusSession>, cap: int)
    requires forall i :: 0 <= i < |ss| ==> Duration(ss[i]) <= cap
    ensures TotalDuration(ss) <= cap * |ss|
  {
    if ss != [] {
      TotalDurationAtMost(ss[..|ss| - 1], cap);
    }
  }

  /** Only the last seven sessions matter: older history can be anything. */
  lemma BurnoutDependsOnlyOnRecent(older: seq<FocusSession>, ss: seq<FocusSession>)
    requires |ss| >= Window
    ensures DetectBurnoutRisk(older + ss) == DetectBurnoutRisk(ss)
  {
    assert Recent(older + ss) == Recent(ss);
  }

  /** The three outcomes once there is enough data: high risk exactly when the
      average duration is over six hours, medium exactly when it is not and
      fewer than half the sessions succeeded, low otherwise. The success
      count ranges over the window, so low means four to seven successes. */
  lemma BurnoutRiskCases(ss: seq<FocusSession>)
    requires |ss| >= Window
    ensures DetectBurnoutRisk(ss).risk == High <==> TotalDuration(Recent(ss)) > 360 * Window
    ensures DetectBurnoutRisk(ss).risk == Medium <==>
              TotalDuration(Recent(ss)) <= 360 * Window && SuccessCount(Recent(ss)) <= 3
    ensures DetectBurnoutRisk(ss).risk == Low <==>
              TotalDuration(Recent(ss)) <= 360 * Window && SuccessCount(Recent(ss)) >= 4
    ensures SuccessCount(Recent(ss)) <= Window
  {
    SuccessCountAtMostLength(Recent(ss));
  }

  /** No recent session over six hours means no overwork warning; and then
      four or more recent successes give the positive message. */
  lemma ModerateSessionsAreNotHighRisk(ss: seq<FocusSession>)
    requires |ss| >= Window
    requires forall i :: |ss| - Window <= i < |ss| ==> Duration(ss[i]) <= 360
    ensures DetectBurnoutRisk(ss).risk != High
    ensures SuccessCount(Recent(ss)) >= 4 ==> DetectBurnoutRisk(ss) == BurnoutReport(Low, "You're doing great!")
  {
    var recent := Recent(ss);
    forall i | 0 <= i < |recent| ensures Duration(recent[i]) <= 360 {
      assert recent[i] == ss[|ss| - Window + i];
    }
    TotalDurationAtMost(recent, 360);
  }

  // ---------------------------------------------------------------------
  // Optimal time of day
  // ---------------------------------------------------------------------

  const MinSessionsForSuggestion := 10

  /** The outcome of the suggestion; the three peak cases carry the hour. */
  datatype Suggestion =
    | TooFewSessions
    | NoSuccessfulSessions
    | MorningPeak(hour: Hour)
    | AfternoonPeak(hour: Hour)
    | NightPeak(hour: Hour)
  {
    predicate HasHour() { MorningPeak? || AfternoonPeak? || NightPeak? }
  }

  /** The band of the day an hour falls in: before noon, before 17:00, later. */
  function Band(h: Hour): (r: Suggestion)
    ensures r.HasHour() && r.hour == h
  {
    if h < 12 then MorningPeak(h) else if h < 17 then AfternoonPeak(h) else NightPeak(h)
  }

  function Digit(d: int): char
    requires 0 <= d < 10
  {
    "0123456789"[d]
  }

  /** The hour in decimal, without leading zero. */
  function HourText(h: Hour): string {
    if h < 10 then [Digit(h)] else [Digit(h / 10), Digit(h % 10)]
  }

  /** The message shown for each outcome. */
  function SuggestionText(s: Suggestion): string {
    match s
    case TooFewSessions => "Try studying in the morning for better focus."
    case NoSuccessfulSessions => "Complete more sessions to get personalized recommendations."
    case MorningPeak(h) => "Your peak performance is at " + HourText(h) + ":00. Morning power!"
    case AfternoonPeak(h) => "You focus best at " + HourText(h) + ":00. Afternoon warrior!"
    case NightPeak(h) => "You're most productive at " + HourText(h) + ":00. Night owl mode!"
  }

  /** A session is tallied when it has a start time and succeeded. */
  predicate Counted(s: FocusSession) {
    s.startHour.Some? && Succeeded(s)
  }

  /** How many tallied sessions started at hour `h`. */
  function HourCount(ss: seq<FocusSession>, h: Hour): nat {
    if ss == [] then 0
    else
      var last := ss[|ss| - 1];
      HourCount(ss[..|ss| - 1], h) + (if Counted(last) && last.startHour.value == h then 1 else 0)
  }

  /** The tallied hours in the order they were first seen, which is the
      iteration order of the tally dictionary. */
  function FirstSeenHours(ss: seq<FocusSession>): seq<Hour> {
    if ss == [] then []
    else
      var last := ss[|ss| - 1];
      var prior := FirstSeenHours(ss[..|ss| - 1]);
      if Counted(last) && last.startHour.value !in prior then prior + [last.startHour.value] else prior
  }

  lemma {:induction false} FirstSeenHoursMembers(ss: seq<FocusSession>, h: Hour)
    ensures h in FirstSeenHours(ss) <==> HourCount(ss, h) > 0
  {
    if ss != [] {
      FirstSeenHoursMembers(ss[..|ss| - 1], h);
    }
  }

  lemma {:induction false} FirstSeenHoursDistinct(ss: seq<FocusSession>)
    ensures Distinct(FirstSeenHours(ss))
  {
    if ss != [] {
      FirstSeenHoursDistinct(ss[..|ss| - 1]);
    }
  }

  /** Position of `x` in `s`. */
  function IndexOf<T(==)>(s: seq<T>, x: T): (i: nat)
    requires x in s
    ensures i < |s| && s[i] == x
    ensures forall j :: 0 <= j < i ==> s[j] != x
  {
    if s[0] == x then 0 else 1 + IndexOf(s[1..], x)
  }

  /** `h` has the largest tally, and every hour first seen before it has a
      strictly smaller one: the hour `max(tally, key=tally.get)` returns. */
  predicate IsBestHour(ss: seq<FocusSession>, h: Hour) {
    var order := FirstSeenHours(ss);
    && HourCount(ss, h) > 0
    && (forall h': Hour :: HourCount(ss, h') <= HourCount(ss, h))
    && h in order
    && (forall j :: 0 <= j < IndexOf(order, h) ==> HourCount(ss, order[j]) < HourCount(ss, h))
  }

  /** At most one hour is the best one. */
  lemma BestHourUnique(ss: seq<FocusSession>, h1: Hour, h2: Hour)
    requires IsBestHour(ss, h1) && IsBestHour(ss, h2)
    ensures h1 == h2
  {
    var order := FirstSeenHours(ss);
    var i1, i2 := IndexOf(order, h1), IndexOf(order, h2);
  }

  /** The first position holding a largest count in first-seen order is the
      best hour. */
  lemma FirstMaxIsBestHour(ss: seq<FocusSession>, order: seq<Hour>, best: nat)
    requires order == FirstSeenHours(ss) && best < |order|
    requires forall j :: 0 <= j < |order| ==> HourCount(ss, order[j]) <= HourCount(ss, order[best])
    requires forall j :: 0 <= j < best ==> HourCount(ss, order[j]) < HourCount(ss, order[best])
    ensures IsBestHour(ss, order[best])
  {
    var h := order[best];
    FirstSeenHoursDistinct(ss);
    FirstSeenHoursMembers(ss, h);
    assert IndexOf(order, h) == best;
    forall h': Hour ensures HourCount(ss, h') <= HourCount(ss, h) {
      FirstSeenHoursMembers(ss, h');
      if h' in order {
        assert order[IndexOf(order, h')] == h';
      }
    }
  }

  /** The tally dictionary: for each hour with a counted session, how many
      there are, with the hours in first-seen order. */
  method TallyHours(ss: seq<FocusSession>) returns (tally: map<Hour, nat>, order: seq<Hour>)
    ensures order == FirstSeenHours(ss)
    ensures forall h :: h in tally <==> h in order
    ensures forall h :: h in tally ==> tally[h] == HourCount(ss, h)
  {
    tally, order := map[], [];
    var i := 0;
    while i < |ss|
      invariant 0 <= i <= |ss|
      invariant order == FirstSeenHours(ss[..i])
      invariant forall h :: h in tally <==> h in order
      invariant forall h :: h in tally ==> tally[h] == HourCount(ss[..i], h)
    {
      var s := ss[i];
      ghost var seen := ss[..i + 1];
      assert seen[..i] == ss[..i] && seen[i] == s;
      ghost var before := tally;
      if Counted(s) {
        var h := s.startHour.value;
        if h in tally {
          tally := tally[h := tally[h] + 1];
        } else {
          tally := tally[h := 1];
          order := order + [h];
        }
      }
      forall h | h in tally ensures tally[h] == HourCount(seen, h) {
        FirstSeenHoursMembers(ss[..i], h);
        assert h !in before ==> HourCount(ss[..i], h) == 0;
      }
      i := i + 1;
    }
    assert ss[..i] == ss;
  }

  /** `max(keys, key=tally.get)`: the first key with the largest value. */
  method FirstMax(order: seq<Hour>, tally: map<Hour, nat>) returns (best: nat)
    requires order != []
    requires forall h :: h in order ==> h in tally
    ensures best < |order|
    ensures forall j :: 0 <= j < |order| ==> tally[order[j]] <= tally[order[best]]
    ensures forall j :: 0 <= j < best ==> tally[order[j]] < tally[order[best]]
  {
    best := 0;
    var k := 1;
    while k < |order|
      invariant 1 <= k <= |order|
      invariant 0 <= best < k
      invariant forall j :: 0 <= j < k ==> tally[order[j]] <= tally[order[best]]
      invariant forall j :: 0 <= j < best ==> tally[order[j]] < tally[order[best]]
    {
      if tally[order[k]] > tally[order[best]] {
        best := k;
      }
      k := k + 1;
    }
  }

  /** With at least ten sessions, tallies successful sessions by start hour in
      a dictionary, then takes the first hour with the largest tally and
      phrases it by band of the day. */
  method SuggestOptimalTime(ss: seq<FocusSession>) returns (r: Suggestion)
    ensures |ss| < MinSessionsForSuggestion ==> r == TooFewSessions
    ensures |ss| >= MinSessionsForSuggestion ==>
              (r == NoSuccessfulSessions <==> forall h: Hour :: HourCount(ss, h) == 0)
    ensures r.HasHour() ==> IsBestHour(ss, r.hour) && r == Band(r.hour)
    ensures |ss| >= MinSessionsForSuggestion ==> r != TooFewSessions
  {
    if |ss| < MinSessionsForSuggestion {
      return TooFewSessions;
    }
    var tally, order := TallyHours(ss);
    forall h: Hour ensures h in order <==> HourCount(ss, h) > 0 {
      FirstSeenHoursMembers(ss, h);
    }
    if order == [] {
      return NoSuccessfulSessions;
    }
    var best := FirstMax(order, tally);
    assert forall j :: 0 <= j < |order| ==> tally[order[j]] == HourCount(ss, order[j]);
    FirstMaxIsBestHour(ss, order, best);
    var h := order[best];
    assert IsBestHour(ss, h);
    r := Band(h);
  }
}
