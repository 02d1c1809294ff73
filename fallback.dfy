/** The local schedule generator (fallbackScheduleGeneration,
    src/lib/scheduler.ts:127-202): start hour, stable sort, one-hour slots
    with 12-hour labels, and an explanation made of fixed bullets. The clock
    is a pair of parameters, the hour (0-23) and the minute (0-59). */
module Fallback {
  import opened Wrappers
  import opened Text
  import opened Classify
  import opened Sorting

  /** One entry of a schedule: a display label and a task description. */
  datatype ScheduledTask = ScheduledTask(time: string, task: string)

  /** What the scheduler returns: the entries in order and a rationale. */
  datatype Schedule = Schedule(tasks: seq<ScheduledTask>, explanation: string)

  /** The task descriptions of a list of entries, in order. */
  function TaskNames(entries: seq<ScheduledTask>): (r: seq<string>)
    ensures |r| == |entries|
  {
    seq(|entries|, i requires 0 <= i < |entries| => entries[i].task)
  }

  // ---------------------------------------------------------------------
  // Start hour

  /** The first slot: the clock hour rounded up to a whole hour, and never
      before 9. It is the least hour that is at least 9 and not before the
      rounded-up clock time; for a real clock it is at most 24 (no wrap). */
  function StartHour(hour: int, minute: int): (h: int)
    ensures h >= 9 && h >= hour + (if minute > 0 then 1 else 0)
    ensures h == 9 || h == hour + (if minute > 0 then 1 else 0)
    ensures 0 <= hour <= 23 ==> h <= 24
  {
    var rounded := if minute > 0 then hour + 1 else hour;
    if rounded < 9 then 9 else rounded
  }

  /** At three in the morning the day still starts at 9. */
  lemma StartHourEarly(minute: int)
    ensures StartHour(3, minute) == 9
  {
  }

  // ---------------------------------------------------------------------
  // Time labels

  predicate IsDigit(c: char) {
    '0' <= c <= '9'
  }

  predicate AllDigits(s: string) {
    forall i :: 0 <= i < |s| ==> IsDigit(s[i])
  }

  /** The number a string of decimal digits denotes. */
  function DigitsValue(s: string): int {
    if s == [] then 0 else DigitsValue(s[..|s| - 1]) * 10 + (s[|s| - 1] as int - '0' as int)
  }

  /** The decimal text of a number, as template interpolation writes it: at
      least one digit, no leading zero, and denoting `n`. */
  function Decimal(n: nat): (r: string)
    ensures |r| >= 1 && AllDigits(r)
    ensures r[0] != '0' || r == "0"
    ensures DigitsValue(r) == n
  {
    if n < 10 then [('0' as int + n) as char]
    else
      var r := Decimal(n / 10) + [('0' as int + n % 10) as char];
      assert r[..|r| - 1] == Decimal(n / 10);
      r
  }

  /** The label of a slot: the hour, less 12 when it is past 12, then "PM"
      from 12 on and "AM" before. There is no wrap past midnight. */
  function HourLabel(hour: nat): (r: string)
    ensures |r| >= 3 && r[|r| - 1] == 'M'
    ensures hour > 0 ==> r[0] != '0'
    ensures r[|r| - 2] == 'P' <==> hour >= 12
    ensures r[|r| - 2] == 'A' <==> hour < 12
    ensures AllDigits(r[..|r| - 2])
    ensures DigitsValue(r[..|r| - 2]) == if hour > 12 then hour - 12 else hour
  {
    var digits := Decimal(if hour > 12 then hour - 12 else hour);
    var r := digits + (if hour >= 12 then "PM" else "AM");
    assert r[..|r| - 2] == digits;
    r
  }

  /** The labels of the worked examples, and of the hours past 23 that a late
      start reaches. */
  lemma HourLabelExamples()
    ensures HourLabel(9) == "9AM" && HourLabel(10) == "10AM" && HourLabel(11) == "11AM"
    ensures HourLabel(12) == "12PM" && HourLabel(13) == "1PM"
    ensures HourLabel(24) == "12PM" && HourLabel(25) == "13PM"
  {
    assert Decimal(10) == Decimal(1) + ['0'];
    assert Decimal(11) == Decimal(1) + ['1'];
    assert Decimal(12) == Decimal(1) + ['2'];
    assert Decimal(13) == Decimal(1) + ['3'];
  }

  /** From a start of 9 or later, "AM" only ever labels 9, 10 or 11. */
  lemma MorningLabels(hour: nat)
    requires hour >= 9 && HourLabel(hour)[|HourLabel(hour)| - 2] == 'A'
    ensures hour == 9 || hour == 10 || hour == 11
  {
  }

  // ---------------------------------------------------------------------
  // Explanation

  // Each text is written as a short head and the rest, so that the verifier
  // sees the characters that tell the texts apart.
  const Preamble := "Here's why " + "we've arranged your schedule this way:\n\n"
  const MeetingBullet := "• We prioritized " +
    "meetings and preparation tasks earlier in the day when your focus is typically higher.\n\n"
  const OutdoorBullet := "• We grouped " +
    "outdoor activities together to maximize efficiency and allow you to stay in the flow.\n\n"
  const FamilyBullet := "• Family-related " +
    "activities are scheduled later since they often align with when family members are available after school or work.\n\n"
  const Closing := "This schedule " +
    "optimizes your energy levels throughout the day and minimizes context switching between different types of activities."

  /** Which bullets the explanation carries. */
  datatype Categories = Categories(meetings: bool, outdoor: bool, family: bool)

  /** Some task mentions "meeting"; "prepare" alone does not count here. */
  predicate HasMeetings(tasks: seq<string>) {
    exists i :: 0 <= i < |tasks| && Mentions(tasks[i], "meeting")
  }

  predicate HasOutdoor(tasks: seq<string>) {
    exists i :: 0 <= i < |tasks| && IsOutdoor(tasks[i])
  }

  predicate HasFamily(tasks: seq<string>) {
    exists i :: 0 <= i < |tasks| && IsFamily(tasks[i])
  }

  function Detect(tasks: seq<string>): Categories {
    Categories(HasMeetings(tasks), HasOutdoor(tasks), HasFamily(tasks))
  }

  /** `text` when `present`, and nothing otherwise. */
  function Optional(present: bool, text: string): string {
    if present then text else ""
  }

  /** The preamble, the bullets of the present categories in a fixed order,
      and the closing sentence. */
  function ExplanationFor(c: Categories): string {
    Preamble + (Optional(c.meetings, MeetingBullet) + (Optional(c.outdoor, OutdoorBullet)
      + (Optional(c.family, FamilyBullet) + Closing)))
  }

  /** Strips `prefix` from the front of `s` when it is there. */
  function StripPrefix(s: string, prefix: string): (bool, string) {
    if OccursAt(s, prefix, 0) then (true, s[|prefix|..]) else (false, s)
  }

  /** Reads back which bullets an explanation carries, or None when the text
      is not an explanation of this form. */
  function ReadCategories(e: string): Option<Categories> {
    var (p, r0) := StripPrefix(e, Preamble);
    var (m, r1) := StripPrefix(r0, MeetingBullet);
    var (o, r2) := StripPrefix(r1, OutdoorBullet);
    var (f, r3) := StripPrefix(r2, FamilyBullet);
    if p && r3 == Closing then Some(Categories(m, o, f)) else None
  }

  /** Two texts that differ at position `k` cannot start one another. */
  lemma NotPrefix(a: string, b: string, rest: string, k: nat)
    requires k < |a| && k < |b| && a[k] != b[k]
    ensures !OccursAt(b + rest, a, 0) && (rest == [] ==> !OccursAt(b, a, 0))
  {
  }

  /** Stripping an optional part gives back whether it was there. */
  lemma {:induction false} StripOptional(part: string, present: bool, rest: string)
    requires present || !OccursAt(rest, part, 0)
    ensures StripPrefix(Optional(present, part) + rest, part) == (present, rest)
  {
    if present {
      assert (part + rest)[..|part|] == part;
      assert (part + rest)[|part|..] == rest;
    } else {
      assert "" + rest == rest;
    }
  }

  /** The positions at which the bullets and the closing sentence first
      differ. */
  lemma BulletsDiffer()
    ensures |MeetingBullet| > 5 && |OutdoorBullet| > 5 && |FamilyBullet| > 2 && |Closing| > 2
    ensures MeetingBullet[5] != OutdoorBullet[5] && MeetingBullet[2] != FamilyBullet[2]
    ensures MeetingBullet[0] != Closing[0] && OutdoorBullet[2] != FamilyBullet[2]
    ensures OutdoorBullet[0] != Closing[0] && FamilyBullet[0] != Closing[0]
  {
  }

  /** The explanation determines exactly which categories it was built from. */
  lemma ExplanationRoundTrip(c: Categories)
    ensures ReadCategories(ExplanationFor(c)) == Some(c)
  {
    BulletsDiffer();
    var f := Optional(c.family, FamilyBullet) + Closing;
    var o := Optional(c.outdoor, OutdoorBullet) + f;
    var m := Optional(c.meetings, MeetingBullet) + o;
    StripOptional(Preamble, true, m);
    if !c.meetings {
      if c.outdoor {
        NotPrefix(MeetingBullet, OutdoorBullet, f, 5);
      } else if c.family {
        NotPrefix(MeetingBullet, FamilyBullet, Closing, 2);
      } else {
        NotPrefix(MeetingBullet, Closing, [], 0);
      }
    }
    StripOptional(MeetingBullet, c.meetings, o);
    if !c.outdoor {
      if c.family {
        NotPrefix(OutdoorBullet, FamilyBullet, Closing, 2);
      } else {
        NotPrefix(OutdoorBullet, Closing, [], 0);
      }
    }
    StripOptional(OutdoorBullet, c.outdoor, f);
    if !c.family {
      NotPrefix(FamilyBullet, Closing, [], 0);
    }
    StripOptional(FamilyBullet, c.family, Closing);
  }

  /** "prepare" makes a task a priority task, but does not bring in the
      meeting bullet. */
  lemma PrepareWithoutMeetingBullet()
    ensures IsPriority("prepare")
    ensures !Detect(["prepare"]).meetings
  {
    var t := "prepare";
    assert Lower(t) == t;
    assert OccursAt(t, "prepare", 0);
    MissingChar(t, "meeting", 0);
  }

  // ---------------------------------------------------------------------
  // The schedule

  /** Entry `i` holds the `i`-th sorted task in the slot `start + i`. */
  function Slots(sorted: seq<string>, start: nat): (r: seq<ScheduledTask>)
    ensures |r| == |sorted|
  {
    seq(|sorted|, i requires 0 <= i < |sorted| => ScheduledTask(HourLabel(start + i), sorted[i]))
  }

  /** The fallback schedule for `tasks` at clock time hour:minute. */
  function FallbackSchedule(tasks: seq<string>, hour: int, minute: int): (r: Schedule)
    ensures |r.tasks| == |tasks|
  {
    Schedule(Slots(InsertionSort(tasks), StartHour(hour, minute)), ExplanationFor(Detect(tasks)))
  }

  /** Appending one more entry to the slots of a prefix. */
  lemma {:induction false} SlotsStep(sorted: seq<string>, start: nat, index: nat)
    requires index < |sorted|
    ensures Slots(sorted[..index + 1], start) ==
      Slots(sorted[..index], start) + [ScheduledTask(HourLabel(start + index), sorted[index])]
  {
    var longer := Slots(sorted[..index + 1], start);
    var shorter := Slots(sorted[..index], start);
    forall j | 0 <= j < index ensures longer[j] == shorter[j] {
    }
  }

  /** Appending an optional part to the text built so far. */
  lemma {:induction false} AppendOptional(done: string, present: bool, text: string, rest: string)
    ensures done + (Optional(present, text) + rest) == (if present then done + text else done) + rest
  {
    if !present {
      assert "" + rest == rest;
    }
  }

  /** The explanation as the source grows it: the preamble, then each
      detected bullet appended in turn, then the closing sentence. */
  method BuildExplanation(tasks: seq<string>) returns (explanation: string)
    ensures explanation == ExplanationFor(Detect(tasks))
  {
    var c := Detect(tasks);
    ghost var f := Optional(c.family, FamilyBullet) + Closing;
    ghost var o := Optional(c.outdoor, OutdoorBullet) + f;
    explanation := Preamble;
    AppendOptional(explanation, c.meetings, MeetingBullet, o);
    if HasMeetings(tasks) {
      explanation := explanation + MeetingBullet;
    }
    AppendOptional(explanation, c.outdoor, OutdoorBullet, f);
    if HasOutdoor(tasks) {
      explanation := explanation + OutdoorBullet;
    }
    AppendOptional(explanation, c.family, FamilyBullet, Closing);
    if HasFamily(tasks) {
      explanation := explanation + FamilyBullet;
    }
    explanation := explanation + Closing;
  }

  /** The generator as the source runs it: the start hour in a variable that
      is bumped and clamped, the sort on a copied array, one entry pushed per
      sorted task, and the explanation grown bullet by bullet. */
  method FallbackScheduleGeneration(tasks: seq<string>, hour: int, minute: int) returns (schedule: Schedule)
    ensures schedule == FallbackSchedule(tasks, hour, minute)
  {
    var currentHour := hour;
    if minute > 0 {
      currentHour := currentHour + 1;
    }
    if currentHour < 9 {
      currentHour := 9;
    }
    assert currentHour == StartHour(hour, minute);
    var sortedTasks := SortTasks(tasks);

    var scheduledTasks: seq<ScheduledTask> := [];
    var index := 0;
    while index < |sortedTasks|
      invariant 0 <= index <= |sortedTasks|
      invariant scheduledTasks == Slots(sortedTasks[..index], currentHour)
    {
      var timeStr := HourLabel(currentHour + index);
      SlotsStep(sortedTasks, currentHour, index);
      scheduledTasks := scheduledTasks + [ScheduledTask(timeStr, sortedTasks[index])];
      index := index + 1;
    }
    assert sortedTasks[..index] == sortedTasks;

    var explanation := BuildExplanation(tasks);
    schedule := Schedule(scheduledTasks, explanation);
  }

  // ---------------------------------------------------------------------
  // Properties of the fallback schedule

  /** Every input task is scheduled exactly once: same length, and the task
      descriptions are a permutation of the input. */
  lemma {:induction false} FallbackPermutes(tasks: seq<string>, hour: int, minute: int)
    ensures |FallbackSchedule(tasks, hour, minute).tasks| == |tasks|
    ensures multiset(TaskNames(FallbackSchedule(tasks, hour, minute).tasks)) == multiset(tasks)
  {
    var sorted := InsertionSort(tasks);
    assert TaskNames(Slots(sorted, StartHour(hour, minute))) == sorted;
    SortPermutes(tasks);
  }

  /** Entry `i` is labelled with the hour `start + i`, which is 9 or later. */
  lemma {:induction false} FallbackLabels(tasks: seq<string>, hour: int, minute: int, i: nat)
    requires i < |tasks|
    ensures FallbackSchedule(tasks, hour, minute).tasks[i].time == HourLabel(StartHour(hour, minute) + i)
    ensures StartHour(hour, minute) + i >= 9
  {
    var start := StartHour(hour, minute);
    var sorted := InsertionSort(tasks);
    assert Slots(sorted, start)[i] == ScheduledTask(HourLabel(start + i), sorted[i]);
  }

  /** Starting at 9, three tasks take 9AM, 10AM and 11AM. */
  lemma {:induction false} FallbackMorningLabels(tasks: seq<string>, hour: int, minute: int)
    requires StartHour(hour, minute) == 9 && |tasks| == 3
    ensures TimesOf(FallbackSchedule(tasks, hour, minute).tasks) == ["9AM", "10AM", "11AM"]
  {
    HourLabelExamples();
  }

  /** Starting at 11, two tasks take 11AM and 12PM. */
  lemma {:induction false} FallbackNoonLabels(tasks: seq<string>, hour: int, minute: int)
    requires StartHour(hour, minute) == 11 && |tasks| == 2
    ensures TimesOf(FallbackSchedule(tasks, hour, minute).tasks) == ["11AM", "12PM"]
  {
    HourLabelExamples();
  }

  function TimesOf(entries: seq<ScheduledTask>): (r: seq<string>)
    ensures |r| == |entries|
  {
    seq(|entries|, i requires 0 <= i < |entries| => entries[i].time)
  }

  /** Where the comparator is consistent on the input, the schedule lists the
      tasks by Rank and keeps input order within a Rank. */
  lemma {:induction false} FallbackOrder(tasks: seq<string>, hour: int, minute: int)
    requires RankConsistent(tasks)
    ensures SortedByRank(TaskNames(FallbackSchedule(tasks, hour, minute).tasks))
    ensures forall k :: WithRank(TaskNames(FallbackSchedule(tasks, hour, minute).tasks), k) == WithRank(tasks, k)
  {
    var sorted := InsertionSort(tasks);
    assert TaskNames(Slots(sorted, StartHour(hour, minute))) == sorted;
    SortSortedStable(tasks);
  }

  /** Where the comparator is consistent on the input, every priority task
      is scheduled before every other task, and within the same priority
      every non-family task before every family task. */
  lemma {:induction false} FallbackPriorityFirst(tasks: seq<string>, hour: int, minute: int, i: int, j: int)
    requires RankConsistent(tasks) && 0 <= i < j < |tasks|
    ensures var names := TaskNames(FallbackSchedule(tasks, hour, minute).tasks);
      (IsPriority(names[j]) ==> IsPriority(names[i])) &&
      (IsPriority(names[i]) == IsPriority(names[j]) && IsFamily(names[i]) ==> IsFamily(names[j]))
  {
    FallbackOrder(tasks, hour, minute);
    SortedByRankOrder(TaskNames(FallbackSchedule(tasks, hour, minute).tasks), i, j);
  }

  /** The explanation starts with the preamble, ends with the closing
      sentence, and carries the meeting, outdoor and family bullets exactly
      for the categories detected in the input. */
  lemma {:induction false} FallbackExplanation(tasks: seq<string>, hour: int, minute: int)
    ensures ReadCategories(FallbackSchedule(tasks, hour, minute).explanation) ==
      Some(Categories(HasMeetings(tasks), HasOutdoor(tasks), HasFamily(tasks)))
  {
    ExplanationRoundTrip(Detect(tasks));
  }

  /** Sorting a run, a meeting and a family errand puts the meeting first
      and the errand last. */
  lemma {:induction false} ScenarioSort(run: string, meeting: string, errand: string)
    requires IsOutdoor(run) && !IsPriority(run) && !IsFamily(run)
    requires IsPriority(meeting) && !IsOutdoor(meeting) && !IsFamily(meeting)
    requires IsFamily(errand) && !IsPriority(errand) && !IsOutdoor(errand)
    ensures InsertionSort([run, meeting, errand]) == [meeting, run, errand]
  {
    var tasks := [run, meeting, errand];
    assert tasks[..2] == [run, meeting] && [run, meeting][..1] == [run];
    assert InsertionSort([run]) == [run] by {
      assert [run][..0] == [];
    }
    assert Insert([run], meeting) == [meeting, run] by {
      assert [run][..0] == [];
    }
    assert InsertionSort([run, meeting]) == [meeting, run];
    assert Insert([meeting, run], errand) == [meeting, run, errand];
  }

  /** A run, a meeting and a family errand: the meeting comes first, the run
      second, the errand last, and all three bullets are present. */
  lemma {:induction false} FallbackScenario(run: string, meeting: string, errand: string, hour: int, minute: int)
    requires IsOutdoor(run) && !IsPriority(run) && !IsFamily(run)
    requires Mentions(meeting, "meeting") && !IsOutdoor(meeting) && !IsFamily(meeting)
    requires IsFamily(errand) && !IsPriority(errand) && !IsOutdoor(errand)
    ensures TaskNames(FallbackSchedule([run, meeting, errand], hour, minute).tasks) == [meeting, run, errand]
    ensures ReadCategories(FallbackSchedule([run, meeting, errand], hour, minute).explanation) ==
      Some(Categories(true, true, true))
  {
    var tasks := [run, meeting, errand];
    ScenarioSort(run, meeting, errand);
    assert TaskNames(Slots(InsertionSort(tasks), StartHour(hour, minute))) == [meeting, run, errand];
    assert Detect(tasks) == Categories(true, true, true) by {
      assert Mentions(tasks[1], "meeting") && IsOutdoor(tasks[0]) && IsFamily(tasks[2]);
    }
    ExplanationRoundTrip(Categories(true, true, true));
  }

  /** A run, a team meeting and a school pickup, with capitals: "Team meeting" is
      scheduled first, "Go for a 20 minute run" second, "Pick up daughter"
      last, and the explanation carries all three bullets. */
  lemma ThreeTaskScenario(hour: int, minute: int)
    ensures var s := FallbackSchedule(["Go for a 20 minute run", "Team meeting", "Pick up daughter"], hour, minute);
      |s.tasks| == 3 &&
      TaskNames(s.tasks) == ["Team meeting", "Go for a 20 minute run", "Pick up daughter"] &&
      ReadCategories(s.explanation) == Some(Categories(true, true, true))
  {
    RunTaskClass();
    MeetingTaskClass();
    ErrandTaskClass();
    FallbackScenario("Go for a 20 minute run", "Team meeting", "Pick up daughter", hour, minute);
  }
}
