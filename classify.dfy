/** The keyword heuristics of the fallback scheduler (src/lib/scheduler.ts):
    three case-insensitive substring classifiers and the sort comparator built
    on them. */
module Classify {
  import opened Text

  /** The lower-cased task mentions `word` anywhere. */
  predicate Mentions(task: string, word: string) {
    Contains(Lower(task), word)
  }

  /** Meetings and preparation tasks. */
  predicate IsPriority(task: string) {
    Mentions(task, "meeting") || Mentions(task, "prepare")
  }

  predicate IsOutdoor(task: string) {
    Mentions(task, "run") || Mentions(task, "walk") || Mentions(task, "mow")
  }

  predicate IsFamily(task: string) {
    Mentions(task, "daughter") || Mentions(task, "family") || Mentions(task, "kid")
  }

  /** The comparator handed to Array.prototype.sort: negative puts `a` first,
      positive puts `b` first, zero leaves them as they are. */
  function Compare(a: string, b: string): (r: int)
    ensures -1 <= r <= 1
  {
    if IsPriority(a) && !IsPriority(b) then -1
    else if !IsPriority(a) && IsPriority(b) then 1
    else if IsOutdoor(a) && IsOutdoor(b) then 0
    else if IsFamily(a) && !IsFamily(b) then 1
    else if !IsFamily(a) && IsFamily(b) then -1
    else 0
  }

  /** The lexicographic key (not priority, family) that the comparator orders
      by whenever it is consistent: 0 priority, 1 priority and family,
      2 neither, 3 family only. */
  function Rank(task: string): (r: nat)
    ensures r <= 1 <==> IsPriority(task)
    ensures r % 2 == 1 <==> IsFamily(task)
  {
    (if IsPriority(task) then 0 else 2) + (if IsFamily(task) then 1 else 0)
  }

  function Sign(n: int): int {
    if n < 0 then -1 else if n > 0 then 1 else 0
  }

  /** Swapping the arguments negates the comparison. */
  lemma CompareAntisymmetric(a: string, b: string)
    ensures Compare(a, b) == -Compare(b, a)
  {
  }

  /** A priority task goes before a task that is not. */
  lemma ComparePriorityFirst(a: string, b: string)
    requires IsPriority(a) && !IsPriority(b)
    ensures Compare(a, b) < 0 && Compare(b, a) > 0
  {
  }

  /** Two outdoor tasks of the same priority compare equal, whatever their
      family flags say. */
  lemma CompareOutdoorTie(a: string, b: string)
    requires IsOutdoor(a) && IsOutdoor(b) && IsPriority(a) == IsPriority(b)
    ensures Compare(a, b) == 0
  {
  }

  /** Two tasks that agree on priority and are not both outdoor are ordered
      by the family flag alone: family after non-family, otherwise equal. */
  lemma CompareFamilyRule(a: string, b: string)
    requires IsPriority(a) == IsPriority(b) && !(IsOutdoor(a) && IsOutdoor(b))
    ensures Compare(a, b) > 0 <==> IsFamily(a) && !IsFamily(b)
    ensures Compare(a, b) < 0 <==> !IsFamily(a) && IsFamily(b)
  {
  }

  /** The comparator orders `a` and `b` by Rank: they are not two outdoor
      tasks of the same priority and different family flags. */
  predicate Agree(a: string, b: string) {
    !(IsOutdoor(a) && IsOutdoor(b) && IsPriority(a) == IsPriority(b) && IsFamily(a) != IsFamily(b))
  }

  /** The comparator orders a pair by Rank exactly when the pair agrees. */
  lemma CompareIsRankOrder(a: string, b: string)
    ensures Compare(a, b) == Sign(Rank(a) - Rank(b)) <==> Agree(a, b)
  {
  }

  /** Every pair of tasks in `s` is ordered by Rank. */
  predicate RankConsistent(s: seq<string>) {
    forall a, b :: a in s && b in s ==> Agree(a, b)
  }

  /** A list without outdoor tasks is always rank-consistent. */
  lemma NoOutdoorIsRankConsistent(s: seq<string>)
    requires forall i :: 0 <= i < |s| ==> !IsOutdoor(s[i])
    ensures RankConsistent(s)
  {
  }

  /** "walk kid" is an outdoor family task. */
  lemma WalkKidOutdoorFamily()
    ensures IsOutdoor("walk kid") && IsFamily("walk kid")
  {
    var t := "walk kid";
    assert Lower(t) == t;
    assert OccursAt(t, "walk", 0);
    assert OccursAt(t, "kid", 5);
  }

  /** "walk kid" is not a priority task: it has neither an "m" nor a "p". */
  lemma WalkKidNotPriority()
    ensures !IsPriority("walk kid")
  {
    var t := "walk kid";
    assert Lower(t) == t;
    MissingChar(t, "meeting", 0);
    MissingChar(t, "prepare", 0);
  }

  /** "walk" is an outdoor task without priority or family. */
  lemma WalkClass()
    ensures !IsPriority("walk") && IsOutdoor("walk") && !IsFamily("walk")
  {
    var t := "walk";
    assert Lower(t) == t;
    assert OccursAt(t, "walk", 0);
    MissingChar(t, "kid", 1);
  }

  /** "email" mentions none of the outdoor words: it has no "r", no "w" and
      no "o". */
  lemma EmailNotOutdoor()
    ensures !IsOutdoor("email")
  {
    var t := "email";
    assert Lower(t) == t;
    MissingChar(t, "run", 0);
    MissingChar(t, "walk", 0);
    MissingChar(t, "mow", 1);
  }

  /** "email" is neither a priority nor a family task. */
  lemma EmailNotPriorityOrFamily()
    ensures !IsPriority("email") && !IsFamily("email")
  {
    var t := "email";
    assert Lower(t) == t;
    MissingChar(t, "kid", 0);
  }

  /** The comparator is not a consistent ordering: "walk kid" ties with
      "walk", "walk" ties with "email", yet "email" goes before "walk kid". */
  lemma CompareNotTransitive()
    ensures Compare("walk kid", "walk") == 0
    ensures Compare("walk", "email") == 0
    ensures Compare("email", "walk kid") < 0
  {
    WalkKidOutdoorFamily();
    WalkKidNotPriority();
    WalkClass();
    EmailNotOutdoor();
    EmailNotPriorityOrFamily();
  }
  /** The classifiers ignore case: a task and its lower-cased form fall in
      the same categories. */
  lemma CaseInsensitive(task: string)
    ensures IsPriority(Lower(task)) == IsPriority(task)
    ensures IsOutdoor(Lower(task)) == IsOutdoor(task)
    ensures IsFamily(Lower(task)) == IsFamily(task)
  {
    LowerIdempotent(task);
  }

  // ---------------------------------------------------------------------
  // Three tasks with capitals: a run, a team meeting and a school pickup

  /** The keywords that the lower-cased run task lacks. */
  lemma RunTaskLacks(word: string)
    requires word in ["meeting", "prepare", "daughter", "family", "kid"]
    ensures !Contains("go for a 20 minute run", word)
  {
    var t := "go for a 20 minute run";
    if word == "meeting" {
      MissingChar(t, word, 6);
    } else if word == "family" {
      MissingChar(t, word, 4);
    } else {
      MissingChar(t, word, 0);
    }
  }

  /** "Go for a 20 minute run" is an outdoor task, and no other kind. */
  lemma RunTaskClass()
    ensures IsOutdoor("Go for a 20 minute run")
    ensures !IsPriority("Go for a 20 minute run") && !IsFamily("Go for a 20 minute run")
  {
    var t := "go for a 20 minute run";
    assert Lower("Go for a 20 minute run") == t;
    assert OccursAt(t, "run", 19);
    RunTaskLacks("meeting");
    RunTaskLacks("prepare");
    RunTaskLacks("daughter");
    RunTaskLacks("family");
    RunTaskLacks("kid");
  }

  /** The keywords that the lower-cased meeting task lacks. */
  lemma MeetingTaskLacks(word: string)
    requires word in ["run", "walk", "mow", "daughter", "family", "kid"]
    ensures !Contains("team meeting", word)
  {
    var t := "team meeting";
    if word == "mow" {
      MissingChar(t, word, 1);
    } else {
      MissingChar(t, word, 0);
    }
  }

  /** "Team meeting" is a meeting, and neither outdoor nor family. */
  lemma MeetingTaskClass()
    ensures Mentions("Team meeting", "meeting")
    ensures !IsOutdoor("Team meeting") && !IsFamily("Team meeting")
  {
    var t := "team meeting";
    assert Lower("Team meeting") == t;
    assert OccursAt(t, "meeting", 5);
    MeetingTaskLacks("run");
    MeetingTaskLacks("walk");
    MeetingTaskLacks("mow");
    MeetingTaskLacks("daughter");
    MeetingTaskLacks("family");
    MeetingTaskLacks("kid");
  }

  /** The keywords that the lower-cased errand lacks. */
  lemma ErrandTaskLacks(word: string)
    requires word in ["meeting", "prepare", "run", "walk", "mow"]
    ensures !Contains("pick up daughter", word)
  {
    var t := "pick up daughter";
    if word == "prepare" {
      MissingChar(t, word, 1);
    } else if word == "run" {
      MissingChar(t, word, 2);
    } else {
      MissingChar(t, word, 0);
    }
  }

  /** "Pick up daughter" is a family task, and no other kind. */
  lemma ErrandTaskClass()
    ensures IsFamily("Pick up daughter")
    ensures !IsPriority("Pick up daughter") && !IsOutdoor("Pick up daughter")
  {
    var t := "pick up daughter";
    assert Lower("Pick up daughter") == t;
    assert OccursAt(t, "daughter", 8);
    ErrandTaskLacks("meeting");
    ErrandTaskLacks("prepare");
    ErrandTaskLacks("run");
    ErrandTaskLacks("walk");
    ErrandTaskLacks("mow");
  }
}
