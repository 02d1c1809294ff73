/** The request text sent to the model (src/lib/scheduler.ts:27-41): a fixed
    opening line, one "- task" line per task joined by line feeds, and fixed
    instructions. */
module Prompt {
  import opened Wrappers
  import opened Text

  const Header := "I need to organize these tasks optimally for today:\n"
  const Footer := "\n\n"
    + "Please create a schedule that organizes these tasks in the most efficient order. Consider factors like:\n"
    + "- Task priority and deadlines\n"
    + "- Logical grouping (like outdoor activities together)\n"
    + "- Energy levels throughout the day\n"
    + "- Context switching minimization\n"
    + "- do add some minutes break between tasks when u feel the need\n"
    + "\n"
    + "Format the response as a JSON object with:\n"
    + "1. \"tasks\" array with objects containing \"time\" (like \"9AM\", \"2:30PM\") and \"task\" (the task description)\n"
    + "2. \"explanation\" string that explains the reasoning behind this schedule\n"
    + "\n"
    + "Don't include any other text in your response - just return a valid JSON object."

  /** Array.prototype.join('\n'): the lines with a line feed between each two. */
  function JoinLines(lines: seq<string>): string {
    if lines == [] then ""
    else if |lines| == 1 then lines[0]
    else lines[0] + "\n" + JoinLines(lines[1..])
  }

  /** String.prototype.split('\n'): the pieces between line feeds, at least one. */
  function SplitLines(s: string): (r: seq<string>)
    ensures |r| >= 1
    decreases |s|
  {
    match FirstIndex(s, '\n')
    case None => [s]
    case Some(i) => [s[..i]] + SplitLines(s[i + 1..])
  }

  /** The line of one task. */
  function TaskLine(task: string): string {
    "- " + task
  }

  function TaskLines(tasks: seq<string>): (r: seq<string>)
    ensures |r| == |tasks|
  {
    seq(|tasks|, i requires 0 <= i < |tasks| => TaskLine(tasks[i]))
  }

  /** The prompt for a list of tasks. */
  function BuildPrompt(tasks: seq<string>): (r: string)
    ensures |r| >= |Header| + |Footer|
    ensures OccursAt(r, Header, 0) && OccursAt(r, Footer, |r| - |Footer|)
  {
    Framed(Header, JoinLines(TaskLines(tasks)), Footer);
    Header + JoinLines(TaskLines(tasks)) + Footer
  }

  /** Reads the task list back out of the lines between the fixed parts. */
  function ReadBody(body: string): Option<seq<string>> {
    if body == [] then Some([])
    else
      var lines := SplitLines(body);
      if forall i :: 0 <= i < |lines| ==> |lines[i]| >= 2 && lines[i][..2] == "- " then
        Some(seq(|lines|, i requires 0 <= i < |lines| && |lines[i]| >= 2 => lines[i][2..]))
      else None
  }

  /** Reads the task list back out of a prompt, or None when the text is not
      a prompt of this form. */
  function ReadTasks(prompt: string): Option<seq<string>> {
    if |prompt| < |Header| + |Footer| || !OccursAt(prompt, Header, 0) || !OccursAt(prompt, Footer, |prompt| - |Footer|) then None
    else ReadBody(prompt[|Header|..|prompt| - |Footer|])
  }

  /** Splitting undoes joining, for lines without a line feed of their own. */
  lemma {:induction false} SplitJoin(lines: seq<string>)
    requires |lines| >= 1
    requires forall i :: 0 <= i < |lines| ==> '\n' !in lines[i]
    ensures SplitLines(JoinLines(lines)) == lines
  {
    var first := lines[0];
    if |lines| == 1 {
      assert FirstIndex(first, '\n').None?;
    } else {
      var rest := JoinLines(lines[1..]);
      var s := first + "\n" + rest;
      assert s[|first|] == '\n';
      assert forall k :: 0 <= k < |first| ==> s[k] == first[k];
      assert FirstIndex(s, '\n') == Some(|first|);
      assert s[..|first|] == first;
      assert s[|first| + 1..] == rest;
      SplitJoin(lines[1..]);
      assert lines == [first] + lines[1..];
    }
  }

  /** The text between a head and a tail is found again by their lengths. */
  lemma Framed(head: string, body: string, tail: string)
    ensures var s := head + body + tail;
      |s| >= |head| + |tail| && OccursAt(s, head, 0) && OccursAt(s, tail, |s| - |tail|) &&
      s[|head|..|s| - |tail|] == body
  {
  }

  /** A task line adds the dash and the space, and no line feed. */
  lemma {:induction false} TaskLineParts(task: string)
    ensures |TaskLine(task)| >= 2 && TaskLine(task)[..2] == "- " && TaskLine(task)[2..] == task
    ensures '\n' !in task ==> '\n' !in TaskLine(task)
  {
    var line := TaskLine(task);
    if '\n' in line {
      var k :| 0 <= k < |line| && line[k] == '\n';
      assert k >= 2 && task[k - 2] == '\n';
    }
  }

  /** The task lines read back as the tasks, when no task has a line feed. */
  lemma {:induction false} BodyRoundTrip(tasks: seq<string>)
    requires forall i :: 0 <= i < |tasks| ==> '\n' !in tasks[i]
    ensures ReadBody(JoinLines(TaskLines(tasks))) == Some(tasks)
  {
    var lines := TaskLines(tasks);
    var body := JoinLines(lines);
    if tasks != [] {
      assert forall i :: 0 <= i < |lines| ==>
        '\n' !in lines[i] && |lines[i]| >= 2 && lines[i][..2] == "- " && lines[i][2..] == tasks[i] by {
        forall i | 0 <= i < |lines|
          ensures '\n' !in lines[i] && |lines[i]| >= 2 && lines[i][..2] == "- " && lines[i][2..] == tasks[i]
        {
          TaskLineParts(tasks[i]);
        }
      }
      assert body != [] by {
        TaskLineParts(tasks[0]);
        if |lines| > 1 {
          assert |body| >= |lines[0]|;
        }
      }
      assert SplitLines(body) == lines by {
        SplitJoin(lines);
      }
      var read := seq(|lines|, i requires 0 <= i < |lines| && |lines[i]| >= 2 => lines[i][2..]);
      assert read == tasks;
    }
  }

  /** The prompt carries every task, in order: reading it back gives the
      task list, as long as no task has a line feed in it. */
  lemma {:induction false} PromptRoundTrip(tasks: seq<string>)
    requires forall i :: 0 <= i < |tasks| ==> '\n' !in tasks[i]
    ensures ReadTasks(BuildPrompt(tasks)) == Some(tasks)
  {
    Framed(Header, JoinLines(TaskLines(tasks)), Footer);
    BodyRoundTrip(tasks);
  }
}
