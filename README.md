# Day planner scheduling core in Dafny

This project models the scheduling core of the day planner web app:

- **The local ("fallback") scheduler** (`fallbackScheduleGeneration`). It:
  - computes a start hour from the clock;
  - sorts the tasks with a keyword comparator (priority, outdoor, family);
  - gives each task a one-hour slot with a 12-hour label;
  - writes an explanation made of fixed bullets.
- **The prompt** sent to the language model.
- **The decision logic of `generateSchedule`.** This covers:
  - whether a remote answer is used;
  - how its text becomes a JSON value (a direct parse, then the greedy `{...}` block);
  - which values are accepted;
  - how accepted entries are normalised;
  - that every other path returns the local schedule.
- **The task editor component (`TaskInput`).** Its four state fields become a class, and its handlers become methods that keep every stored task non-empty and trimmed.

Modules, in dependency order:

| module | file | what it holds |
|---|---|---|
| `Wrappers` | wrappers.dfy | `Option`, `Result` |
| `Text` | text.dfy | ASCII lower-casing, substring search, first/last index, trim |
| `Classify` | classify.dfy | the keyword classifiers, the comparator, its Rank key and its failure of transitivity |
| `Sorting` | sorting.dfy | the stable insertion sort as a function, and as the in-place array method it specifies |
| `Fallback` | fallback.dfy | start hour, hour labels, explanation, the fallback schedule and the method that builds it |
| `Json` | json.dfy | parsed JSON values, truthiness, property access (undefined / value / TypeError on null) |
| `Response` | response.dfy | brace extraction, staged parse, structure check, normalisation, `GenerateSchedule` |
| `Prompt` | prompt.dfy | the prompt text and the read-back that inverts it |
| `TaskInputComponent` | task_input.dfy | the `TaskInput` class |

Inputs from outside the program are parameters:
- **The clock** is `(hour, minute)`.
- **The configured API key** is an `Option<string>`.
- **The text of the model's answer** is an `Option<string>`. It is `None` when:
  - the request throws;
  - the status check fails;
  - the envelope lookup fails.
- **JSON.parse** is a function `string -> Option<JsonValue>`, which returns `None` when it throws.

The sort of a copied array is a stable insertion sort, using the source's comparator unchanged.

The comparator is not a consistent ordering once outdoor tasks are involved. `Classify.CompareNotTransitive` exhibits three tasks where it fails. So claims about order are made only for inputs where it agrees with its Rank key (`Classify.RankConsistent`); this includes every input without outdoor tasks. The permutation property holds for all inputs.

The hour labels follow the code, which has no wrap past midnight: hour 24 is labelled "12PM" and hour 25 "13PM" (`Fallback.HourLabelExamples`).

## Model

| member | source | states |
|---|---|---|
| Text.IsSpace | src/components/TaskInput.tsx:17 | the characters `trim` strips: the six ASCII whitespace characters (space, tab, line feed, vertical tab, form feed, carriage return); Trim, TrimIsMiddle and TrimDropsSpace state that exactly these go at both ends |
| Text.Lower | src/lib/scheduler.ts:137 | `toLowerCase` on ASCII: the result has the same length and no capital letter; each capital becomes its lower-case letter (code plus 32) and every other character is kept |
| Text.LowerIdempotent | src/lib/scheduler.ts:137 | lower-casing twice is lower-casing once |
| Text.Contains | src/lib/scheduler.ts:137 | `includes`: the word occurs at some position of the text |
| Text.MissingChar | src/lib/scheduler.ts:137 | a word is not included in a text when one of its characters is missing from every place that character could land |
| Text.FirstIndex | src/lib/scheduler.ts:88 | the first position of a character: it holds that character, none before it does, and there is none exactly when the character is absent |
| Text.LastIndex | src/lib/scheduler.ts:88 | the last position of a character: it holds that character, none after it does, and there is none exactly when the character is absent |
| Text.TrimStart | src/components/TaskInput.tsx:17 | drops a leading run of whitespace only, leaving a suffix that does not start with whitespace |
| Text.TrimEnd | src/components/TaskInput.tsx:17 | drops a trailing run of whitespace only, leaving a prefix that does not end with whitespace |
| Text.Trim | src/components/TaskInput.tsx:17-18 | the trim has no whitespace at either end, and is empty exactly when the text is all whitespace |
| Text.TrimIsMiddle | src/components/TaskInput.tsx:17-18 | the trim is a contiguous slice of the text: its characters are, in order, those that follow the leading whitespace |
| Text.TrimDropsSpace | src/components/TaskInput.tsx:17-18 | everything trim drops, before and after what it keeps, is whitespace |
| Text.TrimCharAt | src/components/TaskInput.tsx:17 | the i-th character of the trim is the text's character i places past the leading whitespace |
| Text.TrimTailIsSpace | src/components/TaskInput.tsx:17 | every character of the text after the trim is whitespace |
| Text.TrimOfTrimmed | src/components/TaskInput.tsx:18 | trimming a text with no whitespace at its ends gives it back unchanged |
| Classify.Compare | src/lib/scheduler.ts:135-157 | the comparator returns only -1, 0 or 1 |
| Classify.Rank | src/lib/scheduler.ts:137-151 | the key is at most 1 exactly for priority tasks and odd exactly for family tasks |
| Classify.CompareAntisymmetric | src/lib/scheduler.ts:135-157 | swapping the two tasks negates the comparison |
| Classify.ComparePriorityFirst | src/lib/scheduler.ts:137-141 | a priority task goes before a task that is not a priority |
| Classify.CompareOutdoorTie | src/lib/scheduler.ts:144-147 | two outdoor tasks of equal priority compare equal, whatever their family flags |
| Classify.CompareFamilyRule | src/lib/scheduler.ts:150-156 | with equal priority and not both outdoor, a family task goes after a non-family task, in both directions of the iff |
| Classify.CompareIsRankOrder | src/lib/scheduler.ts:135-157 | the comparator is the sign of the Rank difference exactly for pairs that are not two outdoor tasks of the same priority and different family flags |
| Classify.NoOutdoorIsRankConsistent | src/lib/scheduler.ts:144-147 | a list without outdoor tasks is one on which the comparator orders every pair by Rank |
| Classify.WalkKidOutdoorFamily | src/lib/scheduler.ts:144-151 | "walk kid" is classified outdoor and family |
| Classify.WalkKidNotPriority | src/lib/scheduler.ts:137 | "walk kid" is not classified a priority task |
| Classify.WalkClass | src/lib/scheduler.ts:137-151 | "walk" is outdoor, neither priority nor family |
| Classify.EmailNotOutdoor | src/lib/scheduler.ts:144 | "email" mentions none of "run", "walk", "mow" |
| Classify.EmailNotPriorityOrFamily | src/lib/scheduler.ts:137-151 | "email" is neither a priority nor a family task |
| Classify.CaseInsensitive | src/lib/scheduler.ts:137-151 | a task and its lower-cased form fall in the same categories, so capitals never change a classification |
| Classify.RunTaskClass | src/lib/scheduler.ts:137-151 | "Go for a 20 minute run", capital G and all, is outdoor and neither priority nor family |
| Classify.MeetingTaskClass | src/lib/scheduler.ts:137-151 | "Team meeting" mentions "meeting" and is neither outdoor nor family |
| Classify.ErrandTaskClass | src/lib/scheduler.ts:137-151 | "Pick up daughter" is family and neither priority nor outdoor |
| Classify.CompareNotTransitive | src/lib/scheduler.ts:135-157 | "walk kid" ties with "walk", "walk" ties with "email", yet "email" goes before "walk kid": the comparator is not a consistent ordering |
| Classify.Mentions | src/lib/scheduler.ts:137-138 | the word occurs somewhere in the lower-cased task, so the match ignores case (CaseInsensitive) |
| Classify.IsPriority | src/lib/scheduler.ts:137-138 | "meeting" or "prepare"; ComparePriorityFirst and WalkKidNotPriority state what it decides |
| Classify.IsOutdoor | src/lib/scheduler.ts:144-145 | "run", "walk" or "mow"; CompareOutdoorTie and EmailNotOutdoor state what it decides |
| Classify.IsFamily | src/lib/scheduler.ts:150-151 | "daughter", "family" or "kid"; CompareFamilyRule and WalkKidOutdoorFamily state what it decides |
| Sorting.InsertPermutes | src/lib/scheduler.ts:135 | one insertion step adds exactly one copy of the inserted task and changes nothing else |
| Sorting.SortPermutes | src/lib/scheduler.ts:135 | the sorted copy is a permutation of the input |
| Sorting.InsertMembers | src/lib/scheduler.ts:135 | after an insertion step the list holds the old tasks and the inserted one, and nothing else |
| Sorting.SortMembers | src/lib/scheduler.ts:135 | the sorted copy holds exactly the tasks of the input |
| Sorting.InsertSortedStable | src/lib/scheduler.ts:135-157 | inserting a task the comparator orders by Rank keeps the list sorted by Rank and puts the task after every task of its own Rank |
| Sorting.InsertPastLast | src/lib/scheduler.ts:135-157 | moving a task left past a larger last task keeps the Rank order and the order within every Rank |
| Sorting.SortSortedStable | src/lib/scheduler.ts:135-157 | on a rank-consistent input the sort orders by Rank and keeps input order among tasks of equal Rank |
| Sorting.SortedByRankOrder | src/lib/scheduler.ts:136-154 | in a list sorted by Rank, priority tasks come before non-priority ones, and within equal priority non-family tasks come before family ones |
| Sorting.InsertAt | src/lib/scheduler.ts:135 | the in-place inner loop leaves the first i+1 cells as the insertion of cell i into the sorted prefix, and the rest of the array unchanged |
| Sorting.SortTasks | src/lib/scheduler.ts:135 | sorting a copied array in place yields the insertion sort of the tasks |
| Sorting.Insert | src/lib/scheduler.ts:135 | one insertion step adds one element; InsertPermutes, InsertSortedStable and InsertAt state what it does |
| Sorting.InsertionSort | src/lib/scheduler.ts:135 | the sort keeps the length; SortPermutes and SortSortedStable state that it permutes, and orders stably by Rank where the comparator is consistent |
| Fallback.StartHour | src/lib/scheduler.ts:129-132 | the start is at least 9 and at least the rounded-up clock hour; it equals one of the two; for a clock hour in 0..23 it is at most 24 |
| Fallback.StartHourEarly | src/lib/scheduler.ts:130-132 | at three in the morning the start is 9 |
| Fallback.Decimal | src/lib/scheduler.ts:169 | interpolating a number gives one or more digits, with no leading zero, that denote it |
| Fallback.HourLabel | src/lib/scheduler.ts:164-169 | a label is digits with no leading zero then "PM" exactly from hour 12 and "AM" exactly below it; the digits denote the hour less 12 exactly when the hour is above 12 |
| Fallback.HourLabelExamples | src/lib/scheduler.ts:164-169 | hours 9-13 read "9AM", "10AM", "11AM", "12PM", "1PM"; with no wrap, 24 and 25 read "12PM" and "13PM" |
| Fallback.MorningLabels | src/lib/scheduler.ts:167 | from hour 9 on, only 9, 10 and 11 are labelled "AM" |
| Fallback.ExplanationRoundTrip | src/lib/scheduler.ts:178-196 | the explanation determines exactly which bullets it was built with |
| Fallback.PrepareWithoutMeetingBullet | src/lib/scheduler.ts:180 | "prepare" makes a task a priority task, yet does not bring in the meeting bullet |
| Fallback.BuildExplanation | src/lib/scheduler.ts:178-196 | growing the text bullet by bullet yields the preamble, the detected bullets in order and the closing sentence |
| Fallback.FallbackScheduleGeneration | src/lib/scheduler.ts:127-202 | the imperative generator (mutated start hour, sorted copy, push loop, growing explanation) returns the fallback schedule for the tasks and the clock |
| Fallback.FallbackPermutes | src/lib/scheduler.ts:135-175 | the schedule has one entry per input task, and its task names are a permutation of the input |
| Fallback.FallbackLabels | src/lib/scheduler.ts:162-175 | entry i is labelled with hour start+i, which is 9 or later |
| Fallback.FallbackMorningLabels | src/lib/scheduler.ts:164-169 | starting at 9, three tasks are labelled 9AM, 10AM, 11AM |
| Fallback.FallbackNoonLabels | src/lib/scheduler.ts:164-169 | starting at 11, two tasks are labelled 11AM, 12PM |
| Fallback.FallbackOrder | src/lib/scheduler.ts:135-157 | on a rank-consistent input the entries are in Rank order and keep input order within a Rank |
| Fallback.FallbackPriorityFirst | src/lib/scheduler.ts:136-154 | on a rank-consistent input every priority task is scheduled before every other task, and within equal priority non-family tasks before family tasks |
| Fallback.FallbackExplanation | src/lib/scheduler.ts:178-196 | the explanation has the meeting, outdoor and family bullets exactly for the categories detected in the input |
| Fallback.ScenarioSort | src/lib/scheduler.ts:135-157 | a run, a meeting and a family errand sort to meeting, run, errand |
| Fallback.FallbackScenario | src/lib/scheduler.ts:135-196 | for those three tasks the schedule lists meeting, run, errand and carries all three bullets |
| Fallback.ThreeTaskScenario | src/lib/scheduler.ts:135-196 | on a run, a team meeting and a school pickup, written with capitals as "Go for a 20 minute run", "Team meeting", "Pick up daughter" the schedule has three entries, "Team meeting" first, the run second, the errand last, and all three bullets |
| Fallback.FallbackSchedule | src/lib/scheduler.ts:127-202 | one entry per input task; FallbackPermutes, FallbackLabels, FallbackOrder and FallbackExplanation state the rest |
| Fallback.Slots | src/lib/scheduler.ts:160-175 | one slot per sorted task; SlotsStep is the push of one entry, and FallbackLabels gives each entry's label |
| Fallback.ExplanationFor | src/lib/scheduler.ts:178-196 | the explanation for a set of categories; ExplanationRoundTrip proves that it determines exactly which bullets it carries |
| Fallback.HasMeetings | src/lib/scheduler.ts:180 | some task mentions "meeting"; PrepareWithoutMeetingBullet shows "prepare" alone does not count |
| Fallback.HasOutdoor | src/lib/scheduler.ts:181 | some task is outdoor; FallbackExplanation ties it to the outdoor bullet |
| Fallback.HasFamily | src/lib/scheduler.ts:182 | some task is a family task; FallbackExplanation ties it to the family bullet |
| Fallback.Detect | src/lib/scheduler.ts:180-182 | the three category flags of the input; FallbackExplanation proves they are exactly the bullets read back |
| Json.Truthy | src/lib/scheduler.ts:104-111 | the truthiness behind `!parsedSchedule.tasks`, `!parsedSchedule.explanation` and `task.time || "Anytime"`: null, false, 0 and "" are falsy, every array and every object truthy; CheckStructure and TimeOrAnytime state what follows from it |
| Json.Property | src/lib/scheduler.ts:104 | reading a property throws exactly on null, and is defined exactly for a key the object has, with that key's value |
| Response.BraceSpan | src/lib/scheduler.ts:88 | the regex match runs from the first '{' to the last '}', and there is none exactly when no '{' comes before a '}' |
| Response.BraceBlock | src/lib/scheduler.ts:88-91 | the extracted block starts with '{' and ends with '}', exists exactly when the span does, and is exactly the text from the span's first '{' to its last '}' (the greedy match) |
| Response.BraceBlockGreedy | src/lib/scheduler.ts:88 | the greedy match runs past an earlier closing brace to the last one |
| Response.ParseTextStages | src/lib/scheduler.ts:81-101 | the direct parse wins; otherwise the block's parse; a block the parser rejects too fails with BlockUnparsable; failure only for those two reasons, and no block exactly when no '{' precedes a '}' |
| Response.CheckStructure | src/lib/scheduler.ts:104-107 | a value passes exactly when it is an object whose `tasks` is an array and whose `explanation` is truthy; null throws |
| Response.NormaliseEntry | src/lib/scheduler.ts:110-113 | a rebuilt entry has a truthy `time`, its own when truthy and "Anytime" otherwise, and the same `task`; a null entry throws |
| Response.NormaliseEntries | src/lib/scheduler.ts:110-113 | the map fails exactly when some entry is null, and otherwise keeps the count and rebuilds every entry in place |
| Response.ToJson | src/lib/scheduler.ts:198-201 | the local schedule as an object with exactly `tasks` and `explanation`, entry by entry |
| Response.FallbackShaped | src/lib/scheduler.ts:160-201 | the local schedule has a tasks array of entries with truthy times and a truthy explanation |
| Response.GenerateSchedule | src/lib/scheduler.ts:17-124 | whatever the key, answer and parser, the result is schedule-shaped |
| Response.RemoteResult | src/lib/scheduler.ts:104-115 | an accepted value keeps every property but `tasks`, and keeps the entry count, with each entry's time normalised and its task passed through |
| Response.RemoteShaped | src/lib/scheduler.ts:103-115 | whatever the remote path returns is schedule-shaped |
| Response.MissingKeyFallsBack | src/lib/scheduler.ts:20-24 | without a key the local schedule is returned, whatever the answer would be |
| Response.NoKeyThreeTasks | src/lib/scheduler.ts:20-24 | with no key, the run, the team meeting and the school pickup come back as the local schedule with the meeting first, the run second, the errand last and all three bullets |
| Response.LocalExactlyOnGivingUp | src/lib/scheduler.ts:17-124 | the local schedule is returned exactly when the remote path gives up, and the remote value otherwise |
| Response.GivingUpCases | src/lib/scheduler.ts:68-123 | with a key, the remote path gives up exactly on a failed request, a failed parse, a bad structure or a null entry |
| Response.NoJsonFallsBack | src/lib/scheduler.ts:96-99 | an unparsable answer with no '{' at all yields the local schedule |
| Response.UnparsableBlockFallsBack | src/lib/scheduler.ts:88-122 | an unparsable answer whose {...} block the parser rejects too yields the local schedule, for the reason BlockUnparsable |
| Response.ParseText | src/lib/scheduler.ts:81-101 | the staged parse; ParseTextStages states which value it settles on and when it fails |
| Response.Resolve | src/lib/scheduler.ts:17-124 | the remote path's outcome; GivingUpCases, RemoteResult and MissingKeyFallsBack state when it gives up and what it returns |
| Response.TimeOrAnytime | src/lib/scheduler.ts:111 | the normalised time is always truthy; a truthy time is kept as it is, and otherwise the time is "Anytime" |
| Response.KeyPresent | src/lib/scheduler.ts:20 | a configured, non-empty key; MissingKeyFallsBack states what its absence does |
| Prompt.SplitJoin | src/lib/scheduler.ts:28 | splitting at line feeds undoes joining lines that have none |
| Prompt.TaskLineParts | src/lib/scheduler.ts:28 | a task line is "- " followed by the task, with no line feed added |
| Prompt.BodyRoundTrip | src/lib/scheduler.ts:28 | the joined task lines read back as the task list |
| Prompt.PromptRoundTrip | src/lib/scheduler.ts:27-41 | the prompt carries every task in order: reading it back gives the task list, when no task has a line feed |
| Prompt.BuildPrompt | src/lib/scheduler.ts:27-41 | the prompt starts with the fixed opening line and ends with the fixed instructions; PromptRoundTrip proves the tasks between them read back |
| Prompt.JoinLines | src/lib/scheduler.ts:28 | `join` with a line feed; SplitJoin proves splitting undoes it |
| Prompt.TaskLines | src/lib/scheduler.ts:28 | one line per task; TaskLineParts states each line's form |
| TaskInputComponent.FilterIndexRemoves | src/components/TaskInput.tsx:29-31 | filtering by position deletes exactly the element at an in-range index and keeps the others in order; any other index keeps all |
| TaskInputComponent.FilterIndex | src/components/TaskInput.tsx:30 | `filter` by position; FilterIndexRemoves proves it deletes exactly the element at an in-range index |
| TaskInputComponent.CleanIsOwnTrim | src/components/TaskInput.tsx:16-21 | a stored task is exactly a non-empty text equal to its own trim |
| TaskInputComponent.TrimmedIsClean | src/components/TaskInput.tsx:17-18 | the trim of a non-blank text is a valid stored task |
| TaskInputComponent.TaskInput.constructor | src/components/TaskInput.tsx:11-14 | the editor starts with no tasks, empty inputs and no row being edited |
| TaskInputComponent.TaskInput.ChangeCurrentTask | src/components/TaskInput.tsx:69 | typing sets the new-task text and changes nothing else |
| TaskInputComponent.TaskInput.AddTask | src/components/TaskInput.tsx:16-21 | a non-blank text is appended trimmed and the input cleared; a blank text changes nothing; every stored task stays clean |
| TaskInputComponent.TaskInput.KeyDown | src/components/TaskInput.tsx:23-27 | Enter adds the task as AddTask does; any other key changes nothing |
| TaskInputComponent.TaskInput.RemoveTask | src/components/TaskInput.tsx:29-31 | an in-range index deletes exactly that task, keeping the others in order; any other index changes nothing |
| TaskInputComponent.TaskInput.EditTask | src/components/TaskInput.tsx:33-36 | the row becomes the one being edited, with its text; the tasks are unchanged |
| TaskInputComponent.TaskInput.ChangeEditedTask | src/components/TaskInput.tsx:96 | typing sets the edited text and changes nothing else |
| TaskInputComponent.TaskInput.UpdateTask | src/components/TaskInput.tsx:38-45 | a non-blank text replaces only the task at the index, trimmed; a blank text keeps it; either way editing ends and every stored task stays clean |
| TaskInputComponent.TaskInput.Submit | src/components/TaskInput.tsx:47-51 | the list is handed on exactly when it is not empty, and then unchanged and clean |

## Left out

- The HTTP request, its status check and the answer envelope (src/lib/scheduler.ts:43-77). These are network I/O. The model receives the answer's text, or `None` when any of these steps throws.
- JSON.parse is a library parser, so it is a parameter of the model. The model does not describe which texts parse.
- JSON numbers are integers in `Json.JsonValue`. Floating point plays no part in the decisions modelled.
- A property that exists but holds `undefined` cannot come out of JSON.parse. A `task` that reads as undefined is modelled as a key left out of the rebuilt entry.
- The clock (`new Date()`, src/lib/scheduler.ts:129) is the `(hour, minute)` parameters.
- The API key from the build environment (src/lib/scheduler.ts:15) is an `Option<string>` parameter.
- The toast and console calls are side effects with no bearing on the result.
- The content type of the answer text is not modelled. The source assumes it is a string.
- `toLowerCase` and `trim` are modelled on ASCII only. The model has no Unicode case mapping, and no Unicode whitespace beyond the six ASCII whitespace characters.
- `Array.prototype.sort` is replaced by a stable insertion sort using the same comparator. Its result for an inconsistent comparator is implementation-defined, so order is claimed only on rank-consistent inputs.
- The fallback's start hour is not reduced modulo 24, and neither are its labels, because the code does neither.
- Fallback.ExplanationFor: the explanation is specified by its read-back (`ReadCategories`) rather than by an `ensures` on the function itself.
- Text.Trim: its contract is split. `Trim` states that the result is trimmed and when it is empty. `TrimIsMiddle` and `TrimDropsSpace` state where the result sits in the text.
- TaskInputComponent.TaskInput.EditTask and UpdateTask require an in-range index. Their only callers are the rows of the rendered list (src/components/TaskInput.tsx:97-98, 107), which pass their own positions.
- The rendering in TaskInput.tsx is not part of this model, and neither is the disabled state of the submit button.
- src/pages/Index.tsx, src/components/Schedule.tsx, src/components/TaskItem.tsx, src/components/LoadingIndicator.tsx and src/components/Layout.tsx are not part of this model. They hold UI state, timers and markup.
