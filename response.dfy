/** The decision logic of generateSchedule (src/lib/scheduler.ts:17-124):
    whether the remote answer is used, how its text is turned into a value,
    which values are accepted, how accepted entries are normalised, and that
    every other path ends in the local fallback schedule.

    The network is not modelled: the answer's text arrives as a parameter,
    None when the request, its status check or the envelope lookup fails.
    JSON.parse is the parameter `parse`, None when it throws. */
module Response {
  import opened Wrappers
  import opened Text
  import opened Json
  import opened Fallback

  /** Why the local schedule was used. */
  datatype Reason =
    | MissingKey           // no API key configured (line 20)
    | RequestFailed        // the request or the envelope lookup threw (lines 44-77)
    | NoJsonBlock          // the text is not JSON and has no {...} block (lines 96-99)
    | BlockUnparsable      // the {...} block is not JSON either (lines 92-94)
    | InvalidStructure     // no tasks array or no truthy explanation (lines 104-106)
    | NullDereference      // a property read on null threw (lines 104, 111)

  /** Either the normalised remote schedule or the local one, with the reason. */
  datatype Outcome = Remote(schedule: JsonValue) | Local(reason: Reason)

  // ---------------------------------------------------------------------
  // Extracting a JSON block from free text

  /** The span matched by /\{[\s\S]*\}/: the leftmost match starts at the
      first '{', and the greedy middle carries it to the last '}'. There is
      a match exactly when some '{' comes before some '}'. */
  function BraceSpan(text: string): (r: Option<(nat, nat)>)
    ensures r.Some? ==> r.value.0 < r.value.1 < |text|
    ensures r.Some? ==> text[r.value.0] == '{' && forall k :: 0 <= k < r.value.0 ==> text[k] != '{'
    ensures r.Some? ==> text[r.value.1] == '}' && forall k :: r.value.1 < k < |text| ==> text[k] != '}'
    ensures r.None? <==> forall p, q :: 0 <= p < q < |text| && text[p] == '{' ==> text[q] != '}'
  {
    match (FirstIndex(text, '{'), LastIndex(text, '}'))
    case (Some(i), Some(j)) => if i < j then Some((i, j)) else None
    case _ => None
  }

  /** The matched text, braces included. */
  function BraceBlock(text: string): (r: Option<string>)
    ensures r.Some? ==> |r.value| >= 2 && r.value[0] == '{' && r.value[|r.value| - 1] == '}'
    ensures r.Some? ==> exists i :: OccursAt(text, r.value, i)
    ensures r.None? <==> BraceSpan(text).None?
    ensures r.Some? ==> OccursAt(text, r.value, BraceSpan(text).value.0)
    ensures r.Some? ==> |r.value| == BraceSpan(text).value.1 + 1 - BraceSpan(text).value.0
  {
    match BraceSpan(text)
    case None => None
    case Some((i, j)) =>
      assert OccursAt(text, text[i..j + 1], i);
      Some(text[i..j + 1])
  }

  /** The greedy match runs to the last closing brace, past earlier ones. */
  lemma BraceBlockGreedy()
    ensures BraceBlock("ok {a} {b}!") == Some("{a} {b}")
  {
    var text := "ok {a} {b}!";
    assert FirstIndex(text, '{') == Some(3) by {
      assert text[3] == '{';
      assert text[0] != '{' && text[1] != '{' && text[2] != '{';
    }
    assert LastIndex(text, '}') == Some(9) by {
      assert text[9] == '}' && text[10] != '}';
    }
    assert text[3..10] == "{a} {b}";
  }

  // ---------------------------------------------------------------------
  // The staged parse

  /** Parse the text as it is; when that throws, parse the {...} block in it;
      when there is none, give up with NoJsonBlock, and when the block does
      not parse either, with BlockUnparsable. */
  function ParseText(text: string, parse: string -> Option<JsonValue>): Result<JsonValue, Reason> {
    match parse(text)
    case Some(v) => Ok(v)
    case None =>
      match BraceBlock(text)
      case None => Err(NoJsonBlock)
      case Some(block) =>
        match parse(block)
        case Some(v) => Ok(v)
        case None => Err(BlockUnparsable)
  }

  /** Which value the staged parse settles on, stage by stage, and that it
      fails only for the two reasons of the second stage. */
  lemma ParseTextStages(text: string, parse: string -> Option<JsonValue>)
    ensures parse(text).Some? ==> ParseText(text, parse) == Ok(parse(text).value)
    ensures parse(text).None? && BraceBlock(text).Some? && parse(BraceBlock(text).value).Some? ==>
      ParseText(text, parse) == Ok(parse(BraceBlock(text).value).value)
    ensures parse(text).None? && BraceBlock(text).Some? && parse(BraceBlock(text).value).None? ==>
      ParseText(text, parse) == Err(BlockUnparsable)
    ensures ParseText(text, parse).Err? ==>
      ParseText(text, parse).error == NoJsonBlock || ParseText(text, parse).error == BlockUnparsable
    ensures ParseText(text, parse) == Err(NoJsonBlock) <==>
      parse(text).None? && forall p, q :: 0 <= p < q < |text| && text[p] == '{' ==> text[q] != '}'
  {
  }

  // ---------------------------------------------------------------------
  // The structural check and the normalisation

  /** The check at line 104: `tasks` is truthy and an array, and
      `explanation` is truthy. Reading `tasks` off null throws. On success
      the array's entries are returned. */
  function CheckStructure(v: JsonValue): (r: Result<seq<JsonValue>, Reason>)
    ensures r.Ok? <==> (v.JObject? && "tasks" in v.fields && v.fields["tasks"].JArray? &&
      TruthyProperty(v, "explanation"))
    ensures r.Ok? ==> v.fields["tasks"] == JArray(r.value)
    ensures r.Err? ==> (r.error == NullDereference <==> v.JNull?)
    ensures r.Err? ==> r.error == NullDereference || r.error == InvalidStructure
  {
    match Property(v, "tasks")
    case Thrown => Err(NullDereference)
    case Undefined => Err(InvalidStructure)
    case Defined(tasks) =>
      if !Truthy(tasks) || !tasks.JArray? || !TruthyProperty(v, "explanation") then Err(InvalidStructure)
      else Ok(tasks.items)
  }

  /** The `time` an entry ends up with: its own when truthy, else "Anytime". */
  function TimeOrAnytime(entry: JsonValue): (r: JsonValue)
    ensures Truthy(r)
    ensures r == JString("Anytime") || Property(entry, "time") == Defined(r)
    ensures TruthyProperty(entry, "time") ==> r == entry.fields["time"]
  {
    if TruthyProperty(entry, "time") then entry.fields["time"] else JString("Anytime")
  }

  /** One entry rebuilt as {time: entry.time || "Anytime", task: entry.task}.
      A `task` that reads as undefined is left out of the new object. Reading
      off a null entry throws. */
  function NormaliseEntry(entry: JsonValue): (r: Result<JsonValue, Reason>)
    ensures r.Err? <==> entry.JNull?
    ensures r.Ok? ==> r.value.JObject? && r.value.fields.Keys <= {"time", "task"}
    ensures r.Ok? ==> Property(r.value, "time") == Defined(TimeOrAnytime(entry))
    ensures r.Ok? ==> Property(r.value, "task") == Property(entry, "task")
    ensures r.Ok? ==> TruthyProperty(r.value, "time")
  {
    match Property(entry, "time")
    case Thrown => Err(NullDereference)
    case _ =>
      var fields := map["time" := TimeOrAnytime(entry)];
      match Property(entry, "task")
      case Defined(task) => Ok(JObject(fields["task" := task]))
      case _ => Ok(JObject(fields))
  }

  /** The map over all entries: it throws at the first null entry, and
      otherwise rebuilds each entry in place. */
  function NormaliseEntries(items: seq<JsonValue>): (r: Result<seq<JsonValue>, Reason>)
    ensures r.Err? <==> exists k :: 0 <= k < |items| && items[k].JNull?
    ensures r.Err? ==> r.error == NullDereference
    ensures r.Ok? ==> |r.value| == |items|
    ensures r.Ok? ==> forall k :: 0 <= k < |items| ==> NormaliseEntry(items[k]) == Ok(r.value[k])
  {
    if items == [] then Ok([])
    else
      match NormaliseEntry(items[0])
      case Err(e) => Err(e)
      case Ok(first) =>
        match NormaliseEntries(items[1..])
        case Err(e) => Err(e)
        case Ok(rest) => Ok([first] + rest)
  }

  // ---------------------------------------------------------------------
  // The whole decision

  /** `!API_KEY` is false: a key is configured and is not empty. */
  predicate KeyPresent(apiKey: Option<string>) {
    apiKey.Some? && apiKey.value != ""
  }

  /** The remote path: parse, check, normalise, and return the parsed object
      with its `tasks` replaced by the normalised entries. */
  function Resolve(apiKey: Option<string>, response: Option<string>, parse: string -> Option<JsonValue>): Outcome {
    if !KeyPresent(apiKey) then Local(MissingKey)
    else match response
      case None => Local(RequestFailed)
      case Some(text) =>
        match ParseText(text, parse)
        case Err(reason) => Local(reason)
        case Ok(v) =>
          match CheckStructure(v)
          case Err(reason) => Local(reason)
          case Ok(items) =>
            match NormaliseEntries(items)
            case Err(reason) => Local(reason)
            case Ok(entries) => Remote(JObject(v.fields["tasks" := JArray(entries)]))
  }

  /** A value a caller can render as a schedule: an object whose `tasks` is
      an array of objects with a truthy `time`, and whose `explanation` is
      truthy. */
  predicate ScheduleShaped(v: JsonValue) {
    v.JObject? && "tasks" in v.fields && v.fields["tasks"].JArray? &&
    (forall e :: e in v.fields["tasks"].items ==> e.JObject? && TruthyProperty(e, "time")) &&
    TruthyProperty(v, "explanation")
  }

  /** A local schedule as the object the caller receives. */
  function ToJson(s: Schedule): (r: JsonValue)
    ensures r.JObject? && r.fields.Keys == {"tasks", "explanation"}
    ensures r.fields["tasks"].JArray? && |r.fields["tasks"].items| == |s.tasks|
    ensures forall k :: 0 <= k < |s.tasks| ==>
      r.fields["tasks"].items[k] == JObject(map["time" := JString(s.tasks[k].time), "task" := JString(s.tasks[k].task)])
    ensures r.fields["explanation"] == JString(s.explanation)
  {
    JObject(map[
      "tasks" := JArray(seq(|s.tasks|, k requires 0 <= k < |s.tasks| =>
        JObject(map["time" := JString(s.tasks[k].time), "task" := JString(s.tasks[k].task)]))),
      "explanation" := JString(s.explanation)])
  }

  /** The local schedule is schedule-shaped: every label and the
      explanation are non-empty text. */
  lemma {:induction false} FallbackShaped(tasks: seq<string>, hour: int, minute: int)
    ensures ScheduleShaped(ToJson(FallbackSchedule(tasks, hour, minute)))
  {
    var s := FallbackSchedule(tasks, hour, minute);
    var r := ToJson(s);
    forall e | e in r.fields["tasks"].items ensures e.JObject? && TruthyProperty(e, "time") {
      var k :| 0 <= k < |r.fields["tasks"].items| && r.fields["tasks"].items[k] == e;
      FallbackLabels(tasks, hour, minute, k);
    }
    assert |s.explanation| >= |Preamble| by {
      assert s.explanation == Preamble + (Optional(HasMeetings(tasks), MeetingBullet)
        + (Optional(HasOutdoor(tasks), OutdoorBullet) + (Optional(HasFamily(tasks), FamilyBullet) + Closing)));
    }
  }

  /** generateSchedule: the remote schedule when there is one, and otherwise
      the local schedule for the same tasks and clock. It always yields a
      schedule-shaped value. */
  function GenerateSchedule(apiKey: Option<string>, response: Option<string>, parse: string -> Option<JsonValue>,
                            tasks: seq<string>, hour: int, minute: int): (r: JsonValue)
    ensures ScheduleShaped(r)
  {
    match Resolve(apiKey, response, parse)
    case Remote(v) =>
      RemoteShaped(apiKey, response, parse);
      v
    case Local(_) =>
      FallbackShaped(tasks, hour, minute);
      ToJson(FallbackSchedule(tasks, hour, minute))
  }

  /** An accepted remote value keeps everything but `tasks`, which becomes
      the normalised entries. */
  lemma {:induction false} RemoteResult(apiKey: Option<string>, text: string, parse: string -> Option<JsonValue>, v: JsonValue)
    requires KeyPresent(apiKey) && ParseText(text, parse) == Ok(v)
    requires CheckStructure(v).Ok? && NormaliseEntries(CheckStructure(v).value).Ok?
    ensures var items := CheckStructure(v).value;
      var r := Resolve(apiKey, Some(text), parse);
      r.Remote? && r.schedule.JObject? &&
      (forall key :: key != "tasks" ==> Property(r.schedule, key) == Property(v, key)) &&
      r.schedule.fields["tasks"].JArray? &&
      |r.schedule.fields["tasks"].items| == |items| &&
      (forall k :: 0 <= k < |items| ==>
        Property(r.schedule.fields["tasks"].items[k], "time") == Defined(TimeOrAnytime(items[k])) &&
        Property(r.schedule.fields["tasks"].items[k], "task") == Property(items[k], "task"))
  {
    var items := CheckStructure(v).value;
    var entries := NormaliseEntries(items).value;
    forall k | 0 <= k < |items|
      ensures Property(entries[k], "time") == Defined(TimeOrAnytime(items[k]))
      ensures Property(entries[k], "task") == Property(items[k], "task")
    {
      assert NormaliseEntry(items[k]) == Ok(entries[k]);
    }
  }

  /** Whatever the remote path returns is schedule-shaped. */
  lemma {:induction false} RemoteShaped(apiKey: Option<string>, response: Option<string>, parse: string -> Option<JsonValue>)
    requires Resolve(apiKey, response, parse).Remote?
    ensures ScheduleShaped(Resolve(apiKey, response, parse).schedule)
  {
    var v := ParseText(response.value, parse).value;
    var items := CheckStructure(v).value;
    var entries := NormaliseEntries(items).value;
    var r := Resolve(apiKey, response, parse).schedule;
    assert r == JObject(v.fields["tasks" := JArray(entries)]);
    forall e | e in entries ensures e.JObject? && TruthyProperty(e, "time") {
      var k :| 0 <= k < |entries| && entries[k] == e;
      assert NormaliseEntry(items[k]) == Ok(e);
    }
    assert Property(r, "explanation") == Property(v, "explanation");
  }

  // ---------------------------------------------------------------------
  // When the local schedule is used

  /** Without an API key the local schedule is returned, whatever the
      remote side would have said. */
  lemma MissingKeyFallsBack(apiKey: Option<string>, response: Option<string>, parse: string -> Option<JsonValue>,
                            tasks: seq<string>, hour: int, minute: int)
    requires !KeyPresent(apiKey)
    ensures Resolve(apiKey, response, parse) == Local(MissingKey)
    ensures GenerateSchedule(apiKey, response, parse, tasks, hour, minute) == ToJson(FallbackSchedule(tasks, hour, minute))
  {
  }

  /** A run, a team meeting and a school pickup, end to end: with no API
      key the three tasks come back as the local schedule, meeting first, run second,
      errand last, with all three bullets in the explanation. */
  lemma NoKeyThreeTasks(response: Option<string>, parse: string -> Option<JsonValue>, hour: int, minute: int)
    ensures var tasks := ["Go for a 20 minute run", "Team meeting", "Pick up daughter"];
      var s := FallbackSchedule(tasks, hour, minute);
      GenerateSchedule(None, response, parse, tasks, hour, minute) == ToJson(s) &&
      TaskNames(s.tasks) == ["Team meeting", "Go for a 20 minute run", "Pick up daughter"] &&
      ReadCategories(s.explanation) == Some(Categories(true, true, true))
  {
    var tasks := ["Go for a 20 minute run", "Team meeting", "Pick up daughter"];
    MissingKeyFallsBack(None, response, parse, tasks, hour, minute);
    ThreeTaskScenario(hour, minute);
  }

  /** The local schedule is returned exactly when the remote path gives up,
      for whichever reason. */
  lemma LocalExactlyOnGivingUp(apiKey: Option<string>, response: Option<string>, parse: string -> Option<JsonValue>,
                               tasks: seq<string>, hour: int, minute: int)
    ensures Resolve(apiKey, response, parse).Local? ==>
      GenerateSchedule(apiKey, response, parse, tasks, hour, minute) == ToJson(FallbackSchedule(tasks, hour, minute))
    ensures Resolve(apiKey, response, parse).Remote? ==>
      GenerateSchedule(apiKey, response, parse, tasks, hour, minute) == Resolve(apiKey, response, parse).schedule
  {
  }

  /** With a key, the remote path gives up exactly when: the request fails;
      the text is not JSON and holds no {...} block or an unparsable one; the
      value lacks a tasks array or a truthy explanation; or an entry is
      null. */
  lemma GivingUpCases(apiKey: Option<string>, response: Option<string>, parse: string -> Option<JsonValue>)
    requires KeyPresent(apiKey)
    ensures response.None? ==> Resolve(apiKey, response, parse) == Local(RequestFailed)
    ensures response.Some? && ParseText(response.value, parse).Err? ==>
      Resolve(apiKey, response, parse) == Local(ParseText(response.value, parse).error)
    ensures response.Some? && ParseText(response.value, parse).Ok? ==>
      var v := ParseText(response.value, parse).value;
      (Resolve(apiKey, response, parse).Local? <==>
        !(v.JObject? && "tasks" in v.fields && v.fields["tasks"].JArray? && TruthyProperty(v, "explanation")) ||
        exists k :: 0 <= k < |v.fields["tasks"].items| && v.fields["tasks"].items[k].JNull?)
  {
  }

  /** A reply with no JSON in it at all falls back to the local schedule. */
  lemma {:induction false} NoJsonFallsBack(apiKey: Option<string>, text: string, parse: string -> Option<JsonValue>,
                        tasks: seq<string>, hour: int, minute: int)
    requires KeyPresent(apiKey) && parse(text).None?
    requires forall k :: 0 <= k < |text| ==> text[k] != '{'
    ensures Resolve(apiKey, Some(text), parse) == Local(NoJsonBlock)
    ensures GenerateSchedule(apiKey, Some(text), parse, tasks, hour, minute) == ToJson(FallbackSchedule(tasks, hour, minute))
  {
    ParseTextStages(text, parse);
  }

  /** A {...} block that the parser rejects too gives the local schedule
      (lines 90-94 throw, and the catch at lines 117-122 falls back). */
  lemma {:induction false} UnparsableBlockFallsBack(apiKey: Option<string>, text: string, parse: string -> Option<JsonValue>,
                                tasks: seq<string>, hour: int, minute: int)
    requires KeyPresent(apiKey) && parse(text).None?
    requires BraceBlock(text).Some? && parse(BraceBlock(text).value).None?
    ensures Resolve(apiKey, Some(text), parse) == Local(BlockUnparsable)
    ensures GenerateSchedule(apiKey, Some(text), parse, tasks, hour, minute) == ToJson(FallbackSchedule(tasks, hour, minute))
  {
    ParseTextStages(text, parse);
  }
}
