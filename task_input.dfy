/** The task editor component (src/components/TaskInput.tsx:10-51): a list
    of tasks, the text being typed, and the row being edited with its text.
    The React state hooks become the fields of a class; each handler becomes
    a method that updates them. The onSubmit callback becomes a returned
    value. */
module TaskInputComponent {
  import opened Wrappers
  import opened Text

  /** tasks.filter((_, i) => i !== index): every element but the one at
      `index`, in order. */
  function FilterIndex(s: seq<string>, index: int): seq<string> {
    if s == [] then []
    else FilterIndex(s[..|s| - 1], index) + (if |s| - 1 != index then [s[|s| - 1]] else [])
  }

  /** Filtering by position deletes exactly the element at an in-range
      index and keeps the others in order; any other index keeps them all. */
  lemma {:induction false} FilterIndexRemoves(s: seq<string>, index: int)
    ensures 0 <= index < |s| ==> FilterIndex(s, index) == s[..index] + s[index + 1..]
    ensures !(0 <= index < |s|) ==> FilterIndex(s, index) == s
  {
    if s != [] {
      var init := s[..|s| - 1];
      FilterIndexRemoves(init, index);
      if index == |s| - 1 {
        assert s[..index] == init;
        assert s[index + 1..] == [];
      } else if 0 <= index < |s| - 1 {
        assert init[..index] == s[..index];
        assert init[index + 1..] + [s[|s| - 1]] == s[index + 1..];
      } else {
        assert init + [s[|s| - 1]] == s;
      }
    }
  }

  /** A stored task: not empty, and no whitespace at either end. */
  predicate Clean(task: string) {
    task != "" && IsTrimmed(task)
  }

  /** A clean task is exactly a non-empty text that is its own trim. */
  lemma CleanIsOwnTrim(task: string)
    ensures Clean(task) <==> task != "" && Trim(task) == task
  {
    if IsTrimmed(task) {
      TrimOfTrimmed(task);
    }
  }

  /** The trim of a text that is not blank is a clean task. */
  lemma TrimmedIsClean(text: string)
    requires Trim(text) != ""
    ensures Clean(Trim(text))
  {
  }

  class TaskInput {
    var tasks: seq<string>
    var currentTask: string
    var editingIndex: Option<int>
    var editedTask: string

    /** Every stored task is clean: non-empty and its own trim. */
    ghost predicate Valid()
      reads this
    {
      forall i :: 0 <= i < |tasks| ==> Clean(tasks[i])
    }

    /** The initial state: no tasks, empty inputs, nothing being edited. */
    constructor ()
      ensures Valid()
      ensures tasks == [] && currentTask == "" && editingIndex == None && editedTask == ""
    {
      tasks := [];
      currentTask := "";
      editingIndex := None;
      editedTask := "";
    }

    /** Typing into the new-task input. */
    method ChangeCurrentTask(value: string)
      requires Valid()
      modifies this
      ensures Valid()
      ensures currentTask == value
      ensures tasks == old(tasks) && editingIndex == old(editingIndex) && editedTask == old(editedTask)
    {
      currentTask := value;
    }

    /** handleAddTask: a text that is not blank is trimmed, appended and
      cleared; a blank text changes nothing. */
    method AddTask()
      requires Valid()
      modifies this
      ensures Valid()
      ensures Trim(old(currentTask)) != "" ==> tasks == old(tasks) + [Trim(old(currentTask))] && currentTask == ""
      ensures Trim(old(currentTask)) == "" ==> tasks == old(tasks) && currentTask == old(currentTask)
      ensures editingIndex == old(editingIndex) && editedTask == old(editedTask)
    {
      var trimmed := Trim(currentTask);
      if trimmed != "" {
        TrimmedIsClean(currentTask);
        tasks := tasks + [trimmed];
        currentTask := "";
      }
    }

    /** handleKeyDown: Enter adds the task, any other key does nothing. */
    method KeyDown(key: string)
      requires Valid()
      modifies this
      ensures Valid()
      ensures key == "Enter" && Trim(old(currentTask)) != "" ==>
        tasks == old(tasks) + [Trim(old(currentTask))] && currentTask == ""
      ensures key != "Enter" || Trim(old(currentTask)) == "" ==>
        tasks == old(tasks) && currentTask == old(currentTask)
      ensures editingIndex == old(editingIndex) && editedTask == old(editedTask)
    {
      if key == "Enter" {
        AddTask();
      }
    }

    /** handleRemoveTask: drops the task at `index`; any index outside the
      list changes nothing. */
    method RemoveTask(index: int)
      requires Valid()
      modifies this
      ensures Valid()
      ensures 0 <= index < |old(tasks)| ==> tasks == old(tasks)[..index] + old(tasks)[index + 1..]
      ensures !(0 <= index < |old(tasks)|) ==> tasks == old(tasks)
      ensures currentTask == old(currentTask) && editingIndex == old(editingIndex) && editedTask == old(editedTask)
    {
      FilterIndexRemoves(tasks, index);
      tasks := FilterIndex(tasks, index);
    }

    /** handleEditTask: opens the row at `index` for editing with its text. */
    method EditTask(index: int)
      requires Valid() && 0 <= index < |tasks|
      modifies this
      ensures Valid()
      ensures tasks == old(tasks) && currentTask == old(currentTask)
      ensures editingIndex == Some(index) && editedTask == tasks[index]
    {
      editingIndex := Some(index);
      editedTask := tasks[index];
    }

    /** Typing into the row being edited. */
    method ChangeEditedTask(value: string)
      requires Valid()
      modifies this
      ensures Valid()
      ensures editedTask == value
      ensures tasks == old(tasks) && currentTask == old(currentTask) && editingIndex == old(editingIndex)
    {
      editedTask := value;
    }

    /** handleUpdateTask: a text that is not blank replaces the task at
      `index`, trimmed; a blank text keeps the old task. Either way editing
      ends. */
    method UpdateTask(index: int)
      requires Valid() && 0 <= index < |tasks|
      modifies this
      ensures Valid()
      ensures Trim(old(editedTask)) != "" ==> tasks == old(tasks)[index := Trim(old(editedTask))]
      ensures Trim(old(editedTask)) == "" ==> tasks == old(tasks)
      ensures editingIndex == None
      ensures currentTask == old(currentTask) && editedTask == old(editedTask)
    {
      var trimmed := Trim(editedTask);
      if trimmed != "" {
        TrimmedIsClean(editedTask);
        tasks := tasks[index := trimmed];
      }
      editingIndex := None;
    }

    /** handleSubmit: the list is handed on only when it is not empty. */
    method Submit() returns (submitted: Option<seq<string>>)
      requires Valid()
      ensures submitted.Some? <==> |tasks| > 0
      ensures submitted.Some? ==> submitted.value == tasks && forall i :: 0 <= i < |tasks| ==> Clean(submitted.value[i])
    {
      if |tasks| > 0 {
        submitted := Some(tasks);
      } else {
        submitted := None;
      }
    }
  }
}
