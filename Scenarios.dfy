/** Clients of TodoApp: handler call sequences, with what the handlers'
    specifications alone let a caller conclude about them. Titles are
    parameters, so each sequence covers every title with content. Not every
    sequence can come from the UI: no control calls cancelEditing, and a row in
    edit mode shows no Delete button. */
module Scenarios {
  import opened Tasks
  import opened App
  import Text

  /** Typing a title and adding it twice gives two tasks with that title, told
      apart only by their ids. */
  method AddSameTitleTwice(a: TaskId, b: TaskId, title: string)
    requires a != b && Text.HasContent(title)
  {
    Text.CanAddIffHasContent(title);
    var app := new TodoApp();
    app.HandleInputChange(title);
    app.AddTask(a);
    app.HandleInputChange(title);
    app.AddTask(b);
    ghost var two := app.tasks;
    assert two == [Task(a, title, false), Task(b, title, false)];
    assert two[0].id != two[1].id;
  }

  /** Adding enables the button while the input has content; afterwards the
      input is empty and the button disabled, yet its colour stays Blue. */
  method ButtonAroundAdd(a: TaskId, title: string)
    requires Text.HasContent(title)
  {
    var app := new TodoApp();
    app.HandleInputChange(title);
    assert app.AddEnabled() && app.buttonColor == Blue by {
      Text.CanAddIffHasContent(title);
    }
    app.AddTask(a);
    assert app.taskTitle == "" && !app.AddEnabled();
    assert app.buttonColor == Blue;
  }

  /** An empty or all-whitespace input leaves the list and the input alone. */
  method AddBlankIsIgnored(a: TaskId, blank: string)
    requires !Text.HasContent(blank)
  {
    Text.CanAddIffHasContent(blank);
    var app := new TodoApp();
    app.HandleInputChange(blank);
    assert !app.AddEnabled() && app.buttonColor == Grey;
    app.AddTask(a);
    assert app.tasks == [] && app.taskTitle == blank;
  }

  /** Toggling a task twice restores the list, and the other task is never touched. */
  method ToggleTwice(a: TaskId, b: TaskId, t1: string, t2: string)
    requires a != b && Text.HasContent(t1) && Text.HasContent(t2)
  {
    Text.CanAddIffHasContent(t1);
    Text.CanAddIffHasContent(t2);
    var app := new TodoApp();
    app.HandleInputChange(t1);
    app.AddTask(a);
    ghost var one := app.tasks;
    app.HandleInputChange(t2);
    app.AddTask(b);
    ghost var before := app.tasks;
    assert before == one + [Task(b, t2, false)];
    app.ToggleTaskStatus(a);
    assert app.tasks[0].done && !app.tasks[1].done;
    app.ToggleTaskStatus(a);
    ToggledTwice(before, a);
    assert app.tasks == before;
  }

  /** Opening an edit session, changing the draft and cancelling leaves every
      title as it was and the session closed (cancelEditing is called directly,
      since no control is bound to it). */
  method CancelEdit(a: TaskId, title: string, draft: string)
    requires Text.HasContent(title)
  {
    Text.CanAddIffHasContent(title);
    var app := new TodoApp();
    app.HandleInputChange(title);
    app.AddTask(a);
    ghost var before := app.tasks;
    app.StartEditing(a, title);
    app.UpdateDraft(draft);
    app.CancelEditing();
    assert app.tasks == before == [Task(a, title, false)];
    assert app.editMode == None && app.editTaskTitle == "";
  }

  /** Editing and losing focus commits the draft; a draft erased to nothing
      is committed too. */
  method EditAndBlur(a: TaskId, title: string, newTitle: string)
    requires Text.HasContent(title)
  {
    Text.CanAddIffHasContent(title);
    var app := new TodoApp();
    app.HandleInputChange(title);
    app.AddTask(a);
    app.StartEditing(a, title);
    app.UpdateDraft(newTitle);
    app.Blur();
    assert app.tasks == [Task(a, newTitle, false)];
    assert app.editMode == None && app.editTaskTitle == "";
    app.StartEditing(a, newTitle);
    app.UpdateDraft("");
    app.Blur();
    assert app.tasks == [Task(a, "", false)];
  }

  /** Calling deleteTask on the task being edited empties the list but keeps
      the edit session and its draft, which now name a task that no longer
      exists. The UI does not offer this call: the row being edited shows the
      edit field instead of its Delete button. */
  method DeleteWhileEditing(a: TaskId, title: string, draft: string)
    requires Text.HasContent(title)
  {
    Text.CanAddIffHasContent(title);
    var app := new TodoApp();
    app.HandleInputChange(title);
    app.AddTask(a);
    app.ToggleTaskStatus(a);
    assert app.tasks == [Task(a, title, true)];
    app.StartEditing(a, title);
    app.UpdateDraft(draft);
    app.DeleteTask(a);
    assert app.tasks == [];
    assert app.editMode == Some(a) && app.editTaskTitle == draft;
  }

  /** Two adds that draw the same id produce two tasks sharing it. */
  method AddWithReusedId(a: TaskId, t1: string, t2: string)
    requires Text.HasContent(t1) && Text.HasContent(t2)
  {
    Text.CanAddIffHasContent(t1);
    Text.CanAddIffHasContent(t2);
    var app := new TodoApp();
    app.HandleInputChange(t1);
    app.AddTask(a);
    ghost var one := app.tasks;
    app.HandleInputChange(t2);
    app.AddTask(a);
    ghost var two := app.tasks;
    assert two == one + [Task(a, t2, false)];
    assert two[0].id == two[1].id;
    assert !UniqueIds(two);
  }

  /** Two tasks that share an id are toggled, renamed and deleted together. */
  method CollidingIds(app: TodoApp, a: TaskId, newTitle: string)
    requires |app.tasks| == 2 && app.tasks[0].id == a && app.tasks[1].id == a
    modifies app
  {
    ghost var d0, d1 := app.tasks[0].done, app.tasks[1].done;
    app.ToggleTaskStatus(a);
    assert app.tasks[0].done == !d0 && app.tasks[1].done == !d1;
    app.SaveTaskTitle(a, newTitle);
    assert app.tasks[0].title == newTitle && app.tasks[1].title == newTitle;
    app.DeleteTask(a);
    assert app.tasks == [];
  }
}
