/** The `App` component's state and its handlers. Each `useState` slot is a
    field; each handler is a method that assigns the slots its setters assign,
    run as one atomic update. */
module App {
  import opened Tasks
  import Text

  datatype Option<T> = None | Some(value: T)

  /** The two colours the Add button is given: Grey is '#d3d3d3', Blue is '#007bff'. */
  datatype ButtonColor = Grey | Blue

  class TodoApp {
    /** The task list, in display order. */
    var tasks: seq<Task>
    /** The new-task input text. */
    var taskTitle: string
    /** The colour handed to the Add button. */
    var buttonColor: ButtonColor
    /** The id of the task whose edit field is shown, or None. */
    var editMode: Option<TaskId>
    /** The edit draft. */
    var editTaskTitle: string

    /** With no edit session there is no draft: established by the constructor
        and kept by every method. */
    predicate IdleHasNoDraft()
      reads this
    {
      editMode == None ==> editTaskTitle == ""
    }

    /** The initial values of the five state slots. */
    constructor ()
      ensures tasks == [] && taskTitle == "" && buttonColor == Grey
      ensures editMode == None && editTaskTitle == ""
      ensures IdleHasNoDraft()
    {
      tasks := [];
      taskTitle := "";
      buttonColor := Grey;
      editMode := None;
      editTaskTitle := "";
    }

    /** The Add button is enabled exactly when the input holds a non-whitespace
        character: the negation of its `disabled` condition. */
    function AddEnabled(): (enabled: bool)
      reads this
      ensures enabled <==> Text.HasContent(taskTitle)
    {
      Text.CanAddIffHasContent(taskTitle);
      Text.CanAdd(taskTitle)
    }

    /** addTask: when the trimmed input is non-empty, append one task with the
        given fresh id, the input as its title and `done` false, then clear the
        input and colour the button Blue; otherwise change nothing. */
    method AddTask(freshId: TaskId)
      modifies this
      ensures Text.CanAdd(old(taskTitle)) ==>
                tasks == old(tasks) + [Task(freshId, old(taskTitle), false)] &&
                taskTitle == "" && buttonColor == Blue
      ensures !Text.CanAdd(old(taskTitle)) ==>
                tasks == old(tasks) && taskTitle == old(taskTitle) && buttonColor == old(buttonColor)
      ensures editMode == old(editMode) && editTaskTitle == old(editTaskTitle)
      ensures old(IdleHasNoDraft()) ==> IdleHasNoDraft()
    {
      if Text.CanAdd(taskTitle) {
        tasks := tasks + [Task(freshId, taskTitle, false)];
        taskTitle := "";
        buttonColor := Blue;
      }
    }

    /** toggleTaskStatus: flip `done` on every task with this id. */
    method ToggleTaskStatus(id: TaskId)
      modifies this
      ensures tasks == Toggled(old(tasks), id)
      ensures taskTitle == old(taskTitle) && buttonColor == old(buttonColor)
      ensures editMode == old(editMode) && editTaskTitle == old(editTaskTitle)
      ensures old(IdleHasNoDraft()) ==> IdleHasNoDraft()
    {
      tasks := Toggled(tasks, id);
    }

    /** deleteTask: drop every task with this id. The edit session is left as
        it is, even when it names the deleted id. */
    method DeleteTask(id: TaskId)
      modifies this
      ensures tasks == Without(old(tasks), id)
      ensures taskTitle == old(taskTitle) && buttonColor == old(buttonColor)
      ensures editMode == old(editMode) && editTaskTitle == old(editTaskTitle)
      ensures old(IdleHasNoDraft()) ==> IdleHasNoDraft()
    {
      tasks := Without(tasks, id);
    }

    /** handleInputChange: store the input text and colour the button Blue
        exactly when the Add button is enabled. */
    method HandleInputChange(text: string)
      modifies this
      ensures taskTitle == text
      ensures buttonColor == (if Text.CanAdd(text) then Blue else Grey)
      ensures tasks == old(tasks)
      ensures editMode == old(editMode) && editTaskTitle == old(editTaskTitle)
      ensures old(IdleHasNoDraft()) ==> IdleHasNoDraft()
    {
      taskTitle := text;
      buttonColor := if Text.CanAdd(text) then Blue else Grey;
    }

    /** startEditing: open an edit session on this id with the given draft,
        replacing any session already open. */
    method StartEditing(id: TaskId, initialTitle: string)
      modifies this
      ensures editMode == Some(id) && editTaskTitle == initialTitle
      ensures tasks == old(tasks) && taskTitle == old(taskTitle) && buttonColor == old(buttonColor)
      ensures IdleHasNoDraft()
    {
      editMode := Some(id);
      editTaskTitle := initialTitle;
    }

    /** The edit field's `onChangeText`: replace the draft. The field is only
        shown while a session is open. */
    method UpdateDraft(text: string)
      requires editMode.Some?
      modifies this
      ensures editTaskTitle == text && editMode == old(editMode)
      ensures tasks == old(tasks) && taskTitle == old(taskTitle) && buttonColor == old(buttonColor)
      ensures IdleHasNoDraft()
    {
      editTaskTitle := text;
    }

    /** cancelEditing: close the session and clear the draft. */
    method CancelEditing()
      modifies this
      ensures editMode == None && editTaskTitle == ""
      ensures tasks == old(tasks) && taskTitle == old(taskTitle) && buttonColor == old(buttonColor)
      ensures IdleHasNoDraft()
    {
      editMode := None;
      editTaskTitle := "";
    }

    /** saveTaskTitle: give every task with this id the new title, with no
        emptiness check, then close the session and clear the draft. */
    method SaveTaskTitle(id: TaskId, newTitle: string)
      modifies this
      ensures tasks == Retitled(old(tasks), id, newTitle)
      ensures editMode == None && editTaskTitle == ""
      ensures taskTitle == old(taskTitle) && buttonColor == old(buttonColor)
      ensures IdleHasNoDraft()
    {
      tasks := Retitled(tasks, id, newTitle);
      editMode := None;
      editTaskTitle := "";
    }

    /** The edit field's `onBlur`: the field is shown for the task whose id is
        the edit mode, and losing focus saves the draft under that id. */
    method Blur()
      requires editMode.Some?
      modifies this
      ensures tasks == Retitled(old(tasks), old(editMode).value, old(editTaskTitle))
      ensures editMode == None && editTaskTitle == ""
      ensures taskTitle == old(taskTitle) && buttonColor == old(buttonColor)
      ensures IdleHasNoDraft()
    {
      SaveTaskTitle(editMode.value, editTaskTitle);
    }
  }
}
