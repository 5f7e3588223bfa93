/**
 * The `ToDoList` component's state cells and event handlers. The component
 * holds two cells, the list and the draft; each handler replaces one or both
 * of them with the value a pure function of `TodoModel` computes.
 */
module TodoWidget {
  import opened Wrappers
  import opened JsString
  import opened TodoModel

  class ToDoList {
    /** The `todos` state cell. */
    var todos: seq<Item>
    /** The `input` state cell: the draft in the text box. */
    var input: string

    /** Mounting: the saved list if storage holds one, else the seed; empty draft. */
    constructor (saved: Option<seq<Item>>)
      ensures todos == InitialTodos(saved) && input == ""
      ensures saved.None? ==> todos == [Item(1, "Hello world", false)]
      ensures saved.Some? ==> todos == saved.value
    {
      todos := InitialTodos(saved);
      input := "";
    }

    /** The text box's `onChange`: the draft becomes the box's new value. */
    method SetInput(value: string)
      modifies this
      ensures input == value && todos == old(todos)
    {
      input := value;
    }

    /** `handleToggle`: flips completion on the items carrying `id`. */
    method HandleToggle(id: int)
      modifies this
      ensures todos == Toggle(old(todos), id) && input == old(input)
    {
      todos := Toggle(todos, id);
    }

    /** `addTodo`: returns early on a blank draft; otherwise appends the draft
        as a new item with id `length + 1` and then empties the draft. */
    method AddTodo()
      modifies this
      ensures State(todos, input) == Add(old(todos), old(input))
      ensures IsBlank(old(input)) ==> todos == old(todos) && input == old(input)
      ensures !IsBlank(old(input)) ==>
        && todos == old(todos) + [Item(|old(todos)| + 1, old(input), false)]
        && input == ""
    {
      TrimEmptyIffBlank(input);
      if Trim(input) == "" {
        return;
      }
      todos := todos + [Item(|todos| + 1, input, false)];
      input := "";
    }

    /** `removeTodo`: drops every item carrying `id`; the draft is untouched. */
    method RemoveTodo(id: int)
      modifies this
      ensures todos == Remove(old(todos), id) && input == old(input)
    {
      todos := Remove(todos, id);
    }

    /** `clearAll`: empties the list; the draft is untouched. */
    method ClearAll()
      modifies this
      ensures todos == Clear(old(todos)) && todos == [] && input == old(input)
    {
      todos := Clear(todos);
    }
  }
}
