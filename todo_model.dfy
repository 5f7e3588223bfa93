/**
 * The to-do list's state transitions as pure functions over the list of
 * items: what `handleToggle`, `addTodo`, `removeTodo`, `clearAll` and the
 * `useState` initialiser of the `ToDoList` component compute.
 */
module TodoModel {
  import opened Wrappers
  import opened JsString

  /** One entry of the list. Ids are not guaranteed to be unique. */
  datatype Item = Item(id: int, text: string, completed: bool)

  /** The component's two state cells: the list and the draft in the input box. */
  datatype State = State(todos: seq<Item>, input: string)

  /** The list shown when nothing was saved. */
  const Seed: seq<Item> := [Item(1, "Hello world", false)]

  /** Some item of `todos` carries `id`. */
  predicate HasId(todos: seq<Item>, id: int) {
    exists i :: 0 <= i < |todos| && todos[i].id == id
  }

  /** How many items of `todos` carry `id`. */
  function CountId(todos: seq<Item>, id: int): nat {
    if todos == [] then 0
    else (if todos[0].id == id then 1 else 0) + CountId(todos[1..], id)
  }

  /** An id is counted exactly when some item carries it. */
  lemma {:induction false} CountIdPositiveIff(todos: seq<Item>, id: int)
    ensures CountId(todos, id) > 0 <==> HasId(todos, id)
  {
    if todos != [] {
      CountIdPositiveIff(todos[1..], id);
      if HasId(todos, id) && todos[0].id != id {
        var i :| 0 <= i < |todos| && todos[i].id == id;
        assert todos[1..][i - 1].id == id;
      }
    }
  }

  /** `a` is `b` with some elements dropped and the rest in their original order. */
  ghost predicate IsSubsequence(a: seq<Item>, b: seq<Item>)
    decreases |b|
  {
    if a == [] then true
    else if b == [] then false
    else (a[0] == b[0] && IsSubsequence(a[1..], b[1..])) || IsSubsequence(a, b[1..])
  }

  // ---------------------------------------------------------------------
  // Initial state

  /** The `useState` initialiser: the saved list when storage holds one,
      otherwise the seed. `None` stands for a missing entry and for the
      empty string, both of which the source treats as "nothing saved". */
  function InitialTodos(saved: Option<seq<Item>>): seq<Item> {
    match saved
    case Some(items) => items
    case None => Seed
  }

  /** The state the component starts in; the draft always starts empty. */
  function Initial(saved: Option<seq<Item>>): State {
    State(InitialTodos(saved), "")
  }

  // ---------------------------------------------------------------------
  // Toggle

  function ToggleItem(t: Item, id: int): Item {
    if t.id == id then t.(completed := !t.completed) else t
  }

  /** `handleToggle`: flips `completed` on every item whose id is `id`;
      ids, texts, order and the other items are untouched. */
  function Toggle(todos: seq<Item>, id: int): (r: seq<Item>)
    ensures |r| == |todos|
    ensures forall i :: 0 <= i < |todos| ==>
      && r[i].id == todos[i].id
      && r[i].text == todos[i].text
      && (r[i].completed != todos[i].completed <==> todos[i].id == id)
  {
    if todos == [] then [] else [ToggleItem(todos[0], id)] + Toggle(todos[1..], id)
  }

  /** Toggling an id no item carries changes nothing. */
  lemma ToggleAbsent(todos: seq<Item>, id: int)
    requires !HasId(todos, id)
    ensures Toggle(todos, id) == todos
  {
  }

  /** Toggling the same id twice gives back the original list. */
  lemma ToggleTwice(todos: seq<Item>, id: int)
    ensures Toggle(Toggle(todos, id), id) == todos
  {
  }

  /** Toggles of two ids can be applied in either order. */
  lemma ToggleCommutes(todos: seq<Item>, a: int, b: int)
    ensures Toggle(Toggle(todos, a), b) == Toggle(Toggle(todos, b), a)
  {
  }

  // ---------------------------------------------------------------------
  // Add

  /** `addTodo`: a draft that is blank after trimming changes nothing;
      otherwise the untrimmed draft is appended as a new, not completed item
      whose id is the old length plus one, and the draft is emptied. */
  function Add(todos: seq<Item>, draft: string): (r: State)
    ensures IsBlank(draft) ==> r == State(todos, draft)
    ensures !IsBlank(draft) ==>
      && |r.todos| == |todos| + 1
      && r.todos[..|todos|] == todos
      && r.todos[|todos|] == Item(|todos| + 1, draft, false)
      && r.input == ""
  {
    TrimEmptyIffBlank(draft);
    if Trim(draft) == "" then State(todos, draft)
    else State(todos + [Item(|todos| + 1, draft, false)], "")
  }

  // ---------------------------------------------------------------------
  // Remove

  /** `removeTodo`: keeps, in order and unchanged, exactly the items whose
      id is not `id`; every item carrying `id` goes, not only the first. */
  function Remove(todos: seq<Item>, id: int): (r: seq<Item>)
    ensures forall t :: t in r ==> t in todos && t.id != id
    ensures |r| == |todos| - CountId(todos, id)
  {
    if todos == [] then []
    else if todos[0].id == id then Remove(todos[1..], id)
    else [todos[0]] + Remove(todos[1..], id)
  }

  /** What `filter` keeps: every item whose id is not `id`, as often as it
      occurred, in the original order. */
  lemma {:induction false} RemoveKeepsOthers(todos: seq<Item>, id: int)
    ensures forall t: Item :: t.id != id ==> multiset(Remove(todos, id))[t] == multiset(todos)[t]
    ensures IsSubsequence(Remove(todos, id), todos)
  {
    if todos != [] {
      var rest := Remove(todos[1..], id);
      RemoveKeepsOthers(todos[1..], id);
      assert todos == [todos[0]] + todos[1..];
      assert multiset(todos) == multiset{todos[0]} + multiset(todos[1..]);
      if todos[0].id != id {
        assert ([todos[0]] + rest)[1..] == rest;
      }
    }
  }

  /** Removing an id no item carries changes nothing. */
  lemma {:induction false} RemoveAbsent(todos: seq<Item>, id: int)
    requires !HasId(todos, id)
    ensures Remove(todos, id) == todos
  {
    if todos != [] {
      RemoveAbsent(todos[1..], id);
    }
  }

  /** Afterwards no item carries the id; in particular removing it again changes nothing. */
  lemma RemoveTwice(todos: seq<Item>, id: int)
    ensures !HasId(Remove(todos, id), id)
    ensures Remove(Remove(todos, id), id) == Remove(todos, id)
  {
    RemoveAbsent(Remove(todos, id), id);
  }

  /** Toggling an item and then removing it is the same as removing it. */
  lemma {:induction false} RemoveAfterToggle(todos: seq<Item>, id: int)
    ensures Remove(Toggle(todos, id), id) == Remove(todos, id)
  {
    if todos != [] {
      var t := Toggle(todos, id);
      assert t[1..] == Toggle(todos[1..], id);
      RemoveAfterToggle(todos[1..], id);
    }
  }

  // ---------------------------------------------------------------------
  // Clear

  /** `clearAll`: the list becomes empty whatever it held. */
  function Clear(todos: seq<Item>): seq<Item> {
    []
  }

  /** After clearing, a non-blank draft becomes the only item, with id 1. */
  lemma ClearThenAdd(todos: seq<Item>, draft: string)
    requires !IsBlank(draft)
    ensures Add(Clear(todos), draft) == State([Item(1, draft, false)], "")
  {
  }
}
