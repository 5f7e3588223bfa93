/**
 * What the `length + 1` id rule of `addTodo` does and does not guarantee.
 * As long as nothing is removed the ids stay 1, 2, ..., n and hence unique;
 * a removal followed by an add can hand out an id that is still in use.
 */
module TodoIds {
  import opened Wrappers
  import opened JsString
  import opened TodoModel

  /** No two items share an id. */
  predicate UniqueIds(todos: seq<Item>) {
    forall i, j :: 0 <= i < j < |todos| ==> todos[i].id != todos[j].id
  }

  /** The ids are 1, 2, ..., |todos| in order, as `length + 1` hands them out. */
  predicate SequentialIds(todos: seq<Item>) {
    forall i :: 0 <= i < |todos| ==> todos[i].id == i + 1
  }

  /** A user action the view dispatches to one of the component's handlers. */
  datatype Intent =
    | ToggleIntent(id: int)
    | AddIntent
    | RemoveIntent(id: int)
    | ClearIntent
    | EditIntent(text: string)

  /** The state after one handler runs. Each case is the `ensures` of the
      matching method of class `TodoWidget.ToDoList`: `HandleToggle`,
      `AddTodo`, `RemoveTodo`, `ClearAll` and `SetInput` (the input box's
      `onChange`, which replaces the draft with the box's new value). */
  function Step(s: State, e: Intent): State {
    match e
    case ToggleIntent(id) => State(Toggle(s.todos, id), s.input)
    case AddIntent => Add(s.todos, s.input)
    case RemoveIntent(id) => State(Remove(s.todos, id), s.input)
    case ClearIntent => State(Clear(s.todos), s.input)
    case EditIntent(text) => State(s.todos, text)
  }

  /** The state after the handlers run one after another. */
  function Run(s: State, es: seq<Intent>): State
    decreases |es|
  {
    if es == [] then s else Run(Step(s, es[0]), es[1..])
  }

  predicate NoRemove(es: seq<Intent>) {
    forall i :: 0 <= i < |es| ==> !es[i].RemoveIntent?
  }

  /** Sequential ids are unique, and the id `addTodo` would hand out next is
      not yet in use. */
  lemma SequentialIsUnique(todos: seq<Item>)
    requires SequentialIds(todos)
    ensures UniqueIds(todos)
    ensures !HasId(todos, |todos| + 1)
  {
  }

  /** On a list with unique ids, adding keeps them unique exactly when no
      item already carries the id `length + 1`. */
  lemma AddUniqueIff(todos: seq<Item>, draft: string)
    requires UniqueIds(todos)
    requires !IsBlank(draft)
    ensures UniqueIds(Add(todos, draft).todos) <==> !HasId(todos, |todos| + 1)
  {
    var r := Add(todos, draft).todos;
    var n := |todos|;
    if HasId(todos, n + 1) {
      var i :| 0 <= i < n && todos[i].id == n + 1;
      assert r[i].id == r[n].id;
    }
  }

  /** Every handler except `removeTodo` keeps the ids sequential. */
  lemma StepKeepsSequential(s: State, e: Intent)
    requires SequentialIds(s.todos)
    requires !e.RemoveIntent?
    ensures SequentialIds(Step(s, e).todos)
  {
    if e.AddIntent? && !IsBlank(s.input) {
      var r := Step(s, e).todos;
      forall i | 0 <= i < |r| ensures r[i].id == i + 1 {
        if i < |s.todos| {
          assert r[i] == r[..|s.todos|][i];
        }
      }
    }
  }

  /** Without removals, ids stay sequential (and so unique) forever. */
  lemma {:induction false} RunWithoutRemoveKeepsIdsUnique(s: State, es: seq<Intent>)
    requires SequentialIds(s.todos)
    requires NoRemove(es)
    ensures SequentialIds(Run(s, es).todos)
    ensures UniqueIds(Run(s, es).todos)
    decreases |es|
  {
    if es != [] {
      StepKeepsSequential(s, es[0]);
      assert NoRemove(es[1..]) by {
        forall i | 0 <= i < |es[1..]| ensures !es[1..][i].RemoveIntent? {
          assert es[1..][i] == es[i + 1];
        }
      }
      RunWithoutRemoveKeepsIdsUnique(Step(s, es[0]), es[1..]);
    }
    SequentialIsUnique(Run(s, es).todos);
  }

  /** With nothing saved, the component starts from the seed, whose ids are
      sequential, and with an empty draft. */
  lemma InitialWithoutSaved()
    ensures Initial(None) == State([Item(1, "Hello world", false)], "")
    ensures SequentialIds(Initial(None).todos)
  {
  }

  /** On a list with unique ids, removing one item and re-numbering nothing
      leaves exactly the other items, in order. */
  lemma {:induction false} RemoveUniqueAt(todos: seq<Item>, k: nat)
    requires UniqueIds(todos)
    requires k < |todos|
    ensures Remove(todos, todos[k].id) == todos[..k] + todos[k + 1..]
  {
    var id := todos[k].id;
    var tail := todos[1..];
    if k == 0 {
      assert !HasId(tail, id) by {
        forall i | 0 <= i < |tail| ensures tail[i].id != id {
          assert tail[i] == todos[i + 1];
        }
      }
      RemoveAbsent(tail, id);
      assert Remove(todos, id) == tail;
    } else {
      assert todos[0].id != id;
      assert UniqueIds(tail) by {
        forall i, j | 0 <= i < j < |tail| ensures tail[i].id != tail[j].id {
          assert tail[i] == todos[i + 1] && tail[j] == todos[j + 1];
        }
      }
      assert tail[k - 1] == todos[k];
      RemoveUniqueAt(tail, k - 1);
      assert Remove(todos, id) == [todos[0]] + Remove(tail, id);
      assert tail[..k - 1] == todos[1..k] && tail[k..] == todos[k + 1..];
      assert [todos[0]] + todos[1..k] == todos[..k];
    }
  }

  /** On the list 1, 2, ..., n, removing id k and then adding a non-blank
      draft keeps the ids unique exactly when k was the last id: any other
      removal makes the new item share id n with the old last item. */
  lemma RemoveThenAddUniqueIff(todos: seq<Item>, k: int, draft: string)
    requires SequentialIds(todos)
    requires 1 <= k <= |todos|
    requires !IsBlank(draft)
    ensures UniqueIds(Add(Remove(todos, k), draft).todos) <==> k == |todos|
  {
    var n := |todos|;
    RemoveSequentialAt(todos, k);
    AddAppends(Remove(todos, k), draft);
    if k < n {
      NotLastCollides(todos, k, draft);
    } else {
      assert todos[..n - 1] + todos[n..] == todos[..n - 1];
      SequentialAppend(todos[..n - 1], draft);
    }
  }

  /** On the list 1, 2, ..., n, removing id k removes exactly position k - 1. */
  lemma RemoveSequentialAt(todos: seq<Item>, k: int)
    requires SequentialIds(todos)
    requires 1 <= k <= |todos|
    ensures Remove(todos, k) == todos[..k - 1] + todos[k..]
  {
    SequentialIsUnique(todos);
    RemoveUniqueAt(todos, k - 1);
  }

  /** On the list 1, 2, ..., n, dropping any id but the last and appending
      id n duplicates the id of the last item. */
  lemma NotLastCollides(todos: seq<Item>, k: int, draft: string)
    requires SequentialIds(todos)
    requires 1 <= k < |todos|
    ensures !UniqueIds(todos[..k - 1] + todos[k..] + [Item(|todos|, draft, false)])
  {
    var n := |todos|;
    var r := todos[..k - 1] + todos[k..] + [Item(n, draft, false)];
    assert r[n - 2] == todos[n - 1];
    assert r[n - 2].id == r[n - 1].id;
  }

  /** A non-blank draft is appended as the new last item. */
  lemma AddAppends(todos: seq<Item>, draft: string)
    requires !IsBlank(draft)
    ensures Add(todos, draft).todos == todos + [Item(|todos| + 1, draft, false)]
  {
    var r := Add(todos, draft).todos;
    assert r == r[..|todos|] + [r[|todos|]];
  }

  /** Appending the id `length + 1` to a sequential list keeps it sequential. */
  lemma SequentialAppend(todos: seq<Item>, draft: string)
    requires SequentialIds(todos)
    ensures SequentialIds(todos + [Item(|todos| + 1, draft, false)])
    ensures UniqueIds(todos + [Item(|todos| + 1, draft, false)])
  {
    SequentialIsUnique(todos + [Item(|todos| + 1, draft, false)]);
  }

  /** The collision made concrete: from items 1 and 2, removing 1 and adding
      a draft yields two items with id 2. */
  lemma RemoveThenAddCollides(a: string, b: string, ca: bool, cb: bool, draft: string)
    requires !IsBlank(draft)
    ensures UniqueIds([Item(1, a, ca), Item(2, b, cb)])
    ensures Add(Remove([Item(1, a, ca), Item(2, b, cb)], 1), draft).todos
         == [Item(2, b, cb), Item(2, draft, false)]
    ensures !UniqueIds(Add(Remove([Item(1, a, ca), Item(2, b, cb)], 1), draft).todos)
  {
    var before := [Item(1, a, ca), Item(2, b, cb)];
    assert Remove(before, 1) == [Item(2, b, cb)] by {
      assert before[1..] == [Item(2, b, cb)];
      assert [Item(2, b, cb)][1..] == [];
    }
    var after := Add(Remove(before, 1), draft).todos;
    assert after[0].id == after[1].id;
  }
}
