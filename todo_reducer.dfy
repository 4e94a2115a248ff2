/**
 * The standalone todo reducer: a total function from a state and an action
 * to the next state. It never changes its input; every branch builds a new
 * state from the old one.
 */
module TodoReducer {
  import opened Seqs
  import opened Todos

  /**
   * The six actions the reducer knows, plus `Unrecognised`: an action object
   * whose `type` tag is none of the six. Typed callers cannot build one, but
   * the reducer still has a branch for it. `kind` is only a label for that
   * tag and is never one of the six known tags (an object tagged with a known
   * tag is the matching constructor).
   */
  datatype Action =
    | AddTodo(payload: Todo)
    | ToggleTodo(id: string)
    | DeleteTodo(id: string)
    | ClearCompleted
    | SetFilter(mode: FilterMode)
    | SetTodos(list: seq<Todo>)
    | Unrecognised(kind: string)

  /**
   * The next state. Only `SetFilter` touches the filter; `SetFilter` and an
   * unrecognised action leave the records alone; adding grows the list by one,
   * toggling keeps its length, and deleting or clearing only drops records.
   */
  function Reduce(state: State, action: Action): (r: State)
    ensures !action.SetFilter? ==> r.filter == state.filter
    ensures action.SetFilter? || action.Unrecognised? ==> r.todos == state.todos
    ensures action.AddTodo? ==> |r.todos| == |state.todos| + 1
    ensures action.ToggleTodo? ==> |r.todos| == |state.todos|
    ensures action.DeleteTodo? || action.ClearCompleted? ==>
              |r.todos| <= |state.todos| && forall t :: t in r.todos ==> t in state.todos
  {
    match action
    case AddTodo(t) => state.(todos := state.todos + [t])
    case ToggleTodo(id) => state.(todos := ToggleById(state.todos, id))
    case DeleteTodo(id) => state.(todos := DeleteById(state.todos, id))
    case ClearCompleted => state.(todos := RemoveCompleted(state.todos))
    case SetFilter(mode) => state.(filter := mode)
    case SetTodos(list) => state.(todos := list)
    case Unrecognised(_) => state
  }

  /** Adding appends the payload as the last record and keeps every earlier record and the filter. */
  lemma AddTodoAppends(state: State, t: Todo)
    ensures var r := Reduce(state, AddTodo(t));
            && |r.todos| == |state.todos| + 1
            && r.todos[|state.todos|] == t
            && r.todos[..|state.todos|] == state.todos
            && r.filter == state.filter
  {
  }

  /**
   * Toggling keeps length and order; a record whose id matches has its flag
   * negated and keeps id and text, every other record is identical.
   */
  lemma ToggleTodoFlips(state: State, id: string)
    ensures var r := Reduce(state, ToggleTodo(id));
            && |r.todos| == |state.todos|
            && r.filter == state.filter
            && forall i :: 0 <= i < |r.todos| ==>
                 if state.todos[i].id == id
                 then r.todos[i].id == id && r.todos[i].todo == state.todos[i].todo
                      && r.todos[i].completed == !state.todos[i].completed
                 else r.todos[i] == state.todos[i]
  {
    var r := Reduce(state, ToggleTodo(id));
    forall i | 0 <= i < |r.todos| && state.todos[i].id != id ensures r.todos[i] == state.todos[i] {
    }
  }

  /** Toggling the same id twice restores the state exactly. */
  lemma ToggleTodoTwice(state: State, id: string)
    ensures Reduce(Reduce(state, ToggleTodo(id)), ToggleTodo(id)) == state
  {
    ToggleTwice(state.todos, id);
  }

  /** Toggling an id no record carries is a no-op, and only such a toggle is. */
  lemma ToggleTodoNoMatch(state: State, id: string)
    ensures Reduce(state, ToggleTodo(id)) == state <==> !HasId(state.todos, id)
  {
    ToggleUnchangedIff(state.todos, id);
  }

  /**
   * Deleting yields, in original order, exactly the records whose id differs;
   * no record with that id remains, and a second delete is a no-op.
   */
  lemma DeleteTodoRemoves(state: State, id: string)
    ensures var r := Reduce(state, DeleteTodo(id));
            && r.filter == state.filter
            && IsSubsequence(r.todos, state.todos)
            && (forall t :: multiset(r.todos)[t] == if t.id != id then multiset(state.todos)[t] else 0)
            && !HasId(r.todos, id)
            && Reduce(r, DeleteTodo(id)) == r
  {
    DeleteKeepsOrder(state.todos, id);
    DeleteTwice(state.todos, id);
  }

  /** Deleting an id no record carries is a no-op, and only such a delete is. */
  lemma DeleteTodoNoMatch(state: State, id: string)
    ensures Reduce(state, DeleteTodo(id)) == state <==> !HasId(state.todos, id)
  {
    DeleteUnchangedIff(state.todos, id);
  }

  /**
   * Clearing yields, in original order, exactly the incomplete records; no
   * completed record remains, and a second clear is a no-op.
   */
  lemma ClearCompletedKeepsActive(state: State)
    ensures var r := Reduce(state, ClearCompleted);
            && r.filter == state.filter
            && IsSubsequence(r.todos, state.todos)
            && (forall t :: multiset(r.todos)[t] == if t.completed then 0 else multiset(state.todos)[t])
            && (forall t :: t in r.todos ==> !t.completed)
            && Reduce(r, ClearCompleted) == r
  {
    RemoveCompletedKeepsOrder(state.todos);
    RemoveCompletedTwice(state.todos);
  }

  /** Setting the filter changes the filter to the payload and nothing else. */
  lemma SetFilterOnlyFilter(state: State, mode: FilterMode)
    ensures Reduce(state, SetFilter(mode)).filter == mode
    ensures Reduce(state, SetFilter(mode)).todos == state.todos
  {
  }

  /** Replacing the list installs the payload and keeps the filter. */
  lemma SetTodosReplaces(state: State, list: seq<Todo>)
    ensures Reduce(state, SetTodos(list)).todos == list
    ensures Reduce(state, SetTodos(list)).filter == state.filter
  {
  }

  /** An action with an unknown tag returns the state unchanged. */
  lemma UnrecognisedIsIdentity(state: State, kind: string)
    ensures Reduce(state, Unrecognised(kind)) == state
  {
  }

  /**
   * Distinct identifiers stay distinct under every action that does not
   * bring in a colliding identifier: toggle, delete, clear, filter changes
   * and unknown actions never introduce one; an add must carry a new id and
   * a replacement list must itself be free of duplicates.
   */
  lemma ReduceKeepsUnique(state: State, action: Action)
    requires UniqueIds(state.todos)
    requires action.AddTodo? ==> !HasId(state.todos, action.payload.id)
    requires action.SetTodos? ==> UniqueIds(action.list)
    ensures UniqueIds(Reduce(state, action).todos)
  {
    match action
    case AddTodo(t) => AppendKeepsUnique(state.todos, t);
    case ToggleTodo(id) => ToggleKeepsUnique(state.todos, id);
    case DeleteTodo(id) => DeleteKeepsUnique(state.todos, id);
    case ClearCompleted => RemoveCompletedKeepsUnique(state.todos);
    case SetFilter(_) =>
    case SetTodos(_) =>
    case Unrecognised(_) =>
  }
}
