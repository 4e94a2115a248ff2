/**
 * The todo-list component: its own copy of the reducer (five actions, with a
 * toggle whose payload is a whole record), its initial state, the list it
 * shows for the current filter, the "items left" count of its stats bar, the
 * record a form submission builds, and the event handlers that feed the
 * reducer.
 */
module TodoList {
  import opened Seqs
  import opened Todos
  import TodoReducer

  /**
   * The component's actions. `ToggleTodo` carries the clicked record; the
   * reducer reads only its id. `Unrecognised` stands for an action object
   * whose `type` tag is none of the five known ones, which the reducer's
   * default branch handles; `kind` is only a label for that tag and is never
   * one of the known tags (an object tagged with a known tag is the matching
   * constructor).
   */
  datatype ListAction =
    | AddTodo(payload: Todo)
    | ToggleTodo(payload: Todo)
    | DeleteTodo(id: string)
    | ClearCompleted
    | SetFilter(mode: FilterMode)
    | Unrecognised(kind: string)

  /** The state the component starts from: the records it is given, showing all of them. */
  function InitialState(todos: seq<Todo>): (r: State)
    ensures r.todos == todos && r.filter == All
    ensures ShownList(r) == todos
  {
    FilterKeepsAll(todos, Shows(All));
    State(todos, All)
  }

  /** The component's reducer. */
  function ListReduce(state: State, action: ListAction): (r: State)
    ensures !action.SetFilter? ==> r.filter == state.filter
    ensures action.SetFilter? || action.Unrecognised? ==> r.todos == state.todos
    ensures action.ToggleTodo? ==> |r.todos| == |state.todos|
  {
    match action
    case AddTodo(t) => state.(todos := state.todos + [t])
    case ToggleTodo(t) => state.(todos := ToggleById(state.todos, t.id))
    case DeleteTodo(id) => state.(todos := DeleteById(state.todos, id))
    case ClearCompleted => state.(todos := RemoveCompleted(state.todos))
    case SetFilter(mode) => state.(filter := mode)
    case Unrecognised(_) => state
  }

  /** The standalone reducer's action that a component action corresponds to. */
  function AsReducerAction(action: ListAction): TodoReducer.Action {
    match action
    case AddTodo(t) => TodoReducer.AddTodo(t)
    case ToggleTodo(t) => TodoReducer.ToggleTodo(t.id)
    case DeleteTodo(id) => TodoReducer.DeleteTodo(id)
    case ClearCompleted => TodoReducer.ClearCompleted
    case SetFilter(mode) => TodoReducer.SetFilter(mode)
    case Unrecognised(kind) => TodoReducer.Unrecognised(kind)
  }

  /** The two copies of the reducer agree on every action they share. */
  lemma ReducersAgree(state: State, action: ListAction)
    ensures ListReduce(state, action) == TodoReducer.Reduce(state, AsReducerAction(action))
  {
  }

  /** A toggle depends on its payload's id alone: text and flag of the payload are ignored. */
  lemma ToggleReadsOnlyId(state: State, a: Todo, b: Todo)
    requires a.id == b.id
    ensures ListReduce(state, ToggleTodo(a)) == ListReduce(state, ToggleTodo(b))
  {
  }

  /** An action with an unknown tag returns the state unchanged. */
  lemma ListUnrecognisedIsIdentity(state: State, kind: string)
    ensures ListReduce(state, Unrecognised(kind)) == state
  {
  }

  /**
   * Whether the list shows record `t` under filter `mode`: always under
   * `All`; otherwise exactly when the record's flag matches the mode.
   */
  predicate Passes(mode: FilterMode, t: Todo)
    ensures Passes(mode, t) <==> mode == All || (mode == Completed <==> t.completed)
  {
    match mode
    case Completed => t.completed
    case Active => !t.completed
    case All => true
  }

  /** The filter callback the list applies under `mode`. */
  function Shows(mode: FilterMode): Todo -> bool {
    (t: Todo) => Passes(mode, t)
  }

  /** The records the list renders: those the current filter passes, in order. */
  function ShownList(state: State): (r: seq<Todo>)
    ensures |r| <= |state.todos|
    ensures forall t :: t in r <==> t in state.todos && Passes(state.filter, t)
  {
    Filter(state.todos, Shows(state.filter))
  }

  /** At start-up the filter is `All`, so the list shows exactly the records it was given. */
  lemma InitialShowsAll(todos: seq<Todo>)
    ensures InitialState(todos).filter == All
    ensures ShownList(InitialState(todos)) == todos
  {
    FilterKeepsAll(todos, Shows(All));
  }

  /** Under `Active` the list shows what a clear would keep; under `Completed` the other records. */
  lemma ShownEqualsFilters(todos: seq<Todo>)
    ensures ShownList(State(todos, Active)) == RemoveCompleted(todos) == Filter(todos, IsActive)
    ensures ShownList(State(todos, Completed)) == Filter(todos, IsCompleted)
  {
    FilterExt(todos, Shows(Active), IsActive);
    FilterExt(todos, Shows(Completed), IsCompleted);
  }

  /**
   * `All` shows the whole list; `Active` shows exactly the incomplete records
   * and `Completed` exactly the completed ones, each in original order.
   */
  lemma ShownListByFilter(todos: seq<Todo>)
    ensures ShownList(State(todos, All)) == todos
    ensures var a := ShownList(State(todos, Active));
            && IsSubsequence(a, todos)
            && forall t :: multiset(a)[t] == if t.completed then 0 else multiset(todos)[t]
    ensures var c := ShownList(State(todos, Completed));
            && IsSubsequence(c, todos)
            && forall t :: multiset(c)[t] == if t.completed then multiset(todos)[t] else 0
  {
    FilterKeepsAll(todos, Shows(All));
    FilterIsSubsequence(todos, Shows(Active));
    FilterMultiset(todos, Shows(Active));
    FilterIsSubsequence(todos, Shows(Completed));
    FilterMultiset(todos, Shows(Completed));
  }

  /** The `Active` and `Completed` views split the list: together they hold every record once, and share none. */
  lemma ActiveCompletedPartition(todos: seq<Todo>)
    ensures var a, c := ShownList(State(todos, Active)), ShownList(State(todos, Completed));
            && |a| + |c| == |todos|
            && multiset(a) + multiset(c) == multiset(todos)
            && forall t :: !(t in a && t in c)
  {
    FilterPartition(todos, Shows(Active), Shows(Completed));
  }

  /** The stats bar's count: the incomplete records among those it is handed. */
  function ItemsLeft(todos: seq<Todo>): (n: nat)
    ensures n <= |todos|
    ensures n == 0 <==> forall t :: t in todos ==> t.completed
  {
    var open := Filter(todos, IsActive);
    assert open != [] ==> open[0] in open;
    |open|
  }

  /**
   * The stats bar is handed the shown list, not the whole one: the count is
   * always 0 under `Completed`, and the number of incomplete records of the
   * whole list otherwise.
   */
  lemma ItemsLeftOfShown(state: State)
    ensures ItemsLeft(ShownList(state)) == if state.filter == Completed then 0 else ItemsLeft(state.todos)
  {
    var todos := state.todos;
    match state.filter
    case All =>
      FilterKeepsAll(todos, Shows(All));
    case Active =>
      ShownEqualsFilters(todos);
      FilterIdempotent(todos, IsActive);
    case Completed =>
  }

  /**
   * The record a form submission builds: a fresh id (the caller supplies it,
   * standing for a random UUID), the typed text as it is, and not completed.
   */
  function NewTodo(freshId: string, description: string): (t: Todo)
    ensures t.id == freshId && t.todo == description && !t.completed
    ensures Passes(All, t) && Passes(Active, t) && !Passes(Completed, t)
  {
    Todo(freshId, description, false)
  }

  /**
   * Submitting appends a new incomplete record holding the typed text, even
   * when that text is empty; the record shows under every filter but
   * `Completed`, where the items-left count stays as it was; elsewhere the
   * count grows by one. A fresh id keeps identifiers distinct.
   */
  lemma SubmitAppends(state: State, freshId: string, description: string)
    ensures var r := ListReduce(state, AddTodo(NewTodo(freshId, description)));
            && r.todos == state.todos + [Todo(freshId, description, false)]
            && r.filter == state.filter
            && ItemsLeft(ShownList(r)) == ItemsLeft(ShownList(state)) + (if state.filter == Completed then 0 else 1)
            && (UniqueIds(state.todos) && !HasId(state.todos, freshId) ==> UniqueIds(r.todos))
  {
    var t := NewTodo(freshId, description);
    var p := Shows(state.filter);
    FilterAppend(state.todos, [t], p);
    var shown := ShownList(state);
    var tail := Filter([t], p);
    assert tail == if state.filter == Completed then [] else [t];
    FilterAppend(shown, tail, IsActive);
    assert Filter(tail, IsActive) == tail;
    if UniqueIds(state.todos) && !HasId(state.todos, freshId) {
      AppendKeepsUnique(state.todos, t);
    }
  }

  /**
   * A walk through the component: from an empty list add "Buy milk", toggle
   * it, look at the `Active` and `Completed` views, then clear completed.
   */
  lemma BuyMilkScenario(freshId: string)
    ensures var s0 := InitialState([]);
            var milk := NewTodo(freshId, "Buy milk");
            var s1 := ListReduce(s0, AddTodo(milk));
            var s2 := ListReduce(s1, ToggleTodo(milk));
            var s3 := ListReduce(s2, SetFilter(Active));
            var s4 := ListReduce(s3, SetFilter(Completed));
            var s5 := ListReduce(s4, ClearCompleted);
            && s1.todos == [Todo(freshId, "Buy milk", false)]
            && s2.todos == [Todo(freshId, "Buy milk", true)]
            && ShownList(s3) == []
            && ShownList(s4) == s2.todos
            && ItemsLeft(ShownList(s4)) == 0
            && s5.todos == []
  {
    var milk := NewTodo(freshId, "Buy milk");
    var done := [Todo(freshId, "Buy milk", true)];
    var s1 := ListReduce(InitialState([]), AddTodo(milk));
    assert s1.todos == [milk];
    var s2 := ListReduce(s1, ToggleTodo(milk));
    assert s2.todos[0] == Flip(milk, freshId);
    assert s2.todos == done;
    assert Filter(done, Shows(Active)) == Filter(done[1..], Shows(Active));
    assert Filter(done, Shows(Completed)) == [done[0]] + Filter(done[1..], Shows(Completed));
    assert Filter(done, IsActive) == Filter(done[1..], IsActive);
  }

  /**
   * The component: the reducer's state and the text of the input field. Each
   * handler dispatches one action; submitting also empties the field.
   */
  class TodoListComponent {
    var state: State
    var description: string

    /** Mounting starts the reducer from the given records and the field empty. */
    constructor (todos: seq<Todo>)
      ensures state == InitialState(todos)
      ensures description == ""
    {
      state := InitialState(todos);
      description := "";
    }

    /** Runs the reducer on the current state and stores its result. */
    method Dispatch(action: ListAction)
      modifies this
      ensures state == ListReduce(old(state), action)
      ensures description == old(description)
    {
      state := ListReduce(state, action);
    }

    /** Typing into the input field replaces its text. */
    method ChangeDescription(text: string)
      modifies this
      ensures description == text
      ensures state == old(state)
    {
      description := text;
    }

    /** Submitting appends a new incomplete record with the typed text and empties the field. */
    method HandleSubmit(freshId: string)
      modifies this
      ensures state.todos == old(state.todos) + [Todo(freshId, old(description), false)]
      ensures state.filter == old(state.filter)
      ensures description == ""
    {
      var newTodo := NewTodo(freshId, description);
      description := "";
      Dispatch(AddTodo(newTodo));
    }

    /** Clicking a record's check button flips the flag of the records sharing its id. */
    method HandleCheck(todo: Todo)
      modifies this
      ensures state.todos == ToggleById(old(state.todos), todo.id)
      ensures state.filter == old(state.filter)
      ensures description == old(description)
    {
      Dispatch(ToggleTodo(todo));
    }

    /** Clicking a record's delete button removes the records with its id. */
    method HandleDelete(id: string)
      modifies this
      ensures state.todos == DeleteById(old(state.todos), id)
      ensures state.filter == old(state.filter)
      ensures description == old(description)
    {
      Dispatch(DeleteTodo(id));
    }

    /** The clear button drops every completed record. */
    method ClearHandle()
      modifies this
      ensures state.todos == RemoveCompleted(old(state.todos))
      ensures state.filter == old(state.filter)
      ensures description == old(description)
    {
      Dispatch(ClearCompleted);
    }

    /** A filter button selects which records the list shows. */
    method FilterHandle(mode: FilterMode)
      modifies this
      ensures state.filter == mode
      ensures state.todos == old(state.todos)
      ensures description == old(description)
    {
      Dispatch(SetFilter(mode));
    }
  }
}
