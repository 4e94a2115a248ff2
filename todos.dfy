/**
 * The todo record, the list state and the three list transformations that
 * both reducers share: flip one record's completion flag, drop records by
 * identifier, and drop completed records.
 */
module Todos {
  import opened Seqs

  /** One list entry: identifier, description text and completion flag. */
  datatype Todo = Todo(id: string, todo: string, completed: bool)

  /** Which records the list shows: every record, the open ones, or the done ones. */
  datatype FilterMode = All | Active | Completed

  /** The reducer's state: the records in insertion order and the current filter. */
  datatype State = State(todos: seq<Todo>, filter: FilterMode)

  predicate IsActive(t: Todo) { !t.completed }

  predicate IsCompleted(t: Todo) { t.completed }

  /** Some record of `todos` carries identifier `id`. */
  predicate HasId(todos: seq<Todo>, id: string) {
    exists t :: t in todos && t.id == id
  }

  /** No two records of `todos` share an identifier. */
  predicate UniqueIds(todos: seq<Todo>) {
    forall i, j :: 0 <= i < j < |todos| ==> todos[i].id != todos[j].id
  }

  /**
   * The record as the toggle map leaves it: id and text kept, the flag negated
   * exactly when the id matches.
   */
  function Flip(t: Todo, id: string): (r: Todo)
    ensures r.id == t.id && r.todo == t.todo
    ensures r.completed != t.completed <==> t.id == id
  {
    if t.id == id then t.(completed := !t.completed) else t
  }

  /**
   * Toggling by identifier maps every record through `Flip`: the list keeps
   * its length, order, identifiers and descriptions, and a record's flag
   * changes exactly when its identifier matches.
   */
  function ToggleById(todos: seq<Todo>, id: string): (r: seq<Todo>)
    ensures |r| == |todos|
    ensures forall i :: 0 <= i < |r| ==> r[i].id == todos[i].id && r[i].todo == todos[i].todo
    ensures forall i :: 0 <= i < |r| ==> (r[i].completed != todos[i].completed <==> todos[i].id == id)
  {
    seq(|todos|, i requires 0 <= i < |todos| => Flip(todos[i], id))
  }

  /** The test that keeps a record unless it carries identifier `id`. */
  function KeepOthers(id: string): Todo -> bool {
    (t: Todo) => t.id != id
  }

  /** Deleting by identifier keeps, in order, the records whose identifier differs. */
  function DeleteById(todos: seq<Todo>, id: string): (r: seq<Todo>)
    ensures !HasId(r, id)
    ensures forall t :: t in r <==> t in todos && t.id != id
  {
    Filter(todos, KeepOthers(id))
  }

  /** Clearing keeps, in order, the records that are not completed. */
  function RemoveCompleted(todos: seq<Todo>): (r: seq<Todo>)
    ensures forall t :: t in r ==> !t.completed
    ensures forall t :: t in r <==> t in todos && !t.completed
  {
    Filter(todos, IsActive)
  }

  /** Toggling the same identifier twice restores the list exactly. */
  lemma ToggleTwice(todos: seq<Todo>, id: string)
    ensures ToggleById(ToggleById(todos, id), id) == todos
  {
    var once := ToggleById(todos, id);
    var twice := ToggleById(once, id);
    forall i | 0 <= i < |todos| ensures twice[i] == todos[i] {
      assert once[i].id == todos[i].id;
    }
  }

  /** Toggling leaves the list unchanged exactly when no record has the identifier. */
  lemma ToggleUnchangedIff(todos: seq<Todo>, id: string)
    ensures ToggleById(todos, id) == todos <==> !HasId(todos, id)
  {
    var r := ToggleById(todos, id);
    if HasId(todos, id) {
      var t :| t in todos && t.id == id;
      var i :| 0 <= i < |todos| && todos[i] == t;
      assert r[i].completed != todos[i].completed;
    } else {
      forall i | 0 <= i < |todos| ensures r[i] == todos[i] {
        assert todos[i] in todos;
      }
    }
  }

  /** Deleting records by identifier never reorders what remains, and counts each kept record exactly. */
  lemma DeleteKeepsOrder(todos: seq<Todo>, id: string)
    ensures IsSubsequence(DeleteById(todos, id), todos)
    ensures forall t :: multiset(DeleteById(todos, id))[t] == if t.id != id then multiset(todos)[t] else 0
  {
    FilterIsSubsequence(todos, KeepOthers(id));
    FilterMultiset(todos, KeepOthers(id));
  }

  /** A second delete of the same identifier is a no-op. */
  lemma DeleteTwice(todos: seq<Todo>, id: string)
    ensures DeleteById(DeleteById(todos, id), id) == DeleteById(todos, id)
  {
    FilterIdempotent(todos, KeepOthers(id));
  }

  /** Deleting leaves the list unchanged exactly when no record has the identifier. */
  lemma DeleteUnchangedIff(todos: seq<Todo>, id: string)
    ensures DeleteById(todos, id) == todos <==> !HasId(todos, id)
  {
    FilterKeepsAll(todos, KeepOthers(id));
  }

  /** Clearing never reorders what remains, and counts each kept record exactly. */
  lemma RemoveCompletedKeepsOrder(todos: seq<Todo>)
    ensures IsSubsequence(RemoveCompleted(todos), todos)
    ensures forall t :: multiset(RemoveCompleted(todos))[t] == if t.completed then 0 else multiset(todos)[t]
  {
    FilterIsSubsequence(todos, IsActive);
    FilterMultiset(todos, IsActive);
  }

  /** A second clear is a no-op. */
  lemma RemoveCompletedTwice(todos: seq<Todo>)
    ensures RemoveCompleted(RemoveCompleted(todos)) == RemoveCompleted(todos)
  {
    FilterIdempotent(todos, IsActive);
  }

  /** A subsequence of a list with distinct identifiers has distinct identifiers. */
  lemma {:induction false} SubsequenceKeepsUnique(a: seq<Todo>, b: seq<Todo>)
    requires IsSubsequence(a, b) && UniqueIds(b)
    ensures UniqueIds(a)
    decreases |b|
  {
    if a != [] {
      assert b != [];
      assert UniqueIds(b[1..]);
      if a[0] == b[0] {
        SubsequenceKeepsUnique(a[1..], b[1..]);
        SubsequenceMembers(a[1..], b[1..]);
        forall i, j | 0 <= i < j < |a| ensures a[i].id != a[j].id {
          if i == 0 {
            assert a[j] == a[1..][j - 1];
            assert a[j] in b[1..];
            var k :| 0 <= k < |b[1..]| && b[1..][k] == a[j];
            assert b[k + 1] == a[j];
          } else {
            assert a[i] == a[1..][i - 1] && a[j] == a[1..][j - 1];
          }
        }
      } else {
        SubsequenceKeepsUnique(a, b[1..]);
      }
    }
  }

  /** Toggling keeps identifiers where they were, so distinct identifiers stay distinct. */
  lemma ToggleKeepsUnique(todos: seq<Todo>, id: string)
    requires UniqueIds(todos)
    ensures UniqueIds(ToggleById(todos, id))
  {
  }

  /** Deleting only drops records, so distinct identifiers stay distinct. */
  lemma DeleteKeepsUnique(todos: seq<Todo>, id: string)
    requires UniqueIds(todos)
    ensures UniqueIds(DeleteById(todos, id))
  {
    DeleteKeepsOrder(todos, id);
    SubsequenceKeepsUnique(DeleteById(todos, id), todos);
  }

  /** Clearing only drops records, so distinct identifiers stay distinct. */
  lemma RemoveCompletedKeepsUnique(todos: seq<Todo>)
    requires UniqueIds(todos)
    ensures UniqueIds(RemoveCompleted(todos))
  {
    RemoveCompletedKeepsOrder(todos);
    SubsequenceKeepsUnique(RemoveCompleted(todos), todos);
  }

  /** Appending a record whose identifier is new keeps identifiers distinct. */
  lemma AppendKeepsUnique(todos: seq<Todo>, t: Todo)
    requires UniqueIds(todos) && !HasId(todos, t.id)
    ensures UniqueIds(todos + [t])
  {
    var r := todos + [t];
    forall i, j | 0 <= i < j < |r| ensures r[i].id != r[j].id {
      if j == |todos| {
        assert r[i] == todos[i] && todos[i] in todos;
      }
    }
  }
}
