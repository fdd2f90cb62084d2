/** The list transforms the todo page applies to its `todos` state: the
    `map` that patches one item's text after an edit and the `filter` that
    drops an item after a delete. */
module TodoList {

  /** A todo item as the backend returns it. */
  datatype Todo = Todo(id: int, text: string)

  /** The ids of `todos`, in order. */
  function Ids(todos: seq<Todo>): (ids: seq<int>)
    ensures |ids| == |todos|
    ensures forall i :: 0 <= i < |todos| ==> ids[i] == todos[i].id
  {
    seq(|todos|, i requires 0 <= i < |todos| => todos[i].id)
  }

  /** No two items share an id. */
  predicate UniqueIds(todos: seq<Todo>) {
    forall i, j :: 0 <= i < j < |todos| ==> todos[i].id != todos[j].id
  }

  /** `todos.map(todo => todo.id === id ? { ...todo, text } : todo)`: every
      item whose id matches gets the new text; the length, the order, every id
      and every other item stay as they were. */
  function WithText(todos: seq<Todo>, id: int, text: string): (r: seq<Todo>)
    ensures |r| == |todos|
    ensures forall i :: 0 <= i < |todos| ==> r[i].id == todos[i].id
    ensures forall i :: 0 <= i < |todos| && todos[i].id == id ==> r[i].text == text
    ensures forall i :: 0 <= i < |todos| && todos[i].id != id ==> r[i] == todos[i]
  {
    seq(|todos|, i requires 0 <= i < |todos| =>
      if todos[i].id == id then todos[i].(text := text) else todos[i])
  }

  /** `todos.filter(todo => todo.id !== id)`: exactly the items with another
      id remain. */
  function WithoutId(todos: seq<Todo>, id: int): (r: seq<Todo>)
    ensures |r| <= |todos|
    ensures forall t :: t in r <==> t in todos && t.id != id
  {
    if todos == [] then []
    else if todos[0].id == id then WithoutId(todos[1..], id)
    else [todos[0]] + WithoutId(todos[1..], id)
  }

  /** The filter keeps relative order: it distributes over concatenation. */
  lemma {:induction false} WithoutIdConcat(a: seq<Todo>, b: seq<Todo>, id: int)
    ensures WithoutId(a + b, id) == WithoutId(a, id) + WithoutId(b, id)
  {
    if a != [] {
      assert (a + b)[1..] == a[1..] + b;
      WithoutIdConcat(a[1..], b, id);
    } else {
      assert a + b == b;
    }
  }

  /** When no item has the id, the filter returns the list unchanged, and
      only then. */
  lemma {:induction false} WithoutIdUnchanged(todos: seq<Todo>, id: int)
    ensures WithoutId(todos, id) == todos <==> forall t :: t in todos ==> t.id != id
  {
    if todos != [] && todos[0].id != id {
      WithoutIdUnchanged(todos[1..], id);
      assert forall t :: t in todos[1..] ==> t in todos;
      assert todos == [todos[0]] + todos[1..];
    }
  }

  /** Deleting the same id twice is deleting it once. */
  lemma WithoutIdIdempotent(todos: seq<Todo>, id: int)
    ensures WithoutId(WithoutId(todos, id), id) == WithoutId(todos, id)
  {
    WithoutIdUnchanged(WithoutId(todos, id), id);
  }

  /** The filter removes exactly the items carrying the id, so its length
      drops by their number. */
  lemma {:induction false} WithoutIdLength(todos: seq<Todo>, id: int)
    ensures |WithoutId(todos, id)| == |todos| - CountId(todos, id)
  {
    if todos != [] {
      WithoutIdLength(todos[1..], id);
    }
  }

  /** How many items carry the id. */
  function CountId(todos: seq<Todo>, id: int): (n: nat)
    ensures n <= |todos|
    ensures n == 0 <==> forall t :: t in todos ==> t.id != id
  {
    if todos == [] then 0
    else (if todos[0].id == id then 1 else 0) + CountId(todos[1..], id)
  }

  /** Deleting keeps ids unique. */
  lemma {:induction false} WithoutIdKeepsUnique(todos: seq<Todo>, id: int)
    requires UniqueIds(todos)
    ensures UniqueIds(WithoutId(todos, id))
  {
    if todos != [] {
      WithoutIdKeepsUnique(todos[1..], id);
      var rest := WithoutId(todos[1..], id);
      forall t | t in rest ensures t.id != todos[0].id {
        var j :| 0 <= j < |todos[1..]| && todos[1..][j] == t;
        assert todos[j + 1] == t;
      }
    }
  }

  /** Editing keeps the ids, hence their uniqueness. */
  lemma WithTextKeepsIds(todos: seq<Todo>, id: int, text: string)
    ensures Ids(WithText(todos, id, text)) == Ids(todos)
    ensures UniqueIds(todos) ==> UniqueIds(WithText(todos, id, text))
  {
  }

  /** Saving the same text twice is saving it once. */
  lemma WithTextIdempotent(todos: seq<Todo>, id: int, text: string)
    ensures WithText(WithText(todos, id, text), id, text) == WithText(todos, id, text)
  {
  }

  /** Deleting an item after editing it gives the same list as deleting it
      without the edit: the edit touches nothing the delete keeps. */
  lemma {:induction false} WithoutIdAfterWithText(todos: seq<Todo>, id: int, text: string)
    ensures WithoutId(WithText(todos, id, text), id) == WithoutId(todos, id)
  {
    if todos != [] {
      var edited := WithText(todos, id, text);
      assert edited[1..] == WithText(todos[1..], id, text);
      WithoutIdAfterWithText(todos[1..], id, text);
    }
  }
}
