/** The todo page component: its four pieces of state and the handlers that
    change them. Every handler is one atomic step over the state as it was
    when the handler was invoked; what the server answers is a parameter. */
module UserInfoPage {
  import opened Web
  import opened TodoList
  import JsString

  /** The hard-coded user whose list the page shows. */
  const UserId := 1

  /** How a create, update or delete request ends: a response whose `ok` flag
      is set, a response whose `ok` flag is clear, or a `fetch` that rejects
      (which throws out of the handler before any state is set). */
  datatype Reply = Ok | NotOk | Thrown

  /** How a list fetch, `fetch(...).then(res => res.json())`, ends: with the
      parsed list, or rejected. */
  datatype Listing = Fetched(items: seq<Todo>) | FetchFailed

  /** The backend resources the page addresses: a user's list, the
      collection, one item. */
  datatype Endpoint = UserTodos(userId: int) | Todos | TodoAt(id: int)

  /** The JSON bodies the page sends. */
  datatype Body = CreateBody(userId: int, text: string) | EditBody(text: string)

  /** A request the page issues. */
  datatype Request = Request(verb: Verb, endpoint: Endpoint, body: Option<Body>)

  /** The list fetch for the page's user. */
  const ListRequest := Request(GET, UserTodos(UserId), None)

  /** A create is attempted only when the compose text is not blank. */
  predicate CanCreate(newTodo: string): (b: bool)
    ensures b <==> !JsString.IsBlank(newTodo)
  {
    JsString.Trim(newTodo) != ""
  }

  class TodoPage {
    var todos: seq<Todo>
    var newTodo: string
    var editingId: Option<int>
    var editText: string

    /** The state before the first render: nothing loaded, nothing typed,
        nothing being edited. */
    constructor ()
      ensures todos == [] && newTodo == "" && editingId == None && editText == ""
    {
      todos, newTodo, editingId, editText := [], "", None, "";
    }

    /** The mount-time load: a fetched list replaces `todos`; a failed fetch
        leaves it as it was. */
    method Load(listing: Listing) returns (sent: seq<Request>)
      modifies this
      ensures sent == [ListRequest]
      ensures todos == if listing.Fetched? then listing.items else old(todos)
      ensures newTodo == old(newTodo) && editingId == old(editingId) && editText == old(editText)
    {
      sent := [ListRequest];
      if listing.Fetched? {
        todos := listing.items;
      }
    }

    /** The compose field's change handler. */
    method TypeNewTodo(value: string)
      modifies this
      ensures newTodo == value
      ensures todos == old(todos) && editingId == old(editingId) && editText == old(editText)
    {
      newTodo := value;
    }

    /** The edit field's change handler. */
    method TypeEditText(value: string)
      modifies this
      ensures editText == value
      ensures todos == old(todos) && newTodo == old(newTodo) && editingId == old(editingId)
    {
      editText := value;
    }

    /** Create: a blank compose text sends nothing and changes nothing.
        Otherwise the untrimmed text is posted for the page's user; only an ok
        reply followed by a successful refetch changes state, replacing the
        whole list and clearing the compose text. */
    method Create(reply: Reply, refetch: Listing) returns (sent: seq<Request>)
      modifies this
      ensures !CanCreate(old(newTodo)) ==> sent == []
      ensures CanCreate(old(newTodo)) ==>
        sent == [Request(POST, Todos, Some(CreateBody(UserId, old(newTodo))))]
                + (if reply.Ok? then [ListRequest] else [])
      ensures if CanCreate(old(newTodo)) && reply.Ok? && refetch.Fetched?
              then todos == refetch.items && newTodo == ""
              else todos == old(todos) && newTodo == old(newTodo)
      ensures editingId == old(editingId) && editText == old(editText)
    {
      if JsString.Trim(newTodo) == "" {
        return [];
      }
      sent := [Request(POST, Todos, Some(CreateBody(UserId, newTodo)))];
      if reply.Ok? {
        sent := sent + [ListRequest];
        if refetch.Fetched? {
          todos := refetch.items;
          newTodo := "";
        }
      }
    }

    /** Update: the edit text is sent and, unless the request throws, patched
        into the local list whatever the response status, and edit mode is
        left with the edit text cleared. There is no blank-text guard and no
        refetch. */
    method Update(id: int, reply: Reply) returns (sent: seq<Request>)
      modifies this
      ensures sent == [Request(PUT, TodoAt(id), Some(EditBody(old(editText))))]
      ensures reply.Thrown? ==>
        todos == old(todos) && editingId == old(editingId) && editText == old(editText)
      ensures !reply.Thrown? ==>
        todos == WithText(old(todos), id, old(editText)) && editingId == None && editText == ""
      ensures newTodo == old(newTodo)
    {
      sent := [Request(PUT, TodoAt(id), Some(EditBody(editText)))];
      if reply.Thrown? {
        return;
      }
      todos := WithText(todos, id, editText);
      editingId := None;
      editText := "";
    }

    /** Delete: unless the request throws, every item with the id is dropped
        from the local list whatever the response status. */
    method Delete(id: int, reply: Reply) returns (sent: seq<Request>)
      modifies this
      ensures sent == [Request(DELETE, TodoAt(id), None)]
      ensures todos == if reply.Thrown? then old(todos) else WithoutId(old(todos), id)
      ensures newTodo == old(newTodo) && editingId == old(editingId) && editText == old(editText)
    {
      sent := [Request(DELETE, TodoAt(id), None)];
      if !reply.Thrown? {
        todos := WithoutId(todos, id);
      }
    }

    /** The edit button: enter edit mode on the item, drafting its text. */
    method StartEdit(todo: Todo)
      modifies this
      ensures editingId == Some(todo.id) && editText == todo.text
      ensures todos == old(todos) && newTodo == old(newTodo)
    {
      editingId := Some(todo.id);
      editText := todo.text;
    }

    /** The cancel button: leave edit mode; the draft text is kept. */
    method CancelEdit()
      modifies this
      ensures editingId == None
      ensures todos == old(todos) && newTodo == old(newTodo) && editText == old(editText)
    {
      editingId := None;
    }
  }

  /** Two deletes of one id, the first not thrown, leave the list as the first
      left it, whatever the second reply. */
  method DeleteTwice(page: TodoPage, id: int, first: Reply, second: Reply)
    requires !first.Thrown?
    modifies page
    ensures page.todos == WithoutId(old(page.todos), id)
  {
    var _ := page.Delete(id, first);
    var _ := page.Delete(id, second);
    WithoutIdIdempotent(old(page.todos), id);
  }

  /** Starting an edit on an item and saving it with an accepted reply
      changes only that item's text and leaves edit mode. */
  method EditAndSave(page: TodoPage, todo: Todo, text: string, reply: Reply)
    requires !reply.Thrown?
    modifies page
    ensures page.todos == WithText(old(page.todos), todo.id, text)
    ensures page.editingId == None && page.editText == ""
    ensures Ids(page.todos) == Ids(old(page.todos))
  {
    page.StartEdit(todo);
    page.TypeEditText(text);
    var _ := page.Update(todo.id, reply);
    WithTextKeepsIds(old(page.todos), todo.id, text);
  }
}
