/**
 * The browser view: the list operations the view builds new lists with, the derived views (the filter,
 * the two counts and the clear button), and the component state with one method per user action.
 * Each action that talks to the API takes the outcome of that request as a parameter and returns the
 * request it issued, if any.
 */
module Client {
  import opened Options
  import opened Text
  import opened TodoModel

  /** How a request ended: success with the response data, or any failure (the user is alerted). */
  datatype Outcome<T> = Success(value: T) | Failure

  /** The requests the view sends to the API. */
  datatype Request =
    | GetTodos
    | PostTodo(text: string, completed: bool)
    | PutTodo(id: string, setText: Option<string>, setCompleted: Option<bool>)
    | DeleteTodo(id: string)
    | DeleteCompleted

  /** `s.filter(keep)`. */
  function Filter(s: seq<WireTodo>, keep: WireTodo -> bool): (r: seq<WireTodo>)
    ensures |r| <= |s|
  {
    if s == [] then []
    else (if keep(s[0]) then [s[0]] else []) + Filter(s[1..], keep)
  }

  /** Filtering keeps every item the predicate accepts, as often as the list holds it, and nothing else. */
  lemma {:induction false} FilterCounts(s: seq<WireTodo>, keep: WireTodo -> bool)
    ensures forall x :: multiset(Filter(s, keep))[x] == if keep(x) then multiset(s)[x] else 0
    decreases |s|
  {
    if s != [] {
      FilterCounts(s[1..], keep);
      assert s == [s[0]] + s[1..];
    }
  }

  /** Filtering distributes over concatenation, so it keeps the order of the items it keeps. */
  lemma {:induction false} FilterAppend(a: seq<WireTodo>, b: seq<WireTodo>, keep: WireTodo -> bool)
    ensures Filter(a + b, keep) == Filter(a, keep) + Filter(b, keep)
    decreases |a|
  {
    if a == [] {
      assert a + b == b;
    } else {
      var ab := a + b;
      var head := if keep(a[0]) then [a[0]] else [];
      assert ab != [] && ab[0] == a[0] && ab[1..] == a[1..] + b;
      FilterAppend(a[1..], b, keep);
      calc {
        Filter(ab, keep);
        head + Filter(a[1..] + b, keep);
        head + (Filter(a[1..], keep) + Filter(b, keep));
        (head + Filter(a[1..], keep)) + Filter(b, keep);
        Filter(a, keep) + Filter(b, keep);
      }
    }
  }

  /** Filtering with two predicates that agree everywhere gives the same list. */
  lemma {:induction false} FilterExtensional(s: seq<WireTodo>, p: WireTodo -> bool, q: WireTodo -> bool)
    requires forall x :: p(x) == q(x)
    ensures Filter(s, p) == Filter(s, q)
    decreases |s|
  {
    if s != [] {
      FilterExtensional(s[1..], p, q);
    }
  }

  /** A predicate that holds of every item keeps the whole list. */
  lemma {:induction false} FilterKeepsAll(s: seq<WireTodo>, keep: WireTodo -> bool)
    requires forall x :: x in s ==> keep(x)
    ensures Filter(s, keep) == s
    decreases |s|
  {
    if s != [] {
      FilterKeepsAll(s[1..], keep);
    }
  }

  predicate IsActive(t: WireTodo) {
    !t.completed
  }

  predicate IsCompleted(t: WireTodo) {
    t.completed
  }

  /** The filter callback of the rendered list: 'active' and 'completed' select, any other value shows all. */
  predicate Shown(filter: string, t: WireTodo) {
    if filter == "active" then !t.completed
    else if filter == "completed" then t.completed
    else true
  }

  /** `filteredTodos`. */
  function FilteredTodos(todos: seq<WireTodo>, filter: string): seq<WireTodo> {
    Filter(todos, t => Shown(filter, t))
  }

  /** `activeTodosCount`. */
  function ActiveCount(todos: seq<WireTodo>): nat {
    |Filter(todos, IsActive)|
  }

  /** `completedTodosCount`. */
  function CompletedCount(todos: seq<WireTodo>): nat {
    |Filter(todos, IsCompleted)|
  }

  /** The "Clear Completed" button is rendered when the completed count is positive. */
  predicate ShowClearButton(todos: seq<WireTodo>) {
    CompletedCount(todos) > 0
  }

  /** The 'active' view is exactly the active items, the 'completed' view exactly the completed ones, any other filter everything. */
  lemma FilteredViews(todos: seq<WireTodo>, filter: string)
    ensures filter == "active" ==> FilteredTodos(todos, filter) == Filter(todos, IsActive)
    ensures filter == "completed" ==> FilteredTodos(todos, filter) == Filter(todos, IsCompleted)
    ensures filter != "active" && filter != "completed" ==> FilteredTodos(todos, filter) == todos
  {
    if filter == "active" {
      FilterExtensional(todos, t => Shown(filter, t), IsActive);
    } else if filter == "completed" {
      FilterExtensional(todos, t => Shown(filter, t), IsCompleted);
    } else {
      FilterKeepsAll(todos, t => Shown(filter, t));
    }
  }

  /** The active and completed views split the list: together they hold each item exactly as often as the list does. */
  lemma ViewsPartition(todos: seq<WireTodo>)
    ensures multiset(Filter(todos, IsActive)) + multiset(Filter(todos, IsCompleted)) == multiset(todos)
    ensures multiset(Filter(todos, IsActive)) * multiset(Filter(todos, IsCompleted)) == multiset{}
  {
    var a, c := Filter(todos, IsActive), Filter(todos, IsCompleted);
    FilterCounts(todos, IsActive);
    FilterCounts(todos, IsCompleted);
    assert forall x :: (multiset(a) + multiset(c))[x] == multiset(todos)[x];
    assert forall x :: (multiset(a) * multiset(c))[x] == multiset{}[x];
  }

  /** The "Active (n)" and "Completed (m)" labels add up to the "All" label. */
  lemma CountsSum(todos: seq<WireTodo>)
    ensures ActiveCount(todos) + CompletedCount(todos) == |todos|
  {
    ViewsPartition(todos);
    assert |multiset(todos)| == |todos|;
  }

  /** The clear button is shown exactly when some item is completed. */
  lemma ClearButtonIffSomeCompleted(todos: seq<WireTodo>)
    ensures ShowClearButton(todos) <==> exists i :: 0 <= i < |todos| && todos[i].completed
  {
    var c := Filter(todos, IsCompleted);
    FilterCounts(todos, IsCompleted);
    if ShowClearButton(todos) {
      assert c[0] in multiset(c);
      assert c[0] in todos;
    }
    if i :| 0 <= i < |todos| && todos[i].completed {
      assert multiset(c)[todos[i]] > 0;
    }
  }

  /** `todos.find(t => t.id === id)`: the first item with that id. */
  function FindById(todos: seq<WireTodo>, id: string): (r: Option<WireTodo>)
    ensures r.None? <==> forall i :: 0 <= i < |todos| ==> todos[i].id != id
    ensures r.Some? ==> exists i :: 0 <= i < |todos| && todos[i] == r.value && r.value.id == id
                                    && forall j :: 0 <= j < i ==> todos[j].id != id
  {
    if todos == [] then None
    else if todos[0].id == id then Some(todos[0])
    else
      var r := FindById(todos[1..], id);
      assert forall j :: 1 <= j < |todos| ==> todos[j] == todos[1..][j - 1];
      r
  }

  /** `todos.map(t => t.id === id ? item : t)`: every entry with that id becomes `item`; the rest stay in place. */
  function ReplaceById(todos: seq<WireTodo>, id: string, item: WireTodo): (r: seq<WireTodo>)
    ensures |r| == |todos|
    ensures forall i :: 0 <= i < |todos| ==> r[i] == if todos[i].id == id then item else todos[i]
  {
    if todos == [] then []
    else [if todos[0].id == id then item else todos[0]] + ReplaceById(todos[1..], id, item)
  }

  /** The callback `t => t.id !== id`. */
  function OtherThan(id: string): WireTodo -> bool {
    (t: WireTodo) => t.id != id
  }

  /** `todos.filter(t => t.id !== id)`. */
  function RemoveById(todos: seq<WireTodo>, id: string): seq<WireTodo> {
    Filter(todos, OtherThan(id))
  }

  /** Removing by id leaves no entry with that id and every other entry as often as before, in order. */
  lemma RemoveByIdExact(todos: seq<WireTodo>, id: string, rest: seq<WireTodo>)
    ensures forall x :: x in RemoveById(todos, id) ==> x.id != id
    ensures forall x: WireTodo :: x.id != id ==> multiset(RemoveById(todos, id))[x] == multiset(todos)[x]
    ensures RemoveById(todos + rest, id) == RemoveById(todos, id) + RemoveById(rest, id)
  {
    var r := RemoveById(todos, id);
    FilterCounts(todos, OtherThan(id));
    forall x | x in r ensures x.id != id {
      assert multiset(r)[x] > 0;
    }
    FilterAppend(todos, rest, OtherThan(id));
  }

  /** Clearing completed items leaves exactly the active items, in their order. */
  lemma ClearCompletedExact(todos: seq<WireTodo>)
    ensures forall x :: x in Filter(todos, IsActive) ==> !x.completed
    ensures forall x: WireTodo :: !x.completed ==> multiset(Filter(todos, IsActive))[x] == multiset(todos)[x]
    ensures |Filter(todos, IsActive)| == |todos| - CompletedCount(todos)
  {
    FilterCounts(todos, IsActive);
    CountsSum(todos);
  }

  /** The view's state (`useState` hooks). */
  class TodoApp {
    var todos: seq<WireTodo>
    var inputText: string
    var filter: string
    var loading: bool
    var editingId: Option<string>
    var editText: string

    /** The initial state: no items, an empty draft, the 'all' filter, not loading, not editing. */
    constructor ()
      ensures todos == [] && inputText == "" && filter == "all" && !loading
      ensures editingId == None && editText == ""
    {
      todos := [];
      inputText := "";
      filter := "all";
      loading := false;
      editingId := None;
      editText := "";
    }

    /** Typing into the new-item field. */
    method SetInputText(text: string)
      modifies this
      ensures inputText == text
      ensures todos == old(todos) && filter == old(filter) && loading == old(loading)
      ensures editingId == old(editingId) && editText == old(editText)
    {
      inputText := text;
    }

    /** A filter button. */
    method SetFilter(f: string)
      modifies this
      ensures filter == f
      ensures todos == old(todos) && inputText == old(inputText) && loading == old(loading)
      ensures editingId == old(editingId) && editText == old(editText)
    {
      filter := f;
    }

    /** Typing into the edit field. */
    method SetEditText(text: string)
      modifies this
      ensures editText == text
      ensures todos == old(todos) && inputText == old(inputText) && filter == old(filter)
      ensures loading == old(loading) && editingId == old(editingId)
    {
      editText := text;
    }

    /** `fetchTodos`: loads the list; a failure keeps the old list; loading is off again either way. */
    method FetchTodos(outcome: Outcome<seq<WireTodo>>) returns (sent: Request)
      modifies this
      ensures sent == GetTodos
      ensures todos == (if outcome.Success? then outcome.value else old(todos))
      ensures !loading
      ensures inputText == old(inputText) && filter == old(filter)
      ensures editingId == old(editingId) && editText == old(editText)
    {
      loading := true;
      sent := GetTodos;
      if outcome.Success? {
        todos := outcome.value;
      }
      loading := false;
    }

    /**
     * `addTodo`: a blank draft is ignored and nothing is sent; otherwise the draft is posted as typed,
     * and on success the returned item is appended and the draft cleared.
     */
    method AddTodo(outcome: Outcome<WireTodo>) returns (sent: Option<Request>)
      modifies this
      ensures IsBlank(old(inputText)) ==> sent == None && todos == old(todos) && inputText == old(inputText)
      ensures !IsBlank(old(inputText)) ==> sent == Some(PostTodo(old(inputText), false))
      ensures !IsBlank(old(inputText)) && outcome.Success? ==>
                todos == old(todos) + [outcome.value] && inputText == ""
      ensures outcome.Failure? ==> todos == old(todos) && inputText == old(inputText)
      ensures filter == old(filter) && loading == old(loading)
      ensures editingId == old(editingId) && editText == old(editText)
    {
      if Trim(inputText) == "" {
        return None;
      }
      sent := Some(PostTodo(inputText, false));
      if outcome.Success? {
        todos := todos + [outcome.value];
        inputText := "";
      }
    }

    /**
     * `toggleTodo`: an unknown id changes nothing and sends nothing; otherwise the negation of the first
     * matching item's `completed` is sent, and on success every entry with that id becomes the reply.
     */
    method ToggleTodo(id: string, outcome: Outcome<WireTodo>) returns (sent: Option<Request>)
      modifies this
      ensures FindById(old(todos), id).None? ==> sent == None && todos == old(todos)
      ensures FindById(old(todos), id).Some? ==>
                sent == Some(PutTodo(id, None, Some(!FindById(old(todos), id).value.completed)))
      ensures FindById(old(todos), id).Some? && outcome.Success? ==>
                todos == ReplaceById(old(todos), id, outcome.value)
      ensures outcome.Failure? ==> todos == old(todos)
      ensures inputText == old(inputText) && filter == old(filter) && loading == old(loading)
      ensures editingId == old(editingId) && editText == old(editText)
    {
      var todo := FindById(todos, id);
      if todo.None? {
        return None;
      }
      sent := Some(PutTodo(id, None, Some(!todo.value.completed)));
      if outcome.Success? {
        todos := ReplaceById(todos, id, outcome.value);
      }
    }

    /** `startEdit`: enters edit mode on `id` with its text as the draft. */
    method StartEdit(id: string, text: string)
      modifies this
      ensures editingId == Some(id) && editText == text
      ensures todos == old(todos) && inputText == old(inputText) && filter == old(filter)
      ensures loading == old(loading)
    {
      editingId := Some(id);
      editText := text;
    }

    /** `cancelEdit`: leaves edit mode and drops the draft; nothing is sent. */
    method CancelEdit()
      modifies this
      ensures editingId == None && editText == ""
      ensures todos == old(todos) && inputText == old(inputText) && filter == old(filter)
      ensures loading == old(loading)
    {
      editingId := None;
      editText := "";
    }

    /**
     * `saveEdit`: a blank draft cancels the edit and sends nothing; otherwise the trimmed draft is sent,
     * and on success the entries with that id become the reply and edit mode ends. On failure the edit
     * stays open with its draft.
     */
    method SaveEdit(id: string, outcome: Outcome<WireTodo>) returns (sent: Option<Request>)
      modifies this
      ensures IsBlank(old(editText)) ==> sent == None && editingId == None && editText == "" && todos == old(todos)
      ensures !IsBlank(old(editText)) ==> sent == Some(PutTodo(id, Some(Trim(old(editText))), None))
      ensures !IsBlank(old(editText)) && outcome.Success? ==>
                todos == ReplaceById(old(todos), id, outcome.value) && editingId == None && editText == ""
      ensures !IsBlank(old(editText)) && outcome.Failure? ==>
                todos == old(todos) && editingId == old(editingId) && editText == old(editText)
      ensures inputText == old(inputText) && filter == old(filter) && loading == old(loading)
    {
      if Trim(editText) == "" {
        CancelEdit();
        return None;
      }
      sent := Some(PutTodo(id, Some(Trim(editText)), None));
      if outcome.Success? {
        todos := ReplaceById(todos, id, outcome.value);
        editingId := None;
        editText := "";
      }
    }

    /** `handleEditKeyPress`: Enter saves, Escape cancels, any other key does nothing. */
    method HandleEditKeyPress(key: string, id: string, outcome: Outcome<WireTodo>) returns (sent: Option<Request>)
      modifies this
      ensures key == "Enter" ==> (IsBlank(old(editText)) <==> sent == None)
      ensures key == "Enter" && !IsBlank(old(editText)) ==> sent == Some(PutTodo(id, Some(Trim(old(editText))), None))
      ensures key == "Enter" && IsBlank(old(editText)) ==> editingId == None && editText == "" && todos == old(todos)
      ensures key == "Enter" && !IsBlank(old(editText)) && outcome.Success? ==>
                todos == ReplaceById(old(todos), id, outcome.value) && editingId == None && editText == ""
      ensures key == "Enter" && !IsBlank(old(editText)) && outcome.Failure? ==>
                todos == old(todos) && editingId == old(editingId) && editText == old(editText)
      ensures key == "Escape" ==> sent == None && editingId == None && editText == "" && todos == old(todos)
      ensures key != "Enter" && key != "Escape" ==>
                sent == None && todos == old(todos) && editingId == old(editingId) && editText == old(editText)
      ensures inputText == old(inputText) && filter == old(filter) && loading == old(loading)
    {
      sent := None;
      if key == "Enter" {
        sent := SaveEdit(id, outcome);
      } else if key == "Escape" {
        CancelEdit();
      }
    }

    /** `deleteTodo`: on success every entry with that id is dropped and the rest keep their order. */
    method DeleteTodo(id: string, outcome: Outcome<()>) returns (sent: Request)
      modifies this
      ensures sent == Request.DeleteTodo(id)
      ensures todos == (if outcome.Success? then RemoveById(old(todos), id) else old(todos))
      ensures inputText == old(inputText) && filter == old(filter) && loading == old(loading)
      ensures editingId == old(editingId) && editText == old(editText)
    {
      sent := Request.DeleteTodo(id);
      if outcome.Success? {
        todos := RemoveById(todos, id);
      }
    }

    /**
     * `clearCompleted`: on success the completed entries are dropped locally, whatever count the
     * server reports.
     */
    method ClearCompleted(outcome: Outcome<nat>) returns (sent: Request)
      modifies this
      ensures sent == DeleteCompleted
      ensures todos == (if outcome.Success? then Filter(old(todos), IsActive) else old(todos))
      ensures inputText == old(inputText) && filter == old(filter) && loading == old(loading)
      ensures editingId == old(editingId) && editText == old(editText)
    {
      sent := DeleteCompleted;
      if outcome.Success? {
        todos := Filter(todos, IsActive);
      }
    }
  }
}
