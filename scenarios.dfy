/**
 * Walk-throughs of the API and the view, proved from the operations' contracts alone.
 */
module Scenarios {
  import opened Options
  import opened Text
  import opened ObjectIds
  import opened TodoModel
  import opened TodoStore
  import opened Server
  import Client

  /**
   * Create an item and complete it, then create a second one: each step answers as the API promises,
   * and the store ends with the first item completed and the second active.
   */
  method CreateAndComplete(store: TodoCollection, a: ObjectId, b: ObjectId, first: string, second: string, now: Timestamp)
    requires store.Valid() && store.docs == map[]
    requires a != b
    requires IsTrimmed(first) && first != "" && IsTrimmed(second) && second != ""
    modifies store
    ensures store.Valid()
    ensures store.docs.Keys == {a, b} && store.docs[a].completed && !store.docs[b].completed
    ensures store.docs[b].text == second
  {
    TrimmedIffFixed(first);
    TrimmedIffFixed(second);
    CastIdToString(a);

    var created := CreateTodo(store, Body(Some(first), None), a, now, true);
    assert created.status == 201 && !created.payload.todo.completed;
    assert created.payload.todo.createdAt == created.payload.todo.updatedAt;

    var toggled := UpdateTodo(store, IdToString(a), Body(None, Some(true)), now + 1, true);
    assert toggled.status == 200 && toggled.payload.todo.completed && toggled.payload.todo.text == first;

    var added := CreateTodo(store, Body(Some(second), None), b, now + 2, true);
    assert added.status == 201;
  }

  /** ... then clearing the completed items removes exactly one record and the listing holds only the second item. */
  method ClearCompletedScenario(a: ObjectId, b: ObjectId, first: string, second: string, now: Timestamp)
    requires a != b
    requires IsTrimmed(first) && first != "" && IsTrimmed(second) && second != ""
  {
    var store := new TodoCollection();
    CreateAndComplete(store, a, b, first, second, now);

    ghost var before := store.docs;
    assert CompletedIds(before) == {a};
    var cleared := DeleteCompletedTodos(store, true);
    assert cleared.status == 200 && cleared.payload.count == 1;
    assert store.docs.Keys == {b};

    var listed := ListTodos(store, true);
    assert listed.payload.todos == [ToWire(store.docs[b])] by {
      var ws := listed.payload.todos;
      assert |ws| == 1 && ToWire(store.docs[b]) in ws;
    }
    assert listed.payload.todos[0].text == second;
  }

  /** With the 'active' filter on one active and one completed item, only the first is shown, and both labels read 1. */
  lemma ActiveFilterScenario(x: WireTodo, y: WireTodo)
    requires !x.completed && y.completed
    ensures Client.FilteredTodos([x, y], "active") == [x]
    ensures Client.ActiveCount([x, y]) == 1 && Client.CompletedCount([x, y]) == 1
  {
    Client.FilteredViews([x, y], "active");
    assert [x, y][1..] == [y] && [y][1..] == [];
    assert Client.Filter([y], Client.IsActive) == [];
    assert Client.Filter([x, y], Client.IsActive) == [x];
    assert Client.Filter([y], Client.IsCompleted) == [y];
    assert Client.Filter([x, y], Client.IsCompleted) == [y];
  }

  /** Editing an item, emptying the draft and saving leaves edit mode, keeps the list and sends nothing. */
  method EmptyEditScenario(app: Client.TodoApp, item: WireTodo, outcome: Client.Outcome<WireTodo>)
    modifies app
  {
    ghost var items := app.todos;
    app.StartEdit(item.id, item.text);
    app.SetEditText("");
    assert IsBlank("") by {
      TrimmedIffFixed("");
    }
    var sent := app.SaveEdit(item.id, outcome);
    assert sent == None && app.editingId == None && app.todos == items;
  }
}
