/**
 * The REST route handlers of the to-do API, as operations on the store. Each returns the HTTP status
 * and the JSON body it sends; any store failure other than a malformed id becomes a 500 with a fixed
 * per-route message that carries no detail of the failure.
 */
module Server {
  import opened Options
  import opened Text
  import opened ObjectIds
  import opened TodoModel
  import opened TodoStore

  /** The JSON body of a response. */
  datatype Payload =
    | Item(todo: WireTodo)
    | Items(todos: seq<WireTodo>)
    | Message(message: string)
    | Cleared(message: string, count: nat)
    | Error(error: string)

  datatype Response = Response(status: int, payload: Payload)

  /** The request body of a create or an update; a field the client leaves out is None. */
  datatype Body = Body(text: Option<string>, completed: Option<bool>)

  const InvalidId := Response(400, Error("Invalid todo ID"))
  const NotFound := Response(404, Error("Todo not found"))
  const TextRequired := Response(400, Error("Todo text is required"))

  /** `!text || text.trim() === ""`: the create handler's check; `""` is also blank. */
  predicate TextMissing(body: Body) {
    body.text.None? || IsBlank(body.text.value)
  }

  /** `res.json(todos)`: every record in its wire form, in the same order. */
  function SerializeAll(s: seq<Todo>): (w: seq<WireTodo>)
    ensures |w| == |s|
    ensures forall i :: 0 <= i < |s| ==> w[i] == ToWire(s[i])
  {
    if s == [] then [] else [ToWire(s[0])] + SerializeAll(s[1..])
  }

  /** A listing of `docs`: each record's wire form exactly once, newest first. */
  ghost predicate ListsNewestFirst(ws: seq<WireTodo>, docs: map<ObjectId, Todo>) {
    && |ws| == |docs|
    && (forall k :: k in docs ==> ToWire(docs[k]) in ws)
    && (forall w :: w in ws ==> exists k :: k in docs && w == ToWire(docs[k]))
    && (forall i, j :: 0 <= i < j < |ws| ==> ws[i].createdAt >= ws[j].createdAt)
  }

  /** Every record of the store shows up in a pointwise serialisation of a listing that holds it. */
  lemma ListingCoversStore(s: seq<Todo>, ws: seq<WireTodo>, docs: map<ObjectId, Todo>)
    requires |ws| == |s| && forall i :: 0 <= i < |s| ==> ws[i] == ToWire(s[i])
    requires forall k :: k in docs ==> docs[k] in s
    ensures forall k :: k in docs ==> ToWire(docs[k]) in ws
  {
    forall k | k in docs ensures ToWire(docs[k]) in ws {
      var i :| 0 <= i < |s| && s[i] == docs[k];
      assert ws[i] == ToWire(docs[k]);
    }
  }

  /** A pointwise serialisation of store records holds nothing but store records. */
  lemma ListingFromStore(s: seq<Todo>, ws: seq<WireTodo>, docs: map<ObjectId, Todo>)
    requires |ws| == |s| && forall i :: 0 <= i < |s| ==> ws[i] == ToWire(s[i])
    requires forall t :: t in s ==> t.id in docs && docs[t.id] == t
    ensures forall w :: w in ws ==> exists k :: k in docs && w == ToWire(docs[k])
  {
    forall w | w in ws ensures exists k :: k in docs && w == ToWire(docs[k]) {
      var i :| 0 <= i < |ws| && ws[i] == w;
      assert s[i] in s;
      assert w == ToWire(docs[s[i].id]);
    }
  }

  /** Serialising a newest-first listing of every record gives the wire listing of the store. */
  lemma SerializedListing(s: seq<Todo>, docs: map<ObjectId, Todo>)
    requires |s| == |docs| && NewestFirst(s)
    requires forall k :: k in docs ==> docs[k] in s
    requires forall t :: t in s ==> t.id in docs && docs[t.id] == t
    ensures ListsNewestFirst(SerializeAll(s), docs)
  {
    var ws := SerializeAll(s);
    ListingCoversStore(s, ws, docs);
    ListingFromStore(s, ws, docs);
  }

  /** GET /api/todos: all records, newest first. */
  method ListTodos(store: TodoCollection, available: bool) returns (resp: Response)
    requires store.Valid()
    ensures !available ==> resp == Response(500, Error("Failed to fetch todos"))
    ensures available ==> resp.status == 200 && resp.payload.Items?
                          && ListsNewestFirst(resp.payload.todos, store.docs)
  {
    var found := store.FindNewestFirst(available);
    if found.Err? {
      return Response(500, Error("Failed to fetch todos"));
    }
    SerializedListing(found.value, store.docs);
    var ws := SerializeAll(found.value);
    resp := Response(200, Items(ws));
  }

  /** GET /api/todos/:id. */
  method GetTodo(store: TodoCollection, id: string, available: bool) returns (resp: Response)
    ensures !IsValidId(id) ==> resp == InvalidId
    ensures IsValidId(id) && !available ==> resp == Response(500, Error("Failed to fetch todo"))
    ensures IsValidId(id) && available ==>
              var k := CastId(id).value;
              resp == if k in store.docs then Response(200, Item(ToWire(store.docs[k]))) else NotFound
  {
    var found := store.FindById(id, available);
    match found
    case Err(e) =>
      if e == CastError {
        resp := InvalidId;
      } else {
        resp := Response(500, Error("Failed to fetch todo"));
      }
    case Ok(None) =>
      resp := NotFound;
    case Ok(Some(t)) =>
      resp := Response(200, Item(ToWire(t)));
  }

  /**
   * POST /api/todos: a missing or blank text is rejected before the store is touched; otherwise a
   * record with the trimmed text, the given `completed` (false when absent) and both timestamps at
   * `now` is saved under the id the store generates, `newId`.
   */
  method CreateTodo(store: TodoCollection, body: Body, newId: ObjectId, now: Timestamp, available: bool)
    returns (resp: Response)
    requires store.Valid()
    modifies store
    ensures store.Valid()
    ensures TextMissing(body) ==> resp == TextRequired && store.docs == old(store.docs)
    ensures !TextMissing(body) && available && newId !in old(store.docs) ==>
              var t := Todo(newId, Trim(body.text.value), body.completed.GetOr(false), now, now, 0);
              resp == Response(201, Item(ToWire(t))) && store.docs == old(store.docs)[newId := t]
    ensures !TextMissing(body) && !(available && newId !in old(store.docs)) ==>
              resp == Response(500, Error("Failed to create todo")) && store.docs == old(store.docs)
  {
    if body.text.None? || body.text.value == "" || Trim(body.text.value) == "" {
      return TextRequired;
    }
    var completed := body.completed.GetOr(false);
    var doc := new TodoDocument(newId, Trim(body.text.value), Some(completed), now);
    TrimIdempotent(body.text.value);
    var saved := store.Save(doc, now, available);
    if saved.Err? {
      return Response(500, Error("Failed to create todo"));
    }
    resp := Response(201, Item(ToWire(saved.value)));
  }

  /**
   * PUT /api/todos/:id: builds the update field by field (`updatedAt` always, a trimmed `text` and
   * `completed` only when given) and applies it to the record.
   */
  method UpdateTodo(store: TodoCollection, id: string, body: Body, now: Timestamp, available: bool)
    returns (resp: Response)
    requires store.Valid()
    modifies store
    ensures store.Valid()
    ensures !IsValidId(id) ==> resp == InvalidId && store.docs == old(store.docs)
    ensures IsValidId(id) && ((body.text.Some? && IsBlank(body.text.value)) || !available) ==>
              resp == Response(500, Error("Failed to update todo")) && store.docs == old(store.docs)
    ensures IsValidId(id) && !(body.text.Some? && IsBlank(body.text.value)) && available ==>
              var k := CastId(id).value;
              if k !in old(store.docs) then
                resp == NotFound && store.docs == old(store.docs)
              else
                var was := old(store.docs)[k];
                && k in store.docs
                && store.docs == old(store.docs)[k := store.docs[k]]
                && resp == Response(200, Item(ToWire(store.docs[k])))
                && store.docs[k].id == was.id && store.docs[k].createdAt == was.createdAt
                && store.docs[k].updatedAt == now
                && store.docs[k].text == (if body.text.Some? then Trim(body.text.value) else was.text)
                && store.docs[k].completed == body.completed.GetOr(was.completed)
  {
    var update := UpdateData(now, None, None);
    if body.text.Some? {
      update := update.(text := Some(Trim(body.text.value)));
      TrimIdempotent(body.text.value);
      BlankIffAllWhitespace(body.text.value);
    }
    if body.completed.Some? {
      update := update.(completed := body.completed);
    }
    ghost var before := store.docs;
    var found := store.FindByIdAndUpdate(id, update, available);
    match found
    case Err(e) =>
      if e == CastError {
        resp := InvalidId;
      } else {
        resp := Response(500, Error("Failed to update todo"));
      }
    case Ok(None) =>
      resp := NotFound;
    case Ok(Some(t)) =>
      ApplyUpdatePartial(before[CastId(id).value], update);
      resp := Response(200, Item(ToWire(t)));
  }

  /** DELETE /api/todos/:id: removes exactly that record. */
  method DeleteTodo(store: TodoCollection, id: string, available: bool) returns (resp: Response)
    requires store.Valid()
    modifies store
    ensures store.Valid()
    ensures !IsValidId(id) ==> resp == InvalidId && store.docs == old(store.docs)
    ensures IsValidId(id) && !available ==>
              resp == Response(500, Error("Failed to delete todo")) && store.docs == old(store.docs)
    ensures IsValidId(id) && available ==>
              var k := CastId(id).value;
              if k in old(store.docs) then
                resp == Response(200, Message("Todo deleted successfully")) && store.docs == old(store.docs) - {k}
              else
                resp == NotFound && store.docs == old(store.docs)
  {
    var found := store.FindByIdAndDelete(id, available);
    match found
    case Err(e) =>
      if e == CastError {
        resp := InvalidId;
      } else {
        resp := Response(500, Error("Failed to delete todo"));
      }
    case Ok(None) =>
      resp := NotFound;
    case Ok(Some(_)) =>
      resp := Response(200, Message("Todo deleted successfully"));
  }

  /** DELETE /api/todos: removes every completed record and reports how many there were (0 is a success). */
  method DeleteCompletedTodos(store: TodoCollection, available: bool) returns (resp: Response)
    requires store.Valid()
    modifies store
    ensures store.Valid()
    ensures !available ==>
              resp == Response(500, Error("Failed to delete completed todos")) && store.docs == old(store.docs)
    ensures available ==>
              && store.docs == WithoutCompleted(old(store.docs))
              && resp == Response(200, Cleared("Completed todos deleted successfully", |CompletedIds(old(store.docs))|))
              && resp.payload.count == |old(store.docs)| - |store.docs|
  {
    var result := store.DeleteCompleted(available);
    if result.Err? {
      return Response(500, Error("Failed to delete completed todos"));
    }
    resp := Response(200, Cleared("Completed todos deleted successfully", result.value));
  }
}
