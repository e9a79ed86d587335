# To-do list: API handlers, record schema and view state, in Dafny

This project models the core of a small to-do application. The application has two sides that talk over HTTP:

- **The API service.** Its route handlers list, get, create, update and delete to-do records. It also deletes all completed records in bulk. Records live in a document store.
- **The record schema.** It gives the defaults for a new record, the `required` and `trim` rules on `text`, a pre-save hook that refreshes `updatedAt`, and a `toJSON` transform that turns a stored record into what goes on the wire.
- **The browser view.** It holds the items, the new-item draft, the active filter, a loading flag and the edit state. It changes them in response to user actions and server replies.

The model is split into these modules:

| file | module | what it holds |
|---|---|---|
| `options.dfy` | `Options` | an optional value: an absent request field, or a missing record |
| `text.dfy` | `Text` | JavaScript's `trim()` and the whitespace set it strips |
| `object_id.dfy` | `ObjectIds` | 12-byte ids, the 24-digit hex string form (`_id.toString()`), and the cast of a path parameter back to an id (failure is the store's CastError) |
| `todo_model.dfy` | `TodoModel` | the stored record, the `TodoDocument` class (defaults, trim, `required`, pre-save hook), the `toJSON` transform on a `PlainObject` class, and the wire record `WireTodo` |
| `todo_store.dfy` | `TodoStore` | the `TodoCollection` class (an id→record map) with the store calls the handlers make |
| `server.dfy` | `Server` | one method per route; each returns the status code and the JSON body |
| `client.dfy` | `Client` | the list operations and derived views, and the `TodoApp` class with one method per user action |
| `scenarios.dfy` | `Scenarios` | end-to-end walk-throughs proved from the contracts alone |

How I/O is modelled:

- Every store call takes an `available` flag. `false` stands for any store failure other than a malformed id or a failed validation. Every such failure gives a 500 with the route's fixed message, and the store is left as it was.
- The clock is an integer parameter `now`, in milliseconds.
- A new record's id is the parameter `newId`. If that id is already taken, the insert fails with a 500.
- Each client action takes the outcome of its request (`Success(data)` or `Failure`) as a parameter. It returns the request it sent, or `None` when it sent nothing.

## Model

| member | source | states |
|---|---|---|
| `Text.TrimStart` | server/server.js:58 | the result is a suffix of the input; everything dropped is whitespace; the result does not start with whitespace |
| `Text.TrimEnd` | server/server.js:58 | the result is a prefix of the input; everything dropped is whitespace; the result does not end with whitespace |
| `Text.BlankIffAllWhitespace` | server/server.js:53 | `text.trim() === ""` holds exactly when every character is whitespace, so `"   "` is rejected just like `""` |
| `Text.TrimmedIffFixed` | server/models/Todo.js:7 | `trim()` always returns a trimmed string, and a string is trimmed exactly when `trim()` leaves it unchanged |
| `Text.TrimIdempotent` | server/server.js:58 | trimming text the handler has already trimmed changes nothing (the schema's `trim` setter runs on it again) |
| `ObjectIds.ToHex` | server/models/Todo.js:32 | the string form has two hex digits per byte |
| `ObjectIds.ParseHex` | server/server.js:33 | parsing succeeds exactly when every character is a hex digit, and gives half as many bytes as characters |
| `ObjectIds.CastId` | server/server.js:41-43 | a path parameter casts to an id exactly when it is 24 hex digits; any other string is a CastError |
| `ObjectIds.CastIdToString` | server/models/Todo.js:32 | the string form of an id casts back to that same id |
| `ObjectIds.IdToStringInjective` | server/models/Todo.js:32 | two ids have the same string form only if they are the same id |
| `TodoModel.StoredTextNotBlank` | server/models/Todo.js:4-8 | a text the schema accepts for storage (non-empty and trimmed) is never blank |
| `TodoModel.TodoDocument.constructor` | server/models/Todo.js:3-21 | a new document holds the trimmed text; `completed` defaults to false; both timestamps are set to the current time; `__v` is 0 |
| `TodoModel.TodoDocument.PreSave` | server/models/Todo.js:24-27 | the hook sets `updatedAt` to the current time and changes no other field |
| `TodoModel.ToJSON` | server/models/Todo.js:30-38 | the output has an `id` key holding the string form of `_id`; `_id` and `__v` are gone; both timestamps become ISO strings; every other key passes through unchanged |
| `TodoModel.TransformToJSON` | server/models/Todo.js:31-37 | the step-by-step in-place rewrite of `ret` gives exactly `ToJSON` of the old `ret` |
| `TodoModel.ToJSONOfDocument` | server/models/Todo.js:30-38 | serialising a stored document gives exactly its wire record (`id`, `text`, `completed`, `createdAt`, `updatedAt`), with no `_id` and no `__v` |
| `TodoModel.WireIdCastsBack` | server/models/Todo.js:32 | the `id` a client receives casts back to the record's own id when used as a path parameter |
| `TodoModel.ToWireInjective` | server/models/Todo.js:32 | records with different ids never share a wire record |
| `TodoStore.ApplyUpdatePartial` | server/server.js:72-85 | an update always stamps `updatedAt`; it leaves `text` and `completed` alone when they are not given; it never changes the id or `createdAt`; it keeps the stored text valid when the given text is not blank |
| `TodoStore.CompletedIds` | server/server.js:121 | an id is matched exactly when its record is completed |
| `TodoStore.WithoutCompleted` | server/server.js:121 | the remaining records are exactly the non-completed ones, unchanged |
| `TodoStore.WithoutCompletedCount` | server/server.js:121-125 | the number of records removed equals the number of completed records |
| `TodoStore.NewestExists` | server/server.js:23 | a non-empty collection has a record that no other record is newer than |
| `TodoStore.SortedPrefixStep` | server/server.js:23 | moving the newest remaining record to the end of the listing keeps the listing newest-first and complete so far |
| `TodoStore.TodoCollection.Save` | server/server.js:62 | the `required` validator runs first, then the pre-save hook, then the insert; the insert fails when the store is unreachable or the id is taken; on success exactly one record is added |
| `TodoStore.TodoCollection.FindById` | server/server.js:33 | a malformed id is a CastError; a well-formed id returns its record, or nothing when there is none |
| `TodoStore.TodoCollection.FindByIdAndUpdate` | server/server.js:82-85 | the id is cast first; a given text that trims to `""` fails the `required` validator; on success only that record changes, to the updated record |
| `TodoStore.TodoCollection.FindByIdAndDelete` | server/server.js:103 | a malformed id is a CastError; otherwise exactly that record is removed and returned, or nothing changes |
| `TodoStore.TodoCollection.DeleteCompleted` | server/server.js:121 | exactly the completed records are removed, and the count reported equals the number removed |
| `TodoStore.TodoCollection.FindNewestFirst` | server/server.js:23 | every record appears exactly once, ordered by `createdAt` descending |
| `Server.SerializeAll` | server/server.js:24 | every record is sent in its wire form, in the same order |
| `Server.ListTodos` | server/server.js:21-28 | 200 with a listing of as many entries as there are records: every record's wire form is in it, and every entry is some record's wire form, newest first; a store failure gives 500 "Failed to fetch todos" |
| `Server.ListingCoversStore` | server/server.js:24 | serialising a listing that holds every record gives a response that holds every record's wire form |
| `Server.ListingFromStore` | server/server.js:24 | serialising a listing of store records gives a response in which every entry is some record's wire form |
| `Server.SerializedListing` | server/server.js:23-24 | serialising the newest-first listing of every record gives the store's complete wire listing, newest first |
| `Server.GetTodo` | server/server.js:31-46 | a malformed id gives 400 "Invalid todo ID"; a well-formed id gives 200 with the record, or 404 "Todo not found"; a store failure gives 500 "Failed to fetch todo" |
| `Server.CreateTodo` | server/server.js:49-67 | a missing, empty or blank text gives 400 and the store is unchanged; otherwise 201 with a new record (trimmed text, `completed` defaulting to false, both timestamps at `now`) added and nothing else changed; a store failure gives 500 and the store is unchanged |
| `Server.UpdateTodo` | server/server.js:70-98 | a malformed id gives 400; a well-formed id with no record gives 404 and the store is unchanged; on success only that record changes: `updatedAt` becomes `now`, `text` becomes the trimmed text only if given, `completed` changes only if given, and the id and `createdAt` are kept; a store failure gives 500 |
| `Server.DeleteTodo` | server/server.js:101-116 | an existing id is removed and nothing else changes (200); a well-formed unknown id gives 404 and the store is unchanged; a malformed id gives 400; a store failure gives 500 |
| `Server.DeleteCompletedTodos` | server/server.js:119-129 | exactly the completed records are removed; the reported count is the number removed (0 is still a 200); a store failure gives 500 and the store is unchanged |
| `Client.FilterCounts` | client/src/App.js:116-123 | a filter keeps every item the predicate accepts, as many times as the list holds it, and drops every other item |
| `Client.FilterAppend` | client/src/App.js:101 | filtering a concatenation gives the concatenation of the filtered parts, so filtering keeps the items' order |
| `Client.FilteredViews` | client/src/App.js:116-120 | 'active' shows exactly the non-completed items; 'completed' shows exactly the completed ones; any other filter value shows the whole list |
| `Client.ViewsPartition` | client/src/App.js:122-123 | the active and completed views split the list: their multisets add up to the list's, with no overlap |
| `Client.CountsSum` | client/src/App.js:148-160 | the Active count plus the Completed count equals the All count |
| `Client.ClearButtonIffSomeCompleted` | client/src/App.js:240 | the clear button is shown exactly when some item is completed |
| `Client.FindById` | client/src/App.js:49 | finds nothing exactly when no item has the id; otherwise returns the first item with that id |
| `Client.ReplaceById` | client/src/App.js:56 | the length is kept; every entry with the id becomes the reply; every other entry stays in place |
| `Client.RemoveByIdExact` | client/src/App.js:101 | no entry with the id remains; every other entry is kept as many times as before, and in order |
| `Client.ClearCompletedExact` | client/src/App.js:110 | only active items remain, each as many times as before, and the list shrinks by the completed count |
| `Client.TodoApp.constructor` | client/src/App.js:8-13 | the initial state: no items, an empty draft, filter 'all', not loading, not editing |
| `Client.TodoApp.SetInputText` | client/src/App.js:136 | typing changes only the draft |
| `Client.TodoApp.SetFilter` | client/src/App.js:146 | a filter button changes only the filter |
| `Client.TodoApp.SetEditText` | client/src/App.js:189 | typing in the edit field changes only the edit draft |
| `Client.TodoApp.FetchTodos` | client/src/App.js:20-30 | sends GET; on success the list becomes the reply; on failure the list is kept; loading is false afterwards either way |
| `Client.TodoApp.AddTodo` | client/src/App.js:32-46 | a blank draft sends nothing and changes nothing; otherwise the draft is posted untrimmed with `completed: false`; on success the reply is appended after the existing items and the draft is cleared; on failure both are kept |
| `Client.TodoApp.ToggleTodo` | client/src/App.js:48-60 | an unknown id sends nothing and changes nothing; otherwise it sends the negation of the first match's `completed`, and on success only entries with that id are replaced |
| `Client.TodoApp.StartEdit` | client/src/App.js:62-65 | sets the editing id and the edit draft, and touches nothing else |
| `Client.TodoApp.CancelEdit` | client/src/App.js:67-70 | resets the editing id to null and the draft to `""`; the items are untouched and nothing is sent |
| `Client.TodoApp.SaveEdit` | client/src/App.js:72-88 | a blank draft acts as cancel and sends nothing; otherwise it sends the trimmed draft; on success the matching entries are replaced and edit mode ends; on failure the edit state and the items are kept |
| `Client.TodoApp.HandleEditKeyPress` | client/src/App.js:90-96 | Enter does exactly what `SaveEdit` does: a blank draft ends edit mode and sends nothing; success replaces the entries and ends edit mode; failure keeps the items and the edit state. Escape cancels; any other key changes nothing |
| `Client.TodoApp.DeleteTodo` | client/src/App.js:98-105 | on success every entry with the id is removed and the rest keep their order; on failure nothing changes |
| `Client.TodoApp.ClearCompleted` | client/src/App.js:107-114 | on success the list keeps exactly its active items, in order, whatever count the server reports; on failure nothing changes |
| `Scenarios.ActiveFilterScenario` | client/src/App.js:116-123 | with filter 'active' on one active and one completed item, only the first is shown, and both the Active and Completed labels read 1 |
| `Scenarios.CreateAndComplete` | server/server.js:49-98 | creating one item, completing it, then creating a second leaves exactly those two records: the first completed, the second active and holding its text |

`Scenarios.ClearCompletedScenario` carries the walk-through on: clearing completed items then reports a count of 1, and the listing holds only the second item. `Scenarios.EmptyEditScenario` starts an edit, empties the draft and saves. Edit mode ends, the list is unchanged and no request is sent.

Two behaviours of the code are easy to miss:

- **Update with a blank text.** Creating an item with blank text is a 400 (server/server.js:53-55). Updating is different: an update whose text trims to `""` reaches the store. The store's `required` validator then fails, and the handler's catch turns that into 500 "Failed to update todo" (server/server.js:92-96). `Server.UpdateTodo` states the 500.
- **500 responses on get and delete by id.** These routes answer 400 for a malformed id and 404 for an unknown one. A store failure gives 500 "Failed to fetch todo" (server/server.js:44) or "Failed to delete todo" (server/server.js:114), and the model states both.

## Left out

- Express setup, body parsing, CORS, `app.listen`, dotenv and the database connection (server/server.js:1-18, 141-143) are I/O and configuration only.
- The health check (server/server.js:132-139) reads the driver's connection state, which the model cannot see.
- How the store generates ObjectIds is not modelled; the new id is a parameter. The cast accepts exactly 24 hex digits. The 12-character strings that the id library also accepts are left out.
- Request bodies are typed. `text` is an optional string and `completed` an optional boolean. A non-string `text` (a TypeError inside the handler) and the store's casting of non-boolean `completed` values are left out.
- Update validators are modelled only as the `required` check on a given text. Other validator behaviour is left out.
- The store's internal exceptions are not modelled one by one. They are all folded into the `available` flag.
- Timestamps are integer milliseconds. `toISOString` is represented symbolically (`JIso`), not as the formatted string.
- One clock reading stands for every `Date.now()` inside a request. In the source, `createdAt` and `updatedAt` of a new record could differ by the time between two clock reads.
- The property `updatedAt >= createdAt` of a stored record depends on the clock never going backwards. The clock is an arbitrary parameter here, so the store invariant does not include it.
- `__v` is kept only so that `toJSON` can drop it. No store operation changes it.
- React rendering, JSX, CSS, axios and `alert` are out of scope. Network results are the outcome parameter of each client method.
- The checkbox that is disabled while its item is being edited (client/src/App.js:181) is not modelled. `Client.TodoApp.ToggleTodo` accepts any id.
- `autoFocus` and the empty-state messages (client/src/App.js:165-172) are rendering only.
- Client.TodoApp.FetchTodos: the loading flag is true only while the request is in flight. That window is not observable in a single sequential step, so the contract states only the final `loading == false`.
- Concurrency is out of scope: out-of-order replies, stale `todos` captured by the action closures, and concurrent requests against the store. Every action is one sequential step.
- The client trusts every successful reply as-is. Nothing checks that the returned item carries the requested id.
