/**
 * The to-do record schema: the stored document with its defaults, its `required` and `trim` rules and
 * its pre-save hook, and the `toJSON` transform that turns a stored document into its wire form.
 */
module TodoModel {
  import opened Options
  import opened Text
  import opened ObjectIds

  /** Milliseconds since the epoch, as `Date.now()` returns them. */
  type Timestamp = int

  /** A stored document: the schema's four paths plus the store's `_id` and version key `__v`. */
  datatype Todo = Todo(id: ObjectId, text: string, completed: bool, createdAt: Timestamp, updatedAt: Timestamp, version: nat)

  /** What the schema lets the store hold as `text`: present and non-empty (`required`) and already trimmed (`trim`). */
  predicate IsStoredText(s: string) {
    s != "" && IsTrimmed(s)
  }

  /** A stored text is never blank. */
  lemma StoredTextNotBlank(s: string)
    requires IsStoredText(s)
    ensures !IsBlank(s)
  {
    TrimmedIffFixed(s);
  }

  /** A document built from the schema (`new Todo({...})`), before and while it is saved. */
  class TodoDocument {
    var id: ObjectId
    var text: string
    var completed: bool
    var createdAt: Timestamp
    var updatedAt: Timestamp
    var version: nat

    /** The schema's `trim` setter: a document only ever holds trimmed text. */
    ghost predicate Valid()
      reads this
    {
      IsTrimmed(text)
    }

    /**
     * `new Todo({ text, completed })`: the store assigns `id`; `text` goes through the trim setter;
     * `completed` defaults to false; both timestamps default to the current time; `__v` starts at 0.
     */
    constructor (id: ObjectId, text: string, completed: Option<bool>, now: Timestamp)
      ensures Valid()
      ensures this.id == id && this.text == Trim(text)
      ensures this.completed == completed.GetOr(false)
      ensures createdAt == now && updatedAt == now && version == 0
    {
      TrimmedIffFixed(text);
      this.id := id;
      this.text := Trim(text);
      this.completed := completed.GetOr(false);
      this.createdAt := now;
      this.updatedAt := now;
      this.version := 0;
    }

    /** The `required` validator on `text`: an empty string counts as missing. */
    predicate PassesValidation()
      reads this
    {
      text != ""
    }

    /** The pre-save hook: every save stamps `updatedAt` with the current time and changes nothing else. */
    method PreSave(now: Timestamp)
      modifies this
      ensures updatedAt == now
      ensures id == old(id) && text == old(text) && completed == old(completed)
      ensures createdAt == old(createdAt) && version == old(version)
    {
      updatedAt := now;
    }

    /** The document's current contents. */
    function Value(): Todo
      reads this
    {
      Todo(id, text, completed, createdAt, updatedAt, version)
    }
  }

  /** The values a document's plain object can hold; `JIso(t)` is the ISO-8601 string of instant `t`. */
  datatype Json =
    | JString(s: string)
    | JBool(b: bool)
    | JNumber(n: int)
    | JDate(t: Timestamp)
    | JIso(at: Timestamp)
    | JObjectId(oid: ObjectId)

  /** `doc.toObject()`: the stored paths under their stored names, as the transform receives them in `ret`. */
  function ToObject(t: Todo): map<string, Json> {
    map["_id" := JObjectId(t.id), "text" := JString(t.text), "completed" := JBool(t.completed),
        "createdAt" := JDate(t.createdAt), "updatedAt" := JDate(t.updatedAt), "__v" := JNumber(t.version)]
  }

  /** What the transform relies on in `ret`: an ObjectId under `_id` and dates under both timestamps. */
  predicate IsDocumentObject(ret: map<string, Json>) {
    && "_id" in ret && ret["_id"].JObjectId?
    && "createdAt" in ret && ret["createdAt"].JDate?
    && "updatedAt" in ret && ret["updatedAt"].JDate?
  }

  /** The only keys the transform writes or deletes. */
  const RewrittenKeys: set<string> := {"id", "_id", "__v", "createdAt", "updatedAt"}

  /** The result of the `toJSON` transform on `ret`. */
  function ToJSON(ret: map<string, Json>): (r: map<string, Json>)
    requires IsDocumentObject(ret)
    ensures r.Keys == ret.Keys - {"_id", "__v"} + {"id"}
    ensures r["id"] == JString(IdToString(ret["_id"].oid))
    ensures r["createdAt"] == JIso(ret["createdAt"].t) && r["updatedAt"] == JIso(ret["updatedAt"].t)
    ensures forall k :: k in ret && k !in RewrittenKeys ==> k in r && r[k] == ret[k]
  {
    (ret - {"_id", "__v"})["id" := JString(IdToString(ret["_id"].oid))]
      ["createdAt" := JIso(ret["createdAt"].t)]["updatedAt" := JIso(ret["updatedAt"].t)]
  }

  /** A plain object whose properties are assigned and deleted in place. */
  class PlainObject {
    var fields: map<string, Json>

    constructor (fields: map<string, Json>)
      ensures this.fields == fields
    {
      this.fields := fields;
    }
  }

  /** The `toJSON` transform as the schema runs it: it rewrites `ret` in place, one property at a time. */
  method TransformToJSON(ret: PlainObject)
    requires IsDocumentObject(ret.fields)
    modifies ret
    ensures ret.fields == ToJSON(old(ret.fields))
  {
    ret.fields := ret.fields["id" := JString(IdToString(ret.fields["_id"].oid))];
    ret.fields := ret.fields["createdAt" := JIso(ret.fields["createdAt"].t)];
    ret.fields := ret.fields["updatedAt" := JIso(ret.fields["updatedAt"].t)];
    ret.fields := ret.fields - {"_id"};
    ret.fields := ret.fields - {"__v"};
  }

  /** An item as the API sends it and the client holds it; the timestamps travel as ISO-8601 strings. */
  datatype WireTodo = WireTodo(id: string, text: string, completed: bool, createdAt: Timestamp, updatedAt: Timestamp)

  /** The wire record of a stored document. */
  function ToWire(t: Todo): WireTodo {
    WireTodo(IdToString(t.id), t.text, t.completed, t.createdAt, t.updatedAt)
  }

  /** The JSON object of a wire record. */
  function WireFields(w: WireTodo): map<string, Json> {
    map["id" := JString(w.id), "text" := JString(w.text), "completed" := JBool(w.completed),
        "createdAt" := JIso(w.createdAt), "updatedAt" := JIso(w.updatedAt)]
  }

  /**
   * Serialising a stored document gives exactly its wire record: `id` is the string form of `_id`, the
   * timestamps become ISO strings, `text` and `completed` pass through, and neither `_id` nor `__v` is sent.
   */
  lemma ToJSONOfDocument(t: Todo)
    ensures IsDocumentObject(ToObject(t))
    ensures ToJSON(ToObject(t)) == WireFields(ToWire(t))
    ensures "_id" !in ToJSON(ToObject(t)) && "__v" !in ToJSON(ToObject(t))
  {
    var r := ToJSON(ToObject(t));
    assert "text" !in RewrittenKeys && "completed" !in RewrittenKeys;
    assert r.Keys == WireFields(ToWire(t)).Keys;
  }

  /** The `id` a client receives names the same record when it is sent back as a path parameter. */
  lemma WireIdCastsBack(t: Todo)
    ensures CastId(ToWire(t).id) == Some(t.id)
  {
    CastIdToString(t.id);
  }

  /** Two stored documents with different ids never share a wire record. */
  lemma ToWireInjective(a: Todo, b: Todo)
    requires a.id != b.id
    ensures ToWire(a) != ToWire(b)
  {
    IdToStringInjective(a.id, b.id);
  }
}
