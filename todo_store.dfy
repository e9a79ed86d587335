/**
 * The to-do collection as the route handlers use it: an id -> record map behind the store calls the
 * handlers make (`save`, `findById`, `findByIdAndUpdate`, `findByIdAndDelete`, `deleteMany`,
 * `find().sort`). `available` says whether the store can be reached for that call.
 */
module TodoStore {
  import opened Options
  import opened Text
  import opened ObjectIds
  import opened TodoModel

  /** Why a store call failed. CastError is a malformed id; every other kind reaches the handler as a generic failure. */
  datatype StoreError = CastError | ValidationError | DuplicateKey | Unavailable

  datatype Result<T> = Ok(value: T) | Err(error: StoreError)

  /** The `$set` document of an update: `updatedAt` always, `text` and `completed` only when given. */
  datatype UpdateData = UpdateData(updatedAt: Timestamp, text: Option<string>, completed: Option<bool>)

  /** The stored record after `u` is applied to `t`; the schema's trim setter applies to a new `text`. */
  function ApplyUpdate(t: Todo, u: UpdateData): Todo {
    t.(updatedAt := u.updatedAt,
       text := if u.text.Some? then Trim(u.text.value) else t.text,
       completed := u.completed.GetOr(t.completed))
  }

  /**
   * An update stamps `updatedAt`, leaves every field it does not name as it was, never touches the id
   * or the creation time, and keeps a stored text valid whenever a given text is not blank.
   */
  lemma ApplyUpdatePartial(t: Todo, u: UpdateData)
    ensures ApplyUpdate(t, u).updatedAt == u.updatedAt
    ensures u.text.None? ==> ApplyUpdate(t, u).text == t.text
    ensures u.completed.None? ==> ApplyUpdate(t, u).completed == t.completed
    ensures u.completed.Some? ==> ApplyUpdate(t, u).completed == u.completed.value
    ensures ApplyUpdate(t, u).id == t.id && ApplyUpdate(t, u).createdAt == t.createdAt
    ensures IsStoredText(t.text) && (u.text.Some? ==> !IsBlank(u.text.value))
            ==> IsStoredText(ApplyUpdate(t, u).text)
  {
    if u.text.Some? {
      TrimmedIffFixed(u.text.value);
    }
  }

  /** The ids of the completed records: what `deleteMany({ completed: true })` matches. */
  function CompletedIds(docs: map<ObjectId, Todo>): (ids: set<ObjectId>)
    ensures ids <= docs.Keys
    ensures forall k :: k in docs ==> (k in ids <==> docs[k].completed)
  {
    set k | k in docs && docs[k].completed
  }

  /** The collection once the completed records are gone. */
  function WithoutCompleted(docs: map<ObjectId, Todo>): (rest: map<ObjectId, Todo>)
    ensures rest.Keys == docs.Keys - CompletedIds(docs)
    ensures forall k :: k in rest ==> rest[k] == docs[k] && !rest[k].completed
  {
    map k | k in docs && !docs[k].completed :: docs[k]
  }

  /** Removing the completed records removes exactly as many records as are completed. */
  lemma WithoutCompletedCount(docs: map<ObjectId, Todo>)
    ensures |WithoutCompleted(docs)| + |CompletedIds(docs)| == |docs|
  {
    var done := CompletedIds(docs);
    var kept := WithoutCompleted(docs).Keys;
    assert docs.Keys == kept + done;
    assert kept * done == {};
    assert |WithoutCompleted(docs)| == |kept|;
  }

  /** Newest first: creation times never increase along the list. */
  ghost predicate NewestFirst(s: seq<Todo>) {
    forall i, j :: 0 <= i < j < |s| ==> s[i].createdAt >= s[j].createdAt
  }

  /** Every record of `m` that no other record of `m` is newer than. */
  predicate IsNewest(m: map<ObjectId, Todo>, k: ObjectId) {
    k in m && forall j :: j in m ==> m[j].createdAt <= m[k].createdAt
  }

  /** A non-empty collection has a newest record. */
  lemma {:induction false} NewestExists(m: map<ObjectId, Todo>)
    requires m != map[]
    ensures exists k :: IsNewest(m, k)
    decreases |m|
  {
    var k0 :| k0 in m;
    var rest := m - {k0};
    assert rest.Keys == m.Keys - {k0};
    if rest.Keys == {} {
      assert m.Keys == {k0};
      assert IsNewest(m, k0);
    } else {
      NewestExists(rest);
      var k1 :| IsNewest(rest, k1);
      var k := if m[k1].createdAt >= m[k0].createdAt then k1 else k0;
      forall j | j in m ensures m[j].createdAt <= m[k].createdAt {
        if j != k0 {
          assert j in rest;
        }
      }
      assert IsNewest(m, k);
    }
  }

  /**
   * Selection state of a newest-first listing of `docs`: `out` lists, newest first, the records no
   * longer in `rest`, and none of them is older than a record still in `rest`.
   */
  ghost predicate SortedPrefix(docs: map<ObjectId, Todo>, rest: map<ObjectId, Todo>, out: seq<Todo>) {
    && rest.Keys <= docs.Keys
    && (forall k :: k in rest ==> rest[k] == docs[k])
    && |out| + |rest| == |docs|
    && (forall k :: k in docs && k !in rest ==> docs[k] in out)
    && (forall t :: t in out ==> t.id in docs && docs[t.id] == t)
    && NewestFirst(out)
    && (forall i, k :: 0 <= i < |out| && k in rest ==> out[i].createdAt >= rest[k].createdAt)
  }

  /** Moving the newest remaining record to the end of the listing keeps the selection state. */
  lemma SortedPrefixStep(docs: map<ObjectId, Todo>, rest: map<ObjectId, Todo>, out: seq<Todo>, k: ObjectId)
    requires forall j :: j in docs ==> docs[j].id == j
    requires SortedPrefix(docs, rest, out) && IsNewest(rest, k)
    ensures SortedPrefix(docs, rest - {k}, out + [rest[k]])
    ensures |rest - {k}| < |rest|
  {
    var t := rest[k];
    var rest', out' := rest - {k}, out + [t];
    assert rest'.Keys == rest.Keys - {k};
    forall x | x in out' ensures x.id in docs && docs[x.id] == x {
      if x != t {
        assert x in out;
      }
    }
    forall j | j in docs && j !in rest' ensures docs[j] in out' {
      if j != k {
        assert docs[j] in out;
      } else {
        assert out'[|out|] == docs[j];
      }
    }
  }

  class TodoCollection {
    var docs: map<ObjectId, Todo>

    /** Each record sits under its own id and holds a text the schema accepts. */
    ghost predicate Valid()
      reads this
    {
      forall k :: k in docs ==> docs[k].id == k && IsStoredText(docs[k].text)
    }

    constructor ()
      ensures Valid() && docs == map[]
    {
      docs := map[];
    }

    /**
     * `doc.save()`: the `required` validator, then the pre-save hook, then the insert, which fails when
     * the store is unreachable or the id is taken.
     */
    method Save(doc: TodoDocument, now: Timestamp, available: bool) returns (res: Result<Todo>)
      requires Valid() && doc.Valid()
      modifies this, doc
      ensures Valid()
      ensures !old(doc.PassesValidation()) ==> res == Err(ValidationError) && doc.updatedAt == old(doc.updatedAt)
      ensures old(doc.PassesValidation()) ==> doc.updatedAt == now
      ensures old(doc.PassesValidation()) && !available ==> res == Err(Unavailable)
      ensures old(doc.PassesValidation()) && available && doc.id in old(docs) ==> res == Err(DuplicateKey)
      ensures res.Ok? <==> old(doc.PassesValidation()) && available && doc.id !in old(docs)
      ensures res.Ok? ==> res.value == doc.Value() && docs == old(docs)[doc.id := doc.Value()]
      ensures res.Err? ==> docs == old(docs)
      ensures doc.id == old(doc.id) && doc.text == old(doc.text) && doc.completed == old(doc.completed)
      ensures doc.createdAt == old(doc.createdAt) && doc.version == old(doc.version)
    {
      if !doc.PassesValidation() {
        return Err(ValidationError);
      }
      doc.PreSave(now);
      if !available {
        return Err(Unavailable);
      }
      if doc.id in docs {
        return Err(DuplicateKey);
      }
      var t := doc.Value();
      docs := docs[doc.id := t];
      res := Ok(t);
    }

    /** `findById(id)`: a malformed id is a CastError; a well-formed id with no record finds nothing. */
    method FindById(id: string, available: bool) returns (res: Result<Option<Todo>>)
      ensures CastId(id).None? ==> res == Err(CastError)
      ensures CastId(id).Some? && !available ==> res == Err(Unavailable)
      ensures CastId(id).Some? && available ==>
                var k := CastId(id).value;
                res == Ok(if k in docs then Some(docs[k]) else None)
    {
      var key := CastId(id);
      if key.None? {
        return Err(CastError);
      }
      if !available {
        return Err(Unavailable);
      }
      var k := key.value;
      if k in docs {
        res := Ok(Some(docs[k]));
      } else {
        res := Ok(None);
      }
    }

    /**
     * `findByIdAndUpdate(id, u, { new: true, runValidators: true })`: the id is cast, the validators run
     * on the fields being set (a given text that trims to "" fails `required`), and the updated record
     * is returned.
     */
    method FindByIdAndUpdate(id: string, u: UpdateData, available: bool) returns (res: Result<Option<Todo>>)
      requires Valid()
      modifies this
      ensures Valid()
      ensures CastId(id).None? ==> res == Err(CastError)
      ensures CastId(id).Some? && u.text.Some? && IsBlank(u.text.value) ==> res == Err(ValidationError)
      ensures CastId(id).Some? && !(u.text.Some? && IsBlank(u.text.value)) && !available ==> res == Err(Unavailable)
      ensures CastId(id).Some? && !(u.text.Some? && IsBlank(u.text.value)) && available ==>
                var k := CastId(id).value;
                if k in old(docs) then
                  res == Ok(Some(ApplyUpdate(old(docs)[k], u))) && docs == old(docs)[k := ApplyUpdate(old(docs)[k], u)]
                else
                  res == Ok(None) && docs == old(docs)
      ensures res.Err? ==> docs == old(docs)
    {
      var key := CastId(id);
      if key.None? {
        return Err(CastError);
      }
      if u.text.Some? && IsBlank(u.text.value) {
        return Err(ValidationError);
      }
      if !available {
        return Err(Unavailable);
      }
      var k := key.value;
      if k in docs {
        var t := ApplyUpdate(docs[k], u);
        ApplyUpdatePartial(docs[k], u);
        docs := docs[k := t];
        res := Ok(Some(t));
      } else {
        res := Ok(None);
      }
    }

    /** `findByIdAndDelete(id)`: removes the record and returns it, or finds nothing. */
    method FindByIdAndDelete(id: string, available: bool) returns (res: Result<Option<Todo>>)
      requires Valid()
      modifies this
      ensures Valid()
      ensures CastId(id).None? ==> res == Err(CastError)
      ensures CastId(id).Some? && !available ==> res == Err(Unavailable)
      ensures CastId(id).Some? && available ==>
                var k := CastId(id).value;
                if k in old(docs) then res == Ok(Some(old(docs)[k])) && docs == old(docs) - {k}
                else res == Ok(None) && docs == old(docs)
      ensures res.Err? ==> docs == old(docs)
    {
      var key := CastId(id);
      if key.None? {
        return Err(CastError);
      }
      if !available {
        return Err(Unavailable);
      }
      var k := key.value;
      if k in docs {
        res := Ok(Some(docs[k]));
        docs := docs - {k};
      } else {
        res := Ok(None);
      }
    }

    /** `deleteMany({ completed: true })`: removes every completed record and reports how many went. */
    method DeleteCompleted(available: bool) returns (res: Result<nat>)
      requires Valid()
      modifies this
      ensures Valid()
      ensures !available ==> res == Err(Unavailable) && docs == old(docs)
      ensures available ==> docs == WithoutCompleted(old(docs)) && res == Ok(|old(docs)| - |docs|)
      ensures available ==> res.value == |CompletedIds(old(docs))|
    {
      if !available {
        return Err(Unavailable);
      }
      WithoutCompletedCount(docs);
      var before := |docs|;
      docs := WithoutCompleted(docs);
      res := Ok(before - |docs|);
    }

    /**
     * `find().sort({ createdAt: -1 })`: every record exactly once, newest first. Records created at the
     * same instant may come in any order.
     */
    method FindNewestFirst(available: bool) returns (res: Result<seq<Todo>>)
      requires Valid()
      ensures !available ==> res == Err(Unavailable)
      ensures available ==> res.Ok?
      ensures res.Ok? ==> |res.value| == |docs| && NewestFirst(res.value)
      ensures res.Ok? ==> forall k :: k in docs ==> docs[k] in res.value
      ensures res.Ok? ==> forall t :: t in res.value ==> t.id in docs && docs[t.id] == t
    {
      if !available {
        return Err(Unavailable);
      }
      var rest := docs;
      var out: seq<Todo> := [];
      while rest != map[]
        invariant SortedPrefix(docs, rest, out)
        decreases |rest|
      {
        NewestExists(rest);
        var k :| IsNewest(rest, k);
        SortedPrefixStep(docs, rest, out, k);
        out := out + [rest[k]];
        rest := rest - {k};
      }
      res := Ok(out);
    }
  }
}
