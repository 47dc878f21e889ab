/** routes/expenses.js: the caller's own expenses in the strict schema:
    listing by owner, a validated create, and update and delete gated on
    existence and then ownership. */
module ExpenseRoutes {
  import opened Js
  import opened Http
  import opened Seqs
  import opened Ordering
  import opened Collections
  import opened ExpenseSchema

  // ---------------------------------------------------------------------
  // GET /

  /** The key of `.sort({ date: -1 })` on an expense. */
  function ExpenseDateKey(e: Expense): SortKey
  {
    ValueKey(e.date)
  }

  /** The caller's own documents among `all`, newest date first. */
  function ListByOwner(all: seq<Expense>, caller: Id): (r: seq<Expense>)
    ensures SortedDesc(r, ExpenseDateKey)
    ensures multiset(r) == multiset(Filter(all, (e: Expense) => e.user == Str(caller)))
    ensures forall i :: 0 <= i < |r| ==> r[i].user == Str(caller) && r[i] in all
    ensures forall i :: 0 <= i < |all| && all[i].user == Str(caller) ==> all[i] in r
  {
    var owned := Filter(all, (e: Expense) => e.user == Str(caller));
    var r := SortByDateDesc(owned, ExpenseDateKey);
    forall i | 0 <= i < |r| ensures r[i].user == Str(caller) && r[i] in all {
      assert r[i] in multiset(r);
      var j :| 0 <= j < |owned| && owned[j] == r[i];
    }
    forall i | 0 <= i < |all| && all[i].user == Str(caller) ensures all[i] in r {
      assert all[i] in multiset(owned);
    }
    r
  }

  // ---------------------------------------------------------------------
  // POST /

  const TitleRequired := "Title is required"
  const AmountRequired := "Amount is required"
  const CategoryRequired := "Category is required"

  /** `validationResult(req)` for the three checks, in their order. */
  function CreateErrors(body: Doc): (r: seq<string>)
    ensures TitleRequired in r <==> IsEmptyValue(Get(body, "title"))
    ensures AmountRequired in r <==> !IsNumericValue(Get(body, "amount"))
    ensures CategoryRequired in r <==> IsEmptyValue(Get(body, "category"))
    ensures forall i :: 0 <= i < |r| ==> r[i] in {TitleRequired, AmountRequired, CategoryRequired}
    ensures |r| == (if IsEmptyValue(Get(body, "title")) then 1 else 0)
                 + (if IsNumericValue(Get(body, "amount")) then 0 else 1)
                 + (if IsEmptyValue(Get(body, "category")) then 1 else 0)
  {
    (if IsEmptyValue(Get(body, "title")) then [TitleRequired] else [])
    + (if IsNumericValue(Get(body, "amount")) then [] else [AmountRequired])
    + (if IsEmptyValue(Get(body, "category")) then [CategoryRequired] else [])
  }

  /** The body fields the route copies into the new document. */
  const RouteFields: set<string> := {"title", "amount", "description", "category", "team", "tags", "receipt"}

  /** The object passed to `new Expense(...)`: the seven route fields of the
      body and `user` set to the caller; a field the body lacks is Null. */
  function Drafted(body: Doc, caller: Id): (r: Doc)
    ensures r.Keys == RouteFields + {"user"}
    ensures Get(r, "user") == Str(caller)
    ensures forall k :: k in RouteFields ==> Get(r, k) == Get(body, k)
    ensures Get(r, "status") == Null && Get(r, "date") == Null
  {
    map k | k in RouteFields + {"user"} :: if k == "user" then Str(caller) else Get(body, k)
  }

  /** The document `newExpense.save()` stores, or None when the save throws. */
  function Built(body: Doc, caller: Id, now: int): Option<Expense>
  {
    Instantiate(Drafted(body, caller), now)
  }

  /** `POST /`: 400 with one message per failed check and nothing stored;
      500 when the schema refuses the document; otherwise the saved document. */
  method Create(store: Collection<Expense>, caller: Id, body: Doc, newId: Id, now: int)
    returns (r: Reply<Expense>)
    requires store.Valid() && newId !in store.records
    modifies store
    ensures store.Valid()
    ensures CreateErrors(body) != [] ==> r == Fail(BAD_REQUEST, CreateErrors(body)) && unchanged(store)
    ensures CreateErrors(body) == [] && Built(body, caller, now).None? ==>
      r == Fail(SERVER_ERROR, []) && unchanged(store)
    ensures CreateErrors(body) == [] && Built(body, caller, now).Some? ==>
      && store.records == old(store.records)[newId := Built(body, caller, now).value]
      && store.order == old(store.order) + [newId]
      && r == Ok(OK, Built(body, caller, now).value)
  {
    var errors := CreateErrors(body);
    if errors != [] {
      return Fail(BAD_REQUEST, errors);
    }
    var built := Built(body, caller, now);
    if built.None? {
      return Fail(SERVER_ERROR, []);
    }
    store.Insert(newId, built.value);
    r := Ok(OK, built.value);
  }

  /** A created expense belongs to the caller whatever the body says, is
      pending and dated now, and holds the body's route fields, cast; the
      body's `user`, `status`, `date` and any other key are ignored. */
  lemma CreatedExpense(body: Doc, caller: Id, now: int)
    requires Built(body, caller, now).Some?
    ensures var e := Built(body, caller, now).value;
      && e.user == Str(caller)
      && e.status == Str("pending")
      && e.date == Time(now)
      && Some(e.title) == CastText(Get(body, "title"))
      && Some(e.amount) == CastAmount(Get(body, "amount"))
      && Some(e.description) == CastText(Get(body, "description"))
      && Some(e.category) == CastText(Get(body, "category"))
      && Some(e.team) == CastText(Get(body, "team"))
      && Some(e.receipt) == CastText(Get(body, "receipt"))
      && (Get(body, "tags") == Null ==> e.tags == Arr([]))
      && (Get(body, "tags") != Null ==> Some(e.tags) == CastTags(Get(body, "tags")))
  {
  }

  /** A body that passes the route's checks but names a category outside the
      schema's enum is refused at save: the route answers 500, not 400. */
  lemma CategoryOutsideEnumFailsAtSave(body: Doc, caller: Id, now: int)
    requires !(Get(body, "category").Str? && Get(body, "category").s in Categories)
    ensures Built(body, caller, now).None?
  {
  }

  /** A body with a title, a number, a category of the enum and text or
      nothing in the optional fields is stored, for any signed-in caller. */
  lemma {:induction false} CreateAccepts(body: Doc, caller: Id, now: int)
    requires caller != ""
    requires Get(body, "title").Str? && Get(body, "title").s != ""
    requires Get(body, "amount").Num?
    requires Get(body, "category").Str? && Get(body, "category").s in Categories
    requires Get(body, "description") == Null || Get(body, "description").Str?
    requires Get(body, "team") == Null || Get(body, "team").Str?
    requires Get(body, "receipt") == Null || Get(body, "receipt").Str?
    requires Get(body, "tags") == Null || Get(body, "tags").Str? || IsTextList(Get(body, "tags"))
    ensures CreateErrors(body) == []
    ensures Built(body, caller, now).Some?
  {
    PassesChecks(body);
    InstantiateAccepts(Drafted(body, caller), now);
  }

  /** A set title, a number for the amount and a set category pass the
      route's three checks. */
  lemma PassesChecks(body: Doc)
    requires Get(body, "title").Str? && Get(body, "title").s != ""
    requires Get(body, "amount").Num?
    requires Get(body, "category").Str? && Get(body, "category").s != ""
    ensures CreateErrors(body) == []
  {
  }

  /** `{ title: 'Lunch', amount: 12.5, category: 'Food' }` is stored as a
      pending expense of the caller, dated now, with no tags. */
  lemma LunchIsStored(caller: Id, now: int)
    requires caller != ""
    ensures var body := map["title" := Str("Lunch"), "amount" := Num(12.5), "category" := Str("Food")];
      && CreateErrors(body) == []
      && Built(body, caller, now) == Some(Expense(
           title := Str("Lunch"), amount := Num(12.5), description := Null, category := Str("Food"),
           date := Time(now), user := Str(caller), team := Null, status := Str("pending"),
           receipt := Null, tags := Arr([])))
  {
    var body := map["title" := Str("Lunch"), "amount" := Num(12.5), "category" := Str("Food")];
    CreateAccepts(body, caller, now);
  }

  // ---------------------------------------------------------------------
  // PUT /:id and DELETE /:id

  /** `expense.user.toString() !== req.user.id` throws on a document with no
      owner. */
  predicate Ownerless(e: Expense)
  {
    e.user == Null
  }

  predicate IsOwner(e: Expense, caller: Id)
  {
    e.user == Str(caller)
  }

  /** One path under `$set`: cast when the body names it, kept otherwise. */
  function SetPath(current: Value, body: Doc, key: string, cast: Value -> Option<Value>): (r: Option<Value>)
    ensures key !in body ==> r == Some(current)
    ensures key in body ==> r == cast(body[key])
  {
    if key in body then cast(body[key]) else Some(current)
  }

  /** Every schema path the body names casts to that path's type. */
  predicate PathsCast(body: Doc)
  {
    && ("title" in body ==> CastText(body["title"]).Some?)
    && ("amount" in body ==> CastAmount(body["amount"]).Some?)
    && ("description" in body ==> CastText(body["description"]).Some?)
    && ("category" in body ==> CastText(body["category"]).Some?)
    && ("date" in body ==> CastDate(body["date"]).Some?)
    && ("user" in body ==> CastText(body["user"]).Some?)
    && ("team" in body ==> CastText(body["team"]).Some?)
    && ("status" in body ==> CastText(body["status"]).Some?)
    && ("receipt" in body ==> CastText(body["receipt"]).Some?)
    && ("tags" in body ==> CastTags(body["tags"]).Some?)
  }

  /** The document after `findByIdAndUpdate(id, { $set: body })`: each path
      the body names is cast and replaced, keys outside the schema are
      dropped, and no validator runs. None on a cast error, or when the body
      would change the document's `_id`. */
  function Patched(id: Id, e: Expense, body: Doc): (r: Option<Expense>)
    ensures r.Some? <==> ("_id" !in body || body["_id"] == Str(id)) && PathsCast(body)
    ensures r.Some? ==>
      && Some(r.value.title) == SetPath(e.title, body, "title", CastText)
      && Some(r.value.amount) == SetPath(e.amount, body, "amount", CastAmount)
      && Some(r.value.description) == SetPath(e.description, body, "description", CastText)
      && Some(r.value.category) == SetPath(e.category, body, "category", CastText)
      && Some(r.value.date) == SetPath(e.date, body, "date", CastDate)
      && Some(r.value.user) == SetPath(e.user, body, "user", CastText)
      && Some(r.value.team) == SetPath(e.team, body, "team", CastText)
      && Some(r.value.status) == SetPath(e.status, body, "status", CastText)
      && Some(r.value.receipt) == SetPath(e.receipt, body, "receipt", CastText)
      && Some(r.value.tags) == SetPath(e.tags, body, "tags", CastTags)
  {
    var title := SetPath(e.title, body, "title", CastText);
    var amount := SetPath(e.amount, body, "amount", CastAmount);
    var description := SetPath(e.description, body, "description", CastText);
    var category := SetPath(e.category, body, "category", CastText);
    var date := SetPath(e.date, body, "date", CastDate);
    var user := SetPath(e.user, body, "user", CastText);
    var team := SetPath(e.team, body, "team", CastText);
    var status := SetPath(e.status, body, "status", CastText);
    var receipt := SetPath(e.receipt, body, "receipt", CastText);
    var tags := SetPath(e.tags, body, "tags", CastTags);
    if "_id" in body && body["_id"] != Str(id) then None
    else if && title.Some? && amount.Some? && description.Some? && category.Some? && date.Some?
            && user.Some? && team.Some? && status.Some? && receipt.Some? && tags.Some?
    then
      Some(Expense(title.value, amount.value, description.value, category.value, date.value,
                   user.value, team.value, status.value, receipt.value, tags.value))
    else None
  }

  /** A body naming none of the schema's paths leaves the document as it is. */
  lemma PatchWithoutSchemaPathsIsIdentity(id: Id, e: Expense, body: Doc)
    requires forall k :: k in body ==> k !in {"title", "amount", "description", "category", "date",
                                            "user", "team", "status", "receipt", "tags", "_id"}
    ensures Patched(id, e, body) == Some(e)
  {
  }

  /** The update does not validate: a valid expense updated to a category
      outside the enum is stored as such. */
  lemma UpdateSkipsValidation(caller: Id)
    requires caller != ""
    ensures var e := Expense(
              title := Str("Lunch"), amount := Num(12.5), description := Null, category := Str("Food"),
              date := Time(0), user := Str(caller), team := Null, status := Str("pending"),
              receipt := Null, tags := Arr([]));
      var patched := Patched("e1", e, map["category" := Str("Travel")]);
      && Valid(e)
      && patched == Some(e.(category := Str("Travel")))
      && !Valid(patched.value)
  {
  }

  /** `PUT /:id`: 404 for a missing document, then 500 for a document with no
      owner, then 401 for another caller's document; 500 when the body does
      not cast; otherwise the document patched and 200 with the new version. */
  method Update(store: Collection<Expense>, caller: Id, id: Id, body: Doc) returns (r: Reply<Expense>)
    requires store.Valid()
    modifies store
    ensures store.Valid()
    ensures id !in old(store.records) ==> r == Fail(NOT_FOUND, []) && unchanged(store)
    ensures id in old(store.records) && Ownerless(old(store.records)[id]) ==>
      r == Fail(SERVER_ERROR, []) && unchanged(store)
    ensures (&& id in old(store.records) && !Ownerless(old(store.records)[id])
             && !IsOwner(old(store.records)[id], caller)) ==>
      r == Fail(UNAUTHORIZED, []) && unchanged(store)
    ensures (&& id in old(store.records) && IsOwner(old(store.records)[id], caller)
             && Patched(id, old(store.records)[id], body).None?) ==>
      r == Fail(SERVER_ERROR, []) && unchanged(store)
    ensures (&& id in old(store.records) && IsOwner(old(store.records)[id], caller)
             && Patched(id, old(store.records)[id], body).Some?) ==>
      && store.records == old(store.records)[id := Patched(id, old(store.records)[id], body).value]
      && store.order == old(store.order)
      && r == Ok(OK, store.records[id])
  {
    if id !in store.records {
      return Fail(NOT_FOUND, []);
    }
    var current := store.records[id];
    if Ownerless(current) {
      return Fail(SERVER_ERROR, []);
    }
    if !IsOwner(current, caller) {
      return Fail(UNAUTHORIZED, []);
    }
    var patched := Patched(id, current, body);
    if patched.None? {
      return Fail(SERVER_ERROR, []);
    }
    store.Replace(id, patched.value);
    r := Ok(OK, patched.value);
  }

  /** `DELETE /:id`: the same checks in the same order; then exactly that
      document is removed. */
  method Delete(store: Collection<Expense>, caller: Id, id: Id) returns (r: Reply<string>)
    requires store.Valid()
    modifies store
    ensures store.Valid()
    ensures id !in old(store.records) ==> r == Fail(NOT_FOUND, []) && unchanged(store)
    ensures id in old(store.records) && Ownerless(old(store.records)[id]) ==>
      r == Fail(SERVER_ERROR, []) && unchanged(store)
    ensures (&& id in old(store.records) && !Ownerless(old(store.records)[id])
             && !IsOwner(old(store.records)[id], caller)) ==>
      r == Fail(UNAUTHORIZED, []) && unchanged(store)
    ensures id in old(store.records) && IsOwner(old(store.records)[id], caller) ==>
      && store.records == old(store.records) - {id}
      && store.order == Without(old(store.order), id)
      && r == Ok(OK, "Expense removed")
  {
    if id !in store.records {
      return Fail(NOT_FOUND, []);
    }
    var current := store.records[id];
    if Ownerless(current) {
      return Fail(SERVER_ERROR, []);
    }
    if !IsOwner(current, caller) {
      return Fail(UNAUTHORIZED, []);
    }
    store.Remove(id);
    r := Ok(OK, "Expense removed");
  }
}
