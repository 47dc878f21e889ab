/** routes/personalExpense.js: the schema-less personal-expense collection,
    listed and created as given, and approved or rejected by overwriting
    both status keys. */
module PersonalExpenseRoutes {
  import opened Js
  import opened Http
  import opened Seqs
  import opened Format
  import opened Collections

  /** `GET /`: every record, formatted, in natural order; 500 when the
      formatter throws on any one of them. */
  function ListAll(all: seq<Doc>): (r: Reply<seq<Canonical>>)
    ensures r.Ok? <==> forall i :: 0 <= i < |all| ==> FormatExpense(all[i]).Some?
    ensures r.Fail? ==> r == Fail(SERVER_ERROR, [])
    ensures r.Ok? ==>
      && r.code == OK
      && |r.body| == |all|
      && forall i :: 0 <= i < |all| ==> Some(r.body[i]) == FormatExpense(all[i])
  {
    match MapAll(all, FormatPersonalExpense)
    case None => Fail(SERVER_ERROR, [])
    case Some(expenses) => Ok(OK, expenses)
  }

  /** The reply that sends a record formatted with `code`; when the formatter
      throws, the route's catch-all answers 400 instead, after the write. */
  function Send(code: nat, d: Doc): (r: Reply<Canonical>)
    ensures FormatExpense(d).Some? ==> r == Ok(code, FormatExpense(d).value)
    ensures FormatExpense(d).None? ==> r == Fail(BAD_REQUEST, [])
  {
    match FormatPersonalExpense(d)
    case Some(c) => Ok(code, c)
    case None => Fail(BAD_REQUEST, [])
  }

  /** The record after `$set: { Status: s, status: s }`. */
  function WithStatus(d: Doc, s: string): (r: Doc)
    ensures Get(r, "Status") == Str(s) && Get(r, "status") == Str(s)
    ensures r.Keys == d.Keys + {"Status", "status"}
    ensures forall k :: k in d && k != "Status" && k != "status" ==> r[k] == d[k]
  {
    Merge(d, map["Status" := Str(s), "status" := Str(s)])
  }

  /** Whatever the record held before, its formatted status is the one just
      set; setting it never makes the formatter throw or stop throwing. */
  lemma StatusIsWhatWasSet(d: Doc, s: string)
    requires s != ""
    ensures FormatPersonalExpense(WithStatus(d, s)).Some? == FormatPersonalExpense(d).Some?
    ensures FormatPersonalExpense(WithStatus(d, s)).Some? ==>
      FormatPersonalExpense(WithStatus(d, s)).value.status == Str(s)
  {
    KeepsKey(d, s, "Date");
    KeepsKey(d, s, "date");
  }

  /** Setting a status twice is setting it once: approve is idempotent, and so is reject. */
  lemma SetStatusIdempotent(d: Doc, s: string)
    ensures WithStatus(WithStatus(d, s), s) == WithStatus(d, s)
  {
  }

  /** The last status set wins: approve after reject, or reject after approve,
      leaves only the later status. */
  lemma {:induction false} LastStatusWins(d: Doc, s: string, s': string)
    ensures WithStatus(WithStatus(d, s), s') == WithStatus(d, s')
  {
    var a := WithStatus(WithStatus(d, s), s');
    var b := WithStatus(d, s');
    assert a.Keys == b.Keys;
    forall k | k in a ensures a[k] == b[k] {
      if k != "Status" && k != "status" {
        assert a[k] == d[k];
      }
    }
  }

  /** Approving or rejecting touches only the two status keys. */
  lemma StatusChangeKeepsOtherFields(d: Doc, s: string)
    ensures var r := FormatPersonalExpense(WithStatus(d, s));
      var e := FormatPersonalExpense(d);
      && r.Some? == e.Some?
      && (r.Some? ==> r.value.(status := e.value.status) == e.value)
  {
    var u := WithStatus(d, s);
    KeepsKey(d, s, "_id");
    assert IdOf(u) == IdOf(d);
    KeepsKey(d, s, "Amount");
    KeepsKey(d, s, "amount");
    assert AmountOf(u) == AmountOf(d);
    KeepsKey(d, s, "Date");
    KeepsKey(d, s, "date");
    assert DateOf(u) == DateOf(d);
    KeepsPick(d, s, "Subject", "description");
    KeepsPick(d, s, "Category", "category");
    KeepsPick(d, s, "User", "userId");
    KeepsPick(d, s, "Team", "teamId");
    KeepsPick(d, s, "Notes", "notes");
    KeepsPick(d, s, "Receipt", "receipt");
  }

  /** A field resolved from two keys other than the status keys is left as it was. */
  lemma KeepsPick(d: Doc, s: string, legacy: string, canonical: string)
    requires legacy != "Status" && legacy != "status" && canonical != "Status" && canonical != "status"
    ensures Pick(WithStatus(d, s), legacy, canonical) == Pick(d, legacy, canonical)
  {
    KeepsKey(d, s, legacy);
    KeepsKey(d, s, canonical);
  }

  /** A key other than the two status keys is left as it was. */
  lemma KeepsKey(d: Doc, s: string, k: string)
    requires k != "Status" && k != "status"
    ensures Get(WithStatus(d, s), k) == Get(d, k)
  {
  }

  /** `POST /`: stores the body as given and answers 201 with the formatted
      record; 400 when the save fails. */
  method Create(store: Collection<Doc>, body: Doc, newId: Id, saveErrors: seq<string>)
    returns (r: Reply<Canonical>)
    requires store.Valid() && newId !in store.records
    modifies store
    ensures store.Valid()
    ensures saveErrors != [] ==> r == Fail(BAD_REQUEST, saveErrors) && unchanged(store)
    ensures saveErrors == [] ==>
      && store.records == old(store.records)[newId := body["_id" := Str(newId)]]
      && store.order == old(store.order) + [newId]
      && r == Send(CREATED, body["_id" := Str(newId)])
  {
    if saveErrors != [] {
      return Fail(BAD_REQUEST, saveErrors);
    }
    var saved := body["_id" := Str(newId)];
    store.Insert(newId, saved);
    r := Send(CREATED, saved);
  }

  /** The shared body of `PATCH /:id/approve` and `PATCH /:id/reject`. On a
      missing id `findByIdAndUpdate` yields null, formatting it throws, and
      the route answers 400 with nothing changed. On a record the formatter
      throws on, the update is written and the route answers 400. */
  method SetStatus(store: Collection<Doc>, id: Id, s: string) returns (r: Reply<Canonical>)
    requires store.Valid()
    modifies store
    ensures store.Valid()
    ensures id !in old(store.records) ==> r == Fail(BAD_REQUEST, []) && unchanged(store)
    ensures id in old(store.records) ==>
      && store.records == old(store.records)[id := WithStatus(old(store.records)[id], s)]
      && store.order == old(store.order)
      && r == Send(OK, store.records[id])
  {
    if id !in store.records {
      return Fail(BAD_REQUEST, []);
    }
    var updated := WithStatus(store.records[id], s);
    store.Replace(id, updated);
    r := Send(OK, updated);
  }

  /** `PATCH /:id/approve`. */
  method Approve(store: Collection<Doc>, id: Id) returns (r: Reply<Canonical>)
    requires store.Valid()
    modifies store
    ensures store.Valid()
    ensures id !in old(store.records) ==> r == Fail(BAD_REQUEST, []) && unchanged(store)
    ensures id in old(store.records) ==>
      && store.records == old(store.records)[id := WithStatus(old(store.records)[id], "approved")]
      && store.order == old(store.order)
      && (r.Ok? <==> FormatExpense(old(store.records)[id]).Some?)
      && (r.Ok? ==> r.code == OK && r.body.status == Str("approved"))
      && r == Send(OK, store.records[id])
      && (r.Fail? ==> r == Fail(BAD_REQUEST, []))
  {
    r := SetStatus(store, id, "approved");
    if id in old(store.records) {
      StatusIsWhatWasSet(old(store.records)[id], "approved");
    }
  }

  /** `PATCH /:id/reject`. */
  method Reject(store: Collection<Doc>, id: Id) returns (r: Reply<Canonical>)
    requires store.Valid()
    modifies store
    ensures store.Valid()
    ensures id !in old(store.records) ==> r == Fail(BAD_REQUEST, []) && unchanged(store)
    ensures id in old(store.records) ==>
      && store.records == old(store.records)[id := WithStatus(old(store.records)[id], "rejected")]
      && store.order == old(store.order)
      && (r.Ok? <==> FormatExpense(old(store.records)[id]).Some?)
      && (r.Ok? ==> r.code == OK && r.body.status == Str("rejected"))
      && r == Send(OK, store.records[id])
      && (r.Fail? ==> r == Fail(BAD_REQUEST, []))
  {
    r := SetStatus(store, id, "rejected");
    if id in old(store.records) {
      StatusIsWhatWasSet(old(store.records)[id], "rejected");
    }
  }
}
