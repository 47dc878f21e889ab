/** routes/TeamExpense.js: the paginated, filtered listing of the schema-less
    team-expense collection, the by-team listing, and the create, update and
    delete routes. */
module TeamExpenseRoutes {
  import opened Js
  import opened Http
  import opened Seqs
  import opened Ordering
  import opened Format
  import opened Collections

  /** The query string of the list routes. An absent or empty `status` or
      `category` is ''; `startDate` and `endDate` arrive already parsed. */
  datatype ListParams = ListParams(
    page: Option<nat>,
    limit: Option<nat>,
    status: string,
    category: string,
    startDate: Option<int>,
    endDate: Option<int>)

  /** `page = 1` when absent. */
  function PageOf(p: ListParams): nat
  {
    match p.page
    case None => 1
    case Some(n) => n
  }

  /** `limit = 10` when absent. */
  function LimitOf(p: ListParams): nat
  {
    match p.limit
    case None => 10
    case Some(n) => n
  }

  predicate ValidPaging(p: ListParams)
  {
    PageOf(p) >= 1 && LimitOf(p) >= 1
  }

  /** The Mongo query object: each component present only when set. */
  datatype Query = Query(
    teamId: Option<string>,
    status: Option<string>,
    category: Option<string>,
    from: Option<int>,
    until: Option<int>)

  /** The query of `GET /`: a status or category filter only when that
      parameter is non-empty, and the date range as given. */
  function ListQuery(p: ListParams): Query
  {
    Query(
      teamId := None,
      status := if p.status != "" then Some(p.status) else None,
      category := if p.category != "" then Some(p.category) else None,
      from := p.startDate,
      until := p.endDate)
  }

  /** The query of `GET /team/:teamId`: that team, plus the status and
      category filters; this route takes no date range. */
  function TeamQuery(teamId: string, p: ListParams): Query
  {
    Query(
      teamId := Some(teamId),
      status := if p.status != "" then Some(p.status) else None,
      category := if p.category != "" then Some(p.category) else None,
      from := None,
      until := None)
  }

  /** Mongo's equality filter on a field: the field is the value, or an
      array that holds it. */
  predicate Holds(v: Value, x: Value)
  {
    v == x || (v.Arr? && x in v.items)
  }

  /** `$gte` a time on a field: a stored Date at or after it, or an array
      holding one. A bound only compares with Dates. */
  predicate DateFrom(v: Value, t: int)
  {
    (v.Time? && t <= v.t) || (v.Arr? && exists e :: e in v.items && e.Time? && t <= e.t)
  }

  /** `$lte` a time on a field, in the same way. */
  predicate DateUntil(v: Value, t: int)
  {
    (v.Time? && v.t <= t) || (v.Arr? && exists e :: e in v.items && e.Time? && e.t <= t)
  }

  /** Whether a stored record satisfies every component of the query. The
      query reads the lowercase keys only; each bound of the date range may
      be met by a different element of an array. */
  predicate Matches(q: Query, d: Doc)
  {
    && (q.teamId.Some? ==> Holds(Get(d, "teamId"), Str(q.teamId.value)))
    && (q.status.Some? ==> Holds(Get(d, "status"), Str(q.status.value)))
    && (q.category.Some? ==> Holds(Get(d, "category"), Str(q.category.value)))
    && (q.from.Some? ==> DateFrom(Get(d, "date"), q.from.value))
    && (q.until.Some? ==> DateUntil(Get(d, "date"), q.until.value))
  }

  /** The records the query selects, in the collection's natural order. */
  function Selected(all: seq<Doc>, q: Query): seq<Doc>
  {
    Filter(all, d => Matches(q, d))
  }

  /** The selected records, newest date first. */
  function Sorted(all: seq<Doc>, q: Query): seq<Doc>
  {
    SortByDateDesc(Selected(all, q), DateKey)
  }

  /** The page-th run of `limit` records of the sorted selection. */
  function Listed(all: seq<Doc>, q: Query, page: nat, limit: nat): seq<Doc>
    requires page >= 1
  {
    Paginate(Sorted(all, q), page, limit)
  }

  datatype Listing = Listing(
    expenses: seq<Canonical>,
    totalPages: nat,
    currentPage: nat,
    totalExpenses: nat)

  /** The reply of both list routes: the formatted page and a count taken
      over the whole query, independently of the page; 500 when the
      formatter throws on a record of the page. */
  function Respond(all: seq<Doc>, q: Query, p: ListParams): Reply<Listing>
    requires ValidPaging(p)
  {
    var count := |Selected(all, q)|;
    match MapAll(Listed(all, q, PageOf(p), LimitOf(p)), FormatExpense)
    case None => Fail(SERVER_ERROR, [])
    case Some(expenses) =>
      Ok(OK, Listing(
        expenses := expenses,
        totalPages := CeilDiv(count, LimitOf(p)),
        currentPage := PageOf(p),
        totalExpenses := count))
  }

  /** `GET /` over the collection's records `all`, in natural order: the
      page asked for of the matching records, newest first, formatted; 500
      when the formatter throws on one of them. */
  function List(all: seq<Doc>, p: ListParams): (r: Reply<Listing>)
    requires ValidPaging(p)
    ensures var page := Listed(all, ListQuery(p), PageOf(p), LimitOf(p));
      && (r.Ok? <==> MapAll(page, FormatExpense).Some?)
      && (r.Fail? ==> r == Fail(SERVER_ERROR, []))
      && SortedDesc(page, DateKey)
      && (forall i :: 0 <= i < |page| ==> page[i] in all && Matches(ListQuery(p), page[i]))
      && (r.Ok? ==>
            && r.code == OK
            && r.body.expenses == MapAll(page, FormatExpense).value
            && |r.body.expenses| <= LimitOf(p)
            && r.body.totalExpenses == |Selected(all, ListQuery(p))|
            && r.body.currentPage == PageOf(p))
  {
    PageIsSelectedAndOrdered(all, ListQuery(p), PageOf(p), LimitOf(p));
    Respond(all, ListQuery(p), p)
  }

  /** `GET /team/:teamId`: as `GET /`, over the records of that team. */
  function ListByTeam(all: seq<Doc>, teamId: string, p: ListParams): (r: Reply<Listing>)
    requires ValidPaging(p)
    ensures var page := Listed(all, TeamQuery(teamId, p), PageOf(p), LimitOf(p));
      && (r.Ok? <==> MapAll(page, FormatExpense).Some?)
      && (r.Fail? ==> r == Fail(SERVER_ERROR, []))
      && SortedDesc(page, DateKey)
      && (forall i :: 0 <= i < |page| ==> page[i] in all && Holds(Get(page[i], "teamId"), Str(teamId)))
      && (r.Ok? ==>
            && r.code == OK
            && r.body.expenses == MapAll(page, FormatExpense).value
            && |r.body.expenses| <= LimitOf(p)
            && r.body.totalExpenses == |Selected(all, TeamQuery(teamId, p))|
            && r.body.currentPage == PageOf(p))
  {
    PageIsSelectedAndOrdered(all, TeamQuery(teamId, p), PageOf(p), LimitOf(p));
    Respond(all, TeamQuery(teamId, p), p)
  }

  // ---------------------------------------------------------------------
  // What the listing promises.

  /** A record is listed by `GET /` exactly when it passes every supplied,
      non-empty filter, where a field passes when it is the value or an
      array holding it; both date bounds are inclusive. */
  lemma ListFilterIff(p: ListParams, d: Doc)
    ensures Matches(ListQuery(p), d) <==>
      && (p.status != "" ==>
            Get(d, "status") == Str(p.status) ||
            (Get(d, "status").Arr? && Str(p.status) in Get(d, "status").items))
      && (p.category != "" ==>
            Get(d, "category") == Str(p.category) ||
            (Get(d, "category").Arr? && Str(p.category) in Get(d, "category").items))
      && (p.startDate.Some? ==> exists t :: p.startDate.value <= t && HasTime(Get(d, "date"), t))
      && (p.endDate.Some? ==> exists t :: t <= p.endDate.value && HasTime(Get(d, "date"), t))
  {
    var v := Get(d, "date");
    if p.startDate.Some? {
      DateBoundWitness(v, p.startDate.value, true);
    }
    if p.endDate.Some? {
      DateBoundWitness(v, p.endDate.value, false);
    }
  }

  /** The field is the Date `t`, or an array holding it. */
  predicate HasTime(v: Value, t: int)
  {
    v == Time(t) || (v.Arr? && Time(t) in v.items)
  }

  /** A date bound holds exactly when some Date of the field meets it. */
  lemma DateBoundWitness(v: Value, bound: int, lower: bool)
    ensures lower ==> (DateFrom(v, bound) <==> exists t :: bound <= t && HasTime(v, t))
    ensures !lower ==> (DateUntil(v, bound) <==> exists t :: t <= bound && HasTime(v, t))
  {
    if v.Time? {
      assert HasTime(v, v.t);
    }
    if v.Arr? {
      forall e | e in v.items && e.Time? ensures HasTime(v, e.t) {
        assert e == Time(e.t);
      }
    }
  }

  /** A status or category filter is not satisfied by a record that carries
      the value only under the legacy `Status` or `Category` key. */
  lemma LegacyKeysAreNotFiltered(p: ListParams, d: Doc)
    ensures "status" !in d && p.status != "" ==> !Matches(ListQuery(p), d)
    ensures "category" !in d && p.category != "" ==> !Matches(ListQuery(p), d)
  {
  }

  /** The by-team listing only selects records of that team, and a record's
      date never decides whether it is selected. */
  lemma TeamListingIsScoped(teamId: string, p: ListParams, d: Doc, v: Value)
    ensures Matches(TeamQuery(teamId, p), d) ==>
      Get(d, "teamId") == Str(teamId) || (Get(d, "teamId").Arr? && Str(teamId) in Get(d, "teamId").items)
    ensures Matches(TeamQuery(teamId, p), d) == Matches(TeamQuery(teamId, p), d["date" := v])
  {
    assert Get(d["date" := v], "teamId") == Get(d, "teamId");
    assert Get(d["date" := v], "status") == Get(d, "status");
    assert Get(d["date" := v], "category") == Get(d, "category");
  }

  /** Every record on a page is a stored record that matches the query, the
      page is newest first, and it holds at most `limit` records. */
  lemma {:induction false} PageIsSelectedAndOrdered(all: seq<Doc>, q: Query, page: nat, limit: nat)
    requires page >= 1
    ensures |Listed(all, q, page, limit)| <= limit
    ensures SortedDesc(Listed(all, q, page, limit), DateKey)
    ensures forall i :: 0 <= i < |Listed(all, q, page, limit)| ==>
      var d := Listed(all, q, page, limit)[i]; d in all && Matches(q, d)
  {
    var selected := Selected(all, q);
    var sorted := Sorted(all, q);
    var listed := Listed(all, q, page, limit);
    PageOfSorted(sorted, page, limit, DateKey);
    forall i | 0 <= i < |listed|
      ensures listed[i] in all && Matches(q, listed[i])
    {
      var d := listed[i];
      assert d in multiset(sorted);
      assert d in selected;
      var k :| 0 <= k < |selected| && selected[k] == d;
    }
  }

  /** What a list reply holds: 200 exactly when every record of the page
      formats, with the page formatted record by record, the count of every
      matching record, `Math.ceil(count / limit)` pages and the page asked
      for; otherwise 500. */
  lemma ListingReply(all: seq<Doc>, q: Query, p: ListParams)
    requires ValidPaging(p)
    ensures var r := Respond(all, q, p);
      var page := Listed(all, q, PageOf(p), LimitOf(p));
      && (r.Ok? <==> forall i :: 0 <= i < |page| ==> FormatExpense(page[i]).Some?)
      && (r.Fail? ==> r == Fail(SERVER_ERROR, []))
      && (r.Ok? ==>
            && r.code == OK
            && |r.body.expenses| == |page|
            && (forall i :: 0 <= i < |page| ==> Some(r.body.expenses[i]) == FormatExpense(page[i]))
            && r.body.totalExpenses == |Selected(all, q)|
            && r.body.totalPages == CeilDiv(|Selected(all, q)|, LimitOf(p))
            && r.body.currentPage == PageOf(p))
  {
  }

  /** A list reply is 200 exactly when its page formats, and then holds that
      page formatted. */
  lemma RespondFormatsThePage(all: seq<Doc>, q: Query, p: ListParams)
    requires ValidPaging(p)
    ensures var formatted := MapAll(Listed(all, q, PageOf(p), LimitOf(p)), FormatExpense);
      && (Respond(all, q, p).Ok? <==> formatted.Some?)
      && (formatted.Some? ==> Respond(all, q, p).body.expenses == formatted.value)
  {
  }

  /** `totalExpenses` and `totalPages` are the same whichever page is asked for. */
  lemma CountIsIndependentOfPage(all: seq<Doc>, q: Query, p: ListParams, page: nat)
    requires ValidPaging(p) && page >= 1
    ensures var here := Respond(all, q, p);
      var other := Respond(all, q, p.(page := Some(page)));
      here.Ok? && other.Ok? ==>
        && other.body.totalExpenses == here.body.totalExpenses
        && other.body.totalPages == here.body.totalPages
  {
  }

  /** The formatted pages 1 to k, one after the other; None when a reply
      among them is a 500. */
  function ResponsePages(all: seq<Doc>, q: Query, p: ListParams, k: nat): Option<seq<Canonical>>
    requires LimitOf(p) >= 1
  {
    if k == 0 then Some([])
    else
      match (ResponsePages(all, q, p, k - 1), Respond(all, q, p.(page := Some(k))))
      case (Some(before), Ok(_, listing)) => Some(before + listing.expenses)
      case _ => None
  }

  /** Page j + 1 adds its formatted records to pages 1 to j. */
  lemma ResponsePagesStep(all: seq<Doc>, q: Query, p: ListParams, j: nat)
    requires LimitOf(p) >= 1
    ensures var before := ResponsePages(all, q, p, j);
      var page := MapAll(Paginate(Sorted(all, q), j + 1, LimitOf(p)), FormatExpense);
      ResponsePages(all, q, p, j + 1)
        == if before.Some? && page.Some? then Some(before.value + page.value) else None
  {
    var pk := p.(page := Some(j + 1));
    assert PageOf(pk) == j + 1 && LimitOf(pk) == LimitOf(p);
    RespondFormatsThePage(all, q, pk);
  }

  /** The replies for pages 1 to k together are the first k pages of the
      sorted records, formatted. */
  lemma {:induction false} ResponsePagesArePages(all: seq<Doc>, q: Query, p: ListParams, k: nat)
    requires LimitOf(p) >= 1
    ensures ResponsePages(all, q, p, k) == MapAll(Pages(Sorted(all, q), LimitOf(p), k), FormatExpense)
  {
    if k > 0 {
      var j: nat := k - 1;
      ResponsePagesArePages(all, q, p, j);
      ResponsePagesStep(all, q, p, j);
      MapAllPagesStep(Sorted(all, q), LimitOf(p), j, FormatExpense);
    }
  }

  /** Fetching pages 1 to `totalPages` yields every matching record exactly
      once, formatted, newest first: the pages partition the listing. They
      all answer 200 exactly when every matching record formats. This holds
      for `GET /` and for the by-team listing alike. */
  lemma AllPagesListEverything(all: seq<Doc>, q: Query, p: ListParams)
    requires ValidPaging(p)
    ensures ResponsePages(all, q, p, CeilDiv(|Selected(all, q)|, LimitOf(p)))
         == MapAll(Sorted(all, q), FormatExpense)
    ensures multiset(Sorted(all, q)) == multiset(Selected(all, q))
  {
    var selected := Selected(all, q);
    var sorted := Sorted(all, q);
    var limit := LimitOf(p);
    assert |sorted| == |multiset(sorted)| == |multiset(selected)| == |selected|;
    ResponsePagesArePages(all, q, p, CeilDiv(|sorted|, limit));
    AllPagesCoverTheListing(sorted, limit);
  }

  /** A record without a date, and one whose `date` is the text
      '2024-05-01' (how the schema-less model stores a posted date). */
  const Undated: Doc := map["_id" := Str("x")]
  const TextDated: Doc := map["_id" := Str("y"), "date" := Str("2024-05-01")]

  /** One record per page, no filter. */
  const OnePerPage := ListParams(None, Some(1), "", "", None, None)

  /** Mongo orders a `date` that is not a Date by its type, and text sorts
      above a missing date. */
  lemma TextDateSortsFirst()
    ensures Sorted([Undated, TextDated], ListQuery(OnePerPage)) == [TextDated, Undated]
  {
    BothSelected();
    var both := [Undated, TextDated];
    assert both[1..] == [TextDated];
    assert !KeyLe(DateKey(TextDated), DateKey(Undated));
    calc {
      SortByDateDesc(both, DateKey);
      Insert(Undated, SortByDateDesc([TextDated], DateKey), DateKey);
      { assert SortByDateDesc([TextDated], DateKey) == [TextDated]; }
      Insert(Undated, [TextDated], DateKey);
      [TextDated, Undated];
    }
  }

  /** Neither record is filtered out when no filter is set. */
  lemma BothSelected()
    ensures Selected([Undated, TextDated], ListQuery(OnePerPage)) == [Undated, TextDated]
  {
    var q := ListQuery(OnePerPage);
    var both := [Undated, TextDated];
    assert Matches(q, Undated) && Matches(q, TextDated);
    FilterKeepsAll(both, d => Matches(q, d));
  }

  /** The formatter throws on the text-dated record only. */
  lemma TextDateThrows()
    ensures FormatExpense(Undated).Some?
    ensures FormatExpense(TextDated).None?
  {
    assert DateOf(Undated) == Some(NoDate);
    assert !Truthy(Get(TextDated, "Date")) && Truthy(Get(TextDated, "date"));
  }

  /** So the first page holds the text-dated record, and the reply is 500
      although the other record formats. */
  lemma TextDateIsListedFirst()
    ensures Listed([Undated, TextDated], ListQuery(OnePerPage), 1, 1) == [TextDated]
    ensures List([Undated, TextDated], OnePerPage) == Fail(SERVER_ERROR, [])
  {
    TextDateSortsFirst();
    TextDateThrows();
    var page := Listed([Undated, TextDated], ListQuery(OnePerPage), 1, 1);
    assert page == [TextDated];
    assert MapAll(page, FormatExpense).None?;
  }

  // ---------------------------------------------------------------------
  // Create, update and delete. Schema validation of the collection is not
  // visible; it is a list of messages the save may fail with.

  /** The record `save()` stores for a request body, under its new id. */
  function Stored(body: Doc, id: Id): (r: Doc)
  {
    body["_id" := Str(id)]
  }

  /** The reply that sends a record formatted with `code`; when the formatter
      throws, the route's catch-all answers 400 instead, after the write. */
  function Send(code: nat, d: Doc): (r: Reply<Canonical>)
    ensures FormatExpense(d).Some? ==> r == Ok(code, FormatExpense(d).value)
    ensures FormatExpense(d).None? ==> r == Fail(BAD_REQUEST, [])
  {
    match FormatExpense(d)
    case Some(c) => Ok(code, c)
    case None => Fail(BAD_REQUEST, [])
  }

  /** `POST /`: stores the body as given and answers 201 with the formatted
      record; 400 with the validation messages when the save fails. */
  method Create(store: Collection<Doc>, body: Doc, newId: Id, saveErrors: seq<string>)
    returns (r: Reply<Canonical>)
    requires store.Valid() && newId !in store.records
    modifies store
    ensures store.Valid()
    ensures saveErrors != [] ==> r == Fail(BAD_REQUEST, saveErrors) && unchanged(store)
    ensures saveErrors == [] ==>
      && store.records == old(store.records)[newId := Stored(body, newId)]
      && store.order == old(store.order) + [newId]
      && r == Send(CREATED, Stored(body, newId))
  {
    if saveErrors != [] {
      return Fail(BAD_REQUEST, saveErrors);
    }
    store.Insert(newId, Stored(body, newId));
    r := Send(CREATED, Stored(body, newId));
  }

  /** `PUT /:id`: `findByIdAndUpdate` merges the body into the record (a body
      without operators is a `$set`); a missing id is 404; an update that
      would change the record's `_id` is refused by the store (400). */
  method Update(store: Collection<Doc>, id: Id, body: Doc, validationErrors: seq<string>)
    returns (r: Reply<Canonical>)
    requires store.Valid()
    modifies store
    ensures store.Valid()
    ensures validationErrors != [] ==> r == Fail(BAD_REQUEST, validationErrors) && unchanged(store)
    ensures validationErrors == [] && id !in old(store.records) ==> r == Fail(NOT_FOUND, []) && unchanged(store)
    ensures (&& validationErrors == [] && id in old(store.records)
             && "_id" in body && body["_id"] != Get(old(store.records)[id], "_id")) ==>
      r == Fail(BAD_REQUEST, []) && unchanged(store)
    ensures (&& validationErrors == [] && id in old(store.records)
             && ("_id" !in body || body["_id"] == Get(old(store.records)[id], "_id"))) ==>
      && store.records == old(store.records)[id := Merge(old(store.records)[id], body)]
      && store.order == old(store.order)
      && r == Send(OK, Merge(old(store.records)[id], body))
  {
    if validationErrors != [] {
      return Fail(BAD_REQUEST, validationErrors);
    }
    if id !in store.records {
      return Fail(NOT_FOUND, []);
    }
    var current := store.records[id];
    if "_id" in body && body["_id"] != Get(current, "_id") {
      return Fail(BAD_REQUEST, []);
    }
    var updated := Merge(current, body);
    store.Replace(id, updated);
    r := Send(OK, updated);
  }

  /** `DELETE /:id`: removes exactly that record and returns it formatted. */
  method Delete(store: Collection<Doc>, id: Id) returns (r: Reply<Canonical>)
    requires store.Valid()
    modifies store
    ensures store.Valid()
    ensures id !in old(store.records) ==> r == Fail(NOT_FOUND, []) && unchanged(store)
    ensures id in old(store.records) ==>
      && store.records == old(store.records) - {id}
      && store.order == Without(old(store.order), id)
      && r == Send(OK, old(store.records)[id])
  {
    if id !in store.records {
      return Fail(NOT_FOUND, []);
    }
    var deleted := store.records[id];
    store.Remove(id);
    r := Send(OK, deleted);
  }
}
