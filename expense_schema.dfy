/** models/Expense.js: the strict expense schema. A document of this model
    holds exactly the schema's paths; building one from a request object
    casts each path and drops every other key, `save()` fills in the
    defaults and runs the validators. */
module ExpenseSchema {
  import opened Js

  const Categories: seq<string> := ["Food", "Transportation", "Entertainment", "Shopping", "Bills", "Other"]
  const Statuses: seq<string> := ["pending", "approved", "rejected"]

  /** An expense document; Null is a path that is not set. `user` and `team`
      are ObjectId references, held as their string form. */
  datatype Expense = Expense(
    title: Value,
    amount: Value,
    description: Value,
    category: Value,
    date: Value,
    user: Value,
    team: Value,
    status: Value,
    receipt: Value,
    tags: Value)

  // ---------------------------------------------------------------------
  // Casting, one function per schema type. None is a cast error.

  /** A `String` or `ObjectId` path. */
  function CastText(v: Value): (r: Option<Value>)
    ensures r.Some? ==> r.value == Null || r.value.Str?
    ensures v == Null || v.Str? <==> r == Some(v)
  {
    if v == Null || v.Str? then Some(v) else None
  }

  /** A `Number` path: numbers stay, numeric text is parsed, '' unsets the
      path, booleans become 1 or 0; anything else is a cast error. */
  function CastAmount(v: Value): (r: Option<Value>)
    ensures r.Some? ==> r.value == Null || r.value.Num?
    ensures v == Null || v.Num? ==> r == Some(v)
    ensures v.Str? && v.s != "" ==> (r.Some? <==> IsNumericText(v.s))
    ensures v.NaN? || v.Time? || v.Arr? ==> r.None?
  {
    match v
    case Null => Some(Null)
    case Num(_) => Some(v)
    case Bool(b) => Some(Num(if b then 1.0 else 0.0))
    case Str(s) =>
      if s == "" then Some(Null)
      else if IsNumericText(s) then Some(StringToNumber(s))
      else None
    case _ => None
  }

  /** A `Date` path; dates arrive already parsed. */
  function CastDate(v: Value): (r: Option<Value>)
    ensures r.Some? ==> r.value == Null || r.value.Time?
    ensures v == Null || v.Time? <==> r == Some(v)
  {
    if v == Null || v.Time? then Some(v) else None
  }

  predicate IsTextList(v: Value)
  {
    v.Arr? && forall i :: 0 <= i < |v.items| ==> v.items[i].Str?
  }

  /** A `[String]` path: a list of strings stays, a single string becomes a
      one-element list. */
  function CastTags(v: Value): (r: Option<Value>)
    ensures r.Some? ==> r.value == Null || IsTextList(r.value)
    ensures v == Null || IsTextList(v) ==> r == Some(v)
    ensures v.Str? ==> r == Some(Arr([v]))
  {
    if v == Null || IsTextList(v) then Some(v)
    else if v.Str? then Some(Arr([v]))
    else None
  }

  /** Casting a value that is already cast gives it back. */
  lemma CastsAreIdempotent(v: Value)
    ensures CastText(v).Some? ==> CastText(CastText(v).value) == CastText(v)
    ensures CastAmount(v).Some? ==> CastAmount(CastAmount(v).value) == CastAmount(v)
    ensures CastDate(v).Some? ==> CastDate(CastDate(v).value) == CastDate(v)
    ensures CastTags(v).Some? ==> CastTags(CastTags(v).value) == CastTags(v)
  {
  }

  /** `new Expense(fields)`: each schema path read from `fields` and cast;
      keys outside the schema are dropped. None on a cast error. */
  function FromDoc(fields: Doc): (r: Option<Expense>)
    ensures r.Some? <==>
      && CastText(Get(fields, "title")).Some? && CastAmount(Get(fields, "amount")).Some?
      && CastText(Get(fields, "description")).Some? && CastText(Get(fields, "category")).Some?
      && CastDate(Get(fields, "date")).Some? && CastText(Get(fields, "user")).Some?
      && CastText(Get(fields, "team")).Some? && CastText(Get(fields, "status")).Some?
      && CastText(Get(fields, "receipt")).Some? && CastTags(Get(fields, "tags")).Some?
    ensures r.Some? ==>
      && Some(r.value.title) == CastText(Get(fields, "title"))
      && Some(r.value.amount) == CastAmount(Get(fields, "amount"))
      && Some(r.value.description) == CastText(Get(fields, "description"))
      && Some(r.value.category) == CastText(Get(fields, "category"))
      && Some(r.value.date) == CastDate(Get(fields, "date"))
      && Some(r.value.user) == CastText(Get(fields, "user"))
      && Some(r.value.team) == CastText(Get(fields, "team"))
      && Some(r.value.status) == CastText(Get(fields, "status"))
      && Some(r.value.receipt) == CastText(Get(fields, "receipt"))
      && Some(r.value.tags) == CastTags(Get(fields, "tags"))
  {
    var title := CastText(Get(fields, "title"));
    var amount := CastAmount(Get(fields, "amount"));
    var description := CastText(Get(fields, "description"));
    var category := CastText(Get(fields, "category"));
    var date := CastDate(Get(fields, "date"));
    var user := CastText(Get(fields, "user"));
    var team := CastText(Get(fields, "team"));
    var status := CastText(Get(fields, "status"));
    var receipt := CastText(Get(fields, "receipt"));
    var tags := CastTags(Get(fields, "tags"));
    if && title.Some? && amount.Some? && description.Some? && category.Some? && date.Some?
       && user.Some? && team.Some? && status.Some? && receipt.Some? && tags.Some?
    then
      Some(Expense(title.value, amount.value, description.value, category.value, date.value,
                   user.value, team.value, status.value, receipt.value, tags.value))
    else None
  }

  /** `status` defaults to 'pending', `date` to the creation time, `tags` to
      an empty list; the other paths are kept. */
  function WithDefaults(e: Expense, now: int): (r: Expense)
    ensures r.status == (if e.status == Null then Str("pending") else e.status)
    ensures r.date == (if e.date == Null then Time(now) else e.date)
    ensures r.tags == (if e.tags == Null then Arr([]) else e.tags)
    ensures r.(status := e.status, date := e.date, tags := e.tags) == e
  {
    e.(status := if e.status == Null then Str("pending") else e.status,
       date := if e.date == Null then Time(now) else e.date,
       tags := if e.tags == Null then Arr([]) else e.tags)
  }

  /** Filling in the defaults of a document that has them changes nothing. */
  lemma DefaultsIdempotent(e: Expense, now: int, later: int)
    ensures WithDefaults(WithDefaults(e, now), later) == WithDefaults(e, now)
  {
  }

  /** The documents the validators accept: `title`, `amount`, `category` and
      `user` set (a required string must not be ''), `category` and a set
      `status` within their enums, and each path of its schema type. */
  predicate Valid(e: Expense)
  {
    && e.title.Str? && e.title.s != ""
    && e.amount.Num?
    && e.category.Str? && e.category.s in Categories
    && e.user.Str? && e.user.s != ""
    && (e.status == Null || (e.status.Str? && e.status.s in Statuses))
    && (e.description == Null || e.description.Str?)
    && (e.team == Null || e.team.Str?)
    && (e.receipt == Null || e.receipt.Str?)
    && (e.date == Null || e.date.Time?)
    && (e.tags == Null || IsTextList(e.tags))
  }

  /** `new Expense(fields)` followed by `save()`: cast, fill in the
      defaults, validate. None when a cast or a validator fails. */
  function Instantiate(fields: Doc, now: int): (r: Option<Expense>)
    ensures r.Some? <==> FromDoc(fields).Some? && Valid(WithDefaults(FromDoc(fields).value, now))
    ensures r.Some? ==> Valid(r.value)
    ensures r.Some? ==> r.value.status.Str? && r.value.status.s in Statuses && r.value.date.Time?
    ensures r.Some? && Get(fields, "status") == Null ==> r.value.status == Str("pending")
    ensures r.Some? && Get(fields, "date") == Null ==> r.value.date == Time(now)
    ensures r.Some? && Get(fields, "tags") == Null ==> r.value.tags == Arr([])
  {
    match FromDoc(fields)
    case None => None
    case Some(e) =>
      var full := WithDefaults(e, now);
      if Valid(full) then Some(full) else None
  }

  /** Which objects `save()` accepts: the required paths set and of their
      types, `category` in its enum, a set `status` in its enum, and every
      other path castable. */
  lemma InstantiateAccepts(fields: Doc, now: int)
    requires Get(fields, "title").Str? && Get(fields, "title").s != ""
    requires Get(fields, "amount").Num?
    requires Get(fields, "category").Str? && Get(fields, "category").s in Categories
    requires Get(fields, "user").Str? && Get(fields, "user").s != ""
    requires Get(fields, "status") == Null || (Get(fields, "status").Str? && Get(fields, "status").s in Statuses)
    requires FromDoc(fields).Some?
    ensures Instantiate(fields, now).Some?
  {
  }

  /** The document as the schema's key-value object. */
  function ToDoc(e: Expense): (d: Doc)
    ensures d.Keys == {"title", "amount", "description", "category", "date",
                       "user", "team", "status", "receipt", "tags"}
  {
    map["title" := e.title, "amount" := e.amount, "description" := e.description,
        "category" := e.category, "date" := e.date, "user" := e.user, "team" := e.team,
        "status" := e.status, "receipt" := e.receipt, "tags" := e.tags]
  }

  /** A stored document is cast already: casting it again as a request
      object gives it back. */
  lemma {:induction false} StoredDocumentRecasts(e: Expense)
    requires Valid(e)
    ensures FromDoc(ToDoc(e)) == Some(e)
  {
    var d := ToDoc(e);
    assert Get(d, "title") == e.title && Get(d, "amount") == e.amount;
    assert Get(d, "description") == e.description && Get(d, "category") == e.category;
    assert Get(d, "date") == e.date && Get(d, "user") == e.user && Get(d, "team") == e.team;
    assert Get(d, "status") == e.status && Get(d, "receipt") == e.receipt && Get(d, "tags") == e.tags;
  }
}
