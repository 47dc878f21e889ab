/** The record normaliser: `formatExpense` (routes/TeamExpense.js) and
    `formatPersonalExpense` (routes/personalExpense.js) map a stored record of
    any shape, legacy capitalised keys or lowercase ones, onto one output
    record with exactly ten keys. */
module Format {
  import opened Js

  /** The `date` of the output: null, or the ISO text `toISOString()`
      renders for the Date that `of` makes (a stored Date, or the argument of
      `new Date(...)`). The characters of that text are not modelled. */
  datatype Rendered = NoDate | Iso(of: Value)

  /** The output record: exactly the keys id, description, amount, date,
      category, userId, teamId, status, notes and receipt. */
  datatype Canonical = Canonical(
    id: Value,
    description: Value,
    amount: Value,
    date: Rendered,
    category: Value,
    userId: Value,
    teamId: Value,
    status: Value,
    notes: Value,
    receipt: Value)

  /** `v || ''`, as `legacy || canonical || ''` resolves it: a truthy legacy
      value wins, a falsy one falls through to the canonical key, and a falsy
      canonical value falls through to ''. */
  ghost predicate Resolves(v: Value, legacy: Value, canonical: Value)
  {
    && (Truthy(legacy) ==> v == legacy)
    && (!Truthy(legacy) && Truthy(canonical) ==> v == canonical)
    && (!Truthy(legacy) && !Truthy(canonical) ==> v == Str(""))
  }

  /** A text field resolved from its legacy key, then its lowercase key, then ''. */
  function Pick(e: Doc, legacy: string, canonical: string): (v: Value)
    ensures Resolves(v, Get(e, legacy), Get(e, canonical))
  {
    Or(Or(Get(e, legacy), Get(e, canonical)), Str(""))
  }

  /** `e._id ? e._id.toString() : ''`; ids are strings in this model. */
  function IdOf(e: Doc): (v: Value)
    ensures Truthy(Get(e, "_id")) && Get(e, "_id").Str? ==> v == Get(e, "_id")
    ensures !Truthy(Get(e, "_id")) ==> v == Str("")
  {
    match Get(e, "_id")
    case Str(s) => Str(s)
    case _ => Str("")
  }

  /** `e.Amount != null ? Number(e.Amount) : (e.amount != null ? Number(e.amount) : 0)`. */
  function AmountOf(e: Doc): (v: Value)
    ensures Get(e, "Amount") != Null ==> v == NumberOf(Get(e, "Amount"))
    ensures Get(e, "Amount") == Null && Get(e, "amount") != Null ==> v == NumberOf(Get(e, "amount"))
    ensures Get(e, "Amount") == Null && Get(e, "amount") == Null ==> v == Num(0.0)
  {
    if Get(e, "Amount") != Null then NumberOf(Get(e, "Amount"))
    else if Get(e, "amount") != Null then NumberOf(Get(e, "amount"))
    else Num(0.0)
  }

  /** The rendered date: a truthy legacy `Date` goes through `new Date(...)`,
      otherwise a truthy `date` must itself be a Date, otherwise there is none.
      None is a throw: a RangeError for an invalid Date, a TypeError for a
      `date` that is not a Date (a text, say). */
  function DateOf(e: Doc): (r: Option<Rendered>)
    ensures Truthy(Get(e, "Date")) ==>
      (r.Some? <==> MakesValidDate(Get(e, "Date"))) && (r.Some? ==> r.value == Iso(Get(e, "Date")))
    ensures !Truthy(Get(e, "Date")) && Truthy(Get(e, "date")) ==>
      (r.Some? <==> Get(e, "date").Time?) && (r.Some? ==> r.value == Iso(Get(e, "date")))
    ensures !Truthy(Get(e, "Date")) && !Truthy(Get(e, "date")) ==> r == Some(NoDate)
    ensures r.Some? && r.value.Iso? ==> MakesValidDate(r.value.of)
  {
    if Truthy(Get(e, "Date")) then
      if MakesValidDate(Get(e, "Date")) then Some(Iso(Get(e, "Date"))) else None
    else if Truthy(Get(e, "date")) then
      if Get(e, "date").Time? then Some(Iso(Get(e, "date"))) else None
    else Some(NoDate)
  }

  /** `formatExpense(expense)`, or None when it throws. */
  function FormatExpense(e: Doc): (r: Option<Canonical>)
    ensures r.Some? <==> DateOf(e).Some?
    ensures r.Some? ==>
      && r.value.id == IdOf(e)
      && Resolves(r.value.description, Get(e, "Subject"), Get(e, "description"))
      && r.value.amount == AmountOf(e)
      && Some(r.value.date) == DateOf(e)
      && Resolves(r.value.category, Get(e, "Category"), Get(e, "category"))
      && Resolves(r.value.userId, Get(e, "User"), Get(e, "userId"))
      && Resolves(r.value.teamId, Get(e, "Team"), Get(e, "teamId"))
      && Resolves(r.value.status, Get(e, "Status"), Get(e, "status"))
      && Resolves(r.value.notes, Get(e, "Notes"), Get(e, "notes"))
      && Resolves(r.value.receipt, Get(e, "Receipt"), Get(e, "receipt"))
  {
    match DateOf(e)
    case None => None
    case Some(date) =>
      Some(Canonical(
        id := IdOf(e),
        description := Pick(e, "Subject", "description"),
        amount := AmountOf(e),
        date := date,
        category := Pick(e, "Category", "category"),
        userId := Pick(e, "User", "userId"),
        teamId := Pick(e, "Team", "teamId"),
        status := Pick(e, "Status", "status"),
        notes := Pick(e, "Notes", "notes"),
        receipt := Pick(e, "Receipt", "receipt")))
  }

  /** `formatPersonalExpense(expense)`: the same resolution rules, written
      out in that route's own key order; the two formatters agree, and throw
      on the same records. */
  function FormatPersonalExpense(e: Doc): (r: Option<Canonical>)
    ensures r == FormatExpense(e)
  {
    match DateOf(e)
    case None => None
    case Some(date) =>
      Some(Canonical(
        id := IdOf(e),
        description := Pick(e, "Subject", "description"),
        amount := AmountOf(e),
        date := date,
        category := Pick(e, "Category", "category"),
        notes := Pick(e, "Notes", "notes"),
        teamId := Pick(e, "Team", "teamId"),
        userId := Pick(e, "User", "userId"),
        status := Pick(e, "Status", "status"),
        receipt := Pick(e, "Receipt", "receipt")))
  }

  /** The amount is a number whatever is stored, and `Amount = 0` (not null)
      still wins over the lowercase key. */
  lemma AmountIsNumeric(e: Doc)
    requires FormatExpense(e).Some?
    ensures FormatExpense(e).value.amount.Num? || FormatExpense(e).value.amount.NaN?
    ensures Get(e, "Amount") == Num(0.0) ==> FormatExpense(e).value.amount == Num(0.0)
  {
  }

  /** Every text field of the output is a truthy value or ''. */
  ghost predicate TruthyOrEmpty(v: Value)
  {
    Truthy(v) || v == Str("")
  }

  /** The output record as a client reads it back, `dateText` being the ISO
      text its date renders to. */
  function AsDoc(c: Canonical, dateText: string): (d: Doc)
    ensures d.Keys == {"id", "description", "amount", "date", "category",
                       "userId", "teamId", "status", "notes", "receipt"}
    ensures d["date"] == (if c.date.Iso? then Str(dateText) else Null)
  {
    map["id" := c.id, "description" := c.description, "amount" := c.amount,
        "date" := (if c.date.Iso? then Str(dateText) else Null),
        "category" := c.category, "userId" := c.userId,
        "teamId" := c.teamId, "status" := c.status, "notes" := c.notes,
        "receipt" := c.receipt]
  }

  /** What every output record satisfies: text fields truthy or '', a
      numeric amount, and no date or one made from a valid Date. */
  ghost predicate WellShaped(c: Canonical)
  {
    && TruthyOrEmpty(c.description) && TruthyOrEmpty(c.category)
    && TruthyOrEmpty(c.userId) && TruthyOrEmpty(c.teamId) && TruthyOrEmpty(c.status)
    && TruthyOrEmpty(c.notes) && TruthyOrEmpty(c.receipt)
    && (c.amount.Num? || c.amount.NaN?)
    && (c.date.Iso? ==> MakesValidDate(c.date.of))
  }

  lemma OutputIsWellShaped(e: Doc)
    requires FormatExpense(e).Some?
    ensures WellShaped(FormatExpense(e).value)
  {
  }

  /** The legacy keys are absent from an output record read back. */
  lemma {:induction false} NoLegacyKeys(c: Canonical, dateText: string)
    ensures var d := AsDoc(c, dateText);
      && "_id" !in d && "Subject" !in d && "Amount" !in d && "Date" !in d
      && "Category" !in d && "User" !in d && "Team" !in d
      && "Status" !in d && "Notes" !in d && "Receipt" !in d
  {
    var d := AsDoc(c, dateText);
    // Every output key starts with a lower-case letter, no legacy key does.
    forall k | k in d ensures |k| > 0 && 'a' <= k[0] <= 'z' {
    }
    assert "_id"[0] == '_' && "Subject"[0] == 'S' && "Amount"[0] == 'A' && "Date"[0] == 'D';
    assert "Category"[0] == 'C' && "User"[0] == 'U' && "Team"[0] == 'T';
    assert "Status"[0] == 'S' && "Notes"[0] == 'N' && "Receipt"[0] == 'R';
  }

  /** A well-shaped record without a date, read back through the formatter,
      keeps every field except its id. */
  lemma {:induction false} ReadBack(c: Canonical, dateText: string)
    requires WellShaped(c) && c.date == NoDate
    ensures FormatExpense(AsDoc(c, dateText)) == Some(c.(id := Str("")))
  {
    NoLegacyKeys(c, dateText);
  }

  /** A record with a date cannot be read back: its `date` is now text, and
      the formatter calls `toISOString()` on it, which throws. */
  lemma {:induction false} ReadBackOfADateThrows(c: Canonical, dateText: string)
    requires c.date.Iso? && dateText != ""
    ensures FormatExpense(AsDoc(c, dateText)) == None
  {
    NoLegacyKeys(c, dateText);
  }

  /** Normalising an already normalised record: without a date it gives the
      record back with its id lost (the output names the key `id`, the
      formatter reads `_id`); with a date the second pass throws. The ISO
      text of a Date is never empty. */
  lemma NormaliseTwice(e: Doc, dateText: string)
    requires FormatExpense(e).Some? && dateText != ""
    ensures var c := FormatExpense(e).value;
      && (c.date == NoDate ==> FormatExpense(AsDoc(c, dateText)) == Some(c.(id := Str(""))))
      && (c.date.Iso? ==> FormatExpense(AsDoc(c, dateText)) == None)
  {
    var c := FormatExpense(e).value;
    OutputIsWellShaped(e);
    if c.date == NoDate {
      ReadBack(c, dateText);
    } else {
      ReadBackOfADateThrows(c, dateText);
    }
  }
}
