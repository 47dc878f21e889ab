# StormSaver expense backend: a verified model of its routes

This project models the logic beneath the HTTP routes of an Express/Mongoose
expense backend. The model covers five parts, and each part's properties are
proved about it.

- **Record normaliser.** `formatExpense` and `formatPersonalExpense` take
  schema-less records with legacy capitalised keys (`Subject`, `Amount`,
  `Date`, …) or lowercase keys, and map them onto one ten-key output record.
- **Team-expense listing.** This has optional status, category and date-range
  filters. It sorts date-descending, paginates by offset, and counts the whole
  result separately.
- **Team-expense and personal-expense stores.**
  - Team expenses: create, partial update and delete.
  - Personal expenses: create, and approve/reject, both of which overwrite
    both status keys.
- **Strict expense schema and its owner-gated routes.**
  - The route's three create checks, then casting, defaults (`status`
    'pending', `date` now) and the enum validators at save.
  - Listing by owner.
  - Update and delete, each checked for existence first and then for ownership.
- **Teams.**
  - admin and member roles, with `isAdmin` as an existential over `members`;
  - create, update, add-member and remove-member, which change both the team
    and the users' `teams` arrays;
  - the `/team-expenses` mapper.

How the modules are organised:

- `Js` holds the JavaScript values the routes handle: `null`/`undefined`
  (together `Null`), numbers, `NaN`, strings, valid Dates (as their time
  value), arrays. It also has truthiness, `||`, `Number(...)`, the
  `isEmpty`/`isNumeric` request checks, and which arguments `new Date(x)`
  turns into a valid Date (a text must follow the Date Time String Format of
  ECMA-262, section 21.4.1.32).
- `Collections.Collection` is a Mongo collection: documents by id plus
  insertion order. Every route method takes its store as this class and
  states the store's new contents.
- `Ordering` holds the sort and the paging arithmetic.
- `Format` is the normaliser. It is partial: `toISOString()` throws on a
  stored `date` that is not a Date (TypeError) and on an invalid Date made
  from `Date` (RangeError), and the model's formatter then gives None.
- One module per route file: `TeamExpenseRoutes` (routes/TeamExpense.js),
  `PersonalExpenseRoutes` (routes/personalExpense.js), `ExpenseRoutes`
  (routes/expenses.js), `Teams` (routes/teams.js).
- `ExpenseSchema` is models/Expense.js.

The caller's id (from the auth middleware), the new document id, the current
time and the verdict of the email check are all parameters.

## Model

| member | source | states |
|---|---|---|
| Js.NumberOf | routes/TeamExpense.js:70 | `Number(v)` is a number or NaN. Numbers stay. Booleans are 1/0. Text goes through `Number(str)`. A Date gives its time value. |
| Js.ParseNumeric | routes/expenses.js:28 | A string parses exactly when it passes `isNumeric()`. A digit string parses to its decimal value. |
| Js.StringToNumber | routes/TeamExpense.js:70 | `Number(s)` on a string: '' is 0. Text passing `isNumeric()` is its parsed value. Any other text is NaN. |
| Js.DigitTextIsItsValue | routes/TeamExpense.js:70 | A non-empty text of digits converts to the number it spells. |
| Js.TwelveExample | routes/TeamExpense.js:70 | Example: `Number('12')` is 12. |
| Js.Merge | routes/personalExpense.js:58 | `$set`: the patch's keys take the patch's values, all other keys keep theirs, and no key is lost. |
| Js.NumericFieldIsNumber | routes/expenses.js:28 | A field that passes `isNumeric()` becomes a number under `Number(...)`. |
| Js.CalendarDateIsDateText | routes/TeamExpense.js:71 | Any `YYYY-MM-DD` with month 01-12 and day 01-31 is text `new Date(...)` accepts. |
| Js.DateTimeIsDateText | routes/TeamExpense.js:71 | Any calendar date followed by `T` and a time of day is accepted too. |
| Js.MonthOutOfRangeIsNoDateText | routes/TeamExpense.js:71 | After a four-digit year, a month above 12 makes any text an invalid date. |
| Js.CalendarDateExample | routes/TeamExpense.js:71 | Example: '2024-05-01' is a calendar date, so a valid date text. |
| Js.UtcTimeIsTimeText | routes/TeamExpense.js:71 | Example: '10:30Z' is a time of day with an offset. |
| Js.UtcDateTimeExample | routes/TeamExpense.js:71 | Example: '2024-05-01T10:30Z' is a valid date text. |
| Js.MonthThirteenExample | routes/TeamExpense.js:71 | Example: '2024-13-01' makes an invalid Date, so `toISOString()` on it throws. |
| Seqs.Filter | routes/teams.js:169-171 | `filter` keeps exactly the elements satisfying the predicate, and the result is a sub-multiset. |
| Seqs.FilterConcat | routes/teams.js:169-171 | Filtering distributes over concatenation, so kept elements keep their relative order. |
| Seqs.FilterKeepsAll | routes/teams.js:169-171 | A filter every element passes returns the array unchanged. |
| Seqs.MapSeq | routes/teams.js:190 | `map` keeps the length and maps each position. |
| Seqs.MapAll | routes/TeamExpense.js:102 | `map` with a callback that may throw: it succeeds exactly when the callback succeeds on every element, and then maps each position. |
| Seqs.MapAllConcat | routes/TeamExpense.js:102 | Mapping a concatenation fails when either part fails, and otherwise is the two results one after the other. |
| Collections.Collection.All | routes/personalExpense.js:25 | `find()` returns every stored document exactly once, in insertion order. |
| Collections.Collection.Insert | routes/TeamExpense.js:153-154 | `save()` of a new document adds exactly that id and document, at the end of the natural order. |
| Collections.Collection.Replace | routes/TeamExpense.js:173-180 | An update replaces exactly that document and keeps the order. |
| Collections.Collection.Remove | routes/TeamExpense.js:204 | A delete removes exactly that id, and the order keeps all other ids. |
| Ordering.SortByDateDesc | routes/TeamExpense.js:96 | `.sort({ date: -1 })` returns a permutation of its input that is descending in Mongo's cross-type order of the `date` values. |
| Ordering.KeyLeTotal | routes/TeamExpense.js:96 | Any two `date` values are ordered one way or the other, so the sort is defined on every collection. |
| Ordering.KeyLeTrans | routes/TeamExpense.js:96 | The order on `date` values is transitive. |
| Ordering.KeyLeRefl | routes/TeamExpense.js:96 | Every `date` value sorts level with itself. |
| Ordering.Largest | routes/TeamExpense.js:96 | A descending sort places an array `date` by its largest element: the key is one of the elements' keys and no element's key is above it. |
| Ordering.CeilDiv | routes/TeamExpense.js:106 | `Math.ceil(n / d)` is the fewest pages of `d` that hold `n`. |
| Ordering.Paginate | routes/TeamExpense.js:97-98 | skip/limit returns at most `limit` records. Record `i` of the page is record `(page-1)*limit + i` of the listing. The page is empty past the end, and otherwise holds exactly `min(limit, rest)` records. |
| Ordering.PageOfSorted | routes/TeamExpense.js:95-98 | A page of a newest-first listing is newest first and holds only records of the listing. |
| Ordering.MapAllPagesStep | routes/TeamExpense.js:95-102 | Formatting pages 1..j+1 is formatting pages 1..j and page j+1, and succeeds when both do. |
| Ordering.PagesArePrefix | routes/TeamExpense.js:97-98 | Pages 1..k together are the first `k*limit` records. |
| Ordering.PageIsSlice | routes/TeamExpense.js:97-98 | The page after the first `from` records is the slice that starts there and holds up to `limit` records. |
| Ordering.AllPagesCoverTheListing | routes/TeamExpense.js:106 | Pages 1..`ceil(count/limit)` together are the whole listing. |
| Ordering.PagePastTheEndIsEmpty | routes/TeamExpense.js:106 | A page after `totalPages` is empty. |
| Ordering.PagesBeforeTheLastAreFull | routes/TeamExpense.js:97-98 | Every page before the last holds exactly `limit` records. |
| Format.Pick | routes/TeamExpense.js:69 | `legacy \|\| canonical \|\| ''`: a truthy legacy value wins; otherwise a truthy lowercase value; otherwise ''. |
| Format.IdOf | routes/TeamExpense.js:68 | The id is the stored `_id` when there is one, else ''. |
| Format.AmountOf | routes/TeamExpense.js:70 | `Amount` is used whenever it is not null (so 0 wins), then `amount`, then 0, each through `Number`. |
| Format.DateOf | routes/TeamExpense.js:71 | A truthy `Date` renders exactly when `new Date(Date)` is valid (else RangeError). Otherwise a truthy `date` renders exactly when it is a Date (else TypeError). Otherwise the date is null. |
| Format.FormatExpense | routes/TeamExpense.js:67-78 | The formatter succeeds exactly when the date does. Then each of the ten output fields follows its precedence rule: the seven text pairs, id, amount and date. |
| Format.FormatPersonalExpense | routes/personalExpense.js:9-20 | Written in its own key order, it equals `formatExpense` on every input, throws included. |
| Format.AmountIsNumeric | routes/TeamExpense.js:70 | The output amount is always a number (or NaN), and a stored `Amount` of 0 yields 0. |
| Format.AsDoc | routes/TeamExpense.js:67-78 | An output record, read as a document, has exactly the ten keys, and its `date` is the ISO text or null. |
| Format.OutputIsWellShaped | routes/TeamExpense.js:67-78 | Every text field of the output is truthy or ''. The amount is numeric. A date is rendered from a valid Date. |
| Format.NoLegacyKeys | routes/TeamExpense.js:67-78 | An output record, read as a document, has none of the legacy keys and no `_id`. |
| Format.ReadBack | routes/TeamExpense.js:67-78 | A well-shaped output record without a date goes back through the normaliser unchanged, except that its id becomes ''. |
| Format.ReadBackOfADateThrows | routes/TeamExpense.js:71 | An output record with a date cannot go back through the normaliser: its `date` is now text, and `toISOString()` on text throws. |
| Format.NormaliseTwice | routes/TeamExpense.js:67-78 | Normalising twice: without a date it equals normalising once with the id cleared (the output key is `id`, the normaliser reads `_id`); with a date the second pass throws. |
| TeamExpenseRoutes.List | routes/TeamExpense.js:81-116 | `GET /`: the reply is 500 exactly when a record of the requested page does not format. The page holds stored records that match the query, newest first. A 200 reply holds that page formatted, at most `limit` records, the count of every matching record and the page asked for. |
| TeamExpenseRoutes.ListByTeam | routes/TeamExpense.js:119-148 | `GET /team/:teamId`: the same reply, and every record on the page is of that team, or holds the team in an array `teamId`. |
| TeamExpenseRoutes.ListFilterIff | routes/TeamExpense.js:84-93 | Each direction of the iff: a record matches the `GET /` query exactly when every supplied, non-empty filter holds. A field passes when it equals the value or is an array holding it. Both date bounds are inclusive, and each can be met by a Date in an array. |
| TeamExpenseRoutes.DateBoundWitness | routes/TeamExpense.js:89-93 | A `$gte`/`$lte` date bound holds exactly when some Date of the field, on its own or in an array, meets it. |
| TeamExpenseRoutes.LegacyKeysAreNotFiltered | routes/TeamExpense.js:87-88 | A record without lowercase `status` never matches a status filter; the same for `category`. Its `Status`/`Category` play no part. |
| TeamExpenseRoutes.TeamListingIsScoped | routes/TeamExpense.js:121-125 | The by-team listing matches only records whose `teamId` is that team or an array holding it, and a record's date never decides whether it matches. |
| TeamExpenseRoutes.PageIsSelectedAndOrdered | routes/TeamExpense.js:95-98 | A returned page holds at most `limit` records. They are newest first, and each one is a stored record matching the query. |
| TeamExpenseRoutes.ListingReply | routes/TeamExpense.js:95-115 | A list reply is 200 exactly when every record of the page formats, and holds that page formatted, the count of all matching records, `ceil(count/limit)` pages and the page asked for. Otherwise it is 500. |
| TeamExpenseRoutes.RespondFormatsThePage | routes/TeamExpense.js:95-109 | A list reply is 200 exactly when its page formats, and then holds that page formatted. |
| TeamExpenseRoutes.CountIsIndependentOfPage | routes/TeamExpense.js:100-108 | For either listing, `totalExpenses` and `totalPages` do not depend on the requested page. |
| TeamExpenseRoutes.ResponsePagesStep | routes/TeamExpense.js:95-109 | Page j+1's reply adds its formatted records to the replies for pages 1..j. |
| TeamExpenseRoutes.ResponsePagesArePages | routes/TeamExpense.js:95-109 | For either listing, the replies for pages 1..k are the first k pages of the sorted listing, formatted; one of them is 500 exactly when a record on those pages does not format. |
| TeamExpenseRoutes.AllPagesListEverything | routes/TeamExpense.js:95-141 | For either listing, pages 1..`totalPages` yield every matching record exactly once, formatted, newest first, and all answer 200 exactly when every matching record formats. |
| TeamExpenseRoutes.TextDateSortsFirst | routes/TeamExpense.js:96 | A record whose `date` is the text '2024-05-01' sorts before a record without a date. |
| TeamExpenseRoutes.TextDateThrows | routes/TeamExpense.js:67-78 | The formatter succeeds on the undated record and throws on the text-dated one. |
| TeamExpenseRoutes.TextDateIsListedFirst | routes/TeamExpense.js:81-116 | With one record per page, page 1 holds the text-dated record and `GET /` answers 500, although the other record formats. |
| TeamExpenseRoutes.Send | routes/TeamExpense.js:155-166 | A record that formats is sent with the route's code. When the formatter throws, the catch-all answers 400. |
| TeamExpenseRoutes.Create | routes/TeamExpense.js:151-168 | On a failed save: 400 with the messages, nothing stored. Otherwise the body is stored under the new id, and the reply is 201 with the formatted record, or 400 when it does not format (it is stored all the same). |
| TeamExpenseRoutes.Update | routes/TeamExpense.js:171-199 | A validation failure gives 400. A missing id gives 404. A body that carries an `_id` other than the record's, null included, gives 400. In each of these cases the store is unchanged. Otherwise the body is merged into that record only, and the reply is 200 with the formatted result, or 400 when it does not format. |
| TeamExpenseRoutes.Delete | routes/TeamExpense.js:202-218 | A missing id gives 404 with the store unchanged. Otherwise exactly that record is removed, and the reply is it formatted, or 400 when it does not format. |
| PersonalExpenseRoutes.ListAll | routes/personalExpense.js:23-31 | 200 exactly when every stored record formats, listing each once, formatted, in natural order. Otherwise 500. |
| PersonalExpenseRoutes.Send | routes/personalExpense.js:39-49 | A record that formats is sent with the route's code. When the formatter throws, the catch-all answers 400. |
| PersonalExpenseRoutes.WithStatus | routes/personalExpense.js:58 | The `$set` makes both `Status` and `status` the new value and leaves every other key as it was. |
| PersonalExpenseRoutes.StatusIsWhatWasSet | routes/personalExpense.js:54-61 | After approve (or reject), the formatted status is the one just set, whatever the record held. A status change never makes the formatter throw or stop throwing. |
| PersonalExpenseRoutes.SetStatusIdempotent | routes/personalExpense.js:58 | Approving twice is approving once. The same holds for reject. |
| PersonalExpenseRoutes.LastStatusWins | routes/personalExpense.js:72 | Reject after approve, or approve after reject, equals the last one alone. |
| PersonalExpenseRoutes.StatusChangeKeepsOtherFields | routes/personalExpense.js:56-60 | A status change touches no formatted field except `status`, and the record formats after it exactly when it did before. |
| PersonalExpenseRoutes.KeepsKey | routes/personalExpense.js:58 | The `$set` leaves every key other than the two status keys as it was. |
| PersonalExpenseRoutes.KeepsPick | routes/personalExpense.js:9-20 | A field resolved from two keys other than the status keys is unchanged by a status change. |
| PersonalExpenseRoutes.Create | routes/personalExpense.js:34-51 | On a failed save: 400, nothing stored. Otherwise the body is stored under the new id, and the reply is 201 with the formatted record, or 400 when it does not format. |
| PersonalExpenseRoutes.SetStatus | routes/personalExpense.js:56-63 | A missing id gives 400 with nothing changed. Otherwise only that record's two status keys change, and the reply is 200 with it formatted, or 400 when it does not format. |
| PersonalExpenseRoutes.Approve | routes/personalExpense.js:54-65 | A missing id gives 400 with nothing changed. Otherwise the record is approved. The reply is 200 with the formatted updated record, whose status is 'approved', exactly when it formats, and 400 otherwise. |
| PersonalExpenseRoutes.Reject | routes/personalExpense.js:68-79 | A missing id gives 400 with nothing changed. Otherwise the record is rejected. The reply is 200 with the formatted updated record, whose status is 'rejected', exactly when it formats, and 400 otherwise. |
| ExpenseSchema.CastText | models/Expense.js:4-7 | A String/ObjectId path keeps a string or an unset value. Any other value is a cast error. |
| ExpenseSchema.CastAmount | models/Expense.js:8-11 | A Number path keeps numbers. Non-empty text casts exactly when it is numeric. NaN, Dates and arrays fail. |
| ExpenseSchema.CastDate | models/Expense.js:20-23 | A Date path keeps a Date or an unset value. |
| ExpenseSchema.CastTags | models/Expense.js:41-43 | `tags` keeps a list of strings and wraps a single string into a list. |
| ExpenseSchema.CastsAreIdempotent | models/Expense.js:3-44 | Casting an already cast value gives it back, for every schema type. |
| ExpenseSchema.FromDoc | models/Expense.js:3-44 | `new Expense(obj)` succeeds exactly when every path casts. Each path then holds its cast value, and other keys are dropped. |
| ExpenseSchema.WithDefaults | models/Expense.js:20-36 | An unset `status` becomes 'pending', an unset `date` becomes now, and unset `tags` becomes []. Nothing else changes. |
| ExpenseSchema.DefaultsIdempotent | models/Expense.js:20-36 | Defaulting twice is defaulting once. |
| ExpenseSchema.Instantiate | models/Expense.js:3-44 | `save()` succeeds exactly when the cast document with its defaults validates. A saved document is valid, and its status lies in the enum. The defaults are applied. |
| ExpenseSchema.InstantiateAccepts | models/Expense.js:3-44 | The required paths set, `category` and `status` in their enums, and everything castable: such an object saves. |
| ExpenseSchema.ToDoc | models/Expense.js:3-44 | A document as an object has exactly the ten schema paths. |
| ExpenseSchema.StoredDocumentRecasts | models/Expense.js:3-44 | A valid stored document, cast again, gives itself back. |
| ExpenseRoutes.ListByOwner | routes/expenses.js:10-19 | The result is exactly the caller's documents, date-descending: a permutation of the owner filter. |
| ExpenseRoutes.CreateErrors | routes/expenses.js:27-35 | One message per failed check, each present iff its check fails, and no others. |
| ExpenseRoutes.PassesChecks | routes/expenses.js:27-35 | A set title, a numeric amount and a set category give no validation message. |
| ExpenseRoutes.Drafted | routes/expenses.js:38-47 | Only the seven route fields are copied, and `user` is the caller. Neither `status` nor `date` is taken from the body. |
| ExpenseRoutes.Create | routes/expenses.js:24-55 | Failed checks give 400 with the messages and nothing stored. A schema refusal gives 500 with nothing stored. Otherwise the saved document is stored under the new id and returned. |
| ExpenseRoutes.CreatedExpense | routes/expenses.js:38-49 | A created expense is owned by the caller, pending and dated now. It holds the body's route fields, cast. |
| ExpenseRoutes.CategoryOutsideEnumFailsAtSave | routes/expenses.js:49-53 | A category outside the enum is refused at save, which is 500, not 400. |
| ExpenseRoutes.CreateAccepts | routes/expenses.js:27-50 | A title, a number, an enum category and well-typed optional fields pass the checks and save. |
| ExpenseRoutes.LunchIsStored | routes/expenses.js:38-50 | `{title:'Lunch', amount:12.5, category:'Food'}` is stored as exactly the pending, caller-owned, now-dated document. |
| ExpenseRoutes.Patched | routes/expenses.js:72-76 | `$set` succeeds exactly when the body carries no `_id`, or the document's own, and every schema path the body names casts; an `_id` of null is a change. It then casts and replaces exactly those paths. |
| ExpenseRoutes.PatchWithoutSchemaPathsIsIdentity | routes/expenses.js:72-76 | A body naming no schema path leaves the document unchanged. |
| ExpenseRoutes.UpdateSkipsValidation | routes/expenses.js:72-76 | Example: a valid expense updated to category 'Travel' is stored, invalid. |
| ExpenseRoutes.Update | routes/expenses.js:60-83 | The checks run in order: 404, then 500 for an ownerless document, then 401, each with the store unchanged. A cast failure gives 500. Otherwise only that document is patched, and the reply is 200 with it. |
| ExpenseRoutes.Delete | routes/expenses.js:88-106 | The checks run in order: 404, then 500, then 401, each with the store unchanged. Otherwise exactly that document is removed. |
| Teams.IsAdminIff | routes/teams.js:73-75 | Each direction of the iff: the caller is admin exactly when some entry is `{caller, admin}`. |
| Teams.HasMemberIff | routes/teams.js:129 | A user is a member exactly when some entry names them. |
| Teams.NonMemberIsNotAdmin | routes/teams.js:73-75 | A non-member is never admin. |
| Teams.PlainMemberIsNotAdmin | routes/teams.js:115-117 | With unique entries, a user whose entry has the member role is not admin. |
| Teams.AddMembershipKeepsAdmins | routes/teams.js:133 | Pushing a member entry neither grants nor removes an admin role. |
| Teams.AddMembershipKeepsUnique | routes/teams.js:129-133 | Pushing a non-member keeps member ids unique and makes them a member. |
| Teams.RemoveMembershipEffect | routes/teams.js:169-171 | Afterwards the user has no entry. Every other user keeps their membership and admin role. |
| Teams.RemoveMembershipKeepsUnique | routes/teams.js:169-171 | Removal keeps member ids unique. |
| Teams.RemoveMembershipKeepsOrder | routes/teams.js:169-171 | Removal distributes over concatenation, and a single entry is kept iff it names another user: the others keep their order. |
| Teams.RemoveNonMemberIsIdentity | routes/teams.js:169-173 | Removing a non-member changes nothing. |
| Teams.PushTeam | routes/teams.js:137-140 | `$push` appends the team id to that user's `teams` only. A missing user means no change. |
| Teams.Pull | routes/teams.js:176-179 | `$pull` removes every occurrence of the team id and keeps all other ids. |
| Teams.PullTeam | routes/teams.js:176-179 | `$pull` changes that user's `teams` only. A missing user means no change. |
| Teams.NewTeam | routes/teams.js:39-45 | A new team has the creator as its only member, as admin. `budget` is `body.budget \|\| 0`. |
| Teams.PatchLaws | routes/teams.js:81-85 | The empty `$set` is the identity. A patch is idempotent. Two patches in a row are one patch with the later field winning. A patch giving every field yields the same team from any team. |
| Teams.UpdateMayDuplicateMembers | routes/teams.js:81-85 | Example: the update can store a members list that names one user twice. |
| Teams.Directory.TeamsOf | routes/teams.js:12-22 | Exactly the stored teams with the caller among their members, one entry per such stored team. |
| Teams.NamingCount | routes/teams.js:14-16 | Filtering a collection's teams by membership keeps as many teams as there are stored ids whose team names the user. |
| Collections.PassingIds | routes/teams.js:14-16 | The ids whose record passes a test are exactly those, in order, and without duplicates when the ids have none. |
| Collections.FilterCountsIds | routes/teams.js:14-16 | Filtering the records named by a list of ids keeps one record per id that passes. |
| Collections.Collection.FilterCount | routes/teams.js:14-16 | Filtering the stored records keeps one record per stored id that passes, and every such id is counted. |
| Teams.Directory.CreateTeam | routes/teams.js:27-60 | An empty name gives 400 with nothing changed. Otherwise the new team is stored and its id pushed onto the caller's `teams`. Unique member ids are preserved. |
| Teams.Directory.UpdateTeam | routes/teams.js:65-92 | A missing team gives 404, and a non-admin caller then gives 401, each with nothing changed. Otherwise only that team is patched, and the reply is the patched team. |
| Teams.Directory.AddMember | routes/teams.js:97-147 | The checks run in order: bad email 400, missing team 404, not admin 401, no such user 404. Each failure leaves every team and user unchanged. Once those pass, the reply is 200 or 400 only: 200 when no user with that email is a member, 400 when every such user is one. Success appends `{user, member}` and pushes onto that user's `teams`. Unique member ids are preserved. |
| Teams.Directory.RemoveMember | routes/teams.js:152-186 | A missing team gives 404, then a non-admin caller gives 401, each with nothing changed. Otherwise the user's entries are filtered out and the team id is pulled from their `teams`, member or not. Unique member ids are preserved. |
| Teams.MapTeamExpense | routes/teams.js:190-199 | `v \|\| default`: '' for the text fields, 0 for amount, now for date. The id rule is that of the normaliser. |
| Teams.TeamExpenseRows | routes/teams.js:188-201 | One row per stored record, in natural order. |
| Teams.MapperIgnoresLegacyKeys | routes/teams.js:190-199 | No legacy capitalised key changes a row. |
| Teams.MapperAgreesWithFormatter | routes/teams.js:190-199 | Without legacy keys, the normaliser throws exactly on a stored `date` that is not a Date, which the mapper passes through. Otherwise the two agree on the id and the five shared text fields, and a stored date is the Date the normaliser renders. |
| Teams.MapperKeepsAmountText | routes/teams.js:193 | Example: stored amount '12' stays the text '12' in a row, but becomes the number 12 in the normaliser. |

## Behaviour of the code worth knowing

The model follows the code in each of these cases.

- **Normalising is not idempotent.**
  - The normaliser writes the id under `id` but reads it from `_id`. So a
    second pass over an output record without a date loses the id.
  - An output record with a date cannot be normalised again at all. Its
    `date` is now ISO text, and `expense.date.toISOString()` on text throws
    a TypeError (`Format.NormaliseTwice`, `Format.ReadBackOfADateThrows`).
  - A legacy key wins only when it is truthy, so a legacy `''` or `0` falls
    through to the lowercase key. The exception is `Amount`, which is
    null-checked.
- **The formatter throws after the write.**
  - This happens on a record whose `date` is not a Date, for instance one
    posted as JSON text to the schema-less model (see "Left out" on which
    team model is registered), or whose `Date` makes an invalid Date.
  - `POST`, `PUT` and `DELETE` on the team and personal routes have already
    stored, updated or deleted the record. Their catch-all then answers 400.
  - Every `GET` page that holds such a record answers 500.
- **Strict-schema updates are not validated.** routes/expenses.js:72-76 does a
  `$set` without `runValidators`, so an out-of-enum category is stored
  (`ExpenseRoutes.UpdateSkipsValidation`).
- **Only `title` is required on create.** A `description` alone does not
  pass the checks.
- **A `date` stored as text is listed, and then breaks its page.** Mongo
  sorts a `date` that is not a Date by its type: text sorts above a missing
  date, and below every Date. With one record per page, a record whose
  `date` is the text '2024-05-01' comes first, and the page is a 500
  (`TeamExpenseRoutes.TextDateIsListedFirst`).
- **Approve/reject on a missing id.**
  - The code answers 400, not 404: the null update result reaches the
    formatter, which throws.
  - A rejected expense can later be approved, and the reverse (last one wins).

## Left out

- HTTP wiring, the `auth` middleware, `server.js`, logging and the exact JSON
  wording of replies. These are glue. The caller id is a parameter, and
  replies are `Ok(code, body)` or `Fail(code, messages)`.
- The email check (`isEmail`) is an abstract verdict passed in as `emailOk`.
- express-validator also reads request fields from query, cookies and
  headers. The model reads the body only.
- Dates.
  - A valid Date is its time value, and "now" is a parameter.
  - The characters of the ISO text `toISOString()` writes are not modelled.
    An output date is the value it is rendered from.
- `Js.MakesValidDate`
  - Text outside the ECMA-262 Date Time String Format is taken as an invalid
    date. V8's fallback parser accepts some such text (for instance
    'May 1, 2024').
  - An array given as `Date` is taken as invalid. JavaScript converts it
    through its text.
  - The limit of 8.64e15 ms either side of the epoch is checked for numbers
    only, not for text dates. A day is checked against 01-31 only, not
    against the length of its month.
  - Time(t) is assumed to be a valid Date: an invalid Date is never stored.
- `Format.DateOf`: the exact error an invalid date raises (TypeError or
  RangeError) is not kept. Only that the formatter throws is modelled.
- `Js.NumberOf`, `Js.StringToNumber`
  - `Number(...)` on text outside the `isNumeric()` grammar (whitespace,
    exponents, hex, `Infinity`) is NaN here. JavaScript parses some of these.
  - An array is NaN here. JavaScript gives 0 for `[]` and converts a
    one-element array through its text.
  - Null stands for both `null` (0) and `undefined` (NaN). The normaliser
    null-checks before converting, so it never converts either.
- `ExpenseSchema.CastAmount`: the model accepts text only when it passes
  `isNumeric()`. Mongoose casts text with `Number(text)`, so ' 12', '1e3',
  '0x10' and 'Infinity' also cast. It also casts a Date to its time value,
  which the model refuses.
- `ExpenseSchema.CastText`
  - Mongoose stringifies a number or boolean given for a String path.
  - The model treats such a value as a cast error instead.
  - A route then answers 500 where Mongoose would have stored the text.
- `ExpenseSchema.CastDate`: date strings are not parsed. A non-Date value is a
  cast error.
- ObjectId casting and invalid-id `CastError`s. Ids are plain strings, and an
  ill-formed id behaves as a missing one.
- `ExpenseRoutes.Update`, `ExpenseRoutes.Delete`: an owner value that is
  neither a string nor unset is compared as not the caller. `toString()` of
  other values is not modelled.
- `populate('members.user', 'name email')` in the team listing. The models of
  teams and users (models/Team, models/User) are not part of this model. So
  their schema validation at `save()` and their casting of a `PUT` body are
  not modelled either: a team update takes an already cast `TeamPatch`.
- The team-expense schemas.
  - The unregistered `teamExpenseSchema` (routes/TeamExpense.js:6-58) and
    models/TeamExpense are not part of this model.
  - A team-expense save or update fails with an abstract list of messages.
- `Teams.Directory.AddMember`
  - `User.findOne({ email })` picks some user with that email. Which one, when
    several share it, is left open.
- Non-atomic two-step writes (team save, then the user `$push`/`$pull`) and
  any concurrency. Routes are modelled as sequential steps.
- `TeamExpenseRoutes.List`, `TeamExpenseRoutes.ListByTeam`
  - These require `page >= 1` and `limit >= 1`, and query values arrive
    already typed.
  - In the source, `limit=0` is `.limit(0)`, which Mongo reads as no limit:
    the page holds every matching record from the skip on. `totalPages` is
    then `Infinity`, or `NaN` when the count is 0.
  - `page=0`, or a negative page, gives a negative skip.
  - Query text that is not a number makes `limit * 1` and the skip `NaN`.
- `Ordering.SortByDateDesc` is a stable sort. Mongo breaks ties between
  equal `date` values in an unspecified order, and that order need not be the
  same from one request to the next. Ties are common: every record without a
  lowercase `date` (or with a null one) sorts level with the others like it.
- `Ordering.ScalarKey`: an array nested in an array `date` is placed in the
  array position of the type order, and two such arrays tie. Mongo compares
  them element by element.
- `TeamExpenseRoutes.ListingReply`, `TeamExpenseRoutes.RespondFormatsThePage`,
  `TeamExpenseRoutes.List`, `TeamExpenseRoutes.ListByTeam`: these pin the
  exact page under the stable tie order. Mongo's reply has the same count,
  is as sorted and holds only matching records, but which of several records
  with equal `date` values fall on a page is up to Mongo.
- `TeamExpenseRoutes.AllPagesListEverything`,
  `TeamExpenseRoutes.ResponsePagesArePages`: these cross-page lemmas assume
  that every page request sees the one tie order `Ordering.SortByDateDesc`
  fixes. Mongo does not promise this for separate `.sort().skip().limit()`
  queries, so a tied record could appear on two pages or on none.
- The team routes are modelled on the schema-less `strict: false` model that
  routes/TeamExpense.js:61-64 defines when no `TeamExpense` model is
  registered yet. In server.js, routes/teams.js is mounted (server.js:51)
  before routes/TeamExpense.js (server.js:53), and routes/teams.js:7 requires
  models/TeamExpense. So `mongoose.models.TeamExpense` most likely already
  holds that model, and its schema, casting and validation apply instead.
  models/TeamExpense is not part of this model.
- `TeamExpenseRoutes.Create`, `PersonalExpenseRoutes.Create`: the model always
  stores the record under the fresh id it is given. Mongoose keeps an `_id`
  the client put in the body, and a second create with the same `_id` fails
  with a duplicate-key error (E11000), which the catch-all answers with 400.
  Client-chosen ids and that duplicate-key failure are not modelled.
- `ExpenseSchema.CastTags`: refuses a list holding numbers or booleans.
  Mongoose's String caster turns those elements into text (`[1, true]` is
  stored as `['1', 'true']`). Number-to-text conversion is not modelled, so
  such a list is treated as a cast error.
- Storage failures, such as a database error, behind the 500 catch-alls of
  the list routes. The model has no storage failures apart from the save and
  validation outcomes above. A list route's 500 comes only from the formatter.
