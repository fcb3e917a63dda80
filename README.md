# Draftable publication policy, in Dafny

A model of the `Draftable` trait of eloquent-draftable. The trait gives an
Eloquent model a nullable `published_at` column. A record is **published**
when that column is set and not later than the current instant. Otherwise it
is a **draft**. A draft whose instant lies in the future is *scheduled*; that
state is derived and never stored. The trait adds:

- the predicates `isPublished` and `isDraft`;
- mutators that change the attribute in memory (`setPublishedAt`, `setPublished`);
- mutators that do the same and then `save()` (`publishAt`, `publish`, `draft`);
- a global query scope `published` that hides drafts, plus the local scopes
  `withDrafts` and `onlyDrafts`.

Files:

- `wrappers.dfy` (`Wrappers`): the `Option` type used for the nullable column.
- `publication.dfy` (`Publication`): the two predicates as pure functions of
  `(publishedAt, now)`, and `AfterSetPublished`, the value `setPublished`
  leaves behind. The lemmas cover scheduling, permanence over time and
  idempotence.
- `draftable.dfy` (`Draftable`): a `Record` class with the `published_at`
  field and every mutator as a method with `modifies this`. The clock is a
  `Clock` object the record reads; a test moves it as Carbon's test clock
  would. The record store's `save()` appends the current value to `saved`.
  So `|saved|` counts the saves and the last entry is the persisted copy.
- `scopes.dfy` (`DraftableScopes`): queries over one snapshot of rows and one
  instant. A query holds the `published` global-scope flag and its own list of
  where-criteria. Each criterion has an `and`/`or` connector, and SQL
  precedence applies (`and` binds tighter). A nested `where(closure)` group is
  one criterion. When a local scope is applied, the criteria already on the
  query are kept together as one `and` group (`GroupCriteria`), as Eloquent
  does; the global scope is likewise a conjunct of all of the query's own
  criteria (`Matches`). Eloquent wraps the earlier criteria only when they
  contain an `or`; wrapping them always selects the same rows. `Get` runs a query. `Published` and `Drafts` are the
  reference selections it is compared against.
- `scenarios.dfy` (`DraftableScenarios`): client methods for the behaviours
  in the tests and the documentation. Their assertions follow from the
  contracts above.

Timestamps are integers. `now` is an explicit parameter in the pure modules
and the clock object's field in the class.

## Model

| member | source | states |
|---|---|---|
| Publication.IsPublished | src/Draftable.php:60-64 | a record is published only when `published_at` is set, and it is not published exactly when the column is NULL or lies after `now` |
| Publication.IsDraft | src/Draftable.php:60-74 | a record is a draft exactly when `published_at` is NULL or lies after `now`, and that is always the negation of `isPublished` |
| Publication.AfterSetPublished | src/Draftable.php:99-110 | `setPublished(false)` leaves NULL; `setPublished(true)` always leaves a value published at `now`; an already published value is kept; a draft, scheduled or not, is stamped with `now` |
| Publication.NeverPublishedIsDraft | tests/DraftableTest.php:8-13 | a record with no publication instant is a draft at every instant |
| Publication.ScheduledGoesLive | tests/database/factories/TestModelFactory.php:21-24 | a record with `published_at = t0` is a draft for every `now < t0` and published for every `now >= t0`, with no write needed |
| Publication.PublishedStaysPublished | src/Draftable.php:60-64 | a published record stays published at every later instant |
| Publication.UnpublishedIsDraftForever | src/Draftable.php:101-103 | after `setPublished(false)` the record is a draft at every instant |
| Publication.SetPublishedIdempotent | src/Draftable.php:105-109 | a second `setPublished(true)`, even called later, does not change what the first one left |
| Publication.PublishingScheduledStampsNow | src/Draftable.php:105-107 | publishing a scheduled record replaces its future instant with `now` |
| Draftable.Record.constructor | tests/TestCase.php:31-36 | a new model has the given `published_at` and has not been saved |
| Draftable.Record.IsPublished | src/Draftable.php:60-64 | the record is published exactly when its attribute is set and not after the clock's reading |
| Draftable.Record.IsDraft | src/Draftable.php:71-74 | the record is a draft exactly when it is not published, that is when its attribute is NULL or after the clock's reading |
| Draftable.Record.Save | src/Draftable.php:120 | `save()` writes the current attribute once, so the persisted copy is the current value, and changes nothing else |
| Draftable.Record.SetPublishedAt | src/Draftable.php:82-91 | sets the attribute to the given instant, or to NULL; no save; returns the same object |
| Draftable.Record.SetPublished | src/Draftable.php:99-110 | the new attribute is `AfterSetPublished` of the old one at the clock's instant; after publishing the record is published; already published keeps its instant; no save; returns the same object |
| Draftable.Record.PublishAt | src/Draftable.php:118-123 | the attribute state of `setPublishedAt(date)`, then exactly one save of that value, which becomes the persisted copy |
| Draftable.Record.Publish | src/Draftable.php:131-136 | the attribute state of `setPublished(publish)` (`publish` defaults to true), then exactly one save of that value, which becomes the persisted copy |
| Draftable.Record.Draft | src/Draftable.php:143-146 | the same as `publish(false)`: NULL, a draft at every instant, saved exactly once, so the persisted copy is NULL |
| DraftableScenarios.Create | tests/TestCase.php:42-50 | `create` is a new model saved once with its initial attribute, which is its persisted copy |
| DraftableScopes.Where | src/Draftable.php:48 | an `and` criterion keeps the scope flag, keeps the criteria and-joined, and adds its test as a conjunct |
| DraftableScopes.Get | src/Draftable.php:22-25 | running a query returns rows of the snapshot only, each at most as often as stored, and exactly those that meet the global scope (while it is on) and the query's own criteria |
| DraftableScopes.PublishedScope | src/Draftable.php:20-26 | the global scope's SQL criteria (`not null` and `<= now`, NULL never compares) select exactly the rows `isPublished` calls published |
| DraftableScopes.DraftGroup | src/Draftable.php:48-52 | the grouped `is null or > now` criteria select exactly the rows `isDraft` calls drafts |
| DraftableScopes.WithDrafts | src/Draftable.php:35-38 | the global scope is off and the query's own criteria are kept, so at every instant a row is returned exactly when those criteria hold |
| DraftableScopes.GroupCriteria | src/Draftable.php:46-53 | the criteria already on a query, whatever their `or`s, become one `and`-joined conjunct that selects the same rows |
| DraftableScopes.OnlyDrafts | src/Draftable.php:46-53 | the global scope is off, and a row is returned exactly when it is a draft at the instant the scope is applied and meets all of the query's own criteria |
| DraftableScopes.EarlierOrStaysGrouped | src/Draftable.php:46-53 | for every query, whatever `orWhere` criteria it already carries, no row published at the instant the scope is applied is in the `onlyDrafts` result |
| DraftableScopes.EarlierOrStaysGroupedExample | src/Draftable.php:46-53 | for the query `where(true)->orWhere(false)`, the published row `Row(0, Some(now))` meets the query's criteria but is left out of its `onlyDrafts` result |
| DraftableScopes.UngroupedOrEscapesCriteria | src/Draftable.php:48-52 | inside its group the `or` respects an earlier criterion; appended without the group, a scheduled row escapes an always-false earlier criterion |
| DraftableScopes.DefaultScopeKeepsPublished | src/Draftable.php:20-26 | with the global scope on, a query returns, in snapshot order, exactly the published rows among those its own criteria select |
| DraftableScopes.WithDraftsKeepsAll | src/Draftable.php:35-38 | `withDrafts` on a plain query returns the whole snapshot, drafts included |
| DraftableScopes.OnlyDraftsKeepsDrafts | src/Draftable.php:46-53 | `onlyDrafts` returns, in snapshot order, exactly the draft rows among those the query's own criteria select; those criteria still apply |
| DraftableScopes.PublishedDraftsPartition | src/Draftable.php:60-74 | the published rows and the draft rows of a snapshot are disjoint and together, as a multiset, are the snapshot |
| DraftableScopes.ScopesPartition | src/Draftable.php:20-53 | for one snapshot and one instant, the default result and the `onlyDrafts` result are disjoint and together make up the `withDrafts` result |
| DraftableScopes.DefaultAndOnlyDraftsSplitTable | src/Draftable.php:20-53 | on a plain query the default scope returns the published rows, `onlyDrafts` the draft rows, and together they are the whole table |

## Left out

- Date parsing: `Carbon::parse` of strings, relative expressions such as `+1 week`, and the parse exception Carbon throws for an unreadable date (`InvalidFormatException` in Carbon 2) (src/Draftable.php:85) are a foreign library call. Dates enter the model already parsed, as `Option<int>`.
- The clock: Carbon's `now` becomes the `Clock` object or a `now` parameter. `setPublished` reads the clock twice (src/Draftable.php:105-106); the model uses one reading per operation.
- Eloquent's machinery is not modelled: registering the global scope at boot (`addGlobalScope`), SQL generation, the internals of `withoutGlobalScope`, and the real database write behind `save()`. Scopes are filters over a snapshot, and `save()` is a history of written values. A failing save is not modelled.
- Other columns of a row (e.g. `title`) are not modelled; `Row.id` stands for them.
- Result order: queries return their rows in snapshot order. The queries have no `ORDER BY`, so the program promises no order; the multiset and membership lemmas do not depend on it.
- There is no `schedule` method in the code; `publishAt` is the scheduling operation.
- The test at tests/DraftableTest.php:31-34 is empty and states nothing to model.
