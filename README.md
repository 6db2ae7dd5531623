# NotificationModel in Dafny

A model of `NotificationModel`, the service class of Mautic's notification bundle
(`app/bundles/NotificationBundle/Model/NotificationModel.php`). The class saves
Notification entities in batches, brackets each save with lifecycle events,
records delivery statistics, prepares the "hits" line chart and answers the
autocomplete lookup. Its collaborators are the Doctrine entity manager and
repositories, the Symfony event dispatcher, the translator, the security
service and the chart helpers. The model replaces them with abstract state:

- `Model.NotificationModel` is a class with an append-only `log` of every call its
  methods make that changes a collaborator's state or loads an entity by id, in order: `Stamped` (the inherited
  `setTimestamps`), `Saved(entity, flush)`, `Flushed`, `Loaded(id)`,
  `StatSaved(stat)`, `Constructed(event)` and `Dispatched(name, event)`. The set
  of events that have listeners is the constant `listeners`.
- `Dispatching.Dispatch` and `BatchSave.SaveAllOps` are pure functions. They give the
  result and the calls of `dispatchEvent` and `saveEntities`. The class methods
  are proved to append exactly these calls, and the lemmas in `BatchSave` prove
  what the batch save guarantees.
- `Lookup` models `getLookupResults`. A PHP array is modelled as an ordered list of
  key/value entries (`PhpArrays`). `$a[$k] = $v` overwrites an existing key in
  place or appends a new one. `ksort` sorts the entries by ascending key.
- `HitsChart` models the filter and flag handling of `getHitsLineChartData`,
  and `Forms` models the entity check and form choice of `createForm`.
- `PhpValues` holds the PHP semantics the code relies on: falsy values, `empty`
  and `strpos(...) !== false`.

An entity in the batch that is not a Notification is stamped and saved without
events, and the batch goes on (`BatchSave.OtherEntitySavedWithoutEvents`).

## Model

| member | source | states |
|---|---|---|
| `Dispatching.EventNameFor` | app/bundles/NotificationBundle/Model/NotificationModel.php:180-195 | an action names an event exactly when it is one of `pre_save`, `post_save`, `pre_delete`, `post_delete` |
| `Dispatching.EventNameForRoundTrip` | app/bundles/NotificationBundle/Model/NotificationModel.php:180-192 | the action-to-event switch is a bijection between the four action strings and the four events |
| `Dispatching.Dispatch` | app/bundles/NotificationBundle/Model/NotificationModel.php:174-209 | the type guard comes first: a non-Notification gives `MethodNotAllowed(["Notification"])` and makes no call, whatever the action; an unknown action, or an event without listeners, returns null and builds or dispatches nothing; otherwise the supplied event is reused (or one is built for (entity, isNew) when none is supplied), dispatched exactly once under the mapped name, and returned |
| `Model.NotificationModel.DispatchEvent` | app/bundles/NotificationBundle/Model/NotificationModel.php:174-209 | returns what `Dispatch` gives and appends exactly its construction and dispatch calls to the log |
| `Model.NotificationModel.SaveOne` | app/bundles/NotificationBundle/Model/NotificationModel.php:81-94 | one loop pass appends exactly `EntityOps`: stamp with `isNew` taken from the id, `pre_save` for a Notification, save without flush, `post_save` for a Notification, which is handed the `pre_save` result |
| `Model.NotificationModel.SaveEntities` | app/bundles/NotificationBundle/Model/NotificationModel.php:75-101 | appends exactly `SaveAllOps`: the per-entity calls in input order, a flush after every 20th entity and one final flush |
| `BatchSave.NotificationSaveBracketed` | app/bundles/NotificationBundle/Model/NotificationModel.php:81-94 | a Notification is stamped with `isNew` = (id is null or 0), then gets `pre_save` (if it has listeners) before its save without flush, then `post_save` (if it has listeners) after it; at most one event object is built, and `post_save` reuses the one `pre_save` returned |
| `BatchSave.OtherEntitySavedWithoutEvents` | app/bundles/NotificationBundle/Model/NotificationModel.php:86-94 | any other entity is stamped and saved without flush, with no event and no error |
| `BatchSave.EntityOpsSavesOnce` | app/bundles/NotificationBundle/Model/NotificationModel.php:81-94 | one loop pass saves exactly that entity, once, and does not flush |
| `BatchSave.SaveAllFlushCount` | app/bundles/NotificationBundle/Model/NotificationModel.php:78-100 | for N entities the entity manager is flushed exactly N / 20 + 1 times; an empty batch is flushed once |
| `BatchSave.LoopFlushCount` | app/bundles/NotificationBundle/Model/NotificationModel.php:96-98 | the loop alone flushes N / 20 times |
| `BatchSave.SaveAllSavesInOrder` | app/bundles/NotificationBundle/Model/NotificationModel.php:80-90 | every input entity is saved exactly once, in input order, and no save flushes by itself |
| `BatchSave.LoopSavesInOrder` | app/bundles/NotificationBundle/Model/NotificationModel.php:80-90 | the loop saves the input entities in input order, each once |
| `BatchSave.LoopSavesWithoutFlush` | app/bundles/NotificationBundle/Model/NotificationModel.php:90 | every save in the loop is `saveEntity($entity, false)` |
| `BatchSave.SaveAllBatchBoundaries` | app/bundles/NotificationBundle/Model/NotificationModel.php:96-100 | after the loop exactly N mod 20 saves are unflushed (so never 20 or more), and after the final flush none are |
| `BatchSave.EntityEventsConcernIt` | app/bundles/NotificationBundle/Model/NotificationModel.php:86-94 | every event built or dispatched in one loop pass is for that entity, and only when it is a Notification |
| `BatchSave.SaveAllEventsOnlyForNotifications` | app/bundles/NotificationBundle/Model/NotificationModel.php:86-94 | every event built or dispatched by the batch is for a Notification of the batch |
| `Model.NotificationModel.GetEntity` | app/bundles/NotificationBundle/Model/NotificationModel.php:137-146 | a null id gives a new Notification without id and leaves the log untouched (no repository access); any other id, 0 included, is one inherited lookup, whose answer (or null) is returned |
| `Model.NotificationModel.CreateStatEntry` | app/bundles/NotificationBundle/Model/NotificationModel.php:152-162 | exactly one Stat is saved, carrying the given time, lead, notification, source and source id |
| `Forms.CreateForm` | app/bundles/NotificationBundle/Model/NotificationModel.php:116-128 | a non-Notification gives `MethodNotAllowed(["Notification"])`; otherwise the form is for the given entity, the `action` option is set to the action exactly when the action is not empty (null, "" and "0" are empty) and every other option is unchanged, and the mobile form is chosen exactly when the action contains `mobile_` |
| `PhpValues.ContainsAt` | app/bundles/NotificationBundle/Model/NotificationModel.php:125 | the `strpos` test holds exactly when the needle starts at some offset of the action |
| `HitsChart.GetHitsLineChartData` | app/bundles/NotificationBundle/Model/NotificationModel.php:213-255 | a set (non-null) `flag` is removed from the filter, a null `flag` entry stays, and every other entry reaches the query unchanged; the single "total sent" line on `push_notification_stats.date_sent` is added exactly when the flag is absent, falsy or `total_and_unique`; that query is restricted to notifications created by the current user (`limitQueryToCreator`) exactly when the caller cannot view others' notifications |
| `PhpArrays.Put` | app/bundles/NotificationBundle/Model/NotificationModel.php:321 | after `$a[$k] = $v` the key holds the new value and every other key maps to what it mapped to before |
| `PhpArrays.PutKeys` | app/bundles/NotificationBundle/Model/NotificationModel.php:321 | an existing key keeps its position, and a new key is appended after all existing ones |
| `PhpArrays.PutKeepsUnique` | app/bundles/NotificationBundle/Model/NotificationModel.php:321 | assignment never creates a duplicate key |
| `PhpArrays.KSortSpec` | app/bundles/NotificationBundle/Model/NotificationModel.php:325 | `ksort` on an array with distinct string keys leaves the keys strictly ascending, keeps the same keys and answers every lookup as before |
| `PhpArrays.KSortSorted` | app/bundles/NotificationBundle/Model/NotificationModel.php:325 | `ksort` output is strictly ascending by key when keys are distinct |
| `PhpArrays.InsertSorted` | app/bundles/NotificationBundle/Model/NotificationModel.php:325 | inserting a new key into a sorted array keeps it sorted |
| `PhpArrays.StrLessTransitive` | app/bundles/NotificationBundle/Model/NotificationModel.php:325 | the key order `ksort` uses is transitive |
| `PhpArrays.StrLessTotal` | app/bundles/NotificationBundle/Model/NotificationModel.php:325 | any two distinct keys are ordered one way or the other |
| `Lookup.AddRowEffect` | app/bundles/NotificationBundle/Model/NotificationModel.php:321 | one row changes only its own language's entry, which gains or overwrites the row's id; a new language is appended after the existing ones |
| `Lookup.GroupWellFormed` | app/bundles/NotificationBundle/Model/NotificationModel.php:320-322 | grouping gives one entry per language and one entry per id within a language |
| `Lookup.GroupLanguages` | app/bundles/NotificationBundle/Model/NotificationModel.php:320-322 | the outer keys are exactly the languages of the rows |
| `Lookup.GroupFind` | app/bundles/NotificationBundle/Model/NotificationModel.php:320-322 | each (language, id) maps to the name of the last row carrying it, so a later row overwrites an earlier one |
| `Lookup.GroupOrder` | app/bundles/NotificationBundle/Model/NotificationModel.php:320-322 | within a language the ids keep the order in which they first occur among the rows |
| `Lookup.SortedGroupAnswers` | app/bundles/NotificationBundle/Model/NotificationModel.php:320-325 | grouping followed by `ksort` gives sorted languages, the rows' languages only, last-row names and first-seen id order |
| `Lookup.GetLookupResults` | app/bundles/NotificationBundle/Model/NotificationModel.php:307-348 | a type other than `notification` or `mobile_notification` queries nothing and returns []; otherwise the matching list is queried with the filter, limit, start, the `notification:notifications:viewother` permission and the type option, and the answer has sorted languages, exactly the rows' languages, the last row's name for each id and the first-seen id order |

## Left out

- `RoleApiController` and `TweetApiController` only configure the generic API controller, which is not part of this model, so they hold no logic to model.
- `getRepository`, `getStatRepository`, `getNotificationStatus`, `getNotificationStatByLeadId` and `getNotificationClickStats` only forward to a repository or to the trackable model, which are not part of this model. The list queries of `getLookupResults` become the function parameter `repository`.
- `getPermissionBase` is the constant `Lookup.PermissionBase`; the constructor only stores the trackable model.
- `setTimestamps` and the unlock logic are inherited and not part of this model. They are recorded as a `Stamped(entity, isNew, unlock)` call. The model does not capture the changes they make to the entity, so the saved entity is the value that came in.
- Entities are values (class and id), not objects. Object identity, passing by reference (`&$entity`) and listeners that change the entity or the event are not modelled.
- The dispatcher is reduced to the set of events that have listeners. The order in which listeners run and stopped propagation are the dispatcher's business and are not modelled. The string values of the `NotificationEvents` constants are not part of this model.
- The inherited `getEntity($id)` is modelled as a lookup in the map `stored`, recorded as `Loaded(id)`.
- The queries that change nothing are not logged: `hasListeners`, `getConnection` and the translator. The list queries of `getLookupResults` (`getNotificationList`, `getMobileNotificationList`) are not logged either; `Lookup.GetLookupResults` returns the query it makes as `query`.
- An exception thrown by a `pre_save` or `post_save` listener would end `saveEntities` in the middle of the batch, after the earlier batches were flushed. Listeners never throw in the model.
- Repository and flush failures are not modelled. Every save and flush succeeds, so partial completion of a batch is not shown.
- `Model.NotificationModel.CreateStatEntry`: the time comes in as the parameter `now` instead of being read from the clock. The flush default of the Stat repository's `saveEntity` is not part of this model, so the save is recorded without a flush flag.
- `HitsChart.GetHitsLineChartData`: the line chart, the time bucketing, the date formats, loading the data and `render()` belong to chart helpers that are not part of this model. The model returns the chart's parameters and the query behind each line, not the rendered data. The label is the translation key, because the translator is not modelled.
- `Forms.CreateForm` returns the type, entity and options it would hand to the form factory. Building the form itself is left out.
- `PhpArrays.KSortSpec`: keys are compared as strings, code point by code point. PHP's numeric comparison of numeric-string keys is not modelled, and neither is PHP's conversion of integer-like string keys to integers. Language tags are assumed to be non-numeric.
- Ids are PHP integers. String ids and loose comparison of ids are not modelled.
- PHP floats are modelled as exact reals, so NaN, infinities and `-0.0` are not represented. Array values are compared by their entries only.
