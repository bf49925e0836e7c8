# Habitify: a verified model of the dynamic-schema table layer

Habitify is a habit tracker built on Next.js, with Supabase as the backend.
Its core is a **dynamic-schema table layer**:

- Table shapes are declared in code as `TableSchema` constants.
- Before any read or write, the layer makes sure the backend table exists.
  - It keeps a process-wide cache of names of tables known to exist.
  - It probes the table through the REST API.
  - When the table is missing, it creates it. On the server it sends the
    schema's SQL to the Supabase Management API. In the browser it POSTs
    to the `/api/supabase/ensure-table` route.
- On top of that sit:
  - the "smart" CRUD helpers;
  - a session guard;
  - the entity services (habits, habit logs, time-of-day slots, areas, items, storage);
  - a number of small pure helpers inside the UI components.

This project models that core in Dafny and proves what the code promises.

- **Modules.** There is one module per source file, plus a few shared ones:
  - `Wrappers` holds `Option`;
  - `Seqs` and `Strings` hold sequence and ASCII string functions;
  - `Js` holds JavaScript's truthiness, `parseInt`, `Number`, and thrown
    values as `Outcome`;
  - `Db` is an abstract backend table: rows are `map<string, Value>`,
    filters are ANDed equalities and comparisons, and there are ordering,
    `limit`, `single` and `maybeSingle`.
- **State changed in place** is a Dafny class:
  - the table-existence cache is `TableManager.TableCache`;
  - a backend table is `Db.Table`, and the storage bucket is `Storage.Bucket`;
  - each stateful component is a class: the timer, the carousel, the
    new-habit form, the file-upload control, the time-of-day add form and
    the dashboard context.
- **Specification functions.** Each state-changing method is proved
  against a pure transition function. The lemmas about those functions
  state the properties.
- **Oracles.** Everything the code learns from the outside is an input
  of the model. That covers:
  - the probe reply, the Management API reply and the route reply;
  - the auth replies;
  - the backend's answer (`Fault`) to each query;
  - the generated columns;
  - the clock.

## Model

| member | source | states |
|---|---|---|
| Ddl.UndoubleDouble | lib/supabase/tableManager.ts:19 | Un-doubling the doubled quotes of any text gives the text back. |
| Ddl.QuoteId | lib/supabase/tableManager.ts:18-20 | The quoted identifier starts and ends with `"` and is at least two characters longer than the name. |
| Ddl.QuoteIdRoundTrip | lib/supabase/tableManager.ts:18-20 | Stripping the outer quotes of `quoteId(name)` and un-doubling gives back `name` (quoted identifiers, section 4.1.1 of the PostgreSQL manual). |
| Ddl.QuoteIdInjective | lib/supabase/tableManager.ts:18-20 | Two names have the same quoted form exactly when they are equal. |
| Ddl.Clauses | lib/supabase/tableManager.ts:31-35 | A column's clauses come in the fixed order DEFAULT, NOT NULL, PRIMARY KEY, REFERENCES. Each is present exactly when the column declares it: a non-null default, `is_nullable === false`, `is_primary`, or a truthy `references`. |
| Ddl.ColumnDefShape | lib/supabase/tableManager.ts:31-36 | A column definition is the quoted name, a space, the type, and then exactly the clauses above. |
| Ddl.ColumnDefs | lib/supabase/tableManager.ts:30-37 | There is one definition per column, in declaration order. |
| Ddl.IndexSqls | lib/supabase/tableManager.ts:41-45 | There is one CREATE INDEX statement per index, in order. |
| Ddl.PolicySqlAt | lib/supabase/tableManager.ts:51-60 | For policy k, a DROP POLICY sits at position 2k and its CREATE POLICY at 2k+1. |
| Ddl.SchemaToSql | lib/supabase/tableManager.ts:25-64 | The method that pushes statements part by part returns the statements of `Statements(schema)` joined with `; `. |
| Ddl.PushIndexStatements | lib/supabase/tableManager.ts:40-46 | The index loop appends exactly the rendered CREATE INDEX statements. |
| Ddl.IndexText | lib/supabase/tableManager.ts:42-44 | One index's text is `CREATE[ UNIQUE] INDEX IF NOT EXISTS`, its quoted name, the table, and the columns joined by `, ` (or the string as given). |
| Ddl.PushRlsStatements | lib/supabase/tableManager.ts:49-61 | The RLS part appends the ENABLE statement and then the policy statements. |
| Ddl.PolicyText | lib/supabase/tableManager.ts:52-58 | A policy's DROP text and its CREATE text, with USING and WITH CHECK only when given, ending in `;`. |
| Ddl.PushPolicyStatements | lib/supabase/tableManager.ts:51-60 | The policy loop appends a DROP and a CREATE per policy, in order. |
| Ddl.StatementCount | lib/supabase/tableManager.ts:38-63 | The number of statements is 1 + the number of indexes, plus 1 + 2 × the number of policies when RLS is on. |
| Ddl.StatementAt | lib/supabase/tableManager.ts:38-50 | Statement 0 is the CREATE TABLE. The CREATE INDEX statements follow in order. The ENABLE comes right after them when RLS is on. |
| Ddl.RlsStatementsAt | lib/supabase/tableManager.ts:49-61 | With RLS on, the DROP and CREATE of each policy follow the ENABLE, in policy order. |
| Ddl.CreatePolicyEndsWithSemicolon | lib/supabase/tableManager.ts:58 | Every CREATE POLICY text ends in `;`. |
| Ddl.EnableIffRlsOn | lib/supabase/tableManager.ts:49-50 | The ENABLE ROW LEVEL SECURITY text is in the script exactly when `rls_enabled` is true and there is at least one policy. |
| Ddl.AreasStatementCount | lib/supabase/schemas/areas.schema.ts:5-22 | The areas schema compiles to 3 statements. |
| Ddl.HabitLogsStatementCount | lib/supabase/schemas/habit_logs.schema.ts:5-25 | The habit-logs schema compiles to 4 statements. |
| Ddl.HabitsStatementCount | lib/supabase/schemas/habits.schema.ts:5-36 | The habits schema compiles to 4 statements. |
| Ddl.ItemsStatementCount | lib/supabase/schemas/items.schema.ts:5-20 | The items schema compiles to 3 statements. |
| Ddl.TimeOfDayStatementCount | lib/supabase/schemas/time_of_day.schema.ts:5-24 | The time-of-day schema compiles to 3 statements. |
| TableManager.TableExists | lib/supabase/tableManager.ts:95-103 | The probe means: no error is `true`; error code PGRST205 is `false`; any other error is rethrown as that error. All of these are iff. |
| TableManager.StripHttps | lib/supabase/tableManager.ts:74 | A leading `https://` is dropped, and nothing else is. |
| TableManager.ProjectRef | lib/supabase/tableManager.ts:74 | The project ref is the first dot-separated label of the URL with `https://` stripped. It has no dot, it is a prefix, and a dot follows it unless it is the whole host. |
| TableManager.ManagementErrorText | lib/supabase/tableManager.ts:86-88 | The error text is the reply's `message`, else its `error`, else `Management API <status>: <statusText>`. |
| TableManager.RunManagementQuery | lib/supabase/tableManager.ts:69-90 | A missing token or URL throws its message before any request is made. Otherwise one POST goes to the project's query endpoint, and a reply that is not ok throws the error text. |
| TableManager.CreateTableEffect | lib/supabase/tableManager.ts:108-112 | A successful create adds `schema.name` to the cache. A failure throws and leaves the cache unchanged. |
| TableManager.RouteErrorText | lib/supabase/tableManager.ts:141-143 | A failed route reply throws the body's message, or the status text when the body does not parse, or `Failed to ensure table`. |
| TableManager.Ensure | lib/supabase/tableManager.ts:118-147 | A cache hit returns with no call. Otherwise the probe is the first call, and a probe that reports "exists" caches `tableName`. A missing table is created (server) or requested from the route (browser). A throw leaves the cache unchanged, and the cache only ever grows by `tableName` or `schema.name`. |
| TableManager.EnsureIdempotent | lib/supabase/tableManager.ts:123 | After a call that returns, a second call with the same name is a cache hit that makes no call. |
| TableManager.ServerCachesSchemaName | lib/supabase/tableManager.ts:111-133 | On the server a created table is cached under `schema.name`, even when that differs from `tableName`. |
| TableManager.NoRequestWithoutConfig | lib/supabase/tableManager.ts:72-73 | Missing configuration on the server throws before any Management API request, whatever that API would reply. Also line 133. |
| TableManager.TableCache.constructor | lib/supabase/tableManager.ts:16 | The cache starts empty. |
| TableManager.TableCache.CreateTable | lib/supabase/tableManager.ts:108-112 | The new cache, the outcome and the calls are those of `CreateTableEffect`. |
| TableManager.TableCache.EnsureTableExists | lib/supabase/tableManager.ts:118-147 | The new cache, the outcome and the calls are those of `Ensure`. |
| TableManager.TableCache.InvalidateTableCache | lib/supabase/tableManager.ts:152-154 | Exactly the given name is removed from the cache. |
| EnsureTableRoute.Failure | app/api/supabase/ensure-table/route.ts:50-53 | A thrown error answers 500 with its message when it is an `Error`, and with `Ensure table failed` otherwise. |
| EnsureTableRoute.Post | app/api/supabase/ensure-table/route.ts:11-54 | The request checks come first. An unparsable body answers 500 with the parse error. A body without a non-empty `tableName`, a `schema.name` or an array of columns answers 400, and an empty columns array is allowed. A name mismatch answers 400. A missing URL or anon key answers 500 before any probe. A probe that finds the table answers 200 even without a management token. A missing table with no token answers 500 and creates nothing. A probe error answers 500. The status is always 200, 400 or 500, it is 200 exactly when the body is `{ok: true}`, and the cache grows by at most `schema.name`. |
| EnsureTableRoute.AsHttpReply | app/api/supabase/ensure-table/route.ts:49-52 | The route's answer as the browser's `fetch` sees it is `ok` exactly when the status is 200. |
| EnsureTableRoute.BrowserFollowsRoute | lib/supabase/tableManager.ts:134-146 | In the browser, `ensureTableExists` returns exactly when the route answers 200, and the name is then cached. A route error becomes a thrown `Error` with the route's message. |
| EnsureTableRoute.CreatedWhenMissing | app/api/supabase/ensure-table/route.ts:39-49 | A 200 for a missing table means the Management API was called after the probe and the schema's name is cached. |
| Session.EnsureSession | lib/supabase/ensureSession.ts:19-32 | A session with a string access token and a user returns that user after `getSession` and `getUser` only. Any other case calls `refreshSession`. A refresh error throws `Session expired or invalid. Please sign in again.` A refresh without a string token or a user throws `User not authenticated`. A normal return is always the user from `getUser` or the refresh, and every throw is an `Error`. |
| Session.RefreshAtMostOnce | lib/supabase/ensureSession.ts:21-26 | `refreshSession` is called at most once. |
| SmartCrud.PayloadRows | lib/supabase/crudWithAutoCreate.ts:22 | The payload is always an array, and a single object becomes a one-element array. |
| SmartCrud.Unwrap | lib/supabase/crudWithAutoCreate.ts:24-27 | A single-object insert with a non-empty result answers its first row. Any other non-null result is answered as the list, and a null result as no data. |
| SmartCrud.SelectPlan | lib/supabase/crudWithAutoCreate.ts:49-54 | The columns default to `*`. Ordering is applied only for a truthy `orderBy` and is descending unless `ascending` says otherwise. The limit is applied whenever one is given, 0 included. There is one equality per `eq` entry. |
| SmartCrud.InsertEffect | lib/supabase/crudWithAutoCreate.ts:22-28 | A backend failure leaves the rows unchanged and returns the error. Success appends the payload rows, each with the generated columns, and answers the first new row for a single object or all new rows for an array. |
| SmartCrud.SelectEffect | lib/supabase/crudWithAutoCreate.ts:55-60 | A failure gives no data and the error. With `single`, the answer is exactly one row or the not-one-row error. Otherwise it is the list that the plan selects. |
| SmartCrud.UpdateEffect | lib/supabase/crudWithAutoCreate.ts:75-78 | A failure changes nothing. Success patches exactly the rows that match every pair and answers the patched rows. |
| SmartCrud.DeleteEffect | lib/supabase/crudWithAutoCreate.ts:92-95 | A failure changes nothing and returns the error. Success deletes exactly the rows that match every pair, and only the error is returned. |
| SmartCrud.DeleteThenSelectFindsNothing | lib/supabase/crudWithAutoCreate.ts:52-93 | After a delete, a select with the same pairs finds nothing. |
| SmartCrud.InsertThenSelectFinds | lib/supabase/crudWithAutoCreate.ts:22-54 | An inserted row that matches the pairs is found by a later select with those pairs and no limit. |
| SmartCrud.UpdateKeepsOthers | lib/supabase/crudWithAutoCreate.ts:76 | An update leaves every row that does not match all of its pairs as it was. |
| SmartCrud.AddEqualities | lib/supabase/crudWithAutoCreate.ts:53-93 | The loop adds one equality per pair, in order. |
| SmartCrud.BuildSelect | lib/supabase/crudWithAutoCreate.ts:49-54 | The query built step by step is `SelectPlan(query)`. |
| SmartCrud.SmartInsert | lib/supabase/crudWithAutoCreate.ts:14-29 | `ensureTableExists` comes first. If it throws, no request is sent, the rows are unchanged and the error propagates. Otherwise exactly one insert is sent, with the payload array, and the rows and the answer are those of `InsertEffect`. |
| SmartCrud.SmartSelect | lib/supabase/crudWithAutoCreate.ts:34-61 | The same guard, then exactly one select request with `SelectPlan(query)`, answered by `SelectEffect`. |
| SmartCrud.SmartUpdate | lib/supabase/crudWithAutoCreate.ts:66-79 | The same guard, then exactly one update request, with the rows and the answer of `UpdateEffect`. |
| SmartCrud.SmartDelete | lib/supabase/crudWithAutoCreate.ts:84-96 | The same guard, then exactly one delete request, with the rows and the error of `DeleteEffect`. |
| Services.EnsureChecked | lib/supabase/tableManager.ts:118-147 | When the guard throws, the cache is as it was. When it returns, the table's name is cached. |
| Services.GuardedFacts | services/habitLogsService.ts:31-34 | A service call with the user check and an uncaught guard behaves as follows. With no user, it answers the empty result and touches nothing. A throw leaves the rows and the cache as they were. A call that changes the rows had a user, and the table is then cached. |
| Services.GuardedRows | services/habitLogsService.ts:31-34 | The rows afterwards are the body's rows when there is a user and the guard returned, and the old rows otherwise. |
| Services.CaughtFacts | services/habitsService.ts:9-52 | When the guard's throw is caught, a throwing guard answers the empty result with nothing changed. With no user, the rows are untouched. A call that changes the rows had a user, and the table is then cached. |
| Services.MatchesOwn | services/habitsService.ts:145-146 | The `.eq('id').eq('user_id')` filter matches exactly the user's row with that id. |
| Services.MatchesUser | services/habitLogsService.ts:42 | The `.eq('user_id')` filter matches exactly the user's rows. |
| Services.Descending | services/areasService.ts:39-44 | The user's rows by descending column: sorted, and a permutation of the user's rows. |
| Services.TopOfUser | services/areasService.ts:39-44 | The descending, limit-1 query answers nothing when the user has no rows, and the head of the descending list otherwise. |
| Services.InDescending | services/areasService.ts:39-44 | Each of the user's rows is in the descending list. |
| Services.HighestOfUser | services/areasService.ts:39-46 | When the column holds integers, the head of the descending list is one of the user's rows and holds the highest value among them. |
| Services.NullOfUserFirst | services/timeOfDayService.ts:55-63 | When one of the user's rows has no value in the column, the head of the descending list has no value there either (nulls sort first when descending). |
| HabitLogs.Pad2 | services/habitLogsService.ts:22-23 | Below 100, it gives two digits whose value is `n`. From 10 up, it is the plain numeral. |
| HabitLogs.DateToYMD | services/habitLogsService.ts:20-25 | The text of a local date, `YYYY-MM-DD`. Its meaning is stated by `DateToYMDFields` (the layout), `DateToYMDInjective` (distinct dates give distinct texts) and `DateTextOrder` (text order is date order). |
| HabitLogs.DateToYMDFields | services/habitLogsService.ts:20-25 | For a valid date with a four-digit year, the text is 10 characters: the year, `-`, the two-digit month (`getMonth()+1`), `-`, and the two-digit day, each reading back as its value (the `full-date` of section 5.6 of RFC 3339). |
| HabitLogs.DateToYMDInjective | services/habitLogsService.ts:20-25 | Two such dates with the same text are the same date. |
| HabitLogs.DateTextOrder | services/habitLogsService.ts:36-45 | For four-digit years, comparing the texts compares the dates. |
| HabitLogs.LogRow | services/habitLogsService.ts:70-79 | The written row holds the habit, the user and the day, has no `id`, and holds no `undefined`. |
| HabitLogs.LogRowFields | services/habitLogsService.ts:74-78 | The other columns are the status text, the value, minutes and note (NULL when missing), and `updated_at` set to the time of writing. |
| HabitLogs.GeneratedLogRow | services/habitLogsService.ts:103-107 | The stored row keeps the written key and takes its id from the generated columns. |
| HabitLogs.MatchesKey | services/habitLogsService.ts:84-86 | A row matches the lookup exactly when its habit, user and day columns hold the key. |
| HabitLogs.UpsertPathOf | services/habitLogsService.ts:81-89 | The update path is taken exactly when the lookup succeeds and finds exactly one row, and it updates by that row's id. A failed lookup, or one that finds several rows, reads as "no row". |
| HabitLogs.KeyedWrite | services/habitLogsService.ts:81-112 | The lookup, then the update of the one matching row or the insert. `KeyedWriteShape` states which path is taken and what the rows become. |
| HabitLogs.UpsertEffect | services/habitLogsService.ts:69-112 | The effect of `upsertLog` on the table. `UpsertEffectShape`, `UpsertKeepsOneRowPerKey`, `UpsertStoresEntry`, `FailedLookupDuplicates` and `WriteLog` state its meaning. |
| HabitLogs.KeyedWriteShape | services/habitLogsService.ts:81-112 | One row found means it is updated by id, and the updated row (or `null` on an error) is returned. No row found means the row is inserted with the generated columns, and the inserted row (or `null`) is returned. A failed write changes nothing. |
| HabitLogs.UpsertEffectShape | services/habitLogsService.ts:69-112 | The same, for the log row written under its key. |
| HabitLogs.WriteLog | services/habitLogsService.ts:81-112 | The method (lookup, then update or insert on the table) leaves the rows and the answer of `UpsertEffect`. |
| HabitLogs.UpsertKeepsOneRowPerKey | services/habitLogsService.ts:81-112 | With at most one row per key and unique, non-null ids beforehand, a successful lookup and a fresh generated id keep that invariant. |
| HabitLogs.InsertKeepsInvariant | services/habitLogsService.ts:103-107 | The insert path keeps it when the key had no row and the id is fresh. |
| HabitLogs.UpdateKeepsInvariant | services/habitLogsService.ts:90-95 | The update path changes only the row with that id, keeping its key and its id. |
| HabitLogs.FailedLookupDuplicates | services/habitLogsService.ts:81-107 | A failed lookup is taken as "no row", so the upsert inserts even when the key already has a row, leaving two rows under it. |
| HabitLogs.UpsertStoresEntry | services/habitLogsService.ts:70-112 | A successful lookup and write leave exactly one row under the key, holding everything written. |
| HabitLogs.InsertStores | services/habitLogsService.ts:103-107 | After an insert into a key with no row, exactly one row is under the key, and it carries the written row. |
| HabitLogs.UpdateStores | services/habitLogsService.ts:90-95 | After the update by id of the one row under the key, that row carries the written columns. |
| HabitLogs.MatchesFetch | services/habitLogsService.ts:39-45 | A row is in the range query exactly when it is the user's and its day text lies between the bounds. |
| HabitLogs.FetchEffect | services/habitLogsService.ts:39-51 | An error answers `[]`. Otherwise the answer is sorted by descending `log_date` and is a permutation of the matching rows. |
| HabitLogs.FetchFindsRange | services/habitLogsService.ts:36-51 | A stored row with a valid day is returned exactly when it is the user's and its day lies between the two dates (four-digit years). |
| HabitLogs.DeleteLogEffect | services/habitLogsService.ts:122-133 | It answers `true` exactly when the backend did not fail, and a failure deletes nothing. |
| HabitLogs.MatchesHabit | services/habitLogsService.ts:145-146 | The filter matches exactly the user's rows of the habit. |
| HabitLogs.DeleteAllEffect | services/habitLogsService.ts:142-152 | It answers `true` exactly when the backend did not fail, and a failure deletes nothing. |
| HabitLogs.DeleteLogRemovesDay | services/habitLogsService.ts:122-127 | After a successful `deleteLog` the day has no log for that user and habit. Every other row stays. |
| HabitLogs.DeleteAllRemovesEveryDay | services/habitLogsService.ts:142-146 | After a successful `deleteAllLogsForHabit` no day of the habit has a log for the user. The logs of other habits and other users stay. |
| HabitLogs.WhereAfterDelete | services/habitLogsService.ts:122-127 | Deleting never adds a match to any filter. |
| HabitLogs.DeleteKeepsInvariant | services/habitLogsService.ts:122-146 | Both deletes keep one row per key and one per id. |
| HabitLogs.FetchLogsForDateRange | services/habitLogsService.ts:27-52 | The new cache and the answer are those of `FetchLogsCall`. With no user that is `[]`. Otherwise the guard comes first, and its throw propagates. |
| HabitLogs.FetchLogsCall | services/habitLogsService.ts:27-52 | `fetchLogsForDateRange` as a function of the state. `FetchLogsForDateRange` is proved against it and `FetchFindsRange` states what it finds. |
| HabitLogs.UpsertLog | services/habitLogsService.ts:54-113 | The new cache, the rows and the answer are those of `UpsertLogCall`. With no user that is `null`. |
| HabitLogs.DeleteLog | services/habitLogsService.ts:115-134 | The new cache, the rows and the answer are those of `DeleteLogCall`. |
| HabitLogs.DeleteLogCall | services/habitLogsService.ts:115-134 | `deleteLog` as a function of the state. `DeleteLogGuarded` and `DeleteLogKeepsInvariant` state its meaning. |
| HabitLogs.DeleteAllLogsForHabit | services/habitLogsService.ts:136-153 | The new cache, the rows and the answer are those of `DeleteAllLogsCall`. |
| HabitLogs.DeleteAllLogsCall | services/habitLogsService.ts:136-153 | `deleteAllLogsForHabit` as a function of the state. `DeleteAllLogsGuarded` and `DeleteAllLogsKeepInvariant` state its meaning. |
| HabitLogs.UpsertLogGuarded | services/habitLogsService.ts:64-67 | A call with no user answers `null` and changes nothing. A throw changes nothing. A call that changes the table had a user, and the table is cached. |
| HabitLogs.DeleteLogGuarded | services/habitLogsService.ts:116-119 | The same for `deleteLog`, which answers `false` with no user. |
| HabitLogs.DeleteAllLogsGuarded | services/habitLogsService.ts:137-140 | The same for `deleteAllLogsForHabit`. |
| HabitLogs.UpsertLogKeepsInvariant | services/habitLogsService.ts:54-113 | With a successful lookup, `upsertLog` keeps one row per key and one per id. |
| HabitLogs.UpsertLogStores | services/habitLogsService.ts:54-113 | Once the table exists and the lookup and the write succeed, the day has exactly one row, and it holds the entry. |
| HabitLogs.DeleteLogKeepsInvariant | services/habitLogsService.ts:115-134 | `deleteLog` keeps the invariant, and when it reports success the day has no row left. |
| HabitLogs.DeleteAllLogsKeepInvariant | services/habitLogsService.ts:136-153 | `deleteAllLogsForHabit` keeps the invariant. |
| Habits.TimeOfDayList | services/habitsService.ts:39 | An array stays as it is, another non-null value becomes a one-element array, and `null` or `undefined` becomes `undefined`. |
| Habits.ItemOf | services/habitsService.ts:24-47 | A row's item always has `done = 0`. The goal is the row's goal when truthy, else 1. The type defaults to `checkbox` and the archived flag to `false`. The fetch's item has an array or `undefined` as its time of day. Also lines 90-110. |
| Habits.PatchFields | services/habitsService.ts:124-140 | The patch has `name`, `type` and `color` exactly when they are truthy, and the goal and the archived flag exactly when they are not `undefined`, so `goal: 0` and `isArchived: false` are patched. The values are the ones given. |
| Habits.PatchRule | services/habitsService.ts:125-138 | For each of these fields, its rule alone decides whether the column is in the patch and what it holds. |
| Habits.ArchivePatch | services/habitsService.ts:207-209 | `archiveHabit` patches `is_archived = true` and nothing else. |
| Habits.FetchEffect | services/habitsService.ts:13-47 | The select of `fetchUserHabits`. `FetchFindsOwn` states it. |
| Habits.CreateEffect | services/habitsService.ts:61-110 | The insert of `createHabit`. `CreateStoresOwned` states it. |
| Habits.UpdateEffect | services/habitsService.ts:142-148 | The update of `updateHabit`. `UpdateTouchesOwnOnly` states it. |
| Habits.DeleteEffect | services/habitsService.ts:189-200 | The delete of `deleteHabit`. `DeleteRemovesOwnOnly` states it. |
| Habits.FetchHabitsCall | services/habitsService.ts:6-52 | `fetchUserHabits` as a function of the state. `FetchUserHabits` is proved against it and `FetchFindsOwn` states what it finds. |
| Habits.CreateHabitCall | services/habitsService.ts:54-115 | `createHabit` as a function of the state. `CreateCatchesFailures` and `CreateStoresOwned` state it. |
| Habits.UpdateHabitCall | services/habitsService.ts:117-180 | `updateHabit` as a function of the state. `UpdateCatchesFailures` and `UpdateTouchesOwnOnly` state it. |
| Habits.DeleteHabitCall | services/habitsService.ts:182-205 | `deleteHabit` as a function of the state. `DeleteCatchesFailures` and `DeleteRemovesOwnOnly` state it. |
| Habits.FetchUserHabits | services/habitsService.ts:6-52 | The new cache and the answer are those of `FetchHabitsCall`. |
| Habits.CreateHabit | services/habitsService.ts:54-115 | The new cache, the rows and the answer are those of `CreateHabitCall`. |
| Habits.UpdateHabit | services/habitsService.ts:117-180 | The new cache, the rows and the answer are those of `UpdateHabitCall`. |
| Habits.DeleteHabit | services/habitsService.ts:182-205 | The new cache, the rows and the answer are those of `DeleteHabitCall`. |
| Habits.ArchiveHabit | services/habitsService.ts:207-209 | `archiveHabit(id)` is exactly `updateHabit(id, { isArchived: true })`. |
| Habits.CreateCatchesFailures | services/habitsService.ts:54-114 | A throwing guard is caught: the answer is `null` and nothing changes. With no user nothing is written. A call that writes has made sure the table exists. |
| Habits.UpdateCatchesFailures | services/habitsService.ts:117-179 | The same for an update. |
| Habits.DeleteCatchesFailures | services/habitsService.ts:182-204 | The same for a delete, which answers `false`. |
| Habits.FetchFindsOwn | services/habitsService.ts:13-47 | The fetch answers the user's habits, newest first, each mapped by `ItemOf`. |
| Habits.CreateStoresOwned | services/habitsService.ts:61-110 | A successful create appends one row. It holds the current user's id, a truthy type and a truthy goal, and the answer is the stored row's item. |
| Habits.UpdateTouchesOwnOnly | services/habitsService.ts:142-148 | An update patches the user's row with that id and leaves every other row as it was. |
| Habits.DeleteRemovesOwnOnly | services/habitsService.ts:189-200 | A successful delete answers `true` and removes exactly the user's row with that id. |
| TimeOfDay.SlotOf | services/timeOfDayService.ts:34-44 | A row's slot has its columns under the camel-case names. The fetch reads a missing `sort_order` as 0, and create and update pass it through. Also lines 84-94. |
| TimeOfDay.NextSortOrder | services/timeOfDayService.ts:63 | No existing row gives 0. A numeric `sort_order` gives that plus 1, and a missing one counts as −1 and gives 0. |
| TimeOfDay.NextAboveAll | services/timeOfDayService.ts:55-63 | With numeric sort orders, the next one is above every sort order of the user. It is 0 for the first slot, and otherwise one more than an existing one (the largest). |
| TimeOfDay.NullSortOrderRestarts | services/timeOfDayService.ts:55-63 | A user slot without a sort order sorts first in the descending lookup, so the next slot gets 0 again. |
| TimeOfDay.UpdateRule | services/timeOfDayService.ts:106-112 | Each update column is present exactly when its property is not null or undefined, and holds the value given. |
| TimeOfDay.UpdateRowStamps | services/timeOfDayService.ts:106-113 | The update row always sets `updated_at` to the time of the update. It writes a sort order only when one is given. |
| TimeOfDay.FetchEffect | services/timeOfDayService.ts:23-44 | The select of `fetchUserTimeOfDay`. `FetchSortedOwn` states it. |
| TimeOfDay.CreateEffect | services/timeOfDayService.ts:55-94 | The insert of `createTimeOfDay`. `CreateStores`, `CreateAppends` and `AppendSlot` state it. |
| TimeOfDay.UpdateEffect | services/timeOfDayService.ts:106-121 | The update of `updateTimeOfDay`. `PatchSlot`, `UpdateKeepsSortOrdersSet` and `UpdateTouchesOwnOnly` state it. |
| TimeOfDay.DeleteEffect | services/timeOfDayService.ts:147-157 | The delete of `deleteTimeOfDay`. `DeleteRemovesOwnOnly` states it. |
| TimeOfDay.FetchSlotsCall | services/timeOfDayService.ts:17-45 | The fetch as a function of the state. `FetchUserSlots` is proved against it and `FetchSortedOwn` states what it finds. |
| TimeOfDay.CreateSlotCall | services/timeOfDayService.ts:47-95 | The create as a function of the state. `CreateGuarded`, `CreateStores` and `CreateAppends` state it. |
| TimeOfDay.UpdateSlotCall | services/timeOfDayService.ts:97-139 | The update as a function of the state. `UpdateGuarded` and `UpdateTouchesOwnOnly` state it. |
| TimeOfDay.DeleteSlotCall | services/timeOfDayService.ts:141-158 | The delete as a function of the state. `DeleteGuarded` and `DeleteRemovesOwnOnly` state it. |
| TimeOfDay.FetchUserSlots | services/timeOfDayService.ts:17-45 | The new cache and the answer are those of `FetchSlotsCall`. |
| TimeOfDay.CreateSlot | services/timeOfDayService.ts:47-95 | The new cache, the rows and the answer are those of `CreateSlotCall`. |
| TimeOfDay.AppendSlot | services/timeOfDayService.ts:55-94 | The lookup and then the insert leave the rows and the answer of `CreateEffect`. |
| TimeOfDay.UpdateSlot | services/timeOfDayService.ts:97-139 | The new cache, the rows and the answer are those of `UpdateSlotCall`. |
| TimeOfDay.PatchSlot | services/timeOfDayService.ts:106-138 | Building the row and then updating leave the rows and the answer of `UpdateEffect`. |
| TimeOfDay.DeleteSlot | services/timeOfDayService.ts:141-158 | The new cache, the rows and the answer are those of `DeleteSlotCall`. |
| TimeOfDay.CreateGuarded | services/timeOfDayService.ts:50-53 | The user check comes before the guard. With no user the answer is `null` and nothing changes. A throw changes nothing. A write had a user, and the table is cached. |
| TimeOfDay.UpdateGuarded | services/timeOfDayService.ts:101-104 | The same for an update. |
| TimeOfDay.DeleteGuarded | services/timeOfDayService.ts:142-145 | The same for a delete. |
| TimeOfDay.FetchSortedOwn | services/timeOfDayService.ts:23-44 | The fetch answers a permutation of the user's slots, in ascending sort order, each with a numeric sort order. |
| TimeOfDay.CreateStores | services/timeOfDayService.ts:63-94 | A created slot is the user's, stored with the next sort order (whatever the slot's own `sortOrder` says), and the call answers its slot. |
| TimeOfDay.CreateAppends | services/timeOfDayService.ts:55-77 | With numeric sort orders, a created slot goes after all of the user's slots, and the sort orders stay numeric. |
| TimeOfDay.UpdateTouchesOwnOnly | services/timeOfDayService.ts:115-121 | An update patches the user's slot with that id and leaves every other row as it was. |
| TimeOfDay.UpdateKeepsSortOrdersSet | services/timeOfDayService.ts:106-121 | An update keeps the sort orders numeric when a given one is a number. |
| TimeOfDay.DeleteRemovesOwnOnly | services/timeOfDayService.ts:147-157 | A successful delete answers `true` and removes exactly the user's slot with that id. |
| Areas.AreaOf | services/areasService.ts:20-26 | A row's area has the row's columns as they are. |
| Areas.NextOrder | services/areasService.ts:46 | No row gives 0. A numeric `order` gives that plus 1, and a null `order` gives 1, as JavaScript does for numbers and null. Also lines 39-44. |
| Areas.NextOrderAboveAll | services/areasService.ts:39-46 | With numeric orders, a new area goes after every area of the user: one more than the highest order, or 0 for the first area. |
| Areas.NullOrderGivesOne | services/areasService.ts:39-46 | A user area with a null `order` sorts first in the descending lookup, so the next order is 1. |
| Areas.PatchRule | services/areasService.ts:85-90 | Each column's rule alone decides it. `name`, `color` and `icon` are in the patch exactly when truthy, and `order` when it is not `undefined`. Each holds the value given. |
| Areas.PatchFields | services/areasService.ts:85-90 | The patch holds no column but `name`, `color`, `icon` and `order`. An empty name is left out, and an `order` of 0 is patched. |
| Areas.FetchAreasCall | services/areasService.ts:4-31 | `fetchUserAreas` as a function of the state. `FetchSortedOwn` and `FailuresChangeNothing` state it. |
| Areas.CreateAreaCall | services/areasService.ts:33-76 | `createArea` as a function of the state. `CreateAppends` and `FailuresChangeNothing` state it. |
| Areas.UpdateAreaCall | services/areasService.ts:78-112 | `updateArea` as a function of the state. `UpdateTouchesOwnOnly` and `FailuresChangeNothing` state it. |
| Areas.DeleteAreaCall | services/areasService.ts:114-135 | `deleteArea` as a function of the state. `DeleteRemovesOwnOnly` and `FailuresChangeNothing` state it. |
| Areas.FetchUserAreas | services/areasService.ts:4-31 | The answer is that of `FetchAreasCall`. |
| Areas.CreateArea | services/areasService.ts:33-76 | The rows and the answer are those of `CreateAreaCall`. |
| Areas.UpdateArea | services/areasService.ts:78-112 | The rows and the answer are those of `UpdateAreaCall`. |
| Areas.DeleteArea | services/areasService.ts:114-135 | The rows and the answer are those of `DeleteAreaCall`. |
| Areas.FailuresChangeNothing | services/areasService.ts:7-128 | With no user or a failed request, nothing changes and the answer is `[]`, `null` or `false`. |
| Areas.FetchSortedOwn | services/areasService.ts:9-26 | The fetch answers the user's areas in ascending `order`. |
| Areas.CreateAppends | services/areasService.ts:39-71 | A created area is stored for the user after all of the user's areas, and the orders stay numeric. |
| Areas.UpdateTouchesOwnOnly | services/areasService.ts:83-94 | An update patches the user's area with that id and leaves every other row as it was. |
| Areas.DeleteRemovesOwnOnly | services/areasService.ts:119-130 | A successful delete answers `true` and removes exactly the user's area with that id. |
| Storage.BucketName | services/storageService.ts:3-4 | The configured bucket, or `item-images` when none is configured. |
| Storage.Extension | services/storageService.ts:7 | The text after the last `.` of the name, or the whole name when it has none. It holds no dot. |
| Storage.UploadKeepsExtension | services/storageService.ts:7-8 | The stored path `userId/now.ext` has the same extension as the uploaded file. |
| Storage.UploadPath | services/storageService.ts:8 | The stored path of an upload. `UploadKeepsExtension`, `UploadInUserFolder` and `UploadPathsDiffer` state it. |
| Storage.UploadInUserFolder | services/storageService.ts:8 | The stored path starts with `userId/`, and its first segment is the user's id when the id holds no slash. |
| Storage.UploadPathsDiffer | services/storageService.ts:8 | Two uploads by the same user at different times go to different paths. |
| Storage.RemoveTarget | services/storageService.ts:32-36 | With no `<bucket>/` in the pathname (or an unparsable URL) nothing is removed. Otherwise the segment between the first and the next `<bucket>/` is removed. |
| Storage.RemovesWhatWasStored | services/storageService.ts:22-36 | In the default bucket, the path read back from a public URL is the stored path, unless that path itself holds `item-images/`. |
| Storage.UploadRefusal | services/storageService.ts:12-19 | An upload without overwrite is refused exactly when the request fails or the path is already taken. |
| Storage.Bucket.constructor | services/storageService.ts:3-4 | The bucket holds the given files. |
| Storage.Bucket.Upload | services/storageService.ts:10-15 | A refusal leaves the files as they were. Otherwise the path is added. |
| Storage.Bucket.Remove | services/storageService.ts:38-40 | The path is gone unless the request failed. |
| Storage.UploadImage | services/storageService.ts:6-27 | The files and the outcome are those of `UploadEffect`. |
| Storage.DeleteImage | services/storageService.ts:29-48 | The files and the removed path are those of `DeleteEffect`. It never throws. |
| Storage.UploadAddsOne | services/storageService.ts:6-27 | An upload either returns, having added exactly its new path, or throws the storage error with nothing added. It returns exactly when the request succeeds and the path is free. |
| Storage.UploadEffect | services/storageService.ts:6-27 | `uploadImage` on the files. `UploadAddsOne` and `DeleteUndoesUpload` state it. |
| Storage.DeleteEffect | services/storageService.ts:29-48 | `deleteImage` on the files. `DeleteUndoesUpload` and `RemovesWhatWasStored` state it. |
| Storage.DeleteUndoesUpload | services/storageService.ts:6-48 | Deleting the public URL of a fresh upload to the default bucket gives back the files as they were before the upload. |
| Items.DescriptionValue | services/crudService.ts:43 | An empty or missing description is stored as `null`, and any other is stored as given. Also line 92. |
| Items.Owned | services/crudService.ts:66-75 | The owned item is found exactly when the lookup succeeds and exactly one row has the id and the user. That row is then returned. Also lines 113-122. |
| Items.Enter | services/crudService.ts:9-11 | The session check and the table check leave the gate and the cache of `Gated`. Also lines 27, 36, 61-63 and 108-110. |
| Items.Gated | services/crudService.ts:9-11 | The session check and then the table check. `GateChecksSessionFirst` and `StoppedCallsChangeNothing` state it. |
| Items.GetItemsCall | services/crudService.ts:8-24 | `getItems` as a function of the state. `GetItemsOwnNewestFirst` states it. |
| Items.StoreStage | services/crudService.ts:36-57 | The insert of `createItem` and the clean-up after a failed one. `StoreInserts`, `UploadedThenStored` and `CreateRemovesUploadOnFailedInsert` state it. |
| Items.UploadStage | services/crudService.ts:29-57 | The upload, if there is an image, then the insert. `CreateUploadsThenInserts` and `UploadOutlivesFailedTableCheck` state it. |
| Items.CreateItemCall | services/crudService.ts:26-58 | `createItem` as a function of the state. `CreateUploadsThenInserts`, `CreateRemovesUploadOnFailedInsert` and `UploadOutlivesFailedTableCheck` state it. |
| Items.ReplaceStage | services/crudService.ts:77-104 | The image swap and the update of `updateItem`. `ReplaceKeepsImage`, `ReplaceInOrder` and `ReplaceTouchesOwnOnly` state it. |
| Items.UpdateItemCall | services/crudService.ts:60-105 | `updateItem` as a function of the state. `NotFoundBeforeStorage`, `UpdateFound` and `UpdateTouchesOwnOnly` state it. |
| Items.RemoveStage | services/crudService.ts:124-138 | The delete of the row and then of its image. `RemoveRowThenImage` and `RemoveDropsStoredImage` state it. |
| Items.DeleteItemCall | services/crudService.ts:107-139 | `deleteItem` as a function of the state. `NotFoundBeforeStorage` and `DeleteFound` state it. |
| Items.GetItems | services/crudService.ts:8-24 | The cache, the rows, the files, the outcome and the steps are those of `GetItemsCall`. |
| Items.CreateItem | services/crudService.ts:26-58 | The same for `CreateItemCall`. |
| Items.UploadThenStore | services/crudService.ts:29-57 | The same for `UploadStage`. |
| Items.StoreItem | services/crudService.ts:36-57 | The same for `StoreStage`. |
| Items.RemoveIfAny | services/crudService.ts:51-53 | `if (url) await deleteImage(url)`: the files and the removed path are those of `DropIfAny`. Also lines 82-84 and 136-138. |
| Items.UpdateItem | services/crudService.ts:60-105 | The same for `UpdateItemCall`. |
| Items.ReplaceItem | services/crudService.ts:77-104 | The same for `ReplaceStage`. |
| Items.DeleteItem | services/crudService.ts:107-139 | The same for `DeleteItemCall`. |
| Items.RemoveItem | services/crudService.ts:124-138 | The same for `RemoveStage`. |
| Items.GateChecksSessionFirst | services/crudService.ts:9-11 | `ensureSession` comes first. Its throw stops the call before the table check, a table check that throws stops it next, and a call that passes has the session's user and a cached table. |
| Items.StoppedCallsChangeNothing | services/crudService.ts:9-11 | A failed check rethrows what was thrown before any row or file is read or written. Also lines 61-63 and 108-110. |
| Items.GetItemsOwnNewestFirst | services/crudService.ts:13-23 | `getItems` answers a permutation of the user's rows, newest first. A failed select throws its error rather than returning it. |
| Items.StoredColumns | services/crudService.ts:38-47 | The stored row of an insert is the backend's columns under the ones written. |
| Items.UploadedThenStored | services/crudService.ts:32-36 | A successful image upload goes on to the table check and the insert, with the image's public URL. |
| Items.StoreInserts | services/crudService.ts:38-57 | A successful table check and insert store the user's row with the title, the description (empty as `null`) and the image URL. |
| Items.CreateUploadsThenInserts | services/crudService.ts:26-58 | With an image: upload, then the table check, then the insert. Without one: the table check and the insert only. The stored row and the files are as written. |
| Items.DropUploaded | services/crudService.ts:51-53 | Removing the image whose URL an upload to the default bucket answered removes the uploaded file. |
| Items.CreateRemovesUploadOnFailedInsert | services/crudService.ts:49-55 | When the insert fails after an upload, the uploaded image is removed, the rows and files are as before, and the backend error is rethrown. |
| Items.UploadOutlivesFailedTableCheck | services/crudService.ts:32-36 | When the table check throws after an upload, the uploaded file stays and the error propagates (the upload precedes the check). |
| Items.NotFoundBeforeStorage | services/crudService.ts:66-75 | When the owned item is absent, update and delete throw `Item not found or access denied` before any storage request or write. Also lines 113-122. |
| Items.UpdateFound | services/crudService.ts:66-77 | With the owned item found, `updateItem` goes on with that item. |
| Items.DeleteFound | services/crudService.ts:113-124 | With the owned item found, `deleteItem` goes on with that item. |
| Items.PatchedItem | services/crudService.ts:88-94 | The updated row has the title and description given. It has the image URL given unless that is `undefined`. |
| Items.WriteOwned | services/crudService.ts:88-104 | A successful write answers the updated own row, and leaves the files alone. |
| Items.ReplaceKeepsImage | services/crudService.ts:77-98 | Without a new image, `updateItem` makes no storage request and keeps the item's `image_url`. |
| Items.ReplaceInOrder | services/crudService.ts:77-98 | With a new image, the old image is deleted if any, then the upload, then the write. A refused upload throws before the write, and a written row holds the new URL. |
| Items.UpdateWhereOwn | services/crudService.ts:95-96 | The update filter on id and user leaves every other row unchanged. |
| Items.ReplaceTouchesOwnOnly | services/crudService.ts:88-98 | `updateItem` on the found item changes the user's row with the id and no other. |
| Items.UpdateTouchesOwnOnly | services/crudService.ts:60-105 | `updateItem` changes the user's row with the id and no other. |
| Items.RemoveRowThenImage | services/crudService.ts:124-138 | The row is deleted first. A failed delete throws and keeps the image. A successful one removes exactly the owned row and then deletes its image, if any. |
| Items.RemoveDropsStoredImage | services/crudService.ts:124-138 | Deleting an item whose image was uploaded to the default bucket removes that file. |
| Schema.AreasOrderingColumn | lib/supabase/schemas/areas.schema.ts:13 | The areas table declares a `sort_order` column and no `order` column. |
| HabitUtils.Goal | lib/habitUtils.ts:28 | The goal is the number the text reads as, or 1 when it reads as nothing or as 0. It is never 0. |
| HabitUtils.GoalOfNumeral | lib/habitUtils.ts:28 | A positive numeral gives its own value as the goal. |
| HabitUtils.NewHabitItem | lib/habitUtils.ts:24-41 | The habit to create: the name, or `New Habit` when it is empty. Then the goal, type `checkbox` by default, a daily frequency, and no area for an empty one. No time of day for an empty list. Every other field is copied. |
| HabitUtils.Slots | lib/habitUtils.ts:45-47 | A list of names comes back as the list and a single name as a one-element list. A missing or empty one gives no names. |
| HabitUtils.NonEmpty | lib/habitUtils.ts:48 | The kept strings are exactly the non-empty ones. |
| HabitUtils.NonEmptyNone | lib/habitUtils.ts:48 | Filtering leaves nothing exactly when every string is empty. |
| HabitUtils.LowerPadded | lib/habitUtils.ts:48-55 | Lower-casing an upper-cased string surrounded by blanks gives the lower-cased string with the same blanks. |
| HabitUtils.NormaliseEmptyIffBlank | lib/habitUtils.ts:48-55 | A name normalises to the empty string exactly when it is blank. |
| HabitUtils.Normalise | lib/habitUtils.ts:48-55 | Trimmed and lower-cased. `NormaliseEmptyIffBlank`, `NormaliseIgnoresCaseAndPadding` and `NormaliseIdempotent` state it. |
| HabitUtils.NormaliseIgnoresCaseAndPadding | lib/habitUtils.ts:48-55 | Normalising ignores letter case and surrounding whitespace. |
| HabitUtils.LowerHasNoUpper | lib/habitUtils.ts:48 | A lower-cased string holds no upper-case letter. |
| HabitUtils.TrimKeepsNoUpper | lib/habitUtils.ts:48 | Trimming adds no upper-case letter. |
| HabitUtils.TrimTwice | lib/habitUtils.ts:48 | Trimming is idempotent. |
| HabitUtils.NormaliseIdempotent | lib/habitUtils.ts:48-55 | Normalising a normalised name changes nothing. |
| HabitUtils.ValuesNormal | lib/habitUtils.ts:44-49 | Every value is non-empty and already normalised. |
| HabitUtils.Values | lib/habitUtils.ts:44-49 | The normalised non-empty time-of-day values of a habit. `ValuesNormal` and `ValuesEmpty` state it. |
| HabitUtils.ValuesEmpty | lib/habitUtils.ts:44-49 | There are no values exactly when every slot name is blank, including when there are none. |
| HabitUtils.NoValuesMatchAll | lib/habitUtils.ts:53-54 | A habit with no time of day, or only blank names, shows under every filter. |
| HabitUtils.HabitMatches | lib/habitUtils.ts:52-57 | Whether a habit shows in a slot. `NoValuesMatchAll`, `MatchesOwnSlot`, `MatchIgnoresCaseAndPadding` and `RunMatchesDash` state it. |
| HabitUtils.MatchesOwnSlot | lib/habitUtils.ts:52-57 | A habit shows under each of its own values. |
| HabitUtils.MatchIgnoresCaseAndPadding | lib/habitUtils.ts:55 | The filter's case and surrounding whitespace do not change the answer. |
| HabitUtils.RunMatchesDash | lib/habitUtils.ts:56 | A value with a whitespace run between two words matches the filter written with a dash there. |
| HabitTimer.Pad2Value | components/dashboard/HabitTimer.tsx:20-22 | A padded field is all digits, at least two long, and reads back as the number. It is exactly two digits below 100. |
| HabitTimer.Clock | components/dashboard/HabitTimer.tsx:15-17 | The hours, minutes and seconds add back up to the duration, and minutes and seconds are below 60. |
| HabitTimer.FormatTimeReadsBack | components/dashboard/HabitTimer.tsx:14-23 | The text ends in `MM:SS`, which reads back as the minutes and seconds. It is `HH:MM:SS` exactly when there is at least an hour, and the leading part reads back as the hours. |
| HabitTimer.FormatTime | components/dashboard/HabitTimer.tsx:14-23 | `HH:MM:SS`, or `MM:SS` under an hour. `FormatTimeReadsBack` states that the fields read back as the hours, minutes and seconds of the count. |
| HabitTimer.TicksCount | components/dashboard/HabitTimer.tsx:29-41 | While running, `n` seconds of interval add `n` to the count. While stopped, nothing changes. |
| HabitTimer.Timer.constructor | components/dashboard/HabitTimer.tsx:25-27 | The timer opens stopped at the initial seconds. |
| HabitTimer.Timer.Tick | components/dashboard/HabitTimer.tsx:32-35 | One interval firing: one second more while running, nothing while stopped. |
| HabitTimer.Timer.Toggle | components/dashboard/HabitTimer.tsx:43-45 | Flips running and keeps the count. |
| HabitTimer.Timer.Save | components/dashboard/HabitTimer.tsx:47-50 | Stops the timer and reports the seconds counted, keeping the count. |
| TimeOfDaySettings.IconFor | components/settings/TimeOfDaySettings.tsx:9-14 | The moon for a name that holds `moon` in any case. The cloud for one that holds `cloud` but not `moon`. The sun otherwise. |
| TimeOfDaySettings.IconIgnoresCase | components/settings/TimeOfDaySettings.tsx:10 | The icon does not depend on the name's letter case, and a missing or empty name gives the sun. |
| TimeOfDaySettings.EndMinutes | components/settings/TimeOfDaySettings.tsx:86 | A slot ending at `00:00` ends at minute 1440, the end of the day. |
| TimeOfDaySettings.SplitNoColon | components/settings/TimeOfDaySettings.tsx:222 | A time without `:` splits into itself. |
| TimeOfDaySettings.SplitOneColon | components/settings/TimeOfDaySettings.tsx:222 | Two colon-free parts around one `:` split into those two parts. |
| TimeOfDaySettings.TwoPieceMinutes | components/settings/TimeOfDaySettings.tsx:221-224 | A time of two numeric pieces is sixty times the first plus the second. |
| TimeOfDaySettings.TimeToMinutes | components/settings/TimeOfDaySettings.tsx:221-224 | Minutes since midnight of an `H:MM` value. `TwoPieceMinutes`, `ClockMinutes`, `HoursOnly`, `OnTheHour`, `Midnight`, `Noon` and `SixPm` state it. |
| TimeOfDaySettings.ClockMinutes | components/settings/TimeOfDaySettings.tsx:221-224 | `HH:MM` in digits is sixty times the hours plus the minutes. |
| TimeOfDaySettings.HoursOnly | components/settings/TimeOfDaySettings.tsx:221-224 | Hours alone, with no minutes piece, are whole hours. |
| TimeOfDaySettings.OnTheHour | components/settings/TimeOfDaySettings.tsx:221-224 | `HH:00` is sixty minutes per hour. |
| TimeOfDaySettings.Midnight | components/settings/TimeOfDaySettings.tsx:221-224 | `00:00` is minute 0. Also lines 17 and 19. |
| TimeOfDaySettings.Noon | components/settings/TimeOfDaySettings.tsx:221-224 | `12:00` is minute 720. Also lines 17-18. |
| TimeOfDaySettings.SixPm | components/settings/TimeOfDaySettings.tsx:221-224 | `18:00` is minute 1080. Also lines 18-19. |
| TimeOfDaySettings.DefaultSlotsTile | components/settings/TimeOfDaySettings.tsx:16-20 | The default slots start at minute 0. Each ends where the next starts, and the last ends at the end of the day. Their sort orders are their positions. Also line 86. |
| TimeOfDaySettings.Request | components/settings/TimeOfDaySettings.tsx:33-43 | A slot is asked for exactly when the name is not blank. It has the trimmed name, the sun icon, the entered times and colour, and the slot count as its sort order. |
| TimeOfDaySettings.AddForm.constructor | components/settings/TimeOfDaySettings.tsx:24-28 | The form opens cleared: empty name, `08:00` to `12:00`, the first colour, closed. |
| TimeOfDaySettings.AddForm.Open | components/settings/TimeOfDaySettings.tsx:194-202 | `+ Add more...` opens the form only while there are fewer than ten slots. The inputs are kept. Also line 31. |
| TimeOfDaySettings.AddForm.Add | components/settings/TimeOfDaySettings.tsx:33-51 | The request is `Request` of the inputs. The form is cleared only when a slot was asked for and created, and kept as it was otherwise. |
| TimeOfDaySettings.AddDefaults | components/settings/TimeOfDaySettings.tsx:205-216 | The default button asks for the three default slots in order. |
| TeamPricing.PricePerUser | app/team/page.tsx:27 | A positive price per user. |
| TeamPricing.PriceTable | app/team/page.tsx:27 | A month costs 10 per user and a year 48. |
| TeamPricing.Users | app/team/page.tsx:28 | The user count is between 1 and 1000. |
| TeamPricing.UsersClamps | app/team/page.tsx:28 | An unreadable count gives 1. A count in range is kept. One below 1 gives 1, and one above 1000 gives 1000. |
| TeamPricing.TotalBounds | app/team/page.tsx:27-29 | The total is between the price of one user and the price of a thousand. |
| TeamPricing.Total | app/team/page.tsx:27-29 | The monthly price for the requested seats. `TotalBounds` and `DefaultTotal` state it. |
| TeamPricing.DefaultTotal | app/team/page.tsx:24-29 | A year for ten users, the page's first state, totals 480. |
| NewHabitModal.Without | components/dashboard/NewHabitModal.tsx:42 | Filtering keeps exactly the other values and never lengthens the list. |
| NewHabitModal.WithoutAbsent | components/dashboard/NewHabitModal.tsx:42 | Removing an absent value changes nothing. |
| NewHabitModal.WithoutAppend | components/dashboard/NewHabitModal.tsx:42 | Filtering distributes over concatenation. |
| NewHabitModal.Toggle | components/dashboard/NewHabitModal.tsx:41-43 | A chosen option is removed everywhere, and an unchosen one is appended. |
| NewHabitModal.ToggleFlips | components/dashboard/NewHabitModal.tsx:41-43 | After a toggle the option is chosen exactly when it was not before, and the others are as they were. |
| NewHabitModal.ToggleTwice | components/dashboard/NewHabitModal.tsx:41-43 | Toggling an unchosen option twice gives back the list. |
| NewHabitModal.DropFromIs | components/dashboard/NewHabitModal.tsx:46-51 | The index filter drops the element at the index when it is in range and nothing otherwise. |
| NewHabitModal.RemoveAtIs | components/dashboard/NewHabitModal.tsx:46-51 | Removing at an index in range drops exactly that element and keeps the others in order. An index out of range removes nothing. |
| NewHabitModal.ReplaceFromAt | components/dashboard/NewHabitModal.tsx:47-53 | The index map changes only the element at the index. |
| NewHabitModal.SetAtIs | components/dashboard/NewHabitModal.tsx:47-53 | Setting at an index in range replaces that element and keeps the length. An index out of range changes nothing. |
| NewHabitModal.SavedName | components/dashboard/NewHabitModal.tsx:57 | The saved name is the name, or `New Habit` when it is empty. It is never empty. |
| NewHabitModal.Form.constructor | components/dashboard/NewHabitModal.tsx:31-39 | The first state: the cleared fields, today's date, `Never`, no checklist. |
| NewHabitModal.Form.ToggleTime | components/dashboard/NewHabitModal.tsx:41-43 | The times become `Toggle` of the times, and every other field is kept. |
| NewHabitModal.Form.AddReminder | components/dashboard/NewHabitModal.tsx:45 | Appends `09:00` to the reminders, and every other field is kept. |
| NewHabitModal.Form.RemoveReminder | components/dashboard/NewHabitModal.tsx:46 | The reminders lose the one at the index, and every other field is kept. |
| NewHabitModal.Form.SetReminderAt | components/dashboard/NewHabitModal.tsx:47-48 | The reminder at the index is replaced, and every other field is kept. |
| NewHabitModal.Form.AddChecklist | components/dashboard/NewHabitModal.tsx:50 | Appends an empty checklist item, and every other field is kept. |
| NewHabitModal.Form.RemoveChecklist | components/dashboard/NewHabitModal.tsx:51 | The checklist loses the item at the index, and every other field is kept. |
| NewHabitModal.Form.SetChecklistAt | components/dashboard/NewHabitModal.tsx:52-53 | The checklist item at the index is replaced, and every other field is kept. |
| NewHabitModal.Form.Save | components/dashboard/NewHabitModal.tsx:55-72 | Hands over the entered fields with the saved name, closes the dialog and clears the fields the handler resets. The checklist, start date and end condition are kept. |
| CellEditor.NumberOr0 | components/dashboard/HabitCellEditor.tsx:38-39 | A given non-zero number is kept. A missing number, or 0, gives 0. |
| CellEditor.Opened | components/dashboard/HabitCellEditor.tsx:35-41 | The editor opens on the entry's status, numbers and note, or on `completed` with zeros and no note. The note field is open exactly when there is a note. |
| CellEditor.Positive | components/dashboard/HabitCellEditor.tsx:46-47 | Positive numbers are kept and the others become `undefined`. The key is always present. |
| CellEditor.Saved | components/dashboard/HabitCellEditor.tsx:43-51 | The status is always saved. The value key is present only for number habits and the minutes key only for duration habits. The note is saved only when it is not empty. |
| CellEditor.Result | components/dashboard/HabitCellEditor.tsx:43-55 | Clear hands over `null`, and Save hands over the saved entry. |
| CellEditor.SavedHasShape | components/dashboard/HabitCellEditor.tsx:43-51 | Every saved entry has the keys its habit type allows, positive numbers and a non-empty note. |
| CellEditor.ReopenSave | components/dashboard/HabitCellEditor.tsx:35-51 | Opening on an entry of that shape and saving at once gives back the entry. |
| CellEditor.FreshSave | components/dashboard/HabitCellEditor.tsx:35-51 | Saving a fresh editor gives a completed entry with no note, and `undefined` numbers where the type has them. |
| EditHabit.Edited | components/dashboard/EditHabitModal.tsx:30-41 | Nothing is saved without a habit. Otherwise the habit is saved with the trimmed name (its own name when the input is blank) and the goal read from the input or 1. The area is `undefined` when empty and the archived flag is as entered. No other field changes. |
| EditHabit.SaveUnedited | components/dashboard/EditHabitModal.tsx:21-41 | A habit already normalised, loaded into the form and saved unedited, is saved unchanged. |
| EditHabit.EditIdempotent | components/dashboard/EditHabitModal.tsx:32-41 | Saving twice with the same inputs is saving once. |
| HabitRow.ProgressColorCases | components/dashboard/EnhancedHabitRow.tsx:90-94 | Green exactly when completed or the count has reached the goal. Doing more, or marking completed, keeps or makes it green. |
| HabitRow.ProgressColor | components/dashboard/EnhancedHabitRow.tsx:90-94 | The bar colour for a completion ratio. `ProgressColorCases` states it. |
| HabitRow.UnitSuffix | components/dashboard/EnhancedHabitRow.tsx:98 | The unit suffix is empty or starts with a space. |
| HabitRow.AfterCount | components/dashboard/EnhancedHabitRow.tsx:96-104 | What follows the count is non-empty and does not start with a digit. |
| HabitRow.ParseIntOfText | components/dashboard/EnhancedHabitRow.tsx:96-104 | An integer written out and followed by non-digit text reads back as itself. |
| HabitRow.ProgressReadsDone | components/dashboard/EnhancedHabitRow.tsx:96-104 | The progress text starts with the count, which reads back as the count, for every habit type. |
| HabitRow.ProgressText | components/dashboard/EnhancedHabitRow.tsx:96-104 | `done/goal` and the unit. `ProgressReadsDone` and `ProgressReadsGoal` state that both numbers read back. |
| HabitRow.ProgressReadsGoal | components/dashboard/EnhancedHabitRow.tsx:103 | For a checkbox habit the text is the count, `/`, and text that `parseInt` reads back as the goal. |
| HabitRow.KeyOf | components/dashboard/EnhancedHabitRow.tsx:71-81 | Each status has a one-character key. |
| HabitRow.KeyReportsOne | components/dashboard/EnhancedHabitRow.tsx:68-86 | A key press reports at most one status, only with the menu open and Alt held. It reports exactly the status whose key was pressed. |
| HabitRow.KeyReports | components/dashboard/EnhancedHabitRow.tsx:68-86 | The value a key press reports, if any. `KeyReportsOne` states it. |
| HabitRow.Badge | components/dashboard/EnhancedHabitRow.tsx:131-141 | A badge is shown exactly when there is a status today. |
| HabitRow.BadgesDiffer | components/dashboard/EnhancedHabitRow.tsx:140 | Different statuses show different badges. |
| HabitRow.IconOf | components/dashboard/EnhancedHabitRow.tsx:87-88 | A letter exactly when the lower-cased name neither holds `to-do` nor is `test`. The letter is the upper-cased first character, or empty for an empty name. Also lines 66 and 121. |
| DashboardContext.DefaultsConsistent | lib/dashboard-types.ts:127-151 | The default areas are in position order, and each default habit names a default area. |
| DashboardContext.NewArea | contexts/DashboardContext.tsx:24-29 | The new area has the given name, colour and icon, an `area-` id and the area count as its order. |
| DashboardContext.Dashboard.constructor | contexts/DashboardContext.tsx:19-22 | The provider starts with the default areas and habits and the dialog closed. |
| DashboardContext.Dashboard.AddArea | contexts/DashboardContext.tsx:24-32 | Appends the new area, returns it and changes nothing else. |
| DashboardContext.Dashboard.SetAreas | contexts/DashboardContext.tsx:9-20 | Replaces the areas only. |
| DashboardContext.Dashboard.SetHabits | contexts/DashboardContext.tsx:12-21 | Replaces the habits only. |
| DashboardContext.Dashboard.SetNewAreaModalOpen | contexts/DashboardContext.tsx:14-22 | Sets the dialog flag only. |
| DashboardContext.AddKeepsPositions | contexts/DashboardContext.tsx:24-32 | Adding an area keeps every area at its position and keeps every habit's area known. |
| DashboardContext.UseDashboard | contexts/DashboardContext.tsx:51-55 | Returns the provider's state inside a provider, and throws `useDashboard must be used within DashboardProvider` outside one. |
| FileUpload.LowerTrim | components/ui/FileUpload.tsx:43 | Each rule is trimmed and lower-cased. |
| FileUpload.Rules | components/ui/FileUpload.tsx:43 | One rule per comma-separated piece, each trimmed and lower-cased. |
| FileUpload.Extension | components/ui/FileUpload.tsx:45 | The extension starts with `.`. |
| FileUpload.ExtensionOf | components/ui/FileUpload.tsx:45 | The extension of `base.ext` is `.ext` lower-cased. |
| FileUpload.Validate | components/ui/FileUpload.tsx:38-50 | A file over the limit is refused with the size message first. Then, when `accept` is given, a wrong type is refused with the type message. A file passes exactly when neither applies. |
| FileUpload.OneRule | components/ui/FileUpload.tsx:43 | A text without commas is one rule. |
| FileUpload.WildcardAccepts | components/ui/FileUpload.tsx:46 | A `family/*` rule accepts every file whose type starts with `family/`, in any case. |
| FileUpload.TypeAccepted | components/ui/FileUpload.tsx:42-47 | Whether one of the `accept` rules takes the file. `Validate`, `WildcardAccepts`, `MimeCaseIgnored` and `NoAcceptSizeOnly` state it. |
| FileUpload.TooLarge | components/ui/FileUpload.tsx:39 | Whether the file is over the limit. `Validate` and `NoAcceptSizeOnly` state it. |
| FileUpload.MimeCaseIgnored | components/ui/FileUpload.tsx:44 | The file type's case does not matter. |
| FileUpload.NoAcceptSizeOnly | components/ui/FileUpload.tsx:38-49 | Without `accept`, or with an empty one, only size decides. A limit of 0 accepts everything. |
| FileUpload.RampStep | components/ui/FileUpload.tsx:71 | Below 90 the bar gains at least one and never passes 90. At 90 or above it stays put. |
| FileUpload.RampBounds | components/ui/FileUpload.tsx:68-73 | The ramp never goes back and never passes 90, and it reaches 90 after at most `90 - p` steps. |
| FileUpload.Control.constructor | components/ui/FileUpload.tsx:22-36 | The props are kept, with a 5 MB limit by default, and the state is idle. |
| FileUpload.Control.Start | components/ui/FileUpload.tsx:54-64 | A file that fails validation shows its error. One that passes clears the error, names the file and starts loading at 1. |
| FileUpload.Control.Tick | components/ui/FileUpload.tsx:67-73 | One ramp step while a ramp runs, that of the upload in flight or one left behind by an upload that threw, and nothing otherwise. |
| FileUpload.Control.Report | components/ui/FileUpload.tsx:76 | The upload's own progress value replaces the bar. |
| FileUpload.Control.Finish | components/ui/FileUpload.tsx:75-89 | Loading stops. A success sets 100 and hands over the data, and a failure shows its error and resets the bar; both stop the ramp. A throw keeps the error and the bar and leaves its ramp running. |
| FileUpload.Control.Settle | components/ui/FileUpload.tsx:88 | The settle timer empties the bar. |
| FileUpload.Control.DragOver | components/ui/FileUpload.tsx:116-120 | Dragging lights up unless disabled or loading. |
| FileUpload.Control.DragLeave | components/ui/FileUpload.tsx:121 | Dragging ends. |
| FileUpload.Control.Drop | components/ui/FileUpload.tsx:92-98 | A drop is ignored while disabled or loading. Otherwise dragging ends and the first file, if any, is started. |
| FileUpload.Control.Choose | components/ui/FileUpload.tsx:142-153 | The input does nothing while disabled or loading. Otherwise the first chosen file, if any, is started. |
| FileUpload.ThrownUploadKeepsBar | components/ui/FileUpload.tsx:67-89 | After an upload that throws and the settle timer, the next tick lifts the bar above 0 again, so it stays shown although nothing is loading. |
| Avatar.FirstUpper | components/ui/Avatar.tsx:20 | The upper-cased first character, or nothing for an empty piece. |
| Avatar.TakeTwo | components/ui/Avatar.tsx:19 | The first two elements, or all of them when there are fewer. |
| Avatar.InitialsOfPieces | components/ui/Avatar.tsx:19-21 | At most two initials, and none exactly when every piece taken is empty. |
| Avatar.FirstPieceOfTrimmed | components/ui/Avatar.tsx:16-18 | The first piece of a trimmed name is empty exactly for a blank name. |
| Avatar.InitialsShape | components/ui/Avatar.tsx:16-21 | At most two initials, and none exactly for a blank name. |
| Avatar.Initials | components/ui/Avatar.tsx:16-21 | Up to two upper-cased initials. `InitialsShape`, `InitialsOfWords` and `InitialOfWord` state it. |
| Avatar.TrimAround | components/ui/Avatar.tsx:17 | Trimming drops the blank padding and the trailing whitespace. |
| Avatar.SplitTwoWords | components/ui/Avatar.tsx:18 | Two words apart are the first two pieces of the split. |
| Avatar.InitialsOfWords | components/ui/Avatar.tsx:16-21 | A name of two or more words has the initials of its first two. |
| Avatar.InitialOfWord | components/ui/Avatar.tsx:16-21 | A one-word name has one initial. |
| Avatar.ShownCases | components/ui/Avatar.tsx:32-36 | A picture exactly for a non-empty `src`. Otherwise one or two letters, and `U` for a blank name. |
| Avatar.Shown | components/ui/Avatar.tsx:32-36 | The image or the initials. `ShownCases` states which. |
| Carousel.NextIndex | components/ui/Carousel.tsx:22 | With images and a non-negative index, next lands on an image; with no images, or an index that is already NaN, the result is NaN. |
| Carousel.PrevIndex | components/ui/Carousel.tsx:21 | With images and a non-negative index, prev lands on an image; with no images, or an index that is already NaN, the result is NaN. |
| Carousel.NextWraps | components/ui/Carousel.tsx:22-59 | Next from the last image goes to the first, and otherwise one on. |
| Carousel.PrevWraps | components/ui/Carousel.tsx:21-44 | Prev from the first image goes to the last, and otherwise one back. |
| Carousel.NextPrevInverse | components/ui/Carousel.tsx:21-59 | Prev undoes Next and Next undoes Prev. |
| Carousel.NextsCompose | components/ui/Carousel.tsx:22-59 | `a + b` presses are `a` presses then `b`. |
| Carousel.NextsForward | components/ui/Carousel.tsx:22-59 | Short of the end, `k` presses move `k` images on. |
| Carousel.FullRound | components/ui/Carousel.tsx:22-59 | `count` presses of Next come back to the start. |
| Carousel.Active | components/ui/Carousel.tsx:28-36 | Nothing for no images. The image at the index when it is in range. Any other index, NaN or past the end, throws a TypeError reading `src`. |
| Carousel.Slides.constructor | components/ui/Carousel.tsx:15-17 | The carousel keeps its images and starts at index 0. |
| Carousel.Slides.Next | components/ui/Carousel.tsx:22 | The index moves by `NextIndex` and the images stay. With images, the new index is in range. |
| Carousel.Slides.Prev | components/ui/Carousel.tsx:21 | The index moves by `PrevIndex` and the images stay. With images, the new index is in range. |
| Carousel.Slides.Go | components/ui/Carousel.tsx:48-56 | A dot sets the index to its own, which is in range. |
| Carousel.Slides.SetImages | components/ui/Carousel.tsx:15-17 | New images replace the old and the index is kept as it was. |
| Carousel.ShrinkCrashes | components/ui/Carousel.tsx:16-30 | An index left past the end by fewer images throws on render, and one press of next or prev brings it back in range. |
| Carousel.NaNIndexCrashes | components/ui/Carousel.tsx:21-30 | A press with no images makes the index NaN, no press brings it back, and rendering images with a NaN index throws. |
| Middleware.RouteCases | middleware.ts:37-52 | Go to the login page exactly on a protected path without a user. Go to the dashboard exactly on an auth page with one. Pass through otherwise. |
| Middleware.Route | middleware.ts:37-52 | The redirect, if any, for a path and a session. `RouteCases` and `NoRedirectLoop` state it. |
| Middleware.RulesDisjoint | middleware.ts:38-47 | No path is both protected and an auth page. |
| Middleware.NoRedirectLoop | middleware.ts:37-52 | A redirect's target passes through for the same visitor. |
| ClassNames.Kept | lib/utils.ts:2 | The kept class names are non-empty and no more than the inputs. |
| ClassNames.KeptAppend | lib/utils.ts:2 | Filtering distributes over concatenation. |
| ClassNames.JoinAppend | lib/utils.ts:2 | Joining distributes over concatenation with one separator between. |
| ClassNames.CnAppend | lib/utils.ts:1-3 | The class string of two argument lists is the two strings joined by a space, or the one that is not empty. |
| ClassNames.Cn | lib/utils.ts:1-3 | The truthy class names joined by spaces. `CnAppend`, `FalsyDropped`, `AllFalsy` and `Single` state it. |
| ClassNames.FalsyDropped | lib/utils.ts:2 | A falsy argument anywhere changes nothing. |
| ClassNames.AllFalsy | lib/utils.ts:1-3 | The class string is empty exactly when every argument is falsy. |
| ClassNames.KeptNone | lib/utils.ts:2 | The filter keeps nothing exactly when every argument is falsy. |
| ClassNames.Single | lib/utils.ts:1-3 | One class name comes back as it is. |
| ClassNames.TruthyKept | lib/utils.ts:2 | A class name is kept in place among the others. |
| Js.ParseInt | lib/habitUtils.ts:28 | `parseInt(s, 10)`: no number exactly when no digit follows the leading blanks and sign. Also app/team/page.tsx line 28. |
| Js.ParseIntIgnoresTail | lib/habitUtils.ts:28 | Reading stops at the first character that is not a digit. |
| Js.ParseIntOfIntToString | lib/habitUtils.ts:28 | Any integer's numeral reads back as that integer. |
| Js.NumberOf | components/settings/TimeOfDaySettings.tsx:222 | `Number(s)` on text. `NumberOfBlank`, `NumberOfNatToString` and `NumberOfNumeral` state it. |
| Js.NumberOfBlank | components/settings/TimeOfDaySettings.tsx:222 | Blank text is 0. |
| Js.NumberOfNatToString | components/settings/TimeOfDaySettings.tsx:222 | Every numeral reads back as its number. |
| Js.NumberOfNumeral | components/settings/TimeOfDaySettings.tsx:222 | A run of digits is its decimal value. |
| Db.Where | services/habitLogsService.ts:41-43 | The rows kept by a filter: exactly the rows that match it, no more than there were. |
| Db.DeleteWhere | services/habitLogsService.ts:124 | The rows a delete leaves: exactly the rows that do not match. |
| Db.UpdateWhere | services/habitsService.ts:144-147 | An update patches each matching row in place and leaves the others and the length as they were. |
| Db.SortBy | services/habitsService.ts:15-17 | `.order(...)`: sorted by the order, a permutation of the input. |
| Db.Take | services/areasService.ts:41-44 | `.limit(n)`: the first `n` rows, or all of them. |
| Db.Run | services/habitLogsService.ts:41-45 | A select: sorted by its order, only input rows that match the filter, at most the limit, and without a limit a permutation of the matching rows. |
| Db.SingleOf | services/crudService.ts:66-75 | `.single()`: the row when there is exactly one, otherwise an error. |
| Db.MaybeSingleOf | services/habitLogsService.ts:81-89 | `.maybeSingle()`: the row when there is exactly one, nothing for none, an error for several. |
| Db.WithGenerated | services/habitsService.ts:63-82 | Inserted rows carry the columns the backend fills and the stored values of the request. |
| Db.Table.Insert | services/habitsService.ts:63-82 | The inserted rows, with their generated columns, are appended. Also services/habitLogsService.ts lines 105-106. |
| Db.Table.Update | services/habitsService.ts:144-147 | The table becomes `UpdateWhere` of the old rows and the patched matching rows come back. |
| Db.Table.Delete | services/habitLogsService.ts:124 | The table becomes `DeleteWhere` of the old rows. |

## Left out

- Areas.NextOrder and TimeOfDay.NextSortOrder: a column value that is neither a number nor null gives 0 here, where JavaScript's `+ 1` would concatenate text or give NaN. The schemas declare these columns INTEGER.
- Network I/O is replaced by the oracle replies listed above: the `fetch` calls to the Management API and to the provisioning route, the REST probe, the auth calls, the storage SDK calls and every table request. Supabase client construction (`lib/supabaseClient.ts`, the server and browser clients) is not part of this model.
- The request path of `runManagementQuery` is recorded as a call with its project reference and SQL. The HTTP body, the headers and the reply text beyond "ok or not" are not modelled.
- `NextResponse` objects are reduced to a status and a JSON body for the route. They are reduced to a redirect target or pass-through for the middleware. The middleware's cookie callbacks and its `matcher` configuration are left out.
- Concurrency: every call runs to completion before the next one starts. Two first uses of `ensureTableExists` racing each other are not modelled; that race is harmless only because the DDL says `IF NOT EXISTS`.
- What the generated SQL does in PostgreSQL is not modelled, nor how PostgREST evaluates a query beyond equality, range filters, one ordering, `limit`, `single` and `maybeSingle`. Column types, defaults, `references`, index column text and policy predicates are opaque strings.
- Db.ValueLe: the backend's ordering is total within each kind of value (booleans, integers, strings by character code, NULL last when ascending and first when descending). It does not follow a database collation, and lists and objects are not ordered among themselves.
- The clock, the current date and generated columns are parameters: `Date.now()` is `now` in storage paths and area ids, and `new Date().toISOString()` is `updated_at` in the services. The new-habit form takes `today`. The backend's `id` and timestamps are the `generated` rows of an insert.
- HabitLogs.DateToYMD takes the local year, month and day already read out of a `Date`. Time zones, `getMonth()` and `getFullYear()` are not modelled. The `log_date` column is compared as text, which agrees with date order for the four-digit years the formatter writes.
- `formatCompactDate`, `sleep` and the `Intl` formatting in `lib/utils.ts` are not part of this model. Neither are timers in general: the file-upload ramp is a `Tick` method, and the 800 ms reset is `Settle`.
- `new URL(imageUrl).pathname` in `deleteImage` is an input `Option<string>`; `None` stands for a URL the parser rejects.
- The public URL format of the storage SDK is a function of the bucket's origin, the bucket name and the path. Storage error texts are abstract `BackendError`s.
- Js.ParseInt: `parseInt(s, 10)` reads optional leading whitespace, an optional sign and the leading decimal digits. `NaN` is `None`.
- Js.NumberOf: `Number` reads a whole decimal numeral (blank text is 0). Fractions, exponents, hexadecimal and `Infinity` are not read and give `None`, which stands for `NaN`.
- Floating point is left out. Numbers are integers throughout, including the editor's value and minutes (read with `parseFloat` in the component), progress values and file sizes. The timeline's width and left percentages and the `Progress` component's clamping are not modelled.
- FileUpload.RampGain computes `Math.round((90 - p) * 0.08)` exactly, in integers. This is valid because the progress is an integer whenever the ramp runs, unless the upload reports a non-integer value, which is not modelled.
- Strings are sequences of characters. Case mapping and whitespace (`toLowerCase`, `toUpperCase`, `trim`, `\s`) are ASCII only. Combining characters and surrogate pairs are single characters, so the avatar's "at most two initials" holds for ASCII input.
- React rendering, effects and event-listener registration are not modelled; each handler is a method on its component's state class. The dialog's tabs, the cell editor's note toggle, the timer's cancel button and the `onOpenChange` callback (modelled as the form's `open` field) are presentation.
- `onSave?.(...)` in the new-habit form is optional; the model hands the habit back to the caller from `Save` in either case.
- TimeOfDaySettings.AddForm.Add takes the result of `addTimeOfDaySlot` as the boolean `created`. The context field the settings screen reads is not defined by the dashboard context, so the callback is abstract.
- DashboardContext.Habit holds just the properties the default habits set, not the whole `HabitItem`.
- HabitUtils.NewHabitItem models `{ type: 'daily' }` as the frequency text `daily`. The conditional spreads of `target_value` and `days_of_week` are optional fields that are absent exactly when the payload's are.
- `hooks/useSmartTable.ts`, `scripts/seed.ts` and the presentation-only components and pages are not part of this model.
- `services/areasService.ts` orders and writes the column `order`, while the areas schema declares `sort_order`, and it never calls `ensureTableExists`. The model keeps this as written (see `Schema.AreasOrderingColumn`).
