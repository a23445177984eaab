# OpsiMate core: configuration, database facade, dashboard and settings derivations

This project models the logic at the centre of OpsiMate, an infrastructure dashboard, in Dafny and proves properties of it. The model has four parts.

**Server configuration loader** (`config.dfy`, module `Config`):
- The configuration is cached once per process.
- When no file is found, it falls back to defaults built from constants and environment overrides.
- A configuration file is checked for required fields, with JavaScript falsiness: a zero port and empty strings count as missing.
- A missing `vm` section is filled in.
- Four getters return one section each.

**Database facade** (`db_interface.dfy`, module `DbInterface`):
- SQLite-style `?` placeholders are rewritten into PostgreSQL's `$1`, `$2`, … markers.
- `initializeDb` chooses the backend from the configuration.
- The PostgreSQL pool settings are fixed.
- The two wrappers' statement operations are modelled. Each wrapper keeps a log of the statements it sends to its driver for execution (preparing a statement sends nothing), and the driver's replies are inputs.

**Dashboard page** (`dashboard.dfy`, module `Dashboard`):
- Alerts are matched to services by tag and de-duplicated by id, and a badge counts the non-dismissed ones.
- The multi-key service filter: alternatives within a key, every active key required, and tags requiring all selected tags.
- The visible-column map, with column toggle and saved-view overlay.
- Bulk start, stop and restart loops with their success and failure tallies and result titles.
- The service selection.

**Settings page** (`settings.dfy`, module `Settings`):
- The SQLite timestamp rewrite.
- Relative-time bucketing.
- Audit-log paging.
- The users list, replaced on role change, delete, creation and load.
- Badge variants.
- The URL-hash ↔ tab mapping.
- The secret-name fallback.

Shared modules:
- `wrappers.dfy`: `Option` and `Result`.
- `decimal.dfy`: the decimal text of a natural number, which JavaScript template strings produce, with its parse round trip.
- `sequences.dfy`: order-preserving subsequences.

How the outside world is modelled:
- **Environment:** a map from variable names to their text.
- **`POSTGRES_PORT`:** given already parsed, as an optional integer.
- **File system:** a map from path to the parsed YAML document. A path that is not a key does not exist.
- **Server requests on the pages:** each request's success or failure is an input sequence.

## Model

| member | source | states |
|---|---|---|
| Config.EffectiveType | apps/server/src/config/config.ts:52 | a missing or empty database type reads as `sqlite`, any other type is kept |
| Config.Present | apps/server/src/config/config.ts:52-56 | JavaScript truthiness of an optional string: absent and `""` are falsy (a helper; `HasRequiredFields` and `EffectiveType` state its use) |
| Config.PresentNumber | apps/server/src/config/config.ts:53 | JavaScript truthiness of an optional number: absent and 0 are falsy (a helper; `RejectionCases` states its use) |
| Config.TypeOf | apps/server/src/config/config.ts:52 | `config.database?.type || 'sqlite'` of a whole configuration (a helper; `HasRequiredFields` and `SelectBackend` state its use) |
| Config.EnvOr | apps/server/src/config/config.ts:94-101 | `process.env[name] || default`: the variable's text when it is set and non-empty, the default otherwise (a helper without a contract of its own; `DefaultConfig` states its uses) |
| Config.TryWithSudo | apps/server/src/config/config.ts:88 | `VM_TRY_WITH_SUDO !== 'false'`: sudo is tried unless the variable is exactly `false` (a helper; `DefaultConfig` and `WithVmDefault` state its uses) |
| Config.DefaultPostgres | apps/server/src/config/config.ts:93-99 | the postgres block built from `POSTGRES_*` with the defaults localhost, 5432, opsimate, opsimate and opsimate_password (a helper; `DefaultConfig` states where it is used) |
| Config.DEFAULT_SERVER_PORT | apps/server/src/config/config.ts:78 | the default server port 3001 (a constant; `DefaultConfig` states its use) |
| Config.DEFAULT_SERVER_HOST | apps/server/src/config/config.ts:79 | the default host `localhost` (a constant; `DefaultConfig` states its use) |
| Config.DEFAULT_PRIVATE_KEYS_PATH | apps/server/src/config/config.ts:85 | the default keys path `../../data/private-keys` (a constant; `DefaultConfig` states its use) |
| Config.DEFAULT_DATABASE_PATH | apps/server/src/config/config.ts:101 | the default SQLite file `../../data/database/opsimate.db` (a constant; `DefaultConfig` states its use) |
| Config.DefaultConfig | apps/server/src/config/config.ts:73-105 | defaults are port 3001, host localhost, keys path `../../data/private-keys` and vm sudo unless `VM_TRY_WITH_SUDO` is `false`; the type comes from `DATABASE_TYPE` or `sqlite`; postgres parameters are set exactly when the type is `postgres`, otherwise the path is set, from the env or `../../data/database/opsimate.db` |
| Config.DefaultConfigHasRequiredFields | apps/server/src/config/config.ts:73-105 | the defaults pass the same required-field check a configuration file must pass |
| Config.HasRequiredFields | apps/server/src/config/config.ts:52-59 | the file validator: a truthy port, a non-empty path for sqlite, a postgres block for postgres and a non-empty keys path (a predicate; `RejectionCases` and `Resolve` state its consequences) |
| Config.RejectionCases | apps/server/src/config/config.ts:52-59 | a zero port, an empty sqlite path, postgres without its block, an empty keys path and a missing database section are each rejected |
| Config.WithVmDefault | apps/server/src/config/config.ts:61-66 | a file without `vm` gets `try_with_sudo` from the env; a file with one is unchanged, and nothing besides `vm` ever changes |
| Config.ConfigPath | apps/server/src/config/config.ts:38 | `process.env.CONFIG_FILE || null`: the path when set and non-empty, absent otherwise (a helper; `Resolve` states its use) |
| Config.Resolve | apps/server/src/config/config.ts:38-70 | no `CONFIG_FILE`, or a file that does not exist, gives the defaults; an error happens exactly when the file lacks a required field, and its text is `Invalid config file: <path>`; otherwise the result is exactly `WithVmDefault` of the file, so a present `vm` is kept and a missing one is filled from the env, and any success has its required fields, database and vm |
| Config.ConfigLoader.constructor | apps/server/src/config/config.ts:31 | the cache starts empty |
| Config.ConfigLoader.LoadConfig | apps/server/src/config/config.ts:33-71 | a cached configuration is returned without reading env or disk; otherwise the result is `Resolve`'s, and only a success is cached; the cache always holds a valid configuration |
| Config.ConfigLoader.GetServerConfig | apps/server/src/config/config.ts:108-110 | succeeds exactly when a configuration is cached, and returns its server section; with an empty cache it caches exactly `Resolve`'s success, and any failure is `Resolve`'s error text; an existing cache is kept |
| Config.ConfigLoader.GetDatabaseConfig | apps/server/src/config/config.ts:112-114 | succeeds exactly when a configuration is cached, and returns its database section; with an empty cache it caches exactly `Resolve`'s success, and any failure is `Resolve`'s error text; an existing cache is kept |
| Config.ConfigLoader.GetSecurityConfig | apps/server/src/config/config.ts:116-118 | succeeds exactly when a configuration is cached, and returns its security section; with an empty cache it caches exactly `Resolve`'s success, and any failure is `Resolve`'s error text; an existing cache is kept |
| Config.ConfigLoader.GetVmConfig | apps/server/src/config/config.ts:120-122 | succeeds exactly when a configuration is cached, and returns its vm section; with an empty cache it caches exactly `Resolve`'s success, and any failure is `Resolve`'s error text; an existing cache is kept |
| Decimal.Dec | apps/server/src/dal/db-interface.ts:88 | the decimal text of a count is non-empty digits without a leading zero |
| Decimal.ValueOfDec | apps/server/src/dal/db-interface.ts:88 | reading the decimal text back gives the number |
| Decimal.DecInjective | apps/server/src/dal/db-interface.ts:88 | distinct numbers have distinct texts, so distinct markers |
| DbInterface.RewritePlaceholders | apps/server/src/dal/db-interface.ts:86-89 | a single scan with a running count gives exactly the text produced by the source's recount-the-prefix replacement |
| DbInterface.Rewritten | apps/server/src/dal/db-interface.ts:86-89 | the `replace` as written: each `?` becomes `$` followed by one plus the number of `?` before it, recounted from the prefix (the reference definition; `RewritePlaceholders` and the lemmas below state its properties) |
| DbInterface.Occurrences | apps/server/src/dal/db-interface.ts:87 | the number of times a character occurs, as `match(...) || []).length` counts (a helper; `RewrittenCounts` states its use) |
| DbInterface.CountMarks | apps/server/src/dal/db-interface.ts:87 | the number of `?` in a text (a helper; `MarkerNumbering` and `MarkerRange` state its use) |
| DbInterface.Marker | apps/server/src/dal/db-interface.ts:88 | the text `$` followed by the count in decimal (a helper; `DecInjective` and `RewrittenAppendMark` state its use) |
| DbInterface.Piece | apps/server/src/dal/db-interface.ts:86-88 | what one character becomes after a given prefix: a `?` becomes the next marker, anything else stays (a helper; `MarkerNumbering` states its use) |
| DbInterface.NoMarksUnchanged | apps/server/src/dal/db-interface.ts:86-89 | text without `?` is left unchanged |
| DbInterface.RewrittenCounts | apps/server/src/dal/db-interface.ts:86-89 | no `?` is left; the `$` count grows by the number of `?`; every other non-digit character keeps its count |
| DbInterface.NoMarkInOutput | apps/server/src/dal/db-interface.ts:86-89 | the rewritten text contains no `?` |
| DbInterface.MarkerNumbering | apps/server/src/dal/db-interface.ts:86-89 | the `?` at position i becomes `$k`, where k is one more than the number of `?` before it; other characters are copied in place, and the output is built prefix by prefix |
| DbInterface.MarkerRange | apps/server/src/dal/db-interface.ts:87 | the markers are numbered from 1 to the number of `?` |
| DbInterface.RewrittenLength | apps/server/src/dal/db-interface.ts:86-89 | each `?` makes the text at least one character longer, and the length is unchanged exactly when there is no `?` |
| DbInterface.RewrittenAppendPlain | apps/server/src/dal/db-interface.ts:86-89 | appending text without `?` appends it unchanged |
| DbInterface.RewrittenAppendMark | apps/server/src/dal/db-interface.ts:86-89 | appending one `?` appends the next marker |
| DbInterface.TwoMarks | apps/server/src/dal/db-interface.ts:86-89 | for plain words w1 and w2, `w1?w2?` becomes `w1$1w2$2` |
| DbInterface.ExampleTwoParameters | apps/server/src/dal/db-interface.ts:86-89 | `a = ? AND b = ?` becomes `a = $1 AND b = $2` |
| DbInterface.ExampleQuotedMark | apps/server/src/dal/db-interface.ts:86 | a `?` inside a quoted literal is rewritten as well |
| DbInterface.SelectBackend | apps/server/src/dal/db-interface.ts:143-151 | PostgreSQL exactly when the effective type is postgres and its block exists, with that block; SQLite exactly when the type is sqlite and the path is non-empty, with that path; otherwise the error `Invalid database configuration: type=<type>` |
| DbInterface.MissingTypeIsSqlite | apps/server/src/dal/db-interface.ts:143 | no type and an empty type select exactly as `sqlite` does |
| DbInterface.ValidatedConfigSelects | apps/server/src/dal/db-interface.ts:141-152 | every configuration accepted from a file selects its declared backend, except one whose type is neither sqlite nor postgres, which is refused by name |
| DbInterface.DefaultConfigSelects | apps/server/src/dal/db-interface.ts:141-152 | the defaults select the backend `DATABASE_TYPE` names, with the env's parameters, and refuse any other name |
| DbInterface.InitializeDb | apps/server/src/dal/db-interface.ts:141-152 | a load failure is the config-file error; otherwise the backend is selected from the cached configuration, and an existing cache is kept; with an empty cache, the cache becomes `Resolve`'s success, the backend is selected from it, and a failure is `Resolve`'s error |
| DbInterface.PoolFor | apps/server/src/dal/db-interface.ts:70-79 | the pool takes its connection fields from the configuration, with max 10, idle timeout 30000 ms and connection timeout 2000 ms |
| DbInterface.RunInfoOf | apps/server/src/dal/db-interface.ts:96 | `changes` is the row count; `lastInsertRowid` is the first row's `id`, absent exactly when there is no row or no `id` |
| DbInterface.FirstRow | apps/server/src/dal/db-interface.ts:105 | the first row, absent exactly when there is no row |
| DbInterface.PostgresWrapper.constructor | apps/server/src/dal/db-interface.ts:67-82 | the pool is `PoolFor` of the parameters and nothing has been sent |
| DbInterface.PostgresWrapper.Prepare | apps/server/src/dal/db-interface.ts:84-90 | the statement's text is the rewritten SQL |
| DbInterface.PostgresWrapper.Run | apps/server/src/dal/db-interface.ts:92-100 | sends one query, the statement text with its parameters, and returns `RunInfoOf` the reply |
| DbInterface.PostgresWrapper.Get | apps/server/src/dal/db-interface.ts:101-109 | sends one query and returns the first row |
| DbInterface.PostgresWrapper.All | apps/server/src/dal/db-interface.ts:110-118 | sends one query and returns every row |
| DbInterface.PostgresWrapper.Exec | apps/server/src/dal/db-interface.ts:122-124 | sends the text as written, with no rewrite and no parameters |
| DbInterface.PostgresWrapper.Close | apps/server/src/dal/db-interface.ts:126-128 | the pool is ended |
| DbInterface.PostgresWrapper.Transaction | apps/server/src/dal/db-interface.ts:130-134 | the callback's result is returned, with nothing sent around it |
| DbInterface.SqliteWrapper.constructor | apps/server/src/dal/db-interface.ts:20-41 | the wrapper is bound to the given path |
| DbInterface.SqliteWrapper.Prepare | apps/server/src/dal/db-interface.ts:43-45 | the text is prepared as written |
| DbInterface.SqliteWrapper.Exec | apps/server/src/dal/db-interface.ts:47-49 | sends the text as written |
| Sequences.SubsequenceTransitive | apps/client/src/pages/Dashboard.tsx:64-76 | filtering a filtered list still keeps the original order |
| Dashboard.AlertsForService | apps/client/src/pages/Dashboard.tsx:64-71 | an alert is kept exactly when its tag names one of the service's tags, in list order; a service without tags gets none |
| Dashboard.HasTag | apps/client/src/pages/Dashboard.tsx:68 | `service.tags?.some(tag => tag.name === name)` (a helper; `AlertsForService` and `WithinKey` state its use) |
| Dashboard.AlertsForServiceCounts | apps/client/src/pages/Dashboard.tsx:64-71 | each matching alert is kept as often as the list holds it, and no other alert at all |
| Dashboard.FindIndexById | apps/client/src/pages/Dashboard.tsx:75 | the first index with that id, or -1 exactly when there is none |
| Dashboard.KeepUnseenDistinct | apps/client/src/pages/Dashboard.tsx:73-76 | the reference scan keeps no id twice and none already seen |
| Dashboard.KeepUnseenFirst | apps/client/src/pages/Dashboard.tsx:73-76 | every alert the reference scan keeps is the first one with its id |
| Dashboard.KeepUnseenCovers | apps/client/src/pages/Dashboard.tsx:73-76 | every id not already seen is kept |
| Dashboard.KeepUnseenOrdered | apps/client/src/pages/Dashboard.tsx:73-76 | the reference scan keeps alerts in the order in which their ids first appear |
| Dashboard.UniquePrefix | apps/client/src/pages/Dashboard.tsx:74-76 | the `index === findIndex` filter as written, over a prefix of the list (the definition; `UniqueByIdIsKeepUnseen` and `UniqueByIdSpec` state its properties) |
| Dashboard.UniqueById | apps/client/src/pages/Dashboard.tsx:74-76 | the `index === findIndex` filter over the whole list (the definition; `UniqueByIdSpec` states its properties) |
| Dashboard.UniqueByIdIsKeepUnseen | apps/client/src/pages/Dashboard.tsx:74-76 | the source's index filter (`index === findIndex`) equals the left-to-right scan that keeps unseen ids |
| Dashboard.UniqueByIdSpec | apps/client/src/pages/Dashboard.tsx:74-76 | de-duplication keeps exactly one alert per id, the first one, ordered by where each id first appears |
| Dashboard.CountActive | apps/client/src/pages/Dashboard.tsx:79-85 | the badge is at most the number of alerts; it equals that number exactly when none is dismissed, and is 0 exactly when all are |
| Dashboard.WithAlerts | apps/client/src/pages/Dashboard.tsx:60-88 | one service's entry: its matching alerts de-duplicated by id and the non-dismissed count (the definition; `WithAlertsSpec` states its properties) |
| Dashboard.WithAlertsSpec | apps/client/src/pages/Dashboard.tsx:60-88 | each service keeps its fields; its sidebar holds every matching alert id once, as the first matching alert of that id, ordered by where each id first appears among the matching alerts; the badge is `CountActive` of the shown alerts, so it counts the non-dismissed ones; a service without tags has none |
| Dashboard.ServicesWithAlerts | apps/client/src/pages/Dashboard.tsx:58-89 | one entry per service, in the same order, each carrying its service unchanged |
| Dashboard.FieldText | apps/client/src/pages/Dashboard.tsx:185 | `String(service[key])` of a direct property, `undefined` when absent (a helper; `KeyHolds` states its use) |
| Dashboard.ProviderTypeText | apps/client/src/pages/Dashboard.tsx:189 | `String(service.provider?.providerType)` (a helper; `KeyHolds` states its use) |
| Dashboard.ProviderNameText | apps/client/src/pages/Dashboard.tsx:193 | `String(service.provider?.name)` (a helper; `KeyHolds` states its use) |
| Dashboard.NamespaceText | apps/client/src/pages/Dashboard.tsx:197 | `String(service.containerDetails?.namespace)` (a helper; `KeyHolds` states its use) |
| Dashboard.KeyHolds | apps/client/src/pages/Dashboard.tsx:179-214 | the per-key switch: membership of the property's text among the values, and for `tags` every selected tag on a service that has tags (a predicate; `WithinKey` states its behaviour) |
| Dashboard.Passes | apps/client/src/pages/Dashboard.tsx:177-215 | `activeFilterKeys.every(...)`: every key with values holds (a predicate; `AddedKeyNarrows` and `FilterServices` state its use) |
| Dashboard.FilterServices | apps/client/src/pages/Dashboard.tsx:176-216 | a service is kept exactly when it passes every key that has values, in list order |
| Dashboard.FilterServicesCounts | apps/client/src/pages/Dashboard.tsx:176-216 | each passing service is kept as often as the list holds it, and no other service at all |
| Dashboard.FilteredServices | apps/client/src/pages/Dashboard.tsx:170-217 | the shortcut for no active key returns the list itself, and agrees with the general filter |
| Dashboard.FilterKeepsAll | apps/client/src/pages/Dashboard.tsx:176-216 | when every service passes, the filter returns the list unchanged |
| Dashboard.FilterMonotone | apps/client/src/pages/Dashboard.tsx:176-216 | a stricter test keeps a subsequence of what a looser one keeps |
| Dashboard.AddedKeyNarrows | apps/client/src/pages/Dashboard.tsx:177 | adding a filter key can only remove services, because keys are combined with AND |
| Dashboard.WithinKey | apps/client/src/pages/Dashboard.tsx:181-211 | one more value lets more services through (OR within a key), except for `tags`, where one more tag lets fewer through (AND) |
| Dashboard.Shown | apps/client/src/pages/Dashboard.tsx:312 | whether a column is shown, an absent entry reading as hidden as `!prev[column]` treats it (a helper; `ToggleColumn` and `ToggleTwice` state its use) |
| Dashboard.DEFAULT_COLUMNS | apps/client/src/pages/Dashboard.tsx:42-50 | the initial visible-column map (a constant; `ApplyViewCovering` states its use) |
| Dashboard.ToggleColumn | apps/client/src/pages/Dashboard.tsx:309-314 | flips whether the named column is shown and leaves every other column as it was |
| Dashboard.ToggleTwice | apps/client/src/pages/Dashboard.tsx:309-314 | toggling twice shows what was shown before, and restores the same map when the column had an entry |
| Dashboard.ApplyViewColumns | apps/client/src/pages/Dashboard.tsx:260-263 | the view's columns override the previous values, and columns the view omits keep theirs |
| Dashboard.ApplyViewIdempotent | apps/client/src/pages/Dashboard.tsx:260-263 | applying the same view a second time changes nothing |
| Dashboard.ApplyViewCovering | apps/client/src/pages/Dashboard.tsx:42-263 | a view that names every initial column replaces the defaults entirely |
| Dashboard.Verdict | apps/client/src/pages/Dashboard.tsx:346-363 | the three-way toast choice: all succeeded, partial success, or failure (the definition; `VerdictCases` states its cases) |
| Dashboard.Title | apps/client/src/pages/Dashboard.tsx:346-458 | the toast title for each action and verdict (the table of titles; `HandleStart`, `HandleStop` and `HandleRestart` state where it is used) |
| Dashboard.Report | apps/client/src/pages/Dashboard.tsx:346-363 | the counts with their verdict and title (the definition; the three handlers state their reports) |
| Dashboard.VerdictCases | apps/client/src/pages/Dashboard.tsx:346-363 | for a non-empty selection: all succeeded exactly when nothing failed, partial exactly when both counts are positive, all failed exactly when nothing succeeded |
| Dashboard.CountTrue | apps/client/src/pages/Dashboard.tsx:330-343 | the number of successful outcomes, at most their number (a helper; `RequestEach` states its use) |
| Dashboard.CountBoth | apps/client/src/pages/Dashboard.tsx:424-438 | the number of services whose stop and start both succeeded, at most their number (a helper; `HandleRestart` states its use) |
| Dashboard.RequestEach | apps/client/src/pages/Dashboard.tsx:330-343 | one request per selected service, in order; the successes are the successful outcomes, and successes plus failures equal the number selected |
| Dashboard.HandleStart | apps/client/src/pages/Dashboard.tsx:322-365 | nothing happens for an empty selection; otherwise one start per service, and the report counts the successes, the rest as failures, with its verdict and title |
| Dashboard.HandleStop | apps/client/src/pages/Dashboard.tsx:367-410 | as HandleStart, with stop requests and the stop titles |
| Dashboard.RestartRequests | apps/client/src/pages/Dashboard.tsx:424-438 | the requests of a restart loop: each service's stop, followed by its start exactly when the stop succeeded (the definition; `RestartRequestCount` and `HandleRestart` state its properties) |
| Dashboard.RestartRequestCount | apps/client/src/pages/Dashboard.tsx:424-438 | a restart sends one stop per service and one start per successful stop |
| Dashboard.HandleRestart | apps/client/src/pages/Dashboard.tsx:412-460 | nothing happens for an empty selection; a service counts as a success only when both its stop and its start succeed; a failed stop skips the start; the report carries the restart titles |
| Dashboard.FindById | apps/client/src/pages/Dashboard.tsx:302 | the first entry with that id, absent exactly when no entry has it |
| Dashboard.SelectServices | apps/client/src/pages/Dashboard.tsx:298-307 | the selection is kept as given; one service is focused exactly when one is selected, through the first enriched entry with its id when one exists and otherwise as given |
| Settings.FirstIndex | apps/client/src/pages/Settings.tsx:345 | the first position of the character, or the length exactly when it does not occur |
| Settings.ReplaceFirst | apps/client/src/pages/Settings.tsx:345 | only the first occurrence is replaced; every other character stays, and the length is unchanged |
| Settings.ReplaceFirstUndo | apps/client/src/pages/Settings.tsx:345 | when the new character did not occur, replacing it back restores the text |
| Settings.ParseUTCText | apps/client/src/pages/Settings.tsx:344-346 | `replace(' ', 'T') + 'Z'` (the definition; `ParseUTCTextShape` and `ParseUTCTextInvertible` state its properties) |
| Settings.ParseUTCTextShape | apps/client/src/pages/Settings.tsx:344-346 | the first space becomes `T` and `Z` is appended; without a space only `Z` is appended |
| Settings.ParseUTCTextInvertible | apps/client/src/pages/Settings.tsx:344-346 | for text without `T`, as SQLite timestamps are, dropping the `Z` and restoring the first `T` gives the input back |
| Settings.Bucket | apps/client/src/pages/Settings.tsx:352-356 | below 60 s (including negative differences) is just now; then minutes, hours and days up to a week, each the floor of the difference over the unit and so at least 1 and below 60, 24 and 7; the locale date from a week on |
| Settings.ElapsedSeconds | apps/client/src/pages/Settings.tsx:351 | the floor of milliseconds over 1000, also for a negative difference |
| Settings.UnitSeconds | apps/client/src/pages/Settings.tsx:353-355 | 60, 3600 and 86400 seconds per minute, hour and day (a helper; `Bucket` states its use) |
| Settings.UnitName | apps/client/src/pages/Settings.tsx:353-355 | `minute`, `hour` and `day` (a helper; `UnitWord` states its use) |
| Settings.RelativeTimeOf | apps/client/src/pages/Settings.tsx:348-357 | just now exactly below 60000 ms and the locale date exactly from 604800000 ms |
| Settings.UnitWord | apps/client/src/pages/Settings.tsx:353-355 | the unit word ends in `s` exactly when the count is not 1 |
| Settings.FormatRelativeTime | apps/client/src/pages/Settings.tsx:348-357 | "just now" exactly below 60000 ms; the locale date exactly from a week on |
| Settings.TotalPages | apps/client/src/pages/Settings.tsx:384 | the fewest pages of 20 that hold every entry; 0 exactly when there are none |
| Settings.PAGE_SIZE | apps/client/src/pages/Settings.tsx:27 | 20 entries per audit page (a constant; `TotalPages` and `ShowPagerIff` state its use) |
| Settings.ShowPagerIff | apps/client/src/pages/Settings.tsx:441 | the pager shows exactly when there are more than 20 entries |
| Settings.PrevPage | apps/client/src/pages/Settings.tsx:443 | one less than the current page above 1, and exactly 1 at or below page 1 |
| Settings.NextPage | apps/client/src/pages/Settings.tsx:445 | one more than the current page below the page count, and exactly the page count at or beyond it |
| Settings.PagingStaysInRange | apps/client/src/pages/Settings.tsx:443-445 | a page within range stays within range; each button stands still exactly at its end, and Prev and Next undo each other away from the ends |
| Settings.AuditPager.constructor | apps/client/src/pages/Settings.tsx:361-362 | paging starts at page 1 with no entries |
| Settings.AuditPager.SetTotal | apps/client/src/pages/Settings.tsx:373 | the total becomes the reported one, or 0 |
| Settings.AuditPager.Prev | apps/client/src/pages/Settings.tsx:443 | the page becomes `PrevPage` of the old one, and a page in range stays in range |
| Settings.AuditPager.Next | apps/client/src/pages/Settings.tsx:445 | the page becomes `NextPage` of the old one, and a page in range stays in range |
| Settings.WithRole | apps/client/src/pages/Settings.tsx:69-73 | exactly the users with the email get the new role; length, order and every other field are unchanged |
| Settings.WithRoleLastWins | apps/client/src/pages/Settings.tsx:69-73 | a second role change for the same email overrides the first |
| Settings.WithRoleUnknownEmail | apps/client/src/pages/Settings.tsx:69-73 | an email nobody has changes nothing |
| Settings.WithoutUser | apps/client/src/pages/Settings.tsx:117 | `users.filter(u => u.id !== id)` (the definition; `WithoutUserSpec` and `WithoutUserCounts` state its properties) |
| Settings.WithoutUserSpec | apps/client/src/pages/Settings.tsx:117 | a user stays exactly when its id differs, in order, and the list is unchanged when nobody has the id |
| Settings.WithoutUserCounts | apps/client/src/pages/Settings.tsx:117 | every user with another id is kept as often as the list holds it, and none with the id |
| Settings.WithUser | apps/client/src/pages/Settings.tsx:88 | the created user is appended after the existing ones |
| Settings.WithoutUserAppend | apps/client/src/pages/Settings.tsx:88-117 | deleting after an append equals deleting first and then appending the new user unless it has that id |
| Settings.DeleteCreated | apps/client/src/pages/Settings.tsx:88-117 | deleting a just-created user whose id was new restores the list |
| Settings.UserList.constructor | apps/client/src/pages/Settings.tsx:30 | the list starts empty |
| Settings.UserList.Load | apps/client/src/pages/Settings.tsx:46-47 | only a successful response replaces the list |
| Settings.UserList.UpdateRole | apps/client/src/pages/Settings.tsx:66-73 | a successful response applies `WithRole`; a failure leaves the list |
| Settings.UserList.Delete | apps/client/src/pages/Settings.tsx:115-117 | a successful response applies `WithoutUser`; a failure leaves the list |
| Settings.UserList.Created | apps/client/src/pages/Settings.tsx:87-89 | the new user is appended |
| Settings.RoleBadgeVariant | apps/client/src/pages/Settings.tsx:91-98 | the variant switch over the role (the definition; `RoleBadgesDistinct` states its cases) |
| Settings.RoleBadgesDistinct | apps/client/src/pages/Settings.tsx:91-98 | admin, editor and viewer have distinct badges, and only an unknown role is drawn in outline |
| Settings.ActionBadge | apps/client/src/pages/Settings.tsx:391-402 | the variant and colour switch over the audit action (the definition; `ActionBadgeCases` states its cases) |
| Settings.ActionBadgeCases | apps/client/src/pages/Settings.tsx:391-402 | only DELETE is destructive, only unknown actions are outline, and only CREATE and UPDATE carry a colour class |
| Settings.RemoveFirst | apps/client/src/pages/Settings.tsx:152 | only the first `#` is removed |
| Settings.TABS | apps/client/src/pages/Settings.tsx:151-160 | the three tab values `users`, `audit` and `secrets` (a constant; `TabFromHash`, `HashForTab` and `TabHashRoundTrip` state its use) |
| Settings.TabFromHash | apps/client/src/pages/Settings.tsx:151-156 | always one of the three tabs: audit exactly for `Audit_Log`, secrets exactly for `secrets`, users otherwise |
| Settings.HashForTab | apps/client/src/pages/Settings.tsx:157-160 | nothing is written exactly when the tab value is empty; `users`, `audit` and `secrets` write `Users`, `Audit_Log` and `secrets`; any other non-empty value is written as it is |
| Settings.TabHashRoundTrip | apps/client/src/pages/Settings.tsx:151-160 | for each tab, reading back the hash that choosing it writes, with or without `#`, opens the same tab |
| Settings.TrimStart | apps/client/src/pages/Settings.tsx:474 | removes exactly the leading white space |
| Settings.IsSpace | apps/client/src/pages/Settings.tsx:474 | the ECMAScript white space and line terminator characters `trim()` removes (a helper; `TrimStart`, `TrimEnd` and `TrimEnds` state its use) |
| Settings.TrimEnd | apps/client/src/pages/Settings.tsx:474 | removes exactly the trailing white space |
| Settings.Trim | apps/client/src/pages/Settings.tsx:474 | `trim()`, as leading then trailing white space removed (the definition; `TrimEnds`, `TrimSlice` and `TrimEmpty` state its properties) |
| Settings.TrimEnds | apps/client/src/pages/Settings.tsx:474 | the trimmed text has no white space at either end |
| Settings.TrimSlice | apps/client/src/pages/Settings.tsx:474 | the trimmed text is a slice of the input, and everything cut off is white space |
| Settings.TrimEmpty | apps/client/src/pages/Settings.tsx:474 | the trimmed text is empty exactly when the input is all white space |
| Settings.SecretName | apps/client/src/pages/Settings.tsx:474 | the name is the trimmed display name when non-empty, else the file name when non-empty, else `key`, and so never empty |

## Left out

- Rendering and React plumbing: JSX, hooks, React Query, toasts' display, dialogs, window events and debug logging. Only the derivations above are modelled.
- Server-side logging: the `logger` calls of the configuration loader (apps/server/src/config/config.ts:41, 47, 57, 69) and of the database wrappers (apps/server/src/dal/db-interface.ts:25, 31, 36, 38, 68, 81). They write messages only and change no modelled state.
- Network and asynchrony: `apiRequest`, the audit and secrets APIs and the start/stop mutations. Their outcomes are inputs. The pages' loading and error flags are not modelled.
- The SQLite and PostgreSQL drivers themselves: opening a database, pooled client acquire and release, and executing SQL. The wrappers record what they send, and replies are inputs.
- `path.isAbsolute`/`path.resolve` and the directory creation in the SQLite wrapper's constructor. Paths are kept as given.
- YAML parsing and file reads. A parsed document is an input. Non-object documents and parse errors are not modelled.
- `parseInt` of `POSTGRES_PORT`, including its NaN case. The port is given as an optional integer.
- The SQLite wrapper's `transaction`, `close` and `raw`. They delegate to the driver, which is not part of this model.
- `runAsync` and apps/server/src/dal/db.ts. They are Promise and path wrappers around the same driver.
- Locale date formatting (`formatDate`, `toLocaleDateString`, `toLocaleString`). `FormatRelativeTime` returns None where the locale date is shown.
- The clock: `formatRelativeTime` is modelled on the elapsed milliseconds between the timestamp and now.
- `parseInt(service.id)` in the bulk handlers. Requests carry the service id text.
- The dashboard's saved-view loading and the effect that refreshes the selected service when alerts change. Both are React effects around `applyView` and `FindById`.
- Filtering on the enrichment fields (`alertsCount`, `serviceAlerts`) and on non-text properties. Direct properties are modelled as the text `String(...)` gives them.
- `Role` admits `OtherRole("admin")` beside `Admin`, which JavaScript cannot tell apart. `RoleBadgesDistinct`'s "only an unknown role is drawn in outline" holds of this encoding, where an unknown role is one that is not `Admin`, `Editor` or `Viewer`; the model does not bar an unknown role spelled like a known one.
- A `postgres:` block whose fields are only partly given. `PostgresParams` has all five fields, so a truthy but partial block, which the source's validator accepts, cannot be expressed.
- Unparsable timestamps. `RelativeTimeOf` takes the elapsed milliseconds as an integer, so the NaN difference that the page shows as "Invalid Date" is outside the model.
- Settings.FormatRelativeTime: its contract states the "just now" and locale-date cases. For the count-ago cases, it is tied to `Bucket` and `UnitWord` through its body rather than stated in its own ensures.
