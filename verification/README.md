# directus-hub orchestration core in Dafny

directus-hub runs many Directus instances on one host. Each instance is a row
of the `instances` table and a working directory, is supervised by pm2 as
`directus-<subdomain>`, may have its `extensions` directory watched so that
changes restart it, and is reachable through a generated Caddyfile. This
project models the core of that hub as pure Dafny functions over explicit
state, and proves what the code promises about it.

The model has these modules, one or two per file:

- `Schema` (schema.dfy) covers the `instances` table of `app/lib/database.js`. It holds the record shape, column defaults, the NOT NULL and UNIQUE constraints as a table invariant `Wf`, the `ORDER BY created_at DESC` listing, and row lookup.
- `Values` and `Errors` (values.dfy) cover JavaScript values, better-sqlite3 binding, objects as ordered key/value lists with `{...a, ...b}`, and the error messages the services throw.
- `Ports` (ports.dfy) is `findAvailablePort`.
- `EnvFile` (envfile.dfy) is `generateEnvFile`, together with a reader of `.env` lines, so that the rendering rules can be stated over what a reader recovers from the text.
- `Registry` (registry.dfy) covers `getInstanceById`, `getAllInstances`, `updateInstance`, `toggleMCP` and `deleteInstance` over a store made of the table and the working directories.
- `Provision` (provision.dfy) covers `createInstanceWithProgress` and `cloneInstance`. The external commands (`npm`, `npx directus bootstrap`, `cp -R`) are outcome parameters. The fresh id, keys and timestamp are parameters too. Progress notifications are recorded in order.
- `Supervisor` (supervisor.dfy) is `app/lib/pm2Service.js`. pm2 is an explicit state: the listed names, the online names, the commands issued, and whether it can be reached.
- `Watcher` (watcher.dfy) is `app/lib/watcherService.js`. The watchers and debounce timers are explicit, and time is a logical clock.
- `Caddy` (caddy.dfy) covers `generateCaddyfile` as a pure renderer plus a reader of the sites a file declares, and the outcome classification of `reloadCaddy`.
- `Json` (json.dfy) is `JSON.stringify` for the values the hub sends, with a reader for the round trip.
- `Server` (server.dfy) covers the route handlers of `app/server.js` that change instances, and the `data: …\n\n` framing of the create and clone streams.
- `Dashboard` (dashboard.dfy) covers the subdomain suggestion, the `autoGenerated` mark and the step marking of `updateProgress` in `app/public/js/app.js`.
- `Text` (text.dfy) and `Wrappers` (wrappers.dfy) are shared helpers: decimal rendering, lines, collation and `Option`/`Result`.

In these places the code behaves in ways that are easy to misread; the model follows the code:

- A clone's `.env` file does not carry the source's storage settings. `cloneInstance` passes no `storageAdapter` and no `publicUrl`, so the clone gets local storage and `PUBLIC_URL=http://localhost:<port>`.
- In a create, the body is spread after the computed `port`, `apiKey` and `publicUrl`. A body key of the same name wins in the `.env` file, but not in the inserted row.
- `generateCaddyfile` does not reload Caddy. Reloading is the separate `reloadCaddy`.
- A failure of the create's `INSERT` is inside the `try` and is rolled back like the earlier steps.
- A clone's own last notification has step `complete` and progress 95. A reader of the stream therefore stops before the handler's final event. This is listed under Findings.

## Model

| member | source | states |
|---|---|---|
| Schema.ColumnNamed | app/lib/database.js:27-47 | a key names a column exactly when it is one of the table's column names, and then it names that column |
| Schema.WithField | app/lib/instanceService.js:260-263 | `SET column = value` changes that one column of the row and keeps its key and every other column |
| Schema.DefaultRow | app/lib/database.js:33-46 | a row inserted without values has `database_type` 'sqlite', `mcp_enabled` 0, `status` 'stopped', `auto_reload` 1, both timestamps at the insert time, and NULL elsewhere |
| Schema.WfCons | app/lib/database.js:28-32 | a table with a row in front is well formed exactly when that row is NOT NULL-valid, clashes with no other row on key, subdomain, port or non-null custom domain, and the rest is well formed |
| Schema.WfAppend | app/lib/database.js:28-32 | inserting a row that clashes with none keeps every UNIQUE and NOT NULL constraint |
| Schema.WfReplace | app/lib/database.js:28-32 | replacing a row by one that fits beside the others keeps the constraints |
| Schema.FitsInPlace | app/lib/database.js:28-32 | a row that keeps the key, subdomain, port and custom domain of the row it replaces fits beside the others |
| Schema.IndexOf | app/lib/instanceService.js:235-237 | finds the first row with the key, and finds none exactly when no row has it |
| Schema.Find | app/lib/instanceService.js:235-237 | `getInstanceById` returns a stored row with that id, or nothing exactly when no row has it |
| Schema.FindUnique | app/lib/database.js:28 | in a well-formed table the primary key determines the row: looking up a stored row's id returns that row |
| Schema.RemoveId | app/lib/instanceService.js:279 | `DELETE … WHERE id = ?` keeps exactly the rows with another id |
| Schema.RemoveIdAppended | app/lib/instanceService.js:136 | deleting the id of a row just appended gives back the table as it was before the insert |
| Schema.WfRemoveId | app/lib/database.js:28-32 | deleting rows keeps the constraints |
| Schema.CellLeTotal | app/lib/instanceService.js:232 | SQLite's ordering of `created_at` values is total |
| Schema.CellLeTrans | app/lib/instanceService.js:232 | SQLite's ordering of `created_at` values is transitive |
| Schema.InsertNewest | app/lib/instanceService.js:232 | inserting into a newest-first list keeps it newest first and adds exactly that row |
| Schema.NewestFirst | app/lib/instanceService.js:231-233 | `getAllInstances` returns a permutation of the stored rows in which no row is older than a row after it |
| Schema.ListingMembers | app/lib/instanceService.js:231-233 | a row is in the listing exactly when it is stored |
| Values.FromCell | app/lib/instanceService.js:235-237 | every value read back from a column can be bound again |
| Values.Bind | app/lib/instanceService.js:263 | a bound value reads back from its column as itself |
| Values.BindFromCell | app/lib/instanceService.js:263 | binding a stored value stores the same cell |
| Values.GetFound | app/lib/instanceService.js:31 | a property read gives `undefined` or the value of an entry with that key |
| Values.GetAbsent | app/lib/instanceService.js:31 | a key with no entry reads as `undefined` |
| Values.GetSpread | app/lib/instanceService.js:80-88 | in `{...base, ...over}` a key of `over` reads as its value in `over`, and any other key reads as in `base` |
| Values.SingleLineGet | app/lib/instanceService.js:153-228 | a value read from an object without multi-line strings renders on one line |
| Text.ParseNatToString | app/lib/instanceService.js:217 | a rendered number parses back as itself |
| Text.NatToStringInjective | app/lib/instanceService.js:217 | different ports render as different text |
| Text.IntToStringInjective | app/lib/instanceService.js:217 | different integers render differently, so different ports give different `PORT=` lines |
| Text.ContainsAt | app/lib/pm2Service.js:31 | `includes` holds when the text occurs at some position |
| Text.TextLeTotal | app/lib/instanceService.js:232 | BINARY collation of text is total |
| Text.TextLeTrans | app/lib/instanceService.js:232 | BINARY collation of text is transitive |
| Text.TextLeAntisym | app/lib/instanceService.js:232 | texts that collate both ways are equal |
| Text.IndexOfChar | app/lib/instanceService.js:191-228 | finds the first occurrence of a character, or the end of the text when there is none |
| Text.UnlinesJoin | app/lib/caddyService.js:21-50 | newline-terminated lines are the lines joined by line breaks with an empty last line |
| Text.UnlinesAppend | app/lib/caddyService.js:32-50 | appending newline-terminated pieces concatenates their lines |
| Text.SplitJoinLines | app/lib/caddyService.js:21-50 | splitting text on line breaks undoes joining lines that have none |
| Text.SplitLinesCat | app/lib/instanceService.js:153-228 | text split at a line break splits as its two sides do, whatever they hold |
| Text.JoinLinesMember | app/lib/instanceService.js:153-228 | a joined line without a break of its own is one of the lines the text splits into |
| Text.SplitUnlines | app/lib/caddyService.js:21-28 | newline-terminated lines without breaks split back off the front of any text |
| Ports.UsedPorts | app/lib/instanceService.js:143 | the used ports are exactly the numeric ports of the stored rows |
| Ports.FirstFreePort | app/lib/instanceService.js:145-150 | the scan returns a port at or above the start that is not used, and every port it passed over is used |
| Ports.FindAvailablePort | app/lib/instanceService.js:141-151 | the allocated port is at or above the start, no stored row has it, and every port from the start up to it is held by some row |
| Ports.StartingPort | app/lib/instanceService.js:142 | the scan starts at a non-zero port: the parsed `STARTING_PORT` itself, or 8910 |
| Ports.AllocatedPort | app/lib/instanceService.js:141-151 | the allocated port is the least port no stored row holds, at or above `STARTING_PORT` when that parses to a non-zero number and at or above 8910 otherwise |
| Ports.FirstFreePortIsLeast | app/lib/instanceService.js:145-150 | any port meeting that description is the one the scan returns: the least free port |
| Ports.ExampleGap | app/lib/instanceService.js:145-150 | with ports 8910, 8911 and 8913 in use, the scan from 8910 returns 8912 |
| Ports.ExampleEmpty | app/lib/instanceService.js:141-151 | with no rows and no `STARTING_PORT`, the port is 8910 |
| EnvFile.ParseRenderLine | app/lib/instanceService.js:191-228 | a `.env` line whose name and fixed text hold no `=` and no line break reads back as the line written |
| EnvFile.SectionReadable | app/lib/instanceService.js:191-195 | a section (rule, heading, blank line, body, blank line) is readable when its heading and body are |
| EnvFile.DatabaseBlockReadable | app/lib/instanceService.js:156-174 | every `dbConfig` line reads back when no configuration value spans lines |
| EnvFile.S3BlockReadable | app/lib/instanceService.js:177-184 | every s3 storage line reads back when no configuration value spans lines |
| EnvFile.StorageBlockReadable | app/lib/instanceService.js:176-189 | every `storageConfig` line reads back when no configuration value spans lines |
| EnvFile.ApiBodyReadable | app/lib/instanceService.js:211-212 | the `PUBLIC_URL` and `API_KEY` lines read back |
| EnvFile.EnvLinesReadable | app/lib/instanceService.js:191-228 | every line of the template reads back when no value and neither random key spans lines |
| EnvFile.ReadGeneratedEnvFile | app/lib/instanceService.js:153-228 | reading the generated file line by line gives back exactly the template's lines, for a configuration whose strings hold no line break |
| EnvFile.ReadsBackLines | app/lib/instanceService.js:153-228 | a readable line of the template is read back from the joined text whatever the other lines hold, since a line break elsewhere only adds lines around it |
| EnvFile.ReadsBack | app/lib/instanceService.js:153-228 | every readable setting of the template is read back from the generated file, for every configuration |
| EnvFile.GenerateEnvFile | app/lib/instanceService.js:153-229 | `generateEnvFile`; stated by EnvFile.ReadGeneratedEnvFile, EnvFile.ReadsBack, EnvFile.EnvFilePort, EnvFile.EnvFileStorageLocal, EnvFile.EnvFilePublicUrl, EnvFile.EnvFileDatabase and EnvFile.EnvFileStorage |
| EnvFile.SettingInAssemble | app/lib/instanceService.js:191-228 | the file's settings are those of its six section bodies plus `MAX_PAYLOAD_SIZE` |
| EnvFile.SettingOutsideFixed | app/lib/instanceService.js:191-228 | a setting whose name no fixed section uses is in the file exactly when the database or the storage block has it |
| EnvFile.EnvFilePort | app/lib/instanceService.js:215-217 | the file sets `PORT` to the configured port, unquoted, whatever the other values hold |
| EnvFile.EnvFilePublicUrl | app/lib/instanceService.js:211 | `PUBLIC_URL` is the configured public URL when it is truthy, and `http://localhost:<port>` otherwise, whatever the other values hold |
| EnvFile.DatabaseBlockSettings | app/lib/instanceService.js:156-174 | sqlite sets `DB_CLIENT="sqlite3"` and `./data.db`; postgres sets `pg` and mysql sets `mysql`, each with `DB_HOST`, `DB_PORT`, `DB_DATABASE`, `DB_USER` and `DB_PASSWORD` quoted from the configuration; any other type sets none of the seven database settings |
| EnvFile.EnvFileDatabase | app/lib/instanceService.js:156-200 | the same database rules hold of the settings read back from the whole file, each as an if-and-only-if |
| EnvFile.StorageBlockSettings | app/lib/instanceService.js:176-189 | storage is s3 exactly when `storageAdapter === 's3'`, the endpoint line appears exactly when an endpoint is truthy, and otherwise storage is local under `./uploads` |
| EnvFile.EnvFileStorage | app/lib/instanceService.js:176-222 | the same storage rules hold of the settings read back from the whole file |
| EnvFile.EnvFileStorageLocal | app/lib/instanceService.js:176-189 | without the s3 adapter the file reads back `STORAGE_LOCATIONS="local"`, whatever the other values hold |
| EnvFile.StorageSetsNoDatabase | app/lib/instanceService.js:176-189 | the storage block sets none of the seven database settings (`DB_CLIENT`, `DB_FILENAME`, `DB_HOST`, `DB_PORT`, `DB_DATABASE`, `DB_USER`, `DB_PASSWORD`) |
| EnvFile.DatabaseSetsNoStorage | app/lib/instanceService.js:156-174 | the database block never sets `STORAGE_LOCATIONS`, `STORAGE_S3_ENDPOINT`, `STORAGE_LOCAL_ROOT` or `STORAGE_S3_KEY` |
| Registry.Assignments | app/lib/instanceService.js:248-253 | the assignments are exactly the body's entries whose value is not `undefined` and whose key is not `id` |
| Registry.UnknownKey | app/lib/instanceService.js:260-262 | the update is refused with `no such column` exactly when some assigned key names no column, and it reports such a key |
| Registry.Resolved | app/lib/instanceService.js:250-251 | each assignment resolves to its column and bound value, in order |
| Registry.Assign | app/lib/instanceService.js:257-263 | `SET c1 = v1, …` keeps the key and every unassigned column, and each column ends with its rightmost assignment |
| Registry.AssignPair | app/lib/instanceService.js:257-263 | two assignments to different places apply one after the other |
| Registry.UpdateInstance | app/lib/instanceService.js:239-266 | a failed update leaves the store as it was, and no update touches the working directories |
| Registry.ToggleMcp | app/lib/instanceService.js:417-427 | a failed toggle leaves the store as it was, and no toggle touches the working directories |
| Registry.DeleteInstance | app/lib/instanceService.js:268-282 | a failed delete leaves the store as it was |
| Registry.UnknownIdChangesNothing | app/lib/instanceService.js:239-243 | update, toggle and delete on an unknown id throw `Instance not found` and change nothing |
| Registry.EmptyUpdateKeepsRow | app/lib/instanceService.js:255 | a body with nothing to assign returns the stored row and changes nothing, so `updated_at` is not bumped |
| Registry.UpdateEffect | app/lib/instanceService.js:245-265 | a successful update replaces only the row with that id; `updated_at` becomes the statement time; columns the body does not assign keep their values; the table stays well formed |
| Registry.UpdateReadsBack | app/lib/instanceService.js:265 | what an update returns is what `getInstanceById` reads afterwards |
| Registry.UpdateApplies | app/lib/instanceService.js:257-265 | an update whose body passes every check writes the assigned row in place and returns it |
| Registry.AssignUntouched | app/lib/instanceService.js:257-263 | a column that neither the body nor the timestamp assigns keeps its value |
| Registry.AssignLastBody | app/lib/instanceService.js:257-263 | the rightmost body assignment to a column other than `updated_at` is the value it ends with |
| Registry.UpdateLastAssignmentWins | app/lib/instanceService.js:248-265 | after a successful update, each column holds the body's last value for it |
| Registry.CellOf | app/lib/instanceService.js:250 | an identifier has a cell exactly when it names a column |
| Registry.UpdateFailureKeepsStore | app/lib/instanceService.js:260-263 | an unknown column, an unbindable value or a broken constraint changes nothing |
| Registry.ToggleEffect | app/lib/instanceService.js:417-427 | `mcp_enabled` becomes 1 exactly when `enabled` is truthy and 0 otherwise; `updated_at` is refreshed; nothing else changes; the result is what a lookup then returns |
| Registry.DeleteEffect | app/lib/instanceService.js:268-282 | delete removes exactly the row with that id and its working directory, keeps every other directory, and answers with the success message |
| Registry.GetInstanceById | app/lib/instanceService.js:235-237 | `getInstanceById`; its contract is that of Schema.Find and Schema.FindUnique |
| Registry.GetAllInstances | app/lib/instanceService.js:231-233 | `getAllInstances`; its contract is that of Schema.NewestFirst and Schema.ListingMembers |
| Provision.Mkdir | app/lib/instanceService.js:75-76 | `mkdirSync(…, { recursive: true })` adds the entry and keeps an existing one |
| Provision.Abort | app/lib/instanceService.js:132-138 | the cleanup restores the store for a fresh id, keeps the notifications sent, and rethrows |
| Provision.OrNull | app/lib/instanceService.js:104-109 | `value || null` gives null or a truthy value; it is truthy exactly when the value is, and is then the value itself |
| Provision.Install | app/lib/instanceService.js:61-76 | installing succeeds exactly when `npm init` and `npm install` both do, and then `uploads` and `extensions` exist |
| Provision.ClonePlan | app/lib/instanceService.js:290-400 | a clone plans nine notifications when the source has `node_modules`, and eight otherwise |
| Provision.CopyOrMake | app/lib/instanceService.js:324-336 | a directory is copied from the source when it exists there, or else made empty; only a copy that runs can fail |
| Provision.CopyDirs | app/lib/instanceService.js:322-336 | `uploads` and `extensions` both exist afterwards, with the source's contents where it had them; copying fails exactly when a copy that runs fails |
| Provision.CopyFiles | app/lib/instanceService.js:338-354 | `package.json` is added exactly when the source has it, and `data.db` exactly when the source is sqlite and has it; each copy equals the source's file, and no other entry changes |
| Provision.CloneRejects | app/lib/instanceService.js:292-299 | a clone passes its checks exactly when name and subdomain are truthy and the subdomain is bindable and unused |
| Provision.CloneWorkspace | app/lib/instanceService.js:310-354 | the copies fail exactly when the `node_modules` copy runs and fails, or one of the directory copies does |
| Provision.RollbackRestores | app/lib/instanceService.js:132-137 | the cleanup undoes the directory made for a fresh id, whatever it holds |
| Provision.Create | app/lib/instanceService.js:30-139 | `createInstanceWithProgress`; stated by Provision.CreateSucceedsIff, Provision.CreateSuccess, Provision.CreateFailureRestores and Provision.CreateProgress |
| Provision.CreateAt | app/lib/instanceService.js:51-138 | the create after its checks; stated by Provision.CreateAtSuccess, Provision.CreateAtFiles, Provision.CreateAtProgress and Provision.CreateAtSent |
| Provision.Clone | app/lib/instanceService.js:284-411 | `cloneInstance`; stated by Provision.CloneSucceedsIff, Provision.CloneSuccess, Provision.CloneFailureRestores and Provision.CloneProgress |
| Provision.CloneAt | app/lib/instanceService.js:301-410 | the clone after its checks; stated by Provision.CloneAtSuccess, Provision.CloneFiles, Provision.CloneEnvFile, Provision.CloneAtProgress and Provision.CloneAtSent |
| Provision.CreateFailureRestores | app/lib/instanceService.js:33-58 | a create that throws leaves the table and the directories as they were |
| Provision.DatabaseTypeOf | app/lib/instanceService.js:31 | the database type is never `undefined`: it is the body's own value or the default 'sqlite' |
| Provision.CreateRowFields | app/lib/instanceService.js:103-115 | the inserted row holds the request's name, subdomain, admin credentials, custom domain or null, database type, the allocated port, the fresh api key, `mcp_enabled` 0, `status` 'stopped', `auto_reload` 1 and the insert time |
| Provision.CreateRowFits | app/lib/instanceService.js:94-115 | after the checks the row fits exactly when its database type is not null; the checks already excluded a taken subdomain or custom domain |
| Provision.CreateSucceedsIff | app/lib/instanceService.js:30-131 | a create returns a row exactly when the checks pass, both npm commands succeed, every value binds and the database type is not null; the bootstrap plays no part |
| Provision.CreateAtSuccess | app/lib/instanceService.js:92-131 | a successful create appends exactly the described row, keeps the table well formed, and returns what `getInstanceById` reads |
| Provision.CreateAtFiles | app/lib/instanceService.js:57-90 | a successful create adds one directory, holding `uploads`, `extensions` and the generated `.env` unless the bootstrap replaced it, and keeps every other directory |
| Provision.CreateSuccess | app/lib/instanceService.js:53-131 | a successful create used the port the allocator chose and appended the returned row |
| Provision.CreateEnvPort | app/lib/instanceService.js:80-88 | the `.env` file's `PORT` is the body's own `port` when it has one, and otherwise the allocated port, whatever the rest of the body holds |
| Provision.CreateConfigSingleLine | app/lib/instanceService.js:80-88 | the create's configuration object has no multi-line string when the body, the api key and the hub port have none |
| Provision.BootstrapFailureSwallowed | app/lib/instanceService.js:117-131 | a failing bootstrap changes neither the result nor the table |
| Provision.CreatePlanMonotone | app/lib/instanceService.js:37-128 | a create's progress rises from 5 to 95 and never goes back |
| Provision.ClonePlanMonotone | app/lib/instanceService.js:290-400 | a clone's progress rises from 5 to 95 and never goes back |
| Provision.CreateAtProgress | app/lib/instanceService.js:60-131 | after the checks, a create's notifications are a prefix of the full plan, and the whole plan exactly when it returns a row |
| Provision.CreateAtSent | app/lib/instanceService.js:60-138 | a create stops after the failing npm command, after the refused insert, or at the end |
| Provision.CreateProgress | app/lib/instanceService.js:30-138 | every create, including one refused by the checks, sends a rising prefix of the plan, and the whole plan exactly when it succeeds |
| Provision.CloneFailureRestores | app/lib/instanceService.js:403-410 | a clone that throws leaves the table and the directories as they were; the source row is never touched |
| Provision.CloneRowFields | app/lib/instanceService.js:386-398 | the clone row has the new id, name, subdomain, port and api key, the source's database settings, admin credentials and `mcp_enabled`, no custom domain, `status` 'stopped' and `auto_reload` 1 |
| Provision.CloneRowFits | app/lib/database.js:28-32 | after the checks, the clone row always fits beside the stored rows |
| Provision.CloneSucceedsIff | app/lib/instanceService.js:284-402 | a clone returns a row exactly when the source exists, the checks pass, the name binds and every copy that runs succeeds |
| Provision.CloneAtSuccess | app/lib/instanceService.js:310-402 | a successful clone appends exactly the clone row, keeps the source row, stores the copied directory with its `.env`, and keeps the table well formed |
| Provision.CloneSuccess | app/lib/instanceService.js:284-402 | a successful clone copied an existing source that it left unchanged, and used the allocated port and the requested subdomain |
| Provision.CloneFiles | app/lib/instanceService.js:324-354 | the clone directory has `uploads` and `extensions`; it has `package.json` exactly when the source has one, and `data.db` exactly for a sqlite source that has one; copied entries equal the source's |
| Provision.CloneEnvFile | app/lib/instanceService.js:359-370 | a clone's `.env` file has `PUBLIC_URL` `http://localhost:<port>`, local storage and `PORT=<port>`, whatever the source had |
| Provision.EnvFileLocalDefaults | app/lib/instanceService.js:176-217 | a configuration without public URL or storage adapter gives `http://localhost:<port>`, local storage and `PORT=<port>`, whatever its other values hold |
| Provision.CloneAtProgress | app/lib/instanceService.js:310-410 | after the checks, a clone's notifications are a prefix of its plan, and the whole plan exactly when it returns a row |
| Provision.CloneAtSent | app/lib/instanceService.js:310-410 | a clone stops after the failing copy, after the refused insert, or at the end |
| Provision.CloneProgress | app/lib/instanceService.js:284-410 | every clone's notifications rise, and a successful clone sent its whole plan |
| Supervisor.Unlist | app/lib/pm2Service.js:62 | `pm2 delete` removes exactly that name from the list |
| Supervisor.Run | app/lib/pm2Service.js:136-141 | every command is recorded as issued; when pm2 cannot be reached, it fails with Node's `Command failed` message and changes nothing else |
| Supervisor.AppName | app/lib/pm2Service.js:26 | the process name is `directus-` followed by the subdomain |
| Supervisor.Settle | app/lib/pm2Service.js:43-45 | writing the status leaves pm2 alone, and a failed write leaves the store alone |
| Supervisor.Failed | app/lib/pm2Service.js:46-49 | a failed command leaves the store as it was and throws |
| Supervisor.StartFrom | app/lib/pm2Service.js:31-45 | a failed restart or launch leaves the store alone |
| Supervisor.Start | app/lib/pm2Service.js:19-50 | a failed start leaves the store alone |
| Supervisor.StartAsWritten | app/lib/pm2Service.js:19-50 | a failed start leaves the store alone |
| Supervisor.StopInstance | app/lib/pm2Service.js:52-72 | a failed stop leaves the store alone |
| Supervisor.RestartInstance | app/lib/pm2Service.js:74-93 | a failed restart leaves the store alone |
| Supervisor.UnknownIdIssuesNothing | app/lib/pm2Service.js:19-23 | start, stop, restart, status and logs on an unknown id throw `Instance not found` before any pm2 command, and change nothing |
| Supervisor.AppNamesDistinct | app/lib/database.js:30 | instances with different subdomains run under different process names |
| Supervisor.StatusWrite | app/lib/pm2Service.js:43 | writing a status to a stored row succeeds, changes only its `status` and `updated_at`, and keeps the table well formed |
| Supervisor.StatusBodyChecks | app/lib/pm2Service.js:43 | the status body assigns one known, bindable column |
| Supervisor.AlreadyListedIff | app/lib/pm2Service.js:30-31 | the exact-name test on the list output holds exactly when pm2 lists the name; for an empty list this needs only a non-empty name |
| Supervisor.StartSucceeds | app/lib/pm2Service.js:28-45 | with pm2 reachable, start lists, then restarts a listed process or launches a new one in the instance's directory; the process ends up listed and online and the row `running` |
| Supervisor.StartAsWrittenMisfires | app/lib/pm2Service.js:30-40 | when the list output contains the name only inside a longer name, the source's start issues `restart`, fails and leaves the row, while the exact-name start succeeds |
| Supervisor.AsWrittenRestarts | app/lib/pm2Service.js:30-33 | the source's start on such a list goes straight to a `restart` that fails |
| Supervisor.NameInsideAnother | app/lib/pm2Service.js:31 | such a list exists: pm2 lists only `directus-ab`, and the instance with subdomain `a` runs as `directus-a` |
| Supervisor.StopSucceeds | app/lib/pm2Service.js:60-67 | stopping a listed process issues `stop` then `delete`; the name leaves the list, other names stay, and the row becomes `stopped` |
| Supervisor.StopFails | app/lib/pm2Service.js:60-71 | when pm2 is down or does not list the name, the stop fails after `stop` alone, keeps the row, and throws with the stop prefix |
| Supervisor.RestartEffect | app/lib/pm2Service.js:82-91 | a restart succeeds exactly when pm2 is reachable and lists the process; the row becomes `running` on success and is kept on failure, where the error carries the restart prefix |
| Supervisor.SettleWrites | app/lib/pm2Service.js:43-45 | settling a stored row writes its status and answers the success text |
| Supervisor.ManagerDownKeepsRows | app/lib/pm2Service.js:46-49 | with pm2 unreachable, start, stop and restart all throw and leave every row as it was |
| Supervisor.QueriesNeverThrow | app/lib/pm2Service.js:95-125 | status and logs of a stored instance never throw: pm2's report, or null and `''` when pm2 fails; they change no row and no listing |
| Supervisor.DefaultLogsCommand | app/lib/pm2Service.js:111-120 | the default logs query asks for the last 50 lines without following |
| Supervisor.ListAllEffect | app/lib/pm2Service.js:127-134 | `listAll` returns the list output, or `''` when pm2 cannot be reached, and changes nothing in pm2 |
| Watcher.StopWatching | app/lib/watcherService.js:70-86 | afterwards the id is not watched and, if it was, has no timer; an unwatched id leaves everything as it was, its timer included; other ids keep their watch and timer |
| Watcher.StopAll | app/lib/watcherService.js:88-92 | afterwards nothing is watched, and only timers of ids that were not watched remain |
| Watcher.StartWatching | app/lib/watcherService.js:11-42 | `startWatching`; stated by Watcher.StartWatchingEffect and Watcher.WatchIdempotent |
| Watcher.FileChanged | app/lib/watcherService.js:44-68 | `handleFileChange`; stated by Watcher.ChangeRearms and Watcher.BurstArmsOnce |
| Watcher.Fire | app/lib/watcherService.js:57-65 | the debounce timer running; stated by Watcher.BurstRestartsOnce |
| Watcher.StepValid | app/lib/watcherService.js:41-86 | every event keeps timers confined to watched instances |
| Watcher.ReplayValid | app/lib/watcherService.js:41-86 | every sequence of events keeps timers confined to watched instances |
| Watcher.StartWatchingEffect | app/lib/watcherService.js:11-42 | afterwards the id is watched exactly when it is stored with `auto_reload` truthy; an unknown id throws `Instance not found`; an old timer is cleared; other ids are untouched |
| Watcher.WatchIdempotent | app/lib/watcherService.js:13 | starting a watch twice is the same as starting it once, and the same holds for stopping |
| Watcher.StopAllClears | app/lib/watcherService.js:88-96 | `stopAll` leaves nothing watched and no timer |
| Watcher.ChangeRearms | app/lib/watcherService.js:48-67 | a change cancels the pending timer and arms one due a second later |
| Watcher.BurstArmsOnce | app/lib/watcherService.js:48-67 | during a burst of changes less than a second apart, nothing restarts and one timer is due a second after the last change |
| Watcher.BurstRestartsOnce | app/lib/watcherService.js:57-67 | after the burst, the instance restarts exactly once, a second after the last change and not before |
| Caddy.ProxyPorts | app/lib/caddyService.js:14-15 | the proxy ports are the `CADDY_HTTP_PORT` and `CADDY_HTTPS_PORT` settings when those are non-empty, and 8080 and 8443 when unset; neither is ever empty |
| Caddy.ReadBlock | app/lib/caddyService.js:34-38 | a site block reads back as its one site |
| Caddy.ReadHeader | app/lib/caddyService.js:21-30 | the head of the file declares no site |
| Caddy.InstanceText | app/lib/caddyService.js:32-49 | an instance's text is its lines, each ended by a line break |
| Caddy.ReadInstance | app/lib/caddyService.js:32-49 | an instance's blocks read back as its local site, then its custom-domain site when that is truthy |
| Caddy.ReadAll | app/lib/caddyService.js:32-50 | the blocks of a listing read back as the sites of its instances, in order |
| Caddy.CaddyfileLines | app/lib/caddyService.js:18-52 | the file's lines are the head, the blocks of the listing and an empty remainder |
| Caddy.CaddyfileSites | app/lib/caddyService.js:18-52 | the sites the file declares are exactly those of the newest-first listing, so a deleted instance has none |
| Caddy.RoutesOfRows | app/lib/caddyService.js:32-49 | every instance has its local site, exactly those with a truthy custom domain have a custom site, and there are no other sites |
| Caddy.RoutesCount | app/lib/caddyService.js:32-49 | there is one site per instance plus one per truthy custom domain |
| Caddy.CaddyfileHeader | app/lib/caddyService.js:21-28 | the global block comes first, with `http_port`, `https_port` and `auto_https off`, whatever the rows hold |
| Caddy.Caddyfile | app/lib/caddyService.js:18-52 | `generateCaddyfile`; stated by Caddy.CaddyfileSites, Caddy.CaddyfileHeader and Caddy.RoutesOfRows |
| Caddy.ReloadCaddy | app/lib/caddyService.js:58-79 | `reloadCaddy`; stated by Caddy.ReloadOutcomes |
| Caddy.ReloadOutcomes | app/lib/caddyService.js:58-79 | the reload reports success exactly when both commands pass; a missing binary always gives `{ success: false, 'Caddy not installed' }` with the install instructions, the only unsuccessful reply and the only one that has them; the call throws exactly when `caddy reload` fails with a message not mentioning `which caddy`, and then with the reload prefix |
| Json.EscapeChar | app/server.js:71 | `JSON.stringify` writes each character as itself exactly when it is printable and not a quote or backslash; the output is always printable |
| Json.Escape | app/server.js:71 | the inside of a string literal is printable |
| Json.Quote | app/server.js:71 | a string literal is printable |
| Json.ReadEscapeChar | app/server.js:71 | each written character reads back as itself |
| Json.ReadEscaped | app/server.js:71 | a string literal reads back as the string, leaving what follows |
| Json.ReadQuote | app/server.js:71 | `JSON.stringify` of a string reads back as the string |
| Json.QuoteInjective | app/server.js:71 | two strings are written alike only if they are equal |
| Json.ReadIntToString | app/server.js:71 | an integer written in decimal reads back as itself |
| Json.CellJson | app/server.js:79-84 | a column value is written as printable JSON |
| Json.ReadCellJson | app/server.js:79-84 | a column value written as JSON reads back as itself |
| Json.ReadMembersJson | app/server.js:71 | an object's members read back as their values, in order |
| Json.ReadObjectJson | app/server.js:79-84 | an object written by `JSON.stringify` reads back as its members |
| Server.RowOf | app/server.js:79-84 | a row described by its column values has those values |
| Server.RowOfCells | app/server.js:79-84 | a row reads back from its column values |
| Server.InstanceJson | app/server.js:79-84 | `JSON.stringify` of a row is printable |
| Server.NoticeJson | app/server.js:71 | an event's JSON is printable, so it sits on one line |
| Server.ReadNoticeJson | app/server.js:70-92 | every event, with or without its instance, reads back from its JSON text |
| Server.StreamLines | app/server.js:70-92 | the stream is a `data: ` line and a blank line per event |
| Server.ReadStreamFrames | app/server.js:70-92 | a reader that splits the stream on lines and parses the `data: ` lines recovers every event written, in order, and nothing else |
| Server.FirstTerminal | app/public/js/app.js:222-239 | finds the first event a reader takes as the end of the stream |
| Server.RegenerateSites | app/lib/caddyService.js:18-56 | for every store, a rewrite fails exactly when the file cannot be written, and a successful one changes nothing but the file, which opens with the global block; when no row has a line break in a rendered field, the file serves exactly the sites of the newest-first listing of the current rows |
| Server.Relay | app/server.js:70-72 | each progress notification is relayed as one event, in order, with its step, message and progress and no instance; an event ends the stream for its reader exactly when its notification's step is `complete` or `error` |
| Server.RelayProgress | app/server.js:103-105 | the relayed notifications never end the stream, and all notifications that would not have ended it are kept |
| Server.FinishEndsOnce | app/server.js:74-93 | after notifications that do not end the stream, the handler's own event is the one terminal event: `complete` with progress 100 and the row after a rewritten Caddyfile, or `error` with progress 0 |
| Server.CreatePlanOngoing | app/lib/instanceService.js:37-128 | none of a create's notifications ends the stream |
| Server.CreateStreamEndsOnce | app/server.js:64-94 | the create stream relays every notification, in order, then ends with exactly one terminal event |
| Server.CloneStreamEndsOnce | app/server.js:97-128 | the corrected clone stream ends with exactly one terminal event, the handler's |
| Server.ClonePlanEnds | app/lib/instanceService.js:400 | every clone notification but the last continues the stream; the last is the service's own `complete` at 95 |
| Server.CloneAsWrittenEndsEarly | app/server.js:103-127 | a successful clone's stream as written ends for its reader at the service's `complete` with progress 95, one event early, so a failed Caddyfile write is never seen |
| Server.FinishAppends | app/server.js:107-127 | the handler writes one event of its own, which is an error when the Caddyfile write fails |
| Server.RelayStopsAtLast | app/public/js/app.js:222-239 | when only the last relayed notification is terminal, the reader stops there |
| Server.CreateHandler | app/server.js:64-94 | `POST /api/instances/create`; stated by Server.CreateStreamEndsOnce |
| Server.CloneHandlerAsWritten | app/server.js:97-128 | `POST /api/instances/:id/clone` as written; stated by Server.CloneAsWrittenEndsEarly |
| Server.CloneHandler | app/server.js:97-128 | the clone route with one terminal event; stated by Server.CloneStreamEndsOnce |
| Server.UpdateHandler | app/server.js:131-145 | `PUT /api/instances/:id`; stated by Server.UpdateWatchRule |
| Server.DeleteHandler | app/server.js:148-162 | `DELETE /api/instances/:id`; stated by Server.DeleteRemoves and Server.DeleteUnlists |
| Server.StartHandler | app/server.js:165-176 | `POST /api/instances/:id/start`; stated by Server.StartWatchRule |
| Server.StopHandler | app/server.js:179-187 | `POST /api/instances/:id/stop`; stated by Server.StopWatchRule |
| Server.RestartHandler | app/server.js:190-197 | `POST /api/instances/:id/restart`; stated by Server.RestartAndMcpLeaveWatch |
| Server.McpHandler | app/server.js:200-208 | `POST /api/instances/:id/mcp`; stated by Server.RestartAndMcpLeaveWatch |
| Server.TimerFires | app/lib/watcherService.js:57-65 | the debounce timer restarting an instance; stated by Server.TimerRestarts |
| Server.UpdateWatchRule | app/server.js:131-145 | a failed update answers 400 and changes nothing; a successful one answers the row; the watch changes only for that id and only when the body has `auto_reload`, and then it is watched exactly when the flag and the stored `auto_reload` are both on |
| Server.DeleteRemoves | app/server.js:148-162 | delete stops watching, removes the row and its directory, keeps every other row, answers 200 exactly when the instance existed and the Caddyfile was written, and then the Caddyfile is rendered from the remaining rows |
| Server.StopKeepsOthers | app/server.js:150-152 | the delete handler's stop keeps the row, every other row and every directory, whether it succeeds or not |
| Server.ReplaceKeepsOthers | app/lib/instanceService.js:260-263 | replacing a row with the same id keeps every row with another id |
| Server.DeleteUnlists | app/server.js:148-156 | with pm2 reachable, delete also takes the process off pm2's list |
| Server.StartWatchRule | app/server.js:165-176 | start answers the supervisor's result; after a success it watches the instance when its `auto_reload` is on and otherwise leaves the watch alone; other ids are untouched |
| Server.StopWatchRule | app/server.js:179-187 | a failed stop answers 400 and leaves the watch running; a successful one stops watching that instance only |
| Server.RestartAndMcpLeaveWatch | app/server.js:190-208 | restart and MCP toggle never touch the watch or the Caddyfile and answer with the service's result |
| Server.TimerRestarts | app/lib/watcherService.js:57-65 | a due timer restarts the instance once, and a failed restart changes no row; any other timer event leaves the hub alone |
| Dashboard.Filtered | app/public/js/app.js:381 | after `replace(/[^a-z0-9\s-]/g, '')` only letters, digits, spaces and hyphens remain |
| Dashboard.Slug | app/public/js/app.js:379-384 | the subdomain suggestion; stated by Dashboard.SlugShape, Dashboard.SlugFixedIff, Dashboard.SlugIdempotent and Dashboard.SlugKeepsAlnums |
| Dashboard.OnInput | app/public/js/app.js:377-393 | the two `input` handlers; stated by Dashboard.TypingHonest, Dashboard.ManualSubdomainSticks and Dashboard.ClearedSubdomainFollowsName |
| Dashboard.SlugShape | app/public/js/app.js:379-384 | the suggestion holds only `[a-z0-9-]`, has no two hyphens together, and no hyphen at either end |
| Dashboard.SlugFixes | app/public/js/app.js:379-384 | a slug is its own suggestion |
| Dashboard.SlugIdempotent | app/public/js/app.js:379-384 | suggesting again from a suggestion changes nothing |
| Dashboard.SlugFixedIff | app/public/js/app.js:379-384 | the texts the suggestion leaves alone are exactly the slugs |
| Dashboard.SlugKeepsAlnums | app/public/js/app.js:379-384 | the suggestion keeps every letter and digit of the lower-cased name, in order, and adds none |
| Dashboard.TypingHonest | app/public/js/app.js:377-393 | while the `autoGenerated` mark is set, the subdomain is the suggestion for the current name |
| Dashboard.ManualSubdomainSticks | app/public/js/app.js:391-393 | a non-empty subdomain typed by the user survives any number of later name changes |
| Dashboard.NamesKeepManual | app/public/js/app.js:378 | name changes leave a manual, non-empty subdomain alone |
| Dashboard.ClearedSubdomainFollowsName | app/public/js/app.js:378-388 | an emptied subdomain follows the name again and is marked |
| Dashboard.FirstNamed | app/public/js/app.js:96-104 | finds the first step element with the given name, or the end when there is none |
| Dashboard.UpdateProgress | app/public/js/app.js:81-105 | sets the bar and the message; exactly the elements with the given name become active; an element is complete when it was already, or when it comes before the first match |
| Dashboard.MarkedIdempotent | app/public/js/app.js:86-104 | the same notification twice marks the steps as it does once |
| Dashboard.CompleteMarksAll | app/public/js/app.js:233 | the final `complete`, with no element of that name, marks every step complete and none active |

## Left out

- Shell commands are outcome parameters (`Outcome` or `Step`): `npm init`, `npm install directus`, `npx directus bootstrap`, `cp -R`, pm2, `which caddy` and `caddy reload`. What they write into a directory is whatever the parameter says.
- Provision.CloneWorkspace: the `node_modules` copy at app/lib/instanceService.js:319 has malformed quoting. It is an opaque step that may fail and leaves no modelled entry.
- The real filesystem and chokidar are not modelled. Working directories are maps from entry name to an opaque entry or a generated `.env`. The dotfile filter and `ignoreInitial` are left out: file events are inputs.
- `setTimeout` and timestamps are not modelled. Time is a logical clock in the watcher. `CURRENT_TIMESTAMP` and the Caddyfile's "Generated at" line are given text. Timestamps of equal text keep storage order in the listing, where SQLite leaves it open.
- `uuidv4`, `crypto.randomBytes` and `generateRandomKey` are not modelled. Their values are parameters, and a fresh id is assumed unused.
- Concurrency is left out. The model is sequential, so the allocate-then-insert port race cannot be stated. The allocator's port is free when it reads the table.
- Express routing and the read-only routes are not modelled: `GET /api/instances`, health, system status, the dashboard page, and the error and 404 handlers.
- The DOM code of app/public/js/app.js is not modelled: modals, `apiCall`, and the fetch reader's chunking and `JSON.parse`. The reader is modelled as a line reader of whole events.
- app/lib/systemCheckerService.js is not part of this model. It only probes the environment.
- `startCaddy`, `stopCaddy`, `checkCaddyStatus` and `getActiveWatchers` are not modelled. No handler of the core uses them.
- The `custom_domain` migration and the settings table in app/lib/database.js are not modelled. Only the table shape, defaults and constraints are.
- SQLite type affinity, case-insensitive column names, and the SQL text built from body keys are not modelled. Keys are matched exactly against the column names.
- Floats, arrays and nested objects in request bodies are not modelled: a value is `undefined`, `null`, a boolean, an integer or a string. Booleans are modelled, and binding one to a column fails with `CannotBind`, as better-sqlite3 refuses them.
- Supervisor.Run: pm2's `list` output is modelled as one process name per line rather than pm2's table. The exact-name test in the corrected start relies on that shape.
- Supervisor.Start: decides "already listed" by exact name. This is the corrected behaviour of the finding below. The source's substring test is `Supervisor.StartAsWritten`.
- Watcher.FileChanged: a change for an instance that is no longer stored makes the source throw before touching the timers, so the model leaves the coordinator unchanged.
- EnvFile.ReadGeneratedEnvFile: the exact round trip is stated for configurations whose strings hold no line break. Such a value, say a `databaseHost` of `"h\nDB_USER=x"`, adds lines that a reader takes as further settings. EnvFile.ReadsBack still recovers every single-line setting of any configuration.
- EnvFile.GenerateEnvFile: the file-level if-and-only-if rules (EnvFile.EnvFileDatabase, EnvFile.EnvFileStorage) are stated for configurations without line breaks. For every configuration they are stated over the template's lines (EnvFile.DatabaseBlockSettings, EnvFile.StorageBlockSettings), and single-line settings are read back (EnvFile.ReadsBack).
- EnvFile.EnvFileDatabase: stated for configurations whose strings hold no line break. A line break inside a value can make the file read back a database setting that the rules exclude.
- EnvFile.EnvFileStorage: stated for configurations whose strings hold no line break, for the same reason. EnvFile.EnvFileStorageLocal holds for every configuration.
- EnvFile.EnvFilePort: stated when the port value itself holds no line break. Such a value is read back as a shorter `PORT` setting followed by another line.
- EnvFile.EnvFilePublicUrl: stated when the public URL and port values hold no line break, for the same reason.
- Provision.CreateEnvPort: stated when the body's own `port`, if it has one, holds no line break, for the same reason.
- Caddy.CaddyfileLines: stated for rows whose name, subdomain, port and custom domain hold no line break. Such a value, say a `custom_domain` of `"a.com {\n..."`, adds lines and directives the reader sees. Caddy.RoutesOfRows states the sites for every row at the line-list level, and Caddy.CaddyfileHeader holds for every listing.
- Caddy.CaddyfileSites: stated for rows without line breaks in those four fields, for the same reason.
- Caddy.Caddyfile: its site rule (Caddy.CaddyfileSites) is stated for rows without line breaks in those fields. Its header rule holds for every listing.
- Server.RegenerateSites: the "exactly the listing's sites" part is stated for stored rows without line breaks in those fields. The failure rule, the unchanged hub and the header hold for every store.
- Json.ReadEscape: surrogate pairs in `\u` escapes are not read back. The hub never writes them, because `JSON.stringify` keeps characters outside ASCII as they are.
- Server.CloneHandler: drops the service's own `complete` notification from the relayed events. This is the corrected behaviour of the finding below. The handler as written is `Server.CloneHandlerAsWritten`.

## Findings

| source | as written | input that shows it | evidently intended | confidence | as-written member | corrected member |
|---|---|---|---|---|---|---|
| app/server.js:103-127 | the clone handler relays every `sendProgress` call, and `cloneInstance` ends with `sendProgress('complete', 'Clone created successfully!', 95)` (app/lib/instanceService.js:400). The dashboard reader (app/public/js/app.js:232-238) stops at the first `complete`. | any successful clone, for example with a source that has no `node_modules`: the reader stops at the service's `complete` at 95 and never reads the handler's final event. If the Caddyfile write then fails, the `error` event is lost. | a clone stream, like the create stream, ends with exactly one terminal event, the handler's own: `complete` at 100 with the row, or `error` | high, not executed | Server.CloneAsWrittenEndsEarly | Server.CloneStreamEndsOnce |
| app/lib/pm2Service.js:30-40 | `startInstance` restarts when `list.includes(appName)`, a substring test on pm2's list output | pm2 lists only `directus-ab`, and the instance with subdomain `a` is started: `"directus-a"` occurs in the output, so the source issues `pm2 restart directus-a`, which fails with "Failed to start instance: …" | restart only a process pm2 lists under exactly that name, and otherwise launch it | high, not executed | Supervisor.StartAsWrittenMisfires | Supervisor.StartSucceeds |
