# Restaurant voice agent: verified models of its stateful core

The repository runs a voice agent for restaurants: an agent socket calls functions of the backend, scripts prepare the
database, and a dashboard works on orders. This project models the parts that have logic of their own and proves what
they promise over all inputs, all runs and all interleavings. Check it with `dafny verify dfyconfig.toml`.

| file | what it models |
|---|---|
| `Text.dfy` | strings as Python treats them: `strip`, `split`, `join`, ASCII `lower`, order by code point, `sorted` |
| `SqlScript.dfy` | the migration splitter, beside a one-pass scanner and a printer |
| `MigrationRunner.dfy` | running one migration file and the whole directory over a connection that may fail at any statement |
| `AgentFrames.dfy`, `Responses.dfy` | the frames of the agent socket; what a handler may return and the response made of it |
| `Registry.dfy`, `Router.dfy` | the function registry, and the function-call router as a class |
| `RouterRuns.dfy` | any number of requests in flight, interleaved at every await |
| `Tables.dfy`, `MenuSeed.dfy` | select-then-update-or-insert, and the menu seed over four tables |
| `MenuSeedProperties.dfy`, `MenuSeedEffects.dfy` | idempotence and frame of the seed; what it puts in, column by column |
| `PilotSeed.dfy` | the insert-if-missing loop of the pilot seed |
| `Orders.dfy`, `OrderLaws.dfy` | the order endpoints over store, history, events and messages; what each call may do and does |
| `OrderRuns.dfy` | what runs of them keep |
| `WebsocketRegistry.dfy` | the set of live websocket services and its lock, under handlers and shutdown sweeps on one event loop |
| `KillSwitch.dfy` | the best-effort task that records a redirected call |
| `KillSwitchRuns.dfy`, `KillSwitchOutcomes.dfy` | any number of them at once; what each leaves behind, from the outcomes of its steps |
| `Access.dfy` | the token check, the role guard and the restaurant guard |

Code that changes things step by step is a class or a loop, proved against a function of the old state; what the source
promises is then proved about that function. Concurrency is a step machine over every sequence of events, with a step
from one suspension to the next, or from one instruction to the next where a lock is taken. What lies outside (handlers,
the database's failures, JSON and JWT libraries, which row `LIMIT 1` returns, which names a collation takes for equal)
is an argument that ranges over everything it could do.

Four properties one would expect turn out to need a proviso, and each comes with a concrete run that breaks it and the
exact condition:

- A request goes unanswered when its handler returns a dict with a top-level key that is not a string, such as
  `{1: "done"}`, or a value with a key inside that JSON has no text for, or an object that cannot be shown: the response
  is built outside the `try` (`Responses.RespondsIff`, `RouterRuns.AnsweredUnless`, `RouterRuns.NumberedKeyLosesAnswer`).
- An update with status `""` passes the status check and is stored; the next status change is logged as coming from
  `"unknown"`, so the history no longer chains (`OrderRuns.StepKeepsHistory`, `OrderRuns.EmptyStatusBreaksHistory`).
- Two kill-switch tasks of one caller record two users exactly when the first one's user no longer has the caller's
  number as the second resolves its own (`KillSwitchRuns.SameUserIff`, `KillSwitchRuns.RenumberedCallerSplits`).
- The string comparison and the integer comparison of restaurant ids agree on every claim exactly when the path writes
  the id canonically (`Access.ComparisonsAgreeIffCanonical`, `Access.LeadingZeroDisagrees`).

## Model

| member | source | states |
|---|---|---|
| `SqlScript.KeepLines` | scripts/run_migrations.py:61-69 | the loop keeps, in order, every line that is no full comment, cut at its first `--` |
| `SqlScript.ParseScript` | scripts/run_migrations.py:60-73 | the loop followed by join, split and trim computes the specified statement list |
| `SqlScript.SplitterRefinesScanner` | scripts/run_migrations.py:60-73 | for every text the line-based splitter yields the same statements, word for word, as a one-pass character scanner with Code and Comment modes |
| `SqlScript.ParsedIsWellFormed` | scripts/run_migrations.py:67-73 | every parsed statement is trimmed, non-empty and free of `;` and `--` |
| `SqlScript.ParsePrint` | scripts/run_migrations.py:60-73 | any well-formed list joined by `;` and newline parses back to itself, character for character |
| `SqlScript.ParseImage` | scripts/run_migrations.py:60-73 | a list is well-formed if and only if some text parses to it |
| `SqlScript.ParseConcat` | scripts/run_migrations.py:60-73 | parsing is a homomorphism: two texts joined by a `;` line parse to their statements one after the other |
| `SqlScript.CommentLineIgnored` | scripts/run_migrations.py:63-65 | a line that begins with `--` after its blanks, anywhere between two lines, does not change the parse |
| `Text.StripTakesBlanks` | scripts/run_migrations.py:64-73 | stripping takes a maximal run of blanks off each end and nothing else |
| `Text.JoinSplit` | scripts/run_migrations.py:62-73 | splitting and joining on the same separator gives the string back |
| `MigrationRunner.Connection.Execute` | scripts/run_migrations.py:77-80 | a statement is recorded as attempted, and as committed exactly when it and its commit worked |
| `MigrationRunner.RunStatements` | scripts/run_migrations.py:75-92 | the connector's errors are passed over; the statements attempted and committed are those of the specification; false exactly when something else was raised |
| `MigrationRunner.RunMigrationFile` | scripts/run_migrations.py:52-102 | the file's parse goes through that loop; an unreadable file sends nothing and fails |
| `MigrationRunner.RunMigrations` | scripts/run_migrations.py:122-129 | the files named `0….sql` run in strictly sorted order, each whatever the ones before returned; what is attempted and what is committed over the whole run |
| `MigrationRunner.StatementsOfFiles` | scripts/run_migrations.py:57-73 | the statements of each file of the order are the parse of its own text, or none if it cannot be read |
| `MigrationRunner.RunAttemptsSnoc` | scripts/run_migrations.py:128-129 | each file adds its own attempts, whatever the files before it did |
| `MigrationRunner.CommitsSnoc` | scripts/run_migrations.py:77-80 | an attempted statement is committed, after those before it, exactly when it and its commit worked |
| `MigrationRunner.CommitsConcat` | scripts/run_migrations.py:75-92 | what a run commits is what its parts commit |
| `MigrationRunner.AttemptsArePrefix` | scripts/run_migrations.py:75-102 | the attempts of a file are a prefix of its parse, cut only right after the first unforeseen exception |
| `MigrationRunner.EveryStatementAttempted` | scripts/run_migrations.py:75-92 | with only connector errors, a run attempts every statement of every file exactly once, in order |
| `MigrationRunner.RunIsOneScript` | scripts/run_migrations.py:122-129 | such a run attempts exactly what the files joined by `;` lines into one script parse to |
| `AgentFrames.ParsesOwnFrames` | app/agent_fc/models.py:86-103 | parsing the frame of any request gives that request back, whatever functions follow the first |
| `AgentFrames.CallsAre` | app/agent_fc/models.py:15-103 | a frame parses to a given call if and only if its type reads so in any case, its functions are a list, and the first of them describes that request: the five fields, arguments as an object or the JSON text of one |
| `AgentFrames.KindsOfFrames` | app/agent_fc/models.py:86-103 | a frame lacks a function if and only if its type reads as a call, in any case, and no object is first in a list of functions; it is another frame if and only if it is an object of another type |
| `Responses.PrintsIff` | app/agent_fc/models.py:49-65 | `json.dumps` with the default yields a text if and only if no part of the value, however deep, is a dict with a key JSON has no text for or an object that cannot be shown |
| `Responses.ListText` | app/agent_fc/models.py:59-65 | a list prints as its items' texts in order, joined by commas, in brackets |
| `Responses.DictText` | app/agent_fc/models.py:59-65 | a dict prints as its entries in order, each its quoted key, a colon and its value's text, joined by commas, in braces |
| `Responses.LeafText` | app/agent_fc/models.py:49-57 | the text of every other value; decimals as floats, other objects as quoted strings |
| `Responses.KeysAre` | app/agent_fc/models.py:41-65 | the text of a key, and the string it is validated as, by its type |
| `Responses.ValidatedIs` | app/agent_fc/models.py:41-47 | validation succeeds if and only if every key reads as a string, and then holds, for each string, the last entry read as it |
| `Responses.KeptAsIs` | app/agent_fc/models.py:41-47 | a dict whose keys are distinct strings is kept as it is, order included |
| `Responses.RespondsIff` | app/agent_fc/router.py:132-139 | a response can be made of a handler's value if and only if the value is answerable: a condition on its keys and parts alone |
| `Responses.ErrorResponds` | app/agent_fc/router.py:164-169 | the response to an error is never refused, and has this text |
| `Text.Sorted` | app/agent_fc/registry.py:51-52 | the result lists exactly the given names in strictly ascending order |
| `Text.SortedListingUnique` | app/agent_fc/registry.py:51-52 | a set of names has only one such listing |
| `Registry.FunctionRegistry.RegisterFunction` | app/agent_fc/registry.py:31-44 | refused for a taken name, else for a handler that is not callable, else for a bad model, and then nothing changes; else bound under the name with this handler and model |
| `Registry.FunctionRegistry.Get` | app/agent_fc/registry.py:46-49 | found exactly when the name is bound, with its entry |
| `Registry.FunctionRegistry.ListNames` | app/agent_fc/registry.py:51-52 | the strictly sorted enumeration of exactly the bound names |
| `Registry.FirstRegistrationWins` | app/agent_fc/registry.py:31-44 | after any calls a bound name keeps its entry, and a new name has that of its first acceptable registration, if any |
| `Router.FunctionCallRouter.constructor` | app/agent_fc/router.py:24-36 | the defaults are those given, or none |
| `Router.FunctionCallRouter.SetDefaultArguments` | app/agent_fc/router.py:38-39 | the defaults are replaced as a whole |
| `Router.FunctionCallRouter.OverrideArguments` | app/agent_fc/router.py:69-72 | whatever order the defaults are met in, exactly those under model fields replace or extend the agent's arguments |
| `Router.FunctionCallRouter.Finish` | app/agent_fc/router.py:106-139 | one deciding outcome sends one message; an exception leaves instead, and nothing is sent, if and only if the handler returned an unanswerable value |
| `Router.FunctionCallRouter.CallHandler` | app/agent_fc/router.py:101-151 | calls: the leading time-outs plus one, capped at 1 + max(max_retries, 0), all with the same arguments though the defaults change; the first other outcome or the last time-out decides; the end of the loop is unreachable; if handlers stop when cancelled, the time awaited in these calls is at most the cap times `call_timeout_ms` |
| `Router.FunctionCallRouter.HandleFrame` | app/agent_fc/router.py:41-151 | for any frame: nothing sent, a `ValueError` and nothing sent, one error response and no call, or the calls above, within their time, and their one response, beside what other tasks sent during the awaits |
| `Router.UnknownIsRefused` | app/agent_fc/router.py:53-67 | a request is ignored if and only if it is not client-side; one for an unknown function is refused with that text |
| `Router.PlanIs` | app/agent_fc/router.py:69-105 | a known function's call: refused with the first error's place and message if the model rejects the overridden arguments; else the handler registered under the name is called with the keys of payload and defaults, the payload's values outside the defaults and the defaults' own |
| `Router.EscapesIff` | app/agent_fc/router.py:44-52 | an exception leaves the router before any call if and only if the frame is a call that lacks a function; other and invalid frames are ignored |
| `Router.AttemptLimitIs` | app/agent_fc/router.py:101 | one attempt for a retry setting of zero or less, else one more than it |
| `Router.AnswerIs` | app/agent_fc/router.py:106-139 | the answer to each outcome: the error's text, or the returned value's, wrapped if it is no dict, under the request's id and name, with exactly the side effects returned |
| `Router.CallerNumberAlreadyThere` | app/agent_fc/router.py:83-100 | the later caller-number override changes nothing in the merged arguments |
| `Router.DefaultsAlwaysWin` | app/agent_fc/router.py:82-105 | a handler is called with every default, whatever the agent or the model gave for its key |
| `Router.TrustedKeysDoNotLeak` | app/agent_fc/router.py:69-100 | requests that differ only under keys that are defaults and model fields get the same verdict, error text and call |
| `RouterRuns.EachFaresAlone` | app/agent_fc/router.py:41-141 | in every interleaving each request has the plan of its moment of arrival and the fate its own awaits alone decide |
| `RouterRuns.DefaultsAreTheLastSet` | app/agent_fc/router.py:38-39 | at any time the defaults are those last set, or none if none were given then |
| `RouterRuns.DefaultsStay` | app/agent_fc/router.py:38-39 | nothing else changes them |
| `RouterRuns.TableIsRegistered` | app/agent_fc/registry.py:31-44 | at any time the table is what the registrations so far make of the one at the start |
| `RouterRuns.FateIsOwn` | app/agent_fc/router.py:101-141 | the fate of a request is fixed by its first deciding await or cancellation, and it waits while there is none |
| `RouterRuns.HandleFrameIsAlone` | app/agent_fc/router.py:101-141 | what the method promises of its calls is what any interleaving makes of the same awaits |
| `RouterRuns.RequestsDoNotInterfere` | app/agent_fc/router.py:38-141 | two runs that agree on a request's plan and awaits agree on its fate, however the other requests and the defaults went |
| `RouterRuns.AnswersAreConserved` | app/agent_fc/router.py:41-162 | in every run the (id, name) pairs sent plus those of requests in flight, cancelled or left by an exception equal, as multisets, those of the client-side requests; each request has at most one message, its own; other frames send nothing |
| `RouterRuns.AnsweredUnless` | app/agent_fc/router.py:104-139 | a decided request is answered if and only if it was not cancelled and a value its handler returned is answerable |
| `RouterRuns.NumberedKeyLosesAnswer` | app/agent_fc/router.py:132-139 | a run in which one accepted call, whose handler returns `{1: "done"}`, is never answered |
| `Tables.UpsertFinds` | scripts/seed_frying_pan_menu.py:34-85 | after its upsert an entry is found, at the returned id, with its own fields |
| `Tables.UpsertFrame` | scripts/seed_frying_pan_menu.py:34-85 | an upsert writes one row, touches only the seed's columns of an old row, and gives an inserted row a new id |
| `Tables.LastWins` | scripts/seed_frying_pan_menu.py:463-471 | of entries with one key the last decides the row |
| `Tables.UpsertAllTwice` | scripts/seed_frying_pan_menu.py:34-196 | any list of upserts a second time changes nothing, repeated keys and duplicate rows included |
| `Tables.OtherKeysUntouched` | scripts/seed_frying_pan_menu.py:34-196 | a row whose key no entry has is as before |
| `Tables.UpsertAllUnique` | scripts/seed_frying_pan_menu.py:34-196 | if no two rows shared a key before, none do after |
| `MenuSeed.Session.EnsureMenuItem` | scripts/seed_frying_pan_menu.py:34-85 | select, then update or insert: the upsert of the item, nothing else |
| `MenuSeed.Session.EnsureOptionGroup` | scripts/seed_frying_pan_menu.py:88-152 | the same for an option group |
| `MenuSeed.Session.EnsureOptionValue` | scripts/seed_frying_pan_menu.py:155-196 | the same for an option value under its group |
| `MenuSeed.Session.AttachGroupToItem` | scripts/seed_frying_pan_menu.py:199-238 | one attachment per (item, group), with the given overrides |
| `MenuSeed.Session.SeedDatabase` | scripts/seed_frying_pan_menu.py:451-510 | the nested loops commit exactly the specified database and return the two dictionaries; if and only if an attached name is not in the lists, nothing is committed |
| `MenuSeed.ResolvableIs` | scripts/seed_frying_pan_menu.py:494-505 | the dictionary look-ups succeed exactly when every attached name is in the seed lists |
| `MenuSeedProperties.SeedTwice` | scripts/seed_frying_pan_menu.py:451-510 | seeding twice leaves the four tables, the id counters and the name-to-id maps that seeding once leaves, for every database and every lists |
| `MenuSeedProperties.SeedDatabaseTwice` | scripts/seed_frying_pan_menu.py:451-510 | two runs of the script in a row commit what one commits and end with the same dictionaries |
| `MenuSeedProperties.SeedKeepsKeysUnique` | scripts/seed_frying_pan_menu.py:34-196 | at most one row per (restaurant, item), (restaurant, group) and (group, value) stays so |
| `MenuSeedProperties.ItemsTakeEffect` | scripts/seed_frying_pan_menu.py:463-466 | each item name is mapped to a row of its key that holds what the last item of that key says |
| `MenuSeedProperties.GroupsTakeEffect` | scripts/seed_frying_pan_menu.py:468-471 | the same for group names |
| `MenuSeedProperties.ValuesAndLinksTakeEffect` | scripts/seed_frying_pan_menu.py:472-505 | each listed value has its row under its group, last one winning, and each listed pair is attached without overrides |
| `MenuSeedProperties.MenusAndGroupsFrame` | scripts/seed_frying_pan_menu.py:34-152 | item and group rows of other keys or restaurants are as before; inserted rows have new ids and the seeded restaurant |
| `MenuSeedProperties.OtherRestaurantsFrame` | scripts/seed_frying_pan_menu.py:155-238 | option values of other restaurants' groups and attachments of other restaurants' items are as before |
| `MenuSeedProperties.InsertedValues` | scripts/seed_frying_pan_menu.py:155-196 | an inserted option value has a new id and belongs to one of the seeded restaurant's groups |
| `MenuSeedProperties.ValueOutsideTheLists` | scripts/seed_frying_pan_menu.py:155-196 | so is any option value no listed (group, value) names |
| `MenuSeedProperties.LinkOutsideTheLists` | scripts/seed_frying_pan_menu.py:199-238 | so is any attachment no listed pair names |
| `MenuSeedEffects.EveryPairAttached` | scripts/seed_frying_pan_menu.py:494-505 | for every block, every item and every group of it, the pair of their ids is attached, with nothing overridden |
| `MenuSeedEffects.NothingElseAttached` | scripts/seed_frying_pan_menu.py:494-505 | every attachment is such a pair or was there before, unchanged; none goes |
| `MenuSeedEffects.ItemColumns` | scripts/seed_frying_pan_menu.py:34-85 | the row of the last item of a key has each column from its own attribute, or that column's default |
| `MenuSeedEffects.GroupColumns` | scripts/seed_frying_pan_menu.py:88-152 | the same for groups |
| `MenuSeedEffects.ValueColumns` | scripts/seed_frying_pan_menu.py:155-196 | every listed value that is the last of its key has a row under its group's id, with each column from its own attribute or default |
| `MenuSeedEffects.InsertedItems` | scripts/seed_frying_pan_menu.py:65-85 | an inserted item has a listed name and nothing in the columns the seed leaves alone |
| `MenuSeedEffects.InsertedGroups` | scripts/seed_frying_pan_menu.py:127-152 | an inserted group has a listed name and the table's defaults there |
| `MenuSeedEffects.UnlistedStay` | scripts/seed_frying_pan_menu.py:34-152 | items and groups of other restaurants, and those no listed name equals under the collation, are as before |
| `MenuSeedEffects.SeedKeepsNamesUnique` | scripts/seed_frying_pan_menu.py:34-196 | if no owner had two names the collation takes for equal, none has after the seed |
| `PilotSeed.MenuConnection.AddMenuItems` | scripts/seed_pilot_restaurants.py:96-143 | the loop leaves the specified table and returns the specified counters, whichever statements fail |
| `PilotSeed.CountsAddUp` | scripts/seed_pilot_restaurants.py:108-138 | added + skipped + failed is the number of items, and added is the number of new ids |
| `PilotSeed.KeyThere` | scripts/seed_pilot_restaurants.py:111-135 | a key has a row afterwards exactly if it had one or an item that did not fail has it |
| `PilotSeed.InsertsFirstMissing` | scripts/seed_pilot_restaurants.py:111-135 | the first item of each missing key that did not fail is inserted with its own columns |
| `PilotSeed.InsertedColumns` | scripts/seed_pilot_restaurants.py:122-134 | its columns, each from its own attribute or that column's default |
| `PilotSeed.InsertsNothingElse` | scripts/seed_pilot_restaurants.py:111-135 | every new row is such an item's |
| `PilotSeed.AddsOnePerFirstMissing` | scripts/seed_pilot_restaurants.py:111-135 | the added counter is the number of such items |
| `PilotSeed.SecondRunAddsNothing` | scripts/seed_pilot_restaurants.py:96-143 | after a run without failures a second run adds nothing and leaves the table as it is |
| `Orders.OrderDesk.QueueOrderSms` | app/api/dashboard_orders.py:97-163 | a message is queued exactly for a restaurant other than 0 and a phone number that is not blank, which it trims |
| `Orders.OrderDesk.CheckOrderAccess` | app/api/dashboard_orders.py:596-628 | 404, 500, 403 or the order, in this order of checks |
| `Orders.OrderDesk.CreateOrder` | app/api/dashboard_orders.py:778-853 | store, history, events, messages and reply are those of the specification, for every fault below |
| `Orders.OrderDesk.UpdateOrder` | app/api/dashboard_orders.py:1219-1313 | the same for an update, with the service's checks on the stored and the new status |
| `Orders.OrderDesk.UpdateOrderStatus` | app/api/dashboard_orders.py:1379-1450 | the same for a status change |
| `Orders.OrderDesk.CancelOrder` | app/api/dashboard_orders.py:1515-1573 | the same for a cancellation, refused when cancelled or completed |
| `Orders.OrderDesk.DeleteOrder` | app/api/dashboard_orders.py:1628-1643 | a soft delete marks the order and does nothing else |
| `Orders.OrderDesk.RestoreOrder` | app/api/dashboard_orders.py:1695-1716 | a restore unmarks a deleted order of a known restaurant and does nothing else |
| `OrderLaws.OnlyOwnersAct` | app/api/dashboard_orders.py:559-628 | nothing succeeds or changes but for an admin or a user of the stored order's restaurant, or of the request's for a create |
| `OrderLaws.ForbiddenIff` | app/api/dashboard_orders.py:559-628 | 403 if and only if the order is there to be judged and the user is neither |
| `OrderLaws.NotFoundIff` | app/api/dashboard_orders.py:596-628 | 404 if and only if the order is missing, or deleted, or, for a restore, without a restaurant |
| `OrderLaws.NoRestaurantFails` | app/api/dashboard_orders.py:619-625 | an order without a restaurant is a server error to everybody |
| `OrderLaws.CreateSucceedsIff` | app/services/dashboard_order_service.py:149-292 | for a call that may be made: success if and only if the status is open or one that exists and nothing fails; which failures are 400 and which 500 |
| `OrderLaws.UpdateSucceedsIff` | app/services/dashboard_order_service.py:424-498 | the same for an update: a cancelled order can only be set back to "pending" |
| `OrderLaws.SetStatusSucceedsIff` | app/services/dashboard_order_service.py:500-533 | the same for a status change |
| `OrderLaws.CancelSucceedsIff` | app/services/dashboard_order_service.py:535-573 | the same for a cancellation: exactly orders neither cancelled nor completed |
| `OrderLaws.DeleteAndRestoreSucceedIff` | app/services/dashboard_order_service.py:575-637 | the same for delete and restore |
| `OrderLaws.StatusesAre` | app/services/dashboard_order_service.py:61-68 | the six statuses that exist |
| `OrderLaws.CreateWrites` | app/api/dashboard_orders.py:795-853 | one new order under the next id, with the request's fields; no other is touched |
| `OrderLaws.OthersWrite` | app/api/dashboard_orders.py:1219-1716 | every other call writes at most its own order: its status, or its deleted mark, as the call says |
| `OrderLaws.UpdateWrites` | app/repositories/mysql_order_repo.py:279-327 | an update sets exactly the given fields |
| `OrderLaws.FollowedBy` | app/api/dashboard_orders.py:810-1566 | the history entry, with its action and previous status, and the event, with its subtype, that follow each success |
| `OrderLaws.MessageIff` | app/api/dashboard_orders.py:97-163 | a success sends a message if and only if its restaurant is not 0, the number is not blank and, for an update, the status changed; to the trimmed number |
| `OrderRuns.StepKeepsHistory` | app/api/dashboard_orders.py:795-1566 | one call keeps "every order's entries chain and lead to its stored status" if and only if it is none of the calls that `Breaks` names: an unlogged new order, an unlogged change of status, a change from an empty status |
| `OrderRuns.StatusTrail` | app/api/dashboard_orders.py:1230-1566 | what a status write does to the trail of its order, and that it leaves every other order's row and trail alone |
| `OrderRuns.RunKeepsHistory` | app/api/dashboard_orders.py:795-1566 | over any run the history replays to the store after every call if and only if no call of the run breaks it |
| `OrderRuns.SoundRunKeepsHistory` | app/api/dashboard_orders.py:795-1566 | without failing writes, empty statuses and restaurant 0, every run keeps all statuses valid and all histories replaying |
| `OrderRuns.EmptyStatusBreaksHistory` | app/services/dashboard_order_service.py:424-498 | create, update to status "", change status: a run after which the trail is broken |
| `OrderRuns.OneEventPerSuccess` | app/api/dashboard_orders.py:810-1566 | every successful announced call queues exactly one event, naming order, restaurant, subtype and the status stored and returned, with at most one message for the same; every other call queues none |
| `OrderRuns.ReplyIsStored` | app/api/dashboard_orders.py:795-1566 | a success names an order and the status the store holds; a failure before the write changes nothing |
| `OrderRuns.EventsCountSuccesses` | app/api/dashboard_orders.py:810-1566 | over any run the events count the announced successes, and history entries plus failed history writes count them too |
| `OrderRuns.StepKeepsShown` | app/api/dashboard_orders.py:810-1566 | the last event of every order carries its stored status, and a call keeps that if and only if it does not write an order or a status unannounced |
| `OrderRuns.RunKeepsShown` | app/api/dashboard_orders.py:810-1566 | over any run every order's last event carries its stored status after every call if and only if no call of the run does that |
| `WebsocketRegistry.ActiveServices.Handle` | app/api/websocket.py:22-48 | a handler alone leaves its service out of the set however the service ends |
| `WebsocketRegistry.ActiveServices.ShutdownAll` | app/api/websocket.py:50-60 | the set is empty and every service that was in it is shut down exactly once, others raising or not |
| `WebsocketRegistry.LockIsFree` | app/api/websocket.py:35-54 | in every run, with cancellations at any suspension, the lock is free whenever no task is running; no task ever waits for it, and none is cancelled in its `finally` |
| `WebsocketRegistry.LockIsPassedThrough` | app/api/websocket.py:35-54 | a task that asks for the lock has given it back three instructions later; outside those instructions it is free |
| `WebsocketRegistry.RunIsExact` | app/api/websocket.py:12-60 | in every interleaving the set holds exactly the services registered and neither unregistered nor swept; each is taken by at most one sweep; a sweep's finished shutdowns are exactly those it took and no longer awaits, each once |
| `WebsocketRegistry.EachShutDownOnce` | app/api/websocket.py:50-60 | no service is shut down twice by any sweeps; a sweep that ends has shut down every service it took, whichever raised |
| `WebsocketRegistry.EmptyAtTheEnd` | app/api/websocket.py:33-48 | in every run the set is empty once every handler has ended, whatever the services, the sweeps and the cancellations did |
| `WebsocketRegistry.OnlyLiveServices` | app/api/websocket.py:33-48 | at any time the set holds only services of handlers that have not ended |
| `WebsocketRegistry.ConnectionIsServed` | app/api/websocket.py:31-43 | a new connection is registered and served |
| `WebsocketRegistry.ServiceEndIsEnd` | app/api/websocket.py:37-48 | a service that returns, raises or is cancelled leaves the set and its handler ends |
| `WebsocketRegistry.ShutdownTakesAll` | app/api/websocket.py:50-60 | a shutdown empties the set and awaits the shutdown of every service that was in it |
| `WebsocketRegistry.ShutdownEndCounts` | app/api/websocket.py:56-60 | a service's shutdown that returns or raises is no longer awaited; with the last the sweep ends |
| `WebsocketRegistry.CancelDropsSweep` | app/api/websocket.py:56-60 | a cancelled sweep awaits nothing more |
| `KillSwitch.Services.RecordBypass` | app/main.py:264-378 | the steps in order, each attempted as its `if` says, make the specified tables and locals, and the bypass reaches its end whatever fails |
| `KillSwitchRuns.RunOk` | app/main.py:264-378 | in every interleaving of tasks with other code that adds users, calls and escalations, changes users' numbers and sets any status, for every task: its user exists, its call and escalation are its own and match its locals, its notices name what it made; numbers stay unique |
| `KillSwitchRuns.OneOfEach` | app/main.py:284-378 | each task makes at most one call, one escalation and one notice of each kind |
| `KillSwitchRuns.EscalationRefersToItsTask` | app/main.py:318-339 | an escalation names the existing user its bypass resolved and that bypass's own call, for the same user, restaurant and Twilio call; the user has the caller's number unless it was given another one since |
| `KillSwitchRuns.UserIsCallerWhenResolved` | app/main.py:284-291 | the step that resolves a bypass's user resolves it to a user with the caller's number, whatever ran before |
| `KillSwitchRuns.ResolvesTo` | app/main.py:284-291 | which user that is: the one with the caller's number if there is one, and else a new one |
| `KillSwitchRuns.CallerNumberKept` | app/main.py:284-291 | that user stays, and keeps the caller's number unless other code gives it another one after that step |
| `KillSwitchRuns.MarksOwnRows` | app/main.py:305-345 | a step of a bypass only ever changes the row of the call or escalation that bypass made, to these statuses; other rows change only where other code sets their status |
| `KillSwitchRuns.OneUserPerCaller` | app/main.py:284-291 | two bypasses of one caller record the same user, unless it was given another number since one of them resolved it |
| `KillSwitchRuns.SameUserIff` | app/main.py:284-291 | a second bypass of a caller resolves to the first one's user if and only if that user still has the caller's number at that step |
| `KillSwitchRuns.ResolvedForGood` | app/main.py:284-291 | a bypass's user never changes once resolved |
| `KillSwitchRuns.RenumberedCallerSplits` | app/main.py:284-291 | a run in which it was, and they record two |
| `KillSwitchRuns.EveryTurnIsAStep` | app/main.py:381-395 | every turn puts one step behind the bypass whatever the step or the others do, so seven turns end it |
| `KillSwitchOutcomes.OutcomesDecide` | app/main.py:264-378 | in every run, from the outcomes of its own turns and its restaurant alone: whether a bypass has a user, made a call and an escalation, remembers them, and told the dashboards and stored a notification, if and only if in each case |
| `KillSwitchOutcomes.OutcomesMark` | app/main.py:305-345 | its call is "agent_bypassed" if and only if its second step worked and its third wrote, its escalation "forwarded" if and only if its fourth worked and its fifth wrote, unless other code set that status |
| `KillSwitchOutcomes.NoticesName` | app/main.py:347-378 | what it tells names its restaurant's number, its call and its escalation |
| `KillSwitchOutcomes.RestaurantIds` | app/main.py:274-279 | what a restaurant's id is written and read as |
| `KillSwitchOutcomes.FirstStartCounts` | app/main.py:264-279 | a bypass works on the request it was started with |
| `KillSwitchRuns.AloneIsARun` | app/main.py:264-378 | the method makes one of these runs |
| `Access.ValidateAccessToken` | app/middleware/auth_middleware.py:12-30 | the loop over the audiences returns the specified claims or the specified error |
| `Access.AllowedIff` | app/middleware/auth_middleware.py:12-30 | success if and only if some audience accepts the token and the first accepted claims are an access token's; those are returned |
| `Access.DeniedWith` | app/middleware/auth_middleware.py:12-30 | which error a refusal gives: no token, the last audience's refusal, or that it is no access token |
| `Access.OrderOfAudiencesIrrelevant` | app/middleware/auth_middleware.py:18-30 | if claims do not depend on the audience, neither success nor claims depend on the order of the list |
| `Access.RoleMatches` | app/middleware/auth_middleware.py:82-94 | true if and only if some allowed role matches the user's role or type |
| `Access.PathClause` | app/middleware/auth_middleware.py:70-75 | without roles only users of type "restaurant" whose claim does not print as the path's id are turned away |
| `Access.ListAdmits` | app/middleware/auth_middleware.py:67-94 | a list of roles admits exactly whom one of its roles admits, within the path clause |
| `Access.AdminAdmits` | app/middleware/auth_middleware.py:90-91 | "admin", in any case, admits exactly those whose role or type reads so |
| `Access.ClientAdmits` | app/middleware/auth_middleware.py:92-93 | "client" and "restaurant" admit exactly those whose role reads as this one and users of type "restaurant" |
| `Access.OtherRolesAdmit` | app/middleware/auth_middleware.py:86-94 | any other list admits exactly those whose role reads as one of it |
| `Text.IntTextInjective` | app/middleware/auth_middleware.py:73-74 | printing integers in decimal is injective |
| `Access.ComparisonsAgreeIffCanonical` | app/api/dashboard_orders.py:559-593 | the string comparison of the role guard and the integer comparison agree on every claim if and only if the path is the canonical decimal of the id |
| `Access.LeadingZeroDisagrees` | app/middleware/auth_middleware.py:70-75 | a path id with a leading zero turns its own restaurant away |
| `Access.GuardsAdmitExactly` | app/middleware/auth_middleware.py:56-94 | on a canonical path the two guards together admit exactly admins and the users of that restaurant |

## Left out

- Logging, timing figures, HTTP routing, request schemas, OpenAPI texts, TwiML and CSV output.
- The Python libraries: `json`, Pydantic and JWT results are arguments; strings lower-case ASCII letters only.
- `app/agent_fc/config.py`: reading the environment; the router caps retries for any integer setting, as its own code does.
- `Transport.send`: it is taken not to raise, and a response is sent when the router hands it over.
- Function calls that run on after their time-out because they ignore cancellation; a handler's own `TimeoutError` counts as a time-out.
- Handler values that contain themselves or nest too deeply for `json.dumps`; subclasses of `str`, `int` and `dict` count as these.
- The splitter does not know SQL string literals, as its own comment says; the statements are about text only.
- `get_connection`, `create_database` and the closing of connections in the scripts.
- MigrationRunner.Connection.Execute: does not say that a failed commit may leave the statement applied, because that is the database's.
- `add_restaurant` of the pilot seed: one select and one insert.
- Database errors inside the menu seed: they end the script before its commit, like the missing names that are modelled.
- Auto-increment counters that a rolled-back transaction leaves advanced, column types and rounding, timestamps, foreign keys.
- Errors that are not the connector's inside `add_menu_items` (a missing `item_name` or `price`).
- Pricing and checking of order items, customers' metadata and the user upsert of `create_order`: the priced amount, the user's number and every failure of these steps are arguments.
- Concurrent order calls from several processes, between the access check and the write.
- Sending of events and messages: they are modelled as queued tasks; the restaurant look-up inside the message task is not.
- The history entries' texts and the fields other than the status.
- The reservations endpoints, whose `finalize_reservation` changes a status without a history entry.
- The rows of the kill-switch task hold the columns it sets, not the timestamps; deletion of users, calls and escalations elsewhere is not modelled.
- Cancellation of a kill-switch task appears only as steps not taken; a websocket handler or sweep cancelled before its first instruction does nothing.
- More than one event loop over the same websocket registry.
