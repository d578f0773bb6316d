# Verified model of the ordering backend

This Dafny project models the parts of the ordering backend whose correctness depends on several pieces of
code working together, and proves what they promise. `dafny verify dfyconfig.toml` checks all of it.

| file | models |
|---|---|
| `MigrationProtocol.dfy` | `cmd/migrate`: replicas racing for a session advisory lock, creating the schema and swapping the unique index on order numbers, under crashes, expiring contexts, lost sessions and concurrent inserts |
| `BulkCreate.dfy` | `CreateBulk.Save` of the generated ent code: the recursive chain of mutators and hooks over shared slices, against a plain loop |
| `EagerLoad.dfy` | the map-indexed joins `loadItems`, `loadUser` and `loadCart`, and what loading an edge both ways gives |
| `CartQueries.dfy` | `All` of the cart query with its edges, and `First`, `Only`, `Exist`, which narrow the query in place, followed by another use of it |
| `CartEntity.dfy`, `CartCreation.dfy` | a cart from its builder into a row and back: `defaults`, `check`, `createSpec`, `scanValues`, `assignValues` |
| `CartItemEntity.dfy` | `scanValues` and `assignValues` of a cart item, with its two JSON columns |
| `ItemUpsert.dfy` | the conflict options of a cart item create (`UpdateNewValues`, `Ignore`, setters), resolved when the statement is built, and the statement's effect |
| `SeedSpec.dfy`, `SeedTheorems.dfy`, `SeedRoleTheorems.dfy`, `SeedRun.dfy` | what `cmd/seed` does to the RBAC, config and event tables, and what a run means |
| `SeedTransaction.dfy` | the loops of `cmd/seed`, statement by statement, in one Postgres transaction |
| `SeedLists.dfy` | the lists `cmd/seed` is compiled with |
| `PruneUsers.dfy` | `cmd/prune-users`: the memoised tenant check, the counts and the ordered delete |
| `Base.dfy`, `SqlValues.dfy` | shared vocabulary: options and results, column values and scan holders |

Functions describe what the code computes; methods in the shape of the code (classes with fields, loops,
arrays) are proved equal to them; lemmas say what that means. A main theorem holds for every input, every run
or every reachable state.

## Where the code and its comments differ

- **Index swap.** The comment at `cmd/migrate/main.go:92-95` calls both statements safe. As the schema stands they
  are: `internal/ent/migrate/schema.go:834-838` declares the per-tenant index, so a Schema.Create that succeeds has
  added it, and `AlwaysUniquePerTenant` holds of every run whatever becomes of the two statements; and no run touches an order
  (`OrdersKept`). The statements
  alone would not do: both errors are only logged, so were the schema to leave the index out, a create that the
  server rejects followed by a drop that it accepts would leave no index (`BlindDropLosesUniqueness`), and
  `EnforcedIffNoBlindDrop` says that this is the only way to lose the enforcement. An expired context is not one of
  the ways, since the drop then fails too.
- **Lock.** The lock belongs to a database session. `LockCoversIffSessionsKept` says that it protects the
  section exactly as long as no session of a live replica is lost (the pool would reconnect without the lock).
- **Hooks.** `Save` reports an error and yet has written the rows exactly when the insert was accepted and the
  hooks around it turn its success into an error: `FailedWithRowsIff`, for any hooks, builders and database. Hooks
  that never turn a success into an error suffice (`FailureLeavesNothing`).
- **Queries.** `loadItems`, `loadUser` and `loadCart` add their condition to the query object they are given,
  `First`, `Only` and `Exist` leave their limit on it, and `Exist` leaves the id selected besides, so that the other
  columns of a later `All` are zero; when columns had been selected, `Exist` fails, since it scans several columns
  into a list of ids. `ReusedQueryAgreesIff`, `FirstThenAll`, `OnlyThenAll` and `ExistThenAll` say exactly when a
  query that is used again still gives what it gave. Of several carts with one id only the last gets items.
- **Seeding.** `cmd/seed/main.go:1046-1049` continues after a duplicate grant, but in Postgres the failed insert
  has aborted the transaction, so the run fails; the exact condition of success (`SeedOkIff`) includes that no
  role names a permission twice, which `SeedLists` shows of the compiled lists. The map of permissions holds the
  computed id even for a row that exists under another id; `GrantsExact` is therefore about computed ids.
  `GrantsByCodeIff` says exactly when the grants are also right by code, and `WrongGrant` gives a database where they
  are not; `GrantsExactByCode` and `HashedIdsSuffice` cover databases whose ids are the hashes, which a run preserves.
- **Upserts.** `UpdateNewValues` is said to write the values set on create. The model's batch INSERT names every
  column that some builder sets, with NULL where another left it unset, so such a NULL is written too
  (`ItemUpsert.Refreshed`).

## Modelling decisions

- Identifiers are opaque; the name-based UUIDs are functions assumed injective. Times and floats are opaque
  values, JSON documents are opaque with a decode-of-encode law (`CartItemEntity.Lawful`).
- `sqlgraph`, the SQL dialect and Postgres are small tables with the constraints that the schema declares
  (`internal/ent/migrate/schema.go`); entgo.io/ent is not part of this model beyond that.
- A limit of zero on a query is none, as `sqlgraph` reads the spec; scanning several columns into a list of ids is an
  error; a stored cart has a status, since the checks demand one; the names of selected columns are valid ones.
- In `cmd/migrate`, a statement can take effect on the server although the context runs out before the answer.
- Statements that fail by accident are an arbitrary function of the statement's number, so that every theorem
  about failure holds wherever it strikes.
- The migration is a transition system over steps of replicas and inserts of API servers; `Deployment.Migrate` runs
  one replica in the shape of the code and records the steps it takes.

## Model

| member | source | states |
|---|---|---|
| MigrationProtocol.AlwaysUniquePerTenant | internal/ent/migrate/schema.go:834-838 | with the per-tenant index in the schema, in every state of every run of any number of replicas, whatever statements are rejected, lost or cut off by crashes, some index enforces uniqueness per tenant and no two orders of one tenant share a number |
| MigrationProtocol.EnforcedIffNoBlindDrop | cmd/migrate/main.go:92-101 | in every run of any number of replicas, with failures and inserts anywhere, an index enforces per-tenant uniqueness in every state if and only if no replica drops the legacy index after a create that failed and left no per-tenant index |
| MigrationProtocol.EnforcedStep | cmd/migrate/main.go:96-101 | one step loses the enforcement if and only if it is such a blind drop |
| MigrationProtocol.BlindDropLosesUniqueness | cmd/migrate/main.go:96-101 | the declaration is needed: with a Schema.Create that leaves the index out, a run in which the create is rejected and the drop goes through, and one tenant gets two orders with one number |
| MigrationProtocol.NoRefusalNoBlindDrop | cmd/migrate/main.go:96-101 | whatever the schema: without a rejection of the create no blind drop happens, since a failed create then means an expired context, under which the drop fails as well |
| MigrationProtocol.ExpiryStep | cmd/migrate/main.go:96-101 | one step keeps that a failed create means an expired context or an index that is there |
| MigrationProtocol.AddingSchemaNoBlindDrop | cmd/migrate/main.go:86-101 | when every Schema.Create that succeeds has added the declared index, no run has a blind drop: the index is there from the schema on |
| MigrationProtocol.SchemaStep | cmd/migrate/main.go:86-101 | one step of any replica keeps that, and is no blind drop |
| MigrationProtocol.UniquePerTenant | cmd/migrate/main.go:92-95 | without a blind drop, order numbers are unique per tenant in every reachable state |
| MigrationProtocol.NoBlindDropUnique | cmd/migrate/main.go:92-101 | without a blind drop, that holds in every state of the run |
| MigrationProtocol.GlobalImpliesTenant | cmd/migrate/main.go:92-95 | global uniqueness of numbers implies uniqueness per tenant |
| MigrationProtocol.CreateNeverFailsOnData | cmd/migrate/main.go:92-98 | the create takes effect if and only if the context is live when it is sent and the server does not reject it: the rows never stand in its way |
| MigrationProtocol.OrdersKept | cmd/migrate/main.go:86-103 | no run of any number of replicas loses, changes or reorders an order: a table ends with the orders it had followed by those placed during the run, and one that was missing with those placed |
| MigrationProtocol.IndexesKept | cmd/migrate/main.go:92-101 | over any run the global index is lost if and only if some drop took effect, and never gained; the per-tenant index is gained if and only if a schema or a create took effect, and never lost |
| MigrationProtocol.TableEffect | cmd/migrate/main.go:86-101 | what one step does to the table, entirely: rows only by inserts, at the end; each index by the statements about it; the table itself only by the schema |
| MigrationProtocol.InsertIff | internal/ent/migrate/schema.go:834-838 | an order can be placed if and only if the rows still obey the indexes with it |
| MigrationProtocol.CleanFinishConverges | cmd/migrate/main.go:92-103 | once some replica finished with both statements successful, the per-tenant index exists and the global one is gone |
| MigrationProtocol.ConvergedForever | cmd/migrate/main.go:86-101 | from a converged table on, whatever the replicas do, the table only gains the inserted orders, in order |
| MigrationProtocol.LockCoversIffSessionsKept | cmd/migrate/main.go:47-71 | every live replica inside the migration section owns the advisory lock in every state of a run if and only if no live session is lost |
| MigrationProtocol.LostSessionLetsTwoIn | cmd/migrate/main.go:47-71 | the condition is needed: a run in which a dropped connection lets a second replica into the section |
| MigrationProtocol.FailuresAnytime | cmd/migrate/main.go:63-103 | runs include a crash of any unfinished replica at any time, the expiry of its context, and the loss of its session while it holds the lock |
| MigrationProtocol.LockStep | cmd/migrate/main.go:47-71 | one step leaves the section unprotected if and only if it ends the session of a live replica |
| MigrationProtocol.AtMostOneMigrates | cmd/migrate/main.go:47-71 | at most one replica can change the orders table with its next statement |
| MigrationProtocol.OnlyInsideChangesTable | cmd/migrate/main.go:63-101 | only a replica with a live context inside the section can change the table |
| MigrationProtocol.NeverStuck | cmd/migrate/main.go:63-103 | while some replica has neither finished nor crashed, some replica has a step of its own to take, one that keeps to the declared schema if the run so far did |
| MigrationProtocol.MeasureFalls | cmd/migrate/main.go:63-103 | every replica step, crashes and expiries included, lowers a measure that inserts leave alone |
| MigrationProtocol.RunsAreShort | cmd/migrate/main.go:63-103 | n replicas take at most 16n steps between them in any run |
| MigrationProtocol.InvAlways | cmd/migrate/main.go:63-101 | rows obey the indexes that exist, the lock belongs to a replica inside the section, and recorded outcomes agree with the table, in every reachable state |
| MigrationProtocol.TableStep | cmd/migrate/main.go:86-101 | rows are only added past the indexes, and an index only over rows that obey it |
| MigrationProtocol.PcStep | cmd/migrate/main.go:86-103 | what a replica remembers of its statements stays true of the table whatever the others do |
| MigrationProtocol.InvStep | cmd/migrate/main.go:63-103 | every step of every replica, and every insert, keeps the invariant |
| MigrationProtocol.Deployment.Leave | cmd/migrate/main.go:67-75 | the process ends or closes its client: the session goes and the lock with it |
| MigrationProtocol.Deployment.Tick | cmd/migrate/main.go:28-29 | the two minutes run out at most once |
| MigrationProtocol.Deployment.TakeLock | cmd/migrate/main.go:63-66 | the lock statement is one protocol step |
| MigrationProtocol.Deployment.CreateTables | cmd/migrate/main.go:86-90 | Schema.Create is one additive protocol step, whether or not the replica hears of its end; it keeps the orders and the global index |
| MigrationProtocol.Deployment.AddTenantIndex | cmd/migrate/main.go:96-98 | the create index statement, its error only logged, is one protocol step; it may take effect although the replica sees an error |
| MigrationProtocol.Deployment.DropLegacyIndex | cmd/migrate/main.go:99-101 | the drop index statement follows whatever became of the create, and likewise |
| MigrationProtocol.Deployment.Lock | cmd/migrate/main.go:63-71 | a replica gets the lock unless its context ran out first, in which case it exits and changes nothing |
| MigrationProtocol.Deployment.Prepare | cmd/migrate/main.go:63-90 | up to the schema: either alive with the schema in place and the lock held, or gone with the lock free and the table untouched, unless the schema was created unheard; the orders are those that were there |
| MigrationProtocol.Deployment.MakeSchema | cmd/migrate/main.go:86-90 | the same of Schema.Create alone, with the lock held |
| MigrationProtocol.Deployment.TryCreate | cmd/migrate/main.go:96-98 | the create step under any weather |
| MigrationProtocol.Deployment.TryDrop | cmd/migrate/main.go:99-101 | the drop step under any weather |
| MigrationProtocol.Deployment.SwapIndexes | cmd/migrate/main.go:92-103 | both statements and the close; in fair weather the indexes have been swapped |
| MigrationProtocol.Deployment.Migrate | cmd/migrate/main.go:27-104 | the body of main does a legal run of the protocol by this replica alone and leaves the lock free; whatever the weather the orders are exactly those that were there, the global index never comes back and the per-tenant index never goes; in fair weather the indexes have been swapped |
| MigrationProtocol.RunByOne | cmd/migrate/main.go:27-104 | what a run by one replica keeps: the orders, and of the indexes what the statements leave |
| BulkCreate.CreateBulk.Save | internal/ent/cartitem_create.go:947-1000 | the recursive chain gives the result, mutations, table and trace of the plain loop over all hooks and mutators, followed by one insert; and without hooks, distinct builders succeed if and only if each one's fields with its own defaults pass the checks and the database takes their rows in order, with exactly those nodes, marks and identifiers, and otherwise the first error and nothing written |
| BulkCreate.CreateBulk.Run | internal/ent/cartitem_create.go:954-998 | the chain, once there are builders |
| BulkCreate.CreateBulk.Mutate | internal/ent/cartitem_create.go:958-992 | one mutator with the rest of the chain is the plain loop over the remaining frames |
| BulkCreate.CreateBulk.Next | internal/ent/cartitem_create.go:969-980 | the call to the next mutator, or the insert at the end, is the plain loop over what remains |
| BulkCreate.CreateBulk.BeforeNext | internal/ent/cartitem_create.go:958-968 | what a hook or a mutator does before the call to the next: edits, checks, fills its slots |
| BulkCreate.CreateBulk.AfterNext | internal/ent/cartitem_create.go:981-991 | what follows the call: the mark on success, the hook editing or replacing the outcome |
| BulkCreate.CreateBulk.BatchCreate | internal/ent/cartitem_create.go:972-979 | one insert of all rows, changing the table only when it succeeds |
| BulkCreate.CreateBulk.SetDefaults | internal/ent/cartitem_create.go:954-957 | before the chain starts every builder has its own defaults, and nothing else of it has changed |
| BulkCreate.CreateBulk.SetDefault | internal/ent/cartitem_create.go:956-957 | one builder's defaults |
| BulkCreate.DefaultsGiven | internal/ent/cartitem_create.go:954-957 | distinct builders get their defaults once each |
| BulkCreate.LoopAround | internal/ent/cartitem_create.go:958-992 | a frame of the plain loop runs around everything after it |
| BulkCreate.AllOrNothing | internal/ent/cart_create.go:1140-1193 | under hooks that pass, edit or abort: a failed save changes no row and marks no mutation; a successful one ran one insert over rows each filled from its own builder and marked all; and it succeeds exactly when nothing stops the descent and the insert is accepted |
| BulkCreate.FailedWithRowsIff | internal/ent/cartitem_create.go:954-998 | whatever the hooks, builders and database do: rows are written if and only if the chain reaches the insert and the insert is accepted; so a save fails with rows written if and only if, besides, the hooks on the way up turn the insert's success into an error |
| BulkCreate.LoopWrites | internal/ent/cartitem_create.go:954-998 | the same from any frame on, with the outcome that the hooks make of an accepted insert |
| BulkCreate.FailureLeavesNothing | internal/ent/cartitem_create.go:954-998 | when no hook turns the success of its call into an error, a failed save writes no row and marks no mutation, even if hooks stop with a success or turn errors into successes |
| BulkCreate.LoopLeavesNothing | internal/ent/cartitem_create.go:954-998 | the same from any frame on |
| BulkCreate.AscendKeepsSuccess | internal/ent/cartitem_create.go:981-998 | under such hooks a failure at the end was a failure at the bottom, and marks nothing |
| BulkCreate.LoneHookKeepsIff | internal/ent/cartitem_create.go:988-998 | the condition is needed: around an insert that succeeds, a lone hook that turns its success into an error makes some save fail with its row written |
| BulkCreate.OneHookRun | internal/ent/cartitem_create.go:957-998 | what that save does, for any hook |
| BulkCreate.DescentFillsSlots | internal/ent/cartitem_create.go:968-975 | the insert is reached only with every slot filled |
| BulkCreate.SaveByBuilder | internal/ent/cartitem_create.go:954-998 | distinct builders, any hooks, any database, read off the builders: with what each one's own hooks make of its defaulted fields, rows are inserted only if all hooks go on and all checks pass, in builder order and from those fields; the outcome and the fields then pass back through each builder's hooks, the last builder first |
| BulkCreate.StoppedByBuilder | internal/ent/cartitem_create.go:958-998 | otherwise, under hooks that leave outcomes alone, the first builder whose hooks stop or whose fields fail gives the outcome, and nothing is written or marked |
| BulkCreate.HooklessSave | internal/ent/cartitem_create.go:954-998 | the case without hooks |
| BulkCreate.BottomFilled | internal/ent/cartitem_create.go:958-975 | the insert is reached only with every slot filled, each from its own builder when none is passed twice |
| BulkCreate.DescentEdits | internal/ent/cartitem_create.go:958-970 | the way down, from any frame: how far it comes and what it fills |
| BulkCreate.AscentEdits | internal/ent/cartitem_create.go:981-998 | the way back, from any frame: what each builder's hooks make of its fields and the outcome |
| BulkCreate.AscendMarks | internal/ent/cartitem_create.go:981-986 | on the way up an error marks nothing and a success marks every builder |
| BulkCreate.AscendKeepsRows | internal/ent/cartitem_create.go:981-990 | on the way up neither rows, nodes nor the table change |
| BulkCreate.DescendKeepsTable | internal/ent/cartitem_create.go:958-970 | on the way down the table and the marks stay |
| BulkCreate.DescendFailsOnlyWithErrors | internal/ent/cartitem_create.go:963-965 | a stopped descent is a failure |
| BulkCreate.PerfectlyNested | internal/ent/cartitem_create.go:954-998 | the trace is perfectly nested whatever the hooks do: frames entered in order to the first that stops, at most one insert, and only below all frames, then the entered frames left in reverse |
| BulkCreate.FramesInOrder | internal/ent/cartitem_create.go:988-990 | frames go by builder, then hooks with hook 0 outermost, then the mutator |
| BulkCreate.DescendTrace | internal/ent/cartitem_create.go:958-970 | the trace of the way down |
| BulkCreate.AscendTrace | internal/ent/cartitem_create.go:981-990 | the trace of the way up |
| EagerLoad.LoadItems | internal/ent/cart_query.go:450-479 | each cart gets exactly the result rows with its id, in result order, except that of several carts with one id only the last does; every result row names a loaded cart, so the rows under all carts together are the result as a multiset, and the error branch cannot be reached |
| EagerLoad.IndexCarts | internal/ent/cart_query.go:451-459 | the lookup map holds for each id the last cart that has it, and all items are emptied |
| EagerLoad.Distribute | internal/ent/cart_query.go:470-477 | handing out rows fails exactly when one names no cart, and otherwise each indexed cart holds its rows in order |
| EagerLoad.HandOut | internal/ent/cart_query.go:470-477 | one row goes to the cart it names and to no other |
| EagerLoad.FetchItems | internal/ent/cart_query.go:460-469 | the query gets the foreign key selected and one more condition, and its results all name a loaded cart |
| EagerLoad.LastCartIs | internal/ent/cart_query.go:451-455 | a cart is found under its id exactly when no later cart has that id |
| EagerLoad.IndexIsLast | internal/ent/cart_query.go:451-455 | the keys of the lookup map are the carts' ids |
| EagerLoad.ReusedQueryAgreesIff | internal/ent/cart_query.go:460-465 | a query without a limit that served earlier loads finds for a cart what the naive join gives if and only if each earlier load included the cart, or it has no rows |
| EagerLoad.LimitedLoadAgreesIff | internal/ent/cart_query.go:460-477 | a limit on the query counts over all carts: every cart has its rows if and only if the limit cuts nothing off |
| EagerLoad.SelectedIn | internal/ent/cart_query.go:460-465 | what a query selects satisfies the caller's conditions and those of every load it served |
| EagerLoad.SelectedAt | internal/ent/cart_query.go:549-554 | what a query selects by its place in the table: of the rows that satisfy all conditions, in order and each as often as it is there, those past the offset, cut to the limit |
| EagerLoad.WindowAt | internal/ent/cart_query.go:549-554 | row k of a result is row offset + k; as many as are left past the offset, cut to a limit above zero |
| EagerLoad.MatchingAt | internal/ent/cart_query.go:542-548 | conditions pick rows in their order |
| EagerLoad.ItemsOfAt | internal/ent/cart_query.go:470-477 | a cart's rows are those of the result with its id, in their order |
| EagerLoad.CartColumns | internal/ent/cart_query.go:529-541 | a cart's node shows its id, its user key if it or nothing was selected or the user is loaded, and of the other columns exactly the selected ones, or all |
| EagerLoad.ItemColumns | internal/ent/cartitem_query.go:370-403 | the same of an item's node |
| EagerLoad.MatchingTwice | internal/ent/cart_query.go:464-466 | a condition added twice is as good as once |
| EagerLoad.ItemsUnderLists | internal/ent/cart_query.go:460-465 | conditions of earlier loads leave a cart all of its rows or none |
| EagerLoad.LoadConserves | internal/ent/cart_query.go:470-477 | rows each naming a cart are, handed out, the same multiset of the same size |
| EagerLoad.LoadInverse | internal/ent/cartitem_query.go:405-433 | after loadItems and loadCart on the same data, carts with distinct ids: a row is among a cart's items if and only if the cart of the row's item is that cart's row |
| EagerLoad.LoadBothWays | internal/ent/cartitem_query.go:405-433 | the same whatever the two queries select, limit or still carry: each direction holds a pair exactly when its own query found it, and the two agree exactly when both or neither did |
| EagerLoad.LoadLists | internal/ent/cart_query.go:450-479 | one direction of that |
| EagerLoad.LoadNames | internal/ent/cartitem_query.go:405-433 | the other direction |
| EagerLoad.AllItemNodes | internal/ent/cartitem_query.go:370-403 | new nodes for the selected rows in order, unselected columns at zero |
| EagerLoad.GroupBy | internal/ent/cart_query.go:481-495 | the key list has no duplicates and is exactly the foreign keys in use, and each group is exactly the rows that share a key |
| EagerLoad.LoadUser | internal/ent/cart_query.go:480-511 | every cart whose user the query finds gets it, the same object for the same id, others keep theirs; the error branch cannot be reached |
| EagerLoad.GroupCarts | internal/ent/cart_query.go:481-492 | carts grouped by user; those without a user are in no group |
| EagerLoad.FetchUsers | internal/ent/cart_query.go:496-500 | the query finds exactly the wanted users that its conditions, offset and limit let through |
| EagerLoad.AssignUsers | internal/ent/cart_query.go:501-509 | the assignment fails exactly on a user nobody asked for |
| EagerLoad.SetUser | internal/ent/cart_query.go:506-508 | every cart of a group gets the user |
| EagerLoad.LoadCart | internal/ent/cartitem_query.go:405-433 | every item whose cart the query finds gets it, the same object for the same id |
| EagerLoad.GroupItems | internal/ent/cartitem_query.go:406-414 | items grouped by cart |
| EagerLoad.FetchCarts | internal/ent/cartitem_query.go:418-422 | the query finds exactly the wanted carts that its conditions, offset and limit let through, as it selects them |
| EagerLoad.AssignCarts | internal/ent/cartitem_query.go:423-431 | the assignment fails exactly on a cart nobody asked for |
| EagerLoad.SetCart | internal/ent/cartitem_query.go:428-430 | every item of a group gets the cart |
| CartQueries.CartQuery.All | internal/ent/cart_query.go:407-448 | node i is row offset + i by its id and its selected columns, as many nodes as rows are left past the offset, cut to a limit above zero; with exactly the requested edges: each cart its items' rows and its user, carts with one user key sharing the object; and the conditions it leaves on the queries of the edges |
| CartQueries.AnswerRows | internal/ent/cart_query.go:549-554 | the rows of an answer, by place and column |
| CartQueries.AnswerEdges | internal/ent/cart_query.go:434-446 | the edges of a node when their queries are as they were made: an item is under the node if and only if it is kept and names the node's id, and no later node has that id; the user is there if and only if the row names one that is there and kept; edges not asked for are empty |
| CartQueries.CartQuery.Scan | internal/ent/cart_query.go:416-424 | one new bare node a row, node i showing row offset + i |
| CartQueries.CartQuery.LoadEdges | internal/ent/cart_query.go:434-446 | both edges of nodes that are still bare |
| CartQueries.CartQuery.LoadItemsEdge | internal/ent/cart_query.go:434-440 | the items edge, and the item query afterwards |
| CartQueries.CartQuery.LoadUserEdge | internal/ent/cart_query.go:441-446 | the user edge, and the user query afterwards |
| CartQueries.CartQuery.First | internal/ent/cart_query.go:113-122 | the first result of the query without its limit; a limit of one stays |
| CartQueries.CartQuery.Only | internal/ent/cart_query.go:159-172 | succeeds exactly when the query, without its limit, has one result, and tells none from several; a limit of two stays |
| CartQueries.CartQuery.IDs | internal/ent/cart_query.go:231-240 | the selected ids, none under a limit of zero; the id stays selected, and columns selected before make it fail |
| CartQueries.CartQuery.FirstID | internal/ent/cart_query.go:135-145 | the first id of the query without its limit |
| CartQueries.CartQuery.Exist | internal/ent/cart_query.go:270-280 | true exactly when the query without its limit has a result, failing when columns were selected; a limit of one and the selected id stay |
| CartQueries.FirstThenAll | internal/ent/cart_query.go:113-122 | the nodes of All after First are those of All without it if and only if at most one row is there or the limit was one already |
| CartQueries.OnlyThenAll | internal/ent/cart_query.go:159-172 | after Only: at most one row, or the limit was two already, or two rows and the limit was not one |
| CartQueries.ExistThenAll | internal/ent/cart_query.go:270-280 | after Exist: the limit as for First, and some columns selected before unless there is no row; so after an Exist that succeeds with true All never gives the nodes it would have given |
| CartQueries.FirstAgreesIff | internal/ent/cart_query.go:113-122 | the same of First on the answers |
| CartQueries.OnlyAgreesIff | internal/ent/cart_query.go:159-172 | the same of Only |
| CartQueries.ExistAgreesIff | internal/ent/cart_query.go:522-563 | the same of Exist |
| CartQueries.ExistSpoilsAll | internal/ent/cart_query.go:270-280 | one cart, nothing selected, no limit: after Exist, All gives the cart without its status |
| CartQueries.LimitedAgreesIff | internal/ent/cart_query.go:113-122 | a query limited in place answers as before if and only if the two limits let the same number of rows through |
| CartQueries.ServedAgain | internal/ent/cart_query.go:434-446 | a query that has loaded its edges answers the same again |
| CartQueries.IdSelected | internal/ent/cart_query.go:522-538 | selecting the id as well changes a node if and only if nothing had been selected |
| CartEntity.Cart.AssignValues | internal/ent/cart.go:115-225 | succeeds exactly when there are enough holders and each is of the type its column expects; then every field holds the last value its column carried, or what it held before |
| CartEntity.Cart.AssignColumn | internal/ent/cart.go:119-223 | one column changes one field; an alias changes none |
| CartEntity.Cart.AssignField | internal/ent/cart.go:119-219 | refused on the wrong holder type; an invalid holder changes nothing |
| CartEntity.Cart.Put | internal/ent/cart_create.go:416-476 | one column of the node is set |
| CartEntity.Cart.constructor | internal/ent/cart_create.go:412-412 | a new node shows NULL or zero everywhere |
| CartEntity.ScanValues | internal/ent/cart.go:90-111 | every holder takes any cell its column can store and hands it on; other names get an opaque holder |
| CartEntity.HolderFor | internal/ent/cart.go:93-108 | the holder of one column |
| CartEntity.ScanRow | internal/ent/cart.go:90-111 | scanning a row into the holders refuses no type |
| CartEntity.ReadRow | internal/ent/cart.go:90-225 | whatever names are selected, in any order, with repeats and aliases, no type is refused; selected columns show the row, others zero |
| SqlValues.LatestUniform | internal/ent/cart.go:119-223 | a column selected any number of times leaves the one value it carries |
| CartCreation.CartCreate.CreateSpec | internal/ent/cart_create.go:410-510 | the row of the spec, with the user edge as column user_id, is exactly what was set, and the node shows exactly that row |
| CartCreation.CartCreate.SetField | internal/ent/cart_create.go:420-475 | one block takes one column over into spec and node together |
| CartCreation.CartCreate.SetFields | internal/ent/cart_create.go:420-475 | all fourteen blocks |
| CartCreation.SpecRow | internal/ent/cart_create.go:416-508 | identifier, fields and user edge are all there is to a row |
| CartCreation.CartCreate.FillGap | internal/ent/cart_create.go:292-331 | a default is set only where nothing was |
| CartCreation.CartCreate.Defaults | internal/ent/cart_create.go:291-332 | every gap that has a default is filled and nothing set is overridden |
| CartCreation.FilledColumns | internal/ent/cart_create.go:291-332 | column by column: what was set stays; the gaps become an active cart in KES with zero amounts and points, a new identifier and the present time, and the rest stays unset |
| CartCreation.CartCreate.Check | internal/ent/cart_create.go:335-385 | gives the first column, in the order of the checks, that is missing or malformed, if any; texts are measured in bytes |
| CartCreation.FaultlessIff | internal/ent/cart_create.go:335-385 | nothing is found exactly when the eleven required columns have a value, the session is at most 255 and the currency at most 3 bytes, and the status is one of the four |
| CartCreation.FewestBytes | internal/ent/runtime.go:81-88 | text is measured in bytes of UTF-8: each character takes the fewest that can carry it |
| CartCreation.FilledAcceptable | internal/ent/cart_create.go:291-385 | defaults are neither a reason to pass the checks nor to fail them |
| CartCreation.FilledTyped | internal/ent/cart_create.go:291-332 | defaults have the types of their columns |
| CartCreation.Table.CreateNode | internal/ent/cart_create.go:387-397 | the insert takes a row with a new identifier that nothing else refuses |
| CartCreation.CartCreate.Save | internal/ent/cart_create.go:263-408 | all or nothing, succeeding exactly when the caller set what has no default, the texts are within limits, the identifier is new and the table does not refuse the row; the stored row is what was set with the defaults in the gaps, and has no NULL where the schema forbids it |
| CartCreation.CreateThenRead | internal/ent/cart_create.go:387-510 | reading a created cart back gives the node that was returned in every selected column, so a selection that covers the table gives the whole node |
| CartItemEntity.CartItem.AssignValues | internal/ent/cartitem.go:103-203 | succeeds exactly when there are enough holders of the right types and every JSON text can be decoded into what its field holds by then |
| CartItemEntity.CartItem.AssignColumn | internal/ent/cartitem.go:107-200 | one column, JSON or not, changes one field |
| CartItemEntity.CartItem.AssignField | internal/ent/cartitem.go:107-197 | a plain column is refused on the wrong type and changes its own field |
| CartItemEntity.CartItem.AssignJson | internal/ent/cartitem.go:170-185 | empty text leaves the field, other text is decoded into it or refused |
| CartItemEntity.DecodedUniform | internal/ent/cartitem.go:170-185 | however often a document's column is selected, the field ends up with the document |
| CartItemEntity.StaysErr | internal/ent/cartitem.go:170-185 | text that cannot be decoded fails the whole assignment |
| CartItemEntity.ScanValues | internal/ent/cartitem.go:76-99 | every holder takes any cell its column can store |
| CartItemEntity.ScanRow | internal/ent/cartitem.go:76-99 | scanning a row into the holders refuses no type |
| CartItemEntity.ReadRow | internal/ent/cartitem.go:76-203 | the round trip of a cart item, documents included, for any selection |
| ItemUpsert.UpsertBulk.SaveNewValues | internal/ent/cartitem_create.go:1076-1089 | for one builder or any batch: all or nothing; identity and creation time of every row run into stay, other written columns take the proposal, unwritten ones stay, untouched rows stay and exactly the unmatched proposals are added; it fails only on a repeated key, a taken identifier, or another constraint that refuses the very table the statement would leave |
| ItemUpsert.NewValuesExact | internal/ent/cartitem_create.go:636-647 | the same on the table, with the exact condition for success |
| ItemUpsert.RowRefreshed | internal/ent/cartitem_create.go:636-647 | what one row becomes |
| ItemUpsert.UpsertedColumns | internal/ent/cartitem_create.go:1076-1089 | column by column: a row whose key a builder proposes keeps identifier and creation time, shows that proposal in every other column that some builder sets, and is as it was in the rest; a row whose key nobody proposes is as it was |
| ItemUpsert.UnmatchedAt | internal/ent/cartitem_create.go:972-979 | the added rows are the proposals that run into no row, in their order |
| ItemUpsert.RanNewValues | internal/ent/cartitem_create.go:1076-1089 | what the one statement of UpdateNewValues did, from its outcome |
| ItemUpsert.NewValuesAt | internal/ent/cartitem_create.go:1076-1089 | identity columns are kept if and only if some builder holds them when the options run |
| ItemUpsert.NewValuesDecide | internal/ent/cartitem_create.go:1076-1089 | whatever options came before, UpdateNewValues decides every written column |
| ItemUpsert.IgnoreKeepsRow | internal/ent/cartitem_create.go:655-658 | Ignore leaves every row that is run into as it was |
| ItemUpsert.UpsertExact | internal/ent/cartitem_create.go:972-979 | a successful statement had no two proposals with one key, rewrote each row by the one proposal that ran into it and appended the rest in order |
| ItemUpsert.UpsertSucceedsIff | internal/ent/cartitem_create.go:972-979 | a statement that keeps identities succeeds exactly when keys are distinct and no added identifier is taken |
| ItemUpsert.UpsertKeepsUnique | internal/ent/cartitem_create.go:972-979 | the index behind the conflict target survives |
| ItemUpsert.UpdateKeepsKey | internal/ent/cartitem_create.go:636-647 | an update moves no key |
| ItemUpsert.UpsertBulk.Save | internal/ent/cartitem_create.go:947-1000 | defaults first, then one statement whose options are resolved with the defaults in place |
| ItemUpsert.UpsertBulk.FillAll | internal/ent/cartitem_create.go:954-957 | defaults fill four gaps, the quantity with one, and override nothing, builders passed twice included; distinct builders get theirs from their own stamps |
| ItemUpsert.FilledColumns | internal/ent/cartitem_create.go:206-224 | the gaps column by column: quantity one, both times the present, a new identifier |
| ItemUpsert.UpsertBulk.Resolve | internal/ent/cartitem_create.go:1076-1089 | running the options gives the assignments in order, later ones winning |
| ItemUpsert.UpdateSet.KeepIdentityOf | internal/ent/cartitem_create.go:1078-1087 | the loop over the builders keeps exactly the identity columns that some builder holds |
| ItemUpsert.UpdateSet.SetAll | internal/ent/cartitem_create.go:1077-1077 | every column gets the same kind of source |
| ItemUpsert.CartItemCreate.Defaults | internal/ent/cartitem_create.go:206-224 | fills quantity, both times and the identifier where missing |
| SeedTransaction.Transaction.RunSeed | cmd/seed/main.go:106-167 | atomic: commits the seeded contents or leaves the database as it was, whichever statements fail; without accidents it commits exactly when seeding is possible; and no state inside the transaction has a dangling grant or link |
| SeedTransaction.Transaction.Steps | cmd/seed/main.go:119-166 | the steps in order give the specified contents for every map order |
| SeedTransaction.Transaction.FirstSteps | cmd/seed/main.go:119-142 | up to the legacy roles |
| SeedTransaction.Transaction.LastSteps | cmd/seed/main.go:149-166 | from the ordering permissions on |
| SeedTransaction.Transaction.Send | cmd/seed/main.go:106-118 | a failed statement aborts the transaction, and an aborted transaction refuses everything |
| SeedTransaction.Transaction.EnqueueSyncEvents | cmd/seed/main.go:540-575 | each destination has one event with the new payload, the delivery state of an existing one kept |
| SeedTransaction.Transaction.RemoveRetiredPermissions | cmd/seed/main.go:178-216 | permissions with the retired prefix and legacy permissions of the retired module are gone with their grants and links, and every other permission, grant, legacy permission and link is as it was |
| SeedTransaction.Transaction.RemoveRetiredOrdering | cmd/seed/main.go:179-192 | grants go before their permissions |
| SeedTransaction.Transaction.RemoveRetiredLegacy | cmd/seed/main.go:193-211 | exactly the legacy permissions of the retired module go, with exactly the links to them |
| SeedTransaction.Transaction.DropLegacyPerm | cmd/seed/main.go:197-211 | links go before the permission |
| SeedTransaction.Transaction.RemoveRetiredServiceConfigs | cmd/seed/main.go:1139-1148 | rows of retired keys are gone, tenant values included |
| SeedTransaction.Transaction.SeedPermissions | cmd/seed/main.go:220-335 | legacy permissions are upserted by hashed id |
| SeedTransaction.Transaction.SeedRoleTable | cmd/seed/main.go:337-379 | legacy roles are upserted by code |
| SeedTransaction.Transaction.SeedRolePermissions | cmd/seed/main.go:473-493 | the outcome is that of every map order; it succeeds exactly when each role exists and each code was seeded |
| SeedTransaction.Transaction.SeedOrderingPermission | cmd/seed/main.go:846-882 | update where the code exists, else create under the hash, which must be free |
| SeedTransaction.Transaction.SeedOrderingPermissions | cmd/seed/main.go:843-883 | all listed permissions, failing as a whole |
| SeedTransaction.Transaction.EnsureRole | cmd/seed/main.go:982-1029 | the role is created or updated, and its id is the row's |
| SeedTransaction.Transaction.GrantAll | cmd/seed/main.go:1036-1052 | one grant a listed code, unseeded codes skipped; a refused insert ends it |
| SeedTransaction.Transaction.SeedOrderingRole | cmd/seed/main.go:981-1053 | the role with exactly its grants |
| SeedTransaction.Transaction.SeedOrderingRoles | cmd/seed/main.go:981-1053 | all listed roles, failing as a whole |
| SeedTransaction.Transaction.SeedServiceConfigs | cmd/seed/main.go:1151-1206 | platform values are updated or created |
| SeedRun.GrantsExact | cmd/seed/main.go:981-1053 | after a successful run each listed role of the tenant exists and holds exactly the grants of its listed, seeded codes, whatever it held before |
| SeedRun.GrantsExactByCode | cmd/seed/main.go:1036-1052 | with hashed ids: it holds exactly the permissions whose codes are listed and seeded, and ids are still hashes |
| SeedRun.GrantsByCodeIff | cmd/seed/main.go:1036-1052 | for any ids: after a successful run a listed role holds exactly the permissions whose codes are listed and seeded if and only if, before it, no computed id of such a code belonged to a row of a code that the role does not list |
| SeedRun.CodeGrantsIff | cmd/seed/main.go:1036-1052 | granting computed ids grants the rows of the codes if and only if each computed id is one of these rows |
| SeedRun.AskedRow | cmd/seed/main.go:846-882 | the computed id of a listed code is a row, of the code that had it or of its own |
| SeedRun.OtherGranted | cmd/seed/main.go:1036-1052 | a role that lists one code whose computed id has another row is granted that row, whatever its code |
| SeedRun.WrongGrant | cmd/seed/main.go:1036-1052 | a database where a run succeeds and grants a role that lists one permission another one instead |
| SeedRun.OtherRolesKept | cmd/seed/main.go:178-216 | a role of another tenant or with another code keeps its row and its grants minus the retired ones |
| SeedRun.NothingRetiredLeft | cmd/seed/main.go:169-216 | no retired permission, legacy permission or config is left |
| SeedRun.LegacyPermsKept | cmd/seed/main.go:193-335 | after a successful run a listed legacy permission is as listed; any other is there, unchanged, if and only if it was there and not of the retired module |
| SeedRun.LegacyRolesKept | cmd/seed/main.go:337-379 | a listed legacy role is as listed, any other as it was |
| SeedRun.LinksExact | cmd/seed/main.go:473-493 | a role of the map has exactly its listed links; any other role keeps a link if and only if its permission was not of the retired module |
| SeedRun.PermsKept | cmd/seed/main.go:169-192 | a permission of an unlisted code is there, unchanged, if and only if it was and its code has not the retired prefix; one of a listed code keeps its id and is as listed, a new one is under its hash |
| SeedRun.RolesKept | cmd/seed/main.go:981-1029 | no role row goes or changes tenant or code, and a new one is a listed role of the tenant under its hash |
| SeedRun.EventsExact | cmd/seed/main.go:540-575 | each destination has one event with the new payload; an existing one keeps its slug and delivery state, a new one is pending and untried; all other events are as they were |
| SeedRun.ConfigsKept | cmd/seed/main.go:1139-1206 | rows of a retired key are gone; the others are in their place, those of a tenant or an unlisted key as they were, platform values of a listed key as listed, and a missing one is added |
| SeedRun.StaysWellFormed | cmd/seed/main.go:106-167 | no grant or link dangles afterwards and the unique indexes hold |
| SeedRun.SeedTwice | cmd/seed/main.go:106-167 | a second run, in any map order, leaves the contents of the first |
| SeedRun.SeedOkIff | cmd/seed/main.go:106-167 | exactly when a run succeeds, in terms of the database before it |
| SeedRun.HashedIdsSuffice | cmd/seed/main.go:714-724 | with hashed ids only the lists can make it fail |
| SeedRun.PrepareEffect | cmd/seed/main.go:119-142 | what the steps up to the legacy roles leave |
| SeedRun.PermsSeeded | cmd/seed/main.go:843-883 | every listed permission is there as listed, others are untouched |
| SeedRun.RolesInPlace | cmd/seed/main.go:981-1029 | every listed role is there as listed |
| SeedRun.LinksPoint | cmd/seed/main.go:473-493 | legacy links point at existing rows |
| SeedRun.PrepareSettled | cmd/seed/main.go:119-142 | the first steps change nothing a second time |
| SeedRun.LinksSettled | cmd/seed/main.go:473-493 | nor does the linking, in any order |
| SeedRun.EventsSettled | cmd/seed/main.go:540-575 | nor do the sync events |
| SeedTheorems.LinkOrderIrrelevant | cmd/seed/main.go:473-493 | every order of the map gives the same links, or an error |
| SeedTheorems.LinkInOrderExact | cmd/seed/main.go:473-493 | the loop succeeds exactly when each entry can be linked, and then each role has exactly its links |
| SeedTheorems.UpsertAllEffect | cmd/seed/main.go:307-334 | after keyed upserts listed rows are as listed and others untouched |
| SeedTheorems.UpsertAllTwice | cmd/seed/main.go:307-334 | keyed upserts twice are once |
| SeedTheorems.UpsertConfigsEffect | cmd/seed/main.go:1167-1202 | listed platform values are set, tenant values and other keys untouched |
| SeedTheorems.UpsertConfigsSettled | cmd/seed/main.go:1167-1202 | settled values stay |
| SeedTheorems.KeepConfigsExact | cmd/seed/main.go:1139-1148 | exactly the rows of retired keys go |
| SeedTheorems.KeepConfigsAt | cmd/seed/main.go:1139-1148 | the rows that stay keep their order, each as often as it was there |
| SeedTheorems.UpsertPermsEffect | cmd/seed/main.go:843-883 | listed codes are settled, rows keep id and code, new rows are under their hash |
| SeedTheorems.UpsertPermsOkIff | cmd/seed/main.go:843-883 | the loop succeeds exactly when each code exists or its hash is free |
| SeedTheorems.UpsertPermsSettled | cmd/seed/main.go:843-883 | settled permissions stay |
| SeedTheorems.MissingIdStaysFree | cmd/seed/main.go:843-883 | a hash that is free stays free while other codes are created |
| SeedRoleTheorems.GrantEachExact | cmd/seed/main.go:1036-1052 | inserting grants one by one succeeds exactly when the ids are distinct, new and rows, and then adds exactly those |
| SeedRoleTheorems.ResolveDistinct | cmd/seed/main.go:1037-1041 | the resolved ids are distinct exactly when no seeded code is listed twice |
| SeedRoleTheorems.PlaceRoleEffect | cmd/seed/main.go:982-1029 | one role is created or updated, no other changes |
| SeedRoleTheorems.SeedRoleEffect | cmd/seed/main.go:981-1053 | one role is settled and no other role's grants change |
| SeedRoleTheorems.SeedRoleOkIff | cmd/seed/main.go:981-1053 | exactly when one role can be seeded |
| SeedRoleTheorems.SeedRolesEffect | cmd/seed/main.go:981-1053 | all listed roles are settled and others untouched |
| SeedRoleTheorems.SeedRolesOkIff | cmd/seed/main.go:981-1053 | exactly when all of them can be seeded |
| SeedRoleTheorems.SeedRolesSettled | cmd/seed/main.go:981-1053 | settled roles stay |
| SeedRoleTheorems.RoleStaysSettled | cmd/seed/main.go:981-1053 | seeding one role leaves another settled |
| SeedLists.SeedSucceeds | cmd/seed/main.go:727-1057 | with the lists as compiled, a run over a database whose identifiers are hashes always succeeds |
| SeedLists.AdminHasAll | cmd/seed/main.go:909-918 | after such a run the admin role holds every permission of the nine modules and nothing else |
| SeedLists.ViewerOnlyViews | cmd/seed/main.go:962-978 | and the viewer role holds only permissions to view |
| SeedLists.PlanSound | cmd/seed/main.go:169-1206 | the compiled lists are distinct and retire nothing that they seed |
| SeedLists.RetiredIff | cmd/seed/main.go:169-174 | the retired prefix catches every code of the retired module and of no other |
| SeedLists.CodeInjective | cmd/seed/main.go:846-846 | a code determines its module and action |
| SeedLists.PermsDistinct | cmd/seed/main.go:737-841 | the 81 codes are distinct and not retired |
| SeedLists.RolesListOnce | cmd/seed/main.go:909-979 | no role names a permission twice |
| SeedLists.RolesSeedable | cmd/seed/main.go:1037-1041 | every code a role can list is seeded: the warning branch is not taken |
| SeedLists.LegacyPossible | cmd/seed/main.go:381-493 | every legacy link has its role and permission seeded first |
| SeedLists.AllPerms | cmd/seed/main.go:898-907 | the nested loops give every action of every module, module by module |
| PruneUsers.Command.Run | cmd/prune-users/main.go:35-136 | nothing changes without --apply or with nobody to remove; otherwise a user goes if and only if they never signed in, no order, cart, address or loyalty account names them, and no outlet or order carries their tenant; their assignments, preferences, profiles and legacy roles go with them and every other row is as it was; or nothing at all happens |
| PruneUsers.Command.IsUnused | cmd/prune-users/main.go:69-85 | the cached answer is always the direct one, and a cached tenant is not queried again |
| PruneUsers.Command.LoadCandidates | cmd/prune-users/main.go:55-67 | exactly the users who never signed in and whom no order, cart, address or loyalty account names, each once |
| PruneUsers.Command.Collect | cmd/prune-users/main.go:87-95 | the removable candidates in order, and counts per tenant that are right and sum to their number |
| PruneUsers.Command.DeleteUsers | cmd/prune-users/main.go:111-135 | one transaction, never refused by a foreign key |
| PruneUsers.PrunedNoDangling | cmd/prune-users/main.go:119-131 | no reference dangles afterwards |
| PruneUsers.PruneTwice | cmd/prune-users/main.go:55-95 | a second run finds nobody |
| PruneUsers.KeptCount | cmd/prune-users/main.go:103-104 | users kept are those left |
| PruneUsers.RemovableAreIdle | cmd/prune-users/main.go:55-95 | the two steps of the command together pick exactly the idle users |
| PruneUsers.PrunedOthersStay | cmd/prune-users/main.go:111-131 | pruning takes users with the rows that name them, and leaves every other row of every table |
| PruneUsers.TotalIncrement | cmd/prune-users/main.go:93-93 | counting one more raises the sum by one |
| PruneUsers.KeepExact | cmd/prune-users/main.go:89-95 | the loop keeps exactly the candidates of unused tenants |
| PruneUsers.LastDelete | cmd/prune-users/main.go:119-131 | after the first three deletes, deleting the users gives the pruned database: no order, cart, preference or profile loses its user |
| PruneUsers.NothingRefers | cmd/prune-users/main.go:119-131 | nothing forbids the last delete: addresses, loyalty accounts and role assignments are the references that could |
| PruneUsers.UsersFirstRefusedIff | cmd/prune-users/main.go:119-131 | users could not go first exactly when a removable one has a role assignment |

## Left out

- Order, payment, fee, loyalty and delivery services, application wiring, configuration and the HTTP server: separate code with its own rules.
- `CAFE_RESET_DB` in `cmd/migrate`: taken to be off, since it drops the whole schema on purpose.
- Database connection pooling in `cmd/migrate` beyond losing a session.
- Hooks that call the next mutator more than once or substitute another mutation object.
- The other generated entities and the update and delete builders: the same templates again.
- `CartItemCreate.createSpec` and its checks: the template modelled for carts in `CartCreation`.
- What `sqlgraph` does with the items edge of a new cart beyond carrying it in the spec.
- `CartItemQuery.sqlAll` with its own edge, and edges requested inside an edge query: the template modelled in `CartQueries.CartQuery.All`.
- Selecting a column that does not exist: `prepareQuery` refuses it before the query runs.
- Named edges, interceptors, ordering and grouping of queries; the order and conditions of a query are folded into the rows it is given.
- SQL text, drivers and wire formats.
- `upsertTenantSettings` and `seedRateLimitConfigs`: the keyed upserts proved for the other tables.
- `seedPlatformAdminForCodevertex` and the demo settings, which run outside `runSeed`.
- The error of the grant delete in `seedOrderingRoles` is ignored as in the code; in the model it aborts the transaction like every failed statement.
- Concurrent writers during seeding and pruning: the snapshot is taken to be stable.
- Creation and update times, and the row ids of junction tables, in the seeded tables.
- Tenant slugs in the report of `cmd/prune-users`: they only go to the log.
- CartEntity.ReadRow: column names are an enumeration plus aliases rather than strings.
- CartItemEntity.ReadRow: assumes a decode-of-encode law for documents, which Go's JSON keeps for decoded documents but not for every Go value.
- BulkCreate.AllOrNothing: says which builder filled a slot only when no builder is passed twice, and is about hooks that pass, edit or abort; what other hooks do is in `BulkCreate.FailedWithRowsIff` and `BulkCreate.FailureLeavesNothing`.
- ItemUpsert.UpsertBulk.SaveNewValues: is about builders without hooks; the chain with hooks is `BulkCreate`.
- MigrationProtocol.Deployment.CreateTables: whether Schema.Create also adds the declared index to an existing table is a parameter, which `MigrationProtocol.SchemaDeclares` fixes as the schema has it.
- The lock statement of `cmd/migrate` being granted just as the context runs out: the process then exits, and its session and the lock go with it.
- ItemUpsert.UpsertBulk.Update, ItemUpsert.UpsertBulk.Ignore, ItemUpsert.UpsertBulk.UpdateNewValues: they only append options; what the options mean is in `ItemUpsert.UpsertBulk.Resolve` and its lemmas.
