# Stock ledger, query cache and connection pool

A Dafny model of the database layer and the stock tasks of the warehouse server, and proofs about it. `dafny verify
dfyconfig.toml` checks everything.

There are three cores and the code that joins them.

**The stock ledger.** `Tables` has the tables the stock tasks use, as one value: keys, column ranges, and the two
triggers that log an operation for each invoice item. `WarehouseItems` and `Tasks` are ChangeCount and the three tasks,
as methods on the view of one transaction (`Sessions`), each proved against a function of that view. `ChangeEffect`
shows that ChangeCount's read-all-then-write equals the one-by-one form, and `Outcomes` when a task succeeds.
`Isolation` is the database as the tasks' environment: transactions begin on a snapshot, read their snapshot and their
own writes, write a stock row only if nobody holds it and its committed version is the one they saw, and publish at
commit, in any interleaving (repeatable read as described in section 13.2.2 of the PostgreSQL 16 documentation);
`Progress` shows that it lets tasks commit. `Rebase` has the argument that makes this serial: a task writes every stock
row it reads. `Ledger`, `Conservation` (over the sums in `Totals`) and `Invoices` prove what follows for every run: the
stock table is the operation log added up, goods are conserved, invoices record what was asked, and reports show the
log. `Bookings` says row by row what a task puts into items, stock and log. `Deliveries` is a run with all its tables
written out, `Overdraft` one in which stock and log part.

**The prepared-query cache.** `Conditions` and `Queries` print conditions and queries with placeholders, `Serializing`
and `QuerySerializing` do so as the source does, with a shared counter and loops. `Parsing` reads the text back;
`Meanings` evaluates the tree and the parsed text in three-valued logic, which is two-valued where nothing is NULL and
otherwise claims only what holds whatever the NULLs stand for. `Conjunctions` decides when one AND implies another under
a given order of values, and `Faithfulness` when a value sent as NULL spoils a condition. `Equality` and `QueryEquality`
compare Equals with equality of texts. `StockQueries` joins this core with the first: the texts and parameters
ChangeCount sends read and change exactly the rows that the stock model does. `Filters` is the condition built from user
filters and `RawQuery` the shift of placeholders in a given text. `Registry` is what the query manager keeps, as a log
of requests, and `Storages` the manager itself with its vectors; `Iterating` is the k-way merge over them, and
`Connections` prepares queries on connections and chooses between running by id and by text.

**The connection pool.** `Pools` has the pool with its counters in 32- and 64-bit words, and the proxy that owns a
connection.

**Transactions.** `Execution` interprets the tree of entries and retries on serialization conflicts; the environment
says of each commit what it reported and whether it took effect. `Retries` follows the parameters of prebuilt queries
through the retries of any tree, the three tasks in particular.

Where the source changes an object the model has a class or a method with loops; these methods are proved equal to
functions of the old state, and the lemmas are about those functions.

## What does not hold

These properties fail for the code as written; each has its exact condition or a concrete case.

- A reduce by more than the stock empties the row and succeeds. The log and the stock then differ by the shortfall;
  they agree if and only if no committed reduce was over-drawn (`Ledger.EveryRunBalances`), and `Overdraft` has a run
  that is. The server does not check; the front end does, when it knows the maximum
  (front/src/master_menus/ProductEdit.js:71).
- A commit whose answer is lost may have taken effect although Execute returns ERROR (`Execution.OneEffectAtMost`,
  `Execution.ErrorMayHaveCommitted`). With no entry Execute returns SUCCESS without a commit.
- Running a prebuilt query hands its parameters over, so a retry after a serialization conflict can succeed only by a way
  that takes none of those that had run (`Retries.RetryCanSucceedIff`); a task without conditions has no other way
  (`Retries.LineRetryIff`). A Move or Remove never succeeds in a retry; a Create exactly when the conflict came from its
  first ChangeCount.
- Equals ignores AND/OR and the direction of ORDER BY (`Equality.EqualsIgnoresTheLink`,
  `QueryEquality.EqualsIgnoresTheDirection`): a request then reuses the id of another text, exactly when the two do not
  agree on those (`Registry.SameText`, `Connections.EveryEntryRunsItsOwnIff`). A negation is Equal to nothing
  (`Equality.NegationNeverEquals`).
- A join that names the query's own table and one that leaves it out print the same text but are not Equal
  (`QueryEquality.EqualsSeesTheOwnTable`); the cache then prepares the same text twice. The exact relation is
  `QueryEquality.SameTextIffSameQuery`.
- A query that cannot be serialised is stored all the same when its request is not traced; preparing it throws and it
  stays missing, as a statement does that the server refuses to prepare (`Connections.RefreshNeverReturns`).
- A value that renders as the text NULL is sent as NULL. When an AND then selects other rows is
  `Faithfulness.SelectsSameIff`, for any given order of values; a single =, >= or <= or list of values always does so
  (`Faithfulness.ComparedOnceLawfully`, `Faithfulness.InFaithfulIff`), a larger one may not
  (`Faithfulness.NullMayNotMatter`, `Faithfulness.NullMayBeMasked`).
- A filter with a string that is neither a timestamp nor an equality with NULL is dropped; when that changes the rows
  selected is `Filters.MeansAsAskedIff`, for any given order of values.
- Raw queries are shifted correctly if and only if their placeholders are numbered in textual order and none of the
  texts between them, such as a literal, holds the one looked for there (`RawQuery.ShiftsIffInOrder`).
- A resize does not count busy connections (`Pools.ResizeForgetsTheBusy`). It is right exactly under the condition of
  `Pools.ResizeRightIff`: growth by 2^31 or more is taken for a cut, and some cuts from such sizes go wrong as well
  (`Pools.SecondResizeFails`).
- A change of settings drops the free connections only: one that is out comes back with the settings of old and is handed
  out again (`Pools.ResetForgetsTheFree`, `Pools.ResetForgetsNotTheBusy`).
- The unit test of UPDATE (back/services/db_connector/test/test_update_query.cpp) expects brackets around the SET list;
  the code prints none, and the model follows the code.

## Model

| member | source | states |
|---|---|---|
| WarehouseItems.ChangeCount | back/components/task_manager/source/tasks/include/tasks/common/warehouse_item.h:83-236 | the read loop, the batch delete or insert and the updates, run on the view of a transaction, give the view and the fault of `Change` for every product list, repeated products included |
| WarehouseItems.UpdateEach | back/components/task_manager/source/tasks/include/tasks/common/warehouse_item.h:206-235 | the updates run in order on the changing view and stop at the first fault |
| ChangeEffect.ChangeIsPointwise | back/components/task_manager/source/tasks/include/tasks/common/warehouse_item.h:98-150 | on distinct products the whole of ChangeCount succeeds exactly when every product can be changed alone, and then each product's row and no other is rewritten: emptied by a reduce of at least the stock, otherwise stock plus or minus the count |
| ChangeEffect.BatchIsOneByOneInAnyOrder | back/components/task_manager/source/tasks/include/tasks/common/warehouse_item.h:110-235 | reading everything first and writing in one batch equals changing the products one by one, each seeing the earlier ones, in any order |
| Rebase.ListedDistinct | back/services/db_connector/source/db_manager/source/scripts/initialize_tables.h:184-185 | the key of the invoice items makes the product ids of every successful task distinct |
| Rebase.RunRebases | back/components/task_manager/source/tasks/include/tasks/common/warehouse_item.h:110-235 | a successful task writes every stock row it reads; replayed on any later state on which those rows are unchanged it succeeds again, and its effect is its own rows merged into that state |
| Tasks.FullInsert | back/components/task_manager/source/tasks/include/tasks/common/invoice.h:43-68 | the invoice row and then its items, or the first fault |
| Tasks.ProductsCreate.ConvertIds | back/components/task_manager/source/tasks/protocol/products_create/products_create.cpp:140-153 | the existing products stay in front; behind them the i-th new product has the i-th generated id and its own count, and so have the new products kept for the later insert |
| Tasks.ProductsCreate.CreateInvoiceProducts | back/components/task_manager/source/tasks/protocol/products_create/products_create.cpp:128-178 | the whole chain: expand existing stock, insert products, convert ids, insert the invoice over all products, insert stock of the new ones; afterwards the product list is the existing followed by the new products; an empty list of new products fails before anything runs |
| Tasks.MoveInvoiceProducts | back/components/task_manager/source/tasks/protocol/products_move/products_move.cpp:98-130 | invoice, then reduce, then expand, each on the view left by the one before |
| Tasks.RemoveInvoiceProducts | back/components/task_manager/source/tasks/protocol/products_remove/products_remove.cpp:96-124 | invoice, then reduce |
| Bookings.CreateGivesEach | back/components/task_manager/source/tasks/protocol/products_create/products_create.cpp:140-172 | every successful Create leaves the i-th requested count on its invoice and in the warehouse under the i-th generated id, for a product that was not there before |
| Outcomes.ChangeFault | back/components/task_manager/source/tasks/include/tasks/common/warehouse_item.h:136-139 | ChangeCount, for any list, violates integrity only over a missing key or a repeated product, and meets another error only over a count that does not fit |
| Outcomes.TaskOutcome | back/services/db_connector/source/db_manager/source/scripts/initialize_tables.h:181-245 | each of the three tasks succeeds exactly when the keys are met (a fresh invoice between known warehouses, known products listed once, new ids for new products, a stock row for all that is taken) and the form is (something listed, every count fits before and after); a violation means that the keys are not met, any other error that the form is not |
| Isolation.CommitIsSerial | back/services/db_connector/include/db_connector/accessor.h:27 | a transaction that holds every row it wrote commits exactly what its task would have done alone on the latest committed state |
| Isolation.EveryRunKeeps | back/services/db_connector/include/db_connector/accessor.h:27 | every event of every interleaving keeps the invariant: versions tell contents, locks are disjoint, generated ids are unused, the committed tables are the replayed history |
| Isolation.EveryRunIsSerial | back/services/db_connector/include/db_connector/accessor.h:27 | under every interleaving of Create, Move and Remove the committed tables equal running the committed tasks one at a time in commit order |
| Progress.EveryTaskCanCommit | back/services/db_connector/source/transaction/source/transaction.cpp:56-66 | after any run that leaves no transaction open, a task that succeeds on the committed tables can be run to its commit and leaves exactly its outcome: the protocol is not safe by refusing everything |
| Deliveries.KeyedTaskCommits | back/services/db_connector/source/transaction/source/transaction.cpp:56-66 | in any reachable state without open transactions a task that meets both can be run to its commit |
| Deliveries.MoveCommits | back/components/task_manager/source/tasks/protocol/products_move/products_move.cpp:98-130 | a run that commits a Create of two products and a Move, with all tables it ends with written out |
| Ledger.RunIsPointwise | back/components/task_manager/source/tasks/include/tasks/common/warehouse_item.h:98-108 | a whole task changes each stock row by itself: what becomes of a row depends on that row and the task alone |
| Ledger.OperationsAppended | back/services/db_connector/source/db_manager/source/scripts/initialize_tables.h:252-282 | a task appends the operations of its items, its items and its invoice, and changes no other table but the products |
| Bookings.OperationsInOrder | back/services/db_connector/source/db_manager/source/scripts/initialize_tables.h:252-282 | item by item, the operation at minus the warehouse taken from before the one at the warehouse brought to, under the task's invoice and with the item's product and count |
| Bookings.EveryRunLogsItsItems | back/services/db_connector/source/db_manager/source/scripts/initialize_tables.h:252-282 | in every reachable state the log is what invoices and items say: for each item of each invoice one operation at minus the one end and one at the other, under that invoice, with its product and count, and none besides |
| Ledger.TaskBalances | back/components/task_manager/source/tasks/include/tasks/common/warehouse_item.h:98-108 | stock after a task is stock before, plus what the invoice books, plus what a reduce took beyond the stock |
| Ledger.ShortfallMeansOverdrawn | back/components/task_manager/source/tasks/include/tasks/common/warehouse_item.h:98-102 | the accumulated shortfall is never negative, and it is zero exactly when no committed reduce asked for more of the product than the warehouse held |
| Ledger.EveryRunBalances | back/services/db_connector/source/db_manager/source/scripts/initialize_tables.h:252-282 | in every reachable state stock equals the signed total of the operation log plus the shortfalls, and equals the log exactly if and only if no committed reduce was over-drawn |
| Overdraft.StockPartsFromLog | back/components/task_manager/source/tasks/include/tasks/common/warehouse_item.h:100-102 | a run exists in which stock and log part: one piece of a new product is brought in, two are taken |
| Ledger.EveryRunStaysPositive | back/components/task_manager/source/tasks/include/tasks/common/warehouse_item.h:98-150 | with positive requests every row has a positive count in every reachable state, so a row exists exactly when there is stock |
| Conservation.TaskConserves | back/components/task_manager/source/tasks/protocol/products_move/products_move.cpp:109-122 | the total over all warehouses changes by the count on Create, minus the count on Remove and zero on Move (also onto the same warehouse), except for the shortfall of an over-drawn reduce |
| Conservation.EveryRunConserves | back/components/task_manager/source/tasks/protocol/products_create/products_create.cpp:155-174 | in every run the company's stock of a product is what the committed requests brought minus what they took, plus what reduces took beyond the stock; it is just brought minus taken if and only if no warehouse was over-drawn |
| Invoices.CreateNeverCollides | back/components/task_manager/source/tasks/protocol/products_create/products_create.cpp:164-166 | once the earlier steps of a Create succeed, the final stock insert succeeds: the new ids have no rows |
| Invoices.EveryCreateEndsWell | back/components/task_manager/source/tasks/protocol/products_create/products_create.cpp:164-172 | the same on every snapshot any run can reach |
| Invoices.EveryRunRecords | back/components/task_manager/source/tasks/include/tasks/common/invoice.h:196-227 | after every run the invoice of each committed task has the right warehouses and lists exactly its products with the requested counts; no later task changes it |
| Bookings.EveryRunListsExactly | back/components/task_manager/source/tasks/include/tasks/common/invoice.h:196-227 | after every run a committed task's invoice lists a product with a count exactly when the task asked for that, the new products of a Create by their generated ids |
| Bookings.EveryCreateStocks | back/components/task_manager/source/tasks/protocol/products_create/products_create.cpp:164-166 | at the moment a Create commits the stock holds the i-th requested count under the i-th generated id |
| Invoices.SelectByWarehouse | back/components/task_manager/source/tasks/include/tasks/common/warehouse_item.h:270-279 | filling the product map from the selected rows, in whatever order they come, gives the stock of the warehouse |
| Invoices.EveryReportIsTheLog | back/components/task_manager/source/tasks/protocol/reports_current/reports_current.cpp:292-295 | with positive requests and no over-draw there is no report (NOT_FOUND) exactly when every log total of the warehouse is zero; otherwise the report shows each product's log total, leaves out those with total zero, and every product it shows is in the catalogue |
| Serializing.ToString | back/services/db_connector/include/db_connector/query/condition.h:113-347 | prints the text of the condition tree from the current placeholder, advances the counter by the number of parameters, and fails exactly on the trees the source throws on |
| Conditions.PrintableIff | back/services/db_connector/include/db_connector/query/condition.h:113-335 | serialising a condition throws exactly when an empty group, an empty list of values, a negation of nothing or a NULL test of the invalid column stands anywhere in it |
| Serializing.CollectParams | back/services/db_connector/include/db_connector/query/condition.h:130-136 | appends the values of the tree in placeholder order |
| Serializing.ValueCollector.ToPqxx | back/services/db_connector/include/db_connector/value_collector.h:41-62 | hands over all values in order, NULL for the text NULL, and keeps none |
| Serializing.ValueCollector.ExtractTo | back/services/db_connector/include/db_connector/value_collector.h:67-70 | moves all values behind those of the other collector and keeps none |
| Conditions.ReadsWhatWasPut | back/services/db_connector/include/db_connector/query/condition.h:113-347 | a parser of the generated SQL reads back from the text exactly the printed tree, its placeholders, and what follows |
| Meanings.MarksAreConsecutive | back/services/db_connector/include/db_connector/query/condition.h:169-274 | the placeholders from left to right are k, k+1, ..., one for each parameter |
| Meanings.TextMeansTheTree | back/services/db_connector/include/db_connector/query/condition.h:108-347 | with the parameters bound, whatever others stand before and after, the parsed text evaluates on every row like the tree, in three-valued logic, when no value renders as the text NULL |
| Conjunctions.ImpliesIff | back/services/db_connector/include/db_connector/query/condition.h:113-215 | one conjunction implies another, in a database that orders values in any given way, if and only if no value of some column meets it or it does so column by column |
| Faithfulness.SelectsSameIff | back/services/db_connector/include/db_connector/value_collector.h:49-56 | under any order of values the text of an AND-only condition without negations selects the rows that meet the tree if and only if no row meets it, or every part as sent, its NULLs equal to nothing, is true of each value that meets the parts on its column |
| Faithfulness.ComparisonsFaithfulIff | back/services/db_connector/include/db_connector/value_collector.h:49-56 | under any order of values an AND-only tree of comparisons and NULL tests selects the right rows if and only if none of its values renders as the text NULL, or no value of some column meets the parts on it |
| Faithfulness.ComparedOnceLawfully | back/services/db_connector/include/db_connector/value_collector.h:49-56 | in every order a database can have (`Conjunctions.Lawful`; `TextOrderIsLawful` gives one), with each column compared once by =, >= or <= or tested for NULL: exactly when no value renders as NULL |
| Faithfulness.NullMayNotMatter | back/services/db_connector/include/db_connector/value_collector.h:49-56 | an AND that sends NULL and yet selects the same in every lawful order, because it asks a column for two values |
| Faithfulness.InFaithfulIff | back/services/db_connector/include/db_connector/value_collector.h:49-56 | where equal means the same value, a list of alternatives selects the right rows, and means the same on every row, if and only if none of them renders as the text NULL |
| Faithfulness.NullMayBeMasked | back/services/db_connector/include/db_connector/value_collector.h:49-56 | an AND of two INs that sends NULL and yet means the same on every row under every order |
| Equality.SameTextIffEqual | back/services/db_connector/include/db_connector/query/condition.h:140-163 | without negations two conditions print the same text exactly when they are Equal and link their groups alike |
| Equality.EqualsIsAnEquivalence | back/services/db_connector/include/db_connector/query/condition.h:140-163 | on all conditions Equals is symmetric and transitive, and reflexive exactly on those without negations |
| Equality.NegationNeverEquals | back/services/db_connector/include/db_connector/query/condition.h:298-308 | a condition with a negation in it is Equal to nothing, itself included |
| Equality.EqualsIgnoresTheLink | back/services/db_connector/include/db_connector/query/condition.h:140-163 | two Equal groups with different texts, one AND, one OR |
| QuerySerializing.SerializeParametrized | back/services/db_connector/include/db_connector/query/select_query_params.h:27-107 | prints every SELECT, INSERT, UPDATE and DELETE from the current placeholder and advances the counter by the number of its parameters, or fails exactly where the source throws |
| QuerySerializing.InsertToString | back/services/db_connector/include/db_connector/query/insert_query_params.h:26-70 | row-major placeholders in nested loops give the text of the INSERT |
| QuerySerializing.UpdateToString | back/services/db_connector/include/db_connector/query/update_query_params.h:27-50 | the SET columns take the first placeholders, the condition the following |
| QuerySerializing.DeleteToString | back/services/db_connector/include/db_connector/query/delete_query_params.h:25-37 | the text of the DELETE, or no text without a condition |
| Queries.SerializableIff | back/services/db_connector/include/db_connector/query/update_query_params.h:27-50 | a query is refused exactly when its table is invalid, an UPDATE has no columns, an UPDATE or DELETE no condition, or some condition in it is refused |
| Parsing.ReadsStatement | back/services/db_connector/include/db_connector/query/select_query_params.h:27-107 | a parser reads back from every serialised query the statement its options describe, so the printer is injective on structure |
| Parsing.SelectSays | back/services/db_connector/include/db_connector/query/select_query_params.h:27-107 | the parsed SELECT part by part: a column is qualified by the query's table exactly when some join has it on its left; a join pairs its left column, of its own or the query's table, with the joining table's column; condition, order, limit and offset are the options' |
| Parsing.InsertSays | back/services/db_connector/include/db_connector/query/insert_query_params.h:26-70 | the parsed INSERT has the options' columns and returned columns, and the placeholders follow each other row after row |
| Parsing.UpdateSays | back/services/db_connector/include/db_connector/query/update_query_params.h:27-50 | the parsed UPDATE sets the options' columns from the first placeholders; those of its condition follow |
| Parsing.DeleteSays | back/services/db_connector/include/db_connector/query/delete_query_params.h:25-37 | the parsed DELETE has the options' table and condition |
| QuerySerializing.InsertQuery | back/services/db_connector/source/query/source/query/insert_query.cpp:13-33 | refuses an empty list and rows of the wrong size; otherwise the query's parameters are the rows one after the other and its row count is set |
| QuerySerializing.UpdateQuery | back/services/db_connector/source/query/source/query/update_query.cpp:12-22 | refuses a wrong number of values or a missing condition; otherwise the parameters are the SET values and then those of the condition |
| QuerySerializing.SelectQuery | back/services/db_connector/source/query/source/query/select_query.cpp:12-46 | the parameters are those of the condition |
| QuerySerializing.DeleteQuery | back/services/db_connector/source/query/source/query/delete_query.cpp:12-48 | the parameters are those of the condition, which must exist |
| QuerySerializing.SendsOnePerPlaceholder | back/services/db_connector/source/query/source/query/insert_query.cpp:19-32 | every built query sends exactly one parameter for each placeholder of its text |
| QueryEquality.UpdateAligns | back/services/db_connector/include/db_connector/query/update_query_params.h:38-50 | reading back an UPDATE, every column is set to its own value and the condition means what it should, for any number of columns and any condition |
| QueryEquality.InsertAligns | back/services/db_connector/include/db_connector/query/insert_query_params.h:43-59 | reading back an INSERT, column j of row i receives value j of row i, and no parameter is left over |
| QueryEquality.WhereAligns | back/services/db_connector/include/db_connector/query/select_query_params.h:83-86 | reading back a SELECT or DELETE, the condition with the sent parameters means what it should |
| QueryEquality.EqualSerializesSame | back/services/db_connector/include/db_connector/query/select_query_params.h:109-122 | options that are Equal and agree on links and direction serialise to the same text |
| QueryEquality.SameTextIffSameQuery | back/services/db_connector/include/db_connector/query/select_query_params.h:109-122 | two queries without negations serialise to the same text exactly when they are Equal, once every join names its table, and agree on links and direction |
| QueryEquality.EqualsAgreesIff | back/services/db_connector/include/db_connector/query/select_query_params.h:109-122 | Equals itself tells the same as the text exactly where it does not depend on whether joins spell out the query's own table; in particular when none does |
| QueryEquality.EqualsIgnoresTheDirection | back/services/db_connector/include/db_connector/query/select_query_params.h:118-121 | two Equal selects with different texts, one ascending, one descending |
| QueryEquality.EqualsSeesTheOwnTable | back/services/db_connector/include/db_connector/query/select_query_params.h:72-81 | two selects with the same text that are not Equal: a join names the query's own table or leaves it out |
| RawQuery.RawToString | back/services/db_connector/source/query/source/query/raw_query.cpp:36-90 | the search loop over both counters replaces the placeholders it finds in order, terminates, and advances the counter by their number; from $1 the text is unchanged |
| RawQuery.ShiftsIffInOrder | back/services/db_connector/source/query/source/query/raw_query.cpp:49-69 | whatever stands between the placeholders, literals with dollars included: the shift moves every $i to $(i+k-1) and changes nothing else if and only if the placeholders are numbered $1, $2, ... in the order of the text and no stretch between them holds the one looked for there; $1 as a prefix of $10 included |
| RawQuery.PlainIsClear | back/services/db_connector/source/query/source/query/raw_query.cpp:49-69 | where only the placeholders have a dollar, the second condition holds |
| RawQuery.ReplacesAll | back/services/db_connector/source/query/source/query/raw_query.cpp:53-69 | on such a text the counter advances by the number of placeholders |
| StockQueries.ReadSelects | back/components/task_manager/source/tasks/include/tasks/common/warehouse_item.h:115-134 | the read selects the count from the stock table, of exactly the row of its product and warehouse |
| StockQueries.DeleteRemoves | back/components/task_manager/source/tasks/include/tasks/common/warehouse_item.h:159-177 | the batch delete is of the stock table and removes exactly the rows the stock model deletes |
| StockQueries.InsertPuts | back/components/task_manager/source/tasks/include/tasks/common/warehouse_item.h:178-202 | the batch insert is into the stock table and puts exactly the rows the stock model inserts |
| StockQueries.UpdateSets | back/components/task_manager/source/tasks/include/tasks/common/warehouse_item.h:212-233 | the update is of the stock table and sets the count, of exactly the row of its product and warehouse |
| Filters.ParseFilters | back/components/task_manager/source/tasks/include/tasks/common/filter.h:22-71 | a flat AND of what the filters ask for in order, or nothing when one is malformed |
| Filters.SignsMatch | back/services/db_connector/include/db_connector/query/condition.h:64-78 | a sign is read as the comparison that prints as that sign, for all but inequality, which no sign asks for |
| Filters.FiltersPrint | back/components/task_manager/source/tasks/include/tasks/common/filter.h:38-61 | the text shows the column and the sign of each kept filter in their order, the parameters are their values, and kept are those that ask for NULL or have a number or a timestamp |
| Filters.FiltersMeanAll | back/components/task_manager/source/tasks/include/tasks/common/filter.h:38-61 | a row meets the condition exactly when it is as every kept filter asks; the condition is AND-only and free of negations |
| Filters.MeansAsAskedIff | back/components/task_manager/source/tasks/include/tasks/common/filter.h:48-61 | under any given order of values the condition selects what the filters ask for if and only if no value of some column meets the kept filters on it, or every value that meets the kept filters on its column meets each filter |
| Filters.DroppedAloneIsLost | back/components/task_manager/source/tasks/include/tasks/common/filter.h:48-61 | a dropped filter on a column without kept ones is missed if and only if the kept ones can be met |
| Filters.SaidAgainIsEnough | back/components/task_manager/source/tasks/include/tasks/common/filter.h:48-61 | dropped filters that kept ones say again are not missed |
| Filters.AskingTooMuch | back/components/task_manager/source/tasks/include/tasks/common/filter.h:38-61 | nor are any when the kept ones ask a column for two values, or for NULL and a comparison |
| Filters.FiltersPrintableIff | back/components/task_manager/source/tasks/include/tasks/common/filter.h:36-63 | the condition can be serialised exactly when some filter asks for something and none asks whether the invalid column is NULL |
| Storages.QueryManager.GetOrSupportQueryId | back/services/db_connector/source/query/source/query_manager.cpp:40-97 | the id of the first stored query Equal to the request among all kinds, although only one kind is searched, or the next id; a request whose trace line throws uses up an id and stores nothing |
| Registry.RegisterGives | back/services/db_connector/source/query/source/query_manager.cpp:40-97 | a request throws exactly when tracing has to serialise a new query that cannot be; else its id is that of the first stored query Equal to it, or the next one, under which it is stored |
| Registry.SameText | back/services/db_connector/source/query/source/query_manager.cpp:55-69 | reusing the id of an Equal query runs the request's own text if and only if the two agree on links and direction |
| Registry.SameIdIffSame | back/services/db_connector/source/query/source/query_manager.cpp:40-97 | a request gets the id that an earlier one got if and only if it is Equal to it, whatever was requested before and between: any queries, traced or not |
| Registry.RegisterAllKeepsDistinct | back/services/db_connector/source/query/source/query_manager.cpp:40-97 | stored queries stay pairwise unequal and ids once given stay |
| Registry.NegationIsNeverReused | back/services/db_connector/include/db_connector/query/condition.h:298-308 | a query with a negation gets a new id every time |
| Iterating.QueriesIterator.GetBorderElement | back/services/db_connector/source/query/source/queries_iterator_internal.h:134-157 | the border cursor comes before all others; an exhausted one is chosen only when all are, and then always the same |
| Iterating.QueriesIterator.constructor | back/services/db_connector/source/query/source/queries_iterator_internal.h:159-193 | starts at the first entry, or at the end |
| Iterating.QueriesIterator.Next | back/services/db_connector/source/query/source/queries_iterator_internal.h:201-209 | moves from the i-th id to the next, from the last to the end |
| Iterating.QueriesIterator.Equals | back/services/db_connector/source/query/source/queries_iterator_internal.h:211-215 | true exactly when both show the same entry or both are at the end |
| Iterating.QueriesIterator.BorderIsNext | back/services/db_connector/source/query/source/queries_iterator_internal.h:83-157 | with entries left the border element is the next id in order and only its cursor moves |
| Iterating.Walk | back/services/db_connector/source/query/source/queries_lock.cpp:14-32 | over every storage registering can reach, the merge shows every id exactly once, ascending or descending, each with its own query, and ends |
| Iterating.WalkedIsStored | back/services/db_connector/source/query/source/queries_lock.cpp:14-32 | what the walk over the storage of registered queries shows is what the log stores, in order of ids |
| Connections.Connection.RefreshSupportedQueries | back/services/db_connector/source/connection/source/connection.cpp:21-43 | walks in reverse down to the last supported id and prepares what it passes until the server refuses; the last supported id moves on in any case |
| Connections.RefreshKeepsReady | back/services/db_connector/source/connection/source/connection.cpp:30-42 | a refresh succeeds, and leaves exactly the ids up to the last one prepared, if and only if the server refuses none of the missing ones |
| Connections.RefreshNeverReturns | back/services/db_connector/source/connection/source/connection.cpp:33-34 | a statement refused once is missing for good: no later refresh returns to its id |
| Connections.CreateQueryTransactionEntry | back/services/db_connector/source/transaction/source/entries/transaction_entry_factory.cpp:29-54 | for any query: drains it and gives the entry by id, after registering and refreshing if the connection does not know the id, or the entry by text, or throws where serialising does |
| Connections.EveryRunPrepares | back/services/db_connector/source/connection/source/connection.cpp:21-43 | registering, refreshing and running interleave on many connections: each prepared statement keeps the text of its id, and an entry given out finds the same statement in every later state |
| Connections.EveryEntryRunsItsOwnIff | back/services/db_connector/source/transaction/source/entries/transaction_entry_factory.cpp:35-46 | after any run, whatever was asked or refused, an entry given out earlier runs with its own parameters a query its own is Equal to, or does not run; it runs its own text if and only if the two agree on links and direction |
| Connections.EveryEntryRunsItsText | back/services/db_connector/source/transaction/source/entries/transaction_entry_factory.cpp:29-54 | while only AND-only ascending queries are asked for and nothing is refused, every entry given out runs in every later state what the uncached one runs, and each connection has prepared exactly the ids up to its last one |
| Connections.RefreshedEntryRuns | back/services/db_connector/source/transaction/source/entries/transaction_entry_factory.cpp:38-44 | an entry whose refresh succeeded is prepared, whatever had been refused before |
| Pools.ConnectionPool.SetConnectionsCount | back/services/db_connector/source/connection/source/connection_pool.cpp:124-159 | the resize in its own 32- and 64-bit words, the one undefined negation apart |
| Pools.ResizeRightIff | back/services/db_connector/source/connection/source/connection_pool.cpp:124-159 | free' = min(free, n), to-create' = n - free', to-delete unchanged, for every n and every pool whose counters are in their widths, if and only if `CountsRight`, a test on n, the number of free connections and the two words the code computes first |
| Pools.ResizeRightInNumbers | back/services/db_connector/source/connection/source/connection_pool.cpp:124-159 | the condition in numbers: with T = free + to-create, n < T + 2^31 and, when n < T, either T - n < 2^31 and n <= |free| + 2^31, or T - n > 2^31 and n >= |free| |
| Pools.SecondResizeFails | back/services/db_connector/source/connection/source/connection_pool.cpp:124-159 | from 4 to create, a resize to 2^31 + 3 is right and a following one to 2^31 + 2 is not, although the growth is small |
| Pools.ResizeKeepsTheFirst | back/services/db_connector/source/connection/source/connection_pool.cpp:146-152 | for all pools and counts: the free connections that remain are the first, and none that is out is touched |
| Pools.ConnectionPool.GetConnection | back/services/db_connector/source/connection/source/connection_pool.cpp:64-100 | takes the last free connection, or creates one under the quota, or one to be deleted; a failed creation changes nothing |
| Pools.ConnectionPool.ReturnConnection | back/services/db_connector/source/connection/source/connection_pool.cpp:102-122 | abandons the connection while some are to be deleted, else frees it |
| Pools.GiveThenTake | back/services/db_connector/source/connection/source/connection_pool.cpp:70-79 | a connection given back to the free ones is the next to be handed out, and the pool is as before |
| Pools.ConnectionPool.SetSettings | back/services/db_connector/source/connection/source/connection_pool.cpp:42-62 | new settings turn free connections into connections to create; then the resize |
| Pools.ResetForgetsTheFree | back/services/db_connector/source/connection/source/connection_pool.cpp:46-54 | in every run after a change of settings only connections made since, or out when it happened, are free or out |
| Pools.ResetForgetsNotTheBusy | back/services/db_connector/source/connection/source/connection_pool.cpp:102-122 | one that was out then, with the settings of old, is handed out again once it is given back |
| Pools.ConnectionProxy.Move | back/services/db_connector/source/connection/include/connection/connection_pool.h:31 | a moved-from proxy owns nothing |
| Pools.ConnectionProxy.Destroy | back/services/db_connector/source/connection/include/connection/connection_pool.h:64-70 | an owner gives its connection back, a moved-from proxy does nothing |
| Pools.EveryRunImplementsTheQuota | back/services/db_connector/source/connection/source/connection_pool.cpp:42-122 | in every run with O connections out: free + to-create = max(0, Q-O), to-delete = max(0, O-Q), open connections at most max(Q, O), and no connection has two owners |
| Pools.ResizeStarts | back/services/db_connector/source/connection/source/connection_pool.cpp:124-159 | a resize to n with nothing outstanding starts such a run with quota n |
| Pools.ResizeForgetsTheBusy | back/services/db_connector/source/connection/source/connection_pool.h:48 | after a resize to n the counters add up to n plus O minus to-delete, which is n if and only if nothing is out or the old quota was zero |
| Pools.EveryRunKeepsItsQuota | back/services/db_connector/source/connection/source/connection_pool.cpp:42-122 | whatever the counters add up to, gets, returns and resets do not change it |
| Execution.ExecuteEntry | back/services/db_connector/source/transaction/source/entries/grouped_transaction_entry.cpp:21-29 | a leaf acts, a group executes its entries in order up to the first failure and ignores where they lead, a condition stores its result |
| Execution.RunTree | back/services/db_connector/source/transaction/source/transaction.cpp:56-62 | the interpreter loop, following the branch the stored result chooses |
| Execution.TreeRunsStraight | back/services/db_connector/source/transaction/source/transaction.cpp:56-62 | the tree runs as its flattened straight-line program and stops at the first action that fails |
| Execution.Execute | back/services/db_connector/source/transaction/source/transaction.cpp:39-104 | the retry loop gives the attempts and the result of `Retried`; without an entry SUCCESS and no commit |
| Execution.OneEffectAtMost | back/services/db_connector/source/transaction/source/transaction.cpp:56-104 | when the server is honest (a reported commit took effect, a conflict or violation did not, a lost answer may mean either) at most one commit takes effect over all attempts: one on SUCCESS, none on VIOLATION or NOT_FOUND or when no transaction starts, and one on ERROR if and only if the last attempt's commit took effect unacknowledged |
| Execution.AttemptsAreLimited | back/services/db_connector/source/transaction/source/transaction.cpp:68-99 | at most `commitAttempts` attempts when that is positive, and an answer by then |
| Execution.ErrorMayHaveCommitted | back/services/db_connector/source/transaction/source/transaction.cpp:89-93 | a commit that took effect with its answer lost: Execute returns ERROR |
| Execution.TheLastDecides | back/services/db_connector/source/transaction/source/transaction.cpp:56-104 | all earlier attempts met conflicts; the last decides: SUCCESS exactly if it was done, VIOLATION and NOT_FOUND exactly for those exceptions, ERROR exactly if it was in doubt or broke or was the last conflict allowed; starting no new transaction throws |
| Retries.TreeRunsAsPlanned | back/services/db_connector/source/transaction/source/transaction.cpp:56-62 | every tree of entries, with groups and conditions, runs as a plan of acts and branches |
| Retries.RetryCanSucceedIff | back/services/db_connector/source/transaction/source/entries/cached_query_transaction_entry.cpp:28-38 | for every tree, conditions included: after an attempt the task can still succeed from some state of the tables if and only if, with all parameters in place, it could by a run that takes none of the prebuilt queries which ran in the attempt |
| Retries.LineRetryIff | back/services/db_connector/source/transaction/source/entries/cached_query_transaction_entry.cpp:28-38 | for a task without conditions: if and only if no prebuilt query ran in the attempt |
| Retries.UnsentRetryIsFresh | back/services/db_connector/source/transaction/source/transaction.cpp:68-99 | if none had run, the retry is a fresh attempt from the renewed transaction with every parameter in place |
| Retries.BlockedNeverSucceeds | back/services/db_connector/source/transaction/source/entries/cached_query_transaction_entry.cpp:28-38 | when a prebuilt query without its parameters stands on every way through the tree, no number of attempts succeeds |
| Retries.MoveLine | back/components/task_manager/source/tasks/protocol/products_move/products_move.cpp:98-130 | the tree of a Move runs its five steps one after the other, the prebuilt invoice insert first |
| Retries.RemoveLine | back/components/task_manager/source/tasks/protocol/products_remove/products_remove.cpp:96-124 | the tree of a Remove likewise |
| Retries.CreateLine | back/components/task_manager/source/tasks/protocol/products_create/products_create.cpp:128-178 | the tree of a Create runs ChangeCount before its first prebuilt query |
| Retries.MoveNeverSucceedsLater | back/components/task_manager/source/tasks/protocol/products_move/products_move.cpp:98-130 | a Move succeeds in its first attempt or never |
| Retries.RemoveNeverSucceedsLater | back/components/task_manager/source/tasks/protocol/products_remove/products_remove.cpp:96-124 | a Remove succeeds in its first attempt or never |
| Retries.CreateRetriesIff | back/components/task_manager/source/tasks/protocol/products_create/products_create.cpp:155-174 | after an attempt a Create can succeed later exactly when that attempt failed in its ChangeCount of the existing products |

## Left out

- Isolation.EveryRunIsSerial: a lock wait is an event that cannot happen yet, a deadlock or lost connection is an abort; the identity values of a transaction are chosen when it begins; predicate reads other than by key do not occur in the three tasks.
- Meanings.TextMeansTheTree: one direction for whole trees, because a group may mean the same by accident when a part is never true or always true; `Faithfulness.SelectsSameIff` is exact, as to the rows selected, for AND-only trees without negations.
- Pools.EveryRunImplementsTheQuota: fewer than 2^32 connections are out at a time.
- Connections.EveryEntryRunsItsText: for AND-only ascending queries, as all the application builds are; for any others `Connections.EveryEntryRunsItsOwnIff` says when it holds. Registering and refreshing are each one step, as they are under their locks.
- Retries.RetryCanSucceedIff: a prebuilt query without placeholders would lose nothing; the three tasks have none.
- Pools.ResizeRightIff: fewer than 2^64 free connections.
- Iterating.QueriesIterator.GetBorderElement: the source compares the addresses of two local copies when both cursors are exhausted; the model takes any fixed answer. Past the end the cursor stays.
- Execution.Execute: the environment is a finite script of attempts, so a run that meets conflicts for ever is one that still retries at the end of its script. Entries are values; the objects that own them are not modelled.
- Serializing.ToString: values are kept as rendered text, so the casts between conditions on different value types are not modelled; placeholder counters and query ids are unbounded.
- WarehouseItems.ChangeCount: the sum of a count and the stock is not wrapped at 64 bits; the range of the column, 32 bits, is checked, and leaving it is an error.
- Operation ids, users, dates, names and pretty names of products and invoices, and the foreign keys to users.
- The insert of products in `InsertsEntry` of back/components/task_manager/source/tasks/include/tasks/common/product.h is modelled by the ids it returns, in row order; `SelectEntry` only as far as every reported product exists.
- HTTP, sessions, JSON, logging, report files, the front end and the settings: input and output.
- libpqxx and PostgreSQL: the environment of the model. Creating a connection, preparing and starting a transaction may fail; the parser of the generated SQL stands for the server's.
- ReportsByPeriod, worker queues, dates and hashing: no aggregate to prove or thin.
