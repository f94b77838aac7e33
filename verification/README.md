# Dataset-state reconciliation in lazyBIDS-ui

lazyBIDS-ui is a web front end that registers neuroimaging datasets and
tracks the download task that may be acquiring each one. Whenever the
`/datasets` list handler or the `/dataset_card/{ds_id}` card handler reads
dataset rows, it reconciles each row's `state` with the task queue:

- a row with a task id whose state is already `SUCCESS` or `FAILURE` is left
  alone, and the task queue is not asked;
- a row with a task id and any other state takes the state the task queue
  reports for that id, and the row is added to the session and committed,
  even when the reported state equals the old one;
- a row without a task id (`None` or the empty string, by Python
  truthiness) whose state is not `SUCCESS` is set to `SUCCESS` and committed.

This project models that rule in Dafny and proves what it guarantees.

- `reconciler.dfy`, module `Reconciler`: a row as a value (`Record`), the
  task queue as a function from task id to state (`StatusOracle`), the rule
  as the function `Reconcile`, and what a pass over a list of rows asks the
  task queue (`Queries`) and writes (`Writes`). The lemmas state that only
  `state` changes, that a state reconciliation has left terminal sticks (a
  row without a task stored in `FAILURE` is still forced to `SUCCESS`), that
  the rule is idempotent for a fixed task queue, that a list is reconciled
  row by row, in order and independently, and that once every task the pass
  asks about has finished, one pass settles every row and later passes
  neither ask nor write.
- `handlers.dfy`, module `Handlers`: the handlers as imperative code over
  mutable row objects. `Dataset` is a row loaded into a session,
  `TaskBackend` is the task queue (it logs every task id it is asked about),
  `Session` logs every row it commits. `ListDatasets` loops over the rows of
  an array in place; `ReconcileListed` is one iteration of that loop (the
  `continue` becomes an early return); `DatasetCard` is the card handler's
  copy of the rule. Each is proved against `Reconcile`, `Queries` and
  `Writes`, so the two copies of the rule are proved to agree.

The task queue's answers are a parameter: the model fixes them for the
duration of one handler call.

## Model

| member | source | states |
|---|---|---|
| Reconciler.HasTask | main.py:59 | The truthiness test `if dataset.taskID` (also main.py:67, 84, 92): true only for a present task id, false for `None` and for the empty string |
| Reconciler.IsTerminal | main.py:60 | The test `dataset.state in ['SUCCESS','FAILURE']` (also main.py:85): `SUCCESS` and `FAILURE` are terminal, the backend's `PENDING` and `STARTED` are not |
| Reconciler.Queries | main.py:63 | The sequence of `AsyncResult(taskID).state` calls a pass makes (one per polled row, also main.py:88), in row order; its contract: never more calls than rows (which ids, and in what order, are stated by QueriesExactly and QueriesAppend) |
| Reconciler.Writes | main.py:65-70 | The sequence of `session.add`/`session.commit` pairs a pass makes (also main.py:90-91 and 94-95), each carrying the reconciled row, in row order; its contract: never more writes than rows (which rows, and in what order, are stated by WritesExactly and WritesAppend) |
| Reconciler.Reconcile | main.py:58-70 | Only `state` changes; a row with a task and a terminal state is unchanged; a row with a task and a non-terminal state takes the queue's state for its id; a row without a task ends `SUCCESS` |
| Reconciler.SettledMeansUntouched | main.py:59-70 | A row that is neither polled nor written is exactly one in `SUCCESS`/`FAILURE` with a task or in `SUCCESS` without one, and reconciliation leaves it unchanged |
| Reconciler.ReconcileIdempotent | main.py:59-68 | With the same queue answers, reconciling a row twice gives the same row as once |
| Reconciler.TerminalSticky | main.py:59-70 | Once reconciliation has left a row in `SUCCESS` or `FAILURE`, no later reconciliation changes it, whatever the queue reports later; a row without a task is only ever left in `SUCCESS` |
| Reconciler.NoTaskForcedToSuccess | main.py:67-70 | A row without a task stored in any state other than `SUCCESS`, `FAILURE` included, is changed to `SUCCESS` and written once: a stored terminal state sticks only for a row with a task |
| Reconciler.ReconcileSettles | main.py:59-70 | A row without a task, a row with a task already in `SUCCESS`/`FAILURE` (whatever the queue would report), or a polled row whose task the queue reports terminal, is settled after one reconciliation |
| Reconciler.PolledRowWrittenOnce | main.py:62-66 | A row that is polled causes exactly one query for its task id and exactly one write of the reconciled row, even when the reported state is the old one |
| Reconciler.RowEffects | main.py:59-70 | One row asks the queue about its task id exactly when it needs a poll, and is written, as reconciled, exactly when it needs a write |
| Reconciler.TaskCompletes | main.py:59-66 | Over two reads of a row with a running task: the first asks about its task id once and writes the running state once; the second asks again and writes the terminal state once; any later read neither asks nor writes (the step for any single read is PolledRowWrittenOnce) |
| Reconciler.QueriesExactly | main.py:58-64 | A pass asks about exactly the task ids of the rows that need a poll, never about an empty id, and asks nothing when no row needs a poll |
| Reconciler.WritesExactly | main.py:58-70 | A pass commits exactly the reconciled forms of the rows that need a write, and commits nothing when no row needs one |
| Reconciler.QueriesAreWritten | main.py:62-66 | A pass writes at least as many rows as it asks the queue about |
| Reconciler.ReconcileAll | main.py:57-70 | Reconciling a list keeps its length and order, and row `i` of the result is row `i` of the input reconciled on its own |
| Reconciler.ReconcileAllAppend | main.py:57-70 | Reconciling a concatenation is concatenating the reconciled parts: no row's outcome depends on another row |
| Reconciler.QueriesAppend | main.py:58-64 | The queries of a concatenation are the queries of its parts, in order |
| Reconciler.WritesAppend | main.py:58-70 | The writes of a concatenation are the writes of its parts, in order |
| Reconciler.ReconcileAllIdempotent | main.py:57-70 | With the same queue answers, reconciling a list twice gives the same rows as once |
| Reconciler.OnePassSettles | main.py:57-70 | When the queue reports a terminal state for the task of every row the pass polls (rows already terminal are not asked about and need no such answer), one pass settles every row and a second pass asks nothing, writes nothing and changes nothing |
| Handlers.TaskBackend.TaskState | main.py:63-64 | Returns the queue's state for the task id and records that the id was asked about |
| Handlers.Session.AddAndCommit | main.py:65-66 | Appends the row's current contents to the committed log |
| Handlers.ReconcileListed | main.py:59-70 | One loop iteration leaves the row equal to `Reconcile` of its old contents and extends the query and commit logs by exactly that row's queries and writes |
| Handlers.ListDatasets | main.py:55-70 | The rows of the array become `ReconcileAll` of their old contents, in place and in order; the query log grows by `Queries` and the commit log by `Writes` of the old rows |
| Handlers.DatasetCard | main.py:83-95 | The found row becomes `Reconcile` of its old contents; the logs grow by that row's queries and writes |
| Handlers.CardAgreesWithList | main.py:84-95 | The card handler and one iteration of the list handler, run on the same row and queue, end with the same row, the same queries and the same writes |

## Left out

- HTTP routing, the `hx-request` header checks, the redirect to the root
  page and the template rendering (main.py:42-53, 72-74, 97-99): presentation
  and I/O.
- The database engine, `select` and the mechanics of `session.add` and
  `session.commit`: a session is a log of committed rows, and the store's rows
  are the objects of an array.
- The card handler's lookup by id (main.py:82-83) and its failure when no row
  has that id (a `None` result crashes at main.py:84): `DatasetCard` takes the
  row the lookup found.
- The `print('ready')` for a terminal row in the card handler (main.py:86):
  logging only.
- The task queue (`worker.openneuro_download.AsyncResult`) is an
  uninterpreted function from task id to state, fixed for one handler call;
  the real queue's answer may change between two rows of one list pass, and
  that timing is not modelled.
- Concurrent writers: another request or the worker may change a row
  between two commits of one pass, and each `session.commit()` (main.py:66,
  70) expires the loaded rows so that later rows and the test at main.py:67
  are read again from the database. The model works on the rows as loaded at
  the start of the pass, with no other writer, so it says nothing about
  interleaved reconciliations of the same row or about a terminal state being
  overwritten by a concurrent write.
- Exceptions raised by the task queue or by a commit: the source does not
  catch them, so one aborts the whole request; the model has every call
  return. Timeouts and per-row error isolation are not done by the source and
  not modelled.
- `state` is an open string as in the source; a `None` state is not
  modelled, and the row type of `src/models.py` is not part of this model
  beyond the fields listed in `Record`.
- Handlers.ListDatasets: requires the array to hold a distinct object per row,
  as a session's identity map gives one object per row; two aliases of one
  object would be reconciled twice.
- `create_dataset` (main.py:102-143): file upload copying, image validation
  and dataset creation code that is not part of this model.
- The `get_ds` cache (main.py:146-149), a library LRU cache around dataset
  parsing, and the handlers that use it (main.py:151-187).
- The commented-out video search code (main.py:191-234).
