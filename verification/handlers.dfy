/** The two request handlers that reconcile dataset rows in place: the list
    handler reconciles every row of the table, the card handler one row. The
    store's rows are `Dataset` objects loaded into a `Session`; the task queue
    is a `TaskBackend` that answers with the state of a task. */
module Handlers {
  import opened Reconciler

  /** A dataset row loaded into a session; every field is mutable, as on the
      ORM object. */
  class Dataset {
    var id: int
    var name: string
    var folder: Option<string>
    var databaseID: Option<string>
    var version: Option<string>
    var icon: Option<string>
    var taskID: Option<string>
    var state: string

    constructor (r: Record)
      ensures Value() == r
    {
      id, name, folder := r.id, r.name, r.folder;
      databaseID, version, icon := r.databaseID, r.version, r.icon;
      taskID, state := r.taskID, r.state;
    }

    /** The row's current contents. */
    function Value(): Record
      reads this
    {
      Record(id, name, folder, databaseID, version, icon, taskID, state)
    }
  }

  /** The download task queue: it reports a state for every task id, and
      `queried` records which ids it was asked about. */
  class TaskBackend {
    const status: StatusOracle
    var queried: seq<string>

    constructor (status: StatusOracle)
      ensures this.status == status && queried == []
    {
      this.status := status;
      queried := [];
    }

    /** The state of the task `taskID`, as `AsyncResult(taskID).state` gives it. */
    method TaskState(taskID: string) returns (s: string)
      modifies this`queried
      ensures s == status(taskID)
      ensures queried == old(queried) + [taskID]
    {
      s := status(taskID);
      queried := queried + [taskID];
    }
  }

  /** A database session; `committed` records every row written, as it was
      when written. */
  class Session {
    var committed: seq<Record>

    constructor ()
      ensures committed == []
    {
      committed := [];
    }

    /** `session.add(dataset)` followed by `session.commit()`. */
    method AddAndCommit(d: Dataset)
      modifies this`committed
      ensures committed == old(committed) + [d.Value()]
    {
      committed := committed + [d.Value()];
    }
  }

  /** The contents of the rows of `datasets`, in order. */
  function Values(datasets: array<Dataset>): (rs: seq<Record>)
    reads datasets, datasets[..]
    ensures |rs| == datasets.Length
    ensures forall i :: 0 <= i < datasets.Length ==> rs[i] == datasets[i].Value()
  {
    seq(datasets.Length, i requires 0 <= i < datasets.Length reads datasets, datasets[..] => datasets[i].Value())
  }

  /** Regrouping a concatenation. Dafny knows this fact; stating it as a call
      in the loop of `ListDatasets`, where the logs grow one row at a time,
      keeps the solver from searching for it there. */
  lemma AppendAssociative<T>(a: seq<T>, b: seq<T>, c: seq<T>)
    ensures a + (b + c) == (a + b) + c
  {
  }

  /** One iteration of the `/datasets` handler's loop: a row with a task and a
      terminal state is skipped; a row with a task and any other state takes
      the state the backend reports and is written; then a row without a task
      whose state is not `SUCCESS` is forced to `SUCCESS` and written. */
  method ReconcileListed(dataset: Dataset, backend: TaskBackend, session: Session)
    modifies dataset`state, backend`queried, session`committed
    ensures dataset.Value() == Reconcile(old(dataset.Value()), backend.status)
    ensures backend.queried == old(backend.queried) + Queries([old(dataset.Value())])
    ensures session.committed == old(session.committed) + Writes([old(dataset.Value())], backend.status)
  {
    RowEffects(dataset.Value(), backend.status);
    if HasTask(dataset.taskID) {
      if IsTerminal(dataset.state) {
        return;
      } else {
        var s := backend.TaskState(dataset.taskID.value);
        dataset.state := s;
        session.AddAndCommit(dataset);
      }
    }
    if !HasTask(dataset.taskID) && dataset.state != Success {
      dataset.state := Success;
      session.AddAndCommit(dataset);
    }
  }

  /** The `/datasets` handler: reconcile every row of the table, in order. */
  method ListDatasets(datasets: array<Dataset>, backend: TaskBackend, session: Session)
    requires forall j, k :: 0 <= j < k < datasets.Length ==> datasets[j] != datasets[k]
    modifies set j | 0 <= j < datasets.Length :: datasets[j]
    modifies backend`queried, session`committed
    ensures Values(datasets) == ReconcileAll(old(Values(datasets)), backend.status)
    ensures backend.queried == old(backend.queried) + Queries(old(Values(datasets)))
    ensures session.committed == old(session.committed) + Writes(old(Values(datasets)), backend.status)
  {
    ghost var before := Values(datasets);
    for i := 0 to datasets.Length
      invariant forall j :: 0 <= j < datasets.Length ==>
        datasets[j].Value() == if j < i then Reconcile(before[j], backend.status) else before[j]
      invariant backend.queried == old(backend.queried) + Queries(before[..i])
      invariant session.committed == old(session.committed) + Writes(before[..i], backend.status)
    {
      PrefixStep(before, i, backend.status);
      AppendAssociative(old(backend.queried), Queries(before[..i]), Queries([before[i]]));
      AppendAssociative(old(session.committed), Writes(before[..i], backend.status), Writes([before[i]], backend.status));
      ReconcileListed(datasets[i], backend, session);
    }
    assert before[..datasets.Length] == before;
  }

  /** The `/dataset_card/{ds_id}` handler on the row the lookup found: the
      same rule as one iteration of `ListDatasets`, written without the early
      exit for a terminal row. */
  method DatasetCard(dataset: Dataset, backend: TaskBackend, session: Session)
    modifies dataset`state, backend`queried, session`committed
    ensures dataset.Value() == Reconcile(old(dataset.Value()), backend.status)
    ensures backend.queried == old(backend.queried) + Queries([old(dataset.Value())])
    ensures session.committed == old(session.committed) + Writes([old(dataset.Value())], backend.status)
  {
    RowEffects(dataset.Value(), backend.status);
    if HasTask(dataset.taskID) {
      // a terminal row is only reported as ready
      if !IsTerminal(dataset.state) {
        var s := backend.TaskState(dataset.taskID.value);
        dataset.state := s;
        session.AddAndCommit(dataset);
      }
    }
    if !HasTask(dataset.taskID) && dataset.state != Success {
      dataset.state := Success;
      session.AddAndCommit(dataset);
    }
  }

  /** The card handler and one iteration of the list handler, each run on its
      own copy of the same row against the same backend, end with the same row
      and the same questions and writes; both are the rule `Reconcile`. */
  method CardAgreesWithList(r: Record, status: StatusOracle)
    returns (listed: Record, card: Record, listedQueries: seq<string>, cardQueries: seq<string>,
             listedWrites: seq<Record>, cardWrites: seq<Record>)
    ensures listed == card == Reconcile(r, status)
    ensures listedQueries == cardQueries
    ensures listedWrites == cardWrites
  {
    var backend1 := new TaskBackend(status);
    var session1 := new Session();
    var row1 := new Dataset(r);
    ReconcileListed(row1, backend1, session1);
    listed, listedQueries, listedWrites := row1.Value(), backend1.queried, session1.committed;

    var backend2 := new TaskBackend(status);
    var session2 := new Session();
    var row2 := new Dataset(r);
    DatasetCard(row2, backend2, session2);
    card, cardQueries, cardWrites := row2.Value(), backend2.queried, session2.committed;
  }
}
