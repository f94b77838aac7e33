/** The dataset-state reconciliation rule that the `/datasets` and
    `/dataset_card/{ds_id}` handlers apply to every dataset row they read,
    stated on values, together with what a pass over a list of rows asks the
    task backend and writes back to the store. */
module Reconciler {

  datatype Option<T> = None | Some(value: T)

  const Success: string := "SUCCESS"
  const Failure: string := "FAILURE"

  /** A dataset row as the handlers see it. */
  datatype Record = Record(
    id: int,
    name: string,
    folder: Option<string>,
    databaseID: Option<string>,
    version: Option<string>,
    icon: Option<string>,
    taskID: Option<string>,
    state: string)

  /** What the task backend reports as the state of the task with a given id. */
  type StatusOracle = string -> string

  /** Python truthiness of the optional task id: both `None` and `""` mean
      that the dataset has no task. */
  predicate HasTask(taskID: Option<string>)
    ensures HasTask(taskID) ==> taskID.Some?
    ensures taskID == Some("") ==> !HasTask(taskID)
  {
    taskID.Some? && taskID.value != ""
  }

  /** `SUCCESS` and `FAILURE` end a task; the backend's in-progress states
      do not. */
  predicate IsTerminal(state: string)
    ensures state == Success ==> IsTerminal(state)
    ensures state == Failure ==> IsTerminal(state)
    ensures state == "PENDING" || state == "STARTED" ==> !IsTerminal(state)
  {
    state == Success || state == Failure
  }

  /** Reconciling this row asks the task backend for its task's state. */
  predicate NeedsPoll(r: Record) {
    HasTask(r.taskID) && !IsTerminal(r.state)
  }

  /** Reconciling this row adds it to the session and commits it. */
  predicate NeedsWrite(r: Record) {
    NeedsPoll(r) || (!HasTask(r.taskID) && r.state != Success)
  }

  /** A row that reconciliation neither polls nor writes. */
  predicate Settled(r: Record) {
    !NeedsWrite(r)
  }

  /** One row after reconciliation: a row with a task and a non-terminal state
      takes the state the backend reports; then a row without a task whose
      state is not `SUCCESS` is forced to `SUCCESS`. */
  function Reconcile(r: Record, status: StatusOracle): (r': Record)
    ensures r' == r.(state := r'.state)
    ensures HasTask(r.taskID) && IsTerminal(r.state) ==> r' == r
    ensures HasTask(r.taskID) && !IsTerminal(r.state) ==> r'.state == status(r.taskID.value)
    ensures !HasTask(r.taskID) ==> r'.state == Success
  {
    var polled := if NeedsPoll(r) then r.(state := status(r.taskID.value)) else r;
    if !HasTask(polled.taskID) && polled.state != Success then polled.(state := Success) else polled
  }

  /** The task ids a pass over `rs` asks the backend about, in order. */
  function Queries(rs: seq<Record>): (q: seq<string>)
    ensures |q| <= |rs|
  {
    if rs == [] then []
    else (if NeedsPoll(rs[0]) then [rs[0].taskID.value] else []) + Queries(rs[1..])
  }

  /** The rows a pass over `rs` commits, in order, each as it is written. */
  function Writes(rs: seq<Record>, status: StatusOracle): (w: seq<Record>)
    ensures |w| <= |rs|
  {
    if rs == [] then []
    else (if NeedsWrite(rs[0]) then [Reconcile(rs[0], status)] else []) + Writes(rs[1..], status)
  }

  /** Every row of `rs` reconciled, each on its own. */
  function ReconcileAll(rs: seq<Record>, status: StatusOracle): (out: seq<Record>)
    ensures |out| == |rs|
    ensures forall i :: 0 <= i < |rs| ==> out[i] == Reconcile(rs[i], status)
  {
    if rs == [] then [] else [Reconcile(rs[0], status)] + ReconcileAll(rs[1..], status)
  }

  // ----- one row -----

  /** A settled row is exactly one in a terminal state with a task, or in
      `SUCCESS` without one, and reconciliation leaves it as it is. */
  lemma SettledMeansUntouched(r: Record, status: StatusOracle)
    ensures Settled(r) <==> if HasTask(r.taskID) then IsTerminal(r.state) else r.state == Success
    ensures Settled(r) ==> !NeedsPoll(r) && Reconcile(r, status) == r
  {
  }

  /** With a fixed backend, reconciling twice gives the same row as once. */
  lemma ReconcileIdempotent(r: Record, status: StatusOracle)
    ensures Reconcile(Reconcile(r, status), status) == Reconcile(r, status)
  {
  }

  /** Once reconciliation has left a row in `SUCCESS` or `FAILURE`, no later
      reconciliation changes it, whatever the backend reports then. A row
      without a task is only ever left in `SUCCESS` (see `NoTaskForcedToSuccess`). */
  lemma TerminalSticky(r: Record, before: StatusOracle, after: StatusOracle)
    requires IsTerminal(Reconcile(r, before).state)
    ensures Reconcile(Reconcile(r, before), after) == Reconcile(r, before)
  {
  }

  /** A row without a task stored in any state but `SUCCESS`, `FAILURE`
      included, is forced to `SUCCESS`: a stored terminal state is not sticky
      by itself. */
  lemma NoTaskForcedToSuccess(r: Record, status: StatusOracle)
    requires !HasTask(r.taskID) && r.state != Success
    ensures Reconcile(r, status) == r.(state := Success) != r
    ensures Writes([r], status) == [r.(state := Success)]
  {
  }

  /** A row without a task, or one already terminal, is settled by one
      reconciliation; a row that is polled is settled once the backend reports
      a terminal state for it. */
  lemma ReconcileSettles(r: Record, status: StatusOracle)
    requires NeedsPoll(r) ==> IsTerminal(status(r.taskID.value))
    ensures Settled(Reconcile(r, status))
  {
  }

  /** A polled row is written exactly once, even when the backend reports the
      state the row already had. */
  lemma PolledRowWrittenOnce(r: Record, status: StatusOracle)
    requires NeedsPoll(r)
    ensures Queries([r]) == [r.taskID.value]
    ensures Writes([r], status) == [Reconcile(r, status)]
  {
  }

  /** A task that is still running when one read happens and has finished by
      the next: the first read polls and writes the running state, the second
      polls once more and writes the terminal state, and every later read
      neither polls nor writes. */
  lemma TaskCompletes(r: Record, running: StatusOracle, finished: StatusOracle)
    requires HasTask(r.taskID) && !IsTerminal(r.state)
    requires !IsTerminal(running(r.taskID.value)) && IsTerminal(finished(r.taskID.value))
    ensures var first := Reconcile(r, running);
      && Queries([r]) == [r.taskID.value]
      && Writes([r], running) == [first]
      && first.state == running(r.taskID.value)
      && NeedsPoll(first)
      && Reconcile(first, finished).state == finished(r.taskID.value)
      && Writes([first], finished) == [Reconcile(first, finished)]
      && Queries([Reconcile(first, finished)]) == []
      && Writes([Reconcile(first, finished)], finished) == []
  {
  }

  /** What reconciling one row asks the backend and writes. */
  lemma RowEffects(r: Record, status: StatusOracle)
    ensures Queries([r]) == if NeedsPoll(r) then [r.taskID.value] else []
    ensures Writes([r], status) == if NeedsWrite(r) then [Reconcile(r, status)] else []
  {
  }

  // ----- a list of rows -----

  /** Reconciling a list is reconciling its parts: no row's outcome depends
      on another row. */
  lemma ReconcileAllAppend(xs: seq<Record>, ys: seq<Record>, status: StatusOracle)
    ensures ReconcileAll(xs + ys, status) == ReconcileAll(xs, status) + ReconcileAll(ys, status)
  {
  }

  /** The backend is asked about the rows of a list in their order. */
  lemma {:induction false} QueriesAppend(xs: seq<Record>, ys: seq<Record>)
    ensures Queries(xs + ys) == Queries(xs) + Queries(ys)
  {
    if xs != [] {
      assert (xs + ys)[1..] == xs[1..] + ys;
      QueriesAppend(xs[1..], ys);
    } else {
      assert xs + ys == ys;
    }
  }

  /** The rows of a list are committed in their order. */
  lemma {:induction false} WritesAppend(xs: seq<Record>, ys: seq<Record>, status: StatusOracle)
    ensures Writes(xs + ys, status) == Writes(xs, status) + Writes(ys, status)
  {
    if xs != [] {
      assert (xs + ys)[1..] == xs[1..] + ys;
      WritesAppend(xs[1..], ys, status);
    } else {
      assert xs + ys == ys;
    }
  }

  /** The backend is asked about exactly the tasks of the rows that need a
      poll, never about an empty id, and not at all when no row needs one. */
  lemma {:induction false} QueriesExactly(rs: seq<Record>)
    ensures Queries(rs) == [] <==> forall i :: 0 <= i < |rs| ==> !NeedsPoll(rs[i])
    ensures forall t :: t in Queries(rs) <==> exists i :: 0 <= i < |rs| && NeedsPoll(rs[i]) && t == rs[i].taskID.value
    ensures forall t :: t in Queries(rs) ==> t != ""
  {
    if rs != [] {
      QueriesExactly(rs[1..]);
      assert forall i :: 0 < i < |rs| ==> rs[i] == rs[1..][i - 1];
      forall t | t in Queries(rs[1..])
        ensures exists i :: 0 <= i < |rs| && NeedsPoll(rs[i]) && t == rs[i].taskID.value
      {
        var k :| 0 <= k < |rs[1..]| && NeedsPoll(rs[1..][k]) && t == rs[1..][k].taskID.value;
        assert rs[k + 1] == rs[1..][k];
      }
    }
  }

  /** Exactly the rows that need a write are committed, each as reconciled;
      nothing is committed when no row needs a write. */
  lemma {:induction false} WritesExactly(rs: seq<Record>, status: StatusOracle)
    ensures Writes(rs, status) == [] <==> forall i :: 0 <= i < |rs| ==> !NeedsWrite(rs[i])
    ensures forall x :: x in Writes(rs, status) <==> exists i :: 0 <= i < |rs| && NeedsWrite(rs[i]) && x == Reconcile(rs[i], status)
  {
    if rs != [] {
      WritesExactly(rs[1..], status);
      assert forall i :: 0 < i < |rs| ==> rs[i] == rs[1..][i - 1];
      forall x | x in Writes(rs[1..], status)
        ensures exists i :: 0 <= i < |rs| && NeedsWrite(rs[i]) && x == Reconcile(rs[i], status)
      {
        var k :| 0 <= k < |rs[1..]| && NeedsWrite(rs[1..][k]) && x == Reconcile(rs[1..][k], status);
        assert rs[k + 1] == rs[1..][k];
      }
    }
  }

  /** A pass writes at least as many rows as it asks the backend about. */
  lemma {:induction false} QueriesAreWritten(rs: seq<Record>, status: StatusOracle)
    ensures |Queries(rs)| <= |Writes(rs, status)|
  {
    if rs != [] {
      QueriesAreWritten(rs[1..], status);
    }
  }

  /** A pass over the first `i + 1` rows asks and writes what a pass over the
      first `i` does, then what row `i` alone does. */
  lemma PrefixStep(rs: seq<Record>, i: nat, status: StatusOracle)
    requires i < |rs|
    ensures Queries(rs[..i + 1]) == Queries(rs[..i]) + Queries([rs[i]])
    ensures Writes(rs[..i + 1], status) == Writes(rs[..i], status) + Writes([rs[i]], status)
  {
    assert rs[..i + 1] == rs[..i] + [rs[i]];
    QueriesAppend(rs[..i], [rs[i]]);
    WritesAppend(rs[..i], [rs[i]], status);
  }

  /** With a fixed backend, reconciling a list twice gives the same rows as
      reconciling it once. */
  lemma ReconcileAllIdempotent(rs: seq<Record>, status: StatusOracle)
    ensures ReconcileAll(ReconcileAll(rs, status), status) == ReconcileAll(rs, status)
  {
  }

  /** Once the backend reports a terminal state for every task the pass asks
      about, one pass settles every row, and a later pass asks nothing, writes
      nothing and changes nothing. */
  lemma {:induction false} OnePassSettles(rs: seq<Record>, status: StatusOracle)
    requires forall i :: 0 <= i < |rs| && NeedsPoll(rs[i]) ==> IsTerminal(status(rs[i].taskID.value))
    ensures forall i :: 0 <= i < |rs| ==> Settled(ReconcileAll(rs, status)[i])
    ensures Queries(ReconcileAll(rs, status)) == []
    ensures Writes(ReconcileAll(rs, status), status) == []
    ensures ReconcileAll(ReconcileAll(rs, status), status) == ReconcileAll(rs, status)
  {
    var once := ReconcileAll(rs, status);
    forall i | 0 <= i < |rs|
      ensures Settled(once[i]) && !NeedsWrite(once[i]) && Reconcile(once[i], status) == once[i]
    {
      ReconcileSettles(rs[i], status);
      SettledMeansUntouched(once[i], status);
    }
    QueriesExactly(once);
    WritesExactly(once, status);
  }
}
