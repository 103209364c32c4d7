/** The durable-task operations and their client, step by step on the record file. */
module TaskRun {
  import opened Common
  import opened Attempts
  import opened DurableTask
  import opened TaskClient

  class TaskDirectory {
    var task: Option<Task>
    var calls: seq<Call>

    /** How many more writes the running stub lives for, and whether it has stopped. */
    var life: nat
    var dead: bool

    ghost function View(): Proc
      reads this
    {
      Proc(Disk(task, calls), life, dead)
    }

    constructor (lives: nat)
      ensures View() == Proc(Blank, lives, false)
    {
      task, calls, life, dead := None, [], lives, false;
    }

    /** `_task_write`. */
    method WriteRecord(t: Task)
      modifies this
      ensures View() == Write(old(View()), t)
    {
      if !dead {
        if life == 0 {
          dead := true;
        } else {
          task, life := Some(t), life - 1;
        }
      }
    }

    /** The `sbatch` call; without a reply the stub stops here. */
    method Sbatch(c: Call)
      modifies this
      ensures View() == Log(old(View()), c)
    {
      if !dead {
        calls := calls + [c];
        dead := c.reply.NoReply?;
      }
    }

    /** `_attempt_find_jobs`. */
    method FindJobs(marker: Marker, visible: set<nat>) returns (found: set<JobId>)
      ensures found == Matches(calls, marker, visible)
    {
      found := {};
      var rest := visible;
      ghost var seen: set<nat> := {};
      while rest != {}
        invariant seen + rest == visible && seen !! rest
        invariant found == Matches(calls, marker, seen)
        decreases rest
      {
        var i :| i in rest;
        rest, seen := rest - {i}, seen + {i};
        if i < |calls| && calls[i].marker == marker && Created(calls[i].reply).Some? {
          found := found + {Created(calls[i].reply).value};
        }
      }
      assert seen == visible;
    }

    method RecoverRecord(visible: set<nat>)
      modifies this
      ensures View() == Recover(old(View()), visible)
    {
      if dead || task.None? {
        return;
      }
      var record := task.value;
      var i := FindCurrent(record.core);
      if i.None? {
        return;
      }
      var attempt := record.core.attempts[i.value];
      if attempt.state != SUBMITTING || attempt.job.Some? {
        return;
      }
      var matches := FindJobs(attempt.marker, visible);
      var core := Reconcile(record.core, matches);
      WriteRecord(record.(core := core));
    }

    method SubmitAttempt(q: Ask)
      requires task.Some?
      modifies this
      ensures View() == Submit(old(View()), q)
    {
      var record := task.value;
      if record.receipt.Some? {
        record := record.(history := record.history + [record.receipt.value], receipt := None);
      }
      var attempt := NewAttempt(q);
      var attempts := record.core.attempts + [attempt];
      record := record.(core := Core(SUBMITTING, attempts, Some(q.attempt)));
      WriteRecord(record);
      var i := |attempts| - 1;
      Sbatch(Call(i, attempt.marker, q.reply));
      match q.reply {
        case Rejected(_) =>
          attempt := attempt.(state := REJECTED);
        case Unparseable(_) =>
          attempt := attempt.(state := UNKNOWN);
        case Accepted(j) =>
          attempt := attempt.(job := Some(j), state := ACCEPTED);
        case NoReply(_) =>
      }
      record := record.(core := Core(attempt.state, attempts[i := attempt], Some(q.attempt)));
      WriteRecord(record);
    }

    /** `op_task_ensure`. */
    method EnsureRecord(q: Ask)
      modifies this
      ensures View() == Ensure(old(View()), q)
    {
      if task.None? {
        WriteRecord(NewTask);
      }
      RecoverRecord(q.visible);
      if dead || task.None? {
        return;
      }
      var core := task.value.core;
      var current := FindCurrent(core);
      if current.Some? {
        if core.state.UNKNOWN? && !q.retryUnknown {
          return;
        }
        if Retryable(core.state) && !q.retry {
          return;
        }
        if !Retryable(core.state) && !core.state.UNKNOWN? {
          return;
        }
      }
      SubmitAttempt(q);
    }

    /** `op_task_update`. */
    method UpdateRecord(u: Update)
      modifies this
      ensures View() == Apply(old(View()), u)
    {
      if dead || task.None? || !TaskState(u.state) {
        dead := true;
        return;
      }
      var record := task.value;
      var i := FindCurrent(record.core);
      if i.None? || record.core.attempts[i.value].id != u.attempt {
        dead := true;
        return;
      }
      var attempt := record.core.attempts[i.value];
      var previous := attempt.state;
      if Rank(u.state).Some? && (Rank(previous).None? || Rank(u.state).value < Rank(previous).value) {
        return;
      }
      if u.state.UNKNOWN? && (previous.COMPLETED? || previous.VERIFIED? || previous.INVALID? || previous.FAILED?) {
        return;
      }
      attempt := attempt.(state := u.state);
      if u.seen.Some? {
        record := record.(seen := record.seen[u.attempt := u.seen.value]);
      }
      record := record.(core := Core(u.state, record.core.attempts[i.value := attempt], record.core.current));
      if u.receipt.Some? {
        record := record.(receipt := u.receipt);
      }
      WriteRecord(record);
    }

    /** `_update`, and what the client then reports. */
    method Tell(u: Update) returns (r: Report)
      modifies this
      ensures (View(), r) == Say(old(View()), u)
    {
      UpdateRecord(u);
      return if dead then Stopped else Report(u.state, u.receipt);
    }

    /** The end of `ensure_task`: outputs, validation, fingerprints, receipt. */
    method Validate(a: Attempt, prior: Option<Receipt>, view: JobView, ev: Evidence) returns (r: Report)
      requires a.job.Some?
      modifies this
      ensures (View(), r) == Judge(old(View()), a, prior, view, ev)
    {
      if dead {
        return Stopped;
      }
      var invalid := Update(a.id, INVALID, Some(view), None);
      if ev.declared.Unavailable? || ev.declared.Missing? {
        r := Tell(invalid);
        return;
      }
      if ev.rc.None? {
        dead := true;
        return Stopped;
      }
      if ev.rc.value != 0 {
        r := Tell(invalid);
        return;
      }
      if ev.files.None? {
        r := Tell(invalid);
        return;
      }
      var outputs := ev.files.value;
      if prior.Some? && prior.value.outputs != outputs {
        r := Tell(invalid);
        return;
      }
      var receipt := if prior.Some? then prior.value else ReceiptFor(a, view, ev.rc.value, outputs);
      r := Tell(Update(a.id, VERIFIED, Some(view), Some(receipt)));
    }

    /** `ensure_task`. */
    method EnsureTask(q: Ask, ev: Evidence) returns (r: Report)
      modifies this
      ensures (View(), r) == TaskClient.EnsureTask(old(View()), q, ev)
    {
      EnsureRecord(q);
      if dead || task.None? {
        return Stopped;
      }
      var record := task.value;
      var i := FindCurrent(record.core);
      if i.None? || record.core.attempts[i.value].job.None? {
        return Report(record.core.state, None);
      }
      r := Observe(record.core.attempts[i.value], record, ev);
    }

    method Observe(a: Attempt, record: Task, ev: Evidence) returns (r: Report)
      requires a.job.Some?
      modifies this
      ensures (View(), r) == Examine(old(View()), a, record.receipt, StoredView(record, a.id), ev)
    {
      var view;
      if a.id in record.seen && Terminal(record.seen[a.id]) {
        view := record.seen[a.id];
        if !view.state.Completed? {
          return Report(FAILED, None);
        }
      } else {
        view := ev.status;
        if view.state.Lost? || view.registry {
          r := Tell(Update(a.id, UNKNOWN, Some(view), None));
          return;
        }
        if !Terminal(view) {
          r := Tell(Update(a.id, if view.state.Executing? then RUNNING else PENDING, Some(view), None));
          return;
        }
        if !view.state.Completed? {
          r := Tell(Update(a.id, FAILED, Some(view), None));
          return;
        }
      }
      UpdateRecord(Update(a.id, COMPLETED, Some(view), None));
      r := Validate(a, record.receipt, view, ev);
    }
  }
}
