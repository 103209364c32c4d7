/** What the durable-task operations and their client answer and leave behind, said of the record,
    the calls and the evidence alone. */
module TaskAnswers {
  import opened Common
  import opened Attempts
  import opened DurableTask
  import opened TaskClient

  // ------------------------------------------------------------------ ensure

  /** A query shows this job: a visible call that carried the marker created it. */
  ghost predicate Shows(calls: seq<Call>, marker: Marker, visible: set<nat>, j: JobId) {
    exists i :: i in visible && i < |calls| && calls[i].marker == marker &&
      calls[i].reply in {Accepted(j), Unparseable(j), Rejected(Some(j)), NoReply(Some(j))}
  }

  ghost predicate ShowsOnly(calls: seq<Call>, marker: Marker, visible: set<nat>, j: JobId) {
    Shows(calls, marker, visible, j) && forall k: JobId :: Shows(calls, marker, visible, k) ==> k == j
  }

  lemma MatchesShown(calls: seq<Call>, marker: Marker, visible: set<nat>, j: JobId)
    ensures j in Matches(calls, marker, visible) <==> Shows(calls, marker, visible, j)
  {
  }

  lemma ShowsOnlyIs(calls: seq<Call>, marker: Marker, visible: set<nat>, j: JobId)
    ensures var found := Matches(calls, marker, visible);
      ShowsOnly(calls, marker, visible, j) <==> |found| == 1 && j == Only(found)
  {
    var found := Matches(calls, marker, visible);
    forall k: JobId ensures k in found <==> Shows(calls, marker, visible, k) {
      MatchesShown(calls, marker, visible, k);
    }
    if ShowsOnly(calls, marker, visible, j) {
      assert found == {j};
    }
  }

  /** The current attempt after recovery: one that was SUBMITTING without a job has the only job a
      query shows, or is UNKNOWN; any other is as it was. */
  ghost predicate Recovered(was: Attempt, now: Attempt, calls: seq<Call>, visible: set<nat>) {
    if was.state == SUBMITTING && was.job.None? then
      && now == was.(state := now.state, job := now.job)
      && (forall j: JobId :: now.job == Some(j) <==> ShowsOnly(calls, was.marker, visible, j))
      && now.state == if now.job.Some? then ACCEPTED else UNKNOWN
    else now == was
  }

  /** Another attempt may be opened over one in this state. */
  predicate Reopens(s: State, q: Ask) {
    (s in {FAILED, INVALID, REJECTED} && q.retry) || (s == UNKNOWN && q.retryUnknown)
  }

  function AttemptsOf(d: Disk): seq<Attempt> {
    if d.task.Some? then d.task.value.core.attempts else []
  }

  /** The record after an ensure call that opened nothing. */
  ghost predicate NothingOpened(d: Disk, e: Disk) {
    && e.task.Some? && e.calls == d.calls && |AttemptsOf(e)| == |AttemptsOf(d)|
    && (d.task.Some? ==>
          && e.task.value.seen == d.task.value.seen && e.task.value.receipt == d.task.value.receipt
          && e.task.value.history == d.task.value.history)
  }

  /** The record after an ensure call that opened an attempt and was answered. */
  ghost predicate OneOpened(d: Disk, e: Disk, q: Ask) {
    var n, marker := |AttemptsOf(d)|, Marker(q.owner.head, q.attempt.head);
    && e.task.Some? && |AttemptsOf(e)| == n + 1 && e.calls == d.calls + [Call(n, marker, q.reply)]
    && e.task.value.core.current == Some(q.attempt)
    && AttemptsOf(e)[n].id == q.attempt && AttemptsOf(e)[n].marker == marker && AttemptsOf(e)[n].createdAt == q.createdAt
    && AnsweredBy(Attempt(q.attempt, marker, SUBMITTING, q.createdAt, None), AttemptsOf(e)[n], q.reply)
    && e.task.value.receipt.None?
    && (d.task.Some? ==>
          && e.task.value.seen == d.task.value.seen
          && e.task.value.history ==
             d.task.value.history + if d.task.value.receipt.Some? then [d.task.value.receipt.value] else [])
  }

  /** An ensure call that ends: earlier attempts are as they were, and the current one as recovery
      leaves it. A new attempt was opened if and only if there was none, or that one has failed, is
      invalid or was rejected and the caller retries, or it is unknown and the caller retries
      that; then one call was made for it, and the record says how the scheduler answered. */
  lemma EnsureAnswersExactly(p: Proc, q: Ask)
    requires DiskOk(p.disk) && !p.dead && !Ensure(p, q).dead
    ensures DiskOk(Ensure(p, q).disk) && AnswerIs(p.disk, Ensure(p, q).disk, q)
  {
    EnsureSteps(p, q);
    PrepareSteps(p);
    RecoverSteps(Prepare(p), q.visible);
    ReadyAnswers(p, Prepare(p), Recover(Prepare(p), q.visible), q);
  }

  lemma ReadyAnswers(p: Proc, p1: Proc, p2: Proc, q: Ask)
    requires DiskOk(p1.disk) && !p1.dead && p1.disk.task.Some? && p1.disk.calls == p.disk.calls
    requires if p.disk.task.Some? then p1 == p else p1.disk.task == Some(NewTask)
    requires p2 == Recover(p1, q.visible) && DiskOk(p2.disk) && !p2.dead && p2.disk.task.Some?
    ensures var e := if Granted(p2.disk.task.value.core, q) then Submit(p2, q) else p2;
      !e.dead ==> AnswerIs(p.disk, e.disk, q)
  {
    RecoverExactly(p1, q.visible);
    RecoveredOf(p.disk, p1.disk, p2.disk, q);
    if Granted(p2.disk.task.value.core, q) {
      if !Submit(p2, q).dead {
        SubmitExactly(p2, q);
        OpenedOver(p.disk, p2.disk, Submit(p2, q).disk, q);
      }
    } else {
      NotOpenedOver(p.disk, p2.disk, q);
    }
  }

  ghost predicate AnswerIs(d: Disk, e: Disk, q: Ask) {
    var n := |AttemptsOf(d)|;
    && RecoveredTo(d, e, q)
    && if n == 0 || Reopens(AttemptsOf(e)[n - 1].state, q) then OneOpened(d, e, q) else NothingOpened(d, e)
  }

  ghost predicate RecoveredTo(d: Disk, e: Disk, q: Ask) {
    var n := |AttemptsOf(d)|;
    && |AttemptsOf(e)| >= n
    && (forall k :: 0 <= k < n - 1 ==> AttemptsOf(e)[k] == AttemptsOf(d)[k])
    && (n > 0 ==> Recovered(AttemptsOf(d)[n - 1], AttemptsOf(e)[n - 1], d.calls, q.visible))
  }

  /** Making the record first changes nothing of this. */
  lemma RecoveredOf(d: Disk, ready: Disk, e: Disk, q: Ask)
    requires RecoveredTo(ready, e, q) && NothingOpened(ready, e) && ready.calls == d.calls
    requires if d.task.Some? then ready == d else ready.task == Some(NewTask)
    ensures RecoveredTo(d, e, q) && NothingOpened(d, e)
    ensures d.task.None? ==> e.task.value.receipt.None?
  {
  }

  lemma OpenedOver(d: Disk, mid: Disk, e: Disk, q: Ask)
    requires RecoveredTo(d, mid, q) && NothingOpened(d, mid) && OneOpened(mid, e, q)
    requires AttemptsOf(e)[..|AttemptsOf(mid)|] == AttemptsOf(mid)
    requires |AttemptsOf(d)| == 0 || Reopens(AttemptsOf(mid)[|AttemptsOf(d)| - 1].state, q)
    ensures AnswerIs(d, e, q)
  {
    forall k | 0 <= k < |AttemptsOf(d)| ensures AttemptsOf(e)[k] == AttemptsOf(mid)[k] {
      assert AttemptsOf(e)[..|AttemptsOf(mid)|][k] == AttemptsOf(mid)[k];
    }
  }

  lemma NotOpenedOver(d: Disk, e: Disk, q: Ask)
    requires RecoveredTo(d, e, q) && NothingOpened(d, e)
    requires |AttemptsOf(d)| > 0 && !Reopens(AttemptsOf(e)[|AttemptsOf(d)| - 1].state, q)
    ensures AnswerIs(d, e, q)
  {
  }

  lemma RecoverExactly(p: Proc, visible: set<nat>)
    requires DiskOk(p.disk) && !p.dead && p.disk.task.Some? && !Recover(p, visible).dead
    ensures var e, n := Recover(p, visible).disk, |AttemptsOf(p.disk)|;
      && NothingOpened(p.disk, e)
      && (forall k :: 0 <= k < n - 1 ==> AttemptsOf(e)[k] == AttemptsOf(p.disk)[k])
      && (n > 0 ==> Recovered(AttemptsOf(p.disk)[n - 1], AttemptsOf(e)[n - 1], p.disk.calls, visible))
  {
    var c := p.disk.task.value.core;
    if Ambiguous(c) {
      var i := Current(c).value;
      var found := Matches(p.disk.calls, c.attempts[i].marker, visible);
      forall j: JobId
        ensures ShowsOnly(p.disk.calls, c.attempts[i].marker, visible, j) <==> |found| == 1 && j == Only(found)
      {
        ShowsOnlyIs(p.disk.calls, c.attempts[i].marker, visible, j);
      }
    }
  }

  lemma SubmitExactly(p: Proc, q: Ask)
    requires DiskOk(p.disk) && !p.dead && p.disk.task.Some? && !Submit(p, q).dead
    ensures var e, n := Submit(p, q).disk, |AttemptsOf(p.disk)|;
      OneOpened(p.disk, e, q) && AttemptsOf(e)[..n] == AttemptsOf(p.disk)
  {
    var t := WithAttempt(p.disk.task.value, q);
    assert t.core.attempts[..|AttemptsOf(p.disk)|] == AttemptsOf(p.disk);
  }

  // ------------------------------------------------------------------ update

  const Progress := [SUBMITTING, ACCEPTED, PENDING, RUNNING, COMPLETED]

  /** A progress state asked for when the attempt is at a later one, or at none. */
  ghost predicate GoesBack(previous: State, s: State) {
    exists i :: 0 <= i < 5 && Progress[i] == s &&
      forall j :: 0 <= j <= i ==> Progress[j] != previous
  }

  /** What an update must leave alone. */
  ghost predicate Overdue(previous: State, s: State) {
    GoesBack(previous, s) || (s == UNKNOWN && previous in {COMPLETED, VERIFIED, INVALID, FAILED})
  }

  lemma RankIs(s: State, i: nat)
    requires i < 5
    ensures Progress[i] == s <==> Rank(s) == Some(i)
  {
    if i == 0 {
    } else if i == 1 {
    } else if i == 2 {
    } else if i == 3 {
    } else {
      assert i == 4;
    }
  }

  lemma IgnoredIs(previous: State, s: State)
    ensures Ignored(previous, s) <==> Overdue(previous, s)
  {
    GoesBackIs(previous, s);
  }

  lemma GoesBackIs(previous: State, s: State)
    ensures GoesBack(previous, s) <==>
            Rank(s).Some? && (Rank(previous).None? || Rank(s).value < Rank(previous).value)
  {
    forall i: nat | i < 5
      ensures (Progress[i] == s <==> Rank(s) == Some(i)) && (Progress[i] == previous <==> Rank(previous) == Some(i))
    {
      RankIs(s, i);
      RankIs(previous, i);
    }
    if Rank(s).Some? {
      assert Progress[Rank(s).value] == s;
    }
  }

  /** The update is of the current attempt, and to a state a task can have. */
  ghost predicate Fits(t: Task, u: Update) {
    && u.state !in {INTENDED, CANCELLED}
    && t.core.attempts != [] && t.core.attempts[|t.core.attempts| - 1].id == u.attempt
  }

  /** The record after an update that was made. */
  ghost predicate Updates(t: Task, v: Task, u: Update) {
    var a, b := t.core.attempts, v.core.attempts;
    && a != [] && |b| == |a| && b[..|a| - 1] == a[..|a| - 1] && b[|a| - 1] == a[|a| - 1].(state := u.state)
    && v.core.state == u.state && v.core.current == t.core.current && v.history == t.history
    && v.seen == (if u.seen.Some? then t.seen[u.attempt := u.seen.value] else t.seen)
    && v.receipt == (if u.receipt.Some? then u.receipt else t.receipt)
  }

  /** An update is refused without a record, for a state no task has, or for another attempt than
      the current one; it is ignored when it would go back or forget a result; otherwise it is made,
      unless the stub dies first. */
  lemma UpdateExactly(p: Proc, u: Update)
    requires DiskOk(p.disk) && !p.dead
    ensures var q := Apply(p, u);
      if p.disk.task.None? || !Fits(p.disk.task.value, u) then q == p.(dead := true)
      else if Overdue(p.disk.task.value.core.state, u.state) then q == p
      else if p.life == 0 then q == p.(dead := true)
      else
        && !q.dead && q.life == p.life - 1 && q.disk.calls == p.disk.calls
        && q.disk.task.Some? && Updates(p.disk.task.value, q.disk.task.value, u)
  {
    if p.disk.task.Some? && Fits(p.disk.task.value, u) {
      IgnoredIs(p.disk.task.value.core.state, u.state);
    }
  }

  // ------------------------------------------------------------------ the client

  /** The view stored with the attempt, if it says that the job has ended. */
  ghost predicate Closed(t: Task, a: Attempt) {
    a.id in t.seen && t.seen[a.id].state in {Completed, Ended}
  }

  /** The view of the job that a report goes by. */
  ghost function ViewOf(t: Task, a: Attempt, ev: Evidence): JobView {
    if Closed(t, a) then t.seen[a.id] else ev.status
  }

  /** A fresh status says something of the job. */
  ghost predicate Tells(t: Task, a: Attempt, ev: Evidence, s: JobState) {
    ViewOf(t, a, ev).state == s && (Closed(t, a) || !ev.status.registry)
  }

  /** The outputs are there, valid, and those of the receipt there is, if any. */
  ghost predicate Good(t: Task, ev: Evidence) {
    ev.declared == Present && ev.rc == Some(0) && ev.files.Some? &&
    (t.receipt.Some? ==> t.receipt.value.outputs == ev.files.value)
  }

  /** What a report on an attempt with a job must say. */
  ghost predicate Says(t: Task, a: Attempt, ev: Evidence, s: State) {
    && (s == UNKNOWN <==> !Closed(t, a) && (ev.status.state == Lost || ev.status.registry))
    && (s == PENDING <==> Tells(t, a, ev, Queued))
    && (s == RUNNING <==> Tells(t, a, ev, Executing))
    && (s == FAILED <==> Tells(t, a, ev, Ended))
    && (s == INVALID <==> Tells(t, a, ev, Completed) && !Good(t, ev))
    && (s == VERIFIED <==> Tells(t, a, ev, Completed) && Good(t, ev))
  }

  /** What the record must then say. */
  ghost predicate Stored(t: Task, a: Attempt, ev: Evidence, s: State, v: Task) {
    var previous := t.core.state;
    if s == FAILED && Closed(t, a) then v == t
    else if s in {INVALID, VERIFIED} then v.core.state == s && v.seen == t.seen[a.id := ViewOf(t, a, ev)]
    else if Overdue(previous, s) then v == t
    else v.core.state == s && v.seen == t.seen[a.id := ev.status]
  }

  /** A client call that reaches its end reports the record's own state when there is no job to ask
      for; otherwise what the job's last known view and the evidence say, and the record takes that
      state and that view, unless the record service ignores the update. */
  lemma ReportsExactly(p: Proc, q: Ask, ev: Evidence)
    requires DiskSound(p.disk) && !p.dead
    ensures var (e, r) := EnsureTask(p, q, ev);
      r.Report? ==>
        var asked := Ensure(p, q).disk;
        && asked.task.Some? && e.disk.task.Some?
        && var t := asked.task.value;
           if t.core.attempts == [] || t.core.attempts[|t.core.attempts| - 1].job.None? then
             r == Report(t.core.state, None) && e.disk == asked
           else
             var a := t.core.attempts[|t.core.attempts| - 1];
             Says(t, a, ev, r.state) && Stored(t, a, ev, r.state, e.disk.task.value)
  {
    EnsureKeeps(p, q);
    var e := Ensure(p, q);
    if !e.dead && e.disk.task.Some? {
      var t := e.disk.task.value;
      if t.core.attempts != [] && t.core.attempts[|t.core.attempts| - 1].job.Some? {
        ExamineSays(e, t.core.attempts[|t.core.attempts| - 1], ev);
      }
    }
  }

  /** An update by the client, of the attempt it works on. */
  lemma TellExactly(p: Proc, a: Attempt, u: Update)
    requires DiskSound(p.disk) && !p.dead && p.disk.task.Some? && Working(p.disk, a, p.disk.task.value.receipt)
    requires u.attempt == a.id && u.seen.Some? && TaskState(u.state)
    ensures var q := Apply(p, u);
      !q.dead ==>
        if Overdue(p.disk.task.value.core.state, u.state) then q == p
        else
          && q.disk.task.Some? && q.disk.task.value.core.state == u.state
          && q.disk.task.value.seen == p.disk.task.value.seen[a.id := u.seen.value]
          && q.disk.task.value.receipt == if u.receipt.Some? then u.receipt else p.disk.task.value.receipt
  {
    UpdateExactly(p, u);
  }

  lemma ExamineSays(p: Proc, a: Attempt, ev: Evidence)
    requires DiskSound(p.disk) && !p.dead && p.disk.task.Some? && Working(p.disk, a, p.disk.task.value.receipt)
    requires p.disk.task.value.core.attempts[|p.disk.task.value.core.attempts| - 1] == a
    ensures var t := p.disk.task.value;
      var (e, r) := Examine(p, a, t.receipt, StoredView(t, a.id), ev);
      r.Report? ==> e.disk.task.Some? && Says(t, a, ev, r.state) && Stored(t, a, ev, r.state, e.disk.task.value)
  {
    var t, v := p.disk.task.value, ev.status;
    if Closed(t, a) {
      if t.seen[a.id].state.Completed? {
        CompletedSays(p, a, t.seen[a.id], ev);
      }
    } else if v.state.Lost? || v.registry {
      TellExactly(p, a, Update(a.id, UNKNOWN, Some(v), None));
    } else if !Terminal(v) {
      TellExactly(p, a, Update(a.id, if v.state.Executing? then RUNNING else PENDING, Some(v), None));
    } else if !v.state.Completed? {
      TellExactly(p, a, Update(a.id, FAILED, Some(v), None));
    } else {
      CompletedSays(p, a, v, ev);
    }
  }

  /** From a completed job on: the verdict is the evidence's, and it is stored. */
  lemma CompletedSays(p: Proc, a: Attempt, view: JobView, ev: Evidence)
    requires DiskSound(p.disk) && !p.dead && p.disk.task.Some? && Working(p.disk, a, p.disk.task.value.receipt)
    requires view.state.Completed?
    ensures var t := p.disk.task.value;
      var (e, r) := Judge(Apply(p, Update(a.id, COMPLETED, Some(view), None)), a, t.receipt, view, ev);
      r.Report? ==>
        && r.state == (if Good(t, ev) then VERIFIED else INVALID)
        && e.disk.task.Some? && e.disk.task.value.core.state == r.state
        && e.disk.task.value.seen == t.seen[a.id := view]
  {
    var t := p.disk.task.value;
    var u := Update(a.id, COMPLETED, Some(view), None);
    SayKeeps(p, a, t.receipt, u);
    TellExactly(p, a, u);
    var q := Apply(p, u);
    if !q.dead {
      TellExactly(q, a, Update(a.id, INVALID, Some(view), None));
      if Good(t, ev) {
        var receipt := if t.receipt.Some? then t.receipt.value else ReceiptFor(a, view, 0, ev.files.value);
        TellExactly(q, a, Update(a.id, VERIFIED, Some(view), Some(receipt)));
      }
    }
  }
}
