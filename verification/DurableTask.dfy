/** The record of one durable task: `op_task_ensure` and `op_task_update`, with the stub dying
    before any durable write. */
module DurableTask {
  import opened Common
  import opened Attempts

  // ------------------------------------------------------------------ the record

  datatype JobState = Queued | Executing | Completed | Ended | Lost

  /** What the client saw of a job, as stored with the attempt. `Ended` is any terminal state but
      completion; `registry` marks a state that only the client's own registry remembers. */
  datatype JobView = JobView(state: JobState, registry: bool)

  predicate Terminal(v: JobView) {
    v.state.Completed? || v.state.Ended?
  }

  type Path = nat
  type Fingerprint = nat
  type Outputs = map<Path, Fingerprint>

  datatype Receipt = Receipt(attempt: Id, job: JobId, scheduler: JobView, rc: int, outputs: Outputs)

  /** `seen` is the scheduler view stored with each attempt. */
  datatype Task = Task(core: Core, seen: map<Id, JobView>, receipt: Option<Receipt>, history: seq<Receipt>)

  const NewTask := Task(Core(PREPARED, [], None), map[], None, [])

  /** One `sbatch` call: the attempt it was made for, and what came of it. */
  datatype Call = Call(index: nat, marker: Marker, reply: Reply)

  /** The durable record, and beside it every `sbatch` call ever made for it. */
  datatype Disk = Disk(task: Option<Task>, calls: seq<Call>)

  const Blank := Disk(None, [])

  /** The jobs that carry a marker, among those a query reports. */
  function Matches(calls: seq<Call>, marker: Marker, visible: set<nat>): set<JobId> {
    set i | i in visible && i < |calls| && calls[i].marker == marker && Created(calls[i].reply).Some? ::
      Created(calls[i].reply).value
  }

  // ------------------------------------------------------------------ one live stub

  datatype Proc = Proc(disk: Disk, life: nat, dead: bool)

  /** One atomic write of the record. */
  function Write(p: Proc, t: Task): Proc {
    if p.dead then p
    else if p.life == 0 then p.(dead := true)
    else Proc(p.disk.(task := Some(t)), p.life - 1, false)
  }

  function Log(p: Proc, c: Call): Proc {
    if p.dead then p
    else p.(disk := p.disk.(calls := p.disk.calls + [c]), dead := c.reply.NoReply?)
  }

  // ------------------------------------------------------------------ ensure

  /** The arguments of an ensure call, the scheduler's answer if it submits, and the calls whose
      jobs a query would report. */
  datatype Ask = Ask(
    owner: Id, attempt: Id, createdAt: int, retry: bool, retryUnknown: bool, reply: Reply, visible: set<nat>)

  predicate Retryable(s: State) {
    s.FAILED? || s.INVALID? || s.REJECTED?
  }

  /** Whether a new attempt may be begun. */
  predicate Granted(c: Core, q: Ask) {
    Current(c).None? || (c.state.UNKNOWN? && q.retryUnknown) || (Retryable(c.state) && q.retry)
  }

  function NewAttempt(q: Ask): Attempt {
    Attempt(q.attempt, MarkerOf(q.owner, q.attempt), SUBMITTING, q.createdAt, None)
  }

  /** The record with a new attempt; a receipt moves to the history. */
  function WithAttempt(t: Task, q: Ask): Task {
    Task(Opened(t.core, NewAttempt(q)), t.seen, None, if t.receipt.Some? then t.history + [t.receipt.value] else t.history)
  }

  function Prepare(p: Proc): Proc {
    if p.disk.task.None? then Write(p, NewTask) else p
  }

  ghost function Recover(p: Proc, visible: set<nat>): Proc {
    if p.dead || p.disk.task.None? || !Ambiguous(p.disk.task.value.core) then p
    else
      var t := p.disk.task.value;
      Write(p, t.(core := Reconciled(t.core, Matches(p.disk.calls, t.core.attempts[Current(t.core).value].marker, visible))))
  }

  function Submit(p: Proc, q: Ask): Proc
    requires p.disk.task.Some?
  {
    var t := WithAttempt(p.disk.task.value, q);
    var i := |t.core.attempts| - 1;
    var called := Log(Write(p, t), Call(i, MarkerOf(q.owner, q.attempt), q.reply));
    Write(called, t.(core := Settled(t.core, i, q.reply)))
  }

  /** `op_task_ensure`, under the lease. */
  ghost function Ensure(p: Proc, q: Ask): Proc {
    var ready := Recover(Prepare(p), q.visible);
    if ready.dead || ready.disk.task.None? || !Granted(ready.disk.task.value.core, q) then ready else Submit(ready, q)
  }

  // ------------------------------------------------------------------ update

  datatype Update = Update(attempt: Id, state: State, seen: Option<JobView>, receipt: Option<Receipt>)

  function Rank(s: State): Option<nat> {
    match s
    case SUBMITTING => Some(0)
    case ACCEPTED => Some(1)
    case PENDING => Some(2)
    case RUNNING => Some(3)
    case COMPLETED => Some(4)
    case _ => None
  }

  /** A task knows neither `INTENDED` nor `CANCELLED`. */
  predicate TaskState(s: State) {
    !s.INTENDED? && !s.CANCELLED?
  }

  predicate Ignored(previous: State, state: State) {
    || (Rank(state).Some? && (Rank(previous).None? || Rank(state).value < Rank(previous).value))
    || (state.UNKNOWN? && (previous.COMPLETED? || previous.VERIFIED? || previous.INVALID? || previous.FAILED?))
  }

  predicate Applies(t: Task, u: Update) {
    var i := Current(t.core);
    TaskState(u.state) && i.Some? && t.core.attempts[i.value].id == u.attempt
  }

  predicate Ignores(t: Task, u: Update)
    requires Applies(t, u)
  {
    Ignored(t.core.attempts[Current(t.core).value].state, u.state)
  }

  function Updated(t: Task, u: Update): Task
    requires Applies(t, u)
  {
    Task(Mark(t.core, Current(t.core).value, u.state), if u.seen.Some? then t.seen[u.attempt := u.seen.value] else t.seen,
         if u.receipt.Some? then u.receipt else t.receipt, t.history)
  }

  /** `op_task_update`, under the lease. An update of another attempt is refused. */
  function Apply(p: Proc, u: Update): Proc {
    if p.dead || p.disk.task.None? || !Applies(p.disk.task.value, u) then p.(dead := true)
    else if Ignores(p.disk.task.value, u) then p
    else Write(p, Updated(p.disk.task.value, u))
  }

  // ------------------------------------------------------------------ what every operation keeps

  /** The newest attempt is the current one, and the record has its state. */
  ghost predicate TaskOk(t: Task) {
    var c := t.core;
    if c.attempts == [] then c.current.None? && c.state.PREPARED? && t.receipt.None?
    else Current(c) == Some(|c.attempts| - 1) && c.state == c.attempts[|c.attempts| - 1].state
  }

  ghost predicate DiskOk(d: Disk) {
    && (d.task.Some? ==> TaskOk(d.task.value))
    && (d.task.None? ==> d.calls == [])
    && (forall i :: 0 <= i < |d.calls| ==>
          d.task.Some? && d.calls[i].index < |d.task.value.core.attempts| &&
          d.calls[i].marker == d.task.value.core.attempts[d.calls[i].index].marker)
    && (forall i, j :: 0 <= i < j < |d.calls| ==> d.calls[i].index < d.calls[j].index)
  }

  /** An attempt that reaches a progress state was in one before, and not in a later one. */
  predicate Forward(before: State, after: State) {
    Rank(after).Some? ==> Rank(before).Some? && Rank(before).value <= Rank(after).value
  }

  /** How a record may change: attempts are only added, each keeps its id, its marker and its job,
      moves forward, and is left alone once another has been begun. */
  ghost predicate Evolves(t: Task, u: Task) {
    var a, b := t.core.attempts, u.core.attempts;
    && |a| <= |b|
    && (forall k :: 0 <= k < |a| ==>
          a[k].id == b[k].id && a[k].marker == b[k].marker && Forward(a[k].state, b[k].state))
    && (forall k :: 0 <= k < |a| && a[k].job.Some? ==> b[k].job == a[k].job)
    && (forall k :: 0 <= k < |a| - 1 ==> b[k] == a[k])
    && t.history <= u.history
  }

  ghost predicate DiskEvolves(d: Disk, e: Disk) {
    && d.calls <= e.calls
    && (d.task.Some? ==> e.task.Some? && Evolves(d.task.value, e.task.value))
  }

  lemma EvolvesReflexive(d: Disk)
    ensures DiskEvolves(d, d)
  {
  }

  lemma EvolvesTransitive(d: Disk, e: Disk, f: Disk)
    requires DiskEvolves(d, e) && DiskEvolves(e, f)
    ensures DiskEvolves(d, f)
  {
  }

  /** The operation keeps the invariant, and the record evolves. */
  ghost predicate Steps(d: Disk, e: Disk) {
    DiskOk(e) && DiskEvolves(d, e)
  }

  lemma WriteSteps(p: Proc, t: Task)
    requires DiskOk(p.disk) && TaskOk(t) && (p.disk.task.Some? ==> Evolves(p.disk.task.value, t))
    requires p.disk.task.None? ==> t.core.attempts == []
    ensures Steps(p.disk, Write(p, t).disk)
  {
  }

  lemma MarkOk(t: Task, s: State)
    requires TaskOk(t) && t.core.attempts != []
    ensures TaskOk(t.(core := Mark(t.core, Current(t.core).value, s)))
  {
    TouchKeepsCurrent(t.core, Mark(t.core, Current(t.core).value, s), Current(t.core).value);
  }

  lemma BindOk(t: Task, j: JobId)
    requires TaskOk(t) && t.core.attempts != []
    ensures TaskOk(t.(core := Bind(t.core, Current(t.core).value, j)))
  {
    TouchKeepsCurrent(t.core, Bind(t.core, Current(t.core).value, j), Current(t.core).value);
  }

  lemma RecoverSteps(p: Proc, visible: set<nat>)
    requires DiskOk(p.disk)
    ensures Steps(p.disk, Recover(p, visible).disk)
    ensures p.disk.task.Some? ==> Recover(p, visible).disk.task.Some?
  {
    EvolvesReflexive(p.disk);
    if !p.dead && p.disk.task.Some? && Ambiguous(p.disk.task.value.core) {
      var t := p.disk.task.value;
      var i := Current(t.core).value;
      var matches := Matches(p.disk.calls, t.core.attempts[i].marker, visible);
      if |matches| == 1 {
        BindOk(t, Only(matches));
        WriteSteps(p, t.(core := Bind(t.core, i, Only(matches))));
      } else {
        MarkOk(t, UNKNOWN);
        WriteSteps(p, t.(core := Mark(t.core, i, UNKNOWN)));
      }
    }
  }

  lemma SettledOk(t: Task, reply: Reply)
    requires TaskOk(t) && t.core.attempts != [] && t.core.state == SUBMITTING
    requires t.core.attempts[|t.core.attempts| - 1].job.None?
    ensures var u := t.(core := Settled(t.core, |t.core.attempts| - 1, reply));
      TaskOk(u) && Evolves(t, u)
  {
    match reply
    case Accepted(j) => BindOk(t, j);
    case Unparseable(_) => MarkOk(t, UNKNOWN);
    case Rejected(_) => MarkOk(t, REJECTED);
    case NoReply(_) =>
  }

  lemma OpenSteps(p: Proc, q: Ask)
    requires DiskOk(p.disk) && p.disk.task.Some?
    ensures Steps(p.disk, Write(p, WithAttempt(p.disk.task.value, q)).disk)
    ensures var u := WithAttempt(p.disk.task.value, q);
      && TaskOk(u) && Evolves(p.disk.task.value, u) && u.core.state == SUBMITTING
      && |u.core.attempts| == |p.disk.task.value.core.attempts| + 1
      && u.core.attempts[|u.core.attempts| - 1] == NewAttempt(q)
  {
    OpenedIsCurrent(p.disk.task.value.core, NewAttempt(q));
    WriteSteps(p, WithAttempt(p.disk.task.value, q));
  }

  /** A call made for an attempt just begun is the first one for it. */
  lemma LogSteps(d: Disk, p: Proc, c: Call)
    requires DiskOk(p.disk) && p.disk.task.Some? && !p.dead && DiskEvolves(d, p.disk)
    requires c.index < |p.disk.task.value.core.attempts| && c.marker == p.disk.task.value.core.attempts[c.index].marker
    requires forall i :: 0 <= i < |p.disk.calls| ==> p.disk.calls[i].index < c.index
    ensures Steps(d, Log(p, c).disk)
  {
  }

  lemma SubmitSteps(p: Proc, q: Ask)
    requires DiskOk(p.disk) && p.disk.task.Some? && !p.dead
    ensures Steps(p.disk, Submit(p, q).disk) && Submit(p, q).disk.task.Some?
    ensures |Submit(p, q).disk.calls| <= |p.disk.calls| + 1
    ensures |Submit(p, q).disk.task.value.core.attempts| <= |p.disk.task.value.core.attempts| + 1
  {
    var u := WithAttempt(p.disk.task.value, q);
    OpenSteps(p, q);
    EvolvesReflexive(p.disk);
    var begun := Write(p, u);
    if p.life > 0 {
      var i := |u.core.attempts| - 1;
      var c := Call(i, MarkerOf(q.owner, q.attempt), q.reply);
      LogSteps(p.disk, begun, c);
      SettledOk(u, q.reply);
      WriteSteps(Log(begun, c), u.(core := Settled(u.core, i, q.reply)));
      EvolvesTransitive(p.disk, Log(begun, c).disk, Submit(p, q).disk);
    }
  }

  lemma PrepareSteps(p: Proc)
    requires DiskOk(p.disk)
    ensures Steps(p.disk, Prepare(p).disk) && Prepare(p).disk.calls == p.disk.calls
    ensures p.disk.task.Some? ==> Prepare(p) == p
    ensures Prepare(p).disk.task.Some? && p.disk.task.None? ==> Prepare(p).disk.task.value == NewTask
  {
    EvolvesReflexive(p.disk);
    if p.disk.task.None? {
      WriteSteps(p, NewTask);
    }
  }

  function Attempted(d: Disk): nat {
    if d.task.Some? then |d.task.value.core.attempts| else 0
  }

  /** An ensure call keeps the invariant, makes at most one `sbatch` call, and opens at most one
      attempt: the first, or one that the caller granted, over an attempt that has failed, is
      invalid or was rejected, or whose submission is unknown. */
  lemma EnsureSteps(p: Proc, q: Ask)
    requires DiskOk(p.disk)
    ensures var e := Ensure(p, q).disk;
      && Steps(p.disk, e) && |e.calls| <= |p.disk.calls| + 1
      && Attempted(e) <= Attempted(p.disk) + 1
      && (Attempted(p.disk) > 0 && Attempted(e) > Attempted(p.disk) ==> q.retry || q.retryUnknown)
  {
    PrepareSteps(p);
    var p1 := Prepare(p);
    RecoverSteps(p1, q.visible);
    var p2 := Recover(p1, q.visible);
    EvolvesTransitive(p.disk, p1.disk, p2.disk);
    RecoverOpensNothing(p1, q.visible);
    if !p2.dead && p2.disk.task.Some? && Granted(p2.disk.task.value.core, q) {
      SubmitSteps(p2, q);
      EvolvesTransitive(p.disk, p2.disk, Submit(p2, q).disk);
    }
  }

  lemma RecoverOpensNothing(p: Proc, visible: set<nat>)
    ensures Attempted(Recover(p, visible).disk) == Attempted(p.disk)
    ensures Recover(p, visible).disk.calls == p.disk.calls
  {
  }

  /** An update keeps the invariant, moves only the current attempt, and never back. */
  lemma UpdateSteps(p: Proc, u: Update)
    requires DiskOk(p.disk)
    ensures Steps(p.disk, Apply(p, u).disk)
    ensures Attempted(Apply(p, u).disk) == Attempted(p.disk) && Apply(p, u).disk.calls == p.disk.calls
  {
    EvolvesReflexive(p.disk);
    if !p.dead && p.disk.task.Some? && Applies(p.disk.task.value, u) && !Ignores(p.disk.task.value, u) {
      var t := p.disk.task.value;
      MarkOk(t, u.state);
      WriteSteps(p, Updated(t, u));
    }
  }

  /** What is known about a finished attempt. */
  predicate Result(s: State) {
    s.COMPLETED? || s.VERIFIED? || s.INVALID? || s.FAILED?
  }

  /** No operation replaces a result by UNKNOWN. */
  ghost predicate KeepsResults(d: Disk, e: Disk) {
    forall k :: 0 <= k < Attempted(d) && Result(d.task.value.core.attempts[k].state) ==>
      k < Attempted(e) && !e.task.value.core.attempts[k].state.UNKNOWN?
  }

  lemma EnsureKeepsResults(p: Proc, q: Ask)
    requires DiskOk(p.disk)
    ensures KeepsResults(p.disk, Ensure(p, q).disk)
  {
    PrepareSteps(p);
    var p1 := Prepare(p);
    RecoverSteps(p1, q.visible);
    var p2 := Recover(p1, q.visible);
    assert KeepsResults(p.disk, p2.disk);
    if !p2.dead && p2.disk.task.Some? && Granted(p2.disk.task.value.core, q) {
      SubmitKeepsOthers(p2, q);
    }
  }

  lemma SubmitKeepsOthers(p: Proc, q: Ask)
    requires DiskOk(p.disk) && p.disk.task.Some? && !p.dead
    ensures var e := Submit(p, q).disk;
      e.task.Some? && p.disk.task.value.core.attempts <= e.task.value.core.attempts
  {
    OpenSteps(p, q);
  }

  lemma UpdateKeepsResults(p: Proc, u: Update)
    requires DiskOk(p.disk)
    ensures KeepsResults(p.disk, Apply(p, u).disk)
  {
  }

  /** The state an ensure call decides on. */
  ghost function Judged(d: Disk, q: Ask): State {
    if d.task.None? then PREPARED
    else
      var c := d.task.value.core;
      if !Ambiguous(c) then c.state
      else if |Matches(d.calls, c.attempts[Current(c).value].marker, q.visible)| == 1 then ACCEPTED
      else UNKNOWN
  }

  /** Given enough time, an ensure call opens an attempt exactly when there is none yet, or when
      the caller allows a retry and the attempt has failed, is invalid or was rejected, or when
      the caller allows one and the submission is unknown. */
  lemma OpensExactlyWhen(d: Disk, q: Ask, life: nat)
    requires DiskOk(d) && life >= 4
    ensures Attempted(Ensure(Proc(d, life, false), q).disk) == Attempted(d) + 1 <==>
      || Attempted(d) == 0
      || (q.retry && Retryable(Judged(d, q)))
      || (q.retryUnknown && Judged(d, q).UNKNOWN?)
  {
    var p := Proc(d, life, false);
    PrepareSteps(p);
    var p1 := Prepare(p);
    RecoverSteps(p1, q.visible);
    RecoverOpensNothing(p1, q.visible);
    var p2 := Recover(p1, q.visible);
    if Granted(p2.disk.task.value.core, q) {
      SubmitOpens(p2, q);
    }
  }

  lemma SubmitOpens(p: Proc, q: Ask)
    requires DiskOk(p.disk) && p.disk.task.Some? && !p.dead && p.life >= 1
    ensures Attempted(Submit(p, q).disk) == Attempted(p.disk) + 1
  {
    SubmitSteps(p, q);
    var begun := Write(p, WithAttempt(p.disk.task.value, q));
    assert Attempted(begun.disk) == Attempted(p.disk) + 1;
  }

  // ------------------------------------------------------------------ whose job it is

  /** A job bound to an attempt was created by a call that carried the attempt's marker. */
  ghost predicate JobsTraced(d: Disk) {
    d.task.Some? ==> forall k :: 0 <= k < Attempted(d) ==> Traced(d.calls, d.task.value.core.attempts[k])
  }

  ghost predicate Traced(calls: seq<Call>, a: Attempt) {
    a.job.Some? ==> exists i :: 0 <= i < |calls| && calls[i].marker == a.marker && Created(calls[i].reply) == a.job
  }

  lemma TracedLater(calls: seq<Call>, more: seq<Call>, a: Attempt)
    requires Traced(calls, a) && calls <= more
    ensures Traced(more, a)
  {
    if a.job.Some? {
      var i :| 0 <= i < |calls| && calls[i].marker == a.marker && Created(calls[i].reply) == a.job;
      assert more[i] == calls[i];
    }
  }

  lemma MatchesTraced(calls: seq<Call>, marker: Marker, visible: set<nat>, j: JobId)
    requires j in Matches(calls, marker, visible)
    ensures exists i :: 0 <= i < |calls| && calls[i].marker == marker && Created(calls[i].reply) == Some(j)
  {
    var i :| i in visible && i < |calls| && calls[i].marker == marker && Created(calls[i].reply).Some? &&
             Created(calls[i].reply).value == j;
    assert 0 <= i < |calls| && calls[i].marker == marker && Created(calls[i].reply) == Some(j);
  }

  lemma RecoverTraces(p: Proc, visible: set<nat>)
    requires DiskOk(p.disk) && JobsTraced(p.disk)
    ensures JobsTraced(Recover(p, visible).disk)
  {
    if !p.dead && p.disk.task.Some? && Ambiguous(p.disk.task.value.core) {
      var c := p.disk.task.value.core;
      var matches := Matches(p.disk.calls, c.attempts[Current(c).value].marker, visible);
      if |matches| == 1 {
        MatchesTraced(p.disk.calls, c.attempts[Current(c).value].marker, visible, Only(matches));
      }
    }
  }

  lemma SubmitTraces(p: Proc, q: Ask)
    requires DiskOk(p.disk) && p.disk.task.Some? && !p.dead && JobsTraced(p.disk)
    ensures JobsTraced(Submit(p, q).disk)
  {
    var u := WithAttempt(p.disk.task.value, q);
    var i := |u.core.attempts| - 1;
    var c := Call(i, MarkerOf(q.owner, q.attempt), q.reply);
    var called := Log(Write(p, u), c);
    if p.life > 0 {
      forall k | 0 <= k < |u.core.attempts| ensures Traced(called.disk.calls, u.core.attempts[k]) {
        if k < i {
          TracedLater(p.disk.calls, called.disk.calls, u.core.attempts[k]);
        }
      }
      assert called.disk.calls[|p.disk.calls|] == c;
    }
  }

  lemma EnsureTraces(p: Proc, q: Ask)
    requires DiskOk(p.disk) && JobsTraced(p.disk)
    ensures JobsTraced(Ensure(p, q).disk)
  {
    PrepareSteps(p);
    RecoverSteps(Prepare(p), q.visible);
    RecoverTraces(Prepare(p), q.visible);
    var ready := Recover(Prepare(p), q.visible);
    if !ready.dead && ready.disk.task.Some? && Granted(ready.disk.task.value.core, q) {
      SubmitTraces(ready, q);
    }
  }

  // ------------------------------------------------------------------ runs

  datatype Command = EnsureCommand(ask: Ask, life: nat) | UpdateCommand(update: Update, life: nat)

  ghost function Exec(d: Disk, c: Command): Disk {
    match c
    case EnsureCommand(q, life) => Ensure(Proc(d, life, false), q).disk
    case UpdateCommand(u, life) => Apply(Proc(d, life, false), u).disk
  }

  ghost function Run(d: Disk, cmds: seq<Command>): Disk
    decreases |cmds|
  {
    if cmds == [] then d else Exec(Run(d, cmds[..|cmds| - 1]), cmds[|cmds| - 1])
  }

  /** The ensure calls that allow another attempt. */
  function Grants(cmds: seq<Command>): nat
    decreases |cmds|
  {
    if cmds == [] then 0
    else
      var c := cmds[|cmds| - 1];
      Grants(cmds[..|cmds| - 1]) + if c.EnsureCommand? && (c.ask.retry || c.ask.retryUnknown) then 1 else 0
  }

  lemma CallsWithinAttempts(d: Disk)
    requires DiskOk(d)
    ensures |d.calls| <= Attempted(d)
  {
    if d.calls != [] {
      IndexAtLeast(d, |d.calls| - 1);
    }
  }

  lemma {:induction false} IndexAtLeast(d: Disk, i: nat)
    requires DiskOk(d) && i < |d.calls|
    ensures d.calls[i].index >= i
  {
    if i > 0 {
      IndexAtLeast(d, i - 1);
    }
  }

  /** Whatever the callers ask and wherever the stub dies: the record's state is its current
      attempt's; `sbatch` is called at most once for each attempt, and in all at most once more
      than retries were granted; every attempt only moves forward. */
  lemma {:induction false} RunKeeps(cmds: seq<Command>)
    ensures var d := Run(Blank, cmds);
      && DiskOk(d)
      && Attempted(d) <= 1 + Grants(cmds)
      && |d.calls| <= 1 + Grants(cmds)
    decreases |cmds|
  {
    if cmds != [] {
      var n := |cmds| - 1;
      RunKeeps(cmds[..n]);
      var d := Run(Blank, cmds[..n]);
      match cmds[n]
      case EnsureCommand(q, life) => EnsureSteps(Proc(d, life, false), q);
      case UpdateCommand(u, life) => UpdateSteps(Proc(d, life, false), u);
    }
    CallsWithinAttempts(Run(Blank, cmds));
  }

  /** Between any two moments of a run the record has only evolved. */
  lemma {:induction false} RunEvolves(cmds: seq<Command>, k: nat)
    requires k <= |cmds|
    ensures DiskEvolves(Run(Blank, cmds[..k]), Run(Blank, cmds))
    decreases |cmds|
  {
    EvolvesReflexive(Run(Blank, cmds));
    if k == |cmds| {
      assert cmds[..k] == cmds;
    } else {
      var n := |cmds| - 1;
      assert cmds[..n][..k] == cmds[..k];
      RunEvolves(cmds[..n], k);
      RunKeeps(cmds[..n]);
      var d := Run(Blank, cmds[..n]);
      match cmds[n]
      case EnsureCommand(q, life) => EnsureSteps(Proc(d, life, false), q);
      case UpdateCommand(u, life) => UpdateSteps(Proc(d, life, false), u);
      EvolvesTransitive(Run(Blank, cmds[..k]), d, Run(Blank, cmds));
    }
  }

  /** Once an attempt has left the progress states it never comes back to one, and within them it
      never goes back. No operation replaces what is known about a finished attempt by UNKNOWN. */
  lemma NeverReentered(cmds: seq<Command>, i: nat, j: nat, a: nat)
    requires i <= j <= |cmds| && a < Attempted(Run(Blank, cmds[..i]))
    ensures a < Attempted(Run(Blank, cmds[..j]))
    ensures Forward(Run(Blank, cmds[..i]).task.value.core.attempts[a].state,
                    Run(Blank, cmds[..j]).task.value.core.attempts[a].state)
    ensures j == i + 1 && Result(Run(Blank, cmds[..i]).task.value.core.attempts[a].state) ==>
      !Run(Blank, cmds[..j]).task.value.core.attempts[a].state.UNKNOWN?
  {
    assert cmds[..j][..i] == cmds[..i];
    RunEvolves(cmds[..j], i);
    if j == i + 1 {
      NextKeepsResults(cmds[..j]);
    }
  }

  lemma NextKeepsResults(cmds: seq<Command>)
    requires cmds != []
    ensures KeepsResults(Run(Blank, cmds[..|cmds| - 1]), Run(Blank, cmds))
  {
    var n := |cmds| - 1;
    RunKeeps(cmds[..n]);
    var d := Run(Blank, cmds[..n]);
    match cmds[n]
    case EnsureCommand(q, life) => EnsureKeepsResults(Proc(d, life, false), q);
    case UpdateCommand(u, life) => UpdateKeepsResults(Proc(d, life, false), u);
  }

  lemma {:induction false} RunTraces(cmds: seq<Command>)
    ensures JobsTraced(Run(Blank, cmds))
    decreases |cmds|
  {
    if cmds != [] {
      var n := |cmds| - 1;
      RunTraces(cmds[..n]);
      RunKeeps(cmds[..n]);
      var d := Run(Blank, cmds[..n]);
      match cmds[n]
      case EnsureCommand(q, life) => EnsureTraces(Proc(d, life, false), q);
      case UpdateCommand(u, life) => UpdateTraces(Proc(d, life, false), u);
    }
  }

  lemma UpdateTraces(p: Proc, u: Update)
    requires DiskOk(p.disk) && JobsTraced(p.disk)
    ensures JobsTraced(Apply(p, u).disk)
  {
  }

  /** With markers that do not collide, the job an attempt holds is the one that its own single
      `sbatch` call created, whether its id was read or recovered. */
  lemma AttemptHoldsItsOwnJob(cmds: seq<Command>, k: nat)
    requires k < Attempted(Run(Blank, cmds))
    requires var a := Run(Blank, cmds).task.value.core.attempts;
      && a[k].job.Some?
      && forall i, j :: 0 <= i < j < |a| ==> a[i].marker != a[j].marker
    ensures var d := Run(Blank, cmds);
      exists i :: 0 <= i < |d.calls| && d.calls[i].index == k && Created(d.calls[i].reply) == d.task.value.core.attempts[k].job
  {
    RunTraces(cmds);
    RunKeeps(cmds);
    var d := Run(Blank, cmds);
    var a := d.task.value.core.attempts;
    assert Traced(d.calls, a[k]);
    var i :| 0 <= i < |d.calls| && d.calls[i].marker == a[k].marker && Created(d.calls[i].reply) == a[k].job;
    assert a[d.calls[i].index].marker == a[k].marker;
  }
}
