/** The client half of a durable task: recover or submit, observe, validate, and issue a receipt.
    One client at a time works on a task; it may die at any point. */
module TaskClient {
  import opened Common
  import opened Attempts
  import opened DurableTask

  datatype Declared = Present | Missing | Unavailable

  /** What the client meets when it asks: the job's status, whether the declared outputs appear,
      the exit code of the validation command, and the fingerprints of the outputs; none when
      the request fails. */
  datatype Evidence = Evidence(status: JobView, declared: Declared, rc: Option<int>, files: Option<Outputs>)

  datatype Report = Report(state: State, receipt: Option<Receipt>) | Stopped

  // ------------------------------------------------------------------ the operation

  /** One update, and the report that follows it. */
  function Say(p: Proc, u: Update): (Proc, Report) {
    var q := Apply(p, u);
    (q, if q.dead then Stopped else Report(u.state, u.receipt))
  }

  function ReceiptFor(a: Attempt, view: JobView, rc: int, files: Outputs): Receipt
    requires a.job.Some?
  {
    Receipt(a.id, a.job.value, view, rc, files)
  }

  /** From a completed job to a verdict on its outputs. */
  function Judge(p: Proc, a: Attempt, prior: Option<Receipt>, view: JobView, ev: Evidence): (Proc, Report)
    requires a.job.Some?
  {
    var invalid := Update(a.id, INVALID, Some(view), None);
    if p.dead then (p, Stopped)
    else if !ev.declared.Present? then Say(p, invalid)
    else if ev.rc.None? then (p.(dead := true), Stopped)
    else if ev.rc.value != 0 || ev.files.None? then Say(p, invalid)
    else if prior.Some? && prior.value.outputs != ev.files.value then Say(p, invalid)
    else
      var receipt := if prior.Some? then prior.value else ReceiptFor(a, view, ev.rc.value, ev.files.value);
      Say(p, Update(a.id, VERIFIED, Some(view), Some(receipt)))
  }

  /** From a job id to what is known of the job. */
  function Examine(p: Proc, a: Attempt, prior: Option<Receipt>, stored: Option<JobView>, ev: Evidence): (Proc, Report)
    requires a.job.Some?
  {
    if stored.Some? && Terminal(stored.value) then
      if stored.value.state.Completed? then
        Judge(Apply(p, Update(a.id, COMPLETED, stored, None)), a, prior, stored.value, ev)
      else (p, Report(FAILED, None))
    else
      var v := ev.status;
      if v.state.Lost? || v.registry then Say(p, Update(a.id, UNKNOWN, Some(v), None))
      else if !Terminal(v) then Say(p, Update(a.id, if v.state.Executing? then RUNNING else PENDING, Some(v), None))
      else if !v.state.Completed? then Say(p, Update(a.id, FAILED, Some(v), None))
      else Judge(Apply(p, Update(a.id, COMPLETED, Some(v), None)), a, prior, v, ev)
  }

  function StoredView(t: Task, id: Id): Option<JobView> {
    if id in t.seen then Some(t.seen[id]) else None
  }

  /** `ensure_task`. */
  ghost function EnsureTask(p: Proc, q: Ask, ev: Evidence): (Proc, Report) {
    var e := Ensure(p, q);
    if e.dead || e.disk.task.None? then (e, Stopped)
    else
      var t := e.disk.task.value;
      var i := Current(t.core);
      if i.None? || t.core.attempts[i.value].job.None? then (e, Report(t.core.state, None))
      else
        var a := t.core.attempts[i.value];
        Examine(e, a, t.receipt, StoredView(t, a.id), ev)
  }

  // ------------------------------------------------------------------ receipts are sound

  /** The receipt names the current attempt and its job, a completed job and a passed validation;
      a verified task has one, and the view stored with the attempt says completed. */
  ghost predicate Sound(t: Task) {
    var a := t.core.attempts;
    && (t.receipt.Some? ==> a != [] && Names(t.receipt.value, a[|a| - 1]))
    && (t.core.state.VERIFIED? ==>
          t.receipt.Some? && StoredView(t, a[|a| - 1].id).Some? && t.seen[a[|a| - 1].id].state.Completed?)
  }

  predicate Names(r: Receipt, a: Attempt) {
    r.attempt == a.id && a.job == Some(r.job) && r.scheduler.state.Completed? && r.rc == 0
  }

  ghost predicate DiskSound(d: Disk) {
    DiskOk(d) && (d.task.Some? ==> Sound(d.task.value))
  }

  /** A receipt stays as it is, or moves to the history when another attempt is opened. */
  ghost predicate Sticky(t: Task, u: Task) {
    if |u.core.attempts| == |t.core.attempts| then
      u.history == t.history && (t.receipt.Some? ==> u.receipt == t.receipt)
    else
      && |u.core.attempts| == |t.core.attempts| + 1
      && u.history == t.history + if t.receipt.Some? then [t.receipt.value] else []
  }

  ghost predicate DiskSticky(d: Disk, e: Disk) {
    d.task.Some? ==> e.task.Some? && Sticky(d.task.value, e.task.value)
  }

  /** What a client step keeps. */
  ghost predicate Keeps(d: Disk, e: Disk) {
    DiskSound(e) && DiskSticky(d, e)
  }

  lemma EnsureKeeps(p: Proc, q: Ask)
    requires DiskSound(p.disk)
    ensures Keeps(p.disk, Ensure(p, q).disk)
  {
    EnsureSteps(p, q);
    PrepareSteps(p);
    RecoverSteps(Prepare(p), q.visible);
    RecoverSound(Prepare(p), q.visible);
    var ready := Recover(Prepare(p), q.visible);
    if !ready.dead && ready.disk.task.Some? && Granted(ready.disk.task.value.core, q) {
      SubmitSound(ready, q);
    }
  }

  lemma RecoverSound(p: Proc, visible: set<nat>)
    requires DiskSound(p.disk)
    ensures Keeps(p.disk, Recover(p, visible).disk)
  {
    RecoverSteps(p, visible);
  }

  lemma SubmitSound(p: Proc, q: Ask)
    requires DiskSound(p.disk) && p.disk.task.Some? && !p.dead
    ensures Keeps(p.disk, Submit(p, q).disk)
  {
    SubmitSteps(p, q);
    var u := WithAttempt(p.disk.task.value, q);
    assert Sound(u) && Sticky(p.disk.task.value, u);
  }

  /** An update by the client: of the current attempt, storing a receipt only with VERIFIED, with
      a completed view, and only a receipt that names the attempt and replaces none. */
  ghost predicate Proper(d: Disk, u: Update) {
    d.task.Some? && Applies(d.task.value, u) && u.seen.Some? &&
    var t := d.task.value;
    var a := t.core.attempts[Current(t.core).value];
    && (u.state.VERIFIED? <==> u.receipt.Some?)
    && (u.receipt.Some? ==> Names(u.receipt.value, a) && u.seen.value.state.Completed?)
    && (u.receipt.Some? && t.receipt.Some? ==> u.receipt == t.receipt)
  }

  lemma ApplyKeeps(p: Proc, u: Update)
    requires DiskSound(p.disk) && Proper(p.disk, u)
    ensures Keeps(p.disk, Apply(p, u).disk)
    ensures Apply(p, u).disk.task.Some?
    ensures var t, v := p.disk.task.value, Apply(p, u).disk.task.value;
      && Current(v.core) == Current(t.core) && |v.core.attempts| == |t.core.attempts|
      && v.core.attempts[|v.core.attempts| - 1].id == t.core.attempts[|t.core.attempts| - 1].id
      && v.core.attempts[|v.core.attempts| - 1].job == t.core.attempts[|t.core.attempts| - 1].job
      && (u.receipt.None? ==> v.receipt == t.receipt)
  {
    UpdateSteps(p, u);
  }

  /** The attempt the client works on: the current one, as it was when the client read it. */
  ghost predicate Working(d: Disk, a: Attempt, prior: Option<Receipt>) {
    d.task.Some? &&
    var t := d.task.value;
    && t.core.attempts != [] && a.job.Some? && t.receipt == prior
    && t.core.attempts[|t.core.attempts| - 1].id == a.id && t.core.attempts[|t.core.attempts| - 1].job == a.job
  }

  lemma SayKeeps(p: Proc, a: Attempt, prior: Option<Receipt>, u: Update)
    requires DiskSound(p.disk) && !p.dead && Working(p.disk, a, prior)
    requires u.attempt == a.id && TaskState(u.state) && u.seen.Some? && !u.state.VERIFIED? && u.receipt.None?
    ensures Keeps(p.disk, Apply(p, u).disk) && Working(Apply(p, u).disk, a, prior)
  {
    ApplyKeeps(p, u);
  }

  /** A step within one attempt. */
  ghost predicate Within(d: Disk, e: Disk) {
    Keeps(d, e) && Attempted(e) == Attempted(d)
  }

  lemma JudgeKeeps(p: Proc, a: Attempt, prior: Option<Receipt>, view: JobView, ev: Evidence)
    requires DiskSound(p.disk) && Working(p.disk, a, prior) && view.state.Completed?
    ensures Within(p.disk, Judge(p, a, prior, view, ev).0.disk)
  {
    if !p.dead {
      SayKeeps(p, a, prior, Update(a.id, INVALID, Some(view), None));
      if ev.rc == Some(0) && ev.files.Some? && (prior.Some? ==> prior.value.outputs == ev.files.value) {
        var receipt := if prior.Some? then prior.value else ReceiptFor(a, view, 0, ev.files.value);
        ApplyKeeps(p, Update(a.id, VERIFIED, Some(view), Some(receipt)));
      }
    }
  }

  lemma CompletedKeeps(p: Proc, a: Attempt, prior: Option<Receipt>, view: JobView, ev: Evidence)
    requires DiskSound(p.disk) && !p.dead && Working(p.disk, a, prior) && view.state.Completed?
    ensures Within(p.disk, Judge(Apply(p, Update(a.id, COMPLETED, Some(view), None)), a, prior, view, ev).0.disk)
  {
    var u := Update(a.id, COMPLETED, Some(view), None);
    SayKeeps(p, a, prior, u);
    JudgeKeeps(Apply(p, u), a, prior, view, ev);
  }

  lemma ExamineKeeps(p: Proc, a: Attempt, prior: Option<Receipt>, stored: Option<JobView>, ev: Evidence)
    requires DiskSound(p.disk) && !p.dead && Working(p.disk, a, prior)
    ensures Within(p.disk, Examine(p, a, prior, stored, ev).0.disk)
  {
    var v := ev.status;
    if stored.Some? && Terminal(stored.value) {
      if stored.value.state.Completed? {
        CompletedKeeps(p, a, prior, stored.value, ev);
      }
    } else if v.state.Lost? || v.registry {
      SayKeeps(p, a, prior, Update(a.id, UNKNOWN, Some(v), None));
    } else if !Terminal(v) {
      SayKeeps(p, a, prior, Update(a.id, if v.state.Executing? then RUNNING else PENDING, Some(v), None));
    } else if !v.state.Completed? {
      SayKeeps(p, a, prior, Update(a.id, FAILED, Some(v), None));
    } else {
      CompletedKeeps(p, a, prior, v, ev);
    }
  }

  /** A client call keeps the record sound and its receipt sticky, wherever it stops. */
  lemma EnsureTaskKeeps(p: Proc, q: Ask, ev: Evidence)
    requires DiskSound(p.disk)
    ensures Keeps(p.disk, EnsureTask(p, q, ev).0.disk)
  {
    EnsureKeeps(p, q);
    var e := Ensure(p, q);
    if !e.dead && e.disk.task.Some? {
      var t := e.disk.task.value;
      var i := Current(t.core);
      if i.Some? && t.core.attempts[i.value].job.Some? {
        var a := t.core.attempts[i.value];
        ExamineKeeps(e, a, t.receipt, StoredView(t, a.id), ev);
      }
    }
  }

  // ------------------------------------------------------------------ what VERIFIED means

  /** The view of the job that the client goes by. */
  function ViewUsed(stored: Option<JobView>, ev: Evidence): JobView {
    if stored.Some? && Terminal(stored.value) then stored.value else ev.status
  }

  /** Whether the client takes the job for completed. */
  predicate SeenCompleted(stored: Option<JobView>, ev: Evidence) {
    ViewUsed(stored, ev).state.Completed? && ((stored.Some? && Terminal(stored.value)) || !ev.status.registry)
  }

  /** The evidence supports a receipt, given the one there is. */
  predicate Supports(prior: Option<Receipt>, stored: Option<JobView>, ev: Evidence) {
    && SeenCompleted(stored, ev) && ev.declared.Present? && ev.rc == Some(0) && ev.files.Some?
    && (prior.Some? ==> prior.value.outputs == ev.files.value)
  }

  /** A client call that reaches its end reports VERIFIED exactly when the job was seen completed,
      the declared outputs appeared, the validation passed, and the outputs have the fingerprints
      of the earlier receipt if there is one. Then the record is VERIFIED, and its receipt holds
      the fingerprints just taken. */
  lemma VerifiedExactly(p: Proc, a: Attempt, prior: Option<Receipt>, stored: Option<JobView>, ev: Evidence)
    requires DiskSound(p.disk) && !p.dead && Working(p.disk, a, prior)
    ensures var (e, r) := Examine(p, a, prior, stored, ev);
      && (r.Report? ==> (r.state.VERIFIED? <==> Supports(prior, stored, ev)))
      && (r.Report? && r.state.VERIFIED? ==>
            && e.disk.task.Some? && e.disk.task.value.core.state.VERIFIED?
            && e.disk.task.value.receipt == r.receipt && r.receipt.Some?
            && r.receipt.value.outputs == ev.files.value
            && (prior.Some? ==> r.receipt == prior))
  {
    if SeenCompleted(stored, ev) {
      var view := ViewUsed(stored, ev);
      var u := Update(a.id, COMPLETED, Some(view), None);
      SayKeeps(p, a, prior, u);
    }
  }

  // ------------------------------------------------------------------ runs of one client

  datatype Visit = Visit(ask: Ask, evidence: Evidence, life: nat)

  ghost function Visits(d: Disk, visits: seq<Visit>): Disk
    decreases |visits|
  {
    if visits == [] then d
    else
      var v := visits[|visits| - 1];
      EnsureTask(Proc(Visits(d, visits[..|visits| - 1]), v.life, false), v.ask, v.evidence).0.disk
  }

  /** What has been verified is never replaced, only moved to the history by a later attempt. */
  ghost predicate Preserved(d: Disk, e: Disk) {
    d.task.Some? ==>
      && e.task.Some? && d.task.value.history <= e.task.value.history
      && Attempted(d) <= Attempted(e)
      && (d.task.value.receipt.Some? ==>
            if Attempted(e) == Attempted(d) then e.task.value.receipt == d.task.value.receipt
            else d.task.value.receipt.value in e.task.value.history)
  }

  /** After any visits, each stopped anywhere: a verified task has a receipt that names its current
      attempt and that attempt's job, which completed and passed its validation. */
  lemma {:induction false} VisitsSound(visits: seq<Visit>)
    ensures DiskSound(Visits(Blank, visits))
    decreases |visits|
  {
    if visits != [] {
      var n := |visits| - 1;
      VisitsSound(visits[..n]);
      EnsureTaskKeeps(Proc(Visits(Blank, visits[..n]), visits[n].life, false), visits[n].ask, visits[n].evidence);
    }
  }

  /** No receipt issued before has been replaced by another for the same attempt; when a later
      attempt was opened it stands in the history. */
  lemma {:induction false} VisitsPreserve(visits: seq<Visit>, k: nat)
    requires k <= |visits|
    ensures Preserved(Visits(Blank, visits[..k]), Visits(Blank, visits))
    decreases |visits|
  {
    if k == |visits| {
      assert visits[..k] == visits;
    } else {
      var n := |visits| - 1;
      assert visits[..n][..k] == visits[..k];
      VisitsPreserve(visits[..n], k);
      VisitsSound(visits[..n]);
      var d := Visits(Blank, visits[..n]);
      EnsureTaskKeeps(Proc(d, visits[n].life, false), visits[n].ask, visits[n].evidence);
    }
  }

  // ------------------------------------------------------------------ waiting for the outputs

  /** One look at the declared outputs: which are missing, and whether time is up. */
  datatype Look = Look(missing: seq<Path>, late: bool)

  /** `_wait_for_declared_outputs`: the looks end when time is up. */
  method WaitForOutputs(looks: seq<Look>) returns (missing: seq<Path>)
    requires looks != [] && looks[|looks| - 1].late
    ensures missing == [] <==>
      exists i :: 0 <= i < |looks| && looks[i].missing == [] && forall j :: 0 <= j < i ==> !looks[j].late
    ensures missing != [] ==>
      exists i :: 0 <= i < |looks| && looks[i].missing == missing && looks[i].late && forall j :: 0 <= j < i ==> !looks[j].late
  {
    var i := 0;
    while true
      invariant i < |looks| && forall j :: 0 <= j < i ==> !looks[j].late && looks[j].missing != []
      decreases |looks| - i
    {
      missing := looks[i].missing;
      if missing == [] || looks[i].late {
        return;
      }
      i := i + 1;
    }
  }
}
