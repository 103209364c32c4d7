/** The local daemon's job watches: the store, the monitor's tick, and every interleaving of the
    two with stops, restarts and deaths of the daemon. */
module JobWatch {
  import opened Common

  type WatchId = nat
  type JobName = nat
  type TaskName = nat
  type Host = nat

  // ------------------------------------------------------------------ data

  datatype Seen = Unknown | Known(name: nat)

  /** What a report says of a job, and what a watch keeps of it. `seen` are its array tasks. */
  datatype Observation = Observation(state: Seen, terminal: bool, failed: bool, seen: set<TaskName>, retained: bool)

  datatype Condition = AllTerminal | AnyFailed | Either

  datatype Status = Active | Stopped | Finished

  datatype Delivery = Pending | Disabled | Uncertain | Sent | Failed

  datatype Verdict = Verdict(anyFailed: bool, conditionMet: bool, allTerminal: bool)

  datatype Watch = Watch(
    id: WatchId, host: Host, jobs: set<JobName>, condition: Condition, poll: nat, notify: bool, status: Status,
    observations: map<JobName, Observation>, error: bool, result: Option<Verdict>, delivery: Delivery)

  datatype Row = Row(active: bool, nextPoll: nat, data: Watch)

  type Table = map<WatchId, Row>

  // ------------------------------------------------------------------ the store

  /** The identity of a watch is its specification, so a watch that exists is left as it is. */
  function Started(db: Table, w: Watch): Table {
    if w.id in db then db else db[w.id := Row(true, 0, w)]
  }

  /** A new watch, as `start` builds it. */
  predicate IsNew(w: Watch) {
    w.status.Active? && w.observations == map[] && w.result.None? && w.jobs != {}
  }

  function StoppedRow(db: Table, id: WatchId): Table {
    if id !in db || !db[id].data.status.Active? then db
    else db[id := Row(false, db[id].nextPoll, db[id].data.(status := Stopped))]
  }

  predicate Due(r: Row, now: nat) {
    r.active && r.nextPoll <= now
  }

  /** A save counts only while the row is active: a stop wins. */
  function Saved(db: Table, w: Watch, now: nat): Table {
    if w.id in db && db[w.id].active then db[w.id := Row(w.status.Active?, now + w.poll, w)] else db
  }

  function Delivered(db: Table, id: WatchId, ok: bool): Table {
    if id !in db then db else db[id := db[id].(data := db[id].data.(delivery := if ok then Sent else Failed))]
  }

  // ------------------------------------------------------------------ one observation

  const Nothing := Observation(Unknown, false, false, {}, false)

  /** A fresh report of a job, merged with what the watch kept of it. */
  function Merge(before: Observation, item: Observation): Observation {
    if item.state.Unknown? && before.terminal then before.(retained := true)
    else if !(before.seen <= item.seen) then item.(state := Unknown, terminal := false, seen := before.seen + item.seen)
    else item
  }

  function Before(w: Watch, job: JobName): Observation {
    if job in w.observations then w.observations[job] else Nothing
  }

  datatype Outcome = TargetChanged | Unavailable | Observed(report: map<JobName, Observation>)

  predicate Covers(o: Outcome, w: Watch) {
    o.Observed? ==> w.jobs <= o.report.Keys
  }

  function Merged(w: Watch, report: map<JobName, Observation>): map<JobName, Observation>
    requires w.jobs <= report.Keys
  {
    map job | job in w.jobs :: Merge(Before(w, job), report[job])
  }

  predicate AnyOneFailed(obs: map<JobName, Observation>) {
    exists job :: job in obs && obs[job].failed
  }

  predicate Complete(obs: map<JobName, Observation>) {
    forall job :: job in obs ==> obs[job].terminal
  }

  /** What a tick makes of a watch. */
  function Ticked(w: Watch, o: Outcome): Watch
    requires Covers(o, w)
  {
    match o
    case TargetChanged => w.(error := true)
    case Unavailable => w.(error := true)
    case Observed(report) =>
      var obs := Merged(w, report);
      var next := w.(observations := obs, error := false);
      var triggered := AnyOneFailed(obs) && !w.condition.AllTerminal?;
      if Complete(obs) || triggered then
        next.(status := Finished,
              result := Some(Verdict(triggered, triggered || !w.condition.AnyFailed?, Complete(obs))),
              delivery := if w.notify then Uncertain else w.delivery)
      else next
  }

  // ------------------------------------------------------------------ what a tick must do

  /** The job was known to have ended, and the report knows nothing of it. */
  predicate Retains(w: Watch, report: map<JobName, Observation>, job: JobName)
    requires job in report
  {
    job in w.observations && w.observations[job].terminal && report[job].state == Unknown
  }

  /** The report names every task of the job that was seen before. */
  predicate NamesAll(w: Watch, report: map<JobName, Observation>, job: JobName)
    requires job in report
  {
    job in w.observations ==> w.observations[job].seen <= report[job].seen
  }

  /** By the report and what was kept, the job has ended. */
  predicate HasEnded(w: Watch, report: map<JobName, Observation>, job: JobName)
    requires job in report
  {
    Retains(w, report, job) || (report[job].terminal && NamesAll(w, report, job))
  }

  /** By the report and what was kept, the job has failed. */
  predicate HasFailed(w: Watch, report: map<JobName, Observation>, job: JobName)
    requires job in report
  {
    if Retains(w, report, job) then w.observations[job].failed else report[job].failed
  }

  /** Some job has failed and the watch was not set to wait for all of them. */
  predicate Fails(w: Watch, report: map<JobName, Observation>)
    requires w.jobs <= report.Keys
  {
    w.condition != AllTerminal && exists job :: job in w.jobs && HasFailed(w, report, job)
  }

  predicate AllEnded(w: Watch, report: map<JobName, Observation>)
    requires w.jobs <= report.Keys
  {
    forall job :: job in w.jobs ==> HasEnded(w, report, job)
  }

  /** The watch finishes. */
  predicate Finishes(w: Watch, o: Outcome)
    requires Covers(o, w)
  {
    o.Observed? && (AllEnded(w, o.report) || Fails(w, o.report))
  }

  /** What is kept of a job. */
  predicate KeptOf(w: Watch, report: map<JobName, Observation>, job: JobName, kept: Observation)
    requires job in report
  {
    && kept.terminal == HasEnded(w, report, job) && kept.failed == HasFailed(w, report, job)
    && (Retains(w, report, job) ==>
          kept.retained && kept.seen == w.observations[job].seen && kept.state == w.observations[job].state)
    && (!Retains(w, report, job) ==>
          && kept.retained == report[job].retained
          && kept.seen == report[job].seen + (if job in w.observations then w.observations[job].seen else {})
          && kept.state == if NamesAll(w, report, job) then report[job].state else Unknown)
  }

  /** The watch a tick must leave of an active one: without a report only the error is noted; with
      one, each job is kept as it must be, and the watch finishes or goes on. */
  ghost predicate TickIs(w: Watch, o: Outcome, next: Watch)
    requires Covers(o, w)
  {
    if !o.Observed? then next == w.(error := true)
    else
      && next == w.(observations := next.observations, error := false, status := next.status, result := next.result,
                    delivery := next.delivery)
      && next.observations.Keys == w.jobs
      && (forall job :: job in w.jobs ==> KeptOf(w, o.report, job, next.observations[job]))
      && next.status == (if Finishes(w, o) then Finished else w.status)
      && next.delivery == (if Finishes(w, o) && w.notify then Uncertain else w.delivery)
      && next.result == if Finishes(w, o) then
                          Some(Verdict(Fails(w, o.report), Fails(w, o.report) || w.condition != AnyFailed,
                                       AllEnded(w, o.report)))
                        else w.result
  }

  lemma MergeKeeps(w: Watch, report: map<JobName, Observation>, job: JobName)
    requires job in report
    ensures KeptOf(w, report, job, Merge(Before(w, job), report[job]))
  {
    assert report[job].seen + {} == report[job].seen;
  }

  lemma TickedIs(w: Watch, o: Outcome)
    requires Covers(o, w)
    ensures TickIs(w, o, Ticked(w, o))
  {
    if o.Observed? {
      var obs := Merged(w, o.report);
      forall job | job in w.jobs ensures KeptOf(w, o.report, job, obs[job]) {
        MergeKeeps(w, o.report, job);
      }
      assert AnyOneFailed(obs) <==> exists job :: job in w.jobs && HasFailed(w, o.report, job) by {
        if job :| job in w.jobs && HasFailed(w, o.report, job) {
          assert obs[job].failed;
        }
      }
      assert Complete(obs) <==> AllEnded(w, o.report) by {
        assert forall job :: job in w.jobs ==> obs[job].terminal == HasEnded(w, o.report, job);
      }
    }
  }

  // ------------------------------------------------------------------ what merging does

  /** A merged observation is terminal exactly when it was and the report knows nothing, or when
      the report is terminal and names every task seen before. */
  lemma TerminalExactly(before: Observation, item: Observation)
    ensures Merge(before, item).terminal <==>
      || (before.terminal && item.state.Unknown?)
      || (item.terminal && before.seen <= item.seen && !(item.state.Unknown? && before.terminal))
  {
  }

  /** A terminal observation becomes UNKNOWN exactly when a report that knows the job's state has
      lost one of its tasks; a report of UNKNOWN never does it. */
  lemma OverwrittenExactly(before: Observation, item: Observation)
    requires before.terminal && !before.state.Unknown?
    ensures Merge(before, item).state.Unknown? <==> !item.state.Unknown? && !(before.seen <= item.seen)
  {
  }

  /** It does happen: an array that ended with tasks 1 and 2, reported again with task 1 only. */
  lemma TerminalOverwritten()
    ensures var before := Observation(Known(0), true, false, {1, 2}, false);
      var item := Observation(Known(0), true, false, {1}, false);
      Merge(before, item) == Observation(Unknown, false, false, {1, 2}, false)
  {
    assert 2 !in {1};
    assert {1, 2} + {1} == {1, 2};
  }

  // ------------------------------------------------------------------ the interleaving

  /** The monitor between two of its steps: the watches still to process, and the notification it
      owes or has sent. */
  datatype Phase =
    | Idle
    | Busy(now: nat, rest: seq<Watch>)
    | Owing(id: WatchId, now: nat, rest: seq<Watch>)
    | Telling(id: WatchId, ok: bool, now: nat, rest: seq<Watch>)

  datatype Machine = Machine(db: Table, phase: Phase, notified: seq<WatchId>)

  const Init := Machine(map[], Idle, [])

  datatype Step =
    | Start(watch: Watch)
    | Stop(id: WatchId)
    | Load(now: nat, selected: seq<Watch>)
    | Process(outcome: Outcome)
    | Notify(ok: bool)
    | Record
    | Die

  ghost predicate Selected(db: Table, now: nat, selected: seq<Watch>) {
    && (forall i :: 0 <= i < |selected| ==>
          selected[i].id in db && Due(db[selected[i].id], now) && db[selected[i].id].data == selected[i])
    && (forall i, j :: 0 <= i < j < |selected| ==> selected[i].id != selected[j].id)
  }

  ghost predicate Enabled(m: Machine, s: Step) {
    match s
    case Start(w) => IsNew(w)
    case Stop(_) => true
    case Load(now, selected) => m.phase.Idle? && Selected(m.db, now, selected)
    case Process(o) => m.phase.Busy? && m.phase.rest != [] && Covers(o, m.phase.rest[0])
    case Notify(_) => m.phase.Owing?
    case Record => m.phase.Telling?
    case Die => true
  }

  function Resume(now: nat, rest: seq<Watch>): Phase {
    if rest == [] then Idle else Busy(now, rest)
  }

  ghost function Apply(m: Machine, s: Step): Machine
    requires Enabled(m, s)
  {
    match s
    case Start(w) => m.(db := Started(m.db, w))
    case Stop(id) => m.(db := StoppedRow(m.db, id))
    case Load(now, selected) => m.(phase := Resume(now, selected))
    case Process(o) =>
      var w := Ticked(m.phase.rest[0], o);
      var took := w.id in m.db && m.db[w.id].active;
      var rest := m.phase.rest[1..];
      m.(db := Saved(m.db, w, m.phase.now),
         phase := if took && w.status.Finished? && w.notify then Owing(w.id, m.phase.now, rest) else Resume(m.phase.now, rest))
    case Notify(ok) =>
      m.(notified := m.notified + [m.phase.id], phase := Telling(m.phase.id, ok, m.phase.now, m.phase.rest))
    case Record =>
      m.(db := Delivered(m.db, m.phase.id, m.phase.ok), phase := Resume(m.phase.now, m.phase.rest))
    case Die => m.(phase := Idle)
  }

  // ------------------------------------------------------------------ what every step keeps

  /** A finished watch has a verdict that its observations bear out. */
  predicate VerdictOk(w: Watch) {
    w.status.Finished? ==>
      && w.result.Some? && w.observations.Keys == w.jobs
      && (w.result.value.allTerminal <==> Complete(w.observations))
      && (w.result.value.anyFailed <==> AnyOneFailed(w.observations) && !w.condition.AllTerminal?)
      && (w.result.value.allTerminal || w.result.value.anyFailed)
      && (w.result.value.conditionMet <==>
            match w.condition
            case AllTerminal => Complete(w.observations)
            case AnyFailed => AnyOneFailed(w.observations)
            case Either => true)
  }

  predicate RowOk(id: WatchId, r: Row) {
    r.data.id == id && (r.active <==> r.data.status.Active?) && VerdictOk(r.data)
  }

  ghost predicate TableOk(db: Table) {
    forall id :: id in db ==> RowOk(id, db[id])
  }

  /** A watch being processed is the one in the table, unless it has been stopped meanwhile. */
  ghost predicate Pending(db: Table, rest: seq<Watch>) {
    && (forall i :: 0 <= i < |rest| ==>
          rest[i].status.Active? && rest[i].id in db && (db[rest[i].id].active ==> db[rest[i].id].data == rest[i]))
    && (forall i, j :: 0 <= i < j < |rest| ==> rest[i].id != rest[j].id)
  }

  ghost predicate Inv(m: Machine) {
    && TableOk(m.db)
    && (!m.phase.Idle? ==> Pending(m.db, m.phase.rest))
    && (forall i :: 0 <= i < |m.notified| ==>
          m.notified[i] in m.db && m.db[m.notified[i]].data.status.Finished? && m.db[m.notified[i]].data.notify)
    && (forall i, j :: 0 <= i < j < |m.notified| ==> m.notified[i] != m.notified[j])
    && (m.phase.Owing? ==>
          m.phase.id in m.db && m.db[m.phase.id].data.status.Finished? && m.db[m.phase.id].data.notify &&
          m.phase.id !in m.notified)
    && (m.phase.Telling? ==> m.phase.id in m.notified)
  }

  lemma ProcessKeeps(m: Machine, o: Outcome)
    requires Inv(m) && Enabled(m, Process(o))
    ensures Inv(Apply(m, Process(o)))
  {
    var w := m.phase.rest[0];
    var db := Saved(m.db, Ticked(w, o), m.phase.now);
    var rest := m.phase.rest[1..];
    forall i | 0 <= i < |rest|
      ensures rest[i].status.Active? && rest[i].id in db && (db[rest[i].id].active ==> db[rest[i].id].data == rest[i])
    {
      assert rest[i] == m.phase.rest[i + 1];
    }
    assert Pending(db, rest);
  }

  lemma StepKeeps(m: Machine, s: Step)
    requires Inv(m) && Enabled(m, s)
    ensures Inv(Apply(m, s))
  {
    match s
    case Process(o) => ProcessKeeps(m, o);
    case Load(now, selected) =>
      forall i | 0 <= i < |selected| ensures selected[i].status.Active? {
        assert RowOk(selected[i].id, m.db[selected[i].id]);
      }
    case _ =>
  }

  /** How a row may change. */
  ghost predicate RowMoves(a: Row, b: Row) {
    && a.data.id == b.data.id && a.data.jobs == b.data.jobs && a.data.notify == b.data.notify
    && (!a.active ==>
          !b.active && b.data.status == a.data.status && b.data.observations == a.data.observations &&
          b.data.result == a.data.result)
    && (forall job :: job in a.data.observations ==>
          job in b.data.observations && a.data.observations[job].seen <= b.data.observations[job].seen)
  }

  ghost predicate Moves(m: Machine, n: Machine) {
    && (forall id :: id in m.db ==> id in n.db && RowMoves(m.db[id], n.db[id]))
    && m.notified <= n.notified
  }

  lemma TickedMoves(w: Watch, o: Outcome, now: nat)
    requires Covers(o, w) && w.status.Active? && w.observations.Keys <= w.jobs
    ensures var t := Ticked(w, o);
      && RowMoves(Row(true, now, w), Row(t.status.Active?, now + w.poll, t))
      && t.observations.Keys <= t.jobs
  {
    if o.Observed? {
      forall job | job in w.observations
        ensures job in Ticked(w, o).observations && w.observations[job].seen <= Ticked(w, o).observations[job].seen
      {
        assert w.observations[job].seen <= Merge(w.observations[job], o.report[job]).seen;
      }
    }
  }

  lemma ProcessMoves(m: Machine, o: Outcome)
    requires Inv(m) && Enabled(m, Process(o)) && ObservationsOk(m)
    ensures Moves(m, Apply(m, Process(o))) && ObservationsOk(Apply(m, Process(o)))
  {
    var w := m.phase.rest[0];
    TickedMoves(w, o, m.phase.now);
  }

  lemma StepMoves(m: Machine, s: Step)
    requires Inv(m) && Enabled(m, s) && ObservationsOk(m)
    ensures Moves(m, Apply(m, s)) && ObservationsOk(Apply(m, s))
  {
    match s
    case Process(o) => ProcessMoves(m, o);
    case _ =>
  }

  /** A watch keeps observations of its own jobs only. */
  ghost predicate ObservationsOk(m: Machine) {
    && (forall id :: id in m.db ==> m.db[id].data.observations.Keys <= m.db[id].data.jobs)
    && (!m.phase.Idle? ==> forall i :: 0 <= i < |m.phase.rest| ==> m.phase.rest[i].observations.Keys <= m.phase.rest[i].jobs)
  }

  // ------------------------------------------------------------------ runs

  ghost predicate Runs(m: Machine, steps: seq<Step>, last: Machine)
    decreases |steps|
  {
    if steps == [] then last == m
    else Enabled(m, steps[0]) && Runs(Apply(m, steps[0]), steps[1..], last)
  }

  lemma MovesTransitive(a: Machine, b: Machine, c: Machine)
    requires Moves(a, b) && Moves(b, c)
    ensures Moves(a, c)
  {
    forall id | id in a.db ensures id in c.db && RowMoves(a.db[id], c.db[id]) {
      assert RowMoves(a.db[id], b.db[id]) && RowMoves(b.db[id], c.db[id]);
      forall job | job in a.db[id].data.observations
        ensures job in c.db[id].data.observations &&
                a.db[id].data.observations[job].seen <= c.db[id].data.observations[job].seen
      {
        assert job in b.db[id].data.observations;
      }
    }
  }

  lemma {:induction false} RunKeeps(m: Machine, steps: seq<Step>, last: Machine)
    requires Inv(m) && ObservationsOk(m) && Runs(m, steps, last)
    ensures Inv(last) && ObservationsOk(last) && Moves(m, last)
    decreases |steps|
  {
    if steps != [] {
      StepKeeps(m, steps[0]);
      StepMoves(m, steps[0]);
      RunKeeps(Apply(m, steps[0]), steps[1..], last);
      MovesTransitive(m, Apply(m, steps[0]), last);
    }
  }

  /** A watch that has been stopped or has finished is never active again, whatever follows:
      starting the same watch, saves that were under way, deaths of the daemon. Its verdict and its
      observations stay. */
  lemma NeverActiveAgain(before: seq<Step>, m: Machine, after: seq<Step>, last: Machine, id: WatchId)
    requires Runs(Init, before, m) && Runs(m, after, last) && id in m.db && !m.db[id].active
    ensures !m.db[id].data.status.Active?
    ensures id in last.db && !last.db[id].active && last.db[id].data.status == m.db[id].data.status
    ensures last.db[id].data.observations == m.db[id].data.observations && last.db[id].data.result == m.db[id].data.result
  {
    RunKeeps(Init, before, m);
    RunKeeps(m, after, last);
    assert RowOk(id, m.db[id]) && RowMoves(m.db[id], last.db[id]);
  }

  /** One watch of a tick, while stops and starts may have come between. Its row takes what the tick
      leaves, and is due again after the poll interval, exactly when it is still active; and a
      notification is owed exactly when that save took, the watch finishes and it notifies. */
  lemma OwedExactly(before: seq<Step>, m: Machine, o: Outcome)
    requires Runs(Init, before, m) && Enabled(m, Process(o))
    ensures var w, n := m.phase.rest[0], Apply(m, Process(o));
      && w.id in m.db && n.db.Keys == m.db.Keys && (forall id :: id in m.db && id != w.id ==> n.db[id] == m.db[id])
      && (n.phase.Owing? <==> m.db[w.id].active && Finishes(w, o) && w.notify)
      && (n.phase.Owing? ==> n.phase.id == w.id)
      && (!m.db[w.id].active ==> n.db == m.db)
      && (m.db[w.id].active ==>
            && m.db[w.id].data == w && TickIs(w, o, n.db[w.id].data)
            && n.db[w.id].nextPoll == m.phase.now + w.poll && (n.db[w.id].active <==> !Finishes(w, o)))
  {
    RunKeeps(Init, before, m);
    TickedIs(m.phase.rest[0], o);
    assert RowOk(m.phase.rest[0].id, m.db[m.phase.rest[0].id]);
  }

  /** At most one notification is ever sent for a watch, and only for one that finished and asked
      for it; so none for a watch that was stopped. */
  lemma NotifiedAtMostOnce(steps: seq<Step>, m: Machine)
    requires Runs(Init, steps, m)
    ensures forall i, j :: 0 <= i < j < |m.notified| ==> m.notified[i] != m.notified[j]
    ensures forall i :: 0 <= i < |m.notified| ==>
      m.notified[i] in m.db && m.db[m.notified[i]].data.status.Finished? && m.db[m.notified[i]].data.notify
  {
    RunKeeps(Init, steps, m);
  }

  /** The array tasks a watch has kept are kept by every later state of it. */
  lemma SeenTasksOnlyGrow(before: seq<Step>, m: Machine, after: seq<Step>, last: Machine, id: WatchId, job: JobName)
    requires Runs(Init, before, m) && Runs(m, after, last) && id in m.db && job in m.db[id].data.observations
    ensures id in last.db && job in last.db[id].data.observations
    ensures m.db[id].data.observations[job].seen <= last.db[id].data.observations[job].seen
  {
    RunKeeps(Init, before, m);
    RunKeeps(m, after, last);
    assert RowMoves(m.db[id], last.db[id]);
  }

  /** A finished watch has one observation of each of its jobs, and its verdict is theirs: all
      terminal exactly when each is, and so on for each condition. */
  lemma VerdictIsBorneOut(steps: seq<Step>, m: Machine, id: WatchId)
    requires Runs(Init, steps, m) && id in m.db
    ensures m.db[id].data.id == id && VerdictOk(m.db[id].data)
  {
    RunKeeps(Init, steps, m);
    assert RowOk(id, m.db[id]);
  }

  /** A tick finds all jobs terminal only if each was reported terminal with every task seen before
      it, or was terminal before and the report knows nothing of it. */
  lemma AllTerminalIsSound(w: Watch, report: map<JobName, Observation>)
    requires w.jobs <= report.Keys && w.status.Active? && w.result.None?
    ensures var t := Ticked(w, Observed(report));
      t.result.Some? && t.result.value.allTerminal ==>
        forall job :: job in w.jobs ==>
          var before := Before(w, job);
          || (report[job].terminal && before.seen <= report[job].seen)
          || (before.terminal && report[job].state.Unknown?)
  {
    var t := Ticked(w, Observed(report));
    if t.result.Some? && t.result.value.allTerminal {
      forall job | job in w.jobs
        ensures (report[job].terminal && Before(w, job).seen <= report[job].seen) ||
                (Before(w, job).terminal && report[job].state.Unknown?)
      {
        assert t.observations[job].terminal;
        TerminalExactly(Before(w, job), report[job]);
      }
    }
  }

  /** A stop that races a tick wins: the save that follows changes nothing, and no notification is
      owed. */
  lemma StopWins(m: Machine, id: WatchId, o: Outcome)
    requires Inv(m) && m.phase.Busy? && m.phase.rest != [] && Covers(o, m.phase.rest[0]) && m.phase.rest[0].id == id
    ensures var n := Apply(Apply(m, Stop(id)), Process(o));
      && n.db == StoppedRow(m.db, id) && id in n.db && !n.db[id].active
      && !n.phase.Owing?
  {
    assert RowOk(id, m.db[id]);
  }

  // ------------------------------------------------------------------ the store and the tick

  class WatchStore {
    var rows: Table

    constructor ()
      ensures rows == map[]
    {
      rows := map[];
    }

    /** `INSERT OR IGNORE`. */
    method Insert(w: Watch)
      modifies this
      ensures rows == Started(old(rows), w)
      ensures rows == if w.id in old(rows) then old(rows) else old(rows)[w.id := Row(true, 0, w)]
    {
      if w.id !in rows {
        rows := rows[w.id := Row(true, 0, w)];
      }
    }

    method Stop(id: WatchId) returns (found: bool)
      modifies this
      ensures rows == StoppedRow(old(rows), id) && found == (id in old(rows))
      ensures rows.Keys == old(rows).Keys && forall x :: x in rows && x != id ==> rows[x] == old(rows)[x]
      ensures found && old(rows)[id].data.status == Active ==>
        rows[id] == Row(false, old(rows)[id].nextPoll, old(rows)[id].data.(status := Stopped))
      ensures found && old(rows)[id].data.status != Active ==> rows[id] == old(rows)[id]
    {
      found := id in rows;
      if found {
        var data := rows[id].data;
        if data.status.Active? {
          rows := rows[id := rows[id].(active := false, data := data.(status := Stopped))];
        }
      }
    }

    /** The guarded update: whether a row was changed. */
    method Save(w: Watch, now: nat) returns (changed: bool)
      modifies this
      ensures rows == Saved(old(rows), w, now) && changed == (w.id in old(rows) && old(rows)[w.id].active)
      ensures rows == if changed then old(rows)[w.id := Row(w.status == Active, now + w.poll, w)] else old(rows)
    {
      changed := w.id in rows && rows[w.id].active;
      if changed {
        rows := rows[w.id := Row(w.status.Active?, now + w.poll, w)];
      }
    }

    method Deliver(id: WatchId, ok: bool)
      modifies this
      ensures rows == Delivered(old(rows), id, ok)
      ensures rows.Keys == old(rows).Keys && forall x :: x in rows && x != id ==> rows[x] == old(rows)[x]
      ensures id in rows ==>
        rows[id] == old(rows)[id].(data := old(rows)[id].data.(delivery := if ok then Sent else Failed))
    {
      if id in rows {
        var data := rows[id].data.(delivery := if ok then Sent else Failed);
        rows := rows[id := rows[id].(data := data)];
      }
    }
  }

  ghost function JobsOf(ws: seq<Watch>): set<JobName> {
    set w, job | w in ws && job in w.jobs :: job
  }

  /** A watch is taken on behind those taken before it. */
  ghost predicate Takes(due: seq<Watch>, k: nat, taken: seq<Watch>, limit: nat)
    requires k < |due|
  {
    due[k].host == due[0].host && |JobsOf(taken) + due[k].jobs| <= limit
  }

  /** The indices taken, in order, each exactly when it fits behind the earlier ones. */
  ghost predicate Greedy(due: seq<Watch>, n: nat, at: seq<nat>, limit: nat)
    requires n <= |due|
  {
    && (forall i :: 0 <= i < |at| ==> at[i] < n)
    && (forall i, j :: 0 <= i < j < |at| ==> at[i] < at[j])
    && (forall k :: 0 <= k < n ==> InTurn(due, k, at, limit))
  }

  ghost predicate InTurn(due: seq<Watch>, k: nat, at: seq<nat>, limit: nat)
    requires k < |due|
  {
    exists c :: 0 <= c <= |at| && Splits(at, k, c) && (k in at <==> Takes(due, k, At(due, at[..c]), limit))
  }

  /** The first `c` indices are the earlier ones. */
  ghost predicate Splits(at: seq<nat>, k: nat, c: nat)
    requires c <= |at|
  {
    (forall i :: 0 <= i < c ==> at[i] < k) && (forall i :: c <= i < |at| ==> at[i] >= k)
  }

  ghost function At(due: seq<Watch>, at: seq<nat>): seq<Watch>
    requires due != []
  {
    seq(|at|, i requires 0 <= i < |at| => if at[i] < |due| then due[at[i]] else due[0])
  }

  lemma StaysInTurn(due: seq<Watch>, k: nat, at: seq<nat>, n: nat, limit: nat)
    requires k < n < |due| && InTurn(due, k, at, limit)
    ensures InTurn(due, k, at + [n], limit)
  {
    var c :| 0 <= c <= |at| && Splits(at, k, c) && (k in at <==> Takes(due, k, At(due, at[..c]), limit));
    assert (at + [n])[..c] == at[..c];
    assert k in at + [n] <==> k in at;
    assert Splits(at + [n], k, c);
  }

  lemma GreedyNext(due: seq<Watch>, n: nat, at: seq<nat>, limit: nat)
    requires n < |due| && Greedy(due, n, at, limit)
    ensures Greedy(due, n + 1, if Takes(due, n, At(due, at), limit) then at + [n] else at, limit)
  {
    assert n !in at && at[..|at|] == at;
    if Takes(due, n, At(due, at), limit) {
      forall k | 0 <= k < n ensures InTurn(due, k, at + [n], limit) {
        StaysInTurn(due, k, at, n, limit);
      }
      assert (at + [n])[..|at|] == at;
      assert Splits(at + [n], n, |at|);
    } else {
      assert Splits(at, n, |at|);
    }
  }

  lemma TakeNext(due: seq<Watch>, i: nat, at: seq<nat>, selected: seq<Watch>, jobs: set<JobName>, limit: nat)
    requires i < |due| && Greedy(due, i, at, limit) && selected == At(due, at) && jobs == JobsOf(selected)
    ensures var fits := due[i].host == due[0].host && |jobs + due[i].jobs| <= limit;
      && At(due, at + [i]) == selected + [due[i]] && JobsOf(selected + [due[i]]) == jobs + due[i].jobs
      && Greedy(due, i + 1, if fits then at + [i] else at, limit)
  {
    GreedyNext(due, i, at, limit);
    JobsGrow(selected, due[i]);
    AtNext(due, at, i);
  }

  lemma JobsGrow(ws: seq<Watch>, w: Watch)
    ensures JobsOf(ws + [w]) == JobsOf(ws) + w.jobs
  {
    assert forall x :: x in ws + [w] <==> x in ws || x == w;
  }

  lemma AtNext(due: seq<Watch>, at: seq<nat>, i: nat)
    requires i < |due|
    ensures At(due, at + [i]) == At(due, at) + [due[i]]
  {
  }

  /** The watches a tick takes on: of the host of the first one due, in order, each exactly when
      the jobs of all taken before it and its own stay within the query limit. */
  method SelectDue(due: seq<Watch>, limit: nat)
    returns (selected: seq<Watch>, jobs: set<JobName>, ghost at: seq<nat>)
    requires due != []
    ensures jobs == JobsOf(selected) && |jobs| <= limit
    ensures Greedy(due, |due|, at, limit) && selected == At(due, at)
  {
    selected, jobs, at := [], {}, [];
    for i := 0 to |due|
      invariant jobs == JobsOf(selected) && |jobs| <= limit
      invariant Greedy(due, i, at, limit) && selected == At(due, at)
    {
      TakeNext(due, i, at, selected, jobs, limit);
      var merged := jobs + due[i].jobs;
      if due[i].host == due[0].host && |merged| <= limit {
        selected, jobs, at := selected + [due[i]], merged, at + [i];
      }
    }
  }

  /** What the loop over one watch's jobs leaves, as the tick computes it. */
  method ObserveJobs(w: Watch, report: map<JobName, Observation>)
    returns (current: map<JobName, Observation>, failed: bool, complete: bool)
    requires w.jobs <= report.Keys
    ensures current == Merged(w, report)
    ensures failed == AnyOneFailed(current) && complete == Complete(current)
  {
    current, failed, complete := map[], false, true;
    var rest := w.jobs;
    while rest != {}
      invariant rest <= w.jobs && current.Keys == w.jobs - rest
      invariant forall job :: job in current ==> current[job] == Merge(Before(w, job), report[job])
      invariant failed == AnyOneFailed(current) && complete == Complete(current)
      decreases rest
    {
      var job :| job in rest;
      var item := report[job];
      var before := if job in w.observations then w.observations[job] else Nothing;
      if item.state.Unknown? && before.terminal {
        item := before.(retained := true);
      } else if !(before.seen <= item.seen) {
        item := item.(state := Unknown, terminal := false, seen := before.seen + item.seen);
      }
      ghost var was := current;
      current, rest := current[job := item], rest - {job};
      failed, complete := failed || item.failed, complete && item.terminal;
      assert AnyOneFailed(current) <==> AnyOneFailed(was) || item.failed by {
        assert current[job].failed == item.failed;
        if AnyOneFailed(was) {
          var j :| j in was && was[j].failed;
          assert current[j].failed;
        }
      }
      assert Complete(current) <==> Complete(was) && item.terminal by {
        assert current[job].terminal == item.terminal;
        assert forall j :: j in was ==> current[j] == was[j];
      }
    }
  }

  /** One watch of the tick. */
  method TickOne(w: Watch, o: Outcome) returns (next: Watch)
    requires Covers(o, w)
    ensures next == Ticked(w, o)
    ensures TickIs(w, o, next)
    ensures w.status.Active? && w.result.None? ==>
      (next.status.Finished? <==> Finishes(w, o)) && (next.result.Some? <==> next.status.Finished?)
  {
    TickedIs(w, o);
    match o {
      case TargetChanged => next := w.(error := true);
      case Unavailable => next := w.(error := true);
      case Observed(report) =>
        var current, failed, complete := ObserveJobs(w, report);
        next := w.(observations := current, error := false);
        var triggered := failed && !w.condition.AllTerminal?;
        if complete || triggered {
          next := next.(status := Finished, result := Some(Verdict(triggered, triggered || !w.condition.AnyFailed?, complete)));
          if w.notify {
            next := next.(delivery := Uncertain);
          }
        }
    }
  }
}
