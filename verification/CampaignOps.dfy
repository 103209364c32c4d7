/** The two operations on the execution ledger, as functions of the durable files, the
    scheduler's answers and the moment the process dies; and the proof that whatever they leave
    behind is reached by steps of the small-step machine. */
module CampaignOps {
  import opened Common
  import opened Attempts
  import opened CampaignLedger

  /** The durable files of one run directory, and what the outside world has seen. `mirrors`
      are the per-group records; a run that predates the ledger has only those. */
  datatype World = World(ledger: Option<Ledger>, mirrors: map<Id, Group>, events: seq<Event>)

  // ------------------------------------------------------------------ import

  function CurrentAttempt(g: Group): Attempt
    requires Current(g.core).Some?
  {
    g.core.attempts[Current(g.core).value]
  }

  /** A unit goes to the group whose current attempt is at least as new. */
  predicate Yields(led: Ledger, u: UnitId, createdAt: int) {
    u in led.units && led.units[u].group in led.groups &&
    Current(led.groups[led.units[u].group].core).Some? ==>
      createdAt >= CurrentAttempt(led.groups[led.units[u].group]).createdAt
  }

  function ImportUnits(led: Ledger, mapping: seq<UnitId>, g: Id, a: Attempt): (out: Ledger)
    ensures out.groups == led.groups && out.consumed == led.consumed
  {
    if mapping == [] then led
    else
      var n := |mapping| - 1;
      var before := ImportUnits(led, mapping[..n], g, a);
      if Yields(before, mapping[n], a.createdAt) then
        before.(units := before.units[mapping[n] := Reservation(g, a.id)])
      else before
  }

  function ImportGroup(led: Ledger, g: Id, record: Group): Ledger {
    var with := led.(groups := led.groups[g := record]);
    if Current(record.core).None? then with
    else ImportUnits(with, record.contract.mapping, g, CurrentAttempt(record))
  }

  function ImportGroups(mirrors: map<Id, Group>, ids: seq<Id>): Ledger
    requires forall g :: g in ids ==> g in mirrors
  {
    if ids == [] then EmptyLedger
    else
      var n := |ids| - 1;
      ImportGroup(ImportGroups(mirrors, ids[..n]), ids[n], mirrors[ids[n]])
  }

  ghost function Import(mirrors: map<Id, Group>): Ledger {
    ImportGroups(mirrors, Sorted(mirrors.Keys))
  }

  /** The import raises when a group with a current attempt has no usable unit mapping. */
  predicate RecordOk(record: Group) {
    Current(record.core).Some? ==> MappingOk(record.contract)
  }

  predicate Importable(mirrors: map<Id, Group>) {
    forall g :: g in mirrors ==> RecordOk(mirrors[g])
  }

  /** The ledger an operation works on, or nothing when the import raises. */
  ghost function Load(w: World): Option<Ledger> {
    if w.ledger.Some? then w.ledger
    else if Importable(w.mirrors) then Some(Import(w.mirrors))
    else None
  }

  // ------------------------------------------------------------------ one live process

  /** A process holding the lease: its copy of the ledger, the world, the durable effects it
      will still live through, whether it has stopped, and the groups it saw accepted. */
  datatype Proc = Proc(led: Ledger, w: World, life: nat, dead: bool, submitted: set<Id>)

  /** Replaces the ledger file, then the group's mirror. Every replacement is atomic; the
      process may stop before either one. */
  function Commit(p: Proc, led: Ledger, g: Id, note: seq<Event>): Proc {
    if p.dead || p.life == 0 then p.(dead := true)
    else
      var w1 := World(Some(led), p.w.mirrors, p.w.events + note);
      if g !in led.groups then Proc(led, w1, p.life - 1, false, p.submitted)
      else if p.life == 1 then Proc(led, w1, 0, true, p.submitted)
      else Proc(led, w1.(mirrors := w1.mirrors[g := led.groups[g]]), p.life - 2, false, p.submitted)
  }

  ghost function RecoverGroup(p: Proc, g: Id, visible: set<nat>): Proc
    requires g in p.led.groups
  {
    var core := p.led.groups[g].core;
    if !Ambiguous(core) then p
    else
      var found := Matches(p.w.events, core.attempts[Current(core).value].marker, visible);
      Commit(p, SetCore(p.led, g, Reconciled(core, found)), g, [])
  }

  /** The scheduler call: it happens, or the process stops first. */
  function CallScheduler(p: Proc, e: Event): Proc
    requires e.Sbatch?
  {
    if p.dead || p.life == 0 then p.(dead := true)
    else Proc(p.led, p.w.(events := p.w.events + [e]), p.life - 1, e.reply.NoReply?, p.submitted)
  }

  function SubmitGroup(p: Proc, g: Id, reply: Reply): Proc
    requires g in p.led.groups
  {
    var core := p.led.groups[g].core;
    if p.dead || !CurrentIs(core, INTENDED) then p
    else
      var i := Current(core).value;
      var begun := Mark(core, i, SUBMITTING);
      var p1 := Commit(p, SetCore(p.led, g, begun), g, []);
      var p2 := CallScheduler(p1, Sbatch(AttemptRef(g, i), p.led.groups[g].contract.mapping, core.attempts[i].marker, reply));
      if p2.dead then p2
      else
        var p3 := Commit(p2, SetCore(p.led, g, Settled(begun, i, reply)), g, []);
        if p3.dead || !reply.Accepted? then p3 else p3.(submitted := p3.submitted + {g})
  }

  /** What the scheduler does while one group is driven. */
  datatype Answer = Answer(visible: set<nat>, reply: Reply)

  function AnswerFor(env: map<Id, Answer>, g: Id): Answer {
    if g in env then env[g] else Answer({}, NoReply(None))
  }

  /** `_campaign_drive_attempt`. A group missing from the ledger raises. */
  ghost function Drive(p: Proc, g: Id, answer: Answer): Proc {
    if p.dead then p
    else if g !in p.led.groups then p.(dead := true)
    else
      var q := RecoverGroup(p, g, answer.visible);
      if g in q.led.groups then SubmitGroup(q, g, answer.reply) else q
  }

  ghost function DriveAll(p: Proc, gs: seq<Id>, env: map<Id, Answer>): Proc
    decreases |gs|
  {
    if gs == [] then p
    else
      var n := |gs| - 1;
      Drive(DriveAll(p, gs[..n], env), gs[n], AnswerFor(env, gs[n]))
  }

  datatype Response =
    | Refused(error: Error)
    | Stopped
    | Driven(groups: seq<Id>, submitted: set<Id>)

  function Respond(p: Proc, gs: seq<Id>): Response {
    if p.dead then Stopped else Driven(gs, p.submitted)
  }

  ghost function Ensure(w: World, req: Request, env: map<Id, Answer>, life: nat): (World, Response) {
    if !Admissible(req) then (w, Refused(InvalidArg))
    else if Load(w).None? then (w, Refused(InvalidArg))
    else
      var p := Proc(Load(w).value, w, life, false, {});
      match Decide(p.led, req)
      case Refuse(e) => (w, Refused(e))
      case Existing(groups) =>
        var gs := Sorted(groups);
        var q := DriveAll(p, gs, env);
        (q.w, Respond(q, gs))
      case Create =>
        var q := Drive(Commit(p, Reserved(p.led, req), req.group, []), req.group, AnswerFor(env, req.group));
        (q.w, Respond(q, [req.group]))
  }

  ghost function UpdateAttempt(w: World, g: Id, attempt: Id, s: State, life: nat): (World, Response) {
    if !IsCampaignState(s) then (w, Refused(InvalidArg))
    else if Load(w).None? then (w, Refused(InvalidArg))
    else
      var p := Proc(Load(w).value, w, life, false, {});
      if g !in p.led.groups || Current(p.led.groups[g].core).None? then (w, Refused(NotFound))
      else
        var ref := CurrentRef(p.led, g);
        if Get(p.led, ref).id != attempt then (w, Refused(StoreConflict))
        else
          var note := Update(ref, p.led.groups[g].contract.mapping, Get(p.led, ref).state, s);
          var q := Commit(p, SetCore(p.led, g, Mark(p.led.groups[g].core, ref.index, s)), g, [note]);
          (q.w, Respond(q, [g]))
  }

  // ------------------------------------------------------------------ refinement

  ghost predicate Loaded(w: World) {
    Load(w).Some?
  }

  /** What a crash leaves: the loaded ledger, the events, and no process. */
  ghost function Resting(w: World): Config
    requires Loaded(w)
  {
    Config(Load(w).value, w.events, Idle)
  }

  /** A process is in step with the machine: what it holds in memory is what is on disk. */
  ghost predicate InStep(p: Proc) {
    Loaded(p.w) && (!p.dead ==> Load(p.w) == Some(p.led))
  }

  lemma CrashLeads(c: Config)
    ensures Leads(c, c.(phase := Idle))
  {
    LeadsStep(c, Crash);
  }

  /** A commit is the step it journals, or nothing at all. */
  lemma CommitRefines(p: Proc, g: Id, note: seq<Event>, c: Config, l: Label)
    requires InStep(p) && !p.dead && c.led == p.led && c.events == p.w.events
    requires Enabled(c, l) && Apply(c, l).events == c.events + note
    ensures var q := Commit(p, Apply(c, l).led, g, note);
      && InStep(q)
      && Leads(c, Resting(q.w))
      && (!q.dead ==> q.led == Apply(c, l).led && q.w.events == Apply(c, l).events)
  {
    var q := Commit(p, Apply(c, l).led, g, note);
    if p.life == 0 {
      CrashLeads(c);
    } else {
      LeadsStep(c, l);
      CrashLeads(Apply(c, l));
      LeadsTransitive(c, Apply(c, l), Apply(c, l).(phase := Idle));
    }
  }

  lemma RecoverRefines(p: Proc, g: Id, visible: set<nat>)
    requires InStep(p) && !p.dead && Drivable(p.led, g)
    ensures var q := RecoverGroup(p, g, visible);
      && InStep(q) && Leads(Resting(p.w), Resting(q.w))
      && (!q.dead ==> Drivable(q.led, g))
  {
    var c := Resting(p.w);
    LeadsToItself(c);
    if Ambiguous(p.led.groups[g].core) {
      CommitRefines(p, g, [], c, Recover(g, visible));
    }
  }

  lemma SubmitRefines(p: Proc, g: Id, reply: Reply)
    requires InStep(p) && !p.dead && Drivable(p.led, g)
    ensures var q := SubmitGroup(p, g, reply);
      InStep(q) && Leads(Resting(p.w), Resting(q.w))
  {
    LeadsToItself(Resting(p.w));
    if CurrentIs(p.led.groups[g].core, INTENDED) {
      BeginRefines(p, g);
      var p1 := Commit(p, Apply(Resting(p.w), Begin(g)).led, g, []);
      if !p1.dead {
        SettleRefines(p1, g, reply, Apply(Resting(p.w), Begin(g)));
        LeadsTransitive(Resting(p.w), Apply(Resting(p.w), Begin(g)), Resting(SubmitGroup(p, g, reply).w));
      }
    }
  }

  /** From an intent to SUBMITTING on disk. */
  lemma BeginRefines(p: Proc, g: Id)
    requires InStep(p) && !p.dead && Drivable(p.led, g) && CurrentIs(p.led.groups[g].core, INTENDED)
    ensures Enabled(Resting(p.w), Begin(g))
    ensures var c1 := Apply(Resting(p.w), Begin(g));
      var p1 := Commit(p, c1.led, g, []);
      && c1.led == SetCore(p.led, g, Mark(p.led.groups[g].core, Current(p.led.groups[g].core).value, SUBMITTING))
      && InStep(p1) && Leads(Resting(p.w), Resting(p1.w)) && Leads(Resting(p.w), c1)
      && (!p1.dead ==>
            p1.led == c1.led && p1.w.events == c1.events && g in p1.led.groups &&
            Current(p1.led.groups[g].core).Some? && c1.phase == Armed(CurrentRef(p1.led, g)))
  {
    var c := Resting(p.w);
    var c1 := Apply(c, Begin(g));
    var core := p.led.groups[g].core;
    TouchKeepsCurrent(core, c1.led.groups[g].core, Current(core).value);
    CommitRefines(p, g, [], c, Begin(g));
    LeadsStep(c, Begin(g));
  }

  /** From SUBMITTING on disk to the end of the submission. */
  lemma SettleRefines(p1: Proc, g: Id, reply: Reply, c1: Config)
    requires InStep(p1) && !p1.dead && g in p1.led.groups && Current(p1.led.groups[g].core).Some?
    requires c1 == Config(p1.led, p1.w.events, Armed(CurrentRef(p1.led, g)))
    ensures var ref := CurrentRef(p1.led, g);
      var p2 := CallScheduler(p1, Sbatch(ref, p1.led.groups[g].contract.mapping, Get(p1.led, ref).marker, reply));
      var p3 := Commit(p2, SetCore(p1.led, g, Settled(p1.led.groups[g].core, ref.index, reply)), g, []);
      && InStep(p2) && (p2.dead ==> Leads(c1, Resting(p2.w)))
      && InStep(p3) && (!p2.dead ==> Leads(c1, Resting(p3.w)))
  {
    var ref := CurrentRef(p1.led, g);
    var p2 := CallScheduler(p1, Sbatch(ref, p1.led.groups[g].contract.mapping, Get(p1.led, ref).marker, reply));
    CrashLeads(c1);
    if p1.life > 0 {
      var call := Call(reply);
      var c2 := Apply(c1, call);
      LeadsStep(c1, call);
      CrashLeads(c2);
      LeadsTransitive(c1, c2, c2.(phase := Idle));
      if !p2.dead {
        CommitRefines(p2, g, [], c2, Settle);
        LeadsTransitive(c1, c2, Resting(Commit(p2, Apply(c2, Settle).led, g, []).w));
      }
    }
  }

  ghost predicate SameBindings(led: Ledger, out: Ledger) {
    out.units == led.units && out.consumed == led.consumed && out.groups.Keys == led.groups.Keys
  }

  lemma SubmitKeepsBindings(p: Proc, g: Id, reply: Reply)
    requires g in p.led.groups
    ensures SameBindings(p.led, SubmitGroup(p, g, reply).led)
  {
  }

  /** Driving touches attempts only. */
  lemma DriveKeepsBindings(p: Proc, g: Id, answer: Answer)
    ensures SameBindings(p.led, Drive(p, g, answer).led)
  {
    if !p.dead && g in p.led.groups {
      SubmitKeepsBindings(RecoverGroup(p, g, answer.visible), g, answer.reply);
    }
  }

  lemma DriveRefines(p: Proc, g: Id, answer: Answer)
    requires InStep(p) && (g in p.led.groups ==> Drivable(p.led, g))
    ensures InStep(Drive(p, g, answer)) && Leads(Resting(p.w), Resting(Drive(p, g, answer).w))
  {
    LeadsToItself(Resting(p.w));
    if !p.dead && g in p.led.groups {
      RecoverRefines(p, g, answer.visible);
      var q := RecoverGroup(p, g, answer.visible);
      if !q.dead {
        SubmitRefines(q, g, answer.reply);
        LeadsTransitive(Resting(p.w), Resting(q.w), Resting(Drive(p, g, answer).w));
      }
    }
  }

  lemma {:induction false} DriveAllRefines(p: Proc, gs: seq<Id>, env: map<Id, Answer>)
    requires InStep(p) && forall g :: g in gs && g in p.led.groups ==> Drivable(p.led, g)
    ensures var q := DriveAll(p, gs, env);
      && InStep(q) && Leads(Resting(p.w), Resting(q.w))
      && SameBindings(p.led, q.led)
    decreases |gs|
  {
    LeadsToItself(Resting(p.w));
    if gs != [] {
      var n := |gs| - 1;
      DriveAllRefines(p, gs[..n], env);
      var q := DriveAll(p, gs[..n], env);
      var answer := AnswerFor(env, gs[n]);
      assert gs[n] in gs;
      DriveRefines(q, gs[n], answer);
      DriveKeepsBindings(q, gs[n], answer);
      LeadsTransitive(Resting(p.w), Resting(q.w), Resting(Drive(q, gs[n], answer).w));
    }
  }

  lemma ExistingAreDrivable(led: Ledger, req: Request)
    requires Decide(led, req).Existing?
    ensures forall g :: g in Decide(led, req).groups && g in led.groups ==> Drivable(led, g)
  {
  }

  /** Whatever an ensure request does before it ends, dies or is refused is a run of the
      machine. */
  lemma EnsureRefines(w: World, req: Request, env: map<Id, Answer>, life: nat)
    requires Loaded(w)
    ensures Loaded(Ensure(w, req, env, life).0)
    ensures Leads(Resting(w), Resting(Ensure(w, req, env, life).0))
  {
    LeadsToItself(Resting(w));
    var p := Proc(Load(w).value, w, life, false, {});
    if Admissible(req) {
      match Decide(p.led, req)
      case Refuse(_) =>
      case Existing(groups) =>
        ExistingAreDrivable(p.led, req);
        DriveAllRefines(p, Sorted(groups), env);
      case Create =>
        CreateRefines(p, req, AnswerFor(env, req.group));
    }
  }

  lemma CreateRefines(p: Proc, req: Request, answer: Answer)
    requires InStep(p) && !p.dead && Admissible(req) && Decide(p.led, req) == Create
    ensures var q := Drive(Commit(p, Reserved(p.led, req), req.group, []), req.group, answer);
      InStep(q) && Leads(Resting(p.w), Resting(q.w))
  {
    var l := Reserve(req);
    CommitRefines(p, req.group, [], Resting(p.w), l);
    var q := Commit(p, Reserved(p.led, req), req.group, []);
    if !q.dead {
      assert q.led.units[req.contract.mapping[0]].group == req.group;
      DriveRefines(q, req.group, answer);
      LeadsTransitive(Resting(p.w), Resting(q.w), Resting(Drive(q, req.group, answer).w));
    }
  }

  lemma UpdateRefines(w: World, g: Id, attempt: Id, s: State, life: nat)
    requires Loaded(w)
    ensures Loaded(UpdateAttempt(w, g, attempt, s, life).0)
    ensures Leads(Resting(w), Resting(UpdateAttempt(w, g, attempt, s, life).0))
  {
    var c := Resting(w);
    LeadsToItself(c);
    var l := SetState(g, attempt, s);
    if IsCampaignState(s) && g in c.led.groups && Current(c.led.groups[g].core).Some? &&
       Get(c.led, CurrentRef(c.led, g)).id == attempt {
      var p := Proc(c.led, w, life, false, {});
      CommitRefines(p, g, [Apply(c, l).events[|c.events|]], c, l);
    }
  }

  // ------------------------------------------------------------------ runs of commands

  datatype Command =
    | EnsureCommand(req: Request, env: map<Id, Answer>, life: nat)
    | UpdateCommand(group: Id, attempt: Id, state: State, life: nat)

  ghost function Do(w: World, cmd: Command): World {
    match cmd
    case EnsureCommand(req, env, life) => Ensure(w, req, env, life).0
    case UpdateCommand(g, a, s, life) => UpdateAttempt(w, g, a, s, life).0
  }

  ghost function Exec(w: World, cmds: seq<Command>): World
    decreases |cmds|
  {
    if cmds == [] then w
    else Do(Exec(w, cmds[..|cmds| - 1]), cmds[|cmds| - 1])
  }

  /** Any sequence of requests, replays and updates, each one dying where it may, is a run of
      the machine. */
  lemma {:induction false} ExecRefines(w: World, cmds: seq<Command>)
    requires Loaded(w)
    ensures Loaded(Exec(w, cmds)) && Leads(Resting(w), Resting(Exec(w, cmds)))
    decreases |cmds|
  {
    LeadsToItself(Resting(w));
    if cmds != [] {
      var n := |cmds| - 1;
      ExecRefines(w, cmds[..n]);
      var v := Exec(w, cmds[..n]);
      match cmds[n] {
        case EnsureCommand(req, env, life) => EnsureRefines(v, req, env, life);
        case UpdateCommand(g, a, s, life) => UpdateRefines(v, g, a, s, life);
      }
      LeadsTransitive(Resting(w), Resting(v), Resting(Do(v, cmds[n])));
    }
  }
}
