/** The stub server's cancel registry: the sections it runs under its lock, and every way in which
    the serve loop, the workers and the cancels may interleave them. */
module CancelRegistry {
  import opened Common

  type Rid = nat
  type Pid = nat

  /** What a request registers: nothing, a process, an event, or both (`srun`). */
  datatype Kind = Fast | Slow | Long | Srun

  predicate HasProc(k: Kind) {
    k.Slow? || k.Srun?
  }

  predicate HasEvent(k: Kind) {
    k.Long? || k.Srun?
  }

  /** The registries: the live process of a request, its event with its flag, and four sets. */
  datatype Registry = Registry(
    running: map<Rid, Pid>, events: map<Rid, bool>, cancelled: set<Rid>,
    pending: set<Rid>, precancelled: set<Rid>, compute: set<Rid>)

  const Nothing := Registry(map[], map[], {}, {}, {}, {})

  // ------------------------------------------------------------------ sections under the lock

  /** The serve loop notes a cancellable request as it reads it. */
  function Noted(r: Registry, rid: Rid, k: Kind): Registry {
    if k.Fast? then r
    else r.(pending := r.pending + {rid}, compute := if k.Srun? then r.compute + {rid} else r.compute)
  }

  predicate Early(r: Registry, rid: Rid) {
    rid in r.precancelled || (rid in r.events && r.events[rid])
  }

  /** `_register`; when early, the caller kills the process at once. */
  function Registered(r: Registry, rid: Rid, pid: Pid): Registry {
    if Early(r, rid) then
      r.(running := r.running[rid := pid], precancelled := r.precancelled - {rid}, cancelled := r.cancelled + {rid})
    else r.(running := r.running[rid := pid])
  }

  /** `_register_event`. */
  function EventRegistered(r: Registry, rid: Rid): Registry {
    if rid in r.precancelled then
      r.(events := r.events[rid := true], precancelled := r.precancelled - {rid}, cancelled := r.cancelled + {rid})
    else r.(events := r.events[rid := false])
  }

  datatype Answer = NotRunning | Flagged | Queued | Killing(pid: Pid)

  /** What `_cancel` answers, under the lock. */
  function CancelAnswer(r: Registry, target: Rid, dead: set<Pid>): Answer {
    if target in r.running then (if r.running[target] in dead then NotRunning else Killing(r.running[target]))
    else if target in r.events then Flagged
    else if target in r.pending then Queued
    else NotRunning
  }

  /** What `_cancel` changes, under the lock. */
  function CancelMarked(r: Registry, target: Rid, answer: Answer): Registry {
    match answer
    case NotRunning => r
    case Queued => r.(precancelled := r.precancelled + {target})
    case _ =>
      r.(cancelled := r.cancelled + {target},
         events := if target in r.events then r.events[target := true] else r.events)
  }

  function Cleaned(r: Registry, rid: Rid, k: Kind): Registry {
    if k.Fast? then r
    else r.(pending := r.pending - {rid}, precancelled := r.precancelled - {rid}, compute := r.compute - {rid})
  }

  // ------------------------------------------------------------------ the interleaving

  /** How an operation ends: with a result, with a reported error, or with any other exception. */
  datatype Ending = Ok | Error | Crash

  /** Where a worker is in `handle`. */
  datatype Phase =
    | Waiting
    | Started
    | Spawned(pid: Pid)
    | KillDue(pid: Pid)
    | Returned(end: Ending)
    | ProcGone(end: Ending)
    | EventGone(end: Ending)
    | Settled(end: Ending, flag: bool)
    | Answered(end: Ending)

  /** `victim` is the process a cancel found, or the first one registered after it. */
  datatype Worker = Worker(kind: Kind, phase: Phase, victim: Option<Pid>)

  datatype Frame = Frame(rid: Rid, terminal: bool, flag: bool)

  /** Beside the registries: the requests read and not yet done, every id read so far, the
      processes that have been spawned, have exited, or are being killed, the frames sent, and
      the requests whose cancel was accepted. */
  datatype Machine = Machine(
    reg: Registry, workers: map<Rid, Worker>, used: set<Rid>, spawned: set<Pid>, dead: set<Pid>,
    doomed: set<Pid>, frames: seq<Frame>, accepted: set<Rid>)

  const Init := Machine(Nothing, map[], {}, {}, {}, {}, [], {})

  datatype Step =
    | Read(rid: Rid, kind: Kind)
    | Refuse(rid: Rid)
    | Start(rid: Rid)
    | Spawn(rid: Rid, pid: Pid)
    | Register(rid: Rid)
    | KillEarly(rid: Rid)
    | Emit(rid: Rid)
    | Return(rid: Rid, end: Ending)
    | PopProc(rid: Rid)
    | PopEvent(rid: Rid)
    | Take(rid: Rid)
    | Answer(rid: Rid)
    | Clean(rid: Rid)
    | Cancel(target: Rid)
    | Kill(pid: Pid)
    | Exit(pid: Pid)

  predicate Enabled(m: Machine, s: Step) {
    match s
    case Read(rid, _) => rid !in m.used
    case Refuse(rid) => rid in m.workers && m.workers[rid].phase.Waiting?
    case Start(rid) => rid in m.workers && m.workers[rid].phase.Waiting?
    case Spawn(rid, pid) => rid in m.workers && m.workers[rid].phase.Started? && HasProc(m.workers[rid].kind) && pid !in m.spawned
    case Register(rid) => rid in m.workers && m.workers[rid].phase.Spawned?
    case KillEarly(rid) => rid in m.workers && m.workers[rid].phase.KillDue?
    case Emit(rid) => rid in m.workers && m.workers[rid].phase.Started?
    case Return(rid, _) => rid in m.workers && m.workers[rid].phase.Started?
    case PopProc(rid) => rid in m.workers && m.workers[rid].phase.Returned?
    case PopEvent(rid) => rid in m.workers && m.workers[rid].phase.ProcGone?
    case Take(rid) => rid in m.workers && m.workers[rid].phase.EventGone?
    case Answer(rid) => rid in m.workers && m.workers[rid].phase.Settled?
    case Clean(rid) => rid in m.workers && m.workers[rid].phase.Answered?
    case Cancel(_) => true
    case Kill(pid) => pid in m.doomed
    case Exit(pid) => pid in m.spawned
  }

  function At(m: Machine, rid: Rid, p: Phase): Machine
    requires rid in m.workers
  {
    m.(workers := m.workers[rid := m.workers[rid].(phase := p)])
  }

  /** A worker's victim, once a cancel has found a process of it. */
  function Marked(m: Machine, rid: Rid, pid: Pid): Machine {
    if rid in m.workers then m.(workers := m.workers[rid := m.workers[rid].(victim := Some(pid))]) else m
  }

  function Apply(m: Machine, s: Step): Machine
    requires Enabled(m, s)
  {
    match s
    case Read(rid, k) =>
      m.(reg := Noted(m.reg, rid, k), workers := m.workers[rid := Worker(k, Waiting, None)], used := m.used + {rid})
    case Refuse(rid) => At(m, rid, EventGone(Error))
    case Start(rid) =>
      At(m.(reg := if HasEvent(m.workers[rid].kind) then EventRegistered(m.reg, rid) else m.reg), rid, Started)
    case Spawn(rid, pid) => At(m.(spawned := m.spawned + {pid}), rid, Spawned(pid))
    case Register(rid) =>
      var pid := m.workers[rid].phase.pid;
      var next := m.(reg := Registered(m.reg, rid, pid));
      if Early(m.reg, rid) then Marked(At(next, rid, KillDue(pid)), rid, pid) else At(next, rid, Started)
    case KillEarly(rid) =>
      var pid := m.workers[rid].phase.pid;
      At(m.(dead := m.dead + {pid}), rid, Started)
    case Emit(rid) => m.(frames := m.frames + [Frame(rid, false, false)])
    case Return(rid, end) => At(m, rid, Returned(end))
    case PopProc(rid) =>
      var w := m.workers[rid];
      At(m.(reg := if HasProc(w.kind) then m.reg.(running := m.reg.running - {rid}) else m.reg), rid, ProcGone(w.phase.end))
    case PopEvent(rid) =>
      var w := m.workers[rid];
      At(m.(reg := if HasEvent(w.kind) then m.reg.(events := m.reg.events - {rid}) else m.reg), rid, EventGone(w.phase.end))
    case Take(rid) =>
      var w := m.workers[rid];
      if w.kind.Fast? || w.phase.end.Crash? then At(m, rid, Settled(w.phase.end, false))
      else
        At(m.(reg := m.reg.(cancelled := m.reg.cancelled - {rid})), rid,
           Settled(w.phase.end, w.phase.end.Ok? && rid in m.reg.cancelled))
    case Answer(rid) =>
      var p := m.workers[rid].phase;
      At(m.(frames := m.frames + [Frame(rid, true, p.flag)]), rid, Answered(p.end))
    case Clean(rid) =>
      m.(reg := Cleaned(m.reg, rid, m.workers[rid].kind), workers := m.workers - {rid})
    case Cancel(target) =>
      var answer := CancelAnswer(m.reg, target, m.dead);
      var next := m.(reg := CancelMarked(m.reg, target, answer));
      (match answer
       case NotRunning => next
       case Killing(pid) => Marked(next.(accepted := m.accepted + {target}, doomed := m.doomed + {pid}), target, pid)
       case _ => next.(accepted := m.accepted + {target}))
    case Kill(pid) => m.(dead := m.dead + {pid})
    case Exit(pid) => m.(dead := m.dead + {pid})
  }

  // ------------------------------------------------------------------ what every step keeps

  /** The request has registered its event, or may have registered a process. */
  predicate Open(p: Phase) {
    p.Started? || p.Spawned? || p.KillDue? || p.Returned?
  }

  predicate BeforeTake(p: Phase) {
    p.Waiting? || Open(p) || p.ProcGone? || p.EventGone?
  }

  /** Who is in which registry. */
  ghost predicate Membership(m: Machine, rid: Rid) {
    var r := m.reg;
    var live := rid in m.workers;
    && (live ==> rid in m.used)
    && (rid in r.pending <==> live && !m.workers[rid].kind.Fast?)
    && (rid in r.compute <==> live && m.workers[rid].kind.Srun?)
    && (rid in r.running ==> live && HasProc(m.workers[rid].kind) && Open(m.workers[rid].phase))
    && (live && m.workers[rid].phase.Spawned? ==> HasProc(m.workers[rid].kind))
    && (live && m.workers[rid].phase.KillDue? ==> rid in r.running && r.running[rid] == m.workers[rid].phase.pid)
    && (rid in r.events <==>
          live && HasEvent(m.workers[rid].kind) && (Open(m.workers[rid].phase) || m.workers[rid].phase.ProcGone?))
    && (rid in r.precancelled ==> rid in r.pending && rid !in r.running && rid !in r.events)
  }

  /** An accepted cancel is remembered until the request is settled, and nothing else is. */
  ghost predicate Remembered(m: Machine, rid: Rid) {
    && (rid in m.reg.cancelled ==> rid in m.accepted)
    && (rid in m.accepted ==> rid in m.used)
    && (rid in m.workers && m.workers[rid].kind.Fast? ==> rid !in m.accepted)
    && (rid in m.reg.events && m.reg.events[rid] ==> rid in m.reg.cancelled)
    && (rid in m.workers && m.workers[rid].phase.Waiting? ==> rid !in m.reg.cancelled)
    && (rid in m.workers && BeforeTake(m.workers[rid].phase) ==>
          (rid in m.accepted <==> rid in m.reg.precancelled || rid in m.reg.cancelled))
    && (rid in m.workers && !BeforeTake(m.workers[rid].phase) && !m.workers[rid].phase.end.Crash? ==>
          rid !in m.reg.cancelled)
  }

  /** A process that is dead, is being killed, or is about to be by the worker that registered it. */
  predicate Stopped(m: Machine, rid: Rid, pid: Pid)
    requires rid in m.workers
  {
    pid in m.dead || pid in m.doomed || m.workers[rid].phase == KillDue(pid)
  }

  /** A remembered cancel has done its work: the event is set; the process of an `srun` is
      stopped, whichever it is; and so is the one a plain request had, or registered next. */
  ghost predicate Effective(m: Machine, rid: Rid) {
    rid in m.workers && Open(m.workers[rid].phase) && rid in m.reg.cancelled ==>
      var w := m.workers[rid];
      && (HasEvent(w.kind) ==> rid in m.reg.events && m.reg.events[rid])
      && (w.kind.Srun? && rid in m.reg.running ==> Stopped(m, rid, m.reg.running[rid]))
      && (w.kind.Slow? ==> w.victim.Some? && Stopped(m, rid, w.victim.value))
  }

  ghost predicate Closed(frames: seq<Frame>, rid: Rid) {
    exists i :: 0 <= i < |frames| && frames[i].rid == rid && frames[i].terminal
  }

  /** The terminal frame is sent once the request is answered, and only then. */
  ghost predicate Answering(m: Machine, rid: Rid) {
    Closed(m.frames, rid) <==> rid in m.used && (rid in m.workers ==> m.workers[rid].phase.Answered?)
  }

  /** Nothing follows a terminal frame of the same request; a flagged one was cancelled. */
  ghost predicate FramesOk(m: Machine) {
    && (forall i, j :: 0 <= i < j < |m.frames| && m.frames[i].rid == m.frames[j].rid ==> !m.frames[i].terminal)
    && (forall i :: 0 <= i < |m.frames| ==> m.frames[i].rid in m.used)
    && (forall i :: 0 <= i < |m.frames| && m.frames[i].flag ==> m.frames[i].rid in m.accepted)
    && (forall rid :: rid in m.workers && m.workers[rid].phase.Settled? && m.workers[rid].phase.flag ==> rid in m.accepted)
  }

  ghost predicate Inv(m: Machine) {
    && (forall rid :: Membership(m, rid))
    && (forall rid :: Remembered(m, rid))
    && (forall rid :: Effective(m, rid))
    && (forall rid :: Answering(m, rid))
    && FramesOk(m)
  }

  predicate Opening(s: Step) {
    s.Read? || s.Refuse? || s.Start? || s.Spawn? || s.Register? || s.KillEarly?
  }

  predicate Closing(s: Step) {
    s.Return? || s.PopProc? || s.PopEvent? || s.Take? || s.Answer? || s.Clean?
  }

  lemma MembershipKept(m: Machine, s: Step, rid: Rid)
    requires Enabled(m, s) && Membership(m, rid)
    ensures Membership(Apply(m, s), rid)
  {
    if Opening(s) {
      MembershipOpening(m, s, rid);
    } else if Closing(s) {
      MembershipClosing(m, s, rid);
    } else {
      MembershipElsewhere(m, s, rid);
    }
  }

  lemma MembershipOpening(m: Machine, s: Step, rid: Rid)
    requires Enabled(m, s) && Opening(s) && Membership(m, rid)
    ensures Membership(Apply(m, s), rid)
  {
  }

  lemma MembershipClosing(m: Machine, s: Step, rid: Rid)
    requires Enabled(m, s) && Closing(s) && Membership(m, rid)
    ensures Membership(Apply(m, s), rid)
  {
  }

  lemma MembershipElsewhere(m: Machine, s: Step, rid: Rid)
    requires Enabled(m, s) && !Opening(s) && !Closing(s) && Membership(m, rid)
    ensures Membership(Apply(m, s), rid)
  {
  }

  lemma RememberedKept(m: Machine, s: Step, rid: Rid)
    requires Enabled(m, s) && Membership(m, rid) && Remembered(m, rid)
    ensures Remembered(Apply(m, s), rid)
  {
    if !Opening(s) && !Closing(s) {
      RememberedElsewhere(m, s, rid);
    }
  }

  lemma RememberedElsewhere(m: Machine, s: Step, rid: Rid)
    requires Enabled(m, s) && !Opening(s) && !Closing(s) && Membership(m, rid) && Remembered(m, rid)
    ensures Remembered(Apply(m, s), rid)
  {
  }

  lemma EffectiveKept(m: Machine, s: Step, rid: Rid)
    requires Enabled(m, s) && Membership(m, rid) && Remembered(m, rid) && Effective(m, rid)
    ensures Effective(Apply(m, s), rid)
  {
    if !Opening(s) && !Closing(s) {
      EffectiveElsewhere(m, s, rid);
    }
  }

  lemma EffectiveElsewhere(m: Machine, s: Step, rid: Rid)
    requires Enabled(m, s) && !Opening(s) && !Closing(s) && Membership(m, rid) && Remembered(m, rid) && Effective(m, rid)
    ensures Effective(Apply(m, s), rid)
  {
  }

  lemma ClosedMore(frames: seq<Frame>, f: Frame, rid: Rid)
    ensures Closed(frames + [f], rid) <==> Closed(frames, rid) || (f.rid == rid && f.terminal)
  {
    if Closed(frames, rid) {
      var i :| 0 <= i < |frames| && frames[i].rid == rid && frames[i].terminal;
      assert (frames + [f])[i] == frames[i];
    }
    if f.rid == rid && f.terminal {
      assert (frames + [f])[|frames|] == f;
    }
  }

  lemma AnsweringKept(m: Machine, s: Step, rid: Rid)
    requires Enabled(m, s) && Membership(m, rid) && Answering(m, rid)
    ensures Answering(Apply(m, s), rid)
  {
    match s
    case Emit(r) => ClosedMore(m.frames, Frame(r, false, false), rid);
    case Answer(r) => ClosedMore(m.frames, Frame(r, true, m.workers[r].phase.flag), rid);
    case _ =>
  }

  lemma FramesKept(m: Machine, s: Step)
    requires Enabled(m, s) && Inv(m)
    ensures FramesOk(Apply(m, s))
  {
    match s
    case Emit(r) => FrameAdded(m, r);
    case Answer(r) => FrameAdded(m, r);
    case Take(r) => assert Membership(m, r) && Remembered(m, r);
    case _ =>
  }

  /** No frame sent so far closes a request that may still send one. */
  lemma FrameAdded(m: Machine, rid: Rid)
    requires Inv(m) && rid in m.workers && !m.workers[rid].phase.Answered?
    ensures rid in m.used && forall i :: 0 <= i < |m.frames| && m.frames[i].rid == rid ==> !m.frames[i].terminal
  {
    assert Membership(m, rid) && Answering(m, rid);
  }

  lemma StepKeeps(m: Machine, s: Step)
    requires Enabled(m, s) && Inv(m)
    ensures Inv(Apply(m, s))
  {
    forall rid ensures Membership(Apply(m, s), rid) {
      MembershipKept(m, s, rid);
    }
    forall rid ensures Remembered(Apply(m, s), rid) && Effective(Apply(m, s), rid) && Answering(Apply(m, s), rid) {
      assert Membership(m, rid);
      RememberedKept(m, s, rid);
      EffectiveKept(m, s, rid);
      AnsweringKept(m, s, rid);
    }
    FramesKept(m, s);
  }

  // ------------------------------------------------------------------ runs

  ghost predicate Runs(m: Machine, steps: seq<Step>, last: Machine)
    decreases |steps|
  {
    if steps == [] then last == m
    else Enabled(m, steps[0]) && Runs(Apply(m, steps[0]), steps[1..], last)
  }

  lemma {:induction false} RunKeeps(m: Machine, steps: seq<Step>, last: Machine)
    requires Inv(m) && Runs(m, steps, last)
    ensures Inv(last)
    decreases |steps|
  {
    if steps != [] {
      StepKeeps(m, steps[0]);
      RunKeeps(Apply(m, steps[0]), steps[1..], last);
    }
  }

  ghost predicate Reachable(m: Machine) {
    exists steps :: Runs(Init, steps, m)
  }

  lemma ReachableInv(m: Machine)
    requires Reachable(m)
    ensures Inv(m)
  {
    var steps :| Runs(Init, steps, m);
    RunKeeps(Init, steps, m);
  }

  /** A cancel is refused exactly when its target is not a cancellable request in flight or the
      process it registered has already exited; accepted, it is remembered. */
  lemma CancelAcceptedExactly(m: Machine, target: Rid)
    requires Reachable(m)
    ensures var answer := CancelAnswer(m.reg, target, m.dead);
      var next := Apply(m, Cancel(target));
      && (answer != NotRunning <==>
            target in m.workers && !m.workers[target].kind.Fast? &&
            !(target in m.reg.running && m.reg.running[target] in m.dead))
      && (answer != NotRunning ==>
            target in next.accepted && (target in next.reg.precancelled || target in next.reg.cancelled))
      && (answer == NotRunning ==> next == m)
  {
    ReachableInv(m);
    assert Membership(m, target);
  }

  /** A cancel that overtakes its request is not lost: whenever a process of a cancelled request
      is registered, or its event is, and the cancel had nothing to stop before, the event is set
      and the process is stopped, and the request is flagged. */
  lemma OvertakingCancelIsNotLost(m: Machine, rid: Rid)
    requires Reachable(m) && rid in m.workers && Open(m.workers[rid].phase) && rid in m.accepted
    ensures var w := m.workers[rid];
      if rid in m.reg.precancelled && rid !in m.reg.cancelled then rid !in m.reg.running && rid !in m.reg.events
      else
        && rid in m.reg.cancelled
        && (HasEvent(w.kind) ==> rid in m.reg.events && m.reg.events[rid])
        && (w.kind.Srun? && rid in m.reg.running ==> Stopped(m, rid, m.reg.running[rid]))
        && (w.kind.Slow? ==> w.victim.Some? && Stopped(m, rid, w.victim.value))
  {
    ReachableInv(m);
    assert Membership(m, rid) && Remembered(m, rid) && Effective(m, rid);
  }

  /** The registration that follows an overtaking cancel: the worker kills the process before it
      does anything else, and whatever else happens first, the process ends up dead. */
  lemma RegistrationKills(m: Machine, rid: Rid)
    requires Reachable(m) && Enabled(m, Register(rid))
    ensures var pid := m.workers[rid].phase.pid;
      var next := Apply(m, Register(rid));
      && (next.workers[rid].phase == KillDue(pid) <==>
            rid in m.reg.precancelled || (m.workers[rid].kind.Srun? && rid in m.accepted))
      && (next.workers[rid].phase == KillDue(pid) ==>
            rid in next.reg.cancelled && pid in Apply(next, KillEarly(rid)).dead)
  {
    ReachableInv(m);
    assert Membership(m, rid) && Remembered(m, rid) && Effective(m, rid);
  }

  // ------------------------------------------------------------------ how a request ends

  /** When a request is done it is in none of the registries, and exactly one terminal frame has
      been sent for it, after every other frame of it. */
  lemma EndLeavesNothing(m: Machine, rid: Rid)
    requires Reachable(m) && rid in m.used && rid !in m.workers
    ensures rid !in m.reg.pending && rid !in m.reg.precancelled && rid !in m.reg.compute
    ensures rid !in m.reg.running && rid !in m.reg.events
    ensures exists i :: 0 <= i < |m.frames| && OnlyTerminal(m.frames, rid, i)
  {
    ReachableInv(m);
    assert Membership(m, rid) && Answering(m, rid);
    var i :| 0 <= i < |m.frames| && m.frames[i].rid == rid && m.frames[i].terminal;
    assert OnlyTerminal(m.frames, rid, i);
  }

  /** The last frame of a request, and its only terminal one. */
  ghost predicate OnlyTerminal(frames: seq<Frame>, rid: Rid, i: nat)
    requires i < |frames|
  {
    && frames[i].rid == rid && frames[i].terminal
    && forall j :: 0 <= j < |frames| && frames[j].rid == rid ==> j <= i && (frames[j].terminal ==> j == i)
  }

  /** While a request is in flight, no terminal frame has been sent for it until it is answered. */
  lemma NoEarlyTerminal(m: Machine, rid: Rid)
    requires Reachable(m) && rid in m.workers && !m.workers[rid].phase.Answered?
    ensures forall i :: 0 <= i < |m.frames| && m.frames[i].rid == rid ==> !m.frames[i].terminal
  {
    ReachableInv(m);
    FrameAdded(m, rid);
  }

  /** The terminal frame says `cancelled` exactly when the operation returned a result and a
      cancel of it was accepted that found, or was found by, something registered. */
  lemma FlagIsExact(m: Machine, rid: Rid)
    requires Reachable(m) && Enabled(m, Take(rid))
    ensures var w := m.workers[rid];
      var next := Apply(m, Take(rid));
      && next.workers[rid].phase.flag == (w.phase.end.Ok? && rid in m.reg.cancelled)
      && (rid in m.reg.cancelled ==> rid in m.accepted)
      && (rid in m.accepted && !w.kind.Fast? && rid !in m.reg.cancelled ==> rid in m.reg.precancelled)
      && (!w.phase.end.Crash? ==> rid !in next.reg.cancelled)
  {
    ReachableInv(m);
    assert Membership(m, rid) && Remembered(m, rid);
  }

  lemma {:induction false} RunsOn(m: Machine, steps: seq<Step>, last: Machine, s: Step)
    requires Runs(m, steps, last) && Enabled(last, s)
    ensures Runs(m, steps + [s], Apply(last, s))
    decreases |steps|
  {
    if steps == [] {
      assert (steps + [s])[1..] == [];
    } else {
      RunsOn(Apply(m, steps[0]), steps[1..], last, s);
      assert (steps + [s])[1..] == steps[1..] + [s];
    }
  }

  lemma ReachStep(m: Machine, s: Step)
    requires Reachable(m) && Enabled(m, s)
    ensures Reachable(Apply(m, s))
  {
    var steps :| Runs(Init, steps, m);
    RunsOn(Init, steps, m, s);
  }

  lemma InitReachable()
    ensures Reachable(Init)
  {
    assert Runs(Init, [], Init);
  }

  /** One request alone, with nothing in `compute`. */
  function Alone(r: Registry, workers: map<Rid, Worker>, spawned: set<Pid>, dead: set<Pid>, frames: seq<Frame>): Machine {
    Machine(r, workers, {0}, spawned, dead, {}, frames, {0})
  }

  function LongCrash(p: Phase): Machine {
    Alone(Registry(map[], map[], {0}, {0}, {}, {}), map[0 := Worker(Long, p, None)], {}, {}, [])
  }

  /** The mark of a cancel outlives its request when the operation ends with an exception that is
      not a reported error: here request 0 is done and still in `cancelled`. */
  lemma CrashLeavesMark()
    ensures Reachable(Alone(Registry(map[], map[], {0}, {}, {}, {}), map[], {}, {}, [Frame(0, true, false)]))
  {
    CrashAfterCancel();
    var m := LongCrash(EventGone(Crash));
    ReachStep(m, Take(0));
    var m1 := Apply(m, Take(0));
    ReachStep(m1, Answer(0));
    var m2 := Apply(m1, Answer(0));
    ReachStep(m2, Clean(0));
    assert Apply(m2, Clean(0)) == Alone(Registry(map[], map[], {0}, {}, {}, {}), map[], {}, {}, [Frame(0, true, false)]);
  }

  lemma CrashAfterCancel()
    ensures Reachable(LongCrash(EventGone(Crash)))
  {
    CancelledEvent();
    var m3 := EventSet();
    ReachStep(m3, Return(0, Crash));
    assert Apply(m3, Return(0, Crash)) == EventSetIn(Returned(Crash));
    Popped();
  }

  lemma Popped()
    requires Reachable(EventSetIn(Returned(Crash)))
    ensures Reachable(LongCrash(EventGone(Crash)))
  {
    var m4 := EventSetIn(Returned(Crash));
    ReachStep(m4, PopProc(0));
    var m5 := Apply(m4, PopProc(0));
    ReachStep(m5, PopEvent(0));
    assert Apply(m5, PopEvent(0)) == LongCrash(EventGone(Crash));
  }

  function EventSetIn(p: Phase): Machine {
    Alone(Registry(map[], map[0 := true], {0}, {0}, {}, {}), map[0 := Worker(Long, p, None)], {}, {}, [])
  }

  function EventSet(): Machine {
    EventSetIn(Started)
  }

  function EventUnset(): Machine {
    Machine(Registry(map[], map[0 := false], {}, {0}, {}, {}), map[0 := Worker(Long, Started, None)], {0}, {}, {}, {}, [], {})
  }

  lemma StartedLong()
    ensures Reachable(EventUnset())
  {
    InitReachable();
    ReachStep(Init, Read(0, Long));
    var m1 := Apply(Init, Read(0, Long));
    ReachStep(m1, Start(0));
    assert Apply(m1, Start(0)) == EventUnset();
  }

  lemma CancelledEvent()
    ensures Reachable(EventSet())
  {
    StartedLong();
    ReachStep(EventUnset(), Cancel(0));
    assert Apply(EventUnset(), Cancel(0)) == EventSet();
  }

  /** It does so only then. */
  lemma MarkLeftOnlyByCrash(m: Machine, rid: Rid)
    requires Reachable(m) && Enabled(m, Clean(rid))
    ensures rid in Apply(m, Clean(rid)).reg.cancelled ==> m.workers[rid].phase.end.Crash?
  {
    ReachableInv(m);
    assert Remembered(m, rid);
  }

  /** Request 0, cancelled while it waited, whose process 7 was killed as it registered. */
  function KilledOnce(p: Phase, running: map<Rid, Pid>, spawned: set<Pid>): Machine {
    Alone(Registry(running, map[], {0}, {0}, {}, {}), map[0 := Worker(Slow, p, Some(7))], spawned, {7}, [])
  }

  lemma KilledOnceReachable()
    ensures Reachable(KilledOnce(Started, map[0 := 7], {7}))
  {
    Overtaken();
    var m3 := Waited();
    ReachStep(m3, Spawn(0, 7));
    var m4 := Apply(m3, Spawn(0, 7));
    ReachStep(m4, Register(0));
    var m5 := Apply(m4, Register(0));
    ReachStep(m5, KillEarly(0));
    assert Apply(m5, KillEarly(0)) == KilledOnce(Started, map[0 := 7], {7});
  }

  function Waited(): Machine {
    Alone(Registry(map[], map[], {}, {0}, {0}, {}), map[0 := Worker(Slow, Started, None)], {}, {}, [])
  }

  lemma Overtaken()
    ensures Reachable(Waited())
  {
    InitReachable();
    ReachStep(Init, Read(0, Slow));
    var m1 := Apply(Init, Read(0, Slow));
    ReachStep(m1, Cancel(0));
    var m2 := Apply(m1, Cancel(0));
    ReachStep(m2, Start(0));
    assert Apply(m2, Start(0)) == Waited();
  }

  /** A plain request that spawns a second process after an accepted cancel is not stopped again:
      only the first process registered after the cancel is. Here process 8 runs on. */
  lemma SecondSpawnSurvives()
    ensures Reachable(KilledOnce(Started, map[0 := 8], {7, 8}))
  {
    KilledOnceReachable();
    var m := KilledOnce(Started, map[0 := 7], {7});
    ReachStep(m, Spawn(0, 8));
    var m1 := Apply(m, Spawn(0, 8));
    ReachStep(m1, Register(0));
    assert Apply(m1, Register(0)) == KilledOnce(Started, map[0 := 8], {7, 8});
  }

  // ------------------------------------------------------------------ the end of the input

  /** The request is done, or its registered process has exited. */
  predicate Finished(m: Machine, rid: Rid) {
    rid !in m.workers || (rid in m.reg.running && m.reg.running[rid] in m.dead)
  }

  /** Some cancel of the request in this run came when it had finished. */
  ghost predicate TooLate(m: Machine, steps: seq<Step>, last: Machine, rid: Rid)
    requires Runs(m, steps, last)
    decreases |steps|
  {
    steps != [] &&
    ((steps[0] == Cancel(rid) && Finished(m, rid)) || TooLate(Apply(m, steps[0]), steps[1..], last, rid))
  }

  /** At the end of the input the serve loop notes the allocation requests still known, and cancels
      one after the other while the workers go on. However their steps fall between the cancels,
      each of those requests has a cancel accepted, unless it had finished when its cancel came. */
  lemma AbandonedAreCancelled(m: Machine, steps: seq<Step>, last: Machine, rid: Rid)
    requires Reachable(m) && Runs(m, steps, last) && rid in m.reg.compute && Cancel(rid) in steps
    ensures Reachable(last) && (rid in last.accepted || TooLate(m, steps, last, rid))
  {
    ReachableInv(m);
    assert Membership(m, rid);
    AllocationIsCancelled(m, steps, last, rid);
  }

  /** An allocation request that was read: ids are not used again. */
  predicate Allocates(m: Machine, rid: Rid) {
    rid in m.used && (rid in m.workers ==> m.workers[rid].kind.Srun?)
  }

  lemma {:induction false} AllocationIsCancelled(m: Machine, steps: seq<Step>, last: Machine, rid: Rid)
    requires Reachable(m) && Runs(m, steps, last) && Allocates(m, rid) && Cancel(rid) in steps
    ensures Reachable(last) && (rid in last.accepted || TooLate(m, steps, last, rid))
    decreases |steps|
  {
    ReachStep(m, steps[0]);
    var next := Apply(m, steps[0]);
    if steps[0] == Cancel(rid) {
      if !Finished(m, rid) {
        CancelAcceptedExactly(m, rid);
      }
      AcceptedStays(next, steps[1..], last, rid);
    } else {
      AllocationIsCancelled(next, steps[1..], last, rid);
    }
  }

  lemma {:induction false} AcceptedStays(m: Machine, steps: seq<Step>, last: Machine, rid: Rid)
    requires Reachable(m) && Runs(m, steps, last)
    ensures Reachable(last) && (rid in m.accepted ==> rid in last.accepted)
    decreases |steps|
  {
    if steps != [] {
      ReachStep(m, steps[0]);
      AcceptedStays(Apply(m, steps[0]), steps[1..], last, rid);
    }
  }

  // ------------------------------------------------------------------ the server's methods

  class Server {
    var running: map<Rid, Pid>
    var events: map<Rid, bool>
    var cancelled: set<Rid>
    var pending: set<Rid>
    var precancelled: set<Rid>
    var compute: set<Rid>

    ghost function View(): Registry
      reads this
    {
      Registry(running, events, cancelled, pending, precancelled, compute)
    }

    constructor ()
      ensures View() == Nothing
    {
      running, events, cancelled := map[], map[], {};
      pending, precancelled, compute := {}, {}, {};
    }

    /** The serve loop's section. */
    method Note(rid: Rid, k: Kind)
      modifies this
      ensures View() == Noted(old(View()), rid, k)
      ensures pending == old(pending) + (if k != Fast then {rid} else {})
      ensures compute == old(compute) + (if k == Srun then {rid} else {})
      ensures running == old(running) && events == old(events)
      ensures cancelled == old(cancelled) && precancelled == old(precancelled)
    {
      if !k.Fast? {
        pending := pending + {rid};
        if k.Srun? {
          compute := compute + {rid};
        }
      }
    }

    method Register(rid: Rid, pid: Pid) returns (early: bool)
      modifies this
      ensures View() == Registered(old(View()), rid, pid) && early == Early(old(View()), rid)
      ensures running == old(running)[rid := pid] && events == old(events)
      ensures early <==> rid in old(precancelled) || (rid in events && events[rid])
      ensures early ==> cancelled == old(cancelled) + {rid} && precancelled == old(precancelled) - {rid}
      ensures !early ==> cancelled == old(cancelled) && precancelled == old(precancelled)
      ensures pending == old(pending) && compute == old(compute)
    {
      running := running[rid := pid];
      early := rid in precancelled || (rid in events && events[rid]);
      if early {
        precancelled := precancelled - {rid};
        cancelled := cancelled + {rid};
      }
    }

    method Unregister(rid: Rid)
      modifies this
      ensures View() == old(View()).(running := old(running) - {rid})
    {
      running := running - {rid};
    }

    method RegisterEvent(rid: Rid)
      modifies this
      ensures View() == EventRegistered(old(View()), rid)
      ensures events == old(events)[rid := rid in old(precancelled)]
      ensures precancelled == old(precancelled) - {rid}
      ensures cancelled == old(cancelled) + (if rid in old(precancelled) then {rid} else {})
      ensures running == old(running) && pending == old(pending) && compute == old(compute)
    {
      events := events[rid := false];
      if rid in precancelled {
        precancelled := precancelled - {rid};
        cancelled := cancelled + {rid};
        events := events[rid := true];
      }
    }

    method UnregisterEvent(rid: Rid)
      modifies this
      ensures View() == old(View()).(events := old(events) - {rid})
    {
      events := events - {rid};
    }

    method TakeCancelled(rid: Rid) returns (was: bool)
      modifies this
      ensures was == (rid in old(cancelled)) && View() == old(View()).(cancelled := old(cancelled) - {rid})
    {
      was := rid in cancelled;
      if was {
        cancelled := cancelled - {rid};
      }
    }

    /** `_cancel`, up to where it leaves the lock to kill. */
    method Cancel(target: Rid, dead: set<Pid>) returns (answer: Answer)
      modifies this
      ensures answer == CancelAnswer(old(View()), target, dead)
      ensures View() == CancelMarked(old(View()), target, answer)
      ensures forall p :: answer == Killing(p) <==> target in running && running[target] == p && p !in dead
      ensures answer == Flagged <==> target !in running && target in events
      ensures answer == Queued <==> target !in running && target !in events && target in pending
      ensures cancelled == old(cancelled) + (if answer == Flagged || answer.Killing? then {target} else {})
      ensures precancelled == old(precancelled) + (if answer == Queued then {target} else {})
      ensures events.Keys == old(events).Keys
      ensures forall r :: r in events ==>
        events[r] == (old(events)[r] || (r == target && (answer == Flagged || answer.Killing?)))
      ensures running == old(running) && pending == old(pending) && compute == old(compute)
    {
      if target in running {
        if running[target] in dead {
          return NotRunning;
        }
        cancelled := cancelled + {target};
        if target in events {
          events := events[target := true];
        }
        return Killing(running[target]);
      }
      if target in events {
        cancelled := cancelled + {target};
        events := events[target := true];
        return Flagged;
      }
      if target in pending {
        precancelled := precancelled + {target};
        return Queued;
      }
      return NotRunning;
    }

    /** The last section of `handle`. */
    method Clean(rid: Rid, k: Kind)
      modifies this
      ensures View() == Cleaned(old(View()), rid, k)
      ensures k == Fast ==> pending == old(pending) && precancelled == old(precancelled) && compute == old(compute)
      ensures k != Fast ==>
        pending == old(pending) - {rid} && precancelled == old(precancelled) - {rid} && compute == old(compute) - {rid}
      ensures running == old(running) && events == old(events) && cancelled == old(cancelled)
    {
      if !k.Fast? {
        pending := pending - {rid};
        precancelled := precancelled - {rid};
        compute := compute - {rid};
      }
    }
  }
}
