/** The client session: requests multiplexed over one stub process at a time, completed by reader
    threads and by the ends of processes. Each step is one section under the session's lock, or one
    action of a reader outside it. */
module SessionMux {
  import opened Common

  type Rid = nat
  type Pid = nat
  type Fut = nat
  type QueueId = nat

  /** How a future is completed: by a terminal frame that a process's reader dispatched, or by the
      end of a process. */
  datatype Outcome = ByFrame(pid: Pid, rid: Rid, ok: bool) | ByEnd(pid: Pid)

  /** The session's own fields, and the state of the futures it has handed out. */
  datatype Session = Session(
    proc: Option<Pid>, pending: map<Rid, Fut>, streams: map<Rid, QueueId>, outcomes: map<Fut, Outcome>)

  /** A reader reads frames, or is about to complete the future of a terminal frame it has popped. */
  datatype Reader = Reading | Holding(fut: Fut, rid: Rid, ok: bool) | Gone

  /** What a future was made for. */
  datatype Request = Request(rid: Rid, pid: Pid)

  /** Beside the session: the readers of all processes ever spawned, the processes that have exited,
      every request made, and every id written to a process. */
  datatype Machine = Machine(
    s: Session, readers: map<Pid, Reader>, exited: set<Pid>, made: map<Fut, Request>, sent: set<(Pid, Rid)>)

  const Init := Machine(Session(None, map[], map[], map[]), map[], {}, map[], {})

  // ------------------------------------------------------------------ sections under the lock

  /** `_fail_pending_locked`: every pending future not done yet fails, and every stream is woken. */
  function FailPending(s: Session, pid: Pid): Session {
    Session(s.proc, map[], map[],
            s.outcomes + map f | f in s.pending.Values && f !in s.outcomes :: ByEnd(pid))
  }

  /** `_kill_locked`. Without a process nothing is ever pending (`PendingOk`), so only streams are
      woken. */
  function KillLocked(m: Machine): Machine {
    if m.s.proc.None? then m.(s := m.s.(streams := map[]))
    else
      m.(s := FailPending(m.s, m.s.proc.value).(proc := None), exited := m.exited + {m.s.proc.value})
  }

  predicate Alive(m: Machine) {
    m.s.proc.Some? && m.s.proc.value !in m.exited
  }

  /** `_start_locked`: a process that does not become ready is killed at once. */
  function StartLocked(m: Machine, pid: Pid, ready: bool): Machine {
    var next := m.(s := m.s.(proc := Some(pid)), readers := m.readers[pid := Reading]);
    if ready then next else KillLocked(next)
  }

  /** `submit` finds a living process, or replaces a dead one. */
  function Connected(m: Machine, pid: Pid, ready: bool): Machine {
    if Alive(m) then m
    else StartLocked(if m.s.proc.Some? then KillLocked(m) else m, pid, ready)
  }

  /** The id a request is sent under: the one asked for, unless it is taken. */
  function IdFor(s: Session, wanted: Rid, spare: Rid): Rid {
    if wanted in s.pending then spare else wanted
  }

  /** The rest of `submit`: register, write, and undo both when the write fails. */
  function Sent(m: Machine, rid: Rid, fut: Fut, written: bool): Machine
    requires m.s.proc.Some?
  {
    var pid := m.s.proc.value;
    if written then
      m.(s := m.s.(pending := m.s.pending[rid := fut]), made := m.made[fut := Request(rid, pid)], sent := m.sent + {(pid, rid)})
    else KillLocked(m.(sent := m.sent + {(pid, rid)}))
  }

  // ------------------------------------------------------------------ steps

  datatype Step =
    | Start(pid: Pid, ready: bool)
    | Submit(wanted: Rid, spare: Rid, fut: Fut, pid: Pid, ready: bool, written: bool)
    | Chunk(from: Pid, rid: Rid)
    | Dispatch(from: Pid, rid: Rid, ok: bool)
    | Complete(from: Pid)
    | ReaderEnds(from: Pid)
    | Exit(pid: Pid)
    | Forget(fut: Fut)
    | Kill
    | OpenStream(rid: Rid, queue: QueueId)
    | CloseStream(rid: Rid)

  predicate Enabled(m: Machine, st: Step) {
    match st
    case Start(pid, _) => pid !in m.readers
    case Submit(wanted, spare, fut, pid, _, _) => pid !in m.readers && fut !in m.made && spare !in m.s.pending
    case Chunk(from, rid) => from in m.readers && m.readers[from].Reading? && (from, rid) in m.sent
    case Dispatch(from, rid, _) => from in m.readers && m.readers[from].Reading? && (from, rid) in m.sent
    case Complete(from) => from in m.readers && m.readers[from].Holding?
    case ReaderEnds(from) => from in m.readers && m.readers[from].Reading?
    case Exit(pid) => pid in m.readers
    case Forget(_) => true
    case Kill => true
    case OpenStream(rid, _) => rid !in m.s.pending && rid !in m.s.streams
    case CloseStream(_) => true
  }

  function Apply(m: Machine, st: Step): Machine
    requires Enabled(m, st)
  {
    match st
    case Start(pid, ready) => if Alive(m) then m else StartLocked(m, pid, ready)
    case Submit(wanted, spare, fut, pid, ready, written) =>
      var c := Connected(m, pid, ready);
      if c.s.proc.None? then c else Sent(c, IdFor(c.s, wanted, spare), fut, written)
    case Chunk(_, _) => m
    case Dispatch(from, rid, ok) =>
      if rid in m.s.pending then
        m.(s := m.s.(pending := m.s.pending - {rid}), readers := m.readers[from := Holding(m.s.pending[rid], rid, ok)])
      else m
    case Complete(from) =>
      var h := m.readers[from];
      m.(s := m.s.(outcomes := m.s.outcomes[h.fut := ByFrame(from, h.rid, h.ok)]), readers := m.readers[from := Reading])
    case ReaderEnds(from) =>
      var next := m.(readers := m.readers[from := Gone]);
      if m.s.proc == Some(from) then next.(s := FailPending(m.s, from)) else next
    case Exit(pid) => m.(exited := m.exited + {pid})
    case Forget(fut) => m.(s := m.s.(pending := map r | r in m.s.pending && m.s.pending[r] != fut :: m.s.pending[r]))
    case Kill => KillLocked(m)
    case OpenStream(rid, queue) => m.(s := m.s.(streams := m.s.streams[rid := queue]))
    case CloseStream(rid) => m.(s := m.s.(streams := m.s.streams - {rid}, pending := m.s.pending - {rid}))
  }

  // ------------------------------------------------------------------ what every step keeps

  ghost predicate PendingOk(m: Machine) {
    && (m.s.proc.None? ==> m.s.pending == map[])
    && (forall r :: r in m.s.pending ==>
          m.s.pending[r] in m.made && m.made[m.s.pending[r]].rid == r && m.s.pending[r] !in m.s.outcomes)
    && (forall r, q :: r in m.s.pending && q in m.s.pending && m.s.pending[r] == m.s.pending[q] ==> r == q)
  }

  /** A future that a reader holds is its alone. */
  ghost predicate HeldOk(m: Machine, p: Pid) {
    p in m.readers && m.readers[p].Holding? ==>
      var h := m.readers[p];
      && h.fut in m.made && m.made[h.fut].rid == h.rid && (p, h.rid) in m.sent
      && h.fut !in m.s.outcomes && h.fut !in m.s.pending.Values
      && (forall q :: q in m.readers && m.readers[q].Holding? && m.readers[q].fut == h.fut ==> q == p)
  }

  ghost predicate OutcomesOk(m: Machine) {
    forall f :: f in m.s.outcomes ==>
      && f in m.made
      && (m.s.outcomes[f].ByFrame? ==>
            m.s.outcomes[f].rid == m.made[f].rid && (m.s.outcomes[f].pid, m.s.outcomes[f].rid) in m.sent)
  }

  ghost predicate MadeOk(m: Machine) {
    && (forall f :: f in m.made ==> (m.made[f].pid, m.made[f].rid) in m.sent && m.made[f].pid in m.readers)
    && (m.s.proc.Some? ==> m.s.proc.value in m.readers)
  }

  ghost predicate Inv(m: Machine) {
    PendingOk(m) && OutcomesOk(m) && MadeOk(m) && forall p :: HeldOk(m, p)
  }

  /** An outcome is never changed or taken back. */
  ghost predicate Settles(m: Machine, n: Machine) {
    && (forall f :: f in m.s.outcomes ==> f in n.s.outcomes && n.s.outcomes[f] == m.s.outcomes[f])
    && (forall f :: f in m.made ==> f in n.made && n.made[f] == m.made[f])
    && m.sent <= n.sent
  }

  ghost predicate Steps(m: Machine, n: Machine) {
    Inv(n) && Settles(m, n)
  }

  lemma SettlesTransitive(a: Machine, b: Machine, c: Machine)
    requires Settles(a, b) && Settles(b, c)
    ensures Settles(a, c)
  {
  }

  lemma FailKeeps(m: Machine, pid: Pid)
    requires Inv(m)
    ensures Steps(m, m.(s := FailPending(m.s, pid)))
  {
    var n := m.(s := FailPending(m.s, pid));
    forall p ensures HeldOk(n, p) {
      assert HeldOk(m, p);
    }
  }

  lemma KillKeeps(m: Machine)
    requires Inv(m)
    ensures Steps(m, KillLocked(m)) && KillLocked(m).readers == m.readers && KillLocked(m).made == m.made
    ensures KillLocked(m).s.pending == map[]
  {
    if m.s.proc.Some? {
      FailKeeps(m, m.s.proc.value);
    }
    forall p ensures HeldOk(KillLocked(m), p) {
      assert HeldOk(m, p);
    }
  }

  lemma StartKeeps(m: Machine, pid: Pid, ready: bool)
    requires Inv(m) && pid !in m.readers
    ensures Steps(m, StartLocked(m, pid, ready)) && StartLocked(m, pid, ready).made == m.made
  {
    var next := m.(s := m.s.(proc := Some(pid)), readers := m.readers[pid := Reading]);
    assert Inv(next) by {
      forall p ensures HeldOk(next, p) {
        assert HeldOk(m, p);
      }
    }
    if !ready {
      KillKeeps(next);
      SettlesTransitive(m, next, KillLocked(next));
    }
  }

  lemma ConnectKeeps(m: Machine, pid: Pid, ready: bool)
    requires Inv(m) && pid !in m.readers
    ensures Steps(m, Connected(m, pid, ready)) && Connected(m, pid, ready).made == m.made
    ensures Connected(m, pid, ready).s.pending == m.s.pending || Connected(m, pid, ready).s.pending == map[]
  {
    if !Alive(m) {
      KillKeeps(m);
      var k := if m.s.proc.Some? then KillLocked(m) else m;
      StartKeeps(k, pid, ready);
      SettlesTransitive(m, k, Connected(m, pid, ready));
    }
  }

  lemma SentKeeps(m: Machine, rid: Rid, fut: Fut, written: bool)
    requires Inv(m) && m.s.proc.Some? && fut !in m.made && rid !in m.s.pending
    ensures Steps(m, Sent(m, rid, fut, written))
  {
    var pid := m.s.proc.value;
    var w := m.(sent := m.sent + {(pid, rid)});
    assert Inv(w) by {
      forall p ensures HeldOk(w, p) {
        assert HeldOk(m, p);
      }
    }
    if written {
      var n := Sent(m, rid, fut, true);
      forall p ensures HeldOk(n, p) {
        assert HeldOk(m, p);
      }
    } else {
      KillKeeps(w);
    }
  }

  lemma SubmitKeeps(m: Machine, st: Step)
    requires Inv(m) && Enabled(m, st) && st.Submit?
    ensures Steps(m, Apply(m, st))
  {
    ConnectKeeps(m, st.pid, st.ready);
    var c := Connected(m, st.pid, st.ready);
    if c.s.proc.Some? {
      SentKeeps(c, IdFor(c.s, st.wanted, st.spare), st.fut, st.written);
      SettlesTransitive(m, c, Apply(m, st));
    }
  }

  lemma DispatchKeeps(m: Machine, st: Step)
    requires Inv(m) && Enabled(m, st) && st.Dispatch?
    ensures Steps(m, Apply(m, st))
  {
    var n := Apply(m, st);
    if st.rid in m.s.pending {
      forall p ensures HeldOk(n, p) {
        assert HeldOk(m, p);
        assert forall q :: q in m.readers && m.readers[q].Holding? ==> HeldOk(m, q);
      }
    }
  }

  lemma CompleteKeeps(m: Machine, st: Step)
    requires Inv(m) && Enabled(m, st) && st.Complete?
    ensures Steps(m, Apply(m, st))
  {
    var n := Apply(m, st);
    assert HeldOk(m, st.from);
    forall p ensures HeldOk(n, p) {
      assert HeldOk(m, p);
    }
  }

  lemma ReaderEndKeeps(m: Machine, st: Step)
    requires Inv(m) && Enabled(m, st) && st.ReaderEnds?
    ensures Steps(m, Apply(m, st))
  {
    var next := m.(readers := m.readers[st.from := Gone]);
    forall p ensures HeldOk(next, p) {
      assert HeldOk(m, p);
    }
    FailKeeps(next, st.from);
  }

  lemma PopKeeps(m: Machine, s: Session)
    requires Inv(m) && s.outcomes == m.s.outcomes && s.proc == m.s.proc
    requires forall r :: r in s.pending ==> r in m.s.pending && s.pending[r] == m.s.pending[r]
    ensures Steps(m, m.(s := s))
  {
    var n := m.(s := s);
    forall p ensures HeldOk(n, p) {
      assert HeldOk(m, p);
    }
  }

  /** Every step completes only futures that are not complete yet. */
  lemma StepKeeps(m: Machine, st: Step)
    requires Inv(m) && Enabled(m, st)
    ensures Steps(m, Apply(m, st))
  {
    match st
    case Start(pid, ready) => StartKeeps(m, pid, ready);
    case Submit(_, _, _, _, _, _) => SubmitKeeps(m, st);
    case Chunk(_, _) =>
    case Dispatch(_, _, _) => DispatchKeeps(m, st);
    case Complete(_) => CompleteKeeps(m, st);
    case ReaderEnds(_) => ReaderEndKeeps(m, st);
    case Exit(_) => forall p ensures HeldOk(Apply(m, st), p) { assert HeldOk(m, p); }
    case Forget(_) => PopKeeps(m, Apply(m, st).s);
    case Kill => KillKeeps(m);
    case OpenStream(_, _) => PopKeeps(m, Apply(m, st).s);
    case CloseStream(_) => PopKeeps(m, Apply(m, st).s);
  }

  // ------------------------------------------------------------------ which process ends a request

  /** Every pending request was sent on the current process, and a future failed by the end of a
      process was sent on that process. */
  ghost predicate OwnProcess(m: Machine) {
    && (forall r :: r in m.s.pending && m.s.pending[r] in m.made ==> m.s.proc == Some(m.made[m.s.pending[r]].pid))
    && (forall f :: f in m.s.outcomes && f in m.made && m.s.outcomes[f].ByEnd? ==> m.s.outcomes[f].pid == m.made[f].pid)
  }

  /** `start` is not called over a dead process that still has requests pending. */
  predicate Careful(m: Machine, st: Step) {
    st.Start? ==> m.s.proc.None? || Alive(m) || m.s.pending == map[]
  }

  lemma KillOwn(m: Machine)
    requires Inv(m) && OwnProcess(m)
    ensures OwnProcess(KillLocked(m))
  {
  }

  lemma StartOwn(m: Machine, pid: Pid, ready: bool)
    requires Inv(m) && OwnProcess(m) && m.s.pending == map[] && pid !in m.readers
    ensures OwnProcess(StartLocked(m, pid, ready))
  {
    var next := m.(s := m.s.(proc := Some(pid)), readers := m.readers[pid := Reading]);
    assert OwnProcess(next);
  }

  lemma ConnectOwn(m: Machine, pid: Pid, ready: bool)
    requires Inv(m) && OwnProcess(m) && pid !in m.readers
    ensures OwnProcess(Connected(m, pid, ready))
  {
    if !Alive(m) {
      KillKeeps(m);
      KillOwn(m);
      StartOwn(if m.s.proc.Some? then KillLocked(m) else m, pid, ready);
    }
  }

  lemma SentOwn(m: Machine, rid: Rid, fut: Fut, written: bool)
    requires Inv(m) && OwnProcess(m) && m.s.proc.Some? && fut !in m.made
    ensures OwnProcess(Sent(m, rid, fut, written))
  {
  }

  lemma SubmitOwn(m: Machine, st: Step)
    requires Inv(m) && OwnProcess(m) && Enabled(m, st) && st.Submit?
    ensures OwnProcess(Apply(m, st))
  {
    ConnectKeeps(m, st.pid, st.ready);
    ConnectOwn(m, st.pid, st.ready);
    var c := Connected(m, st.pid, st.ready);
    if c.s.proc.Some? {
      SentOwn(c, IdFor(c.s, st.wanted, st.spare), st.fut, st.written);
    }
  }

  /** For `start`, the condition is exact, whether the new process becomes ready or not: over a
      dead process with requests pending it leaves them to another process, whose end fails them
      at once when it does not. */
  lemma StartOwnExactly(m: Machine, pid: Pid, ready: bool)
    requires Inv(m) && OwnProcess(m) && pid !in m.readers
    ensures OwnProcess(Apply(m, Start(pid, ready))) <==> Careful(m, Start(pid, ready))
    ensures !Careful(m, Start(pid, false)) ==>
      forall f :: f in m.s.pending.Values ==>
        f in Apply(m, Start(pid, false)).s.outcomes && Apply(m, Start(pid, false)).s.outcomes[f] == ByEnd(pid)
  {
    if Careful(m, Start(pid, ready)) {
      StepOwn(m, Start(pid, ready));
    } else {
      var r :| r in m.s.pending;
      assert m.s.pending[r] in m.s.pending.Values && m.made[m.s.pending[r]].pid in m.readers;
    }
  }

  lemma StepOwn(m: Machine, st: Step)
    requires Inv(m) && OwnProcess(m) && Enabled(m, st) && Careful(m, st)
    ensures OwnProcess(Apply(m, st))
  {
    match st
    case Start(pid, ready) => if !Alive(m) { StartOwn(m, pid, ready); }
    case Submit(_, _, _, _, _, _) => SubmitOwn(m, st);
    case Kill => KillOwn(m);
    case Complete(from) => assert HeldOk(m, from);
    case _ =>
  }

  // ------------------------------------------------------------------ runs

  ghost predicate Runs(m: Machine, steps: seq<Step>, last: Machine, careful: bool)
    decreases |steps|
  {
    if steps == [] then last == m
    else
      Enabled(m, steps[0]) && (careful ==> Careful(m, steps[0])) && Runs(Apply(m, steps[0]), steps[1..], last, careful)
  }

  lemma {:induction false} RunKeeps(m: Machine, steps: seq<Step>, last: Machine, careful: bool)
    requires Inv(m) && (careful ==> OwnProcess(m)) && Runs(m, steps, last, careful)
    ensures Steps(m, last) && (careful ==> OwnProcess(last))
    decreases |steps|
  {
    if steps != [] {
      StepKeeps(m, steps[0]);
      if careful {
        StepOwn(m, steps[0]);
      }
      RunKeeps(Apply(m, steps[0]), steps[1..], last, careful);
      SettlesTransitive(m, Apply(m, steps[0]), last);
    }
  }

  /** Under every interleaving, a future is completed at most once: once it has an outcome, it
      keeps that outcome. */
  lemma CompletedAtMostOnce(before: seq<Step>, m: Machine, after: seq<Step>, last: Machine, fut: Fut)
    requires Runs(Init, before, m, false) && Runs(m, after, last, false) && fut in m.s.outcomes
    ensures fut in last.s.outcomes && last.s.outcomes[fut] == m.s.outcomes[fut]
  {
    RunKeeps(Init, before, m, false);
    RunKeeps(m, after, last, false);
  }

  /** A future is completed only by a terminal frame that carries its id, or by the end of the
      process it was sent on, when `start` is not called over a dead process with requests
      pending. */
  lemma CompletedByItsOwn(steps: seq<Step>, m: Machine, fut: Fut)
    requires Runs(Init, steps, m, true) && fut in m.s.outcomes
    ensures fut in m.made
    ensures m.s.outcomes[fut].ByFrame? ==> m.s.outcomes[fut].rid == m.made[fut].rid
    ensures m.s.outcomes[fut].ByEnd? ==> m.s.outcomes[fut].pid == m.made[fut].pid
  {
    RunKeeps(Init, steps, m, true);
  }

  /** When no id is ever sent to two processes, the frame came from the process the request was
      sent on, even if an old reader is still running. */
  lemma FrameFromItsOwnProcess(steps: seq<Step>, m: Machine, fut: Fut)
    requires Runs(Init, steps, m, false) && fut in m.s.outcomes && m.s.outcomes[fut].ByFrame?
    requires forall p, q, r :: (p, r) in m.sent && (q, r) in m.sent ==> p == q
    ensures fut in m.made && m.s.outcomes[fut].pid == m.made[fut].pid
  {
    RunKeeps(Init, steps, m, false);
    var o := m.s.outcomes[fut];
    assert (o.pid, o.rid) in m.sent && (m.made[fut].pid, m.made[fut].rid) in m.sent;
  }

  /** A terminal frame for a pending request completes that request's future, with what the frame
      says, and touches no other; one for any other id changes nothing. */
  lemma FrameCompletes(m: Machine, from: Pid, rid: Rid, ok: bool)
    requires Inv(m) && Enabled(m, Dispatch(from, rid, ok))
    ensures var n := Apply(m, Dispatch(from, rid, ok));
      if rid in m.s.pending then
        && Enabled(n, Complete(from))
        && Apply(n, Complete(from)).s ==
           m.s.(pending := m.s.pending - {rid}, outcomes := m.s.outcomes[m.s.pending[rid] := ByFrame(from, rid, ok)])
      else n == m
  {
  }

  /** The exit of the reader of a process that is no longer the current one fails nothing; that of
      the current one fails exactly the requests pending on it. */
  lemma OldReaderFailsNothing(steps: seq<Step>, m: Machine, from: Pid)
    requires Runs(Init, steps, m, true) && Enabled(m, ReaderEnds(from))
    ensures var n := Apply(m, ReaderEnds(from));
      && (m.s.proc != Some(from) ==> n.s == m.s)
      && (forall f :: f in n.s.outcomes && f !in m.s.outcomes <==> m.s.proc == Some(from) && f in m.s.pending.Values)
      && (forall f :: f in n.s.outcomes && f !in m.s.outcomes ==> f in n.made && n.made[f].pid == from)
  {
    RunKeeps(Init, steps, m, true);
  }

  /** What `start` over a dead process does: here request 1, sent on process 10, is failed by the
      end of process 11. */
  lemma StartStrands()
    ensures var m0 := Apply(Init, Submit(1, 2, 0, 10, true, true));
      var m1 := Apply(m0, Exit(10));
      var m2 := Apply(m1, Start(11, true));
      var m3 := Apply(m2, ReaderEnds(10));
      var m4 := Apply(m3, Exit(11));
      var m5 := Apply(m4, ReaderEnds(11));
      && !Careful(m1, Start(11, true))
      && m3.s.pending == map[1 := 0] && 0 !in m3.s.outcomes
      && m5.s.outcomes == map[0 := ByEnd(11)] && m5.made[0] == Request(1, 10)
  {
    var m0 := Apply(Init, Submit(1, 2, 0, 10, true, true));
    assert m0.s == Session(Some(10), map[1 := 0], map[], map[]);
    var m1 := Apply(m0, Exit(10));
    var m2 := Apply(m1, Start(11, true));
    assert m2.s.pending == map[1 := 0];
    var m3 := Apply(m2, ReaderEnds(10));
    assert m3.s == m2.s;
    var m4 := Apply(m3, Exit(11));
    var m5 := Apply(m4, ReaderEnds(11));
    assert 0 in m4.s.pending.Values by {
      assert m4.s.pending[1] == 0;
    }
    assert m5.s.outcomes == map[0 := ByEnd(11)];
  }

  // ------------------------------------------------------------------ the session's methods

  class ClientSession {
    var proc: Option<Pid>
    var pending: map<Rid, Fut>
    var streams: map<Rid, QueueId>
    var outcomes: map<Fut, Outcome>
    var exited: set<Pid>
    ghost var readers: map<Pid, Reader>
    ghost var made: map<Fut, Request>
    ghost var sent: set<(Pid, Rid)>

    ghost function View(): Machine
      reads this
    {
      Machine(Session(proc, pending, streams, outcomes), readers, exited, made, sent)
    }

    constructor ()
      ensures View() == Init
    {
      proc, pending, streams, outcomes, exited := None, map[], map[], map[], {};
      readers, made, sent := map[], map[], {};
    }

    /** `_fail_pending_locked`: one future after another. */
    method FailAll(pid: Pid)
      modifies this`pending, this`streams, this`outcomes
      ensures View() == old(View()).(s := FailPending(old(View().s), pid))
      ensures pending == map[] && streams == map[]
      ensures outcomes.Keys == old(outcomes).Keys + old(pending).Values
      ensures forall f :: f in outcomes ==> outcomes[f] == if f in old(outcomes) then old(outcomes)[f] else ByEnd(pid)
    {
      var failing := pending;
      pending := map[];
      ghost var was := outcomes;
      var rest := failing.Values;
      while rest != {}
        invariant rest <= failing.Values && pending == map[]
        invariant outcomes == was + map f | f in failing.Values - rest && f !in was :: ByEnd(pid)
        decreases rest
      {
        var f :| f in rest;
        rest := rest - {f};
        if f !in outcomes {
          outcomes := outcomes[f := ByEnd(pid)];
        }
      }
      assert outcomes == was + map f | f in failing.Values && f !in was :: ByEnd(pid);
      streams := map[];
    }

    /** `_kill_locked`. */
    method KillProcess()
      modifies this
      ensures View() == KillLocked(old(View()))
      ensures proc == None && streams == map[]
      ensures old(proc).Some? ==>
        && exited == old(exited) + {old(proc).value} && pending == map[]
        && outcomes.Keys == old(outcomes).Keys + old(pending).Values
        && forall f :: f in outcomes ==>
             outcomes[f] == if f in old(outcomes) then old(outcomes)[f] else ByEnd(old(proc).value)
      ensures old(proc).None? ==> outcomes == old(outcomes) && exited == old(exited) && pending == old(pending)
    {
      if proc.None? {
        streams := map[];
        return;
      }
      var pid := proc.value;
      FailAll(pid);
      proc, exited := None, exited + {pid};
    }

    /** `_start_locked`. */
    method StartProcess(pid: Pid, ready: bool)
      modifies this
      ensures View() == StartLocked(old(View()), pid, ready)
    {
      proc := Some(pid);
      readers := readers[pid := Reading];
      if !ready {
        KillProcess();
      }
    }

    /** `submit`: whether the request went out. */
    method SubmitRequest(wanted: Rid, spare: Rid, fut: Fut, pid: Pid, ready: bool, written: bool) returns (ok: bool)
      requires Enabled(View(), Submit(wanted, spare, fut, pid, ready, written))
      modifies this
      ensures View() == Apply(old(View()), Submit(wanted, spare, fut, pid, ready, written))
      ensures ok <==> fut in made
      ensures old(proc).Some? && old(proc).value !in old(exited) ==>
        && ok == written && (ok ==> proc == old(proc) && streams == old(streams) && outcomes == old(outcomes))
        && (ok ==> pending == old(pending)[(if wanted in old(pending) then spare else wanted) := fut])
        && (!ok ==> proc == None && pending == map[])
      ensures (if old(proc).None? then old(pending) == map[] else old(proc).value in old(exited)) ==>
        && ok == (ready && written) && (ok ==> proc == Some(pid) && pending == map[wanted := fut])
        && (!ok ==> proc == None && pending == map[])
      ensures old(proc).Some? ==> forall f :: f in old(pending).Values && (!ok || old(proc) != proc) ==> f in outcomes
    {
      ok := false;
      if proc.None? || proc.value in exited {
        if proc.Some? {
          KillProcess();
        }
        StartProcess(pid, ready);
        if proc.None? {
          return;
        }
      }
      var rid := wanted;
      if rid in pending {
        rid := spare;
      }
      sent := sent + {(proc.value, rid)};
      if !written {
        KillProcess();
        return;
      }
      pending := pending[rid := fut];
      made := made[fut := Request(rid, proc.value)];
      ok := true;
    }

    /** `_dispatch` of a terminal frame, up to where it leaves the lock. */
    method PopFuture(from: Pid, rid: Rid, ok: bool) returns (fut: Option<Fut>)
      requires Enabled(View(), Dispatch(from, rid, ok))
      modifies this`pending, this`readers
      ensures View() == Apply(old(View()), Dispatch(from, rid, ok))
      ensures fut == if rid in old(pending) then Some(old(pending)[rid]) else None
      ensures pending == old(pending) - {rid}
    {
      fut := None;
      if rid in pending {
        fut := Some(pending[rid]);
        readers := readers[from := Holding(pending[rid], rid, ok)];
        pending := pending - {rid};
      }
    }

    /** The end of a reader. */
    method EndReader(from: Pid)
      requires Enabled(View(), ReaderEnds(from))
      modifies this
      ensures View() == Apply(old(View()), ReaderEnds(from))
      ensures proc == old(proc)
      ensures old(proc) == Some(from) ==>
        && pending == map[] && streams == map[] && outcomes.Keys == old(outcomes).Keys + old(pending).Values
        && forall f :: f in outcomes ==> outcomes[f] == if f in old(outcomes) then old(outcomes)[f] else ByEnd(from)
      ensures old(proc) != Some(from) ==> pending == old(pending) && streams == old(streams) && outcomes == old(outcomes)
    {
      readers := readers[from := Gone];
      if proc == Some(from) {
        FailAll(from);
      }
    }

    /** `_forget`: drops a future under whatever id it is registered. */
    method ForgetFuture(fut: Fut)
      modifies this`pending
      ensures View() == Apply(old(View()), Forget(fut))
      ensures forall r :: r in pending <==> r in old(pending) && old(pending)[r] != fut
      ensures forall r :: r in pending ==> pending[r] == old(pending)[r]
    {
      var rest := pending.Keys;
      var kept: map<Rid, Fut> := map[];
      while rest != {}
        invariant rest <= pending.Keys && pending == old(pending)
        invariant kept == map r | r in pending && r !in rest && pending[r] != fut :: pending[r]
        decreases rest
      {
        var r :| r in rest;
        rest := rest - {r};
        if pending[r] != fut {
          kept := kept[r := pending[r]];
        }
      }
      pending := kept;
    }
  }
}
