/** Each attempt is handed to the scheduler at most once, and recovery binds the right job. */
module CampaignRecovery {
  import opened Common
  import opened Attempts
  import opened CampaignLedger
  import opened CampaignConservation
  import opened CampaignReservations

  function CallsOf(es: seq<Event>, ref: AttemptRef): nat {
    if es == [] then 0
    else CallsOf(es[..|es| - 1], ref) + One(es[|es| - 1].Sbatch? && es[|es| - 1].ref == ref)
  }

  function ReopensOf(es: seq<Event>, ref: AttemptRef): nat {
    if es == [] then 0
    else ReopensOf(es[..|es| - 1], ref) + One(Reopens(es[|es| - 1]) && es[|es| - 1].ref == ref)
  }

  lemma CountsAppend(es: seq<Event>, e: Event, ref: AttemptRef)
    ensures CallsOf(es + [e], ref) == CallsOf(es, ref) + One(e.Sbatch? && e.ref == ref)
    ensures ReopensOf(es + [e], ref) == ReopensOf(es, ref) + One(Reopens(e) && e.ref == ref)
  {
    assert (es + [e])[..|es|] == es;
  }

  predicate AboutToSubmit(c: Config, ref: AttemptRef) {
    IsCurrent(c.led, ref) && Get(c.led, ref).state == INTENDED
  }

  /** The calls an attempt may still cause: one for existing and one per reopening, less those
      made, less the one it is about to make. */
  function Allowance(c: Config, ref: AttemptRef): int {
    One(RefExists(c.led, ref)) + ReopensOf(c.events, ref) - CallsOf(c.events, ref)
    - One(AboutToSubmit(c, ref)) - One(c.phase == Armed(ref))
  }

  lemma StepKeepsAllowance(c: Config, l: Label, ref: AttemptRef)
    requires Enabled(c, l)
    ensures Allowance(Apply(c, l), ref) >= Allowance(c, ref)
  {
    if l.Reserve? {
      ReserveKeepsAllowance(c, l, ref);
    } else if l.Call? {
      CountsAppend(c.events, Apply(c, l).events[|c.events|], ref);
    } else if !l.Crash? {
      MoveKeepsAllowance(c, l, ref);
    }
  }

  lemma ReserveKeepsAllowance(c: Config, l: Label, ref: AttemptRef)
    requires Enabled(c, l) && l.Reserve?
    ensures Allowance(Apply(c, l), ref) >= Allowance(c, ref)
  {
    OpenedIsCurrent(CoreBefore(c.led, l.req.group), NewAttempt(l.req));
  }

  lemma MoveKeepsAllowance(c: Config, l: Label, ref: AttemptRef)
    requires Enabled(c, l) && (l.Recover? || l.Begin? || l.Settle? || l.SetState?)
    ensures Allowance(Apply(c, l), ref) >= Allowance(c, ref)
  {
    StepMoves(c, l);
    if l.SetState? {
      CountsAppend(c.events, Apply(c, l).events[|c.events|], ref);
    }
  }

  lemma NextKeepsAllowance(c: Config, d: Config, ref: AttemptRef)
    requires Next(c, d)
    ensures Allowance(d, ref) >= Allowance(c, ref)
  {
    var l :| Enabled(c, l) && d == Apply(c, l);
    StepKeepsAllowance(c, l, ref);
  }

  lemma {:induction false} RunKeepsAllowance(cs: seq<Config>, i: nat, ref: AttemptRef)
    requires IsRun(cs) && i < |cs|
    ensures Allowance(cs[i], ref) >= Allowance(cs[0], ref)
  {
    if i > 0 {
      RunKeepsAllowance(cs, i - 1, ref);
      assert Linked(cs, i);
      NextKeepsAllowance(cs[i - 1], cs[i], ref);
    }
  }

  /** Over every run with crashes anywhere, from any ledger: an attempt is handed to the
      scheduler at most once, and once more for each update that reopened it. An attempt still
      INTENDED has that one call before it. */
  lemma SubmittedAtMostOnce(cs: seq<Config>, i: nat, ref: AttemptRef)
    requires IsRun(cs) && i < |cs| && cs[0].events == [] && cs[0].phase.Idle?
    ensures CallsOf(cs[i].events, ref) + One(AboutToSubmit(cs[i], ref)) <= 1 + ReopensOf(cs[i].events, ref)
  {
    RunKeepsAllowance(cs, i, ref);
  }

  // ------------------------------------------------------------------ the right job

  /** No two attempts carry one marker. Markers are built from prefixes of ids, so this is a
      condition on the ids in the ledger. */
  ghost predicate MarkersUnique(led: Ledger) {
    forall r, s: AttemptRef :: RefExists(led, r) && RefExists(led, s) && r != s ==>
      Get(led, r).marker != Get(led, s).marker
  }

  /** The scheduler created this job for this attempt. */
  ghost predicate CreatedFor(es: seq<Event>, ref: AttemptRef, j: JobId) {
    exists i :: 0 <= i < |es| && es[i].Sbatch? && es[i].ref == ref && Created(es[i].reply) == Some(j)
  }

  ghost predicate CallsNameAttempts(c: Config) {
    forall i :: 0 <= i < |c.events| && c.events[i].Sbatch? ==>
      RefExists(c.led, c.events[i].ref) && c.events[i].marker == Get(c.led, c.events[i].ref).marker
  }

  ghost predicate PhaseOk(c: Config) {
    && (c.phase.Armed? ==> RefExists(c.led, c.phase.ref) && Get(c.led, c.phase.ref).state == SUBMITTING)
    && (c.phase.Called? ==>
          && RefExists(c.led, c.phase.ref) && Get(c.led, c.phase.ref).state == SUBMITTING
          && c.events != [] && c.events[|c.events| - 1].Sbatch?
          && c.events[|c.events| - 1].ref == c.phase.ref
          && c.events[|c.events| - 1].reply == c.phase.reply)
  }

  /** Every job id in the ledger is a job the scheduler created for that very attempt. */
  ghost predicate JobsBound(c: Config) {
    forall r: AttemptRef :: RefExists(c.led, r) && Get(c.led, r).job.Some? ==>
      CreatedFor(c.events, r, Get(c.led, r).job.value)
  }

  ghost predicate Bound(c: Config) {
    CallsNameAttempts(c) && PhaseOk(c) && JobsBound(c)
  }

  lemma CreatedForGrows(es: seq<Event>, e: Event, ref: AttemptRef, j: JobId)
    requires CreatedFor(es, ref, j)
    ensures CreatedFor(es + [e], ref, j)
  {
    var i :| 0 <= i < |es| && es[i].Sbatch? && es[i].ref == ref && Created(es[i].reply) == Some(j);
    assert (es + [e])[i] == es[i];
  }

  /** With unique markers, every job a query reports for an attempt's marker is that attempt's. */
  lemma MatchesAreOwn(c: Config, ref: AttemptRef, visible: set<nat>, j: JobId)
    requires CallsNameAttempts(c) && MarkersUnique(c.led) && RefExists(c.led, ref)
    requires j in Matches(c.events, Get(c.led, ref).marker, visible)
    ensures CreatedFor(c.events, ref, j)
  {
  }

  lemma StepKeepsCallsNamed(c: Config, l: Label)
    requires CallsNameAttempts(c) && PhaseOk(c) && Enabled(c, l)
    ensures CallsNameAttempts(Apply(c, l)) && PhaseOk(Apply(c, l))
  {
    StepExtends(c, l);
    if l.Recover? || l.Begin? || l.Settle? || l.SetState? {
      StepMoves(c, l);
    }
  }

  lemma StepKeepsJobsBound(c: Config, l: Label)
    requires Bound(c) && MarkersUnique(c.led) && Enabled(c, l)
    ensures JobsBound(Apply(c, l))
  {
    var d := Apply(c, l);
    forall r: AttemptRef | RefExists(d.led, r) && Get(d.led, r).job.Some?
      ensures CreatedFor(d.events, r, Get(d.led, r).job.value)
    {
      if l.Reserve? {
        assert RefExists(c.led, r) && Get(c.led, r) == Get(d.led, r);
      } else if l.Recover? || l.Begin? || l.Settle? || l.SetState? {
        JobsMoved(c, l, r);
      }
      if l.Call? || l.SetState? {
        CreatedForGrows(c.events, d.events[|c.events|], r, Get(d.led, r).job.value);
      }
    }
  }

  lemma JobsMoved(c: Config, l: Label, r: AttemptRef)
    requires Bound(c) && MarkersUnique(c.led) && Enabled(c, l)
    requires l.Recover? || l.Begin? || l.Settle? || l.SetState?
    requires RefExists(Apply(c, l).led, r) && Get(Apply(c, l).led, r).job.Some?
    ensures CreatedFor(c.events, r, Get(Apply(c, l).led, r).job.value)
  {
    var d := Apply(c, l);
    StepMoves(c, l);
    var ref := MovedRef(c, l);
    if r != ref {
      assert Get(d.led, r) == Get(c.led, r);
    } else if l.Recover? {
      var found := Matches(c.events, Get(c.led, ref).marker, l.visible);
      if |found| == 1 {
        MatchesAreOwn(c, ref, l.visible, Only(found));
      }
    } else if l.Settle? && c.phase.reply.Accepted? {
      assert c.events[|c.events| - 1].ref == ref;
    } else {
      assert Get(d.led, r).job == Get(c.led, r).job;
    }
  }

  lemma NextKeepsBound(c: Config, d: Config)
    requires Bound(c) && MarkersUnique(c.led) && Next(c, d)
    ensures Bound(d)
  {
    var l :| Enabled(c, l) && d == Apply(c, l);
    StepKeepsCallsNamed(c, l);
    StepKeepsJobsBound(c, l);
  }

  lemma UniqueEarlier(led: Ledger, out: Ledger)
    requires Extends(led, out) && MarkersUnique(out)
    ensures MarkersUnique(led)
  {
  }

  /** Recovery binds the right job: in every run from an empty ledger in which no two attempts
      end up with one marker, every attempt that holds a job id holds a job that the scheduler
      created for it, whatever the scheduler queries left out. */
  lemma {:induction false} RecoveryBindsOwnJob(cs: seq<Config>, i: nat)
    requires IsRun(cs) && i < |cs| && cs[0] == Fresh && MarkersUnique(cs[i].led)
    ensures Bound(cs[i])
  {
    if i > 0 {
      RunExtends(cs, i - 1, i);
      UniqueEarlier(cs[i - 1].led, cs[i].led);
      RecoveryBindsOwnJob(cs, i - 1);
      assert Linked(cs, i);
      NextKeepsBound(cs[i - 1], cs[i]);
    }
  }

  // ------------------------------------------------------------------ the fate of a submission

  /** A client set this attempt's state at some time. */
  ghost predicate Updated(es: seq<Event>, ref: AttemptRef) {
    exists i :: 0 <= i < |es| && es[i].Update? && es[i].ref == ref
  }

  predicate Resolvable(s: State) {
    s == SUBMITTING || s == ACCEPTED || s == UNKNOWN
  }

  /** A submitted attempt that no client has updated is SUBMITTING, ACCEPTED or UNKNOWN, or
      REJECTED after the scheduler answered its call with a non-zero exit. An ACCEPTED one holds
      a job id. */
  ghost predicate Fated(c: Config) {
    && (forall i :: 0 <= i < |c.events| && c.events[i].Sbatch? && !Updated(c.events, c.events[i].ref) ==>
          RefExists(c.led, c.events[i].ref) &&
          (Resolvable(Get(c.led, c.events[i].ref).state) ||
           (Get(c.led, c.events[i].ref).state == REJECTED && c.events[i].reply.Rejected?)))
    && (forall r: AttemptRef :: RefExists(c.led, r) && !Updated(c.events, r) && Get(c.led, r).state == ACCEPTED ==>
          Get(c.led, r).job.Some?)
  }

  lemma {:induction false} CallAtIndexCounts(es: seq<Event>, i: nat, ref: AttemptRef)
    requires i < |es| && es[i].Sbatch? && es[i].ref == ref
    ensures CallsOf(es, ref) >= 1
    ensures i < |es| - 1 && es[|es| - 1].Sbatch? && es[|es| - 1].ref == ref ==> CallsOf(es, ref) >= 2
  {
    if i < |es| - 1 {
      CallAtIndexCounts(es[..|es| - 1], i, ref);
    }
  }

  lemma {:induction false} NeverUpdatedNeverReopened(es: seq<Event>, ref: AttemptRef)
    requires !Updated(es, ref)
    ensures ReopensOf(es, ref) == 0
  {
    if es != [] {
      var n := |es| - 1;
      assert es == es[..n] + [es[n]];
      UpdatedGrows(es[..n], es[n], ref);
      NeverUpdatedNeverReopened(es[..n], ref);
    }
  }

  lemma UpdatedGrows(es: seq<Event>, e: Event, ref: AttemptRef)
    ensures Updated(es, ref) ==> Updated(es + [e], ref)
    ensures e.Update? && e.ref == ref ==> Updated(es + [e], ref)
  {
    if Updated(es, ref) {
      var i :| 0 <= i < |es| && es[i].Update? && es[i].ref == ref;
      assert (es + [e])[i] == es[i];
    }
    assert (es + [e])[|es|] == e;
  }

  lemma StepKeepsFate(c: Config, l: Label)
    requires Fated(c) && PhaseOk(c) && CallsNameAttempts(c) && Enabled(c, l)
    requires c.phase.Called? ==> Allowance(c, c.phase.ref) >= 0
    ensures Fated(Apply(c, l))
  {
    var d := Apply(c, l);
    StepExtends(c, l);
    forall i | 0 <= i < |d.events| && d.events[i].Sbatch? && !Updated(d.events, d.events[i].ref)
      ensures Resolvable(Get(d.led, d.events[i].ref).state) ||
              (Get(d.led, d.events[i].ref).state == REJECTED && d.events[i].reply.Rejected?)
    {
      CallKeepsFate(c, l, i);
    }
    forall r: AttemptRef | RefExists(d.led, r) && !Updated(d.events, r) && Get(d.led, r).state == ACCEPTED
      ensures Get(d.led, r).job.Some?
    {
      AcceptedKeepsJob(c, l, r);
    }
  }

  lemma CallKeepsFate(c: Config, l: Label, i: nat)
    requires Fated(c) && PhaseOk(c) && CallsNameAttempts(c) && Enabled(c, l)
    requires c.phase.Called? ==> Allowance(c, c.phase.ref) >= 0
    requires i < |Apply(c, l).events| && Apply(c, l).events[i].Sbatch?
    requires !Updated(Apply(c, l).events, Apply(c, l).events[i].ref)
    requires RefExists(Apply(c, l).led, Apply(c, l).events[i].ref)
    ensures var d := Apply(c, l);
            Resolvable(Get(d.led, d.events[i].ref).state) ||
            (Get(d.led, d.events[i].ref).state == REJECTED && d.events[i].reply.Rejected?)
  {
    if l.Call? || l.SetState? {
      EventKeepsFate(c, l, i);
    } else if l.Recover? || l.Begin? || l.Settle? {
      MoveKeepsFate(c, l, i);
    } else if l.Reserve? {
      var r := c.events[i].ref;
      assert Get(Apply(c, l).led, r) == Get(c.led, r);
    }
  }

  lemma EventKeepsFate(c: Config, l: Label, i: nat)
    requires Fated(c) && PhaseOk(c) && CallsNameAttempts(c) && Enabled(c, l) && (l.Call? || l.SetState?)
    requires i < |Apply(c, l).events| && Apply(c, l).events[i].Sbatch?
    requires !Updated(Apply(c, l).events, Apply(c, l).events[i].ref)
    requires RefExists(Apply(c, l).led, Apply(c, l).events[i].ref)
    ensures var d := Apply(c, l);
            Resolvable(Get(d.led, d.events[i].ref).state) ||
            (Get(d.led, d.events[i].ref).state == REJECTED && d.events[i].reply.Rejected?)
  {
    var d := Apply(c, l);
    var r := d.events[i].ref;
    UpdatedGrows(c.events, d.events[|c.events|], r);
    if l.SetState? {
      StepMoves(c, l);
      assert r != MovedRef(c, l);
      assert Get(d.led, r) == Get(c.led, r);
    }
  }

  lemma MoveKeepsFate(c: Config, l: Label, i: nat)
    requires Fated(c) && PhaseOk(c) && CallsNameAttempts(c) && Enabled(c, l) && (l.Recover? || l.Begin? || l.Settle?)
    requires c.phase.Called? ==> Allowance(c, c.phase.ref) >= 0
    requires i < |c.events| && c.events[i].Sbatch? && !Updated(c.events, c.events[i].ref)
    requires RefExists(Apply(c, l).led, c.events[i].ref)
    ensures var d := Apply(c, l);
            Resolvable(Get(d.led, c.events[i].ref).state) ||
            (Get(d.led, c.events[i].ref).state == REJECTED && c.events[i].reply.Rejected?)
  {
    var d := Apply(c, l);
    var r := c.events[i].ref;
    StepMoves(c, l);
    if r != MovedRef(c, l) {
      assert Get(d.led, r) == Get(c.led, r);
    } else if l.Settle? && c.phase.reply.Rejected? {
      NeverUpdatedNeverReopened(c.events, r);
      CallAtIndexCounts(c.events, i, r);
    }
  }

  lemma AcceptedKeepsJob(c: Config, l: Label, r: AttemptRef)
    requires Fated(c) && Enabled(c, l)
    requires RefExists(Apply(c, l).led, r) && !Updated(Apply(c, l).events, r)
    requires Get(Apply(c, l).led, r).state == ACCEPTED
    ensures Get(Apply(c, l).led, r).job.Some?
  {
    var d := Apply(c, l);
    if l.Call? {
      UpdatedGrows(c.events, d.events[|c.events|], r);
    } else if l.Reserve? {
      assert RefExists(c.led, r) && Get(d.led, r) == Get(c.led, r);
    } else if l.Recover? || l.Begin? || l.Settle? || l.SetState? {
      MovedKeepsJob(c, l, r);
    }
  }

  lemma MovedKeepsJob(c: Config, l: Label, r: AttemptRef)
    requires Fated(c) && Enabled(c, l) && (l.Recover? || l.Begin? || l.Settle? || l.SetState?)
    requires RefExists(Apply(c, l).led, r) && !Updated(Apply(c, l).events, r)
    requires Get(Apply(c, l).led, r).state == ACCEPTED
    ensures Get(Apply(c, l).led, r).job.Some?
  {
    var d := Apply(c, l);
    if l.SetState? {
      UpdatedGrows(c.events, d.events[|c.events|], r);
    }
    StepMoves(c, l);
    if r != MovedRef(c, l) {
      assert Get(d.led, r) == Get(c.led, r);
    }
  }

  lemma NextKeepsFate(c: Config, d: Config)
    requires Fated(c) && PhaseOk(c) && CallsNameAttempts(c) && Next(c, d)
    requires c.phase.Called? ==> Allowance(c, c.phase.ref) >= 0
    ensures Fated(d) && PhaseOk(d) && CallsNameAttempts(d)
  {
    var l :| Enabled(c, l) && d == Apply(c, l);
    StepKeepsFate(c, l);
    StepKeepsCallsNamed(c, l);
  }

  lemma {:induction false} RunKeepsFate(cs: seq<Config>, i: nat)
    requires IsRun(cs) && i < |cs| && cs[0] == Fresh
    ensures Fated(cs[i]) && PhaseOk(cs[i]) && CallsNameAttempts(cs[i])
  {
    if i > 0 {
      RunKeepsFate(cs, i - 1);
      assert Linked(cs, i);
      if cs[i - 1].phase.Called? {
        RunKeepsAllowance(cs, i - 1, cs[i - 1].phase.ref);
      }
      NextKeepsFate(cs[i - 1], cs[i]);
    }
  }

  /** In every run from an empty ledger, an attempt that no client updated and for which the
      scheduler created a job has made one call, is never INTENDED again, and is REJECTED only
      when that call exited non-zero although the job exists. */
  lemma AcceptedSubmissionFate(cs: seq<Config>, i: nat, ref: AttemptRef, j: JobId)
    requires IsRun(cs) && i < |cs| && cs[0] == Fresh
    requires CreatedFor(cs[i].events, ref, j) && !Updated(cs[i].events, ref)
    ensures RefExists(cs[i].led, ref) && CallsOf(cs[i].events, ref) == 1
    ensures Resolvable(Get(cs[i].led, ref).state) ||
            (Get(cs[i].led, ref).state == REJECTED &&
             exists e :: e in cs[i].events && e.Sbatch? && e.ref == ref && e.reply == Rejected(Some(j)))
    ensures Get(cs[i].led, ref).state == ACCEPTED ==> Get(cs[i].led, ref).job.Some?
  {
    RunKeepsFate(cs, i);
    var es := cs[i].events;
    var k :| 0 <= k < |es| && es[k].Sbatch? && es[k].ref == ref && Created(es[k].reply) == Some(j);
    NeverUpdatedNeverReopened(es, ref);
    SubmittedAtMostOnce(cs, i, ref);
    CallAtIndexCounts(es, k, ref);
  }

  lemma {:induction false} OneCall(es: seq<Event>, ref: AttemptRef, i: nat, j: nat)
    requires i < j < |es| && es[i].Sbatch? && es[i].ref == ref && es[j].Sbatch? && es[j].ref == ref
    ensures CallsOf(es, ref) >= 2
  {
    if j < |es| - 1 {
      OneCall(es[..|es| - 1], ref, i, j);
    } else {
      CallAtIndexCounts(es, i, ref);
    }
  }

  /** With unique markers, an ACCEPTED attempt that no client updated has made one call, and the
      job it holds is the one, and the only one, that call created. */
  lemma AcceptedHoldsOwnJob(cs: seq<Config>, i: nat, ref: AttemptRef)
    requires IsRun(cs) && i < |cs| && cs[0] == Fresh && MarkersUnique(cs[i].led)
    requires RefExists(cs[i].led, ref) && Get(cs[i].led, ref).state == ACCEPTED && !Updated(cs[i].events, ref)
    ensures Get(cs[i].led, ref).job.Some? && CallsOf(cs[i].events, ref) == 1
    ensures forall j: JobId :: CreatedFor(cs[i].events, ref, j) <==> Get(cs[i].led, ref).job == Some(j)
  {
    RunKeepsFate(cs, i);
    RecoveryBindsOwnJob(cs, i);
    var es, job := cs[i].events, Get(cs[i].led, ref).job.value;
    assert CreatedFor(es, ref, job);
    AcceptedSubmissionFate(cs, i, ref, job);
    var k :| 0 <= k < |es| && es[k].Sbatch? && es[k].ref == ref && Created(es[k].reply) == Some(job);
    forall j: JobId | CreatedFor(es, ref, j) ensures j == job {
      var x :| 0 <= x < |es| && es[x].Sbatch? && es[x].ref == ref && Created(es[x].reply) == Some(j);
      if x != k {
        OneCall(es, ref, if x < k then x else k, if x < k then k else x);
      }
    }
  }
}
