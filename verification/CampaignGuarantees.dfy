/** The guarantees of the execution ledger, over every run of the operations themselves. */
module CampaignGuarantees {
  import opened Common
  import opened Attempts
  import opened CampaignLedger
  import opened CampaignConservation
  import opened CampaignReservations
  import opened CampaignRecovery
  import opened CampaignOps

  /** A run directory nothing was ever submitted from. */
  const NewRun := World(None, map[], [])

  /** From an empty run directory, whatever is ensured, replayed, retried in other groups,
      updated or interrupted: the calls covering a unit number at most one plus the distinct
      retry authorizations used for it, plus the updates that reopened one of its attempts. */
  lemma NeverSilentlyResubmitted(cmds: seq<Command>, u: UnitId)
    ensures var w := Exec(NewRun, cmds);
      Loaded(w) &&
      CallsCovering(w.events, u) <= 1 + |Uses(Load(w).value, u)| + ReopensCovering(w.events, u)
  {
    ExecRefines(NewRun, cmds);
    LeadsConserves(Resting(Exec(NewRun, cmds)), u);
  }

  /** An attempt is handed to the scheduler at most once, plus once per reopening. */
  lemma AttemptSubmittedAtMostOnce(w: World, cmds: seq<Command>, ref: AttemptRef)
    requires Loaded(w) && w.events == []
    ensures CallsOf(Exec(w, cmds).events, ref) <= 1 + ReopensOf(Exec(w, cmds).events, ref)
  {
    ExecRefines(w, cmds);
    CallsBetween(Resting(w), Resting(Exec(w, cmds)), ref);
  }

  lemma CallsBetween(c: Config, d: Config, ref: AttemptRef)
    requires Leads(c, d) && c.events == [] && c.phase.Idle?
    ensures CallsOf(d.events, ref) <= 1 + ReopensOf(d.events, ref)
  {
    var cs :| IsRun(cs) && cs[0] == c && cs[|cs| - 1] == d;
    SubmittedAtMostOnce(cs, |cs| - 1, ref);
  }

  /** With unique markers, every job id in the ledger was created for its own attempt. */
  lemma LedgerHoldsOwnJobs(cmds: seq<Command>, ref: AttemptRef)
    requires var w := Exec(NewRun, cmds);
      Loaded(w) && MarkersUnique(Load(w).value) && RefExists(Load(w).value, ref) &&
      Get(Load(w).value, ref).job.Some?
    ensures var w := Exec(NewRun, cmds);
      CreatedFor(w.events, ref, Get(Load(w).value, ref).job.value)
  {
    ExecRefines(NewRun, cmds);
    OwnJobsIn(Resting(Exec(NewRun, cmds)), ref);
  }

  lemma OwnJobsIn(d: Config, ref: AttemptRef)
    requires Leads(Fresh, d) && MarkersUnique(d.led) && RefExists(d.led, ref) && Get(d.led, ref).job.Some?
    ensures CreatedFor(d.events, ref, Get(d.led, ref).job.value)
  {
    var cs :| IsRun(cs) && cs[0] == Fresh && cs[|cs| - 1] == d;
    RecoveryBindsOwnJob(cs, |cs| - 1);
  }

  /** An ACCEPTED attempt that no client updated holds the job its own single call created: with
      markers that do not collide, over every run of the operations from an empty directory. */
  lemma AcceptedHoldsItsJob(cmds: seq<Command>, ref: AttemptRef)
    requires var w := Exec(NewRun, cmds);
      Loaded(w) && MarkersUnique(Load(w).value) && RefExists(Load(w).value, ref) &&
      Get(Load(w).value, ref).state == ACCEPTED && !Updated(w.events, ref)
    ensures var w := Exec(NewRun, cmds);
      HoldsItsJob(Load(w).value, w.events, ref)
  {
    ExecRefines(NewRun, cmds);
    HoldsIn(Resting(Exec(NewRun, cmds)), ref);
  }

  /** One call was made for the attempt, and it created exactly the job the attempt holds. */
  ghost predicate HoldsItsJob(led: Ledger, events: seq<Event>, ref: AttemptRef)
    requires RefExists(led, ref)
  {
    && CallsOf(events, ref) == 1 && Get(led, ref).job.Some?
    && forall j: JobId :: CreatedFor(events, ref, j) <==> Get(led, ref).job == Some(j)
  }

  lemma HoldsIn(d: Config, ref: AttemptRef)
    requires Leads(Fresh, d) && MarkersUnique(d.led) && RefExists(d.led, ref)
    requires Get(d.led, ref).state == ACCEPTED && !Updated(d.events, ref)
    ensures HoldsItsJob(d.led, d.events, ref)
  {
    var cs :| IsRun(cs) && cs[0] == Fresh && cs[|cs| - 1] == d;
    AcceptedHoldsOwnJob(cs, |cs| - 1, ref);
  }

  /** A submission that reached the scheduler is not forgotten. */
  lemma SubmissionNeverForgotten(cmds: seq<Command>, ref: AttemptRef, j: JobId)
    requires CreatedFor(Exec(NewRun, cmds).events, ref, j) && !Updated(Exec(NewRun, cmds).events, ref)
    ensures var w := Exec(NewRun, cmds);
      Loaded(w) && Remembers(Load(w).value, w.events, ref, j)
  {
    ExecRefines(NewRun, cmds);
    RememberedIn(Resting(Exec(NewRun, cmds)), ref, j);
  }

  /** The attempt's one call created the job, and the attempt is in a state from which the job can
      still be found; or the scheduler created the job and reported a rejection all the same. An
      ACCEPTED attempt holds a job, and with unique markers that one. */
  ghost predicate Remembers(led: Ledger, events: seq<Event>, ref: AttemptRef, j: JobId) {
    && RefExists(led, ref) && CallsOf(events, ref) == 1
    && (Resolvable(Get(led, ref).state) ||
        (Get(led, ref).state == REJECTED &&
         exists e :: e in events && e.Sbatch? && e.ref == ref && e.reply == Rejected(Some(j))))
    && (Get(led, ref).state == ACCEPTED ==>
          Get(led, ref).job.Some? && (MarkersUnique(led) ==> HoldsItsJob(led, events, ref)))
  }

  lemma RememberedIn(d: Config, ref: AttemptRef, j: JobId)
    requires Leads(Fresh, d) && d.phase.Idle? && CreatedFor(d.events, ref, j) && !Updated(d.events, ref)
    ensures Remembers(d.led, d.events, ref, j)
  {
    var cs :| IsRun(cs) && cs[0] == Fresh && cs[|cs| - 1] == d;
    AcceptedSubmissionFate(cs, |cs| - 1, ref, j);
    if Get(d.led, ref).state == ACCEPTED && MarkersUnique(d.led) {
      AcceptedHoldsOwnJob(cs, |cs| - 1, ref);
    }
  }

  /** Reservations stay sound and nothing durable is lost, from any sound starting point. */
  lemma LedgerStaysSound(w: World, cmds: seq<Command>)
    requires Loaded(w) && Sound(Load(w).value)
    ensures Loaded(Exec(w, cmds))
    ensures Sound(Load(Exec(w, cmds)).value) && Extends(Load(w).value, Load(Exec(w, cmds)).value)
  {
    ExecRefines(w, cmds);
    LeadsKeepsSound(Resting(w), Resting(Exec(w, cmds)));
  }

  // ------------------------------------------------------------------ imported ledgers

  /** What importing the groups in `ids` has established so far. */
  ghost predicate ImportedSoFar(mirrors: map<Id, Group>, ids: seq<Id>, led: Ledger) {
    && (forall g :: g in led.groups <==> g in ids)
    && (forall g :: g in ids ==> g in mirrors && led.groups[g] == mirrors[g])
    && led.consumed == map[]
    && ReservationsSound(led)
    && (forall g, u :: g in ids && Current(mirrors[g].core).Some? && u in mirrors[g].contract.mapping ==>
          Newest(led, u, CurrentAttempt(mirrors[g]).createdAt))
  }

  /** The unit is reserved, to an attempt no older than this time. */
  ghost predicate Newest(led: Ledger, u: UnitId, at: int) {
    u in led.units && led.units[u].group in led.groups &&
    Current(led.groups[led.units[u].group].core).Some? &&
    CurrentAttempt(led.groups[led.units[u].group]).createdAt >= at
  }

  lemma {:induction false} ImportUnitsKeeps(led: Ledger, mapping: seq<UnitId>, g: Id)
    requires ReservationsSound(led) && g in led.groups && Current(led.groups[g].core).Some?
    requires forall u :: u in mapping ==> u in led.groups[g].contract.mapping
    ensures var out := ImportUnits(led, mapping, g, CurrentAttempt(led.groups[g]));
      && ReservationsSound(out)
      && (forall u, at :: Newest(led, u, at) ==> Newest(out, u, at))
      && (forall u :: u in mapping ==> Newest(out, u, CurrentAttempt(led.groups[g]).createdAt))
  {
    if mapping != [] {
      var n := |mapping| - 1;
      assert mapping == mapping[..n] + [mapping[n]];
      ImportUnitsKeeps(led, mapping[..n], g);
    }
  }

  lemma {:induction false} ImportGroupsKeeps(mirrors: map<Id, Group>, ids: seq<Id>)
    requires forall g :: g in ids ==> g in mirrors
    ensures ImportedSoFar(mirrors, ids, ImportGroups(mirrors, ids))
  {
    if ids != [] {
      var n := |ids| - 1;
      assert ids == ids[..n] + [ids[n]];
      ImportGroupsKeeps(mirrors, ids[..n]);
      ImportGroupKeeps(mirrors, ids[..n], ids[n], ImportGroups(mirrors, ids[..n]));
    }
  }

  lemma ImportGroupKeeps(mirrors: map<Id, Group>, ids: seq<Id>, g: Id, led: Ledger)
    requires ImportedSoFar(mirrors, ids, led) && g in mirrors
    ensures ImportedSoFar(mirrors, ids + [g], ImportGroup(led, g, mirrors[g]))
  {
    var with := led.(groups := led.groups[g := mirrors[g]]);
    if Current(mirrors[g].core).Some? {
      ImportUnitsKeeps(with, mirrors[g].contract.mapping, g);
    }
  }

  /** An imported ledger has sound reservations, reserves every unit of a group that has a
      current attempt to a newest such attempt, and its states agree exactly when the imported
      records' do. */
  lemma ImportIsSound(mirrors: map<Id, Group>)
    ensures var led := Import(mirrors);
      && led.groups == mirrors
      && ReservationsSound(led) && AuthorizationsSound(led)
      && (forall g, u :: g in mirrors && Current(mirrors[g].core).Some? && u in mirrors[g].contract.mapping ==>
            Newest(led, u, CurrentAttempt(mirrors[g]).createdAt))
      && (StatesAgree(led) <==>
            forall g :: g in mirrors && Current(mirrors[g].core).Some? ==>
              mirrors[g].core.state == CurrentAttempt(mirrors[g]).state)
  {
    ImportGroupsKeeps(mirrors, Sorted(mirrors.Keys));
    var led := Import(mirrors);
    assert led.groups == mirrors;
    assert forall g :: g in mirrors && Current(mirrors[g].core).Some? ==>
      Get(led, CurrentRef(led, g)) == CurrentAttempt(mirrors[g]);
  }

  /** After an import, conservation holds for a unit exactly when at most one imported group
      that can still be driven is waiting to submit it. */
  lemma ImportedConservation(mirrors: map<Id, Group>, u: UnitId)
    ensures ConservesFrom(Import(mirrors), u) <==> |Pending(Import(mirrors), u)| <= 1
  {
    ImportIsSound(mirrors);
    var led := Import(mirrors);
    if g :| g in Pending(led, u) {
      assert Newest(led, u, CurrentAttempt(mirrors[g]).createdAt);
    }
    ConservedExactlyWhen(led, u);
  }

  /** A pre-ledger record whose intent was journaled and never acted on. */
  function Waiting(g: Id, mapping: seq<UnitId>, createdAt: int): Group {
    Group(Contract(mapping, 0), Core(INTENDED, [Attempt(g, MarkerOf(g, g), INTENDED, createdAt, None)], Some(g)))
  }

  /** Two records that share unit 5, each with a unit of its own. */
  function Overlapping(): map<Id, Group> {
    map[Id(1, 0) := Waiting(Id(1, 0), [5, 6], 1), Id(2, 0) := Waiting(Id(2, 0), [5, 7], 2)]
  }

  /** Two imported records wait for one unit when each is still INTENDED and maps, beside that
      unit, one of its own. */
  lemma TwoRecordsWait(mirrors: map<Id, Group>, u: UnitId, g: Id, h: Id, v: UnitId, w: UnitId)
    requires MapsAlone(mirrors, g, v) && MapsAlone(mirrors, h, w)
    requires CurrentIs(mirrors[g].core, INTENDED) && CurrentIs(mirrors[h].core, INTENDED)
    requires u in mirrors[g].contract.mapping && u in mirrors[h].contract.mapping
    requires g != h
    ensures {g, h} <= Pending(Import(mirrors), u) && !ConservesFrom(Import(mirrors), u)
  {
    WaitsForIt(mirrors, u, g, v);
    WaitsForIt(mirrors, u, h, w);
    TwoSubmissions(Import(mirrors), u, g, h);
  }

  /** The only record that maps the unit. */
  ghost predicate MapsAlone(mirrors: map<Id, Group>, g: Id, v: UnitId) {
    g in mirrors && v in mirrors[g].contract.mapping &&
    forall x :: x in mirrors && v in mirrors[x].contract.mapping ==> x == g
  }

  lemma WaitsForIt(mirrors: map<Id, Group>, u: UnitId, g: Id, v: UnitId)
    requires MapsAlone(mirrors, g, v) && CurrentIs(mirrors[g].core, INTENDED) && u in mirrors[g].contract.mapping
    ensures g in Pending(Import(mirrors), u)
  {
    ImportIsSound(mirrors);
    var led := Import(mirrors);
    assert Newest(led, v, CurrentAttempt(mirrors[g]).createdAt);
    assert led.units[v].group == g;
  }

  lemma WaitingWaits(g: Id, mapping: seq<UnitId>, createdAt: int)
    ensures CurrentIs(Waiting(g, mapping, createdAt).core, INTENDED)
  {
  }

  /** Importing the two leaves both waiting to submit unit 5, and there is a run that submits it
      twice without an authorization. */
  lemma ImportedOverspends()
    ensures Importable(Overlapping())
    ensures Pending(Import(Overlapping()), 5) == {Id(1, 0), Id(2, 0)}
    ensures !ConservesFrom(Import(Overlapping()), 5)
  {
    OverlappingShape();
    OnlyTheyWait();
  }

  lemma OnlyTheyWait()
    ensures Pending(Import(Overlapping()), 5) == {Id(1, 0), Id(2, 0)}
    ensures !ConservesFrom(Import(Overlapping()), 5)
  {
    OverlappingShape();
    TwoRecordsWait(Overlapping(), 5, Id(1, 0), Id(2, 0), 6, 7);
    OnlyMirrorsWait(Overlapping(), 5);
  }

  lemma OverlappingShape()
    ensures var mirrors, g, h := Overlapping(), Id(1, 0), Id(2, 0);
      && mirrors.Keys == {g, h} && MapsAlone(mirrors, g, 6) && MapsAlone(mirrors, h, 7) && Importable(mirrors)
      && 5 in mirrors[g].contract.mapping && 5 in mirrors[h].contract.mapping
      && CurrentIs(mirrors[g].core, INTENDED) && CurrentIs(mirrors[h].core, INTENDED)
  {
    WaitingWaits(Id(1, 0), [5, 6], 1);
    WaitingWaits(Id(2, 0), [5, 7], 2);
  }

  lemma OnlyMirrorsWait(mirrors: map<Id, Group>, u: UnitId)
    ensures Pending(Import(mirrors), u) <= mirrors.Keys
  {
    ImportIsSound(mirrors);
  }

  // ------------------------------------------------------------------ replays

  /** After an intent is journaled, the same request finds exactly its own group. */
  lemma ReservedIsFound(led: Ledger, req: Request, out: Ledger)
    requires Admissible(req) && Decide(led, req) == Create
    requires SameBindings(Reserved(led, req), out)
    ensures Decide(out, req) == Existing({req.group})
  {
    ConsumeFacts(led.consumed, req.contract.mapping, req.claims, Reservation(req.group, req.attempt));
    if req.claims != [] {
      forall c | c in req.claims ensures UseOf(c) in out.consumed && out.consumed[UseOf(c)].replacement.group == req.group {
        NewUse(led, req, c);
      }
      assert req.claims[0] in req.claims;
      assert Replacements(out, req.claims) == {req.group};
    } else {
      assert Replacements(out, req.claims) == {};
      assert req.contract.mapping[0] in req.contract.mapping;
      assert Blocking(out, req) == {req.group};
    }
  }

  lemma NewUse(led: Ledger, req: Request, c: Claim)
    requires Admissible(req) && Decide(led, req) == Create && c in req.claims
    ensures UseOf(c) in Reserved(led, req).consumed
    ensures Reserved(led, req).consumed[UseOf(c)].replacement == Reservation(req.group, req.attempt)
  {
    ConsumeFacts(led.consumed, req.contract.mapping, req.claims, Reservation(req.group, req.attempt));
    var i :| 0 <= i < |req.claims| && req.claims[i] == c;
    ClaimOfIndex(req.claims, i);
    if UseOf(c) in led.consumed {
      UsedClaimReplaces(led, req.claims, c);
      assert false;
    }
  }

  /** A drive that ends settles its group: nothing is ambiguous or waiting in it. */
  lemma DriveSettles(p: Proc, g: Id, answer: Answer)
    requires !p.dead && g in p.led.groups && CurrentIs(p.led.groups[g].core, INTENDED)
    requires !Drive(p, g, answer).dead
    ensures var q := Drive(p, g, answer);
      && g in q.led.groups && q.w.ledger == Some(q.led)
      && !Ambiguous(q.led.groups[g].core) && !CurrentIs(q.led.groups[g].core, INTENDED)
  {
    var core := p.led.groups[g].core;
    var i := Current(core).value;
    var begun := Mark(core, i, SUBMITTING);
    TouchKeepsCurrent(core, begun, i);
    TouchKeepsCurrent(core, Settled(begun, i, answer.reply), i);
  }

  /** A replay of an ensure request that completed calls the scheduler no more and changes no
      file, whatever the scheduler would answer and wherever the replay would die. */
  lemma ReplayChangesNothing(w: World, req: Request, env: map<Id, Answer>, life: nat,
                             again: map<Id, Answer>, more: nat)
    requires Loaded(w) && Admissible(req) && Decide(Load(w).value, req) == Create
    requires Ensure(w, req, env, life).1.Driven?
    ensures var v := Ensure(w, req, env, life).0;
      Ensure(v, req, again, more) == (v, Driven([req.group], {}))
  {
    EnsureRests(w, req, env, life);
    RestsReplays(Ensure(w, req, env, life).0, req, again, more);
  }

  /** The request's own group holds what was asked for, with nothing ambiguous or waiting in it. */
  ghost predicate Rests(v: World, req: Request) {
    && v.ledger.Some? && Decide(v.ledger.value, req) == Existing({req.group})
    && req.group in v.ledger.value.groups
    && !Ambiguous(v.ledger.value.groups[req.group].core)
    && !CurrentIs(v.ledger.value.groups[req.group].core, INTENDED)
  }

  lemma EnsureRests(w: World, req: Request, env: map<Id, Answer>, life: nat)
    requires Loaded(w) && Admissible(req) && Decide(Load(w).value, req) == Create
    requires Ensure(w, req, env, life).1.Driven?
    ensures Rests(Ensure(w, req, env, life).0, req)
    ensures Ensure(w, req, env, life).1.groups == [req.group]
  {
    var g := req.group;
    var p := Proc(Load(w).value, w, life, false, {});
    var p1 := Commit(p, Reserved(p.led, req), g, []);
    var answer := AnswerFor(env, g);
    OpenedIsCurrent(CoreBefore(p.led, g), NewAttempt(req));
    DriveSettles(p1, g, answer);
    DriveKeepsBindings(p1, g, answer);
    ReservedIsFound(p.led, req, Drive(p1, g, answer).led);
  }

  lemma RestsReplays(v: World, req: Request, again: map<Id, Answer>, more: nat)
    requires Admissible(req) && Rests(v, req)
    ensures Ensure(v, req, again, more) == (v, Driven([req.group], {}))
  {
    var g := req.group;
    assert Sorted({g}) == [g];
    var p := Proc(v.ledger.value, v, more, false, {});
    assert DriveAll(p, [g], again) == Drive(DriveAll(p, [], again), g, AnswerFor(again, g)) == p;
  }
}
