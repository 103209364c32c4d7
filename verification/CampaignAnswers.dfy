/** What the ledger operations answer and leave behind, said of the request and the files alone. */
module CampaignAnswers {
  import opened Common
  import opened Attempts
  import opened CampaignLedger
  import opened CampaignConservation
  import opened CampaignReservations
  import opened CampaignOps
  import opened CampaignGuarantees

  // ------------------------------------------------------------------ which requests open an attempt

  /** The unit is reserved to exactly the group and attempt that a claim for it expects, or it is
      not reserved and no claim expects a group. */
  ghost predicate Agrees(led: Ledger, req: Request, u: UnitId) {
    if u in led.units then
      exists c :: c in req.claims && c.unit == u &&
        c.expectedGroup == Some(led.units[u].group) && c.expectedAttempt == Some(led.units[u].attempt)
    else forall c :: c in req.claims && c.unit == u ==> c.expectedGroup.None?
  }

  /** A claim for the unit expects something else than its reservation. */
  ghost predicate Differs(led: Ledger, req: Request, u: UnitId) {
    exists c :: c in req.claims && c.unit == u &&
      if u in led.units then
        c.expectedGroup != Some(led.units[u].group) || c.expectedAttempt != Some(led.units[u].attempt)
      else c.expectedGroup.Some?
  }

  /** The unit is reserved and the request does not claim it. */
  ghost predicate Held(led: Ledger, req: Request, u: UnitId) {
    u in led.units && forall c :: c in req.claims ==> c.unit != u
  }

  ghost predicate UsesNothingUsed(led: Ledger, req: Request) {
    forall c :: c in req.claims ==> AuthUse(c.auth, c.unit) !in led.consumed
  }

  ghost predicate SameContract(led: Ledger, req: Request) {
    req.group in led.groups ==> led.groups[req.group].contract == req.contract
  }

  /** What a request needs to open an attempt. */
  ghost predicate MayOpen(led: Ledger, req: Request) {
    && UsesNothingUsed(led, req) && SameContract(led, req)
    && forall u :: u in req.contract.mapping ==> Agrees(led, req, u)
  }

  /** What makes a request a conflict. */
  ghost predicate Conflicts(led: Ledger, req: Request) {
    && UsesNothingUsed(led, req)
    && ((exists u :: u in req.contract.mapping && Differs(led, req, u)) ||
        (!SameContract(led, req) && forall u :: u in req.contract.mapping ==> !Held(led, req, u)))
  }

  /** The claims of an admissible request name each unit at most once. */
  lemma ClaimFor(req: Request, u: UnitId, c: Claim)
    requires Admissible(req)
    ensures c in req.claims && c.unit == u <==> ClaimOf(req.claims, u) == Some(c)
  {
    if c in req.claims && c.unit == u {
      var i :| 0 <= i < |req.claims| && req.claims[i] == c;
      ClaimOfIndex(req.claims, i);
    }
  }

  lemma StaleIs(led: Ledger, req: Request, u: UnitId)
    requires Admissible(req)
    ensures Stale(led, u, ClaimOf(req.claims, u)) <==> Differs(led, req, u)
    ensures u in led.units && ClaimOf(req.claims, u).None? <==> Held(led, req, u)
    ensures Agrees(led, req, u) <==> !Differs(led, req, u) && !Held(led, req, u)
  {
    forall c | c in req.claims && c.unit == u ensures ClaimOf(req.claims, u) == Some(c) {
      ClaimFor(req, u, c);
    }
  }

  lemma BlockingIs(led: Ledger, req: Request)
    requires Admissible(req)
    ensures Blocking(led, req) == {} <==> forall u :: u in req.contract.mapping ==> !Held(led, req, u)
    ensures forall g :: g in Blocking(led, req) <==>
      exists u :: u in req.contract.mapping && Held(led, req, u) && led.units[u].group == g
  {
    forall u | u in req.contract.mapping && Held(led, req, u) ensures led.units[u].group in Blocking(led, req) {
      StaleIs(led, req, u);
    }
    forall g | g in Blocking(led, req)
      ensures exists u :: u in req.contract.mapping && Held(led, req, u) && led.units[u].group == g
    {
      var u :| u in req.contract.mapping && u in led.units && ClaimOf(req.claims, u).None? && led.units[u].group == g;
      StaleIs(led, req, u);
    }
  }

  lemma ReplacementsAre(led: Ledger, req: Request)
    ensures Replacements(led, req.claims) == {} <==> UsesNothingUsed(led, req)
    ensures forall g :: g in Replacements(led, req.claims) <==>
      exists c :: c in req.claims && AuthUse(c.auth, c.unit) in led.consumed &&
        led.consumed[AuthUse(c.auth, c.unit)].replacement.group == g
  {
    forall c | c in req.claims && AuthUse(c.auth, c.unit) in led.consumed
      ensures led.consumed[AuthUse(c.auth, c.unit)].replacement.group in Replacements(led, req.claims)
    {
      assert UseOf(c) in led.consumed;
    }
  }

  lemma DecidedExactly(led: Ledger, req: Request)
    requires Admissible(req)
    ensures Decide(led, req) == Create <==> MayOpen(led, req)
    ensures Decide(led, req) == Refuse(StoreConflict) <==> Conflicts(led, req)
    ensures Decide(led, req).Refuse? ==> Decide(led, req).error == StoreConflict
  {
    ReplacementsAre(led, req);
    BlockingIs(led, req);
    forall u | u in req.contract.mapping
      ensures Stale(led, u, ClaimOf(req.claims, u)) <==> Differs(led, req, u)
      ensures Agrees(led, req, u) <==> !Differs(led, req, u) && !Held(led, req, u)
    {
      StaleIs(led, req, u);
    }
  }

  // ------------------------------------------------------------------ what driving leaves alone

  function AttemptsIn(led: Ledger, g: Id): seq<Attempt> {
    if g in led.groups then led.groups[g].core.attempts else []
  }

  /** Only the current attempt of one group may have changed its state and its job. */
  ghost predicate OnlyCurrent(led: Ledger, out: Ledger, g: Id) {
    && out.units == led.units && out.consumed == led.consumed && out.groups.Keys == led.groups.Keys && g in led.groups
    && (forall h :: h in led.groups && h != g ==> out.groups[h] == led.groups[h])
    && out.groups[g].contract == led.groups[g].contract
    && out.groups[g].core.current == led.groups[g].core.current
    && SameAttempts(led.groups[g].core, out.groups[g].core)
  }

  ghost predicate SameAttempts(c: Core, d: Core) {
    && |d.attempts| == |c.attempts|
    && (forall k :: 0 <= k < |c.attempts| ==>
          d.attempts[k].id == c.attempts[k].id && d.attempts[k].marker == c.attempts[k].marker &&
          d.attempts[k].createdAt == c.attempts[k].createdAt)
    && (forall k :: 0 <= k < |c.attempts| && Some(k) != Current(c) ==> d.attempts[k] == c.attempts[k])
  }

  lemma {:induction false} SameIds(a: seq<Attempt>, b: seq<Attempt>, id: Id)
    requires |a| == |b| && forall k :: 0 <= k < |a| ==> a[k].id == b[k].id
    ensures LastIndex(a, id) == LastIndex(b, id)
  {
    if a != [] && a[|a| - 1].id != id {
      SameIds(a[..|a| - 1], b[..|b| - 1], id);
    }
  }

  lemma OnlyCurrentTransitive(a: Ledger, b: Ledger, c: Ledger, g: Id)
    requires OnlyCurrent(a, b, g) && OnlyCurrent(b, c, g)
    ensures OnlyCurrent(a, c, g)
  {
    var x, y := a.groups[g].core, b.groups[g].core;
    if x.current.Some? {
      SameIds(x.attempts, y.attempts, x.current.value);
    }
  }

  lemma SetCurrent(led: Ledger, g: Id, core: Core)
    requires g in led.groups && Current(led.groups[g].core).Some?
    requires Touches(led.groups[g].core, core, Current(led.groups[g].core).value)
    ensures OnlyCurrent(led, SetCore(led, g, core), g)
  {
  }

  /** Whatever a process has written so far, on disk or in memory. */
  ghost predicate Framed(led: Ledger, p: Proc, g: Id) {
    Loaded(p.w) && OnlyCurrent(led, Load(p.w).value, g) && (!p.dead ==> Load(p.w) == Some(p.led))
  }

  lemma CommitFrames(led: Ledger, p: Proc, out: Ledger, g: Id, note: seq<Event>)
    requires Framed(led, p, g) && OnlyCurrent(led, out, g)
    ensures Framed(led, Commit(p, out, g, note), g)
    ensures !Commit(p, out, g, note).dead ==> Commit(p, out, g, note).led == out
  {
  }

  lemma RecoverFrames(p: Proc, g: Id, visible: set<nat>)
    requires InStep(p) && !p.dead && g in p.led.groups
    ensures Framed(p.led, RecoverGroup(p, g, visible), g)
  {
    var core := p.led.groups[g].core;
    if Ambiguous(core) {
      var found := Matches(p.w.events, core.attempts[Current(core).value].marker, visible);
      SetCurrent(p.led, g, Reconciled(core, found));
      CommitFrames(p.led, p, SetCore(p.led, g, Reconciled(core, found)), g, []);
    }
  }

  lemma SubmitFrames(p: Proc, g: Id, reply: Reply)
    requires InStep(p) && !p.dead && g in p.led.groups
    ensures Framed(p.led, SubmitGroup(p, g, reply), g)
  {
    var core := p.led.groups[g].core;
    if CurrentIs(core, INTENDED) {
      var i := Current(core).value;
      var begun := Mark(core, i, SUBMITTING);
      SetCurrent(p.led, g, begun);
      var p1 := Commit(p, SetCore(p.led, g, begun), g, []);
      CommitFrames(p.led, p, SetCore(p.led, g, begun), g, []);
      var e := Sbatch(AttemptRef(g, i), p.led.groups[g].contract.mapping, core.attempts[i].marker, reply);
      var p2 := CallScheduler(p1, e);
      CallFrames(p.led, p1, e, g);
      if !p2.dead {
        SettledTouches(core, i, reply);
        SetCurrent(p.led, g, Settled(begun, i, reply));
        CommitFrames(p.led, p2, SetCore(p.led, g, Settled(begun, i, reply)), g, []);
      }
    }
  }

  lemma CallFrames(led: Ledger, p: Proc, e: Event, g: Id)
    requires Framed(led, p, g) && e.Sbatch?
    ensures Framed(led, CallScheduler(p, e), g)
    ensures !CallScheduler(p, e).dead ==> !e.reply.NoReply?
  {
  }

  lemma SettledTouches(c: Core, i: nat, reply: Reply)
    requires i < |c.attempts| && !reply.NoReply?
    ensures Touches(c, Settled(Mark(c, i, SUBMITTING), i, reply), i)
  {
  }

  /** Wherever it stops, a drive of a group has changed nothing but the state and the job of its
      current attempt. */
  lemma DriveFrames(p: Proc, g: Id, answer: Answer)
    requires InStep(p) && !p.dead && g in p.led.groups
    ensures Framed(p.led, Drive(p, g, answer), g)
  {
    RecoverFrames(p, g, answer.visible);
    var q := RecoverGroup(p, g, answer.visible);
    if !q.dead {
      SubmitFrames(q, g, answer.reply);
      OnlyCurrentTransitive(p.led, q.led, Load(SubmitGroup(q, g, answer.reply).w).value, g);
    }
  }

  /** Driving several groups opens nothing and reserves nothing. */
  ghost predicate SameClaims(led: Ledger, out: Ledger) {
    && out.units == led.units && out.consumed == led.consumed && out.groups.Keys == led.groups.Keys
    && (forall g :: g in led.groups ==>
          out.groups[g].contract == led.groups[g].contract &&
          |out.groups[g].core.attempts| == |led.groups[g].core.attempts|)
  }

  lemma {:induction false} DriveAllFrames(p: Proc, gs: seq<Id>, env: map<Id, Answer>)
    requires InStep(p) && !p.dead
    ensures var q := DriveAll(p, gs, env);
      InStep(q) && SameClaims(p.led, Load(q.w).value)
    decreases |gs|
  {
    if gs != [] {
      var n := |gs| - 1;
      DriveAllFrames(p, gs[..n], env);
      var q := DriveAll(p, gs[..n], env);
      if !q.dead && gs[n] in q.led.groups {
        DriveFrames(q, gs[n], AnswerFor(env, gs[n]));
      }
    }
  }

  // ------------------------------------------------------------------ what opening an attempt writes

  /** The ledger after an attempt was opened for a request: the attempt, its reservations and the
      authorizations used for it, and nothing else. */
  ghost predicate OpenedFor(led: Ledger, req: Request, out: Ledger) {
    var before, after := AttemptsIn(led, req.group), AttemptsIn(out, req.group);
    var r := Reservation(req.group, req.attempt);
    && req.group in out.groups && out.groups[req.group].contract == req.contract
    && out.groups[req.group].core.current == Some(req.attempt)
    && |after| == |before| + 1 && after[..|before|] == before
    && after[|before|].id == req.attempt && after[|before|].createdAt == req.now
    && after[|before|].marker == Marker(req.group.head, req.attempt.head)
    && (forall g :: g != req.group ==> (g in out.groups <==> g in led.groups))
    && (forall g :: g != req.group && g in led.groups ==> out.groups[g] == led.groups[g])
    && (forall u :: u in out.units <==> u in led.units || u in req.contract.mapping)
    && (forall u :: u in out.units ==> out.units[u] == if u in req.contract.mapping then r else led.units[u])
    && UsesRecorded(led, req, out.consumed)
  }

  ghost predicate UsesRecorded(led: Ledger, req: Request, consumed: map<AuthUse, Consumption>) {
    && (forall c :: c in req.claims ==>
          AuthUse(c.auth, c.unit) in consumed &&
          consumed[AuthUse(c.auth, c.unit)] ==
            Consumption(c.expectedGroup, c.expectedAttempt, Reservation(req.group, req.attempt)))
    && (forall k :: k in led.consumed ==> k in consumed && consumed[k] == led.consumed[k])
    && (forall k :: k in consumed && k !in led.consumed ==> exists c :: c in req.claims && AuthUse(c.auth, c.unit) == k)
  }

  lemma {:induction false} ConsumeExact(consumed: map<AuthUse, Consumption>, mapping: seq<UnitId>, claims: seq<Claim>,
                                        r: Reservation, k: AuthUse)
    ensures var out, c := Consume(consumed, mapping, claims, r), ClaimOf(claims, k.unit);
      if k.unit in mapping && c.Some? && UseOf(c.value) == k then
        k in out && out[k] == Consumption(c.value.expectedGroup, c.value.expectedAttempt, r)
      else (k in out <==> k in consumed) && (k in consumed ==> out[k] == consumed[k])
  {
    if mapping != [] {
      var n := |mapping| - 1;
      assert mapping == mapping[..n] + [mapping[n]];
      ConsumeExact(consumed, mapping[..n], claims, r, k);
    }
  }

  lemma ReservedUses(led: Ledger, req: Request)
    requires Admissible(req) && UsesNothingUsed(led, req)
    ensures UsesRecorded(led, req, Reserved(led, req).consumed)
  {
    var r := Reservation(req.group, req.attempt);
    var out := Reserved(led, req).consumed;
    forall c | c in req.claims
      ensures AuthUse(c.auth, c.unit) in out
      ensures out[AuthUse(c.auth, c.unit)] == Consumption(c.expectedGroup, c.expectedAttempt, r)
    {
      ClaimFor(req, c.unit, c);
      ConsumeExact(led.consumed, req.contract.mapping, req.claims, r, AuthUse(c.auth, c.unit));
    }
    forall k | k in led.consumed ensures k in out && out[k] == led.consumed[k] {
      ConsumeExact(led.consumed, req.contract.mapping, req.claims, r, k);
    }
    forall k | k in out && k !in led.consumed ensures exists c :: c in req.claims && AuthUse(c.auth, c.unit) == k {
      ConsumeExact(led.consumed, req.contract.mapping, req.claims, r, k);
    }
  }

  lemma ReservedOpens(led: Ledger, req: Request)
    requires Admissible(req) && MayOpen(led, req)
    ensures OpenedFor(led, req, Reserved(led, req)) && Current(Reserved(led, req).groups[req.group].core).Some?
    ensures Current(Reserved(led, req).groups[req.group].core) == Some(|AttemptsIn(led, req.group)|)
  {
    ReservedUses(led, req);
    OpenedIsCurrent(CoreBefore(led, req.group), NewAttempt(req));
  }

  lemma OpenedStays(led: Ledger, req: Request, mid: Ledger, out: Ledger)
    requires OpenedFor(led, req, mid) && OnlyCurrent(mid, out, req.group)
    requires Current(mid.groups[req.group].core) == Some(|AttemptsIn(led, req.group)|)
    ensures OpenedFor(led, req, out)
  {
    var before, after := AttemptsIn(led, req.group), AttemptsIn(out, req.group);
    forall k | 0 <= k < |before| ensures after[k] == before[k] {
      assert AttemptsIn(mid, req.group)[..|before|][k] == before[k];
    }
    assert after[..|before|] == before;
  }

  /** An admissible request opens an attempt if and only if no authorization it claims was used,
      every unit it maps is reserved to exactly what its claim expects or is free, and the group's
      contract is the same; the ledger then holds that attempt, its reservations and its
      authorizations, and nothing else is new. Otherwise nothing is opened, reserved or used. */
  lemma EnsureOpensExactly(w: World, req: Request, env: map<Id, Answer>, life: nat)
    requires Loaded(w) && Admissible(req) && life > 0
    ensures var led, v := Load(w).value, Ensure(w, req, env, life).0;
      && Loaded(v)
      && (MayOpen(led, req) ==> OpenedFor(led, req, Load(v).value))
      && (!MayOpen(led, req) ==> SameClaims(led, Load(v).value))
  {
    var led := Load(w).value;
    DecidedExactly(led, req);
    var p := Proc(led, w, life, false, {});
    if MayOpen(led, req) {
      CreateOpensOnDisk(p, req, AnswerFor(env, req.group));
    } else if Decide(led, req).Existing? {
      DriveAllFrames(p, Sorted(Decide(led, req).groups), env);
    }
  }

  lemma CreateOpensOnDisk(p: Proc, req: Request, answer: Answer)
    requires !p.dead && p.life > 0 && InStep(p) && Admissible(req) && MayOpen(p.led, req)
    ensures var w := Drive(Commit(p, Reserved(p.led, req), req.group, []), req.group, answer).w;
      Loaded(w) && OpenedFor(p.led, req, Load(w).value)
  {
    ReservedOpens(p.led, req);
    var q := Commit(p, Reserved(p.led, req), req.group, []);
    if !q.dead {
      DriveFrames(q, req.group, answer);
      OpenedStays(p.led, req, q.led, Load(Drive(q, req.group, answer).w).value);
    }
  }

  /** A request is refused as invalid exactly when it is malformed, or there is no ledger and a
      group record to import has a current attempt and no usable mapping; and as a conflict
      exactly when a claim no longer matches, or nothing stands in its way but another contract of
      its group. A refused request changes nothing. */
  lemma EnsureRefusesExactly(w: World, req: Request, env: map<Id, Answer>, life: nat)
    ensures var (v, r) := Ensure(w, req, env, life);
      && (r == Refused(InvalidArg) <==> !WellFormed(req) || Unimportable(w))
      && (r == Refused(StoreConflict) <==>
            WellFormed(req) && !Unimportable(w) && Loaded(w) && Conflicts(Load(w).value, req))
      && (r.Refused? ==> v == w && r.error in {InvalidArg, StoreConflict})
  {
    WellFormedIs(req);
    UnimportableIs(w);
    if Admissible(req) && Loaded(w) {
      DecidedExactly(Load(w).value, req);
    }
  }

  /** The shape of a request: its checks, its group's digest, units named once, claims for them. */
  ghost predicate WellFormed(req: Request) {
    var units := req.contract.mapping;
    && req.wellFormed && req.digest == req.group
    && units != [] && (forall i, j :: 0 <= i < j < |units| ==> units[i] != units[j])
    && (forall c :: c in req.claims ==> c.unit in units)
    && (forall i, j :: 0 <= i < j < |req.claims| ==> req.claims[i].unit != req.claims[j].unit)
  }

  lemma WellFormedIs(req: Request)
    ensures WellFormed(req) <==> Admissible(req)
  {
    if WellFormed(req) {
      assert forall i :: 0 <= i < |req.claims| ==> req.claims[i] in req.claims;
    }
    assert Admissible(req) ==> forall c :: c in req.claims ==> exists i :: 0 <= i < |req.claims| && req.claims[i] == c;
  }

  /** The records to import are unusable: one with a current attempt maps nothing or a unit twice. */
  ghost predicate Unimportable(w: World) {
    w.ledger.None? &&
    exists g :: g in w.mirrors && Current(w.mirrors[g].core).Some? && Unmappable(w.mirrors[g].contract.mapping)
  }

  ghost predicate Unmappable(units: seq<UnitId>) {
    units == [] || exists i, j :: 0 <= i < j < |units| && units[i] == units[j]
  }

  lemma UnmappableIs(c: Contract)
    ensures Unmappable(c.mapping) <==> !MappingOk(c)
  {
    if i, j :| 0 <= i < j < |c.mapping| && c.mapping[i] == c.mapping[j] {
      assert !Distinct(c.mapping);
    } else {
      assert Distinct(c.mapping);
    }
  }

  lemma UnimportableIs(w: World)
    ensures Unimportable(w) <==> !Loaded(w)
  {
    forall g | g in w.mirrors ensures Unmappable(w.mirrors[g].contract.mapping) <==> !MappingOk(w.mirrors[g].contract) {
      UnmappableIs(w.mirrors[g].contract);
    }
  }

  // ------------------------------------------------------------------ what a drive answers

  /** A query shows this job: a visible call that carried the marker created it. */
  ghost predicate Shows(events: seq<Event>, marker: Marker, visible: set<nat>, j: JobId) {
    exists i :: i in visible && i < |events| && events[i].Sbatch? && events[i].marker == marker &&
      events[i].reply in {Accepted(j), Unparseable(j), Rejected(Some(j)), NoReply(Some(j))}
  }

  lemma MatchesShown(events: seq<Event>, marker: Marker, visible: set<nat>, j: JobId)
    ensures j in Matches(events, marker, visible) <==> Shows(events, marker, visible, j)
  {
  }

  ghost predicate ShowsOnly(events: seq<Event>, marker: Marker, visible: set<nat>, j: JobId) {
    Shows(events, marker, visible, j) && forall k: JobId :: Shows(events, marker, visible, k) ==> k == j
  }

  lemma ShowsOnlyIs(events: seq<Event>, marker: Marker, visible: set<nat>, j: JobId)
    ensures var found := Matches(events, marker, visible);
      ShowsOnly(events, marker, visible, j) <==> |found| == 1 && j == Only(found)
  {
    var found := Matches(events, marker, visible);
    forall k: JobId ensures k in found <==> Shows(events, marker, visible, k) {
      MatchesShown(events, marker, visible, k);
    }
    if ShowsOnly(events, marker, visible, j) {
      assert found == {j};
    }
  }

  /** The attempt has the only job a query shows, if there is exactly one. */
  ghost predicate ResolvedBy(now: Attempt, events: seq<Event>, visible: set<nat>) {
    && (forall j: JobId :: now.job == Some(j) <==> ShowsOnly(events, now.marker, visible, j))
    && now.state == if now.job.Some? then ACCEPTED else UNKNOWN
  }

  /** The ledger and the group's mirror are both on disk as the process holds them. */
  ghost predicate OnDisk(p: Proc, g: Id) {
    p.w.ledger == Some(p.led) && g in p.led.groups && g in p.w.mirrors && p.w.mirrors[g] == p.led.groups[g]
  }

  lemma CommitOnDisk(p: Proc, led: Ledger, g: Id, note: seq<Event>)
    requires !p.dead && g in led.groups
    ensures var q := Commit(p, led, g, note);
      && (q.dead <==> p.life < 2)
      && (!q.dead ==> OnDisk(q, g) && q.led == led && q.life == p.life - 2 && q.submitted == p.submitted &&
                      q.w.events == p.w.events + note)
  {
  }

  lemma SubmitOutcome(p: Proc, g: Id, reply: Reply)
    requires !p.dead && g in p.led.groups && CurrentIs(p.led.groups[g].core, INTENDED)
    ensures var q, ref := SubmitGroup(p, g, reply), CurrentRef(p.led, g);
      && (q.dead <==> p.life < 5 || reply.NoReply?)
      && (!q.dead ==>
            && OnDisk(q, g) && RefExists(q.led, ref) && AnsweredBy(Get(p.led, ref), Get(q.led, ref), reply)
            && q.led.groups[g].core.state == Get(q.led, ref).state
            && q.w.events == p.w.events + [Sbatch(ref, p.led.groups[g].contract.mapping, Get(p.led, ref).marker, reply)]
            && q.submitted == p.submitted + if reply.Accepted? then {g} else {})
  {
    var core := p.led.groups[g].core;
    var i := Current(core).value;
    var begun := Mark(core, i, SUBMITTING);
    CommitOnDisk(p, SetCore(p.led, g, begun), g, []);
    var p1 := Commit(p, SetCore(p.led, g, begun), g, []);
    if !p1.dead {
      var e := Sbatch(AttemptRef(g, i), p.led.groups[g].contract.mapping, core.attempts[i].marker, reply);
      var p2 := CallScheduler(p1, e);
      if !p2.dead {
        CommitOnDisk(p2, SetCore(p.led, g, Settled(begun, i, reply)), g, []);
      }
    }
  }

  lemma RecoverOutcome(p: Proc, g: Id, visible: set<nat>)
    requires !p.dead && g in p.led.groups && Ambiguous(p.led.groups[g].core)
    ensures var q, ref := RecoverGroup(p, g, visible), CurrentRef(p.led, g);
      && (q.dead <==> p.life < 2)
      && (!q.dead ==>
            && OnDisk(q, g) && RefExists(q.led, ref) && CurrentRef(p.led, g) == ref && IsCurrent(q.led, ref)
            && Get(q.led, ref).marker == Get(p.led, ref).marker
            && ResolvedBy(Get(q.led, ref), p.w.events, visible)
            && q.led.groups[g].core.state == Get(q.led, ref).state
            && q.w.events == p.w.events && q.submitted == p.submitted)
  {
    var core := p.led.groups[g].core;
    var i := Current(core).value;
    var found := Matches(p.w.events, core.attempts[i].marker, visible);
    forall j: JobId
      ensures ShowsOnly(p.w.events, core.attempts[i].marker, visible, j) <==> |found| == 1 && j == Only(found)
    {
      ShowsOnlyIs(p.w.events, core.attempts[i].marker, visible, j);
    }
    TouchKeepsCurrent(core, Reconciled(core, found), i);
    CommitOnDisk(p, SetCore(p.led, g, Reconciled(core, found)), g, []);
  }

  /** What driving a group does, by the state of its current attempt. An INTENDED one is handed to
      the scheduler once and takes its answer; a SUBMITTING one without a job takes the only job
      that a query shows, or becomes UNKNOWN; any other is left alone. */
  lemma DriveOutcome(p: Proc, g: Id, answer: Answer)
    requires !p.dead && g in p.led.groups && Current(p.led.groups[g].core).Some?
    ensures var q, ref := Drive(p, g, answer), CurrentRef(p.led, g);
      var was := Get(p.led, ref);
      && (was.state == INTENDED ==>
            && (q.dead <==> p.life < 5 || answer.reply.NoReply?)
            && (!q.dead ==>
                  && OnDisk(q, g) && RefExists(q.led, ref) && AnsweredBy(was, Get(q.led, ref), answer.reply)
                  && q.led.groups[g].core.state == Get(q.led, ref).state
                  && q.w.events == p.w.events + [Sbatch(ref, p.led.groups[g].contract.mapping, was.marker, answer.reply)]
                  && q.submitted == p.submitted + if answer.reply.Accepted? then {g} else {}))
      && (was.state == SUBMITTING && was.job.None? ==>
            && (q.dead <==> p.life < 2)
            && (!q.dead ==>
                  && OnDisk(q, g) && RefExists(q.led, ref) && Get(q.led, ref).marker == was.marker
                  && ResolvedBy(Get(q.led, ref), p.w.events, answer.visible)
                  && q.led.groups[g].core.state == Get(q.led, ref).state
                  && q.w.events == p.w.events && q.submitted == p.submitted))
      && (was.state != INTENDED && !(was.state == SUBMITTING && was.job.None?) ==> q == p)
  {
    var core := p.led.groups[g].core;
    if Ambiguous(core) {
      RecoverOutcome(p, g, answer.visible);
    } else if CurrentIs(core, INTENDED) {
      SubmitOutcome(p, g, answer.reply);
    }
  }

  /** A request that opens an attempt and is answered: one call was made, for that attempt, and the
      files and the response say how the scheduler answered. */
  lemma EnsureSubmits(w: World, req: Request, env: map<Id, Answer>, life: nat)
    requires Loaded(w) && Admissible(req) && MayOpen(Load(w).value, req) && Ensure(w, req, env, life).1.Driven?
    ensures var (v, r) := Ensure(w, req, env, life);
      var reply, n := AnswerFor(env, req.group).reply, |AttemptsIn(Load(w).value, req.group)|;
      && v.ledger.Some? && OpenedFor(Load(w).value, req, v.ledger.value)
      && AnsweredBy(Attempt(req.attempt, Marker(req.group.head, req.attempt.head), INTENDED, req.now, None),
                    AttemptsIn(v.ledger.value, req.group)[n], reply)
      && v.ledger.value.groups[req.group].core.state == AttemptsIn(v.ledger.value, req.group)[n].state
      && req.group in v.mirrors && v.mirrors[req.group] == v.ledger.value.groups[req.group]
      && v.events == w.events + [Sbatch(AttemptRef(req.group, n), req.contract.mapping,
                                        Marker(req.group.head, req.attempt.head), reply)]
      && r == Driven([req.group], if reply.Accepted? then {req.group} else {})
  {
    var p := Proc(Load(w).value, w, life, false, {});
    DecidedExactly(p.led, req);
    CreateSubmits(p, req, AnswerFor(env, req.group));
    CreateOpens(p, req, AnswerFor(env, req.group));
  }

  lemma CreateSubmits(p: Proc, req: Request, answer: Answer)
    requires !p.dead && p.submitted == {} && InStep(p) && Admissible(req) && MayOpen(p.led, req)
    ensures var q := Drive(Commit(p, Reserved(p.led, req), req.group, []), req.group, answer);
      var n := |AttemptsIn(p.led, req.group)|;
      !q.dead ==>
        && OnDisk(q, req.group) && n < |AttemptsIn(q.led, req.group)|
        && AnsweredBy(NewAttempt(req), AttemptsIn(q.led, req.group)[n], answer.reply)
        && q.led.groups[req.group].core.state == AttemptsIn(q.led, req.group)[n].state
        && q.w.events == p.w.events + [Sbatch(AttemptRef(req.group, n), req.contract.mapping,
                                              Marker(req.group.head, req.attempt.head), answer.reply)]
        && q.submitted == if answer.reply.Accepted? then {req.group} else {}
  {
    var q := Commit(p, Reserved(p.led, req), req.group, []);
    if !q.dead {
      CommitOnDisk(p, Reserved(p.led, req), req.group, []);
      ReservedAttempt(p.led, req);
      SubmitOutcome(q, req.group, answer.reply);
      DriveSubmits(q, req.group, answer);
    }
  }

  lemma ReservedAttempt(led: Ledger, req: Request)
    ensures var out, n := Reserved(led, req), |AttemptsIn(led, req.group)|;
      && req.group in out.groups && out.groups[req.group].contract == req.contract
      && Current(out.groups[req.group].core) == Some(n) && CurrentIs(out.groups[req.group].core, INTENDED)
      && CurrentRef(out, req.group) == AttemptRef(req.group, n) && Get(out, AttemptRef(req.group, n)) == NewAttempt(req)
  {
    OpenedIsCurrent(CoreBefore(led, req.group), NewAttempt(req));
  }

  /** Driving an INTENDED attempt is submitting it. */
  lemma DriveSubmits(p: Proc, g: Id, answer: Answer)
    requires !p.dead && g in p.led.groups && CurrentIs(p.led.groups[g].core, INTENDED)
    ensures Drive(p, g, answer) == SubmitGroup(p, g, answer.reply)
  {
  }

  lemma CreateOpens(p: Proc, req: Request, answer: Answer)
    requires !p.dead && InStep(p) && Admissible(req) && MayOpen(p.led, req)
    ensures var q := Drive(Commit(p, Reserved(p.led, req), req.group, []), req.group, answer);
      !q.dead ==> OpenedFor(p.led, req, q.led)
  {
    var q := Commit(p, Reserved(p.led, req), req.group, []);
    if !q.dead {
      ReservedOpens(p.led, req);
      DriveFrames(q, req.group, answer);
      if !Drive(q, req.group, answer).dead {
        OpenedStays(p.led, req, q.led, Drive(q, req.group, answer).led);
      }
    }
  }

  // ------------------------------------------------------------------ what a replay drives

  /** The group has an accepted call among the events from index `n` on. */
  ghost predicate AcceptedSince(events: seq<Event>, n: nat, g: Id) {
    exists i :: n <= i < |events| && events[i].Sbatch? && events[i].ref.group == g && events[i].reply.Accepted?
  }

  /** The response names a group as submitted exactly when a call for it was accepted. */
  ghost predicate Submissions(p: Proc, n: nat) {
    n <= |p.w.events| && forall g :: g in p.submitted <==> AcceptedSince(p.w.events, n, g)
  }

  lemma DriveSubmissions(p: Proc, n: nat, g: Id, answer: Answer)
    requires Submissions(p, n) && !p.dead && !Drive(p, g, answer).dead
    ensures Submissions(Drive(p, g, answer), n) && p.w.events <= Drive(p, g, answer).w.events
  {
    if Current(p.led.groups[g].core).Some? {
      DriveOutcome(p, g, answer);
      var q := Drive(p, g, answer);
      if |q.w.events| > |p.w.events| {
        var e := q.w.events[|p.w.events|];
        forall h ensures AcceptedSince(q.w.events, n, h) <==>
                         AcceptedSince(p.w.events, n, h) || (e.Sbatch? && e.ref.group == h && e.reply.Accepted?)
        {
          if AcceptedSince(p.w.events, n, h) {
            var i :| n <= i < |p.w.events| && p.w.events[i].Sbatch? && p.w.events[i].ref.group == h &&
                     p.w.events[i].reply.Accepted?;
            assert q.w.events[i] == p.w.events[i];
          }
        }
      }
    }
  }

  lemma {:induction false} DriveAllSubmissions(p: Proc, n: nat, gs: seq<Id>, env: map<Id, Answer>)
    requires Submissions(p, n) && !p.dead && !DriveAll(p, gs, env).dead
    ensures Submissions(DriveAll(p, gs, env), n)
    decreases |gs|
  {
    if gs != [] {
      var m := |gs| - 1;
      DriveAllSubmissions(p, n, gs[..m], env);
      DriveSubmissions(DriveAll(p, gs[..m], env), n, gs[m], AnswerFor(env, gs[m]));
    }
  }

  /** The group that a request is sent to: one that replaced an attempt under an authorization it
      claims; or, when none did, one holding a unit it does not claim. */
  ghost predicate Already(led: Ledger, req: Request, g: Id) {
    if UsesNothingUsed(led, req) then
      exists u :: u in req.contract.mapping && Held(led, req, u) && led.units[u].group == g
    else exists c :: c in req.claims && ReplacedBy(led, AuthUse(c.auth, c.unit), g)
  }

  /** An authorization was used, for an attempt of the group. */
  predicate ReplacedBy(led: Ledger, use: AuthUse, g: Id) {
    use in led.consumed && led.consumed[use].replacement.group == g
  }

  /** A request that is answered and opens nothing has driven exactly the groups that already have
      its work, in the order of their ids; and the response names as submitted exactly those whose
      call was accepted meanwhile. */
  lemma EnsureDrivesExisting(w: World, req: Request, env: map<Id, Answer>, life: nat)
    requires Loaded(w) && Admissible(req) && !MayOpen(Load(w).value, req) && Ensure(w, req, env, life).1.Driven?
    ensures var (v, r) := Ensure(w, req, env, life);
      && (forall g :: g in r.groups <==> Already(Load(w).value, req, g)) && r.groups != []
      && (forall i, j :: 0 <= i < j < |r.groups| ==> Before(r.groups[i], r.groups[j]))
      && (forall g :: g in r.submitted <==> AcceptedSince(v.events, |w.events|, g))
  {
    var led := Load(w).value;
    DecidedExactly(led, req);
    ReplacementsAre(led, req);
    BlockingIs(led, req);
    var groups := Decide(led, req).groups;
    SortedAscends(groups);
    var x :| x in groups;
    assert x in Sorted(groups);
    DriveAllSubmissions(Proc(led, w, life, false, {}), |w.events|, Sorted(groups), env);
  }

  // ------------------------------------------------------------------ what changes a reservation

  /** A reservation that was changed names the one before it in a consumption that is new. */
  ghost predicate ChangeRecorded(led: Ledger, out: Ledger, u: UnitId) {
    u in led.units ==>
      && u in out.units
      && (out.units[u] != led.units[u] ==>
            exists k :: k in out.consumed && k !in led.consumed && k.unit == u &&
              out.consumed[k] == Consumption(Some(led.units[u].group), Some(led.units[u].attempt), out.units[u]))
  }

  lemma OpenedRecordsChange(led: Ledger, req: Request, out: Ledger, u: UnitId)
    requires MayOpen(led, req) && OpenedFor(led, req, out)
    ensures ChangeRecorded(led, out, u)
  {
    if u in led.units && u in req.contract.mapping {
      assert Agrees(led, req, u);
      var c :| c in req.claims && c.unit == u &&
               c.expectedGroup == Some(led.units[u].group) && c.expectedAttempt == Some(led.units[u].attempt);
      assert AuthUse(c.auth, c.unit) in out.consumed;
    }
  }

  /** Over every run of the operations, whenever a command changes a unit's reservation, it used an
      authorization for the unit that no command had used before, and the consumption recorded for
      it names the reservation as it was. */
  lemma ReservationsChangeByAuthorization(w: World, cmds: seq<Command>, u: UnitId)
    requires Loaded(w) && cmds != []
    ensures var v, x := Exec(w, cmds[..|cmds| - 1]), Exec(w, cmds);
      Loaded(v) && Loaded(x) && ChangeRecorded(Load(v).value, Load(x).value, u)
  {
    var v := Exec(w, cmds[..|cmds| - 1]);
    ExecRefines(w, cmds[..|cmds| - 1]);
    ExecRefines(w, cmds);
    match cmds[|cmds| - 1]
    case EnsureCommand(req, env, life) => EnsureRecordsChange(v, req, env, life, u);
    case UpdateCommand(g, a, s, life) =>
  }

  lemma EnsureRecordsChange(w: World, req: Request, env: map<Id, Answer>, life: nat, u: UnitId)
    requires Loaded(w)
    ensures var v := Ensure(w, req, env, life).0;
      Loaded(v) && ChangeRecorded(Load(w).value, Load(v).value, u)
  {
    if Admissible(req) {
      if life > 0 {
        EnsureOpensExactly(w, req, env, life);
        if MayOpen(Load(w).value, req) {
          OpenedRecordsChange(Load(w).value, req, Load(Ensure(w, req, env, life).0).value, u);
        }
      } else {
        LifelessEnsure(w, req, env);
      }
    }
  }

  lemma LifelessEnsure(w: World, req: Request, env: map<Id, Answer>)
    requires Loaded(w) && Admissible(req)
    ensures var v := Ensure(w, req, env, 0).0;
      Loaded(v) && SameClaims(Load(w).value, Load(v).value)
  {
    var p := Proc(Load(w).value, w, 0, false, {});
    if Decide(p.led, req).Existing? {
      DriveAllFrames(p, Sorted(Decide(p.led, req).groups), env);
    }
  }

  // ------------------------------------------------------------------ what an update answers

  /** An update is refused as invalid for a state no campaign attempt has, as not found for a group
      without a current attempt, and as a conflict for another attempt than that one. Otherwise it
      sets the state of that attempt and of its group, on disk and in the mirror, and nothing else. */
  lemma UpdateExactly(w: World, g: Id, attempt: Id, s: State, life: nat)
    requires Loaded(w)
    ensures var (v, r) := UpdateAttempt(w, g, attempt, s, life);
      var led := Load(w).value;
      var found := g in led.groups && Current(led.groups[g].core).Some?;
      && (r == Refused(InvalidArg) <==> s in {PREPARED, VERIFIED})
      && (r == Refused(NotFound) <==> s !in {PREPARED, VERIFIED} && !found)
      && (r == Refused(StoreConflict) <==>
            s !in {PREPARED, VERIFIED} && found && Get(led, CurrentRef(led, g)).id != attempt)
      && (r.Refused? ==> v == w)
      && (r.Driven? ==>
            && v.ledger.Some? && OnlyCurrent(led, v.ledger.value, g)
            && Get(v.ledger.value, CurrentRef(led, g)) == Get(led, CurrentRef(led, g)).(state := s)
            && v.ledger.value.groups[g].core.state == s
            && v.mirrors == w.mirrors[g := v.ledger.value.groups[g]])
      && (!r.Refused? ==> (r.Driven? <==> life >= 2))
  {
    var led := Load(w).value;
    if s !in {PREPARED, VERIFIED} && g in led.groups && Current(led.groups[g].core).Some? {
      var core := Mark(led.groups[g].core, Current(led.groups[g].core).value, s);
      SetCurrent(led, g, core);
    }
  }

  // ------------------------------------------------------------------ what an import reserves

  /** The record wants the unit: it has a current attempt and maps the unit. */
  ghost predicate Wants(record: Group, u: UnitId) {
    Current(record.core).Some? && u in record.contract.mapping
  }

  /** The records in `ids` leave the unit to the one whose current attempt is the newest, and among
      several as new to the last; without one it is free. */
  ghost predicate LeftToNewest(mirrors: map<Id, Group>, ids: seq<Id>, led: Ledger, u: UnitId)
    requires forall g :: g in ids ==> g in mirrors
  {
    && (u in led.units <==> exists i :: 0 <= i < |ids| && Wants(mirrors[ids[i]], u))
    && (u in led.units ==> exists i :: 0 <= i < |ids| && HoldsNewest(mirrors, ids, led, u, i))
  }

  ghost predicate HoldsNewest(mirrors: map<Id, Group>, ids: seq<Id>, led: Ledger, u: UnitId, i: nat)
    requires i < |ids| && u in led.units && forall g :: g in ids ==> g in mirrors
  {
    && Wants(mirrors[ids[i]], u)
    && led.units[u] == Reservation(ids[i], CurrentAttempt(mirrors[ids[i]]).id)
    && forall j :: 0 <= j < |ids| && Wants(mirrors[ids[j]], u) ==>
         var x, y := CurrentAttempt(mirrors[ids[j]]).createdAt, CurrentAttempt(mirrors[ids[i]]).createdAt;
         x < y || (x == y && j <= i)
  }

  /** What one record takes of the units it maps. */
  lemma {:induction false} ImportUnitsExact(led: Ledger, mapping: seq<UnitId>, g: Id, u: UnitId)
    requires g in led.groups && Current(led.groups[g].core).Some?
    ensures var a := CurrentAttempt(led.groups[g]);
      var out := ImportUnits(led, mapping, g, a);
      if u in mapping && Yields(led, u, a.createdAt) then u in out.units && out.units[u] == Reservation(g, a.id)
      else (u in out.units <==> u in led.units) && (u in led.units ==> out.units[u] == led.units[u])
  {
    if mapping != [] {
      var n := |mapping| - 1;
      assert mapping == mapping[..n] + [mapping[n]];
      ImportUnitsExact(led, mapping[..n], g, u);
    }
  }

  lemma {:induction false} ImportGroupsPick(mirrors: map<Id, Group>, ids: seq<Id>, u: UnitId)
    requires (forall g :: g in ids ==> g in mirrors) && forall i, j :: 0 <= i < j < |ids| ==> ids[i] != ids[j]
    ensures ImportedSoFar(mirrors, ids, ImportGroups(mirrors, ids))
    ensures LeftToNewest(mirrors, ids, ImportGroups(mirrors, ids), u)
  {
    ImportGroupsKeeps(mirrors, ids);
    if ids != [] {
      var n := |ids| - 1;
      assert ids == ids[..n] + [ids[n]];
      ImportGroupsPick(mirrors, ids[..n], u);
      ImportGroupPicks(mirrors, ids, ImportGroups(mirrors, ids[..n]), u);
    }
  }

  lemma ImportGroupPicks(mirrors: map<Id, Group>, ids: seq<Id>, led: Ledger, u: UnitId)
    requires ids != [] && forall g :: g in ids ==> g in mirrors
    requires forall i, j :: 0 <= i < j < |ids| ==> ids[i] != ids[j]
    requires ImportedSoFar(mirrors, ids[..|ids| - 1], led) && LeftToNewest(mirrors, ids[..|ids| - 1], led, u)
    ensures LeftToNewest(mirrors, ids, ImportGroup(led, ids[|ids| - 1], mirrors[ids[|ids| - 1]]), u)
  {
    var n := |ids| - 1;
    ImportGroupUnit(led, ids[n], mirrors[ids[n]], u);
    if u in led.units {
      var i :| 0 <= i < n && HoldsNewest(mirrors, ids[..n], led, u, i);
      assert ids[..n][i] == ids[i] && ids[i] in ids[..n];
      PickStays(mirrors, ids, led, ImportGroup(led, ids[n], mirrors[ids[n]]), u, i);
      assert Wants(mirrors[ids[i]], u);
    } else {
      PickFirst(mirrors, ids, led, ImportGroup(led, ids[n], mirrors[ids[n]]), u);
    }
  }

  /** What one record does to one unit. */
  lemma ImportGroupUnit(led: Ledger, g: Id, record: Group, u: UnitId)
    ensures var out := ImportGroup(led, g, record);
      if Wants(record, u) && Yields(led.(groups := led.groups[g := record]), u, CurrentAttempt(record).createdAt) then
        u in out.units && out.units[u] == Reservation(g, CurrentAttempt(record).id)
      else (u in out.units <==> u in led.units) && (u in led.units ==> out.units[u] == led.units[u])
  {
    if Current(record.core).Some? {
      ImportUnitsExact(led.(groups := led.groups[g := record]), record.contract.mapping, g, u);
    }
  }

  lemma PickFirst(mirrors: map<Id, Group>, ids: seq<Id>, led: Ledger, out: Ledger, u: UnitId)
    requires ids != [] && (forall g :: g in ids ==> g in mirrors)
    requires LeftToNewest(mirrors, ids[..|ids| - 1], led, u) && u !in led.units
    requires var n := |ids| - 1;
      if Wants(mirrors[ids[n]], u) then
        u in out.units && out.units[u] == Reservation(ids[n], CurrentAttempt(mirrors[ids[n]]).id)
      else u !in out.units
    ensures LeftToNewest(mirrors, ids, out, u)
  {
    var n := |ids| - 1;
    forall j | 0 <= j < n ensures !Wants(mirrors[ids[j]], u) {
      assert ids[..n][j] == ids[j];
    }
    if Wants(mirrors[ids[n]], u) {
      assert HoldsNewest(mirrors, ids, out, u, n);
    }
  }

  lemma PickStays(mirrors: map<Id, Group>, ids: seq<Id>, led: Ledger, out: Ledger, u: UnitId, i: nat)
    requires |ids| > 0 && (forall g :: g in ids ==> g in mirrors) && i < |ids| - 1
    requires u in led.units && HoldsNewest(mirrors, ids[..|ids| - 1], led, u, i)
    requires u in out.units
    requires var n := |ids| - 1;
      var taken := Wants(mirrors[ids[n]], u) &&
        CurrentAttempt(mirrors[ids[n]]).createdAt >= CurrentAttempt(mirrors[ids[i]]).createdAt;
      out.units[u] == if taken then Reservation(ids[n], CurrentAttempt(mirrors[ids[n]]).id) else led.units[u]
    ensures exists k :: 0 <= k < |ids| && HoldsNewest(mirrors, ids, out, u, k)
  {
    var n := |ids| - 1;
    assert forall j :: 0 <= j < n ==> ids[..n][j] == ids[j];
    if Wants(mirrors[ids[n]], u) &&
       CurrentAttempt(mirrors[ids[n]]).createdAt >= CurrentAttempt(mirrors[ids[i]]).createdAt {
      assert HoldsNewest(mirrors, ids, out, u, n);
    } else {
      assert HoldsNewest(mirrors, ids, out, u, i);
    }
  }

  /** An imported ledger leaves each unit to the record with a current attempt that maps it, to the
      newest of several, and of several as new to the one whose group id comes last. */
  lemma ImportPicksExactly(mirrors: map<Id, Group>, u: UnitId)
    ensures var ids := Sorted(mirrors.Keys);
      && (forall g :: g in ids <==> g in mirrors)
      && (forall i, j :: 0 <= i < j < |ids| ==> Before(ids[i], ids[j]))
      && LeftToNewest(mirrors, ids, Import(mirrors), u)
  {
    SortedAscends(mirrors.Keys);
    ImportGroupsPick(mirrors, Sorted(mirrors.Keys), u);
  }
}
