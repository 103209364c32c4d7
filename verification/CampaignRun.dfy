/** The stub's execution-ledger operations, step by step on the durable files. */
module CampaignRun {
  import opened Common
  import opened Attempts
  import opened CampaignLedger
  import opened CampaignOps
  import opened CampaignGuarantees

  /** `_campaign_contract_units`: the mapping is non-empty and repeats no unit. */
  method CheckMapping(c: Contract) returns (ok: bool)
    ensures ok <==> MappingOk(c)
  {
    if c.mapping == [] {
      return false;
    }
    var seen: set<UnitId> := {};
    for i := 0 to |c.mapping|
      invariant seen == set k | 0 <= k < i :: c.mapping[k]
      invariant forall j, k :: 0 <= j < k < i ==> c.mapping[j] != c.mapping[k]
    {
      if c.mapping[i] in seen {
        return false;
      }
      seen := seen + {c.mapping[i]};
    }
    return true;
  }

  /** Builds the claim of each unit, refusing a claim that repeats or leaves the mapping. */
  method IndexClaims(req: Request) returns (ok: bool, byUnit: map<UnitId, Claim>)
    ensures ok <==> ClaimsOk(req)
    ensures ok ==> forall u :: u in byUnit <==> ClaimOf(req.claims, u).Some?
    ensures ok ==> forall u :: u in byUnit ==> ClaimOf(req.claims, u) == Some(byUnit[u])
  {
    byUnit := map[];
    ghost var at: map<UnitId, nat> := map[];
    for i := 0 to |req.claims|
      invariant forall k :: 0 <= k < i ==> req.claims[k].unit in req.contract.mapping
      invariant forall k :: 0 <= k < i ==> req.claims[k].unit in at && at[req.claims[k].unit] == k
      invariant at.Keys == byUnit.Keys
      invariant forall u :: u in at ==> at[u] < i && req.claims[at[u]].unit == u && byUnit[u] == req.claims[at[u]]
    {
      var claim := req.claims[i];
      if claim.unit !in req.contract.mapping {
        return false, byUnit;
      }
      if claim.unit in byUnit {
        assert req.claims[at[claim.unit]].unit == req.claims[i].unit;
        return false, byUnit;
      }
      byUnit, at := byUnit[claim.unit := claim], at[claim.unit := i];
    }
    ok := true;
    forall u | u in byUnit ensures ClaimOf(req.claims, u) == Some(byUnit[u]) {
      ClaimOfIndex(req.claims, at[u]);
    }
  }

  class RunDirectory {
    var ledgerFile: Option<Ledger>
    var mirrors: map<Id, Group>
    var events: seq<Event>

    ghost function View(): World
      reads this
    {
      World(ledgerFile, mirrors, events)
    }

    constructor ()
      ensures View() == NewRun
    {
      ledgerFile, mirrors, events := None, map[], [];
    }

    /** `_campaign_execution_ledger`: the ledger file, or the import of the group records. */
    method LoadLedger() returns (r: Option<Ledger>)
      ensures r == Load(View())
    {
      if ledgerFile.Some? {
        return ledgerFile;
      }
      r := ImportRecords(mirrors);
    }

    static method ImportRecords(records: map<Id, Group>) returns (r: Option<Ledger>)
      ensures r == if Importable(records) then Some(Import(records)) else None
    {
      var names := SortIds(records.Keys);
      var ok, led := ImportListed(records, names);
      if !ok {
        return None;
      }
      forall g | g in records ensures RecordOk(records[g]) {
        assert g in names;
      }
      return Some(led);
    }

    /** The records of some groups, in order, up to the first that is unusable. */
    static method ImportListed(records: map<Id, Group>, names: seq<Id>) returns (ok: bool, led: Ledger)
      requires forall g :: g in names ==> g in records
      ensures ok <==> forall k :: 0 <= k < |names| ==> RecordOk(records[names[k]])
      ensures ok ==> led == ImportGroups(records, names)
    {
      ok, led := true, EmptyLedger;
      for i := 0 to |names|
        invariant ok && led == ImportGroups(records, names[..i])
        invariant forall k :: 0 <= k < i ==> RecordOk(records[names[k]])
      {
        ImportNext(records, names, i);
        var next;
        ok, next := ImportRecord(led, names[i], records[names[i]]);
        if !ok {
          return;
        }
        led := next;
      }
      assert names[..|names|] == names;
    }

    static lemma ImportNext(records: map<Id, Group>, names: seq<Id>, i: nat)
      requires i < |names| && forall g :: g in names ==> g in records
      ensures ImportGroups(records, names[..i + 1]) == ImportGroup(ImportGroups(records, names[..i]), names[i], records[names[i]])
    {
      assert names[..i + 1][..i] == names[..i];
    }

    static method ImportRecord(led: Ledger, g: Id, record: Group) returns (ok: bool, out: Ledger)
      ensures ok <==> RecordOk(record)
      ensures ok ==> out == ImportGroup(led, g, record)
    {
      ok := true;
      out := led.(groups := led.groups[g := record]);
      var current := FindCurrent(record.core);
      if current.Some? {
        ok := CheckMapping(record.contract);
        if ok {
          out := ReserveImported(out, record.contract.mapping, g, record.core.attempts[current.value]);
        }
      }
    }

    static method ReserveImported(led: Ledger, mapping: seq<UnitId>, g: Id, a: Attempt) returns (out: Ledger)
      ensures out == ImportUnits(led, mapping, g, a)
    {
      out := led;
      for i := 0 to |mapping|
        invariant out == ImportUnits(led, mapping[..i], g, a)
      {
        assert mapping[..i + 1][..i] == mapping[..i];
        var unit := mapping[i];
        var newer := true;
        if unit in out.units && out.units[unit].group in out.groups {
          var prior := FindCurrent(out.groups[out.units[unit].group].core);
          if prior.Some? {
            newer := a.createdAt >= out.groups[out.units[unit].group].core.attempts[prior.value].createdAt;
          }
        }
        if newer {
          out := out.(units := out.units[unit := Reservation(g, a.id)]);
        }
      }
      assert mapping[..|mapping|] == mapping;
    }

    /** `_campaign_write_execution`: the ledger, then the group's mirror. */
    method WriteExecution(led: Ledger, g: Id, note: seq<Event>, life: nat) returns (left: nat, dead: bool)
      modifies this
      ensures var q := Commit(Proc(led, old(View()), life, false, {}), led, g, note);
        View() == q.w && left == q.life && dead == q.dead
    {
      left, dead := life, false;
      if left == 0 {
        dead := true;
        return;
      }
      ledgerFile, events, left := Some(led), events + note, left - 1;
      if g in led.groups {
        if left == 0 {
          dead := true;
          return;
        }
        mirrors, left := mirrors[g := led.groups[g]], left - 1;
      }
    }

    /** What a scheduler query reports for a marker. */
    method QueryJobs(marker: Marker, visible: set<nat>) returns (found: set<JobId>)
      ensures found == Matches(events, marker, visible)
    {
      found := {};
      var rest := visible;
      ghost var seen: set<nat> := {};
      while rest != {}
        invariant seen + rest == visible && seen !! rest
        invariant found == Matches(events, marker, seen)
        decreases rest
      {
        var i :| i in rest;
        rest, seen := rest - {i}, seen + {i};
        if i < |events| && events[i].Sbatch? && events[i].marker == marker && Created(events[i].reply).Some? {
          found := found + {Created(events[i].reply).value};
        }
      }
      assert seen == visible;
    }

    /** `_attempt_reconcile_submitting`, on a group. */
    method RecoverAttempt(led: Ledger, g: Id, visible: set<nat>, life: nat, ghost sofar: set<Id>)
      returns (out: Ledger, left: nat, dead: bool)
      requires g in led.groups
      modifies this
      ensures var q := RecoverGroup(Proc(led, old(View()), life, false, sofar), g, visible);
        View() == q.w && left == q.life && dead == q.dead && (!dead ==> out == q.led)
      ensures g in out.groups
    {
      out, left, dead := led, life, false;
      var record := led.groups[g];
      var current := FindCurrent(record.core);
      if current.None? {
        return;
      }
      var attempt := record.core.attempts[current.value];
      if attempt.state != SUBMITTING || attempt.job.Some? {
        return;
      }
      var found := QueryJobs(attempt.marker, visible);
      var core := Reconcile(record.core, found);
      record := record.(core := core);
      out := led.(groups := led.groups[g := record]);
      left, dead := WriteExecution(out, g, [], life);
    }

    /** Journals SUBMITTING, calls the scheduler once, and journals its answer. */
    method SubmitAttempt(led: Ledger, g: Id, reply: Reply, life: nat, sofar: set<Id>)
      returns (out: Ledger, left: nat, dead: bool, submitted: set<Id>)
      requires g in led.groups
      modifies this
      ensures var q := SubmitGroup(Proc(led, old(View()), life, false, sofar), g, reply);
        && View() == q.w && left == q.life && dead == q.dead
        && (!dead ==> out == q.led && submitted == q.submitted)
    {
      out, left, dead, submitted := led, life, false, sofar;
      var record := led.groups[g];
      var current := FindCurrent(record.core);
      if current.None? || record.core.attempts[current.value].state != INTENDED {
        return;
      }
      var i := current.value;
      var attempt := record.core.attempts[i];
      record := record.(core := Mark(record.core, i, SUBMITTING));
      out := led.(groups := led.groups[g := record]);
      left, dead := WriteExecution(out, g, [], life);
      if dead || left == 0 {
        dead := true;
        return;
      }
      events, left := events + [Sbatch(AttemptRef(g, i), record.contract.mapping, attempt.marker, reply)], left - 1;
      if reply.NoReply? {
        dead := true;
        return;
      }
      match reply {
        case Rejected(_) => record := record.(core := Mark(record.core, i, REJECTED));
        case Unparseable(_) => record := record.(core := Mark(record.core, i, UNKNOWN));
        case Accepted(j) => record := record.(core := Bind(record.core, i, j));
      }
      out := out.(groups := out.groups[g := record]);
      assert out == SetCore(led, g, Settled(Mark(led.groups[g].core, i, SUBMITTING), i, reply));
      left, dead := WriteExecution(out, g, [], left);
      if !dead && reply.Accepted? {
        submitted := submitted + {g};
      }
    }

    /** `_campaign_drive_attempt`: recover or perform the one call journaled for a group. */
    method DriveAttempt(led: Ledger, g: Id, answer: Answer, life: nat, sofar: set<Id>)
      returns (out: Ledger, left: nat, dead: bool, submitted: set<Id>)
      modifies this
      ensures var q := Drive(Proc(led, old(View()), life, false, sofar), g, answer);
        && View() == q.w && left == q.life && dead == q.dead
        && (!dead ==> out == q.led && submitted == q.submitted)
    {
      out, left, dead, submitted := led, life, false, sofar;
      if g !in led.groups {
        dead := true;
        return;
      }
      out, left, dead := RecoverAttempt(led, g, answer.visible, life, sofar);
      if !dead {
        out, left, dead, submitted := SubmitAttempt(out, g, answer.reply, left, sofar);
      }
    }

    /** What a process holds: the files, and its own copy of the ledger while it lives. */
    ghost predicate Holds(q: Proc, led: Ledger, left: nat, dead: bool, submitted: set<Id>)
      reads this
    {
      View() == q.w && left == q.life && dead == q.dead && (!dead ==> led == q.led && submitted == q.submitted)
    }

    method DriveOne(ghost q: Proc, led: Ledger, g: Id, answer: Answer, life: nat, stopped: bool, sofar: set<Id>)
      returns (out: Ledger, left: nat, dead: bool, submitted: set<Id>)
      requires Holds(q, led, life, stopped, sofar)
      modifies this
      ensures Holds(Drive(q, g, answer), out, left, dead, submitted)
    {
      out, left, dead, submitted := led, life, stopped, sofar;
      if !stopped {
        out, left, dead, submitted := DriveAttempt(led, g, answer, life, sofar);
      }
    }

    method DriveEach(led: Ledger, gs: seq<Id>, env: map<Id, Answer>, life: nat)
      returns (out: Ledger, left: nat, dead: bool, submitted: set<Id>)
      modifies this
      ensures Holds(DriveAll(Proc(led, old(View()), life, false, {}), gs, env), out, left, dead, submitted)
    {
      out, left, dead, submitted := led, life, false, {};
      ghost var start := Proc(led, View(), life, false, {});
      ghost var q := start;
      for i := 0 to |gs|
        invariant q == DriveAll(start, gs[..i], env) && Holds(q, out, left, dead, submitted)
      {
        DriveNext(start, gs, i, env);
        var answer := AnswerFor(env, gs[i]);
        out, left, dead, submitted := DriveOne(q, out, gs[i], answer, left, dead, submitted);
        q := Drive(q, gs[i], answer);
      }
      assert gs[..|gs|] == gs;
    }

    static lemma DriveNext(p: Proc, gs: seq<Id>, i: nat, env: map<Id, Answer>)
      requires i < |gs|
      ensures DriveAll(p, gs[..i + 1], env) == Drive(DriveAll(p, gs[..i], env), gs[i], AnswerFor(env, gs[i]))
    {
      assert gs[..i + 1][..i] == gs[..i];
    }

    static method CollectReplacements(led: Ledger, claims: seq<Claim>) returns (groups: set<Id>)
      ensures groups == Replacements(led, claims)
    {
      groups := {};
      for i := 0 to |claims|
        invariant groups == Replacements(led, claims[..i])
      {
        assert claims[..i + 1] == claims[..i] + [claims[i]];
        var use := UseOf(claims[i]);
        if use in led.consumed {
          groups := groups + {led.consumed[use].replacement.group};
        }
      }
      assert claims[..|claims|] == claims;
    }

    /** One pass over the requested units: a claim that no longer matches refuses the request,
        an unclaimed reservation blocks it. */
    static method CheckReservations(led: Ledger, req: Request, byUnit: map<UnitId, Claim>)
      returns (stale: bool, blocking: set<Id>)
      requires forall u :: u in byUnit <==> ClaimOf(req.claims, u).Some?
      requires forall u :: u in byUnit ==> ClaimOf(req.claims, u) == Some(byUnit[u])
      ensures stale <==> exists u :: u in req.contract.mapping && Stale(led, u, ClaimOf(req.claims, u))
      ensures !stale ==> blocking == Blocking(led, req)
    {
      var mapping := req.contract.mapping;
      stale, blocking := false, {};
      for i := 0 to |mapping|
        invariant forall k :: 0 <= k < i ==> !Stale(led, mapping[k], ClaimOf(req.claims, mapping[k]))
        invariant blocking == set k | 0 <= k < i && mapping[k] in led.units && ClaimOf(req.claims, mapping[k]).None?
                                :: led.units[mapping[k]].group
      {
        var unit := mapping[i];
        if unit !in led.units {
          if unit in byUnit && byUnit[unit].expectedGroup.Some? {
            assert Stale(led, unit, ClaimOf(req.claims, unit));
            return true, blocking;
          }
        } else if unit !in byUnit {
          blocking := blocking + {led.units[unit].group};
        } else if Some(led.units[unit].group) != byUnit[unit].expectedGroup ||
                  Some(led.units[unit].attempt) != byUnit[unit].expectedAttempt {
          assert Stale(led, unit, ClaimOf(req.claims, unit));
          return true, blocking;
        }
      }
    }

    /** Reserves every unit to the new attempt and uses the authorizations claimed for it. */
    static method BindUnits(led: Ledger, mapping: seq<UnitId>, claims: seq<Claim>, byUnit: map<UnitId, Claim>,
                            reservation: Reservation)
      returns (units: map<UnitId, Reservation>, consumed: map<AuthUse, Consumption>)
      requires forall u :: u in byUnit <==> ClaimOf(claims, u).Some?
      requires forall u :: u in byUnit ==> ClaimOf(claims, u) == Some(byUnit[u])
      ensures units == ReserveUnits(led.units, mapping, reservation)
      ensures consumed == Consume(led.consumed, mapping, claims, reservation)
    {
      units, consumed := led.units, led.consumed;
      for i := 0 to |mapping|
        invariant units == ReserveUnits(led.units, mapping[..i], reservation)
        invariant consumed == Consume(led.consumed, mapping[..i], claims, reservation)
      {
        ghost var upto := mapping[..i + 1];
        assert upto[..i] == mapping[..i] && upto[i] == mapping[i];
        var unit := mapping[i];
        units := units[unit := reservation];
        if unit in byUnit {
          var claim := byUnit[unit];
          consumed := consumed[UseOf(claim) := Consumption(claim.expectedGroup, claim.expectedAttempt, reservation)];
        }
      }
      assert mapping[..|mapping|] == mapping;
    }

    /** Opens the attempt and binds its units to it. */
    static method JournalIntent(led: Ledger, req: Request, byUnit: map<UnitId, Claim>) returns (out: Ledger)
      requires forall u :: u in byUnit <==> ClaimOf(req.claims, u).Some?
      requires forall u :: u in byUnit ==> ClaimOf(req.claims, u) == Some(byUnit[u])
      ensures out == Reserved(led, req)
    {
      var core := Core(INTENDED, [], None);
      if req.group in led.groups {
        core := led.groups[req.group].core;
      }
      var attempt := Attempt(req.attempt, MarkerOf(req.group, req.attempt), INTENDED, req.now, None);
      core := core.(attempts := core.attempts + [attempt]);
      core := core.(current := Some(req.attempt));
      core := core.(state := INTENDED);
      var units, consumed := BindUnits(led, req.contract.mapping, req.claims, byUnit,
                                       Reservation(req.group, req.attempt));
      out := Ledger(led.groups[req.group := Group(req.contract, core)], units, consumed);
    }

    /** `op_campaign_attempt_ensure`. */
    method EnsureAttempt(req: Request, env: map<Id, Answer>, life: nat) returns (r: Response)
      modifies this
      ensures (View(), r) == Ensure(old(View()), req, env, life)
    {
      if !req.wellFormed || req.digest != req.group {
        return Refused(InvalidArg);
      }
      var mappingOk := CheckMapping(req.contract);
      var claimsOk, byUnit := IndexClaims(req);
      if !mappingOk || !claimsOk {
        return Refused(InvalidArg);
      }
      var loaded := LoadLedger();
      if loaded.None? {
        return Refused(InvalidArg);
      }
      var led := loaded.value;
      var replacements := CollectReplacements(led, req.claims);
      if replacements != {} {
        r := DriveExisting(led, replacements, env, life);
        return;
      }
      var stale, blocking := CheckReservations(led, req, byUnit);
      if stale {
        return Refused(StoreConflict);
      }
      if blocking != {} {
        r := DriveExisting(led, blocking, env, life);
        return;
      }
      if req.group in led.groups && led.groups[req.group].contract != req.contract {
        return Refused(StoreConflict);
      }
      r := SubmitNew(led, req, byUnit, env, life);
    }

    method DriveExisting(led: Ledger, groups: set<Id>, env: map<Id, Answer>, life: nat) returns (r: Response)
      modifies this
      ensures var q := DriveAll(Proc(led, old(View()), life, false, {}), Sorted(groups), env);
        View() == q.w && r == Respond(q, Sorted(groups))
    {
      var gs := SortIds(groups);
      var out, left, dead, submitted := DriveEach(led, gs, env, life);
      r := if dead then Stopped else Driven(gs, submitted);
    }

    method SubmitNew(led: Ledger, req: Request, byUnit: map<UnitId, Claim>, env: map<Id, Answer>, life: nat)
      returns (r: Response)
      requires forall u :: u in byUnit <==> ClaimOf(req.claims, u).Some?
      requires forall u :: u in byUnit ==> ClaimOf(req.claims, u) == Some(byUnit[u])
      modifies this
      ensures var p := Proc(led, old(View()), life, false, {});
        var q := Drive(Commit(p, Reserved(led, req), req.group, []), req.group, AnswerFor(env, req.group));
        View() == q.w && r == Respond(q, [req.group])
    {
      var out := JournalIntent(led, req, byUnit);
      var left, dead := WriteExecution(out, req.group, [], life);
      if dead {
        return Stopped;
      }
      var submitted;
      out, left, dead, submitted := DriveAttempt(out, req.group, AnswerFor(env, req.group), left, {});
      r := if dead then Stopped else Driven([req.group], submitted);
    }

    /** `op_campaign_attempt_update`. */
    method SetAttemptState(g: Id, attempt: Id, s: State, life: nat) returns (r: Response)
      modifies this
      ensures (View(), r) == UpdateAttempt(old(View()), g, attempt, s, life)
    {
      if !IsCampaignState(s) {
        return Refused(InvalidArg);
      }
      var loaded := LoadLedger();
      if loaded.None? {
        return Refused(InvalidArg);
      }
      var led := loaded.value;
      if g !in led.groups {
        return Refused(NotFound);
      }
      var record := led.groups[g];
      var current := FindCurrent(record.core);
      if current.None? {
        return Refused(NotFound);
      }
      var i := current.value;
      if record.core.attempts[i].id != attempt {
        return Refused(StoreConflict);
      }
      var note := Update(AttemptRef(g, i), record.contract.mapping, record.core.attempts[i].state, s);
      record := record.(core := Mark(record.core, i, s));
      led := led.(groups := led.groups[g := record]);
      var left, dead := WriteExecution(led, g, [note], life);
      r := if dead then Stopped else Driven([g], {});
    }
  }
}
