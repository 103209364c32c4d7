/** Work is never silently submitted twice: for every unit, the scheduler calls that cover it
    are paid for by the unit's first reservation and by distinct retry authorizations. */
module CampaignConservation {
  import opened Common
  import opened Attempts
  import opened CampaignLedger

  function One(b: bool): nat {
    if b then 1 else 0
  }

  /** The number of `sbatch` calls that handed a unit to the scheduler. */
  function CallsCovering(es: seq<Event>, u: UnitId): nat {
    if es == [] then 0
    else
      var e := es[|es| - 1];
      CallsCovering(es[..|es| - 1], u) + One(e.Sbatch? && u in e.units)
  }

  /** A client update that puts an attempt back to INTENDED. */
  predicate Reopens(e: Event) {
    e.Update? && e.after == INTENDED && e.before != INTENDED
  }

  function ReopensCovering(es: seq<Event>, u: UnitId): nat {
    if es == [] then 0
    else
      var e := es[|es| - 1];
      ReopensCovering(es[..|es| - 1], u) + One(Reopens(e) && u in e.units)
  }

  /** The retry authorizations used for a unit. */
  ghost function Uses(led: Ledger, u: UnitId): set<AuthUse> {
    set k | k in led.consumed && k.unit == u
  }

  predicate Covers(led: Ledger, g: Id, u: UnitId) {
    g in led.groups && u in led.groups[g].contract.mapping
  }

  /** The groups holding a unit whose next drive will call the scheduler. */
  ghost function Pending(led: Ledger, u: UnitId): set<Id> {
    set g | g in led.groups && Covers(led, g, u) && Drivable(led, g) && CurrentIs(led.groups[g].core, INTENDED)
  }

  ghost function Potential(c: Config, u: UnitId): int {
    |Uses(c.led, u)| + One(u in c.led.units) + ReopensCovering(c.events, u)
    - CallsCovering(c.events, u) - |Pending(c.led, u)|
    - One(c.phase.Armed? && Covers(c.led, c.phase.ref.group, u))
  }

  /** One attempt of one group moved; the rest of the ledger did not. */
  ghost predicate Moves(led: Ledger, out: Ledger, ref: AttemptRef) {
    && out.units == led.units && out.consumed == led.consumed
    && out.groups.Keys == led.groups.Keys
    && (forall g :: g in led.groups ==> out.groups[g].contract == led.groups[g].contract)
    && (forall g :: g in led.groups && g != ref.group ==> out.groups[g] == led.groups[g])
    && IsCurrent(led, ref) && IsCurrent(out, ref)
    && Touches(led.groups[ref.group].core, out.groups[ref.group].core, ref.index)
  }

  lemma SetCoreMoves(led: Ledger, ref: AttemptRef, core: Core)
    requires IsCurrent(led, ref) && Touches(led.groups[ref.group].core, core, ref.index)
    ensures Moves(led, SetCore(led, ref.group, core), ref)
  {
    TouchKeepsCurrent(led.groups[ref.group].core, core, ref.index);
  }

  /** The attempt a step moves, for the steps that move one. */
  ghost function MovedRef(c: Config, l: Label): AttemptRef
    requires Enabled(c, l) && (l.Recover? || l.Begin? || l.Settle? || l.SetState?)
  {
    if l.Settle? then c.phase.ref else CurrentRef(c.led, l.group)
  }

  lemma StepMoves(c: Config, l: Label)
    requires Enabled(c, l) && (l.Recover? || l.Begin? || l.Settle? || l.SetState?)
    ensures Moves(c.led, Apply(c, l).led, MovedRef(c, l))
  {
    var ref := MovedRef(c, l);
    SetCoreMoves(c.led, ref, Apply(c, l).led.groups[ref.group].core);
  }

  lemma MoveKeepsDrivable(led: Ledger, out: Ledger, ref: AttemptRef, g: Id)
    requires Moves(led, out, ref)
    ensures Drivable(led, g) <==> Drivable(out, g)
  {
  }

  /** What a move does to the set of groups still to be submitted. */
  lemma MovePending(led: Ledger, out: Ledger, ref: AttemptRef, u: UnitId)
    requires Moves(led, out, ref)
    ensures Pending(led, u) - {ref.group} == Pending(out, u) - {ref.group}
    ensures ref.group in Pending(led, u) <==>
      Covers(led, ref.group, u) && Drivable(led, ref.group) && Get(led, ref).state == INTENDED
    ensures ref.group in Pending(out, u) <==>
      Covers(led, ref.group, u) && Drivable(led, ref.group) && Get(out, ref).state == INTENDED
  {
    forall g | g != ref.group ensures g in Pending(led, u) <==> g in Pending(out, u) {
      MoveKeepsDrivable(led, out, ref, g);
    }
    MoveKeepsDrivable(led, out, ref, ref.group);
  }

  lemma RemoveCard<T>(a: set<T>, b: set<T>, x: T)
    requires a - {x} == b - {x}
    ensures |a| - One(x in a) == |b| - One(x in b)
  {
    assert |a - {x}| == |a| - One(x in a);
    assert |b - {x}| == |b| - One(x in b);
  }

  /** Reserving pays for the attempt it opens. */
  lemma ReserveKeepsPotential(c: Config, l: Label, u: UnitId)
    requires l.Reserve? && Enabled(c, l)
    ensures Potential(Apply(c, l), u) >= Potential(c, u)
  {
    var led, req := c.led, l.req;
    var out := Reserved(led, req);
    var g := req.group;
    ConsumeFacts(led.consumed, req.contract.mapping, req.claims, Reservation(g, req.attempt));
    forall h | h != g && h in Pending(out, u) ensures h in Pending(led, u) {
      assert h in led.groups && out.groups[h] == led.groups[h];
      if v :| v in out.units && out.units[v].group == h {
        assert v !in req.contract.mapping;
        assert led.units[v].group == h;
      } else {
        var k :| k in out.consumed && out.consumed[k].replacement.group == h;
        assert k in led.consumed && led.consumed[k] == out.consumed[k];
      }
    }
    SubsetCard(Uses(led, u), Uses(out, u));
    if u !in req.contract.mapping {
      assert g !in Pending(out, u);
      SubsetCard(Pending(out, u), Pending(led, u));
    } else {
      assert Pending(out, u) <= Pending(led, u) + {g};
      SubsetCard(Pending(out, u), Pending(led, u) + {g});
      if u in led.units {
        ClaimedUnitUsesNewAuthorization(led, req, u);
      }
    }
  }

  lemma UnclaimedBlocks(led: Ledger, req: Request, u: UnitId)
    requires u in req.contract.mapping && u in led.units && ClaimOf(req.claims, u).None?
    ensures Blocking(led, req) != {}
  {
    assert led.units[u].group in Blocking(led, req);
  }

  lemma UsedClaimReplaces(led: Ledger, claims: seq<Claim>, c: Claim)
    requires c in claims && UseOf(c) in led.consumed
    ensures Replacements(led, claims) != {}
  {
    assert led.consumed[UseOf(c)].replacement.group in Replacements(led, claims);
  }

  /** A unit that is already reserved enters a new attempt only by an authorization that was
      never used for it. */
  lemma ClaimedUnitUsesNewAuthorization(led: Ledger, req: Request, u: UnitId)
    requires Decide(led, req) == Create && u in req.contract.mapping && u in led.units
    ensures |Uses(Reserved(led, req), u)| >= |Uses(led, u)| + 1
  {
    if ClaimOf(req.claims, u).None? {
      UnclaimedBlocks(led, req, u);
      assert false;
    }
    var k := UseOf(ClaimOf(req.claims, u).value);
    if k in led.consumed {
      UsedClaimReplaces(led, req.claims, ClaimOf(req.claims, u).value);
      assert false;
    }
    ConsumeFacts(led.consumed, req.contract.mapping, req.claims, Reservation(req.group, req.attempt));
    SubsetCard(Uses(led, u) + {k}, Uses(Reserved(led, req), u));
  }

  lemma StepKeepsPotential(c: Config, l: Label, u: UnitId)
    requires Enabled(c, l)
    ensures Potential(Apply(c, l), u) >= Potential(c, u)
  {
    var d := Apply(c, l);
    if l.Reserve? {
      ReserveKeepsPotential(c, l, u);
    } else if l.Crash? {
    } else if l.Call? {
      assert d.events[..|d.events| - 1] == c.events;
    } else {
      StepMoves(c, l);
      var ref := MovedRef(c, l);
      MovePending(c.led, d.led, ref, u);
      RemoveCard(Pending(c.led, u), Pending(d.led, u), ref.group);
      assert Uses(d.led, u) == Uses(c.led, u);
      if l.SetState? {
        assert d.events[..|d.events| - 1] == c.events;
      }
    }
  }

  lemma NextKeepsPotential(c: Config, d: Config, u: UnitId)
    requires Next(c, d)
    ensures Potential(d, u) >= Potential(c, u)
  {
    var l :| Enabled(c, l) && d == Apply(c, l);
    StepKeepsPotential(c, l, u);
  }

  lemma {:induction false} RunKeepsPotential(cs: seq<Config>, i: nat, u: UnitId)
    requires IsRun(cs) && i < |cs|
    ensures Potential(cs[i], u) >= Potential(cs[0], u)
  {
    if i > 0 {
      RunKeepsPotential(cs, i - 1, u);
      assert Linked(cs, i);
      NextKeepsPotential(cs[i - 1], cs[i], u);
    }
  }

  /** Conservation, for any starting ledger: after every prefix of every run, with crashes
      anywhere, the calls covering a unit are bounded by the authorizations used since, the
      groups already waiting to be submitted, a first reservation, and the updates that put an
      attempt back to INTENDED. */
  lemma SubmissionsBounded(cs: seq<Config>, i: nat, u: UnitId)
    requires IsRun(cs) && i < |cs| && cs[0].events == [] && cs[0].phase.Idle?
    ensures CallsCovering(cs[i].events, u)
         <= |Uses(cs[i].led, u)| - |Uses(cs[0].led, u)| + ReopensCovering(cs[i].events, u)
            + |Pending(cs[0].led, u)| + 1 - One(u in cs[0].led.units)
  {
    RunKeepsPotential(cs, i, u);
  }

  /** From an empty ledger, with no update that reopens an attempt: at most one call plus one
      per distinct authorization used for the unit. */
  lemma SubmissionsConserved(cs: seq<Config>, i: nat, u: UnitId)
    requires IsRun(cs) && i < |cs| && cs[0] == Fresh
    ensures CallsCovering(cs[i].events, u)
         <= 1 + |Uses(cs[i].led, u)| + ReopensCovering(cs[i].events, u)
    ensures (forall e :: e in cs[i].events ==> !Reopens(e)) ==>
      CallsCovering(cs[i].events, u) <= 1 + |Uses(cs[i].led, u)|
  {
    assert Uses(Fresh.led, u) == {} && Pending(Fresh.led, u) == {};
    SubmissionsBounded(cs, i, u);
    if forall e :: e in cs[i].events ==> !Reopens(e) {
      NoReopens(cs[i].events, u);
    }
  }

  lemma LeadsConserves(d: Config, u: UnitId)
    requires Leads(Fresh, d)
    ensures CallsCovering(d.events, u) <= 1 + |Uses(d.led, u)| + ReopensCovering(d.events, u)
  {
    var cs :| IsRun(cs) && cs[0] == Fresh && cs[|cs| - 1] == d;
    SubmissionsConserved(cs, |cs| - 1, u);
  }

  lemma {:induction false} NoReopens(es: seq<Event>, u: UnitId)
    requires forall e :: e in es ==> !Reopens(e)
    ensures ReopensCovering(es, u) == 0
  {
    if es != [] {
      NoReopens(es[..|es| - 1], u);
    }
  }

  // ------------------------------------------------------------------ exactness

  lemma BeginPending(c: Config, g: Id) returns (d: Config)
    requires c.phase.Idle? && Drivable(c.led, g) && CurrentIs(c.led.groups[g].core, INTENDED)
    ensures Leads(c, d) && d.phase == Armed(CurrentRef(c.led, g)) && d.events == c.events
    ensures Moves(c.led, d.led, CurrentRef(c.led, g))
  {
    d := Apply(c, Begin(g));
    StepMoves(c, Begin(g));
    LeadsStep(c, Begin(g));
  }

  lemma AcceptCall(c: Config, ref: AttemptRef, j: JobId) returns (d: Config)
    requires c.phase == Armed(ref) && IsCurrent(c.led, ref)
    ensures Leads(c, d) && d.phase.Idle?
    ensures Moves(c.led, d.led, ref) && Get(d.led, ref).state == ACCEPTED
    ensures d.events == c.events + [Sbatch(ref, c.led.groups[ref.group].contract.mapping, Get(c.led, ref).marker, Accepted(j))]
  {
    var called := Apply(c, Call(Accepted(j)));
    d := Apply(called, Settle);
    StepMoves(called, Settle);
    LeadsStep(c, Call(Accepted(j)));
    LeadsStep(called, Settle);
    LeadsTransitive(c, called, d);
  }

  lemma MovesTransitive(a: Ledger, b: Ledger, c: Ledger, ref: AttemptRef)
    requires Moves(a, b, ref) && Moves(b, c, ref)
    ensures Moves(a, c, ref)
  {
  }

  /** A group waiting to be submitted can be taken through one accepted call. */
  lemma SubmitPending(c: Config, g: Id, j: JobId) returns (d: Config)
    requires c.phase.Idle? && Drivable(c.led, g) && CurrentIs(c.led.groups[g].core, INTENDED)
    ensures Leads(c, d) && d.phase.Idle?
    ensures Moves(c.led, d.led, CurrentRef(c.led, g)) && Get(d.led, CurrentRef(c.led, g)).state == ACCEPTED
    ensures d.events == c.events + [Sbatch(CurrentRef(c.led, g), c.led.groups[g].contract.mapping,
                                           Get(c.led, CurrentRef(c.led, g)).marker, Accepted(j))]
  {
    var ref := CurrentRef(c.led, g);
    var begun := BeginPending(c, g);
    d := AcceptCall(begun, ref, j);
    LeadsTransitive(c, begun, d);
    MovesTransitive(c.led, begun.led, d.led, ref);
  }

  /** No call is unpaid for in any run from this ledger in which nothing is reopened. */
  ghost predicate ConservesFrom(led: Ledger, u: UnitId) {
    forall cs: seq<Config> ::
      IsRun(cs) && cs[0] == Config(led, [], Idle) &&
      (forall e :: e in cs[|cs| - 1].events ==> !Reopens(e)) ==>
        CallsCovering(cs[|cs| - 1].events, u) <= 1 + |Uses(cs[|cs| - 1].led, u)| - |Uses(led, u)|
  }

  /** For a ledger that reserves every unit waiting to be submitted (every imported one does),
      conservation holds exactly when no unit waits in two groups at once. */
  lemma ConservedExactlyWhen(led: Ledger, u: UnitId)
    requires Pending(led, u) != {} ==> u in led.units
    ensures ConservesFrom(led, u) <==> |Pending(led, u)| <= 1
  {
    if |Pending(led, u)| <= 1 {
      forall cs: seq<Config> | IsRun(cs) && cs[0] == Config(led, [], Idle) &&
                               (forall e :: e in cs[|cs| - 1].events ==> !Reopens(e))
        ensures CallsCovering(cs[|cs| - 1].events, u) <= 1 + |Uses(cs[|cs| - 1].led, u)| - |Uses(led, u)|
      {
        SubmissionsBounded(cs, |cs| - 1, u);
        NoReopens(cs[|cs| - 1].events, u);
      }
    } else {
      TwoWaitingGroupsOverspend(led, u);
    }
  }

  lemma TwoWaitingGroupsOverspend(led: Ledger, u: UnitId)
    requires |Pending(led, u)| >= 2
    ensures !ConservesFrom(led, u)
  {
    var g :| g in Pending(led, u);
    assert |Pending(led, u) - {g}| >= 1;
    var h :| h in Pending(led, u) - {g};
    TwoSubmissions(led, u, g, h);
  }

  lemma TwoSubmissions(led: Ledger, u: UnitId, g: Id, h: Id)
    requires g in Pending(led, u) && h in Pending(led, u) && g != h
    ensures !ConservesFrom(led, u)
  {
    var c := Config(led, [], Idle);
    var d := SubmitPending(c, g, 0);
    MovePending(led, d.led, CurrentRef(led, g), u);
    var e := SubmitPending(d, h, 1);
    LeadsTransitive(c, d, e);
    var x, y := d.events[0], e.events[1];
    assert d.events == [] + [x] && e.events == d.events + [y];
    CallsAppend([], x, u);
    CallsAppend(d.events, y, u);
    assert Uses(e.led, u) == Uses(led, u);
    Overspends(led, u, e);
  }

  lemma Overspends(led: Ledger, u: UnitId, e: Config)
    requires Leads(Config(led, [], Idle), e) && (forall x :: x in e.events ==> !Reopens(x))
    requires CallsCovering(e.events, u) > 1 + |Uses(e.led, u)| - |Uses(led, u)|
    ensures !ConservesFrom(led, u)
  {
    var cs :| IsRun(cs) && cs[0] == Config(led, [], Idle) && cs[|cs| - 1] == e;
  }

  lemma CallsAppend(es: seq<Event>, e: Event, u: UnitId)
    ensures CallsCovering(es + [e], u) == CallsCovering(es, u) + One(e.Sbatch? && u in e.units)
  {
    assert (es + [e])[..|es|] == es;
  }

  /** An update that sends INTENDED for the current attempt of any group makes one more
      scheduler call possible, and no authorization is used. */
  lemma ReopenedAttemptIsSubmittedAgain(c: Config, g: Id, u: UnitId) returns (d: Config)
    requires c.phase.Idle? && Drivable(c.led, g) && Current(c.led.groups[g].core).Some? && Covers(c.led, g, u)
    ensures Leads(c, d) && d.phase.Idle? && d.led.consumed == c.led.consumed
    ensures CallsCovering(d.events, u) == CallsCovering(c.events, u) + 1
  {
    var l := SetState(g, Get(c.led, CurrentRef(c.led, g)).id, INTENDED);
    StepMoves(c, l);
    LeadsStep(c, l);
    var m := Apply(c, l);
    MoveKeepsDrivable(c.led, m.led, CurrentRef(c.led, g), g);
    d := SubmitPending(m, g, 0);
    LeadsTransitive(c, m, d);
    assert m.events[..|m.events| - 1] == c.events && d.events[..|d.events| - 1] == m.events;
  }
}
