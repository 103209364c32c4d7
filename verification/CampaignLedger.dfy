/** The campaign execution ledger: its data, and the small-step machine whose steps are the
    durable changes one process makes. A crash may come between any two steps. */
module CampaignLedger {
  import opened Common
  import opened Attempts

  type UnitId = nat

  /** A group's contract: the work units it maps, and everything else that identifies it. */
  datatype Contract = Contract(mapping: seq<UnitId>, rest: nat)

  datatype Group = Group(contract: Contract, core: Core)

  datatype Reservation = Reservation(group: Id, attempt: Id)

  datatype AuthUse = AuthUse(auth: Id, unit: UnitId)

  datatype Consumption = Consumption(
    previousGroup: Option<Id>, previousAttempt: Option<Id>, replacement: Reservation)

  datatype Ledger = Ledger(
    groups: map<Id, Group>,
    units: map<UnitId, Reservation>,
    consumed: map<AuthUse, Consumption>)

  const EmptyLedger := Ledger(map[], map[], map[])

  datatype Claim = Claim(
    unit: UnitId, auth: Id, expectedGroup: Option<Id>, expectedAttempt: Option<Id>)

  /** One ensure request. `digest` is the hash the program computes of the contract;
      `wellFormed` says that the script, flags, directory and ids pass their shape checks. */
  datatype Request = Request(
    group: Id, contract: Contract, digest: Id, attempt: Id, claims: seq<Claim>,
    wellFormed: bool, now: int)

  datatype Error = InvalidArg | StoreConflict | NotFound

  // ------------------------------------------------------------------ request checks

  predicate Distinct<T(==)>(s: seq<T>) {
    forall i, j :: 0 <= i < j < |s| ==> s[i] != s[j]
  }

  predicate MappingOk(c: Contract) {
    c.mapping != [] && Distinct(c.mapping)
  }

  predicate ClaimsOk(req: Request) {
    && (forall i :: 0 <= i < |req.claims| ==> req.claims[i].unit in req.contract.mapping)
    && (forall i, j :: 0 <= i < j < |req.claims| ==> req.claims[i].unit != req.claims[j].unit)
  }

  predicate Admissible(req: Request) {
    req.wellFormed && req.digest == req.group && MappingOk(req.contract) && ClaimsOk(req)
  }

  function ClaimOf(claims: seq<Claim>, u: UnitId): (r: Option<Claim>)
    ensures r.Some? <==> exists i :: 0 <= i < |claims| && claims[i].unit == u
    ensures r.Some? ==> r.value in claims && r.value.unit == u
  {
    if claims == [] then None
    else if claims[0].unit == u then Some(claims[0])
    else ClaimOf(claims[1..], u)
  }

  lemma {:induction false} ClaimOfIndex(claims: seq<Claim>, i: nat)
    requires i < |claims|
    requires forall j, k :: 0 <= j < k < |claims| ==> claims[j].unit != claims[k].unit
    ensures ClaimOf(claims, claims[i].unit) == Some(claims[i])
  {
    if i > 0 {
      assert claims[0].unit != claims[i].unit;
      ClaimOfIndex(claims[1..], i - 1);
    }
  }

  function UseOf(c: Claim): AuthUse {
    AuthUse(c.auth, c.unit)
  }

  /** A claim that no longer matches the unit's durable reservation. */
  predicate Stale(led: Ledger, u: UnitId, claim: Option<Claim>) {
    claim.Some? &&
    if u in led.units then
      claim.value.expectedGroup != Some(led.units[u].group) ||
      claim.value.expectedAttempt != Some(led.units[u].attempt)
    else claim.value.expectedGroup.Some?
  }

  datatype Decision = Refuse(error: Error) | Existing(groups: set<Id>) | Create

  /** The groups that already replaced a claimed attempt. */
  function Replacements(led: Ledger, claims: seq<Claim>): set<Id> {
    set c | c in claims && UseOf(c) in led.consumed :: led.consumed[UseOf(c)].replacement.group
  }

  /** The groups holding a requested unit that the request does not claim. */
  function Blocking(led: Ledger, req: Request): set<Id> {
    set u | u in req.contract.mapping && u in led.units && ClaimOf(req.claims, u).None?
      :: led.units[u].group
  }

  function Decide(led: Ledger, req: Request): Decision {
    if Replacements(led, req.claims) != {} then Existing(Replacements(led, req.claims))
    else if exists u :: u in req.contract.mapping && Stale(led, u, ClaimOf(req.claims, u)) then
      Refuse(StoreConflict)
    else if Blocking(led, req) != {} then Existing(Blocking(led, req))
    else if req.group in led.groups && led.groups[req.group].contract != req.contract then
      Refuse(StoreConflict)
    else Create
  }

  // ------------------------------------------------------------------ ledger changes

  function ReserveUnits(units: map<UnitId, Reservation>, mapping: seq<UnitId>, r: Reservation)
    : (out: map<UnitId, Reservation>)
    ensures forall u :: u in out <==> u in units || u in mapping
    ensures forall u :: u in mapping ==> u in out && out[u] == r
    ensures forall u :: u in units && u !in mapping ==> out[u] == units[u]
  {
    if mapping == [] then units
    else
      var n := |mapping| - 1;
      assert mapping == mapping[..n] + [mapping[n]];
      ReserveUnits(units, mapping[..n], r)[mapping[n] := r]
  }

  function Consume(consumed: map<AuthUse, Consumption>, mapping: seq<UnitId>, claims: seq<Claim>,
                   r: Reservation): map<AuthUse, Consumption>
  {
    if mapping == [] then consumed
    else
      var n := |mapping| - 1;
      var before := Consume(consumed, mapping[..n], claims, r);
      match ClaimOf(claims, mapping[n])
      case None => before
      case Some(c) =>
        before[UseOf(c) := Consumption(c.expectedGroup, c.expectedAttempt, r)]
  }

  /** Using authorizations adds exactly the claimed ones, all for the new reservation, and
      rewrites nothing that is not claimed again. */
  lemma {:induction false} ConsumeFacts(consumed: map<AuthUse, Consumption>, mapping: seq<UnitId>,
                                        claims: seq<Claim>, r: Reservation)
    ensures var out := Consume(consumed, mapping, claims, r);
      && (forall k :: k in consumed ==> k in out)
      && (forall k :: k in consumed && (k.unit !in mapping || forall c :: c in claims ==> UseOf(c) != k) ==>
            out[k] == consumed[k])
      && (forall k :: k in out && (k !in consumed || out[k] != consumed[k]) ==>
            k.unit in mapping && out[k].replacement == r)
      && (forall u :: u in mapping && ClaimOf(claims, u).Some? ==> UseOf(ClaimOf(claims, u).value) in out)
  {
    if mapping != [] {
      var n := |mapping| - 1;
      assert mapping == mapping[..n] + [mapping[n]];
      ConsumeFacts(consumed, mapping[..n], claims, r);
    }
  }

  function EmptyCore(): Core {
    Core(INTENDED, [], None)
  }

  function NewAttempt(req: Request): Attempt {
    Attempt(req.attempt, MarkerOf(req.group, req.attempt), INTENDED, req.now, None)
  }

  function CoreBefore(led: Ledger, g: Id): Core {
    if g in led.groups then led.groups[g].core else EmptyCore()
  }

  /** The one atomic replacement that journals an intent, its reservations and the retry
      authorizations it uses. */
  function Reserved(led: Ledger, req: Request): Ledger {
    var r := Reservation(req.group, req.attempt);
    Ledger(
      led.groups[req.group := Group(req.contract, Opened(CoreBefore(led, req.group), NewAttempt(req)))],
      ReserveUnits(led.units, req.contract.mapping, r),
      Consume(led.consumed, req.contract.mapping, req.claims, r))
  }

  function SetCore(led: Ledger, g: Id, c: Core): Ledger
    requires g in led.groups
  {
    led.(groups := led.groups[g := led.groups[g].(core := c)])
  }

  // ------------------------------------------------------------------ the machine

  /** One attempt of one group, by its position in the group's list. */
  datatype AttemptRef = AttemptRef(group: Id, index: nat)

  /** What the outside world saw: calls to the scheduler, and state updates by clients. */
  datatype Event =
    | Sbatch(ref: AttemptRef, units: seq<UnitId>, marker: Marker, reply: Reply)
    | Update(ref: AttemptRef, units: seq<UnitId>, before: State, after: State)

  /** Where the process holding the lease stands. */
  datatype Phase = Idle | Armed(ref: AttemptRef) | Called(ref: AttemptRef, reply: Reply)

  datatype Config = Config(led: Ledger, events: seq<Event>, phase: Phase)

  /** The jobs a scheduler query reports for a marker: any part of the real ones. */
  function Matches(events: seq<Event>, marker: Marker, visible: set<nat>): set<JobId> {
    set i | i in visible && i < |events| && events[i].Sbatch? && events[i].marker == marker &&
            Created(events[i].reply).Some? :: Created(events[i].reply).value
  }

  predicate IsCampaignState(s: State) {
    s != PREPARED && s != VERIFIED
  }

  datatype Label =
    | Reserve(req: Request)
    | Recover(group: Id, visible: set<nat>)
    | Begin(group: Id)
    | Call(answer: Reply)
    | Settle
    | Crash
    | SetState(group: Id, attempt: Id, state: State)

  predicate RefExists(led: Ledger, ref: AttemptRef) {
    ref.group in led.groups && ref.index < |led.groups[ref.group].core.attempts|
  }

  function Get(led: Ledger, ref: AttemptRef): Attempt
    requires RefExists(led, ref)
  {
    led.groups[ref.group].core.attempts[ref.index]
  }

  predicate IsCurrent(led: Ledger, ref: AttemptRef) {
    ref.group in led.groups && Current(led.groups[ref.group].core) == Some(ref.index)
  }

  function CurrentRef(led: Ledger, g: Id): AttemptRef
    requires g in led.groups && Current(led.groups[g].core).Some?
  {
    AttemptRef(g, Current(led.groups[g].core).value)
  }

  /** A group the program can come back to: a unit is reserved to it, or it replaced an attempt
      under a retry authorization. */
  ghost predicate Drivable(led: Ledger, g: Id) {
    && g in led.groups
    && ((exists u :: u in led.units && led.units[u].group == g) ||
        (exists k :: k in led.consumed && led.consumed[k].replacement.group == g))
  }

  ghost predicate Enabled(c: Config, l: Label) {
    match l
    case Reserve(req) => c.phase.Idle? && Admissible(req) && Decide(c.led, req) == Create
    case Recover(g, _) => c.phase.Idle? && Drivable(c.led, g) && Ambiguous(c.led.groups[g].core)
    case Begin(g) => c.phase.Idle? && Drivable(c.led, g) && CurrentIs(c.led.groups[g].core, INTENDED)
    case Call(_) => c.phase.Armed? && IsCurrent(c.led, c.phase.ref)
    case Settle => c.phase.Called? && IsCurrent(c.led, c.phase.ref) && !c.phase.reply.NoReply?
    case Crash => true
    case SetState(g, a, s) =>
      c.phase.Idle? && g in c.led.groups && Current(c.led.groups[g].core).Some? &&
      Get(c.led, CurrentRef(c.led, g)).id == a && IsCampaignState(s)
  }

  ghost function Apply(c: Config, l: Label): Config
    requires Enabled(c, l)
  {
    match l
    case Reserve(req) => c.(led := Reserved(c.led, req))
    case Recover(g, visible) =>
      var core := c.led.groups[g].core;
      var found := Matches(c.events, core.attempts[Current(core).value].marker, visible);
      c.(led := SetCore(c.led, g, Reconciled(core, found)))
    case Begin(g) =>
      var core := c.led.groups[g].core;
      var i := Current(core).value;
      Config(SetCore(c.led, g, Mark(core, i, SUBMITTING)), c.events, Armed(AttemptRef(g, i)))
    case Call(reply) =>
      var ref := c.phase.ref;
      var group := c.led.groups[ref.group];
      var e := Sbatch(ref, group.contract.mapping, Get(c.led, ref).marker, reply);
      Config(c.led, c.events + [e], Called(ref, reply))
    case Settle =>
      var ref := c.phase.ref;
      var core := c.led.groups[ref.group].core;
      Config(SetCore(c.led, ref.group, Settled(core, ref.index, c.phase.reply)), c.events, Idle)
    case Crash => c.(phase := Idle)
    case SetState(g, _, s) =>
      var core := c.led.groups[g].core;
      var ref := CurrentRef(c.led, g);
      var e := Update(ref, c.led.groups[g].contract.mapping, Get(c.led, ref).state, s);
      Config(SetCore(c.led, g, Mark(core, ref.index, s)), c.events + [e], Idle)
  }

  ghost predicate Next(c: Config, d: Config) {
    exists l :: Enabled(c, l) && d == Apply(c, l)
  }

  /** A run: configurations, each one step after the one before it. */
  ghost predicate IsRun(cs: seq<Config>) {
    cs != [] && forall i :: 0 < i < |cs| ==> Linked(cs, i)
  }

  ghost predicate Linked(cs: seq<Config>, i: int)
    requires 0 < i < |cs|
  {
    Next(cs[i - 1], cs[i])
  }

  ghost predicate Leads(c: Config, d: Config) {
    exists cs :: IsRun(cs) && cs[0] == c && cs[|cs| - 1] == d
  }

  lemma LeadsToItself(c: Config)
    ensures Leads(c, c)
  {
    assert IsRun([c]);
  }

  lemma LeadsStep(c: Config, l: Label)
    requires Enabled(c, l)
    ensures Leads(c, Apply(c, l))
  {
    var cs := [c, Apply(c, l)];
    assert Linked(cs, 1);
    assert IsRun(cs);
  }

  lemma LeadsTransitive(c: Config, d: Config, e: Config)
    requires Leads(c, d) && Leads(d, e)
    ensures Leads(c, e)
  {
    var cs :| IsRun(cs) && cs[0] == c && cs[|cs| - 1] == d;
    var ds :| IsRun(ds) && ds[0] == d && ds[|ds| - 1] == e;
    var es := cs + ds[1..];
    forall i | 0 < i < |es| ensures Linked(es, i) {
      if i >= |cs| {
        assert es[i] == ds[i - |cs| + 1] && es[i - 1] == ds[i - |cs|];
        assert Linked(ds, i - |cs| + 1);
      } else {
        assert Linked(cs, i) && es[i] == cs[i] && es[i - 1] == cs[i - 1];
      }
    }
    assert IsRun(es) && es[|es| - 1] == e;
  }

  /** The history of a run that starts with no ledger at all. */
  const Fresh := Config(EmptyLedger, [], Idle)
}
