/** What every step of the execution ledger keeps: reservations point at current attempts, and
    nothing durable is lost or rewritten. */
module CampaignReservations {
  import opened Common
  import opened Attempts
  import opened CampaignLedger
  import opened CampaignConservation

  /** A unit reserved to an attempt belongs to the group's contract, and the attempt is the
      group's current one. */
  ghost predicate ReservationsSound(led: Ledger) {
    forall u :: u in led.units ==>
      var r := led.units[u];
      && Covers(led, r.group, u)
      && led.groups[r.group].core.current == Some(r.attempt)
      && Current(led.groups[r.group].core).Some?
  }

  /** Every authorization names a group that holds the unit it was used for. */
  ghost predicate AuthorizationsSound(led: Ledger) {
    forall k :: k in led.consumed ==> Covers(led, led.consumed[k].replacement.group, k.unit)
  }

  /** A group's state is the state of its current attempt. */
  ghost predicate StatesAgree(led: Ledger) {
    forall g :: g in led.groups && Current(led.groups[g].core).Some? ==>
      led.groups[g].core.state == Get(led, CurrentRef(led, g)).state
  }

  ghost predicate Sound(led: Ledger) {
    ReservationsSound(led) && AuthorizationsSound(led) && StatesAgree(led)
  }

  lemma StepKeepsSound(c: Config, l: Label)
    requires Sound(c.led) && Enabled(c, l)
    ensures Sound(Apply(c, l).led)
  {
    var d := Apply(c, l);
    if l.Reserve? {
      ReserveKeepsSound(c.led, l.req);
    } else if l.Recover? || l.Begin? || l.Settle? || l.SetState? {
      StepMoves(c, l);
    }
  }

  lemma ReserveKeepsSound(led: Ledger, req: Request)
    requires Sound(led) && Decide(led, req) == Create
    ensures Sound(Reserved(led, req))
  {
    ReserveKeepsAuthorizations(led, req);
    ReserveKeepsStates(led, req);
  }

  lemma ReserveKeepsAuthorizations(led: Ledger, req: Request)
    requires AuthorizationsSound(led) && Decide(led, req) == Create
    ensures AuthorizationsSound(Reserved(led, req))
  {
    var out := Reserved(led, req);
    ConsumeFacts(led.consumed, req.contract.mapping, req.claims, Reservation(req.group, req.attempt));
    forall k | k in out.consumed ensures Covers(out, out.consumed[k].replacement.group, k.unit) {
      if k in led.consumed && out.consumed[k] == led.consumed[k] {
        assert Covers(led, led.consumed[k].replacement.group, k.unit);
      }
    }
  }

  lemma ReserveKeepsStates(led: Ledger, req: Request)
    requires StatesAgree(led)
    ensures StatesAgree(Reserved(led, req))
  {
    OpenedIsCurrent(CoreBefore(led, req.group), NewAttempt(req));
  }

  /** Durable facts that never change: a ledger extends another. */
  ghost predicate Extends(led: Ledger, out: Ledger) {
    && led.units.Keys <= out.units.Keys
    && (forall k :: k in led.consumed ==> k in out.consumed && out.consumed[k] == led.consumed[k])
    && (forall g :: g in led.groups ==>
          g in out.groups && out.groups[g].contract == led.groups[g].contract &&
          |led.groups[g].core.attempts| <= |out.groups[g].core.attempts|)
    && (forall r: AttemptRef :: RefExists(led, r) ==>
          RefExists(out, r) &&
          Get(out, r).id == Get(led, r).id && Get(out, r).marker == Get(led, r).marker &&
          Get(out, r).createdAt == Get(led, r).createdAt)
  }

  lemma ReserveExtends(led: Ledger, req: Request)
    requires Decide(led, req) == Create
    ensures Extends(led, Reserved(led, req))
  {
    var out := Reserved(led, req);
    ConsumeFacts(led.consumed, req.contract.mapping, req.claims, Reservation(req.group, req.attempt));
    forall k | k in led.consumed ensures k in out.consumed && out.consumed[k] == led.consumed[k] {
      forall cl | cl in req.claims ensures UseOf(cl) != k {
        if UseOf(cl) == k {
          UsedClaimReplaces(led, req.claims, cl);
          assert false;
        }
      }
    }
    assert forall g :: g in led.groups && g != req.group ==> out.groups[g] == led.groups[g];
  }

  /** An authorization is used at most once for a unit and its entry never changes; no
      reservation is dropped; attempts are only added. */
  lemma StepExtends(c: Config, l: Label)
    requires Enabled(c, l)
    ensures Extends(c.led, Apply(c, l).led)
  {
    if l.Reserve? {
      ReserveExtends(c.led, l.req);
    } else if l.Recover? || l.Begin? || l.Settle? || l.SetState? {
      StepMoves(c, l);
    }
  }

  lemma NextExtends(c: Config, d: Config)
    requires Next(c, d)
    ensures Extends(c.led, d.led)
  {
    var l :| Enabled(c, l) && d == Apply(c, l);
    StepExtends(c, l);
  }

  lemma ExtendsTransitive(a: Ledger, b: Ledger, c: Ledger)
    requires Extends(a, b) && Extends(b, c)
    ensures Extends(a, c)
  {
    forall r: AttemptRef | RefExists(a, r)
      ensures RefExists(c, r) && Get(c, r).id == Get(a, r).id &&
              Get(c, r).marker == Get(a, r).marker && Get(c, r).createdAt == Get(a, r).createdAt
    {
      assert RefExists(b, r);
    }
  }

  /** No step but a client update returns an attempt to INTENDED. */
  lemma OnlyUpdatesReopen(c: Config, l: Label, ref: AttemptRef)
    requires Enabled(c, l) && !l.SetState? && RefExists(c.led, ref) && Get(c.led, ref).state != INTENDED
    ensures RefExists(Apply(c, l).led, ref) && Get(Apply(c, l).led, ref).state != INTENDED
  {
    if l.Recover? || l.Begin? || l.Settle? {
      StepMoves(c, l);
    }
  }

  lemma NextKeepsSound(c: Config, d: Config)
    requires Sound(c.led) && Next(c, d)
    ensures Sound(d.led)
  {
    var l :| Enabled(c, l) && d == Apply(c, l);
    StepKeepsSound(c, l);
  }

  lemma {:induction false} RunKeepsSound(cs: seq<Config>, i: nat)
    requires IsRun(cs) && i < |cs| && Sound(cs[0].led)
    ensures Sound(cs[i].led)
  {
    if i > 0 {
      RunKeepsSound(cs, i - 1);
      assert Linked(cs, i);
      NextKeepsSound(cs[i - 1], cs[i]);
    }
  }

  lemma {:induction false} RunExtends(cs: seq<Config>, i: nat, j: nat)
    requires IsRun(cs) && i <= j < |cs|
    ensures Extends(cs[i].led, cs[j].led)
  {
    if i < j {
      RunExtends(cs, i, j - 1);
      assert Linked(cs, j);
      NextExtends(cs[j - 1], cs[j]);
      ExtendsTransitive(cs[i].led, cs[j - 1].led, cs[j].led);
    }
  }

  lemma LeadsKeepsSound(c: Config, d: Config)
    requires Leads(c, d) && Sound(c.led)
    ensures Sound(d.led) && Extends(c.led, d.led)
  {
    var cs :| IsRun(cs) && cs[0] == c && cs[|cs| - 1] == d;
    RunKeepsSound(cs, |cs| - 1);
    RunExtends(cs, 0, |cs| - 1);
  }
}
