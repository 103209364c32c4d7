/** Durable submission attempts: the part of a record that a campaign group and a durable task
    have in common, the scheduler's answers, and the recovery of an ambiguous submission. */
module Attempts {
  import opened Common

  type JobId = nat

  /** The job name handed to the scheduler: the first ten characters of the owner's id and of
      the attempt's id. */
  datatype Marker = Marker(owner: nat, attempt: nat)

  function MarkerOf(owner: Id, attempt: Id): Marker {
    Marker(owner.head, attempt.head)
  }

  datatype State =
    | PREPARED | INTENDED | SUBMITTING | ACCEPTED | PENDING | RUNNING | COMPLETED
    | VERIFIED | FAILED | INVALID | REJECTED | CANCELLED | UNKNOWN

  /** What one `sbatch` call did. The job is what the scheduler created, known to the caller
      only in the first case.
        Accepted    exit 0 with a job id
        Unparseable exit 0, no job id in the output
        Rejected    non-zero exit; `hidden` is a job created all the same
        NoReply     the caller died, timed out or was refused while the call was out */
  datatype Reply =
    | Accepted(job: JobId)
    | Unparseable(unread: JobId)
    | Rejected(hidden: Option<JobId>)
    | NoReply(lost: Option<JobId>)

  function Created(r: Reply): Option<JobId> {
    match r
    case Accepted(j) => Some(j)
    case Unparseable(j) => Some(j)
    case Rejected(h) => h
    case NoReply(l) => l
  }

  datatype Attempt = Attempt(id: Id, marker: Marker, state: State, createdAt: int, job: Option<JobId>)

  datatype Core = Core(state: State, attempts: seq<Attempt>, current: Option<Id>)

  /** The last attempt carrying an id. */
  function LastIndex(attempts: seq<Attempt>, id: Id): (r: Option<nat>)
    ensures r.Some? ==> r.value < |attempts| && attempts[r.value].id == id
    ensures r.Some? ==> forall k :: r.value < k < |attempts| ==> attempts[k].id != id
    ensures r.None? ==> forall k :: 0 <= k < |attempts| ==> attempts[k].id != id
  {
    if attempts == [] then None
    else if attempts[|attempts| - 1].id == id then Some(|attempts| - 1)
    else LastIndex(attempts[..|attempts| - 1], id)
  }

  function Current(c: Core): (r: Option<nat>)
    ensures r.Some? ==> r.value < |c.attempts|
  {
    if c.current.None? then None else LastIndex(c.attempts, c.current.value)
  }

  predicate CurrentIs(c: Core, s: State) {
    Current(c).Some? && c.attempts[Current(c).value].state == s
  }

  /** The search the program runs: from the newest attempt backwards. */
  method FindCurrent(c: Core) returns (r: Option<nat>)
    ensures r == Current(c)
  {
    if c.current.None? {
      return None;
    }
    var i := |c.attempts|;
    while i > 0
      invariant 0 <= i <= |c.attempts|
      invariant forall k :: i <= k < |c.attempts| ==> c.attempts[k].id != c.current.value
    {
      i := i - 1;
      if c.attempts[i].id == c.current.value {
        return Some(i);
      }
    }
    return None;
  }

  /** The attempt and its record take a state together. */
  function Mark(c: Core, i: nat, s: State): Core
    requires i < |c.attempts|
  {
    c.(state := s, attempts := c.attempts[i := c.attempts[i].(state := s)])
  }

  function Bind(c: Core, i: nat, j: JobId): Core
    requires i < |c.attempts|
  {
    c.(state := ACCEPTED, attempts := c.attempts[i := c.attempts[i].(state := ACCEPTED, job := Some(j))])
  }

  predicate Ambiguous(c: Core) {
    CurrentIs(c, SUBMITTING) && c.attempts[Current(c).value].job.None?
  }

  ghost function Only(s: set<JobId>): (j: JobId)
    requires |s| == 1
    ensures s == {j}
  {
    var j :| j in s;
    assert |s - {j}| == 0;
    j
  }

  /** `_attempt_reconcile_submitting`: an ambiguous submission takes the job of the only match,
      and becomes UNKNOWN when there is none or more than one. */
  ghost function Reconciled(c: Core, matches: set<JobId>): Core
    requires Ambiguous(c)
  {
    if |matches| == 1 then Bind(c, Current(c).value, Only(matches))
    else Mark(c, Current(c).value, UNKNOWN)
  }

  method Reconcile(c: Core, matches: set<JobId>) returns (r: Core)
    requires Ambiguous(c)
    ensures r == Reconciled(c, matches)
  {
    var i := FindCurrent(c);
    var attempt := c.attempts[i.value];
    r := c;
    if |matches| == 1 {
      var j :| j in matches;
      assert j == Only(matches);
      attempt := attempt.(job := Some(j));
      attempt := attempt.(state := ACCEPTED);
      r := r.(state := ACCEPTED);
    } else {
      attempt := attempt.(state := UNKNOWN);
      r := r.(state := UNKNOWN);
    }
    r := r.(attempts := r.attempts[i.value := attempt]);
  }

  /** What a returned `sbatch` call does to the attempt that made it. */
  function Settled(c: Core, i: nat, reply: Reply): Core
    requires i < |c.attempts|
  {
    match reply
    case Accepted(j) => Bind(c, i, j)
    case Unparseable(_) => Mark(c, i, UNKNOWN)
    case Rejected(_) => Mark(c, i, REJECTED)
    case NoReply(_) => c
  }

  /** What the scheduler's answer must leave of the attempt that made the call. */
  ghost predicate AnsweredBy(was: Attempt, now: Attempt, reply: Reply) {
    && (now.state == ACCEPTED <==> reply.Accepted?)
    && (now.state == UNKNOWN <==> reply.Unparseable?)
    && (now.state == REJECTED <==> reply.Rejected?)
    && now.job == if reply.Accepted? then Some(reply.job) else was.job
  }

  /** Appends an attempt and makes it the current one. */
  function Opened(c: Core, a: Attempt): Core {
    Core(a.state, c.attempts + [a], Some(a.id))
  }

  /** One attempt moved; nothing else in the record did. */
  ghost predicate Touches(c: Core, d: Core, i: nat) {
    && i < |c.attempts| == |d.attempts|
    && d.current == c.current
    && d.state == d.attempts[i].state
    && (forall k :: 0 <= k < |c.attempts| && k != i ==> d.attempts[k] == c.attempts[k])
    && d.attempts[i].id == c.attempts[i].id
    && d.attempts[i].marker == c.attempts[i].marker
    && d.attempts[i].createdAt == c.attempts[i].createdAt
  }

  /** Moving one attempt does not change which one is current. */
  lemma TouchKeepsCurrent(c: Core, d: Core, i: nat)
    requires Touches(c, d, i)
    ensures Current(d) == Current(c)
  {
  }

  /** A newly opened attempt is the current one, even when its id was used before. */
  lemma OpenedIsCurrent(c: Core, a: Attempt)
    ensures Current(Opened(c, a)) == Some(|c.attempts|)
  {
  }
}
