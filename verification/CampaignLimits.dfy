/** Inputs at which the store's operations fail although the commits before them succeeded, each
    starting from an empty store. */
module CampaignLimits {
  import opened Common
  import opened CampaignStore
  import opened CampaignHistory
  import opened CampaignCommits
  import opened CampaignExactlyOnce
  import opened CampaignProgress
  import R = CampaignReaders
  import F = CampaignChanges

  /** A commit of one document and one event, with a journal of `bytes` bytes. */
  function Small(tx: TxId, expected: nat, bytes: nat): Args {
    Args(tx, Content(expected, [0], map[[0] := Value(0, 2)], bytes), [[0]], bytes, bytes)
  }

  // ------------------------------------------------------------------ what a crash leaves

  /** The writer dies after making its directory: every replay fails and changes nothing. */
  lemma CrashLeavesDirectory(a: Args, life: nat, max: nat)
    requires a.content.expected == 0
    ensures var d := CommitOp(EmptyDir, a, 1, max).0;
      !Startable(d, a) && CommitOp(d, a, life, max) == (d, Failed(DirectoryExists))
  {
    var d := CommitOp(EmptyDir, a, 1, max).0;
    var p := WriteRequest(MakeTxDir(Proc(EmptyDir, 1, Live), a.tx), a);
    StageAllStopped(p, a, a.order);
    assert d == SetTx(EmptyDir, a.tx, EmptyTxDir);
    var q := Raise(Proc(d, life, Live), DirectoryExists);
    StageAllStopped(q, a, a.order);
    assert Publish(Stage(Proc(d, life, Live), a), a, d.head) == q;
  }

  lemma StageSingle(p: Proc, a: Args, doc: Doc)
    requires a.order == [doc]
    ensures StageAll(p, a, a.order) == StageOne(p, a, doc)
  {
    assert a.order[..0] == [];
    assert StageAll(p, a, a.order[..0]) == p;
  }

  /** A replay dies inside its quarantine, after an earlier writer died before its journal: the
      next replay fails. */
  lemma CrashInsideQuarantine(bytes: nat, life: nat, max: nat)
    requires max > 0
    ensures var a := Small(0, 0, bytes);
      var d := CommitOp(EmptyDir, a, 5, max).0;
      var e := CommitOp(d, a, 1, max).0;
      Startable(d, a) && !Startable(e, a) && !CommitOp(e, a, life, max).1.Committed?
  {
    var a := Small(0, 0, bytes);
    ViewLeft(a, max);
    var d := CommitOp(EmptyDir, a, 5, max).0;
    var e := CommitOp(d, a, 1, max).0;
    var p := Proc(d, 1, Live);
    assert Reachable(d, d.head, a.tx, max, None) == Missing;
    assert MoveTxDir(p, a.tx).life == 0;
    assert Quarantine(p, a.tx, KeyOf(a)).status == Died;
    StageAllStopped(Quarantine(p, a.tx, KeyOf(a)), a, a.order);
    assert a.tx !in e.txs && KeyOf(a) in e.views;
    ViewInTheWay(e, a, life);
  }

  /** The first writer's leavings: a request and a view, and no journal. */
  lemma ViewLeft(a: Args, max: nat)
    requires a.content.expected == 0 && a.order == [[0]] && a.content.documents == map[[0] := Value(0, 2)]
    ensures var d := CommitOp(EmptyDir, a, 5, max).0;
      && d.head == Root && d.journals == map[] && KeyOf(a) in d.views
      && HasRequest(d, a.tx) && d.txs[a.tx].request.value.digest == ShaOf(a.content) && d.txs[a.tx].result.None?
  {
    var p := WriteRequest(MakeTxDir(Proc(EmptyDir, 5, Live), a.tx), a);
    assert p.status == Live && p.life == 3 && p.d.txs[a.tx].staged.None?;
    StageSingle(p, a, [0]);
    var q := StageAll(p, a, a.order);
    assert q.status == Live && q.life == 2 && q.d.txs[a.tx].staged.Some?;
    var r := PublishView(WriteEvents(q, a), a);
    assert r.status == Live && r.life == 0 && KeyOf(a) in r.d.views;
  }

  /** With a view in the way and no request, no writer can publish. */
  lemma ViewInTheWay(d: Dir, a: Args, life: nat)
    requires a.tx !in d.txs && KeyOf(a) in d.views
    ensures !Unrecorded(d, a, life).1.Committed?
  {
    var p := WriteRequest(MakeTxDir(Proc(d, life, Live), a.tx), a);
    StageAllKeepsViews(p, a, a.order);
    var q := WriteEvents(StageAll(p, a, a.order), a);
    assert KeyOf(a) in q.d.views;
    assert PublishView(q, a).status != Live;
  }

  lemma {:induction false} StageAllKeepsViews(p: Proc, a: Args, order: seq<Doc>)
    ensures StageAll(p, a, order).d.views == p.d.views
  {
    if order != [] {
      StageAllKeepsViews(p, a, order[..|order| - 1]);
    }
  }

  // ------------------------------------------------------------------ clashing paths

  /** A commit with a file `0` and a file `1` in a directory `0`. */
  function Clashing(): Args {
    var v := Value(0, 2);
    Args(0, Content(0, [], map[[0] := v, [0, 1] := v], 100), [[0], [0, 1]], 500, 500)
  }

  /** It passes every check made before the lease, and no call of any run commits it. */
  lemma ClashingIsRefused(cmds: seq<Command>, life: nat, max: nat)
    requires CommandsOk(cmds)
    ensures Accepted(Clashing().content) && OrderOk(Clashing())
    ensures !CommitOp(Exec(EmptyDir, cmds), Clashing(), life, max).1.Committed?
  {
    var a := Clashing();
    assert [0] in a.content.documents && [0, 1] in a.content.documents;
    assert [0, 1][..1] == [0];
    ClashNeverCommits(cmds, a, life, max);
  }

  // ------------------------------------------------------------------ a journal over the read limit

  const BIG := 5242880

  /** The store after one commit with five mebibytes of events. */
  function AfterBig(max: nat): Dir {
    CommitOp(EmptyDir, Small(0, 0, BIG), 12, max).0
  }

  lemma JournalPublished(d: Dir, a: Args, life: nat, max: nat)
    requires !HasRequest(d, a.tx) && CommitOp(d, a, life, max).1.Committed?
    ensures var e := CommitOp(d, a, life, max).0;
      KeyOf(a) in e.journals && e.journals[KeyOf(a)] == JournalFor(a, d.head) && e.head == PointerTo(KeyOf(a))
  {
  }

  lemma SmallIsCompatible(tx: TxId, expected: nat, bytes: nat)
    ensures OrderOk(Small(tx, expected, bytes)) && Compatible(Small(tx, expected, bytes).content.documents)
  {
  }

  /** It is accepted and committed. */
  lemma BigIsCommitted(max: nat)
    ensures Accepted(Small(0, 0, BIG).content) && CommitOp(EmptyDir, Small(0, 0, BIG), 12, max).1.Committed?
    ensures var e := AfterBig(max);
      && Valid(e) && e.head == Commit(1, 0) && Key(1, 0) in History(e, e.head)
      && Key(1, 0) in e.journals && e.journals[Key(1, 0)].fileBytes == BIG
  {
    var a := Small(0, 0, BIG);
    EmptyIsValid();
    SmallIsCompatible(0, 0, BIG);
    CompletesExactlyWhen(EmptyDir, a, 12, max);
    CommitKeepsSafe(EmptyDir, a, 12, max);
    JournalPublished(EmptyDir, a, 12, max);
  }

  /** No event page can be read from then on. */
  lemma BigStopsEvents(limit: nat, max: nat)
    requires 1 <= limit <= 500
    ensures Valid(AfterBig(max)) && R.EventsOp(AfterBig(max), None, limit, max) == R.NoPage(TooLarge)
  {
    BigIsCommitted(max);
    var e := AfterBig(max);
    R.HeadOnChain(e);
    R.TurnGoesOn(e, e.head, 0, limit, max);
    assert R.TurnAt(e, e.head, 0, limit, max) == R.Ends(R.NoPage(TooLarge));
  }

  /** No change page after the empty run can be read. */
  lemma BigStopsChanges(limit: nat, max: nat)
    requires 1 <= limit <= F.CHANGE_LIMIT
    ensures Valid(AfterBig(max)) && F.ChangesOp(AfterBig(max), None, limit, F.Limits) == F.NoChanges(TooLarge)
  {
    BigIsCommitted(max);
    var e := AfterBig(max);
    F.WalkUnfolds(e, e.head, None, F.CHANGE_COMMITS, F.CHANGE_JOURNAL_BYTES);
  }

  lemma {:induction false} LifelessStages(p: Proc, a: Args, order: seq<Doc>)
    requires p.life == 0
    ensures StageAll(p, a, order).d == p.d && StageAll(p, a, order).life == 0
  {
    if order != [] {
      LifelessStages(p, a, order[..|order| - 1]);
    }
  }

  /** A writer that dies right after its request. */
  lemma OnlyRequested(d: Dir, b: Args, max: nat)
    requires b.tx !in d.txs && Rev(d.head) == b.content.expected
    ensures CommitOp(d, b, 2, max).0 ==
            SetTx(d, b.tx, EmptyTxDir.(request := Some(Request(ShaOf(b.content), b.content.expected))))
  {
    var p := WriteRequest(MakeTxDir(Proc(d, 2, Live), b.tx), b);
    LifelessStages(p, b, b.order);
    assert SetTx(SetTx(d, b.tx, EmptyTxDir), b.tx, p.d.txs[b.tx]) == SetTx(d, b.tx, p.d.txs[b.tx]);
  }

  /** A replay that must walk past a journal over the read limit. */
  lemma BigHeadStopsReplay(d: Dir, b: Args, life: nat, max: nat)
    requires HasRequest(d, b.tx) && d.txs[b.tx].request.value.digest == ShaOf(b.content) && d.txs[b.tx].result.None?
    requires d.head.Commit? && d.head.tx != b.tx && d.head.revision > 0
    requires Key(d.head.revision, d.head.tx) in d.journals && !Fits(d, Key(d.head.revision, d.head.tx))
    ensures CommitOp(d, b, life, max) == (d, Failed(TooLarge))
  {
    assert Reachable(d, d.head, b.tx, max, None) == OverLimit;
  }

  /** A transaction that dies after its request can never be replayed, although HEAD stays at
      the revision it expects. */
  lemma BigStopsReplay(b: Args, life: nat, max: nat)
    requires b.tx != 0 && b.content.expected == 1
    ensures var f := CommitOp(AfterBig(max), b, 2, max).0;
      Startable(f, b) && Rev(f.head) == 1 && CommitOp(f, b, life, max) == (f, Failed(TooLarge))
  {
    BigIsCommitted(max);
    OnlyBig(max);
    OnlyRequested(AfterBig(max), b, max);
    BigHeadStopsReplay(CommitOp(AfterBig(max), b, 2, max).0, b, life, max);
  }

  lemma OnlyBig(max: nat)
    ensures AfterBig(max).txs.Keys == {0}
  {
    var a := Small(0, 0, BIG);
    var p := WriteRequest(MakeTxDir(Proc(EmptyDir, 12, Live), a.tx), a);
    StageSingle(p, a, [0]);
  }

  /** A commit whose result was never recorded cannot be reported again once a newer one has a
      journal over the read limit. */
  lemma NewerBigStopsReplay(d: Dir, a: Args, l: Key, life: nat, max: nat)
    requires Valid(d) && OrderOk(a) && KeyOf(a) in History(d, d.head) && HasRequest(d, a.tx)
    requires d.txs[a.tx].request.value.digest == ShaOf(a.content) && d.txs[a.tx].result.None?
    requires l in History(d, d.head) && l.revision > KeyOf(a).revision && !Fits(d, l)
    ensures CommitOp(d, a, life, max).1 == Failed(TooLarge)
  {
    ReplayIsExact(d, a, life, max, KeyOf(a));
    HistoryShape(d, d.head);
    var h := History(d, d.head);
    var x :| 0 <= x < |h| && h[x] == l;
    forall i | 0 <= i < |h| && h[i].tx == a.tx ensures !Walkable(d, h, i, None) {
      HistoryNamesOnce(d, KeyOf(a), h[i]);
      assert x < i;
    }
  }

  /** So it is here: the first commit dies before its result, the second is the big one. */
  lemma BigStopsEarlierReplay(life: nat, max: nat)
    ensures var a, b := Small(1, 0, 500), Small(0, 1, BIG);
      var d := CommitOp(EmptyDir, a, 7, max).0;
      var e := CommitOp(d, b, 12, max).0;
      CommitOp(d, b, 12, max).1.Committed? && CommitOp(e, a, life, max).1 == Failed(TooLarge)
  {
    var a, b := Small(1, 0, 500), Small(0, 1, BIG);
    var d := CommitOp(EmptyDir, a, 7, max).0;
    ResultLost(max);
    SecondCommits(d, a, b, max);
    NewerBigStopsReplay(CommitOp(d, b, 12, max).0, a, KeyOf(b), life, max);
  }

  lemma SecondCommits(d: Dir, a: Args, b: Args, max: nat)
    requires Valid(d) && d.head == PointerTo(KeyOf(a)) && KeyOf(a) in History(d, d.head)
    requires HasRequest(d, a.tx) && b.tx !in d.txs && KeyOf(b) !in d.views
    requires b == Small(0, 1, BIG) && KeyOf(a).revision == 1
    ensures CommitOp(d, b, 12, max).1.Committed?
    ensures var e := CommitOp(d, b, 12, max).0;
      && Valid(e) && KeyOf(a) in History(e, e.head) && a.tx in e.txs && e.txs[a.tx] == d.txs[a.tx]
      && KeyOf(b) in History(e, e.head) && !Fits(e, KeyOf(b))
  {
    SmallIsCompatible(0, 1, BIG);
    CompletesExactlyWhen(d, b, 12, max);
    CommitKeepsSafe(d, b, 12, max);
    CommitReports(d, b, 12, max);
    JournalPublished(d, b, 12, max);
    CommitKeepsOthers(d, b, 12, max, a.tx);
    R.CommitStays(d, CommitOp(d, b, 12, max).0, KeyOf(a));
  }

  /** The first commit is published and has no result. */
  lemma ResultLost(max: nat)
    ensures var a := Small(1, 0, 500);
      var d := CommitOp(EmptyDir, a, 7, max).0;
      Valid(d) && Unreported(d, a) && KeyOf(a) in History(d, d.head)
  {
    SmallIsCompatible(1, 0, 500);
    EmptyIsValid();
    CommitKeepsSafe(EmptyDir, Small(1, 0, 500), 7, max);
    DiesBeforeResult(max);
  }

  ghost predicate Unreported(d: Dir, a: Args) {
    && d.head == PointerTo(KeyOf(a)) && d.txs.Keys == {a.tx} && d.views.Keys == {KeyOf(a)}
    && HasRequest(d, a.tx) && d.txs[a.tx].request.value.digest == ShaOf(a.content) && d.txs[a.tx].result.None?
  }

  lemma DiesBeforeResult(max: nat)
    ensures Unreported(CommitOp(EmptyDir, Small(1, 0, 500), 7, max).0, Small(1, 0, 500))
  {
    var a := Small(1, 0, 500);
    var p := WriteRequest(MakeTxDir(Proc(EmptyDir, 7, Live), a.tx), a);
    StageSingle(p, a, [0]);
    var q := Stage(Proc(EmptyDir, 7, Live), a);
    assert q.status == Live && q.life == 2;
    assert PublishHead(PublishJournal(q, a, Root), KeyOf(a)).life == 0;
  }
}
