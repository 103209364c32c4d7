/** A transaction id is committed at most once, at one revision, with one content. */
module CampaignExactlyOnce {
  import opened Common
  import opened CampaignStore
  import opened CampaignHistory
  import opened CampaignCommits

  /** A walk along a history gets past its newest `i` commits: their journals can be read back,
      and are within the budget when there is one. */
  ghost predicate Walkable(d: Dir, h: seq<Key>, i: nat, budget: Option<nat>)
    requires i <= |h|
  {
    && (forall j :: 0 <= j < i ==> Fits(d, h[j]))
    && (budget.Some? ==> JournalBytes(d, h, i) <= budget.value)
  }

  /** A transaction stands among the newest `n` commits of a history, and the walk gets past the
      newer ones. */
  ghost predicate Reaches(d: Dir, h: seq<Key>, tx: TxId, n: nat, budget: Option<nat>) {
    exists i :: 0 <= i < |h| && i < n && h[i].tx == tx && Walkable(d, h, i, budget)
  }

  /** What is left of a budget. */
  function Less(budget: Option<nat>, bytes: nat): Option<nat> {
    if budget.Some? && bytes <= budget.value then Some(budget.value - bytes) else None
  }

  /** The first journal of a walk can be read. */
  predicate Opens(d: Dir, k: Key, budget: Option<nat>) {
    Fits(d, k) && (budget.Some? ==> FileBytes(d, k) <= budget.value)
  }

  lemma WalkableTail(d: Dir, k: Key, h: seq<Key>, i: nat, budget: Option<nat>)
    requires i <= |h|
    ensures Walkable(d, [k] + h, i + 1, budget) <==>
            Opens(d, k, budget) && Walkable(d, h, i, Less(budget, FileBytes(d, k)))
  {
    BytesTail(d, k, h, i + 1);
    assert forall j :: 0 <= j < i ==> ([k] + h)[j + 1] == h[j];
    assert ([k] + h)[0] == k;
  }

  lemma ReachesTail(d: Dir, k: Key, h: seq<Key>, tx: TxId, n: nat, budget: Option<nat>)
    requires n > 0 && k.tx != tx
    ensures Reaches(d, [k] + h, tx, n, budget) <==>
            Opens(d, k, budget) && Reaches(d, h, tx, n - 1, Less(budget, FileBytes(d, k)))
  {
    var all, less := [k] + h, Less(budget, FileBytes(d, k));
    if Reaches(d, all, tx, n, budget) {
      var i :| 0 <= i < |all| && i < n && all[i].tx == tx && Walkable(d, all, i, budget);
      WalkableTail(d, k, h, i - 1, budget);
      assert h[i - 1].tx == tx;
    }
    if Opens(d, k, budget) && Reaches(d, h, tx, n - 1, less) {
      var i :| 0 <= i < |h| && i < n - 1 && h[i].tx == tx && Walkable(d, h, i, less);
      WalkableTail(d, k, h, i, budget);
      assert all[i + 1].tx == tx;
    }
  }

  /** What a walk must answer: it finds a transaction that it reaches, misses one that the whole
      history, walked to its end, does not have, and gives up otherwise. */
  ghost predicate Answers(d: Dir, h: seq<Key>, tx: TxId, n: nat, budget: Option<nat>, found: Lookup) {
    && (found.At? <==> Reaches(d, h, tx, n, budget))
    && (found.At? ==>
          Key(Rev(found.pointer), tx) in h && found.pointer == PointerTo(Key(Rev(found.pointer), tx)))
    && (found.Missing? <==> |h| < n && Walkable(d, h, |h|, budget) && forall k :: k in h ==> k.tx != tx)
  }

  /** The traversal answers for the history, whatever its limits. */
  lemma {:induction false} ReachableExact(d: Dir, p: Pointer, tx: TxId, fuel: nat, budget: Option<nat>)
    requires Linear(d, p)
    ensures Answers(d, History(d, p), tx, fuel, budget, Reachable(d, p, tx, fuel, budget))
    decreases fuel
  {
    if fuel > 0 && p.Commit? {
      var k := Key(p.revision, p.tx);
      var q := d.journals[k].parent;
      var h, less := History(d, q), Less(budget, FileBytes(d, k));
      assert History(d, p) == [k] + h;
      if p.tx == tx {
        FoundAtOnce(d, k, h, fuel, budget);
      } else {
        ReachableExact(d, q, tx, fuel - 1, less);
        AnswersTail(d, k, h, tx, fuel, budget, Reachable(d, q, tx, fuel - 1, less));
      }
    }
  }

  lemma FoundAtOnce(d: Dir, k: Key, h: seq<Key>, fuel: nat, budget: Option<nat>)
    requires fuel > 0
    ensures Answers(d, [k] + h, k.tx, fuel, budget, At(PointerTo(k)))
  {
    var all := [k] + h;
    assert all[0] == k && Walkable(d, all, 0, budget);
  }

  lemma AnswersTail(d: Dir, k: Key, h: seq<Key>, tx: TxId, fuel: nat, budget: Option<nat>, rest: Lookup)
    requires k.tx != tx && fuel > 0
    requires Answers(d, h, tx, fuel - 1, Less(budget, FileBytes(d, k)), rest)
    ensures Answers(d, [k] + h, tx, fuel, budget, if Opens(d, k, budget) then rest else OverLimit)
  {
    ReachesTail(d, k, h, tx, fuel, budget);
    WalkableTail(d, k, h, |h|, budget);
    assert forall x :: x in [k] + h <==> x == k || x in h;
  }

  /** The history is short enough to be walked to its end, and every journal of it can be read. */
  ghost predicate Searchable(d: Dir, max: nat) {
    Rev(d.head) <= max && AllFit(d, History(d, d.head))
  }

  lemma SearchableReaches(d: Dir, k: Key, max: nat)
    requires Valid(d) && k in History(d, d.head) && Searchable(d, max)
    ensures Reaches(d, History(d, d.head), k.tx, max, None)
  {
    HistoryShape(d, d.head);
    var h := History(d, d.head);
    var i :| 0 <= i < |h| && h[i] == k;
    assert Walkable(d, h, i, None);
  }

  // ------------------------------------------------------------------ what a commit does

  /** The commit of a transaction, as the history records it. */
  ghost predicate CommittedAs(d: Dir, k: Key, c: Content) {
    && k in History(d, d.head) && k in d.journals && k in d.views
    && k.revision == c.expected + 1
    && d.views[k] == c.documents && d.journals[k].events == c.events
    && d.journals[k].documents == Digests(c.documents)
  }

  lemma HistoryRecords(d: Dir, k: Key, c: Content)
    requires Valid(d) && k in History(d, d.head)
    requires k.tx in d.txs && d.txs[k.tx].request.Some? && d.txs[k.tx].request.value.digest == ShaOf(c)
    ensures CommittedAs(d, k, c)
  {
    HistoryShape(d, d.head);
    assert JournalOk(d, k);
    assert TxOk(d.txs[k.tx]);
  }

  lemma JournalOfRequest(d: Dir, a: Args, k: Key)
    requires Valid(d) && k in d.journals && k.tx == a.tx
    requires HasRequest(d, a.tx) ==> d.txs[a.tx].request.value.digest == ShaOf(a.content)
    ensures k == KeyOf(a) && k in d.views && HasRequest(d, a.tx)
  {
    assert JournalOk(d, k) && TxOk(d.txs[k.tx]);
  }

  /** With no commit of the transaction in the history, none of its journals can be waiting
      unless it is the one the request would publish now. */
  lemma NothingPublished(d: Dir, a: Args)
    requires Valid(d)
    requires HasRequest(d, a.tx) ==> d.txs[a.tx].request.value.digest == ShaOf(a.content)
    requires HasRequest(d, a.tx) ==> !(KeyOf(a) in d.journals && KeyOf(a) in d.views)
    ensures Unpublished(d, a.tx)
  {
    forall k | k in d.journals ensures k.tx != a.tx {
      if k.tx == a.tx {
        JournalOfRequest(d, a, k);
        assert false;
      }
    }
  }

  /** The part of a commit that writes everything anew. */
  lemma FreshKeeps(d: Dir, a: Args, life: nat)
    requires Valid(d) && OrderOk(a) && Unpublished(d, a.tx) && Rev(d.head) == a.content.expected
    ensures var p := Proc(d, life, Live);
      var q := if HasRequest(d, a.tx) then Quarantine(p, a.tx, KeyOf(a)) else p;
      var r := Publish(Stage(q, a), a, d.head);
      Safe(d, r.d) && (r.status == Live ==> Linked(p, KeyOf(a), r.d))
  {
    var p := Proc(d, life, Live);
    var q := if HasRequest(d, a.tx) then Quarantine(p, a.tx, KeyOf(a)) else p;
    if HasRequest(d, a.tx) {
      QuarantineKeeps(p, a.tx, KeyOf(a));
    }
    StageKeeps(q, a);
    var s := Stage(q, a);
    SidewaysTransitive(d, q.d, s.d);
    SidewaysKeeps(d, s.d);
    PublishKeeps(s, a);
    GrowsTransitive(d, s.d, Publish(s, a, d.head).d);
  }

  lemma CommitKeepsSafe(d: Dir, a: Args, life: nat, max: nat)
    requires Valid(d) && OrderOk(a)
    ensures Safe(d, CommitOp(d, a, life, max).0)
  {
    GrowsReflexive(d);
    if HasRequest(d, a.tx) && (d.txs[a.tx].request.value.digest != ShaOf(a.content) || d.txs[a.tx].result.Some?) {
      return;
    }
    ReachableExact(d, d.head, a.tx, max, None);
    var found := if HasRequest(d, a.tx) then Reachable(d, d.head, a.tx, max, None) else Missing;
    if found.At? {
      ResultKeeps(Proc(d, life, Live), Key(Rev(found.pointer), a.tx), true);
    } else if found.Missing? {
      UnrecordedKeepsSafe(d, a, life);
    }
  }

  lemma UnrecordedKeepsSafe(d: Dir, a: Args, life: nat)
    requires Valid(d) && OrderOk(a)
    requires HasRequest(d, a.tx) ==> d.txs[a.tx].request.value.digest == ShaOf(a.content)
    ensures Safe(d, Unrecorded(d, a, life).0)
  {
    var k := KeyOf(a);
    GrowsReflexive(d);
    if HasRequest(d, a.tx) && k in d.journals && k in d.views {
      if Rev(d.head) == a.content.expected {
        LinkKeeps(Proc(d, life, Live), k, true);
      }
    } else if Rev(d.head) == a.content.expected {
      NothingPublished(d, a);
      FreshKeeps(d, a, life);
    }
  }

  /** The transaction stands in the history, with the request that was made. */
  ghost predicate Reported(e: Dir, a: Args) {
    && KeyOf(a) in History(e, e.head)
    && HasRequest(e, a.tx) && e.txs[a.tx].request.value.digest == ShaOf(a.content)
  }

  lemma ReportsRecorded(d: Dir, a: Args)
    requires Valid(d) && HasRequest(d, a.tx) && d.txs[a.tx].request.value.digest == ShaOf(a.content)
    requires d.txs[a.tx].result.Some?
    ensures d.txs[a.tx].result.value == ResultFor(KeyOf(a), d.txs[a.tx].result.value.recovered) && Reported(d, a)
  {
    assert ResultOk(d, a.tx);
    HistoryRecords(d, Key(d.txs[a.tx].result.value.revision, a.tx), a.content);
  }

  lemma ReportsFound(d: Dir, a: Args, life: nat, k: Key)
    requires Valid(d) && HasRequest(d, a.tx) && d.txs[a.tx].request.value.digest == ShaOf(a.content)
    requires k.tx == a.tx && k in History(d, d.head)
    ensures k == KeyOf(a) && Reported(WriteResult(Proc(d, life, Live), k, true).d, a)
  {
    HistoryRecords(d, k, a.content);
    ResultKeeps(Proc(d, life, Live), k, true);
  }

  lemma ReportsRelinked(d: Dir, a: Args, life: nat)
    requires Valid(d) && HasRequest(d, a.tx) && d.txs[a.tx].request.value.digest == ShaOf(a.content)
    requires KeyOf(a) in d.journals && Rev(d.head) == a.content.expected
    ensures var q := WriteResult(PublishHead(Proc(d, life, Live), KeyOf(a)), KeyOf(a), true);
      q.status == Live ==> Reported(q.d, a)
  {
    LinkKeeps(Proc(d, life, Live), KeyOf(a), true);
  }

  lemma ReportsFresh(d: Dir, a: Args, life: nat)
    requires Valid(d) && OrderOk(a) && Unpublished(d, a.tx) && Rev(d.head) == a.content.expected
    ensures var p := Proc(d, life, Live);
      var q := if HasRequest(d, a.tx) then Quarantine(p, a.tx, KeyOf(a)) else p;
      var r := Publish(Stage(q, a), a, d.head);
      r.status == Live ==> Reported(r.d, a)
  {
    FreshKeeps(d, a, life);
    FreshRequest(d, a, life);
  }

  /** A commit that returns a result stands in the history one revision above the expected
      one, by the request that was made. */
  lemma CommitReports(d: Dir, a: Args, life: nat, max: nat)
    requires Valid(d) && OrderOk(a) && CommitOp(d, a, life, max).1.Committed?
    ensures var (e, o) := CommitOp(d, a, life, max);
      o.result == ResultFor(KeyOf(a), o.result.recovered) && Reported(e, a)
  {
    if HasRequest(d, a.tx) {
      if d.txs[a.tx].result.Some? {
        ReportsRecorded(d, a);
      } else {
        ReachableExact(d, d.head, a.tx, max, None);
        var found := Reachable(d, d.head, a.tx, max, None);
        if found.At? {
          ReportsFound(d, a, life, Key(Rev(found.pointer), a.tx));
        } else if KeyOf(a) in d.journals && KeyOf(a) in d.views {
          ReportsRelinked(d, a, life);
        } else {
          NothingPublished(d, a);
          ReportsFresh(d, a, life);
        }
      }
    } else {
      NothingPublished(d, a);
      ReportsFresh(d, a, life);
    }
  }

  /** A fresh commit that completes leaves its request on disk. */
  lemma FreshRequest(d: Dir, a: Args, life: nat)
    requires Valid(d) && OrderOk(a) && Unpublished(d, a.tx)
    ensures var p := Proc(d, life, Live);
      var q := if HasRequest(d, a.tx) then Quarantine(p, a.tx, KeyOf(a)) else p;
      var r := Publish(Stage(q, a), a, d.head);
      r.status == Live ==> HasRequest(r.d, a.tx) && r.d.txs[a.tx].request.value.digest == ShaOf(a.content)
  {
    var p := Proc(d, life, Live);
    var q := if HasRequest(d, a.tx) then Quarantine(p, a.tx, KeyOf(a)) else p;
    if HasRequest(d, a.tx) {
      QuarantineKeeps(p, a.tx, KeyOf(a));
    }
    StageKeeps(q, a);
    PublishKeepsRequest(Stage(q, a), a, d.head);
  }

  lemma PublishKeepsRequest(p: Proc, a: Args, parent: Pointer)
    requires p.status == Live ==> ReadyToJournal(p.d, a)
    ensures var r := Publish(p, a, parent);
      r.status == Live ==> HasRequest(r.d, a.tx) && r.d.txs[a.tx].request.value.digest == ShaOf(a.content)
  {
  }

  /** Once a transaction is in the history, a replay with different content is refused and
      changes nothing; a replay with the same content changes no commit, and reports the same
      revision, stops, or fails, exactly when no result was recorded and the walk cannot reach the
      commit: too many are newer, or a newer one's journal is over the read limit. */
  lemma ReplayIsExact(d: Dir, a: Args, life: nat, max: nat, k: Key)
    requires Valid(d) && OrderOk(a) && k in History(d, d.head) && k.tx == a.tx
    ensures HasRequest(d, a.tx)
    ensures d.txs[a.tx].request.value.digest != ShaOf(a.content) ==>
      CommitOp(d, a, life, max) == (d, Failed(StoreConflict))
    ensures d.txs[a.tx].request.value.digest == ShaOf(a.content) ==>
      var (e, o) := CommitOp(d, a, life, max);
      && e.head == d.head && e.journals == d.journals && e.views == d.views
      && (o.Committed? ==> o.result == ResultFor(k, o.result.recovered) && o.idempotent)
      && (o.Failed? <==> d.txs[a.tx].result.None? && !Reaches(d, History(d, d.head), a.tx, max, None))
      && (o.Failed? ==> o.error == TooLarge && !Searchable(d, max))
  {
    HistoryShape(d, d.head);
    assert JournalOk(d, k);
    ReachableExact(d, d.head, a.tx, max, None);
    if Searchable(d, max) {
      SearchableReaches(d, k, max);
    }
    if d.txs[a.tx].request.value.digest == ShaOf(a.content) {
      if d.txs[a.tx].result.Some? {
        assert ResultOk(d, a.tx);
        HistoryNamesOnce(d, k, Key(d.txs[a.tx].result.value.revision, a.tx));
      } else {
        var found := Reachable(d, d.head, a.tx, max, None);
        if found.At? {
          HistoryNamesOnce(d, k, Key(Rev(found.pointer), a.tx));
        }
      }
    }
  }

  lemma HistoryNamesOnce(d: Dir, k: Key, l: Key)
    requires Valid(d) && k in History(d, d.head) && l in History(d, d.head) && k.tx == l.tx
    ensures k == l
  {
    HistoryShape(d, d.head);
    OneJournalPerTransaction(d, k, l);
  }

  // ------------------------------------------------------------------ runs

  datatype Command = CommitCommand(args: Args, life: nat, max: nat)

  ghost predicate CommandsOk(cmds: seq<Command>) {
    forall c :: c in cmds ==> OrderOk(c.args)
  }

  function Exec(d: Dir, cmds: seq<Command>): Dir {
    if cmds == [] then d
    else
      var n := |cmds| - 1;
      CommitOp(Exec(d, cmds[..n]), cmds[n].args, cmds[n].life, cmds[n].max).0
  }

  /** After every run of commits, replays and crashes the history is linear, and every snapshot
      committed before it is unchanged. */
  lemma {:induction false} RunKeepsSafe(d: Dir, cmds: seq<Command>)
    requires Valid(d) && CommandsOk(cmds)
    ensures Safe(d, Exec(d, cmds))
  {
    GrowsReflexive(d);
    if cmds != [] {
      var n := |cmds| - 1;
      RunKeepsSafe(d, cmds[..n]);
      var e := Exec(d, cmds[..n]);
      CommitKeepsSafe(e, cmds[n].args, cmds[n].life, cmds[n].max);
      GrowsTransitive(d, e, Exec(d, cmds));
    }
  }

  lemma EmptyIsValid()
    ensures Valid(EmptyDir)
  {
  }

  // ------------------------------------------------------------------ results

  lemma {:induction false} StageAllKeepsOthers(p: Proc, a: Args, order: seq<Doc>, tx: TxId)
    requires tx != a.tx && tx in p.d.txs
    ensures Untouched(p, StageAll(p, a, order), tx)
    decreases |order|
  {
    if order != [] {
      StageAllKeepsOthers(p, a, order[..|order| - 1], tx);
    }
  }

  ghost predicate Untouched(p: Proc, q: Proc, tx: TxId) {
    tx in q.d.txs && tx in p.d.txs && q.d.txs[tx] == p.d.txs[tx]
  }

  lemma StageKeepsOthers(p: Proc, a: Args, tx: TxId)
    requires tx != a.tx && tx in p.d.txs
    ensures Untouched(p, Stage(p, a), tx)
  {
    var p1 := WriteRequest(MakeTxDir(p, a.tx), a);
    assert Untouched(p, p1, tx);
    StageAllKeepsOthers(p1, a, a.order, tx);
    ViewKeepsOthers(StageAll(p1, a, a.order), a, tx);
  }

  lemma ViewKeepsOthers(p: Proc, a: Args, tx: TxId)
    requires tx != a.tx && tx in p.d.txs
    ensures Untouched(p, PublishView(WriteEvents(p, a), a), tx)
  {
  }

  lemma PublishKeepsOthers(p: Proc, a: Args, parent: Pointer, tx: TxId)
    requires tx != a.tx && tx in p.d.txs
    ensures Untouched(p, Publish(p, a, parent), tx)
  {
  }

  lemma QuarantineKeepsOthers(p: Proc, own: TxId, k: Key, tx: TxId)
    requires own in p.d.txs && tx != own && tx in p.d.txs
    ensures Untouched(p, Quarantine(p, own, k), tx)
  {
  }

  /** A commit touches no other transaction's directory. */
  lemma CommitKeepsOthers(d: Dir, a: Args, life: nat, max: nat, tx: TxId)
    requires tx != a.tx && tx in d.txs
    ensures var e := CommitOp(d, a, life, max).0;
      tx in e.txs && e.txs[tx] == d.txs[tx]
  {
    var p := Proc(d, life, Live);
    if HasRequest(d, a.tx) {
      QuarantineKeepsOthers(p, a.tx, KeyOf(a), tx);
    }
    var q := if HasRequest(d, a.tx) then Quarantine(p, a.tx, KeyOf(a)) else p;
    StageKeepsOthers(q, a, tx);
    PublishKeepsOthers(Stage(q, a), a, d.head, tx);
  }

  /** The transaction's result file holds this result, under the request that was made. */
  ghost predicate Recorded(d: Dir, tx: TxId, c: Content, r: Result) {
    tx in d.txs && d.txs[tx].request.Some? && d.txs[tx].request.value.digest == ShaOf(c) && d.txs[tx].result == Some(r)
  }

  /** A commit that returns, whether it wrote everything anew, linked what an earlier call had
      published or found itself in the history, has left its result on disk: its revision is the
      one after the expected one, and the HEAD it names is that commit. */
  lemma ResultIsRecorded(d: Dir, a: Args, life: nat, max: nat)
    requires Valid(d) && OrderOk(a) && CommitOp(d, a, life, max).1.Committed?
    ensures var (e, o) := CommitOp(d, a, life, max);
      && Recorded(e, a.tx, a.content, o.result)
      && o.result.revision == a.content.expected + 1 && o.result.tx == a.tx
      && o.result.head == Commit(a.content.expected + 1, a.tx)
  {
    CommitReports(d, a, life, max);
    CommitWrites(d, a, life, max);
  }

  /** What the answer says: `idempotent` exactly when the transaction was in the history before the
      call; and, unless a result was there already, `recovered` exactly when its journal was. */
  lemma AnswerIsLabelled(d: Dir, a: Args, life: nat, max: nat)
    requires Valid(d) && OrderOk(a) && CommitOp(d, a, life, max).1.Committed?
    ensures var o := CommitOp(d, a, life, max).1;
      && (o.idempotent <==> KeyOf(a) in History(d, d.head))
      && (!(a.tx in d.txs && d.txs[a.tx].result.Some?) ==> (o.result.recovered <==> KeyOf(a) in d.journals))
  {
    HistoryShape(d, d.head);
    if KeyOf(a) in d.journals {
      assert JournalOk(d, KeyOf(a));
    }
    if HasRequest(d, a.tx) {
      if d.txs[a.tx].result.Some? {
        ReportsRecorded(d, a);
      } else {
        ReachableExact(d, d.head, a.tx, max, None);
        var found := Reachable(d, d.head, a.tx, max, None);
        if found.At? {
          ReportsFound(d, a, life, Key(Rev(found.pointer), a.tx));
        }
      }
    }
  }

  lemma CommitWrites(d: Dir, a: Args, life: nat, max: nat)
    requires Valid(d) && OrderOk(a) && CommitOp(d, a, life, max).1.Committed?
    requires HasRequest(CommitOp(d, a, life, max).0, a.tx)
    ensures CommitOp(d, a, life, max).0.txs[a.tx].result == Some(CommitOp(d, a, life, max).1.result)
  {
    var p, k := Proc(d, life, Live), KeyOf(a);
    if HasRequest(d, a.tx) && d.txs[a.tx].result.None? {
      var found := Reachable(d, d.head, a.tx, max, None);
      if found.At? {
        ResultStands(p, Key(Rev(found.pointer), a.tx), true);
      } else {
        ResultStands(PublishHead(p, k), k, true);
      }
    }
    var q := if HasRequest(d, a.tx) then Quarantine(p, a.tx, k) else p;
    ResultStands(PublishHead(PublishJournal(Stage(q, a), a, d.head), k), k, false);
  }

  lemma ResultStands(p: Proc, k: Key, recovered: bool)
    ensures var q := WriteResult(p, k, recovered);
      q.status == Live && k.tx in q.d.txs ==> q.d.txs[k.tx].result == Some(ResultFor(k, recovered))
  {
  }

  /** A recorded result stays, whatever is committed, replayed or interrupted. */
  lemma {:induction false} RecordedStays(d: Dir, cmds: seq<Command>, tx: TxId, c: Content, r: Result)
    requires Recorded(d, tx, c, r)
    ensures Recorded(Exec(d, cmds), tx, c, r)
  {
    if cmds != [] {
      var n := |cmds| - 1;
      RecordedStays(d, cmds[..n], tx, c, r);
      if cmds[n].args.tx != tx {
        CommitKeepsOthers(Exec(d, cmds[..n]), cmds[n].args, cmds[n].life, cmds[n].max, tx);
      }
    }
  }

  /** Once a commit has returned, the same content is answered with the same result for good: after
      any run, by a writer with any life, however long the history and whatever its traversal
      limit, and nothing is written. */
  lemma AnsweredForGood(d: Dir, a: Args, life: nat, max: nat, more: seq<Command>, b: Args, again: nat, limit: nat)
    requires Valid(d) && OrderOk(a) && CommitOp(d, a, life, max).1.Committed?
    requires b.tx == a.tx && b.content == a.content
    ensures var (e, o) := CommitOp(d, a, life, max);
      CommitOp(Exec(e, more), b, again, limit) == (Exec(e, more), Committed(o.result, true))
  {
    ResultIsRecorded(d, a, life, max);
    var (e, o) := CommitOp(d, a, life, max);
    RecordedStays(e, more, a.tx, a.content, o.result);
  }

  /** Exactly once, over whole runs from an empty store: after a commit that returned, at any later
      point, the transaction stands in the history with the content that was asked for; another
      commit of its id writes nothing, and returns, with the same result, if and only if it asks
      for the same content; with any other it is a conflict. */
  lemma CommittedOnce(cmds: seq<Command>, a: Args, life: nat, max: nat, more: seq<Command>, b: Args, again: nat, limit: nat)
    requires CommandsOk(cmds) && CommandsOk(more) && OrderOk(a) && a.tx == b.tx
    requires CommitOp(Exec(EmptyDir, cmds), a, life, max).1.Committed?
    ensures var (e, o) := CommitOp(Exec(EmptyDir, cmds), a, life, max);
      var f := Exec(e, more);
      && CommittedAs(f, KeyOf(a), a.content)
      && CommitOp(f, b, again, limit) ==
           (f, if b.content == a.content then Committed(o.result, true) else Failed(StoreConflict))
  {
    EmptyIsValid();
    RunKeepsSafe(EmptyDir, cmds);
    var d := Exec(EmptyDir, cmds);
    var (e, o) := CommitOp(d, a, life, max);
    CommitKeepsSafe(d, a, life, max);
    CommitReports(d, a, life, max);
    ResultIsRecorded(d, a, life, max);
    RunKeepsSafe(e, more);
    RecordedStays(e, more, a.tx, a.content, o.result);
    HistoryRecords(Exec(e, more), KeyOf(a), a.content);
    RecordedAnswers(Exec(e, more), b, again, limit, a.content, o.result);
  }

  lemma RecordedAnswers(d: Dir, b: Args, life: nat, max: nat, c: Content, r: Result)
    requires Recorded(d, b.tx, c, r)
    ensures CommitOp(d, b, life, max) == (d, if b.content == c then Committed(r, true) else Failed(StoreConflict))
  {
  }
}
