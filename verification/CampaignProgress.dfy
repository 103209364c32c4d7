/** When a commit that is given enough time completes, and the two leftovers of a crash that
    stop it. */
module CampaignProgress {
  import opened Common
  import opened CampaignStore
  import opened CampaignHistory
  import opened CampaignCommits
  import opened CampaignExactlyOnce

  /** A live writer whose transaction directory holds exactly the listed documents. */
  ghost predicate Staged(p: Proc, q: Proc, a: Args, order: seq<Doc>) {
    && q.status == Live && q.life == p.life - |order|
    && a.tx in q.d.txs && q.d.views == p.d.views
    && (q.d.txs[a.tx].staged.Some? <==> order != [])
    && (order != [] ==> forall x :: x in q.d.txs[a.tx].staged.value <==> x in order)
  }

  lemma {:induction false} StageAllRuns(p: Proc, a: Args, order: seq<Doc>)
    requires p.status == Live && a.tx in p.d.txs && p.d.txs[a.tx].staged.None? && p.life >= |order|
    requires forall x :: x in order ==> x in a.content.documents
    ensures var q := StageAll(p, a, order);
      if NoClash(order) then Staged(p, q, a, order) else q.status == Raised(PathClash)
    decreases |order|
  {
    if order != [] {
      var n := |order| - 1;
      StageAllRuns(p, a, order[..n]);
      assert order == order[..n] + [order[n]];
      if NoClash(order[..n]) {
        StageOneRuns(p, StageAll(p, a, order[..n]), a, order[..n], order[n]);
      } else {
        var x, y :| x in order[..n] && y in order[..n] && x < y;
        assert x in order && y in order;
      }
    }
  }

  lemma StageOneRuns(p: Proc, q: Proc, a: Args, order: seq<Doc>, doc: Doc)
    requires Staged(p, q, a, order) && q.life > 0 && NoClash(order) && doc in a.content.documents
    ensures var r := StageOne(q, a, doc);
      if NoClash(order + [doc]) then Staged(p, r, a, order + [doc]) else r.status == Raised(PathClash)
  {
    var before := if q.d.txs[a.tx].staged.Some? then q.d.txs[a.tx].staged.value else map[];
    assert forall x :: x in before <==> x in order;
    assert forall x :: x in order + [doc] <==> x in order || x == doc;
    if Clashes(before, doc) {
      var x :| x in before && (x < doc || doc < x);
      assert x in order + [doc] && doc in order + [doc];
    }
  }

  /** From an unused transaction directory, a commit runs to its end unless two paths clash,
      nothing is staged or an old view is in the way. */
  lemma FreshRuns(p: Proc, a: Args, parent: Pointer)
    requires p.status == Live && a.tx !in p.d.txs && OrderOk(a) && p.life >= |a.order| + 7
    ensures Publish(Stage(p, a), a, parent).status ==
      if !Compatible(a.content.documents) then Raised(PathClash)
      else if a.order == [] || KeyOf(a) in p.d.views then Raised(RenameFailed) else Live
  {
    var p1 := WriteRequest(MakeTxDir(p, a.tx), a);
    StageAllRuns(p1, a, a.order);
    assert NoClash(a.order) <==> Compatible(a.content.documents);
    if NoClash(a.order) {
      StagedRuns(p1, StageAll(p1, a, a.order), a, parent);
    } else {
      RaisedStays(StageAll(p1, a, a.order), a, parent);
    }
  }

  lemma StagedRuns(p: Proc, q: Proc, a: Args, parent: Pointer)
    requires Staged(p, q, a, a.order) && q.life >= 5
    ensures Publish(PublishView(WriteEvents(q, a), a), a, parent).status ==
      if a.order == [] || KeyOf(a) in p.d.views then Raised(RenameFailed) else Live
  {
    var q1 := WriteEvents(q, a);
    assert q1.status == Live && q1.d.views == p.d.views && q1.life >= 4;
  }

  lemma RaisedStays(q: Proc, a: Args, parent: Pointer)
    requires q.status.Raised?
    ensures Publish(PublishView(WriteEvents(q, a), a), a, parent).status == q.status
  {
  }

  /** A transaction that left no directory and no view, or a request with the same content. */
  predicate Startable(d: Dir, a: Args) {
    HasRequest(d, a.tx) || (a.tx !in d.txs && KeyOf(a) !in d.views)
  }

  /** A replay searches the history first: it must be within the limit, with every journal of it
      readable. */
  ghost predicate Replayable(d: Dir, a: Args, max: nat) {
    HasRequest(d, a.tx) ==> Rev(d.head) < max && AllFit(d, History(d, d.head))
  }

  /** Given enough time, a transaction whose expected revision is HEAD's and whose content is the
      one first asked for is committed exactly when no crash left its directory without a request
      or its view without a directory, a replay can search the history, and either it stages a
      document and no two of its paths clash, or its journal and view are already published. */
  lemma CompletesExactlyWhen(d: Dir, a: Args, life: nat, max: nat)
    requires Valid(d) && OrderOk(a) && Rev(d.head) == a.content.expected
    requires HasRequest(d, a.tx) ==> d.txs[a.tx].request.value.digest == ShaOf(a.content)
    requires life >= |a.order| + 11
    ensures CommitOp(d, a, life, max).1.Committed? <==>
      && Startable(d, a) && Replayable(d, a, max)
      && ((a.order != [] && Compatible(a.content.documents)) || (KeyOf(a) in d.journals && KeyOf(a) in d.views))
  {
    var p := Proc(d, life, Live);
    NotYetCommitted(d, a);
    if HasRequest(d, a.tx) {
      ReplaySearches(d, a, max);
      if !(KeyOf(a) in d.journals && KeyOf(a) in d.views) {
        QuarantineRuns(p, a.tx, KeyOf(a));
        FreshRuns(Quarantine(p, a.tx, KeyOf(a)), a, d.head);
      }
    } else {
      if KeyOf(a) in d.journals {
        JournalOfRequest(d, a, KeyOf(a));
        assert false;
      }
      if a.tx !in d.txs {
        FreshRuns(p, a, d.head);
      } else {
        StuckRaises(p, a, d.head);
      }
    }
  }

  /** What the search of a replay answers for a transaction that the history does not have. */
  lemma ReplaySearches(d: Dir, a: Args, max: nat)
    requires Valid(d) && HasRequest(d, a.tx) && forall k :: k in History(d, d.head) ==> k.tx != a.tx
    ensures Reachable(d, d.head, a.tx, max, None) == if Replayable(d, a, max) then Missing else OverLimit
  {
    HistoryShape(d, d.head);
    ReachableExact(d, d.head, a.tx, max, None);
    var h := History(d, d.head);
    assert Walkable(d, h, |h|, None) <==> AllFit(d, h);
  }

  lemma QuarantineRuns(p: Proc, tx: TxId, k: Key)
    requires p.status == Live && tx in p.d.txs && p.life >= 4
    ensures var q := Quarantine(p, tx, k);
      q.status == Live && q.life >= p.life - 4 && tx !in q.d.txs && k !in q.d.views
  {
    var p1 := MoveTxDir(p, tx);
    assert p1.status == Live && p1.d.orphans != [];
    var p2 := MoveView(p1, k);
    assert p2.status == Live && k !in p2.d.views && p2.d.orphans != [] && p2.life >= p.life - 2;
  }

  /** With HEAD still at the expected revision, the transaction is not in the history. */
  lemma NotYetCommitted(d: Dir, a: Args)
    requires Valid(d) && Rev(d.head) == a.content.expected
    requires HasRequest(d, a.tx) ==> d.txs[a.tx].request.value.digest == ShaOf(a.content)
    ensures |History(d, d.head)| == Rev(d.head)
    ensures forall k :: k in History(d, d.head) ==> k.tx != a.tx
    ensures HasRequest(d, a.tx) ==> d.txs[a.tx].result.None?
  {
    HistoryShape(d, d.head);
    forall k | k in History(d, d.head) ensures k.tx != a.tx {
      if k.tx == a.tx {
        JournalOfRequest(d, a, k);
        assert false;
      }
    }
    if HasRequest(d, a.tx) {
      assert ResultOk(d, a.tx);
    }
  }

  /** A commit is a conflict exactly when the id was used for other content, or when HEAD is not at
      the expected revision and the transaction has no recorded result and, searched to its end,
      the history does not have it. A conflict changes nothing. */
  lemma CommitConflictsExactly(d: Dir, a: Args, life: nat, max: nat)
    requires Valid(d) && OrderOk(a)
    ensures var (e, o) := CommitOp(d, a, life, max);
      var used := a.tx in d.txs && d.txs[a.tx].request.Some?;
      && (o == Failed(StoreConflict) <==>
            if used && d.txs[a.tx].request.value.digest != ShaOf(a.content) then true
            else
              && Rev(d.head) != a.content.expected
              && (used ==> d.txs[a.tx].result.None? && Replayable(d, a, max) &&
                           forall k :: k in History(d, d.head) ==> k.tx != a.tx))
      && (o == Failed(StoreConflict) ==> e == d)
  {
    HistoryShape(d, d.head);
    if HasRequest(d, a.tx) {
      ReachableExact(d, d.head, a.tx, max, None);
      var h := History(d, d.head);
      assert Walkable(d, h, |h|, None) <==> AllFit(d, h);
    }
    if Rev(d.head) == a.content.expected {
      WritesNoConflict(d, a, life);
    }
  }

  /** Writing fails, if at all, for another reason. */
  lemma WritesNoConflict(d: Dir, a: Args, life: nat)
    requires Rev(d.head) == a.content.expected
    ensures Unrecorded(d, a, life).1 != Failed(StoreConflict)
  {
    var p := Proc(d, life, Live);
    var q := if HasRequest(d, a.tx) then Quarantine(p, a.tx, KeyOf(a)) else p;
    assert q.status == Live || q.status == Died;
    StageAllNoConflict(WriteRequest(MakeTxDir(q, a.tx), a), a, a.order);
    PublishNoConflict(StageAll(WriteRequest(MakeTxDir(q, a.tx), a), a, a.order), a, d.head);
  }

  lemma PublishNoConflict(p: Proc, a: Args, parent: Pointer)
    requires p.status != Raised(StoreConflict)
    ensures Publish(PublishView(WriteEvents(p, a), a), a, parent).status != Raised(StoreConflict)
  {
  }

  lemma {:induction false} StageAllNoConflict(p: Proc, a: Args, order: seq<Doc>)
    requires p.status != Raised(StoreConflict)
    ensures StageAll(p, a, order).status != Raised(StoreConflict)
    decreases |order|
  {
    if order != [] {
      StageAllNoConflict(p, a, order[..|order| - 1]);
    }
  }

  /** What a commit that wrote everything anew has left: its directory with request, events and
      result, its view, its journal on top of the HEAD it found, and HEAD on its journal; every other
      transaction, view and journal as it was. */
  lemma FreshCommitLeaves(d: Dir, a: Args, life: nat, max: nat)
    requires Valid(d) && OrderOk(a) && CommitOp(d, a, life, max).1.Committed?
    requires KeyOf(a) !in d.journals && !(a.tx in d.txs && d.txs[a.tx].result.Some?)
    ensures Written(d, a, CommitOp(d, a, life, max).0, CommitOp(d, a, life, max).1.result)
  {
    var p := Proc(d, life, Live);
    var q := if HasRequest(d, a.tx) then Quarantine(p, a.tx, KeyOf(a)) else p;
    FreshCommitIs(d, a, life, max);
    FreshBegins(d, a, life);
    FreshEnds(d, q, a);
  }

  ghost predicate Written(d: Dir, a: Args, e: Dir, r: Result) {
    var k, c := Key(a.content.expected + 1, a.tx), a.content;
    && e.txs == d.txs[a.tx := TxDir(Some(Request(ShaOf(c), c.expected)), None, Some(c.events), Some(r))]
    && e.views == d.views[k := c.documents] && e.head == Commit(c.expected + 1, a.tx)
    && e.journals == d.journals[k := Journal(c.expected + 1, a.tx, d.head, c.events,
                                             map x | x in c.documents :: Sha(c.documents[x]), ShaOf(c), a.fileBytes,
                                             a.itemBytes)]
  }

  /** It is the path of a fresh commit. */
  lemma FreshCommitIs(d: Dir, a: Args, life: nat, max: nat)
    requires Valid(d) && OrderOk(a) && CommitOp(d, a, life, max).1.Committed?
    requires KeyOf(a) !in d.journals && !(a.tx in d.txs && d.txs[a.tx].result.Some?)
    ensures var p := Proc(d, life, Live);
      var q := if HasRequest(d, a.tx) then Quarantine(p, a.tx, KeyOf(a)) else p;
      var r := Publish(Stage(q, a), a, d.head);
      && r.status == Live && CommitOp(d, a, life, max) == (r.d, Committed(ResultFor(KeyOf(a), false), false))
    ensures HasRequest(d, a.tx) ==> d.txs[a.tx].request.value.digest == ShaOf(a.content)
  {
    if HasRequest(d, a.tx) {
      ReachableExact(d, d.head, a.tx, max, None);
      HistoryShape(d, d.head);
      var found := Reachable(d, d.head, a.tx, max, None);
      if found.At? {
        JournalOfRequest(d, a, Key(Rev(found.pointer), a.tx));
        assert false;
      }
    }
  }

  /** What an earlier call left is out of the way, and nothing else has changed. */
  lemma FreshBegins(d: Dir, a: Args, life: nat)
    requires Valid(d) && OrderOk(a) && KeyOf(a) !in d.journals
    requires HasRequest(d, a.tx) ==> d.txs[a.tx].request.value.digest == ShaOf(a.content)
    ensures var p := Proc(d, life, Live);
      var q := if HasRequest(d, a.tx) then Quarantine(p, a.tx, KeyOf(a)) else p;
      && Unpublished(q.d, a.tx) && TxsOk(q.d) && q.d.head == d.head && q.d.journals == d.journals
      && q.d.txs - {a.tx} == d.txs - {a.tx} && q.d.views - {KeyOf(a)} == d.views - {KeyOf(a)}
  {
    NothingPublished(d, a);
    var p := Proc(d, life, Live);
    if HasRequest(d, a.tx) {
      var p1 := MoveTxDir(p, a.tx);
      assert p1.d.txs - {a.tx} == d.txs - {a.tx};
      var p2 := MoveView(p1, KeyOf(a));
      assert p2.d.views - {KeyOf(a)} == d.views - {KeyOf(a)};
      assert MoveJournal(p2, KeyOf(a)) == p2;
    }
  }

  lemma FreshEnds(d: Dir, q: Proc, a: Args)
    requires Unpublished(q.d, a.tx) && TxsOk(q.d) && OrderOk(a) && q.d.head == d.head && q.d.journals == d.journals
    requires q.d.txs - {a.tx} == d.txs - {a.tx} && q.d.views - {KeyOf(a)} == d.views - {KeyOf(a)}
    requires Publish(Stage(q, a), a, d.head).status == Live
    ensures Written(d, a, Publish(Stage(q, a), a, d.head).d, ResultFor(KeyOf(a), false))
  {
    if Stage(q, a).status != Live {
      assert false;
    }
    StageLeaves(q, a);
    PublishLeaves(Stage(q, a), a, d.head);
    SameBut(q.d.txs, d.txs, a.tx, Publish(Stage(q, a), a, d.head).d.txs[a.tx]);
    SameBut(q.d.views, d.views, KeyOf(a), a.content.documents);
  }

  lemma SameBut<K, V>(m: map<K, V>, n: map<K, V>, k: K, v: V)
    requires m - {k} == n - {k}
    ensures m[k := v] == n[k := v]
  {
    forall x | x in m && x != k ensures x in n && n[x] == m[x] {
      assert x in m - {k};
    }
    forall x | x in n && x != k ensures x in m && m[x] == n[x] {
      assert x in n - {k};
    }
  }

  lemma {:induction false} StageAllLeaves(p: Proc, a: Args, order: seq<Doc>)
    requires a.tx in p.d.txs && StageAll(p, a, order).status == Live
    ensures var q := StageAll(p, a, order);
      && q.d.head == p.d.head && q.d.views == p.d.views && q.d.journals == p.d.journals && a.tx in q.d.txs
      && q.d.txs == p.d.txs[a.tx := p.d.txs[a.tx].(staged := q.d.txs[a.tx].staged)]
    decreases |order|
  {
    if order != [] {
      StageAllLeaves(p, a, order[..|order| - 1]);
    }
  }

  lemma StageLeaves(p: Proc, a: Args)
    requires TxsOk(p.d) && OrderOk(a) && Unpublished(p.d, a.tx) && Stage(p, a).status == Live
    ensures var q := Stage(p, a);
      && a.tx !in p.d.txs
      && q.d.txs == p.d.txs[a.tx := TxDir(Some(Request(ShaOf(a.content), a.content.expected)), None,
                                          Some(a.content.events), None)]
      && q.d.views == p.d.views[KeyOf(a) := a.content.documents]
      && q.d.journals == p.d.journals && q.d.head == p.d.head
  {
    StageKeeps(p, a);
    var p1 := WriteRequest(MakeTxDir(p, a.tx), a);
    var p2 := StageAll(p1, a, a.order);
    if p2.status != Live {
      DeadStays(p2, a);
    }
    if p1.status != Live {
      StageAllStopped(p1, a, a.order);
    }
    StageAllLeaves(p1, a, a.order);
  }

  lemma DeadStays(q: Proc, a: Args)
    requires q.status != Live
    ensures PublishView(WriteEvents(q, a), a).status != Live
  {
  }

  lemma PublishLeaves(p: Proc, a: Args, parent: Pointer)
    requires Publish(p, a, parent).status == Live && a.tx in p.d.txs
    ensures var q, k := Publish(p, a, parent), KeyOf(a);
      && q.d.txs == p.d.txs[a.tx := p.d.txs[a.tx].(
                              result := Some(Result(k.revision, a.tx, Commit(k.revision, a.tx), false)))]
      && q.d.views == p.d.views && q.d.head == Commit(k.revision, a.tx)
      && q.d.journals == p.d.journals[k := JournalFor(a, parent)]
  {
  }

  /** No run commits a transaction two of whose paths clash. */
  lemma ClashNeverCommits(cmds: seq<Command>, a: Args, life: nat, max: nat)
    requires CommandsOk(cmds) && OrderOk(a) && !Compatible(a.content.documents)
    ensures !CommitOp(Exec(EmptyDir, cmds), a, life, max).1.Committed?
  {
    EmptyIsValid();
    RunKeepsSafe(EmptyDir, cmds);
    var d := Exec(EmptyDir, cmds);
    if CommitOp(d, a, life, max).1.Committed? {
      CommitKeepsSafe(d, a, life, max);
      CommitReports(d, a, life, max);
      var e := CommitOp(d, a, life, max).0;
      HistoryRecords(e, KeyOf(a), a.content);
      CommittedIsCompatible(e, KeyOf(a));
      assert false;
    }
  }

  lemma CommittedIsCompatible(d: Dir, k: Key)
    requires Valid(d) && k in History(d, d.head) && k in d.views
    ensures Compatible(d.views[k])
  {
    HistoryShape(d, d.head);
    assert JournalOk(d, k);
  }

  lemma StuckRaises(p: Proc, a: Args, parent: Pointer)
    requires p.status == Live && a.tx in p.d.txs
    ensures Publish(Stage(p, a), a, parent).status == Raised(DirectoryExists)
  {
    StageAllStopped(Raise(p, DirectoryExists), a, a.order);
    StageAllStopped(WriteRequest(MakeTxDir(p, a.tx), a), a, a.order);
  }
}
