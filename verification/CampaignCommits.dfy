/** What every commit, replay and crash keeps, and what a commit that returns has done. */
module CampaignCommits {
  import opened Common
  import opened CampaignStore
  import opened CampaignHistory

  /** A process may go from one directory to another: both are valid and nothing committed
      was lost. */
  ghost predicate Safe(d: Dir, e: Dir) {
    Valid(e) && Grows(d, e)
  }

  ghost predicate TxsOk(d: Dir) {
    forall t :: t in d.txs ==> TxOk(d.txs[t])
  }

  /** A transaction none of whose journals is published. */
  ghost predicate Unpublished(d: Dir, tx: TxId) {
    forall k :: k in d.journals ==> k.tx != tx
  }

  /** A change to one unpublished transaction directory. */
  lemma SetTxSideways(d: Dir, tx: TxId, t: TxDir)
    requires TxsOk(d) && Unpublished(d, tx) && TxOk(t)
    requires t.result.Some? ==> tx in d.txs && d.txs[tx].result == t.result
    ensures Sideways(d, SetTx(d, tx, t))
  {
  }

  // ------------------------------------------------------------------ quarantine

  lemma QuarantineKeeps(p: Proc, tx: TxId, k: Key)
    requires TxsOk(p.d) && tx in p.d.txs && Unpublished(p.d, tx) && k.tx == tx && p.status == Live
    ensures var q := Quarantine(p, tx, k);
      && Sideways(p.d, q.d)
      && (q.status == Live ==> tx !in q.d.txs && k !in q.d.views)
  {
    var p1 := MoveTxDir(p, tx);
    assert Sideways(p.d, p1.d);
    var p2 := MoveView(p1, k);
    assert Sideways(p1.d, p2.d);
    SidewaysTransitive(p.d, p1.d, p2.d);
    assert MoveJournal(p2, k) == p2;
    var p3 := NoteOrphan(p2);
    assert Sideways(p2.d, p3.d);
    SidewaysTransitive(p.d, p2.d, p3.d);
  }

  /** A file is where it was, or in the orphan. */
  predicate Kept<T(==)>(before: Option<T>, after: Option<T>, orphan: Option<T>) {
    before.Some? ==> after == before || (after.None? && orphan == before)
  }

  function ViewAt(d: Dir, k: Key): Option<View> {
    if k in d.views then Some(d.views[k]) else None
  }

  function JournalAt(d: Dir, k: Key): Option<Journal> {
    if k in d.journals then Some(d.journals[k]) else None
  }

  /** Wherever it stops, the quarantine has lost nothing: it has not begun, or one orphan more holds
      the transaction's directory, and its view and journal are where they were or in there. Run to
      its end it has moved all of them and left a note. */
  lemma QuarantineLosesNothing(p: Proc, tx: TxId, k: Key)
    requires tx in p.d.txs && p.status == Live
    ensures var q := Quarantine(p, tx, k);
      && (q.d == p.d || (
            && q.d.txs == p.d.txs - {tx} && q.d.head == p.d.head
            && |q.d.orphans| == |p.d.orphans| + 1 && q.d.orphans[..|p.d.orphans|] == p.d.orphans
            && LastOrphan(q.d).tx == tx && LastOrphan(q.d).dir == p.d.txs[tx]
            && Kept(ViewAt(p.d, k), ViewAt(q.d, k), LastOrphan(q.d).view)
            && Kept(JournalAt(p.d, k), JournalAt(q.d, k), LastOrphan(q.d).journal)))
      && (p.life >= 4 ==> q.status == Live && q.d != p.d && LastOrphan(q.d).noted && k !in q.d.views && k !in q.d.journals)
  {
    var p1 := MoveTxDir(p, tx);
    var p2 := MoveView(p1, k);
    var p3 := MoveJournal(p2, k);
    if p.life > 0 {
      assert p1.d.orphans[..|p.d.orphans|] == p.d.orphans;
      assert p2.d.orphans[..|p.d.orphans|] == p.d.orphans;
      assert p3.d.orphans[..|p.d.orphans|] == p.d.orphans;
      assert Quarantine(p, tx, k).d.orphans[..|p.d.orphans|] == p.d.orphans;
    }
  }

  // ------------------------------------------------------------------ staging

  /** The writer's own transaction directory while it stages. */
  ghost predicate Staging(d: Dir, a: Args, upto: seq<Doc>) {
    && Unpublished(d, a.tx) && a.tx in d.txs
    && d.txs[a.tx].result.None?
    && d.txs[a.tx].request == Some(Request(ShaOf(a.content), a.content.expected))
    && (d.txs[a.tx].staged.Some? <==> upto != [])
    && (upto != [] ==> Holds(d.txs[a.tx].staged.value, a.content.documents, upto))
    && NoClash(upto)
  }

  /** No path of the list is needed both as a file and as a directory. */
  ghost predicate NoClash(order: seq<Doc>) {
    forall x, y :: x in order && y in order ==> !(x < y)
  }

  /** A view holding exactly the listed documents. */
  ghost predicate Holds(v: View, documents: View, upto: seq<Doc>) {
    && (forall x :: x in v <==> x in upto)
    && (forall x :: x in upto ==> x in documents && v[x] == documents[x])
  }

  lemma {:induction false} StageAllKeeps(p: Proc, a: Args, order: seq<Doc>)
    requires TxsOk(p.d) && (p.status == Live ==> Staging(p.d, a, []))
    requires forall x :: x in order ==> x in a.content.documents
    ensures var q := StageAll(p, a, order);
      Sideways(p.d, q.d) && (q.status == Live ==> Staging(q.d, a, order))
  {
    if order != [] {
      var n := |order| - 1;
      StageAllKeeps(p, a, order[..n]);
      assert order == order[..n] + [order[n]];
      var q := StageAll(p, a, order[..n]);
      StageOneKeeps(q, a, order[..n], order[n]);
      SidewaysTransitive(p.d, q.d, StageOne(q, a, order[n]).d);
    }
  }

  lemma StageOneKeeps(p: Proc, a: Args, upto: seq<Doc>, doc: Doc)
    requires TxsOk(p.d) && (p.status == Live ==> Staging(p.d, a, upto)) && doc in a.content.documents
    ensures var q := StageOne(p, a, doc);
      Sideways(p.d, q.d) && (q.status == Live ==> Staging(q.d, a, upto + [doc]))
  {
    if p.status == Live {
      var t := p.d.txs[a.tx];
      var before := if t.staged.Some? then t.staged.value else map[];
      if !Clashes(before, doc) {
        assert forall x :: x in before <==> x in upto;
        SetTxSideways(p.d, a.tx, t.(staged := Some(before[doc := a.content.documents[doc]])));
      }
    }
  }

  /** A published view, about to be journaled. */
  ghost predicate ReadyToJournal(d: Dir, a: Args) {
    && Unpublished(d, a.tx) && a.tx in d.txs
    && d.txs[a.tx].request == Some(Request(ShaOf(a.content), a.content.expected))
    && KeyOf(a) in d.views && d.views[KeyOf(a)] == a.content.documents && Compatible(a.content.documents)
  }

  lemma PublishViewKeeps(p: Proc, a: Args)
    requires TxsOk(p.d) && OrderOk(a) && (p.status == Live ==> Staging(p.d, a, a.order))
    ensures var q := PublishView(WriteEvents(p, a), a);
      Sideways(p.d, q.d) && (q.status == Live ==> ReadyToJournal(q.d, a))
  {
    if p.status == Live {
      var t := p.d.txs[a.tx].(eventsFile := Some(a.content.events));
      SetTxSideways(p.d, a.tx, t);
      var p1 := WriteEvents(p, a);
      if p1.status == Live && t.staged.Some? && KeyOf(a) !in p1.d.views {
        assert t.staged.value == a.content.documents;
        var e := SetTx(p1.d, a.tx, t.(staged := None));
        SetTxSideways(p1.d, a.tx, t.(staged := None));
        SidewaysTransitive(p.d, p1.d, e);
        SidewaysTransitive(p.d, e, e.(views := e.views[KeyOf(a) := t.staged.value]));
      }
    }
  }

  lemma StageKeeps(p: Proc, a: Args)
    requires TxsOk(p.d) && OrderOk(a) && Unpublished(p.d, a.tx)
    ensures var q := Stage(p, a);
      Sideways(p.d, q.d) && (q.status == Live ==> p.status == Live && ReadyToJournal(q.d, a))
  {
    var p1 := WriteRequest(MakeTxDir(p, a.tx), a);
    StageAllKeeps(p1, a, a.order);
    var p2 := StageAll(p1, a, a.order);
    SidewaysTransitive(p.d, p1.d, p2.d);
    PublishViewKeeps(p2, a);
    SidewaysTransitive(p.d, p2.d, Stage(p, a).d);
    if p.status != Live {
      StageAllStopped(p, a, a.order);
    }
  }

  lemma {:induction false} StageAllStopped(p: Proc, a: Args, order: seq<Doc>)
    requires p.status != Live
    ensures StageAll(p, a, order) == p
  {
    if order != [] {
      StageAllStopped(p, a, order[..|order| - 1]);
    }
  }

  // ------------------------------------------------------------------ publication

  lemma JournalKeeps(d: Dir, a: Args)
    requires Valid(d) && ReadyToJournal(d, a) && Rev(d.head) == a.content.expected
    ensures var e := d.(journals := d.journals[KeyOf(a) := JournalFor(a, d.head)]);
      Safe(d, e) && History(e, e.head) == History(d, d.head)
  {
    var e := d.(journals := d.journals[KeyOf(a) := JournalFor(a, d.head)]);
    HistoryShape(d, d.head);
    HistoryFrame(d, e, d.head);
    forall k | k in e.journals ensures JournalOk(e, k) {
      if k != KeyOf(a) {
        assert JournalOk(d, k);
      }
    }
    forall t | t in e.txs ensures ResultOk(e, t) {
      assert ResultOk(d, t);
    }
  }

  /** Publishing HEAD links a journal whose recorded parent is the HEAD it replaces. */
  lemma HeadKeeps(d: Dir, k: Key)
    requires Valid(d) && k in d.journals && k.revision == Rev(d.head) + 1
    ensures d.journals[k].parent == d.head
    ensures var e := d.(head := PointerTo(k));
      Safe(d, e) && History(e, e.head) == [k] + History(d, d.head)
  {
    var e := d.(head := PointerTo(k));
    assert JournalOk(d, k);
    HistoryShape(d, d.head);
    HistoryFrame(d, e, d.head);
    assert History(e, e.head) == [k] + History(d, d.head);
    forall l | l in e.journals ensures JournalOk(e, l) {
      assert JournalOk(d, l);
    }
    forall t | t in e.txs ensures ResultOk(e, t) {
      assert ResultOk(d, t);
    }
  }

  lemma ResultKeeps(p: Proc, k: Key, recovered: bool)
    requires Valid(p.d) && k in History(p.d, p.d.head)
    ensures Safe(p.d, WriteResult(p, k, recovered).d)
    ensures History(WriteResult(p, k, recovered).d, WriteResult(p, k, recovered).d.head) == History(p.d, p.d.head)
  {
    if p.status == Live && p.life > 0 {
      HistoryShape(p.d, p.d.head);
      assert JournalOk(p.d, k);
      ResultWritten(p.d, k, recovered);
    } else {
      GrowsReflexive(p.d);
    }
  }

  lemma ResultWritten(d: Dir, k: Key, recovered: bool)
    requires Valid(d) && k in History(d, d.head) && k in d.journals && JournalOk(d, k)
    ensures var e := SetTx(d, k.tx, d.txs[k.tx].(result := Some(ResultFor(k, recovered))));
      Safe(d, e) && History(e, e.head) == History(d, d.head)
  {
    var e := SetTx(d, k.tx, d.txs[k.tx].(result := Some(ResultFor(k, recovered))));
    HistoryShape(d, d.head);
    HistoryFrame(d, e, d.head);
    forall l | l in e.journals ensures JournalOk(e, l) {
      assert JournalOk(d, l);
    }
    forall t | t in e.txs ensures ResultOk(e, t) {
      assert ResultOk(d, t);
    }
  }

  /** Linking a ready journal: whatever happens, the directory is valid and nothing is lost;
      when it completes, the history is the old one with the commit on top. */
  lemma LinkKeeps(p: Proc, k: Key, recovered: bool)
    requires Valid(p.d) && (p.status == Live ==> k in p.d.journals && k.revision == Rev(p.d.head) + 1)
    ensures var q := WriteResult(PublishHead(p, k), k, recovered);
      Safe(p.d, q.d) && (q.status == Live ==> Linked(p, k, q.d))
  {
    var p1 := PublishHead(p, k);
    var q := WriteResult(p1, k, recovered);
    if p1.status == Live {
      HeadKeeps(p.d, k);
      ResultKeeps(p1, k, recovered);
      GrowsTransitive(p.d, p1.d, q.d);
    } else {
      GrowsReflexive(p.d);
    }
  }

  ghost predicate Linked(p: Proc, k: Key, e: Dir) {
    p.status == Live && e.head == PointerTo(k) && History(e, e.head) == [k] + History(p.d, p.d.head)
  }

  lemma PublishKeeps(p: Proc, a: Args)
    requires Valid(p.d) && (p.status == Live ==> ReadyToJournal(p.d, a) && Rev(p.d.head) == a.content.expected)
    ensures var q := Publish(p, a, p.d.head);
      Safe(p.d, q.d) && (q.status == Live ==> Linked(p, KeyOf(a), q.d))
  {
    var p1 := PublishJournal(p, a, p.d.head);
    if p.status == Live && p.life > 0 {
      JournalKeeps(p.d, a);
    } else {
      GrowsReflexive(p.d);
    }
    LinkKeeps(p1, KeyOf(a), false);
    GrowsTransitive(p.d, p1.d, Publish(p, a, p.d.head).d);
  }
}
