/** The store's history: one linear chain from HEAD, exactly one commit per transaction id, and
    committed snapshots that never change. */
module CampaignHistory {
  import opened Common
  import opened CampaignStore

  function FileBytes(d: Dir, k: Key): nat {
    if k in d.journals then d.journals[k].fileBytes else 0
  }

  /** The journal of a commit can be read back. */
  predicate Fits(d: Dir, k: Key) {
    FileBytes(d, k) <= READ_BYTES
  }

  ghost predicate AllFit(d: Dir, h: seq<Key>) {
    forall k :: k in h ==> Fits(d, k)
  }

  /** The size of the first `i` journals of a list. */
  function JournalBytes(d: Dir, h: seq<Key>, i: nat): nat
    requires i <= |h|
  {
    if i == 0 then 0 else JournalBytes(d, h, i - 1) + FileBytes(d, h[i - 1])
  }

  lemma {:induction false} BytesTail(d: Dir, k: Key, t: seq<Key>, i: nat)
    requires 0 < i <= |t| + 1
    ensures JournalBytes(d, [k] + t, i) == FileBytes(d, k) + JournalBytes(d, t, i - 1)
  {
    if i > 1 {
      BytesTail(d, k, t, i - 1);
      assert ([k] + t)[i - 1] == t[i - 2];
    } else {
      assert ([k] + t)[0] == k;
    }
  }

  lemma {:induction false} BytesGrow(d: Dir, h: seq<Key>, i: nat, j: nat)
    requires i <= j <= |h|
    ensures JournalBytes(d, h, i) <= JournalBytes(d, h, j)
    decreases j
  {
    if i < j {
      BytesGrow(d, h, i, j - 1);
    }
  }

  /** The commits reachable from a pointer, newest first. */
  ghost function History(d: Dir, p: Pointer): seq<Key>
    decreases Rev(p)
  {
    match p
    case Root => []
    case Commit(r, t) =>
      var k := Key(r, t);
      [k] + if k in d.journals && Rev(d.journals[k].parent) < r then History(d, d.journals[k].parent) else []
  }

  /** A pointer at revision n is published and its recorded parent is at revision n - 1, down
      to the empty run. */
  ghost predicate Linear(d: Dir, p: Pointer)
    decreases Rev(p)
  {
    match p
    case Root => true
    case Commit(r, t) =>
      var k := Key(r, t);
      && r >= 1 && k in d.journals && k in d.views
      && Rev(d.journals[k].parent) == r - 1
      && Linear(d, d.journals[k].parent)
  }

  /** No document's path is a directory of another's. */
  ghost predicate Compatible(v: View) {
    forall x, y :: x in v && y in v ==> !(x < y)
  }

  /** A journal is published with its view, by a transaction whose request is still on disk. */
  ghost predicate JournalOk(d: Dir, k: Key)
    requires k in d.journals
  {
    var j := d.journals[k];
    && k.revision >= 1 && j.revision == k.revision && j.tx == k.tx
    && k in d.views && d.views[k] == j.digest.content.documents && Compatible(d.views[k])
    && j.documents == Digests(d.views[k]) && j.events == j.digest.content.events
    && Rev(j.parent) == k.revision - 1
    && k.revision <= Rev(d.head) + 1
    && (k.revision == Rev(d.head) + 1 ==> j.parent == d.head)
    && k.tx in d.txs && d.txs[k.tx].request == Some(Request(j.digest, k.revision - 1))
  }

  /** A recorded result names a commit of the history. */
  ghost predicate ResultOk(d: Dir, tx: TxId)
    requires tx in d.txs
  {
    d.txs[tx].result.Some? ==>
      var k := Key(d.txs[tx].result.value.revision, tx);
      d.txs[tx].result.value == ResultFor(k, d.txs[tx].result.value.recovered) && k in History(d, d.head)
  }

  predicate TxOk(t: TxDir) {
    && (t.request.Some? ==> t.request.value.digest.content.expected == t.request.value.expected)
    && (t.result.Some? ==> t.request.Some?)
  }

  ghost predicate Valid(d: Dir) {
    && Linear(d, d.head)
    && (forall t :: t in d.txs ==> TxOk(d.txs[t]))
    && (forall k :: k in d.journals ==> JournalOk(d, k))
    && (forall t :: t in d.txs ==> ResultOk(d, t))
  }

  lemma {:induction false} HistoryShape(d: Dir, p: Pointer)
    requires Linear(d, p)
    ensures |History(d, p)| == Rev(p)
    ensures forall i :: 0 <= i < |History(d, p)| ==>
      History(d, p)[i].revision == Rev(p) - i && History(d, p)[i] in d.journals && History(d, p)[i] in d.views
    decreases Rev(p)
  {
    if p.Commit? {
      HistoryShape(d, d.journals[Key(p.revision, p.tx)].parent);
    }
  }

  /** The history depends only on the journals and views it names. */
  lemma {:induction false} HistoryFrame(d: Dir, e: Dir, p: Pointer)
    requires Linear(d, p)
    requires forall k :: k in History(d, p) ==>
      k in e.journals && k in d.journals && e.journals[k] == d.journals[k] && k in e.views
    ensures Linear(e, p) && History(e, p) == History(d, p)
    decreases Rev(p)
  {
    if p.Commit? {
      var k := Key(p.revision, p.tx);
      assert k in History(d, p);
      var q := d.journals[k].parent;
      assert forall x :: x in History(d, q) ==> x in History(d, p);
      HistoryFrame(d, e, q);
    }
  }

  /** Nothing committed is lost or changed: the old history is the older end of the new one,
      and its journals and views are what they were. */
  ghost predicate Grows(d: Dir, e: Dir) {
    && |History(d, d.head)| <= |History(e, e.head)|
    && History(e, e.head)[|History(e, e.head)| - |History(d, d.head)|..] == History(d, d.head)
    && (forall k :: k in History(d, d.head) ==>
          k in d.journals && k in e.journals && e.journals[k] == d.journals[k] &&
          k in d.views && k in e.views && e.views[k] == d.views[k])
  }

  lemma GrowsReflexive(d: Dir)
    requires Valid(d)
    ensures Grows(d, d)
  {
    HistoryShape(d, d.head);
  }

  lemma GrowsTransitive(a: Dir, b: Dir, c: Dir)
    requires Grows(a, b) && Grows(b, c)
    ensures Grows(a, c)
  {
    var ha, hb, hc := History(a, a.head), History(b, b.head), History(c, c.head);
    assert hc[|hc| - |ha|..] == hc[|hc| - |hb|..][|hb| - |ha|..];
    forall k | k in ha
      ensures k in a.journals && k in c.journals && c.journals[k] == a.journals[k] &&
              k in a.views && k in c.views && c.views[k] == a.views[k]
    {
      assert k in hb[|hb| - |ha|..];
      assert k in hb;
    }
  }

  /** A change that keeps HEAD and every published journal, and adds or removes only views and
      transaction directories that no journal uses. */
  ghost predicate Sideways(d: Dir, e: Dir) {
    && e.head == d.head && e.journals == d.journals
    && (forall k :: k in d.journals && k in d.views ==> k in e.views && e.views[k] == d.views[k])
    && (forall k :: k in d.journals && k.tx in d.txs ==> k.tx in e.txs && e.txs[k.tx].request == d.txs[k.tx].request)
    && (forall t :: t in e.txs && e.txs[t].result.Some? ==> t in d.txs && e.txs[t].result == d.txs[t].result)
    && (forall t :: t in e.txs ==> TxOk(e.txs[t]))
  }

  lemma SidewaysTransitive(a: Dir, b: Dir, c: Dir)
    requires Sideways(a, b) && Sideways(b, c)
    ensures Sideways(a, c)
  {
  }

  lemma SidewaysKeeps(d: Dir, e: Dir)
    requires Valid(d) && Sideways(d, e)
    ensures Valid(e) && Grows(d, e) && History(e, e.head) == History(d, d.head)
  {
    HistoryShape(d, d.head);
    HistoryFrame(d, e, d.head);
    forall k | k in e.journals ensures JournalOk(e, k) {
      assert JournalOk(d, k);
    }
    forall t | t in e.txs ensures ResultOk(e, t) {
      if e.txs[t].result.Some? {
        assert ResultOk(d, t);
      }
    }
  }

  /** Every journal of a transaction is the one its request names. */
  lemma OneJournalPerTransaction(d: Dir, k: Key, l: Key)
    requires Valid(d) && k in d.journals && l in d.journals && k.tx == l.tx
    ensures k == l
  {
    assert JournalOk(d, k) && JournalOk(d, l);
  }

  /** The pointer to the entry after one, in a list of commits. */
  function Following(h: seq<Key>, i: nat): Pointer {
    if i + 1 < |h| then PointerTo(h[i + 1]) else Root
  }

  /** The history names each transaction at most once, with revisions n down to 1. */
  lemma HistoryIsLinear(d: Dir)
    requires Valid(d)
    ensures |History(d, d.head)| == Rev(d.head)
    ensures forall i :: 0 <= i < Rev(d.head) ==> History(d, d.head)[i].revision == Rev(d.head) - i
    ensures forall i, j :: 0 <= i < j < Rev(d.head) ==> History(d, d.head)[i].tx != History(d, d.head)[j].tx
    ensures forall i :: 0 <= i < Rev(d.head) ==>
      History(d, d.head)[i] in d.journals && History(d, d.head)[i] in d.views
    ensures forall i :: 0 <= i < Rev(d.head) ==>
      d.journals[History(d, d.head)[i]].parent == Following(History(d, d.head), i)
  {
    HistoryShape(d, d.head);
    ParentsFollow(d, d.head);
    forall i, j | 0 <= i < j < Rev(d.head) ensures History(d, d.head)[i].tx != History(d, d.head)[j].tx {
      if History(d, d.head)[i].tx == History(d, d.head)[j].tx {
        OneJournalPerTransaction(d, History(d, d.head)[i], History(d, d.head)[j]);
        assert false;
      }
    }
  }

  lemma {:induction false} ParentsFollow(d: Dir, p: Pointer)
    requires Linear(d, p)
    ensures |History(d, p)| == Rev(p)
    ensures Rev(p) > 0 ==> PointerTo(History(d, p)[0]) == p
    ensures forall i :: 0 <= i < Rev(p) ==>
      History(d, p)[i] in d.journals && d.journals[History(d, p)[i]].parent == Following(History(d, p), i)
    decreases Rev(p)
  {
    HistoryShape(d, p);
    if p.Commit? {
      var k := Key(p.revision, p.tx);
      var q := d.journals[k].parent;
      ParentsFollow(d, q);
      assert History(d, p) == [k] + History(d, q);
      forall i | 0 <= i < Rev(p)
        ensures History(d, p)[i] in d.journals
        ensures d.journals[History(d, p)[i]].parent == Following(History(d, p), i)
      {
        if i > 0 {
          assert History(d, p)[i] == History(d, q)[i - 1];
          assert Following(History(d, p), i) == Following(History(d, q), i - 1);
        } else {
          assert History(d, p)[0] == k && d.journals[k].parent == q;
          assert Linear(d, q);
          if Rev(q) > 0 {
            assert History(d, p)[1] == History(d, q)[0];
          } else {
            assert q.Root?;
          }
        }
      }
    }
  }
}
