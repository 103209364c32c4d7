/** The store's operations, step by step on the files of a run directory. */
module CampaignStoreRun {
  import opened Common
  import opened CampaignStore
  import opened CampaignHistory
  import opened CampaignCommits
  import R = CampaignReaders
  import F = CampaignChanges

  /** A walk with commits already walked before it. */
  function Behind(chain: seq<Key>, w: F.Walked): F.Walked {
    if w.Unreadable? then w else F.Walked(chain + w.chain, w.reached)
  }

  lemma BehindOn(chain: seq<Key>, k: Key, w: F.Walked)
    ensures Behind(chain, F.On(k, w)) == Behind(chain + [k], w)
  {
    if w.Walked? {
      assert chain + ([k] + w.chain) == (chain + [k]) + w.chain;
    }
  }

  class StoreDirectory {
    var head: Pointer
    var journals: map<Key, Journal>
    var views: map<Key, View>
    var txs: map<TxId, TxDir>
    var orphans: seq<Orphan>

    /** The writer: how many more writes it lives for, and whether it still runs. */
    var life: nat
    var status: Status

    ghost function Contents(): Dir
      reads this
    {
      Dir(head, journals, views, txs, orphans)
    }

    ghost function Writer(): Proc
      reads this
    {
      Proc(Contents(), life, status)
    }

    constructor (lives: nat)
      ensures Contents() == EmptyDir && life == lives && status == Live
    {
      head, journals, views, txs, orphans := Root, map[], map[], map[], [];
      life, status := lives, Live;
    }

    /** Whether the next write happens. */
    method Survives() returns (ok: bool)
      modifies this`life, this`status
      ensures ok <==> old(status) == Live && old(life) > 0
      ensures ok ==> status == Live && life == old(life) - 1
      ensures !ok ==> life == old(life) && status == if old(status) == Live then Died else old(status)
    {
      ok := status == Live && life > 0;
      if ok {
        life := life - 1;
      } else if status == Live {
        status := Died;
      }
    }

    /** `_campaign_reachable`. */
    method FindReachable(target: TxId, max: nat, budget: Option<nat>) returns (r: Lookup)
      ensures r == Reachable(Contents(), head, target, max, budget)
    {
      var cursor: Pointer, left: Option<nat>, n: nat := head, budget, max;
      while n > 0
        invariant Reachable(Contents(), cursor, target, n, left) == Reachable(Contents(), head, target, max, budget)
      {
        if cursor.Commit? && cursor.tx == target {
          return At(cursor);
        }
        if cursor.Root? || cursor.revision == 0 || Key(cursor.revision, cursor.tx) !in journals {
          return Missing;
        }
        var journal := journals[Key(cursor.revision, cursor.tx)];
        if left.Some? {
          if journal.fileBytes > left.value {
            return OverLimit;
          }
          left := Some(left.value - journal.fileBytes);
        }
        if journal.fileBytes > READ_BYTES {
          return OverLimit;
        }
        cursor, n := journal.parent, n - 1;
      }
      return OverLimit;
    }

    /** `_campaign_quarantine`. */
    method SetAside(tx: TxId, k: Key)
      requires tx in txs
      modifies this
      ensures Writer() == Quarantine(old(Writer()), tx, k)
    {
      var ok := Survives();
      if ok {
        txs, orphans := txs - {tx}, orphans + [Orphan(tx, txs[tx], None, None, false)];
      }
      SetAsideView(k);
      SetAsideJournal(k);
      if orphans != [] {
        ok := Survives();
        if ok {
          orphans := orphans[|orphans| - 1 := orphans[|orphans| - 1].(noted := true)];
        }
      }
    }

    method SetAsideView(k: Key)
      modifies this
      ensures Writer() == MoveView(old(Writer()), k)
    {
      if orphans != [] && k in views {
        var ok := Survives();
        if ok {
          var last := |orphans| - 1;
          views, orphans := views - {k}, orphans[last := orphans[last].(view := Some(views[k]))];
        }
      }
    }

    method SetAsideJournal(k: Key)
      modifies this
      ensures Writer() == MoveJournal(old(Writer()), k)
    {
      if orphans != [] && k in journals {
        var ok := Survives();
        if ok {
          var last := |orphans| - 1;
          journals, orphans := journals - {k}, orphans[last := orphans[last].(journal := Some(journals[k]))];
        }
      }
    }

    /** The new directory of a transaction and its request. */
    method OpenTransaction(a: Args)
      modifies this
      ensures Writer() == WriteRequest(MakeTxDir(old(Writer()), a.tx), a)
      ensures status == Live ==> a.tx in txs
    {
      if status == Live && a.tx in txs {
        status := Raised(DirectoryExists);
        return;
      }
      var ok := Survives();
      if ok {
        txs := txs[a.tx := EmptyTxDir];
        ok := Survives();
        if ok {
          txs := txs[a.tx := EmptyTxDir.(request := Some(Request(ShaOf(a.content), a.content.expected)))];
        }
      }
    }

    /** The documents, one file at a time, until two paths clash. */
    method StageDocuments(a: Args)
      requires status == Live ==> a.tx in txs
      modifies this
      ensures Writer() == StageAll(old(Writer()), a, a.order)
      ensures status == Live ==> a.tx in txs
    {
      for i := 0 to |a.order|
        invariant Writer() == StageAll(old(Writer()), a, a.order[..i])
        invariant status == Live ==> a.tx in txs
      {
        assert a.order[..i + 1][..i] == a.order[..i];
        var doc := a.order[i];
        if status == Live && doc in a.content.documents {
          var t := txs[a.tx];
          var before := if t.staged.Some? then t.staged.value else map[];
          if Clashes(before, doc) {
            status := Raised(PathClash);
          } else {
            var ok := Survives();
            if ok {
              txs := txs[a.tx := t.(staged := Some(before[doc := a.content.documents[doc]]))];
            }
          }
        }
      }
      assert a.order[..|a.order|] == a.order;
    }

    /** The events file, and the rename that publishes the staged view. */
    method PublishStaged(a: Args)
      requires status == Live ==> a.tx in txs
      modifies this
      ensures Writer() == PublishView(WriteEvents(old(Writer()), a), a)
      ensures status == Live ==> a.tx in txs
    {
      if status != Live {
        return;
      }
      var ok := Survives();
      if !ok {
        return;
      }
      txs := txs[a.tx := txs[a.tx].(eventsFile := Some(a.content.events))];
      var t := txs[a.tx];
      if t.staged.None? || KeyOf(a) in views {
        status := Raised(RenameFailed);
        return;
      }
      ok := Survives();
      if ok {
        txs, views := txs[a.tx := t.(staged := None)], views[KeyOf(a) := t.staged.value];
      }
    }

    /** HEAD, then the recorded result. */
    method LinkAndRecord(k: Key, recovered: bool)
      modifies this
      ensures Writer() == WriteResult(PublishHead(old(Writer()), k), k, recovered)
    {
      var ok := Survives();
      if ok {
        head := PointerTo(k);
      }
      RecordResult(k, recovered);
    }

    method RecordResult(k: Key, recovered: bool)
      modifies this
      ensures Writer() == WriteResult(old(Writer()), k, recovered)
    {
      if k.tx in txs {
        var ok := Survives();
        if ok {
          txs := txs[k.tx := txs[k.tx].(result := Some(ResultFor(k, recovered)))];
        }
      }
    }

    method Outcome(k: Key, idempotent: bool, recovered: bool) returns (o: CampaignStore.Outcome)
      ensures (Contents(), o) == Finish(Writer(), k, idempotent, recovered)
    {
      match status {
        case Live => o := Committed(ResultFor(k, recovered), idempotent);
        case Died => o := Stopped;
        case Raised(e) => o := Failed(e);
      }
    }

    /** `op_campaign_commit`, under the lease. */
    method Commit(a: Args) returns (o: CampaignStore.Outcome)
      requires status == Live
      modifies this
      ensures (Contents(), o) == CommitOp(old(Contents()), a, old(life), MAX_COMMITS)
    {
      var replayed := a.tx in txs && txs[a.tx].request.Some?;
      if replayed {
        if txs[a.tx].request.value.digest != ShaOf(a.content) {
          return Failed(StoreConflict);
        }
        if txs[a.tx].result.Some? {
          return Committed(txs[a.tx].result.value, true);
        }
        var found := FindReachable(a.tx, MAX_COMMITS, None);
        if found.OverLimit? {
          return Failed(TooLarge);
        }
        if found.At? {
          var at := Key(Rev(found.pointer), a.tx);
          RecordResult(at, true);
          o := Outcome(at, true, true);
          return;
        }
      }
      o := CommitMissing(a, replayed);
    }

    /** A commit of a transaction that the history does not have. */
    method CommitMissing(a: Args, replayed: bool) returns (o: CampaignStore.Outcome)
      requires status == Live && replayed == HasRequest(Contents(), a.tx)
      modifies this
      ensures (Contents(), o) == Unrecorded(old(Contents()), a, old(life))
    {
      var k := KeyOf(a);
      if replayed && k in journals && k in views && Rev(head) == a.content.expected {
        LinkAndRecord(k, true);
        o := Outcome(k, false, true);
        return;
      }
      if Rev(head) != a.content.expected {
        return Failed(StoreConflict);
      }
      WriteFresh(a, replayed);
      o := Outcome(k, false, false);
    }

    /** What is left of an earlier call is set aside, and everything is written anew. */
    method WriteFresh(a: Args, replayed: bool)
      requires status == Live && replayed == HasRequest(Contents(), a.tx)
      modifies this
      ensures var p := old(Writer());
        Writer() == Publish(Stage(if replayed then Quarantine(p, a.tx, KeyOf(a)) else p, a), a, old(head))
    {
      if replayed {
        SetAside(a.tx, KeyOf(a));
      }
      WriteAnew(a);
    }

    method WriteAnew(a: Args)
      modifies this
      ensures Writer() == Publish(Stage(old(Writer()), a), a, old(head))
    {
      var parent := head;
      OpenTransaction(a);
      StageDocuments(a);
      PublishStaged(a);
      var ok := Survives();
      if ok {
        journals := journals[KeyOf(a) := JournalFor(a, parent)];
      }
      LinkAndRecord(KeyOf(a), false);
    }

    /** `op_campaign_read`. */
    method ReadDocument(commit: Option<TxId>, doc: Doc, room: int) returns (r: R.Document)
      ensures r == R.ReadOp(Contents(), commit, doc, R.PIN_COMMITS, R.PIN_BYTES, room)
    {
      var at := At(head);
      if commit.Some? {
        at := FindReachable(commit.value, R.PIN_COMMITS, Some(R.PIN_BYTES));
      }
      if at.OverLimit? {
        return R.Unread(TooLarge);
      }
      if at.Missing? {
        return R.Unread(StoreConflict);
      }
      if Rev(at.pointer) == 0 {
        return R.Unread(NotFound);
      }
      var k := Key(at.pointer.revision, at.pointer.tx);
      if k !in views || doc !in views[k] {
        return R.Unread(NotFound);
      }
      if views[k][doc].bytes > R.Clamped(room) {
        return R.Unread(TooLarge);
      }
      if k !in journals {
        return R.Unread(NotFound);
      }
      if journals[k].fileBytes > READ_BYTES {
        return R.Unread(TooLarge);
      }
      if doc !in journals[k].documents || journals[k].documents[doc] != Sha(views[k][doc]) {
        return R.Unread(StoreConflict);
      }
      return R.Found(k, views[k][doc]);
    }

    /** One turn of the page loop of `op_campaign_events`. */
    method TurnPage(p: Pointer, offset: nat, room: nat, max: nat) returns (turn: R.Turn)
      requires Valid(Contents()) && R.OnChain(Contents(), p) && p.Commit?
      ensures turn == R.TurnAt(Contents(), p, offset, room, max)
    {
      R.ParentOnChain(Contents(), p);
      var journal := journals[Key(p.revision, p.tx)];
      if journal.fileBytes > READ_BYTES {
        return R.Ends(R.NoPage(TooLarge));
      }
      var batch := journal.events;
      var taken := R.Slice(batch, offset, room);
      var consumed := R.Consumed(|batch|, offset, room);
      if consumed < |batch| {
        return R.Ends(R.Page(taken, Some(R.Cursor(p.revision, p.tx, consumed))));
      }
      if journal.parent.Root? {
        return R.Ends(R.Page(taken, None));
      }
      var parent := FindReachable(journal.parent.tx, max, None);
      R.LookupOnChain(Contents(), journal.parent, max);
      if parent.OverLimit? {
        return R.Ends(R.NoPage(TooLarge));
      }
      if |taken| >= room {
        return R.Ends(R.Page(taken, Some(R.Cursor(Rev(parent.pointer), parent.pointer.tx, 0))));
      }
      return R.Goes(taken, parent.pointer);
    }

    /** One turn, applied to what has been taken so far: the page, or where to go on. */
    method Advance(events: seq<Event>, p: Pointer, offset: nat, limit: nat, max: nat)
      returns (page: Option<R.Page>, more: seq<Event>, next: Pointer)
      requires Valid(Contents()) && R.OnChain(Contents(), p) && p.Commit? && |events| < limit
      ensures page.Some? ==> page.value == R.PageLoop(Contents(), events, p, offset, limit, max)
      ensures page.None? ==>
        && R.OnChain(Contents(), next) && Rev(next) < Rev(p) && |more| < limit
        && R.PageLoop(Contents(), more, next, 0, limit, max) == R.PageLoop(Contents(), events, p, offset, limit, max)
    {
      R.TurnGoesOn(Contents(), p, offset, limit - |events|, max);
      var turn := TurnPage(p, offset, limit - |events|, max);
      match turn {
        case Ends(last) => return Some(R.Behind(events, last)), events, p;
        case Goes(taken, q) => return None, events + taken, q;
      }
    }

    /** The page loop of `op_campaign_events`. */
    method PageByTurns(start: Pointer, from: nat, limit: nat, max: nat) returns (page: R.Page)
      requires Valid(Contents()) && R.OnChain(Contents(), start) && limit > 0
      ensures page == R.PageLoop(Contents(), [], start, from, limit, max)
    {
      ghost var d := Contents();
      ghost var whole := R.PageLoop(d, [], start, from, limit, max);
      var p, offset, events := start, from, [];
      while p.Commit?
        invariant Contents() == d && R.OnChain(d, p) && |events| < limit
        invariant whole == R.PageLoop(d, events, p, offset, limit, max)
        decreases Rev(p)
      {
        var last;
        last, events, p := Advance(events, p, offset, limit, max);
        if last.Some? {
          return last.value;
        }
        offset := 0;
      }
      return R.Page(events, None);
    }

    /** `op_campaign_events`. */
    method Events(cursor: Option<R.Cursor>, limit: int) returns (page: R.Page)
      requires Valid(Contents())
      ensures page == R.EventsOp(Contents(), cursor, limit, MAX_COMMITS)
    {
      if limit < 1 || limit > 500 {
        return R.NoPage(Malformed);
      }
      if cursor.None? {
        R.HeadOnChain(Contents());
        page := PageByTurns(head, 0, limit, MAX_COMMITS);
        return;
      }
      var at := FindReachable(cursor.value.tx, MAX_COMMITS, None);
      R.ReachableSound(Contents(), head, cursor.value.tx, MAX_COMMITS, None);
      if at.OverLimit? {
        return R.NoPage(TooLarge);
      }
      if at.Missing? || Rev(at.pointer) != cursor.value.revision {
        return R.NoPage(StoreConflict);
      }
      page := PageByTurns(at.pointer, cursor.value.offset, limit, MAX_COMMITS);
    }

    /** The walk of `op_campaign_changes`, newest commit first. */
    method WalkBack(after: Option<TxId>, fuel: nat, bytes: nat) returns (w: F.Walked)
      requires Valid(Contents())
      ensures w == F.Walk(Contents(), head, after, fuel, bytes)
      ensures w.Walked? ==> forall k :: k in w.chain ==> k in journals
    {
      ghost var d := Contents();
      var chain := [];
      var p: Pointer, left: nat, n: nat := head, bytes, fuel;
      while n > 0 && p.Commit? && after != Some(p.tx)
        invariant Contents() == d && Linear(d, p)
        invariant forall k :: k in chain ==> k in journals
        invariant F.Walk(d, head, after, fuel, bytes) == Behind(chain, F.Walk(d, p, after, n, left))
      {
        var k := Key(p.revision, p.tx);
        F.WalkUnfolds(d, p, after, n, left);
        if journals[k].fileBytes > left {
          return F.Walked(chain, false);
        }
        if journals[k].fileBytes > READ_BYTES {
          return F.Unreadable;
        }
        BehindOn(chain, k, F.Walk(d, journals[k].parent, after, n - 1, left - journals[k].fileBytes));
        chain, left := chain + [k], left - journals[k].fileBytes;
        p, n := journals[k].parent, n - 1;
      }
      return F.Walked(chain, if p.Root? then after.None? else n > 0);
    }

    /** The entries of a page, oldest commit first, up to both limits. */
    method SelectChanges(chain: seq<Key>, limit: nat, room: nat) returns (selected: seq<Key>)
      requires forall k :: k in chain ==> k in journals
      ensures selected == F.Select(Contents(), chain, limit, room)
    {
      var size, i := 0, 0;
      while i < |chain| && i < limit && size + journals[chain[i]].itemBytes <= room
        invariant i <= |chain| && i <= limit && size <= room
        invariant F.Select(Contents(), chain, limit, room) ==
          chain[..i] + F.Select(Contents(), chain[i..], limit - i, room - size)
      {
        assert chain[i..][1..] == chain[i + 1..];
        assert chain[..i] + [chain[i]] == chain[..i + 1];
        size, i := size + journals[chain[i]].itemBytes, i + 1;
      }
      assert i < |chain| ==> chain[i..][0] == chain[i];
      return chain[..i];
    }

    method Entries(keys: seq<Key>) returns (items: seq<F.Change>)
      requires forall k :: k in keys ==> k in journals
      ensures items == F.ChangesOf(Contents(), keys)
    {
      items := [];
      for i := 0 to |keys|
        invariant |items| == i && forall j :: 0 <= j < i ==> items[j] == F.ChangeOf(Contents(), keys[j])
      {
        var journal := journals[keys[i]];
        items := items + [F.Change(keys[i], journal.events, journal.documents)];
      }
    }

    /** The page for the commits walked. */
    method MakePage(w: F.Walked, after: Option<TxId>, limit: nat, room: nat) returns (page: F.ChangePage)
      requires limit > 0 && (w.Walked? ==> forall k :: k in w.chain ==> k in journals)
      ensures page == F.PageOf(Contents(), w, after, limit, room)
    {
      if w.Unreadable? {
        return F.NoChanges(TooLarge);
      }
      F.ReverseAt(w.chain);
      var chain := F.Reverse(w.chain);
      var selected := SelectChanges(chain, limit, room);
      F.SelectExact(Contents(), chain, limit, room);
      if selected == [] && chain != [] {
        return F.NoChanges(TooLarge);
      }
      var items := Entries(selected);
      return F.Changes(items, w.reached,
                       if selected == [] then after else Some(selected[|selected| - 1].tx), |selected| < |chain|);
    }

    /** `op_campaign_changes`. */
    method ChangesAfter(after: Option<TxId>, limit: int) returns (page: F.ChangePage)
      requires Valid(Contents())
      ensures page == F.ChangesOp(Contents(), after, limit, F.Limits)
    {
      if limit < 1 || limit > F.CHANGE_LIMIT {
        return F.NoChanges(Malformed);
      }
      var w := WalkBack(after, F.CHANGE_COMMITS, F.CHANGE_JOURNAL_BYTES);
      page := MakePage(w, after, limit, F.CHANGE_PAGE_BYTES);
    }
  }
}
