/** When the store's readers fail, and what they refuse, said of the history alone. */
module CampaignPages {
  import opened Common
  import opened CampaignStore
  import opened CampaignHistory
  import opened CampaignCommits
  import opened CampaignExactlyOnce
  import opened CampaignReaders
  import F = CampaignChanges

  // ------------------------------------------------------------------ event pages

  /** A commit of the chain from `p` on. */
  ghost predicate From(d: Dir, p: Pointer, q: Pointer) {
    Linear(d, p) && q.Commit? && Key(q.revision, q.tx) in History(d, p)
  }

  /** The events of a page from `p` on that come before those of a later commit. */
  ghost function Ahead(d: Dir, p: Pointer, offset: nat, q: Pointer): int
    requires Linear(d, p) && Linear(d, q)
  {
    if q == p then 0 else |Stream(d, p, offset)| - |Stream(d, q, 0)|
  }

  /** A page with room for so many events fails at a commit: it comes to the commit, and the
      commit's journal is over the read limit; or the page takes its events to the end, and HEAD
      is too far ahead of its parent or has a journal over the read limit on the way there. */
  ghost predicate Blocks(d: Dir, p: Pointer, offset: nat, room: nat, max: nat, q: Pointer)
    requires Linear(d, p) && From(d, p, q) && Linear(d, q)
  {
    var parent := d.journals[Key(q.revision, q.tx)].parent;
    && Ahead(d, p, offset, q) < room
    && (!Fits(d, Key(q.revision, q.tx)) ||
        (parent.Commit? && Ahead(d, p, offset, parent) <= room && !(Near(d, parent, max) && NewerFit(d, parent))))
  }

  ghost predicate Blocked(d: Dir, p: Pointer, offset: nat, room: nat, max: nat)
    requires Linear(d, p)
  {
    exists q :: From(d, p, q) && Linear(d, q) && Blocks(d, p, offset, room, max, q)
  }

  lemma FromTail(d: Dir, p: Pointer, q: Pointer)
    requires Linear(d, p) && p.Commit?
    ensures Key(p.revision, p.tx) in d.journals && Linear(d, d.journals[Key(p.revision, p.tx)].parent)
    ensures From(d, p, q) <==> q == p || From(d, d.journals[Key(p.revision, p.tx)].parent, q)
  {
    var parent := d.journals[Key(p.revision, p.tx)].parent;
    assert History(d, p) == [Key(p.revision, p.tx)] + History(d, parent);
  }

  lemma FromOlder(d: Dir, p: Pointer, q: Pointer)
    requires From(d, p, q)
    ensures Linear(d, q) && Rev(q) <= Rev(p)
  {
    HistoryWithin(d, p, q);
    HistoryShape(d, p);
  }

  /** The events ahead of a commit, counted from one commit further back. */
  lemma {:induction false} StreamShrinks(d: Dir, p: Pointer, q: Pointer)
    requires Linear(d, p) && From(d, p, q)
    ensures Linear(d, q) && |Stream(d, q, 0)| <= |Stream(d, p, 0)|
    decreases Rev(p)
  {
    FromOlder(d, p, q);
    if q != p {
      FromTail(d, p, q);
      StreamShrinks(d, d.journals[Key(p.revision, p.tx)].parent, q);
    }
  }

  lemma AheadTail(d: Dir, p: Pointer, offset: nat, q: Pointer)
    requires Linear(d, p) && p.Commit? && q != p && From(d, p, q)
    ensures Key(p.revision, p.tx) in d.journals
    ensures var j := d.journals[Key(p.revision, p.tx)];
      && Linear(d, j.parent) && From(d, j.parent, q) && Linear(d, q)
      && Ahead(d, p, offset, q) == |j.events[Min(offset, |j.events|)..]| + Ahead(d, j.parent, 0, q)
      && Ahead(d, j.parent, 0, q) >= 0
  {
    FromTail(d, p, q);
    FromOlder(d, p, q);
    StreamShrinks(d, d.journals[Key(p.revision, p.tx)].parent, q);
  }

  /** A page fails if and only if some commit of the chain blocks it. */
  lemma {:induction false} PageFailsExactly(d: Dir, events: seq<Event>, p: Pointer, offset: nat, limit: nat, max: nat)
    requires Valid(d) && OnChain(d, p) && |events| < limit
    ensures PageLoop(d, events, p, offset, limit, max).NoPage? <==> Blocked(d, p, offset, limit - |events|, max)
    decreases Rev(p)
  {
    if p.Commit? {
      TurnBlocked(d, p, offset, limit - |events|, max);
      TurnGoesOn(d, p, offset, limit - |events|, max);
      var turn := TurnAt(d, p, offset, limit - |events|, max);
      if turn.Goes? {
        PageFailsExactly(d, events + turn.taken, turn.next, 0, limit, max);
      } else {
        assert PageLoop(d, events, p, offset, limit, max) == Behind(events, turn.page);
      }
    } else {
      NothingBlocks(d, p, offset, limit - |events|, max);
    }
  }

  lemma NothingBlocks(d: Dir, p: Pointer, offset: nat, room: nat, max: nat)
    requires Linear(d, p) && p.Root?
    ensures !Blocked(d, p, offset, room, max)
  {
    assert History(d, p) == [];
  }

  /** One turn: it fails or ends the page as the page is blocked or not, or goes on with as much. */
  lemma TurnBlocked(d: Dir, p: Pointer, offset: nat, room: nat, max: nat)
    requires Valid(d) && OnChain(d, p) && p.Commit? && room > 0
    ensures var turn := TurnAt(d, p, offset, room, max);
      && (turn.Ends? ==> (turn.page.NoPage? <==> Blocked(d, p, offset, room, max)))
      && (turn.Goes? ==> |turn.taken| < room && Linear(d, turn.next))
      && (turn.Goes? ==>
            (Blocked(d, p, offset, room, max) <==> Blocked(d, turn.next, 0, room - |turn.taken|, max)))
  {
    ParentOnChain(d, p);
    var k := Key(p.revision, p.tx);
    var j := d.journals[k];
    FromTail(d, p, p);
    SliceExact(j.events, offset, room);
    if !Fits(d, k) {
      assert Blocks(d, p, offset, room, max, p);
    } else if Consumed(|j.events|, offset, room) < |j.events| {
      FullBefore(d, p, offset, room, max);
    } else {
      BatchTaken(d, p, offset, room, max);
    }
  }

  /** A batch longer than the room: nothing behind it matters. */
  lemma FullBefore(d: Dir, p: Pointer, offset: nat, room: nat, max: nat)
    requires Valid(d) && OnChain(d, p) && p.Commit? && room > 0 && Fits(d, Key(p.revision, p.tx))
    requires Key(p.revision, p.tx) in d.journals
    requires |d.journals[Key(p.revision, p.tx)].events| - offset > room
    ensures !Blocked(d, p, offset, room, max)
  {
    var parent := d.journals[Key(p.revision, p.tx)].parent;
    ParentOnChain(d, p);
    forall q | From(d, p, q) && Linear(d, q) ensures !Blocks(d, p, offset, room, max, q) {
      if q != p {
        AheadTail(d, p, offset, q);
      } else if parent.Commit? {
        FromTail(d, p, parent);
        FromTail(d, parent, parent);
        AheadTail(d, p, offset, parent);
      }
    }
  }

  /** A batch taken to its end: the parent is looked up, and the rest of the room is left for it. */
  lemma BatchTaken(d: Dir, p: Pointer, offset: nat, room: nat, max: nat)
    requires Valid(d) && OnChain(d, p) && p.Commit? && room > 0 && Fits(d, Key(p.revision, p.tx))
    requires Key(p.revision, p.tx) in d.journals
    requires Consumed(|d.journals[Key(p.revision, p.tx)].events|, offset, room) >=
             |d.journals[Key(p.revision, p.tx)].events|
    ensures var turn := TurnAt(d, p, offset, room, max);
      && (turn.Ends? ==> (turn.page.NoPage? <==> Blocked(d, p, offset, room, max)))
      && (turn.Goes? ==> |turn.taken| < room && Linear(d, turn.next))
      && (turn.Goes? ==>
            (Blocked(d, p, offset, room, max) <==> Blocked(d, turn.next, 0, room - |turn.taken|, max)))
  {
    ParentOnChain(d, p);
    var j := d.journals[Key(p.revision, p.tx)];
    SliceExact(j.events, offset, room);
    if j.parent.Root? {
      BlockedOldest(d, p, offset, room, max);
    } else {
      LookupOnChain(d, j.parent, max);
      BlockedBehind(d, p, offset, room, max, |j.events[Min(offset, |j.events|)..]|);
      if |j.events[Min(offset, |j.events|)..]| == room {
        NoRoom(d, j.parent, max);
      }
    }
  }

  /** The oldest commit: there is nothing behind it. */
  lemma BlockedOldest(d: Dir, p: Pointer, offset: nat, room: nat, max: nat)
    requires Valid(d) && OnChain(d, p) && p.Commit? && Fits(d, Key(p.revision, p.tx))
    requires Key(p.revision, p.tx) in d.journals && d.journals[Key(p.revision, p.tx)].parent.Root?
    ensures !Blocked(d, p, offset, room, max)
  {
    forall q | From(d, p, q) && Linear(d, q) ensures !Blocks(d, p, offset, room, max, q) {
      FromTail(d, p, q);
    }
  }

  lemma NoRoom(d: Dir, p: Pointer, max: nat)
    requires Linear(d, p)
    ensures !Blocked(d, p, 0, 0, max)
  {
    forall q | From(d, p, q) && Linear(d, q) ensures !Blocks(d, p, 0, 0, max, q) {
      StreamShrinks(d, p, q);
    }
  }

  /** Past a commit whose batch is taken, the page is blocked by its parent, or as it is from there. */
  lemma BlockedBehind(d: Dir, p: Pointer, offset: nat, room: nat, max: nat, n: nat)
    requires Valid(d) && OnChain(d, p) && p.Commit? && Fits(d, Key(p.revision, p.tx)) && room > 0
    requires Key(p.revision, p.tx) in d.journals
    requires var j := d.journals[Key(p.revision, p.tx)];
      j.parent.Commit? && Linear(d, j.parent) && n == |j.events[Min(offset, |j.events|)..]| && n <= room
    ensures var x := d.journals[Key(p.revision, p.tx)].parent;
      Blocked(d, p, offset, room, max) <==> !(Near(d, x, max) && NewerFit(d, x)) || Blocked(d, x, 0, room - n, max)
  {
    var x := d.journals[Key(p.revision, p.tx)].parent;
    FromTail(d, p, p);
    FromTail(d, x, x);
    FromTail(d, p, x);
    AheadTail(d, p, offset, x);
    if q :| From(d, p, q) && Linear(d, q) && Blocks(d, p, offset, room, max, q) {
      if q != p {
        BlocksShift(d, p, offset, room, max, n, q);
      }
    }
    if !(Near(d, x, max) && NewerFit(d, x)) {
      assert Blocks(d, p, offset, room, max, p);
    }
    if q :| From(d, x, q) && Linear(d, q) && Blocks(d, x, 0, room - n, max, q) {
      FromTail(d, p, q);
      FromOlder(d, x, q);
      BlocksShift(d, p, offset, room, max, n, q);
    }
  }

  lemma BlocksShift(d: Dir, p: Pointer, offset: nat, room: nat, max: nat, n: nat, q: Pointer)
    requires Valid(d) && OnChain(d, p) && p.Commit? && Key(p.revision, p.tx) in d.journals
    requires var j := d.journals[Key(p.revision, p.tx)];
      Linear(d, j.parent) && n == |j.events[Min(offset, |j.events|)..]| && n <= room
    requires q != p && From(d, p, q) && Linear(d, q)
    ensures var x := d.journals[Key(p.revision, p.tx)].parent;
      From(d, x, q) && (Blocks(d, p, offset, room, max, q) <==> Blocks(d, x, 0, room - n, max, q))
  {
    AheadTail(d, p, offset, q);
    FromTail(d, q, q);
    var parent := d.journals[Key(q.revision, q.tx)].parent;
    if parent.Commit? {
      FromTail(d, q, parent);
      FromTail(d, parent, parent);
      FromTransitive(d, p, q, parent);
      AheadTail(d, p, offset, parent);
    }
  }

  lemma {:induction false} FromTransitive(d: Dir, p: Pointer, q: Pointer, r: Pointer)
    requires Linear(d, p) && From(d, p, q) && Linear(d, q) && From(d, q, r)
    ensures From(d, p, r) && Rev(r) <= Rev(q)
    ensures q != p ==> r != p
  {
    HistoryWithin(d, p, q);
    FromOlder(d, q, r);
    if q != p && r == p {
      FromTail(d, p, q);
      FromOlder(d, d.journals[Key(p.revision, p.tx)].parent, q);
      assert false;
    }
  }

  /** What an event request is refused for: a limit that is not from 1 to 500; a cursor that the
      walk from HEAD does not reach, because it gives up or because the commit is not there; a
      cursor with another revision than its commit's. Otherwise the page starts at the cursor, or
      at HEAD, and fails exactly when a commit blocks it. */
  lemma EventsFailExactly(d: Dir, cursor: Option<Cursor>, limit: int, max: nat)
    requires Valid(d)
    ensures var page := EventsOp(d, cursor, limit, max);
      if !(1 <= limit <= 500) then page == NoPage(Malformed)
      else if cursor.None? then page.NoPage? <==> Blocked(d, d.head, 0, limit, max)
      else
        var c := cursor.value;
        var known := exists k :: k in History(d, d.head) && k.tx == c.tx;
        if !known then page == NoPage(if Searchable(d, max) && Rev(d.head) < max then StoreConflict else TooLarge)
        else if !Reaches(d, History(d, d.head), c.tx, max, None) then page == NoPage(TooLarge)
        else if Key(c.revision, c.tx) !in History(d, d.head) then page == NoPage(StoreConflict)
        else Linear(d, At'(c)) && (page.NoPage? <==> Blocked(d, At'(c), c.offset, limit, max))
  {
    if 1 <= limit <= 500 {
      if cursor.None? {
        HeadOnChain(d);
        PageFailsExactly(d, [], d.head, 0, limit, max);
      } else {
        CursorFails(d, cursor.value, limit, max);
      }
    }
  }

  lemma CursorFails(d: Dir, c: Cursor, limit: int, max: nat)
    requires Valid(d) && 1 <= limit <= 500
    ensures var page, h := EventsOp(d, Some(c), limit, max), History(d, d.head);
      if !(exists k :: k in h && k.tx == c.tx) then
        page == NoPage(if Searchable(d, max) && Rev(d.head) < max then StoreConflict else TooLarge)
      else if !Reaches(d, h, c.tx, max, None) then page == NoPage(TooLarge)
      else if Key(c.revision, c.tx) !in h then page == NoPage(StoreConflict)
      else Linear(d, At'(c)) && (page.NoPage? <==> Blocked(d, At'(c), c.offset, limit, max))
  {
    var h := History(d, d.head);
    HistoryShape(d, d.head);
    ReachableExact(d, d.head, c.tx, max, None);
    ReachableSound(d, d.head, c.tx, max, None);
    assert Walkable(d, h, |h|, None) <==> AllFit(d, h);
    var found := Reachable(d, d.head, c.tx, max, None);
    if found.At? {
      var k := Key(Rev(found.pointer), c.tx);
      if Key(c.revision, c.tx) in h {
        HistoryNamesOnce(d, k, Key(c.revision, c.tx));
      }
      if Rev(found.pointer) == c.revision {
        assert found.pointer == At'(c);
        PageFailsExactly(d, [], found.pointer, c.offset, limit, max);
      }
    }
  }

  // ------------------------------------------------------------------ documents of HEAD

  /** Without a commit, a read is answered from HEAD: not found in an empty run or without the
      document, too large for a document or a journal over the read limits, else its value. */
  lemma HeadReadExactly(d: Dir, doc: Doc, max: nat, bytes: nat, room: int)
    requires Valid(d)
    ensures var r := ReadOp(d, None, doc, max, bytes, room);
      var most := if room < 1 then 1 else if room > 4194304 then 4194304 else room;
      if d.head.Root? then r == Unread(NotFound)
      else
        var k := Key(d.head.revision, d.head.tx);
        && k in d.views
        && (r == Unread(NotFound) <==> doc !in d.views[k])
        && (r == Unread(TooLarge) <==> doc in d.views[k] && (d.views[k][doc].bytes > most || !Fits(d, k)))
        && (r.Found? <==> doc in d.views[k] && d.views[k][doc].bytes <= most && Fits(d, k))
        && (r.Found? ==> r == Found(k, d.views[k][doc]))
  {
    if d.head.Commit? {
      PublishedReads(d, Key(d.head.revision, d.head.tx), doc);
    }
  }

  /** A pinned read of a commit that is not in the history is a conflict, or gives up. */
  lemma UnknownPinExactly(d: Dir, tx: TxId, doc: Doc, max: nat, bytes: nat, room: int)
    requires Valid(d) && forall k :: k in History(d, d.head) ==> k.tx != tx
    ensures var h := History(d, d.head);
      ReadOp(d, Some(tx), doc, max, bytes, room) ==
        Unread(if |h| < max && Walkable(d, h, |h|, Some(bytes)) then StoreConflict else TooLarge)
  {
    ReachableExact(d, d.head, tx, max, Some(bytes));
  }

  // ------------------------------------------------------------------ change pages

  /** A page that carries the oldest of the commits walked, as many as fit: another one would be
      one too many, or too large. It goes on after its last commit, if it has one. */
  ghost predicate Carries(d: Dir, chain: seq<Key>, after: Option<TxId>, limit: nat, room: nat, page: F.ChangePage)
    requires F.Journaled(d, chain) && page.Changes?
  {
    var n := |page.items|;
    && n <= |chain| && n <= limit && page.items == F.ChangesOf(d, chain[..n]) && F.ItemBytes(d, chain[..n]) <= room
    && (n < |chain| && n < limit ==> F.ItemBytes(d, chain[..n + 1]) > room)
    && page.nextAfter == (if n == 0 then after else Some(chain[n - 1].tx))
    && (page.hasMore <==> n < |chain|)
  }

  /** Complete or with a gap, a change page carries the oldest of the commits it has walked, which
      are as many of those after the known one as are within the bounds, newest first. */
  lemma PageCarriesExactly(d: Dir, after: Option<TxId>, r: nat, limit: nat, b: F.Bounds, n: nat)
    requires Valid(d) && F.KnownAt(F.Log(d), after, r) && 1 <= limit <= F.CHANGE_LIMIT
    requires |F.Log(d)| == |History(d, d.head)| && r <= |F.Log(d)|
    requires F.Longest(d, History(d, d.head), |F.Log(d)| - r, b.commits, b.journalBytes, n)
    ensures n <= |History(d, d.head)| && F.Journaled(d, F.Reverse(History(d, d.head)[..n]))
    ensures var page := F.ChangesOp(d, after, limit, b);
      page.Changes? ==> Carries(d, F.Reverse(History(d, d.head)[..n]), after, limit, b.pageBytes, page)
  {
    F.KnownInLog(d, after, r);
    F.OpMakesPage(d, after, limit, b);
    F.WalkExact(d, d.head, after, |F.Log(d)| - r, b.commits, b.journalBytes);
    var h, w := History(d, d.head), F.Walk(d, d.head, after, b.commits, b.journalBytes);
    NewestJournaled(d, h, n);
    if w.Walked? {
      F.LongestOnce(d, h, |F.Log(d)| - r, b.commits, b.journalBytes, n, |w.chain|);
      PageCarries(d, w, after, limit, b.pageBytes);
    }
  }

  lemma NewestJournaled(d: Dir, h: seq<Key>, n: nat)
    requires F.Journaled(d, h) && n <= |h|
    ensures F.Journaled(d, F.Reverse(h[..n]))
  {
    F.ReverseAt(h[..n]);
    assert forall k :: k in h[..n] ==> k in h;
  }

  lemma PageCarries(d: Dir, w: F.Walked, after: Option<TxId>, limit: nat, room: nat)
    requires w.Walked? && F.Journaled(d, w.chain) && F.Journaled(d, F.Reverse(w.chain))
    ensures var page := F.PageOf(d, w, after, limit, room);
      page.Changes? ==> Carries(d, F.Reverse(w.chain), after, limit, room, page)
  {
    var chain := F.Reverse(w.chain);
    F.SelectExact(d, chain, limit, room);
    var s := F.Select(d, chain, limit, room);
    assert s == chain[..|s|];
  }

  /** A change request is refused for a limit that is not from 1 to 8. */
  lemma ChangesLimit(d: Dir, after: Option<TxId>, limit: int, b: F.Bounds)
    requires Valid(d)
    ensures !(1 <= limit <= 8) ==> F.ChangesOp(d, after, limit, b) == F.NoChanges(Malformed)
  {
  }
}
