/** The store's readers, over a valid directory: pinned documents, the backward event pages and
    the forward change pages. */
module CampaignReaders {
  import opened Common
  import opened CampaignStore
  import opened CampaignHistory
  import opened CampaignCommits
  import opened CampaignExactlyOnce

  const PIN_COMMITS := 128
  const PIN_BYTES := 8388608

  // ------------------------------------------------------------------ traversal, in general

  /** A traversal that stops at a pointer stops at a commit of the history; one that reaches the
      end has passed every commit. */
  lemma {:induction false} ReachableSound(d: Dir, p: Pointer, tx: TxId, fuel: nat, budget: Option<nat>)
    requires Linear(d, p)
    ensures var found := Reachable(d, p, tx, fuel, budget);
      && (found.At? ==> found.pointer.Commit? && found.pointer.tx == tx)
      && (found.At? ==>
            Key(Rev(found.pointer), tx) in History(d, p) && Linear(d, found.pointer))
      && (found.Missing? ==> forall k :: k in History(d, p) ==> k.tx != tx)
    decreases fuel
  {
    if fuel > 0 && p.Commit? && p.tx != tx {
      var j := d.journals[Key(p.revision, p.tx)];
      assert History(d, p) == [Key(p.revision, p.tx)] + History(d, j.parent);
      if !(budget.Some? && j.fileBytes > budget.value) && j.fileBytes <= READ_BYTES {
        ReachableSound(d, j.parent, tx, fuel - 1,
                       if budget.Some? then Some(budget.value - j.fileBytes) else None);
      }
    }
  }

  /** A commit keeps its place in every later history. */
  lemma CommitStays(d: Dir, e: Dir, k: Key)
    requires Valid(d) && Safe(d, e) && k in History(d, d.head)
    ensures k in History(e, e.head) && k in d.journals && k in e.journals && e.journals[k] == d.journals[k]
    ensures k in d.views && k in e.views && e.views[k] == d.views[k]
  {
    HistoryShape(d, d.head);
    var hd, he := History(d, d.head), History(e, e.head);
    assert k in he[|he| - |hd|..];
  }

  // ------------------------------------------------------------------ documents

  datatype Document = Found(commit: Key, value: Value) | Unread(error: Error)

  /** The limit a caller asks for on the size of a document. */
  function Clamped(room: int): nat {
    if room < 1 then 1 else if room > READ_BYTES then READ_BYTES else room
  }

  /** `op_campaign_read`: the document of HEAD, or of a pinned commit. */
  function ReadOp(d: Dir, commit: Option<TxId>, doc: Doc, max: nat, bytes: nat, room: int): Document {
    var at := if commit.None? then At(d.head)
              else Reachable(d, d.head, commit.value, max, Some(bytes));
    match at
    case OverLimit => Unread(TooLarge)
    case Missing => Unread(StoreConflict)
    case At(p) =>
      if Rev(p) == 0 || p.Root? then Unread(NotFound)
      else
        var k := Key(p.revision, p.tx);
        if k !in d.views || doc !in d.views[k] then Unread(NotFound)
        else if d.views[k][doc].bytes > Clamped(room) then Unread(TooLarge)
        else if k !in d.journals then Unread(NotFound)
        else if d.journals[k].fileBytes > READ_BYTES then Unread(TooLarge)
        else if doc !in d.journals[k].documents || d.journals[k].documents[doc] != Sha(d.views[k][doc]) then
          Unread(StoreConflict)
        else Found(k, d.views[k][doc])
  }

  /** A pinned read can be answered: the walk reaches the commit, and the document, which the
      commit has, and its journal are within the read limits. */
  ghost predicate Pinned(e: Dir, k: Key, doc: Doc, max: nat, bytes: nat, room: int) {
    && Reaches(e, History(e, e.head), k.tx, max, Some(bytes)) && Fits(e, k)
    && k in e.views && doc in e.views[k] && e.views[k][doc].bytes <= Clamped(room)
  }

  /** A pinned read, now or after any later commits, failures and recoveries, succeeds exactly
      when it can be answered, and then returns the value the commit published, whose digest the
      commit recorded. It fails only for a document the commit does not have or a limit. */
  lemma PinnedReadIsStable(d: Dir, e: Dir, k: Key, doc: Doc, max: nat, bytes: nat, room: int)
    requires Valid(d) && Safe(d, e) && k in History(d, d.head)
    ensures k in d.views && k in d.journals
    ensures var r := ReadOp(e, Some(k.tx), doc, max, bytes, room);
      && (r.Found? <==> Pinned(e, k, doc, max, bytes, room))
      && (r.Found? ==> r.commit == k && doc in d.views[k] && r.value == d.views[k][doc])
      && (r.Found? ==> doc in d.journals[k].documents && d.journals[k].documents[doc] == Sha(r.value))
      && (r.Unread? ==> r.error == TooLarge || (r.error == NotFound && doc !in d.views[k]))
  {
    CommitStays(d, e, k);
    ReachableExact(e, e.head, k.tx, max, Some(bytes));
    var at := Reachable(e, e.head, k.tx, max, Some(bytes));
    PublishedReads(e, k, doc);
    if at.At? {
      HistoryNamesOnce(e, k, Key(Rev(at.pointer), k.tx));
    }
  }

  /** The files of a commit agree with the digests it recorded. */
  lemma PublishedReads(e: Dir, k: Key, doc: Doc)
    requires Valid(e) && k in e.journals
    ensures k.revision > 0 && k in e.views
    ensures doc in e.views[k] <==> doc in e.journals[k].documents
    ensures doc in e.views[k] ==> e.journals[k].documents[doc] == Sha(e.views[k][doc])
  {
    assert JournalOk(e, k);
  }

  // ------------------------------------------------------------------ events, newest first

  datatype Cursor = Cursor(revision: nat, tx: TxId, offset: nat)

  datatype Page = Page(events: seq<Event>, next: Option<Cursor>) | NoPage(error: Error)

  function Min(a: nat, b: nat): nat {
    if a < b then a else b
  }

  function Slice(batch: seq<Event>, offset: nat, room: nat): seq<Event> {
    batch[Min(offset, |batch|)..Min(offset + room, |batch|)]
  }

  /** The events from a pointer's commit on, starting inside its batch. */
  ghost function Stream(d: Dir, p: Pointer, offset: nat): seq<Event>
    requires Linear(d, p)
    decreases Rev(p)
  {
    match p
    case Root => []
    case Commit(r, t) =>
      var j := d.journals[Key(r, t)];
      j.events[Min(offset, |j.events|)..] + Stream(d, j.parent, 0)
  }

  /** A pointer to a commit of the history, or to its end. */
  ghost predicate OnChain(d: Dir, p: Pointer) {
    Linear(d, p) && (p.Commit? ==> Key(p.revision, p.tx) in History(d, d.head))
  }

  lemma {:induction false} HistoryWithin(d: Dir, p: Pointer, q: Pointer)
    requires Linear(d, p) && q.Commit? && Key(q.revision, q.tx) in History(d, p)
    ensures Linear(d, q)
    ensures forall k :: k in History(d, q) ==> k in History(d, p)
    decreases Rev(p)
  {
    var k := Key(p.revision, p.tx);
    if q != p {
      HistoryWithin(d, d.journals[k].parent, q);
      assert History(d, p) == [k] + History(d, d.journals[k].parent);
    }
  }

  lemma ParentOnChain(d: Dir, p: Pointer)
    requires Valid(d) && OnChain(d, p) && p.Commit?
    ensures Key(p.revision, p.tx) in d.journals
    ensures OnChain(d, d.journals[Key(p.revision, p.tx)].parent)
  {
    var q := d.journals[Key(p.revision, p.tx)].parent;
    HistoryWithin(d, d.head, p);
    if q.Commit? {
      assert Key(q.revision, q.tx) in History(d, q);
      assert History(d, p) == [Key(p.revision, p.tx)] + History(d, q);
    }
  }

  /** Few enough commits are newer. */
  ghost predicate Near(d: Dir, p: Pointer, max: nat) {
    p.Commit? && Rev(p) <= Rev(d.head) && Rev(d.head) - Rev(p) < max
  }

  /** The journals of the newer commits can be read. */
  ghost predicate NewerFit(d: Dir, p: Pointer) {
    forall k :: k in History(d, d.head) && k.revision > Rev(p) ==> Fits(d, k)
  }

  /** Looking a commit up from HEAD finds it exactly when fewer than the limit are newer and
      their journals can all be read. */
  lemma LookupOnChain(d: Dir, q: Pointer, max: nat)
    requires Valid(d) && OnChain(d, q) && q.Commit?
    ensures Rev(q) <= Rev(d.head)
    ensures Reachable(d, d.head, q.tx, max, None) == if Near(d, q, max) && NewerFit(d, q) then At(q) else OverLimit
  {
    ReachableExact(d, d.head, q.tx, max, None);
    var h := History(d, d.head);
    var k := Key(q.revision, q.tx);
    var i :| 0 <= i < |h| && h[i] == k;
    HistoryIsLinear(d);
    WalkableExact(d, q, i);
    var found := Reachable(d, d.head, q.tx, max, None);
    if found.At? {
      var x :| 0 <= x < |h| && x < max && h[x].tx == q.tx && Walkable(d, h, x, None);
      assert x == i;
      HistoryNamesOnce(d, k, Key(Rev(found.pointer), q.tx));
    } else {
      assert !(i < max && Walkable(d, h, i, None));
    }
  }

  lemma WalkableExact(d: Dir, q: Pointer, i: nat)
    requires Valid(d) && i < |History(d, d.head)| && PointerTo(History(d, d.head)[i]) == q
    ensures Walkable(d, History(d, d.head), i, None) <==> NewerFit(d, q)
  {
    HistoryShape(d, d.head);
    var h := History(d, d.head);
    if Walkable(d, h, i, None) {
      forall k | k in h && k.revision > Rev(q) ensures Fits(d, k) {
        var j :| 0 <= j < |h| && h[j] == k;
      }
    }
    if NewerFit(d, q) {
      forall j | 0 <= j < i ensures Fits(d, h[j]) {
        assert h[j] in h;
      }
    }
  }

  /** One turn of the page loop, with `room` events still wanted: it ends the page, or has taken a
      batch to its end and goes on at the parent. */
  datatype Turn = Ends(page: Page) | Goes(taken: seq<Event>, next: Pointer)

  ghost function TurnAt(d: Dir, p: Pointer, offset: nat, room: nat, max: nat): Turn
    requires Valid(d) && OnChain(d, p) && p.Commit?
  {
    ParentOnChain(d, p);
    var j := d.journals[Key(p.revision, p.tx)];
    var taken := Slice(j.events, offset, room);
    var consumed := Consumed(|j.events|, offset, room);
    if j.fileBytes > READ_BYTES then Ends(NoPage(TooLarge))
    else if consumed < |j.events| then Ends(Page(taken, Some(Cursor(p.revision, p.tx, consumed))))
    else if j.parent.Root? then Ends(Page(taken, None))
    else
      LookupOnChain(d, j.parent, max);
      match Reachable(d, d.head, j.parent.tx, max, None)
      case OverLimit => Ends(NoPage(TooLarge))
      case Missing => Ends(Page(taken, None))
      case At(q) => if |taken| >= room then Ends(Page(taken, Some(Cursor(Rev(q), q.tx, 0)))) else Goes(taken, q)
  }

  /** A turn that goes on does so at the recorded parent, further back. */
  lemma TurnGoesOn(d: Dir, p: Pointer, offset: nat, room: nat, max: nat)
    requires Valid(d) && OnChain(d, p) && p.Commit?
    ensures Key(p.revision, p.tx) in d.journals
    ensures var turn := TurnAt(d, p, offset, room, max);
      turn.Goes? ==>
        && turn.next == d.journals[Key(p.revision, p.tx)].parent && turn.next.Commit?
        && OnChain(d, turn.next) && Rev(turn.next) < Rev(p) && |turn.taken| < room
        && Near(d, turn.next, max)
  {
    ParentOnChain(d, p);
    LookupOnChain(d, p, max);
    var j := d.journals[Key(p.revision, p.tx)];
    if j.parent.Commit? {
      LookupOnChain(d, j.parent, max);
    }
  }

  /** The page loop: what is taken so far, and the turns still to come. */
  ghost function PageLoop(d: Dir, events: seq<Event>, p: Pointer, offset: nat, limit: nat, max: nat): Page
    requires Valid(d) && OnChain(d, p) && |events| < limit
    decreases Rev(p)
  {
    if p.Root? then Page(events, None)
    else
      TurnGoesOn(d, p, offset, limit - |events|, max);
      match TurnAt(d, p, offset, limit - |events|, max)
      case Ends(page) => Behind(events, page)
      case Goes(taken, next) => PageLoop(d, events + taken, next, 0, limit, max)
  }

  /** A page with events put before it. */
  function Behind(events: seq<Event>, page: Page): Page {
    if page.NoPage? then page else Page(events + page.events, page.next)
  }

  /** `op_campaign_events`. */
  ghost function EventsOp(d: Dir, cursor: Option<Cursor>, limit: int, max: nat): Page
    requires Valid(d)
  {
    if !(1 <= limit <= 500) then NoPage(Malformed)
    else if cursor.None? then
      HeadOnChain(d);
      PageLoop(d, [], d.head, 0, limit, max)
    else
      ReachableSound(d, d.head, cursor.value.tx, max, None);
      match Reachable(d, d.head, cursor.value.tx, max, None)
      case OverLimit => NoPage(TooLarge)
      case Missing => NoPage(StoreConflict)
      case At(p) =>
        if Rev(p) != cursor.value.revision then NoPage(StoreConflict)
        else PageLoop(d, [], p, cursor.value.offset, limit, max)
  }

  lemma HeadOnChain(d: Dir)
    requires Valid(d)
    ensures OnChain(d, d.head)
  {
  }

  function At'(c: Cursor): Pointer {
    Commit(c.revision, c.tx)
  }

  /** What is still to come after a page. */
  ghost function Rest(d: Dir, next: Option<Cursor>): seq<Event>
    requires next.Some? ==> Linear(d, At'(next.value))
  {
    if next.None? then [] else Stream(d, At'(next.value), next.value.offset)
  }

  function Consumed(n: nat, offset: nat, room: nat): nat {
    offset + Min(room, if offset < n then n - offset else 0)
  }

  lemma SliceExact(batch: seq<Event>, offset: nat, room: nat)
    requires room > 0
    ensures var taken := Slice(batch, offset, room);
      var consumed := Consumed(|batch|, offset, room);
      && |taken| <= room
      && (consumed < |batch| ==> |taken| == room)
      && (consumed < |batch| ==> batch[Min(offset, |batch|)..] == taken + batch[Min(consumed, |batch|)..])
      && (consumed >= |batch| ==> taken == batch[Min(offset, |batch|)..])
  {
  }

  /** What a page must be: the next events of the stream, with a cursor that continues exactly
      where it ends. A page with a cursor is full. */
  ghost predicate Exact(d: Dir, p: Pointer, offset: nat, room: nat, page: Page, max: nat)
    requires Linear(d, p)
  {
    match page
    case NoPage(e) => e == TooLarge && !Searchable(d, max)
    case Page(events, next) =>
      && (next.Some? ==> OnChain(d, At'(next.value)) && |events| == room)
      && Stream(d, p, offset) == events + Rest(d, next)
  }

  /** What the loop must yield: the events it has, then the next ones of the stream. */
  ghost predicate ExactFrom(d: Dir, events: seq<Event>, p: Pointer, offset: nat, limit: nat, page: Page, max: nat)
    requires Linear(d, p)
  {
    match page
    case NoPage(e) => e == TooLarge && !Searchable(d, max)
    case Page(all, next) =>
      && (next.Some? ==> OnChain(d, At'(next.value)) && |all| == limit)
      && events + Stream(d, p, offset) == all + Rest(d, next)
  }

  /** A page is the next events of the stream, and its cursor continues exactly where it ends. */
  lemma LoopExact(d: Dir, p: Pointer, offset: nat, room: nat, max: nat)
    requires Valid(d) && OnChain(d, p) && room > 0
    ensures Exact(d, p, offset, room, PageLoop(d, [], p, offset, room, max), max)
  {
    LoopExactFrom(d, [], p, offset, room, max);
    assert [] + Stream(d, p, offset) == Stream(d, p, offset);
  }

  lemma {:induction false} LoopExactFrom(d: Dir, events: seq<Event>, p: Pointer, offset: nat, limit: nat, max: nat)
    requires Valid(d) && OnChain(d, p) && |events| < limit
    ensures ExactFrom(d, events, p, offset, limit, PageLoop(d, events, p, offset, limit, max), max)
    decreases Rev(p)
  {
    if p.Commit? {
      var room := limit - |events|;
      TurnGoesOn(d, p, offset, room, max);
      TurnExact(d, p, offset, room, max);
      var turn := TurnAt(d, p, offset, room, max);
      if turn.Ends? {
        EndsFrom(d, events, p, offset, limit, turn.page, max);
      } else {
        LoopExactFrom(d, events + turn.taken, turn.next, 0, limit, max);
        GoesFrom(d, events, p, offset, limit, PageLoop(d, events + turn.taken, turn.next, 0, limit, max), max);
      }
    }
  }

  lemma EndsFrom(d: Dir, events: seq<Event>, p: Pointer, offset: nat, limit: nat, page: Page, max: nat)
    requires Linear(d, p) && |events| < limit && Exact(d, p, offset, limit - |events|, page, max)
    ensures ExactFrom(d, events, p, offset, limit, Behind(events, page), max)
  {
    if page.Page? {
      Regroup(events, page.events, Rest(d, page.next));
    }
  }

  lemma GoesFrom(d: Dir, events: seq<Event>, p: Pointer, offset: nat, limit: nat, page: Page, max: nat)
    requires Linear(d, p) && p.Commit? && Key(p.revision, p.tx) in d.journals
    requires var j := d.journals[Key(p.revision, p.tx)];
      Linear(d, j.parent) &&
      ExactFrom(d, events + j.events[Min(offset, |j.events|)..], j.parent, 0, limit, page, max)
    ensures ExactFrom(d, events, p, offset, limit, page, max)
  {
    var j := d.journals[Key(p.revision, p.tx)];
    Regroup(events, j.events[Min(offset, |j.events|)..], Stream(d, j.parent, 0));
  }

  lemma Regroup(a: seq<Event>, b: seq<Event>, c: seq<Event>)
    ensures a + (b + c) == (a + b) + c
  {
  }

  /** A turn that ends the page ends it exactly; one that goes on has taken the rest of the batch. */
  lemma TurnExact(d: Dir, p: Pointer, offset: nat, room: nat, max: nat)
    requires Valid(d) && OnChain(d, p) && p.Commit? && room > 0
    ensures Key(p.revision, p.tx) in d.journals
    ensures var turn := TurnAt(d, p, offset, room, max);
      var j := d.journals[Key(p.revision, p.tx)];
      && (turn.Ends? ==> Exact(d, p, offset, room, turn.page, max))
      && (turn.Goes? ==> turn.taken == j.events[Min(offset, |j.events|)..])
  {
    ParentOnChain(d, p);
    var j := d.journals[Key(p.revision, p.tx)];
    SliceExact(j.events, offset, room);
    if Consumed(|j.events|, offset, room) < |j.events| {
      InsideBatch(d, p, offset, room, max);
    } else if j.parent.Root? {
      LastBatch(d, p, offset, room, max);
    } else {
      LookupOnChain(d, j.parent, max);
      LookupOnChain(d, p, max);
      if Rev(d.head) - Rev(j.parent) < max && |Slice(j.events, offset, room)| >= room {
        FullPage(d, p, offset, room, max);
      }
    }
  }

  /** A page that ends inside a batch. */
  lemma InsideBatch(d: Dir, p: Pointer, offset: nat, room: nat, max: nat)
    requires Valid(d) && OnChain(d, p) && p.Commit? && room > 0 && Key(p.revision, p.tx) in d.journals
    requires var j := d.journals[Key(p.revision, p.tx)];
      OnChain(d, j.parent) && Consumed(|j.events|, offset, room) < |j.events|
    ensures var j := d.journals[Key(p.revision, p.tx)];
      Exact(d, p, offset, room,
            Page(Slice(j.events, offset, room), Some(Cursor(p.revision, p.tx, Consumed(|j.events|, offset, room)))), max)
  {
    var j := d.journals[Key(p.revision, p.tx)];
    var consumed := Consumed(|j.events|, offset, room);
    SliceExact(j.events, offset, room);
    Regroup(Slice(j.events, offset, room), j.events[consumed..], Stream(d, j.parent, 0));
  }

  /** A page that ends with the oldest batch. */
  lemma LastBatch(d: Dir, p: Pointer, offset: nat, room: nat, max: nat)
    requires Valid(d) && OnChain(d, p) && p.Commit? && room > 0 && Key(p.revision, p.tx) in d.journals
    requires var j := d.journals[Key(p.revision, p.tx)];
      j.parent.Root? && Consumed(|j.events|, offset, room) >= |j.events|
    ensures var j := d.journals[Key(p.revision, p.tx)];
      Exact(d, p, offset, room, Page(Slice(j.events, offset, room), None), max)
  {
    SliceExact(d.journals[Key(p.revision, p.tx)].events, offset, room);
  }

  /** A batch that fills the page exactly: the cursor starts at the parent's first event. */
  lemma FullPage(d: Dir, p: Pointer, offset: nat, room: nat, max: nat)
    requires Valid(d) && OnChain(d, p) && p.Commit? && Key(p.revision, p.tx) in d.journals
    requires var j := d.journals[Key(p.revision, p.tx)];
      OnChain(d, j.parent) && j.parent.Commit? && |j.events[Min(offset, |j.events|)..]| == room
    ensures var j := d.journals[Key(p.revision, p.tx)];
      Exact(d, p, offset, room, Page(j.events[Min(offset, |j.events|)..], Some(Cursor(Rev(j.parent), j.parent.tx, 0))), max)
  {
  }

  /** The end of the stream is out of reach from a commit: too many commits are newer than the
      oldest one, or a journal on the way there cannot be read. */
  ghost predicate Cut(d: Dir, p: Pointer, max: nat) {
    && OnChain(d, p) && p.Commit?
    && ((Rev(d.head) > max && Near(d, p, max)) || !AllFit(d, History(d, p)))
  }

  /** Unless the history can be searched, no page ever reaches the end of the stream. */
  lemma {:induction false} CutNeverEnds(d: Dir, events: seq<Event>, p: Pointer, offset: nat, limit: nat, max: nat)
    requires Valid(d) && Cut(d, p, max) && |events| < limit
    ensures var page := PageLoop(d, events, p, offset, limit, max);
      page.Page? ==> page.next.Some? && Cut(d, At'(page.next.value), max)
    decreases Rev(p)
  {
    var room := limit - |events|;
    TurnGoesOn(d, p, offset, room, max);
    TurnStaysCut(d, p, offset, room, max);
    var turn := TurnAt(d, p, offset, room, max);
    if turn.Goes? {
      CutNeverEnds(d, events + turn.taken, turn.next, 0, limit, max);
    }
  }

  lemma TurnStaysCut(d: Dir, p: Pointer, offset: nat, room: nat, max: nat)
    requires Valid(d) && Cut(d, p, max)
    ensures var turn := TurnAt(d, p, offset, room, max);
      && (turn.Ends? && turn.page.Page? ==> turn.page.next.Some? && Cut(d, At'(turn.page.next.value), max))
      && (turn.Goes? ==> Cut(d, turn.next, max))
  {
    ParentOnChain(d, p);
    var k := Key(p.revision, p.tx);
    var j := d.journals[k];
    if Fits(d, k) {
      CutGoesBack(d, p, max);
      if j.parent.Commit? {
        LookupOnChain(d, j.parent, max);
      }
    }
  }

  /** Past a journal that can be read, the end is as far out of reach as before. */
  lemma CutGoesBack(d: Dir, p: Pointer, max: nat)
    requires Valid(d) && Cut(d, p, max) && Fits(d, Key(p.revision, p.tx))
    ensures Key(p.revision, p.tx) in d.journals
    ensures var q := d.journals[Key(p.revision, p.tx)].parent;
      q.Commit? && (Near(d, q, max) ==> Cut(d, q, max))
  {
    ParentOnChain(d, p);
    var q := d.journals[Key(p.revision, p.tx)].parent;
    assert History(d, p) == [Key(p.revision, p.tx)] + History(d, q);
    if q.Root? {
      assert false;
    }
  }

  // ---- following the pages, with commits landing in between

  lemma {:induction false} StreamFrame(d: Dir, e: Dir, p: Pointer, offset: nat)
    requires Valid(d) && Safe(d, e) && OnChain(d, p)
    ensures OnChain(e, p) && Stream(e, p, offset) == Stream(d, p, offset)
    decreases Rev(p)
  {
    if p.Commit? {
      CommitStays(d, e, Key(p.revision, p.tx));
      ParentOnChain(d, p);
      StreamFrame(d, e, d.journals[Key(p.revision, p.tx)].parent, 0);
    }
  }

  /** One page request: the store as it is then, and the limit asked for. */
  datatype PageCall = PageCall(d: Dir, limit: nat)

  /** Each request finds the store at least as far along as the one before. */
  ghost predicate StoresFollow(d: Dir, calls: seq<PageCall>) {
    forall i :: 0 <= i < |calls| ==> StoreFollows(d, calls, i)
  }

  ghost predicate StoreFollows(d: Dir, calls: seq<PageCall>, i: nat)
    requires i < |calls|
  {
    Safe(if i == 0 then d else calls[i - 1].d, calls[i].d) && 1 <= calls[i].limit <= 500
  }

  lemma StoresTail(d: Dir, calls: seq<PageCall>)
    requires StoresFollow(d, calls) && calls != []
    ensures StoresFollow(calls[0].d, calls[1..])
    ensures Safe(d, calls[0].d) && 1 <= calls[0].limit <= 500
  {
    assert StoreFollows(d, calls, 0);
    forall i | 0 <= i < |calls[1..]| ensures StoreFollows(calls[0].d, calls[1..], i) {
      assert StoreFollows(d, calls, i + 1);
    }
  }

  /** The pages obtained by following the cursors from one given: all events, and where the
      last page left off; nothing when a page failed. */
  ghost function Follow(d: Dir, calls: seq<PageCall>, cursor: Option<Cursor>, max: nat): Page
    requires StoresFollow(d, calls)
    decreases |calls|
  {
    if calls == [] || cursor.None? then Page([], cursor)
    else
      StoresTail(d, calls);
      match EventsOp(calls[0].d, cursor, calls[0].limit, max)
      case NoPage(e) => NoPage(e)
      case Page(events, next) =>
        match Follow(calls[0].d, calls[1..], next, max)
        case NoPage(e) => NoPage(e)
        case Page(more, last) => Page(events + more, last)
  }

  ghost function LastStore(d: Dir, calls: seq<PageCall>): Dir {
    if calls == [] then d else calls[|calls| - 1].d
  }

  /** A page at a cursor of an earlier store is an exact page of the same stream. */
  lemma ContinuePage(d: Dir, e: Dir, c: Cursor, limit: nat, max: nat)
    requires Valid(d) && Safe(d, e) && OnChain(d, At'(c)) && 1 <= limit <= 500
    ensures OnChain(e, At'(c)) && Stream(e, At'(c), c.offset) == Stream(d, At'(c), c.offset)
    ensures var page := EventsOp(e, Some(c), limit, max);
      && (page.Page? ==> Exact(e, At'(c), c.offset, limit, page, max))
      && (page.NoPage? ==> page.error == TooLarge && !Searchable(e, max))
      && (page.Page? ==> page == PageLoop(e, [], At'(c), c.offset, limit, max))
  {
    StreamFrame(d, e, At'(c), c.offset);
    LookupOnChain(e, At'(c), max);
    LoopExact(e, At'(c), c.offset, limit, max);
  }

  /** What following the cursors must yield. */
  ghost predicate Followed(d: Dir, c: Cursor, last: Dir, pages: nat, all: Page, max: nat)
    requires Linear(d, At'(c))
  {
    match all
    case NoPage(e) => e == TooLarge && !Searchable(last, max)
    case Page(events, next) =>
      && (next.Some? ==> OnChain(last, At'(next.value)) && |events| >= pages)
      && Stream(d, At'(c), c.offset) == events + Rest(last, next)
  }

  /** Following the cursors, with any limits and with commits, failures and recoveries landing
      between the pages, yields the events of the stream as it was at the first page, in order
      and each once: so far, a prefix; when no cursor is left, all of them. A page fails only
      when the history, as it is by then, is too long or has a journal over the read limit. Every
      page with a cursor makes progress. */
  lemma {:induction false} FollowExact(d: Dir, calls: seq<PageCall>, c: Cursor, max: nat)
    requires Valid(d) && OnChain(d, At'(c)) && StoresFollow(d, calls)
    ensures Followed(d, c, LastStore(d, calls), |calls|, Follow(d, calls, Some(c), max), max)
    decreases |calls|
  {
    if calls == [] {
      FollowNothing(d, c, max);
    } else {
      FirstPage(d, calls, c, max);
      var page := EventsOp(calls[0].d, Some(c), calls[0].limit, max);
      if page.Page? && page.next.Some? {
        FollowExact(calls[0].d, calls[1..], page.next.value, max);
      }
      FollowStep(d, calls, c, max);
    }
  }

  lemma FollowNothing(d: Dir, c: Cursor, max: nat)
    requires Linear(d, At'(c)) && OnChain(d, At'(c))
    ensures Followed(d, c, d, 0, Page([], Some(c)), max)
  {
    assert [] + Rest(d, Some(c)) == Stream(d, At'(c), c.offset);
  }

  lemma FirstPage(d: Dir, calls: seq<PageCall>, c: Cursor, max: nat)
    requires Valid(d) && OnChain(d, At'(c)) && StoresFollow(d, calls) && calls != []
    ensures Valid(calls[0].d) && StoresFollow(calls[0].d, calls[1..])
    ensures var page := EventsOp(calls[0].d, Some(c), calls[0].limit, max);
      page.Page? && page.next.Some? ==> OnChain(calls[0].d, At'(page.next.value))
  {
    StoresTail(d, calls);
    ContinuePage(d, calls[0].d, c, calls[0].limit, max);
  }

  lemma FollowStep(d: Dir, calls: seq<PageCall>, c: Cursor, max: nat)
    requires Valid(d) && OnChain(d, At'(c)) && StoresFollow(d, calls) && calls != [] && Valid(calls[0].d)
    requires var e, rest := calls[0].d, calls[1..];
      var page := EventsOp(e, Some(c), calls[0].limit, max);
      StoresFollow(e, rest) && (page.Page? && page.next.Some? ==>
        Linear(e, At'(page.next.value)) &&
        Followed(e, page.next.value, LastStore(e, rest), |rest|, Follow(e, rest, page.next, max), max))
    ensures Followed(d, c, LastStore(d, calls), |calls|, Follow(d, calls, Some(c), max), max)
  {
    var e, rest := calls[0].d, calls[1..];
    var limit := calls[0].limit;
    var page := EventsOp(e, Some(c), limit, max);
    StoresTail(d, calls);
    ContinuePage(d, e, c, limit, max);
    if page.Page? && page.next.Some? {
      var more := Follow(e, rest, page.next, max);
      FollowMore(d, calls, c, max, page, more);
      JoinFollowed(d, e, c, limit, page, LastStore(e, rest), |rest|, more, max);
    } else {
      FollowLast(d, calls, c, max, page);
      if page.NoPage? && Searchable(LastStore(e, rest), max) {
        StoresSearchable(e, rest, max);
      }
      LastPage(d, e, c, limit, page, LastStore(e, rest), |calls|, max);
    }
  }

  lemma FollowMore(d: Dir, calls: seq<PageCall>, c: Cursor, max: nat, page: Page, more: Page)
    requires StoresFollow(d, calls) && calls != [] && StoresFollow(calls[0].d, calls[1..]) && Valid(calls[0].d)
    requires page == EventsOp(calls[0].d, Some(c), calls[0].limit, max) && page.Page? && page.next.Some?
    requires more == Follow(calls[0].d, calls[1..], page.next, max)
    ensures LastStore(d, calls) == LastStore(calls[0].d, calls[1..])
    ensures Follow(d, calls, Some(c), max) ==
      if more.NoPage? then more else Page(page.events + more.events, more.next)
  {
  }

  lemma FollowLast(d: Dir, calls: seq<PageCall>, c: Cursor, max: nat, page: Page)
    requires StoresFollow(d, calls) && calls != [] && Valid(calls[0].d)
    requires page == EventsOp(calls[0].d, Some(c), calls[0].limit, max) && (page.Page? ==> page.next.None?)
    ensures LastStore(d, calls) == LastStore(calls[0].d, calls[1..])
    ensures Follow(d, calls, Some(c), max) == page
  {
    if page.Page? {
      assert page.events + [] == page.events;
    }
  }

  lemma LastPage(d: Dir, e: Dir, c: Cursor, limit: nat, page: Page, last: Dir, pages: nat, max: nat)
    requires OnChain(d, At'(c)) && OnChain(e, At'(c)) && Stream(e, At'(c), c.offset) == Stream(d, At'(c), c.offset)
    requires page.Page? ==> page.next.None? && Exact(e, At'(c), c.offset, limit, page, max)
    requires page.NoPage? ==> page.error == TooLarge && !Searchable(last, max)
    ensures Followed(d, c, last, pages, page, max)
  {
  }

  lemma JoinFollowed(d: Dir, e: Dir, c: Cursor, limit: nat, page: Page, last: Dir, pages: nat, more: Page, max: nat)
    requires OnChain(d, At'(c)) && OnChain(e, At'(c)) && limit >= 1
    requires Stream(e, At'(c), c.offset) == Stream(d, At'(c), c.offset)
    requires page.Page? && page.next.Some? && Exact(e, At'(c), c.offset, limit, page, max)
    requires Followed(e, page.next.value, last, pages, more, max)
    ensures Followed(d, c, last, pages + 1,
                     if more.NoPage? then more else Page(page.events + more.events, more.next), max)
  {
    if more.Page? {
      Regroup(page.events, more.events, Rest(last, more.next));
    }
  }

  /** A history that cannot be searched never can be again. */
  lemma SearchableEarlier(d: Dir, e: Dir, max: nat)
    requires Valid(d) && Safe(d, e) && Searchable(e, max)
    ensures Searchable(d, max)
  {
    HistoryShape(d, d.head);
    HistoryShape(e, e.head);
    forall k | k in History(d, d.head) ensures Fits(d, k) {
      CommitStays(d, e, k);
    }
  }

  lemma {:induction false} StoresSearchable(d: Dir, calls: seq<PageCall>, max: nat)
    requires StoresFollow(d, calls) && Valid(d) && Searchable(LastStore(d, calls), max)
    ensures Searchable(d, max)
    decreases |calls|
  {
    if calls != [] {
      StoresTail(d, calls);
      StoresSearchable(calls[0].d, calls[1..], max);
      SearchableEarlier(d, calls[0].d, max);
    }
  }

  // ---- the whole stream

  /** The events of a list of commits, batch by batch. */
  ghost function Batches(d: Dir, h: seq<Key>): seq<Event>
    requires forall k :: k in h ==> k in d.journals
  {
    if h == [] then [] else d.journals[h[0]].events + Batches(d, h[1..])
  }

  /** From HEAD, the stream is the batches of the history, newest commit first. */
  lemma {:induction false} StreamIsBatches(d: Dir, p: Pointer)
    requires Linear(d, p)
    ensures forall k :: k in History(d, p) ==> k in d.journals
    ensures Stream(d, p, 0) == Batches(d, History(d, p))
    decreases Rev(p)
  {
    if p.Commit? {
      var k := Key(p.revision, p.tx);
      StreamIsBatches(d, d.journals[k].parent);
      assert History(d, p)[1..] == History(d, d.journals[k].parent);
    }
  }

  function FirstCursor(d: Dir): Cursor {
    Cursor(Rev(d.head), if d.head.Commit? then d.head.tx else 0, 0)
  }

  /** The first page is the page at HEAD's own cursor. */
  lemma FirstPageIsHead(d: Dir, limit: int, max: nat)
    requires Valid(d) && d.head.Commit? && max > 0
    ensures OnChain(d, At'(FirstCursor(d)))
    ensures EventsOp(d, None, limit, max) == EventsOp(d, Some(FirstCursor(d)), limit, max)
  {
    assert At'(FirstCursor(d)) == d.head;
  }

  /** A whole reading: a first page without a cursor, then the pages its cursors lead to. */
  ghost function Reading(d: Dir, limit: nat, calls: seq<PageCall>, max: nat): Page
    requires Valid(d) && StoresFollow(d, calls)
  {
    match EventsOp(d, None, limit, max)
    case NoPage(e) => NoPage(e)
    case Page(events, next) => Behind(events, Follow(d, calls, next, max))
  }

  /** A reading of the events, with any limits and with commits, failures and recoveries landing
      between its pages, yields exactly the events of the commits reachable from the HEAD that the
      first page saw, newest commit first, in batch order, each once: a start of them while a
      cursor is left, then all. It fails only when the history, as it is by then, is too long or
      has a journal over the read limit. */
  lemma ReadingIsComplete(d: Dir, limit: nat, calls: seq<PageCall>, max: nat)
    requires Valid(d) && 1 <= limit <= 500 && StoresFollow(d, calls) && max > 0
    ensures forall k :: k in History(d, d.head) ==> k in d.journals
    ensures var all := Reading(d, limit, calls, max);
      && (all.NoPage? ==> all.error == TooLarge && !Searchable(LastStore(d, calls), max))
      && (all.Page? ==> all.events <= Batches(d, History(d, d.head)))
      && (all.Page? && all.next.None? ==> all.events == Batches(d, History(d, d.head)))
  {
    StreamIsBatches(d, d.head);
    if d.head.Commit? {
      var c := FirstCursor(d);
      FirstPageIsHead(d, limit, max);
      FirstOfAll(d, limit, calls);
      var more := [PageCall(d, limit)] + calls;
      FollowExact(d, more, c, max);
      ReadingFollows(d, limit, calls, max);
    }
  }

  lemma FirstOfAll(d: Dir, limit: nat, calls: seq<PageCall>)
    requires Valid(d) && 1 <= limit <= 500 && StoresFollow(d, calls)
    ensures var more := [PageCall(d, limit)] + calls;
      StoresFollow(d, more) && more[1..] == calls && LastStore(d, more) == LastStore(d, calls)
  {
    GrowsReflexive(d);
    var more := [PageCall(d, limit)] + calls;
    assert more[1..] == calls;
    forall i | 0 <= i < |more| ensures StoreFollows(d, more, i) {
      if i > 0 {
        assert StoreFollows(d, calls, i - 1);
      }
    }
  }

  /** A reading follows HEAD's own cursor. */
  lemma ReadingFollows(d: Dir, limit: nat, calls: seq<PageCall>, max: nat)
    requires Valid(d) && d.head.Commit? && 1 <= limit <= 500 && StoresFollow(d, calls) && max > 0
    requires StoresFollow(d, [PageCall(d, limit)] + calls)
    ensures Reading(d, limit, calls, max) == Follow(d, [PageCall(d, limit)] + calls, Some(FirstCursor(d)), max)
  {
    FirstPageIsHead(d, limit, max);
    var more := [PageCall(d, limit)] + calls;
    assert more[1..] == calls;
    var page := EventsOp(d, None, limit, max);
    if page.Page? {
      if page.next.Some? {
        FollowMore(d, more, FirstCursor(d), max, page, Follow(d, calls, page.next, max));
      } else {
        FollowLast(d, more, FirstCursor(d), max, page);
        assert page.events + [] == page.events;
      }
    }
  }

  function Repeat(d: Dir, limit: nat, n: nat): seq<PageCall> {
    if n == 0 then [] else [PageCall(d, limit)] + Repeat(d, limit, n - 1)
  }

  lemma {:induction false} RepeatFollows(d: Dir, limit: nat, n: nat)
    requires Valid(d) && 1 <= limit <= 500
    ensures |Repeat(d, limit, n)| == n && StoresFollow(d, Repeat(d, limit, n)) && LastStore(d, Repeat(d, limit, n)) == d
  {
    GrowsReflexive(d);
    if n > 0 {
      RepeatFollows(d, limit, n - 1);
      var calls := Repeat(d, limit, n);
      assert calls[1..] == Repeat(d, limit, n - 1);
      forall i | 0 <= i < n ensures StoreFollows(d, calls, i) {
        if i > 0 {
          assert StoreFollows(d, calls[1..], i - 1);
        }
      }
    }
  }

  /** On a store at rest, following the cursors reaches the end within one page per event and
      one more, exactly when the history is no longer than the traversal limit and every journal
      of it can be read. */
  lemma PagingEndsExactlyWhen(d: Dir, limit: nat, max: nat, n: nat)
    requires Valid(d) && d.head.Commit? && 1 <= limit <= 500 && max > 0
    requires n > |Stream(d, d.head, 0)|
    ensures StoresFollow(d, Repeat(d, limit, n))
    ensures var all := Follow(d, Repeat(d, limit, n), Some(FirstCursor(d)), max);
      && (Searchable(d, max) ==> all == Page(Stream(d, d.head, 0), None))
      && (!Searchable(d, max) ==> !(all.Page? && all.next.None?))
  {
    var c := FirstCursor(d);
    assert At'(c) == d.head;
    RepeatFollows(d, limit, n);
    FollowExact(d, Repeat(d, limit, n), c, max);
    if !Searchable(d, max) {
      NeverEnds(d, limit, n, c, max);
    }
  }

  /** One page of a store whose history cannot be searched: more is to come. */
  lemma NeverEndsStep(d: Dir, limit: nat, c: Cursor, max: nat)
    requires Valid(d) && 1 <= limit <= 500 && Cut(d, At'(c), max)
    ensures var page := EventsOp(d, Some(c), limit, max);
      page.Page? ==> page.next.Some? && Cut(d, At'(page.next.value), max)
  {
    GrowsReflexive(d);
    ContinuePage(d, d, c, limit, max);
    CutNeverEnds(d, [], At'(c), c.offset, limit, max);
  }

  lemma {:induction false} NeverEnds(d: Dir, limit: nat, n: nat, c: Cursor, max: nat)
    requires Valid(d) && 1 <= limit <= 500 && Cut(d, At'(c), max)
    requires StoresFollow(d, Repeat(d, limit, n))
    ensures var all := Follow(d, Repeat(d, limit, n), Some(c), max);
      !(all.Page? && all.next.None?)
    decreases n
  {
    if n > 0 {
      NeverEndsStep(d, limit, c, max);
      var page := EventsOp(d, Some(c), limit, max);
      if page.Page? {
        RepeatFollows(d, limit, n - 1);
        NeverEnds(d, limit, n - 1, page.next.value, max);
        FollowRepeat(d, limit, n, c, max, page);
      }
    }
  }

  lemma FollowRepeat(d: Dir, limit: nat, n: nat, c: Cursor, max: nat, page: Page)
    requires n > 0 && Valid(d) && page == EventsOp(d, Some(c), limit, max) && page.Page? && page.next.Some?
    requires StoresFollow(d, Repeat(d, limit, n)) && StoresFollow(d, Repeat(d, limit, n - 1))
    ensures var more := Follow(d, Repeat(d, limit, n - 1), page.next, max);
      Follow(d, Repeat(d, limit, n), Some(c), max) ==
        if more.NoPage? then more else Page(page.events + more.events, more.next)
  {
    var calls := Repeat(d, limit, n);
    assert calls[1..] == Repeat(d, limit, n - 1);
    FollowMore(d, calls, c, max, page, Follow(d, Repeat(d, limit, n - 1), page.next, max));
  }
}
