/** The forward change pages of the store: bounded in commits, journal bytes and page bytes, with
    the coverage of the page stated on it. */
module CampaignChanges {
  import opened Common
  import opened CampaignStore
  import opened CampaignHistory
  import opened CampaignCommits
  import opened CampaignReaders

  /** The three bounds of the traversal: commits walked, journal bytes read, page bytes sent. */
  datatype Bounds = Bounds(commits: nat, journalBytes: nat, pageBytes: nat)

  const CHANGE_COMMITS := 128
  const CHANGE_JOURNAL_BYTES := 8388608
  const CHANGE_PAGE_BYTES := 1048576
  const CHANGE_LIMIT := 8
  const Limits := Bounds(CHANGE_COMMITS, CHANGE_JOURNAL_BYTES, CHANGE_PAGE_BYTES)

  datatype Change = Change(commit: Key, events: seq<Event>, documents: map<Doc, Digest>)

  datatype ChangePage =
    | Changes(items: seq<Change>, complete: bool, nextAfter: Option<TxId>, hasMore: bool)
    | NoChanges(error: Error)

  /** The commits of the store, oldest first: revision i + 1 stands at index i. */
  ghost function Log(d: Dir): seq<Key> {
    Reverse(History(d, d.head))
  }

  function Reverse<T>(s: seq<T>): (r: seq<T>)
    ensures |r| == |s|
  {
    if s == [] then [] else Reverse(s[1..]) + [s[0]]
  }

  lemma {:induction false} ReverseAt<T>(s: seq<T>)
    ensures forall i :: 0 <= i < |s| ==> Reverse(s)[i] == s[|s| - 1 - i]
    ensures forall x :: x in Reverse(s) <==> x in s
  {
    if s != [] {
      ReverseAt(s[1..]);
      assert s == [s[0]] + s[1..];
    }
  }

  // ------------------------------------------------------------------ the operation

  datatype Walked = Walked(chain: seq<Key>, reached: bool) | Unreadable

  /** Back from a pointer to the commit already known, newest first, within the bounds. A journal
      within them but over the read limit ends the operation. */
  ghost function Walk(d: Dir, p: Pointer, after: Option<TxId>, fuel: nat, bytes: nat): Walked
    requires Linear(d, p)
    decreases fuel
  {
    if p.Root? then Walked([], after.None?)
    else if fuel == 0 then Walked([], false)
    else if after == Some(p.tx) then Walked([], true)
    else
      var k := Key(p.revision, p.tx);
      if d.journals[k].fileBytes > bytes then Walked([], false)
      else if d.journals[k].fileBytes > READ_BYTES then Unreadable
      else
        match Walk(d, d.journals[k].parent, after, fuel - 1, bytes - d.journals[k].fileBytes)
        case Unreadable => Unreadable
        case Walked(chain, reached) => Walked([k] + chain, reached)
  }

  /** The longest start of a list that fits in `limit` entries and `room` bytes. */
  function Select(d: Dir, chain: seq<Key>, limit: nat, room: nat): seq<Key>
    requires forall k :: k in chain ==> k in d.journals
  {
    if chain == [] || limit == 0 || d.journals[chain[0]].itemBytes > room then []
    else [chain[0]] + Select(d, chain[1..], limit - 1, room - d.journals[chain[0]].itemBytes)
  }

  function ChangeOf(d: Dir, k: Key): Change
    requires k in d.journals
  {
    Change(k, d.journals[k].events, d.journals[k].documents)
  }

  function ChangesOf(d: Dir, keys: seq<Key>): seq<Change>
    requires forall k :: k in keys ==> k in d.journals
  {
    seq(|keys|, i requires 0 <= i < |keys| => ChangeOf(d, keys[i]))
  }

  /** The page for the commits walked, newest first. */
  function PageOf(d: Dir, w: Walked, after: Option<TxId>, limit: nat, room: nat): ChangePage
    requires w.Walked? ==> forall k :: k in w.chain ==> k in d.journals
  {
    if w.Unreadable? then NoChanges(TooLarge) else
    ReverseAt(w.chain);
    var chain := Reverse(w.chain);
    if chain != [] && d.journals[chain[0]].itemBytes > room then NoChanges(TooLarge)
    else
      var selected := Select(d, chain, limit, room);
      SelectExact(d, chain, limit, room);
      Changes(ChangesOf(d, selected), w.reached,
              if selected == [] then after else Some(selected[|selected| - 1].tx), |selected| < |chain|)
  }

  /** `op_campaign_changes`. */
  ghost function ChangesOp(d: Dir, after: Option<TxId>, limit: int, b: Bounds): ChangePage
    requires Valid(d)
  {
    if !(1 <= limit <= CHANGE_LIMIT) then NoChanges(Malformed)
    else
      WalkIsPrefix(d, d.head, after, b.commits, b.journalBytes);
      HistoryShape(d, d.head);
      PageOf(d, Walk(d, d.head, after, b.commits, b.journalBytes), after, limit, b.pageBytes)
  }

  // ------------------------------------------------------------------ what is walked

  lemma {:induction false} WalkIsPrefix(d: Dir, p: Pointer, after: Option<TxId>, fuel: nat, bytes: nat)
    requires Linear(d, p)
    ensures var w := Walk(d, p, after, fuel, bytes);
      w.Walked? ==> w.chain <= History(d, p)
    decreases fuel
  {
    if p.Commit? && fuel > 0 && after != Some(p.tx) {
      var k := Key(p.revision, p.tx);
      assert History(d, p) == [k] + History(d, d.journals[k].parent);
      if d.journals[k].fileBytes <= bytes && Fits(d, k) {
        WalkIsPrefix(d, d.journals[k].parent, after, fuel - 1, bytes - d.journals[k].fileBytes);
      }
    }
  }

  /** `m` commits of a history are newer than the one already known. */
  ghost predicate Newer(h: seq<Key>, after: Option<TxId>, m: nat) {
    && m <= |h|
    && (after.None? ==> m == |h|)
    && (after.Some? ==> m < |h| && h[m].tx == after.value)
    && (forall i :: 0 <= i < m ==> Some(h[i].tx) != after)
  }

  /** The newer commits are within the bounds of the traversal. From the empty run, one more
      commit is. */
  ghost predicate Covered(d: Dir, h: seq<Key>, after: Option<TxId>, m: nat, fuel: nat, bytes: nat)
    requires m <= |h|
  {
    JournalBytes(d, h, m) <= bytes && (m < fuel || (after.None? && m == fuel))
  }

  /** A newer commit within the bounds has a journal over the read limit. */
  ghost predicate Trips(d: Dir, h: seq<Key>, m: nat, fuel: nat, bytes: nat)
    requires m <= |h|
  {
    exists i :: 0 <= i < m && i < fuel && !Fits(d, h[i]) && JournalBytes(d, h, i + 1) <= bytes
  }

  /** As many of the newer commits as are within the bounds. */
  ghost predicate Longest(d: Dir, h: seq<Key>, m: nat, fuel: nat, bytes: nat, n: nat)
    requires m <= |h|
  {
    && n <= m && n <= fuel && JournalBytes(d, h, n) <= bytes
    && (n < m && n < fuel ==> JournalBytes(d, h, n + 1) > bytes)
  }

  /** What walking over a history must yield. */
  ghost predicate WalkIs(d: Dir, h: seq<Key>, after: Option<TxId>, m: nat, fuel: nat, bytes: nat, w: Walked)
    requires m <= |h|
  {
    && (w.Unreadable? <==> Trips(d, h, m, fuel, bytes))
    && (w.Walked? ==>
          && |w.chain| <= |h| && w.chain == h[..|w.chain|] && Longest(d, h, m, fuel, bytes, |w.chain|)
          && (w.reached <==> Covered(d, h, after, m, fuel, bytes))
          && (w.reached ==> |w.chain| == m))
  }

  /** The traversal fails exactly when a newer commit within its bounds cannot be read. Otherwise
      it has walked as many of the newer commits as are within the bounds, and it reaches the
      known commit exactly when all of them are. */
  lemma {:induction false} WalkExact(d: Dir, p: Pointer, after: Option<TxId>, m: nat, fuel: nat, bytes: nat)
    requires Linear(d, p) && Newer(History(d, p), after, m)
    ensures WalkIs(d, History(d, p), after, m, fuel, bytes, Walk(d, p, after, fuel, bytes))
    decreases fuel, 1
  {
    if p.Root? || m == 0 {
      WalkStops(d, History(d, p), after, fuel, bytes, Walk(d, p, after, fuel, bytes));
    } else {
      NewerParent(d, p, after, m);
      var k := Key(p.revision, p.tx);
      WalkOn(d, p, k, History(d, p), History(d, d.journals[k].parent), after, m, fuel, bytes);
    }
  }

  /** The walk goes past a commit. */
  predicate Goes(d: Dir, k: Key, fuel: nat, bytes: nat) {
    fuel > 0 && FileBytes(d, k) <= bytes && Fits(d, k)
  }

  lemma NewerParent(d: Dir, p: Pointer, after: Option<TxId>, m: nat)
    requires Linear(d, p) && p.Commit? && m > 0 && Newer(History(d, p), after, m)
    ensures var k := Key(p.revision, p.tx);
      && k in d.journals && Linear(d, d.journals[k].parent) && after != Some(p.tx)
      && History(d, p) == [k] + History(d, d.journals[k].parent)
      && Newer(History(d, d.journals[k].parent), after, m - 1)
  {
    var k := Key(p.revision, p.tx);
    NewerTail(k, History(d, d.journals[k].parent), after, m);
  }

  lemma {:induction false} WalkOn(d: Dir, p: Pointer, k: Key, h: seq<Key>, t: seq<Key>, after: Option<TxId>, m: nat,
                                  fuel: nat, bytes: nat)
    requires Linear(d, p) && p == PointerTo(k) && k in d.journals && after != Some(p.tx)
    requires Linear(d, d.journals[k].parent) && t == History(d, d.journals[k].parent)
    requires h == [k] + t && 0 < m <= |h| && Newer(t, after, m - 1)
    ensures WalkIs(d, h, after, m, fuel, bytes, Walk(d, p, after, fuel, bytes))
    decreases fuel, 0
  {
    WalkUnfolds(d, p, after, fuel, bytes);
    var v := Walk(d, p, after, fuel, bytes);
    if Goes(d, k, fuel, bytes) {
      var w := Walk(d, d.journals[k].parent, after, fuel - 1, bytes - FileBytes(d, k));
      WalkExact(d, d.journals[k].parent, after, m - 1, fuel - 1, bytes - FileBytes(d, k));
      WalkStep(d, h, k, t, after, m, fuel, bytes, w, v);
    } else {
      WalkEnds(d, h, k, t, after, m, fuel, bytes, v);
    }
  }

  /** One step of the walk, from a commit that is not the known one. */
  lemma WalkUnfolds(d: Dir, p: Pointer, after: Option<TxId>, fuel: nat, bytes: nat)
    requires Linear(d, p) && p.Commit? && after != Some(p.tx)
    ensures Key(p.revision, p.tx) in d.journals
    ensures var k := Key(p.revision, p.tx);
      Walk(d, p, after, fuel, bytes) ==
        if fuel == 0 || FileBytes(d, k) > bytes then Walked([], false)
        else if !Fits(d, k) then Unreadable
        else On(k, Walk(d, d.journals[k].parent, after, fuel - 1, bytes - FileBytes(d, k)))
  {
  }

  /** A walk with one more commit before it. */
  function On(k: Key, w: Walked): Walked {
    if w.Unreadable? then w else Walked([k] + w.chain, w.reached)
  }

  /** A walk with nothing newer before it. */
  lemma WalkStops(d: Dir, h: seq<Key>, after: Option<TxId>, fuel: nat, bytes: nat, v: Walked)
    requires v == Walked([], after.None? || fuel > 0)
    ensures WalkIs(d, h, after, 0, fuel, bytes, v)
  {
    assert h[..0] == [];
  }

  lemma WalkStep(d: Dir, h: seq<Key>, k: Key, t: seq<Key>, after: Option<TxId>, m: nat, fuel: nat, bytes: nat,
                 w: Walked, v: Walked)
    requires h == [k] + t && v == On(k, w)
    requires 0 < m <= |t| + 1 && fuel > 0 && FileBytes(d, k) <= bytes && Fits(d, k)
    requires WalkIs(d, t, after, m - 1, fuel - 1, bytes - FileBytes(d, k), w)
    ensures WalkIs(d, h, after, m, fuel, bytes, v)
  {
    TripsTail(d, k, t, m, fuel, bytes);
    BytesTail(d, k, t, m);
    if w.Walked? {
      var n := |w.chain|;
      BytesTail(d, k, t, n + 1);
      assert ([k] + t)[..n + 1] == [k] + t[..n];
      if n < m - 1 && n < fuel - 1 {
        BytesTail(d, k, t, n + 2);
      }
    }
  }

  /** A walk that goes no further, or cannot. */
  lemma WalkEnds(d: Dir, h: seq<Key>, k: Key, t: seq<Key>, after: Option<TxId>, m: nat, fuel: nat, bytes: nat,
                 v: Walked)
    requires h == [k] + t && 0 < m <= |h|
    requires v == if fuel == 0 || FileBytes(d, k) > bytes then Walked([], false) else Unreadable
    requires fuel == 0 || FileBytes(d, k) > bytes || !Fits(d, k)
    ensures WalkIs(d, h, after, m, fuel, bytes, v)
  {
    assert h[..0] == [] && h[0] == k;
    BytesGrow(d, h, 1, m);
    if v.Unreadable? {
      assert !Fits(d, h[0]) && JournalBytes(d, h, 0 + 1) <= bytes;
    } else if i :| 0 <= i < m && i < fuel && !Fits(d, h[i]) && JournalBytes(d, h, i + 1) <= bytes {
      BytesGrow(d, h, 1, i + 1);
      assert false;
    }
  }

  lemma TripsTail(d: Dir, k: Key, t: seq<Key>, m: nat, fuel: nat, bytes: nat)
    requires 0 < m <= |t| + 1 && fuel > 0 && FileBytes(d, k) <= bytes && Fits(d, k)
    ensures Trips(d, [k] + t, m, fuel, bytes) <==> Trips(d, t, m - 1, fuel - 1, bytes - FileBytes(d, k))
  {
    var h, left := [k] + t, bytes - FileBytes(d, k);
    if i :| 0 <= i < m && i < fuel && !Fits(d, h[i]) && JournalBytes(d, h, i + 1) <= bytes {
      BytesTail(d, k, t, i + 1);
      assert !Fits(d, t[i - 1]) && JournalBytes(d, t, (i - 1) + 1) <= left;
    }
    if i :| 0 <= i < m - 1 && i < fuel - 1 && !Fits(d, t[i]) && JournalBytes(d, t, i + 1) <= left {
      BytesTail(d, k, t, i + 2);
      assert !Fits(d, h[i + 1]) && JournalBytes(d, h, (i + 1) + 1) <= bytes;
    }
  }

  lemma LongestOnce(d: Dir, h: seq<Key>, m: nat, fuel: nat, bytes: nat, a: nat, b: nat)
    requires m <= |h| && Longest(d, h, m, fuel, bytes, a) && Longest(d, h, m, fuel, bytes, b)
    ensures a == b
  {
    if a < b {
      BytesGrow(d, h, a + 1, b);
      assert false;
    } else if b < a {
      BytesGrow(d, h, b + 1, a);
      assert false;
    }
  }

  lemma NewerTail(k: Key, t: seq<Key>, after: Option<TxId>, m: nat)
    requires m > 0 && Newer([k] + t, after, m)
    ensures Newer(t, after, m - 1) && after != Some(k.tx)
  {
    assert ([k] + t)[0] == k;
    forall i | 0 <= i < m - 1 ensures Some(t[i].tx) != after {
      assert ([k] + t)[i + 1] == t[i];
    }
  }

  /** A commit that is not in the history is never reached: the page says so. */
  lemma {:induction false} UnknownIsGap(d: Dir, p: Pointer, after: TxId, fuel: nat, bytes: nat)
    requires Linear(d, p) && forall k :: k in History(d, p) ==> k.tx != after
    ensures var w := Walk(d, p, Some(after), fuel, bytes);
      w.Walked? ==> !w.reached
    decreases fuel
  {
    if p.Commit? && fuel > 0 {
      var k := Key(p.revision, p.tx);
      assert History(d, p) == [k] + History(d, d.journals[k].parent);
      if d.journals[k].fileBytes <= bytes && Fits(d, k) {
        assert k.tx != after;
        UnknownIsGap(d, d.journals[k].parent, after, fuel - 1, bytes - d.journals[k].fileBytes);
      }
    }
  }

  // ------------------------------------------------------------------ what is selected

  function ItemBytes(d: Dir, s: seq<Key>): nat
    requires forall k :: k in s ==> k in d.journals
  {
    if s == [] then 0 else d.journals[s[0]].itemBytes + ItemBytes(d, s[1..])
  }

  /** The selection is a start of the list within both limits, and one more entry would break
      one of them. */
  lemma {:induction false} SelectExact(d: Dir, chain: seq<Key>, limit: nat, room: nat)
    requires forall k :: k in chain ==> k in d.journals
    ensures var s := Select(d, chain, limit, room);
      && s <= chain && |s| <= limit && ItemBytes(d, s) <= room
      && (|s| < |chain| && |s| < limit ==> ItemBytes(d, chain[..|s| + 1]) > room)
    decreases |chain|
  {
    var s := Select(d, chain, limit, room);
    if chain != [] && limit > 0 && d.journals[chain[0]].itemBytes <= room {
      var left := room - d.journals[chain[0]].itemBytes;
      SelectExact(d, chain[1..], limit - 1, left);
      assert s[1..] == Select(d, chain[1..], limit - 1, left);
      if |s| < |chain| && |s| < limit {
        assert chain[..|s| + 1][1..] == chain[1..][..|s[1..]| + 1];
      }
    } else if chain != [] && limit > 0 {
      assert chain[..1] == [chain[0]];
    }
  }

  // ------------------------------------------------------------------ one page

  /** The known commit is the one at revision `r` of the log; none is revision 0. */
  ghost predicate KnownAt(log: seq<Key>, after: Option<TxId>, r: nat) {
    && r <= |log|
    && (after.None? <==> r == 0)
    && (r > 0 ==> after == Some(log[r - 1].tx))
  }

  ghost predicate Journaled(d: Dir, keys: seq<Key>) {
    forall k :: k in keys ==> k in d.journals
  }

  lemma LogShape(d: Dir)
    requires Valid(d)
    ensures |Log(d)| == Rev(d.head) && Journaled(d, Log(d)) && Journaled(d, History(d, d.head))
    ensures forall i :: 0 <= i < |Log(d)| ==> Log(d)[i].revision == i + 1
    ensures forall i, j :: 0 <= i < j < |Log(d)| ==> Log(d)[i].tx != Log(d)[j].tx
  {
    HistoryIsLinear(d);
    ReverseAt(History(d, d.head));
  }

  lemma LogSize(d: Dir)
    requires Valid(d)
    ensures |Log(d)| == Rev(d.head) && Journaled(d, Log(d))
  {
    LogShape(d);
  }

  lemma KnownIsNewer(h: seq<Key>, log: seq<Key>, after: Option<TxId>, r: nat)
    requires log == Reverse(h) && KnownAt(log, after, r)
    requires forall i, j :: 0 <= i < j < |log| ==> log[i].tx != log[j].tx
    ensures Newer(h, after, |log| - r) && Reverse(h[..|log| - r]) == log[r..]
  {
    var m := |log| - r;
    ReverseAt(h);
    ReverseAt(h[..m]);
    forall i | 0 <= i < m ensures Some(h[i].tx) != after {
      assert log[|h| - 1 - i] == h[i];
    }
    if r > 0 {
      assert log[r - 1] == h[m];
    }
  }

  /** What a complete page from revision `r` on must be. */
  ghost predicate Honest(d: Dir, log: seq<Key>, r: nat, limit: nat, page: ChangePage)
    requires Journaled(d, log) && page.Changes?
  {
    var n := r + |page.items|;
    && n <= |log| && |page.items| <= limit && page.items == ChangesOf(d, log[r..n])
    && KnownAt(log, page.nextAfter, n)
    && (page.hasMore <==> n < |log|)
    && (page.items == [] ==> n == |log|)
  }

  /** The oldest commit within the bounds has an entry too large for a page. */
  ghost predicate Oversized(d: Dir, h: seq<Key>, m: nat, b: Bounds)
    requires m <= |h| && Journaled(d, h)
  {
    exists n :: 0 < n <= m && Longest(d, h, m, b.commits, b.journalBytes, n) &&
      d.journals[h[n - 1]].itemBytes > b.pageBytes
  }

  /** A page fails exactly when a commit within the bounds has a journal over the read limit, or
      the oldest of them an entry over the page limit. Otherwise it is complete exactly when all
      commits after the known one are within the bounds of the traversal, and then it is the run
      of commits right after the known one, in revision order. It names the last commit it
      carries, says whether more follow, and is empty only when none does. */
  lemma PageIsHonest(d: Dir, after: Option<TxId>, r: nat, limit: nat, b: Bounds)
    requires Valid(d) && KnownAt(Log(d), after, r) && 1 <= limit <= CHANGE_LIMIT
    ensures Journaled(d, Log(d)) && Journaled(d, History(d, d.head)) && |Log(d)| == |History(d, d.head)|
    ensures PageIs(d, History(d, d.head), Log(d), after, r, limit, b, ChangesOp(d, after, limit, b))
  {
    KnownInLog(d, after, r);
    OpMakesPage(d, after, limit, b);
    PageFrom(d, d.head, Log(d), after, r, limit, b, ChangesOp(d, after, limit, b));
  }

  lemma KnownInLog(d: Dir, after: Option<TxId>, r: nat)
    requires Valid(d) && KnownAt(Log(d), after, r)
    ensures Journaled(d, Log(d)) && Journaled(d, History(d, d.head)) && |Log(d)| == |History(d, d.head)|
    ensures Newer(History(d, d.head), after, |Log(d)| - r)
    ensures Reverse(History(d, d.head)[..|Log(d)| - r]) == Log(d)[r..]
  {
    LogShape(d);
    KnownIsNewer(History(d, d.head), Log(d), after, r);
  }

  lemma OpMakesPage(d: Dir, after: Option<TxId>, limit: nat, b: Bounds)
    requires Valid(d) && 1 <= limit <= CHANGE_LIMIT
    ensures var w := Walk(d, d.head, after, b.commits, b.journalBytes);
      && (w.Walked? ==> Journaled(d, w.chain))
      && ChangesOp(d, after, limit, b) == PageOf(d, w, after, limit, b.pageBytes)
  {
    WalkIsPrefix(d, d.head, after, b.commits, b.journalBytes);
    HistoryShape(d, d.head);
  }

  lemma PageFrom(d: Dir, p: Pointer, log: seq<Key>, after: Option<TxId>, r: nat, limit: nat, b: Bounds, page: ChangePage)
    requires Linear(d, p) && r <= |log| == |History(d, p)| && limit >= 1
    requires Journaled(d, History(d, p)) && Journaled(d, log) && KnownAt(log, after, r)
    requires Newer(History(d, p), after, |log| - r) && Reverse(History(d, p)[..|log| - r]) == log[r..]
    requires var w := Walk(d, p, after, b.commits, b.journalBytes);
      (w.Walked? ==> Journaled(d, w.chain)) && page == PageOf(d, w, after, limit, b.pageBytes)
    ensures PageIs(d, History(d, p), log, after, r, limit, b, page)
  {
    var h, w := History(d, p), Walk(d, p, after, b.commits, b.journalBytes);
    WalkExact(d, p, after, |log| - r, b.commits, b.journalBytes);
    if w.Walked? {
      PageFails(d, h, |h| - r, w, after, limit, b);
      if w.reached {
        PageOfLog(d, log, after, r, limit, b.pageBytes, w);
      }
    }
  }

  /** What a page after the commit at revision `r` must be. */
  ghost predicate PageIs(d: Dir, h: seq<Key>, log: seq<Key>, after: Option<TxId>, r: nat, limit: nat, b: Bounds,
                         page: ChangePage)
    requires r <= |log| == |h| && Journaled(d, h) && Journaled(d, log)
  {
    var m := |log| - r;
    && (page.NoChanges? <==> Trips(d, h, m, b.commits, b.journalBytes) || Oversized(d, h, m, b))
    && (page.NoChanges? ==> page.error == TooLarge)
    && (page.Changes? ==> (page.complete <==> Covered(d, h, after, m, b.commits, b.journalBytes)))
    && (page.Changes? && page.complete ==> Honest(d, log, r, limit, page))
  }

  /** A walk that can be read fails to make a page exactly when its oldest entry is too large. */
  lemma PageFails(d: Dir, h: seq<Key>, m: nat, w: Walked, after: Option<TxId>, limit: nat, b: Bounds)
    requires m <= |h| && Journaled(d, h) && w.Walked? && Journaled(d, w.chain)
    requires WalkIs(d, h, after, m, b.commits, b.journalBytes, w)
    ensures var page := PageOf(d, w, after, limit, b.pageBytes);
      && (page.NoChanges? <==> Oversized(d, h, m, b))
      && (page.NoChanges? ==> page.error == TooLarge)
      && (page.Changes? ==> page.complete == w.reached)
  {
    ReverseAt(w.chain);
    var n := |w.chain|;
    if n > 0 {
      assert Reverse(w.chain)[0] == h[n - 1];
      assert Oversized(d, h, m, b) <== d.journals[h[n - 1]].itemBytes > b.pageBytes;
    }
    if x :| 0 < x <= m && Longest(d, h, m, b.commits, b.journalBytes, x) &&
            d.journals[h[x - 1]].itemBytes > b.pageBytes {
      LongestOnce(d, h, m, b.commits, b.journalBytes, x, n);
    }
  }

  lemma PageOfLog(d: Dir, log: seq<Key>, after: Option<TxId>, r: nat, limit: nat, room: nat, w: Walked)
    requires Journaled(d, log) && w.Walked? && Journaled(d, w.chain) && KnownAt(log, after, r) && limit >= 1
    requires Reverse(w.chain) == log[r..]
    ensures var page := PageOf(d, w, after, limit, room);
      page.Changes? ==> Honest(d, log, r, limit, page)
  {
    var chain := log[r..];
    SelectExact(d, chain, limit, room);
    var s := Select(d, chain, limit, room);
    assert s == log[r..r + |s|];
  }

  /** After a commit that the store does not have, every page reports a gap. */
  lemma UnknownPageIsGap(d: Dir, after: TxId, limit: int, b: Bounds)
    requires Valid(d) && forall k :: k in History(d, d.head) ==> k.tx != after
    ensures var page := ChangesOp(d, Some(after), limit, b);
      page.Changes? ==> !page.complete
  {
    if 1 <= limit <= CHANGE_LIMIT {
      UnknownIsGap(d, d.head, after, b.commits, b.journalBytes);
      WalkIsPrefix(d, d.head, Some(after), b.commits, b.journalBytes);
      HistoryShape(d, d.head);
    }
  }

  // ------------------------------------------------------------------ following the pages

  /** Later stores only add to the log, and never change what a commit says. */
  lemma LogGrows(d: Dir, e: Dir)
    requires Valid(d) && Safe(d, e)
    ensures Log(d) <= Log(e)
    ensures forall k :: k in Log(d) ==> k in d.journals && k in e.journals && e.journals[k] == d.journals[k]
  {
    LogFollows(d, e, History(d, d.head), History(e, e.head));
  }

  lemma LogFollows(d: Dir, e: Dir, h: seq<Key>, i: seq<Key>)
    requires |h| <= |i| && i[|i| - |h|..] == h
    requires forall k :: k in h ==> k in d.journals && k in e.journals && e.journals[k] == d.journals[k]
    ensures Reverse(h) <= Reverse(i)
    ensures forall k :: k in Reverse(h) ==> k in d.journals && k in e.journals && e.journals[k] == d.journals[k]
  {
    ReversedSuffix(h, i);
    LogUnchanged(d, e, h, Reverse(h));
  }

  lemma LogUnchanged(d: Dir, e: Dir, h: seq<Key>, log: seq<Key>)
    requires log == Reverse(h)
    requires forall k :: k in h ==> k in d.journals && k in e.journals && e.journals[k] == d.journals[k]
    ensures forall k :: k in log ==> k in d.journals && k in e.journals && e.journals[k] == d.journals[k]
  {
    ReverseAt(h);
  }

  lemma ReversedSuffix<T>(a: seq<T>, b: seq<T>)
    requires |a| <= |b| && b[|b| - |a|..] == a
    ensures Reverse(a) <= Reverse(b)
  {
    ReverseAt(a);
    ReverseAt(b);
    forall i | 0 <= i < |a| ensures Reverse(b)[i] == Reverse(a)[i] {
      assert Reverse(b)[i] == b[|b| - |a|..][|a| - 1 - i];
    }
  }

  datatype Poll = Poll(d: Dir, limit: nat)

  /** Each poll finds the store at least as far along as the one before. */
  ghost predicate PollsFollow(d: Dir, polls: seq<Poll>) {
    forall i :: 0 <= i < |polls| ==> PollFollows(d, polls, i)
  }

  ghost predicate PollFollows(d: Dir, polls: seq<Poll>, i: nat)
    requires i < |polls|
  {
    Safe(if i == 0 then d else polls[i - 1].d, polls[i].d) && 1 <= polls[i].limit <= CHANGE_LIMIT
  }

  lemma PollsTail(d: Dir, polls: seq<Poll>)
    requires PollsFollow(d, polls) && polls != []
    ensures PollsFollow(polls[0].d, polls[1..])
    ensures Safe(d, polls[0].d) && 1 <= polls[0].limit <= CHANGE_LIMIT
  {
    assert PollFollows(d, polls, 0);
    forall i | 0 <= i < |polls[1..]| ensures PollFollows(polls[0].d, polls[1..], i) {
      assert PollFollows(d, polls, i + 1);
    }
  }

  ghost function LastPoll(d: Dir, polls: seq<Poll>): Dir {
    if polls == [] then d else polls[|polls| - 1].d
  }

  /** One page put before the changes collected after it. */
  function Prepend(page: ChangePage, more: ChangePage): ChangePage
    requires page.Changes?
  {
    match more
    case NoChanges(e) => NoChanges(e)
    case Changes(items, complete, next, hasMore) => Changes(page.items + items, complete, next, hasMore)
  }

  /** The changes collected by asking again after the last commit received, while every page is
      complete; a gap or a failure ends it. */
  ghost function Collect(d: Dir, polls: seq<Poll>, after: Option<TxId>, b: Bounds): ChangePage
    requires PollsFollow(d, polls)
    decreases |polls|
  {
    if polls == [] then Changes([], true, after, true)
    else
      PollsTail(d, polls);
      var page := ChangesOp(polls[0].d, after, polls[0].limit, b);
      if page.NoChanges? || !page.complete || |polls| == 1 then page
      else Prepend(page, Collect(polls[0].d, polls[1..], page.nextAfter, b))
  }

  lemma KnownLater(d: Dir, e: Dir, after: Option<TxId>, r: nat)
    requires Valid(d) && Safe(d, e) && KnownAt(Log(d), after, r)
    ensures KnownAt(Log(e), after, r)
  {
    LogGrows(d, e);
  }

  /** What collecting from revision `r` on must yield, as the last store sees it. */
  ghost predicate Collected(e: Dir, log: seq<Key>, r: nat, all: ChangePage)
    requires Journaled(e, log)
  {
    all.Changes? && all.complete ==>
      var n := r + |all.items|;
      && n <= |log| && all.items == ChangesOf(e, log[r..n])
      && KnownAt(log, all.nextAfter, n)
      && (!all.hasMore ==> n == |log|)
  }

  /** What collecting over some polls has yielded, as the last store sees it. */
  ghost predicate AllCollected(d: Dir, polls: seq<Poll>, after: Option<TxId>, r: nat, b: Bounds)
    requires PollsFollow(d, polls)
  {
    var e := LastPoll(d, polls);
    && Journaled(e, Log(e)) && |Log(e)| == Rev(e.head)
    && Collected(e, Log(e), r, Collect(d, polls, after, b))
  }

  /** While coverage stays complete, asking again after each page visits every commit after the
      first known one, in revision order, none skipped and none repeated, although commits land
      between the pages; when a page says that no more follow, HEAD has been reached. */
  lemma {:induction false} CollectVisitsAll(d: Dir, polls: seq<Poll>, after: Option<TxId>, r: nat, b: Bounds)
    requires Valid(d) && PollsFollow(d, polls) && KnownAt(Log(d), after, r)
    ensures AllCollected(d, polls, after, r, b)
    decreases |polls|, 1
  {
    if polls == [] {
      LogSize(d);
    } else {
      NextPoll(d, polls, after, r, b);
      CollectStep(d, polls, after, r, b, ChangesOp(polls[0].d, after, polls[0].limit, b));
    }
  }

  lemma NextPoll(d: Dir, polls: seq<Poll>, after: Option<TxId>, r: nat, b: Bounds)
    requires Valid(d) && PollsFollow(d, polls) && KnownAt(Log(d), after, r) && polls != []
    ensures Valid(polls[0].d) && PollsFollow(polls[0].d, polls[1..])
    ensures var page := ChangesOp(polls[0].d, after, polls[0].limit, b);
      page.Changes? && page.complete ==> KnownAt(Log(polls[0].d), page.nextAfter, r + |page.items|)
  {
    FirstPoll(d, polls, after, r, b);
  }

  lemma {:induction false} CollectStep(d: Dir, polls: seq<Poll>, after: Option<TxId>, r: nat, b: Bounds, page: ChangePage)
    requires Valid(d) && PollsFollow(d, polls) && KnownAt(Log(d), after, r) && polls != []
    requires Valid(polls[0].d) && PollsFollow(polls[0].d, polls[1..])
    requires page == ChangesOp(polls[0].d, after, polls[0].limit, b)
    requires page.Changes? && page.complete ==> KnownAt(Log(polls[0].d), page.nextAfter, r + |page.items|)
    ensures AllCollected(d, polls, after, r, b)
    decreases |polls|, 0
  {
    FirstPoll(d, polls, after, r, b);
    CollectUnfolds(d, polls, after, b, page);
    var e, rest := polls[0].d, polls[1..];
    if page.Changes? && page.complete {
      CollectVisitsAll(e, rest, page.nextAfter, r + |page.items|, b);
      if rest != [] {
        JoinRest(e, rest, r, polls[0].limit, b, page);
      } else {
        LastPage(e, Log(e), r, polls[0].limit, page);
      }
    } else {
      LogSize(LastPoll(d, polls));
    }
  }

  lemma LastPage(d: Dir, log: seq<Key>, r: nat, limit: nat, page: ChangePage)
    requires Journaled(d, log) && page.Changes? && Honest(d, log, r, limit, page)
    ensures Collected(d, log, r, page)
  {
  }

  lemma JoinRest(d: Dir, polls: seq<Poll>, r: nat, limit: nat, b: Bounds, page: ChangePage)
    requires Valid(d) && PollsFollow(d, polls) && Safe(d, LastPoll(d, polls)) && Journaled(d, Log(d))
    requires page.Changes? && Honest(d, Log(d), r, limit, page)
    requires AllCollected(d, polls, page.nextAfter, r + |page.items|, b)
    ensures var e := LastPoll(d, polls);
      && Journaled(e, Log(e)) && |Log(e)| == Rev(e.head)
      && Collected(e, Log(e), r, Prepend(page, Collect(d, polls, page.nextAfter, b)))
  {
    JoinChanges(d, LastPoll(d, polls), r, limit, page, Collect(d, polls, page.nextAfter, b));
  }

  lemma FirstPoll(d: Dir, polls: seq<Poll>, after: Option<TxId>, r: nat, b: Bounds)
    requires Valid(d) && PollsFollow(d, polls) && KnownAt(Log(d), after, r) && polls != []
    ensures var e := polls[0].d;
      && Valid(e) && Journaled(e, Log(e)) && |Log(e)| == Rev(e.head)
      && PollsFollow(e, polls[1..]) && Safe(e, LastPoll(e, polls[1..]))
    ensures var page := ChangesOp(polls[0].d, after, polls[0].limit, b);
      page.Changes? && page.complete ==> Honest(polls[0].d, Log(polls[0].d), r, polls[0].limit, page)
  {
    var e := polls[0].d;
    PollsTail(d, polls);
    KnownLater(d, e, after, r);
    LogSize(e);
    PageIsHonest(e, after, r, polls[0].limit, b);
    LastGrows(e, polls[1..]);
  }

  lemma CollectUnfolds(d: Dir, polls: seq<Poll>, after: Option<TxId>, b: Bounds, page: ChangePage)
    requires polls != [] && PollsFollow(d, polls) && Valid(polls[0].d)
    requires page == ChangesOp(polls[0].d, after, polls[0].limit, b)
    ensures PollsFollow(polls[0].d, polls[1..]) && Valid(polls[0].d)
    ensures LastPoll(d, polls) == LastPoll(polls[0].d, polls[1..])
    ensures Collect(d, polls, after, b) ==
      if page.NoChanges? || !page.complete || polls[1..] == [] then page
      else Prepend(page, Collect(polls[0].d, polls[1..], page.nextAfter, b))
  {
    PollsTail(d, polls);
  }

  lemma JoinChanges(d: Dir, e: Dir, r: nat, limit: nat, page: ChangePage, more: ChangePage)
    requires Valid(d) && Safe(d, e) && Journaled(d, Log(d)) && Journaled(e, Log(e))
    requires page.Changes? && Honest(d, Log(d), r, limit, page)
    requires Collected(e, Log(e), r + |page.items|, more)
    ensures Collected(e, Log(e), r, Prepend(page, more))
  {
    LogGrows(d, e);
    JoinLists(d, e, Log(d), Log(e), r, page, more);
  }

  lemma JoinLists(d: Dir, e: Dir, a: seq<Key>, b: seq<Key>, r: nat, page: ChangePage, more: ChangePage)
    requires a <= b && Journaled(d, a) && Journaled(e, b)
    requires forall k :: k in a ==> e.journals[k] == d.journals[k]
    requires page.Changes? && r + |page.items| <= |a| && page.items == ChangesOf(d, a[r..r + |page.items|])
    requires Collected(e, b, r + |page.items|, more)
    ensures Collected(e, b, r, Prepend(page, more))
  {
    if more.Changes? && more.complete {
      var n, all := r + |page.items|, page.items + more.items;
      var last := n + |more.items|;
      forall i | 0 <= i < |all| ensures all[i] == ChangesOf(e, b[r..last])[i] {
        if i < |page.items| {
          assert a[r..n][i] == b[r + i] && b[r + i] in a;
        } else {
          assert b[n..last][i - |page.items|] == b[r + i];
        }
      }
      assert all == ChangesOf(e, b[r..last]);
    }
  }

  lemma {:induction false} LastGrows(d: Dir, polls: seq<Poll>)
    requires Valid(d) && PollsFollow(d, polls)
    ensures Safe(d, LastPoll(d, polls))
    decreases |polls|
  {
    GrowsReflexive(d);
    if polls != [] {
      PollsTail(d, polls);
      LastGrows(polls[0].d, polls[1..]);
      GrowsTransitive(d, polls[0].d, LastPoll(polls[0].d, polls[1..]));
      assert LastPoll(d, polls) == LastPoll(polls[0].d, polls[1..]);
    }
  }
}
