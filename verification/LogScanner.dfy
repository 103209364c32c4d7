/** `op_waitfor`'s incremental log scanner, and the client loop that resumes it. */
module LogScanner {
  import opened Common
  import opened LogLines

  /** Bytes read at once, bytes read in one check, and the longest partial line kept. */
  datatype Limits = Limits(chunk: nat, budget: nat, cap: nat)

  predicate LimitsOk(lim: Limits) {
    lim.chunk > 0 && lim.budget > 0
  }

  const LIMITS := Limits(1048576, 8388608, 65536)

  datatype Hit = Hit(line: Line, offset: nat, finished: bool)

  function HitEnd(h: Hit): nat {
    h.offset + |h.line| + if h.finished then 1 else 0
  }

  /** What is kept between checks: the bytes read so far, and the trailing partial line. */
  datatype Scan = Scan(pos: Option<nat>, carry: Line)

  const Fresh := Scan(None, [])

  predicate ScanOk(st: Scan) {
    |st.carry| <= if st.pos.Some? then st.pos.value else 0
  }

  /** Where scanning starts, from a caller's offset. */
  function Start(raw: int, size: nat): nat {
    if raw >= 0 then (if raw < size then raw else size)
    else if size + raw > 0 then size + raw else 0
  }

  function Trim(carry: Line, cap: nat): (r: Line)
    ensures |r| <= |carry|
  {
    if |carry| > cap then Text(carry, |carry| - cap, |carry|) else carry
  }

  // ------------------------------------------------------------------ one check

  datatype Reading = Reading(pos: nat, carry: Line, hit: Option<Hit>)

  /** How much the next read returns. */
  function ReadSize(left: nat, budget: Option<nat>, lim: Limits): (n: nat)
    requires LimitsOk(lim) && left > 0 && budget != Some(0)
    ensures 0 < n <= left && (budget.Some? ==> n <= budget.value)
  {
    var want := if budget.Some? && budget.value < lim.chunk then budget.value else lim.chunk;
    if want < left then want else left
  }

  /** The carry, and the next `n` bytes of the file read behind it. */
  function Extended(carry: Line, f: Line, pos: nat, n: nat): (buf: Line)
    requires pos + n <= |f|
    ensures |buf| == |carry| + n
    decreases n
  {
    if n == 0 then carry else Extended(carry + [f[pos]], f, pos + 1, n - 1)
  }

  lemma {:induction false} ExtendedIs(carry: Line, f: Line, pos: nat, n: nat)
    requires pos + n <= |f|
    ensures Extended(carry, f, pos, n) == carry + f[pos..pos + n]
    decreases n
  {
    if n > 0 {
      ExtendedIs(carry + [f[pos]], f, pos + 1, n - 1);
      assert f[pos..pos + n] == [f[pos]] + f[pos + 1..pos + n];
    }
  }

  /** One buffer, searched: the first finished line that matches, and the unfinished one. */
  function Searched(buf: Line, base: nat, cap: nat, rx: Pattern): (r: Reading)
    ensures r.pos == base + |buf| && |r.carry| <= |buf|
  {
    var m := FirstMatch(buf, 0, |buf|, rx);
    Reading(base + |buf|, Trim(Text(buf, Unfinished(buf, 0, |buf|), |buf|), cap),
            if m.Some? then Some(Hit(Text(buf, m.value, Newline(buf, m.value, |buf|).value), base + m.value, true)) else None)
  }

  /** One read: the carry and `n` more bytes. */
  function ReadStep(f: Line, pos: nat, carry: Line, n: nat, cap: nat, rx: Pattern): (r: Reading)
    requires |carry| <= pos && pos + n <= |f|
    ensures r.pos == pos + n && |r.carry| <= r.pos
  {
    Searched(Extended(carry, f, pos, n), pos - |carry|, cap, rx)
  }

  function Less(budget: Option<nat>, n: nat): Option<nat>
    requires budget.Some? ==> n <= budget.value
  {
    if budget.Some? then Some(budget.value - n) else None
  }

  /** The read loop: up to the end of the file or of the budget, or to the first match. */
  function ReadOn(f: Line, pos: nat, carry: Line, budget: Option<nat>, lim: Limits, rx: Pattern): (r: Reading)
    requires LimitsOk(lim) && |carry| <= pos <= |f|
    ensures |r.carry| <= r.pos <= |f| && pos <= r.pos
    decreases |f| - pos
  {
    if budget == Some(0) || pos == |f| then Reading(pos, carry, None)
    else
      var n := ReadSize(|f| - pos, budget, lim);
      var r := ReadStep(f, pos, carry, n, lim.cap, rx);
      if r.hit.Some? then r else ReadOn(f, r.pos, r.carry, Less(budget, n), lim, rx)
  }

  /** Where a check reads from: a file shorter than what was read starts over. */
  function Resume(st: Scan, raw: int, size: nat): Scan {
    if st.pos.None? then Scan(Some(Start(raw, size)), [])
    else if size < st.pos.value then Scan(Some(0), [])
    else st
  }

  /** What a check makes of what it has read: the unfinished line counts only once nothing was
      appended for a whole check, or the writer has exited. */
  function Settle(r: Reading, start: nat, final: bool, rx: Pattern): (q: (Scan, Option<Hit>))
    requires |r.carry| <= r.pos
    ensures ScanOk(q.0)
  {
    var hit :=
      if r.hit.Some? then r.hit
      else if r.carry != [] && (final || r.pos == start) && rx(r.carry) then Some(Hit(r.carry, r.pos - |r.carry|, false))
      else None;
    (if hit.Some? then Scan(Some(HitEnd(hit.value)), []) else Scan(Some(r.pos), r.carry), hit)
  }

  /** `scan`: one check of the file, if there is one. */
  function Look(st: Scan, raw: int, file: Option<Line>, final: bool, lim: Limits, rx: Pattern): (q: (Scan, Option<Hit>))
    requires LimitsOk(lim) && ScanOk(st)
    ensures ScanOk(q.0)
  {
    if file.None? then (st, None)
    else
      var at := Resume(st, raw, |file.value|);
      Settle(ReadOn(file.value, at.pos.value, at.carry, if final then None else Some(lim.budget), lim, rx),
             at.pos.value, final, rx)
  }

  /** The offset a reply carries. */
  function OffsetOf(st: Scan): Option<nat>
    requires ScanOk(st)
  {
    if st.pos.Some? then Some(st.pos.value - |st.carry|) else None
  }

  // ------------------------------------------------------------------ against the whole file

  /** The first `pos` bytes have been read from the line start `from` on, no finished line in
      them matches, and the carry is their unfinished line. */
  ghost predicate Synced(f: Line, from: nat, pos: nat, carry: Line, rx: Pattern) {
    && from <= pos <= |f|
    && FirstMatch(f, from, pos, rx).None?
    && Unfinished(f, from, pos) + |carry| == pos && StandsAt(f, carry, pos - |carry|)
  }

  /** The hit is the first finished line of the whole file that matches; or, when none does, the
      unfinished last line, and it matches. */
  ghost predicate FirstHit(f: Line, from: nat, h: Hit, rx: Pattern)
    requires from <= |f|
  {
    && StandsAt(f, h.line, h.offset) && rx(h.line)
    && if h.finished then
         && FirstMatch(f, from, |f|, rx) == Some(h.offset)
         && Newline(f, h.offset, |f|) == Some(h.offset + |h.line|)
       else
         && FirstMatch(f, from, |f|, rx).None? && h.offset == Unfinished(f, from, |f|)
         && h.offset + |h.line| == |f| && h.line != []
  }

  /** No line of the file matches, finished or not. */
  ghost predicate NoMatch(f: Line, from: nat, rx: Pattern)
    requires from <= |f|
  {
    var u := Unfinished(f, from, |f|);
    FirstMatch(f, from, |f|, rx).None? && (u < |f| ==> !rx(Text(f, u, |f|)))
  }

  lemma StartSynced(f: Line, from: nat, rx: Pattern)
    requires from <= |f|
    ensures Synced(f, from, from, [], rx)
  {
  }

  /** Searching the carry and the next chunk is searching all that has been read. */
  lemma ChunkSearch(f: Line, from: nat, t: nat, pos: nat, buf: Line, rx: Pattern)
    requires from <= pos <= t + |buf| <= |f| && FirstMatch(f, from, pos, rx).None? && Unfinished(f, from, pos) == t
    requires StandsAt(f, buf, t)
    ensures FirstMatch(f, from, t + |buf|, rx) == Shifted(FirstMatch(buf, 0, |buf|, rx), t)
    ensures Unfinished(f, from, t + |buf|) == t + Unfinished(buf, 0, |buf|)
  {
    SearchGoesOn(f, from, pos, t + |buf|, rx);
    BufferSearch(f, t, buf, rx);
  }

  lemma BufferSearch(f: Line, t: nat, buf: Line, rx: Pattern)
    requires StandsAt(f, buf, t)
    ensures FirstMatch(f, t, t + |buf|, rx) == Shifted(FirstMatch(buf, 0, |buf|, rx), t)
    ensures Unfinished(f, t, t + |buf|) == t + Unfinished(buf, 0, |buf|)
  {
    MatchShifts(f, buf, t, 0, |buf|, rx);
    UnfinishedShifts(f, buf, t, 0, |buf|);
  }

  /** A match in what has been read is the first one of the file. */
  lemma ChunkHit(f: Line, from: nat, t: nat, buf: Line, m: nat, n: nat, rx: Pattern)
    requires from <= t + |buf| && StandsAt(f, buf, t) && FirstMatch(buf, 0, |buf|, rx) == Some(m)
    requires FirstMatch(f, from, t + |buf|, rx) == Some(t + m) && Newline(buf, m, |buf|) == Some(n)
    ensures FirstHit(f, from, Hit(Text(buf, m, n), t + m, true), rx)
  {
    FirstMatchIsReal(buf, 0, |buf|, rx);
    FirstMatchGrows(f, from, t + |buf|, |f|, rx);
    NewlineShifts(f, buf, t, m, |buf|);
    NewlineGrows(f, t + m, t + |buf|, |f|);
    SubText(f, buf, t, m, n);
  }

  /** Without one, the unfinished line is what is carried, and it fits. */
  lemma ChunkMiss(f: Line, from: nat, t: nat, buf: Line, u: nat, cap: nat, rx: Pattern)
    requires from <= t + |buf| && StandsAt(f, buf, t) && LinesFit(f, cap) && u == Unfinished(buf, 0, |buf|)
    requires FirstMatch(f, from, t + |buf|, rx).None? && Unfinished(f, from, t + |buf|) == t + u
    ensures Synced(f, from, t + |buf|, Text(buf, u, |buf|), rx) && |Text(buf, u, |buf|)| <= cap
  {
    UnfinishedIs(f, from, t + |buf|);
    SubText(f, buf, t, u, |buf|);
  }

  lemma SearchedExact(f: Line, from: nat, t: nat, pos: nat, buf: Line, cap: nat, rx: Pattern)
    requires from <= pos <= t + |buf| <= |f| && FirstMatch(f, from, pos, rx).None? && Unfinished(f, from, pos) == t
    requires StandsAt(f, buf, t) && LinesFit(f, cap)
    ensures var r := Searched(buf, t, cap, rx);
      if r.hit.Some? then FirstHit(f, from, r.hit.value, rx) else Synced(f, from, r.pos, r.carry, rx)
  {
    ChunkSearch(f, from, t, pos, buf, rx);
    if FirstMatch(buf, 0, |buf|, rx).Some? {
      SearchedHit(f, from, t, buf, cap, rx);
    } else {
      SearchedMiss(f, from, t, buf, cap, rx);
    }
  }

  lemma SearchedHit(f: Line, from: nat, t: nat, buf: Line, cap: nat, rx: Pattern)
    requires from <= t + |buf| <= |f| && StandsAt(f, buf, t) && FirstMatch(buf, 0, |buf|, rx).Some?
    requires FirstMatch(f, from, t + |buf|, rx) == Some(t + FirstMatch(buf, 0, |buf|, rx).value)
    ensures Searched(buf, t, cap, rx).hit.Some? && FirstHit(f, from, Searched(buf, t, cap, rx).hit.value, rx)
  {
    var m := FirstMatch(buf, 0, |buf|, rx).value;
    ChunkHit(f, from, t, buf, m, Newline(buf, m, |buf|).value, rx);
  }

  lemma SearchedMiss(f: Line, from: nat, t: nat, buf: Line, cap: nat, rx: Pattern)
    requires from <= t + |buf| <= |f| && StandsAt(f, buf, t) && LinesFit(f, cap) && FirstMatch(buf, 0, |buf|, rx).None?
    requires FirstMatch(f, from, t + |buf|, rx).None?
    requires Unfinished(f, from, t + |buf|) == t + Unfinished(buf, 0, |buf|)
    ensures var r := Searched(buf, t, cap, rx);
      r.hit.None? && Synced(f, from, r.pos, r.carry, rx)
  {
    ChunkMiss(f, from, t, buf, Unfinished(buf, 0, |buf|), cap, rx);
  }

  lemma NextBuffer(f: Line, carry: Line, pos: nat, n: nat)
    requires |carry| <= pos && pos + n <= |f| && StandsAt(f, carry, pos - |carry|)
    ensures StandsAt(f, Extended(carry, f, pos, n), pos - |carry|)
  {
    ExtendedIs(carry, f, pos, n);
  }

  lemma StepExact(f: Line, from: nat, pos: nat, carry: Line, n: nat, cap: nat, rx: Pattern)
    requires Synced(f, from, pos, carry, rx) && pos + n <= |f| && LinesFit(f, cap)
    ensures |carry| <= pos
    ensures var r := ReadStep(f, pos, carry, n, cap, rx);
      if r.hit.Some? then FirstHit(f, from, r.hit.value, rx) else Synced(f, from, r.pos, r.carry, rx)
  {
    NextBuffer(f, carry, pos, n);
    SearchedExact(f, from, pos - |carry|, pos, Extended(carry, f, pos, n), cap, rx);
  }

  /** Any chunking reads the same: the loop finds the first match of the whole file, or has read
      up to its bound without one. */
  lemma {:induction false} ReadOnExact(f: Line, from: nat, pos: nat, carry: Line, budget: Option<nat>, lim: Limits, rx: Pattern)
    requires LimitsOk(lim) && Synced(f, from, pos, carry, rx) && LinesFit(f, lim.cap)
    ensures |carry| <= pos
    ensures var r := ReadOn(f, pos, carry, budget, lim, rx);
      && (r.hit.Some? ==> FirstHit(f, from, r.hit.value, rx))
      && (r.hit.None? ==> Synced(f, from, r.pos, r.carry, rx))
      && (r.hit.None? && (budget.None? || (r.pos == pos && budget != Some(0))) ==> r.pos == |f|)
    decreases |f| - pos
  {
    if budget != Some(0) && pos < |f| {
      var n := ReadSize(|f| - pos, budget, lim);
      StepExact(f, from, pos, carry, n, lim.cap, rx);
      var r := ReadStep(f, pos, carry, n, lim.cap, rx);
      if r.hit.None? {
        ReadOnExact(f, from, r.pos, r.carry, Less(budget, n), lim, rx);
      }
    }
  }

  // ------------------------------------------------------------------ whole waits

  /** Beside the scan: where it began, and the file as last seen. The scanner does not read it. */
  datatype Audit = Audit(from: Option<nat>, file: Option<Line>)

  function Observe(au: Audit, raw: int, file: Option<Line>): Audit {
    Audit(if au.from.Some? || file.None? then au.from else Some(Start(raw, |file.value|)), file)
  }

  /** The file only grows, and its lines fit. */
  ghost predicate Grows(before: Option<Line>, after: Option<Line>, cap: nat) {
    && (before.Some? ==> after.Some? && before.value <= after.value)
    && (after.Some? ==> LinesFit(after.value, cap))
  }

  /** The scan is where the audit says: a running scan holds what it has read; one about to
      resume does so at the start of the first line it has not finished. */
  ghost predicate Tracks(st: Scan, raw: int, au: Audit, rx: Pattern) {
    && ScanOk(st)
    && (au.from.Some? ==> au.file.Some?)
    && (st.pos.Some? ==> au.from.Some? && Synced(au.file.value, au.from.value, st.pos.value, st.carry, rx))
    && (st.pos.None? && au.from.Some? ==> raw >= 0 && Synced(au.file.value, au.from.value, raw, [], rx))
  }

  lemma SyncedGrows(f: Line, more: Line, from: nat, pos: nat, carry: Line, rx: Pattern)
    requires Synced(f, from, pos, carry, rx) && f <= more
    ensures Synced(more, from, pos, carry, rx)
  {
    SameSoFar(f, more, from, pos, rx);
  }

  /** One check of a file that has only grown reports the first match of the whole file, and
      otherwise goes on from what it has read. A final check that reports nothing has seen
      every line. */
  lemma LookExact(st: Scan, raw: int, au: Audit, file: Option<Line>, final: bool, lim: Limits, rx: Pattern)
    requires LimitsOk(lim) && Tracks(st, raw, au, rx) && Grows(au.file, file, lim.cap)
    ensures var (next, hit) := Look(st, raw, file, final, lim, rx);
      var to := Observe(au, raw, file);
      && (hit.Some? ==> file.Some? && to.from.Some? && to.from.value <= |file.value|)
      && (hit.Some? ==> FirstHit(file.value, to.from.value, hit.value, rx) && next == Scan(Some(HitEnd(hit.value)), []))
      && (hit.None? ==> Tracks(next, raw, to, rx))
      && (hit.None? && file.Some? ==> next.pos.Some?)
      && (hit.None? && final && file.Some? ==>
            to.from.Some? && to.from.value <= |file.value| && NoMatch(file.value, to.from.value, rx))
  {
    if file.Some? {
      var from := Observe(au, raw, file).from.value;
      var at := Resume(st, raw, |file.value|);
      ResumeSynced(st, raw, au, file.value, rx);
      var budget := if final then None else Some(lim.budget);
      ReadOnExact(file.value, from, at.pos.value, at.carry, budget, lim, rx);
      SettleExact(file.value, from, at.pos.value, ReadOn(file.value, at.pos.value, at.carry, budget, lim, rx), final, rx);
    }
  }

  lemma ResumeSynced(st: Scan, raw: int, au: Audit, f: Line, rx: Pattern)
    requires Tracks(st, raw, au, rx) && (au.file.Some? ==> au.file.value <= f)
    ensures var at := Resume(st, raw, |f|);
      Synced(f, Observe(au, raw, Some(f)).from.value, at.pos.value, at.carry, rx)
  {
    if au.from.Some? {
      if st.pos.Some? {
        SyncedGrows(au.file.value, f, au.from.value, st.pos.value, st.carry, rx);
      } else {
        SyncedGrows(au.file.value, f, au.from.value, raw, [], rx);
      }
    } else {
      StartSynced(f, Start(raw, |f|), rx);
    }
  }

  lemma SettleExact(f: Line, from: nat, start: nat, r: Reading, final: bool, rx: Pattern)
    requires from <= |f| && |r.carry| <= r.pos
    requires if r.hit.Some? then FirstHit(f, from, r.hit.value, rx) else Synced(f, from, r.pos, r.carry, rx)
    requires r.hit.None? && (final || r.pos == start) ==> r.pos == |f|
    ensures var (next, hit) := Settle(r, start, final, rx);
      && (hit.Some? ==> FirstHit(f, from, hit.value, rx) && next == Scan(Some(HitEnd(hit.value)), []))
      && (hit.None? ==> next.pos.Some? && Synced(f, from, next.pos.value, next.carry, rx))
      && (hit.None? && final ==> NoMatch(f, from, rx))
  {
    if r.hit.None? && r.pos == |f| {
      WholeCarry(f, |f| - |r.carry|, r.carry);
    }
  }

  lemma WholeCarry(f: Line, s: nat, carry: Line)
    requires s + |carry| == |f| && StandsAt(f, carry, s)
    ensures Text(f, s, |f|) == carry
  {
    TextStands(f, s, |f|);
    SamePlace(f, Text(f, s, |f|), carry, s);
  }

  lemma SamePlace(f: Line, a: Line, b: Line, s: nat)
    requires StandsAt(f, a, s) && StandsAt(f, b, s) && |a| == |b|
    ensures a == b
  {
  }

  datatype Pause = Sleep | TimesOut | Cancels

  /** One turn of the wait loop: the file as checked, whether the process has exited and the file
      as checked after that, and how the pause ends. */
  datatype Tick = Tick(file: Option<Line>, exited: bool, last: Option<Line>, pause: Pause)

  datatype Reply = Matched(hit: Hit) | Exited | TimedOut | Cancelled | Waiting

  datatype Wait = Wait(scan: Scan, audit: Audit, reply: Reply)

  /** The loop of `op_waitfor` for a pattern. */
  function WaitOn(st: Scan, raw: int, au: Audit, ticks: seq<Tick>, lim: Limits, rx: Pattern): (w: Wait)
    requires LimitsOk(lim) && ScanOk(st)
    ensures ScanOk(w.scan)
    decreases |ticks|
  {
    if ticks == [] then Wait(st, au, Waiting)
    else
      var t := ticks[0];
      var (s1, h1) := Look(st, raw, t.file, false, lim, rx);
      var a1 := Observe(au, raw, t.file);
      if h1.Some? then Wait(s1, a1, Matched(h1.value))
      else if t.exited then
        var (s2, h2) := Look(s1, raw, t.last, true, lim, rx);
        Wait(s2, Observe(a1, raw, t.last), if h2.Some? then Matched(h2.value) else Exited)
      else
        match t.pause
        case TimesOut => Wait(s1, a1, TimedOut)
        case Cancels => Wait(s1, a1, Cancelled)
        case Sleep => WaitOn(s1, raw, a1, ticks[1..], lim, rx)
  }

  ghost predicate TicksGrow(before: Option<Line>, ticks: seq<Tick>, cap: nat)
    decreases |ticks|
  {
    ticks == [] ||
    (Grows(before, ticks[0].file, cap) && Grows(ticks[0].file, ticks[0].last, cap) &&
     TicksGrow(ticks[0].file, ticks[1..], cap))
  }

  /** What a wait may report. */
  ghost predicate Honest(w: Wait, raw: int, rx: Pattern) {
    var au := w.audit;
    match w.reply
    case Matched(hit) =>
      && au.file.Some? && au.from.Some? && au.from.value <= |au.file.value|
      && FirstHit(au.file.value, au.from.value, hit, rx) && w.scan == Scan(Some(HitEnd(hit)), [])
    case Exited =>
      au.file.Some? ==> au.from.Some? && au.from.value <= |au.file.value| && NoMatch(au.file.value, au.from.value, rx)
    case _ => Tracks(w.scan, raw, au, rx)
  }

  lemma {:induction false} WaitIsHonest(st: Scan, raw: int, au: Audit, ticks: seq<Tick>, lim: Limits, rx: Pattern)
    requires LimitsOk(lim) && Tracks(st, raw, au, rx) && TicksGrow(au.file, ticks, lim.cap)
    ensures Honest(WaitOn(st, raw, au, ticks, lim, rx), raw, rx)
    decreases |ticks|
  {
    if ticks != [] {
      var t := ticks[0];
      LookExact(st, raw, au, t.file, false, lim, rx);
      var (s1, h1) := Look(st, raw, t.file, false, lim, rx);
      var a1 := Observe(au, raw, t.file);
      if h1.None? {
        if t.exited {
          LookExact(s1, raw, a1, t.last, true, lim, rx);
        } else if t.pause.Sleep? {
          WaitIsHonest(s1, raw, a1, ticks[1..], lim, rx);
        }
      }
    }
  }

  // ------------------------------------------------------------------ the client's loop

  /** `wait_for`: one bounded call after another, each resuming at the offset of the last. */
  function Follow(raw: int, au: Audit, calls: seq<seq<Tick>>, lim: Limits, rx: Pattern): (Wait, int)
    requires LimitsOk(lim)
    decreases |calls|
  {
    if calls == [] then (Wait(Fresh, au, Waiting), raw)
    else
      var w := WaitOn(Fresh, raw, au, calls[0], lim, rx);
      if w.reply != TimedOut || |calls| == 1 then (w, raw)
      else
        var offset := OffsetOf(w.scan);
        Follow(if offset.Some? then offset.value else raw, w.audit, calls[1..], lim, rx)
  }

  ghost predicate CallsGrow(raw: int, au: Audit, calls: seq<seq<Tick>>, lim: Limits, rx: Pattern)
    requires LimitsOk(lim)
    decreases |calls|
  {
    calls == [] ||
    var w := WaitOn(Fresh, raw, au, calls[0], lim, rx);
    (TicksGrow(au.file, calls[0], lim.cap) &&
     (w.reply == TimedOut ==>
        CallsGrow(if OffsetOf(w.scan).Some? then OffsetOf(w.scan).value else raw, w.audit, calls[1..], lim, rx)))
  }

  /** A wait that ran out of time resumes at the start of the first line it has not finished. */
  lemma ResumesAtUnfinished(st: Scan, raw: int, au: Audit, rx: Pattern)
    requires Tracks(st, raw, au, rx)
    ensures st.pos.Some? ==>
      var offset := OffsetOf(st).value;
      && offset == Unfinished(au.file.value, au.from.value, st.pos.value)
      && LineStart(au.file.value, au.from.value, offset)
      && Synced(au.file.value, au.from.value, offset, [], rx)
    ensures Tracks(Fresh, if OffsetOf(st).Some? then OffsetOf(st).value else raw, au, rx)
  {
    if st.pos.Some? {
      UnfinishedIs(au.file.value, au.from.value, st.pos.value);
      UpToUnfinished(au.file.value, au.from.value, st.pos.value, rx);
    }
  }

  /** Over a whole client wait, with any number of calls, any chunking and any growth between the
      checks: a match is the first finished matching line of the whole file, with its true
      offset, or its settled last line when no finished line matches; an exit without a match
      means that no line matches; and a wait that goes on has skipped no line and repeats no
      finished one. */
  lemma {:induction false} FollowIsHonest(raw: int, au: Audit, calls: seq<seq<Tick>>, lim: Limits, rx: Pattern)
    requires LimitsOk(lim) && Tracks(Fresh, raw, au, rx) && CallsGrow(raw, au, calls, lim, rx)
    ensures var (w, resumed) := Follow(raw, au, calls, lim, rx);
      Honest(w, resumed, rx)
    decreases |calls|
  {
    if calls != [] {
      WaitIsHonest(Fresh, raw, au, calls[0], lim, rx);
      var w := WaitOn(Fresh, raw, au, calls[0], lim, rx);
      if w.reply == TimedOut && |calls| > 1 {
        ResumesAtUnfinished(w.scan, raw, w.audit, rx);
        var offset := OffsetOf(w.scan);
        FollowIsHonest(if offset.Some? then offset.value else raw, w.audit, calls[1..], lim, rx);
      }
    }
  }

  /** The offset that comes with a hit is the start of the next line exactly when the hit was a
      finished line; after an unfinished one it is inside the line. */
  lemma HitOffsetIsLineStart(f: Line, from: nat, h: Hit, rx: Pattern)
    requires from <= |f| && FirstHit(f, from, h, rx)
    ensures HitEnd(h) <= |f| && (LineStart(f, from, HitEnd(h)) <==> h.finished)
  {
    if h.finished {
      NewlineIs(f, h.offset, |f|, Newline(f, h.offset, |f|));
    } else {
      UnfinishedIs(f, from, |f|);
    }
  }

  /** So a call that resumes after an unfinished hit may report the rest of a line as a line:
      here, after the prompt `1` has matched, the line `12` is reported as `2`. */
  lemma ResumeInsideLine(rx: Pattern)
    requires forall l :: rx(l)
    ensures var st := Scan(Some(1), [49]);
      var (after, first) := Look(st, 0, Some([49]), false, LIMITS, rx);
      && first == Some(Hit([49], 0, false)) && OffsetOf(after) == Some(1)
    ensures Look(Fresh, 1, Some([49, 50, NEWLINE]), false, LIMITS, rx).1 == Some(Hit([50], 1, true))
    ensures !LineStart([49, 50, NEWLINE], 0, 1)
  {
    var f: Line := [49, 50, NEWLINE];
    var buf: Line := [] + f[1..3];
    assert buf == [50, NEWLINE];
    NewlineIs(buf, 0, 2, Some(1));
    assert Text(buf, 0, 1) == [50];
    assert Searched(buf, 1, LIMITS.cap, rx).hit == Some(Hit([50], 1, true));
    assert ReadSize(2, Some(LIMITS.budget), LIMITS) == 2;
    assert ReadOn(f, 1, [], Some(LIMITS.budget), LIMITS, rx) == ReadStep(f, 1, [], 2, LIMITS.cap, rx);
  }

  // ------------------------------------------------------------------ where scanning begins, and how far it gets

  /** A first check starts at the offset asked for, or at the end of a shorter file; a negative one
      counts from the end, and is the start of a file with fewer bytes. */
  lemma StartsExactly(raw: int, f: Line, final: bool, lim: Limits, rx: Pattern)
    requires LimitsOk(lim)
    ensures var from := Observe(Audit(None, None), raw, Some(f)).from;
      && from.Some? && from.value <= |f|
      && (0 <= raw <= |f| ==> from.value == raw)
      && (raw > |f| ==> from.value == |f|)
      && (-|f| <= raw < 0 ==> |f| - from.value == -raw)
      && (raw < -|f| ==> from.value == 0)
      && Look(Fresh, raw, Some(f), final, lim, rx) == Look(Scan(from, []), raw, Some(f), final, lim, rx)
  {
  }

  /** A file shorter than what was read of it is read from its start. */
  lemma StartsOver(st: Scan, raw: int, f: Line, final: bool, lim: Limits, rx: Pattern)
    requires LimitsOk(lim) && ScanOk(st) && st.pos.Some? && |f| < st.pos.value
    ensures Look(st, raw, Some(f), final, lim, rx) == Look(Scan(Some(0), []), raw, Some(f), final, lim, rx)
  {
  }

  /** Without a match the loop has read all its budget allows. */
  lemma {:induction false} ReadsAll(f: Line, pos: nat, carry: Line, budget: Option<nat>, lim: Limits, rx: Pattern)
    requires LimitsOk(lim) && |carry| <= pos <= |f|
    ensures var r := ReadOn(f, pos, carry, budget, lim, rx);
      r.hit.None? ==> r.pos == if budget.Some? && pos + budget.value < |f| then pos + budget.value else |f|
    decreases |f| - pos
  {
    if budget != Some(0) && pos < |f| {
      var n := ReadSize(|f| - pos, budget, lim);
      var r := ReadStep(f, pos, carry, n, lim.cap, rx);
      if r.hit.None? {
        ReadsAll(f, r.pos, r.carry, Less(budget, n), lim, rx);
      }
    }
  }

  /** A check that is not the final one reads up to its budget, and takes the unfinished line for a
      hit only when nothing was appended since the last check; then it does so whenever that line
      matches. A final check reads to the end. */
  lemma LookSettles(st: Scan, raw: int, au: Audit, f: Line, final: bool, lim: Limits, rx: Pattern)
    requires LimitsOk(lim) && Tracks(st, raw, au, rx) && Grows(au.file, Some(f), lim.cap) && st.pos.Some?
    ensures st.pos.value <= |f| && au.from.Some? && au.from.value <= |f|
    ensures var (next, hit) := Look(st, raw, Some(f), final, lim, rx);
      && (hit.None? ==>
            next.pos == Some(if !final && st.pos.value + lim.budget < |f| then st.pos.value + lim.budget else |f|))
      && (hit.Some? && !final && st.pos.value < |f| ==> hit.value.finished)
      && (st.pos.value == |f| && !NoMatch(f, au.from.value, rx) ==> hit.Some?)
  {
    SyncedGrows(au.file.value, f, au.from.value, st.pos.value, st.carry, rx);
    LookReads(st, raw, f, final, lim, rx);
    if st.pos.value == |f| {
      LookReports(st, raw, f, au.from.value, final, lim, rx);
    }
  }

  lemma LookReads(st: Scan, raw: int, f: Line, final: bool, lim: Limits, rx: Pattern)
    requires LimitsOk(lim) && ScanOk(st) && st.pos.Some? && st.pos.value <= |f|
    ensures var (next, hit) := Look(st, raw, Some(f), final, lim, rx);
      && (hit.None? ==>
            next.pos == Some(if !final && st.pos.value + lim.budget < |f| then st.pos.value + lim.budget else |f|))
      && (hit.Some? && !final && st.pos.value < |f| ==> hit.value.finished)
  {
    var budget := if final then None else Some(lim.budget);
    ReadsAll(f, st.pos.value, st.carry, budget, lim, rx);
    if st.pos.value < |f| {
      ReadsSome(f, st.pos.value, st.carry, budget, lim, rx);
    }
  }

  lemma LookReports(st: Scan, raw: int, f: Line, from: nat, final: bool, lim: Limits, rx: Pattern)
    requires LimitsOk(lim) && ScanOk(st) && st.pos == Some(|f|) && Synced(f, from, |f|, st.carry, rx)
    ensures !NoMatch(f, from, rx) ==> Look(st, raw, Some(f), final, lim, rx).1.Some?
  {
    WholeCarry(f, |f| - |st.carry|, st.carry);
  }

  lemma ReadsSome(f: Line, pos: nat, carry: Line, budget: Option<nat>, lim: Limits, rx: Pattern)
    requires LimitsOk(lim) && |carry| <= pos < |f| && budget != Some(0)
    ensures ReadOn(f, pos, carry, budget, lim, rx).pos > pos
    ensures ReadOn(f, pos, carry, budget, lim, rx).hit.Some? ==> ReadOn(f, pos, carry, budget, lim, rx).hit.value.finished
  {
    ReadsFinished(f, pos, carry, budget, lim, rx);
  }

  lemma {:induction false} ReadsFinished(f: Line, pos: nat, carry: Line, budget: Option<nat>, lim: Limits, rx: Pattern)
    requires LimitsOk(lim) && |carry| <= pos <= |f|
    ensures var r := ReadOn(f, pos, carry, budget, lim, rx);
      r.hit.Some? ==> r.hit.value.finished
    decreases |f| - pos
  {
    if budget != Some(0) && pos < |f| {
      var n := ReadSize(|f| - pos, budget, lim);
      var r := ReadStep(f, pos, carry, n, lim.cap, rx);
      if r.hit.None? {
        ReadsFinished(f, r.pos, r.carry, Less(budget, n), lim, rx);
      }
    }
  }

  /** A turn of the wait after which it goes on, unless a check matches. */
  predicate GoesOn(t: Tick) {
    !t.exited && t.pause.Sleep?
  }

  /** A wait that matches nothing ends as its first other turn says: exited, out of time or
      cancelled; without one it is still waiting. */
  lemma {:induction false} WaitEndsExactly(st: Scan, raw: int, au: Audit, ticks: seq<Tick>, lim: Limits, rx: Pattern, i: nat)
    requires LimitsOk(lim) && ScanOk(st) && i <= |ticks|
    requires (forall j :: 0 <= j < i ==> GoesOn(ticks[j])) && (i < |ticks| ==> !GoesOn(ticks[i]))
    ensures var reply := WaitOn(st, raw, au, ticks, lim, rx).reply;
      reply.Matched? || reply ==
        if i == |ticks| then Waiting
        else if ticks[i].exited then Exited
        else if ticks[i].pause.TimesOut? then TimedOut else Cancelled
    decreases |ticks|
  {
    if i > 0 {
      var (s1, h1) := Look(st, raw, ticks[0].file, false, lim, rx);
      assert GoesOn(ticks[0]);
      assert forall j :: 0 <= j < i - 1 ==> ticks[1..][j] == ticks[j + 1];
      if h1.None? {
        WaitEndsExactly(s1, raw, Observe(au, raw, ticks[0].file), ticks[1..], lim, rx, i - 1);
      }
    }
  }

  /** A client's wait goes on with its next call exactly when the last one ran out of time, from the
      offset that call returned, if it returned one. */
  lemma FollowResumes(raw: int, au: Audit, call: seq<Tick>, calls: seq<seq<Tick>>, lim: Limits, rx: Pattern)
    requires LimitsOk(lim)
    ensures var w := WaitOn(Fresh, raw, au, call, lim, rx);
      var at := w.scan.pos;
      Follow(raw, au, [call] + calls, lim, rx) ==
        if w.reply == TimedOut && calls != [] then
          Follow(if at.Some? then at.value - |w.scan.carry| else raw, w.audit, calls, lim, rx)
        else (w, raw)
  {
    assert ([call] + calls)[1..] == calls;
  }

  // ------------------------------------------------------------------ hits are real, on any file

  /** Whatever the lengths of the lines, a hit is text of the file, at its offset, that matches
      and ends where a line ends or where the file was read to. */
  ghost predicate Real(f: Line, h: Hit, rx: Pattern) {
    HitEnd(h) <= |f| && StandsAt(f, h.line, h.offset) && rx(h.line) && (h.finished ==> f[h.offset + |h.line|] == NEWLINE)
  }

  /** The carry is the end of what has been read. */
  ghost predicate Carried(f: Line, pos: nat, carry: Line) {
    |carry| <= pos <= |f| && StandsAt(f, carry, pos - |carry|)
  }

  lemma SearchedReal(f: Line, buf: Line, base: nat, cap: nat, rx: Pattern)
    requires StandsAt(f, buf, base)
    ensures var r := Searched(buf, base, cap, rx);
      Carried(f, r.pos, r.carry) && (r.hit.Some? ==> Real(f, r.hit.value, rx))
  {
    CarryReal(f, buf, base, Unfinished(buf, 0, |buf|), cap);
    FoundReal(f, buf, base, cap, rx);
  }

  lemma FoundReal(f: Line, buf: Line, base: nat, cap: nat, rx: Pattern)
    requires StandsAt(f, buf, base)
    ensures var r := Searched(buf, base, cap, rx);
      r.hit.Some? ==> Real(f, r.hit.value, rx)
  {
    if FirstMatch(buf, 0, |buf|, rx).Some? {
      FirstMatchIsReal(buf, 0, |buf|, rx);
      var m := FirstMatch(buf, 0, |buf|, rx).value;
      HitReal(f, buf, base, m, Newline(buf, m, |buf|).value, rx);
    }
  }

  lemma CarryReal(f: Line, buf: Line, base: nat, u: nat, cap: nat)
    requires StandsAt(f, buf, base) && u <= |buf|
    ensures Carried(f, base + |buf|, Trim(Text(buf, u, |buf|), cap))
  {
    SubText(f, buf, base, u, |buf|);
    TrimStandsAt(f, Text(buf, u, |buf|), base + u, cap);
  }

  lemma HitReal(f: Line, buf: Line, base: nat, m: nat, n: nat, rx: Pattern)
    requires StandsAt(f, buf, base) && m <= |buf| && Newline(buf, m, |buf|) == Some(n) && rx(Text(buf, m, n))
    ensures Real(f, Hit(Text(buf, m, n), base + m, true), rx)
  {
    NewlineIs(buf, m, |buf|, Some(n));
    SubText(f, buf, base, m, n);
  }

  lemma TrimStandsAt(f: Line, carry: Line, s: nat, cap: nat)
    requires StandsAt(f, carry, s)
    ensures var r := Trim(carry, cap);
      StandsAt(f, r, s + |carry| - |r|)
  {
    if |carry| > cap {
      SubText(f, carry, s, |carry| - cap, |carry|);
    }
  }

  lemma StepReal(f: Line, pos: nat, carry: Line, n: nat, cap: nat, rx: Pattern)
    requires Carried(f, pos, carry) && pos + n <= |f|
    ensures var r := ReadStep(f, pos, carry, n, cap, rx);
      Carried(f, r.pos, r.carry) && (r.hit.Some? ==> Real(f, r.hit.value, rx))
  {
    NextBuffer(f, carry, pos, n);
    SearchedReal(f, Extended(carry, f, pos, n), pos - |carry|, cap, rx);
  }

  lemma {:induction false} ReadOnReal(f: Line, pos: nat, carry: Line, budget: Option<nat>, lim: Limits, rx: Pattern)
    requires LimitsOk(lim) && Carried(f, pos, carry)
    ensures var r := ReadOn(f, pos, carry, budget, lim, rx);
      Carried(f, r.pos, r.carry) && (r.hit.Some? ==> Real(f, r.hit.value, rx))
    decreases |f| - pos
  {
    if budget != Some(0) && pos < |f| {
      var n := ReadSize(|f| - pos, budget, lim);
      StepReal(f, pos, carry, n, lim.cap, rx);
      var r := ReadStep(f, pos, carry, n, lim.cap, rx);
      if r.hit.None? {
        ReadOnReal(f, r.pos, r.carry, Less(budget, n), lim, rx);
      }
    }
  }

  lemma HitsAreReal(st: Scan, raw: int, f: Line, final: bool, lim: Limits, rx: Pattern)
    requires LimitsOk(lim) && ScanOk(st)
    requires st.pos.Some? && st.pos.value <= |f| ==> Carried(f, st.pos.value, st.carry)
    ensures var hit := Look(st, raw, Some(f), final, lim, rx).1;
      hit.Some? ==> Real(f, hit.value, rx)
  {
    var at := Resume(st, raw, |f|);
    ReadOnReal(f, at.pos.value, at.carry, if final then None else Some(lim.budget), lim, rx);
  }

  // ------------------------------------------------------------------ the scanner, step by step

  class LogScanner {
    var pos: Option<nat>
    var carry: Line
    const raw: int
    const lim: Limits
    const rx: Pattern

    ghost predicate Valid()
      reads this
    {
      LimitsOk(lim) && ScanOk(State())
    }

    ghost function State(): Scan
      reads this
    {
      Scan(pos, carry)
    }

    constructor (raw: int, lim: Limits, rx: Pattern)
      requires LimitsOk(lim)
      ensures Valid() && State() == Fresh && this.raw == raw && this.lim == lim && this.rx == rx
    {
      pos, carry := None, [];
      this.raw, this.lim, this.rx := raw, lim, rx;
    }

    /** The lines of one buffer, in order, until one matches; and the unfinished line. */
    method SearchLines(buf: Line, base: nat) returns (hit: Option<Hit>, rest: Line)
      ensures var m := FirstMatch(buf, 0, |buf|, rx);
        hit == if m.Some? then Some(Hit(Text(buf, m.value, Newline(buf, m.value, |buf|).value), base + m.value, true)) else None
      ensures rest == Text(buf, Unfinished(buf, 0, |buf|), |buf|)
    {
      var o: nat, next := 0, Newline(buf, 0, |buf|);
      hit := None;
      while next.Some?
        invariant o <= |buf| && next == Newline(buf, o, |buf|)
        invariant Unfinished(buf, o, |buf|) == Unfinished(buf, 0, |buf|)
        invariant var m := FirstMatch(buf, 0, |buf|, rx);
          if hit.None? then m == FirstMatch(buf, o, |buf|, rx)
          else m.Some? && hit.value == Hit(Text(buf, m.value, Newline(buf, m.value, |buf|).value), base + m.value, true)
        decreases |buf| - o
      {
        if hit.None? && rx(Text(buf, o, next.value)) {
          hit := Some(Hit(Text(buf, o, next.value), base + o, true));
        }
        o := next.value + 1;
        next := Newline(buf, o, |buf|);
      }
      rest := Text(buf, o, |buf|);
    }

    /** One read. */
    method ReadChunk(f: Line, at: nat, tail: Line, n: nat) returns (hit: Option<Hit>, rest: Line)
      requires |tail| <= at && at + n <= |f|
      ensures Reading(at + n, rest, hit) == ReadStep(f, at, tail, n, lim.cap, rx)
    {
      hit, rest := SearchLines(Extended(tail, f, at, n), at - |tail|);
      rest := Trim(rest, lim.cap);
    }

    /** The read loop. */
    method ReadAll(f: Line, start: nat, first: Line, limit: Option<nat>) returns (r: Reading)
      requires Valid() && |first| <= start <= |f|
      ensures r == ReadOn(f, start, first, limit, lim, rx)
    {
      var at: nat, tail: Line, budget: Option<nat>, hit := start, first, limit, None;
      while budget != Some(0) && at < |f| && hit.None?
        invariant |tail| <= at <= |f|
        invariant ReadOn(f, start, first, limit, lim, rx) ==
          if hit.None? then ReadOn(f, at, tail, budget, lim, rx) else Reading(at, tail, hit)
        decreases |f| - at
      {
        var n := ReadSize(|f| - at, budget, lim);
        hit, tail := ReadChunk(f, at, tail, n);
        at, budget := at + n, Less(budget, n);
      }
      return Reading(at, tail, hit);
    }

    /** One check of the file. */
    method Check(file: Option<Line>, final: bool) returns (hit: Option<Hit>)
      requires Valid()
      modifies this
      ensures Valid() && (State(), hit) == Look(old(State()), raw, file, final, lim, rx)
    {
      if file.None? {
        return None;
      }
      var f := file.value;
      if pos.None? {
        pos := Some(Start(raw, |f|));
      } else if |f| < pos.value {
        pos, carry := Some(0), [];
      }
      var start := pos.value;
      var r := ReadAll(f, start, carry, if final then None else Some(lim.budget));
      hit := SettleOn(r, start, final);
    }

    method SettleOn(r: Reading, start: nat, final: bool) returns (hit: Option<Hit>)
      requires |r.carry| <= r.pos
      modifies this
      ensures (State(), hit) == Settle(r, start, final, rx)
    {
      hit := r.hit;
      if hit.None? && r.carry != [] && (final || r.pos == start) && rx(r.carry) {
        hit := Some(Hit(r.carry, r.pos - |r.carry|, false));
      }
      if hit.Some? {
        pos, carry := Some(HitEnd(hit.value)), [];
      } else {
        pos, carry := Some(r.pos), r.carry;
      }
    }

    /** The wait loop. */
    method WaitFor(ticks: seq<Tick>, ghost au: Audit) returns (reply: Reply, ghost seen: Audit)
      requires Valid()
      modifies this
      ensures Valid() && Wait(State(), seen, reply) == WaitOn(old(State()), raw, au, ticks, lim, rx)
    {
      seen := au;
      for i := 0 to |ticks|
        invariant Valid()
        invariant WaitOn(old(State()), raw, au, ticks, lim, rx) == WaitOn(State(), raw, seen, ticks[i..], lim, rx)
      {
        var t := ticks[i];
        assert ticks[i..][0] == t && ticks[i..][1..] == ticks[i + 1..];
        var hit := Check(t.file, false);
        seen := Observe(seen, raw, t.file);
        if hit.Some? {
          return Matched(hit.value), seen;
        }
        if t.exited {
          hit := Check(t.last, true);
          seen := Observe(seen, raw, t.last);
          return if hit.Some? then Matched(hit.value) else Exited, seen;
        }
        match t.pause {
          case TimesOut => return TimedOut, seen;
          case Cancels => return Cancelled, seen;
          case Sleep =>
        }
      }
      reply := Waiting;
    }
  }

  /** `wait_for`, the client's loop of bounded calls. */
  method WaitForCalls(offset: int, calls: seq<seq<Tick>>, lim: Limits, rx: Pattern)
    returns (reply: Reply, resume: int, ghost seen: Audit)
    requires LimitsOk(lim)
    ensures reply == Follow(offset, Audit(None, None), calls, lim, rx).0.reply
    ensures resume == Follow(offset, Audit(None, None), calls, lim, rx).1
    ensures seen == Follow(offset, Audit(None, None), calls, lim, rx).0.audit
  {
    reply, resume, seen := Waiting, offset, Audit(None, None);
    for i := 0 to |calls|
      invariant Follow(offset, Audit(None, None), calls, lim, rx) == Follow(resume, seen, calls[i..], lim, rx)
      invariant i == |calls| ==> calls == []
      invariant reply == Waiting
    {
      assert calls[i..][0] == calls[i] && calls[i..][1..] == calls[i + 1..];
      var scanner := new LogScanner(resume, lim, rx);
      var r;
      r, seen := scanner.WaitFor(calls[i], seen);
      if r != TimedOut || i + 1 == |calls| {
        return r, resume, seen;
      }
      if scanner.pos.Some? {
        resume := scanner.pos.value - |scanner.carry|;
      }
    }
  }
}
