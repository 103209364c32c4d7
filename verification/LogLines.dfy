/** The lines of a log, read straight off the whole file: the reference for the chunked scanner. */
module LogLines {
  import opened Common

  type Byte = bv8
  type Line = seq<Byte>
  type Pattern = Line -> bool

  const NEWLINE: Byte := 10

  /** No newline between two offsets. */
  ghost predicate Clear(file: Line, i: nat, j: nat)
    requires j <= |file|
  {
    forall k :: i <= k < j ==> file[k] != NEWLINE
  }

  /** The bytes between two offsets. */
  function Text(file: Line, i: nat, j: nat): (t: Line)
    requires i <= j <= |file|
    ensures |t| == j - i
    decreases j - i
  {
    if i == j then [] else [file[i]] + Text(file, i + 1, j)
  }

  lemma {:induction false} TextIs(file: Line, i: nat, j: nat)
    requires i <= j <= |file|
    ensures Text(file, i, j) == file[i..j]
    decreases j - i
  {
    if i < j {
      TextIs(file, i + 1, j);
      assert file[i..j] == [file[i]] + file[i + 1..j];
    }
  }

  /** The first newline at or after an offset, among the first `e` bytes. */
  function Newline(file: Line, o: nat, e: nat): (n: Option<nat>)
    requires o <= e <= |file|
    ensures n.Some? ==> o <= n.value < e
    decreases e - o
  {
    if o == e then None
    else if file[o] == NEWLINE then Some(o)
    else Newline(file, o + 1, e)
  }

  /** Where the first finished line that matches starts. */
  function FirstMatch(file: Line, o: nat, e: nat, rx: Pattern): (m: Option<nat>)
    requires o <= e <= |file|
    ensures m.Some? ==> o <= m.value < e && Newline(file, m.value, e).Some?
    decreases e - o
  {
    match Newline(file, o, e)
    case None => None
    case Some(n) => if rx(Text(file, o, n)) then Some(o) else FirstMatch(file, n + 1, e, rx)
  }

  /** Where the line without its newline yet starts: the end when there is none. */
  function Unfinished(file: Line, o: nat, e: nat): (u: nat)
    requires o <= e <= |file|
    ensures o <= u <= e
    decreases e - o
  {
    match Newline(file, o, e)
    case None => o
    case Some(n) => Unfinished(file, n + 1, e)
  }

  /** An offset at which a line starts, when the first one starts at `from`. */
  predicate LineStart(file: Line, from: nat, o: nat)
    requires o <= |file|
  {
    o == from || (from < o && file[o - 1] == NEWLINE)
  }

  /** No line is longer than `cap`. */
  ghost predicate LinesFit(file: Line, cap: nat) {
    forall i: nat, j: nat :: i <= j <= |file| && Clear(file, i, j) ==> j - i <= cap
  }

  // ------------------------------------------------------------------ what the reference means

  /** The newline found is the only one with nothing but other bytes before it; none is found
      only where there is none. */
  lemma {:induction false} NewlineIs(file: Line, o: nat, e: nat, n: Option<nat>)
    requires o <= e <= |file|
    ensures Newline(file, o, e) == n <==>
      match n
      case None => Clear(file, o, e)
      case Some(k) => o <= k < e && file[k] == NEWLINE && Clear(file, o, k)
    decreases e - o
  {
    if o < e && file[o] != NEWLINE {
      NewlineIs(file, o + 1, e, n);
    }
  }

  /** The match is a line start whose finished line matches. */
  lemma {:induction false} FirstMatchIsReal(file: Line, o: nat, e: nat, rx: Pattern)
    requires o <= e <= |file| && FirstMatch(file, o, e, rx).Some?
    ensures var s := FirstMatch(file, o, e, rx).value;
      LineStart(file, o, s) && rx(Text(file, s, Newline(file, s, e).value))
    decreases e - o
  {
    var n := Newline(file, o, e).value;
    if !rx(Text(file, o, n)) {
      NewlineIs(file, o, e, Some(n));
      FirstMatchIsReal(file, n + 1, e, rx);
    }
  }

  /** A finished line that matches comes no earlier than the first match. */
  lemma {:induction false} NoEarlierMatch(file: Line, o: nat, e: nat, rx: Pattern, s: nat)
    requires o <= s <= e <= |file| && LineStart(file, o, s) && Newline(file, s, e).Some?
    requires rx(Text(file, s, Newline(file, s, e).value))
    ensures FirstMatch(file, o, e, rx).Some? && FirstMatch(file, o, e, rx).value <= s
    decreases e - o
  {
    if s != o {
      NewlineIs(file, o, e, Newline(file, o, e));
      if !rx(Text(file, o, Newline(file, o, e).value)) {
        NoEarlierMatch(file, Newline(file, o, e).value + 1, e, rx, s);
      }
    }
  }

  /** The unfinished line starts where a line starts and holds no newline. */
  lemma {:induction false} UnfinishedIs(file: Line, o: nat, e: nat)
    requires o <= e <= |file|
    ensures LineStart(file, o, Unfinished(file, o, e)) && Clear(file, Unfinished(file, o, e), e)
    decreases e - o
  {
    NewlineIs(file, o, e, Newline(file, o, e));
    if Newline(file, o, e).Some? {
      UnfinishedIs(file, Newline(file, o, e).value + 1, e);
    }
  }

  // ------------------------------------------------------------------ reading further

  lemma {:induction false} NewlineGrows(file: Line, o: nat, e: nat, more: nat)
    requires o <= e <= more <= |file| && Newline(file, o, e).Some?
    ensures Newline(file, o, more) == Newline(file, o, e)
    decreases e - o
  {
    if file[o] != NEWLINE {
      NewlineGrows(file, o + 1, e, more);
    }
  }

  /** A match stays the first one as more is read. */
  lemma {:induction false} FirstMatchGrows(file: Line, o: nat, e: nat, more: nat, rx: Pattern)
    requires o <= e <= more <= |file| && FirstMatch(file, o, e, rx).Some?
    ensures FirstMatch(file, o, more, rx) == FirstMatch(file, o, e, rx)
    decreases e - o
  {
    NewlineGrows(file, o, e, more);
    var n := Newline(file, o, e).value;
    if !rx(Text(file, o, n)) {
      FirstMatchGrows(file, n + 1, e, more, rx);
    }
  }

  /** With no match among the finished lines, the search may go on from the unfinished one. */
  lemma {:induction false} SearchGoesOn(file: Line, o: nat, e: nat, more: nat, rx: Pattern)
    requires o <= e <= more <= |file| && FirstMatch(file, o, e, rx).None?
    ensures FirstMatch(file, o, more, rx) == FirstMatch(file, Unfinished(file, o, e), more, rx)
    ensures Unfinished(file, o, more) == Unfinished(file, Unfinished(file, o, e), more)
    decreases e - o
  {
    if Newline(file, o, e).Some? {
      var n := Newline(file, o, e).value;
      NewlineGrows(file, o, e, more);
      SearchGoesOn(file, n + 1, e, more, rx);
    }
  }

  /** Up to the unfinished line there is no match and nothing unfinished. */
  lemma {:induction false} UpToUnfinished(file: Line, o: nat, e: nat, rx: Pattern)
    requires o <= e <= |file| && FirstMatch(file, o, e, rx).None?
    ensures var u := Unfinished(file, o, e);
      FirstMatch(file, o, u, rx).None? && Unfinished(file, o, u) == u
    decreases e - o
  {
    if Newline(file, o, e).Some? {
      var n := Newline(file, o, e).value;
      NewlineIs(file, o, e, Some(n));
      var u := Unfinished(file, o, e);
      NewlineIs(file, o, u, Some(n));
      UpToUnfinished(file, n + 1, e, rx);
    }
  }

  // ------------------------------------------------------------------ the same text elsewhere

  /** A text stands in the file at an offset. */
  ghost predicate StandsAt(file: Line, part: Line, s: nat) {
    s + |part| <= |file| && forall k :: 0 <= k < |part| ==> part[k] == file[s + k]
  }

  function Shifted(m: Option<nat>, s: nat): Option<nat> {
    if m.Some? then Some(s + m.value) else None
  }

  lemma {:induction false} SameText(file: Line, part: Line, s: nat, i: nat, j: nat)
    requires StandsAt(file, part, s) && i <= j <= |part|
    ensures Text(file, s + i, s + j) == Text(part, i, j)
    decreases j - i
  {
    if i < j {
      SameText(file, part, s, i + 1, j);
    }
  }

  lemma TextStands(file: Line, i: nat, j: nat)
    requires i <= j <= |file|
    ensures StandsAt(file, Text(file, i, j), i)
  {
    TextIs(file, i, j);
  }

  lemma SubText(file: Line, part: Line, s: nat, i: nat, j: nat)
    requires StandsAt(file, part, s) && i <= j <= |part|
    ensures StandsAt(file, Text(part, i, j), s + i)
  {
    SameText(file, part, s, i, j);
    TextStands(file, s + i, s + j);
  }

  lemma {:induction false} NewlineShifts(file: Line, part: Line, s: nat, i: nat, e: nat)
    requires StandsAt(file, part, s) && i <= e <= |part|
    ensures Newline(file, s + i, s + e) == Shifted(Newline(part, i, e), s)
    decreases e - i
  {
    if i < e && part[i] != NEWLINE {
      NewlineShifts(file, part, s, i + 1, e);
    }
  }

  /** Searching a text is searching the file where it stands. */
  lemma {:induction false} MatchShifts(file: Line, part: Line, s: nat, i: nat, e: nat, rx: Pattern)
    requires StandsAt(file, part, s) && i <= e <= |part|
    ensures FirstMatch(file, s + i, s + e, rx) == Shifted(FirstMatch(part, i, e, rx), s)
    decreases e - i
  {
    NewlineShifts(file, part, s, i, e);
    if Newline(part, i, e).Some? {
      var n := Newline(part, i, e).value;
      SameText(file, part, s, i, n);
      MatchShifts(file, part, s, n + 1, e, rx);
    }
  }

  lemma {:induction false} UnfinishedShifts(file: Line, part: Line, s: nat, i: nat, e: nat)
    requires StandsAt(file, part, s) && i <= e <= |part|
    ensures Unfinished(file, s + i, s + e) == s + Unfinished(part, i, e)
    decreases e - i
  {
    NewlineShifts(file, part, s, i, e);
    if Newline(part, i, e).Some? {
      UnfinishedShifts(file, part, s, Newline(part, i, e).value + 1, e);
    }
  }

  /** A file that has grown reads the same as far as it went. */
  lemma SameSoFar(file: Line, more: Line, o: nat, e: nat, rx: Pattern)
    requires file <= more && o <= e <= |file|
    ensures FirstMatch(more, o, e, rx) == FirstMatch(file, o, e, rx)
    ensures Unfinished(more, o, e) == Unfinished(file, o, e)
  {
    MatchShifts(more, file, 0, o, e, rx);
    UnfinishedShifts(more, file, 0, o, e);
  }
}
