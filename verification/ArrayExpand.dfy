/** The bounded expander of array specifications, against the full expansion. */
module ArrayExpand {
  import opened Common

  type Task = int

  /** One comma-separated part: a task, or a range with the step written after its colon. */
  datatype Part = Single(task: Task) | Range(lo: nat, hi: int, step: Option<nat>)

  /** A step that is missing, or is zero, is one. */
  function StepOf(p: Part): (s: nat)
    requires p.Range?
    ensures s > 0
  {
    if p.step.Some? && p.step.value > 0 then p.step.value else 1
  }

  // ------------------------------------------------------------------ the full expansion

  function Values(lo: int, hi: int, step: nat): seq<Task>
    requires step > 0
    decreases hi - lo
  {
    if lo > hi then [] else [lo] + Values(lo + step, hi, step)
  }

  function Listed(p: Part): seq<Task> {
    match p
    case Single(t) => [t]
    case Range(lo, hi, _) => Values(lo, hi, StepOf(p))
  }

  lemma {:induction false} ValuesAre(lo: int, hi: int, step: nat)
    requires step > 0
    ensures var v := Values(lo, hi, step);
      && (forall i :: 0 <= i < |v| ==> v[i] == lo + i * step && v[i] <= hi)
      && lo + |v| * step > hi
    decreases hi - lo
  {
    if lo <= hi {
      ValuesAre(lo + step, hi, step);
      var rest := Values(lo + step, hi, step);
      forall i | 0 <= i < |Values(lo, hi, step)|
        ensures Values(lo, hi, step)[i] == lo + i * step && Values(lo, hi, step)[i] <= hi
      {
        if i > 0 {
          assert Values(lo, hi, step)[i] == rest[i - 1];
          Shift(lo, i - 1, step);
        }
      }
      Shift(lo, |rest|, step);
    }
  }

  lemma Shift(lo: int, i: nat, step: nat)
    ensures lo + step + i * step == lo + (i + 1) * step
  {
  }

  /** A single task lists itself. A range lists its first value and every following one at the
      distance written in the part, or at distance one when none or zero is written, as long as
      they do not pass its end. */
  lemma ListedExactly(p: Part)
    ensures p.Single? ==> Listed(p) == [p.task]
    ensures p.Range? ==>
      var s := if p.step == None || p.step == Some(0) then 1 else p.step.value;
      && (forall i :: 0 <= i < |Listed(p)| ==> Listed(p)[i] == p.lo + i * s && Listed(p)[i] <= p.hi)
      && p.lo + |Listed(p)| * s > p.hi
  {
    if p.Range? {
      ValuesAre(p.lo, p.hi, StepOf(p));
    }
  }

  /** All tasks listed from one part on. */
  function ListedFrom(parts: seq<Part>, i: nat): seq<Task>
    requires i <= |parts|
    decreases |parts| - i
  {
    if i == |parts| then [] else Listed(parts[i]) + ListedFrom(parts, i + 1)
  }

  function Expansion(parts: seq<Part>): seq<Task> {
    ListedFrom(parts, 0)
  }

  /** The parts are expanded one behind the other. */
  lemma ExpandsInOrder(parts: seq<Part>, p: Part)
    ensures Expansion([]) == [] && Expansion([p] + parts) == Listed(p) + Expansion(parts)
  {
    ListedBehind(parts, p, 0);
  }

  lemma {:induction false} ListedBehind(parts: seq<Part>, p: Part, i: nat)
    requires i <= |parts|
    ensures ListedFrom([p] + parts, i + 1) == ListedFrom(parts, i)
    decreases |parts| - i
  {
    if i < |parts| {
      ListedBehind(parts, p, i + 1);
      assert ([p] + parts)[i + 1] == parts[i];
    }
  }

  /** The values of a list that are not in a first one, behind it, each at its first occurrence. */
  function Joined(first: seq<Task>, more: seq<Task>): seq<Task>
    decreases |more|
  {
    if more == [] then first
    else Joined(if more[0] in first then first else first + [more[0]], more[1..])
  }

  function Distinct(s: seq<Task>): seq<Task> {
    Joined([], s)
  }

  function Take(s: seq<Task>, max: nat): seq<Task> {
    if |s| <= max then s else s[..max]
  }

  // ------------------------------------------------------------------ what Distinct means

  ghost predicate NoRepeats(s: seq<Task>) {
    forall i, j :: 0 <= i < j < |s| ==> s[i] != s[j]
  }

  lemma {:induction false} JoinedIs(first: seq<Task>, more: seq<Task>)
    requires NoRepeats(first)
    ensures var r := Joined(first, more);
      && first <= r && NoRepeats(r)
      && forall t :: t in r <==> t in first || t in more
    decreases |more|
  {
    if more != [] {
      var next := if more[0] in first then first else first + [more[0]];
      JoinedIs(next, more[1..]);
      assert more == [more[0]] + more[1..];
    }
  }

  /** Where a value first occurs. */
  function FirstAt(s: seq<Task>, t: Task): nat
    requires t in s
  {
    if s[0] == t then 0 else 1 + FirstAt(s[1..], t)
  }

  /** The new values come in the order in which the list first names them. */
  lemma {:induction false} JoinedInOrder(first: seq<Task>, more: seq<Task>, i: nat, j: nat)
    requires NoRepeats(first) && |first| <= i < j < |Joined(first, more)|
    ensures Joined(first, more)[i] in more && Joined(first, more)[j] in more
    ensures FirstAt(more, Joined(first, more)[i]) < FirstAt(more, Joined(first, more)[j])
    decreases |more|
  {
    var next := if more[0] in first then first else first + [more[0]];
    JoinedIs(first, more);
    JoinedIs(next, more[1..]);
    var r := Joined(first, more);
    if i >= |next| {
      JoinedInOrder(next, more[1..], i, j);
      var k :| 0 <= k < |next| && next[k] == more[0];
      assert r[k] == more[0] && r[i] != more[0] && r[j] != more[0];
    } else {
      assert r[i] == more[0] && r[j] != more[0];
      if j >= |next| {
        assert r[j] in more[1..];
      }
    }
  }

  /** The full answer has every listed task once, in the order of first occurrence. */
  lemma DistinctIs(s: seq<Task>)
    ensures NoRepeats(Distinct(s))
    ensures forall t :: t in Distinct(s) <==> t in s
    ensures forall i, j :: 0 <= i < j < |Distinct(s)| ==>
      Distinct(s)[i] in s && Distinct(s)[j] in s && FirstAt(s, Distinct(s)[i]) < FirstAt(s, Distinct(s)[j])
  {
    JoinedIs([], s);
    forall i, j | 0 <= i < j < |Distinct(s)|
      ensures Distinct(s)[i] in s && Distinct(s)[j] in s && FirstAt(s, Distinct(s)[i]) < FirstAt(s, Distinct(s)[j])
    {
      JoinedInOrder([], s, i, j);
    }
  }

  // ------------------------------------------------------------------ why bounding early is safe

  lemma {:induction false} JoinedTwice(first: seq<Task>, a: seq<Task>, b: seq<Task>)
    ensures Joined(first, a + b) == Joined(Joined(first, a), b)
    decreases |a|
  {
    if a == [] {
      assert a + b == b;
    } else {
      assert (a + b)[1..] == a[1..] + b;
      JoinedTwice(if a[0] in first then first else first + [a[0]], a[1..], b);
    }
  }

  /** Once the limit is reached, nothing listed later matters. */
  lemma FullStays(first: seq<Task>, more: seq<Task>, max: nat)
    requires NoRepeats(first) && |first| >= max
    ensures Take(Joined(first, more), max) == Take(first, max)
  {
    JoinedIs(first, more);
  }

  /** The bound on the upper end of a range. */
  function Bounded(lo: nat, hi: int, step: nat, max: nat): int {
    if hi < lo + max * step then hi else lo + max * step
  }

  /** A bounded range has at most one value more than the limit; when the bound cuts it, exactly
      that many, and it is the start of the full range. */
  lemma {:induction false} BoundedRange(lo: nat, hi: int, step: nat, max: nat)
    requires step > 0
    ensures var b := Values(lo, Bounded(lo, hi, step, max), step);
      && |b| <= max + 1
      && b <= Values(lo, hi, step)
      && (b != Values(lo, hi, step) ==> |b| == max + 1)
    decreases max
  {
    if max > 0 && lo <= hi {
      assert lo + max * step == (lo + step) + (max - 1) * step;
      BoundedRange(lo + step, hi, step, max - 1);
    } else if max == 0 && lo <= hi {
      assert Values(lo + step, Bounded(lo, hi, step, 0), step) == [];
    }
  }

  lemma {:induction false} ValuesGrow(lo: int, hi: int, step: nat)
    requires step > 0
    ensures forall i :: 0 <= i < |Values(lo, hi, step)| ==> Values(lo, hi, step)[i] >= lo
    ensures NoRepeats(Values(lo, hi, step))
    decreases hi - lo
  {
    if lo <= hi {
      ValuesGrow(lo + step, hi, step);
    }
  }

  ghost function Members(s: seq<Task>): set<Task> {
    set t | t in s
  }

  lemma {:induction false} CountDistinct(s: seq<Task>)
    requires NoRepeats(s)
    ensures |Members(s)| == |s|
    decreases |s|
  {
    if s != [] {
      var n := |s| - 1;
      CountDistinct(s[..n]);
      assert s == s[..n] + [s[n]];
      assert Members(s) == Members(s[..n]) + {s[n]};
    }
  }

  /** Joining a list without repeats gives at least as many values as the list has. */
  lemma JoinedIsLong(first: seq<Task>, more: seq<Task>)
    requires NoRepeats(first) && NoRepeats(more)
    ensures |Joined(first, more)| >= |more|
  {
    JoinedIs(first, more);
    CountDistinct(more);
    CountDistinct(Joined(first, more));
    SubsetCard(Members(more), Members(Joined(first, more)));
  }

  /** Bounding a range first does not change the answer: when the bound cuts the range, the values
      left already reach the limit, however many of them were seen before. */
  lemma BoundingIsSafe(first: seq<Task>, lo: nat, hi: int, step: nat, max: nat, rest: seq<Task>)
    requires step > 0 && NoRepeats(first)
    ensures var full := Values(lo, hi, step);
      var cut := Values(lo, Bounded(lo, hi, step, max), step);
      && Take(Joined(first, full + rest), max) == Take(Joined(first, cut + rest), max)
      && (cut != full ==> |Joined(first, cut)| > max)
  {
    var full := Values(lo, hi, step);
    var cut := Values(lo, Bounded(lo, hi, step, max), step);
    BoundedRange(lo, hi, step, max);
    ValuesGrow(lo, Bounded(lo, hi, step, max), step);
    if cut != full {
      JoinedIsLong(first, cut);
      JoinedIs(first, cut);
      var tail := full[|cut|..];
      assert full + rest == cut + (tail + rest);
      JoinedTwice(first, cut, tail + rest);
      JoinedTwice(first, cut, rest);
      FullStays(Joined(first, cut), tail + rest, max);
      FullStays(Joined(first, cut), rest, max);
    }
  }

  // ------------------------------------------------------------------ the program

  const MAX_ARRAY_EXPAND := 100000

  /** The expander's inner `add`: whether there is room for more. */
  method Add(uniq: seq<Task>, seen: set<Task>, t: Task, max: nat) returns (u: seq<Task>, s: set<Task>, more: bool)
    requires NoRepeats(uniq) && seen == Members(uniq)
    ensures u == Joined(uniq, [t]) && NoRepeats(u) && s == Members(u) && (more <==> |u| < max)
  {
    JoinedIs(uniq, [t]);
    u, s := uniq, seen;
    if t !in seen {
      u, s := u + [t], s + {t};
    }
    more := |u| < max;
  }

  /** What is joined up to the limit, in two parts. */
  lemma TakeInTwo(first: seq<Task>, a: seq<Task>, b: seq<Task>, max: nat)
    requires NoRepeats(first)
    ensures Take(Joined(first, a + b), max) ==
      if |Joined(first, a)| < max then Take(Joined(Joined(first, a), b), max) else Take(Joined(first, a), max)
  {
    JoinedTwice(first, a, b);
    JoinedIs(first, a);
    if |Joined(first, a)| >= max {
      FullStays(Joined(first, a), b, max);
    }
  }

  /** The values of one bounded range, until there is no more room. */
  method AddRange(first: seq<Task>, was: set<Task>, lo: int, top: int, step: nat, max: nat)
    returns (u: seq<Task>, s: set<Task>, more: bool, ghost count: nat)
    requires NoRepeats(first) && was == Members(first) && |first| < max && step > 0
    ensures u == Take(Joined(first, Values(lo, top, step)), max)
    ensures NoRepeats(u) && s == Members(u) && (more <==> |u| < max) && count <= |Values(lo, top, step)|
  {
    u, s, more, count := first, was, true, 0;
    var t := lo;
    while t <= top
      invariant NoRepeats(u) && s == Members(u) && |u| < max && more
      invariant Take(Joined(u, Values(t, top, step)), max) == Take(Joined(first, Values(lo, top, step)), max)
      invariant count + |Values(t, top, step)| == |Values(lo, top, step)|
      decreases top - t
    {
      assert Values(t, top, step) == [t] + Values(t + step, top, step);
      TakeInTwo(u, [t], Values(t + step, top, step), max);
      u, s, more := Add(u, s, t, max);
      count := count + 1;
      if !more {
        return;
      }
      t := t + step;
    }
  }

  /** One part; `rest` is whatever is listed after it. */
  method AddPart(first: seq<Task>, was: set<Task>, p: Part, max: nat, ghost rest: seq<Task>)
    returns (u: seq<Task>, s: set<Task>, more: bool, ghost count: nat)
    requires NoRepeats(first) && was == Members(first) && |first| < max
    ensures NoRepeats(u) && s == Members(u) && (more <==> |u| < max) && count <= max + 1
    ensures Take(Joined(first, Listed(p) + rest), max) == if more then Take(Joined(u, rest), max) else u
  {
    match p {
      case Single(t) =>
        u, s, more := Add(first, was, t, max);
        TakeInTwo(first, [t], rest, max);
        count := 1;
      case Range(lo, hi, _) =>
        var step := StepOf(p);
        var top := if hi < lo + max * step then hi else lo + max * step;
        u, s, more, count := AddRange(first, was, lo, top, step, max);
        RangeDone(first, lo, hi, step, max, rest);
    }
  }

  /** `expand_array_tasks`, on the parts of a specification: the first distinct tasks of the full
      expansion, up to the limit. It iterates over at most one value more of each range. */
  method ExpandArrayTasks(parts: seq<Part>) returns (uniq: seq<Task>, ghost longest: nat)
    ensures uniq == Take(Distinct(Expansion(parts)), MAX_ARRAY_EXPAND)
    ensures var all := Distinct(Expansion(parts));
      uniq <= all && |uniq| == if |all| < MAX_ARRAY_EXPAND then |all| else MAX_ARRAY_EXPAND
    ensures longest <= MAX_ARRAY_EXPAND + 1
  {
    var max := MAX_ARRAY_EXPAND;
    var seen: set<Task>, more: bool := {}, true;
    uniq, longest := [], 0;
    for i := 0 to |parts|
      invariant NoRepeats(uniq) && |uniq| < max && longest <= max + 1
      invariant seen == Members(uniq)
      invariant Take(Joined(uniq, ListedFrom(parts, i)), max) == Take(Distinct(Expansion(parts)), max)
    {
      ghost var count;
      uniq, seen, more, count := AddPart(uniq, seen, parts[i], max, ListedFrom(parts, i + 1));
      longest := if count > longest then count else longest;
      if !more {
        return;
      }
    }
  }

  /** After a bounded range, the answer continues as after the full one. */
  lemma RangeDone(first: seq<Task>, lo: nat, hi: int, step: nat, max: nat, rest: seq<Task>)
    requires step > 0 && NoRepeats(first)
    ensures var u := Take(Joined(first, Values(lo, Bounded(lo, hi, step, max), step)), max);
      Take(Joined(first, Values(lo, hi, step) + rest), max) == if |u| < max then Take(Joined(u, rest), max) else u
    ensures |Values(lo, Bounded(lo, hi, step, max), step)| <= max + 1
  {
    var cut := Values(lo, Bounded(lo, hi, step, max), step);
    BoundingIsSafe(first, lo, hi, step, max, rest);
    BoundedRange(lo, hi, step, max);
    TakeInTwo(first, cut, rest, max);
  }
}
