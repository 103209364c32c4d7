/** Small vocabulary shared by every component: optional values and hexadecimal ids. */
module Common {

  datatype Option<+T> = None | Some(value: T)

  /** A lower-case hexadecimal id, split after its first ten characters. The job-name markers
      are built from `head` only; ids of one kind have one length, so text order is the
      lexicographic order of the two parts. */
  datatype Id = Id(head: nat, tail: nat)

  predicate Before(a: Id, b: Id) {
    a.head < b.head || (a.head == b.head && a.tail < b.tail)
  }

  ghost predicate IsFirst(a: Id, s: set<Id>) {
    a in s && forall b :: b in s && b != a ==> Before(a, b)
  }

  /** Every non-empty finite set of ids has a first element. */
  lemma {:induction false} FirstExists(s: set<Id>)
    requires s != {}
    ensures exists a :: IsFirst(a, s)
  {
    var x :| x in s;
    if s == {x} {
      assert IsFirst(x, s);
    } else {
      FirstExists(s - {x});
      var y :| IsFirst(y, s - {x});
      var z := if Before(x, y) then x else y;
      forall b | b in s && b != z ensures Before(z, b) {
        assert b == x || b in s - {x};
      }
      assert IsFirst(z, s);
    }
  }

  ghost function First(s: set<Id>): (a: Id)
    requires s != {}
    ensures IsFirst(a, s)
  {
    FirstExists(s);
    var a :| IsFirst(a, s);
    a
  }

  /** The order in which the program walks a set of ids: `sorted(...)`. */
  ghost function Sorted(s: set<Id>): (r: seq<Id>)
    ensures forall x :: x in r <==> x in s
  {
    if s == {} then [] else
      var a := First(s);
      [a] + Sorted(s - {a})
  }

  /** Each id once, in order. */
  lemma {:induction false} SortedAscends(s: set<Id>)
    ensures forall i, j :: 0 <= i < j < |Sorted(s)| ==> Before(Sorted(s)[i], Sorted(s)[j])
  {
    if s != {} {
      var a := First(s);
      SortedAscends(s - {a});
      forall j | 0 < j < |Sorted(s)| ensures Before(a, Sorted(s)[j]) {
        assert Sorted(s)[j] == Sorted(s - {a})[j - 1];
        assert Sorted(s)[j] in Sorted(s - {a});
      }
    }
  }

  /** Picks the first element of a set by scanning it. */
  method PickFirst(s: set<Id>) returns (a: Id)
    requires s != {}
    ensures IsFirst(a, s)
  {
    a :| a in s;
    var rest := s - {a};
    while rest != {}
      invariant a in s && rest <= s - {a}
      invariant forall b :: b in s - rest && b != a ==> Before(a, b)
      decreases rest
    {
      var b :| b in rest;
      var least := if Before(b, a) then b else a;
      forall x | x in s - (rest - {b}) && x != least ensures Before(least, x) {
        assert x == b || x in s - rest;
      }
      rest := rest - {b};
      if Before(b, a) {
        a := b;
      }
    }
  }

  /** `sorted(s)` as the program computes it. */
  method SortIds(s: set<Id>) returns (r: seq<Id>)
    ensures r == Sorted(s)
  {
    r := [];
    var rest := s;
    while rest != {}
      invariant r + Sorted(rest) == Sorted(s)
      decreases rest
    {
      var a := PickFirst(rest);
      assert a == First(rest);
      r := r + [a];
      rest := rest - {a};
    }
  }

  lemma SubsetCard<T>(a: set<T>, b: set<T>)
    requires a <= b
    ensures |a| <= |b|
  {
    assert b == a + (b - a);
  }
}
