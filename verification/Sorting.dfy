/**
 Sorted iteration over finite sets. Python's `sorted` and Rust's ordered maps
 visit keys in one fixed order; `SortedSeq` is that order for any total order.
 */
module Sorting {

  ghost predicate TotalOrder<T(!new)>(le: (T, T) -> bool) {
    && (forall x :: le(x, x))
    && (forall x, y :: le(x, y) && le(y, x) ==> x == y)
    && (forall x, y, z :: le(x, y) && le(y, z) ==> le(x, z))
    && (forall x, y :: le(x, y) || le(y, x))
  }

  /** Ascending and free of repetitions. */
  ghost predicate Ascending<T(!new)>(r: seq<T>, le: (T, T) -> bool) {
    forall i, j :: 0 <= i < j < |r| ==> le(r[i], r[j]) && r[i] != r[j]
  }

  lemma {:induction false} LeastExists<T(!new)>(s: set<T>, le: (T, T) -> bool) returns (m: T)
    requires TotalOrder(le) && s != {}
    ensures m in s && forall y :: y in s ==> le(m, y)
  {
    var x :| x in s;
    if s == {x} {
      m := x;
    } else {
      var rest := s - {x};
      m := LeastExists(rest, le);
      var least := if le(x, m) then x else m;
      forall y | y in s
        ensures le(least, y)
      {
        assert y == x || y in rest;
      }
      m := least;
    }
  }

  /** The members of `s` in ascending order. */
  function SortedSeq<T(!new, ==)>(s: set<T>, le: (T, T) -> bool): (r: seq<T>)
    requires TotalOrder(le)
    ensures forall x :: x in r <==> x in s
    ensures Ascending(r, le)
  {
    if s == {} then [] else
      assert exists m :: m in s && forall y :: y in s ==> le(m, y) by {
        var m := LeastExists(s, le);
      }
      var m :| m in s && forall y :: y in s ==> le(m, y);
      var rest := SortedSeq(s - {m}, le);
      assert forall x :: x in [m] + rest <==> x == m || x in rest;
      [m] + rest
  }

  /** Only one ascending listing of a set exists. */
  lemma {:induction false} AscendingUnique<T(!new)>(r: seq<T>, q: seq<T>, le: (T, T) -> bool)
    requires TotalOrder(le) && Ascending(r, le) && Ascending(q, le)
    requires forall x :: x in r <==> x in q
    ensures r == q
  {
    assert q != [] ==> q[0] in r;
    if r != [] {
      assert r[0] in q;
      assert r[0] == q[0];
      forall x
        ensures x in r[1..] <==> x in q[1..]
      {
        if x in r[1..] { assert x in r && x != r[0]; assert x in q; }
        if x in q[1..] { assert x in q && x != q[0]; assert x in r; }
      }
      AscendingUnique(r[1..], q[1..], le);
      assert r == [r[0]] + r[1..] && q == [q[0]] + q[1..];
    }
  }

  /** Adding a new greatest member appends it. */
  lemma SortedAppend<T(!new)>(s: set<T>, x: T, le: (T, T) -> bool)
    requires TotalOrder(le) && x !in s
    requires forall y :: y in s ==> le(y, x)
    ensures SortedSeq(s + {x}, le) == SortedSeq(s, le) + [x]
  {
    AscendingUnique(SortedSeq(s + {x}, le), SortedSeq(s, le) + [x], le);
  }

  lemma EmptyListing<T(!new)>(s: set<T>, le: (T, T) -> bool)
    requires TotalOrder(le)
    ensures SortedSeq(s, le) == [] <==> s == {}
  {
    var r := SortedSeq(s, le);
    if r == [] {
      forall x ensures x !in s { assert x in r <==> x in s; }
    } else {
      assert r[0] in s;
    }
  }

  // ---------------------------------------------------------------- walks

  /** The wanted ones among the first `k` of a listing. */
  ghost function Visited<T>(order: seq<T>, k: nat, wanted: set<T>): set<T>
    requires k <= |order|
  {
    set x | x in wanted && x in order[..k]
  }

  lemma VisitedStep<T(!new)>(order: seq<T>, k: nat, wanted: set<T>, le: (T, T) -> bool)
    requires Ascending(order, le) && k < |order|
    ensures order[k] !in Visited(order, k, wanted)
    ensures Visited(order, k + 1, wanted) == Visited(order, k, wanted) + if order[k] in wanted then {order[k]} else {}
  {
    assert order[..k + 1] == order[..k] + [order[k]];
  }

  /** Walking a sorted listing builds the sorted listing of whatever is wanted. */
  lemma WalkStep<T(!new)>(order: seq<T>, k: nat, wanted: set<T>, le: (T, T) -> bool)
    requires TotalOrder(le) && Ascending(order, le) && k < |order|
    ensures SortedSeq(Visited(order, k + 1, wanted), le)
         == SortedSeq(Visited(order, k, wanted), le) + if order[k] in wanted then [order[k]] else []
  {
    var before := Visited(order, k, wanted);
    VisitedStep(order, k, wanted, le);
    if order[k] in wanted {
      forall y | y in before
        ensures le(y, order[k])
      {
        var j :| 0 <= j < k && order[j] == y;
      }
      SortedAppend(before, order[k], le);
    } else {
      assert before + {} == before;
    }
  }

  lemma WholeWalk<T>(order: seq<T>, wanted: set<T>)
    requires forall x :: x in wanted ==> x in order
    ensures Visited(order, |order|, wanted) == wanted
  {
    assert order[..|order|] == order;
  }
}

/** The order of text: code point by code point, a proper prefix first. */
module TextOrder {
  import opened Sorting

  predicate TextLe(a: string, b: string) {
    if a == "" then true
    else if b == "" then false
    else if a[0] != b[0] then a[0] < b[0]
    else TextLe(a[1..], b[1..])
  }

  lemma {:induction false} TextLeLaws(a: string, b: string, c: string)
    ensures TextLe(a, a)
    ensures TextLe(a, b) || TextLe(b, a)
    ensures TextLe(a, b) && TextLe(b, a) ==> a == b
    ensures TextLe(a, b) && TextLe(b, c) ==> TextLe(a, c)
    decreases |a| + |b| + |c|
  {
    if a != "" {
      TextLeLaws(a[1..], if b == "" then b else b[1..], if c == "" then c else c[1..]);
    }
    assert a != "" ==> a == [a[0]] + a[1..];
    assert b != "" ==> b == [b[0]] + b[1..];
  }

  lemma TextOrderIsTotal()
    ensures TotalOrder(TextLe)
  {
    forall a, b, c
      ensures TextLe(a, a) && (TextLe(a, b) || TextLe(b, a))
      ensures TextLe(a, b) && TextLe(b, a) ==> a == b
      ensures TextLe(a, b) && TextLe(b, c) ==> TextLe(a, c)
    {
      TextLeLaws(a, b, c);
    }
  }

  function SortedTexts(s: set<string>): (r: seq<string>)
    ensures forall t :: t in r <==> t in s
    ensures Ascending(r, TextLe)
  {
    TextOrderIsTotal();
    SortedSeq(s, TextLe)
  }
}
