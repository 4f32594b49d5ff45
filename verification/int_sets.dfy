/**
 * Finite sets of integers: a least element and the ascending enumeration. The TCP
 * retransmission handler walks the pending sequence numbers in ascending order, and
 * the Go-Back-N timeout walks its window in ascending order; both use these.
 */
module IntPick {
  lemma NoMemberMeansEmpty(s: set<int>)
    ensures (forall y :: y !in s) ==> s == {}
  {
    if forall y :: y !in s {
      assert s == {};
    }
  }

  /** Some element of a non-empty set. */
  lemma Pick(s: set<int>) returns (x: int)
    requires s != {}
    ensures x in s
  {
    NoMemberMeansEmpty(s);
    x :| x in s;
  }
}

module IntSets {
  import opened IntPick

  predicate IsLeast(m: int, s: set<int>)
  {
    m in s && forall y :: y in s ==> m <= y
  }

  lemma LeastExists(s: set<int>)
    requires s != {}
    ensures exists m :: IsLeast(m, s)
    decreases |s|
  {
    var x := Pick(s);
    var rest := s - {x};
    if rest == {} {
      assert s == {x};
      assert IsLeast(x, s);
    } else {
      LeastExists(rest);
      var m' :| IsLeast(m', rest);
      if x < m' {
        assert IsLeast(x, s) by {
          forall y | y in s ensures x <= y {
            if y != x { assert y in rest; }
          }
        }
      } else {
        assert IsLeast(m', s) by {
          forall y | y in s ensures m' <= y {
            if y != x { assert y in rest; }
          }
        }
      }
    }
  }

  /** The least element of a non-empty set. */
  function Least(s: set<int>): (m: int)
    requires s != {}
    ensures IsLeast(m, s)
  {
    LeastExists(s);
    var m :| IsLeast(m, s);
    m
  }

  /** The elements of `s` in strictly ascending order. */
  function SortedKeys(s: set<int>): (r: seq<int>)
    ensures forall i, j :: 0 <= i < j < |r| ==> r[i] < r[j]
    ensures forall k :: k in s <==> k in r
    decreases |s|
  {
    if s == {} then []
    else
      var m := Least(s);
      [m] + SortedKeys(s - {m})
  }
}
