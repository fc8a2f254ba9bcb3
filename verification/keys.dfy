/**
 * Record ids. The database hands out a fresh positive id on every insert,
 * and `FirstOrDefault` over a table picks the first row that matches; the
 * model fixes both choices deterministically: the next id is one more than
 * the largest id in use, and "the first match" is the match with the
 * smallest id.
 */
module Keys {

  /** A non-empty set has an element to pick. */
  lemma Inhabited(s: set<int>)
    requires s != {}
    ensures exists x :: x in s
  {
    if forall x :: x !in s {
      assert false;
    }
  }

  /** Finds the largest element by removing one element at a time. */
  lemma {:induction false} LargestWitness(s: set<int>) returns (m: int)
    requires s != {}
    ensures m in s
    ensures forall k | k in s :: k <= m
    decreases |s|
  {
    Inhabited(s);
    var x :| x in s;
    var rest := s - {x};
    if rest == {} {
      m := x;
      forall k | k in s
        ensures k <= m
      {
        assert k !in rest;
      }
    } else {
      var r := LargestWitness(rest);
      m := if x <= r then r else x;
      forall k | k in s
        ensures k <= m
      {
        if k != x {
          assert k in rest;
        }
      }
    }
  }

  /** Finds the smallest element by removing one element at a time. */
  lemma {:induction false} SmallestWitness(s: set<int>) returns (m: int)
    requires s != {}
    ensures m in s
    ensures forall k | k in s :: m <= k
    decreases |s|
  {
    Inhabited(s);
    var x :| x in s;
    var rest := s - {x};
    if rest == {} {
      m := x;
      forall k | k in s
        ensures m <= k
      {
        assert k !in rest;
      }
    } else {
      var r := SmallestWitness(rest);
      m := if r <= x then r else x;
      forall k | k in s
        ensures m <= k
      {
        if k != x {
          assert k in rest;
        }
      }
    }
  }

  lemma LargestExists(s: set<int>)
    requires s != {}
    ensures exists m :: m in s && forall k | k in s :: k <= m
  {
    var m := LargestWitness(s);
  }

  lemma SmallestExists(s: set<int>)
    requires s != {}
    ensures exists m :: m in s && forall k | k in s :: m <= k
  {
    var m := SmallestWitness(s);
  }

  /** The largest element of a non-empty set of ids. */
  function Largest(s: set<int>): (m: int)
    requires s != {}
    ensures m in s
    ensures forall k | k in s :: k <= m
  {
    LargestExists(s);
    var m :| m in s && forall k | k in s :: k <= m;
    m
  }

  /** The smallest element of a non-empty set of ids. */
  function Smallest(s: set<int>): (m: int)
    requires s != {}
    ensures m in s
    ensures forall k | k in s :: m <= k
  {
    SmallestExists(s);
    var m :| m in s && forall k | k in s :: m <= k;
    m
  }

  /** The id an insert receives: positive and above every id in use. */
  function NextId(used: set<int>): (r: int)
    ensures 0 < r
    ensures r !in used
    ensures forall k | k in used :: k < r
  {
    if used == {} then 1
    else
      var m := Largest(used);
      if m < 1 then 1 else m + 1
  }
}
