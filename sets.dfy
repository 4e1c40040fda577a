/** Picking from a set in a loop that walks a map's keys. */
module Sets {

  /** A set of integers other than the empty one has a member. */
  lemma NonEmptyHasMember(s: set<int>)
    requires s != {}
    ensures exists x :: x in s
  {
    if forall x :: x !in s {
      assert false;
    }
  }

  /** `m` is the least member of `s`. */
  predicate IsLeast(m: int, s: set<int>) {
    m in s && forall x :: x in s ==> m <= x
  }

  /** A non-empty set of integers has a least member. */
  lemma {:induction false} HasMinimum(s: set<int>)
    requires s != {}
    ensures exists m :: IsLeast(m, s)
    decreases |s|
  {
    NonEmptyHasMember(s);
    var y :| y in s;
    if s == {y} {
      assert IsLeast(y, s);
    } else {
      var t := s - {y};
      assert y in s && s != {y};
      HasMinimum(t);
      var m :| IsLeast(m, t);
      var r := if y < m then y else m;
      forall x | x in s
        ensures r <= x
      {
        if x != y {
          assert x in t;
        }
      }
      assert IsLeast(r, s);
    }
  }
}
