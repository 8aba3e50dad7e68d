/** Picking an element of a non-empty set of row ids. */
module Sets {

  /** Some element of a non-empty set. */
  ghost function Choose(s: set<int>): (x: int)
    requires s != {}
    ensures x in s
  {
    if forall y :: y !in s then assert false; 0 else var y :| y in s; y
  }

  /** A non-empty set has an element, in the form a `:|` statement needs. */
  lemma HasElement(s: set<int>)
    requires s != {}
    ensures exists x :: x in s
  {
    var x := Choose(s);
    assert x in s;
  }
}
