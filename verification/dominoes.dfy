/** A domino tile: two pip values. `head` and `tail` are the games-common
    names; the older view models call the same two values Face1 and Face2. */
module Dominoes {

  datatype Domino = Domino(head: int, tail: int)

  /** IsDouble: both faces carry the same number. */
  predicate IsDouble(d: Domino) {
    d.head == d.tail
  }

  /** HasFace / ContainsNumber: one of the two faces carries `n`. */
  predicate HasFace(d: Domino, n: int) {
    d.head == n || d.tail == n
  }

  /** Equals: field-by-field equality, so orientation matters. */
  predicate Equals(a: Domino, b: Domino) {
    a.head == b.head && a.tail == b.tail
  }

  /** The same tile turned end for end. */
  function Swap(d: Domino): (r: Domino)
    ensures r.head == d.tail && r.tail == d.head
  {
    Domino(d.tail, d.head)
  }

  /** Field equality is value equality of the datatype. */
  lemma EqualsIsEquality(a: Domino, b: Domino)
    ensures Equals(a, b) <==> a == b
  {
  }

  /** Whether a tile carries a number does not depend on which end is the
      head. */
  lemma HasFaceSwap(d: Domino, n: int)
    ensures HasFace(Swap(d), n) <==> HasFace(d, n)
  {
  }

  /** A double carries exactly one number, the one on its first face; a
      double is the only tile that equals its own reversal. */
  lemma DoubleHasOneFace(d: Domino, n: int)
    ensures IsDouble(d) ==> (HasFace(d, n) <==> d.head == n)
    ensures IsDouble(d) <==> Swap(d) == d
  {
  }
}
