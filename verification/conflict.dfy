/** A pair of sessions that share students or an instructor, with the number of
    conflicting students. Equality, hash code and ordering look at the pair only;
    the conflict count is deliberately ignored. Sessions are an abstract type S;
    their hash and their Comparable order are parameters. */
module SessionConflicts {
  import opened Outcomes
  import opened Text

  datatype SessionConflict<S> = SessionConflict(leftSession: S, rightSession: S, conflictCount: int)

  function Sign(x: int): int {
    if x < 0 then -1 else if x > 0 then 1 else 0
  }

  /** cmp behaves as a Comparable consistent with equality: zero exactly on equal
      arguments, opposite signs when swapped, and transitive. */
  ghost predicate IsTotalOrder<S(!new)>(cmp: (S, S) -> int) {
    && (forall x, y :: cmp(x, y) == 0 <==> x == y)
    && (forall x, y :: Sign(cmp(x, y)) == -Sign(cmp(y, x)))
    && (forall x, y, z :: cmp(x, y) < 0 && cmp(y, z) < 0 ==> cmp(x, z) < 0)
  }

  /** equals(Object): `other` is None when the argument is null or is not a
      SessionConflict. */
  predicate Equals<S(==)>(c: SessionConflict<S>, other: Option<SessionConflict<S>>)
    ensures Equals(c, other) <==> other.Some? && other.value.(conflictCount := c.conflictCount) == c
  {
    && other.Some?
    && c.leftSession == other.value.leftSession
    && c.rightSession == other.value.rightSession
  }

  /** hashCode: HashCodeBuilder's default seed 17 and multiplier 37 over the two
      sessions' hash codes, in int arithmetic. */
  function HashCode<S>(c: SessionConflict<S>, hash: S -> int): (r: int)
    ensures IsInt32(r)
  {
    Wrap32(Wrap32(17 * 37 + hash(c.leftSession)) * 37 + hash(c.rightSession))
  }

  /** compareTo: the left sessions decide unless they compare equal, then the right ones. */
  function CompareTo<S>(c: SessionConflict<S>, other: SessionConflict<S>, cmp: (S, S) -> int): (r: int)
    ensures r == 0 <==> cmp(c.leftSession, other.leftSession) == 0 && cmp(c.rightSession, other.rightSession) == 0
    ensures r < 0 <==> cmp(c.leftSession, other.leftSession) < 0
                       || (cmp(c.leftSession, other.leftSession) == 0 && cmp(c.rightSession, other.rightSession) < 0)
    ensures r > 0 <==> cmp(c.leftSession, other.leftSession) > 0
                       || (cmp(c.leftSession, other.leftSession) == 0 && cmp(c.rightSession, other.rightSession) > 0)
  {
    var l := cmp(c.leftSession, other.leftSession);
    if l != 0 then l else cmp(c.rightSession, other.rightSession)
  }

  /** Equality is an equivalence that rejects null and non-conflicts. */
  lemma EqualsIsEquivalence<S>(a: SessionConflict<S>, b: SessionConflict<S>, c: SessionConflict<S>)
    ensures Equals(a, Some(a))
    ensures !Equals(a, None)
    ensures Equals(a, Some(b)) <==> Equals(b, Some(a))
    ensures Equals(a, Some(b)) && Equals(b, Some(c)) ==> Equals(a, Some(c))
  {
  }

  /** The conflict count plays no part in equality, hashing or ordering. */
  lemma ConflictCountIgnored<S>(a: SessionConflict<S>, n: int, hash: S -> int, cmp: (S, S) -> int)
    ensures Equals(a, Some(a.(conflictCount := n)))
    ensures HashCode(a, hash) == HashCode(a.(conflictCount := n), hash)
    ensures forall b :: CompareTo(a, b, cmp) == CompareTo(a.(conflictCount := n), b, cmp)
  {
  }

  /** Equal conflicts hash equally, and every hash is a Java int. */
  lemma HashCodeConsistentWithEquals<S>(a: SessionConflict<S>, b: SessionConflict<S>, hash: S -> int)
    requires Equals(a, Some(b))
    ensures HashCode(a, hash) == HashCode(b, hash)
    ensures IsInt32(HashCode(a, hash))
  {
  }

  /** The pair is ordered: (x, y) and (y, x) are different conflicts unless x == y. */
  lemma OrderOfPairMatters<S>(x: S, y: S, n: int, m: int)
    ensures Equals(SessionConflict(x, y, n), Some(SessionConflict(y, x, m))) <==> x == y
  {
  }

  /** compareTo returns 0 exactly when equals holds. */
  lemma CompareToConsistentWithEquals<S(!new)>(a: SessionConflict<S>, b: SessionConflict<S>, cmp: (S, S) -> int)
    requires IsTotalOrder(cmp)
    ensures CompareTo(a, b, cmp) == 0 <==> Equals(a, Some(b))
  {
  }

  /** compareTo is antisymmetric and transitive: a total order on (left, right) pairs. */
  lemma CompareToIsTotalOrder<S(!new)>(a: SessionConflict<S>, b: SessionConflict<S>, c: SessionConflict<S>, cmp: (S, S) -> int)
    requires IsTotalOrder(cmp)
    ensures Sign(CompareTo(a, b, cmp)) == -Sign(CompareTo(b, a, cmp))
    ensures CompareTo(a, b, cmp) < 0 && CompareTo(b, c, cmp) < 0 ==> CompareTo(a, c, cmp) < 0
  {
  }
}
