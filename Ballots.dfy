/** The plaintext ballot (Modelling/Entities/Ballot.cs) and its equality members.
    In the source Ballot is an immutable class that overrides equality; here it is
    a datatype, `Ballot?` is `Option<Ballot>` and `object?` is `Object`. */
module Ballots {
  import opened Common

  datatype Ballot = Ballot(voterId: Guid, candidateId: int)

  /** A value of static type `object?`: null, a Ballot, or an instance of some
      other class. */
  datatype Object = Null | BallotObject(ballot: Ballot) | OtherObject

  /** Ballot.Equals(Ballot? other): false for null, otherwise field by field. */
  function Equals(self: Ballot, other: Option<Ballot>): (r: bool)
    ensures r <==> other == Some(self)
  {
    if other.None? then
      false
    else
      self.voterId == other.value.voterId && self.candidateId == other.value.candidateId
  }

  /** The conversion `obj as Ballot`: null for anything that is not a Ballot. */
  function AsBallot(obj: Object): (r: Option<Ballot>)
    ensures r.Some? <==> obj.BallotObject?
    ensures r.Some? ==> BallotObject(r.value) == obj
  {
    if obj.BallotObject? then Some(obj.ballot) else None
  }

  /** Ballot.Equals(object? obj), which delegates to Equals(obj as Ballot). */
  function EqualsObject(self: Ballot, obj: Object): (r: bool)
    ensures r <==> obj == BallotObject(self)
    ensures obj == Null || obj == OtherObject ==> !r
  {
    Equals(self, AsBallot(obj))
  }

  /** operator ==(Ballot?, Ballot?): two nulls are equal, a null left operand is
      unequal to anything else, otherwise the left operand's Equals decides. */
  function EqualityOperator(left: Option<Ballot>, right: Option<Ballot>): (r: bool)
    ensures r <==> left == right
  {
    if left.None? && right.None? then
      true
    else if left.None? then
      false
    else
      Equals(left.value, right)
  }

  /** operator !=(Ballot?, Ballot?) is the negation of ==. */
  function InequalityOperator(left: Option<Ballot>, right: Option<Ballot>): (r: bool)
    ensures r <==> !EqualityOperator(left, right)
    ensures r <==> left != right
  {
    !EqualityOperator(left, right)
  }

  /** GetHashCode: HashCode.Combine of the two compared fields. HashCode.Combine
      is seeded per process, so it is a parameter here. */
  function GetHashCode(self: Ballot, combine: (Guid, int) -> int): int {
    combine(self.voterId, self.candidateId)
  }

  /** Ballots that Equals relates have equal hash codes, whatever the combiner. */
  lemma EqualBallotsHaveEqualHashCodes(a: Ballot, b: Ballot, combine: (Guid, int) -> int)
    requires Equals(a, Some(b))
    ensures GetHashCode(a, combine) == GetHashCode(b, combine)
  {
  }

  /** == on ballots is an equivalence: reflexive, symmetric and transitive, with
      null equal only to null. */
  lemma EqualityOperatorIsEquivalence(a: Option<Ballot>, b: Option<Ballot>, c: Option<Ballot>)
    ensures EqualityOperator(a, a)
    ensures EqualityOperator(a, b) == EqualityOperator(b, a)
    ensures EqualityOperator(a, b) && EqualityOperator(b, c) ==> EqualityOperator(a, c)
  {
  }
}
