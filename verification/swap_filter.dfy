/** Filter on swap moves between two meetings: swapping two meetings of the same
    session changes nothing worth scoring, so only swaps across sessions pass. */
module SwapFilter {
  import opened Outcomes
  import opened Domain

  /** A swap of the period and room of two meetings. */
  datatype SwapMove = SwapMove(leftEntity: Meeting, rightEntity: Meeting)

  /** accept: true exactly when the meetings belong to different sessions. It reads
      no mutable field, so neither the score director nor the meetings' period,
      room or lock can influence it. */
  predicate Accept(move: SwapMove)
    ensures Accept(move) ==> move.leftEntity != move.rightEntity
  {
    move.leftEntity.session != move.rightEntity.session
  }

  /** The filter does not care which meeting is on the left. */
  lemma AcceptIsSymmetric(a: Meeting, b: Meeting)
    ensures Accept(SwapMove(a, b)) == Accept(SwapMove(b, a))
  {
  }

  /** A meeting swapped with itself, or with another meeting of its own session, is rejected;
      meetings of different sessions are accepted. */
  lemma AcceptIffDifferentSessions(a: Meeting, b: Meeting)
    ensures !Accept(SwapMove(a, a))
    ensures Accept(SwapMove(a, b)) <==> a.session != b.session
  {
  }

  /** Reassigning the planning variables of both meetings leaves the verdict unchanged. */
  method AcceptIgnoresAssignment(move: SwapMove, p: Option<Period>, r: Option<Room>)
    returns (before: bool, after: bool)
    modifies move.leftEntity, move.rightEntity
    ensures before == Accept(move) && after == before
  {
    before := Accept(move);
    move.leftEntity.SetPeriod(p);
    move.rightEntity.SetRoom(r);
    move.rightEntity.SetLocked(true);
    after := Accept(move);
  }
}
