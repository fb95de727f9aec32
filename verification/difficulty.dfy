/** Difficulty of placing a meeting, used to sort meetings before construction:
    a meeting is harder when its session is in more curricula, has more
    unavailable periods, more meetings, more students and more minimum working
    days; the meeting id breaks ties. */
module MeetingDifficulty {
  import opened Domain

  /** Number of penalties whose session is s (object identity), counted front to back. */
  function PenaltyCount(penalties: seq<UnavailablePeriodPenalty>, s: Session): (n: nat)
    ensures n <= |penalties|
  {
    if penalties == [] then 0
    else PenaltyCount(penalties[..|penalties| - 1], s) + (if penalties[|penalties| - 1].session == s then 1 else 0)
  }

  /** The count is the number of positions holding a penalty on s. */
  lemma {:induction false} PenaltyCountCountsPositions(penalties: seq<UnavailablePeriodPenalty>, s: Session)
    ensures PenaltyCount(penalties, s) == |set i | 0 <= i < |penalties| && penalties[i].session == s|
  {
    if penalties != [] {
      var n := |penalties| - 1;
      var front := penalties[..n];
      PenaltyCountCountsPositions(front, s);
      var before := set i | 0 <= i < n && front[i].session == s;
      var after := set i | 0 <= i < |penalties| && penalties[i].session == s;
      if penalties[n].session == s {
        assert after == before + {n};
      } else {
        assert after == before;
      }
    }
  }

  datatype MeetingDifficultyWeight = MeetingDifficultyWeight(meeting: Meeting, unavailablePeriodPenaltyCount: int)

  /** createSorterWeight: counts the schedule's penalties on the meeting's session.
      A penalty without a session would make the source throw. */
  method CreateSorterWeight(schedule: SessionSchedule, meeting: Meeting) returns (w: MeetingDifficultyWeight)
    requires forall p :: p in schedule.unavailablePeriodPenaltyList ==> p.session != null
    ensures w.meeting == meeting
    ensures w.unavailablePeriodPenaltyCount == PenaltyCount(schedule.unavailablePeriodPenaltyList, meeting.session)
  {
    var session := meeting.session;
    var penalties := schedule.unavailablePeriodPenaltyList;
    var count := 0;
    var i := 0;
    while i < |penalties|
      invariant 0 <= i <= |penalties|
      invariant count == PenaltyCount(penalties[..i], session)
    {
      assert penalties[..i + 1][..i] == penalties[..i];
      if penalties[i].session == session {
        count := count + 1;
      }
      i := i + 1;
    }
    assert penalties[..i] == penalties;
    w := MeetingDifficultyWeight(meeting, count);
  }

  /** The compared fields, most significant first. */
  function SortKey(w: MeetingDifficultyWeight): (key: seq<int>)
    reads w.meeting.session
    ensures |key| == 6
  {
    var s := w.meeting.session;
    [|s.curriculumList|, w.unavailablePeriodPenaltyCount, s.meetingSize, s.studentSize,
     s.minWorkingDaySize, w.meeting.id]
  }

  /** CompareToBuilder over ints: the first differing field decides, -1, 0 or 1. */
  function LexCompare(a: seq<int>, b: seq<int>): (r: int)
    requires |a| == |b|
    ensures -1 <= r <= 1
  {
    if a == [] then 0
    else if a[0] < b[0] then -1
    else if a[0] > b[0] then 1
    else LexCompare(a[1..], b[1..])
  }

  /** The textbook lexicographic order: equal up to k, smaller at k. */
  ghost predicate LexLess(a: seq<int>, b: seq<int>)
    requires |a| == |b|
  {
    exists k :: 0 <= k < |a| && a[..k] == b[..k] && a[k] < b[k]
  }

  lemma {:induction false} LexCompareMeansLexLess(a: seq<int>, b: seq<int>)
    requires |a| == |b|
    ensures LexCompare(a, b) < 0 <==> LexLess(a, b)
    ensures LexCompare(a, b) == 0 <==> a == b
  {
    if a != [] {
      LexCompareMeansLexLess(a[1..], b[1..]);
      if a[0] == b[0] {
        if LexLess(a[1..], b[1..]) {
          var k :| 0 <= k < |a| - 1 && a[1..][..k] == b[1..][..k] && a[1..][k] < b[1..][k];
          assert a[..k + 1] == [a[0]] + a[1..][..k];
          assert b[..k + 1] == [b[0]] + b[1..][..k];
        }
        if LexLess(a, b) {
          var k :| 0 <= k < |a| && a[..k] == b[..k] && a[k] < b[k];
          assert k > 0;
          assert a[1..][..k - 1] == a[..k][1..];
          assert b[1..][..k - 1] == b[..k][1..];
        }
        assert a == [a[0]] + a[1..] && b == [b[0]] + b[1..];
      } else if a[0] < b[0] {
        assert a[..0] == b[..0];
      } else {
        if LexLess(a, b) {
          var k :| 0 <= k < |a| && a[..k] == b[..k] && a[k] < b[k];
          assert k > 0 ==> a[..k][0] == b[..k][0];
        }
      }
    }
  }

  lemma {:induction false} LexCompareAntisymmetric(a: seq<int>, b: seq<int>)
    requires |a| == |b|
    ensures LexCompare(a, b) == -LexCompare(b, a)
  {
    if a != [] {
      LexCompareAntisymmetric(a[1..], b[1..]);
    }
  }

  lemma {:induction false} LexCompareTransitive(a: seq<int>, b: seq<int>, c: seq<int>)
    requires |a| == |b| == |c|
    requires LexCompare(a, b) <= 0 && LexCompare(b, c) <= 0
    ensures LexCompare(a, c) <= 0
  {
    if a != [] && a[0] == b[0] == c[0] {
      LexCompareTransitive(a[1..], b[1..], c[1..]);
    }
  }

  /** compareTo of MeetingDifficultyWeight. */
  function CompareTo(w: MeetingDifficultyWeight, other: MeetingDifficultyWeight): (r: int)
    reads w.meeting.session, other.meeting.session
    ensures r < 0 <==> LexLess(SortKey(w), SortKey(other))
    ensures r == 0 <==> SortKey(w) == SortKey(other)
  {
    LexCompareMeansLexLess(SortKey(w), SortKey(other));
    LexCompare(SortKey(w), SortKey(other))
  }

  /** The comparison is a total order: antisymmetric, transitive, and two weights
      of meetings with different ids never compare equal. */
  lemma CompareToIsTotalOrder(a: MeetingDifficultyWeight, b: MeetingDifficultyWeight, c: MeetingDifficultyWeight)
    ensures CompareTo(a, b) == -CompareTo(b, a)
    ensures CompareTo(a, b) <= 0 && CompareTo(b, c) <= 0 ==> CompareTo(a, c) <= 0
    ensures a.meeting.id != b.meeting.id ==> CompareTo(a, b) != 0
  {
    LexCompareAntisymmetric(SortKey(a), SortKey(b));
    if CompareTo(a, b) <= 0 && CompareTo(b, c) <= 0 {
      LexCompareTransitive(SortKey(a), SortKey(b), SortKey(c));
    }
    if a.meeting.id != b.meeting.id {
      assert SortKey(a)[5] != SortKey(b)[5];
    }
  }
}
