/** Writer of a solved timetable in the curriculum-based course timetabling solution
    format: one line per meeting, "<course> r<room> <day> <timeslot>", each line ended
    by a carriage return and a line feed. */
module Exporter {
  import opened Outcomes
  import opened Text
  import opened Domain
  import Importer

  const CRLF: string := "\r\n"

  /** The fields of one solution line. */
  function SolutionFields(sessionCode: string, roomCode: string, dayIndex: int, timeslotIndex: int): seq<string> {
    [sessionCode, "r" + roomCode, IntToString(dayIndex), IntToString(timeslotIndex)]
  }

  /** The fields joined by a separator. */
  function Join(fields: seq<string>, sep: char): string
    requires |fields| > 0
  {
    if |fields| == 1 then fields[0] else fields[0] + [sep] + Join(fields[1..], sep)
  }

  /** One solution line without its line break: the fields separated by single spaces,
      that is the session code, " r", the room code, " ", the day index, " ", the
      timeslot index. */
  function SolutionLine(sessionCode: string, roomCode: string, dayIndex: int, timeslotIndex: int): string {
    Join(SolutionFields(sessionCode, roomCode, dayIndex, timeslotIndex), ' ')
  }

  /** Splitting joined fields that hold no separator gives the fields back. */
  lemma {:induction false} SplitJoin(fields: seq<string>, sep: char)
    requires |fields| > 0
    requires forall k :: 0 <= k < |fields| ==> sep !in fields[k]
    ensures Split(Join(fields, sep), sep) == fields
  {
    if |fields| == 1 {
      SplitNone(fields[0], sep);
    } else {
      SplitJoin(fields[1..], sep);
      SplitFirst(fields[0], sep, Join(fields[1..], sep));
      assert fields == [fields[0]] + fields[1..];
    }
  }

  /** A character found in none of the fields is not in their join by another separator. */
  lemma {:induction false} JoinAvoids(fields: seq<string>, sep: char, c: char)
    requires |fields| > 0 && c != sep
    requires forall k :: 0 <= k < |fields| ==> c !in fields[k]
    ensures c !in Join(fields, sep)
  {
    if |fields| > 1 {
      JoinAvoids(fields[1..], sep, c);
      var rest := Join(fields[1..], sep);
      var s := fields[0] + [sep] + rest;
      forall k | 0 <= k < |s| ensures s[k] != c {
        if k < |fields[0]| {
          assert s[k] == fields[0][k];
        } else if k > |fields[0]| {
          assert s[k] == rest[k - |fields[0]| - 1];
        }
      }
    }
  }

  /** A meeting can be written once both planning variables are assigned. */
  predicate Assigned(m: Meeting)
    reads m
  {
    m.room.Some? && m.period.Some?
  }

  /** What writeSolution writes for an assigned meeting. */
  function MeetingText(m: Meeting): string
    reads m
    requires Assigned(m)
  {
    SolutionLine(m.session.code, m.room.value.code, m.period.value.day.dayIndex,
                 m.period.value.timeslot.timeslotIndex) + CRLF
  }

  /** The text written for the given meetings, in order. */
  function Written(meetings: seq<Meeting>): string
    reads set m | m in meetings
    requires forall k :: 0 <= k < |meetings| ==> Assigned(meetings[k])
  {
    if meetings == [] then "" else MeetingText(meetings[0]) + Written(meetings[1..])
  }

  lemma {:induction false} WrittenAppend(meetings: seq<Meeting>, m: Meeting)
    requires forall k :: 0 <= k < |meetings| ==> Assigned(meetings[k])
    requires Assigned(m)
    ensures Written(meetings + [m]) == Written(meetings) + MeetingText(m)
  {
    if meetings != [] {
      assert (meetings + [m])[1..] == meetings[1..] + [m];
      WrittenAppend(meetings[1..], m);
    }
  }

  /** Writing one more meeting of a list appends its line. */
  lemma WrittenStep(meetings: seq<Meeting>, i: nat)
    requires i < |meetings|
    requires forall k :: 0 <= k <= i ==> Assigned(meetings[k])
    ensures Written(meetings[..i + 1]) == Written(meetings[..i]) + MeetingText(meetings[i])
  {
    assert meetings[..i + 1] == meetings[..i] + [meetings[i]];
    WrittenAppend(meetings[..i], meetings[i]);
  }

  /** Index of the first meeting with a planning variable left unassigned. */
  ghost predicate FirstUnassigned(meetings: seq<Meeting>, k: nat)
    reads set m | m in meetings
  {
    k < |meetings| && !Assigned(meetings[k]) && forall j :: 0 <= j < k ==> Assigned(meetings[j])
  }

  /** writeSolution: the meetings' lines in meeting-list order. A meeting without a room
      or a period makes the source fail with a null dereference; what was written before
      it stays written, and `failedAt` names it. */
  method WriteSolution(meetings: seq<Meeting>) returns (out: string, failedAt: Option<nat>)
    ensures failedAt.None? <==> forall k :: 0 <= k < |meetings| ==> Assigned(meetings[k])
    ensures failedAt.None? ==> out == Written(meetings)
    ensures failedAt.Some? ==> FirstUnassigned(meetings, failedAt.value)
                               && out == Written(meetings[..failedAt.value])
  {
    out := "";
    for i := 0 to |meetings|
      invariant forall k :: 0 <= k < i ==> Assigned(meetings[k])
      invariant out == Written(meetings[..i])
    {
      var meeting := meetings[i];
      if meeting.room.None? || meeting.period.None? {
        return out, Some(i);
      }
      WrittenStep(meetings, i);
      out := out + MeetingText(meeting);
    }
    assert meetings[..|meetings|] == meetings;
    failedAt := None;
  }

  // ---------------------------------------------------------------------------
  // Reading the written text back

  /** A line without its trailing carriage return. */
  function DropCR(line: string): string {
    if |line| > 0 && line[|line| - 1] == '\r' then line[..|line| - 1] else line
  }

  /** The fields of every line of a solution text: lines end at line feeds, a trailing
      carriage return is dropped, fields are separated by spaces. The text after the
      last line feed is not a line. */
  function ReadRecords(text: string): (records: seq<seq<string>>)
    ensures |records| == |Split(text, '\n')| - 1
  {
    LineRecords(Split(text, '\n'))
  }

  /** The fields of every line but the last. */
  function LineRecords(lines: seq<string>): (records: seq<seq<string>>)
    requires |lines| > 0
    ensures |records| == |lines| - 1
  {
    if |lines| == 1 then [] else [Split(DropCR(lines[0]), ' ')] + LineRecords(lines[1..])
  }

  /** A code that stays one field of one line. */
  predicate IsFieldCode(code: string) {
    ' ' !in code && '\r' !in code && '\n' !in code
  }

  /** The meeting's session and room codes each stay one field. */
  predicate FieldCodes(m: Meeting)
    reads m
  {
    IsFieldCode(m.session.code) && m.room.Some? && IsFieldCode(m.room.value.code)
  }

  /** The fields a meeting is written as. */
  function MeetingFields(m: Meeting): seq<string>
    reads m
    requires Assigned(m)
  {
    SolutionFields(m.session.code, m.room.value.code, m.period.value.day.dayIndex,
                   m.period.value.timeslot.timeslotIndex)
  }

  /** A digit string with an optional minus sign holds none of the separators. */
  lemma IntToStringHasNoSeparator(i: int, sep: char)
    requires sep == ' ' || sep == '\r' || sep == '\n'
    ensures sep !in IntToString(i)
  {
    if i < 0 {
      DigitsHaveNoSeparator(NatToString(-i), sep);
      assert IntToString(i) == "-" + NatToString(-i);
    } else {
      DigitsHaveNoSeparator(NatToString(i), sep);
    }
  }

  /** The fields of a solution line hold neither a space nor a line break. */
  lemma SolutionFieldsSeparated(code: string, room: string, d: int, t: int, c: char)
    requires IsFieldCode(code) && IsFieldCode(room)
    requires c == ' ' || c == '\r' || c == '\n'
    ensures forall k :: 0 <= k < 4 ==> c !in SolutionFields(code, room, d, t)[k]
  {
    IntToStringHasNoSeparator(d, c);
    IntToStringHasNoSeparator(t, c);
    var r := "r" + room;
    forall k | 0 <= k < |r| ensures r[k] != c {
      if k > 0 {
        assert r[k] == room[k - 1];
      }
    }
  }

  /** A solution line splits at its spaces into exactly its four fields, and with its
      carriage return it holds no line feed. */
  lemma SolutionLineFields(code: string, room: string, d: int, t: int)
    requires IsFieldCode(code) && IsFieldCode(room)
    ensures Split(SolutionLine(code, room, d, t), ' ') == SolutionFields(code, room, d, t)
    ensures '\n' !in SolutionLine(code, room, d, t) + "\r"
    ensures DropCR(SolutionLine(code, room, d, t) + "\r") == SolutionLine(code, room, d, t)
  {
    var fields := SolutionFields(code, room, d, t);
    var line := SolutionLine(code, room, d, t);
    SolutionFieldsSeparated(code, room, d, t, ' ');
    SolutionFieldsSeparated(code, room, d, t, '\n');
    SplitJoin(fields, ' ');
    JoinAvoids(fields, ' ', '\n');
    var cr := line + "\r";
    forall k | 0 <= k < |cr| ensures cr[k] != '\n' {
      if k < |line| {
        assert cr[k] == line[k];
      }
    }
    assert cr[..|cr| - 1] == line;
  }

  /** Reading the written text back gives, line by line, the fields of each meeting:
      the session code, "r" and the room code, the day index and the timeslot index. */
  lemma {:induction false} WrittenRoundTrip(meetings: seq<Meeting>)
    requires forall k :: 0 <= k < |meetings| ==> Assigned(meetings[k])
    requires forall k :: 0 <= k < |meetings| ==> FieldCodes(meetings[k])
    ensures |ReadRecords(Written(meetings))| == |meetings|
    ensures forall k :: 0 <= k < |meetings| ==> ReadRecords(Written(meetings))[k] == MeetingFields(meetings[k])
  {
    if meetings == [] {
      assert Written(meetings) == "";
      SplitNone("", '\n');
    } else {
      var rest := meetings[1..];
      WrittenRoundTrip(rest);
      WrittenFirstRecord(meetings);
      forall k | 0 <= k < |meetings| ensures ReadRecords(Written(meetings))[k] == MeetingFields(meetings[k]) {
        if k > 0 {
          assert meetings[k] == rest[k - 1];
        }
      }
    }
  }

  /** The first meeting written is the first record read back. */
  lemma WrittenFirstRecord(meetings: seq<Meeting>)
    requires |meetings| > 0
    requires forall k :: 0 <= k < |meetings| ==> Assigned(meetings[k])
    requires FieldCodes(meetings[0])
    ensures ReadRecords(Written(meetings)) == [MeetingFields(meetings[0])] + ReadRecords(Written(meetings[1..]))
  {
    var m := meetings[0];
    var line := SolutionLine(m.session.code, m.room.value.code, m.period.value.day.dayIndex,
                             m.period.value.timeslot.timeslotIndex);
    var first := line + "\r";
    var text := Written(meetings[1..]);
    assert Written(meetings) == (line + CRLF) + text;
    LineBreakSplit(line, text);
    assert '\n' !in first && Split(DropCR(first), ' ') == MeetingFields(m) by {
      SolutionLineFields(m.session.code, m.room.value.code, m.period.value.day.dayIndex,
                         m.period.value.timeslot.timeslotIndex);
    }
    ReadRecordsCons(first, text);
  }

  /** A line ended by CRLF is the line with its carriage return, then a line feed. */
  lemma LineBreakSplit(line: string, text: string)
    ensures (line + CRLF) + text == (line + "\r") + ['\n'] + text
  {
    assert CRLF == "\r" + ['\n'];
  }

  /** A first line without a line feed reads back as the first record. */
  lemma ReadRecordsCons(first: string, text: string)
    requires '\n' !in first
    ensures ReadRecords(first + ['\n'] + text) == [Split(DropCR(first), ' ')] + ReadRecords(text)
  {
    SplitFirst(first, '\n', text);
    var lines := [first] + Split(text, '\n');
    assert lines[1..] == Split(text, '\n');
  }

  /** The day and timeslot indexes of a written line parse back to the meeting's own. */
  lemma IndexesReadBack(m: Meeting)
    requires Assigned(m)
    requires IsInt32(m.period.value.day.dayIndex) && IsInt32(m.period.value.timeslot.timeslotIndex)
    ensures ParseInt(MeetingFields(m)[2]) == Some(m.period.value.day.dayIndex)
    ensures ParseInt(MeetingFields(m)[3]) == Some(m.period.value.timeslot.timeslotIndex)
  {
    ParseIntOfIntToString(m.period.value.day.dayIndex);
    ParseIntOfIntToString(m.period.value.timeslot.timeslotIndex);
  }

  /** A period of the importer's grid is period (i, j) for a day i and a timeslot j. */
  lemma {:induction false} GridPeriodMember(days: seq<Day>, t: nat, p: Period) returns (i: nat, j: nat)
    requires p in Importer.GridPeriods(days, t)
    ensures i < |days| && j < t && p == Importer.GridPeriod(i, days[i], j, t)
    decreases |days|
  {
    var front := days[..|days| - 1];
    var last := |days| - 1;
    if p in Importer.GridPeriods(front, t) {
      i, j := GridPeriodMember(front, t, p);
      assert front[i] == days[i];
    } else {
      var row := Importer.DayRow(last, days[last], t, t);
      assert p in row;
      Importer.DayRowAt(last, days[last], t, t);
      var x :| 0 <= x < |row| && row[x] == p;
      i, j := last, x;
    }
  }

  /** For a period of the grid the importer builds, the (day, timeslot) pair written for
      it is a key of the importer's period map, and that key leads back to the period. */
  lemma WrittenPeriodIsGridKey(days: seq<Day>, t: nat, p: Period)
    requires forall k :: 0 <= k < |days| ==> days[k].dayIndex == k
    requires p in Importer.GridPeriods(days, t)
    ensures Importer.PeriodKey(p.day.dayIndex, p.timeslot.timeslotIndex) in Importer.GridMap(days, t)
    ensures Importer.GridMap(days, t)[Importer.PeriodKey(p.day.dayIndex, p.timeslot.timeslotIndex)] == p
  {
    var i, j := GridPeriodMember(days, t, p);
    Importer.GridMapAt(days, t);
  }
}
