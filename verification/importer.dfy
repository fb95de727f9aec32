/** Reader of the curriculum-based course timetabling input format (the ITC-2007
    ".ctt" layout): a header of seven "Label: value" lines, then the sections
    COURSES, ROOMS, CURRICULA and UNAVAILABILITY_CONSTRAINTS, each introduced by an
    empty line and its title, and finally an empty line and "END.". Lines arrive
    already split into tokens at spaces and tabs. */
module Importer {
  import opened Outcomes
  import opened Text
  import opened Domain

  /** A line split at spaces and tabs; the empty line has no tokens. */
  type Line = seq<string>

  datatype ImportError =
    | EndOfInput(lineIndex: nat)
    | UnexpectedLine(lineIndex: nat, expected: Line)
    | WrongTokenCount(lineIndex: nat, expectedCount: nat)
    | NotAnInteger(lineIndex: nat, token: string)
    | IllegalCapacity(size: int)
    | TooFewTokens(lineIndex: nat)
    | CourseCountMismatch(lineIndex: nat, expectedTokens: int)
    | UnknownSession(lineIndex: nat, code: string)
    | UnknownPeriod(lineIndex: nat, dayIndex: int, timeslotIndex: int)
    | ListTooLarge(size: int)

  // ---------------------------------------------------------------------------
  // Header

  const HEADER_LABELS: seq<string> :=
    ["Name:", "Courses:", "Rooms:", "Days:", "Periods_per_day:", "Curricula:", "Constraints:"]

  /** "Label: value" with a value parseInt accepts. */
  predicate IsIntegerValueLine(line: Line, title: string) {
    |line| == 2 && line[0] == title && ParseInt(line[1]).Some?
  }

  predicate IsStringValueLine(line: Line, title: string) {
    |line| == 2 && line[0] == title
  }

  ghost predicate HeaderOk(lines: seq<Line>) {
    && |lines| >= 7
    && IsStringValueLine(lines[0], HEADER_LABELS[0])
    && forall i :: 1 <= i < 7 ==> IsIntegerValueLine(lines[i], HEADER_LABELS[i])
  }

  /** The header as read: the instance name and the six announced sizes. */
  datatype Header = Header(name: string, courses: int, rooms: int, days: int, timeslots: int, curricula: int,
                           penalties: int)

  /** The value of a "Label: value" line, 0 when it has none. */
  function IntValue(line: Line): int {
    if |line| == 2 && ParseInt(line[1]).Some? then ParseInt(line[1]).value else 0
  }

  /** The header the first seven lines announce. */
  function HeaderOf(lines: seq<Line>): Header {
    if |lines| < 7 || |lines[0]| != 2 then Header("", 0, 0, 0, 0, 0, 0)
    else Header(lines[0][1], IntValue(lines[1]), IntValue(lines[2]), IntValue(lines[3]), IntValue(lines[4]),
                IntValue(lines[5]), IntValue(lines[6]))
  }

  /** None of the announced sizes is negative. */
  predicate SizesNonNegative(h: Header) {
    h.courses >= 0 && h.rooms >= 0 && h.days >= 0 && h.timeslots >= 0 && h.curricula >= 0 && h.penalties >= 0
  }

  /** Where each section starts, each section being an empty line, its title and its lines. */
  function RoomsLine(h: Header): int { 9 + h.courses }
  function CurriculaLine(h: Header): int { RoomsLine(h) + 2 + h.rooms }
  function PenaltiesLine(h: Header): int { CurriculaLine(h) + 2 + h.curricula }
  function EndLine(h: Header): int { PenaltiesLine(h) + 2 + h.penalties }

  // ---------------------------------------------------------------------------
  // Lines of each section

  /** Courses: <CourseID> <Instructor> <# Meetings> <MinWorkingDays> <# Students> */
  datatype CourseLine = CourseLine(code: string, instructorCode: string, meetingSize: int,
                                   minWorkingDaySize: int, studentSize: int)

  function ParseCourseLine(t: Line, at: nat): (r: Result<CourseLine, ImportError>)
    ensures r.Ok? <==> |t| == 5 && ParseInt(t[2]).Some? && ParseInt(t[3]).Some? && ParseInt(t[4]).Some?
  {
    if |t| != 5 then Err(WrongTokenCount(at, 5))
    else if ParseInt(t[2]).None? then Err(NotAnInteger(at, t[2]))
    else if ParseInt(t[3]).None? then Err(NotAnInteger(at, t[3]))
    else if ParseInt(t[4]).None? then Err(NotAnInteger(at, t[4]))
    else Ok(CourseLine(t[0], t[1], ParseInt(t[2]).value, ParseInt(t[3]).value, ParseInt(t[4]).value))
  }

  function CourseLineTokens(c: CourseLine): Line {
    [c.code, c.instructorCode, IntToString(c.meetingSize), IntToString(c.minWorkingDaySize),
     IntToString(c.studentSize)]
  }

  /** Every course line with int-sized numbers is read back as written. */
  lemma CourseLineRoundTrip(c: CourseLine, at: nat)
    requires IsInt32(c.meetingSize) && IsInt32(c.minWorkingDaySize) && IsInt32(c.studentSize)
    ensures ParseCourseLine(CourseLineTokens(c), at) == Ok(c)
  {
    ParseIntOfIntToString(c.meetingSize);
    ParseIntOfIntToString(c.minWorkingDaySize);
    ParseIntOfIntToString(c.studentSize);
  }

  /** Rooms: <RoomID> <Capacity> */
  datatype RoomLine = RoomLine(code: string, capacity: int)

  function ParseRoomLine(t: Line, at: nat): (r: Result<RoomLine, ImportError>)
    ensures r.Ok? <==> |t| == 2 && ParseInt(t[1]).Some?
  {
    if |t| != 2 then Err(WrongTokenCount(at, 2))
    else if ParseInt(t[1]).None? then Err(NotAnInteger(at, t[1]))
    else Ok(RoomLine(t[0], ParseInt(t[1]).value))
  }

  lemma RoomLineRoundTrip(room: RoomLine, at: nat)
    requires IsInt32(room.capacity)
    ensures ParseRoomLine([room.code, IntToString(room.capacity)], at) == Ok(room)
  {
    ParseIntOfIntToString(room.capacity);
  }

  /** Curricula: <CurriculumID> <# Courses> <MemberID> ... <MemberID> */
  datatype CurriculumLine = CurriculumLine(code: string, members: seq<string>)

  /** The checks of a curriculum line made before its members are looked up, in the order
      the source makes them: at least two tokens, a numeric course count, and exactly
      count + 2 tokens (count + 2 computed in int arithmetic). */
  function CurriculumHeader(t: Line, at: nat): (r: Result<(), ImportError>)
    ensures r.Ok? ==> |t| >= 2
  {
    if |t| < 2 then Err(TooFewTokens(at))
    else if ParseInt(t[1]).None? then Err(NotAnInteger(at, t[1]))
    else if |t| != Wrap32(ParseInt(t[1]).value + 2) then Err(CourseCountMismatch(at, Wrap32(ParseInt(t[1]).value + 2)))
    else Ok(())
  }

  /** A curriculum line: the header checks, then every member must be a known course code. */
  function ParseCurriculumLine(t: Line, at: nat, known: set<string>): Result<CurriculumLine, ImportError> {
    var header := CurriculumHeader(t, at);
    if header.Err? then Err(header.error)
    else
      var members := t[2..];
      var unknown := FirstUnknown(members, 0, known);
      if unknown < |members| then Err(UnknownSession(at, members[unknown]))
      else Ok(CurriculumLine(t[0], members))
  }

  /** Index of the first code at or after `from` that is not known, or |t|. */
  function FirstUnknown(t: seq<string>, from: nat, known: set<string>): (k: nat)
    requires from <= |t|
    ensures from <= k <= |t|
    ensures forall j :: from <= j < k ==> t[j] in known
    ensures k < |t| ==> t[k] !in known
    decreases |t| - from
  {
    if from == |t| then from
    else if t[from] !in known then from
    else FirstUnknown(t, from + 1, known)
  }

  /** A curriculum line is accepted exactly when it has at least two tokens, a numeric count
      matching the number of members, and only known members; an unknown member is
      reported by its code. */
  lemma CurriculumLineChecks(t: Line, at: nat, known: set<string>)
    ensures var r := ParseCurriculumLine(t, at, known);
            && (|t| < 2 ==> r == Err(TooFewTokens(at)))
            && (r.Ok? <==> (&& |t| >= 2 && ParseInt(t[1]).Some? && |t| == Wrap32(ParseInt(t[1]).value + 2)
                           && forall j :: 2 <= j < |t| ==> t[j] in known))
            && (r.Ok? ==> r.value == CurriculumLine(t[0], t[2..]))
            && (r.Err? && r.error.UnknownSession? ==> r.error.code !in known)
  {
    if |t| >= 2 {
      var members := t[2..];
      forall j | 2 <= j < |t| ensures t[j] == members[j - 2] { }
    }
  }

  lemma CurriculumLineRoundTrip(c: CurriculumLine, at: nat, known: set<string>)
    requires |c.members| + 2 <= INT_MAX
    requires forall m :: m in c.members ==> m in known
    ensures ParseCurriculumLine([c.code, IntToString(|c.members|)] + c.members, at, known) == Ok(c)
  {
    var t := [c.code, IntToString(|c.members|)] + c.members;
    ParseIntOfIntToString(|c.members|);
    assert t[2..] == c.members;
    forall j | 2 <= j < |t| ensures t[j] in known {
      assert t[j] == c.members[j - 2];
    }
  }

  /** Unavailability_Constraints: <CourseID> <Day> <Day_Period> */
  datatype PenaltyLine = PenaltyLine(sessionCode: string, dayIndex: int, timeslotIndex: int)

  function ParsePenaltyLine(t: Line, at: nat): (r: Result<PenaltyLine, ImportError>)
    ensures r.Ok? <==> |t| == 3 && ParseInt(t[1]).Some? && ParseInt(t[2]).Some?
  {
    if |t| != 3 then Err(WrongTokenCount(at, 3))
    else if ParseInt(t[1]).None? then Err(NotAnInteger(at, t[1]))
    else if ParseInt(t[2]).None? then Err(NotAnInteger(at, t[2]))
    else Ok(PenaltyLine(t[0], ParseInt(t[1]).value, ParseInt(t[2]).value))
  }

  lemma PenaltyLineRoundTrip(p: PenaltyLine, at: nat)
    requires IsInt32(p.dayIndex) && IsInt32(p.timeslotIndex)
    ensures ParsePenaltyLine([p.sessionCode, IntToString(p.dayIndex), IntToString(p.timeslotIndex)], at) == Ok(p)
  {
    ParseIntOfIntToString(p.dayIndex);
    ParseIntOfIntToString(p.timeslotIndex);
  }

  // ---------------------------------------------------------------------------
  // Instructors, de-duplicated by code

  /** findOrCreateInstructor: the instructor already registered under `code`, or a new
      one whose id is the number of instructors registered before it. */
  function FindOrCreateInstructor(instructorMap: map<string, Instructor>, code: string)
    : (r: (map<string, Instructor>, Instructor))
    ensures code in r.0 && r.0[code] == r.1
    ensures r.0.Keys == instructorMap.Keys + {code}
    ensures forall c :: c in instructorMap ==> r.0[c] == instructorMap[c]
    ensures code !in instructorMap ==> r.1 == Instructor(|instructorMap|, code)
  {
    if code in instructorMap then (instructorMap, instructorMap[code])
    else
      var instructor := Instructor(|instructorMap|, code);
      (instructorMap[code := instructor], instructor)
  }

  /** The instructors in creation order and the map from code to instructor agree:
      instructor i has id i, codes are distinct and every code maps to its instructor. */
  ghost predicate InstructorRegistry(instructorMap: map<string, Instructor>, instructors: seq<Instructor>) {
    && |instructors| == |instructorMap|
    && (forall i :: 0 <= i < |instructors| ==>
          instructors[i].id == i && instructors[i].code in instructorMap
          && instructorMap[instructors[i].code] == instructors[i])
    && (forall c :: c in instructorMap ==>
          instructorMap[c].code == c && 0 <= instructorMap[c].id < |instructors|
          && instructors[instructorMap[c].id] == instructorMap[c])
  }

  /** Registering a code keeps the registry consistent; a repeated code returns the
      instructor already registered and creates nothing. */
  lemma FindOrCreateKeepsRegistry(instructorMap: map<string, Instructor>, instructors: seq<Instructor>, code: string)
    requires InstructorRegistry(instructorMap, instructors)
    ensures var (m, ins) := FindOrCreateInstructor(instructorMap, code);
            if code in instructorMap then m == instructorMap && ins.code == code
            else InstructorRegistry(m, instructors + [ins])
  {
    var (m, ins) := FindOrCreateInstructor(instructorMap, code);
    if code !in instructorMap {
      assert m.Keys == instructorMap.Keys + {code};
      assert |m| == |instructorMap| + 1;
      var all := instructors + [ins];
      forall i | 0 <= i < |all|
        ensures all[i].id == i && all[i].code in m && m[all[i].code] == all[i]
      {
        if i < |instructors| {
          assert all[i] == instructors[i];
          assert instructors[i].code != code;
        }
      }
    }
  }

  // ---------------------------------------------------------------------------
  // Sections

  /** An empty line followed by the section title. */
  ghost predicate SectionStart(lines: seq<Line>, at: nat, title: string) {
    at + 2 <= |lines| && lines[at] == [] && lines[at + 1] == [title]
  }

  /** The n lines from line `from` on, each read with `parse`, as the section loops do:
      the first failing line decides the error, and a missing line is the end of the input. */
  function ParseLines<T>(lines: seq<Line>, from: nat, n: nat, parse: (Line, nat) -> Result<T, ImportError>)
    : (r: Result<seq<T>, ImportError>)
    ensures r.Ok? ==> |r.value| == n
    decreases n
  {
    if n == 0 then Ok([])
    else
      var front := ParseLines(lines, from, n - 1, parse);
      if front.Err? then front
      else if from + n - 1 >= |lines| then Err(EndOfInput(from + n - 1))
      else
        var item := parse(lines[from + n - 1], from + n - 1);
        if item.Err? then Err(item.error) else Ok(front.value + [item.value])
  }

  /** One more line of a section. */
  lemma ParseLinesNext<T>(lines: seq<Line>, from: nat, items: seq<T>, parse: (Line, nat) -> Result<T, ImportError>)
    requires ParseLines(lines, from, |items|, parse) == Ok(items)
    ensures var l := from + |items|;
            ParseLines(lines, from, |items| + 1, parse)
              == if l >= |lines| then Err(EndOfInput(l))
                 else if parse(lines[l], l).Err? then Err(parse(lines[l], l).error)
                 else Ok(items + [parse(lines[l], l).value])
  {
  }

  /** Once a prefix of a section fails, the whole section fails. */
  lemma {:induction false} ParseLinesErrPersists<T>(lines: seq<Line>, from: nat, m: nat, n: nat,
                                                    parse: (Line, nat) -> Result<T, ImportError>)
    requires m <= n && ParseLines(lines, from, m, parse).Err?
    ensures ParseLines(lines, from, n, parse).Err?
    decreases n
  {
    if m < n {
      ParseLinesErrPersists(lines, from, m, n - 1, parse);
    }
  }

  /** Each of the n lines from line `from` on exists and parses. */
  ghost predicate AllLinesParse<T>(lines: seq<Line>, from: nat, n: nat, parse: (Line, nat) -> Result<T, ImportError>) {
    forall l :: from <= l < from + n ==> LineParses(lines, l, parse)
  }

  ghost predicate LineParses<T>(lines: seq<Line>, l: nat, parse: (Line, nat) -> Result<T, ImportError>) {
    l < |lines| && parse(lines[l], l).Ok?
  }

  /** A section parses exactly when each of its lines exists and parses, and then
      item k is what line from + k says. */
  lemma {:induction false} ParseLinesOk<T>(lines: seq<Line>, from: nat, n: nat,
                                           parse: (Line, nat) -> Result<T, ImportError>)
    ensures ParseLines(lines, from, n, parse).Ok? <==> AllLinesParse(lines, from, n, parse)
    ensures ParseLines(lines, from, n, parse).Ok? ==>
              forall k :: 0 <= k < n ==> && LineParses(lines, from + k, parse)
                                         && ParseLines(lines, from, n, parse).value[k] == parse(lines[from + k], from + k).value
    decreases n
  {
    if n > 0 {
      ParseLinesOk(lines, from, n - 1, parse);
      var r := ParseLines(lines, from, n, parse);
      var front := ParseLines(lines, from, n - 1, parse);
      var last := from + n - 1;
      if r.Ok? {
        assert front.Ok? && last < |lines| && parse(lines[last], last).Ok?;
        forall k | 0 <= k < n
          ensures LineParses(lines, from + k, parse) && r.value[k] == parse(lines[from + k], from + k).value
        {
          if k < n - 1 { assert r.value[k] == front.value[k]; }
        }
      }
      if AllLinesParse(lines, from, n, parse) {
        assert AllLinesParse(lines, from, n - 1, parse);
        assert LineParses(lines, last, parse);
      }
    }
  }

  /** Room lines from line `first` on: room k is numbered k. */
  function RoomParser(first: nat): (Line, nat) -> Result<Room, ImportError> {
    (t: Line, l: nat) =>
      var line := ParseRoomLine(t, l);
      if line.Err? then Err(line.error) else Ok(Room(l - first, line.value.code, line.value.capacity))
  }

  ghost predicate RoomsOk(lines: seq<Line>, at: nat, n: int) {
    SectionStart(lines, at, "ROOMS:") && n >= 0 && ParseLines(lines, at + 2, n, RoomParser(at + 2)).Ok?
  }

  /** A rooms section reads room k from its line k: its id is k, its code and capacity
      the line's two tokens. */
  lemma RoomsFromLines(lines: seq<Line>, first: nat, n: nat)
    requires ParseLines(lines, first, n, RoomParser(first)).Ok?
    ensures |ParseLines(lines, first, n, RoomParser(first)).value| == n
    ensures forall k :: 0 <= k < n ==> RoomFromLine(lines, first, ParseLines(lines, first, n, RoomParser(first)).value[k], k)
  {
    var rooms := ParseLines(lines, first, n, RoomParser(first)).value;
    ParseLinesOk(lines, first, n, RoomParser(first));
    forall k | 0 <= k < n ensures RoomFromLine(lines, first, rooms[k], k) {
      assert LineParses(lines, first + k, RoomParser(first));
      assert rooms[k] == RoomParser(first)(lines[first + k], first + k).value;
    }
  }

  /** Room number k as line first + k gives it: id k, the line's code and capacity. */
  ghost predicate RoomFromLine(lines: seq<Line>, first: nat, room: Room, k: nat) {
    var l := first + k;
    && l < |lines| && |lines[l]| == 2 && ParseInt(lines[l][1]).Some?
    && room == Room(k, lines[l][0], ParseInt(lines[l][1]).value)
  }

  /** periodMap.get([day, timeslot]). */
  datatype PeriodKey = PeriodKey(dayIndex: int, timeslotIndex: int)

  /** Penalty lines from line `first` on: penalty k is numbered k, its session is the
      course map's entry for the code (null for an unknown code), and its period must
      be in the grid. */
  function PenaltyParser(courseMap: map<string, Session>, periodMap: map<PeriodKey, Period>, first: nat)
    : (Line, nat) -> Result<UnavailablePeriodPenalty, ImportError>
  {
    (t: Line, l: nat) =>
      var line := ParsePenaltyLine(t, l);
      if line.Err? then Err(line.error)
      else
        var p := line.value;
        var session: Session? := if p.sessionCode in courseMap then courseMap[p.sessionCode] else null;
        var key := PeriodKey(p.dayIndex, p.timeslotIndex);
        if key !in periodMap then Err(UnknownPeriod(l, p.dayIndex, p.timeslotIndex))
        else Ok(UnavailablePeriodPenalty(l - first, session, periodMap[key]))
  }

  ghost predicate PenaltiesOk(lines: seq<Line>, at: nat, n: int, courseMap: map<string, Session>,
                              periodMap: map<PeriodKey, Period>) {
    SectionStart(lines, at, "UNAVAILABILITY_CONSTRAINTS:") && n >= 0
    && ParseLines(lines, at + 2, n, PenaltyParser(courseMap, periodMap, at + 2)).Ok?
  }

  /** A penalty line is accepted exactly when it has three tokens, two numbers and names a
      period of the grid; an unknown course code is accepted and leaves the session null. */
  lemma PenaltyLineAccepted(courseMap: map<string, Session>, periodMap: map<PeriodKey, Period>,
                            first: nat, t: Line, l: nat)
    ensures var r := PenaltyParser(courseMap, periodMap, first)(t, l);
            && (r.Ok? <==> (&& |t| == 3 && ParseInt(t[1]).Some? && ParseInt(t[2]).Some?
                           && PeriodKey(ParseInt(t[1]).value, ParseInt(t[2]).value) in periodMap))
            && (r.Ok? ==> && r.value.id == l - first
                          && r.value.period == periodMap[PeriodKey(ParseInt(t[1]).value, ParseInt(t[2]).value)]
                          && (t[0] in courseMap ==> r.value.session == courseMap[t[0]])
                          && (t[0] !in courseMap ==> r.value.session == null))
            && (|t| == 3 && ParseInt(t[1]).Some? && ParseInt(t[2]).Some? && !r.Ok? ==>
                  r.error == UnknownPeriod(l, ParseInt(t[1]).value, ParseInt(t[2]).value))
  {
  }

  ghost predicate CoursesOk(lines: seq<Line>, at: nat, n: int) {
    n >= 0 && SectionStart(lines, at, "COURSES:") && ParseLines(lines, at + 2, n, ParseCourseLine).Ok?
  }

  /** Session number k carries what its course line says. */
  ghost predicate SessionFromLine(s: Session, k: int, c: CourseLine)
    reads s`meetingSize, s`studentSize
  {
    && s.id == k && s.code == c.code && s.instructor.code == c.instructorCode
    && s.meetingSize == c.meetingSize && s.minWorkingDaySize == c.minWorkingDaySize
    && s.studentSize == c.studentSize
  }

  /** Session k carries course k; the sessions are distinct objects. */
  ghost predicate SessionsFromCourses(courses: seq<CourseLine>, sessions: seq<Session>)
    reads sessions`meetingSize, sessions`studentSize
  {
    && |sessions| == |courses|
    && (forall k :: 0 <= k < |sessions| ==> SessionFromLine(sessions[k], k, courses[k]))
    && (forall i, j :: 0 <= i < j < |sessions| ==> sessions[i] != sessions[j])
  }

  /** courseMap.put(code, session) for each session in turn. */
  function CourseMapFor(sessions: seq<Session>): map<string, Session>
    decreases |sessions|
  {
    if sessions == [] then map[]
    else CourseMapFor(sessions[..|sessions| - 1])[sessions[|sessions| - 1].code := sessions[|sessions| - 1]]
  }

  /** Sessions numbered by position give a course map that holds exactly their codes,
      each mapped to a session with that code, the later one when a code repeats. */
  lemma {:induction false} CourseMapForIsCourseMap(sessions: seq<Session>)
    requires forall k :: 0 <= k < |sessions| ==> sessions[k].id == k
    ensures CourseMapOf(CourseMapFor(sessions), sessions)
  {
    if sessions != [] {
      var front := sessions[..|sessions| - 1];
      var last := sessions[|sessions| - 1];
      CourseMapForIsCourseMap(front);
      AddSessionKeepsCourseMap(CourseMapFor(front), front, last);
      assert front + [last] == sessions;
    }
  }

  /** The course map holds every course code and nothing else, maps it to a session with that code,
      and a code used twice maps to the later session. */
  ghost predicate CourseMapOf(courseMap: map<string, Session>, sessions: seq<Session>) {
    && (forall k :: 0 <= k < |sessions| ==> sessions[k].code in courseMap)
    && (forall c :: c in courseMap ==>
          courseMap[c].code == c && 0 <= courseMap[c].id < |sessions| && sessions[courseMap[c].id] == courseMap[c])
    && (forall k :: 0 <= k < |sessions| && (forall j :: k < j < |sessions| ==> sessions[j].code != sessions[k].code)
          ==> courseMap[sessions[k].code] == sessions[k])
  }

  /** findOrCreateInstructor applied to the courses' instructor codes in turn: the
      instructor map and the instructors in creation order. */
  function RegisterInstructors(courses: seq<CourseLine>): (r: (map<string, Instructor>, seq<Instructor>))
    decreases |courses|
  {
    if courses == [] then (map[], [])
    else
      var (m, instructors) := RegisterInstructors(courses[..|courses| - 1]);
      var code := courses[|courses| - 1].instructorCode;
      var (m2, instructor) := FindOrCreateInstructor(m, code);
      (m2, if code in m then instructors else instructors + [instructor])
  }

  /** The registered instructors are numbered 0, 1, ... in order of first mention, have
      distinct codes, and are exactly the instructors the courses mention. */
  lemma {:induction false} RegisterInstructorsIsRegistry(courses: seq<CourseLine>)
    ensures InstructorRegistry(RegisterInstructors(courses).0, RegisterInstructors(courses).1)
    decreases |courses|
  {
    if courses != [] {
      var front := courses[..|courses| - 1];
      RegisterInstructorsIsRegistry(front);
      var (m, instructors) := RegisterInstructors(front);
      FindOrCreateKeepsRegistry(m, instructors, courses[|courses| - 1].instructorCode);
    }
  }

  /** Every instructor code a course mentions is registered. */
  lemma {:induction false} RegisterInstructorsHasCourseCodes(courses: seq<CourseLine>)
    ensures forall k :: 0 <= k < |courses| ==> courses[k].instructorCode in RegisterInstructors(courses).0
    decreases |courses|
  {
    if courses != [] {
      var front := courses[..|courses| - 1];
      RegisterInstructorsHasCourseCodes(front);
      var m := RegisterInstructors(front).0;
      assert RegisterInstructors(courses).0.Keys == m.Keys + {courses[|courses| - 1].instructorCode};
      forall k | 0 <= k < |front| ensures courses[k].instructorCode in RegisterInstructors(courses).0 {
        assert courses[k] == front[k];
      }
    }
  }

  /** Only instructor codes some course mentions are registered. */
  lemma {:induction false} RegisterInstructorsOnlyCourseCodes(courses: seq<CourseLine>, c: string)
    requires c in RegisterInstructors(courses).0
    ensures exists k :: 0 <= k < |courses| && courses[k].instructorCode == c
    decreases |courses|
  {
    var front := courses[..|courses| - 1];
    var code := courses[|courses| - 1].instructorCode;
    if c != code {
      assert c in RegisterInstructors(front).0;
      RegisterInstructorsOnlyCourseCodes(front, c);
      var k :| 0 <= k < |front| && front[k].instructorCode == c;
      assert courses[k] == front[k];
    }
  }

  /** What the courses section produces. */
  datatype CourseSection = CourseSection(sessions: seq<Session>, instructors: seq<Instructor>,
                                         courseMap: map<string, Session>)

  /** The instructor list is the registry built from the courses, and each session's
      instructor is the one registered under its course line's instructor code. */
  ghost predicate SessionInstructors(courses: seq<CourseLine>, sessions: seq<Session>, instructors: seq<Instructor>) {
    var (instructorMap, registered) := RegisterInstructors(courses);
    && instructors == registered
    && |sessions| == |courses|
    && forall k :: 0 <= k < |sessions| ==>
         courses[k].instructorCode in instructorMap && sessions[k].instructor == instructorMap[courses[k].instructorCode]
  }

  /** What readSolution has built when it reaches the curricula. */
  datatype FrontPart = FrontPart(section: CourseSection, rooms: seq<Room>, grid: PeriodGrid)

  /** The sessions, instructors and course map as the courses section gives them. */
  ghost predicate CourseSectionRead(lines: seq<Line>, h: Header, section: CourseSection)
    reads section.sessions`meetingSize, section.sessions`studentSize
  {
    && h.courses >= 0
    && SessionsImported(lines, h, section.sessions, section.instructors, section.courseMap)
    && CourseMapKeyed(section.courseMap) && section.courseMap.Keys == CourseCodes(FileCourses(lines, h))
  }

  /** No session belongs to a curriculum yet. */
  ghost predicate OutsideCurricula(section: CourseSection)
    reads section.sessions, section.courseMap.Values
  {
    && (forall k :: 0 <= k < |section.sessions| ==> section.sessions[k].curriculumList == [])
    && (forall c :: c in section.courseMap ==> section.courseMap[c].curriculumList == [])
  }

  /** The courses, rooms and grid as the front of the file gives them. */
  ghost predicate FrontRead(lines: seq<Line>, h: Header, f: FrontPart)
    reads f.section.sessions`meetingSize, f.section.sessions`studentSize, f.grid.days
  {
    && CourseSectionRead(lines, h, f.section)
    && h.rooms >= 0
    && ParseLines(lines, RoomsLine(h) + 2, h.rooms, RoomParser(RoomsLine(h) + 2)) == Ok(f.rooms)
    && GridOf(f.grid, h.days, h.timeslots)
  }

  /** Reader over the input, one line of tokens at a time. */
  class CttReader {
    const lines: seq<Line>
    var pos: nat

    constructor (lines: seq<Line>)
      ensures this.lines == lines && pos == 0
    {
      this.lines := lines;
      pos := 0;
    }

    /** readLine and split; past the last line the source fails on the null line. */
    method ReadTokens() returns (r: Result<Line, ImportError>)
      modifies this`pos
      ensures old(pos) < |lines| ==> r == Ok(lines[old(pos)]) && pos == old(pos) + 1
      ensures old(pos) >= |lines| ==> r == Err(EndOfInput(old(pos)))
    {
      if pos < |lines| {
        r := Ok(lines[pos]);
        pos := pos + 1;
      } else {
        r := Err(EndOfInput(pos));
      }
    }

    /** readConstantLine and readEmptyLine: the next line must be exactly `expected`. */
    method ReadConstantLine(expected: Line) returns (r: Result<(), ImportError>)
      modifies this`pos
      ensures r.Ok? <==> old(pos) < |lines| && lines[old(pos)] == expected
      ensures r.Ok? ==> pos == old(pos) + 1
    {
      var t := ReadTokens();
      if t.Err? {
        return Err(t.error);
      }
      if t.value != expected {
        return Err(UnexpectedLine(pos - 1, expected));
      }
      r := Ok(());
    }

    /** readStringValue: "title value", answering the value. */
    method ReadStringValue(title: string) returns (r: Result<string, ImportError>)
      modifies this`pos
      ensures r.Ok? <==> old(pos) < |lines| && IsStringValueLine(lines[old(pos)], title)
      ensures r.Ok? ==> r.value == lines[old(pos)][1] && pos == old(pos) + 1
    {
      var t := ReadTokens();
      if t.Err? {
        return Err(t.error);
      }
      if |t.value| != 2 || t.value[0] != title {
        return Err(UnexpectedLine(pos - 1, [title]));
      }
      r := Ok(t.value[1]);
    }

    /** readIntegerValue: "title value" with a value Integer.parseInt accepts. */
    method ReadIntegerValue(title: string) returns (r: Result<int, ImportError>)
      modifies this`pos
      ensures r.Ok? <==> old(pos) < |lines| && IsIntegerValueLine(lines[old(pos)], title)
      ensures r.Ok? ==> r.value == ParseInt(lines[old(pos)][1]).value && IsInt32(r.value)
      ensures r.Ok? ==> pos == old(pos) + 1
    {
      var s := ReadStringValue(title);
      if s.Err? {
        return Err(s.error);
      }
      var v := ParseInt(s.value);
      if v.None? {
        return Err(NotAnInteger(pos - 1, s.value));
      }
      r := Ok(v.value);
    }

    /** An empty line, then the title line. */
    method ReadSectionStart(title: string) returns (r: Result<(), ImportError>)
      modifies this`pos
      ensures r.Ok? <==> SectionStart(lines, old(pos), title)
      ensures r.Ok? ==> pos == old(pos) + 2
    {
      r := ReadConstantLine([]);
      if r.Ok? {
        r := ReadConstantLine([title]);
      }
    }

    /** Reads and parses the next line of a section whose earlier lines gave `items`. */
    method ReadItem<T>(ghost from: nat, ghost items: seq<T>, parse: (Line, nat) -> Result<T, ImportError>)
      returns (r: Result<T, ImportError>)
      requires pos == from + |items| && ParseLines(lines, from, |items|, parse) == Ok(items)
      modifies this`pos
      ensures r.Err? ==> ParseLines(lines, from, |items| + 1, parse).Err?
      ensures r.Ok? ==> pos == old(pos) + 1 && ParseLines(lines, from, |items| + 1, parse) == Ok(items + [r.value])
    {
      var t := ReadTokens();
      if t.Err? {
        return Err(t.error);
      }
      r := parse(t.value, pos - 1);
    }

    /** One iteration of readCourseListAndInstructorList: read and parse the next course
        line, then add its session. */
    method ReadCourse(ghost from: nat, ghost n: nat, ghost courses: seq<CourseLine>, section: CourseSection,
                      instructorMap: map<string, Instructor>)
      returns (r: Result<(CourseSection, map<string, Instructor>), ImportError>, ghost courses': seq<CourseLine>,
               ghost session: Session?)
      requires pos == from + |courses| && ParseLines(lines, from, |courses|, ParseCourseLine) == Ok(courses)
      requires |courses| < n
      requires CoursesRead(courses, section.sessions, section.courseMap, section.instructors)
      requires instructorMap == RegisterInstructors(courses).0
      modifies this`pos
      ensures r.Err? ==> ParseLines(lines, from, n, ParseCourseLine).Err?
      ensures r.Ok? ==> && pos == from + |courses'| && |courses'| == |courses| + 1
                        && ParseLines(lines, from, |courses'|, ParseCourseLine) == Ok(courses')
                        && CoursesRead(courses', r.value.0.sessions, r.value.0.courseMap, r.value.0.instructors)
                        && r.value.1 == RegisterInstructors(courses').0
                        && session != null && fresh(session) && r.value.0.sessions == section.sessions + [session]
    {
      courses', session := courses, null;
      var line := ReadItem(from, courses, ParseCourseLine);
      if line.Err? {
        ParseLinesErrPersists(lines, from, |courses| + 1, n, ParseCourseLine);
        return Err(line.error), courses', session;
      }
      var course := line.value;
      courses' := courses + [course];
      var added, courseMap', instructorMap', instructors' :=
        AddCourse(courses, course, section.sessions, section.courseMap, instructorMap, section.instructors);
      session := added;
      r := Ok((CourseSection(section.sessions + [added], instructors', courseMap'), instructorMap'));
    }

    /** readCourseListAndInstructorList: n course lines after the COURSES: title;
        a negative n is refused by the map allocation before anything is read. */
    method ReadCourseList(n: int) returns (r: Result<CourseSection, ImportError>)
      modifies this`pos
      ensures r.Ok? <==> CoursesOk(lines, old(pos), n)
      ensures r.Ok? ==> && pos == old(pos) + 2 + n
                        && CoursesRead(ParseLines(lines, old(pos) + 2, n, ParseCourseLine).value,
                                       r.value.sessions, r.value.courseMap, r.value.instructors)
      ensures r.Ok? ==> forall s :: s in r.value.sessions ==> fresh(s)
    {
      if n < 0 {
        return Err(IllegalCapacity(n));
      }
      var start := ReadSectionStart("COURSES:");
      if start.Err? {
        return Err(start.error);
      }
      r := ReadCourseLines(n);
    }

    /** The loop of readCourseListAndInstructorList over n course lines. */
    method ReadCourseLines(n: nat) returns (r: Result<CourseSection, ImportError>)
      modifies this`pos
      ensures r.Ok? <==> ParseLines(lines, old(pos), n, ParseCourseLine).Ok?
      ensures r.Ok? ==> && pos == old(pos) + n
                        && CoursesRead(ParseLines(lines, old(pos), n, ParseCourseLine).value,
                                       r.value.sessions, r.value.courseMap, r.value.instructors)
      ensures r.Ok? ==> forall k :: 0 <= k < |r.value.sessions| ==> fresh(r.value.sessions[k])
    {
      var at := pos;
      var section := CourseSection([], [], map[]);
      var instructorMap: map<string, Instructor> := map[];
      ghost var courses: seq<CourseLine> := [];
      var i := 0;
      while i < n
        invariant 0 <= i <= n && |courses| == i && pos == at + |courses|
        invariant ParseLines(lines, at, |courses|, ParseCourseLine) == Ok(courses)
        invariant CoursesRead(courses, section.sessions, section.courseMap, section.instructors)
        invariant instructorMap == RegisterInstructors(courses).0
        invariant forall k :: 0 <= k < |section.sessions| ==> fresh(section.sessions[k])
      {
        var next, courses', session := ReadCourse(at, n, courses, section, instructorMap);
        if next.Err? {
          return Err(next.error);
        }
        section, instructorMap := next.value.0, next.value.1;
        courses := courses';
        i := i + 1;
      }
      r := Ok(section);
    }

    /** The seven header lines, in their fixed order. */
    method ReadHeader() returns (r: Result<Header, ImportError>)
      requires pos == 0
      modifies this`pos
      ensures r.Ok? <==> HeaderOk(lines)
      ensures r.Ok? ==> pos == 7 && r.value == HeaderOf(lines)
    {
      var name := ReadStringValue("Name:");
      if name.Err? {
        return Err(name.error);
      }
      var courses := ReadIntegerValue("Courses:");
      if courses.Err? {
        return Err(courses.error);
      }
      var rooms := ReadIntegerValue("Rooms:");
      if rooms.Err? {
        return Err(rooms.error);
      }
      var days := ReadIntegerValue("Days:");
      if days.Err? {
        return Err(days.error);
      }
      var timeslots := ReadIntegerValue("Periods_per_day:");
      if timeslots.Err? {
        return Err(timeslots.error);
      }
      var curricula := ReadIntegerValue("Curricula:");
      if curricula.Err? {
        return Err(curricula.error);
      }
      var penalties := ReadIntegerValue("Constraints:");
      if penalties.Err? {
        return Err(penalties.error);
      }
      r := Ok(Header(name.value, courses.value, rooms.value, days.value, timeslots.value, curricula.value,
                     penalties.value));
    }

    /** readSolution: the header, the sections in their fixed order with the period grid
        built between rooms and curricula, an empty line and "END.", then the meetings. */
    method ReadSolution() returns (r: Result<SessionSchedule, ImportError>, ghost courseMap: map<string, Session>)
      requires pos == 0
      modifies this`pos
      ensures r.Ok? <==> FileOk(lines)
      ensures r.Ok? ==> ImportedFrom(lines, r.value, courseMap)
    {
      courseMap := map[];
      var header := ReadHeader();
      if header.Err? {
        return Err(header.error), courseMap;
      }
      r, courseMap := ReadBody(header.value);
    }

    /** Everything after the header: the front, then the rest of the file. */
    method ReadBody(h: Header) returns (r: Result<SessionSchedule, ImportError>, ghost courseMap: map<string, Session>)
      requires pos == 7
      modifies this`pos
      ensures r.Ok? <==> FrontOk(lines, h) && BackOk(lines, h)
      ensures r.Ok? ==> Imported(lines, h, r.value, courseMap)
    {
      courseMap := map[];
      var front := ReadFront(h);
      if front.Err? {
        return Err(front.error), courseMap;
      }
      var f := front.value;
      courseMap := f.section.courseMap;
      var rest := ReadRest(h, f.section.sessions, f.section.courseMap, f.grid.days, f.grid.periodMap);
      if rest.Err? {
        return Err(rest.error), courseMap;
      }
      var (curricula, penalties, meetings) := rest.value;
      r := Ok(SessionSchedule(h.name, f.section.instructors, f.section.sessions, f.rooms, f.grid.days,
                              f.grid.timeslots, f.grid.periods, curricula, penalties, meetings));
      ImportedParts(lines, h, f, curricula, penalties, meetings);
    }

    /** The part of readSolution before the curricula: the courses with their instructors,
        the rooms, and the period grid. */
    method ReadFront(h: Header) returns (r: Result<FrontPart, ImportError>)
      requires pos == 7
      modifies this`pos
      ensures r.Ok? <==> FrontOk(lines, h)
      ensures r.Ok? ==> FrontRead(lines, h, r.value) && pos == CurriculaLine(h)
      ensures r.Ok? ==> OutsideCurricula(r.value.section)
      ensures r.Ok? ==> forall s :: s in r.value.section.courseMap.Values ==> fresh(s)
    {
      var courseSection := ReadCourses(h);
      if courseSection.Err? {
        return Err(courseSection.error);
      }
      var roomsAndGrid := ReadRoomsAndGrid(h);
      if roomsAndGrid.Err? {
        return Err(roomsAndGrid.error);
      }
      r := Ok(FrontPart(courseSection.value, roomsAndGrid.value.0, roomsAndGrid.value.1));
    }

    /** The rooms section, then the period grid built from the header's sizes. */
    method ReadRoomsAndGrid(h: Header) returns (r: Result<(seq<Room>, PeriodGrid), ImportError>)
      requires pos == RoomsLine(h)
      modifies this`pos
      ensures r.Ok? <==> RoomsOk(lines, RoomsLine(h), h.rooms) && GridSizesOk(h.days, h.timeslots)
      ensures r.Ok? ==> && pos == CurriculaLine(h)
                        && ParseLines(lines, RoomsLine(h) + 2, h.rooms, RoomParser(RoomsLine(h) + 2)) == Ok(r.value.0)
                        && GridOf(r.value.1, h.days, h.timeslots)
                        && forall k :: 0 <= k < h.days ==> fresh(r.value.1.days[k])
    {
      var rooms := ReadRoomList(h.rooms);
      if rooms.Err? {
        return Err(rooms.error);
      }
      var grid := CreatePeriodGrid(h.days, h.timeslots);
      if grid.Err? {
        return Err(grid.error);
      }
      r := Ok((rooms.value, grid.value));
    }

    /** readCourseListAndInstructorList as readSolution calls it, right after the header. */
    method ReadCourses(h: Header) returns (r: Result<CourseSection, ImportError>)
      requires pos == 7
      modifies this`pos
      ensures r.Ok? <==> CoursesOk(lines, 7, h.courses)
      ensures r.Ok? ==> pos == RoomsLine(h) && CourseSectionRead(lines, h, r.value) && OutsideCurricula(r.value)
      ensures r.Ok? ==> forall s :: s in r.value.courseMap.Values ==> fresh(s)
    {
      r := ReadCourseList(h.courses);
      if r.Ok? {
        var section := r.value;
        CourseMapHasCourseCodes(FileCourses(lines, h), section.sessions, section.courseMap, section.instructors);
        forall s | s in section.courseMap.Values ensures fresh(s) {
          var c :| c in section.courseMap && section.courseMap[c] == s;
          assert s in section.sessions;
        }
      }
    }

    /** The part of readSolution after the period grid: curricula, penalties, the closing
        lines and the meetings. */
    method ReadRest(h: Header, sessions: seq<Session>, courseMap: map<string, Session>, days: seq<Day>,
                    periodMap: map<PeriodKey, Period>)
      returns (r: Result<(seq<Curriculum>, seq<UnavailablePeriodPenalty>, seq<Meeting>), ImportError>)
      requires h.courses >= 0 && h.rooms >= 0 && GridSizesOk(h.days, h.timeslots) && |days| == h.days
      requires pos == CurriculaLine(h) && periodMap == GridMap(days, h.timeslots)
      requires CourseMapKeyed(courseMap) && courseMap.Keys == CourseCodes(FileCourses(lines, h))
      requires forall k :: 0 <= k < |sessions| ==> sessions[k].curriculumList == []
      requires forall c :: c in courseMap ==> courseMap[c].curriculumList == []
      modifies this`pos, courseMap.Values`curriculumList
      ensures r.Ok? <==> BackOk(lines, h)
      ensures r.Ok? ==> && CurriculaImported(lines, h, r.value.0, sessions, courseMap)
                        && PenaltiesImported(lines, h, r.value.1, days, courseMap)
                        && MeetingsImported(r.value.2, sessions)
    {
      var curricula := ReadCurriculaSection(h, sessions, courseMap);
      if curricula.Err? {
        return Err(curricula.error);
      }
      var penalties := ReadPenaltySection(h, courseMap, days, periodMap);
      if penalties.Err? {
        return Err(penalties.error);
      }
      var end := ReadEnd();
      if end.Err? {
        return Err(end.error);
      }
      var meetings := CreateMeetingList(sessions);
      r := Ok((curricula.value, penalties.value, meetings));
    }

    /** The curricula section against the declared course codes. */
    method ReadCurriculaSection(h: Header, sessions: seq<Session>, courseMap: map<string, Session>)
      returns (r: Result<seq<Curriculum>, ImportError>)
      requires h.courses >= 0 && h.rooms >= 0 && pos == CurriculaLine(h)
      requires CourseMapKeyed(courseMap) && courseMap.Keys == CourseCodes(FileCourses(lines, h))
      requires forall k :: 0 <= k < |sessions| ==> sessions[k].curriculumList == []
      requires forall c :: c in courseMap ==> courseMap[c].curriculumList == []
      modifies this`pos, courseMap.Values`curriculumList
      ensures r.Ok? <==> CurriculaOk(lines, CurriculaLine(h), h.curricula, CourseCodes(FileCourses(lines, h)))
      ensures r.Ok? ==> pos == PenaltiesLine(h) && CurriculaImported(lines, h, r.value, sessions, courseMap)
    {
      r := ReadCurriculumList(h.curricula, courseMap);
      if r.Ok? {
        FileCurriculaRead(lines, h);
      }
    }

    /** The penalties section against the course map and the period grid. */
    method ReadPenaltySection(h: Header, courseMap: map<string, Session>, days: seq<Day>,
                              periodMap: map<PeriodKey, Period>)
      returns (r: Result<seq<UnavailablePeriodPenalty>, ImportError>)
      requires h.courses >= 0 && h.rooms >= 0 && h.curricula >= 0 && pos == PenaltiesLine(h)
      requires GridSizesOk(h.days, h.timeslots) && |days| == h.days && periodMap == GridMap(days, h.timeslots)
      modifies this`pos
      ensures r.Ok? <==> PenaltySectionOk(lines, PenaltiesLine(h), h.penalties, h.days, h.timeslots)
      ensures r.Ok? ==> pos == EndLine(h) && SizesNonNegative(h) && PenaltiesImported(lines, h, r.value, days, courseMap)
    {
      ghost var at := pos;
      r := ReadPenaltyList(h.penalties, courseMap, periodMap);
      PenaltiesOkInGrid(lines, at, h.penalties, courseMap, days, h.timeslots);
    }

    /** The closing lines: an empty line and "END.". */
    method ReadEnd() returns (r: Result<(), ImportError>)
      modifies this`pos
      ensures r.Ok? <==> EndOk(lines, old(pos))
    {
      r := ReadConstantLine([]);
      if r.Ok? {
        r := ReadConstantLine(["END."]);
      }
    }

    /** The loop of the room and penalty readers: n lines, each parsed with `parse`. */
    method ReadLines<T>(n: nat, parse: (Line, nat) -> Result<T, ImportError>) returns (r: Result<seq<T>, ImportError>)
      modifies this`pos
      ensures r == ParseLines(lines, old(pos), n, parse)
      ensures r.Ok? ==> pos == old(pos) + n
    {
      var from := pos;
      var items: seq<T> := [];
      var i := 0;
      while i < n
        invariant 0 <= i <= n && pos == from + i
        invariant ParseLines(lines, from, i, parse) == Ok(items)
      {
        var item := ReadItem(from, items, parse);
        if item.Err? {
          ParseLinesErrPersists(lines, from, i + 1, n, parse);
          return ParseLines(lines, from, n, parse);
        }
        items := items + [item.value];
        i := i + 1;
      }
      r := Ok(items);
    }
    /** readRoomList: n room lines after the ROOMS: title; a negative n is refused by the
        list allocation once the title has been read. */
    method ReadRoomList(n: int) returns (r: Result<seq<Room>, ImportError>)
      modifies this`pos
      ensures r.Ok? <==> RoomsOk(lines, old(pos), n)
      ensures r.Ok? ==> && pos == old(pos) + 2 + n
                        && r.value == ParseLines(lines, old(pos) + 2, n, RoomParser(old(pos) + 2)).value
    {
      var start := ReadSectionStart("ROOMS:");
      if start.Err? {
        return Err(start.error);
      }
      if n < 0 {
        return Err(IllegalCapacity(n));
      }
      r := ReadLines(n, RoomParser(pos));
    }

    /** readUnavailablePeriodPenaltyList: n penalty lines after the
        UNAVAILABILITY_CONSTRAINTS: title. */
    method ReadPenaltyList(n: int, courseMap: map<string, Session>, periodMap: map<PeriodKey, Period>)
      returns (r: Result<seq<UnavailablePeriodPenalty>, ImportError>)
      modifies this`pos
      ensures r.Ok? <==> PenaltiesOk(lines, old(pos), n, courseMap, periodMap)
      ensures r.Ok? ==> && pos == old(pos) + 2 + n
                        && ParseLines(lines, old(pos) + 2, n, PenaltyParser(courseMap, periodMap, old(pos) + 2)) == Ok(r.value)
    {
      var start := ReadSectionStart("UNAVAILABILITY_CONSTRAINTS:");
      if start.Err? {
        return Err(start.error);
      }
      if n < 0 {
        return Err(IllegalCapacity(n));
      }
      r := ReadLines(n, PenaltyParser(courseMap, periodMap, pos));
    }
    /** One iteration of readCurriculumList: curriculum number i from the next line. */
    method ReadCurriculum(i: nat, ghost from: nat, ghost parsed: seq<CurriculumLine>, courseMap: map<string, Session>,
                          ghost base: map<string, seq<Curriculum>>)
      returns (r: Result<Curriculum, ImportError>, ghost c: CurriculumLine)
      requires i == |parsed| && pos == from + i
      requires ParseLines(lines, from, i, CurriculumParser(courseMap.Keys)) == Ok(parsed)
      requires CourseMapKeyed(courseMap) && CurriculaAppended(courseMap, base, parsed)
      modifies this`pos, courseMap.Values`curriculumList
      ensures r.Err? ==> ParseLines(lines, from, i + 1, CurriculumParser(courseMap.Keys)).Err?
      ensures r.Ok? ==> && pos == old(pos) + 1
                        && ParseLines(lines, from, i + 1, CurriculumParser(courseMap.Keys)) == Ok(parsed + [c])
                        && r.value == Curriculum(i, c.code)
                        && CurriculaAppended(courseMap, base, parsed + [c])
    {
      c := CurriculumLine("", []);
      ParseLinesNext(lines, from, parsed, CurriculumParser(courseMap.Keys));
      var t := ReadTokens();
      if t.Err? {
        return Err(t.error), c;
      }
      var at := pos - 1;
      var header := CurriculumHeader(t.value, at);
      if header.Err? {
        return Err(header.error), c;
      }
      var curriculum := Curriculum(i, t.value[0]);
      var added := AddToMembers(courseMap, t.value[2..], at, curriculum, base, parsed);
      if added.Err? {
        return Err(added.error), c;
      }
      c := CurriculumLine(t.value[0], t.value[2..]);
      r := Ok(curriculum);
    }

    /** readCurriculumList: n curriculum lines after the CURRICULA: title; every member
        session gets the curriculum appended once per mention. */
    method ReadCurriculumList(n: int, courseMap: map<string, Session>) returns (r: Result<seq<Curriculum>, ImportError>)
      requires CourseMapKeyed(courseMap)
      modifies this`pos, courseMap.Values`curriculumList
      ensures r.Ok? <==> CurriculaOk(lines, old(pos), n, courseMap.Keys)
      ensures r.Ok? ==> && pos == old(pos) + 2 + n
                        && var parsed := ParseLines(lines, old(pos) + 2, n, CurriculumParser(courseMap.Keys)).value;
                           && r.value == Curricula(parsed)
                           && forall c :: c in courseMap ==>
                                courseMap[c].curriculumList == old(courseMap[c].curriculumList) + Mentions(parsed, c)
    {
      ghost var base := map c | c in courseMap :: courseMap[c].curriculumList;
      var at := pos;
      var start := ReadSectionStart("CURRICULA:");
      if start.Err? {
        return Err(start.error);
      }
      if n < 0 {
        return Err(IllegalCapacity(n));
      }
      var curricula: seq<Curriculum> := [];
      ghost var parsed: seq<CurriculumLine> := [];
      var i := 0;
      while i < n
        invariant 0 <= i <= n && pos == at + 2 + i && |parsed| == i
        invariant ParseLines(lines, at + 2, i, CurriculumParser(courseMap.Keys)) == Ok(parsed)
        invariant curricula == Curricula(parsed)
        invariant CurriculaAppended(courseMap, base, parsed)
      {
        var next, c := ReadCurriculum(i, at + 2, parsed, courseMap, base);
        if next.Err? {
          ParseLinesErrPersists(lines, at + 2, i + 1, n, CurriculumParser(courseMap.Keys));
          return Err(next.error);
        }
        assert (parsed + [c])[..i] == parsed;
        curricula := curricula + [next.value];
        parsed := parsed + [c];
        i := i + 1;
      }
      r := Ok(curricula);
    }
  }

  // ---------------------------------------------------------------------------
  // The period grid

  /** What createPeriodListAndDayListAndTimeslotList produces. */
  datatype PeriodGrid = PeriodGrid(days: seq<Day>, timeslots: seq<Timeslot>, periods: seq<Period>,
                                   periodMap: map<PeriodKey, Period>)

  /** Timeslot j has id j and index j. */
  function Timeslots(t: nat): seq<Timeslot> {
    if t == 0 then [] else Timeslots(t - 1) + [Timeslot(t - 1, t - 1)]
  }

  lemma {:induction false} TimeslotsAt(t: nat)
    ensures |Timeslots(t)| == t
    ensures forall j :: 0 <= j < t ==> Timeslots(t)[j] == Timeslot(j, j)
  {
    if t > 0 {
      TimeslotsAt(t - 1);
    }
  }

  /** Period (i, j) has id i * t + j, computed in int arithmetic. */
  function PeriodId(i: int, j: int, t: int): int {
    Wrap32(i * t + j)
  }

  function GridPeriod(i: int, day: Day, j: int, t: int): Period {
    Period(PeriodId(i, j, t), day, Timeslot(j, j))
  }

  /** The first n periods of day i. */
  function DayRow(i: int, day: Day, t: int, n: nat): seq<Period> {
    if n == 0 then [] else DayRow(i, day, t, n - 1) + [GridPeriod(i, day, n - 1, t)]
  }

  /** The periods of the given days, day by day, each day's timeslots in order. */
  function GridPeriods(days: seq<Day>, t: nat): seq<Period> {
    if days == [] then []
    else GridPeriods(days[..|days| - 1], t) + DayRow(|days| - 1, days[|days| - 1], t, t)
  }

  /** The map entries of the first n periods of day i. */
  function RowMap(i: int, day: Day, t: int, n: nat): map<PeriodKey, Period> {
    if n == 0 then map[] else RowMap(i, day, t, n - 1)[PeriodKey(i, n - 1) := GridPeriod(i, day, n - 1, t)]
  }

  function GridMap(days: seq<Day>, t: nat): map<PeriodKey, Period> {
    if days == [] then map[]
    else GridMap(days[..|days| - 1], t) + RowMap(|days| - 1, days[|days| - 1], t, t)
  }

  lemma {:induction false} DayRowAt(i: int, day: Day, t: int, n: nat)
    ensures |DayRow(i, day, t, n)| == n
    ensures forall j :: 0 <= j < n ==> DayRow(i, day, t, n)[j] == GridPeriod(i, day, j, t)
  {
    if n > 0 {
      DayRowAt(i, day, t, n - 1);
    }
  }

  lemma {:induction false} RowMapAt(i: int, day: Day, t: int, n: nat)
    ensures forall key :: key in RowMap(i, day, t, n) <==> key.dayIndex == i && 0 <= key.timeslotIndex < n
    ensures forall j :: 0 <= j < n ==> RowMap(i, day, t, n)[PeriodKey(i, j)] == GridPeriod(i, day, j, t)
  {
    if n > 0 {
      RowMapAt(i, day, t, n - 1);
    }
  }

  lemma RowIndexBounds(i: int, j: int, d: int, t: int)
    requires 0 <= i < d && 0 <= j < t
    ensures 0 <= i * t + j < d * t
  {
    var k := d - i - 1;
    assert 0 <= i * t && 0 <= k * t;
    assert d * t == i * t + t + k * t by {
      assert d == i + 1 + k;
    }
  }

  /** Period number i * t + j of the list is the period of day i and timeslot j. */
  lemma {:induction false} GridPeriodsAt(days: seq<Day>, t: nat, i: int, j: int)
    requires 0 <= i < |days| && 0 <= j < t
    ensures |GridPeriods(days, t)| == |days| * t
    ensures 0 <= i * t + j < |days| * t
    ensures GridPeriods(days, t)[i * t + j] == GridPeriod(i, days[i], j, t)
    decreases |days|
  {
    var front := days[..|days| - 1];
    var row := DayRow(|days| - 1, days[|days| - 1], t, t);
    DayRowAt(|days| - 1, days[|days| - 1], t, t);
    RowIndexBounds(i, j, |days|, t);
    if i < |days| - 1 {
      GridPeriodsAt(front, t, i, j);
      assert front[i] == days[i];
    } else {
      GridPeriodsLength(front, t);
      assert |front| * t == i * t;
    }
    assert |days| * t == |front| * t + t;
  }

  lemma {:induction false} GridPeriodsLength(days: seq<Day>, t: nat)
    ensures |GridPeriods(days, t)| == |days| * t
    decreases |days|
  {
    if days != [] {
      GridPeriodsLength(days[..|days| - 1], t);
      DayRowAt(|days| - 1, days[|days| - 1], t, t);
      assert |days| * t == (|days| - 1) * t + t;
    }
  }

  /** The map holds exactly the keys (i, j) of the grid, each leading to period (i, j). */
  lemma {:induction false} GridMapAt(days: seq<Day>, t: nat)
    ensures forall key :: key in GridMap(days, t) <==>
              0 <= key.dayIndex < |days| && 0 <= key.timeslotIndex < t
    ensures forall i, j :: 0 <= i < |days| && 0 <= j < t ==>
              GridMap(days, t)[PeriodKey(i, j)] == GridPeriod(i, days[i], j, t)
    decreases |days|
  {
    if days != [] {
      var front := days[..|days| - 1];
      GridMapAt(front, t);
      RowMapAt(|days| - 1, days[|days| - 1], t, t);
      forall i, j | 0 <= i < |days| && 0 <= j < t
        ensures GridMap(days, t)[PeriodKey(i, j)] == GridPeriod(i, days[i], j, t)
      {
        if i < |days| - 1 {
          assert front[i] == days[i];
        }
      }
    }
  }

  /** While the grid fits in an int, period (i, j) has id i * t + j exactly, so the ids
      run 0, 1, ... in the order of the period list. */
  lemma PeriodIdRowMajor(i: int, j: int, d: int, t: int)
    requires 0 <= i < d && 0 <= j < t && d * t <= INT_MAX
    ensures PeriodId(i, j, t) == i * t + j
    ensures 0 <= PeriodId(i, j, t) < d * t
  {
    RowIndexBounds(i, j, d, t);
  }

  /** The grid a successful createPeriodListAndDayListAndTimeslotList builds for d days of t
      timeslots. */
  ghost predicate GridOf(g: PeriodGrid, d: int, t: int)
    reads g.days
  {
    && 0 <= d && 0 <= t && |g.days| == d
    && (forall k :: 0 <= k < d ==> && g.days[k].id == k && g.days[k].dayIndex == k
                                    && g.days[k].periodList == DayRow(k, g.days[k], t, t))
    && g.timeslots == Timeslots(t)
    && g.periods == GridPeriods(g.days, t)
    && g.periodMap == GridMap(g.days, t)
  }

  /** The grid capacity d * t is an int; a negative capacity, day count or timeslot count
      is refused by the collection allocations, and a period list cannot hold more than
      Integer.MAX_VALUE periods. */
  predicate GridSizesOk(d: int, t: int) {
    Wrap32(d * t) >= 0 && d >= 0 && t >= 0 && d * t <= INT_MAX
  }

  /** Position k of a d x t grid is row k / t, column k % t. */
  lemma GridPosition(k: int, d: int, t: int)
    requires 0 <= k < d * t && 0 <= d && 0 <= t
    ensures t > 0 && 0 <= k / t < d && 0 <= k % t < t && k == (k / t) * t + k % t
  {
  }

  /** In an accepted grid the period ids run 0, 1, ... in the order of the period list:
      no id wraps around. */
  lemma AcceptedGridIdsArePositions(g: PeriodGrid, d: int, t: int)
    requires GridOf(g, d, t) && GridSizesOk(d, t)
    ensures |g.periods| == d * t
    ensures forall k :: 0 <= k < |g.periods| ==> g.periods[k].id == k
  {
    var days, periods := g.days, g.periods;
    assert |days| == d && periods == GridPeriods(days, t);
    GridPeriodsLength(days, t);
    forall k | 0 <= k < |periods|
      ensures periods[k].id == k
    {
      GridPosition(k, d, t);
      var i, j := k / t, k % t;
      GridPeriodsAt(days, t, i, j);
      PeriodIdRowMajor(i, j, d, t);
    }
  }

  /** createPeriodListAndDayListAndTimeslotList. */
  method CreatePeriodGrid(d: int, t: int) returns (r: Result<PeriodGrid, ImportError>)
    ensures r.Ok? <==> GridSizesOk(d, t)
    ensures r.Ok? ==> GridOf(r.value, d, t) && forall k :: 0 <= k < d ==> fresh(r.value.days[k])
  {
    var size := Wrap32(d * t);
    if size < 0 {
      return Err(IllegalCapacity(size));
    }
    if d < 0 {
      return Err(IllegalCapacity(d));
    }
    var days := CreateDays(d);
    if t < 0 {
      return Err(IllegalCapacity(t));
    }
    var timeslots := CreateTimeslots(t);
    if d * t > INT_MAX {
      // the period list outgrows an int-indexed list while it is being filled
      return Err(ListTooLarge(d * t));
    }
    var periods, periodMap := FillGrid(days, t);
    r := Ok(PeriodGrid(days, timeslots, periods, periodMap));
  }

  /** The period loop over the days: each day's t periods, in order. */
  method FillGrid(days: seq<Day>, t: nat) returns (periods: seq<Period>, periodMap: map<PeriodKey, Period>)
    requires forall k :: 0 <= k < |days| ==> days[k].id == k && days[k].periodList == []
    modifies days
    ensures periods == GridPeriods(days, t)
    ensures periodMap == GridMap(days, t)
    ensures forall k :: 0 <= k < |days| ==> days[k].periodList == DayRow(k, days[k], t, t)
  {
    periods := [];
    periodMap := map[];
    for i := 0 to |days|
      invariant periods == GridPeriods(days[..i], t)
      invariant periodMap == GridMap(days[..i], t)
      invariant forall k :: 0 <= k < |days| ==> days[k].periodList == (if k < i then DayRow(k, days[k], t, t) else [])
    {
      assert days[..i + 1][..i] == days[..i];
      assert forall k :: 0 <= k < |days| && k != i ==> days[k] != days[i];
      periods, periodMap := FillDay(i, days[i], t, periods, periodMap);
    }
    assert days[..|days|] == days;
  }

  /** The day loop: day i has id i and index i and no periods yet. */
  method CreateDays(d: nat) returns (days: seq<Day>)
    ensures |days| == d
    ensures forall k :: 0 <= k < d ==> && days[k].id == k && days[k].dayIndex == k
                                       && days[k].periodList == [] && fresh(days[k])
  {
    days := [];
    for i := 0 to d
      invariant |days| == i
      invariant forall k :: 0 <= k < i ==> && days[k].id == k && days[k].dayIndex == k
                                           && days[k].periodList == [] && fresh(days[k])
    {
      var day := new Day(i, i);
      days := days + [day];
    }
  }

  /** The timeslot loop. */
  method CreateTimeslots(t: nat) returns (timeslots: seq<Timeslot>)
    ensures timeslots == Timeslots(t)
  {
    timeslots := [];
    for j := 0 to t
      invariant timeslots == Timeslots(j)
    {
      timeslots := timeslots + [Timeslot(j, j)];
    }
  }

  /** The inner loop for day i: its t periods are appended to the period list, to the
      map and to the day's own period list. */
  method FillDay(i: int, day: Day, t: nat, periods: seq<Period>, periodMap: map<PeriodKey, Period>)
    returns (periods': seq<Period>, periodMap': map<PeriodKey, Period>)
    requires day.periodList == []
    modifies day
    ensures periods' == periods + DayRow(i, day, t, t)
    ensures periodMap' == periodMap + RowMap(i, day, t, t)
    ensures day.periodList == DayRow(i, day, t, t)
  {
    periods' := periods;
    periodMap' := periodMap;
    for j := 0 to t
      invariant periods' == periods + DayRow(i, day, t, j)
      invariant periodMap' == periodMap + RowMap(i, day, t, j)
      invariant day.periodList == DayRow(i, day, t, j)
    {
      var period := Period(PeriodId(i, j, t), day, Timeslot(j, j));
      periods' := periods' + [period];
      periodMap' := periodMap'[PeriodKey(i, j) := period];
      day.periodList := day.periodList + [period];
    }
  }

  // ---------------------------------------------------------------------------
  // Curricula

  function CurriculumParser(known: set<string>): (Line, nat) -> Result<CurriculumLine, ImportError> {
    (t: Line, l: nat) => ParseCurriculumLine(t, l, known)
  }

  ghost predicate CurriculaOk(lines: seq<Line>, at: nat, n: int, known: set<string>) {
    SectionStart(lines, at, "CURRICULA:") && n >= 0 && ParseLines(lines, at + 2, n, CurriculumParser(known)).Ok?
  }

  /** Curriculum k of the section is numbered k and named by its line. */
  function Curricula(parsed: seq<CurriculumLine>): seq<Curriculum> {
    if parsed == [] then []
    else Curricula(parsed[..|parsed| - 1]) + [Curriculum(|parsed| - 1, parsed[|parsed| - 1].code)]
  }

  lemma {:induction false} CurriculaAt(parsed: seq<CurriculumLine>)
    ensures |Curricula(parsed)| == |parsed|
    ensures forall k :: 0 <= k < |parsed| ==> Curricula(parsed)[k] == Curriculum(k, parsed[k].code)
  {
    if parsed != [] {
      CurriculaAt(parsed[..|parsed| - 1]);
    }
  }

  /** What one curriculum line appends to the session with the given code: the
      curriculum once for every time the line mentions the code. */
  function MemberMentions(members: seq<string>, code: string, c: Curriculum): seq<Curriculum> {
    if members == [] then []
    else MemberMentions(members[..|members| - 1], code, c) + (if members[|members| - 1] == code then [c] else [])
  }

  lemma MemberMentionsStep(members: seq<string>, member: string, c: Curriculum)
    ensures forall code :: MemberMentions(members + [member], code, c)
                             == MemberMentions(members, code, c) + (if member == code then [c] else [])
  {
    assert (members + [member])[..|members|] == members;
  }

  /** What the curricula section appends to the session with the given code, line by line. */
  function Mentions(parsed: seq<CurriculumLine>, code: string): seq<Curriculum> {
    if parsed == [] then []
    else
      var k := |parsed| - 1;
      Mentions(parsed[..k], code) + MemberMentions(parsed[k].members, code, Curriculum(k, parsed[k].code))
  }

  /** A line appends its curriculum exactly as many times as it names the code, and nothing else. */
  lemma {:induction false} MemberMentionsCount(members: seq<string>, code: string, c: Curriculum)
    ensures |MemberMentions(members, code, c)| == |set j | 0 <= j < |members| && members[j] == code|
    ensures forall x :: x in MemberMentions(members, code, c) ==> x == c
  {
    if members != [] {
      var n := |members| - 1;
      var front := members[..n];
      MemberMentionsCount(front, code, c);
      var before := set j | 0 <= j < n && front[j] == code;
      var after := set j | 0 <= j < |members| && members[j] == code;
      if members[n] == code {
        assert after == before + {n};
      } else {
        assert after == before;
      }
    }
  }

  /** Each curriculum appended to a session is a curriculum of the section whose line names
      the session's code; a code no line names gets nothing. */
  lemma {:induction false} MentionsAreMemberships(parsed: seq<CurriculumLine>, code: string)
    ensures forall x :: x in Mentions(parsed, code) ==>
              exists k :: 0 <= k < |parsed| && x == Curriculum(k, parsed[k].code) && code in parsed[k].members
    ensures (forall k :: 0 <= k < |parsed| ==> code !in parsed[k].members) ==> Mentions(parsed, code) == []
  {
    if parsed != [] {
      var k := |parsed| - 1;
      var front := parsed[..k];
      MentionsAreMemberships(front, code);
      MemberMentionsCount(parsed[k].members, code, Curriculum(k, parsed[k].code));
      forall x | x in Mentions(parsed, code)
        ensures exists k' :: 0 <= k' < |parsed| && x == Curriculum(k', parsed[k'].code) && code in parsed[k'].members
      {
        if x in Mentions(front, code) {
          var k' :| 0 <= k' < |front| && x == Curriculum(k', front[k'].code) && code in front[k'].members;
          assert parsed[k'] == front[k'];
        } else {
          assert x in MemberMentions(parsed[k].members, code, Curriculum(k, parsed[k].code));
          MemberMentionsNamesCode(parsed[k].members, code, Curriculum(k, parsed[k].code));
        }
      }
      if forall k' :: 0 <= k' < |parsed| ==> code !in parsed[k'].members {
        forall k' | 0 <= k' < |front| ensures code !in front[k'].members {
          assert front[k'] == parsed[k'];
        }
        MemberMentionsNamesCode(parsed[k].members, code, Curriculum(k, parsed[k].code));
      }
    }
  }

  lemma {:induction false} MemberMentionsNamesCode(members: seq<string>, code: string, c: Curriculum)
    ensures MemberMentions(members, code, c) != [] <==> code in members
  {
    if members != [] {
      var n := |members| - 1;
      MemberMentionsNamesCode(members[..n], code, c);
      assert members == members[..n] + [members[n]];
    }
  }

  /** Each session of the course map holds its list from before the section followed by
      what the parsed lines append to its code. */
  ghost predicate CurriculaAppended(courseMap: map<string, Session>, base: map<string, seq<Curriculum>>,
                                    parsed: seq<CurriculumLine>)
    reads courseMap.Values
  {
    forall c :: c in courseMap ==> c in base && courseMap[c].curriculumList == base[c] + Mentions(parsed, c)
  }

  lemma MentionsStep(parsed: seq<CurriculumLine>, c: CurriculumLine)
    ensures forall code :: Mentions(parsed + [c], code)
                             == Mentions(parsed, code) + MemberMentions(c.members, code, Curriculum(|parsed|, c.code))
  {
    assert (parsed + [c])[..|parsed|] == parsed;
  }

  /** Every session of the course map is filed under its own code. */
  ghost predicate CourseMapKeyed(courseMap: map<string, Session>) {
    && (forall c :: c in courseMap ==> courseMap[c].code == c)
    && (forall s :: s in courseMap.Values ==> s.code in courseMap && courseMap[s.code] == s)
  }

  lemma CourseMapOfIsKeyed(courseMap: map<string, Session>, sessions: seq<Session>)
    requires CourseMapOf(courseMap, sessions)
    ensures CourseMapKeyed(courseMap)
  {
    forall s | s in courseMap.Values ensures s.code in courseMap && courseMap[s.code] == s {
      var c :| c in courseMap && courseMap[c] == s;
    }
  }

  /** The codes t[from..j] are all known. */
  ghost predicate KnownBetween(t: seq<string>, from: nat, j: nat, known: set<string>) {
    forall j' :: from <= j' < j && j' < |t| ==> t[j'] in known
  }

  /** FirstUnknown finds the first unknown member. */
  lemma {:induction false} FirstUnknownIs(t: seq<string>, from: nat, j: nat, known: set<string>)
    requires from <= j <= |t| && (j < |t| ==> t[j] !in known)
    requires KnownBetween(t, from, j, known)
    ensures FirstUnknown(t, from, known) == j
    decreases j - from
  {
    if from < j {
      FirstUnknownIs(t, from + 1, j, known);
    }
  }

  /** Like CurriculaAppended, with part of the next line's members applied as well. */
  ghost predicate MembersAppended(courseMap: map<string, Session>, base: map<string, seq<Curriculum>>,
                                  parsed: seq<CurriculumLine>, members: seq<string>, curriculum: Curriculum)
    reads courseMap.Values
  {
    forall c :: c in courseMap ==>
      c in base && courseMap[c].curriculumList == base[c] + Mentions(parsed, c) + MemberMentions(members, c, curriculum)
  }

  lemma MembersAppendedLine(courseMap: map<string, Session>, base: map<string, seq<Curriculum>>,
                            parsed: seq<CurriculumLine>, c: CurriculumLine)
    requires MembersAppended(courseMap, base, parsed, c.members, Curriculum(|parsed|, c.code))
    ensures CurriculaAppended(courseMap, base, parsed + [c])
  {
    MentionsStep(parsed, c);
  }

  lemma MembersAppendedNone(courseMap: map<string, Session>, base: map<string, seq<Curriculum>>,
                            parsed: seq<CurriculumLine>, curriculum: Curriculum)
    requires CurriculaAppended(courseMap, base, parsed)
    ensures MembersAppended(courseMap, base, parsed, [], curriculum)
  {
  }

  /** session.getCurriculumList().add(curriculum) for the session of one member code. */
  method AddMember(courseMap: map<string, Session>, ghost base: map<string, seq<Curriculum>>,
                   ghost parsed: seq<CurriculumLine>, members: seq<string>, j: nat, curriculum: Curriculum)
    requires j < |members| && members[j] in courseMap && CourseMapKeyed(courseMap)
    requires MembersAppended(courseMap, base, parsed, members[..j], curriculum)
    modifies (courseMap[members[j]] as Session)`curriculumList
    ensures MembersAppended(courseMap, base, parsed, members[..j + 1], curriculum)
  {
    var member := members[j];
    var session := courseMap[member];
    MemberMentionsStep(members[..j], member, curriculum);
    assert members[..j + 1] == members[..j] + [member];
    label before:
    session.curriculumList := session.curriculumList + [curriculum];
    forall c | c in courseMap
      ensures c in base
              && courseMap[c].curriculumList == base[c] + Mentions(parsed, c) + MemberMentions(members[..j + 1], c, curriculum)
    {
      if c != member {
        assert courseMap[c] != session;
        assert courseMap[c].curriculumList == old@before(courseMap[c].curriculumList);
      }
    }
  }

  /** The member loop of readCurriculumList for one line: each member's session gets the
      curriculum appended, in token order; an unknown member stops the import. */
  method AddToMembers(courseMap: map<string, Session>, members: seq<string>, at: nat, curriculum: Curriculum,
                      ghost base: map<string, seq<Curriculum>>, ghost parsed: seq<CurriculumLine>)
    returns (r: Result<(), ImportError>)
    requires CourseMapKeyed(courseMap)
    requires CurriculaAppended(courseMap, base, parsed) && curriculum.id == |parsed|
    modifies courseMap.Values`curriculumList
    ensures r.Ok? <==> FirstUnknown(members, 0, courseMap.Keys) == |members|
    ensures r.Err? ==> && FirstUnknown(members, 0, courseMap.Keys) < |members|
                       && r.error == UnknownSession(at, members[FirstUnknown(members, 0, courseMap.Keys)])
    ensures r.Ok? ==> CurriculaAppended(courseMap, base, parsed + [CurriculumLine(curriculum.code, members)])
  {
    MembersAppendedNone(courseMap, base, parsed, curriculum);
    assert members[..0] == [];
    for j := 0 to |members|
      invariant KnownBetween(members, 0, j, courseMap.Keys)
      invariant MembersAppended(courseMap, base, parsed, members[..j], curriculum)
    {
      if members[j] !in courseMap {
        FirstUnknownIs(members, 0, j, courseMap.Keys);
        return Err(UnknownSession(at, members[j]));
      }
      assert courseMap[members[j]] in courseMap.Values;
      AddMember(courseMap, base, parsed, members, j, curriculum);
    }
    FirstUnknownIs(members, 0, |members|, courseMap.Keys);
    assert members[..|members|] == members;
    MembersAppendedLine(courseMap, base, parsed, CurriculumLine(curriculum.code, members));
    r := Ok(());
  }

  /** The state of readCourseListAndInstructorList after the given course lines. */
  ghost predicate CoursesRead(courses: seq<CourseLine>, sessions: seq<Session>, courseMap: map<string, Session>,
                              instructors: seq<Instructor>)
    reads sessions
  {
    && SessionsFromCourses(courses, sessions)
    && (forall k :: 0 <= k < |sessions| ==> sessions[k].curriculumList == [])
    && courseMap == CourseMapFor(sessions)
    && SessionInstructors(courses, sessions, instructors)
  }

  /** One iteration of readCourseListAndInstructorList: a new session for the course
      line, its instructor found or created, and the session put in the course map. */
  method AddCourse(ghost courses: seq<CourseLine>, c: CourseLine, sessions: seq<Session>,
                   courseMap: map<string, Session>, instructorMap: map<string, Instructor>,
                   instructors: seq<Instructor>)
    returns (session: Session, courseMap': map<string, Session>, instructorMap': map<string, Instructor>,
             instructors': seq<Instructor>)
    requires CoursesRead(courses, sessions, courseMap, instructors)
    requires instructorMap == RegisterInstructors(courses).0
    ensures fresh(session)
    ensures CoursesRead(courses + [c], sessions + [session], courseMap', instructors')
    ensures instructorMap' == RegisterInstructors(courses + [c]).0
  {
    var found := FindOrCreateInstructor(instructorMap, c.instructorCode);
    FoundInstructorHasCode(courses, c.instructorCode);
    session := new Session(|sessions|, c.code, found.1, c.meetingSize, c.minWorkingDaySize, c.studentSize);
    instructorMap' := found.0;
    instructors' := if c.instructorCode in instructorMap then instructors else instructors + [found.1];
    courseMap' := courseMap[c.code := session];
    RegisterInstructorsStep(courses, c);
    AddSessionKeepsCoursesRead(courses, c, sessions, courseMap, instructors, session);
  }

  /** RegisterInstructors one course further: findOrCreateInstructor on its code. */
  lemma RegisterInstructorsStep(courses: seq<CourseLine>, c: CourseLine)
    ensures var (m, instructors) := RegisterInstructors(courses);
            var found := FindOrCreateInstructor(m, c.instructorCode);
            RegisterInstructors(courses + [c])
              == (found.0, if c.instructorCode in m then instructors else instructors + [found.1])
  {
    assert (courses + [c])[..|courses|] == courses;
  }

  lemma FoundInstructorHasCode(courses: seq<CourseLine>, code: string)
    ensures FindOrCreateInstructor(RegisterInstructors(courses).0, code).1.code == code
  {
    RegisterInstructorsIsRegistry(courses);
  }

  /** Appending a session built from course line c keeps the state of the courses reader. */
  lemma AddSessionKeepsCoursesRead(courses: seq<CourseLine>, c: CourseLine, sessions: seq<Session>,
                                   courseMap: map<string, Session>, instructors: seq<Instructor>, s: Session)
    requires CoursesRead(courses, sessions, courseMap, instructors)
    requires SessionFromLine(s, |sessions|, c) && s.curriculumList == []
    requires forall k :: 0 <= k < |sessions| ==> sessions[k] != s
    requires s.instructor == FindOrCreateInstructor(RegisterInstructors(courses).0, c.instructorCode).1
    ensures CoursesRead(courses + [c], sessions + [s], courseMap[c.code := s], RegisterInstructors(courses + [c]).1)
  {
    assert (sessions + [s])[..|sessions|] == sessions;
    AddSessionKeepsInstructors(courses, sessions, instructors, c, s);
    AddSessionKeepsSessions(courses, sessions, c, s);
  }

  lemma AddSessionKeepsSessions(courses: seq<CourseLine>, sessions: seq<Session>, c: CourseLine, s: Session)
    requires SessionsFromCourses(courses, sessions) && SessionFromLine(s, |sessions|, c)
    requires forall k :: 0 <= k < |sessions| ==> sessions[k] != s
    ensures SessionsFromCourses(courses + [c], sessions + [s])
  {
    forall k | 0 <= k < |sessions| + 1
      ensures SessionFromLine((sessions + [s])[k], k, (courses + [c])[k])
    {
      if k < |sessions| {
        assert (sessions + [s])[k] == sessions[k] && (courses + [c])[k] == courses[k];
      }
    }
  }

  lemma AddSessionKeepsInstructors(courses: seq<CourseLine>, sessions: seq<Session>, instructors: seq<Instructor>,
                                   c: CourseLine, s: Session)
    requires SessionInstructors(courses, sessions, instructors)
    requires s.instructor == FindOrCreateInstructor(RegisterInstructors(courses).0, c.instructorCode).1
    ensures SessionInstructors(courses + [c], sessions + [s], RegisterInstructors(courses + [c]).1)
  {
    var all := courses + [c];
    assert all[..|courses|] == courses;
    var m := RegisterInstructors(courses).0;
    var m' := RegisterInstructors(all).0;
    forall k | 0 <= k < |sessions| + 1
      ensures all[k].instructorCode in m' && (sessions + [s])[k].instructor == m'[all[k].instructorCode]
    {
      if k < |sessions| {
        assert all[k] == courses[k];
      }
    }
  }

  /** courseMap.put(code, session) after appending the session to the list. */
  lemma AddSessionKeepsCourseMap(courseMap: map<string, Session>, sessions: seq<Session>, s: Session)
    requires CourseMapOf(courseMap, sessions)
    requires s.id == |sessions|
    ensures CourseMapOf(courseMap[s.code := s], sessions + [s])
  {
    var all := sessions + [s];
    var m := courseMap[s.code := s];
    forall k | 0 <= k < |all| && (forall j :: k < j < |all| ==> all[j].code != all[k].code)
      ensures m[all[k].code] == all[k]
    {
      if k < |sessions| {
        assert all[|sessions|] == s;
        assert all[k] == sessions[k];
        forall j | k < j < |sessions| ensures sessions[j].code != sessions[k].code {
          assert all[j] == sessions[j];
        }
      }
    }
  }

  // ---------------------------------------------------------------------------
  // Meetings

  /** The (session, index) pairs of one session's meetings: indexes 0 .. n - 1, none
      when n is not positive. */
  function SessionSlots(s: Session, n: int): seq<(Session, int)>
    decreases if n < 0 then 0 else n
  {
    if n <= 0 then [] else SessionSlots(s, n - 1) + [(s, n - 1)]
  }

  /** The (session, index) pairs createMeetingList makes a meeting for, session by session. */
  function MeetingSlots(sessions: seq<Session>): seq<(Session, int)>
    reads sessions`meetingSize
  {
    if sessions == [] then []
    else
      var last := sessions[|sessions| - 1];
      MeetingSlots(sessions[..|sessions| - 1]) + SessionSlots(last, last.meetingSize)
  }

  /** The sum of the sessions' meeting counts, a negative count counting as none. */
  function TotalMeetingSize(sessions: seq<Session>): nat
    reads sessions
  {
    if sessions == [] then 0
    else
      var last := sessions[|sessions| - 1];
      TotalMeetingSize(sessions[..|sessions| - 1]) + (if last.meetingSize < 0 then 0 else last.meetingSize)
  }

  lemma {:induction false} SessionSlotsAt(s: Session, n: int)
    ensures |SessionSlots(s, n)| == if n < 0 then 0 else n
    ensures forall i :: 0 <= i < n ==> SessionSlots(s, n)[i] == (s, i)
    decreases if n < 0 then 0 else n
  {
    if n > 0 {
      SessionSlotsAt(s, n - 1);
    }
  }

  /** There is one meeting per unit of meeting count. */
  lemma {:induction false} MeetingSlotsCount(sessions: seq<Session>)
    ensures |MeetingSlots(sessions)| == TotalMeetingSize(sessions)
  {
    if sessions != [] {
      var last := sessions[|sessions| - 1];
      MeetingSlotsCount(sessions[..|sessions| - 1]);
      SessionSlotsAt(last, last.meetingSize);
    }
  }

  /** Session s gets meetings with exactly the indexes 0 .. meetingSize - 1. */
  lemma {:induction false} MeetingSlotsMembers(sessions: seq<Session>, s: Session, i: int)
    ensures (s, i) in MeetingSlots(sessions) <==> s in sessions && 0 <= i < s.meetingSize
  {
    if sessions != [] {
      var front := sessions[..|sessions| - 1];
      var last := sessions[|sessions| - 1];
      MeetingSlotsMembers(front, s, i);
      SessionSlotsAt(last, last.meetingSize);
      assert sessions == front + [last];
      if (s, i) in SessionSlots(last, last.meetingSize) {
        var k :| 0 <= k < |SessionSlots(last, last.meetingSize)| && SessionSlots(last, last.meetingSize)[k] == (s, i);
      }
      if s == last && 0 <= i < s.meetingSize {
        assert SessionSlots(last, last.meetingSize)[i] == (s, i);
      }
    }
  }

  /** Distinct sessions give distinct slots: no meeting is created twice. */
  lemma {:induction false} MeetingSlotsDistinct(sessions: seq<Session>)
    requires forall i, j :: 0 <= i < j < |sessions| ==> sessions[i] != sessions[j]
    ensures forall i, j :: 0 <= i < j < |MeetingSlots(sessions)| ==> MeetingSlots(sessions)[i] != MeetingSlots(sessions)[j]
  {
    if sessions != [] {
      var front := sessions[..|sessions| - 1];
      var last := sessions[|sessions| - 1];
      var slots := MeetingSlots(sessions);
      var before := MeetingSlots(front);
      var row := SessionSlots(last, last.meetingSize);
      MeetingSlotsDistinct(front);
      SessionSlotsAt(last, last.meetingSize);
      forall i, j | 0 <= i < j < |slots| ensures slots[i] != slots[j] {
        if j >= |before| {
          if i < |before| {
            assert slots[i] in before;
            MeetingSlotsMembers(front, slots[i].0, slots[i].1);
            assert slots[j].0 == last;
          } else {
            assert slots[i] == row[i - |before|] && slots[j] == row[j - |before|];
          }
        }
      }
    }
  }

  /** A meeting as createMeetingList leaves it: its id, its session and index, unlocked,
      and with its planning variables unassigned. */
  ghost predicate MeetingFor(m: Meeting, id: int, slot: (Session, int))
    reads m
  {
    m.id == id && m.session == slot.0 && m.meetingIndexInSession == slot.1
    && !m.locked && m.period.None? && m.room.None?
  }

  /** createMeetingList: ids 0, 1, ... in session order, each session's meetings numbered
      0 .. meetingSize - 1. */
  method CreateMeetingList(sessions: seq<Session>) returns (meetings: seq<Meeting>)
    ensures |meetings| == |MeetingSlots(sessions)|
    ensures forall k :: 0 <= k < |meetings| ==> MeetingFor(meetings[k], k, MeetingSlots(sessions)[k])
    ensures forall m :: m in meetings ==> fresh(m)
  {
    meetings := [];
    ghost var made: set<Meeting> := {};
    for i := 0 to |sessions|
      invariant |meetings| == |MeetingSlots(sessions[..i])|
      invariant forall k :: 0 <= k < |meetings| ==> MeetingFor(meetings[k], k, MeetingSlots(sessions[..i])[k])
      invariant fresh(made) && forall m :: m in meetings ==> m in made
    {
      assert sessions[..i + 1][..i] == sessions[..i];
      var next := CreateSessionMeetings(sessions[i], |meetings|);
      meetings := meetings + next;
      made := made + set m | m in next;
    }
    assert sessions[..|sessions|] == sessions;
  }

  /** The inner loop of createMeetingList for one session, starting at id `first`. */
  method CreateSessionMeetings(session: Session, first: int) returns (meetings: seq<Meeting>)
    ensures |meetings| == |SessionSlots(session, session.meetingSize)|
    ensures forall k :: 0 <= k < |meetings| ==>
              MeetingFor(meetings[k], first + k, SessionSlots(session, session.meetingSize)[k])
    ensures forall m :: m in meetings ==> fresh(m)
  {
    meetings := [];
    ghost var made: set<Meeting> := {};
    var i := 0;
    while i < session.meetingSize
      invariant 0 <= i && (i == 0 || i <= session.meetingSize)
      invariant |meetings| == i
      invariant forall k :: 0 <= k < i ==> MeetingFor(meetings[k], first + k, (session, k))
      invariant fresh(made) && forall m :: m in meetings ==> m in made
    {
      var meeting := new Meeting(first + i, session, i);
      meetings := meetings + [meeting];
      made := made + {meeting};
      i := i + 1;
    }
    SessionSlotsAt(session, session.meetingSize);
  }

  // ---------------------------------------------------------------------------
  // The whole file

  /** The course codes the course lines declare. */
  function CourseCodes(courses: seq<CourseLine>): set<string> {
    set k | 0 <= k < |courses| :: courses[k].code
  }

  /** After the courses section, the course map holds exactly the declared codes. */
  lemma CourseMapHasCourseCodes(courses: seq<CourseLine>, sessions: seq<Session>, courseMap: map<string, Session>,
                                instructors: seq<Instructor>)
    requires CoursesRead(courses, sessions, courseMap, instructors)
    ensures courseMap.Keys == CourseCodes(courses)
    ensures CourseMapKeyed(courseMap)
    ensures forall c :: c in courseMap ==> courseMap[c] in sessions && courseMap[c].curriculumList == []
  {
    CourseMapForIsCourseMap(sessions);
    CourseMapOfIsKeyed(courseMap, sessions);
    forall c | c in courseMap ensures c in CourseCodes(courses) {
      var k := courseMap[c].id;
      assert sessions[k].code == courses[k].code;
    }
    forall k | 0 <= k < |courses| ensures courses[k].code in courseMap {
      assert sessions[k].code == courses[k].code;
    }
  }

  /** A penalty line naming a (day, timeslot) pair inside a grid of d days and ts timeslots. */
  predicate PenaltyLineInGrid(t: Line, d: int, ts: int) {
    && |t| == 3 && ParseInt(t[1]).Some? && ParseInt(t[2]).Some?
    && 0 <= ParseInt(t[1]).value < d && 0 <= ParseInt(t[2]).value < ts
  }

  /** The penalties section stated on the lines alone. */
  ghost predicate PenaltySectionOk(lines: seq<Line>, at: nat, n: int, d: int, ts: int) {
    SectionStart(lines, at, "UNAVAILABILITY_CONSTRAINTS:") && n >= 0 && LinesInGrid(lines, at + 2, n, d, ts)
  }

  /** Each of the n lines from line `from` on exists and names a pair inside the grid. */
  ghost predicate LinesInGrid(lines: seq<Line>, from: nat, n: int, d: int, ts: int) {
    forall l :: from <= l < from + n ==> l < |lines| && PenaltyLineInGrid(lines[l], d, ts)
  }

  /** Against the importer's period map, a penalty line is accepted exactly when it names
      a pair inside the grid. */
  lemma PenaltyLineInGridAccepted(courseMap: map<string, Session>, days: seq<Day>, ts: nat, first: nat, t: Line, l: nat)
    ensures PenaltyParser(courseMap, GridMap(days, ts), first)(t, l).Ok? <==> PenaltyLineInGrid(t, |days|, ts)
  {
    PenaltyLineAccepted(courseMap, GridMap(days, ts), first, t, l);
    GridMapAt(days, ts);
  }

  /** Against the importer's period map, the penalties section is accepted exactly when
      every line names a pair inside the grid; the course codes play no part. */
  lemma PenaltiesOkInGrid(lines: seq<Line>, at: nat, n: int, courseMap: map<string, Session>, days: seq<Day>, ts: nat)
    ensures PenaltiesOk(lines, at, n, courseMap, GridMap(days, ts)) <==> PenaltySectionOk(lines, at, n, |days|, ts)
  {
    if n >= 0 {
      var parse := PenaltyParser(courseMap, GridMap(days, ts), at + 2);
      ParseLinesOk(lines, at + 2, n, parse);
      if AllLinesParse(lines, at + 2, n, parse) {
        forall l | at + 2 <= l < at + 2 + n ensures l < |lines| && PenaltyLineInGrid(lines[l], |days|, ts) {
          assert LineParses(lines, l, parse);
          PenaltyLineInGridAccepted(courseMap, days, ts, at + 2, lines[l], l);
        }
      }
      if PenaltySectionOk(lines, at, n, |days|, ts) {
        assert LinesInGrid(lines, at + 2, n, |days|, ts);
        forall l | at + 2 <= l < at + 2 + n ensures LineParses(lines, l, parse) {
          assert l < |lines| && PenaltyLineInGrid(lines[l], |days|, ts);
          PenaltyLineInGridAccepted(courseMap, days, ts, at + 2, lines[l], l);
        }
        assert AllLinesParse(lines, at + 2, n, parse);
      }
    }
  }

  /** An empty line, then "END.". */
  ghost predicate EndOk(lines: seq<Line>, at: nat) {
    at + 2 <= |lines| && lines[at] == [] && lines[at + 1] == ["END."]
  }

  /** The layout readSolution accepts: the header, then the sections at the positions its
      sizes give, each line of them well formed, curricula naming declared courses only,
      penalties naming periods of the grid, and the closing lines. */
  ghost predicate FileOk(lines: seq<Line>) {
    HeaderOk(lines) && FrontOk(lines, HeaderOf(lines)) && BackOk(lines, HeaderOf(lines))
  }

  /** The sections read before the curricula: courses, rooms, and sizes the grid accepts. */
  ghost predicate FrontOk(lines: seq<Line>, h: Header) {
    && CoursesOk(lines, 7, h.courses)
    && RoomsOk(lines, RoomsLine(h), h.rooms)
    && GridSizesOk(h.days, h.timeslots)
  }

  /** The rest: curricula, penalties and the closing lines. */
  ghost predicate BackOk(lines: seq<Line>, h: Header) {
    && SizesNonNegative(h)
    && CurriculaOk(lines, CurriculaLine(h), h.curricula, CourseCodes(FileCourses(lines, h)))
    && PenaltySectionOk(lines, PenaltiesLine(h), h.penalties, h.days, h.timeslots)
    && EndOk(lines, EndLine(h))
  }

  /** The course lines of the courses section (none when it does not parse). */
  ghost function FileCourses(lines: seq<Line>, h: Header): seq<CourseLine> {
    if h.courses < 0 then []
    else
      match ParseLines(lines, 9, h.courses, ParseCourseLine)
      case Ok(courses) => courses
      case Err(_) => []
  }

  /** The curriculum lines of the curricula section (none when it does not parse). */
  ghost function FileCurricula(lines: seq<Line>, h: Header): seq<CurriculumLine> {
    if h.courses < 0 || h.rooms < 0 || h.curricula < 0 then []
    else
      match ParseLines(lines, CurriculaLine(h) + 2, h.curricula, CurriculumParser(CourseCodes(FileCourses(lines, h))))
      case Ok(curricula) => curricula
      case Err(_) => []
  }

  /** When the curricula section parses against the declared codes, its lines are the
      file's curriculum lines. */
  lemma FileCurriculaRead(lines: seq<Line>, h: Header)
    requires h.courses >= 0 && h.rooms >= 0 && h.curricula >= 0
    requires ParseLines(lines, CurriculaLine(h) + 2, h.curricula, CurriculumParser(CourseCodes(FileCourses(lines, h)))).Ok?
    ensures FileCurricula(lines, h)
              == ParseLines(lines, CurriculaLine(h) + 2, h.curricula, CurriculumParser(CourseCodes(FileCourses(lines, h)))).value
  {
  }

  /** What a successful import holds, stated against the input lines. */
  ghost predicate ImportedFrom(lines: seq<Line>, s: SessionSchedule, courseMap: map<string, Session>)
    reads s.sessionList, s.dayList, s.meetingList, courseMap.Values
  {
    Imported(lines, HeaderOf(lines), s, courseMap)
  }

  /** The schedule read with header h: its name, sessions and instructors, rooms, the grid,
      curricula (and each session's share of them), penalties and meetings. */
  ghost predicate Imported(lines: seq<Line>, h: Header, s: SessionSchedule, courseMap: map<string, Session>)
    reads s.sessionList, s.dayList, s.meetingList, courseMap.Values
  {
    && SizesNonNegative(h)
    && s.name == h.name
    && SessionsImported(lines, h, s.sessionList, s.instructorList, courseMap)
    && ParseLines(lines, RoomsLine(h) + 2, h.rooms, RoomParser(RoomsLine(h) + 2)) == Ok(s.roomList)
    && GridOf(PeriodGrid(s.dayList, s.timeslotList, s.periodList, GridMap(s.dayList, h.timeslots)), h.days, h.timeslots)
    && CurriculaImported(lines, h, s.curriculumList, s.sessionList, courseMap)
    && PenaltiesImported(lines, h, s.unavailablePeriodPenaltyList, s.dayList, courseMap)
    && MeetingsImported(s.meetingList, s.sessionList)
  }

  /** The front of the file and the rest, read in turn, make up the imported schedule. */
  lemma ImportedParts(lines: seq<Line>, h: Header, f: FrontPart, curricula: seq<Curriculum>,
                      penalties: seq<UnavailablePeriodPenalty>, meetings: seq<Meeting>)
    requires FrontRead(lines, h, f) && SizesNonNegative(h)
    requires CurriculaImported(lines, h, curricula, f.section.sessions, f.section.courseMap)
    requires PenaltiesImported(lines, h, penalties, f.grid.days, f.section.courseMap)
    requires MeetingsImported(meetings, f.section.sessions)
    ensures Imported(lines, h, SessionSchedule(h.name, f.section.instructors, f.section.sessions, f.rooms, f.grid.days,
                                               f.grid.timeslots, f.grid.periods, curricula, penalties, meetings),
                     f.section.courseMap)
  {
  }

  /** Session k carries course line k, the instructors are those the course lines
      register, and the course map files each code under its (last) session. */
  ghost predicate SessionsImported(lines: seq<Line>, h: Header, sessions: seq<Session>, instructors: seq<Instructor>,
                                   courseMap: map<string, Session>)
    reads sessions`meetingSize, sessions`studentSize
  {
    && SessionsFromCourses(FileCourses(lines, h), sessions)
    && SessionInstructors(FileCourses(lines, h), sessions, instructors)
    && courseMap == CourseMapFor(sessions)
  }

  /** Curriculum k is named by curriculum line k; the session the course map files under
      a code holds the curricula whose lines name the code, once per mention, and a session
      the map does not hold (its code was reused by a later course) holds none. */
  ghost predicate CurriculaImported(lines: seq<Line>, h: Header, curricula: seq<Curriculum>, sessions: seq<Session>,
                                    courseMap: map<string, Session>)
    reads sessions`curriculumList, courseMap.Values`curriculumList
  {
    && curricula == Curricula(FileCurricula(lines, h))
    && (forall c :: c in courseMap ==> courseMap[c].curriculumList == Mentions(FileCurricula(lines, h), c))
    && (forall k :: 0 <= k < |sessions| && sessions[k] !in courseMap.Values ==> sessions[k].curriculumList == [])
  }

  /** Penalty k is read from penalty line k against the course map and the grid of the given days. */
  ghost predicate PenaltiesImported(lines: seq<Line>, h: Header, penalties: seq<UnavailablePeriodPenalty>,
                                    days: seq<Day>, courseMap: map<string, Session>)
  {
    && SizesNonNegative(h)
    && ParseLines(lines, PenaltiesLine(h) + 2, h.penalties,
                  PenaltyParser(courseMap, GridMap(days, h.timeslots), PenaltiesLine(h) + 2)) == Ok(penalties)
  }

  /** Meeting k is the k-th slot of the sessions, as createMeetingList leaves it. */
  ghost predicate MeetingsImported(meetings: seq<Meeting>, sessions: seq<Session>)
    reads meetings, sessions`meetingSize
  {
    && |meetings| == |MeetingSlots(sessions)|
    && forall k :: 0 <= k < |meetings| ==> MeetingFor(meetings[k], k, MeetingSlots(sessions)[k])
  }
}
