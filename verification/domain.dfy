/** The music-academy timetabling domain: sessions (courses) taught by instructors,
    meetings (lectures) of a session to be placed in a period and a room, days and
    timeslots that make up the period grid, curricula grouping sessions, and
    unavailability penalties. Objects whose fields are changed after creation
    (Session, Day, Meeting) are classes; the others are values. */
module Domain {
  import opened Outcomes
  import opened Text

  datatype Instructor = Instructor(id: int, code: string)

  datatype Room = Room(id: int, code: string, capacity: int)

  datatype Timeslot = Timeslot(id: int, timeslotIndex: int)

  datatype Curriculum = Curriculum(id: int, code: string)

  /** A day of the week; the periods on it are appended while the grid is built. */
  class Day {
    const id: int
    const dayIndex: int
    var periodList: seq<Period>

    constructor (id: int, dayIndex: int)
      ensures this.id == id && this.dayIndex == dayIndex && periodList == []
    {
      this.id := id;
      this.dayIndex := dayIndex;
      periodList := [];
    }
  }

  /** A (day, timeslot) cell of the timetable. */
  datatype Period = Period(id: int, day: Day, timeslot: Timeslot)

  /** A course. Its meeting count, enrolled student count and curricula are filled
      in after the object is created, by the importer and the generator. */
  class Session {
    const id: int
    const code: string
    const instructor: Instructor
    var meetingSize: int
    const minWorkingDaySize: int
    var curriculumList: seq<Curriculum>
    var studentSize: int

    constructor (id: int, code: string, instructor: Instructor, meetingSize: int,
                 minWorkingDaySize: int, studentSize: int)
      ensures this.id == id && this.code == code && this.instructor == instructor
      ensures this.meetingSize == meetingSize && this.minWorkingDaySize == minWorkingDaySize
      ensures this.studentSize == studentSize && curriculumList == []
    {
      this.id := id;
      this.code := code;
      this.instructor := instructor;
      this.meetingSize := meetingSize;
      this.minWorkingDaySize := minWorkingDaySize;
      this.studentSize := studentSize;
      curriculumList := [];
    }
  }

  /** A session should not be scheduled in a period. The session is null when the
      importer met an unknown course code. */
  datatype UnavailablePeriodPenalty = UnavailablePeriodPenalty(id: int, session: Session?, period: Period)

  /** One lecture of a session. Period and room are the planning variables (None is
      Java's null, "not yet assigned"); locked marks an entity the solver must not move. */
  class Meeting {
    const id: int
    const session: Session
    const meetingIndexInSession: int
    var locked: bool
    var period: Option<Period>
    var room: Option<Room>

    constructor (id: int, session: Session, meetingIndexInSession: int)
      ensures this.id == id && this.session == session
      ensures this.meetingIndexInSession == meetingIndexInSession
      ensures !locked && period == None && room == None
    {
      this.id := id;
      this.session := session;
      this.meetingIndexInSession := meetingIndexInSession;
      locked := false;
      period := None;
      room := None;
    }

    method SetLocked(locked: bool)
      modifies this
      ensures this.locked == locked
      ensures period == old(period) && room == old(room)
    {
      this.locked := locked;
    }

    method SetPeriod(period: Option<Period>)
      modifies this
      ensures this.period == period
      ensures room == old(room) && locked == old(locked)
    {
      this.period := period;
    }

    method SetRoom(room: Option<Room>)
      modifies this
      ensures this.room == room
      ensures period == old(period) && locked == old(locked)
    {
      this.room := room;
    }

    /** The day of the assigned period; None while the period is unassigned. */
    function GetDay(): (r: Option<Day>)
      reads this
      ensures r.None? <==> period.None?
      ensures r.Some? ==> r.value == period.value.day
    {
      match period
      case None => None
      case Some(p) => Some(p.day)
    }

    /** The timeslot index of the assigned period; Integer.MIN_VALUE while the
        period is unassigned. */
    function GetTimeslotIndex(): (r: int)
      reads this
      ensures period.None? ==> r == INT_MIN
      ensures period.Some? ==> r == period.value.timeslot.timeslotIndex
    {
      match period
      case None => INT_MIN
      case Some(p) => p.timeslot.timeslotIndex
    }

    /** Session code, a dash, then the meeting's index within its session. */
    function GetLabel(): (s: string)
      ensures session.code + "-" <= s
      ensures IsInt32(meetingIndexInSession) ==>
                ParseInt(s[|session.code| + 1..]) == Some(meetingIndexInSession)
    {
      ParseIntOfIntToStringAfter(session.code + "-", meetingIndexInSession);
      session.code + "-" + IntToString(meetingIndexInSession)
    }

    function GetInstructor(): (r: Instructor)
      ensures r == session.instructor
    {
      session.instructor
    }

    function GetStudentSize(): (r: int)
      reads session
      ensures r == session.studentSize
    {
      session.studentSize
    }

    function GetCurriculumList(): (r: seq<Curriculum>)
      reads session
      ensures r == session.curriculumList
    {
      session.curriculumList
    }
  }

  lemma ParseIntOfIntToStringAfter(prefix: string, i: int)
    ensures IsInt32(i) ==> ParseInt((prefix + IntToString(i))[|prefix|..]) == Some(i)
  {
    assert (prefix + IntToString(i))[|prefix|..] == IntToString(i);
    if IsInt32(i) {
      ParseIntOfIntToString(i);
    }
  }

  /** The planning problem with its (partial) solution. */
  datatype SessionSchedule = SessionSchedule(
    name: string,
    instructorList: seq<Instructor>,
    sessionList: seq<Session>,
    roomList: seq<Room>,
    dayList: seq<Day>,
    timeslotList: seq<Timeslot>,
    periodList: seq<Period>,
    curriculumList: seq<Curriculum>,
    unavailablePeriodPenaltyList: seq<UnavailablePeriodPenalty>,
    meetingList: seq<Meeting>)
}
