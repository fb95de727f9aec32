/** The generator of unsolved music-academy timetables: from a meeting count it derives
    the sizes of the other lists, then builds days, timeslots, periods (no meetings on
    Wednesday afternoon), instructors, sessions with unique codes, meetings spread over
    the sessions, rooms, curricula that group sessions under a room-capacity bound, and
    one unavailable-period penalty per session, drawing from one seeded random source. */
module Generator {
  import opened Outcomes
  import opened Text
  import opened Domain
  import Importer
  import MeetingDifficulty

  const DAY_LIST_SIZE: nat := 5
  const TIMESLOT_LIST_SIZE: nat := 7
  /** Every day has all timeslots except Wednesday, which only has the first four. */
  const PERIOD_LIST_SIZE: nat := DAY_LIST_SIZE * TIMESLOT_LIST_SIZE - TIMESLOT_LIST_SIZE + 4

  const ROOM_CAPACITY_OPTIONS: seq<int> := [20, 25, 30, 40, 50]

  const SESSION_CODES: seq<string> := [
    "Math", "Chemistry", "Physics", "Geography", "Biology", "History", "English",
    "Spanish", "French", "German", "ICT", "Economics", "Psychology", "Art", "Music"]

  /** The most meetings one curriculum may hold: the number of periods. */
  const MAX_CURRICULUM_MEETINGS: nat := PERIOD_LIST_SIZE

  /** Java's `/` on int: the quotient truncated toward zero. */
  function JavaDiv(a: int, b: int): int
    requires b > 0
  {
    if a >= 0 then a / b else -((-a) / b)
  }

  // ---------------------------------------------------------------------------
  // Sizes and file name

  datatype Sizes = Sizes(sessions: int, instructors: int, rooms: int)

  /** The list sizes derived from the meeting count, in 32-bit int arithmetic:
      sessions = 2m / 9 + 1, instructors = sessions / 3 + 1, rooms = 2m / periods. */
  function SizesFor(meetings: int): (r: Sizes)
    ensures 0 <= meetings <= 0x3fff_ffff ==> 1 <= r.instructors <= r.sessions && r.rooms >= 0
  {
    var twice := Wrap32(meetings * 2);
    var sessions := JavaDiv(twice, 9) + 1;
    Sizes(sessions, JavaDiv(sessions, 3) + 1, JavaDiv(twice, PERIOD_LIST_SIZE))
  }

  /** Without overflow there are about two meetings per 4.5 sessions, one instructor
      per three sessions, and enough rooms for every meeting to fit twice into the
      grid; there is a room at all exactly when there are at least 16 meetings. */
  lemma SizesBounds(m: int)
    requires 0 <= m <= 0x3fff_ffff
    ensures var z := SizesFor(m);
      && 9 * (z.sessions - 1) <= 2 * m < 9 * z.sessions
      && 3 * (z.instructors - 1) <= z.sessions < 3 * z.instructors
      && PERIOD_LIST_SIZE * z.rooms <= 2 * m < PERIOD_LIST_SIZE * (z.rooms + 1)
      && (z.rooms > 0 <==> m >= 16)
  {
    assert Wrap32(m * 2) == 2 * m;
  }

  /** The three data sets the generator writes. */
  lemma GeneratedSizes()
    ensures SizesFor(200) == Sizes(45, 16, 12)
    ensures SizesFor(400) == Sizes(89, 30, 25)
    ensures SizesFor(800) == Sizes(178, 60, 50)
  {
    SizesBounds(200);
    SizesBounds(400);
    SizesBounds(800);
  }

  function FileName(meetings: int, periods: int, rooms: int): string {
    IntToString(meetings) + "meetings-" + IntToString(periods) + "periods-" + IntToString(rooms) + "rooms"
  }

  /** Cut at the dashes, a file name gives back its three counts, each with its unit. */
  lemma FileNameFields(meetings: int, periods: int, rooms: int)
    requires meetings >= 0 && periods >= 0 && rooms >= 0
    ensures Split(FileName(meetings, periods, rooms), '-')
         == [IntToString(meetings) + "meetings", IntToString(periods) + "periods", IntToString(rooms) + "rooms"]
  {
    var a, b, c := IntToString(meetings) + "meetings", IntToString(periods) + "periods", IntToString(rooms) + "rooms";
    NonNegativeIntToString(meetings);
    NonNegativeIntToString(periods);
    NonNegativeIntToString(rooms);
    DigitsHaveNoSeparator(IntToString(meetings), '-');
    DigitsHaveNoSeparator(IntToString(periods), '-');
    DigitsHaveNoSeparator(IntToString(rooms), '-');
    assert FileName(meetings, periods, rooms) == a + ['-'] + (b + ['-'] + c);
    SplitFirst(a, '-', b + ['-'] + c);
    SplitFirst(b, '-', c);
    SplitNone(c, '-');
  }

  /** A value followed by a fixed unit determines the value. */
  lemma UnitSuffixCancels(i: int, j: int, unit: string)
    requires IsInt32(i) && IsInt32(j)
    requires IntToString(i) + unit == IntToString(j) + unit
    ensures i == j
  {
    var x, y := IntToString(i), IntToString(j);
    assert |x| == |y|;
    assert x == (x + unit)[..|x|];
    assert y == (y + unit)[..|y|];
    IntToStringInjective(i, j);
  }

  /** Different counts never share a file name. */
  lemma FileNameInjective(m: int, p: int, r: int, m': int, p': int, r': int)
    requires 0 <= m && 0 <= p && 0 <= r && 0 <= m' && 0 <= p' && 0 <= r'
    requires IsInt32(m) && IsInt32(p) && IsInt32(r) && IsInt32(m') && IsInt32(p') && IsInt32(r')
    requires FileName(m, p, r) == FileName(m', p', r')
    ensures m == m' && p == p' && r == r'
  {
    FileNameFields(m, p, r);
    FileNameFields(m', p', r');
    UnitSuffixCancels(m, m', "meetings");
    UnitSuffixCancels(p, p', "periods");
    UnitSuffixCancels(r, r', "rooms");
  }

  // ---------------------------------------------------------------------------
  // The random source

  /** java.util.Random seeded once per schedule: `source(k)` is the raw value behind
      the k-th draw, and a draw below `bound` is that value modulo the bound. */
  class Random {
    const source: nat -> nat
    var calls: nat

    constructor (source: nat -> nat)
      ensures this.source == source && calls == 0
    {
      this.source := source;
      calls := 0;
    }

    method NextInt(bound: int) returns (r: int)
      requires bound > 0
      modifies this`calls
      ensures r == source(old(calls)) % bound && 0 <= r < bound
      ensures calls == old(calls) + 1
    {
      r := source(calls) % bound;
      calls := calls + 1;
    }
  }

  /** Draws made when a loop of n steps draws only from step `free` on. */
  function Excess(n: int, free: int): nat {
    if n > free then n - free else 0
  }

  // ---------------------------------------------------------------------------
  // Periods

  /** No meetings on Wednesday afternoon. */
  predicate NoMeetings(day: Day, timeslot: Timeslot) {
    day.dayIndex == 2 && timeslot.timeslotIndex >= 4
  }

  /** The (day, timeslot) cells of one day that get a period, in timeslot order. */
  function DayCells(day: Day, timeslots: seq<Timeslot>): seq<(Day, Timeslot)> {
    if timeslots == [] then []
    else
      var last := timeslots[|timeslots| - 1];
      DayCells(day, timeslots[..|timeslots| - 1]) + (if NoMeetings(day, last) then [] else [(day, last)])
  }

  /** All cells that get a period, day by day. */
  function Cells(days: seq<Day>, timeslots: seq<Timeslot>): seq<(Day, Timeslot)> {
    if days == [] then [] else Cells(days[..|days| - 1], timeslots) + DayCells(days[|days| - 1], timeslots)
  }

  /** Periods over the given cells, numbered from 0. */
  function Numbered(cells: seq<(Day, Timeslot)>): (periods: seq<Period>)
    ensures |periods| == |cells|
    ensures forall k :: 0 <= k < |cells| ==> periods[k] == Period(k, cells[k].0, cells[k].1)
  {
    seq(|cells|, k requires 0 <= k < |cells| => Period(k, cells[k].0, cells[k].1))
  }

  /** The periods on a given day, in order. */
  function PeriodsOn(periods: seq<Period>, day: Day): (r: seq<Period>)
    ensures forall k :: 0 <= k < |r| ==> r[k] in periods && r[k].day == day
    ensures forall k :: 0 <= k < |periods| && periods[k].day == day ==> periods[k] in r
  {
    if periods == [] then []
    else
      var last := periods[|periods| - 1];
      PeriodsOn(periods[..|periods| - 1], day) + (if last.day == day then [last] else [])
  }

  /** The timeslot loop for one day: its periods, numbered on from the list so far,
      also go to the end of the day's own list. */
  method AddDayPeriods(days: seq<Day>, i: nat, timeslots: seq<Timeslot>, periods: seq<Period>)
    returns (added: seq<Period>)
    requires i < |days|
    requires periods == Numbered(Cells(days[..i], timeslots))
    modifies days[i]
    ensures periods + added == Numbered(Cells(days[..i + 1], timeslots))
    ensures forall k :: 0 <= k < |added| ==> added[k].day == days[i]
    ensures days[i].periodList == old(days[i].periodList) + added
  {
    var day := days[i];
    assert days[..i + 1][..i] == days[..i];
    added := [];
    for j := 0 to |timeslots|
      invariant periods + added == Numbered(Cells(days[..i], timeslots) + DayCells(day, timeslots[..j]))
      invariant forall k :: 0 <= k < |added| ==> added[k].day == day
      invariant day.periodList == old(day.periodList) + added
    {
      var timeslot := timeslots[j];
      assert timeslots[..j + 1][..j] == timeslots[..j];
      ghost var cells := Cells(days[..i], timeslots) + DayCells(day, timeslots[..j]);
      if !NoMeetings(day, timeslot) {
        var period := Period(|periods| + |added|, day, timeslot);
        NumberedAppend(cells, (day, timeslot));
        assert cells + [(day, timeslot)] == Cells(days[..i], timeslots) + DayCells(day, timeslots[..j + 1]);
        added := added + [period];
        day.periodList := day.periodList + [period];
      } else {
        assert cells == Cells(days[..i], timeslots) + DayCells(day, timeslots[..j + 1]);
      }
    }
    assert timeslots[..|timeslots|] == timeslots;
  }

  /** Periods for every (day, timeslot) except Wednesday afternoon, numbered from 0,
      each also appended to its day's period list. */
  method CreatePeriodList(days: seq<Day>, timeslots: seq<Timeslot>) returns (periods: seq<Period>)
    requires forall a, b :: 0 <= a < b < |days| ==> days[a] != days[b]
    modifies set k | 0 <= k < |days| :: days[k]
    ensures periods == Numbered(Cells(days, timeslots))
    ensures forall k :: 0 <= k < |days| ==> days[k].periodList == old(days[k].periodList) + PeriodsOn(periods, days[k])
  {
    periods := [];
    for i := 0 to |days|
      invariant periods == Numbered(Cells(days[..i], timeslots))
      invariant forall k :: 0 <= k < |days| ==>
        days[k].periodList == old(days[k].periodList) + (if k < i then PeriodsOn(periods, days[k]) else [])
    {
      var before := periods;
      label Step:
      var added := AddDayPeriods(days, i, timeslots, periods);
      periods := periods + added;
      DayStep(days, i, timeslots, before, added);
      forall k | 0 <= k < |days|
        ensures days[k].periodList == old(days[k].periodList) + (if k < i + 1 then PeriodsOn(periods, days[k]) else [])
      {
        if k == i {
          assert days[k].periodList == old@Step(days[k].periodList) + added;
        } else {
          assert days[k].periodList == old@Step(days[k].periodList);
        }
      }
    }
    assert days[..|days|] == days;
  }

  /** After day i's periods are appended, day i owns exactly them and every earlier day
      keeps the periods it had. */
  lemma DayStep(days: seq<Day>, i: nat, timeslots: seq<Timeslot>, before: seq<Period>, added: seq<Period>)
    requires i < |days|
    requires forall a, b :: 0 <= a < b < |days| ==> days[a] != days[b]
    requires before == Numbered(Cells(days[..i], timeslots))
    requires forall k :: 0 <= k < |added| ==> added[k].day == days[i]
    ensures PeriodsOn(before + added, days[i]) == added
    ensures forall k :: 0 <= k < i ==> PeriodsOn(before + added, days[k]) == PeriodsOn(before, days[k])
  {
    NoEarlierPeriodOnDay(days, i, timeslots, before);
    PeriodsOnAppend(before, added, days[i]);
    NoPeriodsOnOtherDay(before, days[i]);
    AllPeriodsOnDay(added, days[i]);
    forall k | 0 <= k < i
      ensures PeriodsOn(before + added, days[k]) == PeriodsOn(before, days[k])
    {
      PeriodsOnAppend(before, added, days[k]);
      NoPeriodsOnOtherDay(added, days[k]);
    }
  }

  lemma {:induction false} PeriodsOnAppend(a: seq<Period>, b: seq<Period>, day: Day)
    ensures PeriodsOn(a + b, day) == PeriodsOn(a, day) + PeriodsOn(b, day)
  {
    if b == [] {
      assert a + b == a;
    } else {
      var b0 := b[..|b| - 1];
      assert (a + b)[..|a + b| - 1] == a + b0;
      assert (a + b)[|a + b| - 1] == b[|b| - 1];
      PeriodsOnAppend(a, b0, day);
    }
  }

  /** The periods added for day i are all on day i. */
  lemma CellsOfOneDay(days: seq<Day>, i: nat, timeslots: seq<Timeslot>)
    requires i < |days|
    ensures Cells(days[..i + 1], timeslots) == Cells(days[..i], timeslots) + DayCells(days[i], timeslots)
  {
    assert days[..i + 1][..i] == days[..i];
  }

  lemma {:induction false} DayCellsOnDay(day: Day, timeslots: seq<Timeslot>)
    ensures forall c :: c in DayCells(day, timeslots) ==> c.0 == day && c.1 in timeslots && !NoMeetings(c.0, c.1)
  {
    if timeslots != [] {
      DayCellsOnDay(day, timeslots[..|timeslots| - 1]);
    }
  }

  lemma {:induction false} NoPeriodsOnOtherDay(periods: seq<Period>, day: Day)
    requires forall k :: 0 <= k < |periods| ==> periods[k].day != day
    ensures PeriodsOn(periods, day) == []
  {
    if periods != [] {
      NoPeriodsOnOtherDay(periods[..|periods| - 1], day);
    }
  }

  lemma {:induction false} CellsOnDays(days: seq<Day>, timeslots: seq<Timeslot>)
    ensures forall c :: c in Cells(days, timeslots) ==> c.0 in days && c.1 in timeslots && !NoMeetings(c.0, c.1)
  {
    if days != [] {
      CellsOnDays(days[..|days| - 1], timeslots);
      DayCellsOnDay(days[|days| - 1], timeslots);
    }
  }

  lemma NumberedAppend(cells: seq<(Day, Timeslot)>, cell: (Day, Timeslot))
    ensures Numbered(cells + [cell]) == Numbered(cells) + [Period(|cells|, cell.0, cell.1)]
  {
  }

  /** No period numbered before day i's is on day i. */
  lemma NoEarlierPeriodOnDay(days: seq<Day>, i: nat, timeslots: seq<Timeslot>, before: seq<Period>)
    requires i < |days|
    requires forall a, b :: 0 <= a < b < |days| ==> days[a] != days[b]
    requires before == Numbered(Cells(days[..i], timeslots))
    ensures forall k :: 0 <= k < |before| ==> before[k].day != days[i]
  {
    var cells := Cells(days[..i], timeslots);
    CellsOnDays(days[..i], timeslots);
    forall k | 0 <= k < |before| ensures before[k].day != days[i] {
      assert cells[k] in cells;
    }
  }

  lemma {:induction false} AllPeriodsOnDay(periods: seq<Period>, day: Day)
    requires forall k :: 0 <= k < |periods| ==> periods[k].day == day
    ensures PeriodsOn(periods, day) == periods
  {
    if periods != [] {
      AllPeriodsOnDay(periods[..|periods| - 1], day);
    }
  }

  /** A cell gets a period exactly when its day and timeslot are in the lists and it is
      not Wednesday afternoon. */
  lemma {:induction false} CellsExactly(days: seq<Day>, timeslots: seq<Timeslot>)
    ensures forall c :: c in Cells(days, timeslots) <==> c.0 in days && c.1 in timeslots && !NoMeetings(c.0, c.1)
  {
    CellsOnDays(days, timeslots);
    forall c: (Day, Timeslot) | c.0 in days && c.1 in timeslots && !NoMeetings(c.0, c.1)
      ensures c in Cells(days, timeslots)
    {
      CellsComplete(days, timeslots, c);
    }
  }

  lemma {:induction false} CellsComplete(days: seq<Day>, timeslots: seq<Timeslot>, c: (Day, Timeslot))
    requires c.0 in days && c.1 in timeslots && !NoMeetings(c.0, c.1)
    ensures c in Cells(days, timeslots)
  {
    var front := days[..|days| - 1];
    if c.0 in front {
      CellsComplete(front, timeslots, c);
    } else {
      assert c.0 == days[|days| - 1] by {
        assert days == front + [days[|days| - 1]];
      }
      DayCellsComplete(c.0, timeslots, c.1);
    }
  }

  lemma {:induction false} DayCellsComplete(day: Day, timeslots: seq<Timeslot>, t: Timeslot)
    requires t in timeslots && !NoMeetings(day, t)
    ensures (day, t) in DayCells(day, timeslots)
  {
    var front := timeslots[..|timeslots| - 1];
    if t in front {
      DayCellsComplete(day, front, t);
    } else {
      assert timeslots == front + [timeslots[|timeslots| - 1]];
    }
  }

  /** A day has all t timeslots, except Wednesday, which keeps the first four. */
  lemma {:induction false} DayCellsCount(day: Day, t: nat)
    ensures |DayCells(day, Importer.Timeslots(t))| == if day.dayIndex == 2 && t > 4 then 4 else t
  {
    if t > 0 {
      Importer.TimeslotsAt(t);
      assert Importer.Timeslots(t)[..t - 1] == Importer.Timeslots(t - 1);
      DayCellsCount(day, t - 1);
    }
  }

  /** Five days of seven timeslots give PERIOD_LIST_SIZE periods. */
  lemma WeekPeriodCount(days: seq<Day>)
    requires |days| == DAY_LIST_SIZE
    requires forall k :: 0 <= k < |days| ==> days[k].dayIndex == k
    ensures |Cells(days, Importer.Timeslots(TIMESLOT_LIST_SIZE))| == PERIOD_LIST_SIZE
  {
    var ts := Importer.Timeslots(TIMESLOT_LIST_SIZE);
    for n := 0 to DAY_LIST_SIZE
      invariant |Cells(days[..n], ts)| == 7 * n - (if n > 2 then 3 else 0)
    {
      assert days[..n + 1][..n] == days[..n];
      DayCellsCount(days[n], TIMESLOT_LIST_SIZE);
    }
    assert days[..DAY_LIST_SIZE] == days;
  }

  // ---------------------------------------------------------------------------
  // Instructors and sessions

  /** Instructor i has id i and the i-th generated full name. */
  method CreateInstructorList(size: int, names: nat -> string) returns (instructors: seq<Instructor>)
    requires size >= 0
    ensures |instructors| == size
    ensures forall i :: 0 <= i < size ==> instructors[i].id == i && instructors[i].code == names(i)
  {
    instructors := [];
    for i := 0 to size
      invariant |instructors| == i
      invariant forall k :: 0 <= k < i ==> instructors[k].id == k && instructors[k].code == names(k)
    {
      instructors := instructors + [Instructor(i, names(i))];
    }
  }

  /** The code starts with one of the fifteen subject names. */
  predicate HasSubject(code: string) {
    exists b :: 0 <= b < |SESSION_CODES| && SESSION_CODES[b] <= code
  }

  /** The fifteen subjects are different names. */
  lemma SubjectsDistinct()
    ensures Distinct(SESSION_CODES)
  {
  }

  /** No two values of the suffix generator coincide. */
  ghost predicate Injective(suffixes: nat -> string) {
    forall a: nat, b: nat :: a != b ==> suffixes(a) != suffixes(b)
  }

  /** The suffix loop for one session: suffixes are tried in generator order and the
      first one that makes the code unused wins. */
  method UnusedCode(subject: string, used: set<string>, suffixes: nat -> string) returns (code: string, k: nat)
    requires Injective(suffixes)
    ensures code == subject + suffixes(k) && code !in used
    ensures forall j: nat :: j < k ==> subject + suffixes(j) in used
  {
    k := 0;
    while subject + suffixes(k) in used
      invariant forall j: nat :: j < k ==> subject + suffixes(j) in used
      invariant k <= |used|
      decreases |used| - k
    {
      k := k + 1;
      CodesBelow(subject, suffixes, used, k);
    }
    code := subject + suffixes(k);
  }

  /** Distinct suffixes give distinct codes, so at most |used| of them can be in use. */
  lemma CodesBelow(subject: string, suffixes: nat -> string, used: set<string>, k: nat)
    requires Injective(suffixes)
    requires forall j: nat :: j < k ==> subject + suffixes(j) in used
    ensures k <= |used|
  {
    CodeSetSize(subject, suffixes, k);
    SubsetSize(CodeSet(subject, suffixes, k), used);
  }

  /** The codes built from the first k suffixes. */
  ghost function CodeSet(subject: string, suffixes: nat -> string, k: nat): set<string> {
    set j: nat | j < k :: subject + suffixes(j)
  }

  /** The first k codes are k different strings. */
  lemma {:induction false} CodeSetSize(subject: string, suffixes: nat -> string, k: nat)
    requires Injective(suffixes)
    ensures |CodeSet(subject, suffixes, k)| == k
  {
    if k > 0 {
      CodeSetSize(subject, suffixes, k - 1);
      var next := subject + suffixes(k - 1);
      var before := CodeSet(subject, suffixes, k - 1);
      forall j: nat | j < k - 1 ensures subject + suffixes(j) != next {
        assert suffixes(j) == (subject + suffixes(j))[|subject|..];
        assert suffixes(k - 1) == next[|subject|..];
      }
      assert CodeSet(subject, suffixes, k) == before + {next};
    }
  }

  lemma SubsetSize<T>(a: set<T>, b: set<T>)
    requires a <= b
    ensures |a| <= |b|
  {
    if a != {} {
      var x :| x in a;
      SubsetSize(a - {x}, b - {x});
    }
  }

  /** Element i of two round-robin passes over the list, and a random element after them. */
  method RoundRobinThenRandom<T>(list: seq<T>, i: nat, random: Random) returns (x: T)
    requires |list| > 0
    modifies random`calls
    ensures x == if i < 2 * |list| then list[i % |list|] else list[random.source(old(random.calls)) % |list|]
    ensures random.calls == old(random.calls) + (if i < 2 * |list| then 0 else 1)
  {
    if i < 2 * |list| {
      x := list[i % |list|];
    } else {
      var r := random.NextInt(|list|);
      x := list[r];
    }
  }

  /** Session i of a list of `size` as the session loop creates it: id i, no meetings,
      one minimum working day and no students yet; its subject is round robin for the
      first thirty sessions, and below fifteen sessions the code is the bare subject; its
      instructor is round robin for two passes over the instructors. */
  predicate CreatedSession(session: Session, i: int, size: int, instructors: seq<Instructor>)
    reads session
  {
    && NewSession(session, i)
    && session.instructor in instructors
    && (0 <= i < 2 * |instructors| ==> session.instructor == instructors[i % |instructors|])
    && HasSubject(session.code)
    && (0 <= i < 2 * |SESSION_CODES| ==> SESSION_CODES[i % |SESSION_CODES|] <= session.code)
    && (0 <= i < size < |SESSION_CODES| ==> session.code == SESSION_CODES[i])
  }

  /** One step of the session loop. From fifteen sessions on the code gets the first
      suffix that keeps it out of the codes used so far. */
  method CreateSession(i: nat, size: int, instructors: seq<Instructor>, random: Random,
                       suffixes: nat -> string, codeSet: set<string>)
    returns (session: Session)
    requires i < size && |instructors| > 0 && Injective(suffixes)
    modifies random`calls
    ensures fresh(session) && CreatedSession(session, i, size, instructors)
    ensures size >= |SESSION_CODES| ==> session.code !in codeSet
    ensures random.calls == old(random.calls) + (if i < 2 * |SESSION_CODES| then 0 else 1)
                                              + (if i < 2 * |instructors| then 0 else 1)
  {
    var subject := RoundRobinThenRandom(SESSION_CODES, i, random);
    var code := subject;
    if size >= |SESSION_CODES| {
      var suffix;
      code, suffix := UnusedCode(subject, codeSet, suffixes);
    } else {
      SmallRemainder(i, |SESSION_CODES|);
    }
    assert subject <= code;
    var instructor := RoundRobinThenRandom(instructors, i, random);
    session := new Session(i, code, instructor, 0, 1, 0);
  }

  /** The session loop. No two sessions share a code: below fifteen sessions the codes are
      different subjects, and from fifteen on the suffixes keep them apart. */
  method CreateSessionList(size: int, instructors: seq<Instructor>, random: Random, suffixes: nat -> string)
    returns (sessions: seq<Session>)
    requires size >= 0 && (size > 0 ==> |instructors| > 0)
    requires Injective(suffixes)
    modifies random`calls
    ensures |sessions| == size
    ensures forall i :: 0 <= i < size ==> fresh(sessions[i]) && CreatedSession(sessions[i], i, size, instructors)
    ensures forall a, b :: 0 <= a < b < size ==> sessions[a].code != sessions[b].code
    ensures random.calls == old(random.calls) + Excess(size, 2 * |SESSION_CODES|) + Excess(size, 2 * |instructors|)
  {
    sessions := [];
    var codeSet: set<string> := {};
    for i := 0 to size
      invariant |sessions| == i
      invariant forall k :: 0 <= k < i ==> fresh(sessions[k]) && CreatedSession(sessions[k], k, size, instructors)
      invariant size >= |SESSION_CODES| ==> codeSet == set k | 0 <= k < i :: sessions[k].code
      invariant forall a, b :: 0 <= a < b < i ==> sessions[a].code != sessions[b].code
      invariant random.calls == old(random.calls) + Excess(i, 2 * |SESSION_CODES|) + Excess(i, 2 * |instructors|)
    {
      var session := CreateSession(i, size, instructors, random, suffixes, codeSet);
      ghost var previous := sessions;
      sessions := sessions + [session];
      if size < |SESSION_CODES| {
        SubjectsDistinct();
      } else {
        codeSet := codeSet + {session.code};
        assert codeSet == set k | 0 <= k < i + 1 :: sessions[k].code by {
          assert forall k :: 0 <= k < i ==> sessions[k] == previous[k];
          assert sessions[i] == session;
        }
      }
    }
  }

  lemma SmallRemainder(i: int, n: int)
    requires 0 <= i < n
    ensures i % n == i
  {
  }

  /** A session as the session loop creates it. */
  predicate NewSession(session: Session, i: int)
    reads session
  {
    && session.id == i && session.meetingSize == 0 && session.minWorkingDaySize == 1
    && session.studentSize == 0 && session.curriculumList == []
  }

  // ---------------------------------------------------------------------------
  // Meetings

  /** How many of the meetings belong to the session. */
  function CountOf(meetings: seq<Meeting>, session: Session): (n: nat)
    ensures n <= |meetings|
  {
    if meetings == [] then 0
    else CountOf(meetings[..|meetings| - 1], session) + (if meetings[|meetings| - 1].session == session then 1 else 0)
  }

  /** Meeting i has id i, is not locked, and has no period and no room yet. */
  predicate NewMeeting(meeting: Meeting, i: int)
    reads meeting
  {
    meeting.id == i && !meeting.locked && meeting.period == None && meeting.room == None
  }

  /** Meeting i of the meeting loop: new, and in session i round robin for two passes
      over the sessions (a random session after that). */
  predicate PlacedMeeting(meeting: Meeting, i: int, sessions: seq<Session>)
    reads meeting
  {
    && NewMeeting(meeting, i)
    && meeting.session in sessions
    && (0 <= i < 2 * |sessions| ==> meeting.session == sessions[i % |sessions|])
  }

  /** One step of the meeting loop: the meeting's index within its session is the number
      of meetings the session had, which then grows by one. */
  method CreateMeeting(i: nat, sessions: seq<Session>, random: Random) returns (meeting: Meeting)
    requires |sessions| > 0
    modifies random`calls, sessions`meetingSize
    ensures fresh(meeting) && PlacedMeeting(meeting, i, sessions)
    ensures forall s :: s in sessions && meeting.session == s ==> meeting.meetingIndexInSession == old(s.meetingSize)
    ensures forall s :: s in sessions ==> s.meetingSize == old(s.meetingSize) + (if s == meeting.session then 1 else 0)
    ensures random.calls == old(random.calls) + (if i < 2 * |sessions| then 0 else 1)
  {
    var session := RoundRobinThenRandom(sessions, i, random);
    assert session in sessions;
    meeting := new Meeting(i, session, session.meetingSize);
    session.meetingSize := session.meetingSize + 1;
  }

  /** The meeting loop. Each session's meeting count grows by the number of its meetings,
      and each meeting's index counts the session's meetings before it. */
  method CreateMeetingList(size: int, sessions: seq<Session>, random: Random) returns (meetings: seq<Meeting>)
    requires size >= 0 && (size > 0 ==> |sessions| > 0)
    modifies random`calls, sessions`meetingSize
    ensures |meetings| == size
    ensures forall i :: 0 <= i < size ==> fresh(meetings[i]) && PlacedMeeting(meetings[i], i, sessions)
    ensures forall i, s :: 0 <= i < size && s in sessions && meetings[i].session == s ==>
      meetings[i].meetingIndexInSession == old(s.meetingSize) + CountOf(meetings[..i], s)
    ensures forall s :: s in sessions ==> s.meetingSize == old(s.meetingSize) + CountOf(meetings, s)
    ensures random.calls == old(random.calls) + Excess(size, 2 * |sessions|)
  {
    meetings := [];
    for i := 0 to size
      invariant |meetings| == i
      invariant forall k :: 0 <= k < i ==> fresh(meetings[k]) && PlacedMeeting(meetings[k], k, sessions)
      invariant forall k, s :: 0 <= k < i && s in sessions && meetings[k].session == s ==>
        meetings[k].meetingIndexInSession == old(s.meetingSize) + CountOf(meetings[..k], s)
      invariant forall s :: s in sessions ==> s.meetingSize == old(s.meetingSize) + CountOf(meetings, s)
      invariant random.calls == old(random.calls) + Excess(i, 2 * |sessions|)
    {
      var meeting := CreateMeeting(i, sessions, random);
      PrefixesKept(meetings, meeting);
      meetings := meetings + [meeting];
    }
  }

  /** Appending keeps every prefix. */
  lemma PrefixesKept<T>(xs: seq<T>, x: T)
    ensures forall k :: 0 <= k <= |xs| ==> (xs + [x])[..k] == xs[..k]
  {
    forall k | 0 <= k <= |xs|
      ensures (xs + [x])[..k] == xs[..k]
    {
      assert (xs + [x])[..k] == xs[..k];
    }
  }

  /** Later meetings of a session have larger indexes. */
  lemma {:induction false} CountOfGrows(meetings: seq<Meeting>, i: nat, j: nat)
    requires i < j <= |meetings|
    ensures CountOf(meetings[..i], meetings[i].session) < CountOf(meetings[..j], meetings[i].session)
  {
    if j == i + 1 {
      assert meetings[..j][..i] == meetings[..i];
    } else {
      CountOfGrows(meetings, i, j - 1);
      assert meetings[..j][..j - 1] == meetings[..j - 1];
    }
  }

  /** Every number below the count is the count before some meeting of the session. */
  lemma {:induction false} CountOfReachesAll(meetings: seq<Meeting>, session: Session, x: nat) returns (i: nat)
    requires x < CountOf(meetings, session)
    ensures i < |meetings| && meetings[i].session == session && CountOf(meetings[..i], session) == x
  {
    var n := |meetings| - 1;
    var front := meetings[..n];
    if x < CountOf(front, session) {
      i := CountOfReachesAll(front, session, x);
      assert meetings[..i] == front[..i];
    } else {
      i := n;
    }
  }

  /** When the sessions start with no meetings, the indexes of one session's meetings
      strictly increase along the meeting list, so no two coincide. */
  lemma MeetingIndexesIncrease(meetings: seq<Meeting>, sessions: seq<Session>)
    requires forall i :: 0 <= i < |meetings| ==> meetings[i].session in sessions
    requires forall i, s :: 0 <= i < |meetings| && s in sessions && meetings[i].session == s ==>
      meetings[i].meetingIndexInSession == CountOf(meetings[..i], s)
    ensures forall i, j :: 0 <= i < j < |meetings| && meetings[i].session == meetings[j].session ==>
      meetings[i].meetingIndexInSession < meetings[j].meetingIndexInSession
  {
    forall i, j | 0 <= i < j < |meetings| && meetings[i].session == meetings[j].session
      ensures meetings[i].meetingIndexInSession < meetings[j].meetingIndexInSession
    {
      CountOfGrows(meetings, i, j);
    }
  }

  /** ... and they leave no gap: every index below the session's count is taken. */
  lemma MeetingIndexesCover(meetings: seq<Meeting>, sessions: seq<Session>, s: Session, x: nat) returns (i: nat)
    requires forall i, s :: 0 <= i < |meetings| && s in sessions && meetings[i].session == s ==>
      meetings[i].meetingIndexInSession == CountOf(meetings[..i], s)
    requires s in sessions && x < CountOf(meetings, s)
    ensures i < |meetings| && meetings[i].session == s && meetings[i].meetingIndexInSession == x
  {
    i := CountOfReachesAll(meetings, s, x);
  }

  // ---------------------------------------------------------------------------
  // Rooms

  /** Room i is numbered i + 1 on the first floor block of fifty, then 100 more per block
      (i is a list index, so Java's division is plain division here). */
  function RoomNumber(i: nat): int {
    Wrap32(i / 50 * 100 + 1 + i)
  }

  function RoomCode(i: nat): string {
    "R" + IntToString(RoomNumber(i))
  }

  /** The capacity option picked by the given draw. */
  function Capacity(draw: nat): int {
    ROOM_CAPACITY_OPTIONS[draw % |ROOM_CAPACITY_OPTIONS|]
  }

  /** Room i: its id, the code of its number, and the capacity picked by the given draw. */
  predicate DrawnRoom(room: Room, i: nat, draw: nat) {
    room.id == i && room.code == RoomCode(i) && room.capacity == Capacity(draw)
  }

  /** One step of the room loop: one draw among the capacity options. */
  method CreateRoom(i: nat, random: Random) returns (room: Room)
    modifies random`calls
    ensures DrawnRoom(room, i, random.source(old(random.calls)))
    ensures random.calls == old(random.calls) + 1
  {
    var option := random.NextInt(|ROOM_CAPACITY_OPTIONS|);
    room := Room(i, RoomCode(i), ROOM_CAPACITY_OPTIONS[option]);
  }

  /** Room i has id i, the code of its number, and a random capacity from the options. */
  method CreateRoomList(size: int, random: Random) returns (rooms: seq<Room>)
    requires size >= 0
    modifies random`calls
    ensures |rooms| == size
    ensures forall i :: 0 <= i < size ==> DrawnRoom(rooms[i], i, random.source(old(random.calls) + i))
    ensures random.calls == old(random.calls) + size
  {
    rooms := [];
    ghost var start := random.calls;
    for i := 0 to size
      invariant |rooms| == i
      invariant forall k :: 0 <= k < i ==> DrawnRoom(rooms[k], k, random.source(start + k))
      invariant random.calls == start + i
    {
      var room := CreateRoom(i, random);
      rooms := rooms + [room];
    }
  }

  /** Every capacity is one of the options, so at least 20. */
  lemma CapacitiesAtLeast20()
    ensures forall draw: nat :: Capacity(draw) in ROOM_CAPACITY_OPTIONS && Capacity(draw) >= 20
  {
  }

  /** Room numbers come in blocks of fifty: 1-50, 151-200, 301-350, ... */
  lemma RoomNumberBlocks(i: int)
    requires 0 <= i < 0x2000_0000
    ensures RoomNumber(i) == 150 * (i / 50) + i % 50 + 1
  {
  }

  /** Room numbers grow with the room index. */
  lemma RoomNumbersIncrease(i: int, j: int)
    requires 0 <= i < j < 0x2000_0000
    ensures RoomNumber(i) < RoomNumber(j)
  {
    RoomNumberBlocks(i);
    RoomNumberBlocks(j);
    var qi, qj := i / 50, j / 50;
    assert i == 50 * qi + i % 50 && j == 50 * qj + j % 50;
    if qi < qj {
      assert 150 * qi + 150 <= 150 * qj;
    } else {
      assert qi == qj;
    }
  }

  /** No two rooms share a code. */
  lemma RoomCodesDistinct(i: int, j: int)
    requires 0 <= i < j < 0x2000_0000
    ensures RoomCode(i) != RoomCode(j)
  {
    RoomNumbersIncrease(i, j);
    if RoomCode(i) == RoomCode(j) {
      assert IntToString(RoomNumber(i)) == RoomCode(i)[1..];
      assert IntToString(RoomNumber(j)) == RoomCode(j)[1..];
      IntToStringInjective(RoomNumber(i), RoomNumber(j));
    }
  }

  // ---------------------------------------------------------------------------
  // Curricula

  /** The largest room capacity. */
  function MaxCapacity(rooms: seq<Room>): (c: int)
    requires |rooms| > 0
    ensures forall k :: 0 <= k < |rooms| ==> rooms[k].capacity <= c
    ensures exists k :: 0 <= k < |rooms| && rooms[k].capacity == c
  {
    if |rooms| == 1 then rooms[0].capacity
    else
      var front := MaxCapacity(rooms[..|rooms| - 1]);
      var last := rooms[|rooms| - 1].capacity;
      if last > front then last else front
  }

  /** The sessions that can take `studentSize` more students and stay below the capacity,
      in list order. */
  function Eligible(sessions: seq<Session>, studentSize: int, maxCapacity: int): (r: seq<Session>)
    reads sessions
    ensures forall k :: 0 <= k < |r| ==> r[k] in sessions && r[k].studentSize + studentSize < maxCapacity
    ensures forall k :: 0 <= k < |sessions| && sessions[k].studentSize + studentSize < maxCapacity ==> sessions[k] in r
    ensures Distinct(sessions) ==> Distinct(r)
  {
    if sessions == [] then []
    else
      var front := Eligible(sessions[..|sessions| - 1], studentSize, maxCapacity);
      var last := sessions[|sessions| - 1];
      front + (if last.studentSize + studentSize < maxCapacity then [last] else [])
  }

  predicate Distinct<T(==)>(s: seq<T>) {
    forall a, b :: 0 <= a < b < |s| ==> s[a] != s[b]
  }

  function Swap<T>(s: seq<T>, i: nat, j: nat): seq<T>
    requires i < |s| && j < |s|
  {
    s[i := s[j]][j := s[i]]
  }

  /** Collections.shuffle: for i from the length down to 2, position i - 1 is swapped with
      a random position below i; `call` is the index of the next draw. */
  function FisherYates<T>(s: seq<T>, i: nat, source: nat -> nat, call: nat): (r: seq<T>)
    requires i <= |s|
    ensures |r| == |s|
    decreases i
  {
    if i <= 1 then s else FisherYates(Swap(s, i - 1, source(call) % i), i - 1, source, call + 1)
  }

  /** The shuffle is a permutation. */
  lemma {:induction false} FisherYatesPermutes<T>(s: seq<T>, i: nat, source: nat -> nat, call: nat)
    requires i <= |s|
    ensures multiset(FisherYates(s, i, source, call)) == multiset(s)
    decreases i
  {
    if i > 1 {
      var t := Swap(s, i - 1, source(call) % i);
      SwapPermutes(s, i - 1, source(call) % i);
      FisherYatesPermutes(t, i - 1, source, call + 1);
    }
  }

  lemma SwapPermutes<T>(s: seq<T>, i: nat, j: nat)
    requires i < |s| && j < |s|
    ensures multiset(Swap(s, i, j)) == multiset(s) && |Swap(s, i, j)| == |s|
  {
  }

  /** A permutation of a list without repeats has none either. */
  lemma PermutationKeepsDistinct<T>(s: seq<T>, t: seq<T>)
    requires Distinct(s) && multiset(s) == multiset(t)
    ensures Distinct(t)
  {
    forall a, b | 0 <= a < b < |t| ensures t[a] != t[b] {
      if t[a] == t[b] {
        var x := t[a];
        assert t == t[..b] + [t[b]] + t[b + 1..];
        assert x in multiset(t[..b]);
        assert multiset(t)[x] >= 2;
        DistinctOnce(s, x);
        assert false;
      }
    }
  }

  lemma {:induction false} DistinctOnce<T>(s: seq<T>, x: T)
    requires Distinct(s)
    ensures multiset(s)[x] <= 1
  {
    if s != [] {
      var front := s[..|s| - 1];
      assert s == front + [s[|s| - 1]];
      DistinctOnce(front, x);
      if s[|s| - 1] == x {
        assert x !in front;
      }
    }
  }

  /** Collections.shuffle over the random source. */
  method Shuffle<T>(list: seq<T>, random: Random) returns (shuffled: seq<T>)
    modifies random`calls
    ensures |shuffled| == |list|
    ensures shuffled == FisherYates(list, |list|, random.source, old(random.calls))
    ensures multiset(shuffled) == multiset(list)
    ensures random.calls == old(random.calls) + Excess(|list|, 1)
  {
    shuffled := list;
    var i := |list|;
    while i > 1
      invariant 0 <= i <= |list| == |shuffled|
      invariant FisherYates(shuffled, i, random.source, random.calls) == FisherYates(list, |list|, random.source, old(random.calls))
      invariant random.calls == old(random.calls) + (|list| - i)
      invariant |list| > 0 ==> i >= 1
    {
      var j := random.NextInt(i);
      shuffled := Swap(shuffled, i - 1, j);
      i := i - 1;
    }
    FisherYatesPermutes(list, |list|, random.source, old(random.calls));
  }

  /** The meetings of the sessions, summed. */
  function MeetingCount(sessions: seq<Session>): int
    reads sessions`meetingSize
  {
    if sessions == [] then 0 else MeetingCount(sessions[..|sessions| - 1]) + sessions[|sessions| - 1].meetingSize
  }

  /** The first `joined` sessions of `order` are the longest prefix whose meetings add up
      to at most MAX_CURRICULUM_MEETINGS: every shorter prefix stays within it, and one
      more session would pass it. */
  predicate LongestPrefixWithin(order: seq<Session>, joined: nat)
    reads order`meetingSize
  {
    && joined <= |order|
    && (forall m :: 0 < m <= joined ==> MeetingCount(order[..m]) <= MAX_CURRICULUM_MEETINGS)
    && (joined < |order| ==> MeetingCount(order[..joined + 1]) > MAX_CURRICULUM_MEETINGS)
  }

  /** The join loop of one curriculum: the shuffled sessions join in order, each adding
      its meetings to a running count, until the count would pass the number of periods;
      a session that joins gets the curriculum and its students. */
  method JoinCurriculum(curriculum: Curriculum, studentSize: int, order: seq<Session>)
    returns (joined: nat)
    requires Distinct(order)
    modifies order`curriculumList, order`studentSize
    ensures joined <= |order| && old(LongestPrefixWithin(order, joined))
    ensures forall k :: 0 <= k < |order| ==> JoinedIf(order[k], k < joined, old(order[k].curriculumList),
                                                      old(order[k].studentSize), curriculum, studentSize)
  {
    joined := 0;
    var meetingCount := 0;
    while joined < |order|
      invariant joined <= |order|
      invariant meetingCount == old(MeetingCount(order[..joined]))
      invariant forall m :: 0 < m <= joined ==> old(MeetingCount(order[..m])) <= MAX_CURRICULUM_MEETINGS
      invariant forall k :: 0 <= k < |order| ==> JoinedIf(order[k], k < joined, old(order[k].curriculumList),
                                                          old(order[k].studentSize), curriculum, studentSize)
    {
      var session := order[joined];
      assert order[..joined + 1] == order[..joined] + [session];
      assert session.meetingSize == old(session.meetingSize);
      meetingCount := meetingCount + session.meetingSize;
      if meetingCount > MAX_CURRICULUM_MEETINGS {
        break;
      }
      Join(session, curriculum, studentSize);
      joined := joined + 1;
    }
  }

  /** The session has the curriculum and its students added when it joined, and is as it
      was otherwise. */
  predicate JoinedIf(session: Session, joined: bool, list: seq<Curriculum>, students: int,
                     curriculum: Curriculum, studentSize: int)
    reads session
  {
    if joined then session.curriculumList == list + [curriculum] && session.studentSize == students + studentSize
    else session.curriculumList == list && session.studentSize == students
  }

  /** JoinedIf, and a session that joined stays below the capacity. */
  predicate JoinedBelow(session: Session, joined: bool, list: seq<Curriculum>, students: int,
                        curriculum: Curriculum, studentSize: int, maxCapacity: int)
    reads session
  {
    JoinedIf(session, joined, list, students, curriculum, studentSize) && (joined ==> session.studentSize < maxCapacity)
  }

  /** A session joins a curriculum: it gets the curriculum and the group's students. */
  method Join(session: Session, curriculum: Curriculum, studentSize: int)
    modifies session`curriculumList, session`studentSize
    ensures session.curriculumList == old(session.curriculumList) + [curriculum]
    ensures session.studentSize == old(session.studentSize) + studentSize
  {
    session.curriculumList := session.curriculumList + [curriculum];
    session.studentSize := session.studentSize + studentSize;
  }

  /** Curricula in strictly increasing id order, each the curriculum its id names. */
  predicate AscendingIn(cs: seq<Curriculum>, curricula: seq<Curriculum>) {
    && (forall k :: 0 <= k < |cs| ==> 0 <= cs[k].id < |curricula| && curricula[cs[k].id] == cs[k])
    && (forall a, b :: 0 <= a < b < |cs| ==> cs[a].id < cs[b].id)
  }

  /** The group sizes of the curricula, summed. */
  function SizeSum(cs: seq<Curriculum>, sizes: seq<int>): int
    requires forall k :: 0 <= k < |cs| ==> 0 <= cs[k].id < |sizes|
  {
    if cs == [] then 0 else SizeSum(cs[..|cs| - 1], sizes) + sizes[cs[|cs| - 1].id]
  }

  /** The curricula appended to a list since it was `before`. */
  function Added(list: seq<Curriculum>, before: seq<Curriculum>): seq<Curriculum> {
    if |before| <= |list| then list[|before|..] else []
  }

  /** What the curriculum loop does to one session: it appends the curricula the session
      joined, in creation order and each once, and adds their group sizes to its students. */
  predicate Joined(list: seq<Curriculum>, students: int, before: seq<Curriculum>, studentsBefore: int,
                   curricula: seq<Curriculum>, sizes: seq<int>)
  {
    && |curricula| == |sizes|
    && before <= list
    && AscendingIn(list[|before|..], curricula)
    && students == studentsBefore + SizeSum(list[|before|..], sizes)
  }

  lemma {:induction false} SizeSumExtend(cs: seq<Curriculum>, sizes: seq<int>, g: int)
    requires forall k :: 0 <= k < |cs| ==> 0 <= cs[k].id < |sizes|
    ensures SizeSum(cs, sizes + [g]) == SizeSum(cs, sizes)
  {
    if cs != [] {
      SizeSumExtend(cs[..|cs| - 1], sizes, g);
    }
  }

  /** A session that joins the new curriculum. */
  lemma JoinedExtend(list: seq<Curriculum>, students: int, before: seq<Curriculum>, studentsBefore: int,
                     curricula: seq<Curriculum>, sizes: seq<int>, c: Curriculum, g: int)
    requires Joined(list, students, before, studentsBefore, curricula, sizes)
    requires c.id == |curricula|
    ensures Joined(list + [c], students + g, before, studentsBefore, curricula + [c], sizes + [g])
  {
    var added := list[|before|..];
    assert (list + [c])[|before|..] == added + [c];
    assert (added + [c])[..|added|] == added;
    SizeSumExtend(added, sizes, g);
  }

  /** A session that does not join the new curriculum. */
  lemma JoinedKeep(list: seq<Curriculum>, students: int, before: seq<Curriculum>, studentsBefore: int,
                   curricula: seq<Curriculum>, sizes: seq<int>, c: Curriculum, g: int)
    requires Joined(list, students, before, studentsBefore, curricula, sizes)
    ensures Joined(list, students, before, studentsBefore, curricula + [c], sizes + [g])
  {
    SizeSumExtend(list[|before|..], sizes, g);
  }

  /** The sessions that could take `studentSize` more students and stay below the
      capacity, shuffled. */
  method ShuffledCandidates(studentSize: int, maxCapacity: int, sessions: seq<Session>, random: Random)
    returns (order: seq<Session>)
    requires Distinct(sessions)
    modifies random`calls
    ensures |order| == |Eligible(sessions, studentSize, maxCapacity)|
    ensures order == FisherYates(Eligible(sessions, studentSize, maxCapacity), |order|, random.source, old(random.calls))
    ensures random.calls == old(random.calls) + Excess(|order|, 1)
    ensures multiset(order) == multiset(Eligible(sessions, studentSize, maxCapacity))
    ensures Distinct(order)
    ensures forall k :: 0 <= k < |order| ==> order[k] in sessions && order[k].studentSize + studentSize < maxCapacity
  {
    var eligible := Eligible(sessions, studentSize, maxCapacity);
    order := Shuffle(eligible, random);
    PermutationKeepsDistinct(eligible, order);
    forall k | 0 <= k < |order|
      ensures order[k] in sessions && order[k].studentSize + studentSize < maxCapacity
    {
      assert order[k] in multiset(eligible);
    }
  }

  /** The size of a new curriculum group: 5 plus two draws below 10. */
  method DrawGroupSize(random: Random) returns (studentSize: int)
    modifies random`calls
    ensures studentSize == 5 + random.source(old(random.calls)) % 10 + random.source(old(random.calls) + 1) % 10
    ensures 5 <= studentSize <= 23
    ensures random.calls == old(random.calls) + 2
  {
    var first := random.NextInt(10);
    var second := random.NextInt(10);
    studentSize := 5 + first + second;
  }

  /** One step of the curriculum loop: the group size is 5 plus two draws below 10; the
      sessions that can take that many more students and stay below the capacity are
      shuffled into `order`, and its first `joined` sessions join: the longest prefix
      whose meetings add up to at most PERIOD_LIST_SIZE. Every other session is left as
      it was. */
  method AddCurriculum(curriculum: Curriculum, maxCapacity: int, sessions: seq<Session>, random: Random)
    returns (studentSize: int, order: seq<Session>, joined: nat)
    requires Distinct(sessions)
    modifies random`calls, sessions`curriculumList, sessions`studentSize
    ensures studentSize == 5 + random.source(old(random.calls)) % 10 + random.source(old(random.calls) + 1) % 10
    ensures 5 <= studentSize <= 23
    ensures Distinct(order)
    ensures forall k :: 0 <= k < |order| ==> order[k] in sessions && old(order[k].studentSize) + studentSize < maxCapacity
    ensures random.calls == old(random.calls) + 2 + Excess(|order|, 1)
    ensures joined <= |order| && LongestPrefixWithin(order, joined)
    ensures forall k :: 0 <= k < |sessions| ==>
      JoinedBelow(sessions[k], sessions[k] in order[..joined], old(sessions[k].curriculumList), old(sessions[k].studentSize),
                  curriculum, studentSize, maxCapacity)
  {
    studentSize := DrawGroupSize(random);
    order := ShuffledCandidates(studentSize, maxCapacity, sessions, random);
    joined := JoinShuffled(curriculum, studentSize, maxCapacity, sessions, order);
  }

  /** The join loop over the shuffled candidates, seen from the whole session list: the
      sessions of the joining prefix get the curriculum and stay below the capacity, and
      every other session is left as it was. */
  method JoinShuffled(curriculum: Curriculum, studentSize: int, maxCapacity: int, sessions: seq<Session>,
                      order: seq<Session>)
    returns (joined: nat)
    requires Distinct(order)
    requires forall k :: 0 <= k < |order| ==> order[k] in sessions && order[k].studentSize + studentSize < maxCapacity
    modifies sessions`curriculumList, sessions`studentSize
    ensures joined <= |order| && LongestPrefixWithin(order, joined)
    ensures forall k :: 0 <= k < |sessions| ==>
      JoinedBelow(sessions[k], sessions[k] in order[..joined], old(sessions[k].curriculumList), old(sessions[k].studentSize),
                  curriculum, studentSize, maxCapacity)
  {
    joined := JoinCurriculum(curriculum, studentSize, order);
    forall i | 0 <= i < |sessions|
      ensures JoinedBelow(sessions[i], sessions[i] in order[..joined], old(sessions[i].curriculumList),
                          old(sessions[i].studentSize), curriculum, studentSize, maxCapacity)
    {
      var s := sessions[i];
      if s in order {
        var k :| 0 <= k < |order| && order[k] == s;
        assert JoinedIf(s, k < joined, old(s.curriculumList), old(s.studentSize), curriculum, studentSize);
        assert s in order[..joined] <==> k < joined;
      }
    }
  }

  /** The curriculum loop. Curriculum i has id i and a generated group code; each session
      ends up with the curricula it joined appended in creation order, and a session
      below the largest room's capacity stays below it. The sessions holding curriculum i
      are `joiners[i]`, whose meetings add up to at most PERIOD_LIST_SIZE. */
  method CreateCurriculumList(size: int, rooms: seq<Room>, sessions: seq<Session>, random: Random, codes: nat -> string)
    returns (curricula: seq<Curriculum>, ghost groupSizes: seq<int>, ghost joiners: seq<seq<Session>>)
    requires size >= 0 && |rooms| > 0 && Distinct(sessions)
    modifies random`calls, sessions`curriculumList, sessions`studentSize
    ensures |curricula| == size && |groupSizes| == size && |joiners| == size
    ensures forall i :: 0 <= i < size ==> curricula[i] == Curriculum(i, "Group " + codes(i)) && 5 <= groupSizes[i] <= 23
    ensures forall i :: 0 <= i < size ==> GroupWithin(joiners[i], sessions)
    ensures forall k :: 0 <= k < |sessions| ==>
      SessionSoFar(sessions[k], old(sessions[k].curriculumList), old(sessions[k].studentSize), curricula, groupSizes,
                   joiners, MaxCapacity(rooms))
  {
    var maxCapacity := MaxCapacity(rooms);
    ghost var lists0 := seq(|sessions|, k requires 0 <= k < |sessions| reads sessions => sessions[k].curriculumList);
    ghost var students0 := seq(|sessions|, k requires 0 <= k < |sessions| reads sessions => sessions[k].studentSize);
    curricula := [];
    groupSizes := [];
    joiners := [];
    for i := 0 to size
      invariant |curricula| == i && |groupSizes| == i && |joiners| == i
      invariant forall k :: 0 <= k < i ==> curricula[k] == Curriculum(k, "Group " + codes(k)) && 5 <= groupSizes[k] <= 23
      invariant forall k :: 0 <= k < i ==> GroupWithin(joiners[k], sessions)
      invariant forall k :: 0 <= k < |sessions| ==>
        SessionSoFar(sessions[k], lists0[k], students0[k], curricula, groupSizes, joiners, maxCapacity)
    {
      var curriculum, studentSize, group := NextCurriculum(i, codes, maxCapacity, sessions, random, curricula, groupSizes,
                                                           joiners, lists0, students0);
      curricula := curricula + [curriculum];
      groupSizes := groupSizes + [studentSize];
      joiners := joiners + [group];
    }
  }

  /** One pass of the curriculum loop, curriculum i: AddCurriculum, and what it does to
      each session (whose lists and students were `lists0` and `students0` before the
      loop) and to the groups recorded so far. */
  method NextCurriculum(i: nat, codes: nat -> string, maxCapacity: int, sessions: seq<Session>, random: Random,
                        ghost curricula: seq<Curriculum>, ghost groupSizes: seq<int>, ghost joiners: seq<seq<Session>>,
                        ghost lists0: seq<seq<Curriculum>>, ghost students0: seq<int>)
    returns (curriculum: Curriculum, studentSize: int, ghost group: seq<Session>)
    requires Distinct(sessions)
    requires |curricula| == i && |groupSizes| == i && |joiners| == i
    requires forall k :: 0 <= k < i ==> curricula[k].id == k
    requires forall k :: 0 <= k < i ==> GroupWithin(joiners[k], sessions)
    requires |lists0| == |sessions| && |students0| == |sessions|
    requires forall k :: 0 <= k < |sessions| ==>
      SessionSoFar(sessions[k], lists0[k], students0[k], curricula, groupSizes, joiners, maxCapacity)
    modifies random`calls, sessions`curriculumList, sessions`studentSize
    ensures curriculum == Curriculum(i, "Group " + codes(i)) && 5 <= studentSize <= 23
    ensures forall k :: 0 <= k <= i ==> GroupWithin((joiners + [group])[k], sessions)
    ensures forall k :: 0 <= k < |sessions| ==>
      SessionSoFar(sessions[k], lists0[k], students0[k], curricula + [curriculum], groupSizes + [studentSize],
                   joiners + [group], maxCapacity)
  {
    curriculum := Curriculum(i, "Group " + codes(i));
    var order, joined;
    studentSize, order, joined := AddCurriculum(curriculum, maxCapacity, sessions, random);
    group := order[..joined];
    JoinersBound(order, joined, sessions);
    forall k | 0 <= k <= i
      ensures GroupWithin((joiners + [group])[k], sessions)
    {
      if k < i {
        assert (joiners + [group])[k] == joiners[k];
        assert old(GroupWithin(joiners[k], sessions));
      }
    }
    forall k | 0 <= k < |sessions|
      ensures SessionSoFar(sessions[k], lists0[k], students0[k], curricula + [curriculum], groupSizes + [studentSize],
                           joiners + [group], maxCapacity)
    {
      var s := sessions[k];
      JoinStep(s, group, lists0[k], students0[k], old(s.curriculumList), old(s.studentSize),
               s.curriculumList, s.studentSize, curricula, groupSizes, joiners, curriculum, studentSize);
    }
  }





  /** What the curriculum loop has done to one session so far: the curricula it joined
      are appended with their group sizes, it stays below the capacity if it started
      below it, and it is among the joiners of exactly the curricula it holds. */
  predicate SessionSoFar(s: Session, list0: seq<Curriculum>, students0: int, curricula: seq<Curriculum>,
                         sizes: seq<int>, joiners: seq<seq<Session>>, maxCapacity: int)
    reads s
  {
    && Joined(s.curriculumList, s.studentSize, list0, students0, curricula, sizes)
    && (students0 < maxCapacity ==> s.studentSize < maxCapacity)
    && JoinersMatch(s, joiners, curricula, s.curriculumList, list0)
  }

  /** For each curriculum k so far, the session is among its joiners exactly when the
      curriculum is among those appended to the session's list since `before`. */
  predicate JoinersMatch(s: Session, joiners: seq<seq<Session>>, curricula: seq<Curriculum>,
                         list: seq<Curriculum>, before: seq<Curriculum>)
  {
    forall k :: 0 <= k < |joiners| && k < |curricula| ==> (s in joiners[k] <==> curricula[k] in Added(list, before))
  }

  /** One session through one step of the curriculum loop: joining the new curriculum,
      or not, keeps both what its list holds and who holds what in step. */
  lemma JoinStep(s: Session, group: seq<Session>, list0: seq<Curriculum>, students0: int,
                 listStep: seq<Curriculum>, studentsStep: int, list: seq<Curriculum>, students: int,
                 curricula: seq<Curriculum>, sizes: seq<int>, joiners: seq<seq<Session>>, c: Curriculum, g: int)
    requires Joined(listStep, studentsStep, list0, students0, curricula, sizes)
    requires |joiners| == |curricula| && JoinersMatch(s, joiners, curricula, listStep, list0)
    requires c.id == |curricula| && forall k :: 0 <= k < |curricula| ==> curricula[k].id == k
    requires if s in group then list == listStep + [c] && students == studentsStep + g
             else list == listStep && students == studentsStep
    ensures Joined(list, students, list0, students0, curricula + [c], sizes + [g])
    ensures JoinersMatch(s, joiners + [group], curricula + [c], list, list0)
  {
    var added := Added(listStep, list0);
    assert forall x :: x in added ==> x.id < |curricula|;
    if s in group {
      JoinedExtend(listStep, studentsStep, list0, students0, curricula, sizes, c, g);
      assert Added(list, list0) == added + [c];
    } else {
      JoinedKeep(listStep, studentsStep, list0, students0, curricula, sizes, c, g);
    }
    forall k | 0 <= k < |joiners| + 1
      ensures s in (joiners + [group])[k] <==> (curricula + [c])[k] in Added(list, list0)
    {
      if k < |joiners| {
        assert (curricula + [c])[k] == curricula[k] != c;
        assert (joiners + [group])[k] == joiners[k];
      }
    }
  }

  /** Sessions of the list, without repeats. */
  predicate GroupOf(group: seq<Session>, sessions: seq<Session>) {
    Distinct(group) && forall j :: 0 <= j < |group| ==> group[j] in sessions
  }

  /** A curriculum's group: sessions of the list, without repeats, with at most
      PERIOD_LIST_SIZE meetings between them. */
  predicate GroupWithin(group: seq<Session>, sessions: seq<Session>)
    reads group`meetingSize
  {
    GroupOf(group, sessions) && MeetingCount(group) <= PERIOD_LIST_SIZE
  }

  /** The joiners of one curriculum, a prefix of the shuffled sessions, form a group
      within the period count. */
  lemma JoinersBound(order: seq<Session>, joined: nat, sessions: seq<Session>)
    requires LongestPrefixWithin(order, joined) && Distinct(order)
    requires forall k :: 0 <= k < |order| ==> order[k] in sessions
    ensures GroupWithin(order[..joined], sessions)
  {
    if joined == 0 {
      assert order[..joined] == [];
    }
  }

  // ---------------------------------------------------------------------------
  // Unavailable-period penalties

  /** Penalty i is on session i, in a random period. */
  method CreateUnavailablePeriodPenaltyList(sessions: seq<Session>, periods: seq<Period>, random: Random)
    returns (penalties: seq<UnavailablePeriodPenalty>)
    requires |sessions| > 0 ==> |periods| > 0
    modifies random`calls
    ensures |penalties| == |sessions|
    ensures forall i :: 0 <= i < |sessions| ==>
      && penalties[i].id == i && penalties[i].session == sessions[i]
      && penalties[i].period == periods[random.source(old(random.calls) + i) % |periods|]
    ensures random.calls == old(random.calls) + |sessions|
  {
    penalties := [];
    for i := 0 to |sessions|
      invariant |penalties| == i
      invariant forall k :: 0 <= k < i ==>
        && penalties[k].id == k && penalties[k].session == sessions[k]
        && penalties[k].period == periods[random.source(old(random.calls) + k) % |periods|]
      invariant random.calls == old(random.calls) + i
    {
      var p := random.NextInt(|periods|);
      penalties := penalties + [UnavailablePeriodPenalty(i, sessions[i], periods[p])];
    }
  }

  /** With one penalty per session, every session has exactly one penalty and any other
      session none. */
  lemma {:induction false} OnePenaltyPerSession(penalties: seq<UnavailablePeriodPenalty>, sessions: seq<Session>, s: Session)
    requires |penalties| == |sessions| && Distinct(sessions)
    requires forall i :: 0 <= i < |sessions| ==> penalties[i].session == sessions[i]
    ensures MeetingDifficulty.PenaltyCount(penalties, s) == if s in sessions then 1 else 0
  {
    if sessions != [] {
      var n := |sessions| - 1;
      OnePenaltyPerSession(penalties[..n], sessions[..n], s);
      assert sessions == sessions[..n] + [sessions[n]];
      if s == sessions[n] {
        assert s !in sessions[..n];
      }
    }
  }

  // ---------------------------------------------------------------------------
  // The whole schedule

  /** Days, timeslots and periods: five days of seven timeslots, without Wednesday
      afternoon, each period also listed on its day. */
  method CreateWeek() returns (days: seq<Day>, timeslots: seq<Timeslot>, periods: seq<Period>)
    ensures |days| == DAY_LIST_SIZE
    ensures forall k :: 0 <= k < DAY_LIST_SIZE ==> fresh(days[k]) && days[k].id == k && days[k].dayIndex == k
    ensures timeslots == Importer.Timeslots(TIMESLOT_LIST_SIZE)
    ensures periods == Numbered(Cells(days, timeslots)) && |periods| == PERIOD_LIST_SIZE
    ensures forall k :: 0 <= k < DAY_LIST_SIZE ==> days[k].periodList == PeriodsOn(periods, days[k])
  {
    days := Importer.CreateDays(DAY_LIST_SIZE);
    timeslots := Importer.CreateTimeslots(TIMESLOT_LIST_SIZE);
    assert Distinct(days) by {
      forall a, b | 0 <= a < b < |days| ensures days[a] != days[b] {
        assert days[a].dayIndex != days[b].dayIndex;
      }
    }
    periods := CreatePeriodList(days, timeslots);
    WeekPeriodCount(days);
  }

  /** Instructors, sessions and meetings. Afterwards each session's meeting count is the
      number of its meetings and each meeting's index counts the session's meetings
      before it. */
  method CreateCourses(instructorListSize: int, sessionListSize: int, meetingListSize: int, random: Random,
                       names: nat -> string, suffixes: nat -> string)
    returns (instructors: seq<Instructor>, sessions: seq<Session>, meetings: seq<Meeting>)
    requires instructorListSize >= 0 && sessionListSize >= 0 && meetingListSize >= 0
    requires sessionListSize > 0 ==> instructorListSize > 0
    requires meetingListSize > 0 ==> sessionListSize > 0
    requires Injective(suffixes)
    modifies random`calls
    ensures |instructors| == instructorListSize && |meetings| == meetingListSize
    ensures |sessions| == sessionListSize && Distinct(sessions)
    ensures forall i :: 0 <= i < sessionListSize ==> fresh(sessions[i]) && sessions[i].id == i
    ensures forall s :: s in sessions ==> s.studentSize == 0 && s.curriculumList == []
    ensures forall a, b :: 0 <= a < b < sessionListSize ==> sessions[a].code != sessions[b].code
    ensures forall s :: s in sessions ==> s.meetingSize == CountOf(meetings, s)
    ensures forall i, s :: 0 <= i < meetingListSize && s in sessions && meetings[i].session == s ==>
      meetings[i].meetingIndexInSession == CountOf(meetings[..i], s)
  {
    instructors := CreateInstructorList(instructorListSize, names);
    sessions := CreateSessionList(sessionListSize, instructors, random, suffixes);
    assert Distinct(sessions) by {
      forall a, b | 0 <= a < b < |sessions| ensures sessions[a] != sessions[b] {
        assert sessions[a].id != sessions[b].id;
      }
    }
    assert forall s :: s in sessions ==> s.meetingSize == 0 && s.studentSize == 0 && s.curriculumList == [] by {
      forall s | s in sessions ensures s.meetingSize == 0 && s.studentSize == 0 && s.curriculumList == [] {
        var i :| 0 <= i < |sessions| && sessions[i] == s;
        assert CreatedSession(sessions[i], i, sessionListSize, instructors);
      }
    }
    meetings := CreateMeetingList(meetingListSize, sessions, random);
  }

  /** Rooms, then curricula. Sessions that start without students end below the capacity
      of the largest room. */
  method CreateGroups(roomListSize: int, curriculumListSize: int, sessions: seq<Session>, random: Random,
                      groupCodes: nat -> string)
    returns (rooms: seq<Room>, curricula: seq<Curriculum>)
    requires roomListSize > 0 && curriculumListSize >= 0 && Distinct(sessions)
    requires forall s :: s in sessions ==> s.studentSize == 0
    modifies random`calls, sessions`curriculumList, sessions`studentSize
    ensures |rooms| == roomListSize && |curricula| == curriculumListSize
    ensures forall s :: s in sessions ==> s.studentSize < MaxCapacity(rooms)
  {
    rooms := CreateRoomList(roomListSize, random);
    CapacitiesAtLeast20();
    assert rooms[0].capacity >= 20;
    ghost var groupSizes;
    ghost var joiners;
    curricula, groupSizes, joiners := CreateCurriculumList(curriculumListSize, rooms, sessions, random, groupCodes);
  }

  /** Builds a schedule with the given list sizes. The random source is created here,
      once; `names`, `suffixes` and `groupCodes` are the instructor-name, code-suffix and
      group-code generators. The generator does not name the schedule. */
  method CreateSessionSchedule(instructorListSize: int, curriculumListSize: int, sessionListSize: int,
                               meetingListSize: int, roomListSize: int, source: nat -> nat,
                               names: nat -> string, suffixes: nat -> string, groupCodes: nat -> string)
    returns (schedule: SessionSchedule)
    requires instructorListSize >= 0 && curriculumListSize >= 0 && sessionListSize >= 0 && meetingListSize >= 0
    requires roomListSize > 0
    requires sessionListSize > 0 ==> instructorListSize > 0
    requires meetingListSize > 0 ==> sessionListSize > 0
    requires Injective(suffixes)
    ensures schedule.name == ""
    ensures |schedule.dayList| == DAY_LIST_SIZE
    ensures forall k :: 0 <= k < DAY_LIST_SIZE ==> schedule.dayList[k].id == k && schedule.dayList[k].dayIndex == k
    ensures schedule.timeslotList == Importer.Timeslots(TIMESLOT_LIST_SIZE)
    ensures schedule.periodList == Numbered(Cells(schedule.dayList, schedule.timeslotList))
    ensures |schedule.periodList| == PERIOD_LIST_SIZE
    ensures forall k :: 0 <= k < DAY_LIST_SIZE ==>
      schedule.dayList[k].periodList == PeriodsOn(schedule.periodList, schedule.dayList[k])
    ensures |schedule.instructorList| == instructorListSize
    ensures |schedule.sessionList| == sessionListSize && Distinct(schedule.sessionList)
    ensures forall a, b :: 0 <= a < b < sessionListSize ==> schedule.sessionList[a].code != schedule.sessionList[b].code
    ensures |schedule.meetingList| == meetingListSize
    ensures forall s :: s in schedule.sessionList ==> s.meetingSize == CountOf(schedule.meetingList, s)
    ensures forall i, s :: 0 <= i < meetingListSize && s in schedule.sessionList && schedule.meetingList[i].session == s ==>
      schedule.meetingList[i].meetingIndexInSession == CountOf(schedule.meetingList[..i], s)
    ensures |schedule.roomList| == roomListSize
    ensures |schedule.curriculumList| == curriculumListSize
    ensures forall s :: s in schedule.sessionList ==> s.studentSize < MaxCapacity(schedule.roomList)
    ensures forall s :: s in schedule.sessionList ==>
      MeetingDifficulty.PenaltyCount(schedule.unavailablePeriodPenaltyList, s) == 1
  {
    var random := new Random(source);
    var days, timeslots, periods := CreateWeek();
    var instructors, sessions, meetings := CreateCourses(instructorListSize, sessionListSize, meetingListSize,
                                                         random, names, suffixes);
    var rooms, curricula := CreateGroups(roomListSize, curriculumListSize, sessions, random, groupCodes);
    var penalties := CreateUnavailablePeriodPenaltyList(sessions, periods, random);
    forall s | s in sessions ensures MeetingDifficulty.PenaltyCount(penalties, s) == 1 {
      OnePenaltyPerSession(penalties, sessions, s);
    }
    schedule := SessionSchedule("", instructors, sessions, rooms, days, timeslots, periods, curricula, penalties, meetings);
  }

  /** Derives the list sizes from the meeting count, names the output file after the
      meeting, period and room counts, and builds the schedule. Below 16 meetings there
      would be no room, and from 2^30 meetings on the doubled count overflows. */
  method WriteSessionSchedule(meetingListSize: int, curriculumListSize: int, source: nat -> nat,
                              names: nat -> string, suffixes: nat -> string, groupCodes: nat -> string)
    returns (fileName: string, schedule: SessionSchedule)
    requires 16 <= meetingListSize <= 0x3fff_ffff && curriculumListSize >= 0
    requires Injective(suffixes)
    ensures var z := SizesFor(meetingListSize);
      && fileName == FileName(meetingListSize, PERIOD_LIST_SIZE, z.rooms)
      && |schedule.sessionList| == z.sessions && |schedule.instructorList| == z.instructors
      && |schedule.roomList| == z.rooms && |schedule.meetingList| == meetingListSize
      && |schedule.curriculumList| == curriculumListSize && |schedule.periodList| == PERIOD_LIST_SIZE
    ensures |schedule.roomList| > 0
    ensures forall s :: s in schedule.sessionList ==> s.meetingSize == CountOf(schedule.meetingList, s)
    ensures forall s :: s in schedule.sessionList ==> s.studentSize < MaxCapacity(schedule.roomList)
    ensures forall a, b :: 0 <= a < b < |schedule.sessionList| ==> schedule.sessionList[a].code != schedule.sessionList[b].code
  {
    var z := SizesFor(meetingListSize);
    SizesBounds(meetingListSize);
    assert z.sessions > 0 && z.instructors > 0 && z.rooms > 0;
    fileName := FileName(meetingListSize, PERIOD_LIST_SIZE, z.rooms);
    schedule := CreateSessionSchedule(z.instructors, curriculumListSize, z.sessions, meetingListSize, z.rooms,
                                      source, names, suffixes, groupCodes);
  }
}
