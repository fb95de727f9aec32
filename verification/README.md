# Music academy timetabling, modelled in Dafny

This project models the core of the OptaPlanner music-academy example and proves properties of that model. The example is a curriculum-based course timetable: sessions (courses) with an instructor, a meeting count and a student count; rooms; a grid of periods (day × timeslot); curricula grouping sessions; unavailable-period penalties; and meetings, which are the planning entities that get a period and a room.

The model covers:

- **Importer** (`importer.dfy`). This reads the ITC-2007 curriculum-based course timetabling input. The input is a sequence of lines, each already split into tokens. A `CttReader` class keeps a cursor over the lines. In a fixed order it reads:
  - the seven header lines;
  - the courses, registering each instructor once, by code;
  - the rooms;
  - then builds the period grid and its (day, timeslot) map;
  - the curricula, appending each curriculum to its member sessions;
  - the penalties, checked against the grid;
  - the closing `END.`.

  Finally it creates one meeting per unit of each session's meeting count. Every malformed input is an error value. Each reader method states exactly when it succeeds (an if-and-only-if against predicates on the lines) and what it builds from them.
- **Generator** (`generator.dfy`). This builds unsolved instances:
  - list sizes from the meeting count, and the file name;
  - five days of seven timeslots, without Wednesday afternoon;
  - instructors; sessions with round-robin subjects and unique codes; meetings numbered within their session; rooms;
  - curricula filled from shuffled sessions below the largest room capacity;
  - one penalty per session.

  Its random source, name generators and code-suffix generators are parameters.
- **Meeting difficulty** (`difficulty.dfy`). The sorter weight counts the penalties on the meeting's session. It compares lexicographically over six keys.
- **Session conflict** (`conflict.dfy`). `equals`, `hashCode` and `compareTo` on the (left, right) session pair; the conflict count is ignored.
- **Meeting** (`domain.dfy`), together with the other domain entities. A meeting is a class with its planning-variable setters and derived getters.
- **Different-session swap filter** (`swap_filter.dfy`).
- **Exporter** (`exporter.dfy`). It writes one `<session> r<room> <day> <timeslot>` line per meeting, ending in CRLF.
- **Union move selector** (`union_selector.dfy`), as its unit test fixes it. In ending mode the children's moves are concatenated. In random mode each draw picks a child weighted by its fixed probability weight. Lifecycle events are forwarded once to each child. The test's two scenarios are proved as methods.

`outcomes.dfy` holds the `Option`/`Result` types. `text.dfy` holds the string and integer helpers: Java's `Integer.parseInt` and `String.valueOf` on int, 32-bit wrap-around, and splitting at a separator.

## Model

| member | source | states |
|---|---|---|
| SessionConflicts.Equals | optaplanner-examples/src/main/java/org/optaplanner/examples/musicacademy/domain/solver/SessionConflict.java:54-66 | equals holds exactly when the other object is a conflict that differs at most in its conflictCount |
| SessionConflicts.HashCode | optaplanner-examples/src/main/java/org/optaplanner/examples/musicacademy/domain/solver/SessionConflict.java:69-74 | the hash code is always a 32-bit int |
| SessionConflicts.CompareTo | optaplanner-examples/src/main/java/org/optaplanner/examples/musicacademy/domain/solver/SessionConflict.java:77-82 | compareTo is lexicographic on (left, right): negative exactly when the left sessions compare negative, or compare 0 and the right ones compare negative; positive likewise; 0 exactly when both compare 0 |
| SessionConflicts.EqualsIsEquivalence | optaplanner-examples/src/main/java/org/optaplanner/examples/musicacademy/domain/solver/SessionConflict.java:54-66 | equals is reflexive, false for a non-conflict, symmetric and transitive |
| SessionConflicts.ConflictCountIgnored | optaplanner-examples/src/main/java/org/optaplanner/examples/musicacademy/domain/solver/SessionConflict.java:54-82 | changing conflictCount changes neither equals, hashCode nor compareTo |
| SessionConflicts.HashCodeConsistentWithEquals | optaplanner-examples/src/main/java/org/optaplanner/examples/musicacademy/domain/solver/SessionConflict.java:69-74 | equal conflicts hash equally, and the hash is a 32-bit int |
| SessionConflicts.OrderOfPairMatters | optaplanner-examples/src/main/java/org/optaplanner/examples/musicacademy/domain/solver/SessionConflict.java:59-62 | (x, y) equals (y, x) exactly when x = y |
| SessionConflicts.CompareToConsistentWithEquals | optaplanner-examples/src/main/java/org/optaplanner/examples/musicacademy/domain/solver/SessionConflict.java:77-82 | compareTo is 0 exactly when equals holds (for a total order on sessions) |
| SessionConflicts.CompareToIsTotalOrder | optaplanner-examples/src/main/java/org/optaplanner/examples/musicacademy/domain/solver/SessionConflict.java:77-82 | compareTo is antisymmetric in sign and transitive |
| MeetingDifficulty.PenaltyCount | optaplanner-examples/src/main/java/org/optaplanner/examples/musicacademy/domain/solver/MeetingDifficultyWeightFactory.java:31-36 | the count of penalties on a session is at most the number of penalties |
| MeetingDifficulty.PenaltyCountCountsPositions | optaplanner-examples/src/main/java/org/optaplanner/examples/musicacademy/domain/solver/MeetingDifficultyWeightFactory.java:31-36 | the count equals the number of list positions whose penalty is on the session |
| MeetingDifficulty.CreateSorterWeight | optaplanner-examples/src/main/java/org/optaplanner/examples/musicacademy/domain/solver/MeetingDifficultyWeightFactory.java:29-38 | the loop's counter equals the number of penalties on the meeting's session; the weight keeps the meeting |
| MeetingDifficulty.SortKey | optaplanner-examples/src/main/java/org/optaplanner/examples/musicacademy/domain/solver/MeetingDifficultyWeightFactory.java:54-61 | the six compared fields, most significant first |
| MeetingDifficulty.LexCompare | optaplanner-examples/src/main/java/org/optaplanner/examples/musicacademy/domain/solver/MeetingDifficultyWeightFactory.java:54-61 | the builder's result is -1, 0 or 1 |
| MeetingDifficulty.LexCompareMeansLexLess | optaplanner-examples/src/main/java/org/optaplanner/examples/musicacademy/domain/solver/MeetingDifficultyWeightFactory.java:54-61 | a negative result means lexicographically smaller; zero means equal keys |
| MeetingDifficulty.LexCompareAntisymmetric | optaplanner-examples/src/main/java/org/optaplanner/examples/musicacademy/domain/solver/MeetingDifficultyWeightFactory.java:54-61 | swapping the arguments negates the result |
| MeetingDifficulty.LexCompareTransitive | optaplanner-examples/src/main/java/org/optaplanner/examples/musicacademy/domain/solver/MeetingDifficultyWeightFactory.java:54-61 | "not greater" is transitive |
| MeetingDifficulty.CompareTo | optaplanner-examples/src/main/java/org/optaplanner/examples/musicacademy/domain/solver/MeetingDifficultyWeightFactory.java:51-62 | negative exactly when the (curricula, penalties, meetings, students, working days, id) key is lexicographically smaller; zero exactly when the keys are equal |
| MeetingDifficulty.CompareToIsTotalOrder | optaplanner-examples/src/main/java/org/optaplanner/examples/musicacademy/domain/solver/MeetingDifficultyWeightFactory.java:54-61 | antisymmetric and transitive; weights of meetings with different ids never compare equal |
| SwapFilter.Accept | optaplanner-examples/src/main/java/org/optaplanner/examples/musicacademy/solver/move/DifferentSessionSwapMoveFilter.java:28-32 | an accepted swap never moves a meeting with itself |
| SwapFilter.AcceptIsSymmetric | optaplanner-examples/src/main/java/org/optaplanner/examples/musicacademy/solver/move/DifferentSessionSwapMoveFilter.java:28-32 | the verdict does not depend on which meeting is on the left |
| SwapFilter.AcceptIffDifferentSessions | optaplanner-examples/src/main/java/org/optaplanner/examples/musicacademy/solver/move/DifferentSessionSwapMoveFilter.java:28-32 | accepted exactly when the sessions differ; a swap of a meeting with itself is rejected |
| SwapFilter.AcceptIgnoresAssignment | optaplanner-examples/src/main/java/org/optaplanner/examples/musicacademy/solver/move/DifferentSessionSwapMoveFilter.java:28-32 | reassigning period, room and lock leaves the verdict unchanged |
| Domain.Day.constructor | optaplanner-examples/src/main/java/org/optaplanner/examples/musicacademy/persistence/MusicAcademyImporter.java:177-181 | a day with its id and index and no periods yet |
| Domain.Session.constructor | optaplanner-examples/src/main/java/org/optaplanner/examples/musicacademy/persistence/MusicAcademyImporter.java:121-131 | a session with the given fields and an empty curriculum list |
| Domain.Meeting.constructor | optaplanner-examples/src/main/java/org/optaplanner/examples/musicacademy/persistence/MusicAcademyImporter.java:276-281 | a meeting with id, session and index, unlocked, with no period and no room |
| Domain.Meeting.SetLocked | optaplanner-examples/src/main/java/org/optaplanner/examples/musicacademy/domain/Meeting.java:63-69 | the lock takes the value set; period and room are unchanged |
| Domain.Meeting.SetPeriod | optaplanner-examples/src/main/java/org/optaplanner/examples/musicacademy/domain/Meeting.java:77-79 | only the period changes |
| Domain.Meeting.SetRoom | optaplanner-examples/src/main/java/org/optaplanner/examples/musicacademy/domain/Meeting.java:87-89 | only the room changes |
| Domain.Meeting.GetDay | optaplanner-examples/src/main/java/org/optaplanner/examples/musicacademy/domain/Meeting.java:107-112 | none exactly when the period is unassigned, otherwise the period's day |
| Domain.Meeting.GetTimeslotIndex | optaplanner-examples/src/main/java/org/optaplanner/examples/musicacademy/domain/Meeting.java:114-119 | Integer.MIN_VALUE when the period is unassigned, otherwise the timeslot's index |
| Domain.Meeting.GetLabel | optaplanner-examples/src/main/java/org/optaplanner/examples/musicacademy/domain/Meeting.java:121-123 | starts with the session code and "-", and the rest parses back to the meeting index |
| Domain.Meeting.GetInstructor | optaplanner-examples/src/main/java/org/optaplanner/examples/musicacademy/domain/Meeting.java:95-97 | the session's instructor |
| Domain.Meeting.GetStudentSize | optaplanner-examples/src/main/java/org/optaplanner/examples/musicacademy/domain/Meeting.java:99-101 | the session's student count |
| Domain.Meeting.GetCurriculumList | optaplanner-examples/src/main/java/org/optaplanner/examples/musicacademy/domain/Meeting.java:103-105 | the session's curriculum list |
| Domain.ParseIntOfIntToStringAfter | optaplanner-examples/src/main/java/org/optaplanner/examples/musicacademy/domain/Meeting.java:121-123 | the number after a label's prefix parses back to the number written |
| Text.Wrap32 | optaplanner-examples/src/main/java/org/optaplanner/examples/musicacademy/persistence/MusicAcademyGenerator.java:99-101 | the result is a 32-bit int, and equals the input when that is one |
| Text.ParseInt | optaplanner-examples/src/main/java/org/optaplanner/examples/musicacademy/persistence/MusicAcademyImporter.java:128-131 | a parsed value is a 32-bit int, read from a non-empty token |
| Text.ParseIntOfIntToString | optaplanner-examples/src/main/java/org/optaplanner/examples/musicacademy/persistence/MusicAcademyImporter.java:128-131 | every 32-bit int written in decimal parses back to itself |
| Text.IntToStringInjective | optaplanner-examples/src/main/java/org/optaplanner/examples/musicacademy/persistence/MusicAcademyGenerator.java:259 | different ints are written differently |
| Exporter.WriteSolution | optaplanner-examples/src/main/java/org/optaplanner/examples/musicacademy/persistence/MusicAcademyExporter.java:49-56 | succeeds exactly when every meeting has a room and a period, then writes exactly the meetings' lines in list order; otherwise it stops at the first unassigned meeting, having written the lines before it |
| Exporter.SolutionLineFields | optaplanner-examples/src/main/java/org/optaplanner/examples/musicacademy/persistence/MusicAcademyExporter.java:51-54 | SolutionLine: a line splits at its spaces into its four fields and holds no line feed |
| Exporter.SplitJoin | optaplanner-examples/src/main/java/org/optaplanner/examples/musicacademy/persistence/MusicAcademyExporter.java:51-54 | splitting fields joined by a separator they do not contain gives them back |
| Exporter.WrittenRoundTrip | optaplanner-examples/src/main/java/org/optaplanner/examples/musicacademy/persistence/MusicAcademyExporter.java:49-56 | read back line by line, the written text has one record per meeting, in order, each the meeting's four fields |
| Exporter.IndexesReadBack | optaplanner-examples/src/main/java/org/optaplanner/examples/musicacademy/persistence/MusicAcademyExporter.java:53-54 | the written day and timeslot fields parse back to the period's indexes |
| Exporter.WrittenPeriodIsGridKey | optaplanner-examples/src/main/java/org/optaplanner/examples/musicacademy/persistence/MusicAcademyExporter.java:53-54 | for a period of the importer's grid, the written (day, timeslot) is a key of the importer's period map leading back to that period |
| Importer.ParseCourseLine | optaplanner-examples/src/main/java/org/optaplanner/examples/musicacademy/persistence/MusicAcademyImporter.java:124-131 | a course line is accepted exactly when it has five tokens and the last three parse as ints |
| Importer.CourseLineRoundTrip | optaplanner-examples/src/main/java/org/optaplanner/examples/musicacademy/persistence/MusicAcademyImporter.java:124-131 | a course line written from int-sized fields reads back as itself |
| Importer.ParseRoomLine | optaplanner-examples/src/main/java/org/optaplanner/examples/musicacademy/persistence/MusicAcademyImporter.java:163-165 | a room line is accepted exactly when it has two tokens and the second parses |
| Importer.RoomLineRoundTrip | optaplanner-examples/src/main/java/org/optaplanner/examples/musicacademy/persistence/MusicAcademyImporter.java:163-165 | a room line reads back as written |
| Importer.CurriculumHeader | optaplanner-examples/src/main/java/org/optaplanner/examples/musicacademy/persistence/MusicAcademyImporter.java:219-229 | a curriculum line that passes the header checks has at least two tokens |
| Importer.FirstUnknown | optaplanner-examples/src/main/java/org/optaplanner/examples/musicacademy/persistence/MusicAcademyImporter.java:230-235 | the first member code not in the course map, with every code before it known |
| Importer.CurriculumLineChecks | optaplanner-examples/src/main/java/org/optaplanner/examples/musicacademy/persistence/MusicAcademyImporter.java:219-237 | ParseCurriculumLine: a curriculum line is accepted exactly when it has at least two tokens, a numeric count equal to the token count minus two, and only known members, which are then the tokens after the count |
| Importer.CurriculumLineRoundTrip | optaplanner-examples/src/main/java/org/optaplanner/examples/musicacademy/persistence/MusicAcademyImporter.java:219-237 | a curriculum line written with its member count and known members reads back as itself |
| Importer.ParsePenaltyLine | optaplanner-examples/src/main/java/org/optaplanner/examples/musicacademy/persistence/MusicAcademyImporter.java:255-258 | a penalty line is accepted exactly when it has three tokens and the last two parse |
| Importer.PenaltyLineRoundTrip | optaplanner-examples/src/main/java/org/optaplanner/examples/musicacademy/persistence/MusicAcademyImporter.java:255-258 | a penalty line reads back as written |
| Importer.FindOrCreateInstructor | optaplanner-examples/src/main/java/org/optaplanner/examples/musicacademy/persistence/MusicAcademyImporter.java:141-151 | the map afterwards holds the code with the returned instructor and keeps every earlier entry; a new code gets id = the map size before insertion |
| Importer.FindOrCreateKeepsRegistry | optaplanner-examples/src/main/java/org/optaplanner/examples/musicacademy/persistence/MusicAcademyImporter.java:141-151 | a repeated code returns the registered instructor; the registry stays numbered 0..k-1 with distinct codes |
| Importer.RegisterInstructorsIsRegistry | optaplanner-examples/src/main/java/org/optaplanner/examples/musicacademy/persistence/MusicAcademyImporter.java:120-137 | RegisterInstructors, after the course loop: the instructors are numbered 0..k-1 in order of first mention, with distinct codes |
| Importer.RegisterInstructorsHasCourseCodes | optaplanner-examples/src/main/java/org/optaplanner/examples/musicacademy/persistence/MusicAcademyImporter.java:120-137 | every instructor code a course names is registered |
| Importer.RegisterInstructorsOnlyCourseCodes | optaplanner-examples/src/main/java/org/optaplanner/examples/musicacademy/persistence/MusicAcademyImporter.java:120-137 | only codes some course names are registered |
| Importer.ParseLines | optaplanner-examples/src/main/java/org/optaplanner/examples/musicacademy/persistence/MusicAcademyImporter.java:158-167 | a section that parses yields exactly n items |
| Importer.ParseLinesErrPersists | optaplanner-examples/src/main/java/org/optaplanner/examples/musicacademy/persistence/MusicAcademyImporter.java:120-134 | once a line of a section fails, the whole section fails |
| Importer.ParseLinesOk | optaplanner-examples/src/main/java/org/optaplanner/examples/musicacademy/persistence/MusicAcademyImporter.java:158-167 | a section parses exactly when each of its n lines exists and parses; item k comes from line k |
| Importer.RoomsFromLines | optaplanner-examples/src/main/java/org/optaplanner/examples/musicacademy/persistence/MusicAcademyImporter.java:158-167 | room k has id k and the code and capacity of its line |
| Importer.PenaltyLineAccepted | optaplanner-examples/src/main/java/org/optaplanner/examples/musicacademy/persistence/MusicAcademyImporter.java:255-264 | a penalty line is accepted exactly when it has three tokens, two numbers and a (day, timeslot) in the period map; its session is the course map's entry (null when unknown) |
| Importer.PenaltyLineInGridAccepted | optaplanner-examples/src/main/java/org/optaplanner/examples/musicacademy/persistence/MusicAcademyImporter.java:257-263 | against the importer's grid, a penalty line is accepted exactly when its pair lies inside d × t |
| Importer.PenaltiesOkInGrid | optaplanner-examples/src/main/java/org/optaplanner/examples/musicacademy/persistence/MusicAcademyImporter.java:250-266 | the penalties section is accepted exactly when every line names a pair inside the grid |
| Importer.CourseMapForIsCourseMap | optaplanner-examples/src/main/java/org/optaplanner/examples/musicacademy/persistence/MusicAcademyImporter.java:133 | the course map holds exactly the sessions' codes, each filed under the last session with that code |
| Importer.CourseMapHasCourseCodes | optaplanner-examples/src/main/java/org/optaplanner/examples/musicacademy/persistence/MusicAcademyImporter.java:120-134 | after the courses section the course map's keys are exactly the declared codes |
| Importer.AddSessionKeepsCoursesRead | optaplanner-examples/src/main/java/org/optaplanner/examples/musicacademy/persistence/MusicAcademyImporter.java:120-134 | one more course line keeps the reader's state: sessions, instructors and course map |
| Importer.AddCourse | optaplanner-examples/src/main/java/org/optaplanner/examples/musicacademy/persistence/MusicAcademyImporter.java:121-133 | one course iteration: a fresh session carrying the line, the registry advanced by its instructor code |
| Importer.CttReader.constructor | optaplanner-examples/src/main/java/org/optaplanner/examples/musicacademy/persistence/MusicAcademyImporter.java:64-65 | a reader at the first line |
| Importer.CttReader.ReadTokens | optaplanner-examples/src/main/java/org/optaplanner/examples/musicacademy/persistence/MusicAcademyImporter.java:124-125 | the next line's tokens and one line further; past the end an error |
| Importer.CttReader.ReadConstantLine | optaplanner-examples/src/main/java/org/optaplanner/examples/musicacademy/persistence/MusicAcademyImporter.java:92-93 | succeeds exactly when the next line is the expected one |
| Importer.CttReader.ReadStringValue | optaplanner-examples/src/main/java/org/optaplanner/examples/musicacademy/persistence/MusicAcademyImporter.java:68 | succeeds exactly on a "title value" line, answering the value |
| Importer.CttReader.ReadIntegerValue | optaplanner-examples/src/main/java/org/optaplanner/examples/musicacademy/persistence/MusicAcademyImporter.java:70-80 | succeeds exactly on a "title value" line whose value parses, answering that int |
| Importer.CttReader.ReadSectionStart | optaplanner-examples/src/main/java/org/optaplanner/examples/musicacademy/persistence/MusicAcademyImporter.java:118-119 | succeeds exactly on an empty line followed by the title |
| Importer.CttReader.ReadHeader | optaplanner-examples/src/main/java/org/optaplanner/examples/musicacademy/persistence/MusicAcademyImporter.java:68-80 | succeeds exactly when the seven header lines come in the fixed order, answering their values |
| Importer.CttReader.ReadSolution | optaplanner-examples/src/main/java/org/optaplanner/examples/musicacademy/persistence/MusicAcademyImporter.java:64-111 | succeeds exactly when the whole file has the accepted layout, and then the schedule is the one the lines describe (header name, sessions, instructors, rooms, grid, curricula, penalties, meetings) |
| Importer.CttReader.ReadBody | optaplanner-examples/src/main/java/org/optaplanner/examples/musicacademy/persistence/MusicAcademyImporter.java:82-94 | the sections after the header, in their fixed order, succeed exactly when front and back are well formed |
| Importer.CttReader.ReadFront | optaplanner-examples/src/main/java/org/optaplanner/examples/musicacademy/persistence/MusicAcademyImporter.java:82-87 | courses, rooms and the grid succeed exactly when their sections and sizes are accepted; no session has a curriculum yet |
| Importer.CttReader.ReadCourses | optaplanner-examples/src/main/java/org/optaplanner/examples/musicacademy/persistence/MusicAcademyImporter.java:82-83 | the courses section as called after the header |
| Importer.CttReader.ReadRoomsAndGrid | optaplanner-examples/src/main/java/org/optaplanner/examples/musicacademy/persistence/MusicAcademyImporter.java:84-87 | the rooms section, then the grid for the header's sizes |
| Importer.CttReader.ReadRest | optaplanner-examples/src/main/java/org/optaplanner/examples/musicacademy/persistence/MusicAcademyImporter.java:88-93 | curricula, penalties and END. succeed exactly when the back of the file is well formed |
| Importer.CttReader.ReadCurriculaSection | optaplanner-examples/src/main/java/org/optaplanner/examples/musicacademy/persistence/MusicAcademyImporter.java:88-89 | the curricula section against the declared course codes |
| Importer.CttReader.ReadPenaltySection | optaplanner-examples/src/main/java/org/optaplanner/examples/musicacademy/persistence/MusicAcademyImporter.java:90-91 | the penalties section against the course map and the grid |
| Importer.CttReader.ReadEnd | optaplanner-examples/src/main/java/org/optaplanner/examples/musicacademy/persistence/MusicAcademyImporter.java:92-93 | succeeds exactly on an empty line followed by "END." |
| Importer.CttReader.ReadItem | optaplanner-examples/src/main/java/org/optaplanner/examples/musicacademy/persistence/MusicAcademyImporter.java:124-125 | reading one more line extends the parsed section by its item, or the section fails |
| Importer.CttReader.ReadCourse | optaplanner-examples/src/main/java/org/optaplanner/examples/musicacademy/persistence/MusicAcademyImporter.java:120-134 | one course iteration keeps the courses reader's state or fails the section |
| Importer.CttReader.ReadCourseList | optaplanner-examples/src/main/java/org/optaplanner/examples/musicacademy/persistence/MusicAcademyImporter.java:113-139 | succeeds exactly when the title and n course lines parse |
| Importer.CttReader.ReadCourseLines | optaplanner-examples/src/main/java/org/optaplanner/examples/musicacademy/persistence/MusicAcademyImporter.java:120-134 | the course loop succeeds exactly when the n lines parse |
| Importer.CttReader.ReadLines | optaplanner-examples/src/main/java/org/optaplanner/examples/musicacademy/persistence/MusicAcademyImporter.java:158-167 | the section loop yields exactly what parsing the n lines gives |
| Importer.CttReader.ReadRoomList | optaplanner-examples/src/main/java/org/optaplanner/examples/musicacademy/persistence/MusicAcademyImporter.java:153-169 | succeeds exactly when the title and n room lines parse; a negative n fails |
| Importer.CttReader.ReadPenaltyList | optaplanner-examples/src/main/java/org/optaplanner/examples/musicacademy/persistence/MusicAcademyImporter.java:243-268 | succeeds exactly when the title and n penalty lines are accepted |
| Importer.CttReader.ReadCurriculum | optaplanner-examples/src/main/java/org/optaplanner/examples/musicacademy/persistence/MusicAcademyImporter.java:214-239 | one curriculum iteration appends it to each member's session, or fails the section |
| Importer.CttReader.ReadCurriculumList | optaplanner-examples/src/main/java/org/optaplanner/examples/musicacademy/persistence/MusicAcademyImporter.java:209-241 | succeeds exactly when the title and n curriculum lines are accepted |
| Importer.TimeslotsAt | optaplanner-examples/src/main/java/org/optaplanner/examples/musicacademy/persistence/MusicAcademyImporter.java:184-190 | timeslot j has id j and index j |
| Importer.DayRowAt | optaplanner-examples/src/main/java/org/optaplanner/examples/musicacademy/persistence/MusicAcademyImporter.java:195-202 | day i's row holds its periods in timeslot order |
| Importer.RowMapAt | optaplanner-examples/src/main/java/org/optaplanner/examples/musicacademy/persistence/MusicAcademyImporter.java:201 | day i's map entries are exactly the keys (i, j), each leading to period (i, j) |
| Importer.GridPeriodsAt | optaplanner-examples/src/main/java/org/optaplanner/examples/musicacademy/persistence/MusicAcademyImporter.java:192-204 | list position i·t + j holds period (i, j) |
| Importer.GridPeriodsLength | optaplanner-examples/src/main/java/org/optaplanner/examples/musicacademy/persistence/MusicAcademyImporter.java:192-204 | the grid has exactly d × t periods |
| Importer.GridMapAt | optaplanner-examples/src/main/java/org/optaplanner/examples/musicacademy/persistence/MusicAcademyImporter.java:192-204 | the period map holds exactly the keys [i, j] of the grid, each leading to period (i, j) |
| Importer.PeriodIdRowMajor | optaplanner-examples/src/main/java/org/optaplanner/examples/musicacademy/persistence/MusicAcademyImporter.java:197 | PeriodId: within an int-sized grid, period (i, j) has id i·t + j |
| Importer.CreatePeriodGrid | optaplanner-examples/src/main/java/org/optaplanner/examples/musicacademy/persistence/MusicAcademyImporter.java:171-207 | succeeds exactly when the day count, the timeslot count and their int product are non-negative and the product fits in an int; on success it builds the grid: days, timeslots, periods, map |
| Importer.AcceptedGridIdsArePositions | optaplanner-examples/src/main/java/org/optaplanner/examples/musicacademy/persistence/MusicAcademyImporter.java:192-204 | in every grid the importer accepts, the period ids are 0, 1, ... in the order of the period list: no id wraps around |
| Importer.FillGrid | optaplanner-examples/src/main/java/org/optaplanner/examples/musicacademy/persistence/MusicAcademyImporter.java:192-204 | the period loop builds the grid's list and map, and each day's list is its row |
| Importer.CreateDays | optaplanner-examples/src/main/java/org/optaplanner/examples/musicacademy/persistence/MusicAcademyImporter.java:175-182 | day i has id i and index i |
| Importer.CreateTimeslots | optaplanner-examples/src/main/java/org/optaplanner/examples/musicacademy/persistence/MusicAcademyImporter.java:184-190 | the timeslot loop's list |
| Importer.FillDay | optaplanner-examples/src/main/java/org/optaplanner/examples/musicacademy/persistence/MusicAcademyImporter.java:195-203 | the inner loop appends day i's row to the list, the map and the day |
| Importer.CurriculaAt | optaplanner-examples/src/main/java/org/optaplanner/examples/musicacademy/persistence/MusicAcademyImporter.java:214-238 | curriculum k has id k and the code of line k |
| Importer.MemberMentionsCount | optaplanner-examples/src/main/java/org/optaplanner/examples/musicacademy/persistence/MusicAcademyImporter.java:230-237 | a line appends its curriculum exactly once per mention of the code, and nothing else |
| Importer.MentionsAreMemberships | optaplanner-examples/src/main/java/org/optaplanner/examples/musicacademy/persistence/MusicAcademyImporter.java:230-237 | each curriculum a session holds names the session's code on its line |
| Importer.MemberMentionsNamesCode | optaplanner-examples/src/main/java/org/optaplanner/examples/musicacademy/persistence/MusicAcademyImporter.java:230-237 | a line appends to a session exactly when it names the session's code |
| Importer.AddMember | optaplanner-examples/src/main/java/org/optaplanner/examples/musicacademy/persistence/MusicAcademyImporter.java:231-236 | one member: its session gets the curriculum appended |
| Importer.AddToMembers | optaplanner-examples/src/main/java/org/optaplanner/examples/musicacademy/persistence/MusicAcademyImporter.java:230-237 | the member loop succeeds exactly when every member is known, appending to each |
| Importer.FileCurriculaRead | optaplanner-examples/src/main/java/org/optaplanner/examples/musicacademy/persistence/MusicAcademyImporter.java:209-241 | an accepted curricula section's lines are the file's curriculum lines |
| Importer.SessionSlotsAt | optaplanner-examples/src/main/java/org/optaplanner/examples/musicacademy/persistence/MusicAcademyImporter.java:275 | a session's meetings have indexes 0..meetingSize-1; a negative count gives none |
| Importer.MeetingSlotsCount | optaplanner-examples/src/main/java/org/optaplanner/examples/musicacademy/persistence/MusicAcademyImporter.java:274-285 | there is one meeting per unit of meeting count |
| Importer.MeetingSlotsMembers | optaplanner-examples/src/main/java/org/optaplanner/examples/musicacademy/persistence/MusicAcademyImporter.java:274-285 | session s gets a meeting with index i exactly when 0 ≤ i < its meetingSize |
| Importer.MeetingSlotsDistinct | optaplanner-examples/src/main/java/org/optaplanner/examples/musicacademy/persistence/MusicAcademyImporter.java:274-285 | no (session, index) pair gets two meetings |
| Importer.CreateMeetingList | optaplanner-examples/src/main/java/org/optaplanner/examples/musicacademy/persistence/MusicAcademyImporter.java:270-287 | meeting k has id k and the k-th (session, index) slot, unlocked, with no period and no room |
| Importer.CreateSessionMeetings | optaplanner-examples/src/main/java/org/optaplanner/examples/musicacademy/persistence/MusicAcademyImporter.java:275-284 | one session's meetings, with consecutive ids from the running counter |
| Generator.SizesFor | optaplanner-examples/src/main/java/org/optaplanner/examples/musicacademy/persistence/MusicAcademyGenerator.java:99-101 | for meeting counts whose double fits in an int: at least one session, between one and that many instructors, and no negative room count |
| Generator.SizesBounds | optaplanner-examples/src/main/java/org/optaplanner/examples/musicacademy/persistence/MusicAcademyGenerator.java:99-101 | without overflow: sessions = 2m/9 + 1, instructors = sessions/3 + 1, rooms = 2m/32; rooms exist exactly from 16 meetings |
| Generator.GeneratedSizes | optaplanner-examples/src/main/java/org/optaplanner/examples/musicacademy/persistence/MusicAcademyGenerator.java:54-59 | the three data sets: 45/16/12, 89/30/25 and 178/60/50 sessions/instructors/rooms |
| Generator.FileNameFields | optaplanner-examples/src/main/java/org/optaplanner/examples/musicacademy/persistence/MusicAcademyGenerator.java:109-111 | FileName: the file name splits at its dashes into its three counts with their units |
| Generator.UnitSuffixCancels | optaplanner-examples/src/main/java/org/optaplanner/examples/musicacademy/persistence/MusicAcademyGenerator.java:109-111 | a count followed by a fixed unit determines the count |
| Generator.FileNameInjective | optaplanner-examples/src/main/java/org/optaplanner/examples/musicacademy/persistence/MusicAcademyGenerator.java:109-111 | different counts give different file names |
| Generator.Random.constructor | optaplanner-examples/src/main/java/org/optaplanner/examples/musicacademy/persistence/MusicAcademyGenerator.java:114 | one random source per schedule, with no draws made yet |
| Generator.Random.NextInt | optaplanner-examples/src/main/java/org/optaplanner/examples/musicacademy/persistence/MusicAcademyGenerator.java:210 | a draw below the bound, consuming one value of the source |
| Generator.Numbered | optaplanner-examples/src/main/java/org/optaplanner/examples/musicacademy/persistence/MusicAcademyGenerator.java:170-179 | period k has id k and the k-th (day, timeslot) cell |
| Generator.PeriodsOn | optaplanner-examples/src/main/java/org/optaplanner/examples/musicacademy/persistence/MusicAcademyGenerator.java:181 | a day's periods are exactly the periods on that day |
| Generator.AddDayPeriods | optaplanner-examples/src/main/java/org/optaplanner/examples/musicacademy/persistence/MusicAcademyGenerator.java:172-184 | one day's loop appends its periods, numbered on, to the list and to the day |
| Generator.CreatePeriodList | optaplanner-examples/src/main/java/org/optaplanner/examples/musicacademy/persistence/MusicAcademyGenerator.java:168-187 | the periods are the cells numbered from 0 day by day, and each day's list gets exactly its own periods |
| Generator.CellsExactly | optaplanner-examples/src/main/java/org/optaplanner/examples/musicacademy/persistence/MusicAcademyGenerator.java:173-176 | a (day, timeslot) gets a period exactly when it is not Wednesday afternoon |
| Generator.DayCellsCount | optaplanner-examples/src/main/java/org/optaplanner/examples/musicacademy/persistence/MusicAcademyGenerator.java:173-176 | Wednesday keeps its first four timeslots; the other days keep all |
| Generator.WeekPeriodCount | optaplanner-examples/src/main/java/org/optaplanner/examples/musicacademy/persistence/MusicAcademyGenerator.java:50-52 | five days of seven timeslots give exactly PERIOD_LIST_SIZE = 32 periods |
| Generator.CreateInstructorList | optaplanner-examples/src/main/java/org/optaplanner/examples/musicacademy/persistence/MusicAcademyGenerator.java:189-199 | instructor i has id i and the i-th generated name |
| Generator.SubjectsDistinct | optaplanner-examples/src/main/java/org/optaplanner/examples/musicacademy/persistence/MusicAcademyGenerator.java:69-84 | the fifteen subject names differ |
| Generator.UnusedCode | optaplanner-examples/src/main/java/org/optaplanner/examples/musicacademy/persistence/MusicAcademyGenerator.java:213-219 | the first suffix, in generator order, that makes the code unused; the loop ends because suffixes differ |
| Generator.RoundRobinThenRandom | optaplanner-examples/src/main/java/org/optaplanner/examples/musicacademy/persistence/MusicAcademyGenerator.java:208-210 | for i below twice the list size element i mod size with no draw, otherwise one random element |
| Generator.CreateSession | optaplanner-examples/src/main/java/org/optaplanner/examples/musicacademy/persistence/MusicAcademyGenerator.java:205-230 | one session: round-robin subject and instructor, suffixed code unused so far |
| Generator.CreateSessionList | optaplanner-examples/src/main/java/org/optaplanner/examples/musicacademy/persistence/MusicAcademyGenerator.java:201-233 | session i has id i, no meetings, one working day and no students; codes are pairwise distinct; draws are made only past the round-robin passes |
| Generator.CountOf | optaplanner-examples/src/main/java/org/optaplanner/examples/musicacademy/persistence/MusicAcademyGenerator.java:245-246 | how many meetings belong to a session, at most all of them |
| Generator.CreateMeeting | optaplanner-examples/src/main/java/org/optaplanner/examples/musicacademy/persistence/MusicAcademyGenerator.java:239-247 | a meeting's index is its session's meeting count, which then grows by one |
| Generator.CreateMeetingList | optaplanner-examples/src/main/java/org/optaplanner/examples/musicacademy/persistence/MusicAcademyGenerator.java:235-252 | each meeting's index counts its session's earlier meetings; each session's meetingSize grows by its meeting count; round robin for the first two passes |
| Generator.CountOfGrows | optaplanner-examples/src/main/java/org/optaplanner/examples/musicacademy/persistence/MusicAcademyGenerator.java:245 | later meetings of a session have larger counts before them |
| Generator.CountOfReachesAll | optaplanner-examples/src/main/java/org/optaplanner/examples/musicacademy/persistence/MusicAcademyGenerator.java:245 | every number below a session's count is the index of one of its meetings |
| Generator.MeetingIndexesIncrease | optaplanner-examples/src/main/java/org/optaplanner/examples/musicacademy/persistence/MusicAcademyGenerator.java:245-246 | one session's meeting indexes strictly increase along the list |
| Generator.MeetingIndexesCover | optaplanner-examples/src/main/java/org/optaplanner/examples/musicacademy/persistence/MusicAcademyGenerator.java:245-246 | one session's meeting indexes leave no gap |
| Generator.CreateRoom | optaplanner-examples/src/main/java/org/optaplanner/examples/musicacademy/persistence/MusicAcademyGenerator.java:257-261 | room i has id i, code "R" + its number, and the drawn capacity option |
| Generator.CreateRoomList | optaplanner-examples/src/main/java/org/optaplanner/examples/musicacademy/persistence/MusicAcademyGenerator.java:254-264 | room i is drawn with the i-th value of the source, one draw per room |
| Generator.CapacitiesAtLeast20 | optaplanner-examples/src/main/java/org/optaplanner/examples/musicacademy/persistence/MusicAcademyGenerator.java:61-67 | every capacity is one of the five options, hence at least 20 |
| Generator.RoomNumberBlocks | optaplanner-examples/src/main/java/org/optaplanner/examples/musicacademy/persistence/MusicAcademyGenerator.java:259 | RoomNumber: room numbers come in blocks of fifty: 1-50, 151-200, 301-350, ... |
| Generator.RoomNumbersIncrease | optaplanner-examples/src/main/java/org/optaplanner/examples/musicacademy/persistence/MusicAcademyGenerator.java:259 | room numbers grow with the room index |
| Generator.RoomCodesDistinct | optaplanner-examples/src/main/java/org/optaplanner/examples/musicacademy/persistence/MusicAcademyGenerator.java:259 | RoomCode: no two rooms share a code |
| Generator.MaxCapacity | optaplanner-examples/src/main/java/org/optaplanner/examples/musicacademy/persistence/MusicAcademyGenerator.java:267 | the largest capacity: no room exceeds it and some room has it |
| Generator.Eligible | optaplanner-examples/src/main/java/org/optaplanner/examples/musicacademy/persistence/MusicAcademyGenerator.java:280-282 | exactly the sessions with room for the group below the maximum capacity, without repeats |
| Generator.FisherYates | optaplanner-examples/src/main/java/org/optaplanner/examples/musicacademy/persistence/MusicAcademyGenerator.java:283 | the Fisher-Yates pass keeps the length of the list |
| Generator.FisherYatesPermutes | optaplanner-examples/src/main/java/org/optaplanner/examples/musicacademy/persistence/MusicAcademyGenerator.java:283 | FisherYates: the shuffle is a permutation |
| Generator.PermutationKeepsDistinct | optaplanner-examples/src/main/java/org/optaplanner/examples/musicacademy/persistence/MusicAcademyGenerator.java:283 | a permutation of a list without repeats has none |
| Generator.Shuffle | optaplanner-examples/src/main/java/org/optaplanner/examples/musicacademy/persistence/MusicAcademyGenerator.java:283 | the shuffled list is the Fisher-Yates result over the source, a permutation of the input |
| Generator.ShuffledCandidates | optaplanner-examples/src/main/java/org/optaplanner/examples/musicacademy/persistence/MusicAcademyGenerator.java:280-283 | the Fisher-Yates shuffle of the eligible sessions, a permutation of them, without repeats; each is in the session list and has room for the group |
| Generator.JoinCurriculum | optaplanner-examples/src/main/java/org/optaplanner/examples/musicacademy/persistence/MusicAcademyGenerator.java:285-293 | the joiners are a prefix of the shuffled sessions: the longest whose MeetingCount, the running meeting count, stays within the periods; every shorter prefix stays within it and one more session would pass it |
| Generator.Join | optaplanner-examples/src/main/java/org/optaplanner/examples/musicacademy/persistence/MusicAcademyGenerator.java:291-292 | a session gets the curriculum and the group's students |
| Generator.AddCurriculum | optaplanner-examples/src/main/java/org/optaplanner/examples/musicacademy/persistence/MusicAcademyGenerator.java:273-295 | the group size is 5 plus the two draws below 10, so in 5..23; the candidates are distinct sessions with room for the group, drawn after those two; exactly the sessions of the longest candidate prefix within the periods join, each gets the curriculum and the students and stays below the maximum capacity, and every other session is unchanged |
| Generator.DrawGroupSize | optaplanner-examples/src/main/java/org/optaplanner/examples/musicacademy/persistence/MusicAcademyGenerator.java:278 | the group size is 5 plus two draws below 10, so in 5..23, and uses two draws |
| Generator.JoinShuffled | optaplanner-examples/src/main/java/org/optaplanner/examples/musicacademy/persistence/MusicAcademyGenerator.java:285-293 | exactly the sessions of the longest candidate prefix within the periods join, each staying below the maximum capacity; every other session is unchanged |
| Generator.NextCurriculum | optaplanner-examples/src/main/java/org/optaplanner/examples/musicacademy/persistence/MusicAcademyGenerator.java:274-295 | one iteration of the curriculum loop keeps the loop invariant: curriculum i has id i, its group holds at most the number of periods of meetings, and every session holds exactly the curricula of the groups it is in |
| Generator.JoinersBound | optaplanner-examples/src/main/java/org/optaplanner/examples/musicacademy/persistence/MusicAcademyGenerator.java:285-293 | the joining prefix is a group of distinct sessions whose meetings add up to at most the number of periods |
| Generator.JoinStep | optaplanner-examples/src/main/java/org/optaplanner/examples/musicacademy/persistence/MusicAcademyGenerator.java:285-293 | joining or not joining one curriculum keeps a session's appended curricula, student sum and group membership in step |
| Generator.CreateCurriculumList | optaplanner-examples/src/main/java/org/optaplanner/examples/musicacademy/persistence/MusicAcademyGenerator.java:266-298 | curriculum i has id i and a generated code, and a group size in 5..23; the sessions holding curriculum i are distinct and their meetings add up to at most the number of periods; each session ends with the curricula it joined appended in creation order, and its students are the sum of their group sizes; a session below the maximum capacity stays below it |
| Generator.JoinedExtend | optaplanner-examples/src/main/java/org/optaplanner/examples/musicacademy/persistence/MusicAcademyGenerator.java:291-292 | joining extends a session's appended curricula and student sum |
| Generator.JoinedKeep | optaplanner-examples/src/main/java/org/optaplanner/examples/musicacademy/persistence/MusicAcademyGenerator.java:285-293 | not joining keeps them |
| Generator.CreateUnavailablePeriodPenaltyList | optaplanner-examples/src/main/java/org/optaplanner/examples/musicacademy/persistence/MusicAcademyGenerator.java:300-314 | penalty i has id i, session i and a drawn period |
| Generator.OnePenaltyPerSession | optaplanner-examples/src/main/java/org/optaplanner/examples/musicacademy/persistence/MusicAcademyGenerator.java:305-312 | every session has exactly one penalty |
| Generator.CreateWeek | optaplanner-examples/src/main/java/org/optaplanner/examples/musicacademy/persistence/MusicAcademyGenerator.java:118-120 | five days, seven timeslots and the 32 numbered periods, each day holding its own |
| Generator.CreateCourses | optaplanner-examples/src/main/java/org/optaplanner/examples/musicacademy/persistence/MusicAcademyGenerator.java:121-123 | instructors, sessions with distinct codes, and meetings whose counts and indexes agree |
| Generator.CreateGroups | optaplanner-examples/src/main/java/org/optaplanner/examples/musicacademy/persistence/MusicAcademyGenerator.java:124-125 | rooms, then curricula; sessions stay below the largest capacity |
| Generator.CreateSessionSchedule | optaplanner-examples/src/main/java/org/optaplanner/examples/musicacademy/persistence/MusicAcademyGenerator.java:113-143 | the whole schedule with the given sizes: grid, sessions with distinct codes, consistent meeting counts and indexes, sessions below the largest capacity, one penalty per session |
| Generator.WriteSessionSchedule | optaplanner-examples/src/main/java/org/optaplanner/examples/musicacademy/persistence/MusicAcademyGenerator.java:98-107 | list sizes from the formulas, the file name from the counts, and a schedule of those sizes |
| UnionSelection.Zeros | optaplanner-core/src/test/java/org/optaplanner/core/heuristic/selector/move/composite/UnionMoveSelectorTest.java:45 | a fresh iterator: every child at position 0 |
| UnionSelection.Offset | optaplanner-core/src/test/java/org/optaplanner/core/heuristic/selector/move/composite/UnionMoveSelectorTest.java:80 | a draw scaled to a positive total weight lies below it |
| UnionSelection.Pick | optaplanner-core/src/test/java/org/optaplanner/core/heuristic/selector/move/composite/UnionMoveSelectorTest.java:76-80 | the active child whose slice of the cumulative weights holds the offset |
| UnionSelection.ConcatSize | optaplanner-core/src/test/java/org/optaplanner/core/heuristic/selector/move/composite/UnionMoveSelectorTest.java:40-56 | the union has as many moves as its children together |
| UnionSelection.RestOfZeros | optaplanner-core/src/test/java/org/optaplanner/core/heuristic/selector/move/composite/UnionMoveSelectorTest.java:56 | before any move, what remains is every child's moves in declared order |
| UnionSelection.EndingTake | optaplanner-core/src/test/java/org/optaplanner/core/heuristic/selector/move/composite/UnionMoveSelectorTest.java:56 | in ending mode the next move is the first remaining one, and the rest follows |
| UnionSelection.RestTake | optaplanner-core/src/test/java/org/optaplanner/core/heuristic/selector/move/composite/UnionMoveSelectorTest.java:95 | taking a child's next move removes exactly that move from what remains |
| UnionSelection.RestNonEmpty | optaplanner-core/src/test/java/org/optaplanner/core/heuristic/selector/move/composite/UnionMoveSelectorTest.java:56 | some move remains exactly when some child is not drained |
| UnionSelection.ActiveSumPositive | optaplanner-core/src/test/java/org/optaplanner/core/heuristic/selector/move/composite/UnionMoveSelectorTest.java:94-95 | with every weight positive, a child with moves left makes the total positive |
| UnionSelection.NoneActiveMeansDrained | optaplanner-core/src/test/java/org/optaplanner/core/heuristic/selector/move/composite/UnionMoveSelectorTest.java:94-95 | with every weight positive and no active child, nothing remains |
| UnionSelection.RandomRunSize | optaplanner-core/src/test/java/org/optaplanner/core/heuristic/selector/move/composite/UnionMoveSelectorTest.java:94-95 | random mode yields at most one move per draw, each a remaining move |
| UnionSelection.RandomRunYieldsEachMoveOnce | optaplanner-core/src/test/java/org/optaplanner/core/heuristic/selector/move/composite/UnionMoveSelectorTest.java:94-95 | a random union of ending children, given enough draws, ends and yields each remaining move exactly once |
| UnionSelection.RandomRunStep | optaplanner-core/src/test/java/org/optaplanner/core/heuristic/selector/move/composite/UnionMoveSelectorTest.java:95 | one draw yields the picked child's next move, then the run goes on from the new positions |
| UnionSelection.UnionMoveSelector.Ending | optaplanner-core/src/test/java/org/optaplanner/core/heuristic/selector/move/composite/UnionMoveSelectorTest.java:45 | a union in ending mode, at position 0, with no events received |
| UnionSelection.UnionMoveSelector.Weighted | optaplanner-core/src/test/java/org/optaplanner/core/heuristic/selector/move/composite/UnionMoveSelectorTest.java:76-77 | a union in random mode with one weight per child |
| UnionSelection.UnionMoveSelector.Forward | optaplanner-core/src/test/java/org/optaplanner/core/heuristic/selector/move/composite/UnionMoveSelectorTest.java:48-60 | each child receives the event exactly once, appended to its history |
| UnionSelection.UnionMoveSelector.ResetIterator | optaplanner-core/src/test/java/org/optaplanner/core/heuristic/selector/move/composite/UnionMoveSelectorTest.java:54-56 | a new iterator: what remains is the concatenation of the children |
| UnionSelection.UnionMoveSelector.HasNext | optaplanner-core/src/test/java/org/optaplanner/core/heuristic/selector/move/composite/UnionMoveSelectorTest.java:56 | in ending mode some move remains; in random mode some child is active |
| UnionSelection.UnionMoveSelector.NotDrained | optaplanner-core/src/test/java/org/optaplanner/core/heuristic/selector/move/composite/UnionMoveSelectorTest.java:56 | some child from the given one on has moves left |
| UnionSelection.UnionMoveSelector.NextInOrder | optaplanner-core/src/test/java/org/optaplanner/core/heuristic/selector/move/composite/UnionMoveSelectorTest.java:56 | the next move is the first remaining one, which is then removed |
| UnionSelection.UnionMoveSelector.NextWeighted | optaplanner-core/src/test/java/org/optaplanner/core/heuristic/selector/move/composite/UnionMoveSelectorTest.java:80-95 | the child picked by the draw yields its next move and advances by one |
| UnionSelection.UnionMoveSelector.DrainInOrder | optaplanner-core/src/test/java/org/optaplanner/core/heuristic/selector/move/composite/UnionMoveSelectorTest.java:56 | ending mode yields every remaining move in order, after which nothing is left |
| UnionSelection.UnionMoveSelector.DrawOne | optaplanner-core/src/test/java/org/optaplanner/core/heuristic/selector/move/composite/UnionMoveSelectorTest.java:95 | one draw yields the first move of the random run |
| UnionSelection.UnionMoveSelector.DrainWeighted | optaplanner-core/src/test/java/org/optaplanner/core/heuristic/selector/move/composite/UnionMoveSelectorTest.java:94-95 | random mode with the given draws yields exactly the random run, then nothing is left |
| UnionSelection.ScenarioTotal | optaplanner-core/src/test/java/org/optaplanner/core/heuristic/selector/move/composite/UnionMoveSelectorTest.java:72-75 | the active weight is 1000 while child a has moves, plus 20 while child b has |
| UnionSelection.ScenarioPick | optaplanner-core/src/test/java/org/optaplanner/core/heuristic/selector/move/composite/UnionMoveSelectorTest.java:80 | a draw picks child a when its offset falls in a's slice |
| UnionSelection.OriginSelection | optaplanner-core/src/test/java/org/optaplanner/core/heuristic/selector/move/composite/UnionMoveSelectorTest.java:39-64 | ending mode yields a1, a2, a3, b1, b2; each child receives one full lifecycle |
| UnionSelection.RandomSelection | optaplanner-core/src/test/java/org/optaplanner/core/heuristic/selector/move/composite/UnionMoveSelectorTest.java:67-103 | weights 1000 and 20 with the test's five draws yield a1, b1, b2, a2, a3; each child receives one full lifecycle |
| UnionSelection.RandomScenarioMoves | optaplanner-core/src/test/java/org/optaplanner/core/heuristic/selector/move/composite/UnionMoveSelectorTest.java:80-95 | the five draws one at a time, leaving the selector drained |
| UnionSelection.RandomScenarioMove | optaplanner-core/src/test/java/org/optaplanner/core/heuristic/selector/move/composite/UnionMoveSelectorTest.java:80-95 | one draw of the scenario picks the expected child |

## Left out

- Reading and writing files is not modelled: the buffered reader and writer, the XStream solution file, the converter `main` methods, and the input and output file suffixes. Tokenising a line at spaces and tabs is not modelled either; the importer takes lines that are already token sequences. Logging and the BigInteger search-space size are not modelled, since they only feed log output.
- `readStringValue`, `readIntegerValue`, `readConstantLine` and `readEmptyLine` belong to a base class that is not part of this model. They are modelled from their use here. A header line is "title value", with an integer value as `Integer.parseInt` accepts it when written in ASCII digits (see Text.ParseInt below). `END\.` is matched as the literal `END.`.
- Java exceptions are error values: a negative list size (ArrayList/HashMap capacity), a `d × t` grid whose int capacity is negative or whose period list would outgrow an int, a malformed line, an unknown curriculum member or period, and a missing line. Only the first error is reported, not its message.
- Generator.AddCurriculum: states that its candidates are distinct sessions with room for the group, not that they are all of them in Fisher-Yates order. Generator.ShuffledCandidates, which it calls, states that: its candidates are the Fisher-Yates shuffle of exactly the eligible sessions.
- Importer.RegisterInstructorsIsRegistry: the instructor list is `new ArrayList<>(instructorMap.values())`, in HashMap iteration order. The model lists instructors in order of first mention, which has the same members, ids and codes.
- Importer.PenaltyLineAccepted: a penalty whose course code is unknown keeps a null session, as in the source.
- MeetingDifficulty.CreateSorterWeight: requires every penalty's session to be non-null (`penalty.getSession().equals(...)`). On a null penalty session the source throws a NullPointerException, which the model does not return as an error value.
- Text.ParseInt: only the ASCII digits '0'..'9' are modelled. `Integer.parseInt` reads each digit with `Character.digit(c, 10)` and so also accepts other Unicode decimal digits (Arabic-Indic "١٢" is 12). The model rejects header, course, room, curriculum and penalty lines that use such digits, which Java reads.
- Session identity: Session's `equals` comes from a base class that is not part of this model. It is modelled as object identity, which the importer and generator use for freshly created objects.
- `CompareToBuilder`, `EqualsBuilder` and `HashCodeBuilder` are modelled as lexicographic comparison, pairwise equality and a hash over (left, right), wrapped to 32 bits. Session order and session hash are parameters. SessionConflict's getters are datatype fields. `toString` of Meeting and SessionConflict is not modelled.
- java.util.Random, `Collections.shuffle` and StringDataGenerator are not part of this model:
  - the random source is an oracle, and `nextInt(bound)` is `source(k) % bound` for the k-th draw;
  - the shuffle is Fisher-Yates over the same draws;
  - instructor names, code suffixes and group codes are generator functions. Code suffixes are assumed injective, as the A-Z part generator produces distinct values.
- Generator.Random.NextInt: does not model the rejection sampling or the seed 37, only that the draw lies in range.
- Generator.CreateSessionSchedule: the generator receives the file name but never sets the schedule's name, so the model leaves it empty.
- Generator.CreateSessionSchedule: requires the inputs on which the source does not throw, and models no exception as an error value. Excluded are: no rooms (`max().getAsInt()` on an empty stream, line 267); sessions but no instructors (`nextInt(0)`, line 224); meetings but no sessions (`nextInt(0)`, line 243); a negative instructor, curriculum, session, meeting or room count (a negative `ArrayList` capacity, lines 190, 203, 237, 255, 269). It also requires an injective code-suffix generator, which StringDataGenerator is for the sizes used.
- Generator.WriteSessionSchedule: requires 16 ≤ meetings < 2^30. Below 16 there is no room, so the maximum capacity does not exist and the source throws. From 2^30 the doubled count overflows.
- Generator.MeetingCount: the running meeting count of the curriculum loop is unbounded. The source's int would overflow only beyond 2^31 meetings.
- Generator.RoomNumber: the room index is non-negative, so Java's division is plain division. The room number is wrapped to 32 bits.
- UnionSelection.UnionMoveSelector.NextWeighted: the probability weights are natural numbers, not doubles. `nextDouble()` is a fraction numerator/denominator in [0, 1). The chosen child is the active one whose cumulative weight slice holds ⌊draw × total⌋. Only the behaviour the test fixes is modelled: ending and random modes, and lifecycle forwarding. The union's other options, cache types and selection order across phases are not.
- The Swing panel and the score network's grouping node are outside the timetabling core and are not modelled.
