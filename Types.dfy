/** Records of the tutoring app (types.ts), as immutable values.
    Times are integer milliseconds since the epoch; ISO date strings are not modelled.
    Floating-point fields (rating, distance, gpa) are left out. */
module Types {

  datatype Option<+T> = None | Some(value: T)

  /** One line of a tutor's transcript. */
  datatype Grade = Grade(subject: string, score: string)

  /** A catalog entry; never changed at run time. */
  datatype Tutor = Tutor(
    id: string,
    name: string,
    avatar: string,
    subjects: seq<string>,
    reviews: int,
    hourlyRate: int,
    bio: string,
    school: string,
    transcript: seq<Grade>,
    available: bool)

  /** The identity of a tutor, as a function value for keyed list operations. */
  function TutorId(t: Tutor): string {
    t.id
  }

  /** Top-level screens (the ViewState enum). */
  datatype ViewState = Auth | Home | SearchView | Career | Activity | Account | BookingSuccess

  /** The status tag of a booking, kept apart from its display text. */
  datatype BookingStatus = Pending | Confirmed | Completed | Cancelled

  /** A session request. `time` is the scheduled instant, `timestamp` the creation instant.
      `cost` and `meetLink` are optional because the code that creates bookings sets neither. */
  datatype Booking = Booking(
    id: string,
    tutor: Tutor,
    subject: string,
    time: int,
    note: string,
    status: BookingStatus,
    timestamp: int,
    cost: Option<int>,
    meetLink: Option<string>)

  /** A grade the student records about themself. */
  datatype UserGrade = UserGrade(id: string, subjectName: string, scoreNumber: string, scoreLetter: string)

  /** One recurring slot of the student's own timetable. */
  datatype SchoolScheduleItem = SchoolScheduleItem(
    id: string,
    subject: string,
    day: string,
    startTime: string,
    endTime: string,
    room: string,
    startDate: Option<string>,
    endDate: Option<string>)

  /** The student's profile, replaced as a whole on every update. */
  datatype UserProfile = UserProfile(
    name: string,
    avatar: string,
    school: string,
    year: string,
    studentId: string,
    dob: string,
    balance: int,
    isPro: bool,
    uniqueCode: string,
    grades: seq<UserGrade>,
    schoolSchedule: seq<SchoolScheduleItem>)
}
