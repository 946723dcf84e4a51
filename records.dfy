/** The records held in the dashboard's in-memory database `db`, and the database itself. */
module Records {

  datatype Option<T> = None | Some(value: T)

  /** A screened student. `semester` is a number; `mood7` holds one mood sample per weekday
      and `moodMonth` one weekly average per week of the month. */
  datatype Student = Student(
    id: string,
    alias: string,
    gender: string,
    semester: int,
    mood7: seq<int>,
    moodMonth: seq<real>,
    phq: int,
    gad: int)

  /** A counsellor. One created through the form has no `appointments` field at all. */
  datatype Counsellor = Counsellor(
    id: string,
    name: string,
    gender: string,
    status: string,
    appointments: Option<int>)

  /** An anonymous community post; its id is a number. */
  datatype Post = Post(
    id: int,
    alias: string,
    text: string,
    hashtags: seq<string>,
    reported: bool)

  datatype Trend = Trend(tag: string, sentiment: real)

  datatype Appointment = Appointment(
    counsellor: string,
    alias: string,
    severity: string,
    date: string,
    time: string,
    mode: string)

  /** A sent notification: the form's fields plus an id and the status "Sent". */
  datatype Notification = Notification(
    id: string,
    title: string,
    desc: string,
    date: string,
    time: string,
    audience: string,
    status: string)

  /** The whole database object that every page reads and `setDb` replaces. */
  datatype Db = Db(
    students: seq<Student>,
    counsellors: seq<Counsellor>,
    anonymousPosts: seq<Post>,
    trends: seq<Trend>,
    appointments: seq<Appointment>,
    notifications: seq<Notification>)
}
