/**
 The medical centre's store: services, doctors, each doctor's weekly template
 of working windows, appointments and patients, all kept as sequences in one
 record. Reads are functions of the record; each mutating call is a function
 from the record to the new record and the reply. Dates and times in the
 store are the strings callers pass in: two appointments collide only when
 their date and time strings are equal, and the strings are parsed (with the
 strptime formats `"%Y-%m-%d"` and `"%H:%M"`) only to look up the weekday
 window and to compare a time with it.
 */
module ScheduleStore {
  import opened Wrappers
  import opened Text
  import opened Calendar

  datatype Service = Service(id: string, name: string, category: string)

  datatype Doctor = Doctor(id: string, name: string, specialty: string, position: string, room: string)

  /** One working window of a weekly template, as the `"start"`/`"end"` strings it stores. */
  datatype Window = Window(start: string, end: string)

  /** A doctor's week: lower-case English weekday name to that day's window. */
  type WeekTemplate = map<string, Window>

  datatype Status = Scheduled | Cancelled

  datatype Appointment = Appointment(
    id: string, doctorId: string, patientName: string, patientPhone: string,
    date: string, time: string, serviceId: string, complaint: string, status: Status)

  datatype Patient = Patient(id: string, name: string, phone: string, email: string, birthDate: string)

  datatype Store = Store(
    services: seq<Service>, doctors: seq<Doctor>, schedule: map<string, WeekTemplate>,
    appointments: seq<Appointment>, patients: seq<Patient>)

  /** The reply of a mutating call: its success flag, its message and, for a booking, the new id. */
  datatype Outcome = Outcome(success: bool, message: string, appointmentId: Option<string>)

  // ---------------------------------------------------------------------
  // Filtering in store order

  /** The elements of `s` that `keep` accepts, in their order in `s`. */
  function Filter<T(!new)>(s: seq<T>, keep: T -> bool): (r: seq<T>)
    ensures |r| <= |s|
    ensures forall x :: x in r <==> x in s && keep(x)
    decreases |s|
  {
    if |s| == 0 then []
    else
      assert s == s[..|s| - 1] + [s[|s| - 1]];
      Filter(s[..|s| - 1], keep) + (if keep(s[|s| - 1]) then [s[|s| - 1]] else [])
  }

  /** Filtering keeps the order: filtering a concatenation concatenates the filtered parts. */
  lemma {:induction false} FilterAppend<T(!new)>(a: seq<T>, b: seq<T>, keep: T -> bool)
    ensures Filter(a + b, keep) == Filter(a, keep) + Filter(b, keep)
    decreases |b|
  {
    if |b| == 0 {
      assert a + b == a;
    } else {
      var b' := b[..|b| - 1];
      assert (a + b)[..|a + b| - 1] == a + b';
      assert (a + b)[|a + b| - 1] == b[|b| - 1];
      FilterAppend(a, b', keep);
    }
  }

  /** Two filters that accept complementary sets of elements split the sequence between them. */
  lemma {:induction false} FilterPartition<T(!new)>(s: seq<T>, p: T -> bool, q: T -> bool)
    requires forall x :: p(x) != q(x)
    ensures |Filter(s, p)| + |Filter(s, q)| == |s|
    decreases |s|
  {
    if |s| > 0 {
      FilterPartition(s[..|s| - 1], p, q);
    }
  }

  /** The number of elements of `s` that satisfy `keep`, counted one by one. */
  function Count<T>(s: seq<T>, keep: T -> bool): (n: nat)
    ensures n <= |s|
    ensures n == 0 <==> forall j :: 0 <= j < |s| ==> !keep(s[j])
    decreases |s|
  {
    if |s| == 0 then 0
    else
      var init := s[..|s| - 1];
      assert forall j :: 0 <= j < |init| ==> init[j] == s[j];
      Count(init, keep) + (if keep(s[|s| - 1]) then 1 else 0)
  }

  /** A filter keeps one element per element counted: its length is the count. */
  lemma {:induction false} CountIsFilterLength<T(!new)>(s: seq<T>, keep: T -> bool)
    ensures |Filter(s, keep)| == Count(s, keep)
    decreases |s|
  {
    if |s| > 0 {
      CountIsFilterLength(s[..|s| - 1], keep);
    }
  }

  // ---------------------------------------------------------------------
  // Doctors and weekly templates

  /** `get_doctors_by_specialty`: the doctors whose specialty equals `specialty`, in store order. */
  function DoctorsBySpecialty(store: Store, specialty: string): (r: seq<Doctor>)
    ensures forall d :: d in r <==> d in store.doctors && d.specialty == specialty
  {
    Filter(store.doctors, (d: Doctor) => d.specialty == specialty)
  }

  /** Adding a doctor at the end adds it at the end of its specialty's list, and nowhere else. */
  lemma DoctorsBySpecialtyAppend(store: Store, doctor: Doctor, specialty: string)
    ensures DoctorsBySpecialty(store.(doctors := store.doctors + [doctor]), specialty)
         == DoctorsBySpecialty(store, specialty) + (if doctor.specialty == specialty then [doctor] else [])
  {
    FilterAppend(store.doctors, [doctor], (d: Doctor) => d.specialty == specialty);
  }

  /** The names `strftime("%A").lower()` gives, Monday first, as `date.weekday()` numbers them. */
  const WeekdayNames: seq<string> := ["monday", "tuesday", "wednesday", "thursday", "friday", "saturday", "sunday"]

  function WeekdayName(d: Date): string
    requires ValidDate(d)
  {
    WeekdayNames[Weekday(d)]
  }

  /** The template of a doctor; an unknown doctor has an empty week. */
  function WeekOf(store: Store, doctorId: string): WeekTemplate {
    if doctorId in store.schedule then store.schedule[doctorId] else map[]
  }

  /** The template entry for the weekday of `d`, if the doctor works that weekday. */
  function DayWindow(store: Store, doctorId: string, d: Date): (r: Option<Window>)
    requires ValidDate(d)
    ensures r.None? <==> WeekdayName(d) !in WeekOf(store, doctorId)
    ensures r.Some? ==> r.value == WeekOf(store, doctorId)[WeekdayName(d)]
  {
    var week := WeekOf(store, doctorId);
    if WeekdayName(d) in week then Some(week[WeekdayName(d)]) else None
  }

  /**
   The reply of `get_doctor_schedule`: the whole week when no date is given,
   the day's window for a date, or the empty reply when the date does not parse.
   */
  datatype ScheduleView = WeekView(doctorId: string, week: WeekTemplate) | DayView(date: string, window: Option<Window>) | NoView

  function DoctorSchedule(store: Store, doctorId: string, date: string): (v: ScheduleView)
    ensures v.WeekView? <==> date == ""
    ensures v.NoView? <==> date != "" && ParseIsoDate(date).None?
    ensures v.DayView? ==> v.date == date && v.window == DayWindow(store, doctorId, ParseIsoDate(date).value)
  {
    if date == "" then WeekView(doctorId, WeekOf(store, doctorId))
    else match ParseIsoDate(date)
      case None => NoView
      case Some(d) => DayView(date, DayWindow(store, doctorId, d))
  }

  /** For a date in the store's own format the view is the template entry for its weekday. */
  lemma ScheduleOfDate(store: Store, doctorId: string, d: Date)
    requires ValidDate(d)
    ensures DoctorSchedule(store, doctorId, FormatIsoDate(d)) == DayView(FormatIsoDate(d), DayWindow(store, doctorId, d))
  {
    IsoDateRoundTrip(d);
  }

  /** The template is weekly: a date and the date whole weeks later have the same window. */
  lemma WindowRepeatsWeekly(store: Store, doctorId: string, d: Date, k: nat)
    requires ValidDate(d) && k % 7 == 0 && AddDays(d, k).Some?
    ensures DayWindow(store, doctorId, AddDays(d, k).value) == DayWindow(store, doctorId, d)
  {
    var e := AddDays(d, k).value;
    SameWeekdayWeeksLater(d, k);
    assert Weekday(e) == Weekday(d);
    SameWeekdaySameWindow(store, doctorId, d, e);
  }

  /** A date whole weeks later falls on the same weekday. */
  lemma SameWeekdayWeeksLater(d: Date, k: nat)
    requires ValidDate(d) && k % 7 == 0 && AddDays(d, k).Some?
    ensures Weekday(AddDays(d, k).value) == Weekday(d)
  {
    var w := Weekday(d);
    WeekdayAfter(d, k);
    WholeWeeks(w, k);
  }

  lemma WholeWeeks(w: int, k: int)
    requires 0 <= w < 7 && k % 7 == 0
    ensures (w + k) % 7 == w
  {
    var q := k / 7;
    assert k == 7 * q;
    assert w + k == 7 * q + w;
  }

  lemma SameWeekdaySameWindow(store: Store, doctorId: string, a: Date, b: Date)
    requires ValidDate(a) && ValidDate(b) && Weekday(a) == Weekday(b)
    ensures DayWindow(store, doctorId, a) == DayWindow(store, doctorId, b)
  {
  }

  // ---------------------------------------------------------------------
  // Availability

  /**
   The day's working hours as clocks: present when the day has a window with
   both ends non-empty and both in `"%H:%M"` form.
   */
  function WorkingHours(store: Store, doctorId: string, date: string): (r: Option<(Clock, Clock)>)
    ensures r.Some? ==> ValidClock(r.value.0) && ValidClock(r.value.1)
    ensures r.Some? <==> && DoctorSchedule(store, doctorId, date).DayView?
                         && DoctorSchedule(store, doctorId, date).window.Some?
                         && ParseClock(DoctorSchedule(store, doctorId, date).window.value.start).Some?
                         && ParseClock(DoctorSchedule(store, doctorId, date).window.value.end).Some?
  {
    match DoctorSchedule(store, doctorId, date)
    case DayView(_, Some(w)) =>
      if w.start == "" || w.end == "" then None
      else (match (ParseClock(w.start), ParseClock(w.end))
        case (Some(s), Some(e)) => Some((s, e))
        case _ => None)
    case _ => None
  }

  /** A time inside the day's hours, both ends included; no 30-minute alignment is asked for. */
  predicate WithinHours(store: Store, doctorId: string, date: string, time: string) {
    && WorkingHours(store, doctorId, date).Some?
    && ParseClock(time).Some?
    && Minutes(WorkingHours(store, doctorId, date).value.0) <= Minutes(ParseClock(time).value)
    && Minutes(ParseClock(time).value) <= Minutes(WorkingHours(store, doctorId, date).value.1)
  }

  /** An appointment that holds the slot: same doctor, date string and time string, not cancelled. */
  predicate Blocks(a: Appointment, doctorId: string, date: string, time: string) {
    a.doctorId == doctorId && a.date == date && a.time == time && a.status != Cancelled
  }

  /** The scan over the appointments that stops at the first one holding the slot. */
  function Taken(apts: seq<Appointment>, doctorId: string, date: string, time: string): (r: bool)
    ensures r <==> exists i :: 0 <= i < |apts| && Blocks(apts[i], doctorId, date, time)
  {
    if |apts| == 0 then false
    else if Blocks(apts[0], doctorId, date, time) then
      assert Blocks(apts[0], doctorId, date, time);
      true
    else
      var r := Taken(apts[1..], doctorId, date, time);
      assert forall i :: 1 <= i < |apts| ==> apts[i] == apts[1..][i - 1];
      r
  }

  /** `check_appointment_availability`. */
  function IsSlotFree(store: Store, doctorId: string, date: string, time: string): (free: bool)
    ensures free <==> && WithinHours(store, doctorId, date, time)
                      && forall i :: 0 <= i < |store.appointments| ==> !Blocks(store.appointments[i], doctorId, date, time)
  {
    match WorkingHours(store, doctorId, date)
    case None => false
    case Some((s, e)) =>
      match ParseClock(time)
      case None => false
      case Some(t) =>
        if !(Minutes(s) <= Minutes(t) <= Minutes(e)) then false
        else !Taken(store.appointments, doctorId, date, time)
  }

  // ---------------------------------------------------------------------
  // Slot enumeration

  /** The `"%H:%M"` text of the time `m` minutes after midnight (empty outside the day, which no slot is). */
  function SlotText(m: int): string {
    if 0 <= m < MinutesPerDay then FormatClock(ClockAt(m)) else ""
  }

  /** The minutes after midnight a slot text stands for, or -1 when it is not a time. */
  function SlotMinutes(t: string): int {
    match ParseClock(t)
    case Some(c) => Minutes(c)
    case None => -1
  }

  lemma SlotTextMinutes(m: int)
    requires 0 <= m < MinutesPerDay
    ensures SlotMinutes(SlotText(m)) == m
  {
    ClockRoundTrip(ClockAt(m));
  }

  /** A point of the half-hour grid that starts at `from` and stops short of `until`. */
  predicate OnGrid(from: int, until: int, m: int) {
    from <= m < until && (m - from) % 30 == 0
  }

  lemma GridStep(from: int, until: int)
    ensures forall m :: OnGrid(from, until, m) && m != from ==> OnGrid(from + 30, until, m)
  {
  }

  /**
   The points `from`, `from + 30`, ... strictly below `until` that `open`
   accepts, in increasing order.
   */
  function GridFilter(from: int, until: int, open: int -> bool): (r: seq<int>)
    ensures forall i :: 0 <= i < |r| ==> OnGrid(from, until, r[i]) && open(r[i])
    ensures forall i, j :: 0 <= i < j < |r| ==> r[i] < r[j]
    ensures forall m :: OnGrid(from, until, m) && open(m) ==> m in r
    decreases until - from
  {
    if from >= until then []
    else
      var rest := GridFilter(from + 30, until, open);
      GridStep(from, until);
      if open(from) then [from] + rest else rest
  }

  /** A point of the day whose slot text is free. */
  predicate OpenSlot(store: Store, doctorId: string, date: string, m: int) {
    0 <= m < MinutesPerDay && IsSlotFree(store, doctorId, date, SlotText(m))
  }

  /** The free half-hour slots of the day, from the window's start and below its end. */
  function AvailableSlots(store: Store, doctorId: string, date: string): (r: seq<int>)
    ensures WorkingHours(store, doctorId, date).None? ==> r == []
    ensures forall i :: 0 <= i < |r| ==> OpenSlot(store, doctorId, date, r[i])
    ensures forall i, j :: 0 <= i < j < |r| ==> r[i] < r[j]
    ensures WorkingHours(store, doctorId, date).Some? ==>
      var (s, e) := WorkingHours(store, doctorId, date).value;
      && (forall i :: 0 <= i < |r| ==> OnGrid(Minutes(s), Minutes(e), r[i]))
      && (forall m :: OnGrid(Minutes(s), Minutes(e), m) && OpenSlot(store, doctorId, date, m) ==> m in r)
  {
    match WorkingHours(store, doctorId, date)
    case None => []
    case Some((s, e)) => GridFilter(Minutes(s), Minutes(e), m => OpenSlot(store, doctorId, date, m))
  }

  /** The image of a sequence of slots under `f`, in order. */
  function MapSlots(ms: seq<int>, f: int -> string): (r: seq<string>)
    ensures |r| == |ms| && forall i :: 0 <= i < |ms| ==> r[i] == f(ms[i])
  {
    if |ms| == 0 then [] else [f(ms[0])] + MapSlots(ms[1..], f)
  }

  /** `get_available_times`: the `"%H:%M"` texts of the free half-hour slots. */
  function AvailableTimes(store: Store, doctorId: string, date: string): (r: seq<string>)
    ensures |r| == |AvailableSlots(store, doctorId, date)|
    ensures forall i :: 0 <= i < |r| ==> r[i] == SlotText(AvailableSlots(store, doctorId, date)[i])
  {
    MapSlots(AvailableSlots(store, doctorId, date), SlotText)
  }

  /** Every listed time is free, and the listed times read back in strictly increasing order. */
  lemma AvailableTimesFreeAndSorted(store: Store, doctorId: string, date: string)
    ensures var r := AvailableTimes(store, doctorId, date);
      && (forall i :: 0 <= i < |r| ==> IsSlotFree(store, doctorId, date, r[i]))
      && (forall i, j :: 0 <= i < j < |r| ==> SlotMinutes(r[i]) < SlotMinutes(r[j]))
  {
    var ms := AvailableSlots(store, doctorId, date);
    forall i | 0 <= i < |ms|
      ensures SlotMinutes(SlotText(ms[i])) == ms[i]
    {
      SlotTextMinutes(ms[i]);
    }
  }

  /** With no working hours that day, no time is listed. */
  lemma NoWindowNoTimes(store: Store, doctorId: string, date: string)
    requires WorkingHours(store, doctorId, date).None?
    ensures AvailableTimes(store, doctorId, date) == []
  {
  }

  // ---------------------------------------------------------------------
  // Appointments

  /** The fields a booking request carries. */
  datatype Request = Request(
    doctorId: string, patientName: string, patientPhone: string,
    date: string, time: string, serviceId: string, complaint: string)

  /** `f"apt_{n:06d}"`. */
  function AppointmentId(n: nat): string {
    "apt_" + ZeroPad(n, 6)
  }

  /** `f"pat_{n:06d}"`. */
  function PatientId(n: nat): string {
    "pat_" + ZeroPad(n, 6)
  }

  lemma PrefixedInjective(p: string, a: string, b: string)
    requires p + a == p + b
    ensures a == b
  {
    assert a == (p + a)[|p|..];
    assert b == (p + b)[|p|..];
  }

  lemma AppointmentIdInjective(a: nat, b: nat)
    requires AppointmentId(a) == AppointmentId(b)
    ensures a == b
  {
    PrefixedInjective("apt_", ZeroPad(a, 6), ZeroPad(b, 6));
    ZeroPadInjective(a, b, 6);
  }

  lemma PatientIdInjective(a: nat, b: nat)
    requires PatientId(a) == PatientId(b)
    ensures a == b
  {
    PrefixedInjective("pat_", ZeroPad(a, 6), ZeroPad(b, 6));
    ZeroPadInjective(a, b, 6);
  }

  const SlotUnavailable: string := "Выбранное время недоступно"

  /**
   `create_appointment`: the id is taken from the count before the call; the
   slot is checked again and, when free, one scheduled record is appended.
   */
  function CreateAppointment(store: Store, req: Request): (r: (Store, Outcome))
    ensures r.1.success <==> IsSlotFree(store, req.doctorId, req.date, req.time)
    ensures !r.1.success ==> r.0 == store && r.1 == Outcome(false, SlotUnavailable, None)
    ensures r.1.success ==>
      && r.0 == store.(appointments := r.0.appointments)
      && |r.0.appointments| == |store.appointments| + 1
      && r.0.appointments[..|store.appointments|] == store.appointments
      && r.1.appointmentId == Some(AppointmentId(|store.appointments| + 1))
      && r.1.message == "Запись создана на " + req.date + " в " + req.time
    ensures r.1.success ==>
      var a := r.0.appointments[|store.appointments|];
      && a.id == AppointmentId(|store.appointments| + 1) && a.status == Scheduled
      && a.doctorId == req.doctorId && a.date == req.date && a.time == req.time
      && a.patientName == req.patientName && a.patientPhone == req.patientPhone
      && a.serviceId == req.serviceId && a.complaint == req.complaint
  {
    var id := AppointmentId(|store.appointments| + 1);
    if !IsSlotFree(store, req.doctorId, req.date, req.time) then
      (store, Outcome(false, SlotUnavailable, None))
    else
      var a := Appointment(id, req.doctorId, req.patientName, req.patientPhone,
                           req.date, req.time, req.serviceId, req.complaint, Scheduled);
      var apts := store.appointments + [a];
      assert apts[..|store.appointments|] == store.appointments;
      (store.(appointments := apts), Outcome(true, "Запись создана на " + req.date + " в " + req.time, Some(id)))
  }

  /** A slot just booked is no longer free. */
  lemma BookedSlotNotFree(store: Store, req: Request)
    requires CreateAppointment(store, req).1.success
    ensures !IsSlotFree(CreateAppointment(store, req).0, req.doctorId, req.date, req.time)
  {
    var after := CreateAppointment(store, req).0;
    assert Blocks(after.appointments[|store.appointments|], req.doctorId, req.date, req.time);
  }

  /** The position of the first element of `xs` that satisfies `p`. */
  function FirstWhere<T>(xs: seq<T>, p: T -> bool): (r: Option<nat>)
    ensures r.Some? ==> r.value < |xs| && p(xs[r.value])
    ensures r.Some? ==> forall j :: 0 <= j < r.value ==> !p(xs[j])
    ensures r.None? <==> forall j :: 0 <= j < |xs| ==> !p(xs[j])
  {
    if |xs| == 0 then None
    else if p(xs[0]) then Some(0)
    else match FirstWhere(xs[1..], p)
      case None =>
        assert forall j :: 1 <= j < |xs| ==> xs[j] == xs[1..][j - 1];
        None
      case Some(k) => Some(k + 1)
  }

  /** An appointment is the one with id `id`. */
  function HasId(id: string): Appointment -> bool {
    (a: Appointment) => a.id == id
  }

  const CancelDone: string := "Запись успешно отменена"
  const CancelUnknown: string := "Запись не найдена"

  /**
   `cancel_appointment`: the first appointment with the id is marked cancelled
   and the call reports success, whatever its status was; nothing is removed.
   */
  function CancelAppointment(store: Store, id: string): (r: (Store, Outcome))
    ensures r.1.success <==> exists j :: 0 <= j < |store.appointments| && store.appointments[j].id == id
    ensures !r.1.success ==> r.0 == store && r.1 == Outcome(false, CancelUnknown, None)
    ensures r.1.success ==>
      var k := FirstWhere(store.appointments, HasId(id)).value;
      && r.1 == Outcome(true, CancelDone, None)
      && r.0 == store.(appointments := r.0.appointments)
      && |r.0.appointments| == |store.appointments|
      && r.0.appointments[k] == store.appointments[k].(status := Cancelled)
      && forall j :: 0 <= j < |store.appointments| && j != k ==> r.0.appointments[j] == store.appointments[j]
  {
    match FirstWhere(store.appointments, HasId(id))
    case None => (store, Outcome(false, CancelUnknown, None))
    case Some(k) =>
      var apts := store.appointments[k := store.appointments[k].(status := Cancelled)];
      (store.(appointments := apts), Outcome(true, CancelDone, None))
  }

  /** Cancelling twice succeeds twice, and the second call changes nothing more. */
  lemma CancelTwice(store: Store, id: string)
    requires CancelAppointment(store, id).1.success
    ensures var once := CancelAppointment(store, id).0;
      && CancelAppointment(once, id).1.success
      && CancelAppointment(once, id).0 == once
  {
    var once := CancelAppointment(store, id).0;
    var k := FirstWhere(store.appointments, HasId(id)).value;
    assert once.appointments[k].id == id;
    assert FirstWhere(once.appointments, HasId(id)) == Some(k);
    assert once.appointments[k := once.appointments[k].(status := Cancelled)] == once.appointments;
  }

  /** No two scheduled appointments hold the same doctor, date and time strings. */
  predicate NoDoubleBooking(apts: seq<Appointment>) {
    forall i, j :: 0 <= i < j < |apts| && Blocks(apts[i], apts[j].doctorId, apts[j].date, apts[j].time) ==> apts[j].status == Cancelled
  }

  /** Booking through the re-check never double-books. */
  lemma CreateKeepsNoDoubleBooking(store: Store, req: Request)
    requires NoDoubleBooking(store.appointments)
    ensures NoDoubleBooking(CreateAppointment(store, req).0.appointments)
  {
    var r := CreateAppointment(store, req);
    if r.1.success {
      var apts := r.0.appointments;
      var n := |store.appointments|;
      forall i, j | 0 <= i < j < |apts| && Blocks(apts[i], apts[j].doctorId, apts[j].date, apts[j].time)
        ensures apts[j].status == Cancelled
      {
        if j < n {
          assert apts[i] == store.appointments[i] && apts[j] == store.appointments[j];
        }
      }
    }
  }

  /** Cancelling never double-books either. */
  lemma CancelKeepsNoDoubleBooking(store: Store, id: string)
    requires NoDoubleBooking(store.appointments)
    ensures NoDoubleBooking(CancelAppointment(store, id).0.appointments)
  {
  }

  /**
   Once the store holds no double booking, cancelling a scheduled appointment
   frees its slot again exactly when the slot lies within the day's hours.
   */
  lemma CancelFreesSlot(store: Store, id: string)
    requires NoDoubleBooking(store.appointments)
    requires CancelAppointment(store, id).1.success
    requires store.appointments[FirstWhere(store.appointments, HasId(id)).value].status == Scheduled
    ensures var a := store.appointments[FirstWhere(store.appointments, HasId(id)).value];
      (IsSlotFree(CancelAppointment(store, id).0, a.doctorId, a.date, a.time)
       <==> WithinHours(store, a.doctorId, a.date, a.time))
  {
    var after := CancelAppointment(store, id).0;
    var k := FirstWhere(store.appointments, HasId(id)).value;
    var a := store.appointments[k];
    assert after.schedule == store.schedule;
    forall i | 0 <= i < |after.appointments|
      ensures !Blocks(after.appointments[i], a.doctorId, a.date, a.time)
    {
      if i == k {
        assert after.appointments[k].status == Cancelled;
      } else {
        var b := store.appointments[i];
        assert after.appointments[i] == b;
        if i < k {
          assert Blocks(b, a.doctorId, a.date, a.time) ==> a.status == Cancelled;
        }
      }
    }
  }

  /** Every appointment's id is `apt_` and its one-based position, as the counter hands them out. */
  predicate CounterIds(apts: seq<Appointment>) {
    forall i :: 0 <= i < |apts| ==> apts[i].id == AppointmentId(i + 1)
  }

  lemma CreateKeepsCounterIds(store: Store, req: Request)
    requires CounterIds(store.appointments)
    ensures CounterIds(CreateAppointment(store, req).0.appointments)
  {
    var r := CreateAppointment(store, req);
    if r.1.success {
      CounterIdsExtend(store.appointments, r.0.appointments);
    }
  }

  /** Appending the record with the next counter id keeps the ids positional. */
  lemma CounterIdsExtend(before: seq<Appointment>, after: seq<Appointment>)
    requires CounterIds(before)
    requires |after| == |before| + 1 && after[..|before|] == before
    requires after[|before|].id == AppointmentId(|before| + 1)
    ensures CounterIds(after)
  {
    forall i | 0 <= i < |after|
      ensures after[i].id == AppointmentId(i + 1)
    {
      if i < |before| {
        assert after[i] == after[..|before|][i];
      }
    }
  }

  lemma CancelKeepsCounterIds(store: Store, id: string)
    requires CounterIds(store.appointments)
    ensures CounterIds(CancelAppointment(store, id).0.appointments)
  {
  }

  /** Counter-built ids never repeat, since appointments are never removed. */
  lemma CounterIdsUnique(apts: seq<Appointment>, i: nat, j: nat)
    requires CounterIds(apts) && i < |apts| && j < |apts| && apts[i].id == apts[j].id
    ensures i == j
  {
    AppointmentIdInjective(i + 1, j + 1);
  }

  /**
   Two spellings of one time, such as "9:00" and "09:00", are distinct slots
   to the collision check: booking one leaves the other bookable.
   */
  lemma OtherSpellingStillFree(store: Store, req: Request, time: string)
    requires CreateAppointment(store, req).1.success
    requires IsSlotFree(store, req.doctorId, req.date, time) && time != req.time
    ensures IsSlotFree(CreateAppointment(store, req).0, req.doctorId, req.date, time)
  {
    var after := CreateAppointment(store, req).0;
    forall i | 0 <= i < |after.appointments|
      ensures !Blocks(after.appointments[i], req.doctorId, req.date, time)
    {
      if i < |store.appointments| {
        assert after.appointments[i] == after.appointments[..|store.appointments|][i];
      }
    }
  }

  /** "9:00" and "09:00" are the same time to strptime, for any digit in place of the 9. */
  lemma UnpaddedHourSameTime(d: char)
    requires IsDigit(d)
    ensures ParseClock([d] + ":00") == ParseClock(['0', d] + ":00")
    ensures ParseClock([d] + ":00") == Some(Clock(DigitValue(d), 0))
    ensures [d] + ":00" != ['0', d] + ":00"
  {
    var a, b := [d] + ":00", ['0', d] + ":00";
    assert a[2..] == "00" && b[3..] == "00";
    assert a[..1] == [d] && b[..2] == ['0', d];
  }

  /** `get_appointments_by_date`: the appointments on `date` that are not cancelled, in store order. */
  function AppointmentsOnDate(store: Store, date: string): (r: seq<Appointment>)
    ensures forall a :: a in r <==> a in store.appointments && a.date == date && a.status != Cancelled
    ensures |r| == Count(store.appointments, (a: Appointment) => a.date == date && a.status != Cancelled)
    ensures store.appointments == [] ==> r == []
  {
    CountIsFilterLength(store.appointments, (a: Appointment) => a.date == date && a.status != Cancelled);
    Filter(store.appointments, (a: Appointment) => a.date == date && a.status != Cancelled)
  }

  /** A record added at the end of the store comes last in its date's list, and nowhere else. */
  lemma AppointmentsOnDateAppend(store: Store, a: Appointment, date: string)
    ensures AppointmentsOnDate(store.(appointments := store.appointments + [a]), date)
         == AppointmentsOnDate(store, date) + (if a.date == date && a.status != Cancelled then [a] else [])
  {
    FilterAppend(store.appointments, [a], (a: Appointment) => a.date == date && a.status != Cancelled);
  }

  /** A cancelled appointment drops out of its date's list; the list never grows by cancelling. */
  lemma CancelShrinksDay(store: Store, id: string, date: string)
    requires CancelAppointment(store, id).1.success
    ensures forall a :: a in AppointmentsOnDate(CancelAppointment(store, id).0, date) ==> a in AppointmentsOnDate(store, date)
  {
    var after := CancelAppointment(store, id).0;
    forall a | a in AppointmentsOnDate(after, date)
      ensures a in AppointmentsOnDate(store, date)
    {
      var j :| 0 <= j < |after.appointments| && after.appointments[j] == a;
      assert after.appointments[j] == store.appointments[j];
    }
  }

  // ---------------------------------------------------------------------
  // Patients

  datatype PatientData = PatientData(name: string, phone: string, email: string, birthDate: string)

  /** `add_patient`: appends the patient under the next `pat_` counter id and returns that id. */
  function AddPatient(store: Store, data: PatientData): (r: (Store, string))
    ensures r.1 == PatientId(|store.patients| + 1)
    ensures r.0 == store.(patients := store.patients + [Patient(r.1, data.name, data.phone, data.email, data.birthDate)])
  {
    var id := PatientId(|store.patients| + 1);
    (store.(patients := store.patients + [Patient(id, data.name, data.phone, data.email, data.birthDate)]), id)
  }

  /** A patient is one with phone `phone`. */
  function HasPhone(phone: string): Patient -> bool {
    (p: Patient) => p.phone == phone
  }

  /** `find_patient_by_phone`: the first patient with an equal phone string. */
  function FindPatientByPhone(store: Store, phone: string): (r: Option<Patient>)
    ensures r.None? <==> forall j :: 0 <= j < |store.patients| ==> store.patients[j].phone != phone
    ensures r.Some? ==> r.value.phone == phone && r.value in store.patients
    ensures r.Some? ==> exists k :: 0 <= k < |store.patients| && r.value == store.patients[k]
                                 && forall j :: 0 <= j < k ==> store.patients[j].phone != phone
  {
    match FirstWhere(store.patients, HasPhone(phone))
    case None => None
    case Some(k) => Some(store.patients[k])
  }

  /** A patient added under a new phone is the one found by that phone. */
  lemma AddedPatientFound(store: Store, data: PatientData)
    requires FindPatientByPhone(store, data.phone).None?
    ensures var (after, id) := AddPatient(store, data);
      FindPatientByPhone(after, data.phone) == Some(Patient(id, data.name, data.phone, data.email, data.birthDate))
  {
    var (after, id) := AddPatient(store, data);
    assert after.patients[|store.patients|].phone == data.phone;
  }

  /** Adding a patient under a phone already on file does not change whom that phone finds. */
  lemma EarlierPatientWins(store: Store, data: PatientData)
    requires FindPatientByPhone(store, data.phone).Some?
    ensures FindPatientByPhone(AddPatient(store, data).0, data.phone) == FindPatientByPhone(store, data.phone)
  {
    var ps := AddPatient(store, data).0.patients;
    var k := FirstWhere(store.patients, HasPhone(data.phone)).value;
    assert forall j :: 0 <= j < |store.patients| ==> ps[j] == store.patients[j];
    var r := FirstWhere(ps, HasPhone(data.phone));
    assert ps[k].phone == data.phone;
    assert r.value == k;
  }

  // ---------------------------------------------------------------------
  // Statistics

  datatype Statistics = Statistics(
    totalServices: nat, totalDoctors: nat, totalAppointments: nat,
    activeAppointments: nat, cancelledAppointments: nat, doctorsBySpecialty: map<string, nat>)

  /** The number of doctors with specialty `sp`. */
  function CountSpecialty(doctors: seq<Doctor>, sp: string): (n: nat)
    ensures n == 0 <==> forall j :: 0 <= j < |doctors| ==> doctors[j].specialty != sp
    decreases |doctors|
  {
    if |doctors| == 0 then 0
    else
      var init := doctors[..|doctors| - 1];
      assert forall j :: 0 <= j < |init| ==> init[j] == doctors[j];
      CountSpecialty(init, sp) + (if doctors[|doctors| - 1].specialty == sp then 1 else 0)
  }

  /** The count is the length of the specialty's doctor list. */
  lemma {:induction false} CountIsListLength(doctors: seq<Doctor>, sp: string)
    ensures CountSpecialty(doctors, sp) == |Filter(doctors, (d: Doctor) => d.specialty == sp)|
    decreases |doctors|
  {
    if |doctors| > 0 {
      CountIsListLength(doctors[..|doctors| - 1], sp);
    }
  }

  /** The per-specialty head count the loop of `get_statistics` builds. */
  function Tally(doctors: seq<Doctor>): (t: map<string, nat>)
    ensures forall sp :: sp in t <==> CountSpecialty(doctors, sp) > 0
    ensures forall sp :: sp in t ==> t[sp] == CountSpecialty(doctors, sp)
    decreases |doctors|
  {
    if |doctors| == 0 then map[]
    else
      var last := doctors[|doctors| - 1];
      var t := Tally(doctors[..|doctors| - 1]);
      var count: nat := if last.specialty in t then t[last.specialty] else 0;
      t[last.specialty := count + 1]
  }

  /** `get_statistics`. */
  function GetStatistics(store: Store): (st: Statistics)
    ensures st.activeAppointments + st.cancelledAppointments == st.totalAppointments == |store.appointments|
    ensures st.totalDoctors == |store.doctors| && st.totalServices == |store.services|
    ensures forall sp :: sp in st.doctorsBySpecialty <==> exists j :: 0 <= j < |store.doctors| && store.doctors[j].specialty == sp
    ensures forall sp :: sp in st.doctorsBySpecialty ==> st.doctorsBySpecialty[sp] == |DoctorsBySpecialty(store, sp)|
    ensures st.activeAppointments == Count(store.appointments, (a: Appointment) => a.status == Scheduled)
    ensures st.cancelledAppointments == Count(store.appointments, (a: Appointment) => a.status == Cancelled)
  {
    forall sp ensures CountSpecialty(store.doctors, sp) == |DoctorsBySpecialty(store, sp)| {
      CountIsListLength(store.doctors, sp);
    }
    var active := Filter(store.appointments, (a: Appointment) => a.status == Scheduled);
    var cancelled := Filter(store.appointments, (a: Appointment) => a.status == Cancelled);
    FilterPartition(store.appointments, (a: Appointment) => a.status == Scheduled, (a: Appointment) => a.status == Cancelled);
    CountIsFilterLength(store.appointments, (a: Appointment) => a.status == Scheduled);
    CountIsFilterLength(store.appointments, (a: Appointment) => a.status == Cancelled);
    Statistics(|store.services|, |store.doctors|, |store.appointments|, |active|, |cancelled|, Tally(store.doctors))
  }
}
