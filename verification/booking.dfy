/**
 The booking orchestrator of the appointment service: the fixed decision
 cascade of `book_appointment` (specialty, doctor list, doctor, date, time,
 availability, name and phone, patient, commit), the search for the nearest
 date with a free slot, and the week of alternative suggestions. "Now" is the
 explicit `today`; an empty string stands for an argument the caller left out.
 */
module Booking {
  import opened Wrappers
  import opened Text
  import opened Calendar
  import opened Extractors
  import opened ScheduleStore

  /** The keyword arguments of `book_appointment`; "" is an argument not given. */
  datatype BookingRequest = BookingRequest(
    specialty: string, doctorName: string, date: string, time: string,
    patientName: string, patientPhone: string, complaint: string)

  const NoSpecialty: string := "Не указана специальность врача"
  const UnknownSpecialty: string := "Неизвестная специальность. Доступные: терапевт, кардиолог, невролог, гинеколог, уролог, педиатр."
  const NameMissing: string := "Укажите ваше имя для записи"
  const PhoneMissing: string := "Укажите контактный телефон"
  const BookingError: string := "Произошла ошибка при записи. Попробуйте еще раз."

  function Failed(message: string): Outcome {
    Outcome(false, message, None)
  }

  // ---------------------------------------------------------------------
  // Choosing the doctor

  /** The first doctor whose lower-cased name contains the lower-cased query. */
  function NamedDoctor(doctors: seq<Doctor>, query: string): (r: Option<nat>)
    ensures r.Some? ==> r.value < |doctors| && Contains(LowerStr(doctors[r.value].name), LowerStr(query))
    ensures r.Some? ==> forall j :: 0 <= j < r.value ==> !Contains(LowerStr(doctors[j].name), LowerStr(query))
    ensures r.None? <==> forall j :: 0 <= j < |doctors| ==> !Contains(LowerStr(doctors[j].name), LowerStr(query))
  {
    if |doctors| == 0 then None
    else if Contains(LowerStr(doctors[0].name), LowerStr(query)) then Some(0)
    else match NamedDoctor(doctors[1..], query)
      case None =>
        assert forall j :: 1 <= j < |doctors| ==> doctors[j] == doctors[1..][j - 1];
        None
      case Some(k) => Some(k + 1)
  }

  // ---------------------------------------------------------------------
  // The nearest date with a free slot

  /**
   The loop of `_find_next_available_date` from day `i` on: the first of
   today + i, ..., today + 13 with a free slot, else tomorrow. None is the
   OverflowError of a day past 9999-12-31.
   */
  function ScanDays(store: Store, doctorId: string, today: Date, i: nat): (r: Option<string>)
    requires ValidDate(today) && i <= 14
    ensures Ordinal(today) + 13 <= MaxOrdinal ==> r.Some?
    ensures r.Some? ==>
      && ParseIsoDate(r.value).Some?
      && Ordinal(today) <= Ordinal(ParseIsoDate(r.value).value) <= Ordinal(today) + 13
    decreases 14 - i
  {
    if i == 14 then
      match AddDays(today, 1)
      case None => None
      case Some(d) => IsoDateRoundTrip(d); Some(FormatIsoDate(d))
    else match AddDays(today, i)
      case None => None
      case Some(d) =>
        IsoDateRoundTrip(d);
        if AvailableTimes(store, doctorId, FormatIsoDate(d)) != [] then Some(FormatIsoDate(d))
        else ScanDays(store, doctorId, today, i + 1)
  }

  /** Does day `today + k` exist and have a free slot for the doctor? */
  predicate DayHasSlot(store: Store, doctorId: string, today: Date, k: nat)
    requires ValidDate(today)
  {
    AddDays(today, k).Some? && AvailableTimes(store, doctorId, FormatIsoDate(AddDays(today, k).value)) != []
  }

  /** `_find_next_available_date(doctor_id)` with its default of 14 days. */
  function NextAvailableDate(store: Store, doctorId: string, today: Date): (r: Option<string>)
    requires ValidDate(today)
    ensures Ordinal(today) + 13 <= MaxOrdinal ==> r.Some?
    ensures r.Some? ==>
      && ParseIsoDate(r.value).Some?
      && Ordinal(today) <= Ordinal(ParseIsoDate(r.value).value) <= Ordinal(today) + 13
  {
    ScanDays(store, doctorId, today, 0)
  }

  /**
   The scan from day `i` returns the first day from `i` on with a free slot,
   when it comes before day 14 and no day on the way overflows.
   */
  lemma {:induction false} ScanFindsFirst(store: Store, doctorId: string, today: Date, i: nat, k: nat)
    requires ValidDate(today) && i <= k < 14
    requires DayHasSlot(store, doctorId, today, k)
    requires forall j :: i <= j < k ==> !DayHasSlot(store, doctorId, today, j)
    ensures ScanDays(store, doctorId, today, i) == Some(FormatIsoDate(AddDays(today, k).value))
    decreases k - i
  {
    if i < k {
      assert !DayHasSlot(store, doctorId, today, i);
      assert AddDays(today, i).Some? by {
        assert Ordinal(today) + i <= Ordinal(today) + k;
      }
      ScanFindsFirst(store, doctorId, today, i + 1, k);
    }
  }

  /** With no free slot in the fourteen days the scan falls back to tomorrow. */
  lemma {:induction false} ScanFallsBack(store: Store, doctorId: string, today: Date, i: nat)
    requires ValidDate(today) && i <= 14 && Ordinal(today) + 13 <= MaxOrdinal
    requires forall j :: i <= j < 14 ==> !DayHasSlot(store, doctorId, today, j)
    ensures ScanDays(store, doctorId, today, i) == Some(FormatIsoDate(AddDays(today, 1).value))
    decreases 14 - i
  {
    if i < 14 {
      assert !DayHasSlot(store, doctorId, today, i);
      ScanFallsBack(store, doctorId, today, i + 1);
    }
  }

  /** The auto date is the first of today..today+13 with a free slot; with none, tomorrow. */
  lemma NextAvailableDateIsFirst(store: Store, doctorId: string, today: Date)
    requires ValidDate(today) && Ordinal(today) + 13 <= MaxOrdinal
    ensures (forall j :: 0 <= j < 14 ==> !DayHasSlot(store, doctorId, today, j)) ==>
      NextAvailableDate(store, doctorId, today) == Some(FormatIsoDate(AddDays(today, 1).value))
    ensures forall k :: (0 <= k < 14 && DayHasSlot(store, doctorId, today, k) &&
                         (forall j :: 0 <= j < k ==> !DayHasSlot(store, doctorId, today, j))) ==>
      NextAvailableDate(store, doctorId, today) == Some(FormatIsoDate(AddDays(today, k).value))
  {
    if forall j :: 0 <= j < 14 ==> !DayHasSlot(store, doctorId, today, j) {
      ScanFallsBack(store, doctorId, today, 0);
    }
    forall k | 0 <= k < 14 && DayHasSlot(store, doctorId, today, k) &&
      (forall j :: 0 <= j < k ==> !DayHasSlot(store, doctorId, today, j))
      ensures NextAvailableDate(store, doctorId, today) == Some(FormatIsoDate(AddDays(today, k).value))
    {
      ScanFindsFirst(store, doctorId, today, 0, k);
    }
  }

  // ---------------------------------------------------------------------
  // The cascade up to the slot check

  /** The doctor, date and time the cascade settled on, with the specialty code. */
  datatype Slot = Slot(specialty: string, doctor: Doctor, date: string, time: string)

  /** Where the cascade stopped: with a reply, or with a free slot to book. */
  datatype Stage = Halted(reply: Outcome) | Ready(slot: Slot)

  /** The first three suggested times, joined as the reply lists them. */
  function FirstThree(times: seq<string>): (r: seq<string>)
    ensures |r| <= 3 && |r| <= |times| && r == times[..|r|]
    ensures |r| == 3 || r == times
  {
    if |times| <= 3 then times else times[..3]
  }

  /** The reply when the requested time is not free. */
  function TakenReply(store: Store, doctorId: string, date: string, time: string): (o: Outcome)
    ensures !o.success
    ensures AvailableTimes(store, doctorId, date) != [] ==>
      o.message == "Время " + time + " занято. Доступное время: " + Join(FirstThree(AvailableTimes(store, doctorId, date)), ", ")
    ensures AvailableTimes(store, doctorId, date) == [] ==>
      o.message == "На дату " + date + " нет свободного времени. Выберите другую дату."
  {
    var times := AvailableTimes(store, doctorId, date);
    if times != [] then Failed("Время " + time + " занято. Доступное время: " + Join(FirstThree(times), ", "))
    else Failed("На дату " + date + " нет свободного времени. Выберите другую дату.")
  }

  /** The requested date, or the nearest date with a free slot when none was given. */
  function ChosenDate(store: Store, req: BookingRequest, today: Date, doctor: Doctor): (r: Option<string>)
    requires ValidDate(today)
    ensures req.date != "" ==> r == Some(req.date)
    ensures req.date == "" ==> r == NextAvailableDate(store, doctor.id, today)
  {
    if req.date != "" then Some(req.date) else NextAvailableDate(store, doctor.id, today)
  }

  /** Date, time and availability, once the doctor is chosen. */
  function ChooseTime(store: Store, req: BookingRequest, today: Date, specialty: string, doctor: Doctor): (st: Stage)
    requires ValidDate(today)
    ensures st.Ready? ==> st.slot == Slot(specialty, doctor, st.slot.date, st.slot.time)
    ensures st.Ready? ==> ChosenDate(store, req, today, doctor) == Some(st.slot.date)
    ensures st.Ready? ==> IsSlotFree(store, doctor.id, st.slot.date, st.slot.time)
    ensures st.Ready? && req.time != "" ==> st.slot.time == req.time
    ensures st.Ready? && req.time == "" ==>
      |AvailableTimes(store, doctor.id, st.slot.date)| > 0 && st.slot.time == AvailableTimes(store, doctor.id, st.slot.date)[0]
    ensures ChosenDate(store, req, today, doctor).None? ==> st == Halted(Failed(BookingError))
    ensures ChosenDate(store, req, today, doctor).Some? ==>
      var date := ChosenDate(store, req, today, doctor).value;
      var times := AvailableTimes(store, doctor.id, date);
      && (req.time != "" && IsSlotFree(store, doctor.id, date, req.time) ==>
            st == Ready(Slot(specialty, doctor, date, req.time)))
      && (req.time != "" && !IsSlotFree(store, doctor.id, date, req.time) ==>
            st == Halted(TakenReply(store, doctor.id, date, req.time)))
      && (req.time == "" && times != [] ==> st == Ready(Slot(specialty, doctor, date, times[0])))
      && (req.time == "" && times == [] ==>
            st == Halted(Failed("На дату " + date + " нет свободного времени у врача " + doctor.name)))
    ensures st.Halted? ==> !st.reply.success
  {
    match ChosenDate(store, req, today, doctor)
    case None => Halted(Failed(BookingError))
    case Some(date) =>
      var times := AvailableTimes(store, doctor.id, date);
      if req.time == "" && times == [] then
        Halted(Failed("На дату " + date + " нет свободного времени у врача " + doctor.name))
      else
        var time := if req.time != "" then req.time else times[0];
        AvailableTimesFreeAndSorted(store, doctor.id, date);
        if !IsSlotFree(store, doctor.id, date, time) then Halted(TakenReply(store, doctor.id, date, time))
        else Ready(Slot(specialty, doctor, date, time))
  }

  /** The cascade of `book_appointment` up to and including the availability check. */
  function SelectSlot(store: Store, req: BookingRequest, today: Date): (st: Stage)
    requires ValidDate(today)
    ensures req.specialty == "" ==> st == Halted(Failed(NoSpecialty))
    ensures req.specialty != "" && NormalizeSpecialty(req.specialty).None? ==> st == Halted(Failed(UnknownSpecialty))
    ensures (req.specialty != "" && NormalizeSpecialty(req.specialty).Some? &&
             DoctorsBySpecialty(store, NormalizeSpecialty(req.specialty).value) == []) ==>
      st == Halted(Failed("Врачи специальности '" + req.specialty + "' не найдены"))
    ensures st.Ready? ==> && req.specialty != ""
                          && NormalizeSpecialty(req.specialty) == Some(st.slot.specialty)
                          && st.slot.doctor in DoctorsBySpecialty(store, st.slot.specialty)
                          && IsSlotFree(store, st.slot.doctor.id, st.slot.date, st.slot.time)
    ensures st.Ready? && req.doctorName == "" ==> st.slot.doctor == DoctorsBySpecialty(store, st.slot.specialty)[0]
    ensures st.Ready? && req.doctorName != "" ==>
      var doctors := DoctorsBySpecialty(store, st.slot.specialty);
      NamedDoctor(doctors, req.doctorName).Some? && st.slot.doctor == doctors[NamedDoctor(doctors, req.doctorName).value]
    ensures (req.specialty != "" && NormalizeSpecialty(req.specialty).Some? &&
             DoctorsBySpecialty(store, NormalizeSpecialty(req.specialty).value) != []) ==>
      var specialty := NormalizeSpecialty(req.specialty).value;
      var doctors := DoctorsBySpecialty(store, specialty);
      && (req.doctorName == "" ==> st == ChooseTime(store, req, today, specialty, doctors[0]))
      && (req.doctorName != "" && NamedDoctor(doctors, req.doctorName).None? ==>
            st == Halted(Failed("Врач '" + req.doctorName + "' не найден среди " + req.specialty + "ов")))
      && (req.doctorName != "" && NamedDoctor(doctors, req.doctorName).Some? ==>
            st == ChooseTime(store, req, today, specialty, doctors[NamedDoctor(doctors, req.doctorName).value]))
    ensures st.Halted? ==> !st.reply.success
  {
    if req.specialty == "" then Halted(Failed(NoSpecialty))
    else match NormalizeSpecialty(req.specialty)
      case None => Halted(Failed(UnknownSpecialty))
      case Some(specialty) =>
        var doctors := DoctorsBySpecialty(store, specialty);
        if doctors == [] then Halted(Failed("Врачи специальности '" + req.specialty + "' не найдены"))
        else if req.doctorName == "" then ChooseTime(store, req, today, specialty, doctors[0])
        else match NamedDoctor(doctors, req.doctorName)
          case None => Halted(Failed("Врач '" + req.doctorName + "' не найден среди " + req.specialty + "ов"))
          case Some(k) => ChooseTime(store, req, today, specialty, doctors[k])
  }

  // ---------------------------------------------------------------------
  // Name, phone, patient and commit

  /** The slot check reads only the schedule and the appointments. */
  lemma FreeIgnoresPatients(store: Store, patients: seq<Patient>, doctorId: string, date: string, time: string)
    ensures IsSlotFree(store.(patients := patients), doctorId, date, time) == IsSlotFree(store, doctorId, date, time)
  {
    assert WorkingHours(store.(patients := patients), doctorId, date) == WorkingHours(store, doctorId, date);
  }

  /** The store after the patient lookup: a new patient record for a phone not on file. */
  function WithPatient(store: Store, name: string, phone: string): (s: Store)
    ensures s.appointments == store.appointments && s.schedule == store.schedule
    ensures FindPatientByPhone(store, phone).Some? ==> s == store
    ensures FindPatientByPhone(store, phone).None? ==> s == AddPatient(store, PatientData(name, phone, "", "")).0
  {
    match FindPatientByPhone(store, phone)
    case Some(_) => store
    case None => AddPatient(store, PatientData(name, phone, "", "")).0
  }

  function BookedReply(slot: Slot, id: Option<string>): Outcome {
    Outcome(true, "Отлично! Записала вас к врачу " + slot.doctor.name + " на " + slot.date + " в " + slot.time
                  + ". Кабинет " + slot.doctor.room + ".", id)
  }

  /** `book_appointment`: the whole cascade, returning the new store and the reply. */
  function BookAppointment(store: Store, req: BookingRequest, today: Date): (r: (Store, Outcome))
    requires ValidDate(today)
    ensures r.1.success <==> SelectSlot(store, req, today).Ready? && req.patientName != "" && req.patientPhone != ""
    ensures !r.1.success ==> r.0 == store
    ensures SelectSlot(store, req, today).Halted? ==> r.1 == SelectSlot(store, req, today).reply
    ensures SelectSlot(store, req, today).Ready? && req.patientName == "" ==> r.1 == Failed(NameMissing)
    ensures SelectSlot(store, req, today).Ready? && req.patientName != "" && req.patientPhone == "" ==> r.1 == Failed(PhoneMissing)
    ensures r.1.success ==>
      var slot := SelectSlot(store, req, today).slot;
      var n := |store.appointments|;
      && |r.0.appointments| == n + 1 && r.0.appointments[..n] == store.appointments
      && r.0.appointments[n] == Appointment(AppointmentId(n + 1), slot.doctor.id, req.patientName, req.patientPhone,
                                            slot.date, slot.time, slot.specialty + "_consult", req.complaint, Scheduled)
      && r.1 == BookedReply(slot, Some(AppointmentId(n + 1)))
      && r.0.patients == WithPatient(store, req.patientName, req.patientPhone).patients
  {
    match SelectSlot(store, req, today)
    case Halted(reply) => (store, reply)
    case Ready(slot) =>
      if req.patientName == "" then (store, Failed(NameMissing))
      else if req.patientPhone == "" then (store, Failed(PhoneMissing))
      else
        var withPatient := WithPatient(store, req.patientName, req.patientPhone);
        FreeIgnoresPatients(store, withPatient.patients, slot.doctor.id, slot.date, slot.time);
        assert withPatient == store.(patients := withPatient.patients);
        var request := Request(slot.doctor.id, req.patientName, req.patientPhone, slot.date, slot.time,
                               slot.specialty + "_consult", req.complaint);
        var (after, created) := CreateAppointment(withPatient, request);
        if created.success then (after, BookedReply(slot, created.appointmentId))
        else (after, created)
  }

  /** The doctor the cascade settles on for a known specialty with doctors. */
  predicate ChosenDoctor(store: Store, req: BookingRequest, doctor: Doctor) {
    && req.specialty != "" && NormalizeSpecialty(req.specialty).Some?
    && var doctors := DoctorsBySpecialty(store, NormalizeSpecialty(req.specialty).value);
       && doctors != []
       && (req.doctorName == "" ==> doctor == doctors[0])
       && (req.doctorName != "" ==> NamedDoctor(doctors, req.doctorName).Some? &&
                                    doctor == doctors[NamedDoctor(doctors, req.doctorName).value])
  }

  /** The cascade reaches the requested date and time for the doctor it settles on. */
  lemma CascadeReachesTime(store: Store, req: BookingRequest, today: Date, doctor: Doctor)
    requires ValidDate(today) && ChosenDoctor(store, req, doctor)
    requires req.date != ""
    ensures SelectSlot(store, req, today) == ChooseTime(store, req, today, NormalizeSpecialty(req.specialty).value, doctor)
  {
  }

  /**
   A free requested slot, with a name and a phone, is booked: the store gains
   one scheduled appointment for exactly that doctor, date and time.
   */
  lemma FreeSlotBooks(store: Store, req: BookingRequest, today: Date, doctor: Doctor)
    requires ValidDate(today) && ChosenDoctor(store, req, doctor)
    requires req.date != "" && req.time != "" && IsSlotFree(store, doctor.id, req.date, req.time)
    requires req.patientName != "" && req.patientPhone != ""
    ensures var (after, o) := BookAppointment(store, req, today);
      && o.success && o.appointmentId == Some(AppointmentId(|store.appointments| + 1))
      && |after.appointments| == |store.appointments| + 1
      && var a := after.appointments[|store.appointments|];
         a.doctorId == doctor.id && a.date == req.date && a.time == req.time && a.status == Scheduled
  {
    CascadeReachesTime(store, req, today, doctor);
  }

  /**
   A taken requested time is refused with the taken-time reply, which lists at
   most three free times of that day, and the store is unchanged.
   */
  lemma TakenTimeRefused(store: Store, req: BookingRequest, today: Date, doctor: Doctor)
    requires ValidDate(today) && ChosenDoctor(store, req, doctor)
    requires req.date != "" && req.time != "" && !IsSlotFree(store, doctor.id, req.date, req.time)
    ensures BookAppointment(store, req, today) == (store, TakenReply(store, doctor.id, req.date, req.time))
  {
    CascadeReachesTime(store, req, today, doctor);
  }

  // ---------------------------------------------------------------------
  // Alternatives

  datatype Suggestion = Suggestion(date: string, doctorName: string, doctorId: string, times: seq<string>, room: string)

  datatype Alternatives = Alternatives(suggestions: seq<Suggestion>, totalFound: nat) | NoAlternatives(message: string)

  predicate IsPrefix<T(==)>(a: seq<T>, b: seq<T>) {
    |a| <= |b| && a == b[..|a|]
  }

  /** The free-times lookup of a store, by doctor id and date text. */
  function TimesIn(store: Store): (string, string) -> seq<string> {
    (doctorId, date) => AvailableTimes(store, doctorId, date)
  }

  /**
   A suggestion that holds against a times lookup: its times are the first
   one to three times the lookup lists for that doctor that day.
   */
  predicate Sound(timesOf: (string, string) -> seq<string>, s: Suggestion) {
    1 <= |s.times| <= 3 && IsPrefix(s.times, timesOf(s.doctorId, s.date))
  }

  /** Every time of a leading part of a day's free times is free. */
  lemma PrefixTimesFree(store: Store, doctorId: string, date: string, times: seq<string>)
    requires IsPrefix(times, AvailableTimes(store, doctorId, date))
    ensures forall i :: 0 <= i < |times| ==> IsSlotFree(store, doctorId, date, times[i])
  {
    var all := AvailableTimes(store, doctorId, date);
    AvailableTimesFreeAndSorted(store, doctorId, date);
    assert forall i :: 0 <= i < |times| ==> times[i] == all[i];
  }

  /** Every time a suggestion sound against the store's lookup offers is free. */
  lemma SoundTimesFree(store: Store, s: Suggestion)
    requires Sound(TimesIn(store), s)
    ensures forall i :: 0 <= i < |s.times| ==> IsSlotFree(store, s.doctorId, s.date, s.times[i])
  {
    assert TimesIn(store)(s.doctorId, s.date) == AvailableTimes(store, s.doctorId, s.date);
    PrefixTimesFree(store, s.doctorId, s.date, s.times);
  }

  predicate AllSound(timesOf: (string, string) -> seq<string>, xs: seq<Suggestion>) {
    forall k :: 0 <= k < |xs| ==> Sound(timesOf, xs[k])
  }

  lemma AllSoundAppend(timesOf: (string, string) -> seq<string>, a: seq<Suggestion>, b: seq<Suggestion>)
    requires AllSound(timesOf, a) && AllSound(timesOf, b)
    ensures AllSound(timesOf, a + b)
  {
    forall k | 0 <= k < |a + b|
      ensures Sound(timesOf, (a + b)[k])
    {
      if k < |a| {
        assert (a + b)[k] == a[k];
      } else {
        assert (a + b)[k] == b[k - |a|];
      }
    }
  }

  /**
   One day's suggestions: every doctor the lookup lists a time for that day,
   in list order, each with its first three times.
   */
  function DaySuggestions(timesOf: (string, string) -> seq<string>, doctors: seq<Doctor>, date: string): (r: seq<Suggestion>)
    ensures |r| <= |doctors|
    ensures forall i :: 0 <= i < |r| ==> r[i].date == date
    ensures AllSound(timesOf, r)
    ensures r == [] <==> forall j :: 0 <= j < |doctors| ==> timesOf(doctors[j].id, date) == []
  {
    if |doctors| == 0 then []
    else
      var d := doctors[0];
      var times := timesOf(d.id, date);
      var rest := DaySuggestions(timesOf, doctors[1..], date);
      if times == [] then rest
      else
        var first := Suggestion(date, d.name, d.id, FirstThree(times), d.room);
        AllSoundAppend(timesOf, [first], rest);
        [first] + rest
  }

  /** Day `today + j` has no free time for any of the doctors (vacuous when the day overflows). */
  predicate DayEmpty(timesOf: (string, string) -> seq<string>, doctors: seq<Doctor>, today: Date, j: nat)
    requires ValidDate(today)
  {
    AddDays(today, j).Some? ==>
      forall x :: 0 <= x < |doctors| ==> timesOf(doctors[x].id, FormatIsoDate(AddDays(today, j).value)) == []
  }

  /**
   The loop of `suggest_alternative_appointments` from day `i` of the week:
   suggestions are collected day by day until five are found or the week
   ends. None is the OverflowError of a day past 9999-12-31.
   */
  function SuggestFrom(timesOf: (string, string) -> seq<string>, doctors: seq<Doctor>, today: Date, i: nat, found: seq<Suggestion>): (r: Option<seq<Suggestion>>)
    requires ValidDate(today) && i <= 7
    requires AllSound(timesOf, found)
    ensures r.Some? ==> |r.value| >= |found| && r.value[..|found|] == found
    ensures r.Some? ==> AllSound(timesOf, r.value)
    ensures |found| >= 5 ==> r == Some(found)
    decreases 7 - i
  {
    if i == 7 || |found| >= 5 then Some(found)
    else match AddDays(today, i)
      case None => None
      case Some(d) =>
        var day := DaySuggestions(timesOf, doctors, FormatIsoDate(d));
        var more := found + day;
        AllSoundAppend(timesOf, found, day);
        assert more[..|found|] == found;
        match SuggestFrom(timesOf, doctors, today, i + 1, more)
        case None => None
        case Some(all) =>
          assert all[..|found|] == all[..|more|][..|found|];
          Some(all)
  }

  /** `suggest_alternative_appointments` (the preferred date and time are never consulted). */
  function SuggestAlternatives(store: Store, specialtyText: string, today: Date): (r: Alternatives)
    requires ValidDate(today)
    ensures NormalizeSpecialty(specialtyText).None? ==> r == NoAlternatives("Неизвестная специальность")
    ensures r.Alternatives? ==> |r.suggestions| <= 5 && r.totalFound >= |r.suggestions|
    ensures r.Alternatives? ==> AllSound(TimesIn(store), r.suggestions)
    ensures r.Alternatives? ==> |r.suggestions| == (if r.totalFound <= 5 then r.totalFound else 5)
    ensures (NormalizeSpecialty(specialtyText).Some? &&
             DoctorsBySpecialty(store, NormalizeSpecialty(specialtyText).value) == []) ==> r == NoAlternatives("Врачи не найдены")
  {
    match NormalizeSpecialty(specialtyText)
    case None => NoAlternatives("Неизвестная специальность")
    case Some(specialty) =>
      var doctors := DoctorsBySpecialty(store, specialty);
      if doctors == [] then NoAlternatives("Врачи не найдены")
      else match SuggestFrom(TimesIn(store), doctors, today, 0, [])
        case None => NoAlternatives("Ошибка при поиске альтернативных вариантов")
        case Some(all) =>
          var shown := if |all| <= 5 then all else all[..5];
          Alternatives(shown, |all|)
  }

  /**
   The loop finds nothing more exactly when no doctor has a free time on any
   of the remaining days of the week.
   */
  lemma {:induction false} SuggestFromEmpty(timesOf: (string, string) -> seq<string>, doctors: seq<Doctor>, today: Date, i: nat, found: seq<Suggestion>)
    requires ValidDate(today) && i <= 7 && AllSound(timesOf, found) && |found| < 5
    requires SuggestFrom(timesOf, doctors, today, i, found).Some?
    ensures |SuggestFrom(timesOf, doctors, today, i, found).value| == |found|
            <==> forall j :: i <= j < 7 ==> DayEmpty(timesOf, doctors, today, j)
    decreases 7 - i
  {
    if i < 7 {
      WeekSplit(timesOf, doctors, today, i);
      if DayEmpty(timesOf, doctors, today, i) {
        EmptyDaySkipped(timesOf, doctors, today, i, found);
        SuggestFromEmpty(timesOf, doctors, today, i + 1, found);
      } else {
        BusyDayAdds(timesOf, doctors, today, i, found);
      }
    }
  }

  /** A day with no free time adds nothing: the loop goes on to the next day unchanged. */
  lemma EmptyDaySkipped(timesOf: (string, string) -> seq<string>, doctors: seq<Doctor>, today: Date, i: nat, found: seq<Suggestion>)
    requires ValidDate(today) && i < 7 && AllSound(timesOf, found) && |found| < 5
    requires SuggestFrom(timesOf, doctors, today, i, found).Some?
    requires DayEmpty(timesOf, doctors, today, i)
    ensures SuggestFrom(timesOf, doctors, today, i + 1, found) == SuggestFrom(timesOf, doctors, today, i, found)
  {
    SuggestFromStep(timesOf, doctors, today, i, found);
    var day := DaySuggestions(timesOf, doctors, FormatIsoDate(AddDays(today, i).value));
    assert found + day == found;
  }

  /** A day on which some doctor has a free time adds at least one suggestion. */
  lemma BusyDayAdds(timesOf: (string, string) -> seq<string>, doctors: seq<Doctor>, today: Date, i: nat, found: seq<Suggestion>)
    requires ValidDate(today) && i < 7 && AllSound(timesOf, found) && |found| < 5
    requires SuggestFrom(timesOf, doctors, today, i, found).Some?
    requires !DayEmpty(timesOf, doctors, today, i)
    ensures |SuggestFrom(timesOf, doctors, today, i, found).value| > |found|
  {
    SuggestFromStep(timesOf, doctors, today, i, found);
    var day := DaySuggestions(timesOf, doctors, FormatIsoDate(AddDays(today, i).value));
    assert |SuggestFrom(timesOf, doctors, today, i + 1, found + day).value| >= |found + day|;
  }

  /** The rest of the week is empty exactly when day `i` is and the days after it are. */
  lemma WeekSplit(timesOf: (string, string) -> seq<string>, doctors: seq<Doctor>, today: Date, i: nat)
    requires ValidDate(today) && i < 7
    ensures (forall j :: i <= j < 7 ==> DayEmpty(timesOf, doctors, today, j))
        <==> DayEmpty(timesOf, doctors, today, i) && (forall j :: i + 1 <= j < 7 ==> DayEmpty(timesOf, doctors, today, j))
  {
  }

  /** One turn of the loop: it moves on to the next day with that day's suggestions added. */
  lemma SuggestFromStep(timesOf: (string, string) -> seq<string>, doctors: seq<Doctor>, today: Date, i: nat, found: seq<Suggestion>)
    requires ValidDate(today) && i < 7 && AllSound(timesOf, found) && |found| < 5
    requires SuggestFrom(timesOf, doctors, today, i, found).Some?
    ensures AddDays(today, i).Some?
    ensures var day := DaySuggestions(timesOf, doctors, FormatIsoDate(AddDays(today, i).value));
      && AllSound(timesOf, found + day)
      && SuggestFrom(timesOf, doctors, today, i + 1, found + day) == SuggestFrom(timesOf, doctors, today, i, found)
      && (day == [] <==> DayEmpty(timesOf, doctors, today, i))
  {
    var d := AddDays(today, i).value;
    var day := DaySuggestions(timesOf, doctors, FormatIsoDate(d));
    AllSoundAppend(timesOf, found, day);
  }

  /**
   For a known specialty with doctors, the total found is zero exactly when
   none of them has a free time on any day from today to today + 6.
   */
  lemma NothingFoundIffWeekEmpty(store: Store, specialtyText: string, today: Date)
    requires ValidDate(today)
    requires SuggestAlternatives(store, specialtyText, today).Alternatives?
    ensures NormalizeSpecialty(specialtyText).Some?
    ensures SuggestAlternatives(store, specialtyText, today).totalFound == 0 <==>
      forall j :: 0 <= j < 7 ==> DayEmpty(TimesIn(store), DoctorsBySpecialty(store, NormalizeSpecialty(specialtyText).value), today, j)
  {
    var doctors := DoctorsBySpecialty(store, NormalizeSpecialty(specialtyText).value);
    SuggestFromEmpty(TimesIn(store), doctors, today, 0, []);
  }
}
