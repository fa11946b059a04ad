# Clinic voice agent: booking, dialogue and log model

A Dafny model of the logic core of "Марина", the voice receptionist of the
"Таблетка" medical centre. The assistant hears a patient, decides what they
want, fills a booking over several turns and writes the conversation to a
log. The model covers the parts of that system that are pure logic.

- **The schedule store** (`ScheduleStore`) models `MedicalDBService`. It holds
  doctors, their weekly working templates, appointments and patients in one
  record. The reads are functions of that record: the doctors of a specialty,
  a doctor's window for a date, whether a slot is free, the free half-hour
  slots of a day, the appointments of a date, and the statistics. Every
  mutating call maps the record to a new record and a reply: booking with
  its re-check, soft cancellation, and adding a patient. Ids come from a
  counter, as `apt_NNNNNN` and `pat_NNNNNN`.
- **The calendar** (`Calendar`) is the slice of Python's `datetime` the store
  and the extractors need. It has the proleptic Gregorian calendar (years
  1 to 9999), the day ordinal and weekday, adding days with overflow past
  9999-12-31, and the `%Y-%m-%d` and `%H:%M` formats in both directions.
- **The extractors** (`Extractors`, over the regular-expression model in
  `Patterns`) model `AppointmentService`'s text readers:
  - the specialty normaliser;
  - the date extractor (relative words, weekday names, `DD.MM.YYYY`, `DD.MM`,
    `DD <month>`, with rollover to next year);
  - the time extractor (six ordered patterns with 12-to-24-hour rules).

  Python's `re.search` is modelled as the leftmost start at which a pattern
  matches, with the patterns tried in list order.
- **The booking orchestrator** (`Booking`) models `book_appointment`'s fixed
  cascade. The steps are specialty, doctor list, doctor choice, automatic
  date, automatic time, availability, name and phone, patient lookup or
  creation, and commit. It also covers the two-week search for the nearest
  date with a free slot and the week of alternative suggestions.
- **The dialogue layer** (`Dialogue`) models `MedicalAgent`:
  - the booking context merged like `dict.update`;
  - the missing required fields and the follow-up question;
  - clearing the context on success and keeping it on failure;
  - checking the classifier's intent label;
  - the keyword half of the emergency check;
  - the routing of a message to a handler;
  - the keyword fallback extractor.
- **The voice agent** (`VoiceAgent`) models `SimpleVoiceAgent` from `main.py`:
  the six-message history, the mode-switch command router, and the command
  short-circuit at the top of `think`.
- **The conversation log** (`ConversationLog`) models the line format
  `ConversationLogger` writes and the line loop of `get_conversation_history`
  that reads it back. The reader is modelled as written and also in a
  corrected form.

The current time is always an argument (`today`, or an `Instant` with the
time since midnight). The hosted language model never runs in the model:
its answers arrive as arguments, with None meaning that no model is
connected or that the call raised. An empty string stands for a keyword
argument the caller left out.

The model keeps the code's behaviour, quirks included:
- "послезавтра" (the day after tomorrow) yields tomorrow.
- "в 6 вечера" (at 6 in the evening) yields 06:00.
- Cancelling succeeds twice.
- The slot check asks for no half-hour alignment.
- "9:00" and "09:00" are different slots to the collision check.
- The "current mode" reply cannot be reached.
- The label "emergency" has no branch of its own.
- The fallback extractor stores an English specialty code, which the booking
  then rejects.

## Model

| member | source | states |
|---|---|---|
| Text.Find | utils/logging_utils.py:150 | `line.find(":")` is the leftmost occurrence of the substring, and -1 exactly when there is none |
| Text.Strip | utils/logging_utils.py:136 | `strip()` removes whitespace only, and only at the two ends; the result starts and ends with non-whitespace |
| Text.ZeroPadInjective | services/medical_db_service.py:475 | distinct counters give distinct `:06d` paddings, because reading the padded digits back gives the counter |
| Calendar.AddDays | services/appointment_service.py:130 | adding k days moves the day ordinal by exactly k; the result is absent exactly when it would pass 9999-12-31, where Python raises |
| Calendar.DateLessOrdinal | services/appointment_service.py:147 | Python's comparison of dates agrees with the order of their day numbers |
| Calendar.IsoDateRoundTrip | services/medical_db_service.py:391 | a date written with `strftime("%Y-%m-%d")` is read back by `strptime` as the same date (for the four-digit years 1000 to 9999; see Calendar.FormatIsoDate under Left out) |
| Calendar.ClockRoundTrip | services/medical_db_service.py:440 | a time written with `strftime("%H:%M")` is read back by `strptime` as the same time |
| Calendar.FormatIsoDate | services/appointment_service.py:131 | `strftime("%Y-%m-%d")` is ten characters: a four-digit year, a dash, the two-digit month, a dash, the two-digit day, each field reading back as the date's own |
| Calendar.ParseIsoDate | services/medical_db_service.py:391 | `strptime(date, "%Y-%m-%d")` accepts exactly when four digits, a dash, a `%m` field (one or two characters), a dash and a `%d` field make up the whole string and name a real date, which is then the date returned |
| Calendar.ParseClock | services/medical_db_service.py:440-442 | `strptime(time, "%H:%M")` accepts exactly a one- or two-digit hour 0 to 23, a colon, and a one- or two-digit minute 0 to 59, and reads those fields |
| Patterns.Search | services/appointment_service.py:106 | `re.search` matches at the leftmost start where the pattern matches, and finds nothing exactly when no start matches |
| Patterns.FirstSearch | services/appointment_service.py:105-108 | patterns are tried in list order; the first one with a hit anywhere wins, with its leftmost match |
| Extractors.NormalizeSpecialty | services/appointment_service.py:251-259 | the code of the first table key, in table order, that occurs in the lower-cased text; none exactly when no key occurs |
| Extractors.NormalizedIsCode | services/appointment_service.py:24-43 | the normaliser only ever returns one of the six specialty codes |
| Extractors.NormalizeIgnoresCase | services/appointment_service.py:253 | lower-casing the text first changes nothing |
| Extractors.CodesDoNotNormalize | services/appointment_service.py:24-43 | the table's keys are all Cyrillic, so no ASCII text, the codes included, normalises to anything |
| Extractors.DaysAhead | services/appointment_service.py:126-128 | the step to the target weekday is between 1 and 7 days and is the first step that lands on it |
| Extractors.NextWeekdayDate | services/appointment_service.py:116-131 | the next date with the weekday, absent exactly when it would pass the last representable date |
| Extractors.NextWeekdayIsWeekday | services/appointment_service.py:123-131 | the date found falls on the requested weekday |
| Extractors.NextWeekdayWithinWeek | services/appointment_service.py:126-130 | the date found is 1 to 7 days ahead, never today |
| Extractors.NextWeekdayNearest | services/appointment_service.py:126-130 | no day between today and the date found has the requested weekday |
| Extractors.MonthNumber | services/appointment_service.py:64-68 | a genitive month name maps to its month number 1 to 12 |
| Extractors.ExactDate | services/appointment_service.py:152-156 | a date written with its year is exactly that date when it exists, and today's date when the constructor raises |
| Extractors.RollForward | services/appointment_service.py:158-175 | a day and month without a year is this year's date unless its midnight has passed; then it is next year's; an impossible date gives today |
| Extractors.DayMonthRolls | services/appointment_service.py:99-169 | a whole `DD.MM` text is extracted as this year's date, or next year's once this year's midnight has passed, through the second numeric pattern |
| Extractors.DateFromMatch | services/appointment_service.py:133-175 | each pattern's groups are read as the date that pattern stands for, and the result is always a valid date |
| Extractors.WeekdayOrNumericDate | services/appointment_service.py:93-110 | the first weekday name in table order decides; otherwise the numeric patterns do, and nothing is found exactly when none of them hits |
| Extractors.NumericDate | services/appointment_service.py:99-110 | the date of the first numeric pattern with a hit; none exactly when none hits |
| Extractors.ExtractDay | services/appointment_service.py:72-114 | "сегодня" gives today; otherwise "завтра" gives tomorrow; text with nothing to react to gives none, and none means that, short of the calendar's end |
| Extractors.ExtractDate | services/appointment_service.py:72-114 | the result string is present exactly when a date is found; it is that date's zero-padded `YYYY-MM-DD` text and parses back to it |
| Extractors.DayAfterTomorrowIsTomorrow | services/appointment_service.py:86-91 | a text saying "послезавтра" (and not "сегодня") gets tomorrow's date: the +2 branch is unreachable |
| Extractors.ExtractDayFixed | services/appointment_service.py:86-91 | the corrected order agrees with the original on every text that does not say "послезавтра" |
| Extractors.DayAfterTomorrowFixed | services/appointment_service.py:86-91 | with the corrected order "послезавтра" is exactly two days ahead |
| Extractors.NoYearNotPast | services/appointment_service.py:136-169 | when the text gives no year, the extracted date is never before today |
| Extractors.DottedDateExact | services/appointment_service.py:152-156 | any real date written `DD.MM.YYYY` is extracted as exactly that date, past or future |
| Extractors.NonexistentDottedDateIsToday | services/appointment_service.py:173-175 | a `DD.MM.YYYY` naming no real day gives today's date rather than none |
| Extractors.AsciiTextIsNumeric | services/appointment_service.py:86-108 | text without Cyrillic letters skips the relative words and weekday names and goes to the numeric patterns |
| Extractors.ClockFromMatch | services/appointment_service.py:210-249 | colon, dot and `в` keep the hour and minute as written; "утра" maps 12 to 0 and keeps other hours; "дня" and "вечера" add 12 to hours below 12 and keep the rest; nothing is range-checked |
| Extractors.ExtractClock | services/appointment_service.py:177-208 | the time of the first time pattern with a hit; none exactly when no time pattern hits |
| Extractors.ExtractTime | services/appointment_service.py:177-208 | the result is the zero-padded five-character `HH:MM` form of that time |
| Extractors.ClockTextRoundTrip | services/appointment_service.py:188-204 | any `HH:MM` text is extracted as exactly that time and comes back unchanged |
| Extractors.OutOfRangeTimeAccepted | services/appointment_service.py:213-217 | "25:70" is accepted as is, although strptime rejects it |
| Extractors.EveningAfterPreposition | services/appointment_service.py:188-204 | "в H вечера" is caught by the `в HH` pattern first, so its hour stays H ("в 6 вечера" is 06:00) |
| Extractors.EveningFirstHit | services/appointment_service.py:188-195 | for "H вечера" the evening pattern is the first of the six to hit |
| Extractors.EveningHour | services/appointment_service.py:238-243 | "H вечера" without a preposition is H + 12 o'clock |
| ScheduleStore.DoctorsBySpecialty | services/medical_db_service.py:360-368 | exactly the doctors whose specialty equals the argument |
| ScheduleStore.DoctorsBySpecialtyAppend | services/medical_db_service.py:360-368 | the list keeps store order: a doctor added at the end is added at the end of its specialty's list only |
| ScheduleStore.DayWindow | services/medical_db_service.py:389-405 | the window is the template entry for the date's weekday name, absent exactly when the doctor has none |
| ScheduleStore.DoctorSchedule | services/medical_db_service.py:374-411 | no date gives the whole week; a date gives the day's window; an unparseable date gives the empty reply |
| ScheduleStore.ScheduleOfDate | services/medical_db_service.py:389-405 | for a date in the store's own format the view is the template entry for its weekday |
| ScheduleStore.WindowRepeatsWeekly | services/medical_db_service.py:391-404 | dates whole weeks apart have the same window |
| ScheduleStore.WorkingHours | services/medical_db_service.py:427-442 | the day's hours exist exactly when there is a window whose two ends are non-empty `%H:%M` times |
| ScheduleStore.IsSlotFree | services/medical_db_service.py:413-461 | free exactly when the parsed time lies within the window, both ends included, and no non-cancelled appointment has the same doctor, date and time strings |
| ScheduleStore.GridFilter | services/medical_db_service.py:553-563 | the half-hour points from the start and below the end that pass the test, all of them, in increasing order |
| ScheduleStore.AvailableSlots | services/medical_db_service.py:540-565 | empty without working hours; otherwise every free slot at start + 30k below the end, and only those, strictly increasing |
| ScheduleStore.AvailableTimes | services/medical_db_service.py:524-569 | the `%H:%M` texts of those slots, one per slot, in the same order |
| ScheduleStore.AvailableTimesFreeAndSorted | services/medical_db_service.py:556-563 | every listed time passes the availability check, and the list reads back in strictly increasing order |
| ScheduleStore.NoWindowNoTimes | services/medical_db_service.py:540-547 | without a window or its ends, no time is listed |
| ScheduleStore.AppointmentIdInjective | services/medical_db_service.py:475 | different counters give different appointment ids |
| ScheduleStore.PatientIdInjective | services/medical_db_service.py:759 | different counters give different patient ids |
| ScheduleStore.CreateAppointment | services/medical_db_service.py:463-522 | succeeds exactly when the re-check finds the slot free; a failure changes nothing; a success appends exactly one scheduled record with every field of the request and id `apt_` + (old count + 1) |
| ScheduleStore.BookedSlotNotFree | services/medical_db_service.py:478-508 | after a successful booking the same doctor, date and time are no longer free |
| ScheduleStore.CreateKeepsNoDoubleBooking | services/medical_db_service.py:478-508 | booking through the re-check never leaves two live appointments on one slot |
| ScheduleStore.CancelAppointment | services/medical_db_service.py:669-704 | succeeds exactly when some appointment has the id; only the first such record changes, to cancelled; an unknown id changes nothing |
| ScheduleStore.CancelTwice | services/medical_db_service.py:682-692 | cancelling again succeeds again and changes nothing more |
| ScheduleStore.CancelKeepsNoDoubleBooking | services/medical_db_service.py:682-692 | cancelling never creates a double booking |
| ScheduleStore.CancelFreesSlot | services/medical_db_service.py:450-455 | once the store has no double booking, cancelling a scheduled appointment frees its slot exactly when the slot lies within the day's hours |
| ScheduleStore.CreateKeepsCounterIds | services/medical_db_service.py:475 | booking keeps every id equal to `apt_` + its one-based position |
| ScheduleStore.CancelKeepsCounterIds | services/medical_db_service.py:682-685 | cancelling keeps every id equal to `apt_` + its one-based position |
| ScheduleStore.CounterIdsUnique | services/medical_db_service.py:475 | such counter-built ids never repeat |
| ScheduleStore.OtherSpellingStillFree | services/medical_db_service.py:450-455 | booking one spelling of a time leaves every other spelling of it bookable |
| ScheduleStore.UnpaddedHourSameTime | services/medical_db_service.py:440 | "9:00" and "09:00" are the same time to strptime but different strings |
| ScheduleStore.AppointmentsOnDate | services/medical_db_service.py:656-661 | exactly the non-cancelled appointments with that date string, one entry per such record (the length is their count), and none for an empty store |
| ScheduleStore.AppointmentsOnDateAppend | services/medical_db_service.py:656-661 | a record added at the end of the store comes last in its date's list when it qualifies, and the list is otherwise unchanged, so the list keeps store order |
| ScheduleStore.CancelShrinksDay | services/medical_db_service.py:656-661 | after a cancellation a date's list has only appointments it had before |
| ScheduleStore.AddPatient | services/medical_db_service.py:747-782 | appends exactly one patient with the given data under `pat_` + (old count + 1) and returns that id |
| ScheduleStore.FindPatientByPhone | services/medical_db_service.py:784-805 | the first patient in the list with an equal phone; none exactly when no patient has it |
| ScheduleStore.AddedPatientFound | services/medical_db_service.py:795-801 | a patient added under a new phone is the one that phone finds |
| ScheduleStore.EarlierPatientWins | services/medical_db_service.py:795-801 | the first patient with a phone wins: adding another under it does not change the result |
| ScheduleStore.CountIsListLength | services/medical_db_service.py:732-737 | the counting loop's total for a specialty is the length of that specialty's doctor list |
| ScheduleStore.Tally | services/medical_db_service.py:729-739 | a specialty is a key exactly when some doctor has it, with that doctor count |
| ScheduleStore.GetStatistics | services/medical_db_service.py:706-745 | the totals are the list lengths; active is the count of scheduled appointments and cancelled the count of cancelled ones, which add up to all appointments; each specialty maps to the number of its doctors |
| ScheduleStore.CountIsFilterLength | services/medical_db_service.py:718-725 | the length of a comprehension's filtered list is the number of records it keeps, counted one by one |
| Booking.NamedDoctor | services/appointment_service.py:297-308 | the first doctor whose lower-cased name contains the lower-cased query; none exactly when no name does |
| Booking.ScanFindsFirst | services/appointment_service.py:409-417 | the scan stops at the first day with a free slot |
| Booking.ScanFallsBack | services/appointment_service.py:419-420 | with no free day in the two weeks the scan gives tomorrow |
| Booking.NextAvailableDate | services/appointment_service.py:405-420 | the automatic date is an ISO date within today to today + 13, and it exists whenever those days do |
| Booking.NextAvailableDateIsFirst | services/appointment_service.py:405-420 | the automatic date is the first of today to today + 13 with a free slot, else tomorrow |
| Booking.FirstThree | services/appointment_service.py:340 | at most the first three free times, in order |
| Booking.TakenReply | services/appointment_service.py:335-349 | a taken time fails, listing at most the first three free times, or saying the date has none |
| Booking.ChosenDate | services/appointment_service.py:315-318 | a given date is used as is; without one, the nearest date with a free slot |
| Booking.ChooseTime | services/appointment_service.py:313-349 | a free requested time goes forward; a taken one fails with the taken-time reply; without a time the first free time goes forward, or the date has none and it fails; an overflowing automatic date fails with the generic error |
| Booking.SelectSlot | services/appointment_service.py:270-349 | the failures come in cascade order (no specialty, unknown specialty, no doctors, a doctor name that matches nobody, with its reply); otherwise the time step runs for the first name match, or the first doctor when no name is given |
| Booking.FreeIgnoresPatients | services/appointment_service.py:364-386 | adding the patient does not change whether the slot is free, so the commit's re-check agrees |
| Booking.WithPatient | services/appointment_service.py:364-373 | a patient already on file by phone is reused; otherwise one is added |
| Booking.BookAppointment | services/appointment_service.py:261-403 | succeeds exactly when the cascade reaches a free slot and both name and phone are given, which are checked only after the slot; a success appends one record with `<specialty>_consult` and reports it; a failure changes nothing |
| Booking.FreeSlotBooks | services/appointment_service.py:321-403 | a free requested slot with a name and a phone is booked: one new scheduled appointment for that doctor, date and time, under the next id |
| Booking.TakenTimeRefused | services/appointment_service.py:321-349 | a taken requested time is refused with the taken-time reply, listing at most three free times, and the store is unchanged |
| Booking.PrefixTimesFree | services/appointment_service.py:503 | the first times of a day's list are all free |
| Booking.SoundTimesFree | services/appointment_service.py:496-505 | every time a suggestion offers is free for that doctor that day |
| Booking.DaySuggestions | services/appointment_service.py:494-505 | each day's suggestions carry that day and one to three leading free times of their doctor; there are none exactly when no doctor has a free time that day |
| Booking.SuggestFrom | services/appointment_service.py:490-509 | suggestions accumulate day by day and are never lost; collection stops once five are found |
| Booking.SuggestAlternatives | services/appointment_service.py:471-522 | an unknown specialty and a specialty without doctors give their refusals; otherwise the first five (or all, if fewer) of the total found are shown, and every offered time is free |
| Booking.SuggestFromEmpty | services/appointment_service.py:489-509 | the loop adds nothing exactly when no doctor has a free time on any remaining day of the week |
| Booking.NothingFoundIffWeekEmpty | services/appointment_service.py:489-509 | the total found is zero exactly when no doctor of the specialty has a free time from today to today + 6 |
| Dialogue.Merge | agents/medical_agent.py:163 | extracted keys overwrite, even with empty values, and every other key stays |
| Dialogue.MissingAmong | agents/medical_agent.py:262-264 | a field is listed exactly when it is one of those asked about and is absent or falsy |
| Dialogue.MissingFields | agents/medical_agent.py:257-266 | specialty, patient name and phone, in that order, each listed exactly when it is absent or falsy |
| Dialogue.NothingMissing | agents/medical_agent.py:166-169 | nothing is missing exactly when all three required fields are filled |
| Dialogue.AskForMissing | agents/medical_agent.py:268-281 | one missing field gets its question; more get only the first two questions joined |
| Dialogue.AskOnlyFirstTwo | agents/medical_agent.py:281 | fields after the second never affect the question |
| Dialogue.MissingAreAsked | agents/medical_agent.py:270-279 | every field that can be missing has its own question, so the fallback text never shows |
| Dialogue.FallbackSpecialty | agents/medical_agent.py:237-240 | the code of the first keyword found, in dictionary order; the key is present exactly when some keyword occurs |
| Dialogue.FallbackDate | agents/medical_agent.py:244-253 | the matched text of the first pattern with a hit, in list order; present exactly when one hits |
| Dialogue.FallbackExtract | agents/medical_agent.py:220-255 | only specialty and date_raw are ever set, each exactly as its own search finds it |
| Dialogue.FallbackSpecialtyRejected | agents/medical_agent.py:228-239 | the fallback's English codes are never recognised by the booking's normaliser |
| Dialogue.FallbackDayAfterTomorrow | agents/medical_agent.py:244-253 | with no numeric date, "послезавтра" is recorded as "завтра", which comes first in the list |
| Dialogue.ExtractedInfo | agents/medical_agent.py:193-218 | without a model nothing is extracted; a JSON object is taken as is; other text goes to the keyword fallback, which sets at most the specialty and the raw date |
| Dialogue.Arg | agents/medical_agent.py:172-180 | a missing key or null reaches the booking as an absent argument |
| Dialogue.RequestOf | agents/medical_agent.py:172-180 | each of the seven arguments is given exactly when its context field is filled, and then it is that field's string |
| Dialogue.HandleAppointmentBooking | agents/medical_agent.py:153-191 | a turn with a missing field asks and books nothing; otherwise it books, and a success clears the context while a failure keeps the merged context and the store |
| Dialogue.BookingTurnStore | agents/medical_agent.py:182-187 | the store changes only through a successful booking, which empties the context and adds one appointment |
| Dialogue.FilledReachesRequest | agents/medical_agent.py:172-180 | the filled required fields reach the booking as non-empty arguments |
| Dialogue.UnknownSpecialtyNotBooked | agents/medical_agent.py:172-180 | a specialty the normaliser does not know is never booked |
| Dialogue.RefusedTurn | agents/medical_agent.py:186-187 | a refused booking keeps the store and the merged context |
| Dialogue.FallbackNeverBooks | agents/medical_agent.py:212-214 | once the fallback sets the specialty, the booking refuses whatever the other fields say |
| Dialogue.DetectIntent | agents/medical_agent.py:94-104 | always one of the ten labels; the stripped, lower-cased answer when it is one, "unknown" otherwise or without a model |
| Dialogue.LabelIntent | agents/medical_agent.py:94-104 | an answer that is a label, with any leading whitespace, yields that label |
| Dialogue.CheckEmergency | agents/medical_agent.py:115-151 | a keyword makes it true; without the model's verdict it is true exactly when a keyword occurs |
| Dialogue.KeywordDecidesAlone | agents/medical_agent.py:122-134 | when a keyword occurs the model's verdict is not consulted |
| Dialogue.KeywordIgnoresCase | agents/medical_agent.py:132 | the keyword check does not depend on letter case |
| Dialogue.Route | agents/medical_agent.py:357-388 | the alert exactly on an emergency; otherwise each of the eight routed labels reaches its own handler (services for both the service and price labels), and every other label the general answer |
| Dialogue.Respond | agents/medical_agent.py:345-392 | a keyword emergency gives the alert whatever the intent |
| Dialogue.EmergencyBeforeIntent | agents/medical_agent.py:357-362 | the emergency check runs first, so the classifier's answer cannot matter |
| Dialogue.EmergencyLabelIsGeneral | agents/medical_agent.py:365-388 | the label "emergency" has no branch: without an alarm it reaches the general handler |
| Dialogue.NoModelRouting | agents/medical_agent.py:78-79 | without a model only keywords raise the alarm, and everything else goes to the general handler |
| VoiceAgent.AddToHistory | main.py:136-142 | the new message is last, the mode is kept, and the length grows by one up to six |
| VoiceAgent.AddKeepsNewest | main.py:138-142 | one addition keeps exactly the newest six messages |
| VoiceAgent.HistoryIsNewest | main.py:136-142 | after any run of messages the history is the newest six of everything said |
| VoiceAgent.AppendedNewest | main.py:141-142 | trimming early never changes which six are newest |
| VoiceAgent.SwitchChain | main.py:100-110 | a known name sets the mode (none for "default"); an unknown or absent name changes nothing and lists the modes |
| VoiceAgent.SwitchThenName | main.py:104-105 | after switching to a known mode the agent reports that mode |
| VoiceAgent.SwitchIdempotent | main.py:104-105 | switching to a mode twice is switching once |
| VoiceAgent.RequestedMode | main.py:117-127 | keyword priority is humor, then weather, then business, then default, then the mode list |
| VoiceAgent.HandleChainCommands | main.py:112-134 | a "режим"/"переключ" message switches; no reply exactly when the message has no trigger; the history never changes |
| VoiceAgent.CurrentModeUnreachable | main.py:117-132 | both current-mode phrases contain "режим", so every command reply is a switch or the mode list |
| VoiceAgent.NoTriggerNoChange | main.py:134 | a message with neither trigger gets no command reply |
| VoiceAgent.Think | main.py:179-221 | no model gives a fixed apology; a command is answered first; otherwise the user's message is recorded, then a non-empty answer |
| VoiceAgent.ThinkHistory | main.py:188-214 | a command never reaches the history, and an ordinary message always ends up in it |
| ConversationLog.Dashes | utils/logging_utils.py:97 | the rule is n dashes |
| ConversationLog.HeaderSpeaker | utils/logging_utils.py:140 | a header names USER, AGENT or SYSTEM, tried in that order |
| ConversationLog.Flush | utils/logging_utils.py:170-171 | the open entry is emitted, with its pieces joined by spaces, exactly when it has a speaker and some text |
| ConversationLog.TailSlice | utils/logging_utils.py:174 | `history[-max_entries:]` is the last max_entries entries, in file order, and everything for 0 |
| ConversationLog.Classify | utils/logging_utils.py:135-167 | blank lines and rules are ignored; USER/AGENT/SYSTEM lines are headers with their speaker and the text after the first ':'; anything else continues the entry |
| ConversationLog.Step | utils/logging_utils.py:140-167 | a blank or rule line changes nothing; a continuation adds its text to the open entry; a header emits the open entry when it can, then opens its speaker's entry, with the old pieces kept when nothing was emitted; the header's own text is added only when it is non-empty |
| ConversationLog.ReadLines | utils/logging_utils.py:135-167 | the loop over a whole file starts empty and never emits or keeps an empty text |
| ConversationLog.ReadLinesStep | utils/logging_utils.py:135-167 | reading one more line is one more step of the loop |
| ConversationLog.GetConversationHistory | utils/logging_utils.py:117-174 | the last max_entries entries (`[-max_entries:]`) of what the loop as written emits, with the open entry flushed at the end; none has empty text |
| ConversationLog.StepNoEmptyText | utils/logging_utils.py:140-167 | a step keeps every emitted entry and open piece non-empty |
| ConversationLog.RunNoEmptyText | utils/logging_utils.py:135-167 | the loop never emits or keeps an empty piece of text |
| ConversationLog.ReadInvariant | utils/logging_utils.py:135-171 | no entry read from any file has empty text |
| ConversationLog.StepExtends | utils/logging_utils.py:140-167 | a line adds at most one entry, at the end, and never changes those already emitted |
| ConversationLog.SkippedLineIgnored | utils/logging_utils.py:137-138 | blank lines and rules leave the loop's state unchanged |
| ConversationLog.TimestampColonCut | utils/logging_utils.py:99-150 | every header the logger writes at HH:MM:SS reads back as "MM:SS): " and the text: the cut falls inside the timestamp |
| ConversationLog.PreambleLeaks | utils/logging_utils.py:140-144 | a non-header line before the first header is joined into the first entry |
| ConversationLog.ClassifyFixed | utils/logging_utils.py:146-164 | the corrected classifier differs only in a header's text, which it takes after the `):` that closes the timestamp |
| ConversationLog.GetConversationHistoryFixed | utils/logging_utils.py:117-174 | the corrected history is the last max_entries entries the corrected loop reads, in file order, and all of them for 0 |
| ConversationLog.LogLines | utils/logging_utils.py:95-115 | the file is three preamble lines, then one line and a blank line per entry |
| ConversationLog.HeaderRoundTrip | utils/logging_utils.py:99-115 | a written header line reads back as exactly its speaker and text |
| ConversationLog.PreambleClassified | utils/logging_utils.py:96-97 | of the preamble only the start line is kept, as text without a speaker |
| ConversationLog.LogRoundTrip | utils/logging_utils.py:95-171 | the corrected loop reads back exactly the entries written, in order |
| ConversationLog.HistoryRoundTrip | utils/logging_utils.py:117-174 | the corrected history is the newest max_entries of the entries written |

## Left out

- The JSON database file is not modelled: loading, saving, default paths, directory creation and the seed-data builders are file I/O. The store is any record, with no constant initial state.
- The `created_at` and `cancelled_at` timestamps are left out. Every `datetime.now()` becomes an explicit argument.
- The store's exception handlers are modelled only where they can fire on the modelled inputs: an unparseable date or time, and a date past 9999-12-31. Failures of the disk or of `dict` access on malformed records are not modelled.
- `get_services_info`, `search_doctors`, `get_service_by_id`, `get_doctor_by_id` and `get_doctor_availability` are not part of this model. They are reads that the modelled operations do not use.
- Booking.BookAppointment: the `"уточните на ресепшн"` default for a doctor without a room is not modelled, because every doctor record carries a room.
- Booking.BookAppointment: the generic `except` reply is modelled only for the automatic date overflowing past 9999-12-31.
- Booking.BookAppointment: the `<specialty>_consult` service id is not checked against the service list, because the code does not check it either.
- The hosted language model's calls, prompts and chains are not modelled, nor is the RAG service. The classifier's label, the emergency verdict and the extraction answer are arguments.
- Dialogue.Extraction: a JSON answer is modelled as an object whose values are null or strings. Numbers, lists and non-object JSON, which would make `dict.update` or the booking raise, are not modelled.
- The agent's `current_intent`, `patient_info` and `conversation_memory` are not modelled, since the routing does not read them.
- The services, medical-question, greeting, schedule, goodbye, complaint and general handlers are not modelled, nor the "service unavailable" replies. Routing stops at the choice of handler (`Dialogue.Handler`).
- Dialogue.CheckEmergency: the model's half of the check is modelled as "ЭКСТРЕННО" occurring in the upper-cased verdict, but the contract states only the keyword half and the no-model case.
- Dialogue.Respond: the contract states only the keyword alarm. The full branch chain is in `Dialogue.Route`.
- Text.Lower and Text.Upper: `str.lower` and `str.upper` are modelled for Latin and Cyrillic letters only, since every keyword of the source is in those alphabets.
- Text.IsDigit: digits are the ASCII `0`-`9` only. Python's `\d`, `int()` and strptime's numeric fields also accept other Unicode decimal digits, such as "١٥.٠٣.٢٠٢٥" or "１４:３０", which the model reads as no date and no time.
- Calendar.FormatIsoDate: the year is always padded to four digits. CPython's `strftime("%Y")` on glibc writes years below 1000 without padding ("999-03-15"), and `strptime("%Y-%m-%d")` then rejects them. For years 1 to 999, the model's date strings and its round trip differ from the source.
- Text.Join: the contract covers zero and one parts only. The two-part case used by the replies is fixed by the body.
- Booking.DaySuggestions: the contract states soundness and when the list is empty. It does not state that every doctor with a free time gets a suggestion.
- Booking.SuggestFrom: the contract states that found suggestions are kept, all are sound, and collection stops at five; `SuggestFromEmpty` adds when nothing is found. It does not state which suggestions are added, or in what order.
- Booking.SuggestAlternatives: the contract states the refusals, soundness and the cut at five; `NothingFoundIffWeekEmpty` adds when the total is zero. It does not state which suggestions come first.
- Booking.SuggestAlternatives: the preferred date and time arguments are ignored, as in the source.
- ConversationLog.LogLines: the timestamp text and the start line's datetime format are arguments. A SYSTEM event's `" - details"` suffix is part of the entry's text. The file writes themselves are I/O.
- STT, TTS, audio, the listen/speak loop, argument parsing and the random greeting and goodbye choices are left out. They are I/O or nondeterministic.
- `think`'s calls to the language model are not modelled; its answer is an argument. The history handed to the model is not modelled either.

## Findings

| source | as written | input that shows it | evidently intended | confidence | as-written member | corrected member |
|---|---|---|---|---|---|---|
| services/appointment_service.py:86-91 | "завтра" is tested before "послезавтра", which contains it | "запишите на послезавтра" gives tomorrow's date | "послезавтра" gives today + 2 | high; not executed | Extractors.DayAfterTomorrowIsTomorrow | Extractors.DayAfterTomorrowFixed |
| utils/logging_utils.py:150-162 | a header's text is taken after the first ':', which is the one inside the `(HH:MM:SS)` timestamp | the line `USER (12:34:56): привет` reads back as "34:56): привет" | the text after the `):` that closes the timestamp | high; not executed | ConversationLog.TimestampColonCut | ConversationLog.HeaderRoundTrip |
| utils/logging_utils.py:140-144 | the open pieces are reset only when they were emitted, so text without a speaker is carried into the next header's entry | a file whose start line is `Conversation started at …` followed by `USER (…): hi` gives one entry, "Conversation started at … hi" | each header starts a fresh entry; a speakerless preamble is dropped | high; not executed | ConversationLog.PreambleLeaks | ConversationLog.LogRoundTrip |

`Extractors.ExtractDay` and `ConversationLog.GetConversationHistory` model the
code as written. `Extractors.ExtractDayFixed` and
`ConversationLog.GetConversationHistoryFixed` are the intended behaviour, and
`ConversationLog.HistoryRoundTrip` proves the corrected history reads back
what was written.
