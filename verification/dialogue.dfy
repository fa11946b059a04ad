/**
 The medical agent's dialogue layer: the booking context that fills up over
 several turns (merged like `dict.update`), the fields still missing and the
 follow-up question, the hand-over to `book_appointment`, the validation of
 the classifier's intent label, the keyword half of the emergency check, the
 routing of a message to its handler, and the keyword fallback extractor.

 The hosted language model is not modelled: what it answers (the intent
 label, the emergency verdict, the extracted fields) arrives as an argument,
 with None for "no model connected or the call raised".
 */
module Dialogue {
  import opened Wrappers
  import opened Text
  import opened Calendar
  import opened Patterns
  import opened Extractors
  import opened ScheduleStore
  import opened Booking

  // ---------------------------------------------------------------------
  // The booking context

  /** A value of the context: JSON null, or a string. */
  datatype Value = Null | Str(s: string)

  /** The booking context, keyed by field name. */
  type Context = map<string, Value>

  /** Python truthiness of a context value. */
  predicate Truthy(v: Value) {
    v.Str? && v.s != ""
  }

  /** `context.update(info)`: the extracted keys overwrite, even with empty values; other keys stay. */
  function Merge(ctx: Context, info: Context): (r: Context)
    ensures r.Keys == ctx.Keys + info.Keys
    ensures forall k :: k in info ==> r[k] == info[k]
    ensures forall k :: k in ctx && k !in info ==> r[k] == ctx[k]
  {
    ctx + info
  }

  /** A field that is present with a truthy value. */
  predicate Filled(ctx: Context, field: string) {
    field in ctx && Truthy(ctx[field])
  }

  /** The fields a booking cannot do without, in the order they are asked for. */
  const RequiredFields: seq<string> := ["specialty", "patient_name", "patient_phone"]

  /** The fields of `fields` that are not filled, in their order. */
  function MissingAmong(fields: seq<string>, ctx: Context): (r: seq<string>)
    ensures |r| <= |fields|
    ensures forall f :: f in r <==> f in fields && !Filled(ctx, f)
  {
    if |fields| == 0 then []
    else (if Filled(ctx, fields[0]) then [] else [fields[0]]) + MissingAmong(fields[1..], ctx)
  }

  /** `_get_missing_appointment_info`. */
  function MissingFields(ctx: Context): (r: seq<string>)
    ensures r == (if Filled(ctx, "specialty") then [] else ["specialty"])
               + (if Filled(ctx, "patient_name") then [] else ["patient_name"])
               + (if Filled(ctx, "patient_phone") then [] else ["patient_phone"])
  {
    var fs := RequiredFields;
    assert fs[1..] == ["patient_name", "patient_phone"];
    assert fs[1..][1..] == ["patient_phone"];
    assert fs[1..][1..][1..] == [];
    var last := MissingAmong(fs[1..][1..], ctx);
    assert last == (if Filled(ctx, "patient_phone") then [] else ["patient_phone"]);
    var two := MissingAmong(fs[1..], ctx);
    assert two == (if Filled(ctx, "patient_name") then [] else ["patient_name"]) + last;
    MissingAmong(fs, ctx)
  }

  /** Nothing is missing exactly when all three required fields are filled. */
  lemma NothingMissing(ctx: Context)
    ensures MissingFields(ctx) == [] <==>
      Filled(ctx, "specialty") && Filled(ctx, "patient_name") && Filled(ctx, "patient_phone")
  {
  }

  // ---------------------------------------------------------------------
  // The follow-up question

  const Questions: map<string, string> := map[
    "specialty" := "К какому специалисту вы хотите записаться?",
    "patient_name" := "Скажите, пожалуйста, ваше имя.",
    "patient_phone" := "Укажите ваш контактный телефон для записи.",
    "date" := "На какую дату вам удобно прийти?",
    "time" := "В какое время вам будет удобно?"
  ]

  const NeedMoreInfo: string := "Мне нужна дополнительная информация."

  const StillNeeded: string := "Мне нужна еще информация: "

  /** `questions.get(field, field)`: a field without a question stands for itself. */
  function Question(field: string): string {
    if field in Questions then Questions[field] else field
  }

  function QuestionList(fields: seq<string>): (r: seq<string>)
    ensures |r| == |fields| && forall i :: 0 <= i < |fields| ==> r[i] == Question(fields[i])
  {
    if |fields| == 0 then [] else [Question(fields[0])] + QuestionList(fields[1..])
  }

  /** `_ask_for_missing_info`: one question, or the first two joined. */
  function AskForMissing(missing: seq<string>): (r: string)
    ensures |missing| == 1 && missing[0] in Questions ==> r == Questions[missing[0]]
    ensures |missing| == 1 && missing[0] !in Questions ==> r == NeedMoreInfo
    ensures |missing| >= 2 ==> r == StillNeeded + Question(missing[0]) + ", " + Question(missing[1]) + "."
  {
    if |missing| == 1 then (if missing[0] in Questions then Questions[missing[0]] else NeedMoreInfo)
    else
      var asked := QuestionList(if |missing| <= 2 then missing else missing[..2]);
      assert |missing| >= 2 ==> asked[1..] == [asked[1]];
      StillNeeded + Join(asked, ", ") + "."
  }

  /** Only the first two missing fields are ever asked about. */
  lemma AskOnlyFirstTwo(missing: seq<string>)
    requires |missing| >= 2
    ensures AskForMissing(missing) == AskForMissing(missing[..2])
  {
  }

  /** Every missing field has its own question, so the fallback text never shows. */
  lemma MissingAreAsked(ctx: Context)
    ensures forall f :: f in MissingFields(ctx) ==> f in Questions
    ensures |MissingFields(ctx)| == 1 ==> AskForMissing(MissingFields(ctx)) == Questions[MissingFields(ctx)[0]]
  {
  }

  // ---------------------------------------------------------------------
  // What the model extracted

  /** The model's answer to the extraction prompt. */
  datatype Extraction =
    | NoModel                // no model connected, or the call raised
    | JsonObject(fields: Context)
    | FreeText(text: string) // not JSON: the keyword fallback reads it

  /** `_extract_appointment_info`. */
  function ExtractedInfo(e: Extraction): (info: Context)
    ensures e.NoModel? ==> info == map[]
    ensures e.JsonObject? ==> info == e.fields
    ensures e.FreeText? ==> info.Keys <= {"specialty", "date_raw"} && info == FallbackExtract(e.text)
  {
    match e
    case NoModel => map[]
    case JsonObject(fields) => fields
    case FreeText(text) => FallbackExtract(text)
  }

  /** The fallback's own keyword table, Russian stem to specialty code, in dictionary order. */
  const FallbackSpecialties: seq<(string, string)> := [
    ("терапевт", "therapy"), ("кардиолог", "cardiology"), ("невролог", "neurology"),
    ("гинеколог", "gynecology"), ("уролог", "urology"), ("педиатр", "pediatrics")
  ]

  /** The fallback's date patterns, in list order. */
  const FallbackDatePatterns: seq<Pattern> := [
    DayMonthName, DayDotMonthDotYear, Literal("завтра"), Literal("послезавтра"), Literal("сегодня")
  ]

  /** The specialty part of the fallback: the code of the first keyword found. */
  function FallbackSpecialty(lower: string): (info: Context)
    ensures info.Keys <= {"specialty"}
    ensures "specialty" in info <==> exists j :: 0 <= j < |FallbackSpecialties| && Contains(lower, FallbackSpecialties[j].0)
    ensures "specialty" in info ==>
      exists k :: && FirstHit(FallbackSpecialties, lower) == Some(k)
                  && info["specialty"] == Str(FallbackSpecialties[k].1)
  {
    match FirstValue(FallbackSpecialties, lower)
    case None => map[]
    case Some(code) => map["specialty" := Str(code)]
  }

  /** The date part of the fallback: the text of the first pattern's leftmost match. */
  function FallbackDate(lower: string): (info: Context)
    ensures info.Keys <= {"date_raw"}
    ensures "date_raw" in info <==> FirstSearch(FallbackDatePatterns, lower).Some?
    ensures "date_raw" in info ==>
      var m := FirstSearch(FallbackDatePatterns, lower).value.1;
      m.start <= m.end <= |lower| && info["date_raw"] == Str(lower[m.start..m.end])
  {
    match FirstSearch(FallbackDatePatterns, lower)
    case None => map[]
    case Some((_, m)) => map["date_raw" := Str(lower[m.start..m.end])]
  }

  /** `_parse_appointment_info_fallback`: a specialty code and the raw date text, each when found. */
  function FallbackExtract(text: string): (info: Context)
    ensures info.Keys <= {"specialty", "date_raw"}
    ensures "specialty" in info <==> "specialty" in FallbackSpecialty(LowerStr(text))
    ensures "specialty" in info ==> info["specialty"] == FallbackSpecialty(LowerStr(text))["specialty"]
    ensures "date_raw" in info <==> "date_raw" in FallbackDate(LowerStr(text))
    ensures "date_raw" in info ==> info["date_raw"] == FallbackDate(LowerStr(text))["date_raw"]
  {
    var lower := LowerStr(text);
    var a, b := FallbackSpecialty(lower), FallbackDate(lower);
    assert "specialty" !in b && "date_raw" !in a;
    a + b
  }

  /** Every specialty code of the fallback table. */
  lemma FallbackCodesAscii()
    ensures forall j :: 0 <= j < |FallbackSpecialties| ==> IsAscii(FallbackSpecialties[j].1)
  {
  }

  /**
   The fallback stores the English code, which the booking's normaliser does
   not recognise: a specialty taken from the fallback always fails the
   specialty step of `book_appointment`.
   */
  lemma FallbackSpecialtyRejected(text: string)
    requires "specialty" in FallbackExtract(text)
    ensures FallbackExtract(text)["specialty"].Str?
    ensures NormalizeSpecialty(FallbackExtract(text)["specialty"].s).None?
  {
    var lower := LowerStr(text);
    var k :| FirstHit(FallbackSpecialties, lower) == Some(k) && FallbackSpecialty(lower)["specialty"] == Str(FallbackSpecialties[k].1);
    FallbackCodesAscii();
    CodesDoNotNormalize(FallbackSpecialties[k].1);
  }

  /** A literal word found in the text is matched at its leftmost occurrence. */
  lemma LiteralFound(w: string, s: string)
    requires Contains(s, w)
    ensures Search(Literal(w), s).Some?
    ensures s[Search(Literal(w), s).value.start..Search(Literal(w), s).value.end] == w
  {
    var i :| 0 <= i <= |s| - |w| && OccursAt(s, w, i);
    assert s[i..][..|w|] == s[i..i + |w|];
    assert MatchAt(Literal(w), s, i).Some?;
  }

  /**
   "послезавтра" contains "завтра", which comes first in the pattern list: a
   text with no numeric date that says "послезавтра" records "завтра".
   */
  lemma FallbackDayAfterTomorrow(text: string)
    requires Contains(LowerStr(text), "послезавтра")
    requires Search(DayMonthName, LowerStr(text)).None? && Search(DayDotMonthDotYear, LowerStr(text)).None?
    ensures "date_raw" in FallbackExtract(text) && FallbackExtract(text)["date_raw"] == Str("завтра")
  {
    var lower := LowerStr(text);
    assert "послезавтра" == "после" + "завтра";
    ContainsSuffix(lower, "после", "завтра");
    LiteralFound("завтра", lower);
    assert FallbackDatePatterns[2] == Literal("завтра");
    FirstSearchAt(FallbackDatePatterns, lower, 2);
  }

  // ---------------------------------------------------------------------
  // Booking from the context

  /** The context value of a field as `book_appointment` receives it; "" for a missing key or null. */
  function Arg(ctx: Context, field: string): (r: string)
    ensures field in ctx && ctx[field].Str? ==> r == ctx[field].s
    ensures !(field in ctx && ctx[field].Str?) ==> r == ""
  {
    if field in ctx && ctx[field].Str? then ctx[field].s else ""
  }

  /** A request argument carries a field: given exactly when it is filled, and then its string. */
  predicate Carries(ctx: Context, field: string, arg: string) {
    && (arg != "" <==> Filled(ctx, field))
    && (Filled(ctx, field) ==> arg == ctx[field].s)
  }

  /** The keyword arguments the context fills in. */
  function RequestOf(ctx: Context): (req: BookingRequest)
    ensures Carries(ctx, "specialty", req.specialty) && Carries(ctx, "doctor_name", req.doctorName)
    ensures Carries(ctx, "date", req.date) && Carries(ctx, "time", req.time)
    ensures Carries(ctx, "patient_name", req.patientName) && Carries(ctx, "patient_phone", req.patientPhone)
    ensures Carries(ctx, "complaint", req.complaint)
  {
    BookingRequest(Arg(ctx, "specialty"), Arg(ctx, "doctor_name"), Arg(ctx, "date"), Arg(ctx, "time"),
                   Arg(ctx, "patient_name"), Arg(ctx, "patient_phone"), Arg(ctx, "complaint"))
  }

  /** The context, the store and the reply after one booking turn. */
  datatype Turn = Turn(context: Context, store: Store, reply: string)

  const BookedLead: string := "Отлично! Я записала вас на прием. "
  const NotBookedLead: string := "К сожалению, не удалось записать на прием: "

  /** `handle_appointment_booking`: merge, ask for what is missing, else book. */
  function HandleAppointmentBooking(ctx: Context, e: Extraction, store: Store, today: Date): (t: Turn)
    requires ValidDate(today)
    ensures var merged := Merge(ctx, ExtractedInfo(e));
      MissingFields(merged) != [] ==> t == Turn(merged, store, AskForMissing(MissingFields(merged)))
    ensures var merged := Merge(ctx, ExtractedInfo(e));
      var (after, out) := BookAppointment(store, RequestOf(merged), today);
      MissingFields(merged) == [] ==>
        && (out.success ==> t == Turn(map[], after, BookedLead + out.message))
        && (!out.success ==> t == Turn(merged, store, NotBookedLead + out.message))
  {
    var merged := Merge(ctx, ExtractedInfo(e));
    var missing := MissingFields(merged);
    if missing != [] then Turn(merged, store, AskForMissing(missing))
    else
      var (after, out) := BookAppointment(store, RequestOf(merged), today);
      if out.success then Turn(map[], after, BookedLead + out.message)
      else Turn(merged, after, NotBookedLead + out.message)
  }

  /** The store changes only through a successful booking, and then the context is empty. */
  lemma BookingTurnStore(ctx: Context, e: Extraction, store: Store, today: Date)
    requires ValidDate(today)
    ensures var t := HandleAppointmentBooking(ctx, e, store, today);
      t.store != store ==> t.context == map[] && |t.store.appointments| == |store.appointments| + 1
  {
    var merged := Merge(ctx, ExtractedInfo(e));
    if MissingFields(merged) == [] {
      var r := BookAppointment(store, RequestOf(merged), today);
    }
  }

  /** A field filled with a truthy string reaches `book_appointment` as that string. */
  lemma FilledReachesRequest(ctx: Context)
    requires MissingFields(ctx) == []
    ensures var req := RequestOf(ctx);
      req.specialty != "" && req.patientName != "" && req.patientPhone != ""
  {
    NothingMissing(ctx);
  }

  /** A specialty the normaliser does not know stops `book_appointment` before anything is stored. */
  lemma UnknownSpecialtyNotBooked(store: Store, req: BookingRequest, today: Date)
    requires ValidDate(today)
    requires NormalizeSpecialty(req.specialty).None?
    ensures !BookAppointment(store, req, today).1.success
  {
    assert SelectSlot(store, req, today).Halted?;
  }

  /** A turn whose booking is refused keeps the store and the merged context. */
  lemma RefusedTurn(ctx: Context, e: Extraction, store: Store, today: Date)
    requires ValidDate(today)
    requires !BookAppointment(store, RequestOf(Merge(ctx, ExtractedInfo(e))), today).1.success
    ensures var t := HandleAppointmentBooking(ctx, e, store, today);
      t.store == store && t.context == Merge(ctx, ExtractedInfo(e))
  {
  }

  /**
   With the fallback's specialty in the context the booking never goes
   through, whatever the other fields say; by `RefusedTurn` the store and the
   merged context then stay as they are.
   */
  lemma FallbackNeverBooks(ctx: Context, text: string, store: Store, today: Date)
    requires ValidDate(today)
    requires "specialty" in FallbackExtract(text)
    ensures !BookAppointment(store, RequestOf(Merge(ctx, ExtractedInfo(FreeText(text)))), today).1.success
  {
    var info := ExtractedInfo(FreeText(text));
    assert info == FallbackExtract(text);
    FallbackSpecialtyRejected(text);
    var merged := Merge(ctx, info);
    assert merged["specialty"] == info["specialty"];
    var req := RequestOf(merged);
    assert req.specialty == Arg(merged, "specialty") == info["specialty"].s;
    UnknownSpecialtyNotBooked(store, req, today);
  }

  // ---------------------------------------------------------------------
  // Intent and emergency

  const ValidIntents: seq<string> := [
    "greeting", "appointment", "services_info", "price_inquiry", "medical_question",
    "emergency", "complaint", "schedule_inquiry", "goodbye", "unknown"
  ]

  /** `detect_intent`: the classifier's answer, stripped and lower-cased, if it is a known label. */
  function DetectIntent(answer: Option<string>): (r: string)
    ensures r in ValidIntents
    ensures answer.Some? && LowerStr(Strip(answer.value)) in ValidIntents ==> r == LowerStr(Strip(answer.value))
    ensures answer.None? || LowerStr(Strip(answer.value)) !in ValidIntents ==> r == "unknown"
  {
    match answer
    case None => "unknown"
    case Some(text) =>
      var intent := LowerStr(Strip(text));
      if intent in ValidIntents then intent else "unknown"
  }

  /** A label has no whitespace at its ends and nothing `str.lower` changes. */
  predicate PlainLabel(l: string) {
    && |l| > 0 && !IsSpace(l[0]) && !IsSpace(l[|l| - 1])
    && forall i :: 0 <= i < |l| ==> 'a' <= l[i] <= 'z' || l[i] == '_'
  }

  lemma LabelsPlain()
    ensures forall k :: 0 <= k < |ValidIntents| ==> PlainLabel(ValidIntents[k])
  {
  }

  /** A plain label is its own stripped, lower-cased form. */
  lemma PlainLabelFixed(word: string)
    requires PlainLabel(word)
    ensures LowerStr(Strip(word)) == word
  {
    StripOfStripped(word);
    LowerStrFixed(word);
  }

  /** Leading whitespace is stripped away before the label is read. */
  lemma {:induction false} PaddingStripped(pad: string, word: string)
    requires forall i :: 0 <= i < |pad| ==> IsSpace(pad[i])
    ensures Strip(pad + word) == Strip(word)
    decreases |pad|
  {
    if |pad| == 0 {
      assert pad + word == word;
    } else {
      assert pad + word == [pad[0]] + (pad[1..] + word);
      StripAfterSpace(pad[0], pad[1..] + word);
      PaddingStripped(pad[1..], word);
    }
  }

  /** The classifier answering a label, with or without leading whitespace, yields that label. */
  lemma LabelIntent(pad: string, word: string)
    requires word in ValidIntents
    requires forall i :: 0 <= i < |pad| ==> IsSpace(pad[i])
    ensures DetectIntent(Some(pad + word)) == word
  {
    LabelsPlain();
    PaddingStripped(pad, word);
    PlainLabelFixed(word);
  }

  const EmergencyKeywords: seq<string> := [
    "сильная боль", "не могу дышать", "кровотечение", "потерял сознание",
    "сердечный приступ", "инсульт", "температура 40", "судороги",
    "аллергическая реакция", "отравление", "травма", "перелом"
  ]

  /** The keyword half of `check_emergency`. */
  predicate KeywordEmergency(message: string) {
    AnyContained(EmergencyKeywords, LowerStr(message))
  }

  /** `check_emergency`: a keyword, or else the model's verdict containing "ЭКСТРЕННО". */
  function CheckEmergency(message: string, verdict: Option<string>): (r: bool)
    ensures KeywordEmergency(message) ==> r
    ensures verdict.None? ==> (r <==> KeywordEmergency(message))
  {
    if KeywordEmergency(message) then true
    else match verdict
      case None => false
      case Some(answer) => Contains(UpperStr(answer), "ЭКСТРЕННО")
  }

  /** A keyword decides alone: the model's verdict is not consulted. */
  lemma KeywordDecidesAlone(message: string, v1: Option<string>, v2: Option<string>)
    requires KeywordEmergency(message)
    ensures CheckEmergency(message, v1) == CheckEmergency(message, v2) == true
  {
  }

  /** The keyword check does not depend on letter case. */
  lemma KeywordIgnoresCase(message: string)
    ensures KeywordEmergency(LowerStr(message)) == KeywordEmergency(message)
  {
    LowerIdempotent(message);
  }

  // ---------------------------------------------------------------------
  // Routing

  /** The handler `generate_response` hands a message to. */
  datatype Handler =
    | EmergencyAlert | Greeting | BookingFlow | ServicesInfo | MedicalAnswer
    | ScheduleInfo | Farewell | ComplaintFlow | GeneralAnswer

  const EmergencyReply: string := "\U{26A0}\U{FE0F} Это похоже на экстренную ситуацию! Немедленно обратитесь в службу "
                                  + "скорой помощи по номеру 103 или в ближайшее отделение неотложной помощи!"

  /** The intent labels `generate_response` sends to a handler of their own. */
  const RoutedIntents: set<string> := {"greeting", "appointment", "services_info", "price_inquiry",
                                       "medical_question", "schedule_inquiry", "goodbye", "complaint"}

  /** The branch chain of `generate_response` on an emergency flag and an intent label. */
  function Route(emergency: bool, intent: string): (h: Handler)
    ensures h == EmergencyAlert <==> emergency
    ensures h == BookingFlow <==> !emergency && intent == "appointment"
    ensures h == ServicesInfo <==> !emergency && (intent == "services_info" || intent == "price_inquiry")
    ensures h == Greeting <==> !emergency && intent == "greeting"
    ensures h == MedicalAnswer <==> !emergency && intent == "medical_question"
    ensures h == ScheduleInfo <==> !emergency && intent == "schedule_inquiry"
    ensures h == Farewell <==> !emergency && intent == "goodbye"
    ensures h == ComplaintFlow <==> !emergency && intent == "complaint"
    ensures h == GeneralAnswer <==> !emergency && intent !in RoutedIntents
  {
    if emergency then EmergencyAlert
    else if intent == "greeting" then Greeting
    else if intent == "appointment" then BookingFlow
    else if intent == "services_info" || intent == "price_inquiry" then ServicesInfo
    else if intent == "medical_question" then MedicalAnswer
    else if intent == "schedule_inquiry" then ScheduleInfo
    else if intent == "goodbye" then Farewell
    else if intent == "complaint" then ComplaintFlow
    else GeneralAnswer
  }

  /** `generate_response`: the emergency check first, then the intent. */
  function Respond(message: string, verdict: Option<string>, answer: Option<string>): (h: Handler)
    ensures KeywordEmergency(message) ==> h == EmergencyAlert
  {
    Route(CheckEmergency(message, verdict), DetectIntent(answer))
  }

  /** The emergency check runs first: whatever the classifier says, a keyword gives the alert. */
  lemma EmergencyBeforeIntent(message: string, verdict: Option<string>, a1: Option<string>, a2: Option<string>)
    requires KeywordEmergency(message)
    ensures Respond(message, verdict, a1) == Respond(message, verdict, a2) == EmergencyAlert
  {
  }

  /** The label "emergency" has no branch of its own: without an alarm it reaches the general handler. */
  lemma EmergencyLabelIsGeneral(message: string, verdict: Option<string>)
    requires !CheckEmergency(message, verdict)
    ensures Respond(message, verdict, Some("emergency")) == GeneralAnswer
  {
    EmergencyLabelRead();
  }

  lemma EmergencyLabelRead()
    ensures DetectIntent(Some("emergency")) == "emergency"
  {
    PlainLabelFixed("emergency");
  }

  /** Without a model only keywords raise the alarm, and every message goes to the general handler. */
  lemma NoModelRouting(message: string)
    ensures Respond(message, None, None) == (if KeywordEmergency(message) then EmergencyAlert else GeneralAnswer)
  {
  }
}
