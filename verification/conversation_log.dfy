/**
 The conversation log: the line format the logger writes (a start line, a
 rule of dashes, then one `SPEAKER (HH:MM:SS): text` line per entry with a
 blank line after it) and the line loop of `get_conversation_history` that
 reads it back, over the file's lines.

 The loop as written has two defects, both modelled here together with a
 corrected reader: a header's text is cut at the first colon, which is the
 one inside the timestamp, and the lines before the first header (the start
 line) are never discarded, so they end up in the first entry.
 */
module ConversationLog {
  import opened Wrappers
  import opened Text

  datatype Speaker = User | Agent | System

  datatype Entry = Entry(speaker: Speaker, text: string)

  function SpeakerName(sp: Speaker): string {
    match sp
    case User => "USER"
    case Agent => "AGENT"
    case System => "SYSTEM"
  }

  /** `"-" * n`. */
  function Dashes(n: nat): (r: string)
    ensures |r| == n && forall i :: 0 <= i < n ==> r[i] == '-'
  {
    seq(n, _ => '-')
  }

  /** A line the loop passes over: empty once stripped, or a rule of ten or more dashes. */
  predicate Skipped(line: string) {
    line == "" || StartsWith(line, Dashes(10))
  }

  /** The speaker a header line names, tried in the order USER, AGENT, SYSTEM. */
  function HeaderSpeaker(line: string): (r: Option<Speaker>)
    ensures r.Some? ==> StartsWith(line, SpeakerName(r.value))
    ensures r.None? <==> !StartsWith(line, "USER") && !StartsWith(line, "AGENT") && !StartsWith(line, "SYSTEM")
  {
    if StartsWith(line, "USER") then Some(User)
    else if StartsWith(line, "AGENT") then Some(Agent)
    else if StartsWith(line, "SYSTEM") then Some(System)
    else None
  }

  /** The state of the line loop: the entries emitted, the pieces of the open entry, its speaker. */
  datatype Reader = Reader(history: seq<Entry>, current: seq<string>, speaker: Option<Speaker>)

  const Start: Reader := Reader([], [], None)

  /** The open entry is emitted only when it has both a speaker and some text. */
  predicate CanEmit(r: Reader) {
    r.current != [] && r.speaker.Some?
  }

  /** The entries with the open one emitted, when it can be. */
  function Flush(r: Reader): (es: seq<Entry>)
    ensures CanEmit(r) ==> es == r.history + [Entry(r.speaker.value, Join(r.current, " "))]
    ensures !CanEmit(r) ==> es == r.history
  {
    if CanEmit(r) then r.history + [Entry(r.speaker.value, Join(r.current, " "))] else r.history
  }

  /** Python's `xs[-n:]`, including its reading of `n <= 0`. */
  function TailSlice<T>(xs: seq<T>, n: int): (r: seq<T>)
    ensures n > 0 ==> |r| == (if n < |xs| then n else |xs|) && r == xs[|xs| - |r|..]
    ensures n == 0 ==> r == xs
  {
    var start := if n > 0 then (if n < |xs| then |xs| - n else 0) else (if -n < |xs| then -n else |xs|);
    xs[start..]
  }

  /** What one line of the file is to the loop, once stripped. */
  datatype Line = Ignored | Continuation(text: string) | Header(speaker: Speaker, content: string)

  /** The lines of a file, each classified by `classify`. */
  function Classified(raws: seq<string>, classify: string -> Line): (ls: seq<Line>)
    ensures |ls| == |raws| && forall i :: 0 <= i < |raws| ==> ls[i] == classify(raws[i])
  {
    seq(|raws|, i requires 0 <= i < |raws| => classify(raws[i]))
  }

  /** The loop over classified lines, one `step` per line, from the first. */
  function Run(ls: seq<Line>, step: (Reader, Line) -> Reader): Reader {
    if |ls| == 0 then Start else step(Run(ls[..|ls| - 1], step), ls[|ls| - 1])
  }

  lemma ClassifiedAppend(raws: seq<string>, more: seq<string>, classify: string -> Line)
    ensures Classified(raws + more, classify) == Classified(raws, classify) + Classified(more, classify)
  {
  }

  lemma RunAppend(ls: seq<Line>, l: Line, step: (Reader, Line) -> Reader)
    ensures Run(ls + [l], step) == step(Run(ls, step), l)
  {
    assert (ls + [l])[..|ls|] == ls;
  }

  lemma ClassifiedPair(a: string, b: string, classify: string -> Line)
    ensures Classified([a, b], classify) == [classify(a), classify(b)]
  {
  }

  lemma ClassifiedTriple(a: string, b: string, c: string, classify: string -> Line)
    ensures Classified([a, b, c], classify) == [classify(a), classify(b), classify(c)]
  {
  }

  lemma RunPair(a: Line, b: Line, step: (Reader, Line) -> Reader)
    ensures Run([a, b], step) == step(step(Start, a), b)
  {
    RunAppend([], a, step);
    RunAppend([a], b, step);
    assert [a] + [b] == [a, b];
  }

  // ---------------------------------------------------------------------
  // The loop as written

  /** The header's text as written: whatever follows the first ':' of the line, stripped. */
  function HeaderText(line: string): string {
    var k := Find(line, ":");
    Strip(line[k + 1..])
  }

  /** A line as the loop as written sees it; a continuation line always has some text. */
  function Classify(raw: string): (l: Line)
    ensures l.Ignored? <==> Skipped(Strip(raw))
    ensures l.Continuation? ==> l.text != "" && l.text == Strip(raw) && HeaderSpeaker(l.text).None?
    ensures l.Header? ==> HeaderSpeaker(Strip(raw)) == Some(l.speaker) && l.content == HeaderText(Strip(raw))
  {
    var line := Strip(raw);
    if Skipped(line) then Ignored
    else match HeaderSpeaker(line)
      case None => Continuation(line)
      case Some(sp) => Header(sp, HeaderText(line))
  }

  /** One line of the loop as written: the open pieces are reset only when they were emitted. */
  function Step(r: Reader, l: Line): (next: Reader)
    ensures l.Ignored? ==> next == r
    ensures l.Continuation? ==> next.history == r.history && next.speaker == r.speaker && next.current == r.current + [l.text]
    ensures l.Header? ==> next.history == Flush(r) && next.speaker == Some(l.speaker)
    ensures l.Header? && CanEmit(r) ==> next.current == (if l.content != "" then [l.content] else [])
    ensures l.Header? && !CanEmit(r) ==> next.current == r.current + (if l.content != "" then [l.content] else [])
  {
    match l
    case Ignored => r
    case Continuation(text) => r.(current := r.current + [text])
    case Header(sp, content) =>
      var current := if CanEmit(r) then [] else r.current;
      Reader(Flush(r), if content != "" then current + [content] else current, Some(sp))
  }

  /** The loop over the whole file: no emitted entry and no open piece is empty. */
  function ReadLines(raws: seq<string>): (r: Reader)
    ensures raws == [] ==> r == Start
    ensures NoEmptyText(r)
  {
    RunNoEmptyText(Classified(raws, Classify));
    Run(Classified(raws, Classify), Step)
  }

  /** Reading one more line is one more step of the loop. */
  lemma ReadLinesStep(raws: seq<string>, raw: string)
    ensures ReadLines(raws + [raw]) == Step(ReadLines(raws), Classify(raw))
  {
    ClassifiedAppend(raws, [raw], Classify);
    RunAppend(Classified(raws, Classify), Classify(raw), Step);
  }

  /** `get_conversation_history(max_entries)` over the lines of the file. */
  function GetConversationHistory(raws: seq<string>, maxEntries: int): (es: seq<Entry>)
    ensures maxEntries > 0 ==> |es| <= maxEntries
    ensures forall e :: e in es ==> e.text != ""
    ensures var all := Flush(ReadLines(raws));
      && (maxEntries > 0 ==> |es| == (if maxEntries < |all| then maxEntries else |all|) && es == all[|all| - |es|..])
      && (maxEntries == 0 ==> es == all)
  {
    var all := Flush(ReadLines(raws));
    ReadInvariant(raws);
    TailSlice(all, maxEntries)
  }

  /** Every emitted entry and every open piece has some text. */
  predicate NoEmptyText(r: Reader) {
    && (forall i :: 0 <= i < |r.history| ==> r.history[i].text != "")
    && (forall i :: 0 <= i < |r.current| ==> r.current[i] != "")
  }

  /** Joining non-empty pieces gives a non-empty text. */
  lemma JoinNonEmpty(parts: seq<string>, sep: string)
    requires parts != [] && parts[0] != ""
    ensures Join(parts, sep) != ""
  {
  }

  /** A line with text keeps every entry and piece non-empty. */
  lemma StepNoEmptyText(r: Reader, l: Line)
    requires NoEmptyText(r)
    requires l.Continuation? ==> l.text != ""
    ensures NoEmptyText(Step(r, l))
  {
    if CanEmit(r) {
      JoinNonEmpty(r.current, " ");
    }
  }

  lemma {:induction false} RunNoEmptyText(ls: seq<Line>)
    requires forall i :: 0 <= i < |ls| ==> ls[i].Continuation? ==> ls[i].text != ""
    ensures NoEmptyText(Run(ls, Step))
  {
    if |ls| > 0 {
      RunNoEmptyText(ls[..|ls| - 1]);
      StepNoEmptyText(Run(ls[..|ls| - 1], Step), ls[|ls| - 1]);
    }
  }

  /** No entry the loop emits is empty. */
  lemma ReadInvariant(raws: seq<string>)
    ensures NoEmptyText(ReadLines(raws))
    ensures forall e :: e in Flush(ReadLines(raws)) ==> e.text != ""
  {
    FlushKeepsText(ReadLines(raws));
  }

  /** Flushing a reader with no empty text emits no empty entry. */
  lemma FlushKeepsText(r: Reader)
    requires NoEmptyText(r)
    ensures forall e :: e in Flush(r) ==> e.text != ""
  {
    if CanEmit(r) {
      JoinNonEmpty(r.current, " ");
      assert Flush(r)[|r.history|].text != "";
      assert forall i :: 0 <= i < |r.history| ==> Flush(r)[i] == r.history[i];
    }
  }

  /** A step only ever adds entries at the end. */
  lemma StepExtends(r: Reader, l: Line)
    ensures |r.history| <= |Step(r, l).history| <= |r.history| + 1
    ensures Step(r, l).history[..|r.history|] == r.history
  {
  }

  /** Blank lines and rules leave the loop's state as it was. */
  lemma SkippedLineIgnored(raws: seq<string>, raw: string)
    requires Skipped(Strip(raw))
    ensures ReadLines(raws + [raw]) == ReadLines(raws)
  {
    ClassifiedAppend(raws, [raw], Classify);
    RunAppend(Classified(raws, Classify), Classify(raw), Step);
  }

  /** The first `:` of a line is where `find(":")` stops. */
  lemma FindColon(line: string, k: nat)
    requires k < |line| && line[k] == ':'
    requires forall j :: 0 <= j < k ==> line[j] != ':'
    ensures Find(line, ":") == k
  {
    assert OccursAt(line, ":", k) by {
      assert line[k..k + 1] == [line[k]];
    }
    forall j | 0 <= j < k
      ensures !OccursAt(line, ":", j)
    {
      assert line[j..j + 1] == [line[j]];
    }
  }

  /** A `%H:%M:%S` timestamp: two digits, a colon, two digits, a colon, two digits. */
  predicate ClockStamp(hh: string, mm: string, ss: string) {
    |hh| == 2 && |mm| == 2 && |ss| == 2 && AllDigits(hh) && AllDigits(mm) && AllDigits(ss)
  }

  /** The first colon of a stamped header is the one after the hour. */
  lemma ColonInStamp(name: string, hh: string, rest: string)
    requires forall j :: 0 <= j < |name| ==> name[j] != ':'
    requires |hh| == 2 && AllDigits(hh)
    ensures Find(name + " (" + hh + ":" + rest, ":") == |name| + 4
  {
    var line := name + " (" + hh + ":" + rest;
    var n := |name|;
    forall j | 0 <= j < n + 4
      ensures line[j] != ':'
    {
      if j < n {
        assert line[j] == name[j];
      } else if j < n + 2 {
        assert line[j] == " ("[j - n];
      } else {
        assert line[j] == hh[j - n - 2];
      }
    }
    FindColon(line, n + 4);
  }

  /**
   The timestamp's colon: the header the logger writes at HH:MM:SS gives
   "MM:SS): " and the text as its text, for every stamp.
   */
  lemma TimestampColonCut(e: Entry, hh: string, mm: string, ss: string)
    requires ClockStamp(hh, mm, ss)
    ensures HeaderText(HeaderLine(e, hh + ":" + mm + ":" + ss)) == Strip(mm + ":" + ss + "): " + e.text)
  {
    var name := SpeakerName(e.speaker);
    var tail := mm + ":" + ss + "): " + e.text;
    var line := HeaderLine(e, hh + ":" + mm + ":" + ss);
    assert line == name + " (" + hh + ":" + tail;
    assert line[|name| + 5..] == tail;
    ColonInStamp(name, hh, tail);
    HeaderTextAt(line, |name| + 4, tail);
  }

  lemma HeaderTextAt(line: string, k: int, tail: string)
    requires Find(line, ":") == k && line[k + 1..] == tail
    ensures HeaderText(line) == Strip(tail)
  {
  }

  /** A continuation before the first header is joined into that header's entry. */
  lemma LeakRun(pre: string, h: Line)
    requires h.Header? && h.content != ""
    ensures Flush(Run([Continuation(pre), h], Step)) == [Entry(h.speaker, pre + " " + h.content)]
  {
    RunPair(Continuation(pre), h, Step);
    assert Run([Continuation(pre), h], Step) == Reader([], [pre, h.content], Some(h.speaker));
    assert [pre, h.content][1..] == [h.content];
  }

  /** The start line leaks: it is kept as the open text and joined into the first entry. */
  lemma PreambleLeaks(pre: string, header: string)
    requires Strip(pre) == pre && !Skipped(pre) && HeaderSpeaker(pre).None?
    requires Strip(header) == header && !Skipped(header) && HeaderSpeaker(header).Some?
    requires HeaderText(header) != ""
    ensures Flush(ReadLines([pre, header])) == [Entry(HeaderSpeaker(header).value, pre + " " + HeaderText(header))]
  {
    var h := Classify(header);
    assert h == Header(HeaderSpeaker(header).value, HeaderText(header));
    assert Classify(pre) == Continuation(pre);
    ClassifiedPair(pre, header, Classify);
    LeakRun(pre, h);
  }

  // ---------------------------------------------------------------------
  // The corrected loop

  /** The header's text: whatever follows the `):` that closes the timestamp, stripped. */
  function HeaderTextFixed(line: string): string {
    var k := Find(line, "):");
    if k == -1 then HeaderText(line) else Strip(line[k + 2..])
  }

  /** A line as the corrected loop sees it: only the header's text is found differently. */
  function ClassifyFixed(raw: string): (l: Line)
    ensures l.Header? <==> Classify(raw).Header?
    ensures !l.Header? ==> l == Classify(raw)
    ensures l.Header? ==> l.speaker == Classify(raw).speaker && l.content == HeaderTextFixed(Strip(raw))
  {
    match Classify(raw)
    case Header(sp, _) => Header(sp, HeaderTextFixed(Strip(raw)))
    case other => other
  }

  /** One line of the corrected loop: a header always starts a fresh entry. */
  function StepFixed(r: Reader, l: Line): Reader {
    match l
    case Header(sp, content) => Reader(Flush(r), if content != "" then [content] else [], Some(sp))
    case _ => Step(r, l)
  }

  function ReadLinesFixed(raws: seq<string>): Reader {
    Run(Classified(raws, ClassifyFixed), StepFixed)
  }

  function GetConversationHistoryFixed(raws: seq<string>, maxEntries: int): (es: seq<Entry>)
    ensures var all := Flush(ReadLinesFixed(raws));
      && (maxEntries > 0 ==> |es| == (if maxEntries < |all| then maxEntries else |all|) && es == all[|all| - |es|..])
      && (maxEntries == 0 ==> es == all)
  {
    TailSlice(Flush(ReadLinesFixed(raws)), maxEntries)
  }

  // ---------------------------------------------------------------------
  // The log the logger writes

  /** Text the logger can write on one line and read back whole. */
  predicate Writable(text: string) {
    text != "" && Strip(text) == text && '\n' !in text && '\r' !in text
  }

  /** A timestamp that cannot close the header early. */
  predicate Stamp(ts: string) {
    forall i :: 0 <= i < |ts| ==> ts[i] != ')'
  }

  function HeaderLine(e: Entry, ts: string): string {
    SpeakerName(e.speaker) + " (" + ts + "): " + e.text
  }

  /** The three lines written when the file is created. */
  function Preamble(started: string): seq<string> {
    ["Conversation started at " + started, Dashes(80), ""]
  }

  /** The whole file: the preamble, then each entry's line and a blank line. */
  function LogLines(started: string, es: seq<Entry>, stamps: seq<string>): (lines: seq<string>)
    requires |stamps| == |es|
    ensures |lines| == 3 + 2 * |es|
  {
    if |es| == 0 then Preamble(started)
    else LogLines(started, es[..|es| - 1], stamps[..|es| - 1]) + [HeaderLine(es[|es| - 1], stamps[|es| - 1]), ""]
  }

  lemma SpeakerNamed(line: string, sp: Speaker, rest: string)
    requires line == SpeakerName(sp) + rest
    ensures HeaderSpeaker(line) == Some(sp)
    ensures |line| > 0 && !IsSpace(line[0]) && line[0] != '-'
  {
    assert line[..|SpeakerName(sp)|] == SpeakerName(sp);
    match sp
    case User =>
    case Agent =>
      assert line[0] == 'A';
    case System =>
      assert line[0] == 'S';
  }

  /** A line whose first `)` opens a `):` at `k` has its timestamp closed at `k`. */
  lemma FindClose(line: string, k: nat)
    requires k + 2 <= |line| && line[k] == ')' && line[k + 1] == ':'
    requires forall j :: 0 <= j < k ==> line[j] != ')'
    ensures Find(line, "):") == k
  {
    assert OccursAt(line, "):", k) by {
      assert line[k..k + 2] == [line[k], line[k + 1]];
    }
    forall j | 0 <= j < k
      ensures !OccursAt(line, "):", j)
    {
      assert line[j..j + 2][0] == line[j];
    }
  }

  /** The written header line up to the end of its timestamp has no `)`. */
  lemma HeaderLineClose(e: Entry, ts: string)
    requires Stamp(ts)
    ensures var k := |SpeakerName(e.speaker)| + 2 + |ts|;
      Find(HeaderLine(e, ts), "):") == k && HeaderLine(e, ts)[k + 2..] == [' '] + e.text
  {
    var name := SpeakerName(e.speaker);
    var line := HeaderLine(e, ts);
    var k := |name| + 2 + |ts|;
    assert line == name + " (" + ts + "): " + e.text;
    forall j | 0 <= j < k
      ensures line[j] != ')'
    {
      if j >= |name| + 2 {
        assert line[j] == ts[j - |name| - 2];
      } else if j >= |name| {
        assert line[j] == " ("[j - |name|];
      } else {
        assert line[j] == name[j];
      }
    }
    FindClose(line, k);
  }

  /** A written header line is its own `strip()` and is neither blank nor a rule. */
  lemma HeaderLineShape(e: Entry, ts: string)
    requires Writable(e.text)
    ensures var line := HeaderLine(e, ts);
      Strip(line) == line && !Skipped(line) && HeaderSpeaker(line) == Some(e.speaker)
  {
    var line := HeaderLine(e, ts);
    SpeakerNamed(line, e.speaker, " (" + ts + "): " + e.text);
    assert line[|line| - 1] == e.text[|e.text| - 1];
    StripOfStripped(line);
    if |line| >= 10 {
      assert line[..10][0] == line[0];
    }
  }

  /** A written header line reads back as its speaker and its text. */
  lemma HeaderRoundTrip(e: Entry, ts: string)
    requires Writable(e.text) && Stamp(ts)
    ensures ClassifyFixed(HeaderLine(e, ts)) == Header(e.speaker, e.text)
  {
    var line := HeaderLine(e, ts);
    HeaderLineShape(e, ts);
    ClassifyFixedHeader(line, e.speaker);
    HeaderLineTextFixed(e, ts);
  }

  /** A stripped header line is classified as a header of its speaker, with the corrected text. */
  lemma ClassifyFixedHeader(line: string, sp: Speaker)
    requires Strip(line) == line && !Skipped(line) && HeaderSpeaker(line) == Some(sp)
    ensures ClassifyFixed(line) == Header(sp, HeaderTextFixed(line))
  {
    assert Classify(line) == Header(sp, HeaderText(line));
  }

  /** The corrected cut gives back exactly the text a header line was written with. */
  lemma HeaderLineTextFixed(e: Entry, ts: string)
    requires Writable(e.text) && Stamp(ts)
    ensures HeaderTextFixed(HeaderLine(e, ts)) == e.text
  {
    var line := HeaderLine(e, ts);
    var k := |SpeakerName(e.speaker)| + 2 + |ts|;
    HeaderLineClose(e, ts);
    var rest := line[k + 2..];
    assert rest == [' '] + e.text;
    StripAfterSpace(' ', e.text);
    assert Strip(rest) == e.text;
    assert HeaderTextFixed(line) == Strip(rest);
  }

  /** The reader after the corrected loop has read a whole written log. */
  function ReadState(started: string, es: seq<Entry>): Reader {
    if |es| == 0 then Reader([], [Strip("Conversation started at " + started)], None)
    else Reader(es[..|es| - 1], [es[|es| - 1].text], Some(es[|es| - 1].speaker))
  }

  /** A line that starts with 'C' is neither blank, a rule nor a header. */
  lemma PlainStart(line: string)
    requires line != "" && line[0] == 'C'
    ensures !Skipped(line) && HeaderSpeaker(line).None?
  {
    if |line| >= 10 { assert line[..10][0] == 'C'; }
    if |line| >= 4 { assert line[..4][0] == 'C'; }
    if |line| >= 5 { assert line[..5][0] == 'C'; }
    if |line| >= 6 { assert line[..6][0] == 'C'; }
  }

  /** The start line is kept, stripped, as text without a speaker. */
  lemma StartLineKept(started: string)
    ensures ClassifyFixed("Conversation started at " + started)
      == Continuation(Strip("Conversation started at " + started))
  {
    var first := "Conversation started at " + started;
    assert first[0] == 'C';
    assert LeadingSpaces(first) == 0;
    PlainStart(Strip(first));
  }

  /** The rule and the blank line are passed over. */
  lemma RuleAndBlankIgnored()
    ensures ClassifyFixed(Dashes(80)) == Ignored && ClassifyFixed("") == Ignored
  {
    StripOfStripped(Dashes(80));
    assert Dashes(80)[..10] == Dashes(10);
    assert Strip("") == "";
  }

  /** The start line is the only line of the preamble the loop keeps. */
  lemma PreambleClassified(started: string)
    ensures Classified(Preamble(started), ClassifyFixed) == WrittenLines(started, [])
  {
    var first := "Conversation started at " + started;
    ClassifiedTriple(first, Dashes(80), "", ClassifyFixed);
    StartLineKept(started);
    RuleAndBlankIgnored();
  }

  /** The lines the corrected loop sees in a written log. */
  function WrittenLines(started: string, es: seq<Entry>): (ls: seq<Line>)
    ensures |ls| == 3 + 2 * |es|
  {
    if |es| == 0 then [Continuation(Strip("Conversation started at " + started)), Ignored, Ignored]
    else WrittenLines(started, es[..|es| - 1]) + [Header(es[|es| - 1].speaker, es[|es| - 1].text), Ignored]
  }

  /** Any classifier that reads the preamble, the headers and the blank lines as the corrected loop does. */
  lemma {:induction false} ClassifiedLog(started: string, es: seq<Entry>, stamps: seq<string>, classify: string -> Line)
    requires |stamps| == |es|
    requires Classified(Preamble(started), classify) == WrittenLines(started, [])
    requires classify("") == Ignored
    requires forall i :: 0 <= i < |es| ==> classify(HeaderLine(es[i], stamps[i])) == Header(es[i].speaker, es[i].text)
    ensures Classified(LogLines(started, es, stamps), classify) == WrittenLines(started, es)
  {
    if |es| > 0 {
      var n := |es| - 1;
      ClassifiedLog(started, es[..n], stamps[..n], classify);
      ClassifiedAppend(LogLines(started, es[..n], stamps[..n]), [HeaderLine(es[n], stamps[n]), ""], classify);
    }
  }

  /** A written entry and the blank line after it move the state on by that entry. */
  lemma EntryStep(started: string, es: seq<Entry>, e: Entry)
    requires e.text != ""
    ensures StepFixed(StepFixed(ReadState(started, es), Header(e.speaker, e.text)), Ignored) == ReadState(started, es + [e])
  {
    FlushState(started, es);
    assert (es + [e])[..|es|] == es;
  }

  /** Flushing that state gives every entry: the start line never had a speaker. */
  lemma FlushState(started: string, es: seq<Entry>)
    ensures Flush(ReadState(started, es)) == es
  {
    if |es| > 0 {
      assert es[..|es| - 1] + [es[|es| - 1]] == es;
    }
  }

  /** The corrected loop over those lines ends in the state that holds every entry. */
  lemma {:induction false} RunWritten(started: string, es: seq<Entry>)
    requires forall i :: 0 <= i < |es| ==> es[i].text != ""
    ensures Run(WrittenLines(started, es), StepFixed) == ReadState(started, es)
  {
    var ls := WrittenLines(started, es);
    if |es| == 0 {
      var c := Continuation(Strip("Conversation started at " + started));
      RunPair(c, Ignored, StepFixed);
      RunAppend([c, Ignored], Ignored, StepFixed);
      assert ls == [c, Ignored] + [Ignored];
    } else {
      var n := |es| - 1;
      var h := Header(es[n].speaker, es[n].text);
      var prev := WrittenLines(started, es[..n]);
      RunWritten(started, es[..n]);
      RunAppend(prev, h, StepFixed);
      RunAppend(prev + [h], Ignored, StepFixed);
      assert ls == prev + [h] + [Ignored];
      EntryStep(started, es[..n], es[n]);
      assert es[..n] + [es[n]] == es;
    }
  }

  /** Any classifier that reads the log's lines as the corrected loop does reads the entries back. */
  lemma ReadBack(started: string, es: seq<Entry>, stamps: seq<string>, classify: string -> Line)
    requires |stamps| == |es|
    requires Classified(Preamble(started), classify) == WrittenLines(started, [])
    requires classify("") == Ignored
    requires forall i :: 0 <= i < |es| ==> classify(HeaderLine(es[i], stamps[i])) == Header(es[i].speaker, es[i].text)
    requires forall i :: 0 <= i < |es| ==> es[i].text != ""
    ensures Run(Classified(LogLines(started, es, stamps), classify), StepFixed) == ReadState(started, es)
  {
    ClassifiedLog(started, es, stamps, classify);
    RunWritten(started, es);
  }

  /** Every written header line reads back under the corrected classifier. */
  lemma HeadersRoundTrip(es: seq<Entry>, stamps: seq<string>)
    requires |stamps| == |es|
    requires forall i :: 0 <= i < |es| ==> Writable(es[i].text) && Stamp(stamps[i])
    ensures forall i :: 0 <= i < |es| ==> ClassifyFixed(HeaderLine(es[i], stamps[i])) == Header(es[i].speaker, es[i].text)
  {
    forall i | 0 <= i < |es|
      ensures ClassifyFixed(HeaderLine(es[i], stamps[i])) == Header(es[i].speaker, es[i].text)
    {
      HeaderRoundTrip(es[i], stamps[i]);
    }
  }

  /** The corrected loop reads back exactly the entries that were written. */
  lemma LogRoundTrip(started: string, es: seq<Entry>, stamps: seq<string>)
    requires |stamps| == |es|
    requires forall i :: 0 <= i < |es| ==> Writable(es[i].text) && Stamp(stamps[i])
    ensures ReadLinesFixed(LogLines(started, es, stamps)) == ReadState(started, es)
    ensures Flush(ReadLinesFixed(LogLines(started, es, stamps))) == es
  {
    PreambleClassified(started);
    RuleAndBlankIgnored();
    HeadersRoundTrip(es, stamps);
    ReadBack(started, es, stamps, ClassifyFixed);
    FlushState(started, es);
  }

  /** `get_conversation_history` corrected: the newest `maxEntries` of the entries written. */
  lemma HistoryRoundTrip(started: string, es: seq<Entry>, stamps: seq<string>, maxEntries: int)
    requires |stamps| == |es|
    requires forall i :: 0 <= i < |es| ==> Writable(es[i].text) && Stamp(stamps[i])
    ensures GetConversationHistoryFixed(LogLines(started, es, stamps), maxEntries) == TailSlice(es, maxEntries)
  {
    LogRoundTrip(started, es, stamps);
  }
}
