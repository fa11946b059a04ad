/**
 The regular expressions of the extractors, each as a matcher at a fixed start
 position, and Python's `re.search` as the leftmost start at which the matcher
 succeeds.

 Every `(\d{1,2})` group in these patterns is followed by something a digit
 can never match (a dot, a colon, whitespace, a Cyrillic word, or the end of
 the pattern), so the greedy choice of up to two digits is the only one the
 regex engine can complete with: backtracking to one digit would put a digit
 where that next item has to match. Likewise a run of whitespace is followed
 by a digit or a letter, so it is always taken whole. The matchers below
 therefore take maximal runs and never backtrack.
 */
module Patterns {
  import opened Wrappers
  import opened Text

  datatype Pattern =
    | DayDotMonthDotYear       // (\d{1,2})\.(\d{1,2})\.(\d{4})
    | DayDotMonth              // (\d{1,2})\.(\d{1,2})
    | DayMonthName             // (\d{1,2})\s+(января|февраля|...|декабря)
    | HourColonMinute          // (\d{1,2}):(\d{2})
    | HourDotMinute            // (\d{1,2})\.(\d{2})
    | AtHour                   // в\s*(\d{1,2})
    | HourBefore(word: string) // (\d{1,2})\s*<word>
    | Literal(word: string)    // <word>

  /** A successful match: the span `s[start..end]` (`match.group()`) and the captured groups. */
  datatype Match = Match(start: nat, end: nat, groups: seq<string>)

  /** The genitive month names, in the order of the alternation in the source pattern. */
  const MonthNames: seq<string> := [
    "января", "февраля", "марта", "апреля", "мая", "июня",
    "июля", "августа", "сентября", "октября", "ноября", "декабря"
  ]

  /** The number of consecutive digits at `s[i..]`, at most `max`. */
  function DigitRun(s: string, i: nat, max: nat): (n: nat)
    requires i <= |s|
    ensures n <= max && i + n <= |s|
    ensures AllDigits(s[i..i + n])
    ensures n < max && i + n < |s| ==> !IsDigit(s[i + n])
    decreases max
  {
    if max == 0 || i == |s| || !IsDigit(s[i]) then 0
    else
      var n := DigitRun(s, i + 1, max - 1);
      assert s[i..i + 1 + n] == [s[i]] + s[i + 1..i + 1 + n];
      1 + n
  }

  /** The number of consecutive whitespace characters at `s[i..]`. */
  function SpaceRun(s: string, i: nat): (n: nat)
    requires i <= |s|
    ensures i + n <= |s|
    ensures forall j :: i <= j < i + n ==> IsSpace(s[j])
    ensures i + n < |s| ==> !IsSpace(s[i + n])
    decreases |s| - i
  {
    if i == |s| || !IsSpace(s[i]) then 0 else 1 + SpaceRun(s, i + 1)
  }

  /** The first month name, in alternation order, that `s[k..]` starts with. */
  function MonthAt(s: string, k: nat): (r: Option<nat>)
    requires k <= |s|
    ensures r.Some? ==> r.value < 12 && StartsWith(s[k..], MonthNames[r.value])
    ensures r.None? ==> forall j :: 0 <= j < 12 ==> !StartsWith(s[k..], MonthNames[j])
  {
    FirstPrefix(MonthNames, s[k..], 0)
  }

  function FirstPrefix(words: seq<string>, s: string, from: nat): (r: Option<nat>)
    requires from <= |words|
    ensures r.Some? ==> from <= r.value < |words| && StartsWith(s, words[r.value])
    ensures r.None? ==> forall j :: from <= j < |words| ==> !StartsWith(s, words[j])
    decreases |words| - from
  {
    if from == |words| then None
    else if StartsWith(s, words[from]) then Some(from)
    else FirstPrefix(words, s, from + 1)
  }

  /** A one- or two-digit captured group. */
  predicate ShortNumber(g: string) {
    1 <= |g| <= 2 && AllDigits(g)
  }

  /** The shape of the groups each pattern captures. */
  predicate GroupsFit(p: Pattern, g: seq<string>) {
    match p
    case DayDotMonthDotYear => |g| == 3 && ShortNumber(g[0]) && ShortNumber(g[1]) && |g[2]| == 4 && AllDigits(g[2])
    case DayDotMonth => |g| == 2 && ShortNumber(g[0]) && ShortNumber(g[1])
    case DayMonthName => |g| == 2 && ShortNumber(g[0]) && g[1] in MonthNames
    case HourColonMinute => |g| == 2 && ShortNumber(g[0]) && |g[1]| == 2 && AllDigits(g[1])
    case HourDotMinute => |g| == 2 && ShortNumber(g[0]) && |g[1]| == 2 && AllDigits(g[1])
    case AtHour => |g| == 1 && ShortNumber(g[0])
    case HourBefore(_) => |g| == 1 && ShortNumber(g[0])
    case Literal(_) => |g| == 0
  }

  /** The matched text of the patterns whose matches have a fixed layout. */
  predicate SpanFits(p: Pattern, s: string, m: Match)
    requires m.start <= m.end <= |s|
  {
    var span := s[m.start..m.end];
    match p
    case DayDotMonthDotYear => |m.groups| == 3 && span == m.groups[0] + "." + m.groups[1] + "." + m.groups[2]
    case DayDotMonth => |m.groups| == 2 && span == m.groups[0] + "." + m.groups[1]
    case HourColonMinute => |m.groups| == 2 && span == m.groups[0] + ":" + m.groups[1]
    case HourDotMinute => |m.groups| == 2 && span == m.groups[0] + "." + m.groups[1]
    case Literal(w) => span == w
    case _ => true
  }

  /** A span with dots at `j` and `k` is its three pieces joined by those dots. */
  lemma DottedSplit(s: string, i: nat, j: nat, k: nat, e: nat)
    requires i <= j < k < e <= |s| && s[j] == '.' && s[k] == '.'
    ensures s[i..e] == s[i..j] + "." + s[j + 1..k] + "." + s[k + 1..e]
  {
    assert s[i..e] == s[i..j] + s[j..e];
    assert s[j..e] == "." + s[j + 1..e];
    assert s[j + 1..e] == s[j + 1..k] + s[k..e];
    assert s[k..e] == "." + s[k + 1..e];
  }

  /** `(\d{1,2})\.(\d{1,2})\.(\d{4})` at `i`. */
  function MatchDayMonthYear(s: string, i: nat): (r: Option<Match>)
    requires i <= |s|
    ensures r.Some? ==> r.value.start == i && i <= r.value.end <= |s|
    ensures r.Some? ==> GroupsFit(DayDotMonthDotYear, r.value.groups) && SpanFits(DayDotMonthDotYear, s, r.value)
  {
    var a := DigitRun(s, i, 2);
    var j := i + a;
    if a == 0 || j == |s| || s[j] != '.' then None
    else
      var b := DigitRun(s, j + 1, 2);
      var k := j + 1 + b;
      if b == 0 || k + 5 > |s| || s[k] != '.' || !AllDigits(s[k + 1..k + 5]) then None
      else
        DottedSplit(s, i, j, k, k + 5);
        Some(Match(i, k + 5, [s[i..j], s[j + 1..k], s[k + 1..k + 5]]))
  }

  /** `(\d{1,2})\.(\d{1,2})` at `i`. */
  function MatchDayMonth(s: string, i: nat): (r: Option<Match>)
    requires i <= |s|
    ensures r.Some? ==> r.value.start == i && i <= r.value.end <= |s|
    ensures r.Some? ==> GroupsFit(DayDotMonth, r.value.groups) && SpanFits(DayDotMonth, s, r.value)
  {
    var a := DigitRun(s, i, 2);
    var j := i + a;
    if a == 0 || j == |s| || s[j] != '.' then None
    else
      var b := DigitRun(s, j + 1, 2);
      if b == 0 then None
      else
        assert s[i..j + 1 + b] == s[i..j] + "." + s[j + 1..j + 1 + b];
        Some(Match(i, j + 1 + b, [s[i..j], s[j + 1..j + 1 + b]]))
  }

  /** `(\d{1,2})\s+(января|...|декабря)` at `i`. */
  function MatchDayMonthName(s: string, i: nat): (r: Option<Match>)
    requires i <= |s|
    ensures r.Some? ==> r.value.start == i && i <= r.value.end <= |s|
    ensures r.Some? ==> GroupsFit(DayMonthName, r.value.groups)
  {
    var a := DigitRun(s, i, 2);
    var j := i + a;
    var k := j + SpaceRun(s, j);
    if a == 0 || k == j then None
    else
      match MonthAt(s, k)
      case None => None
      case Some(n) => Some(Match(i, k + |MonthNames[n]|, [s[i..j], MonthNames[n]]))
  }

  /** `(\d{1,2})<sep>(\d{2})` at `i`, for the separators `:` and `.`. */
  function MatchHourMinute(s: string, i: nat, sep: char): (r: Option<Match>)
    requires i <= |s|
    ensures r.Some? ==> r.value.start == i && i <= r.value.end <= |s|
    ensures r.Some? ==> |r.value.groups| == 2 && ShortNumber(r.value.groups[0])
    ensures r.Some? ==> |r.value.groups[1]| == 2 && AllDigits(r.value.groups[1])
    ensures r.Some? ==> s[i..r.value.end] == r.value.groups[0] + [sep] + r.value.groups[1]
  {
    var a := DigitRun(s, i, 2);
    var j := i + a;
    if a == 0 || j + 3 > |s| || s[j] != sep || !AllDigits(s[j + 1..j + 3]) then None
    else
      assert s[i..j + 3] == s[i..j] + [sep] + s[j + 1..j + 3];
      Some(Match(i, j + 3, [s[i..j], s[j + 1..j + 3]]))
  }

  /** `в\s*(\d{1,2})` at `i`. */
  function MatchAtHour(s: string, i: nat): (r: Option<Match>)
    requires i <= |s|
    ensures r.Some? ==> r.value.start == i && i <= r.value.end <= |s|
    ensures r.Some? ==> GroupsFit(AtHour, r.value.groups)
  {
    if i == |s| || s[i] != 'в' then None
    else
      var k := i + 1 + SpaceRun(s, i + 1);
      var a := DigitRun(s, k, 2);
      if a == 0 then None else Some(Match(i, k + a, [s[k..k + a]]))
  }

  /** `(\d{1,2})\s*<w>` at `i`. */
  function MatchHourBefore(s: string, i: nat, w: string): (r: Option<Match>)
    requires i <= |s|
    ensures r.Some? ==> r.value.start == i && i <= r.value.end <= |s|
    ensures r.Some? ==> GroupsFit(HourBefore(w), r.value.groups)
  {
    var a := DigitRun(s, i, 2);
    var j := i + a;
    var k := j + SpaceRun(s, j);
    if a == 0 || !StartsWith(s[k..], w) then None
    else Some(Match(i, k + |w|, [s[i..j]]))
  }

  /** The literal `w` at `i`. */
  function MatchLiteral(s: string, i: nat, w: string): (r: Option<Match>)
    requires i <= |s|
    ensures r.Some? ==> r.value.start == i && r.value.end == i + |w| <= |s|
    ensures r.Some? ==> r.value.groups == [] && s[i..r.value.end] == w
    ensures r.None? ==> !StartsWith(s[i..], w)
  {
    if !StartsWith(s[i..], w) then None
    else
      assert s[i..i + |w|] == s[i..][..|w|];
      Some(Match(i, i + |w|, []))
  }

  /** Does pattern `p` match `s` starting exactly at index `i`? */
  function MatchAt(p: Pattern, s: string, i: nat): (r: Option<Match>)
    requires i <= |s|
    ensures r.Some? ==> r.value.start == i && i <= r.value.end <= |s|
    ensures r.Some? ==> GroupsFit(p, r.value.groups) && SpanFits(p, s, r.value)
  {
    match p
    case DayDotMonthDotYear => MatchDayMonthYear(s, i)
    case DayDotMonth => MatchDayMonth(s, i)
    case DayMonthName => MatchDayMonthName(s, i)
    case HourColonMinute => MatchHourMinute(s, i, ':')
    case HourDotMinute => MatchHourMinute(s, i, '.')
    case AtHour => MatchAtHour(s, i)
    case HourBefore(w) => MatchHourBefore(s, i, w)
    case Literal(w) => MatchLiteral(s, i, w)
  }

  function SearchFrom(p: Pattern, s: string, from: nat): (r: Option<Match>)
    requires from <= |s|
    ensures r.Some? ==> from <= r.value.start <= |s| && MatchAt(p, s, r.value.start) == Some(r.value)
    ensures r.Some? ==> forall j :: from <= j < r.value.start ==> MatchAt(p, s, j).None?
    ensures r.None? ==> forall j :: from <= j <= |s| ==> MatchAt(p, s, j).None?
    decreases |s| - from
  {
    match MatchAt(p, s, from)
    case Some(m) => Some(m)
    case None => if from == |s| then None else SearchFrom(p, s, from + 1)
  }

  /** Python's `re.search(p, s)`: the match at the leftmost start position where one exists. */
  function Search(p: Pattern, s: string): (r: Option<Match>)
    ensures r.Some? ==> r.value.start <= |s| && MatchAt(p, s, r.value.start) == Some(r.value)
    ensures r.Some? ==> forall j :: 0 <= j < r.value.start ==> MatchAt(p, s, j).None?
    ensures r.None? ==> forall j :: 0 <= j <= |s| ==> MatchAt(p, s, j).None?
  {
    SearchFrom(p, s, 0)
  }

  /**
   Patterns tried in list order, `re.search` on each: the index of the first
   pattern that matches anywhere, with its leftmost match.
   */
  function FirstSearch(ps: seq<Pattern>, s: string): (r: Option<(nat, Match)>)
    ensures r.Some? ==> r.value.0 < |ps| && Search(ps[r.value.0], s) == Some(r.value.1)
    ensures r.Some? ==> forall j :: 0 <= j < r.value.0 ==> Search(ps[j], s).None?
    ensures r.None? <==> forall j :: 0 <= j < |ps| ==> Search(ps[j], s).None?
  {
    FirstSearchFrom(ps, s, 0)
  }

  function FirstSearchFrom(ps: seq<Pattern>, s: string, from: nat): (r: Option<(nat, Match)>)
    requires from <= |ps|
    ensures r.Some? ==> from <= r.value.0 < |ps| && Search(ps[r.value.0], s) == Some(r.value.1)
    ensures r.Some? ==> forall j :: from <= j < r.value.0 ==> Search(ps[j], s).None?
    ensures r.None? <==> forall j :: from <= j < |ps| ==> Search(ps[j], s).None?
    decreases |ps| - from
  {
    if from == |ps| then None
    else match Search(ps[from], s)
      case Some(m) => Some((from, m))
      case None => FirstSearchFrom(ps, s, from + 1)
  }

  /** The first pattern with a hit is the one at index `k` when all before it miss. */
  lemma FirstSearchAt(ps: seq<Pattern>, s: string, k: nat)
    requires k < |ps| && Search(ps[k], s).Some?
    requires forall j :: 0 <= j < k ==> Search(ps[j], s).None?
    ensures FirstSearch(ps, s) == Some((k, Search(ps[k], s).value))
  {
  }
}
