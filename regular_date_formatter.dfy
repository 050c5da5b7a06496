/**
 * The single-pass formatter of src/date/regularDateFormatter.ts.
 *
 * The scan walks the format string from left to right. At each position
 * it tries the custom keys (longest first, only when the characters on
 * both sides are not `[a-zA-Z0-9]`), then the built-in tokens of four,
 * three, two and one characters, and otherwise copies the character.
 * `Pieces` is that scan as a function, `RegularDateFormat` is the loop.
 */
module RegularDateFormatter {
  import opened Wrappers
  import opened Text
  import opened DateTypes

  /**
   * The built-in tokens. `TokenText` is the text each one matches: one
   * letter repeated one to four times. `Token4`, `Token3`, `Token2` and
   * `Token1` are the `switch`es on the four, three, two and one
   * characters at the scan position, written as a choice on the letter
   * that a run of equal characters repeats.
   */
  datatype Token =
    | YearPadded4 | MonthLong
    | YearFull | MonthShort | DayOfYearPadded | HoursPadded3 | Hours12Padded3
    | MinutesPadded3 | SecondsPadded3 | MillisPadded
    | YearLast2 | MonthPadded | DayPadded | HoursPadded | Hours12Padded
    | MinutesPadded | SecondsPadded | WeekPadded | WeekdayText
    | YearPlain | MonthPlain | DayPlain | HoursPlain | Hours12Plain | MinutesPlain
    | SecondsPlain | MillisPlain | WeekPlain | WeekdayNumber | QuarterPlain
    | UpperAmPm | LowerAmPm | UnixSeconds | UnixMillis

  /** The letter a token repeats. */
  function TokenLetter(t: Token): char
  {
    match t
    case YearPadded4 => 'Y'
    case MonthLong => 'M'
    case YearFull => 'Y'
    case MonthShort => 'M'
    case DayOfYearPadded => 'D'
    case HoursPadded3 => 'H'
    case Hours12Padded3 => 'h'
    case MinutesPadded3 => 'm'
    case SecondsPadded3 => 's'
    case MillisPadded => 'S'
    case YearLast2 => 'Y'
    case MonthPadded => 'M'
    case DayPadded => 'D'
    case HoursPadded => 'H'
    case Hours12Padded => 'h'
    case MinutesPadded => 'm'
    case SecondsPadded => 's'
    case WeekPadded => 'W'
    case WeekdayText => 'd'
    case YearPlain => 'Y'
    case MonthPlain => 'M'
    case DayPlain => 'D'
    case HoursPlain => 'H'
    case Hours12Plain => 'h'
    case MinutesPlain => 'm'
    case SecondsPlain => 's'
    case MillisPlain => 'S'
    case WeekPlain => 'W'
    case WeekdayNumber => 'd'
    case QuarterPlain => 'Q'
    case UpperAmPm => 'A'
    case LowerAmPm => 'a'
    case UnixSeconds => 'X'
    case UnixMillis => 'x'
  }

  function TokenLength(t: Token): (n: nat)
    ensures 1 <= n <= 4
  {
    match t
    case YearPadded4 | MonthLong => 4
    case YearFull | MonthShort | DayOfYearPadded | HoursPadded3 | Hours12Padded3 | MinutesPadded3 | SecondsPadded3 | MillisPadded => 3
    case YearLast2 | MonthPadded | DayPadded | HoursPadded | Hours12Padded | MinutesPadded | SecondsPadded | WeekPadded | WeekdayText => 2
    case _ => 1
  }

  /** The text a token matches: its letter, one to four times. */
  function TokenText(t: Token): (s: string)
    ensures |s| == TokenLength(t) && forall k :: 0 <= k < |s| ==> s[k] == TokenLetter(t)
  {
    Repeat(TokenLetter(t), TokenLength(t))
  }

  /** Every token is one to four ASCII letters. */
  lemma TokenTextLetters(t: Token)
    ensures 1 <= |TokenText(t)| <= 4
    ensures forall k :: 0 <= k < |TokenText(t)| ==> IsAsciiLetter(TokenText(t)[k])
  {
  }

  function Token4(c: char): (r: Option<Token>)
    ensures r.Some? ==> TokenLength(r.value) == 4 && TokenLetter(r.value) == c
  {
        match c
    case 'Y' => Some(YearPadded4)
    case 'M' => Some(MonthLong)
    case _ => None
  }

  function Token3(c: char): (r: Option<Token>)
    ensures r.Some? ==> TokenLength(r.value) == 3 && TokenLetter(r.value) == c
  {
        match c
    case 'Y' => Some(YearFull)
    case 'M' => Some(MonthShort)
    case 'D' => Some(DayOfYearPadded)
    case 'H' => Some(HoursPadded3)
    case 'h' => Some(Hours12Padded3)
    case 'm' => Some(MinutesPadded3)
    case 's' => Some(SecondsPadded3)
    case 'S' => Some(MillisPadded)
    case _ => None
  }

  function Token2(c: char): (r: Option<Token>)
    ensures r.Some? ==> TokenLength(r.value) == 2 && TokenLetter(r.value) == c
  {
        match c
    case 'Y' => Some(YearLast2)
    case 'M' => Some(MonthPadded)
    case 'D' => Some(DayPadded)
    case 'H' => Some(HoursPadded)
    case 'h' => Some(Hours12Padded)
    case 'm' => Some(MinutesPadded)
    case 's' => Some(SecondsPadded)
    case 'W' => Some(WeekPadded)
    case 'd' => Some(WeekdayText)
    case _ => None
  }

  function Token1(c: char): (r: Option<Token>)
    ensures r.Some? ==> TokenLength(r.value) == 1 && TokenLetter(r.value) == c
  {
    match c
    case 'Y' => Some(YearPlain)
    case 'M' => Some(MonthPlain)
    case 'D' => Some(DayPlain)
    case 'H' => Some(HoursPlain)
    case 'h' => Some(Hours12Plain)
    case 'm' => Some(MinutesPlain)
    case 's' => Some(SecondsPlain)
    case 'S' => Some(MillisPlain)
    case 'W' => Some(WeekPlain)
    case 'd' => Some(WeekdayNumber)
    case 'Q' => Some(QuarterPlain)
    case 'A' => Some(UpperAmPm)
    case 'a' => Some(LowerAmPm)
    case 'X' => Some(UnixSeconds)
    case 'x' => Some(UnixMillis)
    case _ => None
  }

  /** The `switch` on `n` characters that all equal `c`. */
  function Switch(n: nat, c: char): (r: Option<Token>)
    requires 1 <= n <= 4
    ensures r.Some? ==> TokenLength(r.value) == n && TokenLetter(r.value) == c
  {
    if n == 4 then Token4(c) else if n == 3 then Token3(c) else if n == 2 then Token2(c) else Token1(c)
  }

  /** The `switch` of a token's length recognises the token from its letter. */
  lemma TokenLookupComplete(t: Token)
    ensures Switch(TokenLength(t), TokenLetter(t)) == Some(t)
  {
  }

  /** The values the built-in tokens render, fixed for one call. */
  datatype Fields = Fields(
    year: int, month: int, day: int, hours: int, hours12: int,
    minutes: int, seconds: int, milliseconds: int, weekday: int,
    quarter: int, dayOfYear: int, weekNumber: int,
    ampm: string, ampmLower: string,
    monthLong: string, monthShort: string, weekdayText: string,
    stampSeconds: int, stampMs: int)

  /** `hours < 12 ? 'AM' : 'PM'`. */
  function AmPm(h: Hour): (r: string)
    ensures r == "AM" <==> h < 12
    ensures r == "AM" || r == "PM"
  {
    if h < 12 then "AM" else "PM"
  }

  /** `ampm.toLowerCase()`. */
  function AmPmLower(h: Hour): (r: string)
    ensures r == "am" <==> h < 12
    ensures r == "am" || r == "pm"
  {
    if h < 12 then "am" else "pm"
  }

  /** `Math.floor(ms / 1000)`: Dafny's division by a positive divisor rounds down. */
  function FloorSeconds(ms: int): (s: int)
    ensures s * 1000 <= ms < s * 1000 + 1000
  {
    ms / 1000
  }

  /**
   * `getLocalizedWeekday`: an array override wins for every language; a
   * record override applies when it has the language; otherwise the
   * language's built-in table, else the `zh` table.
   */
  function LocalizedWeekday(w: WeekdayIndex, opts: FormatOptions): (r: string)
    ensures opts.weekdayNames.Some? && opts.weekdayNames.value.NamesArray? ==>
              r == opts.weekdayNames.value.names[w]
    ensures opts.weekdayNames.Some? && opts.weekdayNames.value.NamesRecord? &&
            Lang(MergedLocale(opts)) in opts.weekdayNames.value.byLang ==>
              r == opts.weekdayNames.value.byLang[Lang(MergedLocale(opts))][w]
    ensures (opts.weekdayNames.None? ||
             (opts.weekdayNames.value.NamesRecord? &&
              Lang(MergedLocale(opts)) !in opts.weekdayNames.value.byLang)) ==>
              r == (if Lang(MergedLocale(opts)) in WeekdayMap
                    then WeekdayMap[Lang(MergedLocale(opts))][w] else ZhWeekdays[w])
  {
    var lang := Lang(MergedLocale(opts));
    BuiltinWeekdayNonEmpty(lang, w);
    match opts.weekdayNames
    case Some(NamesArray(names)) => names[w]
    case Some(NamesRecord(byLang)) =>
      if lang in byLang then byLang[lang][w] else Or(BuiltinWeekday(lang, w), ZhWeekdays[w])
    case None => Or(BuiltinWeekday(lang, w), ZhWeekdays[w])
  }

  /** With no options the weekday is the Chinese name. */
  lemma DefaultWeekdayIsChinese(w: WeekdayIndex)
    ensures LocalizedWeekday(w, NoOptions) == ZhWeekdays[w]
  {
    assert Text.Split(DefaultLocale, '-')[0] == "zh";
  }

  /** The field values of regularDateFormatter: timestamps from `Date.UTC` of the local fields. */
  function RegularFields(d: DateParts, opts: FormatOptions): Fields
  {
    Fields(
      d.year, d.month, d.day, d.hours, Hours12(d.hours),
      d.minutes, d.seconds, d.milliseconds, d.weekday,
      Quarter(d.month), d.dayOfYear, d.weekNumber,
      AmPm(d.hours), AmPmLower(d.hours),
      d.monthName(NameLocale(opts), true), d.monthName(NameLocale(opts), false),
      LocalizedWeekday(d.weekday, opts),
      FloorSeconds(d.localAsUtcMs), d.localAsUtcMs)
  }

  /** `n.toString().padStart(width, '0')`. */
  function Pad(n: int, width: nat): string
  {
    PadStart(IntToString(n), width, '0')
  }

  /** The text a built-in token stands for. */
  function RenderToken(t: Token, f: Fields): string
  {
    match t
    case YearPadded4 => Pad(f.year, 4)
    case MonthLong => f.monthLong
    case YearFull => IntToString(f.year)
    case MonthShort => f.monthShort
    case DayOfYearPadded => Pad(f.dayOfYear, 3)
    case HoursPadded3 => Pad(f.hours, 3)
    case Hours12Padded3 => Pad(f.hours12, 3)
    case MinutesPadded3 => Pad(f.minutes, 3)
    case SecondsPadded3 => Pad(f.seconds, 3)
    case MillisPadded => Pad(f.milliseconds, 3)
    case YearLast2 => LastN(IntToString(f.year), 2)
    case MonthPadded => Pad(f.month, 2)
    case DayPadded => Pad(f.day, 2)
    case HoursPadded => Pad(f.hours, 2)
    case Hours12Padded => Pad(f.hours12, 2)
    case MinutesPadded => Pad(f.minutes, 2)
    case SecondsPadded => Pad(f.seconds, 2)
    case WeekPadded => Pad(f.weekNumber, 2)
    case WeekdayText => f.weekdayText
    case YearPlain => IntToString(f.year)
    case MonthPlain => IntToString(f.month)
    case DayPlain => IntToString(f.day)
    case HoursPlain => IntToString(f.hours)
    case Hours12Plain => IntToString(f.hours12)
    case MinutesPlain => IntToString(f.minutes)
    case SecondsPlain => IntToString(f.seconds)
    case MillisPlain => IntToString(f.milliseconds)
    case WeekPlain => IntToString(f.weekNumber)
    case WeekdayNumber => IntToString(f.weekday)
    case QuarterPlain => IntToString(f.quarter)
    case UpperAmPm => f.ampm
    case LowerAmPm => f.ampmLower
    case UnixSeconds => IntToString(f.stampSeconds)
    case UnixMillis => IntToString(f.stampMs)
  }

  /** The field a padded numeric token shows, and the width it pads to. */
  function PaddedField(t: Token, f: Fields): Option<(int, nat)>
  {
    match t
    case YearPadded4 => Some((f.year, 4))
    case DayOfYearPadded => Some((f.dayOfYear, 3))
    case HoursPadded3 => Some((f.hours, 3))
    case Hours12Padded3 => Some((f.hours12, 3))
    case MinutesPadded3 => Some((f.minutes, 3))
    case SecondsPadded3 => Some((f.seconds, 3))
    case MillisPadded => Some((f.milliseconds, 3))
    case MonthPadded => Some((f.month, 2))
    case DayPadded => Some((f.day, 2))
    case HoursPadded => Some((f.hours, 2))
    case Hours12Padded => Some((f.hours12, 2))
    case MinutesPadded => Some((f.minutes, 2))
    case SecondsPadded => Some((f.seconds, 2))
    case WeekPadded => Some((f.weekNumber, 2))
    case _ => None
  }

  /**
   * A padded token renders at least as many characters as the token has,
   * and for a non-negative field its digits read back as the field.
   */
  lemma PaddingWidths(t: Token, f: Fields)
    requires PaddedField(t, f).Some?
    ensures PaddedField(t, f).value.1 == TokenLength(t)
    ensures |RenderToken(t, f)| >= TokenLength(t)
    ensures PaddedField(t, f).value.0 >= 0 ==>
              AllDigits(RenderToken(t, f)) && DecimalValue(RenderToken(t, f)) == PaddedField(t, f).value.0
  {
    var (n, w) := PaddedField(t, f).value;
    assert RenderToken(t, f) == Pad(n, w);
    if n >= 0 {
      PaddedRoundTrip(n, w);
    }
  }

  /** `YY` renders the last two characters of the year's text. */
  lemma TwoDigitYear(f: Fields)
    ensures var y := IntToString(f.year);
            RenderToken(YearLast2, f) == y[|y| - (if |y| < 2 then |y| else 2)..]
  {
  }

  /** The built-in tokens rendered from one set of field values. */
  function Renderer(f: Fields): Token -> string
  {
    t => RenderToken(t, f)
  }

  /** One step of the scan: what the format string holds at position `i`. */
  datatype Piece =
    | Custom(key: CustomKey, text: string)
    | Builtin(token: Token)
    | Literal(c: char)

  /** The part of the format string a piece stands for. */
  function SourceOf(p: Piece): string
  {
    match p
    case Custom(k, _) => k
    case Builtin(t) => TokenText(t)
    case Literal(c) => [c]
  }

  function Width(p: Piece): (n: nat)
    ensures n >= 1
  {
    match p
    case Custom(k, _) => |k|
    case Builtin(t) => TokenLength(t)
    case Literal(_) => 1
  }

  function RenderPiece(p: Piece, render: Token -> string): string
  {
    match p
    case Custom(_, text) => text
    case Builtin(t) => render(t)
    case Literal(c) => [c]
  }

  /** A custom key is used at `i` only between non-alphanumeric characters. */
  predicate CustomFits(fmt: string, key: string, i: int)
  {
    MatchesAt(fmt, key, i) && !AlnumAt(fmt, i - 1) && !AlnumAt(fmt, i + |key|)
  }

  /** The first custom key (in the given order, from `from`) that fits at `i`. */
  function FirstCustom(fmt: string, cs: seq<(CustomKey, string)>, i: int, from: nat): (r: Option<nat>)
    requires from <= |cs|
    ensures r.Some? ==> from <= r.value < |cs|
    decreases |cs| - from
  {
    if from == |cs| then None
    else if CustomFits(fmt, cs[from].0, i) then Some(from)
    else FirstCustom(fmt, cs, i, from + 1)
  }

  /** `FirstCustom` finds a fitting key, and no key before it fits. */
  lemma {:induction false} FirstCustomSpec(fmt: string, cs: seq<(CustomKey, string)>, i: int, from: nat)
    requires from <= |cs|
    ensures var r := FirstCustom(fmt, cs, i, from);
            (r.Some? ==> CustomFits(fmt, cs[r.value].0, i)) &&
            forall j :: from <= j < |cs| && (r.None? || j < r.value) ==> !CustomFits(fmt, cs[j].0, i)
    decreases |cs| - from
  {
    if from < |cs| && !CustomFits(fmt, cs[from].0, i) {
      FirstCustomSpec(fmt, cs, i, from + 1);
    }
  }

  /** The `n` characters at `i` all equal the one at `i`. */
  predicate Run(fmt: string, i: nat, n: nat)
    decreases n
  {
    i + n <= |fmt| && (n <= 1 || (fmt[i + n - 1] == fmt[i] && Run(fmt, i, n - 1)))
  }

  /** A run is the character at `i` repeated. */
  lemma RunText(fmt: string, i: nat, n: nat)
    requires 1 <= n && i + n <= |fmt|
    ensures Run(fmt, i, n) <==> fmt[i..i + n] == Repeat(fmt[i], n)
  {
    RunChars(fmt, i, n);
    if Run(fmt, i, n) {
      var s := fmt[i..i + n];
      assert forall k :: 0 <= k < n ==> s[k] == fmt[i + k];
    } else if fmt[i..i + n] == Repeat(fmt[i], n) {
      assert forall k :: i <= k < i + n ==> fmt[k] == fmt[i..i + n][k - i];
    }
  }

  lemma {:induction false} RunChars(fmt: string, i: nat, n: nat)
    requires 1 <= n && i + n <= |fmt|
    ensures Run(fmt, i, n) <==> forall k :: i <= k < i + n ==> fmt[k] == fmt[i]
    decreases n
  {
    if n > 1 {
      RunChars(fmt, i, n - 1);
    }
  }

  /** The `switch`es on `n`, `n - 1`, ..., `1` characters at `i`, in that order. */
  function TokenFrom(fmt: string, i: nat, n: nat): (r: Option<Token>)
    requires i < |fmt| && n <= 4
    ensures r.Some? ==> TokenLength(r.value) <= n && i + TokenLength(r.value) <= |fmt| && TokenLetter(r.value) == fmt[i]
    decreases n
  {
    if n == 0 then None
    else if Run(fmt, i, n) && Switch(n, fmt[i]).Some? then Switch(n, fmt[i])
    else TokenFrom(fmt, i, n - 1)
  }

  /** The built-in token at `i`: four characters first, then three, two and one. */
  function TokenAt(fmt: string, i: nat): (r: Option<Token>)
    requires i < |fmt|
  {
    TokenFrom(fmt, i, 4)
  }

  /** The token found at `i` is the text there. */
  lemma {:induction false} TokenFromText(fmt: string, i: nat, n: nat)
    requires i < |fmt| && n <= 4
    ensures var r := TokenFrom(fmt, i, n);
            r.Some? ==> fmt[i..i + TokenLength(r.value)] == TokenText(r.value)
    decreases n
  {
    if n > 0 {
      if Run(fmt, i, n) && Switch(n, fmt[i]).Some? {
        RunText(fmt, i, n);
      } else {
        TokenFromText(fmt, i, n - 1);
      }
    }
  }

  /**
   * The token chosen at `i` is the longest built-in token that occurs
   * there, and among tokens of that length the one that occurs.
   */
  lemma TokenAtLongest(fmt: string, i: nat, t: Token)
    requires i < |fmt| && OccursAt(fmt, TokenText(t), i)
    ensures TokenAt(fmt, i).Some?
    ensures TokenLength(t) <= TokenLength(TokenAt(fmt, i).value)
    ensures TokenLength(t) == TokenLength(TokenAt(fmt, i).value) ==> TokenAt(fmt, i) == Some(t)
  {
    TokenLookupComplete(t);
    var n := TokenLength(t);
    assert fmt[i..i + n] == TokenText(t);
    assert fmt[i] == TokenText(t)[0];
    RunText(fmt, i, n);
    TokenFromReaches(fmt, i, 4, n);
  }

  /** Searching from `m` down finds a token at least as long as a length `n <= m` that answers. */
  lemma {:induction false} TokenFromReaches(fmt: string, i: nat, m: nat, n: nat)
    requires i < |fmt| && 1 <= n <= m <= 4 && Run(fmt, i, n) && Switch(n, fmt[i]).Some?
    ensures TokenFrom(fmt, i, m).Some?
    ensures n <= TokenLength(TokenFrom(fmt, i, m).value)
    ensures n == TokenLength(TokenFrom(fmt, i, m).value) ==> TokenFrom(fmt, i, m) == Switch(n, fmt[i])
    decreases m
  {
    if !(Run(fmt, i, m) && Switch(m, fmt[i]).Some?) {
      TokenFromReaches(fmt, i, m - 1, n);
    }
  }

  /**
   * The piece the scan takes at `i`: a fitting custom key (the first in
   * the given order) before any built-in token, a built-in token before
   * a literal character.
   */
  function PieceAt(fmt: string, cs: seq<(CustomKey, string)>, i: nat): (p: Piece)
    requires i < |fmt|
    ensures i + Width(p) <= |fmt|
    ensures p.Literal? ==> p.c == fmt[i]
  {
    match FirstCustom(fmt, cs, i, 0)
    case Some(j) => FirstCustomSpec(fmt, cs, i, 0); Custom(cs[j].0, cs[j].1)
    case None =>
      match TokenAt(fmt, i)
      case Some(t) => Builtin(t)
      case None => Literal(fmt[i])
  }

  /** Each piece stands for exactly the characters it covers. */
  lemma PieceAtSource(fmt: string, cs: seq<(CustomKey, string)>, i: nat)
    requires i < |fmt|
    ensures var p := PieceAt(fmt, cs, i);
            |SourceOf(p)| == Width(p) && fmt[i..i + Width(p)] == SourceOf(p)
  {
    var p := PieceAt(fmt, cs, i);
    FirstCustomSpec(fmt, cs, i, 0);
    TokenFromText(fmt, i, 4);
    if p.Custom? {
      MatchesAtOccurs(fmt, p.key, i);
    }
    if p.Literal? {
      assert fmt[i..i + 1] == [fmt[i]];
    }
  }

  /** The priority of the three kinds of piece. */
  lemma PieceAtRules(fmt: string, cs: seq<(CustomKey, string)>, i: nat)
    requires i < |fmt|
    ensures var p := PieceAt(fmt, cs, i);
            (p.Custom? <==> exists j :: 0 <= j < |cs| && CustomFits(fmt, cs[j].0, i)) &&
            (p.Custom? ==> exists j :: 0 <= j < |cs| && cs[j] == (p.key, p.text) &&
                                       forall k :: 0 <= k < j ==> !CustomFits(fmt, cs[k].0, i)) &&
            (p.Builtin? ==> TokenAt(fmt, i) == Some(p.token)) &&
            (p.Literal? <==> !p.Custom? && TokenAt(fmt, i).None?)
  {
    var r := FirstCustom(fmt, cs, i, 0);
    FirstCustomSpec(fmt, cs, i, 0);
    if r.Some? {
      var j := r.value;
      assert cs[j] == (PieceAt(fmt, cs, i).key, PieceAt(fmt, cs, i).text);
    }
  }

  /** The pieces of `fmt` from position `i` on. */
  function Pieces(fmt: string, cs: seq<(CustomKey, string)>, i: nat): seq<Piece>
    requires i <= |fmt|
    decreases |fmt| - i
  {
    if i == |fmt| then []
    else
      var p := PieceAt(fmt, cs, i);
      [p] + Pieces(fmt, cs, i + Width(p))
  }

  function Sources(ps: seq<Piece>): string
  {
    if ps == [] then "" else SourceOf(ps[0]) + Sources(ps[1..])
  }

  function RenderAll(ps: seq<Piece>, render: Token -> string): string
  {
    if ps == [] then "" else RenderPiece(ps[0], render) + RenderAll(ps[1..], render)
  }

  /** The output of the scan: the pieces rendered one after another. */
  function Format(fmt: string, cs: seq<(CustomKey, string)>, render: Token -> string): string
  {
    RenderAll(Pieces(fmt, cs, 0), render)
  }

  /** The pieces cover the format string exactly, in order, each character once. */
  lemma {:induction false} PiecesCover(fmt: string, cs: seq<(CustomKey, string)>, i: nat)
    requires i <= |fmt|
    ensures Sources(Pieces(fmt, cs, i)) == fmt[i..]
    decreases |fmt| - i
  {
    if i == |fmt| {
      assert Pieces(fmt, cs, i) == [];
    } else {
      var w := Width(PieceAt(fmt, cs, i));
      PieceAtSource(fmt, cs, i);
      PiecesCover(fmt, cs, i + w);
      SourcesStep(fmt, cs, i);
      AdjacentSlices(fmt, i, i + w, SourceOf(PieceAt(fmt, cs, i)), Sources(Pieces(fmt, cs, i + w)));
    }
  }

  lemma SourcesStep(fmt: string, cs: seq<(CustomKey, string)>, i: nat)
    requires i < |fmt|
    ensures Sources(Pieces(fmt, cs, i)) ==
            SourceOf(PieceAt(fmt, cs, i)) + Sources(Pieces(fmt, cs, i + Width(PieceAt(fmt, cs, i))))
  {
    var ps := Pieces(fmt, cs, i);
    assert ps[1..] == Pieces(fmt, cs, i + Width(PieceAt(fmt, cs, i)));
  }

  /** The scan's position moves forward by the width of each piece. */
  lemma RenderStep(fmt: string, cs: seq<(CustomKey, string)>, render: Token -> string, i: nat)
    requires i < |fmt|
    ensures RenderAll(Pieces(fmt, cs, i), render) ==
            RenderPiece(PieceAt(fmt, cs, i), render) +
            RenderAll(Pieces(fmt, cs, i + Width(PieceAt(fmt, cs, i))), render)
  {
    var ps := Pieces(fmt, cs, i);
    assert ps[1..] == Pieces(fmt, cs, i + Width(PieceAt(fmt, cs, i)));
  }

  /** A character other than an ASCII letter starts no built-in token. */
  lemma NonLetterIsNoToken(c: char, n: nat)
    requires !IsAsciiLetter(c) && 1 <= n <= 4
    ensures Switch(n, c).None?
  {
  }

  /** A position holding a character other than an ASCII letter starts no built-in token. */
  lemma NonLetterStartsNoToken(fmt: string, i: nat)
    requires i < |fmt| && !IsAsciiLetter(fmt[i])
    ensures TokenAt(fmt, i).None?
  {
    NonLetterIsNoToken(fmt[i], 1);
    NonLetterIsNoToken(fmt[i], 2);
    NonLetterIsNoToken(fmt[i], 3);
    NonLetterIsNoToken(fmt[i], 4);
  }

  /**
   * A format string without ASCII letters and without a custom key that
   * fits anywhere is copied unchanged.
   */
  lemma {:induction false} NoTokensVerbatim(fmt: string, cs: seq<(CustomKey, string)>, render: Token -> string, i: nat)
    requires i <= |fmt|
    requires !HasAsciiLetter(fmt)
    requires forall j, p :: 0 <= j < |cs| && 0 <= p < |fmt| ==> !CustomFits(fmt, cs[j].0, p)
    ensures RenderAll(Pieces(fmt, cs, i), render) == fmt[i..]
    decreases |fmt| - i
  {
    if i < |fmt| {
      var p := PieceAt(fmt, cs, i);
      PieceAtRules(fmt, cs, i);
      NonLetterStartsNoToken(fmt, i);
      assert p == Literal(fmt[i]);
      RenderStep(fmt, cs, render, i);
      NoTokensVerbatim(fmt, cs, render, i + 1);
      AdjacentSlices(fmt, i, i + 1, [fmt[i]], fmt[i + 1..]);
    }
  }

  /**
   * `YYYY-YYYY` renders the `YYYY` token twice: no `YY` is taken from
   * inside `YYYY`.
   */
  lemma YearTwice(fmt: string, render: Token -> string)
    requires fmt == "YYYY-YYYY"
    ensures Format(fmt, [], render) == render(YearPadded4) + "-" + render(YearPadded4)
  {
    assert fmt[0..4] == Repeat('Y', 4) && fmt[5..9] == Repeat('Y', 4);
    RunText(fmt, 0, 4);
    RunText(fmt, 5, 4);
    YearTwiceFrom0(fmt, render);
  }

  lemma YearTwiceFrom0(fmt: string, render: Token -> string)
    requires |fmt| == 9 && fmt[0] == 'Y' && Run(fmt, 0, 4) && fmt[4] == '-' && fmt[5] == 'Y' && Run(fmt, 5, 4)
    ensures RenderAll(Pieces(fmt, [], 0), render) == render(YearPadded4) + "-" + render(YearPadded4)
  {
    YearTwiceFrom4(fmt, render);
    assert PieceAt(fmt, [], 0) == Builtin(YearPadded4);
    RenderStep(fmt, [], render, 0);
  }

  lemma YearTwiceFrom4(fmt: string, render: Token -> string)
    requires |fmt| == 9 && fmt[4] == '-' && fmt[5] == 'Y' && Run(fmt, 5, 4)
    ensures RenderAll(Pieces(fmt, [], 4), render) == "-" + render(YearPadded4)
  {
    YearTwiceFrom5(fmt, render);
    NonLetterStartsNoToken(fmt, 4);
    assert PieceAt(fmt, [], 4) == Literal('-');
    RenderStep(fmt, [], render, 4);
  }

  lemma YearTwiceFrom5(fmt: string, render: Token -> string)
    requires |fmt| == 9 && fmt[5] == 'Y' && Run(fmt, 5, 4)
    ensures RenderAll(Pieces(fmt, [], 5), render) == render(YearPadded4)
  {
    assert Pieces(fmt, [], 9) == [];
    assert PieceAt(fmt, [], 5) == Builtin(YearPadded4);
    RenderStep(fmt, [], render, 5);
    assert RenderAll(Pieces(fmt, [], 5), render) == render(YearPadded4) + "";
  }

  /**
   * `Object.entries(customFormatters).sort(([a], [b]) => b.length - a.length)`:
   * a stable sort by descending key length. `InsertByLength` puts `x`
   * before the first entry whose key is not longer.
   */
  function InsertByLength(x: (CustomKey, string), s: seq<(CustomKey, string)>): (r: seq<(CustomKey, string)>)
    requires SortedByLength(s)
    ensures SortedByLength(r)
    ensures |r| == |s| + 1
    ensures r != [] && (r[0] == x || (s != [] && r[0] == s[0]))
  {
    if s == [] || |s[0].0| <= |x.0| then
      SortedCons(x, s);
      [x] + s
    else
      var rest := InsertByLength(x, s[1..]);
      SortedCons(s[0], rest);
      [s[0]] + rest
  }

  /** Inserting adds the entry and keeps the others. */
  lemma {:induction false} InsertByLengthPerm(x: (CustomKey, string), s: seq<(CustomKey, string)>)
    requires SortedByLength(s)
    ensures multiset(InsertByLength(x, s)) == multiset(s) + multiset{x}
  {
    if !(s == [] || |s[0].0| <= |x.0|) {
      InsertByLengthPerm(x, s[1..]);
      assert s == [s[0]] + s[1..];
    }
  }

  /** An entry at least as long as the head of a sorted list can go in front. */
  lemma SortedCons(y: (CustomKey, string), r: seq<(CustomKey, string)>)
    requires SortedByLength(r) && (r == [] || |y.0| >= |r[0].0|)
    ensures SortedByLength([y] + r)
  {
    var s := [y] + r;
    forall i, j | 0 <= i < j < |s| ensures |s[i].0| >= |s[j].0| {
      if i > 0 {
        assert s[i] == r[i - 1] && s[j] == r[j - 1];
      } else {
        assert s[j] == r[j - 1];
      }
    }
  }

  predicate SortedByLength(s: seq<(CustomKey, string)>)
  {
    forall i, j :: 0 <= i < j < |s| ==> |s[i].0| >= |s[j].0|
  }

  function SortByLength(cs: seq<(CustomKey, string)>): (r: seq<(CustomKey, string)>)
    ensures SortedByLength(r)
    ensures multiset(r) == multiset(cs)
  {
    if cs == [] then []
    else
      assert cs == [cs[0]] + cs[1..];
      InsertByLengthPerm(cs[0], SortByLength(cs[1..]));
      InsertByLength(cs[0], SortByLength(cs[1..]))
  }

  /** `formatter(date)` for each custom formatter, keys in entry order. */
  function Evaluate(cs: seq<CustomFormatter>, d: DateParts): (r: seq<(CustomKey, string)>)
    ensures |r| == |cs|
    ensures forall i :: 0 <= i < |cs| ==> r[i] == (cs[i].key, cs[i].render(d))
  {
    seq(|cs|, i requires 0 <= i < |cs| => (cs[i].key, cs[i].render(d)))
  }

  /** A fitting custom key at the first untried index is the piece taken. */
  lemma CustomChosen(fmt: string, cs: seq<(CustomKey, string)>, i: nat, j: nat)
    requires i < |fmt| && j < |cs|
    requires FirstCustom(fmt, cs, i, 0) == FirstCustom(fmt, cs, i, j)
    requires CustomFits(fmt, cs[j].0, i)
    ensures PieceAt(fmt, cs, i) == Custom(cs[j].0, cs[j].1)
  {
  }

  /** When no custom key fits, the piece is a built-in token or a literal. */
  lemma NoCustomChosen(fmt: string, cs: seq<(CustomKey, string)>, i: nat)
    requires i < |fmt|
    requires !PieceAt(fmt, cs, i).Custom?
    ensures PieceAt(fmt, cs, i) == (if TokenAt(fmt, i).Some? then Builtin(TokenAt(fmt, i).value) else Literal(fmt[i]))
  {
  }

  /** `regularDateFormatter(date, formatStr, options)`. */
  method RegularDateFormat(d: DateParts, formatStr: string, options: FormatOptions) returns (result: string)
    ensures result == Format(formatStr, SortByLength(Evaluate(options.customFormatters, d)), Renderer(RegularFields(d, options)))
  {
    var f := RegularFields(d, options);
    var customFormatters := SortByLength(Evaluate(options.customFormatters, d));
    result := Scan(formatStr, customFormatters, Renderer(f));
  }

  /**
   * The `for` loop over the sorted custom formatters at position `i`:
   * the first key that occurs there between non-alphanumeric characters.
   */
  method MatchCustom(formatStr: string, customFormatters: seq<(CustomKey, string)>, i: nat)
    returns (found: bool, text: string, width: nat)
    requires i < |formatStr|
    ensures found <==> PieceAt(formatStr, customFormatters, i).Custom?
    ensures found ==> text == PieceAt(formatStr, customFormatters, i).text &&
                      width == Width(PieceAt(formatStr, customFormatters, i))
  {
    var length := |formatStr|;
    found, text, width := false, "", 0;
    var j := 0;
    while j < |customFormatters|
      invariant 0 <= j <= |customFormatters|
      invariant FirstCustom(formatStr, customFormatters, i, 0) == FirstCustom(formatStr, customFormatters, i, j)
    {
      var (token, formatted) := customFormatters[j];
      MatchesAtOccurs(formatStr, token, i);
      if i + |token| <= length && formatStr[i..i + |token|] == token {
        var isPrevAlphaNum := AlnumAt(formatStr, i - 1);
        var isNextAlphaNum := AlnumAt(formatStr, i + |token|);
        if !isPrevAlphaNum && !isNextAlphaNum {
          CustomChosen(formatStr, customFormatters, i, j);
          found, text, width := true, formatted, |token|;
          return;
        }
      }
      j := j + 1;
    }
  }

  /**
   * The `switch`es on the four, three, two and one characters at `i`, in
   * that order; `None` when the character is copied as it is.
   */
  method MatchBuiltin(formatStr: string, i: nat) returns (token: Option<Token>)
    requires i < |formatStr|
    ensures token == TokenAt(formatStr, i)
  {
    var length := |formatStr|;
    token := None;
    if i + 4 <= length && Run(formatStr, i, 4) {
      token := Token4(formatStr[i]);
    }
    assert token == TokenFrom(formatStr, i, 4) || (TokenFrom(formatStr, i, 4) == TokenFrom(formatStr, i, 3) && token.None?);
    if token.None? && i + 3 <= length && Run(formatStr, i, 3) {
      token := Token3(formatStr[i]);
    }
    assert token == TokenFrom(formatStr, i, 4) || (TokenFrom(formatStr, i, 4) == TokenFrom(formatStr, i, 2) && token.None?);
    if token.None? && i + 2 <= length && Run(formatStr, i, 2) {
      token := Token2(formatStr[i]);
    }
    assert token == TokenFrom(formatStr, i, 4) || (TokenFrom(formatStr, i, 4) == TokenFrom(formatStr, i, 1) && token.None?);
    if token.None? {
      token := Token1(formatStr[i]);
    }
  }

  /**
   * One turn of the `while` loop at position `i`: the text appended and
   * how far the position moves.
   */
  method ScanStep(formatStr: string, customFormatters: seq<(CustomKey, string)>, render: Token -> string, i: nat)
    returns (text: string, width: nat)
    requires i < |formatStr|
    ensures text == RenderPiece(PieceAt(formatStr, customFormatters, i), render)
    ensures width == Width(PieceAt(formatStr, customFormatters, i))
  {
    // 1. custom formatters, longest key first
    var found;
    found, text, width := MatchCustom(formatStr, customFormatters, i);
    if found {
      return;
    }
    NoCustomChosen(formatStr, customFormatters, i);
    // 2.-5. built-in tokens, longest first, or the character itself
    var token := MatchBuiltin(formatStr, i);
    if token.Some? {
      text, width := render(token.value), TokenLength(token.value);
    } else {
      text, width := [formatStr[i]], 1;
    }
  }

  /** The scan from `i` on, with the text so far in `acc`. */
  function ScanFrom(fmt: string, cs: seq<(CustomKey, string)>, render: Token -> string, i: nat, acc: string): string
    requires i <= |fmt|
    decreases |fmt| - i
  {
    if i == |fmt| then acc
    else
      var p := PieceAt(fmt, cs, i);
      ScanFrom(fmt, cs, render, i + Width(p), acc + RenderPiece(p, render))
  }

  /** The scan with an accumulator is the accumulator followed by the rendered pieces. */
  lemma {:induction false} ScanFromPieces(fmt: string, cs: seq<(CustomKey, string)>, render: Token -> string, i: nat, acc: string)
    requires i <= |fmt|
    ensures ScanFrom(fmt, cs, render, i, acc) == acc + RenderAll(Pieces(fmt, cs, i), render)
    decreases |fmt| - i
  {
    if i == |fmt| {
      assert Pieces(fmt, cs, i) == [];
    } else {
      var p := PieceAt(fmt, cs, i);
      var rest := RenderAll(Pieces(fmt, cs, i + Width(p)), render);
      RenderStep(fmt, cs, render, i);
      ScanFromPieces(fmt, cs, render, i + Width(p), acc + RenderPiece(p, render));
      AppendAssoc(acc, RenderPiece(p, render), rest);
    }
  }

  /** The `while` loop of regularDateFormatter over the format string. */
  method Scan(formatStr: string, customFormatters: seq<(CustomKey, string)>, render: Token -> string) returns (result: string)
    ensures result == Format(formatStr, customFormatters, render)
  {
    ScanFromPieces(formatStr, customFormatters, render, 0, "");
    assert "" + Format(formatStr, customFormatters, render) == Format(formatStr, customFormatters, render);
    ghost var whole := Format(formatStr, customFormatters, render);
    result := "";
    var i := 0;
    var length := |formatStr|;
    while i < length
      invariant 0 <= i <= length
      invariant ScanFrom(formatStr, customFormatters, render, i, result) == whole
      decreases length - i
    {
      var text, width := ScanStep(formatStr, customFormatters, render, i);
      result := result + text;
      i := i + width;
    }
  }
}
