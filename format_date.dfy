/**
 * `formatDate` of src/date/formatDate.ts: a fixed sequence of global
 * `String.prototype.replace` passes over the format string. The passes
 * are, in order:
 *   - every literal `timestamp`, with no boundary check;
 *   - each custom key, when no `[a-zA-Z0-9]` is next to it on either side;
 *   - the multi-character tokens in table order, each where the next
 *     character is not `[a-zA-Z0-9]`;
 *   - the one-character tokens, with no `[a-zA-Z0-9]` on either side.
 *
 * One global replace is `ReplaceAll`: a left-to-right scan of the pass's
 * input that, at a match, emits the replacement and resumes after the
 * match, and otherwise copies one character. The lookarounds see the
 * pass's input, not its output.
 */
module FormatDate {
  import opened Wrappers
  import opened Text
  import opened DateTypes
  import RegularDateFormatter

  // ---------------------------------------------------------------------
  // One global replace
  // ---------------------------------------------------------------------

  /**
   * The pattern `tok` matches at `i`, with `(?<![a-zA-Z0-9])` when
   * `checkBefore` and `(?![a-zA-Z0-9])` when `checkAfter`.
   */
  predicate Hit(s: string, tok: CustomKey, i: int, checkBefore: bool, checkAfter: bool)
  {
    MatchesAt(s, tok, i) && !(checkBefore && AlnumAt(s, i - 1)) && !(checkAfter && AlnumAt(s, i + |tok|))
  }

  /** `s.replace(regex, val)` with the `g` flag, from position `i` of `s` on. */
  function ReplaceFrom(s: string, tok: CustomKey, val: string, checkBefore: bool, checkAfter: bool, i: nat): string
    requires i <= |s|
    decreases |s| - i
  {
    if i == |s| then []
    else if Hit(s, tok, i, checkBefore, checkAfter) then
      val + ReplaceFrom(s, tok, val, checkBefore, checkAfter, i + |tok|)
    else
      [s[i]] + ReplaceFrom(s, tok, val, checkBefore, checkAfter, i + 1)
  }

  function ReplaceAll(s: string, tok: CustomKey, val: string, checkBefore: bool, checkAfter: bool): string
  {
    ReplaceFrom(s, tok, val, checkBefore, checkAfter, 0)
  }

  /** Where the pattern never matches, the replace copies the text. */
  lemma {:induction false} ReplaceNoHit(s: string, tok: CustomKey, val: string, checkBefore: bool, checkAfter: bool, i: nat)
    requires i <= |s|
    requires forall j :: i <= j < |s| ==> !Hit(s, tok, j, checkBefore, checkAfter)
    ensures ReplaceFrom(s, tok, val, checkBefore, checkAfter, i) == s[i..]
    decreases |s| - i
  {
    if i < |s| {
      ReplaceNoHit(s, tok, val, checkBefore, checkAfter, i + 1);
      assert [s[i]] + s[i + 1..] == s[i..];
    }
  }

  /** Replacing a token by itself changes nothing. */
  lemma {:induction false} ReplaceIdentity(s: string, tok: CustomKey, checkBefore: bool, checkAfter: bool, i: nat)
    requires i <= |s|
    ensures ReplaceFrom(s, tok, tok, checkBefore, checkAfter, i) == s[i..]
    decreases |s| - i
  {
    if i < |s| {
      if Hit(s, tok, i, checkBefore, checkAfter) {
        ReplaceIdentity(s, tok, checkBefore, checkAfter, i + |tok|);
        MatchesAtOccurs(s, tok, i);
        assert s[i..i + |tok|] + s[i + |tok|..] == s[i..];
      } else {
        ReplaceIdentity(s, tok, checkBefore, checkAfter, i + 1);
        assert [s[i]] + s[i + 1..] == s[i..];
      }
    }
  }

  /**
   * The first match decides the output: the text before it is copied,
   * the replacement follows, and the scan goes on after the match.
   */
  lemma {:induction false} ReplaceFirstHit(s: string, tok: CustomKey, val: string, checkBefore: bool, checkAfter: bool, i: nat, p: nat)
    requires i <= p <= |s|
    requires forall j :: i <= j < p ==> !Hit(s, tok, j, checkBefore, checkAfter)
    requires Hit(s, tok, p, checkBefore, checkAfter)
    ensures p + |tok| <= |s|
    ensures ReplaceFrom(s, tok, val, checkBefore, checkAfter, i) ==
            s[i..p] + val + ReplaceFrom(s, tok, val, checkBefore, checkAfter, p + |tok|)
    decreases p - i
  {
    if i < p {
      ReplaceCopies(s, tok, val, checkBefore, checkAfter, i);
      ReplaceFirstHit(s, tok, val, checkBefore, checkAfter, i + 1, p);
      ConsSlice(s, i, p, val + ReplaceFrom(s, tok, val, checkBefore, checkAfter, p + |tok|));
    } else {
      ReplaceEmits(s, tok, val, checkBefore, checkAfter, p);
      assert s[i..p] == [];
    }
  }

  /** One step of the scan where the pattern does not match. */
  lemma ReplaceCopies(s: string, tok: CustomKey, val: string, checkBefore: bool, checkAfter: bool, i: nat)
    requires i < |s| && !Hit(s, tok, i, checkBefore, checkAfter)
    ensures ReplaceFrom(s, tok, val, checkBefore, checkAfter, i) ==
            [s[i]] + ReplaceFrom(s, tok, val, checkBefore, checkAfter, i + 1)
  {
  }

  /** One step of the scan where the pattern matches. */
  lemma ReplaceEmits(s: string, tok: CustomKey, val: string, checkBefore: bool, checkAfter: bool, i: nat)
    requires i <= |s| && Hit(s, tok, i, checkBefore, checkAfter)
    ensures i + |tok| <= |s|
    ensures ReplaceFrom(s, tok, val, checkBefore, checkAfter, i) ==
            val + ReplaceFrom(s, tok, val, checkBefore, checkAfter, i + |tok|)
  {
    MatchesAtOccurs(s, tok, i);
  }

  /** Copying one character in front of the slice that follows it. */
  lemma ConsSlice(s: string, i: nat, p: nat, tail: string)
    requires i < p <= |s|
    ensures [s[i]] + (s[i + 1..p] + tail) == s[i..p] + tail
  {
    assert [s[i]] + s[i + 1..p] == s[i..p];
  }

  /** A token that starts with a letter never matches text without letters. */
  lemma LetterTokenMisses(s: string, tok: CustomKey, checkBefore: bool, checkAfter: bool)
    requires IsAsciiLetter(tok[0]) && !HasAsciiLetter(s)
    ensures forall j :: 0 <= j < |s| ==> !Hit(s, tok, j, checkBefore, checkAfter)
  {
  }

  // ---------------------------------------------------------------------
  // The pattern of the multi-character tokens
  // ---------------------------------------------------------------------

  /** The class `\w`. */
  predicate IsWordChar(c: char) { IsAsciiAlnum(c) || c == '_' }

  /** `\b` at position `j`: a word character on exactly one side. */
  predicate WordBoundary(s: string, j: int)
  {
    (0 < j <= |s| && IsWordChar(s[j - 1])) != (0 <= j < |s| && IsWordChar(s[j]))
  }

  /** `\btok\b|tok(?![a-zA-Z0-9])` matches at `i`. */
  predicate MultiHit(s: string, tok: CustomKey, i: int)
  {
    MatchesAt(s, tok, i) &&
    ((WordBoundary(s, i) && WordBoundary(s, i + |tok|)) || !AlnumAt(s, i + |tok|))
  }

  /**
   * For a token that ends in a letter, the `\b...\b` alternative adds no
   * match: the pattern matches exactly where the next character is not
   * `[a-zA-Z0-9]`.
   */
  lemma BoundaryAlternativeSubsumed(s: string, tok: CustomKey, i: int)
    requires IsAsciiLetter(tok[|tok| - 1])
    ensures MultiHit(s, tok, i) <==> Hit(s, tok, i, false, true)
  {
    if MatchesAt(s, tok, i) {
      MatchesAtOccurs(s, tok, i);
      var e := i + |tok|;
      assert s[e - 1] == s[i..e][|tok| - 1] == tok[|tok| - 1];
      if WordBoundary(s, e) {
        assert !AlnumAt(s, e);
      }
    }
  }

  // ---------------------------------------------------------------------
  // The tables and the passes
  // ---------------------------------------------------------------------

  /** One `forEach` over a token table: a replace per entry, in order. */
  function Passes(s: string, table: seq<(CustomKey, string)>, checkBefore: bool, checkAfter: bool): string
    decreases |table|
  {
    if table == [] then s
    else Passes(ReplaceAll(s, table[0].0, table[0].1, checkBefore, checkAfter), table[1..], checkBefore, checkAfter)
  }

  /** Every token of the table starts with a letter. */
  predicate LetterTokens(table: seq<(CustomKey, string)>)
  {
    forall k :: 0 <= k < |table| ==> IsAsciiLetter(table[k].0[0])
  }

  /** Passes of letter tokens leave text without letters as it is. */
  lemma {:induction false} PassesNoLetters(s: string, table: seq<(CustomKey, string)>, checkBefore: bool, checkAfter: bool)
    requires LetterTokens(table) && !HasAsciiLetter(s)
    ensures Passes(s, table, checkBefore, checkAfter) == s
    decreases |table|
  {
    if table != [] {
      LetterTokenMisses(s, table[0].0, checkBefore, checkAfter);
      ReplaceNoHit(s, table[0].0, table[0].1, checkBefore, checkAfter, 0);
      assert table[1..][0..] == table[1..];
      PassesNoLetters(s, table[1..], checkBefore, checkAfter);
    }
  }

  /** Passes over the empty string give the empty string. */
  lemma {:induction false} PassesEmpty(table: seq<(CustomKey, string)>, checkBefore: bool, checkAfter: bool)
    ensures Passes("", table, checkBefore, checkAfter) == ""
    decreases |table|
  {
    if table != [] {
      PassesEmpty(table[1..], checkBefore, checkAfter);
    }
  }

  /** The English ordinal suffixes `["th", "st", "nd", "rd"]`. */
  const Suffixes: seq<string> := ["th", "st", "nd", "rd"]

  /** `suffixes[k]`, with `undefined` (a missing index) read as `""`. */
  function SuffixAt(k: int): (r: string)
    ensures 0 <= k < 4 ==> r == Suffixes[k]
    ensures !(0 <= k < 4) ==> r == ""
  {
    if 0 <= k < |Suffixes| then Suffixes[k] else ""
  }

  /** JavaScript `a % b` for `b > 0`: the remainder takes the sign of `a`. */
  function JsRem(a: int, b: int): (r: int)
    requires b > 0
    ensures a >= 0 ==> r == a % b
    ensures a < 0 ==> r == -((-a) % b)
  {
    if a >= 0 then a % b else -((-a) % b)
  }

  /** `getOrdinalSuffix(num)`. */
  function OrdinalSuffix(num: int): string
  {
    var v := JsRem(num, 100);
    Or(Or(SuffixAt(JsRem(v - 20, 10)), SuffixAt(v)), Suffixes[0])
  }

  /** The suffix of every day of a month. */
  lemma OrdinalSuffixDays(day: DayOfMonth)
    ensures OrdinalSuffix(day) ==
            if day in {1, 21, 31} then "st"
            else if day in {2, 22} then "nd"
            else if day in {3, 23} then "rd"
            else "th"
  {
  }

  /**
   * This file's `getLocalizedWeekday`: the language's built-in table,
   * else the `zh` table; `weekdayNames` is not read.
   */
  function Weekday(w: WeekdayIndex, opts: FormatOptions): (r: string)
  {
    Or(BuiltinWeekday(Lang(MergedLocale(opts)), w), ZhWeekdays[w])
  }

  /** The weekday override does not change the weekday name. */
  lemma WeekdayIgnoresOverrides(w: WeekdayIndex, opts: FormatOptions, names: Option<WeekdayNames>)
    ensures Weekday(w, opts.(weekdayNames := names)) == Weekday(w, opts)
    ensures Weekday(w, opts) ==
            if Lang(MergedLocale(opts)) in WeekdayMap then WeekdayMap[Lang(MergedLocale(opts))][w] else ZhWeekdays[w]
    ensures opts.weekdayNames.None? ==> Weekday(w, opts) == RegularDateFormatter.LocalizedWeekday(w, opts)
  {
    BuiltinWeekdayNonEmpty(Lang(MergedLocale(opts)), w);
  }

  /** The keys of `multiCharReplacements`, in entry order. */
  const MultiTokens: seq<CustomKey> :=
    ["YYYY", "YY", "MMMM", "MMM", "MM", "DDD", "DD", "HH", "hh", "mm", "ss", "SSS", "WW",
     "dddd", "ddd", "dd", "Do", "X", "x"]

  /** The values of `multiCharReplacements`, in the same order. */
  function MultiValues(d: DateParts, opts: FormatOptions): (v: seq<string>)
    ensures |v| == |MultiTokens|
  {
    var locale := NameLocale(opts);
    [ PadStart(IntToString(d.year), 4, '0'),
      LastN(IntToString(d.year), 2),
      d.monthName(locale, true),
      d.monthName(locale, false),
      PadStart(IntToString(d.month), 2, '0'),
      PadStart(IntToString(d.dayOfYear), 3, '0'),
      PadStart(IntToString(d.day), 2, '0'),
      PadStart(IntToString(d.hours), 2, '0'),
      PadStart(IntToString(Hours12(d.hours)), 2, '0'),
      PadStart(IntToString(d.minutes), 2, '0'),
      PadStart(IntToString(d.seconds), 2, '0'),
      PadStart(IntToString(d.milliseconds), 3, '0'),
      PadStart(IntToString(d.weekNumber), 2, '0'),
      d.weekdayName(locale, true),
      d.weekdayName(locale, false),
      Weekday(d.weekday, opts),
      IntToString(d.day) + OrdinalSuffix(d.day),
      IntToString(RegularDateFormatter.FloorSeconds(d.epochMs)),
      IntToString(d.epochMs) ]
  }

  /** The keys of `singleCharReplacements`, in entry order. */
  const SingleTokens: seq<CustomKey> := ["Y", "M", "D", "H", "h", "m", "s", "S", "W", "d", "Q", "A", "a"]

  /** The values of `singleCharReplacements`, in the same order. */
  function SingleValues(d: DateParts): (v: seq<string>)
    ensures |v| == |SingleTokens|
  {
    [ IntToString(d.year),
      IntToString(d.month),
      IntToString(d.day),
      IntToString(d.hours),
      IntToString(Hours12(d.hours)),
      IntToString(d.minutes),
      IntToString(d.seconds),
      IntToString(d.milliseconds),
      IntToString(d.weekNumber),
      IntToString(d.weekday),
      IntToString(Quarter(d.month)),
      RegularDateFormatter.AmPm(d.hours),
      RegularDateFormatter.AmPmLower(d.hours) ]
  }

  /** Keys paired with their values. */
  function Zip(keys: seq<CustomKey>, values: seq<string>): (t: seq<(CustomKey, string)>)
    requires |keys| == |values|
    ensures |t| == |keys| && forall k :: 0 <= k < |t| ==> t[k] == (keys[k], values[k])
  {
    seq(|keys|, k requires 0 <= k < |keys| => (keys[k], values[k]))
  }

  function MultiTable(d: DateParts, opts: FormatOptions): seq<(CustomKey, string)>
  {
    Zip(MultiTokens, MultiValues(d, opts))
  }

  function SingleTable(d: DateParts): seq<(CustomKey, string)>
  {
    Zip(SingleTokens, SingleValues(d))
  }

  /** Every key of both tables starts with a letter. */
  lemma KeysStartWithLetters()
    ensures forall k :: 0 <= k < |MultiTokens| ==> IsAsciiLetter(MultiTokens[k][0])
    ensures forall k :: 0 <= k < |SingleTokens| ==> IsAsciiLetter(SingleTokens[k][0])
  {
  }

  /** Keys that start with letters make a table of letter tokens. */
  lemma ZipLetters(keys: seq<CustomKey>, values: seq<string>)
    requires |keys| == |values|
    requires forall k :: 0 <= k < |keys| ==> IsAsciiLetter(keys[k][0])
    ensures LetterTokens(Zip(keys, values))
  {
  }

  /**
   * The table order puts every token before the shorter tokens it
   * begins with (`YYYY` before `YY`, `DDD` before `DD`, `dddd`, `ddd`,
   * `dd`), and every multi-character token ends in a letter.
   */
  lemma TableOrder()
    ensures forall k :: 0 <= k < |MultiTokens| ==> IsAsciiLetter(MultiTokens[k][|MultiTokens[k]| - 1])
    ensures forall j, k :: 0 <= j < k < |MultiTokens| && |MultiTokens[j]| < |MultiTokens[k]| ==>
              MultiTokens[k][..|MultiTokens[j]|] != MultiTokens[j]
  {
  }

  /** What `formatDate` returns for the date fields, format string and options. */
  function FormatDateSpec(d: DateParts, formatStr: string, opts: FormatOptions): string
  {
    var s1 := if IndexOf(formatStr, "timestamp", 0) != -1
              then ReplaceAll(formatStr, "timestamp", IntToString(d.epochMs), false, false)
              else formatStr;
    var s2 := Passes(s1, RegularDateFormatter.Evaluate(opts.customFormatters, d), true, true);
    var s3 := Passes(s2, MultiTable(d, opts), false, true);
    Passes(s3, SingleTable(d), true, true)
  }

  /** `timestamp` is replaced whatever its neighbours are: that pass has no boundary check. */
  lemma TimestampUnbounded(x: char, y: char, ms: int)
    ensures ReplaceAll([x] + "timestamp" + [y], "timestamp", IntToString(ms), false, false) ==
            [x] + IntToString(ms) + [y]
  {
    var s := [x] + "timestamp" + [y];
    var v := IntToString(ms);
    assert s[1] != "timestamp"[1];
    assert s[1..10] == "timestamp";
    MatchesAtOccurs(s, "timestamp", 1);
    ReplaceFirstHit(s, "timestamp", v, false, false, 0, 1);
    assert s[0..1] == [x];
  }

  /**
   * A one-character token between two characters that are not
   * `[a-zA-Z0-9]` (as each token of `Y-M-D H:m:s` is) is replaced.
   */
  lemma SingleTokenFlanked(x: char, t: char, y: char, val: string)
    requires IsAsciiLetter(t) && !IsAsciiAlnum(x) && !IsAsciiAlnum(y)
    ensures ReplaceAll([x, t, y], [t], val, true, true) == [x] + val + [y]
  {
    var s := [x, t, y];
    assert !Hit(s, [t], 0, true, true) by {
      assert AlnumAt(s, 1);
    }
    assert Hit(s, [t], 1, true, true) by {
      assert [t][1..] == [];
      assert MatchesAt(s, [], 2);
    }
    ReplaceFirstHit(s, [t], val, true, true, 0, 1);
    assert !Hit(s, [t], 2, true, true);
    ReplaceCopies(s, [t], val, true, true, 2);
    assert s[0..1] == [x];
  }

  /** A one-character token next to a letter or digit is left alone. */
  lemma SingleTokenInWord(x: char, t: char, val: string)
    requires IsAsciiLetter(t) && IsAsciiAlnum(x)
    ensures ReplaceAll([x, t], [t], val, true, true) == [x, t]
  {
    var s := [x, t];
    assert AlnumAt(s, 0) && AlnumAt(s, 1);
    ReplaceNoHit(s, [t], val, true, true, 0);
  }

  /** With no custom keys, a format string without ASCII letters comes back unchanged. */
  lemma NoLettersUnchanged(d: DateParts, formatStr: string, opts: FormatOptions)
    requires opts.customFormatters == [] && !HasAsciiLetter(formatStr)
    ensures FormatDateSpec(d, formatStr, opts) == formatStr
  {
    LetterTokenMisses(formatStr, "timestamp", false, false);
    ReplaceNoHit(formatStr, "timestamp", IntToString(d.epochMs), false, false, 0);
    assert RegularDateFormatter.Evaluate(opts.customFormatters, d) == [];
    KeysStartWithLetters();
    ZipLetters(MultiTokens, MultiValues(d, opts));
    ZipLetters(SingleTokens, SingleValues(d));
    StagesNoLetters(formatStr, MultiTable(d, opts), SingleTable(d));
  }

  /** The two token stages leave text without letters as it is. */
  lemma StagesNoLetters(s: string, multi: seq<(CustomKey, string)>, single: seq<(CustomKey, string)>)
    requires LetterTokens(multi) && LetterTokens(single) && !HasAsciiLetter(s)
    ensures Passes(Passes(s, multi, false, true), single, true, true) == s
  {
    PassesNoLetters(s, multi, false, true);
    PassesNoLetters(s, single, true, true);
  }

  /** The empty format string gives the empty string, whatever the options. */
  lemma EmptyFormat(d: DateParts, opts: FormatOptions)
    ensures FormatDateSpec(d, "", opts) == ""
  {
    PassesEmpty(RegularDateFormatter.Evaluate(opts.customFormatters, d), true, true);
    PassesEmpty(MultiTable(d, opts), false, true);
    PassesEmpty(SingleTable(d), true, true);
  }

  // ---------------------------------------------------------------------
  // The function body
  // ---------------------------------------------------------------------

  /** `Object.entries(table).forEach(([token, value]) => result = result.replace(...))`. */
  method ReplacePasses(s: string, table: seq<(CustomKey, string)>, checkBefore: bool, checkAfter: bool)
    returns (result: string)
    ensures result == Passes(s, table, checkBefore, checkAfter)
  {
    result := s;
    var k := 0;
    while k < |table|
      invariant 0 <= k <= |table|
      invariant Passes(result, table[k..], checkBefore, checkAfter) == Passes(s, table, checkBefore, checkAfter)
      decreases |table| - k
    {
      var (token, value) := table[k];
      assert table[k..][1..] == table[k + 1..];
      result := ReplaceAll(result, token, value, checkBefore, checkAfter);
      k := k + 1;
    }
  }

  /** The body of `formatDate` after the date is read. */
  method FormatDate(d: DateParts, formatStr: string, options: FormatOptions) returns (result: string)
    ensures result == FormatDateSpec(d, formatStr, options)
  {
    result := formatStr;
    if IndexOf(result, "timestamp", 0) != -1 {
      result := ReplaceAll(result, "timestamp", IntToString(d.epochMs), false, false);
    }
    result := ReplacePasses(result, RegularDateFormatter.Evaluate(options.customFormatters, d), true, true);
    result := ReplacePasses(result, MultiTable(d, options), false, true);
    result := ReplacePasses(result, SingleTable(d), true, true);
  }
}
