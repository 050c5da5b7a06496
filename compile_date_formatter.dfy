/**
 * The compiled formatter of src/date/compileDateFormatter.ts.
 *
 * `compileDateFormatter(formatStr)` looks the format string up in a
 * module-level LRU cache of capacity 100 and, on a miss, builds a
 * formatter and stores it. The body of the built formatter is modelled
 * as an ordinary method, `CompiledBody`: a pre-pass that rewrites the
 * format string once per custom key, in insertion order, and then the
 * built-in token scan of the regular formatter with no custom keys.
 */
module CompileDateFormatter {
  import opened Wrappers
  import opened Text
  import opened DateTypes
  import opened RegularDateFormatter
  import Cache

  /** The capacity of `compiledFormatCache`. */
  const CacheCapacity: int := 100

  /**
   * The generated `getLocalizedWeekday`: every lookup falls back with
   * `||` to the language's table, then the `zh` table, then "日".
   */
  function CompiledWeekday(w: WeekdayIndex, opts: FormatOptions): (r: string)
    ensures r != ""
    ensures opts.weekdayNames.Some? && opts.weekdayNames.value.NamesArray? &&
            opts.weekdayNames.value.names[w] != "" ==>
              r == opts.weekdayNames.value.names[w]
    ensures opts.weekdayNames.Some? && opts.weekdayNames.value.NamesRecord? &&
            Lang(MergedLocale(opts)) in opts.weekdayNames.value.byLang &&
            opts.weekdayNames.value.byLang[Lang(MergedLocale(opts))][w] != "" ==>
              r == opts.weekdayNames.value.byLang[Lang(MergedLocale(opts))][w]
    ensures (opts.weekdayNames.None? ||
             (opts.weekdayNames.value.NamesRecord? &&
              Lang(MergedLocale(opts)) !in opts.weekdayNames.value.byLang)) ==>
              r == (if Lang(MergedLocale(opts)) in WeekdayMap
                    then WeekdayMap[Lang(MergedLocale(opts))][w] else ZhWeekdays[w])
  {
    var lang := Lang(MergedLocale(opts));
    BuiltinWeekdayNonEmpty(lang, w);
    var fallback := Or(Or(BuiltinWeekday(lang, w), ZhWeekdays[w]), "日");
    match opts.weekdayNames
    case Some(NamesArray(names)) => Or(names[w], fallback)
    case Some(NamesRecord(byLang)) => if lang in byLang then Or(byLang[lang][w], fallback) else fallback
    case None => fallback
  }

  /**
   * Where the regular formatter's weekday lookup gives a name, the
   * compiled one gives the same name; where it gives an empty override
   * entry, the compiled one falls back to the built-in tables.
   */
  lemma WeekdayFallbackAgrees(w: WeekdayIndex, opts: FormatOptions)
    ensures LocalizedWeekday(w, opts) != "" ==> CompiledWeekday(w, opts) == LocalizedWeekday(w, opts)
    ensures LocalizedWeekday(w, opts) == "" ==>
              CompiledWeekday(w, opts) == Or(BuiltinWeekday(Lang(MergedLocale(opts)), w), ZhWeekdays[w])
  {
    BuiltinWeekdayNonEmpty(Lang(MergedLocale(opts)), w);
  }

  /**
   * The values the generated code renders: as in the regular formatter,
   * except the weekday lookup and the timestamps, which come from
   * `getTime()` itself.
   */
  function CompiledFields(d: DateParts, opts: FormatOptions): Fields
  {
    Fields(
      d.year, d.month, d.day, d.hours, Hours12(d.hours),
      d.minutes, d.seconds, d.milliseconds, d.weekday,
      Quarter(d.month), d.dayOfYear, d.weekNumber,
      AmPm(d.hours), AmPmLower(d.hours),
      d.monthName(NameLocale(opts), true), d.monthName(NameLocale(opts), false),
      CompiledWeekday(d.weekday, opts),
      FloorSeconds(d.epochMs), d.epochMs)
  }

  /** The two formatters read the same fields but for the weekday name and the timestamps. */
  lemma FieldsDiffer(d: DateParts, opts: FormatOptions)
    ensures CompiledFields(d, opts) ==
            RegularFields(d, opts).(weekdayText := CompiledWeekday(d.weekday, opts),
                                    stampSeconds := FloorSeconds(d.epochMs), stampMs := d.epochMs)
    ensures CompiledFields(d, opts).stampSeconds * 1000 <= d.epochMs < CompiledFields(d, opts).stampSeconds * 1000 + 1000
  {
  }

  /**
   * One custom key's `while (index !== -1)` loop exactly as written. The
   * state is the text and `index`; `fuel` bounds the number of turns and
   * `None` means they ran out. After a replacement `index` moves to the
   * end of the inserted text without searching again.
   */
  function PrePassAsWrittenFrom(s: string, key: CustomKey, text: string, index: int, fuel: nat): Option<string>
    requires -1 <= index <= |s|
    decreases fuel
  {
    if index == -1 then Some(s)
    else if fuel == 0 then None
    else if !AlnumAt(s, index - 1) && !AlnumAt(s, index + |key|) then
      var before := s[..index];
      var after := if index + |key| <= |s| then s[index + |key|..] else "";
      PrePassAsWrittenFrom(before + text + after, key, text, |before| + |text|, fuel - 1)
    else
      PrePassAsWrittenFrom(s, key, text, IndexOf(s, key, index + 1), fuel - 1)
  }

  /** The as-written pass, starting from `finalFormat.indexOf(token)`. */
  function PrePassAsWritten(s: string, key: CustomKey, text: string, fuel: nat): Option<string>
  {
    PrePassAsWrittenFrom(s, key, text, IndexOf(s, key, 0), fuel)
  }

  /**
   * The loop as written replaces text that is not the key: in `K-.z`
   * with `K` mapped to `[`, the `-` after the first replacement is
   * replaced too.
   */
  lemma AsWrittenOverwrites(fuel: nat)
    requires fuel >= 3
    ensures PrePassAsWritten("K-.z", "K", "[", fuel) == Some("[[.z")
    ensures PrePass("K-.z", "K", "[") == "[-.z"
  {
    var s := "K-.z";
    assert IndexOf(s, "K", 0) == 0 by {
      assert s[0..1] == "K";
    }
    var s1 := "[-.z";
    assert s[..0] + "[" + s[1..] == s1;
    var s2 := "[[.z";
    assert s1[..1] + "[" + s1[2..] == s2;
    assert IndexOf(s2, "K", 3) == -1 by {
      assert s2[3..4][0] != "K"[0];
    }
    assert PrePassAsWrittenFrom(s2, "K", "[", 2, fuel - 2) == Some(s2);
    assert PrePassAsWrittenFrom(s1, "K", "[", 1, fuel - 1) == Some(s2);
    assert Rewrite("K", "[", false, "-.z") == "-.z" by {
      NoKeyUnchanged("K", "[", false, "-.z");
    }
  }

  /**
   * The loop as written never ends on `K` with `K` mapped to `-`: the
   * text grows by one `-` on every turn.
   */
  lemma AsWrittenDiverges(fuel: nat)
    ensures PrePassAsWritten("K", "K", "-", fuel) == None
    ensures PrePass("K", "K", "-") == "-"
  {
    assert IndexOf("K", "K", 0) == 0 by {
      assert "K"[0..1] == "K";
    }
    if fuel > 0 {
      assert "K"[..0] + "-" + "" == Repeat('-', 1);
      DashesGrow(1, fuel - 1);
    }
    assert Rewrite("K", "-", false, "") == "" by {
      NoKeyUnchanged("K", "-", false, "");
    }
    assert "K"[..0] + "-" + "K"[1..] == "-";
  }

  lemma {:induction false} DashesGrow(n: nat, fuel: nat)
    requires n >= 1
    ensures PrePassAsWrittenFrom(Repeat('-', n), "K", "-", n, fuel) == None
    decreases fuel
  {
    if fuel > 0 {
      var s := Repeat('-', n);
      assert !AlnumAt(s, n - 1) && !AlnumAt(s, n + 1);
      assert s[..n] + "-" + "" == Repeat('-', n + 1);
      DashesGrow(n + 1, fuel - 1);
    }
  }

  /**
   * With an empty insertion the loop as written does not move past the
   * occurrence: in `K-.z` with `K` mapped to `""`, the `-` that follows
   * is deleted as well.
   */
  lemma AsWrittenEmptyDeletes(fuel: nat)
    requires fuel >= 3
    ensures PrePassAsWritten("K-.z", "K", "", fuel) == Some(".z")
    ensures PrePass("K-.z", "K", "") == "-.z"
  {
    var s := "K-.z";
    assert IndexOf(s, "K", 0) == 0 by {
      assert s[0..1] == "K";
    }
    var s1 := "-.z";
    assert s[..0] + "" + s[1..] == s1;
    var s2 := ".z";
    assert s1[..0] + "" + s1[1..] == s2;
    assert AlnumAt(s2, 1);
    assert IndexOf(s2, "K", 1) == -1 by {
      assert s2[1..2][0] != "K"[0];
    }
    assert PrePassAsWrittenFrom(s2, "K", "", 0, fuel - 2) == Some(s2);
    assert PrePassAsWrittenFrom(s1, "K", "", 0, fuel - 1) == Some(s2);
    assert Rewrite("K", "", false, "-.z") == "-.z" by {
      NoKeyUnchanged("K", "", false, "-.z");
    }
  }

  /**
   * The loop as written never ends on `K` with `K` mapped to `""`: once
   * the text is empty, `index` stays at 0 and every turn replaces again.
   */
  lemma AsWrittenEmptyDiverges(fuel: nat)
    ensures PrePassAsWritten("K", "K", "", fuel) == None
    ensures PrePass("K", "K", "") == ""
  {
    assert IndexOf("K", "K", 0) == 0 by {
      assert "K"[0..1] == "K";
    }
    if fuel > 0 {
      assert "K"[..0] + "" + "" == "";
      EmptyStaysEmpty(fuel - 1);
    }
    assert Rewrite("K", "", false, "") == "" by {
      NoKeyUnchanged("K", "", false, "");
    }
  }

  lemma {:induction false} EmptyStaysEmpty(fuel: nat)
    ensures PrePassAsWrittenFrom("", "K", "", 0, fuel) == None
    decreases fuel
  {
    if fuel > 0 {
      assert ""[..0] + "" + "" == "";
      EmptyStaysEmpty(fuel - 1);
    }
  }

  /**
   * The pass as a left-to-right rewrite of `rest`, where `prevAlnum` says
   * whether the character before `rest` is `[a-zA-Z0-9]`: each step either
   * copies the text up to and including the first character of an
   * occurrence of the key, or replaces a whole occurrence of the key by
   * `text`.
   */
  function Rewrite(key: CustomKey, text: string, prevAlnum: bool, rest: string): string
    decreases |rest|
  {
    var q := IndexOf(rest, key, 0);
    if q == -1 then rest
    else
      var p := if q == 0 then prevAlnum else IsAsciiAlnum(rest[q - 1]);
      if !p && !AlnumAt(rest, q + |key|) then
        rest[..q] + text + Rewrite(key, text, text != [] && IsAsciiAlnum(text[|text| - 1]), rest[q + |key|..])
      else
        rest[..q + 1] + Rewrite(key, text, IsAsciiAlnum(rest[q]), rest[q + 1..])
  }

  /** One custom key's pass over the whole format string. */
  function PrePass(s: string, key: CustomKey, text: string): string
  {
    Rewrite(key, text, false, s)
  }

  /** Text without the key is left as it is. */
  lemma NoKeyUnchanged(key: CustomKey, text: string, prevAlnum: bool, rest: string)
    requires forall j :: 0 <= j ==> !MatchesAt(rest, key, j)
    ensures Rewrite(key, text, prevAlnum, rest) == rest
  {
    assert IndexOf(rest, key, 0) == -1;
  }

  /** Replacing the key by itself changes nothing. */
  lemma {:induction false} RewriteIdentity(key: CustomKey, prevAlnum: bool, rest: string)
    ensures Rewrite(key, key, prevAlnum, rest) == rest
    decreases |rest|
  {
    var q := IndexOf(rest, key, 0);
    if q != -1 {
      var p := if q == 0 then prevAlnum else IsAsciiAlnum(rest[q - 1]);
      if !p && !AlnumAt(rest, q + |key|) {
        var b := IsAsciiAlnum(key[|key| - 1]);
        RewriteReplaceTurn(key, key, prevAlnum, rest, q, b);
        RewriteIdentity(key, b, rest[q + |key|..]);
        MatchesAtOccurs(rest, key, q);
        Reassemble(rest, key, q);
      } else {
        var b := IsAsciiAlnum(rest[q]);
        RewriteSkipTurn(key, key, prevAlnum, rest, q, b);
        RewriteIdentity(key, b, rest[q + 1..]);
        SplitAt(rest, q + 1);
      }
    }
  }

  /** One turn of `Rewrite` that replaces the first occurrence. */
  lemma RewriteReplaceTurn(key: CustomKey, text: string, prevAlnum: bool, rest: string, q: nat, nextAlnum: bool)
    requires IndexOf(rest, key, 0) == q
    requires !(if q == 0 then prevAlnum else IsAsciiAlnum(rest[q - 1]))
    requires !AlnumAt(rest, q + |key|)
    requires nextAlnum == (text != [] && IsAsciiAlnum(text[|text| - 1]))
    ensures q + |key| <= |rest|
    ensures Rewrite(key, text, prevAlnum, rest) == rest[..q] + text + Rewrite(key, text, nextAlnum, rest[q + |key|..])
  {
  }

  /** One turn of `Rewrite` that copies up to the first character of an occurrence. */
  lemma RewriteSkipTurn(key: CustomKey, text: string, prevAlnum: bool, rest: string, q: nat, nextAlnum: bool)
    requires IndexOf(rest, key, 0) == q
    requires (if q == 0 then prevAlnum else IsAsciiAlnum(rest[q - 1])) || AlnumAt(rest, q + |key|)
    requires q < |rest| && nextAlnum == IsAsciiAlnum(rest[q])
    ensures Rewrite(key, text, prevAlnum, rest) == rest[..q + 1] + Rewrite(key, text, nextAlnum, rest[q + 1..])
  {
  }

  /**
   * What the loop still has to do when it searches `s` from `from`: the
   * part before `from` is final and the rest is rewritten.
   */
  function Pending(s: string, key: CustomKey, text: string, from: nat): string
    requires from <= |s|
  {
    s[..from] + Rewrite(key, text, AlnumAt(s, from - 1), s[from..])
  }

  /** The slices of `s`, of `s[from..]` and of `s'` that a replacement at `q` relates. */
  lemma ReplacedSlices(s: string, text: string, from: nat, q: nat, k: nat, s': string)
    requires from <= q && q + k <= |s| && s' == s[..q] + text + s[q + k..]
    ensures s[from..][..q - from] == s[from..q]
    ensures s[from..][q - from + k..] == s[q + k..]
    ensures s'[..q + |text|] == s[..from] + s[from..q] + text
    ensures s'[q + |text|..] == s[q + k..]
  {
    PrefixOfConcat(s[..q] + text, s[q + k..], 0);
    SuffixOfConcat(s[..q] + text, s[q + k..], 0);
    assert s[..q] == s[..from] + s[from..q];
  }

  /** The characters next to a replaced occurrence, as the rewrite of `s[from..]` sees them. */
  lemma ReplacedFlanks(s: string, text: string, from: nat, q: nat, k: nat, s': string)
    requires from <= q && q + k <= |s| && s' == s[..q] + text + s[q + k..]
    requires !AlnumAt(s, q - 1)
    ensures q > from ==> s[from..][q - from - 1] == s[q - 1]
    ensures AlnumAt(s[from..], q - from + k) == AlnumAt(s, q + k)
    ensures AlnumAt(s', q + |text| - 1) == (text != [] && IsAsciiAlnum(text[|text| - 1]))
  {
    if q + k < |s| {
      assert s[from..][q - from + k] == s[q + k];
    }
    if text != [] {
      assert s'[q + |text| - 1] == text[|text| - 1];
    } else if q > 0 {
      assert s'[q - 1] == s[q - 1];
    }
  }

  /** A turn that replaces the occurrence at `q` leaves the pending result as it was. */
  lemma ReplaceKeepsPending(s: string, key: CustomKey, text: string, from: nat, q: nat, s': string)
    requires from <= q && IndexOf(s, key, from) == q
    requires !AlnumAt(s, q - 1) && !AlnumAt(s, q + |key|)
    requires s' == s[..q] + text + s[q + |key|..]
    ensures q + |key| <= |s| && q + |text| <= |s'|
    ensures Pending(s', key, text, q + |text|) == Pending(s, key, text, from)
  {
    IndexOfDrop(s, key, from);
    ReplacedSlices(s, text, from, q, |key|, s');
    ReplacedFlanks(s, text, from, q, |key|, s');
    var next := AlnumAt(s', q + |text| - 1);
    RewriteReplaceTurn(key, text, AlnumAt(s, from - 1), s[from..], q - from, next);
    ReplaceAssoc(s[..from], s[from..q], text, Rewrite(key, text, next, s'[q + |text|..]));
  }

  /** The slices and characters that skipping the occurrence at `q` relates. */
  lemma SkippedSlices(s: string, from: nat, q: nat, k: nat)
    requires from <= q && q + k <= |s| && k > 0
    ensures q > from ==> s[from..][q - from - 1] == s[q - 1]
    ensures AlnumAt(s[from..], q - from + k) == AlnumAt(s, q + k)
    ensures s[from..][q - from] == s[q]
    ensures s[from..][..q - from + 1] == s[from..q + 1]
    ensures s[from..][q - from + 1..] == s[q + 1..]
    ensures s[..q + 1] == s[..from] + s[from..q + 1]
  {
    if q + k < |s| {
      assert s[from..][q - from + k] == s[q + k];
    }
  }

  /** A turn that skips the occurrence at `q` leaves the pending result as it was. */
  lemma SkipKeepsPending(s: string, key: CustomKey, text: string, from: nat, q: nat)
    requires from <= q && IndexOf(s, key, from) == q
    requires AlnumAt(s, q - 1) || AlnumAt(s, q + |key|)
    ensures q < |s|
    ensures Pending(s, key, text, q + 1) == Pending(s, key, text, from)
  {
    IndexOfDrop(s, key, from);
    SkippedSlices(s, from, q, |key|);
    RewriteSkipTurn(key, text, AlnumAt(s, from - 1), s[from..], q - from, AlnumAt(s, q));
    SkipAssoc(s[..from], s[from..q + 1], Rewrite(key, text, AlnumAt(s, q), s[q + 1..]));
  }

  /** With no occurrence left, what is pending is the string itself. */
  lemma DonePending(s: string, key: CustomKey, text: string, from: nat)
    requires from <= |s| && IndexOf(s, key, from) == -1
    ensures Pending(s, key, text, from) == s
  {
    IndexOfDrop(s, key, from);
    assert Rewrite(key, text, AlnumAt(s, from - 1), s[from..]) == s[from..];
    SplitAt(s, from);
  }

  lemma ReplaceAssoc(a: string, b: string, c: string, d: string)
    ensures a + b + c + d == a + (b + c + d)
  {
  }

  lemma SkipAssoc(a: string, b: string, c: string)
    ensures a + b + c == a + (b + c)
  {
  }

  /**
   * The branch of the `indexOf` loop that replaces the occurrence at
   * `index`, found by the search from `from`, and searches again after
   * the inserted text.
   */
  method ReplaceOccurrence(finalFormat: string, token: CustomKey, formatted: string, index: nat, ghost from: nat)
    returns (finalFormat': string, index': int, ghost from': nat)
    requires from <= index && index == IndexOf(finalFormat, token, from)
    requires !AlnumAt(finalFormat, index - 1) && !AlnumAt(finalFormat, index + |token|)
    ensures from' <= |finalFormat'| && index' == IndexOf(finalFormat', token, from')
    ensures |finalFormat'| - from' < |finalFormat| - from
    ensures Pending(finalFormat', token, formatted, from') == Pending(finalFormat, token, formatted, from)
  {
    var before := finalFormat[..index];
    var after := finalFormat[index + |token|..];
    ReplaceKeepsPending(finalFormat, token, formatted, from, index, before + formatted + after);
    finalFormat' := before + formatted + after;
    from' := index + |formatted|;
    index' := IndexOf(finalFormat', token, |before| + |formatted|);
  }

  /**
   * The `indexOf` loop for one custom key, with the search done again
   * after a replacement. `from` is where the current search started.
   */
  method PrePassLoop(format: string, token: CustomKey, formatted: string) returns (finalFormat: string)
    ensures finalFormat == PrePass(format, token, formatted)
  {
    finalFormat := format;
    ghost var from: nat := 0;
    assert format[..0] + format[0..] == format;
    var index := IndexOf(finalFormat, token, 0);
    while index != -1
      invariant from <= |finalFormat| && index == IndexOf(finalFormat, token, from)
      invariant Pending(finalFormat, token, formatted, from) == PrePass(format, token, formatted)
      decreases |finalFormat| - from
    {
      var isPrevAlphaNum := AlnumAt(finalFormat, index - 1);
      var isNextAlphaNum := AlnumAt(finalFormat, index + |token|);
      if !isPrevAlphaNum && !isNextAlphaNum {
        finalFormat, index, from := ReplaceOccurrence(finalFormat, token, formatted, index, from);
      } else {
        SkipKeepsPending(finalFormat, token, formatted, from, index);
        from := index + 1;
        index := IndexOf(finalFormat, token, index + 1);
      }
    }
    DonePending(finalFormat, token, formatted, from);
  }

  /** `Object.entries(customFormatters).forEach(...)`: one pass per key, in entry order. */
  function PrePassAll(s: string, cs: seq<(CustomKey, string)>): string
    decreases |cs|
  {
    if cs == [] then s
    else PrePass(PrePassAll(s, cs[..|cs| - 1]), cs[|cs| - 1].0, cs[|cs| - 1].1)
  }

  /** Custom keys that each map to themselves leave the format string as it is. */
  lemma {:induction false} PrePassAllIdentity(s: string, cs: seq<(CustomKey, string)>)
    requires forall i :: 0 <= i < |cs| ==> cs[i].1 == cs[i].0
    ensures PrePassAll(s, cs) == s
    decreases |cs|
  {
    if cs != [] {
      PrePassAllIdentity(s, cs[..|cs| - 1]);
      RewriteIdentity(cs[|cs| - 1].0, false, s);
    }
  }

  /** What a compiled formatter returns for a date and per-call options. */
  function CompiledOutput(formatStr: string, d: DateParts, opts: FormatOptions): string
  {
    Format(PrePassAll(formatStr, Evaluate(opts.customFormatters, d)), [], Renderer(CompiledFields(d, opts)))
  }

  /** The body of the generated function. */
  method CompiledBody(formatStr: string, d: DateParts, options: FormatOptions) returns (result: string)
    ensures result == CompiledOutput(formatStr, d, options)
  {
    var customFormatters := Evaluate(options.customFormatters, d);
    var finalFormat := formatStr;
    var k := 0;
    while k < |customFormatters|
      invariant 0 <= k <= |customFormatters|
      invariant finalFormat == PrePassAll(formatStr, customFormatters[..k])
    {
      var (token, formatted) := customFormatters[k];
      assert customFormatters[..k + 1][..k] == customFormatters[..k];
      finalFormat := PrePassLoop(finalFormat, token, formatted);
      k := k + 1;
    }
    assert customFormatters[..k] == customFormatters;
    result := Scan(finalFormat, [], Renderer(CompiledFields(d, options)));
  }

  /**
   * Without custom keys, with a weekday name the regular lookup finds
   * and with `getTime()` equal to the UTC reading of the local fields,
   * the compiled formatter and the regular one agree.
   */
  lemma SameAsRegular(formatStr: string, d: DateParts, opts: FormatOptions)
    requires opts.customFormatters == []
    requires LocalizedWeekday(d.weekday, opts) != ""
    requires d.epochMs == d.localAsUtcMs
    ensures CompiledOutput(formatStr, d, opts) ==
            Format(formatStr, SortByLength(Evaluate(opts.customFormatters, d)), Renderer(RegularFields(d, opts)))
  {
    WeekdayFallbackAgrees(d.weekday, opts);
    assert CompiledFields(d, opts) == RegularFields(d, opts);
    assert Evaluate(opts.customFormatters, d) == [];
  }

  /**
   * The pre-pass runs before the scan, so a custom output that spells a
   * token is rendered as that token; the regular formatter copies it.
   */
  lemma CustomOutputRetokenised(d: DateParts, opts: FormatOptions)
    requires |opts.customFormatters| == 1 && opts.customFormatters[0].key == "K"
    requires opts.customFormatters[0].render(d) == "Y"
    ensures CompiledOutput("K", d, opts) == IntToString(d.year)
    ensures Format("K", SortByLength(Evaluate(opts.customFormatters, d)), Renderer(RegularFields(d, opts))) == "Y"
  {
    var cs := Evaluate(opts.customFormatters, d);
    assert cs == [("K", "Y")];
    assert cs[..0] == [];
    assert IndexOf("K", "K", 0) == 0 by {
      assert "K"[0..1] == "K";
    }
    NoKeyUnchanged("K", "Y", true, "");
    assert PrePass("K", "K", "Y") == "Y";
    assert PrePassAll("K", cs) == "Y";
    SingleCharacter("Y", [], Renderer(CompiledFields(d, opts)));
    var sorted := SortByLength(cs);
    assert sorted == cs;
    assert CustomFits("K", "K", 0);
    assert PieceAt("K", sorted, 0) == Custom("K", "Y");
    SingleCharacter("K", sorted, Renderer(RegularFields(d, opts)));
  }

  /** A one-character format string is the one piece at its start. */
  lemma SingleCharacter(fmt: string, cs: seq<(CustomKey, string)>, render: Token -> string)
    requires |fmt| == 1
    ensures Format(fmt, cs, render) == RenderPiece(PieceAt(fmt, cs, 0), render)
  {
    RenderStep(fmt, cs, render, 0);
    assert Pieces(fmt, cs, 1) == [];
    assert RenderPiece(PieceAt(fmt, cs, 0), render) + "" == RenderPiece(PieceAt(fmt, cs, 0), render);
  }

  /**
   * A built formatter: the format string it was built from and the
   * number of builds before it, which tells one `new Function` from
   * another.
   */
  datatype CompiledFormatter = CompiledFormatter(formatStr: string, build: nat)

  /** Calling a compiled formatter; the options come with each call. */
  function Apply(f: CompiledFormatter, d: DateParts, opts: FormatOptions): string
  {
    CompiledOutput(f.formatStr, d, opts)
  }

  /** `compiledFormatCache` and the count of formatters built so far. */
  class DateFormatCompiler {
    const cache: Cache.LRUCache<string, CompiledFormatter>
    var builds: nat

    /** The cache keeps its invariant and holds only formatters built from their key. */
    ghost predicate Valid()
      reads this, cache
    {
      cache.Valid() && cache.maxSize == CacheCapacity &&
      forall e :: e in cache.entries ==> e.1.formatStr == e.0 && e.1.build < builds
    }

    constructor ()
      ensures Valid() && fresh(cache)
      ensures cache.entries == [] && builds == 0
    {
      cache := new Cache.LRUCache(CacheCapacity);
      builds := 0;
    }

    /** `compileDateFormatter(formatStr)`. */
    method Compile(formatStr: string) returns (f: CompiledFormatter)
      requires Valid()
      modifies this, cache
      ensures Valid()
      ensures f.formatStr == formatStr
      ensures Cache.Lookup(old(cache.entries), formatStr).Some? ==>
                f == Cache.Lookup(old(cache.entries), formatStr).value &&
                builds == old(builds) &&
                cache.entries == Cache.AfterGet(old(cache.entries), formatStr)
      ensures Cache.Lookup(old(cache.entries), formatStr).None? ==>
                f == CompiledFormatter(formatStr, old(builds)) &&
                builds == old(builds) + 1 &&
                cache.entries == Cache.AfterSet(old(cache.entries), CacheCapacity, formatStr, f)
    {
      Cache.AfterGetEntries(cache.entries, formatStr);
      var cachedFormatter := cache.Get(formatStr);
      if cachedFormatter.Some? {
        return cachedFormatter.value;
      }
      f := CompiledFormatter(formatStr, builds);
      builds := builds + 1;
      Cache.AfterSetEntries(cache.entries, CacheCapacity, formatStr, f);
      cache.Set(formatStr, f);
    }
  }

  /**
   * After `Compile(formatStr)` the cache maps `formatStr` to the returned
   * formatter, so compiling the same format string again is a hit that
   * returns the same formatter and builds nothing.
   */
  lemma RecompileHits(es: seq<(string, CompiledFormatter)>, formatStr: string, f: CompiledFormatter)
    requires Cache.UniqueKeys(es)
    requires Cache.Lookup(es, formatStr).Some? ==> f == Cache.Lookup(es, formatStr).value
    ensures var after := if Cache.Lookup(es, formatStr).Some? then Cache.AfterGet(es, formatStr)
                         else Cache.AfterSet(es, CacheCapacity, formatStr, f);
            Cache.Lookup(after, formatStr) == Some(f)
  {
    if Cache.Lookup(es, formatStr).Some? {
      Cache.GetPresent(es, formatStr, f);
    } else {
      Cache.SetThenGet(es, CacheCapacity, formatStr, f);
    }
  }
}
