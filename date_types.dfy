/**
 * The date-formatting types of src/types/date.ts and the constants of
 * src/utils/constants.ts, plus the date fields the formatters read.
 *
 * The formatters read a JavaScript `Date` only through its getters and
 * through `toLocaleString`; here those readings are an abstract record.
 */
module DateTypes {
  import opened Wrappers
  import Text

  type Month = m: int | 1 <= m <= 12 witness 1
  type DayOfMonth = d: int | 1 <= d <= 31 witness 1
  type Hour = h: int | 0 <= h < 24
  type Minute = m: int | 0 <= m < 60
  type Second = s: int | 0 <= s < 60
  type Millisecond = ms: int | 0 <= ms < 1000
  type WeekdayIndex = w: int | 0 <= w < 7
  type WeekNumber = w: int | 1 <= w <= 53 witness 1

  /** A seven-entry weekday table, Sunday first. */
  type WeekTable = s: seq<string> | |s| == 7 witness ["", "", "", "", "", "", ""]

  /** A custom-formatter key: a non-empty literal substring. */
  type CustomKey = s: string | |s| > 0 witness "k"

  /**
   * What the formatters read from a `Date`:
   * `getFullYear()`, `getMonth() + 1`, `getDate()`, `getHours()`,
   * `getMinutes()`, `getSeconds()`, `getMilliseconds()`, `getDay()`,
   * the day of the year and the ISO week number the sources compute,
   * `getTime()`, `Date.UTC(...)` of the local fields, and the locale
   * month and weekday names of `toLocaleString(locale, {month|weekday:
   * long ? "long" : "short"})`.
   */
  datatype DateParts = DateParts(
    year: int,
    month: Month,
    day: DayOfMonth,
    hours: Hour,
    minutes: Minute,
    seconds: Second,
    milliseconds: Millisecond,
    weekday: WeekdayIndex,
    dayOfYear: int,
    weekNumber: WeekNumber,
    epochMs: int,
    localAsUtcMs: int,
    monthName: (string, bool) -> string,
    weekdayName: (string, bool) -> string)

  /** `weekdayNames`: one table for every language, or one per language code. */
  datatype WeekdayNames =
    | NamesArray(names: WeekTable)
    | NamesRecord(byLang: map<string, WeekTable>)

  /** One entry of `customFormatters`: a key and the function producing its text. */
  datatype CustomFormatter = CustomFormatter(key: CustomKey, render: DateParts -> string)

  /**
   * `DateFormatOptions` as the formatters read it. `customFormatters`
   * is listed in `Object.entries` order and is empty when absent.
   */
  datatype FormatOptions = FormatOptions(
    locale: Option<string>,
    customFormatters: seq<CustomFormatter>,
    weekdayNames: Option<WeekdayNames>)

  /** No options at all (`{}`). */
  const NoOptions: FormatOptions := FormatOptions(None, [], None)

  /** `DEFAULT_DATE_FORMAT_OPTIONS.locale`. */
  const DefaultLocale: string := "zh-CN"

  /** `WEEKDAY_MAP.zh`. */
  const ZhWeekdays: WeekTable := ["周日", "周一", "周二", "周三", "周四", "周五", "周六"]

  /** `WEEKDAY_MAP.en`. */
  const EnWeekdays: WeekTable := ["Sunday", "Monday", "Tuesday", "Wednesday", "Thursday", "Friday", "Saturday"]

  /** `WEEKDAY_MAP`. */
  const WeekdayMap: map<string, WeekTable> := map["zh" := ZhWeekdays, "en" := EnWeekdays]

  /** `{ ...DEFAULT_DATE_FORMAT_OPTIONS, ...options }.locale`. */
  function MergedLocale(opts: FormatOptions): string
  {
    match opts.locale
    case Some(l) => l
    case None => DefaultLocale
  }

  /** `mergedOptions.locale || DEFAULT_DATE_FORMAT_OPTIONS.locale`: the locale for month names. */
  function NameLocale(opts: FormatOptions): (l: string)
    ensures l != ""
  {
    var m := MergedLocale(opts);
    if m == "" then DefaultLocale else m
  }

  /** `locale?.split('-')[0] || 'zh'`: the language code of a locale. */
  function Lang(locale: string): (r: string)
    ensures r != "" && '-' !in r
    ensures r == Text.BeforeChar(locale, '-') || (Text.BeforeChar(locale, '-') == "" && r == "zh")
  {
    var head := Text.Split(locale, '-')[0];
    if head == "" then "zh" else head
  }

  /** JavaScript `a || b` on strings, where a missing entry reads as `""`. */
  function Or(a: string, b: string): (r: string)
  {
    if a != "" then a else b
  }

  /** `WEEKDAY_MAP[lang]?.[weekday]`, with a missing table read as `""`. */
  function BuiltinWeekday(lang: string, w: WeekdayIndex): (r: string)
    ensures lang in WeekdayMap ==> r == WeekdayMap[lang][w]
    ensures lang !in WeekdayMap ==> r == ""
  {
    if lang in WeekdayMap then WeekdayMap[lang][w] else ""
  }

  /** Every built-in weekday name is non-empty, so `||` never skips one. */
  lemma BuiltinWeekdayNonEmpty(lang: string, w: WeekdayIndex)
    ensures lang in WeekdayMap ==> BuiltinWeekday(lang, w) != ""
    ensures ZhWeekdays[w] != ""
  {
  }

  /** The 12-hour clock value `hours % 12 || 12`. */
  function Hours12(h: Hour): (r: int)
    ensures 1 <= r <= 12
    ensures r % 12 == h % 12
  {
    if h % 12 == 0 then 12 else h % 12
  }

  /** `Math.floor((getMonth() + 3) / 3)`: the quarter of a 1-based month. */
  function Quarter(m: Month): (q: int)
    ensures 1 <= q <= 4
    ensures 3 * (q - 1) < m <= 3 * q
  {
    (m - 1 + 3) / 3
  }
}
