# js-toolkit core, modelled in Dafny

This project models the core of the js-toolkit utility library and proves properties of that model:

- **Date formatting.** The library has three formatters:
  - `regularDateFormatter`: a single left-to-right token scan;
  - `compileDateFormatter`: a cached, generated formatter with a custom-key pre-pass;
  - `formatDate`: a chain of global regular-expression replaces.
- **The `LRUCache`** behind the compiled formatters.
- **Number parsing and formatting.**
  - `toFormattedNumber`: digit extraction from strings, coercion, rounding, NaN display.
  - `toFormattedNumberString`: zero and NaN texts, a pre-processor, prefixes and suffixes.
- **`debounce`.**
- **`bumpVersion`**, the version-bumping helper of the release script.

One module per source file:

| file | module | models |
|---|---|---|
| `wrappers.dfy` | `Wrappers` | `Option` and `Result` |
| `text.dfy` | `Text` | characters, decimal rendering, `padStart`, `indexOf`, `split` |
| `date_types.dfy` | `DateTypes` | `src/types/date.ts`, `src/utils/constants.ts`, and the date fields read from a `Date` |
| `lru_cache.dfy` | `Cache` | `src/utils/cache.ts` |
| `regular_date_formatter.dfy` | `RegularDateFormatter` | `src/date/regularDateFormatter.ts` |
| `compile_date_formatter.dfy` | `CompileDateFormatter` | `src/date/compileDateFormatter.ts` |
| `format_date.dfy` | `FormatDate` | `src/date/formatDate.ts` |
| `to_formatted_number.dfy` | `ToFormattedNumber` | `src/object/toFormattedNumber.ts` |
| `to_formatted_number_string.dfy` | `ToFormattedNumberString` | `src/object/toFormattedNumberString.ts` |
| `debounce.dfy` | `Debounce` | `src/function/debounce.ts` |
| `bump_version.dfy` | `BumpVersion` | `bumpVersion` of `scripts/bump-version.js` |

## How each part is modelled

**Imperative code has stateful models.** Each is proved against a specification function:
- The cache is a class whose field is the recency-ordered entry list.
- The compiled-formatter cache is a class holding an `LRUCache`.
- The debounced function is a class with the closure's timer slot, an explicit clock and the record of calls.
- Each loop of the formatters is a method with a `while` loop and its invariants:
  - the scan of `regularDateFormatter`;
  - the `indexOf` pre-pass of the compiled formatter;
  - the replace passes of `formatDate`.
- `bumpVersion` has no loop; it is a straight-line method over its locals.

**Expression-shaped code is functions and lemmas.** This covers coercion, the regular expression, the replacement tables and the version arithmetic.

**Host facilities are inputs.**
- A JavaScript `Date` is read only through its getters and `toLocaleString`. Here those readings are a record, `DateParts`, with range-restricted fields.
- Number parsing (`Number(str)`), `toFixed`, `toString` and `toLocaleString` are function parameters (`NumberOps`).
- Timers are the explicit clock of the debounce model.

## Model

| member | source | states |
|---|---|---|
| DateTypes.Lang | src/date/regularDateFormatter.ts:41 | The language is the locale's text before its first `-`, or `zh` when that is empty. It is never empty and holds no `-`. |
| DateTypes.Hours12 | src/date/regularDateFormatter.ts:133 | The 12-hour clock value lies in 1..12 and equals the hour modulo 12. |
| DateTypes.Quarter | src/date/regularDateFormatter.ts:102 | The quarter lies in 1..4, and the month lies in that quarter's three months. |
| DateTypes.BuiltinWeekdayNonEmpty | src/utils/constants.ts:12-23 | Every entry of the built-in tables is non-empty, which is what makes the `||` fallbacks work. |
| Cache.Lookup | src/utils/cache.ts:28 | `Map.get` finds nothing exactly when the key is absent. A value it finds is stored under that key. |
| Cache.KeysRemove | src/utils/cache.ts:31 | `delete` removes the key and keeps the other keys in their order. |
| Cache.LookupRemove | src/utils/cache.ts:31 | `delete` leaves every other key's value unchanged. |
| Cache.RemoveLength | src/utils/cache.ts:31 | Deleting a present key shortens the map by one, and keys stay unique. |
| Cache.GetPresent | src/utils/cache.ts:27-35 | `get` on a present key moves that key to the most-recent end. Other keys keep their order and values, the size is unchanged and keys stay unique. |
| Cache.GetAbsent | src/utils/cache.ts:27-35 | `get` on an absent key returns nothing and changes nothing. |
| Cache.AfterGet | src/utils/cache.ts:27-35 | The entry list after `get`. No contract of its own; specified by GetPresent, GetAbsent and LRUCache.Get. |
| Cache.SetThenGet | src/utils/cache.ts:42-55 | Right after `set(k, v)`, the key `k` finds `v`. |
| Cache.SetPresent | src/utils/cache.ts:44-45 | Setting a present key evicts nothing. It moves the key to the end and keeps the size. |
| Cache.SetEvicts | src/utils/cache.ts:46-52 | Setting a new key on a full cache drops exactly the least recently used key, then appends. |
| Cache.SetAppends | src/utils/cache.ts:54 | Setting a new key below capacity only appends. |
| Cache.SetKeepsInvariant | src/utils/cache.ts:42-55 | `set` keeps keys unique. With capacity at least 1, the size never exceeds the capacity. |
| Cache.AfterSet | src/utils/cache.ts:42-55 | The entry list after `set`. No contract of its own; specified by SetThenGet, SetPresent, SetEvicts, SetAppends, SetKeepsInvariant and AfterSetEntries. |
| Cache.AfterSetEntries | src/utils/cache.ts:42-55 | `set(k, v)` adds no entry except `(k, v)`. |
| Cache.LRUCache.constructor | src/utils/cache.ts:17-20 | A new cache is empty, has the given capacity and satisfies the invariant. |
| Cache.LRUCache.Get | src/utils/cache.ts:27-35 | Returns the stored value. The new entry list is the refreshed one, and the invariant is kept. |
| Cache.LRUCache.Set | src/utils/cache.ts:42-55 | The new entry list is the re-insert or evict-then-append result, and the invariant is kept. |
| Cache.LRUCache.Clear | src/utils/cache.ts:60-62 | The cache becomes empty. |
| Cache.LRUCache.Size | src/utils/cache.ts:68-70 | Returns the number of entries. |
| RegularDateFormatter.TokenLookupComplete | src/date/regularDateFormatter.ts:184-357 | Every built-in token is found by the switch for its length and letter. |
| RegularDateFormatter.TokenTextLetters | src/date/regularDateFormatter.ts:184-357 | Every built-in token is one to four ASCII letters. |
| RegularDateFormatter.RenderToken | src/date/regularDateFormatter.ts:184-357 | The text of one built-in token. No contract of its own; specified by TokenLookupComplete, AmPm, AmPmLower, FloorSeconds, PaddingWidths and TwoDigitYear. |
| RegularDateFormatter.AmPm | src/date/regularDateFormatter.ts:134 | The marker is `AM` exactly before noon, otherwise `PM`. |
| RegularDateFormatter.AmPmLower | src/date/regularDateFormatter.ts:135 | The marker is `am` exactly before noon, otherwise `pm`. |
| RegularDateFormatter.FloorSeconds | src/date/regularDateFormatter.ts:111-121 | The seconds timestamp is the floor of the milliseconds divided by 1000. |
| RegularDateFormatter.LocalizedWeekday | src/date/regularDateFormatter.ts:37-61 | The priority of the weekday lookups, described below the table. |
| RegularDateFormatter.DefaultWeekdayIsChinese | src/date/regularDateFormatter.ts:41 | With no options the locale is `zh-CN`, so the weekday is the Chinese name. |
| RegularDateFormatter.PaddingWidths | src/date/regularDateFormatter.ts:188-301 | Each padded token pads its field to the token's own length. A non-negative field renders at least that wide, as zeros followed by the number. |
| RegularDateFormatter.TwoDigitYear | src/date/regularDateFormatter.ts:256 | `YY` is the last two characters of the year's text. |
| RegularDateFormatter.FirstCustomSpec | src/date/regularDateFormatter.ts:157-181 | The key chosen at a position fits there, and no key before it in the sorted order fits. |
| RegularDateFormatter.RunText | src/date/regularDateFormatter.ts:184-357 | A run of `n` equal characters is the first one repeated `n` times. |
| RegularDateFormatter.TokenFromText | src/date/regularDateFormatter.ts:184-357 | The token recognised at a position is exactly the text found there. |
| RegularDateFormatter.TokenAtLongest | src/date/regularDateFormatter.ts:184-357 | The token recognised at a position is the longest built-in token occurring there. |
| RegularDateFormatter.PieceAt | src/date/regularDateFormatter.ts:157-357 | The piece the scan takes at one position. No contract of its own; specified by PieceAtSource, PieceAtRules, CustomChosen and NoCustomChosen. |
| RegularDateFormatter.PieceAtSource | src/date/regularDateFormatter.ts:153-358 | Each piece the scan takes covers exactly the characters of the format string it stands for. |
| RegularDateFormatter.PieceAtRules | src/date/regularDateFormatter.ts:153-358 | The priority of the three kinds of piece, described below the table. |
| RegularDateFormatter.PiecesCover | src/date/regularDateFormatter.ts:153-358 | The pieces the scan takes, concatenated, are the format string. |
| RegularDateFormatter.Format | src/date/regularDateFormatter.ts:153-358 | The output of the scan, piece by piece. No contract of its own; specified by PiecesCover, NoTokensVerbatim, ScanFromPieces and Scan. |
| RegularDateFormatter.NoTokensVerbatim | src/date/regularDateFormatter.ts:351-356 | A format string with no ASCII letter, and where no custom key fits, is copied verbatim. |
| RegularDateFormatter.YearTwice | src/date/regularDateFormatter.ts:188 | `YYYY-YYYY` renders the padded year twice around the dash. |
| RegularDateFormatter.InsertByLengthPerm | src/date/regularDateFormatter.ts:146-150 | Inserting into the by-length order adds exactly that entry. |
| RegularDateFormatter.SortByLength | src/date/regularDateFormatter.ts:146-150 | The custom entries are sorted by descending key length and are a permutation of the originals. |
| RegularDateFormatter.CustomChosen | src/date/regularDateFormatter.ts:157-181 | A fitting custom key that comes first in the sorted order is the piece taken. |
| RegularDateFormatter.NoCustomChosen | src/date/regularDateFormatter.ts:184-357 | Without a fitting custom key, the piece is the built-in token at that position, else the literal character. |
| RegularDateFormatter.ScanFromPieces | src/date/regularDateFormatter.ts:153-358 | The loop's accumulated result, plus the rendering of the remaining pieces, is the whole output. |
| RegularDateFormatter.MatchCustom | src/date/regularDateFormatter.ts:157-181 | The `for` over custom keys finds a key exactly when the scan's piece is a custom key, and returns that key's text and length. |
| RegularDateFormatter.MatchBuiltin | src/date/regularDateFormatter.ts:184-357 | The four nested `switch` blocks return the token that `TokenAt` recognises. |
| RegularDateFormatter.ScanStep | src/date/regularDateFormatter.ts:153-358 | One turn of the loop appends the piece's rendering and advances by its width. |
| RegularDateFormatter.Scan | src/date/regularDateFormatter.ts:153-358 | The `while` loop computes `Format`, the rendering of the pieces. |
| RegularDateFormatter.RegularDateFormat | src/date/regularDateFormatter.ts:85-360 | The formatter renders the pieces of the format string. It uses the length-sorted custom entries and the fields of the date. |
| CompileDateFormatter.CompiledWeekday | src/date/compileDateFormatter.ts:69-87 | The generated weekday lookup: every branch falls back with `||` to the language's table, then `zh`, then `日`. It is never empty. |
| CompileDateFormatter.WeekdayFallbackAgrees | src/date/compileDateFormatter.ts:69-87 | Where the regular lookup gives a non-empty name, the generated one agrees; otherwise the generated one falls back to the built-in tables. |
| CompileDateFormatter.FieldsDiffer | src/date/compileDateFormatter.ts:45-66 | The generated fields differ from the regular ones only in the weekday lookup and in timestamps taken from `getTime()`. The seconds timestamp is the floor of milliseconds / 1000. |
| CompileDateFormatter.PrePassAsWritten | src/date/compileDateFormatter.ts:113-130 | The `indexOf` loop as written, with a fuel bound that yields nothing when it runs out. No contract of its own; specified by AsWrittenOverwrites, AsWrittenDiverges, AsWrittenEmptyDeletes and AsWrittenEmptyDiverges, the as-written half of the first finding. |
| CompileDateFormatter.AsWrittenOverwrites | src/date/compileDateFormatter.ts:113-130 | As written, `K-.z` with `K` mapped to `[` becomes `[[.z`, while the intended pass gives `[-.z`. |
| CompileDateFormatter.AsWrittenDiverges | src/date/compileDateFormatter.ts:113-130 | As written, `K` mapped to `-` never terminates, while the intended pass gives `-`. |
| CompileDateFormatter.AsWrittenEmptyDeletes | src/date/compileDateFormatter.ts:113-130 | As written, `K-.z` with `K` mapped to `""` becomes `.z`, deleting the `-`, while the intended pass gives `-.z`. |
| CompileDateFormatter.AsWrittenEmptyDiverges | src/date/compileDateFormatter.ts:113-130 | As written, `K` mapped to `""` never terminates, while the intended pass gives `""`. |
| CompileDateFormatter.PrePass | src/date/compileDateFormatter.ts:113-131 | The corrected pre-pass (see Findings). No contract of its own; specified by NoKeyUnchanged, RewriteIdentity, RewriteReplaceTurn, RewriteSkipTurn and PrePassLoop. |
| CompileDateFormatter.NoKeyUnchanged | src/date/compileDateFormatter.ts:113-114 | A text with no occurrence of the key is left as it is. |
| CompileDateFormatter.RewriteIdentity | src/date/compileDateFormatter.ts:113-130 | Replacing a key by itself changes nothing. |
| CompileDateFormatter.RewriteReplaceTurn | src/date/compileDateFormatter.ts:121-126 | Corrected form (see Findings): an occurrence with a non-alphanumeric character, or nothing, on each side is replaced, and the search goes on after the inserted text. |
| CompileDateFormatter.RewriteSkipTurn | src/date/compileDateFormatter.ts:127-130 | An occurrence touching an alphanumeric character is kept, and the search resumes one character on. |
| CompileDateFormatter.ReplaceKeepsPending | src/date/compileDateFormatter.ts:121-126 | Corrected form (see Findings): a replacement, with the search resuming after the inserted text, keeps the final result unchanged. |
| CompileDateFormatter.SkipKeepsPending | src/date/compileDateFormatter.ts:127-130 | A skip keeps the final result unchanged. |
| CompileDateFormatter.ReplaceOccurrence | src/date/compileDateFormatter.ts:123-126 | Corrected form (see Findings): in the replacement branch the next search position is the first occurrence after the inserted text, and the final result is unchanged. |
| CompileDateFormatter.PrePassLoop | src/date/compileDateFormatter.ts:113-131 | The `while (index !== -1)` loop, with the re-search of the corrected form, computes `PrePass`. |
| CompileDateFormatter.PrePassAllIdentity | src/date/compileDateFormatter.ts:111-132 | Custom keys that each map to themselves leave the format string unchanged. |
| CompileDateFormatter.CompiledOutput | src/date/compileDateFormatter.ts:106-316 | What a compiled formatter returns, built on the corrected pre-pass (see Left out). No contract of its own; specified by CompiledBody, SameAsRegular, CustomOutputRetokenised and SingleCharacter. |
| CompileDateFormatter.CompiledBody | src/date/compileDateFormatter.ts:106-316 | The generated body runs one pre-pass per custom key, in entry order, then the built-in scan with no custom keys. |
| CompileDateFormatter.SameAsRegular | src/date/compileDateFormatter.ts:35-317 | The conditions under which the compiled and regular formatters agree, described below the table. |
| CompileDateFormatter.CustomOutputRetokenised | src/date/compileDateFormatter.ts:106-316 | A custom output that spells a token (`Y`) is rendered as the year by the compiled formatter, but copied by the regular one. |
| CompileDateFormatter.SingleCharacter | src/date/compileDateFormatter.ts:136-316 | A one-character format string renders as the one piece at its start. |
| CompileDateFormatter.DateFormatCompiler.constructor | src/date/compileDateFormatter.ts:21 | The module-level cache starts empty, with capacity 100, and no formatter has been built. |
| CompileDateFormatter.DateFormatCompiler.Compile | src/date/compileDateFormatter.ts:28-33 | The cache's effect on a call, described below the table. |
| CompileDateFormatter.RecompileHits | src/date/compileDateFormatter.ts:30-33 | After compiling a format string, the cache maps it to the returned formatter, so the next compile is a hit. |
| FormatDate.ReplaceAll | src/date/formatDate.ts:253 | One global `result.replace(regex, value)`. No contract of its own; specified by ReplaceNoHit, ReplaceIdentity, ReplaceFirstHit and LetterTokenMisses. |
| FormatDate.ReplaceNoHit | src/date/formatDate.ts:193 | A global replace with no match anywhere returns its input. |
| FormatDate.ReplaceIdentity | src/date/formatDate.ts:205 | Replacing a token by itself changes nothing. |
| FormatDate.ReplaceFirstHit | src/date/formatDate.ts:253 | A global replace copies the text before the first match, emits the replacement and resumes after the match. |
| FormatDate.LetterTokenMisses | src/date/formatDate.ts:250-277 | A token starting with a letter never matches a text without ASCII letters. |
| FormatDate.BoundaryAlternativeSubsumed | src/date/formatDate.ts:252 | For tokens ending in a letter, `\btok\b\|tok(?![a-zA-Z0-9])` matches exactly where `tok(?![a-zA-Z0-9])` does. |
| FormatDate.PassesNoLetters | src/date/formatDate.ts:250-277 | A table of letter tokens leaves a text without letters unchanged. |
| FormatDate.PassesEmpty | src/date/formatDate.ts:250-277 | Replace passes leave the empty string empty. |
| FormatDate.JsRem | src/date/formatDate.ts:157-158 | `%` truncates toward zero: the sign of the result follows the dividend. |
| FormatDate.OrdinalSuffix | src/date/formatDate.ts:155-159 | The English ordinal suffix. No contract of its own; specified by OrdinalSuffixDays. |
| FormatDate.OrdinalSuffixDays | src/date/formatDate.ts:155-159 | Day 1, 21, 31 take `st`, day 2, 22 take `nd`, day 3, 23 take `rd`, and every other day takes `th`. |
| FormatDate.Weekday | src/date/formatDate.ts:50-59 | The weekday name `formatDate` writes. No contract of its own; specified by WeekdayIgnoresOverrides. |
| FormatDate.WeekdayIgnoresOverrides | src/date/formatDate.ts:50-59 | `formatDate`'s weekday ignores `weekdayNames`, and agrees with the regular lookup when there is none. |
| FormatDate.KeysStartWithLetters | src/date/formatDate.ts:212-271 | Every table key starts with an ASCII letter. |
| FormatDate.TableOrder | src/date/formatDate.ts:212-248 | The multi-character keys end in letters. A key is never listed before a longer key with the same start. |
| FormatDate.TimestampUnbounded | src/date/formatDate.ts:192-194 | `timestamp` is replaced even when letters surround it. |
| FormatDate.SingleTokenFlanked | src/date/formatDate.ts:273-277 | A one-letter token between non-alphanumeric characters is replaced. |
| FormatDate.SingleTokenInWord | src/date/formatDate.ts:273-277 | A one-letter token after an alphanumeric character is kept. |
| FormatDate.NoLettersUnchanged | src/date/formatDate.ts:188-279 | Without custom formatters, a format with no ASCII letter comes back unchanged. |
| FormatDate.StagesNoLetters | src/date/formatDate.ts:250-277 | The multi- and single-character stages keep a letter-free text. |
| FormatDate.EmptyFormat | src/date/formatDate.ts:188-279 | The empty format gives the empty string. |
| FormatDate.ReplacePasses | src/date/formatDate.ts:250-254 | The `forEach` over a table applies each entry's global replace in order. |
| FormatDate.FormatDateSpec | src/date/formatDate.ts:188-279 | What `formatDate` returns. No contract of its own; specified by NoLettersUnchanged, EmptyFormat, SingleTokenFlanked, SingleTokenInWord and FormatDate. |
| FormatDate.FormatDate | src/date/formatDate.ts:188-279 | The function body is the timestamp pass, the custom passes, the multi-character passes and the single-character passes, in that order. |
| ToFormattedNumber.LongestSpec | src/object/toFormattedNumber.ts:8 | The automaton's maximal munch is the largest end of an accepted run. |
| ToFormattedNumber.MatchAtLongest | src/object/toFormattedNumber.ts:8 | The regex engine's greedy backtracking at a start position gives the longest match of the pattern. |
| ToFormattedNumber.MatchAtSpec | src/object/toFormattedNumber.ts:8 | The match at a position is a non-empty word of the pattern and no longer word starts there. Without a match, no word starts there. |
| ToFormattedNumber.FirstMatchSpec | src/object/toFormattedNumber.ts:8 | `str.match` returns the leftmost start position of a word of the pattern. |
| ToFormattedNumber.ExtractNumber | src/object/toFormattedNumber.ts:6-10 | The number text a string yields. No contract of its own; specified by ExtractLeftmostLongest, ExtractNonEmptyIffDigit, ExtractFromText, ExtractSignsAndDotOnly and ExtractExponentWhole. |
| ToFormattedNumber.ExtractLeftmostLongest | src/object/toFormattedNumber.ts:6-10 | `extractNumberFromString` returns the leftmost, longest match, and `""` exactly when there is none. |
| ToFormattedNumber.AcceptedHasDigit | src/object/toFormattedNumber.ts:8 | Every word of the pattern holds a digit. |
| ToFormattedNumber.ExtractNonEmptyIffDigit | src/object/toFormattedNumber.ts:6-10 | A number is extracted exactly when the string holds an ASCII digit. |
| ToFormattedNumber.ExtractFromText | src/object/toFormattedNumber.ts:6-10 | `abc123.12aa456def` gives `123.12`. |
| ToFormattedNumber.ExtractSignsAndDotOnly | src/object/toFormattedNumber.ts:6-10 | `+-.` gives no number. |
| ToFormattedNumber.ExtractExponentWhole | src/object/toFormattedNumber.ts:8 | `1.23e3` is matched whole, exponent included. |
| ToFormattedNumber.ConvertToNumber | src/object/toFormattedNumber.ts:17-41 | The coercion of one value. No contract of its own; specified by ConvertString and CoercionCases. |
| ToFormattedNumber.ConvertString | src/object/toFormattedNumber.ts:21-24 | A string without a digit is NaN. Otherwise it is the parse of the extracted number, which is non-empty. |
| ToFormattedNumber.CoercionCases | src/object/toFormattedNumber.ts:17-41 | Numbers pass through, `true`/`false` become 1/0, and `null`, `undefined` and other types become NaN. |
| ToFormattedNumber.FormatSingleNumber | src/object/toFormattedNumber.ts:121-135 | The rounding and `NaN` display of one number. No contract of its own; specified by NanDisplayOnlyForNaN. |
| ToFormattedNumber.NanDisplayOnlyForNaN | src/object/toFormattedNumber.ts:121-135 | `nanDisplay` replaces NaN and nothing else. With `decimalPlaces: true` a number is kept as it is. |
| ToFormattedNumber.ProcessValue | src/object/toFormattedNumber.ts:142-152 | The result is an array exactly when the input is one. |
| ToFormattedNumber.ProcessKeepsShape | src/object/toFormattedNumber.ts:142-152 | Arrays, nested ones included, keep their length and nesting, and each scalar is coerced and formatted in place. |
| ToFormattedNumber.DefaultsOnlyCoerce | src/object/toFormattedNumber.ts:114 | With no options, a scalar is only coerced, and `[]` gives `[]`. |
| ToFormattedNumber.ToFormattedNumber | src/object/toFormattedNumber.ts:109-156 | The entry point. No contract of its own; specified by ProcessValue, ProcessKeepsShape and DefaultsOnlyCoerce. |
| ToFormattedNumberString.Resolve | src/object/toFormattedNumberString.ts:90-98 | The options with their defaults filled in. No contract of its own; specified by Defaults. |
| ToFormattedNumberString.Defaults | src/object/toFormattedNumberString.ts:90-98 | No options equals an empty options object. The defaults are all decimal places, `NaN`, `0`, no affixes and no pre-processor. |
| ToFormattedNumberString.ProcessValue | src/object/toFormattedNumberString.ts:199-229 | The result is an array exactly when the input is one. |
| ToFormattedNumberString.ProcessKeepsShape | src/object/toFormattedNumberString.ts:199-205 | Arrays keep their shape, and each element is rendered with itself as `original`. |
| ToFormattedNumberString.AddPrefixSuffix | src/object/toFormattedNumberString.ts:109-133 | The prefix and suffix around the formatted text. No contract of its own; specified by AffixesAround. |
| ToFormattedNumberString.AffixesAround | src/object/toFormattedNumberString.ts:109-133 | Every scalar renders as prefix, formatted text and suffix. The affix functions get the value, a number and that text. |
| ToFormattedNumberString.ProcessScalar | src/object/toFormattedNumberString.ts:206-228 | The text of one non-array value. No contract of its own; specified by AffixesAround, DigitFreeString, NaNRendersNanValue, NaNStringRendersNanValue and ZeroSkipsPreProcessor. |
| ToFormattedNumberString.DigitFreeString | src/object/toFormattedNumberString.ts:208-211 | A string without a digit renders `zeroValue`, with affix functions given 0. |
| ToFormattedNumberString.NaNRendersNanValue | src/object/toFormattedNumberString.ts:215-224 | A non-string that coerces to NaN renders `nanValue`, with affix functions given NaN. |
| ToFormattedNumberString.NaNStringRendersNanValue | src/object/toFormattedNumberString.ts:215-224 | A string with a digit whose number parses to NaN renders `nanValue`. |
| ToFormattedNumberString.ConvertNumberToString | src/object/toFormattedNumberString.ts:141-182 | The text of one coerced number. No contract of its own; specified by ZeroSkipsPreProcessor and PreProcessedZeroIsRendered. |
| ToFormattedNumberString.ZeroSkipsPreProcessor | src/object/toFormattedNumberString.ts:146-148 | A coerced zero renders `zeroValue` without consulting the pre-processor. |
| ToFormattedNumberString.Render | src/object/toFormattedNumberString.ts:156-178 | The text of a number after pre-processing. No contract of its own; specified by PreProcessedZeroIsRendered and DefaultRendering. |
| ToFormattedNumberString.PreProcessedZeroIsRendered | src/object/toFormattedNumberString.ts:146-178 | A non-zero number that the pre-processor maps to 0 is rendered as a number, not as `zeroValue`. |
| ToFormattedNumberString.DefaultRendering | src/object/toFormattedNumberString.ts:199-232 | Several cases under the defaults, described below the table. |
| Debounce.TimerDelay | src/function/debounce.ts:25-27 | The delay `setTimeout` actually waits: exactly 1 for a delay outside 1..2147483647, the delay itself inside that range. The clamp is Node.js `setTimeout` behaviour, not code of the source file. |
| Debounce.StartMachine | src/function/debounce.ts:14-16 | A fresh debounced function has no pending timer and has made no calls. |
| Debounce.CallStep | src/function/debounce.ts:18-28 | A call replaces any pending timer with exactly one new one carrying this call's arguments and `this`, and invokes nothing. |
| Debounce.CancelStep | src/function/debounce.ts:30-35 | `cancel` clears the pending timer and invokes nothing. |
| Debounce.TickStep | src/function/debounce.ts:25-27 | When the deadline is reached, the pending call is made once and cleared; otherwise nothing changes but the clock. |
| Debounce.NotBeforeDelay | src/function/debounce.ts:18-28 | Before the delay has passed, `fn` has not run. |
| Debounce.LastCallWins | src/function/debounce.ts:18-28 | Two calls in a row give one invocation, with the second call's arguments and `this`. |
| Debounce.FiresOnce | src/function/debounce.ts:25-27 | A timer fires once; later ticks bring no second invocation. |
| Debounce.CancelPreventsCall | src/function/debounce.ts:30-35 | After `cancel`, `fn` is never invoked. |
| Debounce.CallAfterCancel | src/function/debounce.ts:18-35 | A call after `cancel` schedules afresh. |
| Debounce.DelayDefaults | src/function/debounce.ts:12-14 | `delay` is the option's value, else 500. |
| Debounce.Debounced.constructor | src/function/debounce.ts:10-16 | The closure's initial state is that of `StartMachine`. |
| Debounce.Debounced.Call | src/function/debounce.ts:18-28 | The new state is `CallStep` of the old one. |
| Debounce.Debounced.Cancel | src/function/debounce.ts:30-35 | The new state is `CancelStep` of the old one. |
| Debounce.Debounced.Tick | src/function/debounce.ts:25-27 | The new state is `TickStep` of the old one. |
| BumpVersion.DigitPrefix | scripts/bump-version.js:23-25 | `parseInt` reads the longest digit prefix: the result is all digits, a prefix of the text, and the character after it, if any, is not a digit. |
| BumpVersion.FormatVersionReadsBack | scripts/bump-version.js:61-64 | What is written for natural fields and a prerelease of one piece parses back to exactly those fields. |
| BumpVersion.BumpResult | scripts/bump-version.js:21-67 | `bumpVersion` as written. No contract of its own; specified by BumpVersion and the bump-rule lemmas below. |
| BumpVersion.BumpVersion | scripts/bump-version.js:21-67 | The body computes `BumpResult`: the parse, the `switch` and the output. |
| BumpVersion.ParseInt | scripts/bump-version.js:23-25 | `parseInt` of one field. No contract of its own; specified by DigitPrefix and ParseIntRoundTrip. |
| BumpVersion.ParseIntRoundTrip | scripts/bump-version.js:23-25 | `parseInt` reads back the decimal text of a natural number. |
| BumpVersion.SplitThree | scripts/bump-version.js:22 | `a.b.c` splits into its three parts when no part holds a dot. |
| BumpVersion.ParseVersion | scripts/bump-version.js:22-26 | The parse as written. No contract of its own; specified by SplitThree, ParseShape, ParseVersionString, ParseDropsCounter and ShortVersionThrows. |
| BumpVersion.ParseShape | scripts/bump-version.js:22-26 | For `a.b.c-pre` followed by `.rest`, parsing keeps `pre` only up to its first dot. |
| BumpVersion.ParseVersionString | scripts/bump-version.js:22-26 | A version `M.m.p`, or `M.m.p-id` with a one-piece identifier, reads back as its fields. |
| BumpVersion.ParseDropsCounter | scripts/bump-version.js:22-26 | `M.m.p-id.N` is read with prerelease `id`; the counter is lost. |
| BumpVersion.FormatNaturals | scripts/bump-version.js:61-64 | Fields that are naturals are written back as the version string. |
| BumpVersion.Bump | scripts/bump-version.js:28-59 | The `switch` on the bump type. No contract of its own; specified by MajorBump, MinorBump, PatchBump, PrereleaseStarts and UnknownTypeThrows. |
| BumpVersion.MajorBump | scripts/bump-version.js:29-34 | For any text that parses with a natural major, `major` gives `(M+1).0.0` and drops the prerelease, dotted prereleases included. |
| BumpVersion.MinorBump | scripts/bump-version.js:35-39 | For any text that parses with natural major and minor, `minor` gives `M.(m+1).0` and drops the prerelease. |
| BumpVersion.PatchBump | scripts/bump-version.js:40-43 | For any text that parses with natural fields, `patch` gives `M.m.(p+1)` and drops the prerelease. |
| BumpVersion.PrereleaseStarts | scripts/bump-version.js:44-56 | For any text that parses with natural fields and no prerelease, or one whose first piece is not `id`, the prerelease becomes `id.0`. |
| BumpVersion.ReleaseBumpsCanonical | scripts/bump-version.js:29-43 | On `M.m.p` and `M.m.p-id` the three release bumps give the next major, minor and patch release. |
| BumpVersion.ReleaseBumpsAfterCounter | scripts/bump-version.js:29-43 | On `M.m.p-id.N`, the text a prerelease bump writes, the three release bumps give the next release. |
| BumpVersion.PrereleaseStartsCanonical | scripts/bump-version.js:44-56 | On `M.m.p` and `M.m.p-other`, a prerelease bump gives `M.m.p-id.0`. |
| BumpVersion.NextPrerelease | scripts/bump-version.js:44-56 | The next prerelease text. No contract of its own; specified by PrereleaseStarts, NextWithoutCounter and NextWithCounter. |
| BumpVersion.NextWithoutCounter | scripts/bump-version.js:46-49 | A prerelease that is just the identifier counts up to `id.1`. |
| BumpVersion.NextWithCounter | scripts/bump-version.js:46-49 | A prerelease `id.N` counts up to `id.(N+1)`. |
| BumpVersion.UnknownTypeThrows | scripts/bump-version.js:57-58 | An unknown bump type throws `不支持的版本类型: <type>`. |
| BumpVersion.ShortVersionThrows | scripts/bump-version.js:22-25 | A version with one or two dot-separated parts, such as `1` or `1.2`, throws whatever the bump type, because `parts[2]` is undefined. |
| BumpVersion.PrereleaseCounterStuck | scripts/bump-version.js:22-26 | As written, `M.m.p-id.N` bumps to `M.m.p-id.1` whatever `N` is. |
| BumpVersion.ParseVersionCorrected | scripts/bump-version.js:22-26 | The corrected parse (see Findings). No contract of its own; specified by ParseCorrectedKeepsCounter and PrereleaseCounterAdvances. |
| BumpVersion.ParseCorrectedKeepsCounter | scripts/bump-version.js:22-26 | The corrected reading keeps the whole prerelease `id.N`. |
| BumpVersion.PrereleaseCounterAdvances | scripts/bump-version.js:44-56 | Corrected, `M.m.p-id.N` bumps to `M.m.p-id.(N+1)`. |

Rows whose contracts are too long for the table:

- **RegularDateFormatter.LocalizedWeekday.** An array override gives the name for every language. A record override applies when it has the language. Otherwise the name comes from the language's built-in table, else from `zh`.
- **RegularDateFormatter.PieceAtRules.**
  - There is a custom piece exactly when some custom key fits, and it is the first fitting key in the sorted order.
  - Otherwise the piece is a built-in token, when one is recognised.
  - Otherwise it is a literal character.
- **CompileDateFormatter.SameAsRegular.** The compiled and regular formatters give the same output under three conditions:
  - there are no custom formatters;
  - the regular weekday lookup gives a non-empty name;
  - `getTime()` equals the UTC reading of the local fields.
- **CompileDateFormatter.DateFormatCompiler.Compile.**
  - A cache hit returns the cached formatter, refreshes its key and builds nothing.
  - A miss builds one new formatter and stores it with the cache's `set`.
  - Either way the cache holds only formatters built from their own key.
- **ToFormattedNumberString.DefaultRendering.** Under the defaults:
  - a number other than 0 is its `toString`;
  - `0` gives `"0"`;
  - `null` gives `"NaN"`;
  - `"abc"` gives `"0"`;
  - `[]` gives `[]`.

## Left out

**Host facilities and I/O**
- The `Date` object, `safeParseDate`, time zones, `getWeekNumber`, the day-of-year computation and `toLocaleString` month and weekday names are not modelled. Their results are the fields of `DateParts` (chosen by the caller, within their ranges) or function fields of the options, because they are host calendar arithmetic.
- `Number(str)`, `toFixed`, `toString`, `toLocaleString` and the rounding of `Number(num.toFixed(d))` are not modelled. They are parameters (`NumberOps`), because they are the host's floating-point formatting. Floating point itself is not modelled, so -0 is not told apart from 0 and results are exact reals.
- Real timers are replaced by an explicit clock advanced by `Tick`. There is no concurrency.
- `main()` of `scripts/bump-version.js` is not modelled, because it only reads and writes `package.json` and the console.

**Code generation**
- The code generation of `compileDateFormatter` is not modelled: `new Function` and the format string spliced into a string literal. The generated body is modelled directly as `CompiledBody`.
  - A format string containing `"` or `\` would change the generated code. That case is not modelled.
  - A built formatter is identified by the format string and a build counter, not by function identity.

**Semantic gaps in the models**
- Replacement strings are inserted literally. `String.prototype.replace` would expand `$&`, `$1` and the like, and that is not modelled.
- FormatDate.TimestampUnbounded: states the replace on one flanked occurrence only. The general global replace is `ReplaceAll`, and `timestamp` is the first pass.
- FormatDate.SingleTokenFlanked: the concrete default `YYYY-MM-DD HH:mm:ss` through all passes is not stated as one lemma. It is covered by the per-token lemmas.
- CompileDateFormatter.PrePassAsWritten: bounded by a `fuel` count. It is used only to exhibit the finding below.
- CompileDateFormatter.CompiledBody: uses the corrected pre-pass, the corrected half of the first finding. It can differ from the source whenever an inserted text ends in a non-alphanumeric character or is empty. The source then replaces the text after the insertion as if it were the key (with an empty insertion, it deletes it), or never terminates when that point is the end of the string. The as-written loop is PrePassAsWritten.
- CompileDateFormatter.CompiledOutput: built on the corrected pre-pass, so it promises what the intended code returns. Where an inserted text ends in a non-alphanumeric character or is empty, it does not promise the source's output: the overwritten or deleted characters, or non-termination (AsWrittenOverwrites, AsWrittenDiverges, AsWrittenEmptyDeletes, AsWrittenEmptyDiverges).
- Cache.LRUCache.Get: a stored `undefined` counts as absent in the source (the `value !== undefined` test). The model has no `undefined` values, so that case is not modelled.
- RegularDateFormatter.SortByLength: the ensures state sortedness and permutation. Stability, which the insertion order also gives, is not stated.
- Empty custom keys are excluded by the `CustomKey` type. With an empty key the source's `indexOf` loop and regular expressions behave differently, and that case is not modelled.

**Inputs the models do not take**
- `decimalPlaces` outside 0..100 is not modelled (`toFixed` throws there). A fractional `decimalPlaces` is not modelled either. `false` is not modelled separately; it behaves as 0 and is represented as `Fixed(0)`.
- BumpVersion.ParseInt: leading whitespace, `0x` prefixes and precision above 2^53 are not modelled. The model reads signed decimal digits with unbounded integers.
- `debounce(fn, null)` throws in the source, and that case is not modelled. `fn` throwing or calling the debounced function re-entrantly is not modelled either.
- Debounce: the source does not set `timer` back to `null` when a timer fires. Clearing a fired timer has no effect, so the model clears the slot on firing.

**Where the tests or the documentation disagree with the code**
The model follows the code:
- The tests expect `toFormattedNumber("abc")` to be 0, where the code gives NaN.
- The tests pass `nanValue` to `toFormattedNumber`, which reads only `nanDisplay`.
- The documentation of `toFormattedNumberString` (src/object/toFormattedNumberString.ts:41-42) and its tests accept `useLocalizedFormat: true` as an older name for `localized`. The code never reads `useLocalizedFormat`, so the model ignores it.
- The tests call `debounce(fn, 100)` with a number. The destructuring finds no `delay` on it, so the delay is 500.

## Findings

| source | as written | input that shows it | evidently intended | confidence | as-written member | corrected member |
|---|---|---|---|---|---|---|
| src/date/compileDateFormatter.ts:126 | After a replacement, `index` is set to the end of the inserted text. The next turn reads that position as if `indexOf` had found the key there, so when the inserted text is empty or ends in a non-alphanumeric character it replaces whatever text is there (an empty insertion deletes it). When that position is also the end of the string, the loop never ends. | `K-.z` with custom key `K` giving `[` becomes `[[.z`, and with `K` giving `""` becomes `.z`. `K` giving `-` or `""` does not terminate. | Search again with `indexOf(token, before.length + formatted.length)`, which gives `[-.z`, `-.z`, `-` and `""` | not executed | CompileDateFormatter.AsWrittenOverwrites | CompileDateFormatter.PrePassLoop |
| scripts/bump-version.js:22-26 | The version is split on every `.` first, so the prerelease keeps only the text up to its first dot. The counter of `beta.5` is lost, and every `prerelease` bump of `M.m.p-beta.N` gives `M.m.p-beta.1`. | `bumpVersion("1.2.3-beta.5", "prerelease", "beta")` gives `1.2.3-beta.1` | The prerelease is everything after the first `-`, so the result is `1.2.3-beta.6` | not executed | BumpVersion.PrereleaseCounterStuck | BumpVersion.PrereleaseCounterAdvances |
