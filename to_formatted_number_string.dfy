/**
 * `toFormattedNumberString` of src/object/toFormattedNumberString.ts:
 * every scalar of the input (arrays are mapped element by element) is
 * coerced through `toFormattedNumber` and rendered as text between a
 * prefix and a suffix. The branches, in order: a string without a digit
 * renders `zeroValue`; a NaN renders `nanValue`; an exact zero renders
 * `zeroValue` before the pre-processor is consulted; any other number is
 * pre-processed and rendered by `toString`, `toFixed` or
 * `toLocaleString`.
 */
module ToFormattedNumberString {
  import opened Wrappers
  import opened Text
  import opened ToFormattedNumber

  /** A prefix or suffix: fixed text, or a function of `(original, converted, formatted)`. */
  datatype Affix = Literal(text: string) | Computed(f: (Value, Number, string) -> string)

  /** The options; a field that is `None` is `undefined`. */
  datatype StringOptions = StringOptions(
    decimalPlaces: Option<Places>,
    nanValue: Option<string>,
    zeroValue: Option<string>,
    localized: bool,
    preProcessor: Option<(Value, Number) -> Number>,
    prefix: Option<Affix>,
    suffix: Option<Affix>
  )

  /** The options after the defaults of the destructuring are applied. */
  datatype Settings = Settings(
    places: Places,
    nanValue: string,
    zeroValue: string,
    localized: bool,
    preProcessor: Option<(Value, Number) -> Number>,
    prefix: Affix,
    suffix: Affix
  )

  function OrElse<T>(o: Option<T>, default: T): T
  {
    if o.Some? then o.value else default
  }

  /** `options || {}` destructured with its defaults. */
  function Resolve(options: Option<StringOptions>): (st: Settings)
  {
    match options
    case None => Settings(AllPlaces, "NaN", "0", false, None, Literal(""), Literal(""))
    case Some(o) =>
      Settings(OrElse(o.decimalPlaces, AllPlaces), OrElse(o.nanValue, "NaN"), OrElse(o.zeroValue, "0"),
               o.localized, o.preProcessor, OrElse(o.prefix, Literal("")), OrElse(o.suffix, Literal("")))
  }

  /** The defaults: all decimal places, `"NaN"`, `"0"`, no affixes. */
  lemma Defaults()
    ensures Resolve(None) == Resolve(Some(StringOptions(None, None, None, false, None, None, None)))
    ensures var st := Resolve(None);
            st.places == AllPlaces && st.nanValue == "NaN" && st.zeroValue == "0" &&
            st.prefix == Literal("") && st.suffix == Literal("") && !st.localized && st.preProcessor.None?
  {
  }

  /** The text an affix contributes. */
  function AffixText(a: Affix, original: Value, converted: Number, formatted: string): string
  {
    match a
    case Literal(t) => t
    case Computed(f) => f(original, converted, formatted)
  }

  /** `addPrefixSuffix`. */
  function AddPrefixSuffix(st: Settings, formatted: string, converted: Number, original: Value): string
  {
    AffixText(st.prefix, original, converted, formatted) + formatted + AffixText(st.suffix, original, converted, formatted)
  }

  /** The number rendered as text, by the `localized` and `decimalPlaces` options. */
  function Render(st: Settings, num: Number, ops: NumberOps): string
  {
    match (st.localized, st.places)
    case (true, AllPlaces) => ops.toLocaleString(num)
    case (true, Fixed(d)) => ops.toLocaleFixed(num, d)
    case (false, AllPlaces) => ops.toString(num)
    case (false, Fixed(d)) => ops.toFixed(num, d)
  }

  /** `convertNumberToString`. */
  function ConvertNumberToString(st: Settings, converted: Number, original: Value, ops: NumberOps): string
  {
    if converted == Finite(0.0) then AddPrefixSuffix(st, st.zeroValue, converted, original)
    else
      var processed := if st.preProcessor.Some? then st.preProcessor.value(original, converted) else converted;
      AddPrefixSuffix(st, Render(st, processed, ops), processed, original)
  }

  /** The model of the result: text, or an array of results. */
  datatype StrTree = Formatted(text: string) | FormattedArray(children: seq<StrTree>)

  /** `toFormattedNumber(value, { decimalPlaces })` for a value that is not an array. */
  function Coerced(st: Settings, v: Value, ops: NumberOps): Number
    requires !v.Arr?
  {
    ToFormattedNumber.ToFormattedNumber(v, Some(NumberOptions(Some(st.places), None)), ops).num
  }

  /** The text for one value that is not an array; `v` is also its `original`. */
  function ProcessScalar(st: Settings, v: Value, ops: NumberOps): string
    requires !v.Arr?
  {
    if v.Str? && !HasDigit(v.s) then AddPrefixSuffix(st, st.zeroValue, Finite(0.0), v)
    else
      var num := Coerced(st, v, ops);
      if num.NaN? then AddPrefixSuffix(st, st.nanValue, num, v)
      else ConvertNumberToString(st, num, v, ops)
  }

  /** `processValue`: each element of an array is processed with itself as `original`. */
  function ProcessValue(st: Settings, v: Value, ops: NumberOps): (r: StrTree)
    ensures v.Arr? <==> r.FormattedArray?
    decreases v
  {
    match v
    case Arr(items) => FormattedArray(seq(|items|, k requires 0 <= k < |items| => ProcessValue(st, items[k], ops)))
    case _ => Formatted(ProcessScalar(st, v, ops))
  }

  /** `toFormattedNumberString(input, options)`. */
  function ToFormattedNumberString(input: Value, options: Option<StringOptions>, ops: NumberOps): StrTree
  {
    ProcessValue(Resolve(options), input, ops)
  }

  // ---------------------------------------------------------------------
  // Properties
  // ---------------------------------------------------------------------

  /** `t` has the nesting of `v`, and every leaf of `t` is `f` of the value at the same place. */
  predicate MapsLeaves(v: Value, t: StrTree, f: Value -> string)
    decreases v
  {
    match v
    case Arr(items) =>
      t.FormattedArray? && |t.children| == |items| &&
      forall k :: 0 <= k < |items| ==> MapsLeaves(items[k], t.children[k], f)
    case _ => t.Formatted? && t.text == f(v)
  }

  /** Arrays keep their shape; each scalar is rendered with itself as its original. */
  lemma {:induction false} ProcessKeepsShape(st: Settings, v: Value, ops: NumberOps)
    ensures MapsLeaves(v, ProcessValue(st, v, ops), (x: Value) => if x.Arr? then "" else ProcessScalar(st, x, ops))
    decreases v
  {
    if v.Arr? {
      forall k | 0 <= k < |v.items| {
        ProcessKeepsShape(st, v.items[k], ops);
      }
    }
  }

  /**
   * Every scalar renders as the prefix, the formatted text and the
   * suffix, with the affix functions given the value itself, the
   * converted number and the formatted text.
   */
  lemma AffixesAround(st: Settings, v: Value, ops: NumberOps)
    requires !v.Arr?
    ensures exists converted: Number, formatted: string ::
              ProcessScalar(st, v, ops) ==
              AffixText(st.prefix, v, converted, formatted) + formatted + AffixText(st.suffix, v, converted, formatted)
  {
    if v.Str? && !HasDigit(v.s) {
      assert ProcessScalar(st, v, ops) == AddPrefixSuffix(st, st.zeroValue, Finite(0.0), v);
    } else {
      var num := Coerced(st, v, ops);
      if num.NaN? {
        assert ProcessScalar(st, v, ops) == AddPrefixSuffix(st, st.nanValue, num, v);
      } else if num == Finite(0.0) {
        assert ProcessScalar(st, v, ops) == AddPrefixSuffix(st, st.zeroValue, num, v);
      } else {
        var processed := if st.preProcessor.Some? then st.preProcessor.value(v, num) else num;
        assert ProcessScalar(st, v, ops) == AddPrefixSuffix(st, Render(st, processed, ops), processed, v);
      }
    }
  }

  /** A string without a digit renders `zeroValue`, and the affix functions see 0. */
  lemma DigitFreeString(st: Settings, s: string, ops: NumberOps)
    requires !HasDigit(s)
    ensures ProcessScalar(st, Str(s), ops) ==
            AffixText(st.prefix, Str(s), Finite(0.0), st.zeroValue) + st.zeroValue +
            AffixText(st.suffix, Str(s), Finite(0.0), st.zeroValue)
  {
  }

  /** A value that coerces to NaN renders `nanValue`, and the affix functions see NaN. */
  lemma NaNRendersNanValue(st: Settings, v: Value, ops: NumberOps)
    requires !v.Arr? && !v.Str? && ConvertToNumber(v, ops.parse).NaN?
    ensures ProcessScalar(st, v, ops) ==
            AffixText(st.prefix, v, NaN, st.nanValue) + st.nanValue + AffixText(st.suffix, v, NaN, st.nanValue)
  {
  }

  /** A string with a digit whose number is NaN also renders `nanValue`. */
  lemma NaNStringRendersNanValue(st: Settings, s: string, ops: NumberOps)
    requires HasDigit(s) && ops.parse(ExtractNumber(s)).NaN?
    ensures ProcessScalar(st, Str(s), ops) ==
            AffixText(st.prefix, Str(s), NaN, st.nanValue) + st.nanValue + AffixText(st.suffix, Str(s), NaN, st.nanValue)
  {
    ConvertString(s, ops.parse);
  }

  /**
   * A coerced zero renders `zeroValue` and the pre-processor is not
   * consulted: any other pre-processor gives the same text.
   */
  lemma ZeroSkipsPreProcessor(st: Settings, v: Value, ops: NumberOps, other: Option<(Value, Number) -> Number>)
    requires !v.Arr? && !(v.Str? && !HasDigit(v.s)) && Coerced(st, v, ops) == Finite(0.0)
    ensures ProcessScalar(st, v, ops) ==
            AffixText(st.prefix, v, Finite(0.0), st.zeroValue) + st.zeroValue +
            AffixText(st.suffix, v, Finite(0.0), st.zeroValue)
    ensures ProcessScalar(st.(preProcessor := other), v, ops) == ProcessScalar(st, v, ops)
  {
  }

  /**
   * The zero test comes before the pre-processor: a non-zero number the
   * pre-processor maps to 0 is rendered as a number, not as `zeroValue`.
   */
  lemma PreProcessedZeroIsRendered(st: Settings, v: Value, ops: NumberOps)
    requires !v.Arr? && !(v.Str? && !HasDigit(v.s))
    requires var num := Coerced(st, v, ops);
             !num.NaN? && num != Finite(0.0) && st.preProcessor.Some? && st.preProcessor.value(v, num) == Finite(0.0)
    ensures var z := Render(st, Finite(0.0), ops);
            ProcessScalar(st, v, ops) == AffixText(st.prefix, v, Finite(0.0), z) + z + AffixText(st.suffix, v, Finite(0.0), z)
  {
  }

  /** With the defaults a number other than NaN and 0 is its `toString`, with no affixes. */
  lemma DefaultRendering(x: real, ops: NumberOps)
    requires x != 0.0
    ensures ToFormattedNumberString(Num(Finite(x)), None, ops) == Formatted(ops.toString(Finite(x)))
    ensures ToFormattedNumberString(Num(Finite(0.0)), None, ops) == Formatted("0")
    ensures ToFormattedNumberString(Null, None, ops) == Formatted("NaN")
    ensures ToFormattedNumberString(Str("abc"), None, ops) == Formatted("0")
    ensures ToFormattedNumberString(Arr([]), None, ops) == FormattedArray([])
  {
    assert !HasDigit("abc") by {
      forall i | 0 <= i < 3 ensures !IsDigit("abc"[i]) { }
    }
  }
}
