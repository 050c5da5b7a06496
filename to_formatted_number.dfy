/**
 * `toFormattedNumber` of src/object/toFormattedNumber.ts: coerce any
 * value to a number, then apply the NaN display and the rounding; arrays
 * are mapped element by element, keeping their nesting.
 *
 * The number found in a string is the first match of the regular
 * expression `[-+]?\d*\.?\d+(?:[eE][-+]?\d+)?`. `MatchAt` is what the
 * backtracking matcher returns at one start position; the automaton
 * below is an independent definition of the pattern's language, and the
 * lemmas show that the match is the leftmost one and the longest one
 * starting there.
 *
 * JavaScript numbers are `Number`: NaN, the two infinities and the
 * finite values as reals. Turning text into a number (`Number(str)`) and
 * the renderings (`toFixed`, `toString`, `toLocaleString`) are host
 * operations, passed in as the fields of `NumberOps`.
 */
module ToFormattedNumber {
  import opened Wrappers
  import opened Text

  // ---------------------------------------------------------------------
  // Values and numbers
  // ---------------------------------------------------------------------

  /** A JavaScript number. */
  datatype Number = NaN | Finite(value: real) | PosInfinity | NegInfinity

  /**
   * The input, by `typeof` and `Array.isArray`: `Other` stands for
   * functions, symbols, bigints and objects that are not arrays.
   */
  datatype Value = Num(n: Number) | Str(s: string) | Bool(b: bool) | Null | Undefined | Other | Arr(items: seq<Value>)

  /** The result: a number, or an array of results. */
  datatype NumTree = Leaf(num: Number) | Node(children: seq<NumTree>)

  /** The number of fraction digits `toFixed` accepts. */
  type FractionDigits = n: nat | n <= 100

  /** `decimalPlaces`: `true` or a digit count. */
  datatype Places = AllPlaces | Fixed(digits: FractionDigits)

  /** The host operations on numbers. */
  datatype NumberOps = NumberOps(
    parse: string -> Number,                          // Number(str)
    toFixed: (Number, FractionDigits) -> string,      // num.toFixed(d)
    toString: Number -> string,                       // num.toString()
    toLocaleString: Number -> string,                 // num.toLocaleString()
    toLocaleFixed: (Number, FractionDigits) -> string // toLocaleString with d fraction digits
  )

  // ---------------------------------------------------------------------
  // The language of the pattern, as an automaton
  // ---------------------------------------------------------------------

  predicate IsSign(c: char) { c == '-' || c == '+' }

  predicate IsExpMark(c: char) { c == 'e' || c == 'E' }

  /** Where the automaton is in `[-+]?\d*\.?\d+(?:[eE][-+]?\d+)?`. */
  datatype State = Start | Signed | IntDigits | Dot | FracDigits | Exp | ExpSigned | ExpDigits

  /** One transition; `None` is the dead state. */
  function Delta(q: State, c: char): Option<State>
  {
    match q
    case Start =>
      if IsSign(c) then Some(Signed) else if IsDigit(c) then Some(IntDigits) else if c == '.' then Some(Dot) else None
    case Signed =>
      if IsDigit(c) then Some(IntDigits) else if c == '.' then Some(Dot) else None
    case IntDigits =>
      if IsDigit(c) then Some(IntDigits) else if c == '.' then Some(Dot) else if IsExpMark(c) then Some(Exp) else None
    case Dot =>
      if IsDigit(c) then Some(FracDigits) else None
    case FracDigits =>
      if IsDigit(c) then Some(FracDigits) else if IsExpMark(c) then Some(Exp) else None
    case Exp =>
      if IsSign(c) then Some(ExpSigned) else if IsDigit(c) then Some(ExpDigits) else None
    case ExpSigned =>
      if IsDigit(c) then Some(ExpDigits) else None
    case ExpDigits =>
      if IsDigit(c) then Some(ExpDigits) else None
  }

  /** The accepting states: a digit has just been read at the end of a number. */
  predicate Final(q: State) { q.IntDigits? || q.FracDigits? || q.ExpDigits? }

  /** The state after reading `s[i..e]` from `q`. */
  function RunFrom(s: string, q: State, i: nat, e: nat): Option<State>
    requires i <= e <= |s|
    decreases e - i
  {
    if i == e then Some(q)
    else match Delta(q, s[i])
      case None => None
      case Some(q') => RunFrom(s, q', i + 1, e)
  }

  predicate AcceptsFrom(s: string, q: State, i: nat, e: nat)
    requires i <= e <= |s|
  {
    var r := RunFrom(s, q, i, e); r.Some? && Final(r.value)
  }

  /** `s[i..e]` is a word of the pattern. */
  predicate Accepts(s: string, i: nat, e: nat)
    requires i <= e <= |s|
  {
    AcceptsFrom(s, Start, i, e)
  }

  /** The end of the longest accepted run from `q` at `p` (maximal munch). */
  function Longest(s: string, q: State, p: nat): Option<nat>
    requires p <= |s|
    decreases |s| - p
  {
    var later := if p < |s| && Delta(q, s[p]).Some? then Longest(s, Delta(q, s[p]).value, p + 1) else None;
    if later.Some? then later else if Final(q) then Some(p) else None
  }

  /** `Longest` is the largest end of an accepted run. */
  lemma {:induction false} LongestSpec(s: string, q: State, p: nat)
    requires p <= |s|
    ensures Longest(s, q, p).Some? ==> p <= Longest(s, q, p).value <= |s| && AcceptsFrom(s, q, p, Longest(s, q, p).value)
    ensures forall e :: p <= e <= |s| && AcceptsFrom(s, q, p, e) ==> Longest(s, q, p).Some? && e <= Longest(s, q, p).value
    decreases |s| - p
  {
    if p < |s| && Delta(q, s[p]).Some? {
      var q' := Delta(q, s[p]).value;
      LongestSpec(s, q', p + 1);
      forall e | p < e <= |s| && AcceptsFrom(s, q, p, e)
        ensures AcceptsFrom(s, q', p + 1, e)
      {
        assert RunFrom(s, q, p, e) == RunFrom(s, q', p + 1, e);
      }
    } else {
      forall e | p < e <= |s|
        ensures RunFrom(s, q, p, e).None?
      {
      }
    }
  }

  // ---------------------------------------------------------------------
  // What the backtracking matcher returns
  // ---------------------------------------------------------------------

  /** The number of digits from `p` on. */
  function DigitRun(s: string, p: nat): (n: nat)
    requires p <= |s|
    ensures p + n <= |s|
    decreases |s| - p
  {
    if p < |s| && IsDigit(s[p]) then 1 + DigitRun(s, p + 1) else 0
  }

  /**
   * The length of `(?:[eE][-+]?\d+)?` at `q`: the group is taken when it
   * matches (greedy), and the sign only when a digit follows it.
   */
  function ExpLen(s: string, q: nat): nat
    requires q <= |s|
  {
    if q < |s| && IsExpMark(s[q]) then
      if q + 1 < |s| && IsDigit(s[q + 1]) then 1 + DigitRun(s, q + 1)
      else if q + 2 < |s| && IsSign(s[q + 1]) && IsDigit(s[q + 2]) then 2 + DigitRun(s, q + 2)
      else 0
    else 0
  }

  /** The end of `\d+(?:[eE][-+]?\d+)?` at `p`, where `p` starts a digit run. */
  function FracEnd(s: string, p: nat): nat
    requires p <= |s|
  {
    var r := p + DigitRun(s, p); r + ExpLen(s, r)
  }

  /**
   * The end of `\d*\.?\d+(?:[eE][-+]?\d+)?` at `p`. `\d*` first takes the
   * whole digit run; when a `.` and a digit follow, the match goes on
   * through the fraction. Otherwise the matcher gives back the last digit
   * of the run to `\d+`, so the match is the run and the exponent after
   * it; with no digit at `p` there is no match.
   */
  function BodyEnd(s: string, p: nat): Option<nat>
    requires p <= |s|
  {
    var q := p + DigitRun(s, p);
    if q < |s| && s[q] == '.' && DigitRun(s, q + 1) > 0 then Some(FracEnd(s, q + 1))
    else if q > p then Some(q + ExpLen(s, q))
    else None
  }

  /**
   * The match at `i`, if any. A sign at `i` is taken: without it the
   * body would have to start with that sign, which it cannot.
   */
  function MatchAt(s: string, i: nat): Option<nat>
    requires i <= |s|
  {
    if i < |s| && IsSign(s[i]) then BodyEnd(s, i + 1) else BodyEnd(s, i)
  }

  /** `str.match(regex)`: the first start position with a match, and the match's end. */
  function FirstMatch(s: string, i: nat): Option<(nat, nat)>
    requires i <= |s|
    decreases |s| - i
  {
    if i == |s| then None
    else match MatchAt(s, i)
      case Some(e) => Some((i, e))
      case None => FirstMatch(s, i + 1)
  }

  /** `extractNumberFromString`: the matched text, or `""`. */
  function ExtractNumber(s: string): string
  {
    match FirstMatch(s, 0)
    case Some((i, e)) => if i <= e <= |s| then s[i..e] else ""
    case None => ""
  }

  // ---------------------------------------------------------------------
  // The matcher agrees with the automaton
  // ---------------------------------------------------------------------

  /** One transition of the maximal munch. */
  lemma LongestStep(s: string, q: State, p: nat, q': State)
    requires p < |s| && Delta(q, s[p]) == Some(q')
    ensures Longest(s, q, p) ==
            if Longest(s, q', p + 1).Some? then Longest(s, q', p + 1) else if Final(q) then Some(p) else None
  {
  }

  /** The maximal munch where the automaton dies or the text ends. */
  lemma LongestStop(s: string, q: State, p: nat)
    requires p <= |s| && (p == |s| || Delta(q, s[p]).None?)
    ensures Longest(s, q, p) == if Final(q) then Some(p) else None
  {
  }

  lemma {:induction false} ExpDigitsLongest(s: string, p: nat)
    requires p <= |s|
    ensures Longest(s, ExpDigits, p) == Some(p + DigitRun(s, p))
    decreases |s| - p
  {
    if p < |s| && IsDigit(s[p]) {
      LongestStep(s, ExpDigits, p, ExpDigits);
      ExpDigitsLongest(s, p + 1);
    } else {
      LongestStop(s, ExpDigits, p);
    }
  }

  /** After an exponent mark at `q`, the automaton ends where `ExpLen` says. */
  lemma ExpLongest(s: string, q: nat)
    requires q < |s| && IsExpMark(s[q])
    ensures Longest(s, Exp, q + 1) == if ExpLen(s, q) > 0 then Some(q + ExpLen(s, q)) else None
  {
    var p := q + 1;
    if p < |s| && IsDigit(s[p]) {
      LongestStep(s, Exp, p, ExpDigits);
      ExpDigitsLongest(s, p + 1);
    } else if p < |s| && IsSign(s[p]) {
      LongestStep(s, Exp, p, ExpSigned);
      if p + 1 < |s| && IsDigit(s[p + 1]) {
        LongestStep(s, ExpSigned, p + 1, ExpDigits);
        ExpDigitsLongest(s, p + 2);
      } else {
        LongestStop(s, ExpSigned, p + 1);
      }
    } else {
      LongestStop(s, Exp, p);
    }
  }

  lemma {:induction false} FracLongest(s: string, p: nat)
    requires p <= |s|
    ensures Longest(s, FracDigits, p) == Some(FracEnd(s, p))
    decreases |s| - p
  {
    if p < |s| && IsDigit(s[p]) {
      LongestStep(s, FracDigits, p, FracDigits);
      FracLongest(s, p + 1);
    } else if p < |s| && IsExpMark(s[p]) {
      LongestStep(s, FracDigits, p, Exp);
      ExpLongest(s, p);
    } else {
      LongestStop(s, FracDigits, p);
    }
  }

  /** Where the integer digits end at `q`: the fraction, or the exponent. */
  function IntTail(s: string, q: nat): nat
    requires q <= |s|
  {
    if q < |s| && s[q] == '.' && DigitRun(s, q + 1) > 0 then FracEnd(s, q + 1) else q + ExpLen(s, q)
  }

  /** A `.` at `p`: the fraction if a digit follows, else nothing. */
  lemma DotLongest(s: string, p: nat)
    requires p < |s| && s[p] == '.'
    ensures Longest(s, Dot, p + 1) == if DigitRun(s, p + 1) > 0 then Some(FracEnd(s, p + 1)) else None
  {
    if p + 1 < |s| && IsDigit(s[p + 1]) {
      LongestStep(s, Dot, p + 1, FracDigits);
      FracLongest(s, p + 2);
    } else {
      LongestStop(s, Dot, p + 1);
    }
  }

  lemma {:induction false} IntLongest(s: string, p: nat)
    requires p <= |s|
    ensures Longest(s, IntDigits, p) == Some(IntTail(s, p + DigitRun(s, p)))
    decreases |s| - p
  {
    if p < |s| && IsDigit(s[p]) {
      LongestStep(s, IntDigits, p, IntDigits);
      IntLongest(s, p + 1);
    } else if p < |s| && s[p] == '.' {
      LongestStep(s, IntDigits, p, Dot);
      DotLongest(s, p);
    } else if p < |s| && IsExpMark(s[p]) {
      LongestStep(s, IntDigits, p, Exp);
      ExpLongest(s, p);
    } else {
      LongestStop(s, IntDigits, p);
    }
  }

  /** The body of the pattern: the automaton after the optional sign. */
  lemma BodyLongest(s: string, p: nat)
    requires p <= |s|
    ensures BodyEnd(s, p) == Longest(s, Signed, p)
  {
    if p < |s| && IsDigit(s[p]) {
      LongestStep(s, Signed, p, IntDigits);
      IntLongest(s, p + 1);
      assert p + DigitRun(s, p) == p + 1 + DigitRun(s, p + 1);
    } else {
      assert DigitRun(s, p) == 0;
      if p < |s| && s[p] == '.' {
        LongestStep(s, Signed, p, Dot);
        DotLongest(s, p);
      } else {
        LongestStop(s, Signed, p);
      }
    }
  }

  /** Greedy backtracking gives the longest match at every start position. */
  lemma MatchAtLongest(s: string, i: nat)
    requires i <= |s|
    ensures MatchAt(s, i) == Longest(s, Start, i)
  {
    BodyLongest(s, i);
    if i < |s| && IsSign(s[i]) {
      LongestStep(s, Start, i, Signed);
      BodyLongest(s, i + 1);
    } else if i < |s| && IsDigit(s[i]) {
      LongestStep(s, Start, i, IntDigits);
      LongestStep(s, Signed, i, IntDigits);
    } else if i < |s| && s[i] == '.' {
      LongestStep(s, Start, i, Dot);
      LongestStep(s, Signed, i, Dot);
    } else {
      LongestStop(s, Start, i);
      LongestStop(s, Signed, i);
    }
  }

  /**
   * The match at `i` is a non-empty word of the pattern and no longer
   * word starts at `i`; without a match no word starts at `i`.
   */
  lemma MatchAtSpec(s: string, i: nat)
    requires i <= |s|
    ensures MatchAt(s, i).Some? ==>
              i < MatchAt(s, i).value <= |s| && Accepts(s, i, MatchAt(s, i).value) &&
              forall e :: MatchAt(s, i).value < e <= |s| ==> !Accepts(s, i, e)
    ensures MatchAt(s, i).None? ==> forall e :: i <= e <= |s| ==> !Accepts(s, i, e)
  {
    MatchAtLongest(s, i);
    LongestSpec(s, Start, i);
  }

  /** `FirstMatch` is the leftmost start position with a word of the pattern. */
  lemma {:induction false} FirstMatchSpec(s: string, from: nat)
    requires from <= |s|
    ensures FirstMatch(s, from).None? ==> forall i, e :: from <= i <= e <= |s| ==> !Accepts(s, i, e)
    ensures FirstMatch(s, from).Some? ==>
              var (i, e) := FirstMatch(s, from).value;
              from <= i < e <= |s| && Accepts(s, i, e) &&
              (forall e' :: e < e' <= |s| ==> !Accepts(s, i, e')) &&
              (forall i', e' :: from <= i' < i && i' <= e' <= |s| ==> !Accepts(s, i', e'))
    decreases |s| - from
  {
    MatchAtSpec(s, from);
    if from < |s| && MatchAt(s, from).None? {
      FirstMatchSpec(s, from + 1);
    }
  }

  /**
   * `extractNumberFromString` returns the leftmost, longest word of the
   * pattern in `s`, and `""` exactly when `s` holds none.
   */
  lemma ExtractLeftmostLongest(s: string)
    ensures ExtractNumber(s) == "" <==> forall i, e :: 0 <= i <= e <= |s| ==> !Accepts(s, i, e)
    ensures ExtractNumber(s) != "" ==>
              exists i, e :: 0 <= i < e <= |s| && ExtractNumber(s) == s[i..e] && Accepts(s, i, e) &&
                (forall e' :: e < e' <= |s| ==> !Accepts(s, i, e')) &&
                (forall i', e' :: 0 <= i' < i && i' <= e' <= |s| ==> !Accepts(s, i', e'))
  {
    FirstMatchSpec(s, 0);
    if FirstMatch(s, 0).Some? {
      var (i, e) := FirstMatch(s, 0).value;
      assert s[i..e] != [];
    }
  }

  /** Every word of the pattern holds a digit. */
  lemma {:induction false} AcceptedHasDigit(s: string, q: State, i: nat, e: nat)
    requires q.Start? || q.Signed? || q.Dot?
    requires i <= e <= |s| && AcceptsFrom(s, q, i, e)
    ensures exists k :: i <= k < e && IsDigit(s[k])
    decreases e - i
  {
    assert i < e;
    if !IsDigit(s[i]) {
      var q' := Delta(q, s[i]).value;
      assert RunFrom(s, q, i, e) == RunFrom(s, q', i + 1, e);
      AcceptedHasDigit(s, q', i + 1, e);
    }
  }

  /** A number is found in a string exactly when the string holds an ASCII digit. */
  lemma ExtractNonEmptyIffDigit(s: string)
    ensures ExtractNumber(s) != "" <==> HasDigit(s)
  {
    ExtractLeftmostLongest(s);
    if ExtractNumber(s) != "" {
      var i, e :| 0 <= i < e <= |s| && Accepts(s, i, e);
      AcceptedHasDigit(s, Start, i, e);
    }
    if HasDigit(s) {
      var j :| 0 <= j < |s| && IsDigit(s[j]);
      assert RunFrom(s, IntDigits, j + 1, j + 1) == Some(IntDigits);
      assert Accepts(s, j, j + 1);
    }
  }

  /** Start positions without a match are passed over. */
  lemma {:induction false} FirstMatchSkips(s: string, i: nat, j: nat)
    requires i <= j <= |s|
    requires forall k :: i <= k < j ==> MatchAt(s, k).None?
    ensures FirstMatch(s, i) == FirstMatch(s, j)
    decreases j - i
  {
    if i < j {
      FirstMatchSkips(s, i + 1, j);
    }
  }

  /** No match starts at a letter. */
  lemma NoMatchAtLetter(s: string, k: nat)
    requires k < |s| && IsAsciiLetter(s[k])
    ensures MatchAt(s, k).None?
  {
    assert DigitRun(s, k) == 0;
  }

  lemma ExtractFromText(s: string)
    requires s == "abc123.12aa456def"
    ensures ExtractNumber(s) == "123.12"
  {
    LettersBeforeNumber(s);
    FirstMatchSkips(s, 0, 3);
    NumberAfterLetters(s);
    assert s[3..9] == "123.12";
  }

  lemma LettersBeforeNumber(s: string)
    requires s == "abc123.12aa456def"
    ensures forall k :: 0 <= k < 3 ==> MatchAt(s, k).None?
  {
    NoMatchAtLetter(s, 0);
    NoMatchAtLetter(s, 1);
    NoMatchAtLetter(s, 2);
  }

  lemma NumberAfterLetters(s: string)
    requires s == "abc123.12aa456def"
    ensures MatchAt(s, 3) == Some(9)
  {
    assert DigitRun(s, 6) == 0;
    assert DigitRun(s, 5) == 1;
    assert DigitRun(s, 4) == 2;
    assert DigitRun(s, 3) == 3;
    assert DigitRun(s, 9) == 0;
    assert DigitRun(s, 7) == 2;
    assert ExpLen(s, 9) == 0;
  }

  lemma ExtractSignsAndDotOnly()
    ensures ExtractNumber("+-.") == ""
  {
    ExtractNonEmptyIffDigit("+-.");
  }

  lemma ExtractExponentWhole(s: string)
    requires s == "1.23e3"
    ensures ExtractNumber(s) == s
  {
    assert DigitRun(s, 1) == 0;
    assert DigitRun(s, 0) == 1;
    assert DigitRun(s, 4) == 0;
    assert DigitRun(s, 2) == 2;
    assert DigitRun(s, 5) == 1;
    assert ExpLen(s, 4) == 2;
    assert MatchAt(s, 0) == Some(6);
  }

  // ---------------------------------------------------------------------
  // Coercion, formatting and the array recursion
  // ---------------------------------------------------------------------

  /** `convertToNumber`: the switch on `typeof value`. */
  function ConvertToNumber(v: Value, parse: string -> Number): Number
  {
    match v
    case Num(n) => n
    case Str(s) => var t := ExtractNumber(s); if t != "" then parse(t) else NaN
    case Bool(b) => if b then Finite(1.0) else Finite(0.0)
    case Null => NaN
    case Undefined => NaN
    case Other => NaN
    case Arr(_) => NaN
  }

  /** A string is read through the number found in it, and is NaN when it has no digit. */
  lemma ConvertString(s: string, parse: string -> Number)
    ensures !HasDigit(s) ==> ConvertToNumber(Str(s), parse) == NaN
    ensures HasDigit(s) ==> ConvertToNumber(Str(s), parse) == parse(ExtractNumber(s)) && ExtractNumber(s) != ""
  {
    ExtractNonEmptyIffDigit(s);
  }

  /** `formatSingleNumber`: NaN becomes `nanDisplay`; a digit count rounds through `toFixed`. */
  function FormatSingleNumber(num: Number, places: Places, nanDisplay: Number, ops: NumberOps): Number
  {
    if num.NaN? then nanDisplay
    else match places
      case AllPlaces => num
      case Fixed(d) => ops.parse(ops.toFixed(num, d))
  }

  /** `nanDisplay` stands in for NaN and changes nothing else; `true` keeps the number. */
  lemma NanDisplayOnlyForNaN(num: Number, places: Places, nanDisplay: Number, ops: NumberOps)
    ensures num.NaN? ==> FormatSingleNumber(num, places, nanDisplay, ops) == nanDisplay
    ensures !num.NaN? ==> FormatSingleNumber(num, places, nanDisplay, ops) == FormatSingleNumber(num, places, NaN, ops)
    ensures places.AllPlaces? ==> FormatSingleNumber(num, places, NaN, ops) == num
  {
  }

  /** `processValue`: arrays element by element, anything else coerced and formatted. */
  function ProcessValue(v: Value, places: Places, nanDisplay: Number, ops: NumberOps): (r: NumTree)
    ensures v.Arr? <==> r.Node?
    decreases v
  {
    match v
    case Arr(items) =>
      Node(seq(|items|, k requires 0 <= k < |items| => ProcessValue(items[k], places, nanDisplay, ops)))
    case _ => Leaf(FormatSingleNumber(ConvertToNumber(v, ops.parse), places, nanDisplay, ops))
  }

  /**
   * `t` has the nesting of `v`, and every leaf of `t` is `f` of the value
   * at the same place in `v`.
   */
  predicate MapsLeaves(v: Value, t: NumTree, f: Value -> Number)
    decreases v
  {
    match v
    case Arr(items) =>
      t.Node? && |t.children| == |items| &&
      forall k :: 0 <= k < |items| ==> MapsLeaves(items[k], t.children[k], f)
    case _ => t.Leaf? && t.num == f(v)
  }

  /** Arrays keep their length and nesting, and each scalar is coerced and formatted. */
  lemma {:induction false} ProcessKeepsShape(v: Value, places: Places, nanDisplay: Number, ops: NumberOps)
    ensures MapsLeaves(v, ProcessValue(v, places, nanDisplay, ops),
                       x => FormatSingleNumber(ConvertToNumber(x, ops.parse), places, nanDisplay, ops))
    decreases v
  {
    if v.Arr? {
      forall k | 0 <= k < |v.items| {
        ProcessKeepsShape(v.items[k], places, nanDisplay, ops);
      }
    }
  }

  /** The options `toFormattedNumber` reads; a missing field is `undefined`. */
  datatype NumberOptions = NumberOptions(decimalPlaces: Option<Places>, nanDisplay: Option<Number>)

  /** `toFormattedNumber(object, options)`, with the defaults `true` and NaN. */
  function ToFormattedNumber(input: Value, options: Option<NumberOptions>, ops: NumberOps): NumTree
  {
    var o := if options.Some? then options.value else NumberOptions(None, None);
    var places := if o.decimalPlaces.Some? then o.decimalPlaces.value else AllPlaces;
    var nanDisplay := if o.nanDisplay.Some? then o.nanDisplay.value else NaN;
    ProcessValue(input, places, nanDisplay, ops)
  }

  /** With no options a scalar is just coerced; `[]` gives `[]`. */
  lemma DefaultsOnlyCoerce(v: Value, ops: NumberOps)
    ensures !v.Arr? ==> ToFormattedNumber(v, None, ops) == Leaf(ConvertToNumber(v, ops.parse))
    ensures ToFormattedNumber(Arr([]), None, ops) == Node([])
  {
  }

  /** The dispatch on the input's type. */
  lemma CoercionCases(n: Number, b: bool, s: string, ops: NumberOps)
    ensures ConvertToNumber(Num(n), ops.parse) == n
    ensures ConvertToNumber(Bool(b), ops.parse) == if b then Finite(1.0) else Finite(0.0)
    ensures !HasDigit(s) ==> ConvertToNumber(Str(s), ops.parse) == NaN
    ensures ConvertToNumber(Null, ops.parse) == NaN && ConvertToNumber(Undefined, ops.parse) == NaN
    ensures ConvertToNumber(Other, ops.parse) == NaN
  {
    ConvertString(s, ops.parse);
  }
}
