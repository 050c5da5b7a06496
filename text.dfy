/**
 * String helpers that the JavaScript sources get from the language:
 * the `[a-zA-Z0-9]` and `\d` character classes, decimal rendering of
 * integers (`toString`), `padStart`, `slice(-n)`, `split` on one
 * character and `indexOf`.
 */
module Text {

  predicate IsDigit(c: char) { '0' <= c <= '9' }

  predicate IsAsciiLetter(c: char) { 'a' <= c <= 'z' || 'A' <= c <= 'Z' }

  /** The class `[a-zA-Z0-9]`. */
  predicate IsAsciiAlnum(c: char) { IsDigit(c) || IsAsciiLetter(c) }

  /**
   * `/[a-zA-Z0-9]/.test(ch)` where `ch` is the character at position `i`,
   * or the empty string when `i` is outside `s`.
   */
  predicate AlnumAt(s: string, i: int)
  {
    0 <= i < |s| && IsAsciiAlnum(s[i])
  }

  predicate AllDigits(s: string)
  {
    forall i :: 0 <= i < |s| ==> IsDigit(s[i])
  }

  predicate HasDigit(s: string)
  {
    exists i :: 0 <= i < |s| && IsDigit(s[i])
  }

  predicate HasAsciiLetter(s: string)
  {
    exists i :: 0 <= i < |s| && IsAsciiLetter(s[i])
  }

  function DigitChar(d: nat): (c: char)
    requires d < 10
    ensures IsDigit(c)
  {
    ('0' as int + d) as char
  }

  function DigitValue(c: char): (d: nat)
    requires IsDigit(c)
    ensures d < 10 && DigitChar(d) == c
  {
    (c as int - '0' as int)
  }

  /** `n.toString()` for a non-negative integer. */
  function NatToString(n: nat): (r: string)
    ensures |r| >= 1 && AllDigits(r)
    ensures |r| > 1 ==> r[0] != '0'
    decreases n
  {
    if n < 10 then [DigitChar(n)] else NatToString(n / 10) + [DigitChar(n % 10)]
  }

  /** `n.toString()` for any integer: a minus sign, then the digits. */
  function IntToString(n: int): (r: string)
    ensures |r| >= 1
    ensures n >= 0 ==> r == NatToString(n)
    ensures n < 0 ==> r == "-" + NatToString(-n)
  {
    if n < 0 then "-" + NatToString(-n) else NatToString(n)
  }

  /** The value of a string of decimal digits (leading zeros allowed). */
  function DecimalValue(s: string): nat
    requires AllDigits(s)
  {
    if s == [] then 0 else DecimalValue(s[..|s| - 1]) * 10 + DigitValue(s[|s| - 1])
  }

  /** Decimal rendering is undone by reading the digits back. */
  lemma {:induction false} DecimalRoundTrip(n: nat)
    ensures DecimalValue(NatToString(n)) == n
  {
    if n >= 10 {
      var s := NatToString(n);
      assert s[..|s| - 1] == NatToString(n / 10);
      DecimalRoundTrip(n / 10);
    }
  }

  /** `k` copies of the character `c`. */
  function Repeat(c: char, k: nat): (r: string)
    ensures |r| == k && forall i :: 0 <= i < k ==> r[i] == c
  {
    seq(k, _ => c)
  }

  /**
   * `s.padStart(width, pad)` with a one-character pad string: `s` itself
   * when it is at least `width` long, otherwise `s` behind enough pad
   * characters to reach `width`.
   */
  function PadStart(s: string, width: int, pad: char): (r: string)
    ensures |s| >= width ==> r == s
    ensures |s| < width ==> |r| == width
    ensures |r| >= |s| && r[|r| - |s|..] == s
    ensures forall i :: 0 <= i < |r| - |s| ==> r[i] == pad
  {
    if |s| >= width then s else Repeat(pad, width - |s|) + s
  }

  /** Leading zeros do not change a decimal value. */
  lemma {:induction false} LeadingZeros(k: nat, s: string)
    requires AllDigits(s)
    ensures AllDigits(Repeat('0', k) + s)
    ensures DecimalValue(Repeat('0', k) + s) == DecimalValue(s)
  {
    var t := Repeat('0', k) + s;
    assert AllDigits(t) by {
      forall i | 0 <= i < |t| ensures IsDigit(t[i]) {
        if i >= k { assert t[i] == s[i - k]; }
      }
    }
    if s == [] {
      assert t == Repeat('0', k);
      ZerosValue(k);
    } else {
      assert t[..|t| - 1] == Repeat('0', k) + s[..|s| - 1];
      LeadingZeros(k, s[..|s| - 1]);
    }
  }

  lemma {:induction false} ZerosValue(k: nat)
    ensures AllDigits(Repeat('0', k)) && DecimalValue(Repeat('0', k)) == 0
  {
    if k > 0 {
      assert Repeat('0', k)[..k - 1] == Repeat('0', k - 1);
      ZerosValue(k - 1);
    }
  }

  /** A zero-padded decimal still reads back as the number. */
  lemma PaddedRoundTrip(n: nat, width: int)
    ensures AllDigits(PadStart(NatToString(n), width, '0'))
    ensures DecimalValue(PadStart(NatToString(n), width, '0')) == n
  {
    var s := NatToString(n);
    DecimalRoundTrip(n);
    if |s| < width {
      LeadingZeros(width - |s|, s);
    }
  }

  /** `s.slice(-n)`: the last `n` characters, or all of `s` if shorter. */
  function LastN(s: string, n: nat): (r: string)
    ensures |r| == if |s| <= n then |s| else n
    ensures r == s[|s| - |r|..]
  {
    if |s| <= n then s else s[|s| - n..]
  }

  /** `s.startsWith(t, i)`: `t` occurs in `s` at position `i`. */
  predicate OccursAt(s: string, t: string, i: int)
  {
    0 <= i && i + |t| <= |s| && s[i..i + |t|] == t
  }

  lemma AppendAssoc<T>(a: seq<T>, b: seq<T>, c: seq<T>)
    ensures (a + b) + c == a + (b + c)
  {
  }

  /** Two adjacent slices make up the slice from the first one's start. */
  lemma AdjacentSlices<T>(s: seq<T>, i: nat, j: nat, a: seq<T>, b: seq<T>)
    requires i <= j <= |s| && a == s[i..j] && b == s[j..]
    ensures a + b == s[i..]
  {
  }

  lemma SplitAt<T>(s: seq<T>, i: nat)
    requires i <= |s|
    ensures s[..i] + s[i..] == s
  {
  }

  lemma PrefixOfConcat<T>(a: seq<T>, b: seq<T>, q: nat)
    requires q <= |b|
    ensures (a + b)[..|a| + q] == a + b[..q]
  {
  }

  lemma SuffixOfConcat<T>(a: seq<T>, b: seq<T>, m: nat)
    requires m <= |b|
    ensures (a + b)[|a| + m..] == b[m..]
  {
  }

  /** Cutting out an occurrence of `t` and putting `t` back gives `s`. */
  lemma Reassemble(s: string, t: string, i: nat)
    requires OccursAt(s, t, i)
    ensures s[..i] + t + s[i + |t|..] == s
  {
    assert s[..i] + s[i..i + |t|] + s[i + |t|..] == s;
  }

  /** `t` occurs in `s` at `i`, compared one character at a time. */
  predicate MatchesAt(s: string, t: string, i: int)
    decreases |t|
  {
    0 <= i && i + |t| <= |s| && (t == [] || (s[i] == t[0] && MatchesAt(s, t[1..], i + 1)))
  }

  lemma {:induction false} MatchesAtOccurs(s: string, t: string, i: int)
    ensures MatchesAt(s, t, i) <==> OccursAt(s, t, i)
    decreases |t|
  {
    if 0 <= i && i + |t| <= |s| && t != [] {
      MatchesAtOccurs(s, t[1..], i + 1);
      assert s[i..i + |t|] == [s[i]] + s[i + 1..i + 1 + |t[1..]|];
      assert t == [t[0]] + t[1..];
    }
  }

  /**
   * `s.indexOf(t, from)` for a non-empty `t`: the first position at or
   * after `from` where `t` occurs, or -1.
   */
  function IndexOf(s: string, t: string, from: nat): (r: int)
    requires |t| > 0
    ensures r == -1 || (from <= r && MatchesAt(s, t, r))
    ensures forall j :: from <= j && (r == -1 || j < r) ==> !MatchesAt(s, t, j)
    decreases |s| - from
  {
    if from + |t| > |s| then -1
    else if MatchesAt(s, t, from) then from
    else IndexOf(s, t, from + 1)
  }

  /** Searching `a + b` past `a` is searching `b`, shifted by `|a|`. */
  lemma {:induction false} IndexOfShift(a: string, b: string, t: string, from: nat)
    requires |t| > 0
    ensures IndexOf(a + b, t, |a| + from) == if IndexOf(b, t, from) == -1 then -1 else |a| + IndexOf(b, t, from)
    decreases |b| - from
  {
    if from + |t| <= |b| {
      MatchesAtShift(a, b, t, from);
      if !MatchesAt(b, t, from) {
        IndexOfShift(a, b, t, from + 1);
      }
    }
  }

  /** The search from `from` seen in the text that starts there. */
  lemma IndexOfDrop(s: string, t: string, from: nat)
    requires |t| > 0 && from <= |s|
    ensures IndexOf(s[from..], t, 0) == if IndexOf(s, t, from) == -1 then -1 else IndexOf(s, t, from) - from
  {
    IndexOfShift(s[..from], s[from..], t, 0);
    SplitAt(s, from);
  }

  lemma {:induction false} MatchesAtShift(a: string, b: string, t: string, i: nat)
    ensures MatchesAt(a + b, t, |a| + i) <==> MatchesAt(b, t, i)
    decreases |t|
  {
    if t != [] && |a| + i + |t| <= |a + b| {
      MatchesAtShift(a, b, t[1..], i + 1);
      assert (a + b)[|a| + i] == b[i];
    }
  }

  /** The text before the first `c` (all of `s` when there is none). */
  function BeforeChar(s: string, c: char): (r: string)
    ensures |r| <= |s| && r == s[..|r|]
    ensures c !in r
    ensures |r| < |s| ==> s[|r|] == c
  {
    if s == [] || s[0] == c then [] else [s[0]] + BeforeChar(s[1..], c)
  }

  /** `s.split(c)` for a one-character separator. */
  function Split(s: string, c: char): (r: seq<string>)
    ensures |r| >= 1
    ensures forall i :: 0 <= i < |r| ==> c !in r[i]
    ensures r[0] == BeforeChar(s, c)
    decreases |s|
  {
    var head := BeforeChar(s, c);
    if |head| == |s| then [s] else [head] + Split(s[|head| + 1..], c)
  }

  /** The text before the first `c` of `a + b` is `a` when `a` has no `c` and `b` starts with one. */
  lemma {:induction false} BeforeCharPrefix(a: string, c: char, b: string)
    requires c !in a
    requires b == [] || b[0] == c
    ensures BeforeChar(a + b, c) == a
  {
    if a != [] {
      assert (a + b)[1..] == a[1..] + b;
      BeforeCharPrefix(a[1..], c, b);
    }
  }
}
