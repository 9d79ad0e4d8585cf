/** The JavaScript string and number semantics the handlers rely on: truthiness of optional
    arguments, `String.prototype.replace` with a string pattern, lower-casing, and the decimal
    rendering of a number inside a template literal. */
module JsStrings {
  import opened Wrappers

  /** Truthiness of an optional string argument: `undefined` and "" are falsy. */
  predicate TruthyString(s: Option<string>) {
    s.Some? && s.value != ""
  }

  /** Truthiness of an optional number argument: `undefined` and 0 are falsy (NaN is not modelled). */
  predicate TruthyNumber(n: Option<int>) {
    n.Some? && n.value != 0
  }

  // ---------------------------------------------------------------- searching

  predicate OccursAt(s: string, pat: string, i: nat) {
    i + |pat| <= |s| && s[i..i + |pat|] == pat
  }

  predicate Contains(s: string, pat: string) {
    exists i: nat :: i <= |s| && OccursAt(s, pat, i)
  }

  predicate IsFirstOccurrence(s: string, pat: string, i: nat) {
    OccursAt(s, pat, i) && forall j: nat :: j < i ==> !OccursAt(s, pat, j)
  }

  /** The first index at or after `from` where `pat` occurs in `s`. */
  function IndexOfFrom(s: string, pat: string, from: nat): (r: Option<nat>)
    decreases |s| - from
    ensures r.Some? ==> from <= r.value && OccursAt(s, pat, r.value)
    ensures r.Some? ==> forall j: nat :: from <= j < r.value ==> !OccursAt(s, pat, j)
    ensures r.None? ==> forall j: nat :: from <= j ==> !OccursAt(s, pat, j)
  {
    if from + |pat| > |s| then None
    else if s[from..from + |pat|] == pat then Some(from)
    else IndexOfFrom(s, pat, from + 1)
  }

  /** `s.indexOf(pat)`, with `None` for -1. */
  function IndexOf(s: string, pat: string): (r: Option<nat>)
    ensures r.Some? <==> Contains(s, pat)
    ensures r.Some? ==> IsFirstOccurrence(s, pat, r.value)
  {
    IndexOfFrom(s, pat, 0)
  }

  lemma FirstOccurrenceUnique(s: string, pat: string, i: nat, k: nat)
    requires IsFirstOccurrence(s, pat, i) && IsFirstOccurrence(s, pat, k)
    ensures i == k
  {
  }

  // ---------------------------------------------------------------- replace

  /** The replacement text that `replace` inserts for the template `template` when the search value
      is a string (so there are no capture groups), as the GetSubstitution operation of ECMA-262
      defines it: `$$` stands for `$`, `$&` for the matched text, `` $` `` for the text before the
      match and `$'` for the text after it; any other `$` stands for itself. */
  function Substitution(template: string, before: string, matched: string, after: string): string
    decreases |template|
  {
    if |template| == 0 then ""
    else if template[0] == '$' && |template| >= 2 && template[1] == '$' then
      "$" + Substitution(template[2..], before, matched, after)
    else if template[0] == '$' && |template| >= 2 && template[1] == '&' then
      matched + Substitution(template[2..], before, matched, after)
    else if template[0] == '$' && |template| >= 2 && template[1] == '`' then
      before + Substitution(template[2..], before, matched, after)
    else if template[0] == '$' && |template| >= 2 && template[1] == '\'' then
      after + Substitution(template[2..], before, matched, after)
    else
      [template[0]] + Substitution(template[1..], before, matched, after)
  }

  /** A template without `$` is inserted literally. */
  lemma {:induction false} SubstitutionWithoutDollar(template: string, before: string, matched: string, after: string)
    requires '$' !in template
    ensures Substitution(template, before, matched, after) == template
  {
    if |template| > 0 {
      assert template == [template[0]] + template[1..];
      SubstitutionWithoutDollar(template[1..], before, matched, after);
    }
  }

  /** `s.replace(pat, rep)` for a string `pat`: the first literal occurrence of `pat` gives way to
      the substitution of `rep`; when `pat` does not occur, `s` comes back unchanged. */
  function ReplaceFirst(s: string, pat: string, rep: string): (r: string)
    ensures !Contains(s, pat) ==> r == s
    ensures forall i: nat :: IsFirstOccurrence(s, pat, i) ==>
      r == s[..i] + Substitution(rep, s[..i], pat, s[i + |pat|..]) + s[i + |pat|..]
  {
    match IndexOf(s, pat)
    case None => s
    case Some(i) =>
      assert forall k: nat :: IsFirstOccurrence(s, pat, k) ==> k == i by {
        forall k: nat | IsFirstOccurrence(s, pat, k) ensures k == i {
          FirstOccurrenceUnique(s, pat, i, k);
        }
      }
      s[..i] + Substitution(rep, s[..i], pat, s[i + |pat|..]) + s[i + |pat|..]
  }

  /** With a replacement free of `$`, `replace` splices `rep` in place of the first occurrence. */
  lemma ReplaceFirstLiteral(s: string, pat: string, rep: string, i: nat)
    requires IsFirstOccurrence(s, pat, i)
    requires '$' !in rep
    ensures ReplaceFirst(s, pat, rep) == s[..i] + rep + s[i + |pat|..]
  {
    SubstitutionWithoutDollar(rep, s[..i], pat, s[i + |pat|..]);
  }

  // ---------------------------------------------------------------- lower case

  function LowerChar(c: char): char {
    if 'A' <= c <= 'Z' then (c as int + 32) as char else c
  }

  /** `s.toLowerCase()` restricted to the ASCII letters A-Z. */
  function ToLower(s: string): (r: string)
    ensures |r| == |s|
    ensures forall i :: 0 <= i < |s| ==> r[i] == LowerChar(s[i])
  {
    if |s| == 0 then "" else ToLower(s[..|s| - 1]) + [LowerChar(s[|s| - 1])]
  }

  lemma LowerCharIdempotent(c: char)
    ensures LowerChar(LowerChar(c)) == LowerChar(c)
  {
    if 'A' <= c <= 'Z' {
      var d := (c as int + 32) as char;
      assert d as int == c as int + 32;
    }
  }

  lemma ToLowerIdempotent(s: string)
    ensures ToLower(ToLower(s)) == ToLower(s)
  {
    var t := ToLower(s);
    var u := ToLower(t);
    forall i | 0 <= i < |s| ensures u[i] == t[i] {
      LowerCharIdempotent(s[i]);
    }
  }

  // ---------------------------------------------------------------- numbers

  predicate IsDigit(c: char) {
    '0' <= c <= '9'
  }

  predicate AllDigits(s: string) {
    forall i :: 0 <= i < |s| ==> IsDigit(s[i])
  }

  function DigitChar(d: nat): char
    requires d < 10
  {
    (48 + d) as char
  }

  function NatToString(n: nat): (r: string)
    ensures |r| >= 1 && AllDigits(r)
  {
    if n < 10 then [DigitChar(n)] else NatToString(n / 10) + [DigitChar(n % 10)]
  }

  /** The text of an integer inside a template literal, `${n}` (numbers of 1e21 and more, which
      JavaScript writes in exponent form, are not modelled). */
  function IntToString(n: int): (r: string)
    ensures |r| >= 1
    ensures forall i :: 0 <= i < |r| ==> IsDigit(r[i]) || r[i] == '-'
  {
    if n < 0 then "-" + NatToString(-n) else NatToString(n)
  }

  function DigitsValue(s: string): nat
    requires AllDigits(s)
  {
    if |s| == 0 then 0 else 10 * DigitsValue(s[..|s| - 1]) + (s[|s| - 1] as int - 48)
  }

  /** Reads back an optionally negative decimal integer. */
  function ParseInt(s: string): Option<int> {
    if |s| >= 2 && s[0] == '-' && AllDigits(s[1..]) then Some(-(DigitsValue(s[1..]) as int))
    else if |s| >= 1 && AllDigits(s) then Some(DigitsValue(s))
    else None
  }

  lemma {:induction false} NatToStringValue(n: nat)
    ensures DigitsValue(NatToString(n)) == n
  {
    if n >= 10 {
      var s := NatToString(n);
      assert s[..|s| - 1] == NatToString(n / 10);
      NatToStringValue(n / 10);
    }
  }

  /** The decimal rendering of an integer reads back as that integer. */
  lemma ParseIntToString(n: int)
    ensures ParseInt(IntToString(n)) == Some(n)
  {
    if n < 0 {
      var s := IntToString(n);
      assert s[1..] == NatToString(-n);
      NatToStringValue(-n);
    } else {
      NatToStringValue(n);
    }
  }

  /** The rendering of an integer holds neither a quote nor a dollar sign. */
  lemma IntToStringPlain(n: int)
    ensures '"' !in IntToString(n) && '$' !in IntToString(n)
  {
    var s := IntToString(n);
    forall i | 0 <= i < |s| ensures s[i] != '"' && s[i] != '$' {
      assert IsDigit(s[i]) || s[i] == '-';
    }
  }
}
