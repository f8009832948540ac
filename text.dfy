/**
 * The few string operations the server relies on: rendering a number in
 * decimal (template literals and `String(n)`), reading a run of decimal digits
 * back, `startsWith`, and `String.prototype.replace` with a string pattern,
 * which replaces the FIRST occurrence only and expands `$` patterns in the
 * replacement.
 */
module Text {
  import opened Options

  predicate IsDigit(c: char) { '0' <= c <= '9' }

  predicate AllDigits(s: string) { forall i :: 0 <= i < |s| ==> IsDigit(s[i]) }

  function DigitChar(d: nat): (c: char)
    requires d < 10
    ensures IsDigit(c) && (c as int) - ('0' as int) == d
  {
    (('0' as int) + d) as char
  }

  /** `${n}` for a non-negative integer: its decimal digits, no leading zero. */
  function Decimal(n: nat): (s: string)
    ensures |s| > 0 && AllDigits(s)
    ensures (s[0] == '0') <==> n == 0
    decreases n
  {
    if n < 10 then [DigitChar(n)] else Decimal(n / 10) + [DigitChar(n % 10)]
  }

  /** The value of a string of decimal digits. */
  function ParseDecimal(s: string): nat
    requires AllDigits(s)
  {
    if s == [] then 0
    else 10 * ParseDecimal(s[..|s| - 1]) + ((s[|s| - 1] as int) - ('0' as int))
  }

  /** Reading the digits back yields the number: `${n}` loses nothing. */
  lemma {:induction false} ParseDecimalOfDecimal(n: nat)
    ensures ParseDecimal(Decimal(n)) == n
    decreases n
  {
    var s := Decimal(n);
    if n >= 10 {
      ParseDecimalOfDecimal(n / 10);
      assert s[..|s| - 1] == Decimal(n / 10);
    }
  }

  /** Decimal rendering is injective. */
  lemma DecimalInjective(m: nat, n: nat)
    requires Decimal(m) == Decimal(n)
    ensures m == n
  {
    ParseDecimalOfDecimal(m);
    ParseDecimalOfDecimal(n);
  }

  /** The longest prefix of `s` made of digits. */
  function LeadingDigits(s: string): (d: string)
    ensures |d| <= |s| && d == s[..|d|] && AllDigits(d)
    ensures |d| < |s| ==> !IsDigit(s[|d|])
  {
    if s == [] || !IsDigit(s[0]) then [] else [s[0]] + LeadingDigits(s[1..])
  }

  /** The digit run at the head of `d + rest` is exactly `d` when `rest` does not start with a digit. */
  lemma {:induction false} LeadingDigitsOfDigitsThen(d: string, rest: string)
    requires AllDigits(d)
    requires rest == [] || !IsDigit(rest[0])
    ensures LeadingDigits(d + rest) == d
  {
    if d != [] {
      assert (d + rest)[1..] == d[1..] + rest;
      LeadingDigitsOfDigitsThen(d[1..], rest);
    } else {
      assert d + rest == rest;
    }
  }

  predicate StartsWith(s: string, prefix: string) {
    |prefix| <= |s| && s[..|prefix|] == prefix
  }

  predicate OccursAt(s: string, pat: string, i: nat) {
    i + |pat| <= |s| && s[i..i + |pat|] == pat
  }

  /** `s.indexOf(pat)`, with -1 as `None`. */
  function IndexOf(s: string, pat: string, from: nat := 0): (r: Option<nat>)
    requires from <= |s|
    ensures r.Some? ==> from <= r.value && OccursAt(s, pat, r.value)
    ensures r.Some? ==> forall j :: from <= j < r.value ==> !OccursAt(s, pat, j)
    ensures r.None? ==> forall j :: from <= j <= |s| ==> !OccursAt(s, pat, j)
    decreases |s| - from
  {
    if OccursAt(s, pat, from) then Some(from)
    else if from == |s| then None
    else IndexOf(s, pat, from + 1)
  }

  /**
   * The replacement text `replace` inserts for a match, as section 22.1.3.19.1
   * (GetSubstitution) of ECMA-262 gives it when the pattern is a string:
   * `$$` is one `$`, `$&` the matched text, `` $` `` the text before the
   * match and `$'` the text after it. There are no capture groups, so any
   * other `$` stays as it is.
   */
  function Substitution(rep: string, matched: string, before: string, after: string): (r: string)
    ensures '$' !in rep ==> r == rep
    decreases |rep|
  {
    if rep == [] then []
    else if rep[0] == '$' && |rep| >= 2 && rep[1] in "$&`'" then
      var piece := if rep[1] == '$' then "$" else if rep[1] == '&' then matched else if rep[1] == '`' then before else after;
      piece + Substitution(rep[2..], matched, before, after)
    else
      [rep[0]] + Substitution(rep[1..], matched, before, after)
  }

  /** Every `$` doubled: the text a caller passes to `replace` to have `s` inserted unchanged. */
  function EscapeDollars(s: string): (e: string)
    ensures '$' !in s ==> e == s
  {
    if s == [] then []
    else (if s[0] == '$' then "$$" else [s[0]]) + EscapeDollars(s[1..])
  }

  /** Escaping adds one character per `$`. */
  lemma {:induction false} EscapeDollarsLength(s: string)
    ensures |EscapeDollars(s)| == |s| + multiset(s)['$']
  {
    if s != [] {
      EscapeDollarsLength(s[1..]);
      assert s == [s[0]] + s[1..];
    }
  }

  /** Expanding an escaped text gives the text back, whatever the match and its context. */
  lemma {:induction false} SubstitutionOfEscaped(s: string, matched: string, before: string, after: string)
    ensures Substitution(EscapeDollars(s), matched, before, after) == s
  {
    if s != [] {
      SubstitutionOfEscaped(s[1..], matched, before, after);
      var e := EscapeDollars(s);
      var tail := EscapeDollars(s[1..]);
      if s[0] == '$' {
        assert e == "$$" + tail && e[2..] == tail;
      } else {
        assert e == [s[0]] + tail && e[1..] == tail;
      }
    }
  }

  /** `s.replace(pat, rep)` with a string pattern: only the first occurrence is replaced, by `rep` expanded. */
  function ReplaceFirst(s: string, pat: string, rep: string): (r: string)
    ensures IndexOf(s, pat).None? ==> r == s
    ensures IndexOf(s, pat).Some? ==>
      var i := IndexOf(s, pat).value;
      var expanded := Substitution(rep, pat, s[..i], s[i + |pat|..]);
      && |r| == |s| - |pat| + |expanded|
      && r[..i] == s[..i]
      && r[i..i + |expanded|] == expanded
      && r[i + |expanded|..] == s[i + |pat|..]
  {
    match IndexOf(s, pat)
    case None => s
    case Some(i) =>
      var expanded := Substitution(rep, pat, s[..i], s[i + |pat|..]);
      var r := s[..i] + expanded + s[i + |pat|..];
      assert r[..i] == s[..i] && r[i..i + |expanded|] == expanded;
      r
  }

  /** Whatever `rep` expands to is what replaces the first match. */
  lemma ReplaceFirstExpands(s: string, pat: string, rep: string, expanded: string)
    requires IndexOf(s, pat).Some?
    requires var i := IndexOf(s, pat).value; Substitution(rep, pat, s[..i], s[i + |pat|..]) == expanded
    ensures var i := IndexOf(s, pat).value;
      ReplaceFirst(s, pat, rep) == s[..i] + expanded + s[i + |pat|..]
  {
  }

  /** A replacement without `$` is inserted literally. */
  lemma ReplaceFirstLiteral(s: string, pat: string, rep: string)
    requires '$' !in rep && IndexOf(s, pat).Some?
    ensures var i := IndexOf(s, pat).value;
      ReplaceFirst(s, pat, rep) == s[..i] + rep + s[i + |pat|..]
  {
    ReplaceFirstExpands(s, pat, rep, rep);
  }

  /** A replacement escaped with `EscapeDollars` is inserted literally, whatever it contains. */
  lemma ReplaceFirstEscaped(s: string, pat: string, rep: string)
    requires IndexOf(s, pat).Some?
    ensures var i := IndexOf(s, pat).value;
      ReplaceFirst(s, pat, EscapeDollars(rep)) == s[..i] + rep + s[i + |pat|..]
  {
    var i := IndexOf(s, pat).value;
    var before, after := s[..i], s[i + |pat|..];
    assert Substitution(EscapeDollars(rep), pat, before, after) == rep by {
      SubstitutionOfEscaped(rep, pat, before, after);
    }
    ReplaceFirstExpands(s, pat, EscapeDollars(rep), rep);
  }

  /** `"{t}!".replace("{t}", "$$")` is `"$!"`: a doubled `$` collapses to one. */
  lemma DoubledDollarCollapses()
    ensures ReplaceFirst("{t}!", "{t}", "$$") == "$!"
  {
    assert "{t}!"[0..3] == "{t}" && "{t}!"[..0] == "" && "{t}!"[3..] == "!";
    assert Substitution("$$", "{t}", "", "!") == "$";
    ReplaceFirstExpands("{t}!", "{t}", "$$", "$");
  }

  /** `"{t}!".replace("{t}", "$&")` is `"{t}!"`: `$&` puts the slot itself back. */
  lemma MatchPatternKeepsSlot()
    ensures ReplaceFirst("{t}!", "{t}", "$&") == "{t}!"
  {
    assert "{t}!"[0..3] == "{t}" && "{t}!"[..0] == "" && "{t}!"[3..] == "!";
    assert Substitution("$&", "{t}", "", "!") == "{t}";
    ReplaceFirstExpands("{t}!", "{t}", "$&", "{t}");
  }
}
