/** The SPICE value parser: `svString::startsWithOneOf` and `svString::getValue`.
    Both copies of the viewer (the current one and the older `trunk` one) carry
    the same code, so the one model below stands for both.

    `getValue` computes a `double` as `atof(mantissa) * multiplier`, where every
    multiplier is a power of ten.  The model keeps the floating point out: it
    returns the mantissa text that `atof` would read and the integer power of
    ten, so that `Value(m, e)` stands for `atof(m) * 10^e`. */
module SpiceValue {
  import opened Common

  datatype Value = Value(mantissa: string, exp10: int)

  /** `ALLOWED_CHARS`: the characters a mantissa (and an exponent) is made of. */
  const NumberChars: string := "0123456789.+-"

  const DigitChars: string := "0123456789"

  /** The characters C's `isspace` accepts, which `atoi` skips first. */
  const SpaceChars: string := " \t\n\r\U{000B}\U{000C}"

  /** One row of the multiplier table `g_mult`. */
  datatype Multiplier = Multiplier(short: string, long: string, exp10: int)

  const Multipliers: seq<Multiplier> := [
    Multiplier("F", "FEMTO", -15),
    Multiplier("P", "PICO", -12),
    Multiplier("N", "NANO", -9),
    Multiplier("U", "MICRO", -6),
    Multiplier("M", "MILLI", -3),
    Multiplier("K", "KILO", 3),
    Multiplier("MEG", "MEGA", 6),
    Multiplier("G", "GIGA", 9),
    Multiplier("T", "TERA", 12)
  ]

  /** One row of the unit table `g_units`; an empty long name means "none". */
  datatype UnitName = UnitName(short: string, long: string)

  const Units: seq<UnitName> := [
    UnitName("F", "FARAD"),
    UnitName("OHM", ""),
    UnitName("H", "HENRY"),
    UnitName("A", "AMPERE"),
    UnitName("V", "VOLT")
  ]

  // ---------------------------------------------------------------------------
  // startsWithOneOf
  // ---------------------------------------------------------------------------

  /** The length of the longest prefix of `s` made of characters of `chars`. */
  function RunLength(s: string, chars: string): (n: nat)
    ensures n <= |s|
    ensures forall i :: 0 <= i < n ==> s[i] in chars
    ensures n < |s| ==> s[n] !in chars
  {
    if s == [] || s[0] !in chars then 0 else 1 + RunLength(s[1..], chars)
  }

  /** `startsWithOneOf(chars, len)`.  With a length pointer (`wantLength`) it
      stores the length of the leading run of `chars` and reports success
      whatever that length is, even 0; without one it reports whether the
      first character is one of `chars` (and an empty string passes). */
  method StartsWithOneOf(s: string, chars: string, wantLength: bool) returns (ok: bool, len: nat)
    ensures wantLength ==> ok && len == RunLength(s, chars)
    ensures !wantLength ==> len == 0 && ok == (s == [] || s[0] in chars)
  {
    len := 0;
    var i := 0;
    while i < |s|
      invariant 0 <= i <= |s|
      invariant !wantLength ==> i == 0 && len == 0
      invariant wantLength ==> len == i && forall k :: 0 <= k < i ==> s[k] in chars
    {
      var found := false;
      var j := 0;
      while j < |chars|
        invariant 0 <= j <= |chars|
        invariant !found && s[i] !in chars[..j]
      {
        if s[i] == chars[j] {
          found := true;
          break;
        }
        j := j + 1;
      }
      assert found <==> s[i] in chars;
      if i == 0 && !wantLength {
        return found, 0;
      } else if found {
        len := len + 1;
      } else {
        break;
      }
      i := i + 1;
    }
    ok := true;
  }

  // ---------------------------------------------------------------------------
  // Helpers of getValue: toupper, atoi and the two tables
  // ---------------------------------------------------------------------------

  predicate IsLower(c: char)
  {
    'a' <= c <= 'z'
  }

  /** C's `toupper` in the "C" locale: a lower-case ASCII letter becomes its
      capital, every other character stays as it is. */
  function UpperChar(c: char): (u: char)
    ensures !IsLower(u)
    ensures IsLower(c) ==> 'A' <= u <= 'Z' && u as int + 32 == c as int
    ensures !IsLower(c) ==> u == c
  {
    if IsLower(c) then (c as int - 32) as char else c
  }

  /** Every character through `toupper` (and `wxString::Upper`): the same
      length, no lower-case ASCII letter left, other characters kept. */
  function Upper(s: string): (u: string)
    ensures |u| == |s|
    ensures forall i :: 0 <= i < |u| ==> !IsLower(u[i])
    ensures forall i :: 0 <= i < |s| && !IsLower(s[i]) ==> u[i] == s[i]
  {
    seq(|s|, i requires 0 <= i < |s| => UpperChar(s[i]))
  }

  function DigitValue(c: char): nat
    requires c in DigitChars
  {
    c as int - '0' as int
  }

  /** The number a string of decimal digits denotes. */
  function DecimalValue(d: string): nat
    requires forall i :: 0 <= i < |d| ==> d[i] in DigitChars
  {
    if d == [] then 0 else 10 * DecimalValue(d[..|d| - 1]) + DigitValue(d[|d| - 1])
  }

  /** The leading run of decimal digits of `s`, as a number. */
  function LeadingNumber(s: string): nat
  {
    DecimalValue(s[..RunLength(s, DigitChars)])
  }

  /** C's `atoi`: leading white space, an optional sign, then digits (the
      32-bit overflow that C leaves undefined is not modelled). */
  function Atoi(t: string): (n: int)
    ensures var u := t[RunLength(t, SpaceChars)..];
      n < 0 ==> u != [] && u[0] == '-'
    ensures var u := t[RunLength(t, SpaceChars)..];
      (u == [] || (u[0] != '-' && u[0] != '+' && u[0] !in DigitChars)) ==> n == 0
  {
    var u := t[RunLength(t, SpaceChars)..];
    if u != [] && u[0] == '-' then -(LeadingNumber(u[1..]) as int)
    else if u != [] && u[0] == '+' then LeadingNumber(u[1..])
    else LeadingNumber(u)
  }

  function MultiplierName(m: Multiplier, long: bool): string
  {
    if long then m.long else m.short
  }

  /** The first row, from row `i` on, whose long (or short) multiplier name
      starts `s`: the `for` loops over `g_mult` that stop at the first match. */
  function FirstMultiplier(s: string, long: bool, i: nat): (r: Option<nat>)
    requires i <= |Multipliers|
    ensures r.Some? ==> i <= r.value < |Multipliers| && MultiplierName(Multipliers[r.value], long) <= s
    ensures r.Some? ==> forall k :: i <= k < r.value ==> !(MultiplierName(Multipliers[k], long) <= s)
    ensures r.None? ==> forall k :: i <= k < |Multipliers| ==> !(MultiplierName(Multipliers[k], long) <= s)
    decreases |Multipliers| - i
  {
    if i == |Multipliers| then None
    else if MultiplierName(Multipliers[i], long) <= s then Some(i)
    else FirstMultiplier(s, long, i + 1)
  }

  /** Row `k` of the unit table names a prefix of `t`: its long name (when it
      has one) or its short name. */
  predicate UnitRowMatches(k: nat, t: string)
    requires k < |Units|
  {
    (Units[k].long != "" && Units[k].long <= t) || Units[k].short <= t
  }

  /** The first unit row, from row `i` on, that matches `t`: the `for` loop
      over `g_units` that stops at the first match. */
  function FirstUnit(t: string, i: nat): (r: Option<nat>)
    requires i <= |Units|
    ensures r.Some? ==> i <= r.value < |Units| && UnitRowMatches(r.value, t)
    ensures r.Some? ==> forall k :: i <= k < r.value ==> !UnitRowMatches(k, t)
    ensures r.None? ==> forall k :: i <= k < |Units| ==> !UnitRowMatches(k, t)
    decreases |Units| - i
  {
    if i == |Units| then None
    else if UnitRowMatches(i, t) then Some(i)
    else FirstUnit(t, i + 1)
  }

  /** `fourthPartStr`: what the first matching unit name leaves over, the long
      name being tried before the short one; None when no unit name starts
      `t`. */
  function UnitRest(t: string): (r: Option<string>)
    ensures r.Some? ==> exists k :: 0 <= k < |Units| && UnitNameAt(k, t, r.value)
    ensures r.None? <==> FirstUnit(t, 0).None?
    // the rest comes from the first matching row, its long name tried first
    ensures r.Some? ==> UnitNameAt(FirstUnit(t, 0).value, t, r.value)
    ensures r.Some? && Units[FirstUnit(t, 0).value].long != "" && Units[FirstUnit(t, 0).value].long <= t
            ==> t == Units[FirstUnit(t, 0).value].long + r.value
  {
    match FirstUnit(t, 0)
    case None => None
    case Some(k) =>
      if Units[k].long != "" && Units[k].long <= t then
        assert t == Units[k].long + t[|Units[k].long|..];
        assert UnitNameAt(k, t, t[|Units[k].long|..]);
        Some(t[|Units[k].long|..])
      else
        assert t == Units[k].short + t[|Units[k].short|..];
        assert UnitNameAt(k, t, t[|Units[k].short|..]);
        Some(t[|Units[k].short|..])
  }

  /** `t` is a name of unit row `k` followed by `rest`. */
  predicate UnitNameAt(k: nat, t: string, rest: string)
    requires k < |Units|
  {
    (Units[k].long != "" && t == Units[k].long + rest) || t == Units[k].short + rest
  }

  // ---------------------------------------------------------------------------
  // getValue
  // ---------------------------------------------------------------------------

  /** The length of the mantissa: `startsWithOneOf(ALLOWED_CHARS, &numlen)`. */
  function MantissaLength(s: string): nat
  {
    RunLength(s, NumberChars)
  }

  /** `secondPartStr`: the rest of the token after the mantissa, upper-cased. */
  function Suffix(s: string): string
  {
    Upper(s[MantissaLength(s)..])
  }

  /** The multiplier step: the power of ten and `thirdPartStr`. */
  datatype Scaled = Scaled(exp10: int, rest: string)

  /** The text `atoi` reads for an `E` exponent: `substr(1, 1+numlen)`,
      which takes one character more than the run it measured. */
  function ExponentText(second: string): string
    requires second != []
  {
    var run := RunLength(second[1..], NumberChars);
    second[1..Min(|second|, 2 + run)]
  }

  function SplitMultiplier(second: string): Scaled
    requires second != []
  {
    if second[0] == 'E' then
      Scaled(Atoi(ExponentText(second)), second[1 + RunLength(second[1..], NumberChars)..])
    else
      match FirstMultiplier(second, true, 0)
      case Some(k) => Scaled(Multipliers[k].exp10, second[|Multipliers[k].long|..])
      case None =>
        match FirstMultiplier(second, false, 0)
        case Some(k) => Scaled(Multipliers[k].exp10, second[|Multipliers[k].short|..])
        case None => Scaled(0, second)
  }

  /** The text left after the mantissa and the multiplier (empty when the
      token is a bare mantissa). */
  function AfterMultiplier(s: string): string
  {
    if Suffix(s) == [] then [] else SplitMultiplier(Suffix(s)).rest
  }

  /** `getValue`: None is its `false` result. */
  function GetValue(s: string): (r: Option<Value>)
    // the mantissa is the longest prefix of ALLOWED_CHARS, possibly empty
    ensures r.Some? ==> r.value.mantissa == s[..MantissaLength(s)]
  {
    var n := MantissaLength(s);
    var second := Suffix(s);
    if second == [] then Some(Value(s[..n], 0))
    else
      var scaled := SplitMultiplier(second);
      if scaled.rest != [] && UnitRest(scaled.rest).Some? && UnitRest(scaled.rest).value != [] then None
      else Some(Value(s[..n], scaled.exp10))
  }

  /** The mantissa `getValue` reports is the longest prefix of ALLOWED_CHARS,
      and it may be empty: the length-returning `startsWithOneOf` never fails. */
  lemma MantissaIsLongestNumberPrefix(s: string)
    requires GetValue(s).Some?
    ensures GetValue(s).value.mantissa <= s
    ensures forall i :: 0 <= i < |GetValue(s).value.mantissa| ==> GetValue(s).value.mantissa[i] in NumberChars
    ensures |GetValue(s).value.mantissa| < |s| ==> s[|GetValue(s).value.mantissa|] !in NumberChars
  {
  }

  /** Row `k` of the unit table, matched against `t` with its long name
      tried before its short one, leaves text over. */
  predicate RowLeavesText(k: nat, t: string)
    requires k < |Units|
  {
    if Units[k].long != "" && Units[k].long <= t then |Units[k].long| < |t|
    else Units[k].short <= t && |Units[k].short| < |t|
  }

  /** `getValue` fails exactly when the first unit row that matches the text
      the multiplier left over leaves characters behind; a remainder that
      starts with no unit name at all is accepted. */
  lemma RejectionOnlyAfterUnitName(s: string)
    ensures GetValue(s).None? <==>
      FirstUnit(AfterMultiplier(s), 0).Some? && RowLeavesText(FirstUnit(AfterMultiplier(s), 0).value, AfterMultiplier(s))
    ensures GetValue(s).None? ==>
      exists k, tail :: 0 <= k < |Units| && tail != [] && UnitNameAt(k, AfterMultiplier(s), tail)
    ensures (forall k :: 0 <= k < |Units| ==>
               !(Units[k].short <= AfterMultiplier(s)) && (Units[k].long == "" || !(Units[k].long <= AfterMultiplier(s))))
            ==> GetValue(s).Some?
  {
    if Suffix(s) != [] {
      var rest := SplitMultiplier(Suffix(s)).rest;
      assert AfterMultiplier(s) == rest;
      if GetValue(s).None? {
        var tail := UnitRest(rest).value;
        var k :| 0 <= k < |Units| && UnitNameAt(k, rest, tail);
      }
    }
  }


  // ---------------------------------------------------------------------------
  // What getValue accepts: round trips, the self-tests and the quirks
  // ---------------------------------------------------------------------------

  predicate IsNumberText(m: string)
  {
    forall i :: 0 <= i < |m| ==> m[i] in NumberChars
  }

  /** `u` is a name of the unit table: a short name, or a long name that is
      not empty. */
  predicate IsUnitName(u: string)
  {
    exists k :: 0 <= k < |Units| && (u == Units[k].short || (Units[k].long != "" && u == Units[k].long))
  }

  lemma RunLengthOfPrefix(m: string, t: string, chars: string)
    requires forall i :: 0 <= i < |m| ==> m[i] in chars
    requires t == [] || t[0] !in chars
    ensures RunLength(m + t, chars) == |m|
  {
    assert forall i :: 0 <= i < |m| ==> (m + t)[i] == m[i];
    if t != [] {
      assert (m + t)[|m|] == t[0];
    }
  }

  lemma NotPrefixAt(p: string, t: string, i: nat)
    requires i < |p| && i < |t| && p[i] != t[i]
    ensures !(p <= t)
  {
  }

  /** A number text followed by a text that does not start with a number
      character splits into exactly that mantissa and the upper-cased rest. */
  lemma SplitAtMantissa(m: string, x: string)
    requires IsNumberText(m)
    requires x == [] || UpperChar(x[0]) !in NumberChars
    ensures MantissaLength(m + x) == |m|
    ensures (m + x)[..|m|] == m
    ensures Suffix(m + x) == Upper(x)
  {
    RunLengthOfPrefix(m, x, NumberChars);
    assert (m + x)[|m|..] == x;
  }

  /** `getValue` on a number text followed by a non-number text, in terms of
      its multiplier step. */
  lemma GetValueBySteps(m: string, x: string, scaled: Scaled)
    requires IsNumberText(m) && x != [] && UpperChar(x[0]) !in NumberChars
    requires SplitMultiplier(Upper(x)) == scaled
    ensures GetValue(m + x) ==
      if scaled.rest != [] && UnitRest(scaled.rest).Some? && UnitRest(scaled.rest).value != [] then None
      else Some(Value(m, scaled.exp10))
  {
    SplitAtMantissa(m, x);
  }

  /** `getValue` accepts a number text followed by a text whose multiplier
      step leaves nothing, or no unit name, or a whole unit name. */
  lemma AcceptedBySteps(m: string, x: string, scaled: Scaled)
    requires IsNumberText(m) && x != [] && UpperChar(x[0]) !in NumberChars
    requires SplitMultiplier(Upper(x)) == scaled
    requires scaled.rest == [] || UnitRest(scaled.rest) == None || UnitRest(scaled.rest) == Some([])
    ensures GetValue(m + x) == Some(Value(m, scaled.exp10))
  {
    GetValueBySteps(m, x, scaled);
  }

  /** `getValue` rejects a number text followed by a text whose multiplier
      step leaves a unit name with more text after it. */
  lemma RejectedBySteps(m: string, x: string, scaled: Scaled, tail: string)
    requires IsNumberText(m) && x != [] && UpperChar(x[0]) !in NumberChars
    requires SplitMultiplier(Upper(x)) == scaled
    requires scaled.rest != [] && UnitRest(scaled.rest) == Some(tail) && tail != []
    ensures GetValue(m + x).None?
  {
    GetValueBySteps(m, x, scaled);
  }

  /** A bare number text is its own mantissa, with no power of ten. */
  lemma NumberRoundTrip(m: string)
    requires IsNumberText(m)
    ensures GetValue(m) == Some(Value(m, 0))
  {
    SplitAtMantissa(m, []);
    assert m + [] == m;
  }

  /** The long names of the multiplier table differ within their first three
      characters, and none is shorter than four. */
  lemma LongNamesDiffer(j: nat, k: nat)
    requires j < k < |Multipliers|
    ensures |Multipliers[j].long| >= 4 && |Multipliers[k].long| >= 4
    ensures Multipliers[j].long[0] != Multipliers[k].long[0] || Multipliers[j].long[1] != Multipliers[k].long[1]
            || Multipliers[j].long[2] != Multipliers[k].long[2]
  {
  }

  /** The short names differ in their first character, `MEG` against `M`
      aside. */
  lemma ShortNamesDiffer(j: nat, k: nat)
    requires j < k < |Multipliers| && k != 6
    ensures Multipliers[j].short != [] && Multipliers[k].short != []
    ensures Multipliers[j].short[0] != Multipliers[k].short[0]
  {
  }

  /** Whatever follows it, a long multiplier name is found at its own row. */
  lemma FirstLongMultiplier(k: nat, u: string)
    requires k < |Multipliers|
    ensures FirstMultiplier(Multipliers[k].long + u, true, 0) == Some(k)
  {
    var L := Multipliers[k].long;
    var t := L + u;
    forall j | 0 <= j < k
      ensures !(Multipliers[j].long <= t)
    {
      LongNamesDiffer(j, k);
      var i := if Multipliers[j].long[0] != L[0] then 0 else if Multipliers[j].long[1] != L[1] then 1 else 2;
      assert t[i] == L[i];
      NotPrefixAt(Multipliers[j].long, t, i);
    }
  }

  /** A short multiplier name other than `MEG`, alone or followed by a unit
      name, is not taken for a long one ... */
  lemma ShortNotLong(k: nat, u: string, j: nat)
    requires k < |Multipliers| && k != 6 && j < |Multipliers|
    requires u == [] || IsUnitName(u)
    ensures !(Multipliers[j].long <= Multipliers[k].short + u)
  {
    var t := Multipliers[k].short + u;
    var L := Multipliers[j].long;
    assert |L| >= 4 && |Multipliers[k].short| == 1;
    if u != [] {
      var r :| 0 <= r < |Units| && (u == Units[r].short || (Units[r].long != "" && u == Units[r].long));
      assert t[1] == u[0];
      if |u| >= 3 {
        assert t[2] == u[1];
        assert L[0] != t[0] || L[1] != t[1] || L[2] != t[2];
      } else {
        assert L[0] != t[0] || L[1] != t[1] || |t| < |L|;
      }
    }
  }

  /** ... and is found at its own row of the short names. */
  lemma FirstShortMultiplier(k: nat, u: string)
    requires k < |Multipliers| && k != 6
    ensures FirstMultiplier(Multipliers[k].short + u, false, 0) == Some(k)
  {
    var t := Multipliers[k].short + u;
    forall j | 0 <= j < k
      ensures !(Multipliers[j].short <= t)
    {
      ShortNamesDiffer(j, k);
      assert t[0] == Multipliers[k].short[0];
      NotPrefixAt(Multipliers[j].short, t, 0);
    }
  }

  /** The rows of the unit table start with distinct letters, and a row's long
      name, when it has one, starts like its short name and is longer. */
  lemma UnitTableShape(j: nat, k: nat)
    requires j < k < |Units|
    ensures Units[j].short[0] != Units[k].short[0]
    ensures Units[j].long != "" ==> Units[j].long[0] == Units[j].short[0] && |Units[j].long| > |Units[j].short|
    ensures Units[k].long != "" ==> Units[k].long[0] == Units[k].short[0] && |Units[k].long| > |Units[k].short|
  {
  }

  /** Every unit name is consumed whole by the unit step. */
  lemma UnitNameConsumed(u: string)
    requires IsUnitName(u)
    ensures UnitRest(u) == Some([])
  {
    var r :| 0 <= r < |Units| && (u == Units[r].short || (Units[r].long != "" && u == Units[r].long));
    UnitFirstRow(u, r);
    UnitRestOfRow(u, r);
  }

  /** A name of unit row `r` matches no earlier row. */
  lemma UnitFirstRow(u: string, r: nat)
    requires r < |Units| && (u == Units[r].short || (Units[r].long != "" && u == Units[r].long))
    ensures FirstUnit(u, 0) == Some(r)
  {
    assert u[0] == Units[r].short[0] by {
      if r == 0 { UnitTableShape(0, 1); } else { UnitTableShape(0, r); }
    }
    forall j | 0 <= j < r
      ensures !UnitRowMatches(j, u)
    {
      UnitTableShape(j, r);
      NotPrefixAt(Units[j].short, u, 0);
      if Units[j].long != "" {
        NotPrefixAt(Units[j].long, u, 0);
      }
    }
    assert UnitRowMatches(r, u);
  }

  /** When row `r` is the first match, its own name leaves nothing. */
  lemma UnitRestOfRow(u: string, r: nat)
    requires r < |Units| && (u == Units[r].short || (Units[r].long != "" && u == Units[r].long))
    requires FirstUnit(u, 0) == Some(r)
    ensures UnitRest(u) == Some([])
  {
    if r == 0 { UnitTableShape(0, 1); } else { UnitTableShape(0, r); }
    assert u[|u|..] == [];
  }

  /** An upper-case letter is no number character and upper-cases to itself. */
  lemma LetterIsNoNumberChar(c: char)
    requires 'A' <= c <= 'Z'
    ensures c !in NumberChars && UpperChar(c) == c
  {
  }

  lemma UpperIsLetter(x: string, name: string)
    requires Upper(x) == name && name != [] && 'A' <= name[0] <= 'Z'
    ensures x != [] && UpperChar(x[0]) !in NumberChars
  {
    LetterIsNoNumberChar(name[0]);
  }

  /** The long multiplier names round-trip, in any letter case: a number text
      followed by a long multiplier name and, optionally, a unit name parses
      back to that mantissa and that multiplier's power of ten. */
  lemma LongMultiplierRoundTrip(m: string, x: string, k: nat, u: string)
    requires IsNumberText(m)
    requires k < |Multipliers|
    requires u == [] || IsUnitName(u)
    requires Upper(x) == Multipliers[k].long + u
    ensures GetValue(m + x) == Some(Value(m, Multipliers[k].exp10))
  {
    var L := Multipliers[k].long;
    MultiplierInitial(k);
    assert (L + u)[0] == L[0];
    UpperIsLetter(x, L + u);
    LongMultiplierStep(k, u);
    if u != [] {
      UnitNameConsumed(u);
    }
    AcceptedBySteps(m, x, Scaled(Multipliers[k].exp10, u));
  }

  /** With a short multiplier name other than `MEG` in front, optionally
      followed by a unit name, the multiplier step takes that row and leaves
      the unit name. */
  lemma LongMultiplierStep(k: nat, u: string)
    requires k < |Multipliers|
    ensures SplitMultiplier(Multipliers[k].long + u) == Scaled(Multipliers[k].exp10, u)
  {
    var L := Multipliers[k].long;
    MultiplierInitial(k);
    assert (L + u)[0] == L[0] != 'E';
    FirstLongMultiplier(k, u);
    assert (L + u)[|L|..] == u;
  }

  lemma ShortMultiplierStep(k: nat, u: string)
    requires k < |Multipliers| && k != 6
    requires u == [] || IsUnitName(u)
    ensures SplitMultiplier(Multipliers[k].short + u) == Scaled(Multipliers[k].exp10, u)
  {
    var S := Multipliers[k].short;
    MultiplierInitial(k);
    assert (S + u)[0] == S[0] != 'E';
    forall j | 0 <= j < |Multipliers|
      ensures !(Multipliers[j].long <= S + u)
    {
      ShortNotLong(k, u, j);
    }
    FirstShortMultiplier(k, u);
    assert (S + u)[|S|..] == u;
  }

  /** The short multiplier names round-trip the same way, all but `MEG`
      (see `TableOrderQuirks`). */
  lemma ShortMultiplierRoundTrip(m: string, x: string, k: nat, u: string)
    requires IsNumberText(m)
    requires k < |Multipliers| && k != 6
    requires u == [] || IsUnitName(u)
    requires Upper(x) == Multipliers[k].short + u
    ensures GetValue(m + x) == Some(Value(m, Multipliers[k].exp10))
  {
    var S := Multipliers[k].short;
    MultiplierInitial(k);
    assert (S + u)[0] == S[0];
    UpperIsLetter(x, S + u);
    ShortMultiplierStep(k, u);
    if u != [] {
      UnitNameConsumed(u);
    }
    AcceptedBySteps(m, x, Scaled(Multipliers[k].exp10, u));
  }

  lemma UnitInitial(r: nat)
    requires r < |Units|
    ensures Units[r].short != [] && Units[r].short[0] in {'F', 'O', 'H', 'A', 'V'} && 'A' <= Units[r].short[0] <= 'Z'
    ensures Units[r].long != "" ==> Units[r].long[0] == Units[r].short[0]
  {
  }

  lemma MultiplierInitial(j: nat)
    requires j < |Multipliers|
    ensures |Multipliers[j].long| >= 4 && Multipliers[j].long[0] in {'F', 'P', 'N', 'M', 'K', 'G', 'T'}
    ensures Multipliers[j].short != [] && Multipliers[j].short[0] in {'F', 'P', 'N', 'U', 'M', 'K', 'G', 'T'}
    ensures 'A' <= Multipliers[j].long[0] <= 'Z' && 'A' <= Multipliers[j].short[0] <= 'Z'
  {
  }

  lemma UnitNameInitial(u: string)
    requires IsUnitName(u)
    ensures u != [] && u[0] in {'F', 'O', 'H', 'A', 'V'} && 'A' <= u[0] <= 'Z'
  {
    var r :| 0 <= r < |Units| && (u == Units[r].short || (Units[r].long != "" && u == Units[r].long));
    UnitInitial(r);
    assert u[0] == Units[r].short[0];
  }

  /** No multiplier name starts a text whose first letter is none of theirs. */
  lemma NoMultiplierName(u: string)
    requires u != [] && u[0] !in {'F', 'P', 'N', 'U', 'M', 'K', 'G', 'T'}
    ensures forall j :: 0 <= j < |Multipliers| ==> !(Multipliers[j].long <= u) && !(Multipliers[j].short <= u)
  {
    forall j | 0 <= j < |Multipliers|
      ensures !(Multipliers[j].long <= u) && !(Multipliers[j].short <= u)
    {
      MultiplierInitial(j);
      NotPrefixAt(Multipliers[j].long, u, 0);
      NotPrefixAt(Multipliers[j].short, u, 0);
    }
  }

  /** A unit name that does not start with `F` starts like no multiplier. */
  lemma NoMultiplierStep(u: string)
    requires IsUnitName(u) && u[0] != 'F'
    ensures SplitMultiplier(u) == Scaled(0, u)
  {
    UnitNameInitial(u);
    NoMultiplierName(u);
  }

  /** A unit name straight after the number, with no multiplier, leaves the
      power of ten at 0, except for the farad names, which start like femto. */
  lemma UnitOnlyRoundTrip(m: string, x: string, u: string)
    requires IsNumberText(m)
    requires IsUnitName(u) && u[0] != 'F'
    requires Upper(x) == u
    ensures GetValue(m + x) == Some(Value(m, 0))
  {
    UnitNameInitial(u);
    UpperIsLetter(x, u);
    SplitAtMantissa(m, x);
    NoMultiplierStep(u);
    UnitNameConsumed(u);
  }

  /** No unit name starts a text whose first letter is none of theirs. */
  lemma NoUnitName(t: string)
    requires t != [] && t[0] !in {'F', 'O', 'H', 'A', 'V'}
    ensures UnitRest(t) == None
  {
    forall r | 0 <= r < |Units|
      ensures !UnitRowMatches(r, t)
    {
      UnitInitial(r);
      NotPrefixAt(Units[r].short, t, 0);
      if Units[r].long != "" {
        NotPrefixAt(Units[r].long, t, 0);
      }
    }
  }

  // The exponent form `E<n>`

  function DigitChar(d: nat): char
    requires d < 10
  {
    DigitChars[d]
  }

  lemma DigitCharValue(d: nat)
    requires d < 10
    ensures DigitChar(d) in DigitChars && DigitValue(DigitChar(d)) == d
  {
  }

  /** The decimal text of a natural number, without leading zeros. */
  function NatText(n: nat): (t: string)
    ensures t != [] && forall i :: 0 <= i < |t| ==> t[i] in DigitChars
  {
    if n < 10 then [DigitChar(n)] else NatText(n / 10) + [DigitChar(n % 10)]
  }

  /** The decimal text of an integer, with a `-` when it is negative. */
  function IntText(n: int): (t: string)
    ensures t != [] && forall i :: 0 <= i < |t| ==> t[i] in NumberChars
  {
    if n < 0 then "-" + NatText(-n) else NatText(n)
  }

  lemma {:induction false} DecimalValueOfNatText(n: nat)
    ensures DecimalValue(NatText(n)) == n
  {
    DigitCharValue(n % 10);
    if n >= 10 {
      var t := NatText(n);
      assert t[..|t| - 1] == NatText(n / 10);
      DecimalValueOfNatText(n / 10);
    }
  }

  /** A text that starts with a number character has no leading white space
      for `atoi` to skip. */
  lemma NoLeadingSpace(t: string)
    requires t != [] && t[0] in NumberChars
    ensures RunLength(t, SpaceChars) == 0 && t[RunLength(t, SpaceChars)..] == t
  {
    assert t[0] !in SpaceChars;
  }

  /** `atoi` reads back the text of any integer. */
  lemma AtoiOfIntText(n: int)
    ensures Atoi(IntText(n)) == n
  {
    var t := IntText(n);
    NoLeadingSpace(t);
    var d := if n < 0 then -n else n;
    var digits := NatText(d);
    RunLengthOfPrefix(digits, [], DigitChars);
    assert digits + [] == digits;
    DecimalValueOfNatText(d);
    if n < 0 {
      assert t[1..] == digits;
    }
  }

  /** Exponent notation round-trips: a number text, an `e` or `E` and the text
      of any integer parse back to that mantissa and that power of ten. */
  lemma ExponentRoundTrip(m: string, e: char, n: int)
    requires IsNumberText(m)
    requires e == 'e' || e == 'E'
    ensures GetValue(m + [e] + IntText(n)) == Some(Value(m, n))
  {
    var x := [e] + IntText(n);
    assert m + [e] + IntText(n) == m + x;
    LetterIsNoNumberChar('E');
    assert UpperChar(x[0]) == 'E';
    ExponentStep(e, n);
    GetValueBySteps(m, x, Scaled(n, []));
  }

  /** The multiplier step on `E` and an integer text reads that integer and
      leaves nothing. */
  lemma ExponentStep(e: char, n: int)
    requires e == 'e' || e == 'E'
    ensures SplitMultiplier(Upper([e] + IntText(n))) == Scaled(n, [])
  {
    var second := Upper([e] + IntText(n));
    UpperOfExponent(e, n);
    assert second[1..] == IntText(n);
    RunLengthOfPrefix(IntText(n), [], NumberChars);
    assert IntText(n) + [] == IntText(n);
    assert ExponentText(second) == IntText(n);
    AtoiOfIntText(n);
    assert second[1 + |IntText(n)|..] == [];
  }

  /** Upper-casing leaves an integer text alone. */
  lemma UpperOfExponent(e: char, n: int)
    requires e == 'e' || e == 'E'
    ensures Upper([e] + IntText(n)) == ['E'] + IntText(n)
  {
    var t := IntText(n);
    var u := Upper([e] + t);
    assert u[0] == 'E';
    forall i | 1 <= i < |u|
      ensures u[i] == (['E'] + t)[i]
    {
      assert ([e] + t)[i] == t[i - 1] && t[i - 1] in NumberChars;
    }
  }

  lemma {:induction false} RunLengthAppend(q: string, t: string, chars: string)
    requires RunLength(q, chars) < |q| || t == [] || t[0] !in chars
    ensures RunLength(q + t, chars) == RunLength(q, chars)
  {
    var r := RunLength(q, chars);
    assert q + t == q[..r] + (q[r..] + t);
    RunLengthOfPrefix(q[..r], q[r..] + t, chars);
  }

  /** `atoi` stops at the first character that cannot belong to a number. */
  lemma AtoiStopsAtNonNumber(p: string, c: char)
    requires IsNumberText(p)
    requires c !in NumberChars
    ensures Atoi(p + [c]) == Atoi(p)
  {
    if p == [] {
      assert [] + [c] == [c];
      if c !in SpaceChars {
        assert RunLength([c], SpaceChars) == 0;
        assert RunLength([c], DigitChars) == 0;
      }
    } else {
      assert (p + [c])[0] == p[0];
      NoLeadingSpace(p);
      NoLeadingSpace(p + [c]);
      var q := if p[0] == '-' || p[0] == '+' then p[1..] else p;
      assert (p + [c])[(|p| - |q|)..] == q + [c];
      RunLengthAppend(q, [c], DigitChars);
      var r := RunLength(q, DigitChars);
      assert (q + [c])[..r] == q[..r];
    }
  }

  /** The exponent text `getValue` hands to `atoi` is one character longer
      than the run of number characters it measured (`substr(1, 1+numlen)`
      where `substr(1, numlen)` was meant), but the extra character is never
      part of a number, so `atoi` reads the same exponent. */
  lemma ExponentTextHarmless(second: string)
    requires second != []
    ensures Atoi(ExponentText(second)) == Atoi(second[1..1 + RunLength(second[1..], NumberChars)])
  {
    var rest := second[1..];
    var run := RunLength(rest, NumberChars);
    var p := rest[..run];
    assert p == second[1..1 + run];
    if 2 + run <= |second| {
      var c := rest[run];
      assert ExponentText(second) == p + [c];
      assert IsNumberText(p) by {
        assert forall i :: 0 <= i < run ==> p[i] == rest[i];
      }
      AtoiStopsAtNonNumber(p, c);
    }
  }

  // The self-test table and the quirks

  lemma SelfTestExponent()
    ensures GetValue("2.3e-9") == Some(Value("2.3", -9))
  {
    assert IntText(-9) == "-9";
    ExponentRoundTrip("2.3", 'e', -9);
    assert "2.3" + ['e'] + "-9" == "2.3e-9";
  }

  lemma SelfTestNano()
    ensures GetValue("23.3n") == Some(Value("23.3", -9))
  {
    assert Upper("n") == "N" + [];
    ShortMultiplierRoundTrip("23.3", "n", 2, []);
    assert "23.3" + "n" == "23.3n";
  }

  lemma SelfTestNanoFarad()
    ensures GetValue("2.3nF") == Some(Value("2.3", -9))
  {
    assert IsUnitName("F") by { assert "F" == Units[0].short; }
    assert Upper("nF") == "N" + "F";
    ShortMultiplierRoundTrip("2.3", "nF", 2, "F");
    assert "2.3" + "nF" == "2.3nF";
  }

  lemma SelfTestPicoFarad()
    ensures GetValue("99.9pFaraD") == Some(Value("99.9", -12))
  {
    FaradIsUnit();
    UpperPicoFarad();
    ShortMultiplierRoundTrip("99.9", "pFaraD", 1, "FARAD");
    assert "99.9" + "pFaraD" == "99.9pFaraD";
  }

  lemma FaradIsUnit()
    ensures IsUnitName("FARAD")
  {
    assert "FARAD" == Units[0].long;
  }

  lemma UpperPicoFarad()
    ensures Upper("pFaraD") == "P" + "FARAD"
  {
    assert UpperChar('p') == 'P' && UpperChar('a') == 'A' && UpperChar('r') == 'R';
  }

  lemma SelfTestVolt()
    ensures GetValue("10V") == Some(Value("10", 0))
  {
    assert IsUnitName("V") by { assert "V" == Units[4].short; }
    assert Upper("V") == "V";
    UnitOnlyRoundTrip("10", "V", "V");
    assert "10" + "V" == "10V";
  }

  /** The self-test table the application runs at start-up: every entry is
      accepted, with the mantissa and power of ten of its expected value. */
  lemma SelfTests()
    ensures GetValue("1") == Some(Value("1", 0))
    ensures GetValue("2.3") == Some(Value("2.3", 0))
    ensures GetValue("2.3e-9") == Some(Value("2.3", -9))
    ensures GetValue("23.3n") == Some(Value("23.3", -9))
    ensures GetValue("2.3nF") == Some(Value("2.3", -9))
    ensures GetValue("99.9pFaraD") == Some(Value("99.9", -12))
    ensures GetValue("10V") == Some(Value("10", 0))
  {
    NumberRoundTrip("1");
    NumberRoundTrip("2.3");
    SelfTestExponent();
    SelfTestNano();
    SelfTestNanoFarad();
    SelfTestPicoFarad();
    SelfTestVolt();
  }

  /** The short name "M" (milli) comes before "MEG" in the table, so "MEG"
      after any number means 1e-3 and never 1e6; the "EG" left over starts with no unit name and is
      accepted. */
  lemma MegIsMilli(m: string)
    requires IsNumberText(m)
    ensures GetValue(m + "MEG") == Some(Value(m, -3))
  {
    MegStep();
    LetterIsNoNumberChar('M');
    assert Upper("MEG") == "MEG";
    GetValueBySteps(m, "MEG", Scaled(-3, "EG"));
    NoUnitName("EG");
  }

  /** A lone "F" is femto, not farad. */
  lemma LoneFIsFemto()
    ensures GetValue("10F") == Some(Value("10", -15))
  {
    assert Upper("F") == "F" + [];
    ShortMultiplierRoundTrip("10", "F", 0, []);
    assert "10" + "F" == "10F";
  }

  /** A farad written out without a multiplier fails: "F" is taken as femto,
      "ARAD" starts with the unit "A" and "RAD" is left over. */
  lemma FaradWithoutMultiplierFails(m: string)
    requires IsNumberText(m)
    ensures GetValue(m + "FARAD").None?
  {
    FaradStep();
    LetterIsNoNumberChar('F');
    UpperFarad();
    FarFromAmpere();
    RejectedBySteps(m, "FARAD", Scaled(-15, "ARAD"), "RAD");
  }

  /** Upper-casing leaves a text with no lower-case letter as it is. */
  lemma UpperOfCapitals(s: string)
    requires forall i :: 0 <= i < |s| ==> !IsLower(s[i])
    ensures Upper(s) == s
  {
  }

  lemma UpperFarad()
    ensures Upper("FARAD") == "FARAD"
  {
  }

  /** Text that starts with no unit name is accepted and ignored. */
  lemma UnknownUnitAccepted(m: string)
    requires IsNumberText(m)
    ensures GetValue(m + "X") == Some(Value(m, 0))
  {
    UnknownUnitStep();
    LetterIsNoNumberChar('X');
    AcceptedBySteps(m, "X", Scaled(0, "X"));
  }

  /** `X` is no multiplier and no unit name. */
  lemma UnknownUnitStep()
    ensures Upper("X") == "X" && SplitMultiplier("X") == Scaled(0, "X") && UnitRest("X") == None
  {
    assert Upper("X") == "X";
    NoMultiplierName("X");
    NoUnitName("X");
  }

  /** A token whose first letter starts no number, no exponent, no
      multiplier name and no unit name is accepted whatever follows, as the
      value `atof("")`, that is 0. */
  lemma LetterTokenAccepted(tok: string)
    requires tok != []
    requires UpperChar(tok[0]) !in NumberChars
    requires UpperChar(tok[0]) !in {'E', 'F', 'P', 'N', 'U', 'M', 'K', 'G', 'T', 'O', 'H', 'A', 'V'}
    ensures GetValue(tok) == Some(Value("", 0))
  {
    SplitAtMantissa("", tok);
    assert "" + tok == tok;
    var u := Upper(tok);
    assert u[0] == UpperChar(tok[0]);
    NoMultiplierName(u);
    NoUnitName(u);
  }

  /** A token without a single digit is a value too, which is what a
      transistor model name looks like. */
  lemma NoDigitsAccepted()
    ensures GetValue("BC547") == Some(Value("", 0))
  {
    LetterIsNoNumberChar('B');
    LetterTokenAccepted("BC547");
  }

  /** Characters after a complete unit name are refused. */
  lemma TextAfterUnitRejected(m: string)
    requires IsNumberText(m)
    ensures GetValue(m + "VX").None?
  {
    LetterIsNoNumberChar('V');
    VoltThenXStep();
    VoltThenX();
    RejectedBySteps(m, "VX", Scaled(0, "VX"), "X");
  }

  /** `VX` starts with no multiplier name. */
  lemma VoltThenXStep()
    ensures Upper("VX") == "VX" && SplitMultiplier("VX") == Scaled(0, "VX")
  {
    assert Upper("VX") == "VX";
    NoMultiplierName("VX");
  }

  lemma MegStep()
    ensures SplitMultiplier("MEG") == Scaled(-3, "EG")
  {
    forall j | 0 <= j < |Multipliers|
      ensures !(Multipliers[j].long <= "MEG")
    {
      MultiplierInitial(j);
    }
    FirstShortMultiplier(4, "EG");
    assert "M" + "EG" == "MEG";
    assert "MEG"[1..] == "EG";
  }

  lemma FaradStep()
    ensures SplitMultiplier("FARAD") == Scaled(-15, "ARAD")
  {
    forall j | 0 <= j < |Multipliers|
      ensures !(Multipliers[j].long <= "FARAD")
    {
      MultiplierInitial(j);
      if j == 0 {
        NotPrefixAt(Multipliers[j].long, "FARAD", 1);
      } else {
        NotPrefixAt(Multipliers[j].long, "FARAD", 0);
      }
    }
    FirstShortMultiplier(0, "ARAD");
    assert "F" + "ARAD" == "FARAD";
    assert "FARAD"[1..] == "ARAD";
  }

  lemma FarFromAmpere()
    ensures UnitRest("ARAD") == Some("RAD")
  {
    forall r | 0 <= r < 3
      ensures !UnitRowMatches(r, "ARAD")
    {
      UnitInitial(r);
      NotPrefixAt(Units[r].short, "ARAD", 0);
      if Units[r].long != "" {
        NotPrefixAt(Units[r].long, "ARAD", 0);
      }
    }
    NotPrefixAt(Units[3].long, "ARAD", 1);
    assert Units[3].short <= "ARAD";
    assert FirstUnit("ARAD", 0) == Some(3);
  }

  lemma VoltThenX()
    ensures UnitRest("VX") == Some("X")
  {
    forall r | 0 <= r < 4
      ensures !UnitRowMatches(r, "VX")
    {
      UnitInitial(r);
      NotPrefixAt(Units[r].short, "VX", 0);
      if Units[r].long != "" {
        NotPrefixAt(Units[r].long, "VX", 0);
      }
    }
    NotPrefixAt(Units[4].long, "VX", 1);
    assert Units[4].short <= "VX";
    assert FirstUnit("VX", 0) == Some(4);
  }
}
