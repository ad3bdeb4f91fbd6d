/**
 * The few ECMAScript built-ins the storefront scripts lean on, written out so
 * that the page logic can be stated over plain strings: the whitespace class
 * shared by String.prototype.trim and the regular-expression escape \s,
 * trim, the global whitespace removal `replace(/\s+/g, '')`, toLowerCase,
 * includes, and parseInt with no radix (section 19.2.5 of ECMA-262).
 * It also holds the form control record that the page modules share.
 */
module Js {

  datatype Option<+T> = None | Some(value: T)

  /** WhiteSpace and LineTerminator code points: what trim() strips and what \s matches. */
  predicate IsSpace(c: char) {
    c == '\t' || c == '\n' || c == '\U{B}' || c == '\U{C}' || c == '\r' || c == ' ' ||
    c == '\U{A0}' || c == '\U{1680}' || ('\U{2000}' <= c <= '\U{200A}') ||
    c == '\U{2028}' || c == '\U{2029}' || c == '\U{202F}' || c == '\U{205F}' ||
    c == '\U{3000}' || c == '\U{FEFF}'
  }

  predicate AllSpaces(s: string) {
    forall i :: 0 <= i < |s| ==> IsSpace(s[i])
  }

  predicate NoSpaces(s: string) {
    forall i :: 0 <= i < |s| ==> !IsSpace(s[i])
  }

  /** Drops the leading whitespace: what is left does not start with whitespace. */
  function TrimStart(s: string): (r: string)
    ensures |r| <= |s|
    ensures r == [] || !IsSpace(r[0])
  {
    if |s| > 0 && IsSpace(s[0]) then TrimStart(s[1..]) else s
  }

  /** What TrimStart keeps is a suffix of its input, and what it drops is all whitespace. */
  lemma {:induction false} TrimStartSuffix(s: string)
    ensures TrimStart(s) == s[|s| - |TrimStart(s)|..]
    ensures AllSpaces(s[..|s| - |TrimStart(s)|])
  {
    if |s| > 0 && IsSpace(s[0]) {
      TrimStartSuffix(s[1..]);
      var r := TrimStart(s);
      assert s[1..][|s| - 1 - |r|..] == s[|s| - |r|..];
      assert s[..|s| - |r|] == [s[0]] + s[1..][..|s| - 1 - |r|];
    }
  }

  /** Drops the trailing whitespace: what is left does not end with whitespace. */
  function TrimEnd(s: string): (r: string)
    ensures |r| <= |s|
    ensures r == [] || !IsSpace(r[|r| - 1])
  {
    if |s| > 0 && IsSpace(s[|s| - 1]) then TrimEnd(s[..|s| - 1]) else s
  }

  /** What TrimEnd keeps is a prefix of its input, and what it drops is all whitespace. */
  lemma {:induction false} TrimEndPrefix(s: string)
    ensures TrimEnd(s) == s[..|TrimEnd(s)|]
    ensures AllSpaces(s[|TrimEnd(s)|..])
  {
    if |s| > 0 && IsSpace(s[|s| - 1]) {
      TrimEndPrefix(s[..|s| - 1]);
      var r := TrimEnd(s);
      assert s[|r|..] == s[..|s| - 1][|r|..] + [s[|s| - 1]];
    }
  }

  /** `s` is `r` padded on each side with whitespace only, the left pad being `lead` long. */
  ghost predicate PaddedBySpaces(s: string, lead: int, r: string) {
    0 <= lead && lead + |r| <= |s| &&
    s[lead..lead + |r|] == r && AllSpaces(s[..lead]) && AllSpaces(s[lead + |r|..])
  }

  /** String.prototype.trim: leading and trailing whitespace removed. */
  function Trim(s: string): (r: string)
    ensures |r| <= |s|
    ensures r == [] || (!IsSpace(r[0]) && !IsSpace(r[|r| - 1]))
  {
    var t := TrimStart(s);
    var r := TrimEnd(t);
    assert r != [] ==> r[0] == t[0] by {
      if r != [] { TrimEndPrefix(t); assert r[0] == t[..|r|][0]; }
    }
    r
  }

  /** What trim keeps is the infix of `s` between two runs of whitespace. */
  lemma TrimPadded(s: string)
    ensures PaddedBySpaces(s, |s| - |TrimStart(s)|, Trim(s))
  {
    var t := TrimStart(s);
    var r := TrimEnd(t);
    TrimStartSuffix(s);
    TrimEndPrefix(t);
    var lead := |s| - |t|;
    assert s[lead..lead + |r|] == t[..|r|];
    assert s[lead + |r|..] == t[|r|..];
  }

  /** Trimming an all-whitespace string (and only such a string) leaves nothing. */
  lemma TrimEmptyIffAllSpaces(s: string)
    ensures Trim(s) == [] <==> AllSpaces(s)
  {
    TrimPadded(s);
    var r := Trim(s);
    var lead := |s| - |TrimStart(s)|;
    if r == [] {
      assert s == s[..lead] + s[lead..];
      assert forall i :: lead <= i < |s| ==> s[i] == s[lead..][i - lead];
    } else {
      assert s[lead] == r[0];
    }
  }

  /** Trimming is idempotent. */
  lemma TrimIdempotent(s: string)
    ensures Trim(Trim(s)) == Trim(s)
  {
    var r := Trim(s);
    if r != [] {
      assert TrimStart(r) == r;
      assert TrimEnd(r) == r;
    }
  }

  /** `replace(/\s+/g, '')`: every whitespace character removed, the rest kept in order. */
  function RemoveSpaces(s: string): (r: string)
    ensures NoSpaces(r) && |r| <= |s|
    ensures NoSpaces(s) ==> r == s
  {
    if s == [] then []
    else if IsSpace(s[0]) then RemoveSpaces(s[1..])
    else [s[0]] + RemoveSpaces(s[1..])
  }

  /** Removing whitespace commutes with concatenation, so whitespace anywhere in the input is ignored. */
  lemma {:induction false} RemoveSpacesAppend(a: string, b: string)
    ensures RemoveSpaces(a + b) == RemoveSpaces(a) + RemoveSpaces(b)
  {
    if a != [] {
      assert (a + b)[0] == a[0] && (a + b)[1..] == a[1..] + b;
      RemoveSpacesAppend(a[1..], b);
    } else {
      assert a + b == b;
    }
  }

  /** The lower-case mapping of String.prototype.toLowerCase, on Basic Latin and Latin-1 letters. */
  function LowerChar(c: char): (d: char)
    ensures ('A' <= c <= 'Z') ==> 'a' <= d <= 'z'
    ensures !('A' <= c <= 'Z') && !('\U{C0}' <= c <= '\U{DE}') ==> d == c
  {
    if 'A' <= c <= 'Z' || ('\U{C0}' <= c <= '\U{DE}' && c != '\U{D7}') then (c as int + 32) as char
    else c
  }

  function ToLower(s: string): (r: string)
    ensures |r| == |s|
    ensures forall i :: 0 <= i < |s| ==> r[i] == LowerChar(s[i])
  {
    if s == [] then [] else [LowerChar(s[0])] + ToLower(s[1..])
  }

  lemma {:induction false} ToLowerAppend(a: string, b: string)
    ensures ToLower(a + b) == ToLower(a) + ToLower(b)
  {
    var l := ToLower(a + b);
    assert |l| == |ToLower(a) + ToLower(b)|;
    forall i | 0 <= i < |l| ensures l[i] == (ToLower(a) + ToLower(b))[i] {
      if i < |a| { assert (a + b)[i] == a[i]; } else { assert (a + b)[i] == b[i - |a|]; }
    }
  }

  /** `q` occurs in `s` starting at index `i`. */
  ghost predicate OccursAt(s: string, q: string, i: int) {
    0 <= i && i + |q| <= |s| && s[i..i + |q|] == q
  }

  /** String.prototype.includes. */
  function Includes(s: string, q: string): (b: bool)
    ensures b <==> exists i :: OccursAt(s, q, i)
  {
    if |q| <= |s| && s[..|q|] == q then
      assert OccursAt(s, q, 0);
      true
    else if |s| <= |q| then
      assert forall i :: OccursAt(s, q, i) ==> i == 0;
      false
    else
      var rest := Includes(s[1..], q);
      assert rest ==> exists i :: OccursAt(s, q, i) by {
        if rest {
          var i :| OccursAt(s[1..], q, i);
          assert OccursAt(s, q, i + 1);
        }
      }
      assert (exists i :: OccursAt(s, q, i)) ==> rest by {
        if exists i :: OccursAt(s, q, i) {
          var i :| OccursAt(s, q, i);
          assert i != 0;
          assert OccursAt(s[1..], q, i - 1);
        }
      }
      rest
  }

  // ----- parseInt -----

  predicate IsDecimalDigit(c: char) { '0' <= c <= '9' }

  predicate IsRadixDigit(c: char, radix: nat) {
    if radix == 16 then IsDecimalDigit(c) || ('a' <= c <= 'f') || ('A' <= c <= 'F')
    else IsDecimalDigit(c)
  }

  function DigitValue(c: char): (v: nat)
    ensures v < 16
  {
    if IsDecimalDigit(c) then c as int - '0' as int
    else if 'a' <= c <= 'f' then c as int - 'a' as int + 10
    else if 'A' <= c <= 'F' then c as int - 'A' as int + 10
    else 0
  }

  /** The longest prefix of `s` made of digits of the radix. */
  function DigitPrefix(s: string, radix: nat): (z: string)
    ensures |z| <= |s| && z == s[..|z|]
    ensures forall i :: 0 <= i < |z| ==> IsRadixDigit(z[i], radix)
    ensures |z| < |s| ==> !IsRadixDigit(s[|z|], radix)
  {
    if s != [] && IsRadixDigit(s[0], radix) then [s[0]] + DigitPrefix(s[1..], radix) else []
  }

  /** The value of a digit string, most significant digit first. */
  function DigitsValue(z: string, radix: nat): nat {
    if z == [] then 0 else DigitsValue(z[..|z| - 1], radix) * radix + DigitValue(z[|z| - 1])
  }

  /**
   * parseInt(s) with the radix left out: skip leading whitespace, take one
   * optional sign, switch to radix 16 after "0x" or "0X", then read the longest
   * run of digits; None stands for NaN (no digit at all). Negative zero is
   * represented by 0: every caller here treats the two alike.
   */
  function ParseInt(s: string): Option<int> {
    ParseSigned(TrimStart(s))
  }

  /**
   * parseInt after the leading whitespace: one optional sign, then the
   * magnitude. The result is NaN exactly when the unsigned part has no digit;
   * otherwise it is that part's magnitude, negated exactly after a '-'.
   */
  function ParseSigned(t: string): (r: Option<int>)
    ensures var u := if |t| > 0 && (t[0] == '-' || t[0] == '+') then t[1..] else t;
            (r.None? <==> ParseMagnitude(u).None?) &&
            (r.Some? ==> ParseMagnitude(u) == Some(if r.value < 0 then -r.value else r.value)) &&
            (r.Some? && r.value < 0 ==> t[0] == '-') &&
            (r.Some? ==> r.value == if |t| > 0 && t[0] == '-' then -(ParseMagnitude(u).value as int)
                                    else ParseMagnitude(u).value)
  {
    if |t| > 0 && t[0] == '-' then
      match ParseMagnitude(t[1..])
      case None => None
      case Some(m) => var v: int := m; Some(-v)
    else if |t| > 0 && t[0] == '+' then ParseMagnitude(t[1..])
    else ParseMagnitude(t)
  }

  /** The unsigned part: "0x"/"0X" selects radix 16, then the longest run of digits. */
  function ParseMagnitude(u: string): (r: Option<nat>)
    ensures r.None? <==> DigitPrefix(if HexPrefixed(u) then u[2..] else u, if HexPrefixed(u) then 16 else 10) == []
  {
    var radix := if HexPrefixed(u) then 16 else 10;
    var z := DigitPrefix(if HexPrefixed(u) then u[2..] else u, radix);
    if z == [] then None else Some(DigitsValue(z, radix))
  }

  predicate HexPrefixed(u: string) {
    |u| >= 2 && u[0] == '0' && (u[1] == 'x' || u[1] == 'X')
  }

  /** parseInt applied to an attribute that may be missing: parseInt(null) reads "null" and is NaN. */
  function ParseAttribute(a: Option<string>): (r: Option<int>)
    ensures a.None? ==> r.None?
  {
    match a
    case None => None
    case Some(s) => ParseInt(s)
  }

  /** Whitespace before the number does not change what parseInt reads. */
  lemma LeadingSpacesIgnored(w: string, s: string)
    requires AllSpaces(w)
    ensures ParseInt(w + s) == ParseInt(s)
  {
    LeadingSpacesTrimmed(w, s);
  }

  lemma {:induction false} LeadingSpacesTrimmed(w: string, s: string)
    requires AllSpaces(w)
    ensures TrimStart(w + s) == TrimStart(s)
  {
    if w != [] {
      assert (w + s)[1..] == w[1..] + s;
      LeadingSpacesTrimmed(w[1..], s);
    } else {
      assert w + s == s;
    }
  }

  /** The decimal digits of a natural number, as Number.prototype.toString writes them. */
  function NatString(n: nat): (r: string)
    ensures |r| > 0
    ensures forall i :: 0 <= i < |r| ==> IsDecimalDigit(r[i])
  {
    var d := [('0' as int + n % 10) as char];
    if n < 10 then d else NatString(n / 10) + d
  }

  /** Number-to-string conversion of an integer, as an assignment to an input's value performs it. */
  function DecimalString(n: int): string {
    if n < 0 then "-" + NatString(-n) else NatString(n)
  }

  lemma {:induction false} NatStringValue(n: nat)
    ensures DigitsValue(NatString(n), 10) == n
  {
    if n >= 10 {
      NatStringValue(n / 10);
      var r := NatString(n);
      assert r[..|r| - 1] == NatString(n / 10);
    }
  }

  lemma {:induction false} DigitPrefixOfDigits(z: string)
    requires forall i :: 0 <= i < |z| ==> IsDecimalDigit(z[i])
    ensures DigitPrefix(z, 10) == z
  {
    if z != [] {
      DigitPrefixOfDigits(z[1..]);
    }
  }

  lemma MagnitudeOfNatString(m: nat)
    ensures ParseMagnitude(NatString(m)) == Some(m)
  {
    var z := NatString(m);
    NatStringValue(m);
    DigitPrefixOfDigits(z);
    assert !HexPrefixed(z) by {
      if |z| >= 2 { assert IsDecimalDigit(z[1]); }
    }
  }

  lemma NatStringUnpadded(m: nat)
    ensures TrimStart(NatString(m)) == NatString(m)
    ensures NatString(m)[0] != '-' && NatString(m)[0] != '+'
  {
    var z := NatString(m);
    assert IsDecimalDigit(z[0]);
  }

  /** parseInt reads back every integer written in decimal. */
  lemma ParseDecimalString(n: int)
    ensures ParseInt(DecimalString(n)) == Some(n)
  {
    var m: nat := if n < 0 then -n else n;
    var z := NatString(m);
    MagnitudeOfNatString(m);
    NatStringUnpadded(m);
    if n < 0 {
      var t := "-" + z;
      assert t == DecimalString(n);
      assert TrimStart(t) == t by { assert t[0] == '-'; }
      assert t[1..] == z;
      assert ParseSigned(t) == Some(n);
    } else {
      assert z == DecimalString(n);
      assert ParseSigned(z) == Some(n);
    }
  }

  /** A form control as the page scripts see it: its name, its required attribute, its current and its default value. */
  datatype Control = Control(name: string, required: bool, value: string, defaultValue: string)

  /** HTMLFormElement.reset() on one control: the value returns to the default. */
  function Reset(c: Control): (r: Control)
    ensures r.value == c.defaultValue
    ensures r.name == c.name && r.required == c.required && r.defaultValue == c.defaultValue
  {
    c.(value := c.defaultValue)
  }
}
