/**
 * The string predicates of the Utils class in main.js: isValidEmail and
 * isValidChileanPhone. Each regular expression is stated as what a match
 * means (a split of the string into the pattern's parts), and the checking
 * function, written with explicit character classes, is proved to accept
 * exactly the matching strings.
 */
module Utils {
  import opened Js

  /** The class [^\s@]. */
  predicate EmailChar(c: char) { !IsSpace(c) && c != '@' }

  predicate AllEmailChars(s: string) {
    forall k :: 0 <= k < |s| ==> EmailChar(s[k])
  }

  /** /^[^\s@]+@[^\s@]+\.[^\s@]+$/ matches `s` with its '@' at `i` and the chosen '.' at `j`. */
  ghost predicate EmailSplit(s: string, i: int, j: int) {
    0 < i && i + 1 < j && j + 1 < |s| && s[i] == '@' && s[j] == '.' &&
    AllEmailChars(s[..i]) && AllEmailChars(s[i + 1..j]) && AllEmailChars(s[j + 1..])
  }

  ghost predicate EmailPattern(s: string) {
    exists i, j :: EmailSplit(s, i, j)
  }

  /** The first index of `c` in `s`. */
  function IndexOf(s: string, c: char): (r: Option<nat>)
    ensures r.Some? ==> r.value < |s| && s[r.value] == c && forall k :: 0 <= k < r.value ==> s[k] != c
    ensures r.None? ==> forall k :: 0 <= k < |s| ==> s[k] != c
  {
    if s == [] then None
    else if s[0] == c then Some(0)
    else match IndexOf(s[1..], c)
      case None => None
      case Some(k) => Some(k + 1)
  }

  /** `d` has a '.' that is neither its first nor its last character. */
  predicate HasInnerDot(d: string) {
    |d| >= 3 && '.' in d[1..|d| - 1]
  }

  /**
   * Utils.isValidEmail: no whitespace, exactly one '@' with something before
   * it, and after it a domain with a '.' that is neither its first nor its
   * last character.
   */
  function IsValidEmail(s: string): (b: bool)
    ensures b <==> EmailPattern(s)
  {
    match IndexOf(s, '@')
    case None =>
      false
    case Some(i) =>
      var d := s[i + 1..];
      var b := NoSpaces(s) && 0 < i && (forall k :: 0 <= k < |d| ==> d[k] != '@') && HasInnerDot(d);
      EmailCheckSound(s, i);
      b
  }

  /** The check on the first '@' at `i` is the pattern: both directions. */
  lemma EmailCheckSound(s: string, i: nat)
    requires IndexOf(s, '@') == Some(i)
    ensures var d := s[i + 1..];
            (NoSpaces(s) && 0 < i && (forall k :: 0 <= k < |d| ==> d[k] != '@') && HasInnerDot(d)) <==> EmailPattern(s)
  {
    var d := s[i + 1..];
    if NoSpaces(s) && 0 < i && (forall k :: 0 <= k < |d| ==> d[k] != '@') && HasInnerDot(d) {
      forall k | 0 <= k < |s| ensures s[k] != '@' || k == i {
        if i < k { assert d[k - i - 1] == s[k]; }
      }
      EmailCheckSufficient(s, i);
    }
    if EmailPattern(s) {
      var i', j :| EmailSplit(s, i', j);
      EmailSplitNecessary(s, i, j);
    }
  }

  lemma EmailCheckSufficient(s: string, i: nat)
    requires i < |s| && s[i] == '@'
    requires NoSpaces(s) && 0 < i && HasInnerDot(s[i + 1..])
    requires forall k :: 0 <= k < |s| ==> s[k] != '@' || k == i
    ensures EmailPattern(s)
  {
    var d := s[i + 1..];
    var m :| 0 <= m < |d[1..|d| - 1]| && d[1..|d| - 1][m] == '.';
    var j := i + 2 + m;
    assert s[j] == d[1..|d| - 1][m];
    EmailCharsOfRange(s, 0, i);
    EmailCharsOfRange(s, i + 1, j);
    EmailCharsOfRange(s, j + 1, |s|);
    assert s[j + 1..|s|] == s[j + 1..];
    assert EmailSplit(s, i, j);
  }

  lemma EmailSplitNecessary(s: string, i: nat, j: int)
    requires IndexOf(s, '@') == Some(i)
    requires exists i' :: EmailSplit(s, i', j)
    ensures var d := s[i + 1..];
            NoSpaces(s) && 0 < i && (forall k :: 0 <= k < |d| ==> d[k] != '@') && HasInnerDot(d)
  {
    var i' :| EmailSplit(s, i', j);
    assert i' == i;
    var d := s[i + 1..];
    forall k | 0 <= k < |s| ensures !IsSpace(s[k]) {
      if k < i { assert s[..i][k] == s[k]; }
      else if i < k < j { assert s[i + 1..j][k - i - 1] == s[k]; }
      else if j < k { assert s[j + 1..][k - j - 1] == s[k]; }
    }
    forall k | 0 <= k < |d| ensures d[k] != '@' {
      if i + 1 + k < j { assert s[i + 1..j][k] == d[k]; }
      else if i + 1 + k > j { assert s[j + 1..][i + k - j] == d[k]; }
    }
    assert d[1..|d| - 1][j - i - 2] == '.';
  }

  lemma EmailCharsOfRange(s: string, a: nat, b: nat)
    requires a <= b <= |s|
    requires forall k :: a <= k < b ==> EmailChar(s[k])
    ensures AllEmailChars(s[a..b])
  {
    assert forall k :: 0 <= k < b - a ==> s[a..b][k] == s[a + k];
  }

  // ----- Chilean phone numbers -----

  /** [2-9]\d{8}: a leading digit 2 to 9, then exactly eight digits. */
  predicate NationalNumber(t: string) {
    |t| == 9 && '2' <= t[0] <= '9' && forall k :: 1 <= k < 9 ==> IsDecimalDigit(t[k])
  }

  /** (\+?56)?: nothing, "56" or "+56". */
  predicate CountryPrefix(p: string) {
    p == "" || p == "56" || p == "+56"
  }

  /** /^(\+?56)?[2-9]\d{8}$/ matches `t` with its optional prefix `t[..k]`. */
  ghost predicate PhoneSplit(t: string, k: int) {
    0 <= k <= |t| && CountryPrefix(t[..k]) && NationalNumber(t[k..])
  }

  ghost predicate PhonePattern(t: string) {
    exists k :: PhoneSplit(t, k)
  }

  /** The regular expression /^(\+?56)?[2-9]\d{8}$/ by length: 9 characters bare, 11 after "56", 12 after "+56". */
  function MatchesPhonePattern(t: string): (b: bool)
    ensures b <==> PhonePattern(t)
  {
    var b := if |t| == 9 then NationalNumber(t)
             else if |t| == 11 then t[..2] == "56" && NationalNumber(t[2..])
             else if |t| == 12 then t[..3] == "+56" && NationalNumber(t[3..])
             else false;
    assert b ==> PhonePattern(t) by {
      if b {
        if |t| == 9 { assert t[..0] == "" && t[0..] == t; assert PhoneSplit(t, 0); }
        else if |t| == 11 { assert PhoneSplit(t, 2); }
        else { assert PhoneSplit(t, 3); }
      }
    }
    assert PhonePattern(t) ==> b by {
      if PhonePattern(t) {
        var k :| PhoneSplit(t, k);
        assert |t[..k]| == k;
        assert k == 0 || k == 2 || k == 3;
        if k == 0 { assert t[0..] == t; }
      }
    }
    b
  }

  /** Utils.isValidChileanPhone: the phone with every whitespace character removed matches the pattern. */
  function IsValidChileanPhone(phone: string): (b: bool)
    ensures b <==> PhonePattern(RemoveSpaces(phone))
  {
    MatchesPhonePattern(RemoveSpaces(phone))
  }

  /** A valid phone, once its spaces are gone, ends in a nine-character national number and is 9, 11 or 12 long. */
  lemma ValidPhoneShape(phone: string)
    requires IsValidChileanPhone(phone)
    ensures var t := RemoveSpaces(phone);
            (|t| == 9 || |t| == 11 || |t| == 12) && NationalNumber(t[|t| - 9..])
  {
    var t := RemoveSpaces(phone);
    if |t| == 9 { assert t[0..] == t; }
  }

  /** Whitespace anywhere in a phone number does not change the verdict. */
  lemma PhoneSpacesIgnored(a: string, w: string, b: string)
    requires AllSpaces(w)
    ensures IsValidChileanPhone(a + w + b) == IsValidChileanPhone(a + b)
  {
    RemoveSpacesAppend(a + w, b);
    RemoveSpacesAppend(a, w);
    RemoveSpacesAppend(a, b);
    AllSpacesRemoved(w);
    assert RemoveSpaces(a + w) == RemoveSpaces(a) + [];
    assert RemoveSpaces(a) + [] == RemoveSpaces(a);
  }

  lemma {:induction false} AllSpacesRemoved(w: string)
    requires AllSpaces(w)
    ensures RemoveSpaces(w) == []
  {
    if w != [] {
      AllSpacesRemoved(w[1..]);
    }
  }

  /** Whitespace between the "+56" prefix and a national number is ignored: the number is accepted. */
  lemma SpacedInternationalAccepted(w: string, national: string)
    requires AllSpaces(w) && NationalNumber(national)
    ensures IsValidChileanPhone("+56" + w + national)
  {
    var t := "+56" + national;
    assert NoSpaces(t) by {
      assert forall k :: 3 <= k < |t| ==> t[k] == national[k - 3];
    }
    assert t[..3] == "+56" && t[3..] == national;
    assert PhoneSplit(t, 3);
    PhoneSpacesIgnored("+56", w, national);
  }
}
