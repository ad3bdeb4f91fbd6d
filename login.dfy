/**
 * The login form of login.js: a trimmed email that must match
 * /^\S+@\S+\.\S+$/ and a trimmed password that must be non-empty. Both checks
 * run on every submission; the form is reset only when both pass.
 */
module Login {
  import opened Js
  import Utils

  /** /^\S+@\S+\.\S+$/ matches `s` with the '@' at `i` and the '.' at `j`: no whitespace anywhere, and all three parts non-empty. */
  ghost predicate LoginSplit(s: string, i: int, j: int) {
    NoSpaces(s) && 1 <= i && i + 1 < j && j + 1 < |s| && s[i] == '@' && s[j] == '.'
  }

  ghost predicate LoginEmailPattern(s: string) {
    exists i, j :: LoginSplit(s, i, j)
  }

  /** The last index of `c` in `s`. */
  function LastIndexOf(s: string, c: char): (r: Option<nat>)
    ensures r.Some? ==> r.value < |s| && s[r.value] == c && forall k :: r.value < k < |s| ==> s[k] != c
    ensures r.None? ==> forall k :: 0 <= k < |s| ==> s[k] != c
  {
    if s == [] then None
    else if s[|s| - 1] == c then Some(|s| - 1)
    else LastIndexOf(s[..|s| - 1], c)
  }

  /**
   * The regular expression as a scan: the first '@' after the first
   * character and the last '.' before the last character must have a
   * character between them.
   */
  function IsLoginEmail(s: string): (b: bool)
    ensures b <==> LoginEmailPattern(s)
  {
    if !NoSpaces(s) || |s| < 2 then
      assert !LoginEmailPattern(s);
      false
    else
      var at := Utils.IndexOf(s[1..], '@');
      var dot := LastIndexOf(s[..|s| - 1], '.');
      var b := at.Some? && dot.Some? && at.value + 2 < dot.value;
      LoginScanSound(s, at, dot);
      b
  }

  lemma LoginScanSound(s: string, at: Option<nat>, dot: Option<nat>)
    requires NoSpaces(s) && |s| >= 2
    requires at == Utils.IndexOf(s[1..], '@') && dot == LastIndexOf(s[..|s| - 1], '.')
    ensures (at.Some? && dot.Some? && at.value + 2 < dot.value) <==> LoginEmailPattern(s)
  {
    if at.Some? && dot.Some? && at.value + 2 < dot.value {
      assert s[at.value + 1] == s[1..][at.value];
      assert s[dot.value] == s[..|s| - 1][dot.value];
      assert LoginSplit(s, at.value + 1, dot.value);
    }
    if LoginEmailPattern(s) {
      var i, j :| LoginSplit(s, i, j);
      assert s[1..][i - 1] == '@';
      assert s[..|s| - 1][j] == '.';
    }
  }

  class LoginForm {
    var email: Control
    var password: Control
    /** Whether each field carries `is-invalid`. */
    var emailInvalid: bool
    var passwordInvalid: bool
    /** How many times the welcome dialog was shown. */
    var welcomes: nat

    constructor (emailField: Control, passwordField: Control)
      ensures email == emailField && password == passwordField
      ensures !emailInvalid && !passwordInvalid && welcomes == 0
    {
      email := emailField;
      password := passwordField;
      emailInvalid := false;
      passwordInvalid := false;
      welcomes := 0;
    }

    /** The submit handler: both checks run and mark their field; a valid form shows the welcome and is reset. */
    method Submit() returns (valid: bool)
      modifies this
      ensures emailInvalid <==> !LoginEmailPattern(Trim(old(email).value))
      ensures passwordInvalid <==> Trim(old(password).value) == []
      ensures valid <==> !emailInvalid && !passwordInvalid
      ensures valid ==> email == Reset(old(email)) && password == Reset(old(password)) && welcomes == old(welcomes) + 1
      ensures !valid ==> email == old(email) && password == old(password) && welcomes == old(welcomes)
    {
      valid := true;
      var emailText := Trim(email.value);
      if !IsLoginEmail(emailText) {
        emailInvalid := true;
        valid := false;
      } else {
        emailInvalid := false;
      }
      var passwordText := Trim(password.value);
      if passwordText == [] {
        passwordInvalid := true;
        valid := false;
      } else {
        passwordInvalid := false;
      }
      if valid {
        welcomes := welcomes + 1;
        email := Reset(email);
        password := Reset(password);
      }
    }
  }

  /** A password made only of whitespace is refused. */
  lemma BlankPasswordRefused(p: string)
    requires AllSpaces(p)
    ensures Trim(p) == []
  {
    TrimEmptyIffAllSpaces(p);
  }

  /** The login pattern is looser than Utils.isValidEmail: it accepts a second '@'. */
  lemma LoginAcceptsTwoAts()
    ensures IsLoginEmail("a@b@c.d")
    ensures !Utils.IsValidEmail("a@b@c.d")
  {
    var s := "a@b@c.d";
    assert NoSpaces(s);
    assert LoginSplit(s, 1, 5);
    assert Utils.IndexOf(s, '@') == Some(1);
    assert s[2..][1] == '@';
  }
}
